# Product store model

A Dafny model of the product API in `routes/products.js`. That file is an
Express router over an in-memory, ordered list of product records (the
module-level `products` array). It has seven handlers:

- `GET /stats`: total count, average price, count per category.
- `GET /search?name=`: case-insensitive substring search on the name.
- `GET /?category=&page=&limit=`: optional case-insensitive category filter, then a page.
- `GET /:id`: lookup by id.
- `POST /`: create with defaults.
- `PUT /:id`: shallow merge of the body into the stored record.
- `DELETE /:id`: removal of the record.

Layout:

- `text.dfy` (module `Text`): ASCII lower-casing (`toLowerCase`) and substring containment (`includes`).
- `seqs.dfy` (module `Seqs`): `filter`, `slice` with JavaScript's rules for negative indices, and the one-element `splice`.
- `products.dfy` (module `Products`): the product and request-body records, the error kinds with their HTTP status, and the four read-only handlers as functions of the store's contents.
- `store.dfy` (module `Store`): class `ProductStore`, whose `products` field is the mutable list (a `seq` that each method reassigns), with the methods `Create`, `Update` and `Delete`, and lemmas that relate those operations to the lookups.

Modelling choices:

- A handler's JSON reply is the function's result. An error reply is `Err(e)`, and `e.Status()` is 404, 400 or 500.
- The 500 case is the global error handler in `server.js` catching an exception. The one exception the core can raise is the TypeError from `p.name.toLowerCase()` in a search over a product that has no name.
- A request body is a record of `Option`s. `None` means the key is absent.
- A product's `name` is an `Option<string>`, because POST / accepts a body without a name.
- The id that `uuidv4()` would produce is a parameter of `Create`. It is required not to be in use.
- A price is a JSON number held as an exact `real`, so fractional prices such as 9.99 are expressible. `averagePrice` is the exact quotient of the price sum by the count.
- `page` and `limit` are the integers `parseInt` produced. `None` stands for an absent or non-numeric value.

One natural expectation does not hold in general: that GET /:id answers 404 after DELETE of any existing id. That only holds while ids are unique, and the code does not keep them unique. PUT merges a body's `id` key like any other key, so it can copy another record's id. `DuplicateIdSurvivesDelete` shows such a case. The lemmas about GET after PUT or DELETE therefore assume `UniqueIds`. `CreateKeepsIdsUnique`, `UpdateKeepsIdsUnique` and `DeleteKeepsIdsUnique` state when the store keeps that property.

## Model

| member | source | states |
|---|---|---|
| `Products.Error.Status` | routes/products.js:35-36 | A missing search query answers 400 and a not-found error 404, as the handlers send at lines 36, 79, 106 and 118. An exception reaching the global handler of `server.js` answers 500. |
| `Products.FindIndex` | routes/products.js:104 | `findIndex` gives -1 exactly when no product has the id. Otherwise it gives an index holding the id, with no earlier index holding it. |
| `Products.GetById` | routes/products.js:76-82 | GET /:id succeeds exactly when some product has the id, and returns the first such product. Otherwise it fails with 404 "Product not found". |
| `Products.GetByIdUnique` | routes/products.js:77 | With unique ids, GET /:id returns the one product carrying the id. |
| `Products.NewProduct` | routes/products.js:88-95 | The created record has the given id and the body's name verbatim, even when absent. Description defaults to "" and price to 0. Category is never empty: an absent or empty category becomes "Uncategorized". `inStock` is false only for an explicit `false`. |
| `Products.Merge` | routes/products.js:108 | Each key the body carries overwrites the stored field, `id` included. Every field the body lacks keeps its stored value. |
| `Products.MergeIdempotent` | routes/products.js:108 | Merging the same body twice equals merging it once. An empty body leaves the record unchanged. |
| `Products.PriceSum` | routes/products.js:15 | The `reduce` over prices starts at 0, so an empty store sums to 0. Its meaning is given by the three lemmas below. |
| `Products.PriceSumNonNegative` | routes/products.js:15 | Non-negative prices give a non-negative sum. |
| `Products.PriceSumConcat` | routes/products.js:15 | The sum of two lists put together is the sum of their sums, so the left fold does not depend on how the list is split. |
| `Products.Bump` | routes/products.js:19 | One fold step adds the category as a key, raises its count by one (from 0 when absent), and leaves every other key's count unchanged. |
| `Products.CountByCategory` | routes/products.js:18-21 | The intended fold: an empty store gives the empty map, and every entry lies between 1 and the store's length. Its meaning is given by `CountByCategoryCounts` and `CountsSumToTotal`. |
| `Products.GetStats` | routes/products.js:11-28 | `totalProducts` is the store's length. An empty store gives average 0 and an empty category map. Otherwise average × count equals the price sum. `countByCategory` is the intended category fold (see Findings). |
| `Products.CountByCategoryCounts` | routes/products.js:18-21 | A category is a key of `countByCategory` exactly when some product has it. Its entry equals an independently defined count of the products in that category. |
| `Products.CountsSumToTotal` | routes/products.js:18-21 | The keys of the intended `countByCategory` are exactly the distinct categories, each listed once. Their counts sum to the number of stored products. |
| `Products.ObjectBump` | routes/products.js:19 | One step on a plain `{}` object. Assigning to "__proto__" changes nothing. Any other category becomes a key, and every other key keeps its value. |
| `Products.CountByCategoryAsWritten` | routes/products.js:18-21 | The fold as written never holds a "__proto__" key, and every key it holds is some product's category. |
| `Products.InheritedCategoryCounts` | routes/products.js:18-21 | A product in category "constructor" yields the string "function Object() { [native code] }1", not the count 1. A product in category "__proto__" yields no key, where the intended fold has a count of 1. |
| `Products.AsWrittenAgreesOffPrototype` | routes/products.js:18-21 | When no category is an Object.prototype name, the fold as written has the same keys as the intended fold, and each value is the intended count. |
| `Products.PriceSumBounds` | routes/products.js:15 | The price sum lies between count × lowest price and count × highest price. |
| `Products.QuotientBounds` | routes/products.js:15 | A sum between n × lo and n × hi, divided by a positive n, lies between lo and hi. |
| `Products.AveragePriceBounds` | routes/products.js:13-16 | For a non-empty store, `averagePrice` lies between the lowest and the highest stored price. |
| `Products.NameMatcher` | routes/products.js:38-39 | The search test keeps a product exactly when it has a name whose lower-cased form includes the lower-cased query. `SearchMembership` states this for the whole search. |
| `Products.SearchScan` | routes/products.js:38-40 | The name filter fails with the TypeError (500) exactly when some stored product has no name. Otherwise it returns the order-preserving filter of the products whose lower-cased name includes the query. |
| `Products.Search` | routes/products.js:33-42 | A missing or empty `name` gives 400 `Search query "name" is required`. A store holding a nameless product gives 500. Otherwise the result is the filtered store. |
| `Products.SearchMembership` | routes/products.js:38-40 | A product is in the search result exactly when it is stored and the lower-cased query occurs somewhere in its lower-cased name. |
| `Products.SearchIgnoresCase` | routes/products.js:39 | Two queries that lower-case alike give the same search result. |
| `Products.SearchWidget` | routes/products.js:38-40 | A product named "Widget" is found by "widg" and by "WIDG". |
| `Products.NumberOr` | routes/products.js:58-59 | A page or limit parameter is never 0. An absent, non-numeric or zero value gives the default. Any other value is kept, including a negative one. |
| `Products.CategoryMatcher` | routes/products.js:53 | The category test keeps a product exactly when its lower-cased category equals the lower-cased query. `CategoryFiltered` states this for the whole list. |
| `Products.CategoryFiltered` | routes/products.js:48-55 | Without a non-empty category the list is the whole store. With one, it is the order-preserving filter of the store by that test, so it holds exactly the stored products whose category equals the query ignoring case, in store order. |
| `Products.List` | routes/products.js:47-71 | `total` is the size of the category-filtered list, not of the store. `page` and `limit` are never 0 and echo any non-zero input. `data` has at most `total` items, all taken from the filtered list. |
| `Products.ListPageWindow` | routes/products.js:58-63 | For non-negative page and limit inputs, `data` is the filtered list from `(page-1)*limit` on, cut to at most `limit` items, in store order. It is empty when the start is past the end. |
| `Products.ListWholeStore` | routes/products.js:47-71 | With no category, page 1 (or absent or 0) and a limit covering the store, `data` is the whole store in insertion order and `total` its length. |
| `Products.ListSecondPage` | routes/products.js:58-69 | Fifteen products, page 2 of 10: the reply is total 15, page 2, limit 10 and the last five products. |
| `Products.ListNegativePage` | routes/products.js:58-63 | A negative page reaches `slice` unchecked. Page -1 of 10 over fifteen products yields the first five, because the negative indices count from the end. |
| `Products.ListNegativeLimit` | routes/products.js:59-63 | A negative limit is kept too. Page 1 with limit -5 over fifteen products yields the first ten, because the end index -5 counts from the end. |
| `Products.ListResolvedWindow` | routes/products.js:58-63 | For every query, `data` is the filtered list between the indices that `slice` resolves from `(page-1)*limit` and `page*limit`, or empty when the start is not before the end. |
| `Store.ProductStore.constructor` | routes/products.js:6 | The store starts empty. |
| `Store.ProductStore.Create` | routes/products.js:87-98 | POST / appends exactly one record, built with the defaults, at the end. Earlier records are unchanged, and GET /:id of the new id returns the new record. |
| `Store.ProductStore.Update` | routes/products.js:103-110 | PUT /:id with an unknown id gives 404 and leaves the store unchanged. Otherwise only the first matching index changes, to the merge of its old record with the body. The reply is the merged record. |
| `Store.ProductStore.Delete` | routes/products.js:115-122 | DELETE /:id with an unknown id gives 404 and leaves the store unchanged. Otherwise it removes exactly the first matching record. |
| `Store.CreateThenGet` | routes/products.js:87-98 | For a fresh id, GET /:id right after creation returns the created record. |
| `Store.CreateKeepsIdsUnique` | routes/products.js:89-96 | Appending a record with a fresh id keeps ids unique. |
| `Store.Updated` | routes/products.js:108 | The store after PUT has the same length. The matched index holds the merged record and every other index its old record. |
| `Store.UpdateKeepsIdsUnique` | routes/products.js:104-108 | An update keeps ids unique when its body has no `id`, repeats the same id, or carries an id not in use. |
| `Store.UpdateThenGet` | routes/products.js:103-110 | With unique ids and a body that leaves the id alone, GET /:id after PUT returns the merged record. |
| `Store.DeleteThenGet` | routes/products.js:115-121 | With unique ids, GET /:id after DELETE of that id answers 404. |
| `Store.DeleteKeepsIdsUnique` | routes/products.js:120 | Removing a record keeps ids unique. |
| `Store.DuplicateIdSurvivesDelete` | routes/products.js:108-120 | A PUT whose body carries another record's id leaves two records with that id. A later DELETE removes only the first, and GET /:id still finds the second. |
| `Seqs.Filter` | routes/products.js:52-54 | `filter` returns no more items than it was given. Every returned item is an input item that passes the test, and every input item that passes is returned. |
| `Seqs.FilterConcat` | routes/products.js:38-40 | Filtering commutes with concatenation, so kept items stay in their input order. |
| `Seqs.FilterKeepsAll` | routes/products.js:52-54 | When every item passes, `filter` returns its input unchanged. |
| `Seqs.SliceIndex` | routes/products.js:63 | A resolved `slice` index never exceeds the length. |
| `Seqs.JsSlice` | routes/products.js:63 | `slice` returns exactly as many items as the resolved end exceeds the resolved start (none when it does not), so at most `end - start` for non-negative arguments. They are the consecutive items from the resolved start. |
| `Seqs.JsSliceClipped` | routes/products.js:63 | For non-negative arguments, `slice` is the window `start..end` clipped to the input's bounds. |
| `Seqs.JsSliceWindow` | routes/products.js:63 | A window of `width` items from a non-negative start has the length `min(n - start, width)`, or 0 past the end. It holds the input's items from `start` on. |
| `Seqs.RemoveAt` | routes/products.js:120 | `splice(i, 1)` shortens the list by one. Items before `i` stay where they were and items after shift down by one. The multiset loses exactly the removed item. |
| `Text.Lower` | routes/products.js:39 | Lower-casing keeps the length, maps each character by the ASCII rule, and leaves no upper-case letter. |
| `Text.LowerIdempotent` | routes/products.js:39 | Lower-casing twice is lower-casing once. |
| `Text.Includes` | routes/products.js:39 | The empty string is included in every string, and a string never includes anything longer than itself. |
| `Text.IncludesIff` | routes/products.js:39 | `includes` is true exactly when the substring occurs at some position of the string. |

## Left out

- The Express shell in `server.js` is not modelled: `dotenv`, the `PORT` default, JSON body parsing, mounting under `/api/products`, `app.listen`, console logging, and the catch-all "Route not found" 404. Only the status codes of the global error handler appear, as `Error.Status`.
- The request logger middleware is not part of this model.
- Route dispatch and precedence are not modelled. `/stats` and `/search` being matched before `/:id` is the Express router's behaviour.
- Success statuses (200, 201, 204) are not modelled. Only error statuses are.
- `uuidv4()` is not modelled. `Create` takes the id as a parameter that is not in use.
- Prices, their sum and `averagePrice` are exact reals, not IEEE doubles. Rounding, `NaN` and `Infinity` are not modelled.
- Integers are unbounded. Float precision of very large `page * limit` products is not modelled.
- `parseInt` on strings is not modelled. `page` and `limit` arrive as the integer it produced, or `None` for NaN or absence.
- Request bodies are typed. A body key carrying `null` or a value of another type is not modelled, and neither are keys outside the product's fields. So a stored price is always a number, and `p.price || 0` in the stats is the identity. The same holds for a category, so the category filter cannot throw.
- A query parameter given more than once (an array in Express) is not modelled.
- `toLowerCase` is modelled for ASCII only. Unicode case mapping is not modelled.
- `Store.ProductStore.Create`: requires the id to be unused. The source relies on `uuidv4()` for this and does not check it.
- `Products.GetStats`: returns the intended category counts of `CountByCategory`, not the polluted object the code builds for Object.prototype names (see Findings). The order in which JSON lists the keys (integer-like keys first, then insertion order) is not modelled, since a `map` has no order.
- `Products.Search`: the 500 reply carries V8's TypeError message. Its exact wording is engine-specific.

## Findings

| source | as written | input that shows it | evidently intended | confidence | as-written member | corrected member |
|---|---|---|---|---|---|---|
| routes/products.js:18-21 | each step stores `acc[p.category]`, read with a fallback of 0, plus 1, on an accumulator that starts as `{}`. A read of a key the object does not hold falls through to Object.prototype | one product with category "constructor" gives `{"constructor": "function Object() { [native code] }1"}` (likewise "toString", "valueOf", "hasOwnProperty"); one with category "__proto__" gives `{}` | every category a key, with the number of products in it | high; not executed | `Products.CountByCategoryAsWritten`, shown by `Products.InheritedCategoryCounts` | `Products.CountByCategory`, proved by `Products.CountByCategoryCounts` and `Products.CountsSumToTotal` |
