/** The product records of routes/products.js and the read-only handlers over
    the store: GET /stats, GET /search, GET / and GET /:id. Each handler is a
    function of the store's current contents (a sequence of products in
    insertion order) and of the request's parameters; the JSON response or
    the error status it would send is its result. */
module Products {
  import opened Text
  import opened Seqs

  datatype Option<+T> = None | Some(value: T)

  /** The error kinds a request can end in, with the HTTP status sent for each:
      a missing product (404), a missing search query (400), and an exception
      that reaches the server's global error handler (500). */
  datatype Error = NotFound(message: string) | BadRequest(message: string) | Internal(message: string)
  {
    function Status(): (code: int)
      ensures code == 404 <==> NotFound?
      ensures code == 400 <==> BadRequest?
      ensures code == 500 <==> Internal?
    {
      match this
      case NotFound(_) => 404
      case BadRequest(_) => 400
      case Internal(_) => 500
    }
  }

  datatype Result<+T> = Ok(value: T) | Err(error: Error)

  const ProductNotFound: string := "Product not found"
  const SearchQueryRequired: string := "Search query \"name\" is required"
  /** The TypeError raised by `p.name.toLowerCase()` when a product has no name. */
  const NameTypeError: string := "Cannot read properties of undefined (reading 'toLowerCase')"
  const Uncategorized: string := "Uncategorized"

  /** A stored product. `name` is optional because creation does not require it. */
  datatype Product = Product(
    id: string,
    name: Option<string>,
    description: string,
    price: real,
    category: string,
    inStock: bool)

  /** A request body for POST / and PUT /:id; `None` is a key the body does not carry. */
  datatype Body = Body(
    id: Option<string>,
    name: Option<string>,
    description: Option<string>,
    price: Option<real>,
    category: Option<string>,
    inStock: Option<bool>)

  // ---------------------------------------------------------------------------
  // Lookup by id (Array.prototype.find / findIndex with `p.id === id`)
  // ---------------------------------------------------------------------------

  predicate HasId(ps: seq<Product>, id: string) {
    exists j :: 0 <= j < |ps| && ps[j].id == id
  }

  /** No two stored products share an id. */
  predicate UniqueIds(ps: seq<Product>) {
    forall i, j :: 0 <= i < j < |ps| ==> ps[i].id != ps[j].id
  }

  /** `products.findIndex((p) => p.id === id)`: the first index holding `id`, or -1. */
  function FindIndex(ps: seq<Product>, id: string): (i: int)
    ensures -1 <= i < |ps|
    ensures i == -1 <==> !HasId(ps, id)
    ensures 0 <= i ==> ps[i].id == id && forall j :: 0 <= j < i ==> ps[j].id != id
  {
    if |ps| == 0 then -1
    else if ps[0].id == id then 0
    else
      var k := FindIndex(ps[1..], id);
      if k == -1 then -1 else k + 1
  }

  /** GET /:id: the first product with the given id, or 404 "Product not found". */
  function GetById(ps: seq<Product>, id: string): (r: Result<Product>)
    ensures r.Ok? <==> HasId(ps, id)
    ensures r.Ok? ==> r.value.id == id && r.value == ps[FindIndex(ps, id)]
    ensures r.Err? ==> r.error == NotFound(ProductNotFound) && r.error.Status() == 404
  {
    var i := FindIndex(ps, id);
    if i == -1 then Err(NotFound(ProductNotFound)) else Ok(ps[i])
  }

  /** With unique ids, the product GetById returns is the only one with that id. */
  lemma GetByIdUnique(ps: seq<Product>, id: string, j: nat)
    requires UniqueIds(ps)
    requires j < |ps| && ps[j].id == id
    ensures GetById(ps, id) == Ok(ps[j])
  {
  }

  // ---------------------------------------------------------------------------
  // Create and update: record construction and shallow merge
  // ---------------------------------------------------------------------------

  /** The record POST / builds: a fresh id, the name verbatim, and the `||`
      defaults for description, price and category and the `??` default for
      inStock. */
  function NewProduct(id: string, body: Body): (p: Product)
    ensures p.id == id && p.name == body.name
    ensures p.description == (if body.description.Some? then body.description.value else "")
    ensures p.price == (if body.price.Some? then body.price.value else 0.0)
    ensures p.category != ""
    ensures body.category.Some? && body.category.value != "" ==> p.category == body.category.value
    ensures p.category == Uncategorized <==> body.category.None? || body.category.value in {"", Uncategorized}
    ensures p.inStock <==> body.inStock != Some(false)
  {
    Product(
      id,
      body.name,
      if body.description.None? || body.description.value == "" then "" else body.description.value,
      if body.price.None? || body.price.value == 0.0 then 0.0 else body.price.value,
      if body.category.None? || body.category.value == "" then Uncategorized else body.category.value,
      if body.inStock.None? then true else body.inStock.value)
  }

  /** `{ ...p, ...body }`: every key the body carries overwrites the stored
      value, `id` included; every other field is kept. */
  function Merge(p: Product, body: Body): (q: Product)
    ensures q.id == (if body.id.Some? then body.id.value else p.id)
    ensures q.name == (if body.name.Some? then body.name else p.name)
    ensures q.description == (if body.description.Some? then body.description.value else p.description)
    ensures q.price == (if body.price.Some? then body.price.value else p.price)
    ensures q.category == (if body.category.Some? then body.category.value else p.category)
    ensures q.inStock == (if body.inStock.Some? then body.inStock.value else p.inStock)
  {
    p.(id := if body.id.Some? then body.id.value else p.id)
     .(name := if body.name.Some? then body.name else p.name)
     .(description := if body.description.Some? then body.description.value else p.description)
     .(price := if body.price.Some? then body.price.value else p.price)
     .(category := if body.category.Some? then body.category.value else p.category)
     .(inStock := if body.inStock.Some? then body.inStock.value else p.inStock)
  }

  /** Applying the same update twice has the same effect as applying it once,
      and an empty body changes nothing. */
  lemma MergeIdempotent(p: Product, body: Body)
    ensures Merge(Merge(p, body), body) == Merge(p, body)
    ensures Merge(p, Body(None, None, None, None, None, None)) == p
  {
  }

  // ---------------------------------------------------------------------------
  // GET /stats
  // ---------------------------------------------------------------------------

  /** `products.reduce((sum, p) => sum + (p.price || 0), 0)`; a stored price is
      always a number here, so `|| 0` leaves it unchanged. */
  function PriceSum(ps: seq<Product>): (sum: real)
    ensures |ps| == 0 ==> sum == 0.0
  {
    if |ps| == 0 then 0.0 else PriceSum(ps[..|ps| - 1]) + ps[|ps| - 1].price
  }

  /** Non-negative prices give a non-negative sum. */
  lemma {:induction false} PriceSumNonNegative(ps: seq<Product>)
    requires forall i :: 0 <= i < |ps| ==> ps[i].price >= 0.0
    ensures PriceSum(ps) >= 0.0
  {
    if |ps| > 0 {
      var init := ps[..|ps| - 1];
      assert forall i :: 0 <= i < |init| ==> init[i] == ps[i];
      PriceSumNonNegative(init);
    }
  }

  /** The sum of a concatenation is the sum of the parts, so the left fold of
      `reduce` does not depend on how the list is split. */
  lemma {:induction false} PriceSumConcat(a: seq<Product>, b: seq<Product>)
    ensures PriceSum(a + b) == PriceSum(a) + PriceSum(b)
    decreases |b|
  {
    if |b| > 0 {
      var b' := b[..|b| - 1];
      assert (a + b)[..|a + b| - 1] == a + b';
      PriceSumConcat(a, b');
    } else {
      assert a + b == a;
    }
  }

  /** One step of the category fold, `acc[c] = (acc[c] || 0) + 1`, on an
      accumulator that holds only the counts put into it. */
  function Bump(m: map<string, nat>, c: string): (m': map<string, nat>)
    ensures m'.Keys == m.Keys + {c}
    ensures m'[c] == (if c in m then m[c] else 0) + 1
    ensures forall k :: k in m && k != c ==> m'[k] == m[k]
  {
    m[c := (if c in m then m[c] else 0) + 1]
  }

  /** The category fold of GET /stats, applied left to right as `reduce` does,
      with the counting the code evidently intends (see CountByCategoryAsWritten
      for what the plain-object accumulator actually does). */
  function CountByCategory(ps: seq<Product>): (m: map<string, nat>)
    ensures |ps| == 0 ==> m == map[]
    ensures forall k :: k in m ==> 1 <= m[k] <= |ps|
  {
    if |ps| == 0 then map[] else Bump(CountByCategory(ps[..|ps| - 1]), ps[|ps| - 1].category)
  }

  /** Independent reference: the number of products whose category is `c`. */
  function CategoryCount(ps: seq<Product>, c: string): (n: nat) {
    if |ps| == 0 then 0
    else CategoryCount(ps[..|ps| - 1], c) + (if ps[|ps| - 1].category == c then 1 else 0)
  }

  /** The distinct categories of the store, each listed once. */
  function CategoriesSeen(ps: seq<Product>): (ks: seq<string>) {
    if |ps| == 0 then []
    else
      var seen := CategoriesSeen(ps[..|ps| - 1]);
      if ps[|ps| - 1].category in seen then seen else seen + [ps[|ps| - 1].category]
  }

  predicate Distinct(ks: seq<string>) {
    forall i, j :: 0 <= i < j < |ks| ==> ks[i] != ks[j]
  }

  /** The sum of the counts `m` holds for the keys `ks`. */
  function SumCounts(m: map<string, nat>, ks: seq<string>): (sum: int)
    requires forall k :: k in ks ==> k in m
  {
    if |ks| == 0 then 0 else SumCounts(m, ks[..|ks| - 1]) + m[ks[|ks| - 1]]
  }

  /** Dividing a sum by a positive count and multiplying back gives the sum. */
  lemma DivideBack(sum: real, count: nat)
    requires count > 0
    ensures (sum / count as real) * count as real == sum
  {
  }

  datatype Stats = Stats(totalProducts: nat, averagePrice: real, countByCategory: map<string, nat>)

  /** GET /stats. The average is exact (real division) rather than a float. */
  function GetStats(ps: seq<Product>): (r: Stats)
    ensures r.totalProducts == |ps|
    ensures |ps| == 0 ==> r.averagePrice == 0.0 && r.countByCategory == map[]
    ensures r.averagePrice * (|ps| as real) == PriceSum(ps)
    ensures r.countByCategory == CountByCategory(ps)
  {
    if |ps| == 0 then Stats(0, 0.0, map[])
    else
      var sum := PriceSum(ps);
      DivideBack(sum, |ps|);
      Stats(|ps|, sum / |ps| as real, CountByCategory(ps))
  }

  /** Each category's entry in countByCategory is the number of products in it,
      and a category is a key exactly when some product has it. */
  lemma {:induction false} CountByCategoryCounts(ps: seq<Product>, c: string)
    ensures c in CountByCategory(ps) <==> CategoryCount(ps, c) > 0
    ensures c in CountByCategory(ps) ==> CountByCategory(ps)[c] == CategoryCount(ps, c)
  {
    if |ps| > 0 {
      CountByCategoryCounts(ps[..|ps| - 1], c);
    }
  }

  lemma {:induction false} SumCountsFrame(m: map<string, nat>, m': map<string, nat>, ks: seq<string>)
    requires forall k :: k in ks ==> k in m && k in m' && m[k] == m'[k]
    ensures SumCounts(m, ks) == SumCounts(m', ks)
  {
    if |ks| > 0 {
      SumCountsFrame(m, m', ks[..|ks| - 1]);
    }
  }

  lemma {:induction false} SumCountsBump(m: map<string, nat>, ks: seq<string>, c: string)
    requires Distinct(ks) && c in ks
    requires forall k :: k in ks ==> k in m
    ensures forall k :: k in ks ==> k in Bump(m, c)
    ensures SumCounts(Bump(m, c), ks) == SumCounts(m, ks) + 1
  {
    var last := ks[|ks| - 1];
    var init := ks[..|ks| - 1];
    assert forall k :: k in init ==> k in ks;
    if last == c {
      assert c !in init;
      SumCountsFrame(m, Bump(m, c), init);
    } else {
      assert c in init;
      SumCountsBump(m, init, c);
    }
  }

  /** The keys of countByCategory are the distinct categories, and their counts
      add up to the number of stored products. */
  lemma {:induction false} CountsSumToTotal(ps: seq<Product>)
    ensures Distinct(CategoriesSeen(ps))
    ensures forall k :: k in CountByCategory(ps) <==> k in CategoriesSeen(ps)
    ensures SumCounts(CountByCategory(ps), CategoriesSeen(ps)) == |ps|
  {
    if |ps| > 0 {
      var init := ps[..|ps| - 1];
      var c := ps[|ps| - 1].category;
      var m, seen := CountByCategory(init), CategoriesSeen(init);
      CountsSumToTotal(init);
      if c in seen {
        SumCountsBump(m, seen, c);
      } else {
        var seen' := seen + [c];
        assert seen'[..|seen'| - 1] == seen;
        SumCountsFrame(m, Bump(m, c), seen);
      }
    }
  }

  // The category fold as written: `acc` starts as `{}`, a plain object, so a
  // read of `acc[c]` for a name it does not hold yet falls through to
  // Object.prototype.

  /** A value in the plain-object accumulator: a count, or the string that
      `+ 1` yields once a non-number has been read. */
  datatype JsValue = Num(n: int) | Str(s: string)

  /** The names whose value `{}` inherits from Object.prototype is a function. */
  const InheritedMethods: set<string> := {
    "constructor", "hasOwnProperty", "isPrototypeOf", "propertyIsEnumerable",
    "toString", "toLocaleString", "valueOf", "__defineGetter__",
    "__defineSetter__", "__lookupGetter__", "__lookupSetter__"}

  /** Reading it yields Object.prototype; assigning a string to it is ignored. */
  const ProtoKey: string := "__proto__"

  /** `String(f)` for the inherited function `acc[name]`, as V8 renders it. */
  function InheritedText(name: string): (text: string)
    ensures |text| > 0
  {
    "function " + (if name == "constructor" then "Object" else name) + "() { [native code] }"
  }

  /** One step of `acc[c] = (acc[c] || 0) + 1` on a plain object. An own count
      grows by one and an own string gets "1" appended. An inherited function
      is truthy, so `+ 1` joins its text and "1". For "__proto__" the read gives
      Object.prototype, and the assignment of the resulting string is ignored. */
  function ObjectBump(acc: map<string, JsValue>, c: string): (acc': map<string, JsValue>)
    ensures c == ProtoKey ==> acc' == acc
    ensures c != ProtoKey ==> acc'.Keys == acc.Keys + {c}
    ensures forall k :: k in acc && k != c ==> acc'[k] == acc[k]
  {
    if c == ProtoKey then acc
    else if c in acc then
      acc[c := match acc[c] case Num(n) => Num(n + 1) case Str(t) => Str(t + "1")]
    else if c in InheritedMethods then acc[c := Str(InheritedText(c) + "1")]
    else acc[c := Num(1)]
  }

  /** The category fold of routes/products.js:18-21 as written. */
  function CountByCategoryAsWritten(ps: seq<Product>): (acc: map<string, JsValue>)
    ensures ProtoKey !in acc
    ensures forall k :: k in acc ==> exists i :: 0 <= i < |ps| && ps[i].category == k
  {
    if |ps| == 0 then map[]
    else
      var init := ps[..|ps| - 1];
      var acc := ObjectBump(CountByCategoryAsWritten(init), ps[|ps| - 1].category);
      assert forall i :: 0 <= i < |init| ==> init[i] == ps[i];
      acc
  }

  /** A product whose category is an Object.prototype method name gets a
      string instead of a count, and one whose category is "__proto__" gets no
      key at all, where the intended fold gives a count of 1 each time. */
  lemma InheritedCategoryCounts(p: Product, q: Product)
    requires p.category == "constructor" && q.category == ProtoKey
    ensures CountByCategoryAsWritten([p]) == map["constructor" := Str(InheritedText("constructor") + "1")]
    ensures CountByCategory([p]) == map["constructor" := 1]
    ensures CountByCategoryAsWritten([q]) == map[]
    ensures CountByCategory([q]) == map[ProtoKey := 1]
  {
    assert [p][..0] == [] && [q][..0] == [];
    assert CountByCategoryAsWritten([p]) == ObjectBump(map[], "constructor");
  }

  /** When no category is an Object.prototype name, the fold as written and
      the intended fold agree key for key. */
  lemma {:induction false} AsWrittenAgreesOffPrototype(ps: seq<Product>)
    requires forall i :: 0 <= i < |ps| ==> ps[i].category !in InheritedMethods && ps[i].category != ProtoKey
    ensures forall k :: k in CountByCategoryAsWritten(ps) <==> k in CountByCategory(ps)
    ensures forall k :: k in CountByCategory(ps) ==> CountByCategoryAsWritten(ps)[k] == Num(CountByCategory(ps)[k])
  {
    if |ps| > 0 {
      var init, c := ps[..|ps| - 1], ps[|ps| - 1].category;
      AsWrittenAgreesOffPrototype(init);
      var aw, m := CountByCategoryAsWritten(init), CountByCategory(init);
      assert CountByCategoryAsWritten(ps) == ObjectBump(aw, c);
      assert CountByCategory(ps) == Bump(m, c);
      if c in m {
        assert aw[c] == Num(m[c]);
      }
    }
  }

  lemma {:induction false} PriceSumBounds(ps: seq<Product>, lo: real, hi: real)
    requires forall i :: 0 <= i < |ps| ==> lo <= ps[i].price <= hi
    ensures (|ps| as real) * lo <= PriceSum(ps) <= (|ps| as real) * hi
  {
    if |ps| > 0 {
      var n := |ps| - 1;
      var init := ps[..n];
      assert forall i :: 0 <= i < n ==> init[i] == ps[i];
      PriceSumBounds(init, lo, hi);
      assert |ps| as real == n as real + 1.0;
      SumStep(n as real, PriceSum(init), ps[n].price, lo, hi);
    }
  }

  /** One more price in `lo..hi` keeps a sum of `k` such prices within bounds. */
  lemma SumStep(k: real, sum: real, x: real, lo: real, hi: real)
    requires k * lo <= sum <= k * hi && lo <= x <= hi
    ensures (k + 1.0) * lo <= sum + x <= (k + 1.0) * hi
  {
  }

  lemma QuotientBounds(sum: real, n: real, lo: real, hi: real)
    requires n > 0.0 && n * lo <= sum <= n * hi
    ensures lo <= sum / n <= hi
  {
  }

  /** The average price lies between the lowest and the highest stored price. */
  lemma AveragePriceBounds(ps: seq<Product>, lo: real, hi: real)
    requires |ps| > 0
    requires forall i :: 0 <= i < |ps| ==> lo <= ps[i].price <= hi
    ensures lo <= GetStats(ps).averagePrice <= hi
  {
    PriceSumBounds(ps, lo, hi);
    QuotientBounds(PriceSum(ps), |ps| as real, lo, hi);
  }

  // ---------------------------------------------------------------------------
  // GET /search?name=
  // ---------------------------------------------------------------------------

  /** The filter predicate of GET /search, given the lower-cased query. */
  function NameMatcher(lq: string): (keep: Product -> bool) {
    (p: Product) => p.name.Some? && Includes(Lower(p.name.value), lq)
  }

  /** `products.filter((p) => p.name.toLowerCase().includes(lq))`: the scan stops
      with a TypeError at the first product that has no name. */
  function SearchScan(ps: seq<Product>, lq: string): (r: Result<seq<Product>>)
    ensures r.Err? <==> exists i :: 0 <= i < |ps| && ps[i].name.None?
    ensures r.Err? ==> r.error == Internal(NameTypeError)
    ensures r.Ok? ==> r.value == Filter(ps, NameMatcher(lq))
  {
    if |ps| == 0 then Ok([])
    else if ps[0].name.None? then Err(Internal(NameTypeError))
    else
      match SearchScan(ps[1..], lq)
      case Err(e) => Err(e)
      case Ok(rest) => Ok((if Includes(Lower(ps[0].name.value), lq) then [ps[0]] else []) + rest)
  }

  /** GET /search: 400 when `name` is missing or empty, 500 when a stored product
      has no name, otherwise the matching products in store order. */
  function Search(ps: seq<Product>, name: Option<string>): (r: Result<seq<Product>>)
    ensures name.None? || name.value == "" ==> r == Err(BadRequest(SearchQueryRequired))
    ensures name.Some? && name.value != "" && (exists i :: 0 <= i < |ps| && ps[i].name.None?) ==>
      r.Err? && r.error.Status() == 500
    ensures name.Some? && name.value != "" && (forall i :: 0 <= i < |ps| ==> ps[i].name.Some?) ==>
      r == Ok(Filter(ps, NameMatcher(Lower(name.value))))
  {
    if name.None? || name.value == "" then Err(BadRequest(SearchQueryRequired))
    else SearchScan(ps, Lower(name.value))
  }

  /** A product is in the search result exactly when it is stored and its
      lower-cased name contains the lower-cased query somewhere. */
  lemma SearchMembership(ps: seq<Product>, q: string, p: Product)
    requires q != ""
    requires forall i :: 0 <= i < |ps| ==> ps[i].name.Some?
    ensures Search(ps, Some(q)).Ok?
    ensures p in Search(ps, Some(q)).value <==>
      p in ps && p.name.Some? && exists i :: OccursAt(Lower(p.name.value), Lower(q), i)
  {
    if p.name.Some? {
      IncludesIff(Lower(p.name.value), Lower(q));
    }
  }

  /** Search ignores case: two queries that lower-case alike give the same answer. */
  lemma SearchIgnoresCase(ps: seq<Product>, q1: string, q2: string)
    requires Lower(q1) == Lower(q2)
    ensures Search(ps, Some(q1)) == Search(ps, Some(q2))
  {
    assert |q1| == |Lower(q1)| == |Lower(q2)| == |q2|;
  }

  /** A product named "Widget" is found by "widg" and by "WIDG". */
  lemma SearchWidget(p: Product)
    requires p.name == Some("Widget")
    ensures Search([p], Some("widg")) == Ok([p])
    ensures Search([p], Some("WIDG")) == Ok([p])
  {
    assert Lower("Widget") == "widget";
    assert Lower("widg") == "widg";
    assert Lower("WIDG") == "widg";
    assert "widget"[..4] == "widg";
    assert Includes("widget", "widg");
    assert NameMatcher("widg")(p);
    assert Filter([p], NameMatcher("widg")) == [p];
  }

  // ---------------------------------------------------------------------------
  // GET /?category=&page=&limit=
  // ---------------------------------------------------------------------------

  /** The query of GET /. `page` and `limit` are the numbers `parseInt` reads,
      `None` when absent or not numeric (NaN). */
  datatype ListQuery = ListQuery(category: Option<string>, page: Option<int>, limit: Option<int>)

  datatype ListPage = ListPage(total: nat, page: int, limit: int, data: seq<Product>)

  const DefaultPage: int := 1
  const DefaultLimit: int := 10

  /** `parseInt(x) || default`: a missing, non-numeric or zero value gives the default. */
  function NumberOr(x: Option<int>, default: int): (r: int)
    requires default != 0
    ensures r != 0
    ensures x.Some? && x.value != 0 ==> r == x.value
    ensures x.None? || x.value == 0 ==> r == default
  {
    if x.None? || x.value == 0 then default else x.value
  }

  /** The filter predicate of GET /, given the lower-cased category. */
  function CategoryMatcher(lc: string): (keep: Product -> bool) {
    (p: Product) => Lower(p.category) == lc
  }

  /** The products GET / paginates: all of them, or those whose category equals
      the query's ignoring case when the query carries a non-empty category. */
  function CategoryFiltered(ps: seq<Product>, category: Option<string>): (r: seq<Product>)
    ensures |r| <= |ps|
    ensures forall i :: 0 <= i < |r| ==> r[i] in ps
    ensures category.Some? && category.value != "" ==>
      forall i :: 0 <= i < |r| ==> Lower(r[i].category) == Lower(category.value)
    ensures category.Some? && category.value != "" ==>
      forall i :: 0 <= i < |ps| && Lower(ps[i].category) == Lower(category.value) ==> ps[i] in r
    ensures category.None? || category.value == "" ==> r == ps
    ensures category.Some? && category.value != "" ==> r == Filter(ps, CategoryMatcher(Lower(category.value)))
  {
    if category.None? || category.value == "" then ps
    else Filter(ps, CategoryMatcher(Lower(category.value)))
  }

  /** GET /: the category filter, then the page `(page-1)*limit .. page*limit`. */
  function List(ps: seq<Product>, q: ListQuery): (r: ListPage)
    ensures r.total == |CategoryFiltered(ps, q.category)| <= |ps|
    ensures r.page != 0 && r.limit != 0
    ensures q.page.Some? && q.page.value != 0 ==> r.page == q.page.value
    ensures q.limit.Some? && q.limit.value != 0 ==> r.limit == q.limit.value
    ensures |r.data| <= r.total
    ensures forall k :: 0 <= k < |r.data| ==> r.data[k] in CategoryFiltered(ps, q.category)
  {
    var result := CategoryFiltered(ps, q.category);
    var page := NumberOr(q.page, DefaultPage);
    var limit := NumberOr(q.limit, DefaultLimit);
    var startIndex := (page - 1) * limit;
    var endIndex := page * limit;
    ListPage(|result|, page, limit, JsSlice(result, startIndex, endIndex))
  }

  /** The index arithmetic of lines 60-61 for a positive page and limit. */
  lemma PageArithmetic(page: int, limit: int)
    requires page >= 1 && limit >= 1
    ensures (page - 1) * limit >= 0
    ensures page * limit == (page - 1) * limit + limit
  {
  }

  /** For a positive page and limit, `data` is the window of the filtered list
      that starts at `(page-1)*limit`: at most `limit` items, in store order. */
  lemma ListPageWindow(ps: seq<Product>, q: ListQuery)
    requires q.page.None? || q.page.value >= 0
    requires q.limit.None? || q.limit.value >= 0
    ensures var r := List(ps, q);
      var f := CategoryFiltered(ps, q.category);
      var start := (r.page - 1) * r.limit;
      && r.page >= 1 && r.limit >= 1 && start >= 0
      && |r.data| == (if start < |f| then Min(|f| - start, r.limit) else 0)
      && forall k :: 0 <= k < |r.data| ==> start + k < |f| && r.data[k] == f[start + k]
  {
    var f := CategoryFiltered(ps, q.category);
    var page, limit := NumberOr(q.page, DefaultPage), NumberOr(q.limit, DefaultLimit);
    var start := (page - 1) * limit;
    PageArithmetic(page, limit);
    assert List(ps, q).data == JsSlice(f, start, start + limit);
    JsSliceWindow(f, start, limit);
  }

  /** With no category filter, page 1 and a limit covering the store, the
      page is the whole store in insertion order. */
  lemma ListWholeStore(ps: seq<Product>, q: ListQuery)
    requires q.category.None?
    requires q.page.None? || q.page.value in {0, 1}
    requires q.limit.None? ==> |ps| <= DefaultLimit
    requires q.limit.Some? ==> |ps| <= q.limit.value || (q.limit.value == 0 && |ps| <= DefaultLimit)
    ensures List(ps, q).total == |ps|
    ensures List(ps, q).data == ps
  {
    var limit := NumberOr(q.limit, DefaultLimit);
    JsSliceClipped(ps, 0, limit);
  }

  /** Fifteen products, page 2 of 10: the last five products, and a total of 15. */
  lemma ListSecondPage(ps: seq<Product>)
    requires |ps| == 15
    ensures List(ps, ListQuery(None, Some(2), Some(10))) == ListPage(15, 2, 10, ps[10..])
  {
    JsSliceClipped(ps, 10, 20);
  }

  /** A negative page is not rejected: `slice(-20, -10)` counts from the end, so
      page -1 of 10 over fifteen products yields the first five. */
  lemma ListNegativePage(ps: seq<Product>)
    requires |ps| == 15
    ensures List(ps, ListQuery(None, Some(-1), Some(10))).data == ps[..5]
  {
  }

  /** A negative limit is not rejected either: page 1 with limit -5 is
      `slice(0, -5)`, everything but the last five products. */
  lemma ListNegativeLimit(ps: seq<Product>)
    requires |ps| == 15
    ensures List(ps, ListQuery(None, Some(1), Some(-5))).data == ps[..10]
  {
  }

  /** For every query, including negative page or limit, `data` is the
      filtered list between the two indices `slice` resolves from
      `(page-1)*limit` and `page*limit`, or empty when they cross. */
  lemma ListResolvedWindow(ps: seq<Product>, q: ListQuery)
    ensures var f := CategoryFiltered(ps, q.category);
      var page, limit := NumberOr(q.page, DefaultPage), NumberOr(q.limit, DefaultLimit);
      var a, b := SliceIndex((page - 1) * limit, |f|), SliceIndex(page * limit, |f|);
      List(ps, q).data == (if a < b then f[a..b] else [])
  {
  }
}
