/** The in-memory product store of routes/products.js (the module-level
    `products` array) and the handlers that change it: POST / appends, PUT /:id
    replaces one record in place, DELETE /:id splices one record out. */
module Store {
  import opened Seqs
  import opened Products

  class ProductStore {
    /** The `products` array, in insertion order. */
    var products: seq<Product>

    /** The store starts empty when the process starts. */
    constructor ()
      ensures products == []
    {
      products := [];
    }

    /** POST /: builds the record with its defaults and pushes it; the reply
        (201) is that record. `id` stands for the value of `uuidv4()`, which is
        assumed not to be in use. */
    method Create(id: string, body: Body) returns (created: Product)
      requires !HasId(products, id)
      modifies this
      ensures created == NewProduct(id, body)
      ensures products == old(products) + [created]
      ensures GetById(products, id) == Ok(created)
    {
      created := NewProduct(id, body);
      CreateThenGet(products, id, body);
      products := products + [created];
    }

    /** PUT /:id: 404 and no change for an unknown id; otherwise the first record
        with that id is replaced by its shallow merge with the body, the reply
        (200) is the merged record, and every other record is left as it was. */
    method Update(id: string, body: Body) returns (r: Result<Product>)
      modifies this
      ensures !HasId(old(products), id) ==>
        r == Err(NotFound(ProductNotFound)) && products == old(products)
      ensures HasId(old(products), id) ==>
        var i := FindIndex(old(products), id);
        products == Updated(old(products), i, body) && r == Ok(Merge(old(products)[i], body))
    {
      var index := FindIndex(products, id);
      if index == -1 {
        r := Err(NotFound(ProductNotFound));
        return;
      }
      products := products[index := Merge(products[index], body)];
      r := Ok(products[index]);
    }

    /** DELETE /:id: 404 and no change for an unknown id; otherwise the first
        record with that id is spliced out and the reply is 204 with no body. */
    method Delete(id: string) returns (r: Result<()>)
      modifies this
      ensures !HasId(old(products), id) ==>
        r == Err(NotFound(ProductNotFound)) && products == old(products)
      ensures HasId(old(products), id) ==>
        r == Ok(()) && products == RemoveAt(old(products), FindIndex(old(products), id))
    {
      var index := FindIndex(products, id);
      if index == -1 {
        r := Err(NotFound(ProductNotFound));
        return;
      }
      products := products[..index] + products[index + 1..];
      r := Ok(());
    }
  }

  /** A product is found by its id right after it was created. */
  lemma CreateThenGet(ps: seq<Product>, id: string, body: Body)
    requires !HasId(ps, id)
    ensures GetById(ps + [NewProduct(id, body)], id) == Ok(NewProduct(id, body))
  {
    var ps' := ps + [NewProduct(id, body)];
    assert ps'[|ps|].id == id;
  }

  /** Creating with a fresh id keeps ids unique. */
  lemma CreateKeepsIdsUnique(ps: seq<Product>, id: string, body: Body)
    requires UniqueIds(ps) && !HasId(ps, id)
    ensures UniqueIds(ps + [NewProduct(id, body)])
  {
    var ps' := ps + [NewProduct(id, body)];
    forall i, j | 0 <= i < j < |ps'| ensures ps'[i].id != ps'[j].id {
      if j == |ps| {
        assert ps[i].id != id;
      }
    }
  }

  /** The record PUT /:id leaves at index `i`. */
  function Updated(ps: seq<Product>, i: nat, body: Body): (r: seq<Product>)
    requires i < |ps|
    ensures |r| == |ps| && r[i] == Merge(ps[i], body)
    ensures forall j :: 0 <= j < |ps| && j != i ==> r[j] == ps[j]
  {
    ps[i := Merge(ps[i], body)]
  }

  /** An update that does not change the id, or changes it to one not in use,
      keeps ids unique. */
  lemma UpdateKeepsIdsUnique(ps: seq<Product>, id: string, body: Body)
    requires UniqueIds(ps) && HasId(ps, id)
    requires body.id.None? || body.id.value == id || !HasId(ps, body.id.value)
    ensures UniqueIds(Updated(ps, FindIndex(ps, id), body))
  {
    var i := FindIndex(ps, id);
    var ps' := Updated(ps, i, body);
    forall a, b | 0 <= a < b < |ps'| ensures ps'[a].id != ps'[b].id {
      if a == i {
        assert ps'[b] == ps[b];
      } else if b == i {
        assert ps'[a] == ps[a];
      }
    }
  }

  /** After an update that leaves the id alone, GET /:id returns the merged record. */
  lemma UpdateThenGet(ps: seq<Product>, id: string, body: Body)
    requires UniqueIds(ps) && HasId(ps, id)
    requires body.id.None? || body.id.value == id
    ensures var i := FindIndex(ps, id);
      GetById(Updated(ps, i, body), id) == Ok(Merge(ps[i], body))
  {
    var i := FindIndex(ps, id);
    UpdateKeepsIdsUnique(ps, id, body);
    GetByIdUnique(Updated(ps, i, body), id, i);
  }

  /** With unique ids, GET /:id after DELETE /:id of the same id answers 404. */
  lemma DeleteThenGet(ps: seq<Product>, id: string)
    requires UniqueIds(ps) && HasId(ps, id)
    ensures GetById(RemoveAt(ps, FindIndex(ps, id)), id) == Err(NotFound(ProductNotFound))
  {
    var i := FindIndex(ps, id);
    var ps' := RemoveAt(ps, i);
    forall k | 0 <= k < |ps'| ensures ps'[k].id != id {
      if k < i {
        assert ps'[k] == ps[k];
      } else {
        assert ps'[k] == ps[k + 1];
      }
    }
  }

  /** Deleting keeps ids unique. */
  lemma DeleteKeepsIdsUnique(ps: seq<Product>, i: nat)
    requires UniqueIds(ps) && i < |ps|
    ensures UniqueIds(RemoveAt(ps, i))
  {
    var ps' := RemoveAt(ps, i);
    forall a, b | 0 <= a < b < |ps'| ensures ps'[a].id != ps'[b].id {
      var a', b' := if a < i then a else a + 1, if b < i then b else b + 1;
      assert ps'[a] == ps[a'] && ps'[b] == ps[b'];
    }
  }

  /** PUT /:id may copy another record's id, since the body's `id` key is
      merged like any other; after that, deleting the id removes only the
      first record, and GET /:id still finds the second. */
  lemma DuplicateIdSurvivesDelete(p: Product, q: Product)
    requires p.id != q.id
    ensures FindIndex([p, q], q.id) == 1
    ensures var body := Body(Some(p.id), None, None, None, None, None);
      var ps := Updated([p, q], 1, body);
      && !UniqueIds(ps)
      && GetById(RemoveAt(ps, FindIndex(ps, p.id)), p.id) == Ok(Merge(q, body))
  {
    var body := Body(Some(p.id), None, None, None, None, None);
    var ps := Updated([p, q], 1, body);
    assert FindIndex(ps, p.id) == 0;
    assert RemoveAt(ps, 0) == [Merge(q, body)];
  }
}
