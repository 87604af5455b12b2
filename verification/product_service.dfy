/**
 * ProductService over a keyed product store. The repository is a finite map
 * from id to the stored row; ids are handed out by an auto-increment counter,
 * as an IDENTITY column does.
 */
module ProductStore {
  import opened Wrappers
  import opened Products

  /** The message of the exception `update` throws for an unknown id. */
  const NotFound := "Not found"

  /** Every stored row carries the id it is stored under. */
  predicate Keyed(m: map<int, ProductData>) {
    forall k :: k in m ==> m[k].id == Some(k)
  }

  /** Every stored row satisfies the entity's constraints. */
  predicate AllValid(m: map<int, ProductData>) {
    forall k :: k in m ==> Valid(m[k])
  }

  /** A keyed store holds a row exactly when that row sits under its own id. */
  lemma KeyedRows(m: map<int, ProductData>)
    requires Keyed(m)
    ensures forall d: ProductData :: d in m.Values <==> d.id.Some? && d.id.value in m && m[d.id.value] == d
  {
    forall d | d in m.Values
      ensures d.id.Some? && d.id.value in m && m[d.id.value] == d
    {
      if forall j :: j in m ==> m[j] != d {
        assert false;
      }
      var j :| j in m && m[j] == d;
    }
    forall d: ProductData | d.id.Some? && d.id.value in m && m[d.id.value] == d
      ensures d in m.Values
    {
      assert m[d.id.value] in m.Values;
    }
  }

  /** In a keyed store no two ids hold the same row: there are as many rows as ids. */
  lemma {:induction false} KeyedRowCount(m: map<int, ProductData>)
    requires Keyed(m)
    ensures |m.Values| == |m.Keys|
  {
    if |m| > 0 {
      if forall k :: k !in m {
        assert false;
      }
      var k :| k in m;
      var rest := m - {k};
      assert Keyed(rest);
      KeyedRowCount(rest);
      assert m.Keys == rest.Keys + {k};
      KeyedRows(m);
      KeyedRows(rest);
      assert m.Values == rest.Values + {m[k]};
      assert m[k] !in rest.Values;
    }
  }

  /** The stored entity `e` after `update` has copied name, price and stock from `p`. */
  function Overwritten(e: ProductData, p: ProductData): (r: ProductData)
    ensures r.id == e.id
    ensures (r.name, r.price, r.stock) == (p.name, p.price, p.stock)
  {
    e.(name := p.name, price := p.price, stock := p.stock)
  }

  /** The store after `update(id, p)`, or the "Not found" failure. */
  function UpdateStore(m: map<int, ProductData>, id: int, p: ProductData): (r: Result<map<int, ProductData>, string>)
    ensures r.Failure? <==> id !in m
    ensures r.Failure? ==> r.error == NotFound
    ensures r.Success? ==> r.value.Keys == m.Keys
    ensures r.Success? ==> r.value[id].id == m[id].id
    ensures r.Success? ==> (r.value[id].name, r.value[id].price, r.value[id].stock) == (p.name, p.price, p.stock)
  {
    if id in m then Success(m[id := Overwritten(m[id], p)]) else Failure(NotFound)
  }

  /** `update` leaves every entry other than `id` as it was. */
  lemma UpdateFrame(m: map<int, ProductData>, id: int, p: ProductData, k: int)
    requires UpdateStore(m, id, p).Success?
    requires k in m && k != id
    ensures UpdateStore(m, id, p).value[k] == m[k]
  {
  }

  /** Applying the same `update` twice gives the store that applying it once gives. */
  lemma UpdateIdempotent(m: map<int, ProductData>, id: int, p: ProductData)
    requires UpdateStore(m, id, p).Success?
    ensures UpdateStore(UpdateStore(m, id, p).value, id, p) == UpdateStore(m, id, p)
  {
    var e := Overwritten(m[id], p);
    assert Overwritten(e, p) == e;
    assert m[id := e][id := e] == m[id := e];
  }

  /** `update` ignores the id carried by `p`. */
  lemma UpdateIgnoresPayloadId(m: map<int, ProductData>, id: int, p: ProductData, other: Option<int>)
    ensures UpdateStore(m, id, p.(id := other)) == UpdateStore(m, id, p)
  {
  }

  /** `update` keeps a store keyed, and keeps it valid when the new values are valid. */
  lemma UpdatePreserves(m: map<int, ProductData>, id: int, p: ProductData)
    requires UpdateStore(m, id, p).Success?
    ensures Keyed(m) ==> Keyed(UpdateStore(m, id, p).value)
    ensures AllValid(m) && Valid(p) ==> AllValid(UpdateStore(m, id, p).value)
  {
  }

  class ProductService {
    /** The repository's rows, by id. */
    var store: map<int, ProductData>
    /** The id the next insert receives. */
    var nextId: int

    ghost predicate Valid()
      reads this
    {
      && 1 <= nextId
      && Keyed(store)
      && forall k :: k in store ==> 1 <= k < nextId
    }

    /**
     * A service over an injected repository, which may already hold rows: each
     * stored under its own id, all ids from 1 and below the next generated id.
     */
    constructor (initial: map<int, ProductData>, next: int)
      requires Keyed(initial) && 1 <= next
      requires forall k :: k in initial ==> 1 <= k < next
      ensures Valid()
      ensures store == initial && nextId == next
    {
      store, nextId := initial, next;
    }

    /** `findAll`: exactly the stored products, each once. */
    function FindAll(): (r: set<ProductData>)
      reads this
      requires Valid()
      ensures forall d :: d in r <==> d.id.Some? && d.id.value in store && store[d.id.value] == d
      ensures |r| == |store|
    {
      KeyedRows(store);
      KeyedRowCount(store);
      store.Values
    }

    /**
     * `repo.save`: a row without an id, or with an id that is not stored, is
     * inserted under a fresh generated id; a row with a stored id overwrites it.
     */
    method Save(d: ProductData) returns (saved: ProductData)
      requires Valid()
      modifies this
      ensures Valid()
      ensures d.id.Some? && d.id.value in old(store) ==>
        saved == d && store == old(store)[d.id.value := d] && nextId == old(nextId)
      ensures !(d.id.Some? && d.id.value in old(store)) ==>
        && old(nextId) !in old(store)
        && saved == d.(id := Some(old(nextId)))
        && store == old(store)[old(nextId) := saved]
        && nextId == old(nextId) + 1
    {
      if d.id.Some? && d.id.value in store {
        saved := d;
        store := store[d.id.value := d];
      } else {
        saved := d.(id := Some(nextId));
        store := store[nextId := saved];
        nextId := nextId + 1;
      }
    }

    /** `create(p)`: saves `p` and returns the saved entity, which is now stored under its id. */
    method Create(p: ProductData) returns (saved: ProductData)
      requires Valid()
      modifies this
      ensures Valid()
      ensures (saved.name, saved.price, saved.stock) == (p.name, p.price, p.stock)
      ensures saved.id.Some? && saved.id.value in store && store[saved.id.value] == saved
      ensures p.id.None? ==> saved.id.value !in old(store) && store == old(store)[saved.id.value := saved]
      ensures p.id.Some? && p.id.value in old(store) ==> saved == p && store == old(store)[p.id.value := p]
    {
      saved := Save(p);
    }

    /**
     * `update(id, p)`: loads the stored entity, copies name, price and stock
     * from `p` through the setters and saves it; "Not found" when `id` is absent.
     */
    method Update(id: int, p: Product) returns (r: Result<ProductData, string>)
      requires Valid()
      modifies this
      ensures Valid()
      ensures nextId == old(nextId) && p.Data() == old(p.Data())
      ensures UpdateStore(old(store), id, p.Data()).Failure? ==> r == Failure(NotFound) && store == old(store)
      ensures UpdateStore(old(store), id, p.Data()).Success? ==>
        store == UpdateStore(old(store), id, p.Data()).value && r == Success(store[id])
    {
      if id !in store {
        return Failure(NotFound);
      }
      var e := new Product.Load(store[id]);
      e.SetName(p.GetName());
      e.SetPrice(p.GetPrice());
      e.SetStock(p.GetStock());
      var saved := Save(e.Data());
      r := Success(saved);
    }

    /** `delete(id)`: removes the entry for `id`, if any; every other entry stays. */
    method Delete(id: int)
      requires Valid()
      modifies this
      ensures Valid()
      ensures store == old(store) - {id} && nextId == old(nextId)
      ensures id !in store
      ensures forall k :: k in old(store) && k != id ==> k in store && store[k] == old(store)[k]
    {
      store := store - {id};
    }
  }
}
