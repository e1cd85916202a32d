/** The two list rewrites the component applies to its product list:
    `filter` by identifier on delete and `map`-replace by identifier on
    update. Both are given as recursive definitions, and as the index loops
    `Array.prototype.filter` and `Array.prototype.map` run. */
module ProductList {
  import opened Products

  /** `ps.filter(p => p.id !== id)`: every entry carrying `id` goes, however
      many there are, and the rest stay. */
  function RemoveById(ps: seq<Product>, id: Id): (r: seq<Product>)
    ensures |r| <= |ps|
    ensures forall k :: 0 <= k < |r| ==> r[k].id != id
    ensures forall p :: p in r <==> p in ps && p.id != id
  {
    if ps == [] then []
    else if ps[0].id != id then [ps[0]] + RemoveById(ps[1..], id)
    else RemoveById(ps[1..], id)
  }

  /** How many entries carry `id`. */
  function CountId(ps: seq<Product>, id: Id): nat
  {
    if ps == [] then 0
    else (if ps[0].id == id then 1 else 0) + CountId(ps[1..], id)
  }

  /** Filtering a concatenation filters each part and keeps them in order;
      together with the one-element cases this pins the survivors' order to
      their order in the input. */
  lemma {:induction false} RemoveByIdAppend(a: seq<Product>, b: seq<Product>, id: Id)
    ensures RemoveById(a + b, id) == RemoveById(a, id) + RemoveById(b, id)
    decreases |a|
  {
    if a != [] {
      assert (a + b)[1..] == a[1..] + b;
      RemoveByIdAppend(a[1..], b, id);
    } else {
      assert a + b == b;
    }
  }

  /** Exactly the matching entries are dropped: the length shrinks by their
      number. */
  lemma {:induction false} RemoveByIdLength(ps: seq<Product>, id: Id)
    ensures |RemoveById(ps, id)| == |ps| - CountId(ps, id)
    decreases |ps|
  {
    if ps != [] {
      RemoveByIdLength(ps[1..], id);
    }
  }

  /** Deleting an identifier no entry carries leaves the list as it was. */
  lemma {:induction false} RemoveAbsentId(ps: seq<Product>, id: Id)
    requires forall k :: 0 <= k < |ps| ==> ps[k].id != id
    ensures RemoveById(ps, id) == ps
    decreases |ps|
  {
    if ps != [] {
      RemoveAbsentId(ps[1..], id);
    }
  }

  /** Filtering twice by the same identifier is filtering once. */
  lemma RemoveByIdIdempotent(ps: seq<Product>, id: Id)
    ensures RemoveById(RemoveById(ps, id), id) == RemoveById(ps, id)
  {
  }

  /** The callback of `Array.prototype.map` at one entry. */
  function ReplaceOne(p: Product, id: Id, x: Product): Product
  {
    if p.id == id then x else p
  }

  /** `ps.map(p => p.id === id ? x : p)`: same length, every entry carrying
      `id` becomes `x`, every other entry is untouched and in place. */
  function ReplaceById(ps: seq<Product>, id: Id, x: Product): (r: seq<Product>)
    ensures |r| == |ps|
    ensures forall k :: 0 <= k < |ps| && ps[k].id == id ==> r[k] == x
    ensures forall k :: 0 <= k < |ps| && ps[k].id != id ==> r[k] == ps[k]
  {
    if ps == [] then [] else [ReplaceOne(ps[0], id, x)] + ReplaceById(ps[1..], id, x)
  }

  /** Replacing an entry by itself: if every entry carrying `id` already is
      `x`, the list comes back unchanged. This is the echoing-server case of
      an edit submitted without changes. */
  lemma ReplaceByEqual(ps: seq<Product>, x: Product)
    requires forall k :: 0 <= k < |ps| && ps[k].id == x.id ==> ps[k] == x
    ensures ReplaceById(ps, x.id, x) == ps
  {
  }

  /** `Array.prototype.filter` as it runs: one pass in index order, pushing
      every entry the callback keeps. It computes `RemoveById`. */
  method Filter(ps: seq<Product>, id: Id) returns (r: seq<Product>)
    ensures r == RemoveById(ps, id)
  {
    r := [];
    var i := 0;
    while i < |ps|
      invariant 0 <= i <= |ps|
      invariant r == RemoveById(ps[..i], id)
    {
      assert ps[..i + 1] == ps[..i] + [ps[i]];
      RemoveByIdAppend(ps[..i], [ps[i]], id);
      if ps[i].id != id {
        r := r + [ps[i]];
      }
      i := i + 1;
    }
    assert ps[..|ps|] == ps;
  }

  /** `Array.prototype.map` as it runs: one pass in index order, pushing the
      callback's value for every entry. It computes `ReplaceById`. */
  method Map(ps: seq<Product>, id: Id, x: Product) returns (r: seq<Product>)
    ensures r == ReplaceById(ps, id, x)
  {
    r := [];
    var i := 0;
    while i < |ps|
      invariant 0 <= i <= |ps|
      invariant |r| == i
      invariant forall k :: 0 <= k < i ==> r[k] == ReplaceOne(ps[k], id, x)
    {
      r := r + [ReplaceOne(ps[i], id, x)];
      i := i + 1;
    }
  }
}
