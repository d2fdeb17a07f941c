/**
 The item list held by the task-list component: a sequence of `{_id, name}`
 records, plus the two list operations its handlers use. Delete keeps the items
 whose id differs (`items.filter`) and save replaces the items whose id matches
 (`items.map`).
 */
module Items {

  /** The server-assigned `_id`; compared with `===`, i.e. by value. */
  type Id = string

  datatype Item = Item(id: Id, name: string)

  /** Some item of the list carries `id`. */
  predicate HasId(items: seq<Item>, id: Id) {
    exists i :: 0 <= i < |items| && items[i].id == id
  }

  /** No two positions of the list carry the same id. */
  predicate DistinctIds(items: seq<Item>) {
    forall i, j :: 0 <= i < j < |items| ==> items[i].id != items[j].id
  }

  /** `a` is `b` with some elements deleted, the rest kept in their order. */
  predicate IsSubsequence<T(==)>(a: seq<T>, b: seq<T>)
    decreases |b|
  {
    if a == [] then true
    else if b == [] then false
    else (a[0] == b[0] && IsSubsequence(a[1..], b[1..])) || IsSubsequence(a, b[1..])
  }

  /** `items.filter((item) => item._id !== id)`. */
  function RemoveId(items: seq<Item>, id: Id): (r: seq<Item>)
    ensures |r| <= |items|
    ensures forall x :: x in r <==> x in items && x.id != id
    ensures !HasId(r, id)
  {
    if items == [] then []
    else if items[0].id == id then RemoveId(items[1..], id)
    else [items[0]] + RemoveId(items[1..], id)
  }

  /** `items.map((item) => (item._id === id ? data : item))`. */
  function ReplaceId(items: seq<Item>, id: Id, data: Item): (r: seq<Item>)
    ensures |r| == |items|
    ensures forall i :: 0 <= i < |items| ==> r[i] == (if items[i].id == id then data else items[i])
  {
    if items == [] then []
    else [if items[0].id == id then data else items[0]] + ReplaceId(items[1..], id, data)
  }

  /** A non-empty list carries `id` at its head or in its tail. */
  lemma HasIdSplit(items: seq<Item>, id: Id)
    requires items != []
    ensures HasId(items, id) <==> items[0].id == id || HasId(items[1..], id)
  {
    if HasId(items[1..], id) {
      var i :| 0 <= i < |items[1..]| && items[1..][i].id == id;
      assert items[i + 1].id == id;
    }
    if HasId(items, id) && items[0].id != id {
      var i :| 0 <= i < |items| && items[i].id == id;
      assert items[1..][i - 1].id == id;
    }
  }

  /** The tail of a list with distinct ids has distinct ids, none equal to
      the head's. */
  lemma DistinctIdsSplit(items: seq<Item>)
    requires items != [] && DistinctIds(items)
    ensures DistinctIds(items[1..])
    ensures !HasId(items[1..], items[0].id)
  {
    var rest := items[1..];
    forall i, j | 0 <= i < j < |rest|
      ensures rest[i].id != rest[j].id
    {
      assert rest[i] == items[i + 1] && rest[j] == items[j + 1];
    }
    forall i | 0 <= i < |rest|
      ensures rest[i].id != items[0].id
    {
      assert rest[i] == items[i + 1];
    }
  }

  /** The survivors of a delete keep their relative order. */
  lemma {:induction false} RemoveIdKeepsOrder(items: seq<Item>, id: Id)
    ensures IsSubsequence(RemoveId(items, id), items)
  {
    if items != [] {
      var r := RemoveId(items, id);
      RemoveIdKeepsOrder(items[1..], id);
      if items[0].id != id {
        assert r[0] == items[0] && r[1..] == RemoveId(items[1..], id);
      }
    }
  }

  /** A delete drops every copy of an item carrying `id` and keeps every copy of
      every other item: together with `RemoveIdKeepsOrder` this pins the result
      down completely. */
  lemma {:induction false} RemoveIdMultiplicity(items: seq<Item>, id: Id, x: Item)
    ensures multiset(RemoveId(items, id))[x] == if x.id == id then 0 else multiset(items)[x]
  {
    if items != [] {
      var rest := items[1..];
      RemoveIdMultiplicity(rest, id, x);
      assert items == [items[0]] + rest;
      assert multiset(items) == multiset([items[0]]) + multiset(rest);
      if items[0].id != id {
        assert RemoveId(items, id) == [items[0]] + RemoveId(rest, id);
        assert multiset(RemoveId(items, id)) == multiset([items[0]]) + multiset(RemoveId(rest, id));
      }
    }
  }

  /** The list is returned as it was exactly when no item carries `id`. */
  lemma {:induction false} RemoveIdUnchangedIffAbsent(items: seq<Item>, id: Id)
    ensures RemoveId(items, id) == items <==> !HasId(items, id)
  {
    if items != [] {
      RemoveIdUnchangedIffAbsent(items[1..], id);
      if items[0].id != id {
        HasIdSplit(items, id);
        assert items == [items[0]] + items[1..];
      } else {
        assert items[0].id == id;
        assert |RemoveId(items, id)| < |items|;
      }
    }
  }

  /** Deleting the same id twice is the same as deleting it once. */
  lemma RemoveIdIdempotent(items: seq<Item>, id: Id)
    ensures RemoveId(RemoveId(items, id), id) == RemoveId(items, id)
  {
    RemoveIdUnchangedIffAbsent(RemoveId(items, id), id);
  }

  /** Deletes of two ids commute. */
  lemma {:induction false} RemoveIdCommutes(items: seq<Item>, a: Id, b: Id)
    ensures RemoveId(RemoveId(items, a), b) == RemoveId(RemoveId(items, b), a)
  {
    if items != [] {
      RemoveIdCommutes(items[1..], a, b);
    }
  }

  /** With distinct ids, deleting a present id removes exactly one item. */
  lemma {:induction false} RemoveIdLength(items: seq<Item>, id: Id)
    requires DistinctIds(items)
    ensures |RemoveId(items, id)| == if HasId(items, id) then |items| - 1 else |items|
  {
    if items != [] {
      DistinctIdsSplit(items);
      HasIdSplit(items, id);
      RemoveIdLength(items[1..], id);
    }
  }

  /** A delete keeps the ids distinct. */
  lemma {:induction false} RemoveIdKeepsDistinct(items: seq<Item>, id: Id)
    requires DistinctIds(items)
    ensures DistinctIds(RemoveId(items, id))
  {
    if items != [] {
      var rest := items[1..];
      DistinctIdsSplit(items);
      RemoveIdKeepsDistinct(rest, id);
      if items[0].id != id {
        var r := RemoveId(items, id);
        var tail := RemoveId(rest, id);
        assert r == [items[0]] + tail;
        forall j | 0 < j < |r|
          ensures r[j].id != items[0].id
        {
          assert r[j] == tail[j - 1] && r[j] in rest;
          var k :| 0 <= k < |rest| && rest[k] == r[j];
        }
      }
    }
  }

  /** A save replaces nothing when no item carries `id`. */
  lemma ReplaceIdAbsent(items: seq<Item>, id: Id, data: Item)
    requires !HasId(items, id)
    ensures ReplaceId(items, id, data) == items
  {
    var r := ReplaceId(items, id, data);
    forall i | 0 <= i < |items|
      ensures r[i] == items[i]
    {
      assert items[i].id != id;
    }
  }

  /** Repeating the same save changes nothing more. */
  lemma ReplaceIdIdempotent(items: seq<Item>, id: Id, data: Item)
    ensures ReplaceId(ReplaceId(items, id, data), id, data) == ReplaceId(items, id, data)
  {
  }

  /** A save whose reply echoes the id keeps every position's id, so the ids
      stay distinct. */
  lemma ReplaceIdKeepsDistinct(items: seq<Item>, id: Id, data: Item)
    requires DistinctIds(items)
    requires data.id == id
    ensures DistinctIds(ReplaceId(items, id, data))
  {
    var r := ReplaceId(items, id, data);
    assert forall i :: 0 <= i < |items| ==> r[i].id == items[i].id;
  }

  /** Appending an item whose id is new keeps the ids distinct. */
  lemma AppendFreshKeepsDistinct(items: seq<Item>, data: Item)
    requires DistinctIds(items)
    requires !HasId(items, data.id)
    ensures DistinctIds(items + [data])
  {
    var r := items + [data];
    forall i, j | 0 <= i < j < |r|
      ensures r[i].id != r[j].id
    {
      if j == |items| {
        assert r[i] == items[i];
      }
    }
  }
}
