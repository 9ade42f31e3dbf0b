/**
 internal/cache/memory.go: the LRU cache as a map of list elements plus the linked list,
 updated in place. Every method is proved to do to `contents` what Recency does.
 */
module MemoryCache {
  import opened Common
  import opened LinkedList
  import opened Recency

  class Memory<V> {
    const maxEntries: int
    const evictList: List<Option<Entry<V>>>
    var items: map<Key, Element<Option<Entry<V>>>>
    /** The entries on the list, front to back. */
    ghost var contents: Cache<V>

    /** The bound in force: a non-positive maxEntries keeps nothing. */
    ghost function Capacity(): nat {
      if maxEntries < 0 then 0 else maxEntries
    }

    ghost predicate Valid()
      reads this, evictList, evictList.root, evictList.order
    {
      Consistent() && |contents| <= Capacity()
    }

    /** Links are well formed, and map and list hold the same elements, each under its own key. */
    ghost predicate Consistent()
      reads this, evictList, evictList.root, evictList.order
    {
      && evictList.Valid()
      && |contents| == |evictList.order|
      && (forall i :: 0 <= i < |contents| ==> Holds(i))
      && (forall k :: k in items ==> Has(contents, k))
    }

    ghost predicate Holds(i: nat)
      requires i < |contents| == |evictList.order|
      reads this, evictList, evictList.order
    {
      && evictList.order[i].value == Some(contents[i])
      && contents[i].key in items && items[contents[i].key] == evictList.order[i]
    }

    constructor (maxEntries: int)
      ensures Valid() && this.maxEntries == maxEntries && contents == []
      ensures fresh(evictList) && fresh(evictList.root)
    {
      this.maxEntries := maxEntries;
      evictList := new List(None);
      items := map[];
      contents := [];
    }

    lemma DistinctKeys()
      requires Consistent()
      ensures Distinct(contents)
    {
      forall i, j | 0 <= i < j < |contents| ensures contents[i].key != contents[j].key {
        assert Holds(i) && Holds(j);
      }
    }

    lemma Lookup(k: Key)
      requires Consistent()
      ensures k in items <==> Has(contents, k)
      ensures k in items ==> evictList.order[IndexOf(contents, k)] == items[k]
    {
      if Has(contents, k) {
        assert Holds(IndexOf(contents, k));
      }
    }

    method Get(key: Key, now: Time) returns (value: Option<V>)
      requires Valid()
      modifies this, evictList, evictList.root, evictList.order
      ensures Valid()
      ensures forall i :: 0 <= i < |evictList.order| ==>
        evictList.order[i] in old(evictList.order) || fresh(evictList.order[i])
      ensures (contents, value) == old(Recency.Get(contents, key, now))
    {
      Lookup(key);
      if key !in items {
        return None;
      }
      var e := items[key];
      ghost var i := IndexOf(contents, key);
      assert Holds(i);
      if now > e.value.value.expiresAt {
        RemoveElement(e, i);
        return None;
      }
      value := Some(e.value.value.value);
      MoveToFront(e, i);
    }

    method Set(key: Key, v: V, now: Time, ttl: int)
      requires Valid()
      modifies this, evictList, evictList.root, evictList.order
      ensures Valid()
      ensures forall i :: 0 <= i < |evictList.order| ==>
        evictList.order[i] in old(evictList.order) || fresh(evictList.order[i])
      ensures contents == old(Recency.Set(contents, Capacity(), key, v, now + ttl))
    {
      Lookup(key);
      if key in items {
        Refresh(items[key], IndexOf(contents, key), Entry(key, v, now + ttl));
        return;
      }
      Insert(Entry(key, v, now + ttl));
      if evictList.len > maxEntries {
        RemoveOldest();
      }
    }

    /** An existing key: overwritten where it stands, then moved to the front. */
    method Refresh(e: Element<Option<Entry<V>>>, ghost i: nat, ent: Entry<V>)
      requires Consistent() && i < |contents| && evictList.order[i] == e && contents[i].key == ent.key
      modifies this`contents, evictList, evictList.root, evictList.order
      ensures Consistent() && contents == old([ent] + Without(contents, i))
      ensures forall i :: 0 <= i < |evictList.order| ==>
        evictList.order[i] in old(evictList.order) || fresh(evictList.order[i])
    {
      ghost var c := contents;
      Replace(e, i, ent);
      assert Without(contents, i) == Without(c, i);
      MoveToFront(e, i);
    }

    /** One operation of a run. */
    method Do(op: Op<V>) returns (answer: Option<V>)
      requires Valid()
      modifies this, evictList, evictList.root, evictList.order
      ensures Valid()
      ensures forall i :: 0 <= i < |evictList.order| ==>
        evictList.order[i] in old(evictList.order) || fresh(evictList.order[i])
      ensures contents == Apply(old(contents), Capacity(), op)
      ensures answer == Answer(old(contents), op)
    {
      match op
      case GetOp(k, now) =>
        answer := Get(k, now);
      case SetOp(k, v, now, ttl) =>
        Set(k, v, now, ttl);
        answer := None;
    }

    method Len() returns (n: nat)
      requires Valid()
      ensures n == |contents| && n <= Capacity()
    {
      n := evictList.len;
    }

    method RemoveOldest()
      requires Consistent()
      modifies this, evictList, evictList.root, evictList.order
      ensures Consistent()
      ensures forall i :: 0 <= i < |evictList.order| ==>
        evictList.order[i] in old(evictList.order) || fresh(evictList.order[i])
      ensures contents == old(if contents == [] then [] else contents[..|contents| - 1])
    {
      if evictList.len > 0 {
        var e := evictList.Back();
        RemoveElement(e, |contents| - 1);
      }
    }

    /** removeElement: off the list and out of the map. */
    method RemoveElement(e: Element<Option<Entry<V>>>, ghost i: nat)
      requires Consistent() && i < |contents| && evictList.order[i] == e
      modifies this, evictList, evictList.root, evictList.order
      ensures Consistent()
      ensures forall i :: 0 <= i < |evictList.order| ==>
        evictList.order[i] in old(evictList.order) || fresh(evictList.order[i])
      ensures contents == old(Without(contents, i))
    {
      DistinctKeys();
      assert Holds(i);
      ghost var c, o := contents, evictList.order;
      var k := e.value.value.key;
      evictList.Unlink(e, i);
      items := items - {k};
      contents := Without(c, i);
      forall j | 0 <= j < |contents| ensures Holds(j) {
        ghost var was := if j < i then j else j + 1;
        assert old(Holds(was));
        assert contents[j] == c[was] && evictList.order[j] == o[was] && c[was].key != k;
      }
      forall k | k in items ensures Has(contents, k) {
        DropFinds(c, c[i].key, k);
      }
    }

    method MoveToFront(e: Element<Option<Entry<V>>>, ghost i: nat)
      requires Consistent() && i < |contents| && evictList.order[i] == e
      modifies this`contents, evictList, evictList.root, evictList.order
      ensures Consistent()
      ensures forall i :: 0 <= i < |evictList.order| ==>
        evictList.order[i] in old(evictList.order) || fresh(evictList.order[i])
      ensures contents == old([contents[i]] + Without(contents, i))
    {
      ghost var c := contents;
      evictList.MoveToFront(e, i);
      contents := [c[i]] + Without(c, i);
      forall j | 0 <= j < |contents| ensures Holds(j) {
        ghost var was := if j == 0 then i else if j <= i then j - 1 else j;
        assert old(Holds(was));
        assert contents[j] == c[was] && evictList.order[j] == old(evictList.order)[was];
      }
      forall k | k in items ensures Has(contents, k) {
        var n := IndexOf(c, k);
        assert contents[if n == i then 0 else if n < i then n + 1 else n].key == k;
      }
    }

    /** The entry of an existing key is overwritten where it stands. */
    method Replace(e: Element<Option<Entry<V>>>, ghost i: nat, ent: Entry<V>)
      requires Consistent() && i < |contents| && evictList.order[i] == e && contents[i].key == ent.key
      modifies this`contents, evictList.order`value
      ensures Consistent()
      ensures contents == old(contents)[i := ent]
    {
      ghost var c := contents;
      e.value := Some(ent);
      contents := c[i := ent];
      forall j | 0 <= j < |contents| ensures Holds(j) {
        assert old(Holds(j));
      }
      forall k | k in items ensures Has(contents, k) {
        assert contents[IndexOf(c, k)].key == k;
      }
      forall j | 0 <= j < |evictList.order| ensures evictList.Linked(j) {
        assert old(evictList.Linked(j));
      }
    }

    method Insert(ent: Entry<V>)
      requires Consistent() && !Has(contents, ent.key)
      modifies this, evictList, evictList.root, evictList.order
      ensures Consistent()
      ensures forall i :: 0 <= i < |evictList.order| ==>
        evictList.order[i] in old(evictList.order) || fresh(evictList.order[i])
      ensures contents == [ent] + old(contents)
    {
      ghost var c := contents;
      var e := evictList.PushFront(Some(ent));
      items := items[ent.key := e];
      contents := [ent] + c;
      forall j | 0 <= j < |contents| ensures Holds(j) {
        if j > 0 {
          assert old(Holds(j - 1));
          assert contents[j] == c[j - 1];
          assert evictList.order[j] == old(evictList.order)[j - 1];
        }
      }
      forall k | k in items ensures Has(contents, k) {
        if k != ent.key { assert contents[IndexOf(c, k) + 1].key == k; } else { assert contents[0].key == k; }
      }
    }
  }

  /** The answer the reference model gives to one operation; a Set gives none. */
  ghost function Answer<V>(c: Cache<V>, op: Op<V>): Option<V> {
    if op.GetOp? then Recency.Get(c, op.k, op.now).1 else None
  }

  ghost function Answers<V>(max: nat, ops: seq<Op<V>>): seq<Option<V>> {
    if ops == [] then []
    else
      var before := ops[..|ops| - 1];
      Answers(max, before) + [Answer(After(max, before), ops[|ops| - 1])]
  }

  /** A client driving one cache through any run: every answer is the reference model's. */
  method Client<V>(maxEntries: int, ops: seq<Op<V>>) returns (answers: seq<Option<V>>)
    ensures answers == Answers(if maxEntries < 0 then 0 else maxEntries, ops)
  {
    var m := new Memory<V>(maxEntries);
    ghost var max := m.Capacity();
    answers := [];
    for n := 0 to |ops|
      invariant m.Valid() && fresh(m) && fresh(m.evictList) && fresh(m.evictList.root) && m.maxEntries == maxEntries
      invariant forall i :: 0 <= i < |m.evictList.order| ==> fresh(m.evictList.order[i])
      invariant m.contents == After(max, ops[..n]) && answers == Answers(max, ops[..n])
    {
      assert ops[..n + 1][..n] == ops[..n];
      var a := m.Do(ops[n]);
      answers := answers + [a];
    }
    assert ops[..|ops|] == ops;
  }
}
