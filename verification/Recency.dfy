/**
 The reference model of the response cache of internal/cache/memory.go: a plain sequence
 of entries, most recently used first, and what every run of Get and Set guarantees.
 Times and durations are nanoseconds.
 */
module Recency {
  import opened Common

  type Key = string
  type Time = int

  datatype Entry<V> = Entry(key: Key, value: V, expiresAt: Time)

  type Cache<V> = seq<Entry<V>>

  // ----- The two operations -----

  predicate Has<V>(c: Cache<V>, k: Key) {
    exists i :: 0 <= i < |c| && c[i].key == k
  }

  predicate Distinct<V>(c: Cache<V>) {
    forall i, j :: 0 <= i < j < |c| ==> c[i].key != c[j].key
  }

  ghost function IndexOf<V>(c: Cache<V>, k: Key): (i: nat)
    requires Has(c, k)
    ensures i < |c| && c[i].key == k
  {
    var i :| 0 <= i < |c| && c[i].key == k; i
  }

  ghost function Find<V>(c: Cache<V>, k: Key): Option<Entry<V>> {
    if Has(c, k) then Some(c[IndexOf(c, k)]) else None
  }

  ghost function Without<V>(c: Cache<V>, i: nat): Cache<V>
    requires i < |c|
  {
    c[..i] + c[i + 1..]
  }

  ghost function Drop<V>(c: Cache<V>, k: Key): Cache<V> {
    if Has(c, k) then Without(c, IndexOf(c, k)) else c
  }

  /** An entry is readable up to and including its expiry instant. */
  ghost predicate Fresh<V>(e: Entry<V>, now: Time) {
    now <= e.expiresAt
  }

  ghost predicate Hit<V>(c: Cache<V>, k: Key, now: Time) {
    Has(c, k) && Fresh(c[IndexOf(c, k)], now)
  }

  ghost function Get<V>(c: Cache<V>, k: Key, now: Time): (Cache<V>, Option<V>) {
    if Hit(c, k, now) then ([c[IndexOf(c, k)]] + Drop(c, k), Some(c[IndexOf(c, k)].value))
    else (Drop(c, k), None)
  }

  ghost function Set<V>(c: Cache<V>, max: nat, k: Key, v: V, expiresAt: Time): Cache<V> {
    var r := [Entry(k, v, expiresAt)] + Drop(c, k);
    if !Has(c, k) && |r| > max then r[..|r| - 1] else r
  }

  // ----- Runs -----

  datatype Op<V> = GetOp(k: Key, now: Time) | SetOp(k: Key, v: V, now: Time, ttl: int)

  ghost function Apply<V>(c: Cache<V>, max: nat, op: Op<V>): Cache<V> {
    match op
    case GetOp(k, now) => Get(c, k, now).0
    case SetOp(k, v, now, ttl) => Set(c, max, k, v, now + ttl)
  }

  /** The cache after a run from empty. */
  ghost function After<V>(max: nat, ops: seq<Op<V>>): Cache<V> {
    if ops == [] then [] else Apply(After(max, ops[..|ops| - 1]), max, ops[|ops| - 1])
  }

  /** The operation uses its key: it sets it, or it is a Get that hits. */
  ghost predicate Uses<V>(c: Cache<V>, op: Op<V>) {
    op.SetOp? || Hit(c, op.k, op.now)
  }

  /** What the run last set for k, with the expiry that gave it. */
  ghost function LastSet<V>(ops: seq<Op<V>>, k: Key): Option<Entry<V>> {
    if ops == [] then None
    else
      var op := ops[|ops| - 1];
      if op.SetOp? && op.k == k then Some(Entry(k, op.v, op.now + op.ttl)) else LastSet(ops[..|ops| - 1], k)
  }

  /** The distinct other keys set or hit since k was last set or hit. */
  ghost function OthersSince<V>(max: nat, ops: seq<Op<V>>, k: Key): set<Key> {
    if ops == [] then {}
    else
      var before, op := ops[..|ops| - 1], ops[|ops| - 1];
      if !Uses(After(max, before), op) then OthersSince(max, before, k)
      else if op.k == k then {}
      else OthersSince(max, before, k) + {op.k}
  }

  ghost predicate TimesUpTo<V>(ops: seq<Op<V>>, now: Time) {
    forall i :: 0 <= i < |ops| ==> ops[i].now <= now
  }

  // ----- Shape of every reachable cache -----

  lemma DropFacts<V>(c: Cache<V>, k: Key)
    requires Distinct(c)
    ensures Distinct(Drop(c, k)) && !Has(Drop(c, k), k)
    ensures |Drop(c, k)| == if Has(c, k) then |c| - 1 else |c|
  {
    if Has(c, k) {
      var i := IndexOf(c, k);
      var d := Without(c, i);
      assert forall n :: 0 <= n < |d| ==> d[n] == if n < i then c[n] else c[n + 1];
    }
  }

  lemma DropFinds<V>(c: Cache<V>, k: Key, j: Key)
    requires Distinct(c) && j != k
    ensures Find(Drop(c, k), j) == Find(c, j)
  {
    DropFacts(c, k);
    if Has(c, k) {
      var i := IndexOf(c, k);
      var d := Without(c, i);
      if Has(c, j) {
        var n := IndexOf(c, j);
        assert c[n] == if n < i then d[n] else d[n - 1];
        assert Has(d, j);
      }
      if Has(d, j) {
        var n := IndexOf(d, j);
        assert d[n] == if n < i then c[n] else c[n + 1];
        assert Has(c, j);
      }
    }
  }

  lemma {:induction false} ReachableShape<V>(max: nat, ops: seq<Op<V>>)
    ensures Distinct(After(max, ops)) && |After(max, ops)| <= max
  {
    if ops != [] {
      var before, op := ops[..|ops| - 1], ops[|ops| - 1];
      ReachableShape(max, before);
      DropFacts(After(max, before), op.k);
    }
  }

  // ----- No Get returns a superseded or expired value -----

  lemma ApplyFinds<V>(c: Cache<V>, max: nat, op: Op<V>, k: Key)
    requires Distinct(c) && |c| <= max
    ensures var f := Find(Apply(c, max, op), k);
      f == None || f == Find(c, k) || (op.SetOp? && op.k == k)
    ensures op.SetOp? && op.k == k ==> var f := Find(Apply(c, max, op), k);
      f == None || f == Some(Entry(k, op.v, op.now + op.ttl))
  {
    var d := Drop(c, op.k);
    DropFacts(c, op.k);
    var after := Apply(c, max, op);
    if Has(after, k) {
      var i := IndexOf(after, k);
      if op.k != k { DropFinds(c, op.k, k); }
      if Uses(c, op) {
        if i > 0 { assert after[i] == d[i - 1]; assert Has(d, k); assert d[IndexOf(d, k)].key == k; }
      } else {
        assert after == d;
      }
    }
  }

  lemma {:induction false} ReachableFinds<V>(max: nat, ops: seq<Op<V>>, k: Key)
    ensures var f := Find(After(max, ops), k); f == None || f == LastSet(ops, k)
  {
    if ops != [] {
      var before, op := ops[..|ops| - 1], ops[|ops| - 1];
      ReachableFinds(max, before, k);
      ReachableShape(max, before);
      ApplyFinds(After(max, before), max, op, k);
    }
  }

  /** Whatever a Get returns after any run is the value last set for that key, and has not expired. */
  lemma NeverStale<V>(max: nat, ops: seq<Op<V>>, k: Key, now: Time)
    requires Get(After(max, ops), k, now).1.Some?
    ensures LastSet(ops, k).Some?
    ensures Get(After(max, ops), k, now).1 == Some(LastSet(ops, k).value.value)
    ensures now <= LastSet(ops, k).value.expiresAt
  {
    ReachableFinds(max, ops, k);
  }

  // ----- The least recently used guarantee -----

  ghost function KeysBefore<V>(c: Cache<V>, n: nat): set<Key>
    requires n <= |c|
  {
    set i | 0 <= i < n :: c[i].key
  }

  lemma {:induction false} KeysBeforeSize<V>(c: Cache<V>, n: nat)
    requires Distinct(c) && n <= |c|
    ensures |KeysBefore(c, n)| == n
  {
    if n == 0 {
      assert KeysBefore(c, 0) == {};
    } else {
      KeysBeforeSize(c, n - 1);
      assert KeysBefore(c, n) == KeysBefore(c, n - 1) + {c[n - 1].key};
    }
  }

  /** Moving or inserting another key at the front adds exactly that key ahead of k. */
  lemma FrontAddsOne<V>(c: Cache<V>, x: Entry<V>, k: Key)
    requires Distinct(c) && Has(c, k) && x.key != k
    ensures var r := [x] + Drop(c, x.key);
      && Distinct(r) && Has(r, k)
      && r[IndexOf(r, k)] == c[IndexOf(c, k)]
      && KeysBefore(r, IndexOf(r, k)) == KeysBefore(c, IndexOf(c, k)) + {x.key}
  {
    var d := Drop(c, x.key);
    var r := [x] + d;
    DropFacts(c, x.key);
    DropFinds(c, x.key, k);
    var n, m := IndexOf(c, k), IndexOf(d, k);
    assert r[m + 1] == d[m];
    if Has(c, x.key) {
      var i := IndexOf(c, x.key);
      assert c[n] == d[if n < i then n else n - 1];
      assert m == if n < i then n else n - 1;
      BeforeInDrop(c, i, n);
    } else {
      assert m == n;
    }
    BeforeInCons(x, d, m);
  }

  lemma BeforeInCons<V>(x: Entry<V>, d: Cache<V>, m: nat)
    requires m <= |d|
    ensures KeysBefore([x] + d, m + 1) == KeysBefore(d, m) + {x.key}
  {
    var r := [x] + d;
    assert forall i :: 0 <= i < |d| ==> r[i + 1] == d[i];
    forall key | key in KeysBefore(d, m) ensures key in KeysBefore(r, m + 1) {
      var i :| 0 <= i < m && d[i].key == key;
      assert r[i + 1].key == key;
    }
    assert r[0].key == x.key;
  }

  lemma BeforeInDrop<V>(c: Cache<V>, i: nat, n: nat)
    requires Distinct(c) && i < |c| && n < |c| && i != n
    ensures KeysBefore(Without(c, i), if n < i then n else n - 1) == KeysBefore(c, n) - {c[i].key}
  {
    var d := Without(c, i);
    var m := if n < i then n else n - 1;
    assert forall a :: 0 <= a < |d| ==> d[a] == if a < i then c[a] else c[a + 1];
    forall key | key in KeysBefore(c, n) - {c[i].key} ensures key in KeysBefore(d, m) {
      var a :| 0 <= a < n && c[a].key == key;
      assert d[if a < i then a else a - 1].key == key;
    }
  }

  /** k is held with fewer than max others ahead of it, all of them among `others`. */
  ghost predicate Ahead<V>(c: Cache<V>, k: Key, e: Entry<V>, others: set<Key>) {
    Has(c, k) && c[IndexOf(c, k)] == e && KeysBefore(c, IndexOf(c, k)) <= others
  }

  lemma PrefixKeeps<V>(r: Cache<V>, len: nat, k: Key)
    requires Distinct(r) && Has(r, k) && len <= |r|
    ensures var p := r[..len];
      && Distinct(p) && (Has(p, k) <==> IndexOf(r, k) < len)
      && (Has(p, k) ==> IndexOf(p, k) == IndexOf(r, k) && KeysBefore(p, IndexOf(p, k)) == KeysBefore(r, IndexOf(r, k)))
  {
    var p, n := r[..len], IndexOf(r, k);
    if n < len {
      assert p[n] == r[n];
      assert IndexOf(p, k) == n;
      assert KeysBefore(p, n) == KeysBefore(r, n);
    }
  }

  /** The entry a use puts at the front, and how much of the list it leaves. */
  lemma UseMovesToFront<V>(c: Cache<V>, max: nat, op: Op<V>)
    requires Distinct(c) && |c| <= max && Uses(c, op)
    ensures var x := if op.SetOp? then Entry(op.k, op.v, op.now + op.ttl) else c[IndexOf(c, op.k)];
      var r := [x] + Drop(c, op.k);
      && |r| <= max + 1
      && Apply(c, max, op) == r[..if |r| <= max then |r| else max]
  {
    DropFacts(c, op.k);
    var x := if op.SetOp? then Entry(op.k, op.v, op.now + op.ttl) else c[IndexOf(c, op.k)];
    var r := [x] + Drop(c, op.k);
    assert r[..|r|] == r;
  }

  lemma UseOfAnother<V>(c: Cache<V>, max: nat, op: Op<V>, k: Key)
    requires Distinct(c) && |c| <= max && Uses(c, op) && op.k != k && Has(c, k)
    ensures var after := Apply(c, max, op);
      var ahead := KeysBefore(c, IndexOf(c, k)) + {op.k};
      if Has(after, k) then after[IndexOf(after, k)] == c[IndexOf(c, k)]
        && KeysBefore(after, IndexOf(after, k)) == ahead
      else |ahead| >= max
  {
    var x := if op.SetOp? then Entry(op.k, op.v, op.now + op.ttl) else c[IndexOf(c, op.k)];
    var r := [x] + Drop(c, op.k);
    FrontAddsOne(c, x, k);
    KeysBeforeSize(r, IndexOf(r, k));
    UseMovesToFront(c, max, op);
    PrefixKeeps(r, if |r| <= max then |r| else max, k);
  }

  lemma {:induction false} SubsetSize<T>(a: set<T>, b: set<T>)
    requires a <= b
    ensures |a| <= |b|
  {
    if a != {} {
      var x :| x in a;
      SubsetSize(a - {x}, b - {x});
    }
  }

  lemma UseOfItself<V>(c: Cache<V>, max: nat, op: Op<V>, e: Entry<V>)
    requires Distinct(c) && |c| <= max && Uses(c, op) && max > 0
    requires if op.SetOp? then e == Entry(op.k, op.v, op.now + op.ttl) else e == c[IndexOf(c, op.k)]
    ensures Ahead(Apply(c, max, op), op.k, e, {})
  {
    DropFacts(c, op.k);
    var after := Apply(c, max, op);
    var r := [e] + Drop(c, op.k);
    assert after == r || after == r[..|r| - 1];
    assert Has(after, op.k) by { assert after[0] == e; }
    assert Distinct(r);
    assert Distinct(after);
    assert IndexOf(after, op.k) == 0;
  }

  lemma {:induction false} StaysAhead<V>(max: nat, ops: seq<Op<V>>, k: Key, now: Time)
    requires LastSet(ops, k).Some? && TimesUpTo(ops, now) && now <= LastSet(ops, k).value.expiresAt
    requires |OthersSince(max, ops, k)| < max
    ensures Ahead(After(max, ops), k, LastSet(ops, k).value, OthersSince(max, ops, k))
  {
    var before, op := ops[..|ops| - 1], ops[|ops| - 1];
    var c := After(max, before);
    ReachableShape(max, before);
    assert op.now <= now;
    assert TimesUpTo(before, now);
    if Uses(c, op) && op.k == k {
      ReachableFinds(max, before, k);
      UseOfItself(c, max, op, LastSet(ops, k).value);
    } else if Uses(c, op) {
      SubsetSize(OthersSince(max, before, k), OthersSince(max, ops, k));
      StaysAhead(max, before, k, now);
      UseOfAnother(c, max, op, k);
      SubsetSize(KeysBefore(c, IndexOf(c, k)) + {op.k}, OthersSince(max, ops, k));
    } else {
      StaysAhead(max, before, k, now);
      MissOfAnother(c, op, k, LastSet(ops, k).value, OthersSince(max, before, k), now);
    }
  }

  lemma MissOfAnother<V>(c: Cache<V>, op: Op<V>, k: Key, e: Entry<V>, others: set<Key>, now: Time)
    requires Distinct(c) && op.GetOp? && !Hit(c, op.k, op.now) && op.now <= now <= e.expiresAt
    requires Ahead(c, k, e, others)
    ensures op.k != k && Ahead(Drop(c, op.k), k, e, others)
  {
    if Has(c, op.k) {
      var i, n := IndexOf(c, op.k), IndexOf(c, k);
      BeforeInDrop(c, i, n);
      DropFacts(c, op.k);
      DropFinds(c, op.k, k);
      var d := Drop(c, op.k);
      assert d[if n < i then n else n - 1] == c[n];
      assert IndexOf(d, k) == if n < i then n else n - 1;
    }
  }

  /**
   After any run with times up to now, a key whose TTL has not passed, and since whose last
   use fewer than max distinct other keys were set or hit, is returned with its last-set value.
   */
  lemma RecentlyUsedIsReturned<V>(max: nat, ops: seq<Op<V>>, k: Key, now: Time)
    requires LastSet(ops, k).Some? && TimesUpTo(ops, now) && now <= LastSet(ops, k).value.expiresAt
    requires |OthersSince(max, ops, k)| < max
    ensures Get(After(max, ops), k, now).1 == Some(LastSet(ops, k).value.value)
  {
    StaysAhead(max, ops, k, now);
  }

  // ----- Without expiry the cache is exactly least-recently-used -----

  /** No Get of the run finds an entry that has expired. */
  ghost predicate NothingExpires<V>(max: nat, ops: seq<Op<V>>) {
    ops == [] || (
      var before, op := ops[..|ops| - 1], ops[|ops| - 1];
      && NothingExpires(max, before)
      && (op.GetOp? && Has(After(max, before), op.k) ==> Hit(After(max, before), op.k, op.now)))
  }

  lemma {:induction false} ExactOrder<V>(max: nat, ops: seq<Op<V>>, k: Key)
    requires LastSet(ops, k).Some? && NothingExpires(max, ops)
    ensures var c := After(max, ops);
      if Has(c, k) then KeysBefore(c, IndexOf(c, k)) == OthersSince(max, ops, k) else |OthersSince(max, ops, k)| >= max
  {
    var before, op := ops[..|ops| - 1], ops[|ops| - 1];
    var c := After(max, before);
    ReachableShape(max, before);
    ReachableShape(max, ops);
    if Uses(c, op) && op.k == k {
      if max > 0 {
        UseOfItself(c, max, op, if op.SetOp? then Entry(op.k, op.v, op.now + op.ttl) else c[IndexOf(c, op.k)]);
      }
    } else {
      ExactOrder(max, before, k);
      if Uses(c, op) {
        if Has(c, k) {
          UseOfAnother(c, max, op, k);
        } else {
          SubsetSize(OthersSince(max, before, k), OthersSince(max, ops, k));
          ApplyFinds(c, max, op, k);
        }
      }
    }
  }

  /** A key set in the run is held exactly when fewer than max other keys were used since its last use. */
  lemma ExactlyLeastRecentlyUsed<V>(max: nat, ops: seq<Op<V>>, k: Key)
    requires LastSet(ops, k).Some? && NothingExpires(max, ops)
    ensures Has(After(max, ops), k) <==> |OthersSince(max, ops, k)| < max
  {
    var c := After(max, ops);
    ExactOrder(max, ops, k);
    ReachableShape(max, ops);
    if Has(c, k) {
      KeysBeforeSize(c, IndexOf(c, k));
    }
  }
}
