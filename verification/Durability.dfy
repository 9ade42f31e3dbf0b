/**
 What internal/appkey/persist.go guarantees about the disk over whole interleaved runs, with
 any overlap of calls: the exact condition under which a deleted key can return or a revoked
 one can reappear unrevoked.
 */
module Durability {
  import opened AppKey
  import opened Persistence

  // ----- Building runs -----

  /** s' is reached from s by some run that never provisions k. */
  ghost predicate Reaches(s: State, s': State, k: Key) {
    exists ls :: Runs(s, ls, s') && NeverCreates(ls, k)
  }

  lemma {:induction false} RunsAppend(s: State, a: seq<Step>, m: State, b: seq<Step>, s': State)
    requires Runs(s, a, m) && Runs(m, b, s')
    ensures Runs(s, a + b, s')
    decreases |a|
  {
    if a == [] {
      assert a + b == b;
    } else {
      assert (a + b)[1..] == a[1..] + b;
      RunsAppend(Next(s, a[0]), a[1..], m, b, s');
    }
  }

  lemma ReachesOn(s: State, m: State, s': State, k: Key)
    requires Reaches(s, m, k) && Reaches(m, s', k)
    ensures Reaches(s, s', k)
  {
    var a :| Runs(s, a, m) && NeverCreates(a, k);
    var b :| Runs(m, b, s') && NeverCreates(b, k);
    RunsAppend(s, a, m, b, s');
    assert NeverCreates(a + b, k);
  }

  lemma ReachesSelf(s: State, k: Key)
    ensures Reaches(s, s, k)
  {
    assert Runs(s, [], s) && NeverCreates([], k);
  }

  lemma ReachesNext(s: State, l: Step, k: Key)
    requires Inv(s) && Enabled(s, l) && !Creates(l, k)
    ensures Inv(Next(s, l)) && Reaches(s, Next(s, l), k)
  {
    InvStep(s, l);
    var s' := Next(s, l);
    assert [l][1..] == [];
    assert Runs(s', [], s');
    assert Runs(s, [l], s') && NeverCreates([l], k);
  }

  /** One more step of call t, from a state already reached. */
  lemma ThenAdvance(from: State, s: State, t: Tid, k: Key) returns (s': State)
    requires Inv(s) && Reaches(from, s, k) && t in s.calls && CanAdvance(s, s.calls[t], 1)
    ensures s' == Advanced(s, t, 1) && Inv(s') && Reaches(from, s', k)
  {
    s' := Advanced(s, t, 1);
    ReachesNext(s, Advance(t, 1), k);
    ReachesOn(from, s, s', k);
  }

  lemma ThenFlush(from: State, s: State, j: Key, k: Key) returns (s': State)
    requires Inv(s) && Reaches(from, s, k) && (s.flush.Resting? ==> s.lock.Free?)
    ensures s' == Flushed(s, j) && Inv(s') && Reaches(from, s', k)
  {
    s' := Flushed(s, j);
    ReachesNext(s, FlushStep(j), k);
    ReachesOn(from, s, s', k);
  }

  // ----- Letting whoever holds writeMu finish -----

  /** One record of a listed flush is snapshotted; what the flush carries of k stays. */
  lemma SnapshotOne(w: Concern, from: State, s: State, j: Key, k: Key) returns (m: State)
    requires Inv(s) && Reaches(from, s, k) && s.flush.Listed? && j in s.flush.todo
    ensures Inv(m) && Reaches(from, m, k) && m.flush.Listed? && m.flush.todo == s.flush.todo - {j}
    ensures m == s.(flush := m.flush)
    ensures FlushThreat(w, s, k) ==> FlushThreat(w, m, k)
  {
    m := ThenFlush(from, s, j, k);
  }

  lemma CommitListed(w: Concern, from: State, s: State, k: Key) returns (s': State)
    requires Inv(s) && Reaches(from, s, k) && s.flush.Listed? && s.flush.todo.Keys == {}
    ensures Inv(s') && Reaches(from, s', k) && s' == s.(lock := Free, flush := Resting, disk := s'.disk)
    ensures FlushThreat(w, s, k) ==> OnDisk(w, s', k)
  {
    s' := ThenFlush(from, s, k, k);
    s' := ThenFlush(from, s', k, k);
  }

  /** A listed flush can run to its end, and puts what it carries on disk. */
  lemma {:induction false} FinishListed(w: Concern, from: State, s: State, k: Key) returns (s': State)
    requires Inv(s) && Reaches(from, s, k) && s.flush.Listed?
    ensures Inv(s') && Reaches(from, s', k) && s' == s.(lock := Free, flush := Resting, disk := s'.disk)
    ensures FlushThreat(w, s, k) ==> OnDisk(w, s', k)
    decreases |s.flush.todo|
  {
    if s.flush.todo.Keys == {} {
      s' := CommitListed(w, from, s, k);
    } else {
      var j :| j in s.flush.todo;
      var m := SnapshotOne(w, from, s, j, k);
      SmallerMap(s.flush.todo, j);
      s' := FinishListed(w, from, m, k);
    }
  }

  lemma SmallerMap(m: map<Key, Rid>, j: Key)
    requires j in m
    ensures |m - {j}| < |m|
  {
    assert (m - {j}).Keys == m.Keys - {j};
    assert |(m - {j}).Keys| == |m - {j}| && |m.Keys| == |m|;
  }

  /** Some run frees writeMu without moving call t, the records or the map. */
  lemma FreeLock(s: State, t: Tid, k: Key) returns (s': State)
    requires Inv(s) && s.lock != HeldBy(t)
    ensures Inv(s') && Reaches(s, s', k) && s'.lock.Free? && s'.flush.Resting?
    ensures s'.mem == s.mem && s'.recs == s.recs
    ensures t in s.calls ==> t in s'.calls && s'.calls[t] == s.calls[t]
  {
    ReachesSelf(s, k);
    match s.lock
    case Free => s' := s;
    case HeldBy(o) =>
      s' := s;
      if s'.calls[o].Locked? || s'.calls[o].Erasing? { s' := ThenAdvance(s, s', o, k); }
      s' := ThenAdvance(s, s', o, k);
    case HeldByFlush =>
      if s.flush.Committed? {
        s' := ThenFlush(s, s, k, k);
      } else {
        var m := s;
        if s.flush.Holding? { m := ThenFlush(s, s, k, k); }
        s' := FinishListed(AnyEntry, s, m, k);
      }
  }

  // ----- Every threat can come true -----

  /** A flush from rest writes the map's current record of k. */
  lemma FlushWrites(w: Concern, from: State, s: State, k: Key) returns (s': State)
    requires Inv(s) && Reaches(from, s, k) && s.lock.Free? && s.flush.Resting? && MemThreat(w, s, k)
    ensures Reaches(from, s', k) && OnDisk(w, s', k)
  {
    var m := ThenFlush(from, s, k, k);
    m := ThenFlush(from, m, k, k);
    s' := FinishListed(w, from, m, k);
  }

  /** A call with its change applied or its snapshot taken goes on to write it. */
  lemma CallWrites(w: Concern, from: State, s: State, t: Tid, k: Key) returns (s': State)
    requires Inv(s) && Reaches(from, s, k) && s.lock.Free? && t in s.calls
      && (s.calls[t].Applied? || s.calls[t].Snapped?)
    ensures Inv(s') && Reaches(from, s', k) && s'.recs == s.recs
    ensures t in s'.calls && s'.calls[t] == Written(s.calls[t].k, s.calls[t].after)
    ensures s.calls[t].k == k && (if s.calls[t].Applied?
      then BadRid(w, s.recs, s.calls[t].rid) else BadSnap(w, s.calls[t].snap))
        ==> OnDisk(w, s', k)
  {
    assert CallOK(s.recs, s.calls[t]);
    var m := s;
    if m.calls[t].Applied? { m := ThenAdvance(from, m, t, k); }
    m := ThenAdvance(from, m, t, k);
    s' := ThenAdvance(from, m, t, k);
  }

  /** A first revocation, once looked up, is written. */
  lemma RevokeWrites(from: State, s: State, t: Tid, k: Key) returns (s': State)
    requires Inv(s) && Reaches(from, s, k) && s.lock.Free? && t in s.calls && s.calls[t].Looked? && s.calls[t].k == k
    requires s.calls[t].op.RevokeAt? && RevokeThreat(AnyEntry, s.recs, s.calls[t].rid)
    ensures Reaches(from, s', k) && OnDisk(AnyEntry, s', k)
  {
    assert CallOK(s.recs, s.calls[t]);
    var m := ThenAdvance(from, s, t, k);
    s' := CallWrites(AnyEntry, from, m, t, k);
  }

  /** The revocation a Rotate has pending is written after its replacement key. */
  lemma PendingWrites(from: State, s: State, t: Tid, k: Key) returns (s': State)
    requires Inv(s) && Reaches(from, s, k) && t in s.calls && s.calls[t].Written?
    requires PendingThreat(AnyEntry, s.recs, s.calls[t].after, k)
    ensures Reaches(from, s', k) && OnDisk(AnyEntry, s', k)
  {
    var m := ThenAdvance(from, s, t, k);
    s' := RevokeWrites(from, m, t, k);
  }

  lemma {:induction false} SomethingLonger(keys: set<Key>) returns (k: Key)
    ensures forall j :: j in keys ==> |j| < |k|
  {
    if keys == {} {
      k := "";
    } else {
      var j :| j in keys;
      var other := SomethingLonger(keys - {j});
      k := "x" + other + j;
    }
  }

  lemma {:induction false} SomethingGreater(rids: set<Rid>) returns (r: Rid)
    ensures forall j :: j in rids ==> j < r
  {
    if rids == {} {
      r := 0;
    } else {
      var j :| j in rids;
      var other := SomethingGreater(rids - {j});
      r := 1 + other + j;
      forall i | i in rids ensures i < r { if i != j { assert i in rids - {j}; } }
    }
  }

  /** A Rotate that has looked up an unrevoked record vends, then revokes and writes it. */
  lemma RotateWrites(from: State, s: State, t: Tid, k: Key) returns (s': State)
    requires Inv(s) && Reaches(from, s, k) && s.lock.Free? && t in s.calls && s.calls[t].Rotating? && s.calls[t].k == k
    requires RevokeThreat(AnyEntry, s.recs, s.calls[t].rid)
    ensures Reaches(from, s', k) && OnDisk(AnyEntry, s', k)
  {
    var c := s.calls[t];
    assert CallOK(s.recs, c);
    var keys := set r | r in s.recs.Values :: r.key;
    var fresh' := SomethingLonger(keys);
    var rid := SomethingGreater(s.recs.Keys);
    forall r | r in s.recs ensures s.recs[r].key != fresh' {
      assert s.recs[r] in s.recs.Values;
      assert s.recs[r].key in keys;
    }
    var l := RotateVend(t, fresh', rid, 1);
    ReachesNext(s, l, k);
    var m := Next(s, l);
    ReachesOn(from, s, m, k);
    m := CallWrites(AnyEntry, from, m, t, k);
    s' := PendingWrites(from, m, t, k);
  }

  /** A threatening call that does not hold writeMu, with writeMu free, can be run until it writes. */
  lemma CallThreatComesTrue(w: Concern, from: State, s: State, t: Tid, k: Key) returns (s': State)
    requires Inv(s) && Reaches(from, s, k) && s.lock.Free? && t in s.calls && CallThreat(w, s.recs, s.calls[t], k)
    ensures Reaches(from, s', k) && OnDisk(w, s', k)
  {
    var c := s.calls[t];
    assert CallOK(s.recs, c) && !Holds(c);
    match c
    case Looked(_, rid, op) =>
      if op.RevokeAt? {
        s' := RevokeWrites(from, s, t, k);
      } else {
        var m := ThenAdvance(from, s, t, k);
        s' := CallWrites(w, from, m, t, k);
      }
    case Rotating(_, _, _) =>
      s' := RotateWrites(from, s, t, k);
    case Applied(_, rid, after) =>
      s' := CallWrites(w, from, s, t, k);
      if PendingThreat(w, s.recs, after, k) { s' := PendingWrites(from, s', t, k); }
    case Snapped(_, snap, after) =>
      s' := CallWrites(w, from, s, t, k);
      if PendingThreat(w, s.recs, after, k) { s' := PendingWrites(from, s', t, k); }
  }

  lemma HolderComesTrue(w: Concern, s: State, t: Tid, k: Key) returns (s': State)
    requires Inv(s) && t in s.calls && Holds(s.calls[t]) && CallThreat(w, s.recs, s.calls[t], k)
    ensures Reaches(s, s', k) && OnDisk(w, s', k)
  {
    var c := s.calls[t];
    assert CallOK(s.recs, c);
    ReachesSelf(s, k);
    s' := s;
    if c.Locked? { s' := ThenAdvance(s, s, t, k); }
    if PendingThreat(w, s.recs, c.after, k) { s' := PendingWrites(s, s', t, k); }
  }

  lemma ExposureComesTrue(w: Concern, s: State, k: Key) returns (s': State)
    requires Inv(s) && Exposed(w, s, k)
    ensures Reaches(s, s', k) && OnDisk(w, s', k)
  {
    ReachesSelf(s, k);
    if OnDisk(w, s, k) {
      s' := s;
    } else if FlushThreat(w, s, k) {
      s' := FinishListed(w, s, s, k);
    } else if t :| t in s.calls && CallThreat(w, s.recs, s.calls[t], k) {
      if s.lock == HeldBy(t) {
        s' := HolderComesTrue(w, s, t, k);
      } else {
        var m := FreeLock(s, t, k);
        s' := CallThreatComesTrue(w, s, m, t, k);
      }
    } else {
      var t := if s.lock.HeldBy? then s.lock.t + 1 else 0;
      var m := FreeLock(s, t, k);
      s' := FlushWrites(w, s, m, k);
    }
  }

  /**
   The exact condition: until k is provisioned again, its disk entry stays absent (or revoked)
   in every future exactly when nothing in memory, on disk, in the flush or in a call in
   flight can still write a bad one.
   */
  lemma SafeExactlyWhenUnexposed(w: Concern, s: State, k: Key)
    requires Inv(s)
    ensures !Exposed(w, s, k) <==> forall s' :: Reaches(s, s', k) ==> !OnDisk(w, s', k)
  {
    if Exposed(w, s, k) {
      var s' := ExposureComesTrue(w, s, k);
    } else {
      forall s' | Reaches(s, s', k) ensures !OnDisk(w, s', k) {
        var ls :| Runs(s, ls, s') && NeverCreates(ls, k);
        SafeRun(w, s, ls, s', k);
      }
    }
  }
}
