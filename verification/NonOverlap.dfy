/**
 The guarantee callers of internal/appkey get: when lifecycle calls on the same key do not
 overlap (the flush may interleave freely), a key whose Delete has returned never returns
 to disk, and one whose Revoke has returned is never again unrevoked on disk.
 */
module NonOverlap {
  import opened Common
  import opened AppKey
  import opened Persistence
  import opened Durability

  // ----- Calls that do not overlap on a key -----

  function KeysOf(c: Call): set<Key> {
    {c.k} + if (c.Applied? || c.Snapped? || c.Locked? || c.Written?) && c.after.Revoking? then {c.after.k} else {}
  }

  ghost predicate Busy(s: State, k: Key) {
    exists t :: t in s.calls && k in KeysOf(s.calls[t])
  }

  /** A step is taken, and a call or provisioning on k starts only when no call on k is in flight. */
  ghost predicate Guarded(s: State, l: Step) {
    && Enabled(s, l)
    && (l.Begin? || l.BeginRotate? || l.BeginDelete? || l.Provision? || l.Vend? || l.RotateVend? ==> !Busy(s, l.k))
  }

  // ----- What such runs keep -----

  ghost predicate Exclusive(s: State) {
    forall t, u :: t in s.calls && u in s.calls && t != u ==> KeysOf(s.calls[t]) !! KeysOf(s.calls[u])
  }

  ghost predicate Revoked(s: State, k: Key) {
    k in s.mem && s.mem[k] in s.recs && s.recs[s.mem[k]].revokedAt != 0
  }

  /** An unrevoked entry of k is on disk or on its way there with the flush. */
  ghost predicate Stale(s: State, k: Key) {
    OnDisk(UnrevokedEntry, s, k) || FlushThreat(UnrevokedEntry, s, k)
  }

  /** The call has changed k in memory and has yet to write it. */
  predicate Unsettling(c: Call, k: Key) {
    (c.Applied? || c.Snapped? || c.Locked?) && c.k == k
  }

  ghost predicate Unsettled(s: State, k: Key) {
    exists t :: t in s.calls && Unsettling(s.calls[t], k)
  }

  ghost predicate Settled(s: State) {
    forall k :: Revoked(s, k) && !Unsettled(s, k) ==> !Stale(s, k)
  }

  ghost predicate Maps(s: State, k: Key, rid: Rid) {
    k in s.mem && s.mem[k] == rid
  }

  ghost predicate PendingAttached(s: State, after: Pending) {
    after.Revoking? ==> Maps(s, after.k, after.rid)
  }

  /** The call's record is the one in the map, and its snapshot is no less revoked than it. */
  ghost predicate Attached(s: State, c: Call) {
    match c
    case Looked(k, rid, _) => Maps(s, k, rid)
    case Rotating(k, rid, _) => Maps(s, k, rid)
    case Applied(k, rid, after) => Maps(s, k, rid) && PendingAttached(s, after)
    case Snapped(k, snap, after) => k in s.mem && (Revoked(s, k) ==> snap.revokedAt.Some?) && PendingAttached(s, after)
    case Locked(k, snap, after) => k in s.mem && (Revoked(s, k) ==> snap.revokedAt.Some?) && PendingAttached(s, after)
    case Written(k, after) => k in s.mem && PendingAttached(s, after)
    case Removed(k) => k !in s.mem
    case Erasing(k) => k !in s.mem
    case Erased(k) => k !in s.mem && k !in s.disk
  }

  ghost predicate AllAttached(s: State) {
    forall t :: t in s.calls ==> Attached(s, s.calls[t])
  }

  ghost predicate Leaving(s: State, k: Key) {
    exists t :: t in s.calls && (s.calls[t] == Removed(k) || s.calls[t] == Erasing(k))
  }

  /** What is on disk or with the flush is in the map, or its Delete is in flight. */
  ghost predicate Contained(s: State) {
    forall k :: k in s.disk || FlushThreat(AnyEntry, s, k) ==> k in s.mem || Leaving(s, k)
  }

  ghost predicate Orderly(s: State) {
    Exclusive(s) && AllAttached(s) && Settled(s) && Contained(s)
  }

  // ----- Moves -----

  predicate IsLeaving(c: Call) {
    c.Removed? || c.Erasing?
  }

  /** A call starts or moves on, keeping any unwritten change and any removal in progress. */
  lemma OrderlyCall(s: State, t: Tid, c: Call)
    requires Orderly(s) && Attached(s, c)
    requires forall u :: u in s.calls && u != t ==> KeysOf(c) !! KeysOf(s.calls[u])
    requires t in s.calls ==> forall k :: Unsettling(s.calls[t], k) ==> Unsettling(c, k)
    requires t in s.calls && IsLeaving(s.calls[t]) ==> IsLeaving(c) && c.k == s.calls[t].k
    ensures Orderly(WithCall(s, t, c))
  {
    var s' := WithCall(s, t, c);
    ExclusiveCall(s, t, c);
    AttachedSame(s, s', t);
    SettledSame(s, s');
    ContainedSame(s, s');
  }

  lemma ExclusiveCall(s: State, t: Tid, c: Call)
    requires Exclusive(s) && forall u :: u in s.calls && u != t ==> KeysOf(c) !! KeysOf(s.calls[u])
    ensures Exclusive(WithCall(s, t, c))
  {
  }

  lemma AttachedFrame(s: State, s': State, c: Call)
    requires Attached(s, c) && s'.mem == s.mem && s'.recs == s.recs && s'.disk == s.disk
    ensures Attached(s', c)
  {
  }

  lemma AttachedSame(s: State, s': State, t: Tid)
    requires AllAttached(s) && s' == s.(calls := s'.calls, lock := s'.lock)
    requires forall u :: u in s'.calls && u != t ==> u in s.calls && s'.calls[u] == s.calls[u]
    requires t in s'.calls ==> Attached(s, s'.calls[t])
    ensures AllAttached(s')
  {
    forall u | u in s'.calls ensures Attached(s', s'.calls[u]) {
      AttachedFrame(s, s', s'.calls[u]);
    }
  }

  /** Only the calls differ, and no unwritten change is forgotten. */
  lemma SettledSame(s: State, s': State)
    requires Settled(s) && s' == s.(calls := s'.calls, lock := s'.lock)
    requires forall t, k :: t in s.calls && Unsettling(s.calls[t], k) ==> t in s'.calls && Unsettling(s'.calls[t], k)
    ensures Settled(s')
  {
    forall k | Revoked(s', k) && !Unsettled(s', k) ensures !Stale(s', k) {
      assert Revoked(s, k) && !Unsettled(s, k);
      assert !Stale(s, k);
    }
  }

  lemma ContainedSame(s: State, s': State)
    requires Contained(s) && s' == s.(calls := s'.calls, lock := s'.lock)
    requires forall t :: t in s.calls && IsLeaving(s.calls[t]) ==>
      t in s'.calls && IsLeaving(s'.calls[t]) && s'.calls[t].k == s.calls[t].k
    ensures Contained(s')
  {
    forall k | k in s'.disk || FlushThreat(AnyEntry, s', k) ensures k in s'.mem || Leaving(s', k) {
      assert k in s.disk || FlushThreat(AnyEntry, s, k);
      if k !in s.mem {
        var t :| t in s.calls && (s.calls[t] == Removed(k) || s.calls[t] == Erasing(k));
        assert s'.calls[t] == Removed(k) || s'.calls[t] == Erasing(k);
      }
    }
  }

  lemma OrderlyDrop(s: State, t: Tid)
    requires Orderly(s) && t in s.calls && !IsLeaving(s.calls[t]) && forall k :: !Unsettling(s.calls[t], k)
    ensures Orderly(WithoutCall(s, t))
  {
    var s' := WithoutCall(s, t);
    assert Exclusive(s');
    AttachedSame(s, s', t);
    SettledSame(s, s');
    ContainedSame(s, s');
  }

  lemma OrderlyLock(s: State, o: Owner)
    requires Orderly(s)
    ensures Orderly(s.(lock := o))
  {
    var s' := s.(lock := o);
    assert Exclusive(s');
    forall u | u in s'.calls ensures Attached(s', s'.calls[u]) {
      AttachedFrame(s, s', s'.calls[u]);
    }
    SettledSame(s, s');
    ContainedSame(s, s');
  }

  /** A record changes; a revocation appears only under a call that still has to write it. */
  lemma OrderlyRecord(s: State, rid: Rid, r: Record)
    requires Inv(s) && Orderly(s) && Grows(s.recs, s.recs[rid := r])
    requires rid in s.recs && r.revokedAt != 0 && s.recs[rid].revokedAt == 0 ==>
               exists t :: t in s.calls && s.calls[t].Applied? && s.calls[t].k == r.key
    ensures Orderly(WithRecord(s, rid, r))
  {
    var s' := WithRecord(s, rid, r);
    assert Exclusive(s');
    forall t | t in s'.calls ensures Attached(s', s'.calls[t]) {
      AttachedRecord(s, rid, r, t);
    }
    forall k | Revoked(s', k) && !Unsettled(s', k) ensures !Stale(s', k) {
      RevokedBefore(s, rid, r, k);
      assert !Unsettled(s, k);
      assert !Stale(s, k);
      StaleShrinks(s, rid, r, k);
    }
    assert Contained(s') by {
      forall k | k in s'.disk || FlushThreat(AnyEntry, s', k) ensures k in s'.mem || Leaving(s', k) {
        assert k in s.disk || FlushThreat(AnyEntry, s, k);
      }
    }
  }

  lemma StaleShrinks(s: State, rid: Rid, r: Record, k: Key)
    requires Inv(s) && Grows(s.recs, s.recs[rid := r])
    ensures Stale(WithRecord(s, rid, r), k) ==> Stale(s, k)
  {
  }

  /** Only the record's own key can become revoked, and then a call has yet to write it. */
  lemma RevokedBefore(s: State, rid: Rid, r: Record, k: Key)
    requires Inv(s) && Grows(s.recs, s.recs[rid := r]) && Revoked(WithRecord(s, rid, r), k)
    requires rid in s.recs && r.revokedAt != 0 && s.recs[rid].revokedAt == 0 ==>
               exists t :: t in s.calls && s.calls[t].Applied? && s.calls[t].k == r.key
    ensures Revoked(s, k) || exists t :: t in s.calls && s.calls[t].Applied? && s.calls[t].k == k
  {
    assert RidOf(s.recs, s.mem[k], k);
  }

  lemma AttachedRecord(s: State, rid: Rid, r: Record, t: Tid)
    requires Inv(s) && Orderly(s) && Grows(s.recs, s.recs[rid := r]) && t in s.calls
    requires rid in s.recs && r.revokedAt != 0 && s.recs[rid].revokedAt == 0 ==>
               exists u :: u in s.calls && s.calls[u].Applied? && s.calls[u].k == r.key
    ensures Attached(WithRecord(s, rid, r), s.calls[t])
  {
    var c := s.calls[t];
    assert Attached(s, c);
    if c.Snapped? || c.Locked? {
      if Revoked(WithRecord(s, rid, r), c.k) {
        RevokedBefore(s, rid, r, c.k);
      }
    }
  }

  /** A key comes into the map with an unrevoked record while nobody is busy with it. */
  lemma OrderlyPut(s: State, k: Key, rid: Rid)
    requires Orderly(s) && !Busy(s, k) && k !in s.mem && rid in s.recs && s.recs[rid].revokedAt == 0
    ensures Orderly(s.(mem := s.mem[k := rid]))
  {
    var s' := s.(mem := s.mem[k := rid]);
    assert Exclusive(s');
    forall t | t in s'.calls ensures Attached(s', s'.calls[t]) {
      AttachedElsewhere(s, s', s.calls[t], k);
    }
    forall j | Revoked(s', j) && !Unsettled(s', j) ensures !Stale(s', j) {
      assert Revoked(s, j) && !Unsettled(s, j);
      assert !Stale(s, j);
    }
    forall j | j in s'.disk || FlushThreat(AnyEntry, s', j) ensures j in s'.mem || Leaving(s', j) {
      assert j in s.disk || FlushThreat(AnyEntry, s, j);
      if j !in s.mem { LeavingSame(s, s', j); }
    }
  }

  lemma LeavingSame(s: State, s': State, k: Key)
    requires Leaving(s, k)
    requires forall t :: t in s.calls && IsLeaving(s.calls[t]) ==> t in s'.calls && s'.calls[t] == s.calls[t]
    ensures Leaving(s', k)
  {
    var t :| t in s.calls && (s.calls[t] == Removed(k) || s.calls[t] == Erasing(k));
    assert t in s'.calls && s'.calls[t] == s.calls[t];
  }

  /** A call not concerned with k does not notice the map changing at k. */
  lemma AttachedElsewhere(s: State, s': State, c: Call, k: Key)
    requires Attached(s, c) && k !in KeysOf(c) && s'.recs == s.recs && s'.disk == s.disk
    requires forall j :: j != k ==> (j in s'.mem <==> j in s.mem) && (j in s.mem ==> s'.mem[j] == s.mem[j])
    ensures Attached(s', c)
  {
  }

  lemma OrderlyDelete(s: State, t: Tid, k: Key)
    requires Orderly(s) && t !in s.calls && !Busy(s, k)
    ensures Orderly(s.(mem := s.mem - {k}, calls := s.calls[t := Removed(k)]))
  {
    var s' := s.(mem := s.mem - {k}, calls := s.calls[t := Removed(k)]);
    assert KeysOf(Removed(k)) == {k};
    assert Exclusive(s');
    forall u | u in s'.calls ensures Attached(s', s'.calls[u]) {
      if u != t { AttachedElsewhere(s, s', s.calls[u], k); }
    }
    forall j | Revoked(s', j) && !Unsettled(s', j) ensures !Stale(s', j) {
      assert Revoked(s, j);
      assert !Unsettled(s, j) by {
        forall u | u in s.calls ensures !Unsettling(s.calls[u], j) { assert s'.calls[u] == s.calls[u]; }
      }
      assert !Stale(s, j);
    }
    forall j | j in s'.disk || FlushThreat(AnyEntry, s', j) ensures j in s'.mem || Leaving(s', j) {
      assert j in s.disk || FlushThreat(AnyEntry, s, j);
      if j == k {
        assert s'.calls[t] == Removed(k);
      } else if j !in s.mem {
        LeavingSame(s, s', j);
      }
    }
  }

  lemma AttachedWithDisk(s: State, s': State, c: Call)
    requires Attached(s, c) && s'.mem == s.mem && s'.recs == s.recs && (c.Erased? ==> c.k !in s'.disk)
    ensures Attached(s', c)
  {
  }

  /** PersistKey commits: the flush is not in its way, so the entry of k is as revoked as its record. */
  lemma OrderlyWritten(s: State, t: Tid)
    requires Inv(s) && Orderly(s) && t in s.calls && s.calls[t].Locked?
    ensures Orderly(Advanced(s, t, 1))
  {
    var c, s' := s.calls[t], Advanced(s, t, 1);
    var k := c.k;
    assert CallOK(s.recs, c) && Attached(s, c) && s.flush.Resting?;
    ExclusiveCall(s, t, s'.calls[t]);
    forall u | u in s'.calls ensures Attached(s', s'.calls[u]) {
      if u != t { assert k !in KeysOf(s.calls[u]); AttachedWithDisk(s, s', s.calls[u]); }
    }
    WrittenSettled(s, t);
    forall j | j in s'.disk || FlushThreat(AnyEntry, s', j) ensures j in s'.mem || Leaving(s', j) {
      if j != k && j !in s.mem { assert j in s.disk; LeavingSame(s, s', j); }
    }
  }

  lemma WrittenSettled(s: State, t: Tid)
    requires Inv(s) && Orderly(s) && t in s.calls && s.calls[t].Locked?
    ensures Settled(Advanced(s, t, 1))
  {
    var c, s' := s.calls[t], Advanced(s, t, 1);
    assert CallOK(s.recs, c) && Attached(s, c) && s.flush.Resting?;
    forall j | Revoked(s', j) && !Unsettled(s', j) ensures !Stale(s', j) {
      if j != c.k {
        assert Revoked(s, j) && !Unsettled(s, j) by { StillUnsettled(s, s', t, j); }
        assert !Stale(s, j);
      }
    }
  }

  lemma StillUnsettled(s: State, s': State, t: Tid, j: Key)
    requires t in s.calls && t in s'.calls && s'.calls == s.calls[t := s'.calls[t]] && !Unsettling(s.calls[t], j)
    ensures Unsettled(s, j) ==> Unsettled(s', j)
  {
    if Unsettled(s, j) {
      var u :| u in s.calls && Unsettling(s.calls[u], j);
      assert u in s'.calls && s'.calls[u] == s.calls[u];
    }
  }

  lemma OrderlyErased(s: State, t: Tid)
    requires Inv(s) && Orderly(s) && t in s.calls && s.calls[t].Erasing?
    ensures Orderly(Advanced(s, t, 1))
  {
    var c, s' := s.calls[t], Advanced(s, t, 1);
    assert Attached(s, c);
    ExclusiveCall(s, t, s'.calls[t]);
    forall u | u in s'.calls ensures Attached(s', s'.calls[u]) {
      if u != t { AttachedWithDisk(s, s', s.calls[u]); }
    }
    ErasedSettled(s, t);
    ErasedContained(s, t);
  }

  lemma ErasedContained(s: State, t: Tid)
    requires Inv(s) && Orderly(s) && t in s.calls && s.calls[t].Erasing?
    ensures Contained(Advanced(s, t, 1))
  {
    var k, s' := s.calls[t].k, Advanced(s, t, 1);
    assert s.flush.Resting?;
    forall j | j in s'.disk || FlushThreat(AnyEntry, s', j) ensures j in s'.mem || Leaving(s', j) {
      assert j in s.disk && j != k;
      if j !in s.mem {
        var u :| u in s.calls && (s.calls[u] == Removed(j) || s.calls[u] == Erasing(j));
        assert s'.calls[u] == s.calls[u];
      }
    }
  }

  lemma ErasedSettled(s: State, t: Tid)
    requires Inv(s) && Orderly(s) && t in s.calls && s.calls[t].Erasing?
    ensures Settled(Advanced(s, t, 1))
  {
    var s' := Advanced(s, t, 1);
    forall j | Revoked(s', j) && !Unsettled(s', j) ensures !Stale(s', j) {
      assert Revoked(s, j) && !Unsettled(s, j) by { StillUnsettled(s, s', t, j); }
      assert !Stale(s, j);
    }
  }

  /** The change is made in memory, unless a compare-and-swap fails. */
  lemma OrderlyLooked(s: State, t: Tid)
    requires Inv(s) && Orderly(s) && t in s.calls && s.calls[t].Looked? && CanAdvance(s, s.calls[t], 1)
    ensures Orderly(Advanced(s, t, 1))
  {
    var c := s.calls[t];
    assert CallOK(s.recs, c) && Attached(s, c);
    if SwapFails(s.recs[c.rid], c.op) {
      OrderlyDrop(s, t);
    } else {
      var c' := Applied(c.k, c.rid, Nothing);
      OrderlyCall(s, t, c');
      InvWithCall(s, t, c');
      assert WithCall(s, t, c').calls[t] == c';
      OrderlyRecord(WithCall(s, t, c'), c.rid, ApplyOp(s.recs[c.rid], c.op));
    }
  }

  /** The lock is released; a Rotate goes on to revoke the old key. */
  lemma OrderlyReleased(s: State, t: Tid, now: int)
    requires Inv(s) && Orderly(s) && t in s.calls && s.calls[t].Written? && CanAdvance(s, s.calls[t], now)
    ensures Orderly(Advanced(s, t, now))
  {
    var c := s.calls[t];
    assert CallOK(s.recs, c) && Attached(s, c);
    if c.after.Nothing? {
      OrderlyDrop(s, t);
      OrderlyLock(WithoutCall(s, t), Free);
    } else {
      var c' := Looked(c.after.k, c.after.rid, RevokeAt(now));
      OrderlyCall(s, t, c');
      OrderlyLock(WithCall(s, t, c'), Free);
    }
  }

  /** A call takes or hands on the lock, or takes its snapshot. */
  lemma OrderlyMoved(s: State, t: Tid, now: int)
    requires Inv(s) && Orderly(s) && t in s.calls && CanAdvance(s, s.calls[t], now)
    requires var c := s.calls[t]; c.Applied? || c.Snapped? || c.Removed? || c.Erased?
    ensures Orderly(Advanced(s, t, now))
  {
    var c := s.calls[t];
    assert CallOK(s.recs, c) && Attached(s, c);
    match c
    case Applied(k, rid, after) =>
      OrderlyCall(s, t, Snapped(k, TakeSnapshot(s.recs[rid]), after));
    case Snapped(k, snap, after) =>
      OrderlyCall(s, t, Locked(k, snap, after));
      OrderlyLock(WithCall(s, t, Locked(k, snap, after)), HeldBy(t));
    case Removed(k) =>
      OrderlyCall(s, t, Erasing(k));
      OrderlyLock(WithCall(s, t, Erasing(k)), HeldBy(t));
    case Erased(_) =>
      OrderlyDrop(s, t);
      OrderlyLock(WithoutCall(s, t), Free);
  }

  lemma OrderlyAdvance(s: State, t: Tid, now: int)
    requires Inv(s) && Orderly(s) && t in s.calls && CanAdvance(s, s.calls[t], now)
    ensures Orderly(Advanced(s, t, now))
  {
    match s.calls[t]
    case Looked(_, _, _) => OrderlyLooked(s, t);
    case Locked(_, _, _) => OrderlyWritten(s, t);
    case Written(_, _) => OrderlyReleased(s, t, now);
    case Erasing(_) => OrderlyErased(s, t);
    case _ => OrderlyMoved(s, t, now);
  }

  /** A flush step shifts entries from the map to the flush to the disk and makes none stale. */
  lemma OrderlyFlush(s: State, j: Key)
    requires Inv(s) && Orderly(s) && (s.flush.Resting? ==> s.lock.Free?)
    ensures Orderly(Flushed(s, j))
  {
    var s' := Flushed(s, j);
    FlushFrame(s, j);
    assert Exclusive(s');
    forall t | t in s'.calls ensures Attached(s', s'.calls[t]) {
      assert Attached(s, s.calls[t]);
      assert Holds(s.calls[t]) ==> s.lock == HeldBy(t);
      AttachedWithDisk(s, s', s.calls[t]);
    }
    forall k | Revoked(s', k) && !Unsettled(s', k) ensures !Stale(s', k) {
      assert Revoked(s, k) && !Unsettled(s, k);
      assert !Stale(s, k);
      FlushMakesNoneStale(s, j, k);
    }
    forall k | k in s'.disk || FlushThreat(AnyEntry, s', k) ensures k in s'.mem || Leaving(s', k) {
      FlushBringsNothing(s, j, k);
      if k !in s.mem { LeavingSame(s, s', k); }
    }
  }

  lemma FlushFrame(s: State, j: Key)
    ensures var s' := Flushed(s, j); s'.mem == s.mem && s'.recs == s.recs && s'.calls == s.calls
  {
  }

  lemma FlushBringsNothing(s: State, j: Key, k: Key)
    requires k in Flushed(s, j).disk || FlushThreat(AnyEntry, Flushed(s, j), k)
    ensures k in s.mem || k in s.disk || FlushThreat(AnyEntry, s, k)
  {
  }

  lemma FlushMakesNoneStale(s: State, j: Key, k: Key)
    requires Inv(s) && Revoked(s, k) && !Stale(s, k)
    ensures !Stale(Flushed(s, j), k)
  {
  }

  /** The record of a new key is stored and mapped. */
  lemma OrderlyStored(s: State, rid: Rid, r: Record)
    requires Inv(s) && Orderly(s) && rid !in s.recs && FreshKey(s.recs, r.key) && r.revokedAt == 0 && !Busy(s, r.key)
    ensures Orderly(s.(mem := s.mem[r.key := rid], recs := s.recs[rid := r]))
  {
    OrderlyRecord(s, rid, r);
    assert forall k :: k in s.mem ==> RidOf(s.recs, s.mem[k], k);
    OrderlyPut(WithRecord(s, rid, r), r.key, rid);
  }

  /** Nothing in flight touches the keys of the call that created it. */
  lemma CreatedApart(s: State, t: Tid, rid: Rid, r: Record, after: Pending)
    requires Exclusive(s) && !Busy(s, r.key)
    requires if t !in s.calls then after.Nothing?
      else s.calls[t].Rotating? && after == Revoking(s.calls[t].k, s.calls[t].rid)
    ensures forall u :: u in s.calls && u != t ==> KeysOf(Applied(r.key, rid, after)) !! KeysOf(s.calls[u])
  {
    forall u | u in s.calls && u != t ensures KeysOf(Applied(r.key, rid, after)) !! KeysOf(s.calls[u]) {
      assert r.key !in KeysOf(s.calls[u]);
      if t in s.calls { assert KeysOf(s.calls[t]) !! KeysOf(s.calls[u]) && s.calls[t].k in KeysOf(s.calls[t]); }
    }
  }

  lemma OrderlyCreated(s: State, t: Tid, rid: Rid, r: Record, after: Pending)
    requires Inv(s) && Orderly(s) && rid !in s.recs && FreshKey(s.recs, r.key) && r.revokedAt == 0 && !Busy(s, r.key)
    requires if t !in s.calls then after.Nothing?
      else s.calls[t].Rotating? && after == Revoking(s.calls[t].k, s.calls[t].rid)
    ensures Orderly(Created(s, t, rid, r, after))
  {
    OrderlyStored(s, rid, r);
    CreatedApart(s, t, rid, r, after);
    var s2 := s.(mem := s.mem[r.key := rid], recs := s.recs[rid := r]);
    if t in s.calls { assert Attached(s2, s2.calls[t]) && s2.calls[t] == s.calls[t]; }
    OrderlyCall(s2, t, Applied(r.key, rid, after));
  }

  lemma OrderlyStep(s: State, l: Step)
    requires Inv(s) && Orderly(s) && Guarded(s, l)
    ensures Inv(Next(s, l)) && Orderly(Next(s, l))
  {
    InvStep(s, l);
    match l
    case Begin(t, k, op) => OrderlyStart(s, t, Looked(k, s.mem[k], op));
    case BeginRotate(t, k, tag) => OrderlyStart(s, t, Rotating(k, s.mem[k], tag));
    case BeginDelete(t, k) => OrderlyDelete(s, t, k);
    case Vend(t, k, rid, tag, now, ttl, scopes) => OrderlyCreated(s, t, rid, Vended(k, tag, now, ttl, scopes), Nothing);
    case RotateVend(t, k, rid, now) =>
      var c := s.calls[t];
      OrderlyCreated(s, t, rid, Replacement(s.recs[c.rid], k, c.tag, now), Revoking(c.k, c.rid));
    case Provision(k, rid, tag, now) =>
      OrderlyRecord(s, rid, Provisioned(k, tag, now));
      OrderlyPut(WithRecord(s, rid, Provisioned(k, tag, now)), k, rid);
    case Advance(t, now) => OrderlyAdvance(s, t, now);
    case FlushStep(k) => OrderlyFlush(s, k);
    case Touch(rid, usage) => OrderlyRecord(s, rid, s.recs[rid].(usage := usage));
  }

  lemma OrderlyStart(s: State, t: Tid, c: Call)
    requires Orderly(s) && t !in s.calls && (c.Looked? || c.Rotating?) && !Busy(s, c.k) && Maps(s, c.k, c.rid)
    ensures Orderly(WithCall(s, t, c))
  {
    forall u | u in s.calls && u != t ensures KeysOf(c) !! KeysOf(s.calls[u]) {
      assert KeysOf(c) == {c.k} && c.k !in KeysOf(s.calls[u]);
    }
    OrderlyCall(s, t, c);
  }

  // ----- Runs from startup -----

  /** The record a key starts with: provisioned from config, merged with what is on disk. */
  ghost predicate StartsAs(r: Record, k: Key, disk: map<Key, Snapshot>) {
    && r.key == k
    && (k in disk ==> r.revokedAt == OrKeep(disk[k].revokedAt, 0))
    && (k !in disk ==> r.revokedAt == 0)
  }

  /** Startup: config keys provisioned, the bucket loaded, nothing in flight. */
  ghost predicate Startup(s: State) {
    && s.calls == map[] && s.flush.Resting? && s.lock.Free?
    && (forall k :: k in s.disk ==> k in s.mem && s.disk[k].revokedAt != Some(0))
    && (forall k :: k in s.mem ==> s.mem[k] in s.recs && StartsAs(s.recs[s.mem[k]], k, s.disk))
  }

  lemma StartupOrderly(s: State)
    requires Startup(s)
    ensures Inv(s) && Orderly(s)
  {
  }

  /** A run of steps none of which overlaps calls on one key. */
  ghost predicate GuardedRun(s: State, ls: seq<Step>, s': State)
    decreases |ls|
  {
    if ls == [] then s == s' else Guarded(s, ls[0]) && GuardedRun(Next(s, ls[0]), ls[1..], s')
  }

  lemma {:induction false} OrderlyRun(s: State, ls: seq<Step>, s': State)
    requires Inv(s) && Orderly(s) && GuardedRun(s, ls, s')
    ensures Inv(s') && Orderly(s')
    decreases |ls|
  {
    if ls != [] {
      OrderlyStep(s, ls[0]);
      OrderlyRun(Next(s, ls[0]), ls[1..], s');
    }
  }

  // ----- The two guarantees -----

  lemma OnlyOwnCallThreatens(w: Concern, s: State, t: Tid, k: Key)
    requires Exclusive(s) && t in s.calls && k in KeysOf(s.calls[t]) && !CallThreat(w, s.recs, s.calls[t], k)
    ensures forall u :: u in s.calls ==> !CallThreat(w, s.recs, s.calls[u], k)
  {
    forall u | u in s.calls ensures !CallThreat(w, s.recs, s.calls[u], k) {
      if u != t { assert k !in KeysOf(s.calls[u]); }
    }
  }

  /**
   After any run whose calls do not overlap on a key, when Delete(k) is about to return, k is
   not on disk, and it never is again in any continuation, overlapping or not, that does not
   provision it again.
   */
  lemma DeleteIsDurable(s: State, ls: seq<Step>, m: State, t: Tid, k: Key, rest: seq<Step>, s': State)
    requires Startup(s) && GuardedRun(s, ls, m) && t in m.calls && m.calls[t] == Erased(k)
    requires Runs(m, rest, s') && NeverCreates(rest, k)
    ensures k !in s'.disk
  {
    StartupOrderly(s);
    OrderlyRun(s, ls, m);
    assert Attached(m, m.calls[t]) && m.lock == HeldBy(t);
    OnlyOwnCallThreatens(AnyEntry, m, t, k);
    assert !Exposed(AnyEntry, m, k);
    SafeRun(AnyEntry, m, rest, s', k);
  }

  /** Revoke(k) is about to return: its entry is committed, or its compare-and-swap failed. */
  ghost predicate RevokeReturns(s: State, t: Tid, k: Key) {
    && t in s.calls && s.calls[t].k == k && Revoked(s, k)
    && (s.calls[t].Written? || (s.calls[t].Looked? && s.calls[t].op.RevokeAt?))
  }

  /** Likewise for Revoke: from its return on, every entry of k on disk is a revoked one. */
  lemma RevokeIsDurable(s: State, ls: seq<Step>, m: State, t: Tid, k: Key, rest: seq<Step>, s': State)
    requires Startup(s) && GuardedRun(s, ls, m) && RevokeReturns(m, t, k)
    requires Runs(m, rest, s') && NeverCreates(rest, k)
    ensures k in s'.disk ==> s'.disk[k].revokedAt.Some?
  {
    StartupOrderly(s);
    OrderlyRun(s, ls, m);
    assert !Unsettled(m, k) by {
      forall u | u in m.calls ensures !Unsettling(m.calls[u], k) {
        if u != t { assert k in KeysOf(m.calls[t]) && k !in KeysOf(m.calls[u]); }
      }
    }
    assert !Stale(m, k);
    OnlyOwnCallThreatens(UnrevokedEntry, m, t, k);
    assert !Exposed(UnrevokedEntry, m, k);
    SafeRun(UnrevokedEntry, m, rest, s', k);
  }

  /**
   Without that condition Delete is not durable: a SetExpiry that took its snapshot before
   the Delete and writes it after the Delete returned puts the key back.
   */
  lemma OverlapUndoesDelete(k: Key) returns (s: State, m: State, s': State, t: Tid)
    ensures Startup(s) && Reaches(s, m, k) && t in m.calls && m.calls[t] == Erased(k)
    ensures Reaches(m, s', k) && k in s'.disk
  {
    s := State(map[k := 0], map[0 := Provisioned(k, "", 1)], map[], Free, map[], Resting);
    m := ExpirySnapped(s, k);
    m := DeleteAfter(s, m, k);
    t := 1;
    assert CallThreat(AnyEntry, m.recs, m.calls[0], k);
    s' := ExposureComesTrue(AnyEntry, m, k);
  }

  lemma ExpirySnapped(s: State, k: Key) returns (m: State)
    requires s == State(map[k := 0], map[0 := Provisioned(k, "", 1)], map[], Free, map[], Resting)
    ensures Inv(m) && Reaches(s, m, k) && m.mem == s.mem && m.lock.Free?
    ensures m.calls.Keys == {0} && m.calls[0].Snapped? && m.calls[0].k == k
  {
    StartupOrderly(s);
    ReachesSelf(s, k);
    m := ThenStep(s, s, Begin(0, k, ExpireAt(5)), k);
    m := ThenAdvance(s, m, 0, k);
    m := ThenAdvance(s, m, 0, k);
  }

  lemma DeleteAfter(s: State, from: State, k: Key) returns (m: State)
    requires Inv(from) && Reaches(s, from, k) && k in from.mem && from.lock.Free?
    requires from.calls.Keys == {0} && from.calls[0].Snapped? && from.calls[0].k == k
    ensures Inv(m) && Reaches(s, m, k)
    ensures m.calls.Keys == {0, 1} && m.calls[0] == from.calls[0] && m.calls[1] == Erased(k)
  {
    m := ThenStep(s, from, BeginDelete(1, k), k);
    m := ThenAdvance(s, m, 1, k);
    m := ThenAdvance(s, m, 1, k);
  }

  lemma ThenStep(from: State, s: State, l: Step, k: Key) returns (s': State)
    requires Inv(s) && Reaches(from, s, k) && Enabled(s, l) && !Creates(l, k)
    ensures s' == Next(s, l) && Inv(s') && Reaches(from, s', k)
  {
    s' := Next(s, l);
    ReachesNext(s, l, k);
    ReachesOn(from, s, s', k);
  }
}
