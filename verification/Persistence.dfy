/**
 internal/appkey/persist.go with the lifecycle calls of store.go, as a step machine: any
 number of lifecycle calls in flight, each at its own program point, one flusher, and
 writeMu ordering the disk writes. Steps interleave freely; a record outlives its removal
 from the map as long as a call still holds it.
 */
module Persistence {
  import opened Common
  import opened AppKey

  type Rid = nat
  type Tid = nat

  datatype Op = RevokeAt(now: int) | ExpireAt(at: int) | ScopeTo(scopes: Option<Scopes>)

  /** The key a Rotate still has to revoke once its replacement is written. */
  datatype Pending = Nothing | Revoking(k: Key, rid: Rid)

  /** Where a lifecycle call stands. */
  datatype Call =
    | Looked(k: Key, rid: Rid, op: Op)                     // Lookup has returned the record
    | Rotating(k: Key, rid: Rid, tag: string)            // Rotate's Lookup has returned the record
    | Applied(k: Key, rid: Rid, after: Pending)             // the record is changed or created in memory
    | Snapped(k: Key, snap: Snapshot, after: Pending)       // its snapshot is taken, writeMu not yet held
    | Locked(k: Key, snap: Snapshot, after: Pending)        // PersistKey holds writeMu
    | Written(k: Key, after: Pending)                       // committed, writeMu still held
    | Removed(k: Key)                                      // Delete has taken the key out of the map
    | Erasing(k: Key)                                      // DeleteKey holds writeMu
    | Erased(k: Key)                                       // committed, writeMu still held

  /** Where flush stands; List copies the map, then snapshots the records one at a time. */
  datatype Flush = Resting | Holding | Listed(todo: map<Key, Rid>, got: map<Key, Snapshot>) | Committed

  datatype Owner = Free | HeldBy(t: Tid) | HeldByFlush

  datatype State = State(mem: map<Key, Rid>, recs: map<Rid, Record>, disk: map<Key, Snapshot>,
                         lock: Owner, calls: map<Tid, Call>, flush: Flush)

  datatype Step =
    | Begin(t: Tid, k: Key, op: Op)
    | BeginRotate(t: Tid, k: Key, tag: string)
    | BeginDelete(t: Tid, k: Key)
    | Vend(t: Tid, k: Key, rid: Rid, tag: string, now: int, ttl: int, scopes: Option<Scopes>)
    | RotateVend(t: Tid, k: Key, rid: Rid, now: int)
    | Provision(k: Key, rid: Rid, tag: string, now: int)
    | Advance(t: Tid, now: int)
    | FlushStep(k: Key)
    | Touch(rid: Rid, usage: Usage)

  // ----- Steps -----

  function ApplyOp(r: Record, op: Op): Record {
    match op
    case RevokeAt(now) => if r.revokedAt == 0 then r.(revokedAt := now) else r
    case ExpireAt(at) => r.(expiresAt := at)
    case ScopeTo(scopes) => r.(scopes := scopes)
  }

  /** A Revoke whose compare-and-swap fails returns without persisting. */
  predicate SwapFails(r: Record, op: Op) {
    op.RevokeAt? && r.revokedAt != 0
  }

  ghost predicate FreshKey(recs: map<Rid, Record>, k: Key) {
    forall rid :: rid in recs ==> recs[rid].key != k
  }

  function RemainingTTL(r: Record, now: int): int {
    if r.expiresAt != 0 && r.expiresAt - now > 0 then r.expiresAt - now else 0
  }

  function Replacement(prev: Record, k: Key, tag: string, now: int): Record {
    Vended(k, if tag != "" then tag else prev.tag, now, RemainingTTL(prev, now), prev.scopes)
  }

  ghost predicate Enabled(s: State, l: Step) {
    match l
    case Begin(t, k, op) => t !in s.calls && k in s.mem && (op.RevokeAt? ==> op.now != 0)
    case BeginRotate(t, k, _) => t !in s.calls && k in s.mem
    case BeginDelete(t, k) => t !in s.calls && k in s.mem
    case Vend(t, k, rid, _, _, _, _) => t !in s.calls && FreshKey(s.recs, k) && rid !in s.recs
    case RotateVend(t, k, rid, _) =>
      t in s.calls && s.calls[t].Rotating? && s.calls[t].rid in s.recs && FreshKey(s.recs, k) && rid !in s.recs
    case Provision(k, rid, _, _) => k !in s.mem && rid !in s.recs
    case Advance(t, now) => t in s.calls && CanAdvance(s, s.calls[t], now)
    case FlushStep(k) => s.flush.Resting? ==> s.lock.Free?
    case Touch(rid, _) => rid in s.recs
  }

  predicate CanAdvance(s: State, c: Call, now: int) {
    match c
    case Looked(_, rid, _) => rid in s.recs
    case Applied(_, rid, _) => rid in s.recs
    case Snapped(_, _, _) => s.lock.Free?
    case Removed(_) => s.lock.Free?
    case Rotating(_, _, _) => false
    case Written(_, after) => now != 0
    case _ => true
  }

  ghost function Next(s: State, l: Step): State
    requires Enabled(s, l)
  {
    match l
    case Begin(t, k, op) => s.(calls := s.calls[t := Looked(k, s.mem[k], op)])
    case BeginRotate(t, k, tag) => s.(calls := s.calls[t := Rotating(k, s.mem[k], tag)])
    case BeginDelete(t, k) => s.(mem := s.mem - {k}, calls := s.calls[t := Removed(k)])
    case Vend(t, k, rid, tag, now, ttl, scopes) => Created(s, t, rid, Vended(k, tag, now, ttl, scopes), Nothing)
    case RotateVend(t, k, rid, now) =>
      var c := s.calls[t];
      Created(s, t, rid, Replacement(s.recs[c.rid], k, c.tag, now), Revoking(c.k, c.rid))
    case Provision(k, rid, tag, now) =>
      s.(mem := s.mem[k := rid], recs := s.recs[rid := Provisioned(k, tag, now)])
    case Advance(t, now) => Advanced(s, t, now)
    case FlushStep(k) => Flushed(s, k)
    case Touch(rid, usage) => s.(recs := s.recs[rid := s.recs[rid].(usage := usage)])
  }

  function Created(s: State, t: Tid, rid: Rid, r: Record, after: Pending): State {
    s.(mem := s.mem[r.key := rid], recs := s.recs[rid := r], calls := s.calls[t := Applied(r.key, rid, after)])
  }

  function Advanced(s: State, t: Tid, now: int): State
    requires t in s.calls && CanAdvance(s, s.calls[t], now)
  {
    match s.calls[t]
    case Looked(k, rid, op) =>
      if SwapFails(s.recs[rid], op) then s.(calls := s.calls - {t})
      else s.(recs := s.recs[rid := ApplyOp(s.recs[rid], op)], calls := s.calls[t := Applied(k, rid, Nothing)])
    case Applied(k, rid, after) => s.(calls := s.calls[t := Snapped(k, TakeSnapshot(s.recs[rid]), after)])
    case Snapped(k, snap, after) => s.(lock := HeldBy(t), calls := s.calls[t := Locked(k, snap, after)])
    case Locked(k, snap, after) => s.(disk := s.disk[snap.key := snap], calls := s.calls[t := Written(k, after)])
    case Written(k, Nothing) => s.(lock := Free, calls := s.calls - {t})
    case Written(k, Revoking(prev, rid)) => s.(lock := Free, calls := s.calls[t := Looked(prev, rid, RevokeAt(now))])
    case Removed(k) => s.(lock := HeldBy(t), calls := s.calls[t := Erasing(k)])
    case Erasing(k) => s.(disk := s.disk - {k}, calls := s.calls[t := Erased(k)])
    case Erased(k) => s.(lock := Free, calls := s.calls - {t})
  }

  function Flushed(s: State, k: Key): State {
    match s.flush
    case Resting => s.(lock := HeldByFlush, flush := Holding)
    case Holding => s.(flush := Listed(s.mem, map[]))
    case Listed(todo, got) =>
      if todo.Keys == {} then s.(disk := s.disk + got, flush := Committed)
      else if k in todo && todo[k] in s.recs then
        s.(flush := Listed(todo - {k}, got[k := TakeSnapshot(s.recs[todo[k]])]))
      else s
    case Committed => s.(lock := Free, flush := Resting)
  }

  // ----- Runs -----

  ghost predicate Runs(s: State, ls: seq<Step>, s': State)
    decreases |ls|
  {
    if ls == [] then s == s' else Enabled(s, ls[0]) && Runs(Next(s, ls[0]), ls[1..], s')
  }

  predicate Creates(l: Step, k: Key) {
    (l.Vend? || l.RotateVend? || l.Provision?) && l.k == k
  }

  /** k is not provisioned again along the run. */
  ghost predicate NeverCreates(ls: seq<Step>, k: Key) {
    forall i :: 0 <= i < |ls| ==> !Creates(ls[i], k)
  }

  // ----- What every reachable state keeps -----

  ghost predicate RidOf(recs: map<Rid, Record>, rid: Rid, k: Key) {
    rid in recs && recs[rid].key == k
  }

  ghost predicate PendingOK(recs: map<Rid, Record>, after: Pending) {
    after.Revoking? ==> RidOf(recs, after.rid, after.k)
  }

  ghost predicate CallOK(recs: map<Rid, Record>, c: Call) {
    match c
    case Looked(k, rid, op) => RidOf(recs, rid, k) && (op.RevokeAt? ==> op.now != 0)
    case Rotating(k, rid, _) => RidOf(recs, rid, k)
    case Applied(k, rid, after) => RidOf(recs, rid, k) && PendingOK(recs, after)
    case Snapped(k, snap, after) => snap.key == k && PendingOK(recs, after)
    case Locked(k, snap, after) => snap.key == k && PendingOK(recs, after)
    case Written(_, after) => PendingOK(recs, after)
    case _ => true
  }

  predicate Holds(c: Call) {
    c.Locked? || c.Written? || c.Erasing? || c.Erased?
  }

  ghost predicate MemOK(s: State) {
    forall k :: k in s.mem ==> RidOf(s.recs, s.mem[k], k)
  }

  ghost predicate CallsOK(s: State) {
    forall t :: t in s.calls ==> CallOK(s.recs, s.calls[t])
  }

  ghost predicate LockOK(s: State) {
    && (forall t :: t in s.calls && Holds(s.calls[t]) ==> s.lock == HeldBy(t))
    && (s.lock.HeldBy? ==> s.lock.t in s.calls && Holds(s.calls[s.lock.t]))
    && (s.lock.HeldByFlush? <==> !s.flush.Resting?)
  }

  ghost predicate FlushOK(s: State) {
    s.flush.Listed? ==>
      && (forall k :: k in s.flush.todo ==> RidOf(s.recs, s.flush.todo[k], k))
      && (forall k :: k in s.flush.got ==> s.flush.got[k].key == k)
      && s.flush.todo.Keys !! s.flush.got.Keys
  }

  ghost predicate Inv(s: State) {
    MemOK(s) && CallsOK(s) && LockOK(s) && FlushOK(s)
  }

  /** The records only gain entries, keep their keys, and a revocation is never undone. */
  ghost predicate Grows(recs: map<Rid, Record>, recs': map<Rid, Record>) {
    forall rid :: rid in recs ==>
      rid in recs' && recs'[rid].key == recs[rid].key && (recs[rid].revokedAt != 0 ==> recs'[rid].revokedAt != 0)
  }

  // Each step is a few of these moves; what a step keeps follows from what a move keeps.

  ghost function WithCall(s: State, t: Tid, c: Call): State {
    s.(calls := s.calls[t := c])
  }

  ghost function WithoutCall(s: State, t: Tid): State {
    s.(calls := s.calls - {t})
  }

  ghost function WithRecord(s: State, rid: Rid, r: Record): State {
    s.(recs := s.recs[rid := r])
  }

  lemma InvWithCall(s: State, t: Tid, c: Call)
    requires Inv(s) && CallOK(s.recs, c) && !Holds(c) && (t in s.calls ==> !Holds(s.calls[t]))
    ensures Inv(WithCall(s, t, c))
  {
  }

  lemma InvWithoutCall(s: State, t: Tid)
    requires Inv(s) && (t in s.calls ==> !Holds(s.calls[t]))
    ensures Inv(WithoutCall(s, t))
  {
  }

  lemma InvWithRecord(s: State, rid: Rid, r: Record)
    requires Inv(s) && Grows(s.recs, s.recs[rid := r])
    ensures Inv(WithRecord(s, rid, r))
  {
    var s' := WithRecord(s, rid, r);
    forall t | t in s'.calls ensures CallOK(s'.recs, s'.calls[t]) {
      CallStaysOK(s.recs, s'.recs, s.calls[t]);
    }
  }

  lemma CallStaysOK(recs: map<Rid, Record>, recs': map<Rid, Record>, c: Call)
    requires CallOK(recs, c) && Grows(recs, recs')
    ensures CallOK(recs', c)
  {
  }

  lemma InvWithMem(s: State, mem: map<Key, Rid>)
    requires Inv(s) && forall k :: k in mem ==> RidOf(s.recs, mem[k], k)
    ensures Inv(s.(mem := mem))
  {
  }

  lemma InvWithDisk(s: State, disk: map<Key, Snapshot>)
    requires Inv(s)
    ensures Inv(s.(disk := disk))
  {
  }

  lemma InvAcquire(s: State, t: Tid, c: Call)
    requires Inv(s) && s.lock.Free? && Holds(c) && CallOK(s.recs, c)
    ensures Inv(WithCall(s.(lock := HeldBy(t)), t, c))
  {
  }

  lemma InvKeepLock(s: State, t: Tid, c: Call)
    requires Inv(s) && t in s.calls && Holds(s.calls[t]) && Holds(c) && CallOK(s.recs, c)
    ensures Inv(WithCall(s, t, c))
  {
  }

  lemma InvRelease(s: State, t: Tid)
    requires Inv(s) && t in s.calls && Holds(s.calls[t])
    ensures Inv(WithoutCall(s.(lock := Free), t))
  {
  }

  lemma InvAdvance(s: State, t: Tid, now: int)
    requires Inv(s) && t in s.calls && CanAdvance(s, s.calls[t], now)
    ensures Inv(Advanced(s, t, now))
  {
    assert CallOK(s.recs, s.calls[t]);
    match s.calls[t]
    case Looked(k, rid, op) =>
      if SwapFails(s.recs[rid], op) {
        InvWithoutCall(s, t);
      } else {
        InvWithRecord(s, rid, ApplyOp(s.recs[rid], op));
        InvWithCall(WithRecord(s, rid, ApplyOp(s.recs[rid], op)), t, Applied(k, rid, Nothing));
      }
    case Applied(k, rid, after) =>
      InvWithCall(s, t, Snapped(k, TakeSnapshot(s.recs[rid]), after));
    case Snapped(k, snap, after) =>
      InvAcquire(s, t, Locked(k, snap, after));
    case Locked(k, snap, after) =>
      InvWithDisk(s, s.disk[snap.key := snap]);
      InvKeepLock(s.(disk := s.disk[snap.key := snap]), t, Written(k, after));
    case Removed(k) =>
      InvAcquire(s, t, Erasing(k));
    case Erasing(k) =>
      InvWithDisk(s, s.disk - {k});
      InvKeepLock(s.(disk := s.disk - {k}), t, Erased(k));
    case Erased(k) =>
      InvRelease(s, t);
    case Written(k, after) =>
      InvRelease(s, t);
      if after.Revoking? {
        var c := Looked(after.k, after.rid, RevokeAt(now));
        InvWithCall(WithoutCall(s.(lock := Free), t), t, c);
        assert (s.calls - {t})[t := c] == s.calls[t := c];
      }
  }

  lemma InvFlush(s: State, k: Key)
    requires Inv(s) && (s.flush.Resting? ==> s.lock.Free?)
    ensures Inv(Flushed(s, k))
  {
  }

  lemma InvCreated(s: State, t: Tid, rid: Rid, r: Record, after: Pending)
    requires Inv(s) && rid !in s.recs && PendingOK(s.recs, after) && (t in s.calls ==> !Holds(s.calls[t]))
    ensures Inv(Created(s, t, rid, r, after))
  {
    var s1 := WithRecord(s, rid, r);
    InvWithRecord(s, rid, r);
    InvWithMem(s1, s1.mem[r.key := rid]);
    InvWithCall(s1.(mem := s1.mem[r.key := rid]), t, Applied(r.key, rid, after));
  }

  lemma InvStep(s: State, l: Step)
    requires Inv(s) && Enabled(s, l)
    ensures Inv(Next(s, l))
  {
    match l
    case Begin(t, k, op) => InvWithCall(s, t, Looked(k, s.mem[k], op));
    case BeginRotate(t, k, tag) => InvWithCall(s, t, Rotating(k, s.mem[k], tag));
    case BeginDelete(t, k) =>
      InvWithMem(s, s.mem - {k});
      InvWithCall(s.(mem := s.mem - {k}), t, Removed(k));
    case Vend(t, k, rid, tag, now, ttl, scopes) => InvCreated(s, t, rid, Vended(k, tag, now, ttl, scopes), Nothing);
    case RotateVend(t, k, rid, now) =>
      var c := s.calls[t];
      assert CallOK(s.recs, c);
      InvCreated(s, t, rid, Replacement(s.recs[c.rid], k, c.tag, now), Revoking(c.k, c.rid));
    case Provision(k, rid, tag, now) =>
      InvWithRecord(s, rid, Provisioned(k, tag, now));
      InvWithMem(WithRecord(s, rid, Provisioned(k, tag, now)), s.mem[k := rid]);
    case Advance(t, now) => InvAdvance(s, t, now);
    case FlushStep(k) => InvFlush(s, k);
    case Touch(rid, usage) => InvWithRecord(s, rid, s.recs[rid].(usage := usage));
  }

  // ----- When can a key come back to disk? -----

  /** What must not be on disk for a key: anything at all, or an unrevoked entry. */
  datatype Concern = AnyEntry | UnrevokedEntry

  ghost predicate BadSnap(w: Concern, snap: Snapshot) {
    w.UnrevokedEntry? ==> snap.revokedAt.None?
  }

  ghost predicate BadRid(w: Concern, recs: map<Rid, Record>, rid: Rid) {
    w.UnrevokedEntry? && rid in recs ==> recs[rid].revokedAt == 0
  }

  ghost predicate OnDisk(w: Concern, s: State, k: Key) {
    k in s.disk && BadSnap(w, s.disk[k])
  }

  /** A pending revocation writes only if it is the first, and then writes a revoked entry. */
  ghost predicate RevokeThreat(w: Concern, recs: map<Rid, Record>, rid: Rid) {
    w.AnyEntry? && BadRid(UnrevokedEntry, recs, rid)
  }

  ghost predicate PendingThreat(w: Concern, recs: map<Rid, Record>, after: Pending, k: Key) {
    after.Revoking? && after.k == k && RevokeThreat(w, recs, after.rid)
  }

  /** A call in flight that can still put such an entry on disk for k. */
  ghost predicate CallThreat(w: Concern, recs: map<Rid, Record>, c: Call, k: Key) {
    match c
    case Looked(k', rid, op) => k' == k && if op.RevokeAt? then RevokeThreat(w, recs, rid) else BadRid(w, recs, rid)
    case Rotating(k', rid, _) => k' == k && RevokeThreat(w, recs, rid)
    case Applied(k', rid, after) => (k' == k && BadRid(w, recs, rid)) || PendingThreat(w, recs, after, k)
    case Snapped(k', snap, after) => (k' == k && BadSnap(w, snap)) || PendingThreat(w, recs, after, k)
    case Locked(k', snap, after) => (k' == k && BadSnap(w, snap)) || PendingThreat(w, recs, after, k)
    case Written(_, after) => PendingThreat(w, recs, after, k)
    case _ => false
  }

  ghost predicate FlushThreat(w: Concern, s: State, k: Key) {
    s.flush.Listed? && (
      || (k in s.flush.got && BadSnap(w, s.flush.got[k]))
      || (k in s.flush.todo && BadRid(w, s.recs, s.flush.todo[k])))
  }

  ghost predicate MemThreat(w: Concern, s: State, k: Key) {
    k in s.mem && BadRid(w, s.recs, s.mem[k])
  }

  ghost predicate Exposed(w: Concern, s: State, k: Key) {
    OnDisk(w, s, k) || MemThreat(w, s, k) || FlushThreat(w, s, k)
    || exists t :: t in s.calls && CallThreat(w, s.recs, s.calls[t], k)
  }

  lemma SafeWithCall(w: Concern, s: State, t: Tid, c: Call, k: Key)
    requires !Exposed(w, s, k) && !CallThreat(w, s.recs, c, k)
    ensures !Exposed(w, WithCall(s, t, c), k)
  {
  }

  lemma SafeWithoutCall(w: Concern, s: State, t: Tid, k: Key)
    requires !Exposed(w, s, k)
    ensures !Exposed(w, WithoutCall(s, t), k)
  {
  }

  lemma ThreatShrinks(w: Concern, recs: map<Rid, Record>, recs': map<Rid, Record>, c: Call, k: Key)
    requires CallOK(recs, c) && Grows(recs, recs') && CallThreat(w, recs', c, k)
    ensures CallThreat(w, recs, c, k)
  {
  }

  lemma SafeWithRecord(w: Concern, s: State, rid: Rid, r: Record, k: Key)
    requires Inv(s) && !Exposed(w, s, k) && Grows(s.recs, s.recs[rid := r])
    ensures !Exposed(w, WithRecord(s, rid, r), k)
  {
    var s' := WithRecord(s, rid, r);
    forall t | t in s'.calls ensures !CallThreat(w, s'.recs, s'.calls[t], k) {
      if CallThreat(w, s'.recs, s'.calls[t], k) { ThreatShrinks(w, s.recs, s'.recs, s.calls[t], k); }
    }
  }

  /** Lock, other keys of the map and of the disk do not matter to k. */
  lemma SafeElsewhere(w: Concern, s: State, mem: map<Key, Rid>, disk: map<Key, Snapshot>, lock: Owner, k: Key)
    requires !Exposed(w, s, k)
    requires k in mem ==> k in s.mem && mem[k] == s.mem[k]
    requires k in disk ==> (k in s.disk && disk[k] == s.disk[k]) || !BadSnap(w, disk[k])
    ensures !Exposed(w, s.(mem := mem, disk := disk, lock := lock), k)
  {
  }

  lemma SafeAdvance(w: Concern, s: State, t: Tid, now: int, k: Key)
    requires Inv(s) && t in s.calls && CanAdvance(s, s.calls[t], now) && !Exposed(w, s, k)
    ensures !Exposed(w, Advanced(s, t, now), k)
  {
    var c := s.calls[t];
    assert CallOK(s.recs, c) && !CallThreat(w, s.recs, c, k);
    match c
    case Looked(j, rid, op) =>
      if SwapFails(s.recs[rid], op) {
        SafeWithoutCall(w, s, t, k);
      } else {
        SafeWithRecord(w, s, rid, ApplyOp(s.recs[rid], op), k);
        SafeWithCall(w, WithRecord(s, rid, ApplyOp(s.recs[rid], op)), t, Applied(j, rid, Nothing), k);
      }
    case Applied(j, rid, after) =>
      SafeWithCall(w, s, t, Snapped(j, TakeSnapshot(s.recs[rid]), after), k);
    case Snapped(j, snap, after) =>
      SafeWithCall(w, s, t, Locked(j, snap, after), k);
      SafeElsewhere(w, WithCall(s, t, Locked(j, snap, after)), s.mem, s.disk, HeldBy(t), k);
    case Locked(j, snap, after) =>
      SafeWithCall(w, s, t, Written(j, after), k);
      SafeElsewhere(w, WithCall(s, t, Written(j, after)), s.mem, s.disk[snap.key := snap], s.lock, k);
    case Removed(j) =>
      SafeWithCall(w, s, t, Erasing(j), k);
      SafeElsewhere(w, WithCall(s, t, Erasing(j)), s.mem, s.disk, HeldBy(t), k);
    case Erasing(j) =>
      SafeWithCall(w, s, t, Erased(j), k);
      SafeElsewhere(w, WithCall(s, t, Erased(j)), s.mem, s.disk - {j}, s.lock, k);
    case Erased(j) =>
      SafeWithoutCall(w, s, t, k);
      SafeElsewhere(w, WithoutCall(s, t), s.mem, s.disk, Free, k);
    case Written(j, after) =>
      if after.Nothing? {
        SafeWithoutCall(w, s, t, k);
        SafeElsewhere(w, WithoutCall(s, t), s.mem, s.disk, Free, k);
      } else {
        var c' := Looked(after.k, after.rid, RevokeAt(now));
        SafeWithCall(w, s, t, c', k);
        SafeElsewhere(w, WithCall(s, t, c'), s.mem, s.disk, Free, k);
      }
  }

  lemma SafeWithFlush(w: Concern, s: State, f: Flush, k: Key)
    requires !Exposed(w, s, k) && !FlushThreat(w, s.(flush := f), k)
    ensures !Exposed(w, s.(flush := f), k)
  {
  }

  lemma SafeFlush(w: Concern, s: State, j: Key, k: Key)
    requires Inv(s) && !Exposed(w, s, k)
    ensures !Exposed(w, Flushed(s, j), k)
  {
    match s.flush
    case Resting =>
      SafeWithFlush(w, s, Holding, k);
      SafeElsewhere(w, s.(flush := Holding), s.mem, s.disk, HeldByFlush, k);
    case Holding =>
      SafeWithFlush(w, s, Listed(s.mem, map[]), k);
    case Listed(todo, got) =>
      if todo.Keys == {} {
        SafeElsewhere(w, s, s.mem, s.disk + got, s.lock, k);
        SafeWithFlush(w, s.(disk := s.disk + got), Committed, k);
      } else if j in todo && todo[j] in s.recs {
        SafeWithFlush(w, s, Listed(todo - {j}, got[j := TakeSnapshot(s.recs[todo[j]])]), k);
      }
    case Committed =>
      SafeWithFlush(w, s, Resting, k);
      SafeElsewhere(w, s.(flush := Resting), s.mem, s.disk, Free, k);
  }

  lemma SafeCreated(w: Concern, s: State, t: Tid, rid: Rid, r: Record, after: Pending, k: Key)
    requires Inv(s) && !Exposed(w, s, k) && rid !in s.recs && r.key != k
    requires PendingOK(s.recs, after) && !PendingThreat(w, s.recs, after, k)
    ensures !Exposed(w, Created(s, t, rid, r, after), k)
  {
    SafeWithRecord(w, s, rid, r, k);
    var s1 := WithRecord(s, rid, r);
    SafeWithCall(w, s1, t, Applied(r.key, rid, after), k);
    SafeElsewhere(w, WithCall(s1, t, Applied(r.key, rid, after)), s.mem[r.key := rid], s.disk, s.lock, k);
  }

  /** No step brings such an entry of k back once nothing can still write it. */
  lemma SafeStep(w: Concern, s: State, l: Step, k: Key)
    requires Inv(s) && Enabled(s, l) && !Exposed(w, s, k) && !Creates(l, k)
    ensures !Exposed(w, Next(s, l), k)
  {
    match l
    case Begin(t, j, op) => SafeWithCall(w, s, t, Looked(j, s.mem[j], op), k);
    case BeginRotate(t, j, tag) => SafeWithCall(w, s, t, Rotating(j, s.mem[j], tag), k);
    case BeginDelete(t, j) =>
      SafeWithCall(w, s, t, Removed(j), k);
      SafeElsewhere(w, WithCall(s, t, Removed(j)), s.mem - {j}, s.disk, s.lock, k);
    case Vend(t, j, rid, tag, now, ttl, scopes) =>
      SafeCreated(w, s, t, rid, Vended(j, tag, now, ttl, scopes), Nothing, k);
    case RotateVend(t, j, rid, now) =>
      var c := s.calls[t];
      assert CallOK(s.recs, c) && !CallThreat(w, s.recs, c, k);
      SafeCreated(w, s, t, rid, Replacement(s.recs[c.rid], j, c.tag, now), Revoking(c.k, c.rid), k);
    case Provision(j, rid, tag, now) =>
      SafeWithRecord(w, s, rid, Provisioned(j, tag, now), k);
      SafeElsewhere(w, WithRecord(s, rid, Provisioned(j, tag, now)), s.mem[j := rid], s.disk, s.lock, k);
    case Advance(t, now) => SafeAdvance(w, s, t, now, k);
    case FlushStep(j) => SafeFlush(w, s, j, k);
    case Touch(rid, usage) => SafeWithRecord(w, s, rid, s.recs[rid].(usage := usage), k);
  }

  lemma {:induction false} SafeRun(w: Concern, s: State, ls: seq<Step>, s': State, k: Key)
    requires Inv(s) && !Exposed(w, s, k) && Runs(s, ls, s') && NeverCreates(ls, k)
    ensures !OnDisk(w, s', k)
    decreases |ls|
  {
    if ls != [] {
      InvStep(s, ls[0]);
      SafeStep(w, s, ls[0], k);
      SafeRun(w, Next(s, ls[0]), ls[1..], s', k);
    }
  }
}
