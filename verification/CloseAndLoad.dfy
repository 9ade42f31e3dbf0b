/**
 Close and loadAll of internal/appkey/persist.go: after any run whose calls do not overlap
 on a key and have all returned, the final flush followed by a load into an empty store
 gives back every key with every field.
 */
module CloseAndLoad {
  import opened AppKey
  import opened Persistence
  import opened NonOverlap

  /** The store as a value: each key with its record. */
  ghost function Contents(s: State): map<Key, Record>
    requires Inv(s)
  {
    map k | k in s.mem :: s.recs[s.mem[k]]
  }

  /** loadAll into an empty store. */
  function Load(disk: map<Key, Snapshot>): map<Key, Record> {
    map k | k in disk :: Restored(disk[k])
  }

  /** loadAll into a store with keys provisioned from config, whose labels stay. */
  function LoadOver(config: map<Key, Record>, disk: map<Key, Snapshot>): map<Key, Record> {
    map k | k in config.Keys + disk.Keys ::
      if k !in disk then config[k] else if k in config then RestoredOver(config[k], disk[k]) else Restored(disk[k])
  }

  function FlushSteps(ks: seq<Key>): seq<Step> {
    seq(|ks|, i requires 0 <= i < |ks| => FlushStep(ks[i]))
  }

  ghost predicate UpToDate(s: State, snaps: map<Key, Snapshot>, k: Key) {
    k in s.mem && s.mem[k] in s.recs && k in snaps && snaps[k] == TakeSnapshot(s.recs[s.mem[k]])
  }

  /** The disk holds exactly the map's keys, each up to date. */
  ghost predicate Mirrored(s: State) {
    s.disk.Keys == s.mem.Keys && forall k :: k in s.mem ==> UpToDate(s, s.disk, k)
  }

  /** How far the final flush is, given that nothing else moves. */
  ghost predicate Progress(s: State, begun: bool) {
    && s.disk.Keys <= s.mem.Keys
    && match s.flush
       case Resting => begun ==> Mirrored(s)
       case Holding => true
       case Listed(todo, got) =>
         && todo.Keys + got.Keys == s.mem.Keys
         && (forall k :: k in todo ==> todo[k] == s.mem[k])
         && (forall k :: k in got ==> UpToDate(s, got, k))
       case Committed => Mirrored(s)
  }

  /** One listed record is read. */
  lemma SnapshotProgress(s: State, j: Key, begun: bool)
    requires Progress(s, begun) && s.flush.Listed? && j in s.flush.todo && s.flush.todo[j] in s.recs
    ensures var read := TakeSnapshot(s.recs[s.flush.todo[j]]);
      Progress(s.(flush := Listed(s.flush.todo - {j}, s.flush.got[j := read])), true)
  {
    var todo, got := s.flush.todo, s.flush.got;
    var s' := s.(flush := Listed(todo - {j}, got[j := TakeSnapshot(s.recs[todo[j]])]));
    assert j in todo.Keys + got.Keys;
    forall k | k in s'.flush.got ensures UpToDate(s', s'.flush.got, k) {
      if k != j { assert UpToDate(s, got, k); }
    }
  }

  lemma FlushProgress(s: State, j: Key, begun: bool)
    requires Inv(s) && Progress(s, begun) && (s.flush.Resting? ==> s.lock.Free?)
    ensures Progress(Flushed(s, j), true)
  {
    match s.flush
    case Listed(todo, got) =>
      if todo.Keys == {} {
        CommitMirrors(s, got);
      } else if j in todo && todo[j] in s.recs {
        SnapshotProgress(s, j, begun);
      }
    case _ =>
  }

  lemma CommitMirrors(s: State, got: map<Key, Snapshot>)
    requires s.disk.Keys <= s.mem.Keys && got.Keys == s.mem.Keys && forall k :: k in got ==> UpToDate(s, got, k)
    ensures Mirrored(s.(disk := s.disk + got, flush := Committed))
  {
    var s' := s.(disk := s.disk + got, flush := Committed);
    forall k | k in s'.mem ensures UpToDate(s', s'.disk, k) {
      assert UpToDate(s, got, k);
    }
  }

  lemma {:induction false} FlushRun(s: State, ks: seq<Key>, s': State, begun: bool)
    requires Inv(s) && Progress(s, begun) && Runs(s, FlushSteps(ks), s')
    ensures Inv(s') && s'.mem == s.mem && s'.recs == s.recs && Progress(s', begun || ks != [])
    decreases |ks|
  {
    if ks != [] {
      var ls := FlushSteps(ks);
      assert ls[0] == FlushStep(ks[0]) && ls[1..] == FlushSteps(ks[1..]);
      var m := Flushed(s, ks[0]);
      InvStep(s, ls[0]);
      FlushFrame(s, ks[0]);
      FlushProgress(s, ks[0], begun);
      FlushRun(m, ks[1..], s', true);
    }
  }

  lemma AtRestContained(s: State)
    requires Orderly(s) && s.calls == map[]
    ensures s.disk.Keys <= s.mem.Keys
  {
  }

  /**
   From startup, any run whose calls do not overlap on a key, all returned and the flusher at
   rest; then Close's flush, run to its end: loading the bucket gives exactly the store.
   */
  lemma CloseThenLoad(start: State, ls: seq<Step>, s: State, ks: seq<Key>, s': State)
    requires Startup(start) && GuardedRun(start, ls, s) && s.calls == map[] && s.flush.Resting?
    requires ks != [] && Runs(s, FlushSteps(ks), s') && s'.flush.Resting?
    ensures Inv(s) && Load(s'.disk) == Contents(s)
  {
    StartupOrderly(start);
    OrderlyRun(start, ls, s);
    AtRestContained(s);
    FlushRun(s, ks, s', false);
    forall k | k in s.mem ensures Restored(s'.disk[k]) == s.recs[s.mem[k]] {
      assert UpToDate(s', s'.disk, k);
      SnapshotRoundTrip(s.recs[s.mem[k]]);
    }
  }

  /** Loading over a configuration keeps its labels and takes everything else from the bucket. */
  lemma LoadOverConfig(config: map<Key, Record>, disk: map<Key, Snapshot>, r: Record)
    requires r.key in disk && disk[r.key] == TakeSnapshot(r)
    requires r.key in config ==> exists now :: config[r.key] == Provisioned(r.key, config[r.key].tag, now)
    ensures LoadOver(config, disk)[r.key] == if r.key in config then r.(tag := config[r.key].tag) else r
  {
    if r.key in config {
      var now :| config[r.key] == Provisioned(r.key, config[r.key].tag, now);
      MergeRoundTrip(r, config[r.key].tag, now);
    } else {
      SnapshotRoundTrip(r);
    }
  }
}
