/**
 UsageRecord.Snapshot of internal/appkey/store.go read while any number of RecordRequest
 calls move the same record's counters. Every atomic load and add is a step of its own.
 */
module TornSnapshot {
  type Tid = nat

  /** Where a RecordRequest stands; it has already added to the total. */
  datatype Writer =
    | Bumped(model: string, isStream: bool)  // TotalRequests added
    | Split(model: string)                   // StreamRequests or NonStreamRequests added
    | Ready(model: string)                   // getOrCreateModel has returned the model's counters

  /** Where Snapshot stands, with the values loaded so far. */
  datatype Reader =
    | Idle
    | Models(todo: set<string>, got: map<string, nat>)  // holding the record's read lock
    | ModelsDone(got: map<string, nat>)
    | TotalDone(got: map<string, nat>, total: nat)
    | StreamDone(got: map<string, nat>, total: nat, stream: nat)
    | Done(got: map<string, nat>, total: nat, stream: nat, nonStream: nat)

  datatype State = State(total: nat, stream: nat, nonStream: nat, models: map<string, nat>,
                         writers: map<Tid, Writer>, reader: Reader)

  datatype Step = Start(t: Tid, model: string, isStream: bool) | Write(t: Tid) | Read(model: string)

  // ----- Steps -----

  predicate Enabled(s: State, l: Step) {
    match l
    case Start(t, _, _) => t !in s.writers
    case Write(t) => t in s.writers && CanWrite(s, s.writers[t])
    case Read(_) => true
  }

  /** Creating a model's counters needs the write lock, which a reading Snapshot keeps out. */
  predicate CanWrite(s: State, w: Writer) {
    match w
    case Bumped(_, _) => true
    case Split(model) => model == "" || model in s.models || !s.reader.Models?
    case Ready(model) => model in s.models
  }

  function Next(s: State, l: Step): State
    requires Enabled(s, l)
  {
    match l
    case Start(t, model, isStream) => s.(total := s.total + 1, writers := s.writers[t := Bumped(model, isStream)])
    case Write(t) => Written(s, t)
    case Read(m) => Loaded(s, m)
  }

  function Written(s: State, t: Tid): State
    requires Enabled(s, Write(t))
  {
    match s.writers[t]
    case Bumped(model, isStream) =>
      s.(stream := if isStream then s.stream + 1 else s.stream,
         nonStream := if isStream then s.nonStream else s.nonStream + 1,
         writers := s.writers[t := Split(model)])
    case Split(model) =>
      if model == "" then s.(writers := s.writers - {t})
      else s.(models := if model in s.models then s.models else s.models[model := 0],
              writers := s.writers[t := Ready(model)])
    case Ready(model) => s.(models := s.models[model := s.models[model] + 1], writers := s.writers - {t})
  }

  function Loaded(s: State, m: string): State {
    match s.reader
    case Idle => s.(reader := Models(s.models.Keys, map[]))
    case Models(todo, got) =>
      if todo == {} then s.(reader := ModelsDone(got))
      else if m in todo && m in s.models then s.(reader := Models(todo - {m}, got[m := s.models[m]]))
      else s
    case ModelsDone(got) => s.(reader := TotalDone(got, s.total))
    case TotalDone(got, total) => s.(reader := StreamDone(got, total, s.stream))
    case StreamDone(got, total, stream) => s.(reader := Done(got, total, stream, s.nonStream))
    case Done(_, _, _, _) => s
  }

  // ----- Sums -----

  ghost function Sum(m: map<string, nat>): nat
    decreases |m|
  {
    if m == map[] then 0 else
      var k :| k in m;
      Smaller(m, k);
      m[k] + Sum(m - {k})
  }

  lemma Smaller(m: map<string, nat>, k: string)
    requires k in m
    ensures |m - {k}| < |m|
  {
    assert (m - {k}).Keys == m.Keys - {k};
    assert |(m - {k}).Keys| == |m - {k}| && |m.Keys| == |m|;
  }

  /** The sum does not depend on the order of taking entries out. */
  lemma {:induction false} SumWithout(m: map<string, nat>, k: string)
    requires k in m
    ensures Sum(m) == m[k] + Sum(m - {k})
    decreases |m|
  {
    var j :| j in m && Sum(m) == m[j] + Sum(m - {j});
    if j != k {
      Smaller(m, j);
      Smaller(m, k);
      SumWithout(m - {j}, k);
      SumWithout(m - {k}, j);
      assert m - {j} - {k} == m - {k} - {j};
    }
  }

  lemma SumUpdate(m: map<string, nat>, k: string, v: nat)
    ensures Sum(m[k := v]) == v + if k in m then Sum(m) - m[k] else Sum(m)
  {
    var m' := m[k := v];
    SumWithout(m', k);
    if k in m {
      SumWithout(m, k);
      assert m' - {k} == m - {k};
    } else {
      assert m' - {k} == m;
    }
  }

  /** Every entry of a is in b and no larger there. */
  ghost predicate Below(a: map<string, nat>, b: map<string, nat>) {
    forall k :: k in a ==> k in b && a[k] <= b[k]
  }

  lemma {:induction false} SumBelow(a: map<string, nat>, b: map<string, nat>)
    requires Below(a, b)
    ensures Sum(a) <= Sum(b)
    decreases |a|
  {
    if a != map[] {
      var k :| k in a;
      Smaller(a, k);
      SumWithout(a, k);
      SumWithout(b, k);
      SumBelow(a - {k}, b - {k});
    }
  }

  ghost predicate Runs(s: State, ls: seq<Step>, s': State)
    decreases |ls|
  {
    if ls == [] then s == s' else Enabled(s, ls[0]) && Runs(Next(s, ls[0]), ls[1..], s')
  }

  /** No request in flight and no snapshot under way. */
  ghost predicate AtRest(s: State) {
    s.writers == map[] && s.reader.Idle?
  }

  // ----- Models against the total -----

  /** Requests that will still add to a model's counter. */
  function Owing(w: map<Tid, Writer>): set<Tid> {
    set t | t in w && w[t].model != ""
  }

  ghost predicate ModelsCount(s: State) {
    && (forall t :: t in s.writers && s.writers[t].Ready? ==> s.writers[t].model != "")
    && Sum(s.models) + |Owing(s.writers)| <= s.total
  }

  ghost predicate ReaderOK(s: State) {
    match s.reader
    case Idle => true
    case Models(todo, got) => Below(got, s.models)
    case ModelsDone(got) => Below(got, s.models)
    case TotalDone(got, total) => Sum(got) <= total
    case StreamDone(got, total, _) => Sum(got) <= total
    case Done(got, total, _, _) => Sum(got) <= total
  }

  lemma OwingChange(w: map<Tid, Writer>, t: Tid, x: Writer)
    ensures Owing(w[t := x]) == if x.model != "" then Owing(w) + {t} else Owing(w) - {t}
    ensures Owing(w - {t}) == Owing(w) - {t}
  {
  }

  lemma StartCounts(s: State, t: Tid, model: string, isStream: bool)
    requires ModelsCount(s) && t !in s.writers
    ensures ModelsCount(Next(s, Start(t, model, isStream)))
  {
    OwingChange(s.writers, t, Bumped(model, isStream));
    assert t !in Owing(s.writers);
  }

  lemma BumpedCounts(s: State, t: Tid)
    requires ModelsCount(s) && t in s.writers && s.writers[t].Bumped?
    ensures ModelsCount(Written(s, t))
  {
    var model := s.writers[t].model;
    OwingChange(s.writers, t, Split(model));
    assert Owing(s.writers[t := Split(model)]) == Owing(s.writers);
  }

  lemma SplitCounts(s: State, t: Tid)
    requires ModelsCount(s) && Enabled(s, Write(t)) && s.writers[t].Split?
    ensures ModelsCount(Written(s, t))
  {
    var model := s.writers[t].model;
    OwingChange(s.writers, t, Ready(model));
    if model == "" {
      assert Owing(s.writers - {t}) == Owing(s.writers);
    } else {
      assert Owing(s.writers[t := Ready(model)]) == Owing(s.writers);
      if model !in s.models { SumUpdate(s.models, model, 0); }
    }
  }

  lemma ReadyCounts(s: State, t: Tid)
    requires ModelsCount(s) && Enabled(s, Write(t)) && s.writers[t].Ready?
    ensures ModelsCount(Written(s, t))
  {
    var model := s.writers[t].model;
    OwingChange(s.writers, t, s.writers[t]);
    assert t in Owing(s.writers);
    SumUpdate(s.models, model, s.models[model] + 1);
  }

  lemma ModelsStep(s: State, l: Step)
    requires ModelsCount(s) && ReaderOK(s) && Enabled(s, l)
    ensures ModelsCount(Next(s, l)) && ReaderOK(Next(s, l))
  {
    match l {
      case Start(t, model, isStream) => StartCounts(s, t, model, isStream);
      case Write(t) =>
        if s.writers[t].Bumped? { BumpedCounts(s, t); }
        else if s.writers[t].Split? { SplitCounts(s, t); }
        else { ReadyCounts(s, t); }
      case Read(_) => if s.reader.ModelsDone? { SumBelow(s.reader.got, s.models); }
    }
  }

  lemma {:induction false} ModelsRun(s: State, ls: seq<Step>, s': State)
    requires ModelsCount(s) && ReaderOK(s) && Runs(s, ls, s')
    ensures ModelsCount(s') && ReaderOK(s')
    decreases |ls|
  {
    if ls != [] {
      ModelsStep(s, ls[0]);
      ModelsRun(Next(s, ls[0]), ls[1..], s');
    }
  }

  /**
   However reads and increments interleave, a snapshot's models never sum to more than its total,
   for any record that starts so, whatever its stream and non-stream counters are.
   */
  lemma ModelsNeverExceedTotal(s: State, ls: seq<Step>, s': State)
    requires AtRest(s) && Sum(s.models) <= s.total && Runs(s, ls, s') && s'.reader.Done?
    ensures Sum(s'.reader.got) <= s'.reader.total
  {
    assert Owing(s.writers) == {};
    ModelsRun(s, ls, s');
  }

  /** The record that a snapshot is restored to. */
  ghost function RestoredRecord(r: Reader): State
    requires r.Done?
  {
    State(r.total, r.stream, r.nonStream, r.got, map[], Idle)
  }

  /** What one process did to a record, and the snapshot of it that was left on disk. */
  datatype Life = Life(steps: seq<Step>, left: Reader)

  ghost predicate Leaves(s: State, life: Life) {
    life.left.Done? && exists s' :: Runs(s, life.steps, s') && s'.reader == life.left
  }

  /** Each life starts from the snapshot the one before left behind. */
  ghost predicate Lives(s: State, lives: seq<Life>)
    decreases |lives|
  {
    lives == [] || (Leaves(s, lives[0]) && Lives(RestoredRecord(lives[0].left), lives[1..]))
  }

  /** So the bound survives any number of restarts, each from a snapshot that may be torn. */
  lemma {:induction false} BoundSurvivesRestarts(s: State, lives: seq<Life>)
    requires AtRest(s) && Sum(s.models) <= s.total && Lives(s, lives)
    ensures forall i :: 0 <= i < |lives| ==> lives[i].left.Done? && Sum(lives[i].left.got) <= lives[i].left.total
    decreases |lives|
  {
    if lives != [] {
      var s' :| Runs(s, lives[0].steps, s') && s'.reader == lives[0].left;
      ModelsNeverExceedTotal(s, lives[0].steps, s');
      BoundSurvivesRestarts(RestoredRecord(lives[0].left), lives[1..]);
    }
  }

  // ----- Stream and non-stream against the total -----

  /** Requests that have bumped the total but neither part. */
  function Unsplit(w: map<Tid, Writer>): set<Tid> {
    set t | t in w && w[t].Bumped?
  }

  /** How many requests of the run were counted in the total but in neither part when the total was loaded. */
  ghost function OpenAtTotal(s: State, ls: seq<Step>): nat
    decreases |ls|
  {
    if ls == [] || !Enabled(s, ls[0]) then 0
    else if ls[0].Read? && s.reader.ModelsDone? then |Unsplit(s.writers)|
    else OpenAtTotal(Next(s, ls[0]), ls[1..])
  }

  /** The step adds to a part that is loaded only later, when the total has been loaded already. */
  ghost predicate AddsLate(s: State, l: Step) {
    && l.Write? && l.t in s.writers && s.writers[l.t].Bumped?
    && (s.reader.TotalDone? || (s.reader.StreamDone? && !s.writers[l.t].isStream))
  }

  ghost function LateAdditions(s: State, ls: seq<Step>): nat
    decreases |ls|
  {
    if ls == [] || !Enabled(s, ls[0]) then 0
    else (if AddsLate(s, ls[0]) then 1 else 0) + LateAdditions(Next(s, ls[0]), ls[1..])
  }

  /** By how much the parts of a record exceed its total. */
  ghost function Excess(s: State): int {
    s.stream + s.nonStream - s.total
  }

  lemma UnsplitChange(w: map<Tid, Writer>, t: Tid, x: Writer)
    ensures Unsplit(w[t := x]) == if x.Bumped? then Unsplit(w) + {t} else Unsplit(w) - {t}
    ensures Unsplit(w - {t}) == Unsplit(w) - {t}
  {
  }

  /** The excess of a record, counting the requests that still owe a part as if they had added it. */
  ghost function Settled(s: State): int {
    Excess(s) + |Unsplit(s.writers)|
  }

  lemma SettledStart(s: State, t: Tid, model: string, isStream: bool)
    requires t !in s.writers
    ensures Settled(Next(s, Start(t, model, isStream))) == Settled(s)
  {
    UnsplitChange(s.writers, t, Bumped(model, isStream));
    assert t !in Unsplit(s.writers);
  }

  lemma SettledWrite(s: State, t: Tid)
    requires Enabled(s, Write(t))
    ensures Settled(Written(s, t)) == Settled(s)
  {
    var w, model := s.writers, s.writers[t].model;
    if w[t].Bumped? {
      UnsplitChange(w, t, Split(model));
      assert t in Unsplit(w);
    } else {
      UnsplitChange(w, t, Ready(model));
      assert Unsplit(w[t := Ready(model)]) == Unsplit(w) && Unsplit(w - {t}) == Unsplit(w);
    }
  }

  /** Every step of every interleaving keeps it. */
  lemma SettledStep(s: State, l: Step)
    requires Enabled(s, l)
    ensures Settled(Next(s, l)) == Settled(s)
  {
    match l {
      case Start(t, model, isStream) => SettledStart(s, t, model, isStream);
      case Write(t) => SettledWrite(s, t);
      case Read(_) =>
    }
  }

  /** From the load of the total on, the parts grow by the late additions alone. */
  lemma {:induction false} PartsAfterTotal(s: State, ls: seq<Step>, s': State)
    requires Runs(s, ls, s') && s'.reader.Done? && (s.reader.TotalDone? || s.reader.StreamDone? || s.reader.Done?)
    ensures s'.reader.total == s.reader.total
    ensures s'.reader.stream + s'.reader.nonStream == LateAdditions(s, ls) +
      match s.reader
      case TotalDone(_, _) => s.stream + s.nonStream
      case StreamDone(_, _, stream) => stream + s.nonStream
      case Done(_, _, stream, nonStream) => stream + nonStream
    decreases |ls|
  {
    if ls != [] {
      PartsAfterTotal(Next(s, ls[0]), ls[1..], s');
    }
  }

  lemma {:induction false} PartsBeforeTotal(s: State, ls: seq<Step>, s': State)
    requires Runs(s, ls, s') && s'.reader.Done? && (s.reader.Idle? || s.reader.Models? || s.reader.ModelsDone?)
    ensures s'.reader.stream + s'.reader.nonStream - s'.reader.total
         == Settled(s) + LateAdditions(s, ls) - OpenAtTotal(s, ls)
    decreases |ls|
  {
    if ls != [] {
      SettledStep(s, ls[0]);
      if ls[0].Read? && s.reader.ModelsDone? {
        PartsAfterTotal(Next(s, ls[0]), ls[1..], s');
      } else {
        PartsBeforeTotal(Next(s, ls[0]), ls[1..], s');
      }
    }
  }

  /**
   The stream and non-stream counts are loaded after the total. From any record at rest, a snapshot's
   parts exceed its total by what the record's did, plus the late additions of the run, less
   the requests open when the total was loaded; so they stay within it exactly when that is not positive.
   */
  lemma PartsExceedTotalExactlyWhen(s: State, ls: seq<Step>, s': State)
    requires AtRest(s) && Runs(s, ls, s') && s'.reader.Done?
    ensures Excess(RestoredRecord(s'.reader)) == Excess(s) + LateAdditions(s, ls) - OpenAtTotal(s, ls)
    ensures s'.reader.stream + s'.reader.nonStream <= s'.reader.total
       <==> LateAdditions(s, ls) + Excess(s) <= OpenAtTotal(s, ls)
  {
    assert Unsplit(s.writers) == {};
    PartsBeforeTotal(s, ls, s');
  }

  /** What a snapshot has loaded while nothing moves. */
  ghost predicate LoadedSoFar(s: State) {
    match s.reader
    case Idle => true
    case Models(todo, got) => todo <= s.models.Keys && got == s.models - todo
    case ModelsDone(got) => got == s.models
    case TotalDone(got, total) => got == s.models && total == s.total
    case StreamDone(got, total, stream) => got == s.models && total == s.total && stream == s.stream
    case Done(got, total, stream, nonStream) => s.reader == Done(s.models, s.total, s.stream, s.nonStream)
  }

  lemma {:induction false} NothingMoves(s: State, ls: seq<Step>, s': State)
    requires s.writers == map[] && LoadedSoFar(s) && Runs(s, ls, s') && (forall i :: 0 <= i < |ls| ==> !ls[i].Start?)
    ensures LoadedSoFar(s') && s' == s.(reader := s'.reader)
    decreases |ls|
  {
    if ls != [] {
      var next := Next(s, ls[0]);
      if s.reader.Models? && next.reader.Models? && next != s {
        assert s.models - (s.reader.todo - {ls[0].model})
          == (s.models - s.reader.todo)[ls[0].model := s.models[ls[0].model]];
      }
      NothingMoves(next, ls[1..], s');
    }
  }

  /** With no request in flight a snapshot is the record as it stands, and restoring it loses nothing. */
  lemma QuietSnapshotIsExact(s: State, ls: seq<Step>, s': State)
    requires AtRest(s) && Runs(s, ls, s') && s'.reader.Done? && (forall i :: 0 <= i < |ls| ==> !ls[i].Start?)
    ensures s'.reader == Done(s.models, s.total, s.stream, s.nonStream) && RestoredRecord(s'.reader) == s
  {
    NothingMoves(s, ls, s');
  }

  /** A run that breaks the parts: one request starts and is counted between the loads of the total and of its parts. */
  lemma PartsCanExceedTotal() returns (s: State, ls: seq<Step>, s': State)
    ensures AtRest(s) && Excess(s) == 0 && Runs(s, ls, s')
    ensures s'.reader.Done? && s'.reader.stream + s'.reader.nonStream > s'.reader.total
  {
    s := State(0, 0, 0, map[], map[], Idle);
    s' := State(1, 1, 0, map[], map[0 := Split("")], Done(map[], 0, 1, 0));
    var m := State(1, 0, 0, map[], map[0 := Bumped("", true)], TotalDone(map[], 0));
    var first := StateAfterTotal(s, m);
    var last := StateAfterParts(m, s');
    RunsAppend(s, first, m, last, s');
    ls := first + last;
  }

  lemma StateAfterTotal(s: State, m: State) returns (ls: seq<Step>)
    requires s == State(0, 0, 0, map[], map[], Idle)
    requires m == State(1, 0, 0, map[], map[0 := Bumped("", true)], TotalDone(map[], 0))
    ensures Runs(s, ls, m)
  {
    var s1 := Next(s, Read(""));
    var s2 := Next(s1, Read(""));
    var s3 := Next(s2, Read(""));
    assert Next(s3, Start(0, "", true)) == m;
    assert Runs(m, [], m);
    ls := RunsCons(s3, Start(0, "", true), [], m);
    ls := RunsCons(s2, Read(""), ls, m);
    ls := RunsCons(s1, Read(""), ls, m);
    ls := RunsCons(s, Read(""), ls, m);
  }

  lemma StateAfterParts(m: State, s': State) returns (ls: seq<Step>)
    requires m == State(1, 0, 0, map[], map[0 := Bumped("", true)], TotalDone(map[], 0))
    requires s' == State(1, 1, 0, map[], map[0 := Split("")], Done(map[], 0, 1, 0))
    ensures Runs(m, ls, s')
  {
    var m1 := Next(m, Write(0));
    var m2 := Next(m1, Read(""));
    assert Next(m2, Read("")) == s';
    assert Runs(s', [], s');
    ls := RunsCons(m2, Read(""), [], s');
    ls := RunsCons(m1, Read(""), ls, s');
    ls := RunsCons(m, Write(0), ls, s');
  }

  lemma RunsCons(s: State, l: Step, ls: seq<Step>, s': State) returns (r: seq<Step>)
    requires Enabled(s, l) && Runs(Next(s, l), ls, s')
    ensures Runs(s, r, s')
  {
    r := [l] + ls;
    assert r[1..] == ls;
  }

  lemma {:induction false} RunsAppend(s: State, a: seq<Step>, m: State, b: seq<Step>, s': State)
    requires Runs(s, a, m) && Runs(m, b, s')
    ensures Runs(s, a + b, s')
    decreases |a|
  {
    if a == [] {
      assert a + b == b;
    } else {
      assert (a + b)[1..] == a[1..] + b;
      RunsAppend(Next(s, a[0]), a[1..], m, b, s');
    }
  }
}
