/**
 The polling watcher of internal/config/watcher.go: a stat and a load that file writes may
 come between. Parsing is a parameter that may fail; the zero time is None.
 */
module Watcher {
  import opened Common

  datatype File = File(content: string, mtime: int)

  /** What the watcher holds between its own steps; statted is set between a stat and its load. */
  datatype Watch<C> = Watch(lastMod: Option<int>, current: Option<C>, statted: Option<int>)

  predicate Newer(mtime: int, than: Option<int>) {
    than.None? || mtime > than.value
  }

  function Stat<C>(w: Watch<C>, file: Option<File>): Watch<C> {
    if file.Some? && Newer(file.value.mtime, w.lastMod) then w.(statted := Some(file.value.mtime)) else w
  }

  function Loaded<C>(parse: string -> Option<C>, file: Option<File>): Option<C> {
    if file.Some? then parse(file.value.content) else None
  }

  function Load<C>(parse: string -> Option<C>, w: Watch<C>, file: Option<File>): Watch<C> {
    if w.statted.None? then w
    else match Loaded(parse, file)
      case Some(cfg) => Watch(w.statted, Some(cfg), None)
      case None => w.(statted := None)
  }

  // ----- The watcher as written -----

  class Watcher<C> {
    const parse: string -> Option<C>
    var lastMod: Option<int>
    /** The configurations passed to onChange, oldest first. */
    var delivered: seq<C>

    constructor (parse: string -> Option<C>)
      ensures this.parse == parse && lastMod.None? && delivered == []
    {
      this.parse := parse;
      lastMod, delivered := None, [];
    }

    /** The watcher's state, for a program that started with the configuration initial. */
    ghost function View(initial: Option<C>): Watch<C>
      reads this
    {
      Watch(lastMod, if delivered == [] then initial else Some(delivered[|delivered| - 1]), None)
    }

    method Start(file: Option<File>)
      requires lastMod.None?
      modifies this
      ensures lastMod == if file.Some? then Some(file.value.mtime) else None
      ensures delivered == old(delivered)
    {
      if file.Some? {
        lastMod := Some(file.value.mtime);
      }
    }

    /** The first half of a check: the file's time, if it calls for a load. */
    method Look(file: Option<File>) returns (mtime: Option<int>)
      ensures forall w: Watch<C> :: w.lastMod == lastMod && w.statted.None? ==> Stat(w, file).statted == mtime
    {
      if file.None? {
        return None;
      }
      if lastMod.Some? && file.value.mtime <= lastMod.value {
        return None;
      }
      mtime := Some(file.value.mtime);
    }

    /** The second half: load, and deliver what loads. */
    method Reload(mtime: int, file: Option<File>, ghost initial: Option<C>)
      modifies this
      ensures View(initial) == Load(parse, old(View(initial)).(statted := Some(mtime)), file)
      ensures |old(delivered)| <= |delivered| <= |old(delivered)| + 1 && old(delivered) <= delivered
    {
      if file.None? {
        return;
      }
      var cfg := parse(file.value.content);
      if cfg.None? {
        return;
      }
      lastMod := Some(mtime);
      delivered := delivered + [cfg.value];
    }

    /** One check; the file may change between its stat and its load. */
    method Check(atStat: Option<File>, atLoad: Option<File>, ghost initial: Option<C>)
      modifies this
      ensures View(initial) == Load(parse, Stat(old(View(initial)), atStat), atLoad)
      ensures |old(delivered)| <= |delivered| <= |old(delivered)| + 1 && old(delivered) <= delivered
    {
      var mtime := Look(atStat);
      assert Stat(View(initial), atStat).statted == mtime;
      if mtime.Some? {
        Reload(mtime.value, atLoad, initial);
      }
    }
  }

  // ----- Runs -----

  datatype State<C> = State(file: Option<File>, clock: int, watch: Watch<C>)

  datatype Step = WriteFile(content: string, mtime: int) | RemoveFile | StatFile | LoadFile

  /** Each write has a later modification time than any before; a load follows its stat. */
  ghost predicate Enabled<C>(s: State<C>, step: Step) {
    match step
    case WriteFile(_, mtime) => mtime > s.clock
    case RemoveFile => true
    case StatFile => s.watch.statted.None?
    case LoadFile => s.watch.statted.Some?
  }

  ghost function Next<C>(parse: string -> Option<C>, s: State<C>, step: Step): State<C> {
    match step
    case WriteFile(content, mtime) => s.(file := Some(File(content, mtime)), clock := mtime)
    case RemoveFile => s.(file := None)
    case StatFile => s.(watch := Stat(s.watch, s.file))
    case LoadFile => s.(watch := Load(parse, s.watch, s.file))
  }

  /** Start records the time of the file, if there is one. */
  ghost function Started<C>(s: State<C>): State<C> {
    s.(watch := s.watch.(lastMod := if s.file.Some? then Some(s.file.value.mtime) else s.watch.lastMod))
  }

  ghost function After<C>(parse: string -> Option<C>, s: State<C>, steps: seq<Step>): State<C> {
    if steps == [] then s else Next(parse, After(parse, s, steps[..|steps| - 1]), steps[|steps| - 1])
  }

  ghost predicate Run<C>(parse: string -> Option<C>, s: State<C>, steps: seq<Step>) {
    steps != [] ==>
      && Run(parse, s, steps[..|steps| - 1])
      && Enabled(After(parse, s, steps[..|steps| - 1]), steps[|steps| - 1])
  }

  /** The configuration in use is what the file holds now. */
  ghost predicate UpToDate<C>(parse: string -> Option<C>, s: State<C>) {
    s.file.Some? ==> s.watch.current == parse(s.file.value.content)
  }

  /** Before Start: no time recorded, no check under way. Whether the file is the one in use is open. */
  ghost predicate Unstarted<C>(s: State<C>) {
    && s.watch.lastMod.None? && s.watch.statted.None?
    && (s.file.Some? ==> s.file.value.mtime <= s.clock)
  }

  /** The file has been loaded, and nothing wrote it before Start recorded its time. */
  ghost predicate Initial<C>(parse: string -> Option<C>, s: State<C>) {
    Unstarted(s) && UpToDate(parse, s)
  }

  /** The watcher's methods, called at the steps of any run, leave the run's configuration in use. */
  method Drive<C>(parse: string -> Option<C>, s: State<C>, steps: seq<Step>) returns (current: Option<C>)
    requires Unstarted(s) && Run(parse, Started(s), steps)
    ensures current == After(parse, Started(s), steps).watch.current
  {
    var w := new Watcher<C>(parse);
    w.Start(s.file);
    var file := s.file;
    var pending: Option<int> := None;
    ghost var initial := s.watch.current;
    for n := 0 to |steps|
      invariant fresh(w) && w.parse == parse && Run(parse, Started(s), steps[..n])
      invariant file == After(parse, Started(s), steps[..n]).file
      invariant w.View(initial).(statted := pending) == After(parse, Started(s), steps[..n]).watch
    {
      RunPrefix(parse, Started(s), steps, n);
      assert steps[..n + 1][..n] == steps[..n];
      match steps[n] {
        case WriteFile(content, mtime) => {
          file := Some(File(content, mtime));
        }
        case RemoveFile => {
          file := None;
        }
        case StatFile => {
          pending := w.Look(file);
          assert Stat(w.View(initial), file).statted == pending;
        }
        case LoadFile => {
          w.Reload(pending.value, file, initial);
          pending := None;
        }
      }
    }
    assert steps[..|steps|] == steps;
    current := if w.delivered == [] then s.watch.current else Some(w.delivered[|w.delivered| - 1]);
  }

  lemma {:induction false} RunPrefix<C>(parse: string -> Option<C>, s: State<C>, steps: seq<Step>, n: nat)
    requires Run(parse, s, steps) && n < |steps|
    ensures Run(parse, s, steps[..n + 1]) && Enabled(After(parse, s, steps[..n]), steps[n])
    decreases |steps|
  {
    if n + 1 == |steps| {
      assert steps[..n + 1] == steps;
    } else {
      var before := steps[..|steps| - 1];
      RunPrefix(parse, s, before, n);
      assert before[..n + 1] == steps[..n + 1] && before[..n] == steps[..n];
    }
  }

  // ----- Which updates are lost -----

  ghost predicate Clocked<C>(s: State<C>) {
    && (s.file.Some? ==> s.file.value.mtime <= s.clock)
    && (s.watch.lastMod.Some? ==> s.watch.lastMod.value <= s.clock)
    && (s.watch.statted.Some? ==> Newer(s.watch.statted.value, s.watch.lastMod) && s.watch.statted.value <= s.clock)
    && (s.file.Some? && s.watch.statted.Some? ==> s.watch.statted.value <= s.file.value.mtime)
  }

  /**
   As long as the file is the one Start saw, nothing has happened. Any other is newer than that, and
   in use once it is no newer than the recorded time.
   */
  ghost predicate Inv<C>(parse: string -> Option<C>, s: State<C>, t: State<C>) {
    && Clocked(t) && s.clock <= t.clock
    && (s.file.Some? && t.file == s.file ==> t.watch == Started(s).watch)
    && (t.file.Some? && t.file != s.file && !Newer(t.file.value.mtime, t.watch.lastMod) ==> UpToDate(parse, t))
  }

  lemma {:induction false} RunInv<C>(parse: string -> Option<C>, s: State<C>, steps: seq<Step>)
    requires Unstarted(s) && Run(parse, Started(s), steps)
    ensures Inv(parse, s, After(parse, Started(s), steps))
    decreases |steps|
  {
    if steps != [] {
      RunInv(parse, s, steps[..|steps| - 1]);
    }
  }

  /** One check with no write between its stat and its load, or around it. */
  ghost function Checked<C>(parse: string -> Option<C>, s: State<C>): State<C> {
    var statted := Next(parse, s, StatFile);
    if statted.watch.statted.Some? then Next(parse, statted, LoadFile) else statted
  }

  /** With any modification times, a check brings content in exactly when it looks newer, or is in use. */
  lemma CheckTakesNewer<C>(parse: string -> Option<C>, s: State<C>)
    requires s.watch.statted.None? && Loaded(parse, s.file).Some?
    ensures Checked(parse, s).watch.current == Loaded(parse, s.file)
      <==> Newer(s.file.value.mtime, s.watch.lastMod) || s.watch.current == Loaded(parse, s.file)
  {
  }

  /**
   However writes and removals interleave with stats and loads, a check with no concurrent write
   leaves loadable content in use, unless the file is still the one Start saw and that one was
   not the one in use: exactly then an update is lost.
   */
  lemma CheckedExactlyWhen<C>(parse: string -> Option<C>, s: State<C>, steps: seq<Step>)
    requires Unstarted(s) && Run(parse, Started(s), steps)
    requires var t := After(parse, Started(s), steps); t.watch.statted.None? && Loaded(parse, t.file).Some?
    ensures var t := After(parse, Started(s), steps);
      Checked(parse, t).watch.current == Loaded(parse, t.file)
      <==> (t.file == s.file ==> s.watch.current == Loaded(parse, s.file))
  {
    RunInv(parse, s, steps);
    CheckTakesNewer(parse, After(parse, Started(s), steps));
  }

  /**
   No update is lost when nothing wrote the file before Start: after a check with no concurrent
   write the configuration in use is the file's content, or that content does not load and the
   configuration is the one before.
   */
  lemma NoLostUpdate<C>(parse: string -> Option<C>, s: State<C>, steps: seq<Step>)
    requires Initial(parse, s) && Run(parse, Started(s), steps)
    requires After(parse, Started(s), steps).watch.statted.None?
    ensures var t := After(parse, Started(s), steps);
      Checked(parse, t).watch.current == if Loaded(parse, t.file).Some? then Loaded(parse, t.file) else t.watch.current
  {
    var t := After(parse, Started(s), steps);
    if Loaded(parse, t.file).Some? {
      CheckedExactlyWhen(parse, s, steps);
    }
  }

  /** A write between the initial load and Start is lost for as long as the file stays as written. */
  lemma WriteBeforeStartIsLost<C>(parse: string -> Option<C>, s: State<C>, content: string, mtime: int,
                                  steps: seq<Step>)
    requires Initial(parse, s) && mtime > s.clock
    requires var w := Next(parse, s, WriteFile(content, mtime));
      Run(parse, Started(w), steps) && After(parse, Started(w), steps).file == w.file
    ensures var w := Next(parse, s, WriteFile(content, mtime));
      After(parse, Started(w), steps).watch == Started(w).watch
      && Checked(parse, After(parse, Started(w), steps)).watch.current == s.watch.current
  {
    RunInv(parse, Next(parse, s, WriteFile(content, mtime)), steps);
  }
}
