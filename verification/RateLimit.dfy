/**
 internal/plugin/builtin/ratelimit/ratelimit.go: per-app-key, per-IP and global buckets, and
 the cleanup sweep. Inserting sweeps anywhere in a run changes no admit or deny decision.
 */
module RateLimit {
  import opened Common
  import opened TokenBucket

  const APP_KEY_PREFIX := "appkey:"
  const IP_PREFIX := "ip:"
  const IDLE: real := 10.0 * MINUTE

  /** Configuration after Init; appKeyRPM 0 means "fall back to rpm". */
  datatype Config = Config(rpm: nat, perIP: bool, perAppKey: bool, appKeyRPM: nat, appKeyLimits: map<string, nat>)

  /** A request: its app key, if metadata carries one, and its resolved client address. */
  datatype Request = Request(appKey: Option<string>, clientIP: string)

  function ResolveAppKeyRPM(cfg: Config, appKey: string): nat {
    if appKey in cfg.appKeyLimits then cfg.appKeyLimits[appKey]
    else if cfg.appKeyRPM > 0 then cfg.appKeyRPM
    else cfg.rpm
  }

  predicate UsesAppKey(cfg: Config, req: Request) {
    cfg.perAppKey && req.appKey.Some? && req.appKey.value != ""
  }

  /** The bucket a request falls in; None is the global one. */
  function BucketKey(cfg: Config, req: Request): Option<string> {
    if UsesAppKey(cfg, req) then Some(APP_KEY_PREFIX + req.appKey.value)
    else if cfg.perIP then Some(IP_PREFIX + req.clientIP)
    else None
  }

  function RequestRPM(cfg: Config, req: Request): nat {
    if UsesAppKey(cfg, req) then ResolveAppKeyRPM(cfg, req.appKey.value) else cfg.rpm
  }

  /** The rate of a bucket is a function of its key alone. */
  function KeyRPM(cfg: Config, key: string): nat {
    if APP_KEY_PREFIX <= key then ResolveAppKeyRPM(cfg, key[|APP_KEY_PREFIX|..]) else cfg.rpm
  }

  lemma KeyFixesRate(cfg: Config, req: Request)
    requires BucketKey(cfg, req).Some?
    ensures RequestRPM(cfg, req) == KeyRPM(cfg, BucketKey(cfg, req).value)
  {
    var key := BucketKey(cfg, req).value;
    if UsesAppKey(cfg, req) {
      assert key[|APP_KEY_PREFIX|..] == req.appKey.value;
      assert key[..|APP_KEY_PREFIX|] == APP_KEY_PREFIX;
    } else {
      assert key[0] == 'i';
    }
  }

  // ----- The limiter on values -----

  datatype Limiter = Limiter(buckets: map<string, Level>, global: Option<Level>)

  const EMPTY := Limiter(map[], None)

  /** The level a request is judged by: its bucket's, or a full one on first use. */
  function Chosen(cfg: Config, s: Limiter, req: Request, now: real): Level {
    match BucketKey(cfg, req)
    case Some(key) => if key in s.buckets then s.buckets[key] else Full(RequestRPM(cfg, req), now)
    case None => if s.global.Some? then s.global.value else Full(RequestRPM(cfg, req), now)
  }

  function Put(cfg: Config, s: Limiter, req: Request, b: Level): Limiter {
    match BucketKey(cfg, req)
    case Some(key) => s.(buckets := s.buckets[key := b])
    case None => s.(global := Some(b))
  }

  lemma PutTwice(cfg: Config, s: Limiter, req: Request, a: Level, b: Level)
    ensures Put(cfg, Put(cfg, s, req, a), req, b) == Put(cfg, s, req, b)
  {
    match BucketKey(cfg, req)
    case Some(key) =>
      assert s.buckets[key := a][key := b] == s.buckets[key := b];
    case None =>
  }

  function PreHTTP(cfg: Config, s: Limiter, req: Request, now: real): (Limiter, bool) {
    var (b, ok) := Allow(Chosen(cfg, s, req, now), now);
    (Put(cfg, s, req, b), ok)
  }

  predicate Idle(b: Level, now: real) {
    now - b.lastFill > IDLE
  }

  function Sweep(s: Limiter, now: real): Limiter {
    s.(buckets := map k | k in s.buckets && !Idle(s.buckets[k], now) :: s.buckets[k])
  }

  /**
   Init makes the global bucket ahead of its first use. A bucket that was full at any earlier
   time acts as one made on first use, so runs below start with none.
   */
  lemma PrecreatedIsFresh(rpm: nat, created: real, now: real)
    requires created <= now
    ensures Allow(Full(rpm, created), now) == Allow(Full(rpm, now), now)
  {
    GainGrows(Rate(rpm), created, now);
  }

  // ----- The limiter in memory -----

  class Plugin {
    const cfg: Config
    var buckets: map<string, Bucket>
    var global: Bucket?

    /** Every bucket is an object of its own. */
    ghost predicate Valid()
      reads this
    {
      && (forall j, k :: j in buckets && k in buckets && j != k ==> buckets[j] != buckets[k])
      && (forall k :: k in buckets ==> buckets[k] != global)
    }

    ghost function View(): Limiter
      reads this, buckets.Values, global
    {
      Limiter(map k | k in buckets :: buckets[k].View(), if global == null then None else Some(global.View()))
    }

    constructor (cfg: Config)
      ensures Valid() && View() == EMPTY && this.cfg == cfg
      ensures buckets == map[] && global == null
    {
      this.cfg, buckets, global := cfg, map[], null;
    }

    /** The object a request's key leads to. */
    ghost predicate Leads(req: Request, b: Bucket)
      reads this
    {
      match BucketKey(cfg, req)
      case Some(key) => key in buckets && buckets[key] == b
      case None => global == b
    }

    /** getBucket: the request's bucket, created full on first use. */
    method GetBucket(req: Request, now: real) returns (b: Bucket)
      requires Valid()
      modifies this
      ensures Valid() && Leads(req, b)
      ensures b.View() == Chosen(cfg, old(View()), req, now)
      ensures View() == Put(cfg, old(View()), req, b.View())
      ensures fresh(b) || b in old(buckets.Values) || b == old(global)
      ensures forall k :: k in buckets ==> buckets[k] in old(buckets.Values) || fresh(buckets[k])
      ensures global != null ==> global == old(global) || fresh(global)
    {
      match BucketKey(cfg, req)
      case Some(key) =>
        ghost var s := View();
        if key !in buckets {
          b := new Bucket(RequestRPM(cfg, req), now);
          buckets := buckets[key := b];
        }
        b := buckets[key];
        assert View().buckets == s.buckets[key := b.View()];
      case None =>
        if global == null {
          global := new Bucket(cfg.rpm, now);
        }
        b := global;
    }

    /** A token is taken from the request's own bucket; the others stay as they are. */
    method TakeFrom(b: Bucket, req: Request, now: real) returns (ok: bool)
      requires Valid() && Leads(req, b)
      modifies b
      ensures (b.View(), ok) == Allow(old(b.View()), now)
      ensures View() == Put(cfg, old(View()), req, b.View())
    {
      ok := b.TryTake(now);
      match BucketKey(cfg, req)
      case Some(key) =>
        assert View().buckets == old(View()).buckets[key := b.View()];
      case None =>
        assert View().buckets == old(View()).buckets;
    }

    method Admit(req: Request, now: real) returns (ok: bool)
      requires Valid()
      modifies this, buckets.Values, global
      ensures Valid()
      ensures (View(), ok) == PreHTTP(cfg, old(View()), req, now)
      ensures forall k :: k in buckets ==> buckets[k] in old(buckets.Values) || fresh(buckets[k])
      ensures global != null ==> global == old(global) || fresh(global)
    {
      var b := GetBucket(req, now);
      ghost var chosen := b.View();
      ok := TakeFrom(b, req, now);
      PutTwice(cfg, old(View()), req, chosen, b.View());
    }

    /** The body of cleanupLoop's tick. */
    method Cleanup(now: real)
      requires Valid()
      modifies this
      ensures Valid() && View() == Sweep(old(View()), now)
      ensures global == old(global) && forall k :: k in buckets ==> buckets[k] in old(buckets.Values)
    {
      var todo := buckets.Keys;
      ghost var s := View();
      while todo != {}
        invariant Valid() && global == old(global) && todo <= old(buckets).Keys
        invariant forall k :: k in buckets ==> k in old(buckets) && buckets[k] == old(buckets)[k]
        invariant forall k :: k in old(buckets) ==> (k in buckets <==> k in todo || !Idle(s.buckets[k], now))
        decreases todo
      {
        var key :| key in todo;
        if now - buckets[key].lastFill > IDLE {
          buckets := buckets - {key};
        }
        todo := todo - {key};
      }
      assert View().buckets == Sweep(s, now).buckets;
    }
  }

  // ----- Runs -----

  datatype Event = Req(req: Request, at: real) | Tick(at: real)

  ghost function StateAfter(cfg: Config, run: seq<Event>): Limiter {
    if run == [] then EMPTY
    else
      var s := StateAfter(cfg, run[..|run| - 1]);
      match run[|run| - 1]
      case Req(req, at) => PreHTTP(cfg, s, req, at).0
      case Tick(at) => Sweep(s, at)
  }

  ghost predicate Decision(cfg: Config, run: seq<Event>, req: Request, now: real) {
    PreHTTP(cfg, StateAfter(cfg, run), req, now).1
  }

  ghost function Decisions(cfg: Config, run: seq<Event>): seq<bool> {
    if run == [] then []
    else
      var before, e := run[..|run| - 1], run[|run| - 1];
      Decisions(cfg, before) + if e.Req? then [Decision(cfg, before, e.req, e.at)] else []
  }

  /** A limiter driven through any run of requests and sweeps decides as the values do. */
  method Drive(cfg: Config, run: seq<Event>) returns (decisions: seq<bool>)
    ensures decisions == Decisions(cfg, run)
  {
    var p := new Plugin(cfg);
    decisions := [];
    for n := 0 to |run|
      invariant fresh(p) && p.Valid() && p.cfg == cfg
      invariant forall k :: k in p.buckets ==> fresh(p.buckets[k])
      invariant p.global != null ==> fresh(p.global)
      invariant p.View() == StateAfter(cfg, run[..n]) && decisions == Decisions(cfg, run[..n])
    {
      assert run[..n + 1][..n] == run[..n];
      match run[n] {
        case Req(req, at) => {
          var ok := p.Admit(req, at);
          decisions := decisions + [ok];
        }
        case Tick(at) => {
          p.Cleanup(at);
        }
      }
    }
    assert run[..|run|] == run;
  }

  ghost function WithoutTicks(run: seq<Event>): seq<Event> {
    if run == [] then []
    else WithoutTicks(run[..|run| - 1]) + if run[|run| - 1].Req? then [run[|run| - 1]] else []
  }

  /** The clock never runs backwards. */
  ghost predicate Ordered(run: seq<Event>) {
    forall i, j :: 0 <= i < j < |run| ==> run[i].at <= run[j].at
  }

  /** A bucket of the given rate, last used no later than now. */
  ghost predicate Sound(b: Level, rpm: nat, now: real) {
    b.max == rpm as real && b.refillPer == Rate(rpm) && b.tokens >= 0.0 && b.lastFill <= now
  }

  lemma AllowKeepsSound(b: Level, rpm: nat, now: real)
    requires Sound(b, rpm, now)
    ensures Sound(Allow(b, now).0, rpm, now)
  {
    GainGrows(Rate(rpm), b.lastFill, now);
  }

  /** At its next use, a bucket idle for over ten minutes behaves as a fresh one. */
  lemma IdleIsFresh(b: Level, rpm: nat, now: real)
    requires Sound(b, rpm, now) && Idle(b, now)
    ensures Allow(b, now) == Allow(Full(rpm, now), now)
  {
    GainAdds(Rate(rpm), b.lastFill, b.lastFill + IDLE, now);
    GainGrows(Rate(rpm), b.lastFill + IDLE, now);
    assert Gain(Rate(rpm), b.lastFill, b.lastFill + IDLE) == IDLE * Rate(rpm) == 10.0 * rpm as real;
    assert Refilled(b, now) == rpm as real;
  }

  /** s is t with some idle buckets swept away. */
  ghost predicate Swept(cfg: Config, s: Limiter, t: Limiter, now: real) {
    && s.global == t.global
    && (forall k :: k in s.buckets ==> k in t.buckets && s.buckets[k] == t.buckets[k])
    && (forall k :: k in t.buckets ==> Sound(t.buckets[k], KeyRPM(cfg, k), now))
    && (forall k :: k in t.buckets && k !in s.buckets ==> Idle(t.buckets[k], now))
  }

  /** The bucket a request is judged by acts the same whether or not it was swept. */
  lemma SameLevel(cfg: Config, s: Limiter, t: Limiter, from: real, req: Request, now: real)
    requires Swept(cfg, s, t, from) && from <= now
    ensures Allow(Chosen(cfg, s, req, now), now) == Allow(Chosen(cfg, t, req, now), now)
    ensures BucketKey(cfg, req).Some? ==> Sound(Allow(Chosen(cfg, t, req, now), now).0, RequestRPM(cfg, req), now)
  {
    if BucketKey(cfg, req).Some? {
      var key, rpm := BucketKey(cfg, req).value, RequestRPM(cfg, req);
      KeyFixesRate(cfg, req);
      AllowKeepsSound(Chosen(cfg, t, req, now), rpm, now);
      if key in t.buckets && key !in s.buckets {
        IdleIsFresh(t.buckets[key], rpm, now);
      }
    }
  }

  lemma SameDecision(cfg: Config, s: Limiter, t: Limiter, from: real, req: Request, now: real)
    requires Swept(cfg, s, t, from) && from <= now
    ensures PreHTTP(cfg, s, req, now).1 == PreHTTP(cfg, t, req, now).1
    ensures Swept(cfg, PreHTTP(cfg, s, req, now).0, PreHTTP(cfg, t, req, now).0, now)
  {
    SameLevel(cfg, s, t, from, req, now);
    if BucketKey(cfg, req).Some? { KeyFixesRate(cfg, req); }
  }

  ghost predicate NotBefore(run: seq<Event>, now: real) {
    forall i :: 0 <= i < |run| ==> run[i].at <= now
  }

  lemma {:induction false} SweptRuns(cfg: Config, run: seq<Event>, now: real)
    requires Ordered(run) && NotBefore(run, now)
    ensures Swept(cfg, StateAfter(cfg, run), StateAfter(cfg, WithoutTicks(run)), now)
    ensures Decisions(cfg, run) == Decisions(cfg, WithoutTicks(run))
  {
    if run != [] {
      var before, e := run[..|run| - 1], run[|run| - 1];
      SweptRuns(cfg, before, e.at);
      var kept := WithoutTicks(before);
      var s, t := StateAfter(cfg, before), StateAfter(cfg, kept);
      match e
      case Req(req, at) =>
        SameDecision(cfg, s, t, at, req, at);
        assert WithoutTicks(run)[..|kept|] == kept;
        SweptLater(cfg, StateAfter(cfg, run), StateAfter(cfg, WithoutTicks(run)), at, now);
      case Tick(at) =>
        assert WithoutTicks(run) == kept;
        SweptLater(cfg, Sweep(s, at), t, at, now);
    }
  }

  lemma SweptLater(cfg: Config, s: Limiter, t: Limiter, from: real, now: real)
    requires Swept(cfg, s, t, from) && from <= now
    ensures Swept(cfg, s, t, now)
  {
  }

  /** Sweeps at arbitrary points of any run leave every decision as it is without them. */
  lemma SweepsAreUnobservable(cfg: Config, run: seq<Event>)
    requires Ordered(run)
    ensures Decisions(cfg, run) == Decisions(cfg, WithoutTicks(run))
  {
    if run != [] {
      SweptRuns(cfg, run, run[|run| - 1].at);
    }
  }

  // ----- Each key is limited by itself -----

  /** The times of the run's requests that fall in one bucket. */
  ghost function TimesOf(cfg: Config, run: seq<Event>, key: Option<string>): seq<real> {
    if run == [] then []
    else
      var e := run[|run| - 1];
      TimesOf(cfg, run[..|run| - 1], key) + if e.Req? && BucketKey(cfg, e.req) == key then [e.at] else []
  }

  ghost function RateOf(cfg: Config, key: Option<string>): nat {
    if key.Some? then KeyRPM(cfg, key.value) else cfg.rpm
  }

  ghost function LevelOf(s: Limiter, key: Option<string>): Option<Level> {
    match key
    case Some(k) => if k in s.buckets then Some(s.buckets[k]) else None
    case None => s.global
  }

  lemma {:induction false} TicksHaveNoTimes(cfg: Config, run: seq<Event>, key: Option<string>)
    ensures TimesOf(cfg, WithoutTicks(run), key) == TimesOf(cfg, run, key)
  {
    if run != [] {
      var kept := WithoutTicks(run[..|run| - 1]);
      TicksHaveNoTimes(cfg, run[..|run| - 1], key);
      if run[|run| - 1].Req? { assert WithoutTicks(run)[..|kept|] == kept; } else { assert WithoutTicks(run) == kept; }
    }
  }

  lemma {:induction false} NoTicksLeft(run: seq<Event>)
    ensures forall i :: 0 <= i < |WithoutTicks(run)| ==> WithoutTicks(run)[i].Req?
  {
    if run != [] {
      NoTicksLeft(run[..|run| - 1]);
    }
  }

  lemma RateOfRequest(cfg: Config, req: Request)
    ensures RequestRPM(cfg, req) == RateOf(cfg, BucketKey(cfg, req))
  {
    if BucketKey(cfg, req).Some? { KeyFixesRate(cfg, req); }
  }

  /** The level of a bucket made on first use and used at the given times. */
  ghost function LevelUsedAt(rpm: nat, times: seq<real>): Option<Level> {
    if times == [] then None else Some(After(rpm, times[0], times))
  }

  lemma OwnRequest(cfg: Config, s: Limiter, req: Request, at: real, times: seq<real>)
    requires LevelOf(s, BucketKey(cfg, req)) == LevelUsedAt(RequestRPM(cfg, req), times)
    ensures LevelOf(PreHTTP(cfg, s, req, at).0, BucketKey(cfg, req)) == LevelUsedAt(RequestRPM(cfg, req), times + [at])
  {
    var rpm, all := RequestRPM(cfg, req), times + [at];
    assert all[..|all| - 1] == times && all[|all| - 1] == at;
    assert Chosen(cfg, s, req, at) == After(rpm, all[0], times);
    assert After(rpm, all[0], all) == Allow(After(rpm, all[0], times), at).0;
  }

  lemma OtherRequest(cfg: Config, s: Limiter, req: Request, at: real, key: Option<string>)
    requires BucketKey(cfg, req) != key
    ensures LevelOf(PreHTTP(cfg, s, req, at).0, key) == LevelOf(s, key)
  {
  }

  /** Without sweeps, a bucket's level is that of a bucket used at its own times only. */
  lemma {:induction false} Isolated(cfg: Config, run: seq<Event>, key: Option<string>)
    requires forall i :: 0 <= i < |run| ==> run[i].Req?
    ensures LevelOf(StateAfter(cfg, run), key) == LevelUsedAt(RateOf(cfg, key), TimesOf(cfg, run, key))
  {
    if run != [] {
      var before, e := run[..|run| - 1], run[|run| - 1];
      var was := TimesOf(cfg, before, key);
      Isolated(cfg, before, key);
      if BucketKey(cfg, e.req) == key {
        RateOfRequest(cfg, e.req);
        OwnRequest(cfg, StateAfter(cfg, before), e.req, e.at, was);
      } else {
        OtherRequest(cfg, StateAfter(cfg, before), e.req, e.at, key);
        assert TimesOf(cfg, run, key) == was + [];
        assert was + [] == was;
      }
    }
  }

  /**
   In any run, sweeps included, a request is admitted exactly when a bucket of its own rate
   that saw only the earlier requests with the same key would admit it.
   */
  lemma EachKeyIsLimitedByItself(cfg: Config, run: seq<Event>, req: Request, now: real)
    requires Ordered(run + [Req(req, now)])
    ensures var times := TimesOf(cfg, run, BucketKey(cfg, req));
      Decision(cfg, run, req, now) <==> Admits(RequestRPM(cfg, req), (times + [now])[0], times, now)
  {
    var all := run + [Req(req, now)];
    assert all[|run|].at == now && forall i :: 0 <= i < |run| ==> all[i] == run[i];
    var key, kept := BucketKey(cfg, req), WithoutTicks(run);
    RateOfRequest(cfg, req);
    SweptRuns(cfg, run, now);
    SameDecision(cfg, StateAfter(cfg, run), StateAfter(cfg, kept), now, req, now);
    NoTicksLeft(run);
    Isolated(cfg, kept, key);
    TicksHaveNoTimes(cfg, run, key);
  }

  /** How many of the run's requests in one bucket were admitted between lo and hi. */
  ghost function AdmittedFor(cfg: Config, run: seq<Event>, key: Option<string>, lo: real, hi: real): nat {
    if run == [] then 0
    else
      var before, e := run[..|run| - 1], run[|run| - 1];
      AdmittedFor(cfg, before, key, lo, hi)
      + if e.Req? && BucketKey(cfg, e.req) == key && lo <= e.at <= hi && Decision(cfg, before, e.req, e.at)
        then 1 else 0
  }

  lemma OrderedBefore(run: seq<Event>)
    requires run != [] && Ordered(run)
    ensures Ordered(run[..|run| - 1]) && run[..|run| - 1] + [run[|run| - 1]] == run
  {
    var before := run[..|run| - 1];
    assert forall i :: 0 <= i < |before| ==> before[i] == run[i];
  }

  ghost predicate Rising(times: seq<real>, last: real) {
    && (forall i :: 0 <= i < |times| ==> times[i] <= last)
    && (forall i, j :: 0 <= i < j < |times| ==> times[i] <= times[j])
  }

  lemma RisingMore(times: seq<real>, last: real, now: real)
    requires Rising(times, last) && last <= now
    ensures Rising(times, now) && Rising(times + [now], now)
  {
  }

  lemma {:induction false} TimesOrdered(cfg: Config, run: seq<Event>, key: Option<string>, now: real)
    requires Ordered(run) && (run != [] ==> run[|run| - 1].at <= now)
    ensures Rising(TimesOf(cfg, run, key), now)
    decreases |run|
  {
    if run != [] {
      var before, last := run[..|run| - 1], run[|run| - 1].at;
      OrderedBefore(run);
      if before != [] { assert before[|before| - 1] == run[|run| - 2]; }
      TimesOrdered(cfg, before, key, last);
      RisingMore(TimesOf(cfg, before, key), last, last);
      RisingMore(TimesOf(cfg, run, key), last, now);
    }
  }

  /** The admissions of one bucket in a run, sweeps included, are those of a bucket used at its own times. */
  lemma {:induction false} AdmittedByItself(cfg: Config, run: seq<Event>, key: Option<string>, lo: real, hi: real)
    requires Ordered(run)
    ensures var times := TimesOf(cfg, run, key);
      AdmittedFor(cfg, run, key, lo, hi)
      == if times == [] then 0 else AdmittedIn(RateOf(cfg, key), times[0], times, lo, hi)
  {
    if run != [] {
      var before, e := run[..|run| - 1], run[|run| - 1];
      OrderedBefore(run);
      AdmittedByItself(cfg, before, key, lo, hi);
      var was, times := TimesOf(cfg, before, key), TimesOf(cfg, run, key);
      if e.Req? && BucketKey(cfg, e.req) == key {
        EachKeyIsLimitedByItself(cfg, before, e.req, e.at);
        RateOfRequest(cfg, e.req);
        assert times[..|times| - 1] == was;
      } else {
        assert times == was;
      }
    }
  }

  /**
   In any run, sweeps included, no window of any bucket, wherever it starts and ends, admits more
   than the burst and the refill of that bucket's rate.
   */
  lemma NoKeyExceedsItsAllowance(cfg: Config, run: seq<Event>, key: Option<string>, lo: real, hi: real)
    requires Ordered(run) && lo <= hi
    ensures AdmittedFor(cfg, run, key, lo, hi) as real <= Allowance(RateOf(cfg, key), lo, hi)
  {
    var rpm, times := RateOf(cfg, key), TimesOf(cfg, run, key);
    AdmittedByItself(cfg, run, key, lo, hi);
    GainGrows(Rate(rpm), lo, hi);
    if run != [] { TimesOrdered(cfg, run, key, run[|run| - 1].at); }
    if times != [] {
      NoWindowExceeded(rpm, times[0], times, lo, hi);
    }
  }

  // ----- The same on the configuration itself -----

  /** The request carries an app key, and app keys are limited on their own. */
  ghost predicate Keyed(cfg: Config, req: Request) {
    cfg.perAppKey && req.appKey.Some? && req.appKey.value != ""
  }

  lemma KeyOfAppKey(cfg: Config, req: Request, appKey: string)
    requires cfg.perAppKey && appKey != ""
    ensures BucketKey(cfg, req) == Some(APP_KEY_PREFIX + appKey) <==> req.appKey == Some(appKey)
  {
    var key := APP_KEY_PREFIX + appKey;
    assert key[0] == 'a' && key[|APP_KEY_PREFIX|..] == appKey;
    if req.appKey.Some? {
      var other := APP_KEY_PREFIX + req.appKey.value;
      assert other[|APP_KEY_PREFIX|..] == req.appKey.value;
    }
    assert (IP_PREFIX + req.clientIP)[0] == 'i';
  }

  lemma KeyOfAddress(cfg: Config, req: Request, ip: string)
    requires cfg.perIP
    ensures BucketKey(cfg, req) == Some(IP_PREFIX + ip) <==> !Keyed(cfg, req) && req.clientIP == ip
  {
    assert (IP_PREFIX + ip)[0] == 'i' && (IP_PREFIX + ip)[|IP_PREFIX|..] == ip;
    assert (IP_PREFIX + req.clientIP)[|IP_PREFIX|..] == req.clientIP;
    if req.appKey.Some? { assert (APP_KEY_PREFIX + req.appKey.value)[0] == 'a'; }
  }

  /** Two requests share a bucket exactly when their app keys agree, or neither is keyed and their addresses agree. */
  lemma SharesBucketExactlyWhen(cfg: Config, a: Request, b: Request)
    ensures BucketKey(cfg, a) == BucketKey(cfg, b) <==>
      if Keyed(cfg, a) then Keyed(cfg, b) && a.appKey == b.appKey
      else !Keyed(cfg, b) && (cfg.perIP ==> a.clientIP == b.clientIP)
  {
    if Keyed(cfg, a) {
      KeyOfAppKey(cfg, b, a.appKey.value);
    } else if cfg.perIP {
      KeyOfAddress(cfg, b, a.clientIP);
    }
  }

  /** The rate an app key is held to: its own limit, else the common one for app keys, else the general one. */
  ghost function LimitOf(cfg: Config, appKey: string): nat {
    if appKey in cfg.appKeyLimits then cfg.appKeyLimits[appKey]
    else if cfg.appKeyRPM > 0 then cfg.appKeyRPM
    else cfg.rpm
  }

  ghost function AdmittedWithKey(cfg: Config, run: seq<Event>, appKey: string, lo: real, hi: real): nat {
    if run == [] then 0
    else
      var before, e := run[..|run| - 1], run[|run| - 1];
      AdmittedWithKey(cfg, before, appKey, lo, hi)
      + if e.Req? && e.req.appKey == Some(appKey) && lo <= e.at <= hi && Decision(cfg, before, e.req, e.at)
        then 1 else 0
  }

  lemma {:induction false} WithKeyIsFor(cfg: Config, run: seq<Event>, appKey: string, lo: real, hi: real)
    requires cfg.perAppKey && appKey != ""
    ensures AdmittedWithKey(cfg, run, appKey, lo, hi) == AdmittedFor(cfg, run, Some(APP_KEY_PREFIX + appKey), lo, hi)
  {
    if run != [] {
      WithKeyIsFor(cfg, run[..|run| - 1], appKey, lo, hi);
      if run[|run| - 1].Req? { KeyOfAppKey(cfg, run[|run| - 1].req, appKey); }
    }
  }

  /** In any run, sweeps included, no window admits more requests with an app key than its limit allows. */
  lemma AppKeyIsHeldToItsLimit(cfg: Config, run: seq<Event>, appKey: string, lo: real, hi: real)
    requires cfg.perAppKey && appKey != "" && Ordered(run) && lo <= hi
    ensures AdmittedWithKey(cfg, run, appKey, lo, hi) as real <= Allowance(LimitOf(cfg, appKey), lo, hi)
  {
    WithKeyIsFor(cfg, run, appKey, lo, hi);
    NoKeyExceedsItsAllowance(cfg, run, Some(APP_KEY_PREFIX + appKey), lo, hi);
    assert (APP_KEY_PREFIX + appKey)[|APP_KEY_PREFIX|..] == appKey;
  }

  ghost function AdmittedFrom(cfg: Config, run: seq<Event>, ip: string, lo: real, hi: real): nat {
    if run == [] then 0
    else
      var before, e := run[..|run| - 1], run[|run| - 1];
      AdmittedFrom(cfg, before, ip, lo, hi)
      + if e.Req? && !Keyed(cfg, e.req) && (cfg.perIP ==> e.req.clientIP == ip) && lo <= e.at <= hi
           && Decision(cfg, before, e.req, e.at)
        then 1 else 0
  }

  lemma {:induction false} FromIsFor(cfg: Config, run: seq<Event>, ip: string, lo: real, hi: real)
    ensures AdmittedFrom(cfg, run, ip, lo, hi)
      == AdmittedFor(cfg, run, if cfg.perIP then Some(IP_PREFIX + ip) else None, lo, hi)
  {
    if run != [] {
      FromIsFor(cfg, run[..|run| - 1], ip, lo, hi);
      if run[|run| - 1].Req? && cfg.perIP { KeyOfAddress(cfg, run[|run| - 1].req, ip); }
    }
  }

  /** Nor more without one, from one address or in all if addresses are not told apart, than the general rate. */
  lemma AddressIsHeldToTheRate(cfg: Config, run: seq<Event>, ip: string, lo: real, hi: real)
    requires Ordered(run) && lo <= hi
    ensures AdmittedFrom(cfg, run, ip, lo, hi) as real <= Allowance(cfg.rpm, lo, hi)
  {
    FromIsFor(cfg, run, ip, lo, hi);
    NoKeyExceedsItsAllowance(cfg, run, if cfg.perIP then Some(IP_PREFIX + ip) else None, lo, hi);
    assert (IP_PREFIX + ip)[0] == 'i';
  }

  /** A sweep keeps exactly the buckets used within the last ten minutes. */
  lemma SweepKeepsTenMinutes(s: Limiter, now: real, k: string)
    ensures k in Sweep(s, now).buckets
      <==> k in s.buckets && now - s.buckets[k].lastFill <= 10.0 * 60.0 * 1000000000.0
  {
  }
}
