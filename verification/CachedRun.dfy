/**
 One cache behind any sequence of dispatches: every hit that is served was earned by an
 earlier dispatch, traced back to the upstream call that produced it.
 */
module CachedRun {
  import opened Common
  import opened JsonText
  import opened CacheKey
  import opened Failover
  import opened MemoryCache
  import Recency
  import opened CachedDispatch

  /** A request as it reaches the cache: routed to names, with its hooks, upstream and clock. */
  datatype Call = Call(env: Env<Response>, post: Response -> Response, names: seq<Name>, request: Bytes,
                       now: int, later: int, ttl: int)

  ghost predicate ValidCall(call: Call) {
    call.names != [] && call.env.kind.Chat? && forall i :: 0 <= i < |call.names| ==> NulFree(call.names[i])
  }

  ghost predicate ValidCalls(calls: seq<Call>) {
    forall i :: 0 <= i < |calls| ==> ValidCall(calls[i])
  }

  /** What the calls are answered, and what they did to the cache. */
  datatype Log = Log(results: seq<Result>, run: seq<Event>)

  ghost function FoundBy(c: Codec, max: nat, run: seq<Event>, call: Call): Option<Bytes>
    requires ValidCall(call)
  {
    Reported(c, max, run, call.names[0], call.request, call.now)
  }

  ghost function TraceOf(c: Codec, call: Call, found: Option<Bytes>): (Result, seq<Event>)
    requires ValidCall(call)
  {
    Trace(c, call.env, call.post, call.names, call.request, found, call.now, call.later, call.ttl)
  }

  ghost function Extended(c: Codec, max: nat, log: Log, call: Call): Log
    requires ValidCall(call)
  {
    var (result, events) := TraceOf(c, call, FoundBy(c, max, log.run, call));
    Log(log.results + [result], log.run + events)
  }

  ghost function Served(c: Codec, max: nat, calls: seq<Call>): (log: Log)
    requires ValidCalls(calls)
    ensures |log.results| == |calls|
  {
    if calls == [] then Log([], [])
    else Extended(c, max, Served(c, max, calls[..|calls| - 1]), calls[|calls| - 1])
  }

  // ----- The cache as written serves exactly that -----

  /** The cache after a run, taken through more events, is the cache after the longer run. */
  lemma AfterMore(c: Codec, max: nat, run: seq<Event>, events: seq<Event>)
    ensures ApplyAll(Recency.After(max, Ops(c, run)), max, Ops(c, events)) == Recency.After(max, Ops(c, run + events))
  {
    AfterIsApplyAll(max, Ops(c, run));
    AfterIsApplyAll(max, Ops(c, run + events));
    OpsAppend(c, run, events);
    ApplyInTurn([], max, Ops(c, run), Ops(c, events));
  }

  /** One dispatch on the cache that the calls so far left. */
  method ServeOne(m: Memory<Option<Bytes>>, c: Codec, call: Call, ghost log: Log)
    returns (result: Result, ghost next: Log)
    requires m.Valid() && ValidCall(call) && m.contents == Recency.After(m.Capacity(), Ops(c, log.run))
    modifies m, m.evictList, m.evictList.root, m.evictList.order
    ensures m.Valid() && m.contents == Recency.After(m.Capacity(), Ops(c, next.run))
    ensures forall i :: 0 <= i < |m.evictList.order| ==>
      m.evictList.order[i] in old(m.evictList.order) || fresh(m.evictList.order[i])
    ensures next == Extended(c, m.Capacity(), log, call) && next.results == log.results + [result]
  {
    ghost var found;
    result, found := CachedDispatch.Dispatch(m, c, call.env, call.post, call.names, call.request, call.now, call.later,
                                             call.ttl);
    assert found == FoundBy(c, m.Capacity(), log.run, call);
    next := Extended(c, m.Capacity(), log, call);
    AfterMore(c, m.Capacity(), log.run, TraceOf(c, call, found).1);
  }

  lemma ServedNext(c: Codec, max: nat, calls: seq<Call>, n: nat)
    requires ValidCalls(calls) && n < |calls|
    ensures Served(c, max, calls[..n + 1]) == Extended(c, max, Served(c, max, calls[..n]), calls[n])
  {
    assert calls[..n + 1][..n] == calls[..n];
  }

  method Serve(maxEntries: int, c: Codec, calls: seq<Call>) returns (results: seq<Result>)
    requires ValidCalls(calls)
    ensures results == Served(c, if maxEntries < 0 then 0 else maxEntries, calls).results
  {
    var m := new Memory<Option<Bytes>>(maxEntries);
    ghost var log := Log([], []);
    results := [];
    for n := 0 to |calls|
      invariant m.Valid() && fresh(m) && fresh(m.evictList) && fresh(m.evictList.root) && m.maxEntries == maxEntries
      invariant forall i :: 0 <= i < |m.evictList.order| ==> fresh(m.evictList.order[i])
      invariant m.contents == Recency.After(m.Capacity(), Ops(c, log.run)) && results == log.results
      invariant log == Served(c, m.Capacity(), calls[..n])
    {
      var result;
      ServedNext(c, m.Capacity(), calls, n);
      result, log := ServeOne(m, c, calls[n], log);
      results := results + [result];
    }
    assert calls[..|calls|] == calls;
  }

  // ----- Which call left which event -----

  lemma {:induction false} ServedExtends(c: Codec, max: nat, calls: seq<Call>, n: nat)
    requires ValidCalls(calls) && n <= |calls|
    ensures Served(c, max, calls[..n]).run <= Served(c, max, calls).run
    ensures Served(c, max, calls[..n]).results <= Served(c, max, calls).results
    decreases |calls|
  {
    if n == |calls| {
      assert calls[..n] == calls;
    } else {
      var before := calls[..|calls| - 1];
      ServedExtends(c, max, before, n);
      assert before[..n] == calls[..n];
    }
  }

  lemma ServedTurn(c: Codec, max: nat, calls: seq<Call>, n: nat)
    requires ValidCalls(calls) && n < |calls|
    ensures var log := Extended(c, max, Served(c, max, calls[..n]), calls[n]);
      log.run <= Served(c, max, calls).run && log.results <= Served(c, max, calls).results
  {
    ServedNext(c, max, calls, n);
    ServedExtends(c, max, calls, n + 1);
  }

  /** Where in the run a call's answer stands: behind its lookup. */
  ghost function AnswerAt(c: Codec, max: nat, calls: seq<Call>, n: nat): nat
    requires ValidCalls(calls) && n < |calls|
  {
    |Served(c, max, calls[..n]).run| + 1
  }

  /** The provider that answered a call. */
  ghost function Answerer(call: Call): Segment<Response>
    requires ValidCall(call) && Play(call.env, call.names, 0, None).reply.resp.Some?
  {
    AnsweringProviderIsLast(call.env, call.names, 0, None);
    Last(Play(call.env, call.names, 0, None).segs)
  }

  /** The call reached an upstream, and result is what its last provider's last call gave, after the hooks. */
  ghost predicate AnsweredBy(call: Call, provider: Name, result: Result)
    requires ValidCall(call)
  {
    && Play(call.env, call.names, 0, None).reply.resp.Some?
    && var s := Answerer(call);
       s.name == provider && Succeeded(s) && result == Fresh(call.post(Last(s.calls).resp))
  }

  lemma FreshIsAnswered(c: Codec, call: Call, found: Option<Bytes>)
    requires ValidCall(call) && TraceOf(c, call, found).0.Fresh?
    ensures var (result, events) := TraceOf(c, call, found);
      && Play(call.env, call.names, 0, None).reply.resp.Some?
      && AnsweredBy(call, Answerer(call).name, result)
      && events == [Lookup(call.names[0], call.request, call.now),
                    Answered(Answerer(call).name, call.request, result.resp, call.later, call.ttl)]
  {
    AnsweringProviderIsLast(call.env, call.names, 0, None);
  }

  lemma AnswerRecorded(c: Codec, max: nat, calls: seq<Call>, n: nat)
    requires ValidCalls(calls) && n < |calls| && Served(c, max, calls).results[n].Fresh?
    ensures var log, x := Served(c, max, calls), AnswerAt(c, max, calls, n);
      && x < |log.run| && log.run[x].Answered? && AnsweredBy(calls[n], log.run[x].provider, log.results[n])
      && log.run[x] == Answered(log.run[x].provider, calls[n].request, log.results[n].resp, calls[n].later,
                                calls[n].ttl)
  {
    var before := Served(c, max, calls[..n]);
    ServedTurn(c, max, calls, n);
    FreshIsAnswered(c, calls[n], FoundBy(c, max, before.run, calls[n]));
  }

  /** A call adds a lookup to the run and, exactly when it got a fresh response, an answer by one of its providers. */
  ghost predicate Stepped(was: Log, log: Log, call: Call) {
    && |log.results| == |was.results| + 1 && was.results <= log.results && was.run <= log.run
    && var added := |log.run| - |was.run|;
       && 1 <= added <= 2 && log.run[|was.run|].Lookup?
       && (added == 2 <==> log.results[|was.results|].Fresh?)
       && forall i :: |was.run| <= i < |log.run| ==> log.run[i].provider in call.names
  }

  lemma ExtendedSteps(c: Codec, max: nat, was: Log, call: Call)
    requires ValidCall(call)
    ensures Stepped(was, Extended(c, max, was, call), call)
  {
    if Play(call.env, call.names, 0, None).reply.resp.Some? {
      AnsweringProviderIsLast(call.env, call.names, 0, None);
    }
  }

  /** The logs of all beginnings of a sequence of calls. */
  ghost predicate AreLogs(logs: seq<Log>, calls: seq<Call>) {
    && |logs| == |calls| + 1 && logs[0] == Log([], []) && (forall n :: 0 <= n <= |calls| ==> |logs[n].results| == n)
    && forall n :: 0 <= n < |calls| ==> Stepped(logs[n], logs[n + 1], calls[n])
  }

  lemma ServedSteps(c: Codec, max: nat, calls: seq<Call>, n: nat)
    requires ValidCalls(calls) && n < |calls|
    ensures Stepped(Served(c, max, calls[..n]), Served(c, max, calls[..n + 1]), calls[n])
  {
    ServedNext(c, max, calls, n);
    ExtendedSteps(c, max, Served(c, max, calls[..n]), calls[n]);
  }

  ghost function LogsOf(c: Codec, max: nat, calls: seq<Call>): (logs: seq<Log>)
    requires ValidCalls(calls)
  {
    seq(|calls| + 1, n requires 0 <= n <= |calls| => Served(c, max, calls[..n]))
  }

  lemma LogsAreLogs(c: Codec, max: nat, calls: seq<Call>)
    requires ValidCalls(calls)
    ensures AreLogs(LogsOf(c, max, calls), calls) && LogsOf(c, max, calls)[|calls|] == Served(c, max, calls)
  {
    forall n | 0 <= n < |calls| ensures Stepped(LogsOf(c, max, calls)[n], LogsOf(c, max, calls)[n + 1], calls[n]) {
      ServedSteps(c, max, calls, n);
    }
    assert calls[..|calls|] == calls;
  }

  lemma {:induction false} FindIn(logs: seq<Log>, calls: seq<Call>, x: nat) returns (n: nat)
    requires AreLogs(logs, calls) && x < |logs[|calls|].run| && logs[|calls|].run[x].Answered?
    ensures n < |calls| && logs[|calls|].results[n].Fresh? && x == |logs[n].run| + 1
    decreases |calls|
  {
    var m := |calls| - 1;
    assert Stepped(logs[m], logs[m + 1], calls[m]);
    if x < |logs[m].run| {
      n := FindIn(logs[..m + 1], calls[..m], x);
    } else {
      n := m;
    }
  }

  lemma {:induction false} NamesIn(logs: seq<Log>, calls: seq<Call>)
    requires AreLogs(logs, calls) && ValidCalls(calls)
    ensures NamesNulFree(logs[|calls|].run)
    decreases |calls|
  {
    if calls != [] {
      var m := |calls| - 1;
      assert Stepped(logs[m], logs[m + 1], calls[m]);
      NamesIn(logs[..m + 1], calls[..m]);
      var run := logs[m + 1].run;
      forall i | 0 <= i < |run| ensures NulFree(run[i].provider) {
        if i >= |logs[m].run| { assert run[i].provider in calls[m].names; }
      }
    }
  }

  /** Every answer in the run is that of a call. */
  lemma FindCall(c: Codec, max: nat, calls: seq<Call>, x: nat) returns (n: nat)
    requires ValidCalls(calls) && x < |Served(c, max, calls).run| && Served(c, max, calls).run[x].Answered?
    ensures n < |calls| && Served(c, max, calls).results[n].Fresh? && AnswerAt(c, max, calls, n) == x
  {
    LogsAreLogs(c, max, calls);
    n := FindIn(LogsOf(c, max, calls), calls, x);
  }

  lemma AnswersInOrder(c: Codec, max: nat, calls: seq<Call>, j: nat, k: nat)
    requires ValidCalls(calls) && j < k < |calls| && Served(c, max, calls).results[j].Fresh?
    ensures AnswerAt(c, max, calls, j) < AnswerAt(c, max, calls, k)
  {
    var early := calls[..k];
    assert early[..j] == calls[..j];
    ServedExtends(c, max, calls, k);
    AnswerRecorded(c, max, early, j);
  }

  lemma ServedNamesNulFree(c: Codec, max: nat, calls: seq<Call>)
    requires ValidCalls(calls)
    ensures NamesNulFree(Served(c, max, calls).run)
  {
    LogsAreLogs(c, max, calls);
    NamesIn(LogsOf(c, max, calls), calls);
  }

  // ----- Every hit was earned -----

  /** Call n was answered by the provider with status 200, for a cacheable request with the same key fields. */
  ghost predicate Stores(c: Codec, calls: seq<Call>, results: seq<Result>, n: nat, provider: Name, request: Bytes)
    requires ValidCalls(calls) && |results| == |calls|
  {
    && n < |calls| && AnsweredBy(calls[n], provider, results[n]) && results[n].resp.status == 200
    && c.Cacheable(calls[n].request) && SameKeyFields(c, calls[n].request, request)
  }

  lemma StoresIsStored(c: Codec, max: nat, calls: seq<Call>, n: nat, provider: Name, request: Bytes)
    requires ValidCalls(calls) && n < |calls| && Served(c, max, calls).results[n].Fresh?
    ensures var log, x := Served(c, max, calls), AnswerAt(c, max, calls, n);
      && x < |log.run|
      && (Stores(c, calls, log.results, n, provider, request)
          <==> (Stored(c, log.run[x]) && log.run[x].provider == provider
                && SameKeyFields(c, log.run[x].request, request)))
  {
    AnswerRecorded(c, max, calls, n);
  }

  /** The request decodes, does not stream, and has no temperature or a zero one. */
  ghost predicate Deterministic(c: Codec, request: Bytes) {
    && c.partial(request).Some? && !c.partial(request).value.stream
    && (c.partial(request).value.temperature == None || c.partial(request).value.temperature == Some(0.0))
  }

  /**
   A body served from the cache is what an earlier call's last upstream call to that very provider
   gave, after the hooks and with status 200, for a request with the same key fields; neither request
   streams or has a temperature, no call in between stored anything under that key, and the entry
   had not expired.
   */
  lemma HitsAreEarned(c: Codec, max: nat, calls: seq<Call>, i: nat) returns (j: nat)
    requires Lawful(c) && ValidCalls(calls) && i < |calls| && Served(c, max, calls).results[i].Hit?
    ensures var results, provider, request := Served(c, max, calls).results, calls[i].names[0], calls[i].request;
      && j < i && Stores(c, calls, results, j, provider, request)
      && results[j].resp.body == Some(results[i].body)
      && calls[i].now <= calls[j].later + calls[j].ttl
      && Deterministic(c, request) && Deterministic(c, calls[j].request)
      && forall k :: j < k < i ==> !Stores(c, calls, results, k, provider, request)
  {
    var early, results := calls[..i], Served(c, max, calls).results;
    var provider, request := calls[i].names[0], calls[i].request;
    ServedTurn(c, max, calls, i);
    ServedExtends(c, max, calls, i);
    var log := Served(c, max, early);
    ServedNamesNulFree(c, max, early);
    var x := HitProvenance(c, max, log.run, provider, request, calls[i].now);
    j := FindCall(c, max, early, x);
    StoresIsStored(c, max, early, j, provider, request);
    AnswerRecorded(c, max, early, j);
    forall k | j < k < i ensures !Stores(c, calls, results, k, provider, request) {
      if results[k].Fresh? {
        AnswersInOrder(c, max, early, j, k);
        StoresIsStored(c, max, early, k, provider, request);
      }
    }
  }
}
