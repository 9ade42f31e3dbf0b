/**
 The caching half of Dispatch in internal/proxy/engine.go: a lookup under the first
 provider's key before the failover loop, a store under the answering provider's key after
 it. Over any run, a reported hit was produced by the provider it is reported for.
 */
module CachedDispatch {
  import opened Common
  import opened JsonText
  import opened CacheKey
  import opened Failover
  import Recency
  import opened MemoryCache

  /** A response after the post-hooks; the body may be nil. */
  datatype Response = Response(status: int, body: Option<Bytes>)

  /**
   What a dispatch does to the cache: look a request up, or offer the response a provider
   gave to a request. Requests in flight at once contribute their events in any order.
   */
  datatype Event =
    | Lookup(provider: Name, request: Bytes, now: int)
    | Answered(provider: Name, request: Bytes, resp: Response, now: int, ttl: int)

  type Op = Recency.Op<Option<Bytes>>

  ghost function KeyOf(c: Codec, e: Event): string {
    c.hash(Preimage(c, e.provider, e.request))
  }

  /** Only cacheable requests reach the cache, and only answers with status 200 are stored. */
  ghost predicate Stored(c: Codec, e: Event) {
    e.Answered? && e.resp.status == 200 && c.Cacheable(e.request)
  }

  ghost function OpsOf(c: Codec, e: Event): seq<Op> {
    match e
    case Lookup(_, request, now) => if c.Cacheable(request) then [Recency.GetOp(KeyOf(c, e), now)] else []
    case Answered(_, request, resp, now, ttl) =>
      if Stored(c, e) then [Recency.SetOp(KeyOf(c, e), resp.body, now, ttl)] else []
  }

  ghost function Ops(c: Codec, run: seq<Event>): seq<Op> {
    if run == [] then [] else Ops(c, run[..|run| - 1]) + OpsOf(c, run[|run| - 1])
  }

  /** What a lookup reports: a hit needs an entry whose body is not nil. */
  ghost function Reported(c: Codec, max: nat, run: seq<Event>, provider: Name, request: Bytes,
                          now: int): Option<Bytes> {
    if !c.Cacheable(request) then None
    else match Recency.Get(Recency.After(max, Ops(c, run)), c.hash(Preimage(c, provider, request)), now).1
      case Some(body) => body
      case None => None
  }

  // ----- Dispatch as written -----

  ghost function ApplyAll(cache: Recency.Cache<Option<Bytes>>, max: nat, ops: seq<Op>): Recency.Cache<Option<Bytes>> {
    if ops == [] then cache else Recency.Apply(ApplyAll(cache, max, ops[..|ops| - 1]), max, ops[|ops| - 1])
  }

  datatype Result = Hit(body: Bytes) | Fresh(resp: Response) | Failed(err: Option<Error>)

  /** The lookup before the loop. */
  method LookUp(cache: Memory<Option<Bytes>>, c: Codec, provider: Name, request: Bytes, now: int)
    returns (body: Option<Bytes>)
    requires cache.Valid()
    modifies cache, cache.evictList, cache.evictList.root, cache.evictList.order
    ensures cache.Valid()
    ensures forall i :: 0 <= i < |cache.evictList.order| ==>
      cache.evictList.order[i] in old(cache.evictList.order) || fresh(cache.evictList.order[i])
    ensures cache.contents == ApplyAll(old(cache.contents), cache.Capacity(), OpsOf(c, Lookup(provider, request, now)))
    ensures body == if !c.Cacheable(request) then None
      else match Recency.Get(old(cache.contents), c.hash(Preimage(c, provider, request)), now).1
        case Some(b) => b
        case None => None
  {
    body := None;
    if c.Cacheable(request) {
      var key := DeriveKey(c, provider, request);
      var found := cache.Get(key, now);
      if found.Some? {
        body := found.value;
      }
      assert OpsOf(c, Lookup(provider, request, now))[..0] == [];
    }
  }

  /** The store after a provider answered. */
  method Offer(cache: Memory<Option<Bytes>>, c: Codec, provider: Name, request: Bytes, resp: Response, now: int,
               ttl: int)
    requires cache.Valid()
    modifies cache, cache.evictList, cache.evictList.root, cache.evictList.order
    ensures cache.Valid()
    ensures forall i :: 0 <= i < |cache.evictList.order| ==>
      cache.evictList.order[i] in old(cache.evictList.order) || fresh(cache.evictList.order[i])
    ensures var answered := Answered(provider, request, resp, now, ttl);
      cache.contents == ApplyAll(old(cache.contents), cache.Capacity(), OpsOf(c, answered))
  {
    if resp.status == 200 && c.Cacheable(request) {
      var key := DeriveKey(c, provider, request);
      cache.Set(key, resp.body, now, ttl);
      assert OpsOf(c, Answered(provider, request, resp, now, ttl))[..0] == [];
    }
  }

  /** A response comes from the last call to the last provider called, which is one of those routed to. */
  lemma {:induction false} AnsweringProviderIsLast(env: Env<Response>, names: seq<Name>, n: nat, err: Option<Error>)
    requires Play(env, names, n, err).reply.resp.Some?
    ensures var p := Play(env, names, n, err);
      p.segs != [] && Last(p.segs).name in names && Succeeded(Last(p.segs))
        && p.reply.resp == Some(Last(Last(p.segs).calls).resp)
    decreases |names|
  {
    if names != [] {
      if names[0] !in env.usable {
        AnsweringProviderIsLast(env, names[1..], n, Some(Skipped(names[0])));
      } else {
        var s := Segment(names[0], Attempts(env, n, env.MaxAttempts()));
        match AfterProvider(env, s, err)
        case Return(reply) =>
        case GoOn(e) => AnsweringProviderIsLast(env, names[1..], n + |s.calls|, e);
      }
    }
  }

  /** What the failover loop leaves behind: an offer if a provider answered. */
  ghost function LoopTrace(env: Env<Response>, post: Response -> Response, names: seq<Name>, request: Bytes, later: int,
                           ttl: int): (Result, seq<Event>)
  {
    var p := Play(env, names, 0, None);
    if p.reply.resp.Some? then
      AnsweringProviderIsLast(env, names, 0, None);
      var resp := post(p.reply.resp.value);
      (Fresh(resp), [Answered(Last(p.segs).name, request, resp, later, ttl)])
    else (Failed(p.reply.err), [])
  }

  /** What one Dispatch leaves behind: its lookup and, if it goes on, what the loop leaves. */
  ghost function Trace(c: Codec, env: Env<Response>, post: Response -> Response, names: seq<Name>, request: Bytes,
                       found: Option<Bytes>, now: int, later: int, ttl: int): (Result, seq<Event>)
    requires names != []
  {
    var look := Lookup(names[0], request, now);
    if found.Some? then (Hit(found.value), [look])
    else
      var (result, events) := LoopTrace(env, post, names, request, later, ttl);
      (result, [look] + events)
  }

  /** The loop, the post-hooks and the store. */
  method Ask(cache: Memory<Option<Bytes>>, c: Codec, env: Env<Response>, post: Response -> Response, names: seq<Name>,
             request: Bytes, later: int, ttl: int)
    returns (result: Result, ghost events: seq<Event>)
    requires cache.Valid() && env.kind.Chat?
    modifies cache, cache.evictList, cache.evictList.root, cache.evictList.order
    ensures cache.Valid()
    ensures forall i :: 0 <= i < |cache.evictList.order| ==>
      cache.evictList.order[i] in old(cache.evictList.order) || fresh(cache.evictList.order[i])
    ensures (result, events) == LoopTrace(env, post, names, request, later, ttl)
    ensures cache.contents == ApplyAll(old(cache.contents), cache.Capacity(), Ops(c, events))
  {
    var segs, pauses, reply := Failover.Dispatch(env, names);
    if reply.resp.None? {
      return Failed(reply.err), [];
    }
    AnsweringProviderIsLast(env, names, 0, None);
    var provider, resp := segs[|segs| - 1].name, post(reply.resp.value);
    Offer(cache, c, provider, request, resp, later, ttl);
    result, events := Fresh(resp), [Answered(provider, request, resp, later, ttl)];
    OneEvent(c, events[0]);
  }

  /** Dispatch after routing, scopes and pre-hooks; post stands for the post-hooks. */
  method Dispatch(cache: Memory<Option<Bytes>>, c: Codec, env: Env<Response>, post: Response -> Response,
                  names: seq<Name>, request: Bytes, now: int, later: int, ttl: int)
    returns (result: Result, ghost found: Option<Bytes>)
    requires cache.Valid() && names != [] && env.kind.Chat?
    modifies cache, cache.evictList, cache.evictList.root, cache.evictList.order
    ensures cache.Valid()
    ensures forall i :: 0 <= i < |cache.evictList.order| ==>
      cache.evictList.order[i] in old(cache.evictList.order) || fresh(cache.evictList.order[i])
    ensures found == if !c.Cacheable(request) then None
      else match Recency.Get(old(cache.contents), c.hash(Preimage(c, names[0], request)), now).1
        case Some(b) => b
        case None => None
    ensures var (r, events) := Trace(c, env, post, names, request, found, now, later, ttl);
      result == r && cache.contents == ApplyAll(old(cache.contents), cache.Capacity(), Ops(c, events))
  {
    var body := LookUp(cache, c, names[0], request, now);
    found := body;
    ghost var look := Lookup(names[0], request, now);
    OneEvent(c, look);
    if body.Some? {
      return Hit(body.value), found;
    }
    ghost var events;
    result, events := Ask(cache, c, env, post, names, request, later, ttl);
    OpsAppend(c, [look], events);
    ApplyInTurn(old(cache.contents), cache.Capacity(), OpsOf(c, look), Ops(c, events));
  }

  lemma OneEvent(c: Codec, e: Event)
    ensures Ops(c, [e]) == OpsOf(c, e)
  {
    assert [e][..0] == [];
    assert Ops(c, []) + OpsOf(c, e) == OpsOf(c, e);
  }

  lemma {:induction false} OpsAppend(c: Codec, a: seq<Event>, b: seq<Event>)
    ensures Ops(c, a + b) == Ops(c, a) + Ops(c, b)
    decreases |b|
  {
    if b == [] {
      assert a + b == a;
    } else {
      assert (a + b)[..|a + b| - 1] == a + b[..|b| - 1];
      OpsAppend(c, a, b[..|b| - 1]);
    }
  }

  lemma {:induction false} ApplyInTurn(cache: Recency.Cache<Option<Bytes>>, max: nat, a: seq<Op>, b: seq<Op>)
    ensures ApplyAll(cache, max, a + b) == ApplyAll(ApplyAll(cache, max, a), max, b)
    decreases |b|
  {
    if b == [] {
      assert a + b == a;
    } else {
      assert (a + b)[..|a + b| - 1] == a + b[..|b| - 1];
      ApplyInTurn(cache, max, a, b[..|b| - 1]);
    }
  }

  /** Running a dispatch's events on the cache of a run gives the cache of the longer run. */
  lemma {:induction false} AfterIsApplyAll(max: nat, ops: seq<Op>)
    ensures Recency.After(max, ops) == ApplyAll([], max, ops)
  {
    if ops != [] { AfterIsApplyAll(max, ops[..|ops| - 1]); }
  }

  // ----- Provenance -----

  /** Event j of the run is the last one that stored under the key of (provider, request). */
  ghost predicate LastStore(c: Codec, run: seq<Event>, provider: Name, request: Bytes, j: nat) {
    && j < |run| && Stored(c, run[j]) && run[j].provider == provider && SameKeyFields(c, run[j].request, request)
    && forall i :: j < i < |run| && Stored(c, run[i]) && run[i].provider == provider ==>
      !SameKeyFields(c, run[i].request, request)
  }

  ghost predicate NamesNulFree(run: seq<Event>) {
    forall i :: 0 <= i < |run| ==> NulFree(run[i].provider)
  }

  /** The entry that the last store under a key made. */
  ghost function LastKept(c: Codec, run: seq<Event>, key: string): Option<Recency.Entry<Option<Bytes>>> {
    if run == [] then None
    else
      var e := run[|run| - 1];
      if Stored(c, e) && KeyOf(c, e) == key then Some(Recency.Entry(key, e.resp.body, e.now + e.ttl))
      else LastKept(c, run[..|run| - 1], key)
  }

  lemma {:induction false} LastSetIsKept(c: Codec, run: seq<Event>, key: string)
    ensures Recency.LastSet(Ops(c, run), key) == LastKept(c, run, key)
    decreases |run|
  {
    if run != [] {
      LastSetIsKept(c, run[..|run| - 1], key);
      var ops, last := Ops(c, run[..|run| - 1]), OpsOf(c, run[|run| - 1]);
      if last == [] {
        assert ops + last == ops;
      } else {
        assert (ops + last)[..|ops + last| - 1] == ops;
      }
    }
  }

  lemma LastStoreStep(c: Codec, run: seq<Event>, provider: Name, request: Bytes, j: nat)
    requires run != [] && LastStore(c, run[..|run| - 1], provider, request, j)
    requires var e := run[|run| - 1]; !(Stored(c, e) && e.provider == provider && SameKeyFields(c, e.request, request))
    ensures LastStore(c, run, provider, request, j)
  {
    var before := run[..|run| - 1];
    forall i | j < i < |run| && Stored(c, run[i]) && run[i].provider == provider
      ensures !SameKeyFields(c, run[i].request, request)
    {
      if i < |run| - 1 { assert before[i] == run[i]; }
    }
    assert before[j] == run[j];
  }

  lemma {:induction false} KeptIsLastStore(c: Codec, run: seq<Event>, provider: Name, request: Bytes) returns (j: nat)
    requires Lawful(c) && NamesNulFree(run) && NulFree(provider) && c.Cacheable(request)
    requires LastKept(c, run, c.hash(Preimage(c, provider, request))).Some?
    ensures LastStore(c, run, provider, request, j)
    ensures var e := LastKept(c, run, c.hash(Preimage(c, provider, request))).value;
      e.value == run[j].resp.body && e.expiresAt == run[j].now + run[j].ttl
    decreases |run|
  {
    var e := run[|run| - 1];
    StoresUnder(c, e, provider, request);
    if Stored(c, e) && KeyOf(c, e) == c.hash(Preimage(c, provider, request)) {
      j := |run| - 1;
    } else {
      j := KeptIsLastStore(c, run[..|run| - 1], provider, request);
      LastStoreStep(c, run, provider, request, j);
    }
  }

  /**
   Over every run of lookups and answers, in any interleaving: a hit reported for a provider is
   the body that this provider's latest stored answer had, after post-hooks and with status
   200, for a cacheable request with the same canonical key fields; and it has not expired.
   */
  lemma HitProvenance(c: Codec, max: nat, run: seq<Event>, provider: Name, request: Bytes, now: int)
    returns (j: nat)
    requires Lawful(c) && NamesNulFree(run) && NulFree(provider)
    requires Reported(c, max, run, provider, request, now).Some?
    ensures LastStore(c, run, provider, request, j)
    ensures run[j].resp == Response(200, Reported(c, max, run, provider, request, now)) && c.Cacheable(run[j].request)
    ensures now <= run[j].now + run[j].ttl
  {
    var ops, key := Ops(c, run), c.hash(Preimage(c, provider, request));
    Recency.NeverStale(max, ops, key, now);
    LastSetIsKept(c, run, key);
    j := KeptIsLastStore(c, run, provider, request);
  }

  lemma StoresUnder(c: Codec, e: Event, provider: Name, request: Bytes)
    requires Lawful(c) && NulFree(e.provider) && NulFree(provider) && c.Cacheable(request)
    ensures Stored(c, e) ==>
      (KeyOf(c, e) == c.hash(Preimage(c, provider, request))
       <==> e.provider == provider && SameKeyFields(c, e.request, request))
  {
    if Stored(c, e) {
      SameKeyExactlyWhen(c, e.provider, e.request, provider, request);
    }
  }

  /** Event j of the run is the last one that stored under the key. */
  ghost predicate LastUnder(c: Codec, run: seq<Event>, key: string, j: nat) {
    && j < |run| && Stored(c, run[j]) && KeyOf(c, run[j]) == key
    && forall i :: j < i < |run| && Stored(c, run[i]) ==> KeyOf(c, run[i]) != key
  }

  lemma LastStoreIsLastUnder(c: Codec, run: seq<Event>, provider: Name, request: Bytes, j: nat)
    requires Lawful(c) && NamesNulFree(run) && NulFree(provider) && c.Cacheable(request)
    requires LastStore(c, run, provider, request, j)
    ensures LastUnder(c, run, c.hash(Preimage(c, provider, request)), j)
  {
    forall i | 0 <= i < |run| && Stored(c, run[i])
      ensures KeyOf(c, run[i]) == c.hash(Preimage(c, provider, request))
         <==> run[i].provider == provider && SameKeyFields(c, run[i].request, request)
    {
      StoresUnder(c, run[i], provider, request);
    }
  }

  lemma {:induction false} LastUnderIsKept(c: Codec, run: seq<Event>, key: string, j: nat)
    requires LastUnder(c, run, key, j)
    ensures LastKept(c, run, key) == Some(Recency.Entry(key, run[j].resp.body, run[j].now + run[j].ttl))
    decreases |run|
  {
    if j < |run| - 1 {
      var before := run[..|run| - 1];
      assert forall i :: 0 <= i < |before| ==> before[i] == run[i];
      LastUnderIsKept(c, before, key, j);
    }
  }

  ghost predicate UpTo(run: seq<Event>, now: int) {
    forall i :: 0 <= i < |run| ==> run[i].now <= now
  }

  lemma {:induction false} OpsUpTo(c: Codec, run: seq<Event>, now: int)
    requires UpTo(run, now)
    ensures Recency.TimesUpTo(Ops(c, run), now)
    decreases |run|
  {
    if run != [] {
      OpsUpTo(c, run[..|run| - 1], now);
    }
  }

  /**
   The converse: what a provider's latest stored answer held, if not nil, is reported as a hit
   until it expires, as long as fewer than max other keys were used since that key last was.
   */
  lemma StoredAnswerIsHit(c: Codec, max: nat, run: seq<Event>, provider: Name, request: Bytes, now: int, j: nat)
    requires Lawful(c) && NamesNulFree(run) && NulFree(provider) && c.Cacheable(request)
    requires LastStore(c, run, provider, request, j) && run[j].resp.body.Some?
    requires UpTo(run, now) && now <= run[j].now + run[j].ttl
    requires |Recency.OthersSince(max, Ops(c, run), c.hash(Preimage(c, provider, request)))| < max
    ensures Reported(c, max, run, provider, request, now) == run[j].resp.body
  {
    var key := c.hash(Preimage(c, provider, request));
    LastStoreIsLastUnder(c, run, provider, request, j);
    LastUnderIsKept(c, run, key, j);
    LastSetIsKept(c, run, key);
    OpsUpTo(c, run, now);
    Recency.RecentlyUsedIsReturned(max, Ops(c, run), key, now);
  }
}
