/**
 The provider and retry loops of internal/proxy/engine.go: Dispatch, DispatchStream,
 DispatchEmbeddings and DispatchAnthropicNative. The outcome of the n-th upstream call is
 arbitrary; what the loops do with it is not.
 */
module Failover {
  import opened Common

  type Name = string

  /** Which of the four dispatchers is running. */
  datatype Kind = Chat | Stream | Embeddings | Native {

    /** With failover off, Chat and Stream return on the first failed call; the others go on. */
    predicate StopsWhenOff() {
      Chat? || Stream?
    }

    /** The exponent of the pause before an attempt numbered from 0. */
    function Exponent(attempt: nat): int {
      if Native? then attempt else attempt - 1
    }
  }

  /** An upstream error carrying a status, any other upstream error, or a provider not called. */
  datatype Error = Status(code: int) | Other(message: string) | Skipped(name: Name)

  datatype Outcome<+R> = Ok(resp: R) | Fail(err: Error)

  /** What a dispatcher returns: Go's (response, error) pair, either of which may be nil. */
  datatype Reply<+R> = Reply(resp: Option<R>, err: Option<Error>)

  datatype Backoff = Backoff(initial: real, multiplier: real, max: real)

  /** A dispatcher's surroundings: failover settings, usable providers, and the upstream's answers. */
  datatype Env<!R> = Env(kind: Kind, enabled: bool, maxRetries: int, retryOn: set<int>, backoff: Backoff,
                         usable: set<Name>, outcome: nat -> Outcome<R>)
  {
    function MaxAttempts(): int {
      if enabled then maxRetries + 1 else 1
    }

    predicate Retryable(o: Outcome<R>) {
      o.Fail? && o.err.Status? && o.err.code in retryOn
    }

    predicate EndsProvider(o: Outcome<R>) {
      o.Ok? || !Retryable(o)
    }
  }

  /** The calls made to one provider, in order. */
  datatype Segment<+R> = Segment(name: Name, calls: seq<Outcome<R>>)

  predicate Succeeded<R>(s: Segment<R>) {
    s.calls != [] && s.calls[|s.calls| - 1].Ok?
  }

  // ----- The loops as written -----

  /** The attempt loop for one provider; n is how many calls were made before it. */
  method TryProvider<R>(env: Env<R>, name: Name, n: nat) returns (s: Segment<R>, pauses: seq<int>)
    ensures s == Segment(name, Attempts(env, n, env.MaxAttempts()))
    ensures pauses == Pauses(env.kind, |s.calls|)
  {
    var calls: seq<Outcome<R>> := [];
    pauses := [];
    var attempt, max := 0, env.MaxAttempts();
    ghost var all := Attempts(env, n, max);
    while attempt < max
      invariant 0 <= attempt && |calls| == attempt && (attempt == 0 || attempt <= max)
      invariant all == calls + Attempts(env, n + attempt, max - attempt)
      invariant pauses == Pauses(env.kind, attempt)
      decreases max - attempt
    {
      if attempt > 0 {
        pauses := pauses + [env.kind.Exponent(attempt)];
      }
      var o := env.outcome(n + attempt);
      ghost var before := calls;
      calls := calls + [o];
      if env.EndsProvider(o) {
        return Segment(name, calls), pauses;
      }
      ghost var rest := Attempts(env, n + attempt + 1, max - attempt - 1);
      assert before + ([o] + rest) == calls + rest;
      attempt := attempt + 1;
    }
    assert calls + [] == calls;
    s := Segment(name, calls);
  }

  /** The provider loop: the calls in order, the exponents of the pauses, and the reply. */
  method Dispatch<R>(env: Env<R>, names: seq<Name>) returns (segs: seq<Segment<R>>, pauses: seq<int>, reply: Reply<R>)
    ensures Played(segs, reply) == Play(env, names, 0, None)
    ensures pauses == AllPauses(env.kind, segs)
  {
    segs, pauses := [], [];
    var lastErr: Option<Error> := None;
    var calls := 0;
    assert names[0..] == names;
    for i := 0 to |names|
      invariant calls == CallCount(segs)
      invariant pauses == AllPauses(env.kind, segs)
      invariant Play(env, names, 0, None) == Behind(segs, Play(env, names[i..], calls, lastErr))
    {
      assert names[i..][1..] == names[i + 1..];
      if names[i] !in env.usable {
        lastErr := Some(Skipped(names[i]));
        continue;
      }
      var s, p := TryProvider(env, names[i], calls);
      AppendSegment(env.kind, segs, s);
      ghost var before := segs;
      segs, pauses, calls := segs + [s], pauses + p, calls + |s.calls|;
      match AfterProvider(env, s, lastErr) {
        case Return(r) =>
          return segs, pauses, r;
        case GoOn(err) =>
          lastErr := err;
      }
      BehindTwice(before, s, Play(env, names[i + 1..], calls, lastErr));
    }
    reply := Reply(None, lastErr);
    assert segs + [] == segs;
  }

  /** What the provider loop does once the attempts on one provider are over. */
  datatype Verdict<+R> = Return(reply: Reply<R>) | GoOn(lastErr: Option<Error>)

  function AfterProvider<R>(env: Env<R>, s: Segment<R>, err: Option<Error>): Verdict<R> {
    if s.calls == [] then GoOn(err)
    else match s.calls[|s.calls| - 1]
      case Ok(resp) => Return(Reply(Some(resp), None))
      case Fail(e) => if env.kind.StopsWhenOff() && !env.enabled then Return(Reply(None, Some(e))) else GoOn(Some(e))
  }

  // ----- What they compute -----

  /** Calls to one provider from call number n on, at most left of them. */
  ghost function Attempts<R>(env: Env<R>, n: nat, left: int): seq<Outcome<R>>
    decreases left
  {
    if left <= 0 then []
    else if env.EndsProvider(env.outcome(n)) then [env.outcome(n)]
    else [env.outcome(n)] + Attempts(env, n + 1, left - 1)
  }

  /** The exponents of the pauses before attempts 1, 2, ... of a provider called count times. */
  function Pauses(kind: Kind, count: nat): seq<int> {
    if count <= 1 then [] else Pauses(kind, count - 1) + [kind.Exponent(count - 1)]
  }

  function AllPauses<R>(kind: Kind, segs: seq<Segment<R>>): seq<int> {
    if segs == [] then [] else AllPauses(kind, segs[..|segs| - 1]) + Pauses(kind, |segs[|segs| - 1].calls|)
  }

  function CallCount<R>(segs: seq<Segment<R>>): nat {
    if segs == [] then 0 else CallCount(segs[..|segs| - 1]) + |segs[|segs| - 1].calls|
  }

  lemma AppendSegment<R>(kind: Kind, segs: seq<Segment<R>>, s: Segment<R>)
    ensures AllPauses(kind, segs + [s]) == AllPauses(kind, segs) + Pauses(kind, |s.calls|)
    ensures CallCount(segs + [s]) == CallCount(segs) + |s.calls|
  {
    assert (segs + [s])[..|segs|] == segs;
  }

  datatype Played<+R> = Played(segs: seq<Segment<R>>, reply: Reply<R>)

  ghost function Behind<R>(segs: seq<Segment<R>>, p: Played<R>): Played<R> {
    Played(segs + p.segs, p.reply)
  }

  lemma BehindTwice<R>(segs: seq<Segment<R>>, s: Segment<R>, p: Played<R>)
    ensures Behind(segs, Behind([s], p)) == Behind(segs + [s], p)
  {
    assert segs + ([s] + p.segs) == segs + [s] + p.segs;
  }

  /** The whole loop on the remaining names, after n calls and with err as the last error. */
  ghost function Play<R>(env: Env<R>, names: seq<Name>, n: nat, err: Option<Error>): Played<R>
    decreases |names|
  {
    if names == [] then Played([], Reply(None, err))
    else if names[0] !in env.usable then Play(env, names[1..], n, Some(Skipped(names[0])))
    else
      var s := Segment(names[0], Attempts(env, n, env.MaxAttempts()));
      match AfterProvider(env, s, err)
      case Return(reply) => Played([s], reply)
      case GoOn(e) => Behind([s], Play(env, names[1..], n + |s.calls|, e))
  }

  // ----- Which call logs and replies are right, said without loops -----

  ghost function UsableOnly<R>(env: Env<R>, names: seq<Name>): seq<Name> {
    if names == [] then []
    else (if names[0] in env.usable then [names[0]] else []) + UsableOnly(env, names[1..])
  }

  /**
   A right run of calls to one provider: every non-final call failed with a status to retry on, and
   it goes on until the limit, a success, or a failure with no such status.
   */
  ghost predicate Tried<R>(env: Env<R>, calls: seq<Outcome<R>>, n: nat, limit: int) {
    && 1 <= |calls| <= limit
    && (forall i :: 0 <= i < |calls| ==> calls[i] == env.outcome(n + i))
    && (forall i :: 0 <= i < |calls| - 1 ==> calls[i].Fail? && calls[i].err.Status? && calls[i].err.code in env.retryOn)
    && (|calls| == limit || match calls[|calls| - 1]
                            case Ok(_) => true
                            case Fail(err) => err.Status? ==> err.code !in env.retryOn)
  }

  ghost predicate Stops<R>(env: Env<R>) {
    (env.kind.Chat? || env.kind.Stream?) && !env.enabled
  }

  ghost function Last<T>(s: seq<T>): T
    requires s != []
  {
    s[|s| - 1]
  }

  ghost predicate Failed<R>(s: Segment<R>) {
    s.calls != [] && Last(s.calls).Fail?
  }

  /** The reply that goes with a log: the first success, or the error met last. */
  ghost predicate RightReply<R>(env: Env<R>, names: seq<Name>, err: Option<Error>, segs: seq<Segment<R>>,
                                reply: Reply<R>) {
    if segs != [] && Succeeded(Last(segs)) then reply == Reply(Some(Last(Last(segs).calls).resp), None)
    else if segs != [] && Stops(env) then
      |segs| == 1 && Failed(segs[0]) && reply == Reply(None, Some(Last(segs[0].calls).err))
    else
      && |segs| == |UsableOnly(env, names)|
      && if names == [] then reply == Reply(None, err)
         else if Last(names) !in env.usable then reply == Reply(None, Some(Skipped(Last(names))))
         else segs != [] && Failed(Last(segs)) && reply == Reply(None, Some(Last(Last(segs).calls).err))
  }

  /**
   The usable providers in order, each a right run of calls; another follows only a failure, and
   never when a failure stops.
   */
  ghost predicate RightLog<R>(env: Env<R>, usable: seq<Name>, n: nat, segs: seq<Segment<R>>)
    decreases |segs|
  {
    segs == [] || (
      && usable != [] && segs[0].name == usable[0]
      && Tried(env, segs[0].calls, n, if env.enabled then env.maxRetries + 1 else 1)
      && (|segs| > 1 ==> Failed(segs[0]) && !Stops(env))
      && RightLog(env, usable[1..], n + |segs[0].calls|, segs[1..]))
  }

  lemma {:induction false} AttemptsAreTried<R>(env: Env<R>, n: nat, limit: int)
    requires limit >= 1
    ensures Tried(env, Attempts(env, n, limit), n, limit)
    decreases limit
  {
    var calls := Attempts(env, n, limit);
    if !env.EndsProvider(env.outcome(n)) && limit > 1 {
      var rest := Attempts(env, n + 1, limit - 1);
      AttemptsAreTried(env, n + 1, limit - 1);
      assert forall i :: 0 < i < |calls| ==> calls[i] == rest[i - 1];
    }
  }

  lemma {:induction false} TriedIsAttempts<R>(env: Env<R>, calls: seq<Outcome<R>>, n: nat, limit: int)
    requires Tried(env, calls, n, limit)
    ensures calls == Attempts(env, n, limit)
    decreases limit
  {
    var o := env.outcome(n);
    assert calls[0] == env.outcome(n + 0) == o;
    if |calls| == 1 {
      assert calls == [o];
      assert !env.EndsProvider(o) ==> Attempts(env, n + 1, limit - 1) == [];
    } else {
      TriedTail(env, calls, n, limit);
      TriedIsAttempts(env, calls[1..], n + 1, limit - 1);
      assert calls == [o] + calls[1..];
    }
  }

  lemma TriedTail<R>(env: Env<R>, calls: seq<Outcome<R>>, n: nat, limit: int)
    requires Tried(env, calls, n, limit) && |calls| > 1
    ensures env.Retryable(calls[0]) && Tried(env, calls[1..], n + 1, limit - 1)
  {
    var rest := calls[1..];
    forall i | 0 <= i < |rest| ensures rest[i] == env.outcome(n + 1 + i) { assert rest[i] == calls[i + 1]; }
    forall i | 0 <= i < |rest| - 1 ensures env.Retryable(rest[i]) { assert rest[i] == calls[i + 1]; }
  }

  /** The loops' log is right. */
  lemma {:induction false} PlayLogsRight<R>(env: Env<R>, names: seq<Name>, n: nat, err: Option<Error>)
    requires env.enabled ==> env.maxRetries >= 0
    ensures RightLog(env, UsableOnly(env, names), n, Play(env, names, n, err).segs)
    decreases |names|
  {
    if names != [] {
      FirstUsable(env, names);
      if names[0] !in env.usable {
        PlayLogsRight(env, names[1..], n, Some(Skipped(names[0])));
      } else {
        var s := Segment(names[0], Attempts(env, n, env.MaxAttempts()));
        AttemptsAreTried(env, n, env.MaxAttempts());
        match AfterProvider(env, s, err)
        case Return(reply) =>
          assert [s][1..] == [];
        case GoOn(e) =>
          PlayLogsRight(env, names[1..], n + |s.calls|, e);
          var rest := Play(env, names[1..], n + |s.calls|, e);
          assert ([s] + rest.segs)[1..] == rest.segs;
      }
    }
  }

  /** And so is their reply. */
  lemma {:induction false} PlayRepliesRight<R>(env: Env<R>, names: seq<Name>, n: nat, err: Option<Error>)
    requires env.enabled ==> env.maxRetries >= 0
    ensures RightReply(env, names, err, Play(env, names, n, err).segs, Play(env, names, n, err).reply)
    decreases |names|
  {
    if names != [] {
      if names[0] !in env.usable {
        var e := Some(Skipped(names[0]));
        PlayRepliesRight(env, names[1..], n, e);
        FirstUsable(env, names);
        assert names[1..] != [] ==> Last(names[1..]) == Last(names);
      } else {
        var s := Segment(names[0], Attempts(env, n, env.MaxAttempts()));
        AttemptsAreTried(env, n, env.MaxAttempts());
        match AfterProvider(env, s, err)
        case Return(reply) =>
        case GoOn(e) =>
          PlayRepliesRight(env, names[1..], n + |s.calls|, e);
          ReplyCons(env, names, err, s, e, Play(env, names[1..], n + |s.calls|, e));
      }
    }
  }

  lemma FirstUsable<R>(env: Env<R>, names: seq<Name>)
    requires names != []
    ensures var usable, rest := UsableOnly(env, names), UsableOnly(env, names[1..]);
      if names[0] in env.usable then usable != [] && usable[0] == names[0] && usable[1..] == rest else usable == rest
  {
  }

  lemma ReplyCons<R>(env: Env<R>, names: seq<Name>, err: Option<Error>, s: Segment<R>, e: Option<Error>,
                     rest: Played<R>)
    requires names != [] && names[0] in env.usable && s.calls != [] && AfterProvider(env, s, err) == GoOn(e)
    ensures RightReply(env, names[1..], e, rest.segs, rest.reply)
      <==> RightReply(env, names, err, [s] + rest.segs, rest.reply)
  {
    var all := [s] + rest.segs;
    assert Failed(s) && e == Some(Last(s.calls).err) && !Stops(env);
    FirstUsable(env, names);
    if rest.segs != [] { assert Last(all) == Last(rest.segs); }
    if names[1..] != [] {
      assert Last(names) == Last(names[1..]);
      if Last(names) in env.usable { LastIsUsable(env, names[1..]); }
    } else {
      assert Last(names) == names[0];
    }
  }

  lemma {:induction false} LastIsUsable<R>(env: Env<R>, names: seq<Name>)
    requires names != [] && Last(names) in env.usable
    ensures UsableOnly(env, names) != []
    decreases |names|
  {
    if |names| > 1 { LastIsUsable(env, names[1..]); }
  }

  /** Any right log and reply are the loops' own: the two conditions fix them completely. */
  lemma {:induction false} RightIsPlay<R>(env: Env<R>, names: seq<Name>, n: nat, err: Option<Error>,
                                          segs: seq<Segment<R>>, reply: Reply<R>)
    requires env.enabled ==> env.maxRetries >= 0
    requires RightLog(env, UsableOnly(env, names), n, segs) && RightReply(env, names, err, segs, reply)
    ensures Play(env, names, n, err) == Played(segs, reply)
    decreases |names|
  {
    if names == [] {
    } else if names[0] !in env.usable {
      FirstUsable(env, names);
      assert names[1..] != [] ==> Last(names[1..]) == Last(names);
      RightIsPlay(env, names[1..], n, Some(Skipped(names[0])), segs, reply);
    } else {
      FirstUsable(env, names);
      assert segs != [];
      var s := segs[0];
      TriedIsAttempts(env, s.calls, n, env.MaxAttempts());
      assert segs == [s] + segs[1..];
      match AfterProvider(env, s, err)
      case Return(r) =>
        assert |segs| == 1;
      case GoOn(e) =>
        ReplyCons(env, names, err, s, e, Played(segs[1..], reply));
        RightIsPlay(env, names[1..], n + |s.calls|, e, segs[1..], reply);
    }
  }

  /**
   For any outcomes: the dispatchers' log is the usable providers in order, each a run of at
   most MaxRetries+1 calls whose non-final calls failed retryably, stopping at the first
   success; the reply is that success or the last error; and nothing else fits.
   */
  lemma FailoverRefinement<R>(env: Env<R>, names: seq<Name>, segs: seq<Segment<R>>, reply: Reply<R>)
    requires env.enabled ==> env.maxRetries >= 0
    ensures Play(env, names, 0, None) == Played(segs, reply)
       <==> RightLog(env, UsableOnly(env, names), 0, segs) && RightReply(env, names, None, segs, reply)
  {
    PlayLogsRight(env, names, 0, None);
    PlayRepliesRight(env, names, 0, None);
    if RightLog(env, UsableOnly(env, names), 0, segs) && RightReply(env, names, None, segs, reply) {
      RightIsPlay(env, names, 0, None, segs, reply);
    }
  }

  // ----- Never neither a response nor an error -----

  lemma {:induction false} NeitherExactlyWhen<R>(env: Env<R>, names: seq<Name>, n: nat, err: Option<Error>)
    ensures Play(env, names, n, err).reply == Reply(None, None)
       <==> (err.None? && (forall i :: 0 <= i < |names| ==> names[i] in env.usable)
             && (names == [] || (env.enabled && env.maxRetries < 0)))
    decreases |names|
  {
    if names != [] {
      assert forall i :: 0 <= i < |names[1..]| ==> names[1..][i] == names[i + 1];
      assert forall i :: 1 <= i < |names| ==> names[i] == names[1..][i - 1];
      if names[0] !in env.usable {
        NeitherExactlyWhen(env, names[1..], n, Some(Skipped(names[0])));
      } else {
        var s := Segment(names[0], Attempts(env, n, env.MaxAttempts()));
        if AfterProvider(env, s, err).GoOn? {
          NeitherExactlyWhen(env, names[1..], n + |s.calls|, AfterProvider(env, s, err).lastErr);
        }
        if env.MaxAttempts() >= 1 { AttemptsAreTried(env, n, env.MaxAttempts()); }
      }
    }
  }
}
