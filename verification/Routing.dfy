/**
 How internal/proxy/engine.go chooses the providers of a request and how long it waits:
 resolveProviders, enforceScopes and backoff, joined to the failover loops of all four
 scoped dispatchers.
 */
module Routing {
  import opened Common
  import opened AppKey
  import opened Failover

  datatype Routes = Routes(models: map<string, seq<Name>>, defaultProvider: Name)

  /** An explicit provider wins over the model's route, a route over the default. */
  function ResolveProviders(r: Routes, model: string, explicit: Name): (names: seq<Name>)
    ensures explicit != "" ==> names == [explicit]
    ensures forall x :: x in names ==>
      x == explicit || x == r.defaultProvider || (model in r.models && x in r.models[model])
    ensures explicit == "" && model in r.models && r.models[model] != [] ==> names == r.models[model]
    ensures names == [] <==>
      explicit == "" && r.defaultProvider == "" && (model in r.models ==> r.models[model] == [])
  {
    if explicit != "" then [explicit]
    else if model in r.models && r.models[model] != [] then r.models[model]
    else if r.defaultProvider != "" then [r.defaultProvider]
    else []
  }

  // ----- Scopes -----

  predicate ModelAllowed(sc: Option<Scopes>, model: string) {
    sc.None? || sc.value.models == [] || model in sc.value.models
  }

  predicate ProviderAllowed(sc: Option<Scopes>, name: Name) {
    sc.None? || sc.value.providers == [] || name in sc.value.providers
  }

  function Permitted(sc: Option<Scopes>, names: seq<Name>): seq<Name> {
    if names == [] then []
    else
      var last := names[|names| - 1];
      Permitted(sc, names[..|names| - 1]) + if ProviderAllowed(sc, last) then [last] else []
  }

  /** enforceScopes: None is the 403 error. */
  method EnforceScopes(sc: Option<Scopes>, model: string, names: seq<Name>) returns (r: Option<seq<Name>>)
    ensures r == Enforced(sc, model, names)
  {
    if sc.None? {
      AllPermitted(sc, names);
      return Some(names);
    }
    if !ModelAllowed(sc, model) {
      return None;
    }
    if |sc.value.providers| > 0 {
      var filtered: seq<Name> := [];
      for i := 0 to |names|
        invariant filtered == Permitted(sc, names[..i])
      {
        assert names[..i + 1][..i] == names[..i];
        if ProviderAllowed(sc, names[i]) {
          filtered := filtered + [names[i]];
        }
      }
      assert names[..|names|] == names;
      return if |filtered| == 0 then None else Some(filtered);
    }
    AllPermitted(sc, names);
    return Some(names);
  }

  /** Whether a scope list restricts anything. */
  predicate Restricts(sc: Option<Scopes>) {
    sc.Some? && sc.value.providers != []
  }

  ghost function Enforced(sc: Option<Scopes>, model: string, names: seq<Name>): Option<seq<Name>> {
    if !ModelAllowed(sc, model) || (Restricts(sc) && Permitted(sc, names) == []) then None
    else Some(Permitted(sc, names))
  }

  lemma {:induction false} AllPermitted(sc: Option<Scopes>, names: seq<Name>)
    requires !Restricts(sc)
    ensures Permitted(sc, names) == names
  {
    if names != [] {
      AllPermitted(sc, names[..|names| - 1]);
      assert names == names[..|names| - 1] + [names[|names| - 1]];
    }
  }

  // ----- The scoped dispatchers end to end -----

  datatype Answer<+R> = NoProvider | Forbidden | Dispatched(reply: Reply<R>)

  /** Resolve, enforce, then loop; a native request never names a provider. */
  method Handle<R>(env: Env<R>, routes: Routes, sc: Option<Scopes>, model: string, explicit: Name)
    returns (answer: Answer<R>, segs: seq<Segment<R>>, pauses: seq<int>)
    requires env.kind.Native? ==> explicit == ""
    ensures Handled(env, routes, sc, model, explicit, answer, segs) && pauses == AllPauses(env.kind, segs)
  {
    var names := ResolveProviders(routes, model, explicit);
    if names == [] {
      return NoProvider, [], [];
    }
    var allowed := EnforceScopes(sc, model, names);
    if allowed.None? {
      return Forbidden, [], [];
    }
    var reply;
    segs, pauses, reply := Dispatch(env, allowed.value);
    answer := Dispatched(reply);
  }

  ghost predicate Handled<R>(env: Env<R>, routes: Routes, sc: Option<Scopes>, model: string, explicit: Name,
                             answer: Answer<R>, segs: seq<Segment<R>>)
  {
    var names := ResolveProviders(routes, model, explicit);
    if names == [] then answer.NoProvider? && segs == []
    else match Enforced(sc, model, names)
      case None => answer.Forbidden? && segs == []
      case Some(allowed) => answer.Dispatched? && Play(env, allowed, 0, None) == Played(segs, answer.reply)
  }

  ghost function Contacted<R>(segs: seq<Segment<R>>): seq<Name> {
    if segs == [] then [] else [segs[0].name] + Contacted(segs[1..])
  }

  lemma {:induction false} ContactedIsPrefix<R>(env: Env<R>, names: seq<Name>, n: nat, err: Option<Error>)
    ensures Contacted(Play(env, names, n, err).segs) <= UsableOnly(env, names)
    decreases |names|
  {
    if names != [] {
      FirstUsable(env, names);
      if names[0] !in env.usable {
        ContactedIsPrefix(env, names[1..], n, Some(Skipped(names[0])));
      } else {
        var s := Segment(names[0], Attempts(env, n, env.MaxAttempts()));
        match AfterProvider(env, s, err)
        case Return(_) =>
          assert [s][1..] == [];
          assert UsableOnly(env, names) == [names[0]] + UsableOnly(env, names[1..]);
        case GoOn(e) =>
          var rest := Play(env, names[1..], n + |s.calls|, e);
          ContactedIsPrefix(env, names[1..], n + |s.calls|, e);
          assert ([s] + rest.segs)[1..] == rest.segs;
          assert UsableOnly(env, names) == [names[0]] + UsableOnly(env, names[1..]);
      }
    }
  }

  lemma {:induction false} UsableAreNames<R>(env: Env<R>, names: seq<Name>)
    ensures forall x :: x in UsableOnly(env, names) ==> x in names
    decreases |names|
  {
    if names != [] {
      UsableAreNames(env, names[1..]);
      FirstUsable(env, names);
    }
  }

  lemma {:induction false} PermittedAreAllowed(sc: Option<Scopes>, names: seq<Name>)
    ensures forall x :: x in Permitted(sc, names) <==> x in names && ProviderAllowed(sc, x)
  {
    if names != [] {
      PermittedAreAllowed(sc, names[..|names| - 1]);
      assert names == names[..|names| - 1] + [names[|names| - 1]];
    }
  }

  /** The names on a list, in routed order. */
  ghost function Listed(names: seq<Name>, list: seq<Name>): seq<Name> {
    if names == [] then []
    else (if names[0] in list then [names[0]] else []) + Listed(names[1..], list)
  }

  lemma {:induction false} ListedLast(names: seq<Name>, x: Name, list: seq<Name>)
    ensures Listed(names + [x], list) == Listed(names, list) + if x in list then [x] else []
    decreases |names|
  {
    if names == [] {
      assert names + [x] == [x] && [x][1..] == [];
    } else {
      assert (names + [x])[1..] == names[1..] + [x];
      ListedLast(names[1..], x, list);
    }
  }

  lemma {:induction false} PermittedIsListed(sc: Option<Scopes>, names: seq<Name>)
    requires Restricts(sc)
    ensures Permitted(sc, names) == Listed(names, sc.value.providers)
    decreases |names|
  {
    if names != [] {
      var before, last := names[..|names| - 1], names[|names| - 1];
      PermittedIsListed(sc, before);
      ListedLast(before, last, sc.value.providers);
      assert names == before + [last];
    }
  }

  /** The providers a key may use: those of its list, or all when it has none. */
  ghost function Usable(sc: Option<Scopes>, names: seq<Name>): seq<Name> {
    if sc.Some? && sc.value.providers != [] then Listed(names, sc.value.providers) else names
  }

  /** The key's scopes name models, and not this one. */
  ghost predicate ModelDenied(sc: Option<Scopes>, model: string) {
    sc.Some? && sc.value.models != [] && model !in sc.value.models
  }

  lemma PermittedIsUsable(sc: Option<Scopes>, names: seq<Name>)
    ensures Permitted(sc, names) == Usable(sc, names)
  {
    if Restricts(sc) {
      PermittedIsListed(sc, names);
    } else {
      AllPermitted(sc, names);
    }
  }

  /** enforceScopes on the lists: refused exactly when the model is denied or no routed provider is listed. */
  lemma EnforcedOnLists(sc: Option<Scopes>, model: string, names: seq<Name>)
    requires names != []
    ensures Enforced(sc, model, names).None? <==> ModelDenied(sc, model) || Usable(sc, names) == []
    ensures Enforced(sc, model, names).Some? ==> Enforced(sc, model, names).value == Usable(sc, names)
  {
    PermittedIsUsable(sc, names);
  }

  lemma {:induction false} ListedAre(names: seq<Name>, list: seq<Name>)
    ensures forall x :: x in Listed(names, list) <==> x in names && x in list
  {
    if names != [] { ListedAre(names[1..], list); }
  }

  /**
   In all four dispatchers the providers contacted, across all retries, are the first of the usable
   ones among the routed providers that the key's list names, in routed order; every one is on
   that list if there is one; and none is contacted when the key's models do not name this one.
   */
  lemma ScopeConfinement<R>(env: Env<R>, routes: Routes, sc: Option<Scopes>, model: string, explicit: Name,
                            answer: Answer<R>, segs: seq<Segment<R>>)
    requires Handled(env, routes, sc, model, explicit, answer, segs)
    ensures Contacted(segs) <= UsableOnly(env, Usable(sc, ResolveProviders(routes, model, explicit)))
    ensures forall x :: x in Contacted(segs) ==> x in ResolveProviders(routes, model, explicit)
    ensures sc.Some? && sc.value.providers != [] ==> forall x :: x in Contacted(segs) ==> x in sc.value.providers
    ensures sc.Some? && sc.value.models != [] && model !in sc.value.models ==> Contacted(segs) == []
  {
    var names := ResolveProviders(routes, model, explicit);
    if names != [] {
      EnforcedOnLists(sc, model, names);
      if Enforced(sc, model, names).Some? {
        var allowed := Usable(sc, names);
        ContactedIsPrefix(env, allowed, 0, None);
        UsableAreNames(env, allowed);
        if sc.Some? { ListedAre(names, sc.value.providers); }
        assert forall x :: x in Contacted(segs) ==> x in UsableOnly(env, allowed);
      }
    }
  }

  /** A request is refused exactly when the key's lists exclude its model or every routed provider. */
  lemma ForbiddenExactlyWhen<R>(env: Env<R>, routes: Routes, sc: Option<Scopes>, model: string, explicit: Name,
                                answer: Answer<R>, segs: seq<Segment<R>>)
    requires Handled(env, routes, sc, model, explicit, answer, segs)
    ensures var names := ResolveProviders(routes, model, explicit);
      answer.Forbidden? <==> (names != [] && sc.Some?
        && ((sc.value.models != [] && model !in sc.value.models)
            || (sc.value.providers != [] && forall x :: x in names ==> x !in sc.value.providers)))
  {
    var names := ResolveProviders(routes, model, explicit);
    if names != [] {
      EnforcedOnLists(sc, model, names);
      if sc.Some? {
        ListedAre(names, sc.value.providers);
        var kept := Listed(names, sc.value.providers);
        if kept != [] { assert kept[0] in kept; }
      }
    }
  }

  // ----- Pauses -----

  function Pow(base: real, exp: int): real
    decreases exp
  {
    if exp <= 0 then 1.0 else Pow(base, exp - 1) * base
  }

  method ComputePow(base: real, exp: int) returns (result: real)
    ensures result == Pow(base, exp)
  {
    result := 1.0;
    var i := 0;
    while i < exp
      invariant 0 <= i && (i <= exp || i == 0) && result == Pow(base, i)
    {
      result := result * base;
      i := i + 1;
    }
  }

  function Delay(b: Backoff, exp: int): real {
    var d := b.initial * Pow(b.multiplier, exp);
    if d > b.max then b.max else d
  }

  /** backoff: the delay handed to sleep. */
  method ComputeDelay(b: Backoff, exp: int) returns (d: real)
    ensures d == Delay(b, exp)
  {
    var p := ComputePow(b.multiplier, exp);
    d := b.initial * p;
    if d > b.max {
      d := b.max;
    }
  }

  ghost function Multiplied(factors: seq<real>): real {
    if factors == [] then 1.0 else factors[0] * Multiplied(factors[1..])
  }

  ghost function Copies(x: real, n: nat): seq<real> {
    seq(n, i requires 0 <= i < n => x)
  }

  lemma {:induction false} PowIsProduct(base: real, n: nat)
    ensures Pow(base, n) == Multiplied(Copies(base, n))
    decreases n
  {
    if n > 0 {
      PowIsProduct(base, n - 1);
      assert Copies(base, n)[1..] == Copies(base, n - 1);
    }
  }

  lemma {:induction false} PauseExponents(kind: Kind, count: nat, i: nat)
    requires i + 1 < count
    ensures |Pauses(kind, count)| == count - 1 && Pauses(kind, count)[i] == if kind.Native? then i + 1 else i
    decreases count
  {
    if i + 2 < count {
      PauseExponents(kind, count - 1, i);
    } else if count > 2 {
      PauseExponents(kind, count - 1, i - 1);
    }
  }

  /**
   The pause before retry i (from 0) of a provider: the initial delay times the multiplier once for each
   earlier retry, and once more in the native dispatcher, capped at the maximum.
   */
  lemma PauseBeforeRetry(kind: Kind, b: Backoff, count: nat, i: nat)
    requires i + 1 < count
    ensures |Pauses(kind, count)| == count - 1
    ensures var d := b.initial * Multiplied(Copies(b.multiplier, if kind.Native? then i + 1 else i));
      Delay(b, Pauses(kind, count)[i]) == if d > b.max then b.max else d
  {
    PauseExponents(kind, count, i);
    PowIsProduct(b.multiplier, if kind.Native? then i + 1 else i);
  }

  lemma TimesGrows(a: real, b: real, c: real)
    requires a >= 0.0 && b <= c
    ensures a * b <= a * c
  {
  }

  lemma {:induction false} PowGrows(base: real, m: nat, n: nat)
    requires base >= 1.0 && m <= n
    ensures 1.0 <= Pow(base, m) <= Pow(base, n)
    decreases n
  {
    if m < n {
      PowGrows(base, m, n - 1);
      TimesGrows(Pow(base, n - 1), 1.0, base);
    } else if n > 0 {
      PowGrows(base, n - 1, n - 1);
      TimesGrows(Pow(base, n - 1), 1.0, base);
    }
  }

  /** With a multiplier of at least one, a later retry never waits less than an earlier one. */
  lemma DelayGrows(b: Backoff, m: nat, n: nat)
    requires b.initial >= 0.0 && b.multiplier >= 1.0 && m <= n
    ensures Delay(b, m) <= Delay(b, n)
  {
    PowGrows(b.multiplier, m, n);
    TimesGrows(b.initial, Pow(b.multiplier, m), Pow(b.multiplier, n));
  }

  /** Sleeping a negative time is not sleeping. */
  function Slept(b: Backoff, pauses: seq<int>): real {
    if pauses == [] then 0.0
    else
      var d := Delay(b, pauses[|pauses| - 1]);
      Slept(b, pauses[..|pauses| - 1]) + if d > 0.0 then d else 0.0
  }

  function Ceiling(b: Backoff): real {
    if b.max > 0.0 then b.max else 0.0
  }

  function Product(a: nat, b: nat): nat {
    a * b
  }

  function Scaled(n: nat, m: real): real {
    n as real * m
  }

  lemma ProductStep(a: nat, b: nat)
    ensures Product(a + 1, b) == Product(a, b) + b && Product(0, b) == 0
  {
  }

  lemma ScaledStep(n: nat, m: real)
    ensures Scaled(n + 1, m) == Scaled(n, m) + m && Scaled(0, m) == 0.0
  {
  }

  lemma {:induction false} ScaledGrows(a: nat, b: nat, m: real)
    requires a <= b && m >= 0.0
    ensures Scaled(a, m) <= Scaled(b, m)
    decreases b - a
  {
    if a < b {
      ScaledGrows(a, b - 1, m);
      ScaledStep(b - 1, m);
    }
  }

  lemma {:induction false} SleptBound(b: Backoff, pauses: seq<int>)
    ensures Slept(b, pauses) <= Scaled(|pauses|, Ceiling(b))
  {
    ScaledStep(0, Ceiling(b));
    if pauses != [] {
      SleptBound(b, pauses[..|pauses| - 1]);
      ScaledStep(|pauses| - 1, Ceiling(b));
      DelayBound(b, pauses[|pauses| - 1]);
    }
  }

  lemma DelayBound(b: Backoff, exp: int)
    ensures Delay(b, exp) <= Ceiling(b)
  {
  }

  lemma {:induction false} PauseCount(kind: Kind, count: nat)
    ensures |Pauses(kind, count)| == if count <= 1 then 0 else count - 1
  {
    if count > 1 { PauseCount(kind, count - 1); }
  }

  lemma {:induction false} AttemptCount<R>(env: Env<R>, n: nat, left: int)
    ensures |Attempts(env, n, left)| <= if left <= 0 then 0 else left
    decreases left
  {
    if left > 0 && !env.EndsProvider(env.outcome(n)) { AttemptCount(env, n + 1, left - 1); }
  }

  function Retries<R>(env: Env<R>): nat {
    if env.enabled && env.maxRetries > 0 then env.maxRetries else 0
  }

  lemma {:induction false} AllPausesCons<R>(kind: Kind, s: Segment<R>, segs: seq<Segment<R>>)
    ensures |AllPauses(kind, [s] + segs)| == |Pauses(kind, |s.calls|)| + |AllPauses(kind, segs)|
    decreases |segs|
  {
    var all := [s] + segs;
    if segs == [] {
      assert all[..0] == [];
    } else {
      AllPausesCons(kind, s, segs[..|segs| - 1]);
      assert all[..|all| - 1] == [s] + segs[..|segs| - 1];
    }
  }

  lemma ProviderPauses<R>(env: Env<R>, n: nat)
    ensures |Pauses(env.kind, |Attempts(env, n, env.MaxAttempts())|)| <= Retries(env)
  {
    AttemptCount(env, n, env.MaxAttempts());
    PauseCount(env.kind, |Attempts(env, n, env.MaxAttempts())|);
  }

  lemma {:induction false} PlayPauses<R>(env: Env<R>, names: seq<Name>, n: nat, err: Option<Error>)
    ensures |AllPauses(env.kind, Play(env, names, n, err).segs)| <= Product(|names|, Retries(env))
    decreases |names|
  {
    var r := Retries(env);
    ProductStep(0, r);
    if names != [] {
      ProductStep(|names| - 1, r);
      if names[0] !in env.usable {
        PlayPauses(env, names[1..], n, Some(Skipped(names[0])));
      } else {
        var s := Segment(names[0], Attempts(env, n, env.MaxAttempts()));
        ProviderPauses(env, n);
        match AfterProvider(env, s, err)
        case Return(_) =>
          AllPausesCons(env.kind, s, []);
          assert [s] + [] == [s];
        case GoOn(e) =>
          PlayPauses(env, names[1..], n + |s.calls|, e);
          AllPausesCons(env.kind, s, Play(env, names[1..], n + |s.calls|, e).segs);
      }
    }
  }

  /** The time spent backing off is at most providers * MaxRetries * Max, for any settings. */
  lemma BoundedDelay<R>(env: Env<R>, names: seq<Name>)
    ensures Slept(env.backoff, AllPauses(env.kind, Play(env, names, 0, None).segs))
         <= Scaled(Product(|names|, Retries(env)), Ceiling(env.backoff))
  {
    var pauses := AllPauses(env.kind, Play(env, names, 0, None).segs);
    SleptBound(env.backoff, pauses);
    PlayPauses(env, names, 0, None);
    ScaledGrows(|pauses|, Product(|names|, Retries(env)), Ceiling(env.backoff));
  }
}
