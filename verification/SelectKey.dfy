/**
 selectKey of internal/proxy/engine.go: weighted choice among a provider's API keys by
 subtracting weights from one random draw.
 */
module SelectKey {
  import opened Common

  datatype KeyConfig = KeyConfig(key: string, weight: int, models: seq<string>)

  /** No usable key gives the empty string; rand.IntN panics on a total weight below 1. */
  datatype Choice = NoKey | Key(key: string) | Panic

  predicate Eligible(k: KeyConfig, model: string) {
    k.models == [] || model in k.models
  }

  function EligibleKeys(keys: seq<KeyConfig>, model: string): (r: seq<KeyConfig>)
    ensures forall k :: k in r <==> k in keys && (k.models == [] || model in k.models)
  {
    if keys == [] then []
    else
      var rest := EligibleKeys(keys[..|keys| - 1], model);
      var k := keys[|keys| - 1];
      assert keys == keys[..|keys| - 1] + [k];
      if Eligible(k, model) then rest + [k] else rest
  }

  function TotalWeight(keys: seq<KeyConfig>): int {
    if keys == [] then 0 else TotalWeight(keys[..|keys| - 1]) + keys[|keys| - 1].weight
  }

  /** The index the subtraction loop stops at for a draw, if it stops. */
  function Pick(keys: seq<KeyConfig>, draw: int): Option<nat> {
    if keys == [] then None
    else
      var before := Pick(keys[..|keys| - 1], draw);
      if before.Some? then before
      else if draw - TotalWeight(keys) < 0 then Some(|keys| - 1)
      else None
  }

  function Choose(keys: seq<KeyConfig>, model: string, draw: int): Choice {
    var e := EligibleKeys(keys, model);
    if e == [] then NoKey
    else if |e| == 1 then Key(e[0].key)
    else if TotalWeight(e) <= 0 then Panic
    else match Pick(e, draw)
      case Some(i) => if i < |e| then Key(e[i].key) else Key(e[0].key)
      case None => Key(e[0].key)
  }

  /** The filter loop: eligible keys and their total weight. */
  method FilterKeys(keys: seq<KeyConfig>, model: string) returns (eligible: seq<KeyConfig>, totalWeight: int)
    ensures eligible == EligibleKeys(keys, model) && totalWeight == TotalWeight(eligible)
  {
    totalWeight, eligible := 0, [];
    for i := 0 to |keys|
      invariant eligible == EligibleKeys(keys[..i], model) && totalWeight == TotalWeight(eligible)
    {
      assert keys[..i + 1][..i] == keys[..i];
      var k := keys[i];
      if |k.models| > 0 && model !in k.models {
        continue;
      }
      assert (eligible + [k])[..|eligible|] == eligible;
      eligible := eligible + [k];
      totalWeight := totalWeight + k.weight;
    }
    assert keys[..|keys|] == keys;
  }

  /** The subtraction loop. */
  method Subtract(keys: seq<KeyConfig>, draw: int) returns (at: Option<nat>)
    ensures at == Pick(keys, draw)
  {
    var r := draw;
    for i := 0 to |keys|
      invariant r == draw - TotalWeight(keys[..i]) && Pick(keys[..i], draw) == None
    {
      assert keys[..i + 1][..i] == keys[..i];
      r := r - keys[i].weight;
      if r < 0 {
        PickStays(keys, i + 1, draw);
        return Some(i);
      }
    }
    assert keys[..|keys|] == keys;
    return None;
  }

  /** The draw is what rand.IntN(total) returned; it matters only when a draw is made. */
  method SelectKey(keys: seq<KeyConfig>, model: string, draw: int) returns (c: Choice)
    ensures c == Choose(keys, model, draw)
  {
    var eligible, totalWeight := FilterKeys(keys, model);
    if |eligible| == 0 {
      return NoKey;
    }
    if |eligible| == 1 {
      return Key(eligible[0].key);
    }
    if totalWeight <= 0 {
      return Panic;
    }
    var at := Subtract(eligible, draw);
    if at.Some? && at.value < |eligible| {
      return Key(eligible[at.value].key);
    }
    return Key(eligible[0].key);
  }

  // ----- Proportionality -----

  /** Once the loop has stopped within a prefix, later keys do not matter. */
  lemma {:induction false} PickStays(keys: seq<KeyConfig>, n: nat, draw: int)
    requires n <= |keys| && Pick(keys[..n], draw).Some?
    ensures Pick(keys, draw) == Pick(keys[..n], draw)
    decreases |keys|
  {
    if n < |keys| {
      assert keys[..|keys| - 1][..n] == keys[..n];
      PickStays(keys[..|keys| - 1], n, draw);
    } else {
      assert keys[..n] == keys;
    }
  }

  /** The loop stops for every draw below the total, whatever the weights: the fallback is unreachable. */
  lemma FallbackUnreachable(keys: seq<KeyConfig>, draw: int)
    requires keys != [] && draw < TotalWeight(keys)
    ensures Pick(keys, draw).Some? && Pick(keys, draw).value < |keys|
  {
    PickInRange(keys, draw);
  }

  lemma {:induction false} PickInRange(keys: seq<KeyConfig>, draw: int)
    ensures Pick(keys, draw).Some? ==> Pick(keys, draw).value < |keys|
    decreases |keys|
  {
    if keys != [] { PickInRange(keys[..|keys| - 1], draw); }
  }

  ghost predicate NoNegative(keys: seq<KeyConfig>) {
    forall i :: 0 <= i < |keys| ==> keys[i].weight >= 0
  }

  /** Index i is chosen exactly for the draws in its own interval of its weight's length. */
  lemma {:induction false} PickIsInterval(keys: seq<KeyConfig>, draw: nat, i: nat)
    requires NoNegative(keys) && i < |keys|
    ensures Pick(keys, draw) == Some(i) <==> TotalWeight(keys[..i]) <= draw < TotalWeight(keys[..i]) + keys[i].weight
    decreases |keys|
  {
    var before := keys[..|keys| - 1];
    PickNoneIsHigh(before, draw);
    PickInRange(before, draw);
    if i < |before| {
      assert before[..i] == keys[..i];
      PickIsInterval(before, draw, i);
    } else {
      assert keys[..i] == before;
    }
  }

  lemma {:induction false} PickNoneIsHigh(keys: seq<KeyConfig>, draw: nat)
    requires NoNegative(keys)
    ensures Pick(keys, draw).None? <==> draw >= TotalWeight(keys)
    decreases |keys|
  {
    if keys != [] { PickNoneIsHigh(keys[..|keys| - 1], draw); }
  }

  ghost function Interval(lo: int, hi: int): (s: set<int>)
    requires lo <= hi
    ensures forall r :: r in s <==> lo <= r < hi
    ensures |s| == hi - lo
    decreases hi - lo
  {
    if lo == hi then {} else Interval(lo, hi - 1) + {hi - 1}
  }

  lemma {:induction false} PrefixWeights(keys: seq<KeyConfig>, i: nat)
    requires NoNegative(keys) && i < |keys|
    ensures 0 <= TotalWeight(keys[..i]) && TotalWeight(keys[..i]) + keys[i].weight <= TotalWeight(keys)
    decreases |keys|
  {
    var before := keys[..|keys| - 1];
    if i < |before| {
      assert before[..i] == keys[..i];
      PrefixWeights(before, i);
    } else {
      assert keys[..i] == before;
      if before != [] {
        PrefixWeights(before, |before| - 1);
        assert before[..|before| - 1] + [before[|before| - 1]] == before;
      }
    }
  }

  /** The draws, out of 0..total-1, for which the loop stops at index i. */
  ghost function DrawsFor(keys: seq<KeyConfig>, i: nat): set<int> {
    set draw | 0 <= draw < TotalWeight(keys) && Pick(keys, draw) == Some(i)
  }

  /** Each eligible index is chosen for exactly its weight's number of draws. */
  lemma ExactlyProportional(keys: seq<KeyConfig>, model: string, i: nat)
    requires NoNegative(EligibleKeys(keys, model)) && i < |EligibleKeys(keys, model)|
    ensures |DrawsFor(EligibleKeys(keys, model), i)| == EligibleKeys(keys, model)[i].weight
  {
    var e := EligibleKeys(keys, model);
    var lo := TotalWeight(e[..i]);
    PrefixWeights(e, i);
    forall draw ensures draw in DrawsFor(e, i) <==> draw in Interval(lo, lo + e[i].weight) {
      if draw >= 0 { PickIsInterval(e, draw, i); }
    }
    assert DrawsFor(e, i) == Interval(lo, lo + e[i].weight);
  }

  /** With a choice to make, the key returned is the one whose interval holds the draw. */
  lemma ChosenByInterval(keys: seq<KeyConfig>, model: string, draw: nat, i: nat)
    requires var e := EligibleKeys(keys, model); |e| > 1 && NoNegative(e) && draw < TotalWeight(e) && i < |e|
    requires var e := EligibleKeys(keys, model); TotalWeight(e[..i]) <= draw < TotalWeight(e[..i]) + e[i].weight
    ensures Choose(keys, model, draw) == Key(EligibleKeys(keys, model)[i].key)
  {
    PickIsInterval(EligibleKeys(keys, model), draw, i);
  }

  // ----- The same on the configuration itself -----

  /** The summed weights of the keys with this string that may serve the model. */
  ghost function WeightOf(keys: seq<KeyConfig>, model: string, name: string): int {
    if keys == [] then 0
    else
      var k := keys[0];
      (if k.key == name && (k.models == [] || model in k.models) then k.weight else 0)
      + WeightOf(keys[1..], model, name)
  }

  /** The summed weights of all keys that may serve the model, and how many there are. */
  ghost function WeightOfAll(keys: seq<KeyConfig>, model: string): int {
    if keys == [] then 0
    else (if keys[0].models == [] || model in keys[0].models then keys[0].weight else 0) + WeightOfAll(keys[1..], model)
  }

  ghost function Serving(keys: seq<KeyConfig>, model: string): nat {
    if keys == [] then 0
    else (if keys[0].models == [] || model in keys[0].models then 1 else 0) + Serving(keys[1..], model)
  }

  ghost function NamedWeight(keys: seq<KeyConfig>, name: string): int {
    if keys == [] then 0
    else NamedWeight(keys[..|keys| - 1], name) + if keys[|keys| - 1].key == name then keys[|keys| - 1].weight else 0
  }

  /** The last key of a configuration counts as the first does. */
  lemma {:induction false} WeighLast(keys: seq<KeyConfig>, k: KeyConfig, model: string, name: string)
    ensures var one := [k];
      && WeightOf(keys + one, model, name) == WeightOf(keys, model, name) + WeightOf(one, model, name)
      && WeightOfAll(keys + one, model) == WeightOfAll(keys, model) + WeightOfAll(one, model)
      && Serving(keys + one, model) == Serving(keys, model) + Serving(one, model)
    decreases |keys|
  {
    if keys == [] {
      assert keys + [k] == [k];
    } else {
      assert (keys + [k])[1..] == keys[1..] + [k];
      WeighLast(keys[1..], k, model, name);
    }
  }

  lemma AppendedKey(e: seq<KeyConfig>, k: KeyConfig, name: string)
    ensures NamedWeight(e + [k], name) == NamedWeight(e, name) + if k.key == name then k.weight else 0
    ensures TotalWeight(e + [k]) == TotalWeight(e) + k.weight
  {
    assert (e + [k])[..|e|] == e;
  }

  lemma SoleKey(k: KeyConfig, model: string, name: string)
    ensures var serves := k.models == [] || model in k.models;
      && WeightOf([k], model, name) == (if serves && k.key == name then k.weight else 0)
      && WeightOfAll([k], model) == (if serves then k.weight else 0)
      && Serving([k], model) == (if serves then 1 else 0)
  {
    assert [k][1..] == [];
  }

  lemma {:induction false} EligibleWeighs(keys: seq<KeyConfig>, model: string, name: string)
    ensures NamedWeight(EligibleKeys(keys, model), name) == WeightOf(keys, model, name)
    ensures TotalWeight(EligibleKeys(keys, model)) == WeightOfAll(keys, model)
    ensures |EligibleKeys(keys, model)| == Serving(keys, model)
    decreases |keys|
  {
    if keys != [] {
      var before, k := keys[..|keys| - 1], keys[|keys| - 1];
      EligibleWeighs(before, model, name);
      WeighLast(before, k, model, name);
      SoleKey(k, model, name);
      assert keys == before + [k];
      AppendedKey(EligibleKeys(before, model), k, name);
    }
  }

  /** The draws, out of 0..total-1, that stop at a key with this string. */
  ghost function DrawsNamed(keys: seq<KeyConfig>, name: string): set<int> {
    set draw | 0 <= draw < TotalWeight(keys) && PicksNamed(keys, draw, name)
  }

  ghost predicate PicksNamed(keys: seq<KeyConfig>, draw: int, name: string) {
    Pick(keys, draw).Some? && Pick(keys, draw).value < |keys| && keys[Pick(keys, draw).value].key == name
  }

  lemma PicksNamedStep(keys: seq<KeyConfig>, draw: nat, name: string)
    requires keys != [] && NoNegative(keys)
    ensures var before := keys[..|keys| - 1];
      PicksNamed(keys, draw, name) <==>
        if draw < TotalWeight(before) then PicksNamed(before, draw, name)
        else draw < TotalWeight(keys) && keys[|keys| - 1].key == name
  {
    var before := keys[..|keys| - 1];
    PickNoneIsHigh(before, draw);
    PickInRange(before, draw);
  }

  lemma {:induction false} NamedDraws(keys: seq<KeyConfig>, name: string)
    requires NoNegative(keys)
    ensures |DrawsNamed(keys, name)| == NamedWeight(keys, name) && TotalWeight(keys) >= 0
    decreases |keys|
  {
    if keys != [] {
      var before, k := keys[..|keys| - 1], keys[|keys| - 1];
      NamedDraws(before, name);
      var lo, hi := TotalWeight(before), TotalWeight(keys);
      var more := if k.key == name then Interval(lo, hi) else {};
      forall draw ensures draw in DrawsNamed(keys, name) <==> draw in DrawsNamed(before, name) || draw in more {
        if draw >= 0 { PicksNamedStep(keys, draw, name); }
      }
      assert DrawsNamed(keys, name) == DrawsNamed(before, name) + more;
      assert DrawsNamed(before, name) !! more;
    }
  }

  lemma {:induction false} EligibleNotNegative(keys: seq<KeyConfig>, model: string)
    requires NoNegative(keys)
    ensures NoNegative(EligibleKeys(keys, model))
    decreases |keys|
  {
    if keys != [] { EligibleNotNegative(keys[..|keys| - 1], model); }
  }

  /** The draws, out of 0..total-1, for which selectKey returns this string. */
  ghost function DrawsReturning(keys: seq<KeyConfig>, model: string, name: string): set<int> {
    set draw | 0 <= draw < WeightOfAll(keys, model) && Choose(keys, model, draw) == Key(name)
  }

  /**
   Over all draws each key string is returned exactly as often as its keys that may serve the model
   weigh, whenever there is a choice to make.
   */
  lemma ReturnedInProportion(keys: seq<KeyConfig>, model: string, name: string)
    requires NoNegative(keys) && Serving(keys, model) > 1
    ensures |DrawsReturning(keys, model, name)| == WeightOf(keys, model, name)
  {
    var e := EligibleKeys(keys, model);
    EligibleWeighs(keys, model, name);
    EligibleNotNegative(keys, model);
    NamedDraws(e, name);
    forall draw | 0 <= draw < TotalWeight(e)
      ensures Choose(keys, model, draw) == Key(name) <==> PicksNamed(e, draw, name)
    {
      FallbackUnreachable(e, draw);
    }
    assert DrawsReturning(keys, model, name) == DrawsNamed(e, name);
  }

  /** Nothing is returned exactly when no key serves the model; a panic needs a choice without weight. */
  lemma WithoutKey(keys: seq<KeyConfig>, model: string, draw: int)
    ensures Choose(keys, model, draw) == NoKey <==> Serving(keys, model) == 0
    ensures Choose(keys, model, draw) == Panic <==> Serving(keys, model) > 1 && WeightOfAll(keys, model) <= 0
  {
    EligibleWeighs(keys, model, "");
  }

  /** The only key that serves the model is returned whatever the draw. */
  lemma OnlyKey(keys: seq<KeyConfig>, model: string, draw: int, k: KeyConfig)
    requires Serving(keys, model) == 1 && k in keys && (k.models == [] || model in k.models)
    ensures Choose(keys, model, draw) == Key(k.key)
  {
    EligibleWeighs(keys, model, "");
    SoleMember(EligibleKeys(keys, model), k);
  }

  lemma SoleMember(e: seq<KeyConfig>, k: KeyConfig)
    requires |e| == 1 && k in e
    ensures e[0] == k
  {
  }

  /** A chosen key is one of the provider's, and its allowlist does not exclude the model. */
  lemma ChosenKeyServesModel(keys: seq<KeyConfig>, model: string, draw: int)
    requires Choose(keys, model, draw).Key?
    ensures exists k :: k in keys && k.key == Choose(keys, model, draw).key && (k.models == [] || model in k.models)
  {
    var e := EligibleKeys(keys, model);
    if |e| > 1 && Pick(e, draw).Some? && Pick(e, draw).value < |e| {
      assert e[Pick(e, draw).value] in e;
    } else {
      assert e[0] in e;
    }
  }
}
