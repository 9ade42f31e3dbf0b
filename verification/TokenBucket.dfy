/**
 The token bucket of internal/plugin/builtin/ratelimit/ratelimit.go: its O(1) arithmetic
 admits a request exactly when a brute-force check of every past window does. Times are
 nanoseconds; float64 is modelled by real.
 */
module TokenBucket {

  const MINUTE: real := 60000000000.0

  /** The fields of a bucket. */
  datatype Level = Level(tokens: real, max: real, refillPer: real, lastFill: real)

  function Rate(rpm: nat): real {
    rpm as real / MINUTE
  }

  function Full(rpm: nat, now: real): Level {
    Level(rpm as real, rpm as real, Rate(rpm), now)
  }

  /** What is added between two instants at a rate per nanosecond. */
  function Gain(rate: real, from: real, to: real): real {
    (to - from) * rate
  }

  function Refilled(b: Level, now: real): real {
    var t := b.tokens + Gain(b.refillPer, b.lastFill, now);
    if t > b.max then b.max else t
  }

  function Allow(b: Level, now: real): (Level, bool) {
    var t := Refilled(b, now);
    if t < 1.0 then (b.(tokens := t, lastFill := now), false)
    else (b.(tokens := t - 1.0, lastFill := now), true)
  }

  /** The bucket as it stands in memory. */
  class Bucket {
    var tokens: real
    var max: real
    var refillPer: real
    var lastFill: real

    ghost function View(): Level
      reads this
    {
      Level(tokens, max, refillPer, lastFill)
    }

    constructor (rpm: nat, now: real)
      ensures View() == Full(rpm, now)
    {
      var m := rpm as real;
      tokens, max, refillPer, lastFill := m, m, m / MINUTE, now;
    }

    method TryTake(now: real) returns (ok: bool)
      modifies this
      ensures (View(), ok) == Allow(old(View()), now)
    {
      var elapsed := now - lastFill;
      assert elapsed * refillPer == Gain(refillPer, lastFill, now);
      tokens := tokens + elapsed * refillPer;
      if tokens > max {
        tokens := max;
      }
      lastFill := now;
      if tokens < 1.0 {
        return false;
      }
      tokens := tokens - 1.0;
      return true;
    }
  }

  // ----- Runs of one bucket -----

  /** Request times never decrease and none precedes the bucket. */
  ghost predicate Ordered(created: real, times: seq<real>) {
    && (forall i :: 0 <= i < |times| ==> created <= times[i])
    && (forall i, j :: 0 <= i < j < |times| ==> times[i] <= times[j])
  }

  ghost function After(rpm: nat, created: real, times: seq<real>): Level {
    if times == [] then Full(rpm, created)
    else Allow(After(rpm, created, times[..|times| - 1]), times[|times| - 1]).0
  }

  ghost predicate Admits(rpm: nat, created: real, times: seq<real>, now: real) {
    Allow(After(rpm, created, times), now).1
  }

  /** How many of the requests at the given times were admitted at s or later. */
  ghost function AdmittedSince(rpm: nat, created: real, times: seq<real>, s: real): nat {
    if times == [] then 0
    else
      var before, t := times[..|times| - 1], times[|times| - 1];
      AdmittedSince(rpm, created, before, s) + if t >= s && Admits(rpm, created, before, t) then 1 else 0
  }

  /** What a window of length hi - lo may admit: a burst of rpm, and rpm more for every minute of it. */
  ghost function Allowance(rpm: nat, lo: real, hi: real): (a: real)
    ensures a == rpm as real + Gain(Rate(rpm), lo, hi)
  {
    var nanosPerMinute := 60.0 * 1000000000.0;
    rpm as real + rpm as real * (hi - lo) / nanosPerMinute
  }

  lemma GainAdds(rate: real, a: real, b: real, c: real)
    ensures Gain(rate, a, b) + Gain(rate, b, c) == Gain(rate, a, c)
  {
  }

  lemma GainGrows(rate: real, a: real, b: real)
    requires rate >= 0.0 && a <= b
    ensures Gain(rate, a, b) >= 0.0
  {
  }

  ghost function LastTime(created: real, times: seq<real>): real {
    if times == [] then created else times[|times| - 1]
  }

  lemma {:induction false} Fields(rpm: nat, created: real, times: seq<real>)
    ensures var b := After(rpm, created, times);
      b.max == rpm as real && b.refillPer == Rate(rpm) && b.lastFill == LastTime(created, times)
  {
    if times != [] {
      Fields(rpm, created, times[..|times| - 1]);
    }
  }

  lemma {:induction false} NothingSince(rpm: nat, created: real, times: seq<real>, s: real)
    requires forall i :: 0 <= i < |times| ==> times[i] < s
    ensures AdmittedSince(rpm, created, times, s) == 0
  {
    if times != [] {
      NothingSince(rpm, created, times[..|times| - 1], s);
    }
  }

  lemma OrderedPrefix(created: real, times: seq<real>)
    requires Ordered(created, times) && times != []
    ensures var before := times[..|times| - 1];
      Ordered(created, before) && LastTime(created, before) <= LastTime(created, times)
  {
    var before := times[..|times| - 1];
    if before != [] { assert before[|before| - 1] == times[|times| - 2]; }
  }

  /** The level never exceeds what is left of any window ending now. */
  lemma {:induction false} LevelBelowEveryWindow(rpm: nat, created: real, times: seq<real>, s: real)
    requires Ordered(created, times) && s <= LastTime(created, times)
    ensures After(rpm, created, times).tokens
         <= Allowance(rpm, s, LastTime(created, times)) - AdmittedSince(rpm, created, times, s) as real
  {
    var r := Rate(rpm);
    GainGrows(r, s, LastTime(created, times));
    if times != [] {
      var before, t := times[..|times| - 1], times[|times| - 1];
      OrderedPrefix(created, times);
      Fields(rpm, created, before);
      var last := LastTime(created, before);
      if s <= last {
        LevelBelowEveryWindow(rpm, created, before, s);
        GainAdds(r, s, last, t);
      } else {
        forall i | 0 <= i < |before| ensures before[i] < s {
          assert before[i] <= last;
        }
        NothingSince(rpm, created, before, s);
      }
    }
  }

  /** Some window starting at a request time has exactly the level left. */
  ghost predicate Tight(rpm: nat, created: real, times: seq<real>, s: real) {
    After(rpm, created, times).tokens
    == Allowance(rpm, s, LastTime(created, times)) - AdmittedSince(rpm, created, times, s) as real
  }

  lemma {:induction false} LevelOfSomeWindow(rpm: nat, created: real, times: seq<real>) returns (s: real)
    requires Ordered(created, times) && times != []
    ensures s in times && Tight(rpm, created, times, s)
  {
    var r := Rate(rpm);
    var before, t := times[..|times| - 1], times[|times| - 1];
    OrderedPrefix(created, times);
    Fields(rpm, created, before);
    var b, last := After(rpm, created, before), LastTime(created, before);
    if Refilled(b, t) == rpm as real || before == [] {
      s := t;
      LevelBelowEveryWindow(rpm, created, times, t);
      if before == [] { GainGrows(r, created, t); }
    } else {
      s := LevelOfSomeWindow(rpm, created, before);
      GainAdds(r, s, last, t);
      assert s in times;
      assert s <= t by { var i :| 0 <= i < |before| && before[i] == s; assert times[i] == s; }
    }
  }

  /**
   A request at time now is admitted exactly when, for every earlier request time s and for
   now itself, the number admitted since s plus one is within the allowance of [s, now].
   */
  lemma AdmitsExactly(rpm: nat, created: real, times: seq<real>, now: real)
    requires Ordered(created, times + [now])
    ensures Admits(rpm, created, times, now)
       <==> forall s :: s in times + [now] ==>
              AdmittedSince(rpm, created, times, s) as real + 1.0 <= Allowance(rpm, s, now)
  {
    var all := times + [now];
    assert all[..|all| - 1] == times;
    if Admits(rpm, created, times, now) {
      forall s | s in all ensures AdmittedSince(rpm, created, times, s) as real + 1.0 <= Allowance(rpm, s, now) {
        assert s <= now by { var i :| 0 <= i < |all| && all[i] == s; assert all[|times|] == now; }
        AdmittedWithinEveryWindow(rpm, created, times, now, s);
      }
    } else {
      var s := LevelOfSomeWindow(rpm, created, all);
    }
  }

  /** An admitted request is within the allowance of every window ending at it, wherever that starts. */
  lemma AdmittedWithinEveryWindow(rpm: nat, created: real, times: seq<real>, now: real, s: real)
    requires Ordered(created, times + [now]) && Admits(rpm, created, times, now) && s <= now
    ensures AdmittedSince(rpm, created, times, s) as real + 1.0 <= Allowance(rpm, s, now)
  {
    var all := times + [now];
    assert all[..|all| - 1] == times;
    LevelBelowEveryWindow(rpm, created, all, s);
  }

  ghost function AdmittedIn(rpm: nat, created: real, times: seq<real>, lo: real, hi: real): nat {
    if times == [] then 0
    else
      var before, t := times[..|times| - 1], times[|times| - 1];
      AdmittedIn(rpm, created, before, lo, hi) + if lo <= t <= hi && Admits(rpm, created, before, t) then 1 else 0
  }

  lemma {:induction false} InWindowIsSince(rpm: nat, created: real, times: seq<real>, lo: real, hi: real)
    ensures AdmittedIn(rpm, created, times, lo, hi) <= AdmittedSince(rpm, created, times, lo)
  {
    if times != [] {
      InWindowIsSince(rpm, created, times[..|times| - 1], lo, hi);
    }
  }

  /** No closed window, wherever it starts and ends, ever admits more than its allowance. */
  lemma {:induction false} NoWindowExceeded(rpm: nat, created: real, times: seq<real>, lo: real, hi: real)
    requires Ordered(created, times) && lo <= hi
    ensures AdmittedIn(rpm, created, times, lo, hi) as real <= Allowance(rpm, lo, hi)
  {
    var r := Rate(rpm);
    GainGrows(r, lo, hi);
    if times != [] {
      var before, t := times[..|times| - 1], times[|times| - 1];
      OrderedPrefix(created, times);
      NoWindowExceeded(rpm, created, before, lo, hi);
      if lo <= t <= hi && Admits(rpm, created, before, t) {
        assert before + [t] == times;
        InWindowIsSince(rpm, created, before, lo, hi);
        AdmittedWithinEveryWindow(rpm, created, before, t, lo);
        GainAdds(r, lo, t, hi);
        GainGrows(r, t, hi);
      }
    }
  }
}
