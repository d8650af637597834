/** SubscriptionRateThrottle: the sliding window of accepted requests behind a plan's rate limit. */
module Throttle {
  import opened Wrappers

  /** A plan "requests/unit". */
  datatype Limit = Limit(requests: int, unit: string)

  /** `NoPlan` is a signed-in user whose plan names no limit. */
  datatype User = Staff | NoPlan | Planned(limit: Limit) | Anonymous

  /** What the framework's settings configure for the scope. */
  datatype Rate = Rate(numRequests: int, duration: real)

  /** The length of a unit in seconds, as the code has it. */
  function DurationOf(unit: string): Option<real> {
    if unit == "m" then Some(1.0)
    else if unit == "h" then Some(60.0)
    else if unit == "d" then Some(86400.0)
    else None
  }

  // ---- one request

  /** Histories are newest first; what has passed out of the window is dropped from the tail. */
  function Trim(h: seq<real>, cutoff: real): seq<real> {
    if h != [] && h[|h| - 1] <= cutoff then Trim(h[..|h| - 1], cutoff) else h
  }

  /** A request at time `now`: the history left in the cache, and whether it was let through. A
      refused request leaves the cached history as it was. */
  function Request(h: seq<real>, now: real, rate: Rate): (seq<real>, bool) {
    var kept := Trim(h, now - rate.duration);
    if |kept| >= rate.numRequests then (h, false) else ([now] + kept, true)
  }

  // ---- a run of requests under one plan

  /** The requests let through, in order of time, and the history they leave. */
  function Run(times: seq<real>, rate: Rate): (seq<real>, seq<real>) {
    if times == [] then ([], [])
    else
      var n := |times| - 1;
      var (accepted, h) := Run(times[..n], rate);
      var (h', ok) := Request(h, times[n], rate);
      (if ok then accepted + [times[n]] else accepted, h')
  }

  /** How many of `s` lie in the window (lo, hi]. */
  function CountIn(s: seq<real>, lo: real, hi: real): nat {
    if s == [] then 0
    else CountIn(s[..|s| - 1], lo, hi) + if lo < s[|s| - 1] <= hi then 1 else 0
  }

  /** Those later than `cutoff`, newest first. */
  function Recent(accepted: seq<real>, cutoff: real): seq<real> {
    if accepted == [] then []
    else
      var n := |accepted| - 1;
      (if accepted[n] > cutoff then [accepted[n]] else []) + Recent(accepted[..n], cutoff)
  }

  ghost predicate Ascending(s: seq<real>) {
    forall i, j :: 0 <= i < j < |s| ==> s[i] <= s[j]
  }

  ghost predicate UpTo(s: seq<real>, t: real) {
    forall i :: 0 <= i < |s| ==> s[i] <= t
  }

  lemma {:induction false} NoneRecent(s: seq<real>, cutoff: real)
    requires UpTo(s, cutoff)
    ensures Recent(s, cutoff) == []
  {
    if s != [] { NoneRecent(s[..|s| - 1], cutoff); }
  }

  /** In an ascending sequence the recent elements are a suffix, so an older cutoff only lengthens
      the history at its tail. */
  lemma {:induction false} TrimRecent(accepted: seq<real>, earlier: real, cutoff: real)
    requires Ascending(accepted) && earlier <= cutoff
    ensures Trim(Recent(accepted, earlier), cutoff) == Recent(accepted, cutoff)
  {
    if accepted != [] {
      var n := |accepted| - 1;
      var x, front := accepted[n], accepted[..n];
      TrimRecent(front, earlier, cutoff);
      if x > cutoff {
        TrimBehind(x, Recent(front, earlier), cutoff);
      } else {
        NoneRecent(front, cutoff);
        if x > earlier {
          TrimAway(x, Recent(front, earlier), cutoff);
        } else {
          assert [] + Recent(front, earlier) == Recent(front, earlier);
        }
      }
    }
  }

  lemma {:induction false} TrimBehind(x: real, h: seq<real>, cutoff: real)
    requires x > cutoff
    ensures Trim([x] + h, cutoff) == [x] + Trim(h, cutoff)
  {
    if h != [] && h[|h| - 1] <= cutoff {
      TrimBehind(x, h[..|h| - 1], cutoff);
      assert ([x] + h)[..|h|] == [x] + h[..|h| - 1];
    }
  }

  lemma {:induction false} TrimAway(x: real, h: seq<real>, cutoff: real)
    requires x <= cutoff && Trim(h, cutoff) == []
    ensures Trim([x] + h, cutoff) == []
  {
    if h == [] {
      assert ([x] + h)[..0] == [];
    } else {
      TrimAway(x, h[..|h| - 1], cutoff);
      assert ([x] + h)[..|h|] == [x] + h[..|h| - 1];
    }
  }

  lemma {:induction false} RecentCount(s: seq<real>, lo: real, hi: real)
    requires UpTo(s, hi)
    ensures |Recent(s, lo)| == CountIn(s, lo, hi)
  {
    if s != [] { RecentCount(s[..|s| - 1], lo, hi); }
  }

  /** Whatever was trimmed so far, the cached history `h` holds every accepted request that can
      still matter: those after `cut`, where `cut` is not inside the window that ends at `t`. */
  ghost predicate Remembers(accepted: seq<real>, h: seq<real>, cut: real, t: real, rate: Rate) {
    Ascending(accepted) && UpTo(accepted, t) && h == Recent(accepted, cut) && cut <= t - rate.duration
  }

  lemma {:induction false} RequestRemembers(accepted: seq<real>, h: seq<real>, cut: real, t: real, now: real,
      rate: Rate)
    requires Remembers(accepted, h, cut, t, rate) && t <= now && rate.duration > 0.0
    ensures Trim(h, now - rate.duration) == Recent(accepted, now - rate.duration)
    ensures Request(h, now, rate).1 ==>
      Remembers(accepted + [now], Request(h, now, rate).0, now - rate.duration, now, rate)
    ensures !Request(h, now, rate).1 ==> Remembers(accepted, Request(h, now, rate).0, cut, now, rate)
  {
    hide Trim, Recent, Ascending, UpTo;
    TrimRecent(accepted, cut, now - rate.duration);
    RecentSnoc(accepted, now, now - rate.duration);
    AscendingSnoc(accepted, t, now);
  }

  lemma {:induction false} AscendingSnoc(s: seq<real>, t: real, x: real)
    requires Ascending(s) && UpTo(s, t) && t <= x
    ensures Ascending(s + [x]) && UpTo(s + [x], x) && UpTo(s, x)
  {}

  lemma {:induction false} RecentSnoc(s: seq<real>, x: real, cutoff: real)
    ensures Recent(s + [x], cutoff) == (if x > cutoff then [x] else []) + Recent(s, cutoff)
  {
    assert (s + [x])[..|s|] == s;
  }

  lemma {:induction false} RunRemembers(times: seq<real>, now: real, rate: Rate) returns (cut: real)
    requires Ascending(times) && UpTo(times, now) && rate.duration > 0.0
    ensures Remembers(Run(times, rate).0, Run(times, rate).1, cut, now, rate)
  {
    if times == [] {
      cut := now - rate.duration;
    } else {
      var front, t := times[..|times| - 1], times[|times| - 1];
      cut := RunRemembers(front, t, rate);
      var (accepted, h) := Run(front, rate);
      RequestRemembers(accepted, h, cut, t, t, rate);
      if Request(h, t, rate).1 {
        cut := t - rate.duration;
      }
    }
  }

  /** A request is let through exactly when fewer than the plan's number were let through in the
      window that ends with it. */
  lemma {:induction false} AcceptedIff(times: seq<real>, now: real, rate: Rate)
    requires Ascending(times) && UpTo(times, now) && rate.duration > 0.0
    ensures Request(Run(times, rate).1, now, rate).1
       <==> CountIn(Run(times, rate).0, now - rate.duration, now) < rate.numRequests
  {
    hide Run, CountIn, Recent, Trim, Ascending;
    var (accepted, h) := Run(times, rate);
    var cut := RunRemembers(times, now, rate);
    RequestRemembers(accepted, h, cut, now, now, rate);
    RecentCount(accepted, now - rate.duration, now);
  }

  /** A plan in "m" looks back over one second and a plan in "h" over sixty, where their names suggest a
      minute and an hour; only "d" is a day. */
  lemma {:induction false} UnitWindow(times: seq<real>, now: real, n: int)
    requires Ascending(times) && UpTo(times, now)
    ensures forall unit :: DurationOf(unit).Some? <==> unit in {"m", "h", "d"}
    ensures var rate := Rate(n, DurationOf("m").value);
      Request(Run(times, rate).1, now, rate).1 <==> CountIn(Run(times, rate).0, now - 1.0, now) < n
    ensures var rate := Rate(n, DurationOf("h").value);
      Request(Run(times, rate).1, now, rate).1 <==> CountIn(Run(times, rate).0, now - 60.0, now) < n
    ensures var rate := Rate(n, DurationOf("d").value);
      Request(Run(times, rate).1, now, rate).1 <==> CountIn(Run(times, rate).0, now - 24.0 * 3600.0, now) < n
  {
    hide Run, Request, CountIn, Ascending, UpTo;
    AcceptedIff(times, now, Rate(n, DurationOf("m").value));
    AcceptedIff(times, now, Rate(n, DurationOf("h").value));
    AcceptedIff(times, now, Rate(n, DurationOf("d").value));
  }

  lemma {:induction false} CountWider(s: seq<real>, lo: real, hi: real, lo': real, hi': real)
    requires lo' <= lo && hi <= hi'
    ensures CountIn(s, lo, hi) <= CountIn(s, lo', hi')
  {
    if s != [] { CountWider(s[..|s| - 1], lo, hi, lo', hi'); }
  }

  /** Over every run on a clock that does not go back, no window of the plan's length holds more
      accepted requests than the plan allows. */
  lemma {:induction false} WindowBound(times: seq<real>, rate: Rate, a: real)
    requires Ascending(times) && rate.duration > 0.0
    ensures CountIn(Run(times, rate).0, a, a + rate.duration) <= if rate.numRequests < 0 then 0 else rate.numRequests
  {
    hide Run, CountIn, Request;
    RunUnfold(times, rate);
    CountUnfold([], 0.0, a, a + rate.duration);
    if times != [] {
      var front, now := times[..|times| - 1], times[|times| - 1];
      var (accepted, h) := Run(front, rate);
      WindowBound(front, rate, a);
      AcceptedIff(front, now, rate);
      if Request(h, now, rate).1 {
        CountUnfold(accepted, now, a, a + rate.duration);
        if a < now <= a + rate.duration {
          var cut := RunRemembers(front, now, rate);
          AllUpTo(accepted, a, a + rate.duration, now);
          CountWider(accepted, a, now, now - rate.duration, now);
        }
      }
    }
  }

  lemma {:induction false} RunUnfold(times: seq<real>, rate: Rate)
    ensures if times == [] then Run(times, rate).0 == []
            else
              var before, now := Run(times[..|times| - 1], rate), times[|times| - 1];
              Run(times, rate).0 == if Request(before.1, now, rate).1 then before.0 + [now] else before.0
  {}

  lemma {:induction false} CountUnfold(s: seq<real>, x: real, lo: real, hi: real)
    ensures CountIn([], lo, hi) == 0
    ensures CountIn(s + [x], lo, hi) == CountIn(s, lo, hi) + if lo < x <= hi then 1 else 0
  {
    assert (s + [x])[..|s|] == s;
  }

  lemma {:induction false} AllUpTo(s: seq<real>, lo: real, hi: real, t: real)
    requires UpTo(s, t) && t <= hi
    ensures CountIn(s, lo, hi) == CountIn(s, lo, t)
  {
    if s != [] { AllUpTo(s[..|s| - 1], lo, hi, t); }
  }

  lemma {:induction false} NothingServed(rate: Rate)
    ensures Run([], rate) == ([], [])
  {}

  lemma {:induction false} RunStep(times: seq<real>, i: nat, rate: Rate)
    requires i < |times|
    ensures var (accepted, h) := Run(times[..i], rate);
      var (h', ok) := Request(h, times[i], rate);
      Run(times[..i + 1], rate) == (if ok then accepted + [times[i]] else accepted, h') && (ok || h' == h)
  {
    assert times[..i + 1][..i] == times[..i];
  }

  // ---- the class

  class SubscriptionRateThrottle {
    var numRequests: int
    var duration: real
    const configured: bool  // a default rate is configured
    var cache: map<string, seq<real>>

    constructor (default: Option<Rate>)
      ensures cache == map[] && configured == default.Some?
      ensures default.Some? ==> Rate(numRequests, duration) == default.value
    {
      configured := default.Some?;
      numRequests, duration := if default.Some? then default.value.numRequests else 0,
                               if default.Some? then default.value.duration else 0.0;
      cache := map[];
    }

    /** The rate that applies to a user: a plan in a known unit overrides the configured one. */
    function RateFor(user: User): Rate
      reads this
    {
      match user
      case Planned(limit) =>
        (match DurationOf(limit.unit)
         case Some(d) => Rate(limit.requests, d)
         case None => Rate(numRequests, duration))
      case _ => Rate(numRequests, duration)
    }

    /** allow_request; `key` is the cache key of the request, if it has one. */
    method AllowRequest(user: User, key: Option<string>, now: real) returns (ok: bool)
      modifies this
      ensures user.Staff? || user.NoPlan? || !configured || key.None? ==> ok && cache == old(cache)
      ensures !(user.Staff? || user.NoPlan? || !configured || key.None?) ==>
        var before := if key.value in old(cache) then old(cache)[key.value] else [];
        var (h, allowed) := Request(before, now, old(RateFor(user)));
        ok == allowed && cache == if ok then old(cache)[key.value := h] else old(cache)
      ensures Rate(numRequests, duration) ==
        if user.Planned? then old(RateFor(user)) else Rate(old(numRequests), old(duration))
    {
      if user.Staff? {
        return true;
      }
      if user.Planned? {
        var d := DurationOf(user.limit.unit);
        if d.Some? {
          duration := d.value;
          numRequests := user.limit.requests;
        }
      } else if user.NoPlan? {
        return true;
      }
      if !configured || key.None? {
        return true;
      }
      var history := if key.value in cache then cache[key.value] else [];
      ghost var stored := history;
      while history != [] && history[|history| - 1] <= now - duration
        invariant Trim(history, now - duration) == Trim(stored, now - duration)
      {
        history := history[..|history| - 1];
      }
      if |history| >= numRequests {
        return false;
      }
      cache := cache[key.value := [now] + history];
      return true;
    }
  }

  /** The requests of one user on a plan, served one after the other: the run specified above is
      what the class computes. */
  method Serve(throttle: SubscriptionRateThrottle, limit: Limit, key: string, times: seq<real>)
      returns (accepted: seq<real>)
    requires throttle.configured && key !in throttle.cache && DurationOf(limit.unit).Some?
    modifies throttle
    ensures accepted == Run(times, Rate(limit.requests, DurationOf(limit.unit).value)).0
    ensures forall k :: k != key ==>
      (k in throttle.cache <==> k in old(throttle.cache))
      && (k in throttle.cache ==> throttle.cache[k] == old(throttle.cache)[k])
  {
    hide Run, Request, DurationOf;
    ghost var rate := Rate(limit.requests, DurationOf(limit.unit).value);
    NothingServed(rate);
    accepted := [];
    for i := 0 to |times|
      invariant accepted == Run(times[..i], rate).0
      invariant (if key in throttle.cache then throttle.cache[key] else []) == Run(times[..i], rate).1
      invariant forall k :: k != key ==>
        (k in throttle.cache <==> k in old(throttle.cache))
        && (k in throttle.cache ==> throttle.cache[k] == old(throttle.cache)[k])
    {
      RunStep(times, i, rate);
      var ok := throttle.AllowRequest(Planned(limit), Some(key), times[i]);
      if ok {
        accepted := accepted + [times[i]];
      }
    }
    assert times[..|times|] == times;
  }
}
