/** The periodic game systems and the heartbeat that fires them, in seconds. */
module Scheduler {

  /** A system's interval, the time left to its next firing, and how often it has fired. */
  datatype Sys = Sys(interval: real, countdown: real, fired: nat)

  function Start(interval: real): Sys {
    Sys(interval, interval, 0)
  }

  /** One heartbeat: at most one firing, after which the remainder is carried over. */
  function Beat(s: Sys, d: real): Sys {
    var c := s.countdown - d;
    if c <= 0.0 then Sys(s.interval, c + s.interval, s.fired + 1) else Sys(s.interval, c, s.fired)
  }

  /** A heartbeat takes the delta off the countdown, and if nothing is left fires once and adds the interval. */
  predicate Moved(s: Sys, t: Sys, d: real) {
    && t.interval == s.interval
    && (s.countdown > d ==> t.countdown == s.countdown - d && t.fired == s.fired)
    && (s.countdown <= d ==> t.countdown == s.countdown - d + s.interval && t.fired == s.fired + 1)
  }

  lemma BeatMoves(s: Sys, d: real)
    ensures Moved(s, Beat(s, d), d)
  {
  }

  function Beats(s: Sys, ds: seq<real>): Sys {
    if ds == [] then s else Beat(Beats(s, ds[..|ds| - 1]), ds[|ds| - 1])
  }

  function Sum(ds: seq<real>): real {
    if ds == [] then 0.0 else Sum(ds[..|ds| - 1]) + ds[|ds| - 1]
  }

  ghost predicate Within(ds: seq<real>, bound: real) {
    forall i | 0 <= i < |ds| :: 0.0 <= ds[i] <= bound
  }

  ghost predicate NonNegative(ds: seq<real>) {
    forall i | 0 <= i < |ds| :: 0.0 <= ds[i]
  }

  /** How often an interval fits into a time. */
  function Whole(time: real, interval: real): int
    requires interval > 0.0
  {
    (time / interval).Floor
  }

  // ---------- Arithmetic ----------

  lemma ScaleLe(a: real, b: real, i: real)
    requires i > 0.0
    ensures a <= b <==> a * i <= b * i
  {
    if a < b {
      assert (b - a) * i > 0.0;
    } else if b < a {
      assert (a - b) * i > 0.0;
    }
  }

  /** k intervals fit exactly when k is at most the whole number of them. */
  lemma FitsIff(k: int, time: real, interval: real)
    requires interval > 0.0
    ensures k <= Whole(time, interval) <==> k as real * interval <= time
  {
    var q := time / interval;
    assert q * interval == time;
    ScaleLe(k as real, q, interval);
  }

  lemma {:induction false} SumGrows(ds: seq<real>, k: nat)
    requires NonNegative(ds) && k <= |ds|
    ensures Sum(ds[..k]) <= Sum(ds)
  {
    if k < |ds| {
      assert ds[..|ds| - 1][..k] == ds[..k];
      SumGrows(ds[..|ds| - 1], k);
    } else {
      assert ds[..k] == ds;
    }
  }

  // ---------- Conservation ----------

  /** Time left plus time passed is always one interval more than the firings account for. */
  lemma {:induction false} Conservation(interval: real, ds: seq<real>)
    requires NonNegative(ds)
    ensures var s := Beats(Start(interval), ds);
            s.interval == interval && s.countdown <= interval
            && s.countdown + Sum(ds) == (s.fired + 1) as real * interval
  {
    if ds != [] {
      var init := ds[..|ds| - 1];
      Conservation(interval, init);
      var s := Beats(Start(interval), init);
      assert (s.fired + 2) as real * interval == (s.fired + 1) as real * interval + interval;
    }
  }

  /** A system never fires more often than the time passed allows. */
  lemma NeverTooOften(interval: real, ds: seq<real>)
    requires interval > 0.0 && NonNegative(ds)
    ensures Beats(Start(interval), ds).fired <= Whole(Sum(ds), interval)
  {
    Conservation(interval, ds);
    var s := Beats(Start(interval), ds);
    assert (s.fired + 1) as real * interval == s.fired as real * interval + interval;
    FitsIff(s.fired, Sum(ds), interval);
  }

  /** It has fired exactly as often as the time passed asks for, if and only if time is left. */
  lemma UpToDateIff(interval: real, ds: seq<real>)
    requires interval > 0.0 && NonNegative(ds)
    ensures var s := Beats(Start(interval), ds);
            s.fired == Whole(Sum(ds), interval) <==> s.countdown > 0.0
  {
    Conservation(interval, ds);
    NeverTooOften(interval, ds);
    FitsIff(Beats(Start(interval), ds).fired + 1, Sum(ds), interval);
  }

  // ---------- Closed form ----------

  /** A heartbeat fires exactly when one more interval has passed. */
  lemma FiresIff(interval: real, init: seq<real>, d: real)
    requires interval > 0.0 && NonNegative(init)
    ensures var s := Beats(Start(interval), init);
            s.countdown - d <= 0.0 <==> s.fired + 1 <= Whole(Sum(init) + d, interval)
  {
    Conservation(interval, init);
    FitsIff(Beats(Start(interval), init).fired + 1, Sum(init) + d, interval);
  }

  /** One more heartbeat adds one firing unless the time passed does not ask for it. */
  lemma FiringRecurrence(interval: real, ds: seq<real>)
    requires interval > 0.0 && NonNegative(ds) && ds != []
    ensures var before := Beats(Start(interval), ds[..|ds| - 1]).fired; var due := Whole(Sum(ds), interval);
            Beats(Start(interval), ds).fired == if before + 1 <= due then before + 1 else due
  {
    hide Whole, Sum, Beats, NonNegative;
    var init := ds[..|ds| - 1];
    LastDelta(interval, ds);
    FiresIff(interval, init, ds[|ds| - 1]);
    NeverTooOften(interval, init);
    NeverTooOften(interval, ds);
    WholeOfMore(interval, Sum(init), Sum(ds));
  }

  lemma LastDelta(interval: real, ds: seq<real>)
    requires ds != [] && NonNegative(ds)
    ensures var init, d := ds[..|ds| - 1], ds[|ds| - 1];
            && Beats(Start(interval), ds) == Beat(Beats(Start(interval), init), d)
            && Sum(ds) == Sum(init) + d && NonNegative(init) && 0.0 <= d
  {
    hide Beat;
  }

  lemma WholeOfMore(interval: real, a: real, b: real)
    requires interval > 0.0 && a <= b
    ensures Whole(a, interval) <= Whole(b, interval)
  {
    FitsIff(Whole(a, interval), a, interval);
    FitsIff(Whole(a, interval), b, interval);
  }

  /** The firings if the system had been up to date after k heartbeats and fired at each later one. */
  function Line(interval: real, ds: seq<real>, k: nat): int
    requires interval > 0.0 && k <= |ds|
  {
    Whole(Sum(ds[..k]), interval) + (|ds| - k)
  }

  /** The firings after any heartbeats are the least of these lines. */
  lemma {:induction false} ClosedForm(interval: real, ds: seq<real>)
    requires interval > 0.0 && NonNegative(ds)
    ensures forall k | 0 <= k <= |ds| :: Beats(Start(interval), ds).fired <= Line(interval, ds, k)
    ensures exists k :: 0 <= k <= |ds| && Beats(Start(interval), ds).fired == Line(interval, ds, k)
  {
    var n := |ds|;
    var fired := Beats(Start(interval), ds).fired;
    assert ds[..n] == ds;
    if ds == [] {
      FitsIff(0, 0.0, interval);
      FitsIff(1, 0.0, interval);
      assert fired == Line(interval, ds, 0);
    } else {
      var init := ds[..n - 1];
      ClosedForm(interval, init);
      FiringRecurrence(interval, ds);
      forall k | 0 <= k < n ensures Line(interval, ds, k) == Line(interval, init, k) + 1 {
        assert ds[..k] == init[..k];
      }
      assert Line(interval, ds, n) == Whole(Sum(ds), interval);
      var k :| 0 <= k <= n - 1 && Beats(Start(interval), init).fired == Line(interval, init, k);
      assert fired == Line(interval, ds, k) || fired == Line(interval, ds, n);
    }
  }

  /** An interval that is not positive makes the system fire at every heartbeat. */
  lemma {:induction false} NonPositiveIntervalAlwaysFires(interval: real, ds: seq<real>)
    requires interval <= 0.0 && NonNegative(ds)
    ensures Beats(Start(interval), ds).fired == |ds|
  {
    if ds != [] {
      NonPositiveIntervalAlwaysFires(interval, ds[..|ds| - 1]);
      Conservation(interval, ds[..|ds| - 1]);
    }
  }

  // ---------- Catching up ----------

  lemma {:induction false} BeatsAppend(s: Sys, a: seq<real>, b: seq<real>)
    ensures Beats(s, a + b) == Beats(Beats(s, a), b)
  {
    if b == [] {
      assert a + b == a;
    } else {
      BeatsAppend(s, a, b[..|b| - 1]);
      assert (a + b)[..|a + b| - 1] == a + b[..|b| - 1];
    }
  }

  /** While a system is behind, each heartbeat gains at least the interval less the longest delta. */
  lemma {:induction false} ClimbsWhileBehind(s: Sys, ds: seq<real>, d: real, n: nat)
    requires Within(ds, d) && n <= |ds|
    requires forall k | 0 <= k < n :: Beats(s, ds[..k]).countdown <= 0.0
    ensures Beats(s, ds[..n]).interval == s.interval
    ensures Beats(s, ds[..n]).countdown >= s.countdown + n as real * (s.interval - d)
  {
    if n > 0 {
      hide Beat;
      ClimbsWhileBehind(s, ds, d, n - 1);
      assert ds[..n][..n - 1] == ds[..n - 1];
      BeatGains(Beats(s, ds[..n - 1]), ds[n - 1]);
      Distribute(n - 1, s.interval - d);
    }
  }

  lemma CatchesUpWithin(s: Sys, ds: seq<real>, d: real, bound: nat)
    requires Within(ds, d) && bound <= |ds| && s.countdown + bound as real * (s.interval - d) > 0.0
    ensures exists k :: 0 <= k <= bound && Beats(s, ds[..k]).countdown > 0.0
  {
    if forall k | 0 <= k < bound :: Beats(s, ds[..k]).countdown <= 0.0 {
      ClimbsWhileBehind(s, ds, d, bound);
      assert Beats(s, ds[..bound]).countdown > 0.0;
    }
  }

  /** The first whole number of gains that lifts a countdown above zero. */
  function CatchUpBound(countdown: real, gain: real): (n: nat)
    requires countdown <= 0.0 < gain
    ensures n > 0 && countdown + (n - 1) as real * gain <= 0.0 < countdown + n as real * gain
  {
    var n := Whole(-countdown, gain) + 1;
    FitsIff(0, -countdown, gain);
    FitsIff(n - 1, -countdown, gain);
    FitsIff(n, -countdown, gain);
    n
  }

  /** A system that is behind has time left again within CatchUpBound heartbeats. */
  lemma CatchesUp(s: Sys, ds: seq<real>, d: real)
    requires s.countdown <= 0.0 && Within(ds, d) && d < s.interval && |ds| >= CatchUpBound(s.countdown, s.interval - d)
    ensures exists k :: 0 <= k <= CatchUpBound(s.countdown, s.interval - d) && Beats(s, ds[..k]).countdown > 0.0
  {
    CatchesUpWithin(s, ds, d, CatchUpBound(s.countdown, s.interval - d));
  }

  lemma BehindBeforeBound(countdown: real, gain: real, k: nat)
    requires countdown <= 0.0 < gain && k < CatchUpBound(countdown, gain)
    ensures countdown + k as real * gain <= 0.0
  {
    FitsIff(k, -countdown, gain);
  }

  /** No smaller bound will do: if every delta is d, a system is behind at all heartbeats before. */
  lemma CatchUpBoundIsTight(s: Sys, d: real, k: nat)
    requires s.countdown <= 0.0 <= d < s.interval && k < CatchUpBound(s.countdown, s.interval - d)
    ensures Beats(s, seq(k, _ => d)).countdown <= 0.0
  {
    hide CatchUpBound, Beats;
    SteadyGain(s, d, k, s.interval - d);
    BehindBeforeBound(s.countdown, s.interval - d, k);
  }

  lemma {:induction false} SteadyGain(s: Sys, d: real, k: nat, gain: real)
    requires s.countdown <= 0.0 <= d < s.interval && gain == s.interval - d && k < CatchUpBound(s.countdown, gain)
    ensures Beats(s, seq(k, _ => d)).interval == s.interval
    ensures Beats(s, seq(k, _ => d)).countdown == s.countdown + k as real * gain
  {
    hide CatchUpBound, Beats, Beat;
    BeatsSteadily(s, d, k);
    if k > 0 {
      SteadyGain(s, d, k - 1, gain);
      BehindBeforeBound(s.countdown, gain, k - 1);
      BeatGains(Beats(s, seq(k - 1, _ => d)), d);
      Distribute(k - 1, gain);
    }
  }

  lemma BeatsSteadily(s: Sys, d: real, k: nat)
    ensures Beats(s, seq(k, _ => d)) == if k == 0 then s else Beat(Beats(s, seq(k - 1, _ => d)), d)
  {
    hide Beat;
    if k > 0 {
      assert seq(k, _ => d)[..k - 1] == seq(k - 1, _ => d);
    }
  }

  lemma BeatGains(s: Sys, d: real)
    requires s.countdown <= 0.0 <= d
    ensures Beat(s, d).interval == s.interval && Beat(s, d).countdown == s.countdown + (s.interval - d)
  {
  }

  lemma Distribute(n: nat, i: real)
    ensures (n + 1) as real * i == n as real * i + i
  {
    assert (n + 1) as real == n as real + 1.0;
  }

  /** With deltas no longer than the interval, a system with time left always has time left. */
  lemma {:induction false} StaysUpToDate(s: Sys, ds: seq<real>)
    requires 0.0 < s.countdown <= s.interval && Within(ds, s.interval)
    ensures Beats(s, ds).interval == s.interval && 0.0 < Beats(s, ds).countdown <= s.interval
  {
    if ds != [] {
      StaysUpToDate(s, ds[..|ds| - 1]);
    }
  }

  /** Once a system has time left, short deltas keep it exactly up to date. */
  lemma UpToDateFrom(interval: real, ds: seq<real>, more: seq<real>)
    requires interval > 0.0 && NonNegative(ds) && Within(more, interval)
    requires Beats(Start(interval), ds).countdown > 0.0
    ensures Beats(Start(interval), ds + more).fired == Whole(Sum(ds + more), interval)
  {
    Conservation(interval, ds);
    BeatsAppend(Start(interval), ds, more);
    StaysUpToDate(Beats(Start(interval), ds), more);
    UpToDateIff(interval, ds + more);
  }

  lemma Regroup(a: seq<real>, b: seq<real>, k: nat)
    requires k <= |b|
    ensures a + b == (a + b[..k]) + b[k..]
  {
  }

  /** Whatever happened before, once deltas stay below the interval the firings become and remain exactly
      what the time passed asks for. */
  lemma RecoversForGood(interval: real, before: seq<real>, after: seq<real>, d: real)
    requires interval > 0.0 && NonNegative(before) && Within(after, d) && d < interval
    requires var c := Beats(Start(interval), before).countdown;
             c <= 0.0 && |after| >= CatchUpBound(c, interval - d)
    ensures Beats(Start(interval), before + after).fired == Whole(Sum(before + after), interval)
  {
    hide Whole, CatchUpBound, Beats, Sum;
    var s := Beats(Start(interval), before);
    Conservation(interval, before);
    CatchesUp(s, after, d);
    var k :| 0 <= k <= CatchUpBound(s.countdown, interval - d) && Beats(s, after[..k]).countdown > 0.0;
    BeatsAppend(Start(interval), before, after[..k]);
    Regroup(before, after, k);
    UpToDateFrom(interval, before + after[..k], after[k..]);
  }

  /** With no delta longer than the interval a system is never behind. */
  lemma NeverBehind(interval: real, ds: seq<real>)
    requires interval > 0.0 && Within(ds, interval)
    ensures var s := Beats(Start(interval), ds);
            0.0 < s.countdown <= interval && s.fired == Whole(Sum(ds), interval)
  {
    StaysUpToDate(Start(interval), ds);
    UpToDateIff(interval, ds);
  }

  // ---------- The systems ----------

  class GameSystem {
    const name: string
    const interval: real
    var countdown: real
    /** The deltas the system's function was called with. */
    ghost var calls: seq<real>

    ghost function View(): Sys
      reads this
    {
      Sys(interval, countdown, |calls|)
    }

    constructor (name: string, interval: real)
      ensures this.name == name && View() == Start(interval) && calls == []
    {
      this.name, this.interval := name, interval;
      countdown, calls := interval, [];
    }

    /** The body of the heartbeat's loop. */
    method Advance(d: real) returns (fires: bool)
      modifies this
      ensures View() == Beat(old(View()), d) && Moved(old(View()), View(), d)
      ensures fires <==> old(countdown) - d <= 0.0
      ensures calls == old(calls) + if fires then [d] else []
    {
      fires := false;
      countdown := countdown - d;
      if countdown <= 0.0 {
        fires := true;
        calls := calls + [d];
        countdown := countdown + interval;
      }
    }
  }

  ghost predicate Distinct(systems: seq<GameSystem>) {
    forall i, j | 0 <= i < j < |systems| :: systems[i] != systems[j]
  }

  /** The names of the systems that fire, in order. */
  ghost function FiringNames(names: seq<string>, before: seq<Sys>, d: real): seq<string>
    requires |names| == |before|
  {
    if names == [] then []
    else
      var n := |names| - 1;
      FiringNames(names[..n], before[..n], d) + if before[n].countdown - d <= 0.0 then [names[n]] else []
  }

  function Names(systems: seq<GameSystem>): seq<string> {
    seq(|systems|, i requires 0 <= i < |systems| => systems[i].name)
  }

  ghost function Views(systems: seq<GameSystem>): (vs: seq<Sys>)
    reads systems
    ensures |vs| == |systems| && forall i | 0 <= i < |vs| :: vs[i] == systems[i].View()
  {
    if systems == [] then [] else Views(systems[..|systems| - 1]) + [systems[|systems| - 1].View()]
  }

  lemma FiringNamesSnoc(names: seq<string>, before: seq<Sys>, d: real, i: nat)
    requires i <= |names| == |before|
    ensures i == 0 ==> FiringNames(names[..i], before[..i], d) == []
    ensures i < |names| ==>
              FiringNames(names[..i + 1], before[..i + 1], d) ==
              FiringNames(names[..i], before[..i], d) + (if before[i].countdown - d <= 0.0 then [names[i]] else [])
  {
    if i < |names| {
      assert names[..i + 1][..i] == names[..i] && before[..i + 1][..i] == before[..i];
    }
  }

  ghost function Calls(systems: seq<GameSystem>): (cs: seq<seq<real>>)
    reads systems
    ensures |cs| == |systems| && forall i | 0 <= i < |cs| :: cs[i] == systems[i].calls
  {
    if systems == [] then [] else Calls(systems[..|systems| - 1]) + [systems[|systems| - 1].calls]
  }

  /** The first i systems have had their heartbeat. */
  ghost predicate Halfway(systems: seq<GameSystem>, before: seq<Sys>, calls: seq<seq<real>>, d: real, i: nat)
    requires |systems| == |before| == |calls|
    reads systems
  {
    forall k | 0 <= k < |systems| ::
      && systems[k].View() == (if k < i then Beat(before[k], d) else before[k])
      && systems[k].calls == calls[k] + if k < i && before[k].countdown - d <= 0.0 then [d] else []
  }

  method Round(systems: seq<GameSystem>, d: real, i: nat, ghost before: seq<Sys>, ghost calls: seq<seq<real>>)
    returns (fires: bool)
    requires Distinct(systems) && |systems| == |before| == |calls| && i < |systems|
    requires Halfway(systems, before, calls, d, i)
    modifies systems[i]
    ensures Halfway(systems, before, calls, d, i + 1)
    ensures fires <==> before[i].countdown - d <= 0.0
  {
    hide Beat;
    fires := systems[i].Advance(d);
  }

  /** The names at these positions, which are those of all systems that fire, in order. */
  ghost predicate Fires(names: seq<string>, before: seq<Sys>, d: real, at: seq<nat>, fired: seq<string>)
    requires |names| == |before|
  {
    && (forall k, l | 0 <= k < l < |at| :: at[k] < at[l])
    && (forall i: nat | i < |names| && before[i].countdown <= d :: i in at)
    && |fired| == |at|
    && forall k | 0 <= k < |at| :: at[k] < |names| && before[at[k]].countdown <= d && fired[k] == names[at[k]]
  }

  lemma {:induction false} FiringNamesAre(names: seq<string>, before: seq<Sys>, d: real) returns (at: seq<nat>)
    requires |names| == |before|
    ensures Fires(names, before, d, at, FiringNames(names, before, d))
  {
    at := [];
    if names != [] {
      hide Fires;
      var n: nat := |names| - 1;
      var init := FiringNamesAre(names[..n], before[..n], d);
      FiresSnoc(names, before, d, init, FiringNames(names[..n], before[..n], d));
      assert FiringNames(names[..n], before[..n], d) + [] == FiringNames(names[..n], before[..n], d);
      at := if before[n].countdown <= d then init + [n] else init;
    }
  }

  lemma FiresSnoc(names: seq<string>, before: seq<Sys>, d: real, at: seq<nat>, fired: seq<string>)
    requires |names| == |before| && names != []
    requires var n := |names| - 1; Fires(names[..n], before[..n], d, at, fired)
    ensures var n: nat := |names| - 1;
            if before[n].countdown <= d then Fires(names, before, d, at + [n], fired + [names[n]])
            else Fires(names, before, d, at, fired)
  {
    var n: nat := |names| - 1;
    var shorter, less := names[..n], before[..n];
    assert forall i | 0 <= i < n :: shorter[i] == names[i] && less[i] == before[i];
    FiresAmongMore(names, before, shorter, less, d, at, fired);
  }

  lemma FiresAmongMore(names: seq<string>, before: seq<Sys>, shorter: seq<string>, less: seq<Sys>, d: real,
                       at: seq<nat>, fired: seq<string>)
    requires |names| == |before| == |shorter| + 1 && |shorter| == |less| && Fires(shorter, less, d, at, fired)
    requires forall i | 0 <= i < |shorter| :: shorter[i] == names[i] && less[i] == before[i]
    ensures var n: nat := |names| - 1;
            if before[n].countdown <= d then Fires(names, before, d, at + [n], fired + [names[n]])
            else Fires(names, before, d, at, fired)
  {
    var n: nat := |names| - 1;
    var at' := at + [n];
    assert at'[|at|] == n;
    forall i: nat | i < n && before[i].countdown <= d ensures i in at && i in at' {
      assert less[i].countdown <= d;
    }
  }

  /** heartbeat: returns the names under which timings are recorded. */
  method Heartbeat(systems: seq<GameSystem>, d: real) returns (timings: seq<string>)
    requires Distinct(systems)
    modifies systems
    ensures Halfway(systems, old(Views(systems)), old(Calls(systems)), d, |systems|)
    ensures timings == FiringNames(Names(systems), old(Views(systems)), d)
    ensures exists at :: Fires(Names(systems), old(Views(systems)), d, at, timings)
  {
    ghost var names, before, calls := Names(systems), Views(systems), Calls(systems);
    assert Halfway(systems, before, calls, d, 0);
    hide Halfway, Views, Calls, FiringNames, Fires;
    FiringNamesSnoc(names, before, d, 0);
    timings := [];
    var i := 0;
    while i < |systems|
      invariant i <= |systems|
      invariant Halfway(systems, before, calls, d, i)
      invariant timings == FiringNames(names[..i], before[..i], d)
    {
      FiringNamesSnoc(names, before, d, i);
      var fires := Round(systems, d, i, before, calls);
      if fires {
        timings := timings + [systems[i].name];
      }
      i := i + 1;
    }
    assert names[..i] == names && before[..i] == before;
    var _ := FiringNamesAre(names, before, d);
  }
}
