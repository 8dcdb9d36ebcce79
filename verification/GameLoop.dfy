/** The main loop: wall-clock time turned into deltas, the save timer, and the gating of the heartbeat. */
module GameLoop {
  import opened Scheduler

  const SAVE_INTERVAL: real := 300.0
  const FIRST_DELTA: real := 0.1
  const SHORT_WAIT: real := 0.001

  /** What one round meets: the clock when it starts, after its work and when the timer wakes it, the activity
      of the play views, whether shutdown was asked for during its work or, by a signal, during the wait after it,
      and whether a save was asked for during the work. */
  datatype Round = Round(start: real, end: real, wake: real, views: seq<bool>,
                         shutdown: bool, signal: bool, saveAll: bool)

  /** The loop does not go round again. */
  predicate Ends(r: Round) {
    r.shutdown || r.signal
  }

  /** The time the round sleeps. */
  function NextWait(interval: real, r: Round): real {
    var wait := interval - (r.end - r.start);
    if wait < 0.0 then SHORT_WAIT else wait
  }

  /** A monotone clock and a timer that never wakes early. */
  ghost predicate WellTimed(interval: real, rs: seq<Round>) {
    && (forall i | 0 <= i < |rs| :: rs[i].start <= rs[i].end && rs[i].end + NextWait(interval, rs[i]) <= rs[i].wake)
    && (forall i | 0 <= i < |rs| - 1 :: rs[i].wake <= rs[i + 1].start)
  }

  /** The delta round i works with: a constant first, then what the round before measured. */
  function DeltaAt(rs: seq<Round>, i: nat): real
    requires i <= |rs|
  {
    if i == 0 then FIRST_DELTA else rs[i - 1].wake - rs[i - 1].start
  }

  function Deltas(rs: seq<Round>): (ds: seq<real>)
    ensures |ds| == |rs|
  {
    seq(|rs|, i requires 0 <= i < |rs| => DeltaAt(rs, i))
  }

  /** Whether the round runs the heartbeat: some play view exists and is active. */
  predicate Active(r: Round) {
    exists i :: 0 <= i < |r.views| && r.views[i]
  }

  /** The deltas the heartbeat gets: those of the active rounds. */
  function Fed(rs: seq<Round>): seq<real> {
    if rs == [] then []
    else
      var n := |rs| - 1;
      Fed(rs[..n]) + if Active(rs[n]) then [DeltaAt(rs, n)] else []
  }

  // ---------- Wall time ----------

  /** No round after the first works with less than the configured interval. */
  lemma DeltasAreLongEnough(interval: real, rs: seq<Round>, i: nat)
    requires WellTimed(interval, rs) && 0 < i <= |rs|
    ensures interval <= DeltaAt(rs, i)
  {
  }

  lemma DeltasAreNonNegative(interval: real, rs: seq<Round>)
    requires WellTimed(interval, rs)
    ensures NonNegative(Deltas(rs))
  {
    forall i | 0 < i < |rs| ensures 0.0 <= DeltaAt(rs, i) {
      assert rs[i - 1].start <= rs[i - 1].end;
    }
  }

  lemma PrefixIsWellTimed(interval: real, rs: seq<Round>, n: nat)
    requires WellTimed(interval, rs) && n <= |rs|
    ensures WellTimed(interval, rs[..n])
  {
  }

  /** The deltas of a run account for no more than the wall time between its first and last start, plus 0.1 s. */
  lemma {:induction false} DeltasWithinWallTime(interval: real, rs: seq<Round>)
    requires WellTimed(interval, rs) && rs != []
    ensures Sum(Deltas(rs)) <= 0.1 + (rs[|rs| - 1].start - rs[0].start)
  {
    var n := |rs| - 1;
    var init := rs[..n];
    assert Deltas(rs)[..n] == Deltas(init);
    if n > 0 {
      PrefixIsWellTimed(interval, rs, n);
      DeltasWithinWallTime(interval, init);
      assert rs[n - 1].wake <= rs[n].start;
    }
  }

  /** And for no less than the configured intervals. */
  lemma {:induction false} DeltasAccountForIntervals(interval: real, rs: seq<Round>)
    requires WellTimed(interval, rs) && rs != []
    ensures Sum(Deltas(rs)) >= 0.1 + (|rs| - 1) as real * interval
  {
    hide Deltas, Sum, WellTimed, DeltaAt;
    var n := |rs| - 1;
    var init := rs[..n];
    DeltasSnoc(rs);
    SumSnoc(Deltas(init), DeltaAt(rs, n));
    if n > 0 {
      PrefixIsWellTimed(interval, rs, n);
      DeltasAreLongEnough(interval, rs, n);
      DeltasAccountForIntervals(interval, init);
      Distribute(n - 1, interval);
    } else {
      EmptySum(init);
      FirstDelta(rs);
    }
  }

  lemma FirstDelta(rs: seq<Round>)
    requires rs != []
    ensures DeltaAt(rs, 0) == FIRST_DELTA
  {
  }

  lemma EmptySum(rs: seq<Round>)
    requires rs == []
    ensures Deltas(rs) == [] && Sum([]) == 0.0
  {
  }

  lemma SumSnoc(ds: seq<real>, d: real)
    ensures Sum(ds + [d]) == Sum(ds) + d
  {
    assert (ds + [d])[..|ds|] == ds;
  }

  lemma DeltasSnoc(rs: seq<Round>)
    requires rs != []
    ensures var n := |rs| - 1; Deltas(rs) == Deltas(rs[..n]) + [DeltaAt(rs, n)]
  {
  }

  /** Rounds that sleep through the heartbeat only take time away from the systems. */
  lemma {:induction false} FedWithinDeltas(rs: seq<Round>)
    requires NonNegative(Deltas(rs))
    ensures NonNegative(Fed(rs)) && Sum(Fed(rs)) <= Sum(Deltas(rs))
  {
    hide Deltas, DeltaAt, Sum, Active, NonNegative;
    if rs == [] {
      assert Fed(rs) == [] == Deltas(rs);
    } else {
      hide Fed;
      var n := |rs| - 1;
      var init, d := rs[..n], DeltaAt(rs, n);
      DeltasSnoc(rs);
      NonNegativeSnoc(Deltas(init), d);
      FedWithinDeltas(init);
      FedSnoc(rs);
      SumSnoc(Deltas(init), d);
      SumSnoc(Fed(init), d);
      NonNegativeSnoc(Fed(init), d);
    }
  }

  lemma FedSnoc(rs: seq<Round>)
    requires rs != []
    ensures var n := |rs| - 1; Fed(rs) == if Active(rs[n]) then Fed(rs[..n]) + [DeltaAt(rs, n)] else Fed(rs[..n])
  {
    assert Fed(rs[..|rs| - 1]) + [] == Fed(rs[..|rs| - 1]);
  }

  lemma NonNegativeSnoc(ds: seq<real>, d: real)
    ensures NonNegative(ds + [d]) <==> NonNegative(ds) && 0.0 <= d
  {
    assert forall i | 0 <= i < |ds| :: (ds + [d])[i] == ds[i];
    assert (ds + [d])[|ds|] == d;
    if NonNegative(ds + [d]) {
      forall i | 0 <= i < |ds| ensures 0.0 <= ds[i] {
        assert 0.0 <= (ds + [d])[i];
      }
    }
  }

  /** However long rounds overrun and however often the game sleeps, the firings of a system never stand for
      more than the wall time plus 0.1 s. */
  lemma FiringsWithinWallTime(interval: real, rs: seq<Round>, system: real)
    requires WellTimed(interval, rs) && rs != [] && system > 0.0
    ensures Beats(Start(system), Fed(rs)).fired as real * system <= 0.1 + (rs[|rs| - 1].start - rs[0].start)
  {
    hide Deltas, Fed, Sum, Beats, WellTimed, Whole;
    DeltasAreNonNegative(interval, rs);
    FedWithinDeltas(rs);
    DeltasWithinWallTime(interval, rs);
    NeverTooOften(system, Fed(rs));
    FitsIff(Beats(Start(system), Fed(rs)).fired, Sum(Fed(rs)), system);
  }

  /** A game that never sleeps and never overruns a system's interval fires it exactly once per interval of
      accounted time, and that time is at least the rounds' intervals. */
  lemma BusyGameIsExact(interval: real, rs: seq<Round>, system: real)
    requires WellTimed(interval, rs) && rs != [] && system > 0.0
    requires forall i | 0 <= i < |rs| :: Active(rs[i])
    requires Within(Deltas(rs), system)
    ensures Beats(Start(system), Fed(rs)).fired == Whole(Sum(Deltas(rs)), system)
    ensures Beats(Start(system), Fed(rs)).fired >= Whole(0.1 + (|rs| - 1) as real * interval, system)
  {
    hide Deltas, Fed, Sum, Beats, WellTimed, Whole, Active, Within;
    FedIsAll(rs);
    NeverBehind(system, Deltas(rs));
    DeltasAccountForIntervals(interval, rs);
    WholeOfMore(system, FIRST_DELTA + (|rs| - 1) as real * interval, Sum(Deltas(rs)));
  }

  lemma {:induction false} FedIsAll(rs: seq<Round>)
    requires forall i | 0 <= i < |rs| :: Active(rs[i])
    ensures Fed(rs) == Deltas(rs)
  {
    if rs != [] {
      var n := |rs| - 1;
      FedIsAll(rs[..n]);
      assert Deltas(rs) == Deltas(rs[..n]) + [DeltaAt(rs, n)];
    }
  }

  /** Rounds in which no play view is active, such as those without any, leave every system where it was. */
  lemma {:induction false} IdleRoundsFeedNothing(rs: seq<Round>, s: Sys)
    requires forall i, k | 0 <= i < |rs| && 0 <= k < |rs[i].views| :: !rs[i].views[k]
    ensures Fed(rs) == [] && Beats(s, Fed(rs)) == s
  {
    if rs != [] {
      IdleRoundsFeedNothing(rs[..|rs| - 1], s);
    }
  }

  /** A round with an active play view feeds its delta, in its turn. */
  lemma ActiveRoundFeeds(rs: seq<Round>, i: nat)
    requires rs != [] && i < |rs[|rs| - 1].views| && rs[|rs| - 1].views[i]
    ensures var n := |rs| - 1; Fed(rs) == Fed(rs[..n]) + [if n == 0 then 0.1 else rs[n - 1].wake - rs[n - 1].start]
  {
    FedSnoc(rs);
  }

  /** If the timer is punctual, a round takes the interval, or a millisecond longer than its work if that is longer. */
  lemma PunctualRound(interval: real, r: Round)
    requires r.wake == r.end + NextWait(interval, r)
    ensures r.end - r.start <= interval ==> r.wake - r.start == interval
    ensures r.end - r.start > interval ==> r.wake - r.end == 0.001
  {
  }

  // ---------- The save timer ----------

  /** The timer, the time accounted so far, and the accounted times at which the game saved. */
  datatype Saver = Saver(timer: real, accounted: real, saves: seq<real>)

  const NEW_SAVER := Saver(SAVE_INTERVAL, 0.0, [])

  /** The timer starts afresh at each save; what it had run over is dropped. */
  function Account(s: Saver, d: real, saveAll: bool): Saver {
    var now := s.accounted + d;
    if s.timer - d <= 0.0 || saveAll then Saver(SAVE_INTERVAL, now, s.saves + [now])
    else Saver(s.timer - d, now, s.saves)
  }

  function AccountAll(s: Saver, ds: seq<real>): Saver {
    if ds == [] then s else Account(AccountAll(s, ds[..|ds| - 1]), ds[|ds| - 1], false)
  }

  /** The accounted time of the last save, or of the start. */
  function LastSave(s: Saver): real {
    if s.saves == [] then 0.0 else s.saves[|s.saves| - 1]
  }

  /** The accounted time between save point i and the one before, or the start. */
  function Gap(saves: seq<real>, i: nat): real
    requires i < |saves|
  {
    saves[i] - if i == 0 then 0.0 else saves[i - 1]
  }

  ghost predicate Spaced(saves: seq<real>, longest: real) {
    forall i | 0 <= i < |saves| :: 300.0 <= Gap(saves, i) < 300.0 + longest
  }

  lemma SpacedSnoc(saves: seq<real>, longest: real, now: real)
    requires Spaced(saves, longest)
    requires 300.0 <= now - (if saves == [] then 0.0 else saves[|saves| - 1]) < 300.0 + longest
    ensures Spaced(saves + [now], longest)
  {
    forall i | 0 <= i < |saves + [now]|
      ensures 300.0 <= Gap(saves + [now], i) < 300.0 + longest
    {
      if i < |saves| {
        assert Gap(saves + [now], i) == Gap(saves, i);
      }
    }
  }

  /** Without a request to save, save points are at least 300 and less than 300 + D seconds apart. */
  lemma {:induction false} SavesAreSpaced(ds: seq<real>, longest: real)
    requires Within(ds, longest)
    ensures var s := AccountAll(NEW_SAVER, ds);
            && s.accounted == Sum(ds) && 0.0 < s.timer <= 300.0
            && s.accounted - LastSave(s) == 300.0 - s.timer
            && Spaced(s.saves, longest)
  {
    if ds != [] {
      var init, d := ds[..|ds| - 1], ds[|ds| - 1];
      SavesAreSpaced(init, longest);
      var s := AccountAll(NEW_SAVER, init);
      if s.timer - d <= 0.0 {
        SpacedSnoc(s.saves, longest, s.accounted + d);
      }
    }
  }

  lemma {:induction false} GapsAddUp(saves: seq<real>, longest: real)
    requires Spaced(saves, longest)
    ensures |saves| as real * 300.0 <= (if saves == [] then 0.0 else saves[|saves| - 1])
    ensures (if saves == [] then 0.0 else saves[|saves| - 1]) <= |saves| as real * (300.0 + longest)
  {
    if saves != [] {
      var n := |saves| - 1;
      var init := saves[..n];
      assert forall i | 0 <= i < n :: Gap(init, i) == Gap(saves, i);
      GapsAddUp(init, longest);
      assert 300.0 <= Gap(saves, n) < 300.0 + longest;
      assert (n + 1) as real * (300.0 + longest) ==
             n as real * (300.0 + longest) + (300.0 + longest);
    }
  }

  /** The number of saves lies between the accounted time in steps of 300 + D and in steps of 300. */
  lemma SaveCount(ds: seq<real>, longest: real)
    requires Within(ds, longest) && 0.0 <= longest
    ensures var n := |AccountAll(NEW_SAVER, ds).saves|;
            Whole(Sum(ds), 300.0 + longest) <= n <= Whole(Sum(ds), 300.0)
  {
    hide Within, AccountAll, Sum, Whole, Spaced;
    var s := AccountAll(NEW_SAVER, ds);
    SavesAreSpaced(ds, longest);
    GapsAddUp(s.saves, longest);
    StepsBetween(|s.saves|, Sum(ds), 300.0, 300.0 + longest);
  }

  lemma StepsBetween(n: nat, time: real, low: real, high: real)
    requires 0.0 < low <= high && n as real * low <= time < n as real * high + low
    ensures Whole(time, high) <= n <= Whole(time, low)
  {
    hide Whole;
    FitsIff(n, time, low);
    assert (n + 1) as real * high == n as real * high + high;
    FitsIff(n + 1, time, high);
  }

  // ---------- The loop ----------

  /** The loop's own variables. Once a save is asked for, every later round saves. */
  datatype LoopState = LoopState(saver: Saver, delta: real, saveAll: bool, asleep: bool)

  const START := LoopState(NEW_SAVER, FIRST_DELTA, false, false)

  function Turn(l: LoopState, r: Round): LoopState {
    var saveAll := l.saveAll || r.saveAll || r.shutdown;
    LoopState(Account(l.saver, l.delta, saveAll), r.wake - r.start, saveAll, r.views == [])
  }

  function Turns(l: LoopState, rs: seq<Round>): LoopState {
    if rs == [] then l else Turn(Turns(l, rs[..|rs| - 1]), rs[|rs| - 1])
  }

  predicate AsksToSave(r: Round) {
    r.saveAll || r.shutdown
  }

  /** Requests to save stand for the rest of the run; a signal during a wait is none. */
  lemma {:induction false} RequestsStand(rs: seq<Round>)
    ensures Turns(START, rs).saveAll <==> exists i :: 0 <= i < |rs| && AsksToSave(rs[i])
    ensures Turns(START, rs).saver.accounted == Sum(Deltas(rs))
  {
    if rs != [] {
      var n := |rs| - 1;
      RequestsStand(rs[..n]);
      TurnsDelta(rs[..n]);
      DeltasSnoc(rs);
      SumSnoc(Deltas(rs[..n]), DeltaAt(rs, n));
      hide Deltas, Sum, AsksToSave;
      assert forall i | 0 <= i < n :: rs[..n][i] == rs[i];
    }
  }

  /** A round saves exactly if its timer is due or a save or, during the work, shutdown has been asked for. */
  lemma RoundSavesIff(rs: seq<Round>)
    requires rs != []
    ensures var n := |rs| - 1; var before := Turns(START, rs[..n]).saver;
            Turns(START, rs).saver.saves == before.saves +
            if before.timer <= DeltaAt(rs, n) || exists i :: 0 <= i < |rs| && (rs[i].saveAll || rs[i].shutdown)
            then [Sum(Deltas(rs))] else []
  {
    hide Deltas, Sum, DeltaAt, Turns, Account;
    var n := |rs| - 1;
    var l := Turns(START, rs[..n]);
    RequestsStand(rs);
    TurnsDelta(rs[..n]);
    LastTurn(rs);
    AccountSaves(l.saver, l.delta, Turns(START, rs).saveAll);
  }

  lemma AccountSaves(s: Saver, d: real, saveAll: bool)
    ensures var t := Account(s, d, saveAll);
            t.saves == s.saves + if s.timer <= d || saveAll then [t.accounted] else []
  {
    assert s.saves + [] == s.saves;
  }

  lemma LastTurn(rs: seq<Round>)
    requires rs != []
    ensures var n := |rs| - 1; Turns(START, rs) == Turn(Turns(START, rs[..n]), rs[n])
    ensures var n := |rs| - 1; DeltaAt(rs[..n], n) == DeltaAt(rs, n)
  {
    hide Turn;
  }

  /** A game that a signal stops in the wait after its first round leaves without a save. */
  lemma SignalEndsWithoutSave(r: Round)
    requires r.signal && !r.saveAll && !r.shutdown
    ensures Ends(r) && Turns(START, [r]).saver.saves == []
  {
    assert [r][..0] == [];
    RoundSavesIff([r]);
  }

  /** The loop's variables along a run without requests to save. */
  lemma {:induction false} TurnsAccount(rs: seq<Round>)
    requires forall i | 0 <= i < |rs| :: !AsksToSave(rs[i])
    ensures var l := Turns(START, rs);
            l.delta == DeltaAt(rs, |rs|) && !l.saveAll && l.saver == AccountAll(NEW_SAVER, Deltas(rs))
  {
    if rs != [] {
      var n := |rs| - 1;
      TurnsAccount(rs[..n]);
      assert DeltaAt(rs[..n], n) == DeltaAt(rs, n);
      assert Deltas(rs)[..n] == Deltas(rs[..n]);
    }
  }

  lemma {:induction false} TurnsDelta(rs: seq<Round>)
    ensures Turns(START, rs).delta == DeltaAt(rs, |rs|)
  {
  }

  class Game {
    const systems: seq<GameSystem>
    var saveTimer: real
    var deltaTime: real
    var saveAll: bool
    var sleeping: bool
    ghost var accounted: real
    ghost var saves: seq<real>

    ghost function View(): LoopState
      reads this
    {
      LoopState(Saver(saveTimer, accounted, saves), deltaTime, saveAll, sleeping)
    }

    constructor (systems: seq<GameSystem>)
      ensures this.systems == systems && View() == START
    {
      this.systems := systems;
      saveTimer, deltaTime, saveAll, sleeping := SAVE_INTERVAL, FIRST_DELTA, false, false;
      accounted, saves := 0.0, [];
    }

    /** runOneLoop after the connections have been processed. */
    method RunOneLoop(r: Round)
      requires Distinct(systems)
      modifies this`sleeping, systems
      ensures sleeping == (r.views == [])
      ensures Views(systems) == if Active(r) then BeatEach(old(Views(systems)), deltaTime) else old(Views(systems))
      ensures (forall i | 0 <= i < |r.views| :: !r.views[i]) ==> Views(systems) == old(Views(systems))
      ensures (exists i :: 0 <= i < |r.views| && r.views[i]) ==>
                forall k | 0 <= k < |systems| :: Moved(old(systems[k].View()), systems[k].View(), deltaTime)
    {
      hide BeatEach, Views, Calls, Halfway, Moved, Beat;
      if sleeping && r.views != [] {
        sleeping := false;
      }
      if r.views == [] {
        if !sleeping {
          sleeping := true;
        }
        return;
      }
      var active := AnyActive(r.views);
      if active {
        var _ := Heartbeat(systems, deltaTime);
        HalfwayIsEach(systems, old(Views(systems)), old(Calls(systems)), deltaTime);
        EachMoves(old(Views(systems)), deltaTime);
      }
    }

    method AnyActive(views: seq<bool>) returns (active: bool)
      ensures active <==> exists i :: 0 <= i < |views| && views[i]
    {
      active := false;
      var i := 0;
      while i < |views| && !active
        invariant i <= |views|
        invariant active <==> exists k :: 0 <= k < i && views[k]
      {
        active := views[i];
        i := i + 1;
      }
    }

    /** One round of game_loop. */
    method OneRound(r: Round)
      requires Distinct(systems)
      modifies this, systems
      ensures View() == Turn(old(View()), r)
      ensures Views(systems) == if Active(r) then BeatEach(old(Views(systems)), old(deltaTime)) else old(Views(systems))
    {
      hide BeatEach, Active, Account, Views;
      RunOneLoop(r);
      PassTime(r);
    }

    /** The end of a round: requests to save, the save timer, and the time until the timer wakes the loop. */
    method PassTime(r: Round)
      modifies this`saveTimer, this`deltaTime, this`saveAll, this`accounted, this`saves
      ensures View() == Turn(old(View()), r).(asleep := sleeping)
    {
      if r.saveAll || r.shutdown {
        saveAll := true;
      }
      accounted := accounted + deltaTime;
      saveTimer := saveTimer - deltaTime;
      if saveTimer <= 0.0 || saveAll {
        saveTimer := SAVE_INTERVAL;
        saves := saves + [accounted];
      }
      deltaTime := r.wake - r.start;
    }

    /** game_loop, on the rounds the outside world has in store. Returns how many it runs: up to and including
        the first in which shutdown is asked for. */
    method Loop(rs: seq<Round>) returns (n: nat)
      requires Distinct(systems) && View() == START
      modifies this, systems
      ensures n <= |rs| && (forall i | 0 <= i < n - 1 :: !rs[i].shutdown && !rs[i].signal)
      ensures n < |rs| ==> n > 0 && (rs[n - 1].shutdown || rs[n - 1].signal)
      ensures View() == Turns(START, rs[..n])
      ensures forall i | 0 <= i < |systems| :: systems[i].View() == Beats(old(systems[i].View()), Fed(rs[..n]))
    {
      hide Turns, Turn, Fed, BeatEach, BeatsEach, DeltaAt, Views, Beats, Active;
      ghost var before := Views(systems);
      LoopStarts(before);
      n := 0;
      var shutdown := false;
      while n < |rs| && !shutdown
        invariant n <= |rs| && (forall i | 0 <= i < n - 1 :: !Ends(rs[i]))
        invariant shutdown <==> n > 0 && Ends(rs[n - 1])
        invariant View() == Turns(START, rs[..n])
        invariant Views(systems) == BeatsEach(before, Fed(rs[..n]))
      {
        LoopTurns(before, rs, n);
        OneRound(rs[n]);
        shutdown := rs[n].shutdown || rs[n].signal;
        n := n + 1;
      }
      EachView(before, Fed(rs[..n]));
    }

    lemma EachView(before: seq<Sys>, ds: seq<real>)
      requires |before| == |systems| && Views(systems) == BeatsEach(before, ds)
      ensures forall i | 0 <= i < |systems| :: systems[i].View() == Beats(before[i], ds)
    {
    }
  }

  lemma EachMoves(before: seq<Sys>, d: real)
    ensures forall k | 0 <= k < |before| :: Moved(before[k], BeatEach(before, d)[k], d)
  {
    forall k | 0 <= k < |before| ensures Moved(before[k], BeatEach(before, d)[k], d) {
      BeatMoves(before[k], d);
    }
  }

  lemma LoopStarts(before: seq<Sys>)
    ensures forall rs: seq<Round> :: Turns(START, rs[..0]) == START && BeatsEach(before, Fed(rs[..0])) == before
  {
    assert BeatsEach(before, []) == before;
  }

  lemma LoopTurns(before: seq<Sys>, rs: seq<Round>, n: nat)
    requires n < |rs|
    ensures Turns(START, rs[..n + 1]) == Turn(Turns(START, rs[..n]), rs[n])
    ensures var d := Turns(START, rs[..n]).delta;
            BeatsEach(before, Fed(rs[..n + 1])) ==
            if Active(rs[n]) then BeatEach(BeatsEach(before, Fed(rs[..n])), d) else BeatsEach(before, Fed(rs[..n]))
  {
    assert rs[..n + 1][..n] == rs[..n];
    TurnsDelta(rs[..n]);
    assert DeltaAt(rs[..n], n) == DeltaAt(rs[..n + 1], n);
    var fed, d := Fed(rs[..n]), DeltaAt(rs[..n], n);
    assert fed + [] == fed;
    BeatsEachSnoc(before, fed, d);
  }

  ghost function BeatEach(ss: seq<Sys>, d: real): (ts: seq<Sys>)
    ensures |ts| == |ss| && forall i | 0 <= i < |ts| :: ts[i] == Beat(ss[i], d)
  {
    seq(|ss|, i requires 0 <= i < |ss| => Beat(ss[i], d))
  }

  ghost function BeatsEach(ss: seq<Sys>, ds: seq<real>): (ts: seq<Sys>)
    ensures |ts| == |ss| && forall i | 0 <= i < |ts| :: ts[i] == Beats(ss[i], ds)
  {
    seq(|ss|, i requires 0 <= i < |ss| => Beats(ss[i], ds))
  }

  lemma BeatsEachSnoc(ss: seq<Sys>, ds: seq<real>, d: real)
    ensures BeatsEach(ss, ds + [d]) == BeatEach(BeatsEach(ss, ds), d)
  {
    assert (ds + [d])[..|ds|] == ds;
  }

  lemma HalfwayIsEach(systems: seq<GameSystem>, before: seq<Sys>, calls: seq<seq<real>>, d: real)
    requires |systems| == |before| == |calls| && Halfway(systems, before, calls, d, |systems|)
    ensures Views(systems) == BeatEach(before, d)
  {
  }
}
