/** What the capabilities of connected clients are over whole runs. */
module LifecycleCapabilities {
  import opened Options
  import opened JsonValues
  import opened Sequences
  import opened OutboundLink
  import opened Lifecycle
  import opened LifecycleSafety
  import LifecycleTraces
  import C = Capabilities

  // ---------- The updates an event makes ----------

  /** The capabilities an announcement applies to object `inc`: an update of a connected client, or the first of a
      new one, which exists only if that does not throw. */
  ghost function EntryUpdates(s: State, j: Json, inc: nat): seq<Json> {
    var e := ReadEntry(j);
    if e.None? then []
    else if e.value.id in s.conns then if s.conns[e.value.id].inc == inc then [e.value.caps] else []
    else if inc == s.next && C.Update(C.New(), e.value.caps).ok then [e.value.caps]
    else []
  }

  ghost function ListUpdates(s: State, es: seq<Json>, inc: nat): seq<Json> {
    if es == [] then []
    else
      var s1 := CreateAll(s, es[..|es| - 1]);
      ListUpdates(s, es[..|es| - 1], inc) + if s1.reader.Stopped? then [] else EntryUpdates(s1, es[|es| - 1], inc)
  }

  ghost function EventUpdates(s: State, e: Event, inc: nat): seq<Json> {
    if s.exited || !e.FrameArrives? || !s.reader.Listening? then []
    else
      match Decode(e.j)
      case ClientList(es) => ListUpdates(s, es, inc)
      case ClientReady(j) => EntryUpdates(s, j, inc)
      case Addressed(kind, id) =>
        if kind == "client_capabilities" && id in s.conns && s.conns[id].inc == inc
        then [Field(e.j, "capabilities")]
        else []
      case Malformed => []
  }

  /** The updates object `inc` received over a run from start-up. */
  ghost function UpdatesFor(es: seq<Event>, inc: nat): seq<Json> {
    if es == [] then []
    else
      var n := |es| - 1;
      UpdatesFor(es[..n], inc) + EventUpdates(Run(INIT, es[..n]), es[n], inc)
  }

  lemma {:induction false} RunAllAppend(c: C.Caps, rows: seq<C.Row>, a: seq<Json>, b: seq<Json>)
    ensures C.RunAll(c, rows, a + b) == C.RunAll(C.RunAll(c, rows, a), rows, b)
  {
    if b == [] {
      assert a + b == a;
    } else {
      hide C.Run;
      var n := |b| - 1;
      RunAllAppend(c, rows, a, b[..n]);
      assert (a + b)[..|a + b| - 1] == a + b[..n] && (a + b)[|a + b| - 1] == b[n];
    }
  }

  lemma RunAllOne(c: C.Caps, rows: seq<C.Row>, j: Json)
    ensures C.RunAll(c, rows, [j]) == C.Run(c, rows, j).caps && C.RunAll(c, rows, []) == c
  {
    hide C.Run;
    assert [j][..0] == [];
  }

  // ---------- One event ----------

  /** The capabilities that object `inc` under an id has before a step: a new object's, if it is not there yet. */
  ghost function Before(s: State, id: int, inc: nat): C.Caps {
    if id in s.conns && s.conns[id].inc == inc then s.conns[id].caps else C.New()
  }

  /** Every object has applied the updates of the step, and objects to come have none. */
  ghost predicate Applied(s: State, t: State, updates: nat -> seq<Json>) {
    && s.next <= t.next
    && (forall id | id in t.conns ::
         var inc := t.conns[id].inc;
         && t.conns[id].caps == C.RunAll(Before(s, id, inc), C.ROWS, updates(inc))
         && ((id in s.conns && s.conns[id].inc == inc) || s.next <= inc < t.next))
    && (forall inc: nat | t.next <= inc :: updates(inc) == [])
  }

  lemma NoUpdates(c: C.Caps, rows: seq<C.Row>)
    ensures C.RunAll(c, rows, []) == c
  {
  }

  /** A step without updates. */
  lemma KeptApplies(s: State, t: State, updates: nat -> seq<Json>)
    requires Safe(s) && t.next == s.next && forall inc: nat :: updates(inc) == []
    requires forall id | id in t.conns ::
               id in s.conns && t.conns[id].inc == s.conns[id].inc && t.conns[id].caps == s.conns[id].caps
    ensures Applied(s, t, updates)
  {
    hide C.ROWS, Fifo, Recorded, Intact, PendingIffUnwelcomed, ReaderAwaits;
    forall id | id in t.conns {
      NoUpdates(t.conns[id].caps, C.ROWS);
    }
  }

  lemma UpdateApplies(s: State, id: int, caps: Json, updates: nat -> seq<Json>)
    requires Safe(s) && id in s.conns
    requires forall inc: nat :: updates(inc) == if inc == s.conns[id].inc then [caps] else []
    ensures Applied(s, UpdateCaps(s, id, caps), updates)
  {
    hide C.Run, C.RunAll, C.New, C.ROWS, Fifo, Recorded, Intact, PendingIffUnwelcomed, ReaderAwaits, Inv;
    var t := UpdateCaps(s, id, caps);
    RunAllOne(s.conns[id].caps, C.ROWS, caps);
    forall i | i in t.conns
      ensures t.conns[i].inc == s.conns[i].inc
      ensures t.conns[i].caps == C.RunAll(s.conns[i].caps, C.ROWS, updates(s.conns[i].inc))
    {
      NoUpdates(s.conns[i].caps, C.ROWS);
    }
  }

  lemma NewApplies(s: State, id: int, caps: Json, updates: nat -> seq<Json>)
    requires Safe(s) && id !in s.conns
    requires forall inc: nat :: updates(inc) == if inc == s.next && C.Update(C.New(), caps).ok then [caps] else []
    ensures Applied(s, CreateNew(s, id, caps), updates)
  {
    hide C.Run, C.RunAll, C.New, C.ROWS, Fifo, Recorded, Intact, PendingIffUnwelcomed, ReaderAwaits, Inv;
    RunAllOne(C.New(), C.ROWS, caps);
    forall i | i in s.conns {
      NoUpdates(s.conns[i].caps, C.ROWS);
    }
  }

  lemma EntryApplies(s: State, j: Json)
    requires Safe(s)
    ensures Applied(s, CreateUpdate(s, j), (inc: nat) => EntryUpdates(s, j, inc))
  {
    hide C.Update, C.New, Safe, Applied, UpdateCaps, CreateNew;
    var e := ReadEntry(j);
    if e.None? {
      KeptApplies(s, s.(reader := Stopped), (inc: nat) => EntryUpdates(s, j, inc));
    } else if e.value.id in s.conns {
      UpdateApplies(s, e.value.id, e.value.caps, (inc: nat) => EntryUpdates(s, j, inc));
    } else {
      NewApplies(s, e.value.id, e.value.caps, (inc: nat) => EntryUpdates(s, j, inc));
    }
  }

  /** Two steps, one after the other. */
  lemma AppliedTwice(s: State, s1: State, t: State, first: nat -> seq<Json>, second: nat -> seq<Json>,
                     both: nat -> seq<Json>)
    requires Applied(s, s1, first) && Applied(s1, t, second)
    requires forall inc: nat :: both(inc) == first(inc) + second(inc)
    requires forall id | id in s.conns :: id in s1.conns && s1.conns[id].inc == s.conns[id].inc
    ensures Applied(s, t, both)
  {
    hide C.New, C.ROWS, C.RunAll;
    forall id | id in t.conns
      ensures var inc := t.conns[id].inc;
              && t.conns[id].caps == C.RunAll(Before(s, id, inc), C.ROWS, both(inc))
              && ((id in s.conns && s.conns[id].inc == inc) || s.next <= inc < t.next)
    {
      var inc := t.conns[id].inc;
      RunAllAppend(Before(s, id, inc), C.ROWS, first(inc), second(inc));
      NoUpdates(Before(s, id, inc), C.ROWS);
    }
  }

  lemma {:induction false} ListApplies(s: State, es: seq<Json>)
    requires Safe(s) && s.reader.Listening?
    ensures Applied(s, CreateAll(s, es), (inc: nat) => ListUpdates(s, es, inc))
  {
    hide Safe, CreateUpdate, EntryUpdates, Applied;
    if es == [] {
      KeptApplies(s, s, (inc: nat) => ListUpdates(s, es, inc));
    } else {
      var init, last := es[..|es| - 1], es[|es| - 1];
      var s1 := CreateAll(s, init);
      ListApplies(s, init);
      CreateAllIsSafe(s, init);
      LifecycleTraces.CreateAllExtends(s, init);
      if s1.reader.Stopped? {
        KeptApplies(s1, s1, (inc: nat) => []);
        AppliedTwice(s, s1, s1, (inc: nat) => ListUpdates(s, init, inc), (inc: nat) => [],
                     (inc: nat) => ListUpdates(s, es, inc));
      } else {
        EntryApplies(s1, last);
        AppliedTwice(s, s1, CreateUpdate(s1, last), (inc: nat) => ListUpdates(s, init, inc),
                     (inc: nat) => EntryUpdates(s1, last, inc), (inc: nat) => ListUpdates(s, es, inc));
      }
    }
  }

  lemma FrameApplies(s: State, j: Json)
    requires Safe(s) && !s.exited && s.reader.Listening?
    ensures Applied(s, ReadFrame(s, j), (inc: nat) => EventUpdates(s, FrameArrives(j), inc))
  {
    hide Safe, Applied, CreateAll, CreateUpdate, UpdateCaps, ListUpdates, EntryUpdates, Decode;
    var updates := (inc: nat) => EventUpdates(s, FrameArrives(j), inc);
    match Decode(j)
    case Malformed => KeptApplies(s, ReadFrame(s, j), updates);
    case ClientList(es) =>
      ListApplies(s, es);
      SameUpdates(s, ReadFrame(s, j), (inc: nat) => ListUpdates(s, es, inc), updates);
    case ClientReady(x) =>
      EntryApplies(s, x);
      SameUpdates(s, ReadFrame(s, j), (inc: nat) => EntryUpdates(s, x, inc), updates);
    case Addressed(kind, id) =>
      if id in s.conns && kind == "client_capabilities" {
        UpdateApplies(s, id, Field(j, "capabilities"), updates);
      } else {
        KeptApplies(s, ReadFrame(s, j), updates);
      }
  }

  lemma SameUpdates(s: State, t: State, a: nat -> seq<Json>, b: nat -> seq<Json>)
    requires Applied(s, t, a) && forall inc: nat :: a(inc) == b(inc)
    ensures Applied(s, t, b)
  {
    hide C.ROWS, C.RunAll, C.New;
  }

  lemma StepApplies(s: State, e: Event)
    requires Safe(s)
    ensures Applied(s, Step(s, e), (inc: nat) => EventUpdates(s, e, inc))
  {
    hide Safe, Applied, ReadFrame, Exits, Marks, TrySendAll, FlatMap, ListUpdates, EntryUpdates, Decode;
    var updates := (inc: nat) => EventUpdates(s, e, inc);
    if !s.exited && e.FrameArrives? && s.reader.Listening? {
      FrameApplies(s, e.j);
    } else {
      KeptApplies(s, Step(s, e), updates);
    }
  }

  // ---------- Whole runs ----------

  ghost predicate CapsTraced(es: seq<Event>) {
    var s := Run(INIT, es);
    && (forall id | id in s.conns :: s.conns[id].caps == C.RunAll(C.New(), C.ROWS, UpdatesFor(es, s.conns[id].inc)))
    && (forall inc: nat | s.next <= inc :: UpdatesFor(es, inc) == [])
  }

  lemma LastUpdates(es: seq<Event>, inc: nat)
    requires es != []
    ensures var init, e := es[..|es| - 1], es[|es| - 1];
            && Run(INIT, es) == Step(Run(INIT, init), e)
            && UpdatesFor(es, inc) == UpdatesFor(init, inc) + EventUpdates(Run(INIT, init), e, inc)
  {
    hide Step, EventUpdates;
  }

  lemma StepIsCapsTraced(es: seq<Event>)
    requires es != [] && CapsTraced(es[..|es| - 1])
    ensures CapsTraced(es)
  {
    hide Step, Run, UpdatesFor, EventUpdates, C.RunAll, C.New, C.ROWS, Safe;
    var init, e := es[..|es| - 1], es[|es| - 1];
    var s, t := Run(INIT, init), Run(INIT, es);
    EveryRunIsSafe(init);
    StepApplies(s, e);
    LastUpdates(es, 0);
    forall id | id in t.conns
      ensures t.conns[id].caps == C.RunAll(C.New(), C.ROWS, UpdatesFor(es, t.conns[id].inc))
    {
      var inc := t.conns[id].inc;
      LastUpdates(es, inc);
      RunAllAppend(C.New(), C.ROWS, UpdatesFor(init, inc), EventUpdates(s, e, inc));
      NoUpdates(C.New(), C.ROWS);
    }
    var updates := (inc: nat) => EventUpdates(s, e, inc);
    forall inc: nat | t.next <= inc ensures UpdatesFor(es, inc) == [] {
      LastUpdates(es, inc);
      assert updates(inc) == [];
    }
  }

  /** In every run the capabilities of a connected object are the outcome of the updates that reached it, in order,
      from a new object on. */
  lemma {:induction false} EveryRunFoldsUpdates(es: seq<Event>)
    ensures CapsTraced(es)
  {
    if es == [] {
      assert UpdatesFor(es, 0) == [];
    } else {
      EveryRunFoldsUpdates(es[..|es| - 1]);
      StepIsCapsTraced(es);
    }
  }

  /** A field of a connected object has the value of the last update that mentions it, or else its default. */
  lemma ConnectedFieldIsLastMention(es: seq<Event>, id: int, i: nat)
    requires id in Run(INIT, es).conns && i < |C.ROWS| && !C.ROWS[i].kind.HostList?
    ensures var c := Run(INIT, es).conns[id]; var last := C.LastMention(C.ROWS, i, UpdatesFor(es, c.inc));
            C.Lookup(c.caps, C.ROWS[i].key) == if last.Some? then last else Some(C.Initial(C.ROWS[i]))
  {
    hide Run, UpdatesFor, C.RunAll, C.LastMention, C.ROWS;
    EveryRunFoldsUpdates(es);
    C.RowsAreDistinct();
    C.LastMentionWins(C.New(), C.ROWS, UpdatesFor(es, Run(INIT, es).conns[id].inc), i);
    C.FreshField(C.ROWS, i);
  }
}
