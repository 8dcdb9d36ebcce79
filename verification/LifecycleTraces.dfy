/** Statements about whole runs of the connection life cycle, in terms of the events alone. */
module LifecycleTraces {
  import opened Options
  import opened JsonValues
  import opened Sequences
  import opened OutboundLink
  import opened Lifecycle
  import opened LifecycleSafety
  import Ids
  import C = Capabilities
  import M = Messages

  // ---------- One tick ----------

  /** A tick removes exactly the dead. */
  lemma TickMembers(s: State, order: seq<int>, react: Behaviour)
    ensures Tick(s, order, react).conns.Keys == s.conns.Keys - s.dead.Keys
    ensures Tick(s, order, react).pending == s.pending - (s.conns.Keys - s.dead.Keys)
  {
  }

  /** Every survivor of a tick has handled all that was routed to it, is welcomed and is not pending. */
  lemma TickSurvivor(s: State, order: seq<int>, react: Behaviour, id: int)
    requires Safe(s) && Ids.Enumerates(order, s.dead.Keys) && id in Tick(s, order, react).conns
    ensures var t := Tick(s, order, react); var c := t.conns[id];
            && Queued(c) == [] && c.handled == c.routed == s.conns[id].routed && c.inc == s.conns[id].inc
            && WelcomedIn(t.history, c.inc) && id !in t.pending
  {
    var t := Tick(s, order, react);
    TickIsRecorded(s, order, react);
    assert id in Live(s) && t.conns[id] == Drained(s.conns[id]);
    DrainedIsFifo(s.conns[id]);
  }

  /** Each dead entry that is found is cleaned up exactly once, with the last reason recorded for it. */
  lemma {:induction false} CleanedOnce(conns: map<int, Conn>, dead: map<int, Reason>, order: seq<int>, id: int)
    requires NoRepeats(order) && id in conns && id in dead
    ensures multiset(CleanFacts(conns, dead, order))[Cleaned(id, conns[id], dead[id])] == if id in order then 1 else 0
  {
    if order != [] {
      var n := |order| - 1;
      CleanedOnce(conns, dead, order[..n], id);
      assert order == order[..n] + [order[n]];
      if id in order[..n] {
        var i :| 0 <= i < n && order[i] == id;
      }
    }
  }

  /** A tick releases a reader suspended on a connection that survives the sweep. If none of the survivors is the
      one it waits for, the reader goes on when that object is destroyed. */
  lemma TickReleasesReader(s: State, order: seq<int>, react: Behaviour)
    requires Safe(s) && !s.exited && s.reader.Blocked?
    ensures var t := Tick(s, order, react);
            if Present(Live(s), s.reader.inc) then t.reader == Listening
            else t.reader == s.reader && Step(t, SendAbandoned).reader == Listening
  {
    hide Marks, AllReplies, TrySendAll, FlatMap, Notices, CleanFacts, WelcomeFacts, BeatFacts;
    hide Exits, ReadFrame, Ids.Ascending;
    hide Injective, Fifo, Intact, Recorded, PendingIffUnwelcomed, Inv, ReaderAwaits;
    var live := Live(s);
    WaitingIffAwaited(s);
    if id :| id in live && live[id].inc == s.reader.inc {
      assert live[id].waiting.Some?;
    } else {
      assert forall id | id in Tick(s, order, react).conns :: Tick(s, order, react).conns[id].inc == live[id].inc;
    }
  }

  lemma WaitingIffAwaited(s: State)
    requires Safe(s) && s.reader.Blocked?
    ensures forall id | id in Live(s) :: Live(s)[id].waiting.Some? <==> Live(s)[id].inc == s.reader.inc
  {
    hide Injective, Fifo, Intact, Recorded, PendingIffUnwelcomed, Inv, ReaderAwaits;
    assert forall id | id in Live(s) :: Live(s)[id] == s.conns[id];
  }

  /** Each heartbeat is recorded once. */
  lemma {:induction false} BeatOnce(conns: map<int, Conn>, ids: seq<int>, id: int)
    requires NoRepeats(ids) && Injective(conns) && id in conns
    ensures multiset(BeatFacts(conns, ids))[Beat(conns[id].inc)] == if id in ids then 1 else 0
  {
    if ids != [] {
      var n := |ids| - 1;
      BeatOnce(conns, ids[..n], id);
      assert ids == ids[..n] + [ids[n]];
      if id in ids[..n] {
        var i :| 0 <= i < n && ids[i] == id;
      }
    }
  }

  /** A tick gives every survivor exactly one heartbeat, and nobody else any. */
  lemma TickBeatsOnce(s: State, order: seq<int>, react: Behaviour, inc: nat)
    requires Safe(s)
    ensures multiset(Tick(s, order, react).history)[Beat(inc)] ==
            multiset(s.history)[Beat(inc)] + if Present(Live(s), inc) then 1 else 0
  {
    hide AllReplies, Notices, Marks, TrySendAll, FlatMap, CleanFacts, WelcomeFacts, BeatFacts, Survivors, Drained;
    hide Connected, Recorded, Intact, PendingIffUnwelcomed, Inv, ReaderAwaits;
    var live := Live(s);
    var ids, pending := Ids.Ascending(live.Keys), Ids.Ascending(s.pending);
    var c, w, b := CleanFacts(s.conns, s.dead, order), WelcomeFacts(live, pending), BeatFacts(live, ids);
    CleanFactsAre(s.conns, s.dead, order);
    WelcomeFactsAre(live, pending);
    BeatFactsAre(live, ids);
    assert Tick(s, order, react).history == s.history + c + w + b;
    assert Beat(inc) !in c && Beat(inc) !in w;
    Ids.AscendingEnumerates(live.Keys);
    LiveIsInjective(s);
    if id :| id in live && live[id].inc == inc {
      BeatOnce(live, ids, id);
    } else {
      assert Beat(inc) !in b;
    }
  }

  lemma LiveIsInjective(s: State)
    requires Safe(s)
    ensures Injective(Live(s))
  {
  }

  // ---------- Dead marks ----------

  predicate Kills(e: Effect, id: int) {
    (e.Close? || e.NetworkLost?) && e.id == id
  }

  function KillReason(e: Effect): Reason {
    if e.Close? then GameLogoff else Reason.ConnectionLost
  }

  /** Call i is the last that kills the id. */
  predicate LastKill(es: seq<Effect>, id: int, i: nat) {
    i < |es| && Kills(es[i], id) && forall k | i < k < |es| :: !Kills(es[k], id)
  }

  /** The dead marks after a sequence of calls: the old ones, and those the calls made. */
  lemma {:induction false} MarksAre(dead: map<int, Reason>, es: seq<Effect>, id: int)
    ensures id in Marks(dead, es) <==> id in dead || exists i :: 0 <= i < |es| && Kills(es[i], id)
  {
    if es != [] {
      var n := |es| - 1;
      MarksAre(dead, es[..n], id);
      if i :| 0 <= i < n && Kills(es[..n][i], id) {
        assert Kills(es[i], id);
      }
      if i :| 0 <= i < |es| && Kills(es[i], id) {
        assert i < n ==> es[..n][i] == es[i];
      }
    }
  }

  /** A mark has the reason of the last call that made it. */
  lemma {:induction false} MarkIsLastKill(dead: map<int, Reason>, es: seq<Effect>, id: int, i: nat)
    requires LastKill(es, id, i)
    ensures id in Marks(dead, es) && Marks(dead, es)[id] == KillReason(es[i])
  {
    var n := |es| - 1;
    if i < n {
      assert LastKill(es[..n], id, i);
      assert !Kills(es[n], id);
      MarkIsLastKill(dead, es[..n], id, i);
    }
  }

  /** The only dead marks after a tick are those the parsers made while the channels were drained. */
  lemma TickMarksAre(s: State, order: seq<int>, react: Behaviour, id: int)
    ensures var effects := AllReplies(Live(s), Ids.Ascending(Live(s).Keys), react);
            && (id in Tick(s, order, react).dead <==> exists i :: 0 <= i < |effects| && Kills(effects[i], id))
            && forall i: nat | LastKill(effects, id, i) ::
                 id in Tick(s, order, react).dead && Tick(s, order, react).dead[id] == KillReason(effects[i])
  {
    var effects := AllReplies(Live(s), Ids.Ascending(Live(s).Keys), react);
    TickMarks(s, order, react);
    hide Marks, AllReplies, Live, Tick, Kills;
    MarksAre(map[], effects, id);
    forall i: nat | LastKill(effects, id, i)
      ensures id in Tick(s, order, react).dead && Tick(s, order, react).dead[id] == KillReason(effects[i])
    {
      MarkIsLastKill(map[], effects, id, i);
    }
  }

  lemma TickMarks(s: State, order: seq<int>, react: Behaviour)
    ensures Tick(s, order, react).dead == Marks(map[], AllReplies(Live(s), Ids.Ascending(Live(s).Keys), react))
  {
    hide Marks, AllReplies, Live;
  }

  // ---------- Membership ----------

  ghost predicate EntryOk(j: Json) {
    ReadEntry(j).Some? && C.AllOk(C.ROWS, ReadEntry(j).value.caps)
  }

  ghost predicate AllEntriesOk(es: seq<Json>) {
    forall e | e in es :: EntryOk(e)
  }

  lemma AllEntriesOkSnoc(es: seq<Json>)
    requires es != []
    ensures AllEntriesOk(es) <==> AllEntriesOk(es[..|es| - 1]) && EntryOk(es[|es| - 1])
  {
    hide EntryOk;
    assert forall e :: e in es <==> e in es[..|es| - 1] || e == es[|es| - 1];
  }

  /** The ids a list of clients announces: those before the first entry that throws. */
  ghost function AnnouncedBy(es: seq<Json>): set<int> {
    if es == [] then {}
    else
      var init, last := es[..|es| - 1], es[|es| - 1];
      AnnouncedBy(init) +
      if EntryOk(last) && AllEntriesOk(init) then {ReadEntry(last).value.id} else {}
  }

  ghost predicate Announces(s: State, e: Event, id: int) {
    && !s.exited && e.FrameArrives? && s.reader.Listening?
    && match Decode(e.j)
       case ClientList(es) => id in AnnouncedBy(es)
       case ClientReady(j) => id in AnnouncedBy([j])
       case _ => false
  }

  /** The reason for which an event marks the id dead, if it does. */
  ghost function MarkBy(s: State, e: Event, id: int): Option<Reason> {
    if s.exited then None
    else
      match e
      case FrameArrives(j) =>
        if s.reader.Listening? && Decode(j) == Addressed("client_disconnected", id) && id in s.conns
        then Some(Reason.ConnectionClosed)
        else None
      case Acts(a) => if Kills(a, id) then Some(KillReason(a)) else None
      case _ => None
  }

  /** Some event of a run from s announces the id. */
  ghost predicate AnnouncedIn(s: State, es: seq<Event>, id: int) {
    es != [] &&
    var n := |es| - 1;
    AnnouncedIn(s, es[..n], id) || Announces(Run(s, es[..n]), es[n], id)
  }

  /** The reason of the last event of a run from s that marks the id dead. */
  ghost function LastMark(s: State, es: seq<Event>, id: int): Option<Reason> {
    if es == [] then None
    else
      var n := |es| - 1;
      var m := MarkBy(Run(s, es[..n]), es[n], id);
      if m.Some? then m else LastMark(s, es[..n], id)
  }

  ghost function ReasonIn(dead: map<int, Reason>, id: int): Option<Reason> {
    if id in dead then Some(dead[id]) else None
  }

  lemma CreateUpdateMembers(s: State, j: Json)
    ensures CreateUpdate(s, j).conns.Keys == s.conns.Keys + if EntryOk(j) then {ReadEntry(j).value.id} else {}
    ensures CreateUpdate(s, j).dead == s.dead && CreateUpdate(s, j).exited == s.exited
    ensures s.reader.Listening? ==> (CreateUpdate(s, j).reader.Listening? <==> EntryOk(j))
    ensures CreateUpdate(s, j).reader.Listening? || CreateUpdate(s, j).reader.Stopped? || !s.reader.Listening?
    ensures forall id | id in s.conns ::
              id in CreateUpdate(s, j).conns && CreateUpdate(s, j).conns[id].inc == s.conns[id].inc
  {
    var e := ReadEntry(j);
    if e.Some? {
      if e.value.id in s.conns {
        C.RunThrowsIff(s.conns[e.value.id].caps, C.ROWS, e.value.caps);
      } else {
        C.RunThrowsIff(C.Fresh(C.ROWS), C.ROWS, e.value.caps);
      }
    }
  }

  lemma {:induction false} CreateAllMembers(s: State, es: seq<Json>)
    requires s.reader.Listening?
    ensures var t := CreateAll(s, es);
            && t.conns.Keys == s.conns.Keys + AnnouncedBy(es)
            && t.dead == s.dead && t.exited == s.exited
            && (t.reader.Listening? <==> AllEntriesOk(es))
            && (t.reader.Listening? || t.reader.Stopped?)
            && forall id | id in s.conns :: id in t.conns && t.conns[id].inc == s.conns[id].inc
  {
    if es != [] {
      var n := |es| - 1;
      var init, last := es[..n], es[n];
      hide CreateUpdate, EntryOk, AllEntriesOk;
      CreateAllMembers(s, init);
      AllEntriesOkSnoc(es);
      CreateUpdateMembers(CreateAll(s, init), last);
    }
  }

  lemma AnnouncedAlone(j: Json)
    ensures AnnouncedBy([j]) == if EntryOk(j) then {ReadEntry(j).value.id} else {}
  {
    hide EntryOk;
    assert [j][..0] == [];
  }

  /** One event other than a tick adds the announced ids and keeps every object. */
  lemma StepMembers(s: State, e: Event, id: int)
    requires !e.TickRuns?
    ensures var t := Step(s, e);
            && (id in t.conns <==> id in s.conns || Announces(s, e, id))
            && (id in s.conns ==> t.conns[id].inc == s.conns[id].inc)
            && t.exited == s.exited
  {
    hide C.Update, C.New, Elements, CreateAll, CreateUpdate, AnnouncedBy, Marks, TrySendAll, FlatMap, Tick;
    if !s.exited {
      match e
      case FrameArrives(j) =>
        if s.reader.Listening? {
          match Decode(j)
          case ClientList(es) => CreateAllMembers(s, es);
          case ClientReady(x) =>
            AnnouncedAlone(x);
            CreateUpdateMembers(s, x);
          case _ =>
        }
      case _ =>
    }
  }

  /** One event other than a tick changes the mark of an id as MarkBy says. */
  lemma StepReason(s: State, e: Event, id: int)
    requires !e.TickRuns?
    ensures var m := MarkBy(s, e, id);
            ReasonIn(Step(s, e).dead, id) == if m.Some? then m else ReasonIn(s.dead, id)
  {
    hide C.Update, C.New, Elements;
    if !s.exited {
      match e
      case FrameArrives(j) =>
        if s.reader.Listening? {
          match Decode(j)
          case ClientList(es) => CreateAllMembers(s, es);
          case ClientReady(x) => CreateUpdateMembers(s, x);
          case _ =>
        }
      case Acts(a) =>
        assert [a][..0] == [] && Marks(s.dead, [a][..0]) == s.dead;
        assert Marks(s.dead, [a]) == Mark(s.dead, a);
      case _ =>
    }
  }

  /** Between ticks a dead mark has the reason of the last event that made it. */
  lemma {:induction false} ReasonIsLastMark(s: State, es: seq<Event>, id: int)
    requires forall e | e in es :: !e.TickRuns?
    ensures var m := LastMark(s, es, id);
            ReasonIn(Run(s, es).dead, id) == if m.Some? then m else ReasonIn(s.dead, id)
  {
    if es != [] {
      var n := |es| - 1;
      assert es[n] in es && forall e | e in es[..n] :: e in es;
      ReasonIsLastMark(s, es[..n], id);
      StepReason(Run(s, es[..n]), es[n], id);
    }
  }

  lemma {:induction false} RunMembers(s: State, es: seq<Event>, id: int)
    requires forall e | e in es :: !e.TickRuns?
    ensures var t := Run(s, es);
            && (id in t.conns <==> id in s.conns || AnnouncedIn(s, es, id))
            && (id in s.conns ==> t.conns[id].inc == s.conns[id].inc)
            && t.exited == s.exited
  {
    if es != [] {
      var n := |es| - 1;
      var init := es[..n];
      assert es[n] in es && forall e | e in init :: e in es;
      RunMembers(s, init, id);
      StepMembers(Run(s, init), es[n], id);
    }
  }

  /** After a tick an id is connected exactly when it was connected or announced before the sweep and nothing
      marked it dead since the previous one, in whatever order. */
  lemma MembershipAfterTick(s: State, es: seq<Event>, order: seq<int>, react: Behaviour, id: int)
    requires forall e | e in es :: !e.TickRuns?
    requires !s.exited && Ids.Enumerates(order, Run(s, es).dead.Keys) && !Exits(Run(s, es))
    ensures id in Step(Run(s, es), TickRuns(order, react)).conns <==>
            (id in s.conns || AnnouncedIn(s, es, id)) && id !in s.dead && LastMark(s, es, id).None?
  {
    hide Run, Tick, Exits, AnnouncedIn, LastMark, Ids.Enumerates;
    RunMembers(s, es, id);
    ReasonIsLastMark(s, es, id);
    TickMembers(Run(s, es), order, react);
  }

  /** Announcing a connected id again, after a reconnect of the link say, keeps its object. */
  lemma ReannouncingKeepsObject(s: State, es: seq<Event>, id: int)
    requires id in s.conns && forall e | e in es :: !e.TickRuns?
    ensures id in Run(s, es).conns && Run(s, es).conns[id].inc == s.conns[id].inc
  {
    RunMembers(s, es, id);
  }

  // ---------- Frames end to end ----------

  /** The client_data frames that arrived for object `inc` over a run from start-up, less a send that the
      end of a link cancelled while it waited. */
  ghost function DataFor(es: seq<Event>, inc: nat): seq<Json> {
    if es == [] then []
    else
      var n := |es| - 1;
      Routed(Run(INIT, es[..n]), es[n], inc, DataFor(es[..n], inc))
  }

  /** The frames routed to object `inc` after an event, given those before it. */
  ghost function Routed(s: State, e: Event, inc: nat, d: seq<Json>): seq<Json> {
    if Delivers(s, e, inc) then d + [e.j]
    else if Cancels(s, e, inc) && d != [] then d[..|d| - 1]
    else d
  }

  ghost predicate Delivers(s: State, e: Event, inc: nat) {
    && !s.exited && e.FrameArrives? && s.reader.Listening?
    && Decode(e.j).Addressed? && Decode(e.j).kind == "client_data"
    && Decode(e.j).id in s.conns && s.conns[Decode(e.j).id].inc == inc
  }

  ghost predicate Cancels(s: State, e: Event, inc: nat) {
    !s.exited && e.LinkDown? && exists id :: id in s.conns && s.conns[id].inc == inc && s.conns[id].waiting.Some?
  }

  /** The routed frames of an object after one event. */
  ghost predicate Follows(s: State, e: Event, before: Conn, after: Conn) {
    && before.inc == after.inc
    && after.routed == Routed(s, e, before.inc, before.routed)
  }

  /** Objects after the creation of a client: the old ones with their frames, and possibly a new one without any. */
  ghost predicate Extends(s: State, t: State) {
    && s.next <= t.next && t.history == s.history
    && (forall id | id in s.conns :: id in t.conns)
    && forall id | id in t.conns ::
         if id in s.conns then t.conns[id].inc == s.conns[id].inc && t.conns[id].routed == s.conns[id].routed
         else s.next <= t.conns[id].inc < t.next && t.conns[id].routed == []
  }

  lemma CreateUpdateExtends(s: State, j: Json)
    ensures Extends(s, CreateUpdate(s, j))
  {
    hide C.Update, C.New, ReadEntry;
  }

  lemma {:induction false} CreateAllExtends(s: State, es: seq<Json>)
    ensures Extends(s, CreateAll(s, es))
  {
    if es != [] {
      var s1 := CreateAll(s, es[..|es| - 1]);
      CreateAllExtends(s, es[..|es| - 1]);
      if !s1.reader.Stopped? {
        CreateUpdateExtends(s1, es[|es| - 1]);
        var t := CreateUpdate(s1, es[|es| - 1]);
        forall id | id in t.conns && id !in s.conns
          ensures s.next <= t.conns[id].inc < t.next && t.conns[id].routed == []
        {
          assert id in s1.conns ==> s.next <= s1.conns[id].inc < s1.next;
        }
      }
    }
  }

  /** Objects after an event: each old one follows the rule, and new ones start without frames. */
  ghost predicate AllFollow(s: State, e: Event, t: State) {
    && s.next <= t.next
    && forall id | id in t.conns ::
         if id in s.conns && s.conns[id].inc == t.conns[id].inc then Follows(s, e, s.conns[id], t.conns[id])
         else s.next <= t.conns[id].inc && t.conns[id].routed == []
  }

  lemma TickFollows(s: State, order: seq<int>, react: Behaviour)
    ensures AllFollow(s, TickRuns(order, react), Tick(s, order, react))
  {
    hide Marks, AllReplies, TrySendAll, FlatMap, Notices, CleanFacts, WelcomeFacts, BeatFacts, Ids.Ascending;
    var t := Tick(s, order, react);
    forall id | id in t.conns ensures id in s.conns && Follows(s, TickRuns(order, react), s.conns[id], t.conns[id]) {
      assert t.conns[id] == Drained(s.conns[id]);
    }
  }

  lemma LinkDownFollows(s: State)
    requires Safe(s) && !s.exited
    ensures AllFollow(s, LinkDown, Step(s, LinkDown))
  {
    var t := Step(s, LinkDown);
    forall id | id in t.conns ensures id in s.conns && Follows(s, LinkDown, s.conns[id], t.conns[id]) {
      assert t.conns[id] == Cancelled(s.conns[id]);
      assert Fifo(s.conns[id]);
      assert Cancels(s, LinkDown, s.conns[id].inc) <==> s.conns[id].waiting.Some?;
    }
  }

  lemma FrameFollows(s: State, j: Json)
    requires Safe(s) && !s.exited && s.reader.Listening?
    ensures AllFollow(s, FrameArrives(j), ReadFrame(s, j))
  {
    hide Decode, CreateAll, CreateUpdate, UpdateCaps, SendIn, Safe, AllFollow, Extends;
    match Decode(j)
    case Malformed =>
      OtherFrameExtends(s, j);
      ExtendsFollows(s, j, ReadFrame(s, j));
    case ClientList(es) =>
      CreateAllExtends(s, es);
      ExtendsFollows(s, j, ReadFrame(s, j));
    case ClientReady(x) =>
      CreateUpdateExtends(s, x);
      ExtendsFollows(s, j, ReadFrame(s, j));
    case Addressed(kind, id) =>
      if id in s.conns && kind == "client_data" {
        SendFollows(s, j, id);
      } else {
        OtherFrameExtends(s, j);
        ExtendsFollows(s, j, ReadFrame(s, j));
      }
  }

  /** A frame that is for no channel routes nothing. */
  lemma ExtendsFollows(s: State, j: Json, t: State)
    requires Decode(j).Addressed? ==> Decode(j).kind != "client_data" || Decode(j).id !in s.conns
    requires Extends(s, t)
    ensures AllFollow(s, FrameArrives(j), t)
  {
    hide Decode;
  }

  lemma OtherFrameExtends(s: State, j: Json)
    requires Decode(j).Malformed? || Decode(j).Addressed?
    requires Decode(j).Addressed? ==> Decode(j).kind != "client_data" || Decode(j).id !in s.conns
    ensures Extends(s, ReadFrame(s, j))
  {
    hide Decode, C.Update, CreateAll, CreateUpdate, SendIn;
  }

  lemma SendFollows(s: State, j: Json, id: int)
    requires Safe(s) && !s.exited && s.reader.Listening?
    requires id in s.conns && Decode(j) == Addressed("client_data", id)
    ensures AllFollow(s, FrameArrives(j), SendIn(s, id, j))
  {
    hide Decode, Fifo, Recorded, Intact, PendingIffUnwelcomed, ReaderAwaits, Inv;
  }

  /** An event that neither delivers, cancels nor drains leaves all objects as they are. */
  lemma OthersFollow(s: State, e: Event)
    requires s.exited || (!e.LinkDown? && !(e.FrameArrives? && s.reader.Listening?))
    requires Step(s, e).next == s.next && Step(s, e).conns == s.conns
    ensures AllFollow(s, e, Step(s, e))
  {
    hide Step, Decode;
  }

  lemma OthersKeep(s: State, e: Event)
    requires e.LinkUp? || e.Acts? || e.WriteDone? || e.SendAbandoned? || s.exited
             || (e.FrameArrives? && !s.reader.Listening?)
    ensures Step(s, e).next == s.next && Step(s, e).conns == s.conns
  {
    hide Tick, Exits, Marks, TrySendAll, FlatMap, ReadFrame, Connect, Disconnect, WriteEnds;
  }

  /** One event on every object: frames follow the rule, and new objects start empty. */
  lemma StepFollows(s: State, e: Event)
    requires Safe(s)
    ensures AllFollow(s, e, Step(s, e))
  {
    if !s.exited && e.FrameArrives? && s.reader.Listening? {
      FrameFollows(s, e.j);
    } else if !s.exited && e.LinkDown? {
      LinkDownFollows(s);
    } else if !s.exited && e.TickRuns? {
      if Ids.Enumerates(e.order, s.dead.Keys) && !Exits(s) {
        TickFollows(s, e.order, e.react);
      } else {
        OthersFollow(s, e);
      }
    } else {
      OthersKeep(s, e);
      OthersFollow(s, e);
    }
  }

  ghost predicate Traced(es: seq<Event>) {
    var s := Run(INIT, es);
    && (forall id | id in s.conns :: s.conns[id].routed == DataFor(es, s.conns[id].inc))
    && (forall k | 0 <= k < |s.history| && s.history[k].Cleaned? ::
         s.history[k].conn.routed == DataFor(es, s.history[k].conn.inc))
    && (forall inc: nat | s.next <= inc :: DataFor(es, inc) == [])
  }

  /** An event routes nothing to an object that is not connected. */
  lemma UntouchedKeeps(s: State, e: Event, inc: nat, d: seq<Json>)
    requires forall id | id in s.conns :: s.conns[id].inc != inc
    ensures Routed(s, e, inc, d) == d
  {
  }

  lemma StepTracesLive(es: seq<Event>, id: int)
    requires es != [] && Traced(es[..|es| - 1]) && Safe(Run(INIT, es[..|es| - 1]))
    requires id in Run(INIT, es).conns
    ensures var c := Run(INIT, es).conns[id]; c.routed == DataFor(es, c.inc)
  {
    hide Step, Run, Routed, Safe, DataFor;
    var init, e := es[..|es| - 1], es[|es| - 1];
    var s, t := Run(INIT, init), Run(INIT, es);
    var inc := t.conns[id].inc;
    LastEvent(es, inc);
    StepFollows(s, e);
    SafeBelowNext(s);
    if !(id in s.conns && s.conns[id].inc == inc) {
      UntouchedKeeps(s, e, inc, []);
    }
  }

  lemma LastEvent(es: seq<Event>, inc: nat)
    requires es != []
    ensures var init, e := es[..|es| - 1], es[|es| - 1];
            && Run(INIT, es) == Step(Run(INIT, init), e)
            && DataFor(es, inc) == Routed(Run(INIT, init), e, inc, DataFor(init, inc))
  {
    hide Step, Routed;
  }

  lemma SafeBelowNext(s: State)
    requires Safe(s)
    ensures forall id | id in s.conns :: s.conns[id].inc < s.next
  {
  }

  lemma StepTracesCleaned(es: seq<Event>, k: nat)
    requires es != [] && Traced(es[..|es| - 1]) && Safe(Run(INIT, es[..|es| - 1]))
    requires k < |Run(INIT, es).history| && Run(INIT, es).history[k].Cleaned?
    ensures var c := Run(INIT, es).history[k].conn; c.routed == DataFor(es, c.inc)
  {
    var init, e := es[..|es| - 1], es[|es| - 1];
    var s, t := Run(INIT, init), Run(INIT, es);
    HistoryGrows(s, e);
    hide Step, Run, Fifo, Inv, HistoryOk;
    var c := t.history[k].conn;
    if k < |s.history| {
      assert t.history[k] == s.history[k];
      assert CleanedIn(s.history, c.inc);
      UntouchedKeeps(s, e, c.inc, DataFor(init, c.inc));
    } else {
      assert e.TickRuns?;
    }
  }

  lemma StepIsTraced(es: seq<Event>)
    requires es != [] && Traced(es[..|es| - 1])
    ensures Traced(es)
  {
    var init, e := es[..|es| - 1], es[|es| - 1];
    var s, t := Run(INIT, init), Run(INIT, es);
    EveryRunIsSafe(init);
    StepFollows(s, e);
    SafeBelowNext(s);
    hide Step, Run, Safe, DataFor;
    forall id | id in t.conns ensures t.conns[id].routed == DataFor(es, t.conns[id].inc) {
      StepTracesLive(es, id);
    }
    forall k | 0 <= k < |t.history| && t.history[k].Cleaned?
      ensures t.history[k].conn.routed == DataFor(es, t.history[k].conn.inc)
    {
      StepTracesCleaned(es, k);
    }
    forall inc: nat | t.next <= inc ensures DataFor(es, inc) == [] {
      UntouchedKeeps(s, e, inc, DataFor(init, inc));
      assert DataFor(es, inc) == Routed(s, e, inc, DataFor(init, inc));
    }
  }

  /** The history only grows, and clean-ups concern objects connected at the time. */
  lemma HistoryGrows(s: State, e: Event)
    requires Safe(s)
    ensures var h, g := s.history, Step(s, e).history;
            && |h| <= |g| && g[..|h|] == h
            && (|h| < |g| ==> e.TickRuns?)
            && forall k | |h| <= k < |g| && g[k].Cleaned? :: g[k].id in s.conns && g[k].conn == s.conns[g[k].id]
  {
    hide C.Update, C.New, Elements, CreateAll, CreateUpdate, Marks, TrySendAll, FlatMap, Tick, Exits, WriteEnds;
    hide Safe;
    if !s.exited {
      match e
      case FrameArrives(j) =>
        if s.reader.Listening? {
          match Decode(j)
          case ClientList(es) => CreateAllExtends(s, es);
          case ClientReady(x) => CreateUpdateExtends(s, x);
          case _ =>
        }
      case TickRuns(order, react) =>
        if Ids.Enumerates(order, s.dead.Keys) && !Exits(s) {
          TickHistoryGrows(s, order, react);
        }
      case _ =>
    }
  }

  lemma TickHistoryGrows(s: State, order: seq<int>, react: Behaviour)
    ensures var h, g := s.history, Tick(s, order, react).history;
            && |h| <= |g| && g[..|h|] == h
            && forall k | |h| <= k < |g| && g[k].Cleaned? :: g[k].id in s.conns && g[k].conn == s.conns[g[k].id]
  {
    hide AllReplies, Notices, Marks, TrySendAll, CleanFacts, WelcomeFacts, BeatFacts, Drained, Survivors;
    var live := Live(s);
    var ids, pending := Ids.Ascending(live.Keys), Ids.Ascending(s.pending);
    var c, w, b := CleanFacts(s.conns, s.dead, order), WelcomeFacts(live, pending), BeatFacts(live, ids);
    CleanFactsAre(s.conns, s.dead, order);
    WelcomeFactsAre(live, pending);
    BeatFactsAre(live, ids);
    var g := Tick(s, order, react).history;
    assert g == s.history + c + w + b;
    forall k | |s.history| <= k < |g| && g[k].Cleaned? ensures g[k] in c {
      var f := g[k];
      assert g[|s.history|..] == c + w + b && f == g[|s.history|..][k - |s.history|];
      assert f in c + w + b;
    }
  }

  lemma {:induction false} EveryRunIsTraced(es: seq<Event>)
    ensures Traced(es)
  {
    if es != [] {
      EveryRunIsTraced(es[..|es| - 1]);
      StepIsTraced(es);
    }
  }

  /** The client_data frames that arrived for object `inc` over a run from start-up. */
  ghost function ArrivedFor(es: seq<Event>, inc: nat): seq<Json> {
    if es == [] then []
    else
      var n := |es| - 1;
      ArrivedFor(es[..n], inc) + if Delivers(Run(INIT, es[..n]), es[n], inc) then [es[n].j] else []
  }

  /** How many sends to object `inc` ends of links cancelled. */
  ghost function CancelledFor(es: seq<Event>, inc: nat): nat {
    if es == [] then 0
    else
      var n := |es| - 1;
      CancelledFor(es[..n], inc) + if Cancels(Run(INIT, es[..n]), es[n], inc) then 1 else 0
  }

  /** A send that waits was routed. */
  lemma WaitingWasRouted(es: seq<Event>, e: Event, inc: nat)
    requires Cancels(Run(INIT, es), e, inc)
    ensures DataFor(es, inc) != []
  {
    hide Run, DataFor;
    EveryRunIsSafe(es);
    EveryRunIsTraced(es);
    var s := Run(INIT, es);
    var id :| id in s.conns && s.conns[id].inc == inc && s.conns[id].waiting.Some?;
    assert Fifo(s.conns[id]);
  }

  /** Cancelled sends are all that is missing from the frames that arrived. */
  lemma {:induction false} ArrivalsAreCounted(es: seq<Event>, inc: nat)
    ensures IsSubsequence(DataFor(es, inc), ArrivedFor(es, inc))
    ensures |ArrivedFor(es, inc)| == |DataFor(es, inc)| + CancelledFor(es, inc)
  {
    if es != [] {
      var n := |es| - 1;
      var s, e := Run(INIT, es[..n]), es[n];
      var d, a := DataFor(es[..n], inc), ArrivedFor(es[..n], inc);
      ArrivalsAreCounted(es[..n], inc);
      hide IsSubsequence, Run;
      LastEvent(es, inc);
      if Delivers(s, e, inc) {
        SubsequenceTake(d, a, e.j);
      } else {
        assert a + [] == a;
        if Cancels(s, e, inc) {
          WaitingWasRouted(es[..n], e, inc);
          WithoutLast(d);
          SubsequenceTransitive(d[..|d| - 1], d, a);
        }
      }
    }
  }

  lemma WithoutLast(d: seq<Json>)
    requires d != []
    ensures IsSubsequence(d[..|d| - 1], d)
  {
    SubsequenceReflexive(d[..|d| - 1]);
    SubsequenceSkip(d[..|d| - 1], d[..|d| - 1], d[|d| - 1]);
    assert d[..|d| - 1] + [d[|d| - 1]] == d;
  }

  /** Nothing that arrived for an object is lost if and only if no end of a link cancelled a send to it. */
  lemma NothingLostIff(es: seq<Event>, inc: nat)
    ensures DataFor(es, inc) == ArrivedFor(es, inc) <==> CancelledFor(es, inc) == 0
  {
    ArrivalsAreCounted(es, inc);
    SubsequenceLength(DataFor(es, inc), ArrivedFor(es, inc));
  }

  /** The end of a link while a frame waits loses that frame. */
  lemma LinkDownLosesFrame(es: seq<Event>, id: int)
    requires var s := Run(INIT, es); !s.exited && id in s.conns && s.conns[id].waiting.Some?
    ensures var inc := Run(INIT, es).conns[id].inc; var es' := es + [LinkDown]; var d := DataFor(es, inc);
            && d != [] && DataFor(es', inc) == d[..|d| - 1] && d[|d| - 1] == Run(INIT, es).conns[id].waiting.value
            && ArrivedFor(es', inc) == ArrivedFor(es, inc) && CancelledFor(es', inc) == CancelledFor(es, inc) + 1
            && DataFor(es', inc) != ArrivedFor(es', inc)
  {
    hide Run, DataFor, ArrivedFor, CancelledFor, IsSubsequence;
    hide Recorded, Inv, Intact, PendingIffUnwelcomed, ReaderAwaits, Step;
    var s, es' := Run(INIT, es), es + [LinkDown];
    var inc := s.conns[id].inc;
    assert es'[..|es'| - 1] == es && es'[|es|] == LinkDown;
    assert Cancels(s, LinkDown, inc);
    EveryRunIsSafe(es);
    EveryRunIsTraced(es);
    WaitingWasRouted(es, LinkDown, inc);
    assert Fifo(s.conns[id]);
    LastEvent(es', inc);
    NothingLostIff(es', inc);
    LastArrival(es', inc);
  }

  lemma LastArrival(es: seq<Event>, inc: nat)
    requires es != []
    ensures var init, e := es[..|es| - 1], es[|es| - 1]; var s := Run(INIT, init);
            && ArrivedFor(es, inc) == ArrivedFor(init, inc) + (if Delivers(s, e, inc) then [e.j] else [])
            && CancelledFor(es, inc) == CancelledFor(init, inc) + (if Cancels(s, e, inc) then 1 else 0)
  {
    hide Run, Delivers, Cancels;
  }

  /** For every connected object, the frames handled, then those buffered, then the one waiting are the frames
      that arrived for it, in order, but for the sends that ends of links cancelled. */
  lemma FramesEndToEnd(es: seq<Event>, id: int)
    requires id in Run(INIT, es).conns
    ensures var c := Run(INIT, es).conns[id]; var frames := c.handled + c.buffer + AsSeq(c.waiting);
            && frames == DataFor(es, c.inc) && |c.buffer| <= CHANNEL
            && IsSubsequence(frames, ArrivedFor(es, c.inc))
            && |ArrivedFor(es, c.inc)| == |frames| + CancelledFor(es, c.inc)
            && (frames == ArrivedFor(es, c.inc) <==> CancelledFor(es, c.inc) == 0)
  {
    hide Run, DataFor, ArrivedFor, CancelledFor, IsSubsequence, Recorded, Inv, Intact, PendingIffUnwelcomed;
    EveryRunIsSafe(es);
    EveryRunIsTraced(es);
    var c := Run(INIT, es).conns[id];
    assert c.handled + (c.buffer + AsSeq(c.waiting)) == c.handled + c.buffer + AsSeq(c.waiting);
    ArrivalsAreCounted(es, c.inc);
    NothingLostIff(es, c.inc);
  }

  /** Right after a tick a connected object is welcomed, not pending, and everything that arrived for it, but for
      cancelled sends, has been handled. */
  lemma AllHandledAfterTick(es: seq<Event>, order: seq<int>, react: Behaviour, id: int)
    requires var s := Run(INIT, es); !s.exited && Ids.Enumerates(order, s.dead.Keys) && !Exits(s)
    requires id in Run(INIT, es + [TickRuns(order, react)]).conns
    ensures var t := Run(INIT, es + [TickRuns(order, react)]); var c := t.conns[id];
            && c.handled == DataFor(es, c.inc) && Queued(c) == []
            && |ArrivedFor(es, c.inc)| == |c.handled| + CancelledFor(es, c.inc)
            && (c.handled == ArrivedFor(es, c.inc) <==> CancelledFor(es, c.inc) == 0)
            && WelcomedIn(t.history, c.inc) && id !in t.pending
  {
    RunTick(es, order, react);
    hide Run, Tick, Step, Exits, DataFor, ArrivedFor, CancelledFor, Safe, Ids.Enumerates, Queued, Drained;
    var s := Run(INIT, es);
    EveryRunIsSafe(es);
    EveryRunIsTraced(es);
    TickMembers(s, order, react);
    TickSurvivor(s, order, react, id);
    ArrivalsAreCounted(es, s.conns[id].inc);
    NothingLostIff(es, s.conns[id].inc);
  }

  lemma RunTick(es: seq<Event>, order: seq<int>, react: Behaviour)
    requires var s := Run(INIT, es); !s.exited && Ids.Enumerates(order, s.dead.Keys) && !Exits(s)
    ensures Run(INIT, es + [TickRuns(order, react)]) == Tick(Run(INIT, es), order, react)
  {
    hide Tick, Exits, Ids.Enumerates;
    assert (es + [TickRuns(order, react)])[..|es|] == es;
  }

  /** A connection that was swept had handled a prefix of what had arrived for it, but for cancelled sends. */
  lemma SweptHandledPrefix(es: seq<Event>, k: nat)
    requires k < |Run(INIT, es).history| && Run(INIT, es).history[k].Cleaned?
    ensures var c := Run(INIT, es).history[k].conn;
            && c.handled <= DataFor(es, c.inc)
            && |c.handled| + CancelledFor(es, c.inc) <= |ArrivedFor(es, c.inc)|
            && (CancelledFor(es, c.inc) == 0 ==> c.handled <= ArrivedFor(es, c.inc))
  {
    EveryRunIsSafe(es);
    EveryRunIsTraced(es);
    var c := Run(INIT, es).history[k].conn;
    assert Fifo(c);
    ArrivalsAreCounted(es, c.inc);
    NothingLostIff(es, c.inc);
  }

  // ---------- Notices to the portal ----------

  function AsNotice(j: Json): seq<Json> {
    if Field(j, "kind") == Str("client_disconnected") then [j] else []
  }

  function NoticeOf(f: Fact): seq<Json> {
    if f.Cleaned? && f.reason.GameLogoff? then [Notice(f.id)] else []
  }

  /** The disconnect notices offered so far are exactly one for each connection logged off by the game, in order. */
  ghost predicate NoticesMatch(s: State) {
    FlatMap(AsNotice, s.out.offered) == FlatMap(NoticeOf, s.history)
  }

  lemma CleanedNotice(fs: seq<Fact>, ns: seq<Json>, f: Fact)
    requires f.Cleaned? && FlatMap(AsNotice, ns) == FlatMap(NoticeOf, fs)
    ensures FlatMap(NoticeOf, fs + [f]) == FlatMap(AsNotice, if f.reason.GameLogoff? then ns + [Notice(f.id)] else ns)
  {
    hide FlatMap;
    FlatMapSnoc(NoticeOf, fs, f);
    FlatMapSnoc(AsNotice, ns, Notice(f.id));
    assert Field(Notice(f.id), "kind") == Str("client_disconnected");
    assert FlatMap(NoticeOf, fs) + [] == FlatMap(NoticeOf, fs);
  }

  lemma {:induction false} NoticesOfFacts(conns: map<int, Conn>, dead: map<int, Reason>, order: seq<int>)
    ensures FlatMap(AsNotice, Notices(conns, dead, order)) == FlatMap(NoticeOf, CleanFacts(conns, dead, order))
  {
    if order != [] {
      var n := |order| - 1;
      var id := order[n];
      NoticesOfFacts(conns, dead, order[..n]);
      var c, m := CleanFacts(conns, dead, order[..n]), Notices(conns, dead, order[..n]);
      assert c + [] == c && m + [] == m;
      if id in conns && id in dead {
        CleanedNotice(c, m, Cleaned(id, conns[id], dead[id]));
      }
    }
  }

  lemma {:induction false} NoNoticeInFacts(fs: seq<Fact>)
    requires forall f | f in fs :: !f.Cleaned?
    ensures FlatMap(NoticeOf, fs) == []
  {
    if fs != [] {
      assert fs[|fs| - 1] in fs;
      NoNoticeInFacts(fs[..|fs| - 1]);
    }
  }

  lemma {:induction false} MessagesAreNoNotices(es: seq<Effect>)
    ensures FlatMap(AsNotice, FlatMap(Sent, es)) == []
  {
    if es != [] {
      var n := |es| - 1;
      MessagesAreNoNotices(es[..n]);
      FlatMapAppend(AsNotice, FlatMap(Sent, es[..n]), Sent(es[n]));
      if es[n].Send? {
        assert Field(M.DataFrame(es[n].id, es[n].m), "kind") == Str("client_data");
        FlatMapSnoc(AsNotice, [], M.DataFrame(es[n].id, es[n].m));
        assert [] + [M.DataFrame(es[n].id, es[n].m)] == [M.DataFrame(es[n].id, es[n].m)];
      }
    }
  }

  lemma ActKeepsNotices(o: Outbound, es: seq<Effect>)
    ensures FlatMap(AsNotice, TrySendAll(o, FlatMap(Sent, es)).offered) == FlatMap(AsNotice, o.offered)
  {
    TrySendAllOffers(o, FlatMap(Sent, es));
    FlatMapAppend(AsNotice, o.offered, FlatMap(Sent, es));
    MessagesAreNoNotices(es);
  }

  /** The notices a tick offers, whatever messages the parsers send. */
  lemma TickOffersNotices(s: State, order: seq<int>, react: Behaviour)
    ensures FlatMap(AsNotice, Tick(s, order, react).out.offered) ==
            FlatMap(AsNotice, s.out.offered) + FlatMap(AsNotice, Notices(s.conns, s.dead, order))
  {
    hide FlatMap, AllReplies, Marks, TrySendAll, Notices, Live, CleanFacts, WelcomeFacts, BeatFacts;
    var notices := Notices(s.conns, s.dead, order);
    TrySendAllOffers(s.out, notices);
    ActKeepsNotices(TrySendAll(s.out, notices), AllReplies(Live(s), Ids.Ascending(Live(s).Keys), react));
    FlatMapAppend(AsNotice, s.out.offered, notices);
  }

  /** The notices due for what a tick records. */
  lemma TickRecordsNotices(s: State, order: seq<int>, react: Behaviour)
    ensures FlatMap(NoticeOf, Tick(s, order, react).history) ==
            FlatMap(NoticeOf, s.history) + FlatMap(NoticeOf, CleanFacts(s.conns, s.dead, order))
  {
    hide FlatMap, AllReplies, Marks, TrySendAll, Notices, Live, CleanFacts, WelcomeFacts, BeatFacts;
    var live := Live(s);
    var ids, pending := Ids.Ascending(live.Keys), Ids.Ascending(s.pending);
    var c, w, b := CleanFacts(s.conns, s.dead, order), WelcomeFacts(live, pending), BeatFacts(live, ids);
    WelcomeFactsAre(live, pending);
    BeatFactsAre(live, ids);
    NoNoticeInFacts(w);
    NoNoticeInFacts(b);
    FlatMapAppend(NoticeOf, s.history, c);
    FlatMapAppend(NoticeOf, s.history + c, w);
    FlatMapAppend(NoticeOf, s.history + c + w, b);
  }

  lemma TickKeepsNotices(s: State, order: seq<int>, react: Behaviour)
    requires NoticesMatch(s)
    ensures NoticesMatch(Tick(s, order, react))
  {
    hide FlatMap, Tick;
    TickOffersNotices(s, order, react);
    TickRecordsNotices(s, order, react);
    NoticesOfFacts(s.conns, s.dead, order);
  }

  lemma StepKeepsNotices(s: State, e: Event)
    requires NoticesMatch(s)
    ensures NoticesMatch(Step(s, e))
  {
    hide FlatMap, Tick, Exits, C.Update, C.New, Elements;
    if !s.exited {
      match e
      case FrameArrives(j) =>
        if s.reader.Listening? {
          match Decode(j)
          case ClientList(es) => CreateAllQuiet(s, es);
          case ClientReady(x) =>
          case _ =>
        }
      case Acts(a) => ActKeepsNotices(s.out, [a]);
      case TickRuns(order, react) =>
        if Ids.Enumerates(order, s.dead.Keys) && !Exits(s) {
          TickKeepsNotices(s, order, react);
        }
      case _ =>
    }
  }

  lemma {:induction false} CreateAllQuiet(s: State, es: seq<Json>)
    ensures CreateAll(s, es).out == s.out && CreateAll(s, es).history == s.history
  {
    hide C.Update, C.New, ReadEntry;
    if es != [] {
      CreateAllQuiet(s, es[..|es| - 1]);
    }
  }

  lemma {:induction false} EveryRunMatchesNotices(es: seq<Event>)
    ensures NoticesMatch(Run(INIT, es))
  {
    if es != [] {
      EveryRunMatchesNotices(es[..|es| - 1]);
      StepKeepsNotices(Run(INIT, es[..|es| - 1]), es[|es| - 1]);
    }
  }

  /** The event loses the frame being written: the write fails, or the link ends before it is done. */
  ghost predicate LosesFrame(s: State, e: Event) {
    !s.exited && s.out.writer.Writing? && (e == WriteDone(false) || e.LinkDown?)
  }

  ghost function Losses(es: seq<Event>): nat {
    if es == [] then 0
    else
      var n := |es| - 1;
      Losses(es[..n]) + if LosesFrame(Run(INIT, es[..n]), es[n]) then 1 else 0
  }

  lemma StepLoses(s: State, e: Event)
    requires Safe(s)
    ensures Missing(Step(s, e).out) == Missing(s.out) + if LosesFrame(s, e) then 1 else 0
  {
    hide Tick, Exits, Missing, TrySendAll, WriteEnds, Connect, Disconnect, C.Update, C.New, Elements;
    if !s.exited {
      match e
      case FrameArrives(j) =>
        if s.reader.Listening? {
          match Decode(j)
          case ClientList(es) => CreateAllQuiet(s, es);
          case ClientReady(x) =>
          case _ =>
        }
      case LinkUp => ConnectKeepsInv(s.out);
      case LinkDown => DisconnectKeepsInv(s.out);
      case Acts(a) => TrySendAllKeepsInv(s.out, FlatMap(Sent, [a]));
      case WriteDone(ok) => WriteEndsKeepsInv(s.out, ok);
      case SendAbandoned =>
      case TickRuns(order, react) =>
        if Ids.Enumerates(order, s.dead.Keys) && !Exits(s) {
          TickLosesNothing(s, order, react);
        }
    }
  }

  lemma TickLosesNothing(s: State, order: seq<int>, react: Behaviour)
    requires Inv(s.out)
    ensures Missing(Tick(s, order, react).out) == Missing(s.out)
  {
    hide FlatMap, AllReplies, Marks, TrySendAll, Notices, Live, CleanFacts, WelcomeFacts, BeatFacts, Missing, Inv;
    var notices := Notices(s.conns, s.dead, order);
    TrySendAllKeepsInv(s.out, notices);
    TrySendAllKeepsInv(TrySendAll(s.out, notices),
                       FlatMap(Sent, AllReplies(Live(s), Ids.Ascending(Live(s).Keys), react)));
  }

  /** The frames lost over a run are exactly those whose write failed or was cut off by the end of a link. */
  lemma {:induction false} EveryRunCountsLosses(es: seq<Event>)
    ensures Missing(Run(INIT, es).out) == Losses(es)
  {
    if es != [] {
      var init := es[..|es| - 1];
      EveryRunCountsLosses(init);
      EveryRunIsSafe(init);
      StepLoses(Run(INIT, init), es[|es| - 1]);
    }
  }

  /** Every accepted frame of a run is written, lost in this way, being written or queued. Without failures
      everything that was accepted and is done with was written, in order. */
  lemma EveryRunAccountsForFrames(es: seq<Event>)
    ensures var o := Run(INIT, es).out;
            && |o.accepted| == |o.written| + Losses(es) + (if o.writer.Writing? then 1 else 0) + |o.queue|
            && (Losses(es) == 0 ==>
                  o.accepted == o.written + (if o.writer.Writing? then [o.writer.frame] else []) + o.queue)
  {
    EveryRunIsSafe(es);
    EveryRunCountsLosses(es);
    AcceptedAreAccountedFor(Run(INIT, es).out);
  }

  /** After a link starts there is a writer, which takes the oldest queued frame or waits for one. */
  lemma LinkUpStartsWriter(es: seq<Event>)
    requires var s := Run(INIT, es); !s.exited && s.reader.Stopped?
    ensures var s, t := Run(INIT, es), Run(INIT, es + [LinkUp]);
            && !t.out.writer.Offline?
            && (s.out.writer.Offline? ==> t.reader == Listening && GoneOn(s.out, t.out))
  {
    hide Connect, Inv;
    AfterEvent(es, LinkUp);
    ConnectTakesEffect(Run(INIT, es).out);
  }

  lemma AfterEvent(es: seq<Event>, e: Event)
    ensures Run(INIT, es + [e]) == Step(Run(INIT, es), e)
  {
    hide Step;
    assert (es + [e])[..|es|] == es;
  }

  /** n writes that succeed, one after the other. */
  function Writes(n: nat): seq<Event> {
    if n == 0 then [] else Writes(n - 1) + [WriteDone(true)]
  }

  /** While no frame has been lost, every write that succeeds gets one more of the accepted frames out, in order. */
  lemma {:induction false} WritesGoThrough(es: seq<Event>, n: nat)
    requires var s := Run(INIT, es); !s.exited && !s.out.writer.Offline? && Losses(es) == 0
    requires n <= |Run(INIT, es).out.accepted| - |Run(INIT, es).out.written|
    ensures var s, t := Run(INIT, es), Run(INIT, es + Writes(n));
            && !t.exited && !t.out.writer.Offline? && Losses(es + Writes(n)) == 0
            && t.out.accepted == s.out.accepted && |t.out.written| == |s.out.written| + n
            && t.out.written <= t.out.accepted
  {
    hide Run, Losses, WriteEnds, Inv;
    if n == 0 {
      assert es + [] == es;
    } else {
      var before := es + Writes(n - 1);
      WritesGoThrough(es, n - 1);
      assert es + Writes(n) == before + [WriteDone(true)];
      var o := Run(INIT, before).out;
      WriterIsBusy(before);
      AfterEvent(before, WriteDone(true));
      NoLoss(before);
      WriteTakesEffect(o, true);
    }
    EveryRunAccountsForFrames(es + Writes(n));
  }

  lemma WriterIsBusy(es: seq<Event>)
    requires var o := Run(INIT, es).out; !o.writer.Offline? && |o.written| < |o.accepted| && Losses(es) == 0
    ensures Run(INIT, es).out.writer.Writing?
  {
    hide Run, Losses, Connected, Recorded, Intact, PendingIffUnwelcomed, ReaderAwaits, IsSubsequence;
    EveryRunIsSafe(es);
    EveryRunAccountsForFrames(es);
  }

  lemma NoLoss(es: seq<Event>)
    ensures Losses(es + [WriteDone(true)]) == Losses(es)
  {
    hide Run;
    assert (es + [WriteDone(true)])[..|es|] == es;
  }

  /** With a link up and no frame lost, as many successful writes as frames are left get all accepted frames out. */
  lemma AllAcceptedAreWritten(es: seq<Event>)
    requires var s := Run(INIT, es); !s.exited && !s.out.writer.Offline? && Losses(es) == 0
    ensures var s := Run(INIT, es); var n := |s.out.accepted| - |s.out.written|;
            n >= 0 && Run(INIT, es + Writes(n)).out.written == s.out.accepted
  {
    hide Run, Losses;
    EveryRunAccountsForFrames(es);
    var s := Run(INIT, es);
    WritesGoThrough(es, |s.out.accepted| - |s.out.written|);
  }

  /** Over every run, the frames written to the portal are among those offered, in order. */
  lemma EveryRunWritesInOrder(es: seq<Event>)
    ensures IsSubsequence(Run(INIT, es).out.written, Run(INIT, es).out.offered)
  {
    EveryRunIsSafe(es);
    WrittenInOrder(Run(INIT, es).out);
  }
}
