/** What frames, calls and ticks do, in terms of the JSON and of the fields of the state. */
module LifecycleFrames {
  import opened Options
  import opened JsonValues
  import opened Sequences
  import opened OutboundLink
  import opened Lifecycle
  import opened LifecycleSafety
  import opened LifecycleTraces
  import Ids
  import C = Capabilities
  import M = Messages

  // ---------- Announcements ----------

  /** An object with an integer "id" and readable "capabilities". */
  ghost predicate Announcement(e: Json) {
    && e.Obj? && "id" in e.members && e.members["id"].Int?
    && "capabilities" in e.members && C.Readable(e.members["capabilities"])
  }

  /** The id under "id", in 64 bits. */
  predicate HasId(e: Json, id: int) {
    e.Obj? && "id" in e.members && e.members["id"].Int?
    && id == Signed(e.members["id"].n, 0x1_0000_0000_0000_0000)
  }

  lemma EntryIsRead(e: Json)
    ensures ReadEntry(e).Some? <==>
            e.Obj? && "id" in e.members && e.members["id"].Int? && "capabilities" in e.members
    ensures ReadEntry(e).Some? ==>
              HasId(e, ReadEntry(e).value.id) && ReadEntry(e).value.caps == e.members["capabilities"]
  {
  }

  lemma EntryOkIff(e: Json)
    ensures EntryOk(e) <==> Announcement(e)
  {
    hide C.ROWS, C.Readable, C.AllOk, C.Declared;
    EntryIsRead(e);
    C.RowsAreDeclared();
    if ReadEntry(e).Some? {
      C.AllOkIff(C.ROWS, ReadEntry(e).value.caps);
    }
  }

  /** Some of the first b entries has this id. */
  ghost predicate Names(es: seq<Json>, b: nat, id: int)
    requires b <= |es|
  {
    exists k :: 0 <= k < b && HasId(es[k], id)
  }

  /** The first b entries are announcements and have connected their clients; then one is not, or all are through. */
  ghost predicate AnnouncedUpTo(s: State, es: seq<Json>, b: nat, t: State) {
    && b <= |es| && (forall k | 0 <= k < b :: Announcement(es[k])) && (b < |es| ==> !Announcement(es[b]))
    && (forall id :: id in t.conns <==> id in s.conns || Names(es, b, id))
    && (forall id :: id in t.pending <==> id in s.pending || (id in t.conns && id !in s.conns))
    && t.reader == (if b == |es| then s.reader else Stopped)
    && t.dead == s.dead && t.out == s.out && t.history == s.history && t.exited == s.exited && s.next <= t.next
    && (forall id | id in s.conns :: t.conns[id] == s.conns[id].(caps := t.conns[id].caps))
    && (forall id | id in t.conns && id !in s.conns ::
         var c := t.conns[id];
         c.buffer == [] && c.waiting == None && c.routed == [] && c.handled == [] && s.next <= c.inc < t.next)
  }

  ghost predicate Announced(s: State, es: seq<Json>, t: State) {
    exists b :: AnnouncedUpTo(s, es, b, t)
  }

  /** One announcement, good or bad. */
  ghost predicate OneAnnounced(s: State, e: Json, t: State) {
    && t.dead == s.dead && t.out == s.out && t.history == s.history && t.exited == s.exited && s.next <= t.next
    && t.reader == (if Announcement(e) then s.reader else Stopped)
    && (forall id :: id in t.conns <==> id in s.conns || (Announcement(e) && HasId(e, id)))
    && (forall id :: id in t.pending <==> id in s.pending || (id in t.conns && id !in s.conns))
    && (forall id | id in s.conns :: t.conns[id] == s.conns[id].(caps := t.conns[id].caps))
    && (forall id | id in t.conns && id !in s.conns ::
         var c := t.conns[id];
         c.buffer == [] && c.waiting == None && c.routed == [] && c.handled == [] && s.next <= c.inc < t.next)
    && (forall id | id in t.conns && Announcement(e) && HasId(e, id) ::
         C.Stores(if id in s.conns then s.conns[id].caps else C.New(), e.members["capabilities"], t.conns[id].caps))
  }

  lemma CreateUpdateAnnounces(s: State, e: Json)
    ensures OneAnnounced(s, e, CreateUpdate(s, e))
  {
    hide C.Update, C.New, C.Readable, C.Stores, ReadEntry;
    EntryIsRead(e);
    var r := ReadEntry(e);
    if r.Some? {
      var before := if r.value.id in s.conns then s.conns[r.value.id].caps else C.New();
      C.UpdateThrowsIff(before, r.value.caps);
      if C.Readable(r.value.caps) {
        C.UpdateStores(before, r.value.caps);
      }
    }
  }

  lemma {:induction false} CreateAllAnnounces(s: State, es: seq<Json>) returns (b: nat)
    requires s.reader.Listening?
    ensures AnnouncedUpTo(s, es, b, CreateAll(s, es))
  {
    b := 0;
    if es != [] {
      hide CreateUpdate, Announcement, AnnouncedUpTo, OneAnnounced;
      var n := |es| - 1;
      var init, last := es[..n], es[n];
      var s1 := CreateAll(s, init);
      b := CreateAllAnnounces(s, init);
      ReaderAfter(s, init, b, s1);
      if s1.reader.Stopped? {
        StoppedAnnounces(s, es, b, s1);
      } else {
        CreateUpdateAnnounces(s1, last);
        AnnouncesSnoc(s, es, s1, CreateUpdate(s1, last));
        b := if Announcement(last) then |es| else n;
      }
    }
  }

  lemma ReaderAfter(s: State, es: seq<Json>, b: nat, t: State)
    requires s.reader.Listening? && AnnouncedUpTo(s, es, b, t)
    ensures t.reader.Stopped? <==> b < |es|
    ensures b <= |es|
  {
    hide Announcement;
  }

  lemma StoppedAnnounces(s: State, es: seq<Json>, b: nat, t: State)
    requires es != [] && b < |es| - 1 && AnnouncedUpTo(s, es[..|es| - 1], b, t)
    ensures AnnouncedUpTo(s, es, b, t)
  {
    hide Announcement, HasId;
    var init := es[..|es| - 1];
    assert forall k | 0 <= k <= b :: init[k] == es[k];
    forall id ensures Names(es, b, id) <==> Names(init, b, id) {
      if k :| 0 <= k < b && HasId(es[k], id) {
        assert HasId(init[k], id);
      }
      if k :| 0 <= k < b && HasId(init[k], id) {
        assert HasId(es[k], id);
      }
    }
  }

  lemma AnnouncesSnoc(s: State, es: seq<Json>, s1: State, t: State)
    requires es != [] && s.reader.Listening?
    requires AnnouncedUpTo(s, es[..|es| - 1], |es| - 1, s1) && OneAnnounced(s1, es[|es| - 1], t)
    ensures AnnouncedUpTo(s, es, if Announcement(es[|es| - 1]) then |es| else |es| - 1, t)
  {
    hide Announcement, HasId, C.Stores;
    var n := |es| - 1;
    var init, last := es[..n], es[n];
    var b := if Announcement(last) then |es| else n;
    assert forall k | 0 <= k < n :: init[k] == es[k];
    forall id ensures Names(es, b, id) <==> Names(init, n, id) || (Announcement(last) && HasId(last, id)) {
      if k :| 0 <= k < b && HasId(es[k], id) {
        assert k < n ==> HasId(init[k], id);
      }
      if k :| 0 <= k < n && HasId(init[k], id) {
        assert HasId(es[k], id);
      }
    }
  }

  // ---------- Frames ----------

  /** What the reader does with a frame, by its keys. */
  ghost predicate FrameEffect(s: State, j: Json, t: State) {
    var m := if j.Obj? then j.members else map[];
    if !("kind" in m && m["kind"].Str?) then t == s.(reader := Stopped)
    else
      var kind := m["kind"].s;
      if kind == "client_list" then Announced(s, if "data" in m then Elements(m["data"]) else [], t)
      else if kind == "client_ready" then OneAnnounced(s, if "protocol" in m then m["protocol"] else Null, t)
      else if !("id" in m && m["id"].Int?) then t == s.(reader := Stopped)
      else
        var id := Signed(m["id"].n, 0x1_0000_0000_0000_0000);
        if id !in s.conns then t == s
        else if kind == "client_capabilities" then
          CapsEffect(s, id, if "capabilities" in m then m["capabilities"] else Null, t)
        else if kind == "client_data" then DataEffect(s, id, j, t)
        else if kind == "client_disconnected" then t == s.(dead := s.dead[id := Reason.ConnectionClosed])
        else t == s
  }

  /** The capabilities of one connection take the update over, and the reader ends if it is not readable. */
  ghost predicate CapsEffect(s: State, id: int, caps: Json, t: State)
    requires id in s.conns
  {
    && id in t.conns
    && t == s.(conns := s.conns[id := s.conns[id].(caps := t.conns[id].caps)],
               reader := if C.Readable(caps) then s.reader else Stopped)
    && (C.Readable(caps) ==> C.Stores(s.conns[id].caps, caps, t.conns[id].caps))
  }

  /** The frame is buffered behind the others, or waits behind 200 of them and the reader with it. */
  ghost predicate DataEffect(s: State, id: int, j: Json, t: State)
    requires id in s.conns
  {
    var c := s.conns[id];
    var c' := if |c.buffer| < 200 then c.(buffer := c.buffer + [j], routed := c.routed + [j])
              else c.(waiting := Some(j), routed := c.routed + [j]);
    t == s.(conns := s.conns[id := c'], reader := if |c.buffer| < 200 then s.reader else Blocked(c.inc))
  }

  lemma UpdateCapsTakesEffect(s: State, id: int, caps: Json)
    requires id in s.conns
    ensures CapsEffect(s, id, caps, UpdateCaps(s, id, caps))
  {
    hide C.Update, C.Readable, C.Stores;
    C.UpdateThrowsIff(s.conns[id].caps, caps);
    if C.Readable(caps) {
      C.UpdateStores(s.conns[id].caps, caps);
    }
  }

  lemma SendInTakesEffect(s: State, id: int, j: Json)
    requires id in s.conns
    ensures DataEffect(s, id, j, SendIn(s, id, j))
  {
  }

  /** Every frame that arrives while the reader listens has its effect. */
  lemma FrameTakesEffect(s: State, j: Json)
    requires s.reader.Listening?
    ensures FrameEffect(s, j, ReadFrame(s, j))
    ensures !s.exited ==> Step(s, FrameArrives(j)) == ReadFrame(s, j)
  {
    hide CreateAll, CreateUpdate, UpdateCaps, SendIn, AnnouncedUpTo, OneAnnounced, CapsEffect, DataEffect, Elements;
    match Decode(j)
    case Malformed =>
    case ClientList(es) =>
      ElementsAre(Null);
      var b := CreateAllAnnounces(s, es);
    case ClientReady(e) => CreateUpdateAnnounces(s, e);
    case Addressed(kind, id) =>
      if id in s.conns {
        UpdateCapsTakesEffect(s, id, Field(j, "capabilities"));
        SendInTakesEffect(s, id, j);
      }
  }

  /** A frame that arrives while the reader does not listen waits outside the model. */
  lemma UnreadFrame(s: State, j: Json)
    requires s.exited || !s.reader.Listening?
    ensures Step(s, FrameArrives(j)) == s
  {
  }

  // ---------- Calls, writes, links and ticks ----------

  /** The end of a link ends reader and writer and drops the frame that waits, and nothing else. */
  lemma LinkDownTakesEffect(s: State)
    requires Safe(s) && !s.exited
    ensures var t := Step(s, LinkDown);
            && t.reader == Stopped && t.out.writer == Offline
            && t.out.queue == s.out.queue && t.out.written == s.out.written && t.out.accepted == s.out.accepted
            && t.conns.Keys == s.conns.Keys && t.pending == s.pending && t.dead == s.dead && t.history == s.history
            && t.next == s.next && !t.exited
            && forall id | id in s.conns ::
                 var c, d := s.conns[id], t.conns[id];
                 && d.waiting == None && d.buffer == c.buffer && d.handled == c.handled
                 && d.inc == c.inc && d.caps == c.caps
                 && d.routed + AsSeq(c.waiting) == c.routed
  {
    hide Disconnect, Recorded, Intact, PendingIffUnwelcomed, ReaderAwaits, Inv, Injective;
    DisconnectTakesEffect(s.out);
    var t := Step(s, LinkDown);
    forall id | id in s.conns
      ensures t.conns[id] == Cancelled(s.conns[id])
      ensures t.conns[id].routed + AsSeq(s.conns[id].waiting) == s.conns[id].routed
    {
      assert Fifo(s.conns[id]);
    }
  }

  /** The end of a write is recorded if it succeeded, and the writer goes on; nothing else changes. */
  lemma WriteDoneTakesEffect(s: State, ok: bool)
    requires !s.exited
    ensures var t := Step(s, WriteDone(ok));
            && t == s.(out := t.out)
            && (s.out.writer.Writing? ==>
                  GoneOn(s.out, t.out) && t.out.written == s.out.written + if ok then [s.out.writer.frame] else [])
            && (!s.out.writer.Writing? ==> t.out == s.out)
  {
    if s.out.writer.Writing? {
      WriteTakesEffect(s.out, ok);
    }
  }

  /** What a call from outside does. */
  lemma ActsTakeEffect(s: State, id: int, m: M.Message)
    requires !s.exited && Inv(s.out)
    ensures Step(s, Acts(Close(id))) == s.(dead := s.dead[id := GameLogoff])
    ensures Step(s, Acts(NetworkLost(id))) == s.(dead := s.dead[id := Reason.ConnectionLost])
    ensures var t := Step(s, Acts(Send(id, m)));
            && t.out.offered == s.out.offered + [M.DataFrame(id, m)] && t.out.written == s.out.written
            && t == s.(out := t.out)
  {
    hide TrySend;
    OneCall(s, Close(id));
    OneCall(s, NetworkLost(id));
    OneCall(s, Send(id, m));
    OfferTakesEffect(s.out, M.DataFrame(id, m));
  }

  lemma OneCall(s: State, e: Effect)
    requires !s.exited
    ensures Step(s, Acts(e)) ==
            s.(dead := Mark(s.dead, e),
               out := if e.Send? then TrySend(s.out, M.DataFrame(e.id, e.m)) else s.out)
  {
    hide TrySend, Mark;
    assert [e][..0] == [] && Marks(s.dead, [e]) == Mark(s.dead, e);
    assert FlatMap(Sent, [e]) == [] + Sent(e) == Sent(e);
    if e.Send? {
      var f := M.DataFrame(e.id, e.m);
      assert Sent(e) == [f] && [f][..0] == [] && TrySendAll(s.out, [f]) == TrySend(s.out, f);
    }
  }

  /** A tick ends the process exactly if a connection that is not dead has a frame queued, buffered or waiting,
      with a command that is not a string. */
  lemma ExitsIff(s: State)
    ensures Exits(s) <==>
            exists id, f :: id in s.conns && id !in s.dead
                            && (f in s.conns[id].buffer || s.conns[id].waiting == Some(f)) && M.BadFrame(f)
  {
    hide M.FrameOk, M.BadFrame;
    if id, f :| id in Live(s) && f in Queued(Live(s)[id]) && !M.FrameOk(f) {
      M.FrameOkIff(f);
      assert id in s.conns && id !in s.dead && (f in s.conns[id].buffer || s.conns[id].waiting == Some(f));
    }
    if id, f :| id in s.conns && id !in s.dead
                && (f in s.conns[id].buffer || s.conns[id].waiting == Some(f)) && M.BadFrame(f) {
      M.FrameOkIff(f);
      assert id in Live(s) && f in Queued(Live(s)[id]);
    }
  }

  /** The order in which the unordered map of marks is walked does not matter for that. */
  lemma TickExitsIff(s: State, order: seq<int>, react: Behaviour)
    requires !s.exited && Ids.Enumerates(order, s.dead.Keys)
    ensures Step(s, TickRuns(order, react)).exited <==>
            exists id, f :: id in s.conns && id !in s.dead
                            && (f in s.conns[id].buffer || s.conns[id].waiting == Some(f)) && M.BadFrame(f)
  {
    ExitsIff(s);
    hide Exits, M.BadFrame;
  }

  // ---------- Notices ----------

  lemma {:induction false} InFlatMap<A, B>(f: A -> seq<B>, s: seq<A>, y: B)
    ensures y in FlatMap(f, s) <==> exists x :: x in s && y in f(x)
  {
    if s != [] {
      var init, last := s[..|s| - 1], s[|s| - 1];
      InFlatMap(f, init, y);
      assert forall x :: x in s <==> x in init || x == last;
    }
  }

  /** Every disconnect notice offered in a run has the id of an object that the game logged off, and every such
      object's id is in one. */
  lemma NoticesCarryIds(es: seq<Event>)
    ensures var s := Run(INIT, es);
            forall f | f in s.out.offered && f.Obj? && "kind" in f.members
                       && f.members["kind"] == Str("client_disconnected") ::
              f.members.Keys == {"kind", "id", "reason"} && f.members["reason"] == Str("logoff")
              && exists h :: h in s.history && h.Cleaned? && h.reason.GameLogoff? && f.members["id"] == Int(h.id)
    ensures var s := Run(INIT, es);
            forall h | h in s.history && h.Cleaned? && h.reason.GameLogoff? ::
              exists f :: f in s.out.offered && f.Obj? && "id" in f.members && f.members["id"] == Int(h.id)
                          && "kind" in f.members && f.members["kind"] == Str("client_disconnected")
  {
    hide Run;
    EveryRunMatchesNotices(es);
    var s := Run(INIT, es);
    hide FlatMap;
    forall f | f in s.out.offered && f.Obj? && "kind" in f.members
               && f.members["kind"] == Str("client_disconnected")
      ensures f.members.Keys == {"kind", "id", "reason"} && f.members["reason"] == Str("logoff")
      ensures exists h :: h in s.history && h.Cleaned? && h.reason.GameLogoff? && f.members["id"] == Int(h.id)
    {
      assert f in AsNotice(f);
      InFlatMap(AsNotice, s.out.offered, f);
      InFlatMap(NoticeOf, s.history, f);
      var h :| h in s.history && f in NoticeOf(h);
      assert f == Notice(h.id);
    }
    forall h | h in s.history && h.Cleaned? && h.reason.GameLogoff?
      ensures exists f :: f in s.out.offered && f.Obj? && "id" in f.members && f.members["id"] == Int(h.id)
                          && "kind" in f.members && f.members["kind"] == Str("client_disconnected")
    {
      var n := Notice(h.id);
      assert n in NoticeOf(h);
      InFlatMap(NoticeOf, s.history, n);
      InFlatMap(AsNotice, s.out.offered, n);
      var f :| f in s.out.offered && n in AsNotice(f);
      assert f == n;
    }
  }
}
