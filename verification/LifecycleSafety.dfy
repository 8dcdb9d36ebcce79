/** What every run of the connection life cycle keeps. */
module LifecycleSafety {
  import opened Options
  import opened JsonValues
  import opened Sequences
  import opened OutboundLink
  import opened Lifecycle
  import Ids
  import C = Capabilities

  // ---------- Histories ----------

  function IncOf(f: Fact): nat {
    match f
    case Welcomed(inc) => inc
    case Beat(inc) => inc
    case Cleaned(_, conn, _) => conn.inc
  }

  ghost predicate WelcomedIn(h: seq<Fact>, inc: nat) {
    Welcomed(inc) in h
  }

  ghost predicate CleanedIn(h: seq<Fact>, inc: nat) {
    exists k :: 0 <= k < |h| && h[k].Cleaned? && h[k].conn.inc == inc
  }

  /** An object is welcomed at most once, gets heartbeats only after that, and nothing after its cleanup. */
  ghost predicate HistoryOk(h: seq<Fact>) {
    && (forall k, l | 0 <= k < l < |h| && h[k].Welcomed? && h[l].Welcomed? :: h[k].inc != h[l].inc)
    && (forall k | 0 <= k < |h| && h[k].Beat? :: WelcomedIn(h[..k], h[k].inc))
    && (forall k, l | 0 <= k < l < |h| && h[k].Cleaned? :: IncOf(h[l]) != h[k].conn.inc)
  }

  lemma AppendFact(h: seq<Fact>, f: Fact)
    requires HistoryOk(h) && !CleanedIn(h, IncOf(f))
    requires f.Welcomed? ==> !WelcomedIn(h, f.inc)
    requires f.Beat? ==> WelcomedIn(h, f.inc)
    ensures HistoryOk(h + [f])
    ensures forall inc :: WelcomedIn(h + [f], inc) <==> WelcomedIn(h, inc) || f == Welcomed(inc)
    ensures forall inc :: CleanedIn(h + [f], inc) <==> CleanedIn(h, inc) || (f.Cleaned? && f.conn.inc == inc)
  {
    var g := h + [f];
    forall k | 0 <= k < |g| && g[k].Beat? ensures WelcomedIn(g[..k], g[k].inc) {
      assert g[..k] == h[..k];
      assert h[..|h|] == h;
    }
    forall inc ensures CleanedIn(g, inc) <==> CleanedIn(h, inc) || (f.Cleaned? && f.conn.inc == inc) {
      if k :| 0 <= k < |h| && h[k].Cleaned? && h[k].conn.inc == inc {
        assert g[k] == h[k];
      }
      assert g[|h|] == f;
    }
  }

  /** Different ids have different objects. */
  ghost predicate Injective(conns: map<int, Conn>) {
    forall a, b | a in conns && b in conns && a != b :: conns[a].inc != conns[b].inc
  }

  /** No connected object has been cleaned up. */
  ghost predicate Intact(h: seq<Fact>, conns: map<int, Conn>) {
    forall id | id in conns :: !CleanedIn(h, conns[id].inc)
  }

  ghost predicate NoRepeats(ids: seq<int>) {
    forall i, k | 0 <= i < k < |ids| :: ids[i] != ids[k]
  }

  /** `inc` belongs to one of the listed connections. */
  ghost predicate Owner(conns: map<int, Conn>, ids: seq<int>, inc: nat) {
    exists i :: 0 <= i < |ids| && ids[i] in conns && conns[ids[i]].inc == inc
  }

  lemma OwnerSnoc(conns: map<int, Conn>, ids: seq<int>, inc: nat)
    requires ids != []
    ensures var n := |ids| - 1;
            Owner(conns, ids, inc) <==> Owner(conns, ids[..n], inc) || (ids[n] in conns && conns[ids[n]].inc == inc)
  {
    var n := |ids| - 1;
    if i :| 0 <= i < n && ids[..n][i] in conns && conns[ids[..n][i]].inc == inc {
      assert ids[i] in conns;
    }
    if i :| 0 <= i < |ids| && ids[i] in conns && conns[ids[i]].inc == inc {
      assert i < n ==> ids[..n][i] == ids[i];
    }
  }

  lemma {:induction false} CleanBatch(h: seq<Fact>, conns: map<int, Conn>, dead: map<int, Reason>, order: seq<int>)
    requires HistoryOk(h) && Injective(conns) && Intact(h, conns) && NoRepeats(order)
    requires forall i | 0 <= i < |order| :: order[i] in dead
    ensures var g := h + CleanFacts(conns, dead, order);
            && HistoryOk(g)
            && (forall inc :: WelcomedIn(g, inc) <==> WelcomedIn(h, inc))
            && (forall inc :: CleanedIn(g, inc) <==> CleanedIn(h, inc) || Owner(conns, order, inc))
  {
    if order == [] {
      assert h + CleanFacts(conns, dead, order) == h;
    } else {
      var n := |order| - 1;
      var init, id := order[..n], order[n];
      CleanBatch(h, conns, dead, init);
      var g := h + CleanFacts(conns, dead, init);
      forall inc {
        OwnerSnoc(conns, order, inc);
      }
      if id in conns {
        assert !Owner(conns, init, conns[id].inc);
        AppendFact(g, Cleaned(id, conns[id], dead[id]));
        assert h + CleanFacts(conns, dead, order) == g + [Cleaned(id, conns[id], dead[id])];
      } else {
        assert h + CleanFacts(conns, dead, order) == g;
      }
    }
  }

  lemma {:induction false} WelcomeBatch(h: seq<Fact>, conns: map<int, Conn>, ids: seq<int>)
    requires HistoryOk(h) && Injective(conns) && Intact(h, conns) && NoRepeats(ids)
    requires forall i | 0 <= i < |ids| && ids[i] in conns :: !WelcomedIn(h, conns[ids[i]].inc)
    ensures var g := h + WelcomeFacts(conns, ids);
            && HistoryOk(g)
            && (forall inc :: WelcomedIn(g, inc) <==> WelcomedIn(h, inc) || Owner(conns, ids, inc))
            && (forall inc :: CleanedIn(g, inc) <==> CleanedIn(h, inc))
  {
    if ids == [] {
      assert h + WelcomeFacts(conns, ids) == h;
    } else {
      var n := |ids| - 1;
      var init, id := ids[..n], ids[n];
      WelcomeBatch(h, conns, init);
      var g := h + WelcomeFacts(conns, init);
      forall inc {
        OwnerSnoc(conns, ids, inc);
      }
      if id in conns {
        assert !Owner(conns, init, conns[id].inc);
        AppendFact(g, Welcomed(conns[id].inc));
        assert h + WelcomeFacts(conns, ids) == g + [Welcomed(conns[id].inc)];
      } else {
        assert h + WelcomeFacts(conns, ids) == g;
      }
    }
  }

  lemma {:induction false} BeatBatch(h: seq<Fact>, conns: map<int, Conn>, ids: seq<int>)
    requires HistoryOk(h) && Intact(h, conns)
    requires forall i | 0 <= i < |ids| && ids[i] in conns :: WelcomedIn(h, conns[ids[i]].inc)
    ensures var g := h + BeatFacts(conns, ids);
            && HistoryOk(g)
            && (forall inc :: WelcomedIn(g, inc) <==> WelcomedIn(h, inc))
            && (forall inc :: CleanedIn(g, inc) <==> CleanedIn(h, inc))
  {
    if ids == [] {
      assert h + BeatFacts(conns, ids) == h;
    } else {
      var n := |ids| - 1;
      var init, id := ids[..n], ids[n];
      BeatBatch(h, conns, init);
      var g := h + BeatFacts(conns, init);
      if id in conns {
        AppendFact(g, Beat(conns[id].inc));
        assert h + BeatFacts(conns, ids) == g + [Beat(conns[id].inc)];
      } else {
        assert h + BeatFacts(conns, ids) == g;
      }
    }
  }

  // ---------- The invariant ----------

  /** End-to-end order: what was routed is what was handled, then the buffer, then the suspended send. */
  ghost predicate Fifo(c: Conn) {
    && c.routed == c.handled + Queued(c)
    && |c.buffer| <= CHANNEL
    && (c.waiting.Some? ==> |c.buffer| == CHANNEL)
  }

  /** The reader is suspended on an object exactly while a frame waits there. */
  ghost predicate Connected(s: State) {
    && Injective(s.conns)
    && (forall id | id in s.conns :: s.conns[id].inc < s.next && Fifo(s.conns[id]))
    && (forall id | id in s.conns :: s.conns[id].waiting.Some? <==> s.reader == Blocked(s.conns[id].inc))
    && (s.reader.Blocked? ==> s.reader.inc < s.next)
  }

  ghost predicate Recorded(h: seq<Fact>, next: nat) {
    && HistoryOk(h)
    && (forall k | 0 <= k < |h| :: IncOf(h[k]) < next)
    && (forall k | 0 <= k < |h| && h[k].Cleaned? :: Fifo(h[k].conn))
  }

  /** A connected id is pending exactly while its current object has not been welcomed. */
  ghost predicate PendingIffUnwelcomed(s: State) {
    forall id | id in s.conns :: id in s.pending <==> !WelcomedIn(s.history, s.conns[id].inc)
  }

  /** A suspended reader waits for a connected object or for one that has been cleaned up. */
  ghost predicate ReaderAwaits(s: State) {
    s.reader.Blocked? ==> Present(s.conns, s.reader.inc) || CleanedIn(s.history, s.reader.inc)
  }

  ghost predicate Present(conns: map<int, Conn>, inc: nat) {
    exists id :: id in conns && conns[id].inc == inc
  }

  ghost predicate Safe(s: State) {
    && Connected(s)
    && ReaderAwaits(s)
    && Recorded(s.history, s.next)
    && Intact(s.history, s.conns)
    && PendingIffUnwelcomed(s)
    && Inv(s.out)
  }

  // ---------- Reader steps ----------

  /** A step that keeps ids, objects and their frames in order keeps what the history says about them. */
  lemma SameObjects(s: State, t: State)
    requires Safe(s) && t.conns.Keys == s.conns.Keys && t.next == s.next
    requires t.history == s.history && t.pending == s.pending && t.out == s.out
    requires forall id | id in s.conns :: t.conns[id].inc == s.conns[id].inc && Fifo(t.conns[id])
    requires forall id | id in s.conns :: t.conns[id].waiting.Some? <==> t.reader == Blocked(s.conns[id].inc)
    requires t.reader.Blocked? ==> Present(s.conns, t.reader.inc)
    ensures Safe(t)
  {
    hide Inv, Fifo, Recorded, CleanedIn, WelcomedIn;
    if t.reader.Blocked? {
      var id :| id in s.conns && s.conns[id].inc == t.reader.inc;
      assert t.conns[id].inc == t.reader.inc;
    }
  }

  lemma UpdateCapsIsSafe(s: State, id: int, caps: Json)
    requires Safe(s) && s.reader.Listening? && id in s.conns
    ensures Safe(UpdateCaps(s, id, caps)) && !UpdateCaps(s, id, caps).reader.Blocked?
  {
    hide C.Update, Inv, Recorded, PendingIffUnwelcomed, Intact, ReaderAwaits, Injective;
    var t := UpdateCaps(s, id, caps);
    assert forall i | i in t.conns :: t.conns[i] == s.conns[i].(caps := t.conns[i].caps);
    SameObjects(s, t);
  }

  lemma UnknownIncIsFresh(h: seq<Fact>, next: nat)
    requires Recorded(h, next)
    ensures !WelcomedIn(h, next) && !CleanedIn(h, next)
  {
  }

  lemma CreateUpdateIsSafe(s: State, j: Json)
    requires Safe(s) && s.reader.Listening?
    ensures Safe(CreateUpdate(s, j)) && !CreateUpdate(s, j).reader.Blocked?
  {
    hide Safe, CreateNew, UpdateCaps;
    var e := ReadEntry(j);
    if e.None? {
      StoppingIsSafe(s);
    } else if e.value.id in s.conns {
      UpdateCapsIsSafe(s, e.value.id, e.value.caps);
    } else {
      CreateNewIsSafe(s, e.value.id, e.value.caps);
    }
  }

  lemma StoppingIsSafe(s: State)
    requires Safe(s) && s.reader.Listening?
    ensures Safe(s.(reader := Stopped))
  {
  }

  lemma FifoOfNew(inc: nat, caps: C.Caps)
    ensures Fifo(Conn(inc, caps, [], None, [], []))
  {
  }

  lemma CreateNewIsSafe(s: State, id: int, caps: Json)
    requires Safe(s) && s.reader.Listening? && id !in s.conns
    ensures Safe(CreateNew(s, id, caps)) && !CreateNew(s, id, caps).reader.Blocked?
  {
    hide C.Update, C.New, Inv, HistoryOk, Fifo, WelcomedIn, CleanedIn;
    assert Fifo(Conn(s.next, C.Update(C.New(), caps).caps, [], None, [], [])) by {
      FifoOfNew(s.next, C.Update(C.New(), caps).caps);
    }
    UnknownIncIsFresh(s.history, s.next);
    var t := CreateNew(s, id, caps);
    assert forall i | i in t.conns && i in s.conns :: t.conns[i] == s.conns[i];
  }

  lemma {:induction false} CreateAllIsSafe(s: State, es: seq<Json>)
    requires Safe(s) && s.reader.Listening?
    ensures Safe(CreateAll(s, es)) && !CreateAll(s, es).reader.Blocked?
  {
    if es != [] {
      CreateAllIsSafe(s, es[..|es| - 1]);
      var s1 := CreateAll(s, es[..|es| - 1]);
      if !s1.reader.Stopped? {
        CreateUpdateIsSafe(s1, es[|es| - 1]);
      }
    }
  }

  lemma SendInIsSafe(s: State, id: int, j: Json)
    requires Safe(s) && s.reader.Listening? && id in s.conns
    ensures Safe(SendIn(s, id, j))
  {
    hide Inv, Recorded, PendingIffUnwelcomed, Intact, ReaderAwaits;
    var t := SendIn(s, id, j);
    assert forall i | i in t.conns && i != id :: t.conns[i] == s.conns[i];
    assert s.conns[id].waiting.None? && t.conns[id].inc == s.conns[id].inc;
    assert Fifo(t.conns[id]);
    SameObjects(s, t);
  }

  lemma ReadFrameIsSafe(s: State, j: Json)
    requires Safe(s) && s.reader.Listening?
    ensures Safe(ReadFrame(s, j))
  {
    match Decode(j)
    case Malformed =>
    case ClientList(es) => CreateAllIsSafe(s, es);
    case ClientReady(e) => CreateUpdateIsSafe(s, e);
    case Addressed(kind, id) =>
      if id in s.conns {
        if kind == "client_capabilities" {
          UpdateCapsIsSafe(s, id, Field(j, "capabilities"));
        } else if kind == "client_data" {
          SendInIsSafe(s, id, j);
        }
      }
  }

  lemma LinkDownIsSafe(s: State)
    requires Safe(s)
    ensures Safe(Step(s, LinkDown))
  {
    var t := Step(s, LinkDown);
    DisconnectKeepsInv(s.out);
    if !s.exited {
      forall id | id in t.conns
        ensures Fifo(t.conns[id]) && t.conns[id].inc == s.conns[id].inc && t.conns[id].waiting.None?
      {
        var c := s.conns[id];
        assert Fifo(c);
        if c.waiting.Some? {
          assert c.routed[..|c.routed| - 1] == c.handled + c.buffer;
        }
      }
    }
  }

  // ---------- The tick ----------

  lemma DrainedIsFifo(c: Conn)
    requires Fifo(c)
    ensures Fifo(Drained(c)) && Drained(c).routed == Drained(c).handled
  {
  }

  lemma TickIsConnected(s: State, order: seq<int>, react: Behaviour)
    requires Connected(s)
    ensures Connected(Tick(s, order, react))
    ensures forall id | id in Tick(s, order, react).conns :: Tick(s, order, react).conns[id].inc == s.conns[id].inc
  {
    var t, live := Tick(s, order, react), Live(s);
    assert forall id | id in t.conns :: id in live && live[id] == s.conns[id] && t.conns[id] == Drained(live[id]);
    forall id | id in t.conns ensures Fifo(t.conns[id]) {
      DrainedIsFifo(s.conns[id]);
    }
    forall id | id in t.conns ensures t.reader != Blocked(t.conns[id].inc) {
      if s.reader == Blocked(s.conns[id].inc) {
        assert live[id].waiting.Some?;
      }
    }
  }

  /** The history a tick writes, part by part. */
  lemma TickIsRecorded(s: State, order: seq<int>, react: Behaviour)
    requires Safe(s) && Ids.Enumerates(order, s.dead.Keys)
    ensures var t := Tick(s, order, react);
            && HistoryOk(t.history) && Intact(t.history, t.conns)
            && (forall id | id in t.conns :: WelcomedIn(t.history, t.conns[id].inc))
            && (forall inc :: CleanedIn(t.history, inc) <==> CleanedIn(s.history, inc) || Owner(s.conns, order, inc))
  {
    hide HistoryOk, Inv, Fifo, AllReplies, Notices, TrySendAll, Marks;
    var live := Live(s);
    var ids, pending := Ids.Ascending(live.Keys), Ids.Ascending(s.pending);
    Ids.AscendingEnumerates(live.Keys);
    Ids.AscendingEnumerates(s.pending);
    var h1 := s.history + CleanFacts(s.conns, s.dead, order);
    assert forall i | 0 <= i < |order| :: order[i] in order;
    CleanBatch(s.history, s.conns, s.dead, order);
    forall id | id in live ensures !CleanedIn(h1, live[id].inc) {
      forall i | 0 <= i < |order| && order[i] in s.conns ensures s.conns[order[i]].inc != live[id].inc {
        assert order[i] in order;
      }
    }
    forall i | 0 <= i < |pending| && pending[i] in live ensures !WelcomedIn(h1, live[pending[i]].inc) {
      assert pending[i] in pending;
    }
    var h2 := h1 + WelcomeFacts(live, pending);
    WelcomeBatch(h1, live, pending);
    forall id | id in live ensures WelcomedIn(h2, live[id].inc) {
      if id in s.pending {
        assert id in pending;
        var i :| 0 <= i < |pending| && pending[i] == id;
        assert Owner(live, pending, live[id].inc);
      }
    }
    BeatBatch(h2, live, ids);
    var t := Tick(s, order, react);
    assert t.history == h2 + BeatFacts(live, ids);
  }

  lemma {:induction false} CleanFactsAre(conns: map<int, Conn>, dead: map<int, Reason>, order: seq<int>)
    ensures forall f | f in CleanFacts(conns, dead, order) ::
              && f.Cleaned? && f.id in order && f.id in conns && f.id in dead
              && f.conn == conns[f.id] && f.reason == dead[f.id]
  {
    if order != [] {
      CleanFactsAre(conns, dead, order[..|order| - 1]);
    }
  }

  lemma {:induction false} WelcomeFactsAre(conns: map<int, Conn>, ids: seq<int>)
    ensures forall f | f in WelcomeFacts(conns, ids) ::
              f.Welcomed? && exists id :: id in ids && id in conns && conns[id].inc == f.inc
  {
    if ids != [] {
      var n := |ids| - 1;
      WelcomeFactsAre(conns, ids[..n]);
      forall f | f in WelcomeFacts(conns, ids)
        ensures f.Welcomed? && exists id :: id in ids && id in conns && conns[id].inc == f.inc
      {
        if f in WelcomeFacts(conns, ids[..n]) {
          var id :| id in ids[..n] && id in conns && conns[id].inc == f.inc;
          assert id in ids;
        } else {
          assert ids[n] in ids;
        }
      }
    }
  }

  lemma {:induction false} BeatFactsAre(conns: map<int, Conn>, ids: seq<int>)
    ensures forall f | f in BeatFacts(conns, ids) ::
              f.Beat? && exists id :: id in ids && id in conns && conns[id].inc == f.inc
  {
    if ids != [] {
      var n := |ids| - 1;
      BeatFactsAre(conns, ids[..n]);
      forall f | f in BeatFacts(conns, ids)
        ensures f.Beat? && exists id :: id in ids && id in conns && conns[id].inc == f.inc
      {
        if f in BeatFacts(conns, ids[..n]) {
          var id :| id in ids[..n] && id in conns && conns[id].inc == f.inc;
          assert id in ids;
        } else {
          assert ids[n] in ids;
        }
      }
    }
  }

  lemma TickFactsAreKnown(s: State, order: seq<int>, react: Behaviour)
    requires Safe(s)
    ensures var h := Tick(s, order, react).history;
            && (forall k | 0 <= k < |h| :: IncOf(h[k]) < s.next)
            && (forall k | 0 <= k < |h| && h[k].Cleaned? :: Fifo(h[k].conn))
  {
    var live := Live(s);
    var ids, pending := Ids.Ascending(live.Keys), Ids.Ascending(s.pending);
    var c, w, b := CleanFacts(s.conns, s.dead, order), WelcomeFacts(live, pending), BeatFacts(live, ids);
    CleanFactsAre(s.conns, s.dead, order);
    WelcomeFactsAre(live, pending);
    BeatFactsAre(live, ids);
    var h := Tick(s, order, react).history;
    assert h == s.history + c + w + b;
    forall k | 0 <= k < |h| ensures IncOf(h[k]) < s.next && (h[k].Cleaned? ==> Fifo(h[k].conn)) {
      var f := h[k];
      if k < |s.history| {
        assert f == s.history[k];
      } else {
        assert f in c || f in w || f in b;
      }
    }
  }

  /** A reader that a tick leaves suspended waits for an object that the sweep has removed. */
  lemma SuspendedPastTick(s: State, order: seq<int>, react: Behaviour, id: int)
    requires Connected(s) && Tick(s, order, react).reader.Blocked?
    requires id in s.conns && s.conns[id].inc == Tick(s, order, react).reader.inc
    ensures id in s.dead
  {
    hide Injective, Fifo, Marks, AllReplies, TrySendAll, FlatMap, Notices, CleanFacts, WelcomeFacts, BeatFacts;
    var live := Live(s);
    assert s.conns[id].waiting.Some?;
    assert id !in live;
  }

  lemma TickReaderAwaits(s: State, order: seq<int>, react: Behaviour)
    requires Safe(s) && Ids.Enumerates(order, s.dead.Keys)
    ensures ReaderAwaits(Tick(s, order, react))
  {
    hide Connected, Recorded, Inv, CleanedIn, Owner, PendingIffUnwelcomed, Intact, HistoryOk;
    var t := Tick(s, order, react);
    TickIsRecorded(s, order, react);
    hide Safe, Tick, Ids.Enumerates;
    if t.reader.Blocked? && Present(s.conns, t.reader.inc) {
      var id :| id in s.conns && s.conns[id].inc == t.reader.inc;
      SuspendedPastTick(s, order, react, id);
      EnumeratedIsOwner(s, order, id);
    }
  }

  lemma EnumeratedIsOwner(s: State, order: seq<int>, id: int)
    requires id in s.conns && id in s.dead && Ids.Enumerates(order, s.dead.Keys)
    ensures Owner(s.conns, order, s.conns[id].inc)
  {
    assert id in order;
    OwnerOf(s.conns, order, id);
  }

  lemma OwnerOf(conns: map<int, Conn>, order: seq<int>, id: int)
    requires id in conns
    ensures id in order ==> Owner(conns, order, conns[id].inc)
  {
    if id in order {
      var i :| 0 <= i < |order| && order[i] == id;
    }
  }

  lemma TickIsSafe(s: State, order: seq<int>, react: Behaviour)
    requires Safe(s) && Ids.Enumerates(order, s.dead.Keys)
    ensures Safe(Tick(s, order, react))
  {
    TickIsConnected(s, order, react);
    TickIsRecorded(s, order, react);
    TickFactsAreKnown(s, order, react);
    var live := Live(s);
    TickReaderAwaits(s, order, react);
    var effects := AllReplies(live, Ids.Ascending(live.Keys), react);
    var notices := Notices(s.conns, s.dead, order);
    TrySendAllKeepsInv(s.out, notices);
    TrySendAllKeepsInv(TrySendAll(s.out, notices), FlatMap(Sent, effects));
  }

  // ---------- Every run ----------

  /** Nothing but the marks, the outbound channel and the reader changes. */
  lemma QuietIsSafe(s: State, dead: map<int, Reason>, out: Outbound, reader: Reader)
    requires Safe(s) && Inv(out)
    requires reader == s.reader || (!reader.Blocked? && forall id | id in s.conns :: s.conns[id].waiting.None?)
    ensures Safe(s.(dead := dead, out := out, reader := reader))
  {
    hide Inv, Fifo, Recorded, Intact, WelcomedIn, CleanedIn, Injective;
  }

  lemma ExitIsSafe(s: State)
    requires Safe(s)
    ensures Safe(s.(exited := true))
  {
  }

  lemma SafeOut(s: State)
    requires Safe(s)
    ensures Inv(s.out)
    ensures forall id | id in s.conns :: s.conns[id].waiting.Some? <==> s.reader == Blocked(s.conns[id].inc)
  {
  }

  lemma StepIsSafe(s: State, e: Event)
    requires Safe(s)
    ensures Safe(Step(s, e))
  {
    hide Safe, Tick, Exits, ReadFrame, Marks, TrySendAll, FlatMap, WriteEnds, Connect, Disconnect, Inv, Cancelled;
    SafeOut(s);
    if !s.exited {
      match e
      case FrameArrives(j) =>
        if s.reader.Listening? {
          ReadFrameIsSafe(s, j);
        }
      case LinkUp =>
        ConnectKeepsInv(s.out);
        QuietIsSafe(s, s.dead, Connect(s.out), if s.reader.Stopped? then Listening else s.reader);
      case LinkDown => LinkDownIsSafe(s);
      case Acts(a) =>
        TrySendAllKeepsInv(s.out, FlatMap(Sent, [a]));
        QuietIsSafe(s, Marks(s.dead, [a]), TrySendAll(s.out, FlatMap(Sent, [a])), s.reader);
      case WriteDone(ok) =>
        WriteEndsKeepsInv(s.out, ok);
        QuietIsSafe(s, s.dead, WriteEnds(s.out, ok), s.reader);
      case SendAbandoned =>
        if s.reader.Blocked? && forall id | id in s.conns :: s.conns[id].inc != s.reader.inc {
          QuietIsSafe(s, s.dead, s.out, Listening);
        }
      case TickRuns(order, react) =>
        if Ids.Enumerates(order, s.dead.Keys) && !Exits(s) {
          TickIsSafe(s, order, react);
        } else {
          ExitIsSafe(s);
        }
    }
  }

  /** From start-up on, every interleaving of frames, calls, writes, link changes and ticks is safe. */
  lemma {:induction false} EveryRunIsSafe(es: seq<Event>)
    ensures Safe(Run(INIT, es))
  {
    hide Step;
    if es != [] {
      hide Safe;
      EveryRunIsSafe(es[..|es| - 1]);
      StepIsSafe(Run(INIT, es[..|es| - 1]), es[|es| - 1]);
    }
  }
}
