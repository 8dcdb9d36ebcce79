/** The connection objects and the global containers, with the loops of the tick and the reader.
    Each method is shown to take the step that Lifecycle describes. */
module Net {
  import opened Options
  import opened JsonValues
  import opened Sequences
  import opened OutboundLink
  import opened Lifecycle
  import opened PlayViews
  import F = LifecycleFrames
  import Ids
  import Text
  import C = Capabilities
  import M = Messages

  /** Calls `es` were made between two states of the dead marks and the outbound channel. */
  ghost predicate Did(dead: map<int, Reason>, out: Outbound, es: seq<Effect>, dead': map<int, Reason>, out': Outbound) {
    dead' == Marks(dead, es) && out' == TrySendAll(out, FlatMap(Sent, es))
  }

  lemma {:induction false} MarksAppend(dead: map<int, Reason>, a: seq<Effect>, b: seq<Effect>)
    ensures Marks(dead, a + b) == Marks(Marks(dead, a), b)
  {
    if b == [] {
      assert a + b == a;
    } else {
      MarksAppend(dead, a, b[..|b| - 1]);
      assert (a + b)[..|a + b| - 1] == a + b[..|b| - 1];
    }
  }

  lemma DidAppend(d0: map<int, Reason>, o0: Outbound, a: seq<Effect>, d1: map<int, Reason>, o1: Outbound,
                  b: seq<Effect>, d2: map<int, Reason>, o2: Outbound)
    requires Did(d0, o0, a, d1, o1) && Did(d1, o1, b, d2, o2)
    ensures Did(d0, o0, a + b, d2, o2)
  {
    MarksAppend(d0, a, b);
    FlatMapAppend(Sent, a, b);
    TrySendAllAppend(o0, FlatMap(Sent, a), FlatMap(Sent, b));
  }

  lemma NoTextCalls(calls: seq<M.ParserCall>, es: seq<Json>)
    ensures calls + FlatMap(M.TextCall, es[..0]) == calls
  {
  }

  lemma TextCallSnoc(calls: seq<M.ParserCall>, es: seq<Json>, i: nat)
    requires i < |es|
    ensures calls + FlatMap(M.TextCall, es[..i + 1]) == (calls + FlatMap(M.TextCall, es[..i])) + M.TextCall(es[i])
  {
    assert es[..i + 1] == es[..i] + [es[i]];
    FlatMapSnoc(M.TextCall, es[..i], es[i]);
  }

  lemma NoMessageCalls(calls: seq<M.ParserCall>, ms: seq<M.Message>)
    ensures calls + FlatMap(M.MessageCalls, ms[..0]) == calls
  {
  }

  lemma MessageCallsSnoc(calls: seq<M.ParserCall>, ms: seq<M.Message>, i: nat)
    requires i < |ms|
    ensures calls + FlatMap(M.MessageCalls, ms[..i + 1]) ==
            (calls + FlatMap(M.MessageCalls, ms[..i])) + M.MessageCalls(ms[i])
  {
    hide M.MessageCalls;
    assert ms[..i + 1] == ms[..i] + [ms[i]];
    FlatMapSnoc(M.MessageCalls, ms[..i], ms[i]);
  }

  lemma {:induction false} AnswersAppend(react: Behaviour, inc: nat, first: nat, m: nat, n: nat)
    ensures Answers(react, inc, first, m + n) == Answers(react, inc, first, m) + Answers(react, inc, first + m, n)
  {
    if n > 0 {
      AnswersAppend(react, inc, first, m, n - 1);
    }
  }

  // ---------- Accounts and play views ----------

  /** What a connection is logged in as. */
  datatype Session = Session(account: Option<int>, playview: PlayView?)

  /** A session after a cleanup. A connection that the game logs off keeps its play view. */
  function Parted(s: Session, reason: Reason): Session {
    Session(None, if reason.GameLogoff? then s.playview else null)
  }

  function Parting(id: int, reason: Reason): seq<Departure> {
    if reason.GameLogoff? then [] else [Departure(id, reason.ConnectionClosed?)]
  }

  /** The departures a sweep reports to play view p. */
  ghost function Departures(sessions: map<int, Session>, dead: map<int, Reason>, order: seq<int>,
                            p: PlayView): seq<Departure> {
    if order == [] then []
    else
      var id := order[|order| - 1];
      Departures(sessions, dead, order[..|order| - 1], p) +
      if id in sessions && id in dead && sessions[id].playview == p then Parting(id, dead[id]) else []
  }

  /** What one cleanup adds to the departures play view p learns of. */
  lemma DepartureStep(groups: map<PlayView, Group>, sessions: map<int, Session>, dead: map<int, Reason>,
                      order: seq<int>, i: nat)
    requires i < |order|
    ensures forall p | p in groups ::
              var id := order[i]; var g := LeaveAll(groups[p], Departures(sessions, dead, order[..i], p));
              LeaveAll(groups[p], Departures(sessions, dead, order[..i + 1], p)) ==
              if id in sessions && id in dead && sessions[id].playview == p
              then LeaveAll(g, Parting(id, dead[id])) else g
  {
    var id := order[i];
    forall p | p in groups
      ensures var g := LeaveAll(groups[p], Departures(sessions, dead, order[..i], p));
              LeaveAll(groups[p], Departures(sessions, dead, order[..i + 1], p)) ==
              if id in sessions && id in dead && sessions[id].playview == p
              then LeaveAll(g, Parting(id, dead[id])) else g
    {
      assert order[..i + 1][..i] == order[..i];
      var ds := Departures(sessions, dead, order[..i], p);
      assert ds + [] == ds;
      LeaveAllAppend(groups[p], ds, Parting(id, if id in dead then dead[id] else GameLogoff));
    }
  }

  /** A sweep parts a connection from its play view unless the game itself logs the connection off. */
  ghost predicate Departs(sessions: map<int, Session>, dead: map<int, Reason>, p: PlayView, id: int) {
    id in sessions && id in dead && sessions[id].playview == p && !dead[id].GameLogoff?
  }

  lemma {:induction false} DeparturesAre(sessions: map<int, Session>, dead: map<int, Reason>, order: seq<int>,
                                         p: PlayView)
    ensures forall d | d in Departures(sessions, dead, order, p) ::
              d.id in order && Departs(sessions, dead, p, d.id) && d.graceful == dead[d.id].ConnectionClosed?
    ensures forall id | id in order && Departs(sessions, dead, p, id) ::
              Leaves(Departures(sessions, dead, order, p), id)
  {
    if order != [] {
      var n := |order| - 1;
      var ds, init := Departures(sessions, dead, order, p), Departures(sessions, dead, order[..n], p);
      DeparturesAre(sessions, dead, order[..n], p);
      forall id | id in order && Departs(sessions, dead, p, id) ensures Leaves(ds, id) {
        if id in order[..n] {
          var i :| 0 <= i < |init| && init[i].id == id;
          assert ds[i].id == id;
        } else {
          assert id == order[n] && ds[|ds| - 1].id == id;
        }
      }
    }
  }

  lemma {:induction false} DeparturesAreOrderly(sessions: map<int, Session>, dead: map<int, Reason>, order: seq<int>,
                                                p: PlayView, g: Group)
    requires forall i, k | 0 <= i < k < |order| :: order[i] != order[k]
    requires forall id | id in sessions && sessions[id].playview == p :: id in g.members
    ensures Orderly(g, Departures(sessions, dead, order, p))
  {
    if order != [] {
      var n := |order| - 1;
      var ds, init := Departures(sessions, dead, order, p), Departures(sessions, dead, order[..n], p);
      DeparturesAreOrderly(sessions, dead, order[..n], p, g);
      DeparturesAre(sessions, dead, order[..n], p);
      forall i | 0 <= i < |init| ensures init[i].id != order[n] {
        assert init[i] in init && init[i].id in order[..n];
      }
    }
  }

  /** A sweep takes exactly the connections that were lost or closed out of a play view's group, and if nobody is
      left the view learns of it once, from the last to go. */
  lemma SweepEndsGroupOnce(sessions: map<int, Session>, dead: map<int, Reason>, order: seq<int>, p: PlayView, g: Group)
    requires Ids.Enumerates(order, dead.Keys)
    requires forall id | id in sessions && sessions[id].playview == p :: id in g.members
    ensures var ds := Departures(sessions, dead, order, p); var t := LeaveAll(g, ds);
            && (forall id :: id in t.members <==> id in g.members && !Departs(sessions, dead, p, id))
            && t.ended == g.ended + if ds != [] && t.members == {} then [ds[|ds| - 1].graceful] else []
  {
    var ds := Departures(sessions, dead, order, p);
    DeparturesAre(sessions, dead, order, p);
    DeparturesAreOrderly(sessions, dead, order, p, g);
    EndsOnce(g, ds);
    forall id ensures id in LeaveAll(g, ds).members <==> id in g.members && !Departs(sessions, dead, p, id) {
      LeaveAllMembers(g, ds, id);
      if Leaves(ds, id) {
        var i :| 0 <= i < |ds| && ds[i].id == id;
        assert ds[i] in ds;
      }
      assert id in dead.Keys <==> id in order;
    }
  }

  lemma BadAmongQueued(c: Conn)
    ensures (exists f :: f in Queued(c) && !M.FrameOk(f)) <==>
            (exists f :: (f in c.buffer || c.waiting == Some(f)) && M.BadFrame(f))
  {
    hide M.FrameOk, M.BadFrame;
    if f :| f in Queued(c) && !M.FrameOk(f) {
      M.FrameOkIff(f);
      assert f in c.buffer || c.waiting == Some(f);
    }
    if f :| (f in c.buffer || c.waiting == Some(f)) && M.BadFrame(f) {
      M.FrameOkIff(f);
      assert f in Queued(c);
    }
  }

  /** The only connection of a play view, logged off by the game: it stays a member and no end is reported. */
  lemma LoggedOffMemberStays(p: PlayView, account: Option<int>)
    ensures var g := Group({1}, []);
            LeaveAll(g, Departures(map[1 := Session(account, p)], map[1 := GameLogoff], [1], p)) == g
  {
    assert [1][..0] == [];
  }

  class Connection {
    const connId: int
    const inc: nat
    const capabilities: C.ProtocolCapabilities
    var fromLink: seq<Json>
    var waiting: Option<Json>
    var account: Option<int>
    var playview: PlayView?
    /** The calls made to the parser, in order. */
    var calls: seq<M.ParserCall>
    ghost var routed: seq<Json>
    ghost var handled: seq<Json>

    ghost predicate Valid()
      reads this`calls, this`handled
    {
      calls == FlatMap(M.FrameCalls, handled)
    }

    ghost function View(): Conn
      reads this`fromLink, this`waiting, this`routed, this`handled, capabilities
    {
      Conn(inc, capabilities.View(), fromLink, waiting, routed, handled)
    }

    constructor (connId: int, inc: nat)
      ensures this.connId == connId && this.inc == inc && fresh(capabilities) && Valid()
      ensures View() == Conn(inc, C.New(), [], None, [], []) && account == None && playview == null
    {
      this.connId, this.inc := connId, inc;
      capabilities := new C.ProtocolCapabilities();
      fromLink, waiting, calls := [], None, [];
      account, playview := None, null;
      routed, handled := [], [];
    }

    /** close() */
    method Close(net: Net)
      modifies net`deadConnections
      ensures net.deadConnections == Mark(old(net.deadConnections), Lifecycle.Close(connId))
      ensures net.deadConnections == old(net.deadConnections)[connId := GameLogoff]
    {
      net.deadConnections := net.deadConnections[connId := GameLogoff];
    }

    method OnNetworkDisconnected(net: Net)
      modifies net`deadConnections
      ensures net.deadConnections == Mark(old(net.deadConnections), NetworkLost(connId))
      ensures net.deadConnections == old(net.deadConnections)[connId := Reason.ConnectionLost]
    {
      net.deadConnections := net.deadConnections[connId := Reason.ConnectionLost];
    }

    method SendMessage(net: Net, m: M.Message)
      modifies net.linkChannel
      ensures net.linkChannel.View() == TrySendAll(old(net.linkChannel.View()), Sent(Send(connId, m)))
      ensures net.linkChannel.offered == old(net.linkChannel.offered) + [M.DataFrame(connId, m)]
    {
      ghost var before, f := net.linkChannel.View(), M.DataFrame(connId, m);
      assert [f][..0] == [] && TrySendAll(before, [f]) == TrySend(before, f);
      var _ := net.linkChannel.Offer(M.DataFrame(connId, m));
    }

    ghost function Contact(): Session
      reads this`account, this`playview
    {
      Session(account, playview)
    }

    method OnWelcome()
      modifies this`account, this`playview
      ensures Contact() == Session(None, null)
    {
      account := None;
      playview := null;
    }

    /** The play view learns of a departure unless the game itself logs the connection off. */
    method Cleanup(net: Net, reason: Reason)
      modifies this`account, this`playview, playview, net`history, net.linkChannel
      ensures net.history == old(net.history) + [Cleaned(connId, View(), reason)]
      ensures net.linkChannel.View() ==
              if reason.GameLogoff?
              then TrySend(old(net.linkChannel.View()), Notice(connId)) else old(net.linkChannel.View())
      ensures Contact() == Parted(old(Contact()), reason)
      ensures account == None && playview == if reason.GameLogoff? then old(playview) else null
      ensures net.linkChannel.offered == old(net.linkChannel.offered) +
              if reason.GameLogoff? then [Notice(connId)] else []
      ensures old(playview) != null ==>
                old(playview).View() == LeaveAll(old(playview.View()), Parting(connId, reason))
    {
      account := None;
      match reason {
        case ConnectionLost =>
          if playview != null {
            playview.OnConnectionLost(connId);
            playview := null;
          }
        case ConnectionClosed =>
          if playview != null {
            playview.OnConnectionClosed(connId);
            playview := null;
          }
        case GameLogoff => var _ := net.linkChannel.Offer(Notice(connId));
      }
      net.history := net.history + [Cleaned(connId, View(), reason)];
    }

    /** One call of the parser: whatever the code behind it does. */
    method CallParser(net: Net, react: Behaviour, call: M.ParserCall)
      modifies this`calls, net`deadConnections, net.linkChannel
      ensures calls == old(calls) + [call]
      ensures Did(old(net.deadConnections), old(net.linkChannel.View()), react(inc, |old(calls)|),
                  net.deadConnections, net.linkChannel.View())
    {
      var es := react(inc, |calls|);
      calls := calls + [call];
      var i := 0;
      while i < |es|
        invariant i <= |es|
        invariant calls == old(calls) + [call]
        invariant Did(old(net.deadConnections), old(net.linkChannel.View()), es[..i],
                      net.deadConnections, net.linkChannel.View())
      {
        ghost var d, o := net.deadConnections, net.linkChannel.View();
        match es[i] {
          case Close(id) => net.deadConnections := net.deadConnections[id := GameLogoff];
          case NetworkLost(id) => net.deadConnections := net.deadConnections[id := Reason.ConnectionLost];
          case Send(id, m) => var _ := net.linkChannel.Offer(M.DataFrame(id, m));
        }
        SingleEffect(d, o, es[i]);
        DidAppend(old(net.deadConnections), old(net.linkChannel.View()), es[..i], d, o, [es[i]],
                  net.deadConnections, net.linkChannel.View());
        assert es[..i + 1] == es[..i] + [es[i]];
        i := i + 1;
      }
      assert es[..i] == es;
    }

    /** The parser's calls from the first-th on have had their effects. */
    ghost predicate Answered(react: Behaviour, first: nat, d: map<int, Reason>, o: Outbound, net: Net)
      reads this`calls, net`deadConnections, net.linkChannel
    {
      && first <= |calls|
      && Did(d, o, Answers(react, inc, first, |calls| - first), net.deadConnections, net.linkChannel.View())
    }

    lemma AnsweredTrans(react: Behaviour, first: nat, middle: nat, d0: map<int, Reason>, o0: Outbound,
                        d1: map<int, Reason>, o1: Outbound, net: Net)
      requires first <= middle && Did(d0, o0, Answers(react, inc, first, middle - first), d1, o1)
      requires Answered(react, middle, d1, o1, net)
      ensures Answered(react, first, d0, o0, net)
    {
      hide Did, Answers;
      AnswersAppend(react, inc, first, middle - first, |calls| - middle);
      assert first + (middle - first) == middle && (middle - first) + (|calls| - middle) == |calls| - first;
      DidAppend(d0, o0, Answers(react, inc, first, middle - first), d1, o1,
                Answers(react, inc, middle, |calls| - middle), net.deadConnections, net.linkChannel.View());
    }

    method HandleMessage(net: Net, react: Behaviour, m: M.Message)
      modifies this`calls, net`deadConnections, net.linkChannel
      ensures calls == old(calls) + M.MessageCalls(m)
      ensures Answered(react, |old(calls)|, old(net.deadConnections), old(net.linkChannel.View()), net)
    {
      hide Did, Answers, Items, FlatMap, M.TextCall;
      ghost var first, d0, o0 := |calls|, net.deadConnections, net.linkChannel.View();
      NothingAnswered(react, d0, o0, net);
      if m.cmd == "text" {
        var args := Iterate(m.args);
        ghost var es := Elements(m.args);
        var i := 0;
        NoTextCalls(old(calls), es);
        while i < |args|
          invariant i <= |args| == |es|
          invariant calls == old(calls) + FlatMap(M.TextCall, es[..i])
          invariant Answered(react, first, d0, o0, net)
        {
          ghost var n, d, o := |calls|, net.deadConnections, net.linkChannel.View();
          TextCallSnoc(old(calls), es, i);
          HandleArgument(net, react, args[i].value);
          AnsweredTrans(react, first, n, d0, o0, d, o, net);
          i := i + 1;
        }
        assert es[..i] == es;
      } else {
        CallParser(net, react, M.HandleMessage(m));
        OneAnswer(react, first, d0, o0, net);
      }
    }

    /** One argument of a text command. */
    method HandleArgument(net: Net, react: Behaviour, arg: Json)
      modifies this`calls, net`deadConnections, net.linkChannel
      ensures calls == old(calls) + M.TextCall(arg)
      ensures Answered(react, |old(calls)|, old(net.deadConnections), old(net.linkChannel.View()), net)
    {
      hide Did, Answers;
      ghost var d, o := net.deadConnections, net.linkChannel.View();
      NothingAnswered(react, d, o, net);
      if arg.Str? {
        if Text.IEquals(arg.s, "idle") {
          return;
        }
        CallParser(net, react, M.ParseText(arg.s));
        OneAnswer(react, |old(calls)|, d, o, net);
      }
    }

    lemma NothingAnswered(react: Behaviour, d: map<int, Reason>, o: Outbound, net: Net)
      requires d == net.deadConnections && o == net.linkChannel.View()
      ensures Answered(react, |calls|, d, o, net)
    {
      assert Answers(react, inc, |calls|, 0) == [];
    }

    lemma OneAnswer(react: Behaviour, first: nat, d: map<int, Reason>, o: Outbound, net: Net)
      requires |calls| == first + 1
      requires Did(d, o, react(inc, first), net.deadConnections, net.linkChannel.View())
      ensures Answered(react, first, d, o, net)
    {
      assert Answers(react, inc, first, 0) == [];
      assert Answers(react, inc, first, 1) == [] + react(inc, first) == react(inc, first);
    }

    /** The loop over the entries of one frame. Returns true where an entry throws, which ends the process. */
    method HandleEntries(net: Net, react: Behaviour, items: seq<Item>, ghost ms: seq<M.Message>) returns (exits: bool)
      requires |items| == |ms|
      requires forall k | 0 <= k < |ms| && M.Parse(items[k].value).Some? :: ms[k] == M.Parse(items[k].value).value
      modifies this`calls, net`deadConnections, net.linkChannel
      ensures exits <==> exists k :: 0 <= k < |items| && M.Parse(items[k].value).None?
      ensures !exits ==> calls == old(calls) + FlatMap(M.MessageCalls, ms)
      ensures !exits ==> Answered(react, |old(calls)|, old(net.deadConnections), old(net.linkChannel.View()), net)
    {
      hide M.MessageCalls, M.Parse, Did, Answers, FlatMap;
      ghost var first, d0, o0 := |calls|, net.deadConnections, net.linkChannel.View();
      NothingAnswered(react, d0, o0, net);
      NoMessageCalls(calls, ms);
      var i := 0;
      while i < |items|
        invariant i <= |items|
        invariant forall k | 0 <= k < i :: M.Parse(items[k].value).Some?
        invariant calls == old(calls) + FlatMap(M.MessageCalls, ms[..i])
        invariant Answered(react, first, d0, o0, net)
      {
        var m := M.Parse(items[i].value);
        if m.None? {
          return true;
        }
        ghost var n, d, o := |calls|, net.deadConnections, net.linkChannel.View();
        MessageCallsSnoc(old(calls), ms, i);
        HandleMessage(net, react, m.value);
        AnsweredTrans(react, first, n, d0, o0, d, o, net);
        i := i + 1;
      }
      assert ms[..i] == ms;
      exits := false;
    }

    method HandleFrame(net: Net, react: Behaviour, frame: Json) returns (exits: bool)
      modifies this`calls, net`deadConnections, net.linkChannel
      ensures exits <==> !M.FrameOk(frame)
      ensures exits <==> M.BadFrame(frame)
      ensures !exits ==> calls == old(calls) + M.FrameCalls(frame)
      ensures forall id, m | frame == M.DataFrame(id, m) :: !exits && calls == old(calls) + M.MessageCalls(m)
      ensures !exits ==> Answered(react, |old(calls)|, old(net.deadConnections), old(net.linkChannel.View()), net)
    {
      M.FrameOkIff(frame);
      hide M.BadFrame;
      var items := Iterate(Field(frame, "data"));
      ghost var es := M.Entries(frame);
      assert |es| == |items| && forall k | 0 <= k < |es| :: es[k] == items[k].value;
      exits := HandleEntries(net, react, items, M.FrameMessages(frame));
      if exits {
        var k :| 0 <= k < |items| && M.Parse(items[k].value).None?;
        assert es[k] in es;
      }
      forall id, m | frame == M.DataFrame(id, m) ensures !exits && M.FrameCalls(frame) == M.MessageCalls(m) {
        M.SentMessageIsReadBack(id, m);
        M.SentMessageCalls(id, m);
      }
    }

    /** Of the frames q that the channel c had, k have been taken and h of these have been handled. */
    ghost predicate Taken(c: Conn, q: seq<Json>, k: nat, h: nat)
      reads this`fromLink, this`waiting, this`routed, this`handled, capabilities
    {
      && h <= k <= |q|
      && Queued(View()) == q[k..]
      && View() == c.(buffer := fromLink, waiting := waiting, handled := c.handled + q[..h])
      && (waiting.Some? ==> c.waiting.Some? && k == 0)
      && (k == 0 ==> waiting == c.waiting)
    }

    lemma NothingTaken(c: Conn, q: seq<Json>)
      requires c == View() && q == Queued(c)
      ensures Taken(c, q, 0, 0)
    {
      assert c.handled + q[..0] == c.handled;
    }

    method TakeNext(net: Net, ghost c: Conn, ghost q: seq<Json>, ghost k: nat) returns (frame: Json)
      requires Taken(c, q, k, k) && k < |q|
      modifies this`fromLink, this`waiting, net`reader
      ensures frame == q[k] && Taken(c, q, k + 1, k)
      ensures net.reader == if old(waiting).Some? then Listening else old(net.reader)
    {
      assert q[k..] == [q[k]] + q[k + 1..];
      frame := TakeFrame(net);
      assert Queued(View()) == q[k + 1..] by {
        assert ([frame] + Queued(View()))[1..] == Queued(View());
      }
    }

    /** One round of the drain loop. */
    method HandleNext(net: Net, react: Behaviour, ghost c: Conn, ghost q: seq<Json>, ghost k: nat,
                      ghost first: nat, ghost d0: map<int, Reason>, ghost o0: Outbound) returns (exits: bool)
      requires Valid() && Taken(c, q, k, k) && k < |q| && Answered(react, first, d0, o0, net)
      modifies this`fromLink, this`waiting, this`calls, this`handled, net`deadConnections, net`reader, net.linkChannel
      ensures exits <==> !M.FrameOk(q[k])
      ensures !exits ==> Valid() && Taken(c, q, k + 1, k + 1) && Answered(react, first, d0, o0, net)
      ensures net.reader == if old(waiting).Some? then Listening else old(net.reader)
    {
      hide M.FrameCalls, M.FrameOk, Did, Answers, Taken;
      ghost var n, d, o := |calls|, net.deadConnections, net.linkChannel.View();
      var frame := TakeNext(net, c, q, k);
      exits := HandleFrame(net, react, frame);
      if !exits {
        AnsweredTrans(react, first, n, d0, o0, d, o, net);
        CountHandled(frame, c, q, k);
      }
    }

    ghost method CountHandled(frame: Json, c: Conn, q: seq<Json>, k: nat)
      requires calls == FlatMap(M.FrameCalls, handled) + M.FrameCalls(frame)
      requires k < |q| && frame == q[k] && Taken(c, q, k + 1, k)
      modifies this`handled
      ensures Valid() && Taken(c, q, k + 1, k + 1)
    {
      hide M.FrameCalls;
      FlatMapSnoc(M.FrameCalls, handled, frame);
      handled := handled + [frame];
      assert c.handled + q[..k + 1] == (c.handled + q[..k]) + [q[k]];
    }

    /** onHeartbeat: takes frames out of the channel until it is empty. A suspended send moves up when the
        first frame is taken, and its sender runs again. */
    method OnHeartbeat(net: Net, react: Behaviour) returns (exits: bool)
      requires Valid()
      modifies this`fromLink, this`waiting, this`calls, this`handled
      modifies net`deadConnections, net`reader, net`history, net.linkChannel
      ensures exits <==> exists f :: f in old(Queued(View())) && !M.FrameOk(f)
      ensures exits <==> exists f :: (f in old(fromLink) || old(waiting) == Some(f)) && M.BadFrame(f)
      ensures !exits ==> Valid() && View() == Drained(old(View()))
      ensures !exits ==> calls == old(calls) + FlatMap(M.FrameCalls, old(Queued(View())))
      ensures !exits ==> net.reader == if old(waiting).Some? then Listening else old(net.reader)
      ensures !exits ==> net.history == old(net.history) + [Beat(inc)]
      ensures !exits ==> Did(old(net.deadConnections), old(net.linkChannel.View()), Replies(old(View()), react),
                             net.deadConnections, net.linkChannel.View())
    {
      hide M.FrameCalls, M.FrameOk, Did, Replies, Drained, Answers, Answered;
      ghost var c, q := View(), Queued(View());
      BadAmongQueued(c);
      ghost var d0, o0, first := net.deadConnections, net.linkChannel.View(), |calls|;
      NothingAnswered(react, d0, o0, net);
      net.history := net.history + [Beat(inc)];
      ghost var k := 0;
      NothingTaken(c, q);
      while fromLink != [] || waiting.Some?
        invariant Taken(c, q, k, k) && Valid()
        invariant forall i | 0 <= i < k :: M.FrameOk(q[i])
        invariant Answered(react, first, d0, o0, net)
        invariant net.reader == if c.waiting.Some? && waiting.None? then Listening else old(net.reader)
        invariant net.history == old(net.history) + [Beat(inc)]
        decreases |q| - k
      {
        exits := HandleNext(net, react, c, q, k, first, d0, o0);
        if exits {
          return;
        }
        k := k + 1;
      }
      DrainEnds(react, c, q, k, first, d0, o0, net);
      exits := false;
    }

    lemma DrainEnds(react: Behaviour, c: Conn, q: seq<Json>, k: nat, first: nat, d0: map<int, Reason>, o0: Outbound,
                    net: Net)
      requires Taken(c, q, k, k) && Valid() && q == Queued(c) && fromLink == [] && waiting.None?
      requires first == |FlatMap(M.FrameCalls, c.handled)| && Answered(react, first, d0, o0, net)
      ensures k == |q| && View() == Drained(c) && calls == FlatMap(M.FrameCalls, c.handled) + FlatMap(M.FrameCalls, q)
      ensures Did(d0, o0, Replies(c, react), net.deadConnections, net.linkChannel.View())
    {
      hide M.FrameCalls;
      assert q[k..] == [] && q[..k] == q;
      FlatMapAppend(M.FrameCalls, c.handled, q);
    }

    /** async_send on the inbound channel. Returns whether the sender is suspended. */
    method Arrive(j: Json) returns (full: bool)
      modifies this`fromLink, this`waiting, this`routed
      ensures View() == Arrived(old(View()), j)
      ensures full == (|old(View()).buffer| >= CHANNEL) && View().inc == inc
    {
      full := |fromLink| >= CHANNEL;
      if full {
        waiting := Some(j);
      } else {
        fromLink := fromLink + [j];
      }
      routed := routed + [j];
    }

    /** try_receive on the inbound channel. */
    method TakeFrame(net: Net) returns (frame: Json)
      requires Queued(View()) != []
      modifies this`fromLink, this`waiting, net`reader
      ensures [frame] + Queued(View()) == old(Queued(View()))
      ensures waiting == None
      ensures net.reader == if old(waiting).Some? then Listening else old(net.reader)
    {
      if waiting.Some? {
        fromLink, waiting := fromLink + [waiting.value], None;
        net.reader := Listening;
      }
      frame, fromLink := fromLink[0], fromLink[1..];
    }
  }

  lemma SingleEffect(d: map<int, Reason>, o: Outbound, e: Effect)
    ensures Marks(d, [e]) == Mark(d, e)
    ensures TrySendAll(o, FlatMap(Sent, [e])) == if e.Send? then TrySend(o, M.DataFrame(e.id, e.m)) else o
  {
    assert [e][..0] == [] && FlatMap(Sent, [e]) == [] + Sent(e) == Sent(e);
    if e.Send? {
      var f := M.DataFrame(e.id, e.m);
      assert [f][..0] == [];
    }
  }

  class Net {
    var connections: map<int, Connection>
    var pendingConnections: set<int>
    var deadConnections: map<int, Reason>
    var reader: Reader
    /** Connection objects created so far. */
    var created: nat
    const linkChannel: LinkChannel
    ghost var history: seq<Fact>

    ghost function Capabilities(): set<object>
      reads this`connections
    {
      set id | id in connections :: connections[id].capabilities
    }

    /** Ids lead to distinct objects, each knowing its id. */
    ghost predicate Valid()
      reads this`connections, connections.Values`calls, connections.Values`handled
    {
      && (forall id | id in connections :: connections[id].connId == id && connections[id].Valid())
      && (forall a, b | a in connections && b in connections && a != b ::
           connections[a] != connections[b] && connections[a].capabilities != connections[b].capabilities)
    }

    ghost function Conns(): map<int, Conn>
      reads this`connections, Capabilities()
      reads connections.Values`fromLink, connections.Values`waiting
      reads connections.Values`routed, connections.Values`handled
    {
      map id | id in connections :: connections[id].View()
    }

    ghost function Sessions(): map<int, Session>
      reads this`connections, connections.Values`account, connections.Values`playview
    {
      map id | id in connections :: connections[id].Contact()
    }

    ghost function Groups(): set<PlayView>
      reads this`connections, connections.Values`playview
    {
      set id | id in connections && connections[id].playview != null :: connections[id].playview as PlayView
    }

    ghost function GroupViews(): map<PlayView, Group>
      reads this`connections, connections.Values`playview, Groups()
    {
      map p | p in Groups() :: p.View()
    }

    ghost function View(): State
      reads this, Capabilities(), linkChannel
      reads connections.Values`fromLink, connections.Values`waiting
      reads connections.Values`routed, connections.Values`handled
    {
      State(created, Conns(), pendingConnections, deadConnections, reader, linkChannel.View(), history, false)
    }

    constructor ()
      ensures Valid() && View() == INIT && fresh(linkChannel)
    {
      linkChannel := new LinkChannel();
      connections, pendingConnections, deadConnections := map[], {}, map[];
      reader, created, history := Stopped, 0, [];
    }

    // ---------- The reader ----------

    /** createUpdateClient */
    method CreateUpdateClient(j: Json)
      requires Valid()
      modifies this`connections, this`pendingConnections, this`created, this`reader, Capabilities()
      ensures Valid() && View() == CreateUpdate(old(View()), j)
      ensures Grows(old(connections), connections)
    {
      hide Connection.Valid, C.Update, C.New;
      var e := ReadEntry(j);
      if e.None? {
        StopReader();
        return;
      }
      var Entry(id, caps) := e.value;
      if id in connections {
        UpdateCapabilities(id, caps);
      } else {
        CreateClient(id, caps);
      }
    }

    /** A new connection object with the capabilities it announced. */
    method NewConnection(id: int, caps: Json) returns (cc: Connection, ok: bool)
      ensures fresh(cc) && fresh(cc.capabilities) && cc.Valid() && cc.connId == id
      ensures C.Outcome(cc.View().caps, ok) == C.Update(C.New(), caps)
      ensures cc.View() == Conn(created, cc.View().caps, [], None, [], [])
      ensures Conns() == old(Conns())
    {
      hide Connection.Valid, C.Update, C.New;
      cc := new Connection(id, created);
      ok := cc.capabilities.Deserialize(caps);
    }

    method CreateClient(id: int, caps: Json)
      requires Valid() && id !in connections
      modifies this`connections, this`pendingConnections, this`created, this`reader
      ensures Valid() && Grows(old(connections), connections)
      ensures View() == CreateNew(old(View()), id, caps)
    {
      hide Connection.Valid, Connection.View, C.Update, C.New, Conns;
      ghost var s := View();
      var cc, ok := NewConnection(id, caps);
      ghost var c := cc.View();
      assert View() == s;
      assert ok ==> CreateNew(s, id, caps) ==
                    s.(next := created + 1, conns := s.conns[id := c], pending := s.pending + {id});
      if ok {
        Adopt(id, cc);
      } else {
        StopReader();
      }
    }

    method Adopt(id: int, cc: Connection)
      requires Valid() && id !in connections && cc.Valid() && cc.connId == id
      requires forall i | i in connections :: connections[i] != cc && connections[i].capabilities != cc.capabilities
      modifies this`connections, this`pendingConnections, this`created
      ensures Valid() && connections == old(connections)[id := cc]
      ensures View() == old(View()).(next := old(created) + 1, conns := old(Conns())[id := old(cc.View())],
                                     pending := old(pendingConnections) + {id})
    {
      hide Connection.Valid, Connection.View;
      connections := connections[id := cc];
      pendingConnections := pendingConnections + {id};
      created := created + 1;
      assert Conns() == old(Conns())[id := cc.View()];
    }

    /** The portal reports that a client has gone. */
    method MarkClosed(id: int)
      modifies this`deadConnections
      ensures View() == old(View()).(dead := old(deadConnections)[id := Reason.ConnectionClosed])
    {
      hide Connection.View;
      deadConnections := deadConnections[id := Reason.ConnectionClosed];
    }

    /** An exception ends the reader. */
    method StopReader()
      modifies this`reader
      ensures View() == old(View()).(reader := Stopped)
    {
      hide Connection.View;
      reader := Stopped;
    }

    /** Connections present before are kept; the others are new objects. */
    twostate predicate Grows(before: map<int, Connection>, new after: map<int, Connection>) {
      && (forall id | id in before :: id in after && after[id] == before[id])
      && (forall id | id in after && id !in before :: fresh(after[id]) && fresh(after[id].capabilities))
    }

    method UpdateCapabilities(id: int, caps: Json)
      requires Valid() && id in connections
      modifies this`reader, connections[id].capabilities
      ensures Valid() && View() == UpdateCaps(old(View()), id, caps)
    {
      hide Connection.Valid, Connection.View, C.Update;
      var ok := DeserializeInto(id, caps);
      if !ok {
        StopReader();
      }
    }

    method DeserializeInto(id: int, caps: Json) returns (ok: bool)
      requires Valid() && id in connections
      modifies connections[id].capabilities
      ensures Valid()
      ensures var o := C.Update(old(Conns())[id].caps, caps);
              Conns() == old(Conns())[id := old(Conns())[id].(caps := o.caps)] && ok == o.ok
    {
      hide Connection.Valid, C.Update;
      ok := connections[id].capabilities.Deserialize(caps);
      OthersKeepView(id);
    }

    /** Connections other than the one changed look as before. */
    twostate lemma OthersKeepView(id: int)
      requires old(Valid()) && connections == old(connections) && id in connections
      requires forall i | i in connections && i != id ::
               unchanged(connections[i]) && unchanged(connections[i].capabilities)
      ensures forall i | i in connections && i != id :: connections[i].View() == old(connections[i].View())
    {
    }

    /** The loop over a client list; a throw leaves it and ends the reader. */
    method CreateClients(j: Json)
      requires Valid() && reader.Listening?
      modifies this`connections, this`pendingConnections, this`created, this`reader, Capabilities()
      ensures Valid() && View() == CreateAll(old(View()), Elements(j))
    {
      hide Connection.Valid, CreateUpdate, CreateAll, Items, Conns;
      var items := Iterate(j);
      ghost var es := Elements(j);
      ghost var start := View();
      var i := 0;
      CreateNone(start, es);
      while i < |items| && !reader.Stopped?
        invariant i <= |items| == |es|
        invariant Valid() && Grows(old(connections), connections)
        invariant View() == CreateAll(start, es[..i])
        invariant reader.Stopped? ==> CreateAll(start, es[..i]) == CreateAll(start, es)
      {
        CreateOneMore(start, es, i);
        CreateUpdateClient(items[i].value);
        i := i + 1;
        if reader.Stopped? {
          StoppedSkipsRest(start, es, i);
        }
      }
      assert i == |es| ==> es[..i] == es;
    }

    /** One round of runReader after a frame has arrived. */
    method HandleIncoming(j: Json)
      requires Valid() && reader.Listening?
      modifies this, connections.Values, Capabilities()
      ensures Valid() && View() == ReadFrame(old(View()), j)
      ensures F.FrameEffect(old(View()), j, View())
    {
      F.FrameTakesEffect(View(), j);
      Route(j);
    }

    /** The branches on its kind. */
    method Route(j: Json)
      requires Valid() && reader.Listening?
      modifies this, connections.Values, Capabilities()
      ensures Valid() && View() == ReadFrame(old(View()), j)
    {
      hide Connection.Valid, Connection.View, C.Update, C.New, CreateAll, CreateUpdate, SendIn, UpdateCaps;
      if !Field(j, "kind").Str? {
        StopReader();
        return;
      }
      var kind := Field(j, "kind").s;
      if kind == "client_list" {
        CreateClients(Field(j, "data"));
      } else if kind == "client_ready" {
        CreateUpdateClient(Field(j, "protocol"));
      } else if !Field(j, "id").Int? {
        StopReader();
      } else {
        var id := Signed(Field(j, "id").n, TWO64);
        if id in connections {
          if kind == "client_capabilities" {
            UpdateCapabilities(id, Field(j, "capabilities"));
          } else if kind == "client_data" {
            SendToConnection(id, j);
          } else if kind == "client_disconnected" {
            MarkClosed(id);
          }
        }
      }
    }

    /** async_send on a connection's channel. */
    method SendToConnection(id: int, j: Json)
      requires Valid() && id in connections
      modifies this`reader, connections[id]
      ensures Valid() && View() == SendIn(old(View()), id, j)
    {
      hide Connection.Valid, Connection.View, Arrived;
      var full := ArriveAt(id, j);
      if full {
        reader := Blocked(connections[id].inc);
      }
    }

    method ArriveAt(id: int, j: Json) returns (full: bool)
      requires Valid() && id in connections
      modifies {connections[id]}`fromLink, {connections[id]}`waiting, {connections[id]}`routed
      ensures Valid() && id in old(Conns())
      ensures Conns() == old(Conns())[id := Arrived(old(Conns())[id], j)]
      ensures full == (|old(Conns())[id].buffer| >= CHANNEL) && connections[id].inc == old(Conns())[id].inc
    {
      hide Connection.Valid, Arrived;
      full := connections[id].Arrive(j);
      OthersKeepView(id);
    }

    // ---------- The tick ----------

    /** The sessions of the dead among `done` have ended. */
    ghost predicate SessionsSwept(sessions: map<int, Session>, dead: map<int, Reason>, done: set<int>)
      reads this`connections, connections.Values`account, connections.Values`playview
    {
      && connections.Keys == sessions.Keys
      && forall id | id in connections ::
           connections[id].Contact() ==
           if id in done && id in dead then Parted(sessions[id], dead[id]) else sessions[id]
    }

    /** The play views have been told of the departures along `order`. */
    ghost predicate GroupsTold(groups: map<PlayView, Group>, sessions: map<int, Session>, dead: map<int, Reason>,
                               order: seq<int>)
      reads groups.Keys
    {
      forall p | p in groups :: p.View() == LeaveAll(groups[p], Departures(sessions, dead, order, p))
    }

    ghost predicate Covers(groups: map<PlayView, Group>, sessions: map<int, Session>) {
      forall id | id in sessions && sessions[id].playview != null :: sessions[id].playview in groups
    }

    lemma SweepStarts(dead: map<int, Reason>, order: seq<int>)
      ensures Covers(GroupViews(), Sessions()) && GroupViews().Keys == Groups()
      ensures SessionsSwept(Sessions(), dead, {}) && GroupsTold(GroupViews(), Sessions(), dead, order[..0])
    {
    }

    /** The loop that cleans up the dead connections. */
    method CleanupDead(order: seq<int>)
      requires Valid() && Ids.Enumerates(order, deadConnections.Keys)
      modifies this`history, linkChannel, connections.Values`account, connections.Values`playview, Groups()
      ensures Valid() && Conns() == old(Conns())
      ensures history == old(history) + CleanFacts(old(Conns()), deadConnections, order)
      ensures linkChannel.View() == TrySendAll(old(linkChannel.View()), Notices(old(Conns()), deadConnections, order))
      ensures SessionsSwept(old(Sessions()), deadConnections, deadConnections.Keys)
      ensures GroupsTold(old(GroupViews()), old(Sessions()), deadConnections, order)
    {
      hide Connection.Valid, CleanFacts, Notices, TrySendAll, SessionsSwept;
      hide GroupsTold, Covers, Sessions, GroupViews, Groups, Ids.Enumerates, Ids.Passed, Connection.View, Conns;
      ghost var conns, dead, out := Conns(), deadConnections, linkChannel.View();
      ghost var sessions, groups := Sessions(), GroupViews();
      CleanupStarts(conns, dead, order);
      SweepStarts(dead, order);
      Ids.PassedNone(order, dead.Keys);
      var i := 0;
      while i < |order|
        invariant i <= |order| && Valid() && Conns() == conns
        invariant history == old(history) + CleanFacts(conns, dead, order[..i])
        invariant linkChannel.View() == TrySendAll(out, Notices(conns, dead, order[..i]))
        invariant SessionsSwept(sessions, dead, Ids.Passed(order, i, dead.Keys))
        invariant GroupsTold(groups, sessions, dead, order[..i])
      {
        Ids.PassedOneMore(order, dead.Keys, i, dead.Keys);
        CleanupStep(conns, dead, out, order, i);
        CleanupOne(order, i, Ids.Passed(order, i, dead.Keys), sessions, groups);
        i := i + 1;
      }
      Ids.PassedAll(order, dead.Keys, dead.Keys);
      assert order[..i] == order && dead.Keys * dead.Keys == dead.Keys;
    }

    /** One round of it. */
    method CleanupOne(order: seq<int>, i: nat, ghost done: set<int>, ghost sessions: map<int, Session>,
                      ghost groups: map<PlayView, Group>)
      requires Valid() && i < |order| && order[i] in deadConnections && order[i] !in done
      requires SessionsSwept(sessions, deadConnections, done) && Covers(groups, sessions)
      requires GroupsTold(groups, sessions, deadConnections, order[..i])
      modifies this`history, linkChannel, connections.Values`account, connections.Values`playview, groups.Keys
      ensures Valid() && Conns() == old(Conns())
      ensures var id := order[i]; var conns := old(Conns());
              history == old(history) + if id in conns then [Cleaned(id, conns[id], deadConnections[id])] else []
      ensures linkChannel.View() == if order[i] in old(Conns()) && deadConnections[order[i]].GameLogoff?
                then TrySend(old(linkChannel.View()), Notice(order[i])) else old(linkChannel.View())
      ensures SessionsSwept(sessions, deadConnections, done + {order[i]})
      ensures GroupsTold(groups, sessions, deadConnections, order[..i + 1])
    {
      hide TrySend, LeaveAll, Departures, Parting, Parted, Connection.Valid, Connection.View;
      var id := order[i];
      DepartureStep(groups, sessions, deadConnections, order, i);
      if id !in connections {
        return;
      }
      assert connections[id].Contact() == sessions[id];
      connections[id].Cleanup(this, deadConnections[id]);
      forall p | p in groups
        ensures p.View() == LeaveAll(groups[p], Departures(sessions, deadConnections, order[..i + 1], p))
      {
        if p != sessions[id].playview {
          assert p.View() == old(p.View());
        }
      }
    }

    /** The loop that erases them. */
    method EraseDead(order: seq<int>)
      requires Valid() && Ids.Enumerates(order, deadConnections.Keys)
      modifies this`connections, this`deadConnections
      ensures Valid() && deadConnections == map[]
      ensures connections == old(connections) - old(deadConnections).Keys
      ensures Conns() == Survivors(old(Conns()), old(deadConnections))
    {
      hide Connection.Valid, Survivors, Connection.View, Ids.Enumerates, Ids.Passed;
      ghost var dead := deadConnections.Keys;
      Ids.PassedNone(order, dead);
      var i := 0;
      while i < |order|
        invariant i <= |order|
        invariant connections == old(connections) - Ids.Passed(order, i, dead)
      {
        Ids.PassedOneMore(order, dead, i, dead);
        connections := connections - {order[i]};
        i := i + 1;
      }
      Ids.PassedAll(order, dead, dead);
      assert dead * dead == dead;
      SurvivingConns(old(Conns()), old(deadConnections));
      deadConnections := map[];
    }

    /** The connections among `ids` have been welcomed, which ends any session. */
    ghost predicate Greeted(sessions: map<int, Session>, ids: set<int>)
      reads this`connections, connections.Values`account, connections.Values`playview
    {
      forall id | id in connections && id in sessions ::
        connections[id].Contact() == if id in ids then Session(None, null) else sessions[id]
    }

    /** The loop over a copy of the pending ids, which erases from the set itself. */
    method Welcome(pending: seq<int>, ghost sessions: map<int, Session>)
      requires Valid() && Ids.Enumerates(pending, pendingConnections) && Greeted(sessions, {})
      modifies this`pendingConnections, this`history, connections.Values`account, connections.Values`playview
      ensures Valid() && Conns() == old(Conns())
      ensures Greeted(sessions, old(pendingConnections))
      ensures pendingConnections == old(pendingConnections) - connections.Keys
      ensures history == old(history) + WelcomeFacts(old(Conns()), pending)
    {
      hide Connection.Valid, Connection.View, Greeted, WelcomeFacts, Ids.Enumerates, Ids.Passed;
      ghost var conns, ids, keys := Conns(), pendingConnections, connections.Keys;
      WelcomeNone(conns, pending);
      Ids.PassedNone(pending, keys);
      var i := 0;
      while i < |pending|
        invariant i <= |pending| && Valid() && Conns() == conns
        invariant pendingConnections == ids - Ids.Passed(pending, i, keys)
        invariant history == old(history) + WelcomeFacts(conns, pending[..i])
        invariant Greeted(sessions, Ids.Passed(pending, i, keys))
      {
        Ids.PassedOneMore(pending, ids, i, keys);
        WelcomeStep(conns, pending, i);
        if pending[i] in connections {
          WelcomeOne(pending[i], conns, sessions, Ids.Passed(pending, i, keys));
        }
        i := i + 1;
      }
      assert pending[..i] == pending;
      Ids.PassedAll(pending, ids, keys);
      AllGreeted(sessions, ids);
    }

    lemma AllGreeted(sessions: map<int, Session>, ids: set<int>)
      requires Greeted(sessions, ids * connections.Keys)
      ensures Greeted(sessions, ids) && ids - ids * connections.Keys == ids - connections.Keys
    {
    }

    method WelcomeOne(id: int, ghost conns: map<int, Conn>, ghost sessions: map<int, Session>, ghost gone: set<int>)
      requires Valid() && Conns() == conns && id in connections && Greeted(sessions, gone)
      modifies this`pendingConnections, this`history, connections.Values`account, connections.Values`playview
      ensures pendingConnections == old(pendingConnections) - {id}
      ensures id in conns && history == old(history) + [Welcomed(conns[id].inc)]
      ensures Greeted(sessions, gone + {id})
    {
      hide Connection.Valid;
      connections[id].OnWelcome();
      history := history + [Welcomed(connections[id].inc)];
      pendingConnections := pendingConnections - {id};
    }

    /** The connections of `done` have been drained since `conns`. */
    ghost predicate Beaten(conns: map<int, Conn>, done: seq<int>)
      reads this`connections, Capabilities()
      reads connections.Values`fromLink, connections.Values`waiting
      reads connections.Values`routed, connections.Values`handled
    {
      && connections.Keys == conns.Keys
      && forall id | id in conns :: connections[id].View() == if id in done then Drained(conns[id]) else conns[id]
    }

    method BeatOne(id: int, react: Behaviour, ghost conns: map<int, Conn>, ghost done: seq<int>) returns (exits: bool)
      requires Valid() && id in connections && id !in done && Beaten(conns, done)
      modifies this`deadConnections, this`reader, this`history, linkChannel
      modifies {connections[id]}`fromLink, {connections[id]}`waiting
      modifies {connections[id]}`calls, {connections[id]}`handled
      ensures exits <==> exists f :: f in Queued(conns[id]) && !M.FrameOk(f)
      ensures !exits ==> Valid() && Beaten(conns, done + [id])
      ensures !exits ==> reader == if conns[id].waiting.Some? then Listening else old(reader)
      ensures !exits ==> history == old(history) + [Beat(conns[id].inc)]
      ensures !exits ==> Did(old(deadConnections), old(linkChannel.View()), Replies(conns[id], react),
                             deadConnections, linkChannel.View())
    {
      hide Connection.Valid, M.FrameOk, Replies, Did, Drained, Queued;
      exits := connections[id].OnHeartbeat(this, react);
      assert forall i | i in connections && i != id :: connections[i].View() == old(connections[i].View());
      assert forall i | i in connections && i != id :: connections[i].Valid();
      if !exits {
        OneMoreBeaten(conns, done, id);
      }
    }

    lemma OneMoreBeaten(conns: map<int, Conn>, done: seq<int>, id: int)
      requires connections.Keys == conns.Keys && id in conns && connections[id].View() == Drained(conns[id])
      requires forall i | i in conns && i != id ::
                 connections[i].View() == if i in done then Drained(conns[i]) else conns[i]
      ensures Beaten(conns, done + [id])
    {
      hide Connection.View, Drained;
    }

    lemma AllBeaten(conns: map<int, Conn>, ids: seq<int>)
      requires Beaten(conns, ids) && Ids.Enumerates(ids, conns.Keys)
      ensures Conns() == map id | id in conns :: Drained(conns[id])
    {
      var a, b := Conns(), map id | id in conns :: Drained(conns[id]);
      assert a.Keys == connections.Keys && b.Keys == conns.Keys;
      assert forall id | id in a :: id in ids && a[id] == b[id];
      assert a == b;
    }

    method HeartbeatRound(ids: seq<int>, i: nat, react: Behaviour, ghost conns: map<int, Conn>,
                          ghost d0: map<int, Reason>, ghost o0: Outbound, ghost h0: seq<Fact>, ghost r0: Reader)
      returns (exits: bool)
      requires Valid() && Ids.Enumerates(ids, conns.Keys) && i < |ids| && Beaten(conns, ids[..i])
      requires Progress(conns, ids, i, react, d0, o0, h0, r0, deadConnections, linkChannel.View(), history, reader)
      modifies this`deadConnections, this`reader, this`history, linkChannel
      modifies connections.Values`fromLink, connections.Values`waiting
      modifies connections.Values`calls, connections.Values`handled
      ensures exits ==> exists id, f :: id in conns && f in Queued(conns[id]) && !M.FrameOk(f)
      ensures !exits ==> Valid() && Beaten(conns, ids[..i + 1])
      ensures !exits ==> Progress(conns, ids, i + 1, react, d0, o0, h0, r0,
                                  deadConnections, linkChannel.View(), history, reader)
    {
      hide Connection.Valid, Connection.View, M.FrameOk, Replies, Did, Drained, Progress, Ids.Enumerates, Queued;
      var id := ids[i];
      Ids.NextIsNew(ids, conns.Keys, i);
      ghost var d, o, h, r := deadConnections, linkChannel.View(), history, reader;
      exits := BeatOne(id, react, conns, ids[..i]);
      if !exits {
        BeatStep(conns, ids, i, react, d0, o0, h0, r0, d, o, h, r, deadConnections, linkChannel.View());
        assert ids[..i + 1] == ids[..i] + [id];
      }
    }

    /** Since `conns` all connections have been drained, with the effects of their parsers. */
    ghost predicate AllDrained(conns: map<int, Conn>, ids: seq<int>, react: Behaviour,
                               d0: map<int, Reason>, o0: Outbound, h0: seq<Fact>, r0: Reader)
      reads this, Capabilities(), linkChannel
      reads connections.Values`fromLink, connections.Values`waiting
      reads connections.Values`routed, connections.Values`handled
    {
      && Conns() == (map id | id in conns :: Drained(conns[id]))
      && Progress(conns, ids, |ids|, react, d0, o0, h0, r0, deadConnections, linkChannel.View(), history, reader)
    }

    /** One loop over the connections, each draining its channel. */
    method Heartbeats(ids: seq<int>, react: Behaviour) returns (exits: bool)
      requires Valid() && Ids.Enumerates(ids, Conns().Keys)
      modifies this`deadConnections, this`reader, this`history, linkChannel
      modifies connections.Values`fromLink, connections.Values`waiting
      modifies connections.Values`calls, connections.Values`handled
      ensures exits <==> exists id, f :: id in old(Conns()) && f in Queued(old(Conns())[id]) && !M.FrameOk(f)
      ensures !exits ==> Valid() && AllDrained(old(Conns()), ids, react,
                                               old(deadConnections), old(linkChannel.View()), old(history), old(reader))
    {
      ghost var conns := Conns();
      ghost var d0, o0, h0, r0 := deadConnections, linkChannel.View(), history, reader;
      hide Connection.Valid, M.FrameOk, Replies, Did, Drained, Progress, Ids.Enumerates;
      assert Beaten(conns, ids[..0]);
      ProgressStarts(conns, ids, react, d0, o0, h0, r0);
      hide Beaten;
      var i := 0;
      while i < |ids|
        invariant i <= |ids| && Valid() && Beaten(conns, ids[..i])
        invariant Progress(conns, ids, i, react, d0, o0, h0, r0, deadConnections, linkChannel.View(), history, reader)
      {
        exits := HeartbeatRound(ids, i, react, conns, d0, o0, h0, r0);
        if exits {
          return;
        }
        i := i + 1;
      }
      assert ids[..i] == ids;
      AllBeaten(conns, ids);
      ProgressEnds(conns, ids, react, d0, o0, h0, r0, deadConnections, linkChannel.View(), history, reader);
      exits := false;
    }

    /** processConnections. `order` is the order in which the unordered map of dead marks is walked; the
        ordered containers are walked in theirs. Returns true where a frame makes the process exit. */
    method ProcessConnections(order: seq<int>, react: Behaviour) returns (exits: bool)
      requires Valid() && Ids.Enumerates(order, deadConnections.Keys)
      modifies this, connections.Values, linkChannel, Groups()
      ensures exits <==> Exits(old(View()))
      ensures exits <==> exists id, f :: id in old(connections) && id !in old(deadConnections)
                                         && M.BadFrame(f)
                                         && (f in old(connections[id].fromLink)
                                             || old(connections[id].waiting) == Some(f))
      ensures !exits ==> Valid() && View() == Tick(old(View()), order, react)
      ensures GroupsTold(old(GroupViews()), old(Sessions()), old(deadConnections), order)
      ensures Greeted(old(Sessions()), old(pendingConnections))
    {
      hide Connection.Valid, Connection.View, Connection.Contact, M.BadFrame, Exits, Tick, GroupsTold, Greeted;
      hide Sessions, GroupViews, Groups, Conns, Capabilities, Ids.Enumerates;
      BadIffObjects();
      exits := SweepWelcomeAndBeat(order, react);
    }

    /** The four loops. */
    method SweepWelcomeAndBeat(order: seq<int>, react: Behaviour) returns (exits: bool)
      requires Valid() && Ids.Enumerates(order, deadConnections.Keys)
      modifies this, connections.Values, linkChannel, Groups()
      ensures exits <==> Exits(old(View()))
      ensures !exits ==> Valid() && View() == Tick(old(View()), order, react)
      ensures GroupsTold(old(GroupViews()), old(Sessions()), old(deadConnections), order)
      ensures Greeted(old(Sessions()), old(pendingConnections))
    {
      hide Connection.Valid, CleanFacts, Notices, WelcomeFacts, BeatFacts;
      hide AllReplies, M.FrameOk, Drained, Did, TrySendAll;
      hide Ids.Enumerates, Survivors, Tick, Greeted, Sessions, GroupViews, Groups, GroupsTold, Connection.View;
      hide Progress, Queued, Connection.Contact, Capabilities;
      ghost var s := View();
      GroupsAreAllocated();
      SweepAndWelcome(order);
      assert Conns() == Live(s);
      exits := BeatAll(react);
      if !exits {
        assert View() == Tick(s, order, react) by {
          TickAssembles(s, order, react, View());
        }
      }
    }

    lemma BadIffObjects()
      ensures Exits(View()) <==>
              exists id, f :: id in connections && id !in deadConnections
                              && (f in connections[id].fromLink || connections[id].waiting == Some(f)) && M.BadFrame(f)
    {
      F.ExitsIff(View());
      hide Exits, M.BadFrame;
    }

    /** All but the heartbeats. */
    method SweepAndWelcome(order: seq<int>)
      requires Valid() && Ids.Enumerates(order, deadConnections.Keys)
      modifies this`connections, this`pendingConnections, this`deadConnections, this`history, linkChannel
      modifies connections.Values`account, connections.Values`playview, Groups()
      ensures Valid() && deadConnections == map[]
      ensures connections == old(connections) - old(deadConnections).Keys
      ensures Conns() == Survivors(old(Conns()), old(deadConnections))
      ensures pendingConnections == old(pendingConnections) - Conns().Keys
      ensures history == old(history) + CleanFacts(old(Conns()), old(deadConnections), order)
                                      + WelcomeFacts(Conns(), Ids.Ascending(old(pendingConnections)))
      ensures linkChannel.View() ==
              TrySendAll(old(linkChannel.View()), Notices(old(Conns()), old(deadConnections), order))
      ensures Greeted(old(Sessions()), old(pendingConnections))
      ensures GroupsTold(old(GroupViews()), old(Sessions()), old(deadConnections), order)
    {
      hide Connection.Valid, CleanFacts, Notices, WelcomeFacts, TrySendAll, Connection.View;
      hide Ids.Enumerates, Survivors, Greeted, Sessions, GroupViews, Groups, GroupsTold;
      ghost var sessions := Sessions();
      GroupsAreAllocated();
      Sweep(order);
      WelcomePending(sessions);
    }

    /** The loops over the dead. */
    method Sweep(order: seq<int>)
      requires Valid() && Ids.Enumerates(order, deadConnections.Keys)
      modifies this`connections, this`deadConnections, this`history, linkChannel
      modifies connections.Values`account, connections.Values`playview, Groups()
      ensures Valid() && deadConnections == map[]
      ensures connections == old(connections) - old(deadConnections).Keys
      ensures Conns() == Survivors(old(Conns()), old(deadConnections))
      ensures history == old(history) + CleanFacts(old(Conns()), old(deadConnections), order)
      ensures linkChannel.View() ==
              TrySendAll(old(linkChannel.View()), Notices(old(Conns()), old(deadConnections), order))
      ensures Greeted(old(Sessions()), {})
      ensures GroupsTold(old(GroupViews()), old(Sessions()), old(deadConnections), order)
    {
      hide Connection.Valid, CleanFacts, Notices, TrySendAll, Ids.Enumerates;
      hide Survivors, Greeted, GroupViews, Groups, GroupsTold;
      ghost var sessions, dead := Sessions(), deadConnections;
      GroupsAreAllocated();
      CleanupDead(order);
      EraseDead(order);
      SurvivorsKeepSessions(sessions, dead);
    }

    lemma GroupsAreAllocated()
      ensures forall p | p in GroupViews() :: allocated(p)
    {
    }

    lemma SurvivorsKeepSessions(sessions: map<int, Session>, dead: map<int, Reason>)
      requires forall id | id in connections ::
               id in sessions && id !in dead && connections[id].Contact() == sessions[id]
      ensures Greeted(sessions, {})
    {
    }

    method WelcomePending(ghost sessions: map<int, Session>)
      requires Valid() && Greeted(sessions, {})
      modifies this`pendingConnections, this`history, connections.Values`account, connections.Values`playview
      ensures Valid() && Conns() == old(Conns())
      ensures Greeted(sessions, old(pendingConnections))
      ensures pendingConnections == old(pendingConnections) - old(Conns()).Keys
      ensures history == old(history) + WelcomeFacts(old(Conns()), Ids.Ascending(old(pendingConnections)))
    {
      hide Connection.Valid, Connection.View, WelcomeFacts, Ids.Enumerates, Ids.Ascending, Greeted;
      Ids.AscendingEnumerates(pendingConnections);
      var pending := Ids.Ascending(pendingConnections);
      Welcome(pending, sessions);
      assert old(Conns()).Keys == connections.Keys;
    }

    method BeatAll(react: Behaviour) returns (exits: bool)
      requires Valid()
      modifies this`deadConnections, this`reader, this`history, linkChannel
      modifies connections.Values`fromLink, connections.Values`waiting
      modifies connections.Values`calls, connections.Values`handled
      ensures exits <==> exists id, f :: id in old(Conns()) && f in Queued(old(Conns())[id]) && !M.FrameOk(f)
      ensures !exits ==> Valid() && AllDrained(old(Conns()), Ids.Ascending(old(Conns()).Keys), react,
                                               old(deadConnections), old(linkChannel.View()), old(history), old(reader))
    {
      hide Connection.Valid, M.FrameOk, AllDrained, Ids.Enumerates, Ids.Ascending, Queued;
      ghost var conns := Conns();
      assert connections.Keys == conns.Keys;
      Ids.AscendingEnumerates(connections.Keys);
      var ids := Ids.Ascending(connections.Keys);
      assert Conns() == conns;
      exits := Heartbeats(ids, react);
    }

    lemma SurvivingConns(conns: map<int, Conn>, dead: map<int, Reason>)
      requires forall id | id in connections :: id in conns && connections[id].View() == conns[id]
      requires connections.Keys == conns.Keys - dead.Keys
      ensures Conns() == Survivors(conns, dead)
    {
      var a, b := Conns(), Survivors(conns, dead);
      assert a.Keys == connections.Keys && b.Keys == conns.Keys - dead.Keys;
      assert forall id | id in a :: a[id] == b[id];
      assert a == b;
    }
  }

  /** The parts of the state after the four loops make up the tick. */
  lemma TickAssembles(s: State, order: seq<int>, react: Behaviour, t: State)
    requires var live := Live(s); var ids := Ids.Ascending(live.Keys);
             && t.next == s.next && t.exited == s.exited
             && t.conns == (map id | id in live :: Drained(live[id]))
             && t.pending == s.pending - live.Keys
             && Progress(live, ids, |ids|, react, map[], TrySendAll(s.out, Notices(s.conns, s.dead, order)),
                         s.history + CleanFacts(s.conns, s.dead, order) + WelcomeFacts(live, Ids.Ascending(s.pending)),
                         s.reader, t.dead, t.out, t.history, t.reader)
    ensures t == Tick(s, order, react)
  {
    hide M.FrameOk, AllReplies, CleanFacts, WelcomeFacts, BeatFacts, Notices, Marks, TrySendAll, Survivors;
    var live := Live(s);
    var ids := Ids.Ascending(live.Keys);
    assert ids[..|ids|] == ids;
    Ids.AscendingEnumerates(live.Keys);
    AnyWaiting(live, ids);
  }

  lemma AnyWaiting(conns: map<int, Conn>, ids: seq<int>)
    requires Ids.Enumerates(ids, conns.Keys)
    requires forall k | 0 <= k < |ids| :: ids[k] in conns
    ensures (exists k :: 0 <= k < |ids| && conns[ids[k]].waiting.Some?) <==>
            (exists id :: id in conns && conns[id].waiting.Some?)
  {
    if id :| id in conns && conns[id].waiting.Some? {
      assert id in ids;
      var k :| 0 <= k < |ids| && ids[k] == id;
    }
    if k :| 0 <= k < |ids| && conns[ids[k]].waiting.Some? {
      var id := ids[k];
      assert id in conns && conns[id].waiting.Some?;
    }
  }

  /** The first i heartbeats of a tick have been run, none of them meeting a frame that throws. */
  ghost predicate Progress(conns: map<int, Conn>, ids: seq<int>, i: nat, react: Behaviour,
                           d0: map<int, Reason>, o0: Outbound, h0: seq<Fact>, r0: Reader,
                           d: map<int, Reason>, o: Outbound, h: seq<Fact>, r: Reader)
  {
    && i <= |ids|
    && (forall k | 0 <= k < i :: ids[k] in conns && forall f | f in Queued(conns[ids[k]]) :: M.FrameOk(f))
    && r == (if exists k :: 0 <= k < i && conns[ids[k]].waiting.Some? then Listening else r0)
    && h == h0 + BeatFacts(conns, ids[..i])
    && Did(d0, o0, AllReplies(conns, ids[..i], react), d, o)
  }

  lemma ProgressStarts(conns: map<int, Conn>, ids: seq<int>, react: Behaviour,
                       d: map<int, Reason>, o: Outbound, h: seq<Fact>, r: Reader)
    ensures Progress(conns, ids, 0, react, d, o, h, r, d, o, h, r)
  {
  }

  lemma ProgressEnds(conns: map<int, Conn>, ids: seq<int>, react: Behaviour,
                     d0: map<int, Reason>, o0: Outbound, h0: seq<Fact>, r0: Reader,
                     d: map<int, Reason>, o: Outbound, h: seq<Fact>, r: Reader)
    requires Progress(conns, ids, |ids|, react, d0, o0, h0, r0, d, o, h, r) && Ids.Enumerates(ids, conns.Keys)
    ensures forall id, f | id in conns && f in Queued(conns[id]) :: M.FrameOk(f)
  {
    hide M.FrameOk;
    forall id, f | id in conns && f in Queued(conns[id]) ensures M.FrameOk(f) {
      assert id in ids;
    }
  }

  lemma BeatStep(conns: map<int, Conn>, ids: seq<int>, i: nat, react: Behaviour,
                 d0: map<int, Reason>, o0: Outbound, h0: seq<Fact>, r0: Reader,
                 d1: map<int, Reason>, o1: Outbound, h1: seq<Fact>, r1: Reader, d2: map<int, Reason>, o2: Outbound)
    requires i < |ids| && ids[i] in conns
    requires Progress(conns, ids, i, react, d0, o0, h0, r0, d1, o1, h1, r1)
    requires Did(d1, o1, Replies(conns[ids[i]], react), d2, o2)
    requires forall f | f in Queued(conns[ids[i]]) :: M.FrameOk(f)
    ensures Progress(conns, ids, i + 1, react, d0, o0, h0, r0, d2, o2, h1 + [Beat(conns[ids[i]].inc)],
                     if conns[ids[i]].waiting.Some? then Listening else r1)
  {
    hide Replies, M.FrameOk, Did, Queued;
    assert ids[..i + 1][..i] == ids[..i] && ids[..i + 1][i] == ids[i];
    DidAppend(d0, o0, AllReplies(conns, ids[..i], react), d1, o1, Replies(conns[ids[i]], react), d2, o2);
  }

  lemma CreateNone(s: State, es: seq<Json>)
    ensures CreateAll(s, es[..0]) == s
  {
  }

  lemma CreateOneMore(s: State, es: seq<Json>, i: nat)
    requires i < |es| && !CreateAll(s, es[..i]).reader.Stopped?
    ensures CreateAll(s, es[..i + 1]) == CreateUpdate(CreateAll(s, es[..i]), es[i])
  {
    hide CreateUpdate;
    assert es[..i + 1][..i] == es[..i];
  }

  lemma {:induction false} StoppedSkipsRest(s: State, es: seq<Json>, n: nat)
    requires n <= |es| && CreateAll(s, es[..n]).reader.Stopped?
    ensures CreateAll(s, es) == CreateAll(s, es[..n])
  {
    if n < |es| {
      assert es[..|es| - 1][..n] == es[..n];
      StoppedSkipsRest(s, es[..|es| - 1], n);
    } else {
      assert es[..n] == es;
    }
  }

  lemma CleanupStarts(conns: map<int, Conn>, dead: map<int, Reason>, order: seq<int>)
    ensures CleanFacts(conns, dead, order[..0]) == [] && Notices(conns, dead, order[..0]) == []
    ensures forall o :: TrySendAll(o, []) == o
  {
  }

  lemma CleanupStep(conns: map<int, Conn>, dead: map<int, Reason>, out: Outbound, order: seq<int>, i: nat)
    requires i < |order| && order[i] in dead
    ensures var id := order[i];
            && CleanFacts(conns, dead, order[..i + 1]) ==
               CleanFacts(conns, dead, order[..i]) + (if id in conns then [Cleaned(id, conns[id], dead[id])] else [])
            && TrySendAll(out, Notices(conns, dead, order[..i + 1])) ==
               if id in conns && dead[id].GameLogoff?
               then TrySend(TrySendAll(out, Notices(conns, dead, order[..i])), Notice(id))
               else TrySendAll(out, Notices(conns, dead, order[..i]))
  {
    var id := order[i];
    assert order[..i + 1][..i] == order[..i];
    var ns := Notices(conns, dead, order[..i]);
    if id in conns && dead[id].GameLogoff? {
      assert (ns + [Notice(id)])[..|ns|] == ns;
    } else {
      assert Notices(conns, dead, order[..i + 1]) == ns + [] == ns;
    }
  }

  lemma WelcomeNone(conns: map<int, Conn>, ids: seq<int>)
    ensures WelcomeFacts(conns, ids[..0]) == []
  {
  }

  lemma WelcomeStep(conns: map<int, Conn>, ids: seq<int>, i: nat)
    requires i < |ids|
    ensures WelcomeFacts(conns, ids[..i + 1]) ==
            WelcomeFacts(conns, ids[..i]) + if ids[i] in conns then [Welcomed(conns[ids[i]].inc)] else []
  {
    assert ids[..i + 1][..i] == ids[..i];
  }
}
