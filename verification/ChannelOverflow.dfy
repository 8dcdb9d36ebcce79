/** A run that loses an inbound frame: more frames than a channel holds arrive for one client between two ticks, and
    the link ends. */
module ChannelOverflow {
  import opened Options
  import opened JsonValues
  import opened OutboundLink
  import opened Lifecycle
  import opened LifecycleTraces
  import C = Capabilities
  import M = Messages

  const CLIENT := Obj(map["id" := Int(7), "capabilities" := Obj(map[])])
  const READY := Obj(map["kind" := Str("client_ready"), "protocol" := CLIENT])
  const DATA := M.DataFrame(7, M.BLANK)

  /** A link starts, a client connects, and k frames arrive for it. */
  function Burst(k: nat): seq<Event> {
    if k == 0 then [LinkUp, FrameArrives(READY)] else Burst(k - 1) + [FrameArrives(DATA)]
  }

  lemma FramesRead()
    ensures Decode(READY) == ClientReady(CLIENT) && ReadEntry(CLIENT) == Some(Entry(7, Obj(map[])))
    ensures Decode(DATA) == Addressed("client_data", 7)
  {
    assert "kind" in READY.members && "protocol" in READY.members;
    assert "id" in CLIENT.members && "capabilities" in CLIENT.members;
    assert "kind" in DATA.members && "id" in DATA.members;
    assert Signed(7, TWO64) == 7;
  }

  /** Listening, with k frames in the channel of the client and none lost. */
  ghost predicate Filled(s: State, k: nat) {
    && !s.exited && s.reader.Listening? && 7 in s.conns
    && s.conns[7].inc == 0 && |s.conns[7].buffer| == k && s.conns[7].waiting.None?
  }

  lemma ClientConnects()
    ensures Filled(Run(INIT, Burst(0)), 0) && ArrivedFor(Burst(0), 0) == [] && CancelledFor(Burst(0), 0) == 0
  {
    hide C.Update, C.New, Run, ArrivedFor, CancelledFor, Decode;
    FramesRead();
    EmptyUpdateIsOk();
    NothingYet();
    var up := [LinkUp];
    assert [] + up == up && Burst(0) == up + [FrameArrives(READY)];
    OneMoreEvent([], LinkUp, 0);
    OneMoreEvent(up, FrameArrives(READY), 0);
  }

  lemma NothingYet()
    ensures Run(INIT, []) == INIT && ArrivedFor([], 0) == [] && CancelledFor([], 0) == 0
  {
  }

  lemma EmptyUpdateIsOk()
    ensures C.Update(C.New(), Obj(map[])).ok
  {
    hide C.Run, C.ROWS, C.Fresh;
    C.RunThrowsIff(C.New(), C.ROWS, Obj(map[]));
    C.EmptyIsOk(C.ROWS);
  }

  lemma OneMoreEvent(es: seq<Event>, e: Event, inc: nat)
    ensures Run(INIT, es + [e]) == Step(Run(INIT, es), e)
    ensures ArrivedFor(es + [e], inc) ==
            ArrivedFor(es, inc) + if Delivers(Run(INIT, es), e, inc) then [e.j] else []
    ensures CancelledFor(es + [e], inc) == CancelledFor(es, inc) + if Cancels(Run(INIT, es), e, inc) then 1 else 0
  {
    hide Step, Delivers, Cancels;
    assert (es + [e])[..|es|] == es;
  }

  lemma FrameArrivesAt(s: State, k: nat)
    requires Filled(s, k) && k <= CHANNEL
    ensures var t := Step(s, FrameArrives(DATA));
            && Delivers(s, FrameArrives(DATA), 0) && !Cancels(s, FrameArrives(DATA), 0)
            && (if k < CHANNEL then Filled(t, k + 1)
                else !t.exited && 7 in t.conns && t.conns[7].inc == 0 && t.conns[7].waiting == Some(DATA))
  {
    hide Decode, CreateAll, CreateUpdate, UpdateCaps, Tick, Exits, Marks, TrySendAll;
    FramesRead();
    assert "kind" in DATA.members;
  }

  lemma {:induction false} ChannelFills(k: nat)
    requires k <= CHANNEL
    ensures Filled(Run(INIT, Burst(k)), k) && |ArrivedFor(Burst(k), 0)| == k && CancelledFor(Burst(k), 0) == 0
  {
    hide Run, ArrivedFor, CancelledFor, Step, Delivers, Cancels, Filled;
    if k == 0 {
      ClientConnects();
    } else {
      ChannelFills(k - 1);
      var es := Burst(k - 1);
      FrameArrivesAt(Run(INIT, es), k - 1);
      OneMoreEvent(es, FrameArrives(DATA), 0);
    }
  }

  /** 201 frames arrive, and the 201st is lost with the link. */
  lemma BurstLosesFrame()
    ensures var es := Burst(CHANNEL + 1) + [LinkDown];
            |ArrivedFor(es, 0)| == CHANNEL + 1 && CancelledFor(es, 0) == 1 && |DataFor(es, 0)| == CHANNEL
  {
    hide Run, ArrivedFor, CancelledFor, DataFor, Step, Delivers, Cancels, Filled;
    ChannelFills(CHANNEL);
    FrameArrivesAt(Run(INIT, Burst(CHANNEL)), CHANNEL);
    OneMoreEvent(Burst(CHANNEL), FrameArrives(DATA), 0);
    var full := Burst(CHANNEL + 1);
    assert full == Burst(CHANNEL) + [FrameArrives(DATA)];
    LinkDownLosesFrame(full, 7);
    ArrivalsAreCounted(full + [LinkDown], 0);
  }
}
