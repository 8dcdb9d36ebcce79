/** The life of client connections between the link reader and the game tick, as a step system.
    One step is one frame handled by the reader, one call on a connection, one write, one change of the
    link, or one whole tick: with a single thread none of these is interrupted by another. */
module Lifecycle {
  import opened Options
  import opened JsonValues
  import opened Sequences
  import opened OutboundLink
  import Ids
  import C = Capabilities
  import M = Messages

  /** Frames a connection's inbound channel buffers. */
  const CHANNEL: nat := 200

  datatype Reason = ConnectionLost | ConnectionClosed | GameLogoff

  /** A connection object. `inc` tells apart objects created for the same id. `waiting` is the frame of a
      suspended send. `routed` are the frames the reader sent here, less a send cancelled while it waited;
      `handled` are those the heartbeat took out. */
  datatype Conn = Conn(inc: nat, caps: C.Caps, buffer: seq<Json>, waiting: Option<Json>,
                       routed: seq<Json>, handled: seq<Json>)

  /** The reader awaits a frame, is suspended sending to an object, or has ended. */
  datatype Reader = Listening | Blocked(inc: nat) | Stopped

  /** What happened to connection objects. */
  datatype Fact = Welcomed(inc: nat) | Beat(inc: nat) | Cleaned(id: int, conn: Conn, reason: Reason)

  datatype State = State(next: nat, conns: map<int, Conn>, pending: set<int>, dead: map<int, Reason>,
                         reader: Reader, out: Outbound, history: seq<Fact>, exited: bool)

  const INIT := State(0, map[], {}, map[], Stopped, EMPTY, [], false)

  /** What code outside may do to a connection it holds: close it, report it lost, or send a message. */
  datatype Effect = Close(id: int) | NetworkLost(id: int) | Send(id: int, m: M.Message)

  // ---------- The reader ----------

  datatype Frame = Malformed | ClientList(entries: seq<Json>) | ClientReady(entry: Json)
                 | Addressed(kind: string, id: int)

  /** How runReader sorts a frame; Malformed is an exception on the way. */
  ghost function Decode(j: Json): Frame {
    if !Field(j, "kind").Str? then Malformed
    else
      var kind := Field(j, "kind").s;
      if kind == "client_list" then ClientList(Elements(Field(j, "data")))
      else if kind == "client_ready" then ClientReady(Field(j, "protocol"))
      else if Field(j, "id").Int? then Addressed(kind, Signed(Field(j, "id").n, TWO64))
      else Malformed
  }

  datatype Entry = Entry(id: int, caps: Json)

  /** The id and capabilities of an announced client. */
  function ReadEntry(j: Json): Option<Entry> {
    if Field(j, "id").Int? && Has(j, "capabilities")
    then Some(Entry(Signed(Field(j, "id").n, TWO64), Field(j, "capabilities")))
    else None
  }

  /** createUpdateClient. A throw ends the reader. */
  ghost function CreateUpdate(s: State, j: Json): State {
    var e := ReadEntry(j);
    if e.None? then s.(reader := Stopped)
    else if e.value.id in s.conns then UpdateCaps(s, e.value.id, e.value.caps)
    else CreateNew(s, e.value.id, e.value.caps)
  }

  ghost function CreateNew(s: State, id: int, caps: Json): State {
    var o := C.Update(C.New(), caps);
    if o.ok
    then s.(next := s.next + 1, conns := s.conns[id := Conn(s.next, o.caps, [], None, [], [])],
            pending := s.pending + {id})
    else s.(reader := Stopped)
  }

  ghost function UpdateCaps(s: State, id: int, caps: Json): State
    requires id in s.conns
  {
    var o := C.Update(s.conns[id].caps, caps);
    var s1 := s.(conns := s.conns[id := s.conns[id].(caps := o.caps)]);
    if o.ok then s1 else s1.(reader := Stopped)
  }

  ghost function CreateAll(s: State, es: seq<Json>): State {
    if es == [] then s
    else
      var s1 := CreateAll(s, es[..|es| - 1]);
      if s1.reader.Stopped? then s1 else CreateUpdate(s1, es[|es| - 1])
  }

  /** A frame sent to a channel goes into the buffer or waits in front of it. */
  function Arrived(c: Conn, j: Json): Conn {
    var c1 := c.(routed := c.routed + [j]);
    if |c.buffer| < CHANNEL then c1.(buffer := c.buffer + [j]) else c1.(waiting := Some(j))
  }

  /** async_send to a connection's channel; with a full buffer the reader is suspended. */
  function SendIn(s: State, id: int, j: Json): State
    requires id in s.conns
  {
    var c := s.conns[id];
    s.(conns := s.conns[id := Arrived(c, j)], reader := if |c.buffer| < CHANNEL then s.reader else Blocked(c.inc))
  }

  /** One round of runReader. */
  ghost function ReadFrame(s: State, j: Json): State {
    match Decode(j)
    case Malformed => s.(reader := Stopped)
    case ClientList(es) => CreateAll(s, es)
    case ClientReady(e) => CreateUpdate(s, e)
    case Addressed(kind, id) =>
      if id !in s.conns then s
      else if kind == "client_capabilities" then UpdateCaps(s, id, Field(j, "capabilities"))
      else if kind == "client_data" then SendIn(s, id, j)
      else if kind == "client_disconnected" then s.(dead := s.dead[id := ConnectionClosed])
      else s
  }

  /** The end of a link cancels a suspended send. */
  function Cancelled(c: Conn): Conn {
    if c.waiting.Some? && c.routed != [] then c.(waiting := None, routed := c.routed[..|c.routed| - 1]) else c
  }

  // ---------- Effects ----------

  function Mark(dead: map<int, Reason>, e: Effect): map<int, Reason> {
    match e
    case Close(id) => dead[id := GameLogoff]
    case NetworkLost(id) => dead[id := ConnectionLost]
    case Send(_, _) => dead
  }

  function Sent(e: Effect): seq<Json> {
    if e.Send? then [M.DataFrame(e.id, e.m)] else []
  }

  ghost function Marks(dead: map<int, Reason>, es: seq<Effect>): map<int, Reason> {
    if es == [] then dead else Mark(Marks(dead, es[..|es| - 1]), es[|es| - 1])
  }

  /** Effects change the dead marks and the outbound channel only. */
  ghost function Act(s: State, es: seq<Effect>): State {
    s.(dead := Marks(s.dead, es), out := TrySendAll(s.out, FlatMap(Sent, es)))
  }

  // ---------- The tick ----------

  /** Frames a drain finds: the buffer and a suspended send behind it. */
  function Queued(c: Conn): seq<Json> {
    c.buffer + AsSeq(c.waiting)
  }

  function Drained(c: Conn): Conn {
    c.(buffer := [], waiting := None, handled := c.handled + Queued(c))
  }

  /** What the code behind a connection's parser does at its n-th call. */
  type Behaviour = (nat, nat) -> seq<Effect>

  ghost function Answers(react: Behaviour, inc: nat, first: nat, count: nat): seq<Effect> {
    if count == 0 then [] else Answers(react, inc, first, count - 1) + react(inc, first + count - 1)
  }

  /** What draining a connection brings about. */
  ghost function Replies(c: Conn, react: Behaviour): seq<Effect> {
    Answers(react, c.inc, |FlatMap(M.FrameCalls, c.handled)|, |FlatMap(M.FrameCalls, Queued(c))|)
  }

  ghost function AllReplies(conns: map<int, Conn>, ids: seq<int>, react: Behaviour): seq<Effect> {
    if ids == [] then []
    else
      var id := ids[|ids| - 1];
      AllReplies(conns, ids[..|ids| - 1], react) + if id in conns then Replies(conns[id], react) else []
  }

  function Notice(id: int): Json {
    Obj(map["kind" := Str("client_disconnected"), "id" := Int(id), "reason" := Str("logoff")])
  }

  /** The portal is told of the connections the game itself logs off. */
  ghost function Notices(conns: map<int, Conn>, dead: map<int, Reason>, order: seq<int>): seq<Json> {
    if order == [] then []
    else
      var id := order[|order| - 1];
      Notices(conns, dead, order[..|order| - 1]) +
      if id in conns && id in dead && dead[id].GameLogoff? then [Notice(id)] else []
  }

  ghost function CleanFacts(conns: map<int, Conn>, dead: map<int, Reason>, order: seq<int>): seq<Fact> {
    if order == [] then []
    else
      var id := order[|order| - 1];
      CleanFacts(conns, dead, order[..|order| - 1]) +
      if id in conns && id in dead then [Cleaned(id, conns[id], dead[id])] else []
  }

  ghost function WelcomeFacts(conns: map<int, Conn>, ids: seq<int>): seq<Fact> {
    if ids == [] then []
    else
      var id := ids[|ids| - 1];
      WelcomeFacts(conns, ids[..|ids| - 1]) + if id in conns then [Welcomed(conns[id].inc)] else []
  }

  ghost function BeatFacts(conns: map<int, Conn>, ids: seq<int>): seq<Fact> {
    if ids == [] then []
    else
      var id := ids[|ids| - 1];
      BeatFacts(conns, ids[..|ids| - 1]) + if id in conns then [Beat(conns[id].inc)] else []
  }

  /** The connections that survive the sweep of the dead. */
  ghost function Survivors(conns: map<int, Conn>, dead: map<int, Reason>): map<int, Conn> {
    map id | id in conns && id !in dead :: conns[id]
  }

  ghost function Live(s: State): map<int, Conn> {
    Survivors(s.conns, s.dead)
  }

  /** A frame that makes the message constructor throw ends the process. */
  ghost predicate Exits(s: State) {
    exists id, f :: id in Live(s) && f in Queued(Live(s)[id]) && !M.FrameOk(f)
  }

  /** processConnections as one step. `order` is the order in which the unordered map of dead marks is walked. */
  ghost function Tick(s: State, order: seq<int>, react: Behaviour): State {
    var live := Live(s);
    var ids := Ids.Ascending(live.Keys);
    var effects := AllReplies(live, ids, react);
    State(
      s.next,
      map id | id in live :: Drained(live[id]),
      s.pending - live.Keys,
      Marks(map[], effects),
      if exists id :: id in live && live[id].waiting.Some? then Listening else s.reader,
      TrySendAll(TrySendAll(s.out, Notices(s.conns, s.dead, order)), FlatMap(Sent, effects)),
      s.history + CleanFacts(s.conns, s.dead, order) + WelcomeFacts(live, Ids.Ascending(s.pending))
                + BeatFacts(live, ids),
      s.exited)
  }

  // ---------- Steps and runs ----------

  /** SendAbandoned is the destruction of an object that is no longer connected: a send suspended on its channel
      is cancelled, and the reader, which swallows the exception, goes on to the next frame. */
  datatype Event =
    | FrameArrives(j: Json)
    | LinkUp
    | LinkDown
    | Acts(e: Effect)
    | WriteDone(ok: bool)
    | SendAbandoned
    | TickRuns(order: seq<int>, react: Behaviour)

  /** An event that cannot happen in a state leaves it as it is. */
  ghost function Step(s: State, e: Event): State {
    if s.exited then s
    else
      match e
      case FrameArrives(j) => if s.reader.Listening? then ReadFrame(s, j) else s
      case LinkUp =>
        if s.reader.Stopped? && s.out.writer.Offline? then s.(reader := Listening, out := Connect(s.out)) else s
      case LinkDown =>
        s.(reader := Stopped, out := Disconnect(s.out), conns := map id | id in s.conns :: Cancelled(s.conns[id]))
      case Acts(a) => Act(s, [a])
      case SendAbandoned =>
        if s.reader.Blocked? && forall id | id in s.conns :: s.conns[id].inc != s.reader.inc
        then s.(reader := Listening)
        else s
      case WriteDone(ok) => s.(out := WriteEnds(s.out, ok))
      case TickRuns(order, react) =>
        if !Ids.Enumerates(order, s.dead.Keys) then s
        else if Exits(s) then s.(exited := true)
        else Tick(s, order, react)
  }

  ghost function Run(s: State, es: seq<Event>): State {
    if es == [] then s else Step(Run(s, es[..|es| - 1]), es[|es| - 1])
  }
}
