/** Player messages, the frames that carry them, and the parser calls they cause. */
module Messages {
  import opened Options
  import opened JsonValues
  import opened Sequences
  import Text

  datatype Message = Message(cmd: string, args: Json, kwargs: Json)

  const BLANK := Message("", Arr([]), Obj(map[]))

  /** Message::serialize: empty parts are not written, and a message without parts is null. */
  function Serialize(m: Message): Json {
    var c := if m.cmd != "" then map["cmd" := Str(m.cmd)] else map[];
    var a := if !Empty(m.args) then map["args" := m.args] else map[];
    var k := if !Empty(m.kwargs) then map["kwargs" := m.kwargs] else map[];
    if c + a + k == map[] then Null else Obj(c + a + k)
  }

  /** Message::Message(json): None is the exception thrown for a command that is not a string. */
  function Parse(j: Json): Option<Message> {
    if Has(j, "cmd") && !j.members["cmd"].Str? then None
    else
      Some(Message(
        if Has(j, "cmd") then j.members["cmd"].s else BLANK.cmd,
        if Has(j, "args") then j.members["args"] else BLANK.args,
        if Has(j, "kwargs") then j.members["kwargs"] else BLANK.kwargs))
  }

  /** The frame Connection::sendMessage offers to the link. */
  function DataFrame(id: int, m: Message): Json {
    var d := Obj(map["cmd" := Str(m.cmd), "args" := m.args, "kwargs" := m.kwargs]);
    Obj(map["kind" := Str("client_data"), "id" := Int(id), "data" := Arr([d])])
  }

  // ---------- Frames as the heartbeat reads them ----------

  /** The entries of a frame's data, in the order they are read. */
  ghost function Entries(frame: Json): seq<Json> {
    Elements(Field(frame, "data"))
  }

  /** No entry makes the message constructor throw. */
  ghost predicate FrameOk(frame: Json) {
    forall e | e in Entries(frame) :: Parse(e).Some?
  }

  /** The messages of a frame. An entry that throws ends the process, so what stands for it never matters. */
  ghost function FrameMessages(frame: Json): seq<Message> {
    var es := Entries(frame);
    seq(|es|, i requires 0 <= i < |es| => if Parse(es[i]).Some? then Parse(es[i]).value else BLANK)
  }

  datatype ParserCall = ParseText(text: string) | HandleMessage(m: Message)

  /** Connection::handleMessage on an argument of a text command: a string goes to the parser unless it is "idle". */
  function TextCall(arg: Json): seq<ParserCall> {
    if arg.Str? && !Text.IEquals(arg.s, "idle") then [ParseText(arg.s)] else []
  }

  /** Connection::handleMessage. */
  ghost function MessageCalls(m: Message): seq<ParserCall> {
    if m.cmd == "text" then FlatMap(TextCall, Elements(m.args)) else [HandleMessage(m)]
  }

  /** The parser calls one frame causes. */
  ghost function FrameCalls(frame: Json): seq<ParserCall> {
    FlatMap(MessageCalls, FrameMessages(frame))
  }

  // ---------- In terms of the JSON ----------

  /** An object with a command that is not a string. */
  predicate BadCommand(j: Json) {
    j.Obj? && "cmd" in j.members && !j.members["cmd"].Str?
  }

  /** A frame with such an entry in its data. */
  ghost predicate BadFrame(f: Json) {
    && f.Obj? && "data" in f.members
    && var data := f.members["data"];
       || (data.Arr? && exists i :: 0 <= i < |data.items| && BadCommand(data.items[i]))
       || (data.Obj? && exists k :: k in data.members && BadCommand(data.members[k]))
  }

  /** The constructor throws exactly on such a command, and otherwise takes the three parts over. */
  lemma ParseThrowsIff(j: Json)
    ensures Parse(j).None? <==> BadCommand(j)
    ensures Parse(j).Some? ==>
              var m := Parse(j).value;
              && m.cmd == (if j.Obj? && "cmd" in j.members then j.members["cmd"].s else "")
              && m.args == (if j.Obj? && "args" in j.members then j.members["args"] else Arr([]))
              && m.kwargs == (if j.Obj? && "kwargs" in j.members then j.members["kwargs"] else Obj(map[]))
  {
  }

  lemma FrameOkIff(f: Json)
    ensures FrameOk(f) <==> !BadFrame(f)
  {
    hide Parse, Elements, BadCommand;
    var data := Field(f, "data");
    ElementsAre(data);
    forall e ensures Parse(e).None? <==> BadCommand(e) {
      ParseThrowsIff(e);
    }
    if data.Arr? {
      assert forall e :: e in data.items <==> exists i :: 0 <= i < |data.items| && data.items[i] == e;
    } else if !data.Obj? && !data.Null? {
      NoBadScalar(data);
    }
  }

  lemma NoBadScalar(j: Json)
    requires !j.Obj?
    ensures !BadCommand(j)
  {
  }

  /** Positions of the arguments the parser gets: the texts other than "idle", in whatever case. */
  predicate Heard(arg: Json) {
    arg.Str? && !Text.SameButCase(arg.s, "idle")
  }

  /** The calls are those of the arguments at these positions, which are all that are heard, in order. */
  ghost predicate CallsFor(args: seq<Json>, at: seq<nat>, calls: seq<ParserCall>) {
    && (forall k, l | 0 <= k < l < |at| :: at[k] < at[l])
    && (forall i: nat | i < |args| && Heard(args[i]) :: i in at)
    && |calls| == |at|
    && forall k | 0 <= k < |at| :: at[k] < |args| && Heard(args[at[k]]) && calls[k] == ParseText(args[at[k]].s)
  }

  /** A text command causes one call for each such argument, in order, and any other command one with the whole
      message. */
  lemma MessageCallsAre(m: Message)
    ensures m.cmd != "text" ==> MessageCalls(m) == [HandleMessage(m)]
    ensures m.cmd == "text" && m.args.Arr? ==> exists at :: CallsFor(m.args.items, at, MessageCalls(m))
  {
    if m.cmd == "text" && m.args.Arr? {
      hide CallsFor, TextCall, Elements;
      ElementsAre(m.args);
      assert MessageCalls(m) == FlatMap(TextCall, m.args.items);
      var at := HeardAt(m.args.items);
      assert CallsFor(m.args.items, at, MessageCalls(m));
    }
  }

  lemma {:induction false} HeardAt(args: seq<Json>) returns (at: seq<nat>)
    ensures CallsFor(args, at, FlatMap(TextCall, args))
  {
    at := [];
    if args != [] {
      hide Heard, TextCall, CallsFor;
      var n: nat := |args| - 1;
      var init := HeardAt(args[..n]);
      HeardIff(args[n]);
      HeardSnoc(args[..n], init, FlatMap(TextCall, args[..n]), args[n]);
      assert args == args[..n] + [args[n]];
      assert FlatMap(TextCall, args[..n]) + [] == FlatMap(TextCall, args[..n]);
      at := if Heard(args[n]) then init + [n] else init;
    }
  }

  lemma HeardSnoc(args: seq<Json>, at: seq<nat>, calls: seq<ParserCall>, arg: Json)
    requires CallsFor(args, at, calls)
    ensures Heard(arg) ==> CallsFor(args + [arg], at + [|args|], calls + [ParseText(arg.s)])
    ensures !Heard(arg) ==> CallsFor(args + [arg], at, calls)
  {
    hide Heard;
    var all := args + [arg];
    assert forall i: nat | i < |args| :: all[i] == args[i];
    assert all[|args|] == arg;
    if Heard(arg) {
      var at' := at + [|args|];
      assert at'[|at|] == |args|;
      forall i: nat | i < |all| && Heard(all[i]) ensures i in at' {
        if i < |args| {
          assert i in at;
        }
      }
    }
  }

  lemma HeardIff(arg: Json)
    ensures TextCall(arg) == if Heard(arg) then [ParseText(arg.s)] else []
  {
    if arg.Str? {
      Text.IEqualsIff(arg.s, "idle");
    }
  }

  // ---------- Round trips ----------

  /** The frame of a message, key by key. */
  lemma DataFrameIs(id: int, m: Message)
    ensures var f := DataFrame(id, m);
            && f.Obj? && f.members.Keys == {"kind", "id", "data"}
            && f.members["kind"] == Str("client_data") && f.members["id"] == Int(id)
            && f.members["data"].Arr? && |f.members["data"].items| == 1
            && f.members["data"].items[0] == Obj(map["cmd" := Str(m.cmd), "args" := m.args, "kwargs" := m.kwargs])
  {
  }

  /** A sent message is read back unchanged by the receiving loop, whatever its parts are. */
  lemma SentMessageIsReadBack(id: int, m: Message)
    ensures FrameOk(DataFrame(id, m)) && FrameMessages(DataFrame(id, m)) == [m]
  {
    var d := Obj(map["cmd" := Str(m.cmd), "args" := m.args, "kwargs" := m.kwargs]);
    assert Entries(DataFrame(id, m)) == [d];
    assert Parse(d) == Some(m);
  }

  /** The receiving loop makes exactly the parser calls of the message that was sent. */
  lemma SentMessageCalls(id: int, m: Message)
    ensures FrameCalls(DataFrame(id, m)) == MessageCalls(m)
  {
    hide MessageCalls, DataFrame, FrameMessages;
    SentMessageIsReadBack(id, m);
    assert [m][..0] == [] && FlatMap(MessageCalls, [m]) == [] + MessageCalls(m);
    assert [] + MessageCalls(m) == MessageCalls(m);
  }

  /** The keys serialization writes, and what it writes under them. */
  lemma SerializedMembers(m: Message)
    ensures var j := Serialize(m);
            && (j.Null? || j.Obj?)
            && (Has(j, "cmd") <==> m.cmd != "") && (m.cmd != "" ==> j.members["cmd"] == Str(m.cmd))
            && (Has(j, "args") <==> !Empty(m.args)) && (!Empty(m.args) ==> j.members["args"] == m.args)
            && (Has(j, "kwargs") <==> !Empty(m.kwargs)) && (!Empty(m.kwargs) ==> j.members["kwargs"] == m.kwargs)
  {
    hide Empty;
    assert "cmd" != "args" && "cmd" != "kwargs" && "args" != "kwargs" by {
      assert |"cmd"| == 3 && |"args"| == 4 && |"kwargs"| == 6;
    }
    var c := if m.cmd != "" then map["cmd" := Str(m.cmd)] else map[];
    var a := if !Empty(m.args) then map["args" := m.args] else map[];
    var k := if !Empty(m.kwargs) then map["kwargs" := m.kwargs] else map[];
    var all := c + a + k;
    assert "cmd" in all <==> "cmd" in c;
    assert "args" in all <==> "args" in a;
    assert "kwargs" in all <==> "kwargs" in k;
  }

  /** A serialized message is read back with the default shape in place of empty parts. */
  lemma SerializedIsReadBack(m: Message)
    ensures Parse(Serialize(m)) ==
            Some(Message(m.cmd,
                         if Empty(m.args) then Arr([]) else m.args,
                         if Empty(m.kwargs) then Obj(map[]) else m.kwargs))
  {
    hide Serialize, Empty;
    SerializedMembers(m);
  }

  /** Reading back a serialized message loses nothing that serialization writes. */
  lemma SerializeIsStable(m: Message)
    ensures Parse(Serialize(m)).Some?
    ensures Serialize(Parse(Serialize(m)).value) == Serialize(m)
  {
    hide Parse;
    SerializedIsReadBack(m);
    var r := Parse(Serialize(m)).value;
    assert Empty(r.args) == Empty(m.args) && Empty(r.kwargs) == Empty(m.kwargs);
  }

  /** The message itself comes back exactly when its empty parts have the default shape. */
  lemma RoundTripIff(m: Message)
    ensures Parse(Serialize(m)) == Some(m) <==>
            (Empty(m.args) ==> m.args == Arr([])) && (Empty(m.kwargs) ==> m.kwargs == Obj(map[]))
  {
    hide Parse, Serialize, Empty;
    SerializedIsReadBack(m);
  }
}
