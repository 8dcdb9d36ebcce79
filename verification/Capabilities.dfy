/** Client capabilities: field-by-field updates from JSON, and their serialization. */
module Capabilities {
  import opened Options
  import opened JsonValues
  import Text

  datatype Protocol = Telnet | WebSocket

  /** The value of one field. A colour is the underlying byte of its enumeration. */
  datatype Scalar = Network(p: Protocol) | Flag(b: bool) | Words(s: string) | Number(n: int) | Colour(byte: int)

  datatype Kind = ProtocolName | Switch | Phrase | Number16 | Number32 | HostList | Color

  /** One statement of deserialize: the key it looks for and what it reads. */
  datatype Row = Row(key: string, kind: Kind)

  /** The statements of deserialize, in order. */
  const ROWS: seq<Row> := [
    Row("protocol", ProtocolName), Row("encryption", Switch), Row("client_name", Phrase),
    Row("client_version", Phrase), Row("host_address", Phrase), Row("host_port", Number16),
    Row("host_names", HostList), Row("encoding", Phrase), Row("utf8", Switch), Row("colorType", Color),
    Row("width", Number32), Row("height", Number32), Row("gmcp", Switch), Row("msdp", Switch),
    Row("mssp", Switch), Row("mxp", Switch), Row("mccp2", Switch), Row("mccp3", Switch),
    Row("ttype", Switch), Row("naws", Switch), Row("sga", Switch), Row("linemode", Switch),
    Row("force_endline", Switch), Row("oob", Switch), Row("tls", Switch), Row("screen_reader", Switch),
    Row("mouse_tracking", Switch), Row("vt100", Switch), Row("osc_color_palette", Switch),
    Row("proxy", Switch), Row("mnes", Switch)]

  /** A capabilities object: the fields deserialize can set, under the keys of their rows, and the rest. */
  datatype Caps = Caps(scalars: map<string, Scalar>, hostNames: seq<string>, mccp2Active: bool, mccp3Active: bool)

  /** The value a field has in a new object. */
  function Initial(r: Row): Scalar {
    match r.kind
    case ProtocolName => Network(Telnet)
    case Phrase => Words(if r.key == "encoding" then "" else "UNKNOWN")
    case Number16 => Number(0)
    case Number32 => Number(if r.key == "width" then 80 else 52)
    case Color => Colour(0)
    case _ => Flag(false)
  }

  /** The values of a field's C++ type. */
  predicate Fits(k: Kind, v: Scalar) {
    match k
    case ProtocolName => v.Network?
    case Switch => v.Flag?
    case Phrase => v.Words?
    case Number16 => v.Number? && -0x8000 <= v.n < 0x8000
    case Number32 => v.Number? && -0x8000_0000 <= v.n < 0x8000_0000
    case Color => v.Colour? && 0 <= v.byte < 256
    case HostList => false
  }

  ghost predicate KeysDistinct(rows: seq<Row>) {
    forall i, j | 0 <= i < j < |rows| :: rows[i].key != rows[j].key
  }

  lemma FirstRowsDiffer()
    ensures forall i, j | 0 <= i < 3 && i < j < |ROWS| :: ROWS[i].key != ROWS[j].key
  {
  }

  lemma EarlyRowsDiffer()
    ensures forall i, j | 3 <= i < 7 && i < j < |ROWS| :: ROWS[i].key != ROWS[j].key
  {
  }

  lemma MiddleRowsDiffer()
    ensures forall i, j | 7 <= i < 16 && i < j < |ROWS| :: ROWS[i].key != ROWS[j].key
  {
  }

  lemma LateRowsDiffer()
    ensures forall i, j | 16 <= i < j < |ROWS| :: ROWS[i].key != ROWS[j].key
  {
  }

  lemma RowsAreDistinct()
    ensures KeysDistinct(ROWS)
  {
    FirstRowsDiffer();
    EarlyRowsDiffer();
    MiddleRowsDiffer();
    LateRowsDiffer();
  }

  /** Exactly the fields of the rows are present, each with a value of its type. */
  ghost predicate WellTyped(c: Caps, rows: seq<Row>) {
    && (forall i | 0 <= i < |rows| && !rows[i].kind.HostList? ::
         rows[i].key in c.scalars && Fits(rows[i].kind, c.scalars[rows[i].key]))
    && (forall k | k in c.scalars :: exists i :: 0 <= i < |rows| && !rows[i].kind.HostList? && rows[i].key == k)
  }

  /** A new object. */
  function Fresh(rows: seq<Row>): Caps {
    if rows == [] then Caps(map[], [], false, false)
    else
      var c := Fresh(rows[..|rows| - 1]);
      var r := rows[|rows| - 1];
      if r.kind.HostList? then c else c.(scalars := c.scalars[r.key := Initial(r)])
  }

  // ---------- deserialize ----------

  /** What one statement does to its field. */
  datatype Reading = Throws | Keeps | Sets(v: Scalar)

  /** The library converts booleans to the narrower integer types too. */
  function ReadNumber(v: Json, modulus: nat): Reading
    requires modulus >= 2 && modulus % 2 == 0
  {
    if v.Int? then Sets(Number(Signed(v.n, modulus)))
    else if v.Bool? then Sets(Number(if v.b then 1 else 0))
    else Throws
  }

  /** An unrecognised protocol name changes nothing. The colour statement looks for one key and reads another. */
  function ReadRow(r: Row, j: Json): Reading {
    if !Has(j, r.key) then Keeps
    else
      var v := j.members[r.key];
      match r.kind
      case ProtocolName =>
        if !v.Str? then Throws
        else if Text.IEquals(v.s, "Telnet") then Sets(Network(Telnet))
        else if Text.IEquals(v.s, "WebSocket") then Sets(Network(WebSocket))
        else Keeps
      case Switch => if v.Bool? then Sets(Flag(v.b)) else Throws
      case Phrase => if v.Str? then Sets(Words(v.s)) else Throws
      case Number16 => ReadNumber(v, TWO16)
      case Number32 => ReadNumber(v, TWO32)
      case Color => var color := Field(j, "color"); if color.Int? then Sets(Colour(color.n % 256)) else Throws
      case HostList => Keeps
  }

  /** The strings before the first element that is not one. */
  function Strings(es: seq<Json>): seq<string> {
    if es == [] || !es[0].Str? then [] else [es[0].s] + Strings(es[1..])
  }

  /** The host names one call appends, if it gets to them. */
  ghost function HostsRead(j: Json): seq<string> {
    Strings(Elements(Field(j, "host_names")))
  }

  /** The statement does not throw. This depends on the JSON alone. */
  ghost predicate RowOk(r: Row, j: Json) {
    if r.kind.HostList? then |HostsRead(j)| == |Elements(Field(j, "host_names"))| else !ReadRow(r, j).Throws?
  }

  /** Executes one statement of deserialize. */
  ghost function Apply(c: Caps, r: Row, j: Json): Caps {
    if r.kind.HostList? then c.(hostNames := c.hostNames + HostsRead(j))
    else if ReadRow(r, j).Sets? then c.(scalars := c.scalars[r.key := ReadRow(r, j).v])
    else c
  }

  datatype Outcome = Outcome(caps: Caps, ok: bool)

  /** Executes statements in order; a throw skips the rest. */
  ghost function Run(c: Caps, rows: seq<Row>, j: Json): Outcome {
    if rows == [] then Outcome(c, true)
    else
      var o := Run(c, rows[..|rows| - 1], j);
      var r := rows[|rows| - 1];
      if o.ok then Outcome(Apply(o.caps, r, j), RowOk(r, j)) else o
  }

  ghost predicate AllOk(rows: seq<Row>, j: Json) {
    forall i | 0 <= i < |rows| :: RowOk(rows[i], j)
  }

  /** A call throws exactly when one of its statements does. */
  lemma {:induction false} RunThrowsIff(c: Caps, rows: seq<Row>, j: Json)
    ensures Run(c, rows, j).ok <==> AllOk(rows, j)
  {
    hide RowOk, Apply;
    if rows != [] {
      var init := rows[..|rows| - 1];
      RunThrowsIff(c, init, j);
      if AllOk(init, j) && RowOk(rows[|rows| - 1], j) {
        assert forall i | 0 <= i < |init| :: rows[i] == init[i];
      }
      if AllOk(rows, j) {
        assert forall i | 0 <= i < |init| :: init[i] == rows[i];
      }
    }
  }

  /** The call gets to statement i and that statement sets its field. */
  ghost predicate Mentions(rows: seq<Row>, i: nat, j: Json)
    requires i < |rows|
  {
    AllOk(rows[..i], j) && ReadRow(rows[i], j).Sets?
  }

  function Lookup(c: Caps, key: string): Option<Scalar> {
    if key in c.scalars then Some(c.scalars[key]) else None
  }

  /** What one call leaves in field i, also when it throws on the way. */
  lemma {:induction false} RunField(c: Caps, rows: seq<Row>, j: Json, i: nat)
    requires KeysDistinct(rows) && i < |rows| && !rows[i].kind.HostList?
    ensures Lookup(Run(c, rows, j).caps, rows[i].key) ==
            if Mentions(rows, i, j) then Some(ReadRow(rows[i], j).v) else Lookup(c, rows[i].key)
  {
    hide ReadRow, HostsRead;
    var n := |rows| - 1;
    var init := rows[..n];
    RunThrowsIff(c, init, j);
    if i < n {
      assert rows[i] == init[i] && init[..i] == rows[..i];
      assert rows[n].key != rows[i].key;
      RunField(c, init, j, i);
    } else {
      RunOther(c, init, j, rows[n].key);
    }
  }

  /** A call leaves a field alone that none of its statements sets. */
  lemma {:induction false} RunOther(c: Caps, rows: seq<Row>, j: Json, key: string)
    requires forall i | 0 <= i < |rows| :: rows[i].kind.HostList? || rows[i].key != key
    ensures Lookup(Run(c, rows, j).caps, key) == Lookup(c, key)
  {
    if rows != [] {
      RunOther(c, rows[..|rows| - 1], j, key);
      assert rows[|rows| - 1].kind.HostList? || rows[|rows| - 1].key != key;
    }
  }

  /** The host names one call appends: none if it throws before it gets to them. */
  ghost function HostsAppended(rows: seq<Row>, j: Json): seq<string> {
    if rows == [] then []
    else
      var n := |rows| - 1;
      HostsAppended(rows[..n], j) + if rows[n].kind.HostList? && AllOk(rows[..n], j) then HostsRead(j) else []
  }

  lemma {:induction false} RunHosts(c: Caps, rows: seq<Row>, j: Json)
    ensures var c' := Run(c, rows, j).caps;
            && c'.hostNames == c.hostNames + HostsAppended(rows, j)
            && c'.mccp2Active == c.mccp2Active && c'.mccp3Active == c.mccp3Active
  {
    hide HostsRead, ReadRow, AllOk, RowOk;
    if rows != [] {
      var init := rows[..|rows| - 1];
      RunHosts(c, init, j);
      RunThrowsIff(c, init, j);
    }
  }

  // ---------- Sequences of updates ----------

  /** All calls on one object, in order, those that throw included. */
  ghost function RunAll(c: Caps, rows: seq<Row>, js: seq<Json>): Caps {
    if js == [] then c else Run(RunAll(c, rows, js[..|js| - 1]), rows, js[|js| - 1]).caps
  }

  /** The value of the last update that mentions field i. */
  ghost function LastMention(rows: seq<Row>, i: nat, js: seq<Json>): Option<Scalar>
    requires i < |rows|
  {
    if js == [] then None
    else if Mentions(rows, i, js[|js| - 1]) then Some(ReadRow(rows[i], js[|js| - 1]).v)
    else LastMention(rows, i, js[..|js| - 1])
  }

  lemma {:induction false} LastMentionWins(c: Caps, rows: seq<Row>, js: seq<Json>, i: nat)
    requires KeysDistinct(rows) && i < |rows| && !rows[i].kind.HostList?
    ensures var last := LastMention(rows, i, js);
            Lookup(RunAll(c, rows, js), rows[i].key) == if last.Some? then last else Lookup(c, rows[i].key)
  {
    if js != [] {
      LastMentionWins(c, rows, js[..|js| - 1], i);
      RunField(RunAll(c, rows, js[..|js| - 1]), rows, js[|js| - 1], i);
    }
  }

  ghost function AllHosts(rows: seq<Row>, js: seq<Json>): seq<string> {
    if js == [] then [] else AllHosts(rows, js[..|js| - 1]) + HostsAppended(rows, js[|js| - 1])
  }

  lemma {:induction false} HostNamesAccumulate(c: Caps, rows: seq<Row>, js: seq<Json>)
    ensures RunAll(c, rows, js).hostNames == c.hostNames + AllHosts(rows, js)
  {
    hide Run, HostsAppended;
    if js != [] {
      HostNamesAccumulate(c, rows, js[..|js| - 1]);
      RunHosts(RunAll(c, rows, js[..|js| - 1]), rows, js[|js| - 1]);
    }
  }

  /** An update without members does not throw. */
  lemma EmptyIsOk(rows: seq<Row>)
    ensures AllOk(rows, Obj(map[]))
  {
    assert Elements(Field(Obj(map[]), "host_names")) == [];
  }

  // ---------- serialize ----------

  function Names(hosts: seq<string>): Json {
    Arr(seq(|hosts|, i requires 0 <= i < |hosts| => Str(hosts[i])))
  }

  /** What serialize writes under the key of a row, if anything. The protocol is never written. */
  function Writes(r: Row, c: Caps): Option<Json>
    requires r.kind.HostList? || (r.key in c.scalars && Fits(r.kind, c.scalars[r.key]))
  {
    match r.kind
    case ProtocolName => None
    case HostList => if c.hostNames == [] then None else Some(Names(c.hostNames))
    case Switch => if c.scalars[r.key].b then Some(Bool(true)) else None
    case Phrase => if r.key == "encoding" && c.scalars[r.key].s == "" then None else Some(Str(c.scalars[r.key].s))
    case Color => if c.scalars[r.key].byte == 0 then None else Some(Int(c.scalars[r.key].byte))
    case _ => if c.scalars[r.key] == Initial(r) then None else Some(Int(c.scalars[r.key].n))
  }

  ghost predicate Writable(c: Caps, rows: seq<Row>) {
    forall i | 0 <= i < |rows| && !rows[i].kind.HostList? ::
      rows[i].key in c.scalars && Fits(rows[i].kind, c.scalars[rows[i].key])
  }

  ghost function Written(c: Caps, rows: seq<Row>): map<string, Json>
    requires Writable(c, rows)
  {
    if rows == [] then map[]
    else
      var r := rows[|rows| - 1];
      var m := Written(c, rows[..|rows| - 1]);
      if Writes(r, c).Some? then m[r.key := Writes(r, c).value] else m
  }

  lemma {:induction false} WrittenMember(c: Caps, rows: seq<Row>, i: nat)
    requires Writable(c, rows) && KeysDistinct(rows) && i < |rows|
    ensures var m := Written(c, rows); var k := rows[i].key;
            (if k in m then Some(m[k]) else None) == Writes(rows[i], c)
  {
    var n := |rows| - 1;
    if i < n {
      assert rows[..n][i] == rows[i];
      assert rows[n].key != rows[i].key;
      WrittenMember(c, rows[..n], i);
    } else {
      WrittenOther(c, rows[..n], rows[n].key);
    }
  }

  lemma {:induction false} WrittenOther(c: Caps, rows: seq<Row>, key: string)
    requires Writable(c, rows) && forall i | 0 <= i < |rows| :: rows[i].key != key
    ensures key !in Written(c, rows)
  {
    if rows != [] {
      assert rows[|rows| - 1].key != key;
      WrittenOther(c, rows[..|rows| - 1], key);
    }
  }

  // ---------- Round trip ----------

  lemma NoRowIsColor()
    ensures forall i | 0 <= i < |ROWS| :: ROWS[i].key != "color"
  {
  }

  lemma {:induction false} StringsOfNames(hosts: seq<string>, es: seq<Json>)
    requires |es| == |hosts| && forall i | 0 <= i < |es| :: es[i] == Str(hosts[i])
    ensures Strings(es) == hosts
  {
    if es != [] {
      StringsOfNames(hosts[1..], es[1..]);
      assert hosts == [hosts[0]] + hosts[1..];
    }
  }

  lemma WrittenHosts(c: Caps, rows: seq<Row>, h: nat)
    requires Writable(c, rows) && KeysDistinct(rows)
    requires h < |rows| && rows[h] == Row("host_names", HostList)
    ensures var j := Obj(Written(c, rows));
            HostsRead(j) == c.hostNames && |Elements(Field(j, "host_names"))| == |c.hostNames|
  {
    WrittenMember(c, rows, h);
    var j := Obj(Written(c, rows));
    if c.hostNames == [] {
      assert Elements(Field(j, "host_names")) == [];
    } else {
      assert Field(j, "host_names") == Names(c.hostNames);
      StringsOfNames(c.hostNames, Elements(Names(c.hostNames)));
    }
  }

  /** Reading back what one row wrote. */
  lemma ReadBack(c: Caps, rows: seq<Row>, i: nat)
    requires Writable(c, rows) && KeysDistinct(rows)
    requires i < |rows| && !rows[i].kind.HostList?
    requires forall m | 0 <= m < |rows| :: rows[m].key != "color"
    ensures var r := ReadRow(rows[i], Obj(Written(c, rows))); var v := c.scalars[rows[i].key];
            match rows[i].kind
            case ProtocolName => r == Keeps
            case Color => r == if v.byte == 0 then Keeps else Throws
            case _ => if r.Keeps? then v == Initial(rows[i]) else r == Sets(v)
  {
    WrittenMember(c, rows, i);
    WrittenOther(c, rows, "color");
  }

  lemma {:induction false} FreshField(rows: seq<Row>, i: nat)
    requires KeysDistinct(rows) && i < |rows| && !rows[i].kind.HostList?
    ensures Lookup(Fresh(rows), rows[i].key) == Some(Initial(rows[i]))
  {
    var n := |rows| - 1;
    if i < n {
      assert rows[..n][i] == rows[i];
      assert rows[n].key != rows[i].key;
      FreshField(rows[..n], i);
    }
  }

  lemma {:induction false} FreshOther(rows: seq<Row>, key: string)
    requires forall i | 0 <= i < |rows| :: rows[i].kind.HostList? || rows[i].key != key
    ensures Lookup(Fresh(rows), key) == None
    ensures Fresh(rows).hostNames == [] && !Fresh(rows).mccp2Active && !Fresh(rows).mccp3Active
  {
    if rows != [] {
      var r := rows[|rows| - 1];
      assert r.kind.HostList? || r.key != key;
      FreshOther(rows[..|rows| - 1], key);
    }
  }

  /** One host row, reached: its names are appended once. */
  lemma {:induction false} HostsOnce(rows: seq<Row>, j: Json, h: nat)
    requires AllOk(rows, j) && KeysDistinct(rows)
    requires h < |rows| && forall i | 0 <= i < |rows| :: rows[i].kind.HostList? <==> i == h
    ensures HostsAppended(rows, j) == HostsRead(j)
  {
    hide HostsRead, RowOk;
    var n := |rows| - 1;
    assert forall i | 0 <= i < n :: rows[..n][i] == rows[i];
    if h < n {
      HostsOnce(rows[..n], j, h);
    } else {
      NoHosts(rows[..n], j);
    }
  }

  lemma {:induction false} NoHosts(rows: seq<Row>, j: Json)
    requires forall i | 0 <= i < |rows| :: !rows[i].kind.HostList?
    ensures HostsAppended(rows, j) == []
  {
    if rows != [] {
      assert !rows[|rows| - 1].kind.HostList?;
      NoHosts(rows[..|rows| - 1], j);
    }
  }

  /** The layout of the table that the round trip depends on. */
  ghost predicate Layout(rows: seq<Row>) {
    && KeysDistinct(rows) && 9 < |rows|
    && rows[0] == Row("protocol", ProtocolName)
    && rows[6] == Row("host_names", HostList)
    && rows[9] == Row("colorType", Color)
    && forall i | 0 <= i < |rows| ::
         && (rows[i].kind.ProtocolName? ==> i == 0)
         && (rows[i].kind.HostList? <==> i == 6)
         && (rows[i].kind.Color? ==> i == 9)
         && rows[i].key != "color"
  }

  lemma RowKinds()
    ensures forall i | 0 <= i < |ROWS| ::
              && (ROWS[i].kind.ProtocolName? ==> i == 0)
              && (ROWS[i].kind.HostList? <==> i == 6)
              && (ROWS[i].kind.Color? ==> i == 9)
  {
  }

  lemma RowsHaveLayout()
    ensures Layout(ROWS)
  {
    hide KeysDistinct;
    RowsAreDistinct();
    RowKinds();
    NoRowIsColor();
  }

  ghost function Reloaded(c: Caps, rows: seq<Row>): Outcome
    requires Writable(c, rows)
  {
    Run(Fresh(rows), rows, Obj(Written(c, rows)))
  }

  /** Field i of an object loaded from what c serialized to, when nothing threw. */
  lemma ReloadedField(c: Caps, rows: seq<Row>, i: nat)
    requires WellTyped(c, rows) && Layout(rows) && i < |rows| && i != 6
    requires AllOk(rows, Obj(Written(c, rows)))
    ensures Lookup(Reloaded(c, rows).caps, rows[i].key) ==
            if i == 0 then Some(Network(Telnet)) else Lookup(c, rows[i].key)
  {
    var j := Obj(Written(c, rows));
    RunField(Fresh(rows), rows, j, i);
    FreshField(rows, i);
    ReadBack(c, rows, i);
    assert RowOk(rows[i], j);
    assert AllOk(rows[..i], j);
  }

  /** Loading throws exactly when a colour was set, because it is written under one key and read from another. */
  lemma ReloadThrowsIff(c: Caps, rows: seq<Row>)
    requires WellTyped(c, rows) && Layout(rows)
    ensures AllOk(rows, Obj(Written(c, rows))) <==> Lookup(c, "colorType") == Some(Colour(0))
    ensures Reloaded(c, rows).ok <==> Lookup(c, "colorType") == Some(Colour(0))
  {
    RunThrowsIff(Fresh(rows), rows, Obj(Written(c, rows)));
    var j := Obj(Written(c, rows));
    ReadBack(c, rows, 9);
    if Lookup(c, "colorType") == Some(Colour(0)) {
      forall i | 0 <= i < |rows| ensures RowOk(rows[i], j) {
        if i == 6 {
          WrittenHosts(c, rows, 6);
        } else {
          ReadBack(c, rows, i);
        }
      }
    } else {
      assert !RowOk(rows[9], j);
    }
  }

  lemma ReloadedScalars(c: Caps, rows: seq<Row>)
    requires WellTyped(c, rows) && Layout(rows) && Lookup(c, "protocol") == Some(Network(Telnet))
    requires AllOk(rows, Obj(Written(c, rows)))
    ensures Reloaded(c, rows).caps.scalars == c.scalars
  {
    var c' := Reloaded(c, rows).caps;
    forall k ensures Lookup(c', k) == Lookup(c, k) {
      if i :| 0 <= i < |rows| && i != 6 && rows[i].key == k {
        ReloadedField(c, rows, i);
      } else {
        RunOther(Fresh(rows), rows, Obj(Written(c, rows)), k);
        FreshOther(rows, k);
      }
    }
    forall k ensures k in c'.scalars <==> k in c.scalars {
      assert Lookup(c', k) == Lookup(c, k);
    }
    forall k | k in c.scalars ensures c'.scalars[k] == c.scalars[k] {
      assert Lookup(c', k) == Lookup(c, k);
    }
  }

  lemma RoundTripOver(c: Caps, rows: seq<Row>)
    requires WellTyped(c, rows) && Layout(rows)
    ensures Reloaded(c, rows) == Outcome(c, true) <==>
            Lookup(c, "protocol") == Some(Network(Telnet)) && Lookup(c, "colorType") == Some(Colour(0))
            && !c.mccp2Active && !c.mccp3Active
  {
    var j := Obj(Written(c, rows));
    ReloadThrowsIff(c, rows);
    RunThrowsIff(Fresh(rows), rows, j);
    RunHosts(Fresh(rows), rows, j);
    FreshOther(rows, "color");
    if AllOk(rows, j) {
      HostsOnce(rows, j, 6);
      WrittenHosts(c, rows, 6);
      ReloadedField(c, rows, 0);
      if Lookup(c, "protocol") == Some(Network(Telnet)) {
        ReloadedScalars(c, rows);
      }
    }
  }

  /** Serializing and loading into a new object restores the object exactly under these conditions. */
  lemma RoundTripIff(c: Caps)
    requires WellTyped(c, ROWS)
    ensures Reloaded(c, ROWS) == Outcome(c, true) <==>
            Lookup(c, "protocol") == Some(Network(Telnet)) && Lookup(c, "colorType") == Some(Colour(0))
            && !c.mccp2Active && !c.mccp3Active
  {
    RowsHaveLayout();
    RoundTripOver(c, ROWS);
  }

  /** A new object, and one deserialize call, over the whole table. */
  ghost function New(): Caps {
    Fresh(ROWS)
  }

  ghost function Update(c: Caps, j: Json): Outcome {
    Run(c, ROWS, j)
  }

  // ---------- Types along every history ----------

  lemma FreshIsTyped(rows: seq<Row>)
    requires Layout(rows)
    ensures WellTyped(Fresh(rows), rows)
  {
    var c := Fresh(rows);
    forall i | 0 <= i < |rows| && !rows[i].kind.HostList?
      ensures rows[i].key in c.scalars && Fits(rows[i].kind, c.scalars[rows[i].key])
    {
      FreshField(rows, i);
    }
    forall k | k in c.scalars ensures exists i :: 0 <= i < |rows| && !rows[i].kind.HostList? && rows[i].key == k {
      if forall i | 0 <= i < |rows| :: rows[i].kind.HostList? || rows[i].key != k {
        FreshOther(rows, k);
        assert false;
      }
    }
  }

  lemma RunKeepsTypes(c: Caps, rows: seq<Row>, j: Json)
    requires WellTyped(c, rows) && KeysDistinct(rows)
    ensures WellTyped(Run(c, rows, j).caps, rows)
  {
    var c' := Run(c, rows, j).caps;
    forall i | 0 <= i < |rows| && !rows[i].kind.HostList?
      ensures rows[i].key in c'.scalars && Fits(rows[i].kind, c'.scalars[rows[i].key])
    {
      RunField(c, rows, j, i);
      assert Lookup(c, rows[i].key).Some?;
    }
    forall k | k in c'.scalars ensures exists i :: 0 <= i < |rows| && !rows[i].kind.HostList? && rows[i].key == k {
      if forall i | 0 <= i < |rows| :: rows[i].kind.HostList? || rows[i].key != k {
        RunOther(c, rows, j, k);
        assert Lookup(c, k).Some?;
      }
    }
  }

  /** After any sequence of updates of a new object, every field is present and has its type. */
  lemma {:induction false} HistoryIsTyped(js: seq<Json>)
    ensures WellTyped(RunAll(Fresh(ROWS), ROWS, js), ROWS)
  {
    RowsHaveLayout();
    if js == [] {
      FreshIsTyped(ROWS);
    } else {
      HistoryIsTyped(js[..|js| - 1]);
      RunKeepsTypes(RunAll(Fresh(ROWS), ROWS, js[..|js| - 1]), ROWS, js[|js| - 1]);
    }
  }

  /** A colour arrives under both keys and is stored; the object's own serialization then does not load. */
  lemma ColouredObjectDoesNotReload()
    ensures var o := Update(New(), Obj(map["colorType" := Int(1), "color" := Int(1)]));
            && o.ok && Lookup(o.caps, "colorType") == Some(Colour(1))
            && WellTyped(o.caps, ROWS) && !Reloaded(o.caps, ROWS).ok
  {
    RowsHaveLayout();
    ColouredIn(ROWS);
  }

  lemma ColourRow(rows: seq<Row>, i: nat)
    requires Layout(rows) && i < |rows|
    ensures var j := Obj(map["colorType" := Int(1), "color" := Int(1)]);
            RowOk(rows[i], j) && (i == 9 ==> ReadRow(rows[i], j) == Sets(Colour(1)))
  {
    var j := Obj(map["colorType" := Int(1), "color" := Int(1)]);
    assert "colorType" in j.members && "color" in j.members;
    if i == 6 {
      assert Field(j, "host_names") == Null;
    } else if i != 9 {
      assert rows[i].key != rows[9].key && !Has(j, rows[i].key);
    }
  }

  lemma ColouredIn(rows: seq<Row>)
    requires Layout(rows)
    ensures var o := Run(Fresh(rows), rows, Obj(map["colorType" := Int(1), "color" := Int(1)]));
            && o.ok && Lookup(o.caps, "colorType") == Some(Colour(1))
            && WellTyped(o.caps, rows) && !Reloaded(o.caps, rows).ok
  {
    hide Run, Reloaded, WellTyped, Writable, Fresh, ReadRow, RowOk, HostsRead;
    var j := Obj(map["colorType" := Int(1), "color" := Int(1)]);
    forall i | 0 <= i < |rows| ensures RowOk(rows[i], j) {
      ColourRow(rows, i);
    }
    ColourRow(rows, 9);
    RunThrowsIff(Fresh(rows), rows, j);
    assert AllOk(rows[..9], j);
    RunField(Fresh(rows), rows, j, 9);
    FreshIsTyped(rows);
    RunKeepsTypes(Fresh(rows), rows, j);
    ReloadThrowsIff(Run(Fresh(rows), rows, j).caps, rows);
  }

  // ---------- In terms of the JSON ----------

  const SWITCHES := {
    "encryption", "utf8", "gmcp", "msdp", "mssp", "mxp", "mccp2", "mccp3", "ttype", "naws", "sga", "linemode",
    "force_endline", "oob", "tls", "screen_reader", "mouse_tracking", "vt100", "osc_color_palette", "proxy", "mnes"}
  const PHRASES := {"client_name", "client_version", "host_address", "encoding"}

  /** The keys an update knows, by the type of their field. */
  function KindOf(key: string): Option<Kind> {
    if key in SWITCHES then Some(Switch)
    else if key in PHRASES then Some(Phrase)
    else if key == "protocol" then Some(ProtocolName)
    else if key == "host_port" then Some(Number16)
    else if key in {"width", "height"} then Some(Number32)
    else if key == "host_names" then Some(HostList)
    else if key == "colorType" then Some(Color)
    else None
  }

  ghost predicate Declared(rows: seq<Row>) {
    && (forall i | 0 <= i < |rows| :: KindOf(rows[i].key) == Some(rows[i].kind))
    && (forall k | KindOf(k).Some? :: exists i :: 0 <= i < |rows| && rows[i].key == k)
  }

  lemma RowsZeroToTwo()
    ensures ROWS[0] == Row("protocol", ProtocolName) && ROWS[1] == Row("encryption", Switch)
    ensures ROWS[2] == Row("client_name", Phrase)
  {
  }

  lemma RowsThreeToFive()
    ensures ROWS[3] == Row("client_version", Phrase)
    ensures ROWS[4] == Row("host_address", Phrase) && ROWS[5] == Row("host_port", Number16)
  {
  }

  lemma RowsZeroToFive()
    ensures ROWS[0] == Row("protocol", ProtocolName) && ROWS[1] == Row("encryption", Switch)
    ensures ROWS[2] == Row("client_name", Phrase) && ROWS[3] == Row("client_version", Phrase)
    ensures ROWS[4] == Row("host_address", Phrase) && ROWS[5] == Row("host_port", Number16)
  {
    hide ROWS;
    RowsZeroToTwo();
    RowsThreeToFive();
  }

  lemma RowsSixToEight()
    ensures ROWS[6] == Row("host_names", HostList) && ROWS[7] == Row("encoding", Phrase)
    ensures ROWS[8] == Row("utf8", Switch) && |ROWS| == 31
  {
  }

  lemma RowsNineToEleven()
    ensures ROWS[9] == Row("colorType", Color)
    ensures ROWS[10] == Row("width", Number32) && ROWS[11] == Row("height", Number32)
  {
  }

  lemma RowsSixToEleven()
    ensures ROWS[6] == Row("host_names", HostList) && ROWS[7] == Row("encoding", Phrase)
    ensures ROWS[8] == Row("utf8", Switch) && ROWS[9] == Row("colorType", Color)
    ensures ROWS[10] == Row("width", Number32) && ROWS[11] == Row("height", Number32) && |ROWS| == 31
  {
    hide ROWS;
    RowsSixToEight();
    RowsNineToEleven();
  }

  lemma NamesAreNoSwitches()
    ensures "protocol" !in SWITCHES && "host_port" !in SWITCHES && "host_names" !in SWITCHES && "colorType" !in SWITCHES
  {
  }

  lemma PhrasesAreNoSwitches()
    ensures "client_name" !in SWITCHES && "client_version" !in SWITCHES && "host_address" !in SWITCHES
    ensures "encoding" !in SWITCHES && "width" !in SWITCHES && "height" !in SWITCHES
  {
  }

  lemma FirstKinds()
    ensures KindOf("protocol") == Some(ProtocolName) && KindOf("client_name") == Some(Phrase)
    ensures KindOf("client_version") == Some(Phrase) && KindOf("host_address") == Some(Phrase)
    ensures KindOf("host_port") == Some(Number16)
  {
    NamesAreNoSwitches();
    PhrasesAreNoSwitches();
    hide SWITCHES;
  }

  lemma MiddleKinds()
    ensures KindOf("host_names") == Some(HostList) && KindOf("encoding") == Some(Phrase)
    ensures KindOf("colorType") == Some(Color) && KindOf("width") == Some(Number32)
    ensures KindOf("height") == Some(Number32)
  {
    NamesAreNoSwitches();
    PhrasesAreNoSwitches();
    hide SWITCHES;
  }

  lemma FirstRowsAreDeclared()
    ensures |ROWS| == 31 && forall i | 0 <= i < 12 :: KindOf(ROWS[i].key) == Some(ROWS[i].kind)
  {
    hide ROWS;
    RowsZeroToFive();
    RowsSixToEleven();
    FirstKinds();
    MiddleKinds();
    SwitchKinds();
    hide KindOf;
  }

  lemma SwitchKinds()
    ensures KindOf("encryption") == Some(Switch) && KindOf("utf8") == Some(Switch)
  {
  }

  lemma LaterRowsAreDeclared()
    ensures forall i | 12 <= i < |ROWS| :: KindOf(ROWS[i].key) == Some(ROWS[i].kind)
  {
  }

  ghost predicate HasRow(key: string) {
    exists i :: 0 <= i < |ROWS| && ROWS[i].key == key
  }

  lemma RowAt(i: nat, key: string)
    requires i < |ROWS| && ROWS[i].key == key
    ensures HasRow(key)
  {
    hide ROWS;
  }

  lemma FirstRowsByKey()
    ensures HasRow("protocol") && HasRow("client_name") && HasRow("client_version") && HasRow("host_address")
    ensures HasRow("host_port") && HasRow("host_names") && HasRow("encoding") && HasRow("colorType")
    ensures HasRow("width") && HasRow("height") && HasRow("encryption") && HasRow("utf8")
  {
    hide ROWS, HasRow;
    RowsZeroToFive();
    RowsSixToEleven();
    RowAt(0, "protocol"); RowAt(1, "encryption"); RowAt(2, "client_name"); RowAt(3, "client_version");
    RowAt(4, "host_address"); RowAt(5, "host_port"); RowAt(6, "host_names"); RowAt(7, "encoding");
    RowAt(8, "utf8"); RowAt(9, "colorType"); RowAt(10, "width"); RowAt(11, "height");
  }

  lemma SomeSwitchesByKey()
    ensures HasRow("gmcp") && HasRow("msdp") && HasRow("mssp") && HasRow("mxp")
  {
    hide HasRow;
    RowAt(12, "gmcp"); RowAt(13, "msdp"); RowAt(14, "mssp"); RowAt(15, "mxp");
  }

  lemma MoreSwitchesByKey()
    ensures HasRow("mccp2") && HasRow("mccp3") && HasRow("ttype") && HasRow("naws")
    ensures HasRow("sga") && HasRow("linemode")
  {
    hide HasRow;
    RowAt(16, "mccp2"); RowAt(17, "mccp3"); RowAt(18, "ttype"); RowAt(19, "naws"); RowAt(20, "sga");
    RowAt(21, "linemode");
  }

  lemma OtherSwitchesByKey()
    ensures HasRow("force_endline") && HasRow("oob") && HasRow("tls") && HasRow("screen_reader")
    ensures HasRow("mouse_tracking") && HasRow("vt100") && HasRow("osc_color_palette")
    ensures HasRow("proxy") && HasRow("mnes")
  {
    hide HasRow;
    RowAt(22, "force_endline"); RowAt(23, "oob"); RowAt(24, "tls"); RowAt(25, "screen_reader");
    RowAt(26, "mouse_tracking"); RowAt(27, "vt100"); RowAt(28, "osc_color_palette"); RowAt(29, "proxy");
    RowAt(30, "mnes");
  }

  lemma KnownKeysHaveRows(key: string)
    requires KindOf(key).Some?
    ensures HasRow(key)
  {
    hide ROWS, HasRow;
    FirstRowsByKey();
    SomeSwitchesByKey();
    MoreSwitchesByKey();
    OtherSwitchesByKey();
  }

  lemma RowsAreDeclared()
    ensures Declared(ROWS)
  {
    hide ROWS, HasRow, KindOf;
    FirstRowsAreDeclared();
    LaterRowsAreDeclared();
    forall k | KindOf(k).Some? ensures HasRow(k) {
      KnownKeysHaveRows(k);
    }
    RowsOfKeys();
  }

  lemma RowsOfKeys()
    ensures forall k | HasRow(k) :: exists i :: 0 <= i < |ROWS| && ROWS[i].key == k
  {
    hide ROWS;
  }

  /** The value has the type of its field. A colour is read from another key. */
  ghost predicate ReadableAs(kind: Kind, v: Json, members: map<string, Json>) {
    match kind
    case Switch => v.Bool?
    case Phrase => v.Str?
    case ProtocolName => v.Str?
    case Color => "color" in members && members["color"].Int?
    case HostList => forall e | e in Elements(v) :: e.Str?
    case _ => v.Int? || v.Bool?
  }

  /** Every known key has a readable value. */
  ghost predicate Readable(j: Json) {
    j.Obj? ==> forall k | k in j.members && KindOf(k).Some? :: ReadableAs(KindOf(k).value, j.members[k], j.members)
  }

  /** A number of the field's width, apart from the value read by whole turns; truth counts as one. */
  ghost predicate NumberRead(v: Json, field: Option<Scalar>, modulus: nat) {
    && field.Some? && field.value.Number? && -(modulus / 2) <= field.value.n < modulus / 2
    && (v.Int? ==> exists turns :: Apart(field.value.n, v.n, turns, modulus))
    && (v.Bool? ==> field.value.n == if v.b then 1 else 0)
  }

  /** What a readable value makes of a field. */
  ghost predicate StoredAs(kind: Kind, v: Json, members: map<string, Json>,
                           before: Option<Scalar>, after: Option<Scalar>)
    requires ReadableAs(kind, v, members) && !kind.HostList?
  {
    match kind
    case ProtocolName =>
      after == if Text.SameButCase(v.s, "telnet") then Some(Network(Telnet))
               else if Text.SameButCase(v.s, "websocket") then Some(Network(WebSocket))
               else before
    case Switch => after == Some(Flag(v.b))
    case Phrase => after == Some(Words(v.s))
    case Number16 => NumberRead(v, after, 0x1_0000)
    case Number32 => NumberRead(v, after, 0x1_0000_0000)
    case Color =>
      && after.Some? && after.value.Colour? && 0 <= after.value.byte < 256
      && exists turns :: Apart(after.value.byte, members["color"].n, turns, 256)
  }

  /** What an update that does not throw leaves: each field given holds what was given, the texts under
      "host_names" are appended, and the rest is as before. */
  ghost predicate Stores(c: Caps, j: Json, t: Caps)
    requires Readable(j)
  {
    && (forall k | KindOf(k).Some? && !KindOf(k).value.HostList? ::
         if j.Obj? && k in j.members
         then StoredAs(KindOf(k).value, j.members[k], j.members, Lookup(c, k), Lookup(t, k))
         else Lookup(t, k) == Lookup(c, k))
    && (var hosts := if j.Obj? && "host_names" in j.members then Elements(j.members["host_names"]) else [];
        && |t.hostNames| == |c.hostNames| + |hosts| && c.hostNames <= t.hostNames
        && forall i | 0 <= i < |hosts| :: hosts[i].Str? && t.hostNames[|c.hostNames| + i] == hosts[i].s)
    && t.mccp2Active == c.mccp2Active && t.mccp3Active == c.mccp3Active
  }

  lemma {:induction false} StringsOf(es: seq<Json>)
    ensures |Strings(es)| <= |es| && (|Strings(es)| == |es| <==> forall e | e in es :: e.Str?)
    ensures forall i | 0 <= i < |Strings(es)| :: es[i].Str? && Strings(es)[i] == es[i].s
  {
    if es != [] && es[0].Str? {
      StringsOf(es[1..]);
      assert forall e :: e in es <==> e == es[0] || e in es[1..];
    }
  }

  /** The statement of a row throws exactly if its key is there with a value of the wrong type. */
  lemma RowOkIff(r: Row, j: Json)
    requires KindOf(r.key) == Some(r.kind)
    ensures RowOk(r, j) <==> (j.Obj? && r.key in j.members ==> ReadableAs(r.kind, j.members[r.key], j.members))
  {
    hide Elements, Strings, SWITCHES, PHRASES;
    StringsOf(Elements(Field(j, "host_names")));
    ElementsAre(Null);
  }

  /** An update throws exactly if a known key has a value that is not readable. */
  lemma UpdateThrowsIff(c: Caps, j: Json)
    ensures Update(c, j).ok <==> Readable(j)
  {
    RowsAreDeclared();
    RunThrowsIff(c, ROWS, j);
    AllOkIff(ROWS, j);
  }

  lemma AllOkIff(rows: seq<Row>, j: Json)
    requires Declared(rows)
    ensures AllOk(rows, j) <==> Readable(j)
  {
    hide RowOk, ReadableAs, KindOf;
    forall i | 0 <= i < |rows|
      ensures RowOk(rows[i], j) <==>
              (j.Obj? && rows[i].key in j.members ==> ReadableAs(rows[i].kind, j.members[rows[i].key], j.members))
    {
      RowOkIff(rows[i], j);
    }
    if AllOk(rows, j) && j.Obj? {
      forall k | k in j.members && KindOf(k).Some? ensures ReadableAs(KindOf(k).value, j.members[k], j.members) {
        var i :| 0 <= i < |rows| && rows[i].key == k;
        assert RowOk(rows[i], j);
      }
    }
  }

  /** What a statement reads is what a readable value makes of its field. */
  lemma ReadIsStored(r: Row, j: Json, before: Option<Scalar>)
    requires KindOf(r.key) == Some(r.kind) && !r.kind.HostList? && j.Obj? && r.key in j.members
    requires ReadableAs(r.kind, j.members[r.key], j.members)
    ensures var after := if ReadRow(r, j).Sets? then Some(ReadRow(r, j).v) else before;
            StoredAs(r.kind, j.members[r.key], j.members, before, after)
  {
    hide SWITCHES, PHRASES;
    var v := j.members[r.key];
    if r.kind.ProtocolName? {
      Text.IEqualsIff(v.s, "Telnet");
      Text.IEqualsIff(v.s, "WebSocket");
      Text.SameAsLower(v.s, "Telnet", "telnet");
      Text.SameAsLower(v.s, "WebSocket", "websocket");
    } else if r.kind.Color? {
      var n := j.members["color"].n;
      assert Apart(n % 256, n, -(n / 256), 256);
    }
  }

  lemma FieldAfter(c: Caps, rows: seq<Row>, j: Json, i: nat)
    requires Declared(rows) && KeysDistinct(rows) && i < |rows| && !rows[i].kind.HostList?
    ensures var k := rows[i].key; var t := Run(c, rows, j).caps;
            if j.Obj? && k in j.members && AllOk(rows[..i + 1], j)
            then ReadableAs(rows[i].kind, j.members[k], j.members)
                 && StoredAs(rows[i].kind, j.members[k], j.members, Lookup(c, k), Lookup(t, k))
            else Lookup(t, k) == Lookup(c, k)
  {
    hide ReadRow, ReadableAs, StoredAs, KindOf, Run, HostsRead;
    RunField(c, rows, j, i);
    RowOkIff(rows[i], j);
    AbsentKeeps(rows[i], j);
    OkUpTo(rows, i, j);
    if j.Obj? && rows[i].key in j.members && RowOk(rows[i], j) {
      ReadIsStored(rows[i], j, Lookup(c, rows[i].key));
    }
  }

  lemma AbsentKeeps(r: Row, j: Json)
    ensures !(j.Obj? && r.key in j.members) ==> ReadRow(r, j).Keeps?
  {
  }

  lemma OkUpTo(rows: seq<Row>, i: nat, j: Json)
    requires i < |rows|
    ensures AllOk(rows[..i + 1], j) <==> AllOk(rows[..i], j) && RowOk(rows[i], j)
  {
    hide RowOk;
    if AllOk(rows[..i + 1], j) {
      assert rows[..i + 1][i] == rows[i];
      assert forall l | 0 <= l < i :: rows[..i][l] == rows[..i + 1][l];
    }
  }

  lemma HostsAfter(c: Caps, rows: seq<Row>, j: Json)
    requires Declared(rows) && KeysDistinct(rows) && AllOk(rows, j)
    ensures var t := Run(c, rows, j).caps;
            && t.hostNames == c.hostNames + HostsRead(j)
            && |HostsRead(j)| == |Elements(Field(j, "host_names"))|
            && t.mccp2Active == c.mccp2Active && t.mccp3Active == c.mccp3Active
  {
    hide Run, HostsRead, Elements, KindOf, SWITCHES, PHRASES;
    MiddleKinds();
    var h :| 0 <= h < |rows| && rows[h].key == "host_names";
    forall i | 0 <= i < |rows| ensures rows[i].kind.HostList? <==> i == h {
      HostListKey(rows[i].key);
      assert i != h ==> rows[i].key != rows[h].key;
    }
    RunHosts(c, rows, j);
    HostsOnce(rows, j, h);
    assert RowOk(rows[h], j);
  }

  lemma HostListKey(key: string)
    ensures KindOf(key) == Some(HostList) <==> key == "host_names"
  {
  }

  /** Every update that does not throw stores what it was given. */
  lemma UpdateStores(c: Caps, j: Json)
    requires Readable(j)
    ensures Stores(c, j, Update(c, j).caps)
  {
    RowsAreDeclared();
    RowsAreDistinct();
    RunStores(c, ROWS, j);
  }

  lemma RunStores(c: Caps, rows: seq<Row>, j: Json)
    requires Declared(rows) && KeysDistinct(rows) && Readable(j)
    ensures Stores(c, j, Run(c, rows, j).caps)
  {
    hide ReadRow, ReadableAs, StoredAs, KindOf, Run, Elements, Strings, RowOk;
    AllOkIff(rows, j);
    var t := Run(c, rows, j).caps;
    forall k | KindOf(k).Some? && !KindOf(k).value.HostList?
      ensures if j.Obj? && k in j.members
              then StoredAs(KindOf(k).value, j.members[k], j.members, Lookup(c, k), Lookup(t, k))
              else Lookup(t, k) == Lookup(c, k)
    {
      var i :| 0 <= i < |rows| && rows[i].key == k;
      assert AllOk(rows[..i + 1], j);
      FieldAfter(c, rows, j, i);
    }
    HostsAfter(c, rows, j);
    StringsOf(Elements(Field(j, "host_names")));
    ElementsAre(Null);
  }

  /** What serialization shows of a field under its key: switches that are on, the names, an encoding if there is
      one, and numbers and colours other than those of a new object; of the protocol nothing. */
  ghost predicate ShownAs(kind: Kind, k: string, c: Caps, shown: Option<Json>) {
    var v := Lookup(c, k);
    match kind
    case ProtocolName => shown == None
    case Switch => shown == if v == Some(Flag(true)) then Some(Bool(true)) else None
    case Phrase =>
      v.Some? && v.value.Words? &&
      shown == if k == "encoding" && v.value.s == "" then None else Some(Str(v.value.s))
    case Color => v.Some? && v.value.Colour? && shown == if v.value.byte == 0 then None else Some(Int(v.value.byte))
    case HostList =>
      if c.hostNames == [] then shown == None
      else shown.Some? && shown.value.Arr? && |shown.value.items| == |c.hostNames|
           && forall i | 0 <= i < |c.hostNames| :: shown.value.items[i] == Str(c.hostNames[i])
    case _ =>
      v.Some? && v.value.Number? &&
      var usual := if k == "width" then 80 else if k == "height" then 52 else 0;
      shown == if v.value.n == usual then None else Some(Int(v.value.n))
  }

  ghost predicate Shows(c: Caps, m: map<string, Json>) {
    && (forall k | KindOf(k).Some? :: ShownAs(KindOf(k).value, k, c, if k in m then Some(m[k]) else None))
    && (forall k | k in m :: KindOf(k).Some?)
  }

  lemma WritesIsShown(r: Row, c: Caps)
    requires KindOf(r.key) == Some(r.kind)
    requires r.kind.HostList? || (r.key in c.scalars && Fits(r.kind, c.scalars[r.key]))
    ensures ShownAs(r.kind, r.key, c, Writes(r, c))
  {
    hide SWITCHES, PHRASES;
  }

  /** The JSON of an object shows each field as above and has no other keys. */
  lemma WrittenShows(c: Caps, rows: seq<Row>)
    requires Writable(c, rows) && Declared(rows) && KeysDistinct(rows)
    ensures Shows(c, Written(c, rows))
  {
    hide KindOf, ShownAs, Written, Writes;
    var m := Written(c, rows);
    forall k | KindOf(k).Some? ensures ShownAs(KindOf(k).value, k, c, if k in m then Some(m[k]) else None) {
      var i :| 0 <= i < |rows| && rows[i].key == k;
      WrittenMember(c, rows, i);
      WritesIsShown(rows[i], c);
    }
    forall k | k in m ensures KindOf(k).Some? {
      if forall i | 0 <= i < |rows| :: rows[i].key != k {
        WrittenOther(c, rows, k);
      }
    }
  }

  /** The fields of a new object, as they are declared. */
  lemma NewObjectHolds()
    ensures var c := New();
            && Lookup(c, "protocol") == Some(Network(Telnet)) && Lookup(c, "colorType") == Some(Colour(0))
            && Lookup(c, "client_name") == Some(Words("UNKNOWN"))
            && Lookup(c, "client_version") == Some(Words("UNKNOWN"))
            && Lookup(c, "host_address") == Some(Words("UNKNOWN")) && Lookup(c, "encoding") == Some(Words(""))
            && Lookup(c, "host_port") == Some(Number(0))
            && Lookup(c, "width") == Some(Number(80)) && Lookup(c, "height") == Some(Number(52))
            && (forall k | k in SWITCHES :: Lookup(c, k) == Some(Flag(false)))
            && c.hostNames == [] && !c.mccp2Active && !c.mccp3Active
  {
    hide ROWS, Fresh, KeysDistinct, Declared;
    RowsZeroToFive();
    RowsSixToEleven();
    RowsAreDeclared();
    RowsAreDistinct();
    FreshField(ROWS, 0); FreshField(ROWS, 2); FreshField(ROWS, 3); FreshField(ROWS, 4); FreshField(ROWS, 5);
    FreshField(ROWS, 7); FreshField(ROWS, 9); FreshField(ROWS, 10); FreshField(ROWS, 11);
    FreshSwitches(ROWS);
    FreshRest(ROWS);
  }

  lemma FreshSwitches(rows: seq<Row>)
    requires Declared(rows) && KeysDistinct(rows)
    ensures forall k | k in SWITCHES :: Lookup(Fresh(rows), k) == Some(Flag(false))
  {
    hide Fresh;
    forall k | k in SWITCHES ensures Lookup(Fresh(rows), k) == Some(Flag(false)) {
      assert KindOf(k) == Some(Switch);
      var i :| 0 <= i < |rows| && rows[i].key == k;
      FreshField(rows, i);
    }
  }

  lemma {:induction false} FreshRest(rows: seq<Row>)
    ensures Fresh(rows).hostNames == [] && !Fresh(rows).mccp2Active && !Fresh(rows).mccp3Active
  {
    if rows != [] {
      FreshRest(rows[..|rows| - 1]);
    }
  }

  // ---------- The object ----------

  class ProtocolCapabilities {
    var scalars: map<string, Scalar>
    var hostNames: seq<string>
    var mccp2Active: bool
    var mccp3Active: bool

    ghost function View(): Caps
      reads this
    {
      Caps(scalars, hostNames, mccp2Active, mccp3Active)
    }

    constructor ()
      ensures View() == New()
      ensures Lookup(View(), "width") == Some(Number(80)) && Lookup(View(), "height") == Some(Number(52))
    {
      NewObjectHolds();
      var c := Fresh(ROWS);
      scalars, hostNames := c.scalars, c.hostNames;
      mccp2Active, mccp3Active := c.mccp2Active, c.mccp3Active;
    }

    /** Returns false where a value of the wrong type throws; the fields set before the throw stay set. */
    method Deserialize(j: Json) returns (ok: bool)
      modifies this
      ensures Outcome(View(), ok) == Update(old(View()), j)
      ensures ok <==> Readable(j)
      ensures ok ==> Stores(old(View()), j, View())
    {
      ok := Statements(j);
      UpdateThrowsIff(old(View()), j);
      if ok {
        UpdateStores(old(View()), j);
      }
    }

    /** The statements, in order. */
    method Statements(j: Json) returns (ok: bool)
      modifies this
      ensures Outcome(View(), ok) == Update(old(View()), j)
    {
      hide Apply, RowOk, Run;
      var i := 0;
      RunNothing(View(), ROWS, j);
      while i < |ROWS|
        invariant i <= |ROWS|
        invariant Outcome(View(), true) == Run(old(View()), ROWS[..i], j)
      {
        RunOneMore(old(View()), ROWS, i, j);
        ok := Execute(ROWS[i], j);
        if !ok {
          ThrowSkipsRest(old(View()), ROWS, i + 1, j);
          return;
        }
        i := i + 1;
      }
      assert ROWS[..i] == ROWS;
      ok := true;
    }

    /** One statement of the update. */
    method Execute(r: Row, j: Json) returns (ok: bool)
      modifies this
      ensures View() == Apply(old(View()), r, j) && ok == RowOk(r, j)
    {
      hide ReadRow, HostsRead, Elements;
      if r.kind.HostList? {
        ok := AppendHosts(j);
      } else {
        var reading := ReadRow(r, j);
        if reading.Sets? {
          scalars := scalars[r.key := reading.v];
        }
        ok := !reading.Throws?;
      }
    }

    method Serialize() returns (j: Json)
      requires Writable(View(), ROWS)
      ensures j == Obj(Written(View(), ROWS))
      ensures j.Obj? && Shows(View(), j.members)
    {
      RowsAreDeclared();
      RowsAreDistinct();
      WrittenShows(View(), ROWS);
      var members := Members();
      j := Obj(members);
    }

    method Members() returns (m: map<string, Json>)
      requires Writable(View(), ROWS)
      ensures m == Written(View(), ROWS)
    {
      hide Writes;
      m := map[];
      var i := 0;
      while i < |ROWS|
        invariant i <= |ROWS|
        invariant m == Written(View(), ROWS[..i])
      {
        assert ROWS[..i + 1][..i] == ROWS[..i];
        var w := Writes(ROWS[i], Caps(scalars, hostNames, mccp2Active, mccp3Active));
        if w.Some? {
          m := m[ROWS[i].key := w.value];
        }
        i := i + 1;
      }
      assert ROWS[..i] == ROWS;
    }

    method AppendHosts(j: Json) returns (ok: bool)
      modifies this
      ensures View() == old(View()).(hostNames := old(hostNames) + HostsRead(j))
      ensures ok <==> |HostsRead(j)| == |Elements(Field(j, "host_names"))|
    {
      hide Items, Field;
      var items := Iterate(Field(j, "host_names"));
      var names, all := LeadingStrings(items);
      hostNames := hostNames + names;
      ok := all;
    }
  }

  /** The loop over the host names. */
  method LeadingStrings(items: seq<Item>) returns (names: seq<string>, all: bool)
    ensures var es := seq(|items|, i requires 0 <= i < |items| => items[i].value);
            names == Strings(es) && (all <==> |names| == |es|)
  {
    ghost var es := seq(|items|, i requires 0 <= i < |items| => items[i].value);
    names := [];
    all := true;
    var i := 0;
    while i < |items|
      invariant i <= |items| && all
      invariant |names| == i && names + Strings(es[i..]) == Strings(es)
    {
      assert es[i..][0] == items[i].value && es[i..][1..] == es[i + 1..];
      if !items[i].value.Str? {
        all := false;
        return;
      }
      assert names + ([items[i].value.s] + Strings(es[i + 1..])) == (names + [items[i].value.s]) + Strings(es[i + 1..]);
      names := names + [items[i].value.s];
      i := i + 1;
    }
  }

  lemma RunNothing(c: Caps, rows: seq<Row>, j: Json)
    ensures Run(c, rows[..0], j) == Outcome(c, true)
  {
  }

  lemma RunOneMore(c: Caps, rows: seq<Row>, i: nat, j: Json)
    requires i < |rows| && Run(c, rows[..i], j).ok
    ensures Run(c, rows[..i + 1], j) == Outcome(Apply(Run(c, rows[..i], j).caps, rows[i], j), RowOk(rows[i], j))
  {
    hide Apply, RowOk;
    assert rows[..i + 1][..i] == rows[..i];
  }

  lemma {:induction false} ThrowSkipsRest(c: Caps, rows: seq<Row>, n: nat, j: Json)
    requires n <= |rows| && !Run(c, rows[..n], j).ok
    ensures Run(c, rows, j) == Run(c, rows[..n], j)
  {
    if n < |rows| {
      var init := rows[..|rows| - 1];
      assert init[..n] == rows[..n];
      ThrowSkipsRest(c, init, n, j);
    } else {
      assert rows[..n] == rows;
    }
  }
}
