/** The part of the SSD1353 command set the driver uses, read off the byte
    stream: every command is an opcode byte written as a command followed by a
    fixed number of parameter bytes written as data. `Parse` is the
    controller's reading of a stream; `Emit` writes one command. */
module Protocol {
  import opened Bytes
  import opened Events

  const CMD_DRAW_LINE: Byte := 0x21
  const CMD_DRAW_RECTANGLE: Byte := 0x22
  const CMD_FILL_ENABLE: Byte := 0x26
  const CMD_CONTRAST_A: Byte := 0x81
  const CMD_CONTRAST_B: Byte := 0x82
  const CMD_CONTRAST_C: Byte := 0x83
  const CMD_MASTER_CURRENT: Byte := 0x87
  const CMD_REMAP: Byte := 0xA0
  const CMD_DISPLAY_ON: Byte := 0xAF

  /** The display-mode codes of SSD1353.h. */
  const MODE_OFF: Byte := 0xA6
  const MODE_ON: Byte := 0xA4
  const MODE_INVERSE: Byte := 0xA7

  /** The full extent of the 160 x 128 surface. */
  const MAX_X: Byte := 159
  const MAX_Y: Byte := 127

  datatype Channel = A | B | C

  /** A controller command together with its parameters, or a wait between
      commands. */
  datatype Command =
    | Single(op: Byte)
    | Remap(setting: Byte)
    | Contrast(channel: Channel, level: Byte)
    | MasterCurrent(level: Byte)
    | FillEnable(setting: Byte)
    | Rectangle(x0: Byte, y0: Byte, x1: Byte, y1: Byte, line: Color, fill: Color)
    | Line(x0: Byte, y0: Byte, x1: Byte, y1: Byte, color: Color)
    | Wait(ms: nat)

  /** Bit 0 of the fill-enable parameter switches rectangle filling on. */
  predicate FillOn(setting: Byte) {
    setting % 2 == 1
  }

  /** How many parameter bytes follow each opcode; None for an opcode outside
      the set the driver uses. */
  function Arity(op: Byte): Option<nat> {
    if op == CMD_DRAW_LINE then Some(7)
    else if op == CMD_DRAW_RECTANGLE then Some(10)
    else if op in {CMD_FILL_ENABLE, CMD_CONTRAST_A, CMD_CONTRAST_B, CMD_CONTRAST_C,
                   CMD_MASTER_CURRENT, CMD_REMAP} then Some(1)
    else if op in {CMD_DISPLAY_ON, MODE_OFF, MODE_ON, MODE_INVERSE} then Some(0)
    else None
  }

  function ContrastOp(ch: Channel): Byte {
    match ch
    case A => CMD_CONTRAST_A
    case B => CMD_CONTRAST_B
    case C => CMD_CONTRAST_C
  }

  /** A parameterless command must be one the controller knows. */
  predicate WellFormed(c: Command) {
    c.Single? ==> Arity(c.op) == Some(0)
  }

  predicate AllWellFormed(cs: seq<Command>) {
    forall c <- cs :: WellFormed(c)
  }

  /** The command an opcode and its parameters stand for. Colours travel as
      blue, green, red; a rectangle's line colour comes before its fill
      colour. */
  function Build(op: Byte, p: seq<Byte>): (c: Command)
    requires Arity(op) == Some(|p|)
    ensures WellFormed(c)
  {
    if op == CMD_DRAW_LINE then Line(p[0], p[1], p[2], p[3], Color(p[6], p[5], p[4]))
    else if op == CMD_DRAW_RECTANGLE then
      Rectangle(p[0], p[1], p[2], p[3], Color(p[6], p[5], p[4]), Color(p[9], p[8], p[7]))
    else if op == CMD_FILL_ENABLE then FillEnable(p[0])
    else if op == CMD_CONTRAST_A then Contrast(A, p[0])
    else if op == CMD_CONTRAST_B then Contrast(B, p[0])
    else if op == CMD_CONTRAST_C then Contrast(C, p[0])
    else if op == CMD_MASTER_CURRENT then MasterCurrent(p[0])
    else if op == CMD_REMAP then Remap(p[0])
    else Single(op)
  }

  /** The parameter bytes of a command in the order they are sent: corners
      before colours, each colour blue, green, red. */
  function Params(c: Command): seq<Byte> {
    match c
    case Rectangle(x0, y0, x1, y1, l, f) => [x0, y0, x1, y1, l.blue, l.green, l.red, f.blue, f.green, f.red]
    case Line(x0, y0, x1, y1, col) => [x0, y0, x1, y1, col.blue, col.green, col.red]
    case Single(_) => []
    case Remap(s) => [s]
    case Contrast(_, l) => [l]
    case MasterCurrent(l) => [l]
    case FillEnable(s) => [s]
    case Wait(_) => []
  }

  /** The events that transmit one command. */
  function Emit(c: Command): (t: seq<Event>)
  {
    match c
    case Single(op) => [Cmd(op)]
    case Remap(s) => [Cmd(CMD_REMAP), Data(s)]
    case Contrast(ch, l) => [Cmd(ContrastOp(ch)), Data(l)]
    case MasterCurrent(l) => [Cmd(CMD_MASTER_CURRENT), Data(l)]
    case FillEnable(s) => [Cmd(CMD_FILL_ENABLE), Data(s)]
    case Rectangle(x0, y0, x1, y1, l, f) =>
      [Cmd(CMD_DRAW_RECTANGLE), Data(x0), Data(y0), Data(x1), Data(y1),
       Data(l.blue), Data(l.green), Data(l.red), Data(f.blue), Data(f.green), Data(f.red)]
    case Line(x0, y0, x1, y1, col) =>
      [Cmd(CMD_DRAW_LINE), Data(x0), Data(y0), Data(x1), Data(y1),
       Data(col.blue), Data(col.green), Data(col.red)]
    case Wait(ms) => [Delay(ms)]
  }

  function EmitAll(cs: seq<Command>): seq<Event> {
    if |cs| == 0 then [] else Emit(cs[0]) + EmitAll(cs[1..])
  }

  predicate AllData(t: seq<Event>) {
    forall e <- t :: e.Data?
  }

  function Values(t: seq<Event>): (p: seq<Byte>)
    requires AllData(t)
    ensures |p| == |t|
    ensures forall i :: 0 <= i < |t| ==> t[i] == Data(p[i])
  {
    if |t| == 0 then [] else [t[0].value] + Values(t[1..])
  }

  function Prepend(c: Command, r: Option<seq<Command>>): Option<seq<Command>> {
    if r.Some? then Some([c] + r.value) else None
  }

  /** The controller's reading of a byte-level stream: a wait becomes Wait, an
      opcode takes its parameter bytes with it. None when the stream holds an
      unknown opcode, a missing parameter, a parameter without a command, or a
      pin event. */
  function Parse(t: seq<Event>): Option<seq<Command>>
    decreases |t|
  {
    if |t| == 0 then Some([])
    else if t[0].Delay? then Prepend(Wait(t[0].ms), Parse(t[1..]))
    else if t[0].Cmd? && Arity(t[0].op).Some? then
      var n := Arity(t[0].op).value;
      if n < |t| && AllData(t[1..n + 1]) then
        Prepend(Build(t[0].op, Values(t[1..n + 1])), Parse(t[n + 1..]))
      else None
    else None
  }

  /** The parameter bytes of c, and its opcode when it is not a wait. */
  lemma EmitShape(c: Command)
    requires WellFormed(c) && !c.Wait?
    ensures |Emit(c)| >= 1 && Emit(c)[0].Cmd?
    ensures Arity(Emit(c)[0].op) == Some(|Emit(c)| - 1)
    ensures AllData(Emit(c)[1..])
    ensures Build(Emit(c)[0].op, Values(Emit(c)[1..])) == c
  {
    var e := Emit(c);
    EmitParameters(c);
    ValuesOf(Params(c), e[1..]);
    BuildOfEmit(c);
  }

  /** The parameter bytes of a command, in the order `Emit` sends them. */
  lemma EmitParameters(c: Command)
    requires !c.Wait?
    ensures |Emit(c)| == |Params(c)| + 1 && Emit(c)[0].Cmd?
    ensures forall i :: 0 <= i < |Params(c)| ==> Emit(c)[1..][i] == Data(Params(c)[i])
  {
  }

  /** The opcode of a command and its parameter bytes build the command back. */
  lemma BuildOfEmit(c: Command)
    requires WellFormed(c) && !c.Wait?
    ensures Arity(Emit(c)[0].op) == Some(|Params(c)|)
    ensures Build(Emit(c)[0].op, Params(c)) == c
  {
    if c.Contrast? {
      match c.channel
      case A =>
      case B =>
      case C =>
    }
  }

  /** Parameter bytes read back as the values they carry. */
  lemma {:induction false} ValuesOf(p: seq<Byte>, t: seq<Event>)
    requires |t| == |p| && forall i :: 0 <= i < |t| ==> t[i] == Data(p[i])
    ensures AllData(t) && Values(t) == p
  {
    if |t| > 0 {
      ValuesOf(p[1..], t[1..]);
      assert [p[0]] + p[1..] == p;
    }
  }

  lemma ParseEmit(c: Command, rest: seq<Event>)
    requires WellFormed(c)
    ensures Parse(Emit(c) + rest) == Prepend(c, Parse(rest))
  {
    var e := Emit(c);
    var t := e + rest;
    if c.Wait? {
      assert t[1..] == rest;
    } else {
      EmitShape(c);
      var n := |e| - 1;
      assert t[1..n + 1] == e[1..];
      assert t[n + 1..] == rest;
    }
  }

  /** Every list of well-formed commands is read back from its emission. */
  lemma {:induction false} ParseEmitAll(cs: seq<Command>)
    requires AllWellFormed(cs)
    ensures Parse(EmitAll(cs)) == Some(cs)
  {
    if |cs| > 0 {
      assert cs[0] in cs;
      assert forall c <- cs[1..] :: c in cs;
      var rest := EmitAll(cs[1..]);
      ParseEmitAll(cs[1..]);
      ParseEmit(cs[0], rest);
      assert EmitAll(cs) == Emit(cs[0]) + rest;
      assert [cs[0]] + cs[1..] == cs;
    }
  }

  lemma EmitBuild(op: Byte, t: seq<Event>)
    requires AllData(t) && Arity(op) == Some(|t|)
    ensures Emit(Build(op, Values(t))) == [Cmd(op)] + t
  {
    if op == CMD_DRAW_LINE {
      EmitBuildLine(t);
    } else if op == CMD_DRAW_RECTANGLE {
      EmitBuildRectangle(t);
    } else {
      EmitBuildShort(op, t);
    }
  }

  lemma EmitBuildShort(op: Byte, t: seq<Event>)
    requires AllData(t) && Arity(op) == Some(|t|)
    requires op != CMD_DRAW_LINE && op != CMD_DRAW_RECTANGLE
    ensures Emit(Build(op, Values(t))) == [Cmd(op)] + t
  {
    var p := Values(t);
    if |t| == 1 {
      assert t == [Data(p[0])] && p == [p[0]];
      EmitBuildOne(op, p[0]);
    } else {
      assert t == [] && p == [];
      EmitBuildNone(op);
    }
  }

  lemma EmitBuildNone(op: Byte)
    requires Arity(op) == Some(0)
    ensures Emit(Build(op, [])) == [Cmd(op)]
  {
  }

  lemma EmitBuildOne(op: Byte, v: Byte)
    requires Arity(op) == Some(1)
    ensures Emit(Build(op, [v])) == [Cmd(op), Data(v)]
  {
    if op == CMD_CONTRAST_A {
    } else if op == CMD_CONTRAST_B {
    } else if op == CMD_CONTRAST_C {
    }
  }

  lemma EmitBuildLine(t: seq<Event>)
    requires AllData(t) && |t| == 7
    ensures Emit(Build(CMD_DRAW_LINE, Values(t))) == [Cmd(CMD_DRAW_LINE)] + t
  {
    var p := Values(t);
    var c := Line(p[0], p[1], p[2], p[3], Color(p[6], p[5], p[4]));
    assert Params(c) == p;
    EmitParameters(c);
    EmitSplits(c, t);
  }

  lemma EmitBuildRectangle(t: seq<Event>)
    requires AllData(t) && |t| == 10
    ensures Emit(Build(CMD_DRAW_RECTANGLE, Values(t))) == [Cmd(CMD_DRAW_RECTANGLE)] + t
  {
    var p := Values(t);
    var c := Rectangle(p[0], p[1], p[2], p[3], Color(p[6], p[5], p[4]), Color(p[9], p[8], p[7]));
    assert Params(c) == p;
    EmitParameters(c);
    EmitSplits(c, t);
  }

  /** A command is emitted as its opcode followed by t when its parameter
      bytes are the events of t. */
  lemma EmitSplits(c: Command, t: seq<Event>)
    requires |Emit(c)| == |t| + 1
    requires forall i :: 0 <= i < |t| ==> Emit(c)[1..][i] == t[i]
    ensures Emit(c) == [Emit(c)[0]] + t
  {
    assert Emit(c)[1..] == t;
  }

  /** A stream that parses is exactly the emission of what it parses to: the
      reading is faithful, nothing is dropped or reordered. */
  lemma {:induction false} ParseFaithful(t: seq<Event>)
    requires Parse(t).Some?
    ensures AllWellFormed(Parse(t).value)
    ensures EmitAll(Parse(t).value) == t
    decreases |t|
  {
    if |t| > 0 {
      var cs := Parse(t).value;
      if t[0].Delay? {
        var rest := t[1..];
        assert Parse(t) == Prepend(Wait(t[0].ms), Parse(rest));
        ParseFaithful(rest);
        ParseStep(Wait(t[0].ms), rest, Parse(rest).value);
        assert [t[0]] + rest == t;
      } else {
        var n := Arity(t[0].op).value;
        var rest := t[n + 1..];
        assert Parse(t) == Prepend(Build(t[0].op, Values(t[1..n + 1])), Parse(rest));
        ParseFaithful(rest);
        CommandStep(t, n, Parse(rest).value);
      }
    }
  }

  lemma CommandStep(t: seq<Event>, n: nat, rs: seq<Command>)
    requires |t| > n && t[0].Cmd? && Arity(t[0].op) == Some(n) && AllData(t[1..n + 1])
    requires AllWellFormed(rs) && EmitAll(rs) == t[n + 1..]
    ensures AllWellFormed([Build(t[0].op, Values(t[1..n + 1]))] + rs)
    ensures EmitAll([Build(t[0].op, Values(t[1..n + 1]))] + rs) == t
  {
    var params, rest := t[1..n + 1], t[n + 1..];
    var c := Build(t[0].op, Values(params));
    assert Emit(c) == [t[0]] + params by {
      EmitBuild(t[0].op, params);
    }
    SplitAfterHead(t, n);
    ParseStep(c, rest, rs);
  }

  lemma SplitAfterHead(t: seq<Event>, n: nat)
    requires n < |t|
    ensures [t[0]] + t[1..n + 1] + t[n + 1..] == t
  {
    assert [t[0]] + t[1..n + 1] == t[..n + 1];
  }

  lemma ParseStep(c: Command, rest: seq<Event>, rs: seq<Command>)
    requires WellFormed(c) && AllWellFormed(rs) && EmitAll(rs) == rest
    ensures AllWellFormed([c] + rs)
    ensures EmitAll([c] + rs) == Emit(c) + rest
  {
    assert ([c] + rs)[1..] == rs;
  }

  lemma {:induction false} EmitAllAppend(a: seq<Command>, b: seq<Command>)
    ensures EmitAll(a + b) == EmitAll(a) + EmitAll(b)
  {
    if |a| == 0 {
      assert a + b == b;
    } else {
      assert (a + b)[1..] == a[1..] + b;
      EmitAllAppend(a[1..], b);
    }
  }

  /** A three-command list is emitted command by command. */
  lemma EmitAllThree(a: Command, b: Command, c: Command)
    ensures EmitAll([a, b, c]) == Emit(a) + Emit(b) + Emit(c)
  {
    var cs := [a, b, c];
    assert cs[1..] == [b, c] && cs[1..][1..] == [c] && [c][1..] == [];
    assert EmitAll([c]) == Emit(c);
    assert EmitAll([b, c]) == Emit(b) + Emit(c);
  }

  /** Two commands followed by a 2 ms wait are read back as those three. */
  lemma ParseWaitAfterTwo(a: seq<Event>, b: seq<Event>, cs: seq<Command>)
    requires |cs| == 3 && AllWellFormed(cs) && cs[2] == Wait(2)
    requires a == Emit(cs[0]) && b == Emit(cs[1])
    ensures Parse(a + b + [Delay(2)]) == Some(cs)
  {
    EmitAllThree(cs[0], cs[1], cs[2]);
    assert cs == [cs[0], cs[1], cs[2]];
    ParseEmitAll(cs);
  }

  /** Two streams that parse can be read one after the other. */
  lemma ParseAppend(a: seq<Event>, b: seq<Event>)
    requires Parse(a).Some? && Parse(b).Some?
    ensures Parse(a + b) == Some(Parse(a).value + Parse(b).value)
  {
    var ca := Parse(a).value;
    var cb := Parse(b).value;
    ParseFaithful(a);
    ParseFaithful(b);
    EmitAllAppend(ca, cb);
    ParseEmitAll(ca + cb);
  }
}
