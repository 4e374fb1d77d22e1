/** Bus transport: one byte written to the controller over the 8-bit parallel
    bus, as the pin events `write` performs, and the refinement of a byte-level
    trace into pin events and back. */
module Bus {
  import opened Bytes
  import opened Events

  /** The data-line events of a write: line i is driven to bit i of b, for
      i = 0..7 in ascending order. */
  function DataLines(d: seq<Byte>, b: Byte): (t: seq<Event>)
    requires |d| == 8
  {
    seq(8, i requires 0 <= i < 8 => SetPin(d[i], Bit(b, i)))
  }

  /** The levels a run of pin drives sets. */
  function Levels(t: seq<Event>): (s: seq<bool>)
    requires forall e <- t :: e.SetPin?
    ensures |s| == |t|
  {
    seq(|t|, i requires 0 <= i < |t| => t[i].high)
  }

  /** `write(data, isCommand)`: DC is set to `!isCommand` (low for a command,
      high for data), CS is driven low, the eight data lines are set, and CS is
      driven high again, which latches the byte. */
  function Write(pins: PinMap, b: Byte, isCommand: bool): (t: seq<Event>)
    ensures |t| == 11
    ensures t[0] == SetPin(pins.dc, !isCommand)
    ensures t[1] == SetPin(pins.cs, false) && t[10] == SetPin(pins.cs, true)
    ensures forall i :: 2 <= i < 10 ==> t[i].SetPin? && t[i].pin == pins.d[i - 2]
    ensures FromBits(Levels(t[2..10])) == b
  {
    var lines := DataLines(pins.d, b);
    var t := [SetPin(pins.dc, !isCommand), SetPin(pins.cs, false)] + lines + [SetPin(pins.cs, true)];
    assert t[2..10] == lines;
    assert Levels(lines) == Bits(b, 8);
    FromBitsOfBits(b, 8);
    t
  }

  /** The first eleven events of w are a complete write on these pins: DC set,
      CS low, the data lines in order, CS high. */
  predicate IsWrite(pins: PinMap, w: seq<Event>) {
    && |w| >= 11
    && w[0].SetPin? && w[0].pin == pins.dc
    && w[1] == SetPin(pins.cs, false)
    && (forall i :: 2 <= i < 10 ==> w[i].SetPin? && w[i].pin == pins.d[i - 2])
    && w[10] == SetPin(pins.cs, true)
  }

  /** The byte write a complete write stands for, as the controller latches it:
      DC low means a command, DC high data, and the byte is the eight data-line
      levels read as binary digits, line 0 least significant. */
  function DecodeWrite(pins: PinMap, w: seq<Event>): (e: Event)
    requires IsWrite(pins, w)
    ensures IsByteWrite(e)
  {
    var v := FromBits(Levels(w[2..10]));
    assert Pow2(8) == 256;
    if w[0].high then Data(v) else Cmd(v)
  }

  /** A write decodes to the byte and the kind it was given. */
  lemma WriteDecodes(pins: PinMap, b: Byte, isCommand: bool, rest: seq<Event>)
    ensures IsWrite(pins, Write(pins, b, isCommand) + rest)
    ensures DecodeWrite(pins, Write(pins, b, isCommand) + rest)
         == (if isCommand then Cmd(b) else Data(b))
  {
    var w := Write(pins, b, isCommand) + rest;
    assert w[2..10] == Write(pins, b, isCommand)[2..10];
  }

  /** One byte-level event refined to pin events. */
  function LowerEvent(pins: PinMap, e: Event): (w: seq<Event>)
    ensures PinLevel(w)
  {
    match e
    case Cmd(op) => Write(pins, op, true)
    case Data(v) => Write(pins, v, false)
    case _ => [e]
  }

  /** A byte-level trace refined to pin events: each Cmd or Data becomes its
      write, everything else is kept. */
  function Lower(pins: PinMap, t: seq<Event>): (w: seq<Event>)
    ensures PinLevel(w)
    ensures |w| >= |t|
  {
    if |t| == 0 then [] else LowerEvent(pins, t[0]) + Lower(pins, t[1..])
  }

  lemma {:induction false} LowerAppend(pins: PinMap, a: seq<Event>, b: seq<Event>)
    ensures Lower(pins, a + b) == Lower(pins, a) + Lower(pins, b)
  {
    if |a| == 0 {
      assert a + b == b;
    } else {
      assert (a + b)[1..] == a[1..] + b;
      LowerAppend(pins, a[1..], b);
    }
  }

  /** A pin-level trace read back at byte level: every complete write becomes
      the Cmd or Data it stands for, every other event is kept. */
  function Raise(pins: PinMap, w: seq<Event>): (t: seq<Event>)
    ensures |t| <= |w|
    decreases |w|
  {
    if |w| == 0 then []
    else if IsWrite(pins, w) then [DecodeWrite(pins, w)] + Raise(pins, w[11..])
    else [w[0]] + Raise(pins, w[1..])
  }

  /** Refining a byte-level trace to pin events and reading it back gives the
      trace back, as long as no pin drive of its own is on the DC pin (such a
      drive could be mistaken for the start of a write). */
  lemma {:induction false} RaiseLower(pins: PinMap, t: seq<Event>)
    requires forall e <- t :: e.SetPin? ==> e.pin != pins.dc
    ensures Raise(pins, Lower(pins, t)) == t
  {
    if |t| > 0 {
      var rest := Lower(pins, t[1..]);
      assert forall e <- t[1..] :: e in t;
      RaiseLower(pins, t[1..]);
      match t[0]
      case Cmd(op) =>
        WriteDecodes(pins, op, true, rest);
        assert (Write(pins, op, true) + rest)[11..] == rest;
      case Data(v) =>
        WriteDecodes(pins, v, false, rest);
        assert (Write(pins, v, false) + rest)[11..] == rest;
      case _ =>
        assert t[0] in t;
        assert ([t[0]] + rest)[1..] == rest;
      assert [t[0]] + t[1..] == t;
    }
  }

  /** A complete write is exactly the write of the byte it decodes to. */
  lemma WriteOfDecode(pins: PinMap, w: seq<Event>)
    requires IsWrite(pins, w)
    ensures LowerEvent(pins, DecodeWrite(pins, w)) == w[..11]
  {
    var s := Levels(w[2..10]);
    var v := FromBits(s);
    assert Pow2(8) == 256;
    BitsOfFromBits(s);
    var isCommand := !w[0].high;
    var u := Write(pins, v, isCommand);
    assert u == LowerEvent(pins, DecodeWrite(pins, w));
    forall i | 2 <= i < 10
      ensures u[i] == w[i]
    {
      assert u[i] == SetPin(pins.d[i - 2], Bit(v, i - 2));
      assert Bits(v, 8)[i - 2] == s[i - 2];
    }
    assert u == w[..11];
  }

  /** Reading a pin-level trace at byte level and refining it again gives the
      pin events back: the byte-level reading loses nothing. */
  lemma {:induction false} LowerRaise(pins: PinMap, w: seq<Event>)
    requires PinLevel(w)
    ensures Lower(pins, Raise(pins, w)) == w
    decreases |w|
  {
    if |w| > 0 {
      if IsWrite(pins, w) {
        assert forall e <- w[11..] :: e in w;
        LowerRaise(pins, w[11..]);
        WriteOfDecode(pins, w);
        assert ([DecodeWrite(pins, w)] + Raise(pins, w[11..]))[1..] == Raise(pins, w[11..]);
        assert w[..11] + w[11..] == w;
      } else {
        assert forall e <- w[1..] :: e in w;
        assert w[0] in w;
        LowerRaise(pins, w[1..]);
        assert ([w[0]] + Raise(pins, w[1..]))[1..] == Raise(pins, w[1..]);
        assert [w[0]] + w[1..] == w;
      }
    }
  }
}
