/** What the driver does to the outside world, recorded as a trace. The driver
    never reads anything back, so the ordered trace is the whole behaviour of
    every public operation. */
module Events {
  import opened Bytes

  datatype Option<T> = None | Some(value: T)

  /** A colour as callers pass it: red, green and blue channel values, any
      value 0..255, forwarded without validation. */
  datatype Color = Color(red: Byte, green: Byte, blue: Byte)

  const Black := Color(0, 0, 0)

  /** The Arduino pin numbers the driver is bound to by `init`: chip select,
      data/command select, reset, display enable and the eight data lines. */
  datatype Pins = Pins(cs: Byte, dc: Byte, rs: Byte, disf: Byte, d: seq<Byte>)

  type PinMap = p: Pins | |p.d| == 8 witness Pins(0, 0, 0, 0, [0, 0, 0, 0, 0, 0, 0, 0])

  /** All twelve pins, in the order `init` configures them. */
  function PinList(pins: PinMap): (l: seq<Byte>)
    ensures |l| == 12
    ensures l[..4] == [pins.cs, pins.dc, pins.rs, pins.disf] && l[4..] == pins.d
  {
    [pins.cs, pins.dc, pins.rs, pins.disf] + pins.d
  }

  /** One observable step.
      - PinMode, SetPin and Delay are the three Arduino primitives
        `pinMode(pin, OUTPUT)`, `digitalWrite(pin, level)` and `delay(ms)`;
      - Cmd and Data are one byte written to the controller as a command or as
        data, a shorthand for the eleven pin events `write` performs. */
  datatype Event =
    | PinMode(pin: Byte)
    | SetPin(pin: Byte, high: bool)
    | Delay(ms: nat)
    | Cmd(op: Byte)
    | Data(value: Byte)

  predicate IsByteWrite(e: Event) {
    e.Cmd? || e.Data?
  }

  /** A trace at the level of the Arduino primitives only. */
  predicate PinLevel(t: seq<Event>) {
    forall e <- t :: !IsByteWrite(e)
  }

  /** The events of t that f selects, in order. */
  function Keep(t: seq<Event>, f: Event -> bool): (r: seq<Event>)
    ensures |r| <= |t|
  {
    if |t| == 0 then []
    else if f(t[0]) then [t[0]] + Keep(t[1..], f)
    else Keep(t[1..], f)
  }

  lemma {:induction false} KeepAppend(a: seq<Event>, b: seq<Event>, f: Event -> bool)
    ensures Keep(a + b, f) == Keep(a, f) + Keep(b, f)
  {
    if |a| > 0 {
      assert (a + b)[1..] == a[1..] + b;
      KeepAppend(a[1..], b, f);
    } else {
      assert a + b == b;
    }
  }

  /** Nothing f selects is dropped. */
  lemma {:induction false} KeepComplete(t: seq<Event>, f: Event -> bool)
    ensures forall e <- t :: f(e) ==> e in Keep(t, f)
  {
    if |t| > 0 {
      KeepComplete(t[1..], f);
      assert forall e <- t :: e == t[0] || e in t[1..];
    }
  }

  lemma {:induction false} KeepAll(t: seq<Event>, f: Event -> bool)
    requires forall i :: 0 <= i < |t| ==> f(t[i])
    ensures Keep(t, f) == t
  {
    if |t| > 0 {
      KeepAll(t[1..], f);
      assert [t[0]] + t[1..] == t;
    }
  }

  lemma {:induction false} KeepNone(t: seq<Event>, f: Event -> bool)
    requires forall e <- t :: !f(e)
    ensures Keep(t, f) == []
  {
    if |t| > 0 {
      assert t[0] in t;
      KeepNone(t[1..], f);
    }
  }

  predicate OnBus(e: Event) {
    IsByteWrite(e) || e.Delay?
  }

  predicate IsDrive(e: Event) {
    e.SetPin?
  }

  /** What the controller sees of a trace: the byte writes and the waits. */
  function BusView(t: seq<Event>): seq<Event> {
    Keep(t, OnBus)
  }

  /** The pin drives of a byte-level trace, the ones outside its byte writes. */
  function PinDrives(t: seq<Event>): seq<Event> {
    Keep(t, IsDrive)
  }
}
