/** The drawing operations of the SSD1353 driver, each a function from its
    arguments to the trace it emits. Byte writes appear as Cmd and Data events;
    `Bus.Lower` refines them to pin events. */
module Driver {
  import opened Bytes
  import opened Events
  import opened Protocol
  import Bus

  /** The three display-mode codes `displayMode` accepts. */
  predicate IsMode(m: Byte) {
    m in {MODE_OFF, MODE_ON, MODE_INVERSE}
  }

  /** `displayMode(mode)`: one of the three mode codes is sent as a command on
      its own; any other value is ignored without a trace. */
  function DisplayMode(mode: Byte): (t: seq<Event>)
    ensures t == [] <==> !IsMode(mode)
    ensures Parse(t) == Some(if IsMode(mode) then [Single(mode)] else [])
  {
    if mode == MODE_OFF || mode == MODE_ON || mode == MODE_INVERSE then
      assert [Cmd(mode)] == EmitAll([Single(mode)]);
      ParseEmitAll([Single(mode)]);
      [Cmd(mode)]
    else []
  }

  /** `enableFill(enable)`: the fill-enable command with parameter 1 or 0. */
  function EnableFill(enable: bool): (t: seq<Event>)
    ensures Parse(t) == Some([FillEnable(if enable then 1 else 0)])
    ensures FillOn(if enable then 1 else 0) <==> enable
  {
    var t := [Cmd(CMD_FILL_ENABLE), Data(if enable then 1 else 0)];
    assert t == EmitAll([FillEnable(if enable then 1 else 0)]);
    ParseEmitAll([FillEnable(if enable then 1 else 0)]);
    t
  }

  /** `drawRectangle`: the fill toggle for this call, then the rectangle
      command with both corners and the line and fill colours, thirteen byte
      writes in all, followed by a 2 ms wait for the controller. */
  function DrawRectangle(x0: Byte, y0: Byte, x1: Byte, y1: Byte, line: Color, fill: Color, useFill: bool): (t: seq<Event>)
    ensures |t| == 14 && t[13] == Delay(2)
    ensures forall i :: 0 <= i < 13 ==> IsByteWrite(t[i])
    ensures Parse(t) == Some([FillEnable(if useFill then 1 else 0), Rectangle(x0, y0, x1, y1, line, fill), Wait(2)])
  {
    var fillToggle := EnableFill(useFill);
    var rectangle := [Cmd(CMD_DRAW_RECTANGLE),
                      Data(x0), Data(y0), Data(x1), Data(y1),
                      Data(line.blue), Data(line.green), Data(line.red),
                      Data(fill.blue), Data(fill.green), Data(fill.red)];
    var t := fillToggle + rectangle + [Delay(2)];
    var cs := [FillEnable(if useFill then 1 else 0), Rectangle(x0, y0, x1, y1, line, fill), Wait(2)];
    ParseWaitAfterTwo(fillToggle, rectangle, cs);
    assert forall i :: 0 <= i < 13 ==> IsByteWrite(t[i]) by {
      assert forall i :: 0 <= i < 13 ==> t[i] == (fillToggle + rectangle)[i];
    }
    t
  }

  /** `drawLine`: the line command with both end points and the colour, eight
      byte writes and no wait. */
  function DrawLine(x0: Byte, y0: Byte, x1: Byte, y1: Byte, c: Color): (t: seq<Event>)
    ensures |t| == 8 && forall i :: 0 <= i < 8 ==> IsByteWrite(t[i])
    ensures Parse(t) == Some([Line(x0, y0, x1, y1, c)])
  {
    var t := [Cmd(CMD_DRAW_LINE), Data(x0), Data(y0), Data(x1), Data(y1), Data(c.blue), Data(c.green), Data(c.red)];
    assert t == EmitAll([Line(x0, y0, x1, y1, c)]);
    ParseEmitAll([Line(x0, y0, x1, y1, c)]);
    t
  }

  /** `drawDot`: a line whose two end points are the dot. */
  function DrawDot(x: Byte, y: Byte, c: Color): (t: seq<Event>)
    ensures Parse(t) == Some([Line(x, y, x, y, c)])
  {
    DrawLine(x, y, x, y, c)
  }

  /** `fill`: a filled rectangle over the whole 160 x 128 surface, border and
      interior in the same colour. */
  function Fill(c: Color): (t: seq<Event>)
    ensures |t| == 14 && t[13] == Delay(2) && forall i :: 0 <= i < 13 ==> IsByteWrite(t[i])
    ensures Parse(t) == Some([FillEnable(1), Rectangle(0, 0, MAX_X, MAX_Y, c, c), Wait(2)])
  {
    DrawRectangle(0, 0, MAX_X, MAX_Y, c, c, true)
  }

  /** `clear`: the whole surface filled with black. */
  function Clear(): (t: seq<Event>)
    ensures |t| == 14 && t[13] == Delay(2) && forall i :: 0 <= i < 13 ==> IsByteWrite(t[i])
    ensures Parse(t) == Some([FillEnable(1), Rectangle(0, 0, MAX_X, MAX_Y, Black, Black), Wait(2)])
  {
    Fill(Black)
  }

  const REMAP_SETTING: Byte := 0xE0
  const CONTRAST_LEVEL: Byte := 0xFF
  const MASTER_CURRENT_LEVEL: Byte := 0x0F

  /** Every pin of the driver set to output, in the order `init` does it. */
  function ConfigurePins(pins: PinMap): (t: seq<Event>)
    ensures |t| == 12
    ensures forall i :: 0 <= i < 12 ==> t[i] == PinMode(PinList(pins)[i])
  {
    var l := PinList(pins);
    [PinMode(l[0]), PinMode(l[1]), PinMode(l[2]), PinMode(l[3]),
     PinMode(l[4]), PinMode(l[5]), PinMode(l[6]), PinMode(l[7]),
     PinMode(l[8]), PinMode(l[9]), PinMode(l[10]), PinMode(l[11])]
  }

  /** Display enable off, then the reset line pulsed low for 10 ms and given
      10 ms to settle. */
  function ResetPulse(pins: PinMap): seq<Event> {
    [SetPin(pins.disf, false), SetPin(pins.rs, false), Delay(10), SetPin(pins.rs, true), Delay(10)]
  }

  /** Display on with 200 ms to stabilise, remap setting, the three contrast
      channels and the master current. */
  function PowerUp(): seq<Event> {
    [Cmd(CMD_DISPLAY_ON), Delay(200),
     Cmd(CMD_REMAP), Data(REMAP_SETTING),
     Cmd(CMD_CONTRAST_A), Data(CONTRAST_LEVEL),
     Cmd(CMD_CONTRAST_B), Data(CONTRAST_LEVEL),
     Cmd(CMD_CONTRAST_C), Data(CONTRAST_LEVEL),
     Cmd(CMD_MASTER_CURRENT), Data(MASTER_CURRENT_LEVEL)]
  }

  /** The commands and waits `init` sends over the bus, as the controller
      reads them. */
  const InitCommands: seq<Command> := [
    Wait(10), Wait(10),
    Single(CMD_DISPLAY_ON), Wait(200),
    Remap(REMAP_SETTING),
    Contrast(A, CONTRAST_LEVEL), Contrast(B, CONTRAST_LEVEL), Contrast(C, CONTRAST_LEVEL),
    MasterCurrent(MASTER_CURRENT_LEVEL),
    FillEnable(1), Rectangle(0, 0, MAX_X, MAX_Y, Black, Black), Wait(2)
  ]

  /** `init`: configure the pins, reset the panel, power it up, clear it, and
      only then enable the display. */
  function Init(pins: PinMap): (t: seq<Event>)
    ensures |t| == 44 && t[43] == SetPin(pins.disf, true)
    ensures forall i :: 0 <= i < 12 ==> t[i] == PinMode(PinList(pins)[i])
    ensures forall i :: 12 <= i < |t| ==> !t[i].PinMode?
    ensures t[12..17] == [SetPin(pins.disf, false), SetPin(pins.rs, false), Delay(10), SetPin(pins.rs, true), Delay(10)]
    ensures forall i, j :: 0 <= i < |t| - 1 && 0 <= j < |t| && t[i].SetPin? && IsByteWrite(t[j]) ==> i < j
    ensures pins.rs != pins.disf ==> forall i :: 0 <= i < |t| - 1 ==> t[i] != SetPin(pins.disf, true)
    ensures t[29..43] == Clear()
    ensures Parse(BusView(t)) == Some(InitCommands)
    ensures PinDrives(t) == [SetPin(pins.disf, false), SetPin(pins.rs, false), SetPin(pins.rs, true), SetPin(pins.disf, true)]
  {
    var p1, p2, p3, p4, p5 := ConfigurePins(pins), ResetPulse(pins), PowerUp(), Clear(), [SetPin(pins.disf, true)];
    var t := p1 + p2 + p3 + p4 + p5;
    InitShape(pins, t);
    InitOrder(pins, t);
    InitBusView(pins, p1, p2, p3, p4, p5);
    InitPinDrives(pins, p1, p2, p3, p4, p5);
    t
  }

  lemma InitShape(pins: PinMap, t: seq<Event>)
    requires t == ConfigurePins(pins) + ResetPulse(pins) + PowerUp() + Clear() + [SetPin(pins.disf, true)]
    ensures |t| == 44 && t[43] == SetPin(pins.disf, true)
    ensures forall i :: 0 <= i < 12 ==> t[i] == PinMode(PinList(pins)[i])
    ensures forall i :: 12 <= i < |t| ==> !t[i].PinMode?
    ensures t[12..17] == ResetPulse(pins)
    ensures t[29..43] == Clear()
  {
    var p1, p2, p3, p4, p5 := ConfigurePins(pins), ResetPulse(pins), PowerUp(), Clear(), [SetPin(pins.disf, true)];
    ResetFacts(pins, p2);
    PowerUpFacts(p3);
    ClearFacts(p4);
    LayoutOfPieces(p1, p2, p3, p4, p5);
  }

  /** Where each piece of `init` lands in the whole trace. */
  lemma LayoutOfPieces(p1: seq<Event>, p2: seq<Event>, p3: seq<Event>, p4: seq<Event>, p5: seq<Event>)
    requires |p1| == 12 && |p2| == 5 && |p3| == 12 && |p4| == 14 && |p5| == 1
    requires forall e <- p2 :: !e.PinMode?
    requires forall e <- p3 :: !e.PinMode?
    requires forall e <- p4 :: !e.PinMode?
    requires forall e <- p5 :: !e.PinMode?
    ensures var t := p1 + p2 + p3 + p4 + p5;
      && |t| == 44 && t[..12] == p1 && t[12..17] == p2 && t[29..43] == p4 && t[43] == p5[0]
      && forall i :: 12 <= i < |t| ==> !t[i].PinMode?
  {
    var t := p1 + p2 + p3 + p4 + p5;
    var rest := p2 + p3 + p4 + p5;
    assert t == p1 + rest;
    assert t[..12] == p1;
    assert t == (p1 + p2) + (p3 + p4 + p5);
    assert t[12..17] == (p1 + p2)[12..] == p2;
    assert t == (p1 + p2 + p3) + p4 + p5;
    assert t[29..43] == p4;
    forall i | 12 <= i < |t|
      ensures !t[i].PinMode?
    {
      assert t[i] == rest[i - 12];
      assert rest[i - 12] in rest;
    }
  }

  lemma ResetFacts(pins: PinMap, p2: seq<Event>)
    requires p2 == ResetPulse(pins)
    ensures |p2| == 5
    ensures forall e <- p2 :: !e.PinMode? && !IsByteWrite(e)
    ensures pins.rs != pins.disf ==> SetPin(pins.disf, true) !in p2
  {
  }

  lemma PowerUpFacts(p3: seq<Event>)
    requires p3 == PowerUp()
    ensures |p3| == 12
    ensures forall e <- p3 :: !e.PinMode? && !e.SetPin?
  {
  }

  lemma ClearFacts(p4: seq<Event>)
    requires p4 == Clear()
    ensures |p4| == 14
    ensures forall e <- p4 :: !e.PinMode? && !e.SetPin?
  {
    forall e <- p4
      ensures !e.PinMode? && !e.SetPin?
    {
      var k :| 0 <= k < 14 && p4[k] == e;
    }
  }

  lemma ConfigureFacts(pins: PinMap, p1: seq<Event>)
    requires p1 == ConfigurePins(pins)
    ensures forall e <- p1 :: e.PinMode?
  {
    forall e <- p1
      ensures e.PinMode?
    {
      var k :| 0 <= k < 12 && p1[k] == e;
    }
  }

  lemma InitOrder(pins: PinMap, t: seq<Event>)
    requires t == ConfigurePins(pins) + ResetPulse(pins) + PowerUp() + Clear() + [SetPin(pins.disf, true)]
    ensures forall i, j :: 0 <= i < |t| - 1 && 0 <= j < |t| && t[i].SetPin? && IsByteWrite(t[j]) ==> i < j
    ensures pins.rs != pins.disf ==> forall i :: 0 <= i < |t| - 1 ==> t[i] != SetPin(pins.disf, true)
  {
    var p1, p2, p3, p4 := ConfigurePins(pins), ResetPulse(pins), PowerUp(), Clear();
    var front, back, last := p1 + p2, p3 + p4, SetPin(pins.disf, true);
    assert t == front + back + [last];
    assert (forall e <- front :: !IsByteWrite(e))
        && (pins.rs != pins.disf ==> forall e <- front :: e != last) by {
      ConfigureFacts(pins, p1);
      ResetFacts(pins, p2);
    }
    assert forall e <- back :: !e.SetPin? by {
      PowerUpFacts(p3);
      ClearFacts(p4);
    }
    OrderOfPieces(front, back, last);
  }

  /** Pin events in front, no pin drive in back, and last a pin drive absent from front:
      every drive but the last comes before every byte write, and last occurs
      only at the end. */
  lemma OrderOfPieces(front: seq<Event>, back: seq<Event>, last: Event)
    requires forall e <- front :: !IsByteWrite(e)
    requires forall e <- back :: !e.SetPin?
    requires last.SetPin?
    ensures var t := front + back + [last];
      forall i, j :: 0 <= i < |t| - 1 && 0 <= j < |t| && t[i].SetPin? && IsByteWrite(t[j]) ==> i < j
    ensures (forall e <- front :: e != last) ==>
      var t := front + back + [last];
      forall i :: 0 <= i < |t| - 1 ==> t[i] != last
  {
    var t := front + back + [last];
    forall i | |front| <= i < |t| - 1
      ensures !t[i].SetPin?
    {
      assert t[i] == back[i - |front|];
      assert back[i - |front|] in back;
    }
    forall j | 0 <= j < |front|
      ensures !IsByteWrite(t[j]) && t[j] in front
    {
      assert t[j] == front[j];
    }
  }

  lemma InitBusView(pins: PinMap, p1: seq<Event>, p2: seq<Event>, p3: seq<Event>, p4: seq<Event>, p5: seq<Event>)
    requires p1 == ConfigurePins(pins) && p2 == ResetPulse(pins) && p3 == PowerUp() && p4 == Clear()
    requires p5 == [SetPin(pins.disf, true)]
    ensures Parse(BusView(p1 + p2 + p3 + p4 + p5)) == Some(InitCommands)
  {
    assert BusView(p1 + p2 + p3 + p4 + p5) == [Delay(10), Delay(10)] + p3 + p4 by {
      ConfigureOffBus(pins);
      ResetOnBus(pins);
      PowerUpOnBus(p3);
      ClearOnBus(p4);
      EnableOffBus(pins);
      BusOfPieces(p1, p2, p3, p4, p5);
    }
    InitBusCommands([Delay(10), Delay(10)], p3, p4);
  }

  lemma BusOfPieces(p1: seq<Event>, p2: seq<Event>, p3: seq<Event>, p4: seq<Event>, p5: seq<Event>)
    requires Keep(p1, OnBus) == [] && Keep(p2, OnBus) == [Delay(10), Delay(10)]
    requires Keep(p3, OnBus) == p3 && Keep(p4, OnBus) == p4 && Keep(p5, OnBus) == []
    ensures BusView(p1 + p2 + p3 + p4 + p5) == [Delay(10), Delay(10)] + p3 + p4
  {
    var f := OnBus;
    var s2 := p1 + p2;
    var s3 := s2 + p3;
    var s4 := s3 + p4;
    assert Keep(s2, f) == [Delay(10), Delay(10)] by {
      KeepAppend(p1, p2, f);
    }
    assert Keep(s3, f) == [Delay(10), Delay(10)] + p3 by {
      KeepAppend(s2, p3, f);
    }
    assert Keep(s4, f) == [Delay(10), Delay(10)] + p3 + p4 by {
      KeepAppend(s3, p4, f);
    }
    assert Keep(s4 + p5, f) == Keep(s4, f) + [] by {
      KeepAppend(s4, p5, f);
    }
  }

  lemma DrivesOfPieces(p1: seq<Event>, p2: seq<Event>, p3: seq<Event>, p4: seq<Event>, p5: seq<Event>)
    requires Keep(p1, IsDrive) == [] && Keep(p3, IsDrive) == [] && Keep(p4, IsDrive) == []
    ensures PinDrives(p1 + p2 + p3 + p4 + p5) == Keep(p2, IsDrive) + Keep(p5, IsDrive)
  {
    var f := IsDrive;
    var s2 := p1 + p2;
    var s3 := s2 + p3;
    var s4 := s3 + p4;
    assert Keep(s2, f) == Keep(p2, f) by {
      KeepAppend(p1, p2, f);
    }
    assert Keep(s3, f) == Keep(p2, f) by {
      KeepAppend(s2, p3, f);
    }
    assert Keep(s4, f) == Keep(p2, f) by {
      KeepAppend(s3, p4, f);
    }
    KeepAppend(s4, p5, f);
  }

  lemma InitPinDrives(pins: PinMap, p1: seq<Event>, p2: seq<Event>, p3: seq<Event>, p4: seq<Event>, p5: seq<Event>)
    requires p1 == ConfigurePins(pins) && p2 == ResetPulse(pins) && p3 == PowerUp() && p4 == Clear()
    requires p5 == [SetPin(pins.disf, true)]
    ensures PinDrives(p1 + p2 + p3 + p4 + p5)
         == [SetPin(pins.disf, false), SetPin(pins.rs, false), SetPin(pins.rs, true), SetPin(pins.disf, true)]
  {
    assert PinDrives(p1 + p2 + p3 + p4 + p5) == Keep(p2, IsDrive) + Keep(p5, IsDrive) by {
      ConfigureOffBus(pins);
      PowerUpDrivesNothing(p3);
      ClearDrivesNothing(p4);
      DrivesOfPieces(p1, p2, p3, p4, p5);
    }
    ResetDrives(pins);
    EnableOffBus(pins);
  }

  lemma PowerUpOnBus(p3: seq<Event>)
    requires p3 == PowerUp()
    ensures Keep(p3, OnBus) == p3
  {
    KeepAll(p3, OnBus);
  }

  lemma PowerUpDrivesNothing(p3: seq<Event>)
    requires p3 == PowerUp()
    ensures Keep(p3, IsDrive) == []
  {
    KeepNone(p3, IsDrive);
  }

  lemma ClearOnBus(p4: seq<Event>)
    requires p4 == Clear()
    ensures Keep(p4, OnBus) == p4
  {
    KeepAll(p4, OnBus);
  }

  lemma ClearDrivesNothing(p4: seq<Event>)
    requires p4 == Clear()
    ensures Keep(p4, IsDrive) == []
  {
    KeepNone(p4, IsDrive);
  }

  lemma EnableOffBus(pins: PinMap)
    ensures Keep([SetPin(pins.disf, true)], OnBus) == []
    ensures Keep([SetPin(pins.disf, true)], IsDrive) == [SetPin(pins.disf, true)]
  {
    KeepNone([SetPin(pins.disf, true)], OnBus);
    KeepAll([SetPin(pins.disf, true)], IsDrive);
  }

  lemma ConfigureOffBus(pins: PinMap)
    ensures Keep(ConfigurePins(pins), OnBus) == [] && Keep(ConfigurePins(pins), IsDrive) == []
  {
    KeepNone(ConfigurePins(pins), OnBus);
    KeepNone(ConfigurePins(pins), IsDrive);
  }

  /** Of the reset pulse only its two waits reach the controller. */
  lemma ResetOnBus(pins: PinMap)
    ensures Keep(ResetPulse(pins), OnBus) == [Delay(10), Delay(10)]
  {
    var p2 := ResetPulse(pins);
    var r4, r3, r2, r1 := p2[4..], p2[3..], p2[2..], p2[1..];
    assert r4 == [Delay(10)] && r4[1..] == [];
    assert Keep(r4, OnBus) == [Delay(10)];
    assert r3[1..] == r4 && !OnBus(r3[0]);
    assert r2[1..] == r3 && OnBus(r2[0]);
    assert r1[1..] == r2 && !OnBus(r1[0]);
    assert p2[1..] == r1 && !OnBus(p2[0]);
    assert Keep(r3, OnBus) == [Delay(10)];
    assert Keep(r2, OnBus) == [Delay(10), Delay(10)];
    assert Keep(r1, OnBus) == [Delay(10), Delay(10)];
  }

  /** The reset pulse drives display enable low, then reset low and high. */
  lemma ResetDrives(pins: PinMap)
    ensures Keep(ResetPulse(pins), IsDrive) == [SetPin(pins.disf, false), SetPin(pins.rs, false), SetPin(pins.rs, true)]
  {
    var p2 := ResetPulse(pins);
    var r4, r3, r2, r1 := p2[4..], p2[3..], p2[2..], p2[1..];
    assert r4 == [Delay(10)] && r4[1..] == [];
    assert Keep(r4, IsDrive) == [];
    assert r3[1..] == r4 && IsDrive(r3[0]);
    assert r2[1..] == r3 && !IsDrive(r2[0]);
    assert r1[1..] == r2 && IsDrive(r1[0]);
    assert p2[1..] == r1 && IsDrive(p2[0]);
    assert Keep(r3, IsDrive) == [SetPin(pins.rs, true)];
    assert Keep(r2, IsDrive) == [SetPin(pins.rs, true)];
    assert Keep(r1, IsDrive) == [SetPin(pins.rs, false), SetPin(pins.rs, true)];
  }

  lemma InitBusCommands(p2: seq<Event>, p3: seq<Event>, p4: seq<Event>)
    requires p2 == [Delay(10), Delay(10)] && p3 == PowerUp() && p4 == Clear()
    ensures Parse(p2 + p3 + p4) == Some(InitCommands)
  {
    var c2 := [Wait(10), Wait(10)];
    var c3 := PowerUpCommands();
    var c4 := [FillEnable(1), Rectangle(0, 0, MAX_X, MAX_Y, Black, Black), Wait(2)];
    ResetWaits();
    PowerUpParses();
    ParseAppend(p2, p3);
    ParseAppend(p2 + p3, p4);
    InitCommandsSplit();
  }

  lemma InitCommandsSplit()
    ensures [Wait(10), Wait(10)] + PowerUpCommands()
          + [FillEnable(1), Rectangle(0, 0, MAX_X, MAX_Y, Black, Black), Wait(2)] == InitCommands
  {}

  lemma ResetWaits()
    ensures Parse([Delay(10), Delay(10)]) == Some([Wait(10), Wait(10)])
  {
    var c2 := [Wait(10), Wait(10)];
    assert EmitAll(c2) == [Delay(10), Delay(10)] by {
      assert EmitAll(c2[1..]) == [Delay(10)];
    }
    ParseEmitAll(c2);
  }

  /** The commands of `PowerUp`, as the controller reads them. */
  function PowerUpCommands(): seq<Command> {
    [Single(CMD_DISPLAY_ON), Wait(200), Remap(REMAP_SETTING),
     Contrast(A, CONTRAST_LEVEL), Contrast(B, CONTRAST_LEVEL), Contrast(C, CONTRAST_LEVEL),
     MasterCurrent(MASTER_CURRENT_LEVEL)]
  }

  lemma PowerUpParses()
    ensures Parse(PowerUp()) == Some(PowerUpCommands())
  {
    PowerUpEmits();
    ParseEmitAll(PowerUpCommands());
  }

  lemma PowerUpEmits()
    ensures EmitAll(PowerUpCommands()) == PowerUp()
  {
    var cs := PowerUpCommands();
    var head, tail := cs[..3], cs[3..];
    assert cs == head + tail;
    EmitAllAppend(head, tail);
    assert EmitAll(head) == PowerUp()[..4] by {
      assert head == [Single(CMD_DISPLAY_ON), Wait(200), Remap(REMAP_SETTING)];
      EmitAllThree(head[0], head[1], head[2]);
    }
    assert EmitAll(tail) == PowerUp()[4..] by {
      var t2 := tail[2..];
      assert t2 == [Contrast(C, CONTRAST_LEVEL), MasterCurrent(MASTER_CURRENT_LEVEL)];
      assert EmitAll(t2) == [Cmd(CMD_CONTRAST_C), Data(CONTRAST_LEVEL), Cmd(CMD_MASTER_CURRENT), Data(MASTER_CURRENT_LEVEL)] by {
        assert t2[1..][1..] == [];
      }
      assert tail[..2] == [Contrast(A, CONTRAST_LEVEL), Contrast(B, CONTRAST_LEVEL)];
      assert EmitAll(tail[..2]) == [Cmd(CMD_CONTRAST_A), Data(CONTRAST_LEVEL), Cmd(CMD_CONTRAST_B), Data(CONTRAST_LEVEL)] by {
        assert tail[..2][1..][1..] == [];
      }
      assert tail == tail[..2] + t2;
      EmitAllAppend(tail[..2], t2);
    }
    assert PowerUp() == PowerUp()[..4] + PowerUp()[4..];
  }

  /** Every pin `init` drives outside its byte writes is the reset or the
      display-enable pin. */
  lemma InitDrives(pins: PinMap)
    ensures forall e <- Init(pins) :: e.SetPin? ==> e.pin == pins.rs || e.pin == pins.disf
  {
    var t := Init(pins);
    KeepComplete(t, IsDrive);
  }

  /** At the level of the pins, `init` configures every pin as an output
      before it first drives it, and ends by driving display enable high. */
  lemma InitConfiguresBeforeDriving(pins: PinMap)
    ensures var w := Bus.Lower(pins, Init(pins));
      && PinLevel(w)
      && |w| > 12
      && (forall i :: 0 <= i < 12 ==> w[i] == PinMode(PinList(pins)[i]))
      && (forall j :: 0 <= j < |w| && w[j].SetPin? ==> exists i :: 0 <= i < j && w[i] == PinMode(w[j].pin))
      && w[|w| - 1] == SetPin(pins.disf, true)
  {
    InitDrives(pins);
    ConfiguredFirst(pins, Init(pins));
  }

  /** A trace that starts by configuring the twelve pins, drives outside its
      byte writes only reset and display enable, and ends by driving display
      enable high keeps all three properties once refined to pin events. */
  lemma ConfiguredFirst(pins: PinMap, t: seq<Event>)
    requires |t| > 12 && t[|t| - 1] == SetPin(pins.disf, true)
    requires forall i :: 0 <= i < 12 ==> t[i] == PinMode(PinList(pins)[i])
    requires forall e <- t :: e.SetPin? ==> e.pin == pins.rs || e.pin == pins.disf
    ensures var w := Bus.Lower(pins, t);
      && PinLevel(w)
      && |w| > 12
      && (forall i :: 0 <= i < 12 ==> w[i] == PinMode(PinList(pins)[i]))
      && (forall j :: 0 <= j < |w| && w[j].SetPin? ==> exists i :: 0 <= i < j && w[i] == PinMode(w[j].pin))
      && w[|w| - 1] == SetPin(pins.disf, true)
  {
    var w := Bus.Lower(pins, t);
    var l := PinList(pins);
    assert PinLevel(t[..12]) by {
      forall e <- t[..12] ensures !IsByteWrite(e) {
        var i :| 0 <= i < 12 && t[..12][i] == e;
      }
    }
    LowerKeepsPinLevelPrefix(pins, t, 12);
    assert forall i :: 0 <= i < 12 ==> w[i] == PinMode(l[i]) by {
      forall i | 0 <= i < 12 ensures w[i] == PinMode(l[i]) {
        assert w[i] == w[..12][i] == t[..12][i];
      }
    }
    LowerKeepsLastDrive(pins, t);
    LowerDrivesOnlyPins(pins, t);
    forall j | 0 <= j < |w| && w[j].SetPin?
      ensures exists i :: 0 <= i < j && w[i] == PinMode(w[j].pin)
    {
      assert w[j] in w;
      var p := w[j].pin;
      var k :| 0 <= k < 12 && l[k] == p;
      assert w[k] == PinMode(p);
    }
  }

  /** Refinement leaves a pin-level prefix of a trace in place. */
  lemma LowerKeepsPinLevelPrefix(pins: PinMap, t: seq<Event>, n: nat)
    requires n < |t| && PinLevel(t[..n])
    ensures |Bus.Lower(pins, t)| > n && Bus.Lower(pins, t)[..n] == t[..n]
  {
    var first, rest := t[..n], t[n..];
    assert t == first + rest;
    Bus.LowerAppend(pins, first, rest);
    LowerUnchanged(pins, first);
  }

  /** Refinement leaves a final pin drive last. */
  lemma LowerKeepsLastDrive(pins: PinMap, t: seq<Event>)
    requires |t| > 0 && t[|t| - 1].SetPin?
    ensures Bus.Lower(pins, t)[|Bus.Lower(pins, t)| - 1] == t[|t| - 1]
  {
    var front, last := t[..|t| - 1], [t[|t| - 1]];
    assert t == front + last;
    Bus.LowerAppend(pins, front, last);
    assert Bus.Lower(pins, last) == last;
  }

  /** The pin-level trace of `init` reads back as its byte-level trace when
      neither the reset nor the display-enable pin is the DC pin. */
  lemma InitReadsBack(pins: PinMap)
    requires pins.rs != pins.dc && pins.disf != pins.dc
    ensures Bus.Raise(pins, Bus.Lower(pins, Init(pins))) == Init(pins)
  {
    InitDrives(pins);
    Bus.RaiseLower(pins, Init(pins));
  }

  lemma {:induction false} LowerUnchanged(pins: PinMap, t: seq<Event>)
    requires PinLevel(t)
    ensures Bus.Lower(pins, t) == t
  {
    if |t| > 0 {
      assert t[0] in t;
      assert forall e <- t[1..] :: e in t;
      LowerUnchanged(pins, t[1..]);
      assert [t[0]] + t[1..] == t;
    }
  }

  /** Refinement drives no pin other than the driver's own. */
  lemma {:induction false} LowerDrivesOnlyPins(pins: PinMap, t: seq<Event>)
    requires forall e <- t :: e.SetPin? ==> e.pin in PinList(pins)
    ensures forall e <- Bus.Lower(pins, t) :: e.SetPin? ==> e.pin in PinList(pins)
  {
    if |t| > 0 {
      assert t[0] in t;
      assert forall e <- t[1..] :: e in t;
      LowerDrivesOnlyPins(pins, t[1..]);
      var head := Bus.LowerEvent(pins, t[0]);
      assert forall e <- head :: e.SetPin? ==> e.pin in PinList(pins) by {
        if IsByteWrite(t[0]) {
          forall i | 0 <= i < |head| && head[i].SetPin?
            ensures head[i].pin in PinList(pins)
          {
            if 2 <= i < 10 {
              assert PinList(pins)[4 + (i - 2)] == head[i].pin;
            } else {
              assert head[i].pin in {pins.dc, pins.cs};
            }
          }
        }
      }
    }
  }
}
