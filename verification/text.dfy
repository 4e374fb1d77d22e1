/** Text output: `printchar` draws one glyph of the font at a screen position
    through `drawLine`, `drawDot` and `drawRectangle`, and `printstr` draws the
    characters of a C string side by side, six pixels apart. */
module Text {
  import opened Bytes
  import opened Events
  import opened Protocol
  import opened Font
  import opened Driver

  /** A point lies in the 5 x 7 cell whose bottom-left corner is (x, y),
      counting the wrap-around of 8-bit coordinates. */
  predicate InCellAt(x: Byte, y: Byte, px: Byte, py: Byte) {
    (px - x) % 256 < CELL_WIDTH && (py - y) % 256 < CELL_HEIGHT
  }

  /** A controller command a glyph drawn at (x, y) in colour c may consist of:
      a line or an unfilled rectangle in that colour with both corners in the
      cell, the fill toggle turned off, or the rectangle's 2 ms wait. */
  predicate CellCommand(x: Byte, y: Byte, c: Color, cmd: Command) {
    match cmd
    case Line(x0, y0, x1, y1, col) => col == c && InCellAt(x, y, x0, y0) && InCellAt(x, y, x1, y1)
    case Rectangle(x0, y0, x1, y1, line, fill) =>
      line == c && fill == c && InCellAt(x, y, x0, y0) && InCellAt(x, y, x1, y1)
    case FillEnable(setting) => !FillOn(setting)
    case Wait(ms) => ms == 2
    case _ => false
  }

  /** The controller commands a primitive stands for at origin (x, y): each
      offset is added to the origin as an 8-bit sum, a dot is a line of one
      point, and a frame is an unfilled rectangle whose border and (unused)
      fill colour are both c. */
  function PrimCommands(x: Byte, y: Byte, p: Prim, c: Color): seq<Command> {
    match p
    case Seg(x0, y0, x1, y1) => [Line(Add8(x, x0), Add8(y, y0), Add8(x, x1), Add8(y, y1), c)]
    case Dot(dx, dy) => [Line(Add8(x, dx), Add8(y, dy), Add8(x, dx), Add8(y, dy), c)]
    case Frame(x0, y0, x1, y1) =>
      [FillEnable(0), Rectangle(Add8(x, x0), Add8(y, y0), Add8(x, x1), Add8(y, y1), c, c), Wait(2)]
  }

  /** The commands of a whole glyph, primitive by primitive. */
  function GlyphCommands(x: Byte, y: Byte, g: seq<Prim>, c: Color): (r: seq<Command>)
    ensures r == [] <==> g == []
    ensures (forall i :: 0 <= i < |g| ==> InCell(g[i])) ==> forall cmd <- r :: CellCommand(x, y, c, cmd)
    ensures (exists cmd <- r :: cmd.Rectangle?) <==> (exists p <- g :: p.Frame?)
  {
    if |g| == 0 then []
    else
      var head := PrimCommands(x, y, g[0], c);
      var rest := GlyphCommands(x, y, g[1..], c);
      assert forall p <- g :: p == g[0] || p in g[1..];
      assert forall p <- g[1..] :: p in g;
      PrimCells(x, y, g[0], c);
      head + rest
  }

  /** A primitive inside the cell yields commands inside the cell, and it
      yields a rectangle exactly when it is a frame. */
  lemma PrimCells(x: Byte, y: Byte, p: Prim, c: Color)
    ensures PrimCommands(x, y, p, c) != []
    ensures InCell(p) ==> forall cmd <- PrimCommands(x, y, p, c) :: CellCommand(x, y, c, cmd)
    ensures (exists cmd <- PrimCommands(x, y, p, c) :: cmd.Rectangle?) <==> p.Frame?
  {
    if InCell(p) {
      match p
      case Seg(x0, y0, x1, y1) =>
        OffsetInCell(x, y, x0, y0);
        OffsetInCell(x, y, x1, y1);
      case Dot(dx, dy) =>
        OffsetInCell(x, y, dx, dy);
      case Frame(x0, y0, x1, y1) =>
        OffsetInCell(x, y, x0, y0);
        OffsetInCell(x, y, x1, y1);
    }
    if p.Frame? {
      var r := PrimCommands(x, y, p, c);
      assert r[1].Rectangle? && r[1] in r;
    }
  }

  /** An offset inside the cell, added to the origin as an 8-bit sum, gives
      a point inside the cell at that origin. */
  lemma OffsetInCell(x: Byte, y: Byte, dx: nat, dy: nat)
    requires InCellPoint(dx, dy)
    ensures InCellAt(x, y, Add8(x, dx), Add8(y, dy))
  {
  }

  /** One primitive drawn at origin (x, y) through the drawing operations. */
  function RenderPrim(x: Byte, y: Byte, p: Prim, c: Color): (t: seq<Event>)
    ensures t != []
    ensures Parse(t) == Some(PrimCommands(x, y, p, c))
  {
    match p
    case Seg(x0, y0, x1, y1) => DrawLine(Add8(x, x0), Add8(y, y0), Add8(x, x1), Add8(y, y1), c)
    case Dot(dx, dy) => DrawDot(Add8(x, dx), Add8(y, dy), c)
    case Frame(x0, y0, x1, y1) =>
      var t := DrawRectangle(Add8(x, x0), Add8(y, y0), Add8(x, x1), Add8(y, y1), c, c, false);
      assert |t| == 14;
      t
  }

  /** A glyph drawn primitive by primitive, in table order. */
  function RenderGlyph(x: Byte, y: Byte, g: seq<Prim>, c: Color): (t: seq<Event>)
    ensures t == [] <==> g == []
    ensures Parse(t) == Some(GlyphCommands(x, y, g, c))
  {
    if |g| == 0 then
      assert Parse([]) == Some([]);
      []
    else
      var head := RenderPrim(x, y, g[0], c);
      var rest := RenderGlyph(x, y, g[1..], c);
      ParseAppend(head, rest);
      head + rest
  }

  /** `printchar(x, y, character, r, g, b)`: the glyph of the character with
      its bottom-left corner at (x, y). Only a space draws nothing; everything
      drawn is in the given colour and inside the character's cell; and the
      only character drawn with rectangles is '%'. */
  function PrintChar(x: Byte, y: Byte, ch: char, c: Color): (t: seq<Event>)
    ensures t == [] <==> ch == ' '
    ensures Parse(t).Some?
    ensures forall cmd <- Parse(t).value :: CellCommand(x, y, c, cmd)
    ensures (exists cmd <- Parse(t).value :: cmd.Rectangle?) <==> ch == '%'
  {
    RenderGlyph(x, y, Glyph(ch), c)
  }

  /** A character without an entry in the table is drawn as the outline of
      its cell: the left, bottom, top and right strokes. */
  lemma UnknownCharIsBox(x: Byte, y: Byte, ch: char, c: Color)
    requires !Supported(ch)
    ensures PrintChar(x, y, ch, c)
         == DrawLine(x, y, x, Add8(y, 6), c)
          + DrawLine(Add8(x, 1), y, Add8(x, 3), y, c)
          + DrawLine(Add8(x, 1), Add8(y, 6), Add8(x, 3), Add8(y, 6), c)
          + DrawLine(Add8(x, 4), y, Add8(x, 4), Add8(y, 6), c)
  {
    assert Glyph(ch) == UnknownBox;
    RenderBox(x, y, c);
  }

  /** The outline box drawn at (x, y): four lines, left, bottom, top, right. */
  lemma RenderBox(x: Byte, y: Byte, c: Color)
    ensures RenderGlyph(x, y, UnknownBox, c)
         == DrawLine(x, y, x, Add8(y, 6), c)
          + DrawLine(Add8(x, 1), y, Add8(x, 3), y, c)
          + DrawLine(Add8(x, 1), Add8(y, 6), Add8(x, 3), Add8(y, 6), c)
          + DrawLine(Add8(x, 4), y, Add8(x, 4), Add8(y, 6), c)
  {
    var g := UnknownBox;
    RenderFour(x, y, g, c);
    assert Add8(x, 0) == x && Add8(y, 0) == y;
    assert RenderPrim(x, y, g[0], c) == DrawLine(x, y, x, Add8(y, 6), c);
    assert RenderPrim(x, y, g[1], c) == DrawLine(Add8(x, 1), y, Add8(x, 3), y, c);
    assert RenderPrim(x, y, g[2], c) == DrawLine(Add8(x, 1), Add8(y, 6), Add8(x, 3), Add8(y, 6), c);
    assert RenderPrim(x, y, g[3], c) == DrawLine(Add8(x, 4), y, Add8(x, 4), Add8(y, 6), c);
  }

  /** A glyph of four primitives is those primitives drawn in order. */
  lemma RenderFour(x: Byte, y: Byte, g: seq<Prim>, c: Color)
    requires |g| == 4
    ensures RenderGlyph(x, y, g, c)
         == RenderPrim(x, y, g[0], c) + RenderPrim(x, y, g[1], c)
          + RenderPrim(x, y, g[2], c) + RenderPrim(x, y, g[3], c)
  {
    var rest := g[1..];
    assert rest[0] == g[1] && rest[1] == g[2] && rest[2] == g[3];
    RenderCons(x, y, g, c);
    RenderThree(x, y, rest, c);
    ConcatAssoc(RenderPrim(x, y, g[0], c), RenderPrim(x, y, g[1], c),
                RenderPrim(x, y, g[2], c), RenderPrim(x, y, g[3], c));
  }

  lemma RenderThree(x: Byte, y: Byte, g: seq<Prim>, c: Color)
    requires |g| == 3
    ensures RenderGlyph(x, y, g, c)
         == RenderPrim(x, y, g[0], c) + RenderPrim(x, y, g[1], c) + RenderPrim(x, y, g[2], c)
  {
    var rest := g[1..];
    assert rest[0] == g[1] && rest[1] == g[2];
    RenderCons(x, y, g, c);
    RenderTwo(x, y, rest, c);
    ConcatAssoc([], RenderPrim(x, y, g[0], c), RenderPrim(x, y, g[1], c), RenderPrim(x, y, g[2], c));
  }

  lemma RenderTwo(x: Byte, y: Byte, g: seq<Prim>, c: Color)
    requires |g| == 2
    ensures RenderGlyph(x, y, g, c) == RenderPrim(x, y, g[0], c) + RenderPrim(x, y, g[1], c)
  {
    RenderCons(x, y, g, c);
    RenderCons(x, y, g[1..], c);
    assert g[1..][1..] == [];
  }

  lemma ConcatAssoc(a: seq<Event>, b: seq<Event>, d: seq<Event>, e: seq<Event>)
    ensures a + (b + d + e) == a + b + d + e
    ensures b + (d + e) == b + d + e
  {
  }

  lemma RenderCons(x: Byte, y: Byte, g: seq<Prim>, c: Color)
    requires |g| > 0
    ensures RenderGlyph(x, y, g, c) == RenderPrim(x, y, g[0], c) + RenderGlyph(x, y, g[1..], c)
  {
  }

  /** `strlen`: the index of the first NUL, or the whole sequence when there
      is none. */
  function StrLen(s: seq<char>): (n: nat)
    ensures n <= |s|
    ensures forall i :: 0 <= i < n ==> s[i] != '\0'
    ensures n < |s| ==> s[n] == '\0'
  {
    if |s| == 0 || s[0] == '\0' then 0 else 1 + StrLen(s[1..])
  }

  /** A string without NUL is measured to its end. */
  lemma StrLenOfNoNul(s: seq<char>)
    requires forall k :: 0 <= k < |s| ==> s[k] != '\0'
    ensures StrLen(s) == |s|
  {
  }

  /** The x coordinate of character i of a string printed at x, cast to the
      8-bit parameter of `printchar`. */
  function CellX(x: Byte, i: nat): (r: Byte)
    ensures (r - x) % 256 == (6 * i) % 256
  {
    Add8(x, 6 * i)
  }

  /** A primitive at offset dx inside the cell of character i lands at
      x + 6 i + dx modulo 256: truncating the cell origin to `uint8_t` and
      then the primitive's coordinate is the same as truncating their sum
      once. */
  lemma CellOffset(x: Byte, i: nat, dx: nat)
    ensures Add8(CellX(x, i), dx) == Add8(x, 6 * i + dx)
  {
    AddTwice(x, 6 * i, dx);
  }

  /** The traces of the iterations of the loop of `printstr`: iteration i
      draws character i of the C string at x + 6 i. */
  function CharTraces(s: seq<char>, x: Byte, y: Byte, c: Color): (ts: seq<seq<Event>>)
    ensures |ts| == StrLen(s)
  {
    seq(StrLen(s), i requires 0 <= i < StrLen(s) => PrintChar(CellX(x, i), y, s[i], c))
  }

  lemma TraceAt(s: seq<char>, x: Byte, y: Byte, c: Color, k: nat)
    requires k < StrLen(s)
    ensures CharTraces(s, x, y, c)[k] == PrintChar(CellX(x, k), y, s[k], c)
  {
  }

  /** Iteration k draws the same for two strings with the same character k. */
  lemma TracesAgree(s: seq<char>, u: seq<char>, x: Byte, y: Byte, c: Color, k: nat)
    requires k < StrLen(s) && k < StrLen(u) && s[k] == u[k]
    ensures CharTraces(s, x, y, c)[k] == CharTraces(u, x, y, c)[k]
  {
  }

  lemma SnocOfAgreeing(ts: seq<seq<Event>>, us: seq<seq<Event>>, last: seq<Event>)
    requires |us| == |ts| + 1 && us[|ts|] == last
    requires forall k :: 0 <= k < |ts| ==> us[k] == ts[k]
    ensures us == ts + [last]
  {
  }

  /** Traces run one after the other. */
  function Concat(ts: seq<seq<Event>>): seq<Event> {
    if |ts| == 0 then [] else ts[0] + Concat(ts[1..])
  }

  lemma {:induction false} ConcatSnoc(ts: seq<seq<Event>>, t: seq<Event>)
    ensures Concat(ts + [t]) == Concat(ts) + t
  {
    if |ts| == 0 {
      assert ts + [t] == [t];
      assert Concat([t][1..]) == [];
    } else {
      assert (ts + [t])[1..] == ts[1..] + [t];
      ConcatSnoc(ts[1..], t);
    }
  }

  /** A command belongs to the cell of one of the characters k with
      lo <= k < hi of a string printed at (x, y). */
  predicate RowCommand(x: Byte, y: Byte, c: Color, lo: nat, hi: nat, cmd: Command) {
    exists k :: lo <= k < hi && CellCommand(CellX(x, k), y, c, cmd)
  }

  /** What the iterations from i on draw: only in the cells of characters i
      and later, in colour c, and nothing exactly when those characters are
      all spaces. */
  lemma {:induction false} RowDraws(s: seq<char>, x: Byte, y: Byte, c: Color, i: nat)
    requires i <= StrLen(s)
    ensures Parse(Concat(CharTraces(s, x, y, c)[i..])).Some?
    ensures forall cmd <- Parse(Concat(CharTraces(s, x, y, c)[i..])).value :: RowCommand(x, y, c, i, StrLen(s), cmd)
    ensures Concat(CharTraces(s, x, y, c)[i..]) == [] <==> forall k :: i <= k < StrLen(s) ==> s[k] == ' '
    decreases StrLen(s) - i
  {
    var ts := CharTraces(s, x, y, c);
    if i < StrLen(s) {
      RowDraws(s, x, y, c, i + 1);
      var head := ts[i];
      var rest := Concat(ts[i + 1..]);
      assert head == PrintChar(CellX(x, i), y, s[i], c);
      assert ts[i..][1..] == ts[i + 1..];
      assert Concat(ts[i..]) == head + rest;
      ParseAppend(head, rest);
      forall cmd <- Parse(head).value
        ensures RowCommand(x, y, c, i, StrLen(s), cmd)
      {
        assert CellCommand(CellX(x, i), y, c, cmd);
      }
    } else {
      assert ts[i..] == [];
      assert Parse([]) == Some([]);
    }
  }

  /** `printstr(input, x, y, r, g, b)`: every character before the
      terminating NUL drawn in turn, character i at x + 6 i. Everything it
      draws lies in the cell of one of those characters and is in colour c,
      and it draws nothing exactly when they are all spaces (so in particular
      for the empty string). The loop counter does not wrap here;
      `LoopAsWritten` is the loop with the 8-bit counter of the source. */
  function PrintStr(s: seq<char>, x: Byte, y: Byte, c: Color): (t: seq<Event>)
    ensures Parse(t).Some?
    ensures forall cmd <- Parse(t).value :: RowCommand(x, y, c, 0, StrLen(s), cmd)
    ensures t == [] <==> forall k :: 0 <= k < StrLen(s) ==> s[k] == ' '
  {
    var ts := CharTraces(s, x, y, c);
    RowDraws(s, x, y, c, 0);
    assert ts[0..] == ts;
    Concat(ts)
  }

  /** Printing a string one character longer prints the shorter string and
      then the new character six pixels further right: `printstr` is a left
      fold of `printchar`. */
  lemma PrintStrSnoc(s: seq<char>, ch: char, x: Byte, y: Byte, c: Color)
    requires forall k :: 0 <= k < |s| ==> s[k] != '\0'
    requires ch != '\0'
    ensures PrintStr(s + [ch], x, y, c) == PrintStr(s, x, y, c) + PrintChar(CellX(x, |s|), y, ch, c)
  {
    var u := s + [ch];
    StrLenOfNoNul(s);
    StrLenOfNoNul(u);
    var ts, us := CharTraces(s, x, y, c), CharTraces(u, x, y, c);
    var last := PrintChar(CellX(x, |s|), y, ch, c);
    assert us == ts + [last] by {
      forall k | 0 <= k < |s| {
        TracesAgree(s, u, x, y, c, k);
      }
      TraceAt(u, x, y, c, |s|);
      SnocOfAgreeing(ts, us, last);
    }
    ConcatSnoc(ts, last);
  }

  /** Nothing after the first NUL is printed. */
  lemma PrintStrStopsAtNul(s: seq<char>, rest: seq<char>, x: Byte, y: Byte, c: Color)
    requires forall k :: 0 <= k < |s| ==> s[k] != '\0'
    ensures PrintStr(s + ['\0'] + rest, x, y, c) == PrintStr(s, x, y, c)
  {
    var u := s + ['\0'] + rest;
    StrLenOfNoNul(s);
    assert u[|s|] == '\0';
    assert forall k :: 0 <= k < |s| ==> u[k] == s[k];
    assert StrLen(u) == |s|;
    var ts, us := CharTraces(s, x, y, c), CharTraces(u, x, y, c);
    forall k | 0 <= k < |s| {
      TracesAgree(s, u, x, y, c, k);
    }
    assert us == ts;
  }

  /** The loop of `printstr` as written, over the traces of its iterations:
      the counter i is a `uint8_t`, so `i++` wraps from 255 to 0, and the
      condition `i < strlen(input)` is evaluated again before every
      iteration. At most `fuel` iterations are run; None means the loop had
      not finished by then. */
  function LoopAsWritten(ts: seq<seq<Event>>, i: Byte, fuel: nat): (r: Option<seq<Event>>)
    ensures r.Some? ==> |ts| < 256
    ensures r.Some? && i <= |ts| ==> r.value == Concat(ts[i..])
    decreases fuel
  {
    if !(i < |ts|) then Some([])
    else if fuel == 0 then None
    else
      var rest := LoopAsWritten(ts, Add8(i, 1), fuel - 1);
      if rest.None? then None else Some(ts[i] + rest.value)
  }

  /** With fewer than 256 iterations the loop as written runs the remaining
      ones in order and finishes. */
  lemma {:induction false} LoopAgrees(ts: seq<seq<Event>>, i: Byte, fuel: nat)
    requires |ts| < 256 && i <= |ts|
    requires fuel >= |ts| - i
    ensures LoopAsWritten(ts, i, fuel) == Some(Concat(ts[i..]))
    decreases |ts| - i
  {
    if i < |ts| {
      assert Add8(i, 1) == i + 1;
      LoopAgrees(ts, Add8(i, 1), fuel - 1);
      assert ts[i..][1..] == ts[i + 1..];
    } else {
      assert ts[i..] == [];
    }
  }

  /** A string with 256 or more characters before its NUL never finishes
      printing with the 8-bit counter. */
  lemma LongStringNeverEnds(s: seq<char>, x: Byte, y: Byte, c: Color, fuel: nat)
    requires StrLen(s) >= 256
    ensures LoopAsWritten(CharTraces(s, x, y, c), 0, fuel) == None
  {
  }

  /** A string shorter than 256 characters is printed by the loop as written
      just as by `PrintStr`, within as many iterations as it has characters. */
  lemma ShortStringAgrees(s: seq<char>, x: Byte, y: Byte, c: Color)
    requires StrLen(s) < 256
    ensures LoopAsWritten(CharTraces(s, x, y, c), 0, StrLen(s)) == Some(PrintStr(s, x, y, c))
  {
    var ts := CharTraces(s, x, y, c);
    LoopAgrees(ts, 0, StrLen(s));
    assert ts[0..] == ts;
  }
}
