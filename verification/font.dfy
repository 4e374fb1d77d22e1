/** The built-in 5 x 7 vector font: every character is an ordered list of
    drawing primitives whose offsets are relative to the glyph's bottom-left
    corner. The table is total: a character without an entry of its own gets
    the outline box. */
module Font {

  /** One call of the glyph renderer, with offsets from the glyph origin:
      - Seg: `drawLine` from (x0, y0) to (x1, y1);
      - Dot: `drawDot` at (x, y);
      - Frame: an unfilled `drawRectangle` with corners (x0, y0) and (x1, y1). */
  datatype Prim =
    | Seg(x0: nat, y0: nat, x1: nat, y1: nat)
    | Dot(x: nat, y: nat)
    | Frame(x0: nat, y0: nat, x1: nat, y1: nat)

  const CELL_WIDTH: nat := 5
  const CELL_HEIGHT: nat := 7

  predicate InCellPoint(dx: nat, dy: nat) {
    dx < CELL_WIDTH && dy < CELL_HEIGHT
  }

  /** Every point a primitive names lies in the 5 x 7 cell. */
  predicate InCell(p: Prim) {
    match p
    case Seg(x0, y0, x1, y1) => InCellPoint(x0, y0) && InCellPoint(x1, y1)
    case Dot(x, y) => InCellPoint(x, y)
    case Frame(x0, y0, x1, y1) => InCellPoint(x0, y0) && InCellPoint(x1, y1)
  }

  predicate IsUpper(ch: char) { 'A' <= ch <= 'Z' }
  predicate IsLower(ch: char) { 'a' <= ch <= 'z' }
  predicate IsDigit(ch: char) { '0' <= ch <= '9' }

  /** The characters the font draws a glyph of its own for: upper and lower
      case letters, digits, and 32 punctuation marks including space. */
  predicate Supported(ch: char) {
    || IsUpper(ch) || IsLower(ch) || IsDigit(ch)
    || ch == '&' || ch == '\'' || ch == '(' || ch == ')' || ch == '*' || ch == '+' || ch == '-' || ch == '='
    || ch == '.' || ch == '!' || ch == '"' || ch == '#' || ch == '$' || ch == '%' || ch == '^' || ch == ','
    || ch == ':' || ch == ';' || ch == '?' || ch == '@' || ch == '/' || ch == '<' || ch == '>' || ch == '|'
    || ch == '\\' || ch == '[' || ch == ']' || ch == '{' || ch == '}' || ch == '_' || ch == '~' || ch == ' '
  }

  /** The glyph of every other character: the outline of the whole cell, as
      a left stroke, a bottom stroke, a top stroke and a right stroke. */
  const UnknownBox: seq<Prim> := [Seg(0, 0, 0, 6), Seg(1, 0, 3, 0), Seg(1, 6, 3, 6), Seg(4, 0, 4, 6)]

  /** The glyph table, the `switch` of `printchar`. */
  function Glyph(ch: char): (g: seq<Prim>)
    ensures forall i :: 0 <= i < |g| ==> InCell(g[i])
    ensures g == [] <==> ch == ' '
    ensures (exists p <- g :: p.Frame?) <==> ch == '%'
    ensures !Supported(ch) ==> g == UnknownBox
    ensures Supported(ch) ==> g != UnknownBox
  {
    if IsUpper(ch) then UpperGlyph(ch)
    else if IsLower(ch) then LowerGlyph(ch)
    else if IsDigit(ch) then DigitGlyph(ch)
    else SymbolGlyph(ch)
  }

  /** Letters and digits: each glyph draws something, in the cell, with lines
      and dots only, and none is the outline box. */
  function UpperGlyph(ch: char): (g: seq<Prim>)
    requires IsUpper(ch)
    ensures g != []
    ensures forall i :: 0 <= i < |g| ==> InCell(g[i])
    ensures forall p <- g :: !p.Frame?
    ensures g != UnknownBox
  {
    match ch
    case 'A' => [Seg(0, 0, 0, 5), Seg(1, 2, 3, 2), Seg(1, 6, 3, 6), Seg(4, 0, 4, 5)]
    case 'B' => [Seg(0, 0, 0, 6), Seg(1, 0, 3, 0), Seg(1, 3, 3, 3), Seg(1, 6, 3, 6), Seg(4, 1, 4, 2), Seg(4, 4, 4, 5)]
    case 'C' => [Seg(0, 1, 0, 5), Seg(1, 0, 3, 0), Seg(1, 6, 3, 6), Dot(4, 1), Dot(4, 5)]
    case 'D' => [Seg(0, 0, 0, 6), Seg(1, 0, 3, 0), Seg(1, 6, 3, 6), Seg(4, 1, 4, 5)]
    case 'E' => [Seg(0, 0, 0, 6), Seg(1, 0, 4, 0), Seg(1, 3, 3, 3), Seg(1, 6, 4, 6)]
    case 'F' => [Seg(0, 0, 0, 6), Seg(1, 3, 3, 3), Seg(1, 6, 4, 6)]
    case 'G' => [Seg(0, 1, 0, 5), Seg(1, 0, 3, 0), Seg(2, 3, 3, 3), Seg(1, 6, 3, 6), Seg(4, 1, 4, 3), Dot(4, 5)]
    case 'H' => [Seg(0, 0, 0, 6), Seg(1, 3, 3, 3), Seg(4, 0, 4, 6)]
    case 'I' => [Seg(2, 0, 2, 6)]
    case 'J' => [Dot(0, 1), Seg(1, 0, 2, 0), Seg(3, 1, 3, 6)]
    case 'K' => [Seg(0, 0, 0, 6), Seg(1, 3, 2, 3), Dot(3, 2), Dot(3, 4), Seg(4, 0, 4, 1), Seg(4, 5, 4, 6)]
    case 'L' => [Seg(0, 0, 0, 6), Seg(1, 0, 4, 0)]
    case 'M' => [Seg(0, 0, 0, 6), Dot(1, 5), Seg(2, 3, 2, 4), Dot(3, 5), Seg(4, 0, 4, 6)]
    case 'N' => [Seg(0, 0, 0, 6), Seg(1, 4, 3, 2), Seg(4, 0, 4, 6)]
    case 'O' => [Seg(0, 1, 0, 5), Seg(1, 0, 3, 0), Seg(1, 6, 3, 6), Seg(4, 1, 4, 5)]
    case 'P' => [Seg(0, 0, 0, 6), Seg(1, 3, 3, 3), Seg(1, 6, 3, 6), Seg(4, 4, 4, 5)]
    case 'Q' => [Seg(0, 1, 0, 5), Seg(1, 0, 3, 0), Seg(1, 6, 3, 6), Seg(2, 2, 4, 0), Seg(4, 1, 4, 5)]
    case 'R' => [Seg(0, 0, 0, 6), Seg(1, 3, 3, 3), Seg(1, 6, 3, 6), Seg(4, 4, 4, 5), Seg(4, 0, 4, 2)]
    case 'S' => [Seg(0, 0, 3, 0), Seg(4, 1, 4, 2), Seg(1, 3, 3, 3), Seg(0, 4, 0, 5), Seg(1, 6, 4, 6)]
    case 'T' => [Seg(2, 0, 2, 5), Seg(0, 6, 4, 6)]
    case 'U' => [Seg(0, 1, 0, 6), Seg(1, 0, 3, 0), Seg(4, 1, 4, 6)]
    case 'V' => [Seg(0, 2, 0, 6), Seg(1, 1, 2, 0), Dot(3, 1), Seg(4, 2, 4, 6)]
    case 'W' => [Seg(0, 0, 0, 6), Dot(1, 1), Seg(2, 2, 2, 3), Dot(3, 1), Seg(4, 0, 4, 6)]
    case 'X' => [Seg(0, 0, 0, 1), Seg(0, 5, 0, 6), Seg(1, 2, 3, 4), Dot(1, 4), Dot(3, 2), Seg(4, 0, 4, 1), Seg(4, 5, 4, 6)]
    case 'Y' => [Seg(0, 5, 0, 6), Dot(1, 4), Seg(2, 0, 2, 3), Dot(3, 4), Seg(4, 5, 4, 6)]
    case 'Z' => [Seg(0, 0, 4, 0), Seg(0, 1, 4, 5), Seg(0, 6, 4, 6)]
    case _ => assert false; []
  }

  function LowerGlyph(ch: char): (g: seq<Prim>)
    requires IsLower(ch)
    ensures g != []
    ensures forall i :: 0 <= i < |g| ==> InCell(g[i])
    ensures forall p <- g :: !p.Frame?
    ensures g != UnknownBox
  {
    match ch
    case 'a' => [Seg(0, 1, 0, 1), Seg(1, 0, 3, 0), Seg(1, 2, 3, 2), Seg(1, 4, 3, 4), Seg(4, 0, 4, 3)]
    case 'b' => [Seg(0, 0, 0, 6), Seg(1, 0, 3, 0), Seg(1, 3, 3, 3), Seg(4, 1, 4, 2)]
    case 'c' => [Seg(0, 1, 0, 3), Seg(1, 0, 3, 0), Seg(1, 4, 3, 4), Dot(4, 1), Dot(4, 3)]
    case 'd' => [Seg(0, 1, 0, 2), Seg(1, 0, 3, 0), Seg(1, 3, 3, 3), Seg(4, 0, 4, 6)]
    case 'e' => [Seg(0, 1, 0, 3), Seg(1, 0, 4, 0), Seg(1, 2, 4, 2), Seg(1, 4, 3, 4), Dot(4, 3)]
    case 'f' => [Seg(1, 0, 1, 5), Seg(0, 3, 2, 3), Seg(2, 6, 3, 6), Dot(4, 5)]
    case 'g' => [Dot(0, 3), Seg(1, 0, 3, 0), Seg(1, 2, 3, 2), Seg(1, 4, 3, 4), Seg(4, 1, 4, 3)]
    case 'h' => [Seg(0, 0, 0, 6), Seg(1, 3, 3, 3), Seg(4, 0, 4, 2)]
    case 'i' => [Seg(1, 0, 3, 0), Dot(1, 4), Seg(2, 1, 2, 4), Dot(2, 6)]
    case 'j' => [Dot(0, 1), Seg(1, 0, 2, 0), Dot(2, 4), Seg(3, 1, 3, 4), Dot(3, 6)]
    case 'k' => [Seg(0, 0, 0, 6), Seg(1, 2, 2, 2), Dot(3, 1), Dot(3, 3), Dot(4, 0), Dot(4, 4)]
    case 'l' => [Seg(1, 0, 3, 0), Dot(1, 6), Seg(2, 1, 2, 6)]
    case 'm' => [Seg(0, 0, 0, 3), Seg(0, 4, 3, 4), Seg(2, 0, 2, 3), Seg(4, 0, 4, 3)]
    case 'n' => [Seg(0, 0, 0, 3), Seg(0, 4, 3, 4), Seg(4, 0, 4, 3)]
    case 'o' => [Seg(0, 1, 0, 3), Seg(1, 0, 3, 0), Seg(1, 4, 3, 4), Seg(4, 1, 4, 3)]
    case 'p' => [Seg(1, 0, 1, 4), Seg(2, 2, 3, 2), Seg(2, 4, 3, 4), Dot(4, 3)]
    case 'q' => [Seg(3, 0, 3, 4), Seg(1, 2, 2, 2), Seg(1, 4, 2, 4), Dot(0, 3)]
    case 'r' => [Seg(0, 0, 0, 4), Dot(1, 3), Seg(2, 4, 4, 4)]
    case 's' => [Seg(0, 0, 3, 0), Dot(0, 3), Seg(1, 2, 3, 2), Seg(1, 4, 4, 4), Dot(4, 1)]
    case 't' => [Seg(2, 1, 2, 6), Seg(1, 4, 3, 4), Seg(3, 0, 4, 0)]
    case 'u' => [Seg(0, 1, 0, 4), Seg(1, 0, 2, 0), Dot(3, 1), Seg(4, 0, 4, 4)]
    case 'v' => [Seg(0, 2, 0, 4), Seg(1, 1, 2, 0), Dot(3, 1), Seg(4, 2, 4, 4)]
    case 'w' => [Seg(0, 0, 0, 4), Dot(1, 1), Seg(2, 0, 2, 2), Dot(3, 1), Seg(4, 0, 4, 4)]
    case 'x' => [Dot(0, 0), Dot(0, 4), Seg(1, 1, 3, 3), Dot(1, 3), Dot(3, 1), Dot(4, 0), Dot(4, 4)]
    case 'y' => [Seg(0, 0, 3, 0), Seg(0, 3, 0, 4), Seg(1, 2, 3, 2), Seg(4, 1, 4, 4)]
    case 'z' => [Seg(0, 0, 4, 0), Seg(1, 1, 3, 3), Seg(0, 4, 4, 4)]
    case _ => assert false; []
  }

  function DigitGlyph(ch: char): (g: seq<Prim>)
    requires IsDigit(ch)
    ensures g != []
    ensures forall i :: 0 <= i < |g| ==> InCell(g[i])
    ensures forall p <- g :: !p.Frame?
    ensures g != UnknownBox
  {
    match ch
    case '0' => [Seg(0, 1, 0, 5), Seg(1, 0, 3, 0), Seg(1, 2, 3, 4), Seg(1, 6, 3, 6), Seg(4, 1, 4, 5)]
    case '1' => [Seg(0, 0, 4, 0), Dot(0, 4), Dot(1, 5), Seg(2, 1, 2, 6)]
    case '2' => [Seg(0, 0, 4, 0), Dot(0, 1), Dot(1, 2), Seg(2, 3, 3, 3), Seg(4, 4, 4, 5), Seg(1, 6, 3, 6), Dot(0, 5)]
    case '3' => [Dot(0, 1), Dot(0, 5), Seg(1, 0, 3, 0), Seg(2, 3, 3, 3), Seg(1, 6, 3, 6), Seg(4, 1, 4, 2), Seg(4, 4, 4, 5)]
    case '4' => [Seg(0, 2, 4, 2), Dot(0, 3), Dot(1, 4), Dot(2, 5), Seg(3, 0, 3, 6)]
    case '5' => [Dot(0, 1), Seg(1, 0, 3, 0), Seg(4, 1, 4, 3), Seg(0, 4, 3, 4), Dot(0, 5), Seg(0, 6, 4, 6)]
    case '6' => [Seg(0, 1, 0, 5), Seg(1, 0, 3, 0), Seg(1, 3, 3, 3), Seg(1, 6, 3, 6), Seg(4, 1, 4, 2), Dot(4, 5)]
    case '7' => [Seg(0, 6, 4, 6), Seg(3, 4, 4, 5), Seg(2, 0, 2, 3)]
    case '8' => [Seg(0, 1, 0, 2), Seg(0, 4, 0, 5), Seg(1, 0, 3, 0), Seg(1, 3, 3, 3), Seg(1, 6, 3, 6), Seg(4, 1, 4, 2), Seg(4, 4, 4, 5)]
    case '9' => [Dot(0, 1), Seg(0, 4, 0, 5), Seg(1, 0, 3, 0), Seg(1, 3, 3, 3), Seg(1, 6, 3, 6), Seg(4, 1, 4, 5)]
    case _ => assert false; []
  }

  /** Punctuation, space, and every character without a glyph of its own. */
  function SymbolGlyph(ch: char): (g: seq<Prim>)
    requires !IsUpper(ch) && !IsLower(ch) && !IsDigit(ch)
    ensures forall i :: 0 <= i < |g| ==> InCell(g[i])
    ensures g == [] <==> ch == ' '
    ensures (exists p <- g :: p.Frame?) <==> ch == '%'
    ensures !Supported(ch) ==> g == UnknownBox
    ensures Supported(ch) ==> g != UnknownBox
  {
    match ch
    case '&' => [Seg(0, 1, 0, 2), Seg(0, 4, 0, 5), Seg(1, 0, 2, 0), Seg(1, 3, 4, 0), Seg(2, 4, 2, 5), Dot(1, 6), Dot(4, 2)]
    case '\'' => [Seg(2, 5, 2, 6)]
    case '(' => [Seg(2, 1, 2, 5), Dot(3, 0), Dot(3, 6)]
    case ')' => [Dot(1, 0), Dot(1, 6), Seg(2, 1, 2, 5)]
    case '*' => [Seg(0, 1, 4, 5), Seg(0, 3, 4, 3), Seg(0, 5, 4, 1), Seg(2, 1, 2, 5)]
    case '+' => [Seg(0, 3, 4, 3), Seg(2, 1, 2, 5)]
    case '-' => [Seg(0, 3, 4, 3)]
    case '=' => [Seg(0, 2, 4, 2), Seg(0, 4, 4, 4)]
    case '.' => [Dot(2, 0)]
    case '!' => [Dot(2, 0), Seg(2, 2, 2, 6)]
    case '"' => [Seg(1, 5, 1, 6), Seg(3, 5, 3, 6)]
    case '#' => [Seg(0, 2, 4, 2), Seg(0, 4, 4, 4), Seg(1, 0, 1, 6), Seg(3, 0, 3, 6)]
    case '$' => [Seg(0, 1, 3, 1), Dot(0, 4), Seg(1, 3, 3, 3), Seg(1, 5, 4, 5), Seg(2, 0, 2, 6), Dot(4, 2)]
    case '%' =>
      var g := [Seg(0, 1, 4, 5), Frame(0, 5, 1, 6), Frame(3, 0, 4, 1)];
      assert g[1] in g;
      g
    case '^' => [Seg(0, 4, 2, 6), Seg(3, 5, 4, 4)]
    case ',' => [Dot(1, 0), Seg(2, 1, 2, 2)]
    case ':' => [Seg(2, 1, 2, 2), Seg(2, 4, 2, 5)]
    case ';' => [Seg(2, 1, 2, 2), Seg(2, 4, 2, 5), Dot(1, 0)]
    case '?' => [Dot(0, 5), Seg(1, 6, 3, 6), Dot(2, 0), Seg(2, 2, 4, 4), Dot(4, 5)]
    case '@' => [Seg(0, 1, 0, 5), Seg(1, 0, 3, 0), Seg(1, 6, 3, 6), Seg(2, 2, 2, 4), Dot(3, 4), Dot(3, 2), Seg(4, 3, 4, 5)]
    case '/' => [Seg(0, 0, 4, 6)]
    case '<' => [Seg(0, 3, 3, 6), Seg(1, 2, 3, 0)]
    case '>' => [Seg(1, 0, 4, 3), Seg(1, 6, 3, 4)]
    case '|' => [Seg(2, 0, 2, 6)]
    case '\\' => [Seg(0, 6, 4, 0)]
    case '[' => [Seg(2, 0, 2, 6), Dot(3, 0), Dot(3, 6)]
    case ']' => [Dot(1, 0), Dot(1, 6), Seg(2, 0, 2, 6)]
    case '{' => [Seg(1, 3, 3, 6), Seg(1, 3, 3, 0)]
    case '}' => [Seg(1, 0, 3, 3), Seg(1, 6, 3, 3)]
    case '_' => [Seg(0, 0, 4, 0)]
    case '~' => [Dot(0, 3), Dot(1, 4), Dot(2, 3), Dot(3, 2), Dot(4, 3)]
    case ' ' => []
    case _ => UnknownBox
  }
}
