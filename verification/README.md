# SSD1353 OLED driver, modelled in Dafny

This project models the Arduino driver for the SSD1353 160 x 128 colour OLED
controller (`SSD1353/SSD1353.cpp`). The driver never reads anything from the
panel. Each public operation is therefore fully described by the ordered trace
of events it produces, and in this model each operation is a pure function
from its `uint8_t` arguments to that trace.

- `Events`: the trace. `PinMode`, `SetPin` and `Delay` are the Arduino
  primitives `pinMode`, `digitalWrite` and `delay`. `Cmd` and `Data` are one
  byte written to the controller.
- `Bus`: `write`, the eleven pin events that carry one byte over the 8-bit
  parallel bus. `Lower` refines a byte-level trace to pin events and `Raise`
  reads one back. Both round trips are proved.
- `Protocol`: the controller's reading of the byte stream as commands. Each
  command is an opcode followed by its fixed number of data bytes, and each
  delay is a wait. `Parse` is the inverse of `EmitAll`, proved in both
  directions. Every drawing operation is specified through `Parse`.
- `Driver`: `displayMode`, `enableFill`, `drawRectangle`, `drawLine`,
  `drawDot`, `fill`, `clear` and `init`.
- `Font`: the 5 x 7 vector font, the `switch` of `printchar`, as a table from
  `char` to a list of primitives (line, dot, unfilled rectangle).
- `Text`: `printchar` and `printstr`.
- `Bytes`: 8-bit truncation of coordinate sums, and bit decomposition.

All coordinates and colour values are `uint8_t` in the source. A sum like
`x + 1` or `x + i * 6` is computed in `int` and truncated when it is passed
to a `uint8_t` parameter. The model writes this truncation out as `Add8`,
addition modulo 256.

`init` takes and configures twelve pins: four control pins (chip select,
data/command, reset and display enable) and eight data pins. It pulses reset
low for 10 ms and waits another 10 ms, powers the panel up, and sends the
full-screen clear rectangle while display enable is still low. It drives
display enable high only as its last step. `Driver.Init` states that order.

## Model

| member | source | states |
|---|---|---|
| Bytes.Add8 | SSD1353/SSD1353.cpp:879 | a coordinate sum passed to a `uint8_t` parameter is the plain sum when below 256 and is congruent to it modulo 256 otherwise |
| Bytes.AddTwice | SSD1353/SSD1353.cpp:879-880 | two successive 8-bit offsets add up to one offset by their sum |
| Bytes.FromBitsOfBits | SSD1353/SSD1353.cpp:95-96 | reading the eight levels `(data >> i) & 1`, i = 0..7, as binary digits gives back the byte |
| Bytes.BitsOfFromBits | SSD1353/SSD1353.cpp:95-96 | every pattern of eight line levels is the bit pattern of exactly one byte |
| Bus.Write | SSD1353/SSD1353.cpp:92-98 | `write` is eleven pin drives: DC to `!isCommand`, CS low, data line i to bit i of the byte in ascending order, CS high; the eight levels reassemble to the byte |
| Bus.WriteDecodes | SSD1353/SSD1353.cpp:92-98 | the controller latches a write as a command when DC is low and as data when DC is high, with the byte that was written |
| Bus.WriteOfDecode | SSD1353/SSD1353.cpp:92-98 | every complete eleven-event write on the driver's pins is the write of the byte it decodes to |
| Bus.RaiseLower | SSD1353/SSD1353.cpp:92-98 | a byte-level trace refined to pin events reads back as the same byte-level trace, as long as it drives the DC pin only inside writes |
| Bus.LowerRaise | SSD1353/SSD1353.cpp:92-98 | a pin-level trace read at byte level and refined again is unchanged: the byte-level reading loses nothing |
| Protocol.ParseEmitAll | SSD1353/SSD1353.cpp:135-172 | the controller reads the bytes of any well-formed command list back as that list |
| Protocol.ParseFaithful | SSD1353/SSD1353.cpp:135-172 | every byte stream the controller reads as commands is the emission of those commands |
| Driver.DisplayMode | SSD1353/SSD1353.cpp:105-108 | exactly one command byte, the mode itself, for the three codes 0xA6, 0xA4 and 0xA7; nothing for any other value |
| Driver.EnableFill | SSD1353/SSD1353.cpp:115-118 | the fill-enable command 0x26 with parameter 1 or 0, and the controller reads fill as on exactly when enabled |
| Driver.DrawRectangle | SSD1353/SSD1353.cpp:135-150 | thirteen byte writes (fill toggle, then the rectangle with corners and the line and fill colours in blue-green-red order) and a 2 ms wait |
| Driver.DrawLine | SSD1353/SSD1353.cpp:163-172 | eight byte writes and no wait; the controller reads a line between the two points in the given colour |
| Driver.DrawDot | SSD1353/SSD1353.cpp:183-185 | the controller reads a line from the point to itself in the given colour |
| Driver.Fill | SSD1353/SSD1353.cpp:194-196 | a filled rectangle from (0, 0) to (159, 127) with border and fill in the given colour, and the 2 ms wait |
| Driver.Clear | SSD1353/SSD1353.cpp:202-204 | the full-screen filled rectangle in black |
| Driver.Init | SSD1353/SSD1353.cpp:35-84 | 44 events: the twelve pins set to output in order, no pin configured later; then display enable low, reset low, a 10 ms wait, reset high and a second 10 ms wait, in that order; every pin drive except the last before the first byte write, the clear trace just before the last event, display enable driven high only as the last event; the controller reads the reset waits, display on and its wait, remap, the three contrasts, master current and the clear |
| Driver.InitDrives | SSD1353/SSD1353.cpp:57-83 | outside its byte writes `init` drives only the reset and display-enable pins |
| Driver.InitConfiguresBeforeDriving | SSD1353/SSD1353.cpp:49-83 | at pin level every pin is set to output before it is first driven, and the last event drives display enable high |
| Driver.InitReadsBack | SSD1353/SSD1353.cpp:35-84 | the pin-level trace of `init` reads back as its byte-level trace when neither reset nor display enable is the DC pin |
| Font.Glyph | SSD1353/SSD1353.cpp:216-865 | every offset of every glyph lies in the 5 x 7 cell; only space has no primitives; only '%' uses rectangles; every character without a case gets the outline box and no other character does |
| Font.UpperGlyph | SSD1353/SSD1353.cpp:218-402 | each capital letter draws something, inside the cell, with lines and dots only, and is not the box |
| Font.LowerGlyph | SSD1353/SSD1353.cpp:403-590 | each small letter draws something, inside the cell, with lines and dots only, and is not the box |
| Font.DigitGlyph | SSD1353/SSD1353.cpp:591-675 | each digit draws something, inside the cell, with lines and dots only, and is not the box |
| Font.SymbolGlyph | SSD1353/SSD1353.cpp:676-863 | among the other characters only space is empty, only '%' uses rectangles, and exactly the characters without a case get the box |
| Text.GlyphCommands | SSD1353/SSD1353.cpp:216-865 | a glyph yields no commands exactly when it is empty, commands inside the cell when its primitives are, and a rectangle exactly when it has a frame |
| Text.PrimCells | SSD1353/SSD1353.cpp:216-865 | a primitive inside the cell gives commands in the caller's colour inside the cell at the 8-bit shifted origin, and a rectangle exactly when it is a frame, drawn unfilled |
| Text.RenderPrim | SSD1353/SSD1353.cpp:754-757 | each primitive is one `drawLine`, `drawDot` or unfilled `drawRectangle` call that the controller reads as that primitive's commands |
| Text.RenderGlyph | SSD1353/SSD1353.cpp:216-865 | a glyph's trace is empty exactly when the glyph is, and the controller reads it as the glyph's commands in table order |
| Text.PrintChar | SSD1353/SSD1353.cpp:216-865 | `printchar` draws nothing exactly for space; everything it draws is in the caller's colour and inside the cell at (x, y) modulo 256; it sends a rectangle exactly for '%', and every fill toggle it sends is off |
| Text.UnknownCharIsBox | SSD1353/SSD1353.cpp:858-863 | a character without a case is drawn as four lines: (x,y)-(x,y+6), (x+1,y)-(x+3,y), (x+1,y+6)-(x+3,y+6), (x+4,y)-(x+4,y+6) |
| Text.RenderBox | SSD1353/SSD1353.cpp:859-862 | the outline box is the four `drawLine` calls of the default case, in that order, at 8-bit offsets from (x, y) |
| Text.StrLen | SSD1353/SSD1353.cpp:878 | `strlen` is the position of the first NUL, or the whole sequence when there is none |
| Text.CellX | SSD1353/SSD1353.cpp:879 | character i is drawn at x + 6 i modulo 256 |
| Text.CellOffset | SSD1353/SSD1353.cpp:879 | a primitive at offset dx in the cell of character i lands at x + 6 i + dx modulo 256: the two truncations to `uint8_t` act as one |
| Text.CharTraces | SSD1353/SSD1353.cpp:877-881 | the loop runs exactly one iteration per character before the NUL |
| Text.RowDraws | SSD1353/SSD1353.cpp:877-881 | the iterations from position i on draw only in the cells of the characters from i to the NUL, in the caller's colour, and draw nothing exactly when those characters are all spaces |
| Text.PrintStr | SSD1353/SSD1353.cpp:877-881 | everything `printstr` draws lies in the cell of one of the characters before the NUL, in the caller's colour; it draws nothing exactly when those characters are all spaces, so in particular for the empty string |
| Text.PrintStrSnoc | SSD1353/SSD1353.cpp:877-881 | one more character prints the shorter string and then that character six pixels further right: `printstr` is a left fold of `printchar` |
| Text.ConcatSnoc | SSD1353/SSD1353.cpp:877-881 | running one more iteration appends its trace to what the earlier iterations drew |
| Text.PrintStrStopsAtNul | SSD1353/SSD1353.cpp:878 | nothing after the first NUL is printed |
| Text.StrLenOfNoNul | SSD1353/SSD1353.cpp:878 | a string without a NUL is measured to its end |
| Text.LoopAsWritten | SSD1353/SSD1353.cpp:878-880 | the loop with the 8-bit counter can finish only when fewer than 256 characters precede the NUL, and when it finishes from a counter within the string it has drawn the remaining iterations in order |
| Text.LongStringNeverEnds | SSD1353/SSD1353.cpp:878 | with the 8-bit counter, a string of 256 or more characters before its NUL never finishes the loop |
| Text.LoopAgrees | SSD1353/SSD1353.cpp:877-881 | with fewer than 256 iterations the loop with the 8-bit counter finishes from any position within the remaining count and draws the remaining iterations in order |
| Text.ShortStringAgrees | SSD1353/SSD1353.cpp:877-881 | for strings shorter than 256 characters, the 8-bit loop finishes within its length in iterations and draws exactly `PrintStr` |

## Left out

- The WiFi module files (`WizFi360Custom`) are not part of this model. They
  are a serial AT-command driver built on busy waits, timeouts and string
  formatting.
- `pinMode`, `digitalWrite` and `delay` are foreign hardware calls. They appear
  only as trace events. A delay carries its millisecond value and has no
  timing meaning.
- What the controller does with a command (pixels, clipping, out-of-range
  coordinates) is not modelled. The driver only forwards bytes, and
  `Protocol.Parse` reads only the opcodes this driver sends.
- The three `uint8_t` colour arguments of each call are grouped into one
  `Color` value. Each is forwarded unchanged.
- The source's `char` is 8 bits wide, while the model's is a Dafny `char`. The
  `switch` compares whole characters, so every non-ASCII value falls to the
  default case in both.
- `printstr` receives a sequence of characters instead of a pointer. The C
  string is that sequence up to its first NUL, or all of it when there is
  none.
- Text.PrintStr: uses a counter that does not wrap, so it is total. The loop
  as written is `Text.LoopAsWritten`, stated over the traces of the
  iterations (`Text.CharTraces`) and bounded by a number of iterations; see
  Findings.

## Findings

| source | as written | input that shows it | evidently intended | confidence | as-written member | corrected member |
|---|---|---|---|---|---|---|
| SSD1353/SSD1353.cpp:878 | the loop counter of `printstr` is `uint8_t`. It wraps from 255 to 0, so `i < strlen(input)` holds forever once the string has 256 or more characters | any string with 256 non-NUL characters before its terminator | draw each character before the NUL once, then return | high; not executed | Text.LongStringNeverEnds | Text.PrintStrSnoc |
