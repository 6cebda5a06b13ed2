# LCD1602 character display driver

A Dafny model of `CharacterDisplay`, the MicroPython driver for a 16x2
HD44780-compatible LCD that sits behind a PCF8574 I2C port expander. The
driver never reads from the display: everything it does is a sequence of
one-byte writes to the expander at address 0x27, separated by pauses. The
model therefore gives the driver a bus whose state is an append-only trace of
`Write(addr, byte)` and `Delay(ms)` events, and every driver method is proved
to append exactly the events that the source appends.

The expander byte carries the controller's four data lines in its upper
nibble and the control lines in its lower nibble: RS = 0x01, EN = 0x04,
backlight = 0x08. In 4-bit mode each command or character byte travels as a
*frame* of four expander bytes. The upper nibble is written with EN set and
then with EN cleared, and the lower nibble follows in the same way. RS is
set for display data and clear for instructions. The backlight bit is forced
on in every byte.

Modules:

- `I2CBus` (`bus.dfy`): the `Bus` class, with the scan result and the event
  trace; `Payloads` projects a trace onto the bytes written.
- `ByteArith` (`byte_arith.dfy`): Python's `&` of an unbounded integer with a
  byte mask, written out bit by bit (`ToByte`, `AndByte`), so that negative
  integers and code points above 255 behave as in Python.
- `Lcd1602` (`lcd1602.dfy`): the driver. The `CharacterDisplay` class holds
  the bus and the resolved address, and its methods follow the source's
  statements one by one. Each method's postcondition gives the new trace in
  terms of the pure specification functions `FrameBytes`, `Frame`,
  `SendAll`, `CursorAddress`, `MessageTransfers`, `CoordinateTransfers` and
  `PowerOnTrace`.
- `ControllerView` (`controller_view.dfy`): the partner of the framing. It
  decodes what the controller latches on each falling edge of EN
  (`DecodeFrame`, `DecodeStream`). The lemmas prove that framing and decoding
  are inverse in both directions. They also prove that whole operations
  (a message, a cursor move with letters, the power-on sequence) deliver
  exactly the intended instructions and characters.

Three facts about the driver shape the model:

- Cursor placement exists only inside `write_letter_to_coordinate`, which
  moves the cursor and then writes the letters.
- Address resolution has two distinct failures: the scan found nothing, or
  the scan did not include 0x27. `DeviceError` keeps them apart.
- The data frame sets 0x05, that is RS (bit 0) and EN (bit 2), whatever the
  comment on lines 77 and 87 says. The model uses the value.

## Model

| member | source | states |
|---|---|---|
| I2CBus.Bus.Scan | i2c/lcd1602.py:34 | the scan returns the bus's device list |
| I2CBus.Bus.WriteTo | i2c/lcd1602.py:47 | a one-byte `writeto` appends exactly one write event to the trace |
| I2CBus.Bus.Sleep | i2c/lcd1602.py:56 | `time.sleep` appends one delay marker and nothing else |
| ByteArith.ToByteShift | i2c/lcd1602.py:51 | masking an integer with a byte mask ignores every multiple of 256 added to it |
| ByteArith.ToByteModulo | i2c/lcd1602.py:63 | the masked value depends only on the integer modulo 256, for negative integers too |
| ByteArith.ToByteExamples | i2c/lcd1602.py:76 | two's-complement behaviour of Python's `&`: -1 gives 0xFF, -0x40 gives 0xC0, 0x141 gives 0x41 |
| Lcd1602.ResolveAddress | i2c/lcd1602.py:32-42 | succeeds exactly when 0x27 is among the scanned addresses, and then yields 0x27; an empty scan gives NoDevicesFound; a non-empty scan without 0x27 gives DeviceNotFound(0x27) |
| Lcd1602.ControlBits | i2c/lcd1602.py:76-83 | the control nibble never touches the data lines or bit 1, always has the backlight, has EN exactly when the line is being strobed high and RS exactly for display data |
| Lcd1602.PulseBytes | i2c/lcd1602.py:51-60 | setting 0x04 (or 0x05) on a nibble and forcing the backlight, then clearing EN with 0xFB, give the strobe-high and strobe-low bytes of a frame; the mask leaves every other bit unchanged |
| Lcd1602.FrameBytes | i2c/lcd1602.py:49-93 | a frame is four bytes; each byte's low nibble is the control nibble (EN high in bytes 1 and 3, low in 2 and 4) and never depends on the value; both bytes of a nibble carry the same data lines; `(w1 & 0xF0) \| (w3 >> 4)` gives back the value |
| Lcd1602.Frame | i2c/lcd1602.py:55-72 | one byte transfer is six events, and every write among them goes to the display's address |
| Lcd1602.FrameOrder | i2c/lcd1602.py:55-72 | the six events are: the strobe-high byte of the upper nibble, a 2 ms pause, its strobe-low byte, the strobe-high byte of the lower nibble, a 2 ms pause, its strobe-low byte |
| Lcd1602.SendAll | i2c/lcd1602.py:116-117 | a sequence of transfers takes six events per transfer |
| Lcd1602.Clamp | i2c/lcd1602.py:103-110 | the result is within the bounds, equals the input when the input is in range, and is the point of the range nearest to the input |
| Lcd1602.CursorAddress | i2c/lcd1602.py:101-113 | the cursor command is always in 0x80..0x8F or 0xC0..0xCF; its line and column are the clamped row and column; for in-range coordinates it is 0x80 + 0x40*row + col |
| Lcd1602.MessageTransfer | i2c/lcd1602.py:120-124 | a newline becomes the instruction 0xC0 and never display data; any other character becomes display data carrying its code point |
| Lcd1602.MessageTransfers | i2c/lcd1602.py:119-124 | one transfer per character of the text |
| Lcd1602.CoordinateTransfers | i2c/lcd1602.py:113-117 | one transfer more than there are letters: the cursor instruction and one per letter (their order is stated by `ControllerView.CoordinateDecodes`) |
| Lcd1602.CharacterDisplay.constructor | i2c/lcd1602.py:16-19 | a display holds the given bus and is only ever built at address 0x27 |
| Lcd1602.CharacterDisplay.Create | i2c/lcd1602.py:10-30 | fails exactly when the scan lacks 0x27, with the error `ResolveAddress` gives and nothing written; otherwise returns a fresh display at 0x27 whose bus trace has grown by the power-on sequence: frames of 0x33, 0x32, 0x28, 0x0C and 0x01 with a 5 ms pause after each of the first four, then the bare byte 0x08 |
| Lcd1602.CharacterDisplay.WriteWord | i2c/lcd1602.py:44-47 | appends one write of the byte with the backlight bit forced on |
| Lcd1602.CharacterDisplay.SendCommand | i2c/lcd1602.py:49-72 | appends exactly the instruction frame of the command's low byte (RS clear), with a 2 ms pause after each strobe-high write |
| Lcd1602.CharacterDisplay.SendData | i2c/lcd1602.py:74-93 | appends exactly the data frame of the value's low byte (RS set) |
| Lcd1602.CharacterDisplay.ClearScreen | i2c/lcd1602.py:95-96 | appends exactly the instruction frame of 0x01 |
| Lcd1602.CharacterDisplay.EnableBacklight | i2c/lcd1602.py:98-99 | appends the single unframed byte 0x08 and nothing else |
| Lcd1602.CharacterDisplay.WriteLetterToCoordinate | i2c/lcd1602.py:101-117 | appends the frame of the clamped cursor command followed by one data frame per letter, in order |
| Lcd1602.CharacterDisplay.WriteMessage | i2c/lcd1602.py:119-124 | appends, character by character, the frame of 0xC0 for a newline and the data frame of the code point otherwise |
| ControllerView.DecodeFrame | i2c/lcd1602.py:49-93 | a frame the controller accepts has the backlight on in all four bytes |
| ControllerView.DecodeStream | i2c/lcd1602.py:116-124 | a byte stream that decodes has four bytes per transfer |
| ControllerView.FrameRoundTrip | i2c/lcd1602.py:49-93 | decoding the frame of a transfer gives back the same byte and register |
| ControllerView.FrameDecodeInverse | i2c/lcd1602.py:49-93 | any four bytes that decode are exactly the frame of what they decode to |
| ControllerView.SendAllDecodes | i2c/lcd1602.py:116-117 | the bytes of any sequence of transfers number four per transfer and decode to exactly that sequence |
| ControllerView.SendAllBacklight | i2c/lcd1602.py:44-47 | every byte written while sending transfers goes to the display's address and has the backlight bit set |
| ControllerView.MessageDecodes | i2c/lcd1602.py:119-124 | a message writes 4 bytes per character, decodes to its transfers, and a character is sent as display data exactly when it is not a newline |
| ControllerView.CoordinateDecodes | i2c/lcd1602.py:101-117 | a cursor move with letters writes 4 bytes per letter plus 4, decoding first to the instruction carrying `CursorAddress(col, row)`, then to each letter in order as display data |
| ControllerView.CoordinateExample | i2c/lcd1602.py:101-117 | out-of-range coordinates saturate: (20, -3) with "Hi" reaches the controller as instruction 0x8F, then H and i |
| ControllerView.MessageExample | i2c/lcd1602.py:119-124 | "AB\nCD" reaches the controller as A, B, instruction 0xC0, C, D |
| ControllerView.PowerOnDecodes | i2c/lcd1602.py:21-30 | the power-on sequence writes 21 bytes: frames decoding to the instructions 0x33, 0x32, 0x28, 0x0C, 0x01 in that order, then the backlight byte 0x08 |
| ControllerView.CommandFrameBytes | i2c/lcd1602.py:49-72 | a command frame is `(c & 0xF0) \| 0x0C`, `(c & 0xF0) \| 0x08`, `((c & 0x0F) << 4) \| 0x0C`, `((c & 0x0F) << 4) \| 0x08` for any integer c |
| ControllerView.DataFrameBytes | i2c/lcd1602.py:74-93 | a data frame is the same shape with RS set: 0x0D and 0x09 in place of 0x0C and 0x08 |

## Left out

- Pin and I2C construction, and the 400 kHz clock (i2c/lcd1602.py:12-16). These are hardware set-up. `Create` receives an already constructed `Bus` instead of pin numbers.
- The real `scan` and `writeto` transport. The bus's device list is fixed when the bus is built, and a write only appends to the trace. Transport errors and their propagation are not modelled.
- Real-time behaviour of `time.sleep`. A sleep is only a `Delay(ms)` marker in the trace, kept so that the order of writes and pauses can be stated.
- The controller's internal state: DDRAM contents and wrap-around, the cursor, glyph rendering and command timing. `ControllerView` models only which byte each frame latches and into which register.
- Unicode and encodings. A character is its code point, and only its low byte, through the `& 0xF0` and `& 0x0F` masks, reaches the bus.
- Concurrency. The driver has none.
- Lcd1602.CharacterDisplay.Create: raising an exception from the constructor is modelled as a static method that returns a `Result`. A failed resolution returns `Failure` with the reason and produces no display object.
- Lcd1602.CharacterDisplay.WriteWord: takes a byte rather than any integer. Python's `bytearray` would raise for values outside 0..255, and no caller in the driver passes one.
- Lcd1602.CharacterDisplay.WriteLetterToCoordinate: the four clamping `if` statements on `col` and `row` are written as the pure `CursorAddress`/`Clamp` functions rather than step-by-step updates of local variables. The command sent is the same.
- ByteArith.ToByteModulo: the model shows that the byte mask depends only on the integer modulo 256, and evaluates it on concrete values. It does not prove the general identity between the bitwise definition and `x % 256` as a byte.
