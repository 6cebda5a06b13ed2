/** The CharacterDisplay driver for a 16x2 HD44780-compatible LCD behind a
    PCF8574 I2C expander.

    The expander's output byte carries the controller's four data lines in
    its upper nibble and the control lines in its lower nibble: RS (bit 0),
    EN (bit 2) and the backlight (bit 3). The controller runs in 4-bit mode,
    so every command or character byte travels as two nibbles, each latched
    by pulsing EN high and then low.
 */
module Lcd1602 {
  import opened I2CBus
  import opened ByteArith

  /** The only device address the driver accepts. */
  const DEVICE_ADDRESS: int := 0x27

  const REGISTER_SELECT: bv8 := 0x01
  const ENABLE: bv8 := 0x04
  const BACKLIGHT: bv8 := 0x08
  /** The mask the driver applies to drop EN after the rising edge. */
  const ENABLE_OFF_MASK: bv8 := 0xFB

  /** Pause after each enable-high write, and after each power-on command. */
  const PULSE_DELAY_MS: nat := 2
  const INIT_DELAY_MS: nat := 5

  /** "Set DDRAM address to 0x40": the start of the second line. */
  const SECOND_LINE_COMMAND: int := 0xC0
  const CLEAR_DISPLAY_COMMAND: int := 0x01

  datatype Option<T> = None | Some(value: T)
  datatype Result<T, E> = Success(value: T) | Failure(error: E)

  /** Why the display could not be opened. */
  datatype DeviceError = NoDevicesFound | DeviceNotFound(expected: int)

  /** A byte as the controller receives it: into its instruction register
      (RS low) or into display data RAM (RS high). */
  datatype Transfer = Instruction(code: bv8) | Character(code: bv8)

  /** The lower nibble of the expander byte during a nibble transfer. */
  function ControlBits(enable: bool, rs: bool): (c: bv8)
    ensures c & 0xF0 == 0
    ensures c & BACKLIGHT == BACKLIGHT
    ensures (c & ENABLE == ENABLE) <==> enable
    ensures (c & REGISTER_SELECT == REGISTER_SELECT) <==> rs
    ensures c & 0x02 == 0
  {
    (BACKLIGHT | (if enable then ENABLE else 0)) | (if rs then REGISTER_SELECT else 0)
  }

  /** The four expander bytes that carry value to the controller: upper
      nibble then lower nibble, each written with EN set and then cleared. */
  function FrameBytes(value: bv8, rs: bool): (f: seq<bv8>)
    ensures |f| == 4
    ensures forall i :: 0 <= i < 4 ==> f[i] & 0x0F == ControlBits(i % 2 == 0, rs)
    ensures f[0] & 0xF0 == f[1] & 0xF0 && f[2] & 0xF0 == f[3] & 0xF0
    ensures (f[0] & 0xF0) | (f[2] >> 4) == value
  {
    var upper := value & 0xF0;
    var lower := (value & 0x0F) << 4;
    [upper | ControlBits(true, rs), upper | ControlBits(false, rs),
     lower | ControlBits(true, rs), lower | ControlBits(false, rs)]
  }

  /** Setting EN (and RS for data) on a nibble, then clearing EN with the
      mask, gives the two bytes of a nibble transfer once the backlight is
      forced on. */
  lemma PulseBytes(nibble: bv8, rs: bool)
    requires nibble & 0x0F == 0
    ensures (nibble | (if rs then 0x05 else 0x04)) | BACKLIGHT == nibble | ControlBits(true, rs)
    ensures ((nibble | (if rs then 0x05 else 0x04)) & ENABLE_OFF_MASK) | BACKLIGHT == nibble | ControlBits(false, rs)
  {
  }

  lemma AppendSix(s: seq<Event>, e0: Event, e1: Event, e2: Event, e3: Event, e4: Event, e5: Event)
    ensures s + [e0] + [e1] + [e2] + [e3] + [e4] + [e5] == s + [e0, e1, e2, e3, e4, e5]
  {
  }

  /** The events of one nibble-pair transfer: a pause follows each
      enable-high write. */
  function Frame(addr: int, value: bv8, rs: bool): (t: seq<Event>)
    ensures |t| == 6
    ensures forall i :: 0 <= i < 6 && t[i].Write? ==> t[i].addr == addr
  {
    var f := FrameBytes(value, rs);
    [Write(addr, f[0]), Delay(PULSE_DELAY_MS), Write(addr, f[1]),
     Write(addr, f[2]), Delay(PULSE_DELAY_MS), Write(addr, f[3])]
  }

  /** The order within a frame: each enable-high write is followed by a
      pause before EN drops, and the four bytes go out in frame order. */
  lemma FrameOrder(addr: int, value: bv8, rs: bool)
    ensures Frame(addr, value, rs)[1] == Delay(PULSE_DELAY_MS) && Frame(addr, value, rs)[4] == Delay(PULSE_DELAY_MS)
    ensures Frame(addr, value, rs)[0] == Write(addr, FrameBytes(value, rs)[0])
    ensures Frame(addr, value, rs)[2] == Write(addr, FrameBytes(value, rs)[1])
    ensures Frame(addr, value, rs)[3] == Write(addr, FrameBytes(value, rs)[2])
    ensures Frame(addr, value, rs)[5] == Write(addr, FrameBytes(value, rs)[3])
  {
  }

  function Send(addr: int, t: Transfer): seq<Event>
  {
    Frame(addr, t.code, t.Character?)
  }

  /** The events that deliver ts, one frame after another. */
  function SendAll(addr: int, ts: seq<Transfer>): (t: seq<Event>)
    ensures |t| == 6 * |ts|
  {
    if ts == [] then [] else SendAll(addr, ts[..|ts| - 1]) + Send(addr, ts[|ts| - 1])
  }

  lemma SendAllSnoc(addr: int, ts: seq<Transfer>, t: Transfer)
    ensures SendAll(addr, ts + [t]) == SendAll(addr, ts) + Send(addr, t)
  {
  }

  lemma SendAllPrefix(addr: int, ts: seq<Transfer>, i: nat)
    requires i < |ts|
    ensures SendAll(addr, ts[..i + 1]) == SendAll(addr, ts[..i]) + Send(addr, ts[i])
  {
    assert ts[..i + 1] == ts[..i] + [ts[i]];
    SendAllSnoc(addr, ts[..i], ts[i]);
  }

  /** The byte of a character that can reach the bus: `ord(ch)` masked by
      the nibble selections. */
  function CodeByte(ch: char): bv8
  {
    ToByte(ch as int)
  }

  function Dist(x: int, y: int): nat
  {
    if x < y then y - x else x - y
  }

  /** Saturation into [lo, hi]: the point of the interval nearest to x. */
  function Clamp(x: int, lo: int, hi: int): (r: int)
    requires lo <= hi
    ensures lo <= r <= hi
    ensures lo <= x <= hi ==> r == x
    ensures forall y :: lo <= y <= hi ==> Dist(x, r) <= Dist(x, y)
  {
    if x < lo then lo else if x > hi then hi else x
  }

  /** The "set DDRAM address" command for a cursor position, row and column
      saturated to the 2x16 grid. */
  function CursorAddress(col: int, row: int): (a: int)
    ensures 0x80 <= a <= 0x8F || 0xC0 <= a <= 0xCF
    ensures (a - 0x80) / 0x40 == Clamp(row, 0, 1)
    ensures (a - 0x80) % 0x40 == Clamp(col, 0, 15)
    ensures 0 <= col <= 15 && 0 <= row <= 1 ==> a == 0x80 + 0x40 * row + col
  {
    0x80 + 0x40 * Clamp(row, 0, 1) + Clamp(col, 0, 15)
  }

  /** How the controller receives one character of a message: a newline
      moves to the second line, anything else is displayed. */
  function MessageTransfer(ch: char): (t: Transfer)
    ensures t.Character? <==> ch != '\n'
    ensures t.Instruction? ==> t.code == ToByte(SECOND_LINE_COMMAND)
    ensures t.Character? ==> t.code == CodeByte(ch)
  {
    if ch == '\n' then Instruction(ToByte(SECOND_LINE_COMMAND)) else Character(CodeByte(ch))
  }

  function MessageTransfers(text: string): (ts: seq<Transfer>)
    ensures |ts| == |text|
  {
    seq(|text|, i requires 0 <= i < |text| => MessageTransfer(text[i]))
  }

  lemma MessageNewline(addr: int, text: string, i: nat)
    requires i < |text| && text[i] == '\n'
    ensures SendAll(addr, MessageTransfers(text)[..i + 1])
         == SendAll(addr, MessageTransfers(text)[..i]) + Frame(addr, ToByte(0xC0), false)
  {
    SendAllPrefix(addr, MessageTransfers(text), i);
  }

  lemma MessageCharacter(addr: int, text: string, i: nat)
    requires i < |text| && text[i] != '\n'
    ensures SendAll(addr, MessageTransfers(text)[..i + 1])
         == SendAll(addr, MessageTransfers(text)[..i]) + Frame(addr, ToByte(text[i] as int), true)
  {
    SendAllPrefix(addr, MessageTransfers(text), i);
  }

  /** A cursor move followed by every character as display data; newlines
      included. */
  function CoordinateTransfers(col: int, row: int, letters: string): (ts: seq<Transfer>)
    ensures |ts| == |letters| + 1
  {
    [Instruction(ToByte(CursorAddress(col, row)))]
      + seq(|letters|, i requires 0 <= i < |letters| => Character(CodeByte(letters[i])))
  }

  lemma CoordinateStart(addr: int, col: int, row: int, letters: string)
    ensures SendAll(addr, CoordinateTransfers(col, row, letters)[..1]) == Frame(addr, ToByte(CursorAddress(col, row)), false)
  {
  }

  lemma CoordinateStep(addr: int, col: int, row: int, letters: string, i: nat)
    requires i < |letters|
    ensures SendAll(addr, CoordinateTransfers(col, row, letters)[..i + 2])
         == SendAll(addr, CoordinateTransfers(col, row, letters)[..i + 1]) + Frame(addr, ToByte(letters[i] as int), true)
  {
    var ts := CoordinateTransfers(col, row, letters);
    SendAllPrefix(addr, ts, i + 1);
  }

  /** Everything the constructor writes once the address is resolved: 8-bit
      mode, 4-bit mode, two lines with a 5x7 font, display on without
      cursor, clear; then the backlight byte on its own. */
  function PowerOnTrace(addr: int): seq<Event>
  {
    Frame(addr, ToByte(0x33), false) + [Delay(INIT_DELAY_MS)]
      + Frame(addr, ToByte(0x32), false) + [Delay(INIT_DELAY_MS)]
      + Frame(addr, ToByte(0x28), false) + [Delay(INIT_DELAY_MS)]
      + Frame(addr, ToByte(0x0C), false) + [Delay(INIT_DELAY_MS)]
      + Frame(addr, ToByte(0x01), false)
      + [Write(addr, BACKLIGHT)]
  }

  lemma PowerOnAssociates(start: seq<Event>, f0: seq<Event>, f1: seq<Event>, f2: seq<Event>, f3: seq<Event>,
                          f4: seq<Event>, d: seq<Event>, b: seq<Event>)
    ensures start + f0 + d + f1 + d + f2 + d + f3 + d + f4 + b
         == start + (f0 + d + f1 + d + f2 + d + f3 + d + f4 + b)
  {
  }

  /** Resolves the display's address from a bus scan. */
  function ResolveAddress(addresses: seq<int>): (r: Result<int, DeviceError>)
    ensures r.Success? <==> DEVICE_ADDRESS in addresses
    ensures r.Success? ==> r.value == DEVICE_ADDRESS
    ensures |addresses| == 0 ==> r == Failure(NoDevicesFound)
    ensures |addresses| > 0 && DEVICE_ADDRESS !in addresses ==> r == Failure(DeviceNotFound(DEVICE_ADDRESS))
  {
    if |addresses| == 0 then Failure(NoDevicesFound)
    else if DEVICE_ADDRESS in addresses then Success(DEVICE_ADDRESS)
    else Failure(DeviceNotFound(DEVICE_ADDRESS))
  }

  class CharacterDisplay {
    const bus: Bus
    const addr: int

    /** Only the address the driver resolves can be given a display. */
    constructor (bus: Bus, addr: int)
      requires addr == DEVICE_ADDRESS
      ensures this.bus == bus && this.addr == addr
    {
      this.bus := bus;
      this.addr := addr;
    }

    /** Resolves the address, then runs the power-on sequence. Fails, having
        written nothing, when the scan lacks DEVICE_ADDRESS. */
    static method Create(bus: Bus) returns (r: Result<CharacterDisplay, DeviceError>)
      modifies bus
      ensures r.Success? <==> DEVICE_ADDRESS in bus.devices
      ensures r.Failure? ==> r.error == ResolveAddress(bus.devices).error && bus.trace == old(bus.trace)
      ensures r.Success? ==> fresh(r.value) && r.value.bus == bus && r.value.addr == DEVICE_ADDRESS
      ensures r.Success? ==> bus.trace == old(bus.trace) + PowerOnTrace(DEVICE_ADDRESS)
    {
      var addresses := bus.Scan();
      var resolved := ResolveAddress(addresses);
      if resolved.Failure? {
        return Failure(resolved.error);
      }
      var display := new CharacterDisplay(bus, resolved.value);
      ghost var start := bus.trace;
      display.SendCommand(0x33);
      bus.Sleep(INIT_DELAY_MS);
      display.SendCommand(0x32);
      bus.Sleep(INIT_DELAY_MS);
      display.SendCommand(0x28);
      bus.Sleep(INIT_DELAY_MS);
      display.SendCommand(0x0C);
      bus.Sleep(INIT_DELAY_MS);
      display.SendCommand(0x01);
      bus.WriteTo(display.addr, 0x08);
      PowerOnAssociates(start, Frame(display.addr, ToByte(0x33), false), Frame(display.addr, ToByte(0x32), false),
                        Frame(display.addr, ToByte(0x28), false), Frame(display.addr, ToByte(0x0C), false),
                        Frame(display.addr, ToByte(0x01), false), [Delay(INIT_DELAY_MS)], [Write(display.addr, BACKLIGHT)]);
      r := Success(display);
    }

    /** Writes data with the backlight bit forced on. */
    method WriteWord(data: bv8)
      modifies bus
      ensures bus.trace == old(bus.trace) + [Write(addr, data | BACKLIGHT)]
    {
      var temp := data;
      temp := temp | 0x08;
      bus.WriteTo(addr, temp);
    }

    /** Sends command to the instruction register (RS low). */
    method SendCommand(command: int)
      modifies bus
      ensures bus.trace == old(bus.trace) + Frame(addr, ToByte(command), false)
    {
      var data := AndByte(command, 0xF0);
      data := data | 0x04;
      WriteWord(data);
      bus.Sleep(PULSE_DELAY_MS);
      data := data & 0xFB;
      WriteWord(data);

      data := AndByte(command, 0x0F) << 4;
      data := data | 0x04;
      WriteWord(data);
      bus.Sleep(PULSE_DELAY_MS);
      data := data & 0xFB;
      WriteWord(data);
      var upper, lower := AndByte(command, 0xF0), AndByte(command, 0x0F) << 4;
      PulseBytes(upper, false);
      PulseBytes(lower, false);
      AppendSix(old(bus.trace),
        Write(addr, (upper | 0x04) | BACKLIGHT), Delay(PULSE_DELAY_MS), Write(addr, ((upper | 0x04) & 0xFB) | BACKLIGHT),
        Write(addr, (lower | 0x04) | BACKLIGHT), Delay(PULSE_DELAY_MS), Write(addr, ((lower | 0x04) & 0xFB) | BACKLIGHT));
    }

    /** Sends data to display data RAM (RS high). */
    method SendData(data: int)
      modifies bus
      ensures bus.trace == old(bus.trace) + Frame(addr, ToByte(data), true)
    {
      var buf := AndByte(data, 0xF0);
      buf := buf | 0x05;
      WriteWord(buf);
      bus.Sleep(PULSE_DELAY_MS);
      buf := buf & 0xFB;
      WriteWord(buf);

      buf := AndByte(data, 0x0F) << 4;
      buf := buf | 0x05;
      WriteWord(buf);
      bus.Sleep(PULSE_DELAY_MS);
      buf := buf & 0xFB;
      WriteWord(buf);
      var upper, lower := AndByte(data, 0xF0), AndByte(data, 0x0F) << 4;
      PulseBytes(upper, true);
      PulseBytes(lower, true);
      AppendSix(old(bus.trace),
        Write(addr, (upper | 0x05) | BACKLIGHT), Delay(PULSE_DELAY_MS), Write(addr, ((upper | 0x05) & 0xFB) | BACKLIGHT),
        Write(addr, (lower | 0x05) | BACKLIGHT), Delay(PULSE_DELAY_MS), Write(addr, ((lower | 0x05) & 0xFB) | BACKLIGHT));
    }

    method ClearScreen()
      modifies bus
      ensures bus.trace == old(bus.trace) + Frame(addr, ToByte(CLEAR_DISPLAY_COMMAND), false)
    {
      SendCommand(0x01);
    }

    /** A bare expander update: backlight on, no nibble framing. */
    method EnableBacklight()
      modifies bus
      ensures bus.trace == old(bus.trace) + [Write(addr, BACKLIGHT)]
    {
      bus.WriteTo(addr, 0x08);
    }

    /** Moves the cursor to (col, row), saturated to the grid, then writes
        letters there as display data. */
    method WriteLetterToCoordinate(col: int, row: int, letters: string)
      modifies bus
      ensures bus.trace == old(bus.trace) + SendAll(addr, CoordinateTransfers(col, row, letters))
    {
      var address := CursorAddress(col, row);
      SendCommand(address);
      ghost var ts := CoordinateTransfers(col, row, letters);
      CoordinateStart(addr, col, row, letters);
      for i := 0 to |letters|
        invariant bus.trace == old(bus.trace) + SendAll(addr, ts[..i + 1])
      {
        SendData(letters[i] as int);
        CoordinateStep(addr, col, row, letters, i);
      }
      assert ts[..|letters| + 1] == ts;
    }

    /** Writes text at the cursor; a newline moves to the start of the
        second line instead of being displayed. */
    method WriteMessage(text: string)
      modifies bus
      ensures bus.trace == old(bus.trace) + SendAll(addr, MessageTransfers(text))
    {
      ghost var ts := MessageTransfers(text);
      for i := 0 to |text|
        invariant bus.trace == old(bus.trace) + SendAll(addr, ts[..i])
      {
        if text[i] == '\n' {
          SendCommand(0xC0);
          MessageNewline(addr, text, i);
        } else {
          SendData(text[i] as int);
          MessageCharacter(addr, text, i);
        }
      }
      assert ts[..|text|] == ts;
    }
  }
}
