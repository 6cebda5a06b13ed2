/** The display controller's side of the bus: what an HD44780 in 4-bit mode
    latches from the expander bytes the driver writes. On each falling edge
    of EN it reads the four data lines (the upper nibble of the expander
    byte) together with RS; two such reads make one byte.

    Decoding is the inverse the framing is proved against: every frame the
    driver writes decodes to the byte it was given, and every byte sequence
    that decodes is exactly the driver's framing of what it decodes to.
 */
module ControllerView {
  import opened I2CBus
  import opened ByteArith
  import opened Lcd1602

  /** The transfer four expander bytes deliver, or None when they are not a
      well-formed nibble pair (control lines wrong, or the data lines move
      while EN falls). */
  function DecodeFrame(f: seq<bv8>): (r: Option<Transfer>)
    requires |f| == 4
    ensures r.Some? ==> forall i :: 0 <= i < 4 ==> f[i] & BACKLIGHT == BACKLIGHT
  {
    var rs := f[0] & REGISTER_SELECT == REGISTER_SELECT;
    if && f[0] & 0x0F == ControlBits(true, rs)
       && f[1] & 0x0F == ControlBits(false, rs)
       && f[2] & 0x0F == ControlBits(true, rs)
       && f[3] & 0x0F == ControlBits(false, rs)
       && f[1] & 0xF0 == f[0] & 0xF0
       && f[3] & 0xF0 == f[2] & 0xF0
    then
      var code := (f[1] & 0xF0) | (f[3] >> 4);
      Some(if rs then Character(code) else Instruction(code))
    else
      None
  }

  /** The transfers a byte stream delivers, frame by frame. */
  function DecodeStream(bytes: seq<bv8>): (r: Option<seq<Transfer>>)
    ensures r.Some? ==> |bytes| == 4 * |r.value|
    decreases |bytes|
  {
    if |bytes| == 0 then Some([])
    else if |bytes| < 4 then None
    else
      match DecodeFrame(bytes[..4])
      case None => None
      case Some(t) =>
        match DecodeStream(bytes[4..])
        case None => None
        case Some(ts) => Some([t] + ts)
  }

  /** Framing then latching gives back the byte and the register. */
  lemma FrameRoundTrip(t: Transfer)
    ensures DecodeFrame(FrameBytes(t.code, t.Character?)) == Some(t)
  {
  }

  /** Whatever decodes is exactly the framing of what it decodes to. */
  lemma FrameDecodeInverse(f: seq<bv8>)
    requires |f| == 4 && DecodeFrame(f).Some?
    ensures FrameBytes(DecodeFrame(f).value.code, DecodeFrame(f).value.Character?) == f
  {
  }

  lemma PayloadsCons(e: Event, t: seq<Event>)
    ensures Payloads([e] + t) == (if e.Write? then [e.payload] else []) + Payloads(t)
  {
  }

  lemma FramePayloads(addr: int, value: bv8, rs: bool)
    ensures Payloads(Frame(addr, value, rs)) == FrameBytes(value, rs)
  {
    var t := Frame(addr, value, rs);
    var f := FrameBytes(value, rs);
    assert t == [t[0]] + ([t[1]] + ([t[2]] + ([t[3]] + ([t[4]] + ([t[5]] + [])))));
    PayloadsCons(t[5], []);
    PayloadsCons(t[4], [t[5]] + []);
    PayloadsCons(t[3], [t[4]] + ([t[5]] + []));
    PayloadsCons(t[2], [t[3]] + ([t[4]] + ([t[5]] + [])));
    PayloadsCons(t[1], [t[2]] + ([t[3]] + ([t[4]] + ([t[5]] + []))));
    PayloadsCons(t[0], [t[1]] + ([t[2]] + ([t[3]] + ([t[4]] + ([t[5]] + [])))));
    assert Payloads(t) == [f[0], f[1], f[2], f[3]];
  }

  /** Latching one well-formed frame in front of a stream. */
  lemma DecodeStreamPrepend(f: seq<bv8>, t: Transfer, ys: seq<bv8>, ts: seq<Transfer>)
    requires |f| == 4 && DecodeFrame(f) == Some(t)
    requires DecodeStream(ys) == Some(ts)
    ensures DecodeStream(f + ys) == Some([t] + ts)
  {
  }

  /** Latching one well-formed frame after a stream. */
  lemma {:induction false} DecodeStreamAppend(xs: seq<bv8>, ts: seq<Transfer>, f: seq<bv8>, t: Transfer)
    requires DecodeStream(xs) == Some(ts)
    requires |f| == 4 && DecodeFrame(f) == Some(t)
    ensures DecodeStream(xs + f) == Some(ts + [t])
    decreases |xs|
  {
    if |xs| == 0 {
      assert xs + f == f + [];
      DecodeStreamPrepend(f, t, [], []);
      assert ts + [t] == [t] + [];
    } else {
      var head := DecodeFrame(xs[..4]).value;
      var rest := DecodeStream(xs[4..]).value;
      DecodeStreamAppend(xs[4..], rest, f, t);
      assert xs + f == xs[..4] + (xs[4..] + f);
      DecodeStreamPrepend(xs[..4], head, xs[4..] + f, rest + [t]);
      assert ts + [t] == [head] + (rest + [t]);
    }
  }

  /** The controller receives exactly ts, in order, and nothing else: four
      bytes per transfer. */
  lemma {:induction false} SendAllDecodes(addr: int, ts: seq<Transfer>)
    ensures |Payloads(SendAll(addr, ts))| == 4 * |ts|
    ensures DecodeStream(Payloads(SendAll(addr, ts))) == Some(ts)
  {
    if ts != [] {
      var init, last := ts[..|ts| - 1], ts[|ts| - 1];
      SendAllDecodes(addr, init);
      PayloadsAppend(SendAll(addr, init), Send(addr, last));
      FramePayloads(addr, last.code, last.Character?);
      FrameRoundTrip(last);
      DecodeStreamAppend(Payloads(SendAll(addr, init)), init, FrameBytes(last.code, last.Character?), last);
      assert init + [last] == ts;
    }
  }

  /** Every byte the driver writes while sending ts goes to addr and keeps
      the backlight on. */
  lemma {:induction false} SendAllBacklight(addr: int, ts: seq<Transfer>)
    ensures forall e :: e in SendAll(addr, ts) && e.Write? ==> e.addr == addr && e.payload & BACKLIGHT == BACKLIGHT
  {
    if ts != [] {
      SendAllBacklight(addr, ts[..|ts| - 1]);
      var last := ts[|ts| - 1];
      var f := FrameBytes(last.code, last.Character?);
      assert forall i :: 0 <= i < 4 ==> f[i] & BACKLIGHT == BACKLIGHT;
    }
  }

  /** A message reaches the controller character for character: data for
      every character but a newline, the second-line command for each
      newline, and no data frame for any newline. */
  lemma MessageDecodes(addr: int, text: string)
    ensures |Payloads(SendAll(addr, MessageTransfers(text)))| == 4 * |text|
    ensures DecodeStream(Payloads(SendAll(addr, MessageTransfers(text)))) == Some(MessageTransfers(text))
    ensures forall i :: 0 <= i < |text| ==>
      (MessageTransfers(text)[i].Character? <==> text[i] != '\n')
  {
    SendAllDecodes(addr, MessageTransfers(text));
    forall i | 0 <= i < |text|
      ensures MessageTransfers(text)[i].Character? <==> text[i] != '\n'
    {
      assert MessageTransfers(text)[i] == MessageTransfer(text[i]);
    }
  }

  /** A cursor move with letters reaches the controller as one instruction
      carrying the clamped cursor address, then every letter, newlines
      included, as display data. */
  lemma CoordinateDecodes(addr: int, col: int, row: int, letters: string)
    ensures |Payloads(SendAll(addr, CoordinateTransfers(col, row, letters)))| == 4 * |letters| + 4
    ensures DecodeStream(Payloads(SendAll(addr, CoordinateTransfers(col, row, letters))))
      == Some(CoordinateTransfers(col, row, letters))
    ensures CoordinateTransfers(col, row, letters)[0] == Instruction(ToByte(CursorAddress(col, row)))
    ensures forall i :: 0 <= i < |letters| ==>
      CoordinateTransfers(col, row, letters)[i + 1] == Character(CodeByte(letters[i]))
  {
    var ts := CoordinateTransfers(col, row, letters);
    SendAllDecodes(addr, ts);
    forall i | 0 <= i < |letters|
      ensures ts[i + 1] == Character(CodeByte(letters[i]))
    {
    }
  }

  lemma CoordinateExampleTransfers()
    ensures CoordinateTransfers(20, -3, "Hi") == [Instruction(0x8F), Character(0x48), Character(0x69)]
  {
    var ts := CoordinateTransfers(20, -3, "Hi");
    assert CursorAddress(20, -3) == 0x8F;
    assert ToByte(0x8F) == 0x8F;
    assert ts[1] == Character(CodeByte('H'));
    assert ts[2] == Character(CodeByte('i'));
  }

  /** Out-of-range coordinates saturate: (20, -3) is column 15 of the
      first line, so "Hi" lands at DDRAM address 0x0F. */
  lemma CoordinateExample(addr: int)
    ensures DecodeStream(Payloads(SendAll(addr, CoordinateTransfers(20, -3, "Hi"))))
      == Some([Instruction(0x8F), Character(0x48), Character(0x69)])
  {
    CoordinateExampleTransfers();
    SendAllDecodes(addr, CoordinateTransfers(20, -3, "Hi"));
  }

  /** "AB\nCD": two characters, the second-line command, two characters. */
  lemma MessageExample(addr: int)
    ensures DecodeStream(Payloads(SendAll(addr, MessageTransfers("AB\nCD"))))
      == Some([Character(0x41), Character(0x42), Instruction(0xC0), Character(0x43), Character(0x44)])
  {
    var ts := MessageTransfers("AB\nCD");
    assert ts == [Character(0x41), Character(0x42), Instruction(0xC0), Character(0x43), Character(0x44)] by {
      assert ts[0] == MessageTransfer('A');
      assert ts[1] == MessageTransfer('B');
      assert ts[2] == MessageTransfer('\n');
      assert ts[3] == MessageTransfer('C');
      assert ts[4] == MessageTransfer('D');
    }
    SendAllDecodes(addr, ts);
  }

  lemma DelayedPayloads(a: seq<Event>, rest: seq<Event>)
    ensures Payloads(a + ([Delay(INIT_DELAY_MS)] + rest)) == Payloads(a) + Payloads(rest)
  {
    PayloadsCons(Delay(INIT_DELAY_MS), rest);
    PayloadsAppend(a, [Delay(INIT_DELAY_MS)] + rest);
  }

  lemma PowerOnShapePayloads(a0: seq<Event>, a1: seq<Event>, a2: seq<Event>, a3: seq<Event>, a4: seq<Event>, b: Event)
    requires b.Write?
    ensures
      var d := [Delay(INIT_DELAY_MS)];
      Payloads(a0 + d + a1 + d + a2 + d + a3 + d + a4 + [b])
      == Payloads(a0) + (Payloads(a1) + (Payloads(a2) + (Payloads(a3) + (Payloads(a4) + [b.payload]))))
  {
    var d := [Delay(INIT_DELAY_MS)];
    var r4 := a4 + [b];
    var r3 := a3 + (d + r4);
    var r2 := a2 + (d + r3);
    var r1 := a1 + (d + r2);
    var r0 := a0 + (d + r1);
    assert a0 + d + a1 + d + a2 + d + a3 + d + a4 + [b] == r0;
    PayloadsCons(b, []);
    PayloadsAppend(a4, [b]);
    assert Payloads(r4) == Payloads(a4) + [b.payload];
    DelayedPayloads(a3, r4);
    DelayedPayloads(a2, r3);
    DelayedPayloads(a1, r2);
    DelayedPayloads(a0, r1);
    calc {
      Payloads(r0);
      Payloads(a0) + Payloads(r1);
      Payloads(a0) + (Payloads(a1) + Payloads(r2));
      Payloads(a0) + (Payloads(a1) + (Payloads(a2) + Payloads(r3)));
      Payloads(a0) + (Payloads(a1) + (Payloads(a2) + (Payloads(a3) + Payloads(r4))));
    }
  }

  lemma PowerOnCodes()
    ensures ToByte(0x33) == 0x33 && ToByte(0x32) == 0x32
    ensures ToByte(0x28) == 0x28 && ToByte(0x0C) == 0x0C
    ensures ToByte(0x01) == 0x01
  {
  }

  lemma PowerOnPayloads(addr: int)
    ensures Payloads(PowerOnTrace(addr))
      == FrameBytes(0x33, false) + (FrameBytes(0x32, false) + (FrameBytes(0x28, false)
         + (FrameBytes(0x0C, false) + (FrameBytes(0x01, false) + [BACKLIGHT]))))
  {
    PowerOnShapePayloads(Frame(addr, ToByte(0x33), false), Frame(addr, ToByte(0x32), false),
                         Frame(addr, ToByte(0x28), false), Frame(addr, ToByte(0x0C), false),
                         Frame(addr, ToByte(0x01), false), Write(addr, BACKLIGHT));
    PowerOnCodes();
    FramePayloads(addr, 0x33, false);
    FramePayloads(addr, 0x32, false);
    FramePayloads(addr, 0x28, false);
    FramePayloads(addr, 0x0C, false);
    FramePayloads(addr, 0x01, false);
  }

  lemma DecodeFive(f0: seq<bv8>, f1: seq<bv8>, f2: seq<bv8>, f3: seq<bv8>, f4: seq<bv8>,
                   t0: Transfer, t1: Transfer, t2: Transfer, t3: Transfer, t4: Transfer)
    requires |f0| == 4 && DecodeFrame(f0) == Some(t0)
    requires |f1| == 4 && DecodeFrame(f1) == Some(t1)
    requires |f2| == 4 && DecodeFrame(f2) == Some(t2)
    requires |f3| == 4 && DecodeFrame(f3) == Some(t3)
    requires |f4| == 4 && DecodeFrame(f4) == Some(t4)
    ensures DecodeStream(f0 + (f1 + (f2 + (f3 + f4)))) == Some([t0, t1, t2, t3, t4])
  {
    DecodeStreamPrepend(f4, t4, [], []);
    assert f4 + [] == f4;
    DecodeStreamPrepend(f3, t3, f4, [t4] + []);
    DecodeStreamPrepend(f2, t2, f3 + f4, [t3] + ([t4] + []));
    DecodeStreamPrepend(f1, t1, f2 + (f3 + f4), [t2] + ([t3] + ([t4] + [])));
    DecodeStreamPrepend(f0, t0, f1 + (f2 + (f3 + f4)), [t1] + ([t2] + ([t3] + ([t4] + []))));
    assert [t0] + ([t1] + ([t2] + ([t3] + ([t4] + [])))) == [t0, t1, t2, t3, t4];
  }

  /** The power-on writes: the five initialisation instructions framed in
      order, then the bare backlight byte; 21 bytes in all. */
  lemma PowerOnDecodes(addr: int)
    ensures |Payloads(PowerOnTrace(addr))| == 21
    ensures Payloads(PowerOnTrace(addr))[20] == BACKLIGHT
    ensures DecodeStream(Payloads(PowerOnTrace(addr))[..20])
      == Some([Instruction(0x33), Instruction(0x32), Instruction(0x28), Instruction(0x0C), Instruction(0x01)])
  {
    var t0, t1, t2, t3, t4 := Instruction(0x33), Instruction(0x32), Instruction(0x28), Instruction(0x0C), Instruction(0x01);
    var f0, f1, f2, f3, f4 := FrameBytes(0x33, false), FrameBytes(0x32, false), FrameBytes(0x28, false),
                              FrameBytes(0x0C, false), FrameBytes(0x01, false);
    PowerOnPayloads(addr);
    var p := Payloads(PowerOnTrace(addr));
    assert p == f0 + (f1 + (f2 + (f3 + (f4 + [BACKLIGHT]))));
    assert p[..20] == f0 + (f1 + (f2 + (f3 + f4)));
    FrameRoundTrip(t0);
    FrameRoundTrip(t1);
    FrameRoundTrip(t2);
    FrameRoundTrip(t3);
    FrameRoundTrip(t4);
    DecodeFive(f0, f1, f2, f3, f4, t0, t1, t2, t3, t4);
  }

  /** The bytes of a command frame as the driver's bit operations produce
      them: the data nibble over EN|backlight (0x0C), then over the
      backlight alone (0x08). */
  lemma CommandFrameBytes(command: int)
    ensures FrameBytes(ToByte(command), false)
      == [AndByte(command, 0xF0) | 0x0C, AndByte(command, 0xF0) | 0x08,
          (AndByte(command, 0x0F) << 4) | 0x0C, (AndByte(command, 0x0F) << 4) | 0x08]
  {
  }

  /** The same for a data frame, with RS added: 0x0D, then 0x09. */
  lemma DataFrameBytes(data: int)
    ensures FrameBytes(ToByte(data), true)
      == [AndByte(data, 0xF0) | 0x0D, AndByte(data, 0xF0) | 0x09,
          (AndByte(data, 0x0F) << 4) | 0x0D, (AndByte(data, 0x0F) << 4) | 0x09]
  {
  }
}
