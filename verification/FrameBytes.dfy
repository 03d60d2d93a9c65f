/**
 The wire format byte by byte: what section 5.2 of RFC 6455 puts where, what each opcode means
 (src/modules/ws.rs, build_frame_with_opcode and read_frame), and the examples of section 5.7.
 */
module FrameBytes {
  import opened Bytes
  import opened Frames
  import opened Downstream

  // -------- what each opcode reads as --------

  lemma CloseBytes(p: seq<byte>)
    ensures |p| < 2 ==> ParseClose(p) == CloseInfo(None, None)
    ensures |p| == 2 ==> ParseClose(p) == CloseInfo(Some(256 * (p[0] as int) + p[1]), None)
    ensures |p| > 2 ==> ParseClose(p) == CloseInfo(Some(256 * (p[0] as int) + p[1]), Some(PeerText(p[2..])))
  {
    if |p| >= 2 {
      FromBigEndianTwo(p[0], p[1]);
      assert p[..2] == [p[0], p[1]];
    }
  }

  lemma ClassTable(opcode: nibble, p: seq<byte>)
    ensures opcode in {0, 1, 2} ==> Classify(opcode, p) == Binary(p)
    ensures opcode == 9 ==> Classify(opcode, p) == Ping(p)
    ensures opcode == 10 ==> Classify(opcode, p) == Pong(p)
    ensures opcode in {3, 4, 5, 6, 7, 11, 12, 13, 14, 15} ==> Classify(opcode, p) == Other(p)
    ensures opcode == 8 ==> Classify(opcode, p) == Close(ParseClose(p))
  {
  }

  /** Any frame on the wire, whatever its other bits and its length form, read by its opcode. */
  lemma OpcodeTable(w: WireFrame, more: seq<byte>)
    requires |w.payload| < LENGTHS
    ensures var d, p := Decode(Encode(w) + more), w.payload;
      && (w.opcode in {0, 1, 2} ==> d == Got(Binary(p), more))
      && (w.opcode == 9 ==> d == Got(Ping(p), more))
      && (w.opcode == 10 ==> d == Got(Pong(p), more))
      && (w.opcode in {3, 4, 5, 6, 7, 11, 12, 13, 14, 15} ==> d == Got(Other(p), more))
      && (w.opcode == 8 && |p| < 2 ==> d == Got(Close(CloseInfo(None, None)), more))
      && (w.opcode == 8 && |p| == 2 ==> d == Got(Close(CloseInfo(Some(256 * (p[0] as int) + p[1]), None)), more))
      && (w.opcode == 8 && |p| > 2 ==>
            d == Got(Close(CloseInfo(Some(256 * (p[0] as int) + p[1]), Some(PeerText(p[2..])))), more))
  {
    DecodeEncoded(w, more);
    ClassTable(w.opcode, w.payload);
    CloseBytes(w.payload);
  }

  /** The receiving loop, likewise: pongs vanish, and an opcode it does not know closes the session with the proxy's own reason. */
  lemma ReceiveTable(w: WireFrame, more: seq<byte>)
    requires |w.payload| < LENGTHS
    ensures var r, p := Recv(Encode(w) + more), w.payload;
      && (w.opcode in {0, 1, 2} ==> r == Message(InData(p), more))
      && (w.opcode == 9 ==> r == Message(InPing(p), more))
      && (w.opcode == 10 ==> r == Recv(more))
      && (w.opcode in {3, 4, 5, 6, 7, 11, 12, 13, 14, 15} ==>
            r == Message(InClose(CloseInfo(None, Some(UnexpectedFrame))), more))
      && (w.opcode == 8 ==> r.Message? && r.msg.InClose? && r.rest == more)
      && (w.opcode == 8 && |p| >= 2 ==> r.msg.info.code == Some(256 * (p[0] as int) + p[1]))
  {
    OpcodeTable(w, more);
    RecvFirst(Encode(w) + more, Decode(Encode(w) + more).frame, more);
  }

  /** A stream that stops between frames, or one byte into one, ends cleanly; one that stops later is broken. */
  lemma EndTable(w: WireFrame, n: nat)
    requires |w.payload| < LENGTHS && n < |Encode(w)|
    ensures n < 2 ==> Recv(Encode(w)[..n]) == Ended
    ensures n >= 2 ==> Recv(Encode(w)[..n]) == Broken
    ensures Recv([]) == Ended && forall b: byte :: Recv([b]) == Ended
  {
    PrefixFree(w, n);
  }

  // -------- what is where --------

  /** Every encoded frame: flags and opcode, mask bit and the shortest length form, then the length's own bytes. */
  lemma HeaderBytes(w: WireFrame)
    requires |w.payload| < LENGTHS
    ensures var e, n, mask := Encode(w), |w.payload|, if w.key.Some? then 128 else 0;
      && |e| >= 2 && e[0] == (if w.fin then 128 else 0) + 16 * w.rsv + w.opcode
      && (n < 126 ==> |e| == 2 + mask / 32 + n && e[1] == mask + n)
      && (126 <= n < 65536 ==> |e| == 4 + mask / 32 + n && e[1] == mask + 126 && e[2] == n / 256 && e[3] == n % 256)
      && (n >= 65536 ==> |e| == 10 + mask / 32 + n && e[1] == mask + 127 && FromBigEndian(e[2..10]) == n)
  {
    var e, n := Encode(w), |w.payload|;
    if 126 <= n < 65536 {
      BigEndianTwo(n);
    } else if n >= 65536 {
      assert Pow256(8) == LENGTHS;
      BigEndianRoundTrip(n, 8);
      assert e[2..10] == BigEndian(n, 8);
    }
  }

  /** The payload ends the frame; masked, it follows its four key bytes, and byte i is combined with key byte i mod 4. */
  lemma PayloadBytes(w: WireFrame)
    ensures var e, n := Encode(w), |w.payload|;
      && |e| >= n + 2
      && (w.key.None? ==> e[|e| - n..] == w.payload)
      && (w.key.Some? ==>
            && |e| >= n + 6 && e[|e| - n - 4..|e| - n] == w.key.value
            && forall i | 0 <= i < n :: e[|e| - n + i] == Xor(w.payload[i], w.key.value[i % 4]))
  {
    var e, n := Encode(w), |w.payload|;
    if w.key.Some? {
      assert e == Header(w) + w.key.value + Masked(w.payload, w.key.value);
      assert e[|e| - n - 4..|e| - n] == w.key.value;
    }
  }

  // -------- section 5.7 of RFC 6455 --------

  const HELLO: seq<byte> := [0x48, 0x65, 0x6c, 0x6c, 0x6f]
  const RFC_KEY: MaskKey := [0x37, 0xfa, 0x21, 0x3d]

  lemma MaskedFive(p: seq<byte>, k: MaskKey)
    requires |p| == 5
    ensures Masked(p, k) == [Xor(p[0], k[0]), Xor(p[1], k[1]), Xor(p[2], k[2]), Xor(p[3], k[3]), Xor(p[4], k[0])]
  {
  }

  lemma HelloByte0()
    ensures Xor(HELLO[0], RFC_KEY[0]) == 0x7f
  {
    XorNibbles(HELLO[0], RFC_KEY[0],
      Nibble(false, true, false, false), Nibble(true, false, false, false),
      Nibble(false, false, true, true), Nibble(false, true, true, true));
  }

  lemma HelloByte1()
    ensures Xor(HELLO[1], RFC_KEY[1]) == 0x9f
  {
    XorNibbles(HELLO[1], RFC_KEY[1],
      Nibble(false, true, true, false), Nibble(false, true, false, true),
      Nibble(true, true, true, true), Nibble(true, false, true, false));
  }

  lemma HelloByte2()
    ensures Xor(HELLO[2], RFC_KEY[2]) == 0x4d
  {
    XorNibbles(HELLO[2], RFC_KEY[2],
      Nibble(false, true, true, false), Nibble(true, true, false, false),
      Nibble(false, false, true, false), Nibble(false, false, false, true));
  }

  lemma HelloByte3()
    ensures Xor(HELLO[3], RFC_KEY[3]) == 0x51
  {
    XorNibbles(HELLO[3], RFC_KEY[3],
      Nibble(false, true, true, false), Nibble(true, true, false, false),
      Nibble(false, false, true, true), Nibble(true, true, false, true));
  }

  lemma HelloByte4()
    ensures Xor(HELLO[4], RFC_KEY[0]) == 0x58
  {
    XorNibbles(HELLO[4], RFC_KEY[0],
      Nibble(false, true, true, false), Nibble(true, true, true, true),
      Nibble(false, false, true, true), Nibble(false, true, true, true));
  }

  lemma MaskedHello()
    ensures Masked(HELLO, RFC_KEY) == [0x7f, 0x9f, 0x4d, 0x51, 0x58]
  {
    MaskedFive(HELLO, RFC_KEY);
    HelloByte0();
    HelloByte1();
    HelloByte2();
    HelloByte3();
    HelloByte4();
  }

  lemma ShortFrame(opcode: nibble, key: Option<MaskKey>, p: seq<byte>, body: seq<byte>)
    requires |p| < 126
    requires body == if key.Some? then key.value + Masked(p, key.value) else p
    ensures Encode(WireFrame(true, 0, opcode, key, p)) == [128 + opcode, |p| + if key.Some? then 128 else 0] + body
  {
    AppendNothing([128 + opcode, |p| + if key.Some? then 128 else 0]);
  }

  /** The unmasked and masked text messages, the unmasked ping and the masked pong. */
  lemma Examples()
    ensures Encode(WireFrame(true, 0, 1, None, HELLO)) == [0x81, 0x05] + HELLO
    ensures Encode(WireFrame(true, 0, 1, Some(RFC_KEY), HELLO)) ==
      [0x81, 0x85, 0x37, 0xfa, 0x21, 0x3d, 0x7f, 0x9f, 0x4d, 0x51, 0x58]
    ensures Encode(WireFrame(true, 0, 9, None, HELLO)) == [0x89, 0x05] + HELLO
    ensures Encode(WireFrame(true, 0, 10, Some(RFC_KEY), HELLO)) ==
      [0x8a, 0x85, 0x37, 0xfa, 0x21, 0x3d, 0x7f, 0x9f, 0x4d, 0x51, 0x58]
  {
    ShortFrame(1, None, HELLO, HELLO);
    ShortFrame(9, None, HELLO, HELLO);
    MaskedExample(1);
    MaskedExample(10);
  }

  lemma MaskedExample(opcode: nibble)
    ensures Encode(WireFrame(true, 0, opcode, Some(RFC_KEY), HELLO)) ==
      [128 + opcode, 0x85, 0x37, 0xfa, 0x21, 0x3d, 0x7f, 0x9f, 0x4d, 0x51, 0x58]
  {
    MaskedHello();
    var body := [0x37, 0xfa, 0x21, 0x3d, 0x7f, 0x9f, 0x4d, 0x51, 0x58];
    assert body == RFC_KEY + [0x7f, 0x9f, 0x4d, 0x51, 0x58];
    ShortFrame(opcode, Some(RFC_KEY), HELLO, body);
  }

  /** And read back from those bytes. */
  lemma ExamplesRead(more: seq<byte>)
    ensures Decode([0x89, 0x05] + HELLO + more) == Got(Ping(HELLO), more)
    ensures Decode([0x81, 0x85, 0x37, 0xfa, 0x21, 0x3d, 0x7f, 0x9f, 0x4d, 0x51, 0x58] + more) == Got(Binary(HELLO), more)
    ensures Decode([0x8a, 0x85, 0x37, 0xfa, 0x21, 0x3d, 0x7f, 0x9f, 0x4d, 0x51, 0x58] + more) == Got(Pong(HELLO), more)
  {
    Examples();
    OpcodeTable(WireFrame(true, 0, 9, None, HELLO), more);
    OpcodeTable(WireFrame(true, 0, 1, Some(RFC_KEY), HELLO), more);
    OpcodeTable(WireFrame(true, 0, 10, Some(RFC_KEY), HELLO), more);
  }

  // -------- a whole server stream, by opcode --------

  predicate Known(w: WireFrame) {
    w.opcode in {0, 1, 2, 9, 10}
  }

  /** The payloads of the frames with opcode 9 before the first with an opcode outside 0, 1, 2, 9 and 10. */
  function PingPayloads(ws: seq<WireFrame>): seq<seq<byte>> {
    if ws == [] || !Known(ws[0]) then []
    else (if ws[0].opcode == 9 then [ws[0].payload] else []) + PingPayloads(ws[1..])
  }

  /** The payloads, joined, of the frames with opcodes 0, 1 and 2 before that. */
  function DataPayloads(ws: seq<WireFrame>): seq<byte> {
    if ws == [] || !Known(ws[0]) then []
    else (if ws[0].opcode <= 2 then ws[0].payload else []) + DataPayloads(ws[1..])
  }

  ghost predicate AllKnown(ws: seq<WireFrame>) {
    forall i | 0 <= i < |ws| :: Known(ws[i])
  }

  /** One frame more at the front, by its opcode. */
  lemma DrainByOpcode(w: WireFrame, more: seq<byte>)
    requires |w.payload| < LENGTHS
    ensures var t, u := Drain(Encode(w) + more), Drain(more);
      && (Known(w) ==> t.data == (if w.opcode <= 2 then w.payload else []) + u.data)
      && (Known(w) ==> t.pings == (if w.opcode == 9 then [w.payload] else []) + u.pings)
      && (Known(w) ==> t.ending == u.ending)
      && (!Known(w) ==> t.data == [] && t.pings == [] && t.ending.ByClose?)
  {
    OpcodeTable(w, more);
    ReceiveTable(w, more);
    DrainFrame(Encode(w) + more, Decode(Encode(w) + more).frame, more);
    if !Known(w) {
      var r := Recv(Encode(w) + more);
      DrainMessage(Encode(w) + more, r.msg, r.rest);
    }
  }

  ghost predicate DrainsOne(encode: WireFrame -> seq<byte>, drain: seq<byte> -> Transcript, w: WireFrame) {
    forall more: seq<byte> ::
      var t, u := drain(encode(w) + more), drain(more);
      && (Known(w) ==> t.data == (if w.opcode <= 2 then w.payload else []) + u.data)
      && (Known(w) ==> t.pings == (if w.opcode == 9 then [w.payload] else []) + u.pings)
      && (!Known(w) ==> t.data == [] && t.pings == [])
  }

  lemma {:induction false} DrainAll(encode: WireFrame -> seq<byte>, drain: seq<byte> -> Transcript,
      ws: seq<WireFrame>, tail: seq<byte>)
    requires forall i | 0 <= i < |ws| :: DrainsOne(encode, drain, ws[i])
    ensures var t := drain(FlatMap(encode, ws) + tail);
      && t.data == DataPayloads(ws) + (if AllKnown(ws) then drain(tail).data else [])
      && t.pings == PingPayloads(ws) + (if AllKnown(ws) then drain(tail).pings else [])
  {
    if ws == [] {
      AppendNothing(tail);
      AppendNothing(drain(tail).data);
      AppendNothing(drain(tail).pings);
    } else {
      var w, more := ws[0], FlatMap(encode, ws[1..]) + tail;
      AppendAssoc(encode(w), FlatMap(encode, ws[1..]), tail);
      assert DrainsOne(encode, drain, ws[0]);
      if Known(w) {
        DrainAll(encode, drain, ws[1..], tail);
        AllKnownCons(ws);
        var rest := if AllKnown(ws) then drain(tail) else Transcript([], [], ByEof);
        AppendAssoc(if w.opcode <= 2 then w.payload else [], DataPayloads(ws[1..]), rest.data);
        AppendAssoc(if w.opcode == 9 then [w.payload] else [], PingPayloads(ws[1..]), rest.pings);
      }
    }
  }

  lemma AllKnownCons(ws: seq<WireFrame>)
    requires ws != []
    ensures AllKnown(ws) <==> Known(ws[0]) && AllKnown(ws[1..])
  {
    if Known(ws[0]) && AllKnown(ws[1..]) {
      forall i | 0 <= i < |ws| ensures Known(ws[i]) {
        assert i > 0 ==> ws[i] == ws[1..][i - 1];
      }
    }
  }

  /** What a server that sends these frames gets through to the client, and what it must be answered. */
  lemma DrainedByOpcode(ws: seq<WireFrame>, tail: seq<byte>)
    requires Fits(ws)
    ensures var t := Drain(EncodeAll(ws) + tail);
      && t.data == DataPayloads(ws) + (if AllKnown(ws) then Drain(tail).data else [])
      && t.pings == PingPayloads(ws) + (if AllKnown(ws) then Drain(tail).pings else [])
  {
    forall i | 0 <= i < |ws| ensures DrainsOne(Encode, Drain, ws[i]) {
      forall more: seq<byte>
        ensures var t, u, w := Drain(Encode(ws[i]) + more), Drain(more), ws[i];
          && (Known(w) ==> t.data == (if w.opcode <= 2 then w.payload else []) + u.data)
          && (Known(w) ==> t.pings == (if w.opcode == 9 then [w.payload] else []) + u.pings)
          && (!Known(w) ==> t.data == [] && t.pings == [])
      {
        DrainByOpcode(ws[i], more);
      }
    }
    DrainAll(Encode, Drain, ws, tail);
  }
}
