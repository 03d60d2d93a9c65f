/**
 WebSocket frames (src/modules/ws.rs): the wire format of section 5.2 of RFC 6455, the encoder
 that masks every frame, and the decoder that both relay directions rest on.
 */
module Frames {
  import opened Bytes

  /** Lengths are 64-bit. */
  const LENGTHS: nat := 0x1_0000_0000_0000_0000

  /** The peer's close text, undecoded, or the proxy's own "unexpected_ws_frame". */
  datatype CloseReason = PeerText(raw: seq<byte>) | UnexpectedFrame

  datatype CloseInfo = CloseInfo(code: Option<nat>, reason: Option<CloseReason>)

  datatype Frame =
    | Binary(payload: seq<byte>)
    | Ping(payload: seq<byte>)
    | Pong(payload: seq<byte>)
    | Close(info: CloseInfo)
    | Other(payload: seq<byte>)

  /** The answer of one read: a frame and the bytes behind it, a clean end, or an end inside a frame. */
  datatype Decoded = Got(frame: Frame, rest: seq<byte>) | NoFrame | Truncated

  // -------- the wire format --------

  type MaskKey = k: seq<byte> | |k| == 4 witness [0, 0, 0, 0]
  type nibble = n: nat | n < 16
  type rsvbits = n: nat | n < 8

  /** A frame as section 5.2 of RFC 6455 lays it out; `key` is the masking key when the mask bit is set. */
  datatype WireFrame = WireFrame(fin: bool, rsv: rsvbits, opcode: nibble, key: Option<MaskKey>, payload: seq<byte>)

  function Masked(p: seq<byte>, key: MaskKey): (r: seq<byte>)
    ensures |r| == |p|
  {
    seq(|p|, i requires 0 <= i < |p| => Xor(p[i], key[i % 4]))
  }

  lemma MaskedTwice(p: seq<byte>, key: MaskKey)
    ensures Masked(Masked(p, key), key) == p
  {
    forall i | 0 <= i < |p| ensures Masked(Masked(p, key), key)[i] == p[i] {
      XorCancels(p[i], key[i % 4]);
    }
  }

  /** The seven-bit length field: the length itself, or the marker of a longer form. */
  function LengthField(n: nat): (b: nat)
    ensures b < 128
  {
    if n < 126 then n else if n < 65536 then 126 else 127
  }

  /** How many extended-length bytes follow a given second header byte. */
  function ExtSize(b1: byte): nat {
    if b1 % 128 == 126 then 2 else if b1 % 128 == 127 then 8 else 0
  }

  function KeySize(b1: byte): nat {
    if b1 >= 128 then 4 else 0
  }

  function SecondByte(w: WireFrame): byte {
    LengthField(|w.payload|) + if w.key.Some? then 128 else 0
  }

  function Header(w: WireFrame): seq<byte> {
    [(if w.fin then 128 else 0) + 16 * w.rsv + w.opcode, SecondByte(w)]
    + BigEndian(|w.payload|, ExtSize(SecondByte(w)))
  }

  function Body(w: WireFrame): seq<byte> {
    if w.key.Some? then w.key.value + Masked(w.payload, w.key.value) else w.payload
  }

  function Encode(w: WireFrame): seq<byte> {
    Header(w) + Body(w)
  }

  function EncodeAll(ws: seq<WireFrame>): seq<byte> {
    FlatMap(Encode, ws)
  }

  /** Payloads fit the 64-bit length field, as every buffer in memory does. */
  ghost predicate Fits(ws: seq<WireFrame>) {
    forall i | 0 <= i < |ws| :: |ws[i].payload| < LENGTHS
  }

  // -------- decoding --------

  function ParseClose(p: seq<byte>): CloseInfo {
    if |p| < 2 then CloseInfo(None, None)
    else CloseInfo(Some(FromBigEndian(p[..2])), if |p| > 2 then Some(PeerText(p[2..])) else None)
  }

  /** What an opcode makes of a payload: 0, 1 and 2 are all data, whatever the FIN bit says. */
  function Classify(opcode: nat, p: seq<byte>): Frame {
    if opcode == 8 then Close(ParseClose(p))
    else if opcode == 9 then Ping(p)
    else if opcode == 10 then Pong(p)
    else if opcode <= 2 then Binary(p)
    else Other(p)
  }

  function ClassifyAll(ws: seq<WireFrame>): (fs: seq<Frame>)
    ensures |fs| == |ws|
    ensures forall i | 0 <= i < |ws| :: fs[i] == Classify(ws[i].opcode, ws[i].payload)
  {
    if ws == [] then [] else [Classify(ws[0].opcode, ws[0].payload)] + ClassifyAll(ws[1..])
  }

  function HeaderSize(b1: byte): nat {
    2 + ExtSize(b1) + KeySize(b1)
  }

  function PayloadLength(s: seq<byte>): nat
    requires |s| >= 2 && |s| >= 2 + ExtSize(s[1])
  {
    if ExtSize(s[1]) == 0 then s[1] % 128 else FromBigEndian(s[2..2 + ExtSize(s[1])])
  }

  predicate Complete(s: seq<byte>) {
    |s| >= 2 && |s| >= HeaderSize(s[1]) && |s| >= HeaderSize(s[1]) + PayloadLength(s)
  }

  function FrameSize(s: seq<byte>): nat
    requires Complete(s)
  {
    HeaderSize(s[1]) + PayloadLength(s)
  }

  function Unmasked(s: seq<byte>): seq<byte>
    requires Complete(s)
  {
    var body := s[HeaderSize(s[1])..FrameSize(s)];
    if s[1] >= 128 then Masked(body, s[HeaderSize(s[1]) - 4..HeaderSize(s[1])]) else body
  }

  /** The decoder in closed form: everything is decided by the size the header announces. */
  function Decode(s: seq<byte>): Decoded {
    if Complete(s) then Got(Classify(s[0] % 16, Unmasked(s)), s[FrameSize(s)..])
    else if |s| < 2 then NoFrame
    else Truncated
  }

  /** The whole frames at the front of a byte string. */
  function FramesIn(s: seq<byte>): seq<Frame>
    decreases |s|
  {
    if Complete(s) then [Decode(s).frame] + FramesIn(s[FrameSize(s)..]) else []
  }

  /** The bytes behind the last whole frame. */
  function Leftover(s: seq<byte>): seq<byte>
    decreases |s|
  {
    if Complete(s) then Leftover(s[FrameSize(s)..]) else s
  }

  // -------- the decoder inverts the format --------

  lemma HeaderFacts(w: WireFrame, more: seq<byte>)
    requires |w.payload| < LENGTHS
    ensures var s := Header(w) + more;
      && s[0] % 16 == w.opcode
      && s[1] == SecondByte(w)
      && KeySize(s[1]) == (if w.key.Some? then 4 else 0)
      && |Header(w)| == 2 + ExtSize(s[1])
      && PayloadLength(s) == |w.payload|
  {
    var s := Header(w) + more;
    var ext := ExtSize(s[1]);
    if ext > 0 {
      assert s[2..2 + ext] == BigEndian(|w.payload|, ext);
      assert Pow256(2) == 65536 && Pow256(8) == LENGTHS;
      BigEndianRoundTrip(|w.payload|, ext);
    }
  }

  lemma EncodeComplete(w: WireFrame, more: seq<byte>)
    requires |w.payload| < LENGTHS
    ensures Complete(Encode(w) + more)
    ensures FrameSize(Encode(w) + more) == |Encode(w)| >= 2
    ensures Unmasked(Encode(w) + more) == w.payload
    ensures (Encode(w) + more)[0] % 16 == w.opcode
  {
    var s := Encode(w) + more;
    assert s == Header(w) + (Body(w) + more);
    HeaderFacts(w, Body(w) + more);
    var h := HeaderSize(s[1]);
    if w.key.Some? {
      assert s[h - 4..h] == w.key.value;
      assert s[h..FrameSize(s)] == Masked(w.payload, w.key.value);
      MaskedTwice(w.payload, w.key.value);
    } else {
      assert s[h..FrameSize(s)] == w.payload;
    }
  }

  /** Round trip: reading an encoded frame gives its opcode and payload back and touches nothing behind it. */
  lemma DecodeEncoded(w: WireFrame, rest: seq<byte>)
    requires |w.payload| < LENGTHS
    ensures Decode(Encode(w) + rest) == Got(Classify(w.opcode, w.payload), rest)
  {
    EncodeComplete(w, rest);
  }

  lemma FramesStep(w: WireFrame, more: seq<byte>)
    requires |w.payload| < LENGTHS
    ensures FramesIn(Encode(w) + more) == [Classify(w.opcode, w.payload)] + FramesIn(more)
    ensures Leftover(Encode(w) + more) == Leftover(more)
  {
    var e := Encode(w);
    EncodeComplete(w, more);
    assert (e + more)[|e|..] == more;
  }

  /** A scanner that takes off one frame at a time takes off a whole list of them. */
  lemma {:induction false} ScanAll(
      encode: WireFrame -> seq<byte>, scan: seq<byte> -> seq<Frame>, ws: seq<WireFrame>, tail: seq<byte>)
    requires forall i, more: seq<byte> | 0 <= i < |ws| ::
      scan(encode(ws[i]) + more) == [Classify(ws[i].opcode, ws[i].payload)] + scan(more)
    ensures scan(FlatMap(encode, ws) + tail) == ClassifyAll(ws) + scan(tail)
  {
    if ws == [] {
      AppendNothing(tail);
      AppendNothing(scan(tail));
    } else {
      AppendAssoc(encode(ws[0]), FlatMap(encode, ws[1..]), tail);
      ScanAll(encode, scan, ws[1..], tail);
      AppendAssoc([Classify(ws[0].opcode, ws[0].payload)], ClassifyAll(ws[1..]), scan(tail));
    }
  }

  lemma {:induction false} SkipAll(
      encode: WireFrame -> seq<byte>, scan: seq<byte> -> seq<byte>, ws: seq<WireFrame>, tail: seq<byte>)
    requires forall i, more: seq<byte> | 0 <= i < |ws| :: scan(encode(ws[i]) + more) == scan(more)
    ensures scan(FlatMap(encode, ws) + tail) == scan(tail)
  {
    if ws == [] {
      AppendNothing(tail);
    } else {
      AppendAssoc(encode(ws[0]), FlatMap(encode, ws[1..]), tail);
      SkipAll(encode, scan, ws[1..], tail);
    }
  }

  /** The same for a whole stream of frames followed by any bytes. */
  lemma FramesOfEncoded(ws: seq<WireFrame>, tail: seq<byte>)
    requires Fits(ws)
    ensures FramesIn(EncodeAll(ws) + tail) == ClassifyAll(ws) + FramesIn(tail)
    ensures Leftover(EncodeAll(ws) + tail) == Leftover(tail)
  {
    forall i, more: seq<byte> | 0 <= i < |ws|
      ensures FramesIn(Encode(ws[i]) + more) == [Classify(ws[i].opcode, ws[i].payload)] + FramesIn(more)
      ensures Leftover(Encode(ws[i]) + more) == Leftover(more)
    {
      FramesStep(ws[i], more);
    }
    ScanAll(Encode, FramesIn, ws, tail);
    SkipAll(Encode, Leftover, ws, tail);
  }

  // -------- truncation --------

  lemma SliceAhead<T>(s: seq<T>, t: seq<T>, i: nat, j: nat)
    requires i <= j <= |s|
    ensures (s + t)[i..j] == s[i..j] && (s + t)[j..] == s[j..] + t
  {
  }

  /** Decoding looks at the bytes of its own frame only. */
  lemma DecodeLocal(s: seq<byte>, t: seq<byte>)
    requires Complete(s)
    ensures Complete(s + t)
    ensures Decode(s + t) == Got(Decode(s).frame, Decode(s).rest + t)
    ensures FrameSize(s + t) == FrameSize(s) > 0
  {
    SliceAhead(s, t, 2, 2 + ExtSize(s[1]));
    var h, n := HeaderSize(s[1]), FrameSize(s);
    assert FrameSize(s + t) == n;
    SliceAhead(s, t, h, n);
    if s[1] >= 128 {
      SliceAhead(s, t, h - 4, h);
    }
  }

  /** On any bytes, cutting a stream short can only drop frames from the end. */
  lemma {:induction false} FramesOfPrefix(s: seq<byte>, n: nat)
    requires n <= |s|
    ensures FramesIn(s[..n]) <= FramesIn(s)
    decreases |s|
  {
    if !Complete(s[..n]) {
    } else {
      var k := FrameSize(s[..n]);
      assert s == s[..n] + s[n..];
      DecodeLocal(s[..n], s[n..]);
      assert s[..n][k..] == s[k..][..n - k];
      FramesOfPrefix(s[k..], n - k);
    }
  }

  /** Encoding is prefix-free: no strict prefix of an encoded frame reads as a frame. */
  lemma PrefixFree(w: WireFrame, n: nat)
    requires |w.payload| < LENGTHS && n < |Encode(w)|
    ensures Decode(Encode(w)[..n]) == if n < 2 then NoFrame else Truncated
  {
    var e := Encode(w);
    assert e + [] == e;
    if Complete(e[..n]) {
      assert e == e[..n] + e[n..];
      DecodeLocal(e[..n], e[n..]);
      EncodeComplete(w, []);
      assert false;
    }
  }

  /** Cutting an encoded stream inside one frame yields exactly the frames before it. */
  lemma FramesOfCutStream(ws: seq<WireFrame>, w: WireFrame, n: nat)
    requires Fits(ws) && |w.payload| < LENGTHS && n < |Encode(w)|
    ensures FramesIn(EncodeAll(ws) + Encode(w)[..n]) == ClassifyAll(ws)
    ensures Leftover(EncodeAll(ws) + Encode(w)[..n]) == Encode(w)[..n]
  {
    FramesOfEncoded(ws, Encode(w)[..n]);
    PrefixFree(w, n);
  }

  // -------- the encoder and the decoder as the source runs them --------

  function ClientFrame(opcode: byte, payload: seq<byte>, key: MaskKey): WireFrame {
    WireFrame(true, 0, opcode % 16, Some(key), payload)
  }

  /** The encoder: final, masked, with the shortest length form; lengths are 64-bit. */
  method BuildFrame(opcode: byte, payload: seq<byte>, key: MaskKey) returns (out: seq<byte>)
    requires |payload| < LENGTHS
    ensures out == Encode(ClientFrame(opcode, payload, key))
    ensures out[0] == 128 + opcode % 16
    ensures out[1] == 128 + if |payload| < 126 then |payload| else if |payload| < 65536 then 126 else 127
  {
    out := [128 + opcode % 16];
    if |payload| < 126 {
      out := out + [128 + |payload|];
    } else if |payload| <= 65535 {
      out := out + [128 + 126] + BigEndian(|payload|, 2);
    } else {
      out := out + [128 + 127] + BigEndian(|payload|, 8);
    }
    ghost var w, head, body := ClientFrame(opcode, payload, key), out, Masked(payload, key);
    assert head == Header(w);
    out := out + key;
    for i := 0 to |payload|
      invariant out == head + key + body[..i]
    {
      assert body[..i] + [Xor(payload[i], key[i % 4])] == body[..i + 1];
      AppendAssoc(head + key, body[..i], [Xor(payload[i], key[i % 4])]);
      out := out + [Xor(payload[i], key[i % 4])];
    }
    assert body[..|payload|] == body;
    AppendAssoc(head, key, body);
  }

  datatype FrameRead = SomeFrame(frame: Frame) | EndOfStream | IoError

  method Unmask(payload: array<byte>, key: MaskKey)
    modifies payload
    ensures payload[..] == Masked(old(payload[..]), key)
  {
    for i := 0 to payload.Length
      invariant forall j | 0 <= j < i :: payload[j] == Xor(old(payload[j]), key[j % 4])
      invariant forall j | i <= j < payload.Length :: payload[j] == old(payload[j])
    {
      payload[i] := Xor(payload[i], key[i % 4]);
    }
  }

  /** What a read leaves in the socket and returns, for every input: the closed-form decoder. */
  ghost predicate ReadsAs(before: seq<byte>, after: seq<byte>, r: FrameRead) {
    match Decode(before)
    case Got(f, rest) => r == SomeFrame(f) && after == rest
    case NoFrame => r == EndOfStream && after == []
    case Truncated => r == IoError && after == []
  }

  method ReadLength(socket: Socket, b1: byte) returns (len: Option<nat>)
    modifies socket`input
    ensures len.None? <==> |old(socket.input)| < ExtSize(b1)
    ensures len.None? ==> socket.input == []
    ensures len.Some? ==> socket.input == old(socket.input)[ExtSize(b1)..]
    ensures len.Some? ==>
      len.value == if ExtSize(b1) == 0 then b1 % 128 else FromBigEndian(old(socket.input)[..ExtSize(b1)])
  {
    len := Some(b1 % 128);
    if b1 % 128 == 126 {
      var ext := socket.ReadExact(2);
      if ext.None? { return None; }
      len := Some(FromBigEndian(ext.value));
    } else if b1 % 128 == 127 {
      var ext := socket.ReadExact(8);
      if ext.None? { return None; }
      len := Some(FromBigEndian(ext.value));
    }
  }

  method ReadPayload(socket: Socket, b1: byte, len: nat) returns (p: Option<seq<byte>>)
    modifies socket`input
    ensures p.None? <==> |old(socket.input)| < KeySize(b1) + len
    ensures p.None? ==> socket.input == []
    ensures p.Some? ==> socket.input == old(socket.input)[KeySize(b1) + len..]
    ensures p.Some? ==>
      var body := old(socket.input)[KeySize(b1)..KeySize(b1) + len];
      p.value == if b1 >= 128 then Masked(body, old(socket.input)[..4]) else body
  {
    var mask: MaskKey := [0, 0, 0, 0];
    if b1 >= 128 {
      var key := socket.ReadExact(4);
      if key.None? { return None; }
      mask := key.value;
    }
    p := socket.ReadExact(len);
    if p.Some? && b1 >= 128 {
      var payload := p.value;
      var a := new byte[|payload|](i requires 0 <= i < |payload| => payload[i]);
      assert a[..] == payload;
      Unmask(a, mask);
      p := Some(a[..]);
    }
  }

  method Sort(opcode: byte, payload: seq<byte>) returns (f: Frame)
    ensures f == Classify(opcode, payload)
  {
    if opcode == 8 { return Close(ParseClose(payload)); }
    if opcode == 9 { return Ping(payload); }
    if opcode == 10 { return Pong(payload); }
    if opcode == 0 || opcode == 1 || opcode == 2 { return Binary(payload); }
    return Other(payload);
  }

  lemma SliceTwice<T>(s: seq<T>, i: nat, j: nat, k: nat)
    requires j <= k && i + k <= |s|
    ensures s[i..][j..k] == s[i + j..i + k] && s[i..][k..] == s[i + k..]
  {
  }

  /** With the length known, the rest of the decoder's reads: key and payload. */
  function AfterLength(b0: byte, b1: byte, len: nat, u: seq<byte>): Decoded {
    if |u| < KeySize(b1) + len then Truncated
    else
      var body := u[KeySize(b1)..KeySize(b1) + len];
      Got(Classify(b0 % 16, if b1 >= 128 then Masked(body, u[..4]) else body), u[KeySize(b1) + len..])
  }

  lemma AfterLengthDecodes(s: seq<byte>)
    requires |s| >= 2 && |s| >= 2 + ExtSize(s[1])
    ensures AfterLength(s[0], s[1], PayloadLength(s), s[2 + ExtSize(s[1])..]) == Decode(s)
  {
    if Complete(s) {
      AfterLengthWhole(s);
    }
  }

  lemma AfterLengthWhole(s: seq<byte>)
    requires Complete(s)
    ensures AfterLength(s[0], s[1], PayloadLength(s), s[2 + ExtSize(s[1])..]) ==
      Got(Classify(s[0] % 16, Unmasked(s)), s[FrameSize(s)..])
  {
    var h, key, len := 2 + ExtSize(s[1]), KeySize(s[1]), PayloadLength(s);
    SliceTwice(s, h, key, key + len);
    if s[1] >= 128 {
      SliceFront(s, h, 4);
      AfterKey(s[0], s[1], len, s[h..], s[h + 4..h + 4 + len], s[h..h + 4]);
    }
  }

  lemma AfterKey(b0: byte, b1: byte, len: nat, u: seq<byte>, body: seq<byte>, key: MaskKey)
    requires b1 >= 128 && |u| >= 4 + len && body == u[4..4 + len] && key == u[..4]
    ensures AfterLength(b0, b1, len, u) == Got(Classify(b0 % 16, Masked(body, key)), u[4 + len..])
  {
  }

  lemma SliceFront<T>(s: seq<T>, i: nat, k: nat)
    requires i + k <= |s|
    ensures s[i..][..k] == s[i..i + k]
  {
  }

  /** The decoder's reads in turn: header, extended length, key and payload. */
  function Stepwise(s: seq<byte>): Decoded {
    if |s| < 2 then NoFrame
    else
      var b1, t := s[1], s[2..];
      if |t| < ExtSize(b1) then Truncated
      else
        var len: nat := if ExtSize(b1) == 0 then b1 % 128 else FromBigEndian(t[..ExtSize(b1)]);
        AfterLength(s[0], b1, len, t[ExtSize(b1)..])
  }

  lemma StepwiseDecodes(s: seq<byte>)
    ensures Stepwise(s) == Decode(s)
  {
    if |s| >= 2 && |s| >= 2 + ExtSize(s[1]) {
      SliceTwice(s, 2, 0, ExtSize(s[1]));
      AfterLengthDecodes(s);
    }
  }

  /** The decoder, field by field. */
  method ReadFrame(socket: Socket) returns (r: FrameRead)
    modifies socket`input
    ensures ReadsAs(old(socket.input), socket.input, r)
  {
    StepwiseDecodes(socket.input);
    var hdr := socket.ReadExact(2);
    if hdr.None? { return EndOfStream; }
    var b0, b1 := hdr.value[0], hdr.value[1];
    var len := ReadLength(socket, b1);
    if len.None? { return IoError; }
    var payload := ReadPayload(socket, b1, len.value);
    if payload.None? { return IoError; }
    var frame := Sort(b0 % 16, payload.value);
    return SomeFrame(frame);
  }
}
