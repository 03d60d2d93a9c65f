/** Reading the HTTP upgrade response one byte at a time (src/modules/ws.rs, read_handshake_headers). */
module UpgradeHeaders {
  import opened Bytes
  import opened Frames

  const MAX_HANDSHAKE_HEADER_SIZE: nat := 8192
  const BLANK_LINE: seq<byte> := [13, 10, 13, 10]

  datatype HeaderResult = Headers(header: seq<byte>) | ConnectionClosed | OversizedHeaders

  ghost predicate EndsAt(s: seq<byte>, e: nat) {
    4 <= e <= |s| && s[e - 4..e] == BLANK_LINE
  }

  /** The first blank line ends at e. */
  ghost predicate FirstEnd(s: seq<byte>, e: nat) {
    EndsAt(s, e) && forall k: nat | k < e :: !EndsAt(s, k)
  }

  /** Some blank line ends within the size limit. */
  ghost predicate EndsInTime(s: seq<byte>) {
    exists e: nat :: e <= MAX_HANDSHAKE_HEADER_SIZE && EndsAt(s, e)
  }

  /** The blank line is CR LF CR LF, and the limit 8192 bytes. */
  lemma BlankLineBytes(s: seq<byte>, e: nat)
    ensures EndsAt(s, e) <==> 4 <= e <= |s| && s[e - 4] == 13 && s[e - 3] == 10 && s[e - 2] == 13 && s[e - 1] == 10
    ensures EndsInTime(s) <==> exists k: nat :: k <= 8192 && EndsAt(s, k)
  {
    if 4 <= e <= |s| {
      assert s[e - 4..e] == [s[e - 4], s[e - 3], s[e - 2], s[e - 1]];
    }
  }

  /** The source's test: the last two bytes first, and then the last four. */
  predicate AtBlankLine(header: seq<byte>) {
    var len := |header|;
    len >= 4 && header[len - 2..] == [13, 10] && header[len - 4..] == BLANK_LINE
  }

  lemma EndsHere(header: seq<byte>, more: seq<byte>)
    ensures var len := |header|;
      EndsAt(header + more, len) <==> AtBlankLine(header)
  {
    var len := |header|;
    if len >= 4 {
      assert (header + more)[len - 4..len] == header[len - 4..];
      assert header[len - 2..] == header[len - 4..][2..];
    }
  }

  /** No blank line ends at n or before. */
  ghost predicate NoEndBy(s: seq<byte>, n: nat) {
    forall k: nat | k <= n :: !EndsAt(s, k)
  }

  lemma NotInTime(s: seq<byte>, n: nat)
    requires NoEndBy(s, n) && (n >= MAX_HANDSHAKE_HEADER_SIZE || n >= |s|)
    ensures !EndsInTime(s)
  {
  }

  lemma StillNone(s: seq<byte>, n: nat)
    requires n > 0 && NoEndBy(s, n - 1) && !EndsAt(s, n)
    ensures NoEndBy(s, n)
  {
  }

  lemma Behind(header: seq<byte>, rest: seq<byte>)
    ensures (header + rest)[|header|..] == rest
  {
  }

  lemma FoundInTime(s: seq<byte>, n: nat)
    requires EndsAt(s, n) && n <= MAX_HANDSHAKE_HEADER_SIZE && NoEndBy(s, n - 1)
    ensures EndsInTime(s) && FirstEnd(s, n)
  {
  }

  /** Success exactly when a blank line ends within the limit; nothing behind the first one is consumed. */
  method ReadHandshakeHeaders(socket: Socket) returns (r: HeaderResult)
    modifies socket`input
    ensures r.Headers? <==> EndsInTime(old(socket.input))
    ensures r.Headers? ==> FirstEnd(old(socket.input), |r.header|) && old(socket.input) == r.header + socket.input
    ensures r.ConnectionClosed? ==> |old(socket.input)| < 8192 && socket.input == []
    ensures r.OversizedHeaders? ==> |old(socket.input)| >= 8192 && socket.input == old(socket.input)[8192..]
  {
    ghost var s := socket.input;
    var header: seq<byte> := [];
    while |header| < MAX_HANDSHAKE_HEADER_SIZE
      invariant |header| <= MAX_HANDSHAKE_HEADER_SIZE
      invariant s == header + socket.input
      invariant NoEndBy(s, |header|)
    {
      var b := socket.ReadExact(1);
      if b.None? {
        NotInTime(s, |header|);
        return ConnectionClosed;
      }
      AppendAssoc(header, b.value, socket.input);
      header := header + b.value;
      EndsHere(header, socket.input);
      if AtBlankLine(header) {
        FoundInTime(s, |header|);
        return Headers(header);
      }
      StillNone(s, |header|);
    }
    NotInTime(s, |header|);
    Behind(header, socket.input);
    r := OversizedHeaders;
  }

  /** Whatever the server sends behind a response of legal size is left whole for the frame reader. */
  lemma ResponseThenFrames(response: seq<byte>, frames: seq<byte>)
    requires FirstEnd(response, |response|)
    ensures FirstEnd(response + frames, |response|)
    ensures forall e: nat | FirstEnd(response + frames, e) :: (response + frames)[e..] == frames
    ensures EndsInTime(response + frames) <==> |response| <= 8192
  {
    var s := response + frames;
    forall k: nat | k <= |response| ensures EndsAt(s, k) <==> EndsAt(response, k) {
      if k >= 4 {
        assert s[k - 4..k] == response[k - 4..k];
      }
    }
  }

  /** So the frame reader's first answer behind the response is the server's first frame, and its second starts behind that. */
  lemma FirstFrameIntact(response: seq<byte>, w: WireFrame, more: seq<byte>, e: nat)
    requires FirstEnd(response, |response|) && |w.payload| < LENGTHS
    requires FirstEnd(response + (Encode(w) + more), e)
    ensures Decode((response + (Encode(w) + more))[e..]) == Got(Classify(w.opcode, w.payload), more)
  {
    ResponseThenFrames(response, Encode(w) + more);
    DecodeEncoded(w, more);
  }
}
