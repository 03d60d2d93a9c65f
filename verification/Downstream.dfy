/**
 What the proxy reads from the WebSocket server (src/modules/ws.rs, src/modules/relay.rs): pongs are
 skipped, pings are answered, data of any opcode goes to the client, and a close or an unexpected
 frame ends the session.
 */
module Downstream {
  import opened Bytes
  import opened Frames

  datatype Incoming = InData(payload: seq<byte>) | InPing(payload: seq<byte>) | InClose(info: CloseInfo)

  datatype Received = Message(msg: Incoming, rest: seq<byte>) | Ended | Broken

  function Recv(s: seq<byte>): (r: Received)
    ensures r.Message? ==> |r.rest| < |s|
    decreases |s|
  {
    match Decode(s)
    case NoFrame => Ended
    case Truncated => Broken
    case Got(frame, rest) =>
      match frame
      case Pong(_) => Recv(rest)
      case Binary(p) => Message(InData(p), rest)
      case Ping(p) => Message(InPing(p), rest)
      case Close(info) => Message(InClose(info), rest)
      case Other(_) => Message(InClose(CloseInfo(None, Some(UnexpectedFrame))), rest)
  }

  datatype RecvResult = Incoming(msg: Incoming) | StreamEnd | RecvError

  /** The pong-skipping loop; it ends because every frame read shortens the input. */
  method RecvFrame(socket: Socket) returns (r: RecvResult)
    modifies socket`input
    ensures match Recv(old(socket.input))
      case Message(msg, rest) => r == RecvResult.Incoming(msg) && socket.input == rest
      case Ended => r == StreamEnd && socket.input == []
      case Broken => r == RecvError && socket.input == []
  {
    while true
      invariant Recv(socket.input) == Recv(old(socket.input))
      decreases |socket.input|
    {
      var f := ReadFrame(socket);
      match f
      case EndOfStream => return StreamEnd;
      case IoError => return RecvError;
      case SomeFrame(frame) =>
        match frame
        case Binary(p) => return RecvResult.Incoming(InData(p));
        case Ping(p) => return RecvResult.Incoming(InPing(p));
        case Pong(_) =>
        case Close(info) => return RecvResult.Incoming(InClose(info));
        case Other(_) => return RecvResult.Incoming(InClose(CloseInfo(None, Some(UnexpectedFrame))));
    }
  }

  // -------- a whole session --------

  datatype Ending = ByClose(info: CloseInfo) | ByEof | ByError

  /** Everything the receiving loop gets out of a server stream. */
  datatype Transcript = Transcript(data: seq<byte>, pings: seq<seq<byte>>, ending: Ending)

  function Drain(s: seq<byte>): Transcript
    decreases |s|
  {
    match Recv(s)
    case Ended => Transcript([], [], ByEof)
    case Broken => Transcript([], [], ByError)
    case Message(InClose(info), _) => Transcript([], [], ByClose(info))
    case Message(InData(p), rest) => var t := Drain(rest); t.(data := p + t.data)
    case Message(InPing(p), rest) => var t := Drain(rest); t.(pings := [p] + t.pings)
  }

  // The reference: the frame list up to the first frame that ends the session.

  function BeforeStop(fs: seq<Frame>): seq<Frame> {
    if fs == [] || fs[0].Close? || fs[0].Other? then [] else [fs[0]] + BeforeStop(fs[1..])
  }

  function DataOf(f: Frame): seq<byte> {
    if f.Binary? then f.payload else []
  }

  function PingOf(f: Frame): seq<seq<byte>> {
    if f.Ping? then [f.payload] else []
  }

  lemma RecvFirst(s: seq<byte>, f: Frame, rest: seq<byte>)
    requires Decode(s) == Got(f, rest)
    ensures f.Pong? ==> Recv(s) == Recv(rest)
    ensures f.Binary? ==> Recv(s) == Message(InData(f.payload), rest)
    ensures f.Ping? ==> Recv(s) == Message(InPing(f.payload), rest)
    ensures f.Close? ==> Recv(s) == Message(InClose(f.info), rest)
    ensures f.Other? ==> Recv(s) == Message(InClose(CloseInfo(None, Some(UnexpectedFrame))), rest)
  {
  }

  lemma DrainSame(s: seq<byte>, t: seq<byte>)
    requires Recv(s) == Recv(t)
    ensures Drain(s) == Drain(t)
  {
  }

  lemma DrainMessage(s: seq<byte>, m: Incoming, rest: seq<byte>)
    requires Recv(s) == Message(m, rest)
    ensures m.InData? ==> Drain(s) == Drain(rest).(data := m.payload + Drain(rest).data)
    ensures m.InPing? ==> Drain(s) == Drain(rest).(pings := [m.payload] + Drain(rest).pings)
    ensures m.InClose? ==> Drain(s) == Transcript([], [], ByClose(m.info))
  {
  }

  /** What a stream hands on when the frame f is put in front of it. */
  function Ahead(f: Frame, t: Transcript): Transcript {
    Transcript(DataOf(f) + t.data, PingOf(f) + t.pings, t.ending)
  }

  predicate Stops(f: Frame) {
    f.Close? || f.Other?
  }

  /** One frame more at the front of the stream, in terms of what the loop hands on. */
  lemma DrainFrame(s: seq<byte>, f: Frame, rest: seq<byte>)
    requires Decode(s) == Got(f, rest)
    ensures Stops(f) ==> Drain(s).data == [] && Drain(s).pings == []
    ensures !Stops(f) ==> Drain(s) == Ahead(f, Drain(rest))
  {
    RecvFirst(s, f, rest);
    AppendNothing(Drain(rest).data);
    AppendNothing(Drain(rest).pings);
    if f.Pong? {
      DrainSame(s, rest);
    } else {
      DrainMessage(s, Recv(s).msg, Recv(s).rest);
    }
  }

  /** On any server stream, the client gets the data payloads before the first close or unexpected frame. */
  lemma {:induction false} DrainIsDataBeforeStop(s: seq<byte>)
    ensures Drain(s).data == FlatMap(DataOf, BeforeStop(FramesIn(s)))
    ensures Drain(s).pings == FlatMap(PingOf, BeforeStop(FramesIn(s)))
    decreases |s|
  {
    if !Complete(s) {
    } else {
      DrainFrame(s, Decode(s).frame, Decode(s).rest);
      DrainIsDataBeforeStop(Decode(s).rest);
      var fs := FramesIn(s);
      assert fs[1..] == FramesIn(Decode(s).rest);
      assert BeforeStop(fs) != [] ==> BeforeStop(fs)[1..] == BeforeStop(fs[1..]);
    }
  }

  lemma {:induction false} BeforeStopPrefix(fs: seq<Frame>, gs: seq<Frame>)
    requires fs <= gs
    ensures BeforeStop(fs) <= BeforeStop(gs)
  {
    if fs == [] {
    } else {
      BeforeStopPrefix(fs[1..], gs[1..]);
    }
  }

  /** A server stream cut short anywhere gives the client a prefix of its data, and no pings out of turn. */
  lemma DrainOfPrefix(s: seq<byte>, n: nat)
    requires n <= |s|
    ensures Drain(s[..n]).data <= Drain(s).data && Drain(s[..n]).pings <= Drain(s).pings
  {
    DrainIsDataBeforeStop(s);
    DrainIsDataBeforeStop(s[..n]);
    FramesOfPrefix(s, n);
    BeforeStopPrefix(FramesIn(s[..n]), FramesIn(s));
    FlatMapPrefix(DataOf, BeforeStop(FramesIn(s[..n])), BeforeStop(FramesIn(s)));
    FlatMapPrefix(PingOf, BeforeStop(FramesIn(s[..n])), BeforeStop(FramesIn(s)));
  }

  // -------- fragmentation --------

  /** A message cut as section 5.4 of RFC 6455 allows, with pings and pongs between the fragments. */
  ghost predicate FragmentsOf(ws: seq<WireFrame>, started: bool, m: seq<byte>) {
    && ws != []
    && |ws[0].payload| < LENGTHS
    && if ws[0].opcode == 9 || ws[0].opcode == 10 then
         ws[0].fin && FragmentsOf(ws[1..], started, m)
       else
         && (if started then ws[0].opcode == 0 else ws[0].opcode == 1 || ws[0].opcode == 2)
         && ws[0].payload <= m
         && if ws[0].fin then |ws| == 1 && ws[0].payload == m
            else FragmentsOf(ws[1..], true, m[|ws[0].payload|..])
  }

  function AheadAll(fs: seq<Frame>, t: Transcript): Transcript {
    if fs == [] then t else Ahead(fs[0], AheadAll(fs[1..], t))
  }

  lemma {:induction false} AheadAllFlat(fs: seq<Frame>, t: Transcript)
    ensures AheadAll(fs, t) == Transcript(FlatMap(DataOf, fs) + t.data, FlatMap(PingOf, fs) + t.pings, t.ending)
  {
    if fs == [] {
      AppendNothing(t.data);
      AppendNothing(t.pings);
    } else {
      AheadAllFlat(fs[1..], t);
      AppendAssoc(DataOf(fs[0]), FlatMap(DataOf, fs[1..]), t.data);
      AppendAssoc(PingOf(fs[0]), FlatMap(PingOf, fs[1..]), t.pings);
    }
  }

  /** A receiver that hands on one frame at a time hands on a whole list of them. */
  lemma {:induction false} DrainThrough(encode: WireFrame -> seq<byte>, drain: seq<byte> -> Transcript,
      ws: seq<WireFrame>, rest: seq<byte>)
    requires forall i, more: seq<byte> | 0 <= i < |ws| ::
      drain(encode(ws[i]) + more) == Ahead(Classify(ws[i].opcode, ws[i].payload), drain(more))
    ensures drain(FlatMap(encode, ws) + rest) == AheadAll(ClassifyAll(ws), drain(rest))
  {
    if ws == [] {
      AppendNothing(rest);
    } else {
      AppendAssoc(encode(ws[0]), FlatMap(encode, ws[1..]), rest);
      DrainThrough(encode, drain, ws[1..], rest);
    }
  }

  lemma {:induction false} FragmentsHold(ws: seq<WireFrame>, started: bool, m: seq<byte>)
    requires FragmentsOf(ws, started, m)
    ensures forall i | 0 <= i < |ws| :: |ws[i].payload| < LENGTHS && ws[i].opcode in {0, 1, 2, 9, 10}
    ensures FlatMap(DataOf, ClassifyAll(ws)) == m
  {
    var w, fs := ws[0], ClassifyAll(ws);
    assert fs[1..] == ClassifyAll(ws[1..]);
    if w.opcode == 9 || w.opcode == 10 {
      FragmentsHold(ws[1..], started, m);
    } else if !w.fin {
      FragmentsHold(ws[1..], true, m[|w.payload|..]);
    }
  }

  /** However a message is cut, the client gets exactly its bytes, and then what follows. */
  lemma FragmentsDeliver(ws: seq<WireFrame>, m: seq<byte>, rest: seq<byte>)
    requires FragmentsOf(ws, false, m)
    ensures Drain(EncodeAll(ws) + rest) ==
      Transcript(m + Drain(rest).data, FlatMap(PingOf, ClassifyAll(ws)) + Drain(rest).pings, Drain(rest).ending)
  {
    FragmentsHold(ws, false, m);
    forall i, more: seq<byte> | 0 <= i < |ws|
      ensures Drain(Encode(ws[i]) + more) == Ahead(Classify(ws[i].opcode, ws[i].payload), Drain(more))
    {
      DecodeEncoded(ws[i], more);
      DrainFrame(Encode(ws[i]) + more, Classify(ws[i].opcode, ws[i].payload), more);
    }
    DrainThrough(Encode, Drain, ws, rest);
    AheadAllFlat(ClassifyAll(ws), Drain(rest));
  }

  /** So two ways of cutting one message cannot be told apart by the client. */
  lemma FragmentationInvisible(ws: seq<WireFrame>, ws': seq<WireFrame>, m: seq<byte>, rest: seq<byte>)
    requires FragmentsOf(ws, false, m) && FragmentsOf(ws', false, m)
    ensures Drain(EncodeAll(ws) + rest).data == Drain(EncodeAll(ws') + rest).data
    ensures Drain(EncodeAll(ws) + rest).ending == Drain(EncodeAll(ws') + rest).ending
  {
    FragmentsDeliver(ws, m, rest);
    FragmentsDeliver(ws', m, rest);
  }
}
