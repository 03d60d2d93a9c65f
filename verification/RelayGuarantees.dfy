/** What every interleaving of the relay's two tasks guarantees, in terms of decoded bytes only. */
module RelayGuarantees {
  import opened Bytes
  import opened Frames
  import opened Downstream
  import opened Splitter
  import opened Relay

  // -------- the source's own codec --------

  /** Without a splitter a read is sent as one part. */
  function Whole(): Split {
    (o: nat, chunk: seq<byte>) => [chunk]
  }

  function SplitFor(cipher: Option<Cipher>): Split {
    match cipher
    case None => Whole()
    case Some(c) => Splitting(c)
  }

  function SourceConfig(init: seq<byte>, input: seq<byte>, server: seq<byte>, cipher: Option<Cipher>): Config {
    Config(init, input, server, SplitFor(cipher), Encode, Recv)
  }

  lemma SplitForConserves(cipher: Option<Cipher>)
    ensures Conserves(SplitFor(cipher))
  {
    match cipher
    case Some(c) => SplittingConserves(c);
    case None =>
      forall o: nat, chunk: seq<byte> ensures Join(Whole()(o, chunk)) == chunk {
        JoinOne(chunk);
      }
  }

  lemma DecodedPayloadFits(s: seq<byte>)
    requires Complete(s)
    ensures |Unmasked(s)| < LENGTHS
  {
    var ext := ExtSize(s[1]);
    if ext > 0 {
      FromBigEndianRoundTrip(s[2..2 + ext]);
      assert Pow256(2) == 65536 && Pow256(8) == LENGTHS;
    }
  }

  lemma {:induction false} RecvPingFits(s: seq<byte>)
    requires Recv(s).Message? && Recv(s).msg.InPing?
    ensures |Recv(s).msg.payload| < LENGTHS
    decreases |s|
  {
    DecodedPayloadFits(s);
    if !Decode(s).frame.Pong? {
    } else {
      RecvPingFits(Decode(s).rest);
    }
  }

  lemma SourceConfigValid(init: seq<byte>, input: seq<byte>, server: seq<byte>, cipher: Option<Cipher>)
    requires |init| < LENGTHS
    ensures Valid(SourceConfig(init, input, server, cipher))
  {
    SplitForConserves(cipher);
    forall s: seq<byte> | Recv(s).Message? && Recv(s).msg.InPing? ensures |Recv(s).msg.payload| < LENGTHS {
      RecvPingFits(s);
    }
  }

  /** Some interleaving of the two tasks has led here. */
  ghost predicate Reached(cfg: Config, s: State) {
    exists key: MaskKey, acts: seq<Action> :: Runs(cfg, Initial(cfg, key), acts) && s == Exec(cfg, Initial(cfg, key), acts)
  }

  ghost predicate Source(cfg: Config) {
    |cfg.init| < LENGTHS && exists cipher :: cfg == SourceConfig(cfg.init, cfg.input, cfg.server, cipher)
  }

  lemma ReachedInv(cfg: Config, s: State)
    requires Source(cfg) && Reached(cfg, s)
    ensures Inv(cfg, s) && cfg.encode == Encode && cfg.recv == Recv && Valid(cfg)
  {
    var cipher :| cfg == SourceConfig(cfg.init, cfg.input, cfg.server, cipher);
    SourceConfigValid(cfg.init, cfg.input, cfg.server, cipher);
    var key: MaskKey, acts: seq<Action> :| Runs(cfg, Initial(cfg, key), acts) && s == Exec(cfg, Initial(cfg, key), acts);
    InitialInv(cfg, key);
    RunInv(cfg, Initial(cfg, key), acts);
  }

  lemma ReachedWire(cfg: Config, s: State)
    requires Source(cfg) && Reached(cfg, s)
    ensures s.sent != [] && Fits(s.sent)
    ensures s.wire + s.pending == EncodeAll(s.sent) && |s.pending| <= |Encode(s.sent[|s.sent| - 1])|
  {
    ReachedInv(cfg, s);
  }

  lemma ReachedOwner(cfg: Config, s: State)
    requires Source(cfg) && Reached(cfg, s) && s.open && s.pending != []
    ensures s.sent != [] && s.lock != Free && Owns(cfg, s, LastOf(s.sent))
  {
    ReachedInv(cfg, s);
  }

  // -------- the wire --------

  /** The bytes on the wire end m bytes into the last frame. */
  lemma WireCut(encode: WireFrame -> seq<byte>, ws: seq<WireFrame>, wire: seq<byte>, pending: seq<byte>) returns (m: nat)
    requires ws != [] && pending != []
    requires wire + pending == FlatMap(encode, ws) && |pending| <= |encode(ws[|ws| - 1])|
    ensures var before, e := ws[..|ws| - 1], encode(ws[|ws| - 1]);
      m < |e| && wire == FlatMap(encode, before) + e[..m] && e[..m] + pending == e
  {
    var before, w := ws[..|ws| - 1], ws[|ws| - 1];
    assert ws == before + [w];
    FlatMapSnoc(encode, before, w);
    m := |encode(w)| - |pending|;
    SameCut(FlatMap(encode, before), encode(w), wire, pending);
  }

  lemma SameCut<T>(f: seq<T>, e: seq<T>, wire: seq<T>, pending: seq<T>)
    requires wire + pending == f + e && |pending| <= |e|
    ensures var m := |e| - |pending|; wire == f + e[..m] && e[..m] + pending == e
  {
    assert wire == (f + e)[..|wire|] && pending == (f + e)[|wire|..];
  }

  lemma PartialFrame(ws: seq<WireFrame>, wire: seq<byte>, pending: seq<byte>)
    requires ws != [] && pending != [] && Fits(ws)
    requires wire + pending == EncodeAll(ws) && |pending| <= |Encode(ws[|ws| - 1])|
    ensures FramesIn(wire) == ClassifyAll(ws[..|ws| - 1]) && Leftover(wire) + pending == Encode(ws[|ws| - 1])
  {
    var m := WireCut(Encode, ws, wire, pending);
    FramesOfCutStream(ws[..|ws| - 1], ws[|ws| - 1], m);
  }

  lemma WholeFrames(ws: seq<WireFrame>, wire: seq<byte>)
    requires Fits(ws) && wire == EncodeAll(ws)
    ensures FramesIn(wire) == ClassifyAll(ws) && Leftover(wire) == []
  {
    FramesOfEncoded(ws, []);
    assert wire + [] == wire;
  }

  lemma WireAtRest(cfg: Config, s: State)
    requires Source(cfg) && Reached(cfg, s) && s.pending == []
    ensures FramesIn(s.wire) == ClassifyAll(s.sent) && Leftover(s.wire) == []
  {
    ReachedWire(cfg, s);
    AppendNothing(s.wire);
    WholeFrames(s.sent, s.wire);
  }

  lemma WirePartial(cfg: Config, s: State)
    requires Source(cfg) && Reached(cfg, s) && s.pending != []
    ensures var n := |s.sent| - 1;
      n >= 0 && FramesIn(s.wire) == ClassifyAll(s.sent[..n]) && Leftover(s.wire) + s.pending == Encode(s.sent[n])
  {
    ReachedWire(cfg, s);
    PartialFrame(s.sent, s.wire, s.pending);
  }

  /** The wire holds whole frames and at most one partial frame, which is the one the lock's holder is writing. */
  lemma WireIsFrames(cfg: Config, s: State)
    requires Source(cfg) && Reached(cfg, s)
    ensures s.pending == [] ==> FramesIn(s.wire) == ClassifyAll(s.sent) && Leftover(s.wire) == []
    ensures s.pending != [] ==>
      var n := |s.sent| - 1;
      && n >= 0 && FramesIn(s.wire) == ClassifyAll(s.sent[..n]) && Leftover(s.wire) + s.pending == Encode(s.sent[n])
      && (s.open ==> s.lock != Free && Owns(cfg, s, LastOf(s.sent)))
  {
    if s.pending == [] {
      WireAtRest(cfg, s);
    } else {
      WirePartial(cfg, s);
      if s.open {
        ReachedOwner(cfg, s);
      }
    }
  }

  lemma ClassifyAllPrefix(ws: seq<WireFrame>, n: nat)
    requires n <= |ws|
    ensures ClassifyAll(ws[..n]) <= ClassifyAll(ws)
  {
  }

  /**
   Decoded, the wire is the plan, cut off at most at the end: the init, then each read's parts and
   each pong in the order the lock was taken. When the lock is free nothing is missing.
   */
  lemma WireFollowsPlan(cfg: Config, s: State)
    requires Source(cfg) && Reached(cfg, s)
    ensures FramesIn(s.wire) <= Plan(cfg, s)
    ensures s.open && s.lock == Free ==> FramesIn(s.wire) == Plan(cfg, s) && Leftover(s.wire) == []
    ensures s.up.UpClosed? ==> FramesIn(s.wire) == Plan(cfg, s) && Leftover(s.wire) == []
  {
    WireIsFrames(cfg, s);
    ReachedPlan(cfg, s);
    if s.pending != [] {
      ClassifyAllPrefix(s.sent, |s.sent| - 1);
    }
  }

  /** The frames begun are the plan so far, and with the lock free and the writer well, or closed, all of it. */
  lemma ReachedPlan(cfg: Config, s: State)
    requires Source(cfg) && Reached(cfg, s)
    ensures ClassifyAll(s.sent) <= Plan(cfg, s)
    ensures (s.open && s.lock == Free) || s.up.UpClosed? ==> s.pending == [] && ClassifyAll(s.sent) == Plan(cfg, s)
  {
    ReachedInv(cfg, s);
    PlanSoFar(ClassifyAll(s.sent), Binaries(s.todo), Plan(cfg, s));
  }

  lemma PlanSoFar(begun: seq<Frame>, left: seq<Frame>, plan: seq<Frame>)
    requires begun + left == plan
    ensures begun <= plan && (left == [] ==> begun == plan)
  {
  }

  // -------- upstream --------

  lemma PlanData(cfg: Config, s: State)
    ensures FlatMap(DataOf, Plan(cfg, s)) == cfg.init + Join(FlatMap(PartsOf, s.events))
    ensures FlatMap(PongOf, Plan(cfg, s)) == FlatMap(PongIn, s.events)
  {
    DataOfEvents(s.events);
    assert Plan(cfg, s)[1..] == FlatMap(EventFrames, s.events);
  }

  lemma ReadsJoinInv(cfg: Config, s: State)
    requires ReadInv(cfg, s) && Conserves(cfg.split)
    ensures Join(FlatMap(PartsOf, s.events)) <= cfg.input
    ensures s.up.UpClosed? ==> Join(FlatMap(PartsOf, s.events)) == cfg.input
  {
    RunJoin(cfg.split, 64, FlatMap(ChunkOf, s.events));
    assert cfg.input == cfg.input[..s.pos] + cfg.input[s.pos..];
  }

  lemma ReadsJoin(cfg: Config, s: State)
    requires Source(cfg) && Reached(cfg, s)
    ensures Join(FlatMap(PartsOf, s.events)) <= cfg.input
    ensures s.up.UpClosed? ==> Join(FlatMap(PartsOf, s.events)) == cfg.input
  {
    ReachedInv(cfg, s);
    ReadsJoinInv(cfg, s);
  }

  /**
   In every interleaving the peer has received, as data, a prefix of the init followed by the
   client's bytes; after a clean close, all of it. The first frame is the whole init.
   */
  lemma UpstreamInOrder(cfg: Config, s: State)
    requires Source(cfg) && Reached(cfg, s)
    ensures FlatMap(DataOf, FramesIn(s.wire)) <= cfg.init + cfg.input
    ensures FramesIn(s.wire) != [] ==> FramesIn(s.wire)[0] == Binary(cfg.init)
    ensures s.up.UpClosed? ==> FlatMap(DataOf, FramesIn(s.wire)) == cfg.init + cfg.input
  {
    WireFollowsPlan(cfg, s);
    PlanData(cfg, s);
    ReadsJoin(cfg, s);
    FlatMapPrefix(DataOf, FramesIn(s.wire), Plan(cfg, s));
    assert Plan(cfg, s)[0] == Binary(cfg.init);
  }

  lemma ReadPrefix(cfg: Config, s: State)
    requires ReadInv(cfg, s)
    ensures Join(FlatMap(ChunkOf, s.events)) <= cfg.input
  {
    assert cfg.input == cfg.input[..s.pos] + cfg.input[s.pos..];
  }

  /** The parts sent are the splitter's answers to the reads, each made at its true place in the client's stream. */
  lemma PartsAreSplits(cfg: Config, s: State)
    requires Source(cfg) && Reached(cfg, s)
    ensures FlatMap(PartsOf, s.events) == Run(cfg.split, 64, FlatMap(ChunkOf, s.events))
    ensures Join(FlatMap(ChunkOf, s.events)) <= cfg.input
    ensures s.offset == 64 + |Join(FlatMap(ChunkOf, s.events))|
  {
    ReachedInv(cfg, s);
    ReadPrefix(cfg, s);
  }

  // -------- pongs --------

  lemma {:induction false} PongPlace(events: seq<Event>, i: nat) returns (e: nat)
    requires i < |FlatMap(EventFrames, events)| && FlatMap(EventFrames, events)[i].Pong?
    ensures e < |events| && events[e] == Ponged(FlatMap(EventFrames, events)[i].payload)
    ensures i == |FlatMap(EventFrames, events[..e])|
    decreases |events|
  {
    var n := |events| - 1;
    var before, last := events[..n], events[n];
    assert events == before + [last];
    FlatMapSnoc(EventFrames, before, last);
    if i < |FlatMap(EventFrames, before)| {
      e := PongPlace(before, i);
      assert before[..e] == events[..e];
    } else {
      if last.ReadSent? {
        DataOfBinaries(last.parts);
      }
      e := n;
    }
  }

  lemma PongPlaced(d: seq<Frame>, first: Frame, events: seq<Event>, i: nat) returns (e: nat)
    requires d <= [first] + FlatMap(EventFrames, events) && !first.Pong? && i < |d| && d[i].Pong?
    ensures e < |events| && events[e] == Ponged(d[i].payload)
    ensures d[..i] == [first] + FlatMap(EventFrames, events[..e])
  {
    var flat := FlatMap(EventFrames, events);
    assert d[i] == ([first] + flat)[i] && i > 0 && d[i] == flat[i - 1];
    e := PongPlace(events, i - 1);
    FlatMapPrefix(EventFrames, events[..e], events);
    PrefixTo(d, first, flat, FlatMap(EventFrames, events[..e]));
  }

  /** A pong never falls between the parts of one read: what precedes it is the init and whole uses of the lock. */
  lemma PongsBetweenReads(cfg: Config, s: State, i: nat) returns (e: nat)
    requires Source(cfg) && Reached(cfg, s)
    requires i < |FramesIn(s.wire)| && FramesIn(s.wire)[i].Pong?
    ensures e < |s.events| && s.events[e] == Ponged(FramesIn(s.wire)[i].payload)
    ensures FramesIn(s.wire)[..i] == [Binary(cfg.init)] + FlatMap(EventFrames, s.events[..e])
  {
    WireFollowsPlan(cfg, s);
    e := PongPlaced(FramesIn(s.wire), Binary(cfg.init), s.events, i);
  }

  lemma PrefixTo<T>(d: seq<T>, x: T, flat: seq<T>, front: seq<T>)
    requires d <= [x] + flat && front <= flat && |front| + 1 <= |d|
    ensures d[..|front| + 1] == [x] + front
  {
  }

  ghost predicate Concluded(recv: seq<byte> -> Received, msgs: seq<Incoming>, to: seq<byte>) {
    recv(to).Ended? || EndsInClose(msgs)
  }

  /** One message off the front of a stream: `out` is what the stream's messages amount to. */
  ghost predicate Unrolls<T>(recv: seq<byte> -> Received, out: seq<byte> -> seq<T>, part: Incoming -> seq<T>) {
    forall s: seq<byte> ::
      && (recv(s).Ended? ==> out(s) == [])
      && (recv(s).Message? && recv(s).msg.InClose? ==> out(s) == [] && part(recv(s).msg) == [])
      && (recv(s).Message? && !recv(s).msg.InClose? ==> out(s) == part(recv(s).msg) + out(recv(s).rest))
  }

  lemma {:induction false} HeardSoFar<T>(recv: seq<byte> -> Received, out: seq<byte> -> seq<T>, part: Incoming -> seq<T>,
      from: seq<byte>, msgs: seq<Incoming>, to: seq<byte>)
    requires Unrolls(recv, out, part) && Hears(recv, from, msgs, to) && CloseLast(msgs)
    ensures FlatMap(part, msgs) <= out(from)
    ensures Concluded(recv, msgs, to) ==> FlatMap(part, msgs) == out(from)
    decreases msgs
  {
    if msgs == [] {
    } else {
      if msgs[0].InClose? {
        assert msgs[1..] == [];
      } else {
        HeardSoFar(recv, out, part, recv(from).rest, msgs[1..], to);
      }
    }
  }

  function DataFrom(s: seq<byte>): seq<byte> {
    Drain(s).data
  }

  function PingsFrom(s: seq<byte>): seq<seq<byte>> {
    Drain(s).pings
  }

  lemma DrainUnrolls()
    ensures Unrolls(Recv, DataFrom, DataIn) && Unrolls(Recv, PingsFrom, PingIn)
  {
    forall s: seq<byte> | Recv(s).Message?
      ensures Recv(s).msg.InClose? ==> DataFrom(s) == [] && PingsFrom(s) == []
      ensures !Recv(s).msg.InClose? ==> DataFrom(s) == DataIn(Recv(s).msg) + DataFrom(Recv(s).rest)
      ensures !Recv(s).msg.InClose? ==> PingsFrom(s) == PingIn(Recv(s).msg) + PingsFrom(Recv(s).rest)
    {
      var m, rest := Recv(s).msg, Recv(s).rest;
      DrainMessage(s, m, rest);
      AppendNothing(DataFrom(rest));
      AppendNothing(PingsFrom(rest));
    }
  }

  lemma HeardIsDrained(from: seq<byte>, msgs: seq<Incoming>, to: seq<byte>)
    requires Hears(Recv, from, msgs, to) && CloseLast(msgs)
    ensures FlatMap(DataIn, msgs) <= DataFrom(from) && FlatMap(PingIn, msgs) <= PingsFrom(from)
    ensures Concluded(Recv, msgs, to) ==> FlatMap(DataIn, msgs) == DataFrom(from) && FlatMap(PingIn, msgs) == PingsFrom(from)
  {
    DrainUnrolls();
    HeardSoFar(Recv, DataFrom, DataIn, from, msgs, to);
    HeardSoFar(Recv, PingsFrom, PingIn, from, msgs, to);
  }

  /**
   The pongs sent answer the server's pings in order, with their payloads. With the writer at rest
   they and the one ping still waiting are all the pings heard so far; once the receiving task has
   ended by itself and the writer is at rest or was closed, all the server ever sent.
   */
  lemma PongsAnswerPings(cfg: Config, s: State)
    requires Source(cfg) && Reached(cfg, s)
    ensures FlatMap(PongOf, FramesIn(s.wire)) <= Drain(cfg.server).pings
    ensures s.open && s.lock == Free ==>
      FlatMap(PongOf, FramesIn(s.wire)) + WaitingPing(s.down) == FlatMap(PingIn, s.heard)
    ensures Over(s.down) && ((s.open && s.lock == Free) || s.up.UpClosed?) ==>
      FlatMap(PongOf, FramesIn(s.wire)) == Drain(cfg.server).pings
  {
    ReachedInv(cfg, s);
    WireFollowsPlan(cfg, s);
    PlanData(cfg, s);
    FlatMapPrefix(PongOf, FramesIn(s.wire), Plan(cfg, s));
    DeliveredInv(cfg, s);
  }

  // -------- downstream --------

  lemma DeliveredInv(cfg: Config, s: State)
    requires DownInv(cfg, s) && cfg.recv == Recv
    ensures s.delivered <= DataFrom(cfg.server)
    ensures Over(s.down) ==> s.delivered == DataFrom(cfg.server)
    ensures FlatMap(PongIn, s.events) <= PingsFrom(cfg.server)
    ensures Over(s.down) ==> FlatMap(PongIn, s.events) == PingsFrom(cfg.server)
  {
    HeardIsDrained(cfg.server, s.heard, s.srv);
    AppendNothing(FlatMap(PongIn, s.events));
    assert s.delivered <= s.delivered + s.left;
    assert s.left == [] ==> s.delivered + s.left == s.delivered;
  }

  /** The client has received a prefix of the server's data before any close; all of it when the receiving task ends by itself. */
  lemma DownstreamInOrder(cfg: Config, s: State)
    requires Source(cfg) && Reached(cfg, s)
    ensures s.delivered <= Drain(cfg.server).data
    ensures Over(s.down) ==> s.delivered == Drain(cfg.server).data
  {
    ReachedInv(cfg, s);
    DeliveredInv(cfg, s);
  }
}
