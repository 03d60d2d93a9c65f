/**
 Which frames carry the client's bytes (src/modules/relay.rs:41-56): with a splitter one frame a part,
 without one a frame a read; and exactly when that is one frame a message.
 */
module RelaySplitting {
  import opened Bytes
  import opened Frames
  import opened Downstream
  import opened FrameBytes
  import opened Splitter
  import opened Relay
  import opened RelayGuarantees

  /** The payload of a data frame. */
  function PayloadIn(f: Frame): seq<seq<byte>> {
    if f.Binary? then [f.payload] else []
  }

  lemma {:induction false} PayloadsOfBinaries(parts: seq<seq<byte>>)
    ensures FlatMap(PayloadIn, Binaries(parts)) == parts
  {
    if parts == [] {
    } else {
      PayloadsOfBinaries(parts[1..]);
      assert ([Binary(parts[0])] + Binaries(parts[1..]))[1..] == Binaries(parts[1..]);
    }
  }

  lemma {:induction false} PayloadsOfEvents(events: seq<Event>)
    ensures FlatMap(PayloadIn, FlatMap(EventFrames, events)) == FlatMap(PartsOf, events)
  {
    if events == [] {
    } else {
      var e, rest := events[0], FlatMap(EventFrames, events[1..]);
      PayloadsOfEvents(events[1..]);
      FlatMapAppend(PayloadIn, EventFrames(e), rest);
      PayloadsOfEvent(e);
    }
  }

  lemma PayloadsOfEvent(e: Event)
    ensures FlatMap(PayloadIn, EventFrames(e)) == PartsOf(e)
  {
    match e
    case ReadSent(_, parts) => PayloadsOfBinaries(parts);
    case Ponged(p) => assert [Pong(p)][1..] == [];
  }

  lemma PlanPayloads(cfg: Config, s: State)
    ensures FlatMap(PayloadIn, Plan(cfg, s)) == [cfg.init] + FlatMap(PartsOf, s.events)
  {
    PayloadsOfEvents(s.events);
    assert Plan(cfg, s)[1..] == FlatMap(EventFrames, s.events);
  }

  /** The data frames decoded from the wire, and the reads the client's bytes arrived in. */
  function DataFrames(s: State): seq<seq<byte>> {
    FlatMap(PayloadIn, FramesIn(s.wire))
  }

  function Reads(s: State): seq<seq<byte>> {
    FlatMap(ChunkOf, s.events)
  }

  lemma FramesAreRun(cfg: Config, s: State)
    requires Source(cfg) && Reached(cfg, s)
    ensures DataFrames(s) <= [cfg.init] + Run(cfg.split, 64, Reads(s))
    ensures s.up.UpClosed? || (s.open && s.lock == Free) ==> DataFrames(s) == [cfg.init] + Run(cfg.split, 64, Reads(s))
  {
    WireFollowsPlan(cfg, s);
    PlanPayloads(cfg, s);
    PartsAreSplits(cfg, s);
    FlatMapPrefix(PayloadIn, FramesIn(s.wire), Plan(cfg, s));
  }

  lemma SourceIsSource(init: seq<byte>, input: seq<byte>, server: seq<byte>, cipher: Option<Cipher>)
    requires |init| < LENGTHS
    ensures Source(SourceConfig(init, input, server, cipher))
  {
    var cfg := SourceConfig(init, input, server, cipher);
    assert cfg == SourceConfig(cfg.init, cfg.input, cfg.server, cipher);
  }

  // -------- with a splitter --------

  /** Each read's parts, cut at its own place in the stream. */
  function PartsOfReads(split: Split, offset: nat, rs: seq<seq<byte>>): seq<seq<byte>>
    decreases |rs|
  {
    if rs == [] then [] else split(offset, rs[0]) + PartsOfReads(split, offset + |rs[0]|, rs[1..])
  }

  lemma {:induction false} RunIsParts(split: Split, offset: nat, rs: seq<seq<byte>>)
    ensures Run(split, offset, rs) == PartsOfReads(split, offset, rs)
    decreases |rs|
  {
    if rs == [] {
    } else {
      assert rs == [rs[0]] + rs[1..];
      RunCons(split, offset, rs[0], rs[1..]);
      RunIsParts(split, offset + |rs[0]|, rs[1..]);
    }
  }

  /** A splitter cuts as `MtProtoMessageSplitter.Split` does. */
  lemma SplittingIsParts(c: Cipher, offset: nat, chunk: seq<byte>)
    ensures Splitting(c)(offset, chunk) == Parts(c, offset, chunk)
  {
  }

  /** In every interleaving: the init, then the parts of the successive reads, one frame each, cut short at most at the end. */
  lemma FramesAreParts(init: seq<byte>, input: seq<byte>, server: seq<byte>, c: Cipher, s: State)
    requires |init| < LENGTHS && Reached(SourceConfig(init, input, server, Some(c)), s)
    ensures DataFrames(s) <= [init] + PartsOfReads(Splitting(c), 64, Reads(s))
    ensures s.up.UpClosed? || (s.open && s.lock == Free) ==> DataFrames(s) == [init] + PartsOfReads(Splitting(c), 64, Reads(s))
  {
    var cfg := SourceConfig(init, input, server, Some(c));
    SourceIsSource(init, input, server, Some(c));
    FramesAreRun(cfg, s);
    RunIsParts(Splitting(c), 64, Reads(s));
  }

  /**
   After a clean close the peer has one frame for each of the client's messages, encrypted as the
   client sent it, if and only if no read started or ended inside a message.
   */
  lemma FramesAreMessages(init: seq<byte>, input: seq<byte>, server: seq<byte>, c: Cipher, ms: seq<Message>, s: State)
    requires |init| < LENGTHS && Reached(SourceConfig(init, input, server, Some(c)), s)
    requires AllWellFormed(ms) && input == Crypt(c, 64, Join(Wires(ms))) && s.up.UpClosed?
    ensures DataFrames(s) == [init] + Sealed(c, 64, Wires(ms)) <==> OnBoundaries(c, 64, ms, Reads(s))
  {
    var cfg := SourceConfig(init, input, server, Some(c));
    SourceIsSource(init, input, server, Some(c));
    FramesAreRun(cfg, s);
    FramedIffOnBoundaries(c, 64, ms, Reads(s));
    SameTail(init, Run(Splitting(c), 64, Reads(s)), Sealed(c, 64, Wires(ms)));
  }

  lemma SameTail<T>(x: T, a: seq<T>, b: seq<T>)
    ensures [x] + a == [x] + b <==> a == b
  {
    assert a == ([x] + a)[1..] && b == ([x] + b)[1..];
  }

  // -------- without --------

  lemma {:induction false} RunIsReads(offset: nat, rs: seq<seq<byte>>)
    ensures Run(Whole(), offset, rs) == rs
    decreases |rs|
  {
    if rs == [] {
    } else {
      assert rs == [rs[0]] + rs[1..];
      RunCons(Whole(), offset, rs[0], rs[1..]);
      RunIsReads(offset + |rs[0]|, rs[1..]);
    }
  }

  /** Without a splitter every read is one frame. */
  lemma FramesAreReads(init: seq<byte>, input: seq<byte>, server: seq<byte>, s: State)
    requires |init| < LENGTHS && Reached(SourceConfig(init, input, server, None), s)
    ensures DataFrames(s) <= [init] + Reads(s)
    ensures s.up.UpClosed? || (s.open && s.lock == Free) ==> DataFrames(s) == [init] + Reads(s)
  {
    var cfg := SourceConfig(init, input, server, None);
    SourceIsSource(init, input, server, None);
    FramesAreRun(cfg, s);
    RunIsReads(64, Reads(s));
  }

  // -------- reads and frames as such --------

  lemma {:induction false} ReadSizes(events: seq<Event>)
    requires forall i | 0 <= i < |events| && events[i].ReadSent? :: 1 <= |events[i].chunk| <= 32768
    ensures forall i | 0 <= i < |FlatMap(ChunkOf, events)| :: 1 <= |FlatMap(ChunkOf, events)[i]| <= 32768
  {
    if events == [] {
    } else {
      ReadSizes(events[1..]);
    }
  }

  /** Reads are nonempty, at most 32 KiB, and together a prefix of the client's bytes; all of them after a clean close. */
  lemma ReadsAreTheInput(cfg: Config, s: State)
    requires Source(cfg) && Reached(cfg, s)
    ensures forall i | 0 <= i < |Reads(s)| :: 1 <= |Reads(s)[i]| <= 32768
    ensures Join(Reads(s)) <= cfg.input
    ensures s.up.UpClosed? ==> Join(Reads(s)) == cfg.input
  {
    ReachedShape(cfg, s);
    ReadSizes(s.events);
    PartsAreSplits(cfg, s);
    ReadsJoin(cfg, s);
    ReachedConserves(cfg, s);
    RunJoin(cfg.split, 64, Reads(s));
  }

  lemma ReachedShape(cfg: Config, s: State)
    requires Source(cfg) && Reached(cfg, s)
    ensures ShapeInv(s)
  {
    ReachedInv(cfg, s);
  }

  lemma ReachedConserves(cfg: Config, s: State)
    requires Source(cfg) && Reached(cfg, s)
    ensures Conserves(cfg.split)
  {
    ReachedInv(cfg, s);
  }

  /** Everything written is the encoding of final, masked frames of opcode 2 or 10. */
  lemma WrittenFrames(cfg: Config, s: State)
    requires Source(cfg) && Reached(cfg, s)
    ensures s.wire + s.pending == EncodeAll(s.sent)
    ensures forall i | 0 <= i < |s.sent| ::
      s.sent[i].fin && s.sent[i].rsv == 0 && s.sent[i].key.Some? && (s.sent[i].opcode == 2 || s.sent[i].opcode == 10)
  {
    ReachedShape(cfg, s);
    ReachedWire(cfg, s);
  }

  // -------- by the server's opcodes --------

  /** What remains to be had from behind a list of frames: nothing, if one of them ends the session. */
  function BehindData(ws: seq<WireFrame>, tail: seq<byte>): seq<byte> {
    if forall i | 0 <= i < |ws| :: Known(ws[i]) then Drain(tail).data else []
  }

  function BehindPings(ws: seq<WireFrame>, tail: seq<byte>): seq<seq<byte>> {
    if forall i | 0 <= i < |ws| :: Known(ws[i]) then Drain(tail).pings else []
  }

  /**
   The pongs answer the server's frames of opcode 9, and the client is given those of opcodes 0 to 2,
   in order, up to the first frame of another opcode; all of them once the receiving task has ended.
   */
  lemma AnsweredByOpcode(cfg: Config, s: State, ws: seq<WireFrame>, tail: seq<byte>)
    requires Source(cfg) && Reached(cfg, s) && Fits(ws) && cfg.server == EncodeAll(ws) + tail
    ensures FlatMap(PongOf, FramesIn(s.wire)) <= PingPayloads(ws) + BehindPings(ws, tail)
    ensures s.delivered <= DataPayloads(ws) + BehindData(ws, tail)
    ensures Over(s.down) && ((s.open && s.lock == Free) || s.up.UpClosed?) ==>
      FlatMap(PongOf, FramesIn(s.wire)) == PingPayloads(ws) + BehindPings(ws, tail)
    ensures Over(s.down) ==> s.delivered == DataPayloads(ws) + BehindData(ws, tail)
  {
    DrainedByOpcode(ws, tail);
    PongsAnswerPings(cfg, s);
    DownstreamInOrder(cfg, s);
  }
}
