/** Every way of reading the client's bytes does happen: the relay's guarantees are about runs that exist. */
module RelayRuns {
  import opened Bytes
  import opened Frames
  import opened Splitter
  import opened Relay
  import opened RelayGuarantees
  import opened RelaySplitting

  /** Some steps lead from s to t. */
  ghost predicate Leads(cfg: Config, s: State, t: State) {
    exists acts: seq<Action> :: Runs(cfg, s, acts) && Exec(cfg, s, acts) == t
  }

  lemma {:induction false} RunsAppend(cfg: Config, s: State, a: seq<Action>, b: seq<Action>)
    requires Runs(cfg, s, a) && Runs(cfg, Exec(cfg, s, a), b)
    ensures Runs(cfg, s, a + b) && Exec(cfg, s, a + b) == Exec(cfg, Exec(cfg, s, a), b)
    decreases a
  {
    if a == [] {
      assert a + b == b;
    } else {
      assert (a + b)[1..] == a[1..] + b;
      RunsAppend(cfg, Next(cfg, s, a[0]), a[1..], b);
    }
  }

  lemma LeadsSelf(cfg: Config, s: State)
    ensures Leads(cfg, s, s)
  {
    assert Runs(cfg, s, []) && Exec(cfg, s, []) == s;
  }

  lemma LeadsThen(cfg: Config, s: State, t: State, u: State)
    requires Leads(cfg, s, t) && Leads(cfg, t, u)
    ensures Leads(cfg, s, u)
  {
    var a: seq<Action> :| Runs(cfg, s, a) && Exec(cfg, s, a) == t;
    var b: seq<Action> :| Runs(cfg, t, b) && Exec(cfg, t, b) == u;
    RunsAppend(cfg, s, a, b);
  }

  lemma LeadsOn(cfg: Config, s: State, t: State, a: Action)
    requires Leads(cfg, s, t) && Enabled(cfg, t, a)
    ensures Leads(cfg, s, Next(cfg, t, a))
  {
    OneStep(cfg, t, a);
    LeadsThen(cfg, s, t, Next(cfg, t, a));
  }

  lemma OneStep(cfg: Config, t: State, a: Action)
    requires Enabled(cfg, t, a)
    ensures Leads(cfg, t, Next(cfg, t, a))
  {
    JustOne(cfg, t, [a]);
  }

  lemma JustOne(cfg: Config, t: State, acts: seq<Action>)
    requires |acts| == 1 && Enabled(cfg, t, acts[0])
    ensures Runs(cfg, t, acts) && Exec(cfg, t, acts) == Next(cfg, t, acts[0])
  {
    assert acts[1..] == [];
    assert Exec(cfg, Next(cfg, t, acts[0]), []) == Next(cfg, t, acts[0]);
  }

  /**
   The scheduler's freedom: a free lock goes to whichever task asks for it, a write or a delivery
   takes any nonempty part of what is left, a read any part of what is there up to 32 KiB, and a
   failure may strike at every one of them.
   */
  lemma Interleavings(cfg: Config, s: State, n: nat, key: MaskKey)
    ensures s.open && s.lock != Free ==> (Enabled(cfg, s, Write(n)) <==> 1 <= n <= |s.pending|) && Enabled(cfg, s, WriteFails)
    ensures s.open && s.lock == Free && s.up.UpWaiting? ==> Enabled(cfg, s, UpAcquire)
    ensures s.open && s.lock == Free && s.down.DownWaiting? ==> Enabled(cfg, s, DownAcquire(key))
    ensures s.open && s.lock == Free && s.up.UpAtEof? ==> Enabled(cfg, s, UpClose) && Enabled(cfg, s, UpCloseFails)
    ensures s.lock != Starter && s.up.UpReading? && s.pos <= |cfg.input| ==>
      (Enabled(cfg, s, UpRead(n)) <==> 1 <= n <= 32768 && n <= |cfg.input| - s.pos) && Enabled(cfg, s, UpReadFails)
    ensures s.lock != Starter && s.down.DownReading? ==> Enabled(cfg, s, DownRecv) && Enabled(cfg, s, DownRecvFails)
    ensures s.down.DownDelivering? ==>
      (Enabled(cfg, s, DownDeliver(n)) <==> 1 <= n <= |s.left|) && Enabled(cfg, s, DownDeliverFails)
    ensures s.down.DownEnding? ==> Enabled(cfg, s, DownShutdown) && Enabled(cfg, s, DownShutdownFails)
  {
  }

  /** So the wire may stop after any byte of a frame; here of the init's. */
  lemma EveryCutHappens(cfg: Config, key: MaskKey, n: nat) returns (s: State)
    requires n <= |cfg.encode(ClientFrame(2, cfg.init, key))|
    ensures Reached(cfg, s) && s.wire == cfg.encode(ClientFrame(2, cfg.init, key))[..n]
  {
    s := Initial(cfg, key);
    LeadsSelf(cfg, s);
    if n > 0 {
      LeadsOn(cfg, s, s, Write(n));
      s := Next(cfg, s, Write(n));
      AppendNothing(cfg.encode(ClientFrame(2, cfg.init, key))[..n]);
    }
    LeadIsReached(cfg, key, s);
  }

  /** The holder of the lock can get its frame out. */
  lemma Flush(cfg: Config, s: State) returns (t: State)
    requires s.open && s.lock != Free
    ensures Leads(cfg, s, t) && t == s.(wire := s.wire + s.pending, pending := [])
  {
    t := s;
    LeadsSelf(cfg, s);
    if s.pending == [] {
      AppendNothing(s.wire);
    } else {
      LeadsOn(cfg, s, s, Write(|s.pending|));
      t := Next(cfg, s, Write(|s.pending|));
    }
  }

  /** What stays as it is while the client's task sends the parts of a read. */
  ghost predicate SameBut(s: State, t: State) {
    t.lock == s.lock && t.open == s.open && t.up == s.up && t.down == s.down && t.pos == s.pos && t.events == s.events
  }

  /** And all the parts of its read. */
  lemma {:induction false} SendParts(cfg: Config, s: State) returns (t: State)
    requires s.open && s.lock == UpTask
    ensures Leads(cfg, s, t) && SameBut(s, t) && t.pending == [] && t.todo == []
    decreases |s.todo|
  {
    t := Flush(cfg, s);
    if t.todo == [] {
    } else {
      var build := UpBuild([0, 0, 0, 0]);
      LeadsOn(cfg, s, t, build);
      var u := Next(cfg, t, build);
      t := SendParts(cfg, u);
      LeadsThen(cfg, s, u, t);
    }
  }

  ghost predicate Ready(s: State) {
    s.open && s.lock == Free && s.up == UpReading
  }

  lemma TakeLock(cfg: Config, s: State, chunk: seq<byte>) returns (t: State)
    requires Ready(s) && 1 <= |chunk| <= 32768 && s.pos <= |cfg.input| && chunk <= cfg.input[s.pos..]
    ensures Leads(cfg, s, t) && t.open && t.lock == UpTask && t.up == UpHolding && t.pos == s.pos + |chunk|
    ensures FlatMap(ChunkOf, t.events) == FlatMap(ChunkOf, s.events) + [chunk]
  {
    assert cfg.input[s.pos..s.pos + |chunk|] == chunk;
    LeadsSelf(cfg, s);
    LeadsOn(cfg, s, s, UpRead(|chunk|));
    var a := Next(cfg, s, UpRead(|chunk|));
    LeadsOn(cfg, s, a, UpAcquire);
    t := Next(cfg, a, UpAcquire);
    FlatMapSnoc(ChunkOf, s.events, ReadSent(chunk, cfg.split(s.offset, chunk)));
  }

  lemma SendRead(cfg: Config, s: State, chunk: seq<byte>) returns (t: State)
    requires Ready(s) && 1 <= |chunk| <= 32768 && s.pos <= |cfg.input| && chunk <= cfg.input[s.pos..]
    ensures Leads(cfg, s, t) && Ready(t) && t.pos == s.pos + |chunk|
    ensures FlatMap(ChunkOf, t.events) == FlatMap(ChunkOf, s.events) + [chunk]
  {
    var b := TakeLock(cfg, s, chunk);
    var c := SendParts(cfg, b);
    LeadsThen(cfg, s, b, c);
    LeadsOn(cfg, s, c, UpRelease);
    t := Next(cfg, c, UpRelease);
  }

  lemma {:induction false} SendReads(cfg: Config, s: State, chunks: seq<seq<byte>>) returns (t: State)
    requires Ready(s) && (forall i | 0 <= i < |chunks| :: 1 <= |chunks[i]| <= 32768)
    requires s.pos <= |cfg.input| && Join(chunks) == cfg.input[s.pos..]
    ensures Leads(cfg, s, t) && Ready(t) && t.pos == |cfg.input|
    ensures FlatMap(ChunkOf, t.events) == FlatMap(ChunkOf, s.events) + chunks
    decreases |chunks|
  {
    if chunks == [] {
      t := s;
      LeadsSelf(cfg, s);
      AppendNothing(FlatMap(ChunkOf, s.events));
    } else {
      var u := SendRead(cfg, s, chunks[0]);
      assert cfg.input[u.pos..] == Join(chunks[1..]);
      t := SendReads(cfg, u, chunks[1..]);
      LeadsThen(cfg, s, u, t);
      assert chunks == [chunks[0]] + chunks[1..];
      AppendAssoc(FlatMap(ChunkOf, s.events), [chunks[0]], chunks[1..]);
    }
  }

  lemma Start(cfg: Config, key: MaskKey) returns (t: State)
    ensures Leads(cfg, Initial(cfg, key), t) && Ready(t) && t.pos == 0 && t.events == []
  {
    var s := Initial(cfg, key);
    var u := Flush(cfg, s);
    LeadsOn(cfg, s, u, StartDone);
    t := Next(cfg, u, StartDone);
  }

  lemma Finish(cfg: Config, s: State) returns (t: State)
    requires Ready(s) && s.pos == |cfg.input|
    ensures Leads(cfg, s, t) && t.up.UpClosed? && t.events == s.events
  {
    LeadsSelf(cfg, s);
    LeadsOn(cfg, s, s, UpEof);
    var u := Next(cfg, s, UpEof);
    LeadsOn(cfg, s, u, UpClose);
    t := Next(cfg, u, UpClose);
  }

  /** However the client's bytes are cut into reads of 1 to 32768 bytes, some run reads them so and closes cleanly. */
  lemma EveryReadingHappens(cfg: Config, key: MaskKey, chunks: seq<seq<byte>>) returns (s: State)
    requires Join(chunks) == cfg.input && forall i | 0 <= i < |chunks| :: 1 <= |chunks[i]| <= 32768
    ensures Reached(cfg, s) && s.up.UpClosed? && Reads(s) == chunks
  {
    var a := Start(cfg, key);
    assert cfg.input[0..] == cfg.input;
    var b := SendReads(cfg, a, chunks);
    s := Finish(cfg, b);
    LeadsThen(cfg, Initial(cfg, key), a, b);
    LeadsThen(cfg, Initial(cfg, key), b, s);
    LeadIsReached(cfg, key, s);
  }

  lemma LeadIsReached(cfg: Config, key: MaskKey, s: State)
    requires Leads(cfg, Initial(cfg, key), s)
    ensures Reached(cfg, s)
  {
    var acts: seq<Action> :| Runs(cfg, Initial(cfg, key), acts) && Exec(cfg, Initial(cfg, key), acts) == s;
  }

  /** In particular messages that arrive together in one read leave as one frame each. */
  lemma TogetherYetApart(init: seq<byte>, server: seq<byte>, c: Cipher, ms: seq<Message>, key: MaskKey) returns (s: State)
    requires |init| < LENGTHS && AllWellFormed(ms) && ms != [] && 1 <= |Join(Wires(ms))| <= 32768
    ensures Reached(SourceConfig(init, Crypt(c, 64, Join(Wires(ms))), server, Some(c)), s) && |Reads(s)| == 1
    ensures s.up.UpClosed? && DataFrames(s) == [init] + Sealed(c, 64, Wires(ms))
  {
    var input := Crypt(c, 64, Join(Wires(ms)));
    var cfg := SourceConfig(init, input, server, Some(c));
    JoinOne(input);
    s := EveryReadingHappens(cfg, key, [input]);
    OneGroup(c, ms, input);
    FramesAreMessages(init, input, server, c, ms, s);
  }

  lemma OneGroup(c: Cipher, ms: seq<Message>, input: seq<byte>)
    requires ms != [] && input == Crypt(c, 64, Join(Wires(ms)))
    ensures OnBoundaries(c, 64, ms, [input])
  {
    JoinOne(ms);
    assert Bodies(GroupWires([ms])) == [Join(Wires(ms))];
    assert Sealed(c, 64, [Join(Wires(ms))]) == [input];
    assert Groups(c, 64, [ms], ms, [input]);
  }
}
