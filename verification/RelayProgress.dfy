/** The relay gets somewhere: no interleaving goes on for ever, and one that comes to rest undisturbed has done its work. */
module RelayProgress {
  import opened Bytes
  import opened Frames
  import opened Downstream
  import opened Relay
  import opened RelayGuarantees

  // -------- every run ends --------

  function UpRank(u: Up): nat {
    match u
    case UpWaiting(_) => 4
    case UpHolding => 3
    case UpReading => 2
    case UpAtEof => 1
    case UpClosed => 0
    case UpFailed => 0
  }

  function DownRank(d: Down): nat {
    match d
    case DownDelivering => 4
    case DownWaiting(_) => 4
    case DownHolding => 3
    case DownReading => 2
    case DownEnding => 1
    case DownEnded => 0
    case DownFailed => 0
  }

  // What is left to do, the weightier first.

  function Unread(cfg: Config, s: State): nat {
    (if s.pos <= |cfg.input| then |cfg.input| - s.pos else 0) + |s.srv|
  }

  function Stage(s: State): nat {
    UpRank(s.up) + DownRank(s.down) + if s.lock == Starter then 1 else 0
  }

  function Unframed(s: State): nat {
    |s.todo| + |s.left|
  }

  ghost predicate Less(cfg: Config, s': State, s: State) {
    || Unread(cfg, s') < Unread(cfg, s)
    || (Unread(cfg, s') == Unread(cfg, s) && Stage(s') < Stage(s))
    || (Unread(cfg, s') == Unread(cfg, s) && Stage(s') == Stage(s) && Unframed(s') < Unframed(s))
    || (Unread(cfg, s') == Unread(cfg, s) && Stage(s') == Stage(s) && Unframed(s') == Unframed(s) && |s'.pending| < |s.pending|)
  }

  ghost predicate Consumes(recv: seq<byte> -> Received) {
    forall s: seq<byte> :: recv(s).Message? ==> |recv(s).rest| < |s|
  }

  lemma RecvDecreases(cfg: Config, s: State)
    requires Consumes(cfg.recv) && Enabled(cfg, s, DownRecv)
    ensures Less(cfg, Next(cfg, s, DownRecv), s)
  {
  }

  lemma WriteDecreases(cfg: Config, s: State, a: Action)
    requires LockInv(s) && Enabled(cfg, s, a) && (a.Write? || a.WriteFails? || a.UpBuild? || a.DownDeliver?)
    ensures Less(cfg, Next(cfg, s, a), s)
  {
  }

  lemma StepDecreases(cfg: Config, s: State, a: Action)
    requires Consumes(cfg.recv) && LockInv(s) && Enabled(cfg, s, a)
    ensures Less(cfg, Next(cfg, s, a), s)
  {
    if a.DownRecv? {
      RecvDecreases(cfg, s);
    } else if a.Write? || a.WriteFails? || a.UpBuild? || a.DownDeliver? {
      WriteDecreases(cfg, s, a);
    }
  }

  ghost predicate Steps(cfg: Config, states: nat -> State, acts: nat -> Action, n: nat) {
    Enabled(cfg, states(n), acts(n)) && states(n + 1) == Next(cfg, states(n), acts(n))
  }

  lemma {:induction false} EndsFrom(cfg: Config, states: nat -> State, acts: nat -> Action, i: nat) returns (n: nat)
    requires Valid(cfg) && Consumes(cfg.recv) && Inv(cfg, states(i))
    ensures !Steps(cfg, states, acts, n)
    decreases Unread(cfg, states(i)), Stage(states(i)), Unframed(states(i)), |states(i).pending|
  {
    if !Steps(cfg, states, acts, i) {
      n := i;
    } else {
      StepDecreases(cfg, states(i), acts(i));
      StepInv(cfg, states(i), acts(i));
      n := EndsFrom(cfg, states, acts, i + 1);
    }
  }

  /** Whatever the scheduler, the peers and the partial writes do, no session goes on for ever. */
  lemma EveryRunEnds(cfg: Config, key: MaskKey, states: nat -> State, acts: nat -> Action) returns (n: nat)
    requires Source(cfg) && states(0) == Initial(cfg, key)
    ensures !Steps(cfg, states, acts, n)
  {
    SourceValid(cfg);
    InitialInv(cfg, key);
    n := EndsFrom(cfg, states, acts, 0);
  }

  lemma SourceValid(cfg: Config)
    requires Source(cfg)
    ensures Valid(cfg) && Consumes(cfg.recv)
  {
    var cipher :| cfg == SourceConfig(cfg.init, cfg.input, cfg.server, cipher);
    SourceConfigValid(cfg.init, cfg.input, cfg.server, cipher);
    forall s: seq<byte> | Recv(s).Message? ensures |Recv(s).rest| < |s| {
    }
  }

  // -------- at rest --------

  predicate Fails(a: Action) {
    || a.WriteFails? || a.UpReadFails? || a.UpCloseFails?
    || a.DownRecvFails? || a.DownDeliverFails? || a.DownShutdownFails?
  }

  /** Only a failure could still happen. */
  ghost predicate AtRest(cfg: Config, s: State) {
    forall a: Action :: Enabled(cfg, s, a) ==> Fails(a)
  }

  ghost predicate UpDone(s: State) {
    s.up.UpClosed? || s.up.UpFailed? || (!s.open && (s.up.UpWaiting? || s.up.UpAtEof?))
  }

  ghost predicate DownDone(s: State) {
    s.down.DownEnded? || s.down.DownFailed? || (!s.open && s.down.DownWaiting?)
  }

  const ZERO_KEY: MaskKey := [0, 0, 0, 0]

  /** What the holder of the lock does next. */
  function HolderNext(s: State): Action {
    if s.pending != [] then Write(1)
    else if s.lock == Starter then StartDone
    else if s.lock == DownTask then DownRelease
    else if s.todo == [] then UpRelease
    else UpBuild(ZERO_KEY)
  }

  function UpNext(cfg: Config, s: State): Action {
    match s.up
    case UpReading => if s.pos < |cfg.input| then UpRead(1) else UpEof
    case UpWaiting(_) => UpAcquire
    case _ => UpClose
  }

  function DownNext(s: State): Action {
    match s.down
    case DownReading => DownRecv
    case DownDelivering => if s.left == [] then DownDelivered else DownDeliver(1)
    case DownEnding => DownShutdown
    case _ => DownAcquire(ZERO_KEY)
  }

  lemma HolderMoves(cfg: Config, s: State)
    requires LockInv(s) && s.lock != Free && s.open
    ensures Enabled(cfg, s, HolderNext(s)) && !Fails(HolderNext(s))
  {
  }

  lemma UpMoves(cfg: Config, s: State)
    requires LockInv(s) && s.lock == Free && s.pos <= |cfg.input| && !UpDone(s)
    ensures Enabled(cfg, s, UpNext(cfg, s)) && !Fails(UpNext(cfg, s))
  {
  }

  lemma DownMoves(cfg: Config, s: State)
    requires LockInv(s) && s.lock == Free && !DownDone(s)
    ensures Enabled(cfg, s, DownNext(s)) && !Fails(DownNext(s))
  {
  }

  lemma NothingLeft(cfg: Config, s: State, a: Action)
    requires LockInv(s) && s.lock == Free && UpDone(s) && DownDone(s)
    ensures !Enabled(cfg, s, a)
  {
  }

  lemma ReachedLock(cfg: Config, s: State)
    requires Source(cfg) && Reached(cfg, s)
    ensures LockInv(s) && s.pos <= |cfg.input| && (s.lock != Free ==> s.open)
  {
    ReachedInv(cfg, s);
  }

  /**
   The holder of the lock is never stuck, and without a holder each task moves until it is done: no
   deadlock. Once nothing but a failure could happen, nothing at all can.
   */
  lemma RestsOnlyWhenDone(cfg: Config, s: State)
    requires Source(cfg) && Reached(cfg, s)
    ensures AtRest(cfg, s) <==> s.lock == Free && UpDone(s) && DownDone(s)
    ensures AtRest(cfg, s) <==> forall a: Action :: !Enabled(cfg, s, a)
  {
    ReachedLock(cfg, s);
    if s.lock == Free && UpDone(s) && DownDone(s) {
      forall a: Action ensures !Enabled(cfg, s, a) {
        NothingLeft(cfg, s, a);
      }
    } else if s.lock != Free {
      HolderMoves(cfg, s);
    } else if !UpDone(s) {
      UpMoves(cfg, s);
    } else if !DownDone(s) {
      DownMoves(cfg, s);
    }
  }

  /**
   A session that has come to rest without a failure has closed the writer, and the peer has every
   client byte. The server's task has ended, with everything delivered and every ping answered, or
   holds a ping it can no longer answer.
   */
  lemma RestMeansDelivered(cfg: Config, s: State)
    requires Source(cfg) && Reached(cfg, s) && AtRest(cfg, s) && !s.up.UpFailed? && !s.down.DownFailed?
    ensures s.up.UpClosed? && FlatMap(DataOf, FramesIn(s.wire)) == cfg.init + cfg.input
    ensures s.down.DownEnded? || s.down.DownWaiting?
    ensures s.down.DownEnded? ==>
      s.delivered == Drain(cfg.server).data && FlatMap(PongOf, FramesIn(s.wire)) == Drain(cfg.server).pings
  {
    RestsOnlyWhenDone(cfg, s);
    ReachedOpen(cfg, s);
    UpstreamInOrder(cfg, s);
    DownstreamInOrder(cfg, s);
    PongsAnswerPings(cfg, s);
  }

  lemma ReachedOpen(cfg: Config, s: State)
    requires Source(cfg) && Reached(cfg, s)
    ensures s.open || s.up.UpClosed? || s.up.UpFailed? || s.down.DownFailed?
  {
    ReachedInv(cfg, s);
  }
}
