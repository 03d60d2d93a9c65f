/**
 The duplex relay (src/modules/relay.rs, bridge_ws_tcp) as a step system. The client-to-server task
 and the server-to-client task share one WebSocket writer behind a lock; either may be stopped
 between any two steps, and a frame may go out in any number of partial writes.
 */
module Relay {
  import opened Bytes
  import opened Frames
  import opened Downstream
  import opened Splitter

  /**
   One session: the resolved init packet, everything the client sends after it, everything the
   server sends, and the splitter, encoder and receiver in use.
   */
  datatype Config = Config(
    init: seq<byte>,
    input: seq<byte>,
    server: seq<byte>,
    split: Split,
    encode: WireFrame -> seq<byte>,
    recv: seq<byte> -> Received)

  const BUFFER: nat := 32 * 1024

  datatype Lock = Free | Starter | UpTask | DownTask

  datatype Up = UpReading | UpWaiting(chunk: seq<byte>) | UpHolding | UpAtEof | UpClosed | UpFailed

  /** After the last message the task still has to shut the client's connection down. */
  datatype Down =
    | DownReading | DownDelivering | DownWaiting(payload: seq<byte>) | DownHolding
    | DownEnding | DownEnded | DownFailed

  /** The server has said its last word. */
  predicate Over(d: Down) {
    d.DownEnding? || d.DownEnded?
  }

  /** What the lock has been taken for, in the order it was taken. */
  datatype Event = ReadSent(chunk: seq<byte>, parts: seq<seq<byte>>) | Ponged(payload: seq<byte>)

  datatype State = State(
    lock: Lock,
    open: bool,                // neither closed nor failed
    up: Up,
    down: Down,
    wire: seq<byte>,           // written to the WebSocket
    pending: seq<byte>,        // of the frame being written, the part not yet written
    todo: seq<seq<byte>>,      // of the read being sent, the parts not yet framed
    pos: nat,                  // client bytes read
    offset: nat,               // the splitter's place in the keystream
    srv: seq<byte>,            // server bytes not yet read
    left: seq<byte>,           // of the data being delivered, the part not yet written to the client
    delivered: seq<byte>,      // written to the client
    sent: seq<WireFrame>,      // record: frames begun
    heard: seq<Incoming>,      // record: messages received
    events: seq<Event>)        // record: uses of the lock

  function Initial(cfg: Config, key: MaskKey): State {
    var w := ClientFrame(2, cfg.init, key);
    State(Starter, true, UpReading, DownReading, [], cfg.encode(w), [], 0, 64, cfg.server, [], [], [w], [], [])
  }

  datatype Action =
    | Write(n: nat) | WriteFails
    | StartDone
    | UpRead(n: nat) | UpReadFails | UpEof | UpAcquire | UpBuild(key: MaskKey) | UpRelease
    | UpClose | UpCloseFails
    | DownRecv | DownRecvFails | DownDeliver(n: nat) | DownDelivered | DownDeliverFails
    | DownAcquire(key: MaskKey) | DownRelease | DownShutdown | DownShutdownFails

  predicate Enabled(cfg: Config, s: State, a: Action) {
    match a
    // whoever holds the lock
    case Write(n) => s.open && s.lock != Free && 1 <= n <= |s.pending|
    case WriteFails => s.open && s.lock != Free
    // before the tasks start
    case StartDone => s.open && s.lock == Starter && s.pending == []
    // the client-to-server task
    case UpRead(n) => s.lock != Starter && s.up.UpReading? && 1 <= n <= BUFFER && s.pos + n <= |cfg.input|
    case UpReadFails => s.lock != Starter && s.up.UpReading?
    case UpEof => s.lock != Starter && s.up.UpReading? && s.pos == |cfg.input|
    case UpAcquire => s.open && s.lock == Free && s.up.UpWaiting?
    case UpBuild(_) => s.open && s.lock == UpTask && s.pending == [] && s.todo != []
    case UpRelease => s.open && s.lock == UpTask && s.pending == [] && s.todo == []
    case UpClose => s.open && s.lock == Free && s.up.UpAtEof?
    case UpCloseFails => s.open && s.lock == Free && s.up.UpAtEof?
    // the server-to-client task
    case DownRecv => s.lock != Starter && s.down.DownReading?
    case DownRecvFails => s.lock != Starter && s.down.DownReading?
    case DownDeliver(n) => s.down.DownDelivering? && 1 <= n <= |s.left|
    case DownDelivered => s.down.DownDelivering? && s.left == []
    case DownDeliverFails => s.down.DownDelivering?
    case DownAcquire(_) => s.open && s.lock == Free && s.down.DownWaiting?
    case DownRelease => s.open && s.lock == DownTask && s.pending == []
    case DownShutdown => s.down.DownEnding?
    case DownShutdownFails => s.down.DownEnding?
  }

  function Receive(cfg: Config, s: State): State {
    match cfg.recv(s.srv)
    case Ended => s.(down := DownEnding)
    case Broken => s.(down := DownFailed)
    case Message(msg, rest) =>
      var s' := s.(srv := rest, heard := s.heard + [msg]);
      match msg
      case InData(p) => s'.(down := DownDelivering, left := p)
      case InPing(p) => s'.(down := DownWaiting(p))
      case InClose(_) => s'.(down := DownEnding)
  }

  function Next(cfg: Config, s: State, a: Action): State
    requires Enabled(cfg, s, a)
  {
    match a
    case Write(n) => s.(wire := s.wire + s.pending[..n], pending := s.pending[n..])
    case WriteFails =>
      s.(open := false, lock := Free,
         up := if s.lock == DownTask then s.up else UpFailed,
         down := if s.lock == UpTask then s.down else DownFailed)
    case StartDone => s.(lock := Free)
    case UpRead(n) => s.(up := UpWaiting(cfg.input[s.pos..s.pos + n]), pos := s.pos + n)
    case UpReadFails => s.(up := UpFailed)
    case UpEof => s.(up := UpAtEof)
    case UpAcquire =>
      var chunk := s.up.chunk;
      var parts := cfg.split(s.offset, chunk);
      s.(lock := UpTask, up := UpHolding, todo := parts, offset := s.offset + |chunk|,
         events := s.events + [ReadSent(chunk, parts)])
    case UpBuild(key) =>
      var w := ClientFrame(2, s.todo[0], key);
      s.(pending := cfg.encode(w), todo := s.todo[1..], sent := s.sent + [w])
    case UpRelease => s.(lock := Free, up := UpReading)
    case UpClose => s.(open := false, up := UpClosed)
    case UpCloseFails => s.(open := false, up := UpFailed)
    case DownRecv => Receive(cfg, s)
    case DownRecvFails => s.(down := DownFailed)
    case DownDeliver(n) => s.(delivered := s.delivered + s.left[..n], left := s.left[n..])
    case DownDelivered => s.(down := DownReading)
    case DownDeliverFails => s.(down := DownFailed)
    case DownAcquire(key) =>
      var w := ClientFrame(10, s.down.payload, key);
      s.(lock := DownTask, down := DownHolding, pending := cfg.encode(w), sent := s.sent + [w],
         events := s.events + [Ponged(s.down.payload)])
    case DownRelease => s.(lock := Free, down := DownReading)
    case DownShutdown => s.(down := DownEnded)
    case DownShutdownFails => s.(down := DownFailed)
  }

  predicate Runs(cfg: Config, s: State, acts: seq<Action>)
    decreases acts
  {
    acts == [] || (Enabled(cfg, s, acts[0]) && Runs(cfg, Next(cfg, s, acts[0]), acts[1..]))
  }

  function Exec(cfg: Config, s: State, acts: seq<Action>): State
    requires Runs(cfg, s, acts)
    decreases acts
  {
    if acts == [] then s else Exec(cfg, Next(cfg, s, acts[0]), acts[1..])
  }

  // -------- what the record means --------

  function Binaries(parts: seq<seq<byte>>): seq<Frame> {
    if parts == [] then [] else [Binary(parts[0])] + Binaries(parts[1..])
  }

  function EventFrames(e: Event): seq<Frame> {
    match e
    case ReadSent(_, parts) => Binaries(parts)
    case Ponged(p) => [Pong(p)]
  }

  function ChunkOf(e: Event): seq<seq<byte>> {
    if e.ReadSent? then [e.chunk] else []
  }

  function PartsOf(e: Event): seq<seq<byte>> {
    if e.ReadSent? then e.parts else []
  }

  function PongIn(e: Event): seq<seq<byte>> {
    if e.Ponged? then [e.payload] else []
  }

  function PongOf(f: Frame): seq<seq<byte>> {
    if f.Pong? then [f.payload] else []
  }

  /** The frames the session is meant to put on the wire: the init, then each use of the lock without a gap. */
  function Plan(cfg: Config, s: State): seq<Frame> {
    [Binary(cfg.init)] + FlatMap(EventFrames, s.events)
  }

  // -------- the invariant --------

  /** The lock says who is where; only its holder has a frame or parts on hand. */
  ghost predicate LockInv(s: State) {
    && (s.lock == UpTask <==> s.up.UpHolding?)
    && (s.lock == DownTask <==> s.down.DownHolding?)
    && (s.lock == Starter ==> s.open && s.up.UpReading? && s.down.DownReading?)
    && (s.open && s.lock == Free ==> s.pending == [])
    && (s.open && s.lock != UpTask ==> s.todo == [])
    && (s.up.UpClosed? ==> !s.open && s.pending == [] && s.todo == [])
  }

  /** The writer is given up only by a failure or the final close, and nobody holds it after that. */
  ghost predicate OpenInv(s: State) {
    s.open || (s.lock == Free && (s.up.UpClosed? || s.up.UpFailed? || s.down.DownFailed?))
  }

  function LastOf<T>(s: seq<T>): T
    requires s != []
  {
    s[|s| - 1]
  }

  /**
   The frame being written is the lock holder's own: the init at the start, a part of the read it
   took the lock for, the pong it took the lock for.
   */
  ghost predicate Owns(cfg: Config, s: State, w: WireFrame) {
    match s.lock
    case Free => false
    case Starter => w.opcode == 2 && w.payload == cfg.init && s.events == []
    case UpTask =>
      && s.events != [] && LastOf(s.events).ReadSent?
      && w.opcode == 2 && |s.todo| < |LastOf(s.events).parts|
      && w.payload == LastOf(s.events).parts[|LastOf(s.events).parts| - |s.todo| - 1]
    case DownTask => w.opcode == 10 && s.events != [] && LastOf(s.events) == Ponged(w.payload)
  }

  ghost predicate OwnInv(cfg: Config, s: State) {
    && s.sent != []
    && (s.open && s.pending != [] ==> Owns(cfg, s, LastOf(s.sent)))
    && (s.open && s.lock == UpTask ==> s.events != [] && LastOf(s.events).ReadSent? && Suffix(s.todo, LastOf(s.events).parts))
    && (s.lock == Starter ==> s.events == [])
  }

  predicate Suffix<T(==)>(a: seq<T>, b: seq<T>) {
    |a| <= |b| && a == b[|b| - |a|..]
  }

  /** Written and pending bytes are exactly the frames begun, and pending ones belong to the last of them. */
  ghost predicate WireInv(cfg: Config, s: State) {
    && s.sent != []
    && s.wire + s.pending == FlatMap(cfg.encode, s.sent)
    && |s.pending| <= |cfg.encode(s.sent[|s.sent| - 1])|
  }

  ghost predicate PlanInv(cfg: Config, s: State) {
    ClassifyAll(s.sent) + Binaries(s.todo) == Plan(cfg, s)
  }

  ghost predicate ReadInv(cfg: Config, s: State) {
    var chunks := FlatMap(ChunkOf, s.events);
    && s.pos <= |cfg.input|
    && Join(chunks) + (if s.up.UpWaiting? then s.up.chunk else []) == cfg.input[..s.pos]
    && s.offset == 64 + |Join(chunks)|
    && FlatMap(PartsOf, s.events) == Run(cfg.split, 64, chunks)
    && (s.up.UpAtEof? || s.up.UpClosed? ==> s.pos == |cfg.input|)
  }

  function DataIn(m: Incoming): seq<byte> {
    if m.InData? then m.payload else []
  }

  /** The ping received and not yet answered. */
  function WaitingPing(d: Down): seq<seq<byte>> {
    if d.DownWaiting? then [d.payload] else []
  }

  function PingIn(m: Incoming): seq<seq<byte>> {
    if m.InPing? then [m.payload] else []
  }

  /** Receiving from `from` gives exactly these messages and leaves `to`. */
  ghost predicate Hears(recv: seq<byte> -> Received, from: seq<byte>, msgs: seq<Incoming>, to: seq<byte>)
    decreases msgs
  {
    if msgs == [] then from == to
    else recv(from).Message? && recv(from).msg == msgs[0] && Hears(recv, recv(from).rest, msgs[1..], to)
  }

  lemma {:induction false} HearsMore(recv: seq<byte> -> Received, from: seq<byte>, msgs: seq<Incoming>, to: seq<byte>)
    requires Hears(recv, from, msgs, to) && recv(to).Message?
    ensures Hears(recv, from, msgs + [recv(to).msg], recv(to).rest)
    decreases msgs
  {
    if msgs == [] {
    } else {
      HearsMore(recv, recv(from).rest, msgs[1..], to);
      assert (msgs + [recv(to).msg])[1..] == msgs[1..] + [recv(to).msg];
    }
  }

  /** No close before the last message. */
  ghost predicate CloseLast(msgs: seq<Incoming>) {
    forall i | 0 <= i < |msgs| - 1 :: !msgs[i].InClose?
  }

  ghost predicate EndsInClose(msgs: seq<Incoming>) {
    msgs != [] && msgs[|msgs| - 1].InClose?
  }

  lemma OneMore(msgs: seq<Incoming>, m: Incoming)
    requires CloseLast(msgs) && !EndsInClose(msgs)
    ensures CloseLast(msgs + [m]) && (EndsInClose(msgs + [m]) <==> m.InClose?)
  {
  }

  ghost predicate DownInv(cfg: Config, s: State) {
    && Hears(cfg.recv, cfg.server, s.heard, s.srv)
    && s.delivered + s.left == FlatMap(DataIn, s.heard)
    && FlatMap(PongIn, s.events) + WaitingPing(s.down) == FlatMap(PingIn, s.heard)
    && (s.left != [] ==> s.down.DownDelivering? || s.down.DownFailed?)
    && CloseLast(s.heard)
    && (Over(s.down) ==> cfg.recv(s.srv).Ended? || EndsInClose(s.heard))
    && (EndsInClose(s.heard) ==> Over(s.down) || s.down.DownFailed?)
  }

  predicate IsUp(a: Action) {
    a.UpRead? || a.UpReadFails? || a.UpEof? || a.UpAcquire? || a.UpBuild? || a.UpRelease? || a.UpClose? || a.UpCloseFails?
  }

  lemma LockUp(cfg: Config, s: State, a: Action)
    requires LockInv(s) && Enabled(cfg, s, a) && IsUp(a)
    ensures LockInv(Next(cfg, s, a))
  {
  }

  lemma LockRecv(cfg: Config, s: State)
    requires LockInv(s) && Enabled(cfg, s, DownRecv)
    ensures LockInv(Next(cfg, s, DownRecv))
  {
  }

  lemma LockStep(cfg: Config, s: State, a: Action)
    requires LockInv(s) && Enabled(cfg, s, a)
    ensures LockInv(Next(cfg, s, a))
  {
    if IsUp(a) {
      LockUp(cfg, s, a);
    } else if a.DownRecv? {
      LockRecv(cfg, s);
    }
  }

  lemma OpenStep(cfg: Config, s: State, a: Action)
    requires LockInv(s) && OpenInv(s) && Enabled(cfg, s, a)
    ensures OpenInv(Next(cfg, s, a))
  {
  }

  lemma OwnAcquire(cfg: Config, s: State)
    requires LockInv(s) && OwnInv(cfg, s) && Enabled(cfg, s, UpAcquire)
    ensures OwnInv(cfg, Next(cfg, s, UpAcquire))
  {
    var s' := Next(cfg, s, UpAcquire);
    assert LastOf(s'.events) == ReadSent(s.up.chunk, s'.todo);
  }

  lemma OwnBuild(cfg: Config, s: State, key: MaskKey)
    requires LockInv(s) && OwnInv(cfg, s) && Enabled(cfg, s, UpBuild(key))
    ensures OwnInv(cfg, Next(cfg, s, UpBuild(key)))
  {
    assert LastOf(Next(cfg, s, UpBuild(key)).sent) == ClientFrame(2, s.todo[0], key);
  }

  lemma OwnPong(cfg: Config, s: State, key: MaskKey)
    requires LockInv(s) && OwnInv(cfg, s) && Enabled(cfg, s, DownAcquire(key))
    ensures OwnInv(cfg, Next(cfg, s, DownAcquire(key)))
  {
    var s' := Next(cfg, s, DownAcquire(key));
    assert LastOf(s'.events) == Ponged(s.down.payload) && LastOf(s'.sent) == ClientFrame(10, s.down.payload, key);
  }

  /** Otherwise the lock stays where it is, or is given up with nothing pending or for good. */
  lemma OwnSame(cfg: Config, s: State, s': State)
    requires OwnInv(cfg, s) && s'.sent == s.sent && s'.events == s.events && s'.todo == s.todo
    requires s'.open ==> s.open && (s'.pending != [] ==> s.pending != [] && s'.lock == s.lock)
    requires s'.lock == s.lock || s'.lock == Free
    ensures OwnInv(cfg, s')
  {
  }

  lemma OwnFields(cfg: Config, s: State, a: Action)
    requires LockInv(s) && Enabled(cfg, s, a) && !a.UpAcquire? && !a.UpBuild? && !a.DownAcquire?
    ensures var s' := Next(cfg, s, a);
      && s'.sent == s.sent && s'.events == s.events && s'.todo == s.todo
      && (s'.open ==> s.open && (s'.pending != [] ==> s.pending != [] && s'.lock == s.lock))
      && (s'.lock == s.lock || s'.lock == Free)
  {
  }

  lemma OtherOwn(cfg: Config, s: State, a: Action)
    requires LockInv(s) && OwnInv(cfg, s) && Enabled(cfg, s, a) && !a.UpAcquire? && !a.UpBuild? && !a.DownAcquire?
    ensures OwnInv(cfg, Next(cfg, s, a))
  {
    OwnFields(cfg, s, a);
    OwnSame(cfg, s, Next(cfg, s, a));
  }

  lemma OwnStep(cfg: Config, s: State, a: Action)
    requires LockInv(s) && OwnInv(cfg, s) && Enabled(cfg, s, a)
    ensures OwnInv(cfg, Next(cfg, s, a))
  {
    match a
    case UpAcquire => OwnAcquire(cfg, s);
    case UpBuild(key) => OwnBuild(cfg, s, key);
    case DownAcquire(key) => OwnPong(cfg, s, key);
    case _ => OtherOwn(cfg, s, a);
  }

  lemma WireWrite(cfg: Config, s: State, n: nat)
    requires WireInv(cfg, s) && Enabled(cfg, s, Write(n))
    ensures WireInv(cfg, Next(cfg, s, Write(n)))
  {
    assert s.pending == s.pending[..n] + s.pending[n..];
    AppendAssoc(s.wire, s.pending[..n], s.pending[n..]);
  }

  /** A new frame is begun only when the last one is out. */
  lemma WireBegin(cfg: Config, s: State, w: WireFrame, s': State)
    requires WireInv(cfg, s) && s.pending == []
    requires s'.wire == s.wire && s'.pending == cfg.encode(w) && s'.sent == s.sent + [w]
    ensures WireInv(cfg, s')
  {
    FlatMapSnoc(cfg.encode, s.sent, w);
    assert s.wire + s.pending == s.wire;
  }

  lemma WireSame(cfg: Config, s: State, s': State)
    requires WireInv(cfg, s) && s'.wire == s.wire && s'.pending == s.pending && s'.sent == s.sent
    ensures WireInv(cfg, s')
  {
  }

  lemma OtherWire(cfg: Config, s: State, a: Action)
    requires WireInv(cfg, s) && Enabled(cfg, s, a) && !a.Write? && !a.UpBuild? && !a.DownAcquire?
    ensures WireInv(cfg, Next(cfg, s, a))
  {
    WireSame(cfg, s, Next(cfg, s, a));
  }

  lemma WireStep(cfg: Config, s: State, a: Action)
    requires LockInv(s) && WireInv(cfg, s) && Enabled(cfg, s, a)
    ensures WireInv(cfg, Next(cfg, s, a))
  {
    match a
    case Write(n) => WireWrite(cfg, s, n);
    case UpBuild(key) => WireBegin(cfg, s, ClientFrame(2, s.todo[0], key), Next(cfg, s, a));
    case DownAcquire(key) => WireBegin(cfg, s, ClientFrame(10, s.down.payload, key), Next(cfg, s, a));
    case _ => OtherWire(cfg, s, a);
  }

  lemma {:induction false} ClassifyAllSnoc(ws: seq<WireFrame>, w: WireFrame)
    ensures ClassifyAll(ws + [w]) == ClassifyAll(ws) + [Classify(w.opcode, w.payload)]
  {
    if ws == [] {
      assert (ws + [w])[1..] == [];
    } else {
      assert (ws + [w])[1..] == ws[1..] + [w];
      ClassifyAllSnoc(ws[1..], w);
    }
  }

  lemma PlanEvent(cfg: Config, s: State, e: Event)
    ensures Plan(cfg, s.(events := s.events + [e])) == Plan(cfg, s) + EventFrames(e)
  {
    FlatMapSnoc(EventFrames, s.events, e);
    AppendAssoc([Binary(cfg.init)], FlatMap(EventFrames, s.events), EventFrames(e));
  }

  lemma PlanAcquire(cfg: Config, s: State)
    requires LockInv(s) && PlanInv(cfg, s) && Enabled(cfg, s, UpAcquire)
    ensures PlanInv(cfg, Next(cfg, s, UpAcquire))
  {
    PlanEvent(cfg, s, ReadSent(s.up.chunk, cfg.split(s.offset, s.up.chunk)));
    assert ClassifyAll(s.sent) + Binaries(s.todo) == ClassifyAll(s.sent);
  }

  /** Framing the first part on hand moves it from the parts to the frames. */
  lemma PlanPart(sent: seq<WireFrame>, todo: seq<seq<byte>>, w: WireFrame)
    requires todo != [] && Classify(w.opcode, w.payload) == Binary(todo[0])
    ensures ClassifyAll(sent + [w]) + Binaries(todo[1..]) == ClassifyAll(sent) + Binaries(todo)
  {
    ClassifyAllSnoc(sent, w);
    AppendAssoc(ClassifyAll(sent), [Binary(todo[0])], Binaries(todo[1..]));
  }

  lemma PlanBuild(cfg: Config, s: State, key: MaskKey)
    requires LockInv(s) && PlanInv(cfg, s) && Enabled(cfg, s, UpBuild(key))
    ensures PlanInv(cfg, Next(cfg, s, UpBuild(key)))
  {
    PlanPart(s.sent, s.todo, ClientFrame(2, s.todo[0], key));
  }

  /** A frame begun with no parts on hand extends the plan by itself. */
  lemma PlanFrame(sent: seq<WireFrame>, w: WireFrame, plan: seq<Frame>)
    requires ClassifyAll(sent) + Binaries([]) == plan
    ensures ClassifyAll(sent + [w]) + Binaries([]) == plan + [Classify(w.opcode, w.payload)]
  {
    ClassifyAllSnoc(sent, w);
    AppendNothing(ClassifyAll(sent));
    AppendNothing(ClassifyAll(sent + [w]));
  }

  lemma PlanPong(cfg: Config, s: State, key: MaskKey)
    requires LockInv(s) && PlanInv(cfg, s) && Enabled(cfg, s, DownAcquire(key))
    ensures PlanInv(cfg, Next(cfg, s, DownAcquire(key)))
  {
    var w := ClientFrame(10, s.down.payload, key);
    PlanFrame(s.sent, w, Plan(cfg, s));
    assert [Classify(w.opcode, w.payload)] == EventFrames(Ponged(s.down.payload));
    PlanEvent(cfg, s, Ponged(s.down.payload));
  }

  lemma PlanSame(cfg: Config, s: State, s': State)
    requires PlanInv(cfg, s) && s'.events == s.events && s'.sent == s.sent && s'.todo == s.todo
    ensures PlanInv(cfg, s')
  {
  }

  lemma PlanFields(cfg: Config, s: State, a: Action)
    requires Enabled(cfg, s, a) && !a.UpAcquire? && !a.UpBuild? && !a.DownAcquire?
    ensures var s' := Next(cfg, s, a); s'.events == s.events && s'.sent == s.sent && s'.todo == s.todo
  {
  }

  lemma OtherPlan(cfg: Config, s: State, a: Action)
    requires PlanInv(cfg, s) && Enabled(cfg, s, a) && !a.UpAcquire? && !a.UpBuild? && !a.DownAcquire?
    ensures PlanInv(cfg, Next(cfg, s, a))
  {
    PlanFields(cfg, s, a);
    PlanSame(cfg, s, Next(cfg, s, a));
  }

  lemma PlanStep(cfg: Config, s: State, a: Action)
    requires LockInv(s) && PlanInv(cfg, s) && Enabled(cfg, s, a)
    ensures PlanInv(cfg, Next(cfg, s, a))
  {
    match a
    case UpAcquire => PlanAcquire(cfg, s);
    case UpBuild(key) => PlanBuild(cfg, s, key);
    case DownAcquire(key) => PlanPong(cfg, s, key);
    case _ => OtherPlan(cfg, s, a);
  }

  lemma ReadAcquire(cfg: Config, s: State)
    requires ReadInv(cfg, s) && Enabled(cfg, s, UpAcquire)
    ensures ReadInv(cfg, Next(cfg, s, UpAcquire))
  {
    AnotherRead(cfg.split, s.events, s.up.chunk);
    AppendNothing(cfg.input[..s.pos]);
  }

  lemma AnotherRead(split: Split, events: seq<Event>, chunk: seq<byte>)
    requires FlatMap(PartsOf, events) == Run(split, 64, FlatMap(ChunkOf, events))
    ensures var chunks := FlatMap(ChunkOf, events);
      var e := ReadSent(chunk, split(64 + |Join(chunks)|, chunk));
      && Join(FlatMap(ChunkOf, events + [e])) == Join(chunks) + chunk
      && FlatMap(PartsOf, events + [e]) == Run(split, 64, FlatMap(ChunkOf, events + [e]))
  {
    var chunks := FlatMap(ChunkOf, events);
    var e := ReadSent(chunk, split(64 + |Join(chunks)|, chunk));
    FlatMapSnoc(ChunkOf, events, e);
    FlatMapSnoc(PartsOf, events, e);
    JoinSnoc(chunks, chunk);
    RunSnoc(split, 64, chunks, chunk);
  }

  lemma ReadPong(cfg: Config, s: State, key: MaskKey)
    requires ReadInv(cfg, s) && Enabled(cfg, s, DownAcquire(key))
    ensures ReadInv(cfg, Next(cfg, s, DownAcquire(key)))
  {
    var e := Ponged(s.down.payload);
    FlatMapSnoc(ChunkOf, s.events, e);
    FlatMapSnoc(PartsOf, s.events, e);
    assert FlatMap(ChunkOf, s.events + [e]) == FlatMap(ChunkOf, s.events);
    assert FlatMap(PartsOf, s.events + [e]) == FlatMap(PartsOf, s.events);
  }

  lemma ReadMore(cfg: Config, s: State, n: nat)
    requires ReadInv(cfg, s) && Enabled(cfg, s, UpRead(n))
    ensures ReadInv(cfg, Next(cfg, s, UpRead(n)))
  {
    assert cfg.input[..s.pos] + cfg.input[s.pos..s.pos + n] == cfg.input[..s.pos + n];
  }

  lemma ReadSame(cfg: Config, s: State, s': State)
    requires ReadInv(cfg, s) && s'.events == s.events && s'.pos == s.pos && s'.offset == s.offset
    requires s'.up == s.up || (!s.up.UpWaiting? && !s'.up.UpWaiting?)
    requires s'.up.UpAtEof? || s'.up.UpClosed? ==> s.pos == |cfg.input| || s.up.UpAtEof? || s.up.UpClosed?
    ensures ReadInv(cfg, s')
  {
  }

  /** Every other step leaves the record of reads alone. */
  lemma ReadFields(cfg: Config, s: State, a: Action)
    requires LockInv(s) && Enabled(cfg, s, a) && !a.UpRead? && !a.UpAcquire? && !a.DownAcquire?
    ensures var s' := Next(cfg, s, a);
      && s'.events == s.events && s'.pos == s.pos && s'.offset == s.offset
      && (s'.up == s.up || (!s.up.UpWaiting? && !s'.up.UpWaiting?))
      && (s'.up.UpAtEof? || s'.up.UpClosed? ==> s.pos == |cfg.input| || s.up.UpAtEof? || s.up.UpClosed?)
  {
  }

  lemma OtherRead(cfg: Config, s: State, a: Action)
    requires LockInv(s) && ReadInv(cfg, s) && Enabled(cfg, s, a) && !a.UpRead? && !a.UpAcquire? && !a.DownAcquire?
    ensures ReadInv(cfg, Next(cfg, s, a))
  {
    ReadFields(cfg, s, a);
    ReadSame(cfg, s, Next(cfg, s, a));
  }

  lemma ReadStep(cfg: Config, s: State, a: Action)
    requires LockInv(s) && ReadInv(cfg, s) && Enabled(cfg, s, a)
    ensures ReadInv(cfg, Next(cfg, s, a))
  {
    match a
    case UpRead(n) => ReadMore(cfg, s, n);
    case UpAcquire => ReadAcquire(cfg, s);
    case DownAcquire(key) => ReadPong(cfg, s, key);
    case _ => OtherRead(cfg, s, a);
  }

  lemma RecvMessage(cfg: Config, s: State, m: Incoming, rest: seq<byte>)
    requires DownInv(cfg, s) && s.down.DownReading? && cfg.recv(s.srv) == Received.Message(m, rest)
    ensures Hears(cfg.recv, cfg.server, s.heard + [m], rest)
    ensures s.left == [] && s.delivered + DataIn(m) == FlatMap(DataIn, s.heard + [m])
    ensures FlatMap(PongIn, s.events) + PingIn(m) == FlatMap(PingIn, s.heard + [m])
    ensures CloseLast(s.heard + [m]) && (EndsInClose(s.heard + [m]) <==> m.InClose?)
  {
    OneMore(s.heard, m);
    HearsMore(cfg.recv, cfg.server, s.heard, s.srv);
    FlatMapSnoc(DataIn, s.heard, m);
    FlatMapSnoc(PingIn, s.heard, m);
    AppendNothing(s.delivered);
    AppendNothing(FlatMap(PongIn, s.events));
  }

  lemma RecvStop(cfg: Config, s: State)
    requires DownInv(cfg, s) && Enabled(cfg, s, DownRecv) && !cfg.recv(s.srv).Message?
    ensures DownInv(cfg, Next(cfg, s, DownRecv))
  {
  }

  lemma RecvData(cfg: Config, s: State, p: seq<byte>, rest: seq<byte>)
    requires DownInv(cfg, s) && Enabled(cfg, s, DownRecv) && cfg.recv(s.srv) == Received.Message(InData(p), rest)
    ensures DownInv(cfg, Next(cfg, s, DownRecv))
  {
    RecvMessage(cfg, s, InData(p), rest);
  }

  lemma RecvPing(cfg: Config, s: State, p: seq<byte>, rest: seq<byte>)
    requires DownInv(cfg, s) && Enabled(cfg, s, DownRecv) && cfg.recv(s.srv) == Received.Message(InPing(p), rest)
    ensures DownInv(cfg, Next(cfg, s, DownRecv))
  {
    RecvMessage(cfg, s, InPing(p), rest);
    var s' := Next(cfg, s, DownRecv);
    assert s'.heard == s.heard + [InPing(p)] && s'.left == s.left == [] && s'.delivered == s.delivered;
    assert DataIn(InPing(p)) == [] && PingIn(InPing(p)) == [p];
  }

  lemma RecvClose(cfg: Config, s: State, info: CloseInfo, rest: seq<byte>)
    requires DownInv(cfg, s) && Enabled(cfg, s, DownRecv) && cfg.recv(s.srv) == Received.Message(InClose(info), rest)
    ensures DownInv(cfg, Next(cfg, s, DownRecv))
  {
    RecvMessage(cfg, s, InClose(info), rest);
    var s' := Next(cfg, s, DownRecv);
    assert s'.heard == s.heard + [InClose(info)] && s'.left == s.left == [] && s'.delivered == s.delivered;
    AppendNothing(s.delivered);
    AppendNothing(FlatMap(PongIn, s.events));
  }

  lemma RecvDown(cfg: Config, s: State)
    requires DownInv(cfg, s) && Enabled(cfg, s, DownRecv)
    ensures DownInv(cfg, Next(cfg, s, DownRecv))
  {
    match cfg.recv(s.srv)
    case Message(InData(p), rest) => RecvData(cfg, s, p, rest);
    case Message(InPing(p), rest) => RecvPing(cfg, s, p, rest);
    case Message(InClose(info), rest) => RecvClose(cfg, s, info, rest);
    case _ => RecvStop(cfg, s);
  }

  lemma DeliverDown(cfg: Config, s: State, n: nat)
    requires DownInv(cfg, s) && Enabled(cfg, s, DownDeliver(n))
    ensures DownInv(cfg, Next(cfg, s, DownDeliver(n)))
  {
    assert s.left == s.left[..n] + s.left[n..];
    AppendAssoc(s.delivered, s.left[..n], s.left[n..]);
  }

  lemma PongDown(cfg: Config, s: State, key: MaskKey)
    requires DownInv(cfg, s) && Enabled(cfg, s, DownAcquire(key))
    ensures DownInv(cfg, Next(cfg, s, DownAcquire(key)))
  {
    FlatMapSnoc(PongIn, s.events, Ponged(s.down.payload));
  }

  lemma ReadDown(cfg: Config, s: State)
    requires DownInv(cfg, s) && Enabled(cfg, s, UpAcquire)
    ensures DownInv(cfg, Next(cfg, s, UpAcquire))
  {
    var e := ReadSent(s.up.chunk, cfg.split(s.offset, s.up.chunk));
    FlatMapSnoc(PongIn, s.events, e);
    assert FlatMap(PongIn, s.events + [e]) == FlatMap(PongIn, s.events);
  }

  lemma DownSame(cfg: Config, s: State, s': State)
    requires DownInv(cfg, s) && s'.events == s.events && s'.heard == s.heard && s'.srv == s.srv
    requires s'.left == s.left && s'.delivered == s.delivered
    requires s'.down == s.down || (!s.down.DownWaiting? && !s'.down.DownWaiting?)
    requires Over(s'.down) ==> Over(s.down)
    requires Over(s.down) || s.down.DownFailed? ==> Over(s'.down) || s'.down.DownFailed?
    requires s.left != [] ==> s'.down.DownDelivering? || s'.down.DownFailed?
    ensures DownInv(cfg, s')
  {
  }

  /** Every other step leaves what was heard, delivered and answered alone. */
  lemma DownFields(cfg: Config, s: State, a: Action)
    requires LockInv(s) && Enabled(cfg, s, a)
    requires !a.DownRecv? && !a.DownDeliver? && !a.DownAcquire? && !a.UpAcquire?
    ensures var s' := Next(cfg, s, a);
      && s'.events == s.events && s'.heard == s.heard && s'.srv == s.srv
      && s'.left == s.left && s'.delivered == s.delivered
      && (s'.down == s.down || (!s.down.DownWaiting? && !s'.down.DownWaiting?))
      && (Over(s'.down) ==> Over(s.down))
      && (Over(s.down) || s.down.DownFailed? ==> Over(s'.down) || s'.down.DownFailed?)
      && (s.left != [] && (s.down.DownDelivering? || s.down.DownFailed?) ==> s'.down.DownDelivering? || s'.down.DownFailed?)
  {
  }

  lemma OtherDown(cfg: Config, s: State, a: Action)
    requires LockInv(s) && DownInv(cfg, s) && Enabled(cfg, s, a)
    requires !a.DownRecv? && !a.DownDeliver? && !a.DownAcquire? && !a.UpAcquire?
    ensures DownInv(cfg, Next(cfg, s, a))
  {
    DownFields(cfg, s, a);
    DownSame(cfg, s, Next(cfg, s, a));
  }

  lemma DownStep(cfg: Config, s: State, a: Action)
    requires LockInv(s) && DownInv(cfg, s) && Enabled(cfg, s, a)
    ensures DownInv(cfg, Next(cfg, s, a))
  {
    match a
    case DownRecv => RecvDown(cfg, s);
    case DownDeliver(n) => DeliverDown(cfg, s, n);
    case DownAcquire(key) => PongDown(cfg, s, key);
    case UpAcquire => ReadDown(cfg, s);
    case _ => OtherDown(cfg, s, a);
  }

  // -------- sizes: every frame's length fits its field --------

  /** What the parts in use must satisfy; the source's own do (see `SourceConfig`). */
  ghost predicate Valid(cfg: Config) {
    && |cfg.init| < LENGTHS
    && Conserves(cfg.split)
    && forall s: seq<byte> :: cfg.recv(s).Message? && cfg.recv(s).msg.InPing? ==> |cfg.recv(s).msg.payload| < LENGTHS
  }

  ghost predicate SizeInv(s: State) {
    && Fits(s.sent)
    && (forall i | 0 <= i < |s.todo| :: |s.todo[i]| < LENGTHS)
    && (s.up.UpWaiting? ==> |s.up.chunk| <= BUFFER)
    && (s.down.DownWaiting? ==> |s.down.payload| < LENGTHS)
  }

  lemma {:induction false} PartSize(parts: seq<seq<byte>>, i: nat)
    requires i < |parts|
    ensures |parts[i]| <= |Join(parts)|
  {
    if i == 0 {
    } else {
      PartSize(parts[1..], i - 1);
    }
  }

  lemma SizeStep(cfg: Config, s: State, a: Action)
    requires Valid(cfg) && SizeInv(s) && Enabled(cfg, s, a)
    ensures SizeInv(Next(cfg, s, a))
  {
    if a.UpAcquire? {
      var parts := cfg.split(s.offset, s.up.chunk);
      forall i | 0 <= i < |parts| ensures |parts[i]| < LENGTHS {
        PartSize(parts, i);
      }
    }
  }

  // -------- shapes: what kind of frames and reads there are --------

  /** Frames are final and masked, data or pongs; reads are nonempty and fit the 32 KiB buffer. */
  ghost predicate ShapeInv(s: State) {
    && (forall i | 0 <= i < |s.sent| ::
          s.sent[i].fin && s.sent[i].rsv == 0 && s.sent[i].key.Some? && (s.sent[i].opcode == 2 || s.sent[i].opcode == 10))
    && (forall i | 0 <= i < |s.events| && s.events[i].ReadSent? :: 1 <= |s.events[i].chunk| <= 32768)
    && (s.up.UpWaiting? ==> 1 <= |s.up.chunk| <= 32768)
  }

  lemma ShapeSame(s: State, s': State)
    requires ShapeInv(s) && s'.sent == s.sent && s'.events == s.events
    requires s'.up == s.up || !s'.up.UpWaiting? || 1 <= |s'.up.chunk| <= 32768
    ensures ShapeInv(s')
  {
  }

  lemma ShapeFields(cfg: Config, s: State, a: Action)
    requires Enabled(cfg, s, a) && !a.UpAcquire? && !a.UpBuild? && !a.DownAcquire?
    ensures var s' := Next(cfg, s, a);
      && s'.sent == s.sent && s'.events == s.events
      && (s'.up == s.up || !s'.up.UpWaiting? || 1 <= |s'.up.chunk| <= 32768)
  {
  }

  lemma ShapeGrows(cfg: Config, s: State, a: Action)
    requires ShapeInv(s) && Enabled(cfg, s, a) && (a.UpAcquire? || a.UpBuild? || a.DownAcquire?)
    ensures ShapeInv(Next(cfg, s, a))
  {
  }

  lemma ShapeStep(cfg: Config, s: State, a: Action)
    requires ShapeInv(s) && Enabled(cfg, s, a)
    ensures ShapeInv(Next(cfg, s, a))
  {
    if a.UpAcquire? || a.UpBuild? || a.DownAcquire? {
      ShapeGrows(cfg, s, a);
    } else {
      ShapeFields(cfg, s, a);
      ShapeSame(s, Next(cfg, s, a));
    }
  }

  // -------- every run --------

  ghost predicate Inv(cfg: Config, s: State) {
    LockInv(s) && OpenInv(s) && OwnInv(cfg, s) && WireInv(cfg, s) && PlanInv(cfg, s) && ReadInv(cfg, s) && DownInv(cfg, s)
    && SizeInv(s) && ShapeInv(s)
  }

  lemma InitialWire(cfg: Config, key: MaskKey)
    ensures WireInv(cfg, Initial(cfg, key))
  {
    var w := ClientFrame(2, cfg.init, key);
    AppendNothing([w]);
    FlatMapSnoc(cfg.encode, [], w);
    AppendNothing(cfg.encode(w));
  }

  lemma InitialPlan(cfg: Config, key: MaskKey)
    ensures PlanInv(cfg, Initial(cfg, key))
  {
    var w := ClientFrame(2, cfg.init, key);
    AppendNothing([w]);
    ClassifyAllSnoc([], w);
    assert Classify(2, cfg.init) == Binary(cfg.init);
    AppendNothing([Binary(cfg.init)]);
  }

  lemma InitialRest(cfg: Config, key: MaskKey)
    requires Valid(cfg)
    ensures var s := Initial(cfg, key);
      LockInv(s) && OpenInv(s) && OwnInv(cfg, s) && ReadInv(cfg, s) && DownInv(cfg, s) && SizeInv(s) && ShapeInv(s)
  {
  }

  lemma InitialInv(cfg: Config, key: MaskKey)
    requires Valid(cfg)
    ensures Inv(cfg, Initial(cfg, key))
  {
    InitialWire(cfg, key);
    InitialPlan(cfg, key);
    InitialRest(cfg, key);
  }

  lemma StepInv(cfg: Config, s: State, a: Action)
    requires Valid(cfg) && Inv(cfg, s) && Enabled(cfg, s, a)
    ensures Inv(cfg, Next(cfg, s, a))
  {
    LockStep(cfg, s, a);
    OpenStep(cfg, s, a);
    OwnStep(cfg, s, a);
    WireStep(cfg, s, a);
    PlanStep(cfg, s, a);
    ReadStep(cfg, s, a);
    DownStep(cfg, s, a);
    SizeStep(cfg, s, a);
    ShapeStep(cfg, s, a);
  }

  lemma {:induction false} RunInv(cfg: Config, s: State, acts: seq<Action>)
    requires Valid(cfg) && Inv(cfg, s) && Runs(cfg, s, acts)
    ensures Inv(cfg, Exec(cfg, s, acts))
    decreases acts
  {
    if acts == [] {
    } else {
      StepInv(cfg, s, acts[0]);
      RunInv(cfg, Next(cfg, s, acts[0]), acts[1..]);
    }
  }

  // -------- what the invariant says of the wire --------

  lemma {:induction false} DataOfBinaries(parts: seq<seq<byte>>)
    ensures FlatMap(DataOf, Binaries(parts)) == Join(parts)
    ensures FlatMap(PongOf, Binaries(parts)) == []
    ensures |Binaries(parts)| == |parts| && forall i | 0 <= i < |parts| :: Binaries(parts)[i] == Binary(parts[i])
  {
    if parts == [] {
    } else {
      DataOfBinaries(parts[1..]);
    }
  }

  lemma {:induction false} DataOfEvents(events: seq<Event>)
    ensures FlatMap(DataOf, FlatMap(EventFrames, events)) == Join(FlatMap(PartsOf, events))
    ensures FlatMap(PongOf, FlatMap(EventFrames, events)) == FlatMap(PongIn, events)
  {
    if events == [] {
    } else {
      var e, rest := events[0], FlatMap(EventFrames, events[1..]);
      DataOfEvents(events[1..]);
      FlatMapAppend(DataOf, EventFrames(e), rest);
      FlatMapAppend(PongOf, EventFrames(e), rest);
      JoinAppend(PartsOf(e), FlatMap(PartsOf, events[1..]));
      if e.ReadSent? {
        DataOfBinaries(e.parts);
      }
    }
  }
}
