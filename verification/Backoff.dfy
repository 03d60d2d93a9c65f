/**
 WebSocket backoff per (data centre, media) key (src/modules/routing/backoff.rs), and the sessions
 that drive it concurrently (src/modules/routing.rs, route_client and connect_ws_route).
 */
module Backoff {
  import opened Bytes

  type Key = (byte, bool)

  /** Instants, in nanoseconds. */
  type Time = int

  const SECOND: Time := 1_000_000_000
  const WS_FAILURE_COOLDOWN: Time := 60 * SECOND
  const WS_ATTEMPT_WINDOW: Time := 15 * SECOND

  datatype WsState = Probing(until: Time) | Cooldown(until: Time) | Disabled404

  datatype Decision = ProbeNow | ProbeInFlight | CoolingDown | Disabled

  type States = map<Key, WsState>

  predicate Live(st: WsState, now: Time) {
    st.Disabled404? || st.until > now
  }

  /** Every key, not only the one asked for, loses its expired entry. */
  function Prune(m: States, now: Time): States {
    map k | k in m && Live(m[k], now) :: m[k]
  }

  function Answer(m: States, k: Key): Decision {
    if k !in m then ProbeNow
    else match m[k]
      case Probing(_) => ProbeInFlight
      case Cooldown(_) => CoolingDown
      case Disabled404 => Disabled
  }

  function Decide(m: States, k: Key, now: Time): Decision {
    Answer(Prune(m, now), k)
  }

  function Begun(m: States, k: Key, now: Time): States {
    var p := Prune(m, now);
    if k in p then p else p[k := Probing(now + WS_ATTEMPT_WINDOW)]
  }

  class WsBackoff {
    var states: States

    constructor ()
      ensures states == map[]
    {
      states := map[];
    }

    method BeginProbe(k: Key, now: Time) returns (d: Decision)
      modifies this
      ensures d == Decide(old(states), k, now)
      ensures states == Begun(old(states), k, now)
    {
      states := map q | q in states && (states[q].Disabled404? || states[q].until > now) :: states[q];
      if k in states {
        match states[k]
        case Probing(_) => d := ProbeInFlight;
        case Cooldown(_) => d := CoolingDown;
        case Disabled404 => d := Disabled;
      } else {
        states := states[k := Probing(now + WS_ATTEMPT_WINDOW)];
        d := ProbeNow;
      }
    }

    method RecordFailure(k: Key, now: Time)
      modifies this
      ensures states == old(states)[k := Cooldown(now + WS_FAILURE_COOLDOWN)]
    {
      states := states[k := Cooldown(now + WS_FAILURE_COOLDOWN)];
    }

    method Disable404(k: Key)
      modifies this
      ensures states == old(states)[k := Disabled404]
    {
      states := states[k := Disabled404];
    }

    method Clear(k: Key)
      modifies this
      ensures states == old(states) - {k}
    {
      states := states - {k};
    }
  }

  // -------- connecting --------

  /** One domain's answer: a connection, or a failure that may carry an HTTP status. */
  datatype Outcome = Connected | Failed(status: Option<nat>)

  predicate NotFound(o: Outcome) {
    o == Failed(Some(404))
  }

  datatype Verdict = Success | AllNotFound | OtherFailure

  ghost predicate IsVerdict(outcomes: seq<Outcome>, v: Verdict) {
    match v
    case Success => Connected in outcomes
    case AllNotFound => forall o | o in outcomes :: NotFound(o)
    case OtherFailure => Connected !in outcomes && exists o :: o in outcomes && !NotFound(o)
  }

  /** The domains are tried in order until one connects. */
  method ConnectWsRoute(outcomes: seq<Outcome>) returns (connected: bool, all404: bool)
    ensures connected <==> Connected in outcomes
    ensures !connected ==> (all404 <==> forall o | o in outcomes :: NotFound(o))
  {
    connected, all404 := false, true;
    for i := 0 to |outcomes|
      invariant !connected && Connected !in outcomes[..i]
      invariant all404 <==> forall o | o in outcomes[..i] :: NotFound(o)
    {
      if outcomes[i].Connected? {
        connected := true;
        return;
      }
      assert outcomes[..i + 1] == outcomes[..i] + [outcomes[i]];
      assert outcomes[i] in outcomes[..i + 1];
      if outcomes[i].status != Some(404) {
        all404 := false;
      }
    }
    assert outcomes[..|outcomes|] == outcomes;
  }

  function VerdictOf(outcomes: seq<Outcome>): (v: Verdict)
    ensures IsVerdict(outcomes, v)
  {
    if Connected in outcomes then Success
    else if forall o | o in outcomes :: NotFound(o) then AllNotFound
    else OtherFailure
  }

  function Finished(m: States, k: Key, start: Time, v: Verdict): States {
    match v
    case Success => m - {k}
    case AllNotFound => m[k := Disabled404]
    case OtherFailure => m[k := Cooldown(start + WS_FAILURE_COOLDOWN)]
  }

  /** The answers, by what is under the key; an entry is over at the very instant it names. */
  lemma AnswerTable(m: States, k: Key, now: Time, u: Time)
    ensures k !in m ==> Decide(m, k, now) == ProbeNow
    ensures k in m && m[k] == Probing(u) ==> Decide(m, k, now) == if now < u then ProbeInFlight else ProbeNow
    ensures k in m && m[k] == Cooldown(u) ==> Decide(m, k, now) == if now < u then CoolingDown else ProbeNow
    ensures k in m && m[k] == Disabled404 ==> Decide(m, k, now) == Disabled
    ensures Decide(m, k, now) == ProbeNow ==> k in Begun(m, k, now) && Begun(m, k, now)[k] == Probing(now + 15_000_000_000)
    ensures Decide(m, k, now) != ProbeNow ==> k in m && k in Begun(m, k, now) && Begun(m, k, now)[k] == m[k]
  {
  }

  /** What an attempt leaves under its key, by its domains' answers; nothing else is touched. */
  lemma FinishTable(m: States, k: Key, start: Time, outcomes: seq<Outcome>)
    ensures var m' := Finished(m, k, start, VerdictOf(outcomes));
      && (Connected in outcomes ==> m' == m - {k})
      && ((forall o | o in outcomes :: o == Failed(Some(404))) ==> m' == m[k := Disabled404])
      && (Connected !in outcomes && (exists o :: o in outcomes && o != Failed(Some(404))) ==>
            m' == m[k := Cooldown(start + 60_000_000_000)])
  {
  }

  /** One session's use of the backoff: ask, connect if allowed, and record how that went, from the instant of asking. */
  method AttemptWs(backoff: WsBackoff, k: Key, now: Time, outcomes: seq<Outcome>) returns (d: Decision, connected: bool)
    modifies backoff
    ensures d == Decide(old(backoff.states), k, now)
    ensures d == ProbeNow || d == ProbeInFlight ==> (connected <==> Connected in outcomes)
    ensures d == CoolingDown || d == Disabled ==> !connected
    ensures var begun := Begun(old(backoff.states), k, now);
      backoff.states == if d == ProbeNow || d == ProbeInFlight then Finished(begun, k, now, VerdictOf(outcomes)) else begun
  {
    connected := false;
    d := backoff.BeginProbe(k, now);
    if d.CoolingDown? || d.Disabled? {
      return;
    }
    var all404;
    connected, all404 := ConnectWsRoute(outcomes);
    if connected {
      backoff.Clear(k);
    } else if all404 {
      backoff.Disable404(k);
    } else {
      backoff.RecordFailure(k, now);
    }
  }

  // -------- concurrent sessions --------

  /** An attempt keeps the instant read before it connected. */
  datatype Attempt = Attempt(key: Key, start: Time)

  datatype Finish = Finish(start: Time, outcomes: seq<Outcome>)

  /**
   The last three record the run: the session that last put a probing entry under a key, the last
   attempt to finish on it, and the greatest start on it.
   */
  datatype Sys = Sys(
    states: States,
    inflight: map<nat, Attempt>,
    prober: map<Key, nat>,
    last: map<Key, Finish>,
    newest: map<Key, Time>)

  const START := Sys(map[], map[], map[], map[], map[])

  datatype Action = Begin(id: nat, key: Key, now: Time) | End(id: nat, outcomes: seq<Outcome>)

  /** Two domains stand behind every key. */
  predicate Enabled(s: Sys, a: Action) {
    match a
    case Begin(id, _, _) => id !in s.inflight
    case End(id, outcomes) => id in s.inflight && |outcomes| == 2
  }

  predicate Starts(d: Decision) {
    d.ProbeNow? || d.ProbeInFlight?
  }

  function Max(a: Time, b: Time): Time {
    if a < b then b else a
  }

  function Next(s: Sys, a: Action): Sys
    requires Enabled(s, a)
  {
    match a
    case Begin(id, k, now) =>
      var d := Decide(s.states, k, now);
      var s' := s.(states := Begun(s.states, k, now));
      if !Starts(d) then s'
      else s'.(
        inflight := s.inflight[id := Attempt(k, now)],
        prober := if d.ProbeNow? then s.prober[k := id] else s.prober,
        newest := s.newest[k := if k in s.newest then Max(s.newest[k], now) else now])
    case End(id, outcomes) =>
      var t := s.inflight[id];
      s.(states := Finished(s.states, t.key, t.start, VerdictOf(outcomes)),
         inflight := s.inflight - {id},
         last := s.last[t.key := Finish(t.start, outcomes)])
  }

  /** A session connects exactly when it is told to probe or finds another one probing. */
  lemma BeginsAttempt(s: Sys, id: nat, k: Key, now: Time)
    requires id !in s.inflight
    ensures var d, s' := Decide(s.states, k, now), Next(s, Begin(id, k, now));
      && (id in s'.inflight <==> d == ProbeNow || d == ProbeInFlight)
      && (id in s'.inflight ==> s'.inflight[id] == Attempt(k, now))
      && s'.inflight.Keys <= s.inflight.Keys + {id}
  {
  }

  predicate Runs(s: Sys, acts: seq<Action>)
    decreases acts
  {
    acts == [] || (Enabled(s, acts[0]) && Runs(Next(s, acts[0]), acts[1..]))
  }

  function Exec(s: Sys, acts: seq<Action>): Sys
    requires Runs(s, acts)
    decreases acts
  {
    if acts == [] then s else Exec(Next(s, acts[0]), acts[1..])
  }

  // -------- what every entry says about the run --------

  ghost predicate InFlight(s: Sys, k: Key) {
    exists id :: id in s.inflight && s.inflight[id].key == k
  }

  /** The very session that put the probing entry under k started at t and is still connecting. */
  ghost predicate ProberInFlight(s: Sys, k: Key, t: Time) {
    k in s.prober && s.prober[k] in s.inflight && s.inflight[s.prober[k]] == Attempt(k, t)
  }

  ghost predicate Explained(s: Sys, k: Key)
    requires k in s.states
  {
    match s.states[k]
    case Probing(u) => ProberInFlight(s, k, u - WS_ATTEMPT_WINDOW)
    case Cooldown(u) => k in s.last && s.last[k].start == u - WS_FAILURE_COOLDOWN && VerdictOf(s.last[k].outcomes) == OtherFailure
    case Disabled404 => k in s.last && |s.last[k].outcomes| == 2 && forall o | o in s.last[k].outcomes :: NotFound(o)
  }

  ghost predicate Inv(s: Sys) {
    && (forall k | k in s.states :: Explained(s, k))
    && StartsRecorded(s)
  }

  ghost predicate StartsRecorded(s: Sys) {
    && (forall id | id in s.inflight :: s.inflight[id].key in s.newest && s.inflight[id].start <= s.newest[s.inflight[id].key])
    && (forall k | k in s.last :: k in s.newest && s.last[k].start <= s.newest[k])
  }

  lemma BeginExplained(s: Sys, a: Action, k: Key)
    requires Inv(s) && Enabled(s, a) && a.Begin? && k in Next(s, a).states
    ensures Explained(Next(s, a), k)
  {
    var s' := Next(s, a);
    if k in s.states && s'.states[k] == s.states[k] {
      assert Explained(s, k);
    } else {
      assert s'.prober[k] == a.id && s'.inflight[a.id] == Attempt(k, a.now);
    }
  }

  lemma BeginStarts(s: Sys, a: Action)
    requires StartsRecorded(s) && Enabled(s, a) && a.Begin?
    ensures StartsRecorded(Next(s, a))
  {
  }

  lemma BeginInv(s: Sys, a: Action)
    requires Inv(s) && Enabled(s, a) && a.Begin?
    ensures Inv(Next(s, a))
  {
    var s' := Next(s, a);
    forall k | k in s'.states ensures Explained(s', k) {
      BeginExplained(s, a, k);
    }
    BeginStarts(s, a);
  }

  lemma EndInv(s: Sys, a: Action)
    requires Inv(s) && Enabled(s, a) && a.End?
    ensures Inv(Next(s, a))
  {
    var s', t := Next(s, a), s.inflight[a.id];
    forall k | k in s'.states ensures Explained(s', k) {
      if k != t.key {
        assert Explained(s, k);
      }
    }
  }

  lemma {:induction false} RunInv(s: Sys, acts: seq<Action>)
    requires Inv(s) && Runs(s, acts)
    ensures Inv(Exec(s, acts))
    decreases acts
  {
    if acts == [] {
    } else {
      if acts[0].Begin? {
        BeginInv(s, acts[0]);
      } else {
        EndInv(s, acts[0]);
      }
      RunInv(Next(s, acts[0]), acts[1..]);
    }
  }

  /** In every run, every entry is explained by an attempt: see `Explained`. */
  lemma EntriesExplained(acts: seq<Action>, k: Key)
    requires Runs(START, acts) && k in Exec(START, acts).states
    ensures Explained(Exec(START, acts), k)
  {
    RunInv(START, acts);
  }

  // -------- disabled for good --------

  ghost predicate IsDisabled(s: Sys, k: Key) {
    k in s.states && s.states[k].Disabled404?
  }

  lemma {:induction false} DisabledStays(s: Sys, k: Key, acts: seq<Action>)
    requires IsDisabled(s, k) && !InFlight(s, k) && Runs(s, acts)
    ensures IsDisabled(Exec(s, acts), k) && !InFlight(Exec(s, acts), k)
    decreases acts
  {
    if acts == [] {
    } else {
      DisabledStays(Next(s, acts[0]), k, acts[1..]);
    }
  }

  ghost predicate StaysDisabled(s: Sys, k: Key) {
    forall acts | Runs(s, acts) :: IsDisabled(Exec(s, acts), k)
  }

  lemma StaysNow(s: Sys, k: Key, acts: seq<Action>)
    requires StaysDisabled(s, k) && Runs(s, acts)
    ensures IsDisabled(Exec(s, acts), k)
  {
  }

  /** A late finisher that connects lifts the ban. */
  lemma LateFinisher(s: Sys, k: Key)
    requires InFlight(s, k)
    ensures !StaysDisabled(s, k)
  {
    var id :| id in s.inflight && s.inflight[id].key == k;
    var acts := [End(id, [Connected, Connected])];
    assert Next(s, acts[0]).states == s.states - {k};
    assert acts[1..] == [];
    assert Runs(s, acts) && Exec(s, acts) == Next(s, acts[0]);
    assert !IsDisabled(Exec(s, acts), k);
  }

  /**
   And there are such finishers: a second session joins a probe, the prober finds 404 everywhere and
   disables the key, and the second session's connection lifts the ban.
   */
  lemma BanLifted(k: Key) returns (acts: seq<Action>, late: Action)
    ensures Runs(START, acts) && IsDisabled(Exec(START, acts), k) && InFlight(Exec(START, acts), k)
    ensures Enabled(Exec(START, acts), late) && !IsDisabled(Next(Exec(START, acts), late), k)
  {
    var gone := [Failed(Some(404)), Failed(Some(404))];
    var s1 := Next(START, Begin(1, k, 0));
    assert s1.states == map[k := Probing(WS_ATTEMPT_WINDOW)];
    var s2 := Next(s1, Begin(2, k, 0));
    assert Decide(s1.states, k, 0) == ProbeInFlight;
    assert s2.inflight == map[1 := Attempt(k, 0), 2 := Attempt(k, 0)];
    var s3 := Next(s2, End(1, gone));
    assert VerdictOf(gone) == AllNotFound;
    assert s3.inflight[2].key == k;
    acts := [Begin(1, k, 0)] + ([Begin(2, k, 0)] + ([End(1, gone)] + []));
    ExecCons(s2, End(1, gone), []);
    ExecCons(s1, Begin(2, k, 0), [End(1, gone)] + []);
    ExecCons(START, Begin(1, k, 0), [Begin(2, k, 0)] + ([End(1, gone)] + []));
    late := End(2, [Connected, Connected]);
    assert VerdictOf([Connected, Connected]) == Success;
  }

  lemma ExecCons(s: Sys, a: Action, rest: seq<Action>)
    requires Enabled(s, a) && Runs(Next(s, a), rest)
    ensures Runs(s, [a] + rest) && Exec(s, [a] + rest) == Exec(Next(s, a), rest)
  {
    assert ([a] + rest)[1..] == rest;
  }

  /** A key stays disabled in every continuation exactly when it is disabled and no attempt on it is in flight. */
  lemma DisabledForGood(s: Sys, k: Key)
    ensures StaysDisabled(s, k) <==> IsDisabled(s, k) && !InFlight(s, k)
  {
    if StaysDisabled(s, k) {
      StaysNow(s, k, []);
      if InFlight(s, k) {
        LateFinisher(s, k);
      }
    }
    if IsDisabled(s, k) && !InFlight(s, k) {
      forall acts | Runs(s, acts) ensures IsDisabled(Exec(s, acts), k) {
        DisabledStays(s, k, acts);
      }
    }
  }

  /** And then no attempt on it starts: every later question about it is answered `Disabled`. */
  lemma DisabledAnswers(s: Sys, k: Key, acts: seq<Action>, now: Time)
    requires IsDisabled(s, k) && !InFlight(s, k) && Runs(s, acts)
    ensures Decide(Exec(s, acts).states, k, now) == Disabled
  {
    DisabledStays(s, k, acts);
  }

  /** Only an attempt whose every domain answered 404 disables a key. */
  lemma DisabledBy404(s: Sys, a: Action, k: Key)
    requires Enabled(s, a) && !IsDisabled(s, k) && IsDisabled(Next(s, a), k)
    ensures a.End? && s.inflight[a.id].key == k && forall o | o in a.outcomes :: NotFound(o)
  {
  }

  // -------- timing --------

  /** Whatever else is going on, 60 seconds after the newest start on a key it may be probed again, unless disabled. */
  lemma ProbeAfterCooldown(acts: seq<Action>, k: Key, now: Time)
    requires Runs(START, acts) && !IsDisabled(Exec(START, acts), k)
    requires var s := Exec(START, acts); k in s.newest ==> now >= s.newest[k] + WS_FAILURE_COOLDOWN
    ensures Decide(Exec(START, acts).states, k, now) == ProbeNow
  {
    RunInv(START, acts);
    var s := Exec(START, acts);
    if k in s.states {
      assert Explained(s, k);
    }
  }

  /** No finish on k, and instants that never go back, from t on. */
  ghost predicate Quiet(s: Sys, acts: seq<Action>, k: Key, t: Time)
    requires Runs(s, acts)
    decreases acts
  {
    acts != [] ==>
      match acts[0]
      case Begin(_, _, now) => now >= t && Quiet(Next(s, acts[0]), acts[1..], k, now)
      case End(id, _) => s.inflight[id].key != k && Quiet(Next(s, acts[0]), acts[1..], k, t)
  }

  function LastNow(acts: seq<Action>, t: Time): Time {
    if acts == [] then t
    else LastNow(acts[1..], if acts[0].Begin? then acts[0].now else t)
  }

  lemma {:induction false} WindowHolds(s: Sys, acts: seq<Action>, k: Key, t: Time, u: Time)
    requires Runs(s, acts) && Quiet(s, acts, k, t)
    requires t >= u || (k in s.states && s.states[k] == Probing(u))
    ensures var t' := LastNow(acts, t); t' >= t && (t' >= u || (k in Exec(s, acts).states && Exec(s, acts).states[k] == Probing(u)))
    decreases acts
  {
    if acts == [] {
    } else {
      WindowHolds(Next(s, acts[0]), acts[1..], k, if acts[0].Begin? then acts[0].now else t, u);
    }
  }

  /**
   Two ProbeNow answers for one key, with no finish on it in between and instants that do not go
   back, are at least 15 seconds apart, whatever happens to other keys meanwhile.
   */
  lemma ProbesSpaced(s: Sys, first: Action, acts: seq<Action>, now: Time)
    requires Enabled(s, first) && first.Begin? && Decide(s.states, first.key, first.now) == ProbeNow
    requires Runs(Next(s, first), acts) && Quiet(Next(s, first), acts, first.key, first.now)
    requires now >= LastNow(acts, first.now)
    requires Decide(Exec(Next(s, first), acts).states, first.key, now) == ProbeNow
    ensures now >= first.now + WS_ATTEMPT_WINDOW
  {
    WindowHolds(Next(s, first), acts, first.key, first.now, first.now + WS_ATTEMPT_WINDOW);
  }

  // -------- the shared pruned map against a private history per key --------

  datatype Op = Probe(key: Key, now: Time) | Fail(key: Key, now: Time) | Disable(key: Key) | Clear(key: Key)

  function Apply(m: States, op: Op): States {
    match op
    case Probe(k, now) => Begun(m, k, now)
    case Fail(k, now) => m[k := Cooldown(now + WS_FAILURE_COOLDOWN)]
    case Disable(k) => m[k := Disabled404]
    case Clear(k) => m - {k}
  }

  /** The answers the shared map gives about k, in order. */
  function Answers(m: States, ops: seq<Op>, k: Key): seq<Decision>
    decreases ops
  {
    if ops == [] then []
    else (if ops[0].Probe? && ops[0].key == k then [Decide(m, k, ops[0].now)] else []) + Answers(Apply(m, ops[0]), ops[1..], k)
  }

  /** The reference: k's own last entry, never pruned, with expiry checked when it is looked at. */
  function OwnDecision(e: Option<WsState>, now: Time): Decision {
    if e.None? || !Live(e.value, now) then ProbeNow
    else match e.value
      case Probing(_) => ProbeInFlight
      case Cooldown(_) => CoolingDown
      case Disabled404 => Disabled
  }

  function OwnNext(e: Option<WsState>, op: Op): Option<WsState> {
    match op
    case Probe(_, now) => if OwnDecision(e, now).ProbeNow? then Some(Probing(now + WS_ATTEMPT_WINDOW)) else e
    case Fail(_, now) => Some(Cooldown(now + WS_FAILURE_COOLDOWN))
    case Disable(_) => Some(Disabled404)
    case Clear(_) => None
  }

  /** It sees the operations on its own key and no others. */
  function OwnAnswers(e: Option<WsState>, ops: seq<Op>, k: Key): seq<Decision>
    decreases ops
  {
    if ops == [] then []
    else if ops[0].key != k then OwnAnswers(e, ops[1..], k)
    else (if ops[0].Probe? then [OwnDecision(e, ops[0].now)] else []) + OwnAnswers(OwnNext(e, ops[0]), ops[1..], k)
  }

  /** Probe instants never go back. */
  predicate Ordered(ops: seq<Op>, t: Time)
    decreases ops
  {
    ops == [] || (if ops[0].Probe? then ops[0].now >= t && Ordered(ops[1..], ops[0].now) else Ordered(ops[1..], t))
  }

  /** The map holds k's entry, or has dropped it because it had expired by t. */
  ghost predicate Agree(m: States, k: Key, e: Option<WsState>, t: Time) {
    if k in m then e == Some(m[k]) else e.None? || !Live(e.value, t)
  }

  lemma AgreeStep(m: States, k: Key, e: Option<WsState>, t: Time, op: Op)
    requires Agree(m, k, e, t) && (op.Probe? ==> op.now >= t)
    ensures op.Probe? && op.key == k ==> Decide(m, k, op.now) == OwnDecision(e, op.now)
    ensures Agree(Apply(m, op), k, if op.key == k then OwnNext(e, op) else e, if op.Probe? then op.now else t)
  {
  }

  /** For ordered probes the shared map is invisible: each key is answered as if it were alone. */
  lemma {:induction false} PruningInvisible(m: States, k: Key, e: Option<WsState>, t: Time, ops: seq<Op>)
    requires Agree(m, k, e, t) && Ordered(ops, t)
    ensures Answers(m, ops, k) == OwnAnswers(e, ops, k)
    decreases ops
  {
    if ops == [] {
    } else {
      var op := ops[0];
      AgreeStep(m, k, e, t, op);
      PruningInvisible(Apply(m, op), k, if op.key == k then OwnNext(e, op) else e, if op.Probe? then op.now else t, ops[1..]);
    }
  }

  /** Order is what it takes: a prune at t0 can never change an answer at t exactly when t0 is not later. */
  lemma PruneInvisibleIff(t0: Time, t: Time)
    ensures (forall m: States, k: Key :: Decide(Prune(m, t0), k, t) == Decide(m, k, t)) <==> t0 <= t
  {
    if t < t0 {
      var k: Key := (2, false);
      var m: States := map[k := Cooldown(t0)];
      assert k !in Prune(m, t0);
      assert Decide(m, k, t) == CoolingDown;
      assert Decide(Prune(m, t0), k, t) == ProbeNow;
    }
  }

  /**
   Such a clock does reach the map: k fails and cools down until the 60th second; a session on
   another key that read its clock then prunes k's entry, and a session on k that read its clock a
   nanosecond earlier is told to probe, where it was told to wait before.
   */
  lemma LatePruneForgets(k: Key, other: Key)
    requires k != other
    ensures var failed := [Begin(1, k, 0)] + ([End(1, [Failed(None), Failed(None)])] + []);
      && Runs(START, failed)
      && Decide(Exec(START, failed).states, k, WS_FAILURE_COOLDOWN - 1) == CoolingDown
      && Enabled(Exec(START, failed), Begin(2, other, WS_FAILURE_COOLDOWN))
      && Decide(Next(Exec(START, failed), Begin(2, other, WS_FAILURE_COOLDOWN)).states, k, WS_FAILURE_COOLDOWN - 1) == ProbeNow
  {
    var refused: seq<Outcome> := [Failed(None), Failed(None)];
    var s1 := Next(START, Begin(1, k, 0));
    assert s1.states == map[k := Probing(WS_ATTEMPT_WINDOW)];
    assert VerdictOf(refused) == OtherFailure by {
      assert refused[0] in refused && !NotFound(refused[0]);
    }
    var s2 := Next(s1, End(1, refused));
    assert s2.states == map[k := Cooldown(WS_FAILURE_COOLDOWN)];
    ExecCons(s1, End(1, refused), []);
    ExecCons(START, Begin(1, k, 0), [End(1, refused)] + []);
  }
}
