/**
 Which schedules of sessions keep the learned map up to date (src/modules/routing.rs, the section from
 resolve_telegram_init to remember_telegram_ipv6). A schedule fixes who begins and stores when, and
 to which host; the packets are the clients' choice.
 */
module Ipv6Schedules {
  import opened Bytes
  import opened Splitter
  import opened Init
  import opened Hosts
  import opened Ipv6Cache

  predicate SameStep(a: Action, b: Action) {
    match a
    case Begin(id, host, _) => b.Begin? && b.id == id && b.host == host
    case Remember(_) => b == a
  }

  /** The same steps of the same sessions, with any packets. */
  predicate SameSchedule(a: seq<Action>, b: seq<Action>) {
    |a| == |b| && forall i | 0 <= i < |a| :: SameStep(a[i], b[i])
  }

  /** Whatever packets the clients send, the map ends up with the entry last extracted for ip. */
  ghost predicate StaysCurrent(ks: Keystream, cat: Catalog, s: State, acts: seq<Action>, ip: seq<byte>) {
    forall acts' | SameSchedule(acts, acts') && Runs(ks, cat, s, acts') ::
      Get(Exec(ks, cat, s, acts').cache, ip) == Get(Exec(ks, cat, s, acts').latest, ip)
  }

  // -------- packets do not influence the schedule --------

  ghost predicate SameSessions(s: State, t: State) {
    && s.inflight.Keys == t.inflight.Keys
    && forall id | id in s.inflight :: s.inflight[id].host == t.inflight[id].host
  }

  lemma SameBusy(cat: Catalog, s: State, t: State, ip: seq<byte>)
    requires SameSessions(s, t)
    ensures Busy(cat, s, ip) <==> Busy(cat, t, ip)
  {
    if Busy(cat, s, ip) {
      var id :| id in s.inflight && cat.parse6(s.inflight[id].host) == Some(ip);
      assert id in t.inflight;
    }
    if Busy(cat, t, ip) {
      var id :| id in t.inflight && cat.parse6(t.inflight[id].host) == Some(ip);
      assert id in s.inflight;
    }
  }

  lemma NextSessions(ks: Keystream, cat: Catalog, s: State, a: Action)
    requires Enabled(s, a)
    ensures var next := Next(ks, cat, s, a).inflight;
      && next.Keys == (if a.Begin? then s.inflight.Keys + {a.id} else s.inflight.Keys - {a.id})
      && forall id | id in next :: next[id].host == if a.Begin? && id == a.id then a.host else s.inflight[id].host
  {
  }

  lemma SameNext(ks: Keystream, cat: Catalog, s: State, t: State, a: Action, b: Action)
    requires SameSessions(s, t) && SameStep(a, b) && Enabled(s, a)
    ensures Enabled(t, b) && SameSessions(Next(ks, cat, s, a), Next(ks, cat, t, b))
  {
    NextSessions(ks, cat, s, a);
    NextSessions(ks, cat, t, b);
  }

  lemma {:induction false} SameRuns(ks: Keystream, cat: Catalog, s: State, t: State, acts: seq<Action>, acts': seq<Action>, ip: seq<byte>)
    requires SameSessions(s, t) && SameSchedule(acts, acts') && Runs(ks, cat, s, acts)
    ensures Runs(ks, cat, t, acts') && SameSessions(Exec(ks, cat, s, acts), Exec(ks, cat, t, acts'))
    ensures NoOverlap(ks, cat, s, acts, ip) <==> NoOverlap(ks, cat, t, acts', ip)
    decreases acts
  {
    if acts == [] {
    } else {
      assert SameStep(acts[0], acts'[0]);
      SameNext(ks, cat, s, t, acts[0], acts'[0]);
      SameBusy(cat, s, t, ip);
      SameRuns(ks, cat, Next(ks, cat, s, acts[0]), Next(ks, cat, t, acts'[0]), acts[1..], acts'[1..], ip);
    }
  }

  ghost predicate Overlaps(cat: Catalog, s: State, a: Action, ip: seq<byte>) {
    a.Begin? && cat.parse6(a.host) == Some(ip) && Busy(cat, s, ip)
  }

  lemma {:induction false} RunsSnoc(ks: Keystream, cat: Catalog, s: State, acts: seq<Action>, a: Action, ip: seq<byte>)
    ensures Runs(ks, cat, s, acts + [a]) <==> Runs(ks, cat, s, acts) && Enabled(Exec(ks, cat, s, acts), a)
    ensures Runs(ks, cat, s, acts + [a]) ==>
      && Exec(ks, cat, s, acts + [a]) == Next(ks, cat, Exec(ks, cat, s, acts), a)
      && (NoOverlap(ks, cat, s, acts + [a], ip) <==>
            NoOverlap(ks, cat, s, acts, ip) && !Overlaps(cat, Exec(ks, cat, s, acts), a, ip))
    decreases acts
  {
    if acts == [] {
      assert acts + [a] == [a] && [a][1..] == [];
    } else {
      assert (acts + [a])[1..] == acts[1..] + [a];
      if Enabled(s, acts[0]) {
        RunsSnoc(ks, cat, Next(ks, cat, s, acts[0]), acts[1..], a, ip);
      }
    }
  }

  /** A run whose packets have been chosen goes on with any packet for the next step. */
  lemma Extend(ks: Keystream, cat: Catalog, s: State, before: seq<Action>, before': seq<Action>, a: Action, a': Action, ip: seq<byte>)
    requires SameSchedule(before, before') && SameStep(a, a') && Runs(ks, cat, s, before + [a])
    ensures Runs(ks, cat, s, before) && Runs(ks, cat, s, before') && SameSchedule(before + [a], before' + [a'])
    ensures SameSessions(Exec(ks, cat, s, before), Exec(ks, cat, s, before'))
    ensures Enabled(Exec(ks, cat, s, before), a) && Enabled(Exec(ks, cat, s, before'), a')
    ensures Runs(ks, cat, s, before' + [a'])
    ensures Exec(ks, cat, s, before + [a]) == Next(ks, cat, Exec(ks, cat, s, before), a)
    ensures Exec(ks, cat, s, before' + [a']) == Next(ks, cat, Exec(ks, cat, s, before'), a')
    ensures NoOverlap(ks, cat, s, before + [a], ip) <==>
      NoOverlap(ks, cat, s, before, ip) && !Overlaps(cat, Exec(ks, cat, s, before), a, ip)
  {
    RunsSnoc(ks, cat, s, before, a, ip);
    SameRuns(ks, cat, s, s, before, before', ip);
    SameNext(ks, cat, Exec(ks, cat, s, before), Exec(ks, cat, s, before'), a, a');
    RunsSnoc(ks, cat, s, before', a', ip);
  }

  // -------- one step, seen from one address --------

  ghost predicate On(cat: Catalog, s: State, ip: seq<byte>, id: nat) {
    id in s.inflight && cat.parse6(s.inflight[id].host) == Some(ip)
  }

  ghost predicate Concerns(cat: Catalog, s: State, a: Action, ip: seq<byte>) {
    match a
    case Begin(_, host, _) => cat.parse6(host) == Some(ip)
    case Remember(id) => On(cat, s, ip, id)
  }

  lemma OtherEffect(ks: Keystream, cat: Catalog, s: State, a: Action, ip: seq<byte>)
    requires Enabled(s, a) && !Concerns(cat, s, a, ip)
    ensures var s' := Next(ks, cat, s, a);
      && Get(s'.cache, ip) == Get(s.cache, ip) && Get(s'.latest, ip) == Get(s.latest, ip)
      && (forall id :: On(cat, s', ip, id) <==> On(cat, s, ip, id))
      && (forall id | On(cat, s, ip, id) :: s'.inflight[id] == s.inflight[id])
  {
  }

  /** Every session in flight on ip, but possibly x, is about to store e. */
  ghost predicate AllStore(cat: Catalog, s: State, ip: seq<byte>, e: Entry, x: Option<nat>) {
    forall id | On(cat, s, ip, id) && Some(id) != x :: ToStore(s.inflight[id].info) == Some(e)
  }

  /** A packet without a data centre of its own. */
  ghost predicate Silent(ks: Keystream, a: Action) {
    a.Begin? ==> ExtractDc(ks, a.packet).dc.None?
  }

  function Silenced(ks: Keystream, a: Action): (b: Action)
    ensures SameStep(a, b)
  {
    match a
    case Begin(id, host, _) => Begin(id, host, Crafted(ks, 0))
    case Remember(_) => a
  }

  lemma SilencedIsSilent(ks: Keystream, a: Action)
    ensures Silent(ks, Silenced(ks, a))
  {
    CraftedReads(ks, 0);
    assert InfoOf(0) == UNKNOWN;
  }

  /** While the map holds e, a silent session will store e, and one that stores e changes nothing. */
  lemma SilentStep(ks: Keystream, cat: Catalog, s: State, a: Action, ip: seq<byte>, e: Entry, x: Option<nat>)
    requires cat.Valid() && Enabled(s, a) && Silent(ks, a)
    requires Get(s.cache, ip) == Some(e) && AllStore(cat, s, ip, e, x)
    requires a.Remember? ==> x != Some(a.id)
    ensures var s' := Next(ks, cat, s, a);
      Get(s'.cache, ip) == Some(e) && AllStore(cat, s', ip, e, x) && Get(s'.latest, ip) == Get(s.latest, ip)
  {
    if !Concerns(cat, s, a, ip) {
      OtherEffect(ks, cat, s, a, ip);
    } else if a.Begin? {
      BeginEffect(ks, cat, s, a.id, a.host, ip, a.packet);
    } else {
      RememberEffect(ks, cat, s, a.id, ip);
    }
  }

  // -------- how an overlap goes wrong --------

  /** Silent clients change nothing. */
  lemma {:induction false} SilentRun(ks: Keystream, cat: Catalog, s: State, acts: seq<Action>, ip: seq<byte>, e: Entry)
    returns (acts': seq<Action>)
    requires cat.Valid() && Runs(ks, cat, s, acts) && Get(s.cache, ip) == Some(e) && AllStore(cat, s, ip, e, None)
    ensures SameSchedule(acts, acts') && Runs(ks, cat, s, acts')
    ensures Get(Exec(ks, cat, s, acts').cache, ip) == Some(e) && AllStore(cat, Exec(ks, cat, s, acts'), ip, e, None)
    decreases |acts|
  {
    if acts == [] {
      acts' := [];
    } else {
      var before, a := acts[..|acts| - 1], acts[|acts| - 1];
      assert acts == before + [a];
      RunsSnoc(ks, cat, s, before, a, ip);
      var before' := SilentRun(ks, cat, s, before, ip, e);
      var a' := Silenced(ks, a);
      SilencedIsSilent(ks, a);
      Extend(ks, cat, s, before, before', a, a', ip);
      SilentStep(ks, cat, Exec(ks, cat, s, before'), a', ip, e, None);
      acts' := before' + [a'];
    }
  }

  /** x alone has extracted a new entry and not stored it yet. */
  ghost predicate NewAt(cat: Catalog, s: State, ip: seq<byte>, e: Entry, e': Entry, x: nat) {
    && On(cat, s, ip, x) && ToStore(s.inflight[x].info) == Some(e') && Get(s.latest, ip) == Some(e')
    && Get(s.cache, ip) == Some(e) && AllStore(cat, s, ip, e, Some(x))
  }

  lemma SpeaksNow(ks: Keystream, cat: Catalog, s: State, a: Action, ip: seq<byte>, e: Entry, e': Entry)
    requires cat.Valid() && Enabled(s, a) && a.Begin? && cat.parse6(a.host) == Some(ip)
    requires Get(s.cache, ip) == Some(e) && AllStore(cat, s, ip, e, None)
    requires ToStore(ExtractDc(ks, a.packet)) == Some(e')
    ensures NewAt(cat, Next(ks, cat, s, a), ip, e, e', a.id)
  {
    BeginEffect(ks, cat, s, a.id, a.host, ip, a.packet);
  }

  lemma StillNew(ks: Keystream, cat: Catalog, s: State, a: Action, ip: seq<byte>, e: Entry, e': Entry, x: nat)
    requires cat.Valid() && Enabled(s, a) && Silent(ks, a) && NewAt(cat, s, ip, e, e', x) && a != Remember(x)
    ensures NewAt(cat, Next(ks, cat, s, a), ip, e, e', x)
  {
    SilentStep(ks, cat, s, a, ip, e, Some(x));
    SessionStays(ks, cat, s, a, x);
  }

  lemma SessionStays(ks: Keystream, cat: Catalog, s: State, a: Action, x: nat)
    requires Enabled(s, a) && x in s.inflight && a != Remember(x)
    ensures x in Next(ks, cat, s, a).inflight && Next(ks, cat, s, a).inflight[x] == s.inflight[x]
  {
  }

  /** In flight after a step that does not begin it, a session was in flight before, and the step does not store it. */
  lemma WasOn(ks: Keystream, cat: Catalog, s: State, a: Action, ip: seq<byte>, x: nat)
    requires Enabled(s, a) && On(cat, Next(ks, cat, s, a), ip, x)
    ensures a.Begin? && a.id == x ==> cat.parse6(a.host) == Some(ip)
    ensures !(a.Begin? && a.id == x) ==> On(cat, s, ip, x) && a != Remember(x)
  {
    NextSessions(ks, cat, s, a);
  }

  /** A session in flight at the end can be made the only one to have extracted anything. */
  lemma {:induction false} OneSpeaks(ks: Keystream, cat: Catalog, s: State, acts: seq<Action>, ip: seq<byte>, e: Entry,
      x: nat, p: seq<byte>, e': Entry) returns (acts': seq<Action>)
    requires cat.Valid() && Runs(ks, cat, s, acts) && Get(s.cache, ip) == Some(e) && !Busy(cat, s, ip)
    requires On(cat, Exec(ks, cat, s, acts), ip, x) && ToStore(ExtractDc(ks, p)) == Some(e')
    ensures SameSchedule(acts, acts') && Runs(ks, cat, s, acts')
    ensures NewAt(cat, Exec(ks, cat, s, acts'), ip, e, e', x)
    decreases |acts|
  {
    if acts == [] {
      assert false;
    } else {
      var before, a := acts[..|acts| - 1], acts[|acts| - 1];
      assert acts == before + [a];
      RunsSnoc(ks, cat, s, before, a, ip);
      WasOn(ks, cat, Exec(ks, cat, s, before), a, ip, x);
      var before', a';
      if a.Begin? && a.id == x {
        before' := SilentRun(ks, cat, s, before, ip, e);
        a' := Begin(x, a.host, p);
        Extend(ks, cat, s, before, before', a, a', ip);
        SpeaksNow(ks, cat, Exec(ks, cat, s, before'), a', ip, e, e');
      } else {
        before' := OneSpeaks(ks, cat, s, before, ip, e, x, p, e');
        a' := Silenced(ks, a);
        SilencedIsSilent(ks, a);
        Extend(ks, cat, s, before, before', a, a', ip);
        StillNew(ks, cat, Exec(ks, cat, s, before'), a', ip, e, e', x);
      }
      acts' := before' + [a'];
    }
  }

  ghost predicate AtMostOne(cat: Catalog, s: State, ip: seq<byte>) {
    forall i, j | On(cat, s, ip, i) && On(cat, s, ip, j) :: i == j
  }

  /** The old entry is in the map or about to be put back, though a newer one has been extracted. */
  ghost predicate Stale(cat: Catalog, s: State, ip: seq<byte>, e: Entry, e': Entry) {
    && Get(s.latest, ip) == Some(e') && AllStore(cat, s, ip, e, None)
    && (!Busy(cat, s, ip) ==> Get(s.cache, ip) == Some(e))
  }

  lemma SameCount(cat: Catalog, s: State, t: State, ip: seq<byte>)
    requires SameSessions(s, t)
    ensures forall id :: On(cat, s, ip, id) <==> On(cat, t, ip, id)
    ensures AtMostOne(cat, s, ip) <==> AtMostOne(cat, t, ip)
    ensures Busy(cat, s, ip) <==> Busy(cat, t, ip)
  {
    assert forall id :: On(cat, s, ip, id) <==> On(cat, t, ip, id);
    SameBusy(cat, s, t, ip);
  }

  /** A silent step keeps the map stale as long as sessions come one at a time. */
  lemma StaleStep(ks: Keystream, cat: Catalog, s: State, a: Action, ip: seq<byte>, e: Entry, e': Entry)
    requires cat.Valid() && Enabled(s, a) && Silent(ks, a) && Stale(cat, s, ip, e, e') && !Overlaps(cat, s, a, ip)
    ensures Stale(cat, Next(ks, cat, s, a), ip, e, e')
  {
    var s' := Next(ks, cat, s, a);
    if !Concerns(cat, s, a, ip) {
      OtherEffect(ks, cat, s, a, ip);
      if Busy(cat, s, ip) {
        var id :| id in s.inflight && cat.parse6(s.inflight[id].host) == Some(ip);
        assert On(cat, s, ip, id);
        assert On(cat, s', ip, id);
      }
    } else if a.Begin? {
      BeginEffect(ks, cat, s, a.id, a.host, ip, a.packet);
      assert On(cat, s', ip, a.id);
    } else {
      RememberEffect(ks, cat, s, a.id, ip);
    }
  }

  /** The new entry is stored while another session is still to put the old one back. */
  lemma StaleBegins(ks: Keystream, cat: Catalog, s: State, ip: seq<byte>, e: Entry, e': Entry, x: nat, y: nat)
    requires cat.Valid() && NewAt(cat, s, ip, e, e', x) && On(cat, s, ip, y) && x != y
    ensures Stale(cat, Next(ks, cat, s, Remember(x)), ip, e, e')
  {
    RememberEffect(ks, cat, s, x, ip);
    assert On(cat, Next(ks, cat, s, Remember(x)), ip, y);
  }

  lemma {:induction false} OverlapGoesStale(ks: Keystream, cat: Catalog, s: State, acts: seq<Action>, ip: seq<byte>, e: Entry,
      p: seq<byte>, e': Entry) returns (acts': seq<Action>)
    requires cat.Valid() && Runs(ks, cat, s, acts) && Get(s.cache, ip) == Some(e) && !Busy(cat, s, ip)
    requires !NoOverlap(ks, cat, s, acts, ip) && AtMostOne(cat, Exec(ks, cat, s, acts), ip)
    requires ToStore(ExtractDc(ks, p)) == Some(e')
    ensures SameSchedule(acts, acts') && Runs(ks, cat, s, acts')
    ensures Stale(cat, Exec(ks, cat, s, acts'), ip, e, e')
    decreases |acts|
  {
    if acts == [] {
      assert false;
    } else {
      var before, a := acts[..|acts| - 1], acts[|acts| - 1];
      assert acts == before + [a];
      RunsSnoc(ks, cat, s, before, a, ip);
      var r := Exec(ks, cat, s, before);
      var before', a';
      if AtMostOne(cat, r, ip) {
        NoOverlapAtEnd(ks, cat, r, a, ip);
        before' := OverlapGoesStale(ks, cat, s, before, ip, e, p, e');
        a' := Silenced(ks, a);
        SilencedIsSilent(ks, a);
        Extend(ks, cat, s, before, before', a, a', ip);
        SameCount(cat, r, Exec(ks, cat, s, before'), ip);
        StaleStep(ks, cat, Exec(ks, cat, s, before'), a', ip, e, e');
      } else {
        var y := OneLeft(ks, cat, r, a, ip);
        before' := OneSpeaks(ks, cat, s, before, ip, e, a.id, p, e');
        a' := a;
        Extend(ks, cat, s, before, before', a, a', ip);
        SameCount(cat, r, Exec(ks, cat, s, before'), ip);
        StaleBegins(ks, cat, Exec(ks, cat, s, before'), ip, e, e', a.id, y);
      }
      acts' := before' + [a'];
    }
  }

  lemma NoOverlapAtEnd(ks: Keystream, cat: Catalog, s: State, a: Action, ip: seq<byte>)
    requires Enabled(s, a) && AtMostOne(cat, Next(ks, cat, s, a), ip)
    ensures !Overlaps(cat, s, a, ip)
  {
    if Overlaps(cat, s, a, ip) {
      var id :| id in s.inflight && cat.parse6(s.inflight[id].host) == Some(ip);
      assert On(cat, Next(ks, cat, s, a), ip, id) && On(cat, Next(ks, cat, s, a), ip, a.id);
    }
  }

  /** Where several sessions become at most one, one of them has stored and another remains. */
  lemma OneLeft(ks: Keystream, cat: Catalog, s: State, a: Action, ip: seq<byte>) returns (y: nat)
    requires Enabled(s, a) && !AtMostOne(cat, s, ip) && AtMostOne(cat, Next(ks, cat, s, a), ip)
    ensures a.Remember? && On(cat, s, ip, a.id) && On(cat, s, ip, y) && y != a.id
  {
    var i: nat, j: nat :| On(cat, s, ip, i) && On(cat, s, ip, j) && i != j;
    var s' := Next(ks, cat, s, a);
    assert On(cat, s', ip, i) || a == Remember(i);
    assert On(cat, s', ip, j) || a == Remember(j);
    y := if a == Remember(i) then j else i;
  }

  // -------- exactly when --------

  lemma KeepsCurrent(ks: Keystream, cat: Catalog, s: State, acts: seq<Action>, ip: seq<byte>)
    requires cat.Valid() && Runs(ks, cat, s, acts) && NoOverlap(ks, cat, s, acts, ip)
    requires !Busy(cat, s, ip) && Get(s.cache, ip) == Get(s.latest, ip) && !Busy(cat, Exec(ks, cat, s, acts), ip)
    ensures StaysCurrent(ks, cat, s, acts, ip)
  {
    forall acts' | SameSchedule(acts, acts') && Runs(ks, cat, s, acts')
      ensures Get(Exec(ks, cat, s, acts').cache, ip) == Get(Exec(ks, cat, s, acts').latest, ip)
    {
      SameRuns(ks, cat, s, s, acts, acts', ip);
      SameBusy(cat, Exec(ks, cat, s, acts), Exec(ks, cat, s, acts'), ip);
      RunCurrent(ks, cat, s, acts', ip);
    }
  }

  /** A packet that extracts another entry than e. */
  lemma AnotherEntry(ks: Keystream, e: Entry) returns (p: seq<byte>, e': Entry)
    ensures ToStore(ExtractDc(ks, p)) == Some(e') && e' != e
  {
    e' := if e == Entry(1, false) then Entry(2, false) else Entry(1, false);
    p := Crafted(ks, e'.Signed());
    EntryInfo(e');
    CraftedReads(ks, e'.Signed());
  }

  /**
   For an address with a learned entry, up to date and idle: a schedule of complete sessions leaves
   the entry up to date whatever packets the clients send, if and only if no two sessions on the
   address overlap. Sessions on other addresses may do as they like.
   */
  lemma CurrentIffNoOverlap(ks: Keystream, cat: Catalog, s: State, acts: seq<Action>, ip: seq<byte>)
    requires cat.Valid() && ip in s.cache && Get(s.cache, ip) == Get(s.latest, ip) && !Busy(cat, s, ip)
    requires Runs(ks, cat, s, acts) && !Busy(cat, Exec(ks, cat, s, acts), ip)
    ensures StaysCurrent(ks, cat, s, acts, ip) <==> NoOverlap(ks, cat, s, acts, ip)
  {
    if NoOverlap(ks, cat, s, acts, ip) {
      KeepsCurrent(ks, cat, s, acts, ip);
    } else {
      var e := s.cache[ip];
      var p, e' := AnotherEntry(ks, e);
      IdleIsAtMostOne(cat, Exec(ks, cat, s, acts), ip);
      var acts' := OverlapGoesStale(ks, cat, s, acts, ip, e, p, e');
      SameRuns(ks, cat, s, s, acts, acts', ip);
      SameBusy(cat, Exec(ks, cat, s, acts), Exec(ks, cat, s, acts'), ip);
      assert Get(Exec(ks, cat, s, acts').cache, ip) != Get(Exec(ks, cat, s, acts').latest, ip);
    }
  }

  lemma IdleIsAtMostOne(cat: Catalog, s: State, ip: seq<byte>)
    requires !Busy(cat, s, ip)
    ensures AtMostOne(cat, s, ip)
  {
  }
}
