/**
 The learned map from IPv6 targets to data centres (src/modules/routing/ipv6_cache.rs), and the
 sessions that share it: each resolves its init packet against the map and later stores what it
 resolved, with any other session's steps in between.
 */
module Ipv6Cache {
  import opened Bytes
  import opened Splitter
  import opened Init
  import opened Hosts

  type Learned = map<seq<byte>, Entry>

  function Get(m: Learned, ip: seq<byte>): Option<Entry> {
    if ip in m then Some(m[ip]) else None
  }

  function Lookup(cat: Catalog, m: Learned, host: Host): Option<Entry> {
    match cat.parse6(host)
    case None => None
    case Some(ip) => Get(m, ip)
  }

  /** The resolution a session computes from the map as it is at that moment. */
  function ResolveWith(ks: Keystream, cat: Catalog, m: Learned, host: Host, packet: seq<byte>): Resolved {
    Resolve(ks, packet, OrElse(Lookup(cat, m, host), cat.ipToDc(host)))
  }

  /** What a session stores, if anything. */
  function ToStore(info: InitInfo): Option<Entry> {
    match info.dc
    case None => None
    case Some(dc) => Some(Entry(dc, info.media))
  }

  function Stored(cat: Catalog, m: Learned, host: Host, info: InitInfo): Learned {
    match (cat.parse6(host), ToStore(info))
    case (Some(ip), Some(entry)) => if IsIpv6(host) then m[ip := entry] else m
    case _ => m
  }

  class Cache {
    const catalog: Catalog
    var entries: Learned

    constructor (catalog: Catalog)
      ensures this.catalog == catalog && entries == map[]
    {
      this.catalog, entries := catalog, map[];
    }

    method LearnedEntry(host: Host) returns (entry: Option<Entry>)
      ensures entry == Lookup(catalog, entries, host)
    {
      var ip := catalog.parse6(host);
      if ip.None? || ip.value !in entries {
        return None;
      }
      entry := Some(entries[ip.value]);
    }

    method RememberEntry(host: Host, entry: Entry)
      modifies this
      ensures entries == match catalog.parse6(host)
        case None => old(entries)
        case Some(ip) => old(entries)[ip := entry]
    {
      var ip := catalog.parse6(host);
      if ip.Some? {
        entries := entries[ip.value := entry];
      }
    }

    method ResolveTelegramInit(ks: Keystream, host: Host, init: seq<byte>) returns (r: Resolved)
      ensures r == ResolveWith(ks, catalog, entries, host, init)
    {
      var packet := init;
      var info := ExtractInit(ks, packet);
      var patched := false;
      if info.dc.None? {
        var entry := LearnedEntry(host);
        if entry.None? {
          entry := catalog.ipToDc(host);
        }
        if entry.Some? {
          var signed := if entry.value.media then -(entry.value.dc as int) else entry.value.dc as int;
          packet := PatchInit(ks, packet, signed);
          info := ExtractInit(ks, packet);
          patched := true;
          info := InitInfo(Some(entry.value.dc), entry.value.media);
        }
      }
      r := Resolved(packet, info, patched);
    }

    method RememberTelegramIpv6(host: Host, info: InitInfo)
      modifies this
      ensures entries == Stored(catalog, old(entries), host, info)
    {
      if IsIpv6(host) && info.dc.Some? {
        RememberEntry(host, Entry(info.dc.value, info.media));
      }
    }
  }

  // -------- concurrent sessions --------

  datatype Session = Session(host: Host, info: InitInfo)

  /** `sent` and `latest` record the run: every init sent to an address, and the last entry extracted for it. */
  datatype State = State(
    cache: Learned,
    inflight: map<nat, Session>,
    sent: set<(seq<byte>, seq<byte>)>,
    latest: Learned)

  const START := State(map[], map[], {}, map[])

  datatype Action = Begin(id: nat, host: Host, packet: seq<byte>) | Remember(id: nat)

  predicate Enabled(s: State, a: Action) {
    match a
    case Begin(id, _, _) => id !in s.inflight
    case Remember(id) => id in s.inflight
  }

  function Next(ks: Keystream, cat: Catalog, s: State, a: Action): State
    requires Enabled(s, a)
  {
    match a
    case Begin(id, host, packet) =>
      var info := ResolveWith(ks, cat, s.cache, host, packet).info;
      var s' := s.(inflight := s.inflight[id := Session(host, info)]);
      (match cat.parse6(host)
       case None => s'
       case Some(ip) =>
         var own := ToStore(ExtractDc(ks, packet));
         s'.(sent := s.sent + {(ip, packet)}, latest := if own.Some? then s.latest[ip := own.value] else s.latest))
    case Remember(id) =>
      var session := s.inflight[id];
      s.(cache := Stored(cat, s.cache, session.host, session.info), inflight := s.inflight - {id})
  }

  predicate Runs(ks: Keystream, cat: Catalog, s: State, acts: seq<Action>)
    decreases acts
  {
    acts == [] || (Enabled(s, acts[0]) && Runs(ks, cat, Next(ks, cat, s, acts[0]), acts[1..]))
  }

  function Exec(ks: Keystream, cat: Catalog, s: State, acts: seq<Action>): State
    requires Runs(ks, cat, s, acts)
    decreases acts
  {
    if acts == [] then s else Exec(ks, cat, Next(ks, cat, s, acts[0]), acts[1..])
  }

  // -------- every learned entry was sent by someone --------

  ghost predicate Witnessed(ks: Keystream, s: State, ip: seq<byte>, e: Entry) {
    exists packet :: (ip, packet) in s.sent && ToStore(ExtractDc(ks, packet)) == Some(e)
  }

  ghost predicate Sound(ks: Keystream, cat: Catalog, s: State) {
    && (forall ip | ip in s.cache :: Witnessed(ks, s, ip, s.cache[ip]))
    && (forall id | id in s.inflight ::
          var session := s.inflight[id];
          cat.parse6(session.host).Some? && session.info.dc.Some? ==>
            Witnessed(ks, s, cat.parse6(session.host).value, ToStore(session.info).value))
  }

  lemma WitnessedGrows(ks: Keystream, s: State, s': State, ip: seq<byte>, e: Entry)
    requires Witnessed(ks, s, ip, e) && s.sent <= s'.sent
    ensures Witnessed(ks, s', ip, e)
  {
    var packet :| (ip, packet) in s.sent && ToStore(ExtractDc(ks, packet)) == Some(e);
    assert (ip, packet) in s'.sent;
  }

  /** What a session resolves for an address was extracted from a packet sent to that address, its own or an earlier one. */
  lemma BeginWitnessed(ks: Keystream, cat: Catalog, s: State, a: Action)
    requires cat.Valid() && Sound(ks, cat, s) && Enabled(s, a) && a.Begin?
    requires cat.parse6(a.host).Some?
    ensures var info := ResolveWith(ks, cat, s.cache, a.host, a.packet).info;
      info.dc.Some? ==>
        Witnessed(ks, Next(ks, cat, s, a), cat.parse6(a.host).value, ToStore(info).value)
  {
    var ip, s' := cat.parse6(a.host).value, Next(ks, cat, s, a);
    if ExtractDc(ks, a.packet).dc.Some? {
      assert (ip, a.packet) in s'.sent;
    } else if ip in s.cache {
      WitnessedGrows(ks, s, s', ip, s.cache[ip]);
    }
  }

  lemma StepSound(ks: Keystream, cat: Catalog, s: State, a: Action)
    requires cat.Valid() && Sound(ks, cat, s) && Enabled(s, a)
    ensures Sound(ks, cat, Next(ks, cat, s, a))
  {
    var s' := Next(ks, cat, s, a);
    forall ip | ip in s'.cache ensures Witnessed(ks, s', ip, s'.cache[ip]) {
      if ip in s.cache && s.cache[ip] == s'.cache[ip] {
        WitnessedGrows(ks, s, s', ip, s.cache[ip]);
      }
    }
    forall id | id in s'.inflight && cat.parse6(s'.inflight[id].host).Some? && s'.inflight[id].info.dc.Some?
      ensures Witnessed(ks, s', cat.parse6(s'.inflight[id].host).value, ToStore(s'.inflight[id].info).value)
    {
      var session := s'.inflight[id];
      if id in s.inflight {
        WitnessedGrows(ks, s, s', cat.parse6(session.host).value, ToStore(session.info).value);
      } else {
        BeginWitnessed(ks, cat, s, a);
      }
    }
  }

  lemma {:induction false} RunSound(ks: Keystream, cat: Catalog, s: State, acts: seq<Action>)
    requires cat.Valid() && Sound(ks, cat, s) && Runs(ks, cat, s, acts)
    ensures Sound(ks, cat, Exec(ks, cat, s, acts))
    decreases acts
  {
    if acts == [] {
    } else {
      StepSound(ks, cat, s, acts[0]);
      RunSound(ks, cat, Next(ks, cat, s, acts[0]), acts[1..]);
    }
  }

  /** In every run, a learned entry was extracted from an init sent to that very address, and names one of the five centres. */
  lemma LearnedWasSent(ks: Keystream, cat: Catalog, acts: seq<Action>, ip: seq<byte>)
    requires cat.Valid() && Runs(ks, cat, START, acts)
    requires ip in Exec(ks, cat, START, acts).cache
    ensures var s := Exec(ks, cat, START, acts);
      s.cache[ip].Valid() && exists packet :: (ip, packet) in s.sent && ToStore(ExtractDc(ks, packet)) == Some(s.cache[ip])
  {
    RunSound(ks, cat, START, acts);
    var s := Exec(ks, cat, START, acts);
    assert Witnessed(ks, s, ip, s.cache[ip]);
  }

  // -------- without overlap the map holds the newest extraction --------

  ghost predicate Busy(cat: Catalog, s: State, ip: seq<byte>) {
    exists id :: id in s.inflight && cat.parse6(s.inflight[id].host) == Some(ip)
  }

  /** The sections on the address ip do not overlap: none begins before the one before it has stored. */
  ghost predicate NoOverlap(ks: Keystream, cat: Catalog, s: State, acts: seq<Action>, ip: seq<byte>)
    requires Runs(ks, cat, s, acts)
    decreases acts
  {
    acts != [] ==>
      && (acts[0].Begin? && cat.parse6(acts[0].host) == Some(ip) ==> !Busy(cat, s, ip))
      && NoOverlap(ks, cat, Next(ks, cat, s, acts[0]), acts[1..], ip)
  }

  /** An idle address holds its newest extraction; a busy one is about to, by its one session. */
  ghost predicate Current(cat: Catalog, s: State, ip: seq<byte>) {
    && (!Busy(cat, s, ip) ==> Get(s.cache, ip) == Get(s.latest, ip))
    && (forall id | id in s.inflight && cat.parse6(s.inflight[id].host) == Some(ip) ::
          && ToStore(s.inflight[id].info) == Get(s.latest, ip)
          && (s.inflight[id].info.dc.None? ==> Get(s.cache, ip) == None))
    && (forall i, j | i in s.inflight && j in s.inflight && cat.parse6(s.inflight[i].host) == Some(ip)
          && cat.parse6(s.inflight[j].host) == Some(ip) :: i == j)
  }

  lemma BeginCurrent(ks: Keystream, cat: Catalog, s: State, a: Action, ip: seq<byte>)
    requires cat.Valid() && Current(cat, s, ip) && Enabled(s, a) && a.Begin?
    requires cat.parse6(a.host) == Some(ip) ==> !Busy(cat, s, ip)
    ensures Current(cat, Next(ks, cat, s, a), ip)
  {
    var s' := Next(ks, cat, s, a);
    assert a.id in s'.inflight;
    if Busy(cat, s, ip) {
      var id :| id in s.inflight && cat.parse6(s.inflight[id].host) == Some(ip);
      assert id in s'.inflight;
    }
  }

  lemma RememberCurrent(ks: Keystream, cat: Catalog, s: State, a: Action, ip: seq<byte>)
    requires cat.Valid() && Current(cat, s, ip) && Enabled(s, a) && a.Remember?
    ensures Current(cat, Next(ks, cat, s, a), ip)
  {
    var s' := Next(ks, cat, s, a);
    if Busy(cat, s, ip) {
      var id :| id in s.inflight && cat.parse6(s.inflight[id].host) == Some(ip);
      assert id == a.id || id in s'.inflight;
    }
  }

  lemma {:induction false} RunCurrent(ks: Keystream, cat: Catalog, s: State, acts: seq<Action>, ip: seq<byte>)
    requires cat.Valid() && Current(cat, s, ip) && Runs(ks, cat, s, acts) && NoOverlap(ks, cat, s, acts, ip)
    ensures Current(cat, Exec(ks, cat, s, acts), ip)
    decreases acts
  {
    if acts == [] {
    } else {
      if acts[0].Begin? {
        BeginCurrent(ks, cat, s, acts[0], ip);
      } else {
        RememberCurrent(ks, cat, s, acts[0], ip);
      }
      RunCurrent(ks, cat, Next(ks, cat, s, acts[0]), acts[1..], ip);
    }
  }

  /** If sessions on one address do not overlap, the map holds what was last extracted for it, whatever the others do. */
  lemma LearnedIsLatest(ks: Keystream, cat: Catalog, acts: seq<Action>, ip: seq<byte>)
    requires cat.Valid() && Runs(ks, cat, START, acts) && NoOverlap(ks, cat, START, acts, ip)
    requires !Busy(cat, Exec(ks, cat, START, acts), ip)
    ensures Get(Exec(ks, cat, START, acts).cache, ip) == Get(Exec(ks, cat, START, acts).latest, ip)
  {
    RunCurrent(ks, cat, START, acts, ip);
  }

  lemma BeginEffect(ks: Keystream, cat: Catalog, s: State, id: nat, host: Host, ip: seq<byte>, packet: seq<byte>)
    requires cat.Valid() && id !in s.inflight && cat.parse6(host) == Some(ip)
    ensures var s', own := Next(ks, cat, s, Begin(id, host, packet)), ToStore(ExtractDc(ks, packet));
      && s'.cache == s.cache && s'.inflight.Keys == s.inflight.Keys + {id}
      && (forall i | i in s.inflight :: s'.inflight[i] == s.inflight[i])
      && s'.inflight[id].host == host && ToStore(s'.inflight[id].info) == OrElse(own, Get(s.cache, ip))
      && Get(s'.latest, ip) == OrElse(own, Get(s.latest, ip))
  {
    assert cat.ipToDc(host) == None;
  }

  lemma RememberEffect(ks: Keystream, cat: Catalog, s: State, id: nat, ip: seq<byte>)
    requires cat.Valid() && id in s.inflight && cat.parse6(s.inflight[id].host) == Some(ip)
    ensures var s' := Next(ks, cat, s, Remember(id));
      && s'.inflight == s.inflight - {id} && s'.latest == s.latest
      && Get(s'.cache, ip) == OrElse(ToStore(s.inflight[id].info), Get(s.cache, ip))
  {
  }

  lemma ExecPair(ks: Keystream, cat: Catalog, s: State, a: Action, b: Action, rest: seq<Action>)
    requires Enabled(s, a) && Enabled(Next(ks, cat, s, a), b)
    requires Runs(ks, cat, Next(ks, cat, Next(ks, cat, s, a), b), rest)
    ensures Runs(ks, cat, s, [a, b] + rest)
    ensures Exec(ks, cat, s, [a, b] + rest) == Exec(ks, cat, Next(ks, cat, Next(ks, cat, s, a), b), rest)
  {
    var acts := [a, b] + rest;
    assert acts[1..] == [b] + rest && acts[1..][1..] == rest;
  }

  /** An overlap of two sessions on one address: the second begins and stores while the first is still to store. */
  lemma StaleTail(ks: Keystream, cat: Catalog, s: State, addr: seq<byte>, p0: seq<byte>, p2: seq<byte>)
    requires cat.Valid() && s.inflight == map[] && addr in s.cache
    requires ExtractDc(ks, p0).dc.None? && ExtractDc(ks, p2).dc.Some?
    ensures var h := V6(addr);
      var acts := [Begin(2, h, p0), Begin(3, h, p2)] + [Remember(3), Remember(2)];
      Runs(ks, cat, s, acts) &&
      var s' := Exec(ks, cat, s, acts);
      && s'.inflight == map[]
      && Get(s'.cache, addr) == Get(s.cache, addr)
      && Get(s'.latest, addr) == ToStore(ExtractDc(ks, p2))
  {
    var h := V6(addr);
    BeginEffect(ks, cat, s, 2, h, addr, p0);
    var s3 := Next(ks, cat, s, Begin(2, h, p0));
    BeginEffect(ks, cat, s3, 3, h, addr, p2);
    var s4 := Next(ks, cat, s3, Begin(3, h, p2));
    RememberEffect(ks, cat, s4, 3, addr);
    var s5 := Next(ks, cat, s4, Remember(3));
    RememberEffect(ks, cat, s5, 2, addr);
    assert [Remember(3), Remember(2)] + [] == [Remember(3), Remember(2)];
    ExecPair(ks, cat, s4, Remember(3), Remember(2), []);
    ExecPair(ks, cat, s, Begin(2, h, p0), Begin(3, h, p2), [Remember(3), Remember(2)]);
  }

  lemma StaleRun(ks: Keystream, cat: Catalog, addr: seq<byte>, p1: seq<byte>, p0: seq<byte>, p2: seq<byte>)
    requires cat.Valid()
    requires ExtractDc(ks, p1).dc.Some? && ExtractDc(ks, p2).dc.Some? && ExtractDc(ks, p0).dc.None?
    requires ToStore(ExtractDc(ks, p1)) != ToStore(ExtractDc(ks, p2))
    ensures var h := V6(addr);
      var acts := [Begin(1, h, p1), Remember(1)] + ([Begin(2, h, p0), Begin(3, h, p2)] + [Remember(3), Remember(2)]);
      Runs(ks, cat, START, acts) &&
      var s := Exec(ks, cat, START, acts);
      s.inflight == map[] && Get(s.cache, addr) != Get(s.latest, addr)
  {
    var h := V6(addr);
    BeginEffect(ks, cat, START, 1, h, addr, p1);
    var s1 := Next(ks, cat, START, Begin(1, h, p1));
    RememberEffect(ks, cat, s1, 1, addr);
    var s2 := Next(ks, cat, s1, Remember(1));
    assert s2.inflight == map[] && Get(s2.cache, addr) == ToStore(ExtractDc(ks, p1));
    StaleTail(ks, cat, s2, addr, p0, p2);
    ExecPair(ks, cat, START, Begin(1, h, p1), Remember(1),
      [Begin(2, h, p0), Begin(3, h, p2)] + [Remember(3), Remember(2)]);
  }

  /**
   With overlap the map need not hold the newest extraction, under any keystream and for any
   address: a session that resolved from the map stores the old entry back after another has stored
   a newer one.
   */
  lemma OverlapMayGoStale(ks: Keystream, cat: Catalog, addr: seq<byte>) returns (acts: seq<Action>)
    requires cat.Valid()
    ensures Runs(ks, cat, START, acts)
    ensures var s := Exec(ks, cat, START, acts);
      s.inflight == map[] && Get(s.cache, addr) != Get(s.latest, addr)
  {
    CraftedReads(ks, 0);
    CraftedReads(ks, 1);
    CraftedReads(ks, 2);
    var p0, p1, p2 := Crafted(ks, 0), Crafted(ks, 1), Crafted(ks, 2);
    assert InfoOf(0) == UNKNOWN && InfoOf(1) == InitInfo(Some(1), false) && InfoOf(2) == InitInfo(Some(2), false);
    StaleRun(ks, cat, addr, p1, p0, p2);
    var h := V6(addr);
    acts := [Begin(1, h, p1), Remember(1)] + ([Begin(2, h, p0), Begin(3, h, p2)] + [Remember(3), Remember(2)]);
  }

  /** Not every overlap does harm: while nothing is known of an address, first come, first stored is right for all packets. */
  lemma FirstOverlapHarmless(ks: Keystream, cat: Catalog, addr: seq<byte>, p: seq<byte>, q: seq<byte>)
    requires cat.Valid()
    ensures var h := V6(addr);
      var acts := [Begin(1, h, p), Begin(2, h, q)] + ([Remember(1), Remember(2)] + []);
      && Runs(ks, cat, START, acts) && !NoOverlap(ks, cat, START, acts, addr)
      && Get(Exec(ks, cat, START, acts).cache, addr) == Get(Exec(ks, cat, START, acts).latest, addr)
  {
    var h := V6(addr);
    BeginEffect(ks, cat, START, 1, h, addr, p);
    var s1 := Next(ks, cat, START, Begin(1, h, p));
    BeginEffect(ks, cat, s1, 2, h, addr, q);
    var s2 := Next(ks, cat, s1, Begin(2, h, q));
    RememberEffect(ks, cat, s2, 1, addr);
    RememberEffect(ks, cat, Next(ks, cat, s2, Remember(1)), 2, addr);
    ExecPair(ks, cat, s2, Remember(1), Remember(2), []);
    ExecPair(ks, cat, START, Begin(1, h, p), Begin(2, h, q), [Remember(1), Remember(2)] + []);
    var acts := [Begin(1, h, p), Begin(2, h, q)] + ([Remember(1), Remember(2)] + []);
    assert acts[1..][0] == Begin(2, h, q) && 1 in s1.inflight && Busy(cat, s1, addr);
  }

  /** The session that begins last stores first. */
  function Nested(addr: seq<byte>, p: seq<byte>, q: seq<byte>): seq<Action> {
    [Begin(1, V6(addr), p), Begin(2, V6(addr), q)] + ([Remember(2), Remember(1)] + [])
  }

  lemma NestedRun(ks: Keystream, cat: Catalog, addr: seq<byte>, p: seq<byte>, q: seq<byte>, e: Entry, e': Entry)
    requires cat.Valid() && ToStore(ExtractDc(ks, p)) == Some(e) && ToStore(ExtractDc(ks, q)) == Some(e')
    ensures Runs(ks, cat, START, Nested(addr, p, q))
    ensures var s := Exec(ks, cat, START, Nested(addr, p, q));
      s.inflight == map[] && Get(s.cache, addr) == Some(e) && Get(s.latest, addr) == Some(e')
  {
    var h := V6(addr);
    BeginEffect(ks, cat, START, 1, h, addr, p);
    var s1 := Next(ks, cat, START, Begin(1, h, p));
    BeginEffect(ks, cat, s1, 2, h, addr, q);
    var s2 := Next(ks, cat, s1, Begin(2, h, q));
    RememberEffect(ks, cat, s2, 2, addr);
    RememberEffect(ks, cat, Next(ks, cat, s2, Remember(2)), 1, addr);
    ExecPair(ks, cat, s2, Remember(2), Remember(1), []);
    ExecPair(ks, cat, START, Begin(1, h, p), Begin(2, h, q), [Remember(2), Remember(1)] + []);
  }

  lemma CraftedEntry(ks: Keystream, e: Entry)
    requires e.Valid()
    ensures ToStore(ExtractDc(ks, Crafted(ks, e.Signed()))) == Some(e)
  {
    EntryInfo(e);
    CraftedReads(ks, e.Signed());
  }

  /** But last come, first stored is not: for any two entries, the one extracted first is left. */
  lemma NestedFirstOverlapStale(ks: Keystream, cat: Catalog, addr: seq<byte>, e: Entry, e': Entry)
    requires cat.Valid() && e.Valid() && e'.Valid()
    ensures var acts := Nested(addr, Crafted(ks, e.Signed()), Crafted(ks, e'.Signed()));
      Runs(ks, cat, START, acts) &&
      var s := Exec(ks, cat, START, acts);
      s.inflight == map[] && Get(s.cache, addr) == Some(e) && Get(s.latest, addr) == Some(e')
  {
    CraftedEntry(ks, e);
    CraftedEntry(ks, e');
    NestedRun(ks, cat, addr, Crafted(ks, e.Signed()), Crafted(ks, e'.Signed()), e, e');
  }
}
