/**
 One client connection from its first byte (src/modules/routing.rs, route_client): handshake, init
 packet, resolution, and the way its bytes then take.
 */
module EndToEnd {
  import opened Bytes
  import opened Frames
  import opened Downstream
  import opened Splitter
  import opened Init
  import opened Hosts
  import opened Accounts
  import opened Ipv6Cache
  import opened Relay
  import opened RelayGuarantees
  import opened RelaySplitting
  import B = Backoff
  import S = Socks

  /** Everything the routing decision depends on besides the client's bytes. */
  datatype Env = Env(ks: Keystream, catalog: Catalog, auth: Option<seq<User<byte>>>, utf8: S.Utf8, learned: Learned) {
    ghost predicate Valid() {
      catalog.Valid() && forall ip | ip in learned :: learned[ip].Valid()
    }
  }

  /** Where a connection goes, with the bytes that will be forwarded. */
  datatype Route =
    | Refused(error: S.Error)
    | Passthrough(target: S.Target, bytes: seq<byte>)
    | NoInit
    | HttpRejected
    | UnknownDcClosed
    | UnknownDcPassthrough(target: S.Target, prelude: seq<byte>, rest: seq<byte>)
    | WebSocket(key: B.Key, packet: seq<byte>, rest: seq<byte>)

  function RouteTelegram(env: Env, target: S.Target, s: seq<byte>): Route {
    if |s| < 64 then NoInit
    else
      var r := ResolveWith(env.ks, env.catalog, env.learned, target.host, s[..64]);
      if IsHttpTransport(r.packet) then HttpRejected
      else match r.info.dc
        case Some(dc) => WebSocket((dc, r.info.media), r.packet, s[64..])
        case None => if IsIpv6(target.host) then UnknownDcPassthrough(target, r.packet, s[64..]) else UnknownDcClosed
  }

  function RouteOf(env: Env, input: seq<byte>): Route {
    match S.Handshake(input, env.auth, env.utf8)
    case Stop(e, _, _) => Refused(e)
    case Done(target, rest, _) =>
      if env.catalog.isTelegram(target.host) then RouteTelegram(env, target, rest) else Passthrough(target, rest)
  }

  /** What the connection leaves in the learned map. */
  function LearnedAfter(env: Env, input: seq<byte>): Learned {
    match S.Handshake(input, env.auth, env.utf8)
    case Stop(_, _, _) => env.learned
    case Done(t, rest, _) =>
      if !env.catalog.isTelegram(t.host) || |rest| < 64 then env.learned
      else
        var r := ResolveWith(env.ks, env.catalog, env.learned, t.host, rest[..64]);
        Stored(env.catalog, env.learned, t.host, r.info)
  }

  // -------- the same as the source runs it --------

  datatype Bridge = Routed(route: Route) | CoolingDownClosed | DisabledClosed | Unavailable | Bridged(packet: seq<byte>)

  method SelectRoute(socket: Socket, cache: Cache, ghost env: Env, ks: Keystream,
      auth: Option<seq<User<byte>>>, utf8: S.Utf8) returns (route: Route)
    requires env == Env(ks, cache.catalog, auth, utf8, cache.entries)
    modifies socket, cache
    ensures route == RouteOf(env, old(socket.input))
    ensures cache.entries == LearnedAfter(env, old(socket.input))
    ensures route.WebSocket? ==> socket.input == route.rest
  {
    var cmd := S.HandleSocks5Handshake(socket, auth, utf8);
    if cmd.Err? {
      return Refused(cmd.error);
    }
    var target := cmd.value;
    if !cache.catalog.isTelegram(target.host) {
      return Passthrough(target, socket.input);
    }
    var init := socket.ReadExact(64);
    if init.None? {
      return NoInit;
    }
    var resolved := cache.ResolveTelegramInit(ks, target.host, init.value);
    cache.RememberTelegramIpv6(target.host, resolved.info);
    if IsHttpTransport(resolved.packet) {
      return HttpRejected;
    }
    if resolved.info.dc.None? {
      if IsIpv6(target.host) {
        return UnknownDcPassthrough(target, resolved.packet, socket.input);
      }
      return UnknownDcClosed;
    }
    route := WebSocket((resolved.info.dc.value, resolved.info.media), resolved.packet, socket.input);
  }

  /** `outcomes` are the answers the WebSocket domains would give, `now` the clock. */
  method RouteClient(socket: Socket, cache: Cache, backoff: B.WsBackoff, ghost env: Env, ks: Keystream,
      auth: Option<seq<User<byte>>>, utf8: S.Utf8, now: B.Time, outcomes: seq<B.Outcome>)
    returns (r: Bridge, splitter: MtProtoMessageSplitter?)
    requires env == Env(ks, cache.catalog, auth, utf8, cache.entries)
    modifies socket, cache, backoff
    ensures cache.entries == LearnedAfter(env, old(socket.input))
    ensures var route := RouteOf(env, old(socket.input)); var states := old(backoff.states);
      if !route.WebSocket? then r == Routed(route) && backoff.states == states
      else
        var d, v := B.Decide(states, route.key, now), B.VerdictOf(outcomes);
        var begun := B.Begun(states, route.key, now);
        && ((d == B.ProbeNow || d == B.ProbeInFlight) && B.Connected in outcomes ==> r == Bridged(route.packet))
        && ((d == B.ProbeNow || d == B.ProbeInFlight) && B.Connected !in outcomes ==> r == Unavailable)
        && (r == CoolingDownClosed <==> d.CoolingDown?)
        && (r == DisabledClosed <==> d.Disabled?)
        && (!B.Starts(d) ==> backoff.states == begun)
        && (B.Starts(d) ==> backoff.states == B.Finished(begun, route.key, now, v))
        && (B.Starts(d) ==> r == if v.Success? then Bridged(route.packet) else Unavailable)
        && (r.Bridged? ==> socket.input == route.rest)
        && (r.Bridged? ==> MtProtoMessageSplitter.Built(splitter, NewSplitter(ks, route.packet)))
  {
    splitter := null;
    var route := SelectRoute(socket, cache, env, ks, auth, utf8);
    if !route.WebSocket? {
      return Routed(route), splitter;
    }
    var d, connected := B.AttemptWs(backoff, route.key, now, outcomes);
    match d
    case CoolingDown => return CoolingDownClosed, splitter;
    case Disabled => return DisabledClosed, splitter;
    case _ =>
      if !connected {
        return Unavailable, splitter;
      }
      splitter := MtProtoMessageSplitter.New(ks, route.packet);
      return Bridged(route.packet), splitter;
  }

  // -------- the guarantees --------

  /** What is known of a target besides its init: the learned entry, or else the static table's. */
  function KnownFor(env: Env, host: Host): Option<Entry> {
    OrElse(Lookup(env.catalog, env.learned, host), env.catalog.ipToDc(host))
  }

  lemma KnownValid(env: Env, host: Host)
    requires env.Valid()
    ensures KnownFor(env, host).Some? ==> KnownFor(env, host).value.Valid()
  {
  }

  /** Two byte strings that agree everywhere but possibly at the two encrypted data-centre bytes of the init. */
  ghost predicate AgreeButDc(a: seq<byte>, b: seq<byte>) {
    |a| == |b| && forall i | 0 <= i < |a| && i != 60 && i != 61 :: a[i] == b[i]
  }

  /** What a route says of the bytes the client sent behind its handshake for `target`. */
  ghost predicate Keeps(env: Env, target: S.Target, client: seq<byte>, route: Route) {
    match route
    case Passthrough(t, bytes) => !env.catalog.isTelegram(target.host) && t == target && bytes == client
    case NoInit => env.catalog.isTelegram(target.host) && |client| < 64
    case HttpRejected => env.catalog.isTelegram(target.host) && |client| >= 64 && LooksLikeHttp(client)
    case UnknownDcPassthrough(t, prelude, rest) =>
      && Carried(env, target, client) && DcUnknown(env, target, client) && HasColon(target.host)
      && t == target && |prelude| == 64 && prelude + rest == client
    case UnknownDcClosed => Carried(env, target, client) && DcUnknown(env, target, client) && !HasColon(target.host)
    case WebSocket(key, packet, rest) =>
      && Carried(env, target, client) && |packet| == 64 && 1 <= key.0 <= 5 && AgreeButDc(packet + rest, client)
      && CipherOf(env.ks, packet) == CipherOf(env.ks, client)
      && (match ExtractDc(env.ks, client[..64]).dc
          case Some(dc) => key == (dc, ExtractDc(env.ks, client[..64]).media) && packet + rest == client
          case None =>
            && KnownFor(env, target.host) == Some(Entry(key.0, key.1))
            && packet == Patch(env.ks, client[..64], if key.1 then -(key.0 as int) else key.0 as int)
            && rest == client[64..])
    case Refused(_) => false
  }

  /** The client's own bytes begin with one of the four methods: "POST ", "GET ", "HEAD " or "OPTIONS ". */
  predicate LooksLikeHttp(s: seq<byte>) {
    || [80, 79, 83, 84, 32] <= s || [71, 69, 84, 32] <= s || [72, 69, 65, 68, 32] <= s
    || [79, 80, 84, 73, 79, 78, 83, 32] <= s
  }

  /** A whole init that is not HTTP, for a Telegram target. */
  ghost predicate Carried(env: Env, target: S.Target, client: seq<byte>) {
    env.catalog.isTelegram(target.host) && |client| >= 64 && !LooksLikeHttp(client)
  }

  ghost predicate DcUnknown(env: Env, target: S.Target, client: seq<byte>)
    requires |client| >= 64
  {
    ExtractDc(env.ks, client[..64]).dc == None && KnownFor(env, target.host) == None
  }

  /** An IPv6 address, or a name with a colon in it. */
  predicate HasColon(h: Host) {
    h.V6? || (h.Domain? && 58 in h.name)
  }

  lemma HttpPrefixes(s: seq<byte>)
    ensures IsHttpTransport(s) <==> LooksLikeHttp(s)
  {
  }

  /** The learned entry for the address the text spells, or else the static table's. */
  lemma KnownTable(env: Env, host: Host, ip: seq<byte>)
    ensures env.catalog.parse6(host) == Some(ip) && ip in env.learned ==> KnownFor(env, host) == Some(env.learned[ip])
    ensures env.catalog.parse6(host) == Some(ip) && ip !in env.learned ==> KnownFor(env, host) == env.catalog.ipToDc(host)
    ensures env.catalog.parse6(host) == None ==> KnownFor(env, host) == env.catalog.ipToDc(host)
  {
  }

  /** What the routing keeps of the client's bytes behind the handshake, on every route that forwards them. */
  lemma RouteKeepsBytes(env: Env, input: seq<byte>) returns (h: S.Hello)
    requires env.Valid() && !RouteOf(env, input).Refused?
    ensures S.Admissible(h, env.auth, env.utf8) && S.EncodeHello(h) <= input
    ensures Keeps(env, h.target, input[|S.EncodeHello(h)|..], RouteOf(env, input))
  {
    h := S.HandshakeOnlyUnderstands(input, env.auth, env.utf8);
    var client := S.Handshake(input, env.auth, env.utf8).rest;
    assert input[|S.EncodeHello(h)|..] == client;
    if env.catalog.isTelegram(h.target.host) && |client| >= 64 {
      RouteTelegramKeeps(env, h.target, client);
    }
  }

  lemma RouteTelegramKeeps(env: Env, target: S.Target, client: seq<byte>)
    requires env.Valid() && |client| >= 64 && env.catalog.isTelegram(target.host)
    ensures Keeps(env, target, client, RouteTelegram(env, target, client))
  {
    var init := client[..64];
    var known := KnownFor(env, target.host);
    KnownValid(env, target.host);
    ResolveKeepsPacket(env.ks, init, known);
    ResolveKeepsHttpVerdict(env.ks, init, known);
    PrefixHttp(client);
    HttpPrefixes(init);
    assert init + client[64..] == client;
    assert init[8..40] == client[8..40] && init[40..56] == client[40..56];
  }

  lemma PrefixHttp(client: seq<byte>)
    requires |client| >= 64
    ensures LooksLikeHttp(client[..64]) <==> LooksLikeHttp(client)
  {
    assert forall m: seq<byte> | |m| <= 64 :: m <= client[..64] <==> m <= client;
  }

  lemma InitDecides(env: Env, target: S.Target, packet: seq<byte>, rest: seq<byte>)
    requires |packet| == 64 && ExtractDc(env.ks, packet).dc.Some? && !IsHttpTransport(packet)
    ensures var info := ExtractDc(env.ks, packet);
      RouteTelegram(env, target, packet + rest) == WebSocket((info.dc.value, info.media), packet, rest)
  {
    assert (packet + rest)[..64] == packet && (packet + rest)[64..] == rest;
  }

  /**
   Conversely, every admissible client that connects to Telegram and sends an init naming a known
   data centre is routed to the WebSocket under that key, with its packet and the rest untouched.
   */
  lemma KnownInitRoutes(env: Env, h: S.Hello, packet: seq<byte>, rest: seq<byte>)
    requires S.Admissible(h, env.auth, env.utf8) && env.catalog.isTelegram(h.target.host)
    requires |packet| == 64 && ExtractDc(env.ks, packet).dc.Some? && !IsHttpTransport(packet)
    ensures var info := ExtractDc(env.ks, packet);
      RouteOf(env, S.EncodeHello(h) + (packet + rest)) == WebSocket((info.dc.value, info.media), packet, rest)
  {
    S.HandshakeUnderstands(h, packet + rest, env.auth, env.utf8);
    InitDecides(env, h.target, packet, rest);
  }

  /** The input is an admissible client's, aimed at Telegram, with an init that is not HTTP and whose data centre is known. */
  ghost predicate Qualifies(env: Env, input: seq<byte>, h: S.Hello, packet: seq<byte>, rest: seq<byte>) {
    && S.Admissible(h, env.auth, env.utf8) && env.catalog.isTelegram(h.target.host)
    && input == S.EncodeHello(h) + (packet + rest) && |packet| == 64 && !IsHttpTransport(packet)
    && (ExtractDc(env.ks, packet).dc.Some? || KnownFor(env, h.target.host).Some?)
  }

  lemma TargetDecides(env: Env, target: S.Target, packet: seq<byte>, rest: seq<byte>)
    requires env.Valid() && |packet| == 64 && !IsHttpTransport(packet)
    requires ExtractDc(env.ks, packet).dc.Some? || KnownFor(env, target.host).Some?
    ensures RouteTelegram(env, target, packet + rest).WebSocket?
  {
    assert (packet + rest)[..64] == packet && (packet + rest)[64..] == rest;
    KnownValid(env, target.host);
    ResolveKeepsHttpVerdict(env.ks, packet, KnownFor(env, target.host));
  }

  lemma QualifiedRoutes(env: Env, input: seq<byte>, h: S.Hello, packet: seq<byte>, rest: seq<byte>)
    requires env.Valid() && Qualifies(env, input, h, packet, rest)
    ensures RouteOf(env, input).WebSocket?
  {
    S.HandshakeUnderstands(h, packet + rest, env.auth, env.utf8);
    TargetDecides(env, h.target, packet, rest);
  }

  lemma RoutedQualifies(env: Env, input: seq<byte>) returns (h: S.Hello, packet: seq<byte>, rest: seq<byte>)
    requires env.Valid() && RouteOf(env, input).WebSocket?
    ensures Qualifies(env, input, h, packet, rest)
  {
    h := S.HandshakeOnlyUnderstands(input, env.auth, env.utf8);
    var client := S.Handshake(input, env.auth, env.utf8).rest;
    TelegramQualifies(env, h.target, client);
    packet, rest := client[..64], client[64..];
    Halves(client, packet, rest);
  }

  lemma Halves(client: seq<byte>, packet: seq<byte>, rest: seq<byte>)
    requires |client| >= 64 && packet == client[..64] && rest == client[64..]
    ensures client == packet + rest && |packet| == 64
  {
  }

  lemma TelegramQualifies(env: Env, target: S.Target, client: seq<byte>)
    requires env.Valid() && RouteTelegram(env, target, client).WebSocket?
    ensures |client| >= 64 && !IsHttpTransport(client[..64])
    ensures ExtractDc(env.ks, client[..64]).dc.Some? || KnownFor(env, target.host).Some?
  {
    KnownValid(env, target.host);
    ResolveKeepsHttpVerdict(env.ks, client[..64], KnownFor(env, target.host));
  }

  /** Exactly those inputs are carried over the WebSocket, the backoff permitting. */
  lemma WebSocketIff(env: Env, input: seq<byte>)
    requires env.Valid()
    ensures RouteOf(env, input).WebSocket? <==> exists h, packet, rest :: Qualifies(env, input, h, packet, rest)
  {
    if RouteOf(env, input).WebSocket? {
      var h, packet, rest := RoutedQualifies(env, input);
    }
    if exists h, packet, rest :: Qualifies(env, input, h, packet, rest) {
      var h, packet, rest :| Qualifies(env, input, h, packet, rest);
      QualifiedRoutes(env, input, h, packet, rest);
    }
  }

  /** A client of an IPv6 target whose init names a data centre leaves that under the address, and nothing else changes. */
  lemma InitIsLearned(env: Env, h: S.Hello, packet: seq<byte>, rest: seq<byte>, ip: seq<byte>, e: Entry)
    requires env.Valid() && S.Admissible(h, env.auth, env.utf8) && env.catalog.isTelegram(h.target.host)
    requires env.catalog.parse6(h.target.host) == Some(ip) && |packet| == 64
    requires ExtractDc(env.ks, packet) == InitInfo(Some(e.dc), e.media)
    ensures LearnedAfter(env, S.EncodeHello(h) + (packet + rest)) == env.learned[ip := e]
  {
    S.HandshakeUnderstands(h, packet + rest, env.auth, env.utf8);
    assert (packet + rest)[..64] == packet;
  }

  /** One connection by itself does to the map what a session's two steps do. */
  lemma LearnedBySession(env: Env, h: S.Hello, packet: seq<byte>, rest: seq<byte>, s: Ipv6Cache.State, id: nat)
    requires S.Admissible(h, env.auth, env.utf8) && env.catalog.isTelegram(h.target.host) && |packet| == 64
    requires s.cache == env.learned && id !in s.inflight
    ensures var begun := Ipv6Cache.Next(env.ks, env.catalog, s, Ipv6Cache.Begin(id, h.target.host, packet));
      Ipv6Cache.Next(env.ks, env.catalog, begun, Ipv6Cache.Remember(id)).cache ==
        LearnedAfter(env, S.EncodeHello(h) + (packet + rest))
  {
    S.HandshakeUnderstands(h, packet + rest, env.auth, env.utf8);
    assert (packet + rest)[..64] == packet;
  }

  /** What a connection leaves behind is fit for the next one. */
  lemma LearnedStaysValid(env: Env, input: seq<byte>)
    requires env.Valid()
    ensures env.(learned := LearnedAfter(env, input)).Valid()
  {
    var h := S.Handshake(input, env.auth, env.utf8);
    if h.Done? && |h.rest| >= 64 {
      KnownValid(env, h.value.host);
      ResolveKeepsPacket(env.ks, h.rest[..64], KnownFor(env, h.value.host));
    }
  }

  /** A peer that has decoded `d` has the client's bytes in order, none lost or repeated, up to the two patched ones. */
  lemma PrefixAgrees(d: seq<byte>, sent: seq<byte>, client: seq<byte>)
    requires d <= sent && AgreeButDc(sent, client)
    ensures |d| <= |client| && AgreeButDc(d, client[..|d|])
  {
  }

  /**
   End to end: for every client byte stream routed to the WebSocket, every server behaviour and
   every interleaving of the relay, the peer's data is the client's stream behind the handshake,
   in order, differing at most at indices 60 and 61, and not even there when the init names its own
   data centre; after a clean close it is all of it. The
   splitter in use is the one the client's own init defines.
   */
  lemma PeerGetsClientBytes(env: Env, input: seq<byte>, server: seq<byte>, s: Relay.State) returns (h: S.Hello)
    requires env.Valid() && RouteOf(env, input).WebSocket?
    requires var r := RouteOf(env, input);
      Reached(SourceConfig(r.packet, r.rest, server, NewSplitter(env.ks, r.packet)), s)
    ensures S.Admissible(h, env.auth, env.utf8) && S.EncodeHello(h) <= input
    ensures var client, peer := input[|S.EncodeHello(h)|..], FlatMap(DataOf, FramesIn(s.wire));
      && |client| >= 64
      && |peer| <= |client| && AgreeButDc(peer, client[..|peer|])
      && (s.up.UpClosed? ==> |peer| == |client|)
      && (ExtractDc(env.ks, client[..64]).dc.Some? ==> peer <= client)
      && NewSplitter(env.ks, RouteOf(env, input).packet) == Some(CipherOf(env.ks, client))
  {
    h := RouteKeepsBytes(env, input);
    var r := RouteOf(env, input);
    var client, peer := input[|S.EncodeHello(h)|..], FlatMap(DataOf, FramesIn(s.wire));
    var cfg := SourceConfig(r.packet, r.rest, server, NewSplitter(env.ks, r.packet));
    assert Source(cfg);
    UpstreamInOrder(cfg, s);
    PrefixAgrees(peer, r.packet + r.rest, client);
  }

  /**
   And frame by frame: when the client's bytes behind its init are messages under its own cipher, the
   peer's data frames after a clean close are the init and the messages, one each, if and only if no
   read started or ended inside a message.
   */
  lemma PeerGetsMessages(env: Env, input: seq<byte>, server: seq<byte>, s: Relay.State, h: S.Hello, client: seq<byte>,
      ms: seq<Message>)
    requires env.Valid() && RouteOf(env, input).WebSocket?
    requires S.Admissible(h, env.auth, env.utf8) && input == S.EncodeHello(h) + client && |client| >= 64
    requires AllWellFormed(ms) && client[64..] == Crypt(CipherOf(env.ks, client), 64, Join(Wires(ms)))
    requires var r := RouteOf(env, input);
      Reached(SourceConfig(r.packet, r.rest, server, NewSplitter(env.ks, r.packet)), s) && s.up.UpClosed?
    ensures var c := CipherOf(env.ks, client);
      DataFrames(s) == [RouteOf(env, input).packet] + Sealed(c, 64, Wires(ms)) <==> OnBoundaries(c, 64, ms, Reads(s))
    ensures AgreeButDc(RouteOf(env, input).packet, client[..64])
  {
    S.HandshakeUnderstands(h, client, env.auth, env.utf8);
    RouteTelegramKeeps(env, h.target, client);
    var r := RouteOf(env, input);
    RestIsBehind(r.packet, r.rest, client);
    FramesAreMessages(r.packet, r.rest, server, CipherOf(env.ks, client), ms, s);
  }

  lemma RestIsBehind(packet: seq<byte>, rest: seq<byte>, client: seq<byte>)
    requires |packet| == 64 && AgreeButDc(packet + rest, client)
    ensures rest == client[64..] && AgreeButDc(packet, client[..64])
  {
    var both := packet + rest;
    assert forall i | 0 <= i < |rest| :: rest[i] == both[64 + i];
    assert forall i | 0 <= i < 64 :: packet[i] == both[i];
  }
}
