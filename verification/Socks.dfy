/**
 The SOCKS5 handshake (src/modules/socks.rs): method selection (section 3 of RFC 1928), optional
 username and password (section 2 of RFC 1929), and the CONNECT request (section 4 of RFC 1928).
 Text stays as bytes; `utf8` says which byte strings decode.
 */
module Socks {
  import opened Bytes
  import opened Hosts
  import opened Accounts

  type Utf8 = seq<byte> -> bool

  datatype Error =
    | UnsupportedVersion | NoAcceptableMethod | AuthenticationFailed | UnsupportedCommand
    | UnsupportedAddressType | Io | ParseError

  /** How one stage of the handshake ends: the value it read, the input it left, the replies it wrote. */
  datatype Stage<+T> =
    | Done(value: T, rest: seq<byte>, replies: seq<Reply>)
    | Stop(error: Error, rest: seq<byte>, replies: seq<Reply>)

  datatype Target = Target(host: Host, port: nat)

  datatype Reply = MethodSelected(m: byte) | NoMethods | Authenticated | NotAuthenticated | CommandRejected | Succeeded

  /** The replies as they are written. */
  function ReplyBytes(r: Reply): seq<byte> {
    match r
    case MethodSelected(m) => [5, m]
    case NoMethods => [5, 255]
    case Authenticated => [1, 0]
    case NotAuthenticated => [1, 1]
    case CommandRejected => [5, 7, 0, 1, 0, 0, 0, 0, 0, 0]
    case Succeeded => [5, 0, 0, 1, 0, 0, 0, 0, 0, 0]
  }

  function Selected(auth: Option<seq<User<byte>>>): byte {
    if auth.Some? then 2 else 0
  }

  // -------- the stages, in closed form --------

  function Greeting(s: seq<byte>, auth: Option<seq<User<byte>>>): Stage<()> {
    if |s| < 2 then Stop(Io, [], [])
    else if s[0] != 5 then Stop(UnsupportedVersion, s[2..], [])
    else if |s| - 2 < s[1] then Stop(Io, [], [])
    else if Selected(auth) !in s[2..2 + s[1]] then Stop(NoAcceptableMethod, s[2 + s[1]..], [NoMethods])
    else Done((), s[2 + s[1]..], [MethodSelected(Selected(auth))])
  }

  /** A length byte and that many bytes of text. */
  function Field(s: seq<byte>, utf8: Utf8): Stage<seq<byte>> {
    if |s| < 1 || |s| - 1 < s[0] then Stop(Io, [], [])
    else if !utf8(s[1..1 + s[0]]) then Stop(ParseError, s[1 + s[0]..], [])
    else Done(s[1..1 + s[0]], s[1 + s[0]..], [])
  }

  function Authenticate(s: seq<byte>, users: seq<User<byte>>, utf8: Utf8): Stage<()> {
    if |s| < 1 then Stop(Io, [], [])
    else if s[0] != 1 then Stop(AuthenticationFailed, s[1..], [NotAuthenticated])
    else
      match Field(s[1..], utf8)
      case Stop(e, rest, w) => Stop(e, rest, w)
      case Done(username, rest, _) =>
        match Field(rest, utf8)
        case Stop(e, rest', w) => Stop(e, rest', w)
        case Done(password, rest', _) =>
          if User(username, password) in users then Done((), rest', [Authenticated])
          else Stop(AuthenticationFailed, rest', [NotAuthenticated])
  }

  function Address(s: seq<byte>, atyp: byte, utf8: Utf8): Stage<Host> {
    if atyp == 1 then
      if |s| < 4 then Stop(Io, [], []) else Done(V4(s[..4]), s[4..], [])
    else if atyp == 3 then
      match Field(s, utf8)
      case Stop(e, rest, w) => Stop(e, rest, w)
      case Done(name, rest, w) => Done(Domain(name), rest, w)
    else if atyp == 4 then
      if |s| < 16 then Stop(Io, [], []) else Done(V6(s[..16]), s[16..], [])
    else Stop(UnsupportedAddressType, s, [])
  }

  function Request(s: seq<byte>, utf8: Utf8): Stage<Target> {
    if |s| < 4 then Stop(Io, [], [])
    else if s[0] != 5 || s[1] != 1 || s[2] != 0 then Stop(UnsupportedCommand, s[4..], [CommandRejected])
    else
      match Address(s[4..], s[3], utf8)
      case Stop(e, rest, w) => Stop(e, rest, w)
      case Done(host, rest, _) =>
        if |rest| < 2 then Stop(Io, [], [])
        else Done(Target(host, FromBigEndian(rest[..2])), rest[2..], [Succeeded])
  }

  function Login(s: seq<byte>, auth: Option<seq<User<byte>>>, utf8: Utf8): Stage<()> {
    match auth
    case None => Done((), s, [])
    case Some(users) => Authenticate(s, users, utf8)
  }

  /** One stage, then the next on what it left: the first that stops decides, and replies add up. */
  function Then<A, B>(first: Stage<A>, next: Stage<B>): Stage<B> {
    match first
    case Stop(e, rest, w) => Stop(e, rest, w)
    case Done(_, _, w) => next.(replies := w + next.replies)
  }

  /** Method selection and, if configured, the login. */
  function Opening(s: seq<byte>, auth: Option<seq<User<byte>>>, utf8: Utf8): Stage<()> {
    var g := Greeting(s, auth);
    Then(g, Login(g.rest, auth, utf8))
  }

  function Handshake(s: seq<byte>, auth: Option<seq<User<byte>>>, utf8: Utf8): Stage<Target> {
    var o := Opening(s, auth, utf8);
    Then(o, Request(o.rest, utf8))
  }

  // -------- the reference: what a client sends --------

  datatype Hello = Hello(methods: seq<byte>, credentials: Option<User<byte>>, target: Target)

  ghost predicate ValidField(f: seq<byte>, utf8: Utf8) {
    |f| <= 255 && utf8(f)
  }

  ghost predicate ValidHost(h: Host, utf8: Utf8) {
    match h
    case V4(a) => |a| == 4
    case V6(a) => |a| == 16
    case Domain(name) => ValidField(name, utf8)
  }

  /** A client that offers the method the proxy wants and, if asked, presents a configured user. */
  ghost predicate Admissible(h: Hello, auth: Option<seq<User<byte>>>, utf8: Utf8) {
    && |h.methods| <= 255 && Selected(auth) in h.methods
    && (h.credentials.Some? <==> auth.Some?)
    && (auth.Some? ==>
          && h.credentials.value in auth.value
          && ValidField(h.credentials.value.username, utf8)
          && ValidField(h.credentials.value.password, utf8))
    && ValidHost(h.target.host, utf8)
    && h.target.port < 65536
  }

  function EncodeField(f: seq<byte>): seq<byte> {
    [|f| % 256] + f
  }

  function EncodeCredentials(u: User<byte>): seq<byte> {
    [1] + EncodeField(u.username) + EncodeField(u.password)
  }

  function EncodeHost(h: Host): seq<byte> {
    match h
    case V4(a) => a
    case V6(a) => a
    case Domain(name) => EncodeField(name)
  }

  function AddressType(h: Host): byte {
    match h
    case V4(_) => 1
    case Domain(_) => 3
    case V6(_) => 4
  }

  function EncodeTarget(t: Target): seq<byte> {
    [5, 1, 0, AddressType(t.host)] + EncodeHost(t.host) + BigEndian(t.port, 2)
  }

  function EncodeMethods(methods: seq<byte>): seq<byte> {
    [5, |methods| % 256] + methods
  }

  function EncodeLogin(h: Hello): seq<byte> {
    if h.credentials.Some? then EncodeCredentials(h.credentials.value) else []
  }

  function EncodeOpening(h: Hello): seq<byte> {
    EncodeMethods(h.methods) + EncodeLogin(h)
  }

  function EncodeHello(h: Hello): seq<byte> {
    EncodeOpening(h) + EncodeTarget(h.target)
  }

  function OpeningReplies(auth: Option<seq<User<byte>>>): seq<Reply> {
    [MethodSelected(Selected(auth))] + if auth.Some? then [Authenticated] else []
  }

  function ExpectedReplies(auth: Option<seq<User<byte>>>): seq<Reply> {
    OpeningReplies(auth) + [Succeeded]
  }

  // -------- every admissible client is understood --------

  lemma FieldEncoded(f: seq<byte>, rest: seq<byte>, utf8: Utf8)
    requires ValidField(f, utf8)
    ensures Field(EncodeField(f) + rest, utf8) == Done(f, rest, [])
  {
    var s := EncodeField(f) + rest;
    assert s[1..1 + |f|] == f && s[1 + |f|..] == rest;
  }

  lemma GreetingEncoded(methods: seq<byte>, rest: seq<byte>, auth: Option<seq<User<byte>>>)
    requires |methods| <= 255 && Selected(auth) in methods
    ensures Greeting(EncodeMethods(methods) + rest, auth) == Done((), rest, [MethodSelected(Selected(auth))])
  {
    var s := EncodeMethods(methods) + rest;
    assert s[2..2 + |methods|] == methods && s[2 + |methods|..] == rest;
  }

  lemma CredentialsEncoded(u: User<byte>, rest: seq<byte>, users: seq<User<byte>>, utf8: Utf8)
    requires u in users && ValidField(u.username, utf8) && ValidField(u.password, utf8)
    ensures Authenticate(EncodeCredentials(u) + rest, users, utf8) == Done((), rest, [Authenticated])
  {
    var s := EncodeCredentials(u) + rest;
    assert s[1..] == EncodeField(u.username) + (EncodeField(u.password) + rest);
    FieldEncoded(u.username, EncodeField(u.password) + rest, utf8);
    FieldEncoded(u.password, rest, utf8);
  }

  lemma HostEncoded(h: Host, rest: seq<byte>, utf8: Utf8)
    requires ValidHost(h, utf8)
    ensures Address(EncodeHost(h) + rest, AddressType(h), utf8) == Done(h, rest, [])
  {
    if h.Domain? {
      FieldEncoded(h.name, rest, utf8);
    } else {
      var s := EncodeHost(h) + rest;
      assert s[..|h.addr|] == h.addr && s[|h.addr|..] == rest;
    }
  }

  lemma TargetEncoded(t: Target, rest: seq<byte>, utf8: Utf8)
    requires ValidHost(t.host, utf8) && t.port < 65536
    ensures Request(EncodeTarget(t) + rest, utf8) == Done(t, rest, [Succeeded])
  {
    var port := BigEndian(t.port, 2);
    var s := EncodeTarget(t) + rest;
    assert s[4..] == EncodeHost(t.host) + (port + rest);
    HostEncoded(t.host, port + rest, utf8);
    assert (port + rest)[..2] == port && (port + rest)[2..] == rest;
    assert Pow256(2) == 65536;
    BigEndianRoundTrip(t.port, 2);
  }

  lemma LoginEncoded(h: Hello, rest: seq<byte>, auth: Option<seq<User<byte>>>, utf8: Utf8)
    requires Admissible(h, auth, utf8)
    ensures Login(EncodeLogin(h) + rest, auth, utf8) ==
      Done((), rest, if auth.Some? then [Authenticated] else [])
  {
    if auth.Some? {
      CredentialsEncoded(h.credentials.value, rest, auth.value, utf8);
    } else {
      assert EncodeLogin(h) + rest == rest;
    }
  }

  lemma OpeningEncoded(h: Hello, rest: seq<byte>, auth: Option<seq<User<byte>>>, utf8: Utf8)
    requires Admissible(h, auth, utf8)
    ensures Opening(EncodeOpening(h) + rest, auth, utf8) == Done((), rest, OpeningReplies(auth))
  {
    var login := EncodeLogin(h) + rest;
    AppendAssoc(EncodeMethods(h.methods), EncodeLogin(h), rest);
    GreetingEncoded(h.methods, login, auth);
    LoginEncoded(h, rest, auth, utf8);
  }

  /** The handshake recovers exactly the target, consumes exactly the client's encoding, and replies as it should. */
  lemma HandshakeUnderstands(h: Hello, rest: seq<byte>, auth: Option<seq<User<byte>>>, utf8: Utf8)
    requires Admissible(h, auth, utf8)
    ensures Handshake(EncodeHello(h) + rest, auth, utf8) == Done(h.target, rest, ExpectedReplies(auth))
  {
    var target := EncodeTarget(h.target) + rest;
    AppendAssoc(EncodeOpening(h), EncodeTarget(h.target), rest);
    OpeningEncoded(h, target, auth, utf8);
    TargetEncoded(h.target, rest, utf8);
  }

  // -------- and nothing else is --------

  lemma FieldDecoded(s: seq<byte>, utf8: Utf8)
    requires Field(s, utf8).Done?
    ensures ValidField(Field(s, utf8).value, utf8) && s == EncodeField(Field(s, utf8).value) + Field(s, utf8).rest
  {
  }

  lemma CredentialsDecoded(s: seq<byte>, users: seq<User<byte>>, utf8: Utf8) returns (u: User<byte>)
    requires Authenticate(s, users, utf8).Done?
    ensures u in users && ValidField(u.username, utf8) && ValidField(u.password, utf8)
    ensures s == EncodeCredentials(u) + Authenticate(s, users, utf8).rest
    ensures Authenticate(s, users, utf8).replies == [Authenticated]
  {
    var f := Field(s[1..], utf8);
    FieldDecoded(s[1..], utf8);
    FieldDecoded(f.rest, utf8);
    var g := Field(f.rest, utf8);
    u := User(f.value, g.value);
    assert s == [1] + s[1..];
    Reassociate([1], EncodeField(u.username), EncodeField(u.password), g.rest);
  }

  lemma HostDecoded(s: seq<byte>, atyp: byte, utf8: Utf8)
    requires Address(s, atyp, utf8).Done?
    ensures var r := Address(s, atyp, utf8);
      ValidHost(r.value, utf8) && AddressType(r.value) == atyp && s == EncodeHost(r.value) + r.rest
  {
    if atyp == 3 {
      FieldDecoded(s, utf8);
    }
  }

  lemma TargetDecoded(s: seq<byte>, utf8: Utf8)
    requires Request(s, utf8).Done?
    ensures var r := Request(s, utf8);
      && ValidHost(r.value.host, utf8) && r.value.port < 65536
      && s == EncodeTarget(r.value) + r.rest && r.replies == [Succeeded]
  {
    var a := Address(s[4..], s[3], utf8);
    HostDecoded(s[4..], s[3], utf8);
    assert Pow256(2) == 65536;
    FromBigEndianRoundTrip(a.rest[..2]);
    assert a.rest == a.rest[..2] + a.rest[2..];
    assert s[..4] == [5, 1, 0, s[3]] && s == s[..4] + s[4..];
    Reassociate(s[..4], EncodeHost(a.value), a.rest[..2], a.rest[2..]);
  }

  lemma LoginDecoded(s: seq<byte>, auth: Option<seq<User<byte>>>, utf8: Utf8) returns (creds: Option<User<byte>>)
    requires Login(s, auth, utf8).Done?
    ensures creds.Some? <==> auth.Some?
    ensures auth.Some? ==>
      && creds.value in auth.value
      && ValidField(creds.value.username, utf8) && ValidField(creds.value.password, utf8)
      && s == EncodeCredentials(creds.value) + Login(s, auth, utf8).rest
    ensures auth.None? ==> s == Login(s, auth, utf8).rest
    ensures Login(s, auth, utf8).replies == if auth.Some? then [Authenticated] else []
  {
    creds := None;
    if auth.Some? {
      var u := CredentialsDecoded(s, auth.value, utf8);
      creds := Some(u);
    }
  }

  lemma GreetingDecoded(s: seq<byte>, auth: Option<seq<User<byte>>>) returns (methods: seq<byte>)
    requires Greeting(s, auth).Done?
    ensures |methods| <= 255 && Selected(auth) in methods
    ensures s == EncodeMethods(methods) + Greeting(s, auth).rest
    ensures Greeting(s, auth).replies == [MethodSelected(Selected(auth))]
  {
    methods := s[2..2 + s[1] as int];
  }

  lemma OpeningDecoded(s: seq<byte>, auth: Option<seq<User<byte>>>, utf8: Utf8, target: Target) returns (h: Hello)
    requires Opening(s, auth, utf8).Done?
    ensures h.target == target && |h.methods| <= 255 && Selected(auth) in h.methods
    ensures h.credentials.Some? <==> auth.Some?
    ensures auth.Some? ==>
      && h.credentials.value in auth.value
      && ValidField(h.credentials.value.username, utf8) && ValidField(h.credentials.value.password, utf8)
    ensures s == EncodeOpening(h) + Opening(s, auth, utf8).rest
    ensures Opening(s, auth, utf8).replies == OpeningReplies(auth)
  {
    var g := Greeting(s, auth);
    var methods := GreetingDecoded(s, auth);
    var creds := LoginDecoded(g.rest, auth, utf8);
    h := Hello(methods, creds, target);
    AppendAssoc(EncodeMethods(methods), EncodeLogin(h), Login(g.rest, auth, utf8).rest);
  }

  /** On any input, success means the input began with an admissible client's encoding. */
  lemma HandshakeOnlyUnderstands(s: seq<byte>, auth: Option<seq<User<byte>>>, utf8: Utf8) returns (h: Hello)
    requires Handshake(s, auth, utf8).Done?
    ensures Admissible(h, auth, utf8)
    ensures s == EncodeHello(h) + Handshake(s, auth, utf8).rest
    ensures Handshake(s, auth, utf8).value == h.target
    ensures Handshake(s, auth, utf8).replies == ExpectedReplies(auth)
  {
    var rest := Opening(s, auth, utf8).rest;
    TargetDecoded(rest, utf8);
    h := OpeningDecoded(s, auth, utf8, Request(rest, utf8).value);
    AppendAssoc(EncodeOpening(h), EncodeTarget(h.target), Request(rest, utf8).rest);
  }

  lemma LoginReplies(s: seq<byte>, auth: Option<seq<User<byte>>>, utf8: Utf8)
    ensures Succeeded !in Login(s, auth, utf8).replies
  {
  }

  lemma RequestReplies(s: seq<byte>, utf8: Utf8)
    ensures Succeeded in Request(s, utf8).replies <==> Request(s, utf8).Done?
  {
  }

  lemma OpeningAnswers(s: seq<byte>, auth: Option<seq<User<byte>>>, utf8: Utf8)
    ensures Succeeded !in Opening(s, auth, utf8).replies
  {
    LoginReplies(Greeting(s, auth).rest, auth, utf8);
  }

  /** The success reply goes out exactly when the handshake succeeds. */
  lemma SuccessReplied(s: seq<byte>, auth: Option<seq<User<byte>>>, utf8: Utf8)
    ensures Succeeded in Handshake(s, auth, utf8).replies <==> Handshake(s, auth, utf8).Done?
  {
    OpeningAnswers(s, auth, utf8);
    RequestReplies(Opening(s, auth, utf8).rest, utf8);
  }

  /** No other reply looks like it on the wire. */
  lemma SucceededDistinct(r: Reply)
    ensures ReplyBytes(r) == ReplyBytes(Succeeded) <==> r == Succeeded
  {
    assert |ReplyBytes(r)| == 2 || ReplyBytes(r)[1] == 7 || r == Succeeded;
  }

  // -------- as the source runs it --------

  datatype Result<+T> = Ok(value: T) | Err(error: Error)

  function Written(replies: seq<Reply>): seq<seq<byte>> {
    seq(|replies|, i requires 0 <= i < |replies| => ReplyBytes(replies[i]))
  }

  function ResultOf<T>(st: Stage<T>): Result<T> {
    match st
    case Done(v, _, _) => Ok(v)
    case Stop(e, _, _) => Err(e)
  }

  method ReadAuthField(socket: Socket, utf8: Utf8) returns (r: Result<seq<byte>>)
    modifies socket`input
    ensures var st := Field(old(socket.input), utf8); r == ResultOf(st) && socket.input == st.rest
  {
    var len := socket.ReadExact(1);
    if len.None? { return Err(Io); }
    var value := socket.ReadExact(len.value[0]);
    if value.None? { return Err(Io); }
    assert value.value == old(socket.input)[1..1 + len.value[0] as int];
    if !utf8(value.value) { return Err(ParseError); }
    return Ok(value.value);
  }

  method AuthenticateUser(socket: Socket, users: seq<User<byte>>, utf8: Utf8) returns (r: Result<()>)
    modifies socket
    ensures var st := Authenticate(old(socket.input), users, utf8);
      r == ResultOf(st) && socket.input == st.rest && socket.writes == old(socket.writes) + Written(st.replies)
  {
    var version := socket.ReadExact(1);
    if version.None? { return Err(Io); }
    if version.value[0] != 1 {
      socket.WriteAll([1, 1]);
      return Err(AuthenticationFailed);
    }
    var username := ReadAuthField(socket, utf8);
    if username.Err? { return Err(username.error); }
    var password := ReadAuthField(socket, utf8);
    if password.Err? { return Err(password.error); }
    var accepted := false;
    for i := 0 to |users|
      invariant accepted <==> User(username.value, password.value) in users[..i]
    {
      assert users[..i + 1] == users[..i] + [users[i]];
      accepted := accepted || (users[i].username == username.value && users[i].password == password.value);
    }
    assert users[..|users|] == users;
    socket.WriteAll([1, if accepted then 0 else 1]);
    if accepted {
      return Ok(());
    }
    return Err(AuthenticationFailed);
  }

  method ReadTargetAddress(socket: Socket, atyp: byte, utf8: Utf8) returns (r: Result<Host>)
    modifies socket`input
    ensures var st := Address(old(socket.input), atyp, utf8); r == ResultOf(st) && socket.input == st.rest
  {
    if atyp == 1 {
      var addr := socket.ReadExact(4);
      if addr.None? { return Err(Io); }
      return Ok(V4(addr.value));
    } else if atyp == 3 {
      var len := socket.ReadExact(1);
      if len.None? { return Err(Io); }
      var name := socket.ReadExact(len.value[0]);
      if name.None? { return Err(Io); }
      assert name.value == old(socket.input)[1..1 + len.value[0] as int];
      if !utf8(name.value) { return Err(ParseError); }
      return Ok(Domain(name.value));
    } else if atyp == 4 {
      var addr := socket.ReadExact(16);
      if addr.None? { return Err(Io); }
      return Ok(V6(addr.value));
    }
    return Err(UnsupportedAddressType);
  }

  method SelectMethod(socket: Socket, auth: Option<seq<User<byte>>>) returns (r: Result<()>)
    modifies socket
    ensures var st := Greeting(old(socket.input), auth);
      r == ResultOf(st) && socket.input == st.rest && socket.writes == old(socket.writes) + Written(st.replies)
  {
    var hdr := socket.ReadExact(2);
    if hdr.None? { return Err(Io); }
    if hdr.value[0] != 5 { return Err(UnsupportedVersion); }
    var methods := socket.ReadExact(hdr.value[1]);
    if methods.None? { return Err(Io); }
    assert methods.value == old(socket.input)[2..2 + hdr.value[1] as int];
    var selected: byte := if auth.Some? then 2 else 0;
    if selected !in methods.value {
      socket.WriteAll([5, 255]);
      return Err(NoAcceptableMethod);
    }
    socket.WriteAll([5, selected]);
    return Ok(());
  }

  method ReadRequest(socket: Socket, utf8: Utf8) returns (r: Result<Target>)
    modifies socket
    ensures var st := Request(old(socket.input), utf8);
      r == ResultOf(st) && socket.input == st.rest && socket.writes == old(socket.writes) + Written(st.replies)
  {
    var req := socket.ReadExact(4);
    if req.None? { return Err(Io); }
    if req.value[0] != 5 || req.value[1] != 1 || req.value[2] != 0 {
      socket.WriteAll([5, 7, 0, 1, 0, 0, 0, 0, 0, 0]);
      return Err(UnsupportedCommand);
    }
    var host := ReadTargetAddress(socket, req.value[3], utf8);
    if host.Err? { return Err(host.error); }
    var port := socket.ReadExact(2);
    if port.None? { return Err(Io); }
    socket.WriteAll([5, 0, 0, 1, 0, 0, 0, 0, 0, 0]);
    return Ok(Target(host.value, FromBigEndian(port.value)));
  }

  method MaybeAuthenticate(socket: Socket, auth: Option<seq<User<byte>>>, utf8: Utf8) returns (r: Result<()>)
    modifies socket
    ensures var st := Login(old(socket.input), auth, utf8);
      r == ResultOf(st) && socket.input == st.rest && socket.writes == old(socket.writes) + Written(st.replies)
  {
    r := Ok(());
    if auth.Some? {
      r := AuthenticateUser(socket, auth.value, utf8);
    }
  }

  lemma WrittenAppend(a: seq<Reply>, b: seq<Reply>)
    ensures Written(a + b) == Written(a) + Written(b)
  {
  }

  method Open(socket: Socket, auth: Option<seq<User<byte>>>, utf8: Utf8) returns (r: Result<()>)
    modifies socket
    ensures var st := Opening(old(socket.input), auth, utf8);
      r == ResultOf(st) && socket.input == st.rest && socket.writes == old(socket.writes) + Written(st.replies)
  {
    ghost var g := Greeting(socket.input, auth);
    WrittenAppend(g.replies, Login(g.rest, auth, utf8).replies);
    r := SelectMethod(socket, auth);
    if r.Ok? {
      r := MaybeAuthenticate(socket, auth, utf8);
    }
  }

  /** What the whole handshake leaves behind, for every input: the closed form above. */
  method HandleSocks5Handshake(socket: Socket, auth: Option<seq<User<byte>>>, utf8: Utf8) returns (r: Result<Target>)
    modifies socket
    ensures var st := Handshake(old(socket.input), auth, utf8);
      r == ResultOf(st) && socket.input == st.rest && socket.writes == old(socket.writes) + Written(st.replies)
  {
    ghost var o := Opening(socket.input, auth, utf8);
    WrittenAppend(o.replies, Request(o.rest, utf8).replies);
    var admitted := Open(socket, auth, utf8);
    if admitted.Err? {
      return Err(admitted.error);
    }
    r := ReadRequest(socket, utf8);
  }
}
