/**
 The SOCKS5 handshake byte by byte: what the client's messages look like, and which bytes answer each
 of them (src/modules/socks.rs; sections 3, 4 and 6 of RFC 1928, section 2 of RFC 1929).
 */
module HandshakeBytes {
  import opened Bytes
  import opened Hosts
  import opened Accounts
  import opened Socks

  const SUCCESS: seq<byte> := [5, 0, 0, 1, 0, 0, 0, 0, 0, 0]
  const REFUSAL: seq<byte> := [5, 7, 0, 1, 0, 0, 0, 0, 0, 0]

  // -------- the client's bytes --------

  lemma MethodBytes(methods: seq<byte>)
    requires |methods| <= 255
    ensures EncodeMethods(methods) == [5, |methods|] + methods
  {
  }

  lemma CredentialBytes(u: User<byte>)
    requires |u.username| <= 255 && |u.password| <= 255
    ensures EncodeCredentials(u) == [1, |u.username|] + u.username + [|u.password|] + u.password
  {
  }

  lemma PortBytes(h: Host, port: nat)
    requires port < 65536
    ensures EncodeTarget(Target(h, port)) == [5, 1, 0, AddressType(h)] + EncodeHost(h) + [port / 256, port % 256]
  {
    BigEndianTwo(port);
  }

  lemma NameBytes(name: seq<byte>, port: seq<byte>)
    requires |name| <= 255
    ensures [5, 1, 0, 3] + EncodeField(name) + port == [5, 1, 0, 3, |name|] + name + port
  {
    AppendAssoc([5, 1, 0, 3], [|name|], name);
    assert [5, 1, 0, 3] + [|name|] == [5, 1, 0, 3, |name|];
  }

  lemma TargetBytes(h: Host, port: nat)
    requires port < 65536
    ensures h.V4? ==> EncodeTarget(Target(h, port)) == [5, 1, 0, 1] + h.addr + [port / 256, port % 256]
    ensures h.Domain? && |h.name| <= 255 ==>
      EncodeTarget(Target(h, port)) == [5, 1, 0, 3, |h.name|] + h.name + [port / 256, port % 256]
    ensures h.V6? ==> EncodeTarget(Target(h, port)) == [5, 1, 0, 4] + h.addr + [port / 256, port % 256]
  {
    PortBytes(h, port);
    if h.Domain? && |h.name| <= 255 {
      NameBytes(h.name, [port / 256, port % 256]);
    }
  }

  lemma HelloBytes(h: Hello)
    requires |h.methods| <= 255
    requires h.credentials.Some? ==> |h.credentials.value.username| <= 255 && |h.credentials.value.password| <= 255
    ensures h.credentials.None? ==> EncodeHello(h) == [5, |h.methods|] + h.methods + EncodeTarget(h.target)
    ensures h.credentials.Some? ==>
      var u := h.credentials.value;
      EncodeHello(h) == [5, |h.methods|] + h.methods
        + ([1, |u.username|] + u.username + [|u.password|] + u.password) + EncodeTarget(h.target)
  {
    MethodBytes(h.methods);
    AppendNothing(EncodeMethods(h.methods));
    if h.credentials.Some? {
      CredentialBytes(h.credentials.value);
    }
  }

  // -------- the proxy's bytes, on success --------

  lemma WrittenOpening(auth: Option<seq<User<byte>>>)
    ensures auth.None? ==> Written(OpeningReplies(auth)) == [[5, 0]]
    ensures auth.Some? ==> Written(OpeningReplies(auth)) == [[5, 2], [1, 0]]
  {
    if auth.Some? {
      assert OpeningReplies(auth) == [MethodSelected(2), Authenticated];
    } else {
      assert OpeningReplies(auth) == [MethodSelected(0)];
    }
  }

  lemma WrittenOne(r: Reply)
    ensures Written([r]) == [ReplyBytes(r)]
  {
  }

  /** A client that is let in sees exactly these writes, whatever it sends next. */
  lemma SuccessBytes(h: Hello, rest: seq<byte>, auth: Option<seq<User<byte>>>, utf8: Utf8)
    requires Admissible(h, auth, utf8)
    ensures var st := Handshake(EncodeHello(h) + rest, auth, utf8);
      && st.Done? && st.value == h.target && st.rest == rest
      && (auth.None? ==> Written(st.replies) == [[5, 0], [5, 0, 0, 1, 0, 0, 0, 0, 0, 0]])
      && (auth.Some? ==> Written(st.replies) == [[5, 2], [1, 0], [5, 0, 0, 1, 0, 0, 0, 0, 0, 0]])
  {
    HandshakeUnderstands(h, rest, auth, utf8);
    WrittenSuccess(auth);
  }

  lemma WrittenSuccess(auth: Option<seq<User<byte>>>)
    ensures auth.None? ==> Written(ExpectedReplies(auth)) == [[5, 0], [5, 0, 0, 1, 0, 0, 0, 0, 0, 0]]
    ensures auth.Some? ==> Written(ExpectedReplies(auth)) == [[5, 2], [1, 0], [5, 0, 0, 1, 0, 0, 0, 0, 0, 0]]
  {
    WrittenAppend(OpeningReplies(auth), [Succeeded]);
    WrittenOpening(auth);
    WrittenOne(Succeeded);
  }

  // -------- and on every refusal --------

  /** A handshake refused with this error, these bytes unread and these writes made. */
  ghost predicate Refuses(s: seq<byte>, auth: Option<seq<User<byte>>>, utf8: Utf8, e: Error, rest: seq<byte>, writes: seq<seq<byte>>) {
    var st := Handshake(s, auth, utf8);
    st.Stop? && st.error == e && st.rest == rest && Written(st.replies) == writes
  }

  lemma WrongVersion(v: byte, n: byte, rest: seq<byte>, auth: Option<seq<User<byte>>>, utf8: Utf8)
    requires v != 5
    ensures Refuses([v, n] + rest, auth, utf8, UnsupportedVersion, rest, [])
  {
    assert ([v, n] + rest)[2..] == rest;
  }

  lemma MissingMethod(methods: seq<byte>, rest: seq<byte>, auth: Option<seq<User<byte>>>, utf8: Utf8)
    requires |methods| <= 255 && (if auth.Some? then 2 else 0) !in methods
    ensures Refuses([5, |methods|] + methods + rest, auth, utf8, NoAcceptableMethod, rest, [[5, 255]])
  {
    var s := [5, |methods|] + methods + rest;
    assert s[2..2 + |methods|] == methods && s[2 + |methods|..] == rest;
    WrittenOne(NoMethods);
  }

  lemma OpeningStops(methods: seq<byte>, rest: seq<byte>, users: seq<User<byte>>, utf8: Utf8)
    requires |methods| <= 255 && 2 in methods && Authenticate(rest, users, utf8).Stop?
    ensures var st, a := Handshake([5, |methods|] + methods + rest, Some(users), utf8), Authenticate(rest, users, utf8);
      st.Stop? && st.error == a.error && st.rest == a.rest && st.replies == [MethodSelected(2)] + a.replies
  {
    MethodBytes(methods);
    GreetingEncoded(methods, rest, Some(users));
  }

  lemma WrittenFailure()
    ensures Written([MethodSelected(2)] + [NotAuthenticated]) == [[5, 2], [1, 1]]
  {
    WrittenAppend([MethodSelected(2)], [NotAuthenticated]);
    WrittenOne(MethodSelected(2));
    WrittenOne(NotAuthenticated);
  }

  /** Well-formed credentials that are not on the list. */
  lemma UnlistedUser(methods: seq<byte>, u: User<byte>, rest: seq<byte>, users: seq<User<byte>>, utf8: Utf8)
    requires |methods| <= 255 && 2 in methods
    requires ValidField(u.username, utf8) && ValidField(u.password, utf8) && u !in users
    ensures Refuses([5, |methods|] + methods + ([1, |u.username|] + u.username + [|u.password|] + u.password + rest),
      Some(users), utf8, AuthenticationFailed, rest, [[5, 2], [1, 1]])
  {
    var s := EncodeCredentials(u) + rest;
    assert s[1..] == EncodeField(u.username) + (EncodeField(u.password) + rest);
    FieldEncoded(u.username, EncodeField(u.password) + rest, utf8);
    FieldEncoded(u.password, rest, utf8);
    CredentialBytes(u);
    OpeningStops(methods, s, users, utf8);
    WrittenFailure();
  }

  lemma WrongLoginVersion(methods: seq<byte>, v: byte, rest: seq<byte>, users: seq<User<byte>>, utf8: Utf8)
    requires |methods| <= 255 && 2 in methods && v != 1
    ensures Refuses([5, |methods|] + methods + ([v] + rest), Some(users), utf8, AuthenticationFailed, rest, [[5, 2], [1, 1]])
  {
    assert ([v] + rest)[1..] == rest;
    OpeningStops(methods, [v] + rest, users, utf8);
    WrittenFailure();
  }

  lemma RequestStops(h: Hello, rest: seq<byte>, auth: Option<seq<User<byte>>>, utf8: Utf8)
    requires Admissible(h, auth, utf8) && Request(rest, utf8).Stop?
    ensures var st, q := Handshake(EncodeOpening(h) + rest, auth, utf8), Request(rest, utf8);
      st.Stop? && st.error == q.error && st.rest == q.rest && st.replies == OpeningReplies(auth) + q.replies
  {
    OpeningEncoded(h, rest, auth, utf8);
  }

  /** Any request but CONNECT of version 5 with a zero reserved byte; its address is left unread. */
  lemma WrongCommand(h: Hello, v: byte, c: byte, r: byte, a: byte, rest: seq<byte>, auth: Option<seq<User<byte>>>, utf8: Utf8)
    requires Admissible(h, auth, utf8) && [v, c, r] != [5, 1, 0]
    ensures Refuses(EncodeOpening(h) + ([v, c, r, a] + rest), auth, utf8, UnsupportedCommand, rest,
      if auth.Some? then [[5, 2], [1, 0], REFUSAL] else [[5, 0], REFUSAL])
  {
    RejectedRequest(v, c, r, a, rest, utf8);
    RequestStops(h, [v, c, r, a] + rest, auth, utf8);
    WrittenRefusal(auth);
  }

  lemma RejectedRequest(v: byte, c: byte, r: byte, a: byte, rest: seq<byte>, utf8: Utf8)
    requires [v, c, r] != [5, 1, 0]
    ensures Request([v, c, r, a] + rest, utf8) == Stop(UnsupportedCommand, rest, [CommandRejected])
  {
    var s := [v, c, r, a] + rest;
    assert s[4..] == rest;
    assert [s[0], s[1], s[2]] == [v, c, r];
  }

  lemma WrittenRefusal(auth: Option<seq<User<byte>>>)
    ensures Written(OpeningReplies(auth) + [CommandRejected]) ==
      if auth.Some? then [[5, 2], [1, 0], REFUSAL] else [[5, 0], REFUSAL]
  {
    WrittenAppend(OpeningReplies(auth), [CommandRejected]);
    WrittenOpening(auth);
    WrittenOne(CommandRejected);
  }

  /** An address type that is none of the three is refused without a reply. */
  lemma WrongAddressType(h: Hello, a: byte, rest: seq<byte>, auth: Option<seq<User<byte>>>, utf8: Utf8)
    requires Admissible(h, auth, utf8) && a !in {1, 3, 4}
    ensures Refuses(EncodeOpening(h) + ([5, 1, 0, a] + rest), auth, utf8, UnsupportedAddressType, rest,
      if auth.Some? then [[5, 2], [1, 0]] else [[5, 0]])
  {
    var s := [5, 1, 0, a] + rest;
    assert s[4..] == rest;
    RequestStops(h, s, auth, utf8);
    AppendNothing(OpeningReplies(auth));
    WrittenOpening(auth);
  }
}
