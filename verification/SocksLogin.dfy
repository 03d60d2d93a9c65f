/**
 From the user list in the environment to the login on the wire (src/config.rs, src/modules/socks.rs):
 the list is parsed once, and a client is let in with a name and password from it and no others.
 */
module SocksLogin {
  import opened Bytes
  import opened Accounts
  import A = SocksAuth
  import S = Socks

  /** How text becomes bytes; in the program UTF-8. */
  type Encoding = string -> seq<byte>

  function InBytes(enc: Encoding, u: User<char>): User<byte> {
    User(enc(u.username), enc(u.password))
  }

  function AllInBytes(enc: Encoding, us: seq<User<char>>): (bs: seq<User<byte>>)
    ensures |bs| == |us|
    ensures forall i | 0 <= i < |us| :: bs[i] == InBytes(enc, us[i])
  {
    seq(|us|, i requires 0 <= i < |us| => InBytes(enc, us[i]))
  }

  /** The handshake's setting for a list; the program does not start with a list it cannot parse. */
  function AuthOf(enc: Encoding, list: string, ws: A.Space): Option<seq<User<byte>>>
    requires !A.Parse(list, ws).Invalid?
  {
    match A.Parse(list, ws)
    case NoAuth => None
    case Users(us) => Some(AllInBytes(enc, us))
  }

  lemma ListedIsConfigured(slots: seq<A.Slot>, separators: string, ws: A.Space, enc: Encoding)
    requires A.ValidSpace(ws) && A.WellWritten(slots, separators, ws)
    ensures var list := A.Written(slots, separators);
      && !A.Parse(list, ws).Invalid?
      && AuthOf(enc, list, ws) == if A.UsersIn(slots) == [] then None else Some(AllInBytes(enc, A.UsersIn(slots)))
  {
    A.ParseWritten(slots, separators, ws);
  }

  lemma UserGetsIn(users: seq<User<byte>>, i: nat, utf8: S.Utf8, h: S.Hello, rest: seq<byte>)
    requires i < |users| && h.credentials == Some(users[i]) && |h.methods| <= 255 && 2 in h.methods
    requires S.ValidField(users[i].username, utf8) && S.ValidField(users[i].password, utf8)
    requires S.ValidHost(h.target.host, utf8) && h.target.port < 65536
    ensures S.Handshake(S.EncodeHello(h) + rest, Some(users), utf8)
      == S.Done(h.target, rest, [S.MethodSelected(2), S.Authenticated, S.Succeeded])
  {
    S.HandshakeUnderstands(h, rest, Some(users), utf8);
    assert S.ExpectedReplies(Some(users)) == [S.MethodSelected(2), S.Authenticated, S.Succeeded];
  }

  /** Every user on the list, however the list is written, gets in from any client that presents it. */
  lemma ListedUserGetsIn(slots: seq<A.Slot>, separators: string, ws: A.Space, enc: Encoding, utf8: S.Utf8,
      i: nat, h: S.Hello, rest: seq<byte>)
    requires A.ValidSpace(ws) && A.WellWritten(slots, separators, ws) && i < |A.UsersIn(slots)|
    requires h.credentials == Some(InBytes(enc, A.UsersIn(slots)[i])) && |h.methods| <= 255 && 2 in h.methods
    requires S.ValidField(h.credentials.value.username, utf8) && S.ValidField(h.credentials.value.password, utf8)
    requires S.ValidHost(h.target.host, utf8) && h.target.port < 65536
    ensures var list := A.Written(slots, separators);
      && !A.Parse(list, ws).Invalid?
      && S.Handshake(S.EncodeHello(h) + rest, AuthOf(enc, list, ws), utf8)
           == S.Done(h.target, rest, [S.MethodSelected(2), S.Authenticated, S.Succeeded])
  {
    ListedIsConfigured(slots, separators, ws, enc);
    UserGetsIn(AllInBytes(enc, A.UsersIn(slots)), i, utf8, h, rest);
  }

  /**
   And nobody else does, whatever the text of the list: an accepted list is written as above, and
   whoever gets in has presented the bytes of a user written in it.
   */
  lemma OnlyListedUsersGetIn(list: string, ws: A.Space, enc: Encoding, utf8: S.Utf8, input: seq<byte>)
    returns (slots: seq<A.Slot>, separators: string, i: nat, h: S.Hello)
    requires A.ValidSpace(ws) && A.Parse(list, ws).Users?
    requires S.Handshake(input, AuthOf(enc, list, ws), utf8).Done?
    ensures A.WellWritten(slots, separators, ws) && A.Written(slots, separators) == list
    ensures i < |A.UsersIn(slots)| && h.credentials == Some(InBytes(enc, A.UsersIn(slots)[i]))
    ensures S.EncodeHello(h) <= input
  {
    slots, separators := A.AcceptedIsWritten(list, ws);
    var auth := AuthOf(enc, list, ws);
    h := S.HandshakeOnlyUnderstands(input, auth, utf8);
    i :| 0 <= i < |auth.value| && auth.value[i] == h.credentials.value;
  }
}
