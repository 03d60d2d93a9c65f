/**
 The user list in the environment (src/modules/socks.rs, parse_socks_auth): entries `name:password`
 separated by commas, semicolons or line breaks, with blanks around them and empty entries ignored.
 */
module SocksAuth {
  import opened Accounts

  datatype AuthError = MissingColon(entry: string) | EmptyUsername | EmptyPassword(username: string)

  datatype Parsed = NoAuth | Users(users: seq<User<char>>) | Invalid(error: AuthError)

  /** Which characters are white space: any choice that has the line break and not the other marks. */
  type Space = char -> bool

  ghost predicate ValidSpace(ws: Space) {
    ws('\n') && !ws(',') && !ws(';') && !ws(':')
  }

  predicate IsSeparator(c: char) {
    c == ',' || c == '\n' || c == ';'
  }

  // -------- the parser --------

  function TrimStart(s: string, ws: Space): string {
    if s != [] && ws(s[0]) then TrimStart(s[1..], ws) else s
  }

  function TrimEnd(s: string, ws: Space): string {
    if s != [] && ws(s[|s| - 1]) then TrimEnd(s[..|s| - 1], ws) else s
  }

  function Trim(s: string, ws: Space): string {
    TrimEnd(TrimStart(s, ws), ws)
  }

  function Prepend(c: char, ps: seq<string>): (r: seq<string>)
    requires ps != []
    ensures r != []
  {
    if IsSeparator(c) then [[]] + ps else [[c] + ps[0]] + ps[1..]
  }

  function Pieces(s: string): (ps: seq<string>)
    ensures ps != []
  {
    if s == [] then [[]] else Prepend(s[0], Pieces(s[1..]))
  }

  /** The trimmed nonempty pieces. */
  function Kept(ps: seq<string>, ws: Space): seq<string> {
    if ps == [] then []
    else (if Trim(ps[0], ws) == [] then [] else [Trim(ps[0], ws)]) + Kept(ps[1..], ws)
  }

  function ColonAt(e: string): (i: nat)
    ensures i <= |e| && ':' !in e[..i] && (i < |e| ==> e[i] == ':')
  {
    if e == [] || e[0] == ':' then 0
    else
      var i := 1 + ColonAt(e[1..]);
      assert e[..i] == [e[0]] + e[1..][..i - 1];
      i
  }

  /** One entry: exactly one user, or an error. */
  function ParseEntry(e: string): (r: Parsed)
    ensures r.Invalid? || (r.Users? && |r.users| == 1)
  {
    var i := ColonAt(e);
    if i == |e| then Invalid(MissingColon(e))
    else if i == 0 then Invalid(EmptyUsername)
    else if i + 1 == |e| then Invalid(EmptyPassword(e[..i]))
    else Users([User(e[..i], e[i + 1..])])
  }

  /** The first bad entry decides. */
  function ParseEntries(es: seq<string>): (r: Parsed)
    ensures !r.NoAuth?
  {
    if es == [] then Users([])
    else if ParseEntry(es[0]).Invalid? then ParseEntry(es[0])
    else
      match ParseEntries(es[1..])
      case Invalid(e) => Invalid(e)
      case Users(us) => Users(ParseEntry(es[0]).users + us)
  }

  function Parse(input: string, ws: Space): Parsed {
    var raw := Trim(input, ws);
    if raw == [] then NoAuth
    else
      var r := ParseEntries(Kept(Pieces(raw), ws));
      if r == Users([]) then NoAuth else r
  }

  lemma {:induction false} ParseEntriesAppend(a: seq<string>, b: seq<string>)
    requires ParseEntries(a).Users?
    ensures ParseEntries(a + b) ==
      if ParseEntries(b).Users? then Users(ParseEntries(a).users + ParseEntries(b).users) else ParseEntries(b)
  {
    if a == [] {
      assert a + b == b;
    } else {
      assert (a + b)[1..] == a[1..] + b;
      ParseEntriesAppend(a[1..], b);
      if ParseEntries(b).Users? {
        var first, more, rest := ParseEntry(a[0]).users, ParseEntries(a[1..]).users, ParseEntries(b).users;
        assert first + more + rest == first + (more + rest);
      }
    }
  }

  /** The first bad entry's error is the list's. */
  lemma ParseBad(es: seq<string>, i: nat)
    requires i < |es| && ParseEntries(es[..i]).Users? && ParseEntry(es[i]).Invalid?
    ensures ParseEntries(es) == ParseEntry(es[i])
  {
    var rest := es[i..];
    assert es == es[..i] + rest && rest[0] == es[i];
    ParseFirst(rest);
    ParseEntriesAppend(es[..i], rest);
  }

  lemma ParseGood(es: seq<string>, i: nat)
    requires i < |es| && ParseEntries(es[..i]).Users? && ParseEntry(es[i]).Users?
    ensures ParseEntries(es[..i + 1]) == Users(ParseEntries(es[..i]).users + ParseEntry(es[i]).users)
  {
    assert es[..i + 1] == es[..i] + [es[i]];
    ParseFirst([es[i]]);
    ParseEntriesAppend(es[..i], [es[i]]);
  }

  lemma ParseFirst(es: seq<string>)
    requires es != []
    ensures ParseEntry(es[0]).Invalid? ==> ParseEntries(es) == ParseEntry(es[0])
    ensures ParseEntry(es[0]).Users? && |es| == 1 ==> ParseEntries(es) == ParseEntry(es[0])
  {
    if |es| == 1 {
      assert es[1..] == [];
    }
  }

  method ReadEntry(entry: string) returns (r: Parsed)
    ensures r == ParseEntry(entry)
  {
    var at: nat := 0;
    while at < |entry| && entry[at] != ':'
      invariant at <= |entry| && ':' !in entry[..at]
    {
      at := at + 1;
    }
    ColonUnique(entry, at);
    if at == |entry| {
      return Invalid(MissingColon(entry));
    }
    if at == 0 {
      return Invalid(EmptyUsername);
    }
    if at + 1 == |entry| {
      return Invalid(EmptyPassword(entry[..at]));
    }
    r := Users([User(entry[..at], entry[at + 1..])]);
  }

  lemma {:induction false} ColonUnique(e: string, i: nat)
    requires i <= |e| && ':' !in e[..i] && (i < |e| ==> e[i] == ':')
    ensures ColonAt(e) == i
  {
    if i == 0 {
    } else {
      assert e[0] == e[..i][0];
      assert forall c | c in e[1..][..i - 1] :: c in e[..i];
      ColonUnique(e[1..], i - 1);
    }
  }

  method ParseSocksAuth(input: string, ws: Space) returns (r: Parsed)
    ensures r == Parse(input, ws)
  {
    var raw := Trim(input, ws);
    if raw == [] {
      return NoAuth;
    }
    var entries := Kept(Pieces(raw), ws);
    var users: seq<User<char>> := [];
    for i := 0 to |entries|
      invariant ParseEntries(entries[..i]) == Users(users)
    {
      var e := ReadEntry(entries[i]);
      if e.Invalid? {
        ParseBad(entries, i);
        return e;
      }
      ParseGood(entries, i);
      users := users + e.users;
    }
    assert entries[..|entries|] == entries;
    if users == [] {
      return NoAuth;
    }
    r := Users(users);
  }

  // -------- trimming --------

  ghost predicate AllSpace(s: string, ws: Space) {
    forall i | 0 <= i < |s| :: ws(s[i])
  }

  lemma {:induction false} TrimStartPad(pad: string, s: string, ws: Space)
    requires AllSpace(pad, ws)
    ensures TrimStart(pad + s, ws) == TrimStart(s, ws)
  {
    if pad == [] {
      assert pad + s == s;
    } else {
      assert (pad + s)[1..] == pad[1..] + s;
      TrimStartPad(pad[1..], s, ws);
    }
  }

  lemma {:induction false} TrimEndPad(s: string, pad: string, ws: Space)
    requires AllSpace(pad, ws)
    ensures TrimEnd(s + pad, ws) == TrimEnd(s, ws)
  {
    if pad == [] {
      assert s + pad == s;
    } else {
      assert (s + pad)[..|s + pad| - 1] == s + pad[..|pad| - 1];
      TrimEndPad(s, pad[..|pad| - 1], ws);
    }
  }

  lemma TrimPadded(lead: string, s: string, trail: string, ws: Space)
    requires AllSpace(lead, ws) && AllSpace(trail, ws)
    requires s == [] || (!ws(s[0]) && !ws(s[|s| - 1]))
    ensures Trim(lead + s + trail, ws) == s
  {
    assert lead + s + trail == lead + (s + trail);
    TrimStartPad(lead, s + trail, ws);
    if s == [] {
      assert s + trail == trail + [];
      TrimStartPad(trail, [], ws);
    } else {
      TrimEndPad(s, trail, ws);
    }
  }

  lemma {:induction false} TrimStartSnoc(s: string, c: char, ws: Space)
    requires ws(c)
    ensures TrimStart(s + [c], ws) == if TrimStart(s, ws) == [] then [] else TrimStart(s, ws) + [c]
  {
    if s == [] {
      assert (s + [c])[1..] == [];
    } else if ws(s[0]) {
      assert (s + [c])[1..] == s[1..] + [c];
      TrimStartSnoc(s[1..], c, ws);
    }
  }

  lemma TrimSnoc(s: string, c: char, ws: Space)
    requires ws(c)
    ensures Trim(s + [c], ws) == Trim(s, ws)
  {
    TrimStartSnoc(s, c, ws);
    TrimEndPad(TrimStart(s, ws), [c], ws);
  }

  // -------- trimming the whole input loses no entry --------

  /** What one character more at the end makes of a list of pieces. */
  function Extended(ps: seq<string>, c: char): (r: seq<string>)
    requires ps != []
    ensures r != []
  {
    if IsSeparator(c) then ps + [[]] else ps[..|ps| - 1] + [ps[|ps| - 1] + [c]]
  }

  lemma ExtendPrepend(a: char, ps: seq<string>, c: char)
    requires ps != []
    ensures Extended(Prepend(a, ps), c) == Prepend(a, Extended(ps, c))
  {
    if !IsSeparator(a) && !IsSeparator(c) && |ps| == 1 {
      assert [a] + ps[0] + [c] == [a] + (ps[0] + [c]);
    }
  }

  lemma {:induction false} PiecesSnoc(s: string, c: char)
    ensures Pieces(s + [c]) == Extended(Pieces(s), c)
  {
    if s == [] {
      assert (s + [c])[1..] == [];
      assert [c] + [] == [] + [c];
    } else {
      assert (s + [c])[1..] == s[1..] + [c];
      PiecesSnoc(s[1..], c);
      ExtendPrepend(s[0], Pieces(s[1..]), c);
    }
  }

  lemma {:induction false} KeptAppend(a: seq<string>, b: seq<string>, ws: Space)
    ensures Kept(a + b, ws) == Kept(a, ws) + Kept(b, ws)
  {
    if a == [] {
      assert a + b == b;
    } else {
      assert (a + b)[1..] == a[1..] + b;
      KeptAppend(a[1..], b, ws);
    }
  }

  lemma {:induction false} KeptTrimStart(s: string, ws: Space)
    ensures Kept(Pieces(TrimStart(s, ws)), ws) == Kept(Pieces(s), ws)
  {
    if s == [] || !ws(s[0]) {
    } else {
      KeptTrimStart(s[1..], ws);
      var ps := Pieces(s[1..]);
      if !IsSeparator(s[0]) {
        TrimStartPad([s[0]], ps[0], ws);
      }
    }
  }

  lemma KeptExtended(ps: seq<string>, c: char, ws: Space)
    requires ps != [] && ws(c)
    ensures Kept(Extended(ps, c), ws) == Kept(ps, ws)
  {
    var front, last := ps[..|ps| - 1], ps[|ps| - 1];
    assert ps == front + [last];
    KeptAppend(front, [last], ws);
    KeptAppend(ps, [[]], ws);
    KeptAppend(front, [last + [c]], ws);
    TrimSnoc(last, c, ws);
    KeptOne(last, ws);
    KeptOne(last + [c], ws);
    KeptOne([], ws);
  }

  lemma KeptOne(p: string, ws: Space)
    ensures Kept([p], ws) == if Trim(p, ws) == [] then [] else [Trim(p, ws)]
  {
    assert [p][1..] == [];
  }

  lemma {:induction false} KeptTrimEnd(s: string, ws: Space)
    ensures Kept(Pieces(TrimEnd(s, ws)), ws) == Kept(Pieces(s), ws)
  {
    if s == [] || !ws(s[|s| - 1]) {
    } else {
      var t, c := s[..|s| - 1], s[|s| - 1];
      KeptTrimEnd(t, ws);
      assert s == t + [c];
      PiecesSnoc(t, c);
      KeptExtended(Pieces(t), c, ws);
    }
  }

  // -------- the reference: how a list may be written --------

  /** One slot between separators: a user with blanks around it, or nothing but blanks. */
  datatype Slot = Entry(lead: string, user: User<char>, trail: string) | Blank(pad: string)

  ghost predicate NoSeparator(s: string) {
    forall i | 0 <= i < |s| :: !IsSeparator(s[i])
  }

  ghost predicate Writable(u: User<char>, ws: Space) {
    && u.username != [] && ':' !in u.username && NoSeparator(u.username) && !ws(u.username[0])
    && u.password != [] && NoSeparator(u.password) && !ws(u.password[|u.password| - 1])
  }

  ghost predicate Padding(s: string, ws: Space) {
    AllSpace(s, ws) && NoSeparator(s)
  }

  ghost predicate ValidSlot(slot: Slot, ws: Space) {
    match slot
    case Blank(pad) => Padding(pad, ws)
    case Entry(lead, user, trail) => Padding(lead, ws) && Writable(user, ws) && Padding(trail, ws)
  }

  function Core(u: User<char>): string {
    u.username + [':'] + u.password
  }

  function SlotText(slot: Slot): string {
    match slot
    case Blank(pad) => pad
    case Entry(lead, user, trail) => lead + Core(user) + trail
  }

  function Written(slots: seq<Slot>, separators: string): string
    requires |slots| == |separators| + 1
    decreases slots
  {
    if separators == [] then SlotText(slots[0])
    else SlotText(slots[0]) + [separators[0]] + Written(slots[1..], separators[1..])
  }

  ghost predicate WellWritten(slots: seq<Slot>, separators: string, ws: Space) {
    && |slots| == |separators| + 1
    && (forall i | 0 <= i < |slots| :: ValidSlot(slots[i], ws))
    && (forall i | 0 <= i < |separators| :: IsSeparator(separators[i]))
  }

  function UsersIn(slots: seq<Slot>): seq<User<char>> {
    if slots == [] then [] else (if slots[0].Entry? then [slots[0].user] else []) + UsersIn(slots[1..])
  }

  function Cores(us: seq<User<char>>): seq<string> {
    if us == [] then [] else [Core(us[0])] + Cores(us[1..])
  }

  // -------- round trip --------

  lemma {:induction false} PiecesWhole(a: string)
    requires NoSeparator(a)
    ensures Pieces(a) == [a]
  {
    if a == [] {
    } else {
      PiecesWhole(a[1..]);
      assert [a[0]] + a[1..] == a;
    }
  }

  lemma {:induction false} PiecesAt(a: string, c: char, b: string)
    requires NoSeparator(a) && IsSeparator(c)
    ensures Pieces(a + [c] + b) == [a] + Pieces(b)
  {
    if a == [] {
      assert (a + [c] + b)[1..] == b;
    } else {
      assert (a + [c] + b)[1..] == a[1..] + [c] + b;
      PiecesAt(a[1..], c, b);
      assert [a[0]] + a[1..] == a;
    }
  }

  lemma SlotFacts(slot: Slot, ws: Space)
    requires ValidSpace(ws) && ValidSlot(slot, ws)
    ensures NoSeparator(SlotText(slot))
    ensures Trim(SlotText(slot), ws) == if slot.Entry? then Core(slot.user) else []
  {
    match slot
    case Blank(pad) =>
      assert pad == pad + [] + [];
      TrimPadded(pad, [], [], ws);
    case Entry(lead, user, trail) =>
      TrimPadded(lead, Core(user), trail, ws);
  }

  lemma {:induction false} KeptWritten(slots: seq<Slot>, separators: string, ws: Space)
    requires ValidSpace(ws) && |slots| == |separators| + 1
    requires forall i | 0 <= i < |slots| :: ValidSlot(slots[i], ws)
    requires forall i | 0 <= i < |separators| :: IsSeparator(separators[i])
    ensures Kept(Pieces(Written(slots, separators)), ws) == Cores(UsersIn(slots))
    decreases slots
  {
    SlotFacts(slots[0], ws);
    var text := SlotText(slots[0]);
    if separators == [] {
      PiecesWhole(text);
      assert slots[1..] == [];
    } else {
      var more := Written(slots[1..], separators[1..]);
      PiecesAt(text, separators[0], more);
      KeptWritten(slots[1..], separators[1..], ws);
      assert ([text] + Pieces(more))[1..] == Pieces(more);
      assert Written(slots, separators) == text + [separators[0]] + more;
      if slots[0].Entry? {
        assert Core(slots[0].user)[|slots[0].user.username|] == ':';
        assert UsersIn(slots)[1..] == UsersIn(slots[1..]);
      } else {
        assert UsersIn(slots) == UsersIn(slots[1..]);
      }
    }
  }

  lemma CoreParts(u: User<char>)
    requires ':' !in u.username
    ensures ColonAt(Core(u)) == |u.username|
    ensures Core(u)[..|u.username|] == u.username && Core(u)[|u.username| + 1..] == u.password
  {
    assert Core(u)[..|u.username|] == u.username;
    ColonUnique(Core(u), |u.username|);
  }

  lemma {:induction false} ParseCores(us: seq<User<char>>, ws: Space)
    requires forall i | 0 <= i < |us| :: Writable(us[i], ws)
    ensures ParseEntries(Cores(us)) == Users(us)
  {
    if us == [] {
    } else {
      CoreParts(us[0]);
      ParseCores(us[1..], ws);
    }
  }

  lemma {:induction false} UsersWritable(slots: seq<Slot>, ws: Space)
    requires forall i | 0 <= i < |slots| :: ValidSlot(slots[i], ws)
    ensures forall i | 0 <= i < |UsersIn(slots)| :: Writable(UsersIn(slots)[i], ws)
  {
    if slots == [] {
    } else {
      UsersWritable(slots[1..], ws);
    }
  }

  /** However a list is written, with any separators, padding and empty slots, it parses back to the same users in order. */
  lemma ParseWritten(slots: seq<Slot>, separators: string, ws: Space)
    requires ValidSpace(ws) && WellWritten(slots, separators, ws)
    ensures Parse(Written(slots, separators), ws) ==
      if UsersIn(slots) == [] then NoAuth else Users(UsersIn(slots))
  {
    var input := Written(slots, separators);
    KeptWritten(slots, separators, ws);
    KeptTrimStart(input, ws);
    KeptTrimEnd(TrimStart(input, ws), ws);
    UsersWritable(slots, ws);
    ParseCores(UsersIn(slots), ws);
    if Trim(input, ws) == [] {
      assert Kept(Pieces([]), ws) == [];
    }
  }

  // -------- and nothing else is accepted --------

  lemma {:induction false} TrimStartSplit(s: string, ws: Space) returns (lead: string)
    ensures s == lead + TrimStart(s, ws) && AllSpace(lead, ws)
    ensures TrimStart(s, ws) == [] || !ws(TrimStart(s, ws)[0])
  {
    if s == [] || !ws(s[0]) {
      lead := [];
    } else {
      lead := TrimStartSplit(s[1..], ws);
      lead := [s[0]] + lead;
    }
  }

  lemma {:induction false} TrimEndSplit(s: string, ws: Space) returns (trail: string)
    ensures s == TrimEnd(s, ws) + trail && AllSpace(trail, ws)
    ensures TrimEnd(s, ws) == [] || !ws(TrimEnd(s, ws)[|TrimEnd(s, ws)| - 1])
  {
    if s == [] || !ws(s[|s| - 1]) {
      trail := [];
    } else {
      trail := TrimEndSplit(s[..|s| - 1], ws);
      trail := trail + [s[|s| - 1]];
    }
  }

  lemma TrimSplit(a: string, ws: Space) returns (lead: string, trail: string)
    ensures var e := Trim(a, ws);
      && a == lead + e + trail && AllSpace(lead, ws) && AllSpace(trail, ws)
      && (e == [] || (!ws(e[0]) && !ws(e[|e| - 1])))
  {
    lead := TrimStartSplit(a, ws);
    var t := TrimStart(a, ws);
    trail := TrimEndSplit(t, ws);
    assert Trim(a, ws) != [] ==> Trim(a, ws)[0] == t[0];
  }

  /** A trimmed entry that parses is a writable user's. */
  lemma EntryIsCore(e: string, ws: Space)
    requires e != [] && NoSeparator(e) && !ws(e[0]) && !ws(e[|e| - 1]) && ParseEntry(e).Users?
    ensures Writable(ParseEntry(e).users[0], ws) && Core(ParseEntry(e).users[0]) == e
  {
    var i := ColonAt(e);
    var u := ParseEntry(e).users[0];
    assert u == User(e[..i], e[i + 1..]);
    assert e == e[..i] + [e[i]] + e[i + 1..];
  }

  lemma NoSeparatorParts(a: string, b: string, c: string)
    requires NoSeparator(a + b + c)
    ensures NoSeparator(a) && NoSeparator(b) && NoSeparator(c)
  {
    var s := a + b + c;
    assert forall i | 0 <= i < |a| :: a[i] == s[i];
    assert forall i | 0 <= i < |b| :: b[i] == s[|a| + i];
    assert forall i | 0 <= i < |c| :: c[i] == s[|a| + |b| + i];
  }

  lemma SlotOf(a: string, ws: Space) returns (slot: Slot)
    requires NoSeparator(a) && (Trim(a, ws) == [] || ParseEntry(Trim(a, ws)).Users?)
    ensures ValidSlot(slot, ws) && SlotText(slot) == a
    ensures UsersIn([slot]) == if Trim(a, ws) == [] then [] else ParseEntry(Trim(a, ws)).users
  {
    var lead, trail := TrimSplit(a, ws);
    var e := Trim(a, ws);
    NoSeparatorParts(lead, e, trail);
    if e == [] {
      slot := Blank(a);
      assert a == lead + trail;
    } else {
      EntryIsCore(e, ws);
      slot := Entry(lead, ParseEntry(e).users[0], trail);
    }
    assert [slot][1..] == [];
  }

  lemma {:induction false} FirstSeparator(s: string) returns (k: nat)
    ensures k <= |s| && NoSeparator(s[..k]) && (k < |s| ==> IsSeparator(s[k]))
  {
    if s == [] || IsSeparator(s[0]) {
      k := 0;
    } else {
      k := FirstSeparator(s[1..]);
      k := k + 1;
      assert s[..k] == [s[0]] + s[1..][..k - 1];
    }
  }

  /** Of an accepted list of at most one entry and more, both are accepted, and their users are all. */
  lemma ParseEntriesSplit(a: seq<string>, b: seq<string>)
    requires |a| <= 1 && ParseEntries(a + b).Users?
    ensures a != [] ==> ParseEntry(a[0]).Users?
    ensures ParseEntries(b).Users?
    ensures ParseEntries(a + b).users == (if a == [] then [] else ParseEntry(a[0]).users) + ParseEntries(b).users
  {
    if a == [] {
      assert a + b == b;
    } else {
      assert (a + b)[1..] == b;
    }
  }

  lemma WrittenCons(slot: Slot, c: char, slots: seq<Slot>, separators: string, ws: Space)
    requires ValidSlot(slot, ws) && IsSeparator(c) && WellWritten(slots, separators, ws)
    ensures WellWritten([slot] + slots, [c] + separators, ws)
    ensures Written([slot] + slots, [c] + separators) == SlotText(slot) + [c] + Written(slots, separators)
  {
    assert ([slot] + slots)[1..] == slots && ([c] + separators)[1..] == separators;
  }

  lemma UsersCons(slot: Slot, slots: seq<Slot>)
    ensures UsersIn([slot] + slots) == UsersIn([slot]) + UsersIn(slots)
  {
    assert ([slot] + slots)[1..] == slots && [slot][1..] == [];
    AppendNone(if slot.Entry? then [slot.user] else []);
  }

  lemma LastSlot(a: string, ws: Space) returns (slot: Slot)
    requires NoSeparator(a) && ParseEntries(Kept(Pieces(a), ws)).Users?
    ensures ValidSlot(slot, ws) && SlotText(slot) == a
    ensures UsersIn([slot]) == ParseEntries(Kept(Pieces(a), ws)).users
  {
    PiecesWhole(a);
    KeptOne(a, ws);
    AppendNone(Kept([a], ws));
    ParseEntriesSplit(Kept([a], ws), []);
    slot := SlotOf(a, ws);
    AppendNone(UsersIn([slot]));
  }

  lemma NextSlot(a: string, c: char, b: string, ws: Space) returns (slot: Slot)
    requires NoSeparator(a) && IsSeparator(c) && ParseEntries(Kept(Pieces(a + [c] + b), ws)).Users?
    ensures ValidSlot(slot, ws) && SlotText(slot) == a && ParseEntries(Kept(Pieces(b), ws)).Users?
    ensures ParseEntries(Kept(Pieces(a + [c] + b), ws)).users == UsersIn([slot]) + ParseEntries(Kept(Pieces(b), ws)).users
  {
    PiecesAt(a, c, b);
    KeptAppend([a], Pieces(b), ws);
    KeptOne(a, ws);
    ParseEntriesSplit(Kept([a], ws), Kept(Pieces(b), ws));
    slot := SlotOf(a, ws);
  }

  lemma {:induction false} SlotsOf(input: string, ws: Space) returns (slots: seq<Slot>, separators: string)
    requires ParseEntries(Kept(Pieces(input), ws)).Users?
    ensures WellWritten(slots, separators, ws) && Written(slots, separators) == input
    ensures UsersIn(slots) == ParseEntries(Kept(Pieces(input), ws)).users
    decreases |input|
  {
    var k := FirstSeparator(input);
    if k == |input| {
      assert input[..k] == input;
      var slot := LastSlot(input, ws);
      slots, separators := [slot], [];
    } else {
      var a, c, b := input[..k], input[k], input[k + 1..];
      assert input == a + [c] + b;
      var slot := NextSlot(a, c, b, ws);
      slots, separators := SlotsOf(b, ws);
      WrittenCons(slot, c, slots, separators, ws);
      UsersCons(slot, slots);
      slots, separators := [slot] + slots, [c] + separators;
    }
  }

  lemma AppendNone<T>(s: seq<T>)
    ensures s + [] == s
  {
  }

  /** The converse: every list that is accepted is one that is written as above, and its users are those in it. */
  lemma AcceptedIsWritten(input: string, ws: Space) returns (slots: seq<Slot>, separators: string)
    requires ValidSpace(ws) && !Parse(input, ws).Invalid?
    ensures WellWritten(slots, separators, ws) && Written(slots, separators) == input
    ensures Parse(input, ws) == if UsersIn(slots) == [] then NoAuth else Users(UsersIn(slots))
  {
    KeptTrimStart(input, ws);
    KeptTrimEnd(TrimStart(input, ws), ws);
    if Trim(input, ws) == [] {
      assert Kept(Pieces([]), ws) == [];
    }
    slots, separators := SlotsOf(input, ws);
  }

  // -------- as text --------

  lemma Separators(c: char)
    ensures IsSeparator(c) <==> c == ',' || c == ';' || c == '\n'
  {
  }

  /** Name, colon, password; the first colon counts. */
  lemma EntryTable(name: string, password: string)
    ensures ':' !in name ==> ParseEntry(name) == Invalid(MissingColon(name))
    ensures ParseEntry(":" + password) == Invalid(EmptyUsername)
    ensures ':' !in name && name != [] ==> ParseEntry(name + ":") == Invalid(EmptyPassword(name))
    ensures ':' !in name && name != [] && password != [] ==>
      ParseEntry(name + ":" + password) == Users([User(name, password)])
  {
    assert name[..|name|] == name;
    if ':' !in name {
      ColonUnique(name, |name|);
      var e, f := name + ":", name + ":" + password;
      assert e[..|name|] == name && f[..|name|] == name && f[|name| + 1..] == password;
      ColonUnique(e, |name|);
      ColonUnique(f, |name|);
    }
  }

  lemma PlainSlot(u: User<char>, ws: Space)
    requires ValidSpace(ws) && Writable(u, ws)
    ensures var slot := Entry([], u, []);
      ValidSlot(slot, ws) && SlotText(slot) == u.username + [':'] + u.password
  {
    assert SlotText(Entry([], u, [])) == [] + Core(u) + [];
  }

  lemma UsersTwo(u: User<char>, v: User<char>)
    ensures UsersIn([Entry([], u, []), Entry([], v, [])]) == [u, v]
  {
    var a, b := Entry([], u, []), Entry([], v, []);
    assert [a, b][1..] == [b];
    assert UsersIn([b]) == [v] by {
      assert [b][1..] == [];
    }
  }

  lemma WrittenTwo(a: Slot, b: Slot, x: char)
    ensures Written([a, b], [x]) == SlotText(a) + [x] + SlotText(b)
  {
    assert [a, b][1..] == [b] && [x][1..] == [];
    assert Written([b], []) == SlotText(b);
  }

  /** Two users in one text, behind any of the separators. */
  lemma TwoUsers(u: User<char>, v: User<char>, x: char, ws: Space)
    requires ValidSpace(ws) && Writable(u, ws) && Writable(v, ws) && (x == ',' || x == ';' || x == '\n')
    ensures Parse(u.username + [':'] + u.password + [x] + (v.username + [':'] + v.password), ws) == Users([u, v])
  {
    var a, b := Entry([], u, []), Entry([], v, []);
    PlainSlot(u, ws);
    PlainSlot(v, ws);
    WrittenTwo(a, b, x);
    UsersTwo(u, v);
    ParseWritten([a, b], [x], ws);
  }
}
