/**
 The MTProto message splitter (src/modules/telegram/splitter.rs). AES-CTR enters only as a keystream:
 any function of key, iv and byte offset. The splitter decrypts a copy of each read to find message
 boundaries, and cuts the ciphertext there.
 */
module Splitter {
  import opened Bytes

  type Keystream = (seq<byte>, seq<byte>, nat) -> byte

  /** A cipher positioned nowhere in particular: the keystream of one key and iv. */
  datatype Cipher = Cipher(ks: Keystream, key: seq<byte>, iv: seq<byte>) {
    function At(offset: nat): byte {
      ks(key, iv, offset)
    }
  }

  /** The cipher an init packet announces: bytes 8..40 are the key, 40..56 the iv. */
  function CipherOf(ks: Keystream, data: seq<byte>): Cipher
    requires |data| >= 64
  {
    Cipher(ks, data[8..40], data[40..56])
  }

  function NewSplitter(ks: Keystream, init: seq<byte>): Option<Cipher> {
    if |init| < 64 then None else Some(CipherOf(ks, init))
  }

  /** Which bytes are which: eight of head, 32 of key, 16 of iv, and the rest. */
  lemma CipherBytes(ks: Keystream, head: seq<byte>, key: seq<byte>, iv: seq<byte>, rest: seq<byte>)
    requires |head| == 8 && |key| == 32 && |iv| == 16 && |rest| >= 8
    ensures CipherOf(ks, head + key + iv + rest) == Cipher(ks, key, iv)
    ensures NewSplitter(ks, head + key + iv + rest) == Some(Cipher(ks, key, iv))
  {
    var data := head + key + iv + rest;
    assert data[8..40] == key && data[40..56] == iv;
  }

  /** Byte by byte, at the stream offset of each. */
  lemma CryptBytes(ks: Keystream, key: seq<byte>, iv: seq<byte>, offset: nat, s: seq<byte>)
    ensures var r := Crypt(Cipher(ks, key, iv), offset, s);
      |r| == |s| && forall i | 0 <= i < |s| :: r[i] == Xor(s[i], ks(key, iv, offset + i))
  {
  }

  /** XOR with the keystream from `offset` on; the same operation encrypts and decrypts. */
  function Crypt(c: Cipher, offset: nat, s: seq<byte>): (r: seq<byte>)
    ensures |r| == |s|
  {
    seq(|s|, i requires 0 <= i < |s| => Xor(s[i], c.At(offset + i)))
  }

  lemma CryptTwice(c: Cipher, offset: nat, s: seq<byte>)
    ensures Crypt(c, offset, Crypt(c, offset, s)) == s
  {
    forall i | 0 <= i < |s| ensures Crypt(c, offset, Crypt(c, offset, s))[i] == s[i] {
      XorCancels(s[i], c.At(offset + i));
    }
  }

  lemma CryptAppend(c: Cipher, offset: nat, a: seq<byte>, b: seq<byte>)
    ensures Crypt(c, offset, a + b) == Crypt(c, offset, a) + Crypt(c, offset + |a|, b)
  {
  }

  // -------- the boundary scan --------

  function LittleEndian24(a: byte, b: byte, c: byte): nat {
    (a as int) + 256 * (b as int) + 65536 * (c as int)
  }

  /** Header and total size of the message at the front of p, if it is whole: the source's own arithmetic. */
  function MessageSize(p: seq<byte>): (n: nat)
    ensures n <= |p|
  {
    if p == [] || (p[0] == 127 && |p| < 4) then 0
    else
      var head := if p[0] == 127 then 4 else 1;
      var words: nat := if p[0] == 127 then LittleEndian24(p[1], p[2], p[3]) else p[0];
      var len := 4 * words;
      if len == 0 || head + len > |p| then 0 else head + len
  }

  /** Any way to find the size of the message at the front, with zero for none. */
  type Scanner = seq<byte> -> nat

  function Front(scan: Scanner, p: seq<byte>): (n: nat)
    ensures n <= |p|
  {
    if scan(p) <= |p| then scan(p) else 0
  }

  /** Where the messages of p end, counted from `base`. */
  function Boundaries(scan: Scanner, p: seq<byte>, base: nat): seq<nat>
    decreases |p|
  {
    var n := Front(scan, p);
    if n == 0 then [] else [base + n] + Boundaries(scan, p[n..], base + n)
  }

  /** The ciphertext cut where the plaintext's messages end; whatever is left over is the last part. */
  function Cuts(scan: Scanner, p: seq<byte>, chunk: seq<byte>): seq<seq<byte>>
    requires |p| == |chunk|
    decreases |p|
  {
    var n := Front(scan, p);
    if chunk == [] then [] else if n == 0 then [chunk] else [chunk[..n]] + Cuts(scan, p[n..], chunk[n..])
  }

  /** A chunk with fewer than two boundaries is left alone. */
  function PartsBy(scan: Scanner, c: Cipher, offset: nat, chunk: seq<byte>): seq<seq<byte>> {
    var p := Crypt(c, offset, chunk);
    if chunk == [] || |Boundaries(scan, p, 0)| <= 1 then [chunk] else Cuts(scan, p, chunk)
  }

  function Parts(c: Cipher, offset: nat, chunk: seq<byte>): seq<seq<byte>> {
    PartsBy(MessageSize, c, offset, chunk)
  }

  // -------- as the source runs it --------

  /** Cutting at a list of boundaries, from `prev` on. */
  function CutAt(chunk: seq<byte>, prev: nat, ends: seq<nat>): seq<seq<byte>>
    requires Within(ends, prev, |chunk|)
    decreases ends
  {
    if ends == [] then (if prev < |chunk| then [chunk[prev..]] else [])
    else [chunk[prev..ends[0]]] + CutAt(chunk, ends[0], ends[1..])
  }

  /** The boundaries go up from `prev` to at most n. */
  predicate Within(ends: seq<nat>, prev: nat, n: nat)
    decreases ends
  {
    if ends == [] then prev <= n else prev <= ends[0] <= n && Within(ends[1..], ends[0], n)
  }

  lemma BoundariesAt(scan: Scanner, p: seq<byte>, pos: nat)
    requires pos <= |p|
    ensures var n := Front(scan, p[pos..]);
      Boundaries(scan, p[pos..], pos) == if n == 0 then [] else [pos + n] + Boundaries(scan, p[pos + n..], pos + n)
  {
    var n := Front(scan, p[pos..]);
    assert p[pos..][n..] == p[pos + n..];
  }

  /** The same by position: `size(i)` is the size of the message at i, or zero. */
  function Ends(size: nat -> nat, pos: nat, n: nat): seq<nat>
    decreases n - pos
  {
    if pos >= n || size(pos) == 0 || pos + size(pos) > n then []
    else [pos + size(pos)] + Ends(size, pos + size(pos), n)
  }

  /** `size` gives the message sizes at all positions before k. */
  ghost predicate Measures(size: nat -> nat, p: seq<byte>, k: nat)
    requires k <= |p|
  {
    k == 0 || (size(k - 1) == MessageSize(p[k - 1..]) && Measures(size, p, k - 1))
  }

  lemma {:induction false} MeasuresAt(size: nat -> nat, p: seq<byte>, k: nat, i: nat)
    requires i < k <= |p| && Measures(size, p, k)
    ensures size(i) == MessageSize(p[i..])
  {
    if i == k - 1 {
    } else {
      MeasuresAt(size, p, k - 1, i);
    }
  }

  lemma {:induction false} MeasuresAll(size: nat -> nat, p: seq<byte>, k: nat)
    requires k <= |p| && forall i: nat | i < k :: size(i) == MessageSize(p[i..])
    ensures Measures(size, p, k)
  {
    if k == 0 {
    } else {
      MeasuresAll(size, p, k - 1);
    }
  }

  ghost predicate SizesBy(scan: Scanner, p: seq<byte>, size: nat -> nat) {
    forall i: nat | i <= |p| :: size(i) == scan(p[i..])
  }

  lemma SizeBy(scan: Scanner, p: seq<byte>, size: nat -> nat, pos: nat)
    requires pos <= |p| && SizesBy(scan, p, size) && scan([]) == 0
    ensures Front(scan, p[pos..]) == if size(pos) <= |p| - pos then size(pos) else 0
    ensures pos == |p| ==> size(pos) == 0
  {
    assert pos == |p| ==> p[pos..] == [];
  }

  lemma {:induction false} EndsAreBoundaries(scan: Scanner, p: seq<byte>, size: nat -> nat, pos: nat)
    requires pos <= |p| && scan([]) == 0 && SizesBy(scan, p, size)
    ensures Ends(size, pos, |p|) == Boundaries(scan, p[pos..], pos)
    decreases |p| - pos
  {
    BoundariesAt(scan, p, pos);
    SizeBy(scan, p, size, pos);
    var n := Front(scan, p[pos..]);
    if n == 0 {
    } else {
      EndsAreBoundaries(scan, p, size, pos + n);
    }
  }

  /** Cutting at the scanned boundaries is cutting message by message. */
  lemma {:induction false} BoundariesCut(scan: Scanner, p: seq<byte>, chunk: seq<byte>, pos: nat)
    requires |p| == |chunk| && pos <= |p|
    ensures Within(Boundaries(scan, p[pos..], pos), pos, |p|)
    ensures CutAt(chunk, pos, Boundaries(scan, p[pos..], pos)) == Cuts(scan, p[pos..], chunk[pos..])
    decreases |p| - pos
  {
    var n := Front(scan, p[pos..]);
    BoundariesAt(scan, p, pos);
    if n == 0 {
    } else {
      assert p[pos..][n..] == p[pos + n..] && chunk[pos..][n..] == chunk[pos + n..];
      assert chunk[pos..][..n] == chunk[pos..pos + n];
      BoundariesCut(scan, p, chunk, pos + n);
    }
  }

  class MtProtoMessageSplitter {
    const cipher: Cipher
    var offset: nat

    /** The key and iv are the init's own, and the init has used the first 64 keystream bytes. */
    constructor (ks: Keystream, init: seq<byte>)
      requires |init| >= 64
      ensures cipher == CipherOf(ks, init) && offset == 64
    {
      var key, iv := init[8..40], init[40..56];
      cipher := Cipher(ks, key, iv);
      var skip := 64;
      offset := skip;
    }

    /** `r` is what `New` makes of an init: nothing, or a splitter of that cipher behind the init. */
    static ghost predicate Built(r: MtProtoMessageSplitter?, c: Option<Cipher>)
      reads r
    {
      match c
      case None => r == null
      case Some(cipher) => r != null && r.cipher == cipher && r.offset == 64
    }

    /** An init that is too short gives no splitter. */
    static method New(ks: Keystream, init: seq<byte>) returns (r: MtProtoMessageSplitter?)
      ensures Built(r, NewSplitter(ks, init))
      ensures r != null ==> fresh(r)
    {
      if |init| < 64 {
        return null;
      }
      r := new MtProtoMessageSplitter(ks, init);
    }

    /** The size of the message at `pos`, or zero if it is empty or not yet whole. */
    static method MessageAt(plain: seq<byte>, pos: nat, ghost size: nat -> nat) returns (n: nat)
      requires pos < |plain| && Measures(size, plain, |plain|)
      ensures n == size(pos) && pos + n <= |plain|
    {
      MeasuresAt(size, plain, |plain|, pos);
      var first := plain[pos];
      var head: nat, msgLen: nat;
      if first == 127 {
        if pos + 4 > |plain| {
          return 0;
        }
        head, msgLen := 4, LittleEndian24(plain[pos + 1], plain[pos + 2], plain[pos + 3]) * 4;
      } else {
        head, msgLen := 1, (first as int) * 4;
      }
      if msgLen == 0 || pos + head + msgLen > |plain| {
        return 0;
      }
      n := head + msgLen;
    }

    static method Scan(plain: seq<byte>, ghost size: nat -> nat) returns (boundaries: seq<nat>)
      requires Measures(size, plain, |plain|)
      ensures boundaries == Ends(size, 0, |plain|)
    {
      boundaries := [];
      var pos: nat := 0;
      ghost var all := Ends(size, 0, |plain|);
      while pos < |plain|
        invariant pos <= |plain|
        invariant all == boundaries + Ends(size, pos, |plain|)
      {
        var n := MessageAt(plain, pos, size);
        if n == 0 {
          return;
        }
        AppendAssoc(boundaries, [pos + n], Ends(size, pos + n, |plain|));
        pos := pos + n;
        boundaries := boundaries + [pos];
      }
    }

    static method Cut(chunk: seq<byte>, boundaries: seq<nat>) returns (parts: seq<seq<byte>>)
      requires Within(boundaries, 0, |chunk|)
      ensures parts == CutAt(chunk, 0, boundaries)
    {
      parts := [];
      var prev: nat := 0;
      ghost var all := CutAt(chunk, 0, boundaries);
      for i := 0 to |boundaries|
        invariant Within(boundaries[i..], prev, |chunk|)
        invariant all == parts + CutAt(chunk, prev, boundaries[i..])
      {
        var end := boundaries[i];
        assert boundaries[i..][0] == end && boundaries[i..][1..] == boundaries[i + 1..];
        AppendAssoc(parts, [chunk[prev..end]], CutAt(chunk, end, boundaries[i + 1..]));
        parts := parts + [chunk[prev..end]];
        prev := end;
      }
      if prev < |chunk| {
        parts := parts + [chunk[prev..]];
      }
    }

    method Split(chunk: seq<byte>) returns (parts: seq<seq<byte>>)
      modifies this
      ensures parts == Parts(cipher, old(offset), chunk)
      ensures offset == old(offset) + |chunk|
    {
      if chunk == [] {
        return [[]];
      }
      var plain := Crypt(cipher, offset, chunk);
      offset := offset + |chunk|;
      ghost var size := (i: nat) => if i <= |plain| then MessageSize(plain[i..]) else 0;
      MeasuresAll(size, plain, |plain|);
      var boundaries := Scan(plain, size);
      EndsAreBoundaries(MessageSize, plain, size, 0);
      if |boundaries| <= 1 {
        return [chunk];
      }
      BoundariesCut(MessageSize, plain, chunk, 0);
      assert plain[0..] == plain && chunk[0..] == chunk;
      parts := Cut(chunk, boundaries);
    }
  }

  // -------- conservation --------

  lemma {:induction false} CutsJoin(scan: Scanner, p: seq<byte>, chunk: seq<byte>)
    requires |p| == |chunk|
    ensures Join(Cuts(scan, p, chunk)) == chunk
    ensures forall i | 0 <= i < |Cuts(scan, p, chunk)| :: Cuts(scan, p, chunk)[i] != []
    decreases |p|
  {
    var n := Front(scan, p);
    if chunk == [] {
    } else {
      if n > 0 {
        CutsJoin(scan, p[n..], chunk[n..]);
        assert Cuts(scan, p, chunk)[1..] == Cuts(scan, p[n..], chunk[n..]);
        assert chunk == chunk[..n] + chunk[n..];
      } else {
        JoinOne(chunk);
      }
    }
  }

  /** One read, whatever it holds: the parts join to the read, and a nonempty read has no empty part. */
  lemma PartsJoin(c: Cipher, offset: nat, chunk: seq<byte>)
    ensures Join(Parts(c, offset, chunk)) == chunk
    ensures chunk != [] ==> forall i | 0 <= i < |Parts(c, offset, chunk)| :: Parts(c, offset, chunk)[i] != []
    ensures Parts(c, offset, chunk) != []
  {
    CutsJoin(MessageSize, Crypt(c, offset, chunk), chunk);
    JoinOne(chunk);
  }

  type Split = (nat, seq<byte>) -> seq<seq<byte>>

  function Splitting(c: Cipher): Split {
    (o: nat, chunk: seq<byte>) => Parts(c, o, chunk)
  }

  /** A whole sequence of reads through one splitter, whose first read starts at `offset`. */
  function Run(split: Split, offset: nat, chunks: seq<seq<byte>>): seq<seq<byte>>
    decreases |chunks|
  {
    if chunks == [] then []
    else
      var before := chunks[..|chunks| - 1];
      Run(split, offset, before) + split(offset + |Join(before)|, chunks[|chunks| - 1])
  }

  lemma RunSnoc(split: Split, offset: nat, before: seq<seq<byte>>, last: seq<byte>)
    ensures Run(split, offset, before + [last]) ==
      Run(split, offset, before) + split(offset + |Join(before)|, last)
  {
    assert (before + [last])[..|before|] == before;
  }

  lemma {:induction false} RunCons(split: Split, offset: nat, first: seq<byte>, rest: seq<seq<byte>>)
    ensures Run(split, offset, [first] + rest) == split(offset, first) + Run(split, offset + |first|, rest)
    decreases |rest|
  {
    if rest == [] {
      RunSnoc(split, offset, [], first);
      assert [first] + rest == [] + [first];
    } else {
      var before, last := rest[..|rest| - 1], rest[|rest| - 1];
      assert before + [last] == rest;
      assert [first] + before + [last] == [first] + rest;
      RunCons(split, offset, first, before);
      JoinCons(first, before);
      RunBothEnds(split, offset, first, before, last, [first] + before);
    }
  }

  lemma RunBothEnds(split: Split, offset: nat, first: seq<byte>, before: seq<seq<byte>>, last: seq<byte>, both: seq<seq<byte>>)
    requires Join(both) == first + Join(before)
    requires Run(split, offset, both) == split(offset, first) + Run(split, offset + |first|, before)
    ensures Run(split, offset, both + [last]) == split(offset, first) + Run(split, offset + |first|, before + [last])
  {
    RunSnoc(split, offset, both, last);
    RunSnoc(split, offset + |first|, before, last);
    AppendAssoc(split(offset, first), Run(split, offset + |first|, before), split(offset + |first| + |Join(before)|, last));
  }

  ghost predicate Conserves(split: Split) {
    forall o: nat, chunk: seq<byte> :: Join(split(o, chunk)) == chunk
  }

  lemma SplittingConserves(c: Cipher)
    ensures Conserves(Splitting(c))
  {
    forall o: nat, chunk: seq<byte> ensures Join(Splitting(c)(o, chunk)) == chunk {
      PartsJoin(c, o, chunk);
    }
  }

  /** Over any reads no byte is lost, added or moved. */
  lemma {:induction false} RunJoin(split: Split, offset: nat, chunks: seq<seq<byte>>)
    requires Conserves(split)
    ensures Join(Run(split, offset, chunks)) == Join(chunks)
    decreases |chunks|
  {
    if chunks == [] {
    } else {
      var before, last := chunks[..|chunks| - 1], chunks[|chunks| - 1];
      RunJoin(split, offset, before);
      JoinAppend(Run(split, offset, before), split(offset + |Join(before)|, last));
      assert chunks == before + [last];
      JoinSnoc(before, last);
    }
  }

  /** Each read is decrypted at its own place in the stream: its plaintext is a slice of the stream's plaintext. */
  lemma ReadAtItsOffset(c: Cipher, offset: nat, before: seq<seq<byte>>, chunk: seq<byte>, after: seq<seq<byte>>)
    ensures Crypt(c, offset, Join(before + [chunk] + after)) ==
      Crypt(c, offset, Join(before))
      + Crypt(c, offset + |Join(before)|, chunk)
      + Crypt(c, offset + |Join(before)| + |chunk|, Join(after))
  {
    JoinAppend(before + [chunk], after);
    JoinSnoc(before, chunk);
    CryptAppend(c, offset, Join(before) + chunk, Join(after));
    CryptAppend(c, offset, Join(before), chunk);
  }

  // -------- framing --------

  /** An abridged-transport message: one length byte, or 0x7f and three, counting words of four bytes. */
  datatype Message = Message(long: bool, body: seq<byte>) {
    function Words(): nat {
      |body| / 4
    }

    /** The scanner also takes the short lengths 0x80 to 0xff, which the transport itself does not use. */
    ghost predicate WellFormed() {
      && |body| > 0 && |body| % 4 == 0
      && (if long then Words() < 16777216 else Words() < 256 && Words() != 127)
    }
  }

  function Wire(m: Message): seq<byte> {
    (if m.long then [127, m.Words() % 256, m.Words() / 256 % 256, m.Words() / 256 / 256 % 256] else [m.Words() % 256])
    + m.body
  }

  ghost predicate AllWellFormed(ms: seq<Message>) {
    forall i | 0 <= i < |ms| :: ms[i].WellFormed()
  }

  function Wires(ms: seq<Message>): (ws: seq<seq<byte>>)
    ensures |ws| == |ms|
    ensures forall i | 0 <= i < |ms| :: ws[i] == Wire(ms[i])
  {
    seq(|ms|, i requires 0 <= i < |ms| => Wire(ms[i]))
  }

  /** The header bytes: the count of four-byte words, or 0x7f and the count in three bytes, least significant first. */
  lemma WireBytes(m: Message)
    requires m.WellFormed()
    ensures var n := |m.body| / 4;
      Wire(m) == if m.long then [0x7f, n % 256, n / 256 % 256, n / 65536] + m.body else [n] + m.body
  {
    var n := |m.body| / 4;
    assert n / 256 / 256 == n / 65536;
    if m.long {
      assert n / 65536 < 256;
    }
  }

  /** What the scanner makes of the same headers in front of any bytes. */
  lemma ShortHeader(b: byte, rest: seq<byte>)
    requires b != 0x7f
    ensures MessageSize([b] + rest) == if 0 < 4 * (b as int) <= |rest| then 1 + 4 * (b as int) else 0
  {
  }

  lemma LongHeader(x: byte, y: byte, z: byte, rest: seq<byte>)
    ensures var len := 4 * ((x as int) + 256 * (y as int) + 65536 * (z as int));
      MessageSize([0x7f, x, y, z] + rest) == if 0 < len <= |rest| then 4 + len else 0
  {
  }

  /** The scanner takes all of w for one message. */
  predicate ScansWhole(w: seq<byte>) {
    w != [] && MessageSize(w) == |w|
  }

  /** It then does so whatever comes behind w. */
  lemma ScansWholeAhead(w: seq<byte>, more: seq<byte>)
    requires ScansWhole(w)
    ensures MessageSize(w + more) == |w|
  {
  }

  lemma ThreeBytes(w: nat)
    requires w < 16777216
    ensures LittleEndian24(w % 256, w / 256 % 256, w / 256 / 256 % 256) == w
  {
    var q := w / 256;
    var t := q / 256;
    assert w == 256 * q + w % 256 && q == 256 * t + q % 256;
    assert t < 256 && t % 256 == t;
  }

  lemma WireScansWhole(m: Message)
    requires m.WellFormed()
    ensures ScansWhole(Wire(m))
  {
    var w := m.Words();
    assert 4 * w == |m.body|;
    if m.long {
      ThreeBytes(w);
      LongHeader(w % 256, w / 256 % 256, w / 256 / 256 % 256, m.body);
    } else {
      ShortHeader(w % 256, m.body);
    }
  }

  /** A message cut short is not yet a message. */
  lemma TruncatedIsStuck(m: Message, n: nat)
    requires m.WellFormed() && n < |Wire(m)|
    ensures MessageSize(Wire(m)[..n]) == 0
  {
    WireScansWhole(m);
  }

  /** A stream of messages as it is on the wire, each message encrypted at its own keystream offset. */
  function Sealed(c: Cipher, offset: nat, ws: seq<seq<byte>>): (r: seq<seq<byte>>)
    ensures |r| == |ws|
    decreases ws
  {
    if ws == [] then [] else [Crypt(c, offset, ws[0])] + Sealed(c, offset + |ws[0]|, ws[1..])
  }

  lemma SealedCons(c: Cipher, offset: nat, w: seq<byte>, ws: seq<seq<byte>>)
    ensures Sealed(c, offset, [w] + ws) == [Crypt(c, offset, w)] + Sealed(c, offset + |w|, ws)
  {
    assert ([w] + ws)[1..] == ws;
  }

  lemma {:induction false} SealedAppend(c: Cipher, offset: nat, a: seq<seq<byte>>, b: seq<seq<byte>>)
    ensures Sealed(c, offset, a + b) == Sealed(c, offset, a) + Sealed(c, offset + |Join(a)|, b)
    decreases a
  {
    if a == [] {
      assert a + b == b;
    } else {
      assert (a + b)[1..] == a[1..] + b;
      SealedAppend(c, offset + |a[0]|, a[1..], b);
    }
  }

  lemma {:induction false} SealedJoin(c: Cipher, offset: nat, ws: seq<seq<byte>>)
    ensures Join(Sealed(c, offset, ws)) == Crypt(c, offset, Join(ws))
    decreases ws
  {
    if ws == [] {
    } else {
      SealedJoin(c, offset + |ws[0]|, ws[1..]);
      CryptAppend(c, offset, ws[0], Join(ws[1..]));
    }
  }

  /** The bytes behind the last whole message, as a part of their own if there are any. */
  function SealedTail(c: Cipher, offset: nat, tail: seq<byte>): seq<seq<byte>> {
    if tail == [] then [] else [Crypt(c, offset, tail)]
  }

  /** The scanner takes w for one message, whatever comes behind it. */
  ghost predicate Takes(scan: Scanner, w: seq<byte>) {
    w != [] && forall more: seq<byte> :: scan(w + more) == |w|
  }

  lemma ScansTaken(w: seq<byte>)
    requires ScansWhole(w)
    ensures Takes(MessageSize, w)
  {
    forall more: seq<byte> ensures MessageSize(w + more) == |w| {
      ScansWholeAhead(w, more);
    }
  }

  lemma CutsStep(scan: Scanner, c: Cipher, offset: nat, w: seq<byte>, more: seq<byte>)
    requires w != [] && scan(w + more) == |w|
    ensures Cuts(scan, w + more, Crypt(c, offset, w + more)) ==
      [Crypt(c, offset, w)] + Cuts(scan, more, Crypt(c, offset + |w|, more))
  {
    var p, n := w + more, |w|;
    var chunk := Crypt(c, offset, p);
    CryptAppend(c, offset, w, more);
    assert p[n..] == more;
    assert chunk[..n] == Crypt(c, offset, w);
    assert chunk[n..] == Crypt(c, offset + n, more);
  }

  lemma {:induction false} CutsOfWhole(scan: Scanner, c: Cipher, offset: nat, ws: seq<seq<byte>>, tail: seq<byte>)
    requires forall i | 0 <= i < |ws| :: Takes(scan, ws[i])
    requires scan(tail) == 0
    ensures Cuts(scan, Join(ws) + tail, Crypt(c, offset, Join(ws) + tail)) ==
      Sealed(c, offset, ws) + SealedTail(c, offset + |Join(ws)|, tail)
    decreases ws
  {
    if ws == [] {
      assert Join(ws) + tail == tail;
    } else {
      var w, more := ws[0], Join(ws[1..]) + tail;
      CutsStep(scan, c, offset, w, more);
      CutsOfWhole(scan, c, offset + |w|, ws[1..], tail);
      AppendAssoc(w, Join(ws[1..]), tail);
      AppendAssoc([Crypt(c, offset, w)], Sealed(c, offset + |w|, ws[1..]), SealedTail(c, offset + |Join(ws)|, tail));
    }
  }

  lemma {:induction false} BoundariesOfWhole(scan: Scanner, ws: seq<seq<byte>>, tail: seq<byte>, base: nat)
    requires forall i | 0 <= i < |ws| :: Takes(scan, ws[i])
    requires scan(tail) == 0
    ensures |Boundaries(scan, Join(ws) + tail, base)| == |ws|
    decreases ws
  {
    if ws == [] {
      assert Join(ws) + tail == tail;
    } else {
      var w, more := ws[0], Join(ws[1..]) + tail;
      assert Join(ws) + tail == w + more;
      assert scan(w + more) == |w|;
      assert (w + more)[|w|..] == more;
      BoundariesOfWhole(scan, ws[1..], tail, base + |w|);
    }
  }

  lemma WiresTaken(ms: seq<Message>)
    requires AllWellFormed(ms)
    ensures forall i | 0 <= i < |ms| :: Takes(MessageSize, Wires(ms)[i])
  {
    forall i | 0 <= i < |ms| ensures Takes(MessageSize, Wires(ms)[i]) {
      WireScansWhole(ms[i]);
      ScansTaken(Wire(ms[i]));
    }
  }

  lemma SplitTaken(scan: Scanner, c: Cipher, offset: nat, ws: seq<seq<byte>>, tail: seq<byte>, chunk: seq<byte>)
    requires (forall i | 0 <= i < |ws| :: Takes(scan, ws[i])) && scan(tail) == 0
    requires chunk == Crypt(c, offset, Join(ws) + tail)
    ensures |ws| >= 2 || (|ws| == 1 && tail == []) ==>
      PartsBy(scan, c, offset, chunk) == Sealed(c, offset, ws) + SealedTail(c, offset + |Join(ws)|, tail)
    ensures |ws| == 0 || (|ws| == 1 && tail != []) ==> PartsBy(scan, c, offset, chunk) == [chunk]
  {
    CryptTwice(c, offset, Join(ws) + tail);
    CutsOfWhole(scan, c, offset, ws, tail);
    BoundariesOfWhole(scan, ws, tail, 0);
    if |ws| == 1 && tail == [] {
      assert ws == [ws[0]];
      JoinOne(ws[0]);
      AppendNothing(ws[0]);
      assert Sealed(c, offset, ws) == [chunk];
    }
  }

  /** The cut, for every read that starts on a message boundary: whole messages one by one, then the tail. */
  lemma SplitMessages(c: Cipher, offset: nat, ms: seq<Message>, tail: seq<byte>, chunk: seq<byte>)
    requires AllWellFormed(ms) && MessageSize(tail) == 0
    requires chunk == Crypt(c, offset, Join(Wires(ms)) + tail)
    ensures |ms| >= 2 || (|ms| == 1 && tail == []) ==>
      Parts(c, offset, chunk) == Sealed(c, offset, Wires(ms)) + SealedTail(c, offset + |Join(Wires(ms))|, tail)
    ensures |ms| == 0 || (|ms| == 1 && tail != []) ==> Parts(c, offset, chunk) == [chunk]
  {
    WiresTaken(ms);
    SplitTaken(MessageSize, c, offset, Wires(ms), tail, chunk);
  }

  /** The message the scanner sees at the front of p. */
  lemma FrontMessage(p: seq<byte>) returns (m: Message)
    requires MessageSize(p) > 0
    ensures m.WellFormed() && Wire(m) == p[..MessageSize(p)]
  {
    var n, h := MessageSize(p), if p[0] == 127 then 4 else 1;
    m := Message(p[0] == 127, p[h..n]);
    if p[0] == 127 {
      var a, b, d: nat := p[1], p[2], p[3];
      var w := a + 256 * b + 65536 * d;
      assert m.Words() == w;
      assert w / 256 == b + 256 * d && w / 256 / 256 == d;
      assert w % 256 == a && w / 256 % 256 == b && d % 256 == d;
      assert p[..4] == [p[0], p[1], p[2], p[3]];
    }
    assert p[..n] == p[..h] + p[h..n];
  }

  /** Every plaintext is messages and a tail, so the lemma above covers every possible read. */
  lemma {:induction false} Decompose(p: seq<byte>) returns (ms: seq<Message>, tail: seq<byte>)
    ensures AllWellFormed(ms) && MessageSize(tail) == 0 && p == Join(Wires(ms)) + tail
    decreases |p|
  {
    var n := MessageSize(p);
    if n == 0 {
      ms, tail := [], p;
      assert Join(Wires(ms)) + p == p;
    } else {
      var m := FrontMessage(p);
      var rest;
      rest, tail := Decompose(p[n..]);
      ms := [m] + rest;
      assert Wires(ms)[1..] == Wires(rest);
      assert Join(Wires(ms)) == p[..n] + Join(Wires(rest));
    }
  }

  /** Plaintexts of reads that each hold a group of whole messages. */
  function Bodies(groups: seq<seq<seq<byte>>>): (r: seq<seq<byte>>)
    ensures |r| == |groups|
    ensures forall i | 0 <= i < |groups| :: r[i] == Join(groups[i])
  {
    seq(|groups|, i requires 0 <= i < |groups| => Join(groups[i]))
  }

  /** At any offset the splitter answers a read of the messages ws with exactly those messages. */
  ghost predicate Seals(c: Cipher, split: Split, ws: seq<seq<byte>>) {
    forall o: nat :: split(o, Crypt(c, o, Join(ws))) == Sealed(c, o, ws)
  }

  lemma SplittingSeals(c: Cipher, ms: seq<Message>)
    requires ms != [] && AllWellFormed(ms)
    ensures Seals(c, Splitting(c), Wires(ms))
  {
    forall o: nat ensures Splitting(c)(o, Crypt(c, o, Join(Wires(ms)))) == Sealed(c, o, Wires(ms)) {
      assert Join(Wires(ms)) + [] == Join(Wires(ms));
      SplitMessages(c, o, ms, [], Crypt(c, o, Join(Wires(ms))));
    }
  }

  lemma AlignedStep(c: Cipher, split: Split, offset: nat, g: seq<seq<byte>>, later: seq<seq<byte>>, more: seq<seq<byte>>)
    requires Seals(c, split, g)
    requires Run(split, offset + |Join(g)|, later) == Sealed(c, offset + |Join(g)|, more)
    ensures Run(split, offset, [Crypt(c, offset, Join(g))] + later) ==
      Sealed(c, offset, g) + Sealed(c, offset + |Join(g)|, more)
  {
    RunCons(split, offset, Crypt(c, offset, Join(g)), later);
  }

  lemma {:induction false} AlignedRun(c: Cipher, split: Split, offset: nat, groups: seq<seq<seq<byte>>>)
    requires forall i | 0 <= i < |groups| :: Seals(c, split, groups[i])
    ensures Run(split, offset, Sealed(c, offset, Bodies(groups))) == Sealed(c, offset, Join(groups))
    decreases |groups|
  {
    if groups == [] {
    } else {
      var g, rest := groups[0], groups[1..];
      var o := offset + |Join(g)|;
      AlignedRun(c, split, o, rest);
      assert Bodies(groups) == [Join(g)] + Bodies(rest);
      SealedCons(c, offset, Join(g), Bodies(rest));
      AlignedStep(c, split, offset, g, Sealed(c, o, Bodies(rest)), Join(rest));
      SealedAppend(c, offset, g, Join(rest));
    }
  }

  function GroupWires(groups: seq<seq<Message>>): (ws: seq<seq<seq<byte>>>)
    ensures |ws| == |groups|
    ensures forall i | 0 <= i < |groups| :: ws[i] == Wires(groups[i])
  {
    seq(|groups|, i requires 0 <= i < |groups| => Wires(groups[i]))
  }

  lemma WiresAppend(a: seq<Message>, b: seq<Message>)
    ensures Wires(a + b) == Wires(a) + Wires(b)
  {
  }

  lemma {:induction false} WiresJoin(groups: seq<seq<Message>>)
    ensures Join(GroupWires(groups)) == Wires(Join(groups))
  {
    if groups == [] {
    } else {
      WiresJoin(groups[1..]);
      assert GroupWires(groups)[1..] == GroupWires(groups[1..]);
      WiresAppend(groups[0], Join(groups[1..]));
    }
  }

  lemma {:induction false} GroupsWellFormed(groups: seq<seq<Message>>, i: nat)
    requires AllWellFormed(Join(groups)) && i < |groups|
    ensures AllWellFormed(groups[i])
  {
    var first, rest := groups[0], Join(groups[1..]);
    assert Join(groups) == first + rest;
    if i > 0 {
      assert forall k | 0 <= k < |rest| :: rest[k] == Join(groups)[|first| + k];
      GroupsWellFormed(groups[1..], i - 1);
    } else {
      assert forall k | 0 <= k < |first| :: first[k] == Join(groups)[k];
    }
  }

  /** The reads group the messages: each read is one or more of them, encrypted where the reads before it end. */
  ghost predicate Groups(c: Cipher, offset: nat, groups: seq<seq<Message>>, ms: seq<Message>, chunks: seq<seq<byte>>) {
    && (forall i | 0 <= i < |groups| :: groups[i] != [])
    && Join(groups) == ms
    && chunks == Sealed(c, offset, Bodies(GroupWires(groups)))
  }

  /** No read starts or ends inside a message. */
  ghost predicate OnBoundaries(c: Cipher, offset: nat, ms: seq<Message>, chunks: seq<seq<byte>>) {
    exists groups :: Groups(c, offset, groups, ms, chunks)
  }

  lemma AlignedReads(c: Cipher, offset: nat, groups: seq<seq<Message>>, ms: seq<Message>, chunks: seq<seq<byte>>)
    requires AllWellFormed(ms) && Groups(c, offset, groups, ms, chunks)
    ensures Run(Splitting(c), offset, chunks) == Sealed(c, offset, Wires(ms))
  {
    var ws := GroupWires(groups);
    forall i | 0 <= i < |ws| ensures Seals(c, Splitting(c), ws[i]) {
      GroupsWellFormed(groups, i);
      SplittingSeals(c, groups[i]);
    }
    AlignedRun(c, Splitting(c), offset, ws);
    WiresJoin(groups);
  }

  /** Every read comes out as at least one part. */
  ghost predicate Answers(split: Split) {
    forall o: nat, chunk: seq<byte> :: split(o, chunk) != []
  }

  lemma BodiesSnoc(groups: seq<seq<Message>>, g: seq<Message>)
    ensures Bodies(GroupWires(groups + [g])) == Bodies(GroupWires(groups)) + [Join(Wires(g))]
  {
  }

  lemma GroupsSnoc(c: Cipher, offset: nat, groups: seq<seq<Message>>, ms: seq<Message>, chunks: seq<seq<byte>>, g: seq<Message>)
    requires Groups(c, offset, groups, ms, chunks) && g != []
    ensures Groups(c, offset, groups + [g], ms + g, chunks + [Crypt(c, offset + |Join(chunks)|, Join(Wires(g)))])
  {
    JoinSnoc(groups, g);
    var bodies, last := Bodies(GroupWires(groups)), Join(Wires(g));
    BodiesSnoc(groups, g);
    SealedAppend(c, offset, bodies, [last]);
    SealedJoin(c, offset, bodies);
    assert Sealed(c, offset + |Join(chunks)|, [last]) == [Crypt(c, offset + |Join(chunks)|, last)];
  }

  /** If earlier parts and the last read's parts are together the messages, each are some of the messages. */
  lemma LastRead(c: Cipher, offset: nat, front: seq<seq<byte>>, g: seq<seq<byte>>, run: seq<seq<byte>>, parts: seq<seq<byte>>)
    requires |front| == |run| && parts != []
    requires run + parts == Sealed(c, offset, front) + Sealed(c, offset + |Join(front)|, g)
    ensures run == Sealed(c, offset, front) && g != []
    ensures Join(parts) == Crypt(c, offset + |Join(run)|, Join(g))
  {
    SameHalves(run, parts, Sealed(c, offset, front), Sealed(c, offset + |Join(front)|, g));
    SealedJoin(c, offset, front);
    SealedJoin(c, offset + |Join(front)|, g);
  }

  lemma LastGroup(c: Cipher, offset: nat, ws: seq<seq<byte>>, run: seq<seq<byte>>, parts: seq<seq<byte>>)
    requires parts != [] && run + parts == Sealed(c, offset, ws)
    ensures |run| < |ws|
    ensures run == Sealed(c, offset, ws[..|run|])
    ensures Join(parts) == Crypt(c, offset + |Join(run)|, Join(ws[|run|..]))
  {
    assert |run| + |parts| == |ws|;
    var front, g := ws[..|run|], ws[|run|..];
    assert ws == front + g;
    SealedAppend(c, offset, front, g);
    LastRead(c, offset, front, g, run, parts);
  }

  lemma WiresSlices(ms: seq<Message>, n: nat)
    requires n <= |ms|
    ensures Wires(ms)[..n] == Wires(ms[..n]) && Wires(ms)[n..] == Wires(ms[n..])
  {
  }

  /** Parts never span reads, so if the parts are the messages, the reads group the messages. */
  lemma {:induction false} GroupsOf(c: Cipher, split: Split, offset: nat, ms: seq<Message>, chunks: seq<seq<byte>>)
    returns (groups: seq<seq<Message>>)
    requires Conserves(split) && Answers(split)
    requires Run(split, offset, chunks) == Sealed(c, offset, Wires(ms))
    ensures Groups(c, offset, groups, ms, chunks)
    decreases |chunks|
  {
    if chunks == [] {
      groups := [];
    } else {
      var before, last := chunks[..|chunks| - 1], chunks[|chunks| - 1];
      var run := Run(split, offset, before);
      LastGroup(c, offset, Wires(ms), run, split(offset + |Join(before)|, last));
      WiresSlices(ms, |run|);
      RunJoin(split, offset, before);
      groups := GroupsOf(c, split, offset, ms[..|run|], before);
      GroupsLast(c, offset, groups, ms, chunks, |run|);
      groups := groups + [ms[|run|..]];
    }
  }

  lemma GroupsLast(c: Cipher, offset: nat, groups: seq<seq<Message>>, ms: seq<Message>, chunks: seq<seq<byte>>, n: nat)
    requires n < |ms| && chunks != []
    requires var before := chunks[..|chunks| - 1];
      && Groups(c, offset, groups, ms[..n], before)
      && chunks[|chunks| - 1] == Crypt(c, offset + |Join(before)|, Join(Wires(ms[n..])))
    ensures Groups(c, offset, groups + [ms[n..]], ms, chunks)
  {
    var before, last := chunks[..|chunks| - 1], chunks[|chunks| - 1];
    GroupsSnoc(c, offset, groups, ms[..n], before, ms[n..]);
    assert ms == ms[..n] + ms[n..] && chunks == before + [last];
  }

  lemma SameHalves<T>(a: seq<T>, b: seq<T>, x: seq<T>, y: seq<T>)
    requires a + b == x + y && |a| == |x|
    ensures a == x && b == y
  {
    assert a == (a + b)[..|a|] && b == (a + b)[|a|..];
  }

  /**
   Exactly when the grouping into reads leaves no trace: over any reads of any stream, the parts are
   the stream's encrypted messages in order if and only if no read starts or ends inside a message.
   */
  lemma FramedIffOnBoundaries(c: Cipher, offset: nat, ms: seq<Message>, chunks: seq<seq<byte>>)
    requires AllWellFormed(ms)
    ensures Run(Splitting(c), offset, chunks) == Sealed(c, offset, Wires(ms)) <==> OnBoundaries(c, offset, ms, chunks)
  {
    if Run(Splitting(c), offset, chunks) == Sealed(c, offset, Wires(ms)) {
      SplittingConserves(c);
      SplittingAnswers(c);
      var groups := GroupsOf(c, Splitting(c), offset, ms, chunks);
    }
    if OnBoundaries(c, offset, ms, chunks) {
      var groups :| Groups(c, offset, groups, ms, chunks);
      AlignedReads(c, offset, groups, ms, chunks);
    }
  }

  lemma SplittingAnswers(c: Cipher)
    ensures Answers(Splitting(c))
  {
    forall o: nat, chunk: seq<byte> ensures Splitting(c)(o, chunk) != [] {
      PartsJoin(c, o, chunk);
    }
  }

  /**
   A read that starts inside a message may be cut anywhere: here one message, whose body happens to
   look like two messages and a bit, arrives as its length byte and then its body, and the body
   falls into three parts.
   */
  lemma MisalignedReadIsCut(c: Cipher, a: Message, m: Message, chunk: seq<byte>)
    requires a == Message(false, [0, 0, 0, 0]) && m == Message(false, Join(Wires([a, a])) + [0, 0])
    requires chunk == Crypt(c, 64, Wire(m))[1..]
    ensures m.WellFormed() && |Parts(c, 65, chunk)| == 3
  {
    TwiceJoined(a);
    BodyRead(c, m);
    var ms := [a, a];
    assert AllWellFormed(ms);
    SplitMessages(c, 65, ms, [0, 0], chunk);
  }

  lemma BodyRead(c: Cipher, m: Message)
    requires !m.long
    ensures Crypt(c, 64, Wire(m))[1..] == Crypt(c, 65, m.body)
  {
    var n: byte := m.Words() % 256;
    CryptAppend(c, 64, [n], m.body);
  }

  lemma TwiceJoined(a: Message)
    ensures |Join(Wires([a, a]))| == 2 * |Wire(a)|
  {
    var w := Wires([a, a]);
    assert w == [Wire(a)] + [Wire(a)];
    JoinCons(Wire(a), [Wire(a)]);
    JoinOne(Wire(a));
  }
}
