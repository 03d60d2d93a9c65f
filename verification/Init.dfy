/**
 The 64-byte MTProto init packet (src/modules/telegram/init.rs) and its resolution to a data centre
 (src/modules/routing.rs, resolve_telegram_init). Bytes 8..40 and 40..56 are key and iv in the clear;
 bytes 56..62 hold, encrypted, a protocol magic and a signed data-centre number.
 */
module Init {
  import opened Bytes
  import opened Splitter

  datatype InitInfo = InitInfo(dc: Option<byte>, media: bool)

  datatype Entry = Entry(dc: byte, media: bool) {
    predicate Valid() {
      1 <= dc <= 5
    }

    function Signed(): int {
      if media then -(dc as int) else dc as int
    }
  }

  const UNKNOWN := InitInfo(None, false)

  /** The decrypted last eight bytes. */
  function Plain(ks: Keystream, data: seq<byte>): (p: seq<byte>)
    requires |data| >= 64
    ensures |p| == 8
  {
    Crypt(CipherOf(ks, data), 56, data[56..64])
  }

  function LittleEndian32(p: seq<byte>): nat
    requires |p| >= 4
  {
    (p[0] as int) + 256 * (p[1] as int) + 65536 * (p[2] as int) + 16777216 * (p[3] as int)
  }

  /** A recognised protocol: abridged, intermediate or padded intermediate. */
  predicate Recognised(ks: Keystream, data: seq<byte>) {
    |data| >= 64 && LittleEndian32(Plain(ks, data)) in {0xEFEFEFEF, 0xEEEEEEEE, 0xDDDDDDDD}
  }

  function SignedLE(lo: byte, hi: byte): int {
    var u := (lo as int) + 256 * (hi as int);
    if u < 32768 then u else u - 65536
  }

  /** The signed 16-bit number the packet carries. */
  function RawDc(ks: Keystream, data: seq<byte>): int
    requires |data| >= 64
  {
    SignedLE(Plain(ks, data)[4], Plain(ks, data)[5])
  }

  function Abs(x: int): nat {
    if x < 0 then -x else x
  }

  /** The source narrows the absolute value to eight bits before checking its range. */
  function InfoOf(raw: int): InitInfo {
    if 1 <= Abs(raw) % 256 <= 5 then InitInfo(Some(Abs(raw) % 256), raw < 0) else UNKNOWN
  }

  function ExtractDc(ks: Keystream, data: seq<byte>): InitInfo {
    if Recognised(ks, data) then InfoOf(RawDc(ks, data)) else UNKNOWN
  }

  function LoByte(d: int): byte {
    d % 256
  }

  function HiByte(d: int): byte {
    d / 256 % 256
  }

  function Patch(ks: Keystream, data: seq<byte>, d: int): (out: seq<byte>)
    ensures |out| == |data|
  {
    if |data| < 64 then data
    else
      var c := CipherOf(ks, data);
      data[60 := Xor(c.At(60), LoByte(d))][61 := Xor(c.At(61), HiByte(d))]
  }

  // -------- as the source runs them --------

  method KeystreamOf(ks: Keystream, data: seq<byte>) returns (stream: array<byte>)
    requires |data| >= 64
    ensures fresh(stream) && stream.Length == 64
    ensures forall i | 0 <= i < 64 :: stream[i] == CipherOf(ks, data).At(i)
  {
    var c := Cipher(ks, data[8..40], data[40..56]);
    stream := new byte[64](_ => 0);
    for i := 0 to 64
      invariant forall j | 0 <= j < i :: stream[j] == c.At(j)
      invariant forall j | i <= j < 64 :: stream[j] == 0
    {
      XorZero(c.At(i));
      stream[i] := Xor(stream[i], c.At(i));
    }
  }

  method DecryptHeader(ks: Keystream, data: seq<byte>) returns (plain: seq<byte>)
    requires |data| >= 64
    ensures plain == Plain(ks, data)
  {
    var stream := KeystreamOf(ks, data);
    plain := [];
    for i := 0 to 8
      invariant plain == Plain(ks, data)[..i]
    {
      plain := plain + [Xor(data[56 + i], stream[56 + i])];
    }
  }

  method ExtractInit(ks: Keystream, data: seq<byte>) returns (info: InitInfo)
    ensures info == ExtractDc(ks, data)
  {
    if |data| < 64 {
      return UNKNOWN;
    }
    var plain := DecryptHeader(ks, data);
    var proto := LittleEndian32(plain);
    if proto != 0xEFEFEFEF && proto != 0xEEEEEEEE && proto != 0xDDDDDDDD {
      return UNKNOWN;
    }
    var raw := SignedLE(plain[4], plain[5]);
    var dc := Abs(raw) % 256;
    info := if 1 <= dc <= 5 then InitInfo(Some(dc), raw < 0) else UNKNOWN;
  }

  method PatchInit(ks: Keystream, data: seq<byte>, d: int) returns (out: seq<byte>)
    ensures out == Patch(ks, data, d)
  {
    if |data| < 64 {
      return data;
    }
    var stream := KeystreamOf(ks, data);
    var buf := new byte[64](i requires 0 <= i < 64 => data[i]);
    buf[60] := Xor(stream[60], LoByte(d));
    buf[61] := Xor(stream[61], HiByte(d));
    out := buf[..];
    if |data| > 64 {
      out := out + data[64..];
    }
  }

  // -------- patch and extract --------

  predicate IsI16(d: int) {
    -32768 <= d < 32768
  }

  lemma SignedRoundTrip(d: int)
    requires IsI16(d)
    ensures SignedLE(LoByte(d), HiByte(d)) == d
  {
  }

  /** Patching changes bytes 60 and 61 at most: the cipher, the magic and every other byte stay. */
  lemma PatchTouches(ks: Keystream, data: seq<byte>, d: int)
    ensures forall i | 0 <= i < |data| && i != 60 && i != 61 :: Patch(ks, data, d)[i] == data[i]
    ensures |data| >= 64 ==> CipherOf(ks, Patch(ks, data, d)) == CipherOf(ks, data)
    ensures Recognised(ks, Patch(ks, data, d)) <==> Recognised(ks, data)
  {
    if |data| >= 64 {
      var out := Patch(ks, data, d);
      assert out[8..40] == data[8..40] && out[40..56] == data[40..56];
      assert forall i | 0 <= i < 4 :: Plain(ks, out)[i] == Plain(ks, data)[i];
    }
  }

  lemma PatchedRaw(ks: Keystream, data: seq<byte>, d: int)
    requires |data| >= 64 && IsI16(d)
    ensures RawDc(ks, Patch(ks, data, d)) == d
  {
    var c, out := CipherOf(ks, data), Patch(ks, data, d);
    PatchTouches(ks, data, d);
    forall x: byte, k: byte ensures Xor(Xor(k, x), k) == x {
      XorCommutes(k, x);
      XorCancels(x, k);
    }
    assert Plain(ks, out)[4] == Xor(Xor(c.At(60), LoByte(d)), c.At(60));
    assert Plain(ks, out)[5] == Xor(Xor(c.At(61), HiByte(d)), c.At(61));
    SignedRoundTrip(d);
  }

  /** Extraction after a patch, for every packet and every 16-bit number. */
  lemma ExtractPatched(ks: Keystream, data: seq<byte>, d: int)
    requires IsI16(d)
    ensures ExtractDc(ks, Patch(ks, data, d)) == if Recognised(ks, data) then InfoOf(d) else UNKNOWN
  {
    PatchTouches(ks, data, d);
    if |data| >= 64 {
      PatchedRaw(ks, data, d);
    }
  }

  lemma EntryInfo(entry: Entry)
    requires entry.Valid()
    ensures IsI16(entry.Signed()) && InfoOf(entry.Signed()) == InitInfo(Some(entry.dc), entry.media)
  {
    var d := entry.Signed();
    assert Abs(d) == entry.dc as int && Abs(d) % 256 == Abs(d);
  }

  /** In particular a patched-in data centre is read back with its sign. */
  lemma PatchThenExtract(ks: Keystream, data: seq<byte>, entry: Entry)
    requires Recognised(ks, data) && entry.Valid()
    ensures ExtractDc(ks, Patch(ks, data, entry.Signed())) == InitInfo(Some(entry.dc), entry.media)
  {
    EntryInfo(entry);
    ExtractPatched(ks, data, entry.Signed());
  }

  /** The second patch wins, and leaves no trace of the first. */
  lemma PatchOverrides(ks: Keystream, data: seq<byte>, d: int, d': int)
    ensures Patch(ks, Patch(ks, data, d), d') == Patch(ks, data, d')
  {
    PatchTouches(ks, data, d);
  }

  lemma PatchedByte(x: byte, k: byte)
    ensures Xor(k, Xor(x, k)) == x
  {
    XorCommutes(k, Xor(x, k));
    XorCancels(x, k);
  }

  lemma BytesOfSigned(lo: byte, hi: byte)
    ensures LoByte(SignedLE(lo, hi)) == lo && HiByte(SignedLE(lo, hi)) == hi
  {
    var l, h := lo as int, hi as int;
    var u := l + 256 * h;
    assert u % 256 == l && u / 256 == h;
    assert (u - 65536) % 256 == l && (u - 65536) / 256 == h - 256;
  }

  /** Reading back what is already there and patching it in changes nothing. */
  lemma PatchRestores(ks: Keystream, data: seq<byte>)
    requires |data| >= 64
    ensures Patch(ks, data, RawDc(ks, data)) == data
  {
    var c, p := CipherOf(ks, data), Plain(ks, data);
    BytesOfSigned(p[4], p[5]);
    PatchedByte(data[60], c.At(60));
    PatchedByte(data[61], c.At(61));
  }

  lemma NarrowingExact(raw: int)
    ensures InfoOf(raw).dc.Some? && InfoOf(raw).dc.value as int == Abs(raw) <==> 1 <= Abs(raw) <= 5
    ensures raw == 258 ==> InfoOf(raw).dc == Some(2)
  {
    if 1 <= Abs(raw) <= 5 {
      assert Abs(raw) % 256 == Abs(raw);
    }
  }

  lemma ExtractIs(ks: Keystream, data: seq<byte>, raw: int)
    requires Recognised(ks, data) && raw == RawDc(ks, data)
    ensures ExtractDc(ks, data) == InfoOf(raw)
  {
  }

  /** Because of the narrowing, what is extracted is the packet's own number exactly when that is small: 258 reads as 2. */
  lemma ExtractedIsCarried(ks: Keystream, data: seq<byte>, raw: int, info: InitInfo)
    requires Recognised(ks, data) && raw == RawDc(ks, data) && info == ExtractDc(ks, data)
    ensures info.dc.Some? && info.dc.value as int == Abs(raw) <==> 1 <= Abs(raw) <= 5
    ensures raw == 258 ==> info.dc == Some(2)
  {
    ExtractIs(ks, data, raw);
    NarrowingExact(raw);
  }

  // -------- the packet byte by byte --------

  /** Three magics are recognised, each one byte four times: abridged, intermediate and padded intermediate. */
  predicate IsMagic(m: seq<byte>) {
    m == [0xEF, 0xEF, 0xEF, 0xEF] || m == [0xEE, 0xEE, 0xEE, 0xEE] || m == [0xDD, 0xDD, 0xDD, 0xDD]
  }

  lemma MagicBytes(p: seq<byte>)
    requires |p| == 8
    ensures LittleEndian32(p) in {0xEFEFEFEF, 0xEEEEEEEE, 0xDDDDDDDD} <==> IsMagic(p[..4])
  {
    assert p[..4] == [p[0], p[1], p[2], p[3]];
    FourTimes(p[0], p[1], p[2], p[3], 0xEF);
    FourTimes(p[0], p[1], p[2], p[3], 0xEE);
    FourTimes(p[0], p[1], p[2], p[3], 0xDD);
  }

  lemma LowDigit(a: byte, b: byte, x: nat, y: nat)
    ensures a + 256 * x == b + 256 * y <==> a == b && x == y
  {
  }

  lemma FourTimes(a: byte, b: byte, c: byte, d: byte, k: byte)
    ensures (a as int) + 256 * (b as int) + 65536 * (c as int) + 16777216 * (d as int) == 16843009 * (k as int) <==>
      a == b == c == d == k
  {
    var z, y := (c as int) + 256 * (d as int), 257 * (k as int);
    LowDigit(c, k, d, k);
    LowDigit(b, k, z, y);
    LowDigit(a, k, (b as int) + 256 * z, (k as int) + 256 * y);
  }

  lemma PacketPlain(ks: Keystream, head: seq<byte>, key: seq<byte>, iv: seq<byte>, plain: seq<byte>)
    requires |head| == 8 && |key| == 32 && |iv| == 16 && |plain| == 8
    ensures var data := head + key + iv + Crypt(Cipher(ks, key, iv), 56, plain);
      && |data| == 64 && CipherOf(ks, data) == Cipher(ks, key, iv)
      && Plain(ks, data) == plain && (Recognised(ks, data) <==> IsMagic(plain[..4]))
  {
    var c := Cipher(ks, key, iv);
    var tail := Crypt(c, 56, plain);
    var data := head + key + iv + tail;
    CipherBytes(ks, head, key, iv, tail);
    assert data[56..64] == tail;
    CryptTwice(c, 56, plain);
    MagicBytes(plain);
  }

  /** What the low and high byte of the signed number say, narrowing and sign included. */
  function ReadDc(lo: byte, hi: byte): InitInfo {
    if hi < 128 && 1 <= lo <= 5 then InitInfo(Some(lo), false)
    else if hi >= 128 && 251 <= lo then InitInfo(Some(256 - lo), true)
    else InitInfo(None, false)
  }

  lemma ReadsDc(lo: byte, hi: byte)
    ensures InfoOf(SignedLE(lo, hi)) == ReadDc(lo, hi)
  {
    var l, h := lo as int, hi as int;
    if hi < 128 {
      assert SignedLE(lo, hi) == l + 256 * h;
      assert (l + 256 * h) % 256 == l;
    } else {
      assert SignedLE(lo, hi) == l + 256 * h - 65536;
      assert 65536 - l - 256 * h == (256 - l) + 256 * (255 - h);
      if l == 0 {
        assert (256 * (256 - h)) % 256 == 0;
      } else {
        assert ((256 - l) + 256 * (255 - h)) % 256 == 256 - l;
      }
    }
  }

  /** Every init packet, by its plaintext: key at 8, iv at 40, magic at 56, the number at 60 and 61. */
  lemma PacketReads(ks: Keystream, head: seq<byte>, key: seq<byte>, iv: seq<byte>, plain: seq<byte>)
    requires |head| == 8 && |key| == 32 && |iv| == 16 && |plain| == 8
    ensures var data := head + key + iv + Crypt(Cipher(ks, key, iv), 56, plain);
      ExtractDc(ks, data) == if IsMagic(plain[..4]) then ReadDc(plain[4], plain[5]) else InitInfo(None, false)
  {
    PacketPlain(ks, head, key, iv, plain);
    ReadsDc(plain[4], plain[5]);
  }

  /** For every head, key, iv, magic and padding, and every 16-bit number, little-endian and signed. */
  lemma PacketCarries(ks: Keystream, head: seq<byte>, key: seq<byte>, iv: seq<byte>, magic: seq<byte>, d: int, x: byte, y: byte)
    requires |head| == 8 && |key| == 32 && |iv| == 16 && IsMagic(magic) && IsI16(d)
    ensures var data := head + key + iv + Crypt(Cipher(ks, key, iv), 56, magic + [d % 256, d / 256 % 256, x, y]);
      && |data| == 64 && CipherOf(ks, data) == Cipher(ks, key, iv)
      && Recognised(ks, data) && RawDc(ks, data) == d && ExtractDc(ks, data) == InfoOf(d)
  {
    var plain := magic + [LoByte(d), HiByte(d), x, y];
    PacketPlain(ks, head, key, iv, plain);
    assert plain[..4] == magic;
    SignedRoundTrip(d);
  }

  function Zeros(n: nat): (z: seq<byte>)
    ensures |z| == n
  {
    seq(n, i => 0)
  }

  /** An init packet with the abridged magic that carries d, under any keystream. */
  function Crafted(ks: Keystream, d: int): (data: seq<byte>)
    ensures |data| == 64
  {
    Zeros(56) + Crypt(Cipher(ks, Zeros(32), Zeros(16)), 56, [0xEF, 0xEF, 0xEF, 0xEF, LoByte(d), HiByte(d), 0, 0])
  }

  /** So every 16-bit number is carried by some recognised packet; 258 by one that reads as data centre 2. */
  lemma CraftedReads(ks: Keystream, d: int)
    requires IsI16(d)
    ensures Recognised(ks, Crafted(ks, d)) && RawDc(ks, Crafted(ks, d)) == d
    ensures ExtractDc(ks, Crafted(ks, d)) == InfoOf(d)
    ensures d == 258 ==> ExtractDc(ks, Crafted(ks, d)) == InitInfo(Some(2), false)
  {
    var magic: seq<byte> := [0xEF, 0xEF, 0xEF, 0xEF];
    PacketCarries(ks, Zeros(8), Zeros(32), Zeros(16), magic, d, 0, 0);
    CraftedIs(ks, d, Zeros(8), Zeros(32), Zeros(16), magic);
  }

  lemma CraftedIs(ks: Keystream, d: int, head: seq<byte>, key: seq<byte>, iv: seq<byte>, magic: seq<byte>)
    requires head == Zeros(8) && key == Zeros(32) && iv == Zeros(16) && magic == [0xEF, 0xEF, 0xEF, 0xEF]
    ensures Crafted(ks, d) == head + key + iv + Crypt(Cipher(ks, key, iv), 56, magic + [d % 256, d / 256 % 256, 0, 0])
  {
    assert Zeros(56) == head + key + iv;
    assert magic + [LoByte(d), HiByte(d), 0, 0] == [0xEF, 0xEF, 0xEF, 0xEF, LoByte(d), HiByte(d), 0, 0];
  }

  // -------- resolution --------

  datatype Resolved = Resolved(packet: seq<byte>, info: InitInfo, patched: bool)

  function OrElse<T>(a: Option<T>, b: Option<T>): Option<T> {
    if a.Some? then a else b
  }

  /** `known` is the learned entry for the target, or else its entry in the static table. */
  function Resolve(ks: Keystream, packet: seq<byte>, known: Option<Entry>): Resolved {
    if ExtractDc(ks, packet).dc.None? && known.Some? then
      Resolved(Patch(ks, packet, known.value.Signed()), InitInfo(Some(known.value.dc), known.value.media), true)
    else
      Resolved(packet, ExtractDc(ks, packet), false)
  }

  /** The override written next to the patch agrees with reading the packet again exactly when no entry is known or the magic is. */
  lemma OverrideAgrees(ks: Keystream, packet: seq<byte>, known: Option<Entry>)
    requires known.Some? ==> known.value.Valid()
    ensures var r := Resolve(ks, packet, known);
      ExtractDc(ks, r.packet) == r.info <==> known.None? || Recognised(ks, packet)
  {
    if known.Some? {
      EntryInfo(known.value);
      ExtractPatched(ks, packet, known.value.Signed());
    }
  }

  /** An init packet whose magic decrypts to zero, under any keystream. */
  function Unmarked(ks: Keystream): (data: seq<byte>)
    ensures |data| == 64
  {
    Zeros(56) + Crypt(Cipher(ks, Zeros(32), Zeros(16)), 56, Zeros(8))
  }

  /** It disagrees for every known entry: the resolver names the data centre, its own packet reads as unknown. */
  lemma UnmarkedDisagrees(ks: Keystream, entry: Entry)
    requires entry.Valid()
    ensures var r := Resolve(ks, Unmarked(ks), Some(entry));
      r.info == InitInfo(Some(entry.dc), entry.media) && ExtractDc(ks, r.packet) == UNKNOWN
  {
    var data, c := Unmarked(ks), Cipher(ks, Zeros(32), Zeros(16));
    assert CipherOf(ks, data) == c by {
      assert data[8..40] == Zeros(32) && data[40..56] == Zeros(16);
    }
    assert data[56..64] == Crypt(c, 56, Zeros(8));
    CryptTwice(c, 56, Zeros(8));
    assert Plain(ks, data) == Zeros(8);
    assert !Recognised(ks, data);
    EntryInfo(entry);
    ExtractPatched(ks, data, entry.Signed());
  }

  /** Whatever happens, at most bytes 60 and 61 differ, and an unresolved packet is the client's own. */
  lemma ResolveKeepsPacket(ks: Keystream, packet: seq<byte>, known: Option<Entry>)
    requires known.Some? ==> known.value.Valid()
    ensures var r := Resolve(ks, packet, known);
      && |r.packet| == |packet|
      && (forall i | 0 <= i < |packet| && i != 60 && i != 61 :: r.packet[i] == packet[i])
      && (r.info.dc.None? ==> r.packet == packet)
      && (r.info.dc.Some? ==> 1 <= r.info.dc.value <= 5)
      && (|packet| >= 64 ==> CipherOf(ks, r.packet) == CipherOf(ks, packet))
  {
    if known.Some? {
      PatchTouches(ks, packet, known.value.Signed());
    }
  }

  // -------- plain HTTP --------

  // "POST ", "GET ", "HEAD " and "OPTIONS "
  const POST: seq<byte> := [80, 79, 83, 84, 32]
  const GET: seq<byte> := [71, 69, 84, 32]
  const HEAD: seq<byte> := [72, 69, 65, 68, 32]
  const OPTIONS: seq<byte> := [79, 80, 84, 73, 79, 78, 83, 32]

  predicate IsHttpTransport(buf: seq<byte>) {
    POST <= buf || GET <= buf || HEAD <= buf || OPTIONS <= buf
  }

  /** The HTTP check may run before or after resolution. */
  lemma ResolveKeepsHttpVerdict(ks: Keystream, packet: seq<byte>, known: Option<Entry>)
    requires known.Some? ==> known.value.Valid()
    ensures IsHttpTransport(Resolve(ks, packet, known).packet) <==> IsHttpTransport(packet)
  {
    ResolveKeepsPacket(ks, packet, known);
    var p := Resolve(ks, packet, known).packet;
    if |packet| >= 8 {
      assert p[..8] == packet[..8];
      assert forall m: seq<byte> | |m| <= 8 :: m <= p <==> m <= p[..8];
      assert forall m: seq<byte> | |m| <= 8 :: m <= packet <==> m <= packet[..8];
    } else {
      assert p == packet;
    }
  }
}
