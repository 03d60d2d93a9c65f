/** Bytes, exclusive or, fixed-width integers and byte-string joins, shared by every other module. */
module Bytes {
  datatype Option<+T> = None | Some(value: T)

  type byte = b: int | 0 <= b < 256

  function Pow2(n: nat): (p: nat)
    ensures p > 0
  {
    if n == 0 then 1 else 2 * Pow2(n - 1)
  }

  // -------- exclusive or --------

  /** Bitwise exclusive or of two naturals, one binary digit at a time. */
  function BitXor(a: nat, b: nat): nat
    decreases a + b
  {
    if a == 0 && b == 0 then 0 else 2 * BitXor(a / 2, b / 2) + (a + b) % 2
  }

  lemma {:induction false} BitXorBound(n: nat, a: nat, b: nat)
    requires a < Pow2(n) && b < Pow2(n)
    ensures BitXor(a, b) < Pow2(n)
  {
    if n == 0 {
    } else {
      BitXorBound(n - 1, a / 2, b / 2);
    }
  }

  lemma LastBit(r: nat, a: nat, b: nat)
    ensures var x := 2 * r + (a + b) % 2; x / 2 == r && (x + b) % 2 == a % 2
  {
    var x := 2 * r + (a + b) % 2;
    assert (x + b) % 2 == ((a + b) % 2 + b) % 2;
  }

  lemma BitXorUnfold(x: nat, b: nat)
    ensures BitXor(x, b) == 2 * BitXor(x / 2, b / 2) + (x + b) % 2
  {
  }

  lemma BitXorCancels(a: nat, b: nat)
    ensures BitXor(BitXor(a, b), b) == a
  {
    BitXorByDigits();
    CancelByDigits(BitXor, a, b);
  }

  lemma {:induction false} CancelByDigits(xor: (nat, nat) -> nat, a: nat, b: nat)
    requires ByDigits(xor)
    ensures xor(xor(a, b), b) == a
    decreases a + b
  {
    if a == 0 && b == 0 {
    } else {
      CancelByDigits(xor, a / 2, b / 2);
      var d, e := a % 2 == 1, b % 2 == 1;
      assert a == Push(a / 2, d) && b == Push(b / 2, e);
      assert xor(a, b) == Push(xor(a / 2, b / 2), d != e);
    }
  }

  /** Binary digit k of n, counted from the least. */
  function Bit(n: nat, k: nat): nat {
    if k == 0 then n % 2 else Bit(n / 2, k - 1)
  }

  /** Digit by digit, the result is one exactly where the operands differ. */
  lemma {:induction false} BitXorBits(a: nat, b: nat, k: nat)
    ensures Bit(BitXor(a, b), k) == if Bit(a, k) == Bit(b, k) then 0 else 1
  {
    BitXorUnfold(a, b);
    if k == 0 {
      BitsStep(a, b, BitXor(a / 2, b / 2), k);
    } else {
      BitXorBits(a / 2, b / 2, k - 1);
      BitsStep(a, b, BitXor(a / 2, b / 2), k);
    }
  }

  lemma BitsStep(a: nat, b: nat, r: nat, k: nat)
    requires k > 0 ==> Bit(r, k - 1) == if Bit(a / 2, k - 1) == Bit(b / 2, k - 1) then 0 else 1
    ensures Bit(2 * r + (a + b) % 2, k) == if Bit(a, k) == Bit(b, k) then 0 else 1
  {
    LastBit(r, a, b);
  }

  function One(d: bool): nat {
    if d then 1 else 0
  }

  /** One more binary digit at the end. */
  function Push(a: nat, d: bool): nat {
    2 * a + One(d)
  }

  /** One more digit on each operand gives one more digit of the result. */
  ghost predicate ByDigits(xor: (nat, nat) -> nat) {
    && xor(0, 0) == 0
    && forall a: nat, b: nat, d: bool, e: bool :: xor(Push(a, d), Push(b, e)) == Push(xor(a, b), d != e)
  }

  lemma BitXorPush(a: nat, b: nat, d: bool, e: bool)
    ensures BitXor(Push(a, d), Push(b, e)) == Push(BitXor(a, b), d != e)
  {
    BitXorUnfold(Push(a, d), Push(b, e));
    PushStep(BitXor, a, b, d, e);
  }

  lemma PushStep(xor: (nat, nat) -> nat, a: nat, b: nat, d: bool, e: bool)
    requires var x, y := Push(a, d), Push(b, e); xor(x, y) == 2 * xor(x / 2, y / 2) + (x + y) % 2
    ensures xor(Push(a, d), Push(b, e)) == Push(xor(a, b), d != e)
  {
    assert Push(a, d) / 2 == a && Push(b, e) / 2 == b;
  }

  lemma BitXorByDigits()
    ensures ByDigits(BitXor)
  {
    forall a: nat, b: nat, d: bool, e: bool ensures BitXor(Push(a, d), Push(b, e)) == Push(BitXor(a, b), d != e) {
      BitXorPush(a, b, d, e);
    }
  }

  /** Four binary digits, the most significant first. */
  datatype Nibble = Nibble(d3: bool, d2: bool, d1: bool, d0: bool) {
    function Value(): nat {
      8 * One(d3) + 4 * One(d2) + 2 * One(d1) + One(d0)
    }

    function Differs(n: Nibble): Nibble {
      Nibble(d3 != n.d3, d2 != n.d2, d1 != n.d1, d0 != n.d0)
    }
  }

  function PushAll(a: nat, n: Nibble): nat {
    Push(Push(Push(Push(a, n.d3), n.d2), n.d1), n.d0)
  }

  lemma PushAllValue(a: nat, n: Nibble)
    ensures PushAll(a, n) == 16 * a + n.Value()
  {
  }

  lemma PushesXor(xor: (nat, nat) -> nat, a: nat, b: nat, m: Nibble, n: Nibble)
    requires ByDigits(xor)
    ensures xor(PushAll(a, m), PushAll(b, n)) == PushAll(xor(a, b), m.Differs(n))
  {
  }

  lemma NibbleStep(xor: (nat, nat) -> nat, a: nat, b: nat, m: Nibble, n: Nibble)
    requires ByDigits(xor)
    ensures xor(16 * a + m.Value(), 16 * b + n.Value()) == 16 * xor(a, b) + m.Differs(n).Value()
  {
    PushesXor(xor, a, b, m, n);
    PushAllValue(a, m);
    PushAllValue(b, n);
    PushAllValue(xor(a, b), m.Differs(n));
  }

  lemma NibblesXor(xor: (nat, nat) -> nat, ah: Nibble, al: Nibble, bh: Nibble, bl: Nibble)
    requires ByDigits(xor)
    ensures xor(16 * ah.Value() + al.Value(), 16 * bh.Value() + bl.Value()) ==
      16 * ah.Differs(bh).Value() + al.Differs(bl).Value()
  {
    NibbleStep(xor, 0, 0, ah, bh);
    NibbleStep(xor, ah.Value(), bh.Value(), al, bl);
  }

  function Xor(a: byte, b: byte): byte {
    BitXorBound(8, a, b);
    BitXor(a, b)
  }

  /** For working out a byte by hand. */
  lemma XorNibbles(a: byte, b: byte, ah: Nibble, al: Nibble, bh: Nibble, bl: Nibble)
    requires a == 16 * ah.Value() + al.Value() && b == 16 * bh.Value() + bl.Value()
    ensures Xor(a, b) == 16 * ah.Differs(bh).Value() + al.Differs(bl).Value()
  {
    BitXorByDigits();
    NibblesXor(BitXor, ah, al, bh, bl);
  }

  /** Masking a byte twice with the same key byte gives the byte back. */
  lemma XorCancels(a: byte, b: byte)
    ensures Xor(Xor(a, b), b) == a
  {
    BitXorCancels(a, b);
  }

  lemma {:induction false} BitXorCommutes(a: nat, b: nat)
    ensures BitXor(a, b) == BitXor(b, a)
    decreases a + b
  {
    if a == 0 && b == 0 {
    } else {
      BitXorCommutes(a / 2, b / 2);
    }
  }

  lemma XorCommutes(a: byte, b: byte)
    ensures Xor(a, b) == Xor(b, a)
  {
    BitXorCommutes(a, b);
  }

  lemma {:induction false} BitXorZero(b: nat)
    ensures BitXor(0, b) == b
  {
    if b == 0 {
    } else {
      BitXorZero(b / 2);
    }
  }

  lemma XorZero(b: byte)
    ensures Xor(0, b) == b
  {
    BitXorZero(b);
  }

  // -------- fixed-width big-endian integers --------

  function Pow256(n: nat): (p: nat)
    ensures p > 0
  {
    if n == 0 then 1 else 256 * Pow256(n - 1)
  }

  function BigEndian(n: nat, width: nat): (s: seq<byte>)
    ensures |s| == width
  {
    if width == 0 then [] else BigEndian(n / 256, width - 1) + [n % 256]
  }

  function FromBigEndian(s: seq<byte>): nat {
    if s == [] then 0 else 256 * FromBigEndian(s[..|s| - 1]) + s[|s| - 1]
  }

  /** The last digit and the rest of a number below 256 times p. */
  lemma LastDigit(n: nat, p: nat) returns (q: nat, r: byte)
    requires n < 256 * p
    ensures n == 256 * q + r && q == n / 256 && r == n % 256 && q < p
  {
    q, r := n / 256, n % 256;
  }

  lemma FromBigEndianSnoc(s: seq<byte>, b: byte)
    ensures FromBigEndian(s + [b]) == 256 * FromBigEndian(s) + b
  {
    assert (s + [b])[..|s|] == s;
  }

  /** Most significant byte first. */
  lemma BigEndianTwo(n: nat)
    requires n < 65536
    ensures BigEndian(n, 2) == [n / 256, n % 256]
  {
    assert BigEndian(n / 256, 1) == BigEndian(n / 256 / 256, 0) + [n / 256 % 256];
    assert n / 256 % 256 == n / 256;
  }

  lemma FromBigEndianTwo(a: byte, b: byte)
    ensures FromBigEndian([a, b]) == 256 * a + b
  {
    FromBigEndianSnoc([], a);
    FromBigEndianSnoc([a], b);
    assert [] + [a] == [a] && [a] + [b] == [a, b];
  }

  lemma FromBigEndianFour(a: byte, b: byte, c: byte, d: byte)
    ensures FromBigEndian([a, b, c, d]) == 16777216 * a + 65536 * b + 256 * c + d
  {
    FromBigEndianTwo(a, b);
    FromBigEndianSnoc([a, b], c);
    FromBigEndianSnoc([a, b, c], d);
    assert [a, b] + [c] == [a, b, c] && [a, b, c] + [d] == [a, b, c, d];
  }

  /** The eight-byte form: the first four bytes weigh 2^32 times the last four. */
  lemma FromBigEndianEight(s: seq<byte>, e: byte, f: byte, g: byte, h: byte)
    ensures FromBigEndian(s + [e, f, g, h]) == 4294967296 * FromBigEndian(s) + FromBigEndian([e, f, g, h])
  {
    FromBigEndianSnoc(s, e);
    FromBigEndianSnoc(s + [e], f);
    FromBigEndianSnoc(s + [e, f], g);
    FromBigEndianSnoc(s + [e, f, g], h);
    FromBigEndianFour(e, f, g, h);
    assert s + [e] + [f] == s + [e, f] && s + [e, f] + [g] == s + [e, f, g] && s + [e, f, g] + [h] == s + [e, f, g, h];
  }

  lemma {:induction false} BigEndianRoundTrip(n: nat, width: nat)
    requires n < Pow256(width)
    ensures FromBigEndian(BigEndian(n, width)) == n
  {
    if width == 0 {
    } else {
      var q, r := LastDigit(n, Pow256(width - 1));
      BigEndianRoundTrip(q, width - 1);
      FromBigEndianSnoc(BigEndian(q, width - 1), r);
    }
  }

  lemma {:induction false} FromBigEndianRoundTrip(s: seq<byte>)
    ensures FromBigEndian(s) < Pow256(|s|)
    ensures BigEndian(FromBigEndian(s), |s|) == s
  {
    if s == [] {
    } else {
      FromBigEndianRoundTrip(s[..|s| - 1]);
    }
  }

  // -------- joins --------

  /** The images of xs under f, one behind the other. */
  function FlatMap<A, B>(f: A -> seq<B>, xs: seq<A>): seq<B> {
    if xs == [] then [] else f(xs[0]) + FlatMap(f, xs[1..])
  }

  lemma {:induction false} FlatMapAppend<A, B>(f: A -> seq<B>, a: seq<A>, b: seq<A>)
    ensures FlatMap(f, a + b) == FlatMap(f, a) + FlatMap(f, b)
  {
    if a == [] {
      assert a + b == b;
    } else {
      FlatMapAppend(f, a[1..], b);
      assert (a + b)[1..] == a[1..] + b;
      AppendAssoc(f(a[0]), FlatMap(f, a[1..]), FlatMap(f, b));
    }
  }

  lemma FlatMapSnoc<A, B>(f: A -> seq<B>, a: seq<A>, x: A)
    ensures FlatMap(f, a + [x]) == FlatMap(f, a) + f(x)
  {
    FlatMapAppend(f, a, [x]);
    assert FlatMap(f, [x]) == f(x) + FlatMap(f, [x][1..]) == f(x);
  }

  lemma FlatMapPrefix<A, B>(f: A -> seq<B>, a: seq<A>, b: seq<A>)
    requires a <= b
    ensures FlatMap(f, a) <= FlatMap(f, b)
  {
    FlatMapAppend(f, a, b[|a|..]);
    assert a + b[|a|..] == b;
  }

  function Join<T>(parts: seq<seq<T>>): seq<T> {
    if parts == [] then [] else parts[0] + Join(parts[1..])
  }

  lemma {:induction false} JoinAppend<T>(a: seq<seq<T>>, b: seq<seq<T>>)
    ensures Join(a + b) == Join(a) + Join(b)
  {
    if a == [] {
      assert a + b == b;
    } else {
      JoinAppend(a[1..], b);
      assert (a + b)[1..] == a[1..] + b;
      AppendAssoc(a[0], Join(a[1..]), Join(b));
    }
  }

  lemma JoinOne<T>(p: seq<T>)
    ensures Join([p]) == p
  {
    assert [p][1..] == [];
  }

  lemma JoinCons<T>(p: seq<T>, a: seq<seq<T>>)
    ensures Join([p] + a) == p + Join(a)
  {
    assert ([p] + a)[1..] == a;
  }

  lemma JoinSnoc<T>(a: seq<seq<T>>, p: seq<T>)
    ensures Join(a + [p]) == Join(a) + p
  {
    JoinAppend(a, [p]);
    JoinOne(p);
  }

  lemma AppendAssoc<T>(a: seq<T>, b: seq<T>, c: seq<T>)
    ensures a + b + c == a + (b + c)
  {
  }

  lemma AppendNothing<T>(a: seq<T>)
    ensures a + [] == a && [] + a == a
  {
  }

  lemma Reassociate<T>(a: seq<T>, b: seq<T>, c: seq<T>, d: seq<T>)
    ensures a + b + c + d == a + (b + (c + d))
  {
  }

  // -------- a connected socket --------

  /** The bytes the peer has yet to deliver before end of file, and every write made so far, in order. */
  class Socket {
    var input: seq<byte>
    var writes: seq<seq<byte>>

    constructor (input: seq<byte>)
      ensures this.input == input && writes == []
    {
      this.input, this.writes := input, [];
    }

    /** Either the next n bytes, or nothing because the stream ended first; the short tail is then consumed. */
    method ReadExact(n: nat) returns (data: Option<seq<byte>>)
      modifies this`input
      ensures n <= |old(input)| ==> data == Some(old(input)[..n]) && input == old(input)[n..]
      ensures n > |old(input)| ==> data == None && input == []
    {
      if n <= |input| {
        data := Some(input[..n]);
        input := input[n..];
      } else {
        data := None;
        input := [];
      }
    }

    method WriteAll(data: seq<byte>)
      modifies this`writes
      ensures writes == old(writes) + [data]
    {
      writes := writes + [data];
    }
  }
}
