/** Bytes, fixed-width integers and the reliable byte pipes under every connection. */
module Bytes {

  type byte = x: int | 0 <= x < 256
  type uint32 = x: int | 0 <= x < 0x1_0000_0000

  function Min(a: nat, b: nat): nat {
    if a <= b then a else b
  }

  function Pow256(w: nat): (p: nat)
    ensures 1 <= p
  {
    if w == 0 then 1 else 256 * Pow256(w - 1)
  }

  /** The w low-order bytes of n, most significant first. */
  function BigEndian(n: nat, w: nat): (b: seq<byte>)
    ensures |b| == w
  {
    if w == 0 then [] else BigEndian(n / 256, w - 1) + [n % 256]
  }

  function FromBigEndian(b: seq<byte>): (n: nat)
    ensures n < Pow256(|b|)
  {
    if b == [] then 0 else FromBigEndian(b[..|b| - 1]) * 256 + b[|b| - 1]
  }

  lemma {:induction false} BigEndianInverse(n: nat, w: nat)
    requires n < Pow256(w)
    ensures FromBigEndian(BigEndian(n, w)) == n
  {
    if w != 0 {
      var front := BigEndian(n / 256, w - 1);
      BigEndianInverse(n / 256, w - 1);
      FromSnoc(front, n % 256);
    }
  }

  lemma FromSnoc(front: seq<byte>, last: byte)
    ensures FromBigEndian(front + [last]) == FromBigEndian(front) * 256 + last
  {
    assert (front + [last])[..|front|] == front;
  }

  /** The k-th byte from the end is the k-th digit of n to base 256. */
  lemma {:induction false} BigEndianDigits(n: nat, w: nat, k: nat)
    requires k < w
    ensures BigEndian(n, w)[w - 1 - k] == n / Pow256(k) % 256
  {
    if k != 0 {
      BigEndianDigits(n / 256, w - 1, k - 1);
      DivTwice(n, Pow256(k - 1));
    }
  }

  lemma DivTwice(n: nat, p: nat)
    requires 0 < p
    ensures n / (256 * p) == n / 256 / p
  {
    var q, r := n / 256 / p, n / 256 % p;
    assert n / 256 == q * p + r;
    assert n == q * (256 * p) + (256 * r + n % 256);
    assert 256 * r + n % 256 < 256 * p;
    DivIs(n, q, 256 * p, 256 * r + n % 256);
  }

  lemma DivIs(n: nat, q: nat, d: nat, r: nat)
    requires r < d && n == q * d + r
    ensures n / d == q
  {
    var q', r' := n / d, n % d;
    assert (q - q') * d == r' - r;
    if q > q' { AtLeast(q - q', d); } else if q' > q { AtLeast(q' - q, d); }
  }

  lemma AtLeast(k: nat, d: nat)
    requires 1 <= k
    ensures d <= k * d
  {
  }

  lemma LowByte(n: nat, b: byte)
    ensures (n * 256 + b) / 256 == n && (n * 256 + b) % 256 == b
  {
  }

  lemma {:induction false} FromBigEndianInverse(b: seq<byte>)
    ensures BigEndian(FromBigEndian(b), |b|) == b
  {
    if b != [] {
      var front, last := b[..|b| - 1], b[|b| - 1];
      FromBigEndianInverse(front);
      LowByte(FromBigEndian(front), last);
      assert b == front + [last];
    }
  }

  lemma Widths()
    ensures Pow256(2) == 0x1_0000 && Pow256(4) == 0x1_0000_0000 && Pow256(8) == 0x1_0000_0000_0000_0000
  {
    assert Pow256(3) == 0x100_0000;
    assert Pow256(6) == 0x1_0000 * Pow256(4);
  }

  /** Bitwise exclusive or of the `bits` low-order bits, bit by bit. */
  function XorBits(a: nat, b: nat, bits: nat): (r: nat)
  {
    if bits == 0 then 0 else (a % 2 + b % 2) % 2 + 2 * XorBits(a / 2, b / 2, bits - 1)
  }

  function Xor(a: byte, b: byte): (r: byte) {
    XorBelow(a, b, 8);
    XorBits(a, b, 8)
  }

  function Pow2(bits: nat): (p: nat)
    ensures 1 <= p
  {
    if bits == 0 then 1 else 2 * Pow2(bits - 1)
  }

  lemma {:induction false} XorBelow(a: nat, b: nat, bits: nat)
    ensures XorBits(a, b, bits) < Pow2(bits)
    ensures Pow2(8) == 256
  {
    if bits != 0 {
      XorBelow(a / 2, b / 2, bits - 1);
    } else {
      assert Pow2(8) == 2 * 2 * 2 * Pow2(5) == 256;
    }
  }

  lemma XorBitsUnfold(a: nat, b: nat, bits: nat)
    requires 0 < bits
    ensures XorBits(a, b, bits) == (a % 2 + b % 2) % 2 + 2 * XorBits(a / 2, b / 2, bits - 1)
  {
  }

  lemma LowBit(p: nat, q: nat, x: nat, rest: nat)
    requires p < 2 && q < 2 && x == (p + q) % 2 + 2 * rest
    ensures x / 2 == rest && (x % 2 + q) % 2 == p
  {
  }

  lemma {:induction false} XorBitsCancel(a: nat, b: nat, bits: nat)
    requires a < Pow2(bits)
    ensures XorBits(XorBits(a, b, bits), b, bits) == a
  {
    if bits != 0 {
      var x, rest := XorBits(a, b, bits), XorBits(a / 2, b / 2, bits - 1);
      XorBitsUnfold(a, b, bits);
      XorBitsUnfold(x, b, bits);
      XorBitsCancel(a / 2, b / 2, bits - 1);
      hide XorBits;
      LowBit(a % 2, b % 2, x, rest);
    }
  }

  lemma XorCancel(a: byte, k: byte)
    ensures Xor(Xor(a, k), k) == a
  {
    XorBelow(a, k, 8);
    XorBitsCancel(a, k, 8);
  }

  /** The i-th bit of a, the lowest being bit 0. */
  function Bit(a: nat, i: nat): nat {
    if i == 0 then a % 2 else Bit(a / 2, i - 1)
  }

  lemma {:induction false} XorBitsBit(a: nat, b: nat, bits: nat, i: nat)
    requires i < bits
    ensures Bit(XorBits(a, b, bits), i) == (Bit(a, i) + Bit(b, i)) % 2
  {
    var rest := XorBits(a / 2, b / 2, bits - 1);
    XorBitsUnfold(a, b, bits);
    LowBit(a % 2, b % 2, XorBits(a, b, bits), rest);
    LowBitIs(a % 2, b % 2, rest);
    if i != 0 { XorBitsBit(a / 2, b / 2, bits - 1, i - 1); }
  }

  lemma LowBitIs(p: nat, q: nat, rest: nat)
    requires p < 2 && q < 2
    ensures ((p + q) % 2 + 2 * rest) % 2 == (p + q) % 2
  {
  }

  /** A bit of a XOR k is a's bit, turned over just where k's bit is set. */
  lemma XorBit(a: byte, k: byte, i: nat)
    requires i < 8
    ensures Bit(Xor(a, k), i) == if Bit(k, i) == 1 then 1 - Bit(a, i) else Bit(a, i)
    ensures Bit(a, i) <= 1
  {
    XorBitsBit(a, k, 8, i);
    BitIsBit(a, i);
    BitIsBit(k, i);
  }

  lemma {:induction false} BitIsBit(a: nat, i: nat)
    ensures Bit(a, i) <= 1
  {
    if i != 0 { BitIsBit(a / 2, i - 1); }
  }

  function Concat<T>(parts: seq<seq<T>>): (s: seq<T>) {
    if parts == [] then [] else parts[0] + Concat(parts[1..])
  }

  lemma {:induction false} ConcatAppend<T>(a: seq<seq<T>>, b: seq<seq<T>>)
    ensures Concat(a + b) == Concat(a) + Concat(b)
  {
    if a == [] {
      assert a + b == b;
    } else {
      ConcatAppend(a[1..], b);
      assert a + b == [a[0]] + (a[1..] + b);
      assert (a + b)[1..] == a[1..] + b;
    }
  }

  lemma ConcatSnoc<T>(a: seq<seq<T>>, x: seq<T>)
    ensures Concat(a + [x]) == Concat(a) + x
  {
    ConcatAppend(a, [x]);
    assert [x][1..] == [];
    assert Concat([x]) == x + Concat([]);
  }

  lemma SliceMiddle<T>(a: seq<T>, b: seq<T>, c: seq<T>)
    ensures var s := a + b + c;
            s[..|a|] == a && s[|a|..|a| + |b|] == b && s[|a| + |b|..] == c
  {
  }

  lemma PrefixSlice<T>(s: seq<T>, k: nat, i: nat, j: nat)
    requires i <= j <= k <= |s|
    ensures s[..k][i..j] == s[i..j]
  {
  }

  lemma DropSlice<T>(s: seq<T>, k: nat, n: nat)
    requires k + n <= |s|
    ensures s[k..][..n] == s[k..k + n] && s[k..][n..] == s[k + n..]
  {
  }

  /** The read half of a connection: what the peer sent and this side has not consumed. */
  class Source {
    var rest: seq<byte>

    constructor (input: seq<byte>)
      ensures rest == input
    {
      rest := input;
    }

    /** io.ReadFull: all n bytes, or an error after the input ran out. */
    method ReadFull(n: nat) returns (ok: bool, b: seq<byte>)
      modifies this
      ensures ok <==> n <= |old(rest)|
      ensures ok ==> b == old(rest)[..n] && rest == old(rest)[n..]
      ensures !ok ==> b == old(rest) && rest == []
    {
      ok := n <= |rest|;
      var k := if ok then n else |rest|;
      b, rest := rest[..k], rest[k..];
    }
  }

  /** The write half of a connection: everything written to it so far. */
  class Sink {
    var written: seq<byte>

    constructor ()
      ensures written == []
    {
      written := [];
    }

    method Write(b: seq<byte>)
      modifies this
      ensures written == old(written) + b
    {
      written := written + b;
    }
  }
}
