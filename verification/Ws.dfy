/** WebSocket frames and message assembly (protocol/ws/ws.go; RFC 6455, sections 5.2 to 5.5). */
module Ws {
  import opened Bytes

  const OP_CONTINUATION: byte := 0
  const OP_TEXT: byte := 1
  const OP_BINARY: byte := 2
  const OP_CLOSE: byte := 8
  const OP_PING: byte := 9
  const OP_PONG: byte := 10

  const MAX_MESSAGE := 0x10_0000

  type Key = k: seq<byte> | |k| == 4 witness [0, 0, 0, 0]
  datatype Mask = NoMask | Masked(key: Key)

  datatype Frame = Frame(fin: bool, op: byte, payload: seq<byte>)
  {
    predicate Legal() {
      op < 16 && |payload| <= MAX_MESSAGE
    }
  }

  // ---------- masking ----------

  function ApplyMask(p: seq<byte>, mask: Mask): (q: seq<byte>)
    ensures |q| == |p|
  {
    match mask
    case NoMask => p
    case Masked(key) => seq(|p|, i requires 0 <= i < |p| => Xor(p[i], key[i % 4]))
  }

  lemma UnmaskMask(p: seq<byte>, mask: Mask)
    ensures ApplyMask(ApplyMask(p, mask), mask) == p
  {
    if mask.Masked? {
      var q := ApplyMask(ApplyMask(p, mask), mask);
      forall i | 0 <= i < |p|
        ensures q[i] == p[i]
      {
        XorCancel(p[i], mask.key[i % 4]);
      }
    }
  }

  /** Section 5.3, bit by bit: a masked byte differs from the payload's exactly where the byte of the
      key at its place, modulo four, has its bit set. */
  lemma MaskedBits(p: seq<byte>, key: Key, at: nat, bit: nat)
    requires at < |p| && bit < 8
    ensures Bit(ApplyMask(p, Masked(key))[at], bit) != Bit(p[at], bit) <==> Bit(key[at % 4], bit) == 1
  {
    XorBit(p[at], key[at % 4], bit);
  }

  // ---------- the frame layout ----------

  /** opcode | 0x80 when fin is set. */
  function FirstByte(fin: bool, op: byte): byte {
    if fin && op < 128 then op + 128 else op
  }

  lemma HeadBits(fin: bool, op: byte)
    requires op < 16
    ensures var b := FirstByte(fin, op);
            b % 128 / 16 == 0 && (b >= 128) == fin && b % 16 == op
  {
  }

  /** The second byte and the extended length. */
  function LengthBytes(masked: bool, n: nat): seq<byte> {
    var bit := if masked then 128 else 0;
    if n < 126 then [bit + n]
    else if n <= 0xffff then [bit + 126] + BigEndian(n, 2)
    else [bit + 127] + BigEndian(n, 8)
  }

  function KeyBytes(mask: Mask): seq<byte> {
    if mask.Masked? then mask.key else []
  }

  function Encode(f: Frame, mask: Mask): seq<byte> {
    [FirstByte(f.fin, f.op)] + LengthBytes(mask.Masked?, |f.payload|) + KeyBytes(mask) + ApplyMask(f.payload, mask)
  }

  datatype DecodeResult =
    | Got(frame: Frame, mask: Mask, rest: seq<byte>)
    | Incomplete
    | ReservedBits
    | TooLarge(length: nat)

  /** How many bytes of extended length follow the second byte. */
  function ExtLen(b1: byte): nat {
    if b1 % 128 == 126 then 2 else if b1 % 128 == 127 then 8 else 0
  }

  function LengthOf(b: seq<byte>): nat
    requires 2 <= |b| && 2 + ExtLen(b[1]) <= |b|
  {
    if ExtLen(b[1]) == 0 then b[1] % 128 else FromBigEndian(b[2..2 + ExtLen(b[1])])
  }

  /** The mask key, if there is one, and n bytes of payload. */
  function BodyOf(b: seq<byte>, fin: bool, op: byte, masked: bool, n: nat): DecodeResult {
    if masked then
      if |b| < 4 + n then Incomplete
      else Got(Frame(fin, op, ApplyMask(b[4..4 + n], Masked(b[..4]))), Masked(b[..4]), b[4 + n..])
    else if |b| < n then Incomplete
    else Got(Frame(fin, op, ApplyMask(b[..n], NoMask)), NoMask, b[n..])
  }

  function Decode(b: seq<byte>): (r: DecodeResult)
    ensures r.Got? ==> r.frame.Legal() && |r.rest| + 2 <= |b|
  {
    if |b| < 2 then Incomplete
    else if b[0] % 128 / 16 != 0 then ReservedBits
    else if |b| < 2 + ExtLen(b[1]) then Incomplete
    else
      var n := LengthOf(b);
      if n > MAX_MESSAGE then TooLarge(n)
      else
        BodyOf(b[2 + ExtLen(b[1])..], b[0] >= 128, b[0] % 16, b[1] >= 128, n)
  }

  lemma LengthRoundTrip(first: byte, masked: bool, n: nat, more: seq<byte>)
    requires n <= MAX_MESSAGE
    ensures var h := LengthBytes(masked, n);
            var b := [first] + h + more;
            && 2 <= |b| && b[0] == first
            && (b[1] >= 128) == masked
            && 1 + ExtLen(b[1]) == |h|
            && LengthOf(b) == n
  {
    var h := LengthBytes(masked, n);
    var b := [first] + h + more;
    if n < 126 {
      SecondByte(masked, n);
      assert b[1] == h[0];
    } else {
      Widths();
      var w := if n <= 0xffff then 2 else 8;
      SecondByte(masked, if w == 2 then 126 else 127);
      BigEndianInverse(n, w);
      LengthForm(first, masked, n, w, BigEndian(n, w), more);
    }
  }

  lemma SecondByte(masked: bool, v: nat)
    requires v < 128
    ensures var b := (if masked then 128 else 0) + v;
            (b >= 128) == masked && b % 128 == v
  {
  }

  lemma LengthForm(first: byte, masked: bool, n: nat, w: nat, ext: seq<byte>, more: seq<byte>)
    requires 126 <= n <= MAX_MESSAGE && w == (if n <= 0xffff then 2 else 8)
    requires ext == BigEndian(n, w) && |ext| == w
    ensures var h := LengthBytes(masked, n);
            var b := [first] + h + more;
            && |h| == 1 + w && b[1] == h[0] && b[2..2 + w] == ext
  {
    hide BigEndian, Pow256;
    var h := LengthBytes(masked, n);
    assert h == [h[0]] + ext;
    assert [first] + h + more == [first, h[0]] + ext + more;
    SliceMiddle([first, h[0]], ext, more);
  }

  lemma EncodeLayout(f: Frame, mask: Mask, tail: seq<byte>)
    requires f.Legal()
    ensures var b := Encode(f, mask) + tail;
            && 2 <= |b| && b[0] == FirstByte(f.fin, f.op) && (b[1] >= 128) == mask.Masked?
            && 2 + ExtLen(b[1]) <= |b| && LengthOf(b) == |f.payload|
            && b[2 + ExtLen(b[1])..] == KeyBytes(mask) + ApplyMask(f.payload, mask) + tail
  {
    var h, more := LengthBytes(mask.Masked?, |f.payload|), KeyBytes(mask) + ApplyMask(f.payload, mask) + tail;
    LengthRoundTrip(FirstByte(f.fin, f.op), mask.Masked?, |f.payload|, more);
    hide LengthBytes, LengthOf, ApplyMask;
    assert Encode(f, mask) + tail == [FirstByte(f.fin, f.op)] + h + more;
  }

  lemma BodyRoundTrip(f: Frame, mask: Mask, tail: seq<byte>)
    ensures BodyOf(KeyBytes(mask) + ApplyMask(f.payload, mask) + tail, f.fin, f.op, mask.Masked?, |f.payload|) ==
            Got(f, mask, tail)
  {
    UnmaskMask(f.payload, mask);
    SliceMiddle(KeyBytes(mask), ApplyMask(f.payload, mask), tail);
    hide ApplyMask;
  }

  /** Sections 5.2 and 5.3: reading a written frame returns it and leaves exactly the tail. */
  lemma DecodeEncode(f: Frame, mask: Mask, tail: seq<byte>)
    requires f.Legal()
    ensures Decode(Encode(f, mask) + tail) == Got(f, mask, tail)
  {
    EncodeLayout(f, mask, tail);
    BodyRoundTrip(f, mask, tail);
    HeadBits(f.fin, f.op);
    hide LengthBytes, LengthOf, ApplyMask, Encode, FirstByte, ExtLen, BodyOf;
  }

  /** Every strict prefix of a frame is incomplete. */
  lemma StrictPrefixIncomplete(f: Frame, mask: Mask, k: nat)
    requires f.Legal() && k < |Encode(f, mask)|
    ensures Decode(Encode(f, mask)[..k]) == Incomplete
  {
    var b := Encode(f, mask);
    var h := LengthBytes(mask.Masked?, |f.payload|);
    var more := KeyBytes(mask) + ApplyMask(f.payload, mask);
    assert b == [FirstByte(f.fin, f.op)] + h + more;
    LengthRoundTrip(FirstByte(f.fin, f.op), mask.Masked?, |f.payload|, more);
    hide LengthBytes, ApplyMask, Encode, BigEndian, FromBigEndian;
    var c, ext := b[..k], ExtLen(b[1]);
    if 2 + ext <= k {
      PrefixSlice(b, k, 2, 2 + ext);
    }
  }

  /** The written length form is the shortest: no bytes that read as the same frame under the same
      mask are fewer. */
  lemma ShortestForm(b: seq<byte>)
    requires Decode(b).Got?
    ensures |Encode(Decode(b).frame, Decode(b).mask)| + |Decode(b).rest| <= |b|
  {
    Widths();
    if ExtLen(b[1]) == 2 {
      assert LengthOf(b) < Pow256(2);
    }
  }

  // ---------- the layout in numbers ----------

  /** Section 5.2, byte by byte: final bit and opcode; mask bit and length or length form; the extended
      length, most significant byte first; the key; the masked payload. */
  lemma WireFormat(f: Frame, mask: Mask)
    requires f.Legal()
    ensures var b, n := Encode(f, mask), |f.payload|;
            var w := if n < 126 then 0 else if n < 0x1_0000 then 2 else 8;
            var at := 2 + w + if mask.Masked? then 4 else 0;
            && |b| == at + n
            && b[0] == f.op + (if f.fin then 128 else 0)
            && b[1] == (if mask.Masked? then 128 else 0) + (if w == 0 then n else if w == 2 then 126 else 127)
            && (forall k: nat :: k < w ==> b[1 + w - k] == n / Pow256(k) % 256)
            && (mask.Masked? ==> b[2 + w..at] == mask.key)
            && b[at..] == ApplyMask(f.payload, mask)
  {
    var n := |f.payload|;
    var w := if n < 126 then 0 else if n < 0x1_0000 then 2 else 8;
    var h := LengthBytes(mask.Masked?, n);
    forall k: nat | k < w ensures h[w - k] == n / Pow256(k) % 256 {
      BigEndianDigits(n, w, k);
    }
    assert |h| == 1 + w;
    FourParts([FirstByte(f.fin, f.op)], h, KeyBytes(mask), ApplyMask(f.payload, mask));
    hide LengthBytes, ApplyMask, BigEndian, Pow256;
  }

  lemma FourParts(a: seq<byte>, b: seq<byte>, c: seq<byte>, d: seq<byte>)
    requires |a| == 1
    ensures var s := a + b + c + d;
            && s[0] == a[0] && (forall i :: 0 <= i < |b| ==> s[1 + i] == b[i])
            && s[1 + |b|..1 + |b| + |c|] == c && s[1 + |b| + |c|..] == d
  {
  }

  /** And the other way round, for whatever bytes are accepted. */
  lemma ReadFormat(b: seq<byte>)
    requires Decode(b).Got?
    ensures var r := Decode(b);
            var n, form := |r.frame.payload|, b[1] % 128;
            var w := if form == 126 then 2 else if form == 127 then 8 else 0;
            var at := 2 + w + if r.mask.Masked? then 4 else 0;
            && b[0] == r.frame.op + (if r.frame.fin then 128 else 0)
            && (r.mask.Masked? <==> b[1] >= 128)
            && at + n <= |b|
            && (w == 0 ==> n == form) && (w == 2 ==> n == b[2] as int * 256 + b[3] as int) && (w == 8 ==> n == FromBigEndian(b[2..10]))
            && (r.mask.Masked? ==> r.mask.key == b[2 + w..at])
            && r.frame.payload == ApplyMask(b[at..at + n], r.mask)
            && r.rest == b[at + n..]
  {
    HeadRead(b);
    BodyRead(b);
    hide FromBigEndian, ApplyMask, Decode, LengthOf;
  }

  lemma HeadRead(b: seq<byte>)
    requires Decode(b).Got?
    ensures var r, form := Decode(b), b[1] % 128;
            && b[0] == r.frame.op + (if r.frame.fin then 128 else 0) && (r.mask.Masked? <==> b[1] >= 128)
            && 2 + ExtLen(b[1]) <= |b| && LengthOf(b) == |r.frame.payload|
            && (form < 126 ==> LengthOf(b) == form)
            && (form == 126 ==> LengthOf(b) == b[2] as int * 256 + b[3] as int)
            && (form == 127 ==> LengthOf(b) == FromBigEndian(b[2..10]))
  {
    BodyFormat(b[2 + ExtLen(b[1])..], b[0] >= 128, b[0] % 16, b[1] >= 128, LengthOf(b));
    if b[1] % 128 == 126 { TwoBytes(b[2..4]); }
    hide FromBigEndian, ApplyMask, BodyOf;
  }

  lemma BodyRead(b: seq<byte>)
    requires Decode(b).Got?
    ensures var r := Decode(b);
            var n, from := |r.frame.payload|, 2 + ExtLen(b[1]);
            var at := from + if r.mask.Masked? then 4 else 0;
            && at + n <= |b| && (r.mask.Masked? ==> r.mask.key == b[from..at])
            && r.frame.payload == ApplyMask(b[at..at + n], r.mask) && r.rest == b[at + n..]
  {
    var from, n, masked := 2 + ExtLen(b[1]), LengthOf(b), b[1] >= 128;
    BodyFormat(b[from..], b[0] >= 128, b[0] % 16, masked, n);
    hide ApplyMask, BodyOf, LengthOf;
    Shifted(b, from, if masked then 4 else 0, n);
  }

  lemma BodyFormat(b: seq<byte>, fin: bool, op: byte, masked: bool, n: nat)
    requires BodyOf(b, fin, op, masked, n).Got?
    ensures var r, key := BodyOf(b, fin, op, masked, n), if masked then 4 else 0;
            && key + n <= |b| && r.frame.fin == fin && r.frame.op == op && r.rest == b[key + n..]
            && r.mask == (if masked then Masked(b[..4]) else NoMask)
            && r.frame.payload == ApplyMask(b[key..key + n], r.mask) && |r.frame.payload| == n
  {
  }

  lemma Shifted(b: seq<byte>, at: nat, key: nat, n: nat)
    requires at + key + n <= |b|
    ensures b[at..][..key] == b[at..at + key]
    ensures b[at..][key..key + n] == b[at + key..at + key + n] && b[at..][key + n..] == b[at + key + n..]
  {
  }

  lemma TwoBytes(b: seq<byte>)
    requires |b| == 2
    ensures FromBigEndian(b) == b[0] as int * 256 + b[1] as int
  {
    assert b[..1][..0] == [] && b[..1][0] == b[0];
    assert FromBigEndian(b[..1]) == FromBigEndian([]) * 256 + b[0];
  }

  /** A frame is refused for its reserved bits exactly when one of them is set, and as too large exactly
      when its whole header is there and announces more than one mebibyte. */
  lemma RefusedExactly(b: seq<byte>)
    ensures Decode(b).ReservedBits? <==> 2 <= |b| && b[0] % 128 >= 16
    ensures Decode(b).TooLarge?
            <==> 2 <= |b| && b[0] % 128 < 16 && 2 + ExtLen(b[1]) <= |b| && LengthOf(b) > 0x10_0000
  {
  }
}
