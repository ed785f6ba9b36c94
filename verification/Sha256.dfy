/** The streaming SHA-256 of the cache key, against sections 4.1 and 6.2 of RFC 6234. */
module Sha256 {
  import opened CacheCodec

  type Word = x: int | 0 <= x < WORD

  /** Addition modulo 2^32. */
  function Add(x: Word, y: Word): Word { (x as int + y as int) % WORD }

  function Xor2(x: Word, y: Word): Word { WordSize(); Xor(x, y, 32) }
  function And(x: Word, y: Word): Word { WordSize(); AndBits(x, y, 32) }
  function Or(x: Word, y: Word): Word { Xor2(Xor2(x, y), And(x, y)) }
  function Not(x: Word): Word { WORD - 1 - x }
  function Shr(x: Word, n: nat): Word decreases n { if n == 0 then x else Shr(x / 2, n - 1) }
  function Shl(x: Word, n: nat): Word decreases n { if n == 0 then x else Shl(2 * (x as int) % WORD, n - 1) }

  function AndBits(a: nat, b: nat, n: nat): (r: nat)
    ensures r < Pow2(n)
  {
    if n == 0 then 0 else (if a % 2 == 1 && b % 2 == 1 then 1 else 0) + 2 * AndBits(a / 2, b / 2, n - 1)
  }

  lemma WordSize()
    ensures Pow2(32) == WORD
  {
    assert Pow2(8) == 256 by { ByteSize(); }
    assert Pow2(16) == 65536;
    assert Pow2(24) == 16777216;
  }

  const LENGTHS: nat := 0x1_0000_0000_0000_0000

  // ---- the algorithm of RFC 6234 ----

  function Rot(x: Word, n: nat): Word
    requires 0 < n < 32
  {
    Or(Shr(x, n), Shl(x, 32 - n))
  }

  function Xor3(x: Word, y: Word, z: Word): Word { Xor2(Xor2(x, y), z) }
  function Ch(x: Word, y: Word, z: Word): Word { Xor2(And(x, y), And(Not(x), z)) }
  function Maj(x: Word, y: Word, z: Word): Word { Xor3(And(x, y), And(x, z), And(y, z)) }
  function BigSigma0(x: Word): Word { Xor3(Rot(x, 2), Rot(x, 13), Rot(x, 22)) }
  function BigSigma1(x: Word): Word { Xor3(Rot(x, 6), Rot(x, 11), Rot(x, 25)) }
  function SmallSigma0(x: Word): Word { Xor3(Rot(x, 7), Rot(x, 18), Shr(x, 3)) }
  function SmallSigma1(x: Word): Word { Xor3(Rot(x, 17), Rot(x, 19), Shr(x, 10)) }

  /** The round constants. */
  function K(): (k: seq<Word>)
    ensures |k| == 64
  {
    K0() + K1() + K2() + K3()
  }

  function K0(): (k: seq<Word>)
    ensures |k| == 16
  {
    [ 0x428a2f98, 0x71374491, 0xb5c0fbcf, 0xe9b5dba5, 0x3956c25b, 0x59f111f1, 0x923f82a4, 0xab1c5ed5,
      0xd807aa98, 0x12835b01, 0x243185be, 0x550c7dc3, 0x72be5d74, 0x80deb1fe, 0x9bdc06a7, 0xc19bf174 ]
  }

  function K1(): (k: seq<Word>)
    ensures |k| == 16
  {
    [ 0xe49b69c1, 0xefbe4786, 0x0fc19dc6, 0x240ca1cc, 0x2de92c6f, 0x4a7484aa, 0x5cb0a9dc, 0x76f988da,
      0x983e5152, 0xa831c66d, 0xb00327c8, 0xbf597fc7, 0xc6e00bf3, 0xd5a79147, 0x06ca6351, 0x14292967 ]
  }

  function K2(): (k: seq<Word>)
    ensures |k| == 16
  {
    [ 0x27b70a85, 0x2e1b2138, 0x4d2c6dfc, 0x53380d13, 0x650a7354, 0x766a0abb, 0x81c2c92e, 0x92722c85,
      0xa2bfe8a1, 0xa81a664b, 0xc24b8b70, 0xc76c51a3, 0xd192e819, 0xd6990624, 0xf40e3585, 0x106aa070 ]
  }

  function K3(): (k: seq<Word>)
    ensures |k| == 16
  {
    [ 0x19a4c116, 0x1e376c08, 0x2748774c, 0x34b0bcb5, 0x391c0cb3, 0x4ed8aa4a, 0x5b9cca4f, 0x682e6ff3,
      0x748f82ee, 0x78a5636f, 0x84c87814, 0x8cc70208, 0x90befffa, 0xa4506ceb, 0xbef9a3f7, 0xc67178f2 ]
  }

  /** The eight hash words, or the eight working variables. */
  datatype Vars = Vars(a: Word, b: Word, c: Word, d: Word, e: Word, f: Word, g: Word, h: Word)

  function Start(): Vars {
    Vars(0x6a09e667, 0xbb67ae85, 0x3c6ef372, 0xa54ff53a,
         0x510e527f, 0x9b05688c, 0x1f83d9ab, 0x5be0cd19)
  }

  /** Word `t` of a block, most significant byte first. */
  function BlockWord(p: Bytes, t: nat): Word
    requires |p| == 64 && t < 16
  {
    Or(Or(Or(Shl(p[4 * t], 24), Shl(p[4 * t + 1], 16)), Shl(p[4 * t + 2], 8)), p[4 * t + 3])
  }

  /** Step 1 of section 6.2: the message schedule. */
  function W(p: Bytes, t: nat): Word
    requires |p| == 64 && t < 64
  {
    if t < 16 then BlockWord(p, t)
    else Add(Add(Add(SmallSigma1(W(p, t - 2)), W(p, t - 7)), SmallSigma0(W(p, t - 15))), W(p, t - 16))
  }

  /** Step 3: one round. */
  function Round(v: Vars, k: Word, w: Word): Vars {
    var t1 := Add(Add(Add(Add(v.h, BigSigma1(v.e)), Ch(v.e, v.f, v.g)), k), w);
    var t2 := Add(BigSigma0(v.a), Maj(v.a, v.b, v.c));
    Vars(Add(t1, t2), v.a, v.b, v.c, Add(v.d, t1), v.e, v.f, v.g)
  }

  function Rounds(v: Vars, p: Bytes, t: nat): Vars
    requires |p| == 64 && t <= 64
  {
    if t == 0 then v else Round(Rounds(v, p, t - 1), K()[t - 1], W(p, t - 1))
  }

  /** Step 4: the next intermediate hash value. */
  function Compress(v: Vars, p: Bytes): Vars
    requires |p| == 64
  {
    Sums(Rounds(v, p, 64), v)
  }

  function Sums(r: Vars, v: Vars): Vars {
    Vars(Add(r.a, v.a), Add(r.b, v.b), Add(r.c, v.c), Add(r.d, v.d),
         Add(r.e, v.e), Add(r.f, v.f), Add(r.g, v.g), Add(r.h, v.h))
  }

  /** The hash value after the first `k` blocks. */
  function Blocks(m: Bytes, k: nat): Vars
    requires 64 * k <= |m|
  {
    if k == 0 then Start() else Compress(Blocks(m, k - 1), m[64 * (k - 1)..64 * k])
  }

  lemma {:induction false} BlocksPrefix(m: Bytes, d: Bytes, k: nat)
    requires 64 * k <= |m|
    ensures Blocks(m + d, k) == Blocks(m, k)
  {
    hide Compress;
    if k > 0 {
      BlocksPrefix(m, d, k - 1);
      assert (m + d)[64 * (k - 1)..64 * k] == m[64 * (k - 1)..64 * k];
    }
  }

  // ---- padding, section 4.1 ----

  function Zeros(z: nat): (s: Bytes)
    ensures |s| == z && forall i :: 0 <= i < z ==> s[i] == 0
  {
    if z == 0 then [] else Zeros(z - 1) + [0]
  }

  /** Appending the 1 bit and `z` zero bytes to `n` bytes leaves eight bytes of a block. */
  predicate Leaves(n: nat, z: nat) { (n + 1 + z) % 64 == 56 }

  /** The fewest zero bytes that do so. */
  function Gap(n: nat): (z: nat)
    ensures Leaves(n, z) && forall y: nat :: y < z ==> !Leaves(n, y)
  {
    (119 - n % 64) % 64
  }

  lemma FillsBlock(n: nat, z: nat)
    requires Leaves(n, z)
    ensures n + 1 + z + 8 == 64 * ((n + 1 + z + 8) / 64)
  {
  }

  /** The low `k` bytes of a number, most significant first. */
  function BigEndian(n: nat, k: nat): (s: Bytes)
    ensures |s| == k
  {
    if k == 0 then [] else BigEndian(n / 256, k - 1) + [n % 256]
  }

  /** The length field: bits, modulo 2^64. */
  function BitLength(n: nat): nat { 8 * n % LENGTHS }

  function Padded(m: Bytes): (s: Bytes)
    ensures |s| == 64 * (|s| / 64)
  {
    FillsBlock(|m|, Gap(|m|));
    m + [0x80] + Zeros(Gap(|m|)) + BigEndian(BitLength(|m|), 8)
  }

  function Digest(m: Bytes): Vars { Blocks(Padded(m), |Padded(m)| / 64) }

  function Number(s: Bytes): nat
  {
    if s == [] then 0 else 256 * Number(s[..|s| - 1]) + s[|s| - 1]
  }

  function Pow256(k: nat): (r: nat)
    ensures r > 0
  {
    if k == 0 then 1 else 256 * Pow256(k - 1)
  }

  /** The length field holds the number it was given. */
  lemma {:induction false} BigEndianValue(n: nat, k: nat)
    requires n < Pow256(k)
    ensures Number(BigEndian(n, k)) == n
  {
    if k > 0 {
      BigEndianValue(n / 256, k - 1);
      assert BigEndian(n, k)[..k - 1] == BigEndian(n / 256, k - 1);
    }
  }

  lemma LengthRange()
    ensures Pow256(8) == LENGTHS
  {
    assert Pow256(4) == 0x1_0000_0000;
  }

  /** Padding keeps messages apart, as long as their bit lengths fit the length field. */
  lemma PaddedInjective(m: Bytes, m': Bytes)
    requires 8 * |m| < LENGTHS && 8 * |m'| < LENGTHS && Padded(m) == Padded(m')
    ensures m == m'
  {
    LengthRange();
    BigEndianValue(8 * |m|, 8);
    BigEndianValue(8 * |m'|, 8);
    hide BigEndian, Padded, Pow256;
    PaddedParts(m);
    PaddedParts(m');
  }

  lemma PaddedParts(m: Bytes)
    ensures var s := Padded(m);
            |s| >= |m| + 8 && s[..|m|] == m && (8 * |m| < LENGTHS ==> s[|s| - 8..] == BigEndian(8 * |m|, 8))
  {
    hide BigEndian, Zeros, Gap;
    var s := Padded(m);
    var tail := BigEndian(8 * |m| % LENGTHS, 8);
    assert s[|s| - 8..] == tail;
    assert s[..|m|] == m;
  }

  // ---- hexadecimal text ----

  function HexDigit(d: nat): char
    requires d < 16
  {
    "0123456789abcdef"[d]
  }

  /** The low `k` digits of a number, most significant first. */
  function Hex(n: nat, k: nat): (s: string)
    ensures |s| == k
  {
    if k == 0 then "" else Hex(n / 16, k - 1) + [HexDigit(n % 16)]
  }

  function HexOf(ws: seq<Word>): string
    decreases |ws|
  {
    if ws == [] then "" else HexOf(ws[..|ws| - 1]) + Hex(ws[|ws| - 1], 8)
  }

  /** What the digest looks like. */
  function HexText(v: Vars): string { HexOf([v.a, v.b, v.c, v.d, v.e, v.f, v.g, v.h]) }

  lemma EightWords(ws: seq<Word>)
    requires |ws| == 8
    ensures HexText(Vars(ws[0], ws[1], ws[2], ws[3], ws[4], ws[5], ws[6], ws[7])) == HexOf(ws)
  {
    hide HexOf;
    assert ws == [ws[0], ws[1], ws[2], ws[3], ws[4], ws[5], ws[6], ws[7]];
  }

  function DigitValue(c: char): int { if c <= '9' then c as int - '0' as int else c as int - 'a' as int + 10 }

  function HexValue(s: string): int
    decreases |s|
  {
    if s == "" then 0 else 16 * HexValue(s[..|s| - 1]) + DigitValue(s[|s| - 1])
  }

  /** Eight digits determine a word. */
  lemma {:induction false} HexBack(n: nat, k: nat)
    requires n < Pow2(4 * k)
    ensures HexValue(Hex(n, k)) == n
  {
    if k > 0 {
      var j := 4 * k;
      assert Pow2(j) == 2 * Pow2(j - 1) && Pow2(j - 1) == 2 * Pow2(j - 2);
      assert Pow2(j - 2) == 2 * Pow2(j - 3) && Pow2(j - 3) == 2 * Pow2(j - 4);
      HexBack(n / 16, k - 1);
      assert Hex(n, k)[..k - 1] == Hex(n / 16, k - 1);
      DigitBack(n % 16);
    }
  }

  lemma DigitBack(d: nat)
    requires d < 16
    ensures DigitValue(HexDigit(d)) == d
  {
  }

  /** Different digests have different texts. */
  lemma {:induction false} HexOfInjective(v: seq<Word>, w: seq<Word>)
    requires |v| == |w| && HexOf(v) == HexOf(w)
    ensures v == w
    decreases |v|
  {
    if v != [] {
      var n := |v| - 1;
      HexSplits(v);
      HexSplits(w);
      hide HexOf, Hex;
      HexOfInjective(v[..n], w[..n]);
      WordSize();
      HexBack(v[n], 8);
      HexBack(w[n], 8);
      SameWords(v, w, n);
    }
  }

  lemma SameWords(v: seq<Word>, w: seq<Word>, n: nat)
    requires |v| == |w| == n + 1 && v[..n] == w[..n] && v[n] == w[n]
    ensures v == w
  {
    assert v == v[..n] + [v[n]];
    assert w == w[..n] + [w[n]];
  }

  lemma HexSplits(v: seq<Word>)
    requires v != []
    ensures var n := |v| - 1;
            |HexOf(v)| == 8 * |v| && HexOf(v)[..8 * n] == HexOf(v[..n]) && HexOf(v)[8 * n..] == Hex(v[n], 8)
  {
    hide Hex;
    HexSize(v);
    HexSize(v[..|v| - 1]);
  }

  lemma {:induction false} HexSize(v: seq<Word>)
    ensures |HexOf(v)| == 8 * |v|
    decreases |v|
  {
    if v != [] { HexSize(v[..|v| - 1]); }
  }

  // ---- the class ----

  class SHA256 {
    const h: array<Word>
    const buf: array<Byte>
    var bitLen: nat
    var bufLen: nat
    /** The bytes given so far, and how many whole blocks they make. */
    ghost var msg: Bytes
    ghost var count: nat

    ghost predicate Shape()
    {
      h.Length == 8 && buf.Length == 64
    }

    ghost function Hash(): Vars
      requires Shape()
      reads h
    {
      Vars(h[0], h[1], h[2], h[3], h[4], h[5], h[6], h[7])
    }

    /** Whole blocks are in the hash value, the rest of the message in the buffer. */
    ghost predicate Streams(m: Bytes)
      reads this`bufLen, this`count, h, buf
    {
      && Shape() && |m| == 64 * count + bufLen && bufLen < 64
      && buf[..bufLen] == m[64 * count..] && Hash() == Blocks(m, count)
    }

    ghost predicate Valid()
      reads this, h, buf
    {
      Streams(msg) && bitLen == BitLength(|msg|)
    }

    constructor ()
      ensures Valid() && msg == [] && fresh(h) && fresh(buf)
    {
      h := new Word[8] [0x6a09e667, 0xbb67ae85, 0x3c6ef372, 0xa54ff53a,
                        0x510e527f, 0x9b05688c, 0x1f83d9ab, 0x5be0cd19];
      buf := new Byte[64];
      bitLen, bufLen, msg, count := 0, 0, [], 0;
    }

    /** Process one full block. */
    method Block(p: Bytes)
      requires Shape() && |p| == 64
      modifies h
      ensures Hash() == Compress(old(Hash()), p)
    {
      hide W, K, Rot, Add, And, Xor2, Not;
      var w := Schedule(p);
      ghost var v0 := Hash();
      var a, b, c, d, e, f, g, hh := h[0], h[1], h[2], h[3], h[4], h[5], h[6], h[7];
      for i := 0 to 64
        invariant Vars(a, b, c, d, e, f, g, hh) == Rounds(v0, p, i)
      {
        var s1 := Xor2(Xor2(Rot(e, 6), Rot(e, 11)), Rot(e, 25));
        var ch := Xor2(And(e, f), And(Not(e), g));
        var t1 := Add(Add(Add(Add(hh, s1), ch), K()[i]), w[i]);
        var s0 := Xor2(Xor2(Rot(a, 2), Rot(a, 13)), Rot(a, 22));
        var mj := Xor2(Xor2(And(a, b), And(a, c)), And(b, c));
        var t2 := Add(s0, mj);
        hh := g; g := f; f := e; e := Add(d, t1); d := c; c := b; b := a; a := Add(t1, t2);
      }
      Accumulate(v0, Vars(a, b, c, d, e, f, g, hh));
    }

    /** Appending bytes that end within the block being filled. */
    method Fill(d: Bytes, ghost m: Bytes)
      requires Streams(m) && bufLen + |d| <= 64
      modifies this`bufLen, this`count, h, buf
      ensures Streams(m + d)
    {
      hide Compress;
      ghost var full := m + d;
      BlocksPrefix(m, d, count);
      CopyIn(d);
      bufLen := bufLen + |d|;
      assert buf[..bufLen] == full[64 * count..];
      if bufLen == 64 {
        assert buf[..] == full[64 * count..64 * (count + 1)];
        Block(buf[..]);
        bufLen, count := 0, count + 1;
      }
    }

    method CopyIn(d: Bytes)
      requires Shape() && bufLen + |d| <= 64
      modifies buf
      ensures buf[..bufLen + |d|] == old(buf[..bufLen]) + d
    {
      forall i | 0 <= i < |d| { buf[bufLen + i] := d[i]; }
    }

    /** However a message is cut into updates, the state depends only on the bytes so far. */
    method Update(d: Bytes)
      requires Valid()
      modifies this, h, buf
      ensures Valid() && msg == old(msg) + d
    {
      hide Streams, BitLength;
      LengthAdds(|msg|, |d|);
      bitLen := (bitLen + 8 * |d|) % LENGTHS;
      var off := 0;
      assert msg + d[..0] == msg;
      while off < |d|
        invariant off <= |d| && Streams(msg + d[..off])
        invariant msg == old(msg) && bitLen == BitLength(|msg| + |d|)
      {
        Room(msg + d[..off]);
        var k := if 64 - bufLen < |d| - off then 64 - bufLen else |d| - off;
        assert (msg + d[..off]) + d[off..off + k] == msg + d[..off + k];
        Fill(d[off..off + k], msg + d[..off]);
        off := off + k;
      }
      assert d[..off] == d;
      msg := msg + d;
    }

    lemma Room(m: Bytes)
      requires Streams(m)
      ensures bufLen < 64 && |m| == 64 * count + bufLen
    {
    }

    /** The text is the digest of the message in hexadecimal: exactly its padded form has been processed. */
    method HexDigest() returns (text: string)
      requires Valid()
      modifies this, h, buf
      ensures Valid() && msg == Padded(old(msg)) && bufLen == 0
      ensures text == HexText(Digest(old(msg)))
    {
      hide Blocks, BigEndian, Zeros, Gap, Streams;
      ghost var m := msg;
      var bl := bitLen;
      PadZeros();
      var lb := LengthField(bl);
      Update(lb);
      assert msg == Padded(m);
      Finished(msg);
      text := Printed();
    }

    /** The words in order, eight digits each. */
    method Printed() returns (text: string)
      requires Shape()
      ensures text == HexText(Hash())
    {
      hide Hex;
      text := "";
      for i := 0 to 8
        invariant text == HexOf(h[..i])
      {
        assert h[..i + 1][..i] == h[..i];
        text := text + Hex(h[i], 8);
      }
      EightWords(h[..]);
      assert h[..8] == h[..];
    }

    lemma Finished(m: Bytes)
      requires Streams(m) && |m| == 64 * (|m| / 64)
      ensures bufLen == 0 && Shape() && Hash() == Blocks(m, |m| / 64)
    {
      EvenEnd(count, bufLen, |m| / 64);
    }

    /** The first padding byte and the zeros: the loop ends with the fewest that leave eight bytes. */
    method PadZeros()
      requires Valid()
      modifies this, h, buf
      ensures Valid() && msg == old(msg) + [0x80] + Zeros(Gap(|old(msg)|))
    {
      hide Streams, Gap, Leaves, BitLength, Zeros;
      ghost var m := msg;
      Update([0x80]);
      ghost var z := 0;
      ZerosGrow(m + [0x80], 0);
      while bufLen != 56
        invariant Valid() && msg == m + [0x80] + Zeros(z)
        invariant forall y: nat :: y < z ==> !Leaves(|m|, y)
        decreases if bufLen <= 56 then 56 - bufLen else 120 - bufLen
      {
        Room(msg);
        NotYet(|m|, z, count, bufLen);
        ghost var c, b := count, bufLen;
        ZerosGrow(m + [0x80], z);
        Update([0]);
        Room(msg);
        OneMore(c, b, count, bufLen);
        z := z + 1;
      }
      Room(msg);
      FirstFit(|m|, z, count);
    }

    /** Step 4 in place. */
    method Accumulate(ghost v0: Vars, r: Vars)
      requires Shape() && Hash() == v0
      modifies h
      ensures Hash() == Sums(r, v0)
    {
      AddCommutes(r, v0);
      hide Add;
      h[0] := Add(h[0], r.a); h[1] := Add(h[1], r.b); h[2] := Add(h[2], r.c); h[3] := Add(h[3], r.d);
      h[4] := Add(h[4], r.e); h[5] := Add(h[5], r.f); h[6] := Add(h[6], r.g); h[7] := Add(h[7], r.h);
    }
  }

  lemma ZerosGrow(a: Bytes, z: nat)
    ensures a + Zeros(0) == a && a + Zeros(z) + [0] == a + Zeros(z + 1)
  {
  }

  lemma NotYet(n: nat, z: nat, count: nat, len: nat)
    requires n + 1 + z == 64 * count + len && len < 64 && len != 56
    ensures !Leaves(n, z)
  {
  }

  lemma OneMore(c: nat, b: nat, c': nat, b': nat)
    requires 64 * c + b + 1 == 64 * c' + b' && b < 64 && b' < 64
    ensures b' == if b == 63 then 0 else b + 1
  {
  }

  lemma FirstFit(n: nat, z: nat, count: nat)
    requires n + 1 + z == 64 * count + 56 && forall y: nat :: y < z ==> !Leaves(n, y)
    ensures z == Gap(n)
  {
    assert Leaves(n, z);
    hide Gap;
    assert Leaves(n, Gap(n));
  }

  lemma EvenEnd(c: nat, b: nat, q: nat)
    requires 64 * c + b == 64 * q && b < 64
    ensures c == q && b == 0
  {
  }

  lemma LengthAdds(m: nat, d: nat)
    ensures (BitLength(m) + 8 * d) % LENGTHS == BitLength(m + d)
  {
  }

  /** Byte `i` of a number, from the least significant. */
  function ByteAt(n: nat, i: nat): Byte
    decreases i
  {
    if i == 0 then n % 256 else ByteAt(n / 256, i - 1)
  }

  lemma {:induction false} BigEndianAt(n: nat, k: nat, i: nat)
    requires i < k
    ensures BigEndian(n, k)[k - 1 - i] == ByteAt(n, i)
    decreases k
  {
    if i > 0 { BigEndianAt(n / 256, k - 1, i - 1); }
  }

  /** The eight length bytes, written from the last to the first. */
  method LengthField(bl: nat) returns (s: Bytes)
    ensures s == BigEndian(bl, 8)
  {
    var lb := new Byte[8](_ => 0);
    for i := 0 to 8
      invariant forall j :: 8 - i <= j < 8 ==> lb[j] == BigEndian(bl, 8)[j]
    {
      BigEndianAt(bl, 8, i);
      lb[7 - i] := ByteAt(bl, i);
    }
    s := lb[..];
  }

  lemma AddCommutes(v: Vars, r: Vars)
    ensures Sums(v, r) == Sums(r, v)
  {
  }

  /** The message schedule, filled in order. */
  method Schedule(p: Bytes) returns (w: array<Word>)
    requires |p| == 64
    ensures fresh(w) && w.Length == 64 && forall t :: 0 <= t < 64 ==> w[t] == W(p, t)
  {
    hide Rot, Add, Or, Shl, Shr, Xor2, W;
    w := new Word[64](_ => 0);
    for i := 0 to 16
      invariant forall t :: 0 <= t < i ==> w[t] == W(p, t)
    {
      assert W(p, i) == BlockWord(p, i) by { FirstWords(p, i); }
      w[i] := Or(Or(Or(Shl(p[i * 4], 24), Shl(p[i * 4 + 1], 16)),
                    Shl(p[i * 4 + 2], 8)), p[i * 4 + 3]);
    }
    for i := 16 to 64
      invariant forall t :: 0 <= t < i ==> w[t] == W(p, t)
    {
      var s0 := Xor2(Xor2(Rot(w[i - 15], 7), Rot(w[i - 15], 18)), Shr(w[i - 15], 3));
      var s1 := Xor2(Xor2(Rot(w[i - 2], 17), Rot(w[i - 2], 19)), Shr(w[i - 2], 10));
      LaterWords(p, i);
      SumOrder(w[i - 16], s0, w[i - 7], s1);
      w[i] := Add(Add(Add(w[i - 16], s0), w[i - 7]), s1);
    }
  }

  lemma FirstWords(p: Bytes, t: nat)
    requires |p| == 64 && t < 16
    ensures W(p, t) == BlockWord(p, t)
  {
  }

  lemma LaterWords(p: Bytes, t: nat)
    requires |p| == 64 && 16 <= t < 64
    ensures W(p, t) == Add(Add(Add(SmallSigma1(W(p, t - 2)), W(p, t - 7)), SmallSigma0(W(p, t - 15))), W(p, t - 16))
  {
  }

  lemma SumOrder(a: Word, b: Word, c: Word, d: Word)
    ensures Add(Add(Add(a, b), c), d) == Add(Add(Add(d, c), b), a)
  {
    var ab := Add(a, b);
    AddSwaps(Add(ab, c), d);
    AddSwaps(ab, c);
    AddNests(d, c, ab);
    AddSwaps(a, b);
    AddNests(Add(d, c), b, a);
  }

  lemma AddSwaps(x: Word, y: Word)
    ensures Add(x, y) == Add(y, x)
  {
  }

  lemma AddNests(x: Word, y: Word, z: Word)
    ensures Add(x, Add(y, z)) == Add(Add(x, y), z)
  {
  }

  function Flat(parts: seq<Bytes>): Bytes
    decreases |parts|
  {
    if parts == [] then [] else Flat(parts[..|parts| - 1]) + parts[|parts| - 1]
  }

  /** Any split of a message into updates gives the digest of the whole. */
  method HashParts(parts: seq<Bytes>) returns (text: string)
    ensures text == HexText(Digest(Flat(parts)))
  {
    var s := new SHA256();
    for i := 0 to |parts|
      invariant s.Valid() && fresh(s) && fresh(s.h) && fresh(s.buf) && s.msg == Flat(parts[..i])
    {
      assert parts[..i + 1][..i] == parts[..i];
      s.Update(parts[i]);
    }
    assert parts[..|parts|] == parts;
    text := s.HexDigest();
  }
}
