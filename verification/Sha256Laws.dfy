/**
 The functions of RFC 6234 that the hash is made of, bit by bit and number by number, and its constants as
 roots of primes (sections 5.1, 5.3 and 6.1 to 6.2).
 */
module Sha256Laws {
  import opened CacheCodec
  import opened Sha256

  /** Bit `i`, counted from the least significant. */
  function Bit(x: nat, i: nat): nat { x / Pow2(i) % 2 }

  lemma BitZero(x: nat)
    ensures Bit(x, 0) == x % 2
  {
    assert Pow2(0) == 1;
  }

  lemma BitNext(x: nat, i: nat)
    requires i > 0
    ensures Bit(x, i) == Bit(x / 2, i - 1)
  {
    HalveFirst(x, i);
  }

  // ---- shifts ----

  /** A right shift drops bits. */
  lemma {:induction false} ShrBit(x: Word, n: nat, i: nat)
    ensures Bit(Shr(x, n), i) == Bit(x, i + n)
    decreases n
  {
    hide Bit;
    if n > 0 {
      ShrBit(x / 2, n - 1, i);
      BitNext(x, i + n);
    }
  }

  /** Bits beyond the size of a number are zero. */
  lemma {:induction false} HighBit(x: nat, m: nat, i: nat)
    requires x < Pow2(m) && i >= m
    ensures Bit(x, i) == 0
    decreases i
  {
    hide Bit;
    if i == 0 {
      BitZero(x);
    } else {
      BitNext(x, i);
      if m == 0 { HighBit(x / 2, 0, i - 1); } else { HighBit(x / 2, m - 1, i - 1); }
    }
  }

  lemma EvenPower(m: nat)
    requires m > 0
    ensures Pow2(m) == 2 * Pow2(m - 1)
  {
  }

  /** Taking the low bits of a number, halved. */
  lemma LowHalf(x: nat, d: nat)
    requires d > 0
    ensures x % (2 * d) / 2 == x / 2 % d && x % (2 * d) % 2 == x % 2
  {
    var q, r := x / (2 * d), x % (2 * d);
    assert x == 2 * d * q + r;
    assert x == 2 * (d * q) + r;
    assert x / 2 == d * q + r / 2;
    Remainder(x / 2, q, d, r / 2);
  }

  lemma Remainder(n: int, q: int, d: int, r: int)
    requires d > 0 && n == d * q + r && 0 <= r < d
    ensures n % d == r
  {
    assert n == q * d + r;
    Quotient(n, q, d, r);
    assert n == n / d * d + n % d;
  }

  lemma {:induction false} LowBit(x: nat, m: nat, i: nat)
    requires i < m
    ensures Bit(x % Pow2(m), i) == Bit(x, i)
    decreases m
  {
    EvenPower(m);
    LowHalf(x, Pow2(m - 1));
    hide Bit, Pow2;
    if i == 0 {
      BitZero(x);
      BitZero(x % Pow2(m));
    } else {
      BitNext(x, i);
      BitNext(x % Pow2(m), i);
      LowBit(x / 2, m - 1, i - 1);
    }
  }

  lemma DoubleBit(x: Word, i: nat)
    requires i < 32
    ensures Bit(2 * (x as int) % WORD, i) == if i == 0 then 0 else Bit(x, i - 1)
  {
    WordSize();
    LowBit(2 * (x as int), 32, i);
    if i == 0 { BitZero(2 * (x as int)); } else { BitNext(2 * (x as int), i); }
    hide Bit;
  }

  /** A left shift moves bits up, out of the word at the top. */
  lemma {:induction false} ShlBit(x: Word, n: nat, i: nat)
    requires i < 32
    ensures Bit(Shl(x, n), i) == if i < n then 0 else Bit(x, i - n)
    decreases n
  {
    hide Bit;
    if n > 0 {
      ShlBit(2 * (x as int) % WORD, n - 1, i);
      if i >= n - 1 { DoubleBit(x, i - (n - 1)); }
    }
  }

  // ---- logic ----

  lemma XorBit(x: Word, y: Word, i: nat)
    requires i < 32
    ensures Bit(Xor2(x, y), i) == (Bit(x, i) + Bit(y, i)) % 2
  {
    XorBits(x, y, 32, i);
  }

  lemma {:induction false} AndBitsAt(a: nat, b: nat, n: nat, i: nat)
    requires i < n
    ensures Bit(AndBits(a, b, n), i) == if Bit(a, i) == 1 && Bit(b, i) == 1 then 1 else 0
    decreases n
  {
    AndHalves(a, b, n);
    hide Bit, AndBits;
    if i == 0 {
      BitZero(a);
      BitZero(b);
      BitZero(AndBits(a, b, n));
    } else {
      AndBitsAt(a / 2, b / 2, n - 1, i - 1);
      BitNext(a, i);
      BitNext(b, i);
      BitNext(AndBits(a, b, n), i);
    }
  }

  lemma AndHalves(a: nat, b: nat, n: nat)
    requires n > 0
    ensures AndBits(a, b, n) / 2 == AndBits(a / 2, b / 2, n - 1)
    ensures AndBits(a, b, n) % 2 == if a % 2 == 1 && b % 2 == 1 then 1 else 0
  {
  }

  lemma AndBit(x: Word, y: Word, i: nat)
    requires i < 32
    ensures Bit(And(x, y), i) == if Bit(x, i) == 1 && Bit(y, i) == 1 then 1 else 0
  {
    AndBitsAt(x, y, 32, i);
  }

  lemma OrBit(x: Word, y: Word, i: nat)
    requires i < 32
    ensures Bit(Or(x, y), i) == if Bit(x, i) == 1 || Bit(y, i) == 1 then 1 else 0
  {
    hide Xor2, And, Bit;
    XorBit(x, y, i);
    AndBit(x, y, i);
    XorBit(Xor2(x, y), And(x, y), i);
    BitRange(x, y, x, i);
  }

  lemma {:induction false} Complement(x: nat, m: nat, i: nat)
    requires x < Pow2(m) && i < m
    ensures Bit(Pow2(m) - 1 - x, i) == 1 - Bit(x, i)
    decreases m
  {
    EvenPower(m);
    var y := Pow2(m) - 1 - x;
    assert y / 2 == Pow2(m - 1) - 1 - x / 2 && y % 2 == 1 - x % 2;
    hide Bit, Pow2;
    if i == 0 {
      BitZero(x);
      BitZero(y);
    } else {
      BitNext(x, i);
      BitNext(y, i);
      Complement(x / 2, m - 1, i - 1);
    }
  }

  lemma NotBit(x: Word, i: nat)
    requires i < 32
    ensures Bit(Not(x), i) == 1 - Bit(x, i)
  {
    WordSize();
    Complement(x, 32, i);
    hide Bit;
  }

  /** A rotation to the right. */
  lemma RotBit(x: Word, n: nat, i: nat)
    requires 0 < n < 32 && i < 32
    ensures Bit(Rot(x, n), i) == Bit(x, (i + n) % 32)
  {
    hide Bit, Or, Shr, Shl, Pow2;
    ShrBit(x, n, i);
    ShlBit(x, 32 - n, i);
    OrBit(Shr(x, n), Shl(x, 32 - n), i);
    BitRange(x, x, x, (i + n) % 32);
    if i + n >= 32 { BeyondWord(x, i + n); }
  }

  lemma BeyondWord(x: Word, i: nat)
    requires i >= 32
    ensures Bit(x, i) == 0
  {
    WordSize();
    hide Pow2, Bit;
    HighBit(x, 32, i);
  }

  lemma Xor3Bit(x: Word, y: Word, z: Word, i: nat)
    requires i < 32
    ensures Bit(Xor3(x, y, z), i) == (Bit(x, i) + Bit(y, i) + Bit(z, i)) % 2
  {
    hide Xor2, Bit;
    XorBit(x, y, i);
    XorBit(Xor2(x, y), z, i);
  }

  /** The six functions of section 5.1, bit by bit: choice, majority, and sums of rotated or shifted copies. */
  lemma FunctionBits(x: Word, y: Word, z: Word, i: nat)
    requires i < 32
    ensures Bit(Ch(x, y, z), i) == if Bit(x, i) == 1 then Bit(y, i) else Bit(z, i)
    ensures Bit(Maj(x, y, z), i) == if Bit(x, i) + Bit(y, i) + Bit(z, i) >= 2 then 1 else 0
    ensures Bit(BigSigma0(x), i) == (Bit(x, (i + 2) % 32) + Bit(x, (i + 13) % 32) + Bit(x, (i + 22) % 32)) % 2
    ensures Bit(BigSigma1(x), i) == (Bit(x, (i + 6) % 32) + Bit(x, (i + 11) % 32) + Bit(x, (i + 25) % 32)) % 2
    ensures Bit(SmallSigma0(x), i) == (Bit(x, (i + 7) % 32) + Bit(x, (i + 18) % 32) + Bit(x, i + 3)) % 2
    ensures Bit(SmallSigma1(x), i) == (Bit(x, (i + 17) % 32) + Bit(x, (i + 19) % 32) + Bit(x, i + 10)) % 2
  {
    hide Bit, Rot, Shr, Xor3, Xor2, And, Not;
    ChoiceBit(x, y, z, i);
    MajorityBit(x, y, z, i);
    RotBit(x, 2, i); RotBit(x, 13, i); RotBit(x, 22, i);
    RotBit(x, 6, i); RotBit(x, 11, i); RotBit(x, 25, i);
    RotBit(x, 7, i); RotBit(x, 18, i); ShrBit(x, 3, i);
    RotBit(x, 17, i); RotBit(x, 19, i); ShrBit(x, 10, i);
    Xor3Bit(Rot(x, 2), Rot(x, 13), Rot(x, 22), i);
    Xor3Bit(Rot(x, 6), Rot(x, 11), Rot(x, 25), i);
    Xor3Bit(Rot(x, 7), Rot(x, 18), Shr(x, 3), i);
    Xor3Bit(Rot(x, 17), Rot(x, 19), Shr(x, 10), i);
  }

  lemma ChoiceBit(x: Word, y: Word, z: Word, i: nat)
    requires i < 32
    ensures Bit(Ch(x, y, z), i) == if Bit(x, i) == 1 then Bit(y, i) else Bit(z, i)
  {
    hide Bit, And, Not, Xor2;
    AndBit(x, y, i);
    AndBit(Not(x), z, i);
    NotBit(x, i);
    XorBit(And(x, y), And(Not(x), z), i);
    BitRange(x, y, z, i);
  }

  lemma MajorityBit(x: Word, y: Word, z: Word, i: nat)
    requires i < 32
    ensures Bit(Maj(x, y, z), i) == if Bit(x, i) + Bit(y, i) + Bit(z, i) >= 2 then 1 else 0
  {
    hide Bit, And, Xor3;
    AndBit(x, y, i);
    AndBit(x, z, i);
    AndBit(y, z, i);
    Xor3Bit(And(x, y), And(x, z), And(y, z), i);
    BitRange(x, y, z, i);
  }

  lemma BitRange(x: nat, y: nat, z: nat, i: nat)
    ensures Bit(x, i) < 2 && Bit(y, i) < 2 && Bit(z, i) < 2
  {
  }

  // ---- rounds, schedule and words ----

  /** One round in sums modulo 2^32. */
  lemma RoundIs(v: Vars, k: Word, w: Word)
    ensures var r := Round(v, k, w);
            && r.b == v.a && r.c == v.b && r.d == v.c && r.f == v.e && r.g == v.f && r.h == v.g
            && r.a as int == (v.h as int + BigSigma1(v.e) as int + Ch(v.e, v.f, v.g) as int + k as int + w as int
                              + BigSigma0(v.a) as int + Maj(v.a, v.b, v.c) as int) % 0x1_0000_0000
            && r.e as int == (v.d as int + v.h as int + BigSigma1(v.e) as int + Ch(v.e, v.f, v.g) as int
                              + k as int + w as int) % 0x1_0000_0000
  {
    hide BigSigma0, BigSigma1, Ch, Maj, Add;
    var s1, ch, s0, maj := BigSigma1(v.e), Ch(v.e, v.f, v.g), BigSigma0(v.a), Maj(v.a, v.b, v.c);
    var t1, t2 := Add(Add(Add(Add(v.h, s1), ch), k), w), Add(s0, maj);
    AddIs(v.h, s1);
    AddMore(Add(v.h, s1), ch, v.h as int + s1 as int);
    AddMore(Add(Add(v.h, s1), ch), k, v.h as int + s1 as int + ch as int);
    AddMore(Add(Add(Add(v.h, s1), ch), k), w, v.h as int + s1 as int + ch as int + k as int);
    AddIs(s0, maj);
    AddBoth(t1, t2, v.h as int + s1 as int + ch as int + k as int + w as int, s0 as int + maj as int);
    AddIs(v.d, t1);
    AddUp(v.d, t1, v.h as int + s1 as int + ch as int + k as int + w as int);
  }

  lemma AddIs(x: Word, y: Word)
    ensures Add(x, y) as int == (x as int + y as int) % WORD
  {
  }

  /** Reducing first or last makes no difference. */
  lemma AddMore(x: Word, y: Word, n: int)
    requires x as int == n % WORD
    ensures Add(x, y) as int == (n + y as int) % WORD
  {
    ModSum(n, y);
  }

  lemma AddUp(x: Word, y: Word, n: int)
    requires y as int == n % WORD
    ensures Add(x, y) as int == (x as int + n) % WORD
  {
    ModSum(n, x);
  }

  lemma AddBoth(x: Word, y: Word, n: int, m: int)
    requires x as int == n % WORD && y as int == m % WORD
    ensures Add(x, y) as int == (n + m) % WORD
  {
    ModSum(n, y);
    ModSum(m, n);
  }

  lemma ModSum(n: int, m: int)
    ensures (n % WORD + m) % WORD == (n + m) % WORD
  {
  }

  /** Sixty-four rounds, with the constants and the schedule in order, and the sums with the words before. */
  lemma CompressIs(v: Vars, p: Bytes, t: nat)
    requires |p| == 64 && t < 64
    ensures Rounds(v, p, 0) == v && Rounds(v, p, t + 1) == Round(Rounds(v, p, t), K()[t], W(p, t))
    ensures var r, s := Rounds(v, p, 64), Compress(v, p);
            && s.a as int == (r.a as int + v.a as int) % 0x1_0000_0000
            && s.b as int == (r.b as int + v.b as int) % 0x1_0000_0000
            && s.c as int == (r.c as int + v.c as int) % 0x1_0000_0000
            && s.d as int == (r.d as int + v.d as int) % 0x1_0000_0000
            && s.e as int == (r.e as int + v.e as int) % 0x1_0000_0000
            && s.f as int == (r.f as int + v.f as int) % 0x1_0000_0000
            && s.g as int == (r.g as int + v.g as int) % 0x1_0000_0000
            && s.h as int == (r.h as int + v.h as int) % 0x1_0000_0000
  {
    hide Round, K, W;
  }

  /** The message schedule: sixteen big-endian words, then the recurrence. */
  lemma ScheduleIs(p: Bytes, t: nat)
    requires |p| == 64 && t < 64
    ensures t < 16 ==> W(p, t) as int == 0x1000000 * p[4 * t] as int + 0x10000 * p[4 * t + 1] as int
                                         + 0x100 * p[4 * t + 2] as int + p[4 * t + 3] as int
    ensures t >= 16 ==> W(p, t) as int == (SmallSigma1(W(p, t - 2)) as int + W(p, t - 7) as int
                                           + SmallSigma0(W(p, t - 15)) as int + W(p, t - 16) as int) % 0x1_0000_0000
  {
    hide SmallSigma0, SmallSigma1, Or, Shl, Add;
    if t < 16 {
      BigEndianWord(p[4 * t], p[4 * t + 1], p[4 * t + 2], p[4 * t + 3]);
    } else {
      RecurrenceIs(SmallSigma1(W(p, t - 2)), W(p, t - 7), SmallSigma0(W(p, t - 15)), W(p, t - 16));
    }
  }

  lemma RecurrenceIs(a: Word, b: Word, c: Word, d: Word)
    ensures Add(Add(Add(a, b), c), d) as int == (a as int + b as int + c as int + d as int) % 0x1_0000_0000
  {
    hide Add;
    AddIs(a, b);
    AddMore(Add(a, b), c, a as int + b as int);
    AddMore(Add(Add(a, b), c), d, a as int + b as int + c as int);
  }

  lemma BigEndianWord(b0: Byte, b1: Byte, b2: Byte, b3: Byte)
    ensures Or(Or(Or(Shl(b0, 24), Shl(b1, 16)), Shl(b2, 8)), b3) as int ==
            0x1000000 * b0 as int + 0x10000 * b1 as int + 0x100 * b2 as int + b3 as int
  {
    hide Or, Shl, Pow2;
    Powers();
    ShlIs(b0, 24);
    ShlIs(b1, 16);
    ShlIs(b2, 8);
    var w1, w2, w3 := 0x1000000 * b0 as int, 0x10000 * b1 as int, 0x100 * b2 as int;
    MultipleOf(w1, b0, 0x1000000);
    MultipleOf(w1 + w2, 0x100 * b0 as int + b1 as int, 0x10000);
    MultipleOf(w1 + w2 + w3, 0x10000 * b0 as int + 0x100 * b1 as int + b2 as int, 0x100);
    OrAdds(w1, w2, 24);
    OrAdds(w1 + w2, w3, 16);
    OrAdds(w1 + w2 + w3, b3, 8);
  }

  lemma Powers()
    ensures Pow2(8) == 0x100 && Pow2(16) == 0x10000 && Pow2(24) == 0x1000000 && Pow2(32) == WORD
  {
    ByteSize();
    WordSize();
    assert Pow2(12) == 4096;
    assert Pow2(16) == 0x10000;
    assert Pow2(20) == 0x100000;
  }

  lemma MultipleOf(x: int, q: int, d: int)
    requires d > 0 && x == d * q
    ensures x % d == 0
  {
    Remainder(x, q, d, 0);
  }

  /** A shift that loses nothing is a multiplication. */
  lemma {:induction false} ShlIs(x: Word, n: nat)
    requires x as int * Pow2(n) < WORD
    ensures Shl(x, n) as int == x as int * Pow2(n)
    decreases n
  {
    if n > 0 {
      var d := Pow2(n - 1);
      assert x as int * Pow2(n) == 2 * (x as int) * d;
      AtMost(2 * (x as int), d);
      SmallMod(2 * (x as int));
      ShlIs(2 * (x as int), n - 1);
    }
  }

  lemma AtMost(a: nat, d: nat)
    requires d > 0
    ensures a <= a * d
  {
  }

  lemma SmallMod(a: nat)
    requires a < WORD
    ensures a % WORD == a
  {
  }

  /** Numbers without common bits: the second is below the lowest bit of the first. */
  lemma OrAdds(x: nat, y: nat, m: nat)
    requires x < WORD && y < Pow2(m) && x % Pow2(m) == 0 && m <= 32 && x + y < WORD
    requires y < WORD
    ensures Or(x, y) as int == x + y
  {
    WordSize();
    Disjoint(x, y, m, 32);
    XorNone(x + y, 32);
    hide Xor, AndBits, Pow2;
  }

  lemma {:induction false} Disjoint(x: nat, y: nat, m: nat, n: nat)
    requires x < Pow2(n) && y < Pow2(m) && x % Pow2(m) == 0 && m <= n
    ensures Xor(x, y, n) == x + y && AndBits(x, y, n) == 0
    decreases m
  {
    if m == 0 {
      assert y == 0;
      hide Pow2, Xor, AndBits;
      XorNone(x, n);
      AndNone(x, n);
    } else {
      hide Pow2, Xor, AndBits;
      HalvesApart(x, y, m, n);
      XorHalves(x, y, n);
      AndHalves(x, y, n);
      Disjoint(x / 2, y / 2, m - 1, n - 1);
      Recombine(Xor(x, y, n), AndBits(x, y, n), x, y);
    }
  }

  lemma Recombine(xor: nat, and: nat, x: nat, y: nat)
    requires x % 2 == 0 && xor / 2 == x / 2 + y / 2 && xor % 2 == (x + y) % 2 && and / 2 == 0 && and % 2 == 0
    ensures xor == x + y && and == 0
  {
  }

  lemma HalvesApart(x: nat, y: nat, m: nat, n: nat)
    requires x < Pow2(n) && y < Pow2(m) && x % Pow2(m) == 0 && 0 < m && 0 < n
    ensures x / 2 < Pow2(n - 1) && y / 2 < Pow2(m - 1) && x / 2 % Pow2(m - 1) == 0 && x % 2 == 0
  {
    EvenPower(m);
    EvenPower(n);
    LowHalf(x, Pow2(m - 1));
    hide Pow2;
  }

  lemma {:induction false} XorNone(x: nat, n: nat)
    requires x < Pow2(n)
    ensures Xor(x, 0, n) == x
  {
    if n > 0 { XorNone(x / 2, n - 1); }
  }

  lemma {:induction false} AndNone(x: nat, n: nat)
    ensures AndBits(x, 0, n) == 0
  {
    if n > 0 { AndNone(x / 2, n - 1); }
  }

  // ---- padding ----

  /** The padded message: the message, a one bit, the fewest zeros that fill a block, and the bit length. */
  lemma PaddedMeans(m: Bytes)
    ensures var s := Padded(m);
            && |s| % 64 == 0 && |m| + 9 <= |s| < |m| + 73 && s[..|m|] == m && s[|m|] == 0x80
            && (forall i :: |m| < i < |s| - 8 ==> s[i] == 0)
            && Number(s[|s| - 8..]) == 8 * |m| % 0x1_0000_0000_0000_0000
  {
    var z, bits := Gap(|m|), BitLength(|m|);
    var s, tail := Padded(m), BigEndian(bits, 8);
    assert s == m + [0x80] + Zeros(z) + tail;
    assert s[|s| - 8..] == tail;
    assert forall i :: |m| < i < |s| - 8 ==> s[i] == Zeros(z)[i - |m| - 1];
    LengthRange();
    BigEndianValue(bits, 8);
    hide BigEndian, Number, Zeros, Pow256;
  }

  // ---- the text ----

  /** The word that a position of the digest shows. */
  lemma TextIs(v: Vars, i: nat, j: nat)
    requires i < 8 && j < 8
    ensures var ws, text := [v.a, v.b, v.c, v.d, v.e, v.f, v.g, v.h], HexText(v);
            |text| == 64 && DigitIs(text[8 * i + j], ws[i] as int / Pow2(4 * (7 - j)) % 16)
  {
    var ws: seq<Word> := [v.a, v.b, v.c, v.d, v.e, v.f, v.g, v.h];
    HexSize(ws);
    WordText(ws, i, j);
  }

  /** The characters 0 to 9 and a to f. */
  predicate DigitIs(c: char, d: int) {
    0 <= d < 16 && c as int == if d < 10 then 0x30 + d else 0x57 + d
  }

  lemma {:induction false} WordText(ws: seq<Word>, i: nat, j: nat)
    requires i < |ws| && j < 8
    ensures |HexOf(ws)| == 8 * |ws| && DigitIs(HexOf(ws)[8 * i + j], ws[i] as int / Pow2(4 * (7 - j)) % 16)
    decreases |ws|
  {
    var n := |ws| - 1;
    HexSplits(ws);
    HexSize(ws);
    hide Hex, HexOf, Pow2;
    if i == n {
      HexAt(ws[n], 8, j);
      assert HexOf(ws)[8 * n..][j] == HexOf(ws)[8 * n + j];
    } else {
      WordText(ws[..n], i, j);
      assert HexOf(ws)[..8 * n][8 * i + j] == HexOf(ws)[8 * i + j];
    }
  }

  lemma {:induction false} HexAt(n: nat, k: nat, j: nat)
    requires j < k
    ensures DigitIs(Hex(n, k)[j], n / Pow2(4 * (k - 1 - j)) % 16)
    decreases k
  {
    if j == k - 1 {
      assert Pow2(0) == 1;
      assert Hex(n, k)[j] == HexDigit(n % 16);
    } else {
      var e := 4 * (k - 1 - j);
      HexAt(n / 16, k - 1, j);
      assert Hex(n, k)[j] == Hex(n / 16, k - 1)[j];
      hide Hex, Pow2;
      FourBits(n, e);
    }
  }

  lemma FourBits(n: nat, e: nat)
    requires e >= 4
    ensures n / Pow2(e) == n / 16 / Pow2(e - 4)
  {
    HalveFirst(n, e);
    HalveFirst(n / 2, e - 1);
    HalveFirst(n / 2 / 2, e - 2);
    HalveFirst(n / 2 / 2 / 2, e - 3);
    hide Pow2;
    assert n / 2 / 2 / 2 / 2 == n / 16;
  }

  // ---- constants ----

  /** `k` is the first 32 bits of the fraction of the cube root of `p`, whose whole part is `a`. */
  predicate CubeRoot(p: nat, a: nat, k: Word) {
    var x := a * 0x1_0000_0000 + k as int;
    x * x * x <= p * 0x1_0000_0000 * 0x1_0000_0000 * 0x1_0000_0000 < (x + 1) * (x + 1) * (x + 1)
  }

  predicate SquareRoot(p: nat, a: nat, k: Word) {
    var x := a * 0x1_0000_0000 + k as int;
    x * x <= p * 0x1_0000_0000 * 0x1_0000_0000 < (x + 1) * (x + 1)
  }

  /** The round constants come from the first sixty-four primes, in four groups. */
  lemma ConstantGroups(i: nat)
    requires i < 16
    ensures K()[i] == K0()[i] && K()[16 + i] == K1()[i] && K()[32 + i] == K2()[i] && K()[48 + i] == K3()[i]
  {
    hide K0, K1, K2, K3;
  }

  lemma Primes2To19()
    ensures CubeRoot(2, 1, K0()[0]) && CubeRoot(3, 1, K0()[1]) && CubeRoot(5, 1, K0()[2])
    ensures CubeRoot(7, 1, K0()[3]) && CubeRoot(11, 2, K0()[4]) && CubeRoot(13, 2, K0()[5])
    ensures CubeRoot(17, 2, K0()[6]) && CubeRoot(19, 2, K0()[7])
  {
  }

  lemma Primes23To53()
    ensures CubeRoot(23, 2, K0()[8]) && CubeRoot(29, 3, K0()[9]) && CubeRoot(31, 3, K0()[10])
    ensures CubeRoot(37, 3, K0()[11]) && CubeRoot(41, 3, K0()[12]) && CubeRoot(43, 3, K0()[13])
    ensures CubeRoot(47, 3, K0()[14]) && CubeRoot(53, 3, K0()[15])
  {
  }

  lemma Primes59To89()
    ensures CubeRoot(59, 3, K1()[0]) && CubeRoot(61, 3, K1()[1]) && CubeRoot(67, 4, K1()[2])
    ensures CubeRoot(71, 4, K1()[3]) && CubeRoot(73, 4, K1()[4]) && CubeRoot(79, 4, K1()[5])
    ensures CubeRoot(83, 4, K1()[6]) && CubeRoot(89, 4, K1()[7])
  {
  }

  lemma Primes97To131()
    ensures CubeRoot(97, 4, K1()[8]) && CubeRoot(101, 4, K1()[9]) && CubeRoot(103, 4, K1()[10])
    ensures CubeRoot(107, 4, K1()[11]) && CubeRoot(109, 4, K1()[12]) && CubeRoot(113, 4, K1()[13])
    ensures CubeRoot(127, 5, K1()[14]) && CubeRoot(131, 5, K1()[15])
  {
  }

  lemma Primes137To173()
    ensures CubeRoot(137, 5, K2()[0]) && CubeRoot(139, 5, K2()[1]) && CubeRoot(149, 5, K2()[2])
    ensures CubeRoot(151, 5, K2()[3]) && CubeRoot(157, 5, K2()[4]) && CubeRoot(163, 5, K2()[5])
    ensures CubeRoot(167, 5, K2()[6]) && CubeRoot(173, 5, K2()[7])
  {
  }

  lemma Primes179To223()
    ensures CubeRoot(179, 5, K2()[8]) && CubeRoot(181, 5, K2()[9]) && CubeRoot(191, 5, K2()[10])
    ensures CubeRoot(193, 5, K2()[11]) && CubeRoot(197, 5, K2()[12]) && CubeRoot(199, 5, K2()[13])
    ensures CubeRoot(211, 5, K2()[14]) && CubeRoot(223, 6, K2()[15])
  {
  }

  lemma Primes227To263()
    ensures CubeRoot(227, 6, K3()[0]) && CubeRoot(229, 6, K3()[1]) && CubeRoot(233, 6, K3()[2])
    ensures CubeRoot(239, 6, K3()[3]) && CubeRoot(241, 6, K3()[4]) && CubeRoot(251, 6, K3()[5])
    ensures CubeRoot(257, 6, K3()[6]) && CubeRoot(263, 6, K3()[7])
  {
  }

  lemma Primes269To311()
    ensures CubeRoot(269, 6, K3()[8]) && CubeRoot(271, 6, K3()[9]) && CubeRoot(277, 6, K3()[10])
    ensures CubeRoot(281, 6, K3()[11]) && CubeRoot(283, 6, K3()[12]) && CubeRoot(293, 6, K3()[13])
    ensures CubeRoot(307, 6, K3()[14]) && CubeRoot(311, 6, K3()[15])
  {
  }

  /** The first hash value comes from the first eight primes. */
  lemma StartIs()
    ensures SquareRoot(2, 1, Start().a) && SquareRoot(3, 1, Start().b) && SquareRoot(5, 2, Start().c)
    ensures SquareRoot(7, 2, Start().d) && SquareRoot(11, 3, Start().e) && SquareRoot(13, 3, Start().f)
    ensures SquareRoot(17, 4, Start().g) && SquareRoot(19, 4, Start().h)
  {
  }
}
