/** The on-disk cache entry: a packed 16-byte header (magic, version, FNV-1a checksum, length) and the payload. */
module CacheCodec {

  type Byte = x: int | 0 <= x < 256

  type Bytes = seq<Byte>

  /** A cache key; the file name is derived from it. */
  datatype Key = Key(name: string)

  datatype Option<T> = None | Some(value: T)

  const MAGIC: Bytes := [0x55, 0x58, 0x4C, 0x43]  // "UXLC"
  const VERSION: Bytes := [1, 0, 0, 0]
  const HEADER: nat := 16
  const WORD: nat := 0x1_0000_0000
  const FNV_BASIS: nat := 2166136261

  /** Exclusive or of the low `n` bits. */
  function Xor(a: nat, b: nat, n: nat): (r: nat)
    ensures r < Pow2(n)
  {
    if n == 0 then 0 else (a + b) % 2 + 2 * Xor(a / 2, b / 2, n - 1)
  }

  function Pow2(n: nat): (r: nat)
    ensures r > 0
  {
    if n == 0 then 1 else 2 * Pow2(n - 1)
  }

  lemma {:induction false} XorUndone(a: nat, b: nat, n: nat)
    requires a < Pow2(n)
    ensures Xor(Xor(a, b, n), b, n) == a
  {
    if n > 0 {
      XorUndone(a / 2, b / 2, n - 1);
      BitBack(a, b, Xor(a / 2, b / 2, n - 1));
    }
  }

  lemma BitBack(a: nat, b: nat, r: nat)
    ensures ((a + b) % 2 + 2 * r) / 2 == r && ((a + b) % 2 + 2 * r + b) % 2 == a % 2
  {
  }

  lemma {:induction false} XorCommutes(a: nat, b: nat, n: nat)
    ensures Xor(a, b, n) == Xor(b, a, n)
  {
    if n > 0 { XorCommutes(a / 2, b / 2, n - 1); }
  }

  lemma ByteSize()
    ensures Pow2(8) == 256
  {
    assert Pow2(4) == 16;
  }

  /** Exclusive or of a 32-bit word with a byte: only the low byte changes. */
  function XorByte(h: nat, b: Byte): nat { h - h % 256 + Xor(h % 256, b, 8) }

  /** Multiplication by the FNV prime in 32-bit arithmetic. */
  function MulPrime(x: nat): nat { x * 16777619 % WORD }

  function FnvStep(h: nat, b: Byte): nat { MulPrime(XorByte(h, b)) }

  function Fnv(h: nat, d: Bytes): (r: nat)
    requires h < WORD
    ensures r < WORD
  {
    if d == [] then h else FnvStep(Fnv(h, d[..|d| - 1]), d[|d| - 1])
  }

  /** The loop of `fnv1a32`. */
  method Fnv1a32(d: Bytes) returns (h: nat)
    ensures h == Fnv(FNV_BASIS, d)
  {
    h := FNV_BASIS;
    for i := 0 to |d|
      invariant h == Fnv(FNV_BASIS, d[..i])
    {
      assert d[..i + 1][..i] == d[..i];
      h := FnvStep(h, d[i]);
    }
    assert d[..|d|] == d;
  }

  /** The FNV prime is odd, so multiplying by its inverse modulo 2^32 undoes it. */
  lemma MulUndone(x: nat)
    requires x < WORD
    ensures MulPrime(x) * 899433627 % WORD == x
  {
    var z, j := MulPrime(x), x * 16777619 / WORD;
    assert x * 16777619 == z + WORD * j;
    // the two constants multiply to 1 + 3513497 * 2^32
    assert z * 899433627 == x + WORD * (3513497 * x - 899433627 * j);
    ModOf(z * 899433627, 3513497 * x - 899433627 * j, x);
  }

  lemma ModOf(n: int, q: int, r: int)
    requires n == r + WORD * q && 0 <= r < WORD
    ensures n % WORD == r
  {
  }

  lemma XorByteParts(h: nat, b: Byte)
    requires h < WORD
    ensures XorByte(h, b) < WORD && XorByte(h, b) / 256 == h / 256 && XorByte(h, b) % 256 == Xor(h % 256, b, 8)
  {
    ByteSize();
    WordSplit(h, Xor(h % 256, b, 8));
  }

  lemma WordSplit(h: nat, r: nat)
    requires r < 256 && h < WORD
    ensures (h - h % 256 + r) / 256 == h / 256 && (h - h % 256 + r) % 256 == r && h - h % 256 + r < WORD
  {
    assert h - h % 256 == 256 * (h / 256);
    SplitWord(h / 256, r);
  }

  lemma SplitWord(q: nat, r: nat)
    requires r < 256
    ensures (256 * q + r) / 256 == q && (256 * q + r) % 256 == r
  {
  }

  /** One step loses nothing of either argument. */
  lemma FnvStepInjective(h: nat, h': nat, b: Byte, b': Byte)
    requires h < WORD && h' < WORD
    ensures h != h' ==> FnvStep(h, b) != FnvStep(h', b)
    ensures b != b' ==> FnvStep(h, b) != FnvStep(h, b')
  {
    hide MulPrime, XorByte;
    XorByteParts(h, b);
    XorByteParts(h', b);
    XorByteParts(h, b');
    XorByteKeepsWord(h, h', b);
    XorByteKeepsByte(h, b, b');
    MulUndone(XorByte(h, b));
    MulUndone(XorByte(h', b));
    MulUndone(XorByte(h, b'));
  }

  lemma XorByteKeepsWord(h: nat, h': nat, b: Byte)
    requires h < WORD && h' < WORD
    ensures h != h' ==> XorByte(h, b) != XorByte(h', b)
  {
    hide XorByte, Xor;
    XorByteParts(h, b);
    XorByteParts(h', b);
    ByteSize();
    XorUndone(h % 256, b, 8);
    XorUndone(h' % 256, b, 8);
    if h % 256 == h' % 256 && h / 256 == h' / 256 { WordParts(h, h'); }
  }

  lemma WordParts(h: nat, h': nat)
    requires h % 256 == h' % 256 && h / 256 == h' / 256
    ensures h == h'
  {
  }

  lemma XorByteKeepsByte(h: nat, b: Byte, b': Byte)
    requires h < WORD
    ensures b != b' ==> XorByte(h, b) != XorByte(h, b')
  {
    hide XorByte, Xor;
    XorByteParts(h, b);
    XorByteParts(h, b');
    ByteSize();
    XorCommutes(h % 256, b, 8);
    XorCommutes(h % 256, b', 8);
    XorUndone(b, h % 256, 8);
    XorUndone(b', h % 256, 8);
  }

  /** Bit `i` of an exclusive or: exactly one of the two bits is set. */
  lemma {:induction false} XorBits(a: nat, b: nat, n: nat, i: nat)
    requires i < n
    ensures Xor(a, b, n) / Pow2(i) % 2 == (a / Pow2(i) % 2 + b / Pow2(i) % 2) % 2
  {
    XorHalves(a, b, n);
    if i > 0 {
      XorBits(a / 2, b / 2, n - 1, i - 1);
      HalveFirst(a, i);
      HalveFirst(b, i);
      HalveFirst(Xor(a, b, n), i);
    } else {
      LowBits(a, b, Xor(a, b, n));
    }
    hide Xor;
  }

  lemma XorHalves(a: nat, b: nat, n: nat)
    requires n > 0
    ensures Xor(a, b, n) / 2 == Xor(a / 2, b / 2, n - 1) && Xor(a, b, n) % 2 == (a + b) % 2
  {
    BitBack(a, b, Xor(a / 2, b / 2, n - 1));
  }

  lemma LowBits(a: nat, b: nat, x: nat)
    requires x % 2 == (a + b) % 2
    ensures x / Pow2(0) % 2 == (a / Pow2(0) % 2 + b / Pow2(0) % 2) % 2
  {
    assert Pow2(0) == 1;
  }

  lemma HalveFirst(a: nat, i: nat)
    requires i > 0
    ensures a / Pow2(i) == a / 2 / Pow2(i - 1)
  {
    var d := Pow2(i - 1);
    assert a / 2 == a / 2 / d * d + a / 2 % d;
    Quotient(a, a / 2 / d, 2 * d, 2 * (a / 2 % d) + a % 2);
  }

  lemma Quotient(n: int, q: int, d: int, r: int)
    requires d > 0 && n == q * d + r && 0 <= r < d
    ensures n / d == q
  {
    assert n == n / d * d + n % d;
    Apart(n / d, q, d);
    Apart(q, n / d, d);
  }

  lemma Apart(x: int, y: int, d: int)
    requires d > 0
    ensures x > y ==> x * d >= y * d + d
  {
    assert (x - y - 1) * d == x * d - y * d - d;
    if x > y { NonNegative(x - y - 1, d); }
  }

  lemma NonNegative(a: nat, b: nat)
    ensures a * b >= 0
  {
  }

  /** Appending a byte: first the exclusive or into the low byte, then the multiplication. */
  lemma FnvAppends(d: Bytes, b: Byte)
    ensures var h := Fnv(FNV_BASIS, d);
            Fnv(FNV_BASIS, d + [b]) == (h - h % 256 + Xor(h % 256, b, 8)) * 16777619 % 0x1_0000_0000
  {
    assert (d + [b])[..|d|] == d;
  }

  /** Published values of FNV-1a-32: of the empty text and of "a". */
  lemma KnownChecksums()
    ensures Fnv(FNV_BASIS, []) == 0x811c9dc5 && Fnv(FNV_BASIS, [0x61]) == 0xe40c292c
  {
    hide Xor, Fnv, FnvStep;
    NoBytes();
    KnownXor();
    KnownStep([], 0x61, 0x811c9dc5, 0xa4, 8461672, 0xe40c292c);
    assert [] + [0x61] == [0x61];
  }

  lemma KnownXor()
    ensures Xor(0xc5, 0x61, 8) == 0xa4
  {
    assert Xor(1, 0, 1) == 1;
    assert Xor(3, 1, 2) == 2;
    assert Xor(6, 3, 3) == 5;
    assert Xor(12, 6, 4) == 10;
    assert Xor(24, 12, 5) == 20;
    assert Xor(49, 24, 6) == 41;
    assert Xor(98, 48, 7) == 82;
  }

  lemma NoBytes()
    ensures Fnv(FNV_BASIS, []) == 0x811c9dc5
  {
  }

  /** One step of a known checksum, with the quotient of the product. */
  lemma KnownStep(d: Bytes, b: Byte, h: nat, low: nat, q: nat, h': nat)
    requires Fnv(FNV_BASIS, d) == h && Xor(h % 256, b, 8) == low
    requires (h - h % 256 + low) * 16777619 == q * WORD + h' && h' < WORD
    ensures Fnv(FNV_BASIS, d + [b]) == h'
  {
    assert (d + [b])[..|d|] == d;
    ModOf((h - h % 256 + low) * 16777619, q, h');
  }

  /** Payloads of one length that differ in exactly one byte have different checksums. */
  lemma {:induction false} FnvDetectsByte(d: Bytes, i: nat, b: Byte)
    requires i < |d| && b != d[i]
    ensures Fnv(FNV_BASIS, d[i := b]) != Fnv(FNV_BASIS, d)
    decreases |d|
  {
    var n := |d| - 1;
    var d' := d[i := b];
    if i == n {
      assert d'[..n] == d[..n];
      FnvStepInjective(Fnv(FNV_BASIS, d[..n]), 0, d[n], b);
    } else {
      assert d'[..n] == d[..n][i := b];
      FnvDetectsByte(d[..n], i, b);
      FnvStepInjective(Fnv(FNV_BASIS, d[..n]), Fnv(FNV_BASIS, d'[..n]), d[n], 0);
    }
  }

  // ---- the entry ----

  /** A 32-bit field, least significant byte first; wider values are truncated. */
  function WordBytes(n: nat): (b: Bytes)
    ensures |b| == 4
  {
    var n1 := n / 256; var n2 := n1 / 256; var n3 := n2 / 256;
    [n % 256, n1 % 256, n2 % 256, n3 % 256]
  }

  function WordOf(b: Bytes): nat
    requires |b| == 4
  {
    var b0: int, b1: int, b2: int, b3: int := b[0], b[1], b[2], b[3];
    b0 + 256 * b1 + 65536 * b2 + 16777216 * b3
  }

  lemma WordRoundTrip(n: nat)
    ensures WordOf(WordBytes(n)) == n % WORD
  {
    var n1 := n / 256; var n2 := n1 / 256; var n3 := n2 / 256;
    Digits(n, n1, n2, n3, n3 / 256);
  }

  lemma Digits(n: nat, n1: nat, n2: nat, n3: nat, n4: nat)
    requires n1 == n / 256 && n2 == n1 / 256 && n3 == n2 / 256 && n4 == n3 / 256
    ensures n % 256 + 256 * (n1 % 256) + 65536 * (n2 % 256) + 16777216 * (n3 % 256) == n % WORD
  {
    var r := n % 256 + 256 * (n1 % 256) + 65536 * (n2 % 256) + 16777216 * (n3 % 256);
    assert n == r + WORD * n4 && 0 <= r < WORD;
    ModOf(n, n4, r);
  }

  function Encode(payload: Bytes): Bytes {
    MAGIC + VERSION + WordBytes(Fnv(FNV_BASIS, payload)) + WordBytes(|payload|) + payload
  }

  /** What `get` makes of a file: a miss unless magic, version, length and checksum all hold. */
  function Decode(file: Bytes): Option<Bytes> {
    if |file| < HEADER then None
    else if file[..4] != MAGIC || file[4..8] != VERSION then None
    else
      var n := WordOf(file[12..16]);
      if |file| < HEADER + n then None
      else
        var payload := file[HEADER..HEADER + n];
        if WordBytes(Fnv(FNV_BASIS, payload)) != file[8..12] then None else Some(payload)
  }

  /** Where the fields of an encoded entry lie. */
  lemma Layout(b: Bytes)
    ensures var f := Encode(b);
            && |f| == HEADER + |b| && f[..4] == MAGIC && f[4..8] == VERSION
            && f[8..12] == WordBytes(Fnv(FNV_BASIS, b)) && f[12..16] == WordBytes(|b|) && f[HEADER..] == b
  {
  }

  lemma WordBytesInjective(v: nat, w: nat)
    requires v < WORD && w < WORD && WordBytes(v) == WordBytes(w)
    ensures v == w
  {
    WordRoundTrip(v);
    WordRoundTrip(w);
    hide WordOf, WordBytes;
    ModOf(v, 0, v);
    ModOf(w, 0, w);
  }

  /** The little-endian number in the four bytes from `at` on. */
  function FieldAt(f: Bytes, at: nat): (n: nat)
    requires at + 4 <= |f|
    ensures n == f[at] as int + 0x100 * f[at + 1] as int + 0x10000 * f[at + 2] as int + 0x1000000 * f[at + 3] as int
  {
    WordOf(f[at..at + 4])
  }

  /** The entry, byte by byte: magic "UXLC", version 1, checksum, length, payload. */
  lemma EntryBytes(b: Bytes)
    ensures var f := Encode(b);
            && |f| == 16 + |b| && f[..8] == [0x55, 0x58, 0x4C, 0x43, 1, 0, 0, 0] && f[16..] == b
            && FieldAt(f, 8) == Fnv(2166136261, b) && FieldAt(f, 12) == |b| % 0x1_0000_0000
  {
    Layout(b);
    var f := Encode(b);
    assert f[..8] == f[..4] + f[4..8];
    WordRoundTrip(Fnv(FNV_BASIS, b));
    WordRoundTrip(|b|);
    ModOf(Fnv(FNV_BASIS, b), 0, Fnv(FNV_BASIS, b));
    hide Encode, Fnv, WordBytes, WordOf;
    assert f[8..8 + 4] == f[8..12] && f[12..12 + 4] == f[12..16];
  }

  /** A file decodes to a payload exactly if it begins with the payload's entry; what follows is ignored. */
  lemma DecodeIff(file: Bytes, b: Bytes)
    requires |b| < WORD
    ensures Decode(file) == Some(b) <==> Encode(b) <= file
  {
    Layout(b);
    WordRoundTrip(|b|);
    ModOf(|b|, 0, |b|);
    if Decode(file) == Some(b) {
      WordOfBack(file[12..16]);
      hide Fnv, WordOf, WordBytes, Decode;
      assert file[..HEADER + |b|] == file[..4] + file[4..8] + file[8..12] + file[12..16] + file[HEADER..HEADER + |b|];
    }
    if Encode(b) <= file {
      hide Encode, Fnv, WordOf, WordBytes, Decode;
      PrefixDecodes(file, b);
    }
  }

  lemma PrefixDecodes(file: Bytes, b: Bytes)
    requires |b| < WORD && Encode(b) <= file
    ensures Decode(file) == Some(b)
  {
    Layout(b);
    WordRoundTrip(|b|);
    ModOf(|b|, 0, |b|);
    hide Encode, Fnv, WordOf, WordBytes;
    var f := Encode(b);
    assert file[..4] == f[..4] && file[4..8] == f[4..8] && file[8..12] == f[8..12] && file[12..16] == f[12..16];
    assert file[HEADER..HEADER + |b|] == f[HEADER..];
  }

  lemma WordOfBack(w: Bytes)
    requires |w| == 4
    ensures WordBytes(WordOf(w)) == w
  {
    var w0: int, w1: int, w2: int, w3: int := w[0], w[1], w[2], w[3];
    var n := w0 + 256 * w1 + 65536 * w2 + 16777216 * w3;
    Digit(n, w1 + 256 * w2 + 65536 * w3, w0);
    Digit(w1 + 256 * w2 + 65536 * w3, w2 + 256 * w3, w1);
    Digit(w2 + 256 * w3, w3, w2);
    Digit(w3, 0, w3);
  }

  lemma Digit(n: int, q: int, r: int)
    requires n == 256 * q + r && 0 <= r < 256
    ensures n / 256 == q && n % 256 == r
  {
  }

  /** An entry reads back as written exactly when its length fits the header field. */
  lemma RoundTripIff(b: Bytes)
    ensures Decode(Encode(b)) == Some(b) <==> |b| < WORD
  {
    Layout(b);
    WordRoundTrip(|b|);
    hide Encode, Fnv, WordOf, WordBytes;
    var f := Encode(b);
    if |b| < WORD {
      ModOf(|b|, 0, |b|);
      assert f[HEADER..HEADER + |b|] == b;
    } else {
      var n := |b| % WORD;
      assert |f[HEADER..HEADER + n]| == n;
    }
  }

  /** A torn write is a miss. */
  lemma StrictPrefixMisses(b: Bytes, k: nat)
    requires |b| < WORD && k < |Encode(b)|
    ensures Decode(Encode(b)[..k]) == None
  {
    Layout(b);
    WordRoundTrip(|b|);
    ModOf(|b|, 0, |b|);
    hide Encode, Fnv, WordOf, WordBytes;
    var f := Encode(b);
    if k >= HEADER { assert f[..k][12..16] == f[12..16]; }
  }

  /** Changing any one byte outside the length field is a miss. */
  lemma ByteChangeMisses(b: Bytes, i: nat, c: Byte)
    requires |b| < WORD && i < |Encode(b)| && c != Encode(b)[i] && !(12 <= i < 16)
    ensures Decode(Encode(b)[i := c]) == None
  {
    Layout(b);
    WordRoundTrip(|b|);
    ModOf(|b|, 0, |b|);
    hide Encode, Fnv, WordOf, WordBytes;
    var f := Encode(b);
    var g := f[i := c];
    if i < 4 {
      assert g[..4][i] != f[..4][i];
    } else if i < 8 {
      assert g[4..8][i - 4] != f[4..8][i - 4];
    } else if i < 12 {
      assert g[8..12][i - 8] != f[8..12][i - 8];
      assert g[12..16] == f[12..16] && g[HEADER..HEADER + |b|] == b;
    } else {
      PayloadChangeMisses(b, i - HEADER, c, f, g);
    }
  }

  lemma PayloadChangeMisses(b: Bytes, i: nat, c: Byte, f: Bytes, g: Bytes)
    requires |b| < WORD && i < |b| && f == Encode(b) && g == f[HEADER + i := c] && c != f[HEADER + i]
    ensures Decode(g) == None
  {
    Layout(b);
    WordRoundTrip(|b|);
    ModOf(|b|, 0, |b|);
    hide Encode, Fnv, WordOf, WordBytes;
    hide Decode;
    var b' := b[i := c];
    assert f[HEADER + i] == f[HEADER..][i];
    ChecksumMoves(b, i, c);
    FieldsKept(f, g, HEADER + i, c);
    assert g[HEADER..HEADER + |b|] == b';
    WrongChecksumMisses(g, b');
  }

  lemma ChecksumMoves(b: Bytes, i: nat, c: Byte)
    requires i < |b| && c != b[i]
    ensures WordBytes(Fnv(FNV_BASIS, b[i := c])) != WordBytes(Fnv(FNV_BASIS, b))
  {
    hide Fnv, WordBytes;
    FnvDetectsByte(b, i, c);
    if WordBytes(Fnv(FNV_BASIS, b[i := c])) == WordBytes(Fnv(FNV_BASIS, b)) {
      WordBytesInjective(Fnv(FNV_BASIS, b[i := c]), Fnv(FNV_BASIS, b));
    }
  }

  lemma FieldsKept(f: Bytes, g: Bytes, i: nat, c: Byte)
    requires HEADER <= i < |f| && g == f[i := c]
    ensures g[8..12] == f[8..12] && g[12..16] == f[12..16]
  {
  }

  lemma WrongChecksumMisses(g: Bytes, b: Bytes)
    requires |g| >= HEADER + |b| && WordOf(g[12..16]) == |b| && g[HEADER..HEADER + |b|] == b
    requires WordBytes(Fnv(FNV_BASIS, b)) != g[8..12]
    ensures Decode(g) == None
  {
    hide Fnv, WordOf, WordBytes;
  }

  /** The disk store: one file per key, replaced atomically. */
  class CacheStore {
    var files: map<Key, Bytes>

    constructor ()
      ensures files == map[]
    {
      files := map[];
    }

    ghost function Lookup(key: Key): Option<Bytes>
      reads this
    {
      if key in files then Decode(files[key]) else None
    }

    method Get(key: Key) returns (r: Option<Bytes>)
      ensures r == Lookup(key)
    {
      if key !in files { return None; }
      var f := files[key];
      if |f| < HEADER { return None; }
      if f[..4] != MAGIC || f[4..8] != VERSION { return None; }
      var n := WordOf(f[12..16]);
      if |f| < HEADER + n { return None; }
      var bin := f[HEADER..HEADER + n];
      var crc := Fnv1a32(bin);
      if WordBytes(crc) != f[8..12] { return None; }
      return Some(bin);
    }

    /** A later lookup finds the payload, provided its length fits the header. */
    method Put(key: Key, bin: Bytes)
      modifies this
      ensures files == old(files)[key := Encode(bin)]
      ensures Lookup(key) == Some(bin) <==> |bin| < WORD
      ensures forall k :: k != key ==> Lookup(k) == old(Lookup(k))
    {
      RoundTripIff(bin);
      var crc := Fnv1a32(bin);
      var header := MAGIC + VERSION + WordBytes(crc) + WordBytes(|bin|);
      files := files[key := header + bin];
    }
  }
}
