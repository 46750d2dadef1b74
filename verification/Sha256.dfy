/** SHA-256 as FIPS 180-4 defines it, and the runtime's loop over JavaScript numbers. */
module Sha256 {
  import opened Basics
  import opened Utf16
  import opened Words

  // ── FIPS 180-4 ──────────────────────────────────────────────────────────

  /** Section 4.2.2. */
  const K: seq<Word> :=
    [0x428a2f98, 0x71374491, 0xb5c0fbcf, 0xe9b5dba5, 0x3956c25b, 0x59f111f1, 0x923f82a4, 0xab1c5ed5] +
    [0xd807aa98, 0x12835b01, 0x243185be, 0x550c7dc3, 0x72be5d74, 0x80deb1fe, 0x9bdc06a7, 0xc19bf174] +
    [0xe49b69c1, 0xefbe4786, 0x0fc19dc6, 0x240ca1cc, 0x2de92c6f, 0x4a7484aa, 0x5cb0a9dc, 0x76f988da] +
    [0x983e5152, 0xa831c66d, 0xb00327c8, 0xbf597fc7, 0xc6e00bf3, 0xd5a79147, 0x06ca6351, 0x14292967] +
    [0x27b70a85, 0x2e1b2138, 0x4d2c6dfc, 0x53380d13, 0x650a7354, 0x766a0abb, 0x81c2c92e, 0x92722c85] +
    [0xa2bfe8a1, 0xa81a664b, 0xc24b8b70, 0xc76c51a3, 0xd192e819, 0xd6990624, 0xf40e3585, 0x106aa070] +
    [0x19a4c116, 0x1e376c08, 0x2748774c, 0x34b0bcb5, 0x391c0cb3, 0x4ed8aa4a, 0x5b9cca4f, 0x682e6ff3] +
    [0x748f82ee, 0x78a5636f, 0x84c87814, 0x8cc70208, 0x90befffa, 0xa4506ceb, 0xbef9a3f7, 0xc67178f2]

  function RoundConstant(t: nat): Word
    requires t < 64
  {
    K[t]
  }

  datatype Vars = Vars(a: Word, b: Word, c: Word, d: Word, e: Word, f: Word, g: Word, h: Word)

  /** Section 5.3.3. */
  const H0 := Vars(0x6a09e667, 0xbb67ae85, 0x3c6ef372, 0xa54ff53a, 0x510e527f, 0x9b05688c, 0x1f83d9ab, 0x5be0cd19)

  // Sections 3.2 and 4.1.2.
  function Rotr(x: Word, n: nat): Word
    requires 0 < n < 32
  {
    DivShrinks(x, Pow2(n));
    Combine(Or, x / Pow2(n), Unsigned(x * Pow2(32 - n)))
  }

  function Shr(x: Word, n: nat): Word
    requires 0 < n < 32
  {
    DivShrinks(x, Pow2(n));
    x / Pow2(n)
  }

  function Xor3(x: Word, y: Word, z: Word): Word { Combine(Xor, Combine(Xor, x, y), z) }

  function Ch(x: Word, y: Word, z: Word): Word { Combine(Xor, Combine(And, x, y), Combine(And, M - 1 - x, z)) }

  function Maj(x: Word, y: Word, z: Word): Word {
    Xor3(Combine(And, x, y), Combine(And, x, z), Combine(And, y, z))
  }

  function BigSigma0(x: Word): Word { Xor3(Rotr(x, 2), Rotr(x, 13), Rotr(x, 22)) }

  function BigSigma1(x: Word): Word { Xor3(Rotr(x, 6), Rotr(x, 11), Rotr(x, 25)) }

  function SmallSigma0(x: Word): Word { Xor3(Rotr(x, 7), Rotr(x, 18), Shr(x, 3)) }

  function SmallSigma1(x: Word): Word { Xor3(Rotr(x, 17), Rotr(x, 19), Shr(x, 10)) }

  function WordCount(m: seq<Byte>): (n: nat)
    ensures n % 16 == 0
  {
    16 * ((|m| + 8) / 64 + 1)
  }

  /** Section 5.1.1, for messages of whole bytes: a one bit, zero bits up to
      448 modulo 512, and the bit length in 64 bits. */
  function Padded(m: seq<Byte>): (p: seq<Byte>)
    requires |m| < 0x2000_0000
    ensures |p| == 4 * WordCount(m)
  {
    m + [0x80] + Zeros(63 - (|m| + 8) % 64) + LengthBytes(8 * |m|)
  }

  function Zeros(n: nat): (s: seq<Byte>)
    ensures |s| == n && forall i | 0 <= i < n :: s[i] == 0
  {
    seq(n, _ => 0)
  }

  function LengthBytes(bits: Word): (s: seq<Byte>)
    ensures |s| == 8
  {
    [0, 0, 0, 0, bits / 0x100_0000, bits / 0x1_0000 % 0x100, bits / 0x100 % 0x100, bits % 0x100]
  }

  function BigEndian(b0: Byte, b1: Byte, b2: Byte, b3: Byte): Word {
    b0 * 0x100_0000 + b1 * 0x1_0000 + b2 * 0x100 + b3
  }

  /** The `k`-th 32-bit word of a byte string (section 5.2.1). */
  function WordAt(p: seq<Byte>, k: nat): Word
    requires 4 * k + 4 <= |p|
  {
    BigEndian(p[4 * k], p[4 * k + 1], p[4 * k + 2], p[4 * k + 3])
  }

  /** Step 1 of section 6.2.2; the block is the 16 words from word `j` of `p`. */
  function Schedule(p: seq<Byte>, j: nat, t: nat): Word
    requires 4 * j + 64 <= |p|
  {
    if t < 16 then WordAt(p, j + t)
    else Unsigned(SmallSigma1(Schedule(p, j, t - 2)) + Schedule(p, j, t - 7)
                  + SmallSigma0(Schedule(p, j, t - 15)) + Schedule(p, j, t - 16))
  }

  /** Step 3. */
  function Round(v: Vars, k: Word, w: Word): Vars {
    Mix(v, BigSigma1(v.e), Ch(v.e, v.f, v.g), BigSigma0(v.a), Maj(v.a, v.b, v.c), k, w)
  }

  function Mix(v: Vars, s1: Word, ch: Word, s0: Word, maj: Word, k: Word, w: Word): Vars {
    var t1 := Unsigned(v.h + s1 + ch + k + w);
    var t2 := Unsigned(s0 + maj);
    Vars(Unsigned(t1 + t2), v.a, v.b, v.c, Unsigned(v.d + t1), v.e, v.f, v.g)
  }

  function Rounds(p: seq<Byte>, j: nat, v: Vars, t: nat): Vars
    requires 4 * j + 64 <= |p| && t <= 64
  {
    if t == 0 then v else Round(Rounds(p, j, v, t - 1), RoundConstant(t - 1), Schedule(p, j, t - 1))
  }

  /** Step 4. */
  function Plus(x: Vars, y: Vars): Vars {
    Vars(Unsigned(x.a + y.a), Unsigned(x.b + y.b), Unsigned(x.c + y.c), Unsigned(x.d + y.d),
         Unsigned(x.e + y.e), Unsigned(x.f + y.f), Unsigned(x.g + y.g), Unsigned(x.h + y.h))
  }

  /** The hash value after the blocks before word `j`. */
  function Hash(p: seq<Byte>, j: nat): Vars
    requires 4 * j <= |p| && j % 16 == 0
  {
    if j == 0 then H0 else var before := Hash(p, j - 16); Plus(before, Rounds(p, j - 16, before, 64))
  }

  function Nibble(n: int): char
    requires 0 <= n < 16
  {
    "0123456789abcdef"[n]
  }

  /** The last `n` hex digits of `w`. */
  function Hex(w: nat, n: nat): (s: string)
    ensures |s| == n
  {
    if n == 0 then "" else Hex(w / 16, n - 1) + [Nibble(w % 16)]
  }

  /** The 256-bit digest, in hex. */
  function Sha256(m: seq<Byte>): (s: string)
    requires |m| < 0x2000_0000
    ensures |s| == 64
  {
    var v := Hash(Padded(m), WordCount(m));
    Hex(v.a, 8) + Hex(v.b, 8) + Hex(v.c, 8) + Hex(v.d, 8) + Hex(v.e, 8) + Hex(v.f, 8) + Hex(v.g, 8) + Hex(v.h, 8)
  }

  // ── The runtime's form, on JavaScript numbers ───────────────────────────

  /** Numbers of this size add without rounding in a double. */
  predicate Exact(x: int) { -0x20_0000_0000_0000 < x < 0x20_0000_0000_0000 }

  predicate Int33(x: int) { -0x8000_0000 <= x < M }

  function JsRotr(x: int, n: nat): (r: int)
    requires 0 < n < 32
    ensures Unsigned(r) == Rotr(Unsigned(x), n) && Int33(r)
  {
    var u := Unsigned(x);
    DivShrinks(u, Pow2(n));
    assert JsUshr(x, n) == u / Pow2(n) == Unsigned(JsUshr(x, n));
    assert Unsigned(JsShl(x, 32 - n)) == Unsigned(u * Pow2(32 - n));
    JsOr(JsUshr(x, n), JsShl(x, 32 - n))
  }

  function JsXor3(x: int, y: int, z: int): (r: int)
    ensures Unsigned(r) == Xor3(Unsigned(x), Unsigned(y), Unsigned(z)) && Int33(r)
  {
    JsXor(JsXor(x, y), z)
  }

  function JsSmallSigma0(x: int): int { JsXor3(JsRotr(x, 7), JsRotr(x, 18), JsUshr(x, 3)) }

  function JsSmallSigma1(x: int): int { JsXor3(JsRotr(x, 17), JsRotr(x, 19), JsUshr(x, 10)) }

  function JsBigSigma0(x: int): int { JsXor3(JsRotr(x, 2), JsRotr(x, 13), JsRotr(x, 22)) }

  function JsBigSigma1(x: int): int { JsXor3(JsRotr(x, 6), JsRotr(x, 11), JsRotr(x, 25)) }

  function JsCh(x: int, y: int, z: int): int { JsXor(JsAnd(x, y), JsAnd(JsNot(x), z)) }

  function JsMaj(x: int, y: int, z: int): int { JsXor3(JsAnd(x, y), JsAnd(x, z), JsAnd(y, z)) }

  lemma ShrAgrees(x: int, n: nat)
    requires 0 < n < 32
    ensures Unsigned(JsUshr(x, n)) == Shr(Unsigned(x), n)
  {
    hide Pow2;
  }

  lemma SigmasAgree(x: int)
    ensures Unsigned(JsSmallSigma0(x)) == SmallSigma0(Unsigned(x)) && Int33(JsSmallSigma0(x))
    ensures Unsigned(JsSmallSigma1(x)) == SmallSigma1(Unsigned(x)) && Int33(JsSmallSigma1(x))
    ensures Unsigned(JsBigSigma0(x)) == BigSigma0(Unsigned(x)) && Int33(JsBigSigma0(x))
    ensures Unsigned(JsBigSigma1(x)) == BigSigma1(Unsigned(x)) && Int33(JsBigSigma1(x))
  {
    hide Rotr, Shr, JsRotr, JsUshr, Xor3, JsXor3, Unsigned;
    ShrAgrees(x, 3);
    ShrAgrees(x, 10);
  }

  lemma ChoicesAgree(x: int, y: int, z: int)
    ensures Unsigned(JsCh(x, y, z)) == Ch(Unsigned(x), Unsigned(y), Unsigned(z)) && Int33(JsCh(x, y, z))
    ensures Unsigned(JsMaj(x, y, z)) == Maj(Unsigned(x), Unsigned(y), Unsigned(z)) && Int33(JsMaj(x, y, z))
  {
    hide Combine, JsAnd, JsXor, JsNot, Unsigned;
  }

  /** `h` holds the eight words, each up to a multiple of 2^32. */
  predicate Same(h: seq<int>, v: Vars) {
    && |h| == 8 && (forall i | 0 <= i < 8 :: Int33(h[i]))
    && Unsigned(h[0]) == v.a && Unsigned(h[1]) == v.b && Unsigned(h[2]) == v.c && Unsigned(h[3]) == v.d
    && Unsigned(h[4]) == v.e && Unsigned(h[5]) == v.f && Unsigned(h[6]) == v.g && Unsigned(h[7]) == v.h
  }

  lemma Sum2(x: int, y: int)
    ensures Unsigned(x + y) == Unsigned(Unsigned(x) + Unsigned(y))
  {}

  lemma Sum5(x1: int, x2: int, x3: int, x4: int, x5: int)
    ensures Unsigned(x1 + x2 + x3 + x4 + x5)
         == Unsigned(Unsigned(x1) + Unsigned(x2) + Unsigned(x3) + Unsigned(x4) + Unsigned(x5))
  {}

  lemma Sum4(x1: int, x2: int, x3: int, x4: int)
    ensures Unsigned(x1 + x2 + x3 + x4) == Unsigned(Unsigned(x1) + Unsigned(x2) + Unsigned(x3) + Unsigned(x4))
  {}

  lemma ScheduleStarts(p: seq<Byte>, j: nat, t: nat)
    requires 4 * j + 64 <= |p| && t < 16
    ensures Schedule(p, j, t) == WordAt(p, j + t)
  {}

  /** The sum `w[t]` is truncated from. */
  lemma ScheduleAgrees(p: seq<Byte>, j: nat, t: nat, w16: int, w15: int, w7: int, w2: int)
    requires 4 * j + 64 <= |p| && 16 <= t
    requires Unsigned(w16) == Schedule(p, j, t - 16) && Unsigned(w15) == Schedule(p, j, t - 15)
    requires Unsigned(w7) == Schedule(p, j, t - 7) && Unsigned(w2) == Schedule(p, j, t - 2)
    ensures Unsigned(w16 + JsSmallSigma0(w15) + w7 + JsSmallSigma1(w2)) == Schedule(p, j, t)
  {
    hide WordAt, SmallSigma0, SmallSigma1, JsSmallSigma0, JsSmallSigma1, Unsigned;
    SigmasAgree(w15);
    SigmasAgree(w2);
    Sum4(w16, JsSmallSigma0(w15), w7, JsSmallSigma1(w2));
  }

  /** The sums of one pass, reduced late or at every step. */
  lemma SumsAgree(h7: int, s1: int, ch: int, k: int, w: int, s0: int, maj: int, d: int)
    ensures var t1 := Unsigned(Unsigned(h7) + Unsigned(s1) + Unsigned(ch) + Unsigned(k) + Unsigned(w));
            var t2 := Unsigned(Unsigned(s0) + Unsigned(maj));
            && Unsigned(h7 + s1 + ch + k + w + (s0 + maj)) == Unsigned(t1 + t2)
            && Unsigned(d + (h7 + s1 + ch + k + w)) == Unsigned(Unsigned(d) + t1)
  {
    Sum5(h7, s1, ch, k, w);
    Sum2(s0, maj);
    Sum2(h7 + s1 + ch + k + w, s0 + maj);
    Sum2(d, h7 + s1 + ch + k + w);
  }

  /** One pass of the inner loop, from unreduced sums to the round of FIPS 180-4. */
  lemma MixAgrees(h: seq<int>, v: Vars, s1: int, ch: int, s0: int, maj: int, k: int, w: int)
    requires Same(h, v)
    requires Int33(s1) && Int33(ch) && Int33(s0) && Int33(maj) && Int33(k) && Int33(w)
    ensures var t1 := h[7] + s1 + ch + k + w;
            var t2 := s0 + maj;
            && Exact(t1) && Exact(t1 + t2) && Exact(h[3] + t1)
            && Same([Signed(t1 + t2), h[0], h[1], h[2], Signed(h[3] + t1), h[4], h[5], h[6]],
                    Mix(v, Unsigned(s1), Unsigned(ch), Unsigned(s0), Unsigned(maj), Unsigned(k), Unsigned(w)))
  {
    hide *;
    SameWords(h, v);
    SumsAgree(h[7], s1, ch, k, w, s0, maj, h[3]);
    SumsAreExact(h[7], s1, ch, k, w, s0, maj, h[3]);
    var t1, t2 := h[7] + s1 + ch + k + w, s0 + maj;
    SignedFits(t1 + t2);
    SignedFits(h[3] + t1);
    var m := Mix(v, Unsigned(s1), Unsigned(ch), Unsigned(s0), Unsigned(maj), Unsigned(k), Unsigned(w));
    MixIs(v, Unsigned(s1), Unsigned(ch), Unsigned(s0), Unsigned(maj), Unsigned(k), Unsigned(w));
    SameOf(Signed(t1 + t2), h[0], h[1], h[2], Signed(h[3] + t1), h[4], h[5], h[6], m);
  }

  lemma SignedFits(x: int)
    ensures Int33(Signed(x)) && Unsigned(Signed(x)) == Unsigned(x)
  {}

  lemma MixIs(v: Vars, s1: Word, ch: Word, s0: Word, maj: Word, k: Word, w: Word)
    ensures var m, t1 := Mix(v, s1, ch, s0, maj, k, w), Unsigned(v.h + s1 + ch + k + w);
            && m.a == Unsigned(t1 + Unsigned(s0 + maj)) && m.e == Unsigned(v.d + t1)
            && m.b == v.a && m.c == v.b && m.d == v.c && m.f == v.e && m.g == v.f && m.h == v.g
  {}

  lemma SameWords(h: seq<int>, v: Vars)
    requires Same(h, v)
    ensures |h| == 8 && Int33(h[0]) && Int33(h[1]) && Int33(h[2]) && Int33(h[3])
    ensures Int33(h[4]) && Int33(h[5]) && Int33(h[6]) && Int33(h[7])
    ensures Unsigned(h[0]) == v.a && Unsigned(h[1]) == v.b && Unsigned(h[2]) == v.c && Unsigned(h[3]) == v.d
    ensures Unsigned(h[4]) == v.e && Unsigned(h[5]) == v.f && Unsigned(h[6]) == v.g && Unsigned(h[7]) == v.h
  {}

  lemma SameOf(a: int, b: int, c: int, d: int, e: int, f: int, g: int, i: int, v: Vars)
    requires Int33(a) && Int33(b) && Int33(c) && Int33(d) && Int33(e) && Int33(f) && Int33(g) && Int33(i)
    requires Unsigned(a) == v.a && Unsigned(b) == v.b && Unsigned(c) == v.c && Unsigned(d) == v.d
    requires Unsigned(e) == v.e && Unsigned(f) == v.f && Unsigned(g) == v.g && Unsigned(i) == v.h
    ensures Same([a, b, c, d, e, f, g, i], v)
  {
    hide Unsigned;
  }

  lemma SumsAreExact(h7: int, s1: int, ch: int, k: int, w: int, s0: int, maj: int, d: int)
    requires Int33(h7) && Int33(s1) && Int33(ch) && Int33(k) && Int33(w) && Int33(s0) && Int33(maj) && Int33(d)
    ensures Exact(h7 + s1 + ch + k + w) && Exact(h7 + s1 + ch + k + w + (s0 + maj)) && Exact(d + (h7 + s1 + ch + k + w))
  {}

  // ── Bytes into words ────────────────────────────────────────────────────

  /** An array element; a hole counts as 0 under `|`. */
  function Read(words: map<int, int>, k: int): int {
    if k in words then words[k] else 0
  }

  /** Byte `x` of `q` if it is among the first `i`. */
  function Placed(q: seq<Byte>, x: nat, i: nat): Byte
    requires i <= |q|
  {
    if x < i then q[x] else 0
  }

  /** Word `k` of the first `i` bytes of `q`, the rest 0. */
  function Filled(q: seq<Byte>, k: nat, i: nat): Word
    requires i <= |q|
  {
    BigEndian(Placed(q, 4 * k, i), Placed(q, 4 * k + 1, i), Placed(q, 4 * k + 2, i), Placed(q, 4 * k + 3, i))
  }

  lemma OrByte(x: int, b: Byte, r: nat, c: nat, m: nat)
    requires r < 4 && c == Pow2(24 - r * 8) && Unsigned(x) == 0x100 * c * m
    ensures Unsigned(JsOr(x, JsShl(b, 24 - r * 8))) == Unsigned(x) + b * c
  {
    hide Pow2, Bitwise;
    var s := 24 - r * 8;
    var y: int := b * c;
    Pow2Values();
    Pow2Eight(s);
    Pow2Grows(s + 8, 32);
    MulLess(b, 0x100, c);
    OrOfDisjoint(Unsigned(x), y, m, s + 8, 32);
    assert Unsigned(JsShl(b, s)) == y;
  }

  lemma MulLess(a: nat, b: nat, p: nat)
    requires a < b && p >= 1
    ensures a * p < b * p
  {}

  lemma Pow2Eight(s: nat)
    ensures Pow2(s + 8) == 256 * Pow2(s)
  {
    assert Pow2(s + 2) == 4 * Pow2(s);
    assert Pow2(s + 4) == 4 * Pow2(s + 2);
    assert Pow2(s + 6) == 4 * Pow2(s + 4);
  }

  lemma PlacedNext(q: seq<Byte>, x: nat, n: nat)
    requires n < |q|
    ensures Placed(q, x, n + 1) == if x == n then q[n] else Placed(q, x, n)
    ensures x >= n ==> Placed(q, x, n) == 0
  {}

  lemma BigEndianTail(b0: Byte, b1: Byte, b2: Byte, b: Byte)
    ensures BigEndian(b, 0, 0, 0) == b * 0x100_0000
    ensures BigEndian(b0, b, 0, 0) == 0x100_0000 * b0 + b * 0x1_0000
    ensures var m: int := b0; BigEndian(b0, b1, b, 0) == 0x1_0000 * (m * 0x100 + b1) + b * 0x100
    ensures var m: int := b0; BigEndian(b0, b1, b2, b) == 0x100 * (m * 0x1_0000 + b1 * 0x100 + b2) + b
  {}

  /** One more byte goes below everything filled so far. */
  lemma FillNext(q: seq<Byte>, k: nat, r: nat, x: int)
    requires r < 4 && 4 * k + r < |q| && Unsigned(x) == Filled(q, k, 4 * k + r)
    ensures Unsigned(JsOr(x, JsShl(q[4 * k + r], 24 - r * 8))) == Filled(q, k, 4 * k + r + 1)
  {
    hide Pow2, Placed, BigEndian, JsOr, JsShl, Unsigned;
    Pow2Values();
    var i := 4 * k;
    var n := i + r;
    PlacedNext(q, i, n);
    PlacedNext(q, i + 1, n);
    PlacedNext(q, i + 2, n);
    PlacedNext(q, i + 3, n);
    var b0: int, b1: int, b2: int := Placed(q, i, n), Placed(q, i + 1, n), Placed(q, i + 2, n);
    BigEndianTail(b0, b1, b2, 0);
    BigEndianTail(b0, b1, b2, q[n]);
    if r == 0 {
      OrByte(x, q[n], r, 0x100_0000, 0);
    } else if r == 1 {
      OrByte(x, q[n], r, 0x1_0000, b0);
    } else if r == 2 {
      OrByte(x, q[n], r, 0x100, b0 * 0x100 + b1);
    } else {
      OrByte(x, q[n], r, 1, b0 * 0x1_0000 + b1 * 0x100 + b2);
    }
  }

  lemma FillOther(q: seq<Byte>, k: nat, i: nat)
    requires i < |q| && k != i / 4
    ensures Filled(q, k, i + 1) == Filled(q, k, i)
  {}

  lemma FilledNone(q: seq<Byte>, k: nat)
    ensures Filled(q, k, 0) == 0
  {}

  lemma LengthWord(bits: Word)
    ensures var s := LengthBytes(bits); BigEndian(s[4], s[5], s[6], s[7]) == bits
  {
    var high: int := bits / 0x1_0000;
    assert bits == high * 0x1_0000 + bits % 0x1_0000;
    assert bits / 0x100_0000 == high / 0x100;
    assert bits / 0x100 % 0x100 == bits % 0x1_0000 / 0x100;
  }

  lemma PaddedByte(m: seq<Byte>, x: nat)
    requires |m| < 0x2000_0000 && x < |Padded(m)|
    ensures var p, q := Padded(m), m + [0x80];
            p[x] == if x + 4 < |p| then Placed(q, x, |q|) else LengthBytes(8 * |m|)[x + 8 - |p|]
  {}

  lemma PaddedWords(m: seq<Byte>, k: nat)
    requires |m| < 0x2000_0000 && 4 * k + 4 <= |Padded(m)|
    ensures WordAt(Padded(m), k)
         == if 4 * k + 4 == |Padded(m)| then 8 * |m| else Filled(m + [0x80], k, |m| + 1)
  {
    hide Padded, LengthBytes, BigEndian;
    var p, q := Padded(m), m + [0x80];
    var i := 4 * k;
    PaddedByte(m, i);
    PaddedByte(m, i + 1);
    PaddedByte(m, i + 2);
    PaddedByte(m, i + 3);
    if i + 4 == |p| {
      LengthWord(8 * |m|);
    } else {
      assert i + 8 <= |p|;
    }
  }

  /** `words[i >> 2] |= b << (24 - (i % 4) * 8)`, for byte `i` of `q`. */
  method PutByte(words: map<int, int>, i: nat, b: Byte, ghost q: seq<Byte>) returns (words': map<int, int>)
    requires i < |q| && q[i] == b
    requires forall k: nat :: Unsigned(Read(words, k)) == Filled(q, k, i)
    ensures forall k: nat :: Unsigned(Read(words', k)) == Filled(q, k, i + 1)
  {
    var at, r := i / 4, i % 4;
    assert i == 4 * at + r;
    var x := Read(words, at);
    var y := JsOr(x, JsShl(b, 24 - r * 8));
    FillNext(q, at, r, x);
    assert Unsigned(y) == Filled(q, at, i + 1);
    words' := words[at := y];
    forall k: nat
      ensures Unsigned(Read(words', k)) == Filled(q, k, i + 1)
    {
      if k != at {
        FillOther(q, k, i);
        assert Read(words', k) == Read(words, k);
      }
    }
  }

  /** The word array of the padded message, and its length. */
  method PackWords(m: seq<Byte>) returns (words: map<int, int>, length: nat)
    requires |m| < 0x2000_0000
    ensures length == WordCount(m)
    ensures forall k: nat | k < length :: Unsigned(Read(words, k)) == WordAt(Padded(m), k)
  {
    hide Filled, WordAt, Padded;
    var l := |m|;
    ghost var q := m + [0x80];
    words := map[];
    forall k: nat
      ensures Filled(q, k, 0) == 0
    {
      FilledNone(q, k);
    }
    var i := 0;
    while i < l
      invariant 0 <= i <= l
      invariant forall k: nat :: Unsigned(Read(words, k)) == Filled(q, k, i)
    {
      words := PutByte(words, i, m[i], q);
      i := i + 1;
    }
    words := PutByte(words, l, 0x80, q);
    var last := (l + 8) / 64 * 16 + 15;
    ghost var marked := words;
    words := words[last := l * 8];
    length := last + 1;
    forall k: nat | k < length
      ensures Unsigned(Read(words, k)) == WordAt(Padded(m), k)
    {
      PaddedWords(m, k);
      assert k != last ==> Read(words, k) == Read(marked, k);
    }
  }

  // ── The main loop ───────────────────────────────────────────────────────

  /** One pass: prepend, add to the fifth, keep eight. */
  method Pass(h: seq<int>, k: int, w: int, ghost v: Vars) returns (h': seq<int>)
    requires Same(h, v) && Int33(k) && Int33(w)
    ensures Same(h', Round(v, Unsigned(k), Unsigned(w)))
  {
    hide JsBigSigma0, JsBigSigma1, JsCh, JsMaj, BigSigma0, BigSigma1, Ch, Maj, Mix, Signed, Unsigned, Exact, Int33,
      Same;
    SameWords(h, v);
    var s1, ch := JsBigSigma1(h[4]), JsCh(h[4], h[5], h[6]);
    var s0, maj := JsBigSigma0(h[0]), JsMaj(h[0], h[1], h[2]);
    SigmasAgree(h[0]);
    SigmasAgree(h[4]);
    ChoicesAgree(h[4], h[5], h[6]);
    ChoicesAgree(h[0], h[1], h[2]);
    MixAgrees(h, v, s1, ch, s0, maj, k, w);
    var t1 := h[7] + s1 + ch + k + w;
    var t2 := s0 + maj;
    h' := [Signed(t1 + t2)] + h;
    h' := h'[4 := Signed(h'[4] + t1)];
    h' := h'[..8];
    Shifted(h, Signed(t1 + t2), Signed(h[3] + t1));
  }

  lemma Shifted(h: seq<int>, x: int, y: int)
    requires |h| == 8
    ensures (([x] + h)[4 := y])[..8] == [x, h[0], h[1], h[2], y, h[4], h[5], h[6]]
  {}

  /** `w[t]` for the next `t`. */
  method NextWord(words: map<int, int>, j: nat, w: seq<int>, ghost p: seq<Byte>) returns (x: int)
    requires |w| < 64 && 4 * j + 64 <= |p|
    requires forall k: nat | j <= k < j + 16 :: Unsigned(Read(words, k)) == WordAt(p, k)
    requires forall i | 0 <= i < |w| :: Unsigned(w[i]) == Schedule(p, j, i) && Int33(w[i])
    ensures Unsigned(x) == Schedule(p, j, |w|) && Int33(x)
  {
    hide Schedule, JsSmallSigma0, JsSmallSigma1, WordAt, Signed, Unsigned;
    var t := |w|;
    if t < 16 {
      ScheduleStarts(p, j, t);
      x := Signed(Read(words, j + t));
    } else {
      ScheduleAgrees(p, j, t, w[t - 16], w[t - 15], w[t - 7], w[t - 2]);
      x := Signed(w[t - 16] + JsSmallSigma0(w[t - 15]) + w[t - 7] + JsSmallSigma1(w[t - 2]));
    }
  }

  /** The 64 passes over the block at word `j`. */
  method Compress(words: map<int, int>, j: nat, H: seq<int>, ghost p: seq<Byte>, ghost v: Vars) returns (h: seq<int>)
    requires Same(H, v) && 4 * j + 64 <= |p|
    requires forall k: nat | j <= k < j + 16 :: Unsigned(Read(words, k)) == WordAt(p, k)
    ensures Same(h, Rounds(p, j, v, 64))
  {
    hide Round, Schedule, RoundConstant;
    var w: seq<int> := [];
    h := H;
    var t := 0;
    while t < 64
      invariant 0 <= t <= 64 && |w| == t
      invariant forall i | 0 <= i < t :: Unsigned(w[i]) == Schedule(p, j, i) && Int33(w[i])
      invariant Same(h, Rounds(p, j, v, t))
    {
      var x := NextWord(words, j, w, p);
      h := Pass(h, Signed(RoundConstant(t)), x, Rounds(p, j, v, t));
      w := w + [x];
      t := t + 1;
    }
  }

  // ── The digest ──────────────────────────────────────────────────────────

  /** `n.toString(16)` */
  function ToHex(n: nat): (s: string)
    ensures |s| >= 1
  {
    if n < 16 then [Nibble(n)] else ToHex(n / 16) + [Nibble(n % 16)]
  }

  function CharZeros(n: nat): (s: string)
    ensures |s| == n && forall i | 0 <= i < n :: s[i] == '0'
  {
    seq(n, _ => '0')
  }

  lemma {:induction false} HexOfZero(n: nat)
    ensures Hex(0, n) == CharZeros(n)
  {
    if n > 0 {
      HexOfZero(n - 1);
    }
  }

  /** Padding the short form on the left gives the fixed-width form. */
  lemma {:induction false} ToHexPads(w: nat, n: nat)
    requires n >= 1 && w < Pow2(4 * n)
    ensures |ToHex(w)| <= n && Hex(w, n) == CharZeros(n - |ToHex(w)|) + ToHex(w)
  {
    hide Nibble;
    if w < 16 {
      HexOfZero(n - 1);
    } else {
      assert Pow2(4 * n - 2) == 4 * Pow2(4 * n - 4);
      assert Pow2(4 * n) == 4 * Pow2(4 * n - 2);
      assert n > 1;
      ToHexPads(w / 16, n - 1);
    }
  }

  /** `('00000000' + (v >>> 0).toString(16)).slice(-8)` */
  function HexWord(v: int): (s: string)
    ensures s == Hex(Unsigned(v), 8)
  {
    HexWordPads(Unsigned(v));
    var s := "00000000" + ToHex(Unsigned(v));
    s[|s| - 8..]
  }

  lemma HexWordPads(w: Word)
    ensures ("00000000" + ToHex(w))[|ToHex(w)|..] == Hex(w, 8)
  {
    hide ToHex, Hex, Pow2;
    Pow2Values();
    ToHexPads(w, 8);
    assert "00000000" == CharZeros(8);
  }

  /** `H[k] = (H[k] + h[k]) | 0` */
  method AddInto(H: seq<int>, h: seq<int>, ghost x: Vars, ghost y: Vars) returns (sum: seq<int>)
    requires Same(H, x) && Same(h, y)
    ensures Same(sum, Plus(x, y))
  {
    hide Signed, Unsigned;
    sum := [];
    var k := 0;
    while k < 8
      invariant 0 <= k <= 8 && |sum| == k
      invariant forall i | 0 <= i < k :: sum[i] == Signed(H[i] + h[i])
    {
      sum := sum + [Signed(H[k] + h[k])];
      k := k + 1;
    }
    forall i | 0 <= i < 8
      ensures Int33(sum[i]) && Unsigned(sum[i]) == Unsigned(Unsigned(H[i]) + Unsigned(h[i]))
    {
      Sum2(H[i], h[i]);
    }
  }

  lemma HashNext(p: seq<Byte>, j: nat)
    requires j % 16 == 0 && 4 * j + 64 <= |p|
    ensures Hash(p, j + 16) == Plus(Hash(p, j), Rounds(p, j, Hash(p, j), 64))
  {
    hide Plus, Rounds;
  }

  /** The hash value before the first block. */
  method Start(ghost p: seq<Byte>) returns (H: seq<int>)
    ensures Same(H, Hash(p, 0))
  {
    H := [1779033703, 3144134277, 1013904242, 2773480762, 1359893119, 2600822924, 528734635, 1541459225];
  }

  /** The loop over the blocks. */
  method HashBlocks(m: seq<Byte>) returns (H: seq<int>)
    requires |m| < 0x2000_0000
    ensures Same(H, Hash(Padded(m), WordCount(m)))
  {
    hide *;
    ghost var p := Padded(m);
    var words, length := PackWords(m);
    H := Start(p);
    var j := 0;
    while j < length
      invariant 0 <= j <= length && j % 16 == 0
      invariant Same(H, Hash(p, j))
    {
      var h := Compress(words, j, H, p, Hash(p, j));
      H := AddInto(H, h, Hash(p, j), Rounds(p, j, Hash(p, j), 64));
      HashNext(p, j);
      j := j + 16;
    }
  }

  /** `sha256Hex`: nothing for a text `encodeURIComponent` throws on, else
      the hex digest of the text's UTF-8 bytes. */
  method Sha256Hex(s: Text) returns (digest: Option<string>)
    requires WellFormed(s) ==> |Utf8(s)| < 0x2000_0000
    ensures digest == if WellFormed(s) then Some(Sha256(Utf8(s))) else None
  {
    if !WellFormed(s) {
      return None;
    }
    hide Hash, Padded, Hex;
    var H := HashBlocks(Utf8(s));
    digest := Some(HexWord(H[0]) + HexWord(H[1]) + HexWord(H[2]) + HexWord(H[3])
                   + HexWord(H[4]) + HexWord(H[5]) + HexWord(H[6]) + HexWord(H[7]));
  }
}
