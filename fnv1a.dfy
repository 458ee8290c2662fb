/**
 * The default hash adapter of packages/core/src/adapters.ts: 32-bit FNV-1a over the
 * UTF-16 code units of a string, rendered with `toString(16)`.
 *
 * The running hash is a natural number below 2^32. JavaScript's `h ^= c` works on the
 * 32-bit pattern of `h`, and `Math.imul(h, 16777619) >>> 0` keeps the low 32 bits of the
 * product as an unsigned number, so one iteration is exactly
 * `(Xor(h, c) * 16777619) % 2^32` on naturals.
 */
module Fnv1a {

  /** One UTF-16 code unit, the value `charCodeAt` returns. */
  type CodeUnit = x: int | 0 <= x < 0x1_0000

  /** A 32-bit unsigned value, the range `>>> 0` produces. */
  type Word = x: int | 0 <= x < 0x1_0000_0000

  /** The FNV-1a 32-bit offset basis, 2166136261. */
  const OFFSET_BASIS: Word := 0x811C_9DC5
  /** The FNV 32-bit prime, 16777619. */
  const PRIME: nat := 0x0100_0193

  // ---------------------------------------------------------------------------
  // Strings as UTF-16
  // ---------------------------------------------------------------------------

  /** The UTF-16 encoding of one Unicode scalar value: one unit, or a surrogate pair. */
  function Utf16(c: char): (units: seq<CodeUnit>)
    ensures |units| == if c as int < 0x1_0000 then 1 else 2
    ensures c as int < 0x1_0000 ==> units[0] == c as int
  {
    var v := c as int;
    if v < 0x1_0000 then [v]
    else
      var w := v - 0x1_0000;
      [0xD800 + w / 0x400, 0xDC00 + w % 0x400]
  }

  /** The code units a JavaScript string holds for `s`: what `charCodeAt(i)` yields for `i < length`. */
  function CodeUnits(s: string): (units: seq<CodeUnit>)
    ensures |units| >= |s|
    ensures (forall i :: 0 <= i < |s| ==> s[i] as int < 0x1_0000) ==>
              |units| == |s| && forall i :: 0 <= i < |s| ==> units[i] == s[i] as int
  {
    if s == [] then [] else Utf16(s[0]) + CodeUnits(s[1..])
  }

  // ---------------------------------------------------------------------------
  // Bitwise xor on naturals
  // ---------------------------------------------------------------------------

  function Pow2(k: nat): (p: nat)
    ensures p >= 1
  {
    if k == 0 then 1 else 2 * Pow2(k - 1)
  }

  /** Bitwise exclusive or of two naturals, lowest bit first. */
  function Xor(a: nat, b: nat): nat
    decreases a + b
  {
    if a == 0 && b == 0 then 0 else 2 * Xor(a / 2, b / 2) + (a + b) % 2
  }

  lemma XorHalves(a: nat, b: nat)
    ensures Xor(a, b) / 2 == Xor(a / 2, b / 2)
    ensures Xor(a, b) % 2 == (a + b) % 2
  {
  }

  /** Xor with `c` undoes itself. */
  lemma {:induction false} XorCancel(a: nat, c: nat)
    ensures Xor(Xor(a, c), c) == a
    decreases a + c
  {
    if a != 0 || c != 0 {
      var x := Xor(a, c);
      XorHalves(a, c);
      XorCancel(a / 2, c / 2);
      XorHalves(x, c);
      assert x / 2 == Xor(a / 2, c / 2);
      assert Xor(x, c) / 2 == a / 2;
      ParityCancel(a, c, x);
      HalvesDetermine(Xor(x, c), a);
    }
  }

  lemma ParityCancel(a: nat, c: nat, x: nat)
    requires x % 2 == (a + c) % 2
    ensures (x + c) % 2 == a % 2
  {
  }

  /** A number is its half and its lowest bit. */
  lemma HalvesDetermine(m: nat, n: nat)
    requires m / 2 == n / 2 && m % 2 == n % 2
    ensures m == n
  {
    assert m == 2 * (m / 2) + m % 2;
    assert n == 2 * (n / 2) + n % 2;
  }

  lemma {:induction false} XorCommutes(a: nat, b: nat)
    ensures Xor(a, b) == Xor(b, a)
    decreases a + b
  {
    if a != 0 || b != 0 {
      XorCommutes(a / 2, b / 2);
    }
  }

  /** Xor never sets a bit above the widest operand. */
  lemma {:induction false} XorBelow(a: nat, b: nat, k: nat)
    requires a < Pow2(k) && b < Pow2(k)
    ensures Xor(a, b) < Pow2(k)
  {
    if k > 0 && (a != 0 || b != 0) {
      XorBelow(a / 2, b / 2, k - 1);
    }
  }

  lemma {:induction false} Pow2Add(a: nat, b: nat)
    ensures Pow2(a + b) == Pow2(a) * Pow2(b)
  {
    if b > 0 {
      Pow2Add(a, b - 1);
      assert Pow2(a + b) == 2 * Pow2(a + b - 1);
    }
  }

  lemma Pow2At32()
    ensures Pow2(32) == 0x1_0000_0000
  {
    assert Pow2(4) == 16;
    Pow2Add(4, 4);
    Pow2Add(8, 8);
    Pow2Add(16, 16);
  }

  // ---------------------------------------------------------------------------
  // The fold
  // ---------------------------------------------------------------------------

  /** One loop iteration: `h ^= c; h = Math.imul(h, 16777619) >>> 0`. */
  function Step(h: Word, c: CodeUnit): Word {
    (Xor(h, c) * PRIME) % 0x1_0000_0000
  }

  /** The left fold of Step over the code units, starting from the offset basis. */
  function Fold(units: seq<CodeUnit>): Word {
    if units == [] then OFFSET_BASIS
    else Step(Fold(units[..|units| - 1]), units[|units| - 1])
  }

  // ---------------------------------------------------------------------------
  // Rendering with toString(16)
  // ---------------------------------------------------------------------------

  predicate IsHexDigit(c: char) {
    '0' <= c <= '9' || 'a' <= c <= 'f'
  }

  /** A non-empty string of lower-case hexadecimal digits. */
  predicate IsLowerHex(s: string) {
    |s| > 0 && forall i :: 0 <= i < |s| ==> IsHexDigit(s[i])
  }

  function Digit(d: nat): (c: char)
    requires d < 16
    ensures IsHexDigit(c)
  {
    if d < 10 then ('0' as int + d) as char else ('a' as int + d - 10) as char
  }

  function DigitValue(c: char): (d: nat)
    requires IsHexDigit(c)
    ensures d < 16
  {
    if c <= '9' then c as int - '0' as int else c as int - 'a' as int + 10
  }

  /** `n.toString(16)`: most significant digit first, no leading zeros, "0" for zero. */
  function Hex(n: nat): string
  {
    if n < 16 then [Digit(n)] else Hex(n / 16) + [Digit(n % 16)]
  }

  /** The number a non-empty lower-case hexadecimal string denotes. */
  function HexValue(s: string): nat
    requires IsLowerHex(s)
  {
    var last := DigitValue(s[|s| - 1]);
    if |s| == 1 then last
    else
      var init := s[..|s| - 1];
      assert forall i :: 0 <= i < |init| ==> init[i] == s[i];
      HexValue(init) * 16 + last
  }

  /** `Hex` renders lower-case digits without a leading zero, and reading them back gives `n`. */
  lemma {:induction false} HexRoundTrip(n: nat)
    ensures IsLowerHex(Hex(n))
    ensures HexValue(Hex(n)) == n
    ensures |Hex(n)| > 1 ==> Hex(n)[0] != '0'
  {
    if n >= 16 {
      HexRoundTrip(n / 16);
      var p := Hex(n / 16);
      var s := p + [Digit(n % 16)];
      assert s[..|s| - 1] == p;
      assert forall i :: 0 <= i < |s| ==> IsHexDigit(s[i]) by {
        forall i | 0 <= i < |s| ensures IsHexDigit(s[i]) {
          if i < |p| { assert s[i] == p[i]; }
        }
      }
      assert DigitValue(Digit(n % 16)) == n % 16;
      assert s[0] == p[0];
      if |p| == 1 {
        assert n / 16 >= 1;
        assert DigitValue(p[0]) == n / 16;
      }
    } else {
      assert DigitValue(Digit(n)) == n;
    }
  }

  // ---------------------------------------------------------------------------
  // The adapter's hash function
  // ---------------------------------------------------------------------------

  /**
   * The digest `fnv1aHashAdapter().hash(data)` returns: the base-16 rendering of the
   * fold. It is a non-empty string of lower-case hex digits within 32 bits.
   */
  function Digest(data: string): (r: string)
    ensures IsLowerHex(r)
    ensures |r| > 1 ==> r[0] != '0'
    ensures HexValue(r) == Fold(CodeUnits(data))
    ensures HexValue(r) < 0x1_0000_0000
  {
    var n := Fold(CodeUnits(data));
    HexRoundTrip(n);
    Hex(n)
  }

  /** The adapter's loop, computed step by step over the code units. */
  method Hash(data: string) returns (r: string)
    ensures r == Digest(data)
  {
    var units := CodeUnits(data);
    var h: nat := OFFSET_BASIS;
    for i := 0 to |units|
      invariant h == Fold(units[..i])
    {
      assert units[..i + 1][..i] == units[..i];
      h := Xor(h, units[i]);
      h := (h * PRIME) % 0x1_0000_0000;
    }
    assert units[..|units|] == units;
    r := Hex(h);
  }

  /** The empty string hashes to the offset basis, "811c9dc5". */
  lemma EmptyDigest()
    ensures Digest("") == "811c9dc5"
  {
    assert CodeUnits("") == [];
    assert Fold([]) == 0x811C_9DC5;
    assert Hex(0x8) == "8";
    assert Hex(0x81) == "81";
    assert Hex(0x811) == "811";
    assert Hex(0x811C) == "811c";
    assert Hex(0x811C9) == "811c9";
    assert Hex(0x811C9D) == "811c9d";
    assert Hex(0x811C9DC) == "811c9dc";
    assert Hex(0x811C9DC5) == "811c9dc5";
  }

  // ---------------------------------------------------------------------------
  // One changed code unit always changes the digest
  // ---------------------------------------------------------------------------

  /** `s` and `t` have the same length and differ exactly at position `k`. */
  predicate OneUnitApart(s: seq<CodeUnit>, t: seq<CodeUnit>, k: nat) {
    && |s| == |t|
    && k < |s|
    && s[k] != t[k]
    && forall j :: 0 <= j < |s| && j != k ==> s[j] == t[j]
  }

  /** Multiplying by the odd PRIME modulo 2^32 is undone by its inverse 899433627. */
  lemma UndoMulPrime(a: nat)
    requires a < 0x1_0000_0000
    ensures ((a * 0x0100_0193) % 0x1_0000_0000 * 0x359C_449B) % 0x1_0000_0000 == a
  {
    var q := (a * 0x0100_0193) / 0x1_0000_0000;
    var r := (a * 0x0100_0193) % 0x1_0000_0000;
    assert r == a * 0x0100_0193 - q * 0x1_0000_0000;
    // 16777619 * 899433627 == 1 + 3513497 * 2^32
    var k := a * 3513497 - q * 0x359C_449B;
    assert r * 0x359C_449B == a + k * 0x1_0000_0000 by {
      MulSub(a * 0x0100_0193, q * 0x1_0000_0000, 0x359C_449B);
      MulAssoc(a, 0x0100_0193, 0x359C_449B);
      MulAssoc(q, 0x1_0000_0000, 0x359C_449B);
      MulAssoc(a, 3513497, 0x1_0000_0000);
      MulAssoc(q, 0x359C_449B, 0x1_0000_0000);
      MulSub(a * 3513497, q * 0x359C_449B, 0x1_0000_0000);
    }
    ModOfMultiple(a, k);
  }

  lemma MulSub(x: int, y: int, z: int)
    ensures (x - y) * z == x * z - y * z
  {
  }

  lemma MulAssoc(x: int, y: int, z: int)
    ensures (x * y) * z == x * (y * z)
  {
  }

  /** Adding a multiple of 2^32 does not change the remainder modulo 2^32. */
  lemma ModOfMultiple(a: int, k: int)
    requires 0 <= a < 0x1_0000_0000
    ensures (a + k * 0x1_0000_0000) % 0x1_0000_0000 == a
  {
  }

  lemma MulPrimeInjective(a: nat, b: nat)
    requires a < 0x1_0000_0000 && b < 0x1_0000_0000
    requires (a * PRIME) % 0x1_0000_0000 == (b * PRIME) % 0x1_0000_0000
    ensures a == b
  {
    UndoMulPrime(a);
    UndoMulPrime(b);
  }

  lemma StepInjectiveInState(h1: Word, h2: Word, c: CodeUnit)
    requires Step(h1, c) == Step(h2, c)
    ensures h1 == h2
  {
    Pow2At32();
    XorBelow(h1, c, 32);
    XorBelow(h2, c, 32);
    MulPrimeInjective(Xor(h1, c), Xor(h2, c));
    XorCancel(h1, c);
    XorCancel(h2, c);
  }

  lemma StepInjectiveInUnit(h: Word, c1: CodeUnit, c2: CodeUnit)
    requires Step(h, c1) == Step(h, c2)
    ensures c1 == c2
  {
    Pow2At32();
    XorBelow(h, c1, 32);
    XorBelow(h, c2, 32);
    MulPrimeInjective(Xor(h, c1), Xor(h, c2));
    XorCommutes(h, c1);
    XorCommutes(h, c2);
    XorCancel(c1, h);
    XorCancel(c2, h);
  }

  lemma {:induction false} FoldPrefixes(s: seq<CodeUnit>, t: seq<CodeUnit>, k: nat, n: nat)
    requires OneUnitApart(s, t, k)
    requires n <= |s|
    ensures n <= k ==> Fold(s[..n]) == Fold(t[..n])
    ensures n > k ==> Fold(s[..n]) != Fold(t[..n])
  {
    if n == 0 {
      assert s[..0] == [] == t[..0];
    } else {
      FoldPrefixes(s, t, k, n - 1);
      assert s[..n][..n - 1] == s[..n - 1];
      assert t[..n][..n - 1] == t[..n - 1];
      assert Fold(s[..n]) == Step(Fold(s[..n - 1]), s[n - 1]);
      assert Fold(t[..n]) == Step(Fold(t[..n - 1]), t[n - 1]);
      if n - 1 == k {
        if Fold(s[..n]) == Fold(t[..n]) {
          StepInjectiveInUnit(Fold(s[..n - 1]), s[n - 1], t[n - 1]);
        }
      } else if n > k {
        if Fold(s[..n]) == Fold(t[..n]) {
          StepInjectiveInState(Fold(s[..n - 1]), Fold(t[..n - 1]), s[n - 1]);
        }
      }
    }
  }

  /** Equal-length code-unit sequences that differ in exactly one unit fold to different hashes. */
  lemma FoldOneUnitApart(s: seq<CodeUnit>, t: seq<CodeUnit>, k: nat)
    requires OneUnitApart(s, t, k)
    ensures Fold(s) != Fold(t)
  {
    FoldPrefixes(s, t, k, |s|);
    assert s[..|s|] == s && t[..|t|] == t;
  }

  /** Two strings whose code units differ in exactly one place get different digests. */
  lemma DigestOneUnitApart(a: string, b: string, k: nat)
    requires OneUnitApart(CodeUnits(a), CodeUnits(b), k)
    ensures Digest(a) != Digest(b)
  {
    FoldOneUnitApart(CodeUnits(a), CodeUnits(b), k);
  }

  /** "data-a" and "data-b" get different digests. */
  lemma DataAAndDataBDiffer()
    ensures Digest("data-a") != Digest("data-b")
  {
    var a, b := CodeUnits("data-a"), CodeUnits("data-b");
    assert |a| == 6 && |b| == 6;
    assert forall j :: 0 <= j < 6 ==> a[j] == "data-a"[j] as int;
    assert forall j :: 0 <= j < 6 ==> b[j] == "data-b"[j] as int;
    assert OneUnitApart(a, b, 5);
    DigestOneUnitApart("data-a", "data-b", 5);
  }
}
