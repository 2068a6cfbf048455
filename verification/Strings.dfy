/** Names of nucleus/vm/string.h: idents that hold up to thirty bytes, and their
    FNV-1a hash. */
module Strings {
  type Byte = b: nat | b < 256

  const TWO32: nat := 0x1_0000_0000
  const FNV1A_HASH_32: nat := 0x811c9dc5
  const FNV1A_PRIME_32: nat := 0x01000193

  /** The inverse of the prime modulo 2^32. */
  const PRIME_INVERSE: nat := 0x359c449b

  // ----- exclusive or of the low bits

  function Xor(a: nat, b: nat, bits: nat): nat
    decreases bits
  {
    if bits == 0 then a else 2 * Xor(a / 2, b / 2, bits - 1) + (a + b) % 2
  }

  lemma {:induction false} XorBound(a: nat, b: nat, bits: nat, m: nat)
    requires bits <= m && a < Pow2(m)
    ensures Xor(a, b, bits) < Pow2(m)
    decreases bits
  {
    if bits > 0 { XorBound(a / 2, b / 2, bits - 1, m - 1); }
  }

  function Pow2(n: nat): (p: nat)
    ensures p > 0
  {
    if n == 0 then 1 else 2 * Pow2(n - 1)
  }

  lemma {:induction false} XorTwice(a: nat, b: nat, bits: nat)
    ensures Xor(Xor(a, b, bits), b, bits) == a
    decreases bits
  {
    if bits > 0 {
      var half, r := Xor(a / 2, b / 2, bits - 1), Xor(a, b, bits);
      XorTwice(a / 2, b / 2, bits - 1);
      Halves(half, (a + b) % 2);
      Parity(r, a, b);
    }
  }

  lemma {:induction false} Halves(half: nat, bit: nat)
    requires bit < 2
    ensures (2 * half + bit) / 2 == half && (2 * half + bit) % 2 == bit
  {
  }

  lemma {:induction false} Parity(r: nat, a: nat, b: nat)
    requires r % 2 == (a + b) % 2
    ensures (r + b) % 2 == a % 2
  {
  }

  lemma {:induction false} SameParity(a: nat, b: nat, c: nat)
    requires (a + b) % 2 == (a + c) % 2
    ensures b % 2 == c % 2
  {
  }

  lemma {:induction false} XorByByte(a: nat, b: nat, c: nat, bits: nat)
    requires b < Pow2(bits) && c < Pow2(bits) && Xor(a, b, bits) == Xor(a, c, bits)
    ensures b == c
    decreases bits
  {
    if bits > 0 {
      Halves(Xor(a / 2, b / 2, bits - 1), (a + b) % 2);
      Halves(Xor(a / 2, c / 2, bits - 1), (a + c) % 2);
      XorByByte(a / 2, b / 2, c / 2, bits - 1);
      SameParity(a, b, c);
    }
  }

  lemma {:induction false} HalfDiv(x: nat, p: nat)
    requires p > 0
    ensures x / (2 * p) == x / 2 / p
  {
    var q, r := x / 2 / p, x / 2 % p;
    assert x / 2 == p * q + r;
    assert x == (2 * p) * q + (2 * r + x % 2);
    QuotientIs(x, 2 * p, q, 2 * r + x % 2);
  }

  lemma {:induction false} QuotientIs(x: nat, m: nat, q: nat, r: nat)
    requires m > 0 && x == m * q + r && r < m
    ensures x / m == q
  {
    var d := x / m - q;
    assert m * d == r - x % m;
    SmallMultiple(m, d);
  }

  lemma {:induction false} SmallMultiple(m: nat, d: int)
    requires 0 - m < m * d < m
    ensures d == 0
  {
  }

  lemma {:induction false} NoPower()
    ensures Pow2(0) == 1
  {
  }

  lemma {:induction false} HigherBit(x: nat, k: nat)
    requires k > 0
    ensures x / Pow2(k) == x / 2 / Pow2(k - 1)
  {
    HalfDiv(x, Pow2(k - 1));
  }

  /** Each of the low bits is set if it is set in one number but not in the other; the
      bits above are those of the first. */
  lemma {:induction false} XorBit(a: nat, b: nat, bits: nat, k: nat)
    ensures Xor(a, b, bits) / Pow2(k) % 2 == 1
       <==> if k < bits then (a / Pow2(k) % 2 == 1) != (b / Pow2(k) % 2 == 1) else a / Pow2(k) % 2 == 1
    decreases bits
  {
    if bits > 0 {
      hide Pow2;
      var half := Xor(a / 2, b / 2, bits - 1);
      Halves(half, (a + b) % 2);
      if k == 0 {
        NoPower();
      } else {
        HigherBit(a, k);
        HigherBit(b, k);
        HigherBit(Xor(a, b, bits), k);
        XorBit(a / 2, b / 2, bits - 1, k - 1);
      }
    }
  }

  // ----- one step of the hash

  function Step(h: nat, b: Byte): (r: nat)
    ensures r < TWO32
  {
    Xor(h, b, 8) * FNV1A_PRIME_32 % TWO32
  }

  function StepBack(h: nat, b: Byte): nat {
    Xor(h * PRIME_INVERSE % TWO32, b, 8)
  }

  lemma {:induction false} TimesPrimeBack(x: nat)
    requires x < TWO32
    ensures x * FNV1A_PRIME_32 % TWO32 * PRIME_INVERSE % TWO32 == x
    ensures x * PRIME_INVERSE % TWO32 * FNV1A_PRIME_32 % TWO32 == x
  {
    var k := 3513497;
    var y := x * FNV1A_PRIME_32;
    var z := x * PRIME_INVERSE;
    assert y % TWO32 * PRIME_INVERSE == x + TWO32 * (k * x - y / TWO32 * PRIME_INVERSE);
    ModMultiple(x, k * x - y / TWO32 * PRIME_INVERSE);
    assert z % TWO32 * FNV1A_PRIME_32 == x + TWO32 * (k * x - z / TWO32 * FNV1A_PRIME_32);
    ModMultiple(x, k * x - z / TWO32 * FNV1A_PRIME_32);
  }

  lemma {:induction false} ModMultiple(x: nat, k: int)
    requires x < TWO32
    ensures (x + TWO32 * k) % TWO32 == x
  {
  }

  lemma {:induction false} Pow2Is32()
    ensures Pow2(32) == TWO32 && Pow2(8) == 256
  {
    assert Pow2(8) == 256;
    assert Pow2(16) == 0x1_0000;
    assert Pow2(24) == 0x100_0000;
  }

  /** For each byte, a step is a bijection of the 32-bit states. */
  lemma {:induction false} StepBijection(h: nat, b: Byte)
    requires h < TWO32
    ensures StepBack(Step(h, b), b) == h
    ensures StepBack(h, b) < TWO32 && Step(StepBack(h, b), b) == h
  {
    hide Xor, Pow2;
    Pow2Is32();
    XorBound(h, b, 8, 32);
    XorTwice(h, b, 8);
    TimesPrimeBack(Xor(h, b, 8));
    var x := h * PRIME_INVERSE % TWO32;
    XorBound(x, b, 8, 32);
    XorTwice(x, b, 8);
    TimesPrimeBack(h);
  }

  /** From one state, different bytes lead to different states. */
  lemma {:induction false} StepByByte(h: nat, b: Byte, c: Byte)
    requires h < TWO32 && Step(h, b) == Step(h, c)
    ensures b == c
  {
    hide Xor, Pow2;
    Pow2Is32();
    XorBound(h, b, 8, 32);
    XorBound(h, c, 8, 32);
    TimesPrimeBack(Xor(h, b, 8));
    TimesPrimeBack(Xor(h, c, 8));
    XorByByte(h, b, c, 8);
  }

  // ----- the hash of a string

  function Fnv(s: seq<Byte>): (h: nat)
    ensures h < TWO32
  {
    if s == [] then FNV1A_HASH_32 else Step(Fnv(s[..|s| - 1]), s[|s| - 1])
  }

  method Hash(bytes: seq<Byte>) returns (hash: nat)
    ensures hash == Fnv(bytes)
  {
    hide Xor;
    hash := FNV1A_HASH_32;
    var i := 0;
    while i < |bytes|
      invariant i <= |bytes| && hash == Fnv(bytes[..i])
    {
      assert bytes[..i + 1][..i] == bytes[..i];
      hash := Xor(hash, bytes[i], 8);
      hash := hash * FNV1A_PRIME_32 % TWO32;
      i := i + 1;
    }
    assert bytes[..i] == bytes;
  }

  /** The hash of no byte, and what each byte makes of the hash of those before it. */
  lemma {:induction false} FnvSteps(s: seq<Byte>, b: Byte)
    ensures Fnv([]) == 0x811c_9dc5
    ensures Fnv(s + [b]) == Xor(Fnv(s), b, 8) * 0x0100_0193 % 0x1_0000_0000
  {
    hide Xor;
    assert (s + [b])[..|s|] == s;
  }

  lemma {:induction false} XorDown(a: nat, b: nat, bits: nat)
    ensures Xor(a, b, bits + 1) == 2 * Xor(a / 2, b / 2, bits) + (a + b) % 2
    ensures Xor(a, b, 0) == a
  {
  }

  /** The hash that FNV-1a is published with for the one byte `a`. */
  lemma {:induction false} FnvVector()
    ensures Fnv([0x61]) == 0xe40c_292c
  {
    hide Fnv, Xor;
    FnvSteps([], 0x61);
    assert [] + [0x61] == [0x61];
    XorDown(0x102393b, 0x0, 0);
    XorDown(0x2047277, 0x1, 1);
    XorDown(0x408e4ee, 0x3, 2);
    XorDown(0x811c9dc, 0x6, 3);
    XorDown(0x102393b8, 0xc, 4);
    XorDown(0x20472771, 0x18, 5);
    XorDown(0x408e4ee2, 0x30, 6);
    XorDown(0x811c9dc5, 0x61, 7);
    XorDown(0x81_1c9d, 0, 0);
    assert Xor(0x811c_9dc5, 0x61, 8) == 0x811c_9da4;
  }

  /** The strings agree everywhere but at one place. */
  ghost predicate DifferOnce(s: seq<Byte>, t: seq<Byte>, i: nat) {
    |s| == |t| && i < |s| && s[i] != t[i] && forall j :: 0 <= j < |s| && j != i ==> s[j] == t[j]
  }

  /** Strings of one length that differ in exactly one byte have different hashes. */
  lemma {:induction false} OneByteShows(s: seq<Byte>, t: seq<Byte>, i: nat)
    requires DifferOnce(s, t, i)
    ensures Fnv(s) != Fnv(t)
    decreases s
  {
    hide Step;
    var n := |s| - 1;
    if i == n {
      assert s[..n] == t[..n];
      if Fnv(s) == Fnv(t) { StepByByte(Fnv(s[..n]), s[n], t[n]); }
    } else {
      OneByteShows(s[..n], t[..n], i);
      StepBijection(Fnv(s[..n]), s[n]);
      StepBijection(Fnv(t[..n]), t[n]);
    }
  }

  // ----- idents: thirty bytes, a spare one and the length

  const IDENT_MAX := 30
  const IDENT_SIZE := 32

  /** What an ident keeps of a name. */
  function Clip(s: seq<Byte>): (r: seq<Byte>)
    ensures |r| <= IDENT_MAX && r <= s
    ensures if |s| <= 30 then r == s else |r| == 30
  {
    if |s| <= IDENT_MAX then s else s[..IDENT_MAX]
  }

  ghost predicate IsIdent(ident: seq<Byte>) {
    |ident| == IDENT_SIZE && ident[IDENT_MAX + 1] <= IDENT_MAX
  }

  ghost function Name(ident: seq<Byte>): seq<Byte>
    requires IsIdent(ident)
  {
    ident[..ident[IDENT_MAX + 1]]
  }

  /** The length of a string, which ends at its first zero byte, up to a maximum. */
  method StrNLen(s: seq<Byte>, max: nat) returns (n: nat)
    requires 0 !in s
    ensures n == if |s| <= max then |s| else max
  {
    n := 0;
    while n < max && n < |s|
      invariant n <= max && n <= |s|
    {
      n := n + 1;
    }
  }

  method IdentSetLen(ident: array<Byte>, len: Byte)
    requires ident.Length == IDENT_SIZE && len <= IDENT_MAX
    modifies ident
    ensures ident[IDENT_MAX + 1] == len && ident[IDENT_MAX] == old(ident[IDENT_MAX])
    ensures forall j :: 0 <= j < IDENT_MAX ==> ident[j] == if j < len then old(ident[j]) else 0
  {
    ident[IDENT_MAX + 1] := len;
    for i := len to IDENT_MAX
      invariant ident[IDENT_MAX + 1] == len && ident[IDENT_MAX] == old(ident[IDENT_MAX])
      invariant forall j :: 0 <= j < IDENT_MAX ==> ident[j] == if len <= j < i then 0 else old(ident[j])
    {
      ident[i] := 0;
    }
  }

  /** A name longer than thirty bytes is cut; the hash of the ident is that of what is left. */
  method IdentSetStr(ident: array<Byte>, s: seq<Byte>)
    requires ident.Length == IDENT_SIZE && 0 !in s
    modifies ident
    ensures IsIdent(ident[..]) && Name(ident[..]) == Clip(s)
    ensures ident[31] as nat == if |s| <= 30 then |s| else 30
    ensures forall j :: 0 <= j < 30 ==> ident[j] == if j < |s| then s[j] else 0
  {
    var n := StrNLen(s, IDENT_MAX);
    IdentSetLen(ident, n);
    for i := 0 to n
      invariant ident[IDENT_MAX + 1] == n
      invariant forall j :: 0 <= j < IDENT_MAX ==> ident[j] == if j < i then s[j] else if j < n then ident[j] else 0
    {
      ident[i] := s[i];
    }
  }

  method IdentUid(ident: array<Byte>) returns (uid: nat)
    requires IsIdent(ident[..])
    ensures uid == Fnv(Name(ident[..]))
  {
    uid := Hash(ident[..ident[IDENT_MAX + 1]]);
    assert ident[..ident[IDENT_MAX + 1]] == Name(ident[..]);
  }
}
