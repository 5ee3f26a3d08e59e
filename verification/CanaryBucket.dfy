/** Canary selection (src/lib/remediate/autonomous.ts): the JavaScript shift-and-add loop computes
    32-bit FNV-1a over UTF-16 code units, although its intermediate values leave the int32 range. */
module CanaryBucket {
  import opened Common

  const TWO_32 := 0x1_0000_0000
  const TWO_31 := 0x8000_0000

  /** One element of charCodeAt. */
  type Unit = u: int | 0 <= u < 0x10000

  /** The ToUint32 and ToInt32 conversions of ECMAScript. */
  function ToUint32(x: int): (u: int)
    ensures 0 <= u < TWO_32
  {
    x % TWO_32
  }

  function ToInt32(x: int): (i: int)
    ensures -TWO_31 <= i < TWO_31
  {
    var u := ToUint32(x);
    if u >= TWO_31 then u - TWO_32 else u
  }

  /** Exclusive or, bit by bit. */
  function Xor(a: nat, b: nat): (r: nat)
    decreases a + b
  {
    if a == 0 && b == 0 then 0 else (a + b) % 2 + 2 * Xor(a / 2, b / 2)
  }

  /** x ^ y and x << k on JavaScript numbers: operands and results are signed 32-bit. */
  function JsXor(x: int, y: int): int { ToInt32(Xor(ToUint32(x), ToUint32(y))) }

  function JsShiftLeft(x: int, k: nat): int
    requires k < 32
  {
    ToInt32(ToInt32(x) * Pow2(k))
  }

  // ---------------------------------------------------------------- FNV-1a

  const FNV_OFFSET := 2166136261
  const FNV_PRIME := 16777619

  /** FNV-1a of the first n units (draft-eastlake-fnv, section 2): xor, then multiply, modulo 2^32. */
  function Fnv1a(seed: seq<Unit>, n: nat): (h: int)
    requires n <= |seed|
    ensures 0 <= h < TWO_32
  {
    if n == 0 then FNV_OFFSET else Xor(Fnv1a(seed, n - 1), seed[n - 1]) * FNV_PRIME % TWO_32
  }

  /** The bit of weight 2^k. */
  function Bit(x: nat, k: nat): int { (x / Pow2(k)) % 2 }

  lemma HalfBit(x: nat, k: nat)
    requires k > 0
    ensures Bit(x, k) == Bit(x / 2, k - 1)
  {
    var p := Pow2(k - 1);
    var half, rest := x / 2 / p, x / 2 % p;
    assert x / 2 == half * p + rest;
    assert x == (2 * p) * half + (2 * rest + x % 2);
    Quotient(x, 2 * p, half, 2 * rest + x % 2);
  }

  lemma Quotient(x: nat, d: nat, q: nat, r: nat)
    requires d > 0 && x == d * q + r && r < d
    ensures x / d == q
  {
    assert d * (q - x / d) == x % d - r;
    NoMultipleBetween(d, q - x / d);
  }

  lemma NoMultipleBetween(d: int, k: int)
    requires -d < d * k < d
    ensures k == 0
  {
  }

  /** Each bit of an exclusive or is set exactly when it is set in one of the two numbers. */
  lemma {:induction false} XorIsBitwise(a: nat, b: nat, k: nat)
    ensures Bit(Xor(a, b), k) == 1 <==> Bit(a, k) != Bit(b, k)
    decreases k
  {
    if k == 0 {
      XorLowestBit(a, b);
    } else {
      HalfBit(a, k);
      HalfBit(b, k);
      HalfBit(Xor(a, b), k);
      XorHalves(a, b);
      XorIsBitwise(a / 2, b / 2, k - 1);
    }
  }

  lemma XorLowestBit(a: nat, b: nat)
    ensures Bit(Xor(a, b), 0) == 1 <==> Bit(a, 0) != Bit(b, 0)
  {
    LowestBit(a);
    LowestBit(b);
    LowestBit(Xor(a, b));
    XorParity(a, b);
    SumParity(a, b);
  }

  lemma XorParity(a: nat, b: nat)
    ensures Xor(a, b) % 2 == (a + b) % 2
  {
    if a != 0 || b != 0 { EvenPlus((a + b) % 2, Xor(a / 2, b / 2)); }
  }

  lemma EvenPlus(bit: int, half: int)
    requires 0 <= bit < 2
    ensures (bit + 2 * half) % 2 == bit
  {
  }

  lemma SumParity(a: int, b: int)
    ensures (a + b) % 2 == 1 <==> a % 2 != b % 2
  {
  }

  lemma LowestBit(x: nat)
    ensures Bit(x, 0) == x % 2
  {
    var p := Pow2(0);
    assert p == 1 && x / p == x;
  }

  lemma XorHalves(a: nat, b: nat)
    ensures Xor(a, b) / 2 == Xor(a / 2, b / 2)
  {
  }

  /** The parameters of 32-bit FNV-1a (draft-eastlake-fnv): the offset basis, and the
      prime. */
  lemma FnvParameters(seed: seq<Unit>, n: nat)
    requires n < |seed|
    ensures Fnv1a(seed, 0) == 0x811C_9DC5
    ensures Fnv1a(seed, n + 1) == Xor(Fnv1a(seed, n), seed[n]) * 0x0100_0193 % 0x1_0000_0000
  {
  }

  lemma SameWord(x: int, y: int, k: int)
    requires x == y + k * TWO_32
    ensures ToUint32(x) == ToUint32(y)
  {
  }

  /** A signed word differs from any number it represents by a multiple of 2^32. */
  lemma Int32Represents(x: int) returns (k: int)
    ensures ToInt32(x) == x + k * TWO_32
    ensures ToUint32(ToInt32(x)) == ToUint32(x)
  {
    k := -(x / TWO_32) - (if ToUint32(x) >= TWO_31 then 1 else 0);
    SameWord(ToInt32(x), x, k);
  }

  lemma ShiftAmounts()
    ensures Pow2(1) == 2 && Pow2(4) == 16 && Pow2(7) == 128 && Pow2(8) == 256 && Pow2(24) == 0x100_0000
  {
    assert Pow2(4) == 16 && Pow2(8) == 16 * Pow2(4) && Pow2(12) == 16 * Pow2(8);
    assert Pow2(16) == 16 * Pow2(12) && Pow2(20) == 16 * Pow2(16) && Pow2(24) == 16 * Pow2(20);
  }

  /** Adding the five shifts of a signed word to it multiplies it by the FNV prime, modulo 2^32,
      and the sum stays far inside the integers a double represents exactly. */
  lemma ShiftsMultiplyByPrime(x: int)
    requires -TWO_31 <= x < TWO_31
    ensures var sum := x + (JsShiftLeft(x, 1) + JsShiftLeft(x, 4) + JsShiftLeft(x, 7) + JsShiftLeft(x, 8)
                            + JsShiftLeft(x, 24));
            && ToUint32(sum) == ToUint32(x) * FNV_PRIME % TWO_32
            && -6 * TWO_31 <= sum <= 6 * TWO_31
  {
    ShiftAmounts();
    assert ToInt32(x) == x;
    var a := Int32Represents(x * 2);
    var b := Int32Represents(x * 16);
    var c := Int32Represents(x * 128);
    var d := Int32Represents(x * 256);
    var e := Int32Represents(x * 0x100_0000);
    var sum := x + (JsShiftLeft(x, 1) + JsShiftLeft(x, 4) + JsShiftLeft(x, 7) + JsShiftLeft(x, 8) + JsShiftLeft(x, 24));
    assert sum == x * FNV_PRIME + (a + b + c + d + e) * TWO_32;
    SameWord(sum, x * FNV_PRIME, a + b + c + d + e);
    var q := x / TWO_32;
    assert x == ToUint32(x) + q * TWO_32;
    SameWord(x * FNV_PRIME, ToUint32(x) * FNV_PRIME, q * FNV_PRIME);
  }

  /** One round of the loop is one round of FNV-1a. */
  lemma RoundIsFnv(hash: int, unit: Unit)
    ensures var mixed := JsXor(hash, unit);
            var next := mixed + (JsShiftLeft(mixed, 1) + JsShiftLeft(mixed, 4) + JsShiftLeft(mixed, 7)
                                 + JsShiftLeft(mixed, 8) + JsShiftLeft(mixed, 24));
            && ToUint32(next) == Xor(ToUint32(hash), unit) * FNV_PRIME % TWO_32
            && -6 * TWO_31 <= next <= 6 * TWO_31
  {
    assert ToUint32(unit) == unit;
    var word := Xor(ToUint32(hash), unit);
    var k := Int32Represents(word);
    ShiftsMultiplyByPrime(ToInt32(word));
    var q := word / TWO_32;
    assert word == ToUint32(word) + q * TWO_32;
    SameWord(word * FNV_PRIME, ToUint32(word) * FNV_PRIME, q * FNV_PRIME);
  }

  /** stableCanaryBucket. Every intermediate sum is an integer of at most 34 bits, so the double
      arithmetic of the source is exact. */
  method StableCanaryBucket(seed: seq<Unit>) returns (bucket: int)
    ensures bucket == Fnv1a(seed, |seed|) % 100
  {
    var hash := FNV_OFFSET;
    for i := 0 to |seed|
      invariant ToUint32(hash) == Fnv1a(seed, i)
      invariant -6 * TWO_31 <= hash <= 6 * TWO_31
    {
      RoundIsFnv(hash, seed[i]);
      hash := JsXor(hash, seed[i]);
      hash := hash + (JsShiftLeft(hash, 1) + JsShiftLeft(hash, 4) + JsShiftLeft(hash, 7)
                      + JsShiftLeft(hash, 8) + JsShiftLeft(hash, 24));
    }
    bucket := ToUint32(hash) % 100;
  }

  // ---------------------------------------------------------------- selection

  datatype Tier = Observe | SafeAuto | GuardedAuto | RiskyManual

  datatype Risk = Low | Medium | High

  datatype Threshold = NoThreshold | AtLeast(risk: Risk)

  function TierRank(t: Tier): nat {
    match t case Observe => 0 case SafeAuto => 1 case GuardedAuto => 2 case RiskyManual => 3
  }

  function RiskRank(r: Risk): nat {
    match r case Low => 0 case Medium => 1 case High => 2
  }

  /** isAutoExecutableTier */
  predicate AutoExecutable(action: Tier, max: Tier) {
    action != Observe && TierRank(action) <= TierRank(max)
  }

  /** riskRequiresApproval */
  predicate RiskRequiresApproval(risk: Risk, threshold: Threshold) {
    threshold.AtLeast? && RiskRank(risk) >= RiskRank(threshold.risk)
  }

  /** The tiers that may run by themselves under a highest tier. */
  predicate TierWithin(tier: Tier, max: Tier) {
    match max
    case Observe => false
    case SafeAuto => tier == SafeAuto
    case GuardedAuto => tier == SafeAuto || tier == GuardedAuto
    case RiskyManual => tier != Observe
  }

  /** The risks that call for an approval under a threshold. */
  predicate RiskReaches(risk: Risk, threshold: Threshold) {
    match threshold
    case NoThreshold => false
    case AtLeast(Low) => true
    case AtLeast(Medium) => risk != Low
    case AtLeast(High) => risk == High
  }

  lemma RanksAreExact(tier: Tier, max: Tier, risk: Risk, threshold: Threshold)
    ensures AutoExecutable(tier, max) <==> TierWithin(tier, max)
    ensures RiskRequiresApproval(risk, threshold) <==> RiskReaches(risk, threshold)
  {
  }

  /** canaryPercentForTier */
  function CanaryPercent(tier: Tier, defaultPercent: int): int {
    match tier
    case SafeAuto => 100
    case Observe => 0
    case _ => ClampInt(defaultPercent, 1, 100)
  }

  datatype Selection = Selection(bucket: int, selected: bool)

  const SEPARATOR: seq<Unit> := [':' as int, ':' as int]

  /** shouldSelectCanary */
  function SelectCanary(hostId: seq<Unit>, actionId: seq<Unit>, percent: int): Selection {
    var bounded := ClampInt(percent, 0, 100);
    if bounded <= 0 then Selection(99, false)
    else if bounded >= 100 then Selection(0, true)
    else
      var seed := hostId + SEPARATOR + actionId;
      var bucket := Fnv1a(seed, |seed|) % 100;
      Selection(bucket, bucket < bounded)
  }

  /** Rollouts are nested: a host selected at some percentage stays selected at every larger one,
      and is selected at p percent exactly when its fixed bucket is below p. */
  lemma CanarySelectionIsNested(hostId: seq<Unit>, actionId: seq<Unit>, p: int, q: int)
    ensures var seed := hostId + SEPARATOR + actionId;
            && 0 <= SelectCanary(hostId, actionId, p).bucket < 100
            && (SelectCanary(hostId, actionId, p).selected <==> Fnv1a(seed, |seed|) % 100 < p)
            && (p <= q && SelectCanary(hostId, actionId, p).selected ==> SelectCanary(hostId, actionId, q).selected)
  {
    var seed := hostId + SEPARATOR + actionId;
    assert 0 <= Fnv1a(seed, |seed|) % 100 < 100;
  }

  /** A host takes part in the rollout of an action: always for safe actions, never for those only
      observed, and otherwise when its bucket is below the percentage, taken between 1 and 100. */
  predicate TakesPart(tier: Tier, bucket: int, percent: int) {
    match tier
    case Observe => false
    case SafeAuto => true
    case _ => bucket < Max(1, Min(percent, 100))
  }

  /** The selection for a tier, with the bucket that is recorded. */
  lemma SelectionIsExact(hostId: seq<Unit>, actionId: seq<Unit>, tier: Tier, percent: int)
    ensures var seed := hostId + [58, 58] + actionId;
            var bucket := Fnv1a(seed, |seed|) % 100;
            var s := SelectCanary(hostId, actionId, CanaryPercent(tier, percent));
            && (s.selected <==> TakesPart(tier, bucket, percent))
            && s.bucket == (if tier == Observe then 99 else if tier == SafeAuto || percent >= 100 then 0 else bucket)
  {
  }

  // ---------------------------------------------------------------- texts as code units

  /** One UTF-16 code unit below the supplementary planes, two in them. */
  function Utf16(s: string): seq<Unit> {
    if s == [] then []
    else
      var v := s[0] as int;
      (if v < 0x10000 then [v] else [0xD800 + (v - 0x10000) / 0x400, 0xDC00 + v % 0x400]) + Utf16(s[1..])
  }

  /** The code points that a text in UTF-16 stands for (section 2.2 of RFC 2781). */
  function CodePoints(units: seq<Unit>): seq<int> {
    if units == [] then []
    else if 0xD800 <= units[0] < 0xDC00 && |units| > 1 then
      [0x10000 + (units[0] - 0xD800) * 0x400 + (units[1] - 0xDC00)] + CodePoints(units[2..])
    else [units[0]] + CodePoints(units[1..])
  }

  lemma {:induction false} Utf16StandsFor(s: string)
    ensures CodePoints(Utf16(s)) == seq(|s|, (i: nat) requires i < |s| => s[i] as int)
  {
    if s != [] {
      Utf16StandsFor(s[1..]);
      var v := s[0] as int;
      var first := if v < 0x10000 then [v] else [0xD800 + (v - 0x10000) / 0x400, 0xDC00 + v % 0x400];
      assert Utf16(s)[|first|..] == Utf16(s[1..]);
      assert CodePoints(Utf16(s)) == [v] + CodePoints(Utf16(s[1..]));
    }
  }
}
