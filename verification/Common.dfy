/** Small vocabulary shared by the models: optional values, the clamps and the text helpers
    that several source files repeat. */
module Common {

  datatype Option<+T> = None | Some(value: T) {
    function GetOr(default: T): T {
      if Some? then value else default
    }
  }

  function Min(a: int, b: int): int { if a <= b then a else b }

  function Max(a: int, b: int): int { if a >= b then a else b }

  /** The clamp that the source files repeat. */
  function ClampInt(v: int, lo: int, hi: int): int {
    if v < lo then lo else if v > hi then hi else v
  }

  /** Of the numbers in the range the clamped one is nearest. */
  lemma ClampIsNearest(v: int, lo: int, hi: int, x: int)
    requires lo <= x <= hi
    ensures var r := ClampInt(v, lo, hi); lo <= r <= hi && (v <= r <= x || x <= r <= v)
  {
  }

  function Pow2(n: nat): (p: nat)
    ensures p >= 1
  {
    if n == 0 then 1 else 2 * Pow2(n - 1)
  }

  lemma {:induction false} Pow2Monotone(a: nat, b: nat)
    requires a <= b
    ensures Pow2(a) <= Pow2(b)
  {
    if a < b { Pow2Monotone(a, b - 1); }
  }

  /** Decimal digits of a natural number, as template literals print it. */
  function Decimal(n: nat): (s: string)
    ensures |s| > 0
  {
    if n < 10 then [('0' as int + n) as char] else Decimal(n / 10) + [('0' as int + n % 10) as char]
  }

  /** What a decimal numeral stands for. */
  function NumberOf(digits: string): int {
    if digits == "" then 0 else 10 * NumberOf(digits[..|digits| - 1]) + (digits[|digits| - 1] as int - '0' as int)
  }

  /** The numeral stands for the number, in digits only and without leading zeros. */
  lemma {:induction false} DecimalStandsFor(n: nat)
    ensures NumberOf(Decimal(n)) == n
    ensures forall i | 0 <= i < |Decimal(n)| :: '0' <= Decimal(n)[i] <= '9'
    ensures n > 0 ==> Decimal(n)[0] != '0'
  {
    if n < 10 {
      assert Decimal(n)[..0] == "";
    } else {
      DecimalStandsFor(n / 10);
      assert Decimal(n)[..|Decimal(n)| - 1] == Decimal(n / 10);
    }
  }

  function IntText(n: int): string {
    if n < 0 then "-" + Decimal(-n) else Decimal(n)
  }

  /** A negative number is written as its amount after a minus sign. */
  lemma IntTextStandsFor(n: int)
    ensures if n >= 0 then NumberOf(IntText(n)) == n
            else IntText(n)[0] == '-' && NumberOf(IntText(n)[1..]) == -n
  {
    DecimalStandsFor(if n < 0 then -n else n);
    if n < 0 { assert IntText(n)[1..] == Decimal(-n); }
  }

  /** White space as String.prototype.trim understands it. */
  predicate IsSpace(c: char) {
    c == ' ' || '\t' <= c <= '\r' || c == '\U{A0}' || c == '\U{1680}' || '\U{2000}' <= c <= '\U{200A}'
    || c == '\U{2028}' || c == '\U{2029}' || c == '\U{202F}' || c == '\U{205F}' || c == '\U{3000}'
    || c == '\U{FEFF}'
  }

  /** The characters that ECMAScript calls white space or line terminators, by their code points. */
  lemma SpacesAreThoseOfTrim(c: char)
    ensures IsSpace(c) <==>
              c as int in {0x09, 0x0A, 0x0B, 0x0C, 0x0D, 0x20, 0xA0, 0x1680, 0x2000, 0x2001, 0x2002, 0x2003, 0x2004,
                           0x2005, 0x2006, 0x2007, 0x2008, 0x2009, 0x200A, 0x2028, 0x2029, 0x202F, 0x205F, 0x3000,
                           0xFEFF}
  {
  }

  function TrimStart(s: string): (t: string)
    ensures t == [] || !IsSpace(t[0])
    ensures |t| <= |s|
  {
    if s != [] && IsSpace(s[0]) then TrimStart(s[1..]) else s
  }

  function TrimEnd(s: string): (t: string)
    ensures t == [] || !IsSpace(t[|t| - 1])
    ensures t <= s
  {
    if s != [] && IsSpace(s[|s| - 1]) then TrimEnd(s[..|s| - 1]) else s
  }

  predicate Trimmed(s: string) {
    s == [] || (!IsSpace(s[0]) && !IsSpace(s[|s| - 1]))
  }

  function Trim(s: string): (t: string)
    ensures Trimmed(t)
    ensures Trimmed(s) ==> t == s
  {
    TrimEnd(TrimStart(s))
  }

  predicate AllSpace(s: string) { forall i | 0 <= i < |s| :: IsSpace(s[i]) }

  /** Trimming cuts white space off the two ends, and nothing else. */
  lemma TrimCutsSpaceOnly(s: string) returns (i: nat, j: nat)
    ensures i <= j <= |s| && Trim(s) == s[i..j] && AllSpace(s[..i]) && AllSpace(s[j..])
  {
    i := TrimStartCutsSpace(s);
    var k := TrimEndCutsSpace(s[i..]);
    j := i + k;
    assert s[i..][..k] == s[i..j] && s[i..][k..] == s[j..];
  }

  lemma {:induction false} TrimStartCutsSpace(s: string) returns (i: nat)
    ensures i <= |s| && TrimStart(s) == s[i..] && AllSpace(s[..i])
  {
    if s != [] && IsSpace(s[0]) {
      var k := TrimStartCutsSpace(s[1..]);
      i := k + 1;
      assert s[1..][k..] == s[i..];
      forall n | 0 <= n < i ensures IsSpace(s[..i][n]) { if n > 0 { assert s[1..][..k][n - 1] == s[n]; } }
    } else {
      i := 0;
    }
  }

  lemma {:induction false} TrimEndCutsSpace(s: string) returns (j: nat)
    ensures j <= |s| && TrimEnd(s) == s[..j] && AllSpace(s[j..])
  {
    if s != [] && IsSpace(s[|s| - 1]) {
      j := TrimEndCutsSpace(s[..|s| - 1]);
      assert s[j..] == s[..|s| - 1][j..] + [s[|s| - 1]];
    } else {
      j := |s|;
    }
  }

  /** A text is trimmed to nothing exactly when it is all white space. */
  lemma TrimmedAway(s: string)
    ensures Trim(s) == "" <==> AllSpace(s)
  {
    var i, j := TrimCutsSpaceOnly(s);
    if Trim(s) == "" {
      assert s == s[..i] + s[j..];
    } else {
      assert s[i] == Trim(s)[0];
    }
  }

  /** Not only white space. */
  predicate Filled(s: string) { exists i | 0 <= i < |s| :: !IsSpace(s[i]) }

  lemma FilledIsKept(s: string)
    ensures Trim(s) != "" <==> Filled(s)
  {
    TrimmedAway(s);
  }

  /** truncateQueueErrorMessage: a trimmed message, cut at maxLen with a note of what was cut. */
  function Truncate(message: string, maxLen: nat): string {
    var m := Trim(message);
    if |m| <= maxLen then m
    else m[..maxLen] + "...[truncated " + Decimal(|m| - maxLen) + " chars]"
  }

  /** A message that fits is only trimmed; of any other the beginning is kept, and the note tells how
      much was cut. */
  lemma TruncateTellsWhatItCut(message: string, maxLen: nat) returns (cut: string)
    ensures var m, t := Trim(message), Truncate(message, maxLen);
            if |m| <= maxLen then t == m
            else t == m[..maxLen] + "...[truncated " + cut + " chars]" && NumberOf(cut) == |m| - maxLen
  {
    var m := Trim(message);
    if |m| <= maxLen {
      cut := "";
    } else {
      cut := Decimal(|m| - maxLen);
      DecimalStandsFor(|m| - maxLen);
    }
  }
}
