/** Numbers written as strings, as the performance validators read them
    (packages/shared/src/hr-performance-channel-definition.ts,
    packages/shared/src/hr-performance-source-drafts.ts). */
module NumericText {
  import opened Texts

  const MINUS: nat := 45
  const DOT: nat := 46
  const ZERO: nat := 48
  const INT_MIN := -0x8000_0000
  const INT_MAX := 0x7FFF_FFFF

  predicate AllDigits(t: Text) {
    forall i | 0 <= i < |t| :: ZERO <= t[i] <= ZERO + 9
  }

  function Unsigned(t: Text): Text {
    if t != [] && t[0] == MINUS then t[1..] else t
  }

  function DotAt(t: Text): (d: nat)
    ensures d <= |t|
    ensures d < |t| ==> t[d] == DOT
    ensures forall i | 0 <= i < d :: t[i] != DOT
  {
    if t == [] || t[0] == DOT then 0 else 1 + DotAt(t[1..])
  }

  function NatOf(digits: Text): nat
    requires AllDigits(digits)
  {
    if digits == [] then 0
    else
      var n := |digits| - 1;
      assert ZERO <= digits[n];
      10 * NatOf(digits[..n]) + (digits[n] - ZERO)
  }

  function StripZeros(digits: Text): (r: Text)
    ensures r != [] ==> r[0] != ZERO
    ensures AllDigits(digits) ==> AllDigits(r)
  {
    if digits != [] && digits[0] == ZERO then StripZeros(digits[1..]) else digits
  }

  /** An optional sign and digits. */
  predicate IntShape(t: Text) {
    Unsigned(t) != [] && AllDigits(Unsigned(t))
  }

  function IntOf(t: Text): int
    requires IntShape(t)
  {
    var n: int := NatOf(Unsigned(t));
    if t[0] == MINUS then -n else n
  }

  /** A 32-bit integer. */
  predicate IsInt32(t: Text) {
    IntShape(t) && INT_MIN <= IntOf(t) <= INT_MAX
  }

  /** An optional sign, digits, and optionally a point with up to scale digits, of
      which at most the given number before the point are significant. */
  predicate IsDecimal(t: Text, scale: nat, significant: nat) {
    var u := Unsigned(t);
    var d := DotAt(u);
    && d > 0 && AllDigits(u[..d]) && |StripZeros(u[..d])| <= significant
    && (d == |u| || (1 <= |u| - d - 1 <= scale && AllDigits(u[d + 1..])))
  }

  function Pow10(n: nat): nat {
    if n == 0 then 1 else 10 * Pow10(n - 1)
  }

  lemma {:induction false} Magnitude(digits: Text, k: nat)
    requires AllDigits(digits) && 0 < k <= |digits| && digits[0] != ZERO
    ensures NatOf(digits) >= Pow10(k - 1)
  {
    var n := |digits| - 1;
    if n == 0 {
      assert NatOf(digits[..0]) == 0;
    } else if k <= n {
      Magnitude(digits[..n], k);
    } else {
      Magnitude(digits[..n], k - 1);
    }
  }

  lemma {:induction false} LeadingZero(digits: Text)
    requires AllDigits(digits) && digits != [] && digits[0] == ZERO
    ensures NatOf(digits) == NatOf(digits[1..])
  {
    var n := |digits| - 1;
    if n > 0 {
      LeadingZero(digits[..n]);
      assert digits[..n][1..] == digits[1..][..n - 1];
    } else {
      assert digits[..0] == [] && digits[1..] == [];
    }
  }

  lemma {:induction false} StripKeepsValue(digits: Text)
    requires AllDigits(digits)
    ensures NatOf(StripZeros(digits)) == NatOf(digits)
  {
    if digits != [] && digits[0] == ZERO {
      LeadingZero(digits);
      StripKeepsValue(digits[1..]);
    }
  }

  /** A 32-bit integer has at most ten significant digits, however many zeros precede
      them, so it is a decimal for every check that allows ten. */
  lemma IntegerIsDecimal(t: Text, scale: nat, significant: nat)
    requires IsInt32(t) && significant >= 10
    ensures IsDecimal(t, scale, significant)
  {
    var u := Unsigned(t);
    assert DotAt(u) == |u|;
    assert u[..|u|] == u;
    StripKeepsValue(u);
    if |StripZeros(u)| > 10 {
      ElevenDigits(StripZeros(u));
    }
  }

  lemma ElevenDigits(digits: Text)
    requires AllDigits(digits) && |digits| > 10 && digits[0] != ZERO
    ensures NatOf(digits) >= 10_000_000_000
  {
    Magnitude(digits, 11);
    assert Pow10(10) == 10_000_000_000;
  }
}
