/** Conversion between decimal amounts and on-chain integer units (token.service.ts). */
module AtomicUnits {
  import opened DecimalStrings

  datatype Asset = NEAR | USDT | USDC

  function AssetDecimals(asset: Asset): (d: nat)
  {
    match asset
    case NEAR => 24
    case USDT => 6
    case USDC => 6
  }

  /** Whatever remains after the zeros, but never nothing. */
  function OrZero(s: string): string { if s == "" then "0" else s }

  function ToAtomicUnits(amount: string, asset: Asset): string {
    ToUnits(amount, AssetDecimals(asset))
  }

  function FromAtomicUnits(atomicAmount: string, asset: Asset): string {
    FromUnits(atomicAmount, AssetDecimals(asset))
  }

  function ToUnits(amount: string, decimals: nat): string {
    var paddedDecimal := PadEnd(DecimalPart(amount), decimals);
    FitsPadded(DecimalPart(amount), decimals);
    OrZero(StripLeading(IntegerPart(amount) + paddedDecimal[..decimals]))
  }

  function FromUnits(atomicAmount: string, decimals: nat): string {
    var padded := PadStart(atomicAmount, decimals + 1);
    FitsPaddedStart(atomicAmount, decimals + 1);
    var integerPart := padded[..|padded| - decimals];
    var trimmed := StripTrailing(padded[|padded| - decimals..]);
    if trimmed != "" then integerPart + "." + trimmed else integerPart
  }

  lemma FitsPadded(s: string, width: nat)
    ensures |PadEnd(s, width)| >= width
  {
    ZerosParse(if |s| >= width then 0 else width - |s|);
  }

  lemma FitsPaddedStart(s: string, width: nat)
    ensures |PadStart(s, width)| >= width
  {
    ZerosParse(if |s| >= width then 0 else width - |s|);
  }

  // --- The value of ToUnits ---

  /** `n` is `v * pd / pf`, rounded down. */
  ghost predicate IsScaledFloor(n: nat, v: nat, pf: nat, pd: nat) {
    n * pf <= v * pd < (n + 1) * pf
  }

  /** The fractional digits cut or padded to `decimals` places. */
  lemma CutFraction(f: string, decimals: nat)
    requires IsDigits(f)
    ensures |PadEnd(f, decimals)| >= decimals
    ensures
      var cut := PadEnd(f, decimals)[..decimals];
      && IsDigits(cut) && |cut| == decimals
      && IsScaledFloor(ParseNat(cut), ParseNat(f), Pow10(|f|), Pow10(decimals))
  {
    hide Pow10, ParseNat, IsScaledFloor;
    FitsPadded(f, decimals);
    if |f| <= decimals {
      ZeroExtended(f, decimals - |f|);
      assert f + Repeat('0', 0) == f;
      assert PadEnd(f, decimals)[..decimals] == f + Repeat('0', decimals - |f|);
    } else {
      assert f == f[..decimals] + f[decimals..];
      TruncatedTail(f[..decimals], f[decimals..]);
    }
  }

  lemma ZeroExtended(f: string, k: nat)
    requires IsDigits(f)
    ensures
      var cut := f + Repeat('0', k);
      && IsDigits(cut) && |cut| == |f| + k
      && IsScaledFloor(ParseNat(cut), ParseNat(f), Pow10(|f|), Pow10(|f| + k))
  {
    hide Pow10, ParseNat;
    ZerosParse(k);
    ParseAppend(f, Repeat('0', k));
    Pow10Add(|f|, k);
    ScaleUp(ParseNat(f), Pow10(k), Pow10(|f|));
  }

  lemma TruncatedTail(cut: string, tail: string)
    requires IsDigits(cut) && IsDigits(tail)
    ensures IsScaledFloor(ParseNat(cut), ParseNat(cut + tail), Pow10(|cut + tail|), Pow10(|cut|))
  {
    hide Pow10, ParseNat;
    ParseAppend(cut, tail);
    ParseBound(tail);
    Pow10Add(|cut|, |tail|);
    CutTail(ParseNat(cut), Pow10(|tail|), ParseNat(tail), Pow10(|cut|));
  }

  lemma ScaleUp(v: nat, k: nat, f: nat)
    requires f >= 1
    ensures IsScaledFloor(v * k, v, f, f * k)
  {
    assert (v * k) * f == v * (f * k);
  }

  lemma CutTail(cut: nat, t: nat, tail: nat, d: nat)
    requires tail < t && d >= 1
    ensures IsScaledFloor(cut, cut * t + tail, d * t, d)
  {
    assert (cut * t + tail) * d == cut * (d * t) + tail * d;
    assert tail * d < t * d;
    assert (cut + 1) * (d * t) == cut * (d * t) + t * d;
  }

  /** Putting the same integer part in front of both sides. */
  lemma WithIntegerPart(i: nat, cut: nat, f: nat, pf: nat, pd: nat)
    requires IsScaledFloor(cut, f, pf, pd)
    ensures IsScaledFloor(i * pd + cut, i * pf + f, pf, pd)
  {
    assert (i * pd + cut) * pf == i * pd * pf + cut * pf;
    assert (i * pf + f) * pd == i * pd * pf + f * pd;
    assert (i * pd + cut + 1) * pf == i * pd * pf + (cut + 1) * pf;
  }

  lemma ToUnitsBounds(s: string, decimals: nat)
    requires IsDecimal(s)
    ensures IsDigits(ToUnits(s, decimals)) && IsDigits(IntegerPart(s) + DecimalPart(s))
    ensures IsScaledFloor(ParseNat(ToUnits(s, decimals)), ParseNat(IntegerPart(s) + DecimalPart(s)),
                          Pow10(|DecimalPart(s)|), Pow10(decimals))
  {
    hide ParseNat, Pow10, PadEnd, StripLeading, Split, IsScaledFloor;
    PartsAreDigits(s);
    var i, f := IntegerPart(s), DecimalPart(s);
    CutFraction(f, decimals);
    var cut := PadEnd(f, decimals)[..decimals];
    StripLeadingKeepsValue(i + cut);
    OrZeroKeepsValue(StripLeading(i + cut));
    ParseAppend(i, cut);
    ParseAppend(i, f);
    WithIntegerPart(ParseNat(i), ParseNat(cut), ParseNat(f), Pow10(|f|), Pow10(decimals));
  }

  lemma OrZeroKeepsValue(s: string)
    requires IsDigits(s)
    ensures IsDigits(OrZero(s)) && ParseNat(OrZero(s)) == ParseNat(s)
  {
    assert "0"[..0] == "";
  }

  /** A product of reals, named so that a proof can do without its arithmetic. */
  function Product(a: real, b: real): real { a * b }

  lemma ScaledFloorIsFloor(n: nat, v: nat, pf: nat, pd: nat)
    requires pf >= 1 && IsScaledFloor(n, v, pf, pd)
    ensures (v as real / pf as real * pd as real).Floor == n
  {
    RatioTimes(v, pf, pd);
    var x := v as real / pf as real * pd as real;
    assert Product(x, pf as real) == (v * pd) as real;
    FloorByScaling(x, n, v * pd, pf);
  }

  lemma FloorByScaling(x: real, n: nat, m: nat, pf: nat)
    requires pf >= 1 && Product(x, pf as real) == m as real
    requires n * pf <= m < (n + 1) * pf
    ensures x.Floor == n
  {
    hide Product;
    ProductAsReal(n, pf);
    ProductAsReal(n + 1, pf);
    assert Product(n as real, pf as real) <= Product(x, pf as real);
    OrderByScaling(n as real, x, pf as real);
    assert Product(x, pf as real) < Product((n + 1) as real, pf as real);
    StrictOrderByScaling(x, (n + 1) as real, pf as real);
  }

  lemma ProductAsReal(a: nat, b: nat)
    ensures Product(a as real, b as real) == (a * b) as real
  {
  }

  lemma RatioTimes(v: nat, pf: nat, pd: nat)
    requires pf >= 1
    ensures v as real / pf as real * pd as real * pf as real == (v * pd) as real
  {
    ProductAsReal(v, pd);
    var q := v as real / pf as real;
    assert q * pf as real == v as real;
    assert q * pd as real * pf as real == q * pf as real * pd as real;
  }

  lemma OrderByScaling(a: real, b: real, p: real)
    requires p > 0.0 && Product(a, p) <= Product(b, p)
    ensures a <= b
  {
  }

  lemma StrictOrderByScaling(a: real, b: real, p: real)
    requires p > 0.0 && Product(a, p) < Product(b, p)
    ensures a < b
  {
  }

  /** For every decimal amount the result is the amount scaled by 10^decimals, rounded down. */
  lemma ToAtomicUnitsIsFloor(s: string, asset: Asset)
    requires IsDecimal(s)
    ensures IsDigits(ToAtomicUnits(s, asset))
    ensures ParseNat(ToAtomicUnits(s, asset)) == (Value(s) * Pow10(AssetDecimals(asset)) as real).Floor
  {
    hide ParseNat, Pow10, Split, ToUnits, IsScaledFloor;
    var d := AssetDecimals(asset);
    ToUnitsBounds(s, d);
    var digits := IntegerPart(s) + DecimalPart(s);
    ScaledFloorIsFloor(ParseNat(ToUnits(s, d)), ParseNat(digits), Pow10(|DecimalPart(s)|), Pow10(d));
  }

  /** A larger amount never converts to fewer units. */
  lemma ToAtomicUnitsIsMonotone(s: string, t: string, asset: Asset)
    requires IsDecimal(s) && IsDecimal(t) && Value(s) <= Value(t)
    ensures IsDigits(ToAtomicUnits(s, asset)) && IsDigits(ToAtomicUnits(t, asset))
    ensures ParseNat(ToAtomicUnits(s, asset)) <= ParseNat(ToAtomicUnits(t, asset))
  {
    hide ParseNat, Pow10, Value, ToAtomicUnits;
    ToAtomicUnitsIsFloor(s, asset);
    ToAtomicUnitsIsFloor(t, asset);
    var p := Pow10(AssetDecimals(asset)) as real;
    ScaleOrder(Value(s), Value(t), p);
    assert ParseNat(ToAtomicUnits(s, asset)) == (Value(s) * p).Floor;
    assert ParseNat(ToAtomicUnits(t, asset)) == (Value(t) * p).Floor;
  }

  lemma ScaleOrder(a: real, b: real, p: real)
    requires p >= 0.0 && a <= b
    ensures (a * p).Floor <= (b * p).Floor
  {
    assert a * p <= b * p;
  }

  // --- FromUnits ---

  /** The padded units, cut into an integer part and exactly `decimals` fractional digits. */
  lemma Padded(a: string, decimals: nat)
    requires IsDigits(a)
    ensures
      var p := PadStart(a, decimals + 1);
      && |p| >= decimals + 1 && IsDigits(p) && ParseNat(p) == ParseNat(a) && StripLeading(p) == StripLeading(a)
  {
    if |a| < decimals + 1 {
      ZerosInFront(decimals + 1 - |a|, a);
      StripLeadingAppend(decimals + 1 - |a|, a);
    }
  }

  lemma TrimmedIsDigits(s: string)
    requires IsDigits(s)
    ensures IsDigits(StripTrailing(s)) && |StripTrailing(s)| <= |s|
    ensures PadEnd(StripTrailing(s), |s|) == s
  {
    StripTrailingIs(s);
    assert forall i :: 0 <= i < |StripTrailing(s)| ==> StripTrailing(s)[i] == s[i];
    assert StripTrailing(s) + Repeat('0', 0) == StripTrailing(s);
  }

  /** The parts of the printed amount, and padding them gives the padded units back. */
  lemma FromUnitsParts(a: string, decimals: nat)
    requires IsDigits(a)
    ensures
      var s, p := FromUnits(a, decimals), PadStart(a, decimals + 1);
      && IsDecimal(s)
      && |PadEnd(DecimalPart(s), decimals)| == decimals
      && IntegerPart(s) + PadEnd(DecimalPart(s), decimals) == p
  {
    hide PadStart, StripTrailing, ParseNat, StripLeading, PadEnd, Split;
    Padded(a, decimals);
    var p := PadStart(a, decimals + 1);
    var integerPart, fraction := p[..|p| - decimals], p[|p| - decimals..];
    TrimmedIsDigits(fraction);
    var trimmed := StripTrailing(fraction);
    SplitAtDot(integerPart, trimmed);
    SplitDigits(integerPart);
    assert p == integerPart + fraction;
  }

  /** What a digit string without leading zeros looks like. */
  predicate Canonical(a: string) {
    a == "0" || (a != "" && a[0] != '0')
  }

  function Normal(a: string): string { OrZero(StripLeading(a)) }

  /**
    Printing units and converting back drops leading zeros and nothing else; so it gives back the same string
    exactly when there were none to drop.
   */
  lemma UnitsRoundTrip(a: string, asset: Asset)
    requires IsDigits(a)
    ensures ToAtomicUnits(FromAtomicUnits(a, asset), asset) == Normal(a)
    ensures ToAtomicUnits(FromAtomicUnits(a, asset), asset) == a <==> Canonical(a)
  {
    hide PadStart, PadEnd, ParseNat, Split, FromUnits;
    var d := AssetDecimals(asset);
    FromUnitsParts(a, d);
    Padded(a, d);
    var padded := PadEnd(DecimalPart(FromUnits(a, d)), d);
    assert padded[..d] == padded;
    NormalIff(a);
  }

  lemma NormalIff(a: string)
    ensures Normal(a) == a <==> Canonical(a)
  {
    StripLeadingIs(a);
    assert "0"[1..] == "";
  }

  /** The printed amount denotes exactly the units divided by 10^decimals. */
  lemma FromAtomicUnitsIsExact(a: string, asset: Asset)
    requires IsDigits(a)
    ensures IsDecimal(FromAtomicUnits(a, asset))
    ensures Value(FromAtomicUnits(a, asset)) * Pow10(AssetDecimals(asset)) as real == ParseNat(a) as real
  {
    hide PadStart, PadEnd, ParseNat, Split, FromUnits, Pow10;
    var d := AssetDecimals(asset);
    var s := FromUnits(a, d);
    FromUnitsParts(a, d);
    Padded(a, d);
    PartsAreDigits(s);
    PaddingScales(IntegerPart(s), DecimalPart(s), d);
  }

  lemma PaddingScales(i: string, f: string, decimals: nat)
    requires IsDigits(i) && IsDigits(f) && |PadEnd(f, decimals)| == decimals
    ensures IsDigits(i + PadEnd(f, decimals))
    ensures Ratio(ParseNat(i + f), |f|) * Pow10(decimals) as real == ParseNat(i + PadEnd(f, decimals)) as real
  {
    hide ParseNat, Pow10;
    var k := decimals - |f|;
    ZerosParse(k);
    assert i + PadEnd(f, decimals) == i + f + Repeat('0', k) by {
      if k == 0 { assert i + f + Repeat('0', 0) == i + f; }
    }
    ParseAppend(i + f, Repeat('0', k));
    Pow10Add(|f|, k);
    RatioScales(ParseNat(i + f), Pow10(|f|), Pow10(k));
  }

  lemma RatioScales(v: nat, pf: nat, pk: nat)
    requires pf >= 1
    ensures v as real / pf as real * (pf * pk) as real == (v * pk) as real
  {
    assert (pf * pk) as real == pf as real * pk as real;
    assert v as real / pf as real * (pf as real * pk as real) == v as real * pk as real;
  }

  /** Converting an amount and printing it again truncates it to the asset's precision: less than one unit is lost. */
  lemma ConversionLosesLessThanOneUnit(s: string, asset: Asset)
    requires IsDecimal(s)
    ensures
      var back := FromAtomicUnits(ToAtomicUnits(s, asset), asset);
      var scale := Pow10(AssetDecimals(asset)) as real;
      && IsDecimal(back)
      && Value(back) * scale == (Value(s) * scale).Floor as real
      && 0.0 <= Value(s) * scale - Value(back) * scale < 1.0
  {
    hide ToAtomicUnits, FromAtomicUnits, Value, Pow10, ParseNat, IsDecimal;
    ToAtomicUnitsIsFloor(s, asset);
    FromAtomicUnitsIsExact(ToAtomicUnits(s, asset), asset);
  }

  /** The units of the assets: yoctoNEAR, and millionths of a dollar for both stablecoins. */
  lemma UnitsOfTheAssets(s: string, asset: Asset)
    requires IsDecimal(s)
    ensures IsDigits(ToAtomicUnits(s, asset))
    ensures asset == NEAR ==> ParseNat(ToAtomicUnits(s, asset)) == (Value(s) * 1000000000000000000000000.0).Floor
    ensures asset != NEAR ==> ParseNat(ToAtomicUnits(s, asset)) == (Value(s) * 1000000.0).Floor
  {
    hide ToAtomicUnits, Value, ParseNat, IsDecimal, Pow10;
    ToAtomicUnitsIsFloor(s, asset);
    Scales();
  }

  lemma Scales()
    ensures Pow10(6) == 1000000 && Pow10(24) == 1000000000000000000000000
  {
    assert Pow10(3) == 1000 by {
      assert Pow10(1) == 10 && Pow10(2) == 100;
    }
    Pow10Add(3, 3);
    Pow10Add(6, 6);
    Pow10Add(12, 12);
  }
}
