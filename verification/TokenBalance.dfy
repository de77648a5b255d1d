/** The truncated balance shown for six-decimal tokens, and the withdrawal check that relies on it. */
module TokenBalance {
  import opened DecimalStrings
  import opened AtomicUnits

  const UNIT := 1000000

  /** The formatting in getTokenBalance for a token with six decimals. */
  function DisplayBalance(raw: nat): string {
    var fractional := PadStart(NatToString(raw % UNIT), 6);
    var trimmed := OrZero(StripTrailing(fractional));
    if trimmed == "0" then NatToString(raw / UNIT)
    else NatToString(raw / UNIT) + "." + (if |trimmed| < 2 then trimmed else trimmed[..2])
  }

  datatype Verdict = Accepted | Refused(reason: string)

  /** checkAvailableBalance for a token; amounts are compared as exact rationals. */
  function CheckTokenBalance(raw: nat, amount: string, availableNear: real): Verdict
    requires IsDecimal(amount)
  {
    DisplayIsCents(raw);
    if Value(DisplayBalance(raw)) < Value(amount) then Refused("Insufficient balance")
    else if availableNear < 0.01 then Refused("Insufficient NEAR for transaction fees")
    else Accepted
  }

  /** The first two of six fractional digits, with trailing zeros dropped, denote the same hundredths. */
  lemma TwoDigits(f: string)
    requires IsDigits(f) && |f| == 6
    ensures
      var t := StripTrailing(f);
      var shown := if |t| < 2 then t else t[..2];
      && IsDigits(shown) && |shown| <= 2 && PadEnd(shown, 2) == f[..2]
  {
    hide StripTrailing, PadEnd, Repeat;
    StripTrailingIs(f);
    var t := StripTrailing(f);
    assert forall i :: 0 <= i < |t| ==> t[i] == f[i];
    if |t| < 2 {
      ZerosParse(6 - |t|);
      ShortTail(f, t);
    } else {
      PaddedEnd(t[..2], 2);
    }
  }

  /** Where only zeros follow, padding gives them back. */
  lemma ShortTail(f: string, t: string)
    requires |f| == 6 && |t| < 2 && f == t + Repeat('0', 6 - |t|)
    ensures PadEnd(t, 2) == f[..2]
  {
    hide Repeat, PadEnd;
    ZeroAt(6 - |t|);
    ZeroAt(2 - |t|);
    PaddedEnd(t, 2);
  }

  lemma PaddedEnd(s: string, width: nat)
    ensures PadEnd(s, width) == if |s| >= width then s else s + Repeat('0', width - |s|)
  {
  }

  lemma {:induction false} ZeroAt(n: nat)
    ensures |Repeat('0', n)| == n
    ensures forall i :: 0 <= i < n ==> Repeat('0', n)[i] == '0'
  {
    if n > 0 {
      ZeroAt(n - 1);
    }
  }

  /** Six digits: the first two are the hundredths. */
  lemma Hundredths(f: string)
    requires IsDigits(f) && |f| == 6
    ensures ParseNat(f[..2]) == ParseNat(f) / 10000
  {
    hide ParseNat;
    assert f == f[..2] + f[2..];
    ParseAppend(f[..2], f[2..]);
    ParseBound(f[2..]);
    PowersOfTen();
  }

  lemma PowersOfTen()
    ensures Pow10(2) == 100 && Pow10(4) == 10000 && Pow10(6) == UNIT
  {
    assert Pow10(2) == 10 * Pow10(1) && Pow10(3) == 10 * Pow10(2);
    assert Pow10(5) == 10 * Pow10(4) && Pow10(6) == 10 * Pow10(5);
  }

  /** The displayed balance is the raw balance truncated to hundredths of a token. */
  lemma DisplayIsCents(raw: nat)
    ensures IsDecimal(DisplayBalance(raw))
    ensures Value(DisplayBalance(raw)) * 100.0 == (raw / 10000) as real
  {
    hide ParseNat, NatToString, Pow10, PadStart, PadEnd, StripTrailing, Split, Repeat;
    PowersOfTen();
    var whole, f := NatToString(raw / UNIT), PadStart(NatToString(raw % UNIT), 6);
    PrintParse(raw / UNIT);
    PaddedPrint(raw % UNIT, 6);
    TwoDigits(f);
    Hundredths(f);
    var t := StripTrailing(f);
    var shown := if |t| < 2 then t else t[..2];
    NeverShowsZero(f);
    SplitDigits(whole);
    SplitAtDot(whole, shown);
    PaddingScales(whole, shown, 2);
    ParseAppend(whole, f[..2]);
    assert whole + "" == whole;
    assert (raw / UNIT) * 100 + (raw % UNIT) / 10000 == raw / 10000;
  }

  lemma NeverShowsZero(f: string)
    ensures StripTrailing(f) != "0"
  {
    StripTrailingIs(f);
  }

  /** So it never exceeds the true balance, and is less than 0.01 below it. */
  lemma DisplayBounds(raw: nat)
    ensures IsDecimal(DisplayBalance(raw))
    ensures Value(DisplayBalance(raw)) * UNIT as real <= raw as real
    ensures raw as real < (Value(DisplayBalance(raw)) + 0.01) * UNIT as real
  {
    hide DisplayBalance, Value, IsDecimal;
    DisplayIsCents(raw);
  }

  /** When the check accepts an amount, the raw balance covers the units that will be transferred. */
  lemma AcceptedIsCovered(raw: nat, amount: string, asset: Asset, availableNear: real)
    requires IsDecimal(amount) && asset != NEAR
    requires CheckTokenBalance(raw, amount, availableNear) == Accepted
    ensures IsDigits(ToAtomicUnits(amount, asset)) && ParseNat(ToAtomicUnits(amount, asset)) <= raw
  {
    hide DisplayBalance, Value, IsDecimal, ParseNat, ToAtomicUnits, Pow10;
    DisplayBounds(raw);
    ToAtomicUnitsIsFloor(amount, asset);
    PowersOfTen();
  }

  /** Conversely an amount is refused only for missing fees or when less than 0.01 would remain. */
  lemma RefusedOnlyNearTheBalance(raw: nat, amount: string, availableNear: real)
    requires IsDecimal(amount)
    requires CheckTokenBalance(raw, amount, availableNear).Refused?
    ensures availableNear < 0.01 || Value(amount) > raw as real / UNIT as real - 0.01
  {
    hide DisplayBalance, Value, IsDecimal;
    DisplayBounds(raw);
  }

  /**
    What the check answers, in whole hundredths of a token: it accepts up to and including the hundredths the balance
    has, if 0.01 NEAR is there for fees, and says what is missing, the balance first.
   */
  lemma CheckCountsHundredths(raw: nat, amount: string, availableNear: real)
    requires IsDecimal(amount)
    ensures
      var verdict := CheckTokenBalance(raw, amount, availableNear);
      var covered := Value(amount) * 100.0 <= (raw / 10000) as real;
      && (verdict == Accepted <==> covered && availableNear >= 0.01)
      && (verdict == Refused("Insufficient balance") <==> !covered)
      && (verdict == Refused("Insufficient NEAR for transaction fees") <==> covered && availableNear < 0.01)
  {
    hide DisplayBalance, Value, IsDecimal;
    DisplayIsCents(raw);
  }
}
