/** Digit strings, and the JavaScript string operations the money code is written in. */
module DecimalStrings {

  predicate IsDigit(c: char) { '0' <= c <= '9' }

  predicate IsDigits(s: string) {
    forall i :: 0 <= i < |s| ==> IsDigit(s[i])
  }

  function Pow10(n: nat): (p: nat)
    ensures p >= 1
  {
    if n == 0 then 1 else 10 * Pow10(n - 1)
  }

  /** The number a digit string denotes; the empty string denotes zero. */
  function ParseNat(s: string): nat
    requires IsDigits(s)
  {
    if s == "" then 0 else ParseNat(s[..|s| - 1]) * 10 + (s[|s| - 1] as int - '0' as int)
  }

  function NatToString(n: nat): string {
    if n < 10 then [('0' as int + n) as char] else NatToString(n / 10) + NatToString(n % 10)
  }

  /** `c` repeated `n` times. */
  function Repeat(c: char, n: nat): string {
    if n == 0 then "" else Repeat(c, n - 1) + [c]
  }

  /** String.prototype.padStart with "0". */
  function PadStart(s: string, width: nat): string {
    if |s| >= width then s else Repeat('0', width - |s|) + s
  }

  /** String.prototype.padEnd with "0". */
  function PadEnd(s: string, width: nat): string {
    if |s| >= width then s else s + Repeat('0', width - |s|)
  }

  /** replace(/^0+/, "") */
  function StripLeading(s: string): string {
    if s != "" && s[0] == '0' then StripLeading(s[1..]) else s
  }

  /** replace(/0+$/, "") */
  function StripTrailing(s: string): string {
    if s != "" && s[|s| - 1] == '0' then StripTrailing(s[..|s| - 1]) else s
  }

  /** split(".") */
  function Split(s: string): (parts: seq<string>)
    ensures |parts| >= 1
  {
    if s == "" then [""]
    else
      var rest := Split(s[1..]);
      if s[0] == '.' then [""] + rest else [[s[0]] + rest[0]] + rest[1..]
  }

  // --- Values ---

  /** Digits, optionally followed by a dot and more digits: what the amount validators let through. */
  predicate IsDecimal(s: string) {
    var parts := Split(s);
    && |parts| <= 2
    && (forall i :: 0 <= i < |parts| ==> parts[i] != "" && IsDigits(parts[i]))
  }

  function IntegerPart(s: string): string { Split(s)[0] }

  function DecimalPart(s: string): string { if |Split(s)| > 1 then Split(s)[1] else "" }

  lemma PartsAreDigits(s: string)
    requires IsDecimal(s)
    ensures IsDigits(IntegerPart(s)) && IsDigits(DecimalPart(s))
  {
  }

  function Ratio(numerator: nat, scale: nat): real { numerator as real / Pow10(scale) as real }

  /** The rational number a decimal string denotes. */
  function Value(s: string): real
    requires IsDecimal(s)
  {
    PartsAreDigits(s);
    Ratio(ParseNat(IntegerPart(s) + DecimalPart(s)), |DecimalPart(s)|)
  }

  // --- Powers and parsing ---

  lemma {:induction false} Pow10Add(a: nat, b: nat)
    ensures Pow10(a + b) == Pow10(a) * Pow10(b)
  {
    if a > 0 {
      Pow10Add(a - 1, b);
      assert Pow10(a + b) == 10 * Pow10(a - 1 + b);
    }
  }

  lemma {:induction false} ParseAppend(a: string, b: string)
    requires IsDigits(a) && IsDigits(b)
    ensures ParseNat(a + b) == ParseNat(a) * Pow10(|b|) + ParseNat(b)
  {
    if b == "" {
      assert a + b == a;
    } else {
      var init, last := b[..|b| - 1], b[|b| - 1] as int - '0' as int;
      ParseAppend(a, init);
      assert (a + b)[..|a + b| - 1] == a + init;
      Distribute(ParseNat(a), Pow10(|init|), ParseNat(init), last);
    }
  }

  lemma Distribute(x: nat, p: nat, y: nat, d: int)
    ensures (x * p + y) * 10 + d == x * (10 * p) + (y * 10 + d)
  {
  }

  lemma {:induction false} ParseBound(s: string)
    requires IsDigits(s)
    ensures ParseNat(s) < Pow10(|s|)
  {
    if s != "" {
      ParseBound(s[..|s| - 1]);
    }
  }

  lemma {:induction false} ZerosParse(n: nat)
    ensures IsDigits(Repeat('0', n)) && |Repeat('0', n)| == n && ParseNat(Repeat('0', n)) == 0
  {
    if n > 0 {
      ZerosParse(n - 1);
      assert Repeat('0', n)[..n - 1] == Repeat('0', n - 1);
    }
  }

  lemma ZerosInFront(n: nat, s: string)
    requires IsDigits(s)
    ensures |Repeat('0', n) + s| == n + |s|
    ensures IsDigits(Repeat('0', n) + s) && ParseNat(Repeat('0', n) + s) == ParseNat(s)
  {
    ZerosParse(n);
    ParseAppend(Repeat('0', n), s);
  }

  // --- Stripping ---

  lemma {:induction false} StripLeadingIs(s: string)
    ensures exists n: nat :: s == Repeat('0', n) + StripLeading(s)
    ensures StripLeading(s) != "" ==> StripLeading(s)[0] != '0'
    decreases |s|
  {
    if s != "" && s[0] == '0' {
      StripLeadingIs(s[1..]);
      var n: nat :| s[1..] == Repeat('0', n) + StripLeading(s[1..]);
      ZeroInFront(n);
      assert s == "0" + s[1..];
      assert s == Repeat('0', n + 1) + StripLeading(s);
    } else {
      assert s == Repeat('0', 0) + s;
    }
  }

  lemma {:induction false} ZeroInFront(n: nat)
    ensures Repeat('0', n + 1) == "0" + Repeat('0', n)
  {
    if n > 0 {
      ZeroInFront(n - 1);
    }
  }

  lemma {:induction false} StripTrailingIs(s: string)
    ensures |StripTrailing(s)| <= |s| && s == StripTrailing(s) + Repeat('0', |s| - |StripTrailing(s)|)
    ensures StripTrailing(s) != "" ==> StripTrailing(s)[|StripTrailing(s)| - 1] != '0'
    decreases |s|
  {
    if s != "" && s[|s| - 1] == '0' {
      StripTrailingIs(s[..|s| - 1]);
      assert s == s[..|s| - 1] + "0";
    } else {
      assert s == s + Repeat('0', 0);
    }
  }

  /** Leading zeros do not matter to the value, and a stripped string starts with its first significant digit. */
  lemma StripLeadingKeepsValue(s: string)
    requires IsDigits(s)
    ensures IsDigits(StripLeading(s)) && ParseNat(StripLeading(s)) == ParseNat(s)
  {
    StripLeadingIs(s);
    var n: nat :| s == Repeat('0', n) + StripLeading(s);
    ZerosParse(n);
    assert forall i :: 0 <= i < |StripLeading(s)| ==> StripLeading(s)[i] == s[n + i];
    ParseAppend(Repeat('0', n), StripLeading(s));
  }

  lemma {:induction false} StripLeadingAppend(n: nat, s: string)
    ensures StripLeading(Repeat('0', n) + s) == StripLeading(s)
  {
    hide Repeat;
    ZerosParse(n);
    if n == 0 {
      assert Repeat('0', 0) + s == s;
    } else {
      ZeroInFront(n - 1);
      StripLeadingAppend(n - 1, s);
      assert Repeat('0', n) + s == "0" + (Repeat('0', n - 1) + s);
    }
  }

  // --- Splitting ---

  lemma {:induction false} SplitDigits(s: string)
    requires IsDigits(s)
    ensures Split(s) == [s]
  {
    if s != "" {
      SplitDigits(s[1..]);
      assert [s[0]] + s[1..] == s;
    }
  }

  lemma {:induction false} SplitAtDot(a: string, b: string)
    requires IsDigits(a) && IsDigits(b)
    ensures Split(a + "." + b) == [a, b]
  {
    var s := a + "." + b;
    if a == "" {
      assert s[1..] == b;
      SplitDigits(b);
    } else {
      assert s[1..] == a[1..] + "." + b;
      SplitAtDot(a[1..], b);
      assert [a[0]] + a[1..] == a;
    }
  }

  // --- Printing ---

  lemma {:induction false} PrintParse(n: nat)
    ensures IsDigits(NatToString(n)) && NatToString(n) != "" && ParseNat(NatToString(n)) == n
  {
    if n < 10 {
      assert NatToString(n)[..0] == "";
    } else {
      PrintParse(n / 10);
      PrintParse(n % 10);
      ParseAppend(NatToString(n / 10), NatToString(n % 10));
      assert Pow10(1) == 10;
    }
  }

  lemma {:induction false} PrintLength(n: nat, width: nat)
    requires width >= 1 && n < Pow10(width)
    ensures |NatToString(n)| <= width
  {
    if n >= 10 {
      PrintLength(n / 10, width - 1);
    }
  }

  /** A number printed and padded to `width` digits. */
  lemma PaddedPrint(n: nat, width: nat)
    requires width >= 1 && n < Pow10(width)
    ensures
      var p := PadStart(NatToString(n), width);
      |p| == width && IsDigits(p) && ParseNat(p) == n
  {
    hide NatToString, Repeat, ParseNat, Pow10;
    PrintParse(n);
    PrintLength(n, width);
    ZerosInFront(width - |NatToString(n)|, NatToString(n));
  }
}
