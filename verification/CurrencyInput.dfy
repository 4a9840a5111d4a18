/** The currency field of apps/web/src/PilotApp.tsx: formatting what was typed, and reading the formatted text back. */
module CurrencyInput {
  import opened Options

  predicate IsDigit(c: char) {
    '0' <= c <= '9'
  }

  predicate Digits(s: string) {
    forall i :: 0 <= i < |s| ==> IsDigit(s[i])
  }

  /** Everything but digits and dots is dropped. */
  function Cleaned(value: string): string {
    if |value| == 0 then ""
    else (if IsDigit(value[0]) || value[0] == '.' then [value[0]] else "") + Cleaned(value[1..])
  }

  function WithoutCommas(value: string): string {
    if |value| == 0 then "" else (if value[0] == ',' then "" else [value[0]]) + WithoutCommas(value[1..])
  }

  predicate HasDot(s: string) {
    |s| > 0 && (s[0] == '.' || HasDot(s[1..]))
  }

  /** The text before the first dot. */
  function Whole(s: string): string {
    if |s| == 0 || s[0] == '.' then "" else [s[0]] + Whole(s[1..])
  }

  /** The digits after the first dot; later dots are dropped when the pieces are joined. */
  function AfterDot(s: string): string {
    if |s| == 0 then "" else if s[0] == '.' then DropDots(s[1..]) else AfterDot(s[1..])
  }

  function DropDots(s: string): string {
    if |s| == 0 then "" else (if s[0] == '.' then "" else [s[0]]) + DropDots(s[1..])
  }

  /** Leading zeros go as long as a digit follows. */
  function TrimZeros(s: string): string {
    if |s| > 1 && s[0] == '0' && IsDigit(s[1]) then TrimZeros(s[1..]) else s
  }

  /** A comma after every digit that has a positive multiple of three digits behind it. */
  function Grouped(d: string): string {
    if |d| == 0 then ""
    else [d[0]] + (if |d| > 1 && (|d| - 1) % 3 == 0 then "," else "") + Grouped(d[1..])
  }

  function First(s: string, n: nat): string {
    if n < |s| then s[..n] else s
  }

  function WholeDigits(cleaned: string): string {
    var whole := TrimZeros(Whole(cleaned));
    if |whole| == 0 then "0" else whole
  }

  function FormatCurrencyInput(value: string): string {
    var cleaned := Cleaned(value);
    if |cleaned| == 0 then ""
    else
      var grouped := Grouped(WholeDigits(cleaned));
      if !HasDot(cleaned) then grouped else grouped + "." + First(AfterDot(cleaned), 8)
  }

  // ---------------------------------------------------------------------------------------------
  // The pieces.

  lemma {:induction false} CleanedPieces(value: string)
    ensures var c := Cleaned(value);
            && Digits(Whole(c)) && Digits(AfterDot(c)) && Digits(DropDots(c))
            && (!HasDot(c) ==> c == Whole(c) && AfterDot(c) == "")
  {
    if |value| > 0 {
      CleanedPieces(value[1..]);
      var c, rest := Cleaned(value), Cleaned(value[1..]);
      if IsDigit(value[0]) || value[0] == '.' {
        assert c[0] == value[0] && c[1..] == rest;
      } else {
        assert c == rest;
      }
    }
  }

  lemma {:induction false} TrimmedForm(s: string)
    requires Digits(s)
    ensures var t := TrimZeros(s);
            && Digits(t) && (|s| > 0 ==> |t| > 0)
            && (|t| > 1 ==> t[0] != '0')
            && IntValue(t) == IntValue(s)
  {
    if |s| > 1 && s[0] == '0' {
      TrimmedForm(s[1..]);
      LeadingZero(s);
    }
  }

  lemma {:induction false} CleanedConcat(s: string, t: string)
    ensures Cleaned(s + t) == Cleaned(s) + Cleaned(t)
  {
    if |s| == 0 {
      assert s + t == t;
    } else {
      var kept := if IsDigit(s[0]) || s[0] == '.' then [s[0]] else "";
      assert (s + t)[1..] == s[1..] + t && (s + t)[0] == s[0];
      CleanedConcat(s[1..], t);
      assert kept + (Cleaned(s[1..]) + Cleaned(t)) == kept + Cleaned(s[1..]) + Cleaned(t);
    }
  }

  lemma {:induction false} CleanedDigits(d: string)
    requires Digits(d)
    ensures Cleaned(d) == d && WithoutCommas(d) == d && DropDots(d) == d
  {
    if |d| > 0 {
      CleanedDigits(d[1..]);
    }
  }

  /** Stripping the commas from the groups gives the digits back. */
  lemma {:induction false} GroupsStrip(d: string)
    requires Digits(d)
    ensures Cleaned(Grouped(d)) == d && WithoutCommas(Grouped(d)) == d
  {
    if |d| > 0 {
      GroupsStrip(d[1..]);
      var g, tail := Grouped(d), Grouped(d[1..]);
      if |d| > 1 && (|d| - 1) % 3 == 0 {
        assert g == [d[0]] + ("," + tail);
        assert g[1..] == "," + tail && g[1..][1..] == tail;
      } else {
        assert g == [d[0]] + tail;
        assert g[1..] == tail;
      }
    }
  }

  /** Counting from the right, every fourth character of the groups is a comma, and no other is. */
  lemma {:induction false} CommasEveryThreeDigits(d: string)
    requires Digits(d)
    ensures var g := Grouped(d);
            && |g| == |d| + (if |d| == 0 then 0 else (|d| - 1) / 3)
            && forall j :: 0 <= j < |g| ==> (g[|g| - 1 - j] == ',' <==> j % 4 == 3)
  {
    if |d| > 0 {
      CommasEveryThreeDigits(d[1..]);
      var g, tail := Grouped(d), Grouped(d[1..]);
      var comma := |d| > 1 && (|d| - 1) % 3 == 0;
      assert g == [d[0]] + (if comma then "," else "") + tail;
      hide Grouped;
      GroupLength(|d| - 1);
      CommasFromRight([d[0]] + (if comma then "," else ""), tail);
    }
  }

  /** Putting a digit, and after it a comma exactly at a full group, in front keeps every fourth character a comma. */
  lemma CommasFromRight(front: string, tail: string)
    requires 1 <= |front| <= 2 && front[0] != ','
    requires if |front| == 2 then front[1] == ',' && |tail| % 4 == 3 else |tail| % 4 != 3
    requires forall j :: 0 <= j < |tail| ==> (tail[|tail| - 1 - j] == ',' <==> j % 4 == 3)
    ensures var g := front + tail;
            forall j :: 0 <= j < |g| ==> (g[|g| - 1 - j] == ',' <==> j % 4 == 3)
  {
    var g := front + tail;
    forall j | 0 <= j < |g|
      ensures g[|g| - 1 - j] == ',' <==> j % 4 == 3
    {
      if j < |tail| {
        assert g[|g| - 1 - j] == tail[|tail| - 1 - j];
      }
    }
  }

  /** The groups of n digits take n + (n - 1) / 3 characters; a comma goes in front exactly at a full group. */
  lemma GroupLength(n: nat)
    ensures var length := n + (if n == 0 then 0 else (n - 1) / 3);
            && (n > 0 && n % 3 == 0 ==> length % 4 == 3)
            && (n % 3 != 0 ==> length % 4 != 3)
            && (n > 0 && n % 3 == 0 ==> n / 3 == (n - 1) / 3 + 1)
            && (n % 3 != 0 ==> n / 3 == (n - 1) / 3)
  {
    var k := n / 3;
    assert n == 3 * k + n % 3;
    if n > 0 && n % 3 == 0 {
      assert (n - 1) / 3 == k - 1;
      assert n + (n - 1) / 3 == 4 * (k - 1) + 3;
    } else if n % 3 != 0 {
      assert (n - 1) / 3 == k;
      assert n + (n - 1) / 3 == 4 * k + n % 3;
    }
  }

  lemma {:induction false} NoDot(d: string)
    requires Digits(d)
    ensures Whole(d) == d && AfterDot(d) == "" && !HasDot(d)
  {
    if |d| > 0 {
      NoDot(d[1..]);
    }
  }

  lemma {:induction false} SplitAtDot(d: string, f: string)
    requires Digits(d) && Digits(f)
    ensures Whole(d + "." + f) == d && AfterDot(d + "." + f) == f && HasDot(d + "." + f)
  {
    var s := d + "." + f;
    if |d| == 0 {
      assert s[0] == '.' && s[1..] == f;
      CleanedDigits(f);
    } else {
      SplitAtDot(d[1..], f);
      assert s[0] == d[0] && s[1..] == d[1..] + "." + f;
    }
  }

  lemma WholeDigitsForm(value: string)
    ensures var cleaned := Cleaned(value);
            var d := WholeDigits(cleaned);
            && Digits(d) && |d| > 0 && (|d| > 1 ==> d[0] != '0')
            && IntValue(d) == IntValue(Whole(cleaned))
  {
    CleanedPieces(value);
    TrimmedForm(Whole(Cleaned(value)));
    assert IntValue("0") == 0;
  }

  lemma StripDotted(d: string, f: string)
    requires Digits(d) && Digits(f)
    ensures Cleaned(Grouped(d) + "." + f) == d + "." + f == WithoutCommas(Grouped(d) + "." + f)
  {
    hide Cleaned, WithoutCommas, Grouped, Digits;
    GroupsStrip(d);
    DottedKept(f);
    CleanedConcat(Grouped(d), "." + f);
    WithoutCommasConcat(Grouped(d), "." + f);
    assert Grouped(d) + "." + f == Grouped(d) + ("." + f) && d + "." + f == d + ("." + f);
  }

  lemma DottedKept(f: string)
    requires Digits(f)
    ensures Cleaned("." + f) == "." + f == WithoutCommas("." + f)
  {
    CleanedDigits(f);
    assert ("." + f)[1..] == f;
  }

  /**
   * Stripping the formatted text gives the whole digits without leading zeros, and the fraction digits cut to 8
   * after a dot when one was typed.
   */
  lemma FormatPieces(value: string)
    ensures var cleaned, formatted := Cleaned(value), FormatCurrencyInput(value);
            var d, f := WholeDigits(cleaned), First(AfterDot(cleaned), 8);
            && Digits(d) && |d| > 0 && (|d| > 1 ==> d[0] != '0') && Digits(f) && |f| <= 8
            && IntValue(d) == IntValue(Whole(cleaned))
            && Cleaned(formatted) == WithoutCommas(formatted)
            && Cleaned(formatted) == (if |cleaned| == 0 then "" else if HasDot(cleaned) then d + "." + f else d)
  {
    hide Cleaned, WholeDigits, Grouped, AfterDot, WithoutCommas, HasDot, IntValue;
    var cleaned := Cleaned(value);
    var d, f := WholeDigits(cleaned), First(AfterDot(cleaned), 8);
    WholeDigitsForm(value);
    CleanedPieces(value);
    StripDotted(d, f);
    GroupsStrip(d);
    CleanedDigits("");
  }

  lemma {:induction false} WithoutCommasConcat(s: string, t: string)
    ensures WithoutCommas(s + t) == WithoutCommas(s) + WithoutCommas(t)
  {
    if |s| == 0 {
      assert s + t == t;
    } else {
      assert (s + t)[1..] == s[1..] + t;
      WithoutCommasConcat(s[1..], t);
    }
  }

  /** Formatting formatted text changes nothing, whatever was typed. */
  lemma FormatIsIdempotent(value: string)
    ensures FormatCurrencyInput(FormatCurrencyInput(value)) == FormatCurrencyInput(value)
  {
    var cleaned := Cleaned(value);
    FormatPieces(value);
    if |cleaned| > 0 {
      var d, f := WholeDigits(cleaned), First(AfterDot(cleaned), 8);
      SplitAtDot(d, f);
      NoDot(d);
      TrimmedIsFixed(d);
    }
  }

  lemma TrimmedIsFixed(d: string)
    requires |d| > 1 ==> d[0] != '0'
    ensures TrimZeros(d) == d
  {
  }

  // ---------------------------------------------------------------------------------------------
  // Reading the formatted text.

  function DigitValue(c: char): int {
    (c as int) - ('0' as int)
  }

  function IntValue(s: string): int {
    if |s| == 0 then 0 else 10 * IntValue(s[..|s| - 1]) + DigitValue(s[|s| - 1])
  }

  lemma {:induction false} LeadingZero(s: string)
    requires |s| > 0 && s[0] == '0'
    ensures IntValue(s) == IntValue(s[1..])
  {
    if |s| > 1 {
      LeadingZero(s[..|s| - 1]);
      assert s[..|s| - 1][1..] == s[1..][..|s| - 2];
    }
  }

  /** The value of digits after the decimal point. */
  function FractionValue(f: string): real {
    if |f| == 0 then 0.0 else (DigitValue(f[0]) as real + FractionValue(f[1..])) / 10.0
  }

  /** `Number` on text of digits with at most one dot; anything else is not a number here. */
  function NumberOf(text: string): Option<real> {
    var d := Whole(text);
    if Digits(text) then Some(IntValue(text) as real)
    else if |text| > 1 && text == d + "." + AfterDot(text) && Digits(d) && Digits(AfterDot(text)) then
      Some(IntValue(d) as real + FractionValue(AfterDot(text)))
    else None
  }

  function ParseCurrencyNumber(value: string): Option<real> {
    NumberOf(WithoutCommas(value))
  }

  /** The number typed: the digits before the first dot, and all digits after it. */
  function TypedValue(value: string): real {
    var cleaned := Cleaned(value);
    IntValue(Whole(cleaned)) as real + FractionValue(AfterDot(cleaned))
  }

  /** The number typed, cut to 8 fraction digits. */
  function TruncatedValue(value: string): real {
    var cleaned := Cleaned(value);
    IntValue(Whole(cleaned)) as real + FractionValue(First(AfterDot(cleaned), 8))
  }

  /** Parsing the formatted text gives the number typed, cut to 8 fraction digits. */
  lemma ParseFormatted(value: string)
    ensures ParseCurrencyNumber(FormatCurrencyInput(value)) == Some(TruncatedValue(value))
  {
    hide Cleaned, WholeDigits, WithoutCommas, Whole, AfterDot, FormatCurrencyInput, HasDot;
    var cleaned := Cleaned(value);
    FormatPieces(value);
    CleanedPieces(value);
    var d, f := WholeDigits(cleaned), First(AfterDot(cleaned), 8);
    SplitAtDot(d, f);
    if |cleaned| == 0 {
      EmptyPieces();
    } else if HasDot(cleaned) {
      assert (d + "." + f)[|d|] == '.';
    }
  }

  lemma EmptyPieces()
    ensures Whole("") == "" == AfterDot("") && !HasDot("")
  {
  }

  function Tenth(k: nat): real {
    if k == 0 then 1.0 else Tenth(k - 1) / 10.0
  }

  lemma {:induction false} FractionCut(f: string, k: nat)
    requires Digits(f)
    ensures 0.0 <= FractionValue(f) - FractionValue(First(f, k)) < Tenth(k)
    ensures 0.0 <= FractionValue(f) < 1.0
  {
    if |f| > 0 {
      if k > 0 {
        FractionCut(f[1..], k - 1);
        assert First(f, k) == [f[0]] + First(f[1..], k - 1);
        assert First(f, k)[1..] == First(f[1..], k - 1);
      } else {
        FractionCut(f[1..], 0);
      }
    } else {
      TenthIsPositive(k);
    }
  }

  lemma {:induction false} TenthIsPositive(k: nat)
    ensures Tenth(k) > 0.0
  {
    if k > 0 {
      TenthIsPositive(k - 1);
    }
  }

  /** So the parsed number is never above the number typed and less than one hundred-millionth below it. */
  lemma ParsedIsJustBelowTyped(value: string)
    ensures var parsed := ParseCurrencyNumber(FormatCurrencyInput(value));
            parsed.Some? && 0.0 <= TypedValue(value) - parsed.value < 0.00000001
  {
    ParseFormatted(value);
    CleanedPieces(value);
    FractionCut(AfterDot(Cleaned(value)), 8);
    assert Tenth(4) == 0.0001;
    assert Tenth(8) == 0.00000001;
  }

  // ---------------------------------------------------------------------------------------------
  // What is kept of any text.

  /** Character by character, digits and dots are kept and nothing else. */
  lemma CleanedChar(c: char)
    ensures Cleaned([c]) == if c in "0123456789." then [c] else ""
  {
  }

  lemma {:induction false} DropDotsConcat(s: string, t: string)
    ensures DropDots(s + t) == DropDots(s) + DropDots(t)
  {
    if |s| == 0 {
      assert s + t == t;
    } else {
      var kept := if s[0] == '.' then "" else [s[0]];
      assert (s + t)[1..] == s[1..] + t && (s + t)[0] == s[0];
      DropDotsConcat(s[1..], t);
      assert kept + (DropDots(s[1..]) + DropDots(t)) == kept + DropDots(s[1..]) + DropDots(t);
    }
  }

  /** The fraction is everything after the first dot, later dots left out. */
  lemma {:induction false} FractionIsRest(d: string, rest: string)
    requires Digits(d)
    ensures Whole(d + "." + rest) == d && AfterDot(d + "." + rest) == DropDots(rest) && HasDot(d + "." + rest)
  {
    var s := d + "." + rest;
    if |d| == 0 {
      assert s[0] == '.' && s[1..] == rest;
    } else {
      FractionIsRest(d[1..], rest);
      assert s[0] == d[0] && s[1..] == d[1..] + "." + rest;
    }
  }

  lemma DropDotsChar(c: char)
    ensures DropDots([c]) == if c == '.' then "" else [c]
  {
  }
}
