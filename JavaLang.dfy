/**
 * The pieces of the Java standard library whose behaviour the crime statistics
 * code depends on: 32-bit `int` arithmetic, `Integer.parseInt` (radix 10) and
 * `String.split(",")`.
 */
module JavaLang {
  import opened Wrappers

  const INT_MIN: int := -0x8000_0000
  const INT_MAX: int := 0x7fff_ffff

  predicate IsInt32(x: int) {
    INT_MIN <= x <= INT_MAX
  }

  /** The value a Java `int` expression yields for the mathematical value `x`: two's-complement wrap-around. */
  function Wrap32(x: int): (r: int)
    ensures IsInt32(r)
    ensures (r - x) % 0x1_0000_0000 == 0
    ensures IsInt32(x) ==> r == x
  {
    (x - INT_MIN) % 0x1_0000_0000 + INT_MIN
  }

  // ---------------------------------------------------------------------------
  // Integer.parseInt

  predicate IsDigit(c: char) {
    '0' <= c <= '9'
  }

  predicate AllDigits(s: string) {
    forall j :: 0 <= j < |s| ==> IsDigit(s[j])
  }

  /** The value of a run of decimal digits, most significant first; 0 for the empty run. */
  function DigitsValue(s: string): nat
    requires AllDigits(s)
  {
    if s == [] then 0
    else DigitsValue(s[..|s| - 1]) * 10 + (s[|s| - 1] as int - '0' as int)
  }

  /**
   * `Integer.parseInt(s)`: an optional leading `-` or `+` followed by at least one
   * decimal digit, with a value inside the `int` range; anything else (the empty
   * string, a lone sign, surrounding blanks, a decimal point) is a
   * `NumberFormatException`, here `None`. No whitespace is trimmed.
   */
  function ParseInt(s: string): (r: Option<int>)
    ensures r.Some? ==> IsInt32(r.value)
    ensures r.Some? ==> |s| > 0 && IsDigit(s[|s| - 1]) && forall j :: 0 <= j < |s| ==> IsDigit(s[j]) || (j == 0 && (s[j] == '-' || s[j] == '+'))
  {
    if |s| == 0 then None
    else
      var negative := s[0] == '-';
      var body := if s[0] == '-' || s[0] == '+' then s[1..] else s;
      if |body| == 0 || !AllDigits(body) then None
      else
        var magnitude: int := DigitsValue(body);
        var v := if negative then -magnitude else magnitude;
        if IsInt32(v) then Some(v) else None
  }

  function DigitChar(d: nat): (c: char)
    requires d < 10
    ensures IsDigit(c) && c as int - '0' as int == d
  {
    ('0' as int + d) as char
  }

  /** Decimal digits of `n`, most significant first, without leading zeros. */
  function NatToString(n: nat): (s: string)
    ensures |s| > 0
  {
    if n < 10 then [DigitChar(n)] else NatToString(n / 10) + [DigitChar(n % 10)]
  }

  /** `Integer.toString(n)`. */
  function IntToString(n: int): string {
    if n < 0 then "-" + NatToString(-n) else NatToString(n)
  }

  lemma {:induction false} NatToStringDigits(n: nat)
    ensures AllDigits(NatToString(n)) && DigitsValue(NatToString(n)) == n
  {
    if n >= 10 {
      NatToStringDigits(n / 10);
      var s := NatToString(n);
      assert s[..|s| - 1] == NatToString(n / 10);
    }
  }

  /** Every `int` survives `Integer.toString` followed by `Integer.parseInt`. */
  lemma ParseIntToString(n: int)
    requires IsInt32(n)
    ensures ParseInt(IntToString(n)) == Some(n)
  {
    NatToStringDigits(if n < 0 then -n else n);
    if n < 0 {
      assert IntToString(n)[1..] == NatToString(-n);
    } else {
      assert IsDigit(NatToString(n)[0]);
    }
  }

  // ---------------------------------------------------------------------------
  // String.split(",")

  /** Every piece between commas, empty pieces included: one more piece than there are commas. */
  function SplitAll(s: string): (parts: seq<string>)
    ensures |parts| > 0
    ensures forall k :: 0 <= k < |parts| ==> ',' !in parts[k]
    ensures JoinWithComma(parts) == s
  {
    if ',' !in s then [s]
    else
      var i := IndexOfComma(s);
      [s[..i]] + SplitAll(s[i + 1..])
  }

  /** The position of the first comma in `s`. */
  function IndexOfComma(s: string): (i: nat)
    requires ',' in s
    ensures i < |s| && s[i] == ',' && ',' !in s[..i]
  {
    if s[0] == ',' then 0
    else
      assert s == [s[0]] + s[1..];
      var i := IndexOfComma(s[1..]) + 1;
      assert s[..i] == [s[0]] + s[1..][..i - 1];
      i
  }

  /** The inverse of `SplitAll`. */
  function JoinWithComma(parts: seq<string>): string
    requires |parts| > 0
  {
    if |parts| == 1 then parts[0] else parts[0] + "," + JoinWithComma(parts[1..])
  }

  /** `parts` with its trailing empty strings removed. */
  function DropTrailingEmpty(parts: seq<string>): (r: seq<string>)
    ensures |r| <= |parts| && r == parts[..|r|]
    ensures forall k :: |r| <= k < |parts| ==> parts[k] == ""
    ensures |r| == 0 || r[|r| - 1] != ""
  {
    if |parts| == 0 || parts[|parts| - 1] != "" then parts
    else DropTrailingEmpty(parts[..|parts| - 1])
  }

  /**
   * Java's `s.split(",")`: a string without a comma comes back whole (even the
   * empty string); otherwise the pieces between commas, with the trailing empty
   * pieces dropped, so `"a,,"` yields `["a"]` and `","` yields no piece at all.
   */
  function Split(s: string): (r: seq<string>)
    ensures forall k :: 0 <= k < |r| ==> ',' !in r[k]
    ensures ',' !in s ==> r == [s]
    ensures ',' in s ==> |r| <= |SplitAll(s)| && r == SplitAll(s)[..|r|] && (|r| == 0 || r[|r| - 1] != "")
    ensures ',' in s ==> forall k :: |r| <= k < |SplitAll(s)| ==> SplitAll(s)[k] == ""
  {
    if ',' !in s then [s] else DropTrailingEmpty(SplitAll(s))
  }

  /**
   * The converse of `ParseInt`'s contract: an optional sign followed by at least one
   * digit is accepted exactly when its value is in the `int` range, and then it is
   * that value. Leading zeros and a `+` are allowed.
   */
  lemma ParseIntSignedDigits(sign: string, d: string)
    requires sign == "" || sign == "-" || sign == "+"
    requires |d| > 0 && AllDigits(d)
    ensures
      var v := if sign == "-" then -(DigitsValue(d) as int) else DigitsValue(d);
      ParseInt(sign + d) == if IsInt32(v) then Some(v) else None
  {
    var s := sign + d;
    if sign == "" {
      assert s == d;
      assert IsDigit(d[0]);
      assert s[0] != '-' && s[0] != '+';
    } else {
      assert s[1..] == d;
      assert s[0] == sign[0];
      assert (s[0] == '-') == (sign == "-");
    }
  }

  /** Leading zeros are accepted and do not change the value. */
  lemma ParseIntLeadingZeros()
    ensures ParseInt("007") == Some(7) && ParseInt("+12") == Some(12)
  {
    ParseIntSignedDigits("", "007");
    assert "007"[..2] == "00" && "00"[..1] == "0" && "0"[..0] == [];
    ParseIntSignedDigits("+", "12");
    assert "+" + "12" == "+12";
    assert "12"[..1] == "1" && "1"[..0] == [];
  }

  /** The digits of 2^31, one past the largest `int`. */
  lemma DigitsOfTwoToThe31()
    ensures AllDigits("2147483648") && DigitsValue("2147483648") == INT_MAX + 1
  {
    assert "2"[..0] == "";
    assert DigitsValue("2") == 2;
    assert "21"[..1] == "2";
    assert DigitsValue("21") == 21;
    assert "214"[..2] == "21";
    assert DigitsValue("214") == 214;
    assert "2147"[..3] == "214";
    assert DigitsValue("2147") == 2147;
    assert "21474"[..4] == "2147";
    assert DigitsValue("21474") == 21474;
    assert "214748"[..5] == "21474";
    assert DigitsValue("214748") == 214748;
    assert "2147483"[..6] == "214748";
    assert DigitsValue("2147483") == 2147483;
    assert "21474836"[..7] == "2147483";
    assert DigitsValue("21474836") == 21474836;
    assert "214748364"[..8] == "21474836";
    assert DigitsValue("214748364") == 214748364;
    assert "2147483648"[..9] == "214748364";
    assert DigitsValue("2147483648") == 2147483648;
  }

  /** One past either end of the `int` range is a format error. */
  lemma ParseIntOutOfRange()
    ensures ParseInt("2147483648") == None && ParseInt("-2147483649") == None
  {
    DigitsOfTwoToThe31();
    ParseIntSignedDigits("", "2147483648");
    assert "2147483649"[..9] == "214748364" && "2147483648"[..9] == "214748364";
    ParseIntSignedDigits("-", "2147483649");
    assert "-" + "2147483649" == "-2147483649";
  }

  /** A sign is accepted in front of the digits, but not on its own. */
  lemma ParseIntSigns()
    ensures ParseInt("+7") == Some(7) && ParseInt("-0") == Some(0)
    ensures ParseInt("-") == None && ParseInt("+") == None
  {
    assert "+7"[1..] == "7" && "7"[..0] == [];
    assert "-0"[1..] == "0" && "0"[..0] == [];
  }

  /** Blanks and decimal points are format errors: nothing is trimmed or rounded. */
  lemma ParseIntRejects()
    ensures ParseInt("") == None && ParseInt(" 1") == None && ParseInt("1.5") == None
  {
  }

  /** Trailing empty pieces are dropped. */
  lemma SplitDropsTrailingEmpty()
    ensures Split("a,,") == ["a"]
  {
    assert IndexOfComma("a,,") == 1 && "a,,"[..1] == "a" && "a,,"[2..] == ",";
    assert IndexOfComma(",") == 0 && ","[..0] == "" && ","[1..] == "";
    assert SplitAll("a,,") == ["a", "", ""];
    assert ["a", "", ""][..2] == ["a", ""] && ["a", ""][..1] == ["a"];
  }

  /** A leading empty piece is kept, and a lone comma yields no piece at all. */
  lemma SplitKeepsLeadingEmpty()
    ensures Split(",a") == ["", "a"] && Split(",") == []
  {
    assert IndexOfComma(",a") == 0 && ",a"[..0] == "" && ",a"[1..] == "a";
    assert IndexOfComma(",") == 0 && ","[..0] == "" && ","[1..] == "";
    assert SplitAll(",") == ["", ""];
    assert ["", ""][..1] == [""] && [""][..0] == [];
  }
}
