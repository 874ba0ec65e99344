/** Character classes, whitespace stripping and decimal conversion, as the
    generator gets them from Python's `str`: `str.rstrip`, `str(n)` and
    `int(s)`. */
module Text {
  import opened Wrappers

  /** Python's `str.isspace`: the characters that `rstrip()` removes and
      that the regular-expression class `\s` matches. */
  predicate IsSpace(c: char) {
    || ('\t' <= c <= '\r')
    || ('\U{1C}' <= c <= ' ')
    || c == '\U{85}' || c == '\U{A0}' || c == '\U{1680}'
    || ('\U{2000}' <= c <= '\U{200A}')
    || c == '\U{2028}' || c == '\U{2029}' || c == '\U{202F}'
    || c == '\U{205F}' || c == '\U{3000}'
  }

  /** `s.rstrip()`: the longest prefix of `s` that does not end in
      whitespace. */
  function RStrip(s: string): (r: string)
    ensures r <= s
    ensures r == [] || !IsSpace(r[|r| - 1])
    ensures forall k :: |r| <= k < |s| ==> IsSpace(s[k])
  {
    if s != [] && IsSpace(s[|s| - 1]) then RStrip(s[..|s| - 1]) else s
  }

  /** `s.lstrip()`: the longest suffix of `s` that does not begin with
      whitespace. */
  function LStrip(s: string): (r: string)
    ensures |r| <= |s| && r == s[|s| - |r|..]
    ensures r == [] || !IsSpace(r[0])
    ensures forall k :: 0 <= k < |s| - |r| ==> IsSpace(s[k])
  {
    if s != [] && IsSpace(s[0]) then LStrip(s[1..]) else s
  }

  predicate IsDigit(c: char) {
    '0' <= c <= '9'
  }

  predicate AllDigits(s: string) {
    forall k :: 0 <= k < |s| ==> IsDigit(s[k])
  }

  function DigitChar(d: nat): (c: char)
    requires d < 10
    ensures IsDigit(c) && c as int - '0' as int == d
  {
    (('0' as int) + d) as char
  }

  /** The value of a string of decimal digits. */
  function DigitsValue(s: string): nat
    requires AllDigits(s)
  {
    if s == [] then 0 else DigitsValue(s[..|s| - 1]) * 10 + (s[|s| - 1] as int - '0' as int)
  }

  /** `str(n)` for a non-negative integer. */
  function NatToString(n: nat): (r: string)
    ensures r != [] && AllDigits(r)
    ensures r[0] == '0' ==> n == 0
  {
    if n < 10 then [DigitChar(n)] else NatToString(n / 10) + [DigitChar(n % 10)]
  }

  /** `str(i)` for any integer. */
  function IntToString(i: int): (r: string)
    ensures r != []
  {
    if i < 0 then "-" + NatToString(-i) else NatToString(i)
  }

  lemma {:induction false} NatToStringValue(n: nat)
    ensures DigitsValue(NatToString(n)) == n
  {
    if n >= 10 {
      var s := NatToString(n);
      assert s[..|s| - 1] == NatToString(n / 10);
      NatToStringValue(n / 10);
    }
  }

  /** Distinct numbers print differently. */
  lemma NatToStringInjective(m: nat, n: nat)
    ensures NatToString(m) == NatToString(n) ==> m == n
  {
    NatToStringValue(m);
    NatToStringValue(n);
  }

  /** Decimal digits in which single underscores may separate two digits,
      as in `1_000`. */
  predicate Numeral(s: string) {
    && s != [] && IsDigit(s[0]) && IsDigit(s[|s| - 1])
    && (forall k :: 0 <= k < |s| ==> IsDigit(s[k]) || s[k] == '_')
    && (forall k :: 0 <= k < |s| - 1 && s[k] == '_' ==> s[k + 1] != '_')
  }

  /** The digits of `s`, underscores dropped. */
  function Digits(s: string): (r: string)
    requires forall k :: 0 <= k < |s| ==> IsDigit(s[k]) || s[k] == '_'
    ensures AllDigits(r) && |r| <= |s|
    ensures AllDigits(s) ==> r == s
  {
    if s == [] then []
    else if s[|s| - 1] == '_' then Digits(s[..|s| - 1])
    else Digits(s[..|s| - 1]) + [s[|s| - 1]]
  }

  /** What `int()` accepts once surrounding whitespace is gone: an
      optional sign, then a numeral. */
  predicate IntLiteral(t: string) {
    Numeral(t) || (t != [] && (t[0] == '-' || t[0] == '+') && Numeral(t[1..]))
  }

  /** `int(s)` for a string: surrounding whitespace, an optional sign and a
      numeral of ASCII digits.  `None` where Python raises `ValueError`. */
  function ParseInt(s: string): (r: Option<int>)
    ensures r.Some? <==> IntLiteral(RStrip(LStrip(s)))
    ensures r.Some? && Numeral(RStrip(LStrip(s))) ==>
              r.value == DigitsValue(Digits(RStrip(LStrip(s))))
    ensures r.Some? && RStrip(LStrip(s))[0] == '-' ==>
              r.value == -(DigitsValue(Digits(RStrip(LStrip(s))[1..])) as int)
    ensures r.Some? && RStrip(LStrip(s))[0] == '+' ==>
              r.value == DigitsValue(Digits(RStrip(LStrip(s))[1..]))
  {
    var t := RStrip(LStrip(s));
    if t == [] then None
    else if t[0] == '-' || t[0] == '+' then
      var ds := t[1..];
      if Numeral(ds) then
        Some(if t[0] == '-' then -(DigitsValue(Digits(ds)) as int) else DigitsValue(Digits(ds)))
      else None
    else if Numeral(t) then Some(DigitsValue(Digits(t)))
    else None
  }

  /** Underscores between digits are ignored: `int("1_0") == 10`. */
  lemma UnderscoreIgnored()
    ensures ParseInt("1_0") == Some(10)
  {
    var s := "1_0";
    NoSpaceStripped(s);
    assert Numeral(s) by {
      assert s[0] == '1' && s[1] == '_' && s[2] == '0';
    }
    assert Digits(s) == "10" by {
      assert s[..2] == "1_" && "1_"[..1] == "1" && "1"[..0] == [];
    }
    assert DigitsValue("10") == 10 by {
      assert "10"[..1] == "1" && "1"[..0] == [];
    }
  }

  /** A doubled, leading or trailing underscore is refused. */
  lemma UnderscoreMisplaced()
    ensures ParseInt("1__0").None? && ParseInt("_1").None? && ParseInt("1_").None?
  {
    NoSpaceStripped("1__0");
    assert "1__0"[1] == '_' && "1__0"[2] == '_';
    NoSpaceStripped("_1");
    NoSpaceStripped("1_");
  }

  /** Text that neither begins nor ends with whitespace is unchanged by
      stripping. */
  lemma NoSpaceStripped(s: string)
    requires s != [] && !IsSpace(s[0]) && !IsSpace(s[|s| - 1])
    ensures RStrip(LStrip(s)) == s
  {
  }

  /** A run of digits is a numeral. */
  lemma DigitsNumeral(s: string)
    requires s != [] && AllDigits(s)
    ensures Numeral(s) && Digits(s) == s
  {
  }

  lemma DigitsAreNotSpace(s: string)
    requires AllDigits(s)
    ensures forall k :: 0 <= k < |s| ==> !IsSpace(s[k])
  {
  }

  /** `int(str(i)) == i`: reading back a printed integer gives it back. */
  lemma ParseIntToString(i: int)
    ensures ParseInt(IntToString(i)) == Some(i)
  {
    var s := IntToString(i);
    var n: nat := if i < 0 then -i else i;
    NatToStringValue(n);
    DigitsAreNotSpace(NatToString(n));
    DigitsNumeral(NatToString(n));
    assert !IsSpace(s[0]) && !IsSpace(s[|s| - 1]);
    assert LStrip(s) == s;
    assert RStrip(s) == s;
    if i < 0 {
      assert s[1..] == NatToString(n);
    }
  }
}
