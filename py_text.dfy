/**
  The few Python string built-ins the survey code relies on:
  `str.strip()`, `str(int)` and `int(str)`.
*/
module PyText {
  import opened Wrappers

  /** `c.isspace()` in Python: the Unicode whitespace characters. */
  predicate IsSpace(c: char) {
    || ('\t' <= c <= '\r')                  // \t \n \v \f \r
    || ('\U{1c}' <= c <= '\U{1f}')          // file, group, record, unit separators
    || c == ' '
    || c == '\U{85}' || c == '\U{a0}' || c == '\U{1680}'
    || ('\U{2000}' <= c <= '\U{200a}')
    || c == '\U{2028}' || c == '\U{2029}' || c == '\U{202f}' || c == '\U{205f}'
    || c == '\U{3000}'
  }

  predicate IsDigit(c: char) {
    '0' <= c <= '9'
  }

  /** No whitespace at either end: what `strip()` leaves unchanged. */
  predicate Unpadded(s: string) {
    |s| == 0 || (!IsSpace(s[0]) && !IsSpace(s[|s| - 1]))
  }

  function TrimLeft(s: string): string {
    if |s| > 0 && IsSpace(s[0]) then TrimLeft(s[1..]) else s
  }

  function TrimRight(s: string): string {
    if |s| > 0 && IsSpace(s[|s| - 1]) then TrimRight(s[..|s| - 1]) else s
  }

  /** `TrimLeft` drops a run of whitespace at the front and stops at the first other character. */
  lemma TrimLeftFacts(s: string)
    ensures var r := TrimLeft(s);
      && |r| <= |s| && r == s[|s| - |r|..]
      && (forall i :: 0 <= i < |s| - |r| ==> IsSpace(s[i]))
      && (|r| == 0 || !IsSpace(r[0]))
  {
  }

  /** `TrimRight` drops a run of whitespace at the back and stops at the last other character. */
  lemma TrimRightFacts(s: string)
    ensures var r := TrimRight(s);
      && |r| <= |s| && r == s[..|r|]
      && (forall i :: |r| <= i < |s| ==> IsSpace(s[i]))
      && (|r| == 0 || !IsSpace(r[|r| - 1]))
  {
  }

  /** The number of whitespace characters `strip()` removes at the front. */
  function Leading(s: string): (n: nat)
    ensures n <= |s|
  {
    TrimLeftFacts(s);
    |s| - |TrimLeft(s)|
  }

  /** `s.strip()`: drops the whitespace at both ends and nothing else. */
  function Strip(s: string): (r: string)
    ensures Unpadded(r)
    ensures Unpadded(s) ==> r == s
  {
    var l := TrimLeft(s);
    TrimLeftFacts(s);
    TrimRightFacts(l);
    var r := TrimRight(l);
    assert |r| > 0 ==> r[0] == l[0];
    r
  }

  /** What `strip()` keeps is a slice of the input, with only whitespace around it. */
  lemma StripSlice(s: string)
    ensures var r := Strip(s);
      && Leading(s) + |r| <= |s| && r == s[Leading(s)..Leading(s) + |r|]
      && (forall i :: 0 <= i < Leading(s) ==> IsSpace(s[i]))
      && (forall i :: Leading(s) + |r| <= i < |s| ==> IsSpace(s[i]))
  {
    TrimLeftFacts(s);
    TrimRightFacts(TrimLeft(s));
  }

  /** The characters a blank string is made of: `Strip` leaves nothing. */
  lemma {:induction false} StripBlank(s: string)
    requires forall i :: 0 <= i < |s| ==> IsSpace(s[i])
    ensures Strip(s) == ""
  {
    if |s| > 0 {
      StripBlank(s[1..]);
    }
  }

  function DigitChar(d: nat): char
    requires d < 10
  {
    ('0' as int + d) as char
  }

  function DigitValue(c: char): nat
    requires IsDigit(c)
  {
    (c as int - '0' as int)
  }

  /** `str(n)` for n >= 0: decimal digits, most significant first. */
  function NatToString(n: nat): (r: string)
    ensures |r| >= 1
    ensures forall i :: 0 <= i < |r| ==> IsDigit(r[i])
  {
    if n < 10 then [DigitChar(n)] else NatToString(n / 10) + [DigitChar(n % 10)]
  }

  /** `str(n)` for any Python int. */
  function IntToString(n: int): (r: string)
    ensures |r| >= 1 && Unpadded(r)
    ensures r[0] == '-' <==> n < 0
  {
    var r := if n < 0 then "-" + NatToString(-n) else NatToString(n);
    assert IsDigit(r[|r| - 1]);
    r
  }

  /**
    The digit strings `int()` accepts after the sign: ASCII digits, with
    single underscores allowed between two digits.
  */
  predicate DigitString(s: string) {
    && |s| > 0
    && IsDigit(s[0])
    && IsDigit(s[|s| - 1])
    && (forall i :: 0 <= i < |s| ==> IsDigit(s[i]) || s[i] == '_')
    && (forall i :: 0 <= i < |s| - 1 && s[i] == '_' ==> IsDigit(s[i + 1]))
  }

  /** The value of a digit string, underscores ignored. */
  function DigitsValue(s: string): nat
    requires forall i :: 0 <= i < |s| ==> IsDigit(s[i]) || s[i] == '_'
  {
    if |s| == 0 then 0
    else if s[|s| - 1] == '_' then DigitsValue(s[..|s| - 1])
    else DigitsValue(s[..|s| - 1]) * 10 + DigitValue(s[|s| - 1])
  }

  /**
    `int(s)` for a string: surrounding whitespace, an optional sign and a
    digit string; `None` where Python raises ValueError.
  */
  function ParseInt(s: string): (r: Option<int>)
  {
    var t := Strip(s);
    if |t| > 0 && (t[0] == '-' || t[0] == '+') then
      var digits := t[1..];
      if DigitString(digits) then
        Some(if t[0] == '-' then -(DigitsValue(digits) as int) else DigitsValue(digits))
      else None
    else if DigitString(t) then Some(DigitsValue(t))
    else None
  }

  lemma {:induction false} NatToStringValue(n: nat)
    ensures DigitsValue(NatToString(n)) == n
  {
    var s := NatToString(n);
    if n >= 10 {
      NatToStringValue(n / 10);
      assert s[..|s| - 1] == NatToString(n / 10);
      assert DigitValue(s[|s| - 1]) == n % 10;
    } else {
      assert s[..0] == [];
    }
  }

  /** `int(str(n)) == n`: the decimal text of a number reads back as that number. */
  lemma ParseIntToString(n: int)
    ensures ParseInt(IntToString(n)) == Some(n)
  {
    var r := IntToString(n);
    assert Strip(r) == r;
    if n < 0 {
      NatToStringValue(-n);
      assert r[1..] == NatToString(-n);
    } else {
      NatToStringValue(n);
    }
  }

  /** `int()` rejects text that holds no digit at all, such as a blank string. */
  lemma ParseIntNeedsDigits(s: string)
    requires forall i :: 0 <= i < |s| ==> !IsDigit(s[i])
    ensures ParseInt(s) == None
  {
    var t := Strip(s);
    StripSlice(s);
    if |t| > 0 {
      assert t[|t| - 1] == s[Leading(s) + |t| - 1];
    }
  }
}
