/**
 The few ECMAScript string built-ins the bot relies on: `String.prototype.trim`,
 `startsWith`, the regular-expression classes `\s` and `\d`, and `Number` applied
 to a run of decimal digits.
 */
module JsStrings {

  /** The single white-space code points of ECMAScript (WhiteSpace and LineTerminator) outside U+2000..U+200A. */
  const SPACE_CHARS: set<char> := {
    '\t', '\n', '\U{B}', '\U{C}', '\r', ' ', '\U{A0}', '\U{1680}',
    '\U{2028}', '\U{2029}', '\U{202F}', '\U{205F}', '\U{3000}', '\U{FEFF}' }

  /** ECMAScript WhiteSpace or LineTerminator: what `trim` strips and `\s` matches. */
  predicate IsSpace(c: char) {
    c in SPACE_CHARS || ('\U{2000}' <= c <= '\U{200A}')
  }

  /** The regular-expression class `\d`: ASCII decimal digits only. */
  predicate IsDigit(c: char) {
    '0' <= c <= '9'
  }

  lemma DigitIsNotSpace(c: char)
    requires IsDigit(c)
    ensures !IsSpace(c)
  {
  }

  predicate AllDigits(s: string) {
    forall i :: 0 <= i < |s| ==> IsDigit(s[i])
  }

  predicate StartsWith(s: string, prefix: string) {
    |prefix| <= |s| && s[..|prefix|] == prefix
  }

  /** `s` with its leading white space removed. */
  function TrimStart(s: string): (r: string)
    ensures |r| <= |s| && r == s[|s| - |r|..]
    ensures r == [] || !IsSpace(r[0])
    ensures forall i :: 0 <= i < |s| - |r| ==> IsSpace(s[i])
  {
    if |s| > 0 && IsSpace(s[0]) then TrimStart(s[1..]) else s
  }

  /** `s` with its trailing white space removed. */
  function TrimEnd(s: string): (r: string)
    ensures |r| <= |s| && r == s[..|r|]
    ensures r == [] || !IsSpace(r[|r| - 1])
    ensures forall i :: |r| <= i < |s| ==> IsSpace(s[i])
  {
    if |s| > 0 && IsSpace(s[|s| - 1]) then TrimEnd(s[..|s| - 1]) else s
  }


  /**
   `r` is what trimming `s` must give when `k` leading characters are cut: the
   slice of `s` starting at `k`, with only white space cut on either side and
   no white space left at either end.
   */
  predicate IsTrimOf(s: string, r: string, k: nat) {
    && k + |r| <= |s|
    && r == s[k..k + |r|]
    && (forall i :: 0 <= i < k ==> IsSpace(s[i]))
    && (forall i :: k + |r| <= i < |s| ==> IsSpace(s[i]))
    && (r == [] || (!IsSpace(r[0]) && !IsSpace(r[|r| - 1])))
  }

  /**
   `String.prototype.trim`: never longer than `s`, and with no white space left
   at either end (`TrimIsSpaceFreeInfix` says which slice of `s` it is).
   */
  function Trim(s: string): (r: string)
    ensures |r| <= |s|
    ensures r == [] || (!IsSpace(r[0]) && !IsSpace(r[|r| - 1]))
  {
    var t := TrimStart(s);
    var r := TrimEnd(t);
    assert r == [] || r[0] == t[0];
    r
  }

  /** What `trim` returns is the space-free slice between the white space it cuts off. */
  lemma TrimIsSpaceFreeInfix(s: string)
    ensures IsTrimOf(s, Trim(s), |s| - |TrimStart(s)|)
  {
    TrimSlice(s, Trim(s), |s| - |TrimStart(s)|);
  }

  lemma TrimSlice(s: string, r: string, k: nat)
    requires r == TrimEnd(TrimStart(s)) && k == |s| - |TrimStart(s)|
    ensures IsTrimOf(s, r, k)
  {
    var t := TrimStart(s);
    TrimEndTail(s, k, t, r);
    if r != [] {
      assert r[0] == t[0];
    }
  }

  lemma TrimEndTail(s: string, k: nat, t: string, r: string)
    requires k <= |s| && t == s[k..]
    requires r == TrimEnd(t)
    ensures k + |r| <= |s| && r == s[k..k + |r|]
    ensures forall i :: k + |r| <= i < |s| ==> IsSpace(s[i])
  {
    forall i | k + |r| <= i < |s|
      ensures IsSpace(s[i])
    {
      assert s[i] == t[i - k];
    }
  }

  /** Trimming twice is trimming once. */
  lemma TrimIdempotent(s: string)
    ensures Trim(Trim(s)) == Trim(s)
  {
    TrimIsSpaceFreeInfix(s);
    var r := Trim(s);
    assert r == [] || (!IsSpace(r[0]) && !IsSpace(r[|r| - 1]));
    assert TrimStart(r) == r;
    assert TrimEnd(r) == r;
  }

  /** The trimmed text is empty exactly when every character of `s` is white space. */
  lemma TrimEmptyIffBlank(s: string)
    ensures Trim(s) == [] <==> forall i :: 0 <= i < |s| ==> IsSpace(s[i])
  {
    TrimIsSpaceFreeInfix(s);
    var k := |s| - |TrimStart(s)|;
    if Trim(s) != [] {
      assert s[k] == Trim(s)[0];
    }
  }

  /** The value of a decimal digit. */
  function DigitValue(c: char): (d: nat)
    requires IsDigit(c)
    ensures d < 10
  {
    (c as int) - ('0' as int)
  }

  /** The digit character for a value below ten. */
  function DigitChar(d: nat): (c: char)
    requires d < 10
    ensures IsDigit(c) && DigitValue(c) == d
  {
    (('0' as int) + d) as char
  }

  function Pow10(n: nat): (p: nat)
    ensures p >= 1
  {
    if n == 0 then 1 else 10 * Pow10(n - 1)
  }

  /** `Number` applied to a run of decimal digits (leading zeros allowed): a value below ten to the run's length. */
  function DecimalValue(ds: string): (v: nat)
    requires AllDigits(ds)
    ensures v < Pow10(|ds|)
  {
    if ds == [] then 0 else DecimalValue(ds[..|ds| - 1]) * 10 + DigitValue(ds[|ds| - 1])
  }

  /** Leading zeros do not change the value, as with `Number("007")`. */
  lemma {:induction false} DecimalValueLeadingZero(ds: string)
    requires AllDigits(ds)
    ensures AllDigits("0" + ds) && DecimalValue("0" + ds) == DecimalValue(ds)
    decreases |ds|
  {
    var z := "0" + ds;
    assert AllDigits(z) by {
      forall i | 0 <= i < |z| ensures IsDigit(z[i]) {
        if i > 0 { assert z[i] == ds[i - 1]; }
      }
    }
    if ds != [] {
      var init := ds[..|ds| - 1];
      assert z[..|z| - 1] == "0" + init;
      assert z[|z| - 1] == ds[|ds| - 1];
      DecimalValueLeadingZero(init);
    }
  }

  /** The usual spelling of `n` in decimal, without leading zeros, as a referral link carries an id. */
  function Decimal(n: nat): (ds: string)
    ensures |ds| >= 1 && AllDigits(ds)
  {
    if n < 10 then [DigitChar(n)] else Decimal(n / 10) + [DigitChar(n % 10)]
  }

  /** Reading back the decimal spelling of a number gives the number. */
  lemma {:induction false} DecimalRoundTrip(n: nat)
    ensures DecimalValue(Decimal(n)) == n
  {
    if n >= 10 {
      var ds := Decimal(n);
      assert ds[..|ds| - 1] == Decimal(n / 10);
      DecimalRoundTrip(n / 10);
    }
  }

  /** The longest prefix of `s` made of decimal digits: what a greedy `\d+` consumes. */
  function LeadingDigits(s: string): (r: string)
    ensures |r| <= |s| && r == s[..|r|] && AllDigits(r)
    ensures |r| == |s| || !IsDigit(s[|r|])
  {
    if |s| > 0 && IsDigit(s[0]) then
      var t := LeadingDigits(s[1..]);
      assert [s[0]] + t == s[..|t| + 1];
      [s[0]] + t
    else []
  }

  /** A digit run of length `d` that the next character does not extend is what `LeadingDigits` takes. */
  lemma {:induction false} LeadingDigitsOfRun(t: string, d: nat)
    requires d <= |t| && AllDigits(t[..d])
    requires d == |t| || !IsDigit(t[d])
    ensures LeadingDigits(t) == t[..d]
    decreases d
  {
    if d > 0 {
      assert IsDigit(t[0]) by { assert t[..d][0] == t[0]; }
      var u := t[1..];
      assert u[..d - 1] == t[..d][1..];
      assert d - 1 < |u| ==> u[d - 1] == t[d];
      LeadingDigitsOfRun(u, d - 1);
      assert t[..d] == [t[0]] + u[..d - 1];
    }
  }

  /** The number of leading white-space characters of `s`: the run a greedy `\s+` takes when it is positive. */
  function LeadingSpaces(s: string): (n: nat)
    ensures n <= |s|
    ensures forall i :: 0 <= i < n ==> IsSpace(s[i])
    ensures n == |s| || !IsSpace(s[n])
  {
    if |s| > 0 && IsSpace(s[0]) then 1 + LeadingSpaces(s[1..]) else 0
  }
}
