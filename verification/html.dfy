/**
 `escapeHtml` (index.js:144-150): the bot runs user-supplied text (UPI ids,
 broadcast text) through it before embedding it in an HTML-formatted message.
 */
module Html {
  import opened JsStrings

  const AMP: string := "&amp;"
  const LT: string := "&lt;"
  const GT: string := "&gt;"

  /**
   `s.replace(/c/g, rep)` for a literal character `c` and a replacement without
   `$`, as the three entities are: every character
   other than `c` survives, and the result holds nothing but those characters
   and pieces of `rep`. Text without `c` is unchanged.
   */
  function ReplaceAll(s: string, c: char, rep: string): (r: string)
    ensures c !in s ==> r == s
    ensures forall x :: x in s && x != c ==> x in r
    ensures forall x :: x in r ==> (x in s && x != c) || x in rep
    ensures |rep| >= 1 ==> |r| >= |s|
  {
    if s == [] then [] else (if s[0] == c then rep else [s[0]]) + ReplaceAll(s[1..], c, rep)
  }

  /** A one-character text is replaced exactly when it is `c`. */
  lemma ReplaceAllOneChar(x: char, c: char, rep: string)
    ensures ReplaceAll([x], c, rep) == if x == c then rep else [x]
  {
    assert [x][1..] == [];
  }

  /**
   `escapeHtml`: a falsy (empty) text gives "", otherwise the three global
   replaces in source order. The output is empty only for empty input, holds
   no angle brackets, keeps every other character, and leaves plain text alone.
   */
  function EscapeHtml(text: string): (r: string)
    ensures r == [] <==> text == []
    ensures '<' !in r && '>' !in r
    ensures forall x :: x in text && x != '&' && x != '<' && x != '>' ==> x in r
    ensures '&' !in text && '<' !in text && '>' !in text ==> r == text
  {
    if text == [] then [] else ReplaceAll(ReplaceAll(ReplaceAll(text, '&', AMP), '<', LT), '>', GT)
  }

  /** The entity each character is written as: an independent, one-pass reading of `escapeHtml`. */
  function EscapeChar(c: char): string {
    if c == '&' then AMP else if c == '<' then LT else if c == '>' then GT else [c]
  }

  function EscapeEach(s: string): string {
    if s == [] then [] else EscapeChar(s[0]) + EscapeEach(s[1..])
  }

  /** Decodes the three entities `escapeHtml` produces and copies everything else. */
  function Unescape(s: string): string {
    if s == [] then []
    else if StartsWith(s, AMP) then "&" + Unescape(s[|AMP|..])
    else if StartsWith(s, LT) then "<" + Unescape(s[|LT|..])
    else if StartsWith(s, GT) then ">" + Unescape(s[|GT|..])
    else [s[0]] + Unescape(s[1..])
  }

  /** Every `&` at position `i` of `s` begins one of the three entities. */
  predicate AmpersandsBeginEntities(s: string) {
    forall i :: 0 <= i < |s| && s[i] == '&' ==>
      StartsWith(s[i..], AMP) || StartsWith(s[i..], LT) || StartsWith(s[i..], GT)
  }

  lemma {:induction false} ReplaceAllAppend(x: string, y: string, c: char, rep: string)
    ensures ReplaceAll(x + y, c, rep) == ReplaceAll(x, c, rep) + ReplaceAll(y, c, rep)
  {
    if x == [] {
      assert x + y == y;
    } else {
      var h := if x[0] == c then rep else [x[0]];
      var rx := ReplaceAll(x[1..], c, rep);
      var ry := ReplaceAll(y, c, rep);
      assert (x + y)[0] == x[0];
      assert (x + y)[1..] == x[1..] + y;
      ReplaceAllAppend(x[1..], y, c, rep);
      assert ReplaceAll(x + y, c, rep) == h + (rx + ry);
      assert h + (rx + ry) == (h + rx) + ry;
    }
  }

  /** The three passes applied to one character write that character's entity. */
  lemma EscapeOneChar(c: char)
    ensures ReplaceAll(ReplaceAll(ReplaceAll([c], '&', AMP), '<', LT), '>', GT) == EscapeChar(c)
  {
    ReplaceAllOneChar(c, '&', AMP);
    if c == '&' {
      assert '<' !in AMP && '>' !in AMP;
    } else {
      ReplaceAllOneChar(c, '<', LT);
      if c == '<' {
        assert '>' !in LT;
      } else {
        ReplaceAllOneChar(c, '>', GT);
      }
    }
  }

  /** All three passes distribute over concatenation. */
  lemma ThreePassesAppend(x: string, y: string)
    ensures ReplaceAll(ReplaceAll(ReplaceAll(x + y, '&', AMP), '<', LT), '>', GT)
         == ReplaceAll(ReplaceAll(ReplaceAll(x, '&', AMP), '<', LT), '>', GT)
          + ReplaceAll(ReplaceAll(ReplaceAll(y, '&', AMP), '<', LT), '>', GT)
  {
    ReplaceAllAppend(x, y, '&', AMP);
    ReplaceAllAppend(ReplaceAll(x, '&', AMP), ReplaceAll(y, '&', AMP), '<', LT);
    ReplaceAllAppend(ReplaceAll(ReplaceAll(x, '&', AMP), '<', LT),
                     ReplaceAll(ReplaceAll(y, '&', AMP), '<', LT), '>', GT);
  }

  /** The three sequential passes of the source agree with escaping each character once. */
  lemma {:induction false} EscapeHtmlIsCharwise(s: string)
    ensures EscapeHtml(s) == EscapeEach(s)
    decreases |s|
  {
    if s != [] {
      assert s == [s[0]] + s[1..];
      ThreePassesAppend([s[0]], s[1..]);
      EscapeOneChar(s[0]);
      EscapeHtmlIsCharwise(s[1..]);
    }
  }

  lemma UnescapeAmp(rest: string)
    ensures Unescape(AMP + rest) == "&" + Unescape(rest)
  {
    var e := AMP + rest;
    assert e[..|AMP|] == AMP;
    assert e[|AMP|..] == rest;
  }

  lemma UnescapeLt(rest: string)
    ensures Unescape(LT + rest) == "<" + Unescape(rest)
  {
    var e := LT + rest;
    assert !StartsWith(e, AMP) by { assert e[1] == 'l'; }
    assert e[..|LT|] == LT;
    assert e[|LT|..] == rest;
  }

  lemma UnescapeGt(rest: string)
    ensures Unescape(GT + rest) == ">" + Unescape(rest)
  {
    var e := GT + rest;
    assert !StartsWith(e, AMP) by { assert e[1] == 'g'; }
    assert !StartsWith(e, LT) by { assert e[1] == 'g'; }
    assert e[..|GT|] == GT;
    assert e[|GT|..] == rest;
  }

  lemma UnescapePlain(c: char, rest: string)
    requires c != '&'
    ensures Unescape([c] + rest) == [c] + Unescape(rest)
  {
    var e := [c] + rest;
    assert e[0] == c;
    assert e[1..] == rest;
  }

  /** Unescaping an entity followed by anything gives back the character and continues after it. */
  lemma UnescapeEntity(c: char, rest: string)
    ensures Unescape(EscapeChar(c) + rest) == [c] + Unescape(rest)
  {
    if c == '&' {
      UnescapeAmp(rest);
    } else if c == '<' {
      UnescapeLt(rest);
    } else if c == '>' {
      UnescapeGt(rest);
    } else {
      UnescapePlain(c, rest);
    }
  }

  lemma {:induction false} UnescapeEscapeEach(s: string)
    ensures Unescape(EscapeEach(s)) == s
    decreases |s|
  {
    if s != [] {
      UnescapeEntity(s[0], EscapeEach(s[1..]));
      UnescapeEscapeEach(s[1..]);
      assert s == [s[0]] + s[1..];
    }
  }

  /** Unescaping the output of `escapeHtml` recovers the input: every character is kept, in order. */
  lemma EscapeHtmlRoundTrip(text: string)
    ensures Unescape(EscapeHtml(text)) == text
  {
    EscapeHtmlIsCharwise(text);
    UnescapeEscapeEach(text);
  }

  lemma {:induction false} EscapeEachEntities(s: string)
    ensures AmpersandsBeginEntities(EscapeEach(s))
  {
    if s != [] {
      var h := EscapeChar(s[0]);
      var rest := EscapeEach(s[1..]);
      EscapeEachEntities(s[1..]);
      var e := h + rest;
      assert EscapeEach(s) == e;
      forall i | 0 <= i < |e| && e[i] == '&'
        ensures StartsWith(e[i..], AMP) || StartsWith(e[i..], LT) || StartsWith(e[i..], GT)
      {
        if i < |h| {
          assert i == 0;
          assert e[..|h|] == h;
        } else {
          assert e[i..] == rest[i - |h|..];
          assert rest[i - |h|] == '&';
        }
      }
    }
  }

  /** Every `&` in the output of `escapeHtml` begins `&amp;`, `&lt;` or `&gt;`. */
  lemma EscapeHtmlEntities(text: string)
    ensures AmpersandsBeginEntities(EscapeHtml(text))
  {
    EscapeHtmlIsCharwise(text);
    EscapeEachEntities(text);
  }
}
