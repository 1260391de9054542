/**
 * JavaScript's `String.prototype.trim`, which the option editor applies to
 * every text it stores and uses to reject blank input.
 */
module JsText {

  /** The characters `trim` removes: ECMAScript WhiteSpace and
      LineTerminator code points. */
  predicate IsJsWhitespace(c: char)
  {
    || ('\t' <= c <= '\r')   // tab, line feed, vertical tab, form feed, carriage return
    || c == ' '
    || c == '\U{00A0}'
    || c == '\U{1680}'
    || ('\U{2000}' <= c <= '\U{200A}')
    || c == '\U{2028}' || c == '\U{2029}'
    || c == '\U{202F}' || c == '\U{205F}'
    || c == '\U{3000}' || c == '\U{FEFF}'
  }

  predicate AllWhitespace(s: string)
  {
    forall i :: 0 <= i < |s| ==> IsJsWhitespace(s[i])
  }

  /** Drops the leading whitespace: the result is the longest suffix of `s`
      that does not start with whitespace. */
  function TrimStart(s: string): (r: string)
    ensures |r| <= |s| && r == s[|s| - |r|..]
    ensures forall i :: 0 <= i < |s| - |r| ==> IsJsWhitespace(s[i])
    ensures r == [] || !IsJsWhitespace(r[0])
  {
    if s != [] && IsJsWhitespace(s[0]) then
      var r := TrimStart(s[1..]);
      assert s[1..][|s| - 1 - |r|..] == s[|s| - |r|..];
      assert forall i :: 1 <= i < |s| ==> s[1..][i - 1] == s[i];
      r
    else s
  }

  /** Drops the trailing whitespace: the result is the longest prefix of `s`
      that does not end in whitespace. */
  function TrimEnd(s: string): (r: string)
    ensures |r| <= |s| && r == s[..|r|]
    ensures forall i :: |r| <= i < |s| ==> IsJsWhitespace(s[i])
    ensures r == [] || !IsJsWhitespace(r[|r| - 1])
  {
    if s != [] && IsJsWhitespace(s[|s| - 1]) then
      var r := TrimEnd(s[..|s| - 1]);
      assert s[..|s| - 1][..|r|] == s[..|r|];
      r
    else s
  }

  /** `s` is `r` with only whitespace before it (the first `k` characters)
      and after it. */
  predicate Surrounds(s: string, k: int, r: string)
  {
    && 0 <= k <= |s| - |r|
    && r == s[k..k + |r|]
    && AllWhitespace(s[..k])
    && AllWhitespace(s[k + |r|..])
  }

  /** `s.trim()`: the part of `s` between its leading and trailing
      whitespace, which neither starts nor ends with whitespace. */
  function Trim(s: string): (r: string)
    ensures |r| <= |s|
    ensures exists k :: Surrounds(s, k, r)
    ensures r != [] ==> !IsJsWhitespace(r[0]) && !IsJsWhitespace(r[|r| - 1])
  {
    TrimSurrounds(s);
    TrimEnd(TrimStart(s))
  }

  /** The witness for `Trim`: the leading whitespace `TrimStart` drops. */
  lemma TrimSurrounds(s: string)
    ensures Surrounds(s, |s| - |TrimStart(s)|, TrimEnd(TrimStart(s)))
  {
    var t := TrimStart(s);
    TrimStartParts(s, t);
    TrimEndParts(t, TrimEnd(t));
    SurroundsByParts(s, t, TrimEnd(t));
  }

  /** Whitespace before `t` in `s`, and whitespace after `r` in `t`, is
      whitespace around `r` in `s`. */
  lemma SurroundsByParts(s: string, t: string, r: string)
    requires |t| <= |s| && t == s[|s| - |t|..] && AllWhitespace(s[..|s| - |t|])
    requires |r| <= |t| && r == t[..|r|] && AllWhitespace(t[|r|..])
    ensures Surrounds(s, |s| - |t|, r)
  {
    var k := |s| - |t|;
    assert t[..|r|] == s[k..k + |r|];
    assert s[k + |r|..] == t[|r|..];
  }

  /** What `TrimStart` drops is whitespace and what it keeps is the rest. */
  lemma TrimStartParts(s: string, t: string)
    requires t == TrimStart(s)
    ensures t == s[|s| - |t|..] && AllWhitespace(s[..|s| - |t|])
  {
    var pre := s[..|s| - |t|];
    forall i | 0 <= i < |pre|
      ensures IsJsWhitespace(pre[i])
    {
      assert pre[i] == s[i];
    }
  }

  /** What `TrimEnd` drops is whitespace and what it keeps is the rest. */
  lemma TrimEndParts(t: string, r: string)
    requires r == TrimEnd(t)
    ensures r == t[..|r|] && AllWhitespace(t[|r|..])
  {
    var rest := t[|r|..];
    forall i | 0 <= i < |rest|
      ensures IsJsWhitespace(rest[i])
    {
      assert rest[i] == t[|r| + i];
    }
  }

  /** Text trims to nothing exactly when it is all whitespace. */
  lemma TrimEmptyIffBlank(s: string)
    ensures Trim(s) == [] <==> AllWhitespace(s)
  {
    var t := TrimStart(s);
    if Trim(s) == [] {
      assert t[0..] == t;
    }
  }

  /** Trimming twice changes nothing more. */
  lemma TrimIdempotent(s: string)
    ensures Trim(Trim(s)) == Trim(s)
  {
    var r := Trim(s);
    if r != [] {
      assert TrimStart(r) == r;
      assert TrimEnd(r) == r;
    }
  }
}
