/** The two character classes of ECMAScript that the forms and validators depend on, and
    String.prototype.trim. A JavaScript string is modelled as a `seq<char>` with one element
    per Unicode scalar value, which agrees with its UTF-16 code units only inside the Basic
    Multilingual Plane. */
module JsText {

  /** LineTerminator of ECMAScript: LF, CR, LINE SEPARATOR and PARAGRAPH SEPARATOR.
      These are the characters the regular-expression `.` does not match. */
  predicate IsLineTerminator(c: char) {
    c == '\n' || c == '\r' || c == '\U{2028}' || c == '\U{2029}'
  }

  /** WhiteSpace or LineTerminator of ECMAScript: the class matched by `\s` and the set of
      characters String.prototype.trim removes. */
  predicate IsWs(c: char) {
    c == '\t' || c == '\U{B}' || c == '\U{C}' || c == ' ' || c == '\U{A0}' || c == '\U{1680}'
    || ('\U{2000}' <= c <= '\U{200A}') || c == '\U{202F}' || c == '\U{205F}' || c == '\U{3000}'
    || c == '\U{FEFF}' || IsLineTerminator(c)
  }

  /** Every character of `s` is whitespace (the empty string included). */
  predicate IsBlank(s: string) {
    s == [] || (IsWs(s[0]) && IsBlank(s[1..]))
  }

  /** Removes the leading whitespace. */
  function TrimStart(s: string): (r: string)
    ensures |r| <= |s| && r == s[|s| - |r|..]
    ensures r == [] || !IsWs(r[0])
  {
    if s != [] && IsWs(s[0]) then TrimStart(s[1..]) else s
  }

  /** Removes the trailing whitespace. */
  function TrimEnd(s: string): (r: string)
    ensures |r| <= |s| && r == s[..|r|]
    ensures r == [] || !IsWs(r[|r| - 1])
  {
    if s != [] && IsWs(s[|s| - 1]) then TrimEnd(s[..|s| - 1]) else s
  }

  /** String.prototype.trim: the leading and then the trailing whitespace removed. */
  function Trim(s: string): string {
    TrimEnd(TrimStart(s))
  }

  /** `r` is the slice of `s` starting at `i`, and everything cut off either side of it is
      whitespace. */
  ghost predicate IsCutFrom(s: string, r: string, i: int) {
    0 <= i <= |s| - |r| && r == s[i..i + |r|]
    && (forall k | 0 <= k < i :: IsWs(s[k]))
    && (forall k | i + |r| <= k < |s| :: IsWs(s[k]))
  }

  /** TrimStart cuts off whitespace only. */
  lemma {:induction false} TrimStartCuts(s: string)
    ensures forall k | 0 <= k < |s| - |TrimStart(s)| :: IsWs(s[k])
  {
    if s != [] && IsWs(s[0]) {
      TrimStartCuts(s[1..]);
      assert forall k | 1 <= k < |s| :: s[k] == s[1..][k - 1];
    }
  }

  /** TrimEnd cuts off whitespace only. */
  lemma {:induction false} TrimEndCuts(s: string)
    ensures forall k | |TrimEnd(s)| <= k < |s| :: IsWs(s[k])
  {
    if s != [] && IsWs(s[|s| - 1]) {
      TrimEndCuts(s[..|s| - 1]);
      assert forall k | 0 <= k < |s| - 1 :: s[k] == s[..|s| - 1][k];
    }
  }

  /** What trim returns: a slice of `s` that neither starts nor ends with whitespace, with
      only whitespace cut off either side. */
  lemma TrimIsCut(s: string)
    ensures exists i :: IsCutFrom(s, Trim(s), i)
    ensures var r := Trim(s); r == [] || (!IsWs(r[0]) && !IsWs(r[|r| - 1]))
  {
    var t := TrimStart(s);
    var r := TrimEnd(t);
    TrimStartCuts(s);
    TrimEndCuts(t);
    var i := |s| - |t|;
    assert r == s[i..i + |r|];
    forall k | i + |r| <= k < |s| ensures IsWs(s[k]) {
      assert s[k] == t[k - i];
    }
    assert IsCutFrom(s, r, i);
    assert r == Trim(s);
  }

  lemma {:induction false} TrimStartEmptyIffBlank(s: string)
    ensures TrimStart(s) == [] <==> IsBlank(s)
  {
    if s != [] && IsWs(s[0]) {
      TrimStartEmptyIffBlank(s[1..]);
    }
  }

  /** The test `!s.trim()` used by the forms: the trimmed string is empty exactly when the
      string consists of whitespace only. */
  lemma TrimEmptyIffBlank(s: string)
    ensures |Trim(s)| == 0 <==> IsBlank(s)
  {
    TrimStartEmptyIffBlank(s);
    var t := TrimStart(s);
    if t != [] {
      TrimEndCuts(t);
    }
  }
}
