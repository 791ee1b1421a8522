/** The input validators of lib/utils.js: `validateEmail`, the test of the regular expression
    /^[^\s@]+@[^\s@]+\.[^\s@]+$/, and `validatePassword`, the test of
    /^(?=.*[A-Z])(?=.*\d)(?=.*[!@#$%^&*]).{8,}$/ (no flags on either). The email pattern is a
    simplified check of its own, not the addr-spec of section 3.4.1 of RFC 5322. */
module Validators {
  import opened JsText

  // ---------------------------------------------------------------------------------------
  // Email

  /** The class [^\s@]. */
  predicate IsAddrChar(c: char) {
    !IsWs(c) && c != '@'
  }

  predicate AllAddrChars(s: string) {
    forall k | 0 <= k < |s| :: IsAddrChar(s[k])
  }

  /** A string matched by [^\s@]+. */
  predicate IsPart(s: string) {
    |s| > 0 && AllAddrChars(s)
  }

  /** The language of the email pattern: `s` is L + "@" + A + "." + B where each of L, A, B
      is matched by [^\s@]+. */
  ghost predicate EmailShape(s: string, local: string, host: string, tld: string) {
    s == local + "@" + host + "." + tld && IsPart(local) && IsPart(host) && IsPart(tld)
  }

  /** Length of the longest prefix of `s` matched by [^\s@]*. */
  function AddrRun(s: string): (n: nat)
    ensures n <= |s| && AllAddrChars(s[..n])
    ensures n == |s| || !IsAddrChar(s[n])
  {
    if s != [] && IsAddrChar(s[0]) then
      var n := 1 + AddrRun(s[1..]);
      assert forall k | 1 <= k < n :: s[..n][k] == s[1..][..n - 1][k - 1];
      n
    else 0
  }

  /** `d` has a '.' that is neither its first nor its last character. */
  predicate HasInnerDot(d: string) {
    exists k | 0 < k < |d| - 1 :: d[k] == '.'
  }

  /** validateEmail: the local part is the run of [^\s@] characters at the start; it must be
      followed by the only '@', and the rest is the domain [^\s@]+\.[^\s@]+, which the
      backtracking matcher accepts exactly when it has a '.' strictly inside it. */
  predicate ValidateEmail(s: string) {
    var n := AddrRun(s);
    0 < n < |s| && s[n] == '@' && AllAddrChars(s[n + 1..]) && HasInnerDot(s[n + 1..])
  }

  lemma {:induction false} AddrRunStopsAt(local: string, rest: string)
    requires AllAddrChars(local)
    requires rest != [] && !IsAddrChar(rest[0])
    ensures AddrRun(local + rest) == |local|
  {
    if local != [] {
      assert (local + rest)[1..] == local[1..] + rest;
      AddrRunStopsAt(local[1..], rest);
    } else {
      assert local + rest == rest;
    }
  }

  /** An accepted address splits into the three parts of the pattern. */
  lemma ValidEmailSplit(s: string) returns (l: string, a: string, b: string)
    requires ValidateEmail(s)
    ensures EmailShape(s, l, a, b)
  {
    var n := AddrRun(s);
    var d := s[n + 1..];
    var k :| 0 < k < |d| - 1 && d[k] == '.';
    l, a, b := s[..n], d[..k], d[k + 1..];
    assert d == a + "." + b;
    assert s == l + "@" + d;
    assert AllAddrChars(a) by {
      forall j | 0 <= j < |a| ensures IsAddrChar(a[j]) { assert a[j] == d[j]; }
    }
    assert AllAddrChars(b) by {
      forall j | 0 <= j < |b| ensures IsAddrChar(b[j]) { assert b[j] == d[k + 1 + j]; }
    }
  }

  /** The domain A + "." + B of a string of the pattern's shape is all [^\s@] and has its dot
      strictly inside. */
  lemma DomainAccepted(a: string, b: string)
    requires IsPart(a) && IsPart(b)
    ensures AllAddrChars(a + "." + b) && HasInnerDot(a + "." + b)
  {
    var d := a + "." + b;
    assert d[|a|] == '.';
    forall j | 0 <= j < |d| ensures IsAddrChar(d[j]) {
      if j < |a| { assert d[j] == a[j]; } else if j > |a| { assert d[j] == b[j - |a| - 1]; }
    }
  }

  /** Every string of the pattern's shape is accepted. */
  lemma ShapedEmailAccepted(s: string, l: string, a: string, b: string)
    requires EmailShape(s, l, a, b)
    ensures ValidateEmail(s)
  {
    var d := a + "." + b;
    assert s == l + ("@" + d);
    AddrRunStopsAt(l, "@" + d);
    assert s[|l| + 1..] == d;
    DomainAccepted(a, b);
  }

  /** validateEmail accepts exactly the strings of the form L + "@" + A + "." + B with L, A
      and B non-empty and free of whitespace and '@'. */
  lemma EmailIff(s: string)
    ensures ValidateEmail(s) <==> exists l, a, b :: EmailShape(s, l, a, b)
  {
    if ValidateEmail(s) {
      var l, a, b := ValidEmailSplit(s);
    }
    if exists l, a, b :: EmailShape(s, l, a, b) {
      var l, a, b :| EmailShape(s, l, a, b);
      ShapedEmailAccepted(s, l, a, b);
    }
  }

  /** Number of occurrences of `c` in `s`. */
  function Occurrences(s: string, c: char): (n: nat)
    ensures n <= |s|
    ensures n == 0 <==> c !in s
  {
    if s == [] then 0 else (if s[0] == c then 1 else 0) + Occurrences(s[1..], c)
  }

  lemma {:induction false} OccurrencesAppend(a: string, b: string, c: char)
    ensures Occurrences(a + b, c) == Occurrences(a, c) + Occurrences(b, c)
  {
    if a != [] {
      assert (a + b)[1..] == a[1..] + b;
      OccurrencesAppend(a[1..], b, c);
    } else {
      assert a + b == b;
    }
  }

  /** `s` has no whitespace character. */
  predicate NoWs(s: string) {
    forall k | 0 <= k < |s| :: !IsWs(s[k])
  }

  lemma NoWsJoin(a: string, b: string)
    requires NoWs(a) && NoWs(b)
    ensures NoWs(a + b)
  {
  }

  lemma AddrCharsAreNotWs(x: string)
    requires AllAddrChars(x)
    ensures NoWs(x) && Occurrences(x, '@') == 0
  {
  }

  /** An accepted address has no whitespace and exactly one '@'. */
  lemma {:induction false} EmailAccepted(s: string)
    requires ValidateEmail(s)
    ensures NoWs(s)
    ensures Occurrences(s, '@') == 1
  {
    var n := AddrRun(s);
    var l, d := s[..n], s[n + 1..];
    assert s == l + "@" + d;
    AddrCharsAreNotWs(l);
    AddrCharsAreNotWs(d);
    OccurrencesAppend(l + "@", d, '@');
    OccurrencesAppend(l, "@", '@');
    assert NoWs("@") by { assert "@"[0] == '@'; }
    NoWsJoin(l, "@");
    NoWsJoin(l + "@", d);
  }

  /** Whitespace anywhere, no '@' or two or more '@' make validateEmail fail. */
  lemma {:induction false} EmailRejected(s: string)
    requires !NoWs(s) || Occurrences(s, '@') != 1
    ensures !ValidateEmail(s)
  {
    if ValidateEmail(s) {
      EmailAccepted(s);
    }
  }

  lemma EmptyEmailRejected()
    ensures !ValidateEmail("")
  {
  }

  /** No '.' after the '@'. */
  lemma DotlessEmailRejected()
    ensures !ValidateEmail("a@b")
  {
  }

  lemma LeadingSpaceEmailRejected()
    ensures !ValidateEmail(" a@b.c")
  {
  }

  lemma SmallestEmailAccepted()
    ensures ValidateEmail("a@b.c")
  {
    assert "a@b.c" == "a" + "@" + "b" + "." + "c";
    ShapedEmailAccepted("a@b.c", "a", "b", "c");
  }

  // ---------------------------------------------------------------------------------------
  // Password

  /** The three classes the password pattern looks ahead for. */
  datatype CharClass = Upper | Digit | Symbol

  predicate InClass(c: char, k: CharClass) {
    match k
    case Upper => 'A' <= c <= 'Z'
    case Digit => '0' <= c <= '9'
    case Symbol => c in "!@#$%^&*"
  }

  /** The lookahead (?=.*X) at the start of `s`: a character of class `k` occurs before the
      first line terminator. */
  predicate Lookahead(s: string, k: CharClass) {
    s != [] && (InClass(s[0], k) || (!IsLineTerminator(s[0]) && Lookahead(s[1..], k)))
  }

  /** `.{min,}$` at the start of `s`: at least `min` characters up to the end of input, none of
      them a line terminator. */
  predicate DotsToEnd(s: string, min: nat) {
    if s == [] then min == 0
    else !IsLineTerminator(s[0]) && DotsToEnd(s[1..], if min == 0 then 0 else min - 1)
  }

  /** validatePassword: the three lookaheads and `.{8,}$`, all anchored at position 0. */
  predicate ValidatePassword(s: string) {
    Lookahead(s, Upper) && Lookahead(s, Digit) && Lookahead(s, Symbol) && DotsToEnd(s, 8)
  }

  predicate Contains(s: string, k: CharClass) {
    exists i | 0 <= i < |s| :: InClass(s[i], k)
  }

  predicate NoLineTerminator(s: string) {
    forall i | 0 <= i < |s| :: !IsLineTerminator(s[i])
  }

  lemma {:induction false} DotsToEndIff(s: string, min: nat)
    ensures DotsToEnd(s, min) <==> |s| >= min && NoLineTerminator(s)
  {
    if s != [] {
      DotsToEndIff(s[1..], if min == 0 then 0 else min - 1);
      assert NoLineTerminator(s) <==> !IsLineTerminator(s[0]) && NoLineTerminator(s[1..]) by {
        assert forall i | 1 <= i < |s| :: s[i] == s[1..][i - 1];
      }
    }
  }

  lemma {:induction false} LookaheadIff(s: string, k: CharClass)
    requires NoLineTerminator(s)
    ensures Lookahead(s, k) <==> Contains(s, k)
  {
    if s != [] {
      assert forall i | 1 <= i < |s| :: s[i] == s[1..][i - 1];
      LookaheadIff(s[1..], k);
      if Contains(s, k) && !InClass(s[0], k) {
        var i :| 0 <= i < |s| && InClass(s[i], k);
        assert InClass(s[1..][i - 1], k);
      }
    }
  }

  /** validatePassword accepts exactly the strings of at least eight characters with an ASCII
      upper-case letter, an ASCII digit and one of !@#$%^&*, and no line terminator. */
  lemma PasswordIff(s: string)
    ensures ValidatePassword(s) <==>
              |s| >= 8 && Contains(s, Upper) && Contains(s, Digit) && Contains(s, Symbol)
              && NoLineTerminator(s)
  {
    DotsToEndIff(s, 8);
    if NoLineTerminator(s) {
      LookaheadIff(s, Upper);
      LookaheadIff(s, Digit);
      LookaheadIff(s, Symbol);
    }
  }

  /** Every string of fewer than eight characters is rejected, whatever it contains. */
  lemma ShortPasswordRejected(s: string)
    requires |s| < 8
    ensures !ValidatePassword(s)
  {
    PasswordIff(s);
  }

  /** A line terminator anywhere makes validatePassword fail (`.` does not match it and the
      pattern is anchored at both ends). */
  lemma LineTerminatorRejected(s: string, i: nat)
    requires i < |s| && IsLineTerminator(s[i])
    ensures !ValidatePassword(s)
  {
    PasswordIff(s);
  }

  /** Appending a character other than a line terminator keeps a password accepted. */
  lemma PasswordExtended(s: string, c: char)
    requires ValidatePassword(s) && !IsLineTerminator(c)
    ensures ValidatePassword(s + [c])
  {
    PasswordIff(s);
    PasswordIff(s + [c]);
    var t := s + [c];
    assert forall i | 0 <= i < |s| :: t[i] == s[i];
    var u :| 0 <= u < |s| && InClass(s[u], Upper);
    var d :| 0 <= d < |s| && InClass(s[d], Digit);
    var y :| 0 <= y < |s| && InClass(s[y], Symbol);
    assert InClass(t[u], Upper) && InClass(t[d], Digit) && InClass(t[y], Symbol);
  }

  lemma QualifyingPasswordAccepted()
    ensures ValidatePassword("Passw0rd!")
  {
    var good := "Passw0rd!";
    PasswordIff(good);
    assert InClass(good[0], Upper) && InClass(good[5], Digit) && InClass(good[8], Symbol);
  }

  /** Upper-case letter and digit but no symbol from !@#$%^&*. */
  lemma SymbolFreePasswordRejected()
    ensures !ValidatePassword("Passw0rd")
  {
    var bad := "Passw0rd";
    PasswordIff(bad);
    assert !Contains(bad, Symbol) by {
      forall i | 0 <= i < |bad| ensures !InClass(bad[i], Symbol) {}
    }
  }
}
