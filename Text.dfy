/** The two JavaScript string built-ins the login form relies on:
    String.prototype.trim (to normalise the typed credentials) and
    String.prototype.includes (to classify the feedback message). */
module Text {

  /** The code points String.prototype.trim strips: WhiteSpace (section 12.2 of
      ECMA-262: TAB, VT, FF, ZWNBSP and every Unicode "Zs" space separator) and
      LineTerminator (section 12.3 of ECMA-262: LF, CR, LS, PS). */
  predicate IsWhiteSpace(c: char) {
    c in WhiteSpace || c in LineTerminators
  }

  const WhiteSpace: set<char> := {
    '\t', '\U{000B}', '\U{000C}', '\U{FEFF}',
    ' ', '\U{00A0}', '\U{1680}',
    '\U{2000}', '\U{2001}', '\U{2002}', '\U{2003}', '\U{2004}', '\U{2005}',
    '\U{2006}', '\U{2007}', '\U{2008}', '\U{2009}', '\U{200A}',
    '\U{202F}', '\U{205F}', '\U{3000}'
  }

  const LineTerminators: set<char> := {'\n', '\r', '\U{2028}', '\U{2029}'}

  /** Every character of `s` at an index in [lo, hi) is white space. */
  predicate WhiteSpan(s: string, lo: int, hi: int) {
    forall i :: lo <= i < hi && 0 <= i < |s| ==> IsWhiteSpace(s[i])
  }

  predicate AllWhite(s: string) {
    WhiteSpan(s, 0, |s|)
  }

  /** `r` sits at offset `k` of `s`, with nothing but white space around it. */
  predicate PaddedAt(s: string, r: string, k: nat) {
    k + |r| <= |s| && s[k..k + |r|] == r && WhiteSpan(s, 0, k) && WhiteSpan(s, k + |r|, |s|)
  }

  /** The number of white-space characters `s` starts with. */
  function LeadingWhite(s: string): (n: nat)
    ensures n <= |s| && WhiteSpan(s, 0, n)
    ensures n < |s| ==> !IsWhiteSpace(s[n])
    decreases |s|
  {
    if s != [] && IsWhiteSpace(s[0]) then
      var n := LeadingWhite(s[1..]);
      assert forall i :: 1 <= i < n + 1 ==> s[i] == s[1..][i - 1];
      n + 1
    else
      0
  }

  /** The number of white-space characters `s` ends with. */
  function TrailingWhite(s: string): (n: nat)
    ensures n <= |s| && WhiteSpan(s, |s| - n, |s|)
    ensures n < |s| ==> !IsWhiteSpace(s[|s| - 1 - n])
    decreases |s|
  {
    if s != [] && IsWhiteSpace(s[|s| - 1]) then
      var n := TrailingWhite(s[..|s| - 1]);
      assert forall i :: |s| - 1 - n <= i < |s| - 1 ==> s[i] == s[..|s| - 1][i];
      n + 1
    else
      0
  }

  /** String.prototype.trim: the text between the leading and the trailing
      white space; empty exactly when the input is all white space. */
  function Trim(s: string): (r: string)
    ensures exists k: nat :: PaddedAt(s, r, k)
    ensures r != [] ==> !IsWhiteSpace(r[0]) && !IsWhiteSpace(r[|r| - 1])
    ensures r == [] <==> AllWhite(s)
  {
    var k := LeadingWhite(s);
    var m := s[k..];
    var r := m[..|m| - TrailingWhite(m)];
    assert PaddedAt(s, r, k) by {
      assert s[k..k + |r|] == r;
      assert forall i :: k + |r| <= i < |s| ==> s[i] == m[i - k];
    }
    assert r == [] ==> k == |s|;
    r
  }

  /** Any amount of surrounding white space is removed, and nothing more:
      trimming `pre + w + post` gives back `w` whenever `w` neither starts nor
      ends with white space. */
  lemma TrimPadded(pre: string, w: string, post: string)
    requires AllWhite(pre) && AllWhite(post)
    requires w != [] ==> !IsWhiteSpace(w[0]) && !IsWhiteSpace(w[|w| - 1])
    ensures Trim(pre + w + post) == w
  {
    var s := pre + w + post;
    var k := LeadingWhite(s);
    assert forall i :: 0 <= i < |pre| ==> s[i] == pre[i];
    assert forall i :: |pre| + |w| <= i < |s| ==> s[i] == post[i - |pre| - |w|];
    if w != [] {
      assert s[|pre|] == w[0];
      assert k == |pre|;
      var m := s[k..];
      assert m == w + post;
      var n := TrailingWhite(m);
      assert m[|w| - 1] == w[|w| - 1];
      assert forall i :: |w| <= i < |m| ==> m[i] == post[i - |w|];
      assert n == |post|;
      assert m[..|m| - n] == w;
    } else {
      assert k == |s|;
    }
  }

  /** Text with no white space at either end is left as it is. */
  lemma TrimUnpadded(s: string)
    requires s != [] ==> !IsWhiteSpace(s[0]) && !IsWhiteSpace(s[|s| - 1])
    ensures Trim(s) == s
  {
    assert [] + s + [] == s;
    TrimPadded([], s, []);
  }

  /** Trimming is idempotent. */
  lemma TrimIdempotent(s: string)
    ensures Trim(Trim(s)) == Trim(s)
  {
    TrimUnpadded(Trim(s));
  }

  /** `sub` occurs in `s` starting at index `k`. */
  predicate OccursAt(s: string, sub: string, k: nat) {
    k + |sub| <= |s| && s[k..k + |sub|] == sub
  }

  /** String.prototype.includes: whether `sub` occurs anywhere in `s`. The
      empty string is included in every text, an occurrence at any index makes
      it included, and nothing longer than the text is included in it. */
  function Includes(s: string, sub: string): (r: bool)
    ensures sub == [] ==> r
    ensures forall k: nat :: OccursAt(s, sub, k) ==> r
    ensures r ==> |sub| <= |s|
  {
    assert sub == [] ==> OccursAt(s, sub, 0);
    exists k: nat | k <= |s| - |sub| :: OccursAt(s, sub, k)
  }

  /** The search as a left-to-right scan: `sub` is a prefix of `s`, or it is
      found in the rest of `s`. */
  function ScanIncludes(s: string, sub: string): bool
    decreases |s|
  {
    sub <= s || (s != [] && ScanIncludes(s[1..], sub))
  }

  /** The scan and the search for an occurrence agree on every input. */
  lemma {:induction false} IncludesIsScan(s: string, sub: string)
    ensures Includes(s, sub) == ScanIncludes(s, sub)
    decreases |s|
  {
    if sub <= s {
      assert OccursAt(s, sub, 0);
    } else if s == [] {
    } else {
      IncludesIsScan(s[1..], sub);
      forall k: nat | OccursAt(s[1..], sub, k) ensures OccursAt(s, sub, k + 1) {
        assert s[k + 1..k + 1 + |sub|] == s[1..][k..k + |sub|];
      }
      if |sub| <= |s| {
        assert s[0..|sub|] == s[..|sub|];
      }
      assert !OccursAt(s, sub, 0);
      forall k: nat | OccursAt(s, sub, k) ensures k > 0 && OccursAt(s[1..], sub, k - 1) {
        assert s[k..k + |sub|] == s[1..][k - 1..k - 1 + |sub|];
      }
    }
  }
}
