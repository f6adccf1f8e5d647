/** The pattern `^[A-Za-z_]+$` as Python's `re.match` applies it to a
    Twitter username: `^` anchors at the start of the string, the class
    `[A-Za-z_]` is matched one or more times, and `$` (no MULTILINE flag)
    matches at the very end of the string or just before a final newline.

    `Matches` is the declarative reading of that pattern; `Match` is the
    executable test (longest run of class characters, then the `$` test),
    and its contract says the two agree on every string.
 */
module NamePattern {

  /** Membership in the character class `[A-Za-z_]` (no digits, no
      case folding, ASCII letters only). */
  predicate IsNameChar(c: char) {
    ('A' <= c <= 'Z') || ('a' <= c <= 'z') || c == '_'
  }

  predicate AllNameChars(s: string) {
    forall i :: 0 <= i < |s| ==> IsNameChar(s[i])
  }

  /** The positions where `$` can match without the MULTILINE flag: the end
      of the string, or the position of a newline that is its last character. */
  predicate EndAnchorAt(s: string, k: nat) {
    k == |s| || (k + 1 == |s| && s[k] == '\n')
  }

  /** `re.match('^[A-Za-z_]+$', s)` succeeds: some non-empty prefix of `s`
      consists of class characters and ends where `$` can match. */
  ghost predicate Matches(s: string) {
    exists k :: 1 <= k <= |s| && AllNameChars(s[..k]) && EndAnchorAt(s, k)
  }

  /** Length of the longest prefix of `s` made of class characters: the
      run a greedy `[A-Za-z_]+` consumes before it first tries `$`. */
  function GreedyRun(s: string): (n: nat)
    ensures n <= |s|
    ensures AllNameChars(s[..n])
    ensures n < |s| ==> !IsNameChar(s[n])
  {
    if |s| == 0 || !IsNameChar(s[0]) then 0
    else
      var m := GreedyRun(s[1..]);
      assert s[..1 + m] == [s[0]] + s[1..][..m];
      1 + m
  }

  /** No prefix of class characters is longer than the greedy run. */
  lemma RunIsLongest(s: string, k: nat)
    requires k <= |s| && AllNameChars(s[..k])
    ensures k <= GreedyRun(s)
  {
  }

  /** A match, if there is one, ends exactly where the greedy run ends:
      backtracking to a shorter run can never satisfy `$`, because the
      character after a shorter run is a class character, not a newline. */
  lemma MatchesOnlyAtRunEnd(s: string)
    ensures Matches(s) <==> GreedyRun(s) >= 1 && EndAnchorAt(s, GreedyRun(s))
  {
    var n := GreedyRun(s);
    if Matches(s) {
      var k :| 1 <= k <= |s| && AllNameChars(s[..k]) && EndAnchorAt(s, k);
      RunIsLongest(s, k);
    }
    if n >= 1 && EndAnchorAt(s, n) {
      assert AllNameChars(s[..n]);
    }
  }

  /** The executable pattern test used by the validator. */
  function Match(s: string): (b: bool)
    ensures b <==> Matches(s)
  {
    MatchesOnlyAtRunEnd(s);
    var n := GreedyRun(s);
    n >= 1 && EndAnchorAt(s, n)
  }

  /** The strings the pattern accepts are exactly the non-empty runs of class
      characters, optionally followed by ONE newline. */
  lemma MatchShape(s: string)
    ensures Matches(s) <==>
      (|s| >= 1 && AllNameChars(s)) ||
      (|s| >= 2 && AllNameChars(s[..|s| - 1]) && s[|s| - 1] == '\n')
  {
    if |s| >= 1 && AllNameChars(s) {
      assert s[..|s|] == s;
      assert EndAnchorAt(s, |s|);
    }
    if |s| >= 2 && AllNameChars(s[..|s| - 1]) && s[|s| - 1] == '\n' {
      assert EndAnchorAt(s, |s| - 1);
    }
    if Matches(s) {
      var k :| 1 <= k <= |s| && AllNameChars(s[..k]) && EndAnchorAt(s, k);
      if k == |s| {
        assert s[..k] == s;
      }
    }
  }

  /** The trailing-newline allowance of `$`: a name followed by one newline
      matches, by two newlines does not, and a lone newline does not. */
  lemma TrailingNewline(w: string)
    requires |w| >= 1 && AllNameChars(w)
    ensures Matches(w + "\n")
    ensures !Matches(w + "\n\n")
    ensures !Matches("\n")
  {
    var s := w + "\n";
    assert s[..|s| - 1] == w;
    MatchShape(s);
    var t := w + "\n\n";
    MatchShape(t);
    assert t[|t| - 2] == '\n' && !IsNameChar(t[|t| - 2]);
    assert t[..|t| - 1][|t| - 2] == t[|t| - 2];
    MatchShape("\n");
  }
}
