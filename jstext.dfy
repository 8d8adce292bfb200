/**
 * The pieces of ECMAScript string handling the form validators rely on:
 * String.prototype.trim, the `\s` character class, and the e-mail pattern
 * /^[^\s@]+@[^\s@]+\.[^\s@]+$/.
 */
module JsText {
  import opened Wrappers

  /**
   * WhiteSpace and LineTerminator code points of ECMAScript: the set `\s` matches
   * and the set trim() removes (tab, line feed, vertical tab, form feed, carriage
   * return, the Zs space separators, the two Unicode line separators and the BOM).
   */
  predicate IsWhiteSpace(c: char) {
    || c == '\t' || c == '\n' || c == '\U{000B}' || c == '\U{000C}' || c == '\r'
    || c == ' ' || c == '\U{00A0}' || c == '\U{1680}'
    || ('\U{2000}' <= c <= '\U{200A}')
    || c == '\U{2028}' || c == '\U{2029}' || c == '\U{202F}' || c == '\U{205F}'
    || c == '\U{3000}' || c == '\U{FEFF}'
  }

  predicate NoWhiteSpace(s: string) {
    forall k | 0 <= k < |s| :: !IsWhiteSpace(s[k])
  }

  /** The first position at or after `i` that does not hold white space (|s| if there is none). */
  function SkipSpace(s: string, i: nat): (j: nat)
    requires i <= |s|
    ensures i <= j <= |s|
    decreases |s| - i
  {
    if i < |s| && IsWhiteSpace(s[i]) then SkipSpace(s, i + 1) else i
  }

  /** Moving back from `j`, no further than `lo`, over white space: the end of what remains. */
  function BackSpace(s: string, lo: nat, j: nat): (e: nat)
    requires lo <= j <= |s|
    ensures lo <= e <= j
  {
    if j > lo && IsWhiteSpace(s[j - 1]) then BackSpace(s, lo, j - 1) else j
  }

  lemma {:induction false} SkipSpaceStops(s: string, i: nat)
    requires i <= |s|
    ensures forall k | i <= k < SkipSpace(s, i) :: IsWhiteSpace(s[k])
    ensures SkipSpace(s, i) < |s| ==> !IsWhiteSpace(s[SkipSpace(s, i)])
    decreases |s| - i
  {
    if i < |s| && IsWhiteSpace(s[i]) {
      SkipSpaceStops(s, i + 1);
    }
  }

  lemma {:induction false} BackSpaceStops(s: string, lo: nat, j: nat)
    requires lo <= j <= |s|
    ensures forall k | BackSpace(s, lo, j) <= k < j :: IsWhiteSpace(s[k])
    ensures BackSpace(s, lo, j) > lo ==> !IsWhiteSpace(s[BackSpace(s, lo, j) - 1])
  {
    if j > lo && IsWhiteSpace(s[j - 1]) {
      BackSpaceStops(s, lo, j - 1);
    }
  }

  /** Nothing but white space: what trim() reduces to the empty string. */
  predicate Blank(s: string) {
    forall k | 0 <= k < |s| :: IsWhiteSpace(s[k])
  }

  /** Where the trimmed string starts and ends in `s`. */
  function TrimFrom(s: string): nat {
    SkipSpace(s, 0)
  }

  function TrimTo(s: string): (e: nat)
    ensures TrimFrom(s) <= e <= |s|
  {
    BackSpace(s, TrimFrom(s), |s|)
  }

  /** String.prototype.trim: white space removed from both ends. */
  function Trim(s: string): string {
    s[TrimFrom(s)..TrimTo(s)]
  }

  /**
   * Only white space lies outside the piece trim() keeps, and that piece neither starts
   * nor ends with white space.
   */
  lemma TrimOutside(s: string)
    ensures forall k | 0 <= k < TrimFrom(s) :: IsWhiteSpace(s[k])
    ensures forall k | TrimTo(s) <= k < |s| :: IsWhiteSpace(s[k])
    ensures Trim(s) == [] || (!IsWhiteSpace(Trim(s)[0]) && !IsWhiteSpace(Trim(s)[|Trim(s)| - 1]))
  {
    SkipSpaceStops(s, 0);
    BackSpaceStops(s, TrimFrom(s), |s|);
  }

  /** The trimmed value is empty exactly when the whole value is white space. */
  lemma TrimEmpty(s: string)
    ensures Trim(s) == [] <==> Blank(s)
  {
    TrimOutside(s);
    if Trim(s) == [] {
      assert TrimFrom(s) == TrimTo(s);
    } else {
      assert !IsWhiteSpace(s[TrimFrom(s)]);
    }
  }

  /** A string without white space is its own trim. */
  lemma TrimNoWhiteSpace(s: string)
    requires NoWhiteSpace(s)
    ensures Trim(s) == s
  {
    assert TrimFrom(s) == 0;
    assert TrimTo(s) == |s|;
  }

  /** Trimming twice is trimming once. */
  lemma TrimIdempotent(s: string)
    ensures Trim(Trim(s)) == Trim(s)
  {
    var r := Trim(s);
    TrimOutside(s);
    if r != [] {
      assert TrimFrom(r) == 0;
      assert TrimTo(r) == |r|;
    }
  }

  /** The first index of `c` in `s`. */
  function IndexOf(s: string, c: char): (r: Option<nat>)
    ensures r.Some? ==> r.value < |s| && s[r.value] == c
  {
    if s == [] then None
    else if s[0] == c then Some(0)
    else
      match IndexOf(s[1..], c)
      case None => None
      case Some(k) => Some(k + 1)
  }

  /** IndexOf finds `c` exactly when it occurs, and finds its first occurrence. */
  lemma {:induction false} IndexOfFirst(s: string, c: char)
    ensures IndexOf(s, c).None? <==> c !in s
    ensures IndexOf(s, c).Some? ==> c !in s[..IndexOf(s, c).value]
  {
    if s != [] && s[0] != c {
      IndexOfFirst(s[1..], c);
      assert s == [s[0]] + s[1..];
      if IndexOf(s, c).Some? {
        var k := IndexOf(s[1..], c).value;
        assert s[..k + 1] == [s[0]] + s[1..][..k];
      }
    }
  }

  /** One `[^\s@]+` piece of the pattern. */
  predicate Part(s: string) {
    |s| >= 1 && NoWhiteSpace(s) && '@' !in s
  }

  /** What /^[^\s@]+@[^\s@]+\.[^\s@]+$/ accepts: local part, '@', then two parts joined by a '.'. */
  ghost predicate MatchesEmailPattern(s: string) {
    exists at, dot | 0 <= at < dot < |s| ::
      s[at] == '@' && s[dot] == '.' && Part(s[..at]) && Part(s[at + 1..dot]) && Part(s[dot + 1..])
  }

  /**
   * The same language, decided directly: no white space, exactly one '@' with something
   * before it, and a '.' in the domain that is neither its first nor its last character.
   */
  predicate EmailShape(s: string) {
    && NoWhiteSpace(s)
    && match IndexOf(s, '@')
       case None => false
       case Some(at) =>
         var domain := s[at + 1..];
         && at >= 1
         && '@' !in domain
         && |domain| >= 3
         && '.' in domain[1..|domain| - 1]
  }

  lemma PartsJoin(s: string, at: nat, dot: nat)
    requires at < dot < |s| && s[at] == '@' && s[dot] == '.'
    requires Part(s[..at]) && Part(s[at + 1..dot]) && Part(s[dot + 1..])
    ensures NoWhiteSpace(s)
    ensures IndexOf(s, '@') == Some(at)
    ensures '@' !in s[at + 1..]
  {
    forall k | 0 <= k < |s|
      ensures !IsWhiteSpace(s[k])
    {
      if k < at {
        assert s[k] == s[..at][k];
      } else if at < k < dot {
        assert s[k] == s[at + 1..dot][k - at - 1];
      } else if dot < k {
        assert s[k] == s[dot + 1..][k - dot - 1];
      }
    }
    assert s[at + 1..] == s[at + 1..dot] + ['.'] + s[dot + 1..];
    assert '@' !in s[..at];
    IndexOfFirst(s, '@');
    var i := IndexOf(s, '@');
    assert s[i.value] == '@';
  }

  /** A non-empty stretch of a white-space-free string with no '@' in it is a part. */
  lemma SliceIsPart(s: string, i: nat, j: nat)
    requires i < j <= |s| && NoWhiteSpace(s)
    requires forall k | i <= k < j :: s[k] != '@'
    ensures Part(s[i..j])
  {
    assert forall k | 0 <= k < j - i :: s[i..j][k] == s[i + k];
  }

  lemma ShapeMatchesPattern(s: string)
    requires EmailShape(s)
    ensures MatchesEmailPattern(s)
  {
    IndexOfFirst(s, '@');
    var at := IndexOf(s, '@').value;
    var domain := s[at + 1..];
    var j :| 0 <= j < |domain[1..|domain| - 1]| && domain[1..|domain| - 1][j] == '.';
    var dot := at + 2 + j;
    assert s[dot] == domain[j + 1];
    forall k | 0 <= k < at
      ensures s[k] != '@'
    {
      assert s[k] == s[..at][k];
    }
    forall k | at < k < |s|
      ensures s[k] != '@'
    {
      assert s[k] == domain[k - at - 1];
    }
    SliceIsPart(s, 0, at);
    SliceIsPart(s, at + 1, dot);
    SliceIsPart(s, dot + 1, |s|);
    assert s[..at] == s[0..at];
    assert s[dot + 1..] == s[dot + 1..|s|];
  }

  lemma PatternHasShape(s: string, at: nat, dot: nat)
    requires at < dot < |s| && s[at] == '@' && s[dot] == '.'
    requires Part(s[..at]) && Part(s[at + 1..dot]) && Part(s[dot + 1..])
    ensures EmailShape(s)
  {
    PartsJoin(s, at, dot);
    var domain := s[at + 1..];
    assert |s[..at]| >= 1 && |s[at + 1..dot]| >= 1 && |s[dot + 1..]| >= 1;
    var inner := domain[1..|domain| - 1];
    assert inner[dot - at - 2] == s[dot];
  }

  /** The direct decision procedure accepts exactly what the pattern matches. */
  lemma EmailShapeIsPattern(s: string)
    ensures EmailShape(s) <==> MatchesEmailPattern(s)
  {
    if EmailShape(s) {
      ShapeMatchesPattern(s);
    }
    if MatchesEmailPattern(s) {
      var at, dot :| 0 <= at < dot < |s| && s[at] == '@' && s[dot] == '.'
        && Part(s[..at]) && Part(s[at + 1..dot]) && Part(s[dot + 1..]);
      PatternHasShape(s, at, dot);
    }
  }
}
