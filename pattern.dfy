/**
 * The regular expressions the patch scripts use, as sequences of atoms
 * matched left to right: a literal, a greedy `c*` or `c+` over a character
 * class, and a lazy `c*?` that stops at the first occurrence of a literal.
 *
 * Matching is greedy without backtracking.  For every pattern of the
 * scripts this is also what a backtracking engine finds, because each
 * starred class excludes the first character of the literal after it (a
 * backtracking engine could only give back characters of the class, and
 * the literal cannot start with one of them); `StarredClassesStop` checks
 * this for each pattern where it is declared.
 *
 * `String.prototype.replace` with a pattern rewrites its leftmost match;
 * with the `g` flag it rewrites every match found scanning left to right.
 */
module Pattern {
  import opened Text

  datatype Atom =
    | Lit(t: string)                               // the characters of `t`
    | Star(p: char -> bool)                        // `[p]*`, greedy
    | Plus(p: char -> bool)                        // `[p]+`, greedy
    | LazyTo(p: char -> bool, stop: string)        // `[p]*?` then `stop`

  type Pat = seq<Atom>

  /** Where the maximal run of `p`-characters starting at `i` ends. */
  function RunEnd(p: char -> bool, s: string, i: nat): (j: nat)
    requires i <= |s|
    ensures i <= j <= |s|
    ensures forall k :: i <= k < j ==> p(s[k])
    ensures j == |s| || !p(s[j])
    decreases |s| - i
  {
    if i < |s| && p(s[i]) then RunEnd(p, s, i + 1) else i
  }

  /** The run itself, as a slice, holds only `p`-characters. */
  lemma RunSlice(p: char -> bool, s: string, i: nat)
    requires i <= |s|
    ensures var j := RunEnd(p, s, i); forall k :: 0 <= k < j - i ==> p(s[i..j][k])
  {
    var j := RunEnd(p, s, i);
    forall k | 0 <= k < j - i ensures p(s[i..j][k]) {
      assert s[i..j][k] == s[i + k];
    }
  }

  /** The end of the shortest run of `p`-characters from `i` that is followed by `stop`. */
  function LazyEnd(p: char -> bool, stop: string, s: string, i: nat): (r: Option<nat>)
    requires i <= |s|
    ensures r.Some? ==> i + |stop| <= r.value <= |s|
    decreases |s| - i
  {
    if OccursAt(s, stop, i) then Some(i + |stop|)
    else if i < |s| && p(s[i]) then LazyEnd(p, stop, s, i + 1)
    else None
  }

  /**
   * A lazy run ends at the first place where `stop` follows: every earlier
   * character is in the class and `stop` does not occur earlier.
   */
  lemma {:induction false} LazyEndIsShortest(p: char -> bool, stop: string, s: string, i: nat)
    requires i <= |s| && LazyEnd(p, stop, s, i).Some?
    ensures var e := LazyEnd(p, stop, s, i).value;
      && OccursAt(s, stop, e - |stop|)
      && (forall k :: i <= k < e - |stop| ==> p(s[k]) && !OccursAt(s, stop, k))
    decreases |s| - i
  {
    if !OccursAt(s, stop, i) {
      LazyEndIsShortest(p, stop, s, i + 1);
    }
  }

  /**
   * The converse: when `stop` occurs at `e`, and every earlier character
   * is in the class without `stop` starting there, the lazy run ends at `e`.
   */
  lemma {:induction false} LazyEndAt(p: char -> bool, stop: string, s: string, i: nat, e: nat)
    requires i <= e && OccursAt(s, stop, e)
    requires forall k :: i <= k < e ==> p(s[k]) && !OccursAt(s, stop, k)
    ensures LazyEnd(p, stop, s, i) == Some(e + |stop|)
    decreases e - i
  {
    if i < e {
      LazyEndAt(p, stop, s, i + 1, e);
    }
  }

  /** Where one atom matched from `i` ends, if it matches there. */
  function Step(a: Atom, s: string, i: nat): (r: Option<nat>)
    requires i <= |s|
    ensures r.Some? ==> i <= r.value <= |s|
  {
    match a
    case Lit(t) => if OccursAt(s, t, i) then Some(i + |t|) else None
    case Star(p) => Some(RunEnd(p, s, i))
    case Plus(p) => if i < |s| && p(s[i]) then Some(RunEnd(p, s, i)) else None
    case LazyTo(p, stop) => LazyEnd(p, stop, s, i)
  }

  /** The end of the match of `pat` that starts at `i`, if there is one. */
  function MatchFrom(pat: Pat, s: string, i: nat): (r: Option<nat>)
    requires i <= |s|
    ensures r.Some? ==> i <= r.value <= |s|
    decreases |pat|
  {
    if pat == [] then Some(i)
    else
      var next := Step(pat[0], s, i);
      if next.None? then None else MatchFrom(pat[1..], s, next.value)
  }

  /** Matching a literal atom moves past it. */
  lemma MatchLitStep(pat: Pat, s: string, i: nat)
    requires pat != [] && pat[0].Lit? && OccursAt(s, pat[0].t, i)
    ensures MatchFrom(pat, s, i) == MatchFrom(pat[1..], s, i + |pat[0].t|)
  {
  }

  /** Matching a starred atom moves past the maximal run. */
  lemma MatchStarStep(pat: Pat, s: string, i: nat)
    requires pat != [] && pat[0].Star? && i <= |s|
    ensures MatchFrom(pat, s, i) == MatchFrom(pat[1..], s, RunEnd(pat[0].p, s, i))
  {
  }

  /** A result moved `j` positions to the right. */
  function Shift(r: Option<nat>, j: nat): (q: Option<nat>)
    ensures q.Some? <==> r.Some?
    ensures q.Some? ==> q.value == r.value + j
  {
    if r.None? then None else Some(r.value + j)
  }

  /** A run depends only on the text from where it starts. */
  lemma {:induction false} RunEndDrop(p: char -> bool, s: string, i: nat, j: nat)
    requires j <= i <= |s|
    ensures RunEnd(p, s, i) == j + RunEnd(p, s[j..], i - j)
    decreases |s| - i
  {
    if i < |s| {
      assert s[j..][i - j] == s[i];
      if p(s[i]) {
        RunEndDrop(p, s, i + 1, j);
      }
    }
  }

  lemma OccursAtDrop(s: string, t: string, i: nat, j: nat)
    requires j <= i <= |s|
    ensures OccursAt(s, t, i) <==> OccursAt(s[j..], t, i - j)
  {
    if i + |t| <= |s| {
      assert s[j..][i - j..i - j + |t|] == s[i..i + |t|];
    }
  }

  lemma {:induction false} LazyEndDrop(p: char -> bool, stop: string, s: string, i: nat, j: nat)
    requires j <= i <= |s|
    ensures LazyEnd(p, stop, s, i) == Shift(LazyEnd(p, stop, s[j..], i - j), j)
    decreases |s| - i
  {
    var d := s[j..];
    OccursAtDrop(s, stop, i, j);
    if OccursAt(s, stop, i) {
      assert LazyEnd(p, stop, d, i - j) == Some(i - j + |stop|);
    } else if i < |s| && p(s[i]) {
      assert d[i - j] == s[i];
      LazyEndDrop(p, stop, s, i + 1, j);
      assert LazyEnd(p, stop, d, i - j) == LazyEnd(p, stop, d, i + 1 - j);
    } else {
      assert i - j < |d| ==> d[i - j] == s[i];
      assert LazyEnd(p, stop, d, i - j) == None;
    }
  }

  /** One atom's match depends only on the text from where it starts. */
  lemma StepDrop(a: Atom, s: string, i: nat, j: nat)
    requires j <= i <= |s|
    ensures Step(a, s, i) == Shift(Step(a, s[j..], i - j), j)
  {
    match a
    case Lit(t) => OccursAtDrop(s, t, i, j);
    case Star(p) => RunEndDrop(p, s, i, j);
    case Plus(p) =>
      RunEndDrop(p, s, i, j);
      assert i < |s| ==> s[j..][i - j] == s[i];
    case LazyTo(p, stop) => LazyEndDrop(p, stop, s, i, j);
  }

  /** A match depends only on the text from where it starts. */
  lemma {:induction false} MatchDrop(pat: Pat, s: string, i: nat, j: nat)
    requires j <= i <= |s|
    ensures MatchFrom(pat, s, i) == Shift(MatchFrom(pat, s[j..], i - j), j)
    decreases |pat|
  {
    if pat != [] {
      StepDrop(pat[0], s, i, j);
      var next := Step(pat[0], s, i);
      if next.Some? {
        MatchDrop(pat[1..], s, next.value, j);
      }
    }
  }

  /** A run of the class from the end of `t` covers `w` and stops at `z`'s first character. */
  lemma RunAfterLiteral(t: string, p: char -> bool, w: string, z: string)
    requires z != [] && !p(z[0]) && forall k :: 0 <= k < |w| ==> p(w[k])
    ensures RunEnd(p, t + w + z, |t|) == |t| + |w|
  {
    var x := t + w + z;
    forall k | |t| <= k < |t| + |w| ensures p(x[k]) {
      assert x[k] == w[k - |t|];
    }
    assert x[|t| + |w|] == z[0];
    RunEndFirstOutside(p, x, |t|, |t| + |w|);
  }

  /**
   * A literal followed by a starred class, on a text that continues after
   * the run with a character outside the class: the rest of the pattern is
   * matched against what follows.
   */
  lemma LitStarThen(t: string, p: char -> bool, w: string, z: string, rest: Pat)
    requires z != [] && !p(z[0]) && forall k :: 0 <= k < |w| ==> p(w[k])
    ensures MatchFrom([Lit(t), Star(p)] + rest, t + w + z, 0) == Shift(MatchFrom(rest, z, 0), |t| + |w|)
  {
    var x := t + w + z;
    var pat := [Lit(t), Star(p)] + rest;
    var n := |t| + |w|;
    assert pat[0] == Lit(t) && pat[1..][0] == Star(p) && pat[1..][1..] == rest;
    assert OccursAt(x, t, 0) by { assert x[..|t|] == t; }
    RunAfterLiteral(t, p, w, z);
    assert x[n..] == z;
    MatchLitStep(pat, x, 0);
    MatchStarStep(pat[1..], x, |t|);
    MatchDrop(rest, x, n, n);
  }

  /** A run stops at the first character outside the class. */
  lemma {:induction false} RunEndFirstOutside(p: char -> bool, s: string, i: nat, j: nat)
    requires i <= j < |s| && !p(s[j]) && forall k :: i <= k < j ==> p(s[k])
    ensures RunEnd(p, s, i) == j
    decreases j - i
  {
    if i < j {
      RunEndFirstOutside(p, s, i + 1, j);
    }
  }

  /** Every pattern of the scripts starts with a non-empty literal. */
  predicate StartsWithLiteral(pat: Pat)
  {
    pat != [] && pat[0].Lit? && pat[0].t != []
  }

  /** A match of such a pattern begins with that literal, so it is never empty. */
  lemma MatchStartsWithLiteral(pat: Pat, s: string, i: nat)
    requires StartsWithLiteral(pat) && i <= |s|
    requires MatchFrom(pat, s, i).Some?
    ensures OccursAt(s, pat[0].t, i) && MatchFrom(pat, s, i).value >= i + |pat[0].t| > i
  {
    var rest := MatchFrom(pat[1..], s, i + |pat[0].t|);
    assert MatchFrom(pat, s, i) == rest;
  }

  // ---------------------------------------------------------------------------
  // replace(re, r) and replace(re /g, r)
  // ---------------------------------------------------------------------------

  /** The leftmost position at or after `from` where `pat` matches. */
  function FirstMatch(pat: Pat, s: string, from: nat): (r: Option<nat>)
    requires from <= |s|
    ensures r.Some? ==> from <= r.value <= |s| && MatchFrom(pat, s, r.value).Some?
    ensures forall k :: from <= k < (if r.Some? then r.value else |s| + 1) ==> MatchFrom(pat, s, k).None?
    decreases |s| - from
  {
    if MatchFrom(pat, s, from).Some? then Some(from)
    else if from == |s| then None
    else FirstMatch(pat, s, from + 1)
  }

  /** A leftmost match of a pattern that starts with the character `c` starts at a `c`. */
  lemma FirstMatchAtChar(pat: Pat, s: string, c: char)
    requires pat != [] && pat[0] == Lit([c]) && FirstMatch(pat, s, 0).Some?
    ensures var i := FirstMatch(pat, s, 0).value;
      i < |s| && s[i] == c && forall k :: 0 <= k < i ==> MatchFrom(pat, s, k).None?
  {
    var i := FirstMatch(pat, s, 0).value;
    assert OccursAt(s, [c], i);
    assert s[i..i + 1][0] == s[i];
  }

  /** `s.replace(re, r)` for a replacement without `$`: the leftmost match is rewritten. */
  function ReplaceFirstMatch(pat: Pat, s: string, r: string): string
  {
    match FirstMatch(pat, s, 0)
    case None => s
    case Some(i) => s[..i] + r + s[MatchFrom(pat, s, i).value..]
  }

  /**
   * `s.replace(re /g, r)` from position `i`: each match found scanning left
   * to right is rewritten and the scan resumes where it ended.
   */
  function ReplaceAllFrom(pat: Pat, s: string, r: string, i: nat): string
    requires i <= |s|
    decreases |s| - i
  {
    if i == |s| then []
    else
      var m := MatchFrom(pat, s, i);
      if m.Some? && m.value > i then r + ReplaceAllFrom(pat, s, r, m.value)
      else [s[i]] + ReplaceAllFrom(pat, s, r, i + 1)
  }

  function ReplaceAll(pat: Pat, s: string, r: string): string
  {
    ReplaceAllFrom(pat, s, r, 0)
  }

  /** Where the pattern never matches, the global replacement changes nothing. */
  lemma {:induction false} ReplaceAllNoMatch(pat: Pat, s: string, r: string, i: nat)
    requires i <= |s|
    requires forall k :: i <= k <= |s| ==> MatchFrom(pat, s, k).None?
    ensures ReplaceAllFrom(pat, s, r, i) == s[i..]
    decreases |s| - i
  {
    if i < |s| {
      ReplaceAllNoMatch(pat, s, r, i + 1);
      assert s[i..] == [s[i]] + s[i + 1..];
    }
  }

  /** A string that the pattern matches as a whole becomes the replacement. */
  lemma ReplaceAllWhole(pat: Pat, s: string, r: string)
    requires s != [] && MatchFrom(pat, s, 0) == Some(|s|)
    ensures ReplaceAll(pat, s, r) == r
  {
    assert ReplaceAllFrom(pat, s, r, |s|) == [];
  }

  // ---------------------------------------------------------------------------
  // Character classes of the scripts' patterns
  // ---------------------------------------------------------------------------

  /** `\s`. */
  function Space(): char -> bool { (c: char) => IsSpace(c) }

  /** `[^c]`. */
  function NotChar(x: char): char -> bool { (c: char) => c != x }

  /** The single character `x` (as in `s*` after a literal backslash). */
  function Only(x: char): char -> bool { (c: char) => c == x }

  /** `.`: anything but a line terminator. */
  function AnyInLine(): char -> bool { (c: char) => !IsLineTerminator(c) }

  /**
   * Every starred class is followed by a literal whose first character it
   * excludes, and a lazy run's class does not decide where it stops.
   */
  predicate StarredClassesStop(pat: Pat)
  {
    forall k :: 0 <= k < |pat| - 1 && (pat[k].Star? || pat[k].Plus?) ==>
      pat[k + 1].Lit? && pat[k + 1].t != [] && !pat[k].p(pat[k + 1].t[0])
  }
}
