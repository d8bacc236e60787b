/**
 * The ECMAScript string operations the hook relies on: `trim`, `split` with a
 * string separator, `split(/\s+/)`, `includes`, `startsWith` and `toLowerCase`
 * (ASCII letters only).
 */
module Text {
  import opened Outcomes

  /** ECMAScript WhiteSpace and LineTerminator code points: what `trim` strips and `\s` matches. */
  predicate IsSpace(c: char) {
    c == ' ' || c == '\t' || c == '\n' || c == '\r' || c == '\U{000B}' || c == '\U{000C}'
    || c == '\U{00A0}' || c == '\U{1680}' || ('\U{2000}' <= c <= '\U{200A}')
    || c == '\U{2028}' || c == '\U{2029}' || c == '\U{202F}' || c == '\U{205F}'
    || c == '\U{3000}' || c == '\U{FEFF}'
  }

  /** Every character is white space. */
  predicate AllSpace(s: string) {
    forall i :: 0 <= i < |s| ==> IsSpace(s[i])
  }

  /** No character is white space. */
  predicate NoSpace(s: string) {
    forall i :: 0 <= i < |s| ==> !IsSpace(s[i])
  }

  /** `!s.trim()`: nothing but white space (`BlankIffTrimEmpty` ties it to `Trim`). */
  predicate IsBlank(s: string)
    decreases |s|
  {
    s == [] || (IsSpace(s[0]) && IsBlank(s[1..]))
  }

  // ---------------------------------------------------------------- trim

  /** Number of whitespace characters at the start of `s`. */
  function LeadingSpaces(s: string): (n: nat)
    ensures n <= |s| && AllSpace(s[..n])
    ensures n < |s| ==> !IsSpace(s[n])
    decreases |s|
  {
    if s != [] && IsSpace(s[0]) then
      var n := 1 + LeadingSpaces(s[1..]);
      assert forall i :: 1 <= i < n ==> s[i] == s[1..][i - 1];
      n
    else 0
  }

  /** Number of whitespace characters at the end of `s`. */
  function TrailingSpaces(s: string): (n: nat)
    ensures n <= |s| && AllSpace(s[|s| - n..])
    ensures n < |s| ==> !IsSpace(s[|s| - n - 1])
    decreases |s|
  {
    if s != [] && IsSpace(s[|s| - 1]) then
      var init := s[..|s| - 1];
      var m := TrailingSpaces(init);
      TrailingSpacesStep(s, init, m);
      m + 1
    else 0
  }

  /** One more white-space character at the end extends the trailing run by one. */
  lemma TrailingSpacesStep(s: string, init: string, m: nat)
    requires s != [] && IsSpace(s[|s| - 1]) && init == s[..|s| - 1]
    requires m <= |init| && AllSpace(init[|init| - m..])
    requires m < |init| ==> !IsSpace(init[|init| - m - 1])
    ensures AllSpace(s[|s| - (m + 1)..])
    ensures m + 1 < |s| ==> !IsSpace(s[|s| - (m + 1) - 1])
  {
    assert s[|s| - (m + 1)..] == init[|init| - m..] + [s[|s| - 1]];
  }

  /**
   * `s.trim()`: the infix of `s` that starts after its leading whitespace,
   * with no whitespace at either end and only whitespace after it.
   */
  function Trim(s: string): (r: string)
    ensures LeadingSpaces(s) + |r| <= |s|
    ensures r == s[LeadingSpaces(s)..LeadingSpaces(s) + |r|]
    ensures AllSpace(s[..LeadingSpaces(s)]) && AllSpace(s[LeadingSpaces(s) + |r|..])
    ensures r != [] ==> !IsSpace(r[0]) && !IsSpace(r[|r| - 1])
    ensures r == [] <==> AllSpace(s)
  {
    var lead := LeadingSpaces(s);
    var t := s[lead..];
    var tail := TrailingSpaces(t);
    var r := t[..|t| - tail];
    TrimParts(s, lead, t, tail, r);
    TrimEmpty(s, lead, t, r, tail);
    r
  }

  /** `Trim`'s result is the slice after the leading spaces, with only spaces after it. */
  lemma TrimParts(s: string, lead: nat, t: string, tail: nat, r: string)
    requires lead <= |s| && t == s[lead..] && tail <= |t| && AllSpace(t[|t| - tail..])
    requires r == t[..|t| - tail]
    ensures lead + |r| <= |s| && r == s[lead..lead + |r|]
    ensures AllSpace(s[lead + |r|..])
  {
    assert s[lead + |r|..] == t[|t| - tail..];
  }

  /** `Trim`'s result is empty exactly for an all-white-space input. */
  lemma TrimEmpty(s: string, lead: nat, t: string, r: string, tail: nat)
    requires lead == LeadingSpaces(s) && t == s[lead..] && tail <= |t| && AllSpace(t[|t| - tail..])
    requires r == t[..|t| - tail]
    ensures r == [] <==> AllSpace(s)
  {
    if r == [] {
      assert t[|t| - tail..] == t;
      AllSpaceSplit(s, lead);
    }
    if AllSpace(s) {
      LeadingOfAllSpace(s);
    }
  }

  /** Two all-white-space halves make an all-white-space string. */
  lemma AllSpaceSplit(s: string, k: nat)
    requires k <= |s| && AllSpace(s[..k]) && AllSpace(s[k..])
    ensures AllSpace(s)
  {
    forall i | 0 <= i < |s| ensures IsSpace(s[i]) {
      if i < k {
        assert s[..k][i] == s[i];
      } else {
        assert s[k..][i - k] == s[i];
      }
    }
  }

  /** An all-white-space string is all leading white space. */
  lemma {:induction false} LeadingOfAllSpace(s: string)
    requires AllSpace(s)
    ensures LeadingSpaces(s) == |s|
    decreases |s|
  {
    if s != [] {
      assert IsSpace(s[0]);
      assert AllSpace(s[1..]) by {
        assert forall i :: 0 <= i < |s| - 1 ==> s[1..][i] == s[i + 1];
      }
      LeadingOfAllSpace(s[1..]);
    }
  }

  /** A string is blank exactly when it is all white space, which is exactly when it trims to nothing. */
  lemma BlankIffTrimEmpty(s: string)
    ensures IsBlank(s) <==> AllSpace(s)
    ensures IsBlank(s) <==> Trim(s) == []
  {
    BlankIffAllSpace(s);
  }

  /** The recursive blank test and the quantified one agree. */
  lemma {:induction false} BlankIffAllSpace(s: string)
    ensures IsBlank(s) <==> AllSpace(s)
    decreases |s|
  {
    if s != [] {
      BlankIffAllSpace(s[1..]);
      assert AllSpace(s) <==> IsSpace(s[0]) && AllSpace(s[1..]) by {
        assert forall i :: 1 <= i < |s| ==> s[i] == s[1..][i - 1];
      }
    }
  }

  // ---------------------------------------------------- searching a string

  /** The separator occurs in `s` starting at index `i`. */
  predicate OccursAt(s: string, sep: string, i: int) {
    0 <= i && i + |sep| <= |s| && s[i..i + |sep|] == sep
  }

  /** The first index at or after `from` where `sep` occurs in `s`, if any (`indexOf`). */
  function FindFrom(s: string, sep: string, from: nat): (r: Option<nat>)
    requires from <= |s|
    ensures r.Some? ==> from <= r.value && OccursAt(s, sep, r.value)
    ensures r.Some? ==> forall j :: from <= j < r.value ==> !OccursAt(s, sep, j)
    ensures r.None? ==> forall j :: from <= j ==> !OccursAt(s, sep, j)
    decreases |s| - from
  {
    if OccursAt(s, sep, from) then Some(from)
    else if from == |s| then None
    else FindFrom(s, sep, from + 1)
  }

  /** `s.includes(sep)`. */
  predicate Contains(s: string, sep: string) {
    FindFrom(s, sep, 0).Some?
  }

  /** `s.startsWith(prefix)`. */
  predicate StartsWith(s: string, prefix: string) {
    prefix <= s
  }

  // ------------------------------------------------- split on a separator

  /** The text before the first occurrence of `sep`, or all of `s` when there is none. */
  function Before(s: string, sep: string): (r: string)
    requires sep != []
    ensures r <= s
    ensures forall j :: 0 <= j < |r| ==> !OccursAt(s, sep, j)
    ensures Contains(s, sep) <==> OccursAt(s, sep, |r|)
    ensures !Contains(s, sep) ==> r == s
  {
    match FindFrom(s, sep, 0)
    case None => s
    case Some(k) => s[..k]
  }

  /** The text after the first occurrence of `sep`. */
  function After(s: string, sep: string): (r: string)
    requires sep != [] && Contains(s, sep)
    ensures s == Before(s, sep) + sep + r
  {
    var k := FindFrom(s, sep, 0).value;
    assert s == s[..k] + s[k..k + |sep|] + s[k + |sep|..];
    s[k + |sep|..]
  }

  /**
   * `sep` does not occur in `a`, not even as an occurrence that starts in `a`
   * and runs into a `sep` written right after it.
   */
  predicate EndsBeforeSeparator(a: string, sep: string)
    requires sep != []
  {
    !Contains(a + sep[..|sep| - 1], sep)
  }

  /**
   * The first occurrence of `sep` in `a + sep + b` is the one after `a`
   * exactly when no occurrence starts inside `a`, whatever `b` is.
   */
  lemma SplitAtFirst(a: string, sep: string, b: string)
    requires sep != []
    requires EndsBeforeSeparator(a, sep)
    ensures Contains(a + sep + b, sep)
    ensures Before(a + sep + b, sep) == a && After(a + sep + b, sep) == b
  {
    var s := a + sep + b;
    var head := a + sep[..|sep| - 1];
    assert s[|a|..|a| + |sep|] == sep;
    assert OccursAt(s, sep, |a|);
    assert forall j :: 0 <= j ==> !OccursAt(head, sep, j);
    forall j | 0 <= j < |a| ensures !OccursAt(s, sep, j) {
      assert !OccursAt(head, sep, j);
      forall k | j <= k < j + |sep| ensures s[k] == head[k] {
        if k >= |a| {
          assert s[k] == sep[k - |a|] == head[k];
        }
      }
      assert s[j..j + |sep|] == head[j..j + |sep|];
    }
    var r := Before(s, sep);
    assert |r| == |a|;
    assert r == s[..|a|] == a;
  }

  /**
   * `s.split(sep)` for a non-empty string separator: the pieces between the
   * leftmost non-overlapping occurrences of `sep`.
   */
  function Split(s: string, sep: string): (pieces: seq<string>)
    requires sep != []
    ensures |pieces| >= 1 && pieces[0] == Before(s, sep)
    ensures |pieces| >= 2 <==> Contains(s, sep)
    ensures Contains(s, sep) ==> pieces[1] == Before(After(s, sep), sep)
    decreases |s|
  {
    match FindFrom(s, sep, 0)
    case None => [s]
    case Some(k) => [s[..k]] + Split(s[k + |sep|..], sep)
  }

  /** `pieces.join(sep)`. */
  function Join(pieces: seq<string>, sep: string): (s: string)
    requires |pieces| >= 1
  {
    if |pieces| == 1 then pieces[0] else pieces[0] + sep + Join(pieces[1..], sep)
  }

  /** Joining the pieces of a split with the separator gives back the string. */
  lemma {:induction false} JoinSplit(s: string, sep: string)
    requires sep != []
    ensures Join(Split(s, sep), sep) == s
    decreases |s|
  {
    match FindFrom(s, sep, 0)
    case None =>
    case Some(k) =>
      var rest := s[k + |sep|..];
      JoinSplit(rest, sep);
      assert Split(s, sep)[1..] == Split(rest, sep);
      assert s == s[..k] + s[k..k + |sep|] + rest;
  }

  /** No piece of a split contains the separator. */
  lemma {:induction false} SplitPiecesOmitSeparator(s: string, sep: string)
    requires sep != []
    ensures forall p :: p in Split(s, sep) ==> !Contains(p, sep)
    decreases |s|
  {
    match FindFrom(s, sep, 0)
    case None =>
    case Some(k) =>
      var rest := s[k + |sep|..];
      SplitPiecesOmitSeparator(rest, sep);
      PrefixOmitsSeparator(s, sep, k);
      assert Split(s, sep) == [s[..k]] + Split(rest, sep);
  }

  /** A prefix that ends before the first occurrence of `sep` does not contain it. */
  lemma PrefixOmitsSeparator(s: string, sep: string, k: nat)
    requires sep != [] && k <= |s|
    requires forall j :: 0 <= j < k ==> !OccursAt(s, sep, j)
    ensures !Contains(s[..k], sep)
  {
    var head := s[..k];
    if Contains(head, sep) {
      var j := FindFrom(head, sep, 0).value;
      assert head[j..j + |sep|] == s[j..j + |sep|];
      assert OccursAt(s, sep, j);
      assert false;
    }
  }

  // --------------------------------------------- split on whitespace runs

  /** Index of the first whitespace character of `s`, or `|s|` when there is none. */
  function FirstSpace(s: string): (i: nat)
    ensures i <= |s| && NoSpace(s[..i])
    ensures i < |s| ==> IsSpace(s[i])
    decreases |s|
  {
    if s == [] || IsSpace(s[0]) then 0
    else
      var i := 1 + FirstSpace(s[1..]);
      assert forall j :: 1 <= j < i ==> s[j] == s[1..][j - 1];
      i
  }

  /**
   * `s.split(/\s+/)`: the pieces between maximal runs of whitespace (a run at
   * either end yields an empty first or last piece).
   */
  function SplitOnSpaceRuns(s: string): (words: seq<string>)
    ensures |words| >= 1
    ensures forall k :: 0 <= k < |words| ==> NoSpace(words[k])
    decreases |s|
  {
    var i := FirstSpace(s);
    if i == |s| then
      assert s[..i] == s;
      [s]
    else
      var run := s[i..];
      [s[..i]] + SplitOnSpaceRuns(run[LeadingSpaces(run)..])
  }

  /**
   * `s` with every maximal run of white space replaced by one space, defined
   * character by character: a white-space character followed by another is
   * dropped, and the last of a run becomes a space.
   */
  function CollapseSpaceRuns(s: string): string
    decreases |s|
  {
    if s == [] then []
    else if !IsSpace(s[0]) then [s[0]] + CollapseSpaceRuns(s[1..])
    else if |s| > 1 && IsSpace(s[1]) then CollapseSpaceRuns(s[1..])
    else " " + CollapseSpaceRuns(s[1..])
  }

  /**
   * The words of `split(/\s+/)`, joined with single spaces, are the input with
   * each white-space run collapsed to one space: together with the words
   * holding no white space, this fixes the words as the input's maximal
   * non-white-space runs, in order, with an empty word for a run at either end.
   */
  lemma {:induction false} SplitOnSpaceRunsCollapse(s: string)
    ensures Join(SplitOnSpaceRuns(s), " ") == CollapseSpaceRuns(s)
    decreases |s|
  {
    var i := FirstSpace(s);
    if i == |s| {
      SplitOnSpaceRunsOfWord(s);
      CollapseWord(s, []);
      assert s + [] == s;
    } else {
      var run := s[i..];
      var lead := LeadingSpaces(run);
      var rest := run[lead..];
      assert run[0] == s[i];
      RunThenRest(s, i, run, lead, rest);
      SplitOnSpaceRunsUnfold(s, i, lead);
      SplitOnSpaceRunsCollapse(rest);
      CollapseStep(s, s[..i], run[..lead], rest, SplitOnSpaceRuns(rest));
    }
  }

  /** Joining with single spaces is one-to-one on white-space-free words. */
  lemma {:induction false} JoinInjective(xs: seq<string>, ys: seq<string>)
    requires |xs| >= 1 && |ys| >= 1
    requires forall k :: 0 <= k < |xs| ==> NoSpace(xs[k])
    requires forall k :: 0 <= k < |ys| ==> NoSpace(ys[k])
    requires Join(xs, " ") == Join(ys, " ")
    ensures xs == ys
    decreases |xs|
  {
    var s := Join(xs, " ");
    FirstSpaceOfJoin(xs);
    FirstSpaceOfJoin(ys);
    if |xs| > 1 {
      var i := FirstSpace(s);
      assert xs[0] == s[..i] == ys[0];
      assert Join(xs[1..], " ") == s[i + 1..] == Join(ys[1..], " ");
      JoinInjective(xs[1..], ys[1..]);
      assert xs == [xs[0]] + xs[1..] && ys == [ys[0]] + ys[1..];
    }
  }

  /** The first white space of a join of white-space-free words is the space after the first word. */
  lemma FirstSpaceOfJoin(xs: seq<string>)
    requires |xs| >= 1 && forall k :: 0 <= k < |xs| ==> NoSpace(xs[k])
    ensures |xs| == 1 ==> FirstSpace(Join(xs, " ")) == |Join(xs, " ")| && Join(xs, " ") == xs[0]
    ensures |xs| > 1 ==>
      var s := Join(xs, " ");
      FirstSpace(s) == |xs[0]| < |s| && s[..|xs[0]|] == xs[0] && s[|xs[0]| + 1..] == Join(xs[1..], " ")
  {
    if |xs| > 1 {
      var rest := Join(xs[1..], " ");
      FirstSpaceAfterWord(xs[0], rest);
      assert (xs[0] + " " + rest)[..|xs[0]|] == xs[0];
      assert (xs[0] + " " + rest)[|xs[0]| + 1..] == rest;
    }
  }

  /** One word, one white-space run and the rest: the step of `SplitOnSpaceRunsCollapse`. */
  lemma CollapseStep(s: string, w: string, run: string, rest: string, words: seq<string>)
    requires s == w + (run + rest) && NoSpace(w)
    requires run != [] && AllSpace(run) && (rest == [] || !IsSpace(rest[0]))
    requires |words| >= 1 && Join(words, " ") == CollapseSpaceRuns(rest)
    ensures Join([w] + words, " ") == CollapseSpaceRuns(s)
  {
    calc {
      Join([w] + words, " ");
      { JoinCons(w, words, " "); }
      w + " " + Join(words, " ");
      w + (" " + CollapseSpaceRuns(rest));
      { CollapseRun(run, rest); }
      w + CollapseSpaceRuns(run + rest);
      { CollapseWord(w, run + rest); }
      CollapseSpaceRuns(s);
    }
  }

  /** A string without white space is a single word. */
  lemma SplitOnSpaceRunsOfWord(s: string)
    requires FirstSpace(s) == |s|
    ensures SplitOnSpaceRuns(s) == [s]
  {
    assert s[..|s|] == s;
  }

  /** `[w] + words` joins as `w`, the separator and the join of `words`. */
  lemma JoinCons(w: string, words: seq<string>, sep: string)
    requires |words| >= 1
    ensures Join([w] + words, sep) == w + sep + Join(words, sep)
  {
    assert ([w] + words)[1..] == words;
  }

  /** The pieces `SplitOnSpaceRuns` cuts `s` into at its first white-space run. */
  lemma RunThenRest(s: string, i: nat, run: string, lead: nat, rest: string)
    requires i < |s| && run == s[i..] && lead <= |run| && rest == run[lead..]
    requires IsSpace(run[0]) && AllSpace(run[..lead]) && (lead < |run| ==> !IsSpace(run[lead]))
    ensures s == s[..i] + run
    ensures run == run[..lead] + rest && run[..lead] != []
    ensures rest == [] || !IsSpace(rest[0])
  {
  }

  /** A word without white space passes through the collapse unchanged. */
  lemma {:induction false} CollapseWord(w: string, t: string)
    requires NoSpace(w)
    ensures CollapseSpaceRuns(w + t) == w + CollapseSpaceRuns(t)
    decreases |w|
  {
    if w != [] {
      assert (w + t)[0] == w[0] && (w + t)[1..] == w[1..] + t;
      assert !IsSpace(w[0]);
      assert CollapseSpaceRuns(w + t) == [w[0]] + CollapseSpaceRuns(w[1..] + t);
      assert NoSpace(w[1..]) by {
        assert forall k :: 0 <= k < |w| - 1 ==> w[1..][k] == w[k + 1];
      }
      CollapseWord(w[1..], t);
      assert [w[0]] + (w[1..] + CollapseSpaceRuns(t)) == w + CollapseSpaceRuns(t);
    } else {
      assert w + t == t;
    }
  }

  /** A non-empty white-space run before a non-space (or the end) collapses to one space. */
  lemma {:induction false} CollapseRun(run: string, t: string)
    requires run != [] && AllSpace(run)
    requires t == [] || !IsSpace(t[0])
    ensures CollapseSpaceRuns(run + t) == " " + CollapseSpaceRuns(t)
    decreases |run|
  {
    assert (run + t)[1..] == run[1..] + t;
    if |run| > 1 {
      CollapseRun(run[1..], t);
    }
  }

  /** Words joined with single spaces split back into the same words. */
  lemma {:induction false} SplitOnSpaceRunsOfJoin(words: seq<string>)
    requires |words| >= 1
    requires forall k :: 0 <= k < |words| ==> words[k] != [] && NoSpace(words[k])
    ensures SplitOnSpaceRuns(Join(words, " ")) == words
    decreases |words|
  {
    var w := words[0];
    if |words| == 1 {
      assert FirstSpace(w) == |w|;
    } else {
      var rest := Join(words[1..], " ");
      JoinStartsWith(words[1..]);
      SplitOnSpaceRunsStep(w, rest);
      SplitOnSpaceRunsOfJoin(words[1..]);
      assert words == [w] + words[1..];
    }
  }

  /** A word, one space and a text that starts with a non-space split into the word and the text's words. */
  lemma SplitOnSpaceRunsStep(w: string, rest: string)
    requires w != [] && NoSpace(w) && rest != [] && !IsSpace(rest[0])
    ensures SplitOnSpaceRuns(w + " " + rest) == [w] + SplitOnSpaceRuns(rest)
  {
    FirstSpaceAfterWord(w, rest);
    WordThenSpace(w, rest);
    LeadingSpaceThenText(rest);
    SplitOnSpaceRunsUnfold(w + " " + rest, |w|, 1);
  }

  /**
   * One step of `SplitOnSpaceRuns`: the word before the first space, then the
   * words after the run (stated alone so callers need not unfold the function).
   */
  lemma SplitOnSpaceRunsUnfold(s: string, i: nat, lead: nat)
    requires i == FirstSpace(s) && i < |s| && lead == LeadingSpaces(s[i..])
    ensures SplitOnSpaceRuns(s) == [s[..i]] + SplitOnSpaceRuns(s[i..][lead..])
  {
  }

  /** In a word followed by a space, the first white space is that space. */
  lemma FirstSpaceAfterWord(w: string, rest: string)
    requires NoSpace(w)
    ensures FirstSpace(w + " " + rest) == |w|
  {
    assert (w + " " + rest)[|w|] == ' ';
  }

  /** The two halves of a word followed by a space and a text (stated alone so callers stay cheap). */
  lemma WordThenSpace(w: string, rest: string)
    ensures (w + " " + rest)[..|w|] == w && (w + " " + rest)[|w|..] == " " + rest
  {
  }

  /** One space before a text that starts with a non-space is a run of length one. */
  lemma LeadingSpaceThenText(rest: string)
    requires rest != [] && !IsSpace(rest[0])
    ensures LeadingSpaces(" " + rest) == 1 && (" " + rest)[1..] == rest
  {
    assert (" " + rest)[1..] == rest;
  }

  /** A join of non-empty whitespace-free words starts and ends with a non-space. */
  lemma {:induction false} JoinStartsWith(words: seq<string>)
    requires |words| >= 1
    requires forall k :: 0 <= k < |words| ==> words[k] != [] && NoSpace(words[k])
    ensures Join(words, " ") != []
    ensures Join(words, " ")[0] == words[0][0]
    ensures var s := Join(words, " "); var last := words[|words| - 1]; s[|s| - 1] == last[|last| - 1]
    decreases |words|
  {
    if |words| > 1 {
      JoinStartsWith(words[1..]);
    }
  }

  // --------------------------------------------------------- lower case

  /** `toLowerCase` on one character, for the ASCII letters. */
  function LowerChar(c: char): char {
    if 'A' <= c <= 'Z' then (c as int - 'A' as int + 'a' as int) as char else c
  }

  /** `s.toLowerCase()` restricted to ASCII letters. */
  function ToLower(s: string): (r: string)
    ensures |r| == |s|
    ensures forall i :: 0 <= i < |s| ==> r[i] == LowerChar(s[i])
    ensures IsLower(r)
    ensures IsLower(s) ==> r == s
  {
    seq(|s|, i requires 0 <= i < |s| => LowerChar(s[i]))
  }

  /** No ASCII capital letter. */
  predicate IsLower(s: string) {
    forall i :: 0 <= i < |s| ==> !('A' <= s[i] <= 'Z')
  }

  // ---------------------------------------------------- number formatting

  /** Decimal digits of a natural number. */
  function NatToString(n: nat): (r: string)
    ensures r != [] && forall i :: 0 <= i < |r| ==> '0' <= r[i] <= '9'
    decreases n
  {
    var digit := ['0' + (n % 10) as char];
    if n < 10 then digit else NatToString(n / 10) + digit
  }

  /** `n.toFixed(0)` for an integer `n`. */
  function IntToString(n: int): (r: string)
    ensures r != []
  {
    if n < 0 then "-" + NatToString(-n) else NatToString(n)
  }
}
