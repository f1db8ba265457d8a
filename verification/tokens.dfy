/**
 * Whitespace tokenisation of an input line: JavaScript's
 * `trim().split(/\s+/).filter(Boolean)` and Python's argument-less `split()`,
 * which both yield the maximal runs of non-whitespace characters. The
 * whitespace class is a parameter `ws`, since the two runtimes use different
 * ones.
 */
module Tokens {

  /** No character of `w` is whitespace. */
  predicate Clean(ws: char -> bool, w: string) {
    forall i | 0 <= i < |w| :: !ws(w[i])
  }

  /** The number of whitespace characters `s` starts with. */
  function SpaceRun(ws: char -> bool, s: string): (n: nat)
    ensures n <= |s|
    ensures forall i | 0 <= i < n :: ws(s[i])
    ensures n < |s| ==> !ws(s[n])
  {
    if |s| == 0 || !ws(s[0]) then 0 else 1 + SpaceRun(ws, s[1..])
  }

  /** The number of non-whitespace characters `s` starts with. */
  function WordLength(ws: char -> bool, s: string): (n: nat)
    ensures n <= |s|
    ensures forall i | 0 <= i < n :: !ws(s[i])
    ensures n < |s| ==> ws(s[n])
  {
    if |s| == 0 || ws(s[0]) then 0 else 1 + WordLength(ws, s[1..])
  }

  /** The tokens of `s`, in order. */
  function Split(ws: char -> bool, s: string): (ts: seq<string>)
    ensures forall k | 0 <= k < |ts| :: |ts[k]| > 0 && Clean(ws, ts[k])
    decreases |s|
  {
    var t := s[SpaceRun(ws, s)..];
    if |t| == 0 then []
    else
      var n := WordLength(ws, t);
      assert n > 0 && Clean(ws, t[..n]);
      [t[..n]] + Split(ws, t[n..])
  }

  /** The tokens written out separated by single spaces, as a user types a list. */
  function Join(ts: seq<string>): string {
    if |ts| == 0 then ""
    else if |ts| == 1 then ts[0]
    else ts[0] + (" " + Join(ts[1..]))
  }

  /** The characters of `s` that are not whitespace, in order. */
  function NonSpace(ws: char -> bool, s: string): string {
    if |s| == 0 then ""
    else if ws(s[0]) then NonSpace(ws, s[1..])
    else [s[0]] + NonSpace(ws, s[1..])
  }

  /** The tokens written one after another. */
  function Concat(ts: seq<string>): string {
    if |ts| == 0 then "" else ts[0] + Concat(ts[1..])
  }

  lemma {:induction false} NonSpaceAppend(ws: char -> bool, a: string, b: string)
    ensures NonSpace(ws, a + b) == NonSpace(ws, a) + NonSpace(ws, b)
  {
    if |a| > 0 {
      assert (a + b)[1..] == a[1..] + b;
      NonSpaceAppend(ws, a[1..], b);
    } else {
      assert a + b == b;
    }
  }

  lemma {:induction false} NonSpaceOfClean(ws: char -> bool, w: string)
    requires Clean(ws, w)
    ensures NonSpace(ws, w) == w
  {
    if |w| > 0 {
      NonSpaceOfClean(ws, w[1..]);
    }
  }

  lemma {:induction false} NonSpaceOfSpaces(ws: char -> bool, s: string)
    requires forall i | 0 <= i < |s| :: ws(s[i])
    ensures NonSpace(ws, s) == ""
  {
    if |s| > 0 {
      NonSpaceOfSpaces(ws, s[1..]);
    }
  }

  /** Leading whitespace contributes nothing to the non-whitespace characters. */
  lemma NonSpaceAfterDrop(ws: char -> bool, s: string)
    ensures NonSpace(ws, s[SpaceRun(ws, s)..]) == NonSpace(ws, s)
  {
    var a := SpaceRun(ws, s);
    var lead := s[..a];
    assert s == lead + s[a..];
    NonSpaceOfSpaces(ws, lead);
    NonSpaceAppend(ws, lead, s[a..]);
  }

  /** A leading token is kept whole, followed by the non-whitespace of the rest. */
  lemma NonSpaceOfWord(ws: char -> bool, t: string, n: nat)
    requires n <= |t| && forall i | 0 <= i < n :: !ws(t[i])
    ensures NonSpace(ws, t) == t[..n] + NonSpace(ws, t[n..])
  {
    assert t == t[..n] + t[n..];
    NonSpaceAppend(ws, t[..n], t[n..]);
    NonSpaceOfClean(ws, t[..n]);
  }

  /** Tokenising loses no character but whitespace and reorders nothing. */
  lemma {:induction false} SplitKeepsContent(ws: char -> bool, s: string)
    ensures Concat(Split(ws, s)) == NonSpace(ws, s)
    decreases |s|
  {
    var t := s[SpaceRun(ws, s)..];
    NonSpaceAfterDrop(ws, s);
    if |t| > 0 {
      var n := WordLength(ws, t);
      NonSpaceOfWord(ws, t, n);
      SplitKeepsContent(ws, t[n..]);
      assert Split(ws, s) == [t[..n]] + Split(ws, t[n..]);
      assert Concat(Split(ws, s)) == t[..n] + Concat(Split(ws, t[n..]));
    }
  }

  /** A leading whitespace character does not change the tokens. */
  lemma {:induction false} SplitSkipsSpace(ws: char -> bool, c: char, s: string)
    requires ws(c)
    ensures Split(ws, [c] + s) == Split(ws, s)
  {
    var s' := [c] + s;
    assert s'[1..] == s;
    assert SpaceRun(ws, s') == 1 + SpaceRun(ws, s);
    assert s'[SpaceRun(ws, s')..] == s[SpaceRun(ws, s)..];
  }

  lemma {:induction false} WordLengthOfWord(ws: char -> bool, w: string, rest: string)
    requires |w| > 0 && Clean(ws, w)
    requires |rest| == 0 || ws(rest[0])
    ensures WordLength(ws, w + rest) == |w|
  {
    var s := w + rest;
    assert s[0] == w[0];
    assert s[1..] == w[1..] + rest;
    if |w| > 1 {
      WordLengthOfWord(ws, w[1..], rest);
    }
  }

  /** A line that starts with a token splits into that token and the tokens of the remainder. */
  lemma SplitWordThen(ws: char -> bool, w: string, rest: string)
    requires |w| > 0 && Clean(ws, w)
    requires |rest| == 0 || ws(rest[0])
    ensures Split(ws, w + rest) == [w] + Split(ws, rest)
  {
    var s := w + rest;
    assert s[0] == w[0];
    assert SpaceRun(ws, s) == 0;
    WordLengthOfWord(ws, w, rest);
    assert s[..|w|] == w && s[|w|..] == rest;
  }

  lemma SplitSingle(ws: char -> bool, w: string)
    requires |w| > 0 && Clean(ws, w)
    ensures Split(ws, w) == [w]
  {
    SplitWordThen(ws, w, "");
    assert w + "" == w;
  }

  /** Tokenising a list the user typed with single spaces gives the list back. */
  lemma SplitJoinStep(ws: char -> bool, w: string, rest: seq<string>)
    requires ws(' ') && |w| > 0 && Clean(ws, w)
    requires Split(ws, Join(rest)) == rest
    ensures Split(ws, w + (" " + Join(rest))) == [w] + rest
  {
    var tail := Join(rest);
    SplitWordThen(ws, w, " " + tail);
    SplitSkipsSpace(ws, ' ', tail);
    assert " " + tail == [' '] + tail;
  }

  lemma {:induction false} SplitJoin(ws: char -> bool, ts: seq<string>)
    requires ws(' ')
    requires forall k | 0 <= k < |ts| :: |ts[k]| > 0 && Clean(ws, ts[k])
    ensures Split(ws, Join(ts)) == ts
  {
    if |ts| == 0 {
      SplitBlank(ws, "");
    } else if |ts| == 1 {
      SplitSingle(ws, ts[0]);
      assert ts == [ts[0]];
    } else if |ts| > 1 {
      var rest := ts[1..];
      SplitJoin(ws, rest);
      SplitJoinStep(ws, ts[0], rest);
      assert Join(ts) == ts[0] + (" " + Join(rest));
      assert ts == [ts[0]] + rest;
    }
  }

  /** Every character of `g` is whitespace. */
  predicate Blank(ws: char -> bool, g: string) {
    forall i | 0 <= i < |g| :: ws(g[i])
  }

  /** Whitespace-only text in front of a line does not change its tokens. */
  lemma {:induction false} SplitSkipsSpaces(ws: char -> bool, g: string, s: string)
    requires Blank(ws, g)
    ensures Split(ws, g + s) == Split(ws, s)
    decreases |g|
  {
    if |g| > 0 {
      assert g + s == [g[0]] + (g[1..] + s);
      SplitSkipsSpaces(ws, g[1..], s);
      SplitSkipsSpace(ws, g[0], g[1..] + s);
    } else {
      assert g + s == s;
    }
  }

  /** A line of whitespace only has no tokens. */
  lemma SplitBlank(ws: char -> bool, g: string)
    requires Blank(ws, g)
    ensures Split(ws, g) == []
  {
    SplitSkipsSpaces(ws, g, "");
    assert g + "" == g;
  }

  /**
   * The tokens `ts` written with the whitespace `gaps` around and between them:
   * `gaps[0] + ts[0] + gaps[1] + ... + ts[n-1] + gaps[n]`.
   */
  function Weave(gaps: seq<string>, ts: seq<string>): string
    requires |gaps| == |ts| + 1
  {
    if |ts| == 0 then gaps[0] else gaps[0] + (ts[0] + Weave(gaps[1..], ts[1..]))
  }

  /** A woven line that is not exhausted by its leading gap continues with whitespace after the first token. */
  lemma WeaveTailStartsBlank(ws: char -> bool, gaps: seq<string>, ts: seq<string>)
    requires |gaps| == |ts| + 1 && |gaps| > 0 && Blank(ws, gaps[0])
    requires |ts| > 0 ==> |gaps[0]| > 0
    ensures var w := Weave(gaps, ts); |w| == 0 || ws(w[0])
  {
    var w := Weave(gaps, ts);
    if |gaps[0]| > 0 {
      assert w[0] == gaps[0][0];
    }
  }

  /** Leading whitespace, then a token, then text that starts with whitespace or is empty. */
  lemma SplitWeaveStep(ws: char -> bool, g: string, w: string, rest: string)
    requires Blank(ws, g) && |w| > 0 && Clean(ws, w)
    requires |rest| == 0 || ws(rest[0])
    ensures Split(ws, g + (w + rest)) == [w] + Split(ws, rest)
  {
    SplitWordThen(ws, w, rest);
    SplitSkipsSpaces(ws, g, w + rest);
  }

  /**
   * Tokenising gives back the tokens however the user spaced them: leading and
   * trailing whitespace of any kind and length, and at least one whitespace
   * character of any kind between two tokens.
   */
  lemma {:induction false} SplitWeave(ws: char -> bool, gaps: seq<string>, ts: seq<string>)
    requires |gaps| == |ts| + 1
    requires forall k | 0 <= k < |gaps| :: Blank(ws, gaps[k])
    requires forall k | 0 < k < |ts| :: |gaps[k]| > 0
    requires forall k | 0 <= k < |ts| :: |ts[k]| > 0 && Clean(ws, ts[k])
    ensures Split(ws, Weave(gaps, ts)) == ts
  {
    if |ts| == 0 {
      SplitBlank(ws, gaps[0]);
    } else {
      var rest := Weave(gaps[1..], ts[1..]);
      assert Weave(gaps, ts) == gaps[0] + (ts[0] + rest);
      SplitWeave(ws, gaps[1..], ts[1..]);
      WeaveTailStartsBlank(ws, gaps[1..], ts[1..]);
      SplitWeaveStep(ws, gaps[0], ts[0], rest);
      assert ts == [ts[0]] + ts[1..];
    }
  }
}
