/**
 * The two runtimes the program was written for. The JavaScript and the Python
 * revision share their logic; they differ only in how a string's length is
 * measured and which characters count as whitespace.
 */
module Platform {

  datatype Dialect = JavaScript | Python

  /** Characters matched by `\s` in a JavaScript regular expression (and removed by `trim`). */
  predicate JsSpace(c: char) {
    || ('\t' <= c <= '\r')
    || c == ' '
    || c == '\U{00A0}'
    || c == '\U{1680}'
    || ('\U{2000}' <= c <= '\U{200A}')
    || c == '\U{2028}'
    || c == '\U{2029}'
    || c == '\U{202F}'
    || c == '\U{205F}'
    || c == '\U{3000}'
    || c == '\U{FEFF}'
  }

  /** Characters on which Python's argument-less `str.split()` breaks (those `str.isspace` accepts). */
  predicate PySpace(c: char) {
    || ('\t' <= c <= '\r')
    || ('\U{001C}' <= c <= '\U{001F}')
    || c == ' '
    || c == '\U{0085}'
    || c == '\U{00A0}'
    || c == '\U{1680}'
    || ('\U{2000}' <= c <= '\U{200A}')
    || c == '\U{2028}'
    || c == '\U{2029}'
    || c == '\U{202F}'
    || c == '\U{205F}'
    || c == '\U{3000}'
  }

  /**
   * The two whitespace classes differ in exactly five characters: the byte-order
   * mark U+FEFF is whitespace only for JavaScript; the information separators
   * U+001C..U+001F and the next-line character U+0085 only for Python.
   */
  lemma WhitespaceSetsDiffer(c: char)
    ensures JsSpace(c) && !PySpace(c) <==> c == '\U{FEFF}'
    ensures PySpace(c) && !JsSpace(c) <==> '\U{001C}' <= c <= '\U{001F}' || c == '\U{0085}'
  {
  }

  predicate IsSpace(d: Dialect, c: char) {
    match d
    case JavaScript => JsSpace(c)
    case Python => PySpace(c)
  }

  /** The whitespace class of a runtime, as a predicate. */
  function Spaces(d: Dialect): char -> bool {
    c => IsSpace(d, c)
  }

  /** A character outside the Basic Multilingual Plane takes a surrogate pair in UTF-16. */
  predicate Astral(c: char) {
    c as int >= 0x1_0000
  }

  /** The number of characters of `s` outside the Basic Multilingual Plane. */
  function AstralCount(s: string): nat {
    if |s| == 0 then 0 else (if Astral(s[0]) then 1 else 0) + AstralCount(s[1..])
  }

  /** Counting from the back gives the same number. */
  lemma {:induction false} AstralCountSnoc(s: string)
    requires |s| > 0
    ensures AstralCount(s) == AstralCount(s[..|s| - 1]) + (if Astral(s[|s| - 1]) then 1 else 0)
  {
    if |s| > 1 {
      AstralCountSnoc(s[1..]);
      assert s[1..][..|s| - 2] == s[..|s| - 1][1..];
    }
  }

  /**
   * JavaScript's `String.prototype.length`: the number of UTF-16 code units, one
   * per character plus one more for each character that needs a surrogate pair.
   */
  function Utf16Length(s: string): (n: nat)
    ensures n == |s| + AstralCount(s)
    ensures |s| <= n <= 2 * |s|
  {
    if |s| == 0 then 0
    else
      AstralCountSnoc(s);
      Utf16Length(s[..|s| - 1]) + (if Astral(s[|s| - 1]) then 2 else 1)
  }

  /** The length a validator compares against its minimum: code units in JavaScript, code points in Python. */
  function Length(d: Dialect, s: string): (n: nat)
    ensures d == Python ==> n == |s|
    ensures d == JavaScript ==> n == |s| + AstralCount(s)
    ensures |s| <= n <= 2 * |s|
  {
    match d
    case JavaScript => Utf16Length(s)
    case Python => |s|
  }

  /** Both runtimes measure a string without astral characters alike, and only such a string. */
  lemma {:induction false} LengthsAgreeOnBmp(s: string)
    ensures Utf16Length(s) == |s| <==> forall i | 0 <= i < |s| :: !Astral(s[i])
  {
    if |s| > 0 {
      var init := s[..|s| - 1];
      LengthsAgreeOnBmp(init);
      assert forall i | 0 <= i < |init| :: init[i] == s[i];
    }
  }

  /** Both dialects treat the plain space and the line feed as whitespace. */
  lemma SpaceAndNewlineAreWhitespace(d: Dialect)
    ensures IsSpace(d, ' ') && IsSpace(d, '\n')
  {
  }
}
