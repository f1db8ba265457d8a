/**
 * The four address checks of the exchange table (the `mainValidator` and
 * `coinValidator` entries), written as character classes and prefix-and-length
 * tests instead of regular expressions.
 */
module Validators {
  import opened Platform
  import opened Text

  /** The four address formats the table uses. */
  datatype Rule = NanoRule | BananoRule | SolanaRule | UsdtRule

  /** The class `[1-9A-HJ-NP-Za-km-z]`: base58 digits. */
  predicate Base58Char(c: char) {
    || ('1' <= c <= '9')
    || ('A' <= c <= 'H')
    || ('J' <= c <= 'N')
    || ('P' <= c <= 'Z')
    || ('a' <= c <= 'k')
    || ('m' <= c <= 'z')
  }

  /** The class `[a-fA-F0-9]`. */
  predicate HexChar(c: char) {
    ('0' <= c <= '9') || ('a' <= c <= 'f') || ('A' <= c <= 'F')
  }

  /** A whole-string match of `[1-9A-HJ-NP-Za-km-z]{32,44}`. */
  predicate SolanaShape(s: string) {
    32 <= |s| <= 44 && forall i | 0 <= i < |s| :: Base58Char(s[i])
  }

  /** A whole-string match of `0x[a-fA-F0-9]{40}`. */
  predicate UsdtShape(s: string) {
    |s| == 42 && s[0] == '0' && s[1] == 'x' && forall i | 2 <= i < |s| :: HexChar(s[i])
  }

  /**
   * An anchored `^...$` match. JavaScript's `$` (without the `m` flag) matches
   * only at the end of the input; Python's `$` also matches just before a
   * newline that ends the input, so `re.match` accepts one trailing `\n`.
   */
  predicate AnchoredMatch(d: Dialect, s: string, shape: string -> bool) {
    || shape(s)
    || (d == Python && |s| > 0 && s[|s| - 1] == '\n' && shape(s[..|s| - 1]))
  }

  /** The validator for `rule` as the given runtime evaluates it. */
  predicate Accepts(d: Dialect, rule: Rule, s: string)
    ensures Accepts(d, rule, s) ==> |s| >= 32
  {
    match rule
    case NanoRule => Length(d, s) >= 65 && StartsWith(s, "nano_")
    case BananoRule => Length(d, s) >= 64 && StartsWith(s, "ban_")
    case SolanaRule => AnchoredMatch(d, s, SolanaShape)
    case UsdtRule => AnchoredMatch(d, s, UsdtShape)
  }

  /** An ASCII digit or letter. */
  predicate AsciiAlphanumeric(c: char) {
    ('0' <= c <= '9') || ('A' <= c <= 'Z') || ('a' <= c <= 'z')
  }

  /** The look-alike symbols base58 leaves out of the 62 ASCII digits and letters. */
  const Lookalikes := "0OIl"

  /** The ranges of the Solana class are the ASCII digits and letters minus the look-alikes. */
  lemma Base58IsAlphanumericWithoutLookalikes(c: char)
    ensures Base58Char(c) <==> AsciiAlphanumeric(c) && c !in Lookalikes
  {
  }

  /** A string the Solana check accepts never holds one of the look-alikes `0`, `O`, `I`, `l`. */
  lemma SolanaRejectsLookalikes(d: Dialect, s: string)
    requires Accepts(d, SolanaRule, s)
    ensures '0' !in s && 'O' !in s && 'I' !in s && 'l' !in s
  {
    var body := if SolanaShape(s) then s else s[..|s| - 1];
    assert SolanaShape(body);
    assert forall i | 0 <= i < |s| :: s[i] in body || s[i] == '\n';
  }

  /** An accepted Solana address starts with 32 base58 digits, whatever the runtime. */
  lemma SolanaStartsBase58(d: Dialect, s: string)
    requires Accepts(d, SolanaRule, s)
    ensures |s| >= 32 && forall i | 0 <= i < 32 :: Base58Char(s[i])
  {
    if !SolanaShape(s) {
      var body := s[..|s| - 1];
      assert SolanaShape(body);
      assert forall i | 0 <= i < 32 :: s[i] == body[i];
    }
  }

  /** An accepted Polygon address starts with `0x`, whatever the runtime. */
  lemma UsdtStartsZero(d: Dialect, s: string)
    requires Accepts(d, UsdtRule, s)
    ensures |s| >= 42 && s[0] == '0' && s[1] == 'x'
  {
    if !UsdtShape(s) {
      var body := s[..|s| - 1];
      assert UsdtShape(body);
      assert body[0] == s[0] && body[1] == s[1];
    }
  }

  /**
   * On a string without a line feed the two runtimes agree on the regular-expression
   * checks; Python's extra acceptance needs a final `\n`.
   */
  lemma RegexDialectsAgree(rule: Rule, s: string)
    requires rule == SolanaRule || rule == UsdtRule
    requires '\n' !in s
    ensures Accepts(JavaScript, rule, s) <==> Accepts(Python, rule, s)
  {
    if |s| > 0 {
      assert s[|s| - 1] in s;
    }
  }

  /** Python's anchored match accepts exactly the JavaScript strings and those followed by one `\n`. */
  lemma PythonDollarAcceptsFinalNewline(rule: Rule, s: string)
    requires rule == SolanaRule || rule == UsdtRule
    ensures Accepts(JavaScript, rule, s) ==> Accepts(Python, rule, s)
    ensures Accepts(JavaScript, rule, s) ==> Accepts(Python, rule, s + "\n")
    ensures Accepts(JavaScript, rule, s) ==> !Accepts(JavaScript, rule, s + "\n")
    ensures Accepts(Python, rule, s) ==>
              || Accepts(JavaScript, rule, s)
              || (|s| > 0 && s[|s| - 1] == '\n' && Accepts(JavaScript, rule, s[..|s| - 1]))
  {
    assert (s + "\n")[..|s|] == s;
  }

  /**
   * A Solana address is 32 to 44 ASCII digits and letters other than the look-alikes;
   * a Polygon address is `0x` and 40 hex digits.
   */
  lemma RegexRuleCharacterisation(s: string)
    ensures Accepts(JavaScript, SolanaRule, s) <==>
              32 <= |s| <= 44 && forall c | c in s :: AsciiAlphanumeric(c) && c !in Lookalikes
    ensures Accepts(JavaScript, UsdtRule, s) <==>
              |s| == 42 && StartsWith(s, "0x") && forall c | c in s[2..] :: HexChar(c)
  {
    if 32 <= |s| <= 44 && forall c | c in s :: AsciiAlphanumeric(c) && c !in Lookalikes {
      forall i | 0 <= i < |s|
        ensures Base58Char(s[i])
      {
        assert s[i] in s;
        Base58IsAlphanumericWithoutLookalikes(s[i]);
      }
    }
    if Accepts(JavaScript, SolanaRule, s) {
      forall c | c in s
        ensures AsciiAlphanumeric(c) && c !in Lookalikes
      {
        Base58IsAlphanumericWithoutLookalikes(c);
      }
    }
    if |s| == 42 && StartsWith(s, "0x") && forall c | c in s[2..] :: HexChar(c) {
      assert s[0] == "0x"[0] && s[1] == "0x"[1];
      forall i | 2 <= i < |s|
        ensures HexChar(s[i])
      {
        assert s[i] == s[2..][i - 2];
      }
    }
    if Accepts(JavaScript, UsdtRule, s) {
      assert s[..2] == "0x";
    }
  }

  /**
   * The prefix-and-length checks: whatever Python accepts JavaScript accepts too,
   * and on strings without astral characters the two agree.
   */
  lemma LengthRuleDialects(rule: Rule, s: string)
    requires rule == NanoRule || rule == BananoRule
    ensures Accepts(Python, rule, s) ==> Accepts(JavaScript, rule, s)
    ensures (forall i | 0 <= i < |s| :: !Astral(s[i])) ==>
              (Accepts(JavaScript, rule, s) <==> Accepts(Python, rule, s))
  {
    LengthsAgreeOnBmp(s);
  }

  /**
   * Read as concatenations: Python accepts exactly `nano_` followed by at least
   * 60 characters, and `ban_` followed by at least 60 characters.
   */
  lemma PrefixRulesAsConcatenation(t: string, s: string)
    ensures |t| >= 60 ==> Accepts(Python, NanoRule, "nano_" + t) && Accepts(Python, BananoRule, "ban_" + t)
    ensures Accepts(Python, NanoRule, s) ==> s == "nano_" + s[5..] && |s[5..]| >= 60
    ensures Accepts(Python, BananoRule, s) ==> s == "ban_" + s[4..] && |s[4..]| >= 60
  {
    assert ("nano_" + t)[..5] == "nano_";
    assert ("ban_" + t)[..4] == "ban_";
    if Accepts(Python, NanoRule, s) {
      assert s == s[..5] + s[5..];
    }
    if Accepts(Python, BananoRule, s) {
      assert s == s[..4] + s[4..];
    }
  }

  /** A minimum-length address of astral characters after `nano_`: 35 code points, 65 code units. */
  function AstralNano(): string {
    "nano_" + seq(30, _ => '\U{1F34C}')
  }

  /**
   * The two revisions disagree on an input: JavaScript counts `AstralNano()` as
   * 65 long and accepts it, Python counts 35 and rejects it.
   */
  lemma NanoDialectsDisagree()
    ensures Accepts(JavaScript, NanoRule, AstralNano())
    ensures !Accepts(Python, NanoRule, AstralNano())
  {
    var s := AstralNano();
    assert StartsWith(s, "nano_");
    Utf16OfAstralRun(s, 5);
  }

  lemma {:induction false} Utf16OfAstralRun(s: string, k: nat)
    requires k <= |s|
    requires forall i | k <= i < |s| :: Astral(s[i])
    ensures Utf16Length(s) >= Utf16Length(s[..k]) + 2 * (|s| - k)
  {
    if |s| > k {
      var init := s[..|s| - 1];
      assert init[..k] == s[..k];
      Utf16OfAstralRun(init, k);
      assert Astral(s[|s| - 1]);
      assert Utf16Length(s) == Utf16Length(init) + 2;
    } else {
      assert s[..k] == s;
    }
  }
}
