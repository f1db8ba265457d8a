/**
 * Address-list intake (`getAddresses` / `get_addresses`): one input line is
 * split on whitespace and accepted only when it holds at least one address and
 * every address passes the check; otherwise the user is asked again.
 */
module Intake {
  import opened Wrappers
  import opened Platform
  import opened Validators
  import opened Tokens
  import opened Prompts

  /** Why a line was refused: nothing entered, or some address failed its check. */
  datatype Rejection = NoAddresses | InvalidAddresses

  /** Every entry of the list passes the check. */
  predicate AllAccepted(d: Dialect, rule: Rule, addrs: seq<string>) {
    forall k | 0 <= k < |addrs| :: Accepts(d, rule, addrs[k])
  }

  /** One attempt: the addresses of `line`, or the reason it is asked again. */
  function ReadLine(d: Dialect, rule: Rule, line: string): (r: Result<seq<string>, Rejection>)
    ensures r.Success? ==> |r.value| > 0
    ensures r.Success? ==> forall k | 0 <= k < |r.value| ::
              |r.value[k]| > 0 && Clean(Spaces(d), r.value[k]) && Accepts(d, rule, r.value[k])
    ensures r.Success? ==> Concat(r.value) == NonSpace(Spaces(d), line)
    ensures r.Success? ==> r.value == Split(Spaces(d), line)
    ensures r == Failure(NoAddresses) <==> NonSpace(Spaces(d), line) == ""
    ensures r == Failure(InvalidAddresses) <==>
              exists k | 0 <= k < |Split(Spaces(d), line)| :: !Accepts(d, rule, Split(Spaces(d), line)[k])
  {
    var addrs := Split(Spaces(d), line);
    SplitKeepsContent(Spaces(d), line);
    if |addrs| == 0 then Failure(NoAddresses)
    else
      assert |addrs[0]| > 0;
      ConcatNonEmpty(addrs);
      if !AllAccepted(d, rule, addrs) then Failure(InvalidAddresses)
      else Success(addrs)
  }

  lemma ConcatNonEmpty(ts: seq<string>)
    requires |ts| > 0 && |ts[0]| > 0
    ensures Concat(ts) != ""
  {
    assert Concat(ts)[0] == ts[0][0];
  }

  /**
   * The addresses handed to a check never contain whitespace, so Python's
   * extra acceptance of a final newline cannot show: on them both runtimes
   * apply the same regular-expression checks.
   */
  lemma TokensSeeSameRegexCheck(d: Dialect, rule: Rule, w: string)
    requires rule == SolanaRule || rule == UsdtRule
    requires Clean(Spaces(d), w)
    ensures Accepts(JavaScript, rule, w) <==> Accepts(Python, rule, w)
  {
    SpaceAndNewlineAreWhitespace(d);
    assert '\n' !in w by {
      forall i | 0 <= i < |w|
        ensures w[i] != '\n'
      {
        assert !Spaces(d)(w[i]);
      }
    }
    RegexDialectsAgree(rule, w);
  }

  /** A list typed with single spaces between valid addresses is accepted as it was typed. */
  lemma ReadJoinedList(d: Dialect, rule: Rule, addrs: seq<string>)
    requires |addrs| > 0
    requires forall k | 0 <= k < |addrs| :: |addrs[k]| > 0 && Clean(Spaces(d), addrs[k])
    requires AllAccepted(d, rule, addrs)
    ensures ReadLine(d, rule, Join(addrs)) == Success(addrs)
  {
    SpaceAndNewlineAreWhitespace(d);
    SplitJoin(Spaces(d), addrs);
  }

  /**
   * A list typed with any whitespace before, between and after the valid
   * addresses (at least one whitespace character between two of them) is
   * accepted as exactly those addresses.
   */
  lemma ReadWovenList(d: Dialect, rule: Rule, gaps: seq<string>, addrs: seq<string>)
    requires |addrs| > 0 && |gaps| == |addrs| + 1
    requires forall k | 0 <= k < |gaps| :: Blank(Spaces(d), gaps[k])
    requires forall k | 0 < k < |addrs| :: |gaps[k]| > 0
    requires forall k | 0 <= k < |addrs| :: |addrs[k]| > 0 && Clean(Spaces(d), addrs[k])
    requires AllAccepted(d, rule, addrs)
    ensures ReadLine(d, rule, Weave(gaps, addrs)) == Success(addrs)
  {
    SplitWeave(Spaces(d), gaps, addrs);
  }

  /** An attempt's addresses, if the line is accepted. */
  function Accept(d: Dialect, rule: Rule, line: string): Option<seq<string>> {
    match ReadLine(d, rule, line)
    case Success(addrs) => Some(addrs)
    case Failure(_) => None
  }

  /**
   * The prompt loop over the lines the user enters: the first accepted line wins;
   * if the input ends before any line is accepted there is no answer.
   */
  function Prompt(d: Dialect, rule: Rule, lines: seq<string>): (r: Option<Answer<seq<string>>>)
    ensures r.Some? ==>
              && r.value.attempt < |lines|
              && ReadLine(d, rule, lines[r.value.attempt]) == Success(r.value.value)
              && forall j | 0 <= j < r.value.attempt :: ReadLine(d, rule, lines[j]).Failure?
    ensures r.None? ==> forall j | 0 <= j < |lines| :: ReadLine(d, rule, lines[j]).Failure?
  {
    FirstUsable(lines, line => Accept(d, rule, line))
  }

  /** Whatever the loop hands back is a non-empty list of valid, whitespace-free addresses. */
  lemma PromptAnswerIsValid(d: Dialect, rule: Rule, lines: seq<string>)
    requires Prompt(d, rule, lines).Some?
    ensures var a := Prompt(d, rule, lines).value.value;
            |a| > 0 && AllAccepted(d, rule, a) &&
            forall k | 0 <= k < |a| :: |a[k]| > 0 && Clean(Spaces(d), a[k])
  {
  }
}
