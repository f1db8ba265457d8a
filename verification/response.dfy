/**
 * Reading the server's answer to a trade (the second half of `processTrade` /
 * `process_trade`). A page without the marker `id="address` is a server error.
 * JavaScript then takes the first `value="…"` capture of the regular expression
 * `/value="([^"]+)"/`; Python asks an HTML parser for the first `<input>`'s
 * value, which this model receives as an input.
 */
module Response {
  import opened Wrappers
  import opened Text

  /** The substring whose presence marks a page that holds a deposit address. */
  const AddressMarker := "id=\"address"

  /** The literal text the capture follows. */
  const ValueKey := "value=\""

  /** The length of the run of characters other than `"` starting at `j`. */
  function QuoteFreeRun(s: string, j: nat): (n: nat)
    requires j <= |s|
    ensures j + n <= |s|
    ensures forall i | j <= i < j + n :: s[i] != '"'
    ensures j + n == |s| || s[j + n] == '"'
    decreases |s| - j
  {
    if j == |s| || s[j] == '"' then 0 else 1 + QuoteFreeRun(s, j + 1)
  }

  /**
   * The regular expression matches at `p`: `value="` there, then at least one
   * character other than `"`, then a closing `"`.
   */
  predicate MatchAt(s: string, p: int) {
    && OccursAt(s, ValueKey, p)
    && var n := QuoteFreeRun(s, p + |ValueKey|);
       n > 0 && p + |ValueKey| + n < |s|
  }

  /** `p` is the leftmost position where the expression matches: the match `String.prototype.match` reports without the `g` flag. */
  predicate FirstMatchAt(s: string, p: int) {
    MatchAt(s, p) && forall q | 0 <= q < p :: !MatchAt(s, q)
  }

  /** The captured group of the match at `p`. */
  function Capture(s: string, p: int): (v: string)
    requires MatchAt(s, p)
    ensures |v| > 0 && '"' !in v
    ensures OccursAt(s, ValueKey + v + "\"", p)
  {
    var j := p + |ValueKey|;
    var v := s[j..j + QuoteFreeRun(s, j)];
    assert forall i | 0 <= i < |v| :: v[i] == s[j + i];
    assert s[p..p + |ValueKey + v + "\""|] == ValueKey + v + "\"" by {
      assert s[p..j] == ValueKey;
      assert s[j + |v|] == '"';
      assert s[p..p + |ValueKey| + |v| + 1] == s[p..j] + v + [s[j + |v|]];
    }
    v
  }

  /** The leftmost position at or after `from` where the expression matches. */
  function FindMatch(s: string, from: nat): (r: Option<nat>)
    ensures r.Some? ==> from <= r.value && MatchAt(s, r.value)
    ensures r.Some? ==> forall q | from <= q < r.value :: !MatchAt(s, q)
    ensures r.None? ==> forall q | from <= q :: !MatchAt(s, q)
    decreases |s| - from
  {
    if from + |ValueKey| > |s| then None
    else if MatchAt(s, from) then Some(from)
    else FindMatch(s, from + 1)
  }

  /** `content.match(/value="([^"]+)"/)`: the first capture, if any. */
  function FirstValue(s: string): (r: Option<string>)
    ensures r.Some? ==> |r.value| > 0 && '"' !in r.value && Contains(s, ValueKey + r.value + "\"")
    ensures r.Some? ==> exists p | FirstMatchAt(s, p) :: r.value == Capture(s, p)
    ensures r.None? <==> forall q :: !MatchAt(s, q)
  {
    match FindMatch(s, 0)
    case None => None
    case Some(p) =>
      var v := Capture(s, p);
      assert OccursAt(s, ValueKey + v + "\"", p);
      Some(v)
  }

  /**
   * A page that shows `value="v"` with no earlier `value="` yields `v`: the
   * scanner reads back the value it was given.
   */
  lemma ReadsPlacedValue(prefix: string, v: string, rest: string)
    requires !Contains(prefix, ValueKey)
    requires |v| > 0 && '"' !in v
    ensures FirstValue(prefix + ValueKey + v + "\"" + rest) == Some(v)
  {
    var s := prefix + ValueKey + v + "\"" + rest;
    PlacedValueMatches(prefix, v, rest);
    NoMatchBeforePlacedValue(prefix, v, rest);
    var r := FindMatch(s, 0);
    assert r == Some(|prefix|);
  }

  lemma PlacedValueMatches(prefix: string, v: string, rest: string)
    requires |v| > 0 && '"' !in v
    ensures var s := prefix + ValueKey + v + "\"" + rest;
            MatchAt(s, |prefix|) && Capture(s, |prefix|) == v
  {
    var s := prefix + ValueKey + v + "\"" + rest;
    var j := |prefix| + |ValueKey|;
    assert s[|prefix|..j] == ValueKey;
    assert s[j..j + |v|] == v;
    assert s[j + |v|] == '"';
    RunOfQuoteFree(s, j, v);
  }

  lemma NoMatchBeforePlacedValue(prefix: string, v: string, rest: string)
    requires !Contains(prefix, ValueKey)
    ensures var s := prefix + ValueKey + v + "\"" + rest;
            forall q | 0 <= q < |prefix| :: !OccursAt(s, ValueKey, q)
  {
    var s := prefix + ValueKey + v + "\"" + rest;
    var p := |prefix|;
    forall q | 0 <= q < p
      ensures !OccursAt(s, ValueKey, q)
    {
      if q + |ValueKey| <= p {
        assert s[q..q + |ValueKey|] == prefix[q..q + |ValueKey|];
        assert !OccursAt(prefix, ValueKey, q);
      } else {
        assert s[p] == 'v';
        assert s[q..q + |ValueKey|][p - q] == s[p];
        assert ValueKey[p - q] in ValueKey[1..];
        assert 'v' !in ValueKey[1..];
      }
    }
  }

  lemma RunOfQuoteFree(s: string, j: nat, v: string)
    requires j + |v| < |s| && s[j..j + |v|] == v && s[j + |v|] == '"'
    requires '"' !in v
    ensures QuoteFreeRun(s, j) == |v|
  {
  }

  /**
   * How one trade ended. `RequestFailed` is an exception while sending the
   * request or reading the answer: JavaScript reports every such exception as a
   * network error; Python does so for `aiohttp.ClientError` and reports any other
   * as an error processing the trade. `Unparsed` is a marked page from which no
   * deposit address was read.
   */
  datatype Outcome = RequestFailed | ServerError | Unparsed | Deposit(address: string)

  /** The server's answer: no answer at all, or a page and what an HTML parser finds as the first `<input>`'s value. */
  datatype Reply = NoReply | Page(content: string, firstInputValue: Option<string>)

  /** JavaScript: the marker guard, then the first `value="…"` capture. */
  function JsOutcome(content: string): (o: Outcome)
    ensures o == ServerError <==> !Contains(content, AddressMarker)
    ensures o == Unparsed <==> Contains(content, AddressMarker) && forall q :: !MatchAt(content, q)
    ensures o.Deposit? ==> |o.address| > 0 && '"' !in o.address
    ensures o.Deposit? ==> Contains(content, ValueKey + o.address + "\"")
    ensures o.Deposit? ==> exists p | FirstMatchAt(content, p) :: o.address == Capture(content, p)
    ensures o != RequestFailed
  {
    if !Contains(content, AddressMarker) then ServerError
    else
      match FirstValue(content)
      case None => Unparsed
      case Some(v) => Deposit(v)
  }

  /** Python: the marker guard, then the parser's answer; a missing input or value raises and is reported. */
  function PyOutcome(content: string, firstInputValue: Option<string>): (o: Outcome)
    ensures o == ServerError <==> !Contains(content, AddressMarker)
    ensures o.Deposit? <==> Contains(content, AddressMarker) && firstInputValue.Some?
    ensures o.Deposit? ==> o.address == firstInputValue.value
    ensures o != RequestFailed
  {
    if !Contains(content, AddressMarker) then ServerError
    else
      match firstInputValue
      case None => Unparsed
      case Some(v) => Deposit(v)
  }

  /** Both runtimes refuse exactly the same pages as server errors. */
  lemma GuardsAgree(content: string, firstInputValue: Option<string>)
    ensures JsOutcome(content) == ServerError <==> PyOutcome(content, firstInputValue) == ServerError
  {
  }

  /** The opening of the input element a typical answer page carries. */
  const DepositInputTag := "<input id=\"address\" "

  lemma DepositInputTagShape()
    ensures !Contains(DepositInputTag, ValueKey)
    ensures OccursAt(DepositInputTag, AddressMarker, 7)
  {
    assert 'v' !in DepositInputTag;
    forall i | 0 <= i <= |DepositInputTag| - |ValueKey|
      ensures !OccursAt(DepositInputTag, ValueKey, i)
    {
      assert DepositInputTag[i] in DepositInputTag;
      assert DepositInputTag[i..i + |ValueKey|][0] == DepositInputTag[i];
    }
    assert DepositInputTag[7..7 + |AddressMarker|] == AddressMarker;
  }

  /** A typical answer page, `<input id="address" value="…">`, yields its value in JavaScript. */
  lemma ReadsDepositInput(v: string)
    requires |v| > 0 && '"' !in v
    ensures JsOutcome(DepositInputTag + ValueKey + v + "\">") == Deposit(v)
  {
    DepositInputTagShape();
    ReadsPlacedValue(DepositInputTag, v, ">");
    var content := DepositInputTag + ValueKey + v + "\">";
    assert content == DepositInputTag + ValueKey + v + "\"" + ">";
    assert content[7..7 + |AddressMarker|] == DepositInputTag[7..7 + |AddressMarker|];
    assert OccursAt(content, AddressMarker, 7);
  }
}
