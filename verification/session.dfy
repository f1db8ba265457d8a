/**
 * The whole interactive run (`main` followed by `runExchange` /
 * `run_exchange`): pick an entry, pick buy or sell, fetch the price, read the
 * two address lists, check their lengths and run the trades.
 */
module Session {
  import opened Wrappers
  import opened Platform
  import opened Validators
  import opened Prompts
  import opened Intake
  import opened Exchanges
  import opened Trade
  import opened Response
  import opened Batch

  /** How a run ends. Only `Completed` has sent any trade request. */
  datatype SessionEnd =
    | InputEnded
    | PriceUnavailable
    | LengthMismatch(mainCount: nat, coinCount: nat)
    | Completed(key: ExchangeKey, dir: Direction, mains: seq<string>, coins: seq<string>, reports: seq<Report>)

  /**
   * The two address prompts of entry `key`, main side first. There is no
   * result when the input ends before either list is accepted.
   */
  method ReadLists(d: Dialect, key: ExchangeKey, mainLines: seq<string>, coinLines: seq<string>)
    returns (r: Option<(seq<string>, seq<string>)>)
    ensures r.Some? <==>
              Prompt(d, Config(key).mainRule, mainLines).Some? && Prompt(d, Config(key).coinRule, coinLines).Some?
    ensures r.Some? ==>
              && r.value.0 == Prompt(d, Config(key).mainRule, mainLines).value.value
              && r.value.1 == Prompt(d, Config(key).coinRule, coinLines).value.value
    ensures r.Some? ==>
              && |r.value.0| > 0 && |r.value.1| > 0
              && (forall k | 0 <= k < |r.value.0| :: Accepts(d, Config(key).mainRule, r.value.0[k]))
              && (forall k | 0 <= k < |r.value.1| :: Accepts(d, Config(key).coinRule, r.value.1[k]))
  {
    var x := Config(key);
    var mains := Prompt(d, x.mainRule, mainLines);
    if mains.None? {
      return None;
    }
    var coins := Prompt(d, x.coinRule, coinLines);
    if coins.None? {
      return None;
    }
    PromptAnswerIsValid(d, x.mainRule, mainLines);
    PromptAnswerIsValid(d, x.coinRule, coinLines);
    return Some((mains.value.value, coins.value.value));
  }

  /**
   * The end of a run once both lists are in: the length check, then the
   * trades. Nothing is sent when the lengths differ.
   */
  method Settle(d: Dialect, key: ExchangeKey, dir: Direction, mains: seq<string>, coins: seq<string>,
                server: (nat, TradeRequest) -> Reply)
    returns (e: SessionEnd)
    ensures e.LengthMismatch? || e.Completed?
    ensures e.LengthMismatch? <==> |mains| != |coins|
    ensures e.LengthMismatch? ==> e.mainCount == |mains| && e.coinCount == |coins|
    ensures e.Completed? ==>
              && e.key == key && e.dir == dir && e.mains == mains && e.coins == coins
              && |e.reports| == |mains|
    ensures e.Completed? ==>
              forall k | 0 <= k < |e.reports| ::
                && e.reports[k].number == k + 1
                && e.reports[k].request == BuildRequest(Config(key), dir, mains[k], coins[k])
                && e.reports[k] == Process(d, Config(key), dir, Job(k + 1, mains[k], coins[k]),
                                           server(k + 1, e.reports[k].request))
  {
    if |mains| != |coins| {
      return LengthMismatch(|mains|, |coins|);
    }
    var reports := RunTrades(d, Config(key), dir, mains, coins, server);
    assert forall k | 0 <= k < |reports| :: Pair(mains, coins).value[k] == Job(k + 1, mains[k], coins[k]);
    return Completed(key, dir, mains, coins, reports);
  }

  /**
   * How `runExchange` / `run_exchange` for entry `key` may end, given the
   * answers to each prompt, whether the price request succeeded and the
   * server's replies.
   */
  predicate ExchangeRun(d: Dialect, key: ExchangeKey, directionAnswers: seq<string>, priceFetched: bool,
                        mainLines: seq<string>, coinLines: seq<string>, server: (nat, TradeRequest) -> Reply,
                        e: SessionEnd)
  {
    var direction := FirstUsable(directionAnswers, DirectionOfChoice);
    var mains := Prompt(d, Config(key).mainRule, mainLines);
    var coins := Prompt(d, Config(key).coinRule, coinLines);
    // Input runs out: at the direction menu, or at an address prompt after the price was shown.
    && (e == InputEnded <==> direction.None? || (priceFetched && (mains.None? || coins.None?)))
    // A failed price fetch ends the run right after the direction menu.
    && (e.PriceUnavailable? <==> direction.Some? && !priceFetched)
    // Once everything was answered the run reaches the length check.
    && (direction.Some? && priceFetched && mains.Some? && coins.Some? ==> e.Completed? || e.LengthMismatch?)
    && (e.LengthMismatch? ==>
          && priceFetched && mains.Some? && coins.Some?
          && e.mainCount == |mains.value.value| && e.coinCount == |coins.value.value|
          && e.mainCount != e.coinCount)
    && (e.Completed? ==>
          && priceFetched && e.key == key
          && direction.Some? && direction.value.value == e.dir
          && mains.Some? && mains.value.value == e.mains
          && coins.Some? && coins.value.value == e.coins
          && |e.mains| == |e.coins| == |e.reports| > 0
          && (forall k | 0 <= k < |e.mains| :: Accepts(d, Config(key).mainRule, e.mains[k]))
          && (forall k | 0 <= k < |e.coins| :: Accepts(d, Config(key).coinRule, e.coins[k]))
          && (forall k | 0 <= k < |e.reports| ::
                && e.reports[k].number == k + 1
                && e.reports[k].request == BuildRequest(Config(key), e.dir, e.mains[k], e.coins[k])
                && e.reports[k] == Process(d, Config(key), e.dir, Job(k + 1, e.mains[k], e.coins[k]),
                                           server(k + 1, e.reports[k].request))))
  }

  /**
   * `runExchange` / `run_exchange` for entry `key`: the direction menu, the
   * price request, the two address prompts, the length check and the trades.
   */
  method RunExchange(d: Dialect, key: ExchangeKey, directionAnswers: seq<string>, priceFetched: bool,
                     mainLines: seq<string>, coinLines: seq<string>, server: (nat, TradeRequest) -> Reply)
    returns (e: SessionEnd)
    ensures ExchangeRun(d, key, directionAnswers, priceFetched, mainLines, coinLines, server, e)
  {
    var direction := FirstUsable(directionAnswers, DirectionOfChoice);
    if direction.None? {
      return InputEnded;
    }
    if !priceFetched {
      return PriceUnavailable;
    }
    var lists := ReadLists(d, key, mainLines, coinLines);
    if lists.None? {
      return InputEnded;
    }
    e := Settle(d, key, direction.value.value, lists.value.0, lists.value.1, server);
  }

  /**
   * One run: the exchange menu (`main`), then `RunExchange` for the entry the
   * first usable menu answer picks.
   */
  method RunSession(d: Dialect, exchangeAnswers: seq<string>, directionAnswers: seq<string>,
                    priceFetched: bool, mainLines: seq<string>, coinLines: seq<string>,
                    server: (nat, TradeRequest) -> Reply)
    returns (e: SessionEnd)
    ensures FirstUsable(exchangeAnswers, KeyOfChoice).None? ==> e == InputEnded
    ensures FirstUsable(exchangeAnswers, KeyOfChoice).Some? ==>
              ExchangeRun(d, FirstUsable(exchangeAnswers, KeyOfChoice).value.value, directionAnswers,
                          priceFetched, mainLines, coinLines, server, e)
  {
    var exchange := FirstUsable(exchangeAnswers, KeyOfChoice);
    if exchange.None? {
      return InputEnded;
    }
    e := RunExchange(d, exchange.value.value, directionAnswers, priceFetched, mainLines, coinLines, server);
  }
}
