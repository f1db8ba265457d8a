/**
 * Building one trade request (the first half of `processTrade` /
 * `process_trade`): the endpoint, the two form fields, and what the summary
 * shows. Buying sends the bought coin to the coin address and refunds to the
 * main address; selling is the mirror image.
 */
module Trade {
  import opened Wrappers
  import opened Platform
  import opened Validators
  import opened Exchanges

  datatype Direction = Buy | Sell

  /** The buy/sell menu: `"1"` buys, `"2"` sells; anything else is asked again. */
  function DirectionOfChoice(choice: string): (r: Option<Direction>)
    ensures r == Some(Buy) <==> choice == "1"
    ensures r == Some(Sell) <==> choice == "2"
    ensures r.None? <==> choice !in ["1", "2"]
  {
    if choice == "1" then Some(Buy)
    else if choice == "2" then Some(Sell)
    else None
  }

  /** The two address roles of an entry. */
  datatype Side = MainSide | CoinSide

  function Opposite(side: Side): Side {
    if side == MainSide then CoinSide else MainSide
  }

  /** The side whose address receives the swapped funds: the coin side when buying, the main side when selling. */
  function Receiving(dir: Direction): Side {
    if dir == Buy then CoinSide else MainSide
  }

  /** The side that gets the funds back if the swap fails. */
  function Refunding(dir: Direction): Side {
    Opposite(Receiving(dir))
  }

  function AddressOn(side: Side, main: string, coin: string): string {
    if side == MainSide then main else coin
  }

  function CoinOn(x: Exchange, side: Side): string {
    if side == MainSide then x.mainCoin else x.coin
  }

  function ExplorerOn(x: Exchange, side: Side): string {
    if side == MainSide then x.mainExplorer else x.coinExplorer
  }

  function RuleOn(x: Exchange, side: Side): Rule {
    if side == MainSide then x.mainRule else x.coinRule
  }

  /** One form field of the POST body. */
  datatype Field = Field(name: string, value: string)

  /** Everything a trade needs before the server answers. */
  datatype TradeRequest = TradeRequest(
    url: string,
    form: seq<Field>,
    receiveLabel: string,
    receiveAddress: string,
    refundLabel: string,
    refundAddress: string,
    explorerLink: string)

  /** The endpoint path under the entry's API address. */
  function Endpoint(dir: Direction): string {
    if dir == Buy then "/buy" else "/sell"
  }

  /** The request for swapping between `main` and `coin` on entry `x`. */
  function BuildRequest(x: Exchange, dir: Direction, main: string, coin: string): (r: TradeRequest)
    ensures r.url == x.apiUrl + Endpoint(dir)
    ensures r.receiveAddress == AddressOn(Receiving(dir), main, coin)
    ensures r.refundAddress == AddressOn(Refunding(dir), main, coin)
    ensures r.receiveLabel == CoinOn(x, Receiving(dir)) + " receive address"
    ensures r.refundLabel == CoinOn(x, Refunding(dir)) + " refund address"
    ensures r.explorerLink == ExplorerOn(x, Receiving(dir)) + "/" + r.receiveAddress
    ensures |r.form| == 2 && r.form[0].name != r.form[1].name
  {
    match dir
    case Buy =>
      TradeRequest(
        x.apiUrl + "/buy",
        [Field("coin_address_block", coin), Field("main_refund_address", main)],
        x.coin + " receive address", coin,
        x.mainCoin + " refund address", main,
        x.coinExplorer + "/" + coin)
    case Sell =>
      TradeRequest(
        x.apiUrl + "/sell",
        [Field("address_block", main), Field("coin_refund_address", coin)],
        x.mainCoin + " receive address", main,
        x.coin + " refund address", coin,
        x.mainExplorer + "/" + main)
  }

  /** What the server reads from a form: the direction and the (main, coin) addresses. */
  function ReadForm(form: seq<Field>): Option<(Direction, string, string)> {
    if |form| != 2 then None
    else if form[0].name == "coin_address_block" && form[1].name == "main_refund_address" then
      Some((Buy, form[1].value, form[0].value))
    else if form[0].name == "address_block" && form[1].name == "coin_refund_address" then
      Some((Sell, form[0].value, form[1].value))
    else None
  }

  /** The form carries the direction and both addresses, and nothing is lost in it. */
  lemma FormRoundTrip(x: Exchange, dir: Direction, main: string, coin: string)
    ensures ReadForm(BuildRequest(x, dir, main, coin).form) == Some((dir, main, coin))
  {
  }

  /** Different trades never produce the same form. */
  lemma FormInjective(x: Exchange, d1: Direction, m1: string, c1: string,
                      d2: Direction, m2: string, c2: string)
    requires BuildRequest(x, d1, m1, c1).form == BuildRequest(x, d2, m2, c2).form
    ensures d1 == d2 && m1 == m2 && c1 == c2
  {
    FormRoundTrip(x, d1, m1, c1);
    FormRoundTrip(x, d2, m2, c2);
  }

  /** Buying and selling the same pair swap the receive and refund roles. */
  lemma BuySellMirror(x: Exchange, main: string, coin: string)
    ensures BuildRequest(x, Buy, main, coin).receiveAddress == BuildRequest(x, Sell, main, coin).refundAddress
    ensures BuildRequest(x, Buy, main, coin).refundAddress == BuildRequest(x, Sell, main, coin).receiveAddress
    ensures Receiving(Buy) == Refunding(Sell) && Refunding(Buy) == Receiving(Sell)
    ensures BuildRequest(x, Buy, main, coin).form[0].value == BuildRequest(x, Sell, main, coin).form[1].value
    ensures BuildRequest(x, Buy, main, coin).form[1].value == BuildRequest(x, Sell, main, coin).form[0].value
  {
  }

  /**
   * When both addresses passed their checks, the address funds are sent to and
   * the refund address each pass the check of the currency they hold.
   */
  lemma RolesKeepValidity(d: Dialect, k: ExchangeKey, dir: Direction, main: string, coin: string)
    requires Accepts(d, Config(k).mainRule, main) && Accepts(d, Config(k).coinRule, coin)
    ensures var r := BuildRequest(Config(k), dir, main, coin);
            && Accepts(d, RuleOn(Config(k), Receiving(dir)), r.receiveAddress)
            && Accepts(d, RuleOn(Config(k), Refunding(dir)), r.refundAddress)
  {
  }

  /** The explorer link opens the receiving address on the explorer of the currency it holds. */
  lemma LinkShowsReceivingAccount(k: ExchangeKey, dir: Direction, main: string, coin: string)
    ensures var side := Receiving(dir);
            var c := if side == MainSide then MainCurrency(k) else CoinCurrency(k);
            BuildRequest(Config(k), dir, main, coin).explorerLink
              == Explorer(c) + "/" + AddressOn(side, main, coin)
  {
  }
}
