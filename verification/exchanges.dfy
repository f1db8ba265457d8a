/**
 * The exchange table (`EXCHANGES`) and the menu that picks an entry from it.
 * Every entry pairs Banano with one other currency; each currency keeps the same
 * name, ticker symbol, explorer and address check wherever it appears.
 */
module Exchanges {
  import opened Wrappers
  import opened Platform
  import opened Text
  import opened Validators

  datatype Currency = Nano | Banano | Solana | Usdt

  /** The three table keys: `nano_banano`, `solana_banano`, `usdt_banano`. */
  datatype ExchangeKey = NanoBanano | SolanaBanano | UsdtBanano

  /** One table entry. The address checks are named by their `Rule`. */
  datatype Exchange = Exchange(
    name: string,
    apiUrl: string,
    mainCoin: string,
    mainSymbol: string,
    coin: string,
    coinSymbol: string,
    mainExplorer: string,
    coinExplorer: string,
    mainRule: Rule,
    coinRule: Rule,
    priceInvert: bool)

  /** The table entry for a key, exactly as the table spells it out. */
  function Config(k: ExchangeKey): (x: Exchange)
    ensures x.mainCoin == CurrencyName(MainCurrency(k)) && x.coin == CurrencyName(CoinCurrency(k))
    ensures x.mainSymbol == Symbol(MainCurrency(k)) && x.coinSymbol == Symbol(CoinCurrency(k))
    ensures x.mainExplorer == Explorer(MainCurrency(k)) && x.coinExplorer == Explorer(CoinCurrency(k))
    ensures x.mainRule == RuleOf(MainCurrency(k)) && x.coinRule == RuleOf(CoinCurrency(k))
  {
    match k
    case NanoBanano =>
      Exchange("Nano ↔ Banano", "https://banano.nano.trade",
               "Nano", "NANO", "Banano", "BAN",
               "https://blocklattice.io/account", "https://creeper.banano.cc/account",
               NanoRule, BananoRule, true)
    case SolanaBanano =>
      Exchange("Solana ↔ Banano", "https://solana.banano.trade",
               "Banano", "BAN", "Solana", "SOL",
               "https://creeper.banano.cc/account", "https://solana.fm/address",
               BananoRule, SolanaRule, false)
    case UsdtBanano =>
      Exchange("USDT ↔ Banano (Polygon)", "https://usdt.banano.trade",
               "Banano", "BAN", "USDT", "USDT",
               "https://creeper.banano.cc/account", "https://polygonscan.com/address",
               BananoRule, UsdtRule, false)
  }

  /** The currency on the "main" side of a pair: Nano for the Nano pair, Banano otherwise. */
  function MainCurrency(k: ExchangeKey): Currency {
    if k == NanoBanano then Nano else Banano
  }

  /** The currency bought or sold in a pair. */
  function CoinCurrency(k: ExchangeKey): Currency {
    match k
    case NanoBanano => Banano
    case SolanaBanano => Solana
    case UsdtBanano => Usdt
  }

  function CurrencyName(c: Currency): string {
    match c
    case Nano => "Nano"
    case Banano => "Banano"
    case Solana => "Solana"
    case Usdt => "USDT"
  }

  function Symbol(c: Currency): string {
    match c
    case Nano => "NANO"
    case Banano => "BAN"
    case Solana => "SOL"
    case Usdt => "USDT"
  }

  /** The block-explorer prefix an address of the currency is appended to. */
  function Explorer(c: Currency): string {
    match c
    case Nano => "https://blocklattice.io/account"
    case Banano => "https://creeper.banano.cc/account"
    case Solana => "https://solana.fm/address"
    case Usdt => "https://polygonscan.com/address"
  }

  function RuleOf(c: Currency): Rule {
    match c
    case Nano => NanoRule
    case Banano => BananoRule
    case Solana => SolanaRule
    case Usdt => UsdtRule
  }

  /** Every pair trades Banano against a different currency. */
  lemma PairsInvolveBanano(k: ExchangeKey)
    ensures MainCurrency(k) != CoinCurrency(k)
    ensures MainCurrency(k) == Banano || CoinCurrency(k) == Banano
    ensures Config(k).priceInvert <==> MainCurrency(k) == Nano
  {
  }

  /** Distinct entries talk to distinct servers. */
  lemma ApiUrlsDistinct(k1: ExchangeKey, k2: ExchangeKey)
    ensures Config(k1).apiUrl == Config(k2).apiUrl <==> k1 == k2
  {
  }

  /**
   * No string passes both address checks of an entry, in either runtime, so a
   * list entered for the wrong side is always refused.
   */
  lemma SidesDisjoint(d: Dialect, k: ExchangeKey, s: string)
    ensures !(Accepts(d, Config(k).mainRule, s) && Accepts(d, Config(k).coinRule, s))
  {
    if StartsWith(s, "ban_") {
      PrefixChars(s, "ban_");
      assert s[3] == '_';
    }
    if StartsWith(s, "nano_") {
      PrefixChars(s, "nano_");
    }
    if Accepts(d, SolanaRule, s) {
      SolanaStartsBase58(d, s);
      assert Base58Char(s[3]);
    }
    if Accepts(d, UsdtRule, s) {
      UsdtStartsZero(d, s);
    }
    match k
    case NanoBanano =>
    case SolanaBanano =>
    case UsdtBanano =>
  }

  /** The menu: `"1"`, `"2"` and `"3"` pick an entry; any other answer is asked again. */
  function KeyOfChoice(choice: string): (r: Option<ExchangeKey>)
    ensures r.Some? <==> choice in ["1", "2", "3"]
  {
    if choice == "1" then Some(NanoBanano)
    else if choice == "2" then Some(SolanaBanano)
    else if choice == "3" then Some(UsdtBanano)
    else None
  }

  /** The menu answer that selects an entry. */
  function ChoiceOf(k: ExchangeKey): string {
    match k
    case NanoBanano => "1"
    case SolanaBanano => "2"
    case UsdtBanano => "3"
  }

  /** Every entry has exactly one menu answer. */
  lemma ChoiceRoundTrip(k: ExchangeKey, choice: string)
    ensures KeyOfChoice(ChoiceOf(k)) == Some(k)
    ensures KeyOfChoice(choice) == Some(k) ==> choice == ChoiceOf(k)
  {
  }
}
