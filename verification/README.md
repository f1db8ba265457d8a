# nano-trade swap client — a Dafny model of its pure core

The program is a command-line client for three swap sites (Nano↔Banano,
Solana↔Banano, USDT↔Banano on Polygon). The user picks an exchange and buy or
sell, then types one or more addresses for each side. The program checks the
addresses, pairs them up and posts one trade request per pair. From each
answer page it reads a deposit address and prints a numbered summary with a
block-explorer link.

The repository holds two current revisions of the same program,
`javascript/main.js` and `python/main.py`. This model is a single functional
core for both. At the four places below, where the two runtimes behave
differently, a `Dialect` parameter (`JavaScript` or `Python`) picks the
behaviour. The price display, which also differs, is left out (see below).

- **Length.** The Nano and Banano checks compare a length against a minimum.
  JavaScript's `.length` counts UTF-16 code units. Python's `len` counts code
  points. `Platform.Utf16Length` models the first; `NanoDialectsDisagree`
  gives a concrete address that JavaScript accepts and Python refuses.
- **Whitespace.** Both runtimes split the input line on whitespace, but the
  sets differ. JavaScript's `\s` includes U+FEFF. Python's `str.split()`
  includes U+001C–U+001F and U+0085.
- **Anchored regular expressions.** In Python's `re.match(r"^…$")`, `$` also
  matches just before a final newline, so the Solana and USDT checks also
  accept a trailing `\n`. `Intake.TokensSeeSameRegexCheck` proves that this
  cannot be observed: the checks only ever see tokens without whitespace.
- **Deposit address.** JavaScript takes the first capture of
  `/value="([^"]+)"/` from the page, modelled as a string scanner
  (`Response.FirstValue`). Python asks BeautifulSoup for the first `<input>`'s
  `value`. That library is foreign, so the parser's answer is an input to the
  model (`Reply.Page.firstInputValue`).

Modules, in dependency order:

- `Wrappers`: `Option` and `Result`.
- `Platform`: the dialects, their whitespace sets and the length measures.
- `Text`: prefix and substring tests.
- `Validators`: the four address checks as character classes and
  prefix-and-length tests.
- `Tokens`: whitespace tokenisation.
- `Prompts`: the generic "ask until the answer is usable" loop.
- `Intake`: reading one address list.
- `Exchanges`: the exchange table and the exchange menu.
- `Trade`: building a trade request.
- `Response`: the answer page guard and deposit-address extraction.
- `Batch`: the length check, pairing and numbering, and the trade loop.
- `Session`: one whole run.

Each prompt's answers become a sequence of their own: one for the exchange
menu, one for the buy/sell menu and one for each of the two address prompts.
The model does not represent one shared input stream that the prompts read in
turn. The network becomes parameters:

- `priceFetched` says whether the price step finished without an exception.
- `server` maps a trade number and a request to a `Reply`. The number is not
  sent anywhere; it only lets successive replies differ.

A `NoReply` reply stands for an exception raised while sending the request or
reading the answer. Python's failure to find an `<input>` value is caught by
the same `try`, but it is modelled as the outcome `Unparsed`.

## Notes on the code

- The guard is the substring `id="address`, without a closing quote.
- JavaScript's expression has no `g` flag, so it yields the first
  `value="…"` capture anywhere in the page. That need not belong to an
  `<input>` element.
- Both revisions catch a failed request inside the trade loop, report it and
  go on with the next pair.

## Model

| member | source | states |
|---|---|---|
| Platform.Utf16Length | javascript/main.js:14-15 | JavaScript's `addr.length` is the number of code points plus the number of characters outside the BMP, so between the code-point count and twice it |
| Platform.LengthsAgreeOnBmp | python/main.py:17-18 | the JavaScript and Python lengths agree exactly when the string has no character outside the BMP |
| Platform.Length | python/main.py:17-18 | the length the Nano and Banano checks compare: in Python the number of code points, in JavaScript that number plus the number of characters outside the BMP |
| Platform.JsSpace | javascript/main.js:71 | the characters JavaScript's `\s` matches and `trim` removes |
| Platform.PySpace | python/main.py:63 | the characters on which Python's argument-less `str.split()` breaks |
| Platform.WhitespaceSetsDiffer | python/main.py:63 | the two whitespace sets differ exactly in U+FEFF (JavaScript only) and U+001C–U+001F and U+0085 (Python only) |
| Text.StartsWith | javascript/main.js:14-15 | `startsWith` / `startswith`: the string begins with the prefix |
| Text.Contains | javascript/main.js:134 | `includes` / `in`: the pattern occurs at some position of the string |
| Validators.Accepts | javascript/main.js:14-41 | the four checks of the table as each runtime evaluates them: Nano is length at least 65 with prefix `nano_`; Banano is length at least 64 with prefix `ban_`; Solana and USDT are anchored matches of their classes; every accepted address has at least 32 characters |
| Validators.Base58IsAlphanumericWithoutLookalikes | javascript/main.js:28 | the class `[1-9A-HJ-NP-Za-km-z]` is exactly the ASCII digits and letters minus `0`, `O`, `I`, `l` |
| Validators.SolanaRejectsLookalikes | javascript/main.js:28 | in either runtime, an accepted Solana address contains none of `0`, `O`, `I`, `l` |
| Validators.SolanaStartsBase58 | python/main.py:31 | in either runtime, an accepted Solana address starts with 32 base58 digits |
| Validators.UsdtStartsZero | python/main.py:44 | in either runtime, an accepted USDT address has at least 42 characters and starts with `0x` |
| Validators.RegexRuleCharacterisation | javascript/main.js:28-41 | Solana accepts iff the length is 32–44 and every character is an ASCII alphanumeric other than the look-alikes; USDT accepts iff the length is 42, the prefix is `0x` and the other 40 characters are hex digits |
| Validators.RegexDialectsAgree | python/main.py:31 | on strings without `\n`, Python's `re.match` and JavaScript's `test` give the same Solana and USDT verdicts |
| Validators.PythonDollarAcceptsFinalNewline | python/main.py:44 | Python accepts exactly what JavaScript accepts plus those strings followed by one `\n`; JavaScript refuses the latter |
| Validators.LengthRuleDialects | javascript/main.js:14-15 | everything Python's Nano/Banano check accepts, JavaScript accepts too; the two agree on BMP-only strings |
| Validators.PrefixRulesAsConcatenation | python/main.py:17-18 | Python accepts exactly `nano_` + at least 60 characters (Nano) and `ban_` + at least 60 characters (Banano) |
| Validators.NanoDialectsDisagree | javascript/main.js:14 | `nano_` followed by 30 astral characters passes the JavaScript Nano check (65 code units) but fails the Python one (35 code points) |
| Tokens.Split | javascript/main.js:71 | every token is non-empty and contains no whitespace; `SplitWeave` states where the tokens break |
| Tokens.SplitKeepsContent | python/main.py:63 | joining the tokens back together gives exactly the non-whitespace characters of the line, in order |
| Tokens.SplitJoin | javascript/main.js:71 | splitting a line of non-empty, whitespace-free tokens separated by single spaces gives back the same tokens |
| Tokens.SplitSkipsSpaces | javascript/main.js:71 | whitespace of any kind and length in front of a line does not change its tokens (what `trim` and `filter(Boolean)` achieve) |
| Tokens.SplitWeave | python/main.py:63 | a line made of tokens with arbitrary whitespace before, after and (at least one character) between them splits into exactly those tokens, in order |
| Prompts.FirstUsable | javascript/main.js:232-235 | the prompt loop returns the first answer the reader accepts, refuses every earlier one, and has no result only when every answer is refused |
| Intake.ReadLine | javascript/main.js:71-86 | a line is accepted only if it has at least one token and every token passes the check; an accepted list is exactly the line's tokens, all non-empty, whitespace-free and valid; no tokens gives `NoAddresses`, a failing token gives `InvalidAddresses` |
| Intake.TokensSeeSameRegexCheck | python/main.py:63 | a whitespace-free token gets the same Solana and USDT verdict in both runtimes |
| Intake.ReadJoinedList | python/main.py:63-76 | a space-separated list of valid addresses is accepted as exactly that list |
| Intake.ReadWovenList | python/main.py:63-76 | valid addresses typed with any whitespace around and between them are accepted as exactly those addresses |
| Intake.Prompt | python/main.py:61-76 | the address prompt returns the first accepted line's addresses; every earlier line was refused; it never returns when every line is refused |
| Intake.PromptAnswerIsValid | javascript/main.js:66-88 | whatever the address prompt returns is a non-empty list of non-empty, whitespace-free, valid addresses |
| Exchanges.Config | javascript/main.js:4-44 | each table entry uses its currencies' own name, symbol, explorer and check, the same ones wherever that currency appears |
| Exchanges.PairsInvolveBanano | python/main.py:7-47 | every entry trades Banano against a different currency; only the Nano pair inverts its price |
| Exchanges.ApiUrlsDistinct | javascript/main.js:7-33 | two entries have the same API address exactly when they are the same entry |
| Exchanges.SidesDisjoint | python/main.py:17-44 | in either runtime, no string passes both the main and the coin check of one entry |
| Exchanges.KeyOfChoice | javascript/main.js:233-238 | an answer selects an entry exactly when it is `"1"`, `"2"` or `"3"` |
| Exchanges.ChoiceRoundTrip | python/main.py:204-208 | every entry is selected by exactly one menu answer |
| Trade.DirectionOfChoice | python/main.py:151-190 | `"1"` means buy, `"2"` means sell, any other answer is asked again |
| Trade.BuildRequest | javascript/main.js:101-123 | the URL is `apiUrl` + `/buy` or `/sell`; funds go to the receiving side's address and refunds to the other side's; the labels name those sides' currencies; the link is the receiving side's explorer + `/` + the receive address; the form has two distinct fields |
| Trade.FormRoundTrip | python/main.py:96-113 | the direction, main address and coin address can be read back from the posted form fields |
| Trade.FormInjective | javascript/main.js:105-117 | two different trades never post the same form |
| Trade.BuySellMirror | javascript/main.js:105-123 | buying and selling the same pair swap the receive and refund addresses and the two form values |
| Trade.RolesKeepValidity | javascript/main.js:207-219 | when both addresses passed their checks, the receive and refund addresses each pass the check of the currency they hold |
| Trade.LinkShowsReceivingAccount | python/main.py:104-113 | the explorer link opens the receive address on the explorer of the currency it receives |
| Response.QuoteFreeRun | javascript/main.js:140 | `[^"]+` is greedy: the run contains no `"` and ends at a `"` or at the end of the page |
| Response.MatchAt | javascript/main.js:140 | `/value="([^"]+)"/` matches at a position: `value="` there, then at least one character other than `"`, then a `"` |
| Response.Capture | javascript/main.js:140-146 | a match's capture is non-empty, contains no `"`, and appears in the page as `value="` + capture + `"` |
| Response.FindMatch | javascript/main.js:140 | returns the leftmost match position, or reports that there is none |
| Response.FirstValue | javascript/main.js:140-146 | the result is the capture of the leftmost match; it is non-empty, free of `"`, and appears as `value="…"` in the page; there is no capture iff the expression matches nowhere |
| Response.ReadsPlacedValue | javascript/main.js:140-146 | a page with `value="v"` and no earlier `value="` yields exactly `v` |
| Response.JsOutcome | javascript/main.js:134-146 | a page without `id="address` is a server error; with it, the deposit address is the capture of the leftmost match, or the result is "could not parse" when nothing matches |
| Response.PyOutcome | python/main.py:120-124 | a page without `id="address` is a server error; with it, the result is the parser's input value, or an error when there is none |
| Response.GuardsAgree | python/main.py:120-122 | both runtimes treat exactly the same pages as server errors |
| Response.ReadsDepositInput | javascript/main.js:134-146 | the page `<input id="address" value="v">` yields the deposit address `v` |
| Batch.Enumerate | python/main.py:192 | the k-th pair is numbered `first + k` and holds the k-th main and the k-th coin address |
| Batch.Pair | python/main.py:185-193 | lists of different lengths give a mismatch and no pairs; equal lengths N give N pairs, the k-th numbered k+1 and holding the k-th addresses |
| Batch.PairUnzips | python/main.py:192-193 | both address lists can be read back from the pairs |
| Batch.Process | python/main.py:85-137 | the report keeps the trade's number and request; a summary is printed only for a page with the marker; a missing reply is a failed request (Python words it as a network error or an error processing the trade, by exception type); a page is read as the runtime reads it |
| Batch.PrintsSummary | javascript/main.js:134-154 | the numbered summary block is printed exactly for a trade whose outcome is a deposit address: not after a failed request, a page without the marker, or a page with no readable value |
| Batch.RunTrades | javascript/main.js:218-220 | the index loop makes exactly one report per pair, in input order, numbered from 1, equal to processing the k-th pair of `Pair` |
| Session.ReadLists | python/main.py:181-183 | there are lists exactly when both address prompts return; they are those answers, each non-empty and made of addresses that pass their side's check |
| Session.Settle | javascript/main.js:210-220 | lists of different lengths end the run with both counts and no trade; equal lists give one report per pair, numbered from 1, with the pair's request and the server's reply to it |
| Session.RunExchange | python/main.py:140-193 | the run ends for lack of input exactly when the direction menu is never answered or, after a fetched price, an address prompt is never answered; a failed price fetch ends it exactly when the direction menu was answered; with everything answered it reaches the length check; a mismatch carries the two list lengths; a completed run used the first usable direction and the prompts' lists, every address passed its check, and report k is processing pair k+1 with the server's reply |
| Session.RunSession | javascript/main.js:226-241 | no usable exchange answer ends the run at once; otherwise the run ends exactly as `RunExchange` states for the entry of the first usable menu answer |

## Left out

- Price display (`javascript/main.js:187-200`, `python/main.py:163-175`). It is
  floating-point reciprocal, rounding, `toFixed` and locale separators. The
  model keeps only the fact that an exception in the price step ends the run.
  The `priceFetched` flag stands for the request and the display together.
  Which price data make the display raise is not modelled, and the runtimes
  differ there. Python raises on a zero price (`ZeroDivisionError`) and on
  missing or non-numeric fields. JavaScript turns a zero price into `Infinity`
  and goes on, and throws only when, for example, `max_buy` is missing. The
  `Dialect` parameter does not cover this difference.
- HTTP transport: `fetch` and `aiohttp` sessions, the GET for prices, and the
  form-urlencoded POST body encoding. These are network I/O and library
  encoding. The request is modelled up to its URL and its field list.
- BeautifulSoup parsing (`python/main.py:124`) is a foreign library. Its
  answer is a parameter of the model.
- Console output: the banner, the "You picked" echo, the separator line and
  the exact summary layout. A report records what the summary shows, and
  `Batch.PrintsSummary` says when it is printed.
- Exceptions are modelled only in three forms: a per-trade `NoReply`, Python's
  missing `<input>` value as `Unparsed`, and an exception in the price step as
  `priceFetched` false. An end of input is modelled as a prompt with no answer.
- The `name` field of each exchange is stored but only printed.
- `validateAddress` / `validate_address` only forward to the check. The model
  calls `Validators.Accepts` directly.
- The root-level `main.py` is a superseded revision whose logic duplicates
  `python/main.py`. It is not part of this model.
