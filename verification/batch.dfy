/**
 * A batch of trades (the tail of `runExchange` / `run_exchange`): the two
 * address lists must be equally long; the i-th main address is paired with the
 * i-th coin address and the pairs are numbered 1..N in input order.
 */
module Batch {
  import opened Wrappers
  import opened Platform
  import opened Text
  import opened Exchanges
  import opened Trade
  import opened Response

  /** One numbered pair of addresses. */
  datatype Job = Job(number: nat, main: string, coin: string)

  /** The two list lengths when they differ. */
  datatype Mismatch = Mismatch(mainCount: nat, coinCount: nat)

  /** Python's `enumerate(zip(mains, coins), first)`. */
  function Enumerate(mains: seq<string>, coins: seq<string>, first: nat): (jobs: seq<Job>)
    requires |mains| == |coins|
    ensures |jobs| == |mains|
    ensures forall k | 0 <= k < |jobs| :: jobs[k] == Job(first + k, mains[k], coins[k])
  {
    if |mains| == 0 then []
    else [Job(first, mains[0], coins[0])] + Enumerate(mains[1..], coins[1..], first + 1)
  }

  /** The length check, then the numbered pairs. */
  function Pair(mains: seq<string>, coins: seq<string>): (r: Result<seq<Job>, Mismatch>)
    ensures r.Failure? <==> |mains| != |coins|
    ensures r.Failure? ==> r.error == Mismatch(|mains|, |coins|)
    ensures r.Success? ==> |r.value| == |mains| == |coins|
    ensures r.Success? ==> forall k | 0 <= k < |r.value| :: r.value[k] == Job(k + 1, mains[k], coins[k])
  {
    if |mains| != |coins| then Failure(Mismatch(|mains|, |coins|))
    else Success(Enumerate(mains, coins, 1))
  }

  function MainsOf(jobs: seq<Job>): seq<string> {
    seq(|jobs|, k requires 0 <= k < |jobs| => jobs[k].main)
  }

  function CoinsOf(jobs: seq<Job>): seq<string> {
    seq(|jobs|, k requires 0 <= k < |jobs| => jobs[k].coin)
  }

  /** Pairing loses nothing: the two lists can be read back from the numbered pairs. */
  lemma PairUnzips(mains: seq<string>, coins: seq<string>)
    requires |mains| == |coins|
    ensures MainsOf(Pair(mains, coins).value) == mains
    ensures CoinsOf(Pair(mains, coins).value) == coins
  {
  }

  /** One trade's record: its number, its request, and how it ended. */
  datatype Report = Report(number: nat, request: TradeRequest, outcome: Outcome)

  /** A summary block (number, addresses, deposit address, link) is printed only for a deposit address. */
  predicate PrintsSummary(r: Report) {
    r.outcome.Deposit?
  }

  /** `processTrade` / `process_trade` for one numbered pair, given the server's reply. */
  function Process(d: Dialect, x: Exchange, dir: Direction, job: Job, reply: Reply): (r: Report)
    ensures r.number == job.number
    ensures r.request == BuildRequest(x, dir, job.main, job.coin)
    ensures r.outcome == RequestFailed <==> reply == NoReply
    ensures PrintsSummary(r) ==> reply.Page? && Contains(reply.content, AddressMarker)
    ensures reply.Page? && d == JavaScript ==> r.outcome == JsOutcome(reply.content)
    ensures reply.Page? && d == Python ==> r.outcome == PyOutcome(reply.content, reply.firstInputValue)
  {
    var request := BuildRequest(x, dir, job.main, job.coin);
    match reply
    case NoReply => Report(job.number, request, RequestFailed)
    case Page(content, value) =>
      var outcome := if d == JavaScript then JsOutcome(content) else PyOutcome(content, value);
      Report(job.number, request, outcome)
  }

  /** One pass of the loop body: build the request, send it, read the reply. */
  function Step(d: Dialect, x: Exchange, dir: Direction, server: (nat, TradeRequest) -> Reply, job: Job): Report {
    Process(d, x, dir, job, server(job.number, BuildRequest(x, dir, job.main, job.coin)))
  }

  /**
   * The trade loop: one request per pair, in input order, each numbered from 1.
   * A failed request is reported and the loop goes on. `server` stands for the
   * remote site and answers the request; the trade number is not sent, it only
   * indexes the reply so that successive replies to equal requests may differ.
   */
  method RunTrades(d: Dialect, x: Exchange, dir: Direction, mains: seq<string>, coins: seq<string>,
                   server: (nat, TradeRequest) -> Reply)
    returns (reports: seq<Report>)
    requires |mains| == |coins|
    ensures |reports| == |mains|
    ensures forall k | 0 <= k < |reports| ::
              && reports[k].number == k + 1
              && reports[k].request == BuildRequest(x, dir, mains[k], coins[k])
    ensures forall k | 0 <= k < |reports| ::
              reports[k] == Process(d, x, dir, Pair(mains, coins).value[k],
                                    server(k + 1, BuildRequest(x, dir, mains[k], coins[k])))
  {
    reports := [];
    var i := 0;
    while i < |mains|
      invariant 0 <= i <= |mains|
      invariant |reports| == i
      invariant forall k | 0 <= k < i :: reports[k] == Step(d, x, dir, server, Job(k + 1, mains[k], coins[k]))
    {
      var report := Step(d, x, dir, server, Job(i + 1, mains[i], coins[i]));
      reports := reports + [report];
      i := i + 1;
    }
    var jobs := Pair(mains, coins).value;
    assert forall k | 0 <= k < |reports| :: jobs[k] == Job(k + 1, mains[k], coins[k]);
  }
}
