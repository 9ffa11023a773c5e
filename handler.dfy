/**
 * The GET handler of `/api/stock-prices`: the vote loop when `like` is
 * truthy, then `processStockData`, which reads each ticker's like total and
 * joins the price fetches into the response; store failures become the fixed
 * 500 payloads.
 *
 * The store is an object holding the records; everything the outside world
 * decides for one request (the salted hash of the caller's address, which
 * store call fails, how each price fetch ends and in which order the fetches
 * complete) is an input `World`.
 */
module Handler {
  import opened Optional
  import opened Votes
  import opened Quotes

  /** A request: the `stock` and `like` query values and the caller's address. */
  datatype Request = Request(stock: QueryValue, like: QueryValue, ip: Ip)

  /**
   * What the world decides for one request: the token `hashSync` produced for
   * the caller's address, the number of the first store call that fails (calls
   * counted from 0 in the order the handler issues them), each requested
   * ticker's fetch outcome by position, and the order the fetches complete in.
   */
  datatype World = World(token: Token, outage: Option<nat>, fetches: seq<Fetch>, order: seq<nat>)

  /** The world matches the request: one fetch per ticker and, for a list, a
      completion order listing each fetch once. */
  predicate Admissible(req: Request, w: World) {
    && HasTicker(req.stock)
    && |w.fetches| == |Tickers(req.stock)|
    && (|Tickers(req.stock)| > 1 ==> IsCompletionOrder(w.order, |Tickers(req.stock)|))
  }

  /** The like totals of the tickers, position by position. */
  function LikesList(rs: seq<Record>, ts: seq<string>): (likes: seq<int>)
    ensures |likes| == |ts|
    ensures forall k :: 0 <= k < |ts| ==> likes[k] == LikesOf(rs, ts[k])
  {
    seq(|ts|, k requires 0 <= k < |ts| => LikesOf(rs, ts[k]))
  }

  /**
   * What `processStockData` sends, its store calls numbered from `calls`. A
   * list reads the totals ticker by ticker; a failing read gives the database
   * error, and otherwise the fetches settle as `Settled` says. A single ticker
   * reads its total and sends the single-ticker response.
   */
  function Process(rs: seq<Record>, ts: seq<string>, w: World, calls: nat): Option<Response>
    requires |ts| >= 1 && |w.fetches| == |ts|
    requires |ts| > 1 ==> IsCompletionOrder(w.order, |ts|)
  {
    if |ts| > 1 then
      if w.outage.Some? && calls <= w.outage.value < calls + |ts| then Some(Response(500, Error(DatabaseError)))
      else Settled(ts, LikesList(rs, ts), w.fetches, w.order)
    else if w.outage == Some(calls) then Some(Response(500, Error(DatabaseError)))
    else Some(SingleResponse(ts[0], LikesOf(rs, ts[0]), w.fetches[0]))
  }

  /** The store a request leaves behind and the response it sends, if any. */
  datatype Outcome = Outcome(records: seq<Record>, response: Option<Response>)

  /** The whole request: the vote loop if `like` is truthy, aborting with the
      connection error when a store call fails, then the processing. */
  function Serve(matches: Verifier, rs: seq<Record>, req: Request, w: World): Outcome
    requires Admissible(req, w)
  {
    var ts := Tickers(req.stock);
    if Truthy(req.like) then
      var run := VotePhase(matches, rs, req.ip, w.token, ts, w.outage, 0);
      if run.failed then Outcome(run.records, Some(Response(500, Error(DatabaseConnectionError))))
      else Outcome(run.records, Process(run.records, ts, w, run.calls))
    else Outcome(rs, Process(rs, ts, w, 0))
  }

  /** The in-memory store of like records, with the hash library's comparison. */
  class StockStore {
    const matches: Verifier
    var records: seq<Record>

    constructor (matches: Verifier)
      ensures this.matches == matches && records == []
    {
      this.matches := matches;
      records := [];
    }

    /** `StockModel.find({stock: t})`. */
    method Find(t: string) returns (found: seq<Record>)
      ensures found == ForStock(records, t)
      ensures forall r :: r in found <==> r in records && r.stock == t
    {
      found := ForStock(records, t);
      ForStockMembers(records, t);
    }

    /** `StockModel.create(r)`. */
    method Create(r: Record)
      modifies this
      ensures records == old(records) + [r]
    {
      records := records + [r];
    }

    /** `StockModel.aggregate` of the `$match`/`$group` pipeline for `t`. */
    method Aggregate(t: string) returns (groups: seq<Group>)
      ensures groups == Votes.Aggregate(records, t)
      ensures groups != [] <==> exists r :: r in records && r.stock == t
    {
      groups := Votes.Aggregate(records, t);
      AggregateNonEmpty(records, t);
    }
  }

  /** One ticker's like total: the aggregation's first group's total, or 0
      when it yields none. */
  method ReadTotal(store: StockStore, t: string) returns (totalLikes: int)
    ensures totalLikes == LikesOf(store.records, t)
  {
    var result := store.Aggregate(t);
    totalLikes := if |result| > 0 then result[0].totalLikes else 0;
  }

  /** `processStockData`: read the like totals, then join the fetches. */
  method ProcessStockData(store: StockStore, ts: seq<string>, w: World, calls: nat) returns (resp: Option<Response>)
    requires |ts| >= 1 && |w.fetches| == |ts|
    requires |ts| > 1 ==> IsCompletionOrder(w.order, |ts|)
    ensures resp == Process(store.records, ts, w, calls)
  {
    if |ts| > 1 {
      resp := ProcessList(store, ts, w, calls);
    } else {
      if w.outage == Some(calls) {
        return Some(Response(500, Error(DatabaseError)));
      }
      var totalLikes := ReadTotal(store, ts[0]);
      resp := Some(SingleResponse(ts[0], totalLikes, w.fetches[0]));
    }
  }

  /** The like totals of the list branch, ticker by ticker, each read before
      that ticker's fetch is issued; `failed` when one of the reads fails. */
  method ReadTotals(store: StockStore, ts: seq<string>, outage: Option<nat>, calls: nat)
    returns (likes: seq<int>, failed: bool)
    ensures failed <==> outage.Some? && calls <= outage.value < calls + |ts|
    ensures !failed ==> likes == LikesList(store.records, ts)
  {
    likes := [];
    var i := 0;
    while i < |ts|
      invariant 0 <= i <= |ts|
      invariant |likes| == i
      invariant forall k :: 0 <= k < i ==> likes[k] == LikesOf(store.records, ts[k])
      invariant !(outage.Some? && calls <= outage.value < calls + i)
    {
      if outage == Some(calls + i) {
        return likes, true;
      }
      var totalLikes := ReadTotal(store, ts[i]);
      likes := likes + [totalLikes];
      i := i + 1;
    }
    assert likes == LikesList(store.records, ts);
    failed := false;
  }

  /** The list branch of `processStockData`: the like totals, then the join. */
  method ProcessList(store: StockStore, ts: seq<string>, w: World, calls: nat) returns (resp: Option<Response>)
    requires |ts| > 1 && |w.fetches| == |ts|
    requires IsCompletionOrder(w.order, |ts|)
    ensures resp == Process(store.records, ts, w, calls)
  {
    var likes, failed := ReadTotals(store, ts, w.outage, calls);
    if failed {
      return Some(Response(500, Error(DatabaseError)));
    }
    resp := JoinFetches(ts, likes, w.fetches, w.order);
  }

  /** One ticker's test in the vote loop: find the ticker's records and ask
      whether any stored token verifies the caller. */
  method LikedBefore(store: StockStore, ip: Ip, t: string) returns (alreadyLiked: bool)
    ensures alreadyLiked == AlreadyLiked(store.matches, store.records, ip, t)
  {
    var likedStocks := store.Find(t);
    alreadyLiked := AnyMatch(store.matches, ip, likedStocks);
  }

  /** One pass of the vote loop for the first of the tickers `ts`: find the
      ticker's records and, when no stored token verifies the caller, create a
      like under the request's token. Store calls are numbered from `calls`,
      and call `outage`, if any, fails. What is left of the loop afterwards is
      the rest of the vote loop, unless the pass failed. */
  method VoteStep(store: StockStore, ip: Ip, token: Token, ts: seq<string>, outage: Option<nat>, calls: nat)
      returns (calls': nat, failed: bool)
    requires ts != []
    modifies store
    ensures var run := VotePhase(store.matches, old(store.records), ip, token, ts, outage, calls);
            if failed then run == VoteRun(store.records, calls', true)
            else run == VotePhase(store.matches, store.records, ip, token, ts[1..], outage, calls')
  {
    if outage == Some(calls) {
      return calls, true;
    }
    var alreadyLiked := LikedBefore(store, ip, ts[0]);
    if alreadyLiked {
      return calls + 1, false;
    }
    if outage == Some(calls + 1) {
      return calls + 1, true;
    }
    store.Create(Record(token, ts[0], 1));
    calls', failed := calls + 2, false;
  }

  /** The vote loop of the handler: for each ticker in order, find its records
      and, when no stored token verifies the caller, create a like under the
      request's token; store calls are numbered from zero and call `outage`,
      if any, fails and stops the loop. */
  method VoteLoop(store: StockStore, ip: Ip, token: Token, stocks: seq<string>, outage: Option<nat>)
      returns (calls: nat, failed: bool)
    modifies store
    ensures var run := VotePhase(store.matches, old(store.records), ip, token, stocks, outage, 0);
            store.records == run.records && calls == run.calls && failed == run.failed
  {
    calls := 0;
    var i := 0;
    ghost var rest := stocks;
    while i < |stocks|
      invariant 0 <= i <= |stocks| && rest == stocks[i..]
      invariant VotePhase(store.matches, store.records, ip, token, rest, outage, calls) ==
                VotePhase(store.matches, old(store.records), ip, token, stocks, outage, 0)
    {
      var stepFailed;
      calls, stepFailed := VoteStep(store, ip, token, stocks[i..], outage, calls);
      if stepFailed {
        return calls, true;
      }
      rest := rest[1..];
      i := i + 1;
    }
    failed := false;
  }

  /** The route handler. */
  method HandleGet(store: StockStore, req: Request, w: World) returns (resp: Option<Response>)
    requires Admissible(req, w)
    modifies store
    ensures store.records == Serve(store.matches, old(store.records), req, w).records
    ensures resp == Serve(store.matches, old(store.records), req, w).response
  {
    var stocks := Tickers(req.stock);
    var calls := 0;
    if Truthy(req.like) {
      var failed;
      calls, failed := VoteLoop(store, req.ip, w.token, stocks, w.outage);
      if failed {
        return Some(Response(500, Error(DatabaseConnectionError)));
      }
    }
    resp := ProcessStockData(store, stocks, w, calls);
  }

  /** A request without a truthy `like` writes nothing. */
  lemma NoLikeNoWrite(matches: Verifier, rs: seq<Record>, req: Request, w: World)
    requires Admissible(req, w) && !Truthy(req.like)
    ensures Serve(matches, rs, req, w).records == rs
  {
  }

  /**
   * Error mapping. A failing store call during the vote loop sends the
   * connection error and nothing else happens, the records written before it
   * staying; a failing read of a like total sends the database error; without
   * any store failure neither is ever sent; and every response is either a 200
   * with stock data or a 500 with one of the three fixed messages.
   */
  lemma ErrorMapping(matches: Verifier, rs: seq<Record>, req: Request, w: World)
    requires Admissible(req, w)
    ensures var out := Serve(matches, rs, req, w);
            && rs <= out.records
            && (Truthy(req.like) && VotePhase(matches, rs, req.ip, w.token, Tickers(req.stock), w.outage, 0).failed ==>
                  out.response == Some(Response(500, Error(DatabaseConnectionError))))
            && (w.outage == None ==>
                  out.response != Some(Response(500, Error(DatabaseConnectionError))) &&
                  out.response != Some(Response(500, Error(DatabaseError))))
            && (out.response.Some? ==>
                  || (out.response.value.status == 200 && !out.response.value.payload.Error?)
                  || (out.response.value.status == 500 && out.response.value.payload.Error? &&
                      out.response.value.payload.message in {DatabaseConnectionError, DatabaseError, FetchError}))
  {
    var ts := Tickers(req.stock);
    if |ts| > 1 {
      var records := Serve(matches, rs, req, w).records;
      SettledFailure(ts, LikesList(records, ts), w.fetches, w.order);
    }
  }

  /** When the vote loop, if any, completed and one of the reads of the like
      totals fails (the `k`-th, counted from zero, of one read per ticker),
      the database error is sent and the store keeps what the vote loop wrote. */
  lemma ReadFailureResponse(matches: Verifier, rs: seq<Record>, req: Request, w: World, k: nat)
    requires Admissible(req, w) && k < |Tickers(req.stock)|
    requires var run := VotePhase(matches, rs, req.ip, w.token, Tickers(req.stock), w.outage, 0);
             if Truthy(req.like) then !run.failed && w.outage == Some(run.calls + k) else w.outage == Some(k)
    ensures var run := VotePhase(matches, rs, req.ip, w.token, Tickers(req.stock), w.outage, 0);
            Serve(matches, rs, req, w) ==
              Outcome(if Truthy(req.like) then run.records else rs, Some(Response(500, Error(DatabaseError))))
  {
  }

  /**
   * A single ticker (a plain value or a one-element list) yields one object
   * carrying the ticker, the fetched price and the like total, without
   * `rel_likes`, or the fetch error when the fetch failed.
   */
  lemma SingleTickerShape(matches: Verifier, rs: seq<Record>, req: Request, w: World)
    requires Admissible(req, w) && |Tickers(req.stock)| == 1 && w.outage == None
    ensures var out := Serve(matches, rs, req, w);
            var t := Tickers(req.stock)[0];
            && (w.fetches[0].Quote? ==>
                  out.response == Some(Response(200, One(Item(t, w.fetches[0].price, LikesOf(out.records, t), None)))))
            && (w.fetches[0].Failed? ==> out.response == Some(Response(500, Error(FetchError))))
  {
    ServeWithoutOutage(matches, rs, req, w);
  }

  /** Only a list of more than one ticker yields an array, and only a single
      ticker yields one object. */
  lemma ArrayOnlyForLists(matches: Verifier, rs: seq<Record>, req: Request, w: World)
    requires Admissible(req, w)
    ensures var out := Serve(matches, rs, req, w);
            && (out.response.Some? && out.response.value.payload.Many? ==>
                  req.stock.List? && |req.stock.items| > 1)
            && (out.response.Some? && out.response.value.payload.One? ==> |Tickers(req.stock)| == 1)
  {
  }

  /**
   * Liking a ticker from an empty store reports one like; liking it again
   * from the same address, under a new salt, writes nothing and reports the
   * same total.
   */
  lemma RepeatedLikeCountedOnce(matches: Verifier, req: Request, w1: World, w2: World)
    requires Admissible(req, w1) && Admissible(req, w2)
    requires req.stock.Text? && Truthy(req.like)
    requires matches(req.ip, w1.token)
    requires w1.outage == None && w2.outage == None
    requires w1.fetches[0].Quote? && w2.fetches[0].Quote?
    ensures var first := Serve(matches, [], req, w1);
            var second := Serve(matches, first.records, req, w2);
            && first.response == Some(Response(200, One(Item(req.stock.s, w1.fetches[0].price, 1, None))))
            && second.records == first.records
            && second.response == Some(Response(200, One(Item(req.stock.s, w2.fetches[0].price, 1, None))))
  {
    var t, ts := req.stock.s, [req.stock.s];
    var first := VotePhase(matches, [], req.ip, w1.token, ts, None, 0).records;
    VotePhaseForStock(matches, [], req.ip, w1.token, ts, 0, t);
    assert !AlreadyLiked(matches, [], req.ip, t);
    assert ForStock(first, t) == [Record(w1.token, t, 1)];
    VotePhaseSingleLikes(matches, [], req.ip, w1.token, ts, None, 0);
    LikesCountRecords(first, t);
    VotePhaseIdempotent(matches, [], req.ip, w1.token, w2.token, ts);
  }

  /** Without a store failure, a request's response is what the processing
      of its tickers makes of the store the vote loop left. */
  lemma ServeWithoutOutage(matches: Verifier, rs: seq<Record>, req: Request, w: World)
    requires Admissible(req, w) && w.outage == None
    ensures var out := Serve(matches, rs, req, w);
            var ts := Tickers(req.stock);
            && (|ts| > 1 ==> out.response == Settled(ts, LikesList(out.records, ts), w.fetches, w.order))
            && (|ts| == 1 ==> out.response == Some(SingleResponse(ts[0], LikesOf(out.records, ts[0]), w.fetches[0])))
  {
    if Truthy(req.like) {
      assert !VotePhase(matches, rs, req.ip, w.token, Tickers(req.stock), None, 0).failed;
    }
  }

  /**
   * Two tickers without a store failure whose both quotes arrive: an array of
   * the two items in the order their fetches completed, not the order of the
   * request, each with its ticker's like total after the vote; `rel_likes` of
   * the first is the difference of the two totals and of the second its
   * negation, so that they sum to zero.
   */
  lemma TwoTickerResponse(matches: Verifier, rs: seq<Record>, req: Request, w: World)
    requires Admissible(req, w) && |Tickers(req.stock)| == 2 && w.outage == None
    requires w.fetches[0].Quote? && w.fetches[1].Quote?
    ensures var out := Serve(matches, rs, req, w);
            var ts := Tickers(req.stock);
            var first, second := w.order[0], w.order[1];
            && {first, second} == {0, 1}
            && var l1, l2 := LikesOf(out.records, ts[first]), LikesOf(out.records, ts[second]);
            out.response == Some(Response(200, Many([Item(ts[first], w.fetches[first].price, l1, Some(l1 - l2)),
                                                     Item(ts[second], w.fetches[second].price, l2, Some(l2 - l1))])))
  {
    ServeWithoutOutage(matches, rs, req, w);
    var out := Serve(matches, rs, req, w);
    var ts := Tickers(req.stock);
    var likes := LikesList(out.records, ts);
    assert w.order[0] < 2 && w.order[1] < 2 && w.order[0] != w.order[1];
    assert out.response == Settled(ts, likes, w.fetches, w.order);
    TwoTickersBothQuoted(ts, likes, w.fetches, w.order);
  }

}
