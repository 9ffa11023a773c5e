/**
 * The query values of a stock-price request and the shape of its response:
 * one `{stock, price, likes}` object for one ticker, an array of them for a
 * list, `rel_likes` on both items of a two-ticker array, and the fixed 500
 * error payloads.
 *
 * In the multi-ticker case every price fetch ends in a callback that pushes
 * an item onto `stockData` and counts itself in `processedCount`; the
 * response, if any, is sent by the callback that brings the count to the
 * number of tickers. `JoinFetches` runs those callbacks in a given
 * completion order and `Settled` says what comes out.
 */
module Quotes {
  import opened Optional

  /** A query parameter as the router hands it over: missing, one value, or
      the list a repeated parameter becomes. */
  datatype QueryValue = Absent | Text(s: string) | List(items: seq<string>)

  /** JavaScript truthiness of a query value: only a missing value and the
      empty string are false (so `like=false` is a like). */
  predicate Truthy(v: QueryValue) {
    match v
    case Absent => false
    case Text(s) => s != ""
    case List(_) => true
  }

  /** The value names at least one ticker (a missing value or an empty list
      would leave the ticker `undefined`). */
  predicate HasTicker(v: QueryValue) {
    v.Text? || (v.List? && |v.items| > 0)
  }

  /** `Array.isArray(stock) ? stock : [stock]`. */
  function Tickers(v: QueryValue): (ts: seq<string>)
    requires HasTicker(v)
    ensures |ts| >= 1
    ensures v.Text? ==> ts == [v.s]
    ensures |ts| > 1 ==> v.List?
  {
    if v.List? then v.items else [v.s]
  }

  /** The `latestPrice` of a quote, passed through uninspected. */
  type Price

  /** How a ticker's price fetch ended: a parsed quote, or a network or parse failure. */
  datatype Fetch = Quote(price: Price) | Failed

  /** One element of `stockData`. */
  datatype Item = Item(stock: string, price: Price, likes: int, relLikes: Option<int>)

  /** A response body: one object, an array, or an error message. */
  datatype Payload = One(item: Item) | Many(items: seq<Item>) | Error(message: string)

  datatype Response = Response(status: nat, payload: Payload)

  const DatabaseConnectionError := "Database connection error"
  const DatabaseError := "Database error"
  const FetchError := "Error fetching stock price data"

  /** The single-ticker callback: a quote becomes the one object, a failure the fetch error. */
  function SingleResponse(t: string, likes: int, f: Fetch): Response {
    match f
    case Quote(p) => Response(200, One(Item(t, p, likes, None)))
    case Failed => Response(500, Error(FetchError))
  }

  /** The fetch numbers in `order` are all ticker positions. */
  predicate InRange(order: seq<nat>, n: nat) {
    forall i :: 0 <= i < |order| ==> order[i] < n
  }

  /** `order` lists every one of `n` fetches exactly once. */
  predicate IsCompletionOrder(order: seq<nat>, n: nat) {
    && |order| == n
    && InRange(order, n)
    && forall i, j :: 0 <= i < j < |order| ==> order[i] != order[j]
  }

  /** The items pushed by the callbacks that completed in `order`: one per
      quote, in completion order, none carrying `rel_likes`. */
  function Arrived(ts: seq<string>, likes: seq<int>, fetches: seq<Fetch>, order: seq<nat>): (items: seq<Item>)
    requires |likes| == |fetches| == |ts|
    requires InRange(order, |ts|)
    ensures |items| <= |order|
    ensures forall j :: 0 <= j < |items| ==> items[j].relLikes == None
  {
    if order == [] then []
    else
      var k := order[|order| - 1];
      Arrived(ts, likes, fetches, order[..|order| - 1]) +
        (if fetches[k].Quote? then [Item(ts[k], fetches[k].price, likes[k], None)] else [])
  }

  /**
   * The response of the multi-ticker join after every fetch has completed.
   * Only the last callback can find the count equal to the number of
   * tickers. If it is a failure, the fetch error goes out. If it is a quote,
   * the pushed items go out, and with two tickers they first get `rel_likes`:
   * should only one item have been pushed, reading `stockData[1]` throws, the
   * catch block counts the event a second time, and no response is sent.
   */
  function Settled(ts: seq<string>, likes: seq<int>, fetches: seq<Fetch>, order: seq<nat>): (r: Option<Response>)
    requires |ts| > 1
    requires |likes| == |fetches| == |ts| == |order|
    requires InRange(order, |ts|)
  {
    var items := Arrived(ts, likes, fetches, order);
    if fetches[order[|order| - 1]].Failed? then Some(Response(500, Error(FetchError)))
    else if |ts| != 2 then Some(Response(200, Many(items)))
    else if |items| < 2 then None
    else
      var rel := items[0].likes - items[1].likes;
      Some(Response(200, Many([items[0].(relLikes := Some(rel)), items[1].(relLikes := Some(-rel))])))
  }

  /** The price callbacks of a request of more than one ticker, run in completion order `order`. */
  method JoinFetches(ts: seq<string>, likes: seq<int>, fetches: seq<Fetch>, order: seq<nat>)
      returns (resp: Option<Response>)
    requires |ts| > 1
    requires |likes| == |fetches| == |ts| == |order|
    requires InRange(order, |ts|)
    ensures resp == Settled(ts, likes, fetches, order)
  {
    var stockData: seq<Item> := [];
    var processedCount := 0;
    resp := None;
    var i := 0;
    while i < |order|
      invariant 0 <= i <= |order|
      invariant i < |order| ==> processedCount == i && resp == None
      invariant i < |order| ==> stockData == Arrived(ts, likes, fetches, order[..i])
      invariant i == |order| ==> resp == Settled(ts, likes, fetches, order)
    {
      assert order[..i + 1][..i] == order[..i];
      var k := order[i];
      match fetches[k] {
        case Quote(p) =>
          stockData := stockData + [Item(ts[k], p, likes[k], None)];
          processedCount := processedCount + 1;
          if processedCount == |ts| {
            assert order[..i + 1] == order;
            if |ts| == 2 {
              if |stockData| < 2 {
                // stockData[1] is undefined: the catch block counts this event again
                processedCount := processedCount + 1;
              } else {
                assert stockData == Arrived(ts, likes, fetches, order) && |stockData| == 2;
                var rel := stockData[0].likes - stockData[1].likes;
                stockData := stockData[0 := stockData[0].(relLikes := Some(rel))];
                stockData := stockData[1 := stockData[1].(relLikes := Some(-rel))];
                ghost var items := Arrived(ts, likes, fetches, order);
                assert stockData == [items[0].(relLikes := Some(rel)), items[1].(relLikes := Some(-rel))];
                resp := Some(Response(200, Many(stockData)));
              }
            } else {
              resp := Some(Response(200, Many(stockData)));
            }
          }
        case Failed =>
          processedCount := processedCount + 1;
          if processedCount == |ts| {
            assert order[..i + 1] == order;
            resp := Some(Response(500, Error(FetchError)));
          }
      }
      i := i + 1;
    }
  }

  /** The multi-ticker join sends the fetch error exactly when the fetch that
      completes last failed, whatever happened before. */
  lemma SettledFailure(ts: seq<string>, likes: seq<int>, fetches: seq<Fetch>, order: seq<nat>)
    requires |ts| > 1
    requires |likes| == |fetches| == |ts| == |order|
    requires InRange(order, |ts|)
    ensures Settled(ts, likes, fetches, order) == Some(Response(500, Error(FetchError))) <==>
              fetches[order[|order| - 1]].Failed?
  {
  }

  /** The fetches among those completed in `order` that came back with a
      quote, in completion order. */
  function Quoted(fetches: seq<Fetch>, order: seq<nat>): (q: seq<nat>)
    requires InRange(order, |fetches|)
    ensures |q| <= |order|
    ensures forall j :: 0 <= j < |q| ==> q[j] < |fetches| && fetches[q[j]].Quote?
  {
    if order == [] then []
    else
      var k := order[|order| - 1];
      Quoted(fetches, order[..|order| - 1]) + (if fetches[k].Quote? then [k] else [])
  }

  /** A fetch is among the quoted ones exactly when it completed with a quote. */
  lemma {:induction false} QuotedMembers(fetches: seq<Fetch>, order: seq<nat>, k: nat)
    requires InRange(order, |fetches|) && k < |fetches|
    ensures k in Quoted(fetches, order) <==> k in order && fetches[k].Quote?
  {
    if order != [] {
      var pre := order[..|order| - 1];
      assert order == pre + [order[|order| - 1]];
      QuotedMembers(fetches, pre, k);
    }
  }

  /** The pushed items are exactly one per quote, in completion order, each
      naming the ticker, price and likes of the fetch it came from. */
  lemma {:induction false} ArrivedItems(ts: seq<string>, likes: seq<int>, fetches: seq<Fetch>, order: seq<nat>)
    requires |likes| == |fetches| == |ts|
    requires InRange(order, |ts|)
    ensures |Arrived(ts, likes, fetches, order)| == |Quoted(fetches, order)|
    ensures forall j :: 0 <= j < |Quoted(fetches, order)| ==>
              Arrived(ts, likes, fetches, order)[j] ==
                Item(ts[Quoted(fetches, order)[j]], fetches[Quoted(fetches, order)[j]].price,
                     likes[Quoted(fetches, order)[j]], None)
  {
    if order != [] {
      var pre := order[..|order| - 1];
      assert InRange(pre, |ts|);
      ArrivedItems(ts, likes, fetches, pre);
      var items, q := Arrived(ts, likes, fetches, order), Quoted(fetches, order);
      var items', q' := Arrived(ts, likes, fetches, pre), Quoted(fetches, pre);
      var k := order[|order| - 1];
      assert items == items' + (if fetches[k].Quote? then [Item(ts[k], fetches[k].price, likes[k], None)] else []);
      assert q == q' + (if fetches[k].Quote? then [k] else []);
      forall j | 0 <= j < |q|
        ensures items[j] == Item(ts[q[j]], fetches[q[j]].price, likes[q[j]], None)
      {
        if j < |q'| {
          assert items[j] == items'[j] && q[j] == q'[j];
        }
      }
    }
  }

  /**
   * Two tickers whose both quotes arrive: an array of the two items in
   * completion order (not request order), each keeping its `likes`, with
   * `rel_likes` the difference of the first and second likes and its
   * negation, summing to zero.
   */
  lemma TwoTickersBothQuoted(ts: seq<string>, likes: seq<int>, fetches: seq<Fetch>, order: seq<nat>)
    requires |ts| == 2
    requires |likes| == |fetches| == |order| == 2
    requires IsCompletionOrder(order, 2)
    requires fetches[0].Quote? && fetches[1].Quote?
    ensures var first, second := order[0], order[1];
            var rel := likes[first] - likes[second];
            Settled(ts, likes, fetches, order) ==
              Some(Response(200, Many([Item(ts[first], fetches[first].price, likes[first], Some(rel)),
                                       Item(ts[second], fetches[second].price, likes[second], Some(-rel))])))
    ensures var r := Settled(ts, likes, fetches, order);
            r.Some? && r.value.payload.Many? && |r.value.payload.items| == 2 &&
            r.value.payload.items[0].relLikes.value + r.value.payload.items[1].relLikes.value == 0
  {
    assert order[..1][..0] == [];
    assert order[..|order| - 1] == order[..1];
    assert InRange(order[..1], 2) && InRange(order[..0], 2);
    var a, b := order[0], order[1];
    assert Arrived(ts, likes, fetches, order[..0]) == [];
    assert Arrived(ts, likes, fetches, order[..1]) ==
             Arrived(ts, likes, fetches, order[..0]) +
               (if fetches[a].Quote? then [Item(ts[a], fetches[a].price, likes[a], None)] else []);
  }

  /** Two tickers where the fetch that fails completes before the quote: no
      response is ever sent. */
  lemma TwoTickersFailureFirst(ts: seq<string>, likes: seq<int>, fetches: seq<Fetch>, order: seq<nat>)
    requires |ts| == 2
    requires |likes| == |fetches| == |order| == 2
    requires IsCompletionOrder(order, 2)
    requires fetches[order[0]].Failed? && fetches[order[1]].Quote?
    ensures Settled(ts, likes, fetches, order) == None
  {
    assert order[..1][..0] == [];
    assert order[..|order| - 1] == order[..1];
    assert InRange(order[..1], 2) && InRange(order[..0], 2);
    assert Arrived(ts, likes, fetches, order[..0]) == [];
    assert Arrived(ts, likes, fetches, order[..1]) == [];
  }

  /**
   * Three tickers or more, every fetch completed: a response is sent; it is the fetch error
   * when the last fetch to complete failed, and otherwise an array of one
   * item per quote that arrived, without `rel_likes`, even when an earlier
   * fetch failed.
   */
  lemma ManyTickersSettled(ts: seq<string>, likes: seq<int>, fetches: seq<Fetch>, order: seq<nat>)
    requires |ts| > 2
    requires |likes| == |fetches| == |ts| == |order|
    requires InRange(order, |ts|)
    ensures var r := Settled(ts, likes, fetches, order);
            && r.Some?
            && (fetches[order[|order| - 1]].Quote? ==>
                  && r.value.status == 200 && r.value.payload.Many?
                  && r.value.payload.items == Arrived(ts, likes, fetches, order)
                  && |r.value.payload.items| == |Quoted(fetches, order)|
                  && forall j :: 0 <= j < |r.value.payload.items| ==> r.value.payload.items[j].relLikes == None)
  {
    ArrivedItems(ts, likes, fetches, order);
  }
}
