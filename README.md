# Stock price checker: like votes and response shaping

This project models the `/api/stock-prices` GET handler of the stock price
checker in Dafny and proves properties of the model. Four modules follow the
handler's structure:

- `Optional` (`optional.dfy`) is the usual optional value.
- `Votes` (`votes.dfy`) covers the like records. A record holds a hashed
  caller address, a ticker and a `likes` weight. The module has the
  check-then-insert vote, the vote loop over the requested tickers, and the
  `$match`/`$group` aggregation that gives a ticker's like total.
- `Quotes` (`quotes.dfy`) covers the query values, the shape of the response,
  and the join of the price fetches. In that join every fetch callback pushes
  an item onto `stockData` and counts itself in `processedCount`, and the
  callback that brings the count to the number of tickers sends the response.
- `Handler` (`handler.dfy`) has the store as a class and the route handler as
  a method. It also has the functions that say what a request does, and the
  lemmas about whole requests.

The hash library is abstract. The comparison `compareSync` is a parameter
`matches: (Ip, Token) -> bool`. The salted hash that `hashSync` computes once
per request is an input `token`. Nothing assumes that hashing one address
twice gives the same token. The lemmas assume only what they state:

- the request's token verifies the caller's address;
- where a lemma says so, no token verifies two different addresses
  (`CollisionFree`).

The `World` input holds everything the outside world decides for one request:

- the salted token;
- the number of the first store call that fails, if any. Calls are counted
  from 0 in the order the handler issues them: a `find` per ticker, a
  `create` per new like, then an `aggregate` per ticker;
- how each ticker's price fetch ends, either a quote or a failure;
- the order in which the fetches complete.

The handler `Handler.HandleGet` is proved against the function
`Handler.Serve`, and the lemmas are stated about `Serve`. Likewise, the
callback simulation `Quotes.JoinFetches` is proved against `Quotes.Settled`.

### Where the code and its documented intent differ

The model follows the code in each of these cases:

- **Pairing follows completion order.** The documented behaviour describes a
  two-ticker request as an ordered pair. In the code, `stockData` is filled in
  the order the fetches complete, so `rel_likes` pairs the items in completion
  order, not request order (`Handler.TwoTickerResponse`).
- **Failure first gives no response.** With two tickers, suppose the failing
  fetch completes first and the quote second. Then `stockData[1]` does not
  exist when `rel_likes` is computed. The error is caught, the catch block
  counts the callback a second time, and no response is ever sent
  (`Quotes.TwoTickersFailureFirst`).
- **Partial arrays with three or more tickers.** A failed fetch that does not
  complete last is dropped silently. The response is a 200 array of the
  quotes that did arrive (`Quotes.ManyTickersSettled`).
- **Both fields in the two-ticker items.** The documented behaviour shows
  only `rel_likes` on the two-ticker items. The code keeps `likes` too.
- **Any number of tickers.** The documented interface takes one or two
  tickers, but the code takes a list of any length. Lists of three or more
  are modelled as the code handles them.
- **`like` is tested for truthiness.** `like=false` is a non-empty string,
  so it counts as a like.

## Model

| member | source | states |
|---|---|---|
| `Votes.ForStock` | routes/api.js:42 | the records `find({stock: t})` returns, in store order: never more than are stored. Which ones they are is stated by `ForStockMembers` |
| `Votes.ForStockMembers` | routes/api.js:42 | `find({stock: t})` returns exactly the stored records whose ticker is `t` |
| `Votes.AnyMatch` | routes/api.js:45 | the `some` of `compareSync` over the found records. Its meaning is stated by `AnyMatchExists` |
| `Votes.AnyMatchExists` | routes/api.js:45 | the `some` over the found records holds exactly when one of their stored tokens verifies the caller's address |
| `Votes.AlreadyLikedExists` | routes/api.js:42-45 | the vote loop's test holds exactly when a stored record of the ticker verifies the caller |
| `Votes.Vote` | routes/api.js:42-51 | one pass of the vote loop without a store failure. What it does to the store is stated by `VoteCases` |
| `Votes.VoteCases` | routes/api.js:42-51 | a vote leaves the store unchanged when a record of the ticker verifies the caller. When none does, it appends exactly `{ip: token, stock: t, likes: 1}`. It never changes the records of another ticker |
| `Votes.VoteLikes` | routes/api.js:45-51 | after a vote under a token that verifies the caller, the caller has liked the ticker. The ticker's records grow by the new record only if none verified the caller before |
| `Votes.VoteIdempotent` | routes/api.js:42-51 | voting again from the same address under any fresh salt changes nothing more |
| `Votes.VotePhase` | routes/api.js:38-53 | the vote loop only extends the store and never issues fewer calls than it started from. Without a failing store call it runs to the end |
| `Votes.VotePhaseAppends` | routes/api.js:38-53 | every record the loop appends is a single like, under the request's one token, of a requested ticker |
| `Votes.VotePhaseForStock` | routes/api.js:36-53 | without a store failure, each requested ticker gains exactly one record if the caller had not liked it before, and none otherwise. A ticker listed twice gains at most one record, and unrequested tickers are untouched |
| `Votes.VotePhaseUnchanged` | routes/api.js:38-53 | a vote loop over tickers the caller has all liked already writes nothing |
| `Votes.VotePhaseIdempotent` | routes/api.js:30-53 | repeating a request's likes from the same address under a new salt leaves the store as the first request left it |
| `Votes.Aggregate` | routes/api.js:81-84 | the aggregation yields at most one group, and that group is for the requested ticker |
| `Votes.AggregateNonEmpty` | routes/api.js:81-84 | a group exists exactly when some record has the ticker |
| `Votes.SumOfSingleLikes` | routes/api.js:83 | summing `likes` over records that each carry one like counts the records |
| `Votes.TotalLikes` | routes/api.js:86 | the total of the first group, or 0 without groups. What it makes of a store is stated by `LikesOfNoRecords` and `LikesCountRecords` |
| `Votes.LikesOfNoRecords` | routes/api.js:81-86 | a ticker without records reports 0 likes, and one with records reports the sum of their `likes` |
| `Votes.LikesCountRecords` | routes/api.js:81-86 | when each record carries one like, the reported total equals the ticker's number of records |
| `Votes.VotePhaseSingleLikes` | routes/api.js:50 | the vote loop only ever adds records carrying a single like |
| `Votes.ReplaySingleLikes` | routes/api.js:50 | a history of votes only ever adds records carrying a single like |
| `Votes.LikesCountDistinctVoters` | routes/api.js:42-51 | for a history of votes from an empty store, where tokens verify their own address and never two, every caller of the ticker is found by the vote test. Every record carries the token of one of those callers, and the ticker's records are as many as its distinct callers |
| `Votes.LikesOfDistinctVoters` | routes/api.js:81-86 | for such a history, the like total the handler reports is the number of distinct callers |
| `Votes.VotePhaseReplay` | routes/api.js:36-53 | without a store failure, a request's vote loop leaves the store that voting its tickers one by one, in order and under its one token, leaves |
| `Votes.VotePhaseDistinctVoters` | routes/api.js:30-53 | after a history of votes from an empty store and one more request's vote loop, where every token verifies its own address and none two addresses, a ticker's like total is the number of distinct callers who liked it, counted over the whole history |
| `Quotes.Truthy` | routes/api.js:34 | JavaScript truthiness of the `like` value: only a missing value and the empty string are false. `NoLikeNoWrite` states that the vote loop is then skipped |
| `Quotes.Tickers` | routes/api.js:36 | normalising the `stock` value gives at least one ticker. A plain value becomes the one-element list of itself, and only a list can give more than one |
| `Quotes.SingleResponse` | routes/api.js:150-177 | the single-ticker callback: a quote gives the one `{stock, price, likes}` object and a failure the fetch error. `SingleTickerShape` states it for whole requests |
| `Quotes.Arrived` | routes/api.js:99-105 | the callbacks push at most one item per completed fetch, and none of the items has `rel_likes` |
| `Quotes.QuotedMembers` | routes/api.js:94-106 | a fetch has a pushed item exactly when it completed with a quote |
| `Quotes.ArrivedItems` | routes/api.js:99-105 | `stockData` holds one item per quote, in completion order. Each item names the ticker, price and like total of the fetch it came from |
| `Quotes.JoinFetches` | routes/api.js:90-135 | running the push, count, `rel_likes` write and send of each callback in the completion order gives exactly the response `Settled` describes |
| `Quotes.Settled` | routes/api.js:109-135 | the response of the multi-ticker join once every fetch has completed. Its meaning is stated by `SettledFailure`, `TwoTickersBothQuoted`, `TwoTickersFailureFirst` and `ManyTickersSettled` |
| `Quotes.SettledFailure` | routes/api.js:121-135 | the multi-ticker join sends the fetch error exactly when the fetch that completes last failed |
| `Quotes.TwoTickersBothQuoted` | routes/api.js:109-118 | with two tickers and both quotes arriving, the response is a 200 array of the two items in completion order. The first item's `rel_likes` is the first total minus the second, the second's is its negation, and the two sum to 0 |
| `Quotes.TwoTickersFailureFirst` | routes/api.js:109-126 | with two tickers where the failure completes before the quote, no response is sent |
| `Quotes.ManyTickersSettled` | routes/api.js:109-118 | with three or more tickers a response is sent once every fetch has completed. When the last fetch is a quote, it is a 200 array of exactly the arrived items, one per quote, none with `rel_likes` |
| `Handler.StockStore.Find` | routes/api.js:42 | `find` returns the records of the ticker in store order: exactly the stored records whose ticker is `t` |
| `Handler.StockStore.Create` | routes/api.js:50 | `create` appends the one record and leaves the earlier ones |
| `Handler.StockStore.Aggregate` | routes/api.js:81-84 | the aggregation returns the ticker's group, which exists exactly when some stored record has the ticker |
| `Handler.LikedBefore` | routes/api.js:42-45 | the find and the `some` give the vote loop's test: whether a stored record of the ticker verifies the caller |
| `Handler.VoteStep` | routes/api.js:39-52 | one pass of the loop leaves what `VotePhase` says is left: the rest of the loop, or the failure when one of its store calls fails |
| `Handler.VoteLoop` | routes/api.js:38-53 | the imperative vote loop (find, test, create) leaves the store, the call count and the failure status that `VotePhase` describes |
| `Handler.ReadTotal` | routes/api.js:81-86 | the total read for a ticker is its like total in the store |
| `Handler.ReadTotals` | routes/api.js:77-86 | the list branch reads every ticker's total, in order, unless one of those reads is the failing store call, and it fails exactly then |
| `Handler.ProcessList` | routes/api.js:72-136 | the list branch sends the database error when a read fails, and otherwise the joined response |
| `Handler.Process` | routes/api.js:66-184 | what `processStockData` sends. Its meaning is stated by `ReadFailureResponse`, `ServeWithoutOutage`, `SingleTickerShape` and `ArrayOnlyForLists` |
| `Handler.Serve` | routes/api.js:22-63 | what a whole request does to the store and sends. Its meaning is stated by `NoLikeNoWrite`, `ErrorMapping` and the lemmas below |
| `Handler.ProcessStockData` | routes/api.js:66-184 | `processStockData` sends what `Process` says for the store as the vote loop left it |
| `Handler.HandleGet` | routes/api.js:22-63 | the handler leaves the store and sends the response that `Serve` describes: the vote loop when `like` is truthy, the connection error when one of its store calls fails, and the processing otherwise |
| `Handler.NoLikeNoWrite` | routes/api.js:34-54 | a request without a truthy `like` writes nothing |
| `Handler.ErrorMapping` | routes/api.js:59-183 | a request never removes records. A failing store call in the vote loop sends `Database connection error`. Without a store failure neither database message is sent. Every response is a 200 with stock data or a 500 with one of the three fixed messages |
| `Handler.ReadFailureResponse` | routes/api.js:180-183 | when any one of the reads of the like totals fails, after a vote loop that completed, the handler sends `Database error` and the store keeps what the vote loop wrote |
| `Handler.ServeWithoutOutage` | routes/api.js:56-57 | without a store failure, the response is what the processing of the tickers makes of the store the vote loop left |
| `Handler.SingleTickerShape` | routes/api.js:137-177 | a single ticker gives one object carrying the ticker, the price and the like total, without `rel_likes`. A failed fetch gives `Error fetching stock price data` instead |
| `Handler.ArrayOnlyForLists` | routes/api.js:69-72 | only a list of more than one ticker gives an array, and only a single ticker gives one object |
| `Handler.RepeatedLikeCountedOnce` | routes/api.js:30-53 | liking a ticker from an empty store reports one like. Liking it again from the same address under a new salt writes nothing and again reports one like |
| `Handler.TwoTickerResponse` | routes/api.js:109-118 | a two-ticker request without a store failure, where both quotes arrive, gets the two items in completion order. Each item carries its ticker's total after the vote and `rel_likes` as the difference of the totals with opposite signs |

## Left out

- The bcrypt internals (`hashSync`, `compareSync`) are a foreign library. The comparison is an abstract parameter and the salted hash is an input token. An exception thrown by `hashSync` outside the handler's `try` is not modelled.
- MongoDB and Mongoose are replaced by an in-memory sequence of records. A failing store call is assumed to write nothing.
- The HTTPS request, chunk accumulation and `JSON.parse` are network I/O. Each fetch's outcome is an input, either a quote with an opaque price (whatever `latestPrice` was, undefined included) or a failure.
- Callbacks can interleave with the later aggregate reads of the list branch. The model runs the reads first and the callbacks after. The interleaving cannot change the response: the count cannot reach the number of tickers before every fetch has been issued, and a failing read sends the database error first.
- Concurrent requests are not modelled, including the race between the check and the insert of two simultaneous votes from one address.
- The startup `clearDatabase()` (routes/api.js:7-17), all console output, the Express routing and the extraction of `req.ip` are left out.
- A missing `stock` value or an empty list is excluded by `HasTicker`. The ticker is then `undefined`, and how the store treats that filter is not part of this model.
- Query values are missing, one string, or a list of strings. Nested objects from the query parser are not modelled.
- Like totals are unbounded integers. JavaScript's floating-point numbers are exact for every total a store could hold.
- `Votes.Aggregate`: states the group's existence and ticker. Its total is stated through `LikesOfNoRecords` and `LikesCountRecords`.
- A fetch that never completes is not modelled. `https.get` sets no timeout (routes/api.js:90, 151), so such a fetch leaves the request without any response, for any number of tickers. Every `World` gives each fetch an outcome and a place in the completion order.
