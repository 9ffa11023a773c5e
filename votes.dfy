/**
 * The like records of the stock-price handler: the check-then-insert vote that
 * keeps one like per caller address and ticker, the vote loop over the
 * requested tickers, and the per-ticker like total of the `$match`/`$group`
 * aggregation.
 *
 * The hash library is abstract. A caller's address is hashed once per request
 * with a fresh salt (the `token`), and `matches(ip, token)` is the library's
 * comparison. Nothing assumes that hashing the same address twice gives the
 * same token; the lemmas only assume that a token verifies the address it was
 * made from and, where they say so, that no token verifies two addresses.
 */
module Votes {
  import opened Optional

  /** A caller's raw network address. */
  type Ip = string

  /** A salted one-way hash of an address, as a record stores it. */
  type Token = string

  /** The hash library's comparison of a raw address against a stored token. */
  type Verifier = (Ip, Token) -> bool

  /** No token verifies two different addresses. */
  ghost predicate CollisionFree(matches: Verifier) {
    forall a: Ip, b: Ip, t: Token :: matches(a, t) && matches(b, t) ==> a == b
  }

  /** A stored like: the hashed address, the ticker as requested, and its weight. */
  datatype Record = Record(ip: Token, stock: string, likes: int)

  /** One caller liking one ticker, with the token hashed for that request. */
  datatype Ballot = Ballot(ip: Ip, token: Token, stock: string)

  /** The records `find({stock: t})` returns, in store order. */
  function ForStock(rs: seq<Record>, t: string): (found: seq<Record>)
    ensures |found| <= |rs|
  {
    if rs == [] then []
    else ForStock(rs[..|rs| - 1], t) + (if rs[|rs| - 1].stock == t then [rs[|rs| - 1]] else [])
  }

  /** The found records are exactly the stored records of the ticker. */
  lemma {:induction false} ForStockMembers(rs: seq<Record>, t: string)
    ensures forall r :: r in ForStock(rs, t) <==> r in rs && r.stock == t
  {
    if rs != [] {
      var pre := rs[..|rs| - 1];
      assert rs == pre + [rs[|rs| - 1]];
      ForStockMembers(pre, t);
    }
  }

  /** Appending a record extends only the selection of its own ticker. */
  lemma ForStockAppend(rs: seq<Record>, r: Record)
    ensures forall t :: ForStock(rs + [r], t) == ForStock(rs, t) + (if r.stock == t then [r] else [])
  {
    assert (rs + [r])[..|rs|] == rs;
  }

  /** `some` over the found records: does any stored token verify `ip`? */
  function AnyMatch(matches: Verifier, ip: Ip, rs: seq<Record>): bool {
    rs != [] && (matches(ip, rs[0].ip) || AnyMatch(matches, ip, rs[1..]))
  }

  /** `some` holds exactly when some record's token verifies the address. */
  lemma {:induction false} AnyMatchExists(matches: Verifier, ip: Ip, rs: seq<Record>)
    ensures AnyMatch(matches, ip, rs) <==> exists r :: r in rs && matches(ip, r.ip)
  {
    if rs != [] {
      AnyMatchExists(matches, ip, rs[1..]);
      assert forall r :: r in rs <==> r == rs[0] || r in rs[1..];
    }
  }

  /** The vote loop's test for one ticker. */
  predicate AlreadyLiked(matches: Verifier, rs: seq<Record>, ip: Ip, t: string) {
    AnyMatch(matches, ip, ForStock(rs, t))
  }

  /** The caller has liked `t` exactly when a stored record of `t` verifies it. */
  lemma AlreadyLikedExists(matches: Verifier, rs: seq<Record>, ip: Ip, t: string)
    ensures AlreadyLiked(matches, rs, ip, t) <==> exists r :: r in rs && r.stock == t && matches(ip, r.ip)
  {
    ForStockMembers(rs, t);
    AnyMatchExists(matches, ip, ForStock(rs, t));
  }

  /** One pass of the vote loop without a store failure: keep the store when a
      record of the ticker verifies the caller, else append a fresh like. */
  function Vote(matches: Verifier, rs: seq<Record>, b: Ballot): seq<Record> {
    if AlreadyLiked(matches, rs, b.ip, b.stock) then rs else rs + [Record(b.token, b.stock, 1)]
  }

  /** A vote keeps the store when a stored record of the ticker verifies the
      caller, appends a fresh single like when none does, and never changes
      the records of another ticker. */
  lemma VoteCases(matches: Verifier, rs: seq<Record>, b: Ballot)
    ensures (exists s :: s in rs && s.stock == b.stock && matches(b.ip, s.ip)) ==> Vote(matches, rs, b) == rs
    ensures (forall s :: s in rs && s.stock == b.stock ==> !matches(b.ip, s.ip)) ==>
              Vote(matches, rs, b) == rs + [Record(b.token, b.stock, 1)]
    ensures forall t :: t != b.stock ==> ForStock(Vote(matches, rs, b), t) == ForStock(rs, t)
  {
    AlreadyLikedExists(matches, rs, b.ip, b.stock);
    ForStockAppend(rs, Record(b.token, b.stock, 1));
  }

  /** After a vote whose token verifies the caller, the caller has liked the ticker. */
  lemma VoteLikes(matches: Verifier, rs: seq<Record>, b: Ballot)
    requires matches(b.ip, b.token)
    ensures AlreadyLiked(matches, Vote(matches, rs, b), b.ip, b.stock)
    ensures ForStock(Vote(matches, rs, b), b.stock) ==
              if AlreadyLiked(matches, rs, b.ip, b.stock) then ForStock(rs, b.stock)
              else ForStock(rs, b.stock) + [Record(b.token, b.stock, 1)]
  {
    var rec := Record(b.token, b.stock, 1);
    ForStockAppend(rs, rec);
    if !AlreadyLiked(matches, rs, b.ip, b.stock) {
      AnyMatchExists(matches, b.ip, ForStock(rs + [rec], b.stock));
      assert rec in ForStock(rs + [rec], b.stock);
    }
  }

  /** Voting again with the same address, under any new salt, changes nothing. */
  lemma VoteIdempotent(matches: Verifier, rs: seq<Record>, b: Ballot, token: Token)
    requires matches(b.ip, b.token)
    ensures Vote(matches, Vote(matches, rs, b), Ballot(b.ip, token, b.stock)) == Vote(matches, rs, b)
  {
    VoteLikes(matches, rs, b);
  }

  /** What the vote loop leaves behind: the store, the number of store calls
      that succeeded, and whether the loop was cut short by a failing one. */
  datatype VoteRun = VoteRun(records: seq<Record>, calls: nat, failed: bool)

  /**
   * The vote loop over `ts` in order, every ticker voted with the one token
   * hashed for the request. Store calls are numbered from `calls` in the order
   * they are issued (a `find` per ticker, a `create` for each new like);
   * call number `outage`, if any, fails and ends the loop.
   */
  function VotePhase(matches: Verifier, rs: seq<Record>, ip: Ip, token: Token, ts: seq<string>,
                     outage: Option<nat>, calls: nat): (run: VoteRun)
    ensures calls <= run.calls
    ensures outage == None ==> !run.failed
    ensures rs <= run.records
    decreases |ts|
  {
    if ts == [] then VoteRun(rs, calls, false)
    else if outage == Some(calls) then VoteRun(rs, calls, true)
    else if AlreadyLiked(matches, rs, ip, ts[0]) then
      VotePhase(matches, rs, ip, token, ts[1..], outage, calls + 1)
    else if outage == Some(calls + 1) then VoteRun(rs, calls + 1, true)
    else VotePhase(matches, Vote(matches, rs, Ballot(ip, token, ts[0])), ip, token, ts[1..], outage, calls + 2)
  }

  /** Whatever the vote loop appends is a single like, under the request's
      token, of one of the requested tickers. */
  lemma {:induction false} VotePhaseAppends(matches: Verifier, rs: seq<Record>, ip: Ip, token: Token, ts: seq<string>,
                                            outage: Option<nat>, calls: nat)
    ensures var after := VotePhase(matches, rs, ip, token, ts, outage, calls).records;
            forall k :: |rs| <= k < |after| ==> after[k].stock in ts && after[k] == Record(token, after[k].stock, 1)
    decreases |ts|
  {
    if ts != [] && outage != Some(calls) {
      var after := VotePhase(matches, rs, ip, token, ts, outage, calls).records;
      if AlreadyLiked(matches, rs, ip, ts[0]) {
        VotePhaseAppends(matches, rs, ip, token, ts[1..], outage, calls + 1);
        assert after == VotePhase(matches, rs, ip, token, ts[1..], outage, calls + 1).records;
        forall k | |rs| <= k < |after| ensures after[k].stock in ts && after[k] == Record(token, after[k].stock, 1) {
          assert after[k].stock in ts[1..];
        }
      } else if outage != Some(calls + 1) {
        var voted := Vote(matches, rs, Ballot(ip, token, ts[0]));
        assert voted == rs + [Record(token, ts[0], 1)];
        VotePhaseAppends(matches, voted, ip, token, ts[1..], outage, calls + 2);
        assert after == VotePhase(matches, voted, ip, token, ts[1..], outage, calls + 2).records;
        forall k | |rs| <= k < |after| ensures after[k].stock in ts && after[k] == Record(token, after[k].stock, 1) {
          if k == |rs| {
            assert after[k] == voted[k];
          } else {
            assert after[k].stock in ts[1..];
          }
        }
      }
    }
  }

  /** Without a store failure, the vote loop adds to each ticker's records at
      most the one like of this caller, and only when no record of that ticker
      verified the caller before the request; repeated tickers add nothing more. */
  lemma {:induction false} VotePhaseForStock(matches: Verifier, rs: seq<Record>, ip: Ip, token: Token,
                                             ts: seq<string>, calls: nat, t: string)
    requires matches(ip, token)
    ensures ForStock(VotePhase(matches, rs, ip, token, ts, None, calls).records, t) ==
              if t in ts && !AlreadyLiked(matches, rs, ip, t) then ForStock(rs, t) + [Record(token, t, 1)]
              else ForStock(rs, t)
    decreases |ts|
  {
    if ts != [] {
      var rest := ts[1..];
      assert t in ts <==> t == ts[0] || t in rest;
      if AlreadyLiked(matches, rs, ip, ts[0]) {
        assert VotePhase(matches, rs, ip, token, ts, None, calls) ==
               VotePhase(matches, rs, ip, token, rest, None, calls + 1);
        VotePhaseForStock(matches, rs, ip, token, rest, calls + 1, t);
      } else {
        var b := Ballot(ip, token, ts[0]);
        var rs' := Vote(matches, rs, b);
        assert VotePhase(matches, rs, ip, token, ts, None, calls) ==
               VotePhase(matches, rs', ip, token, rest, None, calls + 2);
        VotePhaseForStock(matches, rs', ip, token, rest, calls + 2, t);
        VoteLikes(matches, rs, b);
        VoteCases(matches, rs, b);
        if t != ts[0] {
          assert ForStock(rs', t) == ForStock(rs, t);
          assert AlreadyLiked(matches, rs', ip, t) == AlreadyLiked(matches, rs, ip, t);
        }
      }
    }
  }

  /** A vote loop over tickers the caller has all liked already changes nothing. */
  lemma {:induction false} VotePhaseUnchanged(matches: Verifier, rs: seq<Record>, ip: Ip, token: Token,
                                              ts: seq<string>, calls: nat)
    requires forall t :: t in ts ==> AlreadyLiked(matches, rs, ip, t)
    ensures VotePhase(matches, rs, ip, token, ts, None, calls).records == rs
    decreases |ts|
  {
    if ts != [] {
      assert ts[0] in ts;
      VotePhaseUnchanged(matches, rs, ip, token, ts[1..], calls + 1);
    }
  }

  /** Repeating a request's vote loop from the same address, under any new salt,
      leaves the store as the first one left it. */
  lemma VotePhaseIdempotent(matches: Verifier, rs: seq<Record>, ip: Ip, token: Token, token': Token,
                            ts: seq<string>)
    requires matches(ip, token)
    ensures var once := VotePhase(matches, rs, ip, token, ts, None, 0).records;
            VotePhase(matches, once, ip, token', ts, None, 0).records == once
  {
    var once := VotePhase(matches, rs, ip, token, ts, None, 0).records;
    forall t | t in ts ensures AlreadyLiked(matches, once, ip, t) {
      VotePhaseForStock(matches, rs, ip, token, ts, 0, t);
      if !AlreadyLiked(matches, rs, ip, t) {
        AnyMatchExists(matches, ip, ForStock(once, t));
        assert Record(token, t, 1) in ForStock(once, t);
      }
    }
    VotePhaseUnchanged(matches, once, ip, token', ts, 0);
  }

  /** Sum of `likes` over records. */
  function SumLikes(rs: seq<Record>): int {
    if rs == [] then 0 else rs[0].likes + SumLikes(rs[1..])
  }

  /** One group of the `$group` stage: the ticker and its summed `likes`. */
  datatype Group = Group(id: string, totalLikes: int)

  /** The aggregation `$match: {stock: t}` then `$group` by stock with `$sum: "$likes"`. */
  function Aggregate(rs: seq<Record>, t: string): (groups: seq<Group>)
    ensures |groups| <= 1
    ensures groups != [] ==> groups[0].id == t
  {
    var found := ForStock(rs, t);
    if found == [] then [] else [Group(t, SumLikes(found))]
  }

  /** The aggregation yields a group exactly when some record has the ticker. */
  lemma AggregateNonEmpty(rs: seq<Record>, t: string)
    ensures Aggregate(rs, t) != [] <==> exists r :: r in rs && r.stock == t
  {
    ForStockMembers(rs, t);
    var found := ForStock(rs, t);
    if found != [] {
      assert found[0] in found;
    }
  }

  /** `result.length > 0 ? result[0].totalLikes : 0`. */
  function TotalLikes(groups: seq<Group>): int {
    if |groups| > 0 then groups[0].totalLikes else 0
  }

  /** The like total the handler reports for a ticker. */
  function LikesOf(rs: seq<Record>, t: string): int {
    TotalLikes(Aggregate(rs, t))
  }

  /** A ticker without records has a like total of zero, and one with
      records has the sum of their likes. */
  lemma LikesOfNoRecords(rs: seq<Record>, t: string)
    ensures (forall r :: r in rs ==> r.stock != t) ==> LikesOf(rs, t) == 0
    ensures (exists r :: r in rs && r.stock == t) ==> LikesOf(rs, t) == SumLikes(ForStock(rs, t))
  {
    AggregateNonEmpty(rs, t);
  }

  /** Every stored record carries a single like. */
  ghost predicate SingleLikes(rs: seq<Record>) {
    forall r :: r in rs ==> r.likes == 1
  }

  /** Summing single likes counts the records. */
  lemma {:induction false} SumOfSingleLikes(rs: seq<Record>)
    requires SingleLikes(rs)
    ensures SumLikes(rs) == |rs|
  {
    if rs != [] {
      assert rs[0] in rs;
      SumOfSingleLikes(rs[1..]);
    }
  }

  /** A ticker's like total is zero without records and otherwise the number of
      its records, when every record carries a single like. */
  lemma LikesCountRecords(rs: seq<Record>, t: string)
    requires SingleLikes(rs)
    ensures LikesOf(rs, t) == |ForStock(rs, t)|
  {
    var found := ForStock(rs, t);
    ForStockMembers(rs, t);
    if found != [] {
      assert found[0] in found;
      SumOfSingleLikes(found);
    }
  }

  /** The vote loop only ever adds single likes. */
  lemma VotePhaseSingleLikes(matches: Verifier, rs: seq<Record>, ip: Ip, token: Token, ts: seq<string>,
                             outage: Option<nat>, calls: nat)
    requires SingleLikes(rs)
    ensures SingleLikes(VotePhase(matches, rs, ip, token, ts, outage, calls).records)
  {
    var after := VotePhase(matches, rs, ip, token, ts, outage, calls).records;
    VotePhaseAppends(matches, rs, ip, token, ts, outage, calls);
    forall k | 0 <= k < |after| ensures after[k].likes == 1 {
      if k < |rs| {
        assert after[k] == rs[k] && rs[k] in rs;
      } else {
        VotePhaseAppends(matches, rs, ip, token, ts, outage, calls);
        assert after[k] == Record(token, after[k].stock, 1);
      }
    }
  }

  /** The store after a history of single-ticker votes, earliest first. */
  function Replay(matches: Verifier, rs: seq<Record>, bs: seq<Ballot>): seq<Record> {
    if bs == [] then rs else Vote(matches, Replay(matches, rs, bs[..|bs| - 1]), bs[|bs| - 1])
  }

  /** Replaying a history is voting its first ballot, then replaying the rest. */
  lemma {:induction false} ReplayFirst(matches: Verifier, rs: seq<Record>, b: Ballot, bs: seq<Ballot>)
    ensures Replay(matches, rs, [b] + bs) == Replay(matches, Vote(matches, rs, b), bs)
  {
    if bs != [] {
      var pre := bs[..|bs| - 1];
      assert ([b] + bs)[..|bs|] == [b] + pre;
      assert ([b] + bs)[|bs|] == bs[|bs| - 1];
      ReplayFirst(matches, rs, b, pre);
    }
  }

  /** Replaying two histories one after the other is replaying their concatenation. */
  lemma {:induction false} ReplayConcat(matches: Verifier, rs: seq<Record>, bs: seq<Ballot>, cs: seq<Ballot>)
    ensures Replay(matches, Replay(matches, rs, bs), cs) == Replay(matches, rs, bs + cs)
  {
    if cs != [] {
      var pre := cs[..|cs| - 1];
      assert (bs + cs)[..|bs + cs| - 1] == bs + pre;
      assert (bs + cs)[|bs + cs| - 1] == cs[|cs| - 1];
      ReplayConcat(matches, rs, bs, pre);
    } else {
      assert bs + cs == bs;
    }
  }

  /** The ballots of one request: every ticker in order, under the request's token. */
  function Ballots(ip: Ip, token: Token, ts: seq<string>): (bs: seq<Ballot>)
    ensures |bs| == |ts|
    ensures forall k :: 0 <= k < |ts| ==> bs[k] == Ballot(ip, token, ts[k])
  {
    seq(|ts|, k requires 0 <= k < |ts| => Ballot(ip, token, ts[k]))
  }

  /** Without a store failure, a request's vote loop is the replay of its ballots. */
  lemma {:induction false} VotePhaseReplay(matches: Verifier, rs: seq<Record>, ip: Ip, token: Token,
                                           ts: seq<string>, calls: nat)
    ensures VotePhase(matches, rs, ip, token, ts, None, calls).records == Replay(matches, rs, Ballots(ip, token, ts))
    decreases |ts|
  {
    if ts != [] {
      var b, rest := Ballot(ip, token, ts[0]), Ballots(ip, token, ts[1..]);
      assert Ballots(ip, token, ts) == [b] + rest;
      ReplayFirst(matches, rs, b, rest);
      if AlreadyLiked(matches, rs, ip, ts[0]) {
        assert Vote(matches, rs, b) == rs;
        VotePhaseReplay(matches, rs, ip, token, ts[1..], calls + 1);
      } else {
        VotePhaseReplay(matches, Vote(matches, rs, b), ip, token, ts[1..], calls + 2);
      }
    }
  }

  /** The distinct addresses that voted for `t` in a history. */
  function Voters(bs: seq<Ballot>, t: string): set<Ip> {
    set b | b in bs && b.stock == t :: b.ip
  }

  /** The store after a history keeps a like for every caller of `t` and no
      record of `t` whose token was not hashed for one of them. */
  ghost predicate Accounted(matches: Verifier, store: seq<Record>, bs: seq<Ballot>, t: string) {
    && (forall ip :: ip in Voters(bs, t) ==> AlreadyLiked(matches, store, ip, t))
    && (forall r :: r in ForStock(store, t) ==> exists b :: b in bs && b.stock == t && b.token == r.ip)
  }

  /** A vote for another ticker changes neither the records of `t` nor its callers. */
  lemma VoteOtherAccounted(matches: Verifier, before: seq<Record>, pre: seq<Ballot>, b: Ballot, t: string)
    requires b.stock != t
    requires Accounted(matches, before, pre, t)
    ensures Accounted(matches, Vote(matches, before, b), pre + [b], t)
    ensures ForStock(Vote(matches, before, b), t) == ForStock(before, t)
    ensures Voters(pre + [b], t) == Voters(pre, t)
  {
    var bs := pre + [b];
    assert forall v :: v in bs <==> v in pre || v == b;
    assert Voters(bs, t) == Voters(pre, t);
    VoteCases(matches, before, b);
    forall r | r in ForStock(before, t) ensures exists v :: v in bs && v.stock == t && v.token == r.ip {
      var v :| v in pre && v.stock == t && v.token == r.ip;
      assert v in bs;
    }
  }

  /** A repeated caller of `t` finds its earlier record, by the absence of collisions. */
  lemma VoteRepeatAccounted(matches: Verifier, before: seq<Record>, pre: seq<Ballot>, b: Ballot, t: string)
    requires CollisionFree(matches)
    requires forall v :: v in pre ==> matches(v.ip, v.token)
    requires b.stock == t && AlreadyLiked(matches, before, b.ip, t)
    requires Accounted(matches, before, pre, t)
    ensures Accounted(matches, Vote(matches, before, b), pre + [b], t)
    ensures Vote(matches, before, b) == before
    ensures Voters(pre + [b], t) == Voters(pre, t)
  {
    var bs := pre + [b];
    assert forall v :: v in bs <==> v in pre || v == b;
    AnyMatchExists(matches, b.ip, ForStock(before, t));
    var r :| r in ForStock(before, t) && matches(b.ip, r.ip);
    var b' :| b' in pre && b'.stock == t && b'.token == r.ip;
    assert matches(b'.ip, b'.token);
    assert b'.ip == b.ip;
    assert b.ip in Voters(pre, t);
    assert Voters(bs, t) == Voters(pre, t);
    forall r | r in ForStock(before, t) ensures exists v :: v in bs && v.stock == t && v.token == r.ip {
      var v :| v in pre && v.stock == t && v.token == r.ip;
      assert v in bs;
    }
  }

  /** A new caller of `t` gets a record of `t` verifying it, and is new among the callers. */
  lemma VoteNewAccounted(matches: Verifier, before: seq<Record>, pre: seq<Ballot>, b: Ballot, t: string)
    requires matches(b.ip, b.token)
    requires b.stock == t && !AlreadyLiked(matches, before, b.ip, t)
    requires Accounted(matches, before, pre, t)
    ensures Accounted(matches, Vote(matches, before, b), pre + [b], t)
    ensures ForStock(Vote(matches, before, b), t) == ForStock(before, t) + [Record(b.token, t, 1)]
    ensures Voters(pre + [b], t) == Voters(pre, t) + {b.ip} && b.ip !in Voters(pre, t)
  {
    var bs := pre + [b];
    var store := Vote(matches, before, b);
    var rec := Record(b.token, t, 1);
    assert forall v :: v in bs <==> v in pre || v == b;
    assert Voters(bs, t) == Voters(pre, t) + {b.ip};
    VoteLikes(matches, before, b);
    assert ForStock(store, t) == ForStock(before, t) + [rec];
    forall ip | ip in Voters(bs, t) ensures AlreadyLiked(matches, store, ip, t) {
      if ip != b.ip {
        assert AlreadyLiked(matches, before, ip, t);
        AnyMatchExists(matches, ip, ForStock(before, t));
        var r :| r in ForStock(before, t) && matches(ip, r.ip);
        assert r in ForStock(store, t);
        AnyMatchExists(matches, ip, ForStock(store, t));
      }
    }
    forall r | r in ForStock(store, t) ensures exists v :: v in bs && v.stock == t && v.token == r.ip {
      if r == rec {
        assert b in bs;
      } else {
        assert r in ForStock(before, t);
        var v :| v in pre && v.stock == t && v.token == r.ip;
        assert v in bs;
      }
    }
  }

  /** A history of votes only ever adds single likes. */
  lemma {:induction false} ReplaySingleLikes(matches: Verifier, rs: seq<Record>, bs: seq<Ballot>)
    requires SingleLikes(rs)
    ensures SingleLikes(Replay(matches, rs, bs))
  {
    if bs != [] {
      var before := Replay(matches, rs, bs[..|bs| - 1]);
      ReplaySingleLikes(matches, rs, bs[..|bs| - 1]);
      var rec := Record(bs[|bs| - 1].token, bs[|bs| - 1].stock, 1);
      forall r | r in Vote(matches, before, bs[|bs| - 1]) ensures r.likes == 1 {
        assert r in before || r == rec;
      }
    }
  }

  /**
   * Starting from an empty store, every vote's token verifying its own caller
   * and no token verifying two callers, a ticker's like total is the number of
   * distinct callers who voted for it: a repeated vote is never counted twice,
   * and two different callers count twice.
   */
  lemma {:induction false} LikesCountDistinctVoters(matches: Verifier, bs: seq<Ballot>, t: string)
    requires CollisionFree(matches)
    requires forall b :: b in bs ==> matches(b.ip, b.token)
    ensures Accounted(matches, Replay(matches, [], bs), bs, t)
    ensures |ForStock(Replay(matches, [], bs), t)| == |Voters(bs, t)|
  {
    if bs != [] {
      var pre, b := bs[..|bs| - 1], bs[|bs| - 1];
      assert bs == pre + [b];
      forall v | v in pre ensures matches(v.ip, v.token) {
        assert v in bs;
      }
      LikesCountDistinctVoters(matches, pre, t);
      var before := Replay(matches, [], pre);
      if b.stock != t {
        VoteOtherAccounted(matches, before, pre, b, t);
      } else if AlreadyLiked(matches, before, b.ip, t) {
        VoteRepeatAccounted(matches, before, pre, b, t);
      } else {
        assert b in bs;
        VoteNewAccounted(matches, before, pre, b, t);
      }
    }
  }

  /** The like total reported after such a history is the number of distinct callers. */
  lemma LikesOfDistinctVoters(matches: Verifier, bs: seq<Ballot>, t: string)
    requires CollisionFree(matches)
    requires forall b :: b in bs ==> matches(b.ip, b.token)
    ensures LikesOf(Replay(matches, [], bs), t) == |Voters(bs, t)|
  {
    LikesCountDistinctVoters(matches, bs, t);
    ReplaySingleLikes(matches, [], bs);
    LikesCountRecords(Replay(matches, [], bs), t);
  }

  /**
   * A sequence of requests from an empty store, every token verifying its own
   * caller and none two callers: after one more request's vote loop without a
   * store failure, a ticker's like total is the number of distinct callers
   * who liked it over all the requests.
   */
  lemma VotePhaseDistinctVoters(matches: Verifier, bs: seq<Ballot>, ip: Ip, token: Token, ts: seq<string>, t: string)
    requires CollisionFree(matches)
    requires forall b :: b in bs ==> matches(b.ip, b.token)
    requires matches(ip, token)
    ensures LikesOf(VotePhase(matches, Replay(matches, [], bs), ip, token, ts, None, 0).records, t) ==
              |Voters(bs + Ballots(ip, token, ts), t)|
  {
    var all := bs + Ballots(ip, token, ts);
    VotePhaseReplay(matches, Replay(matches, [], bs), ip, token, ts, 0);
    ReplayConcat(matches, [], bs, Ballots(ip, token, ts));
    forall b | b in all ensures matches(b.ip, b.token) {
      if b !in bs {
        var k :| 0 <= k < |all| && all[k] == b;
        assert Ballots(ip, token, ts)[k - |bs|] == b;
      }
    }
    LikesOfDistinctVoters(matches, all, t);
  }
}
