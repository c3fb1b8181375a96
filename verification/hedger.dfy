/** The passive hedger: one reconciliation cycle of `loop()` that keeps at most
    one resting post-only order per market on the hedging venue, sized to
    flatten the combined position of both venues. */
module FtxHedger {
  import opened Orders
  import opened OrderBook

  /** The markets the loop visits, in its order. */
  datatype Coin = ETH | BTC | SOL

  const Markets: seq<Coin> := [ETH, BTC, SOL]

  /** Seconds during which a just-placed order suppresses another placement. */
  const DebounceSeconds: real := 5.0

  function Symbol(c: Coin): string
  {
    match c
    case ETH => "ETH"
    case BTC => "BTC"
    case SOL => "SOL"
  }

  function MarketName(c: Coin): string
  {
    Symbol(c) + "/USD"
  }

  /** The per-asset `minChange` table. */
  function MinChange(c: Coin): real
  {
    match c
    case SOL => 5.0
    case ETH => 0.3
    case BTC => 0.02
  }

  /** An open order as the venue lists it. */
  datatype OpenOrder = OpenOrder(id: int, side: Side, price: real)

  /** An entry of the process-wide `localOrders` list: a placement and its
      timestamp in seconds. */
  datatype LocalOrder = LocalOrder(market: string, side: Side, epoch: real)

  datatype OrderRequest = OrderRequest(market: string, side: Side, price: real, size: real,
                                       kind: OrderKind, postOnly: bool)

  /** The venue calls a cycle issues, in order. */
  datatype Action =
    | CancelAll(market: string)
    | Cancel(id: int)
    | Modify(id: int, price: real, size: real)
    | Place(request: OrderRequest)

  /** What a cycle did: the calls issued, the new `localOrders`, and whether
      it ended in an exception (caught, logged, and retried next cycle). */
  datatype Cycle = Cycle(actions: seq<Action>, local: seq<LocalOrder>, failed: bool)

  /** Everything one market's iteration reads: both venues' positions, the
      order book, the open orders and the clock (seconds). */
  datatype MarketView = MarketView(mangoPosition: real, ftxBalance: real,
                                   bids: seq<Level>, asks: seq<Level>,
                                   openOrders: seq<OpenOrder>, now: real)

  /** A market's inputs, or the exception one of its queries raised. */
  datatype Fetch = Fetched(view: MarketView) | FetchFailed

  /** A short delta is flattened by buying, a long one by selling. */
  function SideFor(delta: real): Side
  {
    if delta < 0.0 then Buy else Sell
  }

  /** An entry that still debounces placements for `market` and `side` at `now`. */
  predicate Fresh(o: LocalOrder, market: string, side: Side, now: real)
  {
    o.market == market && o.side == side && o.epoch + DebounceSeconds > now
  }

  /** The `localOrders.filter(...)`: keeps the fresh entries for this market
      and side, in order, and drops every other one. */
  function KeepFresh(local: seq<LocalOrder>, market: string, side: Side, now: real): (r: seq<LocalOrder>)
    ensures forall o :: o in r <==> o in local && Fresh(o, market, side, now)
    ensures |r| <= |local|
  {
    if |local| == 0 then []
    else
      (if Fresh(local[0], market, side, now) then [local[0]] else [])
      + KeepFresh(local[1..], market, side, now)
  }

  /** The body of `loop()` for one market, once `delta` is known. The order
      book side is searched with the SIGNED delta, as written. */
  function Reconcile(market: string, delta: real, minChange: real,
                     bids: seq<Level>, asks: seq<Level>, open: seq<OpenOrder>,
                     local: seq<LocalOrder>, now: real): (c: Cycle)
    // strict `>`: a delta inside the band does nothing at all
    ensures Abs(delta) <= minChange ==> c == Cycle([], local, false)
    // the only exception is `orderbook[0][0]` on an empty book side
    ensures c.failed <==> Abs(delta) > minChange && |if delta < 0.0 then bids else asks| == 0
    ensures c.failed ==> c.actions == [] && c.local == local
    ensures c.actions != [] ==> Abs(delta) > minChange
    ensures |c.actions| <= 2
    // every modify and placement flattens the delta at a price of the book
    ensures forall a :: a in c.actions && a.Modify? ==>
              a.size == Abs(delta) && IsBookPrice(if delta < 0.0 then bids else asks, a.price)
    ensures forall a :: a in c.actions && a.Place? ==>
              a.request == OrderRequest(market, SideFor(delta), a.request.price, Abs(delta), Limit, true)
              && IsBookPrice(if delta < 0.0 then bids else asks, a.request.price)
    // a placement happens only when no order rests (or all were just cancelled)
    ensures (exists a :: a in c.actions && a.Place?) ==> |open| != 1
    // `localOrders` is untouched, or holds only this market's and side's entries
    ensures c.local == local || forall o :: o in c.local ==> o.market == market && o.side == SideFor(delta)
  {
    if Abs(delta) <= minChange then Cycle([], local, false)
    else
      var side := SideFor(delta);
      var price := FindPrice(if delta < 0.0 then bids else asks, delta);
      if price.None? then Cycle([], local, true)
      else
        var cancelled := if |open| > 1 then [CancelAll(market)] else [];
        var orders := if |open| > 1 then [] else open;
        if |orders| == 1 then
          if orders[0].price != price.value then
            if orders[0].side != side then Cycle(cancelled + [Cancel(orders[0].id)], local, false)
            else Cycle(cancelled + [Modify(orders[0].id, price.value, Abs(delta))], local, false)
          else Cycle(cancelled, local, false)
        else
          var kept := KeepFresh(local, market, side, now);
          if |kept| > 0 then Cycle(cancelled, kept, false)
          else
            var request := OrderRequest(market, side, price.value, Abs(delta), Limit, true);
            Cycle(cancelled + [Place(request)], kept + [LocalOrder(market, side, now)], false)
  }

  /** `p` is the price of some level of `book`. */
  predicate IsBookPrice(book: seq<Level>, p: real)
  {
    exists k :: 0 <= k < |book| && book[k].price == p
  }

  /** One market's iteration: `delta` is the sum of both venues' positions,
      compared against that market's `minChange`. */
  function StepMarket(coin: Coin, v: MarketView, local: seq<LocalOrder>): (c: Cycle)
    ensures Abs(v.mangoPosition + v.ftxBalance) <= MinChange(coin) ==> c == Cycle([], local, false)
    ensures c.actions != [] ==> Abs(v.mangoPosition + v.ftxBalance) > MinChange(coin)
    ensures forall a :: a in c.actions && a.Place? ==>
              && a.request.market == MarketName(coin)
              && a.request.side == SideFor(v.mangoPosition + v.ftxBalance)
              && a.request.size == Abs(v.mangoPosition + v.ftxBalance)
    ensures forall a :: a in c.actions && a.CancelAll? ==> a.market == MarketName(coin)
    ensures c.local == local || forall o :: o in c.local ==> o.market == MarketName(coin)
  {
    Reconcile(MarketName(coin), v.mangoPosition + v.ftxBalance, MinChange(coin),
              v.bids, v.asks, v.openOrders, local, v.now)
  }

  /** A market whose delta stays within its `minChange`. */
  predicate Quiet(coin: Coin, f: Fetch)
  {
    f.Fetched? && Abs(f.view.mangoPosition + f.view.ftxBalance) <= MinChange(coin)
  }

  /** The markets `coins` in turn, each read through `fetch`, threading
      `localOrders`; the first exception ends the cycle, keeping the calls
      already issued and the list as it then stands. */
  function RunCycle(coins: seq<Coin>, fetch: Coin -> Fetch, local: seq<LocalOrder>): (c: Cycle)
    ensures |c.actions| <= 2 * |coins|
    ensures (forall i :: 0 <= i < |coins| ==> Quiet(coins[i], fetch(coins[i]))) ==> c == Cycle([], local, false)
    ensures (exists i :: 0 <= i < |coins| && fetch(coins[i]).FetchFailed?) ==> c.failed
    decreases |coins|
  {
    if |coins| == 0 then Cycle([], local, false)
    else match fetch(coins[0])
      case FetchFailed => Cycle([], local, true)
      case Fetched(v) =>
        var s := StepMarket(coins[0], v, local);
        if s.failed then s
        else
          var rest := RunCycle(coins[1..], fetch, s.local);
          Cycle(s.actions + rest.actions, rest.local, rest.failed)
  }

  /** One call of `loop()`: ETH, then BTC, then SOL. */
  function Loop(fetch: Coin -> Fetch, local: seq<LocalOrder>): (c: Cycle)
    ensures |c.actions| <= 6
    ensures Quiet(ETH, fetch(ETH)) && Quiet(BTC, fetch(BTC)) && Quiet(SOL, fetch(SOL)) ==>
              c == Cycle([], local, false)
    ensures fetch(ETH).FetchFailed? ==> c == Cycle([], local, true)
    ensures fetch(BTC).FetchFailed? || fetch(SOL).FetchFailed? ==> c.failed
  {
    assert Markets[0] == ETH && Markets[1] == BTC && Markets[2] == SOL;
    RunCycle(Markets, fetch, local)
  }

  /** With more than one open order the step cancels them all and then acts
      exactly as it would with none open. */
  lemma CancelAllThenAsIfNoOrders(market: string, delta: real, minChange: real,
                                  bids: seq<Level>, asks: seq<Level>, open: seq<OpenOrder>,
                                  local: seq<LocalOrder>, now: real)
    requires |open| > 1
    requires Abs(delta) > minChange && |if delta < 0.0 then bids else asks| > 0
    ensures var none := Reconcile(market, delta, minChange, bids, asks, [], local, now);
            Reconcile(market, delta, minChange, bids, asks, open, local, now)
              == Cycle([CancelAll(market)] + none.actions, none.local, none.failed)
  {
  }

  /** With exactly one open order: nothing when it already sits at the target
      price; otherwise a lone cancel when it is on the wrong side (no placement
      this cycle), or a modify to the target price and `|delta|`. */
  lemma SingleOpenOrder(market: string, delta: real, minChange: real,
                        bids: seq<Level>, asks: seq<Level>, o: OpenOrder,
                        local: seq<LocalOrder>, now: real)
    requires Abs(delta) > minChange && |if delta < 0.0 then bids else asks| > 0
    ensures var target := FindPrice(if delta < 0.0 then bids else asks, delta).value;
            var c := Reconcile(market, delta, minChange, bids, asks, [o], local, now);
            && c.local == local && !c.failed
            && (o.price == target ==> c.actions == [])
            && (o.price != target && o.side != SideFor(delta) ==> c.actions == [Cancel(o.id)])
            && (o.price != target && o.side == SideFor(delta) ==> c.actions == [Modify(o.id, target, Abs(delta))])
  {
  }

  /** With no open order, a fresh local entry for this market and side
      suppresses the placement; without one, a post-only limit order is placed
      and recorded at `now`. */
  lemma DebounceWithNoOpenOrder(market: string, delta: real, minChange: real,
                                bids: seq<Level>, asks: seq<Level>,
                                local: seq<LocalOrder>, now: real)
    requires Abs(delta) > minChange && |if delta < 0.0 then bids else asks| > 0
    ensures var c := Reconcile(market, delta, minChange, bids, asks, [], local, now);
            var price := FindPrice(if delta < 0.0 then bids else asks, delta).value;
            var kept := KeepFresh(local, market, SideFor(delta), now);
            && ((exists o :: o in local && Fresh(o, market, SideFor(delta), now)) ==>
                  c == Cycle([], kept, false))
            && ((forall o :: o in local ==> !Fresh(o, market, SideFor(delta), now)) ==>
                  c == Cycle([Place(OrderRequest(market, SideFor(delta), price, Abs(delta), Limit, true))],
                             [LocalOrder(market, SideFor(delta), now)], false))
  {
    if exists o :: o in local && Fresh(o, market, SideFor(delta), now) {
      var o :| o in local && Fresh(o, market, SideFor(delta), now);
      assert o in KeepFresh(local, market, SideFor(delta), now);
    }
  }

  /** The five-second window: after a placement at time `t`, the next step
      for the same market and side with no open order, given the list the
      first step returned, places again exactly when `dt >= 5` seconds have
      passed (at t + 3 it is suppressed). */
  lemma DebounceWindow(market: string, delta: real, delta': real, minChange: real,
                       bids: seq<Level>, asks: seq<Level>, bids': seq<Level>, asks': seq<Level>,
                       local: seq<LocalOrder>, t: real, dt: real)
    requires Abs(delta) > minChange && |if delta < 0.0 then bids else asks| > 0
    requires Abs(delta') > minChange && |if delta' < 0.0 then bids' else asks'| > 0
    requires SideFor(delta') == SideFor(delta)
    requires exists a :: a in Reconcile(market, delta, minChange, bids, asks, [], local, t).actions && a.Place?
    ensures var first := Reconcile(market, delta, minChange, bids, asks, [], local, t);
            var later := Reconcile(market, delta', minChange, bids', asks', [], first.local, t + dt);
            (exists a :: a in later.actions && a.Place?) <==> dt >= DebounceSeconds
  {
    var first := Reconcile(market, delta, minChange, bids, asks, [], local, t);
    DebounceWithNoOpenOrder(market, delta, minChange, bids, asks, local, t);
    if exists o :: o in local && Fresh(o, market, SideFor(delta), t) {
      assert false;
    }
    assert first.local == [LocalOrder(market, SideFor(delta), t)];
    DebounceWithNoOpenOrder(market, delta', minChange, bids', asks', first.local, t + dt);
    var later := Reconcile(market, delta', minChange, bids', asks', [], first.local, t + dt);
    if dt >= DebounceSeconds {
      assert forall o :: o in first.local ==> !Fresh(o, market, SideFor(delta'), t + dt);
      assert later.actions[0].Place?;
    } else {
      assert first.local[0] in first.local && Fresh(first.local[0], market, SideFor(delta'), t + dt);
    }
  }

  /** The filter overwrites the whole list: once a market's step reaches it,
      entries of any other market or side are gone, fresh or not. */
  lemma DebounceDropsOtherEntries(market: string, delta: real, minChange: real,
                                  bids: seq<Level>, asks: seq<Level>, open: seq<OpenOrder>,
                                  local: seq<LocalOrder>, now: real, o: LocalOrder)
    requires Abs(delta) > minChange && |if delta < 0.0 then bids else asks| > 0
    requires |open| != 1
    requires o in local && (o.market != market || o.side != SideFor(delta))
    ensures o !in Reconcile(market, delta, minChange, bids, asks, open, local, now).local
  {
  }

  /** The buy side gets the top bid whatever the depth: `findPrice` is handed
      the negative delta, and a third of it is below any non-negative size. */
  lemma BuySideTakesTopBid(market: string, delta: real, minChange: real,
                           bids: seq<Level>, asks: seq<Level>, local: seq<LocalOrder>, now: real)
    requires delta < 0.0 && Abs(delta) > minChange
    requires |bids| > 0 && bids[0].size >= 0.0
    requires forall o :: o in local ==> !Fresh(o, market, Buy, now)
    ensures Reconcile(market, delta, minChange, bids, asks, [], local, now).actions
              == [Place(OrderRequest(market, Buy, bids[0].price, -delta, Limit, true))]
  {
    FindPriceNonPositiveSize(bids, delta);
    DebounceWithNoOpenOrder(market, delta, minChange, bids, asks, local, now);
  }

  /** A short position of 1.2 with `minChange` 0.5 and bids [[20, 0.9], [19.8, 1.0]]
      places a buy of 1.2 at 20. */
  lemma ShortDeltaScenario()
    ensures Reconcile("SOL/USD", -1.2, 0.5, [Level(20.0, 0.9), Level(19.8, 1.0)], [], [], [], 100.0)
              == Cycle([Place(OrderRequest("SOL/USD", Buy, 20.0, 1.2, Limit, true))],
                       [LocalOrder("SOL/USD", Buy, 100.0)], false)
  {
    BuySideTakesTopBid("SOL/USD", -1.2, 0.5, [Level(20.0, 0.9), Level(19.8, 1.0)], [], [], 100.0);
  }

  /** An exception ends the cycle: markets after the failing one are not visited. */
  lemma {:induction false} FailureEndsCycle(before: seq<Coin>, failing: Coin, after: seq<Coin>,
                                            fetch: Coin -> Fetch, local: seq<LocalOrder>)
    requires fetch(failing).FetchFailed?
    ensures RunCycle(before + [failing] + after, fetch, local) == RunCycle(before + [failing], fetch, local)
    decreases |before|
  {
    if |before| == 0 {
      assert (before + [failing] + after)[0] == failing;
      assert (before + [failing])[0] == failing;
    } else {
      var vs := before + [failing] + after;
      var ws := before + [failing];
      assert vs[0] == before[0] && ws[0] == before[0];
      assert vs[1..] == before[1..] + [failing] + after;
      assert ws[1..] == before[1..] + [failing];
      match fetch(before[0])
      case FetchFailed =>
      case Fetched(v) =>
        var s := StepMarket(before[0], v, local);
        if !s.failed {
          FailureEndsCycle(before[1..], failing, after, fetch, s.local);
        }
    }
  }
  /** The market view of a fetched coin's step reaches the debounce filter:
      it acts, its book side is not empty, and one order does not rest. */
  predicate ReachesFilter(coin: Coin, f: Fetch)
  {
    && f.Fetched?
    && Abs(f.view.mangoPosition + f.view.ftxBalance) > MinChange(coin)
    && |if f.view.mangoPosition + f.view.ftxBalance < 0.0 then f.view.bids else f.view.asks| > 0
    && |f.view.openOrders| != 1
  }

  lemma ConcatAssoc(x: seq<Action>, y: seq<Action>, z: seq<Action>)
    ensures x + (y + z) == x + y + z
  {
  }

  /** One step of `RunCycle` on a fetched market. */
  lemma RunCycleStep(c: Coin, rest: seq<Coin>, fetch: Coin -> Fetch, local: seq<LocalOrder>)
    requires fetch(c).Fetched?
    ensures var s := StepMarket(c, fetch(c).view, local);
            var r := RunCycle(rest, fetch, s.local);
            RunCycle([c] + rest, fetch, local)
              == if s.failed then s else Cycle(s.actions + r.actions, r.local, r.failed)
  {
    assert ([c] + rest)[0] == c && ([c] + rest)[1..] == rest;
  }

  /** `loop()` visits ETH, then BTC, then SOL, each step starting from the
      `localOrders` the previous one left; a failing step ends the cycle. */
  lemma LoopThreadsInOrder(fetch: Coin -> Fetch, local: seq<LocalOrder>)
    requires fetch(ETH).Fetched? && fetch(BTC).Fetched? && fetch(SOL).Fetched?
    ensures var e := StepMarket(ETH, fetch(ETH).view, local);
            var b := StepMarket(BTC, fetch(BTC).view, e.local);
            var s := StepMarket(SOL, fetch(SOL).view, b.local);
            Loop(fetch, local)
              == if e.failed then e
                 else if b.failed then Cycle(e.actions, b.local, true)
                 else Cycle(e.actions + b.actions + s.actions, s.local, s.failed)
  {
    var e := StepMarket(ETH, fetch(ETH).view, local);
    var b := StepMarket(BTC, fetch(BTC).view, e.local);
    var s := StepMarket(SOL, fetch(SOL).view, b.local);
    assert Markets == [ETH] + [BTC, SOL];
    assert [BTC, SOL] == [BTC] + [SOL];
    assert [SOL] == [SOL] + [];
    RunCycleStep(ETH, [BTC, SOL], fetch, local);
    if !e.failed {
      RunCycleStep(BTC, [SOL], fetch, e.local);
      if !b.failed {
        RunCycleStep(SOL, [], fetch, b.local);
        assert RunCycle([SOL], fetch, b.local) == Cycle(s.actions, s.local, s.failed);
        assert RunCycle([BTC, SOL], fetch, e.local) == Cycle(b.actions + s.actions, s.local, s.failed);
        ConcatAssoc(e.actions, b.actions, s.actions);
      } else {
        assert b.actions == [] && b.local == e.local;
        assert e.actions + b.actions == e.actions;
      }
    }
  }

  /** The overwrite across markets: when BTC's step reaches the filter, no
      ETH entry survives the cycle, so a placement ETH just made no longer
      debounces the next cycle's ETH step. */
  lemma LaterFilterDropsEarlierEntries(fetch: Coin -> Fetch, local: seq<LocalOrder>)
    requires fetch(ETH).Fetched? && fetch(SOL).Fetched?
    requires !StepMarket(ETH, fetch(ETH).view, local).failed
    requires ReachesFilter(BTC, fetch(BTC))
    ensures forall o :: o in Loop(fetch, local).local ==> o.market != MarketName(ETH)
  {
    LoopThreadsInOrder(fetch, local);
    var e := StepMarket(ETH, fetch(ETH).view, local);
    var v := fetch(BTC).view;
    var delta := v.mangoPosition + v.ftxBalance;
    var b := StepMarket(BTC, v, e.local);
    assert MarketName(ETH) != MarketName(BTC) by {
      assert MarketName(ETH)[0] == 'E' && MarketName(BTC)[0] == 'B';
    }
    assert MarketName(SOL) != MarketName(ETH) by {
      assert MarketName(ETH)[0] == 'E' && MarketName(SOL)[0] == 'S';
    }
    forall o | o in e.local && o.market == MarketName(ETH)
      ensures o !in b.local
    {
      DebounceDropsOtherEntries(MarketName(BTC), delta, MinChange(BTC), v.bids, v.asks,
                                v.openOrders, e.local, v.now, o);
    }
  }

  /** The last market whose step reaches the filter owns the list: when SOL's
      does, every entry left after the cycle is a SOL entry. */
  lemma LastFilterOwnsList(fetch: Coin -> Fetch, local: seq<LocalOrder>)
    requires fetch(ETH).Fetched? && fetch(BTC).Fetched?
    requires !StepMarket(ETH, fetch(ETH).view, local).failed
    requires !StepMarket(BTC, fetch(BTC).view, StepMarket(ETH, fetch(ETH).view, local).local).failed
    requires ReachesFilter(SOL, fetch(SOL))
    ensures forall o :: o in Loop(fetch, local).local ==> o.market == MarketName(SOL)
  {
    LoopThreadsInOrder(fetch, local);
    var e := StepMarket(ETH, fetch(ETH).view, local);
    var b := StepMarket(BTC, fetch(BTC).view, e.local);
    var v := fetch(SOL).view;
    var delta := v.mangoPosition + v.ftxBalance;
    forall o | o in b.local && o.market != MarketName(SOL)
      ensures o !in Loop(fetch, local).local
    {
      DebounceDropsOtherEntries(MarketName(SOL), delta, MinChange(SOL), v.bids, v.asks,
                                v.openOrders, b.local, v.now, o);
    }
  }
}
