/** What the advanced market maker's quoting does with any open orders: where it quotes, and that it does. */
module AdvancedQuotes {
  import opened Types
  import opened Rounding
  import opened AlgoClientModule
  import opened MMAdvancedModule

  /** The half spread, and both targets, which are the rounded reservation price less or plus the half spread. */
  lemma TargetsAre(s: Signals, inventory: int, p: int)
    ensures var size := if inventory < 0 then -inventory else inventory;
            var imbalance := if s.obi < 0.0 then -s.obi else s.obi;
            var pressure := if s.toxicity < 0.0 then -s.toxicity else s.toxicity;
            var center := s.microPrice - 0.5 * inventory as real;
            var half := 2.0 + 1.5 * imbalance + 3.0 * pressure + 0.1 * size as real;
            && HalfSpread(s, inventory) == half
            && (TargetBid(s, inventory) == p <==> IsNearest(center - half, p))
            && (TargetAsk(s, inventory) == p <==> IsNearest(center + half, p))
  {
    var r, h := ReservationPrice(s, inventory), HalfSpread(s, inventory);
    RoundIsTheNearest(r - h, p);
    RoundIsTheNearest(r + h, p);
  }

  /** The flow is not too toxic for a side. */
  predicate Wants(s: Signals, side: Side) {
    (side == Buy && s.toxicity > -0.8) || (side == Sell && s.toxicity < 0.8)
  }

  /** An open order of the symbol's side within 1 of a price. */
  predicate IsNear(o: OrderResponse, symbolId: nat, side: Side, p: int) {
    o.symbolId == symbolId && o.side == side && -1 <= o.p - p <= 1
  }

  /** An open order of the symbol that may not stay: its side is not quoted, or it is too far from its target. */
  predicate IsToPull(s: Signals, inventory: int, symbolId: nat, o: OrderResponse) {
    && o.symbolId == symbolId && o.side != NoSide
    && !(Wants(s, o.side)
         && -1 <= o.p - (if o.side == Buy then TargetBid(s, inventory) else TargetAsk(s, inventory)) <= 1)
  }

  /** The cancels cancel exactly the orders that may not stay, each once and in the order they are open. */
  lemma {:induction false} CancelsExactlyPulled(
      s: Signals, inventory: int, symbolId: nat, open: seq<OrderResponse>)
      returns (at: seq<nat>)
    ensures CancelsAt(open, at, Cancels(s, inventory, symbolId, open))
    ensures forall i: nat :: i in at <==> i < |open| && IsToPull(s, inventory, symbolId, open[i])
  {
    at := [];
    if open != [] {
      hide CancelsAt, TargetBid, TargetAsk;
      var n := |open| - 1;
      var before := CancelsExactlyPulled(s, inventory, symbolId, open[..n]);
      at := CancelsAtNext(open, before, Cancels(s, inventory, symbolId, open[..n]),
                          CancelIfPulled(s, inventory, symbolId, open[n]));
      assert forall i: nat :: i in at <==> i in before || (i == n && IsToPull(s, inventory, symbolId, open[n]));
      assert forall i: nat :: i < n ==> open[..n][i] == open[i];
    }
  }

  ghost predicate SomeNear(open: seq<OrderResponse>, symbolId: nat, side: Side, p: int) {
    exists i :: 0 <= i < |open| && IsNear(open[i], symbolId, side, p)
  }

  /** New orders for a side: none, or one fully visible limit order of 20 at the side's target. */
  predicate AreNewQuotes(rs: seq<OrderRequest>, count: nat, symbolId: nat, side: Side, p: int) {
    && |rs| == count
    && forall k :: 0 <= k < |rs| ==>
         && rs[k].action == NewOrder && rs[k].symbolId == symbolId && rs[k].side == side
         && rs[k].orderType == Limit && rs[k].p == p && rs[k].q == 20 && rs[k].visibleQty == 20
  }

  lemma NewQuoteIff(s: Signals, inventory: int, symbolId: nat, open: seq<OrderResponse>, side: Side)
    requires side != NoSide
    ensures var target := if side == Buy then TargetBid(s, inventory) else TargetAsk(s, inventory);
            var needed := Wants(s, side) && !SomeNear(open, symbolId, side, target);
            AreNewQuotes(NewQuote(s, inventory, symbolId, open, side), if needed then 1 else 0, symbolId, side, target)
  {
    hide TargetBid, TargetAsk;
    var target := if side == Buy then TargetBid(s, inventory) else TargetAsk(s, inventory);
    if Wants(s, side) && SomeNear(open, symbolId, side, target) {
      var i :| 0 <= i < |open| && IsNear(open[i], symbolId, side, target);
      assert Holds(s, inventory, symbolId, open[i]);
    }
  }

  /**
   The requests of one tick, whatever is open: first one cancel for each order that may not stay, in their order,
   then exactly one new bid if the side is quoted and no open bid is near its target, then the same for the ask.
   */
  lemma QuoteRequestsAre(s: Signals, inventory: int, symbolId: nat, open: seq<OrderResponse>)
      returns (cancels: seq<OrderRequest>, at: seq<nat>, bids: seq<OrderRequest>, asks: seq<OrderRequest>)
    ensures QuoteRequests(s, inventory, symbolId, open) == cancels + bids + asks
    ensures CancelsAt(open, at, cancels)
    ensures forall i: nat :: i in at <==> i < |open| && IsToPull(s, inventory, symbolId, open[i])
    ensures var needed := s.toxicity > -0.8 && !SomeNear(open, symbolId, Buy, TargetBid(s, inventory));
            AreNewQuotes(bids, if needed then 1 else 0, symbolId, Buy, TargetBid(s, inventory))
    ensures var needed := s.toxicity < 0.8 && !SomeNear(open, symbolId, Sell, TargetAsk(s, inventory));
            AreNewQuotes(asks, if needed then 1 else 0, symbolId, Sell, TargetAsk(s, inventory))
  {
    hide TargetBid, TargetAsk, Cancels, NewQuote, CancelsAt, SomeNear, AreNewQuotes, IsToPull;
    cancels := Cancels(s, inventory, symbolId, open);
    at := CancelsExactlyPulled(s, inventory, symbolId, open);
    bids, asks := NewQuote(s, inventory, symbolId, open, Buy), NewQuote(s, inventory, symbolId, open, Sell);
    NewQuoteIff(s, inventory, symbolId, open, Buy);
    NewQuoteIff(s, inventory, symbolId, open, Sell);
  }

  ghost predicate DistinctIds(open: seq<OrderResponse>) {
    forall i, j :: 0 <= i < j < |open| ==> open[i].orderId != open[j].orderId
  }

  /** With distinct ids, an order that may stay is named by no cancel. */
  lemma KeptStaysQuoted(s: Signals, inventory: int, symbolId: nat, open: seq<OrderResponse>, i: nat)
    requires DistinctIds(open) && i < |open| && open[i].symbolId == symbolId && open[i].side != NoSide
    requires !IsToPull(s, inventory, symbolId, open[i])
    ensures Quoted(QuoteRequests(s, inventory, symbolId, open), symbolId, open, open[i].side, open[i].p)
  {
    hide TargetBid, TargetAsk, IsToPull, QuoteRequests, SomeNear;
    var rs := QuoteRequests(s, inventory, symbolId, open);
    var cancels, at, bids, asks := QuoteRequestsAre(s, inventory, symbolId, open);
    forall k | 0 <= k < |rs| && rs[k].action == CancelOrder
      ensures rs[k].orderId != open[i].orderId
    {
      if k < |cancels| {
        assert IsCancelOf(open[at[k]], rs[k]);
        assert at[k] in at;
      }
    }
  }

  lemma NewOneIsQuoted(s: Signals, inventory: int, symbolId: nat, open: seq<OrderResponse>, side: Side)
    requires side != NoSide && Wants(s, side)
    requires var target := if side == Buy then TargetBid(s, inventory) else TargetAsk(s, inventory);
             !SomeNear(open, symbolId, side, target)
    ensures var target := if side == Buy then TargetBid(s, inventory) else TargetAsk(s, inventory);
            Quoted(QuoteRequests(s, inventory, symbolId, open), symbolId, open, side, target)
  {
    hide TargetBid, TargetAsk, QuoteRequests, SomeNear, CancelsAt;
    var rs := QuoteRequests(s, inventory, symbolId, open);
    var cancels, at, bids, asks := QuoteRequestsAre(s, inventory, symbolId, open);
    var k := if side == Buy then |cancels| else |cancels| + |bids|;
    assert rs[k] == if side == Buy then bids[0] else asks[0];
  }

  lemma PulledIsNamed(s: Signals, inventory: int, symbolId: nat, open: seq<OrderResponse>, i: nat)
    requires i < |open| && IsToPull(s, inventory, symbolId, open[i])
    ensures var rs := QuoteRequests(s, inventory, symbolId, open);
            exists k :: 0 <= k < |rs| && rs[k].action == CancelOrder && rs[k].orderId == open[i].orderId
  {
    hide TargetBid, TargetAsk;
    var k := PulledIsRequested(s, inventory, symbolId, open, i);
  }

  lemma OnlyWantedIsPlaced(s: Signals, inventory: int, symbolId: nat, open: seq<OrderResponse>, k: nat)
    requires var rs := QuoteRequests(s, inventory, symbolId, open);
             k < |rs| && rs[k].action == NewOrder
    ensures Wants(s, QuoteRequests(s, inventory, symbolId, open)[k].side)
  {
    hide TargetBid, TargetAsk, QuoteRequests, SomeNear;
    var rs := QuoteRequests(s, inventory, symbolId, open);
    var cancels, at, bids, asks := QuoteRequestsAre(s, inventory, symbolId, open);
    assert rs[..|cancels|] == cancels;
    if k < |cancels| + |bids| {
      assert rs[k] == bids[k - |cancels|];
    } else {
      assert rs[k] == asks[k - |cancels| - |bids|];
    }
  }

  lemma OnlyWantedIsQuoted(
      s: Signals, inventory: int, symbolId: nat, open: seq<OrderResponse>, side: Side, p: int)
    requires side != NoSide && Quoted(QuoteRequests(s, inventory, symbolId, open), symbolId, open, side, p)
    ensures Wants(s, side)
  {
    hide TargetBid, TargetAsk, QuoteRequests, Wants;
    var rs := QuoteRequests(s, inventory, symbolId, open);
    if k :| 0 <= k < |rs| && rs[k].action == NewOrder && rs[k].side == side {
      OnlyWantedIsPlaced(s, inventory, symbolId, open, k);
    } else {
      var i :| 0 <= i < |open| && open[i].symbolId == symbolId && open[i].side == side && open[i].p == p
        && forall k :: 0 <= k < |rs| && rs[k].action == CancelOrder ==> rs[k].orderId != open[i].orderId;
      if IsToPull(s, inventory, symbolId, open[i]) {
        PulledIsNamed(s, inventory, symbolId, open, i);
      }
    }
  }

  /** After a tick a side is quoted at some price exactly if the flow is not too toxic for it. */
  lemma SideIsQuotedIff(s: Signals, inventory: int, symbolId: nat, open: seq<OrderResponse>, side: Side)
    requires DistinctIds(open) && side != NoSide
    ensures (exists p :: Quoted(QuoteRequests(s, inventory, symbolId, open), symbolId, open, side, p)) <==>
            (if side == Buy then s.toxicity > -0.8 else s.toxicity < 0.8)
  {
    hide TargetBid, TargetAsk, Quoted, QuoteRequests, DistinctIds;
    var target := if side == Buy then TargetBid(s, inventory) else TargetAsk(s, inventory);
    if p :| Quoted(QuoteRequests(s, inventory, symbolId, open), symbolId, open, side, p) {
      OnlyWantedIsQuoted(s, inventory, symbolId, open, side, p);
    } else if Wants(s, side) {
      if i :| 0 <= i < |open| && IsNear(open[i], symbolId, side, target) {
        KeptStaysQuoted(s, inventory, symbolId, open, i);
        assert false;
      }
      NewOneIsQuoted(s, inventory, symbolId, open, side);
    }
  }
}
