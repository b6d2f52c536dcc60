/**
 The quoting tick closed over the exchange: every request of a tick is acknowledged, in any order, and the
 acknowledgements are folded into the account the tick started from.
 */
module QuotingTick {
  import opened Types
  import opened Permutations
  import opened AlgoClientModule
  import opened MMNativeModule
  import A = AccountModule

  /** The exchange's answer to a request it accepts. */
  function Ack(t: OrderRequest): OrderResponse {
    var execType := match t.action case NewOrder => New case ModifyOrder => Replaced case CancelOrder => Cancelled;
    OrderResponse(execType, t.orderId, t.clientId, t.execId, t.symbolId, t.side, t.p, t.q, 0)
  }

  function Acks(ts: seq<OrderRequest>): seq<OrderResponse> {
    seq(|ts|, i requires 0 <= i < |ts| => Ack(ts[i]))
  }

  // ----- folding responses with distinct ids into an account

  predicate Answers(r: OrderResponse) {
    r.execType == New || r.execType == Replaced || r.execType == Cancelled
  }

  lemma FindOpenAppend(rs: seq<OrderResponse>, r: OrderResponse, id: nat)
    requires A.DistinctIds(rs + [r])
    ensures A.FindOpen(rs + [r], id) == if id == r.orderId then Some(r) else A.FindOpen(rs, id)
    ensures A.FindOpen(rs, r.orderId).None?
  {
    var t := rs + [r];
    assert forall j :: 0 <= j < |rs| ==> t[j] == rs[j] && t[j].orderId != t[|rs|].orderId;
    assert A.Upsert(rs, r) == rs + [r];
    A.UpsertFinds(rs, r, id);
  }

  /** After the fold an order is what its response says, or what it was if there is none. */
  lemma {:induction false} FoldFinds(a: A.Account, rs: seq<OrderResponse>, id: nat)
    requires A.DistinctIds(a.open) && A.DistinctIds(rs) && forall i :: 0 <= i < |rs| ==> Answers(rs[i])
    ensures A.DistinctIds(A.HandleAll(a, rs).open)
    ensures A.FindOpen(A.HandleAll(a, rs).open, id) ==
            match A.FindOpen(rs, id)
            case Some(r) => if A.Rests(r) then Some(r) else None
            case None => A.FindOpen(a.open, id)
  {
    hide A.Upsert, A.Erase;
    if rs != [] {
      var front, last := rs[..|rs| - 1], rs[|rs| - 1];
      assert rs == front + [last];
      FoldFinds(a, front, id);
      FindOpenAppend(front, last, id);
      A.UpsertFinds(A.HandleAll(a, front).open, last, id);
      A.EraseFinds(A.HandleAll(a, front).open, last.orderId, id);
    }
  }

  // ----- counting the orders of one side

  function OnSide(side: Side): OrderResponse -> int {
    (r: OrderResponse) => if r.side == side then 1 else 0
  }

  function CountSide(open: seq<OrderResponse>, side: Side): int {
    Sum(open, OnSide(side))
  }

  function SideOf(open: seq<OrderResponse>, id: nat, side: Side): int {
    match A.FindOpen(open, id) case Some(o) => if o.side == side then 1 else 0 case None => 0
  }

  /** What handling a response adds to the count of a side, given the orders that are open. */
  function Effect(open: seq<OrderResponse>, side: Side): OrderResponse -> int {
    (r: OrderResponse) =>
      (if A.Rests(r) && r.side == side then 1 else 0) - SideOf(open, r.orderId, side)
  }

  lemma {:induction false} SumUpdate<T>(s: seq<T>, i: nat, x: T, f: T -> int)
    requires i < |s|
    ensures Sum(s[i := x], f) == Sum(s, f) - f(s[i]) + f(x)
  {
    var n := |s| - 1;
    if i == n {
      assert s[i := x][..n] == s[..n];
    } else {
      SumUpdate(s[..n], i, x, f);
      assert s[i := x][..n] == s[..n][i := x];
    }
  }

  lemma UpsertCounts(open: seq<OrderResponse>, r: OrderResponse, side: Side)
    ensures CountSide(A.Upsert(open, r), side)
         == CountSide(open, side) + (if r.side == side then 1 else 0) - SideOf(open, r.orderId, side)
  {
    var i := A.IndexOf(open, r.orderId);
    if i == |open| {
      SumAppend(open, r, OnSide(side));
    } else {
      SumUpdate(open, i, r, OnSide(side));
    }
  }

  lemma EraseCounts(open: seq<OrderResponse>, id: nat, side: Side)
    ensures CountSide(A.Erase(open, id), side) == CountSide(open, side) - SideOf(open, id, side)
  {
    var i := A.IndexOf(open, id);
    if i < |open| {
      SumOmit(open, i, OnSide(side));
      assert A.Erase(open, id) == Omit(open, i);
    }
  }

  lemma HandleCounts(a: A.Account, r: OrderResponse, side: Side)
    requires Answers(r)
    ensures CountSide(A.HandleOrder(a, r).open, side) == CountSide(a.open, side) + Effect(a.open, side)(r)
  {
    if A.Rests(r) {
      UpsertCounts(a.open, r, side);
    } else {
      EraseCounts(a.open, r.orderId, side);
    }
  }

  lemma {:induction false} FoldCounts(a: A.Account, rs: seq<OrderResponse>, side: Side)
    requires A.DistinctIds(a.open) && A.DistinctIds(rs) && forall i :: 0 <= i < |rs| ==> Answers(rs[i])
    ensures CountSide(A.HandleAll(a, rs).open, side) == CountSide(a.open, side) + Sum(rs, Effect(a.open, side))
  {
    if rs != [] {
      var front, last := rs[..|rs| - 1], rs[|rs| - 1];
      assert rs == front + [last];
      FoldCounts(a, front, side);
      FoldFinds(a, front, last.orderId);
      FindOpenAppend(front, last, last.orderId);
      HandleCounts(A.HandleAll(a, front), last, side);
    }
  }

  // ----- permutations of responses

  lemma {:induction false} PermutedDistinct(rs: seq<OrderResponse>, ts: seq<OrderResponse>)
    requires multiset(rs) == multiset(ts) && A.DistinctIds(rs)
    ensures A.DistinctIds(ts)
    decreases |rs|
  {
    if rs == [] {
      assert |multiset(ts)| == 0;
    } else {
      var front := rs[..|rs| - 1];
      var i := TakeOut(rs, ts);
      var rest := Omit(ts, i);
      PermutedDistinct(front, rest);
      forall k | 0 <= k < |rest| ensures rest[k].orderId != ts[i].orderId {
        assert rest[k] in multiset(front);
      }
      forall j, k | 0 <= j < k < |ts| ensures ts[j].orderId != ts[k].orderId {
        if j != i && k != i {
          assert ts[j] == rest[if j < i then j else j - 1] && ts[k] == rest[if k < i then k else k - 1];
        } else if j == i {
          assert ts[k] == rest[k - 1];
        } else {
          assert ts[j] == rest[j];
        }
      }
    }
  }

  // ----- the acknowledgements of one tick

  /** Where a tick's requests come from: the open orders it adjusts, and the new orders. */
  lemma {:induction false} AdjustmentAt(open: seq<OrderResponse>, ds: seq<Decision>, k: nat) returns (i: nat)
    requires |open| == |ds| && k < |Adjustments(open, ds)|
    ensures i < |open| && AdjustmentOf(open[i], ds[i]) == [Adjustments(open, ds)[k]]
  {
    var n := |open| - 1;
    if k < |Adjustments(open[..n], ds[..n])| {
      i := AdjustmentAt(open[..n], ds[..n], k);
    } else {
      i := n;
    }
  }

  lemma {:induction false} AdjustmentOfOrder(open: seq<OrderResponse>, ds: seq<Decision>, i: nat) returns (k: nat)
    requires |open| == |ds| && i < |open| && AdjustmentOf(open[i], ds[i]) != []
    ensures k < |Adjustments(open, ds)| && [Adjustments(open, ds)[k]] == AdjustmentOf(open[i], ds[i])
  {
    var n := |open| - 1;
    if i < n {
      k := AdjustmentOfOrder(open[..n], ds[..n], i);
    } else {
      k := |Adjustments(open[..n], ds[..n])|;
    }
  }

  /** The adjustments name orders that are open, each at most once. */
  lemma {:induction false} AdjustmentsDistinct(open: seq<OrderResponse>, ds: seq<Decision>)
    requires |open| == |ds| && A.DistinctIds(open)
    ensures forall j, k :: 0 <= j < k < |Adjustments(open, ds)| ==>
              Adjustments(open, ds)[j].orderId != Adjustments(open, ds)[k].orderId
    ensures forall k :: 0 <= k < |Adjustments(open, ds)| ==>
              Adjustments(open, ds)[k].action != NewOrder
              && exists i :: 0 <= i < |open| && open[i].orderId == Adjustments(open, ds)[k].orderId
  {
    if open != [] {
      var n := |open| - 1;
      AdjustmentsDistinct(open[..n], ds[..n]);
      var front := Adjustments(open[..n], ds[..n]);
      forall k | 0 <= k < |front|
        ensures exists i :: 0 <= i < n && open[i].orderId == front[k].orderId
      {
        var i :| 0 <= i < n && open[..n][i].orderId == front[k].orderId;
        assert open[i].orderId == front[k].orderId;
      }
    }
  }

  /** None of the next `n` ids from `firstId` on is open. */
  predicate Unused(open: seq<OrderResponse>, firstId: nat, n: nat) {
    forall i :: 0 <= i < |open| ==> !(firstId <= open[i].orderId < firstId + n)
  }

  /** An adjustment names its open order, a new order the id of its request. */
  lemma SentOrderId(open: seq<OrderResponse>, t: Tick, ts: seq<OrderRequest>, firstId: nat, estimation: real, k: nat)
    requires A.DistinctIds(open) && IsTick(estimation, open, t)
    requires AllSentAs(Requests(open, t), ts, firstId) && k < |ts|
    ensures if k < |Adjustments(open, t.decisions)|
            then ts[k].orderId == Adjustments(open, t.decisions)[k].orderId
                 && exists i :: 0 <= i < |open| && open[i].orderId == ts[k].orderId
            else ts[k].orderId == firstId + k
  {
    AdjustmentsDistinct(open, t.decisions);
    var rs, n := Requests(open, t), |Adjustments(open, t.decisions)|;
    assert SentAs(rs[k], ts[k], firstId + k);
    if k < n {
      assert rs[k] == Adjustments(open, t.decisions)[k];
    } else if k < n + |t.newBids| {
      assert rs[k] == t.newBids[k - n];
    } else {
      assert rs[k] == t.newAsks[k - n - |t.newBids|];
    }
  }

  /** No two acknowledgements of a tick name the same order. */
  lemma AcksDistinct(open: seq<OrderResponse>, t: Tick, ts: seq<OrderRequest>, firstId: nat, estimation: real)
    requires A.DistinctIds(open) && Unused(open, firstId, |ts|) && IsTick(estimation, open, t)
    requires AllSentAs(Requests(open, t), ts, firstId)
    ensures A.DistinctIds(Acks(ts))
    ensures forall i :: 0 <= i < |ts| ==> Answers(Acks(ts)[i])
  {
    AdjustmentsDistinct(open, t.decisions);
    var n := |Adjustments(open, t.decisions)|;
    forall j, k | 0 <= j < k < |ts| ensures Acks(ts)[j].orderId != Acks(ts)[k].orderId {
      SentOrderId(open, t, ts, firstId, estimation, j);
      SentOrderId(open, t, ts, firstId, estimation, k);
      if k < n {
        assert Adjustments(open, t.decisions)[j].orderId != Adjustments(open, t.decisions)[k].orderId;
      }
    }
  }

  /** What the acknowledgement of a request adds to the count of a side. */
  function RequestEffect(open: seq<OrderResponse>, side: Side): OrderRequest -> int {
    (r: OrderRequest) =>
      (if r.action != CancelOrder && r.side == side then 1 else 0)
      - (if r.action == NewOrder then 0 else SideOf(open, r.orderId, side))
  }

  lemma AckEffect(open: seq<OrderResponse>, r: OrderRequest, t: OrderRequest, id: nat, side: Side)
    requires Unused(open, id, 1) && SentAs(r, t, id)
    ensures Effect(open, side)(Ack(t)) == RequestEffect(open, side)(r)
  {
    var i := A.IndexOf(open, id);
  }

  lemma {:induction false} AcksEffect(
      open: seq<OrderResponse>, rs: seq<OrderRequest>, ts: seq<OrderRequest>, firstId: nat, side: Side)
    requires Unused(open, firstId, |ts|) && AllSentAs(rs, ts, firstId)
    ensures Sum(Acks(ts), Effect(open, side)) == Sum(rs, RequestEffect(open, side))
  {
    if rs != [] {
      var n := |rs| - 1;
      assert Acks(ts)[..n] == Acks(ts[..n]);
      AcksEffect(open, rs[..n], ts[..n], firstId, side);
      AckEffect(open, rs[n], ts[n], firstId + n, side);
    }
  }

  lemma OneAdjustmentEffect(open: seq<OrderResponse>, i: nat, d: Decision, side: Side, estimation: real)
    requires i < |open| && side != NoSide && A.DistinctIds(open) && Sound(open[i], estimation, d)
    ensures Sum(AdjustmentOf(open[i], d), RequestEffect(open, side))
         == (if open[i].side == side && Stays(d) then 1 else 0) - (if open[i].side == side then 1 else 0)
  {
    A.IndexUnique(open, i);
    var rs := AdjustmentOf(open[i], d);
    if rs != [] {
      assert rs[..0] == [];
      assert Sum(rs, RequestEffect(open, side)) == RequestEffect(open, side)(rs[0]);
    }
  }

  /** What one more open order adds to the requests and to the two counts. */
  lemma OneMoreOrder(open: seq<OrderResponse>, ds: seq<Decision>, n: nat, side: Side)
    requires |open| == |ds| && n < |open|
    ensures Adjustments(open[..n + 1], ds[..n + 1]) == Adjustments(open[..n], ds[..n]) + AdjustmentOf(open[n], ds[n])
    ensures CountStaying(open[..n + 1], ds[..n + 1], side)
         == CountStaying(open[..n], ds[..n], side) + (if open[n].side == side && Stays(ds[n]) then 1 else 0)
    ensures CountSide(open[..n + 1], side) == CountSide(open[..n], side) + (if open[n].side == side then 1 else 0)
  {
    assert open[..n + 1][..n] == open[..n] && ds[..n + 1][..n] == ds[..n];
  }

  lemma {:induction false} AdjustmentsEffect(
      open: seq<OrderResponse>, ds: seq<Decision>, n: nat, side: Side, estimation: real)
    requires |open| == |ds| && n <= |open| && side != NoSide && A.DistinctIds(open)
    requires forall i :: 0 <= i < |open| ==> Sound(open[i], estimation, ds[i])
    ensures Sum(Adjustments(open[..n], ds[..n]), RequestEffect(open, side))
         == CountStaying(open[..n], ds[..n], side) - CountSide(open[..n], side)
  {
    hide A.DistinctIds, Sound, RequestEffect, AdjustmentOf;
    if n > 0 {
      hide Sum, Adjustments, CountStaying, CountSide;
      AdjustmentsEffect(open, ds, n - 1, side, estimation);
      OneMoreOrder(open, ds, n - 1, side);
      var front := Adjustments(open[..n - 1], ds[..n - 1]);
      SumConcat(front, AdjustmentOf(open[n - 1], ds[n - 1]), RequestEffect(open, side));
      OneAdjustmentEffect(open, n - 1, ds[n - 1], side, estimation);
    }
  }

  lemma {:induction false} PlacementsEffect(
      open: seq<OrderResponse>, rs: seq<OrderRequest>, placed: Side, side: Side, estimation: real)
    requires forall i :: 0 <= i < |rs| ==> Placement(rs[i], placed, estimation)
    ensures Sum(rs, RequestEffect(open, side)) == if placed == side then |rs| else 0
  {
    if rs != [] {
      PlacementsEffect(open, rs[..|rs| - 1], placed, side, estimation);
    }
  }

  function Max(a: int, b: int): int {
    if a < b then b else a
  }

  /** The acknowledgements bring the side's count to the target, or leave what stayed if that is more. */
  lemma RequestsEffect(open: seq<OrderResponse>, t: Tick, side: Side, estimation: real)
    requires A.DistinctIds(open) && IsTick(estimation, open, t) && side != NoSide
    ensures CountSide(open, side) + Sum(Requests(open, t), RequestEffect(open, side))
         == Max(TARGET_PER_SIDE, CountStaying(open, t.decisions, side))
  {
    var f := RequestEffect(open, side);
    var n := |open|;
    AdjustmentsEffect(open, t.decisions, n, side, estimation);
    assert open[..n] == open && t.decisions[..n] == t.decisions;
    SumConcat(Adjustments(open, t.decisions), t.newBids, f);
    SumConcat(Adjustments(open, t.decisions) + t.newBids, t.newAsks, f);
    PlacementsEffect(open, t.newBids, Buy, side, estimation);
    PlacementsEffect(open, t.newAsks, Sell, side, estimation);
  }

  // ----- the prices

  /** An acknowledgement that leaves its order open leaves it at a distant price. */
  lemma AckPrice(open: seq<OrderResponse>, t: Tick, ts: seq<OrderRequest>, firstId: nat, estimation: real, k: nat)
    requires IsTick(estimation, open, t) && AllSentAs(Requests(open, t), ts, firstId) && k < |ts|
    requires A.Rests(Ack(ts[k]))
    ensures Distant(ts[k].side, ts[k].p, estimation)
  {
    var rs, n := Requests(open, t), |Adjustments(open, t.decisions)|;
    assert SentAs(rs[k], ts[k], firstId + k);
    if k < n {
      var i := AdjustmentAt(open, t.decisions, k);
      assert Sound(open[i], estimation, t.decisions[i]);
    } else if k < n + |t.newBids| {
      assert rs[k] == t.newBids[k - n];
    } else {
      assert rs[k] == t.newAsks[k - n - |t.newBids|];
    }
  }

  /** The request that adjusts an open order. */
  lemma AnswerTo(open: seq<OrderResponse>, t: Tick, ts: seq<OrderRequest>, firstId: nat, i: nat) returns (k: nat)
    requires |open| == |t.decisions| && AllSentAs(Requests(open, t), ts, firstId)
    requires i < |open| && AdjustmentOf(open[i], t.decisions[i]) != []
    ensures k < |ts| && ts[k].orderId == open[i].orderId
  {
    k := AdjustmentOfOrder(open, t.decisions, i);
    assert SentAs(Requests(open, t)[k], ts[k], firstId + k);
    assert [Requests(open, t)[k]] == AdjustmentOf(open[i], t.decisions[i]);
  }

  /** An order without an acknowledgement was kept. */
  lemma UnansweredIsKept(
      open: seq<OrderResponse>, t: Tick, ts: seq<OrderRequest>, firstId: nat, estimation: real, i: nat)
    requires IsTick(estimation, open, t) && AllSentAs(Requests(open, t), ts, firstId) && i < |open|
    requires forall k :: 0 <= k < |ts| ==> ts[k].orderId != open[i].orderId
    ensures Distant(open[i].side, open[i].p, estimation)
  {
    assert Sound(open[i], estimation, t.decisions[i]);
    if AdjustmentOf(open[i], t.decisions[i]) != [] {
      var k := AnswerTo(open, t, ts, firstId, i);
      assert false;
    }
  }

  // ----- main result

  /** Every bid is at least 1 below, and every ask at least 1 above the estimation. */
  ghost predicate AllDistant(open: seq<OrderResponse>, estimation: real) {
    forall i :: 0 <= i < |open| ==>
      && (open[i].side == Buy ==> open[i].p as real <= estimation - 1.0)
      && (open[i].side == Sell ==> open[i].p as real >= estimation + 1.0)
  }

  lemma FinalPrices(
      a: A.Account, t: Tick, ts: seq<OrderRequest>, firstId: nat, estimation: real, acks: seq<OrderResponse>)
    requires A.DistinctIds(a.open) && Unused(a.open, firstId, |ts|) && IsTick(estimation, a.open, t)
    requires AllSentAs(Requests(a.open, t), ts, firstId)
    requires multiset(acks) == multiset(Acks(ts)) && A.DistinctIds(acks)
    requires forall i :: 0 <= i < |acks| ==> Answers(acks[i])
    ensures AllDistant(A.HandleAll(a, acks).open, estimation)
  {
    var f := A.HandleAll(a, acks).open;
    forall i | 0 <= i < |f| ensures Distant(f[i].side, f[i].p, estimation) {
      var id := f[i].orderId;
      FoldFinds(a, acks, id);
      A.IndexUnique(f, i);
      assert A.FindOpen(f, id) == Some(f[i]);
      if A.FindOpen(acks, id).Some? {
        assert f[i] in multiset(acks);
        var k :| 0 <= k < |Acks(ts)| && Acks(ts)[k] == f[i];
        AckPrice(a.open, t, ts, firstId, estimation, k);
      } else {
        var j := A.IndexOf(a.open, id);
        forall k | 0 <= k < |ts| ensures ts[k].orderId != id {
          assert Acks(ts)[k] in multiset(acks);
        }
        UnansweredIsKept(a.open, t, ts, firstId, estimation, j);
      }
    }
  }

  lemma FinalCount(
      a: A.Account, t: Tick, ts: seq<OrderRequest>, firstId: nat, estimation: real,
      acks: seq<OrderResponse>, side: Side)
    requires A.DistinctIds(a.open) && Unused(a.open, firstId, |ts|) && IsTick(estimation, a.open, t)
    requires AllSentAs(Requests(a.open, t), ts, firstId)
    requires multiset(acks) == multiset(Acks(ts)) && A.DistinctIds(acks) && side != NoSide
    requires forall i :: 0 <= i < |acks| ==> Answers(acks[i])
    ensures CountSide(A.HandleAll(a, acks).open, side)
         == Max(TARGET_PER_SIDE, CountStaying(a.open, t.decisions, side))
  {
    FoldCounts(a, acks, side);
    SumPermuted(acks, Acks(ts), Effect(a.open, side));
    AcksEffect(a.open, Requests(a.open, t), ts, firstId, side);
    RequestsEffect(a.open, t, side, estimation);
  }

  /** An open order at the end was open before, or was placed by the tick. */
  lemma FinalIds(
      a: A.Account, t: Tick, ts: seq<OrderRequest>, firstId: nat, estimation: real, acks: seq<OrderResponse>, i: nat)
    requires A.DistinctIds(a.open) && IsTick(estimation, a.open, t)
    requires AllSentAs(Requests(a.open, t), ts, firstId)
    requires multiset(acks) == multiset(Acks(ts)) && A.DistinctIds(acks)
    requires forall k :: 0 <= k < |acks| ==> Answers(acks[k])
    requires i < |A.HandleAll(a, acks).open|
    ensures var id := A.HandleAll(a, acks).open[i].orderId;
            A.FindOpen(a.open, id).Some? || firstId <= id < firstId + |ts|
  {
    var f := A.HandleAll(a, acks).open;
    var id := f[i].orderId;
    FoldFinds(a, acks, id);
    A.IndexUnique(f, i);
    if A.FindOpen(acks, id).Some? {
      assert acks[A.IndexOf(acks, id)] in multiset(Acks(ts));
      var k :| 0 <= k < |ts| && Acks(ts)[k].orderId == id;
      SentOrderId(a.open, t, ts, firstId, estimation, k);
      if j :| 0 <= j < |a.open| && a.open[j].orderId == id {
        A.IndexUnique(a.open, j);
      }
    }
  }

  /** How a tick leaves the account: both sides filled, every price distant, and no id from elsewhere. */
  ghost predicate LoopClosed(
      before: seq<OrderResponse>, t: Tick, firstId: nat, n: nat, estimation: real, after: seq<OrderResponse>)
    requires |before| == |t.decisions|
  {
    && CountSide(after, Buy) == Max(12, CountStaying(before, t.decisions, Buy))
    && CountSide(after, Sell) == Max(12, CountStaying(before, t.decisions, Sell))
    && AllDistant(after, estimation)
    && (forall i, j :: 0 <= i < |after| && 0 <= j < |after| && after[i].side == Buy && after[j].side == Sell ==>
          after[i].p + 2 <= after[j].p)
    && A.DistinctIds(after)
    && (forall i :: 0 <= i < |after| ==>
          A.FindOpen(before, after[i].orderId).Some? || firstId <= after[i].orderId < firstId + n)
  }

  /**
   Whatever the random draws and in whatever order the acknowledgements arrive, the account ends the tick
   with exactly the target number of orders on each side, or all that stayed if they are more, with every
   bid at least 1 below and every ask at least 1 above the estimation, so at least 2 apart.
   */
  lemma TickClosesLoop(
      a: A.Account, t: Tick, ts: seq<OrderRequest>, firstId: nat, estimation: real, acks: seq<OrderResponse>)
    requires A.DistinctIds(a.open) && Unused(a.open, firstId, |ts|) && IsTick(estimation, a.open, t)
    requires AllSentAs(Requests(a.open, t), ts, firstId)
    requires multiset(acks) == multiset(Acks(ts))
    ensures LoopClosed(a.open, t, firstId, |ts|, estimation, A.HandleAll(a, acks).open)
  {
    AcksDistinct(a.open, t, ts, firstId, estimation);
    PermutedDistinct(Acks(ts), acks);
    forall i | 0 <= i < |acks| ensures Answers(acks[i]) {
      assert acks[i] in multiset(Acks(ts));
    }
    FinalCount(a, t, ts, firstId, estimation, acks, Buy);
    FinalCount(a, t, ts, firstId, estimation, acks, Sell);
    FinalPrices(a, t, ts, firstId, estimation, acks);
    FoldFinds(a, acks, 0);
    forall i | 0 <= i < |A.HandleAll(a, acks).open|
      ensures var id := A.HandleAll(a, acks).open[i].orderId;
              A.FindOpen(a.open, id).Some? || firstId <= id < firstId + |ts|
    {
      FinalIds(a, t, ts, firstId, estimation, acks, i);
    }
  }

  // ----- any number of ticks

  /** Responses of any kind that come before a tick, the tick, what it sends and its acknowledgements. */
  datatype Round = Round(
    estimation: real, between: seq<OrderResponse>, tick: Tick, sent: seq<OrderRequest>, acks: seq<OrderResponse>)

  function AtTick(a: A.Account, r: Round): A.Account {
    A.HandleAll(a, r.between)
  }

  function AfterRounds(a: A.Account, rs: seq<Round>): A.Account {
    if rs == [] then a
    else
      var r := rs[|rs| - 1];
      A.HandleAll(AtTick(AfterRounds(a, rs[..|rs| - 1]), r), r.acks)
  }

  /** How many ids the rounds use. */
  function IdsUsed(rs: seq<Round>): nat {
    if rs == [] then 0 else IdsUsed(rs[..|rs| - 1]) + |rs[|rs| - 1].sent|
  }

  /** The round's tick is one of this account, sent with the next ids and acknowledged in some order. */
  predicate IsRound(a: A.Account, r: Round, firstId: nat) {
    && IsTick(r.estimation, AtTick(a, r).open, r.tick)
    && AllSentAs(Requests(AtTick(a, r).open, r.tick), r.sent, firstId)
    && multiset(r.acks) == multiset(Acks(r.sent))
  }

  /** Rounds one after the other; nothing that comes in between names one of the `n` ids not used yet. */
  predicate AreRounds(a: A.Account, rs: seq<Round>, firstId: nat, n: nat) {
    rs == []
    || var front, r := rs[..|rs| - 1], rs[|rs| - 1];
       && AreRounds(a, front, firstId, n + |r.sent|)
       && Unused(r.between, firstId + IdsUsed(front), |r.sent| + n)
       && IsRound(AfterRounds(a, front), r, firstId + IdsUsed(front))
  }

  lemma UpsertUnused(open: seq<OrderResponse>, r: OrderResponse, firstId: nat, n: nat)
    requires Unused(open, firstId, n) && !(firstId <= r.orderId < firstId + n)
    ensures Unused(A.Upsert(open, r), firstId, n)
  {
  }

  lemma EraseUnused(open: seq<OrderResponse>, id: nat, firstId: nat, n: nat)
    requires Unused(open, firstId, n)
    ensures Unused(A.Erase(open, id), firstId, n)
  {
  }

  lemma HandleKeepsUnused(a: A.Account, r: OrderResponse, firstId: nat, n: nat)
    requires A.DistinctIds(a.open) && Unused(a.open, firstId, n) && !(firstId <= r.orderId < firstId + n)
    ensures A.DistinctIds(A.HandleOrder(a, r).open) && Unused(A.HandleOrder(a, r).open, firstId, n)
  {
    hide A.Upsert, A.Erase, A.DistinctIds, A.FindOpen, Unused;
    A.UpsertFinds(a.open, r, r.orderId);
    A.EraseFinds(a.open, r.orderId, r.orderId);
    UpsertUnused(a.open, r, firstId, n);
    EraseUnused(a.open, r.orderId, firstId, n);
  }

  lemma {:induction false} BetweenKeepsUnused(a: A.Account, rs: seq<OrderResponse>, firstId: nat, n: nat)
    requires A.DistinctIds(a.open) && Unused(a.open, firstId, n) && Unused(rs, firstId, n)
    ensures A.DistinctIds(A.HandleAll(a, rs).open) && Unused(A.HandleAll(a, rs).open, firstId, n)
  {
    if rs != [] {
      BetweenKeepsUnused(a, rs[..|rs| - 1], firstId, n);
      HandleKeepsUnused(A.HandleAll(a, rs[..|rs| - 1]), rs[|rs| - 1], firstId, n);
    }
  }

  lemma UnusedPart(open: seq<OrderResponse>, firstId: nat, m: nat, n: nat)
    requires Unused(open, firstId, m + n)
    ensures Unused(open, firstId, m) && Unused(open, firstId + m, n)
  {
  }

  lemma ClosedKeepsUnused(
      before: seq<OrderResponse>, t: Tick, firstId: nat, m: nat, estimation: real, after: seq<OrderResponse>, n: nat)
    requires |before| == |t.decisions| && LoopClosed(before, t, firstId, m, estimation, after)
    requires Unused(before, firstId + m, n)
    ensures Unused(after, firstId + m, n)
  {
    forall i | 0 <= i < |after| ensures !(firstId + m <= after[i].orderId < firstId + m + n) {
      if A.FindOpen(before, after[i].orderId).Some? {
        assert before[A.IndexOf(before, after[i].orderId)].orderId == after[i].orderId;
      }
    }
  }

  /** After a round the loop is closed, and the ids still to come are unused. */
  lemma RoundClosesLoop(a: A.Account, r: Round, firstId: nat, n: nat)
    requires A.DistinctIds(a.open) && Unused(a.open, firstId, |r.sent| + n)
    requires Unused(r.between, firstId, |r.sent| + n) && IsRound(a, r, firstId)
    ensures var b := AtTick(a, r);
            && LoopClosed(b.open, r.tick, firstId, |r.sent|, r.estimation, A.HandleAll(b, r.acks).open)
            && A.DistinctIds(A.HandleAll(b, r.acks).open)
            && Unused(A.HandleAll(b, r.acks).open, firstId + |r.sent|, n)
  {
    hide A.DistinctIds, A.HandleAll, Unused, AllSentAs;
    var b := AtTick(a, r);
    BetweenKeepsUnused(a, r.between, firstId, |r.sent| + n);
    UnusedPart(b.open, firstId, |r.sent|, n);
    TickClosesLoop(b, r.tick, r.sent, firstId, r.estimation, r.acks);
    ClosedKeepsUnused(b.open, r.tick, firstId, |r.sent|, r.estimation, A.HandleAll(b, r.acks).open, n);
  }

  lemma LastRound(a: A.Account, rs: seq<Round>, firstId: nat, n: nat)
    requires rs != [] && AreRounds(a, rs, firstId, n)
    ensures var front, r := rs[..|rs| - 1], rs[|rs| - 1];
            && AreRounds(a, front, firstId, n + |r.sent|)
            && Unused(r.between, firstId + IdsUsed(front), |r.sent| + n)
            && IsRound(AfterRounds(a, front), r, firstId + IdsUsed(front))
            && IdsUsed(rs) == IdsUsed(front) + |r.sent|
            && AfterRounds(a, rs) == A.HandleAll(AtTick(AfterRounds(a, front), r), r.acks)
  {
    hide IsRound, Unused, AtTick, A.HandleAll;
  }

  lemma {:induction false} RoundsKeepIds(a: A.Account, rs: seq<Round>, firstId: nat, n: nat)
    requires A.DistinctIds(a.open) && Unused(a.open, firstId, IdsUsed(rs) + n) && AreRounds(a, rs, firstId, n)
    ensures A.DistinctIds(AfterRounds(a, rs).open)
    ensures Unused(AfterRounds(a, rs).open, firstId + IdsUsed(rs), n)
  {
    hide A.DistinctIds, Unused, IsRound, LoopClosed, A.HandleAll, AtTick;
    if rs != [] {
      hide AreRounds, AfterRounds, IdsUsed;
      var front, r := rs[..|rs| - 1], rs[|rs| - 1];
      LastRound(a, rs, firstId, n);
      assert IdsUsed(rs) + n == IdsUsed(front) + (n + |r.sent|);
      RoundsKeepIds(a, front, firstId, n + |r.sent|);
      assert |r.sent| + n == n + |r.sent|;
      RoundClosesLoop(AfterRounds(a, front), r, firstId + IdsUsed(front), n);
      assert firstId + IdsUsed(front) + |r.sent| == firstId + IdsUsed(rs);
    }
  }

  /**
   Over any number of acknowledged ticks, with fills and whatever else in between, every tick closes the
   loop: all that is asked at the start is that the ids to be used are not open.
   */
  lemma TicksKeepLoopClosed(a: A.Account, rs: seq<Round>, firstId: nat)
    requires rs != [] && A.DistinctIds(a.open) && Unused(a.open, firstId, IdsUsed(rs))
    requires AreRounds(a, rs, firstId, 0)
    ensures var front, r := rs[..|rs| - 1], rs[|rs| - 1];
            LoopClosed(AtTick(AfterRounds(a, front), r).open, r.tick, firstId + IdsUsed(front), |r.sent|,
                       r.estimation, AfterRounds(a, rs).open)
  {
    hide A.DistinctIds, Unused, IsRound, LoopClosed, AreRounds, AfterRounds, IdsUsed, A.HandleAll, AtTick;
    var front, r := rs[..|rs| - 1], rs[|rs| - 1];
    LastRound(a, rs, firstId, 0);
    RoundsKeepIds(a, front, firstId, |r.sent|);
    RoundClosesLoop(AfterRounds(a, front), r, firstId + IdsUsed(front), 0);
  }
}
