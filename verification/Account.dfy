/** The client's ledger: positions (key 0 is cash) and open orders, folded from the exchange's responses. */
module AccountModule {
  import opened Types
  import opened Permutations

  datatype Account = Account(positions: map<nat, int>, open: seq<OrderResponse>)

  const EMPTY := Account(map[], [])

  /** An event that changes the account: an order response, a position response, or a reset. */
  datatype Event =
    | OrderEvent(response: OrderResponse)
    | PositionEvent(symbolId: nat, position: int)
    | ClearEvent

  // ----- positions

  function Position(positions: map<nat, int>, symbolId: nat): int {
    if symbolId in positions then positions[symbolId] else 0
  }

  /** `positions[key] += change` on a map whose missing entries count as zero. */
  function Bump(positions: map<nat, int>, key: nat, change: int): map<nat, int> {
    positions[key := Position(positions, key) + change]
  }

  predicate Fills(r: OrderResponse) {
    r.execType == Fill || r.execType == PartialFill
  }

  function ApplyFill(positions: map<nat, int>, r: OrderResponse): map<nat, int> {
    match r.side
    case Buy => Bump(Bump(positions, r.symbolId, r.q), 0, -(r.q * r.p))
    case Sell => Bump(Bump(positions, r.symbolId, -(r.q as int)), 0, r.q * r.p)
    case NoSide => positions
  }

  function Sign(side: Side): int {
    match side
    case Buy => 1
    case Sell => -1
    case NoSide => 0
  }

  /** What one fill adds to a key: the signed quantity to its symbol, the negated signed notional to cash. */
  function Delta(r: OrderResponse, key: nat): int {
    (if r.symbolId == key then Sign(r.side) * r.q else 0)
    - (if key == 0 then Sign(r.side) * (r.q * r.p) else 0)
  }

  // ----- open orders

  /** The place of an id among the open orders, or their number. */
  function IndexOf(open: seq<OrderResponse>, id: nat): (i: nat)
    ensures i <= |open|
    ensures i < |open| ==> open[i].orderId == id
    ensures forall j :: 0 <= j < i ==> open[j].orderId != id
  {
    if open == [] || open[0].orderId == id then 0 else 1 + IndexOf(open[1..], id)
  }

  function Upsert(open: seq<OrderResponse>, r: OrderResponse): seq<OrderResponse> {
    var i := IndexOf(open, r.orderId);
    if i == |open| then open + [r] else open[i := r]
  }

  function Erase(open: seq<OrderResponse>, id: nat): seq<OrderResponse> {
    var i := IndexOf(open, id);
    if i == |open| then open else open[..i] + open[i + 1..]
  }

  /** The response leaves its order open. */
  predicate Rests(r: OrderResponse) {
    r.execType == OrderStatus || r.execType == New || r.execType == Replaced || r.execType == PartialFill
  }

  /** The response closes its order. */
  predicate Closes(r: OrderResponse) {
    r.execType == Fill || r.execType == Cancelled
  }

  // ----- the handlers

  function HandleOrder(a: Account, r: OrderResponse): Account {
    match r.execType
    case OrderStatus => a.(open := Upsert(a.open, r))
    case New => a.(open := Upsert(a.open, r))
    case Replaced => a.(open := Upsert(a.open, r))
    case PartialFill => Account(ApplyFill(a.positions, r), Upsert(a.open, r))
    case Fill => Account(ApplyFill(a.positions, r), Erase(a.open, r.orderId))
    case Cancelled => a.(open := Erase(a.open, r.orderId))
    case _ => a
  }

  function Handle(a: Account, e: Event): Account {
    match e
    case OrderEvent(r) => HandleOrder(a, r)
    case PositionEvent(symbolId, position) => a.(positions := a.positions[symbolId := position])
    case ClearEvent => EMPTY
  }

  function Run(es: seq<Event>): Account {
    if es == [] then EMPTY else Handle(Run(es[..|es| - 1]), es[|es| - 1])
  }

  // ----- the ledger: last synced value plus the fills since

  /** What an event adds to a key on top of what is there. */
  function EventDelta(e: Event, key: nat): int {
    if e.OrderEvent? && (e.response.execType == Fill || e.response.execType == PartialFill)
    then Delta(e.response, key) else 0
  }

  function SumDelta(es: seq<Event>, key: nat): int {
    if es == [] then 0 else SumDelta(es[..|es| - 1], key) + EventDelta(es[|es| - 1], key)
  }

  predicate Syncs(e: Event, key: nat) {
    e.ClearEvent? || (e.PositionEvent? && e.symbolId == key)
  }

  /** How many events go up to and including the last sync of a key. */
  function SyncedUpTo(es: seq<Event>, key: nat): (n: nat)
    ensures n <= |es|
    ensures n > 0 ==> Syncs(es[n - 1], key)
    ensures forall i :: n <= i < |es| ==> !Syncs(es[i], key)
  {
    if es == [] then 0
    else if Syncs(es[|es| - 1], key) then |es|
    else SyncedUpTo(es[..|es| - 1], key)
  }

  /** The value the last sync of a key set: none and a reset both mean zero. */
  function SyncedValue(es: seq<Event>, key: nat): int {
    var n := SyncedUpTo(es, key);
    if n > 0 && es[n - 1].PositionEvent? then es[n - 1].position else 0
  }

  lemma FillAddsDelta(positions: map<nat, int>, r: OrderResponse, key: nat)
    ensures Position(ApplyFill(positions, r), key) == Position(positions, key) + Delta(r, key)
  {
  }

  lemma HandleAddsDelta(a: Account, e: Event, key: nat)
    requires !Syncs(e, key)
    ensures Position(Handle(a, e).positions, key) == Position(a.positions, key) + EventDelta(e, key)
  {
    if e.OrderEvent? {
      FillAddsDelta(a.positions, e.response, key);
    }
  }

  /** Each position, and cash, is its last synced value plus the signed fills since. */
  lemma {:induction false} PositionIsSyncPlusFills(es: seq<Event>, key: nat)
    ensures Position(Run(es).positions, key) == SyncedValue(es, key) + SumDelta(es[SyncedUpTo(es, key)..], key)
  {
    if es != [] {
      var front, last := es[..|es| - 1], es[|es| - 1];
      if !Syncs(last, key) {
        PositionIsSyncPlusFills(front, key);
        HandleAddsDelta(Run(front), last, key);
        var n := SyncedUpTo(es, key);
        assert es[n..][..|es| - n - 1] == front[n..];
      }
    }
  }

  // ----- the order of the fills does not matter

  function ApplyFills(positions: map<nat, int>, rs: seq<OrderResponse>): map<nat, int> {
    if rs == [] then positions else ApplyFill(ApplyFills(positions, rs[..|rs| - 1]), rs[|rs| - 1])
  }

  lemma FillsCommute(positions: map<nat, int>, r: OrderResponse, s: OrderResponse)
    ensures ApplyFill(ApplyFill(positions, r), s) == ApplyFill(ApplyFill(positions, s), r)
  {
    var a, b := ApplyFill(ApplyFill(positions, r), s), ApplyFill(ApplyFill(positions, s), r);
    assert a.Keys == b.Keys;
    forall key | key in a ensures a[key] == b[key] {
      FillAddsDelta(positions, r, key);
      FillAddsDelta(positions, s, key);
      FillAddsDelta(ApplyFill(positions, r), s, key);
      FillAddsDelta(ApplyFill(positions, s), r, key);
    }
  }

  lemma ApplyFillsAppend(positions: map<nat, int>, rs: seq<OrderResponse>, r: OrderResponse)
    ensures ApplyFills(positions, rs + [r]) == ApplyFill(ApplyFills(positions, rs), r)
  {
    assert (rs + [r])[..|rs|] == rs;
  }

  /** A fill can be moved to the end of the list. */
  lemma {:induction false} FillLast(positions: map<nat, int>, rs: seq<OrderResponse>, i: nat)
    requires i < |rs|
    ensures ApplyFills(positions, rs) == ApplyFill(ApplyFills(positions, Omit(rs, i)), rs[i])
  {
    var front, last := rs[..|rs| - 1], rs[|rs| - 1];
    if i == |rs| - 1 {
      assert Omit(rs, i) == front;
    } else {
      FillLast(positions, front, i);
      assert Omit(rs, i) == Omit(front, i) + [last];
      ApplyFillsAppend(positions, Omit(front, i), last);
      FillsCommute(ApplyFills(positions, Omit(front, i)), rs[i], last);
    }
  }

  lemma {:induction false} PermutedApply(positions: map<nat, int>, rs: seq<OrderResponse>, ts: seq<OrderResponse>)
    requires multiset(rs) == multiset(ts)
    ensures ApplyFills(positions, rs) == ApplyFills(positions, ts)
    decreases |rs|
  {
    if rs == [] {
      assert |multiset(ts)| == 0;
    } else {
      var i := TakeOut(rs, ts);
      PermutedApply(positions, rs[..|rs| - 1], Omit(ts, i));
      FillLast(positions, ts, i);
    }
  }

  /** Responses handled one after the other by an account that is already there. */
  function HandleAll(a: Account, rs: seq<OrderResponse>): Account {
    if rs == [] then a else HandleOrder(HandleAll(a, rs[..|rs| - 1]), rs[|rs| - 1])
  }

  /** The fills among some responses, in their order. */
  function FillsOf(rs: seq<OrderResponse>): seq<OrderResponse> {
    if rs == [] then []
    else FillsOf(rs[..|rs| - 1]) + (if Fills(rs[|rs| - 1]) then [rs[|rs| - 1]] else [])
  }

  /** Only the fills among the responses matter for the positions. */
  lemma {:induction false} OnlyFillsMatter(a: Account, rs: seq<OrderResponse>)
    ensures HandleAll(a, rs).positions == ApplyFills(a.positions, FillsOf(rs))
  {
    if rs != [] {
      var front, last := rs[..|rs| - 1], rs[|rs| - 1];
      OnlyFillsMatter(a, front);
      if Fills(last) {
        ApplyFillsAppend(a.positions, FillsOf(front), last);
      } else {
        assert FillsOf(rs) == FillsOf(front);
      }
    }
  }

  /**
   Any two stretches of responses between syncs with the same fills, in whatever order and among whatever
   else, give the same positions and the same cash.
   */
  lemma PermutedFills(a: Account, rs: seq<OrderResponse>, ts: seq<OrderResponse>)
    requires multiset(FillsOf(rs)) == multiset(FillsOf(ts))
    ensures HandleAll(a, rs).positions == HandleAll(a, ts).positions
  {
    OnlyFillsMatter(a, rs);
    OnlyFillsMatter(a, ts);
    PermutedApply(a.positions, FillsOf(rs), FillsOf(ts));
  }

  lemma {:induction false} FillsOfMultiset(rs: seq<OrderResponse>, r: OrderResponse)
    ensures multiset(FillsOf(rs))[r] == if Fills(r) then multiset(rs)[r] else 0
  {
    if rs != [] {
      var front, last := rs[..|rs| - 1], rs[|rs| - 1];
      FillsOfMultiset(front, r);
      assert rs == front + [last];
    }
  }

  /** In particular, a permutation of the responses gives the same positions. */
  lemma PermutedResponses(a: Account, rs: seq<OrderResponse>, ts: seq<OrderResponse>)
    requires multiset(rs) == multiset(ts)
    ensures HandleAll(a, rs).positions == HandleAll(a, ts).positions
  {
    forall r ensures multiset(FillsOf(rs))[r] == multiset(FillsOf(ts))[r] {
      FillsOfMultiset(rs, r);
      FillsOfMultiset(ts, r);
    }
    PermutedFills(a, rs, ts);
  }

  // ----- the open orders

  predicate DistinctIds(open: seq<OrderResponse>) {
    forall i, j :: 0 <= i < j < |open| ==> open[i].orderId != open[j].orderId
  }

  function FindOpen(open: seq<OrderResponse>, id: nat): Option<OrderResponse> {
    var i := IndexOf(open, id);
    if i < |open| then Some(open[i]) else None
  }

  /** The last response about an id that was not ignored, since the last reset. */
  function LastWord(es: seq<Event>, id: nat): Option<OrderResponse> {
    if es == [] then None
    else
      match es[|es| - 1]
      case ClearEvent => None
      case PositionEvent(_, _) => LastWord(es[..|es| - 1], id)
      case OrderEvent(r) =>
        if r.orderId == id && (Rests(r) || Closes(r)) then Some(r) else LastWord(es[..|es| - 1], id)
  }

  lemma {:induction false} IndexUnique(open: seq<OrderResponse>, i: nat)
    requires DistinctIds(open) && i < |open|
    ensures IndexOf(open, open[i].orderId) == i
  {
    var k := IndexOf(open, open[i].orderId);
    assert k <= i;
  }

  lemma UpsertFinds(open: seq<OrderResponse>, r: OrderResponse, id: nat)
    requires DistinctIds(open)
    ensures DistinctIds(Upsert(open, r))
    ensures FindOpen(Upsert(open, r), id) == if id == r.orderId then Some(r) else FindOpen(open, id)
  {
    var t := Upsert(open, r);
    var k := IndexOf(open, id);
    if id == r.orderId {
      IndexUnique(t, k);
    } else if k < |open| {
      IndexUnique(t, k);
    }
  }

  lemma EraseFinds(open: seq<OrderResponse>, gone: nat, id: nat)
    requires DistinctIds(open)
    ensures DistinctIds(Erase(open, gone))
    ensures FindOpen(Erase(open, gone), id) == if id == gone then None else FindOpen(open, id)
  {
    var t := Erase(open, gone);
    var i, k := IndexOf(open, gone), IndexOf(open, id);
    if id != gone && k < |open| {
      IndexUnique(t, if k < i then k else k - 1);
    }
  }

  /** An id is open exactly when its last word left it open, and the entry is that response. */
  lemma {:induction false} OpenOrdersHoldLastWord(es: seq<Event>, id: nat)
    ensures DistinctIds(Run(es).open)
    ensures FindOpen(Run(es).open, id) ==
            match LastWord(es, id)
            case Some(r) => if Rests(r) then Some(r) else None
            case None => None
  {
    hide Upsert, Erase;
    if es != [] {
      hide FindOpen, DistinctIds;
      var front, last := es[..|es| - 1], es[|es| - 1];
      OpenOrdersHoldLastWord(front, id);
      if last.OrderEvent? {
        UpsertFinds(Run(front).open, last.response, id);
        EraseFinds(Run(front).open, last.response.orderId, id);
      }
    }
  }

  /** The event that inserted the entry an id now has, or -1. */
  function InsertedAt(es: seq<Event>, id: nat): int {
    if es == [] then -1
    else
      var front, last := es[..|es| - 1], es[|es| - 1];
      if last.OrderEvent? && last.response.orderId == id && Rests(last.response)
         && FindOpen(Run(front).open, id).None?
      then |front| else InsertedAt(front, id)
  }

  ghost predicate InOrder(open: seq<OrderResponse>, time: nat -> int, now: int) {
    && (forall i, j :: 0 <= i < j < |open| ==> time(open[i].orderId) < time(open[j].orderId))
    && (forall i :: 0 <= i < |open| ==> 0 <= time(open[i].orderId) < now)
  }

  lemma UpsertKeepsOrder(open: seq<OrderResponse>, r: OrderResponse, time: nat -> int, time': nat -> int, now: nat)
    requires InOrder(open, time, now)
    requires forall id :: time'(id) == if r.orderId == id && FindOpen(open, id).None? then now else time(id)
    ensures InOrder(Upsert(open, r), time', now + 1)
  {
    var i := IndexOf(open, r.orderId);
    forall k | 0 <= k < |open| ensures time'(open[k].orderId) == time(open[k].orderId) {
      var id := open[k].orderId;
      assert IndexOf(open, id) < |open| by {
        assert !(IndexOf(open, id) == |open|);
      }
    }
  }

  lemma EraseKeepsOrder(open: seq<OrderResponse>, id: nat, time: nat -> int, now: nat)
    requires InOrder(open, time, now)
    ensures InOrder(Erase(open, id), time, now + 1)
  {
    var i, t := IndexOf(open, id), Erase(open, id);
    if i < |open| {
      assert forall k :: 0 <= k < |t| ==> t[k] == open[if k < i then k else k + 1];
    }
  }

  lemma HandleKeepsOrder(a: Account, e: Event, time: nat -> int, time': nat -> int, now: nat)
    requires InOrder(a.open, time, now)
    requires forall id :: time'(id) == if e.OrderEvent? && e.response.orderId == id && Rests(e.response)
                                          && FindOpen(a.open, id).None?
                                       then now else time(id)
    ensures InOrder(Handle(a, e).open, time', now + 1)
  {
    if e.OrderEvent? {
      if Rests(e.response) {
        UpsertKeepsOrder(a.open, e.response, time, time', now);
      } else {
        EraseKeepsOrder(a.open, e.response.orderId, time', now);
      }
    }
  }

  /** The open orders stand in the order of their latest insertion. */
  lemma {:induction false} OpenOrdersInOrder(es: seq<Event>)
    ensures InOrder(Run(es).open, (id: nat) => InsertedAt(es, id), |es|)
  {
    if es != [] {
      var front := es[..|es| - 1];
      OpenOrdersInOrder(front);
      HandleKeepsOrder(Run(front), es[|es| - 1],
                       (id: nat) => InsertedAt(front, id), (id: nat) => InsertedAt(es, id), |front|);
    }
  }

  // ----- the client's own code

  class ClientAccount {
    var positions: map<nat, int>
    var openOrders: seq<OrderResponse>

    function Contents(): Account
      reads this
    {
      Account(positions, openOrders)
    }

    constructor ()
      ensures Contents() == EMPTY
    {
      positions, openOrders := map[], [];
    }

    /** The place of an id, searched from the front. */
    method FindOrder(id: nat) returns (i: nat)
      ensures i == IndexOf(openOrders, id)
    {
      i := 0;
      while i < |openOrders| && openOrders[i].orderId != id
        invariant i <= |openOrders|
        invariant IndexOf(openOrders, id) == i + IndexOf(openOrders[i..], id)
      {
        assert openOrders[i..][1..] == openOrders[i + 1..];
        i := i + 1;
      }
    }

    method UpdatePositionAndCash(symbolId: nat, side: Side, qty: nat, price: int)
      modifies `positions
      ensures forall r: OrderResponse ::
                r.symbolId == symbolId && r.side == side && r.q == qty && r.p == price ==>
                  positions == ApplyFill(old(positions), r)
    {
      var cashChange := qty * price;
      if side == Buy {
        positions := Bump(positions, symbolId, qty);
        positions := Bump(positions, 0, -cashChange);
      } else if side == Sell {
        positions := Bump(positions, symbolId, -(qty as int));
        positions := Bump(positions, 0, cashChange);
      }
    }

    /** Append the response, or overwrite the entry at `i`. */
    method Store(i: nat, r: OrderResponse)
      requires i == IndexOf(openOrders, r.orderId)
      modifies `openOrders
      ensures openOrders == Upsert(old(openOrders), r)
    {
      if i == |openOrders| {
        openOrders := openOrders + [r];
      } else {
        openOrders := openOrders[i := r];
      }
    }

    /** A missing response is ignored. */
    method HandleOrderResponse(response: Option<OrderResponse>)
      modifies this
      ensures Contents() == match response
                            case None => old(Contents())
                            case Some(r) => Handle(old(Contents()), OrderEvent(r))
    {
      if response.None? { return; }
      var r := response.value;
      var i := FindOrder(r.orderId);
      match r.execType
      case OrderStatus => Store(i, r);
      case New => Store(i, r);
      case Replaced => Store(i, r);
      case PartialFill =>
        UpdatePositionAndCash(r.symbolId, r.side, r.q, r.p);
        Store(i, r);
      case Fill =>
        UpdatePositionAndCash(r.symbolId, r.side, r.q, r.p);
        if i != |openOrders| {
          openOrders := openOrders[..i] + openOrders[i + 1..];
        }
      case Cancelled =>
        if i != |openOrders| {
          openOrders := openOrders[..i] + openOrders[i + 1..];
        }
      case _ =>
    }

    method HandlePositionResponse(symbolId: nat, position: int)
      modifies `positions
      ensures Contents() == Handle(old(Contents()), PositionEvent(symbolId, position))
    {
      positions := positions[symbolId := position];
    }

    method Clear()
      modifies this
      ensures Contents() == Handle(old(Contents()), ClearEvent)
    {
      positions, openOrders := map[], [];
    }
  }
}
