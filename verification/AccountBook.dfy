/**
 One stream of events seen twice: as responses by the client's account and as level-3 messages by the book.
 */
module AccountBook {
  import opened Types
  import opened FlatBook
  import A = AccountModule

  /** The level-3 message that announces the same event. */
  function ToL3(r: OrderResponse): L3Message {
    L3Message(r.execType, r.orderId, r.side, r.p, r.q)
  }

  /**
   The event keeps the client's open orders and the book's resting orders in agreement: a partial fill of a
   known order by less than what is left of it, a status of a known order, or any other event.
   */
  predicate KeepsIds(s: seq<Entry>, r: OrderResponse) {
    match r.execType
    case PartialFill => Has(s, r.orderId) && r.q < Find(s, r.orderId).value.qty
    case OrderStatus => Has(s, r.orderId)
    case _ => true
  }

  /** The event fits the book also in quantity: it fills a resting order of its side, partially or exactly. */
  predicate Fits(s: seq<Entry>, r: OrderResponse) {
    && r.side != NoSide
    && match r.execType
       case PartialFill =>
         Has(s, r.orderId) && Find(s, r.orderId).value.side == r.side && r.q < Find(s, r.orderId).value.qty
       case Fill =>
         Has(s, r.orderId) && Find(s, r.orderId).value.side == r.side && r.q == Find(s, r.orderId).value.qty
       case OrderStatus => Has(s, r.orderId)
       case _ => true
  }

  function Messages(rs: seq<OrderResponse>): seq<L3Message> {
    seq(|rs|, i requires 0 <= i < |rs| => ToL3(rs[i]))
  }

  function Book(rs: seq<OrderResponse>): seq<Entry> {
    Run(Messages(rs))
  }

  function Client(rs: seq<OrderResponse>): A.Account {
    A.HandleAll(A.EMPTY, rs)
  }

  ghost predicate AllFit(rs: seq<OrderResponse>) {
    forall k :: 0 <= k < |rs| ==> Fits(Book(rs[..k]), rs[k])
  }

  lemma BookStep(rs: seq<OrderResponse>)
    requires rs != []
    ensures Book(rs) == Apply(Book(rs[..|rs| - 1]), ToL3(rs[|rs| - 1]))
  {
    assert Messages(rs)[..|rs| - 1] == Messages(rs[..|rs| - 1]);
  }

  // ----- the same open orders

  ghost predicate SameIds(a: A.Account, s: seq<Entry>) {
    A.DistinctIds(a.open) && forall id :: A.FindOpen(a.open, id).Some? <==> Has(s, id)
  }

  lemma HasWithout(s: seq<Entry>, gone: nat, id: nat)
    ensures Has(Without(s, gone), id) <==> id != gone && Has(s, id)
  {
    WithoutMembers(s, gone);
    var w := Without(s, gone);
    if Has(w, id) {
      var i :| 0 <= i < |w| && w[i].id == id;
      assert w[i] in s;
    }
  }

  lemma HasAppend(s: seq<Entry>, e: Entry, id: nat)
    ensures Has(s + [e], id) <==> id == e.id || Has(s, id)
  {
    var t := s + [e];
    if Has(s, id) {
      var i :| 0 <= i < |s| && s[i].id == id;
      assert t[i].id == id;
    }
    assert t[|s|].id == e.id;
  }

  lemma HasEdit(s: seq<Entry>, edited: nat, qty: nat, id: nat)
    ensures Has(Edit(s, edited, qty), id) <==> Has(s, id)
  {
    var t := Edit(s, edited, qty);
    if Has(s, id) {
      var i :| 0 <= i < |s| && s[i].id == id;
      assert t[i].id == id;
    }
  }

  /** Which ids rest after an event. */
  lemma HasAfter(s: seq<Entry>, r: OrderResponse, id: nat)
    requires WellFormed(s) && r.side != NoSide
    ensures Has(Apply(s, ToL3(r)), id) <==>
            if id != r.orderId then Has(s, id)
            else match r.execType
                 case New => true
                 case Replaced => true
                 case PartialFill => Has(s, id) && r.q < Find(s, id).value.qty
                 case Fill => false
                 case Cancelled => false
                 case _ => Has(s, id)
  {
    HasWithout(s, r.orderId, id);
    var e := Entry(r.orderId, r.side, r.p, r.q);
    HasAppend(Without(s, r.orderId), e, id);
    HasAppend(s, e, id);
    if Has(s, r.orderId) {
      var e0 := Find(s, r.orderId).value;
      HasEdit(s, r.orderId, r.q, id);
      if r.q < e0.qty {
        HasEdit(s, r.orderId, e0.qty - r.q, id);
      }
    }
  }

  /** Which ids are open after an event. */
  lemma OpenAfter(a: A.Account, r: OrderResponse, id: nat)
    requires A.DistinctIds(a.open)
    ensures A.DistinctIds(A.HandleOrder(a, r).open)
    ensures A.FindOpen(A.HandleOrder(a, r).open, id).Some? <==>
            if id != r.orderId then A.FindOpen(a.open, id).Some?
            else match r.execType
                 case OrderStatus => true
                 case New => true
                 case Replaced => true
                 case PartialFill => true
                 case Fill => false
                 case Cancelled => false
                 case _ => A.FindOpen(a.open, id).Some?
  {
    hide A.FindOpen, A.DistinctIds, A.Upsert, A.Erase;
    A.UpsertFinds(a.open, r, id);
    A.EraseFinds(a.open, r.orderId, id);
  }

  lemma {:induction false} ClientDistinct(rs: seq<OrderResponse>)
    ensures A.DistinctIds(Client(rs).open)
  {
    if rs != [] {
      ClientDistinct(rs[..|rs| - 1]);
      OpenAfter(Client(rs[..|rs| - 1]), rs[|rs| - 1], 0);
    }
  }

  /** After any event the two agree exactly if it is one that keeps them in agreement. */
  lemma SameIdsAfter(a: A.Account, s: seq<Entry>, r: OrderResponse)
    requires WellFormed(s) && SameIds(a, s) && r.side != NoSide
    ensures SameIds(A.HandleOrder(a, r), Apply(s, ToL3(r))) <==> KeepsIds(s, r)
  {
    hide Apply, A.HandleOrder;
    var b, t := A.HandleOrder(a, r), Apply(s, ToL3(r));
    OpenAfter(a, r, r.orderId);
    HasAfter(s, r, r.orderId);
    assert A.FindOpen(a.open, r.orderId).Some? <==> Has(s, r.orderId);
    forall id | id != r.orderId ensures A.FindOpen(b.open, id).Some? <==> Has(t, id) {
      OpenAfter(a, r, id);
      HasAfter(s, r, id);
    }
  }

  ghost predicate AllKeepIds(rs: seq<OrderResponse>) {
    forall k :: 0 <= k < |rs| ==> KeepsIds(Book(rs[..k]), rs[k])
  }

  /** The client's open orders and the book's resting orders have agreed after every event so far. */
  ghost predicate AlwaysSameIds(rs: seq<OrderResponse>) {
    forall k :: 0 <= k <= |rs| ==> SameIds(Client(rs[..k]), Book(rs[..k]))
  }

  lemma AllKeepIdsNext(rs: seq<OrderResponse>)
    requires rs != []
    ensures AllKeepIds(rs) <==> AllKeepIds(rs[..|rs| - 1]) && KeepsIds(Book(rs[..|rs| - 1]), rs[|rs| - 1])
  {
    hide Book, KeepsIds;
    var n := |rs| - 1;
    assert forall k :: 0 <= k < n ==> rs[..n][..k] == rs[..k];
  }

  lemma AlwaysSameIdsNext(rs: seq<OrderResponse>)
    requires rs != []
    ensures AlwaysSameIds(rs) <==> AlwaysSameIds(rs[..|rs| - 1]) && SameIds(Client(rs), Book(rs))
    ensures AlwaysSameIds(rs[..|rs| - 1]) ==> SameIds(Client(rs[..|rs| - 1]), Book(rs[..|rs| - 1]))
  {
    hide Client, Book, SameIds;
    var n := |rs| - 1;
    assert rs[..n][..n] == rs[..n] && rs[..|rs|] == rs;
    assert forall k :: 0 <= k <= n ==> rs[..n][..k] == rs[..k];
  }

  lemma NothingOpen()
    ensures AlwaysSameIds([]) && AllKeepIds([])
  {
    assert forall rs: seq<OrderResponse> :: |rs| == 0 ==> rs == [];
    assert Messages([]) == [];
  }

  /**
   Fed the same events, the client's open orders are at all times the book's resting orders exactly if every
   event keeps them in agreement.
   */
  lemma {:induction false} OpenOrdersAreRestingOrders(rs: seq<OrderResponse>)
    requires forall i :: 0 <= i < |rs| ==> rs[i].side != NoSide
    ensures AlwaysSameIds(rs) <==> AllKeepIds(rs)
  {
    if rs == [] {
      NothingOpen();
    } else {
      hide AlwaysSameIds, AllKeepIds, KeepsIds, SameIds;
      var front, last := rs[..|rs| - 1], rs[|rs| - 1];
      OpenOrdersAreRestingOrders(front);
      AlwaysSameIdsNext(rs);
      AllKeepIdsNext(rs);
      BookStep(rs);
      RunWellFormed(Messages(front));
      if AlwaysSameIds(front) {
        SameIdsAfter(Client(front), Book(front), last);
      }
    }
  }

  lemma OneOrder(r: OrderResponse)
    requires r.execType == New && r.side != NoSide
    ensures Find(Book([r]), r.orderId) == Some(Entry(r.orderId, r.side, r.p, r.q))
  {
    assert [r][..0] == [] && Messages([]) == [];
    BookStep([r]);
  }

  /** A new order and a partial fill of at least all of it. */
  function OverFill(id: nat, qty: nat, filled: nat): seq<OrderResponse> {
    [OrderResponse(New, id, 0, 0, 1, Buy, 0, qty, 0), OrderResponse(PartialFill, id, 0, 0, 1, Buy, 0, filled, 0)]
  }

  /** An over-sized partial fill: the book drops the order, and the client keeps it. */
  lemma OverSizedFillStaysOpen(id: nat, qty: nat, filled: nat)
    requires filled >= qty
    ensures !Has(Book(OverFill(id, qty, filled)), id)
    ensures A.FindOpen(Client(OverFill(id, qty, filled)).open, id).Some?
  {
    hide A.HandleOrder, A.FindOpen, Apply;
    var rs := OverFill(id, qty, filled);
    var s1 := Book(rs[..1]);
    assert Find(s1, id) == Some(Entry(id, Buy, 0, qty)) by {
      OneOrder(rs[0]);
      assert rs[..1] == [rs[0]];
    }
    RunWellFormed(Messages(rs[..1]));
    BookStep(rs);
    HasAfter(s1, rs[1], id);
    ClientDistinct(rs[..1]);
    OpenAfter(Client(rs[..1]), rs[1], id);
  }

  lemma AllFitFront(rs: seq<OrderResponse>)
    requires rs != [] && AllFit(rs)
    ensures AllFit(rs[..|rs| - 1]) && Fits(Book(rs[..|rs| - 1]), rs[|rs| - 1])
  {
    var front := rs[..|rs| - 1];
    assert forall k :: 0 <= k < |front| ==> front[..k] == rs[..k];
  }

  // ----- quantities

  /** Everything that rests in the book. */
  function Resting(s: seq<Entry>): nat {
    if s == [] then 0 else Resting(s[..|s| - 1]) + s[|s| - 1].qty
  }

  function QtyOf(s: seq<Entry>, id: nat): nat {
    match Find(s, id) case Some(e) => e.qty case None => 0
  }

  lemma RestingAppend(s: seq<Entry>, e: Entry)
    ensures Resting(s + [e]) == Resting(s) + e.qty
  {
    assert (s + [e])[..|s|] == s;
  }

  lemma {:induction false} RestingWithout(s: seq<Entry>, id: nat)
    requires Distinct(s)
    ensures Resting(Without(s, id)) == Resting(s) - QtyOf(s, id)
  {
    if s != [] {
      var front, last := s[..|s| - 1], s[|s| - 1];
      RestingWithout(front, id);
      if last.id == id {
        assert !Has(front, id);
      } else {
        RestingAppend(Without(front, id), last);
      }
    }
  }

  lemma {:induction false} RestingEdit(s: seq<Entry>, id: nat, qty: nat)
    requires Distinct(s)
    ensures Resting(Edit(s, id, qty)) == Resting(s) + (if Has(s, id) then qty - QtyOf(s, id) else 0)
  {
    if s != [] {
      var front, last := s[..|s| - 1], s[|s| - 1];
      RestingEdit(front, id, qty);
      assert Edit(s, id, qty)[..|s| - 1] == Edit(front, id, qty);
      HasAppend(front, last, id);
      assert front + [last] == s;
      if last.id == id {
        assert !Has(front, id);
      }
    }
  }

  /** What one event adds, changes, executes and withdraws. */
  datatype Flow = Flow(added: int, replaced: int, executed: int, withdrawn: int)

  function FlowOf(s: seq<Entry>, r: OrderResponse): Flow {
    var known := Has(s, r.orderId);
    match r.execType
    case New => Flow(r.q, 0, 0, QtyOf(s, r.orderId))
    case Replaced => if known then Flow(0, r.q - QtyOf(s, r.orderId), 0, 0) else Flow(r.q, 0, 0, 0)
    case PartialFill => Flow(0, 0, r.q, 0)
    case Fill => Flow(0, 0, r.q, 0)
    case Cancelled => Flow(0, 0, 0, QtyOf(s, r.orderId))
    case _ => Flow(0, 0, 0, 0)
  }

  function Flows(rs: seq<OrderResponse>): Flow {
    if rs == [] then Flow(0, 0, 0, 0)
    else
      var f, g := Flows(rs[..|rs| - 1]), FlowOf(Book(rs[..|rs| - 1]), rs[|rs| - 1]);
      Flow(f.added + g.added, f.replaced + g.replaced, f.executed + g.executed, f.withdrawn + g.withdrawn)
  }

  lemma RestingAfter(s: seq<Entry>, r: OrderResponse)
    requires WellFormed(s) && Fits(s, r)
    ensures var f := FlowOf(s, r);
            Resting(Apply(s, ToL3(r))) == Resting(s) + f.added + f.replaced - f.executed - f.withdrawn
  {
    var id := r.orderId;
    var e := Entry(id, r.side, r.p, r.q);
    match r.execType
    case New =>
      RestingWithout(s, id);
      RestingAppend(Without(s, id), e);
    case Fill => RestingWithout(s, id);
    case Cancelled => RestingWithout(s, id);
    case PartialFill => RestingEdit(s, id, QtyOf(s, id) - r.q);
    case Replaced =>
      if Has(s, id) {
        RestingWithout(s, id);
        RestingAppend(Without(s, id), e);
        RestingEdit(s, id, r.q);
      } else {
        RestingAppend(s, e);
      }
    case _ =>
  }

  /** What rests is what was added and changed by replacing, less what was executed and withdrawn. */
  lemma {:induction false} RestingIsFlows(rs: seq<OrderResponse>)
    requires AllFit(rs)
    ensures Resting(Book(rs)) ==
            Flows(rs).added + Flows(rs).replaced - Flows(rs).executed - Flows(rs).withdrawn
  {
    if rs != [] {
      var front := rs[..|rs| - 1];
      AllFitFront(rs);
      RestingIsFlows(front);
      BookStep(rs);
      RunWellFormed(Messages(front));
      RestingAfter(Book(front), rs[|rs| - 1]);
    }
  }

  /** The quantity a fill took out of the book, signed by the side of the order it took it from. */
  function Consumed(s: seq<Entry>, r: OrderResponse): int {
    if A.Fills(r) && Has(s, r.orderId)
    then A.Sign(Find(s, r.orderId).value.side) * (Resting(s) - Resting(Apply(s, ToL3(r))))
    else 0
  }

  function ConsumedAll(rs: seq<OrderResponse>): int {
    if rs == [] then 0
    else ConsumedAll(rs[..|rs| - 1]) + Consumed(Book(rs[..|rs| - 1]), rs[|rs| - 1])
  }

  /** The client's position in the symbol is exactly the signed quantity the book has consumed. */
  lemma {:induction false} PositionIsConsumedQuantity(rs: seq<OrderResponse>, symbolId: nat)
    requires symbolId != 0 && AllFit(rs)
    requires forall i :: 0 <= i < |rs| ==> rs[i].symbolId == symbolId
    ensures A.Position(Client(rs).positions, symbolId) == ConsumedAll(rs)
  {
    if rs != [] {
      var front, last := rs[..|rs| - 1], rs[|rs| - 1];
      AllFitFront(rs);
      PositionIsConsumedQuantity(front, symbolId);
      BookStep(rs);
      RunWellFormed(Messages(front));
      RestingAfter(Book(front), last);
      A.FillAddsDelta(Client(front).positions, last, symbolId);
    }
  }

  lemma FindEdit(s: seq<Entry>, id: nat, qty: nat)
    requires Distinct(s) && Has(s, id)
    ensures QtyOf(Edit(s, id, qty), id) == qty
  {
    var i :| 0 <= i < |s| && s[i].id == id;
    var t := Edit(s, id, qty);
    assert t[i].id == id && t[i].qty == qty;
    var e := Find(t, id).value;
    var j :| 0 <= j < |t| && t[j] == e;
  }

  /** What a fitting partial fill leaves on both sides. */
  lemma PartiallyFilled(a: A.Account, s: seq<Entry>, r: OrderResponse)
    requires WellFormed(s) && Fits(s, r) && r.execType == PartialFill && A.DistinctIds(a.open)
    ensures A.FindOpen(A.HandleOrder(a, r).open, r.orderId) == Some(r)
    ensures QtyOf(Apply(s, ToL3(r)), r.orderId) == QtyOf(s, r.orderId) - r.q
  {
    A.UpsertFinds(a.open, r, r.orderId);
    FindEdit(s, r.orderId, QtyOf(s, r.orderId) - r.q);
  }

  /**
   The client's open-order quantity is not the resting quantity: a partial fill overwrites it with the
   filled quantity. The two agree after a partial fill exactly when it filled half of what was left.
   */
  lemma OpenQuantityAfterPartialFill(rs: seq<OrderResponse>, r: OrderResponse)
    requires AllFit(rs + [r]) && r.execType == PartialFill
    ensures A.FindOpen(Client(rs + [r]).open, r.orderId) == Some(r)
    ensures QtyOf(Book(rs + [r]), r.orderId) == QtyOf(Book(rs), r.orderId) - r.q
    ensures r.q == QtyOf(Book(rs + [r]), r.orderId) <==> 2 * r.q == QtyOf(Book(rs), r.orderId)
  {
    hide Apply, A.HandleOrder, A.FindOpen, AllFit;
    assert (rs + [r])[..|rs|] == rs;
    AllFitFront(rs + [r]);
    ClientDistinct(rs);
    BookStep(rs + [r]);
    RunWellFormed(Messages(rs));
    PartiallyFilled(Client(rs), Book(rs), r);
  }

  // ----- the quantity of an open order, over whole streams

  lemma FindAppend(s: seq<Entry>, e: Entry, id: nat)
    ensures Find(s + [e], id) == if e.id == id then Some(e) else Find(s, id)
  {
    assert (s + [e])[..|s|] == s;
  }

  lemma {:induction false} FindWithout(s: seq<Entry>, gone: nat, id: nat)
    requires id != gone
    ensures Find(Without(s, gone), id) == Find(s, id)
  {
    if s != [] {
      var front, last := s[..|s| - 1], s[|s| - 1];
      FindWithout(front, gone, id);
      if last.id != gone {
        FindAppend(Without(front, gone), last, id);
      }
    }
  }

  lemma {:induction false} FindEditOther(s: seq<Entry>, edited: nat, qty: nat, id: nat)
    requires id != edited
    ensures Find(Edit(s, edited, qty), id) == Find(s, id)
  {
    if s != [] {
      FindEditOther(s[..|s| - 1], edited, qty, id);
      assert Edit(s, edited, qty)[..|s| - 1] == Edit(s[..|s| - 1], edited, qty);
    }
  }

  /** An event about one order leaves every other order's quantity. */
  lemma QtyElsewhere(s: seq<Entry>, r: OrderResponse, id: nat)
    requires r.side != NoSide && id != r.orderId
    ensures QtyOf(Apply(s, ToL3(r)), id) == QtyOf(s, id)
  {
    hide Without, Edit, Find, Has;
    var e := Entry(r.orderId, r.side, r.p, r.q);
    FindWithout(s, r.orderId, id);
    FindAppend(Without(s, r.orderId), e, id);
    FindAppend(s, e, id);
    FindEditOther(s, r.orderId, r.q, id);
    match Find(s, r.orderId)
    case None =>
    case Some(e0) =>
      if e0.qty > r.q {
        FindEditOther(s, r.orderId, e0.qty - r.q, id);
      }
  }

  lemma FindRemoved(s: seq<Entry>, id: nat)
    ensures Find(Without(s, id), id) == None
  {
    WithoutMembers(s, id);
  }

  lemma QtyOfEdit(s: seq<Entry>, id: nat, qty: nat)
    requires WellFormed(s) && Find(s, id).Some?
    ensures QtyOf(Edit(s, id, qty), id) == qty
  {
    FindEdit(s, id, qty);
  }

  /** What rests of the order an event is about, if it goes on resting. */
  lemma QtyAfter(s: seq<Entry>, r: OrderResponse)
    requires WellFormed(s) && r.side != NoSide && KeepsIds(s, r)
    ensures QtyOf(Apply(s, ToL3(r)), r.orderId) ==
            match r.execType
            case New => r.q
            case Replaced => r.q
            case PartialFill => QtyOf(s, r.orderId) - r.q
            case Fill => 0
            case Cancelled => 0
            case _ => QtyOf(s, r.orderId)
  {
    hide Without, Edit, Find, Has, WellFormed;
    var id, e := r.orderId, Entry(r.orderId, r.side, r.p, r.q);
    FindAppend(Without(s, id), e, id);
    FindAppend(s, e, id);
    FindRemoved(s, id);
    match Find(s, id)
    case None =>
    case Some(e0) =>
      QtyOfEdit(s, id, r.q);
      if r.q < e0.qty {
        QtyOfEdit(s, id, e0.qty - r.q);
      }
  }

  /** The place of the last response about an order that was not ignored, or the length. */
  function LastAbout(rs: seq<OrderResponse>, id: nat): (k: nat)
    ensures k <= |rs| && (k < |rs| ==> rs[k].orderId == id && (A.Rests(rs[k]) || A.Closes(rs[k])))
  {
    if rs == [] then 0
    else
      var last := rs[|rs| - 1];
      if last.orderId == id && (A.Rests(last) || A.Closes(last)) then |rs| - 1
      else
        var k := LastAbout(rs[..|rs| - 1], id);
        if k == |rs| - 1 then |rs| else k
  }

  /** The quantity that rests after a response about the order, given what rested before it. */
  function RestsAfter(r: OrderResponse, before: int): int {
    match r.execType
    case PartialFill => before - r.q
    case OrderStatus => before
    case _ => r.q
  }

  lemma AllKeepIdsFront(rs: seq<OrderResponse>)
    requires rs != [] && AllKeepIds(rs)
    ensures AllKeepIds(rs[..|rs| - 1]) && KeepsIds(Book(rs[..|rs| - 1]), rs[|rs| - 1])
  {
    AllKeepIdsNext(rs);
  }

  lemma FindOpenStays(a: A.Account, r: OrderResponse, id: nat)
    requires A.DistinctIds(a.open) && !(r.orderId == id && (A.Rests(r) || A.Closes(r)))
    ensures A.FindOpen(A.HandleOrder(a, r).open, id) == A.FindOpen(a.open, id)
  {
    hide A.FindOpen, A.DistinctIds, A.Upsert, A.Erase;
    A.UpsertFinds(a.open, r, id);
    A.EraseFinds(a.open, r.orderId, id);
  }

  lemma FindOpenAfter(a: A.Account, r: OrderResponse)
    requires A.DistinctIds(a.open) && (A.Rests(r) || A.Closes(r))
    ensures A.FindOpen(A.HandleOrder(a, r).open, r.orderId) == if A.Rests(r) then Some(r) else None
  {
    hide A.FindOpen, A.DistinctIds, A.Upsert, A.Erase;
    A.UpsertFinds(a.open, r, r.orderId);
    A.EraseFinds(a.open, r.orderId, r.orderId);
  }

  /** The open order is its last response, and what rests is what that response left. */
  predicate OpenAsOf(rs: seq<OrderResponse>, id: nat) {
    var k := LastAbout(rs, id);
    && k < |rs| && A.Rests(rs[k]) && A.FindOpen(Client(rs).open, id) == Some(rs[k])
    && QtyOf(Book(rs), id) == RestsAfter(rs[k], QtyOf(Book(rs[..k]), id))
  }

  lemma QtyStays(s: seq<Entry>, r: OrderResponse, id: nat)
    requires WellFormed(s) && r.side != NoSide && KeepsIds(s, r)
    requires !(r.orderId == id && (A.Rests(r) || A.Closes(r)))
    ensures QtyOf(Apply(s, ToL3(r)), id) == QtyOf(s, id)
  {
    if r.orderId == id {
      QtyAfter(s, r);
    } else {
      QtyElsewhere(s, r, id);
    }
  }

  lemma ClientStep(rs: seq<OrderResponse>)
    requires rs != []
    ensures Client(rs) == A.HandleOrder(Client(rs[..|rs| - 1]), rs[|rs| - 1])
  {
  }

  lemma BookWellFormed(rs: seq<OrderResponse>)
    ensures WellFormed(Book(rs))
  {
    RunWellFormed(Messages(rs));
  }

  /** The last response is about the order. */
  lemma OpenAsOfLast(rs: seq<OrderResponse>, id: nat)
    requires rs != [] && AllKeepIds(rs) && rs[|rs| - 1].side != NoSide
    requires rs[|rs| - 1].orderId == id && (A.Rests(rs[|rs| - 1]) || A.Closes(rs[|rs| - 1]))
    ensures A.FindOpen(Client(rs).open, id).Some? ==> OpenAsOf(rs, id)
  {
    hide Apply, A.HandleOrder, A.FindOpen, KeepsIds, AllKeepIds, QtyOf, WellFormed, A.DistinctIds, Book, Client;
    var front, last := rs[..|rs| - 1], rs[|rs| - 1];
    AllKeepIdsFront(rs);
    BookStep(rs);
    ClientStep(rs);
    BookWellFormed(front);
    ClientDistinct(front);
    FindOpenAfter(Client(front), last);
    QtyAfter(Book(front), last);
  }

  /** The last response is not about the order, and changes nothing of it. */
  lemma OpenAsOfEarlier(rs: seq<OrderResponse>, id: nat)
    requires rs != [] && AllKeepIds(rs) && rs[|rs| - 1].side != NoSide
    requires !(rs[|rs| - 1].orderId == id && (A.Rests(rs[|rs| - 1]) || A.Closes(rs[|rs| - 1])))
    requires A.FindOpen(Client(rs[..|rs| - 1]).open, id).Some? ==> OpenAsOf(rs[..|rs| - 1], id)
    ensures A.FindOpen(Client(rs).open, id).Some? ==> OpenAsOf(rs, id)
  {
    hide Apply, A.HandleOrder, A.FindOpen, KeepsIds, AllKeepIds, QtyOf, WellFormed, A.DistinctIds, Book, Client;
    var front, last := rs[..|rs| - 1], rs[|rs| - 1];
    AllKeepIdsFront(rs);
    BookStep(rs);
    ClientStep(rs);
    BookWellFormed(front);
    ClientDistinct(front);
    FindOpenStays(Client(front), last, id);
    QtyStays(Book(front), last, id);
    var k := LastAbout(front, id);
    assert k < |front| ==> front[..k] == rs[..k] && front[k] == rs[k];
  }

  lemma {:induction false} OpenIsLastResponse(rs: seq<OrderResponse>, id: nat)
    requires AllKeepIds(rs) && forall i :: 0 <= i < |rs| ==> rs[i].side != NoSide
    ensures A.FindOpen(Client(rs).open, id).Some? ==> OpenAsOf(rs, id)
  {
    if rs != [] {
      hide A.FindOpen, AllKeepIds, OpenAsOf, Client;
      var front, last := rs[..|rs| - 1], rs[|rs| - 1];
      AllKeepIdsFront(rs);
      OpenIsLastResponse(front, id);
      if last.orderId == id && (A.Rests(last) || A.Closes(last)) {
        OpenAsOfLast(rs, id);
      } else {
        OpenAsOfEarlier(rs, id);
      }
    }
  }

  /**
   Over every stream that keeps the ids in agreement, an open order shows the quantity that rests exactly if
   its last response placed or replaced it, was a partial fill of half of what was left, or was a status with
   the resting quantity.
   */
  lemma OpenQuantityIsRestingIff(rs: seq<OrderResponse>, id: nat)
    requires AllKeepIds(rs) && forall i :: 0 <= i < |rs| ==> rs[i].side != NoSide
    requires A.FindOpen(Client(rs).open, id).Some?
    ensures var k := LastAbout(rs, id);
            && k < |rs| && A.FindOpen(Client(rs).open, id) == Some(rs[k])
            && (rs[k].q == QtyOf(Book(rs), id) <==>
                match rs[k].execType
                case PartialFill => 2 * rs[k].q == QtyOf(Book(rs[..k]), id)
                case OrderStatus => rs[k].q == QtyOf(Book(rs[..k]), id)
                case _ => true)
  {
    hide Book, QtyOf, A.FindOpen, AllKeepIds;
    OpenIsLastResponse(rs, id);
  }
}
