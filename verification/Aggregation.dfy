/**
 Level-3 to level-2: if every level-3 message is followed by the new totals of the levels it touched, the
 level-2 book is at all times the per-level sum of the level-3 book.
 */
module Aggregation {
  import opened Types
  import opened FlatBook
  import L2 = L2BookModule

  predicate AddsOrder(m: L3Message) {
    m.execType == New || m.execType == Replaced
  }

  /** The at most two levels a message touches: the one its order rested on, and the one it names. */
  function Touched(s: seq<Entry>, m: L3Message): seq<(Side, int)> {
    (match Find(s, m.orderId) case Some(e) => [(e.side, e.price)] case None => [])
    + (if AddsOrder(m) then [(m.side, m.price)] else [])
  }

  /** Forward the totals that the levels have in `s`, one after the other. */
  function Forward(l: L2.Levels, s: seq<Entry>, levels: seq<(Side, int)>): L2.Levels
    decreases levels
  {
    if levels == [] then l
    else
      var (side, price) := levels[0];
      Forward(L2.Apply(l, side, price, Total(s, side, price)), s, levels[1..])
  }

  /** The level-2 messages that follow one level-3 message; a snapshot start is passed on as such. */
  function Relay(l: L2.Levels, s: seq<Entry>, m: L3Message): L2.Levels {
    if m.side == NoSide then L2.Apply(l, NoSide, 0, 0)
    else Forward(l, Apply(s, m), Touched(s, m))
  }

  /** Both books fed with the same stream. */
  function RelayRun(ms: seq<L3Message>): L2.Levels {
    if ms == [] then L2.EMPTY
    else
      var front, last := ms[..|ms| - 1], ms[|ms| - 1];
      Relay(RelayRun(front), Run(front), last)
  }

  ghost predicate Agree(l: L2.Levels, s: seq<Entry>) {
    l.NoZero() && forall side, price :: side != NoSide ==> l.At(side, price) == Total(s, side, price)
  }

  // ----- totals of changed lists

  lemma {:induction false} TotalWithout(s: seq<Entry>, id: nat, side: Side, price: int)
    requires Distinct(s)
    ensures Total(Without(s, id), side, price) ==
            Total(s, side, price) -
            match Find(s, id)
            case None => 0
            case Some(e) => if e.side == side && e.price == price then e.qty else 0
  {
    if s != [] {
      var front, last := s[..|s| - 1], s[|s| - 1];
      TotalWithout(front, id, side, price);
      if last.id == id {
        assert !Has(front, id);
      } else {
        AppendLemma(Without(front, id), last, side, price);
      }
    }
  }

  lemma {:induction false} TotalEditElsewhere(s: seq<Entry>, id: nat, qty: nat, side: Side, price: int)
    requires forall i :: 0 <= i < |s| && s[i].id == id ==> s[i].side != side || s[i].price != price
    ensures Total(Edit(s, id, qty), side, price) == Total(s, side, price)
  {
    if s != [] {
      TotalEditElsewhere(s[..|s| - 1], id, qty, side, price);
      assert Edit(s, id, qty)[..|s| - 1] == Edit(s[..|s| - 1], id, qty);
    }
  }

  lemma UniqueEntry(s: seq<Entry>, id: nat)
    requires Distinct(s) && Find(s, id).Some?
    ensures forall i :: 0 <= i < |s| && s[i].id == id ==> s[i] == Find(s, id).value
  {
    var k :| 0 <= k < |s| && s[k] == Find(s, id).value;
  }

  /** The order, if there is one, rests on another level. */
  predicate RestsElsewhere(s: seq<Entry>, id: nat, side: Side, price: int) {
    match Find(s, id) case None => true case Some(e) => e.side != side || e.price != price
  }

  lemma UntouchedByMove(s: seq<Entry>, m: L3Message, side: Side, price: int)
    requires Distinct(s) && (m.side != side || m.price != price)
    requires RestsElsewhere(s, m.orderId, side, price)
    ensures Total(Without(s, m.orderId) + [Entry(m.orderId, m.side, m.price, m.qty)], side, price)
            == Total(s, side, price)
    ensures Find(s, m.orderId).None? ==> Without(s, m.orderId) == s
  {
    TotalWithout(s, m.orderId, side, price);
    WithoutMembers(s, m.orderId);
    AppendLemma(Without(s, m.orderId), Entry(m.orderId, m.side, m.price, m.qty), side, price);
  }

  lemma UntouchedByEdit(s: seq<Entry>, id: nat, qty: nat, side: Side, price: int)
    requires Distinct(s)
    requires RestsElsewhere(s, id, side, price)
    ensures Find(s, id).Some? ==> Total(Edit(s, id, qty), side, price) == Total(s, side, price)
  {
    hide Total, Edit;
    if Find(s, id).Some? {
      UniqueEntry(s, id);
      TotalEditElsewhere(s, id, qty, side, price);
    }
  }

  lemma NotTouched(s: seq<Entry>, m: L3Message, side: Side, price: int)
    requires (side, price) !in Touched(s, m)
    ensures RestsElsewhere(s, m.orderId, side, price)
    ensures AddsOrder(m) ==> m.side != side || m.price != price
  {
    var touched := Touched(s, m);
    assert Find(s, m.orderId).Some? ==> touched[0] in touched;
    assert AddsOrder(m) ==> touched[|touched| - 1] in touched;
  }

  lemma UntouchedByPartialFill(s: seq<Entry>, m: L3Message, side: Side, price: int)
    requires Distinct(s) && m.side != NoSide && m.execType == PartialFill
    requires RestsElsewhere(s, m.orderId, side, price)
    ensures Total(Apply(s, m), side, price) == Total(s, side, price)
  {
    hide Find, Without, Edit, Total;
    match Find(s, m.orderId)
    case None =>
    case Some(e) =>
      TotalWithout(s, m.orderId, side, price);
      if e.qty > m.qty {
        UntouchedByEdit(s, m.orderId, e.qty - m.qty, side, price);
      }
  }

  lemma UntouchedByReplaced(s: seq<Entry>, m: L3Message, side: Side, price: int)
    requires Distinct(s) && m.side != NoSide && m.execType == Replaced
    requires RestsElsewhere(s, m.orderId, side, price) && (m.side != side || m.price != price)
    ensures Total(Apply(s, m), side, price) == Total(s, side, price)
  {
    hide Find, Without, Edit, Total;
    UntouchedByMove(s, m, side, price);
    UntouchedByEdit(s, m.orderId, m.qty, side, price);
  }

  lemma UntouchedByOthers(s: seq<Entry>, m: L3Message, side: Side, price: int)
    requires Distinct(s) && m.side != NoSide && m.execType != PartialFill && m.execType != Replaced
    requires RestsElsewhere(s, m.orderId, side, price)
    requires m.execType == New ==> m.side != side || m.price != price
    ensures Total(Apply(s, m), side, price) == Total(s, side, price)
  {
    hide Find, Without, Edit, Total;
    if m.execType == New {
      UntouchedByMove(s, m, side, price);
    } else {
      TotalWithout(s, m.orderId, side, price);
    }
  }

  /** A message leaves the total of every level it does not touch as it was. */
  lemma UntouchedTotal(s: seq<Entry>, m: L3Message, side: Side, price: int)
    requires WellFormed(s) && m.side != NoSide && (side, price) !in Touched(s, m)
    ensures Total(Apply(s, m), side, price) == Total(s, side, price)
  {
    hide Apply, Touched, Find, Total, RestsElsewhere;
    NotTouched(s, m, side, price);
    if m.execType == PartialFill {
      UntouchedByPartialFill(s, m, side, price);
    } else if m.execType == Replaced {
      UntouchedByReplaced(s, m, side, price);
    } else {
      UntouchedByOthers(s, m, side, price);
    }
  }

  // ----- what forwarding does to the level-2 book

  lemma {:induction false} ForwardSets(l: L2.Levels, s: seq<Entry>, levels: seq<(Side, int)>)
    requires l.NoZero() && forall i :: 0 <= i < |levels| ==> levels[i].0 != NoSide
    ensures Forward(l, s, levels).NoZero()
    ensures forall side, price ::
              Forward(l, s, levels).At(side, price)
              == if (side, price) in levels then Total(s, side, price) else l.At(side, price)
    decreases levels
  {
    if levels != [] {
      var (side, price) := levels[0];
      L2.ApplySetsOneLevel(l, side, price, Total(s, side, price));
      ForwardSets(L2.Apply(l, side, price, Total(s, side, price)), s, levels[1..]);
      assert forall x :: x in levels <==> x == levels[0] || x in levels[1..];
    }
  }

  /** One message, relayed, keeps the two books in agreement. */
  lemma RelayKeepsAgreement(l: L2.Levels, s: seq<Entry>, m: L3Message)
    requires WellFormed(s) && Agree(l, s)
    ensures Agree(Relay(l, s, m), Apply(s, m))
  {
    if m.side != NoSide {
      var s', touched := Apply(s, m), Touched(s, m);
      forall i | 0 <= i < |touched| ensures touched[i].0 != NoSide {
        if Find(s, m.orderId).Some? && i == 0 {
          var k :| 0 <= k < |s| && s[k] == Find(s, m.orderId).value;
        }
      }
      ForwardSets(l, s', touched);
      forall side, price | side != NoSide
        ensures Relay(l, s, m).At(side, price) == Total(s', side, price)
      {
        if (side, price) !in touched {
          UntouchedTotal(s, m, side, price);
        }
      }
    }
  }

  /** Over every stream, the level-2 book holds the per-level sums of the resting quantities. */
  lemma {:induction false} RelayRunAgrees(ms: seq<L3Message>)
    ensures Agree(RelayRun(ms), Run(ms))
  {
    if ms != [] {
      var front := ms[..|ms| - 1];
      RelayRunAgrees(front);
      RunWellFormed(front);
      RelayKeepsAgreement(RelayRun(front), Run(front), ms[|ms| - 1]);
    }
  }

  // ----- which levels are listed

  ghost predicate Positive(s: seq<Entry>) {
    forall i :: 0 <= i < |s| ==> s[i].qty > 0
  }

  /** A message that sets a resting quantity sets a positive one. */
  predicate AddsPositive(m: L3Message) {
    AddsOrder(m) && m.side != NoSide ==> m.qty > 0
  }

  lemma {:induction false} TotalOfPositive(s: seq<Entry>, side: Side, price: int)
    requires Positive(s)
    ensures Total(s, side, price) > 0 <==> Queue(s, side, price) != []
  {
    if s != [] {
      TotalOfPositive(s[..|s| - 1], side, price);
    }
  }

  lemma WithoutPositive(s: seq<Entry>, id: nat)
    requires Positive(s)
    ensures Positive(Without(s, id))
  {
    WithoutMembers(s, id);
    var w := Without(s, id);
    forall i | 0 <= i < |w| ensures w[i].qty > 0 {
      assert w[i] in s;
    }
  }

  lemma ApplyKeepsPositive(s: seq<Entry>, m: L3Message)
    requires Positive(s) && AddsPositive(m)
    ensures Positive(Apply(s, m))
  {
    WithoutPositive(s, m.orderId);
  }

  lemma {:induction false} RunPositive(ms: seq<L3Message>)
    requires forall i :: 0 <= i < |ms| ==> AddsPositive(ms[i])
    ensures Positive(Run(ms))
  {
    if ms != [] {
      RunPositive(ms[..|ms| - 1]);
      ApplyKeepsPositive(Run(ms[..|ms| - 1]), ms[|ms| - 1]);
    }
  }

  /** With positive quantities the two books also list exactly the same levels. */
  lemma RelayRunListsSameLevels(ms: seq<L3Message>, side: Side, price: int)
    requires forall i :: 0 <= i < |ms| ==> AddsPositive(ms[i])
    requires side != NoSide
    ensures RelayRun(ms).Lists(side, price) <==> Queue(Run(ms), side, price) != []
  {
    RelayRunAgrees(ms);
    RunPositive(ms);
    TotalOfPositive(Run(ms), side, price);
    assert RelayRun(ms).At(side, price) == Total(Run(ms), side, price);
  }
}
