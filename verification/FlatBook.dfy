/**
 The reference the order book is measured against: one list of resting orders, in order of entry,
 with no price levels and no handles.
 */
module FlatBook {
  import opened Types

  datatype Entry = Entry(id: nat, side: Side, price: int, qty: nat)

  predicate Distinct(s: seq<Entry>) {
    forall i, j :: 0 <= i < j < |s| ==> s[i].id != s[j].id
  }

  predicate Sided(s: seq<Entry>) {
    forall i :: 0 <= i < |s| ==> s[i].side != NoSide
  }

  predicate WellFormed(s: seq<Entry>) {
    Distinct(s) && Sided(s)
  }

  predicate Has(s: seq<Entry>, id: nat) {
    exists i :: 0 <= i < |s| && s[i].id == id
  }

  /** The entry with the given id, if there is one. */
  function Find(s: seq<Entry>, id: nat): (r: Option<Entry>)
    ensures r.Some? <==> Has(s, id)
    ensures r.Some? ==> r.value in s && r.value.id == id
  {
    if s == [] then None
    else if s[|s| - 1].id == id then Some(s[|s| - 1])
    else
      assert forall i :: 0 <= i < |s| - 1 ==> s[..|s| - 1][i] == s[i];
      Find(s[..|s| - 1], id)
  }

  /** The list without the entries of one id. */
  function Without(s: seq<Entry>, id: nat): seq<Entry> {
    if s == [] then []
    else
      var r := Without(s[..|s| - 1], id);
      if s[|s| - 1].id == id then r else r + [s[|s| - 1]]
  }

  /** The list with one id's quantity replaced in place. */
  function Edit(s: seq<Entry>, id: nat, qty: nat): seq<Entry> {
    seq(|s|, i requires 0 <= i < |s| => if s[i].id == id then s[i].(qty := qty) else s[i])
  }

  /** What one message of the feed does to the list. */
  function Apply(s: seq<Entry>, m: L3Message): seq<Entry> {
    if m.side == NoSide then []
    else
      var entry := Entry(m.orderId, m.side, m.price, m.qty);
      match m.execType
      case New => Without(s, m.orderId) + [entry]
      case Fill => Without(s, m.orderId)
      case Cancelled => Without(s, m.orderId)
      case PartialFill => (
        match Find(s, m.orderId)
        case None => s
        case Some(e) => if e.qty > m.qty then Edit(s, m.orderId, e.qty - m.qty) else Without(s, m.orderId)
      )
      case Replaced => (
        match Find(s, m.orderId)
        case Some(e) =>
          if e.price != m.price || e.side != m.side then Without(s, m.orderId) + [entry]
          else Edit(s, m.orderId, m.qty)
        case None => s + [entry]
      )
      case _ => s
  }

  /** A stream of messages applied to a list that is already there. */
  function RunFrom(s: seq<Entry>, ms: seq<L3Message>): seq<Entry> {
    if ms == [] then s else Apply(RunFrom(s, ms[..|ms| - 1]), ms[|ms| - 1])
  }

  /** A whole stream of messages, starting from the empty list. */
  function Run(ms: seq<L3Message>): seq<Entry> {
    RunFrom([], ms)
  }

  /** The ids resting at one price level, oldest first. */
  function Queue(s: seq<Entry>, side: Side, price: int): seq<nat> {
    if s == [] then []
    else
      var e := s[|s| - 1];
      var r := Queue(s[..|s| - 1], side, price);
      if e.side == side && e.price == price then r + [e.id] else r
  }

  /** The quantity resting at one price level. */
  function Total(s: seq<Entry>, side: Side, price: int): nat {
    if s == [] then 0
    else
      var e := s[|s| - 1];
      Total(s[..|s| - 1], side, price) + (if e.side == side && e.price == price then e.qty else 0)
  }

  /** A list of numbers without one value. */
  function Minus(q: seq<nat>, id: nat): seq<nat> {
    if q == [] then []
    else
      var r := Minus(q[..|q| - 1], id);
      if q[|q| - 1] == id then r else r + [q[|q| - 1]]
  }

  // ----- appending

  lemma AppendLemma(s: seq<Entry>, e: Entry, side: Side, price: int)
    ensures Queue(s + [e], side, price)
         == Queue(s, side, price) + (if e.side == side && e.price == price then [e.id] else [])
    ensures Total(s + [e], side, price)
         == Total(s, side, price) + (if e.side == side && e.price == price then e.qty else 0)
  {
    assert (s + [e])[..|s|] == s;
  }

  // ----- removing

  lemma {:induction false} WithoutMembers(s: seq<Entry>, id: nat)
    ensures !Has(Without(s, id), id)
    ensures forall e :: e in Without(s, id) <==> e in s && e.id != id
    ensures !Has(s, id) ==> Without(s, id) == s
  {
    if s != [] {
      var front, last := s[..|s| - 1], s[|s| - 1];
      WithoutMembers(front, id);
      assert s == front + [last];
      assert forall e :: e in s <==> e in front || e == last;
      assert forall i :: 0 <= i < |front| ==> front[i] == s[i];
    }
  }

  lemma {:induction false} WithoutWellFormed(s: seq<Entry>, id: nat)
    requires WellFormed(s)
    ensures WellFormed(Without(s, id))
  {
    if s != [] {
      var front, last := s[..|s| - 1], s[|s| - 1];
      WithoutWellFormed(front, id);
      WithoutMembers(front, id);
      var r := Without(front, id);
      forall i | 0 <= i < |r| ensures r[i].id != last.id {
        assert r[i] in front;
      }
    }
  }

  lemma {:induction false} QueueWithout(s: seq<Entry>, id: nat, side: Side, price: int)
    ensures Queue(Without(s, id), side, price) == Minus(Queue(s, side, price), id)
  {
    if s != [] {
      var front, last := s[..|s| - 1], s[|s| - 1];
      QueueWithout(front, id, side, price);
      if last.id != id {
        AppendLemma(Without(front, id), last, side, price);
      }
      var q := Queue(front, side, price);
      assert (q + [last.id])[..|q|] == q;
    }
  }

  lemma {:induction false} MinusAbsent(q: seq<nat>, id: nat)
    requires id !in q
    ensures Minus(q, id) == q
  {
    if q != [] {
      MinusAbsent(q[..|q| - 1], id);
    }
  }

  lemma {:induction false} MinusAt(q: seq<nat>, k: nat)
    requires k < |q| && forall i, j :: 0 <= i < j < |q| ==> q[i] != q[j]
    ensures Minus(q, q[k]) == q[..k] + q[k + 1..]
  {
    var front, last := q[..|q| - 1], q[|q| - 1];
    if k == |q| - 1 {
      MinusAbsent(front, last);
    } else {
      MinusAt(front, k);
      assert q[k + 1..] == front[k + 1..] + [last];
    }
  }

  // ----- editing in place

  lemma {:induction false} EditQueue(s: seq<Entry>, id: nat, qty: nat, side: Side, price: int)
    ensures Queue(Edit(s, id, qty), side, price) == Queue(s, side, price)
  {
    if s != [] {
      EditQueue(s[..|s| - 1], id, qty, side, price);
      assert Edit(s, id, qty)[..|s| - 1] == Edit(s[..|s| - 1], id, qty);
    }
  }

  // ----- what a queue contains

  lemma {:induction false} QueueMembers(s: seq<Entry>, side: Side, price: int)
    ensures forall id :: id in Queue(s, side, price)
              <==> exists i :: 0 <= i < |s| && s[i].id == id && s[i].side == side && s[i].price == price
  {
    if s != [] {
      var front, last := s[..|s| - 1], s[|s| - 1];
      QueueMembers(front, side, price);
      forall id
        ensures id in Queue(s, side, price)
           <==> exists i :: 0 <= i < |s| && s[i].id == id && s[i].side == side && s[i].price == price
      {
        if i :| 0 <= i < |s| && s[i].id == id && s[i].side == side && s[i].price == price {
          assert i < |front| ==> front[i] == s[i];
        }
      }
    }
  }

  lemma {:induction false} QueueDistinct(s: seq<Entry>, side: Side, price: int)
    requires Distinct(s)
    ensures forall i, j :: 0 <= i < j < |Queue(s, side, price)|
              ==> Queue(s, side, price)[i] != Queue(s, side, price)[j]
  {
    if s != [] {
      var front, last := s[..|s| - 1], s[|s| - 1];
      QueueDistinct(front, side, price);
      QueueMembers(front, side, price);
      var q := Queue(front, side, price);
      forall i | 0 <= i < |q| ensures q[i] != last.id {
        assert q[i] in q;
        var k :| 0 <= k < |front| && front[k].id == q[i];
        assert s[k].id == q[i];
      }
    }
  }

  // ----- the invariant of the list

  lemma AppendWellFormed(s: seq<Entry>, e: Entry)
    ensures WellFormed(s) && !Has(s, e.id) && e.side != NoSide ==> WellFormed(s + [e])
  {
  }

  lemma EditWellFormed(s: seq<Entry>, id: nat, qty: nat)
    requires WellFormed(s)
    ensures WellFormed(Edit(s, id, qty))
  {
    var t := Edit(s, id, qty);
    assert forall i :: 0 <= i < |s| ==> t[i].id == s[i].id && t[i].side == s[i].side;
  }

  lemma NothingWellFormed()
    ensures WellFormed([])
  {
  }

  lemma ApplyKeepsWellFormed(s: seq<Entry>, m: L3Message)
    requires WellFormed(s)
    ensures WellFormed(Apply(s, m))
  {
    hide WellFormed, Without, Edit, Has;
    var id := m.orderId;
    WithoutMembers(s, id);
    WithoutWellFormed(s, id);
    AppendWellFormed(Without(s, id), Entry(id, m.side, m.price, m.qty));
    AppendWellFormed(s, Entry(id, m.side, m.price, m.qty));
    EditWellFormed(s, id, m.qty);
    if Find(s, id).Some? && Find(s, id).value.qty > m.qty {
      EditWellFormed(s, id, Find(s, id).value.qty - m.qty);
    }
    NothingWellFormed();
  }

  lemma {:induction false} RunWellFormed(ms: seq<L3Message>)
    ensures WellFormed(Run(ms))
  {
    if ms != [] {
      RunWellFormed(ms[..|ms| - 1]);
      ApplyKeepsWellFormed(Run(ms[..|ms| - 1]), ms[|ms| - 1]);
    }
  }

  // ----- time of entry

  /** The message makes its order join the back of a level. */
  predicate Enters(s: seq<Entry>, m: L3Message) {
    && m.side != NoSide
    && (m.execType == New
        || (m.execType == Replaced
            && match Find(s, m.orderId)
               case None => true
               case Some(e) => e.price != m.price || e.side != m.side))
  }

  /** The index of the last message of the stream that made an id join a level, or -1. */
  function EnteredAt(ms: seq<L3Message>, id: nat): int {
    if ms == [] then -1
    else
      var front, last := ms[..|ms| - 1], ms[|ms| - 1];
      if last.orderId == id && Enters(Run(front), last) then |front| else EnteredAt(front, id)
  }

  ghost predicate InOrder(s: seq<Entry>, time: nat -> int) {
    forall i, j :: 0 <= i < j < |s| ==> time(s[i].id) < time(s[j].id)
  }

  lemma {:induction false} WithoutInOrder(s: seq<Entry>, id: nat, time: nat -> int)
    requires InOrder(s, time)
    ensures InOrder(Without(s, id), time)
  {
    if s != [] {
      var front, last := s[..|s| - 1], s[|s| - 1];
      WithoutInOrder(front, id, time);
      WithoutMembers(front, id);
      var w := Without(front, id);
      forall i | 0 <= i < |w| ensures time(w[i].id) < time(last.id) {
        assert w[i] in front;
      }
    }
  }

  lemma WithoutTimes(s: seq<Entry>, id: nat, time: nat -> int, now: nat)
    requires forall i :: 0 <= i < |s| ==> 0 <= time(s[i].id) < now
    ensures forall i :: 0 <= i < |Without(s, id)| ==>
              Without(s, id)[i].id != id && 0 <= time(Without(s, id)[i].id) < now
  {
    WithoutMembers(s, id);
    var w := Without(s, id);
    forall i | 0 <= i < |w| ensures w[i].id != id && 0 <= time(w[i].id) < now {
      assert w[i] in w;
      var k :| 0 <= k < |s| && s[k] == w[i];
    }
  }

  lemma EnteringAppends(s: seq<Entry>, m: L3Message)
    requires Enters(s, m)
    ensures Apply(s, m) == Without(s, m.orderId) + [Entry(m.orderId, m.side, m.price, m.qty)]
  {
    WithoutMembers(s, m.orderId);
  }

  /** One message, at a time `now` after all others, leaves the list in order of entry. */
  lemma ApplyInOrder(s: seq<Entry>, m: L3Message, time: nat -> int, time': nat -> int, now: nat)
    requires InOrder(s, time) && forall i :: 0 <= i < |s| ==> 0 <= time(s[i].id) < now
    requires forall id :: time'(id) == if id == m.orderId && Enters(s, m) then now else time(id)
    ensures InOrder(Apply(s, m), time')
    ensures forall i :: 0 <= i < |Apply(s, m)| ==> 0 <= time'(Apply(s, m)[i].id) <= now
  {
    var w := Without(s, m.orderId);
    WithoutInOrder(s, m.orderId, time);
    WithoutTimes(s, m.orderId, time, now);
    if Enters(s, m) {
      EnteringAppends(s, m);
    } else {
      var t := Apply(s, m);
      assert t == [] || t == w || (|t| == |s| && forall i :: 0 <= i < |s| ==> t[i].id == s[i].id);
    }
  }

  /** The list is in order of entry: each order joined its level before those behind it did. */
  lemma {:induction false} RunInOrder(ms: seq<L3Message>)
    ensures InOrder(Run(ms), (id: nat) => EnteredAt(ms, id))
    ensures forall i :: 0 <= i < |Run(ms)| ==> 0 <= EnteredAt(ms, Run(ms)[i].id) < |ms|
  {
    if ms != [] {
      var front := ms[..|ms| - 1];
      RunInOrder(front);
      ApplyInOrder(Run(front), ms[|ms| - 1],
                   (id: nat) => EnteredAt(front, id), (id: nat) => EnteredAt(ms, id), |front|);
    }
  }

  lemma {:induction false} QueueInOrder(s: seq<Entry>, side: Side, price: int, time: nat -> int)
    requires InOrder(s, time)
    ensures forall i, j :: 0 <= i < j < |Queue(s, side, price)| ==>
              time(Queue(s, side, price)[i]) < time(Queue(s, side, price)[j])
  {
    if s != [] {
      var front, last := s[..|s| - 1], s[|s| - 1];
      QueueInOrder(front, side, price, time);
      QueueMembers(front, side, price);
      var q := Queue(front, side, price);
      forall i | 0 <= i < |q| ensures time(q[i]) < time(last.id) {
        assert q[i] in q;
        var k :| 0 <= k < |front| && front[k].id == q[i];
        assert s[k].id == q[i];
      }
    }
  }

  /** Every level's queue stays first in, first out, over every stream of messages. */
  lemma QueuesFirstInFirstOut(ms: seq<L3Message>, side: Side, price: int)
    ensures var q := Queue(Run(ms), side, price);
            forall i, j :: 0 <= i < j < |q| ==> 0 <= EnteredAt(ms, q[i]) < EnteredAt(ms, q[j]) < |ms|
  {
    RunInOrder(ms);
    QueueInOrder(Run(ms), side, price, (id: nat) => EnteredAt(ms, id));
    QueueMembers(Run(ms), side, price);
    var q := Queue(Run(ms), side, price);
    forall i | 0 <= i < |q| ensures 0 <= EnteredAt(ms, q[i]) < |ms| {
      assert q[i] in q;
      var k :| 0 <= k < |Run(ms)| && Run(ms)[k].id == q[i];
    }
  }
}
