/**
 The order-by-order replica of the exchange's book: an id-to-order map, two price-to-queue maps, and in
 every order a handle to its place in its queue. The queues are circular doubly linked lists with a
 sentinel, as std::list is, so that a handle is a node and an erase touches only its two neighbours.
 */
module L3BookModule {
  import opened Types
  import opened FlatBook

  /** A list node. `side` and `price` say which level it was made for. */
  class Node {
    const id: nat
    ghost const side: Side
    ghost const price: int
    var prev: Node
    var next: Node

    constructor (id: nat, ghost side: Side, ghost price: int)
      ensures this.id == id && this.side == side && this.price == price
      ensures prev == this && next == this
    {
      this.id, this.side, this.price := id, side, price;
      prev, next := this, this;
    }
  }

  /** The ids carried by a row of nodes. */
  ghost function IdsOf(nodes: seq<Node>): seq<nat> {
    seq(|nodes|, i requires 0 <= i < |nodes| => nodes[i].id)
  }

  /** One price level's queue. `ring` is the sentinel followed by the queued nodes. */
  class OrderList {
    ghost const side: Side
    ghost const price: int
    const sentinel: Node
    ghost var ring: seq<Node>

    ghost predicate Valid()
      reads this, ring
    {
      && |ring| >= 1
      && ring[0] == sentinel
      && (forall i :: 0 <= i < |ring| ==> ring[i].side == side && ring[i].price == price)
      && (forall i, j :: 0 <= i < j < |ring| ==> ring[i] != ring[j])
      && (forall i {:trigger ring[i].next} :: 0 <= i < |ring| - 1 ==> ring[i].next == ring[i + 1])
      && (forall i {:trigger ring[i].prev} :: 1 <= i < |ring| ==> ring[i].prev == ring[i - 1])
      && ring[|ring| - 1].next == sentinel
      && sentinel.prev == ring[|ring| - 1]
    }

    ghost function Ids(): seq<nat>
      requires |ring| >= 1
      reads this
    {
      IdsOf(ring[1..])
    }

    constructor (ghost side: Side, ghost price: int)
      ensures Valid() && this.side == side && this.price == price
      ensures ring == [sentinel] && fresh(sentinel)
    {
      var node := new Node(0, side, price);
      this.side, this.price := side, price;
      sentinel := node;
      ring := [node];
    }

    predicate Empty()
      requires Valid()
      reads this, ring
      ensures Empty() <==> |ring| == 1
    {
      sentinel.next == sentinel
    }

    /** push_back, returning the new node: what std::prev(end()) then denotes. */
    method PushBack(id: nat) returns (node: Node)
      requires Valid()
      modifies this, ring
      ensures Valid() && fresh(node) && node.id == id
      ensures ring == old(ring) + [node]
    {
      node := new Node(id, side, price);
      var last := sentinel.prev;
      node.prev := last;
      node.next := sentinel;
      last.next := node;
      sentinel.prev := node;
      ring := ring + [node];
    }

    /** Erase through a handle: only the two neighbours are touched. */
    method Erase(node: Node, ghost k: nat)
      requires Valid()
      requires 1 <= k < |ring| && ring[k] == node
      modifies this, ring
      ensures Valid()
      ensures ring == old(ring)[..k] + old(ring)[k + 1..]
    {
      var before, after := node.prev, node.next;
      before.next := after;
      after.prev := before;
      ring := ring[..k] + ring[k + 1..];
    }
  }

  /** One side of the book: price levels and their queues, as in map<int64_t, list<uint64_t>>. */
  class Ladder {
    ghost const side: Side
    var levels: map<int, OrderList>
    ghost var queues: map<int, seq<Node>>
    ghost var Repr: set<object>

    /** The queue of one level and its nodes belong to this ladder, and know their level. */
    ghost predicate Owned(price: int)
      requires price in levels
      reads this, levels[price]
    {
      && levels[price] in Repr
      && levels[price].side == side && levels[price].price == price
      && (forall i :: 0 <= i < |levels[price].ring| ==> levels[price].ring[i] in Repr)
    }

    /** Every queue is well formed, and `queues` lists the queued nodes, front first. */
    ghost predicate Sound()
      reads this, Repr
    {
      && this in Repr
      && queues.Keys == levels.Keys
      && (forall p :: p in levels ==>
            levels[p] in Repr && Owned(p) && levels[p].Valid() && levels[p].ring[1..] == queues[p])
    }

    /** No level is kept without an order. */
    ghost predicate Valid()
      reads this, Repr
    {
      Sound() && forall p :: p in queues ==> queues[p] != []
    }

    ghost function Nodes(price: int): seq<Node>
      reads this
    {
      if price in queues then queues[price] else []
    }

    /** Following `next` from the sentinel visits the queued nodes in order and ends at the sentinel. */
    lemma Links(price: int)
      requires Valid() && price in levels
      ensures var l, nodes := levels[price], Nodes(price);
        && nodes != [] && l.sentinel.next == nodes[0]
        && forall k :: 0 <= k < |nodes| ==>
             && nodes[k] != l.sentinel
             && nodes[k].next == if k + 1 < |nodes| then nodes[k + 1] else l.sentinel
    {
      var l, nodes := levels[price], Nodes(price);
      assert forall k :: 0 <= k < |nodes| ==> nodes[k] == l.ring[k + 1];
    }

    constructor (ghost side: Side)
      ensures Valid() && fresh(Repr) && this.side == side && queues == map[]
    {
      this.side := side;
      levels, queues, Repr := map[], map[], {this};
    }

    /** Erase one node of a level, and leave all other levels alone. */
    method EraseNode(price: int, node: Node, ghost k: nat)
      requires Sound() && price in levels && k < |queues[price]| && queues[price][k] == node
      modifies `queues, levels[price], levels[price].ring
      ensures Sound()
      ensures queues == old(queues)[price := old(queues)[price][..k] + old(queues)[price][k + 1..]]
    {
      var l := levels[price];
      ghost var ring := l.ring;
      l.Erase(node, k + 1);
      queues := queues[price := queues[price][..k] + queues[price][k + 1..]];
      assert l.ring[1..] == ring[1..][..k] + ring[1..][k + 1..];
      forall p | p in levels
        ensures levels[p] in Repr && Owned(p) && levels[p].Valid() && levels[p].ring[1..] == queues[p]
      {
        if p != price {
          assert forall i :: 0 <= i < |old(levels[p].ring)| ==> old(levels[p].ring)[i].price == p;
          assert levels[p].Valid() == old(levels[p].Valid());
        }
      }
    }

    /** Drop one level. */
    method DropLevel(price: int)
      requires Sound() && price in levels
      modifies `levels, `queues
      ensures Sound() && queues == old(queues) - {price}
    {
      levels, queues := levels - {price}, queues - {price};
    }

    /** Erase a node through its handle, and the level with it if that was its last node. */
    method Erase(price: int, node: Node, ghost k: nat)
      requires Valid() && price in levels && k < |queues[price]| && queues[price][k] == node
      modifies Repr
      ensures Valid() && Repr == old(Repr)
      ensures Nodes(price) == old(Nodes(price))[..k] + old(Nodes(price))[k + 1..]
      ensures forall p :: p != price ==> Nodes(p) == old(Nodes(p))
    {
      EraseNode(price, node, k);
      if levels[price].Empty() {
        DropLevel(price);
      }
    }

    method Clear()
      requires Valid()
      modifies this
      ensures Valid() && Repr == old(Repr) && queues == map[]
    {
      levels, queues := map[], map[];
    }

    /** Make an empty queue for a level that has none. */
    method AddLevel(price: int)
      requires Sound() && price !in levels
      modifies this
      ensures Sound() && fresh(Repr - old(Repr)) && Repr >= old(Repr)
      ensures queues == old(queues)[price := []]
    {
      var l := new OrderList(side, price);
      Repr := Repr + {l, l.sentinel};
      levels, queues := levels[price := l], queues[price := []];
    }

    /** Push a node on a level's queue, and leave all other levels alone. */
    method PushNode(price: int, id: nat) returns (node: Node)
      requires Sound() && price in levels
      modifies `queues, `Repr, levels[price], levels[price].ring
      ensures Sound() && fresh(Repr - old(Repr)) && Repr >= old(Repr)
      ensures node.id == id
      ensures queues == old(queues)[price := old(queues)[price] + [node]]
    {
      var l := levels[price];
      node := l.PushBack(id);
      Repr := Repr + {node};
      queues := queues[price := queues[price] + [node]];
      forall p | p in levels
        ensures levels[p] in Repr && Owned(p) && levels[p].Valid() && levels[p].ring[1..] == queues[p]
      {
        if p != price {
          assert forall i :: 0 <= i < |old(levels[p].ring)| ==> old(levels[p].ring)[i].price == p;
          assert levels[p].Valid() == old(levels[p].Valid());
        }
      }
    }

    /** Push an id at the back of a level, made if missing, and return the handle of its node. */
    method PushBack(price: int, id: nat) returns (node: Node)
      requires Valid()
      modifies Repr
      ensures Valid() && fresh(Repr - old(Repr)) && Repr >= old(Repr)
      ensures node.id == id
      ensures Nodes(price) == old(Nodes(price)) + [node]
      ensures forall p :: p != price ==> Nodes(p) == old(Nodes(p))
    {
      if price !in levels {
        AddLevel(price);
      }
      node := PushNode(price, id);
    }
  }

  datatype L3Order = L3Order(orderId: nat, side: Side, price: int, qty: nat, queuePos: Node)

  predicate IsRecord(o: L3Order, e: Entry) {
    o.orderId == e.id && o.side == e.side && o.price == e.price && o.qty == e.qty
  }

  /** The id map holds exactly the records of `s`. */
  ghost predicate Records(orders: map<nat, L3Order>, s: seq<Entry>) {
    && (forall id :: id in orders <==> Has(s, id))
    && (forall i :: 0 <= i < |s| ==> s[i].id in orders && IsRecord(orders[s[i].id], s[i]))
  }

  lemma RecordsWithout(orders: map<nat, L3Order>, s: seq<Entry>, id: nat)
    requires Records(orders, s)
    ensures Records(orders - {id}, Without(s, id))
  {
    WithoutMembers(s, id);
    var w := Without(s, id);
    forall j ensures j in orders - {id} <==> Has(w, j) {
      if j in orders - {id} {
        var i :| 0 <= i < |s| && s[i].id == j;
        assert s[i] in w;
      } else if j in orders {
        assert !Has(w, j);
      }
    }
    forall i | 0 <= i < |w| ensures w[i].id in orders - {id} && IsRecord((orders - {id})[w[i].id], w[i]) {
      assert w[i] in s;
    }
  }

  lemma RecordsAppend(orders: map<nat, L3Order>, s: seq<Entry>, e: Entry, o: L3Order)
    requires Records(orders - {e.id}, s) && IsRecord(o, e)
    ensures Records(orders[e.id := o], s + [e])
  {
    var t := s + [e];
    forall j ensures j in orders[e.id := o] <==> Has(t, j) {
      if j in orders[e.id := o] && j != e.id {
        assert j in orders - {e.id};
        var i :| 0 <= i < |s| && s[i].id == j;
        assert t[i].id == j;
      } else if i :| 0 <= i < |t| && t[i].id == j {
        assert i < |s| ==> s[i].id in orders - {e.id};
      } else {
        assert t[|s|].id == e.id;
      }
    }
    forall i | 0 <= i < |t| ensures t[i].id in orders[e.id := o] && IsRecord(orders[e.id := o][t[i].id], t[i]) {
      assert i < |s| ==> s[i].id in orders - {e.id};
    }
  }

  lemma RecordsEdit(orders: map<nat, L3Order>, s: seq<Entry>, id: nat, qty: nat)
    requires Records(orders, s) && id in orders
    ensures Records(orders[id := orders[id].(qty := qty)], Edit(s, id, qty))
  {
    var t := Edit(s, id, qty);
    forall j ensures Has(t, j) <==> Has(s, j) {
      if i :| 0 <= i < |s| && s[i].id == j {
        assert t[i].id == j;
      }
    }
  }

  /** The quantities of a row of ids, an unknown id counting for nothing. */
  ghost function QtyOf(orders: map<nat, L3Order>, ids: seq<nat>): nat {
    if ids == [] then 0
    else
      var id := ids[|ids| - 1];
      QtyOf(orders, ids[..|ids| - 1]) + (if id in orders then orders[id].qty else 0)
  }

  lemma {:induction false} TotalOfQueue(orders: map<nat, L3Order>, s: seq<Entry>, side: Side, price: int)
    requires forall i :: 0 <= i < |s| ==> s[i].id in orders && IsRecord(orders[s[i].id], s[i])
    ensures QtyOf(orders, Queue(s, side, price)) == Total(s, side, price)
  {
    if s != [] {
      var front, last := s[..|s| - 1], s[|s| - 1];
      TotalOfQueue(orders, front, side, price);
      var q := Queue(front, side, price);
      assert (q + [last.id])[..|q|] == q;
    }
  }

  lemma QueueFacts(orders: map<nat, L3Order>, s: seq<Entry>, nodes: seq<Node>, side: Side, price: int)
    requires Records(orders, s) && IdsOf(nodes) == Queue(s, side, price)
    ensures forall k :: 0 <= k < |nodes| ==>
              nodes[k].id in orders && orders[nodes[k].id].side == side && orders[nodes[k].id].price == price
    ensures QtyOf(orders, IdsOf(nodes)) == Total(s, side, price)
  {
    QueueMembers(s, side, price);
    TotalOfQueue(orders, s, side, price);
    var q := Queue(s, side, price);
    forall k | 0 <= k < |nodes|
      ensures nodes[k].id in orders && orders[nodes[k].id].side == side && orders[nodes[k].id].price == price
    {
      assert q[k] == nodes[k].id && q[k] in q;
      var i :| 0 <= i < |s| && s[i].id == q[k] && s[i].side == side && s[i].price == price;
      assert IsRecord(orders[s[i].id], s[i]);
    }
  }

  /** Cutting the node that carries an id out of its queue removes the id, and no other node. */
  lemma QueueAfterCut(s: seq<Entry>, side: Side, price: int, nodes: seq<Node>, k: nat)
    requires Distinct(s) && IdsOf(nodes) == Queue(s, side, price) && k < |nodes|
    ensures IdsOf(nodes[..k] + nodes[k + 1..]) == Queue(Without(s, nodes[k].id), side, price)
    ensures forall n :: n in nodes && n.id != nodes[k].id ==> n in nodes[..k] + nodes[k + 1..]
  {
    var q := Queue(s, side, price);
    assert q[k] == nodes[k].id;
    QueueDistinct(s, side, price);
    MinusAt(q, k);
    QueueWithout(s, nodes[k].id, side, price);
    assert IdsOf(nodes[..k] + nodes[k + 1..]) == q[..k] + q[k + 1..];
  }

  /** Removing an order leaves every other level's queue alone. */
  lemma QueueElsewhere(s: seq<Entry>, i: nat, side: Side, price: int)
    requires Distinct(s) && i < |s| && (s[i].side != side || s[i].price != price)
    ensures Queue(Without(s, s[i].id), side, price) == Queue(s, side, price)
  {
    QueueMembers(s, side, price);
    QueueWithout(s, s[i].id, side, price);
    MinusAbsent(Queue(s, side, price), s[i].id);
  }

  class L3Book {
    var orders: map<nat, L3Order>
    const bids: Ladder
    const asks: Ladder

    /** The book as a flat list of resting orders, in order of entry. */
    ghost var flat: seq<Entry>
    ghost var Repr: set<object>

    /** The nodes queued at one level, front first; a missing level has none. */
    ghost function Nodes(side: Side, price: int): seq<Node>
      reads bids, asks
    {
      match side
      case Buy => bids.Nodes(price)
      case Sell => asks.Nodes(price)
      case NoSide => []
    }

    ghost predicate Shape()
      reads `Repr, Repr
    {
      && bids in Repr && asks in Repr
      && Repr == bids.Repr + asks.Repr
      && bids.Valid() && asks.Valid()
      && bids.side == Buy && asks.side == Sell
      && bids.Repr !! asks.Repr
      && this !in Repr
    }

    /** Every level's queue is the per-level selection of `s`, in its order. */
    ghost predicate LevelsMatch(s: seq<Entry>)
      reads bids, asks
    {
      forall side, p {:trigger Nodes(side, p)} :: IdsOf(Nodes(side, p)) == Queue(s, side, p)
    }

    /** Every order of `s` holds, in the id map `os`, the handle of its own node in its own level's queue. */
    ghost predicate HandlesMatch(os: map<nat, L3Order>, s: seq<Entry>)
      reads bids, asks
    {
      forall i :: 0 <= i < |s| ==>
        && s[i].id in os
        && os[s[i].id].queuePos.id == s[i].id
        && os[s[i].id].queuePos in Nodes(s[i].side, s[i].price)
    }

    ghost predicate Valid()
      reads this, bids, asks, Repr
    {
      && Shape()
      && WellFormed(flat)
      && Records(orders, flat)
      && LevelsMatch(flat)
      && HandlesMatch(orders, flat)
    }

    constructor ()
      ensures Valid() && flat == [] && fresh(Repr)
    {
      bids := new Ladder(Buy);
      asks := new Ladder(Sell);
      orders, flat := map[], [];
      new;
      Repr := bids.Repr + asks.Repr;
    }

    /** Where a resting order's handle points: a node of its own level's queue. */
    lemma PlaceOf(id: nat) returns (i: nat, k: nat)
      requires Valid() && id in orders
      ensures i < |flat| && flat[i].id == id == orders[id].orderId
      ensures flat[i].side == orders[id].side != NoSide && flat[i].price == orders[id].price
      ensures k < |Nodes(orders[id].side, orders[id].price)|
      ensures Nodes(orders[id].side, orders[id].price)[k] == orders[id].queuePos
      ensures orders[id].queuePos.id == id
    {
      i :| 0 <= i < |flat| && flat[i].id == id;
      k :| 0 <= k < |Nodes(orders[id].side, orders[id].price)|
           && Nodes(orders[id].side, orders[id].price)[k] == orders[id].queuePos;
    }

    /** With one order's node cut out, the queues are those of the list without that order. */
    twostate lemma QueuesAfterCut(new i: nat, new side: Side, new price: int, new k: nat)
      requires flat == old(flat) && orders == old(orders)
      requires WellFormed(flat) && old(LevelsMatch(flat)) && old(HandlesMatch(orders, flat))
      requires i < |flat| && flat[i].side == side && flat[i].price == price
      requires k < |old(Nodes(side, price))|
      requires old(Nodes(side, price))[k].id == flat[i].id
      requires Nodes(side, price) == old(Nodes(side, price)[..k] + Nodes(side, price)[k + 1..])
      requires forall s, p :: s != side || p != price ==> Nodes(s, p) == old(Nodes(s, p))
      ensures LevelsMatch(Without(flat, flat[i].id))
      ensures HandlesMatch(orders - {flat[i].id}, Without(flat, flat[i].id))
    {
      var id := flat[i].id;
      var w := Without(flat, id);
      QueueAfterCut(flat, side, price, old(Nodes(side, price)), k);
      forall s, p ensures IdsOf(Nodes(s, p)) == Queue(w, s, p) {
        if s != side || p != price {
          QueueElsewhere(flat, i, s, p);
        }
      }
      WithoutMembers(flat, id);
      forall j | 0 <= j < |w|
        ensures w[j].id in orders - {id} && orders[w[j].id].queuePos.id == w[j].id
        ensures orders[w[j].id].queuePos in Nodes(w[j].side, w[j].price)
      {
        assert w[j] in w;
        assert w[j] in flat;
      }
    }

    /** Erase an order's node from its side's queue through its handle. */
    method TakeOut(o: L3Order, ghost k: nat)
      requires Shape()
      requires k < |Nodes(o.side, o.price)| && Nodes(o.side, o.price)[k] == o.queuePos
      modifies Repr
      ensures Shape()
      ensures Nodes(o.side, o.price) == old(Nodes(o.side, o.price)[..k] + Nodes(o.side, o.price)[k + 1..])
      ensures forall s, p :: s != o.side || p != o.price ==> Nodes(s, p) == old(Nodes(s, p))
    {
      if o.side == Buy {
        if o.price in bids.levels {
          bids.Erase(o.price, o.queuePos, k);
        }
      } else if o.side == Sell {
        if o.price in asks.levels {
          asks.Erase(o.price, o.queuePos, k);
        }
      }
    }

    method RemoveFromQueues(id: nat)
      requires Valid()
      modifies Repr
      ensures orders == old(orders) && flat == old(flat) && Repr == old(Repr)
      ensures Shape() && WellFormed(flat) && Records(orders, flat)
      ensures LevelsMatch(Without(flat, id)) && HandlesMatch(orders - {id}, Without(flat, id))
    {
      if id !in orders {
        WithoutMembers(flat, id);
        assert orders - {id} == orders;
        return;
      }
      var o := orders[id];
      ghost var i, k := PlaceOf(id);
      TakeOut(o, k);
      QueuesAfterCut(i, o.side, o.price, k);
    }

    /** Push an id at the back of its level's queue. */
    method PushBack(side: Side, price: int, id: nat) returns (node: Node)
      requires Shape() && side != NoSide
      modifies `Repr, Repr
      ensures Shape() && fresh(Repr - old(Repr))
      ensures node.id == id
      ensures Nodes(side, price) == old(Nodes(side, price)) + [node]
      ensures forall s, p :: s != side || p != price ==> Nodes(s, p) == old(Nodes(s, p))
    {
      if side == Buy {
        node := bids.PushBack(price, id);
      } else {
        node := asks.PushBack(price, id);
      }
      Repr := bids.Repr + asks.Repr;
    }

    /** The queues with an order `e` at the back of a list `s`. */
    twostate lemma LevelsAfterPush(new s: seq<Entry>, new e: Entry, new node: Node)
      requires old(LevelsMatch(s)) && node.id == e.id
      requires Nodes(e.side, e.price) == old(Nodes(e.side, e.price)) + [node]
      requires forall side, p :: side != e.side || p != e.price ==> Nodes(side, p) == old(Nodes(side, p))
      ensures LevelsMatch(s + [e])
    {
      forall side, p ensures IdsOf(Nodes(side, p)) == Queue(s + [e], side, p) {
        AppendLemma(s, e, side, p);
      }
    }

    twostate lemma HandlesAfterPush(new s: seq<Entry>, new e: Entry, new o: L3Order)
      requires orders == old(orders) && old(HandlesMatch(orders - {e.id}, s))
      requires o.queuePos.id == e.id
      requires Nodes(e.side, e.price) == old(Nodes(e.side, e.price)) + [o.queuePos]
      requires forall side, p :: side != e.side || p != e.price ==> Nodes(side, p) == old(Nodes(side, p))
      ensures HandlesMatch(orders[e.id := o], s + [e])
    {
      var t := s + [e];
      forall j | 0 <= j < |t|
        ensures t[j].id in orders[e.id := o] && orders[e.id := o][t[j].id].queuePos.id == t[j].id
        ensures orders[e.id := o][t[j].id].queuePos in Nodes(t[j].side, t[j].price)
      {
        if j < |s| {
          assert t[j] == s[j] && s[j].id in orders - {e.id};
        }
      }
    }

    /** Take over a new id map, once the queues agree with it. */
    method Store(newOrders: map<nat, L3Order>, ghost newFlat: seq<Entry>)
      requires Shape() && WellFormed(newFlat) && Records(newOrders, newFlat)
      requires LevelsMatch(newFlat) && HandlesMatch(newOrders, newFlat)
      modifies `orders, `flat
      ensures Valid() && orders == newOrders && flat == newFlat
    {
      orders, flat := newOrders, newFlat;
    }

    /** With empty ladders, the empty map and the empty list agree. */
    lemma EmptyIsValid()
      requires Shape() && orders == map[] && flat == []
      requires bids.queues == map[] && asks.queues == map[]
      ensures Valid()
    {
      hide Shape;
    }

    /** Empty both ladders. */
    method ClearLadders()
      requires Shape()
      modifies Repr
      ensures Shape() && bids.queues == map[] && asks.queues == map[]
    {
      bids.Clear();
      asks.Clear();
    }

    method Clear()
      requires Valid()
      modifies this, Repr
      ensures Valid() && flat == [] && orders == map[] && Repr == old(Repr)
    {
      ClearLadders();
      orders, flat := map[], [];
      EmptyIsValid();
    }

    /** What no message changes of the orders it does not name. */
    twostate predicate OthersKept(id: nat)
      reads this
    {
      forall other :: other in orders && other in old(orders) && other != id
        ==> orders[other] == old(orders)[other]
    }

    /** An order that stays on its level, without being entered anew, keeps its handle. */
    twostate predicate HandleKept(m: L3Message)
      reads this
    {
      var id := m.orderId;
      m.execType != New && id in orders && id in old(orders)
      && orders[id].side == old(orders)[id].side && orders[id].price == old(orders)[id].price ==>
        orders[id].queuePos == old(orders)[id].queuePos
    }

    /** A fill or a cancel: take the order out. */
    method RemoveOrder(id: nat)
      requires Valid()
      modifies this, Repr
      ensures Valid() && Repr == old(Repr)
      ensures flat == Without(old(flat), id) && id !in orders
      ensures OthersKept(id)
    {
      WithoutWellFormed(flat, id);
      RecordsWithout(orders, flat, id);
      RemoveFromQueues(id);
      Store(orders - {id}, Without(flat, id));
    }

    /** Link a new order's node behind the orders of `s`. */
    method Enqueue(id: nat, side: Side, price: int, qty: nat, ghost s: seq<Entry>) returns (o: L3Order)
      requires Shape() && side != NoSide
      requires LevelsMatch(s) && HandlesMatch(orders - {id}, s)
      modifies `Repr, Repr
      ensures Shape() && fresh(Repr - old(Repr))
      ensures IsRecord(o, Entry(id, side, price, qty))
      ensures LevelsMatch(s + [Entry(id, side, price, qty)])
      ensures HandlesMatch(orders[id := o], s + [Entry(id, side, price, qty)])
    {
      hide LevelsMatch, HandlesMatch, Queue;
      var node := PushBack(side, price, id);
      o := L3Order(id, side, price, qty, node);
      LevelsAfterPush(s, Entry(id, side, price, qty), node);
      HandlesAfterPush(s, Entry(id, side, price, qty), o);
    }

    /** What resting an order behind the others does to the list and to the id map. */
    static lemma AppendKeepsRecords(orders: map<nat, L3Order>, s: seq<Entry>, e: Entry, o: L3Order)
      requires WellFormed(s) && Records(orders, s) && IsRecord(o, e) && e.side != NoSide
      ensures WellFormed(Without(s, e.id) + [e])
      ensures Records(orders[e.id := o], Without(s, e.id) + [e])
    {
      WithoutMembers(s, e.id);
      WithoutWellFormed(s, e.id);
      AppendWellFormed(Without(s, e.id), e);
      RecordsWithout(orders, s, e.id);
      RecordsAppend(orders, Without(s, e.id), e, o);
    }

    /** Rest an order at the back of its level; the id's old node is already out of its queue. */
    method AppendOrder(id: nat, side: Side, price: int, qty: nat)
      requires Shape() && side != NoSide && WellFormed(flat) && Records(orders, flat)
      requires LevelsMatch(Without(flat, id)) && HandlesMatch(orders - {id}, Without(flat, id))
      modifies this, Repr
      ensures Valid() && fresh(Repr - old(Repr))
      ensures flat == Without(old(flat), id) + [Entry(id, side, price, qty)]
      ensures id in orders && orders[id].side == side && orders[id].price == price
      ensures OthersKept(id)
    {
      var o := Enqueue(id, side, price, qty, Without(flat, id));
      AppendKeepsRecords(orders, flat, Entry(id, side, price, qty), o);
      Store(orders[id := o], Without(flat, id) + [Entry(id, side, price, qty)]);
    }

    lemma EditKeepsQueues(id: nat, qty: nat)
      requires LevelsMatch(flat) && HandlesMatch(orders, flat) && id in orders
      ensures LevelsMatch(Edit(flat, id, qty))
      ensures HandlesMatch(orders[id := orders[id].(qty := qty)], Edit(flat, id, qty))
    {
      forall side, p ensures IdsOf(Nodes(side, p)) == Queue(Edit(flat, id, qty), side, p) {
        EditQueue(flat, id, qty, side, p);
      }
    }

    /** Change an order's quantity in place. */
    method EditOrder(id: nat, qty: nat)
      requires Valid() && id in orders
      modifies `orders, `flat
      ensures Valid()
      ensures flat == Edit(old(flat), id, qty)
      ensures OthersKept(id) && id in orders && orders[id].queuePos == old(orders)[id].queuePos
    {
      hide Shape;
      RecordsEdit(orders, flat, id, qty);
      EditKeepsQueues(id, qty);
      Store(orders[id := orders[id].(qty := qty)], Edit(flat, id, qty));
    }

    /** Move an order to the back of a level, or rest it there if it is new. */
    method Requeue(id: nat, side: Side, price: int, qty: nat)
      requires Valid() && side != NoSide
      modifies this, Repr
      ensures Valid() && fresh(Repr - old(Repr))
      ensures flat == Without(old(flat), id) + [Entry(id, side, price, qty)]
      ensures id in orders && orders[id].side == side && orders[id].price == price
      ensures OthersKept(id)
    {
      hide Valid;
      RemoveFromQueues(id);
      AppendOrder(id, side, price, qty);
    }

    /** The list holds an id exactly when the id map does, with the same record. */
    lemma RecordOf(id: nat)
      requires Valid()
      ensures id in orders ==> Find(flat, id).Some? && IsRecord(orders[id], Find(flat, id).value)
      ensures id !in orders ==> Find(flat, id).None? && Without(flat, id) == flat
    {
      if id in orders {
        var e := Find(flat, id).value;
      } else {
        WithoutMembers(flat, id);
      }
    }

    /** Apply one message of the level-3 feed. */
    method Update(m: L3Message)
      requires Valid()
      modifies this, Repr
      ensures Valid() && fresh(Repr - old(Repr))
      ensures flat == Apply(old(flat), m)
      ensures OthersKept(m.orderId)
      ensures HandleKept(m)
    {
      hide Valid;  // only the contracts of the calls matter here
      var id := m.orderId;
      RecordOf(id);
      if m.side == NoSide {
        Clear();
        return;
      }
      match m.execType
      case New =>
        Requeue(id, m.side, m.price, m.qty);
      case Fill =>
        RemoveOrder(id);
      case Cancelled =>
        RemoveOrder(id);
      case PartialFill =>
        if id in orders {
          if orders[id].qty > m.qty {
            EditOrder(id, orders[id].qty - m.qty);
          } else {
            RemoveOrder(id);
          }
        }
      case Replaced =>
        if id in orders {
          if orders[id].price != m.price || orders[id].side != m.side {
            Requeue(id, m.side, m.price, m.qty);
          } else {
            EditOrder(id, m.qty);
          }
        } else {
          Requeue(id, m.side, m.price, m.qty);
        }
      case _ =>
    }

    /** Every order's handle is a node of its own level's queue. */
    lemma HandlesResolve()
      requires Valid()
      ensures forall id :: id in orders ==>
                orders[id].queuePos in Nodes(orders[id].side, orders[id].price) && orders[id].queuePos.id == id
    {
      forall id | id in orders
        ensures orders[id].queuePos in Nodes(orders[id].side, orders[id].price) && orders[id].queuePos.id == id
      {
        var i :| 0 <= i < |flat| && flat[i].id == id;
      }
    }

    /** The ladder of one side. */
    function LadderOf(side: Side): Ladder
    {
      if side == Buy then bids else asks
    }

    /** The queued ids of a level are known, and their quantities make the level's total. */
    lemma LevelFacts(side: Side, price: int)
      requires Valid() && side != NoSide
      ensures LadderOf(side).Valid() && LadderOf(side).Nodes(price) == Nodes(side, price)
      ensures forall k :: 0 <= k < |Nodes(side, price)| ==> Nodes(side, price)[k].id in orders
      ensures QtyOf(orders, IdsOf(Nodes(side, price))) == Total(flat, side, price)
    {
      QueueFacts(orders, flat, Nodes(side, price), side, price);
    }

    /** Add up one queue by walking it. Every id met on the way is found in the id map. */
    method QueueTotal(ladder: Ladder, price: int) returns (total: nat)
      requires ladder.Valid()
      requires forall k :: 0 <= k < |ladder.Nodes(price)| ==> ladder.Nodes(price)[k].id in orders
      ensures total == QtyOf(orders, IdsOf(ladder.Nodes(price)))
    {
      total := 0;
      if price in ladder.levels {
        ghost var nodes := ladder.Nodes(price);
        ladder.Links(price);
        var l := ladder.levels[price];
        var node := l.sentinel.next;
        ghost var k := 0;
        while node != l.sentinel
          invariant 0 <= k <= |nodes|
          invariant node == if k < |nodes| then nodes[k] else l.sentinel
          invariant total == QtyOf(orders, IdsOf(nodes)[..k])
          decreases |nodes| - k
        {
          assert IdsOf(nodes)[..k + 1][..k] == IdsOf(nodes)[..k];
          total := total + orders[node.id].qty;
          node, k := node.next, k + 1;
        }
        assert IdsOf(nodes)[..k] == IdsOf(nodes);
      }
    }

    /** The quantity of one level, as the display computes it. */
    method LevelTotal(side: Side, price: int) returns (total: nat)
      requires Valid() && side != NoSide
      ensures total == Total(flat, side, price)
    {
      hide Valid;
      LevelFacts(side, price);
      total := QueueTotal(LadderOf(side), price);
    }
  }

  /** A node of a queue without repeated ids is the one its order's handle names. */
  lemma HandleAtPlace(orders: map<nat, L3Order>, nodes: seq<Node>, k: nat)
    requires forall i, j :: 0 <= i < j < |nodes| ==> nodes[i].id != nodes[j].id
    requires k < |nodes| && nodes[k].id in orders
    requires orders[nodes[k].id].queuePos in nodes && orders[nodes[k].id].queuePos.id == nodes[k].id
    ensures orders[nodes[k].id].queuePos == nodes[k]
  {
    var j :| 0 <= j < |nodes| && nodes[j] == orders[nodes[k].id].queuePos;
    assert j == k;
  }

  lemma NodesDistinct(s: seq<Entry>, nodes: seq<Node>, side: Side, price: int)
    requires Distinct(s) && IdsOf(nodes) == Queue(s, side, price)
    ensures forall i, j :: 0 <= i < j < |nodes| ==> nodes[i].id != nodes[j].id
  {
    QueueDistinct(s, side, price);
    forall i, j | 0 <= i < j < |nodes| ensures nodes[i].id != nodes[j].id {
      assert IdsOf(nodes)[i] != IdsOf(nodes)[j];
    }
  }

  /** A level exists exactly when it has an order. */
  lemma LevelListedIff(b: L3Book, side: Side, price: int)
    requires b.Valid() && side != NoSide
    ensures price in b.LadderOf(side).levels <==> Queue(b.flat, side, price) != []
  {
    assert IdsOf(b.Nodes(side, price)) == Queue(b.flat, side, price);
    assert b.Nodes(side, price) != [] <==> IdsOf(b.Nodes(side, price)) != [];
  }

  /**
   In every reachable state an id of the map is queued exactly once: at its stored side and price, in the
   node its handle names. Nothing else is queued, and a level exists exactly when it has an order.
   */
  lemma HandleIsOnlyOccurrence(b: L3Book, side: Side, price: int)
    requires b.Valid() && side != NoSide
    ensures forall k :: 0 <= k < |b.Nodes(side, price)| ==>
              && b.Nodes(side, price)[k].id in b.orders
              && b.orders[b.Nodes(side, price)[k].id].queuePos == b.Nodes(side, price)[k]
              && b.orders[b.Nodes(side, price)[k].id].side == side
              && b.orders[b.Nodes(side, price)[k].id].price == price
    ensures forall id :: id in b.orders && b.orders[id].side == side && b.orders[id].price == price ==>
              b.orders[id].queuePos in b.Nodes(side, price) && b.orders[id].queuePos.id == id
    ensures price in b.LadderOf(side).levels <==> Queue(b.flat, side, price) != []
  {
    var nodes := b.Nodes(side, price);
    QueueFacts(b.orders, b.flat, nodes, side, price);
    b.HandlesResolve();
    NodesDistinct(b.flat, nodes, side, price);
    LevelListedIff(b, side, price);
    hide L3Book.Valid;
    forall k | 0 <= k < |nodes| ensures b.orders[nodes[k].id].queuePos == nodes[k] {
      HandleAtPlace(b.orders, nodes, k);
    }
  }
}
