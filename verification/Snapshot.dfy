/**
 Snapshot replay: a reset followed by one New message per resting order, each level front to back and the
 levels in any order or interleaving, rebuilds the book.
 */
module Snapshot {
  import opened Types
  import opened FlatBook
  import opened L3BookModule

  /** The orders of one level, front first. */
  function LevelEntries(s: seq<Entry>, side: Side, price: int): seq<Entry> {
    if s == [] then []
    else
      var e := s[|s| - 1];
      var r := LevelEntries(s[..|s| - 1], side, price);
      if e.side == side && e.price == price then r + [e] else r
  }

  /** `image` lists the orders of `s`, level by level in the same order. */
  ghost predicate SnapshotOf(image: seq<Entry>, s: seq<Entry>) {
    forall side, price :: LevelEntries(image, side, price) == LevelEntries(s, side, price)
  }

  const RESET := L3Message(New, 0, NoSide, 0, 0)

  function NewMessage(e: Entry): L3Message {
    L3Message(New, e.id, e.side, e.price, e.qty)
  }

  /** The stream that transmits a snapshot. */
  function Transmit(image: seq<Entry>): seq<L3Message> {
    [RESET] + seq(|image|, i requires 0 <= i < |image| => NewMessage(image[i]))
  }

  // ----- a snapshot has the same orders as the book

  lemma {:induction false} LevelEntriesMembers(s: seq<Entry>, side: Side, price: int)
    ensures forall e :: e in LevelEntries(s, side, price) <==> e in s && e.side == side && e.price == price
  {
    if s != [] {
      var front, last := s[..|s| - 1], s[|s| - 1];
      LevelEntriesMembers(front, side, price);
      assert s == front + [last];
    }
  }

  lemma SameOrders(image: seq<Entry>, s: seq<Entry>)
    requires SnapshotOf(image, s)
    ensures forall e :: e in image <==> e in s
  {
    forall e ensures e in image <==> e in s {
      LevelEntriesMembers(image, e.side, e.price);
      LevelEntriesMembers(s, e.side, e.price);
      assert LevelEntries(image, e.side, e.price) == LevelEntries(s, e.side, e.price);
    }
  }

  lemma {:induction false} OccurrencesInLevel(s: seq<Entry>, e: Entry)
    ensures multiset(LevelEntries(s, e.side, e.price))[e] == multiset(s)[e]
  {
    if s != [] {
      var front, last := s[..|s| - 1], s[|s| - 1];
      OccurrencesInLevel(front, e);
      assert s == front + [last];
    }
  }

  lemma {:induction false} OccursOnce(s: seq<Entry>, e: Entry)
    requires Distinct(s)
    ensures multiset(s)[e] <= 1
  {
    if s != [] {
      var front, last := s[..|s| - 1], s[|s| - 1];
      OccursOnce(front, e);
      assert s == front + [last] && last !in front;
    }
  }

  lemma OccursTwice(s: seq<Entry>, i: nat, j: nat)
    requires i < j < |s| && s[i] == s[j]
    ensures multiset(s)[s[i]] >= 2
  {
    assert s == s[..j] + [s[j]] + s[j + 1..];
    assert s[..j][i] == s[i];
  }

  lemma SameId(s: seq<Entry>, a: Entry, b: Entry)
    requires Distinct(s) && a in s && b in s && a.id == b.id
    ensures a == b
  {
    var i :| 0 <= i < |s| && s[i] == a;
    var j :| 0 <= j < |s| && s[j] == b;
    assert i == j;
  }

  /** A snapshot of a book without repeated ids has none either. */
  lemma SnapshotWellFormed(image: seq<Entry>, s: seq<Entry>)
    requires WellFormed(s) && SnapshotOf(image, s)
    ensures WellFormed(image)
  {
    SameOrders(image, s);
    forall i, j | 0 <= i < j < |image| ensures image[i].id != image[j].id {
      assert image[i] in s && image[j] in s;
      if image[i].id == image[j].id {
        SameId(s, image[i], image[j]);
        OccursTwice(image, i, j);
        OccurrencesInLevel(image, image[i]);
        OccurrencesInLevel(s, image[i]);
        OccursOnce(s, image[i]);
        assert false;
      }
    }
    forall i | 0 <= i < |image| ensures image[i].side != NoSide {
      assert image[i] in s;
    }
  }

  // ----- replaying a snapshot gives the list back

  /** On any book, the replay leaves exactly the transmitted list. */
  lemma {:induction false} ReplayGivesImage(start: seq<Entry>, image: seq<Entry>)
    requires WellFormed(image)
    ensures RunFrom(start, Transmit(image)) == image
  {
    var ms := Transmit(image);
    if image == [] {
      assert ms == [RESET];
      assert ms[..0] == [];
    } else {
      var front, last := image[..|image| - 1], image[|image| - 1];
      assert Transmit(front) == ms[..|ms| - 1];
      ReplayGivesImage(start, front);
      assert !Has(front, last.id);
      WithoutMembers(front, last.id);
      assert front + [last] == image;
    }
  }

  // ----- the queues and records are determined level by level

  lemma {:induction false} QueueOfEntries(s: seq<Entry>, side: Side, price: int)
    ensures |Queue(s, side, price)| == |LevelEntries(s, side, price)|
    ensures forall i :: 0 <= i < |Queue(s, side, price)| ==>
              Queue(s, side, price)[i] == LevelEntries(s, side, price)[i].id
  {
    if s != [] {
      QueueOfEntries(s[..|s| - 1], side, price);
    }
  }

  lemma SnapshotQueues(image: seq<Entry>, s: seq<Entry>, side: Side, price: int)
    requires SnapshotOf(image, s)
    ensures Queue(image, side, price) == Queue(s, side, price)
  {
    assert LevelEntries(image, side, price) == LevelEntries(s, side, price);
    QueueOfEntries(image, side, price);
    QueueOfEntries(s, side, price);
  }

  lemma SnapshotRecords(image: seq<Entry>, s: seq<Entry>, id: nat)
    requires WellFormed(s) && SnapshotOf(image, s)
    ensures Find(image, id) == Find(s, id)
  {
    SameOrders(image, s);
    if Find(image, id).Some? {
      var e := Find(image, id).value;
      var k :| 0 <= k < |s| && s[k] == e;
      SameId(s, e, Find(s, id).value);
    }
  }

  /**
   For every stream `ms` and every snapshot of the book it leads to, replaying the snapshot on any book
   yields that book's queues and records.
   */
  lemma ReplayRebuilds(ms: seq<L3Message>, image: seq<Entry>, start: seq<Entry>)
    requires SnapshotOf(image, Run(ms))
    ensures forall side, price ::
              Queue(RunFrom(start, Transmit(image)), side, price) == Queue(Run(ms), side, price)
    ensures forall id :: Find(RunFrom(start, Transmit(image)), id) == Find(Run(ms), id)
  {
    RunWellFormed(ms);
    SnapshotWellFormed(image, Run(ms));
    ReplayGivesImage(start, image);
    forall side, price ensures Queue(image, side, price) == Queue(Run(ms), side, price) {
      SnapshotQueues(image, Run(ms), side, price);
    }
    forall id ensures Find(image, id) == Find(Run(ms), id) {
      SnapshotRecords(image, Run(ms), id);
    }
  }

  /** The same on the heap: the messages of a stream, applied one by one. */
  method Feed(b: L3Book, ms: seq<L3Message>)
    requires b.Valid()
    modifies b, b.Repr
    ensures b.Valid() && fresh(b.Repr - old(b.Repr))
    ensures b.flat == RunFrom(old(b.flat), ms)
  {
    for i := 0 to |ms|
      invariant b.Valid() && fresh(b.Repr - old(b.Repr))
      invariant b.flat == RunFrom(old(b.flat), ms[..i])
    {
      b.Update(ms[i]);
      assert ms[..i + 1][..i] == ms[..i];
    }
    assert ms[..|ms|] == ms;
  }

  // ----- the plainest snapshot: one level after the other

  /** The orders of the given levels, one level after the other. */
  function LevelByLevel(s: seq<Entry>, levels: seq<(Side, int)>): seq<Entry>
    decreases levels
  {
    if levels == [] then []
    else LevelEntries(s, levels[0].0, levels[0].1) + LevelByLevel(s, levels[1..])
  }

  lemma {:induction false} LevelEntriesConcat(a: seq<Entry>, b: seq<Entry>, side: Side, price: int)
    ensures LevelEntries(a + b, side, price) == LevelEntries(a, side, price) + LevelEntries(b, side, price)
  {
    if b == [] {
      assert a + b == a;
    } else {
      var front := b[..|b| - 1];
      assert (a + b)[..|a + b| - 1] == a + front;
      LevelEntriesConcat(a, front, side, price);
    }
  }

  lemma {:induction false} LevelOfLevel(s: seq<Entry>, side: Side, price: int, side': Side, price': int)
    ensures LevelEntries(LevelEntries(s, side, price), side', price')
         == if side == side' && price == price' then LevelEntries(s, side, price) else []
  {
    if s != [] {
      var front, last := s[..|s| - 1], s[|s| - 1];
      LevelOfLevel(front, side, price, side', price');
      var r := LevelEntries(front, side, price);
      assert (r + [last])[..|r|] == r;
    }
  }

  lemma {:induction false} LevelOfLevels(s: seq<Entry>, levels: seq<(Side, int)>, side: Side, price: int)
    requires forall i, j :: 0 <= i < j < |levels| ==> levels[i] != levels[j]
    ensures LevelEntries(LevelByLevel(s, levels), side, price)
         == if (side, price) in levels then LevelEntries(s, side, price) else []
    decreases levels
  {
    if levels != [] {
      var (side', price') := levels[0];
      var rest := levels[1..];
      LevelOfLevels(s, rest, side, price);
      LevelEntriesConcat(LevelEntries(s, side', price'), LevelByLevel(s, rest), side, price);
      LevelOfLevel(s, side', price', side, price);
      assert forall x :: x in levels <==> x == levels[0] || x in rest;
    }
  }

  /** Each level once, in any order, is a snapshot. */
  lemma LevelByLevelIsSnapshot(s: seq<Entry>, levels: seq<(Side, int)>)
    requires forall i, j :: 0 <= i < j < |levels| ==> levels[i] != levels[j]
    requires forall e :: e in s ==> (e.side, e.price) in levels
    ensures SnapshotOf(LevelByLevel(s, levels), s)
  {
    forall side, price
      ensures LevelEntries(LevelByLevel(s, levels), side, price) == LevelEntries(s, side, price)
    {
      LevelOfLevels(s, levels, side, price);
      LevelEntriesMembers(s, side, price);
      var r := LevelEntries(s, side, price);
      if r != [] {
        assert r[0] in r;
      }
    }
  }
}
