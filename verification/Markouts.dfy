/** Markouts: every fill is marked to the micro-price once after a second and once after five. */
module MarkoutsModule {
  import opened Types

  datatype Record = Record(
    timestamp: nat, side: Side, fillPrice: int, qty: nat, microPriceAtFill: real,
    evaluated1s: bool, evaluated5s: bool, edge1s: real, edge5s: real)

  const SECOND: nat := 1000
  const FIVE_SECONDS: nat := 5000
  const TEN_SECONDS: nat := 10000

  /** The difference of two 64-bit clock readings, wrapping if the clock went back. */
  function Age(now: nat, timestamp: nat): int {
    if now >= timestamp then now - timestamp else now - timestamp + 0x1_0000_0000_0000_0000
  }

  function Edge(r: Record, microPrice: real): real {
    if r.side == Buy then microPrice - r.fillPrice as real else r.fillPrice as real - microPrice
  }

  /** One record after an evaluation at a time and a micro-price. */
  function Evaluated(r: Record, now: nat, microPrice: real): Record {
    var s := if !r.evaluated1s && Age(now, r.timestamp) > SECOND
             then r.(edge1s := Edge(r, microPrice), evaluated1s := true) else r;
    if !s.evaluated5s && Age(now, s.timestamp) > FIVE_SECONDS
    then s.(edge5s := Edge(s, microPrice), evaluated5s := true) else s
  }

  function EvaluatedAll(rs: seq<Record>, now: nat, microPrice: real): seq<Record> {
    seq(|rs|, i requires 0 <= i < |rs| => Evaluated(rs[i], now, microPrice))
  }

  /** How many records at the front are too old to keep. */
  function OldCount(rs: seq<Record>, now: nat): (n: nat)
    ensures n <= |rs|
    ensures forall i :: 0 <= i < n ==> Age(now, rs[i].timestamp) > TEN_SECONDS
    ensures n < |rs| ==> Age(now, rs[n].timestamp) <= TEN_SECONDS
    decreases rs
  {
    if rs == [] || Age(now, rs[0].timestamp) <= TEN_SECONDS then 0 else 1 + OldCount(rs[1..], now)
  }

  /** What one record has realized at a horizon. */
  function Worth1s(r: Record): real {
    if r.evaluated1s then r.edge1s * r.qty as real else 0.0
  }

  function Worth5s(r: Record): real {
    if r.evaluated5s then r.edge5s * r.qty as real else 0.0
  }

  /** The realized edge of the records evaluated at a horizon. */
  function Realized1s(rs: seq<Record>): real {
    if rs == [] then 0.0 else Realized1s(rs[..|rs| - 1]) + Worth1s(rs[|rs| - 1])
  }

  function Realized5s(rs: seq<Record>): real {
    if rs == [] then 0.0 else Realized5s(rs[..|rs| - 1]) + Worth5s(rs[|rs| - 1])
  }

  // ----- the tracker, and the history it never forgets

  /**
   `all` lists every fill ever, with its evaluation; the deque is what is left of it after `popped` were
   dropped at the front. `now` is the last clock reading, `lastTick` the last evaluation.
   */
  datatype Tracker = Tracker(
    deque: seq<Record>, total1s: real, total5s: real, all: seq<Record>, popped: nat, now: nat, lastTick: nat)

  const START := Tracker([], 0.0, 0.0, [], 0, 0, 0)

  datatype Event =
    | FillAt(now: nat, side: Side, price: int, qty: nat, microPrice: real)
    | Tick(now: nat, microPrice: real)

  function NewRecord(e: Event): Record
    requires e.FillAt?
  {
    Record(e.now, e.side, e.price, e.qty, e.microPrice, false, false, 0.0, 0.0)
  }

  function Step(t: Tracker, e: Event): Tracker {
    match e
    case FillAt(now, _, _, _, _) =>
      t.(deque := t.deque + [NewRecord(e)], all := t.all + [NewRecord(e)], now := now)
    case Tick(now, microPrice) =>
      var rs := EvaluatedAll(t.deque, now, microPrice);
      var n := OldCount(rs, now);
      var kept := if t.popped <= |t.all| then t.all[..t.popped] else t.all;
      Tracker(rs[n..], t.total1s + Realized1s(rs) - Realized1s(t.deque),
              t.total5s + Realized5s(rs) - Realized5s(t.deque),
              kept + rs, t.popped + n, now, now)
  }

  /** The clock never goes back. */
  predicate Clocked(es: seq<Event>) {
    forall i, j :: 0 <= i <= j < |es| ==> es[i].now <= es[j].now
  }

  function Run(es: seq<Event>): Tracker {
    if es == [] then START else Step(Run(es[..|es| - 1]), es[|es| - 1])
  }

  // ----- the invariant

  /** At the last tick exactly the fills older than a horizon were evaluated for it. */
  predicate EvaluatedByAge(r: Record, lastTick: nat) {
    && (r.evaluated1s <==> lastTick > r.timestamp + SECOND)
    && (r.evaluated5s <==> lastTick > r.timestamp + FIVE_SECONDS)
  }

  /** All fills in order of time, evaluated by their age, those dropped evaluated twice over. */
  ghost predicate HistoryInv(all: seq<Record>, popped: nat, lastTick: nat, now: nat) {
    && popped <= |all| && lastTick <= now
    && (forall i, j :: 0 <= i <= j < |all| ==> all[i].timestamp <= all[j].timestamp)
    && (forall i :: 0 <= i < |all| ==> all[i].timestamp <= now)
    && (forall i :: popped <= i < |all| ==> EvaluatedByAge(all[i], lastTick))
    && (forall i :: 0 <= i < popped ==> all[i].evaluated1s && all[i].evaluated5s)
  }

  ghost predicate Inv(t: Tracker) {
    && HistoryInv(t.all, t.popped, t.lastTick, t.now)
    && t.deque == t.all[t.popped..]
    && t.total1s == Realized1s(t.all) && t.total5s == Realized5s(t.all)
  }

  lemma {:induction false} RealizedConcat(rs: seq<Record>, ts: seq<Record>)
    ensures Realized1s(rs + ts) == Realized1s(rs) + Realized1s(ts)
    ensures Realized5s(rs + ts) == Realized5s(rs) + Realized5s(ts)
  {
    if ts == [] {
      assert rs + ts == rs;
    } else {
      RealizedConcat(rs, ts[..|ts| - 1]);
      assert (rs + ts)[..|rs + ts| - 1] == rs + ts[..|ts| - 1];
    }
  }

  lemma EvaluatedByAgeAfter(r: Record, lastTick: nat, now: nat, microPrice: real)
    requires EvaluatedByAge(r, lastTick) && lastTick <= now && r.timestamp <= now
    ensures EvaluatedByAge(Evaluated(r, now, microPrice), now)
  {
  }

  lemma HistoryBounds(t: Tracker)
    requires HistoryInv(t.all, t.popped, t.lastTick, t.now)
    ensures t.popped <= |t.all| && t.lastTick <= t.now
  {
  }

  lemma FillKeepsHistory(all: seq<Record>, popped: nat, lastTick: nat, last: nat, r: Record)
    requires HistoryInv(all, popped, lastTick, last) && last <= r.timestamp
    requires !r.evaluated1s && !r.evaluated5s
    ensures HistoryInv(all + [r], popped, lastTick, r.timestamp)
  {
  }

  lemma FillKeepsInv(t: Tracker, e: Event)
    requires Inv(t) && e.FillAt? && t.now <= e.now
    ensures Inv(Step(t, e))
  {
    hide HistoryInv;
    var r := NewRecord(e);
    HistoryBounds(t);
    FillKeepsHistory(t.all, t.popped, t.lastTick, t.now, r);
    RealizedConcat(t.all, [r]);
    assert [r][..0] == [];
    assert (t.all + [r])[t.popped..] == t.all[t.popped..] + [r];
  }

  /** The history after a tick: the part already dropped as it was, the rest evaluated. */
  function TickedHistory(t: Tracker, now: nat, microPrice: real): seq<Record>
    requires t.popped <= |t.all|
  {
    t.all[..t.popped] + EvaluatedAll(t.deque, now, microPrice)
  }

  lemma TickedHistoryAt(t: Tracker, now: nat, microPrice: real)
    requires t.popped <= |t.all| && t.deque == t.all[t.popped..]
    ensures |TickedHistory(t, now, microPrice)| == |t.all|
    ensures forall i :: 0 <= i < |t.all| ==>
              TickedHistory(t, now, microPrice)[i]
              == if i < t.popped then t.all[i] else Evaluated(t.all[i], now, microPrice)
    ensures forall i :: 0 <= i < |t.all| ==> TickedHistory(t, now, microPrice)[i].timestamp == t.all[i].timestamp
  {
  }

  lemma TickKeepsTotals(t: Tracker, now: nat, microPrice: real)
    requires Inv(t)
    ensures var u := Step(t, Tick(now, microPrice));
            u.total1s == Realized1s(u.all) && u.total5s == Realized5s(u.all)
  {
    assert t.all == t.all[..t.popped] + t.deque;
    RealizedConcat(t.all[..t.popped], t.deque);
    RealizedConcat(t.all[..t.popped], EvaluatedAll(t.deque, now, microPrice));
  }

  /** What is dropped at a tick had both evaluations. */
  lemma DroppedIsEvaluated(r: Record, lastTick: nat, now: nat, microPrice: real)
    requires EvaluatedByAge(r, lastTick) && lastTick <= now && r.timestamp <= now
    requires Age(now, r.timestamp) > TEN_SECONDS
    ensures Evaluated(r, now, microPrice).evaluated1s && Evaluated(r, now, microPrice).evaluated5s
  {
    EvaluatedByAgeAfter(r, lastTick, now, microPrice);
  }

  lemma TickKeepsHistory(all: seq<Record>, all': seq<Record>, popped: nat, popped': nat,
                         lastTick: nat, last: nat, now: nat, microPrice: real)
    requires HistoryInv(all, popped, lastTick, last) && last <= now && |all'| == |all|
    requires forall i :: 0 <= i < |all| ==>
               all'[i] == if i < popped then all[i] else Evaluated(all[i], now, microPrice)
    requires popped <= popped' <= |all|
    requires forall i :: popped <= i < popped' ==> Age(now, all[i].timestamp) > TEN_SECONDS
    ensures HistoryInv(all', popped', now, now)
  {
    forall i | popped <= i < |all| ensures EvaluatedByAge(all'[i], now) {
      EvaluatedByAgeAfter(all[i], lastTick, now, microPrice);
    }
    forall i | 0 <= i < popped' ensures all'[i].evaluated1s && all'[i].evaluated5s {
      if i >= popped {
        DroppedIsEvaluated(all[i], lastTick, now, microPrice);
      }
    }
    assert forall i :: 0 <= i < |all| ==> all'[i].timestamp == all[i].timestamp;
  }

  /** A tick drops from the front of the deque what has become too old, and nothing else. */
  lemma TickDrops(t: Tracker, now: nat, microPrice: real)
    requires t.popped <= |t.all| && t.deque == t.all[t.popped..]
    ensures var u := Step(t, Tick(now, microPrice));
            && u.all == TickedHistory(t, now, microPrice)
            && t.popped <= u.popped <= |t.all| == |u.all| && u.deque == u.all[u.popped..]
            && (forall i :: t.popped <= i < u.popped ==> Age(now, t.all[i].timestamp) > TEN_SECONDS)
            && (u.deque != [] ==> Age(now, u.deque[0].timestamp) <= TEN_SECONDS)
  {
    var rs := EvaluatedAll(t.deque, now, microPrice);
    var n := OldCount(rs, now);
    var all := TickedHistory(t, now, microPrice);
    assert all[t.popped + n..] == rs[n..];
    forall i | t.popped <= i < t.popped + n ensures Age(now, t.all[i].timestamp) > TEN_SECONDS {
      assert rs[i - t.popped].timestamp == t.all[i].timestamp;
    }
  }

  lemma TickKeepsInv(t: Tracker, e: Event)
    requires Inv(t) && e.Tick? && t.now <= e.now
    ensures Inv(Step(t, e))
  {
    hide HistoryInv;
    TickKeepsTotals(t, e.now, e.microPrice);
    HistoryBounds(t);
    TickDrops(t, e.now, e.microPrice);
    TickedHistoryAt(t, e.now, e.microPrice);
    TickKeepsHistory(t.all, Step(t, e).all, t.popped, Step(t, e).popped, t.lastTick, t.now, e.now, e.microPrice);
  }

  lemma {:induction false} RunInv(es: seq<Event>)
    requires Clocked(es)
    ensures Inv(Run(es)) && (es != [] ==> Run(es).now == es[|es| - 1].now) && (es == [] ==> Run(es).now == 0)
  {
    if es != [] {
      var front, e := es[..|es| - 1], es[|es| - 1];
      RunInv(front);
      assert front != [] ==> front[|front| - 1].now <= e.now;
      if e.FillAt? {
        FillKeepsInv(Run(front), e);
      } else {
        TickKeepsInv(Run(front), e);
      }
    }
  }

  // ----- main results

  lemma YoungFrontMeansYoung(t: Tracker)
    requires HistoryInv(t.all, t.popped, t.lastTick, t.now) && t.deque == t.all[t.popped..]
    requires t.deque != [] ==> Age(t.now, t.deque[0].timestamp) <= TEN_SECONDS
    ensures forall i :: 0 <= i < |t.deque| ==> t.now - t.deque[i].timestamp <= TEN_SECONDS
  {
    assert forall i :: 0 <= i < |t.deque| ==> t.deque[i] == t.all[t.popped + i];
  }

  /** Right after an evaluation nothing older than ten seconds is left. */
  lemma NothingOldSurvives(es: seq<Event>)
    requires Clocked(es) && es != [] && es[|es| - 1].Tick?
    ensures forall i :: 0 <= i < |Run(es).deque| ==> Run(es).now - Run(es).deque[i].timestamp <= 10000
  {
    hide HistoryInv;
    var front, last := es[..|es| - 1], es[|es| - 1];
    RunInv(es);
    RunInv(front);
    HistoryBounds(Run(front));
    TickDrops(Run(front), last.now, last.microPrice);
    YoungFrontMeansYoung(Run(es));
  }

  /** `later` has all fills of `earlier`, and no evaluation ever taken is taken again or changed. */
  ghost predicate Extends(earlier: seq<Record>, later: seq<Record>) {
    && |earlier| <= |later|
    && forall i :: 0 <= i < |earlier| ==>
         && later[i].timestamp == earlier[i].timestamp && later[i].side == earlier[i].side
         && later[i].fillPrice == earlier[i].fillPrice && later[i].qty == earlier[i].qty
         && (earlier[i].evaluated1s ==> later[i].evaluated1s && later[i].edge1s == earlier[i].edge1s)
         && (earlier[i].evaluated5s ==> later[i].evaluated5s && later[i].edge5s == earlier[i].edge5s)
  }

  lemma StepExtends(t: Tracker, e: Event)
    requires Inv(t)
    ensures Extends(t.all, Step(t, e).all)
  {
    if e.Tick? {
      TickedHistoryAt(t, e.now, e.microPrice);
      assert Step(t, e).all == TickedHistory(t, e.now, e.microPrice);
    }
  }

  /** Over every run, each fill is evaluated at most once per horizon, whatever happens later. */
  lemma {:induction false} EvaluatedOnce(es: seq<Event>, k: nat)
    requires Clocked(es) && k <= |es|
    ensures Extends(Run(es[..k]).all, Run(es).all)
  {
    if k == |es| {
      assert es[..k] == es;
    } else {
      var front := es[..|es| - 1];
      assert front[..k] == es[..k];
      EvaluatedOnce(front, k);
      RunInv(front);
      StepExtends(Run(front), es[|es| - 1]);
    }
  }

  // ----- which micro-price a fill is marked to

  /** The micro-price of the first evaluation after a moment. */
  function FirstMark(es: seq<Event>, moment: nat): Option<real> {
    if es == [] then None
    else
      match FirstMark(es[..|es| - 1], moment)
      case Some(m) => Some(m)
      case None =>
        var e := es[|es| - 1];
        if e.Tick? && e.now > moment then Some(e.microPrice) else None
  }

  /** What an event's fill gains against a price, per unit: upwards for a buy, downwards for a sell. */
  function Gain(e: Event, price: real): real
    requires e.FillAt?
  {
    if e.side == Buy then price - e.price as real else e.price as real - price
  }

  predicate AllFills(es: seq<Event>) {
    forall i :: 0 <= i < |es| ==> es[i].FillAt?
  }

  /** The fills among the events, as they came. */
  function FillsIn(es: seq<Event>): (fs: seq<Event>)
    ensures AllFills(fs)
  {
    if es == [] then []
    else FillsIn(es[..|es| - 1]) + (if es[|es| - 1].FillAt? then [es[|es| - 1]] else [])
  }

  /** The record has the time, side, price, quantity and micro-price of the event. */
  predicate Records(r: Record, e: Event)
    requires e.FillAt?
  {
    && r.timestamp == e.now && r.side == e.side && r.fillPrice == e.price
    && r.qty == e.qty && r.microPriceAtFill == e.microPrice
  }

  /** An evaluation was taken exactly if there was one after the horizon, and at the first such micro-price. */
  predicate MarkedTo(r: Record, e: Event, mark1s: Option<real>, mark5s: Option<real>)
    requires e.FillAt?
  {
    && (r.evaluated1s <==> mark1s.Some?)
    && (r.evaluated1s ==> r.edge1s == Gain(e, mark1s.value))
    && (r.evaluated5s <==> mark5s.Some?)
    && (r.evaluated5s ==> r.edge5s == Gain(e, mark5s.value))
  }

  predicate Marked(es: seq<Event>, r: Record, e: Event)
    requires e.FillAt?
  {
    Records(r, e) && MarkedTo(r, e, FirstMark(es, e.now + 1000), FirstMark(es, e.now + 5000))
  }

  /** The records are the fills, in order, each marked to the first micro-prices after its horizons. */
  predicate AllMarked(es: seq<Event>, all: seq<Record>, fills: seq<Event>)
    requires AllFills(fills)
  {
    && |all| == |fills|
    && forall i :: 0 <= i < |all| ==> Marked(es, all[i], fills[i])
  }

  lemma {:induction false} NoMarkYet(es: seq<Event>, moment: nat)
    requires forall i :: 0 <= i < |es| ==> es[i].now <= moment
    ensures FirstMark(es, moment) == None
  {
    if es != [] {
      NoMarkYet(es[..|es| - 1], moment);
    }
  }

  lemma MarkAfterTick(r: Record, e: Event, mark1s: Option<real>, mark5s: Option<real>, now: nat, price: real)
    requires e.FillAt? && Records(r, e) && MarkedTo(r, e, mark1s, mark5s) && e.now <= now
    ensures Records(Evaluated(r, now, price), e)
    ensures MarkedTo(Evaluated(r, now, price), e,
                     if mark1s.None? && now > e.now + 1000 then Some(price) else mark1s,
                     if mark5s.None? && now > e.now + 5000 then Some(price) else mark5s)
  {
  }

  lemma TickMarks(front: seq<Event>, tick: Event, r: Record, e: Event)
    requires tick.Tick? && e.FillAt? && Marked(front, r, e) && e.now <= tick.now
    ensures Marked(front + [tick], Evaluated(r, tick.now, tick.microPrice), e)
    ensures r.evaluated1s && r.evaluated5s ==> Marked(front + [tick], r, e)
  {
    assert (front + [tick])[..|front|] == front;
    MarkAfterTick(r, e, FirstMark(front, e.now + 1000), FirstMark(front, e.now + 5000), tick.now, tick.microPrice);
  }

  lemma FillMarksNothing(front: seq<Event>, fill: Event, r: Record, e: Event)
    requires fill.FillAt? && e.FillAt? && Marked(front, r, e)
    ensures Marked(front + [fill], r, e)
  {
    assert (front + [fill])[..|front|] == front;
  }

  lemma NewFillUnmarked(front: seq<Event>, e: Event)
    requires e.FillAt? && Clocked(front + [e])
    ensures Marked(front + [e], NewRecord(e), e)
  {
    var es := front + [e];
    assert forall i :: 0 <= i < |es| ==> es[i].now <= es[|front|].now;
    NoMarkYet(es, e.now + 1000);
    NoMarkYet(es, e.now + 5000);
  }

  lemma FillKeepsMarks(front: seq<Event>, e: Event, all: seq<Record>, fills: seq<Event>)
    requires e.FillAt? && Clocked(front + [e]) && AllFills(fills) && AllMarked(front, all, fills)
    ensures AllMarked(front + [e], all + [NewRecord(e)], fills + [e])
  {
    hide Marked;
    NewFillUnmarked(front, e);
    forall i | 0 <= i < |all| ensures Marked(front + [e], all[i], fills[i]) {
      FillMarksNothing(front, e, all[i], fills[i]);
    }
  }

  lemma TickKeepsMarks(front: seq<Event>, e: Event, t: Tracker, fills: seq<Event>)
    requires e.Tick? && Inv(t) && t.now <= e.now && AllFills(fills) && AllMarked(front, t.all, fills)
    ensures AllMarked(front + [e], Step(t, e).all, fills)
  {
    hide Clocked, MarkedTo, FirstMark;
    TickedHistoryAt(t, e.now, e.microPrice);
    var all := Step(t, e).all;
    assert all == TickedHistory(t, e.now, e.microPrice);
    forall i | 0 <= i < |all| ensures Marked(front + [e], all[i], fills[i]) {
      assert Marked(front, t.all[i], fills[i]);
      TickMarks(front, e, t.all[i], fills[i]);
    }
  }

  lemma StepKeepsMarks(front: seq<Event>, e: Event, t: Tracker, fills: seq<Event>)
    requires Clocked(front + [e]) && Inv(t) && t.now <= e.now && AllFills(fills) && AllMarked(front, t.all, fills)
    ensures AllMarked(front + [e], Step(t, e).all, fills + (if e.FillAt? then [e] else []))
  {
    hide AllMarked, Inv, Clocked;
    if e.FillAt? {
      FillKeepsMarks(front, e, t.all, fills);
    } else {
      TickKeepsMarks(front, e, t, fills);
      assert fills + [] == fills;
    }
  }

  lemma ClockGoesOn(es: seq<Event>)
    requires Clocked(es) && es != []
    ensures Clocked(es[..|es| - 1])
    ensures Inv(Run(es[..|es| - 1])) && Run(es[..|es| - 1]).now <= es[|es| - 1].now
  {
    hide Inv, Run;
    RunInv(es[..|es| - 1]);
  }

  lemma {:induction false} RunMarks(es: seq<Event>)
    requires Clocked(es)
    ensures AllMarked(es, Run(es).all, FillsIn(es))
  {
    if es != [] {
      hide AllMarked, Inv, Step, Clocked;
      var front, e := es[..|es| - 1], es[|es| - 1];
      assert front + [e] == es;
      ClockGoesOn(es);
      RunMarks(front);
      StepKeepsMarks(front, e, Run(front), FillsIn(front));
    }
  }

  /** The sum of the fills' gains against the first micro-prices after a horizon, times their quantities. */
  function Markout(fills: seq<Event>, es: seq<Event>, horizon: nat): real
    requires AllFills(fills)
  {
    if fills == [] then 0.0
    else
      var e := fills[|fills| - 1];
      Markout(fills[..|fills| - 1], es, horizon)
      + match FirstMark(es, e.now + horizon)
        case Some(m) => Gain(e, m) * e.qty as real
        case None => 0.0
  }

  lemma {:induction false} RealizedIsMarkout(es: seq<Event>, all: seq<Record>, fills: seq<Event>)
    requires AllFills(fills) && AllMarked(es, all, fills)
    ensures Realized1s(all) == Markout(fills, es, 1000)
    ensures Realized5s(all) == Markout(fills, es, 5000)
  {
    if all != [] {
      RealizedIsMarkout(es, all[..|all| - 1], fills[..|fills| - 1]);
      assert Marked(es, all[|all| - 1], fills[|fills| - 1]);
    }
  }

  ghost predicate DroppedAre(all: seq<Record>, popped: nat, lastTick: nat) {
    forall i :: 0 <= i < |all| ==> (i < popped <==> lastTick > all[i].timestamp + 10000)
  }

  lemma OlderAreDropped(
      all: seq<Record>, all': seq<Record>, popped: nat, popped': nat, lastTick: nat, now: nat)
    requires |all| == |all'| && popped <= popped' <= |all| && lastTick <= now && DroppedAre(all, popped, lastTick)
    requires forall i, j :: 0 <= i <= j < |all| ==> all[i].timestamp <= all[j].timestamp
    requires forall i :: 0 <= i < |all| ==> all[i].timestamp <= now && all'[i].timestamp == all[i].timestamp
    requires forall i :: popped <= i < popped' ==> Age(now, all[i].timestamp) > TEN_SECONDS
    requires popped' < |all| ==> Age(now, all[popped'].timestamp) <= TEN_SECONDS
    ensures DroppedAre(all', popped', now)
  {
    forall i | 0 <= i < |all'| ensures i < popped' <==> now > all'[i].timestamp + 10000 {
      if i >= popped' {
        assert all[popped'].timestamp <= all[i].timestamp;
      } else if i >= popped {
        assert Age(now, all[i].timestamp) > TEN_SECONDS;
      }
    }
  }

  lemma HistoryOrder(t: Tracker)
    requires HistoryInv(t.all, t.popped, t.lastTick, t.now)
    ensures forall i, j :: 0 <= i <= j < |t.all| ==> t.all[i].timestamp <= t.all[j].timestamp
    ensures forall i :: 0 <= i < |t.all| ==> t.all[i].timestamp <= t.now
  {
  }

  lemma TickDropsByAge(t: Tracker, e: Event)
    requires Inv(t) && e.Tick? && t.now <= e.now && DroppedAre(t.all, t.popped, t.lastTick)
    ensures DroppedAre(Step(t, e).all, Step(t, e).popped, e.now)
  {
    hide HistoryInv, DroppedAre, Step;
    HistoryBounds(t);
    HistoryOrder(t);
    TickDrops(t, e.now, e.microPrice);
    TickedHistoryAt(t, e.now, e.microPrice);
    var u := Step(t, e);
    assert u.popped < |u.all| ==> u.deque[0].timestamp == t.all[u.popped].timestamp;
    OlderAreDropped(t.all, u.all, t.popped, u.popped, t.lastTick, e.now);
  }

  lemma {:induction false} DroppedByAge(es: seq<Event>)
    requires Clocked(es)
    ensures DroppedAre(Run(es).all, Run(es).popped, Run(es).lastTick)
  {
    if es != [] {
      var front, e := es[..|es| - 1], es[|es| - 1];
      ClockGoesOn(es);
      DroppedByAge(front);
      if e.FillAt? {
        HistoryBounds(Run(front));
      } else {
        TickDropsByAge(Run(front), e);
      }
    }
  }

  /**
   Completeness: with a clock that never goes back, the history is all fills in their order, and each is
   evaluated for a horizon exactly if an evaluation came after it, against the micro-price of the first one
   that did. The deque is the history less what was dropped, which is exactly what was more than ten seconds
   old at the last evaluation, and had both evaluations. Each running total is the sum of all fills' gains at
   their first evaluations.
   */
  lemma MarkoutsComplete(es: seq<Event>)
    requires Clocked(es)
    ensures var t := Run(es);
            && t.popped <= |t.all| && t.deque == t.all[t.popped..]
            && (forall i, j :: 0 <= i <= j < |t.all| ==> t.all[i].timestamp <= t.all[j].timestamp)
            && AllMarked(es, t.all, FillsIn(es))
            && (forall i :: 0 <= i < |t.all| ==> (i < t.popped <==> t.lastTick > t.all[i].timestamp + 10000))
            && (forall i :: 0 <= i < t.popped ==> t.all[i].evaluated1s && t.all[i].evaluated5s)
            && t.total1s == Markout(FillsIn(es), es, 1000)
            && t.total5s == Markout(FillsIn(es), es, 5000)
  {
    RunInv(es);
    RunMarks(es);
    RealizedIsMarkout(es, Run(es).all, FillsIn(es));
    DroppedByAge(es);
  }

  // ----- the code

  class MarkoutTracker {
    var markouts: seq<Record>
    var total1s: real
    var total5s: real

    constructor ()
      ensures markouts == START.deque && total1s == START.total1s && total5s == START.total5s
    {
      markouts, total1s, total5s := [], 0.0, 0.0;
    }

    method OnFill(now: nat, side: Side, price: int, qty: nat, microPrice: real)
      modifies `markouts
      ensures |markouts| == |old(markouts)| + 1 && markouts[..|old(markouts)|] == old(markouts)
      ensures var r := markouts[|old(markouts)|];
              && r.timestamp == now && r.side == side && r.fillPrice == price && r.qty == qty
              && r.microPriceAtFill == microPrice && !r.evaluated1s && !r.evaluated5s
              && r == NewRecord(FillAt(now, side, price, qty, microPrice))
    {
      var rec := Record(now, side, price, qty, microPrice, false, false, 0.0, 0.0);
      markouts := markouts + [rec];
    }

    /** Evaluate one record for the horizons it has reached, adding its edge to the running totals. */
    method EvaluateRecord(r: Record, now: nat, microPrice: real) returns (m: Record)
      modifies `total1s, `total5s
      ensures m == Evaluated(r, now, microPrice)
      ensures total1s == old(total1s) + Worth1s(m) - Worth1s(r)
      ensures total5s == old(total5s) + Worth5s(m) - Worth5s(r)
    {
      m := r;
      if !m.evaluated1s && Age(now, m.timestamp) > SECOND {
        var edge := if m.side == Buy then microPrice - m.fillPrice as real else m.fillPrice as real - microPrice;
        m := m.(edge1s := edge, evaluated1s := true);
        total1s := total1s + edge * m.qty as real;
      }
      if !m.evaluated5s && Age(now, m.timestamp) > FIVE_SECONDS {
        var edge := if m.side == Buy then microPrice - m.fillPrice as real else m.fillPrice as real - microPrice;
        m := m.(edge5s := edge, evaluated5s := true);
        total5s := total5s + edge * m.qty as real;
      }
    }

    method EvaluateAll(now: nat, microPrice: real)
      modifies this
      ensures markouts == EvaluatedAll(old(markouts), now, microPrice)
      ensures total1s == old(total1s) + Realized1s(markouts) - Realized1s(old(markouts))
      ensures total5s == old(total5s) + Realized5s(markouts) - Realized5s(old(markouts))
    {
      ghost var before := markouts;
      for i := 0 to |markouts|
        invariant |markouts| == |before|
        invariant forall k :: 0 <= k < |before| ==>
                    markouts[k] == if k < i then Evaluated(before[k], now, microPrice) else before[k]
        invariant total1s == old(total1s) + Realized1s(markouts[..i]) - Realized1s(before[..i])
        invariant total5s == old(total5s) + Realized5s(markouts[..i]) - Realized5s(before[..i])
      {
        var m := EvaluateRecord(markouts[i], now, microPrice);
        assert before[..i + 1][..i] == before[..i];
        ghost var done := markouts[..i];
        markouts := markouts[i := m];
        assert markouts[..i + 1][..i] == done;
      }
      assert before[..|before|] == before && markouts[..|markouts|] == markouts;
    }

    /** Drop the records older than ten seconds from the front. */
    method DropOld(now: nat)
      modifies `markouts
      ensures markouts == old(markouts)[OldCount(old(markouts), now)..]
    {
      ghost var popped := 0;
      while markouts != [] && Age(now, markouts[0].timestamp) > TEN_SECONDS
        invariant popped <= |old(markouts)| && markouts == old(markouts)[popped..]
        invariant OldCount(old(markouts), now) == popped + OldCount(markouts, now)
        decreases |markouts|
      {
        markouts := markouts[1..];
        popped := popped + 1;
      }
    }

    method EvaluateMarkouts(now: nat, microPrice: real)
      modifies this
      ensures forall t: Tracker ::
                t.deque == old(markouts) && t.total1s == old(total1s) && t.total5s == old(total5s) ==>
                && markouts == Step(t, Tick(now, microPrice)).deque
                && total1s == Step(t, Tick(now, microPrice)).total1s
                && total5s == Step(t, Tick(now, microPrice)).total5s
    {
      EvaluateAll(now, microPrice);
      DropOld(now);
    }
  }
}
