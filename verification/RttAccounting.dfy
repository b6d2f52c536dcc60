/**
 Round-trip accounting of the stress trader under interleaving: the sending thread transmits and then
 records, the io thread matches and then accumulates, and the timer thread reports.
 */
module RttAccounting {
  import opened Types
  import A = AccountModule
  import AlgoClientModule

  /** One measured round trip. */
  datatype Sample = Sample(execId: nat, rtt: real)

  /** The samples of the current step, with their running count, sum and maximum. */
  datatype Stats = Stats(samples: seq<Sample>, count: nat, sum: real, max: real)

  const NO_STATS := Stats([], 0, 0.0, 0.0)

  /** What the io thread holds between its two critical sections. */
  datatype Hand =
    | Empty
    | Matched(execId: nat, start: nat)
    | Measured(execId: nat, rtt: real)

  /**
   `sending` is the request transmitted and not yet recorded, `hand` the response being processed; `recorded`
   and `reported` are histories. The clock counts nanoseconds.
   */
  datatype State = State(
    nextId: nat, sending: Option<nat>, pending: map<nat, nat>, hand: Hand,
    stats: Stats, reported: seq<Sample>, recorded: seq<nat>, clock: nat)

  const INITIAL := State(AlgoClientModule.FIRST_ID, None, map[], Empty, NO_STATS, [], [], 0)

  datatype Action =
    | Send
    | Record
    | Match(execId: nat)
    | Measure
    | Accumulate
    | Report
    | Advance(ns: nat)

  /** A duration given in nanoseconds. */
  function Microseconds(start: nat, end: nat): (us: real)
    ensures us * 1000.0 == (end - start) as real
  {
    (end - start) as real / 1000.0
  }

  function AddSample(s: Stats, x: Sample): Stats {
    Stats(s.samples + [x], s.count + 1, s.sum + x.rtt, if x.rtt > s.max then x.rtt else s.max)
  }

  /** One step of one thread. A step that is not possible changes nothing. */
  function Step(s: State, a: Action): State {
    match a
    case Send => if s.sending.None? then s.(nextId := s.nextId + 1, sending := Some(s.nextId)) else s
    case Record =>
      if s.sending.Some? then
        s.(sending := None, pending := s.pending[s.sending.value := s.clock],
           recorded := s.recorded + [s.sending.value])
      else s
    case Match(id) =>
      if s.hand.Empty? && id in s.pending then
        s.(hand := Matched(id, s.pending[id]), pending := s.pending - {id})
      else s
    case Measure =>
      if s.hand.Matched? then
        s.(hand := Measured(s.hand.execId, Microseconds(s.hand.start, s.clock)))
      else s
    case Accumulate =>
      if s.hand.Measured? then
        s.(hand := Empty, stats := AddSample(s.stats, Sample(s.hand.execId, s.hand.rtt)))
      else s
    case Report => s.(stats := NO_STATS, reported := s.reported + s.stats.samples)
    case Advance(ns) => s.(clock := s.clock + ns)
  }

  function Run(actions: seq<Action>): State {
    if actions == [] then INITIAL else Step(Run(actions[..|actions| - 1]), actions[|actions| - 1])
  }

  // ----- the invariant

  function SumRtt(xs: seq<Sample>): real {
    if xs == [] then 0.0 else SumRtt(xs[..|xs| - 1]) + xs[|xs| - 1].rtt
  }

  function Ids(xs: seq<Sample>): seq<nat> {
    seq(|xs|, i requires 0 <= i < |xs| => xs[i].execId)
  }

  /** The count, the sum and the maximum are those of the samples. */
  ghost predicate StatsInv(s: Stats) {
    && s.count == |s.samples|
    && s.sum == SumRtt(s.samples)
    && (forall i :: 0 <= i < |s.samples| ==> 0.0 <= s.samples[i].rtt <= s.max)
    && (s.samples == [] ==> s.max == 0.0)
    && (s.samples != [] ==> exists i :: 0 <= i < |s.samples| && s.samples[i].rtt == s.max)
  }

  function InHand(s: State): multiset<nat> {
    if s.hand.Empty? then multiset{} else multiset{s.hand.execId}
  }

  predicate Increasing(ids: seq<nat>) {
    forall i, j :: 0 <= i < j < |ids| ==> ids[i] < ids[j]
  }

  /** Requests are recorded in the order of their ids, which are below every id still to come. */
  predicate Ordered(s: State) {
    && Increasing(s.recorded)
    && (forall i :: 0 <= i < |s.recorded| ==> s.recorded[i] < s.nextId)
    && (s.sending.Some? ==>
          s.sending.value < s.nextId && forall i :: 0 <= i < |s.recorded| ==> s.recorded[i] < s.sending.value)
  }

  /** No request was sent in the future. */
  predicate Timed(s: State) {
    && (forall id :: id in s.pending ==> s.pending[id] <= s.clock)
    && (s.hand.Matched? ==> s.hand.start <= s.clock)
    && (s.hand.Measured? ==> s.hand.rtt >= 0.0)
  }

  /** Every recorded request is pending, in hand, in the current step or reported, and only once. */
  ghost predicate Accounted(s: State) {
    multiset(s.recorded) ==
    multiset(s.pending.Keys) + InHand(s) + multiset(Ids(s.stats.samples)) + multiset(Ids(s.reported))
  }

  ghost predicate Inv(s: State) {
    Ordered(s) && Timed(s) && StatsInv(s.stats) && Accounted(s)
  }

  lemma {:induction false} SumAppend(xs: seq<Sample>, x: Sample)
    ensures SumRtt(xs + [x]) == SumRtt(xs) + x.rtt
  {
    assert (xs + [x])[..|xs|] == xs;
  }

  lemma AddSampleKeepsInv(s: Stats, x: Sample)
    requires StatsInv(s) && x.rtt >= 0.0
    ensures StatsInv(AddSample(s, x))
  {
    var t := AddSample(s, x);
    SumAppend(s.samples, x);
    if x.rtt > s.max {
      assert t.samples[|s.samples|].rtt == t.max;
    } else if s.samples != [] {
      var i :| 0 <= i < |s.samples| && s.samples[i].rtt == s.max;
      assert t.samples[i].rtt == t.max;
    } else {
      assert t.samples[0].rtt == t.max;
    }
  }

  lemma PendingIsRecorded(s: State, id: nat)
    requires Accounted(s) && id in s.pending
    ensures id in s.recorded
  {
    assert id in multiset(s.pending.Keys);
    assert id in multiset(s.recorded);
  }

  lemma SendingIsNotPending(s: State)
    requires Ordered(s) && Accounted(s) && s.sending.Some?
    ensures s.sending.value !in s.pending
  {
    if s.sending.value in s.pending {
      PendingIsRecorded(s, s.sending.value);
    }
  }

  lemma RecordKeepsAccount(s: State)
    requires Ordered(s) && Accounted(s) && s.sending.Some?
    ensures Accounted(Step(s, Record))
  {
    var id, t := s.sending.value, Step(s, Record);
    SendingIsNotPending(s);
    assert t.pending.Keys == s.pending.Keys + {id};
    assert multiset(t.pending.Keys) == multiset(s.pending.Keys) + multiset{id};
    assert multiset(t.recorded) == multiset(s.recorded) + multiset{id};
  }

  lemma MatchKeepsAccount(s: State, id: nat)
    requires Accounted(s) && s.hand.Empty? && id in s.pending
    ensures Accounted(Step(s, Match(id)))
  {
    var t := Step(s, Match(id));
    assert t.pending.Keys == s.pending.Keys - {id};
    assert multiset(s.pending.Keys) == multiset(t.pending.Keys) + multiset{id};
  }

  lemma AccumulateKeepsAccount(s: State)
    requires Accounted(s) && s.hand.Measured?
    ensures Accounted(Step(s, Accumulate))
  {
    var t := Step(s, Accumulate);
    assert Ids(t.stats.samples) == Ids(s.stats.samples) + [s.hand.execId];
  }

  lemma IdsConcat(xs: seq<Sample>, ys: seq<Sample>)
    ensures multiset(Ids(xs + ys)) == multiset(Ids(xs)) + multiset(Ids(ys))
  {
    assert Ids(xs + ys) == Ids(xs) + Ids(ys);
  }

  lemma ReportKeepsAccount(s: State)
    requires Accounted(s)
    ensures Accounted(Step(s, Report))
  {
    IdsConcat(s.reported, s.stats.samples);
    assert multiset(Ids([])) == multiset{};
  }

  lemma StepKeepsAccount(s: State, a: Action)
    requires Ordered(s) && Accounted(s)
    ensures Accounted(Step(s, a))
  {
    hide Ordered;
    match a
    case Send =>
    case Record => if s.sending.Some? { RecordKeepsAccount(s); }
    case Match(id) => if s.hand.Empty? && id in s.pending { MatchKeepsAccount(s, id); }
    case Measure =>
    case Accumulate => if s.hand.Measured? { AccumulateKeepsAccount(s); }
    case Report => ReportKeepsAccount(s);
    case Advance(_) =>
  }

  lemma StepKeepsOrder(s: State, a: Action)
    requires Ordered(s)
    ensures Ordered(Step(s, a))
  {
  }

  lemma StepKeepsTimes(s: State, a: Action)
    requires Timed(s)
    ensures Timed(Step(s, a))
  {
  }

  lemma StepKeepsStats(s: State, a: Action)
    requires Timed(s) && StatsInv(s.stats)
    ensures StatsInv(Step(s, a).stats)
  {
    if a == Accumulate && s.hand.Measured? {
      AddSampleKeepsInv(s.stats, Sample(s.hand.execId, s.hand.rtt));
    }
  }

  lemma StepKeepsInv(s: State, a: Action)
    requires Inv(s)
    ensures Inv(Step(s, a))
  {
    hide Ordered, Timed, StatsInv, Accounted, Step;
    StepKeepsOrder(s, a);
    StepKeepsTimes(s, a);
    StepKeepsStats(s, a);
    StepKeepsAccount(s, a);
  }

  lemma {:induction false} RunInv(actions: seq<Action>)
    ensures Inv(Run(actions))
  {
    if actions == [] {
      assert Ids([]) == [];
    } else {
      RunInv(actions[..|actions| - 1]);
      StepKeepsInv(Run(actions[..|actions| - 1]), actions[|actions| - 1]);
    }
  }

  // ----- main results

  lemma {:induction false} IncreasingOnce(ids: seq<nat>, id: nat)
    requires Increasing(ids)
    ensures multiset(ids)[id] <= 1
  {
    if ids != [] {
      var front, last := ids[..|ids| - 1], ids[|ids| - 1];
      IncreasingOnce(front, id);
      assert last !in front;
      assert ids == front + [last];
    }
  }

  /** In every interleaving an execution id yields at most one sample, over all steps and reports. */
  lemma OneSamplePerRequest(actions: seq<Action>, id: nat)
    ensures multiset(Ids(Run(actions).reported + Run(actions).stats.samples))[id] <= 1
  {
    var s := Run(actions);
    RunInv(actions);
    IncreasingOnce(s.recorded, id);
    IdsConcat(s.reported, s.stats.samples);
  }

  /** No request is lost or counted twice: recorded = pending + in hand + accumulated + reported. */
  lemma RecordedIsAccountedFor(actions: seq<Action>)
    ensures var s := Run(actions);
            |s.recorded| == |s.pending| + (if s.hand.Empty? then 0 else 1) + |s.stats.samples| + |s.reported|
  {
    var s := Run(actions);
    RunInv(actions);
    assert |multiset(s.recorded)| == |s.recorded|;
    assert |multiset(s.pending.Keys)| == |s.pending.Keys| == |s.pending|;
  }

  /** Whenever the stats lock is free, the step's count, sum and maximum are those of its samples. */
  lemma StatsAreOfSamples(actions: seq<Action>)
    ensures StatsInv(Run(actions).stats)
  {
    RunInv(actions);
  }

  /** A pending request stays pending until its own response is matched. */
  lemma PendingStays(s: State, a: Action, id: nat)
    requires id in s.pending && a != Match(id)
    ensures id in Step(s, a).pending
  {
  }

  // ----- which requests are measured

  /** The request has been matched: it is in hand, among the samples of the step or reported. */
  predicate Taken(s: State, id: nat) {
    id in InHand(s) || id in Ids(s.stats.samples) || id in Ids(s.reported)
  }

  /** The response is found: it comes while its request is pending, and no other response is in hand. */
  predicate Found(s: State, a: Action, id: nat) {
    a == Match(id) && s.hand.Empty? && id in s.pending
  }

  lemma IdsMembers(xs: seq<Sample>, ys: seq<Sample>, id: nat)
    ensures id in Ids(xs + ys) <==> id in Ids(xs) || id in Ids(ys)
  {
    assert Ids(xs + ys) == Ids(xs) + Ids(ys);
  }

  lemma StepTakes(s: State, a: Action, id: nat)
    ensures Taken(Step(s, a), id) <==> Taken(s, id) || Found(s, a, id)
  {
    if a == Report {
      IdsMembers(s.reported, s.stats.samples, id);
      assert Ids([]) == [];
    } else if a == Accumulate && s.hand.Measured? {
      var x := Sample(s.hand.execId, s.hand.rtt);
      IdsMembers(s.stats.samples, [x], id);
      assert Ids([x]) == [x.execId];
    }
  }

  ghost predicate EverFound(actions: seq<Action>, id: nat) {
    exists k :: 0 <= k < |actions| && Found(Run(actions[..k]), actions[k], id)
  }

  lemma EverFoundNext(actions: seq<Action>, id: nat)
    requires actions != []
    ensures var front, last := actions[..|actions| - 1], actions[|actions| - 1];
            EverFound(actions, id) <==> EverFound(front, id) || Found(Run(front), last, id)
  {
    hide Run, Found;
    var n := |actions| - 1;
    assert forall k :: 0 <= k < n ==> actions[..n][..k] == actions[..k];
    if EverFound(actions[..n], id) {
      var k :| 0 <= k < n && Found(Run(actions[..n][..k]), actions[..n][k], id);
      assert Found(Run(actions[..k]), actions[k], id);
    }
  }

  /** Over every interleaving a request is measured exactly if its response once came while it was pending. */
  lemma {:induction false} MeasuredIffFound(actions: seq<Action>, id: nat)
    ensures Taken(Run(actions), id) <==> EverFound(actions, id)
  {
    if actions == [] {
      assert Ids([]) == [];
    } else {
      hide Taken, Found, EverFound, Step;
      var front, last := actions[..|actions| - 1], actions[|actions| - 1];
      MeasuredIffFound(front, id);
      EverFoundNext(actions, id);
      StepTakes(Run(front), last, id);
    }
  }

  /** A recorded request is either measured or still pending. */
  lemma MeasuredOrPending(actions: seq<Action>, id: nat)
    requires id in Run(actions).recorded
    ensures Taken(Run(actions), id) <==> id !in Run(actions).pending
  {
    var s := Run(actions);
    RunInv(actions);
    IncreasingOnce(s.recorded, id);
    assert multiset(s.recorded)[id] == 1;
    assert id in s.pending <==> multiset(s.pending.Keys)[id] == 1;
  }

  /**
   A response that overtakes the recording of its request yields no sample: it is matched against nothing,
   and the request is then recorded and stays pending.
   */
  lemma EarlyResponseIsLost(s: State)
    requires Inv(s) && s.sending.None?
    ensures var t := Step(Step(Step(s, Send), Match(s.nextId)), Record);
            s.nextId in t.pending && t.stats == s.stats && t.hand == s.hand && t.reported == s.reported
  {
    if s.nextId in s.pending {
      PendingIsRecorded(s, s.nextId);
    }
  }

  // ----- what a sample measures

  /** The clock when the request was last recorded. */
  function RecordTime(actions: seq<Action>, id: nat): Option<nat> {
    if actions == [] then None
    else
      var s := Run(actions[..|actions| - 1]);
      if actions[|actions| - 1] == Record && s.sending == Some(id) then Some(s.clock)
      else RecordTime(actions[..|actions| - 1], id)
  }

  /** The clock when the request's response was last measured. */
  function MeasureTime(actions: seq<Action>, id: nat): Option<nat> {
    if actions == [] then None
    else
      var s := Run(actions[..|actions| - 1]);
      if actions[|actions| - 1] == Measure && s.hand.Matched? && s.hand.execId == id then Some(s.clock)
      else MeasureTime(actions[..|actions| - 1], id)
  }

  /** The time is the request's way from its recording to its measuring. */
  predicate IsRoundTrip(actions: seq<Action>, id: nat, rtt: real) {
    && RecordTime(actions, id).Some? && MeasureTime(actions, id).Some?
    && RecordTime(actions, id).value <= MeasureTime(actions, id).value
    && rtt * 1000.0 == (MeasureTime(actions, id).value - RecordTime(actions, id).value) as real
  }

  predicate AllRoundTrips(actions: seq<Action>, xs: seq<Sample>) {
    forall i :: 0 <= i < |xs| ==> IsRoundTrip(actions, xs[i].execId, xs[i].rtt)
  }

  predicate TimesTrue(actions: seq<Action>, s: State) {
    && (forall id :: id in s.pending ==> RecordTime(actions, id) == Some(s.pending[id]))
    && (s.hand.Matched? ==> RecordTime(actions, s.hand.execId) == Some(s.hand.start))
    && (s.hand.Measured? ==> IsRoundTrip(actions, s.hand.execId, s.hand.rtt))
    && AllRoundTrips(actions, s.stats.samples)
    && AllRoundTrips(actions, s.reported)
  }

  /** An id that is neither recorded nor measured by the last step keeps its times. */
  lemma TimesStay(front: seq<Action>, a: Action, id: nat)
    requires a == Record ==> Run(front).sending != Some(id)
    requires a == Measure ==> !(Run(front).hand.Matched? && Run(front).hand.execId == id)
    ensures RecordTime(front + [a], id) == RecordTime(front, id)
    ensures MeasureTime(front + [a], id) == MeasureTime(front, id)
  {
    assert (front + [a])[..|front|] == front;
  }

  /** A request that has been taken or is pending is recorded, and so is not being sent. */
  lemma TakenIsRecorded(s: State, id: nat)
    requires Ordered(s) && Accounted(s) && (Taken(s, id) || id in s.pending)
    ensures id in s.recorded && s.sending != Some(id)
  {
    if id in s.pending {
      PendingIsRecorded(s, id);
    } else {
      assert id in multiset(s.recorded);
    }
  }

  /** The request in hand is neither among the samples nor reported nor pending. */
  lemma HandIsOnce(s: State, id: nat)
    requires Ordered(s) && Accounted(s) && !s.hand.Empty? && s.hand.execId == id
    ensures id !in Ids(s.stats.samples) && id !in Ids(s.reported) && id !in s.pending
  {
    IncreasingOnce(s.recorded, id);
    assert multiset(s.recorded)[id] >= InHand(s)[id] == 1;
    assert multiset(s.pending.Keys)[id] == if id in s.pending then 1 else 0;
  }

  lemma SamplesStay(front: seq<Action>, a: Action, xs: seq<Sample>)
    requires Ordered(Run(front)) && Accounted(Run(front))
    requires xs == Run(front).stats.samples || xs == Run(front).reported
    requires AllRoundTrips(front, xs)
    ensures AllRoundTrips(front + [a], xs)
  {
    hide Run, Ordered, Accounted, RecordTime, MeasureTime;
    var s := Run(front);
    forall i | 0 <= i < |xs| ensures IsRoundTrip(front + [a], xs[i].execId, xs[i].rtt) {
      assert Ids(xs)[i] == xs[i].execId;
      TakenIsRecorded(s, xs[i].execId);
      if !s.hand.Empty? {
        HandIsOnce(s, s.hand.execId);
      }
      TimesStay(front, a, xs[i].execId);
    }
  }

  lemma PendingStaysTimed(front: seq<Action>, a: Action)
    requires Ordered(Run(front)) && Accounted(Run(front)) && TimesTrue(front, Run(front))
    ensures var t := Step(Run(front), a);
            forall id :: id in t.pending ==> RecordTime(front + [a], id) == Some(t.pending[id])
  {
    hide Run, Ordered, Accounted, MeasureTime;
    var s, t := Run(front), Step(Run(front), a);
    assert (front + [a])[..|front|] == front;
    forall id | id in t.pending ensures RecordTime(front + [a], id) == Some(t.pending[id]) {
      if !(a == Record && s.sending == Some(id)) {
        assert id in s.pending && t.pending[id] == s.pending[id];
      }
    }
  }

  lemma HandStaysTimed(front: seq<Action>, a: Action)
    requires Ordered(Run(front)) && Timed(Run(front)) && Accounted(Run(front)) && TimesTrue(front, Run(front))
    ensures var t := Step(Run(front), a);
            && (t.hand.Matched? ==> RecordTime(front + [a], t.hand.execId) == Some(t.hand.start))
            && (t.hand.Measured? ==> IsRoundTrip(front + [a], t.hand.execId, t.hand.rtt))
  {
    hide Run, Ordered, Accounted, AllRoundTrips;
    var s, t := Run(front), Step(Run(front), a);
    assert (front + [a])[..|front|] == front;
    if t.hand != Empty {
      var id := t.hand.execId;
      TakenIsRecorded(s, id);
    }
  }

  /** Accumulating changes no time, so what was measured stays a round trip. */
  lemma HandStayed(front: seq<Action>, a: Action)
    requires a == Accumulate && Run(front).hand.Measured? && TimesTrue(front, Run(front))
    ensures IsRoundTrip(front + [a], Run(front).hand.execId, Run(front).hand.rtt)
  {
    TimesStay(front, a, Run(front).hand.execId);
  }

  lemma MoreRoundTrips(actions: seq<Action>, xs: seq<Sample>, ys: seq<Sample>)
    requires AllRoundTrips(actions, xs) && AllRoundTrips(actions, ys)
    ensures AllRoundTrips(actions, xs + ys)
  {
  }

  lemma SamplesStayTimed(front: seq<Action>, a: Action)
    requires Inv(Run(front)) && TimesTrue(front, Run(front))
    ensures AllRoundTrips(front + [a], Step(Run(front), a).stats.samples)
    ensures AllRoundTrips(front + [a], Step(Run(front), a).reported)
  {
    hide Run, IsRoundTrip, Ordered, Timed, StatsInv, Accounted;
    var s, t := Run(front), Step(Run(front), a);
    SamplesStay(front, a, s.stats.samples);
    SamplesStay(front, a, s.reported);
    if a == Accumulate && s.hand.Measured? {
      var x := Sample(s.hand.execId, s.hand.rtt);
      HandStayed(front, a);
      assert AllRoundTrips(front + [a], [x]);
      MoreRoundTrips(front + [a], s.stats.samples, [x]);
    } else if a == Report {
      MoreRoundTrips(front + [a], s.reported, s.stats.samples);
    }
  }

  lemma StepKeepsTimesTrue(front: seq<Action>, a: Action)
    requires Inv(Run(front)) && TimesTrue(front, Run(front))
    ensures TimesTrue(front + [a], Step(Run(front), a))
  {
    hide Run, Step, Ordered, Timed, StatsInv, Accounted;
    PendingStaysTimed(front, a);
    HandStaysTimed(front, a);
    SamplesStayTimed(front, a);
  }

  lemma {:induction false} RunTimesTrue(actions: seq<Action>)
    ensures TimesTrue(actions, Run(actions))
  {
    if actions != [] {
      var front, last := actions[..|actions| - 1], actions[|actions| - 1];
      RunTimesTrue(front);
      RunInv(front);
      StepKeepsTimesTrue(front, last);
      assert front + [last] == actions;
    }
  }

  /**
   In every interleaving each sample, reported or not, is the time on the clock from the recording of its
   request to the measuring of its response, in microseconds.
   */
  lemma SamplesAreRoundTrips(actions: seq<Action>)
    ensures AllRoundTrips(actions, Run(actions).stats.samples)
    ensures AllRoundTrips(actions, Run(actions).reported)
  {
    RunTimesTrue(actions);
  }

  // ----- the trader's own code

  /** The executions seen so far, by kind. */
  datatype Counters = Counters(acks: nat, modified: nat, cancels: nat, fills: nat)

  function Count(c: Counters, execType: ExecType): Counters {
    match execType
    case New => c.(acks := c.acks + 1)
    case Replaced => c.(modified := c.modified + 1)
    case Cancelled => c.(cancels := c.cancels + 1)
    case Fill => c.(fills := c.fills + 1)
    case PartialFill => c.(fills := c.fills + 1)
    case _ => c
  }

  predicate Confirms(execType: ExecType) {
    execType in {New, Replaced, Cancelled}
  }

  /** A response that is handled undisturbed: matched, measured at once and accumulated. */
  function Handled(s: State, execId: nat): State {
    Step(Step(Step(s, Match(execId)), Measure), Accumulate)
  }

  lemma HandledFields(s: State, id: nat)
    requires s.hand == Empty
    ensures id in s.pending ==>
              && Handled(s, id).pending == s.pending - {id}
              && Handled(s, id).stats == AddSample(s.stats, Sample(id, Microseconds(s.pending[id], s.clock)))
    ensures id !in s.pending ==> Handled(s, id) == s
  {
  }

  /** What an undisturbed response does: only a confirmation is matched, measured and accumulated. */
  function Respond(s: State, r: OrderResponse): State {
    if Confirms(r.execType) then Handled(s, r.execId) else s
  }

  function RespondAll(s: State, rs: seq<OrderResponse>): State {
    if rs == [] then s else Respond(RespondAll(s, rs[..|rs| - 1]), rs[|rs| - 1])
  }

  /** The response names the request and is of a kind that answers it. */
  predicate Names(r: OrderResponse, id: nat) {
    r.execId == id && (r.execType == New || r.execType == Replaced || r.execType == Cancelled)
  }

  predicate AnyNames(rs: seq<OrderResponse>, id: nat) {
    exists k :: 0 <= k < |rs| && Names(rs[k], id)
  }

  lemma RespondTakes(s: State, r: OrderResponse, id: nat)
    requires s.hand == Empty
    ensures Respond(s, r).hand == Empty
    ensures id in Respond(s, r).pending <==> id in s.pending && !Names(r, id)
    ensures id in Ids(Respond(s, r).stats.samples) <==>
            id in Ids(s.stats.samples) || (id in s.pending && Names(r, id))
  {
    if Confirms(r.execType) && r.execId in s.pending {
      HandledFields(s, r.execId);
      var x := Sample(r.execId, Microseconds(s.pending[r.execId], s.clock));
      IdsMembers(s.stats.samples, [x], id);
      assert Ids([x]) == [r.execId];
    }
  }

  lemma AnyNamesNext(rs: seq<OrderResponse>, id: nat)
    requires rs != []
    ensures AnyNames(rs, id) <==> AnyNames(rs[..|rs| - 1], id) || Names(rs[|rs| - 1], id)
  {
    var n := |rs| - 1;
    assert forall k :: 0 <= k < n ==> rs[..n][k] == rs[k];
    if AnyNames(rs[..n], id) {
      var k :| 0 <= k < n && Names(rs[..n][k], id);
      assert Names(rs[k], id);
    }
  }

  /**
   Over any undisturbed responses: a pending request is sampled, and no longer pending, exactly if a New, a
   Replaced or a Cancelled response named it; nothing else is ever sampled.
   */
  lemma {:induction false} SampledIffNamed(s: State, rs: seq<OrderResponse>, id: nat)
    requires s.hand == Empty
    ensures RespondAll(s, rs).hand == Empty
    ensures id in RespondAll(s, rs).pending <==> id in s.pending && !AnyNames(rs, id)
    ensures id in Ids(RespondAll(s, rs).stats.samples) <==>
            id in Ids(s.stats.samples) || (id in s.pending && AnyNames(rs, id))
  {
    if rs != [] {
      hide Respond, Names, AnyNames, Ids;
      SampledIffNamed(s, rs[..|rs| - 1], id);
      AnyNamesNext(rs, id);
      RespondTakes(RespondAll(s, rs[..|rs| - 1]), rs[|rs| - 1], id);
    } else {
      assert !AnyNames([], id);
    }
  }

  class RttTracker {
    const account: A.ClientAccount
    var requestSendTimes: map<nat, nat>
    var samples: seq<Sample>
    var stepRttCount: nat
    var stepRttSum: real
    var stepMaxRtt: real
    var ackCount: nat
    var modifyCount: nat
    var cancelCount: nat
    var fillCount: nat
    var lastResponseTime: nat

    ghost function Contents(): Stats
      reads this
    {
      Stats(samples, stepRttCount, stepRttSum, stepMaxRtt)
    }

    ghost function Seen(): Counters
      reads this
    {
      Counters(ackCount, modifyCount, cancelCount, fillCount)
    }

    constructor ()
      ensures Contents() == NO_STATS && requestSendTimes == map[] && Seen() == Counters(0, 0, 0, 0)
      ensures fresh(account) && account.Contents() == A.EMPTY
    {
      account := new A.ClientAccount();
      requestSendTimes, samples, stepRttCount, stepRttSum, stepMaxRtt := map[], [], 0, 0.0, 0.0;
      ackCount, modifyCount, cancelCount, fillCount, lastResponseTime := 0, 0, 0, 0, 0;
    }

    /** The step `Record`. */
    method RecordSend(execId: nat, now: nat)
      modifies `requestSendTimes
      ensures forall s: State ::
                s.pending == old(requestSendTimes) && s.sending == Some(execId) && s.clock == now ==>
                  requestSendTimes == Step(s, Record).pending
    {
      requestSendTimes := requestSendTimes[execId := now];
    }

    /** The step `Match`: find and take out a request's send time. */
    method MatchResponse(execId: nat) returns (start: Option<nat>)
      modifies `requestSendTimes
      ensures start == if execId in old(requestSendTimes) then Some(old(requestSendTimes)[execId]) else None
      ensures requestSendTimes == old(requestSendTimes) - {execId}
      ensures forall s: State :: s.pending == old(requestSendTimes) && s.hand == Empty ==>
                && requestSendTimes == Step(s, Match(execId)).pending
                && Step(s, Match(execId)).hand
                   == match start case Some(t) => Matched(execId, t) case None => Empty
    {
      start := None;
      if execId in requestSendTimes {
        start := Some(requestSendTimes[execId]);
        requestSendTimes := requestSendTimes - {execId};
      } else {
        assert requestSendTimes - {execId} == requestSendTimes;
      }
    }

    /** The step `Accumulate`. */
    method AccumulateRtt(execId: nat, rtt: real)
      modifies `samples, `stepRttCount, `stepRttSum, `stepMaxRtt
      ensures Contents() == AddSample(old(Contents()), Sample(execId, rtt))
      ensures forall s: State :: s.stats == old(Contents()) && s.hand == Measured(execId, rtt) ==>
                Contents() == Step(s, Accumulate).stats
    {
      stepRttSum := stepRttSum + rtt;
      stepRttCount := stepRttCount + 1;
      samples := samples + [Sample(execId, rtt)];
      if rtt > stepMaxRtt {
        stepMaxRtt := rtt;
      }
    }

    /** The execution is counted by its kind. */
    method CountExecution(execType: ExecType)
      modifies `ackCount, `modifyCount, `cancelCount, `fillCount
      ensures Seen() == Count(old(Seen()), execType)
    {
      match execType {
        case New => ackCount := ackCount + 1;
        case Replaced => modifyCount := modifyCount + 1;
        case Cancelled => cancelCount := cancelCount + 1;
        case Fill => fillCount := fillCount + 1;
        case PartialFill => fillCount := fillCount + 1;
        case _ =>
      }
    }

    /** A confirmation's round trip, if its request is pending: `Match`, `Measure` and `Accumulate`. */
    method MeasureResponse(execId: nat, now: nat)
      modifies `requestSendTimes, `samples, `stepRttCount, `stepRttSum, `stepMaxRtt
      ensures forall s: State ::
                s.pending == old(requestSendTimes) && s.stats == old(Contents())
                && s.hand == Empty && s.clock == now ==>
                  requestSendTimes == Handled(s, execId).pending && Contents() == Handled(s, execId).stats
    {
      ghost var pending, stats := requestSendTimes, Contents();
      var start := MatchResponse(execId);
      if start.Some? {
        var rtt := (now - start.value) as real / 1000.0;
        AccumulateRtt(execId, rtt);
      } else {
        assert pending - {execId} == pending;
      }
      forall s: State | s.pending == pending && s.stats == stats && s.hand == Empty && s.clock == now
        ensures requestSendTimes == Handled(s, execId).pending && Contents() == Handled(s, execId).stats
      {
        HandledFields(s, execId);
      }
    }

    /**
     The whole handler, undisturbed: the account and the counters take every response, and a confirmation is
     measured. `received` and `now` are the two readings of the clock.
     */
    method OnOrderResponse(response: OrderResponse, received: nat, now: nat)
      modifies this, account
      ensures account.Contents() == A.Handle(old(account.Contents()), A.OrderEvent(response))
      ensures lastResponseTime == received
      ensures ackCount == old(ackCount) + if response.execType == New then 1 else 0
      ensures modifyCount == old(modifyCount) + if response.execType == Replaced then 1 else 0
      ensures cancelCount == old(cancelCount) + if response.execType == Cancelled then 1 else 0
      ensures fillCount == old(fillCount)
                           + if response.execType == Fill || response.execType == PartialFill then 1 else 0
      ensures response.execId in old(requestSendTimes) && Names(response, response.execId) ==>
                && requestSendTimes == old(requestSendTimes) - {response.execId}
                && |samples| == |old(samples)| + 1 && samples[..|old(samples)|] == old(samples)
                && samples[|old(samples)|].execId == response.execId
                && samples[|old(samples)|].rtt * 1000.0
                   == (now - old(requestSendTimes)[response.execId]) as real
      ensures !(response.execId in old(requestSendTimes) && Names(response, response.execId)) ==>
                requestSendTimes == old(requestSendTimes) && Contents() == old(Contents())
      ensures forall s: State ::
                s.pending == old(requestSendTimes) && s.stats == old(Contents())
                && s.hand == Empty && s.clock == now ==>
                  && requestSendTimes == Respond(s, response).pending
                  && Contents() == Respond(s, response).stats
    {
      hide A.Handle;
      ghost var s0 := State(0, None, requestSendTimes, Empty, Contents(), [], [], now);
      account.HandleOrderResponse(Some(response));
      CountExecution(response.execType);
      lastResponseTime := received;
      HandledFields(s0, response.execId);
      if Confirms(response.execType) {
        MeasureResponse(response.execId, now);
        assert requestSendTimes == Handled(s0, response.execId).pending;
      }
    }

    /** The step `Report`: hand over the step's numbers and start the next step. */
    method Drain() returns (step: Stats)
      modifies `samples, `stepRttCount, `stepRttSum, `stepMaxRtt
      ensures step == old(Contents()) && Contents() == NO_STATS
      ensures forall s: State :: s.stats == old(Contents()) ==>
                && Contents() == Step(s, Report).stats
                && Step(s, Report).reported == s.reported + step.samples
    {
      step := Stats(samples, stepRttCount, stepRttSum, stepMaxRtt);
      samples, stepRttSum, stepRttCount, stepMaxRtt := [], 0.0, 0, 0.0;
    }
  }
}
