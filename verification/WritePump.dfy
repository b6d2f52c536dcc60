/**
 The write queue of the WebSocket client: messages posted from any thread, one io thread that runs the
 posted handlers and the completion handlers, and at most one write outstanding.
 */
module WritePump {
  datatype Message = Message(data: string, binary: bool)

  /** A finished write. */
  datatype Outcome = Outcome(message: Message, ok: bool)

  /** The last handler that ran. */
  datatype Handler = NoneYet | Posted | CompletedOk | CompletedErr

  /**
   `inbox` holds the handlers posted and not yet run, `binaryMode` the stream's current mode, `outstanding`
   the writes begun and not completed; a write goes out in the mode the stream has when it begins.
   */
  datatype Pump = Pump(
    inbox: seq<Message>, queue: seq<Message>, writing: bool, binaryMode: bool,
    outstanding: seq<Message>, finished: seq<Outcome>, posted: seq<Message>, lastRan: Handler)

  datatype Event = Post(message: Message) | RunPosted | Complete(ok: bool)

  const INITIAL := Pump([], [], false, true, [], [], [], NoneYet)

  // ----- the handlers

  function DoWrite(s: Pump): Pump {
    if s.queue == [] then s.(writing := false)
    else
      var next := s.queue[0];
      var t := s.(queue := s.queue[1..], binaryMode := next.binary);
      t.(outstanding := t.outstanding + [Message(next.data, t.binaryMode)])
  }

  function HandlePosted(s: Pump, m: Message): Pump {
    var t := s.(queue := s.queue + [m], lastRan := Posted);
    if s.writing then t else DoWrite(t.(writing := true))
  }

  function HandleCompletion(s: Pump, ok: bool): Pump
    requires s.outstanding != []
  {
    var t := s.(outstanding := s.outstanding[1..],
                finished := s.finished + [Outcome(s.outstanding[0], ok)],
                lastRan := if ok then CompletedOk else CompletedErr);
    if ok then DoWrite(t) else t.(writing := false)
  }

  predicate Enabled(s: Pump, e: Event) {
    match e
    case Post(m) => true
    case RunPosted => s.inbox != []
    case Complete(ok) => s.outstanding != []
  }

  /** One event. One that cannot happen changes nothing. */
  function Step(s: Pump, e: Event): Pump {
    if !Enabled(s, e) then s
    else
      match e
      case Post(m) => s.(inbox := s.inbox + [m], posted := s.posted + [m])
      case RunPosted => HandlePosted(s.(inbox := s.inbox[1..]), s.inbox[0])
      case Complete(ok) => HandleCompletion(s, ok)
  }

  function Run(s: Pump, es: seq<Event>): Pump {
    if es == [] then s else Step(Run(s, es[..|es| - 1]), es[|es| - 1])
  }

  // ----- what holds between handlers

  function Messages(outcomes: seq<Outcome>): seq<Message> {
    seq(|outcomes|, i requires 0 <= i < |outcomes| => outcomes[i].message)
  }

  /** The messages not finished yet, in order. */
  function Pending(s: Pump): seq<Message> {
    s.outstanding + s.queue + s.inbox
  }

  ghost predicate Inv(s: Pump) {
    && |s.outstanding| == (if s.writing then 1 else 0)
    && s.posted == Messages(s.finished) + Pending(s)
    && (s.queue != [] && !s.writing ==> s.lastRan == CompletedErr)
    && (s.lastRan == CompletedErr ==> !s.writing)
    && (s.lastRan == Posted ==> s.writing)
  }

  /** Beginning a write moves the queue's front to the stream, with its own mode. */
  lemma DoWriteKeepsPending(s: Pump)
    ensures Pending(DoWrite(s)) == Pending(s)
  {
    if s.queue != [] {
      var t := DoWrite(s);
      assert t.outstanding == s.outstanding + [s.queue[0]];
      assert s.queue == [s.queue[0]] + s.queue[1..];
      assert t.outstanding + t.queue == s.outstanding + s.queue;
    }
  }

  lemma RunPostedKeepsInv(s: Pump)
    requires Inv(s) && s.inbox != []
    ensures Inv(Step(s, RunPosted))
  {
    var m := s.inbox[0];
    var t := s.(inbox := s.inbox[1..], queue := s.queue + [m], lastRan := Posted, writing := true);
    assert s.inbox == [m] + t.inbox;
    assert Pending(t) == Pending(s);
    DoWriteKeepsPending(t);
  }

  lemma CompleteKeepsInv(s: Pump, ok: bool)
    requires Inv(s) && s.outstanding != []
    ensures Inv(Step(s, Complete(ok)))
  {
    var done := Outcome(s.outstanding[0], ok);
    var t := s.(outstanding := s.outstanding[1..], finished := s.finished + [done],
                lastRan := if ok then CompletedOk else CompletedErr);
    assert Messages(t.finished) == Messages(s.finished) + [done.message];
    assert s.outstanding == [done.message] && t.outstanding == [];
    assert [done.message] + Pending(t) == Pending(s);
    assert Messages(s.finished) + [done.message] + Pending(t) == Messages(s.finished) + Pending(s);
    DoWriteKeepsPending(t);
  }

  lemma StepKeepsInv(s: Pump, e: Event)
    requires Inv(s)
    ensures Inv(Step(s, e))
  {
    if Enabled(s, e) {
      match e
      case Post(m) => assert Pending(Step(s, e)) == Pending(s) + [m];
      case RunPosted => RunPostedKeepsInv(s);
      case Complete(ok) => CompleteKeepsInv(s, ok);
    }
  }

  /**
   On every run: at most one write is outstanding, `writing_` holds exactly while one is, and the messages
   posted are those finished, the one on its way, those queued and those waiting to be queued, in order,
   each with its own mode. The pump sits idle on a queue only if the last handler was a failed completion.
   */
  lemma {:induction false} RunInv(es: seq<Event>)
    ensures Inv(Run(INITIAL, es))
  {
    if es != [] {
      RunInv(es[..|es| - 1]);
      StepKeepsInv(Run(INITIAL, es[..|es| - 1]), es[|es| - 1]);
    }
  }

  // ----- draining

  /** How many handlers still have to run until everything is written. */
  function Remaining(s: Pump): nat {
    2 * |s.inbox| + |s.queue| + |s.outstanding|
  }

  /** A possible event other than a post or a failure. */
  predicate Progress(s: Pump, e: Event) {
    Enabled(s, e) && !e.Post? && e != Complete(false)
  }

  lemma ProgressDecreases(s: Pump, e: Event)
    requires Inv(s) && Progress(s, e)
    ensures Remaining(Step(s, e)) == Remaining(s) - 1
    ensures s.finished <= Step(s, e).finished
    ensures forall i :: |s.finished| <= i < |Step(s, e).finished| ==> Step(s, e).finished[i].ok
    ensures Step(s, e).posted == s.posted && Step(s, e).lastRan != CompletedErr
  {
  }

  /** Unless the pump sits idle after a failure, some event makes progress as long as work remains. */
  lemma ProgressPossible(s: Pump)
    requires Inv(s) && Remaining(s) > 0
    ensures (exists e :: Progress(s, e)) <==> !(s.inbox == [] && !s.writing)
    ensures s.inbox == [] && !s.writing ==> s.lastRan == CompletedErr
  {
    if s.inbox != [] {
      assert Progress(s, RunPosted);
    } else if s.writing {
      assert Progress(s, Complete(true));
    }
  }

  ghost predicate AllProgress(s: Pump, es: seq<Event>) {
    forall k :: 0 <= k < |es| ==> Progress(Run(s, es[..k]), es[k])
  }

  /**
   Without failures and new posts each handler brings the end one step closer, and after exactly
   `Remaining` of them everything posted is written, in order, and what was open before is written well.
   */
  lemma {:induction false} Drains(s: Pump, es: seq<Event>)
    requires Inv(s) && AllProgress(s, es)
    ensures |es| <= Remaining(s) && Remaining(Run(s, es)) == Remaining(s) - |es|
    ensures var t := Run(s, es);
            && Inv(t) && t.posted == s.posted && s.finished <= t.finished
            && (forall i :: |s.finished| <= i < |t.finished| ==> t.finished[i].ok)
            && (|es| == Remaining(s) ==> Messages(t.finished) == s.posted)
  {
    if es != [] {
      var front, e := es[..|es| - 1], es[|es| - 1];
      assert forall k :: 0 <= k < |front| ==> es[..k] == front[..k];
      Drains(s, front);
      var t := Run(s, front);
      assert Progress(t, e);
      ProgressDecreases(t, e);
      StepKeepsInv(t, e);
    }
  }

  /** Idle after a failure with messages queued, the pump stays as it is until the next post. */
  lemma {:induction false} StuckUntilNextPost(s: Pump, es: seq<Event>)
    requires Inv(s) && s.inbox == [] && !s.writing
    requires forall i :: 0 <= i < |es| ==> !es[i].Post?
    ensures Run(s, es) == s
  {
    if es != [] {
      StuckUntilNextPost(s, es[..|es| - 1]);
    }
  }

  // ----- the client's own code

  class SimpleWSClient {
    var writeQueue: seq<Message>
    var writing: bool
    var binaryMode: bool
    var inbox: seq<Message>
    var outstanding: seq<Message>
    ghost var finished: seq<Outcome>
    ghost var posted: seq<Message>
    ghost var lastRan: Handler

    ghost function Contents(): Pump
      reads this
    {
      Pump(inbox, writeQueue, writing, binaryMode, outstanding, finished, posted, lastRan)
    }

    ghost predicate Valid()
      reads this
    {
      Inv(Contents())
    }

    constructor ()
      ensures Valid() && Contents() == INITIAL
    {
      writeQueue, writing, binaryMode, inbox, outstanding := [], false, true, [], [];
      finished, posted, lastRan := [], [], NoneYet;
    }

    /** Called from any thread: the rest happens on the io thread. */
    method SendInternal(m: Message)
      requires Valid()
      modifies this
      ensures Valid() && Contents() == Step(old(Contents()), Post(m))
    {
      inbox := inbox + [m];
      posted := posted + [m];
    }

    method DoWriteNow()
      modifies this
      ensures Contents() == DoWrite(old(Contents()))
    {
      if writeQueue == [] {
        writing := false;
        return;
      }
      var m := writeQueue[0];
      writeQueue := writeQueue[1..];
      binaryMode := m.binary;
      outstanding := outstanding + [Message(m.data, binaryMode)];
    }

    /** The posted handler. */
    method RunPostedHandler()
      requires Valid() && inbox != []
      modifies this
      ensures Valid() && Contents() == Step(old(Contents()), RunPosted)
    {
      StepKeepsInv(Contents(), RunPosted);
      var m := inbox[0];
      inbox := inbox[1..];
      lastRan := Posted;
      writeQueue := writeQueue + [m];
      if writing { return; }
      writing := true;
      DoWriteNow();
    }

    /** The completion handler of the outstanding write. */
    method OnWritten(ok: bool)
      requires Valid() && outstanding != []
      modifies this
      ensures Valid() && Contents() == Step(old(Contents()), Complete(ok))
    {
      StepKeepsInv(Contents(), Complete(ok));
      finished := finished + [Outcome(outstanding[0], ok)];
      outstanding := outstanding[1..];
      lastRan := if ok then CompletedOk else CompletedErr;
      if ok {
        DoWriteNow();
      } else {
        writing := false;
      }
    }
  }
}
