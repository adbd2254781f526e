/**
  The single-writer discipline of a channel session's outbound queue, on values.

  A `Writer` is the session's queue of pending messages together with the
  writes it has handed to the connection and not yet seen complete. Enqueueing
  appends and starts a write only when the queue was empty; a successful
  completion drops the front and starts the next write if anything is left; a
  failed completion starts nothing more.
 */
module OutboundQueue {

  datatype Writer = Writer(queue: seq<string>, inFlight: seq<string>)

  /** A fresh session: nothing queued, nothing being written. */
  const Idle: Writer := Writer([], [])

  /** At most one write is outstanding, and it is a write of the queue's front. */
  predicate Inv(w: Writer)
  {
    && |w.inFlight| <= 1
    && (w.inFlight != [] ==> w.queue != [] && w.inFlight[0] == w.queue[0])
  }

  /** A write is outstanding exactly when something is queued. */
  predicate Healthy(w: Writer)
  {
    w.inFlight != [] <==> w.queue != []
  }

  /** Messages are waiting but no write will ever pick them up. */
  predicate Stalled(w: Writer)
  {
    w.queue != [] && w.inFlight == []
  }

  /** onSend: always append; start a write of the front only if the queue was empty. */
  function Enqueue(w: Writer, m: string): (r: Writer)
    ensures r.queue == w.queue + [m]
    ensures r.inFlight == if w.queue == [] then w.inFlight + [m] else w.inFlight
    ensures Inv(w) ==> Inv(r)
    ensures Inv(w) && Healthy(w) ==> Healthy(r)
    ensures Stalled(w) ==> Stalled(r)
  {
    var q := w.queue + [m];
    if |q| > 1 then Writer(q, w.inFlight) else Writer(q, w.inFlight + [q[0]])
  }

  /** onWrite: on success drop the front and write the next one if any; on failure stop writing. */
  function Complete(w: Writer, ok: bool): (r: Writer)
    requires Inv(w) && w.inFlight != []
    ensures Inv(r)
    ensures ok ==> r.queue == w.queue[1..] && Healthy(r)
    ensures !ok ==> r.queue == w.queue && Stalled(r)
  {
    if !ok then
      Writer(w.queue, w.inFlight[1..])
    else
      var q := w.queue[1..];
      Writer(q, w.inFlight[1..] + if q != [] then [q[0]] else [])
  }

  // ---------------------------------------------------------------------------
  // Schedules of handler runs

  /** One handler run: a message handed over by the registry, or a write completing. */
  datatype Event = Deliver(message: string) | WriteDone(ok: bool)

  /** A completion can only arrive for an outstanding write. */
  predicate Enabled(w: Writer, e: Event)
  {
    e.Deliver? || w.inFlight != []
  }

  function Step(w: Writer, e: Event): (r: Writer)
    requires Inv(w) && Enabled(w, e)
    ensures Inv(r)
  {
    match e
    case Deliver(m) => Enqueue(w, m)
    case WriteDone(ok) => Complete(w, ok)
  }

  /** Every event of the schedule can occur in the state the earlier ones lead to. */
  predicate Feasible(w: Writer, es: seq<Event>)
    requires Inv(w)
    decreases |es|
  {
    es == [] || (Enabled(w, es[0]) && Feasible(Step(w, es[0]), es[1..]))
  }

  function Run(w: Writer, es: seq<Event>): (r: Writer)
    requires Inv(w) && Feasible(w, es)
    ensures Inv(r)
    decreases |es|
  {
    if es == [] then w else Run(Step(w, es[0]), es[1..])
  }

  /** The messages handed over, in order. */
  function Delivered(es: seq<Event>): seq<string>
  {
    if es == [] then []
    else (if es[0].Deliver? then [es[0].message] else []) + Delivered(es[1..])
  }

  /** The messages whose writes completed successfully, in the order they went out. */
  function Written(w: Writer, es: seq<Event>): seq<string>
    requires Inv(w) && Feasible(w, es)
    decreases |es|
  {
    if es == [] then []
    else
      (if es[0] == WriteDone(true) then [w.inFlight[0]] else [])
      + Written(Step(w, es[0]), es[1..])
  }

  /** The number of completion events in a schedule. */
  function Completions(es: seq<Event>): nat
  {
    if es == [] then 0 else (if es[0].WriteDone? then 1 else 0) + Completions(es[1..])
  }

  /**
    Nothing is lost, duplicated or reordered: what has been written, followed by
    what is still queued, is what was queued at the start followed by every
    message handed over since.
   */
  lemma {:induction false} WrittenInOrder(w: Writer, es: seq<Event>)
    requires Inv(w) && Feasible(w, es)
    ensures Written(w, es) + Run(w, es).queue == w.queue + Delivered(es)
    decreases |es|
  {
    if es != [] {
      var w' := Step(w, es[0]);
      WrittenInOrder(w', es[1..]);
      match es[0]
      case Deliver(m) =>
        calc {
          Written(w, es) + Run(w, es).queue;
          Written(w', es[1..]) + Run(w', es[1..]).queue;
          w'.queue + Delivered(es[1..]);
          (w.queue + [m]) + Delivered(es[1..]);
          w.queue + ([m] + Delivered(es[1..]));
        }
      case WriteDone(ok) =>
        if ok {
          calc {
            Written(w, es) + Run(w, es).queue;
            [w.queue[0]] + (Written(w', es[1..]) + Run(w', es[1..]).queue);
            [w.queue[0]] + (w.queue[1..] + Delivered(es[1..]));
            { assert [w.queue[0]] + w.queue[1..] == w.queue; }
            w.queue + Delivered(es[1..]);
          }
        } else {
          assert Written(w, es) == Written(w', es[1..]);
          assert Delivered(es) == Delivered(es[1..]);
          assert w'.queue == w.queue;
        }
    }
  }

  /** From a fresh session, the written messages are a prefix of the delivered ones. */
  lemma WrittenIsPrefixOfDelivered(es: seq<Event>)
    requires Feasible(Idle, es)
    ensures Written(Idle, es) <= Delivered(es)
  {
    WrittenInOrder(Idle, es);
    assert Idle.queue + Delivered(es) == Delivered(es);
  }

  /** While no write fails, a write is outstanding exactly when something is queued. */
  lemma {:induction false} HealthyWithoutFailures(w: Writer, es: seq<Event>)
    requires Inv(w) && Healthy(w) && Feasible(w, es)
    requires forall i :: 0 <= i < |es| ==> es[i] != WriteDone(false)
    ensures Healthy(Run(w, es))
    decreases |es|
  {
    if es != [] {
      assert es[0] != WriteDone(false);
      HealthyWithoutFailures(Step(w, es[0]), es[1..]);
    }
  }

  /**
    After a failed write the writer is stalled for good: later messages are
    queued but never written, and no completion can arrive.
   */
  lemma {:induction false} StalledForever(w: Writer, es: seq<Event>)
    requires Inv(w) && Stalled(w) && Feasible(w, es)
    ensures Stalled(Run(w, es))
    ensures Written(w, es) == []
    ensures Completions(es) == 0
    decreases |es|
  {
    if es != [] {
      StalledForever(Step(w, es[0]), es[1..]);
    }
  }

  /**
    While no write fails, every completion takes exactly one message off the
    queue: as many messages are written as completions arrive.
   */
  lemma {:induction false} OneMessagePerCompletion(w: Writer, es: seq<Event>)
    requires Inv(w) && Feasible(w, es)
    requires forall i :: 0 <= i < |es| ==> es[i] != WriteDone(false)
    ensures |Written(w, es)| == Completions(es)
    decreases |es|
  {
    if es != [] {
      assert es[0] != WriteDone(false);
      OneMessagePerCompletion(Step(w, es[0]), es[1..]);
    }
  }
}
