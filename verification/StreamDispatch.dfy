/** A whole run of a stream as the browser dispatches it: what is delivered and how it ends. */
module StreamDispatch {
  import opened Collections
  import opened Stream

  /** The parsed event, if there is one. */
  function EventOf(d: Dispatch): Option<Event> {
    if d.Message? then d.event else None
  }

  /** The events of the frames that could be parsed, in order. */
  function EventsOf(ds: seq<Dispatch>): seq<Event> {
    if ds == [] then []
    else
      var event := EventOf(ds[|ds| - 1]);
      EventsOf(ds[..|ds| - 1]) + (if event.Some? then [event.value] else [])
  }

  /** The frame or failure that ends the run: a result, an error of the server, or a lost connection. */
  predicate Ends(d: Dispatch) {
    d.Lost? || d.namedError || (d.event.Some? && (d.event.value.Artifact? || d.event.value.Failure?))
  }

  /** How it ends: with the result, with the server's error under its status, or interrupted. */
  function Ending(d: Dispatch): Outcome {
    var event := EventOf(d);
    if event.Some? && event.value.Artifact? then Resolved(event.value.result)
    else if event.Some? && event.value.Failure? then Rejected(StatusFor(event.value.code), event.value.message)
    else Interrupted
  }

  /** The status that stands for the server's code. */
  function StatusFor(code: Option<string>): int {
    if code == Some("upgrade_required") then 402
    else if code == Some("forbidden") then 403
    else if code == Some("stage_not_ready") then 409
    else 400
  }

  lemma {:induction false} CallsSnoc(ds: seq<Dispatch>, d: Dispatch)
    ensures CallsOf(ds + [d]) == CallsOf(ds) + CallsFor(d)
  {
    if ds == [] {
      assert [d][1..] == [] && ds + [d] == [d];
      assert CallsOf([]) == [];
    } else {
      CallsSnoc(ds[1..], d);
      assert (ds + [d])[1..] == ds[1..] + [d];
    }
  }

  lemma OneCall(calls: seq<Call>, a: Call)
    ensures AfterCalls(calls + [a]) == AfterCall(AfterCalls(calls), a)
  {
    assert (calls + [a])[..|calls|] == calls;
  }

  function Dispatched(c: Connection, d: Dispatch): Connection {
    var heard := AfterCall(c, Frame(EventOf(d)));
    if d.Lost? || d.namedError then AfterCall(heard, ConnectionError) else heard
  }

  /** The listener hears a frame, or an `error` without one; after such an event, and after a lost connection, the
      connection's own error callback runs. */
  lemma AfterDispatch(calls: seq<Call>, d: Dispatch)
    ensures AfterCalls(calls + CallsFor(d)) == Dispatched(AfterCalls(calls), d)
  {
    hide AfterCall, AfterCalls;
    var frame := Frame(EventOf(d));
    OneCall(calls, frame);
    OneCall(calls + [frame], ConnectionError);
    assert calls + [frame] + [ConnectionError] == calls + [frame, ConnectionError];
  }

  /** One dispatch delivers its event, counts as received, and settles what is open when it ends the run. */
  lemma StepIs(c: Connection, d: Dispatch)
    ensures var after, event := Dispatched(c, d), EventOf(d);
            && after.delivered == c.delivered + (if event.Some? then [event.value] else [])
            && after.received
            && after.outcome == if c.outcome.None? && Ends(d) then Some(Ending(d)) else c.outcome
  {
    hide ErrorStatus, StatusFor;
    var event := EventOf(d);
    assert c.delivered + [] == c.delivered;
    if event.Some? && event.value.Failure? {
      StatusIs(event.value.code);
    }
  }

  lemma RunSnoc(front: seq<Dispatch>, last: Dispatch)
    ensures AfterCalls(CallsOf(front + [last])) == Dispatched(AfterCalls(CallsOf(front)), last)
  {
    hide CallsOf, AfterCalls, CallsFor, Dispatched;
    CallsSnoc(front, last);
    AfterDispatch(CallsOf(front), last);
  }

  predicate NeverEnds(ds: seq<Dispatch>) { forall i :: 0 <= i < |ds| ==> !Ends(ds[i]) }

  lemma NeverEndsSnoc(front: seq<Dispatch>, last: Dispatch)
    ensures NeverEnds(front + [last]) <==> NeverEnds(front) && !Ends(last)
  {
    hide Ends;
    var ds := front + [last];
    assert ds[|front|] == last && forall i :: 0 <= i < |front| ==> ds[i] == front[i];
  }

  /** Every parsed frame is delivered, in order, also after the end; and the run stays open until a frame or failure
      that ends it. */
  lemma {:induction false} RunIsDelivered(ds: seq<Dispatch>)
    ensures AfterCalls(CallsOf(ds)).delivered == EventsOf(ds)
    ensures AfterCalls(CallsOf(ds)).received <==> ds != []
    ensures AfterCalls(CallsOf(ds)).outcome.None? <==> NeverEnds(ds)
  {
    hide AfterCall, Ends, Ending, EventOf;
    if ds == [] {
      assert CallsOf(ds) == [];
    } else {
      hide CallsOf, AfterCalls, Dispatched, NeverEnds;
      var front, last := ds[..|ds| - 1], ds[|ds| - 1];
      assert ds == front + [last];
      RunIsDelivered(front);
      RunSnoc(front, last);
      StepIs(AfterCalls(CallsOf(front)), last);
      NeverEndsSnoc(front, last);
    }
  }

  lemma StatusIs(code: Option<string>)
    ensures ErrorStatus(code) == StatusFor(code)
  {
  }

  /** The first that ends the run decides how. */
  lemma {:induction false} FirstEndDecides(ds: seq<Dispatch>, k: nat)
    requires k < |ds| && Ends(ds[k]) && NeverEnds(ds[..k])
    ensures AfterCalls(CallsOf(ds)).outcome == Some(Ending(ds[k]))
  {
    hide CallsOf, AfterCalls, Dispatched, Ends, Ending, NeverEnds;
    var front, last := ds[..|ds| - 1], ds[|ds| - 1];
    assert ds == front + [last] && front[..|front|] == front;
    RunSnoc(front, last);
    StepIs(AfterCalls(CallsOf(front)), last);
    RunIsDelivered(front);
    if k < |front| {
      assert front[..k] == ds[..k];
      FirstEndDecides(front, k);
    }
  }
}
