/** The live console of a generation stage: folding its events, and settling its promise once. */
module Stream {
  import opened Collections

  datatype Event =
    | Started(id: string, title: string)
    | Token(stepId: string, text: string)
    | Artifact(result: string)
    | Failure(message: string, code: Option<string>)
    | Ping

  // ---------- the console ----------

  datatype Step = Step(id: string, title: string, body: string, done: bool)

  function Done(s: Step): Step { s.(done := true) }

  function AllDone(steps: seq<Step>): (r: seq<Step>)
    ensures |r| == |steps| && forall k :: 0 <= k < |steps| ==> r[k] == Done(steps[k])
  {
    seq(|steps|, k requires 0 <= k < |steps| => Done(steps[k]))
  }

  function Typed(s: Step, id: string, text: string): Step {
    if s.id == id then s.(body := s.body + text) else s
  }

  function AllTyped(steps: seq<Step>, id: string, text: string): (r: seq<Step>)
    ensures |r| == |steps| && forall k :: 0 <= k < |steps| ==> r[k] == Typed(steps[k], id, text)
  {
    seq(|steps|, k requires 0 <= k < |steps| => Typed(steps[k], id, text))
  }

  function ReduceStreamEvent(steps: seq<Step>, event: Event): (r: seq<Step>)
    ensures |r| == |steps| + (if event.Started? then 1 else 0)
  {
    match event
    case Started(id, title) => AllDone(steps) + [Step(id, title, "", false)]
    case Token(id, text) => AllTyped(steps, id, text)
    case Artifact(_) => AllDone(steps)
    case Failure(_, _) => AllDone(steps)
    case Ping => steps
  }

  /** The console after a run of events. */
  function View(events: seq<Event>): seq<Step> {
    if events == [] then [] else ReduceStreamEvent(View(events[..|events| - 1]), events[|events| - 1])
  }

  // ---------- what it shows, read off the run ----------

  /** Where steps were started, in order. */
  function Starts(events: seq<Event>): (r: seq<nat>)
    ensures forall k :: 0 <= k < |r| ==> r[k] < |events| && events[r[k]].Started?
    ensures forall i :: 0 <= i < |events| && events[i].Started? ==> i in r
    ensures forall j, k :: 0 <= j < k < |r| ==> r[j] < r[k]
  {
    if events == [] then []
    else
      var n := |events| - 1;
      Starts(events[..n]) + (if events[n].Started? then [n] else [])
  }

  /** The text sent to `id` from position `from` on. */
  function TextFor(events: seq<Event>, from: nat, id: string): string {
    if |events| <= from then ""
    else
      var last := events[|events| - 1];
      TextFor(events[..|events| - 1], from, id) + (if last.Token? && last.stepId == id then last.text else "")
  }

  predicate Settles(event: Event) { event.Artifact? || event.Failure? }

  /** A later step, or the end of the run, has superseded what stood at `from`. */
  predicate IsSuperseded(events: seq<Event>, from: nat) {
    exists j :: from <= j < |events| && (events[j].Started? || Settles(events[j]))
  }

  function ShownStep(events: seq<Event>, at: nat): Step
    requires at < |events| && events[at].Started?
  {
    Step(events[at].id, events[at].title, TextFor(events, at + 1, events[at].id), IsSuperseded(events, at + 1))
  }

  lemma StepEvolves(events: seq<Event>, at: nat)
    requires at < |events| - 1 && events[at].Started?
    ensures var n := |events| - 1;
            var before, now := ShownStep(events[..n], at), ShownStep(events, at);
            match events[n]
            case Token(id, text) => now == Typed(before, id, text)
            case Ping => now == before
            case _ => now == Done(before)
  {
    var n := |events| - 1;
    var front := events[..n];
    if IsSuperseded(front, at + 1) {
      var j :| at + 1 <= j < |front| && (front[j].Started? || Settles(front[j]));
      assert events[j] == front[j];
    } else {
      assert forall j :: at + 1 <= j < n ==> events[j] == front[j];
    }
    assert events[n].Started? || Settles(events[n]) ==> IsSuperseded(events, at + 1);
  }

  /** The console shows exactly one step for every step started, in order; its body is the text
      sent to its id since it started; and it is done exactly when something superseded it. */
  lemma {:induction false} ConsoleIsTheRun(events: seq<Event>)
    ensures |View(events)| == |Starts(events)|
    ensures forall k :: 0 <= k < |Starts(events)| ==> View(events)[k] == ShownStep(events, Starts(events)[k])
  {
    hide ShownStep, ReduceStreamEvent;
    if events != [] {
      var n := |events| - 1;
      var front := events[..n];
      ConsoleIsTheRun(front);
      forall k | 0 <= k < |Starts(front)|
        ensures ReduceStreamEvent(View(front), events[n])[k] == ShownStep(events, Starts(front)[k])
      {
        StepEvolves(events, Starts(front)[k]);
        ReducedAt(View(front), events[n], k);
      }
      NewStep(events);
      ReducedLast(View(front), events[n]);
    }
  }

  lemma ReducedLast(steps: seq<Step>, event: Event)
    ensures event.Started? ==> ReduceStreamEvent(steps, event)[|steps|] == Step(event.id, event.title, "", false)
  {
  }

  lemma ReducedAt(steps: seq<Step>, event: Event, k: nat)
    requires k < |steps|
    ensures ReduceStreamEvent(steps, event)[k] ==
              match event
              case Token(id, text) => Typed(steps[k], id, text)
              case Ping => steps[k]
              case _ => Done(steps[k])
  {
  }

  lemma NewStep(events: seq<Event>)
    requires events != []
    ensures var n := |events| - 1;
            events[n].Started? ==> ShownStep(events, n) == Step(events[n].id, events[n].title, "", false)
  {
  }

  lemma LaterStartSupersedes(events: seq<Event>, k: nat)
    requires k + 1 < |Starts(events)|
    ensures IsSuperseded(events, Starts(events)[k] + 1)
  {
    var next := Starts(events)[k + 1];
    assert events[next].Started?;
  }

  /** Every step but the newest is done, and so is the newest once the run has ended. */
  lemma OnlyTheLastIsActive(events: seq<Event>, k: nat)
    requires k < |View(events)|
    ensures k < |View(events)| - 1 ==> View(events)[k].done
    ensures k < |Starts(events)|
    ensures (exists j :: Starts(events)[k] < j < |events| && Settles(events[j])) ==> View(events)[k].done
  {
    hide View, TextFor, Starts;
    ConsoleIsTheRun(events);
    if k + 1 < |View(events)| {
      LaterStartSupersedes(events, k);
    }
  }

  // ---------- settling ----------

  /** How the promise settled; falling back runs the stage's plain route instead. */
  datatype Outcome = Resolved(result: string) | Rejected(status: int, message: string) | Interrupted | FellBack

  /** SSE has no status line; the server's code stands in for it. */
  function ErrorStatus(code: Option<string>): int {
    match code
    case Some("upgrade_required") => 402
    case Some("forbidden") => 403
    case Some("stage_not_ready") => 409
    case _ => 400
  }

  datatype Connection = Connection(received: bool, outcome: Option<Outcome>, delivered: seq<Event>)

  const CONNECTING := Connection(false, None, [])

  function Settle(c: Connection, outcome: Outcome): Connection {
    if c.outcome.Some? then c else c.(outcome := Some(outcome))
  }

  /** A callback: a frame, parsed if it could be, or an error on the connection. */
  datatype Call = Frame(event: Option<Event>) | ConnectionError

  function AfterCall(c: Connection, call: Call): Connection {
    match call
    case Frame(None) => c.(received := true)
    case Frame(Some(e)) =>
      var heard := Connection(true, c.outcome, c.delivered + [e]);
      (match e
       case Artifact(result) => Settle(heard, Resolved(result))
       case Failure(message, code) => Settle(heard, Rejected(ErrorStatus(code), message))
       case _ => heard)
    case ConnectionError => Settle(c, if c.received then Interrupted else FellBack)
  }

  function AfterCalls(calls: seq<Call>): Connection {
    if calls == [] then CONNECTING else AfterCall(AfterCalls(calls[..|calls| - 1]), calls[|calls| - 1])
  }

  /** One open stream. */
  class StageStream {
    var received: bool
    var settled: bool
    var outcome: Option<Outcome>
    var delivered: seq<Event>

    ghost predicate Valid() reads this { settled <==> outcome.Some? }

    ghost function State(): Connection reads this { Connection(received, outcome, delivered) }

    constructor ()
      ensures Valid() && State() == CONNECTING
    {
      received, settled, outcome, delivered := false, false, None, [];
    }

    method Finish(result: Outcome)
      requires Valid()
      modifies this`settled, this`outcome
      ensures Valid() && State() == Settle(old(State()), result)
    {
      if settled { return; }
      settled := true;
      outcome := Some(result);
    }

    method Handle(event: Option<Event>)
      requires Valid()
      modifies this
      ensures Valid() && State() == AfterCall(old(State()), Frame(event))
    {
      received := true;
      if event.None? { return; }
      delivered := delivered + [event.value];
      match event.value {
        case Artifact(result) => Finish(Resolved(result));
        case Failure(message, code) => Finish(Rejected(ErrorStatus(code), message));
        case _ =>
      }
    }

    method OnError()
      requires Valid()
      modifies this`settled, this`outcome
      ensures Valid() && State() == AfterCall(old(State()), ConnectionError)
    {
      if settled { return; }
      settled := true;
      outcome := Some(if received then Interrupted else FellBack);
    }
  }

  /** The call that decides how the promise settles: the first terminal event or error. */
  predicate Decides(call: Call) {
    call.ConnectionError? || (call.event.Some? && Settles(call.event.value))
  }

  /** The position of the first deciding call, or the number of calls. */
  function FirstDeciding(calls: seq<Call>): (k: nat)
    ensures k <= |calls|
    ensures k < |calls| ==> Decides(calls[k])
    ensures forall i :: 0 <= i < k ==> !Decides(calls[i])
  {
    if calls == [] || Decides(calls[0]) then 0 else 1 + FirstDeciding(calls[1..])
  }

  /** How the promise must settle, read off the first deciding call alone. */
  function Verdict(calls: seq<Call>): Option<Outcome> {
    var k := FirstDeciding(calls);
    if k == |calls| then None
    else
      match calls[k]
      case ConnectionError => Some(if k == 0 then FellBack else Interrupted)
      case Frame(Some(Artifact(result))) => Some(Resolved(result))
      case Frame(Some(Failure(message, code))) => Some(Rejected(ErrorStatus(code), message))
      case _ => None
  }

  lemma DecidedStays(calls: seq<Call>)
    requires calls != []
    ensures var front := calls[..|calls| - 1];
            FirstDeciding(calls) == (if FirstDeciding(front) < |front| then FirstDeciding(front)
                                     else if Decides(calls[|calls| - 1]) then |calls| - 1 else |calls|)
  {
    hide Decides;
    var front := calls[..|calls| - 1];
    var k := FirstDeciding(front);
    assert forall i :: 0 <= i < |front| ==> calls[i] == front[i];
    FirstIsUnique(calls, if k < |front| then k else if Decides(calls[|calls| - 1]) then |calls| - 1 else |calls|);
  }

  lemma FirstIsUnique(calls: seq<Call>, k: nat)
    requires k <= |calls| && (k < |calls| ==> Decides(calls[k])) && forall i :: 0 <= i < k ==> !Decides(calls[i])
    ensures FirstDeciding(calls) == k
  {
    hide Decides;
  }

  /** The promise settles exactly as the first deciding call says, and never again: the plain
      route is taken if and only if the very first call is an error on the connection. */
  lemma {:induction false} SettlesOnce(calls: seq<Call>)
    ensures AfterCalls(calls).outcome == Verdict(calls)
    ensures AfterCalls(calls).received ==> calls != []
    ensures !AfterCalls(calls).received ==> forall i :: 0 <= i < |calls| ==> calls[i].ConnectionError?
  {
    hide ErrorStatus, FirstDeciding;
    if calls != [] {
      var front, last := calls[..|calls| - 1], calls[|calls| - 1];
      SettlesOnce(front);
      DecidedStays(calls);
    }
  }

  /** Whatever comes later, a settled promise keeps its outcome. */
  lemma {:induction false} OutcomeIsFinal(calls: seq<Call>, more: seq<Call>)
    requires AfterCalls(calls).outcome.Some?
    ensures AfterCalls(calls + more).outcome == AfterCalls(calls).outcome
  {
    hide ErrorStatus;
    if more == [] {
      assert calls + more == calls;
    } else {
      var n := |more| - 1;
      OutcomeIsFinal(calls, more[..n]);
      assert (calls + more)[..|calls| + n] == calls + more[..n];
    }
  }

  // ---------- as the browser dispatches it ----------

  /** A server frame under its event name, or a failure of the connection itself. The browser
      delivers both to the listeners of that name first and then, for `error`, to `onerror`. */
  datatype Dispatch = Message(namedError: bool, event: Option<Event>) | Lost

  function CallsFor(d: Dispatch): seq<Call> {
    match d
    case Message(namedError, event) => if namedError then [Frame(event), ConnectionError] else [Frame(event)]
    case Lost => [Frame(None), ConnectionError]
  }

  function CallsOf(ds: seq<Dispatch>): seq<Call> {
    if ds == [] then [] else CallsFor(ds[0]) + CallsOf(ds[1..])
  }

  /** The listener on `error` hears a lost connection before `onerror` does, so no sequence of
      browser events reaches the plain route, not even when the very first one is the loss. */
  lemma NeverFallsBack(ds: seq<Dispatch>)
    ensures AfterCalls(CallsOf(ds)).outcome != Some(FellBack)
  {
    hide ErrorStatus, AfterCalls;
    var calls := CallsOf(ds);
    SettlesOnce(calls);
    if ds != [] {
      assert calls[0].Frame?;
    }
  }

  /** Concretely: a stream that cannot be opened at all reports an interruption. */
  lemma LostAtOnceIsInterrupted()
    ensures AfterCalls(CallsOf([Lost])).outcome == Some(Interrupted)
    ensures AfterCalls([ConnectionError]).outcome == Some(FellBack)
  {
    hide ErrorStatus, FirstDeciding;
    var calls := [Frame(None), ConnectionError];
    assert CallsOf([Lost]) == calls;
    assert calls[..1] == [Frame(None)] && calls[..1][..0] == [];
    FirstIsUnique(calls, 1);
    SettlesOnce(calls);
    FirstIsUnique([ConnectionError], 0);
    SettlesOnce([ConnectionError]);
  }
}
