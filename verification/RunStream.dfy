// Streaming a run to the browser: a worker emits events into a bounded channel, the
// request handler writes them out, and either side may stop first.
module RunStream {
  import opened Common

  const CAPACITY := 128

  /** What the worker emits; a nil event is passed on and then skipped. */
  datatype Event = Nil | Event(isError: bool, payload: string)

  datatype Worker =
    | Running
    | Emitting(event: Event)
    | Closing(failed: bool)
    | Gone

  datatype Handler =
    | Looping
    | AwaitingResult
    | Returned

  /** accepted and taken record what went into and came out of the channel. */
  datatype World = World(
    buffer: seq<Event>,
    closed: bool,
    result: Option<bool>,
    detached: bool,
    deadline: bool,
    clientGone: bool,
    worker: Worker,
    handler: Handler,
    emittedError: bool,
    written: seq<Event>,
    writeFailed: bool,
    synthetic: bool,
    accepted: seq<Event>,
    taken: seq<Event>)

  datatype Step =
    | Emit(event: Event)
    | Accept
    | EmitDetached
    | EmitExpired
    | EndRun(failed: bool)
    | PostResult
    | Deadline
    | ClientLeaves
    | ReturnToClient
    | TakeEvent(writes: bool)
    | TakeClosed
    | TakeResult

  function Start(): World {
    World([], false, None, false, false, false, Running, Looping, false, [], false, false, [], [])
  }

  predicate Enabled(w: World, step: Step) {
    match step
    case Emit(event) => w.worker.Running?
    case Accept => w.worker.Emitting? && |w.buffer| < CAPACITY && !w.closed
    case EmitDetached => w.worker.Emitting? && w.detached
    case EmitExpired => w.worker.Emitting? && w.deadline
    case EndRun(failed) => w.worker.Running?
    case PostResult => w.worker.Closing? && w.result.None?
    case Deadline => true
    case ClientLeaves => true
    case ReturnToClient => w.handler.Looping? && w.clientGone
    case TakeEvent(writes) => w.handler.Looping? && w.buffer != []
    case TakeClosed => w.handler.Looping? && w.buffer == [] && w.closed
    case TakeResult => w.handler.AwaitingResult? && w.result.Some?
  }

  function Apply(w: World, step: Step): World {
    if !Enabled(w, step) then w
    else match step
      case Emit(event) => w.(worker := Emitting(event))
      case Accept =>
        w.(buffer := w.buffer + [w.worker.event], accepted := w.accepted + [w.worker.event], worker := Running)
      case EmitDetached => w.(worker := Running)
      case EmitExpired => w.(worker := Running)
      case EndRun(failed) => w.(worker := Closing(failed), closed := true)
      case PostResult => w.(worker := Gone, result := Some(w.worker.failed), deadline := true)
      case Deadline => w.(deadline := true)
      case ClientLeaves => w.(clientGone := true)
      case ReturnToClient => w.(handler := Returned, detached := true)
      case TakeEvent(writes) => Took(w, writes)
      case TakeClosed => w.(handler := AwaitingResult)
      case TakeResult =>
        w.(handler := Returned, detached := true, synthetic := w.result.value && !w.emittedError)
  }

  /** One event out of the channel: skipped if nil, else noted if an error and written. */
  function Took(w: World, writes: bool): World
    requires w.buffer != []
  {
    var event := w.buffer[0];
    var next := w.(buffer := w.buffer[1..], taken := w.taken + [event]);
    if event.Nil? then next
    else
      var noted := next.(emittedError := w.emittedError || event.isError);
      if writes then noted.(written := w.written + [event])
      else noted.(writeFailed := true, handler := Returned, detached := true)
  }

  function Run(w: World, steps: seq<Step>): World
    decreases |steps|
  {
    if steps == [] then w else Run(Apply(w, steps[0]), steps[1..])
  }

  // ---- The handler's side, carried out ---------------------------------------------------

  class Pump {
    var buffer: seq<Event>
    var emittedError: bool
    var written: seq<Event>

    constructor ()
      ensures buffer == [] && !emittedError && written == []
    {
      buffer, emittedError, written := [], false, [];
    }

    /** This is the handler's side of w. */
    ghost predicate Agrees(w: World)
      reads this
    {
      buffer == w.buffer && emittedError == w.emittedError && written == w.written
    }

    /** The loop body for an event; writes says whether the client still takes it. It is the
        step TakeEvent, and the loop goes on unless that step returns. */
    method TakeEvent(writes: bool, ghost w: World) returns (ok: bool)
      requires Agrees(w) && Enabled(w, Step.TakeEvent(writes))
      modifies this
      ensures Agrees(Apply(w, Step.TakeEvent(writes)))
      ensures ok <==> Apply(w, Step.TakeEvent(writes)).handler.Looping?
      ensures buffer == old(buffer)[1..]
      ensures ok <==> old(buffer)[0].Nil? || writes
      ensures emittedError <==> old(emittedError) || (old(buffer)[0].Event? && old(buffer)[0].isError)
      ensures written == old(written) + if old(buffer)[0].Nil? || !writes then [] else [old(buffer)[0]]
    {
      var event := buffer[0];
      buffer := buffer[1..];
      if event == Nil {
        return true;
      }
      if event.isError {
        emittedError := true;
      }
      if !writes {
        return false;
      }
      written := written + [event];
      ok := true;
    }

    /** What is left to do after the channel was closed and the run's result arrived. */
    method Conclude(failed: bool, ghost w: World) returns (synthetic: bool)
      requires Agrees(w) && Enabled(w, TakeResult) && w.result == Some(failed)
      ensures synthetic == Apply(w, TakeResult).synthetic == (failed && !emittedError)
    {
      if failed {
        if emittedError {
          return false;
        }
        return true;
      }
      synthetic := false;
    }
  }

  // ---- Safety --------------------------------------------------------------------------------

  function Real(events: seq<Event>): seq<Event> {
    if events == [] then []
    else
      var n := |events| - 1;
      Real(events[..n]) + if events[n].Nil? then [] else [events[n]]
  }

  lemma RealSnoc(events: seq<Event>, event: Event)
    ensures Real(events + [event]) == Real(events) + if event.Nil? then [] else [event]
  {
    assert (events + [event])[..|events|] == events;
  }

  lemma {:induction false} RealPrefix(a: seq<Event>, b: seq<Event>)
    ensures Real(a) <= Real(a + b)
    decreases |b|
  {
    if b == [] {
      assert a + b == a;
    } else {
      var n := |b| - 1;
      RealPrefix(a, b[..n]);
      assert a + b == (a + b[..n]) + [b[n]];
      RealSnoc(a + b[..n], b[n]);
    }
  }

  predicate HasError(events: seq<Event>) {
    exists k :: 0 <= k < |events| && events[k].Event? && events[k].isError
  }

  ghost predicate Inv(w: World) {
    && w.accepted == w.taken + w.buffer
    && |w.buffer| <= CAPACITY
    && (w.closed <==> w.worker.Closing? || w.worker.Gone?)
    && (w.result.Some? <==> w.worker.Gone?)
    && (w.detached <==> w.handler.Returned?)
    && (w.emittedError <==> HasError(w.taken))
    && (if w.writeFailed
        then w.handler.Returned? && w.taken != [] && !w.taken[|w.taken| - 1].Nil? && w.written == Real(w.taken[..|w.taken| - 1])
        else w.written == Real(w.taken))
    && (w.handler.AwaitingResult? ==> w.closed && w.buffer == [] && !w.writeFailed)
    && (w.synthetic ==> w.handler.Returned? && !HasError(w.taken) && w.result == Some(true)
                        && w.buffer == [] && !w.writeFailed)
  }

  lemma HasErrorSnoc(events: seq<Event>, event: Event)
    ensures HasError(events + [event]) <==> HasError(events) || (event.Event? && event.isError)
  {
    var all := events + [event];
    if HasError(events) {
      var k :| 0 <= k < |events| && events[k].Event? && events[k].isError;
      assert all[k] == events[k];
    }
    if event.Event? && event.isError {
      assert all[|events|] == event;
    }
  }

  lemma TookInv(w: World, writes: bool)
    requires Inv(w) && w.handler.Looping? && w.buffer != []
    ensures Inv(Took(w, writes))
  {
    var event := w.buffer[0];
    RealSnoc(w.taken, event);
    HasErrorSnoc(w.taken, event);
    assert w.taken + w.buffer == (w.taken + [event]) + w.buffer[1..];
    assert (w.taken + [event])[..|w.taken|] == w.taken;
  }

  lemma StepInv(w: World, step: Step)
    requires Inv(w)
    ensures Inv(Apply(w, step))
  {
    if Enabled(w, step) {
      match step
      case TakeEvent(writes) => TookInv(w, writes);
      case Accept => assert w.taken + (w.buffer + [w.worker.event]) == w.accepted + [w.worker.event];
      case _ =>
    }
  }

  lemma {:induction false} RunInv(w: World, steps: seq<Step>)
    requires Inv(w)
    ensures Inv(Run(w, steps))
    decreases |steps|
  {
    if steps != [] {
      StepInv(w, steps[0]);
      RunInv(Apply(w, steps[0]), steps[1..]);
    }
  }

  /** What the client has received is always a prefix, in order, of the real events the
      channel accepted. */
  lemma WrittenIsPrefix(steps: seq<Step>)
    ensures var w := Run(Start(), steps); w.written <= Real(w.accepted)
  {
    RunInv(Start(), steps);
    var w := Run(Start(), steps);
    RealPrefix(w.taken, w.buffer);
    if w.writeFailed {
      var n := |w.taken| - 1;
      assert w.taken == w.taken[..n] + [w.taken[n]];
      RealPrefix(w.taken[..n], [w.taken[n]]);
    }
  }

  /** When the handler saw the channel closed, everything accepted has been written. */
  lemma AllWrittenOnClose(steps: seq<Step>)
    ensures var w := Run(Start(), steps);
            w.handler.AwaitingResult? || w.synthetic ==> w.written == Real(w.accepted)
  {
    RunInv(Start(), steps);
    var w := Run(Start(), steps);
    if w.buffer == [] {
      assert w.taken + w.buffer == w.taken;
    }
  }

  /** The handler adds an error of its own only to a failed run that forwarded none. */
  lemma SyntheticErrorIff(steps: seq<Step>)
    ensures var w := Run(Start(), steps);
            w.handler.AwaitingResult? && w.result.Some? ==>
              (Apply(w, TakeResult).synthetic <==> w.result.value && !HasError(w.accepted))
    ensures var w := Run(Start(), steps);
            w.synthetic ==> w.result == Some(true) && !HasError(w.accepted)
  {
    RunInv(Start(), steps);
    var w := Run(Start(), steps);
    if w.buffer == [] {
      assert w.taken + w.buffer == w.taken;
    }
  }

  // ---- Progress --------------------------------------------------------------------------------

  /** An emit that has begun can return now. */
  predicate EmitReturns(w: World) {
    Enabled(w, Accept) || Enabled(w, EmitDetached) || Enabled(w, EmitExpired)
  }

  predicate HandlerStep(step: Step) {
    step.ReturnToClient? || step.TakeEvent? || step.TakeClosed? || step.TakeResult?
  }

  /** The worker is never stuck: its emit can return at once, or the channel is full and
      the handler can act, and then it can return whatever the handler does, even after
      the client has left. */
  lemma EmitNeverStuck(steps: seq<Step>)
    requires Run(Start(), steps).worker.Emitting?
    ensures var w := Run(Start(), steps);
            || EmitReturns(w)
            || (Enabled(w, TakeEvent(true))
                && forall step :: HandlerStep(step) && Enabled(w, step) ==> EmitReturns(Apply(w, step)))
  {
    RunInv(Start(), steps);
  }

  /** Once the handler is gone every emit returns, and the closing worker never waits. */
  lemma WorkerEndsAlone(steps: seq<Step>)
    ensures var w := Run(Start(), steps);
            && (w.handler.Returned? && w.worker.Emitting? ==> Enabled(w, EmitDetached))
            && (w.worker.Closing? ==> Enabled(w, PostResult))
  {
    RunInv(Start(), steps);
  }

  /** Nor is the handler: it can act, or the worker owes it an event or the result. */
  lemma HandlerNeverStuck(steps: seq<Step>)
    ensures var w := Run(Start(), steps);
            && (w.handler.Looping? && w.clientGone ==> Enabled(w, ReturnToClient))
            && (w.handler.Looping? && w.closed ==> Enabled(w, TakeEvent(true)) || Enabled(w, TakeClosed))
            && (w.handler.AwaitingResult? ==> Enabled(w, TakeResult) || Enabled(w, PostResult))
  {
    RunInv(Start(), steps);
  }

  /** The handler's steps once the run is over and the client keeps reading. */
  function Drain(n: nat): seq<Step> {
    if n == 0 then [TakeClosed, TakeResult] else [TakeEvent(true)] + Drain(n - 1)
  }

  /** The stream of w came to its right end in v. */
  ghost predicate Delivered(w: World, v: World) {
    && v.handler.Returned? && v.accepted == w.accepted && v.written == Real(w.accepted)
    && (v.synthetic <==> w.result == Some(true) && !HasError(w.accepted))
  }

  lemma CloseAndReport(w: World)
    requires Inv(w) && w.handler.Looping? && w.worker.Gone? && w.buffer == [] && !w.writeFailed
    ensures Delivered(w, Run(w, Drain(0)))
  {
    assert w.taken + w.buffer == w.taken;
    assert [TakeClosed, TakeResult][1..] == [TakeResult] && [TakeResult][1..] == [];
    var x := Apply(w, TakeClosed);
    assert Run(w, Drain(0)) == Run(x, [TakeResult]) == Apply(x, TakeResult);
  }

  lemma OneWritten(w: World, n: nat)
    requires Inv(w) && w.handler.Looping? && w.worker.Gone? && n == |w.buffer| > 0 && !w.writeFailed
    ensures var x := Took(w, true);
            && Inv(x) && x.handler.Looping? && x.worker.Gone? && !x.writeFailed && |x.buffer| == n - 1
            && x.accepted == w.accepted && x.result == w.result
            && Run(w, Drain(n)) == Run(x, Drain(n - 1))
  {
    TookInv(w, true);
    assert Drain(n)[1..] == Drain(n - 1) && Drain(n)[0] == TakeEvent(true);
  }

  /** When the run is over, as many steps as events are left bring a reading client to the
      end: everything accepted is written, and an own error follows only if none was sent. */
  lemma {:induction false} DrainDelivers(w: World)
    requires Inv(w) && w.handler.Looping? && w.worker.Gone? && !w.writeFailed
    ensures Delivered(w, Run(w, Drain(|w.buffer|)))
    decreases |w.buffer|
  {
    if w.buffer == [] {
      CloseAndReport(w);
    } else {
      OneWritten(w, |w.buffer|);
      DrainDelivers(Took(w, true));
    }
  }

  // ---- A run from end to end ---------------------------------------------------------------

  lemma {:induction false} RunSplit(w: World, a: seq<Step>, b: seq<Step>)
    ensures Run(w, a + b) == Run(Run(w, a), b)
    decreases |a|
  {
    if a == [] {
      assert a + b == b;
    } else {
      assert (a + b)[0] == a[0] && (a + b)[1..] == a[1..] + b;
      RunSplit(Apply(w, a[0]), a[1..], b);
    }
  }

  /** The events of a run, each emitted and written before the next. */
  function InTurn(events: seq<Event>): seq<Step> {
    if events == [] then [] else [Emit(events[0]), Accept, TakeEvent(true)] + InTurn(events[1..])
  }

  /** The worker runs, the handler waits for events, and the channel is empty. */
  ghost predicate Idle(w: World) {
    Inv(w) && w.worker.Running? && w.handler.Looping? && w.buffer == [] && !w.writeFailed
  }

  /** An event emitted while there is room in the channel is accepted and goes to its end. */
  lemma EmittedIsAccepted(w: World, event: Event)
    requires w.worker.Running? && !w.closed && |w.buffer| < CAPACITY
    ensures Run(w, [Emit(event), Accept]) == w.(buffer := w.buffer + [event], accepted := w.accepted + [event])
  {
    assert [Emit(event), Accept][1..] == [Accept] && [Accept][1..] == [];
    assert Run(w, [Emit(event), Accept]) == Run(Apply(w, Emit(event)), [Accept]);
  }

  lemma OneInTurn(w: World, event: Event)
    requires Idle(w)
    ensures var v := Run(w, [Emit(event), Accept, TakeEvent(true)]); Idle(v) && v.accepted == w.accepted + [event]
  {
    EmittedIsAccepted(w, event);
    RunSplit(w, [Emit(event), Accept], [TakeEvent(true)]);
    RunInv(w, [Emit(event), Accept]);
    assert [TakeEvent(true)][1..] == [];
    TookInv(Run(w, [Emit(event), Accept]), true);
    assert [Emit(event), Accept] + [TakeEvent(true)] == [Emit(event), Accept, TakeEvent(true)];
  }

  lemma {:induction false} AllInTurn(w: World, events: seq<Event>)
    requires Idle(w)
    ensures var v := Run(w, InTurn(events)); Idle(v) && v.accepted == w.accepted + events
    decreases |events|
  {
    if events != [] {
      var one := [Emit(events[0]), Accept, TakeEvent(true)];
      OneInTurn(w, events[0]);
      AllInTurn(Run(w, one), events[1..]);
      RunSplit(w, one, InTurn(events[1..]));
      assert w.accepted + events == w.accepted + [events[0]] + events[1..];
    }
  }

  lemma EndsIdle(w: World, failed: bool)
    requires Idle(w)
    ensures var v := Run(w, [EndRun(failed), PostResult]);
            && Inv(v) && v.worker.Gone? && v.result == Some(failed) && v.handler.Looping? && v.buffer == []
            && v.accepted == w.accepted && !v.writeFailed
  {
    RunInv(w, [EndRun(failed), PostResult]);
    assert [EndRun(failed), PostResult][1..] == [PostResult] && [PostResult][1..] == [];
    assert Run(w, [EndRun(failed), PostResult]) == Run(Apply(w, EndRun(failed)), [PostResult]);
  }

  /** A reading client gets every real event of a run, in order, and then an error of the
      handler's own exactly if the run failed without emitting one. */
  lemma UndisturbedRun(events: seq<Event>, failed: bool)
    ensures var v := Run(Start(), InTurn(events) + ([EndRun(failed), PostResult] + Drain(0)));
            && v.handler.Returned? && v.accepted == events && v.written == Real(events)
            && (v.synthetic <==> failed && !HasError(events))
  {
    var x := Run(Start(), InTurn(events));
    AllInTurn(Start(), events);
    assert Start().accepted + events == events;
    EndsIdle(x, failed);
    CloseAndReport(Run(x, [EndRun(failed), PostResult]));
    RunSplit(x, [EndRun(failed), PostResult], Drain(0));
    RunSplit(Start(), InTurn(events), [EndRun(failed), PostResult] + Drain(0));
  }
}
