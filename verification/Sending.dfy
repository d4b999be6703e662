// When an action is sent: runs that send one action twice, and the exact condition under
// which a call can still come to send.
module Sending {
  import opened ActionStore
  import opened Common
  import opened Dispatch
  import opened Protocol

  lemma TwoSteps(w: World, a: Step, b: Step)
    ensures Run(w, [a, b]) == Apply(Apply(w, a), b)
  {
    assert [a, b][1..] == [b] && [b][1..] == [];
    assert Run(w, [a, b]) == Run(Apply(w, a), [b]);
  }

  lemma ThreeSteps(w: World, a: Step, b: Step, c: Step)
    ensures Run(w, [a, b, c]) == Apply(Apply(Apply(w, a), b), c)
  {
    assert [a, b, c][1..] == [b, c] && [b, c][1..] == [c] && [c][1..] == [];
    assert Run(w, [a, b, c]) == Run(Apply(w, a), [b, c]);
    assert Run(Apply(w, a), [b, c]) == Run(Apply(Apply(w, a), b), [c]);
  }

  lemma {:induction false} RunSplit(w: World, a: seq<Step>, b: seq<Step>)
    ensures Run(w, a + b) == Run(Run(w, a), b)
    decreases |a|
  {
    if a == [] {
      assert a + b == b;
    } else {
      assert (a + b)[0] == a[0] && (a + b)[1..] == a[1..] + b;
      RunSplit(Apply(w, a[0]), a[1..], b);
    }
  }

  /** Nothing is recorded under the key, neither in memory nor in the store. */
  predicate Unrecorded(w: World, key: string) {
    key !in w.completed && !Held(w.store, key)
  }

  // ---- When a call can send -------------------------------------------------------------------

  /** The call will not send: it is over, or the store is about to answer it. */
  predicate Muted(w: World, c: nat) {
    && c < |w.calls| && w.calls[c].sends == 0
    && (w.calls[c].phase.Finished? || (w.calls[c].phase.Asking? && Held(w.store, w.calls[c].action.idempotencyKey)))
  }

  lemma HeldStays(w: World, step: Step, key: string)
    requires StoreAnswers(w) && Held(w.store, key)
    ensures Held(Apply(w, step).store, key)
  {
    var id :| id in w.store.value.rows && HoldsAt(w.store.value, id, key);
    if !step.Ask? {
      StepRows(w, step);
    }
    assert IsRow(w.store, key, w.store.value.rows[id].observation);
    assert IsRow(Apply(w, step).store, key, w.store.value.rows[id].observation);
  }

  lemma StepStaysMuted(w: World, step: Step, c: nat)
    requires StoreAnswers(w) && Muted(w, c)
    ensures Muted(Apply(w, step), c)
  {
    if Held(w.store, w.calls[c].action.idempotencyKey) {
      HeldStays(w, step, w.calls[c].action.idempotencyKey);
    }
    MutedCall(w, step, c);
  }

  lemma MutedCall(w: World, step: Step, c: nat)
    requires Muted(w, c)
    ensures c < |Apply(w, step).calls| && Apply(w, step).calls[c].action == w.calls[c].action
    ensures var call := Apply(w, step).calls[c]; call.sends == 0 && (call.phase.Finished? || call == w.calls[c])
  {
    if StoringStep(step) {
      MutedCallStoring(w, step, c);
    }
  }

  lemma MutedCallStoring(w: World, step: Step, c: nat)
    requires Muted(w, c) && StoringStep(step)
    ensures c < |Apply(w, step).calls| && Apply(w, step).calls[c].action == w.calls[c].action
    ensures var call := Apply(w, step).calls[c]; call.sends == 0 && (call.phase.Finished? || call == w.calls[c])
  {
  }

  lemma {:induction false} RunStaysMuted(w: World, steps: seq<Step>, c: nat)
    requires StoreAnswers(w) && Muted(w, c)
    ensures Muted(Run(w, steps), c)
    decreases |steps|
  {
    if steps != [] {
      StepStore(w, steps[0]);
      StepStaysMuted(w, steps[0], c);
      RunStaysMuted(Apply(w, steps[0]), steps[1..], c);
    }
  }

  // A call in flight can always come to its end, and then its action id is free.

  /** What brings a call to its end from wherever it is; steps that it is not at do nothing. */
  function WayOut(d: nat): seq<Step> {
    [Abort(d), FailSend(d), Expire(d, ReportsExpiry), SaveEnd(d, true), Persist(d), Complete(d)]
  }

  /** How many of those steps the call has behind it. */
  function Stage(phase: Phase): nat {
    match phase
    case Registering => 0
    case Ready => 1
    case Waiting => 2
    case Ending(_) => 3
    case Recording(_) => 4
    case Received(_) => 5
    case _ => 6
  }

  /** Call d owns its action id, and is past the first k of those steps; call c has not changed. */
  predicate OnItsWay(w: World, d: nat, k: nat, c: nat, call: Call, id: string) {
    && |w.slots| == |w.calls| && d < |w.calls| && c < |w.calls| && c != d && w.calls[c] == call
    && Owns(w.calls[d]) && w.calls[d].action.actionID == id && Stage(w.calls[d].phase) >= k
  }

  lemma OneStepOn(w: World, d: nat, k: nat, c: nat, call: Call, id: string)
    requires k < 6 && OnItsWay(w, d, k, c, call, id)
    requires w.calls[d].phase.Received? ==> w.calls[d].phase.observer < |w.observers|
    ensures OnItsWay(Apply(w, WayOut(d)[k]), d, k + 1, c, call, id)
  {
  }

  lemma {:induction false} OwnerGetsReady(w: World, d: nat, k: nat, c: nat, call: Call, id: string)
    requires Inv(w) && k <= 6 && OnItsWay(w, d, k, c, call, id)
    ensures var v := Run(w, WayOut(d)[k..]); Inv(v) && OnItsWay(v, d, 6, c, call, id)
    decreases 6 - k
  {
    if k < 6 {
      if w.calls[d].phase.Received? {
        assert LiveObserver(w.calls[d]).Some?;
      }
      var step := WayOut(d)[k];
      OneStepOn(w, d, k, c, call, id);
      StepInv(w, step);
      assert WayOut(d)[k..][0] == step && WayOut(d)[k..][1..] == WayOut(d)[k + 1..];
      OwnerGetsReady(Apply(w, step), d, k + 1, c, call, id);
    } else {
      assert WayOut(d)[6..] == [];
    }
  }

  lemma LeavingFrees(w: World, d: nat, c: nat, call: Call, id: string)
    requires OnItsWay(w, d, 6, c, call, id)
    ensures var v := Apply(w, Leave(d)); AtCall(v, c) && v.calls[c] == call && id !in v.pending
  {
  }

  /** Then a call that has got past the store can reserve the id, register and send. */
  lemma CheckingSends(w: World, c: nat)
    requires AtCall(w, c) && w.calls[c].phase.Checking? && w.calls[c].action.actionID !in w.pending
    ensures var v := Run(w, [Reserve(c), Register(c), Send(c)]);
            c < |v.calls| && v.calls[c].sends == w.calls[c].sends + 1
  {
    ThreeSteps(w, Reserve(c), Register(c), Send(c));
    ReadyAfter(w, c);
  }

  lemma ReadyAfter(w: World, c: nat)
    requires AtCall(w, c) && w.calls[c].phase.Checking? && w.calls[c].action.actionID !in w.pending
    ensures var v := Apply(Reserved(w, c), Register(c)); AtCall(v, c) && v.calls[c] == w.calls[c].(phase := Ready)
  {
  }

  lemma OwnerLeaves(w: World, d: nat, c: nat)
    requires Inv(w) && AtCall(w, c) && w.calls[c].phase.Checking?
    requires w.calls[c].action.actionID in w.pending && d == w.pending[w.calls[c].action.actionID]
    ensures var v := Run(w, WayOut(d) + [Leave(d)]);
            AtCall(v, c) && v.calls[c] == w.calls[c] && w.calls[c].action.actionID !in v.pending
  {
    assert WayOut(d)[0..] == WayOut(d);
    OwnerGetsReady(w, d, 0, c, w.calls[c], w.calls[c].action.actionID);
    LeavingFrees(Run(w, WayOut(d)), d, c, w.calls[c], w.calls[c].action.actionID);
    RunSplit(w, WayOut(d), [Leave(d)]);
    OneStep(Run(w, WayOut(d)), Leave(d));
  }

  lemma FreedSends(w: World, c: nat)
    requires Inv(w) && AtCall(w, c) && w.calls[c].phase.Checking?
    ensures exists more :: SendsOnceMore(w, c, more)
  {
    var sends := [Reserve(c), Register(c), Send(c)];
    if w.calls[c].action.actionID in w.pending {
      var leaves := WayOut(w.pending[w.calls[c].action.actionID]) + [Leave(w.pending[w.calls[c].action.actionID])];
      OwnerLeaves(w, w.pending[w.calls[c].action.actionID], c);
      CheckingSends(Run(w, leaves), c);
      RunSplit(w, leaves, sends);
      assert SendsOnceMore(w, c, leaves + sends);
    } else {
      CheckingSends(w, c);
      assert SendsOnceMore(w, c, sends);
    }
  }

  lemma OneStep(w: World, step: Step)
    ensures Run(w, [step]) == Apply(w, step)
  {
    assert [step][1..] == [];
  }

  predicate SendsOnceMore(w: World, c: nat, more: seq<Step>) {
    c < |w.calls| && c < |Run(w, more).calls| && Run(w, more).calls[c].sends > w.calls[c].sends
  }

  /** The call started in w sends after these further steps. */
  predicate SendsAfter(w: World, action: Action, more: seq<Step>) {
    var v := Run(Started(w, action), more);
    |w.calls| < |v.calls| && v.calls[|w.calls|].sends > 0
  }

  /** At any moment of any run, with or without a store and whatever it held at the start, a
      call that starts now can come to send its action exactly if nothing is recorded under
      its key, neither in the cache nor in the store. */
  lemma CanSendIff(store: Option<Tables>, steps: seq<Step>, action: Action)
    requires IsConsistent(store)
    ensures var w := Run(Start(store), steps);
            (exists more :: SendsAfter(w, action, more))
            <==> action.idempotencyKey !in w.completed && (w.store.None? || !Holds(w.store.value, action.idempotencyKey))
  {
    var w := Run(Start(store), steps);
    var v, c := Started(w, action), |w.calls|;
    Reachable(store, steps);
    StepInv(w, StartCall(action));
    if Unrecorded(w, action.idempotencyKey) {
      var x := Asked(v, c, None);
      StepInv(v, Ask(c, None));
      FreedSends(x, c);
      var more :| SendsOnceMore(x, c, more);
      OneStep(v, Ask(c, None));
      RunSplit(v, [Ask(c, None)], more);
      assert SendsAfter(w, action, [Ask(c, None)] + more);
    } else {
      forall more ensures !SendsAfter(w, action, more) {
        RunStaysMuted(v, more, c);
      }
    }
  }

  // ---- Runs of one call ----------------------------------------------------------------------

  /** No call in flight. */
  predicate Quiet(w: World) {
    |w.slots| == |w.calls| && w.pending == map[]
  }

  /** w with one more call, and the store as that call has left it. */
  function With(w: World, call: Call, store: Option<Tables>): World {
    w.(calls := w.calls + [call], slots := w.slots + [None], store := store,
       pending := if Owns(call) then map[call.action.actionID := |w.calls|] else map[])
  }

  lemma Opens(w: World, a: Action)
    requires Quiet(w) && Unrecorded(w, a.idempotencyKey)
    ensures Run(w, [StartCall(a), Ask(|w.calls|, None), Reserve(|w.calls|)]) == With(w, Call(a, Registering, 0), w.store)
  {
    var c := |w.calls|;
    ThreeSteps(w, StartCall(a), Ask(c, None), Reserve(c));
    OpensChecking(w, a);
    OpensReserved(w, a);
  }

  lemma OpensReserved(w: World, a: Action)
    requires Quiet(w)
    ensures Reserved(With(w, Call(a, Checking, 0), w.store), |w.calls|) == With(w, Call(a, Registering, 0), w.store)
  {
  }

  lemma OpensChecking(w: World, a: Action)
    requires Quiet(w) && Unrecorded(w, a.idempotencyKey)
    ensures Asked(Started(w, a), |w.calls|, None) == With(w, Call(a, Checking, 0), w.store)
  {
    assert Started(w, a) == With(w, Call(a, Asking, 0), w.store);
  }

  lemma RegistersAndSends(w: World, a: Action)
    requires Quiet(w)
    ensures Run(With(w, Call(a, Registering, 0), w.store), [Register(|w.calls|), Send(|w.calls|)])
            == With(w, Call(a, Waiting, 1), Entered(w.store, a))
  {
    var c, x := |w.calls|, With(w, Call(a, Registering, 0), w.store);
    TwoSteps(x, Register(c), Send(c));
    assert Apply(x, Register(c)) == With(w, Call(a, Ready, 0), Entered(w.store, a));
  }

  lemma Expires(w: World, a: Action, status: ObservationStatus, store: Option<Tables>)
    requires Quiet(w)
    ensures Run(With(w, Call(a, Waiting, 1), store), [Expire(|w.calls|, status), SaveEnd(|w.calls|, true)])
            == With(w, Call(a, Recording(status), 1), Saved(store, EndOf(a, status)))
  {
    var c, x := |w.calls|, With(w, Call(a, Waiting, 1), store);
    TwoSteps(x, Expire(c, status), SaveEnd(c, true));
    assert Apply(x, Expire(c, status)) == With(w, Call(a, Ending(status), 1), store);
  }

  lemma Closes(w: World, a: Action, status: ObservationStatus, store: Option<Tables>)
    requires Quiet(w)
    ensures Run(With(w, Call(a, Recording(status), 1), store), [Persist(|w.calls|), Leave(|w.calls|)])
            == With(w, Call(a, Finished(Ended), 1), store)
               .(completed := w.completed[a.idempotencyKey := EndOf(a, status)], persists := w.persists + 1)
  {
    var c, x := |w.calls|, With(w, Call(a, Recording(status), 1), store);
    TwoSteps(x, Persist(c), Leave(c));
    var y := With(w, Call(a, Leaving(Ended), 1), store)
             .(completed := w.completed[a.idempotencyKey := EndOf(a, status)], persists := w.persists + 1);
    assert Apply(x, Persist(c)) == y;
    assert y.pending - {a.actionID} == map[];
  }

  /** A call up to the wait for its answer. */
  function Sent(a: Action, c: nat): seq<Step> {
    [StartCall(a), Ask(c, None), Reserve(c)] + [Register(c), Send(c)]
  }

  lemma CallSends(w: World, a: Action)
    requires Quiet(w) && Unrecorded(w, a.idempotencyKey)
    ensures Run(w, Sent(a, |w.calls|)) == With(w, Call(a, Waiting, 1), Entered(w.store, a))
  {
    var c := |w.calls|;
    Opens(w, a);
    RegistersAndSends(w, a);
    RunSplit(w, [StartCall(a), Ask(c, None), Reserve(c)], [Register(c), Send(c)]);
  }

  /** A call that sends its action and ends by itself. */
  function Timeout(a: Action, status: ObservationStatus, c: nat): seq<Step> {
    Sent(a, c) + ([Expire(c, status), SaveEnd(c, true)] + [Persist(c), Leave(c)])
  }

  lemma TimeoutRecords(w: World, a: Action, status: ObservationStatus)
    requires Quiet(w) && Unrecorded(w, a.idempotencyKey)
    ensures Run(w, Timeout(a, status, |w.calls|))
            == With(w, Call(a, Finished(Ended), 1), Saved(Entered(w.store, a), EndOf(a, status)))
               .(completed := w.completed[a.idempotencyKey := EndOf(a, status)], persists := w.persists + 1)
  {
    var c := |w.calls|;
    var x := Run(w, Sent(a, c));
    CallSends(w, a);
    Expires(w, a, status, Entered(w.store, a));
    Closes(w, a, status, Saved(Entered(w.store, a), EndOf(a, status)));
    RunSplit(x, [Expire(c, status), SaveEnd(c, true)], [Persist(c), Leave(c)]);
    RunSplit(w, Sent(a, c), [Expire(c, status), SaveEnd(c, true)] + [Persist(c), Leave(c)]);
  }

  /** An action id used again in a later round gets the earlier round's observation from the
      cache, whatever its sequence: only a live answer is compared with the action. */
  lemma LaterRoundGetsEarlierAnswer(store: Option<Tables>, a: Action, b: Action, status: ObservationStatus)
    requires !Held(store, a.idempotencyKey)
    requires StampedKey(a) && StampedKey(b) && a.taskID == b.taskID && a.actionID == b.actionID && a.sequence != b.sequence
    ensures var w := Run(Start(store), Timeout(a, status, 0) + [StartCall(b)]);
            && |w.calls| == 2 && w.calls[1].action == b && w.calls[1].phase == Finished(Cached(EndOf(a, status)))
            && !Correlates(EndOf(a, status), b)
  {
    TimeoutRecords(Start(store), a, status);
    RunSplit(Start(store), Timeout(a, status, 0), [StartCall(b)]);
    OneStep(Run(Start(store), Timeout(a, status, 0)), StartCall(b));
  }

  // ---- Any number of timeouts -------------------------------------------------------------------

  function Numbered(action: Action, n: nat): Action {
    action.(idempotencyKey := seq(n, _ => 'k'))
  }

  /** n calls, one after the other and each under a key of its own, all of which time out. */
  function Timeouts(action: Action, n: nat): seq<Step> {
    if n == 0 then [] else Timeouts(action, n - 1) + Timeout(Numbered(action, n - 1), ReportsExpiry, n - 1)
  }

  /** No key in the tables is as long as n. */
  predicate ShortKeys(store: Option<Tables>, n: nat) {
    store.Some? ==>
      (forall id :: id in store.value.actions ==> |store.value.actions[id].idempotencyKey| < n)
      && (forall id :: id in store.value.rows ==> |store.value.rows[id].key| < n)
  }

  lemma KeysGrow(store: Option<Tables>, a: Action, o: Observation, n: nat)
    requires ShortKeys(store, n) && |a.idempotencyKey| == n
    ensures ShortKeys(Saved(Entered(store, a), o), n + 1)
  {
  }

  /** n calls have ended by themselves, one per key, and no longer key is in use. */
  ghost predicate Filled(w: World, n: nat) {
    && |w.completed| == |w.calls| == n && Quiet(w) && ShortKeys(w.store, n)
    && forall key :: key in w.completed ==> |key| < n
  }

  lemma OneTimeoutMore(w: World, last: Action, n: nat)
    requires Filled(w, n) && |last.idempotencyKey| == n
    ensures Filled(Run(w, Timeout(last, ReportsExpiry, n)), n + 1)
  {
    assert Unrecorded(w, last.idempotencyKey);
    TimeoutRecords(w, last, ReportsExpiry);
    KeysGrow(w.store, last, EndOf(last, ReportsExpiry), n);
    GrowsByOne(w.completed, last.idempotencyKey, EndOf(last, ReportsExpiry));
  }

  /** With and without a store, any number of timeouts are all in the cache at once, those beyond the limit too. */
  lemma {:induction false} TimeoutsFillCache(store: Option<Tables>, action: Action, n: nat)
    requires store == None || store == Some(EMPTY)
    ensures var w := Run(Start(store), Timeouts(action, n)); Filled(w, n) && |w.completed| == n
  {
    if n > 0 {
      TimeoutsFillCache(store, action, n - 1);
      RunSplit(Start(store), Timeouts(action, n - 1), Timeout(Numbered(action, n - 1), ReportsExpiry, n - 1));
      OneTimeoutMore(Run(Start(store), Timeouts(action, n - 1)), Numbered(action, n - 1), n - 1);
    }
  }

  // ---- Repeated keys ----------------------------------------------------------------------------

  /** The cache is not emptied during the run. */
  predicate NoReset(w: World, steps: seq<Step>)
    decreases |steps|
  {
    steps == [] || ((steps[0].Complete? ==> |w.completed| < COMPLETED_LIMIT) && NoReset(Apply(w, steps[0]), steps[1..]))
  }

  /** Calls from the n-th on with this key are answered from the cache and send nothing. */
  ghost predicate Silent(w: World, key: string, n: nat) {
    && key in w.completed && n <= |w.calls|
    && forall c :: n <= c < |w.calls| && w.calls[c].action.idempotencyKey == key ==>
         w.calls[c].sends == 0 && w.calls[c].phase.Finished? && w.calls[c].phase.result.Cached?
  }

  lemma StoringStepSilent(w: World, step: Step, key: string, n: nat)
    requires Silent(w, key, n) && StoringStep(step)
    ensures Silent(Apply(w, step), key, n)
  {
  }

  lemma OtherStepSilent(w: World, step: Step, key: string, n: nat)
    requires Silent(w, key, n) && !StoringStep(step) && (step.Complete? ==> |w.completed| < COMPLETED_LIMIT)
    ensures Silent(Apply(w, step), key, n)
  {
  }

  /** Once an outcome for a key is recorded, no later call with that key reaches a
      device, for as long as the cache is not emptied. */
  lemma {:induction false} NoSendAfterRecorded(w: World, steps: seq<Step>, key: string, n: nat)
    requires Silent(w, key, n) && NoReset(w, steps)
    ensures Silent(Run(w, steps), key, n)
    decreases |steps|
  {
    if steps != [] {
      if StoringStep(steps[0]) {
        StoringStepSilent(w, steps[0], key, n);
      } else {
        OtherStepSilent(w, steps[0], key, n);
      }
      NoSendAfterRecorded(Apply(w, steps[0]), steps[1..], key, n);
    }
  }

  // ---- What an outcome leaves behind --------------------------------------------------------------

  /** Taking a live answer records what it says under the call's key. While there is room every
      other entry stays; a full cache loses them all. Nothing else changes but the call. */
  lemma CompleteRecords(w: World, c: nat, q: nat)
    requires AtCall(w, c) && w.calls[c].phase == Received(q) && q < |w.observers|
    ensures var v, key := Apply(w, Complete(c)), w.calls[c].action.idempotencyKey;
            && key in v.completed && IsWithoutData(v.completed[key], w.observers[q].observation)
            && v.completed - {key} == (if |w.completed| < COMPLETED_LIMIT then w.completed - {key} else map[])
            && v == w.(completed := v.completed, calls := w.calls[c := w.calls[c].(phase := Leaving(Live(q)))])
  {
    SafeSaysTheSame(w.observers[q].observation);
  }

  /** A call that ends by itself records the end under its key, whatever the cache holds. */
  lemma PersistRecords(w: World, c: nat, status: ObservationStatus)
    requires AtCall(w, c) && w.calls[c].phase == Recording(status)
    ensures var v, action := Apply(w, Persist(c)), w.calls[c].action;
            && action.idempotencyKey in v.completed
            && v.completed[action.idempotencyKey]
                 == Observation(action.taskID, action.actionID, action.sessionID, action.sequence, status, [])
            && v.completed - {action.idempotencyKey} == w.completed - {action.idempotencyKey}
            && v.calls == w.calls[c := w.calls[c].(phase := Leaving(Ended))] && v.pending == w.pending
  {
  }

  /** The step by which a call records its outcome. */
  predicate IsRecording(w: World, c: nat, step: Step) {
    AtCall(w, c) && (
      || (step == Complete(c) && w.calls[c].phase.Received? && w.calls[c].phase.observer < |w.observers|)
      || (step == Persist(c) && w.calls[c].phase.Recording?))
  }

  /** From the moment a call records an outcome, no call that starts later with its key sends
      anything, until an answer arrives while the cache is full. */
  lemma NoSendAfterOutcome(w: World, c: nat, step: Step, more: seq<Step>)
    requires IsRecording(w, c, step) && NoReset(Apply(w, step), more)
    ensures var v := Run(w, [step] + more);
            forall d :: |w.calls| <= d < |v.calls| && v.calls[d].action.idempotencyKey == w.calls[c].action.idempotencyKey ==>
              v.calls[d].sends == 0 && v.calls[d].phase.Finished? && v.calls[d].phase.result.Cached?
  {
    if step.Complete? {
      CompleteRecords(w, c, w.calls[c].phase.observer);
    } else {
      PersistRecords(w, c, w.calls[c].phase.status);
    }
    assert ([step] + more)[0] == step && ([step] + more)[1..] == more;
    assert Silent(Apply(w, step), w.calls[c].action.idempotencyKey, |w.calls|);
    NoSendAfterRecorded(Apply(w, step), more, w.calls[c].action.idempotencyKey, |w.calls|);
  }

  // ---- One action sent twice -----------------------------------------------------------------------

  // Without a store, calls that do not overlap send twice after a mismatch; with one the
  // second call is answered with the observation that did not fit.

  /** A call that has sent a, with its channel, and one observer of o. */
  function Alone(a: Action, phase: Phase, slot: Option<nat>, o: Observation, place: Place, store: Option<Tables>): World {
    World([Call(a, phase, 1)], [slot], [Observer(o, place)],
          if Owns(Call(a, phase, 1)) then map[a.actionID := 0] else map[], map[], 0, store)
  }

  lemma UnfitArrives(a: Action, o: Observation, store: Option<Tables>)
    requires o.actionID == a.actionID && (store.Some? ==> a.actionID in store.value.actions)
    ensures Run(With(Start(None), Call(a, Waiting, 1), store), [Arrive(o), Lookup(0), Push(0)])
            == Alone(a, Waiting, Some(0), o, Queued(0), Saved(store, Safe(o)))
  {
    var w := With(Start(None), Call(a, Waiting, 1), store);
    ThreeSteps(w, Arrive(o), Lookup(0), Push(0));
    UnfitIsSaved(a, o, store);
    UnfitIsQueued(a, o, Saved(store, Safe(o)));
  }

  lemma UnfitIsSaved(a: Action, o: Observation, store: Option<Tables>)
    requires o.actionID == a.actionID && (store.Some? ==> a.actionID in store.value.actions)
    ensures Apply(With(Start(None), Call(a, Waiting, 1), store), Arrive(o))
            == Alone(a, Waiting, None, o, Arrived, Saved(store, Safe(o)))
  {
  }

  lemma UnfitIsQueued(a: Action, o: Observation, store: Option<Tables>)
    requires o.actionID == a.actionID
    ensures Pushed(LookedUp(Alone(a, Waiting, None, o, Arrived, store), 0), 0) == Alone(a, Waiting, Some(0), o, Queued(0), store)
  {
    assert LookedUp(Alone(a, Waiting, None, o, Arrived, store), 0) == Alone(a, Waiting, None, o, Holding(0), store);
  }

  lemma MismatchLeaves(a: Action, o: Observation, store: Option<Tables>)
    requires !Correlates(o, a)
    ensures Run(Alone(a, Waiting, Some(0), o, Queued(0), store), [Receive(0), Leave(0)])
            == Alone(a, Finished(Mismatch), None, o, Consumed(0), store)
  {
    var w := Alone(a, Waiting, Some(0), o, Queued(0), store);
    var x := Alone(a, Leaving(Mismatch), None, o, Consumed(0), store);
    assert Apply(w, Receive(0)) == x;
    assert x.pending - {a.actionID} == map[];
    TwoSteps(w, Receive(0), Leave(0));
  }

  /** A call of a whose device answers with o. */
  function Mismatched(a: Action, o: Observation): seq<Step> {
    Sent(a, 0) + ([Arrive(o), Lookup(0), Push(0)] + [Receive(0), Leave(0)])
  }

  lemma MismatchRecordsNothing(store: Option<Tables>, a: Action, o: Observation)
    requires !Held(store, a.idempotencyKey) && o.actionID == a.actionID && !Correlates(o, a)
    requires store.Some? ==> a.actionID !in store.value.actions && !KeyTaken(store.value, a.idempotencyKey)
    ensures Run(Start(store), Mismatched(a, o))
            == Alone(a, Finished(Mismatch), None, o, Consumed(0), Saved(Entered(store, a), Safe(o)))
  {
    var w := Run(Start(store), Sent(a, 0));
    CallSends(Start(store), a);
    assert w == With(Start(None), Call(a, Waiting, 1), Entered(store, a));
    UnfitArrives(a, o, Entered(store, a));
    MismatchLeaves(a, o, Saved(Entered(store, a), Safe(o)));
    RunSplit(w, [Arrive(o), Lookup(0), Push(0)], [Receive(0), Leave(0)]);
    RunSplit(Start(store), Sent(a, 0), [Arrive(o), Lookup(0), Push(0)] + [Receive(0), Leave(0)]);
  }

  lemma FitIsTaken(a: Action, o: Observation, store: Option<Tables>)
    requires o.taskID == a.taskID && o.sequence == a.sequence
    ensures Run(Alone(a, Waiting, Some(0), o, Queued(0), store), [Receive(0), Complete(0), Leave(0)])
            == Alone(a, Finished(Live(0)), None, o, Consumed(0), store).(completed := map[a.idempotencyKey := Safe(o)])
  {
    FitIsReceived(a, o, store);
    FitIsCompleted(a, o, store);
    ThreeSteps(Alone(a, Waiting, Some(0), o, Queued(0), store), Receive(0), Complete(0), Leave(0));
  }

  lemma FitIsReceived(a: Action, o: Observation, store: Option<Tables>)
    requires o.taskID == a.taskID && o.sequence == a.sequence
    ensures Apply(Alone(a, Waiting, Some(0), o, Queued(0), store), Receive(0)) == Alone(a, Received(0), None, o, Consumed(0), store)
  {
  }

  lemma FitIsCompleted(a: Action, o: Observation, store: Option<Tables>)
    ensures Apply(Apply(Alone(a, Received(0), None, o, Consumed(0), store), Complete(0)), Leave(0))
            == Alone(a, Finished(Live(0)), None, o, Consumed(0), store).(completed := map[a.idempotencyKey := Safe(o)])
  {
    var y := Alone(a, Leaving(Live(0)), None, o, Consumed(0), store).(completed := map[a.idempotencyKey := Safe(o)]);
    assert Apply(Alone(a, Received(0), None, o, Consumed(0), store), Complete(0)) == y;
    assert y.pending - {a.actionID} == map[];
  }

  /** A call of a whose device answers with o in time. */
  function Answered(a: Action, o: Observation): seq<Step> {
    Sent(a, 0) + ([Arrive(o), Lookup(0), Push(0)] + [Receive(0), Complete(0), Leave(0)])
  }

  lemma AnswerIsRecorded(store: Option<Tables>, a: Action, o: Observation)
    requires !Held(store, a.idempotencyKey) && (store.Some? ==> CanRegister(store.value, a))
    requires o.actionID == a.actionID && o.taskID == a.taskID && o.sequence == a.sequence
    ensures Run(Start(store), Answered(a, o))
            == Alone(a, Finished(Live(0)), None, o, Consumed(0), Saved(Entered(store, a), Safe(o)))
               .(completed := map[a.idempotencyKey := Safe(o)])
  {
    var w := Run(Start(store), Sent(a, 0));
    CallSends(Start(store), a);
    assert w == With(Start(None), Call(a, Waiting, 1), Entered(store, a));
    UnfitArrives(a, o, Entered(store, a));
    FitIsTaken(a, o, Saved(Entered(store, a), Safe(o)));
    RunSplit(w, [Arrive(o), Lookup(0), Push(0)], [Receive(0), Complete(0), Leave(0)]);
    RunSplit(Start(store), Sent(a, 0), [Arrive(o), Lookup(0), Push(0)] + [Receive(0), Complete(0), Leave(0)]);
  }

  /** The store has the action, or can take it. */
  predicate CanRegister(t: Tables, a: Action) {
    a.actionID in t.actions || !KeyTaken(t, a.idempotencyKey)
  }

  /** An answer that fits reaches its call, whose action was sent once; and a later call with
      the same key is given what the answer said, without sending. */
  lemma AnsweredOnce(store: Option<Tables>, a: Action, o: Observation, b: Action)
    requires !Held(store, a.idempotencyKey) && (store.Some? ==> CanRegister(store.value, a))
    requires o.actionID == a.actionID && o.taskID == a.taskID && o.sequence == a.sequence
    requires b.idempotencyKey == a.idempotencyKey
    ensures var one := Run(Start(store), Answered(a, o));
            && one.calls == [Call(a, Finished(Live(0)), 1)] && one.observers == [Observer(o, Consumed(0))]
            && one.pending == map[] && one.completed.Keys == {a.idempotencyKey}
            && var two := Run(one, [StartCall(b)]);
               && |two.calls| == 2 && two.calls[1].action == b && two.calls[1].sends == 0
               && two.calls[1].phase.Finished? && two.calls[1].phase.result.Cached?
               && IsWithoutData(two.calls[1].phase.result.observation, o)
  {
    AnswerIsRecorded(store, a, o);
    OneStep(Run(Start(store), Answered(a, o)), StartCall(b));
    SafeSaysTheSame(o);
  }

  /** In a hub without a store, an observation of another task or sequence ends the first
      call without a record, and a call made after it has returned sends the same action again. */
  lemma MismatchWithoutStoreSendsTwice(a: Action, o: Observation)
    requires o.actionID == a.actionID && !Correlates(o, a)
    ensures var one := Run(Start(None), Mismatched(a, o));
            && one.calls == [Call(a, Finished(Mismatch), 1)] && one.completed == map[]
            && Run(one, Sent(a, 1)).calls == [Call(a, Finished(Mismatch), 1), Call(a, Waiting, 1)]
  {
    MismatchRecordsNothing(None, a, o);
    CallSends(Run(Start(None), Mismatched(a, o)), a);
  }

  /** In a hub with a store, where the action is new, the observation was saved before it was
      found not to fit: the second call sends nothing and returns it. */
  lemma MismatchWithStoreIsAnswered(t: Tables, a: Action, o: Observation)
    requires Consistent(t) && a.actionID !in t.actions && !KeyTaken(t, a.idempotencyKey)
    requires o.actionID == a.actionID && !Correlates(o, a)
    ensures var one := Run(Start(Some(t)), Mismatched(a, o));
            var answer := o.(attachments := []);
            && one.calls == [Call(a, Finished(Mismatch), 1)] && one.completed == map[]
            && Run(one, [StartCall(a), Ask(1, Some(a.actionID))]).calls
                 == [Call(a, Finished(Mismatch), 1), Call(a, Finished(Stored(answer)), 0)]
            && !Correlates(answer, a)
  {
    NewActionIsNotHeld(t, a);
    MismatchRecordsNothing(Some(t), a, o);
    var one := Run(Start(Some(t)), Mismatched(a, o));
    TwoSteps(one, StartCall(a), Ask(1, Some(a.actionID)));
    var u := one.store.value;
    assert u.rows[a.actionID] == Row(a.idempotencyKey, o.(attachments := [])) by {
      assert a.actionID !in t.rows;
    }
  }

  lemma NewActionIsNotHeld(t: Tables, a: Action)
    requires Consistent(t) && !KeyTaken(t, a.idempotencyKey)
    ensures !Holds(t, a.idempotencyKey)
  {
    forall id | id in t.rows ensures !HoldsAt(t, id, a.idempotencyKey) {
      assert id in t.actions;
    }
  }

  // With or without a store, overlapping calls send twice.

  /** Two calls with one action, the first in this phase and the second not yet past its check. */
  predicate Overlaps(w: World, a: Action, p: Phase, m: nat, q: Phase, n: nat) {
    && w.calls == [Call(a, p, m), Call(a, q, n)] && w.slots == [None, None]
    && w.pending == if Owns(w.calls[0]) then map[a.actionID := 0] else if Owns(w.calls[1]) then map[a.actionID := 1] else map[]
  }

  lemma BothPassTheStore(store: Option<Tables>, a: Action)
    requires !Held(store, a.idempotencyKey)
    ensures var w := Run(Run(Start(store), [StartCall(a), StartCall(a)]), [Ask(0, None), Ask(1, None)]);
            Overlaps(w, a, Checking, 0, Checking, 0) && w.store == store
  {
    var x := With(Start(store), Call(a, Asking, 0), store);
    TwoSteps(Start(store), StartCall(a), StartCall(a));
    assert Apply(Start(store), StartCall(a)) == x;
    var y := Apply(x, StartCall(a));
    assert y.calls == [Call(a, Asking, 0), Call(a, Asking, 0)] && y.slots == [None, None];
    TwoSteps(y, Ask(0, None), Ask(1, None));
    assert Apply(y, Ask(0, None)).calls == [Call(a, Checking, 0), Call(a, Asking, 0)];
  }

  lemma FirstSends(w: World, a: Action)
    requires Overlaps(w, a, Checking, 0, Checking, 0)
    ensures Overlaps(Run(w, [Reserve(0), Register(0), Send(0)]), a, Waiting, 1, Checking, 0)
  {
    ThreeSteps(w, Reserve(0), Register(0), Send(0));
    assert Overlaps(Reserved(w, 0), a, Registering, 0, Checking, 0);
    assert Overlaps(Apply(Reserved(w, 0), Register(0)), a, Ready, 0, Checking, 0);
  }

  lemma FirstEnds(w: World, a: Action, status: ObservationStatus)
    requires Overlaps(w, a, Waiting, 1, Checking, 0)
    ensures Overlaps(Run(w, [Expire(0, status), SaveEnd(0, true)]), a, Recording(status), 1, Checking, 0)
  {
    TwoSteps(w, Expire(0, status), SaveEnd(0, true));
    assert Overlaps(Apply(w, Expire(0, status)), a, Ending(status), 1, Checking, 0);
  }

  lemma FirstLeaves(w: World, a: Action, status: ObservationStatus)
    requires Overlaps(w, a, Recording(status), 1, Checking, 0)
    ensures Overlaps(Run(w, [Persist(0), Leave(0)]), a, Finished(Ended), 1, Checking, 0)
  {
    TwoSteps(w, Persist(0), Leave(0));
    var x := Apply(w, Persist(0));
    assert Overlaps(x, a, Leaving(Ended), 1, Checking, 0);
    assert x.pending - {a.actionID} == map[];
  }

  lemma SecondSends(w: World, a: Action)
    requires Overlaps(w, a, Finished(Ended), 1, Checking, 0)
    ensures Overlaps(Run(w, [Reserve(1), Register(1), Send(1)]), a, Finished(Ended), 1, Waiting, 1)
  {
    ThreeSteps(w, Reserve(1), Register(1), Send(1));
    assert Overlaps(Reserved(w, 1), a, Finished(Ended), 1, Registering, 0);
    assert Overlaps(Apply(Reserved(w, 1), Register(1)), a, Finished(Ended), 1, Ready, 0);
  }

  /** Both calls look into cache and store before either has recorded anything; the first one
      sends, times out and leaves, and then the second one sends the same action again. */
  lemma OverlapSendsTwice(store: Option<Tables>, a: Action, status: ObservationStatus)
    requires !Held(store, a.idempotencyKey)
    ensures var both := Run(Run(Start(store), [StartCall(a), StartCall(a)]), [Ask(0, None), Ask(1, None)]);
            var sent := Run(both, [Reserve(0), Register(0), Send(0)]);
            var gone := Run(Run(sent, [Expire(0, status), SaveEnd(0, true)]), [Persist(0), Leave(0)]);
            Run(gone, [Reserve(1), Register(1), Send(1)]).calls == [Call(a, Finished(Ended), 1), Call(a, Waiting, 1)]
  {
    BothPassTheStore(store, a);
    var both := Run(Run(Start(store), [StartCall(a), StartCall(a)]), [Ask(0, None), Ask(1, None)]);
    FirstSends(both, a);
    var sent := Run(both, [Reserve(0), Register(0), Send(0)]);
    FirstEnds(sent, a, status);
    var ended := Run(sent, [Expire(0, status), SaveEnd(0, true)]);
    FirstLeaves(ended, a, status);
    SecondSends(Run(ended, [Persist(0), Leave(0)]), a);
  }
}
