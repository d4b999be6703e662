// Dispatching actions to devices and matching the observations that come back.
// Calls of Dispatch and Observe interleave; every step below is one lock section,
// one channel operation or one statement to the store of one of them.
module Dispatch {
  import opened ActionStore
  import opened Common
  import opened Protocol

  const COMPLETED_LIMIT := 4096

  // ---- The two maps ------------------------------------------------------------------

  /** A finished observation enters the cache; a full cache is emptied first. */
  function Remember(completed: map<string, Observation>, key: string, o: Observation): map<string, Observation> {
    if |completed| >= COMPLETED_LIMIT then map[key := o] else completed[key := o]
  }

  /** A free action id is taken by the call. */
  function WithPending(pending: map<string, nat>, actionID: string, call: nat): map<string, nat> {
    if actionID in pending then pending else pending[actionID := call]
  }

  class DispatchTable {
    /** Which call of Dispatch waits for each action. */
    var pending: map<string, nat>
    var completed: map<string, Observation>

    constructor ()
      ensures pending == map[] && completed == map[]
    {
      pending, completed := map[], map[];
    }

    method Reserve(actionID: string, call: nat) returns (ok: bool)
      modifies this`pending
      ensures ok == (actionID !in old(pending)) && pending == WithPending(old(pending), actionID, call)
    {
      ok := actionID !in pending;
      if ok {
        pending := pending[actionID := call];
      }
    }

    method Release(actionID: string)
      modifies this`pending
      ensures pending == old(pending) - {actionID}
    {
      pending := pending - {actionID};
    }

    method Finish(key: string, o: Observation)
      modifies this`completed
      ensures completed == Remember(old(completed), key, Safe(o))
      ensures key in completed && IsWithoutData(completed[key], o)
      ensures completed - {key} == if |old(completed)| < COMPLETED_LIMIT then old(completed) - {key} else map[]
      ensures |completed| <= COMPLETED_LIMIT
    {
      if |completed| >= COMPLETED_LIMIT {
        completed := map[];
      }
      GrowsByOne(completed, key, Safe(o));
      var safe := WithoutAttachmentData(o);
      completed := completed[key := safe];
    }

    method Persist(key: string, o: Observation)
      modifies this`completed
      ensures completed == old(completed)[key := o]
    {
      completed := completed[key := o];
    }
  }

  lemma GrowsByOne(completed: map<string, Observation>, key: string, o: Observation)
    ensures |completed[key := o]| == if key in completed then |completed| else |completed| + 1
  {
    if key in completed {
      assert completed[key := o].Keys == completed.Keys;
      assert |completed[key := o]| == |completed[key := o].Keys| == |completed.Keys| == |completed|;
    } else {
      assert completed[key := o].Keys == completed.Keys + {key};
      assert |completed[key := o]| == |completed[key := o].Keys| == |completed| + 1;
    }
  }

  // ---- The world -----------------------------------------------------------------------

  datatype Result =
    | Live(observer: nat)
    | Cached(observation: Observation)
    | Stored(observation: Observation)
    | AlreadyPending
    | Refused
    | Mismatch
    | Ended

  /** How far a call of Dispatch has come: it asks the store, checks the device, registers
      its action, sends it, waits, and saves and records an end of its own. From
      Registering to Leaving it owns its action id. */
  datatype Phase =
    | Asking
    | Checking
    | Registering
    | Ready
    | Waiting
    | Received(observer: nat)
    | Ending(status: ObservationStatus)
    | Recording(status: ObservationStatus)
    | Leaving(result: Result)
    | Finished(result: Result)

  datatype Call = Call(action: Action, phase: Phase, sends: nat)

  /** Where an observation given to Observe is now. */
  datatype Place =
    | Arrived
    | Holding(call: nat)
    | Queued(call: nat)
    | Consumed(call: nat)
    | TurnedAway
    | Noted

  datatype Observer = Observer(observation: Observation, place: Place)

  /** slots[c] is the one-place channel of call c; store is None for a hub without one. */
  datatype World = World(
    calls: seq<Call>,
    slots: seq<Option<nat>>,
    observers: seq<Observer>,
    pending: map<string, nat>,
    completed: map<string, Observation>,
    persists: nat,
    store: Option<Tables>)

  datatype Step =
    | StartCall(action: Action)
    | Ask(call: nat, found: Option<string>)
    | Refuse(call: nat)
    | Reserve(call: nat)
    | Abort(call: nat)
    | Register(call: nat)
    | Send(call: nat)
    | FailSend(call: nat)
    | Receive(call: nat)
    | Complete(call: nat)
    | Expire(call: nat, status: ObservationStatus)
    | SaveEnd(call: nat, ok: bool)
    | Persist(call: nat)
    | Leave(call: nat)
    | Arrive(observation: Observation)
    | Lookup(observer: nat)
    | Push(observer: nat)

  function WithPhase(w: World, c: nat, phase: Phase): World
    requires c < |w.calls|
  {
    w.(calls := w.calls[c := w.calls[c].(phase := phase)])
  }

  function WithPlace(w: World, q: nat, place: Place): World
    requires q < |w.observers|
  {
    w.(observers := w.observers[q := w.observers[q].(place := place)])
  }

  predicate Correlates(o: Observation, action: Action) {
    o.taskID == action.taskID && o.sequence == action.sequence
  }

  predicate AtCall(w: World, c: nat) {
    c < |w.calls| && |w.slots| == |w.calls|
  }

  function Apply(w: World, step: Step): World {
    match step
    case StartCall(action) => Started(w, action)
    case Ask(c, found) => Asked(w, c, found)
    case Refuse(c) =>
      if AtCall(w, c) && (w.calls[c].phase.Asking? || w.calls[c].phase.Checking?) then WithPhase(w, c, Finished(Refused)) else w
    case Reserve(c) => Reserved(w, c)
    case Abort(c) => if AtCall(w, c) && w.calls[c].phase.Registering? then WithPhase(w, c, Leaving(Refused)) else w
    case Register(c) =>
      if AtCall(w, c) && w.calls[c].phase.Registering? then
        WithPhase(w.(store := Entered(w.store, w.calls[c].action)), c, Ready)
      else w
    case Send(c) =>
      if AtCall(w, c) && w.calls[c].phase.Ready? then
        WithPhase(w.(calls := w.calls[c := w.calls[c].(sends := w.calls[c].sends + 1)]), c, Waiting)
      else w
    case FailSend(c) => if AtCall(w, c) && w.calls[c].phase.Ready? then WithPhase(w, c, Leaving(Refused)) else w
    case Receive(c) => Taken(w, c)
    case Complete(c) => Completed(w, c)
    case Expire(c, status) =>
      if AtCall(w, c) && w.calls[c].phase.Waiting? then WithPhase(w, c, Ending(status)) else w
    case SaveEnd(c, ok) =>
      if AtCall(w, c) && w.calls[c].phase.Ending? then
        var o := EndOf(w.calls[c].action, w.calls[c].phase.status);
        WithPhase(w.(store := if ok then Saved(w.store, o) else w.store), c, Recording(w.calls[c].phase.status))
      else w
    case Persist(c) =>
      if AtCall(w, c) && w.calls[c].phase.Recording? then
        var action := w.calls[c].action;
        WithPhase(w.(completed := w.completed[action.idempotencyKey := EndOf(action, w.calls[c].phase.status)],
                     persists := w.persists + 1), c, Leaving(Ended))
      else w
    case Leave(c) =>
      if AtCall(w, c) && w.calls[c].phase.Leaving? then
        WithPhase(w.(pending := w.pending - {w.calls[c].action.actionID}), c, Finished(w.calls[c].phase.result))
      else w
    case Arrive(o) =>
      if w.store.Some? && o.actionID !in w.store.value.actions then w
      else w.(store := Saved(w.store, Safe(o)), observers := w.observers + [Observer(o, Arrived)])
    case Lookup(q) => LookedUp(w, q)
    case Push(q) => Pushed(w, q)
  }

  /** A new call answers from the cache if it can. */
  function Started(w: World, action: Action): World {
    var key := action.idempotencyKey;
    var phase := if key in w.completed then Finished(Cached(w.completed[key])) else Asking;
    w.(calls := w.calls + [Call(action, phase, 0)], slots := w.slots + [None])
  }

  function Entered(store: Option<Tables>, action: Action): Option<Tables> {
    if store.None? then None else Some(WithAction(store.value, action))
  }

  function Saved(store: Option<Tables>, o: Observation): Option<Tables> {
    if store.None? then None else Some(WithObservation(store.value, o))
  }

  /** Something is stored under the key. */
  predicate Held(store: Option<Tables>, key: string) {
    store.Some? && Holds(store.value, key)
  }

  /** The store's answer, if there is a store: some row with the key, or that there is none. */
  function Asked(w: World, c: nat, found: Option<string>): World {
    if !AtCall(w, c) || !w.calls[c].phase.Asking? then w
    else if found.Some? then
      if w.store.Some? && HoldsAt(w.store.value, found.value, w.calls[c].action.idempotencyKey)
      then WithPhase(w, c, Finished(Stored(w.store.value.rows[found.value].observation)))
      else w
    else if Held(w.store, w.calls[c].action.idempotencyKey) then w
    else WithPhase(w, c, Checking)
  }

  function Reserved(w: World, c: nat): World {
    if AtCall(w, c) && w.calls[c].phase.Checking? then
      var id := w.calls[c].action.actionID;
      WithPhase(w.(pending := WithPending(w.pending, id, c)), c,
                if id in w.pending then Finished(AlreadyPending) else Registering)
    else w
  }

  /** The waiting call takes what its channel holds, and checks that it fits. */
  function Taken(w: World, c: nat): World {
    if AtCall(w, c) && w.calls[c].phase.Waiting? && w.slots[c].Some? && w.slots[c].value < |w.observers| then
      var q := w.slots[c].value;
      var fits := Correlates(w.observers[q].observation, w.calls[c].action);
      WithPhase(WithPlace(w.(slots := w.slots[c := None]), q, Consumed(c)), c, if fits then Received(q) else Leaving(Mismatch))
    else w
  }

  function Completed(w: World, c: nat): World {
    if AtCall(w, c) && w.calls[c].phase.Received? && w.calls[c].phase.observer < |w.observers| then
      var q := w.calls[c].phase.observer;
      var kept := Safe(w.observers[q].observation);
      WithPhase(w.(completed := Remember(w.completed, w.calls[c].action.idempotencyKey, kept)), c, Leaving(Live(q)))
    else w
  }

  function LookedUp(w: World, q: nat): World {
    if q < |w.observers| && w.observers[q].place == Arrived then
      var id := w.observers[q].observation.actionID;
      WithPlace(w, q, if id in w.pending then Holding(w.pending[id]) else Noted)
    else w
  }

  /** A send that does not block: the channel takes one observation, a second is turned away. */
  function Pushed(w: World, q: nat): World {
    if q < |w.observers| && w.observers[q].place.Holding? && w.observers[q].place.call < |w.slots| then
      var c := w.observers[q].place.call;
      if w.slots[c].None? then WithPlace(w.(slots := w.slots[c := Some(q)]), q, Queued(c))
      else WithPlace(w, q, TurnedAway)
    else w
  }

  function Run(w: World, steps: seq<Step>): World
    decreases |steps|
  {
    if steps == [] then w else Run(Apply(w, steps[0]), steps[1..])
  }

  /** A process starts with what earlier ones have left in the store. */
  function Start(store: Option<Tables>): World {
    World([], [], [], map[], map[], 0, store)
  }

  // ---- Invariants ------------------------------------------------------------------------

  predicate Owns(call: Call) {
    || call.phase.Registering? || call.phase.Ready? || call.phase.Waiting? || call.phase.Received?
    || call.phase.Ending? || call.phase.Recording? || call.phase.Leaving?
  }

  /** pending holds exactly the action ids of the calls that own one, each its only owner. */
  ghost predicate PendingIsOwners(w: World) {
    && (forall id :: id in w.pending ==>
          w.pending[id] < |w.calls| && Owns(w.calls[w.pending[id]]) && w.calls[w.pending[id]].action.actionID == id)
    && (forall c :: 0 <= c < |w.calls| && Owns(w.calls[c]) ==>
          w.calls[c].action.actionID in w.pending && w.pending[w.calls[c].action.actionID] == c)
  }

  /** An observation sits in exactly the channel its observer put it into. */
  ghost predicate SlotsAreQueues(w: World) {
    && |w.slots| == |w.calls|
    && (forall c :: 0 <= c < |w.slots| && w.slots[c].Some? ==>
          w.slots[c].value < |w.observers| && w.observers[w.slots[c].value].place == Queued(c))
  }

  /** An observation is only ever near a call for its own action. */
  ghost predicate Addressed(w: World) {
    forall q :: 0 <= q < |w.observers| ==>
      match w.observers[q].place
      case Holding(c) => c < |w.calls| && w.observers[q].observation.actionID == w.calls[c].action.actionID
      case Queued(c) => c < |w.calls| && w.observers[q].observation.actionID == w.calls[c].action.actionID
      case Consumed(c) => c < |w.calls| && w.observers[q].observation.actionID == w.calls[c].action.actionID
      case _ => true
  }

  /** The observation a call has received or returned live. */
  function LiveObserver(call: Call): Option<nat> {
    match call.phase
    case Received(q) => Some(q)
    case Leaving(Live(q)) => Some(q)
    case Finished(Live(q)) => Some(q)
    case _ => None
  }

  ghost predicate LiveIsConsumed(w: World) {
    forall c :: 0 <= c < |w.calls| && LiveObserver(w.calls[c]).Some? ==>
      var q := LiveObserver(w.calls[c]).value;
      && q < |w.observers| && w.observers[q].place == Consumed(c)
      && Correlates(w.observers[q].observation, w.calls[c].action)
  }

  /** The call recorded an outcome: a live answer, or its own end. */
  predicate Recorded(call: Call) {
    (call.phase.Leaving? || call.phase.Finished?) && (call.phase.result.Live? || call.phase.result.Ended?)
  }

  /** o is what a call under this key recorded, for its own action and without attachment data. */
  ghost predicate Answers(w: World, key: string, o: Observation) {
    NoData(o) && exists c :: IsCallFor(w, c, key, o)
  }

  predicate IsCallFor(w: World, c: int, key: string, o: Observation) {
    && 0 <= c < |w.calls| && w.calls[c].action.idempotencyKey == key && Recorded(w.calls[c])
    && Correlates(o, w.calls[c].action) && o.actionID == w.calls[c].action.actionID
  }

  /** The call is answered, or about to be answered, from the cache. */
  predicate FromCache(call: Call) {
    (call.phase.Leaving? || call.phase.Finished?) && call.phase.result.Cached?
  }

  ghost predicate CacheAnswers(w: World) {
    && (forall key :: key in w.completed ==> Answers(w, key, w.completed[key]))
    && (forall c :: 0 <= c < |w.calls| && FromCache(w.calls[c]) ==>
          Answers(w, w.calls[c].action.idempotencyKey, w.calls[c].phase.result.observation))
  }

  ghost predicate IsConsistent(store: Option<Tables>) {
    store.Some? ==> Consistent(store.value)
  }

  /** o is the row under this key, but that the row's status may have changed since. */
  predicate IsRow(store: Option<Tables>, key: string, o: Observation) {
    && store.Some? && HoldsAt(store.value, o.actionID, key)
    && o == store.value.rows[o.actionID].observation.(status := o.status)
  }

  ghost predicate StoreAnswers(w: World) {
    && IsConsistent(w.store)
    && (forall c :: 0 <= c < |w.calls| && FromStore(w.calls[c]) ==>
          IsRow(w.store, w.calls[c].action.idempotencyKey, w.calls[c].phase.result.observation))
  }

  predicate FromStore(call: Call) {
    (call.phase.Leaving? || call.phase.Finished?) && call.phase.result.Stored?
  }

  ghost predicate Inv(w: World) {
    PendingIsOwners(w) && SlotsAreQueues(w) && Addressed(w) && LiveIsConsumed(w) && CacheAnswers(w) && StoreAnswers(w)
  }

  // ---- Every step keeps the invariants ---------------------------------------------------

  /** Same calls, same owners, same pending map. */
  ghost predicate SameOwners(w: World, v: World) {
    && v.pending == w.pending && |v.calls| == |w.calls|
    && forall c :: 0 <= c < |w.calls| ==> v.calls[c].action == w.calls[c].action && Owns(v.calls[c]) == Owns(w.calls[c])
  }

  lemma SameOwnersKeep(w: World, v: World)
    requires PendingIsOwners(w) && SameOwners(w, v)
    ensures PendingIsOwners(v)
  {
  }

  lemma ReservePending(w: World, c: nat)
    requires PendingIsOwners(w)
    ensures PendingIsOwners(Reserved(w, c))
  {
  }

  lemma StartPending(w: World, action: Action)
    requires PendingIsOwners(w)
    ensures PendingIsOwners(Started(w, action))
  {
  }

  lemma LeavePending(w: World, c: nat)
    requires PendingIsOwners(w)
    ensures PendingIsOwners(Apply(w, Leave(c)))
  {
  }

  lemma OwningStepsKeepOwners(w: World, step: Step)
    requires step.Refuse? || step.Send? || step.Abort? || step.Complete? || step.Expire? || step.Persist?
    ensures SameOwners(w, Apply(w, step))
  {
  }

  lemma StoringStepsKeepOwners(w: World, step: Step)
    requires step.Ask? || step.Register? || step.FailSend? || step.SaveEnd?
    ensures SameOwners(w, Apply(w, step))
  {
  }

  lemma ObservingStepsKeepOwners(w: World, step: Step)
    requires step.Receive? || step.Arrive? || step.Lookup? || step.Push?
    ensures SameOwners(w, Apply(w, step))
  {
  }

  lemma StepPending(w: World, step: Step)
    requires PendingIsOwners(w)
    ensures PendingIsOwners(Apply(w, step))
  {
    match step
    case StartCall(action) => StartPending(w, action);
    case Reserve(c) => ReservePending(w, c);
    case Leave(c) => LeavePending(w, c);
    case _ =>
      if step.Receive? || step.Arrive? || step.Lookup? || step.Push? {
        ObservingStepsKeepOwners(w, step);
      } else if StoringStep(step) {
        StoringStepsKeepOwners(w, step);
      } else {
        OwningStepsKeepOwners(w, step);
      }
      SameOwnersKeep(w, Apply(w, step));
  }

  lemma StepSlots(w: World, step: Step)
    requires SlotsAreQueues(w)
    ensures SlotsAreQueues(Apply(w, step))
  {
    if CallStep(step) {
      CallStepSlots(w, step);
    } else {
      ChannelStepSlots(w, step);
    }
  }

  lemma CallStepSlots(w: World, step: Step)
    requires SlotsAreQueues(w) && CallStep(step)
    ensures SlotsAreQueues(Apply(w, step))
  {
  }

  lemma ChannelStepSlots(w: World, step: Step)
    requires SlotsAreQueues(w) && !CallStep(step)
    ensures SlotsAreQueues(Apply(w, step))
  {
  }

  /** The call an observation was given to, if any. */
  function Near(place: Place): Option<nat> {
    match place
    case Holding(c) => Some(c)
    case Queued(c) => Some(c)
    case Consumed(c) => Some(c)
    case _ => None
  }

  /** No observation came near another call, and no call's action changed. */
  ghost predicate NoneMoved(w: World, v: World) {
    && |v.calls| >= |w.calls| && (forall c :: 0 <= c < |w.calls| ==> v.calls[c].action == w.calls[c].action)
    && |v.observers| >= |w.observers|
    && (forall q :: 0 <= q < |w.observers| ==>
          && v.observers[q].observation == w.observers[q].observation
          && (Near(v.observers[q].place) == None || Near(v.observers[q].place) == Near(w.observers[q].place)))
    && (forall q :: |w.observers| <= q < |v.observers| ==> Near(v.observers[q].place) == None)
  }

  lemma NoneMovedKeeps(w: World, v: World)
    requires Addressed(w) && NoneMoved(w, v)
    ensures Addressed(v)
  {
  }

  lemma LookupAddressed(w: World, q: nat)
    requires PendingIsOwners(w) && Addressed(w)
    ensures Addressed(LookedUp(w, q))
  {
  }

  /** The steps of a call that leave the observations alone. */
  predicate CallStep(step: Step) {
    || step.Refuse? || step.Reserve? || step.Send? || step.Abort? || step.Complete? || step.Expire? || step.Persist? || step.Leave?
    || StoringStep(step)
  }

  /** Those that talk to the store, and the send that fails. */
  predicate StoringStep(step: Step) {
    step.Ask? || step.Register? || step.FailSend? || step.SaveEnd?
  }

  lemma CallStepsMoveNone(w: World, step: Step)
    requires CallStep(step) && !StoringStep(step)
    ensures NoneMoved(w, Apply(w, step))
  {
  }

  lemma StoringStepsMoveNone(w: World, step: Step)
    requires StoringStep(step)
    ensures NoneMoved(w, Apply(w, step))
  {
  }

  lemma ChannelStepsMoveNone(w: World, step: Step)
    requires SlotsAreQueues(w) && !CallStep(step) && !step.Lookup?
    ensures NoneMoved(w, Apply(w, step))
  {
  }

  lemma StepAddressed(w: World, step: Step)
    requires PendingIsOwners(w) && SlotsAreQueues(w) && Addressed(w)
    ensures Addressed(Apply(w, step))
  {
    if step.Lookup? {
      LookupAddressed(w, step.observer);
    } else {
      if StoringStep(step) {
        StoringStepsMoveNone(w, step);
      } else if CallStep(step) {
        CallStepsMoveNone(w, step);
      } else {
        ChannelStepsMoveNone(w, step);
      }
      NoneMovedKeeps(w, Apply(w, step));
    }
  }

  /** Received observations stay where they are, and no call got another one. */
  ghost predicate SameReceipts(w: World, v: World) {
    && |v.calls| >= |w.calls| && |v.observers| >= |w.observers|
    && (forall c :: 0 <= c < |w.calls| ==> v.calls[c].action == w.calls[c].action)
    && (forall c :: 0 <= c < |w.calls| ==> LiveObserver(v.calls[c]) == LiveObserver(w.calls[c]))
    && (forall c :: |w.calls| <= c < |v.calls| ==> LiveObserver(v.calls[c]) == None)
    && (forall q :: 0 <= q < |w.observers| && w.observers[q].place.Consumed? ==> v.observers[q] == w.observers[q])
  }

  lemma SameReceiptsKeep(w: World, v: World)
    requires LiveIsConsumed(w) && SameReceipts(w, v)
    ensures LiveIsConsumed(v)
  {
  }

  lemma EndingStepsKeepReceipts(w: World, step: Step)
    requires SlotsAreQueues(w)
    requires step.Abort? || step.Expire? || step.Persist?
    ensures SameReceipts(w, Apply(w, step))
  {
  }

  lemma StoringStepsKeepReceipts(w: World, step: Step)
    requires SlotsAreQueues(w)
    requires StoringStep(step)
    ensures SameReceipts(w, Apply(w, step))
  {
  }

  lemma ClosingStepsKeepReceipts(w: World, step: Step)
    requires SlotsAreQueues(w)
    requires step.Leave? || step.Complete?
    ensures SameReceipts(w, Apply(w, step))
  {
  }

  lemma OpeningStepsKeepReceipts(w: World, step: Step)
    requires SlotsAreQueues(w)
    requires step.Reserve? || step.Send? || step.Refuse?
    ensures SameReceipts(w, Apply(w, step))
  {
  }

  lemma ObserverStepsKeepReceipts(w: World, step: Step)
    requires SlotsAreQueues(w)
    requires step.StartCall? || step.Arrive? || step.Lookup? || step.Push?
    ensures SameReceipts(w, Apply(w, step))
  {
  }

  lemma ReceiveLive(w: World, c: nat)
    requires SlotsAreQueues(w) && LiveIsConsumed(w)
    ensures LiveIsConsumed(Taken(w, c))
  {
  }

  lemma StepLive(w: World, step: Step)
    requires SlotsAreQueues(w) && LiveIsConsumed(w)
    ensures LiveIsConsumed(Apply(w, step))
  {
    if step.Receive? {
      ReceiveLive(w, step.call);
    } else {
      if step.StartCall? || step.Arrive? || step.Lookup? || step.Push? {
        ObserverStepsKeepReceipts(w, step);
      } else if step.Reserve? || step.Send? || step.Refuse? {
        OpeningStepsKeepReceipts(w, step);
      } else if step.Leave? || step.Complete? {
        ClosingStepsKeepReceipts(w, step);
      } else if StoringStep(step) {
        StoringStepsKeepReceipts(w, step);
      } else {
        EndingStepsKeepReceipts(w, step);
      }
      SameReceiptsKeep(w, Apply(w, step));
    }
  }

  /** Calls are never lost and never change their action. */
  ghost predicate CallsStay(w: World, v: World) {
    |w.calls| <= |v.calls| && forall c :: 0 <= c < |w.calls| ==> v.calls[c].action == w.calls[c].action
  }

  /** What a call recorded stays recorded. */
  ghost predicate RecordsStay(w: World, v: World) {
    |w.calls| <= |v.calls| && forall c :: 0 <= c < |w.calls| && Recorded(w.calls[c]) ==> Recorded(v.calls[c])
  }

  lemma StepRecords(w: World, step: Step)
    ensures RecordsStay(w, Apply(w, step))
  {
    if StoringStep(step) {
      StoringStepsRecord(w, step);
    } else {
      OtherStepsRecord(w, step);
    }
  }

  lemma StoringStepsRecord(w: World, step: Step)
    requires StoringStep(step)
    ensures RecordsStay(w, Apply(w, step))
  {
  }

  lemma OtherStepsRecord(w: World, step: Step)
    requires !StoringStep(step)
    ensures RecordsStay(w, Apply(w, step))
  {
  }

  lemma AnswersStay(w: World, v: World, key: string, o: Observation)
    requires Answers(w, key, o) && CallsStay(w, v) && RecordsStay(w, v)
    ensures Answers(v, key, o)
  {
    var c :| IsCallFor(w, c, key, o);
    assert IsCallFor(v, c, key, o);
  }

  /** Everything the cache and the calls answered from it hold was there before. */
  ghost predicate SameCache(w: World, v: World) {
    && CallsStay(w, v)
    && (forall key :: key in v.completed ==> key in w.completed && v.completed[key] == w.completed[key])
    && (forall c :: 0 <= c < |v.calls| && FromCache(v.calls[c]) ==>
          if c < |w.calls| then FromCache(w.calls[c]) && v.calls[c].phase.result == w.calls[c].phase.result
          else v.calls[c].action.idempotencyKey in w.completed
               && v.calls[c].phase.result.observation == w.completed[v.calls[c].action.idempotencyKey])
  }

  lemma SameCacheKeeps(w: World, v: World)
    requires CacheAnswers(w) && SameCache(w, v) && RecordsStay(w, v)
    ensures CacheAnswers(v)
  {
    forall key | key in v.completed ensures Answers(v, key, v.completed[key]) {
      AnswersStay(w, v, key, v.completed[key]);
    }
    forall c | 0 <= c < |v.calls| && FromCache(v.calls[c])
      ensures Answers(v, v.calls[c].action.idempotencyKey, v.calls[c].phase.result.observation)
    {
      AnswersStay(w, v, v.calls[c].action.idempotencyKey, v.calls[c].phase.result.observation);
    }
  }

  lemma OpeningStepsKeepCache(w: World, step: Step)
    requires step.Refuse? || step.Reserve? || step.Send?
    ensures SameCache(w, Apply(w, step))
  {
  }

  lemma ClosingStepsKeepCache(w: World, step: Step)
    requires step.Abort? || step.Expire? || step.Leave?
    ensures SameCache(w, Apply(w, step))
  {
  }

  lemma StoringStepsKeepCache(w: World, step: Step)
    requires StoringStep(step)
    ensures SameCache(w, Apply(w, step))
  {
    if step.Ask? {
      AskKeepsCache(w, step);
    } else {
      WritingStepsKeepCache(w, step);
    }
  }

  lemma AskKeepsCache(w: World, step: Step)
    requires step.Ask?
    ensures SameCache(w, Apply(w, step))
  {
  }

  lemma WritingStepsKeepCache(w: World, step: Step)
    requires step.Register? || step.FailSend? || step.SaveEnd?
    ensures SameCache(w, Apply(w, step))
  {
  }

  lemma ChannelStepsKeepCache(w: World, step: Step)
    requires !CallStep(step)
    ensures SameCache(w, Apply(w, step))
  {
  }

  /** One more cached answer, and no call answered from the cache at this step. */
  lemma AddedAnswer(w: World, v: World, key: string, o: Observation)
    requires CacheAnswers(w) && CallsStay(w, v) && RecordsStay(w, v) && |v.calls| == |w.calls| && Answers(v, key, o)
    requires forall k :: k in v.completed ==>
               if k == key then v.completed[k] == o else k in w.completed && v.completed[k] == w.completed[k]
    requires forall c :: 0 <= c < |v.calls| && FromCache(v.calls[c]) ==> v.calls[c] == w.calls[c]
    ensures CacheAnswers(v)
  {
    forall k | k in v.completed ensures Answers(v, k, v.completed[k]) {
      if k != key {
        AnswersStay(w, v, k, v.completed[k]);
      }
    }
    forall c | 0 <= c < |v.calls| && FromCache(v.calls[c])
      ensures Answers(v, v.calls[c].action.idempotencyKey, v.calls[c].phase.result.observation)
    {
      AnswersStay(w, v, v.calls[c].action.idempotencyKey, v.calls[c].phase.result.observation);
    }
  }

  lemma CompleteCache(w: World, c: nat)
    requires SlotsAreQueues(w) && Addressed(w) && LiveIsConsumed(w) && CacheAnswers(w)
    ensures CacheAnswers(Completed(w, c))
  {
    if AtCall(w, c) && w.calls[c].phase.Received? && w.calls[c].phase.observer < |w.observers| {
      var q := w.calls[c].phase.observer;
      var action := w.calls[c].action;
      assert LiveObserver(w.calls[c]) == Some(q);
      StepRecords(w, Complete(c));
      assert IsCallFor(Completed(w, c), c, action.idempotencyKey, Safe(w.observers[q].observation));
      AddedAnswer(w, Completed(w, c), action.idempotencyKey, Safe(w.observers[q].observation));
    }
  }

  lemma PersistCache(w: World, c: nat)
    requires SlotsAreQueues(w) && CacheAnswers(w)
    ensures CacheAnswers(Apply(w, Persist(c)))
  {
    if AtCall(w, c) && w.calls[c].phase.Recording? {
      var action := w.calls[c].action;
      var o := EndOf(action, w.calls[c].phase.status);
      StepRecords(w, Persist(c));
      assert IsCallFor(Apply(w, Persist(c)), c, action.idempotencyKey, o);
      AddedAnswer(w, Apply(w, Persist(c)), action.idempotencyKey, o);
    }
  }

  lemma StepCache(w: World, step: Step)
    requires SlotsAreQueues(w) && Addressed(w) && LiveIsConsumed(w) && CacheAnswers(w)
    ensures CacheAnswers(Apply(w, step))
  {
    match step
    case Complete(c) => CompleteCache(w, c);
    case Persist(c) => PersistCache(w, c);
    case _ =>
      if !CallStep(step) {
        ChannelStepsKeepCache(w, step);
      } else if StoringStep(step) {
        StoringStepsKeepCache(w, step);
      } else if step.Refuse? || step.Reserve? || step.Send? {
        OpeningStepsKeepCache(w, step);
      } else {
        ClosingStepsKeepCache(w, step);
      }
      StepRecords(w, step);
      SameCacheKeeps(w, Apply(w, step));
  }

  // What the store answered stays what it says.

  /** Rows keep all but their status. */
  ghost predicate SameRows(store: Option<Tables>, next: Option<Tables>) {
    (store.Some? ==> next.Some?) && forall key, o :: IsRow(store, key, o) ==> IsRow(next, key, o)
  }

  /** And calls answered from the store were so before. */
  ghost predicate RowsStay(w: World, v: World) {
    && SameRows(w.store, v.store)
    && |w.calls| <= |v.calls|
    && (forall c :: 0 <= c < |v.calls| && FromStore(v.calls[c]) ==>
          && c < |w.calls| && v.calls[c].action == w.calls[c].action
          && FromStore(w.calls[c]) && v.calls[c].phase.result == w.calls[c].phase.result)
  }

  lemma RowsStayKeeps(w: World, v: World)
    requires StoreAnswers(w) && RowsStay(w, v) && IsConsistent(v.store)
    ensures StoreAnswers(v)
  {
  }

  lemma SavedKeepsRows(store: Option<Tables>, o: Observation)
    requires IsConsistent(store)
    ensures IsConsistent(Saved(store, o)) && SameRows(store, Saved(store, o))
  {
    if store.Some? {
      ObservationConsistent(store.value, o);
    }
  }

  lemma RegisterKeepsRows(w: World, c: nat)
    requires IsConsistent(w.store)
    ensures IsConsistent(Apply(w, Register(c)).store) && RowsStay(w, Apply(w, Register(c)))
  {
    if w.store.Some? && AtCall(w, c) {
      ActionConsistent(w.store.value, w.calls[c].action);
    }
  }

  lemma SaveEndKeepsRows(w: World, c: nat, ok: bool)
    requires IsConsistent(w.store)
    ensures IsConsistent(Apply(w, SaveEnd(c, ok)).store) && RowsStay(w, Apply(w, SaveEnd(c, ok)))
  {
    if AtCall(w, c) && w.calls[c].phase.Ending? {
      SavedKeepsRows(w.store, EndOf(w.calls[c].action, w.calls[c].phase.status));
    }
    SaveEndAnswersNone(w, c, ok);
  }

  /** No call is answered from the store by saving an end. */
  lemma SaveEndAnswersNone(w: World, c: nat, ok: bool)
    ensures var v := Apply(w, SaveEnd(c, ok));
            && |v.calls| == |w.calls|
            && forall d :: 0 <= d < |v.calls| && FromStore(v.calls[d]) ==> v.calls[d] == w.calls[d]
  {
  }

  lemma ArriveKeepsRows(w: World, o: Observation)
    requires IsConsistent(w.store)
    ensures IsConsistent(Apply(w, Arrive(o)).store) && RowsStay(w, Apply(w, Arrive(o)))
  {
    SavedKeepsRows(w.store, Safe(o));
  }

  lemma CallStepsKeepStore(w: World, step: Step)
    requires CallStep(step) && !step.Ask? && !step.Register? && !step.SaveEnd?
    ensures Apply(w, step).store == w.store && RowsStay(w, Apply(w, step))
  {
  }

  lemma ChannelStepsKeepStore(w: World, step: Step)
    requires !CallStep(step) && !step.Arrive?
    ensures Apply(w, step).store == w.store && RowsStay(w, Apply(w, step))
  {
  }

  lemma AskAnswers(w: World, c: nat, found: Option<string>)
    requires StoreAnswers(w)
    ensures StoreAnswers(Asked(w, c, found))
  {
  }

  lemma StepRows(w: World, step: Step)
    requires IsConsistent(w.store) && !step.Ask?
    ensures IsConsistent(Apply(w, step).store) && RowsStay(w, Apply(w, step))
  {
    match step
    case Register(c) => RegisterKeepsRows(w, c);
    case SaveEnd(c, ok) => SaveEndKeepsRows(w, c, ok);
    case Arrive(o) => ArriveKeepsRows(w, o);
    case _ =>
      if CallStep(step) {
        CallStepsKeepStore(w, step);
      } else {
        ChannelStepsKeepStore(w, step);
      }
  }

  lemma StepStore(w: World, step: Step)
    requires StoreAnswers(w)
    ensures StoreAnswers(Apply(w, step))
  {
    if step.Ask? {
      AskAnswers(w, step.call, step.found);
    } else {
      StepRows(w, step);
      RowsStayKeeps(w, Apply(w, step));
    }
  }

  lemma StepInv(w: World, step: Step)
    requires Inv(w)
    ensures Inv(Apply(w, step))
  {
    StepPending(w, step);
    StepSlots(w, step);
    StepAddressed(w, step);
    StepLive(w, step);
    StepCache(w, step);
    StepStore(w, step);
  }

  lemma {:induction false} RunInv(w: World, steps: seq<Step>)
    requires Inv(w)
    ensures Inv(Run(w, steps))
    decreases |steps|
  {
    if steps != [] {
      StepInv(w, steps[0]);
      RunInv(Apply(w, steps[0]), steps[1..]);
    }
  }

  // ---- What holds in every interleaving ------------------------------------------------------

  lemma Reachable(store: Option<Tables>, steps: seq<Step>)
    requires IsConsistent(store)
    ensures Inv(Run(Start(store), steps))
  {
    RunInv(Start(store), steps);
  }

  /** At most one call in flight per action id, and pending holds exactly those ids. */
  lemma OneOwnerPerAction(store: Option<Tables>, steps: seq<Step>)
    requires IsConsistent(store)
    ensures var w := Run(Start(store), steps);
            && (forall c, d :: 0 <= c < d < |w.calls| && Owns(w.calls[c]) && Owns(w.calls[d]) ==>
                  w.calls[c].action.actionID != w.calls[d].action.actionID)
            && (forall id :: id in w.pending <==>
                  exists c :: 0 <= c < |w.calls| && Owns(w.calls[c]) && w.calls[c].action.actionID == id)
  {
    Reachable(store, steps);
    var w := Run(Start(store), steps);
    forall c, d | 0 <= c < d < |w.calls| && Owns(w.calls[c]) && Owns(w.calls[d])
      ensures w.calls[c].action.actionID != w.calls[d].action.actionID
    {
      assert w.pending[w.calls[c].action.actionID] == c && w.pending[w.calls[d].action.actionID] == d;
    }
  }

  /** A live answer is for the call's own action, task and sequence, and no two calls get the same one. */
  lemma LiveAnswersCorrelate(store: Option<Tables>, steps: seq<Step>, c: nat, q: nat)
    requires IsConsistent(store)
    requires var w := Run(Start(store), steps);
             c < |w.calls| && w.calls[c].phase == Finished(Live(q))
    ensures var w := Run(Start(store), steps);
            && q < |w.observers|
            && w.observers[q].observation.actionID == w.calls[c].action.actionID
            && w.observers[q].observation.taskID == w.calls[c].action.taskID
            && w.observers[q].observation.sequence == w.calls[c].action.sequence
            && forall d :: 0 <= d < |w.calls| && LiveObserver(w.calls[d]) == Some(q) ==> d == c
  {
    Reachable(store, steps);
    var w := Run(Start(store), steps);
    assert LiveObserver(w.calls[c]) == Some(q);
  }

  /** A key as the control loop makes it: the sequence is not part of it. */
  predicate StampedKey(action: Action) {
    action.idempotencyKey == action.taskID + ":" + action.actionID
  }

  /** And the task's id holds no colon. */
  predicate StampedApart(action: Action) {
    StampedKey(action) && ':' !in action.taskID
  }

  /** A colon in a task id lets two actions of different tasks have one key. */
  lemma KeysMayCollide(a: Action, b: Action, t: string, x: string, y: string)
    requires StampedKey(a) && a.taskID == t + ":" + x && a.actionID == y
    requires StampedKey(b) && b.taskID == t && b.actionID == x + ":" + y
    ensures a.idempotencyKey == b.idempotencyKey && a.taskID != b.taskID
  {
    assert (t + ":" + x) + ":" + y == t + ":" + (x + ":" + y);
    assert |a.taskID| > |b.taskID|;
  }

  /** An answer from the cache was recorded by another call, for that call's own action. If
      keys are made of task and action id, and task ids hold no colon, it is for the same
      task and action; it has the sequence of this call exactly if the recording call had. */
  lemma CachedAnswersCorrelate(store: Option<Tables>, steps: seq<Step>, c: nat)
    requires IsConsistent(store)
    requires var w := Run(Start(store), steps);
             && c < |w.calls| && FromCache(w.calls[c])
             && forall d :: 0 <= d < |w.calls| && w.calls[d].action.idempotencyKey == w.calls[c].action.idempotencyKey ==>
                  StampedApart(w.calls[d].action)
    ensures var w := Run(Start(store), steps);
            var o := w.calls[c].phase.result.observation;
            && NoData(o) && o.actionID == w.calls[c].action.actionID && o.taskID == w.calls[c].action.taskID
            && exists d :: d != c && IsCallFor(w, d, w.calls[c].action.idempotencyKey, o)
                           && (Correlates(o, w.calls[c].action) <==> w.calls[d].action.sequence == w.calls[c].action.sequence)
  {
    Reachable(store, steps);
    var w := Run(Start(store), steps);
    var d :| IsCallFor(w, d, w.calls[c].action.idempotencyKey, w.calls[c].phase.result.observation);
    SeparatedOnce(w.calls[d].action.taskID, w.calls[d].action.actionID,
                  w.calls[c].action.taskID, w.calls[c].action.actionID, ':');
  }

  /** An answer from the store is, but for its status, the first observation that was saved
      of the action registered under the key; so it fits the call's task and sequence
      exactly if that one did. With stamped keys it is of the call's own action, if task ids
      hold no colon; but the task it names is the device's. */
  lemma StoredAnswersFit(store: Option<Tables>, steps: seq<Step>, c: nat)
    requires IsConsistent(store)
    requires var w := Run(Start(store), steps); c < |w.calls| && FromStore(w.calls[c])
    ensures var w := Run(Start(store), steps);
            var (o, action) := (w.calls[c].phase.result.observation, w.calls[c].action);
            && w.store.Some? && o.actionID in w.store.value.actions && First(w.store.value.saves, o.actionID).Some?
            && var first := First(w.store.value.saves, o.actionID).value;
               var registered := w.store.value.actions[o.actionID];
            && o == first.(status := o.status, attachments := [])
            && (Correlates(o, action) <==> Correlates(first, action))
            && registered.actionID == o.actionID && registered.idempotencyKey == action.idempotencyKey
            && (StampedApart(registered) && StampedApart(action) ==>
                  registered.taskID == action.taskID && o.actionID == action.actionID)
  {
    Reachable(store, steps);
    var w := Run(Start(store), steps);
    var (o, action) := (w.calls[c].phase.result.observation, w.calls[c].action);
    var registered := w.store.value.actions[o.actionID];
    if StampedApart(registered) && StampedApart(action) {
      SeparatedOnce(registered.taskID, registered.actionID, action.taskID, action.actionID, ':');
    }
  }

  // ---- The size of the cache --------------------------------------------------------------------

  lemma OtherStepsRecordNothing(w: World, step: Step)
    requires !step.Complete? && !step.Persist?
    ensures Apply(w, step).completed == w.completed && Apply(w, step).persists == w.persists
  {
  }

  lemma CompleteSize(w: World, c: nat)
    ensures var v := Apply(w, Complete(c));
            && v.persists == w.persists && (v == w || |v.completed| <= COMPLETED_LIMIT)
  {
    if AtCall(w, c) && w.calls[c].phase.Received? && w.calls[c].phase.observer < |w.observers| {
      GrowsByOne(w.completed, w.calls[c].action.idempotencyKey, Safe(w.observers[w.calls[c].phase.observer].observation));
    }
  }

  lemma PersistSize(w: World, c: nat)
    ensures var v := Apply(w, Persist(c));
            if AtCall(w, c) && w.calls[c].phase.Recording?
            then v.persists == w.persists + 1
                 && |v.completed| == |w.completed| + if w.calls[c].action.idempotencyKey in w.completed then 0 else 1
            else v == w
  {
    if AtCall(w, c) && w.calls[c].phase.Recording? {
      GrowsByOne(w.completed, w.calls[c].action.idempotencyKey, EndOf(w.calls[c].action, w.calls[c].phase.status));
    }
  }

  lemma StepBound(w: World, step: Step)
    requires |w.completed| <= COMPLETED_LIMIT + w.persists
    ensures |Apply(w, step).completed| <= COMPLETED_LIMIT + Apply(w, step).persists
  {
    match step
    case Complete(c) => CompleteSize(w, c);
    case Persist(c) => PersistSize(w, c);
    case _ => OtherStepsRecordNothing(w, step);
  }

  /** The cache outgrows its limit by at most the calls that timed out or were cancelled. */
  lemma {:induction false} CacheBound(w: World, steps: seq<Step>)
    requires |w.completed| <= COMPLETED_LIMIT + w.persists
    ensures |Run(w, steps).completed| <= COMPLETED_LIMIT + Run(w, steps).persists
    decreases |steps|
  {
    if steps != [] {
      StepBound(w, steps[0]);
      CacheBound(Apply(w, steps[0]), steps[1..]);
    }
  }

  /** One step takes the cache over its limit exactly if it records the end of a call under
      a new key while the cache is full: there the size is not looked at. */
  lemma ExceedsIff(w: World, step: Step)
    requires |w.completed| <= COMPLETED_LIMIT
    ensures |Apply(w, step).completed| > COMPLETED_LIMIT
            <==> step.Persist? && AtCall(w, step.call) && w.calls[step.call].phase.Recording?
                 && |w.completed| == COMPLETED_LIMIT && w.calls[step.call].action.idempotencyKey !in w.completed
  {
    match step
    case Complete(c) => CompleteSize(w, c);
    case Persist(c) => PersistSize(w, c);
    case _ => OtherStepsRecordNothing(w, step);
  }
}
