// The loop that alternates model runs and device actions until the task is done,
// waits for the user, or has used its eight runs.
module ControlLoop {
  import opened Common
  import opened Protocol
  import Hub

  const MAX_ITERATIONS := 8
  const MAX_HISTORY := 8

  /** An event of a gateway run; a client.action result carries an action, or one that does not parse. */
  datatype InEvent =
    | NilEvent
    | ClientAction(action: Action)
    | BadAction
    | Done(reason: string)
    | Plain(text: string)

  datatype OutEvent =
    | Forwarded(event: InEvent)
    | ActionEvent(action: Action)
    | ProgressEvent(progress: Progress)
    | ObservationEvent(observation: Observation)

  /** What the gateway does in one run: the events it emits in order, and whether it fails afterwards. */
  datatype GatewayRun = GatewayRun(events: seq<InEvent>, fails: bool)

  // ---- One run -------------------------------------------------------------------------------

  function Stamped(action: Action, taskID: string, sequence: int): Action {
    action.(taskID := taskID, sequence := sequence, idempotencyKey := taskID + ":" + action.actionID)
  }

  predicate HasAction(events: seq<InEvent>) {
    exists k :: 0 <= k < |events| && events[k].ClientAction?
  }

  /** What becomes of an event that follows others: an action is stamped, and a Done
      after an action is dropped, because the task goes on. */
  function Image(earlier: seq<InEvent>, event: InEvent, taskID: string, sequence: int): seq<OutEvent> {
    if event.ClientAction? then [ActionEvent(Stamped(event.action, taskID, sequence))]
    else if event.Done? && HasAction(earlier) then []
    else [Forwarded(event)]
  }

  function Mapped(events: seq<InEvent>, taskID: string, sequence: int): seq<OutEvent> {
    if events == [] then []
    else
      var n := |events| - 1;
      Mapped(events[..n], taskID, sequence) + Image(events[..n], events[n], taskID, sequence)
  }

  /** The last action of the events, stamped. */
  function LastAction(events: seq<InEvent>, taskID: string, sequence: int): (r: Option<Action>)
    ensures r.Some? <==> HasAction(events)
    ensures r.Some? ==> r.value.taskID == taskID && r.value.sequence == sequence
                        && r.value.idempotencyKey == taskID + ":" + r.value.actionID
  {
    if events == [] then None
    else
      var n := |events| - 1;
      assert events == events[..n] + [events[n]];
      if events[n].ClientAction? then Some(Stamped(events[n].action, taskID, sequence))
      else
        assert HasAction(events) ==> HasAction(events[..n]);
        LastAction(events[..n], taskID, sequence)
  }

  /** Where the first action stands that does not parse. */
  function FirstBad(events: seq<InEvent>): (r: nat)
    ensures r <= |events| && (r < |events| ==> events[r].BadAction?)
    ensures forall k :: 0 <= k < r ==> !events[k].BadAction?
  {
    if events == [] || events[0].BadAction? then 0 else 1 + FirstBad(events[1..])
  }

  /** What a run gets to emit: it is cut off at an action that does not parse. */
  function Parsed(events: seq<InEvent>): seq<InEvent> {
    events[..FirstBad(events)]
  }

  /** The run fails by itself or emits an action that does not parse. */
  predicate Breaks(run: GatewayRun) {
    run.fails || BadAction in run.events
  }

  lemma {:induction false} MappedGrows(events: seq<InEvent>, n: nat, m: nat, taskID: string, sequence: int)
    requires n <= m <= |events|
    ensures Mapped(events[..n], taskID, sequence) <= Mapped(events[..m], taskID, sequence)
    decreases m - n
  {
    if n < m {
      MappedGrows(events, n, m - 1, taskID, sequence);
      assert events[..m][..m - 1] == events[..m - 1];
    }
  }

  /** The client has been shown all of ideal after what it had before, or a prefix of it
      because it takes nothing more. */
  predicate Shows(sent: seq<OutEvent>, room: Option<nat>, before: seq<OutEvent>, ideal: seq<OutEvent>) {
    before <= sent <= before + ideal && (sent == before + ideal || room == Some(0))
  }

  lemma ShowsLonger(sent: seq<OutEvent>, room: Option<nat>, before: seq<OutEvent>, ideal: seq<OutEvent>, longer: seq<OutEvent>)
    requires Shows(sent, room, before, ideal) && room == Some(0) && ideal <= longer
    ensures Shows(sent, room, before, longer)
  {
    assert before + longer == (before + ideal) + longer[|ideal|..];
  }

  class Sink {
    var sent: seq<OutEvent>
    /** How many more events are taken before emitting fails; None if it never does. */
    var room: Option<nat>

    ghost predicate Shown(before: seq<OutEvent>, ideal: seq<OutEvent>)
      reads this
    {
      Shows(sent, room, before, ideal)
    }

    constructor (room: Option<nat>)
      ensures sent == [] && this.room == room
    {
      this.sent, this.room := [], room;
    }

    method Emit(event: OutEvent, ghost before: seq<OutEvent>, ghost ideal: seq<OutEvent>) returns (ok: bool)
      requires Shown(before, ideal)
      modifies this
      ensures ok <==> old(room) != Some(0)
      ensures sent == if ok then old(sent) + [event] else old(sent)
      ensures Shown(before, ideal + [event])
      ensures old(room).None? ==> room.None?
      ensures old(room) == Some(0) ==> room == Some(0)
    {
      ConcatAssociative(before, ideal, [event]);
      if room == Some(0) {
        ShowsLonger(sent, room, before, ideal, ideal + [event]);
        return false;
      }
      if room.Some? {
        room := Some(room.value - 1);
      }
      sent := sent + [event];
      ok := true;
    }
  }

  /** The wrapped callback, for an event that parses. */
  method Forward(event: InEvent, ghost earlier: seq<InEvent>, pending: Option<Action>, taskID: string, sequence: int,
                 sink: Sink, ghost before: seq<OutEvent>, ghost ideal: seq<OutEvent>)
    returns (ok: bool, latest: Option<Action>)
    requires !event.BadAction? && pending == LastAction(earlier, taskID, sequence) && sink.Shown(before, ideal)
    modifies sink
    ensures latest == LastAction(earlier + [event], taskID, sequence)
    ensures sink.Shown(before, ideal + Image(earlier, event, taskID, sequence))
    ensures ok ==> sink.sent == old(sink.sent) + Image(earlier, event, taskID, sequence)
    ensures !ok ==> sink.room == Some(0)
    ensures old(sink.room).None? ==> sink.room.None?
  {
    assert (earlier + [event])[..|earlier|] == earlier;
    latest := pending;
    if event.ClientAction? {
      var action := Stamped(event.action, taskID, sequence);
      latest := Some(action);
      ok := sink.Emit(ActionEvent(action), before, ideal);
    } else if pending != None && event.Done? {
      assert ideal + [] == ideal;
      ok := true;
    } else {
      ok := sink.Emit(Forwarded(event), before, ideal);
    }
  }

  /** The callback for the i-th event of a run: the client is shown it after the others, or takes nothing more. */
  method ForwardNext(events: seq<InEvent>, i: nat, pending: Option<Action>, taskID: string, sequence: int,
                     sink: Sink, ghost start: seq<OutEvent>, ghost before: seq<OutEvent>, ghost ideal: seq<OutEvent>)
    returns (ok: bool, latest: Option<Action>)
    requires i < FirstBad(events) && pending == LastAction(events[..i], taskID, sequence)
    requires sink.Shown(before, ideal + Mapped(events[..i], taskID, sequence))
    requires sink.sent == start + Mapped(events[..i], taskID, sequence)
    modifies sink
    ensures latest == LastAction(events[..i + 1], taskID, sequence)
    ensures ok ==> sink.Shown(before, ideal + Mapped(events[..i + 1], taskID, sequence))
    ensures ok ==> sink.sent == start + Mapped(events[..i + 1], taskID, sequence)
    ensures !ok ==> sink.room == Some(0) && sink.Shown(before, ideal + Mapped(Parsed(events), taskID, sequence))
    ensures old(sink.room).None? ==> sink.room.None?
  {
    ghost var earlier := events[..i];
    MappedSnoc(events, i, ideal, taskID, sequence);
    ConcatAssociative(start, Mapped(earlier, taskID, sequence), Image(earlier, events[i], taskID, sequence));
    ok, latest := Forward(events[i], earlier, pending, taskID, sequence, sink, before, ideal + Mapped(earlier, taskID, sequence));
    if !ok {
      MappedGrows(events, i + 1, FirstBad(events), taskID, sequence);
      ShowsLonger(sink.sent, sink.room, before, ideal + Mapped(events[..i + 1], taskID, sequence),
                  ideal + Mapped(Parsed(events), taskID, sequence));
    }
  }

  /** The run emits into the wrapped callback until that returns an error. The client is
      shown its events, mapped, up to an action that does not parse. */
  method RunControlStep(run: GatewayRun, taskID: string, sequence: int, sink: Sink,
                        ghost before: seq<OutEvent>, ghost ideal: seq<OutEvent>)
    returns (ok: bool, pending: Option<Action>)
    requires sink.Shown(before, ideal)
    modifies sink
    ensures sink.Shown(before, ideal + Mapped(Parsed(run.events), taskID, sequence))
    ensures ok ==> sink.sent == old(sink.sent) + Mapped(run.events, taskID, sequence)
    ensures ok ==> pending == LastAction(run.events, taskID, sequence) && !Breaks(run)
    ensures !ok ==> Breaks(run) || sink.room == Some(0)
    ensures old(sink.room).None? ==> sink.room.None?
  {
    pending := None;
    var events := run.events;
    ghost var n := FirstBad(events);
    assert events[..0] == [];
    assert ideal + [] == ideal;
    for i := 0 to |events|
      invariant i <= n
      invariant pending == LastAction(events[..i], taskID, sequence)
      invariant sink.Shown(before, ideal + Mapped(events[..i], taskID, sequence))
      invariant sink.sent == old(sink.sent) + Mapped(events[..i], taskID, sequence)
      invariant old(sink.room).None? ==> sink.room.None?
    {
      if events[i].BadAction? {
        return false, None;
      }
      var sent;
      sent, pending := ForwardNext(events, i, pending, taskID, sequence, sink, old(sink.sent), before, ideal);
      if !sent {
        return false, None;
      }
    }
    assert events[..|events|] == events;
    if run.fails {
      return false, None;
    }
    ok := true;
  }

  lemma MappedSnoc(events: seq<InEvent>, i: nat, ideal: seq<OutEvent>, taskID: string, sequence: int)
    requires i < |events|
    ensures events[..i + 1] == events[..i] + [events[i]]
    ensures Mapped(events[..i + 1], taskID, sequence)
              == Mapped(events[..i], taskID, sequence) + Image(events[..i], events[i], taskID, sequence)
    ensures ideal + Mapped(events[..i + 1], taskID, sequence)
              == ideal + Mapped(events[..i], taskID, sequence) + Image(events[..i], events[i], taskID, sequence)
  {
    assert events[..i + 1][..i] == events[..i];
  }

  // ---- The context handed to the next run ----------------------------------------------------

  function LastEight<T>(s: seq<T>): seq<T> {
    if |s| > MAX_HISTORY then s[|s| - MAX_HISTORY..] else s
  }

  predicate StartsWith(s: string, prefix: string) {
    |prefix| <= |s| && s[..|prefix|] == prefix
  }

  class Values {
    var originalTask: Option<string>
    var latestAction: Option<Action>
    var latestObservation: Option<Observation>
    var history: seq<Observation>
    var deviceSession: string
    var browserSession: string
    var desktopSession: string

    constructor (history: seq<Observation>)
      ensures this.history == history
    {
      originalTask, latestAction, latestObservation := None, None, None;
      this.history := history;
      deviceSession, browserSession, desktopSession := "", "", "";
    }

    method AppendObservationHistory(latest: Observation)
      modifies this`history
      ensures history == LastEight(old(history) + [latest])
      ensures |history| == Min(8, |old(history)| + 1)
      ensures history == (old(history) + [latest])[|old(history)| + 1 - |history|..]
    {
      var all := history + [latest];
      if |all| > MAX_HISTORY {
        all := all[|all| - MAX_HISTORY..];
      }
      history := all;
    }

    method ApplyDeviceObservation(task: string, action: Action, observation: Observation)
      modifies this
      ensures originalTask == Some(task) && latestAction == Some(action) && latestObservation == Some(Safe(observation))
      ensures history == LastEight(old(history) + [Safe(observation)])
      ensures deviceSession == if observation.sessionID != "" then observation.sessionID else old(deviceSession)
      ensures browserSession == if StartsWith(observation.sessionID, "athena-") then observation.sessionID else old(browserSession)
      ensures desktopSession == if StartsWith(observation.sessionID, "desktop-") then observation.sessionID else old(desktopSession)
    {
      originalTask, latestAction := Some(task), Some(action);
      var latest := WithoutAttachmentData(observation);
      latestObservation := Some(latest);
      AppendObservationHistory(latest);
      if observation.sessionID != "" {
        deviceSession := observation.sessionID;
      }
      if StartsWith(observation.sessionID, "athena-") {
        browserSession := observation.sessionID;
      }
      if StartsWith(observation.sessionID, "desktop-") {
        desktopSession := observation.sessionID;
      }
    }
  }

  /** Keeping the last eight at every step keeps the last eight of everything. */
  lemma LastEightAgain<T>(s: seq<T>, x: T)
    ensures LastEight(LastEight(s) + [x]) == LastEight(s + [x])
  {
  }

  // ---- The device's part -----------------------------------------------------------------------

  /** How resolving a device and dispatching the action ended: the task could not be
      begun, the device answered, or there was a failure the model is told about; and what
      was reported as progress until then. */
  datatype Reply =
    | Refused
    | Answered(reports: seq<Progress>, observation: Observation)
    | Unanswered(reports: seq<Progress>)

  function FailedObservation(action: Action): Observation {
    EndOf(action, ReportsFailure)
  }

  /** The observation the loop goes on with, if it can be shown to the user. */
  function ObservationOf(reply: Reply, action: Action): Option<Observation> {
    match reply
    case Refused => None
    case Answered(_, o) => Some(o)
    case Unanswered(_) => Some(FailedObservation(action))
  }

  /** The reports for the action's task and sequence; the hub turns others away. */
  function ProgressOutput(reports: seq<Progress>, action: Action): seq<OutEvent> {
    if reports == [] then []
    else
      var n := |reports| - 1;
      ProgressOutput(reports[..n], action)
      + if reports[n].taskID == action.taskID && reports[n].sequence == action.sequence then [ProgressEvent(reports[n])] else []
  }

  /** What there is to show of a dispatch: progress as it comes, then the observation. */
  function DeviceOutput(reply: Reply, action: Action): seq<OutEvent> {
    if reply.Refused? then []
    else ProgressOutput(reply.reports, action) + [ObservationEvent(Safe(ObservationOf(reply, action).value))]
  }

  /** Emits each report; whether that works makes no difference to the dispatch. */
  method ShowProgress(reports: seq<Progress>, action: Action, sink: Sink, ghost before: seq<OutEvent>, ghost ideal: seq<OutEvent>)
    requires sink.Shown(before, ideal)
    modifies sink
    ensures sink.Shown(before, ideal + ProgressOutput(reports, action))
    ensures old(sink.room).None? ==> sink.room.None?
  {
    assert reports[..0] == [];
    assert ideal + [] == ideal;
    for i := 0 to |reports|
      invariant sink.Shown(before, ideal + ProgressOutput(reports[..i], action))
      invariant old(sink.room).None? ==> sink.room.None?
    {
      assert reports[..i + 1][..i] == reports[..i];
      ghost var shown := ProgressOutput(reports[..i], action);
      if reports[i].taskID == action.taskID && reports[i].sequence == action.sequence {
        ConcatAssociative(ideal, shown, [ProgressEvent(reports[i])]);
        var sent := sink.Emit(ProgressEvent(reports[i]), before, ideal + shown);
      } else {
        assert shown + [] == shown;
      }
    }
    assert reports[..|reports|] == reports;
  }

  /** A failed dispatch goes on even if it cannot be shown; an answer that cannot be shown ends the loop. */
  method DispatchControlAction(action: Action, reply: Reply, sink: Sink, ghost before: seq<OutEvent>, ghost ideal: seq<OutEvent>)
    returns (observation: Option<Observation>)
    requires sink.Shown(before, ideal)
    modifies sink
    ensures sink.Shown(before, ideal + DeviceOutput(reply, action))
    ensures observation.Some? ==> observation == ObservationOf(reply, action)
    ensures observation.None? ==> reply.Refused? || (reply.Answered? && sink.room == Some(0))
    ensures old(sink.room).None? ==> sink.room.None?
  {
    if reply.Refused? {
      assert ideal + [] == ideal;
      return None;
    }
    ShowProgress(reply.reports, action, sink, before, ideal);
    ghost var shown := ProgressOutput(reply.reports, action);
    var o := if reply.Answered? then reply.observation else FailedObservation(action);
    var safe := WithoutAttachmentData(o);
    ConcatAssociative(ideal, shown, [ObservationEvent(safe)]);
    var sent := sink.Emit(ObservationEvent(safe), before, ideal + shown);
    if !sent && reply.Answered? {
      return None;
    }
    observation := Some(o);
  }

  // ---- The loop ----------------------------------------------------------------------------------

  datatype Prompt = Original(task: string) | FollowUp(task: string, action: Action, observation: Observation)

  datatype Round = Round(prompt: Prompt, action: Option<Action>, observation: Option<Observation>)

  datatype End =
    | TaskCompleted
    | StepFailed
    | DispatchFailed
    | WaitsForApproval(shown: bool)
    | WaitsForUser(shown: bool)
    | CancelledByDevice
    | LimitReached

  /** The status the loop writes for the task at its end; none while the task waits. */
  function StatusWritten(end: End): Option<TaskStatus> {
    match end
    case TaskCompleted => Some(Completed)
    case StepFailed => Some(Failed)
    case DispatchFailed => Some(Failed)
    case LimitReached => Some(Failed)
    case CancelledByDevice => Some(Cancelled)
    case _ => None
  }

  /** The gateway's behaviour may depend on the round and its prompt, the device's on the round and the action. */
  type Gateway = (int, Prompt) -> GatewayRun
  type Device = (int, Action) -> Reply

  predicate GoesOn(o: Observation) {
    !o.status.AsksApproval? && !o.status.AsksUser? && !o.status.ReportsCancel?
  }

  /** The prompt of round k: the task itself, then the task with the latest action and observation only. */
  function PromptAt(task: string, rounds: seq<Round>, k: nat): Prompt
    requires k <= |rounds|
  {
    if k == 0 || rounds[k - 1].action.None? || rounds[k - 1].observation.None? then Original(task)
    else FollowUp(task, rounds[k - 1].action.value, rounds[k - 1].observation.value)
  }

  /** In this round the model asked for an action, the device answered, and the task goes on. */
  predicate Proceeds(taskID: string, gateway: Gateway, device: Device, sequence: int, prompt: Prompt, round: Round) {
    && round.prompt == prompt
    && round.action == LastAction(gateway(sequence, prompt).events, taskID, sequence)
    && round.action.Some?
    && round.observation == ObservationOf(device(sequence, round.action.value), round.action.value)
    && round.observation.Some?
    && GoesOn(round.observation.value)
  }

  predicate GoesOnAt(task: string, taskID: string, gateway: Gateway, device: Device, rounds: seq<Round>, k: nat)
    requires k < |rounds|
  {
    Proceeds(taskID, gateway, device, k + 1, PromptAt(task, rounds, k), rounds[k])
  }

  predicate Continued(task: string, taskID: string, gateway: Gateway, device: Device, rounds: seq<Round>) {
    forall k :: 0 <= k < |rounds| ==> GoesOnAt(task, taskID, gateway, device, rounds, k)
  }

  /** The observations of the rounds, as the history keeps them. */
  function Observed(rounds: seq<Round>): seq<Observation> {
    if rounds == [] then []
    else
      var n := |rounds| - 1;
      Observed(rounds[..n]) + if rounds[n].observation.None? then [] else [Safe(rounds[n].observation.value)]
  }

  /** What there is to show of the rounds. */
  function Output(gateway: Gateway, device: Device, taskID: string, rounds: seq<Round>): seq<OutEvent> {
    if rounds == [] then []
    else
      var n := |rounds| - 1;
      Output(gateway, device, taskID, rounds[..n]) + RoundOutput(gateway, device, taskID, n + 1, rounds[n])
  }

  /** A run's events, as far as they parse, and then what its action led to. */
  function RoundOutput(gateway: Gateway, device: Device, taskID: string, sequence: int, round: Round): seq<OutEvent> {
    Mapped(Parsed(gateway(sequence, round.prompt).events), taskID, sequence)
    + if round.action.None? then [] else DeviceOutput(device(sequence, round.action.value), round.action.value)
  }

  lemma OutputSnoc(gateway: Gateway, device: Device, taskID: string, rounds: seq<Round>, round: Round)
    ensures Output(gateway, device, taskID, rounds + [round])
            == Output(gateway, device, taskID, rounds) + RoundOutput(gateway, device, taskID, |rounds| + 1, round)
  {
    assert (rounds + [round])[..|rounds|] == rounds;
  }

  lemma ContinuedSnoc(task: string, taskID: string, gateway: Gateway, device: Device, rounds: seq<Round>, round: Round)
    requires Continued(task, taskID, gateway, device, rounds)
    requires Proceeds(taskID, gateway, device, |rounds| + 1, PromptAt(task, rounds, |rounds|), round)
    ensures Continued(task, taskID, gateway, device, rounds + [round])
    ensures PromptAt(task, rounds + [round], |rounds| + 1) == FollowUp(task, round.action.value, round.observation.value)
  {
    var all := rounds + [round];
    forall k | 0 <= k < |all| ensures GoesOnAt(task, taskID, gateway, device, all, k) {
      if k < |rounds| {
        assert GoesOnAt(task, taskID, gateway, device, rounds, k);
      }
    }
  }

  /** The history after these rounds. */
  function HistoryAfter(initial: seq<Observation>, rounds: seq<Round>): seq<Observation> {
    if rounds == [] then initial else LastEight(initial + Observed(rounds))
  }

  lemma HistorySnoc(initial: seq<Observation>, rounds: seq<Round>, round: Round)
    requires round.observation.Some?
    ensures HistoryAfter(initial, rounds + [round]) == LastEight(HistoryAfter(initial, rounds) + [Safe(round.observation.value)])
  {
    var o := Safe(round.observation.value);
    assert (rounds + [round])[..|rounds|] == rounds;
    assert Observed(rounds + [round]) == Observed(rounds) + [o];
    assert initial + Observed(rounds + [round]) == (initial + Observed(rounds)) + [o];
    LastEightAgain(initial + Observed(rounds), o);
    if rounds == [] {
      assert initial + Observed(rounds) == initial;
    }
  }

  /** Why the loop ends with this round. Whatever the client takes, a run that breaks ends it. */
  predicate Finishes(taskID: string, gateway: Gateway, device: Device, sequence: int, prompt: Prompt, last: Round, end: End) {
    && last.prompt == prompt
    && last.action == (if end.StepFailed? then None else LastAction(gateway(sequence, prompt).events, taskID, sequence))
    && (Breaks(gateway(sequence, prompt)) ==> end.StepFailed?)
    && (last.observation.Some? ==>
          last.action.Some? && last.observation == ObservationOf(device(sequence, last.action.value), last.action.value))
    && (last.action.None? <==> end.StepFailed? || end.TaskCompleted?)
    && (last.observation.Some? <==> end.WaitsForApproval? || end.WaitsForUser? || end.CancelledByDevice?)
    && match end
       case WaitsForApproval(_) => last.observation.value.status.AsksApproval?
       case WaitsForUser(_) => last.observation.value.status.AsksUser?
       case CancelledByDevice => last.observation.value.status.ReportsCancel?
       case LimitReached => false
       case _ => true
  }

  /** The loop fails only for the run's or the hub's own reasons, or because the client takes nothing more. */
  predicate FailsForCause(gateway: Gateway, device: Device, sequence: int, last: Round, end: End, room: Option<nat>) {
    && (end.StepFailed? ==> Breaks(gateway(sequence, last.prompt)) || room == Some(0))
    && (end.DispatchFailed? ==> last.action.Some? && (device(sequence, last.action.value).Refused? || room == Some(0)))
  }

  /** The rounds that went on, and how and why the loop ended after them. */
  ghost predicate EndsAs(task: string, taskID: string, gateway: Gateway, device: Device, rounds: seq<Round>, last: Round, end: End) {
    && |rounds| <= MAX_ITERATIONS
    && Continued(task, taskID, gateway, device, rounds)
    && (end.LimitReached? <==> |rounds| == MAX_ITERATIONS)
    && (!end.LimitReached? ==>
          Finishes(taskID, gateway, device, |rounds| + 1, PromptAt(task, rounds, |rounds|), last, end))
  }

  /** One round up to its observation: the run, then the device. */
  method RunRound(prompt: Prompt, taskID: string, sequence: int, gateway: Gateway, device: Device, sink: Sink,
                  ghost before: seq<OutEvent>, ghost ideal: seq<OutEvent>)
    returns (failed: bool, round: Round)
    requires sink.Shown(before, ideal)
    modifies sink
    ensures round.prompt == prompt
    ensures failed ==> round.action == None
    ensures !failed ==> round.action == LastAction(gateway(sequence, prompt).events, taskID, sequence)
    ensures !failed ==> !Breaks(gateway(sequence, prompt))
    ensures round.observation.Some? ==>
              && round.action.Some?
              && round.observation == ObservationOf(device(sequence, round.action.value), round.action.value)
    ensures sink.Shown(before, ideal + RoundOutput(gateway, device, taskID, sequence, round))
    ensures failed ==> Breaks(gateway(sequence, prompt)) || sink.room == Some(0)
    ensures round.action.Some? && round.observation.None? ==>
              device(sequence, round.action.value).Refused? || sink.room == Some(0)
    ensures old(sink.room).None? ==> sink.room.None?
  {
    var ok, pending := RunControlStep(gateway(sequence, prompt), taskID, sequence, sink, before, ideal);
    ghost var shown := Mapped(Parsed(gateway(sequence, prompt).events), taskID, sequence);
    if !ok || pending == None {
      assert shown + [] == shown;
      return !ok, Round(prompt, None, None);
    }
    var reply := device(sequence, pending.value);
    var observation := DispatchControlAction(pending.value, reply, sink, before, ideal + shown);
    ConcatAssociative(ideal, shown, DeviceOutput(reply, pending.value));
    failed, round := false, Round(prompt, pending, observation);
  }

  /** The end that the round's outcome calls for. */
  predicate EndFits(last: Round, end: End) {
    && (last.action.None? <==> end.StepFailed? || end.TaskCompleted?)
    && (last.action.Some? && last.observation.None? <==> end.DispatchFailed?)
    && (end.WaitsForApproval? <==> last.observation.Some? && last.observation.value.status.AsksApproval?)
    && (end.WaitsForUser? <==> last.observation.Some? && last.observation.value.status.AsksUser?)
    && (end.CancelledByDevice? <==> last.observation.Some? && last.observation.value.status.ReportsCancel?)
    && !end.LimitReached?
  }

  /** A task that waits says whether the client was told: then it has been shown everything. */
  predicate WaitIsTold(end: End, sink: Sink, whole: seq<OutEvent>)
    reads sink
  {
    end.WaitsForApproval? || end.WaitsForUser? ==> if end.shown then sink.sent == whole else sink.room == Some(0)
  }

  /** What the hub has of its tasks when the loop has ended: the end's status written as
      SetTaskStatus does, where stored is what the store knows of the task. */
  function Concluded(s: Hub.Tasks, taskID: string, end: End, stored: Option<Hub.Session>, now: int): Hub.Tasks {
    if StatusWritten(end).None? then s else Hub.Write(s, taskID, StatusWritten(end).value, stored, now)
  }

  /** A task that was known and open in s has this status in t. */
  predicate Becomes(s: Hub.Tasks, t: Hub.Tasks, taskID: string, stored: Option<Hub.Session>, status: TaskStatus) {
    Hub.Known(s, taskID, stored).Some? && !Terminal(Hub.Known(s, taskID, stored).value.status) ==>
      taskID in t.sessions && t.sessions[taskID].status == status
  }

  /** Whether the loop ends with this round, and how; then the status is written. */
  method Settle(failed: bool, last: Round, taskID: string, sink: Sink, hub: Hub.TaskTable, stored: Option<Hub.Session>, now: int,
                ghost before: seq<OutEvent>, ghost ideal: seq<OutEvent>)
    returns (end: Option<End>)
    requires failed ==> last.action.None?
    requires last.observation.Some? ==> last.action.Some?
    requires sink.Shown(before, ideal)
    modifies sink, hub
    ensures end.Some? ==> EndFits(last, end.value) && (end.value.StepFailed? <==> failed)
    ensures end.None? ==> last.action.Some? && last.observation.Some? && GoesOn(last.observation.value)
    ensures sink.Shown(before, if end.None? then ideal else ideal + Waiting(end.value))
    ensures end.Some? ==> WaitIsTold(end.value, sink, before + ideal + Waiting(end.value))
    ensures old(sink.room).None? ==> sink.room.None?
    ensures old(sink.room) == Some(0) ==> sink.room == Some(0)
    ensures hub.State() == if end.None? then old(hub.State()) else Concluded(old(hub.State()), taskID, end.value, stored, now)
    ensures failed ==> Becomes(old(hub.State()), hub.State(), taskID, stored, Failed)
    ensures !failed && last.action.None? ==> Becomes(old(hub.State()), hub.State(), taskID, stored, Completed)
    ensures last.action.Some? && last.observation.None? ==> Becomes(old(hub.State()), hub.State(), taskID, stored, Failed)
    ensures last.observation.Some? ==>
              if last.observation.value.status.ReportsCancel? then Becomes(old(hub.State()), hub.State(), taskID, stored, Cancelled)
              else hub.State() == old(hub.State())
  {
    end := None;
    assert ideal + [] == ideal;
    if failed {
      var saved := hub.SetTaskStatus(taskID, Failed, stored, now);
      return Some(StepFailed);
    }
    if last.action == None {
      var saved := hub.SetTaskStatus(taskID, Completed, stored, now);
      return Some(TaskCompleted);
    }
    if last.observation == None {
      var saved := hub.SetTaskStatus(taskID, Failed, stored, now);
      return Some(DispatchFailed);
    }
    var observation := last.observation.value;
    if observation.status == AsksApproval {
      var shown := sink.Emit(Forwarded(Done("waiting_approval")), before, ideal);
      return Some(WaitsForApproval(shown));
    }
    if observation.status == AsksUser {
      var shown := sink.Emit(Forwarded(Done("waiting_user")), before, ideal);
      return Some(WaitsForUser(shown));
    }
    if observation.status == ReportsCancel {
      var saved := hub.SetTaskStatus(taskID, Cancelled, stored, now);
      return Some(CancelledByDevice);
    }
  }

  /** What other calls, and the dispatch itself, do to the hub during each round. */
  type Others = int -> seq<Hub.Step>

  function HubAfter(s: Hub.Tasks, others: Others, n: nat): Hub.Tasks {
    if n == 0 then s else Hub.Run(HubAfter(s, others, n - 1), others(n))
  }

  /** One turn of the loop: the run, the device, and whether that ends the task. */
  method Iterate(prompt: Prompt, taskID: string, sequence: int, gateway: Gateway, device: Device, sink: Sink,
                 hub: Hub.TaskTable, others: Others, stored: Option<Hub.Session>, now: int,
                 ghost before: seq<OutEvent>, ghost ideal: seq<OutEvent>)
    returns (end: Option<End>, round: Round)
    requires sink.Shown(before, ideal)
    modifies sink, hub
    ensures end.None? ==> Proceeds(taskID, gateway, device, sequence, prompt, round)
    ensures end.Some? ==> Finishes(taskID, gateway, device, sequence, prompt, round, end.value)
    ensures end.Some? ==> FailsForCause(gateway, device, sequence, round, end.value, sink.room)
    ensures sink.Shown(before, ideal + RoundOutput(gateway, device, taskID, sequence, round)
                               + if end.None? then [] else Waiting(end.value))
    ensures end.Some? ==>
              WaitIsTold(end.value, sink, before + (ideal + RoundOutput(gateway, device, taskID, sequence, round)) + Waiting(end.value))
    ensures old(sink.room).None? ==> sink.room.None?
    ensures var s := Hub.Run(old(hub.State()), others(sequence));
            hub.State() == if end.None? then s else Concluded(s, taskID, end.value, stored, now)
  {
    var failed;
    failed, round := RunRound(prompt, taskID, sequence, gateway, device, sink, before, ideal);
    hub.PerformAll(others(sequence));
    ghost var shown := ideal + RoundOutput(gateway, device, taskID, sequence, round);
    end := Settle(failed, round, taskID, sink, hub, stored, now, before, shown);
    assert shown + [] == shown;
  }

  lemma ConcludedStatus(s: Hub.Tasks, taskID: string, end: End, stored: Option<Hub.Session>, now: int)
    ensures EndsWithStatus(s, Concluded(s, taskID, end, stored, now), taskID, stored, end)
  {
  }

  /** The rounds of a whole loop: those that went on, and the one it ended with. */
  function AllRounds(rounds: seq<Round>, last: Round, end: End): seq<Round> {
    if end.LimitReached? then rounds else rounds + [last]
  }

  /** One turn of the loop with its effects on context, client and hub, after the rounds that went on. */
  method Turn(task: string, taskID: string, gateway: Gateway, device: Device, rounds: seq<Round>, values: Values, sink: Sink,
              hub: Hub.TaskTable, others: Others, stored: Option<Hub.Session>, now: int,
              ghost initial: seq<Observation>, ghost before: seq<OutEvent>)
    returns (end: Option<End>, last: Round)
    requires |rounds| < MAX_ITERATIONS && Continued(task, taskID, gateway, device, rounds)
    requires values.history == HistoryAfter(initial, rounds)
    requires sink.Shown(before, Output(gateway, device, taskID, rounds))
    modifies values, sink, hub
    ensures end.None? ==> Continued(task, taskID, gateway, device, rounds + [last])
    ensures end.Some? ==> EndsAs(task, taskID, gateway, device, rounds, last, end.value)
    ensures values.history == HistoryAfter(initial, if end.None? then rounds + [last] else rounds)
    ensures end.Some? ==> FailsForCause(gateway, device, |rounds| + 1, last, end.value, sink.room)
    ensures end.None? ==> sink.Shown(before, Output(gateway, device, taskID, rounds + [last]))
    ensures end.Some? ==>
              var shown := Output(gateway, device, taskID, AllRounds(rounds, last, end.value));
              sink.Shown(before, shown + Waiting(end.value)) && WaitIsTold(end.value, sink, before + shown + Waiting(end.value))
    ensures old(sink.room).None? ==> sink.room.None?
    ensures var s := Hub.Run(old(hub.State()), others(|rounds| + 1));
            hub.State() == if end.None? then s else Concluded(s, taskID, end.value, stored, now)
  {
    var prompt := NextPrompt(task, rounds);
    end, last := Iterate(prompt, taskID, |rounds| + 1, gateway, device, sink, hub, others, stored, now,
                         before, Output(gateway, device, taskID, rounds));
    OutputSnoc(gateway, device, taskID, rounds, last);
    if end == None {
      values.ApplyDeviceObservation(task, last.action.value, last.observation.value);
      assert Output(gateway, device, taskID, rounds + [last]) + [] == Output(gateway, device, taskID, rounds + [last]);
      HistorySnoc(initial, rounds, last);
      ContinuedSnoc(task, taskID, gateway, device, rounds, last);
    }
  }

  method NextPrompt(task: string, rounds: seq<Round>) returns (prompt: Prompt)
    ensures prompt == PromptAt(task, rounds, |rounds|)
  {
    prompt := Original(task);
    if rounds != [] {
      var last := rounds[|rounds| - 1];
      if last.action.Some? && last.observation.Some? {
        prompt := FollowUp(task, last.action.value, last.observation.value);
      }
    }
  }

  /** A known open task is COMPLETED, FAILED or CANCELLED as the loop ended; one that waits is
      left as the others left it. */
  predicate EndsWithStatus(s: Hub.Tasks, t: Hub.Tasks, taskID: string, stored: Option<Hub.Session>, end: End) {
    && (end.TaskCompleted? ==> Becomes(s, t, taskID, stored, Completed))
    && (end.StepFailed? || end.DispatchFailed? || end.LimitReached? ==> Becomes(s, t, taskID, stored, Failed))
    && (end.CancelledByDevice? ==> Becomes(s, t, taskID, stored, Cancelled))
    && (end.WaitsForApproval? || end.WaitsForUser? ==> t == s)
  }

  lemma NothingYet(before: seq<OutEvent>, room: Option<nat>)
    ensures Shows(before, room, before, [])
  {
    assert before + [] == before;
  }

  lemma NothingMore(shown: seq<OutEvent>)
    ensures shown + Waiting(LimitReached) == shown
  {
  }

  method RunControlLoop(task: string, taskID: string, gateway: Gateway, device: Device, values: Values, sink: Sink,
                        hub: Hub.TaskTable, others: Others, stored: Option<Hub.Session>, now: int)
    returns (end: End, rounds: seq<Round>, last: Round)
    modifies values, sink, hub
    ensures EndsAs(task, taskID, gateway, device, rounds, last, end)
    ensures values.history == HistoryAfter(old(values.history), rounds)
    ensures sink.Shown(old(sink.sent), Output(gateway, device, taskID, AllRounds(rounds, last, end)) + Waiting(end))
    ensures WaitIsTold(end, sink, old(sink.sent) + Output(gateway, device, taskID, AllRounds(rounds, last, end)) + Waiting(end))
    ensures old(sink.room).None? ==> sink.room.None?
    ensures FailsForCause(gateway, device, |rounds| + 1, last, end, sink.room)
    ensures hub.State() == Concluded(HubAfter(old(hub.State()), others, |AllRounds(rounds, last, end)|), taskID, end, stored, now)
  {
    rounds := [];
    ghost var initial, before, tasks := values.history, sink.sent, hub.State();
    NothingYet(before, sink.room);
    for iteration := 1 to MAX_ITERATIONS + 1
      invariant |rounds| == iteration - 1
      invariant Continued(task, taskID, gateway, device, rounds)
      invariant values.history == HistoryAfter(initial, rounds)
      invariant sink.Shown(before, Output(gateway, device, taskID, rounds))
      invariant old(sink.room).None? ==> sink.room.None?
      invariant hub.State() == HubAfter(tasks, others, |rounds|)
    {
      var settled;
      settled, last := Turn(task, taskID, gateway, device, rounds, values, sink, hub, others, stored, now, initial, before);
      if settled != None {
        return settled.value, rounds, last;
      }
      rounds := rounds + [last];
    }
    end := LimitReached;
    last := Round(Original(task), None, None);
    var saved := hub.SetTaskStatus(taskID, Failed, stored, now);
    NothingMore(Output(gateway, device, taskID, rounds));
  }

  /** The closing event of a task that waits for someone. */
  function Waiting(end: End): seq<OutEvent> {
    match end
    case WaitsForApproval(_) => [Forwarded(Done("waiting_approval"))]
    case WaitsForUser(_) => [Forwarded(Done("waiting_user"))]
    case _ => []
  }

  // ---- What a whole loop guarantees ------------------------------------------------------------------

  /** The model runs at most eight times, and the k-th action carries the task, the
      number k and a key made of the task and its own id. */
  lemma ActionsAreNumbered(task: string, taskID: string, gateway: Gateway, device: Device, rounds: seq<Round>, last: Round, end: End)
    requires EndsAs(task, taskID, gateway, device, rounds, last, end)
    ensures |rounds| + (if end.LimitReached? then 0 else 1) <= MAX_ITERATIONS
    ensures forall k :: 0 <= k < |rounds| ==> Numbered(rounds[k].action, taskID, k + 1)
    ensures !end.LimitReached? && last.action.Some? ==> Numbered(last.action, taskID, |rounds| + 1)
  {
    forall k | 0 <= k < |rounds| ensures Numbered(rounds[k].action, taskID, k + 1) {
      assert GoesOnAt(task, taskID, gateway, device, rounds, k);
    }
  }

  /** How a known open task ends for good, told from what the gateway and the device do in the
      round after those that went on, when the client takes everything: s is the hub by then. */
  lemma StatusFollowsEvents(task: string, taskID: string, gateway: Gateway, device: Device, rounds: seq<Round>, last: Round, end: End,
                            s: Hub.Tasks, stored: Option<Hub.Session>, now: int, later: seq<Hub.Step>)
    requires EndsAs(task, taskID, gateway, device, rounds, last, end)
    requires FailsForCause(gateway, device, |rounds| + 1, last, end, None)
    requires Hub.Known(s, taskID, stored).Some? && !Terminal(Hub.Known(s, taskID, stored).value.status)
    requires Hub.NoReloadOfResident(Concluded(s, taskID, end, stored, now), later)
    ensures var t := Hub.Run(Concluded(s, taskID, end, stored, now), later);
            if |rounds| == 8 then HasStatus(t, taskID, Failed)
            else
              var run := gateway(|rounds| + 1, PromptAt(task, rounds, |rounds|));
              if run.fails || BadAction in run.events then HasStatus(t, taskID, Failed)
              else if !HasAction(run.events) then HasStatus(t, taskID, Completed)
              else
                var action := LastAction(run.events, taskID, |rounds| + 1).value;
                var reply := device(|rounds| + 1, action);
                match reply
                case Refused => HasStatus(t, taskID, Failed)
                case Answered(_, o) =>
                  if o.status.ReportsCancel? then HasStatus(t, taskID, Cancelled)
                  else t == Hub.Run(s, later) && (o.status.AsksApproval? || o.status.AsksUser?)
                case Unanswered(_) => false
  {
    ConcludedStatus(s, taskID, end, stored, now);
    Hub.FirstOutcomeWins(Concluded(s, taskID, end, stored, now), later);
  }

  predicate HasStatus(t: Hub.Tasks, taskID: string, status: TaskStatus) {
    taskID in t.sessions && t.sessions[taskID].status == status
  }

  predicate Numbered(action: Option<Action>, taskID: string, sequence: int) {
    && action.Some? && action.value.taskID == taskID && action.value.sequence == sequence
    && action.value.idempotencyKey == taskID + ":" + action.value.actionID
  }

  /** Every run after the first is prompted with the task and the last action and observation
      alone, the first one with the task. */
  lemma PromptsFollow(task: string, taskID: string, gateway: Gateway, device: Device, rounds: seq<Round>, last: Round, end: End, k: nat)
    requires EndsAs(task, taskID, gateway, device, rounds, last, end) && !end.LimitReached? && k <= |rounds|
    ensures var prompt := if k < |rounds| then rounds[k].prompt else last.prompt;
            if k == 0 then prompt == Original(task)
            else
              && rounds[k - 1].action.Some? && rounds[k - 1].observation.Some?
              && prompt == FollowUp(task, rounds[k - 1].action.value, rounds[k - 1].observation.value)
  {
    if k > 0 {
      assert GoesOnAt(task, taskID, gateway, device, rounds, k - 1);
    }
    if k < |rounds| {
      assert GoesOnAt(task, taskID, gateway, device, rounds, k);
    }
  }

  /** The history takes one observation of each round that went on, without attachment data. */
  lemma {:induction false} ObservedInTurn(rounds: seq<Round>)
    requires forall k :: 0 <= k < |rounds| ==> rounds[k].observation.Some?
    ensures |Observed(rounds)| == |rounds|
    ensures forall k :: 0 <= k < |rounds| ==> IsWithoutData(Observed(rounds)[k], rounds[k].observation.value)
  {
    if rounds != [] {
      var n := |rounds| - 1;
      ObservedInTurn(rounds[..n]);
      SafeSaysTheSame(rounds[n].observation.value);
    }
  }

  /** The action a run ends up asking for is the last one among its events, stamped. */
  lemma {:induction false} LastActionIsLast(events: seq<InEvent>, taskID: string, sequence: int) returns (k: nat)
    requires HasAction(events)
    ensures k < |events| && events[k].ClientAction? && forall j :: k < j < |events| ==> !events[j].ClientAction?
    ensures LastAction(events, taskID, sequence)
            == Some(Action(taskID, events[k].action.actionID, events[k].action.sessionID, sequence,
                           taskID + ":" + events[k].action.actionID, events[k].action.capability))
  {
    var n := |events| - 1;
    if events[n].ClientAction? {
      k := n;
    } else {
      assert HasAction(events[..n]) by {
        var i :| 0 <= i < |events| && events[i].ClientAction?;
        assert events[..n][i].ClientAction?;
      }
      k := LastActionIsLast(events[..n], taskID, sequence);
    }
  }

  /** Each event of a run is shown in its place: an action stamped, a Done after an action
      not at all, and every other event as it is. */
  lemma EachEventIsShown(a: seq<InEvent>, e: InEvent, b: seq<InEvent>, taskID: string, sequence: int)
    returns (shown: seq<OutEvent>, rest: seq<OutEvent>)
    ensures Mapped(a + ([e] + b), taskID, sequence) == Mapped(a, taskID, sequence) + shown + rest && (b == [] ==> rest == [])
    ensures e.ClientAction? ==>
              shown == [ActionEvent(Action(taskID, e.action.actionID, e.action.sessionID, sequence,
                                           taskID + ":" + e.action.actionID, e.action.capability))]
    ensures e.Done? ==> shown == if exists k :: 0 <= k < |a| && a[k].ClientAction? then [] else [Forwarded(e)]
    ensures !e.ClientAction? && !e.Done? ==> shown == [Forwarded(e)]
  {
    shown := Image(a, e, taskID, sequence);
    rest := ShownInPlace(a, e, b, taskID, sequence);
  }

  lemma ShownInPlace(a: seq<InEvent>, e: InEvent, b: seq<InEvent>, taskID: string, sequence: int) returns (rest: seq<OutEvent>)
    ensures Mapped(a + ([e] + b), taskID, sequence) == Mapped(a, taskID, sequence) + Image(a, e, taskID, sequence) + rest
    ensures b == [] ==> rest == []
  {
    var all := a + ([e] + b);
    Parts(a, e, b);
    MappedGrows(all, |a| + 1, |all|, taskID, sequence);
    rest := Mapped(all, taskID, sequence)[|Mapped(a + [e], taskID, sequence)|..];
  }

  lemma Parts(a: seq<InEvent>, e: InEvent, b: seq<InEvent>)
    ensures var all := a + ([e] + b);
            all[..|a| + 1] == a + [e] && (a + [e])[..|a|] == a && all[..|all|] == all && (b == [] ==> all == a + [e])
  {
  }

  /** An answer is shown after the reports that belong to its action, in their order, and
      without attachment data. */
  lemma AnswerIsShown(reports: seq<Progress>, o: Observation, action: Action) returns (shown: seq<OutEvent>, kept: Observation)
    ensures DeviceOutput(Answered(reports, o), action) == shown + [ObservationEvent(kept)] && IsWithoutData(kept, o)
    ensures forall e :: e in shown ==> e.ProgressEvent? && e.progress in reports
                                       && e.progress.taskID == action.taskID && e.progress.sequence == action.sequence
    ensures forall p :: p in reports && p.taskID == action.taskID && p.sequence == action.sequence ==> ProgressEvent(p) in shown
  {
    shown, kept := ProgressOutput(reports, action), Safe(o);
    SafeSaysTheSame(o);
    OwnReportsShown(reports, action);
  }

  lemma {:induction false} OwnReportsShown(reports: seq<Progress>, action: Action)
    ensures forall e :: e in ProgressOutput(reports, action) ==>
              e.ProgressEvent? && e.progress in reports && e.progress.taskID == action.taskID && e.progress.sequence == action.sequence
    ensures forall p :: p in reports && p.taskID == action.taskID && p.sequence == action.sequence ==>
              ProgressEvent(p) in ProgressOutput(reports, action)
  {
    if reports != [] {
      var n := |reports| - 1;
      assert reports == reports[..n] + [reports[n]];
      OwnReportsShown(reports[..n], action);
    }
  }

  predicate ShowsDone(events: seq<OutEvent>) {
    exists k :: 0 <= k < |events| && events[k].Forwarded? && events[k].event.Done?
  }

  /** Once a run has asked for an action, none of its later Done events reaches the client. */
  lemma {:induction false} NoDoneAfterAction(a: seq<InEvent>, b: seq<InEvent>, taskID: string, sequence: int)
    returns (rest: seq<OutEvent>)
    requires HasAction(a)
    ensures Mapped(a + b, taskID, sequence) == Mapped(a, taskID, sequence) + rest && !ShowsDone(rest)
    decreases |b|
  {
    if b == [] {
      assert a + b == a;
      rest := [];
    } else {
      var n := |b| - 1;
      rest := NoDoneAfterAction(a, b[..n], taskID, sequence);
      assert a + b == (a + b[..n]) + [b[n]];
      assert (a + b)[..|a| + n] == a + b[..n];
      var k :| 0 <= k < |a| && a[k].ClientAction?;
      assert (a + b[..n])[k] == a[k];
      rest := rest + Image(a + b[..n], b[n], taskID, sequence);
    }
  }

  /** A run that asks for no action is shown as it is. */
  lemma {:induction false} PlainRunUnchanged(events: seq<InEvent>, taskID: string, sequence: int)
    requires !HasAction(events)
    ensures |Mapped(events, taskID, sequence)| == |events|
    ensures forall k :: 0 <= k < |events| ==> Mapped(events, taskID, sequence)[k] == Forwarded(events[k])
  {
    if events != [] {
      var n := |events| - 1;
      assert forall k :: 0 <= k < n ==> events[..n][k] == events[k];
      PlainRunUnchanged(events[..n], taskID, sequence);
    }
  }

  /** A task cancelled while the loop was busy stays cancelled, in memory or in the store,
      whatever the loop writes at its end and whatever goes on later: s is the hub when the
      loop ends, after what others did since the cancel. */
  lemma CancelledMeanwhile(s: Hub.Tasks, taskID: string, end: End, stored: Option<Hub.Session>, now: int, later: seq<Hub.Step>)
    requires Hub.Known(s, taskID, stored).Some? && Hub.Known(s, taskID, stored).value.status == Cancelled
    requires Hub.NoReloadOfResident(Concluded(s, taskID, end, stored, now), later)
    ensures var t := Concluded(s, taskID, end, stored, now);
            && Hub.Known(t, taskID, stored).Some? && Hub.Known(t, taskID, stored).value.status == Cancelled
            && (taskID in t.sessions ==>
                  taskID in Hub.Run(t, later).sessions && Hub.Run(t, later).sessions[taskID].status == Cancelled)
  {
    Hub.FirstOutcomeWins(Concluded(s, taskID, end, stored, now), later);
  }

  /** And a loop that ends with an outcome leaves the task finished: with that outcome, or
      with the one that came first; nothing later changes it. */
  lemma OutcomeIsKept(s: Hub.Tasks, taskID: string, end: End, stored: Option<Hub.Session>, now: int, later: seq<Hub.Step>)
    requires Hub.Known(s, taskID, stored).Some? && !end.WaitsForApproval? && !end.WaitsForUser?
    requires Hub.NoReloadOfResident(Concluded(s, taskID, end, stored, now), later)
    ensures var status := Hub.Known(s, taskID, stored).value.status;
            var t := Hub.Run(Concluded(s, taskID, end, stored, now), later);
            && taskID in t.sessions
            && t.sessions[taskID].status == if Terminal(status) then status
                                            else if end.TaskCompleted? then Completed
                                            else if end.CancelledByDevice? then Cancelled
                                            else Failed
  {
    Hub.FirstOutcomeWins(Concluded(s, taskID, end, stored, now), later);
  }
}
