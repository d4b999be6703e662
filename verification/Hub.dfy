// The hub's task sessions. Every section of hub.go that holds the mutex is one
// step of a transition system; the class carries the sections out on its maps.
module Hub {
  import opened Common
  import opened Protocol

  datatype Session = Session(
    userID: string,
    conversationID: string,
    deviceID: string,
    status: TaskStatus,
    sequence: int,
    activeSessions: map<string, string>,
    actions: seq<Action>,
    observations: seq<Observation>,
    progress: Option<Progress>,
    updatedAt: int)

  /** The maps of the hub that task sessions live in: sessions by task id, and the
      open device sessions of each user's conversation by family. */
  datatype Tasks = Tasks(sessions: map<string, Session>, active: map<string, map<string, string>>)

  /** The key of a user's conversation; as in the source, a colon in either part can make two of them equal. */
  function ActiveKey(session: Session): string {
    session.userID + ":" + session.conversationID
  }

  // ---- What each lock section does -----------------------------------------------------

  /** BeginTask: a new session, or an existing one of the same or of no user. */
  function Begin(s: Tasks, taskID: string, userID: string, conversationID: string, deviceID: string, now: int): Tasks {
    if taskID in s.sessions then
      var current := s.sessions[taskID];
      if current.userID != "" && current.userID != userID then s
      else
        var next := current.(userID := userID, deviceID := deviceID, conversationID := conversationID, updatedAt := now);
        s.(sessions := s.sessions[taskID := next])
    else
      var created := Session(userID, conversationID, deviceID, WaitingAction, 0, map[], [], [], None, now);
      s.(sessions := s.sessions[taskID := created])
  }

  function WithStatus(session: Session, status: TaskStatus, now: int): Session {
    if CanTransition(session.status, status) then session.(status := status, updatedAt := now) else session
  }

  /** SetTaskStatus on a task in memory; nothing happens to a task that is not. */
  function SetStatus(s: Tasks, taskID: string, status: TaskStatus, now: int): Tasks {
    if ValidTaskStatus(status) && taskID in s.sessions then
      s.(sessions := s.sessions[taskID := WithStatus(s.sessions[taskID], status, now)])
    else s
  }

  /** SetTaskStatus after the store was asked: the loaded task replaces whatever is in memory. */
  function Reload(s: Tasks, taskID: string, stored: Session, status: TaskStatus, now: int): Tasks {
    s.(sessions := s.sessions[taskID := WithStatus(stored, status, now)])
  }

  /** The task as the hub has it, or else as the store does. */
  function Known(s: Tasks, taskID: string, stored: Option<Session>): Option<Session> {
    if taskID in s.sessions then Some(s.sessions[taskID]) else stored
  }

  /** SetTaskStatus from beginning to end. */
  function Write(s: Tasks, taskID: string, status: TaskStatus, stored: Option<Session>, now: int): Tasks {
    if ValidTaskStatus(status) && taskID !in s.sessions && stored.Some? then Reload(s, taskID, stored.value, status, now)
    else SetStatus(s, taskID, status, now)
  }

  /** Observe's load of a stored task, made only while no session is in memory. */
  function LoadAbsent(s: Tasks, taskID: string, stored: Session): Tasks {
    if taskID in s.sessions then s else s.(sessions := s.sessions[taskID := stored])
  }

  function Executed(session: Session): Session {
    if CanTransition(session.status, Executing) then session.(status := Executing) else session
  }

  function RecordAction(s: Tasks, deviceID: string, action: Action, now: int): Tasks {
    var current :=
      if action.taskID in s.sessions then s.sessions[action.taskID]
      else Session("", "", deviceID, Unset, 0, map[], [], [], None, now);
    var next := Executed(current.(deviceID := deviceID))
                .(sequence := action.sequence, actions := current.actions + [action], updatedAt := now);
    s.(sessions := s.sessions[action.taskID := next])
  }

  function RecordProgress(s: Tasks, taskID: string, progress: Progress, now: int): Tasks {
    if taskID !in s.sessions then s
    else
      var next := Executed(s.sessions[taskID]).(progress := Some(progress), updatedAt := now);
      s.(sessions := s.sessions[taskID := next])
  }

  /** A finished task keeps its status; an open one follows what the device asks for, is
      finished only by a cancel, and otherwise goes to evaluation. */
  function StatusAfter(current: TaskStatus, observed: ObservationStatus): (r: TaskStatus)
    ensures Terminal(current) ==> r == current
    ensures !Terminal(current) ==> (Terminal(r) <==> observed.ReportsCancel?)
    ensures !Terminal(current) ==> (r.WaitingApproval? <==> observed.AsksApproval?) && (r.WaitingUser? <==> observed.AsksUser?)
    ensures !Terminal(current) ==> r.Evaluating? || r.WaitingApproval? || r.WaitingUser? || r.Cancelled?
  {
    if Terminal(current) then current
    else match observed
      case AsksApproval => WaitingApproval
      case AsksUser => WaitingUser
      case ReportsCancel => Cancelled
      case _ => Evaluating
  }

  /** The observation answers a successful action that closes its device session. */
  predicate ClosesSession(session: Session, o: Observation) {
    && session.actions != []
    && EndsWith(session.actions[|session.actions| - 1].capability, ".close")
    && o.status.ReportsSuccess?
  }

  function Opened(open: map<string, string>, session: Session, o: Observation): map<string, string> {
    if ClosesSession(session, o) then open - {SessionFamily(o.sessionID)}
    else open[SessionFamily(o.sessionID) := o.sessionID]
  }

  function RecordObservation(s: Tasks, taskID: string, o: Observation, now: int): Tasks {
    if taskID !in s.sessions then s
    else
      var current := s.sessions[taskID];
      var noted := current.(observations := current.observations + [o], status := StatusAfter(current.status, o.status),
                            updatedAt := now);
      if o.sessionID == "" then s.(sessions := s.sessions[taskID := noted])
      else
        var key := ActiveKey(current);
        var open := if key in s.active then s.active[key] else map[];
        Tasks(s.sessions[taskID := noted.(activeSessions := Opened(current.activeSessions, current, o))],
              s.active[key := Opened(open, current, o)])
  }

  method Evaluated(current: TaskStatus, observed: ObservationStatus) returns (status: TaskStatus)
    ensures status == StatusAfter(current, observed)
  {
    status := current;
    if !Terminal(current) {
      status := Evaluating;
      if observed == AsksApproval {
        status := WaitingApproval;
      } else if observed == AsksUser {
        status := WaitingUser;
      } else if observed == ReportsCancel {
        status := Cancelled;
      }
    }
  }

  // ---- The class ------------------------------------------------------------------------

  class TaskTable {
    var sessions: map<string, Session>
    var active: map<string, map<string, string>>

    ghost function State(): Tasks
      reads this
    {
      Tasks(sessions, active)
    }

    constructor ()
      ensures State() == Tasks(map[], map[])
    {
      sessions, active := map[], map[];
    }

    /** The snapshot that is then written to the store, if the call succeeds. */
    method BeginTask(taskID: string, userID: string, conversationID: string, deviceID: string, now: int)
      returns (saved: Option<Session>)
      modifies this
      ensures State() == Begin(old(State()), taskID, userID, conversationID, deviceID, now)
      ensures saved.None? <==> taskID in old(sessions) && old(sessions)[taskID].userID !in {"", userID}
      ensures saved.Some? ==> taskID in sessions && saved.value == sessions[taskID]
    {
      if taskID in sessions {
        var current := sessions[taskID];
        if current.userID != "" && current.userID != userID {
          return None;
        }
        if current.userID == "" {
          current := current.(userID := userID);
        }
        current := current.(deviceID := deviceID, conversationID := conversationID, updatedAt := now);
        sessions := sessions[taskID := current];
        return Some(current);
      }
      var current := Session(userID, conversationID, deviceID, WaitingAction, 0, map[], [], [], None, now);
      sessions := sessions[taskID := current];
      saved := Some(current);
    }

    /** The whole of SetTaskStatus when no other call runs: stored is what the store knows
        of the task. A snapshot is saved exactly if the status was taken. */
    method SetTaskStatus(taskID: string, status: TaskStatus, stored: Option<Session>, now: int)
      returns (saved: Option<Session>)
      modifies this
      ensures State() == Write(old(State()), taskID, status, stored, now)
      ensures saved.Some? <==> ValidTaskStatus(status) && Known(old(State()), taskID, stored).Some?
                               && CanTransition(Known(old(State()), taskID, stored).value.status, status)
      ensures saved.Some? ==> taskID in sessions && saved.value == sessions[taskID] && saved.value.status == status
    {
      if !ValidTaskStatus(status) {
        return None;
      }
      if taskID !in sessions {
        if stored.None? {
          return None;
        }
        sessions := sessions[taskID := stored.value];
      }
      var current := sessions[taskID];
      if !CanTransition(current.status, status) {
        assert sessions == sessions[taskID := current];
        return None;
      }
      current := current.(status := status, updatedAt := now);
      sessions := sessions[taskID := current];
      saved := Some(current);
    }

    method NoteAction(deviceID: string, action: Action, now: int) returns (saved: Session)
      modifies this
      ensures State() == RecordAction(old(State()), deviceID, action, now)
      ensures action.taskID in sessions && saved == sessions[action.taskID]
    {
      if action.taskID !in sessions {
        sessions := sessions[action.taskID := Session("", "", deviceID, Unset, 0, map[], [], [], None, now)];
      }
      var current := sessions[action.taskID].(deviceID := deviceID);
      if CanTransition(current.status, Executing) {
        current := current.(status := Executing);
      }
      current := current.(sequence := action.sequence);
      current := current.(actions := current.actions + [action]);
      current := current.(updatedAt := now);
      sessions := sessions[action.taskID := current];
      saved := current;
    }

    method NoteProgress(taskID: string, progress: Progress, now: int)
      modifies this
      ensures State() == RecordProgress(old(State()), taskID, progress, now)
    {
      if taskID !in sessions {
        return;
      }
      var current := sessions[taskID].(progress := Some(progress));
      if CanTransition(current.status, Executing) {
        current := current.(status := Executing);
      }
      sessions := sessions[taskID := current.(updatedAt := now)];
    }

    method NoteObservation(taskID: string, o: Observation, now: int)
      modifies this
      ensures State() == RecordObservation(old(State()), taskID, o, now)
    {
      if taskID !in sessions {
        return;
      }
      var before := sessions[taskID];
      var status := Evaluated(before.status, o.status);
      var current := before.(observations := before.observations + [o], status := status);
      if o.sessionID != "" {
        var family := SessionFamily(o.sessionID);
        var key := ActiveKey(current);
        if key !in active {
          active := active[key := map[]];
        }
        var closed := current.actions != [] && EndsWith(current.actions[|current.actions| - 1].capability, ".close")
                      && o.status == ReportsSuccess;
        if closed {
          current := current.(activeSessions := current.activeSessions - {family});
          active := active[key := active[key] - {family}];
        } else {
          current := current.(activeSessions := current.activeSessions[family := o.sessionID]);
          active := active[key := active[key][family := o.sessionID]];
        }
      }
      sessions := sessions[taskID := current.(updatedAt := now)];
    }

    /** One section of some call. */
    method Perform(step: Step)
      modifies this
      ensures State() == Apply(old(State()), step)
    {
      match step
      case DoBegin(t, u, c, d, now) =>
        var saved := BeginTask(t, u, c, d, now);
      case DoSetStatus(t, status, now) =>
        var saved := SetTaskStatus(t, status, None, now);
      case DoReload(t, stored, status, now) =>
        sessions := sessions[t := WithStatus(stored, status, now)];
      case DoLoadAbsent(t, stored) =>
        if t !in sessions {
          sessions := sessions[t := stored];
        }
      case DoRecordAction(d, action, now) =>
        var saved := NoteAction(d, action, now);
      case DoRecordProgress(t, progress, now) => NoteProgress(t, progress, now);
      case DoRecordObservation(t, o, now) => NoteObservation(t, o, now);
    }

    /** Sections of any calls, one after the other. */
    method PerformAll(steps: seq<Step>)
      modifies this
      ensures State() == Run(old(State()), steps)
    {
      var rest := steps;
      while rest != []
        invariant Run(State(), rest) == Run(old(State()), steps)
        decreases |rest|
      {
        Perform(rest[0]);
        rest := rest[1..];
      }
    }
  }

  // ---- Runs -----------------------------------------------------------------------------

  datatype Step =
    | DoBegin(taskID: string, userID: string, conversationID: string, deviceID: string, now: int)
    | DoSetStatus(taskID: string, status: TaskStatus, now: int)
    | DoReload(taskID: string, stored: Session, status: TaskStatus, now: int)
    | DoLoadAbsent(taskID: string, stored: Session)
    | DoRecordAction(deviceID: string, action: Action, now: int)
    | DoRecordProgress(taskID: string, progress: Progress, now: int)
    | DoRecordObservation(taskID: string, observation: Observation, now: int)

  function Apply(s: Tasks, step: Step): Tasks {
    match step
    case DoBegin(t, u, c, d, now) => Begin(s, t, u, c, d, now)
    case DoSetStatus(t, status, now) => SetStatus(s, t, status, now)
    case DoReload(t, stored, status, now) => Reload(s, t, stored, status, now)
    case DoLoadAbsent(t, stored) => LoadAbsent(s, t, stored)
    case DoRecordAction(d, action, now) => RecordAction(s, d, action, now)
    case DoRecordProgress(t, progress, now) => RecordProgress(s, t, progress, now)
    case DoRecordObservation(t, o, now) => RecordObservation(s, t, o, now)
  }

  /** The state after a run of lock sections, in any interleaving of the calls they belong to. */
  function Run(s: Tasks, steps: seq<Step>): Tasks
    decreases |steps|
  {
    if steps == [] then s else Run(Apply(s, steps[0]), steps[1..])
  }

  /** What a session may never lose: its final outcome, its owner, its history. */
  predicate Continues(a: Session, b: Session) {
    && (Terminal(a.status) ==> b.status == a.status)
    && (a.userID != "" ==> b.userID == a.userID)
    && a.actions <= b.actions
    && a.observations <= b.observations
  }

  ghost predicate AllContinue(s: Tasks, t: Tasks) {
    forall id :: id in s.sessions ==> id in t.sessions && Continues(s.sessions[id], t.sessions[id])
  }

  /** Every section but a reload keeps all of it, whatever the state. */
  lemma StepContinues(s: Tasks, step: Step)
    requires step.DoReload? ==> step.taskID !in s.sessions
    ensures AllContinue(s, Apply(s, step))
  {
  }

  /** No reload meets a task that is in memory. In a hub without a store there are no reloads. */
  ghost predicate NoReloadOfResident(s: Tasks, steps: seq<Step>)
    decreases |steps|
  {
    steps == []
    || (&& (steps[0].DoReload? ==> steps[0].taskID !in s.sessions)
        && NoReloadOfResident(Apply(s, steps[0]), steps[1..]))
  }

  /** First terminal outcome wins: over every interleaving, a task's final status and
      owner stay, and its actions and observations only grow. */
  lemma {:induction false} FirstOutcomeWins(s: Tasks, steps: seq<Step>)
    requires NoReloadOfResident(s, steps)
    ensures AllContinue(s, Run(s, steps))
    decreases |steps|
  {
    if steps != [] {
      StepContinues(s, steps[0]);
      FirstOutcomeWins(Apply(s, steps[0]), steps[1..]);
    }
  }

  lemma {:induction false} StoreFreeRunsAreSafe(s: Tasks, steps: seq<Step>)
    requires forall k :: 0 <= k < |steps| ==> !steps[k].DoReload?
    ensures NoReloadOfResident(s, steps)
    decreases |steps|
  {
    if steps != [] {
      StoreFreeRunsAreSafe(Apply(s, steps[0]), steps[1..]);
    }
  }

  /** A session with nothing to lose. */
  predicate Blank(session: Session) {
    !Terminal(session.status) && session.userID == "" && session.actions == [] && session.observations == []
  }

  /** The stored row is an earlier state of the task in memory, as write-behind leaves it. */
  predicate EarlierRow(s: Tasks, taskID: string, stored: Session) {
    taskID in s.sessions ==> Continues(stored, s.sessions[taskID])
  }

  /** A reload is safe for every earlier row of the task exactly when the task is not in
      memory, or has nothing to lose yet. */
  lemma ReloadIsSafeIff(s: Tasks, taskID: string)
    ensures (forall stored, status, now :: EarlierRow(s, taskID, stored) ==> AllContinue(s, Reload(s, taskID, stored, status, now)))
            <==> (taskID in s.sessions ==> Blank(s.sessions[taskID]))
  {
    if taskID in s.sessions && !Blank(s.sessions[taskID]) {
      var a := s.sessions[taskID];
      var stored := Session("", a.conversationID, a.deviceID, WaitingAction, 0, map[], [], [], None, 0);
      assert EarlierRow(s, taskID, stored);
      var t := Reload(s, taskID, stored, Executing, 0);
      assert !Continues(a, t.sessions[taskID]);
      assert !AllContinue(s, t);
    }
  }

  /** The race that loses an outcome: two calls find the task missing, both load the
      stored row, and the second to lock overwrites the first one's COMPLETED. */
  lemma ReloadLosesOutcome(s: Tasks, taskID: string, row: Session, now: int)
    requires taskID !in s.sessions && !Terminal(row.status)
    ensures var first := Run(s, [DoSetStatus(taskID, Completed, now), DoSetStatus(taskID, Failed, now),
                                 DoReload(taskID, row, Completed, now)]);
            var second := Run(first, [DoReload(taskID, row, Failed, now)]);
            && taskID in first.sessions && first.sessions[taskID].status == Completed
            && taskID in second.sessions && second.sessions[taskID].status == Failed
  {
    var a, b, c := DoSetStatus(taskID, Completed, now), DoSetStatus(taskID, Failed, now), DoReload(taskID, row, Completed, now);
    assert [a, b, c][1..] == [b, c] && [b, c][1..] == [c] && [c][1..] == [];
    assert Run(s, [a, b, c]) == Run(s, [b, c]) == Run(s, [c]) == Apply(s, c);
    var d := DoReload(taskID, row, Failed, now);
    assert [d][1..] == [];
  }

  /** CancelByConversation: once its write has gone through, a task that the hub or the
      store knows is finished for good, and CANCELLED unless another outcome came first. */
  lemma CancelledForGood(s: Tasks, taskID: string, stored: Option<Session>, now: int, later: seq<Step>)
    requires Known(s, taskID, stored).Some?
    requires NoReloadOfResident(Write(s, taskID, Cancelled, stored, now), later)
    ensures var status := Known(s, taskID, stored).value.status;
            var t := Run(Write(s, taskID, Cancelled, stored, now), later);
            taskID in t.sessions && t.sessions[taskID].status == if Terminal(status) then status else Cancelled
  {
    FirstOutcomeWins(Write(s, taskID, Cancelled, stored, now), later);
  }

  /** Steps that no caller's status write, and no stored row, is part of. */
  predicate FromDevices(step: Step) {
    !step.DoSetStatus? && !step.DoReload? && !step.DoLoadAbsent?
  }

  predicate Decided(s: Tasks, id: string) {
    id in s.sessions && (s.sessions[id].status.Completed? || s.sessions[id].status.Failed?)
  }

  /** Actions, progress and observations never complete or fail a task: that is left to
      the callers of SetTaskStatus. */
  lemma {:induction false} OnlyCallersDecide(s: Tasks, steps: seq<Step>, id: string)
    requires forall k :: 0 <= k < |steps| ==> FromDevices(steps[k])
    ensures Decided(Run(s, steps), id) <==> Decided(s, id)
    decreases |steps|
  {
    if steps != [] {
      OneStepDecides(s, steps[0], id);
      OnlyCallersDecide(Apply(s, steps[0]), steps[1..], id);
    }
  }

  lemma OneStepDecides(s: Tasks, step: Step, id: string)
    requires FromDevices(step)
    ensures Decided(Apply(s, step), id) <==> Decided(s, id)
  {
  }

  // ---- What one section makes of a task --------------------------------------------------

  /** All other tasks, and the open sessions, are as they were. */
  predicate OnlyTask(s: Tasks, t: Tasks, taskID: string) {
    t.sessions - {taskID} == s.sessions - {taskID} && t.active == s.active
  }

  /** A begun task is the caller's, in the caller's conversation and on the caller's device:
      a new one waits for its action, one that exists keeps its status and histories, and one
      of another user is left alone. */
  lemma BegunIsTheCallers(s: Tasks, taskID: string, userID: string, conversationID: string, deviceID: string, now: int)
    ensures var t := Begin(s, taskID, userID, conversationID, deviceID, now);
            && taskID in t.sessions && OnlyTask(s, t, taskID)
            && var b := t.sessions[taskID];
               if taskID !in s.sessions then
                 b == Session(userID, conversationID, deviceID, WaitingAction, 0, map[], [], [], None, now)
               else
                 var a := s.sessions[taskID];
                 if a.userID != "" && a.userID != userID then b == a
                 else
                   b == Session(userID, conversationID, deviceID, a.status, a.sequence, a.activeSessions,
                                a.actions, a.observations, a.progress, now)
  {
    var t := Begin(s, taskID, userID, conversationID, deviceID, now);
    assert t.sessions - {taskID} == s.sessions - {taskID};
  }

  /** A status is taken by a task that the hub or the store knows, unless the task is finished
      otherwise; a loaded task comes into memory either way. Nothing else of the task, and no
      other task, changes. */
  lemma StatusTaken(s: Tasks, taskID: string, status: TaskStatus, stored: Option<Session>, now: int)
    ensures var t := Write(s, taskID, status, stored, now);
            && OnlyTask(s, t, taskID)
            && if status.Unset? || status.Unknown? || (taskID !in s.sessions && stored.None?) then t == s
               else
                 var a := if taskID in s.sessions then s.sessions[taskID] else stored.value;
                 && taskID in t.sessions
                 && t.sessions[taskID] == if a.status in {Completed, Failed, Cancelled} && a.status != status then a
                                          else a.(status := status, updatedAt := now)
  {
    assert Write(s, taskID, status, stored, now).sessions - {taskID} == s.sessions - {taskID};
  }

  /** An action is appended to its task, which then executes on that device, unless it was
      finished; a task that is not in memory is made for it. */
  lemma ActionExecutes(s: Tasks, deviceID: string, action: Action, now: int)
    ensures var t := RecordAction(s, deviceID, action, now);
            && action.taskID in t.sessions && OnlyTask(s, t, action.taskID)
            && var b := t.sessions[action.taskID];
               && b.deviceID == deviceID && b.sequence == action.sequence && b.updatedAt == now
               && if action.taskID in s.sessions then
                    var a := s.sessions[action.taskID];
                    && b.status == (if a.status in {Completed, Failed, Cancelled} then a.status else Executing)
                    && b.actions == a.actions + [action] && b.observations == a.observations && b.progress == a.progress
                    && b.userID == a.userID && b.conversationID == a.conversationID && b.activeSessions == a.activeSessions
                  else
                    b.status == Executing && b.actions == [action] && b.observations == [] && b.userID == ""
  {
    assert RecordAction(s, deviceID, action, now).sessions - {action.taskID} == s.sessions - {action.taskID};
  }

  /** A report of progress makes an open task execute too, and replaces the last report. */
  lemma ProgressExecutes(s: Tasks, taskID: string, progress: Progress, now: int)
    requires taskID in s.sessions
    ensures var t, a := RecordProgress(s, taskID, progress, now), s.sessions[taskID];
            && taskID in t.sessions && OnlyTask(s, t, taskID)
            && t.sessions[taskID] == Session(a.userID, a.conversationID, a.deviceID,
                                             if a.status in {Completed, Failed, Cancelled} then a.status else Executing,
                                             a.sequence, a.activeSessions, a.actions, a.observations, Some(progress), now)
  {
    assert RecordProgress(s, taskID, progress, now).sessions - {taskID} == s.sessions - {taskID};
  }

  /** The session family is what stands before the first dash, or "default". */
  lemma FamilyIsBeforeDash(sessionID: string, i: nat)
    requires i <= |sessionID| && '-' !in sessionID[..i]
    ensures i < |sessionID| && sessionID[i] == '-' ==> SessionFamily(sessionID) == sessionID[..i]
    ensures i == |sessionID| ==> SessionFamily(sessionID) == "default"
  {
    FamilySearch(sessionID, 0, i);
  }

  lemma {:induction false} FamilySearch(sessionID: string, i: nat, j: nat)
    requires i <= j <= |sessionID| && '-' !in sessionID[..j]
    ensures FamilyFrom(sessionID, i) == FamilyFrom(sessionID, j)
    decreases j - i
  {
    if i < j {
      assert sessionID[..j][i] == sessionID[i];
      FamilySearch(sessionID, i + 1, j);
    }
  }

  /** What is open in a user's conversation. */
  function OpenIn(s: Tasks, key: string): map<string, string> {
    if key in s.active then s.active[key] else map[]
  }

  /** An observation with a device session lists it, for the task and for its user's
      conversation, or drops its family if it reports that closing it succeeded. */
  lemma SessionsFollow(s: Tasks, taskID: string, o: Observation, now: int)
    requires taskID in s.sessions
    ensures var t, a, family := RecordObservation(s, taskID, o, now), s.sessions[taskID], SessionFamily(o.sessionID);
            var key := a.userID + ":" + a.conversationID;
            && taskID in t.sessions && t.sessions - {taskID} == s.sessions - {taskID}
            && t.sessions[taskID].observations == a.observations + [o]
            && t.sessions[taskID].actions == a.actions && t.sessions[taskID].userID == a.userID
            && if o.sessionID == "" then t.active == s.active && t.sessions[taskID].activeSessions == a.activeSessions
               else
                 && t.active - {key} == s.active - {key} && key in t.active
                 && if a.actions != [] && EndsWith(a.actions[|a.actions| - 1].capability, ".close") && o.status.ReportsSuccess?
                    then
                      t.sessions[taskID].activeSessions == a.activeSessions - {family} && t.active[key] == OpenIn(s, key) - {family}
                    else
                      && t.sessions[taskID].activeSessions == a.activeSessions[family := o.sessionID]
                      && t.active[key] == OpenIn(s, key)[family := o.sessionID]
  {
    var t := RecordObservation(s, taskID, o, now);
    assert t.sessions - {taskID} == s.sessions - {taskID};
    assert t.active - {ActiveKey(s.sessions[taskID])} == s.active - {ActiveKey(s.sessions[taskID])};
  }

  /** The step is an observation of this session family. */
  predicate Observes(step: Step, family: string) {
    step.DoRecordObservation? && step.observation.sessionID != "" && SessionFamily(step.observation.sessionID) == family
  }

  function ListedAs(s: Tasks, key: string, family: string): Option<string> {
    if family in OpenIn(s, key) then Some(OpenIn(s, key)[family]) else None
  }

  lemma StepKeepsListed(s: Tasks, step: Step, key: string, family: string)
    requires !Observes(step, family)
    ensures ListedAs(Apply(s, step), key, family) == ListedAs(s, key, family)
  {
  }

  /** What a conversation lists for a family changes only with an observation of that family. */
  lemma {:induction false} ListedUntilObserved(s: Tasks, steps: seq<Step>, key: string, family: string)
    requires forall k :: 0 <= k < |steps| ==> !Observes(steps[k], family)
    ensures ListedAs(Run(s, steps), key, family) == ListedAs(s, key, family)
    decreases |steps|
  {
    if steps != [] {
      StepKeepsListed(s, steps[0], key, family);
      ListedUntilObserved(Apply(s, steps[0]), steps[1..], key, family);
    }
  }

  // ---- What the hub keeps ------------------------------------------------------------------

  /** No observation kept in memory carries attachment data. */
  ghost predicate KeepsNoData(s: Tasks) {
    forall id, k :: id in s.sessions && 0 <= k < |s.sessions[id].observations| ==> NoData(s.sessions[id].observations[k])
  }

  /** What the store hands out of a task: its observations are rebuilt without attachments. */
  function FromStore(row: Session): Session {
    row.(observations := seq(|row.observations|, k requires 0 <= k < |row.observations| => row.observations[k].(attachments := [])))
  }

  /** The calls of the hub that touch observations, with what they are given: a device's
      observation as it came, a call that ended without one, a row of the store; and all others. */
  datatype Caller =
    | Observed(taskID: string, raw: Observation, now: int)
    | Ended(action: Action, outcome: ObservationStatus, now: int)
    | Loaded(taskID: string, row: Session)
    | Reloaded(taskID: string, row: Session, status: TaskStatus, now: int)
    | Other(step: Step)

  predicate TouchesNone(step: Step) {
    !step.DoRecordObservation? && !step.DoReload? && !step.DoLoadAbsent?
  }

  /** The section each of them runs: observations are stripped before they are recorded. */
  function SectionOf(caller: Caller): Step {
    match caller
    case Observed(taskID, raw, now) => DoRecordObservation(taskID, Safe(raw), now)
    case Ended(action, outcome, now) => DoRecordObservation(action.taskID, EndOf(action, outcome), now)
    case Loaded(taskID, row) => DoLoadAbsent(taskID, FromStore(row))
    case Reloaded(taskID, row, status, now) => DoReload(taskID, FromStore(row), status, now)
    case Other(step) => step
  }

  function Sections(callers: seq<Caller>): seq<Step> {
    if callers == [] then [] else [SectionOf(callers[0])] + Sections(callers[1..])
  }

  lemma StepKeepsNoData(s: Tasks, caller: Caller)
    requires KeepsNoData(s) && (caller.Other? ==> TouchesNone(caller.step))
    ensures KeepsNoData(Apply(s, SectionOf(caller)))
  {
  }

  /** Whatever devices send, no run leaves attachment data in memory. */
  lemma {:induction false} RunsKeepNoData(s: Tasks, callers: seq<Caller>)
    requires KeepsNoData(s) && forall k :: 0 <= k < |callers| && callers[k].Other? ==> TouchesNone(callers[k].step)
    ensures KeepsNoData(Run(s, Sections(callers)))
    decreases |callers|
  {
    if callers != [] {
      StepKeepsNoData(s, callers[0]);
      assert Sections(callers)[1..] == Sections(callers[1..]);
      RunsKeepNoData(Apply(s, SectionOf(callers[0])), callers[1..]);
    }
  }

  /** Every device session is listed under its own family. */
  predicate OwnFamilies(open: map<string, string>) {
    forall family :: family in open ==> open[family] != "" && SessionFamily(open[family]) == family
  }

  ghost predicate FamiliesMatch(s: Tasks) {
    && (forall key :: key in s.active ==> OwnFamilies(s.active[key]))
    && (forall id :: id in s.sessions ==> OwnFamilies(s.sessions[id].activeSessions))
  }

  /** The store returns open sessions as they were saved. */
  predicate LoadsOwnFamilies(step: Step) {
    step.DoReload? || step.DoLoadAbsent? ==> OwnFamilies(step.stored.activeSessions)
  }

  lemma StepFamilies(s: Tasks, step: Step)
    requires FamiliesMatch(s) && LoadsOwnFamilies(step)
    ensures FamiliesMatch(Apply(s, step))
  {
  }

  /** Over all runs, what a conversation or a task lists as its open browser or desktop
      session is a session of that family. */
  lemma {:induction false} RunsKeepFamilies(s: Tasks, steps: seq<Step>)
    requires FamiliesMatch(s) && forall k :: 0 <= k < |steps| ==> LoadsOwnFamilies(steps[k])
    ensures FamiliesMatch(Run(s, steps))
    decreases |steps|
  {
    if steps != [] {
      StepFamilies(s, steps[0]);
      RunsKeepFamilies(Apply(s, steps[0]), steps[1..]);
    }
  }
}
