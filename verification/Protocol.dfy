// Messages and task states of the Action/Observation protocol.
module Protocol {

  datatype TaskStatus =
    | Unset
    | Understanding
    | Planning
    | WaitingAction
    | WaitingApproval
    | Executing
    | Observing
    | Evaluating
    | WaitingUser
    | Completed
    | Failed
    | Cancelled
    | Unknown(text: string)

  datatype ObservationStatus =
    | ReportsSuccess
    | ReportsFailure
    | ReportsCancel
    | ReportsExpiry
    | ReportsBlock
    | AsksApproval
    | AsksUser

  datatype Attachment = Attachment(id: string, sha256: string, data: string)

  datatype Action = Action(
    taskID: string,
    actionID: string,
    sessionID: string,
    sequence: int,
    idempotencyKey: string,
    capability: string)

  datatype Observation = Observation(
    taskID: string,
    actionID: string,
    sessionID: string,
    sequence: int,
    status: ObservationStatus,
    attachments: seq<Attachment>)

  /** What a device reports while it works on an action. */
  datatype Progress = Progress(taskID: string, actionID: string, sequence: int, message: string)

  /** The observation written for a call that was cancelled or ran out of time. */
  function EndOf(action: Action, status: ObservationStatus): (r: Observation)
    ensures NoData(r)
  {
    Observation(action.taskID, action.actionID, action.sessionID, action.sequence, status, [])
  }

  predicate ValidTaskStatus(status: TaskStatus) {
    !status.Unset? && !status.Unknown?
  }

  predicate Terminal(status: TaskStatus) {
    status.Completed? || status.Failed? || status.Cancelled?
  }

  /** Whether a status write takes effect. */
  predicate CanTransition(current: TaskStatus, next: TaskStatus) {
    ValidTaskStatus(next) && (current.Unset? || current == next || !Terminal(current))
  }

  // ---- Attachments ---------------------------------------------------------------

  predicate NoData(o: Observation) {
    forall k :: 0 <= k < |o.attachments| ==> o.attachments[k].data == ""
  }

  /** The observation that may be kept: the same but for the attachments' data. */
  function Safe(o: Observation): (r: Observation)
    ensures NoData(r)
  {
    o.(attachments := seq(|o.attachments|, k requires 0 <= k < |o.attachments| => o.attachments[k].(data := "")))
  }

  /** kept says what o said, attachment by attachment, but for the attachments' data. */
  predicate IsWithoutData(kept: Observation, o: Observation) {
    && kept.taskID == o.taskID && kept.actionID == o.actionID && kept.sessionID == o.sessionID
    && kept.sequence == o.sequence && kept.status == o.status && |kept.attachments| == |o.attachments|
    && forall k :: 0 <= k < |o.attachments| ==>
         && kept.attachments[k].id == o.attachments[k].id && kept.attachments[k].sha256 == o.attachments[k].sha256
         && kept.attachments[k].data == ""
  }

  lemma SafeSaysTheSame(o: Observation)
    ensures IsWithoutData(Safe(o), o)
  {
    assert forall k :: 0 <= k < |o.attachments| ==> Safe(o).attachments[k] == o.attachments[k].(data := "");
  }

  method WithoutAttachmentData(o: Observation) returns (r: Observation)
    ensures r == Safe(o) && IsWithoutData(r, o)
  {
    var kept: seq<Attachment> := [];
    for i := 0 to |o.attachments|
      invariant |kept| == i
      invariant forall k :: 0 <= k < i ==> kept[k] == o.attachments[k].(data := "")
    {
      var attachment := o.attachments[i].(data := "");
      kept := kept + [attachment];
    }
    r := o.(attachments := kept);
  }

  // ---- Browser sessions -------------------------------------------------------------

  /** The part of a session id before its first dash. */
  function SessionFamily(sessionID: string): string {
    FamilyFrom(sessionID, 0)
  }

  function FamilyFrom(sessionID: string, i: nat): string
    requires i <= |sessionID|
    decreases |sessionID| - i
  {
    if i == |sessionID| then "default"
    else if sessionID[i] == '-' then sessionID[..i]
    else FamilyFrom(sessionID, i + 1)
  }

  predicate EndsWith(s: string, suffix: string) {
    |suffix| <= |s| && s[|s| - |suffix|..] == suffix
  }

  predicate Supports(capabilities: seq<string>, capability: string) {
    capability in capabilities
  }
}
