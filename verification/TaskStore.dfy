// Writing task snapshots behind the hub's back: SaveTask as three statements, each
// atomic, interleaved in any order with the statements of other SaveTask calls.
module TaskStore {
  import opened Common
  import opened Protocol
  import Hub

  datatype Fields = Fields(
    conversationID: string,
    userID: string,
    deviceID: string,
    sequence: int,
    activeSessions: map<string, string>,
    progress: Option<Progress>)

  /** What one SaveTask call writes of a task; updatedAt in milliseconds. */
  datatype Snapshot = Snapshot(fields: Fields, status: TaskStatus, updatedAt: int)

  // ---- The three statements --------------------------------------------------------------

  /** INSERT … ON CONFLICT DO NOTHING. */
  function Inserted(row: Option<Snapshot>, s: Snapshot): Option<Snapshot> {
    if row.None? then Some(s) else row
  }

  /** The first UPDATE: the fields of a snapshot that is not older. */
  function FieldsUpdated(row: Snapshot, s: Snapshot): Snapshot {
    if row.updatedAt <= s.updatedAt then row.(fields := s.fields, updatedAt := s.updatedAt) else row
  }

  /** The second UPDATE: a status that does not undo a final one. */
  function StatusUpdated(row: Snapshot, s: Snapshot): Snapshot {
    row.(status := if Terminal(row.status) then row.status else s.status)
  }

  class TaskRows {
    var rows: map<string, Snapshot>

    constructor ()
      ensures rows == map[]
    {
      rows := map[];
    }

    ghost function Row(taskID: string): Option<Snapshot>
      reads this
    {
      if taskID in rows then Some(rows[taskID]) else None
    }

    method Insert(taskID: string, s: Snapshot) returns (created: bool)
      modifies this
      ensures Row(taskID) == Inserted(old(Row(taskID)), s) && created == old(Row(taskID)).None?
      ensures forall id :: id != taskID ==> Row(id) == old(Row(id))
    {
      created := taskID !in rows;
      if created {
        rows := rows[taskID := s];
      }
    }

    method UpdateFields(taskID: string, s: Snapshot)
      modifies this
      ensures Row(taskID) == if old(Row(taskID)).None? then None else Some(FieldsUpdated(old(Row(taskID)).value, s))
      ensures forall id :: id != taskID ==> Row(id) == old(Row(id))
    {
      if taskID in rows && rows[taskID].updatedAt <= s.updatedAt {
        rows := rows[taskID := rows[taskID].(fields := s.fields, updatedAt := s.updatedAt)];
      }
    }

    method UpdateStatus(taskID: string, s: Snapshot)
      modifies this
      ensures Row(taskID) == if old(Row(taskID)).None? then None else Some(StatusUpdated(old(Row(taskID)).value, s))
      ensures forall id :: id != taskID ==> Row(id) == old(Row(id))
    {
      if taskID in rows {
        var status := if rows[taskID].status in [Completed, Failed, Cancelled] then rows[taskID].status else s.status;
        rows := rows[taskID := rows[taskID].(status := status)];
      }
    }

    /** One save with no other in between. */
    method SaveTask(taskID: string, s: Snapshot)
      modifies this
      ensures Row(taskID) == Some(if old(Row(taskID)).None? then s
                                  else StatusUpdated(FieldsUpdated(old(Row(taskID)).value, s), s))
      ensures forall id :: id != taskID ==> Row(id) == old(Row(id))
    {
      var created := Insert(taskID, s);
      if created {
        return;
      }
      UpdateFields(taskID, s);
      UpdateStatus(taskID, s);
    }
  }

  // ---- Interleaved saves -------------------------------------------------------------------

  datatype Phase = Waiting | Conflicted | FieldsWritten | Stored

  /** One task's row, and how far the save of each snapshot has come. */
  datatype World = World(row: Option<Snapshot>, phases: seq<Phase>)

  /** No save has begun; base is the row that an earlier process may have left. */
  function Start(base: Option<Snapshot>, n: nat): World {
    World(base, seq(n, _ => Waiting))
  }

  /** The next statement of save i. */
  function Step(w: World, snapshots: seq<Snapshot>, i: nat): (r: World)
    requires |w.phases| == |snapshots|
    ensures |r.phases| == |snapshots|
  {
    if i >= |snapshots| then w
    else match w.phases[i]
      case Waiting =>
        World(Inserted(w.row, snapshots[i]), w.phases[i := if w.row.None? then Stored else Conflicted])
      case Conflicted =>
        World(if w.row.None? then None else Some(FieldsUpdated(w.row.value, snapshots[i])), w.phases[i := FieldsWritten])
      case FieldsWritten =>
        World(if w.row.None? then None else Some(StatusUpdated(w.row.value, snapshots[i])), w.phases[i := Stored])
      case Stored => w
  }

  function Run(w: World, snapshots: seq<Snapshot>, order: seq<nat>): (r: World)
    requires |w.phases| == |snapshots|
    ensures |r.phases| == |snapshots|
    decreases |order|
  {
    if order == [] then w else Run(Step(w, snapshots, order[0]), snapshots, order[1..])
  }

  predicate IsStored(w: World, i: int) {
    0 <= i < |w.phases| && w.phases[i].Stored?
  }

  /** Save i has offered its fields. */
  predicate IsOffered(w: World, i: int) {
    0 <= i < |w.phases| && (w.phases[i].Stored? || w.phases[i].FieldsWritten?)
  }

  // The row's fields are those of a newest snapshot offered, or of the row there before.

  ghost predicate FieldsOf(base: Option<Snapshot>, w: World, snapshots: seq<Snapshot>)
    requires |w.phases| == |snapshots| && w.row.Some?
  {
    var row := w.row.value;
    || (base.Some? && base.value.fields == row.fields && base.value.updatedAt == row.updatedAt)
    || (exists i :: IsOffered(w, i) && snapshots[i].fields == row.fields && snapshots[i].updatedAt == row.updatedAt)
  }

  ghost predicate NewestFields(base: Option<Snapshot>, w: World, snapshots: seq<Snapshot>)
    requires |w.phases| == |snapshots|
  {
    match w.row
    case None => base.None? && forall i :: 0 <= i < |w.phases| ==> w.phases[i].Waiting?
    case Some(row) =>
      && FieldsOf(base, w, snapshots)
      && (base.Some? ==> base.value.updatedAt <= row.updatedAt)
      && (forall i :: IsOffered(w, i) ==> snapshots[i].updatedAt <= row.updatedAt)
  }

  lemma StepKeepsFields(base: Option<Snapshot>, w: World, snapshots: seq<Snapshot>, i: nat)
    requires |w.phases| == |snapshots| && NewestFields(base, w, snapshots)
    ensures NewestFields(base, Step(w, snapshots, i), snapshots)
  {
    var r := Step(w, snapshots, i);
    forall j | IsOffered(w, j) ensures IsOffered(r, j) {
    }
    if i < |snapshots| && IsOffered(r, i) && r.row.value.updatedAt == snapshots[i].updatedAt {
      assert w.row.None? || w.row.value.updatedAt <= snapshots[i].updatedAt;
    }
  }

  // The row's status is final if a stored snapshot's is, and is that of a stored one; a
  // final status that was there before stays.

  predicate Final(row: Option<Snapshot>) {
    row.Some? && Terminal(row.value.status)
  }

  ghost predicate SettledStatus(base: Option<Snapshot>, w: World, snapshots: seq<Snapshot>)
    requires |w.phases| == |snapshots|
  {
    && (base.Some? ==> w.row.Some?)
    && (w.row.None? ==> forall i :: 0 <= i < |w.phases| ==> w.phases[i].Waiting?)
    && (Final(base) ==> w.row.value.status == base.value.status)
    && (forall i :: IsStored(w, i) && Terminal(snapshots[i].status) ==> Final(w.row))
    && (!Final(base) && (exists i :: IsStored(w, i)) ==>
          w.row.Some? && exists i :: IsStored(w, i) && snapshots[i].status == w.row.value.status)
    && (base.Some? && (forall i :: !IsStored(w, i)) ==> w.row.value.status == base.value.status)
    && (base.None? && w.row.Some? ==> exists i :: IsStored(w, i))
  }

  lemma StepSettles(base: Option<Snapshot>, w: World, snapshots: seq<Snapshot>, i: nat)
    requires |w.phases| == |snapshots| && SettledStatus(base, w, snapshots)
    ensures SettledStatus(base, Step(w, snapshots, i), snapshots)
  {
    var r := Step(w, snapshots, i);
    forall j ensures IsStored(r, j) <==> IsStored(w, j) || (j == i && IsStored(r, i)) {
    }
  }

  lemma {:induction false} RunConverges(base: Option<Snapshot>, w: World, snapshots: seq<Snapshot>, order: seq<nat>)
    requires |w.phases| == |snapshots| && NewestFields(base, w, snapshots) && SettledStatus(base, w, snapshots)
    ensures NewestFields(base, Run(w, snapshots, order), snapshots)
    ensures SettledStatus(base, Run(w, snapshots, order), snapshots)
    decreases |order|
  {
    if order != [] {
      StepKeepsFields(base, w, snapshots, order[0]);
      StepSettles(base, w, snapshots, order[0]);
      RunConverges(base, Step(w, snapshots, order[0]), snapshots, order[1..]);
    }
  }

  predicate AllStored(w: World) {
    forall i :: 0 <= i < |w.phases| ==> w.phases[i].Stored?
  }

  /** No snapshot, nor the row there before, is newer than this one, and those as new have its fields. */
  predicate IsNewest(base: Option<Snapshot>, snapshots: seq<Snapshot>, s: Snapshot) {
    && (forall i :: 0 <= i < |snapshots| ==>
          snapshots[i].updatedAt < s.updatedAt || (snapshots[i].updatedAt == s.updatedAt && snapshots[i].fields == s.fields))
    && (base.Some? ==>
          base.value.updatedAt < s.updatedAt || (base.value.updatedAt == s.updatedAt && base.value.fields == s.fields))
    && (s in snapshots || base == Some(s))
  }

  /** Write-behind convergence: whatever row was there before and whatever the order of all
      statements of all saves, the fields end as in the newest of them, a final status
      stays, and otherwise the status is a snapshot's, final if one of them is. */
  lemma WritesConverge(base: Option<Snapshot>, snapshots: seq<Snapshot>, order: seq<nat>, newest: Snapshot)
    requires snapshots != [] && IsNewest(base, snapshots, newest)
    requires AllStored(Run(Start(base, |snapshots|), snapshots, order))
    ensures var row := Run(Start(base, |snapshots|), snapshots, order).row;
            && row.Some?
            && row.value.fields == newest.fields && row.value.updatedAt == newest.updatedAt
            && (Final(base) ==> row.value.status == base.value.status)
            && (!Final(base) ==> exists i :: 0 <= i < |snapshots| && snapshots[i].status == row.value.status)
            && (Terminal(row.value.status) <==> Final(base) || exists i :: 0 <= i < |snapshots| && Terminal(snapshots[i].status))
  {
    var w := Run(Start(base, |snapshots|), snapshots, order);
    RunConverges(base, Start(base, |snapshots|), snapshots, order);
    forall i | 0 <= i < |snapshots| ensures IsStored(w, i) && IsOffered(w, i) {
    }
    assert IsStored(w, 0);
    if !Final(base) {
      var g :| IsStored(w, g) && snapshots[g].status == w.row.value.status;
    }
  }

  // ---- Which status is left -------------------------------------------------------------------

  /** Every order of all statements leaves this status. */
  ghost predicate AlwaysLeaves(base: Option<Snapshot>, snapshots: seq<Snapshot>, status: TaskStatus) {
    forall order: seq<nat> :: AllStored(Run(Start(base, |snapshots|), snapshots, order)) ==>
      var row := Run(Start(base, |snapshots|), snapshots, order).row;
      row.Some? && row.value.status == status
  }

  /** A final status there before is the one; otherwise all others are the same, or are open while this one is final. */
  predicate Prevails(base: Option<Snapshot>, snapshots: seq<Snapshot>, status: TaskStatus) {
    if Final(base) then status == base.value.status
    else forall i :: 0 <= i < |snapshots| ==>
      snapshots[i].status == status || (Terminal(status) && !Terminal(snapshots[i].status))
  }

  /** The saves of xs one after the other. */
  function Thrice(xs: seq<nat>): seq<nat> {
    if xs == [] then [] else [xs[0], xs[0], xs[0]] + Thrice(xs[1..])
  }

  lemma {:induction false} RunSplit(w: World, snapshots: seq<Snapshot>, a: seq<nat>, b: seq<nat>)
    requires |w.phases| == |snapshots|
    ensures Run(w, snapshots, a + b) == Run(Run(w, snapshots, a), snapshots, b)
    decreases |a|
  {
    if a == [] {
      assert a + b == b;
    } else {
      assert (a + b)[0] == a[0] && (a + b)[1..] == a[1..] + b;
      RunSplit(Step(w, snapshots, a[0]), snapshots, a[1..], b);
    }
  }

  lemma ThreeSteps(w: World, snapshots: seq<Snapshot>, i: nat, j: nat, k: nat)
    requires |w.phases| == |snapshots|
    ensures Run(w, snapshots, [i, j, k]) == Step(Step(Step(w, snapshots, i), snapshots, j), snapshots, k)
  {
    assert [i, j, k][1..] == [j, k] && [j, k][1..] == [k] && [k][1..] == [];
    var a := Step(w, snapshots, i);
    assert Run(w, snapshots, [i, j, k]) == Run(a, snapshots, [j, k]);
    var b := Step(a, snapshots, j);
    assert Run(a, snapshots, [j, k]) == Run(b, snapshots, [k]);
  }

  lemma {:induction false} FinalStays(w: World, snapshots: seq<Snapshot>, order: seq<nat>)
    requires |w.phases| == |snapshots| && Final(w.row)
    ensures var row := Run(w, snapshots, order).row; row.Some? && row.value.status == w.row.value.status
    decreases |order|
  {
    if order != [] {
      FinalStays(Step(w, snapshots, order[0]), snapshots, order[1..]);
    }
  }

  /** A whole save on its own. */
  lemma WholeSave(w: World, snapshots: seq<Snapshot>, i: nat)
    requires |w.phases| == |snapshots| && i < |snapshots|
    ensures var r := Run(w, snapshots, [i, i, i]);
            && IsStored(r, i) && (forall j :: 0 <= j < |snapshots| && j != i ==> r.phases[j] == w.phases[j])
            && (w.phases[i].Waiting? ==>
                  r.row.Some? && r.row.value.status == if Final(w.row) then w.row.value.status else snapshots[i].status)
            && (w.row.Some? ==> r.row.Some?)
  {
    ThreeSteps(w, snapshots, i, i, i);
  }

  lemma {:induction false} WholeSaves(w: World, snapshots: seq<Snapshot>, xs: seq<nat>)
    requires |w.phases| == |snapshots|
    requires forall k :: 0 <= k < |xs| ==> xs[k] < |snapshots|
    requires w.row.Some? || forall i :: 0 <= i < |snapshots| ==> w.phases[i].Waiting?
    ensures var r := Run(w, snapshots, Thrice(xs));
            && (forall i :: 0 <= i < |snapshots| && (i in xs || IsStored(w, i)) ==> IsStored(r, i))
            && (forall i :: 0 <= i < |snapshots| && i !in xs ==> r.phases[i] == w.phases[i])
            && (xs != [] || w.row.Some? ==> r.row.Some?)
    decreases |xs|
  {
    if xs != [] {
      var a := Run(w, snapshots, [xs[0], xs[0], xs[0]]);
      WholeSave(w, snapshots, xs[0]);
      RunSplit(w, snapshots, [xs[0], xs[0], xs[0]], Thrice(xs[1..]));
      WholeSaves(a, snapshots, xs[1..]);
    }
  }

  function Others(n: nat, i: nat): (r: seq<nat>)
    ensures forall j: nat :: j in r <==> j < n && j != i
    ensures forall k :: 0 <= k < |r| ==> r[k] < n
  {
    if n == 0 then []
    else
      var rest := Others(n - 1, i);
      if n - 1 == i then rest else rest + [n - 1]
  }

  /** The save of a final status that comes first decides. */
  lemma FirstDecides(base: Option<Snapshot>, snapshots: seq<Snapshot>, i: nat) returns (order: seq<nat>)
    requires i < |snapshots| && !Final(base) && Terminal(snapshots[i].status)
    ensures var w := Run(Start(base, |snapshots|), snapshots, order);
            AllStored(w) && w.row.Some? && w.row.value.status == snapshots[i].status
  {
    var start := Start(base, |snapshots|);
    var a := Run(start, snapshots, [i, i, i]);
    var others := Others(|snapshots|, i);
    order := [i, i, i] + Thrice(others);
    WholeSave(start, snapshots, i);
    RunSplit(start, snapshots, [i, i, i], Thrice(others));
    WholeSaves(a, snapshots, others);
    FinalStays(a, snapshots, Thrice(others));
    var w := Run(start, snapshots, order);
    forall j: nat | j < |snapshots| ensures IsStored(w, j) && w.phases[j].Stored? {
      assert j == i || j in others;
    }
  }

  /** The save of an open status that comes last leaves it, or a final one. */
  lemma LastDecides(base: Option<Snapshot>, snapshots: seq<Snapshot>, i: nat) returns (order: seq<nat>)
    requires i < |snapshots|
    ensures var w := Run(Start(base, |snapshots|), snapshots, order);
            && AllStored(w) && w.row.Some?
            && (w.row.value.status == snapshots[i].status || Terminal(w.row.value.status))
  {
    var start := Start(base, |snapshots|);
    var others := Others(|snapshots|, i);
    var a := Run(start, snapshots, Thrice(others));
    order := Thrice(others) + [i, i, i];
    WholeSaves(start, snapshots, others);
    RunSplit(start, snapshots, Thrice(others), [i, i, i]);
    WholeSave(a, snapshots, i);
    var w := Run(start, snapshots, order);
    forall j: nat | j < |snapshots| ensures IsStored(w, j) && w.phases[j].Stored? {
      assert j == i || j in others;
    }
  }

  /** The stored status is that of snapshot k, in particular of the newest, in every order
      of the statements exactly when that status prevails over the others. */
  lemma StatusFollowsIff(base: Option<Snapshot>, snapshots: seq<Snapshot>, k: nat)
    requires k < |snapshots|
    ensures AlwaysLeaves(base, snapshots, snapshots[k].status) <==> Prevails(base, snapshots, snapshots[k].status)
  {
    var status := snapshots[k].status;
    var start := Start(base, |snapshots|);
    forall order: seq<nat> | AllStored(Run(start, snapshots, order))
      ensures var row := Run(start, snapshots, order).row;
              && row.Some? && (Final(base) ==> row.value.status == base.value.status)
              && (Prevails(base, snapshots, status) ==> row.value.status == status)
    {
      var w := Run(start, snapshots, order);
      RunConverges(base, start, snapshots, order);
      assert IsStored(w, k);
    }
    if Final(base) {
      var order := LastDecides(base, snapshots, k);
    } else {
      forall i | 0 <= i < |snapshots| && AlwaysLeaves(base, snapshots, status)
        ensures snapshots[i].status == status || (Terminal(status) && !Terminal(snapshots[i].status))
      {
        if Terminal(snapshots[i].status) {
          var order := FirstDecides(base, snapshots, i);
        } else {
          var order := LastDecides(base, snapshots, i);
        }
      }
    }
  }

  /** An open status is not ordered by time: an older save that comes last leaves its own. */
  lemma OpenStatusIsLastWritten(a: Snapshot, b: Snapshot)
    requires !Terminal(a.status) && !Terminal(b.status) && a.updatedAt < b.updatedAt
    ensures Run(Start(None, 2), [a, b], [0, 1, 1, 1]).row == Some(b)
    ensures Run(Start(None, 2), [a, b], [1, 0, 0, 0]).row == Some(b.(status := a.status))
    ensures AllStored(Run(Start(None, 2), [a, b], [0, 1, 1, 1])) && AllStored(Run(Start(None, 2), [a, b], [1, 0, 0, 0]))
  {
    var s := [a, b];
    assert [0, 1, 1, 1][1..] == [1, 1, 1] && [1, 0, 0, 0][1..] == [0, 0, 0];
    ThreeSteps(Step(Start(None, 2), s, 0), s, 1, 1, 1);
    ThreeSteps(Step(Start(None, 2), s, 1), s, 0, 0, 0);
  }

  // ---- The hub's snapshots ---------------------------------------------------------------------

  function Snap(session: Hub.Session): Snapshot {
    Snapshot(Fields(session.conversationID, session.userID, session.deviceID, session.sequence, session.activeSessions,
                    session.progress),
             session.status, session.updatedAt)
  }

  /** What the hub hands to SaveTask: the task as it stands after some of a run's sections. */
  ghost predicate TakenFrom(s: Hub.Tasks, steps: seq<Hub.Step>, taskID: string, snapshot: Snapshot, at: nat) {
    at <= |steps|
    && var t := Hub.Run(s, steps[..at]);
       taskID in t.sessions && snapshot == Snap(t.sessions[taskID])
  }

  lemma {:induction false} PrefixSafe(s: Hub.Tasks, steps: seq<Hub.Step>, i: nat)
    requires Hub.NoReloadOfResident(s, steps) && i <= |steps|
    ensures Hub.NoReloadOfResident(Hub.Run(s, steps[..i]), steps[i..])
    ensures Hub.Run(s, steps) == Hub.Run(Hub.Run(s, steps[..i]), steps[i..])
    decreases |steps|
  {
    if i == 0 {
      assert steps[0..] == steps && steps[..0] == [];
    } else {
      PrefixSafe(Hub.Apply(s, steps[0]), steps[1..], i - 1);
      assert steps[1..][..i - 1] == steps[..i][1..] && steps[1..][i - 1..] == steps[i..];
    }
  }

  lemma {:induction false} TruncatedSafe(s: Hub.Tasks, steps: seq<Hub.Step>, j: nat)
    requires Hub.NoReloadOfResident(s, steps) && j <= |steps|
    ensures Hub.NoReloadOfResident(s, steps[..j])
    decreases |steps|
  {
    if j > 0 {
      TruncatedSafe(Hub.Apply(s, steps[0]), steps[1..], j - 1);
      assert steps[..j][1..] == steps[1..][..j - 1];
    }
  }

  /** All final statuses that one run's snapshots carry are the same. */
  lemma SnapshotsAgree(s: Hub.Tasks, steps: seq<Hub.Step>, taskID: string, a: Snapshot, b: Snapshot, i: nat, j: nat)
    requires Hub.NoReloadOfResident(s, steps) && i <= j
    requires TakenFrom(s, steps, taskID, a, i) && TakenFrom(s, steps, taskID, b, j)
    ensures Terminal(a.status) ==> b.status == a.status
    ensures a.fields.userID != "" ==> b.fields.userID == a.fields.userID
  {
    var p := steps[..j];
    TruncatedSafe(s, steps, j);
    PrefixSafe(s, p, i);
    assert p[..i] == steps[..i];
    Hub.FirstOutcomeWins(Hub.Run(s, steps[..i]), p[i..]);
  }

  /** From lock to disk: whatever row was there before and however the saves of one run's
      snapshots interleave, a final status in the row stays, and otherwise the stored status
      is the task's one outcome as soon as a snapshot carries it. */
  lemma StoreKeepsOutcome(s: Hub.Tasks, steps: seq<Hub.Step>, taskID: string, at: seq<nat>, base: Option<Snapshot>,
                          snapshots: seq<Snapshot>, order: seq<nat>, k: nat)
    requires Hub.NoReloadOfResident(s, steps) && |at| == |snapshots|
    requires forall i :: 0 <= i < |at| ==> TakenFrom(s, steps, taskID, snapshots[i], at[i])
    requires AllStored(Run(Start(base, |snapshots|), snapshots, order))
    requires k < |snapshots| && Terminal(snapshots[k].status)
    ensures var row := Run(Start(base, |snapshots|), snapshots, order).row;
            row.Some? && row.value.status == if Final(base) then base.value.status else snapshots[k].status
  {
    var w := Run(Start(base, |snapshots|), snapshots, order);
    RunConverges(base, Start(base, |snapshots|), snapshots, order);
    assert IsStored(w, k);
    if !Final(base) {
      var g :| IsStored(w, g) && snapshots[g].status == w.row.value.status;
      if at[g] <= at[k] {
        SnapshotsAgree(s, steps, taskID, snapshots[g], snapshots[k], at[g], at[k]);
      } else {
        SnapshotsAgree(s, steps, taskID, snapshots[k], snapshots[g], at[k], at[g]);
      }
    }
  }

  // ---- The stored owner --------------------------------------------------------------------------

  /** The section that brings the task into memory does so for this owner: BeginTask does not
      ask the store, and an action recorded for an unknown task has no owner at all. */
  predicate OpenedFor(step: Hub.Step, owner: string) {
    match step
    case DoBegin(_, userID, _, _, _) => userID == owner
    case DoReload(_, stored, _, _) => stored.userID == owner
    case DoLoadAbsent(_, stored) => stored.userID == owner
    case _ => owner == ""
  }

  lemma OpenedForIsOwner(s: Hub.Tasks, step: Hub.Step, taskID: string)
    requires taskID !in s.sessions && taskID in Hub.Apply(s, step).sessions
    ensures OpenedFor(step, Hub.Apply(s, step).sessions[taskID].userID)
    ensures forall owner :: OpenedFor(step, owner) ==> owner == Hub.Apply(s, step).sessions[taskID].userID
  {
  }

  /** The task comes into memory with the section at this position. */
  ghost predicate OpensAt(s: Hub.Tasks, steps: seq<Hub.Step>, taskID: string, first: nat) {
    && first < |steps|
    && taskID !in Hub.Run(s, steps[..first]).sessions && taskID in Hub.Run(s, steps[..first + 1]).sessions
  }

  /** Snapshots of the task that a run can hand to SaveTask. */
  ghost predicate TakenAfter(s: Hub.Tasks, steps: seq<Hub.Step>, taskID: string, first: nat, snapshots: seq<Snapshot>, at: seq<nat>) {
    |at| == |snapshots| && forall i :: 0 <= i < |at| ==> first < at[i] && TakenFrom(s, steps, taskID, snapshots[i], at[i])
  }

  /** However the run's snapshots are saved over the row, its owner stays. */
  ghost predicate OwnerSurvives(s: Hub.Tasks, steps: seq<Hub.Step>, taskID: string, first: nat, base: Snapshot) {
    forall snapshots, at, order: seq<nat> ::
      TakenAfter(s, steps, taskID, first, snapshots, at) && AllStored(Run(Start(Some(base), |snapshots|), snapshots, order)) ==>
        var row := Run(Start(Some(base), |snapshots|), snapshots, order).row;
        row.Some? && row.value.fields.userID == base.fields.userID
  }

  lemma RunOneMore(s: Hub.Tasks, steps: seq<Hub.Step>, i: nat)
    requires Hub.NoReloadOfResident(s, steps) && i < |steps|
    ensures Hub.Run(s, steps[..i + 1]) == Hub.Apply(Hub.Run(s, steps[..i]), steps[i])
  {
    TruncatedSafe(s, steps, i + 1);
    PrefixSafe(s, steps[..i + 1], i);
    assert steps[..i + 1][..i] == steps[..i] && steps[..i + 1][i..] == [steps[i]];
    assert [steps[i]][1..] == [];
  }

  lemma SameOwnerSurvives(s: Hub.Tasks, steps: seq<Hub.Step>, taskID: string, first: nat, base: Snapshot,
                          snapshots: seq<Snapshot>, at: seq<nat>, order: seq<nat>)
    requires Hub.NoReloadOfResident(s, steps) && OpensAt(s, steps, taskID, first) && base.fields.userID != ""
    requires Hub.Run(s, steps[..first + 1]).sessions[taskID].userID == base.fields.userID
    requires TakenAfter(s, steps, taskID, first, snapshots, at)
    ensures var row := Run(Start(Some(base), |snapshots|), snapshots, order).row;
            row.Some? && row.value.fields.userID == base.fields.userID
  {
    var created := Snap(Hub.Run(s, steps[..first + 1]).sessions[taskID]);
    forall i | 0 <= i < |snapshots| ensures snapshots[i].fields.userID == base.fields.userID {
      SnapshotsAgree(s, steps, taskID, created, snapshots[i], first + 1, at[i]);
    }
    RunConverges(Some(base), Start(Some(base), |snapshots|), snapshots, order);
  }

  lemma OtherOwnerOverwrites(s: Hub.Tasks, steps: seq<Hub.Step>, taskID: string, first: nat, base: Snapshot)
    requires OpensAt(s, steps, taskID, first)
    requires var created := Hub.Run(s, steps[..first + 1]).sessions[taskID];
             created.userID != base.fields.userID && base.updatedAt <= created.updatedAt
    ensures !OwnerSurvives(s, steps, taskID, first, base)
  {
    var snapshots, at := [Snap(Hub.Run(s, steps[..first + 1]).sessions[taskID])], [first + 1];
    ThreeSteps(Start(Some(base), 1), snapshots, 0, 0, 0);
    assert TakenAfter(s, steps, taskID, first, snapshots, at);
    assert AllStored(Run(Start(Some(base), |snapshots|), snapshots, [0, 0, 0]));
  }

  /** After a start, the owner of a stored task survives exactly if the section that first
      brings the task into memory is for that owner: a BeginTask of the same user, or a load
      of the row, but not another user's BeginTask nor an action recorded before any. */
  lemma StoredOwnerSurvivesIff(s: Hub.Tasks, steps: seq<Hub.Step>, taskID: string, first: nat, base: Snapshot)
    requires Hub.NoReloadOfResident(s, steps) && OpensAt(s, steps, taskID, first)
    requires base.fields.userID != "" && base.updatedAt <= Hub.Run(s, steps[..first + 1]).sessions[taskID].updatedAt
    ensures OwnerSurvives(s, steps, taskID, first, base) <==> OpenedFor(steps[first], base.fields.userID)
  {
    RunOneMore(s, steps, first);
    OpenedForIsOwner(Hub.Run(s, steps[..first]), steps[first], taskID);
    if OpenedFor(steps[first], base.fields.userID) {
      forall snapshots, at, order: seq<nat> | TakenAfter(s, steps, taskID, first, snapshots, at)
        ensures var row := Run(Start(Some(base), |snapshots|), snapshots, order).row;
                row.Some? && row.value.fields.userID == base.fields.userID
      {
        SameOwnerSurvives(s, steps, taskID, first, base, snapshots, at, order);
      }
    } else {
      OtherOwnerOverwrites(s, steps, taskID, first, base);
    }
  }
}
