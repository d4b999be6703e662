// Scheduled tasks: scanners claim a minute slot of a task with one conditional UPDATE
// and run what they claimed, at most three runs at a time in each service.
module Scheduler {
  import opened Common
  import Cron

  const MAX_RUNNING := 3

  /** The columns of a task row that the claim touches; no slot yet is None. */
  datatype Row = Row(active: bool, lastSlot: Option<int>)

  datatype Task = Task(id: string, cron: string)

  /** A local minute as the digits year, month, day, hour, minute. */
  function Slot(t: Cron.Time): int {
    (((t.year * 100 + t.month) * 100 + t.day) * 100 + t.hour) * 100 + t.minute
  }

  predicate Earlier(a: Cron.Time, b: Cron.Time) {
    || a.year < b.year
    || (a.year == b.year && a.month < b.month)
    || (a.year == b.year && a.month == b.month && a.day < b.day)
    || (a.year == b.year && a.month == b.month && a.day == b.day && a.hour < b.hour)
    || (a.year == b.year && a.month == b.month && a.day == b.day && a.hour == b.hour && a.minute < b.minute)
  }

  predicate TwoDigits(t: Cron.Time) {
    0 <= t.month < 100 && 0 <= t.day < 100 && 0 <= t.hour < 100 && 0 <= t.minute < 100
  }

  lemma Digits(a: int, x: int, b: int, y: int)
    requires 0 <= x < 100 && 0 <= y < 100
    ensures a * 100 + x < b * 100 + y <==> a < b || (a == b && x < y)
  {
  }

  /** Slots are ordered like the minutes they stand for. */
  lemma SlotOrder(a: Cron.Time, b: Cron.Time)
    requires TwoDigits(a) && TwoDigits(b)
    ensures Slot(a) < Slot(b) <==> Earlier(a, b)
  {
    var (a1, b1) := (a.year * 100 + a.month, b.year * 100 + b.month);
    var (a2, b2) := (a1 * 100 + a.day, b1 * 100 + b.day);
    var (a3, b3) := (a2 * 100 + a.hour, b2 * 100 + b.hour);
    Digits(a.year, a.month, b.year, b.month);
    Digits(a1, a.day, b1, b.day);
    Digits(a2, a.hour, b2, b.hour);
    Digits(a3, a.minute, b3, b.minute);
  }

  // ---- The claim ---------------------------------------------------------------------------

  predicate Claimable(rows: map<string, Row>, id: string, slot: int) {
    id in rows && rows[id].active && rows[id].lastSlot != Some(slot)
  }

  function Claimed(rows: map<string, Row>, id: string, slot: int): map<string, Row> {
    if Claimable(rows, id, slot) then rows[id := rows[id].(lastSlot := Some(slot))] else rows
  }

  class TaskTable {
    var rows: map<string, Row>

    constructor (rows: map<string, Row>)
      ensures this.rows == rows
    {
      this.rows := rows;
    }

    /** UPDATE … WHERE status is active and last_slot is another one; true if a row was affected. */
    method Claim(id: string, slot: int) returns (affected: bool)
      modifies this
      ensures affected == Claimable(old(rows), id, slot) && rows == Claimed(old(rows), id, slot)
    {
      affected := false;
      if id in rows && rows[id].active && rows[id].lastSlot != Some(slot) {
        rows := rows[id := rows[id].(lastSlot := Some(slot))];
        affected := true;
      }
    }
  }

  // ---- One scan ----------------------------------------------------------------------------

  datatype Scan = Scan(rows: map<string, Row>, running: nat, started: seq<(string, int)>)

  /** What the scan does with its i-th task at the time it reads then. */
  ghost function Scanned(s: Scan, task: Task, now: Cron.Time): Scan {
    if !Cron.Matches(task.cron, now) || !Claimable(s.rows, task.id, Slot(now)) then s
    else
      var rows := Claimed(s.rows, task.id, Slot(now));
      if s.running < MAX_RUNNING then Scan(rows, s.running + 1, s.started + [(task.id, Slot(now))])
      else s.(rows := rows)
  }

  ghost function ScanAll(s: Scan, tasks: seq<Task>, times: seq<Cron.Time>): Scan
    requires |times| == |tasks|
  {
    if tasks == [] then s
    else
      var n := |tasks| - 1;
      Scanned(ScanAll(s, tasks[..n], times[..n]), tasks[n], times[n])
  }

  class Service {
    const table: TaskTable
    var running: nat

    constructor (table: TaskTable)
      ensures this.table == table && running == 0
    {
      this.table, running := table, 0;
    }

    /** One tick over the active tasks it found, other services aside; times are what the clock says at each task. */
    method Tick(tasks: seq<Task>, times: seq<Cron.Time>) returns (started: seq<(string, int)>)
      requires |times| == |tasks| && running <= MAX_RUNNING
      modifies this, table
      ensures Scan(table.rows, running, started) == ScanAll(Scan(old(table.rows), old(running), []), tasks, times)
      ensures running <= MAX_RUNNING
    {
      started := [];
      ghost var s := Scan(table.rows, running, []);
      assert tasks[..0] == [];
      for i := 0 to |tasks|
        invariant running <= MAX_RUNNING
        invariant Scan(table.rows, running, started) == ScanAll(s, tasks[..i], times[..i])
      {
        assert tasks[..i + 1][..i] == tasks[..i] && times[..i + 1][..i] == times[..i];
        var due := Cron.CronMatches(tasks[i].cron, times[i]);
        if !due {
          continue;
        }
        var slot := Slot(times[i]);
        var affected := table.Claim(tasks[i].id, slot);
        if !affected {
          continue;
        }
        if running < MAX_RUNNING {
          running := running + 1;
          started := started + [(tasks[i].id, slot)];
        }
      }
      assert tasks[..|tasks|] == tasks && times[..|times|] == times;
    }

    method Finish()
      requires running > 0
      modifies this`running
      ensures running == old(running) - 1
    {
      running := running - 1;
    }
  }

  /** The run is of the i-th task, whose time its expression allows and whose slot was free just then. */
  ghost predicate WasDue(s: Scan, tasks: seq<Task>, times: seq<Cron.Time>, i: nat, run: (string, int))
    requires |times| == |tasks| && i < |tasks|
  {
    && run == (tasks[i].id, Slot(times[i]))
    && Cron.Matches(tasks[i].cron, times[i])
    && Claimable(ScanAll(s, tasks[..i], times[..i]).rows, tasks[i].id, Slot(times[i]))
  }

  lemma ScannedStarts(s: Scan, task: Task, now: Cron.Time)
    ensures var r := Scanned(s, task, now);
            || r.started == s.started
            || (r.started == s.started + [(task.id, Slot(now))]
                && Cron.Matches(task.cron, now) && Claimable(s.rows, task.id, Slot(now)))
  {
  }

  lemma DueInPrefix(s: Scan, tasks: seq<Task>, times: seq<Cron.Time>, n: nat, i: nat, run: (string, int))
    requires |times| == |tasks| && i < n <= |tasks| && WasDue(s, tasks[..n], times[..n], i, run)
    ensures WasDue(s, tasks, times, i, run)
  {
    assert tasks[..n][..i] == tasks[..i] && times[..n][..i] == times[..i];
  }

  /** Every run that a scan starts is of a task that was due and whose slot it had just claimed. */
  lemma {:induction false} StartedWasDue(s: Scan, tasks: seq<Task>, times: seq<Cron.Time>, k: nat) returns (i: nat)
    requires |times| == |tasks| && |s.started| <= k < |ScanAll(s, tasks, times).started|
    ensures i < |tasks| && WasDue(s, tasks, times, i, ScanAll(s, tasks, times).started[k])
    decreases |tasks|
  {
    var n := |tasks| - 1;
    var before := ScanAll(s, tasks[..n], times[..n]);
    ScannedStarts(before, tasks[n], times[n]);
    if k < |before.started| {
      i := StartedWasDue(s, tasks[..n], times[..n], k);
      DueInPrefix(s, tasks, times, n, i, before.started[k]);
    } else {
      i := n;
    }
  }

  // ---- Any number of scanners ----------------------------------------------------------------

  datatype Step =
    | Attempt(service: nat, task: Task, now: Cron.Time)
    | Activate(id: string, active: bool)
    | EndRun(service: nat)

  /** claims lists the successful claims in order, causes the task and the time each was
      made with; runs lists which of them were run. */
  datatype World = World(
    rows: map<string, Row>,
    running: seq<nat>,
    claims: seq<(string, int)>,
    causes: seq<(Task, Cron.Time)>,
    runs: seq<nat>)

  /** A scanner tries a task at a time: the expression must allow it and the slot be free. */
  ghost predicate Succeeding(w: World, k: nat, task: Task, now: Cron.Time) {
    k < |w.running| && Cron.Matches(task.cron, now) && Claimable(w.rows, task.id, Slot(now))
  }

  ghost function Apply(w: World, step: Step): World {
    match step
    case Attempt(k, task, now) =>
      if !Succeeding(w, k, task, now) then w
      else
        var next := w.(rows := Claimed(w.rows, task.id, Slot(now)), claims := w.claims + [(task.id, Slot(now))],
                       causes := w.causes + [(task, now)]);
        if w.running[k] < MAX_RUNNING
        then next.(running := w.running[k := w.running[k] + 1], runs := w.runs + [|w.claims|])
        else next
    case Activate(id, active) =>
      if id in w.rows then w.(rows := w.rows[id := w.rows[id].(active := active)]) else w
    case EndRun(k) =>
      if k < |w.running| && w.running[k] > 0 then w.(running := w.running[k := w.running[k] - 1]) else w
  }

  ghost function Run(w: World, steps: seq<Step>): World
    decreases |steps|
  {
    if steps == [] then w else Run(Apply(w, steps[0]), steps[1..])
  }

  function Start(rows: map<string, Row>, services: nat): World {
    World(rows, seq(services, _ => 0), [], [], [])
  }

  /** No claim of the same task follows position i. */
  predicate IsLast(claims: seq<(string, int)>, i: int) {
    0 <= i < |claims| && forall j :: i < j < |claims| ==> claims[j].0 != claims[i].0
  }

  /** The row remembers its task's last claim, and a slot is claimed again only after another one. */
  ghost predicate Remembers(w: World) {
    && (forall i :: IsLast(w.claims, i) ==> w.claims[i].0 in w.rows && w.rows[w.claims[i].0].lastSlot == Some(w.claims[i].1))
    && (forall i, j :: 0 <= i < j < |w.claims| && w.claims[i] == w.claims[j] ==> OtherBetween(w.claims, i, j))
  }

  predicate OtherBetween(claims: seq<(string, int)>, i: int, j: int)
    requires 0 <= i < j < |claims|
  {
    exists k :: i < k < j && claims[k].0 == claims[i].0 && claims[k].1 != claims[i].1
  }

  predicate RunsAreClaims(w: World) {
    && (forall k :: 0 <= k < |w.running| ==> w.running[k] <= MAX_RUNNING)
    && (forall r :: 0 <= r < |w.runs| ==> w.runs[r] < |w.claims|)
    && (forall r, q :: 0 <= r < q < |w.runs| ==> w.runs[r] < w.runs[q])
  }

  /** The last claim of a task that has one after position i. */
  lemma LastAfter(claims: seq<(string, int)>, i: int, j: int) returns (k: int)
    requires 0 <= i <= j < |claims| && claims[j].0 == claims[i].0
    ensures j <= k && IsLast(claims, k) && claims[k].0 == claims[i].0
    decreases |claims| - j
  {
    if IsLast(claims, j) {
      k := j;
    } else {
      var m :| j < m < |claims| && claims[m].0 == claims[j].0;
      k := LastAfter(claims, i, m);
    }
  }

  lemma ClaimSeparates(w: World, id: string, slot: int, i: int)
    requires Remembers(w) && Claimable(w.rows, id, slot)
    requires 0 <= i < |w.claims| && w.claims[i] == (id, slot)
    ensures OtherBetween(w.claims + [(id, slot)], i, |w.claims|)
  {
    var k := LastAfter(w.claims, i, i);
    assert (w.claims + [(id, slot)])[k] == w.claims[k];
  }

  lemma ClaimRemembered(w: World, id: string, slot: int)
    requires Remembers(w) && Claimable(w.rows, id, slot)
    ensures Remembers(w.(rows := Claimed(w.rows, id, slot), claims := w.claims + [(id, slot)]))
  {
    var claims := w.claims + [(id, slot)];
    forall i | IsLast(claims, i)
      ensures claims[i].0 in w.rows && Claimed(w.rows, id, slot)[claims[i].0].lastSlot == Some(claims[i].1)
    {
      if i < |w.claims| {
        assert claims[|w.claims|].0 != claims[i].0;
        assert forall j :: i < j < |w.claims| ==> claims[j] == w.claims[j];
        assert IsLast(w.claims, i);
      }
    }
    forall i, j | 0 <= i < j < |claims| && claims[i] == claims[j]
      ensures OtherBetween(claims, i, j)
    {
      if j == |w.claims| {
        ClaimSeparates(w, id, slot, i);
      } else {
        assert OtherBetween(w.claims, i, j);
        var k :| i < k < j && w.claims[k].0 == w.claims[i].0 && w.claims[k].1 != w.claims[i].1;
        assert claims[k] == w.claims[k];
      }
    }
  }

  lemma StepRemembers(w: World, step: Step)
    requires Remembers(w)
    ensures Remembers(Apply(w, step))
  {
    if step.Attempt? && Succeeding(w, step.service, step.task, step.now) {
      ClaimRemembered(w, step.task.id, Slot(step.now));
    }
  }

  lemma StepRuns(w: World, step: Step)
    requires RunsAreClaims(w)
    ensures RunsAreClaims(Apply(w, step))
  {
  }

  /** Every claim was made at a minute that the task's expression allows, for the slot of that minute. */
  ghost predicate ClaimsAreDue(w: World) {
    |w.causes| == |w.claims| && forall i :: 0 <= i < |w.claims| ==> IsDue(w.claims[i], w.causes[i])
  }

  ghost predicate IsDue(claim: (string, int), cause: (Task, Cron.Time)) {
    claim == (cause.0.id, Slot(cause.1)) && Cron.Matches(cause.0.cron, cause.1)
  }

  lemma StepDue(w: World, step: Step)
    requires ClaimsAreDue(w)
    ensures ClaimsAreDue(Apply(w, step))
  {
  }

  lemma {:induction false} RunKeeps(w: World, steps: seq<Step>)
    requires Remembers(w) && RunsAreClaims(w) && ClaimsAreDue(w)
    ensures Remembers(Run(w, steps)) && RunsAreClaims(Run(w, steps)) && ClaimsAreDue(Run(w, steps))
    decreases |steps|
  {
    if steps != [] {
      StepRemembers(w, steps[0]);
      StepRuns(w, steps[0]);
      StepDue(w, steps[0]);
      RunKeeps(Apply(w, steps[0]), steps[1..]);
    }
  }

  predicate InSlotOrder(claims: seq<(string, int)>) {
    forall i, j :: 0 <= i < j < |claims| && claims[i].0 == claims[j].0 ==> claims[i].1 <= claims[j].1
  }

  lemma DisorderBetween(claims: seq<(string, int)>, i: nat, j: nat)
    requires i < j < |claims| && claims[i] == claims[j] && OtherBetween(claims, i, j)
    ensures !InSlotOrder(claims)
  {
    var k :| i < k < j && claims[k].0 == claims[i].0 && claims[k].1 != claims[i].1;
  }

  /** Across any number of scanners: a slot of a task is claimed twice only with another
      slot of it in between, so never when its claims come in slot order. */
  lemma ClaimedAtMostOnce(rows: map<string, Row>, services: nat, steps: seq<Step>, i: nat, j: nat)
    requires var w := Run(Start(rows, services), steps);
             i < j < |w.claims| && w.claims[i] == w.claims[j]
    ensures var w := Run(Start(rows, services), steps);
            OtherBetween(w.claims, i, j) && !InSlotOrder(w.claims)
  {
    RunKeeps(Start(rows, services), steps);
    DisorderBetween(Run(Start(rows, services), steps).claims, i, j);
  }

  /** Each run of each scanner belongs to a claim of its own, made at a minute that its
      task's expression allows, and no service has more than three. */
  lemma RunsFollowClaims(rows: map<string, Row>, services: nat, steps: seq<Step>)
    ensures var w := Run(Start(rows, services), steps);
            && (forall k :: 0 <= k < |w.running| ==> w.running[k] <= MAX_RUNNING)
            && |w.causes| == |w.claims|
            && (forall r :: 0 <= r < |w.runs| ==> w.runs[r] < |w.claims| && IsDue(w.claims[w.runs[r]], w.causes[w.runs[r]]))
            && (forall r, q :: 0 <= r < q < |w.runs| ==> w.runs[r] != w.runs[q])
  {
    RunKeeps(Start(rows, services), steps);
  }

  /** When claims come in slot order, no two runs are of one task and slot. */
  lemma RunsAreUnique(rows: map<string, Row>, services: nat, steps: seq<Step>, r: nat, q: nat)
    requires var w := Run(Start(rows, services), steps);
             r < q < |w.runs| && InSlotOrder(w.claims)
    ensures var w := Run(Start(rows, services), steps);
            w.runs[r] < |w.claims| && w.runs[q] < |w.claims| && w.claims[w.runs[r]] != w.claims[w.runs[q]]
  {
    RunKeeps(Start(rows, services), steps);
    var w := Run(Start(rows, services), steps);
    if w.claims[w.runs[r]] == w.claims[w.runs[q]] {
      ClaimedAtMostOnce(rows, services, steps, w.runs[r], w.runs[q]);
    }
  }

  // ---- Exactly when a slot is claimed twice --------------------------------------------------------

  /** The slot that a step tries to claim for this task: the task is due, and active. */
  ghost function Tried(w: World, step: Step, id: string): Option<int> {
    if step.Attempt? && step.task.id == id && step.service < |w.running| && Cron.Matches(step.task.cron, step.now)
       && id in w.rows && w.rows[id].active
    then Some(Slot(step.now)) else None
  }

  function Listed(slot: Option<int>): seq<int> {
    if slot.Some? then [slot.value] else []
  }

  /** All slots that a run of any number of scanners tries for the task, in order. */
  ghost function AllTried(w: World, steps: seq<Step>, id: string): seq<int>
    decreases |steps|
  {
    if steps == [] then []
    else Listed(Tried(w, steps[0], id)) + AllTried(Apply(w, steps[0]), steps[1..], id)
  }

  /** The slot in the task's row. */
  function LastSlot(rows: map<string, Row>, id: string): Option<int> {
    if id in rows then rows[id].lastSlot else None
  }

  /** Of the slots tried, those that differ from the one before. */
  function Taken(last: Option<int>, tried: seq<int>): seq<int>
    decreases |tried|
  {
    if tried == [] then []
    else (if last == Some(tried[0]) then [] else [tried[0]]) + Taken(Some(tried[0]), tried[1..])
  }

  /** What a try changes. */
  function Kept(last: Option<int>, t: Option<int>): Option<int> {
    if t.Some? then t else last
  }

  function New(last: Option<int>, t: Option<int>): seq<int> {
    if t != last then Listed(t) else []
  }

  lemma TakenNext(last: Option<int>, t: Option<int>, rest: seq<int>)
    ensures Taken(last, Listed(t) + rest) == New(last, t) + Taken(Kept(last, t), rest)
  {
    if t.Some? {
      assert (Listed(t) + rest)[1..] == rest;
    } else {
      assert Listed(t) + rest == rest;
    }
  }

  /** The slots claimed for the task. */
  function OwnClaims(claims: seq<(string, int)>, id: string): seq<int> {
    if claims == [] then []
    else
      var n := |claims| - 1;
      OwnClaims(claims[..n], id) + if claims[n].0 == id then [claims[n].1] else []
  }

  lemma {:induction false} OwnClaimsCount(claims: seq<(string, int)>, id: string, slot: int)
    ensures multiset(OwnClaims(claims, id))[slot] == multiset(claims)[(id, slot)]
  {
    if claims != [] {
      var n := |claims| - 1;
      assert claims == claims[..n] + [claims[n]];
      OwnClaimsCount(claims[..n], id, slot);
    }
  }

  lemma OwnClaimsSnoc(claims: seq<(string, int)>, claim: (string, int), id: string)
    ensures OwnClaims(claims + [claim], id) == OwnClaims(claims, id) + if claim.0 == id then [claim.1] else []
  {
    assert (claims + [claim])[..|claims|] == claims;
  }

  lemma StepSlot(w: World, step: Step, id: string)
    ensures LastSlot(Apply(w, step).rows, id) == Kept(LastSlot(w.rows, id), Tried(w, step, id))
  {
  }

  ghost predicate Succeeds(w: World, step: Step) {
    step.Attempt? && Succeeding(w, step.service, step.task, step.now)
  }

  lemma StepClaims(w: World, step: Step)
    ensures Apply(w, step).claims
            == if Succeeds(w, step) then w.claims + [(step.task.id, Slot(step.now))] else w.claims
  {
  }

  lemma NewIsSuccess(w: World, step: Step, id: string)
    ensures New(LastSlot(w.rows, id), Tried(w, step, id))
            == if Succeeds(w, step) && step.task.id == id then [Slot(step.now)] else []
  {
  }

  lemma StepTakes(w: World, step: Step, id: string)
    ensures OwnClaims(Apply(w, step).claims, id) == OwnClaims(w.claims, id) + New(LastSlot(w.rows, id), Tried(w, step, id))
  {
    StepClaims(w, step);
    NewIsSuccess(w, step, id);
    if Succeeds(w, step) {
      OwnClaimsSnoc(w.claims, (step.task.id, Slot(step.now)), id);
    }
    assert OwnClaims(w.claims, id) + [] == OwnClaims(w.claims, id);
  }

  /** What is claimed for a task in a run is what differs, among what is tried, from the slot before. */
  lemma {:induction false} ClaimsAreTaken(w: World, steps: seq<Step>, id: string)
    ensures OwnClaims(Run(w, steps).claims, id)
            == OwnClaims(w.claims, id) + Taken(LastSlot(w.rows, id), AllTried(w, steps, id))
    decreases |steps|
  {
    if steps != [] {
      ClaimsAreTaken(Apply(w, steps[0]), steps[1..], id);
      StepTakes(w, steps[0], id);
      StepSlot(w, steps[0], id);
      var (last, t) := (LastSlot(w.rows, id), Tried(w, steps[0], id));
      var rest := AllTried(Apply(w, steps[0]), steps[1..], id);
      TakenNext(last, t, rest);
      ConcatAssociative(OwnClaims(w.claims, id), New(last, t), Taken(Kept(last, t), rest));
    }
  }

  /** How often the slot is tried after another one. */
  function Switches(last: Option<int>, tried: seq<int>, slot: int): nat
    decreases |tried|
  {
    if tried == [] then 0
    else (if tried[0] == slot && last != Some(slot) then 1 else 0) + Switches(Some(tried[0]), tried[1..], slot)
  }

  lemma {:induction false} TakenSwitches(last: Option<int>, tried: seq<int>, slot: int)
    ensures multiset(Taken(last, tried))[slot] == Switches(last, tried, slot)
    decreases |tried|
  {
    if tried != [] {
      TakenSwitches(Some(tried[0]), tried[1..], slot);
    }
  }

  /** Position i has the slot, and it was another one before. */
  predicate SwitchedBy(last: Option<int>, tried: seq<int>, slot: int, i: int) {
    0 <= i < |tried| && tried[i] == slot && (last != Some(slot) || exists p :: 0 <= p < i && tried[p] != slot)
  }

  lemma {:induction false} FirstSwitch(last: Option<int>, tried: seq<int>, slot: int) returns (i: nat)
    requires Switches(last, tried, slot) >= 1
    ensures SwitchedBy(last, tried, slot, i)
    ensures Switches(last, tried, slot) == 1 + Switches(Some(slot), tried[i + 1..], slot)
    decreases |tried|
  {
    if tried[0] == slot && last != Some(slot) {
      i := 0;
    } else {
      var j := FirstSwitch(Some(tried[0]), tried[1..], slot);
      i := j + 1;
      assert tried[1..][j + 1..] == tried[i + 1..];
      if last == Some(slot) {
        SwitchedLater(tried, slot, j);
      }
    }
  }

  lemma SwitchedLater(tried: seq<int>, slot: int, j: nat)
    requires tried != [] && SwitchedBy(Some(tried[0]), tried[1..], slot, j)
    ensures exists p :: 0 <= p < j + 1 && tried[p] != slot
  {
    if tried[0] == slot {
      var p :| 0 <= p < j && tried[1..][p] != slot;
      assert tried[p + 1] != slot;
    }
  }

  lemma {:induction false} SwitchCounts(last: Option<int>, tried: seq<int>, slot: int, i: nat)
    requires SwitchedBy(last, tried, slot, i)
    ensures Switches(last, tried, slot) >= 1 + Switches(Some(slot), tried[i + 1..], slot)
    decreases |tried|
  {
    if i > 0 {
      assert tried[1..][i..] == tried[i + 1..];
      if tried[0] == slot && last != Some(slot) {
        SwitchesFrom(tried[1..], slot, i - 1);
      } else {
        if tried[0] == slot {
          var p :| 0 <= p < i && tried[p] != slot;
          assert tried[1..][p - 1] != slot;
        }
        SwitchCounts(Some(tried[0]), tried[1..], slot, i - 1);
      }
    }
  }

  /** Leaving out what comes before the slot is tried loses no later switch. */
  lemma {:induction false} SwitchesFrom(tried: seq<int>, slot: int, i: nat)
    requires i < |tried| && tried[i] == slot
    ensures Switches(Some(slot), tried, slot) >= Switches(Some(slot), tried[i + 1..], slot)
    decreases |tried|
  {
    if i > 0 {
      assert tried[1..][i..] == tried[i + 1..];
      if tried[0] == slot {
        SwitchesFrom(tried[1..], slot, i - 1);
      } else {
        SwitchCounts(Some(tried[0]), tried[1..], slot, i - 1);
      }
    }
  }

  /** The slot is tried after another one, and again after another one: last is what the row has at first. */
  ghost predicate ComesBack(last: Option<int>, tried: seq<int>, slot: int) {
    exists i, k, j :: SwitchedBy(last, tried, slot, i) && i < k < j < |tried| && tried[k] != slot && tried[j] == slot
  }

  lemma TwoSwitches(last: Option<int>, tried: seq<int>, slot: int)
    ensures Switches(last, tried, slot) >= 2 <==> ComesBack(last, tried, slot)
  {
    if Switches(last, tried, slot) >= 2 {
      var i := FirstSwitch(last, tried, slot);
      var rest := tried[i + 1..];
      var j := FirstSwitch(Some(slot), rest, slot);
      var p :| 0 <= p < j && rest[p] != slot;
      assert tried[i + 1 + p] != slot && tried[i + 1 + j] == slot;
    }
    if i, k, j :| SwitchedBy(last, tried, slot, i) && i < k < j < |tried| && tried[k] != slot && tried[j] == slot {
      var rest := tried[i + 1..];
      SwitchCounts(last, tried, slot, i);
      assert rest[k - i - 1] != slot;
      SwitchCounts(Some(slot), rest, slot, j - i - 1);
    }
  }

  lemma ClaimsFromStart(rows: map<string, Row>, services: nat, steps: seq<Step>, id: string)
    ensures var w := Start(rows, services);
            OwnClaims(Run(w, steps).claims, id) == Taken(LastSlot(rows, id), AllTried(w, steps, id))
  {
    var w := Start(rows, services);
    ClaimsAreTaken(w, steps, id);
    assert OwnClaims(w.claims, id) == [];
  }

  lemma ClaimsAreSwitches(claims: seq<(string, int)>, id: string, last: Option<int>, tried: seq<int>, slot: int)
    requires OwnClaims(claims, id) == Taken(last, tried)
    ensures multiset(claims)[(id, slot)] == Switches(last, tried, slot)
  {
    OwnClaimsCount(claims, id, slot);
    TakenSwitches(last, tried, slot);
  }

  /** Over every run of any number of scanners, from whatever rows: a slot of a task is
      claimed twice exactly when it is tried after another one and again after another one,
      where the row's slot at the start counts as one before. */
  lemma TwiceClaimedIff(rows: map<string, Row>, services: nat, steps: seq<Step>, id: string, slot: int)
    ensures var w := Start(rows, services);
            multiset(Run(w, steps).claims)[(id, slot)] >= 2 <==> ComesBack(LastSlot(rows, id), AllTried(w, steps, id), slot)
  {
    var w := Start(rows, services);
    ClaimsFromStart(rows, services, steps, id);
    ClaimsAreSwitches(Run(w, steps).claims, id, LastSlot(rows, id), AllTried(w, steps, id), slot);
    TwoSwitches(LastSlot(rows, id), AllTried(w, steps, id), slot);
  }
}
