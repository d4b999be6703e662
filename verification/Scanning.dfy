// What one scan does with all its tasks, told from the rows it starts with; and that the
// scan is what the transition system of many scanners says.
module Scanning {
  import opened Common
  import opened Scheduler
  import Cron

  /** The expression allows the time, the row is active, and its last slot is another one. */
  ghost predicate DueIn(rows: map<string, Row>, task: Task, now: Cron.Time) {
    && Cron.Matches(task.cron, now)
    && task.id in rows && rows[task.id].active && rows[task.id].lastSlot != Some(Slot(now))
  }

  /** The due tasks with their slots, in the order of the scan. */
  ghost function DueRuns(rows: map<string, Row>, tasks: seq<Task>, times: seq<Cron.Time>): seq<(string, int)>
    requires |times| == |tasks|
  {
    if tasks == [] then []
    else
      var n := |tasks| - 1;
      DueRuns(rows, tasks[..n], times[..n]) + if DueIn(rows, tasks[n], times[n]) then [(tasks[n].id, Slot(times[n]))] else []
  }

  predicate DistinctTasks(tasks: seq<Task>) {
    forall i, j :: 0 <= i < j < |tasks| ==> tasks[i].id != tasks[j].id
  }

  predicate Lists(tasks: seq<Task>, id: string) {
    exists i :: 0 <= i < |tasks| && tasks[i].id == id
  }

  lemma {:induction false} OtherRowsStay(s: Scan, tasks: seq<Task>, times: seq<Cron.Time>, id: string)
    requires |times| == |tasks| && !Lists(tasks, id)
    ensures var r := ScanAll(s, tasks, times).rows;
            (id in r <==> id in s.rows) && (id in r ==> r[id] == s.rows[id])
  {
    if tasks != [] {
      var n := |tasks| - 1;
      forall i | 0 <= i < n ensures tasks[..n][i].id != id {
        assert tasks[i].id != id;
      }
      OtherRowsStay(s, tasks[..n], times[..n], id);
    }
  }

  lemma LastIsNew(tasks: seq<Task>, n: nat)
    requires DistinctTasks(tasks) && n < |tasks|
    ensures DistinctTasks(tasks[..n]) && !Lists(tasks[..n], tasks[n].id)
  {
  }

  /** After a scan the row of a due task has its slot, and every other row is as it was. */
  lemma {:induction false} DueRowsClaimed(s: Scan, tasks: seq<Task>, times: seq<Cron.Time>, i: nat)
    requires |times| == |tasks| && DistinctTasks(tasks) && i < |tasks|
    ensures var r, id := ScanAll(s, tasks, times).rows, tasks[i].id;
            && (id in r <==> id in s.rows)
            && (id in r ==> r[id] == if DueIn(s.rows, tasks[i], times[i]) then Row(true, Some(Slot(times[i]))) else s.rows[id])
    decreases |tasks|
  {
    var n := |tasks| - 1;
    LastIsNew(tasks, n);
    if i == n {
      OtherRowsStay(s, tasks[..n], times[..n], tasks[n].id);
    } else {
      DueRowsClaimed(s, tasks[..n], times[..n], i);
      assert tasks[i].id != tasks[n].id;
    }
  }

  /** A scan starts the first due tasks, as many as there is room for: three less those running. */
  lemma {:induction false} FirstDueStart(s: Scan, tasks: seq<Task>, times: seq<Cron.Time>)
    requires |times| == |tasks| && DistinctTasks(tasks) && s.running <= 3
    ensures var due, r := DueRuns(s.rows, tasks, times), ScanAll(s, tasks, times);
            var n := Min(|due|, 3 - s.running);
            r.started == s.started + due[..n] && r.running == s.running + n
  {
    if tasks != [] {
      var n := |tasks| - 1;
      LastIsNew(tasks, n);
      FirstDueStart(s, tasks[..n], times[..n]);
      OtherRowsStay(s, tasks[..n], times[..n], tasks[n].id);
    }
  }

  // ---- The scan among other scanners -----------------------------------------------------------

  function Attempts(k: nat, tasks: seq<Task>, times: seq<Cron.Time>): seq<Step>
    requires |times| == |tasks|
  {
    seq(|tasks|, i requires 0 <= i < |tasks| => Attempt(k, tasks[i], times[i]))
  }

  lemma {:induction false} RunSnoc(w: World, steps: seq<Step>, step: Step)
    ensures Run(w, steps + [step]) == Apply(Run(w, steps), step)
    decreases |steps|
  {
    if steps == [] {
      assert [] + [step] == [step] && [step][1..] == [];
    } else {
      assert (steps + [step])[0] == steps[0] && (steps + [step])[1..] == steps[1..] + [step];
      RunSnoc(Apply(w, steps[0]), steps[1..], step);
    }
  }

  /** These claims are the runs that were started. */
  predicate AreStarted(claims: seq<(string, int)>, runs: seq<nat>, started: seq<(string, int)>) {
    |runs| == |started| && forall i :: 0 <= i < |runs| ==> runs[i] < |claims| && claims[runs[i]] == started[i]
  }

  /** v is w after service k has scanned: its rows and running count, and its new runs. */
  predicate HasScanned(w: World, k: nat, v: World, s: Scan)
    requires k < |w.running|
  {
    && v.rows == s.rows && v.running == w.running[k := s.running] && w.claims <= v.claims
    && w.runs <= v.runs && AreStarted(v.claims, v.runs[|w.runs|..], s.started)
  }

  lemma OneMoreStarted(claims: seq<(string, int)>, runs: seq<nat>, started: seq<(string, int)>, claim: (string, int))
    requires AreStarted(claims, runs, started)
    ensures AreStarted(claims + [claim], runs, started)
    ensures AreStarted(claims + [claim], runs + [|claims|], started + [claim])
  {
  }

  lemma ScanStep(w: World, k: nat, v: World, s: Scan, task: Task, now: Cron.Time)
    requires k < |w.running| && HasScanned(w, k, v, s)
    ensures HasScanned(w, k, Apply(v, Attempt(k, task, now)), Scanned(s, task, now))
  {
    OneMoreStarted(v.claims, v.runs[|w.runs|..], s.started, (task.id, Slot(now)));
    assert (v.runs + [|v.claims|])[|w.runs|..] == v.runs[|w.runs|..] + [|v.claims|];
  }

  /** A tick of a service that no other gets in between is its attempts one after the other. */
  lemma {:induction false} TickIsAttempts(w: World, k: nat, tasks: seq<Task>, times: seq<Cron.Time>)
    requires k < |w.running| && |times| == |tasks|
    ensures HasScanned(w, k, Run(w, Attempts(k, tasks, times)), ScanAll(Scan(w.rows, w.running[k], []), tasks, times))
  {
    if tasks != [] {
      var n := |tasks| - 1;
      TickIsAttempts(w, k, tasks[..n], times[..n]);
      assert Attempts(k, tasks, times) == Attempts(k, tasks[..n], times[..n]) + [Attempt(k, tasks[n], times[n])];
      RunSnoc(w, Attempts(k, tasks[..n], times[..n]), Attempt(k, tasks[n], times[n]));
      ScanStep(w, k, Run(w, Attempts(k, tasks[..n], times[..n])), ScanAll(Scan(w.rows, w.running[k], []), tasks[..n], times[..n]),
               tasks[n], times[n]);
    }
  }
}
