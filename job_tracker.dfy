/** The stage indicator of the book page's job tracker: a job snapshot is
    mapped to one of four pipeline stages (Queued, Processing, Generating,
    Done), or to -1 when the job failed. */
module JobTracker {
  import opened Seqs
  import opened Jobs
  import Tasks

  /** Number of stages shown: queued, started, generating, finished. */
  const StageCount := 4

  /** `getActiveStage`: "finished" and "failed" win; otherwise a progress of
      30 or more promotes the stage to Generating whatever the status label. */
  function ActiveStage(job: Job): (stage: int)
    ensures -1 <= stage <= 3
    ensures stage == -1 <==> job.status == "failed"
    ensures stage == 3 <==> job.status == "finished"
  {
    if job.status == "finished" then 3
    else if job.status == "failed" then -1
    else if job.progress >= 30 then 2
    else if job.status == "started" then 1
    else 0
  }

  /** Stage reached by the status label alone (minProgress column aside). */
  function LabelStage(status: string): int {
    if status == "finished" then 3 else if status == "started" then 1 else 0
  }

  /** Stage reached by the progress value alone. */
  function ProgressStage(progress: int): int {
    if progress >= 30 then 2 else 0
  }

  /** Reference reading of the precedence rule: unless the job failed, the
      shown stage is the furthest stage that either the label or the progress
      reaches, so progress can promote a stage but never demote one. */
  lemma ActiveStageIsFurthest(job: Job)
    requires job.status != "failed"
    ensures ActiveStage(job) == Max(LabelStage(job.status), ProgressStage(job.progress))
  {
  }

  function Max(a: int, b: int): int { if a >= b then a else b }

  /** For a fixed non-terminal status the stage never decreases as the
      progress grows. */
  lemma StageMonotoneInProgress(status: string, id: string, m: Option<string>, p: int, q: int)
    requires !IsTerminal(status) && p <= q
    ensures ActiveStage(Job(id, status, p, m)) <= ActiveStage(Job(id, status, q, m))
    ensures ActiveStage(Job(id, status, p, m)) >= 0
  {
  }

  /** Progress of 30 or more gives Generating for every non-terminal status,
      "queued" and "started" included; below 30 only "started" gives 1. */
  lemma ProgressOverridesLabel(job: Job)
    requires !IsTerminal(job.status)
    ensures job.progress >= 30 ==> ActiveStage(job) == 2
    ensures job.progress < 30 ==> (ActiveStage(job) == 1 <==> job.status == "started")
    ensures job.progress < 30 && job.status != "started" ==> ActiveStage(job) == 0
  {
  }

  /** The job as the poller receives the worker's row. */
  function Snapshot(id: string, row: Tasks.JobRow): Job {
    Job(id, row.status, row.progress, row.message)
  }

  /** The stage shown once the first `k` updates have been applied. */
  function StageAfter(rows: map<string, Tasks.JobRow>, id: string, ws: seq<Tasks.Update>, k: nat, now: int): int
    requires id in rows && k <= |ws|
  {
    ActiveStage(Snapshot(id, Tasks.ApplyAll(rows, ws[..k], now)[id]))
  }

  /** The stage an update that sets both status and progress leads to. */
  function WriteStage(u: Tasks.Update): int
    requires u.status.Some? && u.progress.Some?
  {
    ActiveStage(Job(u.jobId, u.status.value, u.progress.value, None))
  }

  /** An update of the job that sets status and progress alone decides the
      stage shown after it. */
  lemma StageAfterWrite(rows: map<string, Tasks.JobRow>, id: string, ws: seq<Tasks.Update>, k: nat, now: int)
    requires id in rows && k < |ws|
    requires ws[k].jobId == id && ws[k].status.Some? && ws[k].progress.Some?
    ensures StageAfter(rows, id, ws, k + 1, now) == WriteStage(ws[k])
  {
    assert ws[..k + 1] == ws[..k] + [ws[k]];
    Tasks.ApplyAllSnoc(rows, ws[..k], ws[k], now);
  }

  /** Along the writes of a successful job whose progress reports do not
      go backwards, the tracker only moves forward once the worker has
      started: Processing, then Generating from 30%, then Done. */
  lemma WrittenStagesNonDecreasing(rows: map<string, Tasks.JobRow>, id: string,
                                   events: seq<(int, string)>, now: int, k: nat)
    requires id in rows
    requires forall i, j :: 0 <= i < j < |events| ==> events[i].0 <= events[j].0
    requires 1 <= k < |events| + 2
    ensures var ws := Tasks.Writes(id, events, Tasks.Done);
            1 <= StageAfter(rows, id, ws, k, now) <= StageAfter(rows, id, ws, k + 1, now)
  {
    var ws := Tasks.Writes(id, events, Tasks.Done);
    var ps := Tasks.ProgressWrites(id, events);
    assert ws == [ws[0]] + ps + [ws[|ws| - 1]];
    StageAfterWrite(rows, id, ws, k - 1, now);
    StageAfterWrite(rows, id, ws, k, now);
    if k < |ws| - 1 {
      assert ws[k] == ps[k - 1];
      if k >= 2 {
        assert ws[k - 1] == ps[k - 2];
      }
    }
  }

  /** The freshly queued row shows Queued, the start write Processing, and
      the last write of a successful job Done. */
  lemma WrittenStagesEnds(rows: map<string, Tasks.JobRow>, id: string,
                          events: seq<(int, string)>, now: int)
    requires id in rows
    ensures var ws := Tasks.Writes(id, events, Tasks.Done);
            rows[id].status == "queued" && rows[id].progress < 30 ==>
              StageAfter(rows, id, ws, 0, now) == 0 && StageAfter(rows, id, ws, 1, now) == 1
    ensures var ws := Tasks.Writes(id, events, Tasks.Done);
            StageAfter(rows, id, ws, |ws|, now) == 3
  {
    var ws := Tasks.Writes(id, events, Tasks.Done);
    assert ws[..0] == [];
    StageAfterWrite(rows, id, ws, 0, now);
    StageAfterWrite(rows, id, ws, |ws| - 1, now);
  }

  /** `isDone` of the stage dot `i`. */
  function IsDone(i: int, job: Job): bool {
    var active := ActiveStage(job);
    i < active || (active == 3 && i == 3)
  }

  /** `isActive` of the stage dot `i`. */
  function IsActive(i: int, job: Job): bool {
    i == ActiveStage(job) && job.status != "failed"
  }

  /** Stage dots: a failed job shows no stage done and none active; a
      finished job shows all four done; otherwise exactly the stages before
      the active one are done and exactly the active one spins. */
  lemma StageDots(job: Job, i: int)
    requires 0 <= i < StageCount
    ensures job.status == "failed" ==> !IsDone(i, job) && !IsActive(i, job)
    ensures job.status == "finished" ==> IsDone(i, job)
    ensures !IsTerminal(job.status) ==>
              (IsDone(i, job) <==> i < ActiveStage(job)) &&
              (IsActive(i, job) <==> i == ActiveStage(job))
    ensures !(IsDone(i, job) && IsActive(i, job)) || i == 3
  {
  }

  /** The message line: the job's own message when it is non-empty, else a
      default that depends on whether the job failed. */
  function ShownMessage(job: Job): (text: string)
    ensures job.message.Some? && job.message.value != "" ==> text == job.message.value
    ensures !(job.message.Some? && job.message.value != "") ==>
              text == (if job.status == "failed" then "Generation failed" else "Waiting...")
  {
    if job.message.Some? && job.message.value != "" then job.message.value
    else if job.status == "failed" then "Generation failed"
    else "Waiting..."
  }
}
