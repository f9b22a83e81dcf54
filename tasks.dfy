/** The worker side of a generation job: `_update_job` applies one partial
    update to a job row, and `generate_job` issues the sequence of updates
    the client's poller observes — started/1/"Starting", one "started" update
    per progress callback, then finished/100/"Done" or, when anything
    raised, failed with a "Failed: <type>: <text>" message.

    `Writes` and `GenerateJob` are the worker as evidently intended. As
    written, the engine call raises before the engine runs and a progress
    callback could never write; `AsWrittenOutcome`, `AsWrittenWrites` and
    `GenerateJobAsWritten` model that.

    The job table is a map from job id to row; the database session, the
    queue and the artifact engine are left out, the engine being replaced
    by the progress callbacks it made and the way it ended. The clock is the
    parameter `now`. */
module Tasks {
  import opened Seqs
  import opened Strings

  const MaxMessage := 512

  datatype JobRow = JobRow(status: string, progress: int, message: Option<string>, updatedAt: int)

  /** One call of `_update_job`: `None` arguments leave their field alone. */
  datatype Update = Update(jobId: string, status: Option<string>, progress: Option<int>, message: Option<string>)

  /** `message[:512]`. */
  function Truncate(m: string): (t: string)
    ensures |t| <= MaxMessage && |t| <= |m| && t == m[..|t|]
    ensures |m| <= MaxMessage ==> t == m
    ensures |m| > MaxMessage ==> |t| == MaxMessage
  {
    if |m| <= MaxMessage then m else m[..MaxMessage]
  }

  lemma TruncateIdempotent(m: string)
    ensures Truncate(Truncate(m)) == Truncate(m)
  {
  }

  /** The row rule of `_update_job` for an existing row. */
  function ApplyUpdate(row: JobRow, u: Update, now: int): (r: JobRow)
    ensures u.status.Some? ==> r.status == u.status.value
    ensures u.status.None? ==> r.status == row.status
    ensures u.progress.Some? ==> r.progress == u.progress.value
    ensures u.progress.None? ==> r.progress == row.progress
    ensures u.message.Some? ==> r.message.Some? && r.message.value == Truncate(u.message.value)
    ensures u.message.None? ==> r.message == row.message
    ensures r.updatedAt == now
  {
    JobRow(
      if u.status.Some? then u.status.value else row.status,
      if u.progress.Some? then u.progress.value else row.progress,
      if u.message.Some? then Some(Truncate(u.message.value)) else row.message,
      now)
  }

  /** `_update_job` on the table: an unknown id changes nothing. */
  function Apply(rows: map<string, JobRow>, u: Update, now: int): (r: map<string, JobRow>)
    ensures r.Keys == rows.Keys
    ensures u.jobId !in rows ==> r == rows
    ensures forall id :: id in rows && id != u.jobId ==> r[id] == rows[id]
    ensures u.jobId in rows ==> r[u.jobId] == ApplyUpdate(rows[u.jobId], u, now)
  {
    if u.jobId in rows then rows[u.jobId := ApplyUpdate(rows[u.jobId], u, now)] else rows
  }

  /** The updates applied in order. */
  function ApplyAll(rows: map<string, JobRow>, us: seq<Update>, now: int): (r: map<string, JobRow>)
    ensures r.Keys == rows.Keys
  {
    if us == [] then rows else Apply(ApplyAll(rows, us[..|us| - 1], now), us[|us| - 1], now)
  }

  /** Applying one more update applies it to the result of the others. */
  lemma ApplyAllSnoc(rows: map<string, JobRow>, done: seq<Update>, u: Update, now: int)
    ensures ApplyAll(rows, done + [u], now) == Apply(ApplyAll(rows, done, now), u, now)
  {
    assert (done + [u])[..|done + [u]| - 1] == done;
  }

  /** How the artifact engine ended. */
  datatype Outcome = Done | Raised(typeName: string, text: string)

  /** The updates `generate_job` issues, in order. */
  function Writes(id: string, events: seq<(int, string)>, outcome: Outcome): seq<Update>
  {
    [Update(id, Some("started"), Some(1), Some("Starting"))] +
    ProgressWrites(id, events) +
    [FinalWrite(id, outcome)]
  }

  /** `progress_cb(pct, msg)`: progress and message, status forced to
      "started". */
  function ProgressWrites(id: string, events: seq<(int, string)>): (us: seq<Update>)
    ensures |us| == |events|
    ensures forall i :: 0 <= i < |us| ==>
              us[i] == Update(id, Some("started"), Some(events[i].0), Some(events[i].1))
  {
    if events == [] then []
    else ProgressWrites(id, events[..|events| - 1]) +
         [Update(id, Some("started"), Some(events[|events| - 1].0), Some(events[|events| - 1].1))]
  }

  /** One more progress callback appends its write. */
  lemma ProgressSnoc(id: string, events: seq<(int, string)>, i: nat)
    requires i < |events|
    ensures ProgressWrites(id, events[..i + 1]) ==
              ProgressWrites(id, events[..i]) + [Update(id, Some("started"), Some(events[i].0), Some(events[i].1))]
  {
    assert events[..i + 1][..i] == events[..i];
  }

  /** What `generate_job` has done once the engine made its first `i`
      progress callbacks: the start write and those `i` progress writes,
      logged after `log0` and applied to `rows0`. */
  ghost predicate Issued(rows0: map<string, JobRow>, log0: seq<Update>, id: string,
                         events: seq<(int, string)>, i: nat, now: int,
                         rows: map<string, JobRow>, log: seq<Update>)
    requires i <= |events|
  {
    var done := [Update(id, Some("started"), Some(1), Some("Starting"))] + ProgressWrites(id, events[..i]);
    log == log0 + done && rows == ApplyAll(rows0, done, now)
  }

  /** One more progress callback keeps `Issued`. */
  lemma IssuedStep(rows0: map<string, JobRow>, log0: seq<Update>, id: string,
                   events: seq<(int, string)>, i: nat, now: int,
                   rows: map<string, JobRow>, log: seq<Update>)
    requires i < |events| && Issued(rows0, log0, id, events, i, now, rows, log)
    ensures var u := Update(id, Some("started"), Some(events[i].0), Some(events[i].1));
            Issued(rows0, log0, id, events, i + 1, now, Apply(rows, u, now), log + [u])
  {
    var u := Update(id, Some("started"), Some(events[i].0), Some(events[i].1));
    var first := Update(id, Some("started"), Some(1), Some("Starting"));
    var done := [first] + ProgressWrites(id, events[..i]);
    ProgressSnoc(id, events, i);
    ApplyAllSnoc(rows0, done, u, now);
    SnocAfter(log0, [first], ProgressWrites(id, events[..i]), ProgressWrites(id, events[..i + 1]), u);
  }

  lemma SnocAfter<T>(log0: seq<T>, a: seq<T>, b: seq<T>, b': seq<T>, u: T)
    requires b' == b + [u]
    ensures a + b + [u] == a + b' && log0 + (a + b) + [u] == log0 + (a + b')
  {
  }

  /** The final write after every callback completes `Writes`. */
  lemma IssuedLast(rows0: map<string, JobRow>, log0: seq<Update>, id: string,
                   events: seq<(int, string)>, outcome: Outcome, now: int,
                   rows: map<string, JobRow>, log: seq<Update>)
    requires Issued(rows0, log0, id, events, |events|, now, rows, log)
    ensures log + [FinalWrite(id, outcome)] == log0 + Writes(id, events, outcome)
    ensures Apply(rows, FinalWrite(id, outcome), now) == ApplyAll(rows0, Writes(id, events, outcome), now)
  {
    var done := [Update(id, Some("started"), Some(1), Some("Starting"))] + ProgressWrites(id, events[..|events|]);
    assert events[..|events|] == events;
    ApplyAllSnoc(rows0, done, FinalWrite(id, outcome), now);
  }

  function FinalWrite(id: string, outcome: Outcome): Update {
    match outcome
    case Done => Update(id, Some("finished"), Some(100), Some("Done"))
    case Raised(t, m) => Update(id, Some("failed"), None, Some("Failed: " + t + ": " + m))
  }

  /** The job id: the queue job's id, else the payload's truthy "job_id",
      else "unknown". */
  function ResolveJobId(queueJobId: Option<string>, payloadJobId: Option<string>): (id: string)
    ensures queueJobId.Some? ==> id == queueJobId.value
    ensures queueJobId.None? && payloadJobId.Some? && payloadJobId.value != "" ==> id == payloadJobId.value
    ensures queueJobId.None? && !(payloadJobId.Some? && payloadJobId.value != "") ==> id == "unknown"
  {
    if queueJobId.Some? then queueJobId.value
    else if payloadJobId.Some? && payloadJobId.value != "" then payloadJobId.value
    else "unknown"
  }

  /** What the poller sees: every update before the last says "started",
      and the first is started/1/"Starting"; the last says "finished" with
      100 and "Done", or "failed" with no progress and a "Failed: " message. */
  lemma {:induction false} WritesSequence(id: string, events: seq<(int, string)>, outcome: Outcome)
    ensures var ws := Writes(id, events, outcome);
            |ws| == |events| + 2 &&
            ws[0] == Update(id, Some("started"), Some(1), Some("Starting")) &&
            (forall i :: 0 <= i < |ws| - 1 ==> ws[i].status == Some("started") && ws[i].jobId == id) &&
            (outcome.Done? ==> ws[|ws| - 1] == Update(id, Some("finished"), Some(100), Some("Done"))) &&
            (outcome.Raised? ==> ws[|ws| - 1].status == Some("failed") && ws[|ws| - 1].progress.None? &&
                                 StartsWith(ws[|ws| - 1].message.value, "Failed: "))
  {
    var ws := Writes(id, events, outcome);
    var ps := ProgressWrites(id, events);
    assert ws == [ws[0]] + ps + [ws[|ws| - 1]];
    forall i | 0 <= i < |ws| - 1 ensures ws[i].status == Some("started") && ws[i].jobId == id {
      if i > 0 {
        assert ws[i] == ps[i - 1];
      }
    }
    if outcome.Raised? {
      var msg := "Failed: " + outcome.typeName + ": " + outcome.text;
      assert msg[..|"Failed: "|] == "Failed: ";
    }
  }

  /** Updates addressed to other job ids leave a row alone. */
  lemma {:induction false} ApplyAllOthers(rows: map<string, JobRow>, us: seq<Update>, now: int, id: string)
    requires forall i :: 0 <= i < |us| ==> us[i].jobId != id
    ensures id in rows ==> ApplyAll(rows, us, now)[id] == rows[id]
  {
    if us != [] {
      ApplyAllOthers(rows, us[..|us| - 1], now, id);
    }
  }

  /** The row a completed `generate_job` leaves behind: finished/100/"Done"
      on success; on failure status "failed", the message truncated, and
      the progress last written — the last callback's, else 1. */
  lemma FinalRow(rows: map<string, JobRow>, id: string, events: seq<(int, string)>, outcome: Outcome, now: int)
    requires id in rows
    ensures var r := ApplyAll(rows, Writes(id, events, outcome), now)[id];
            r.updatedAt == now &&
            (outcome.Done? ==> r.status == "finished" && r.progress == 100 && r.message == Some("Done")) &&
            (outcome.Raised? ==>
               r.status == "failed" &&
               r.progress == (if events == [] then 1 else events[|events| - 1].0) &&
               r.message == Some(Truncate("Failed: " + outcome.typeName + ": " + outcome.text)))
  {
    var ws := Writes(id, events, outcome);
    var init := ws[..|ws| - 1];
    assert ApplyAll(rows, ws, now) == Apply(ApplyAll(rows, init, now), ws[|ws| - 1], now);
    if outcome.Raised? {
      var before := ApplyAll(rows, init, now);
      if events == [] {
        assert init == [ws[0]];
        assert ApplyAll(rows, init, now) == Apply(ApplyAll(rows, [], now), ws[0], now);
      } else {
        assert init[..|init| - 1] + [init[|init| - 1]] == init;
        assert init[|init| - 1] == ProgressWrites(id, events)[|events| - 1];
      }
    }
  }

  /** The keyword parameters of `generate_artifacts` after the session: it
      has no catch-all, so any other keyword makes the call raise. */
  const EngineKeywords: set<string> :=
    {"book_id", "chapter_index", "outputs", "difficulty", "tone", "length",
     "include_code", "provider_name", "model", "temperature", "progress_cb"}

  /** The keys of the enqueued payload, the generation request's fields in
      declaration order. */
  const PayloadKeys: seq<string> :=
    ["book_id", "chapter_index", "outputs", "difficulty", "tone", "length",
     "include_code", "provider", "model", "temperature"]

  /** Keyword binding: the first passed keyword the callee does not accept. */
  function Unexpected(keys: seq<string>, accepted: set<string>): (k: Option<string>)
    ensures k.None? <==> forall i :: 0 <= i < |keys| ==> keys[i] in accepted
    ensures k.Some? ==> k.value in keys && k.value !in accepted
  {
    if keys == [] then None
    else if keys[0] !in accepted then Some(keys[0])
    else Unexpected(keys[1..], accepted)
  }

  /** The keyword reported is the first one not accepted. */
  lemma {:induction false} UnexpectedIsFirst(keys: seq<string>, accepted: set<string>, i: nat)
    requires i < |keys| && keys[i] !in accepted
    requires forall j :: 0 <= j < i ==> keys[j] in accepted
    ensures Unexpected(keys, accepted) == Some(keys[i])
  {
    if i > 0 {
      UnexpectedIsFirst(keys[1..], accepted, i - 1);
    }
  }

  /** The payload names the provider `provider`, not `provider_name`. */
  lemma PayloadHasUnexpectedProvider()
    ensures Unexpected(PayloadKeys, EngineKeywords) == Some("provider")
  {
    assert forall k :: k in EngineKeywords ==> |k| != 8;
    assert forall i :: 0 <= i < 7 ==> PayloadKeys[i] in EngineKeywords;
    UnexpectedIsFirst(PayloadKeys, EngineKeywords, 7);
  }

  /** The TypeError text for an unexpected keyword `k`. */
  function UnexpectedKeywordText(k: string): string {
    "generate_artifacts() got an unexpected keyword argument '" + k + "'"
  }

  /** How the engine call ends as `generate_job` is written. A payload key
      the engine does not accept raises TypeError at the call, before the
      engine runs. Otherwise the first progress callback raises
      RuntimeError: it hands the update to `run_until_complete` of the loop
      that is already running the engine, which refuses before the update
      is scheduled. Only an engine that makes no callback ends its own way. */
  function AsWrittenOutcome(keys: seq<string>, events: seq<(int, string)>, outcome: Outcome): (o: Outcome)
    ensures Unexpected(keys, EngineKeywords).Some? ==>
              o == Raised("TypeError", UnexpectedKeywordText(Unexpected(keys, EngineKeywords).value))
    ensures Unexpected(keys, EngineKeywords).None? && events != [] ==>
              o == Raised("RuntimeError", "This event loop is already running")
    ensures Unexpected(keys, EngineKeywords).None? && events == [] ==> o == outcome
  {
    match Unexpected(keys, EngineKeywords)
    case Some(k) => Raised("TypeError", UnexpectedKeywordText(k))
    case None => if events != [] then Raised("RuntimeError", "This event loop is already running") else outcome
  }

  /** The updates `generate_job` issues as written: no callback ever writes,
      so there is the start write and the final write only. */
  function AsWrittenWrites(id: string, keys: seq<string>, events: seq<(int, string)>, outcome: Outcome): seq<Update>
  {
    Writes(id, [], AsWrittenOutcome(keys, events, outcome))
  }

  /** As written, every enqueued job ends failed at progress 1 with the
      TypeError about `provider`, whatever the engine would have done. */
  lemma AsWrittenJobFails(rows: map<string, JobRow>, id: string, events: seq<(int, string)>, outcome: Outcome, now: int)
    requires id in rows
    ensures var r := ApplyAll(rows, AsWrittenWrites(id, PayloadKeys, events, outcome), now)[id];
            r.status == "failed" && r.progress == 1 &&
            r.message == Some(Truncate("Failed: " + "TypeError" + ": " + UnexpectedKeywordText("provider")))
    ensures |AsWrittenWrites(id, PayloadKeys, events, outcome)| == 2
  {
    PayloadHasUnexpectedProvider();
    FinalRow(rows, id, [], AsWrittenOutcome(PayloadKeys, events, outcome), now);
  }

  /** With the provider key renamed, a job whose engine reports progress
      still ends failed at progress 1, now with the RuntimeError of the
      callback, where the intended run ends finished at 100. */
  lemma CallbackRaises(rows: map<string, JobRow>, id: string, events: seq<(int, string)>, now: int)
    requires id in rows && events != []
    ensures var keys := PayloadKeys[7 := "provider_name"];
            var r := ApplyAll(rows, AsWrittenWrites(id, keys, events, Done), now)[id];
            r.status == "failed" && r.progress == 1 &&
            r.message == Some(Truncate("Failed: " + "RuntimeError" + ": " + "This event loop is already running"))
    ensures ApplyAll(rows, Writes(id, events, Done), now)[id].status == "finished"
  {
    var keys := PayloadKeys[7 := "provider_name"];
    assert forall i :: 0 <= i < |keys| ==> keys[i] in EngineKeywords;
    FinalRow(rows, id, [], AsWrittenOutcome(keys, events, Done), now);
    FinalRow(rows, id, events, Done, now);
  }

  class JobTable {
    var rows: map<string, JobRow>
    /** Every update issued, in order. */
    var log: seq<Update>

    constructor (initial: map<string, JobRow>)
      ensures rows == initial && log == []
    {
      rows, log := initial, [];
    }

    /** `_update_job`. */
    method UpdateJob(u: Update, now: int)
      modifies this
      ensures rows == Apply(old(rows), u, now)
      ensures log == old(log) + [u]
    {
      log := log + [u];
      if u.jobId !in rows {
        return;
      }
      var row := rows[u.jobId];
      if u.status.Some? {
        row := row.(status := u.status.value);
      }
      if u.progress.Some? {
        row := row.(progress := u.progress.value);
      }
      if u.message.Some? {
        row := row.(message := Some(Truncate(u.message.value)));
      }
      row := row.(updatedAt := now);
      rows := rows[u.jobId := row];
    }

    /** `generate_job` for job `id`, given the progress callbacks the engine
        made and how it ended; a raise is re-raised after the failure write
        (`reraised`). */
    method GenerateJob(id: string, events: seq<(int, string)>, outcome: Outcome, now: int)
      returns (reraised: bool)
      modifies this
      ensures reraised <==> outcome.Raised?
      ensures log == old(log) + Writes(id, events, outcome)
      ensures rows == ApplyAll(old(rows), Writes(id, events, outcome), now)
    {
      ghost var rows0, log0 := rows, log;
      var first := Update(id, Some("started"), Some(1), Some("Starting"));
      UpdateJob(first, now);
      ApplyAllSnoc(rows0, [], first, now);
      assert events[..0] == [];
      var i := 0;
      while i < |events|
        invariant 0 <= i <= |events|
        invariant Issued(rows0, log0, id, events, i, now, rows, log)
      {
        var u := Update(id, Some("started"), Some(events[i].0), Some(events[i].1));
        IssuedStep(rows0, log0, id, events, i, now, rows, log);
        UpdateJob(u, now);
        i := i + 1;
      }
      IssuedLast(rows0, log0, id, events, outcome, now, rows, log);
      UpdateJob(FinalWrite(id, outcome), now);
      reraised := outcome.Raised?;
    }

    /** `generate_job` as written, for a payload with keys `keys`: the
        engine's callbacks never reach the table. */
    method GenerateJobAsWritten(id: string, keys: seq<string>, events: seq<(int, string)>, outcome: Outcome, now: int)
      returns (reraised: bool)
      modifies this
      ensures reraised <==> AsWrittenOutcome(keys, events, outcome).Raised?
      ensures log == old(log) + AsWrittenWrites(id, keys, events, outcome)
      ensures rows == ApplyAll(old(rows), AsWrittenWrites(id, keys, events, outcome), now)
    {
      var ended := AsWrittenOutcome(keys, events, outcome);
      reraised := GenerateJob(id, [], ended, now);
    }
  }
}
