/** The `useJob` hook of the web client: one polling loop per effect run.
    Each run fetches the job, stores the snapshot, and then either calls the
    completion callback (terminal status) or re-arms a timer; a failed fetch
    re-arms a longer timer, with no retry limit. Cleanup sets the run's
    `cancelled` flag and clears its timer.

    Time and the network are events: `TimerFires`, `FetchSucceeds` and
    `FetchFails` may be called in any order the environment chooses, each
    only for a timer or a fetch that exists. A run is an epoch: run `r` is
    not cancelled exactly when `live == Some(r)`. */
module UseJob {
  import opened Seqs
  import opened Jobs

  /** Re-arm delays in milliseconds. */
  const SuccessDelay := 1200
  const FailureDelay := 2000

  /** One call of the completion callback: which run made it and which
      callback (identified by a token) it called. */
  datatype Completion = Completion(run: nat, callback: Option<nat>)

  /** The runs that have called the completion callback. */
  ghost function CompletedRuns(cs: seq<Completion>): set<nat> {
    set i | 0 <= i < |cs| :: cs[i].run
  }

  /** The hook's invariant, over the values of its fields. */
  ghost predicate Consistent(mounted: bool, jobId: Option<string>, runs: nat, live: Option<nat>,
                             inFlight: set<nat>, timers: map<nat, nat>, completions: seq<Completion>)
  {
    // a loop runs exactly while the job id is truthy
    (live.Some? <==> mounted && Truthy(jobId)) &&
    (live.Some? ==> live.value < runs) &&
    (forall r :: r in inFlight ==> r < runs) &&
    (forall i :: 0 <= i < |completions| ==> completions[i].run < runs) &&
    // only the live run can have an armed timer, and only one thing at a time
    (forall r :: r in timers ==> live == Some(r) && r !in inFlight) &&
    // a run that completed has nothing left pending
    (forall r :: r in CompletedRuns(completions) ==> r !in inFlight && r !in timers) &&
    // the completion callback is called at most once per run
    (forall i, j :: 0 <= i < j < |completions| ==> completions[i].run != completions[j].run) &&
    // the live loop is never silently dropped: it has a fetch or a timer
    // pending unless it completed
    (live.Some? ==> live.value in inFlight || live.value in timers || live.value in CompletedRuns(completions))
  }

  /** A new job id that is truthy cancels the live run, clears the timers
      and starts run `runs` with its fetch in flight. */
  lemma RestartKeeps(jobId: Option<string>, runs: nat, live: Option<nat>, inFlight: set<nat>,
                     timers: map<nat, nat>, completions: seq<Completion>, id: Option<string>)
    requires Consistent(true, jobId, runs, live, inFlight, timers, completions) && Truthy(id)
    ensures Consistent(true, id, runs + 1, Some(runs), inFlight + {runs}, map[], completions)
  {
    assert runs !in CompletedRuns(completions);
  }

  /** A new job id that is falsy cancels the live run and clears the
      timers. */
  lemma StopKeeps(jobId: Option<string>, runs: nat, live: Option<nat>, inFlight: set<nat>,
                  timers: map<nat, nat>, completions: seq<Completion>, id: Option<string>)
    requires Consistent(true, jobId, runs, live, inFlight, timers, completions) && !Truthy(id)
    ensures Consistent(true, id, runs, None, inFlight, map[], completions)
  {
  }

  class JobHook {
    /** False once the component has unmounted. */
    var mounted: bool
    /** The `jobId` argument of the latest render. */
    var jobId: Option<string>
    /** The `job` and `error` state of the hook. */
    var job: Option<Job>
    var error: Option<string>
    /** `onCompleteRef.current`: the callback of the latest render. */
    var onCompleteRef: Option<nat>
    /** Number of effect runs so far; run ids are 0 .. runs - 1. */
    var runs: nat
    /** The run whose `cancelled` flag is still false, if any. */
    var live: Option<nat>
    /** Runs with an unresolved `getJob` call. */
    var inFlight: set<nat>
    /** Armed, uncleared timers: run -> delay. */
    var timers: map<nat, nat>
    /** Every call of the completion callback, in order. */
    var completions: seq<Completion>

    ghost predicate Valid()
      reads this
    {
      Consistent(mounted, jobId, runs, live, inFlight, timers, completions)
    }

    /** Mounting: the first render, then the effect. */
    constructor (id: Option<string>, onComplete: Option<nat>)
      ensures Valid()
      ensures mounted && jobId == id && job == None && error == None && onCompleteRef == onComplete
      ensures completions == [] && timers == map[]
      ensures Truthy(id) ==> live == Some(0) && inFlight == {0} && runs == 1
      ensures !Truthy(id) ==> live == None && inFlight == {} && runs == 0
    {
      mounted, jobId, job, error, onCompleteRef := true, id, None, None, onComplete;
      completions, timers := [], map[];
      if Truthy(id) {
        live, inFlight, runs := Some(0), {0}, 1;
      } else {
        live, inFlight, runs := None, {}, 0;
      }
    }

    /** A later render. The ref always takes the newest callback. When the
        job id changed, the old run is cancelled and its timer cleared before
        a new run (if the id is truthy) clears `error` and fetches. The
        snapshot of the previous job is kept. */
    method Render(id: Option<string>, onComplete: Option<nat>)
      requires Valid() && mounted
      modifies this
      ensures Valid() && mounted
      ensures onCompleteRef == onComplete && jobId == id
      ensures job == old(job) && completions == old(completions)
      ensures id == old(jobId) ==>
                live == old(live) && runs == old(runs) && error == old(error) &&
                inFlight == old(inFlight) && timers == old(timers)
      ensures id != old(jobId) && Truthy(id) ==>
                live == Some(old(runs)) && runs == old(runs) + 1 && error == None &&
                inFlight == old(inFlight) + {old(runs)} && timers == map[]
      ensures id != old(jobId) && !Truthy(id) ==>
                live == None && runs == old(runs) && error == old(error) &&
                inFlight == old(inFlight) && timers == map[]
    {
      onCompleteRef := onComplete;
      if id != jobId {
        if Truthy(id) {
          RestartKeeps(jobId, runs, live, inFlight, timers, completions, id);
          live, timers, jobId, error, inFlight, runs :=
            Some(runs), map[], id, None, inFlight + {runs}, runs + 1;
        } else {
          StopKeeps(jobId, runs, live, inFlight, timers, completions, id);
          live, timers, jobId := None, map[], id;
        }
      }
    }

    /** Unmounting runs the effect's cleanup, `cancelled = true;
        clearTimeout(timer)`: no loop is left and no timer stays armed. */
    method Unmount()
      requires Valid()
      modifies this
      ensures Valid() && !mounted
      ensures live == None && timers == map[]
      ensures jobId == old(jobId) && job == old(job) && error == old(error)
      ensures onCompleteRef == old(onCompleteRef) && runs == old(runs)
      ensures inFlight == old(inFlight) && completions == old(completions)
    {
      mounted := false;
      live := None;
      timers := map[];
    }

    /** The armed timer of run `r` fires and `poll` runs: it returns at once
        if the run was cancelled, otherwise it starts a fetch. */
    method TimerFires(r: nat)
      requires Valid() && r in timers
      modifies this
      ensures Valid()
      ensures timers == map[] && inFlight == old(inFlight) + {r}
      ensures job == old(job) && error == old(error) && completions == old(completions)
      ensures live == old(live) && runs == old(runs) && jobId == old(jobId)
      ensures onCompleteRef == old(onCompleteRef)
    {
      timers := timers - {r};
      if live == Some(r) {
        inFlight := inFlight + {r};
      }
    }

    /** The fetch of run `r` resolves with `data`. A cancelled run does
        nothing. Otherwise the snapshot is stored; a terminal status calls the
        current callback once and ends the loop, any other arms a timer. */
    method FetchSucceeds(r: nat, data: Job)
      requires Valid() && r in inFlight
      modifies this
      ensures Valid()
      ensures inFlight == old(inFlight) - {r}
      ensures live == old(live) && runs == old(runs) && jobId == old(jobId)
      ensures error == old(error) && onCompleteRef == old(onCompleteRef)
      ensures old(live) != Some(r) ==>
                job == old(job) && completions == old(completions) && timers == old(timers)
      ensures old(live) == Some(r) ==> job == Some(data)
      ensures old(live) == Some(r) && IsTerminal(data.status) ==>
                completions == old(completions) + [Completion(r, old(onCompleteRef))] &&
                timers == old(timers)
      ensures old(live) == Some(r) && !IsTerminal(data.status) ==>
                completions == old(completions) && timers == map[r := SuccessDelay]
    {
      inFlight := inFlight - {r};
      if live != Some(r) {
        return;
      }
      job := Some(data);
      if IsTerminal(data.status) {
        assert r !in CompletedRuns(completions);
        completions := completions + [Completion(r, onCompleteRef)];
        assert completions[|completions| - 1].run == r;
        return;
      }
      timers := map[r := SuccessDelay];
    }

    /** The fetch of run `r` fails. A cancelled run does nothing; otherwise a
        timer is armed. The snapshot is kept and `error` is never set. */
    method FetchFails(r: nat)
      requires Valid() && r in inFlight
      modifies this
      ensures Valid()
      ensures inFlight == old(inFlight) - {r}
      ensures job == old(job) && error == old(error) && completions == old(completions)
      ensures live == old(live) && runs == old(runs) && jobId == old(jobId)
      ensures onCompleteRef == old(onCompleteRef)
      ensures old(live) != Some(r) ==> timers == old(timers)
      ensures old(live) == Some(r) ==> timers == map[r := FailureDelay]
    {
      inFlight := inFlight - {r};
      if live != Some(r) {
        return;
      }
      timers := map[r := FailureDelay];
    }

    /** `clear()`: resets `job` and `error` and nothing else. */
    method Clear()
      requires Valid()
      modifies this`job, this`error
      ensures Valid()
      ensures job == None && error == None
    {
      job := None;
      error := None;
    }
  }

  /** A run superseded by a new job id has no further effect: its late
      response neither stores a snapshot nor calls the callback, and the new
      run's state is untouched. */
  method SupersededRunIsSilent(a: string, b: string, jobA: Job, cb: nat)
    requires a != "" && b != "" && a != b
  {
    var h := new JobHook(Some(a), Some(cb));
    h.Render(Some(b), Some(cb));
    assert h.live == Some(1) && 0 in h.inFlight;
    h.FetchSucceeds(0, jobA);
    assert h.job == None && h.completions == [];
    assert h.live == Some(1) && 1 in h.inFlight;
  }
}
