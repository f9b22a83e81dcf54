/** The older `JobStatus` panel of the web client. Its effect runs a `tick`
    loop per job id with an `alive` flag: a tick fetches the job, stores it
    and calls `onFinished` on a terminal status, or re-arms after 1200 ms; a
    failed fetch re-arms after 1500 ms. Unlike `useJob`, the failure path does
    not look at `alive`, so a fetch that fails after cleanup arms a timer that
    no cleanup will clear, and the orphaned loop keeps fetching for as long as
    the fetches fail (it never changes the state). The callback a run calls is
    the `onFinished` of the render whose effect started the run.

    Timers and fetches are events, as in the `useJob` model; `live == Some(r)`
    means run `r` is still alive. */
module JobStatusPanel {
  import opened Seqs
  import opened Jobs

  const SuccessDelay := 1200
  const FailureDelay := 1500

  /** The runs that called their `onFinished`. */
  ghost function FinishedRuns(fs: seq<(nat, nat)>): set<nat> {
    set i | 0 <= i < |fs| :: fs[i].0
  }

  /** The panel's invariant, over the values of its fields; `runs` is the
      number of runs started. */
  ghost predicate Consistent(mounted: bool, jobId: Option<string>, runs: nat, live: Option<nat>,
                             inFlight: set<nat>, timers: map<nat, nat>, finished: seq<(nat, nat)>)
  {
    (live.Some? <==> mounted && Truthy(jobId)) &&
    (live.Some? ==> live.value < runs) &&
    (forall r :: r in inFlight ==> r < runs) &&
    (forall r :: r in timers ==> r < runs && r !in inFlight) &&
    (forall i :: 0 <= i < |finished| ==> finished[i].0 < runs) &&
    (forall r :: r in FinishedRuns(finished) ==> r !in inFlight && r !in timers) &&
    (forall i, j :: 0 <= i < j < |finished| ==> finished[i].0 != finished[j].0) &&
    (live.Some? ==> live.value in inFlight || live.value in timers || live.value in FinishedRuns(finished))
  }

  /** A new job id that is truthy stops the alive run, clears its timer and
      starts run `runs` with its fetch in flight. */
  lemma RestartKeeps(jobId: Option<string>, runs: nat, live: Option<nat>, inFlight: set<nat>,
                     timers: map<nat, nat>, finished: seq<(nat, nat)>, id: Option<string>)
    requires Consistent(true, jobId, runs, live, inFlight, timers, finished) && Truthy(id)
    ensures var left := if live.Some? then timers - {live.value} else timers;
            Consistent(true, id, runs + 1, Some(runs), inFlight + {runs}, left, finished)
  {
    assert runs !in FinishedRuns(finished);
  }

  /** A new job id that is falsy stops the alive run and clears its
      timer. */
  lemma StopKeeps(jobId: Option<string>, runs: nat, live: Option<nat>, inFlight: set<nat>,
                  timers: map<nat, nat>, finished: seq<(nat, nat)>, id: Option<string>)
    requires Consistent(true, jobId, runs, live, inFlight, timers, finished) && !Truthy(id)
    ensures var left := if live.Some? then timers - {live.value} else timers;
            Consistent(true, id, runs, None, inFlight, left, finished)
  {
  }

  class JobStatusView {
    /** False once the component has unmounted. */
    var mounted: bool
    var jobId: Option<string>
    var job: Option<Job>
    /** `onFinished` of the latest render, and the one each run captured. */
    var onFinished: nat
    var callbacks: seq<nat>
    var live: Option<nat>
    var inFlight: set<nat>
    /** Armed, uncleared timers: run -> delay; orphaned runs may have one. */
    var timers: map<nat, nat>
    /** Runs that called their `onFinished`, in order, with the callback. */
    var finished: seq<(nat, nat)>

    ghost function Runs(): nat reads this { |callbacks| }

    ghost predicate Valid()
      reads this
    {
      Consistent(mounted, jobId, |callbacks|, live, inFlight, timers, finished)
    }

    /** Whether the panel renders anything: nothing for a falsy job id. */
    function Renders(): (shown: bool)
      reads this
      ensures shown <==> jobId.Some? && jobId.value != ""
    {
      Truthy(jobId)
    }

    constructor (id: Option<string>, cb: nat)
      ensures Valid()
      ensures mounted && jobId == id && job == None && onFinished == cb && finished == [] && timers == map[]
      ensures Truthy(id) ==> live == Some(0) && inFlight == {0} && callbacks == [cb]
      ensures !Truthy(id) ==> live == None && inFlight == {} && callbacks == []
    {
      mounted, jobId, job, onFinished, finished, timers := true, id, None, cb, [], map[];
      if Truthy(id) {
        live, inFlight, callbacks := Some(0), {0}, [cb];
      } else {
        live, inFlight, callbacks := None, {}, [];
      }
    }

    /** A later render. When the job id changed, the cleanup sets the old
        run's `alive` to false and clears that run's timer; a truthy new id
        starts a run that captures the current `onFinished`. */
    method Render(id: Option<string>, cb: nat)
      requires Valid() && mounted
      modifies this
      ensures Valid() && mounted
      ensures onFinished == cb && jobId == id && job == old(job) && finished == old(finished)
      ensures id == old(jobId) ==>
                live == old(live) && callbacks == old(callbacks) &&
                inFlight == old(inFlight) && timers == old(timers)
      ensures id != old(jobId) ==>
                timers == (if old(live).Some? then old(timers) - {old(live).value} else old(timers))
      ensures id != old(jobId) && Truthy(id) ==>
                live == Some(old(Runs())) && callbacks == old(callbacks) + [cb] &&
                inFlight == old(inFlight) + {old(Runs())}
      ensures id != old(jobId) && !Truthy(id) ==>
                live == None && callbacks == old(callbacks) && inFlight == old(inFlight)
    {
      onFinished := cb;
      if id != jobId {
        var left := if live.Some? then timers - {live.value} else timers;
        if Truthy(id) {
          RestartKeeps(jobId, |callbacks|, live, inFlight, timers, finished, id);
          live, timers, jobId, inFlight, callbacks :=
            Some(|callbacks|), left, id, inFlight + {|callbacks|}, callbacks + [cb];
        } else {
          StopKeeps(jobId, |callbacks|, live, inFlight, timers, finished, id);
          live, timers, jobId := None, left, id;
        }
      }
    }

    /** A timer fires: `tick` fetches without looking at `alive`. */
    method TimerFires(r: nat)
      requires Valid() && r in timers
      modifies this
      ensures Valid()
      ensures timers == old(timers) - {r} && inFlight == old(inFlight) + {r}
      ensures job == old(job) && finished == old(finished) && live == old(live)
      ensures callbacks == old(callbacks) && jobId == old(jobId) && onFinished == old(onFinished)
    {
      timers := timers - {r};
      inFlight := inFlight + {r};
    }

    /** A fetch of run `r` resolves. A run that is no longer alive discards
        the response and its loop ends; an alive run stores the snapshot and
        either calls its captured `onFinished` (terminal) or re-arms. */
    method FetchSucceeds(r: nat, data: Job)
      requires Valid() && r in inFlight
      modifies this
      ensures Valid()
      ensures inFlight == old(inFlight) - {r}
      ensures live == old(live) && callbacks == old(callbacks) && jobId == old(jobId)
      ensures onFinished == old(onFinished)
      ensures old(live) != Some(r) ==>
                job == old(job) && finished == old(finished) && timers == old(timers)
      ensures old(live) == Some(r) ==> job == Some(data)
      ensures old(live) == Some(r) && IsTerminal(data.status) ==>
                finished == old(finished) + [(r, callbacks[r])] && timers == old(timers)
      ensures old(live) == Some(r) && !IsTerminal(data.status) ==>
                finished == old(finished) && timers == old(timers)[r := SuccessDelay]
    {
      inFlight := inFlight - {r};
      if live != Some(r) {
        return;
      }
      job := Some(data);
      if IsTerminal(data.status) {
        assert r !in FinishedRuns(finished);
        finished := finished + [(r, callbacks[r])];
        assert finished[|finished| - 1].0 == r;
        return;
      }
      timers := timers[r := SuccessDelay];
    }

    /** A fetch of run `r` fails: a timer is armed whether or not the run is
        still alive. */
    method FetchFails(r: nat)
      requires Valid() && r in inFlight
      modifies this
      ensures Valid()
      ensures inFlight == old(inFlight) - {r}
      ensures timers == old(timers)[r := FailureDelay]
      ensures job == old(job) && finished == old(finished) && live == old(live)
      ensures callbacks == old(callbacks) && jobId == old(jobId) && onFinished == old(onFinished)
    {
      inFlight := inFlight - {r};
      timers := timers[r := FailureDelay];
    }

    /** Unmounting: the cleanup of the current run. */
    method Unmount()
      requires Valid()
      modifies this
      ensures Valid() && !mounted && live == None
      ensures timers == (if old(live).Some? then old(timers) - {old(live).value} else old(timers))
      ensures job == old(job) && finished == old(finished) && inFlight == old(inFlight)
      ensures jobId == old(jobId) && callbacks == old(callbacks)
    {
      mounted := false;
      if live.Some? {
        timers := timers - {live.value};
      }
      live := None;
    }
  }

  /** The status badge: the snapshot's status, or an ellipsis before the
      first snapshot or for an empty status. */
  function Badge(job: Option<Job>): (text: string)
    ensures text != ""
    ensures job.Some? && job.value.status != "" ==> text == job.value.status
  {
    if job.Some? && job.value.status != "" then job.value.status else "\U{2026}"
  }

  /** The message line: the snapshot's message when truthy, else "Polling…". */
  function MessageLine(job: Option<Job>): (text: string)
    ensures text != ""
    ensures job.Some? && Truthy(job.value.message) ==> text == job.value.message.value
    ensures !(job.Some? && Truthy(job.value.message)) ==> text == "Polling\U{2026}"
  {
    if job.Some? && Truthy(job.value.message) then job.value.message.value else "Polling\U{2026}"
  }

  /** The leak: the panel unmounts while its first fetch is in flight, the
      fetch fails, and run 0 ends with an armed timer although it is no
      longer alive and nothing will ever clear it. */
  method OrphanedTimer(id: string, cb: nat) returns (v: JobStatusView)
    requires id != ""
    ensures v.live == None && v.timers == map[0 := FailureDelay]
    ensures v.job == None && v.finished == []
  {
    v := new JobStatusView(Some(id), cb);
    v.Unmount();
    v.FetchFails(0);
  }
}
