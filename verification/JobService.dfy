/** The background-job table as the source writes it: a map of job objects
    whose fields change in place
    (tools/workspacefs/internal/workspacefs/exec.go and service.go).  Each
    method takes the steps of ExecJobs that its contract names. */
module JobServiceObject {
  import opened Wrappers
  import opened ExecJobs

  /** What waiting for a process returns. */
  datatype WaitResult = Clean | ExitError(code: int) | OtherError

  /** How the life of a job's process goes on, whenever it does. */
  datatype Fate = NeverStarts | Returns(result: WaitResult)

  function ExitCodeOf(result: WaitResult): int {
    match result case Clean => 0 case ExitError(code) => code case OtherError => -1
  }

  /** `phase` says where the goroutine that starts and awaits the process
      stands. */
  class BackgroundJob {
    ghost const id: JobId
    const stdout: LimitedBuffer
    const stderr: LimitedBuffer
    var running: bool
    var exitCode: int
    var done: bool
    var phase: Phase
    ghost var closes: nat

    ghost function View(): Job
      reads this
    {
      Job(phase, running, exitCode, closes)
    }

    ghost predicate ExitOk()
      reads this
    {
      && (closes == if done then 1 else 0)
      && (phase.Registered? || phase.Running? ==> exitCode == 0)
      && (done <==> phase.Ended?)
    }

    constructor (maxBytes: int, ghost id: JobId)
      ensures View() == Job(Registered, true, 0, 0) && ExitOk() && this.id == id
      ensures fresh(stdout) && fresh(stderr) && stdout.Valid() && stderr.Valid()
      ensures stdout.limit == stderr.limit == maxBytes
    {
      this.id := id;
      stdout := new LimitedBuffer(maxBytes);
      stderr := new LimitedBuffer(maxBytes);
      running, exitCode, done, phase, closes := true, 0, false, Registered, 0;
    }

    /** close(job.done): closing a closed channel panics. */
    method CloseDone()
      requires !done && ExitOk() && (phase.Dropped? || phase.Finished?)
      modifies this
      ensures done && ExitOk()
      ensures View() == old(View()).(phase := Ended(old(phase).Finished?), closes := 1)
    {
      done := true;
      closes, phase := closes + 1, Ended(phase.Finished?);
    }

    /** What the waiting goroutine records.  A clean exit leaves the exit code
        as it was made. */
    method Finish(result: WaitResult)
      requires phase.Running? && ExitOk()
      modifies this
      ensures ExitOk() && done == old(done)
      ensures View() == old(View()).(phase := Finished, running := false,
                          exitCode := if result.Clean? then old(exitCode) else ExitCodeOf(result))
    {
      running := false;
      phase := Finished;
      match result
      case Clean =>
      case ExitError(code) => exitCode := code;
      case OtherError => exitCode := -1;
    }
  }

  datatype JobOutput = JobOutput(running: bool, exitCode: int, stdout: seq<Byte>, stderr: seq<Byte>, truncated: bool)

  class JobService {
    const max: nat
    const maxBytes: int
    var jobs: map<JobId, BackgroundJob>
    /** Every job ever made; one dropped from the table is still waited for. */
    ghost var all: map<JobId, BackgroundJob>

    ghost predicate Linked()
      reads this, all.Values
    {
      && jobs.Keys <= all.Keys
      && (forall id :: id in jobs ==> jobs[id] == all[id])
      && (forall id :: id in all ==> all[id].id == id)
      && (forall id :: id in all ==> all[id].ExitOk())
    }

    ghost predicate Valid()
      reads this, all.Values
    {
      Linked() && TableOk(View())
    }

    ghost function View(): Table
      reads this, all.Values
    {
      Table(max, jobs.Keys, JobsView())
    }

    ghost function JobsView(): map<JobId, Job>
      reads this, all.Values
    {
      map id | id in all :: all[id].View()
    }

    lemma ViewAt(id: JobId)
      ensures id in View().jobs <==> id in all
      ensures id in all ==> View().jobs[id] == all[id].View()
    {
    }

    /** Only one job, old or new, has changed. */
    twostate lemma OneChanged(id: JobId)
      requires id in all
      requires forall i :: i in all && i != id ==> i in old(all) && all[i] == old(all)[i] && unchanged(all[i])
      requires old(all).Keys <= all.Keys
      ensures JobsView() == old(JobsView())[id := all[id].View()]
    {
    }

    constructor (max: nat, maxBytes: int)
      ensures Valid() && View() == EmptyTable(max) && this.maxBytes == maxBytes
    {
      this.max, this.maxBytes, jobs, all := max, maxBytes, map[], map[];
    }

    /** The locked part of starting a job; the caller holds a fresh uuid. */
    method Register(id: JobId) returns (job: Option<BackgroundJob>)
      requires Valid() && id !in all
      modifies this
      ensures Valid() && Step(old(View()), Start(id)) == Some(View())
      ensures job.Some? <==> |old(jobs)| < max
      ensures job.None? ==> all == old(all) && jobs == old(jobs)
      ensures job.Some? ==>
                && fresh(job.value) && all == old(all)[id := job.value] && jobs == old(jobs)[id := job.value]
                && job.value.View() == Job(Registered, true, 0, 0)
                && job.value.stdout.limit == job.value.stderr.limit == maxBytes
    {
      hide TableOk, Step, JobsView;
      ghost var t := View();
      assert |jobs| == |jobs.Keys|;
      ViewAt(id);
      StartMeans(t, id);
      StepKeepsTable(t, Start(id));
      if |jobs| >= max { return None; }
      var made := new BackgroundJob(maxBytes, id);
      Insert(id, made);
      job := Some(made);
    }

    method Insert(id: JobId, job: BackgroundJob)
      requires Linked() && id !in all && job.id == id && job.ExitOk()
      modifies this
      ensures Linked() && all == old(all)[id := job] && jobs == old(jobs)[id := job]
      ensures View() == old(View()).(jobs := old(View()).jobs[id := job.View()],
                                     entries := old(View()).entries + {id})
    {
      hide JobsView;
      ghost var t := View();
      jobs := jobs[id := job];
      all := all[id := job];
      OneChanged(id);
      assert View() == t.(jobs := t.jobs[id := job.View()], entries := t.entries + {id});
    }

    /** The process starts, or does not. */
    method SetPhase(job: BackgroundJob, ghost id: JobId, phase: Phase)
      requires Valid() && id in all && all[id] == job && job.phase.Registered? && (phase.StartFailed? || phase.Running?)
      modifies job
      ensures Valid() && job.View() == old(job.View()).(phase := phase) && job.done == old(job.done)
      ensures Some(View()) == Step(old(View()), if phase.Running? then Launch(id) else FailStart(id))
    {
      hide TableOk, Step, JobsView;
      ghost var t := View();
      ghost var a := if phase.Running? then Launch(id) else FailStart(id);
      ViewAt(id);
      LaunchMeans(t, id);
      StepKeepsTable(t, a);
      job.phase := phase;
      OneChanged(id);
      assert View() == Put(t, id, t.jobs[id].(phase := phase));
    }

    /** The locked part of giving up on a job whose process did not start. */
    method DropJob(job: BackgroundJob, id: JobId)
      requires Valid() && id in all && all[id] == job && job.phase.StartFailed?
      modifies this, job
      ensures Valid() && all == old(all) && jobs == old(jobs) - {id}
      ensures job.View() == old(job.View()).(phase := Dropped) && job.done == old(job.done)
      ensures Some(View()) == Step(old(View()), Drop(id))
    {
      hide TableOk, Step, JobsView;
      ghost var t := View();
      ViewAt(id);
      DropMeans(t, id);
      StepKeepsTable(t, Drop(id));
      Erase(job, id);
    }

    method Erase(job: BackgroundJob, id: JobId)
      requires Linked() && id in all && all[id] == job && job.phase.StartFailed?
      modifies this, job
      ensures Linked() && all == old(all) && jobs == old(jobs) - {id}
      ensures job.View() == old(job.View()).(phase := Dropped) && job.done == old(job.done)
      ensures View() == Put(old(View()), id, old(all[id].View()).(phase := Dropped))
                          .(entries := old(View()).entries - {id})
    {
      hide JobsView;
      ghost var t := View();
      jobs := jobs - {id};
      job.phase := Dropped;
      OneChanged(id);
      assert View() == Put(t, id, old(all[id].View()).(phase := Dropped)).(entries := t.entries - {id});
    }

    /** Closes the done channel, after a failed start or a finished process. */
    method Release(job: BackgroundJob, ghost id: JobId)
      requires Valid() && id in all && all[id] == job && (job.phase.Dropped? || job.phase.Finished?)
      modifies job
      ensures Valid() && job.done
      ensures job.View() == old(job.View()).(phase := Ended(old(job.phase).Finished?), closes := 1)
      ensures Some(View()) == Step(old(View()), if old(job.phase).Dropped? then CloseDropped(id) else CloseDone(id))
    {
      hide TableOk, Step, JobsView;
      ghost var t := View();
      ghost var a := if job.phase.Dropped? then CloseDropped(id) else CloseDone(id);
      ViewAt(id);
      EndMeans(t, id, 0);
      StepKeepsTable(t, a);
      job.CloseDone();
      OneChanged(id);
    }

    method FinishJob(job: BackgroundJob, ghost id: JobId, result: WaitResult)
      requires Valid() && id in all && all[id] == job && job.phase.Running?
      modifies job
      ensures Valid() && Some(View()) == Step(old(View()), Exit(id, ExitCodeOf(result)))
      ensures job.View() == old(job.View()).(phase := Finished, running := false, exitCode :=
                match result case Clean => 0 case ExitError(code) => code case OtherError => -1)
    {
      hide TableOk, Step, JobsView;
      ghost var t := View();
      ViewAt(id);
      EndMeans(t, id, ExitCodeOf(result));
      StepKeepsTable(t, Exit(id, ExitCodeOf(result)));
      job.Finish(result);
      OneChanged(id);
    }

    /** What follows a process that could not be started. */
    method Abandon(job: BackgroundJob, id: JobId)
      requires Valid() && id in all && all[id] == job && job.phase.Registered?
      modifies this, job
      ensures Valid() && all == old(all) && jobs == old(jobs) - {id}
      ensures job.done && job.View() == old(job.View()).(phase := Ended(false), closes := 1)
      ensures Run(old(View()), AbandonSteps(id)) == Some(View())
    {
      hide TableOk, Linked, Step, JobsView, Run;
      ghost var t1 := View();
      SetPhase(job, id, StartFailed);
      ghost var t2 := View();
      DropJob(job, id);
      ghost var t3 := View();
      Release(job, id);
      RunOne(t3, CloseDropped(id));
      RunThen(t2, Drop(id), [CloseDropped(id)]);
      RunThen(t1, FailStart(id), [Drop(id)] + [CloseDropped(id)]);
    }

    /** A start from beginning to end.  Refused for want of room it changes
        nothing; a process that does not start leaves the table as it was. */
    method StartBackgroundJob(id: JobId, launches: bool) returns (job: Option<BackgroundJob>)
      requires Valid() && id !in all
      modifies this
      ensures Valid()
      ensures job.Some? <==> |old(jobs)| < max && launches
      ensures job.None? ==> jobs == old(jobs)
      ensures job.Some? ==> jobs == old(jobs)[id := job.value] && job.value.View() == Job(Running, true, 0, 0)
      ensures |old(jobs)| < max && !launches ==>
                id in all && all[id].done && all[id].View() == Job(Ended(false), true, 0, 1)
      ensures Run(old(View()), StartSteps(id, |old(jobs)| < max, launches)) == Some(View())
    {
      assert id !in jobs;
      hide TableOk, Linked, Step, JobsView, Run;
      ghost var t0 := View();
      job := Register(id);
      ghost var t1 := View();
      if job.None? {
        RunOne(t0, Start(id));
      } else if launches {
        SetPhase(job.value, id, Running);
        RunOne(t1, Launch(id));
        RunThen(t0, Start(id), [Launch(id)]);
      } else {
        Abandon(job.value, id);
        RunThen(t0, Start(id), AbandonSteps(id));
        PutThenRemove(old(jobs), id, job.value);
        job := None;
      }
    }

    method ExecJobOutput(id: JobId) returns (output: Option<JobOutput>)
      requires Valid()
      ensures output.Some? <==> id in jobs
      ensures output.Some? ==>
                && output.value.running == jobs[id].running && output.value.exitCode == jobs[id].exitCode
                && output.value.stdout == jobs[id].stdout.buf && output.value.stderr == jobs[id].stderr.buf
                && (output.value.truncated <==> jobs[id].stdout.truncated || jobs[id].stderr.truncated)
      ensures output.Some? && Over(View().jobs[id]) ==> !output.value.running
    {
      if id !in jobs { return None; }
      var job := jobs[id];
      output := Some(JobOutput(job.running, job.exitCode, job.stdout.buf, job.stderr.buf,
                               job.stdout.truncated || job.stderr.truncated));
      assert JobOk(View(), id, View().jobs[id]);
    }

    /** Cancels a job that is listed and marked as running, and waits for its
        done channel. */
    method ExecKillJob(id: JobId, fate: Fate) returns (killed: bool)
      requires Valid() && (id in jobs && jobs[id].phase.Running? ==> fate.Returns?)
      modifies this, if id in jobs then {jobs[id]} else {}
      ensures Valid() && all == old(all)
      ensures killed <==> id in old(jobs) && !Over(old(View()).jobs[id])
      ensures killed ==> old(jobs[id]).done && old(jobs[id]).View() == RestOf(old(jobs[id].View()), fate)
      ensures killed ==> jobs == if DropsEntry(old(jobs[id].phase), fate) then old(jobs) - {id} else old(jobs)
      ensures !killed ==> View() == old(View())
    {
      hide TableOk, Step, JobsView;
      if id !in jobs { return false; }
      ListedJobOk(id);
      if !jobs[id].running { return false; }
      Drain(jobs[id], id, fate);
      killed := true;
    }

    lemma ListedJobOk(id: JobId)
      requires Valid() && id in jobs
      ensures id in View().jobs && View().jobs[id] == jobs[id].View()
      ensures jobs[id].running <==> !Over(jobs[id].View())
      ensures !jobs[id].phase.Dropped? && jobs[id].phase != Ended(false)
    {
      ViewAt(id);
      assert JobOk(View(), id, View().jobs[id]);
    }

    /** Takes every job out of the table, cancels each, and waits until each
        has ended.  The source forgets the table first and waits then; only a
        start that fails looks at it in between. */
    method Close(fates: map<JobId, Fate>)
      requires Valid() && fates.Keys == jobs.Keys
      requires forall id :: id in jobs && jobs[id].phase.Running? ==> fates[id].Returns?
      modifies this, jobs.Values
      ensures jobs == map[] && all == old(all)
      ensures forall id :: id in old(jobs) ==>
                old(jobs)[id].done && old(jobs)[id].View() == RestOf(old(jobs[id].View()), fates[id])
    {
      hide TableOk, JobsView, Step, RestOf, JobOk, Valid, Linked;
      var ids, listed := TakeAll();
      DrainAll(ids, listed, fates);
      jobs := map[];
    }

    /** Waits for one job after another. */
    method DrainAll(ids: seq<JobId>, listed: seq<BackgroundJob>, fates: map<JobId, Fate>)
      requires Valid() && |ids| == |listed|
      requires forall k :: 0 <= k < |ids| ==>
                 ids[k] in jobs && jobs[ids[k]] == listed[k] && ids[k] in fates
                 && (listed[k].phase.Running? ==> fates[ids[k]].Returns?)
      requires forall k, l :: 0 <= k < l < |ids| ==> ids[k] != ids[l] && listed[k] != listed[l]
      modifies this, listed
      ensures Valid() && all == old(all)
      ensures forall k :: 0 <= k < |ids| ==>
                listed[k].done && listed[k].View() == RestOf(old(listed[k].View()), fates[ids[k]])
    {
      hide TableOk, JobsView, Step, RestOf, Linked, Valid, DropsEntry, View;
      var n := 0;
      while n < |ids|
        invariant 0 <= n <= |ids| && Valid() && all == old(all)
        invariant forall k :: n <= k < |ids| ==> ids[k] in jobs && jobs[ids[k]] == listed[k]
        invariant forall k :: 0 <= k < n ==>
                    listed[k].done && listed[k].View() == RestOf(old(listed[k].View()), fates[ids[k]])
        invariant forall k :: n <= k < |ids| ==> unchanged(listed[k])
      {
        Drain(listed[n], ids[n], fates[ids[n]]);
        n := n + 1;
      }
    }

    /** The table's jobs, each once, in no particular order. */
    method TakeAll() returns (ids: seq<JobId>, listed: seq<BackgroundJob>)
      requires Valid()
      ensures |ids| == |listed| == |jobs| && forall id :: id in jobs ==> id in ids
      ensures forall k :: 0 <= k < |ids| ==> ids[k] in jobs && jobs[ids[k]] == listed[k]
      ensures forall k, l :: 0 <= k < l < |ids| ==> ids[k] != ids[l] && listed[k] != listed[l]
    {
      hide TableOk, View;
      ids, listed := [], [];
      var rest := jobs.Keys;
      while rest != {}
        invariant rest <= jobs.Keys && |ids| == |listed| == |jobs| - |rest|
        invariant forall id :: id in jobs ==> id in rest || id in ids
        invariant forall k :: 0 <= k < |ids| ==> ids[k] in jobs && ids[k] !in rest && jobs[ids[k]] == listed[k]
        invariant forall k, l :: 0 <= k < l < |ids| ==> ids[k] != ids[l]
        decreases rest
      {
        var id :| id in rest;
        rest := rest - {id};
        ids, listed := ids + [id], listed + [jobs[id]];
      }
      assert forall k :: 0 <= k < |ids| ==> listed[k].id == ids[k];
    }

    /** The rest of a listed job's life, to the closing of its done channel. */
    method Drain(job: BackgroundJob, id: JobId, fate: Fate)
      requires Valid() && id in jobs && jobs[id] == job && (job.phase.Running? ==> fate.Returns?)
      modifies this, job
      ensures Valid() && all == old(all) && job.done && job.View() == RestOf(old(job.View()), fate)
      ensures jobs == if DropsEntry(old(job.phase), fate) then old(jobs) - {id} else old(jobs)
    {
      hide TableOk, Step, JobsView;
      ListedJobOk(id);
      if job.phase.Registered? { SetPhase(job, id, if fate.NeverStarts? then StartFailed else Running); }
      if job.phase.StartFailed? { DropJob(job, id); }
      if job.phase.Running? { FinishJob(job, id, fate.result); }
      if !job.done { Release(job, id); }
    }
  }

  lemma PutThenRemove(jobs: map<JobId, BackgroundJob>, id: JobId, job: BackgroundJob)
    requires id !in jobs
    ensures jobs[id := job] - {id} == jobs
  {
  }

  lemma StartMeans(t: Table, id: JobId)
    requires id !in t.jobs
    ensures Step(t, Start(id)) == Some(if |t.entries| >= t.max then t else
              t.(jobs := t.jobs[id := Job(Registered, true, 0, 0)], entries := t.entries + {id}))
  {
  }

  lemma LaunchMeans(t: Table, id: JobId)
    requires In(t, id, Registered)
    ensures Step(t, Launch(id)) == Some(Put(t, id, t.jobs[id].(phase := Running)))
    ensures Step(t, FailStart(id)) == Some(Put(t, id, t.jobs[id].(phase := StartFailed)))
  {
  }

  lemma DropMeans(t: Table, id: JobId)
    requires In(t, id, StartFailed)
    ensures Step(t, Drop(id)) == Some(Put(t, id, t.jobs[id].(phase := Dropped)).(entries := t.entries - {id}))
  {
  }

  lemma EndMeans(t: Table, id: JobId, code: int)
    requires id in t.jobs
    ensures In(t, id, Running) ==>
              Step(t, Exit(id, code))
                == Some(Put(t, id, t.jobs[id].(phase := Finished, running := false, exitCode := code)))
    ensures In(t, id, Finished) ==>
              Step(t, CloseDone(id))
                == Some(Put(t, id, t.jobs[id].(phase := Ended(true), closes := t.jobs[id].closes + 1)))
    ensures In(t, id, Dropped) ==>
              Step(t, CloseDropped(id))
                == Some(Put(t, id, t.jobs[id].(phase := Ended(false), closes := t.jobs[id].closes + 1)))
  {
  }

  /** The protocol steps of one start. */
  function StartSteps(id: JobId, room: bool, launches: bool): seq<Action> {
    if !room then [Start(id)]
    else if launches then [Start(id)] + [Launch(id)]
    else [Start(id)] + AbandonSteps(id)
  }

  function AbandonSteps(id: JobId): seq<Action> {
    [FailStart(id)] + ([Drop(id)] + [CloseDropped(id)])
  }

  /** A start that fails takes the job out of the table. */
  predicate DropsEntry(phase: Phase, fate: Fate) {
    phase.StartFailed? || (phase.Registered? && fate.NeverStarts?)
  }

  /** A job at the end of its life. */
  function RestOf(job: Job, fate: Fate): Job {
    match job.phase
    case Registered =>
      if fate.NeverStarts? then Job(Ended(false), true, 0, 1) else Job(Ended(true), false, ExitCodeOf(fate.result), 1)
    case Running => Job(Ended(true), false, if fate.Returns? then ExitCodeOf(fate.result) else job.exitCode, 1)
    case Finished => Job(Ended(true), false, job.exitCode, 1)
    case Ended(true) => Job(Ended(true), false, job.exitCode, 1)
    case _ => Job(Ended(false), true, job.exitCode, 1)
  }

  /** A job whose process ran ends with its own exit code, or -1 if there is
      none to be had, and zero for a clean exit; one that was over keeps its
      code, and one that never started has none. */
  lemma RestOfMeans(job: Job, fate: Fate)
    ensures RestOf(job, fate).closes == 1 && RestOf(job, fate).phase.Ended?
    ensures Over(job) ==> RestOf(job, fate) == Job(Ended(true), false, job.exitCode, 1)
    ensures (job.phase.Registered? || job.phase.Running?) && fate.Returns? ==>
              && RestOf(job, fate).phase == Ended(true) && !RestOf(job, fate).running
              && RestOf(job, fate).exitCode ==
                   match fate.result case Clean => 0 case ExitError(code) => code case OtherError => -1
    ensures !Over(job) && !job.phase.Running? && !(job.phase.Registered? && fate.Returns?) ==>
              RestOf(job, fate).phase == Ended(false) && RestOf(job, fate).running
  {
  }
}
