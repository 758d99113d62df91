/** Background jobs: a table of at most so many entries, processes that finish
    on their own, and output kept up to a limit
    (tools/workspacefs/internal/workspacefs/exec.go). */
module ExecJobs {
  import opened Wrappers

  // ----- Captured output -----

  type Byte = b: int | 0 <= b < 256

  function Flat(writes: seq<seq<Byte>>): seq<Byte> {
    if writes == [] then [] else Flat(writes[..|writes| - 1]) + writes[|writes| - 1]
  }

  function Capped(bytes: seq<Byte>, limit: int): seq<Byte> {
    if limit <= 0 then [] else if |bytes| <= limit then bytes else bytes[..limit]
  }

  /** Some write met a full buffer or did not fit whole. */
  ghost predicate Overflowed(writes: seq<seq<Byte>>, limit: int) {
    writes != []
    && var before := writes[..|writes| - 1];
       Overflowed(before, limit) || |Flat(before)| >= limit || |Flat(writes)| > limit
  }

  class LimitedBuffer {
    var buf: seq<Byte>
    const limit: int
    var written: int
    var truncated: bool
    ghost var writes: seq<seq<Byte>>

    ghost predicate Valid()
      reads this
    {
      && written == |buf|
      && buf == Capped(Flat(writes), limit)
      && (truncated <==> Overflowed(writes, limit))
    }

    constructor (limit: int)
      ensures Valid() && writes == [] && this.limit == limit
    {
      buf, this.limit, written, truncated, writes := [], limit, 0, false, [];
    }

    /** Claims to have written everything, so that the process never sees a
        short write. */
    method Write(p: seq<Byte>) returns (n: nat)
      requires Valid()
      modifies this
      ensures Valid() && writes == old(writes) + [p] && n == |p|
      ensures |Flat(writes)| <= limit ==> buf == Flat(writes)
      ensures 0 <= limit < |Flat(writes)| ==> buf == Flat(writes)[..limit]
    {
      n := |p|;
      ghost var all := writes + [p];
      assert all[..|all| - 1] == writes && all[|all| - 1] == p;
      writes := all;
      var remaining := limit - written;
      if remaining <= 0 {
        truncated := true;
        return;
      }
      var kept := p;
      if |p| > remaining {
        kept := p[..remaining];
        truncated := true;
      }
      buf := buf + kept;
      written := written + |kept|;
    }
  }

  /** An empty write that met a full buffer. */
  ghost predicate LateEmptyWrite(writes: seq<seq<Byte>>, limit: int) {
    exists k :: 0 <= k < |writes| && writes[k] == [] && |Flat(writes[..k])| == limit
  }

  lemma LateEmptyStep(writes: seq<seq<Byte>>, limit: int)
    requires writes != []
    ensures var before, last := writes[..|writes| - 1], writes[|writes| - 1];
            LateEmptyWrite(writes, limit) <==> LateEmptyWrite(before, limit) || (last == [] && |Flat(before)| == limit)
  {
    var before := writes[..|writes| - 1];
    if LateEmptyWrite(writes, limit) {
      var k :| 0 <= k < |writes| && writes[k] == [] && |Flat(writes[..k])| == limit;
      if k < |before| { assert before[k] == [] && before[..k] == writes[..k]; }
    }
    if LateEmptyWrite(before, limit) {
      var k :| 0 <= k < |before| && before[k] == [] && |Flat(before[..k])| == limit;
      assert writes[k] == [] && writes[..k] == before[..k];
    }
  }

  lemma {:induction false} OverflowMeans(writes: seq<seq<Byte>>, limit: nat)
    ensures Overflowed(writes, limit) <==> |Flat(writes)| > limit || LateEmptyWrite(writes, limit)
    decreases |writes|
  {
    if writes != [] {
      OverflowMeans(writes[..|writes| - 1], limit);
      LateEmptyStep(writes, limit);
    }
  }

  /** The truncation flag means that bytes were lost exactly when bytes were
      lost or no empty write met a full buffer: such a write raises the flag
      although nothing is lost. */
  lemma TruncatedMeansLostIff(writes: seq<seq<Byte>>, limit: nat)
    ensures (Overflowed(writes, limit) <==> |Flat(writes)| > limit) <==>
              (|Flat(writes)| > limit || !LateEmptyWrite(writes, limit))
  {
    OverflowMeans(writes, limit);
  }

  /** Without empty writes the flag means exactly that bytes were lost; the
      library's copying loop makes none. */
  lemma NonEmptyWritesMeanLoss(writes: seq<seq<Byte>>, limit: nat)
    requires forall k :: 0 <= k < |writes| ==> writes[k] != []
    ensures Overflowed(writes, limit) <==> |Flat(writes)| > limit
  {
    OverflowMeans(writes, limit);
  }

  /** Two writes that fit exactly, the second of nothing. */
  lemma EmptyWriteRaisesFlag()
    ensures Flat([[7], []]) == [7] && Capped(Flat([[7], []]), 1) == [7] && Overflowed([[7], []], 1)
  {
    var writes: seq<seq<Byte>> := [[7], []];
    assert writes[..1] == [[7]] && [[7]][..0] == [];
    assert Flat([[7]]) == [7];
  }

  // ----- The job table as a transition system -----

  type JobId = string

  datatype Phase = Registered | StartFailed | Dropped | Running | Finished | Ended(started: bool)

  /** `closes` counts how often the job's done channel was closed. */
  datatype Job = Job(phase: Phase, running: bool, exitCode: int, closes: nat)

  datatype Table = Table(max: nat, entries: set<JobId>, jobs: map<JobId, Job>)

  datatype Action =
    | Start(id: JobId)
    | FailStart(id: JobId)
    | Drop(id: JobId)
    | CloseDropped(id: JobId)
    | Launch(id: JobId)
    | Exit(id: JobId, code: int)
    | CloseDone(id: JobId)

  predicate In(t: Table, id: JobId, phase: Phase) {
    id in t.jobs && t.jobs[id].phase == phase
  }

  function Put(t: Table, id: JobId, job: Job): Table {
    t.(jobs := t.jobs[id := job])
  }

  /** None is a step that cannot be taken; a start refused for want of room
      leaves the table as it is. */
  function Step(t: Table, a: Action): Option<Table> {
    match a
    case Start(id) =>
      if id in t.jobs then None
      else if |t.entries| >= t.max then Some(t)
      else Some(Put(t, id, Job(Registered, true, 0, 0)).(entries := t.entries + {id}))
    case FailStart(id) => if In(t, id, Registered) then Some(Put(t, id, t.jobs[id].(phase := StartFailed))) else None
    case Drop(id) =>
      if In(t, id, StartFailed)
      then Some(Put(t, id, t.jobs[id].(phase := Dropped)).(entries := t.entries - {id})) else None
    case CloseDropped(id) =>
      if In(t, id, Dropped)
      then Some(Put(t, id, t.jobs[id].(phase := Ended(false), closes := t.jobs[id].closes + 1))) else None
    case Launch(id) => if In(t, id, Registered) then Some(Put(t, id, t.jobs[id].(phase := Running))) else None
    case Exit(id, code) =>
      if In(t, id, Running)
      then Some(Put(t, id, t.jobs[id].(phase := Finished, running := false, exitCode := code))) else None
    case CloseDone(id) =>
      if In(t, id, Finished)
      then Some(Put(t, id, t.jobs[id].(phase := Ended(true), closes := t.jobs[id].closes + 1))) else None
  }

  function Run(t: Table, actions: seq<Action>): Option<Table>
    decreases |actions|
  {
    if actions == [] then Some(t)
    else match Step(t, actions[0]) case None => None case Some(t') => Run(t', actions[1..])
  }

  ghost predicate JobOk(t: Table, id: JobId, job: Job) {
    && (job.closes == if job.phase.Ended? then 1 else 0)
    && (job.running <==> !(job.phase.Finished? || job.phase == Ended(true)))
    && (id in t.entries <==> !(job.phase.Dropped? || job.phase == Ended(false)))
  }

  ghost predicate TableOk(t: Table) {
    && |t.entries| <= t.max
    && t.entries <= t.jobs.Keys
    && forall id :: id in t.jobs ==> JobOk(t, id, t.jobs[id])
  }

  lemma StepKeepsTable(t: Table, a: Action)
    requires TableOk(t) && Step(t, a).Some?
    ensures TableOk(Step(t, a).value) && Step(t, a).value.max == t.max
  {
    hide Step, JobOk;
    var t' := Step(t, a).value;
    forall id | id in t'.jobs ensures JobOk(t', id, t'.jobs[id]) {
      if id in t.jobs { assert JobOk(t, id, t.jobs[id]); }
      StepKeepsJob(t, a, id);
    }
    StepKeepsEntries(t, a);
  }

  lemma StepKeepsJob(t: Table, a: Action, id: JobId)
    requires Step(t, a).Some? && t.entries <= t.jobs.Keys && id in Step(t, a).value.jobs
    requires id in t.jobs ==> JobOk(t, id, t.jobs[id])
    ensures JobOk(Step(t, a).value, id, Step(t, a).value.jobs[id])
  {
  }

  lemma StepKeepsEntries(t: Table, a: Action)
    requires Step(t, a).Some? && t.entries <= t.jobs.Keys && |t.entries| <= t.max
    ensures var t' := Step(t, a).value; t'.entries <= t'.jobs.Keys && |t'.entries| <= t'.max == t.max
  {
    if a.Drop? { SubsetSize(t.entries - {a.id}, t.entries); }
  }

  lemma {:induction false} RunKeepsTable(t: Table, actions: seq<Action>)
    requires TableOk(t) && Run(t, actions).Some?
    ensures TableOk(Run(t, actions).value) && Run(t, actions).value.max == t.max
    decreases |actions|
  {
    hide Step, TableOk;
    if actions != [] {
      StepKeepsTable(t, actions[0]);
      RunKeepsTable(Step(t, actions[0]).value, actions[1..]);
    }
  }

  function EmptyTable(max: nat): Table { Table(max, {}, map[]) }

  /** Processes that are running now. */
  function RunningJobs(t: Table): set<JobId> {
    set id | id in t.jobs && t.jobs[id].phase == Running
  }

  lemma SubsetSize(a: set<JobId>, b: set<JobId>)
    requires a <= b
    ensures |a| <= |b|
  {
    assert b == a + (b - a);
  }

  /** In every run, running processes never exceed table entries, entries never
      exceed the limit, and no job's done channel is closed twice. */
  lemma JobsStayWithinLimits(max: nat, actions: seq<Action>)
    requires Run(EmptyTable(max), actions).Some?
    ensures var t := Run(EmptyTable(max), actions).value;
            && |RunningJobs(t)| <= |t.entries| <= max
            && forall id :: id in t.jobs ==> t.jobs[id].closes <= 1
  {
    RunKeepsTable(EmptyTable(max), actions);
    var t := Run(EmptyTable(max), actions).value;
    forall id | id in RunningJobs(t) ensures id in t.entries {
      assert JobOk(t, id, t.jobs[id]);
    }
    SubsetSize(RunningJobs(t), t.entries);
  }

  predicate Over(job: Job) {
    job.phase.Finished? || job.phase == Ended(true)
  }

  lemma StepKeepsOutcome(t: Table, a: Action, id: JobId)
    requires Step(t, a).Some? && id in t.jobs && Over(t.jobs[id])
    ensures var t' := Step(t, a).value;
            id in t'.jobs && Over(t'.jobs[id]) && t'.jobs[id].exitCode == t.jobs[id].exitCode
            && t'.jobs[id].running == t.jobs[id].running
  {
  }

  /** Once a job has finished its exit code and state never change. */
  lemma {:induction false} OutcomeIsFinal(t: Table, actions: seq<Action>, id: JobId)
    requires Run(t, actions).Some? && id in t.jobs && Over(t.jobs[id])
    ensures var t' := Run(t, actions).value;
            id in t'.jobs && Over(t'.jobs[id]) && t'.jobs[id].exitCode == t.jobs[id].exitCode
            && t'.jobs[id].running == t.jobs[id].running
    decreases |actions|
  {
    hide Step;
    if actions != [] {
      StepKeepsOutcome(t, actions[0], id);
      OutcomeIsFinal(Step(t, actions[0]).value, actions[1..], id);
    }
  }

  // ----- A finished job keeps its place -----

  /** A start would be refused. */
  predicate Full(t: Table) {
    |t.entries| >= t.max
  }

  /** Listed jobs that are marked as running. */
  function MarkedRunning(t: Table): set<JobId> {
    set id | id in t.entries && id in t.jobs && t.jobs[id].running
  }

  /** The limit is meant for jobs running at once.  A refusal means that so many
      run if and only if there is room or no listed job is over. */
  lemma RefusalIsForRunningJobsIff(t: Table)
    requires TableOk(t)
    ensures (Full(t) ==> |MarkedRunning(t)| >= t.max) <==>
              (!Full(t) || forall id :: id in t.entries ==> !Over(t.jobs[id]))
  {
    forall id | id in t.entries ensures t.jobs[id].running <==> !Over(t.jobs[id]) {
      assert JobOk(t, id, t.jobs[id]);
    }
    if forall id :: id in t.entries ==> !Over(t.jobs[id]) {
      assert MarkedRunning(t) == t.entries;
    } else {
      var over :| over in t.entries && Over(t.jobs[over]);
      SubsetSize(MarkedRunning(t), t.entries - {over});
    }
  }

  /** Any number of jobs, run one after the other to their ends, fill the table
      for good. */
  function OneAfterTheOther(ids: seq<JobId>): seq<Action> {
    if ids == [] then []
    else [Start(ids[0])] + ([Launch(ids[0])] + ([Exit(ids[0], 0)] + ([CloseDone(ids[0])] + OneAfterTheOther(ids[1..]))))
  }

  lemma OneJobRuns(t: Table, id: JobId, rest: seq<Action>)
    requires id !in t.jobs && |t.entries| < t.max
    ensures var done := Put(t, id, Job(Ended(true), false, 0, 1)).(entries := t.entries + {id});
            Run(t, [Start(id)] + ([Launch(id)] + ([Exit(id, 0)] + ([CloseDone(id)] + rest)))) == Run(done, rest)
  {
    hide Run;
    var t1 := Step(t, Start(id)).value;
    var t2 := Step(t1, Launch(id)).value;
    var t3 := Step(t2, Exit(id, 0)).value;
    var t4 := Step(t3, CloseDone(id)).value;
    RunThen(t, Start(id), [Launch(id)] + ([Exit(id, 0)] + ([CloseDone(id)] + rest)));
    RunThen(t1, Launch(id), [Exit(id, 0)] + ([CloseDone(id)] + rest));
    RunThen(t2, Exit(id, 0), [CloseDone(id)] + rest);
    RunThen(t3, CloseDone(id), rest);
    assert t4.jobs == t.jobs[id := Job(Ended(true), false, 0, 1)];
  }

  lemma {:induction false} FinishedJobsFillTable(t: Table, ids: seq<JobId>)
    requires |ids| == t.max - |t.entries| && t.entries <= t.jobs.Keys
    requires forall k :: 0 <= k < |ids| ==> ids[k] !in t.jobs
    requires forall j, k :: 0 <= j < k < |ids| ==> ids[j] != ids[k]
    requires forall id :: id in t.entries ==> Over(t.jobs[id])
    ensures Run(t, OneAfterTheOther(ids)).Some?
    ensures var full := Run(t, OneAfterTheOther(ids)).value;
            Full(full) && full.entries <= full.jobs.Keys && forall id :: id in full.entries ==> Over(full.jobs[id])
    decreases |ids|
  {
    if ids != [] {
      var id := ids[0];
      OneJobRuns(t, id, OneAfterTheOther(ids[1..]));
      var done := Put(t, id, Job(Ended(true), false, 0, 1)).(entries := t.entries + {id});
      assert |done.entries| == |t.entries| + 1;
      assert forall k :: 0 <= k < |ids[1..]| ==> ids[1..][k] == ids[k + 1];
      FinishedJobsFillTable(done, ids[1..]);
    }
  }

  /** With no process running and the table at its limit, from the start. */
  lemma FullOfFinishedJobs(ids: seq<JobId>)
    requires forall j, k :: 0 <= j < k < |ids| ==> ids[j] != ids[k]
    ensures Run(EmptyTable(|ids|), OneAfterTheOther(ids)).Some?
    ensures var t := Run(EmptyTable(|ids|), OneAfterTheOther(ids)).value;
            Full(t) && MarkedRunning(t) == {}
  {
    FinishedJobsFillTable(EmptyTable(|ids|), ids);
    var t := Run(EmptyTable(|ids|), OneAfterTheOther(ids)).value;
    RunKeepsTable(EmptyTable(|ids|), OneAfterTheOther(ids));
    forall id | id in t.entries ensures !t.jobs[id].running {
      assert JobOk(t, id, t.jobs[id]);
    }
  }

  /** No entry can still leave the table: each of its processes has started. */
  ghost predicate FullForGood(t: Table) {
    |t.entries| >= t.max && forall id :: id in t.entries ==> !In(t, id, Registered) && !In(t, id, StartFailed)
  }

  lemma StepKeepsFull(t: Table, a: Action)
    requires TableOk(t) && FullForGood(t) && Step(t, a).Some?
    ensures FullForGood(Step(t, a).value) && Step(t, a).value.entries == t.entries
  {
    if a.id in t.jobs { assert JobOk(t, a.id, t.jobs[a.id]); }
  }

  lemma {:induction false} FullStaysFull(t: Table, actions: seq<Action>)
    requires TableOk(t) && FullForGood(t) && Run(t, actions).Some?
    ensures FullForGood(Run(t, actions).value) && Run(t, actions).value.entries == t.entries
    decreases |actions|
  {
    hide Step, TableOk, FullForGood;
    if actions != [] {
      StepKeepsFull(t, actions[0]);
      StepKeepsTable(t, actions[0]);
      FullStaysFull(Step(t, actions[0]).value, actions[1..]);
    }
  }

  /** Some continuation lets a job with this identifier in. */
  ghost predicate CanStillStart(t: Table, id: JobId) {
    exists actions :: Run(t, actions).Some? && id in Run(t, actions).value.entries
  }

  /** Finished jobs are never taken out of the table, so the limit counts every
      job ever started: a new job can get in again if and only if there is
      room or some entry's process has not started yet (and may fail to). */
  lemma NewJobPossibleIff(t: Table, id: JobId)
    requires TableOk(t) && id !in t.jobs && t.max > 0
    ensures CanStillStart(t, id) <==> !FullForGood(t)
  {
    if FullForGood(t) {
      forall actions | Run(t, actions).Some? ensures id !in Run(t, actions).value.entries {
        FullStaysFull(t, actions);
      }
    } else if |t.entries| < t.max {
      RunOne(t, Start(id));
      assert id in Run(t, [Start(id)]).value.entries;
    } else {
      MakeRoom(t, id);
    }
  }

  lemma RunOne(t: Table, a: Action)
    requires Step(t, a).Some?
    ensures Run(t, [a]) == Step(t, a)
  {
    assert [a][1..] == [] && Run(Step(t, a).value, []) == Step(t, a);
  }

  lemma RunThen(t: Table, a: Action, rest: seq<Action>)
    requires Step(t, a).Some?
    ensures Run(t, [a] + rest) == Run(Step(t, a).value, rest)
  {
    assert ([a] + rest)[1..] == rest;
  }

  lemma DropThenStart(t: Table, old': JobId, id: JobId)
    requires TableOk(t) && id !in t.jobs && |t.entries| == t.max > 0 && In(t, old', StartFailed) && old' in t.entries
    ensures Run(t, [Drop(old')] + [Start(id)]).Some?
    ensures id in Run(t, [Drop(old')] + [Start(id)]).value.entries
  {
    hide Run, TableOk;
    var t1 := Step(t, Drop(old')).value;
    assert |t1.entries| == |t.entries| - 1;
    RunOne(t1, Start(id));
    RunThen(t, Drop(old'), [Start(id)]);
  }

  lemma MakeRoom(t: Table, id: JobId)
    requires TableOk(t) && id !in t.jobs && |t.entries| == t.max > 0 && !FullForGood(t)
    ensures CanStillStart(t, id)
  {
    hide Run;
    var old' :| old' in t.entries && (In(t, old', Registered) || In(t, old', StartFailed));
    var rest := [Drop(old')] + [Start(id)];
    if In(t, old', Registered) {
      var t1 := Step(t, FailStart(old')).value;
      StepKeepsTable(t, FailStart(old'));
      DropThenStart(t1, old', id);
      RunThen(t, FailStart(old'), rest);
      assert id in Run(t, [FailStart(old')] + rest).value.entries;
    } else {
      DropThenStart(t, old', id);
    }
  }
}
