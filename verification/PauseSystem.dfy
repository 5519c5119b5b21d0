/**
 * The worker pause protocol with its real partner, the local queue poller
 * (runtime/local/src/job-worker/queue-poller.ts:86-97, 434-573).
 *
 * The poller's main loop and its job fibers interleave with each other and with every step of the
 * suite's clients. Reading the pause file, changing or reading the job counter, writing the state
 * file, taking or returning a permit, claiming a job and forking it are one step each. Reading the
 * pause file may fail, which the worker takes for no pause; writing the state file may fail too.
 */
module PauseSystem {
  import opened Wrappers
  import opened Seqs
  import opened WorkerPause

  /** The permits of the semaphore the job worker creates. */
  const GLOBAL_MAX_CONCURRENT: nat := 1

  /** Why the loop writes the worker's state. */
  datatype Report = Paused(token: Token) | Resumed | Started

  datatype Loop =
    | Waking                                              // about to read the pause file
    | Reporting(report: Report)                           // about to read the job counter
    | Publishing(report: Report, snapshot: WorkerState)   // about to write the state file
    | Taking                                              // waiting for a permit
    | Checking                                            // holds a permit, about to read the pause file again
    | Claiming                                            // holds a permit, claiming a job from the database
    | Forking                                             // a job is claimed, counted and reported

  datatype Job =
    | Running
    | Ending                           // no longer counted, about to read the pause file
    | Telling(token: Option<Token>)    // about to read the job counter
    | Storing(snapshot: WorkerState)   // about to write the state file
    | Closing                          // about to return its permit
    | Done

  datatype Worker = Worker(
    loop: Loop,
    lastPauseState: bool,
    lastSnapshot: Option<WorkerState>,
    stateFile: Option<WorkerState>,
    activeJobs: int,
    permits: nat,
    jobs: seq<Job>)

  datatype Sys = Sys(test: State, worker: Worker)

  datatype Action =
    | Test(e: Event)
    | ReadToken(ok: bool)
    | LoopCounts
    | LoopWrites(ok: bool)
    | TakePermit
    | CheckToken(ok: bool)
    | Claim(found: bool)
    | Fork
    | JobEnds(j: nat)
    | JobReads(j: nat, ok: bool)
    | JobCounts(j: nat)
    | JobWrites(j: nat, ok: bool)
    | JobCloses(j: nat)

  /** Which of the worker's three reads of the pause file may fail: on waking, holding a permit, or after a job. */
  datatype Faults = Faults(wake: bool, check: bool, report: bool)

  predicate Permitted(faults: Faults, a: Action) {
    match a
    case ReadToken(ok) => ok || faults.wake
    case CheckToken(ok) => ok || faults.check
    case JobReads(_, ok) => ok || faults.report
    case _ => true
  }

  function Boot(permits: nat): Sys {
    Sys(Init, Worker(Waking, false, None, None, 0, permits, []))
  }

  /** `readLocalQueuePauseToken`: a read that fails yields no token. */
  function ReadPauseToken(pauseFile: Option<Token>, ok: bool): Option<Token> {
    if ok then pauseFile else None
  }

  /** The first half of `writeState`: what would be written. */
  function Snapshot(w: Worker, paused: bool, token: Option<Token>): WorkerState {
    WorkerState(if w.activeJobs < 0 then 0 else w.activeJobs, paused, token)
  }

  /** The second half of `writeState`: a snapshot that was written is remembered. */
  function WriteState(w: Worker, snapshot: WorkerState, ok: bool): Worker {
    if ok then w.(stateFile := Some(snapshot), lastSnapshot := Some(snapshot)) else w
  }

  function LoopSnapshot(w: Worker, report: Report): WorkerState {
    match report
    case Paused(token) => Snapshot(w, true, Some(token))
    case Resumed => Snapshot(w, false, None)
    case Started => Snapshot(w, false, None)
  }

  function AfterReport(report: Report): Loop {
    match report
    case Paused(_) => Waking
    case Resumed => Taking
    case Started => Forking
  }

  predicate Can(s: Sys, a: Action) {
    var w := s.worker;
    match a
    case Test(e) =>
      // A read of the state file yields its content, or nothing while it is being written.
      Enabled(s.test, e) && (e.Poll? ==> e.seen == None || e.seen == w.stateFile)
    case ReadToken(_) => w.loop.Waking?
    case LoopCounts => w.loop.Reporting?
    case LoopWrites(_) => w.loop.Publishing?
    case TakePermit => w.loop.Taking? && w.permits > 0
    case CheckToken(_) => w.loop.Checking?
    case Claim(_) => w.loop.Claiming?
    case Fork => w.loop.Forking?
    case JobEnds(j) => j < |w.jobs| && w.jobs[j].Running?
    case JobReads(j, _) => j < |w.jobs| && w.jobs[j].Ending?
    case JobCounts(j) => j < |w.jobs| && w.jobs[j].Telling?
    case JobWrites(j, _) => j < |w.jobs| && w.jobs[j].Storing?
    case JobCloses(j) => j < |w.jobs| && w.jobs[j].Closing?
  }

  function WorkerStep(w: Worker, pauseFile: Option<Token>, a: Action): Worker
    requires !a.Test? && Can(Sys(Init, w), a)
  {
    match a
    case ReadToken(ok) =>
      (match ReadPauseToken(pauseFile, ok)
       case Some(token) => w.(loop := Reporting(Paused(token)), lastPauseState := true)
       case None =>
         if w.lastPauseState then w.(loop := Reporting(Resumed), lastPauseState := false) else w.(loop := Taking))
    case LoopCounts =>
      var report, snapshot := w.loop.report, LoopSnapshot(w, w.loop.report);
      w.(loop := if w.lastSnapshot == Some(snapshot) then AfterReport(report) else Publishing(report, snapshot))
    case LoopWrites(ok) => WriteState(w, w.loop.snapshot, ok).(loop := AfterReport(w.loop.report))
    case TakePermit => w.(loop := Checking, permits := w.permits - 1)
    case CheckToken(ok) =>
      (match ReadPauseToken(pauseFile, ok)
       case Some(token) => w.(loop := Reporting(Paused(token)), lastPauseState := true, permits := w.permits + 1)
       case None => w.(loop := Claiming))
    case Claim(found) =>
      if found then w.(loop := Reporting(Started), activeJobs := w.activeJobs + 1)
      else w.(loop := Waking, permits := w.permits + 1)
    case Fork => w.(loop := Waking, jobs := w.jobs + [Running])
    case JobEnds(j) => w.(activeJobs := Max(0, w.activeJobs - 1), jobs := w.jobs[j := Ending])
    case JobReads(j, ok) => w.(jobs := w.jobs[j := Telling(ReadPauseToken(pauseFile, ok))])
    case JobCounts(j) =>
      var token := w.jobs[j].token;
      var snapshot := Snapshot(w, token.Some?, token);
      w.(jobs := w.jobs[j := if w.lastSnapshot == Some(snapshot) then Closing else Storing(snapshot)])
    case JobWrites(j, ok) => WriteState(w, w.jobs[j].snapshot, ok).(jobs := w.jobs[j := Closing])
    case JobCloses(j) => w.(permits := w.permits + 1, jobs := w.jobs[j := Done])
  }

  function Do(s: Sys, a: Action): Sys
    requires Can(s, a)
  {
    if a.Test? then s.(test := Step(s.test, a.e))
    else s.(worker := WorkerStep(s.worker, s.test.pauseFile, a))
  }

  ghost predicate Runs(faults: Faults, s: Sys, actions: seq<Action>, t: Sys)
    decreases |actions|
  {
    if actions == [] then s == t
    else Can(s, actions[0]) && Permitted(faults, actions[0]) && Runs(faults, Do(s, actions[0]), actions[1..], t)
  }

  ghost predicate Reaches(permits: nat, faults: Faults, s: Sys) {
    exists actions :: Runs(faults, Boot(permits), actions, s)
  }

  // ----- Invariants for any number of permits -----

  predicate IsRunning(j: Job) { j.Running? }

  predicate HoldsPermit(j: Job) { !j.Done? }

  /** A job is claimed and counted, but not forked yet. */
  predicate Counted(l: Loop) {
    l == Reporting(Started) || (l.Publishing? && l.report == Started) || l.Forking?
  }

  predicate LoopHolds(l: Loop) { l.Checking? || l.Claiming? || Counted(l) }

  /** No permit is lost, and the job counter counts the claimed jobs that have not ended. */
  ghost predicate PermitInv(w: Worker, permits: nat) {
    && w.permits + (if LoopHolds(w.loop) then 1 else 0) + Count(HoldsPermit, w.jobs) == permits
    && w.activeJobs == Count(IsRunning, w.jobs) + if Counted(w.loop) then 1 else 0
  }

  /** The last snapshot is what the state file holds, and only the loop makes the job counter grow. */
  predicate FileInv(w: Worker) {
    && w.lastSnapshot == w.stateFile
    && (w.loop.Publishing? && w.loop.snapshot.activeJobs == 0 ==> w.activeJobs == 0)
    && (w.loop.Publishing? && w.loop.snapshot.pauseToken.Some? ==> w.loop.report.Paused?)
  }

  ghost predicate Written(log: seq<FileOp>, token: Option<Token>) {
    token.Some? && token.value != TORN ==> exists i :: 0 <= i < |log| && log[i] == Wrote(token.value)
  }

  function LoopToken(l: Loop): Option<Token> {
    match l
    case Reporting(Paused(token)) => Some(token)
    case Publishing(_, snapshot) => snapshot.pauseToken
    case _ => None
  }

  function JobToken(j: Job): Option<Token> {
    match j
    case Telling(token) => token
    case Storing(snapshot) => snapshot.pauseToken
    case _ => None
  }

  /** Every token the worker knows has been in the pause file. */
  ghost predicate TokenInv(s: Sys) {
    var w, log := s.worker, s.test.log;
    && Written(log, LoopToken(w.loop))
    && (w.stateFile.Some? ==> Written(log, w.stateFile.value.pauseToken))
    && (forall j :: 0 <= j < |w.jobs| ==> Written(log, JobToken(w.jobs[j])))
  }

  lemma PauseFileWritten(s: State)
    requires PauseInv(s)
    ensures Written(s.log, s.pauseFile)
  {
    if FileHeld(s) { assert s.log[|s.log| - 1] == Wrote(s.pauseFile.value); }
  }

  lemma LogGrows(s: State, e: Event)
    requires Enabled(s, e)
    ensures |s.log| <= |Step(s, e).log| && s.log == Step(s, e).log[..|s.log|]
  {}

  lemma StepTokens(s: Sys, a: Action)
    requires PauseInv(s.test) && TokenInv(s) && Can(s, a)
    ensures TokenInv(Do(s, a))
  {
    if a.Test? {
      LogGrows(s.test, a.e);
      forall token | Written(s.test.log, token) ensures Written(Do(s, a).test.log, token) {
        if token.Some? && token.value != TORN {
          var i :| 0 <= i < |s.test.log| && s.test.log[i] == Wrote(token.value);
          assert Do(s, a).test.log[i] == Wrote(token.value);
        }
      }
    } else {
      PauseFileWritten(s.test);
      WorkerTokens(s, a);
    }
  }

  lemma WorkerTokens(s: Sys, a: Action)
    requires TokenInv(s) && Can(s, a) && !a.Test? && Written(s.test.log, s.test.pauseFile)
    ensures TokenInv(Do(s, a))
  {
    var w, w' := s.worker, Do(s, a).worker;
    assert Written(s.test.log, LoopToken(w'.loop));
    if a.JobWrites? { assert Written(s.test.log, JobToken(w.jobs[a.j])); }
    forall j | 0 <= j < |w'.jobs| ensures Written(s.test.log, JobToken(w'.jobs[j])) {
      if j < |w.jobs| { assert Written(s.test.log, JobToken(w.jobs[j])); }
    }
  }

  lemma StepPermits(w: Worker, pauseFile: Option<Token>, a: Action, permits: nat)
    requires PermitInv(w, permits) && !a.Test? && Can(Sys(Init, w), a)
    ensures PermitInv(WorkerStep(w, pauseFile, a), permits)
  {
    if a.Fork? {
      CountAppend(IsRunning, w.jobs, Running);
      CountAppend(HoldsPermit, w.jobs, Running);
    }
    if IsJobStep(a) { JobPermits(w, pauseFile, a, permits); }
  }

  predicate IsJobStep(a: Action) {
    a.JobEnds? || a.JobReads? || a.JobCounts? || a.JobWrites? || a.JobCloses?
  }

  lemma JobPermits(w: Worker, pauseFile: Option<Token>, a: Action, permits: nat)
    requires PermitInv(w, permits) && IsJobStep(a) && Can(Sys(Init, w), a)
    ensures PermitInv(WorkerStep(w, pauseFile, a), permits)
  {
    OneJobChanges(w, a.j, WorkerStep(w, pauseFile, a).jobs[a.j]);
    if a.JobEnds? {
      CountZero(IsRunning, w.jobs);
      assert IsRunning(w.jobs[a.j]);
    }
  }

  lemma OneJobChanges(w: Worker, j: nat, job: Job)
    requires j < |w.jobs|
    ensures Count(IsRunning, w.jobs[j := job]) + (if w.jobs[j].Running? then 1 else 0)
         == Count(IsRunning, w.jobs) + (if job.Running? then 1 else 0)
    ensures Count(HoldsPermit, w.jobs[j := job]) + (if w.jobs[j].Done? then 0 else 1)
         == Count(HoldsPermit, w.jobs) + (if job.Done? then 0 else 1)
  {
    CountUpdate(IsRunning, w.jobs, j, job);
    CountUpdate(HoldsPermit, w.jobs, j, job);
  }

  lemma StepFile(w: Worker, pauseFile: Option<Token>, a: Action, permits: nat)
    requires FileInv(w) && PermitInv(w, permits) && !a.Test? && Can(Sys(Init, w), a)
    ensures FileInv(WorkerStep(w, pauseFile, a))
  {
    CountZero(IsRunning, w.jobs);
    if a.JobEnds? { assert IsRunning(w.jobs[a.j]); }
  }

  // ----- One permit: a paused operation never overlaps with work -----

  predicate Committed(l: Loop) { l.Claiming? || Counted(l) }

  /** No job runs, none is being claimed, and none is about to be forked. */
  predicate Idle(w: Worker) {
    w.activeJobs == 0 && !Committed(w.loop)
  }

  /** The state file acknowledges the token that is in the pause file and reports no jobs. */
  predicate Acknowledged(s: Sys) {
    && s.worker.stateFile.Some? && s.worker.stateFile.value.activeJobs == 0
    && s.test.pauseFile.Some? && s.test.pauseFile.value != TORN
    && s.worker.stateFile.value.pauseToken == s.test.pauseFile
  }

  /** At most one job at a time, and the read that decides about claiming one does not fail. */
  predicate Careful(permits: nat, faults: Faults) {
    permits == 0 || (permits == 1 && !faults.check)
  }

  ghost predicate SysInv(s: Sys, permits: nat, faults: Faults) {
    && Inv(s.test) && PermitInv(s.worker, permits) && FileInv(s.worker) && TokenInv(s)
    && (Careful(permits, faults) && (Acknowledged(s) || s.test.activeResume == RemoveFile) ==> Idle(s.worker))
  }

  lemma BootInv(permits: nat, faults: Faults)
    ensures SysInv(Boot(permits), permits, faults)
  {
    InitInv();
  }

  lemma StepTest(s: Sys, e: Event, permits: nat, faults: Faults)
    requires SysInv(s, permits, faults) && Can(s, Test(e))
    ensures SysInv(Do(s, Test(e)), permits, faults)
  {
    StepInv(s.test, e);
    StepTokens(s, Test(e));
    var s' := Do(s, Test(e));
    if e.WriteDone? && e.ok {
      assert PhaseInv(s.test, e.c);
      assert !Acknowledged(s');
    }
    if e.Poll? && s' != s {
      assert PhaseInv(s.test, e.c);
      assert s.test.log[|s.test.log| - 1] == Wrote(s.test.clients[e.c].phase.token);
      assert Acknowledged(s);
    }
  }

  /** A job that has not returned the only permit keeps the worker from claiming another one. */
  lemma JobExcludes(w: Worker, j: nat, permits: nat)
    requires PermitInv(w, permits) && permits <= 1 && j < |w.jobs| && !w.jobs[j].Done? && !w.jobs[j].Running?
    ensures Idle(w)
  {
    var rest := w.jobs[j := Done];
    OneJobChanges(w, j, Done);
    assert HoldsPermit(w.jobs[j]);
    CountZero(HoldsPermit, w.jobs);
    CountZero(HoldsPermit, rest);
    CountZero(IsRunning, rest);
    forall i | 0 <= i < |rest| ensures !IsRunning(rest[i]) { assert !HoldsPermit(rest[i]); }
  }

  lemma StepIdle(s: Sys, a: Action, permits: nat, faults: Faults)
    requires SysInv(s, permits, faults) && Can(s, a) && Permitted(faults, a) && !a.Test? && Careful(permits, faults)
    requires Acknowledged(Do(s, a)) || s.test.activeResume == RemoveFile
    ensures Idle(Do(s, a).worker)
  {
    var w := s.worker;
    CountZero(HoldsPermit, w.jobs);
    CountZero(IsRunning, w.jobs);
    if a.JobWrites? { JobExcludes(w, a.j, permits); }
  }

  lemma StepWorker(s: Sys, a: Action, permits: nat, faults: Faults)
    requires SysInv(s, permits, faults) && Can(s, a) && Permitted(faults, a) && !a.Test?
    ensures SysInv(Do(s, a), permits, faults)
  {
    StepTokens(s, a);
    StepPermits(s.worker, s.test.pauseFile, a, permits);
    StepFile(s.worker, s.test.pauseFile, a, permits);
    if Careful(permits, faults) && (Acknowledged(Do(s, a)) || s.test.activeResume == RemoveFile) {
      StepIdle(s, a, permits, faults);
    }
  }

  lemma {:induction false} RunsInv(faults: Faults, s: Sys, actions: seq<Action>, t: Sys, permits: nat)
    requires SysInv(s, permits, faults) && Runs(faults, s, actions, t)
    ensures SysInv(t, permits, faults)
    decreases |actions|
  {
    if actions != [] {
      if actions[0].Test? {
        StepTest(s, actions[0].e, permits, faults);
      } else {
        StepWorker(s, actions[0], permits, faults);
      }
      RunsInv(faults, Do(s, actions[0]), actions[1..], t, permits);
    }
  }

  lemma ReachesInv(permits: nat, faults: Faults, s: Sys)
    requires Reaches(permits, faults, s)
    ensures SysInv(s, permits, faults)
  {
    var actions :| Runs(faults, Boot(permits), actions, s);
    BootInv(permits, faults);
    RunsInv(faults, Boot(permits), actions, s, permits);
  }

  /** Some operation runs under a pause that the worker has acknowledged. */
  ghost predicate PausedOperation(s: Sys, c: nat) {
    c < |s.test.clients| && s.test.clients[c].phase.Operating? && s.test.activeResume == RemoveFile
  }

  /** While an operation runs under an acknowledged pause, no job runs and none is being claimed. */
  ghost predicate PauseIsSafe(permits: nat, faults: Faults) {
    forall s, c :: Reaches(permits, faults, s) && PausedOperation(s, c) ==>
      && s.test.pauseFile.Some? && s.test.pauseFile.value != TORN
      && !Committed(s.worker.loop)
      && (forall j :: 0 <= j < |s.worker.jobs| ==> !s.worker.jobs[j].Running?)
  }

  /** A careful worker keeps the pause, even if its other two reads of the pause file fail at any time. */
  lemma OnePermitIsSafe(permits: nat, faults: Faults)
    requires Careful(permits, faults)
    ensures PauseIsSafe(permits, faults)
  {
    forall s, c | Reaches(permits, faults, s) && PausedOperation(s, c)
      ensures s.test.pauseFile.Some? && s.test.pauseFile.value != TORN
      ensures !Committed(s.worker.loop)
      ensures forall j :: 0 <= j < |s.worker.jobs| ==> !s.worker.jobs[j].Running?
    {
      ReachesInv(permits, faults, s);
      CountZero(IsRunning, s.worker.jobs);
      forall j | 0 <= j < |s.worker.jobs| ensures !s.worker.jobs[j].Running? { assert !IsRunning(s.worker.jobs[j]); }
    }
  }

  // ----- Runs, step by step -----

  lemma {:induction false} RunsStep(faults: Faults, s: Sys, actions: seq<Action>, t: Sys, a: Action)
    requires Runs(faults, s, actions, t) && Can(t, a) && Permitted(faults, a)
    ensures Runs(faults, s, actions + [a], Do(t, a))
    decreases |actions|
  {
    if actions == [] {
      assert [a][1..] == [];
    } else {
      assert (actions + [a])[1..] == actions[1..] + [a];
      RunsStep(faults, Do(s, actions[0]), actions[1..], t, a);
    }
  }

  /** One more reachable state. */
  lemma Advance(permits: nat, faults: Faults, s: Sys, a: Action) returns (t: Sys)
    requires Reaches(permits, faults, s) && Can(s, a) && Permitted(faults, a)
    ensures t == Do(s, a) && Reaches(permits, faults, t)
  {
    t := Do(s, a);
    var actions :| Runs(faults, Boot(permits), actions, s);
    RunsStep(faults, Boot(permits), actions, s, a);
  }

  /** A job runs, and the loop has found no pause file and asks for the next permit. */
  lemma AskingBesideJob(permits: nat, faults: Faults) returns (s: Sys)
    requires permits >= 1
    ensures Reaches(permits, faults, s) && s.test == Init
    ensures s.worker == Worker(Taking, false, Some(WorkerState(1, false, None)), Some(WorkerState(1, false, None)),
                               1, permits - 1, [Running])
  {
    s := Boot(permits);
    assert Runs(faults, s, [], s);
    s := Advance(permits, faults, s, ReadToken(true));
    s := Advance(permits, faults, s, TakePermit);
    s := Advance(permits, faults, s, CheckToken(true));
    s := Advance(permits, faults, s, Claim(true));
    s := Advance(permits, faults, s, LoopCounts);
    s := Advance(permits, faults, s, LoopWrites(true));
    s := Advance(permits, faults, s, Fork);
    s := Advance(permits, faults, s, ReadToken(true));
  }

  lemma CallEntered(permits: nat, faults: Faults, s: Sys) returns (t: Sys)
    requires Reaches(permits, faults, s) && s.test == Init
    ensures Reaches(permits, faults, t) && t.worker == s.worker
    ensures t.test == Init.(configured := true, pauseMutex := 1, settled := [true, false],
                            clients := [Client(Ticket(0, 1), Preparing)])
  {
    t := Advance(permits, faults, s, Test(Configure(true)));
    t := Advance(permits, faults, t, Test(Request));
    t := Advance(permits, faults, t, Test(EnterAcquire(0)));
  }

  /** The suite writes token 1 and waits for it to be acknowledged. */
  lemma PauseRequested(permits: nat, faults: Faults, s: Sys) returns (t: Sys)
    requires Reaches(permits, faults, s) && s.test == Init
    ensures Reaches(permits, faults, t) && t.worker == s.worker
    ensures t.test.pauseFile == Some(1) && t.test.settled == [true, false]
    ensures t.test.clients == [Client(Ticket(0, 1), Polling(1))]
  {
    t := CallEntered(permits, faults, s);
    t := Advance(permits, faults, t, Test(MkdirDone(0, true)));
    t := Advance(permits, faults, t, Test(WriteDone(0, true)));
  }

  /** The job ends and reports a paused worker without jobs. */
  lemma IdleReported(permits: nat, faults: Faults, s: Sys) returns (t: Sys)
    requires Reaches(permits, faults, s) && s.test.pauseFile == Some(1)
    requires s.worker.jobs == [Running] && s.worker.activeJobs == 1
    requires s.worker.lastSnapshot == Some(WorkerState(1, false, None))
    ensures Reaches(permits, faults, t) && t.test == s.test
    ensures t.worker == s.worker.(jobs := [Closing], activeJobs := 0, stateFile := Some(WorkerState(0, true, Some(1))),
                                  lastSnapshot := Some(WorkerState(0, true, Some(1))))
  {
    t := Advance(permits, faults, s, JobEnds(0));
    t := Advance(permits, faults, t, JobReads(0, true));
    t := Advance(permits, faults, t, JobCounts(0));
    t := Advance(permits, faults, t, JobWrites(0, true));
  }

  /** The suite takes that report for its pause. */
  lemma PauseGranted(permits: nat, faults: Faults, s: Sys) returns (t: Sys)
    requires Reaches(permits, faults, s) && s.test.pauseFile == Some(1) && s.test.settled == [true, false]
    requires s.test.clients == [Client(Ticket(0, 1), Polling(1))]
    requires s.worker.stateFile == Some(WorkerState(0, true, Some(1)))
    ensures Reaches(permits, faults, t) && PausedOperation(t, 0) && t.test.pauseFile == Some(1)
    ensures t.worker == s.worker
  {
    t := Advance(permits, faults, s, Test(Event.Poll(0, Some(WorkerState(0, true, Some(1))))));
    t := Advance(permits, faults, t, Test(Leave(0)));
  }

  /** The loop starts the job it was claiming. */
  lemma JobStarts(permits: nat, faults: Faults, s: Sys) returns (t: Sys)
    requires Reaches(permits, faults, s) && PausedOperation(s, 0) && s.worker.loop == Claiming
    ensures Reaches(permits, faults, t) && PausedOperation(t, 0)
    ensures t.worker.jobs == s.worker.jobs + [Running]
  {
    t := Advance(permits, faults, s, Claim(true));
    t := Advance(permits, faults, t, LoopCounts);
    if t.worker.loop.Publishing? {
      t := Advance(permits, faults, t, LoopWrites(true));
    }
    t := Advance(permits, faults, t, Fork);
  }

  /**
   * With two permits the job that ends reports an idle, paused worker although the loop has passed its
   * check of the pause file and is about to start another job.
   */
  lemma TwoPermitsAreUnsafe(permits: nat, faults: Faults) returns (s: Sys)
    requires permits >= 2
    ensures Reaches(permits, faults, s) && PausedOperation(s, 0) && |s.worker.jobs| == 2 && s.worker.jobs[1].Running?
  {
    s := AskingBesideJob(permits, faults);
    s := Advance(permits, faults, s, TakePermit);
    s := Advance(permits, faults, s, CheckToken(true));
    s := PauseRequested(permits, faults, s);
    s := IdleReported(permits, faults, s);
    s := PauseGranted(permits, faults, s);
    s := JobStarts(permits, faults, s);
  }

  /** With one permit, a failed second read of the pause file lets a job start under the pause. */
  lemma FailedCheckIsUnsafe(permits: nat, faults: Faults) returns (s: Sys)
    requires permits >= 1 && faults.check
    ensures Reaches(permits, faults, s) && PausedOperation(s, 0) && |s.worker.jobs| == 2 && s.worker.jobs[1].Running?
  {
    s := AskingBesideJob(permits, faults);
    s := PauseRequested(permits, faults, s);
    s := IdleReported(permits, faults, s);
    s := PauseGranted(permits, faults, s);
    s := Advance(permits, faults, s, JobCloses(0));
    s := Advance(permits, faults, s, TakePermit);
    s := Advance(permits, faults, s, CheckToken(false));
    s := JobStarts(permits, faults, s);
  }

  /**
   * The pause excludes concurrent work exactly if the worker has at most one permit and, holding it,
   * never fails to read the pause file. The other two reads may fail at any time.
   */
  lemma PauseIsSafeIffOnePermit(permits: nat, faults: Faults)
    ensures PauseIsSafe(permits, faults) <==> permits == 0 || (permits == 1 && !faults.check)
  {
    if Careful(permits, faults) {
      OnePermitIsSafe(permits, faults);
    } else if permits >= 2 {
      var s := TwoPermitsAreUnsafe(permits, faults);
    } else {
      var s := FailedCheckIsUnsafe(permits, faults);
    }
  }

  /** With the one permit the worker is built with, the pause is safe exactly if the second read does not fail. */
  lemma ShippedWorkerIsSafe(faults: Faults)
    ensures PauseIsSafe(GLOBAL_MAX_CONCURRENT, faults) <==> !faults.check
  {
    PauseIsSafeIffOnePermit(GLOBAL_MAX_CONCURRENT, faults);
  }

  // ----- A pause that is asked for can be granted -----

  /** What the worker does when no read, write or claim gets in the way. */
  predicate Willing(a: Action) {
    match a
    case Test(_) => false
    case ReadToken(ok) => ok
    case LoopWrites(ok) => ok
    case CheckToken(ok) => ok
    case Claim(found) => !found
    case JobReads(_, ok) => ok
    case JobWrites(_, ok) => ok
    case _ => true
  }

  function JobWork(j: Job): nat {
    match j
    case Running => 5
    case Ending => 4
    case Telling(_) => 3
    case Storing(_) => 2
    case Closing => 1
    case Done => 0
  }

  function JobsWork(jobs: seq<Job>): nat {
    if jobs == [] then 0 else JobWork(jobs[0]) + JobsWork(jobs[1..])
  }

  function LoopWork(l: Loop): nat {
    match l
    case Waking => 0
    case Publishing(Paused(_), _) => 1
    case Reporting(Paused(_)) => 2
    case Claiming => 1
    case Checking => 3
    case Taking => 4
    case Publishing(Resumed, _) => 5
    case Reporting(Resumed) => 6
    case Forking => 6
    case Publishing(Started, _) => 7
    case Reporting(Started) => 8
  }

  function Work(w: Worker): nat {
    LoopWork(w.loop) + JobsWork(w.jobs)
  }

  lemma {:induction false} JobsWorkUpdate(jobs: seq<Job>, j: nat, job: Job)
    requires j < |jobs|
    ensures JobsWork(jobs[j := job]) + JobWork(jobs[j]) == JobsWork(jobs) + JobWork(job)
  {
    if j == 0 {
      assert jobs[j := job][1..] == jobs[1..];
    } else {
      assert jobs[j := job][1..] == jobs[1..][j - 1 := job];
      JobsWorkUpdate(jobs[1..], j - 1, job);
    }
  }

  lemma {:induction false} JobsWorkAppend(jobs: seq<Job>, job: Job)
    ensures JobsWork(jobs + [job]) == JobsWork(jobs) + JobWork(job)
  {
    if jobs == [] {
      assert jobs + [job] == [job];
    } else {
      assert (jobs + [job])[1..] == jobs[1..] + [job];
      JobsWorkAppend(jobs[1..], job);
    }
  }

  function NextJobStep(j: nat, job: Job): Action
    requires !job.Done?
  {
    match job
    case Running => JobEnds(j)
    case Ending => JobReads(j, true)
    case Telling(_) => JobCounts(j)
    case Storing(_) => JobWrites(j, true)
    case Closing => JobCloses(j)
  }

  lemma JobGoesOn(s: Sys, j: nat)
    requires j < |s.worker.jobs| && !s.worker.jobs[j].Done?
    ensures var a := NextJobStep(j, s.worker.jobs[j]);
            Can(s, a) && Willing(a) && Do(s, a).test == s.test && Work(Do(s, a).worker) < Work(s.worker)
  {
    var a := NextJobStep(j, s.worker.jobs[j]);
    JobsWorkUpdate(s.worker.jobs, j, Do(s, a).worker.jobs[j]);
  }

  function NextLoopStep(l: Loop): Action {
    match l
    case Waking => ReadToken(true)
    case Reporting(_) => LoopCounts
    case Publishing(_, _) => LoopWrites(true)
    case Taking => TakePermit
    case Checking => CheckToken(true)
    case Claiming => Claim(false)
    case Forking => Fork
  }

  lemma LoopGoesOn(s: Sys, permits: nat)
    requires PermitInv(s.worker, permits) && permits >= 1 && !s.worker.loop.Waking? && s.test.pauseFile.Some?
    requires forall j :: 0 <= j < |s.worker.jobs| ==> s.worker.jobs[j].Done?
    ensures var a := NextLoopStep(s.worker.loop);
            Can(s, a) && Willing(a) && Do(s, a).test == s.test && Work(Do(s, a).worker) < Work(s.worker)
  {
    CountZero(HoldsPermit, s.worker.jobs);
    JobsWorkAppend(s.worker.jobs, Running);
  }

  /** The worker can always finish its jobs and come back to where it reads the pause file. */
  lemma {:induction false} WorkerSettles(permits: nat, faults: Faults, s: Sys) returns (actions: seq<Action>, t: Sys)
    requires SysInv(s, permits, faults) && permits >= 1 && s.test.pauseFile.Some?
    ensures Runs(faults, s, actions, t) && t.test == s.test && SysInv(t, permits, faults)
    ensures forall i :: 0 <= i < |actions| ==> Willing(actions[i])
    ensures t.worker.loop == Waking && forall j :: 0 <= j < |t.worker.jobs| ==> t.worker.jobs[j].Done?
    decreases Work(s.worker)
  {
    if j :| 0 <= j < |s.worker.jobs| && !s.worker.jobs[j].Done? {
      JobGoesOn(s, j);
      actions, t := GoOn(permits, faults, s, NextJobStep(j, s.worker.jobs[j]));
    } else if s.worker.loop.Waking? {
      actions, t := [], s;
    } else {
      LoopGoesOn(s, permits);
      actions, t := GoOn(permits, faults, s, NextLoopStep(s.worker.loop));
    }
  }

  lemma {:induction false} GoOn(permits: nat, faults: Faults, s: Sys, a: Action) returns (actions: seq<Action>, t: Sys)
    requires SysInv(s, permits, faults) && permits >= 1 && s.test.pauseFile.Some?
    requires Can(s, a) && Willing(a) && Do(s, a).test == s.test && Work(Do(s, a).worker) < Work(s.worker)
    ensures Runs(faults, s, actions, t) && t.test == s.test && SysInv(t, permits, faults)
    ensures forall i :: 0 <= i < |actions| ==> Willing(actions[i])
    ensures t.worker.loop == Waking && forall j :: 0 <= j < |t.worker.jobs| ==> t.worker.jobs[j].Done?
    decreases Work(s.worker), 0
  {
    StepWorker(s, a, permits, faults);
    var rest;
    rest, t := WorkerSettles(permits, faults, Do(s, a));
    actions := [a] + rest;
    assert actions[1..] == rest;
  }

  /** The state file says what the worker reports, whether the report was written now or was the last one. */
  lemma IdleWorkerReports(permits: nat, faults: Faults, s: Sys) returns (actions: seq<Action>, t: Sys)
    requires SysInv(s, permits, faults) && s.test.pauseFile.Some? && s.worker.loop == Waking
    requires forall j :: 0 <= j < |s.worker.jobs| ==> s.worker.jobs[j].Done?
    ensures Runs(faults, s, actions, t) && t.test == s.test
    ensures forall i :: 0 <= i < |actions| ==> Willing(actions[i])
    ensures t.worker.stateFile == Some(WorkerState(0, true, s.test.pauseFile))
  {
    CountZero(IsRunning, s.worker.jobs);
    assert Runs(faults, s, [], s);
    RunsStep(faults, s, [], s, ReadToken(true));
    actions, t := [] + [ReadToken(true)], Do(s, ReadToken(true));
    RunsStep(faults, s, actions, t, LoopCounts);
    actions, t := actions + [LoopCounts], Do(t, LoopCounts);
    if t.worker.loop.Publishing? {
      RunsStep(faults, s, actions, t, LoopWrites(true));
      actions, t := actions + [LoopWrites(true)], Do(t, LoopWrites(true));
    }
  }

  lemma {:induction false} RunsConcat(faults: Faults, s: Sys, a: seq<Action>, t: Sys, b: seq<Action>, u: Sys)
    requires Runs(faults, s, a, t) && Runs(faults, t, b, u)
    ensures Runs(faults, s, a + b, u)
    decreases |a|
  {
    if a == [] {
      assert a + b == b;
    } else {
      assert (a + b)[1..] == a[1..] + b;
      RunsConcat(faults, Do(s, a[0]), a[1..], t, b, u);
    }
  }

  /**
   * From every reachable state in which a call polls, the worker alone, with at least one permit, can
   * take steps after which the call's next poll acquires the pause.
   */
  lemma PauseCanBeGranted(permits: nat, faults: Faults, s: Sys, c: nat) returns (actions: seq<Action>, t: Sys)
    requires Reaches(permits, faults, s) && permits >= 1
    requires c < |s.test.clients| && s.test.clients[c].phase.Polling?
    ensures Runs(faults, s, actions, t) && forall i :: 0 <= i < |actions| ==> Willing(actions[i])
    ensures var poll := Test(Event.Poll(c, t.worker.stateFile));
            Can(t, poll) && Do(t, poll).test.clients[c].phase == Leaving(Acquired)
            && Do(t, poll).test.activeResume == RemoveFile
  {
    ReachesInv(permits, faults, s);
    assert PhaseInv(s.test, c);
    var first, mid := WorkerSettles(permits, faults, s);
    var second;
    second, t := IdleWorkerReports(permits, faults, mid);
    RunsConcat(faults, s, first, mid, second, t);
    actions := first + second;
  }

  // ----- Without a pause file the worker goes back to work -----

  /** What the worker does by itself when no read or write fails. */
  predicate Working(a: Action) {
    Willing(a) || a == Claim(true)
  }

  function WayToClaim(l: Loop): nat {
    match l
    case Claiming => 0
    case Checking => 1
    case Taking => 2
    case Publishing(Resumed, _) => 3
    case Reporting(Resumed) => 4
    case Waking => 5
    case Publishing(Paused(_), _) => 6
    case Reporting(Paused(_)) => 7
    case Forking => 11
    case Publishing(Started, _) => 12
    case Reporting(Started) => 13
  }

  function ClaimWork(w: Worker): nat {
    WayToClaim(w.loop) + JobsWork(w.jobs)
  }

  lemma JobNearsClaim(s: Sys, j: nat)
    requires j < |s.worker.jobs| && !s.worker.jobs[j].Done?
    ensures var a := NextJobStep(j, s.worker.jobs[j]);
            Can(s, a) && Working(a) && Do(s, a).test == s.test && ClaimWork(Do(s, a).worker) < ClaimWork(s.worker)
  {
    var a := NextJobStep(j, s.worker.jobs[j]);
    JobsWorkUpdate(s.worker.jobs, j, Do(s, a).worker.jobs[j]);
  }

  lemma LoopNearsClaim(s: Sys, permits: nat)
    requires PermitInv(s.worker, permits) && permits >= 1 && !s.worker.loop.Claiming? && s.test.pauseFile.None?
    requires forall j :: 0 <= j < |s.worker.jobs| ==> s.worker.jobs[j].Done?
    ensures var a := NextLoopStep(s.worker.loop);
            Can(s, a) && Working(a) && Do(s, a).test == s.test && ClaimWork(Do(s, a).worker) < ClaimWork(s.worker)
  {
    CountZero(HoldsPermit, s.worker.jobs);
    JobsWorkAppend(s.worker.jobs, Running);
  }

  lemma {:induction false} WorkerClaims(permits: nat, faults: Faults, s: Sys) returns (actions: seq<Action>, t: Sys)
    requires SysInv(s, permits, faults) && permits >= 1 && s.test.pauseFile.None?
    ensures Runs(faults, s, actions, t) && t.test == s.test && SysInv(t, permits, faults)
    ensures forall i :: 0 <= i < |actions| ==> Working(actions[i])
    ensures t.worker.loop == Claiming && forall j :: 0 <= j < |t.worker.jobs| ==> t.worker.jobs[j].Done?
    decreases ClaimWork(s.worker), 1
  {
    if j :| 0 <= j < |s.worker.jobs| && !s.worker.jobs[j].Done? {
      JobNearsClaim(s, j);
      actions, t := NearClaim(permits, faults, s, NextJobStep(j, s.worker.jobs[j]));
    } else if s.worker.loop.Claiming? {
      actions, t := [], s;
    } else {
      LoopNearsClaim(s, permits);
      actions, t := NearClaim(permits, faults, s, NextLoopStep(s.worker.loop));
    }
  }

  lemma {:induction false} NearClaim(permits: nat, faults: Faults, s: Sys, a: Action) returns (actions: seq<Action>, t: Sys)
    requires SysInv(s, permits, faults) && permits >= 1 && s.test.pauseFile.None?
    requires Can(s, a) && Working(a) && Do(s, a).test == s.test && ClaimWork(Do(s, a).worker) < ClaimWork(s.worker)
    ensures Runs(faults, s, actions, t) && t.test == s.test && SysInv(t, permits, faults)
    ensures forall i :: 0 <= i < |actions| ==> Working(actions[i])
    ensures t.worker.loop == Claiming && forall j :: 0 <= j < |t.worker.jobs| ==> t.worker.jobs[j].Done?
    decreases ClaimWork(s.worker), 0
  {
    StepWorker(s, a, permits, faults);
    var rest;
    rest, t := WorkerClaims(permits, faults, Do(s, a));
    actions := [a] + rest;
    assert actions[1..] == rest;
  }

  /** A claimed job is reported and runs. */
  lemma ClaimedJobRuns(permits: nat, faults: Faults, s: Sys) returns (actions: seq<Action>, t: Sys)
    requires SysInv(s, permits, faults) && s.worker.loop == Claiming
    requires forall j :: 0 <= j < |s.worker.jobs| ==> s.worker.jobs[j].Done?
    ensures Runs(faults, s, actions, t) && t.test == s.test
    ensures forall i :: 0 <= i < |actions| ==> Working(actions[i])
    ensures t.worker.jobs == s.worker.jobs + [Running] && t.worker.stateFile == Some(WorkerState(1, false, None))
  {
    CountZero(IsRunning, s.worker.jobs);
    assert Runs(faults, s, [], s);
    RunsStep(faults, s, [], s, Claim(true));
    actions, t := [] + [Claim(true)], Do(s, Claim(true));
    RunsStep(faults, s, actions, t, LoopCounts);
    actions, t := actions + [LoopCounts], Do(t, LoopCounts);
    if t.worker.loop.Publishing? {
      RunsStep(faults, s, actions, t, LoopWrites(true));
      actions, t := actions + [LoopWrites(true)], Do(t, LoopWrites(true));
    }
    RunsStep(faults, s, actions, t, Fork);
    actions, t := actions + [Fork], Do(t, Fork);
  }

  /**
   * From every reachable state without a pause file, the worker alone, with at least one permit, can take
   * steps that end with a new job running and with a state file that reports it and no pause.
   */
  lemma WorkCanResume(permits: nat, faults: Faults, s: Sys) returns (actions: seq<Action>, t: Sys)
    requires Reaches(permits, faults, s) && permits >= 1 && s.test.pauseFile.None?
    ensures Runs(faults, s, actions, t) && t.test == s.test
    ensures forall i :: 0 <= i < |actions| ==> Working(actions[i])
    ensures t.worker.jobs != [] && t.worker.jobs[|t.worker.jobs| - 1].Running?
    ensures t.worker.stateFile == Some(WorkerState(1, false, None))
  {
    ReachesInv(permits, faults, s);
    var first, mid := WorkerClaims(permits, faults, s);
    var second;
    second, t := ClaimedJobRuns(permits, faults, mid);
    RunsConcat(faults, s, first, mid, second, t);
    actions := first + second;
  }

  // ----- What the state file says of a pause that is over -----

  predicate ReportsPause(w: Worker) {
    w.stateFile.Some? && w.stateFile.value.paused
  }

  /** The loop is telling that it has seen the pause file. */
  predicate TellsPause(l: Loop) {
    (l.Reporting? && l.report.Paused?) || (l.Publishing? && l.report.Paused?)
  }

  /** The loop remembers the pause from the read that found it until the next read on waking that finds none. */
  predicate FlagInv(w: Worker) {
    && (TellsPause(w.loop) ==> w.lastPauseState)
    && (!TellsPause(w.loop) && !w.loop.Waking? ==> !w.lastPauseState)
  }

  lemma StepFlag(w: Worker, pauseFile: Option<Token>, a: Action)
    requires FlagInv(w) && !a.Test? && Can(Sys(Init, w), a)
    ensures FlagInv(WorkerStep(w, pauseFile, a))
  {}

  lemma {:induction false} RunsFlag(faults: Faults, s: Sys, actions: seq<Action>, t: Sys)
    requires FlagInv(s.worker) && Runs(faults, s, actions, t)
    ensures FlagInv(t.worker)
    decreases |actions|
  {
    if actions != [] {
      if !actions[0].Test? { StepFlag(s.worker, s.test.pauseFile, actions[0]); }
      RunsFlag(faults, Do(s, actions[0]), actions[1..], t);
    }
  }

  lemma ReachesFlag(permits: nat, faults: Faults, s: Sys)
    requires Reaches(permits, faults, s)
    ensures FlagInv(s.worker)
  {
    var actions :| Runs(faults, Boot(permits), actions, s);
    RunsFlag(faults, Boot(permits), actions, s);
  }

  /**
   * When the loop wakes after the pause file is gone, it comes to ask for a permit; the state file then still
   * reports a pause exactly if it did before and the loop had not seen the pause itself.
   */
  lemma WithdrawnIff(permits: nat, faults: Faults, s: Sys) returns (actions: seq<Action>, t: Sys)
    requires Reaches(permits, faults, s) && s.worker.loop == Waking && s.test.pauseFile.None?
    ensures Runs(faults, s, actions, t) && t.test == s.test && t.worker.loop == Taking
    ensures forall i :: 0 <= i < |actions| ==> Willing(actions[i])
    ensures ReportsPause(t.worker) <==> ReportsPause(s.worker) && !s.worker.lastPauseState
  {
    ReachesInv(permits, faults, s);
    assert Runs(faults, s, [], s);
    RunsStep(faults, s, [], s, ReadToken(true));
    actions, t := [] + [ReadToken(true)], Do(s, ReadToken(true));
    if t.worker.loop.Reporting? {
      RunsStep(faults, s, actions, t, LoopCounts);
      actions, t := actions + [LoopCounts], Do(t, LoopCounts);
      if t.worker.loop.Publishing? {
        RunsStep(faults, s, actions, t, LoopWrites(true));
        actions, t := actions + [LoopWrites(true)], Do(t, LoopWrites(true));
      }
    }
  }

  /** A pause that the loop itself reports is withdrawn once the pause file is gone. */
  lemma LoopWithdrawsItsReport(permits: nat, faults: Faults, s: Sys) returns (actions: seq<Action>, t: Sys)
    requires Reaches(permits, faults, s) && TellsPause(s.worker.loop) && s.test.pauseFile.None?
    ensures Runs(faults, s, actions, t) && t.test == s.test && t.worker.loop == Taking && !ReportsPause(t.worker)
  {
    ReachesFlag(permits, faults, s);
    assert Runs(faults, s, [], s);
    var first, mid := [], s;
    if mid.worker.loop.Reporting? {
      RunsStep(faults, s, first, mid, LoopCounts);
      mid := Advance(permits, faults, mid, LoopCounts);
      first := first + [LoopCounts];
    }
    if mid.worker.loop.Publishing? {
      RunsStep(faults, s, first, mid, LoopWrites(true));
      mid := Advance(permits, faults, mid, LoopWrites(true));
      first := first + [LoopWrites(true)];
    }
    var second;
    second, t := WithdrawnIff(permits, faults, mid);
    RunsConcat(faults, s, first, mid, second, t);
    actions := first + second;
  }

  /** The report of a job that ended during the pause can stay: here the loop is claiming a job below it. */
  lemma JobReportCanStay(permits: nat, faults: Faults) returns (s: Sys)
    requires permits >= 1
    ensures Reaches(permits, faults, s) && s.test.pauseFile.None? && s.worker.loop == Claiming && ReportsPause(s.worker)
  {
    s := AskingBesideJob(permits, faults);
    s := PauseRequested(permits, faults, s);
    s := IdleReported(permits, faults, s);
    s := Advance(permits, faults, s, JobCloses(0));
    s := Advance(permits, faults, s, Test(Deadline(0)));
    s := Advance(permits, faults, s, Test(TimeoutRemoved(0)));
    s := Advance(permits, faults, s, TakePermit);
    s := Advance(permits, faults, s, CheckToken(true));
  }

  // ----- What is reported is true -----

  ghost function ClaimedJobs(w: Worker): int {
    Count(IsRunning, w.jobs) + if Counted(w.loop) then 1 else 0
  }

  function ReportedToken(report: Report): Option<Token> {
    match report
    case Paused(token) => Some(token)
    case _ => None
  }

  /**
   * When a report is drawn up it counts the claimed jobs that have not ended and says a pause exactly if a
   * token was read; it is written exactly if the state file says something else.
   */
  lemma LoopReportIsTrue(permits: nat, faults: Faults, s: Sys)
    requires Reaches(permits, faults, s) && Can(s, LoopCounts)
    ensures var token, l := ReportedToken(s.worker.loop.report), Do(s, LoopCounts).worker.loop;
            ClaimedJobs(s.worker) >= 0 && var truth := WorkerState(ClaimedJobs(s.worker), token.Some?, token);
            if s.worker.stateFile == Some(truth) then !l.Publishing?
            else l == Publishing(s.worker.loop.report, truth)
  {
    ReachesInv(permits, faults, s);
  }

  lemma JobReportIsTrue(permits: nat, faults: Faults, s: Sys, j: nat)
    requires Reaches(permits, faults, s) && Can(s, JobCounts(j))
    ensures var token, job := s.worker.jobs[j].token, Do(s, JobCounts(j)).worker.jobs[j];
            ClaimedJobs(s.worker) >= 0 && var truth := WorkerState(ClaimedJobs(s.worker), token.Some?, token);
            job == if s.worker.stateFile == Some(truth) then Closing else Storing(truth)
  {
    ReachesInv(permits, faults, s);
  }
}
