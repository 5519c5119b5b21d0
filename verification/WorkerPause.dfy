/**
 * The end-to-end suite's side of the worker pause protocol
 * (apps/graphql-e2e/support/local-worker-pause.ts).
 *
 * Every call of `withPausedLocalWorker` is a client. Between two `await`s a client runs
 * without interruption, so each such stretch is one step; steps of different clients
 * interleave freely. The promise chain behind `withPauseMutex` is kept as a list of
 * promises (`settled`) and the index the variable `pauseMutex` holds; mutual exclusion and
 * first-come order are consequences, not assumptions.
 */
module WorkerPause {
  import opened Wrappers
  import opened Seqs

  type Token = nat

  /** What a reader sees in a pause file that has been opened but not yet written. */
  const TORN: Token := 0

  /** The content of the worker's state file. */
  datatype WorkerState = WorkerState(activeJobs: nat, paused: bool, pauseToken: Option<Token>)

  /** `activeResume`: null, the do-nothing closure, or the closure that removes the pause file. */
  datatype Resume = NoResume | DoNothing | RemoveFile

  /** One call of `withPauseMutex`: the promise it awaits and the promise it resolves. */
  datatype Ticket = Ticket(previous: nat, own: nat)

  datatype Verdict = Acquired | Released | Threw

  datatype Phase =
    | AwaitAcquire
    | Preparing                // awaiting mkdir
    | Writing(token: Token)    // awaiting writeFile
    | Polling(token: Token)
    | TimingOut(token: Token)  // awaiting rm after the deadline
    | Operating
    | AwaitRelease
    | Removing                 // awaiting rm of the resume closure
    | Leaving(verdict: Verdict)  // critical section done, the mutex promise not yet resolved
    | Finished
    | Failed

  datatype Client = Client(ticket: Ticket, phase: Phase)

  /** Completed writes and removals of the pause file, oldest first. */
  datatype FileOp = Wrote(token: Token) | Removed

  datatype State = State(
    activePauseCount: int,
    activeResume: Resume,
    pauseMutex: nat,
    settled: seq<bool>,
    clients: seq<Client>,
    configured: bool,
    pauseFile: Option<Token>,
    nextToken: Token,
    log: seq<FileOp>)

  datatype Event =
    | Configure(on: bool)
    | Request
    | EnterAcquire(c: nat)
    | MkdirDone(c: nat, ok: bool)
    | FileOpened(c: nat)
    | WriteDone(c: nat, ok: bool)
    | Poll(c: nat, seen: Option<WorkerState>)
    | Deadline(c: nat)
    | TimeoutRemoved(c: nat)
    | Leave(c: nat)
    | CallResume(c: nat)
    | EnterRelease(c: nat)
    | ResumeRemoved(c: nat)

  const Init := State(0, NoResume, 0, [true], [], false, None, TORN + 1, [])

  predicate InCritical(p: Phase) {
    p.Preparing? || p.Writing? || p.Polling? || p.TimingOut? || p.Removing? || p.Leaving?
  }

  /** The client has called `withPauseMutex` and its promise is not yet resolved. */
  predicate Active(p: Phase) {
    p.AwaitAcquire? || p.AwaitRelease? || InCritical(p)
  }

  /** The client's handle has been counted and its decrement has not happened yet. */
  predicate Live(p: Phase) {
    p == Leaving(Acquired) || p.Operating? || p.AwaitRelease?
  }

  /** The client's call of `acquireLocalWorkerPause` has returned a handle. */
  predicate HasHandle(p: Phase) {
    p.Operating? || p.AwaitRelease? || p.Removing? || p == Leaving(Released) || p.Finished?
  }

  function SetPhase(s: State, c: nat, p: Phase): State
    requires c < |s.clients|
  {
    s.(clients := s.clients[c := s.clients[c].(phase := p)])
  }

  /** The synchronous prefix of `withPauseMutex`. */
  function TakeTicket(s: State): (State, Ticket) {
    (s.(settled := s.settled + [false], pauseMutex := |s.settled|), Ticket(s.pauseMutex, |s.settled|))
  }

  predicate MayEnter(s: State, c: nat) {
    c < |s.clients| && s.clients[c].ticket.previous < |s.settled| && s.settled[s.clients[c].ticket.previous]
  }

  /** The client is inside its critical section or may enter it now. */
  predicate MayRun(s: State, c: nat) {
    c < |s.clients| && Active(s.clients[c].phase) && (InCritical(s.clients[c].phase) || MayEnter(s, c))
  }

  predicate Enabled(s: State, e: Event) {
    match e
    case Configure(_) => true
    case Request => true
    case EnterAcquire(c) => MayEnter(s, c) && s.clients[c].phase.AwaitAcquire?
    case MkdirDone(c, _) => c < |s.clients| && s.clients[c].phase.Preparing?
    case FileOpened(c) => c < |s.clients| && s.clients[c].phase.Writing?
    case WriteDone(c, _) => c < |s.clients| && s.clients[c].phase.Writing?
    case Poll(c, _) => c < |s.clients| && s.clients[c].phase.Polling?
    case Deadline(c) => c < |s.clients| && s.clients[c].phase.Polling?
    case TimeoutRemoved(c) => c < |s.clients| && s.clients[c].phase.TimingOut?
    case Leave(c) => c < |s.clients| && s.clients[c].phase.Leaving? && s.clients[c].ticket.own < |s.settled|
    case CallResume(c) => c < |s.clients| && HasHandle(s.clients[c].phase)
    case EnterRelease(c) => MayEnter(s, c) && s.clients[c].phase.AwaitRelease?
    case ResumeRemoved(c) => c < |s.clients| && s.clients[c].phase.Removing?
  }

  function Counted(s: State, c: nat, resume: Resume): State
    requires c < |s.clients|
  {
    SetPhase(s, c, Leaving(Acquired)).(activePauseCount := s.activePauseCount + 1, activeResume := resume)
  }

  function Max(a: int, b: int): int { if a < b then b else a }

  function RemovePauseFile(s: State): State {
    s.(pauseFile := None, log := s.log + [Removed])
  }

  function Step(s: State, e: Event): State
    requires Enabled(s, e)
  {
    match e
    case Configure(on) => s.(configured := on)
    case Request =>
      var (s', ticket) := TakeTicket(s);
      s'.(clients := s.clients + [Client(ticket, AwaitAcquire)])
    case EnterAcquire(c) =>
      if s.activePauseCount == 0 then
        if s.configured then SetPhase(s, c, Preparing) else Counted(s, c, DoNothing)
      else Counted(s, c, s.activeResume)
    case MkdirDone(c, ok) =>
      if ok then SetPhase(s, c, Writing(s.nextToken)).(nextToken := s.nextToken + 1)
      else SetPhase(s, c, Leaving(Threw))
    case FileOpened(_) => s.(pauseFile := Some(TORN))
    case WriteDone(c, ok) =>
      var token := s.clients[c].phase.token;
      if ok then
        SetPhase(s, c, Polling(token)).(pauseFile := Some(token), log := s.log + [Wrote(token)])
      else SetPhase(s, c, Leaving(Threw))
    case Poll(c, seen) =>
      if seen == Some(WorkerState(0, true, Some(s.clients[c].phase.token)))
      then Counted(s, c, RemoveFile) else s
    case Deadline(c) => SetPhase(s, c, TimingOut(s.clients[c].phase.token))
    case TimeoutRemoved(c) => RemovePauseFile(SetPhase(s, c, Leaving(Threw)))
    case Leave(c) =>
      var phase :=
        match s.clients[c].phase.verdict
        case Acquired => Operating
        case Released => Finished
        case Threw => Failed;
      SetPhase(s, c, phase).(settled := s.settled[s.clients[c].ticket.own := true])
    case CallResume(c) =>
      if s.clients[c].phase.Operating? then
        var (s', ticket) := TakeTicket(s);
        s'.(clients := s.clients[c := Client(ticket, AwaitRelease)])
      else s
    case EnterRelease(c) =>
      var count := Max(0, s.activePauseCount - 1);
      if count > 0 then SetPhase(s, c, Leaving(Released)).(activePauseCount := count)
      else
        SetPhase(s, c, if s.activeResume == RemoveFile then Removing else Leaving(Released))
        .(activePauseCount := count, activeResume := NoResume)
    case ResumeRemoved(c) => RemovePauseFile(SetPhase(s, c, Leaving(Released)))
  }

  // ----- The mutex -----

  /** Client `c` waits for, or is inside, the critical section of promise `j`. */
  ghost predicate Owns(s: State, c: nat, j: nat) {
    c < |s.clients| && s.clients[c].ticket.own == j && Active(s.clients[c].phase)
  }

  ghost predicate TicketInv(s: State, c: nat)
    requires c < |s.clients|
  {
    var Ticket(previous, own) := s.clients[c].ticket;
    && 0 < own < |s.settled| && previous == own - 1
    && (Active(s.clients[c].phase) <==> !s.settled[own])
    && (InCritical(s.clients[c].phase) ==> s.settled[previous])
  }

  /** Every unresolved promise belongs to exactly one waiting or critical call; promises resolve in order. */
  ghost predicate MutexInv(s: State) {
    && |s.settled| > 0 && s.settled[0] && s.pauseMutex == |s.settled| - 1
    && (forall c :: 0 <= c < |s.clients| ==> TicketInv(s, c))
    && (forall c, d, j :: Owns(s, c, j) && Owns(s, d, j) ==> c == d)
    && (forall i, j :: 0 <= i < j < |s.settled| && s.settled[j] ==> s.settled[i])
    && (forall j :: 0 <= j < |s.settled| && !s.settled[j] ==> exists c :: Owns(s, c, j))
  }

  /** `c` calls `withPauseMutex`: a new client, or one whose previous call is over. */
  lemma TicketTaken(s: State, s': State, c: nat, phase: Phase)
    requires MutexInv(s) && c <= |s.clients| && (c < |s.clients| ==> !Active(s.clients[c].phase))
    requires Active(phase) && !InCritical(phase)
    requires var client := Client(TakeTicket(s).1, phase);
             s'.clients == if c == |s.clients| then s.clients + [client] else s.clients[c := client]
    requires s'.settled == TakeTicket(s).0.settled && s'.pauseMutex == TakeTicket(s).0.pauseMutex
    ensures MutexInv(s')
  {
    forall d, j | d != c ensures Owns(s', d, j) <==> Owns(s, d, j) {}
    forall d | 0 <= d < |s'.clients| ensures TicketInv(s', d) {
      if d != c { assert TicketInv(s, d); }
    }
    forall j | 0 <= j < |s'.settled| && !s'.settled[j] ensures exists d :: Owns(s', d, j) {
      if j == |s.settled| {
        assert Owns(s', c, j);
      } else {
        var d :| Owns(s, d, j);
        assert Owns(s', d, j);
      }
    }
    forall d, j | Owns(s', d, j) ensures d == c <==> j == |s.settled| {
      if d != c { assert TicketInv(s, d); }
    }
  }

  /** `c` stays at the same promise, and may enter its critical section. */
  lemma PromiseKept(s: State, s': State, c: nat, phase: Phase)
    requires MutexInv(s) && c < |s.clients|
    requires Active(phase) == Active(s.clients[c].phase)
    requires InCritical(phase) ==> InCritical(s.clients[c].phase) || MayEnter(s, c)
    requires s'.clients == s.clients[c := s.clients[c].(phase := phase)]
    requires s'.settled == s.settled && s'.pauseMutex == s.pauseMutex
    ensures MutexInv(s')
  {
    forall d, j ensures Owns(s', d, j) <==> Owns(s, d, j) {}
    forall d | 0 <= d < |s'.clients| ensures TicketInv(s', d) { assert TicketInv(s, d); }
    forall j | 0 <= j < |s'.settled| && !s'.settled[j] ensures exists d :: Owns(s', d, j) {
      var d :| Owns(s, d, j);
      assert Owns(s', d, j);
    }
  }

  /** `c` resolves its promise on leaving its critical section. */
  lemma PromiseResolved(s: State, s': State, c: nat, phase: Phase)
    requires MutexInv(s) && c < |s.clients| && InCritical(s.clients[c].phase) && !Active(phase)
    requires s.clients[c].ticket.own < |s.settled|
    requires s'.clients == s.clients[c := s.clients[c].(phase := phase)]
    requires s'.settled == s.settled[s.clients[c].ticket.own := true] && s'.pauseMutex == s.pauseMutex
    ensures MutexInv(s')
  {
    var own := s.clients[c].ticket.own;
    assert TicketInv(s, c) && Owns(s, c, own);
    forall d, j | d != c ensures Owns(s', d, j) <==> Owns(s, d, j) {}
    forall d | 0 <= d < |s'.clients| ensures TicketInv(s', d) {
      assert TicketInv(s, d) && (Owns(s, d, own) ==> d == c);
    }
    forall j | 0 <= j < |s'.settled| && !s'.settled[j] ensures exists d :: Owns(s', d, j) {
      var d :| Owns(s, d, j);
      assert Owns(s', d, j);
    }
  }

  lemma InitMutex()
    ensures MutexInv(Init)
  {}

  lemma StepMutex(s: State, e: Event)
    requires MutexInv(s) && Enabled(s, e)
    ensures MutexInv(Step(s, e))
  {
    var s' := Step(s, e);
    match e
    case Configure(_) => SameQueue(s, s');
    case FileOpened(_) => SameQueue(s, s');
    case Request => TicketTaken(s, s', |s.clients|, AwaitAcquire);
    case CallResume(c) =>
      if s.clients[c].phase.Operating? { TicketTaken(s, s', c, AwaitRelease); }
    case Leave(c) => PromiseResolved(s, s', c, s'.clients[c].phase);
    case _ => StepInPlace(s, e);
  }

  /** The other steps move one call and leave the promises alone. */
  lemma StepInPlace(s: State, e: Event)
    requires MutexInv(s) && Enabled(s, e)
    requires !e.Configure? && !e.FileOpened? && !e.Request? && !e.CallResume? && !e.Leave?
    ensures MutexInv(Step(s, e))
  {
    var s' := Step(s, e);
    if s' != s { PromiseKept(s, s', e.c, s'.clients[e.c].phase); }
  }

  lemma SameQueue(s: State, s': State)
    requires MutexInv(s) && s'.clients == s.clients && s'.settled == s.settled && s'.pauseMutex == s.pauseMutex
    ensures MutexInv(s')
  {
    forall d, j ensures Owns(s', d, j) <==> Owns(s, d, j) {}
    forall d | 0 <= d < |s'.clients| ensures TicketInv(s', d) { assert TicketInv(s, d); }
    forall j | 0 <= j < |s'.settled| && !s'.settled[j] ensures exists d :: Owns(s', d, j) {
      var d :| Owns(s, d, j);
      assert Owns(s', d, j);
    }
  }

  /**
   * Critical sections run in request order: while a client is inside, exactly the promises
   * requested before its own are resolved.
   */
  lemma CriticalInRequestOrder(s: State, c: nat)
    requires MutexInv(s) && c < |s.clients| && InCritical(s.clients[c].phase)
    ensures forall j :: 0 <= j < |s.settled| ==> (s.settled[j] <==> j < s.clients[c].ticket.own)
  {
    assert TicketInv(s, c);
  }

  /** At most one client is inside a critical section. */
  lemma MutualExclusion(s: State, c: nat, d: nat)
    requires MutexInv(s) && c < |s.clients| && d < |s.clients|
    requires InCritical(s.clients[c].phase) && InCritical(s.clients[d].phase)
    ensures c == d
  {
    CriticalInRequestOrder(s, c);
    CriticalInRequestOrder(s, d);
    assert TicketInv(s, c) && TicketInv(s, d);
    assert Owns(s, c, s.clients[c].ticket.own) && Owns(s, d, s.clients[c].ticket.own);
  }

  // ----- The reference count and the pause file -----

  predicate IsLive(c: Client) { Live(c.phase) }

  /** The phases in which a client changes the file or the two module variables. */
  predicate Exclusive(p: Phase) {
    p.Preparing? || p.Writing? || p.Polling? || p.TimingOut? || p.Removing?
  }

  /** The last completed operation on the pause file wrote a token. */
  predicate FileHeld(s: State) {
    s.log != [] && s.log[|s.log| - 1].Wrote?
  }

  predicate MustRemove(p: Phase) {
    p.Polling? || p.TimingOut? || p.Removing?
  }

  ghost predicate Cleaner(s: State, c: nat) {
    c < |s.clients| && MustRemove(s.clients[c].phase)
  }

  /** Writes and removals of the pause file alternate, and every write has a new token. */
  ghost predicate LogInv(log: seq<FileOp>, nextToken: Token) {
    && (forall i :: 0 <= i < |log| ==> (log[i].Wrote? <==> i % 2 == 0))
    && (forall i :: 0 <= i < |log| && log[i].Wrote? ==> TORN < log[i].token < nextToken)
    && (forall i, j :: 0 <= i < j < |log| && log[i].Wrote? && log[j].Wrote? ==> log[i].token < log[j].token)
  }

  ghost predicate NewerThanLog(token: Token, log: seq<FileOp>) {
    forall i :: 0 <= i < |log| && log[i].Wrote? ==> log[i].token < token
  }

  ghost predicate PhaseInv(s: State, c: nat)
    requires c < |s.clients|
  {
    var p := s.clients[c].phase;
    && (Exclusive(p) ==> s.activePauseCount == 0 && s.activeResume == NoResume)
    && (p.Polling? || p.TimingOut? ==> FileHeld(s) && s.log[|s.log| - 1] == Wrote(p.token))
    && (p.Removing? ==> FileHeld(s))
    && (p.Preparing? || p.Writing? ==> !FileHeld(s))
    && (p.Writing? ==> TORN < p.token < s.nextToken && NewerThanLog(p.token, s.log))
  }

  ghost predicate PauseInv(s: State) {
    && s.nextToken > TORN && LogInv(s.log, s.nextToken)
    && s.activePauseCount == Count(IsLive, s.clients)
    && (s.activePauseCount == 0 <==> s.activeResume == NoResume)
    && (s.activeResume == RemoveFile ==> FileHeld(s))
    && (FileHeld(s) ==> s.activeResume == RemoveFile || exists c :: Cleaner(s, c))
    && (FileHeld(s) ==> s.pauseFile == Some(s.log[|s.log| - 1].token))
    && (!FileHeld(s) ==> s.pauseFile == None || s.pauseFile == Some(TORN))
    && (forall c :: 0 <= c < |s.clients| ==> PhaseInv(s, c))
  }

  ghost predicate Inv(s: State) {
    MutexInv(s) && PauseInv(s)
  }

  lemma Alone(s: State, c: nat)
    requires MutexInv(s) && MayRun(s, c)
    ensures forall d :: 0 <= d < |s.clients| && d != c ==> !InCritical(s.clients[d].phase)
  {
    var s' := SetPhase(s, c, Preparing);
    PromiseKept(s, s', c, Preparing);
    forall d | 0 <= d < |s.clients| && d != c ensures !InCritical(s.clients[d].phase) {
      if InCritical(s.clients[d].phase) { MutualExclusion(s', c, d); }
    }
  }

  lemma LiveCount(s: State, s': State, c: nat)
    requires c < |s.clients| && |s'.clients| == |s.clients| && s'.clients == s.clients[c := s'.clients[c]]
    ensures Count(IsLive, s'.clients) + (if Live(s.clients[c].phase) then 1 else 0)
         == Count(IsLive, s.clients) + (if Live(s'.clients[c].phase) then 1 else 0)
  {
    CountUpdate(IsLive, s.clients, c, s'.clients[c]);
  }

  lemma InitInv()
    ensures Inv(Init)
  {
    InitMutex();
  }

  /** Steps that touch neither the file nor the variables, at a client outside the exclusive phases. */
  lemma Untouched(s: State, s': State, c: nat)
    requires PauseInv(s) && c < |s.clients| && |s'.clients| == |s.clients|
    requires s'.clients == s.clients[c := s'.clients[c]]
    requires !Exclusive(s.clients[c].phase) && !Exclusive(s'.clients[c].phase)
    requires Live(s.clients[c].phase) == Live(s'.clients[c].phase)
    requires s' == s.(clients := s'.clients, settled := s'.settled, pauseMutex := s'.pauseMutex)
    ensures PauseInv(s')
  {
    LiveCount(s, s', c);
    forall d | Cleaner(s, d) ensures Cleaner(s', d) {}
    forall d | 0 <= d < |s'.clients| ensures PhaseInv(s', d) { assert PhaseInv(s, d); }
  }

  /** A critical step at `c`: every other client is outside its critical section. */
  lemma CriticalStep(s: State, s': State, c: nat)
    requires Inv(s) && MayRun(s, c)
    requires |s'.clients| == |s.clients| && s'.clients == s.clients[c := s'.clients[c]]
    ensures forall d :: 0 <= d < |s'.clients| && d != c ==> PhaseInv(s', d)
    ensures forall d :: d != c ==> !Cleaner(s, d)
    ensures Count(IsLive, s'.clients) + (if Live(s.clients[c].phase) then 1 else 0)
         == Count(IsLive, s.clients) + (if Live(s'.clients[c].phase) then 1 else 0)
    ensures PhaseInv(s, c)
  {
    Alone(s, c);
    LiveCount(s, s', c);
  }

  lemma StepPause(s: State, e: Event)
    requires Inv(s) && Enabled(s, e)
    ensures PauseInv(Step(s, e))
  {
    var s' := Step(s, e);
    match e
    case Configure(on) => StepConfigure(s, on);
    case Request => StepRequest(s);
    case CallResume(c) => if s'.clients != s.clients { Untouched(s, s', c); }
    case Leave(c) => Untouched(s, s', c);
    case EnterAcquire(c) => StepEnterAcquire(s, c);
    case EnterRelease(c) => StepEnterRelease(s, c);
    case MkdirDone(c, ok) => StepMkdirDone(s, c, ok);
    case FileOpened(c) => StepFileOpened(s, c);
    case WriteDone(c, ok) => StepWriteDone(s, c, ok);
    case Poll(c, seen) => StepPoll(s, c, seen);
    case Deadline(c) => StepDeadline(s, c);
    case TimeoutRemoved(c) => StepRemoved(s, e, c);
    case ResumeRemoved(c) => StepRemoved(s, e, c);
  }

  lemma StepConfigure(s: State, on: bool)
    requires Inv(s)
    ensures PauseInv(Step(s, Configure(on)))
  {
    var s' := Step(s, Configure(on));
    forall c | Cleaner(s, c) ensures Cleaner(s', c) {}
    forall c | 0 <= c < |s'.clients| ensures PhaseInv(s', c) { assert PhaseInv(s, c); }
  }

  lemma StepRequest(s: State)
    requires Inv(s)
    ensures PauseInv(Step(s, Request))
  {
    var s' := Step(s, Request);
    CountAppend(IsLive, s.clients, s'.clients[|s.clients|]);
    forall c | Cleaner(s, c) ensures Cleaner(s', c) {}
    forall c | 0 <= c < |s'.clients| ensures PhaseInv(s', c) {
      if c < |s.clients| { assert PhaseInv(s, c); }
    }
  }

  lemma StepDeadline(s: State, c: nat)
    requires Inv(s) && Enabled(s, Deadline(c))
    ensures PauseInv(Step(s, Deadline(c)))
  {
    var s' := Step(s, Deadline(c));
    CriticalStep(s, s', c);
    assert PhaseInv(s', c);
    assert Cleaner(s', c);
  }

  lemma StepRemoved(s: State, e: Event, c: nat)
    requires Inv(s) && Enabled(s, e) && (e == TimeoutRemoved(c) || e == ResumeRemoved(c))
    ensures PauseInv(Step(s, e))
  {
    var s' := Step(s, e);
    CriticalStep(s, s', c);
    assert PhaseInv(s', c);
  }

  lemma StepEnterAcquire(s: State, c: nat)
    requires Inv(s) && Enabled(s, EnterAcquire(c))
    ensures PauseInv(Step(s, EnterAcquire(c)))
  {
    var s' := Step(s, EnterAcquire(c));
    CriticalStep(s, s', c);
    assert PhaseInv(s', c);
  }

  lemma SomeoneLive(s: State, c: nat)
    requires PauseInv(s) && c < |s.clients| && Live(s.clients[c].phase)
    ensures s.activePauseCount > 0
  {
    CountZero(IsLive, s.clients);
    assert IsLive(s.clients[c]);
  }

  lemma StepEnterRelease(s: State, c: nat)
    requires Inv(s) && Enabled(s, EnterRelease(c))
    ensures PauseInv(Step(s, EnterRelease(c)))
    ensures s.activePauseCount > 0
  {
    var s' := Step(s, EnterRelease(c));
    SomeoneLive(s, c);
    assert s'.activePauseCount == s.activePauseCount - 1 && s'.log == s.log && s'.pauseFile == s.pauseFile;
    CriticalStep(s, s', c);
    assert PhaseInv(s', c);
    if s'.clients[c].phase.Removing? { assert Cleaner(s', c); }
  }

  lemma StepMkdirDone(s: State, c: nat, ok: bool)
    requires Inv(s) && Enabled(s, MkdirDone(c, ok))
    ensures PauseInv(Step(s, MkdirDone(c, ok)))
  {
    var s' := Step(s, MkdirDone(c, ok));
    CriticalStep(s, s', c);
    assert PhaseInv(s', c);
  }

  lemma StepFileOpened(s: State, c: nat)
    requires Inv(s) && Enabled(s, FileOpened(c))
    ensures PauseInv(Step(s, FileOpened(c)))
  {
    var s' := Step(s, FileOpened(c));
    CriticalStep(s, s', c);
    assert PhaseInv(s', c);
    assert s'.clients[c].phase.Writing?;
  }

  lemma StepWriteDone(s: State, c: nat, ok: bool)
    requires Inv(s) && Enabled(s, WriteDone(c, ok))
    ensures PauseInv(Step(s, WriteDone(c, ok)))
  {
    var s' := Step(s, WriteDone(c, ok));
    CriticalStep(s, s', c);
    assert PhaseInv(s', c);
    if ok { assert Cleaner(s', c); }
  }

  lemma StepPoll(s: State, c: nat, seen: Option<WorkerState>)
    requires Inv(s) && Enabled(s, Poll(c, seen))
    ensures PauseInv(Step(s, Poll(c, seen)))
  {
    var s' := Step(s, Poll(c, seen));
    if s' != s {
      CriticalStep(s, s', c);
      assert PhaseInv(s', c);
    }
  }

  lemma StepInv(s: State, e: Event)
    requires Inv(s) && Enabled(s, e)
    ensures Inv(Step(s, e))
  {
    StepMutex(s, e);
    StepPause(s, e);
  }

  // ----- Whole runs -----

  ghost predicate Run(s: State, es: seq<Event>, t: State)
    decreases |es|
  {
    if es == [] then s == t else Enabled(s, es[0]) && Run(Step(s, es[0]), es[1..], t)
  }

  ghost predicate Reachable(s: State) {
    exists es :: Run(Init, es, s)
  }

  lemma {:induction false} RunInv(s: State, es: seq<Event>, t: State)
    requires Inv(s) && Run(s, es, t)
    ensures Inv(t)
    decreases |es|
  {
    if es != [] {
      StepInv(s, es[0]);
      RunInv(Step(s, es[0]), es[1..], t);
    }
  }

  lemma ReachableInv(s: State)
    requires Reachable(s)
    ensures Inv(s)
  {
    var es :| Run(Init, es, s);
    InitInv();
    RunInv(Init, es, s);
  }

  /** The count equals the number of handles acquired and not yet released, so the clip at zero is never used. */
  lemma CountIsLiveHandles(s: State)
    requires Reachable(s)
    ensures s.activePauseCount == Count(IsLive, s.clients)
    ensures forall c :: Enabled(s, EnterRelease(c)) ==> Step(s, EnterRelease(c)).activePauseCount == s.activePauseCount - 1
  {
    ReachableInv(s);
    forall c | Enabled(s, EnterRelease(c))
      ensures Step(s, EnterRelease(c)).activePauseCount == s.activePauseCount - 1
    {
      StepEnterRelease(s, c);
    }
  }

  /**
   * While an operation runs, its call does not hold the mutex, and the pause file holds the
   * token written last unless the pause was switched off when the worker was first paused.
   */
  lemma OperationHoldsPause(s: State, c: nat)
    requires Reachable(s) && c < |s.clients| && Live(s.clients[c].phase)
    ensures s.activeResume == RemoveFile || s.activeResume == DoNothing
    ensures s.activeResume == RemoveFile ==>
              s.log != [] && s.log[|s.log| - 1].Wrote? && s.pauseFile == Some(s.log[|s.log| - 1].token)
              && s.log[|s.log| - 1].token != TORN
    ensures s.clients[c].phase.Operating? ==>
              s.clients[c].ticket.own < |s.settled| && s.settled[s.clients[c].ticket.own]
  {
    ReachableInv(s);
    CountZero(IsLive, s.clients);
    assert IsLive(s.clients[c]);
    assert TicketInv(s, c);
  }

  /** The file system events that leave the pause file written whole, or absent. */
  predicate Clears(e: Event) {
    (e.WriteDone? && e.ok) || e.TimeoutRemoved? || e.ResumeRemoved?
  }

  ghost predicate NothingClears(es: seq<Event>) {
    forall j :: 0 <= j < |es| ==> !Clears(es[j])
  }

  /** `writeFile` opened the pause file, and it was not written whole or removed since. */
  ghost predicate LeftOpened(es: seq<Event>) {
    exists i :: 0 <= i < |es| && es[i].FileOpened? && NothingClears(es[i..])
  }

  lemma LeftOpenedUnfold(es: seq<Event>)
    requires es != []
    ensures LeftOpened(es) <==> LeftOpened(es[1..]) || (es[0].FileOpened? && NothingClears(es))
  {
    if LeftOpened(es) {
      var i :| 0 <= i < |es| && es[i].FileOpened? && NothingClears(es[i..]);
      assert es[0..] == es;
      if i > 0 { assert es[1..][i - 1] == es[i] && es[1..][i - 1..] == es[i..]; }
    }
    if LeftOpened(es[1..]) {
      var i :| 0 <= i < |es[1..]| && es[1..][i].FileOpened? && NothingClears(es[1..][i..]);
      assert es[i + 1] == es[1..][i] && es[i + 1..] == es[1..][i..];
    }
    if es[0].FileOpened? && NothingClears(es) { assert es[0..] == es; }
  }

  lemma NothingClearsUnfold(es: seq<Event>)
    requires es != []
    ensures NothingClears(es) <==> !Clears(es[0]) && NothingClears(es[1..])
  {
    assert es == [es[0]] + es[1..];
  }

  /** What one event does to a pause file that was opened and not written. */
  lemma TornStep(s: State, e: Event)
    requires Inv(s) && Enabled(s, e)
    ensures Step(s, e).pauseFile == Some(TORN) <==> e.FileOpened? || (s.pauseFile == Some(TORN) && !Clears(e))
  {
    if e.WriteDone? { assert PhaseInv(s, e.c); }
  }

  /** In every run, the pause file holds no whole token exactly if it was left opened. */
  lemma {:induction false} TornIff(s: State, es: seq<Event>, t: State)
    requires Inv(s) && Run(s, es, t)
    ensures t.pauseFile == Some(TORN) <==> LeftOpened(es) || (s.pauseFile == Some(TORN) && NothingClears(es))
    decreases |es|
  {
    if es != [] {
      StepInv(s, es[0]);
      TornStep(s, es[0]);
      TornIff(Step(s, es[0]), es[1..], t);
      LeftOpenedUnfold(es);
      NothingClearsUnfold(es);
    }
  }

  /** No call holds or waits to release a handle, and none is in its critical section. */
  ghost predicate Quiet(s: State) {
    forall c :: 0 <= c < |s.clients| ==> !Live(s.clients[c].phase) && !InCritical(s.clients[c].phase)
  }

  /**
   * With no live handle and a free mutex, a pause file is present exactly if, in the run so far,
   * `writeFile` opened it and no later write succeeded and no later removal took place.
   */
  lemma QuietFile(es: seq<Event>, s: State)
    requires Run(Init, es, s) && Quiet(s)
    ensures s.activePauseCount == 0 && s.activeResume == NoResume
    ensures s.pauseFile.Some? <==> LeftOpened(es)
  {
    InitInv();
    RunInv(Init, es, s);
    TornIff(Init, es, s);
    CountZero(IsLive, s.clients);
    assert forall c :: !Cleaner(s, c);
  }

  ghost predicate NoWriter(s: State) {
    forall c :: 0 <= c < |s.clients| ==> !s.clients[c].phase.Writing?
  }

  /** Only a call that is still writing can have left the file without a whole token. */
  ghost predicate Tidy(s: State) {
    s.pauseFile == Some(TORN) ==> !NoWriter(s)
  }

  lemma TidyStep(s: State, e: Event)
    requires Inv(s) && Tidy(s) && Enabled(s, e) && !(e.WriteDone? && !e.ok)
    ensures Tidy(Step(s, e))
  {
    var s' := Step(s, e);
    TornStep(s, e);
    if e.FileOpened? {
      assert s'.clients[e.c].phase.Writing?;
    } else if s'.pauseFile == Some(TORN) {
      var c :| 0 <= c < |s.clients| && s.clients[c].phase.Writing?;
      assert s'.clients[c].phase.Writing?;
    }
  }

  lemma {:induction false} RunTidy(s: State, es: seq<Event>, t: State)
    requires Inv(s) && Tidy(s) && Run(s, es, t)
    requires forall i :: 0 <= i < |es| ==> !(es[i].WriteDone? && !es[i].ok)
    ensures Inv(t) && Tidy(t)
    decreases |es|
  {
    if es != [] {
      StepInv(s, es[0]);
      TidyStep(s, es[0]);
      assert forall i :: 0 <= i < |es[1..]| ==> es[1..][i] == es[i + 1];
      RunTidy(Step(s, es[0]), es[1..], t);
    }
  }

  /** In every run in which no write of the pause file fails, a quiet state has no pause file. */
  lemma QuietFileAbsent(es: seq<Event>, s: State)
    requires Run(Init, es, s) && Quiet(s)
    requires forall i :: 0 <= i < |es| ==> !(es[i].WriteDone? && !es[i].ok)
    ensures s.pauseFile == None
  {
    InitInv();
    RunTidy(Init, es, s);
    QuietFile(es, s);
    TornIff(Init, es, s);
  }

  lemma {:induction false} RunStep(s: State, es: seq<Event>, t: State, e: Event)
    requires Run(s, es, t) && Enabled(t, e)
    ensures Run(s, es + [e], Step(t, e))
    decreases |es|
  {
    if es == [] {
      assert [e][1..] == [];
    } else {
      assert (es + [e])[1..] == es[1..] + [e];
      RunStep(Step(s, es[0]), es[1..], t, e);
    }
  }

  /** A state with one client and the rest as after a first request. */
  function OneClient(phase: Phase): State {
    State(0, NoResume, 1, [true, false], [Client(Ticket(0, 1), phase)], true, None, TORN + 1, [])
  }

  lemma FirstRequest() returns (es: seq<Event>, s: State)
    ensures Run(Init, es, s) && s == OneClient(Preparing)
  {
    var s1 := Step(Init, Configure(true));
    RunStep(Init, [], Init, Configure(true));
    RunStep(Init, [Configure(true)], s1, Request);
    es := [Configure(true)] + [Request];
    s := OneClient(AwaitAcquire);
    RunStep(Init, es, s, EnterAcquire(0));
    es, s := es + [EnterAcquire(0)], Step(s, EnterAcquire(0));
  }

  /** A write that fails after opening the file does leave one behind, with no client running. */
  lemma FailedWriteLeavesFile() returns (es: seq<Event>, s: State)
    ensures Run(Init, es, s) && s.pauseFile == Some(TORN)
    ensures |s.clients| == 1 && s.clients[0].phase.Failed? && s.activePauseCount == 0
  {
    es, s := FirstRequest();
    RunStep(Init, es, s, MkdirDone(0, true));
    var writing := OneClient(Writing(1)).(nextToken := 2);
    assert writing.clients == Step(s, MkdirDone(0, true)).clients;
    es, s := es + [MkdirDone(0, true)], writing;
    RunStep(Init, es, s, FileOpened(0));
    es, s := es + [FileOpened(0)], s.(pauseFile := Some(TORN));
    RunStep(Init, es, s, WriteDone(0, false));
    es, s := es + [WriteDone(0, false)], Step(s, WriteDone(0, false));
    RunStep(Init, es, s, Leave(0));
    es, s := es + [Leave(0)], Step(s, Leave(0));
  }

  /** Writes and removals of the pause file alternate, starting with a write, and tokens never repeat. */
  lemma WritesAndRemovalsAlternate(s: State)
    requires Reachable(s)
    ensures forall i :: 0 <= i < |s.log| ==> (s.log[i].Wrote? <==> i % 2 == 0)
    ensures forall i, j :: 0 <= i < j < |s.log| && s.log[i].Wrote? && s.log[j].Wrote? ==> s.log[i].token < s.log[j].token
  {
    ReachableInv(s);
  }

  /** A pause that times out leaves no handle, no resume closure and no file. */
  lemma TimedOutPauseCleansUp(s: State, c: nat)
    requires Reachable(s) && Enabled(s, TimeoutRemoved(c))
    ensures var s' := Step(s, TimeoutRemoved(c));
            && s'.activePauseCount == 0 && s'.activeResume == NoResume && s'.pauseFile == None
            && (forall d :: 0 <= d < |s'.clients| ==> !Live(s'.clients[d].phase))
  {
    ReachableInv(s);
    assert PhaseInv(s, c);
    CountZero(IsLive, s.clients);
    forall d | 0 <= d < |s.clients| && d != c ensures !Live(s.clients[d].phase) { assert !IsLive(s.clients[d]); }
  }

  /** Critical sections are exclusive and run in the order in which the mutex was requested. */
  lemma MutexIsFifo(s: State, c: nat)
    requires Reachable(s) && c < |s.clients| && InCritical(s.clients[c].phase)
    ensures forall d :: 0 <= d < |s.clients| && InCritical(s.clients[d].phase) ==> d == c
    ensures forall d :: 0 <= d < |s.clients| && d != c && Active(s.clients[d].phase) ==>
              s.clients[c].ticket.own < s.clients[d].ticket.own
    ensures forall j :: 0 <= j < |s.settled| ==> (s.settled[j] <==> j < s.clients[c].ticket.own)
  {
    ReachableInv(s);
    CriticalInRequestOrder(s, c);
    assert Owns(s, c, s.clients[c].ticket.own);
    forall d | 0 <= d < |s.clients| && d != c
      ensures !InCritical(s.clients[d].phase)
      ensures Active(s.clients[d].phase) ==> s.clients[c].ticket.own < s.clients[d].ticket.own
    {
      if InCritical(s.clients[d].phase) { MutualExclusion(s, c, d); }
      if Active(s.clients[d].phase) {
        assert TicketInv(s, d) && Owns(s, d, s.clients[d].ticket.own);
      }
    }
  }

  // ----- Whether the pause is configured -----

  /** The last word on the configuration. */
  function ConfiguredAfter(es: seq<Event>, before: bool): bool {
    if es == [] then before
    else ConfiguredAfter(es[1..], if es[0].Configure? then es[0].on else before)
  }

  ghost predicate NeverSwitched(es: seq<Event>, on: bool) {
    forall i :: 0 <= i < |es| ==> es[i] != Configure(on)
  }

  lemma {:induction false} ConfiguredIs(s: State, es: seq<Event>, t: State)
    requires Run(s, es, t)
    ensures t.configured == ConfiguredAfter(es, s.configured)
    decreases |es|
  {
    if es != [] { ConfiguredIs(Step(s, es[0]), es[1..], t); }
  }

  lemma NoopStep(s: State, e: Event)
    requires Inv(s) && Enabled(s, e) && s.activeResume != DoNothing
    ensures Step(s, e).configured == if e.Configure? then e.on else s.configured
    ensures Step(s, e).activeResume == DoNothing ==> e.EnterAcquire? && !s.configured
  {
    match e
    case EnterAcquire(_) =>
    case EnterRelease(_) =>
    case _ =>
  }

  lemma {:induction false} StaysConfigured(s: State, es: seq<Event>, t: State)
    requires Inv(s) && s.configured && s.activeResume != DoNothing && Run(s, es, t) && NeverSwitched(es, false)
    ensures Inv(t) && t.configured && t.activeResume != DoNothing
    decreases |es|
  {
    if es != [] {
      StepInv(s, es[0]);
      assert forall i :: 0 <= i < |es[1..]| ==> es[1..][i] == es[i + 1];
      NoopStep(s, es[0]);
      StaysConfigured(Step(s, es[0]), es[1..], t);
    }
  }

  /**
   * From a state in which the pause is configured and no unconfigured pause is active, and until it is
   * switched off: a live handle means that the file holds, whole, the token written last.
   */
  lemma ConfiguredPauseHolds(s: State, es: seq<Event>, t: State, c: nat)
    requires Reachable(s) && s.configured && s.activeResume != DoNothing
    requires Run(s, es, t) && NeverSwitched(es, false) && c < |t.clients| && Live(t.clients[c].phase)
    ensures t.activeResume == RemoveFile && t.log != [] && t.log[|t.log| - 1].Wrote?
    ensures t.pauseFile == Some(t.log[|t.log| - 1].token) && t.log[|t.log| - 1].token != TORN
  {
    ReachableInv(s);
    StaysConfigured(s, es, t);
    SomeoneLive(t, c);
  }

  ghost predicate EntersUnconfigured(es: seq<Event>, i: nat, before: bool) {
    i < |es| && es[i].EnterAcquire? && !ConfiguredAfter(es[..i], before)
  }

  /** The do-nothing closure is only taken by a call that acquires while the pause is not configured. */
  lemma {:induction false} NoopMeansUnconfigured(s: State, es: seq<Event>, t: State) returns (i: nat)
    requires Inv(s) && Run(s, es, t) && s.activeResume != DoNothing && t.activeResume == DoNothing
    ensures EntersUnconfigured(es, i, s.configured)
    decreases |es|
  {
    var next := Step(s, es[0]);
    NoopStep(s, es[0]);
    if next.activeResume == DoNothing {
      i := 0;
      assert es[..0] == [];
    } else {
      StepInv(s, es[0]);
      var j := NoopMeansUnconfigured(next, es[1..], t);
      i := j + 1;
      assert es[..i][1..] == es[1..][..j];
    }
  }

  /** Nobody works on the pause file. */
  ghost predicate FileUntouched(s: State) {
    && s.log == [] && s.pauseFile == None && s.activeResume != RemoveFile
    && forall c :: 0 <= c < |s.clients| ==> !Exclusive(s.clients[c].phase)
  }

  /** In a run in which the pause is never configured, no file is ever written or removed. */
  lemma {:induction false} UnconfiguredTouchesNothing(s: State, es: seq<Event>, t: State)
    requires !s.configured && FileUntouched(s) && Run(s, es, t) && NeverSwitched(es, true)
    ensures FileUntouched(t)
    decreases |es|
  {
    if es != [] {
      assert forall i :: 0 <= i < |es[1..]| ==> es[1..][i] == es[i + 1];
      UnconfiguredTouchesNothing(Step(s, es[0]), es[1..], t);
    }
  }

  // ----- How each call ends -----

  /** The call has thrown, or is about to. */
  predicate Lost(p: Phase) { p == Leaving(Threw) || p.Failed? }

  /** The call's handle has been released, or is about to be. */
  predicate LetGo(p: Phase) { p.AwaitRelease? || p.Removing? || p == Leaving(Released) || p.Finished? }

  predicate Breaks(e: Event, c: nat) {
    e == MkdirDone(c, false) || e == WriteDone(c, false) || e == TimeoutRemoved(c)
  }

  ghost predicate LostIn(s: State, c: nat) { c < |s.clients| && Lost(s.clients[c].phase) }

  ghost predicate LetGoIn(s: State, c: nat) { c < |s.clients| && LetGo(s.clients[c].phase) }

  ghost predicate Broken(es: seq<Event>, c: nat) { exists i :: 0 <= i < |es| && Breaks(es[i], c) }

  predicate About(e: Event, c: nat) {
    !e.Configure? && !e.Request? && e.c == c
  }

  lemma StepElsewhere(s: State, e: Event, c: nat)
    requires Enabled(s, e) && !About(e, c)
    ensures |Step(s, e).clients| >= |s.clients| && (c < |s.clients| ==> Step(s, e).clients[c] == s.clients[c])
    ensures |s.clients| <= c < |Step(s, e).clients| ==> Step(s, e).clients[c].phase == AwaitAcquire
  {
    match e
    case Configure(_) =>
    case Request =>
    case EnterRelease(_) =>
    case EnterAcquire(_) =>
    case _ =>
  }

  lemma StepHere(s: State, e: Event, c: nat)
    requires Enabled(s, e) && About(e, c)
    ensures |Step(s, e).clients| == |s.clients|
    ensures c < |s.clients|
    ensures Lost(Step(s, e).clients[c].phase) <==> Lost(s.clients[c].phase) || Breaks(e, c)
    ensures LetGo(Step(s, e).clients[c].phase) <==> LetGo(s.clients[c].phase) || e == CallResume(c)
  {
    match e
    case EnterRelease(_) =>
    case EnterAcquire(_) =>
    case Leave(_) =>
    case CallResume(_) =>
    case _ =>
  }

  lemma StepFate(s: State, e: Event, c: nat)
    requires Enabled(s, e)
    ensures LostIn(Step(s, e), c) <==> LostIn(s, c) || Breaks(e, c)
    ensures LetGoIn(Step(s, e), c) <==> LetGoIn(s, c) || e == CallResume(c)
  {
    if About(e, c) {
      StepHere(s, e, c);
    } else {
      StepElsewhere(s, e, c);
    }
  }

  lemma BrokenUnfold(es: seq<Event>, c: nat)
    requires es != []
    ensures Broken(es, c) <==> Breaks(es[0], c) || Broken(es[1..], c)
  {
    if Broken(es[1..], c) {
      var i :| 0 <= i < |es[1..]| && Breaks(es[1..][i], c);
      assert es[i + 1] == es[1..][i];
    }
    if i :| 0 <= i < |es| && Breaks(es[i], c) {
      if i > 0 { assert es[1..][i - 1] == es[i]; }
    }
  }

  lemma {:induction false} FateFrom(s: State, es: seq<Event>, t: State, c: nat)
    requires Run(s, es, t)
    ensures LostIn(t, c) <==> LostIn(s, c) || Broken(es, c)
    ensures LetGoIn(t, c) <==> LetGoIn(s, c) || CallResume(c) in es
    decreases |es|
  {
    if es != [] {
      StepFate(s, es[0], c);
      BrokenUnfold(es, c);
      FateFrom(Step(s, es[0]), es[1..], t, c);
    }
  }

  /**
   * In every run a call fails exactly if its directory could not be made, its write failed or its pause timed
   * out, and it releases, once, exactly if its handle was called.
   */
  lemma FateIff(es: seq<Event>, t: State, c: nat)
    requires Run(Init, es, t) && c < |t.clients|
    ensures Lost(t.clients[c].phase) <==> Broken(es, c)
    ensures LetGo(t.clients[c].phase) <==> CallResume(c) in es
  {
    FateFrom(Init, es, t, c);
  }

  /** A poll acquires the pause exactly if the worker reports a pause, no jobs and the token written last. */
  lemma PollAcquiresIff(s: State, c: nat, seen: Option<WorkerState>)
    requires Reachable(s) && Enabled(s, Event.Poll(c, seen))
    ensures s.log != [] && s.log[|s.log| - 1].Wrote?
    ensures var s' := Step(s, Event.Poll(c, seen));
            if seen.Some? && seen.value.paused && seen.value.activeJobs == 0
               && seen.value.pauseToken == Some(s.log[|s.log| - 1].token)
            then s'.clients[c].phase == Leaving(Acquired) && s'.activeResume == RemoveFile && s'.activePauseCount == 1
            else s' == s
  {
    ReachableInv(s);
    assert PhaseInv(s, c);
  }

  // ----- No deadlock -----

  /** The most steps a call can still need before its promise is resolved. */
  function Rank(p: Phase): nat {
    match p
    case AwaitAcquire => 6
    case Preparing => 5
    case Writing(_) => 4
    case Polling(_) => 3
    case TimingOut(_) => 2
    case AwaitRelease => 3
    case Removing => 2
    case Leaving(_) => 1
    case Operating => 0
    case Finished => 0
    case Failed => 0
  }

  function Work(clients: seq<Client>): nat {
    if clients == [] then 0 else Rank(clients[0].phase) + Work(clients[1..])
  }

  lemma {:induction false} WorkUpdate(clients: seq<Client>, c: nat, x: Client)
    requires c < |clients|
    ensures Work(clients[c := x]) + Rank(clients[c].phase) == Work(clients) + Rank(x.phase)
  {
    if c == 0 {
      assert clients[c := x][1..] == clients[1..];
    } else {
      assert clients[c := x][1..] == clients[1..][c - 1 := x];
      WorkUpdate(clients[1..], c - 1, x);
    }
  }

  lemma {:induction false} FirstUnsettled(settled: seq<bool>, j: nat) returns (i: nat)
    requires j < |settled| && settled[0] && !settled[j]
    ensures 0 < i <= j && !settled[i] && settled[i - 1]
  {
    if settled[j - 1] { i := j; } else { i := FirstUnsettled(settled, j - 1); }
  }

  /** The next step of the call at the head of the queue. */
  function NextEvent(c: nat, p: Phase): Event
    requires Active(p)
  {
    match p
    case AwaitAcquire => EnterAcquire(c)
    case Preparing => MkdirDone(c, true)
    case Writing(_) => WriteDone(c, true)
    case Polling(_) => Deadline(c)
    case TimingOut(_) => TimeoutRemoved(c)
    case AwaitRelease => EnterRelease(c)
    case Removing => ResumeRemoved(c)
    case Leaving(_) => Leave(c)
  }

  lemma NextEventWorks(s: State, c: nat)
    requires MayRun(s, c) && s.clients[c].ticket.own < |s.settled|
    ensures var e := NextEvent(c, s.clients[c].phase);
            && Enabled(s, e) && !e.CallResume? && !e.Request?
            && Step(s, e).clients == s.clients[c := Step(s, e).clients[c]]
            && Rank(Step(s, e).clients[c].phase) < Rank(s.clients[c].phase)
  {
    match s.clients[c].phase
    case AwaitAcquire =>
    case AwaitRelease =>
    case _ =>
  }

  /** The call at the head of the queue can take a step, and that step is progress. */
  lemma Progress(s: State, waiting: nat) returns (c: nat, e: Event)
    requires MutexInv(s) && waiting < |s.clients| && Active(s.clients[waiting].phase)
    ensures c < |s.clients| && Active(s.clients[c].phase)
    ensures Enabled(s, e) && !e.CallResume? && !e.Request?
    ensures Work(Step(s, e).clients) < Work(s.clients)
    ensures |Step(s, e).clients| == |s.clients|
    ensures forall d :: 0 <= d < |s.clients| && d != c ==> Step(s, e).clients[d] == s.clients[d]
  {
    assert TicketInv(s, waiting);
    var j := FirstUnsettled(s.settled, s.clients[waiting].ticket.own);
    c :| Owns(s, c, j);
    assert TicketInv(s, c);
    NextEventWorks(s, c);
    e := NextEvent(c, s.clients[c].phase);
    WorkUpdate(s.clients, c, Step(s, e).clients[c]);
  }

  /**
   * No deadlock: whatever operations are running, and however they are nested, every call
   * waiting for the mutex is served without any of those operations having to end.
   */
  lemma {:induction false} WaitingCallsAreServed(s: State) returns (es: seq<Event>, t: State)
    requires Inv(s)
    ensures Run(s, es, t) && |t.clients| == |s.clients|
    ensures forall i :: 0 <= i < |es| ==> !es[i].CallResume? && !es[i].Request?
    ensures forall c :: 0 <= c < |t.clients| ==> !Active(t.clients[c].phase)
    ensures forall c :: 0 <= c < |s.clients| && s.clients[c].phase.Operating? ==> t.clients[c] == s.clients[c]
    decreases Work(s.clients)
  {
    if waiting :| 0 <= waiting < |s.clients| && Active(s.clients[waiting].phase) {
      var c, e := Progress(s, waiting);
      StepInv(s, e);
      var rest;
      rest, t := WaitingCallsAreServed(Step(s, e));
      es := [e] + rest;
      assert es[1..] == rest;
    } else {
      es, t := [], s;
    }
  }

  // ----- The module's variables and functions -----

  /** The module with its three variables, the pause file and the calls in progress. */
  class LocalWorkerPause {
    var activePauseCount: int
    var activeResume: Resume
    var pauseMutex: nat
    var settled: seq<bool>
    var clients: seq<Client>
    var configured: bool
    var pauseFile: Option<Token>
    var nextToken: Token
    ghost var log: seq<FileOp>

    ghost function View(): State
      reads this
    {
      State(activePauseCount, activeResume, pauseMutex, settled, clients, configured, pauseFile, nextToken, log)
    }

    constructor ()
      ensures View() == Init && Inv(View())
    {
      activePauseCount, activeResume, pauseMutex, settled := 0, NoResume, 0, [true];
      clients, configured, pauseFile, nextToken, log := [], false, None, TORN + 1, [];
      InitInv();
    }

    method TakePauseTicket() returns (ticket: Ticket)
      modifies this`settled, this`pauseMutex
      ensures (View(), ticket) == TakeTicket(old(View()))
    {
      var previous := pauseMutex;
      pauseMutex := |settled|;
      settled := settled + [false];
      ticket := Ticket(previous, pauseMutex);
    }

    method WithPausedLocalWorker() returns (c: nat)
      requires Inv(View())
      modifies this
      ensures View() == Step(old(View()), Request) && Inv(View()) && c == |old(clients)|
    {
      StepInv(View(), Request);
      c := |clients|;
      var ticket := TakePauseTicket();
      clients := clients + [Client(ticket, AwaitAcquire)];
    }

    method MoveTo(c: nat, phase: Phase)
      requires c < |clients|
      modifies this`clients
      ensures clients == old(clients)[c := old(clients)[c].(phase := phase)]
    {
      clients := clients[c := clients[c].(phase := phase)];
    }

    method AcquireLocalWorkerPause(c: nat)
      requires Inv(View()) && Enabled(View(), EnterAcquire(c))
      modifies this
      ensures View() == Step(old(View()), EnterAcquire(c)) && Inv(View())
    {
      StepInv(View(), EnterAcquire(c));
      if activePauseCount == 0 {
        if configured {
          MoveTo(c, Preparing);
          return;
        }
        activeResume := DoNothing;
      }
      activePauseCount := activePauseCount + 1;
      MoveTo(c, Leaving(Acquired));
    }

    method DirectoryMade(c: nat, ok: bool)
      requires Inv(View()) && Enabled(View(), MkdirDone(c, ok))
      modifies this
      ensures View() == Step(old(View()), MkdirDone(c, ok)) && Inv(View())
    {
      StepInv(View(), MkdirDone(c, ok));
      if ok {
        MoveTo(c, Writing(nextToken));
        nextToken := nextToken + 1;
      } else {
        MoveTo(c, Leaving(Threw));
      }
    }

    method TokenWritten(c: nat, ok: bool)
      requires Inv(View()) && Enabled(View(), WriteDone(c, ok))
      modifies this
      ensures View() == Step(old(View()), WriteDone(c, ok)) && Inv(View())
    {
      StepInv(View(), WriteDone(c, ok));
      var token := clients[c].phase.token;
      if ok {
        pauseFile := Some(token);
        log := log + [Wrote(token)];
        MoveTo(c, Polling(token));
      } else {
        MoveTo(c, Leaving(Threw));
      }
    }

    /** `writeFile` has created or truncated the file. */
    method PauseFileOpened(c: nat)
      requires Inv(View()) && Enabled(View(), FileOpened(c))
      modifies this
      ensures View() == Step(old(View()), FileOpened(c)) && Inv(View())
    {
      StepInv(View(), FileOpened(c));
      pauseFile := Some(TORN);
    }

    method DeadlinePassed(c: nat)
      requires Inv(View()) && Enabled(View(), Deadline(c))
      modifies this
      ensures View() == Step(old(View()), Deadline(c)) && Inv(View())
    {
      StepInv(View(), Deadline(c));
      MoveTo(c, TimingOut(clients[c].phase.token));
    }

    method PollWorkerState(c: nat, lastState: Option<WorkerState>)
      requires Inv(View()) && Enabled(View(), Poll(c, lastState))
      modifies this
      ensures View() == Step(old(View()), Poll(c, lastState)) && Inv(View())
    {
      StepInv(View(), Poll(c, lastState));
      match lastState
      case None =>
      case Some(state) =>
        if state.paused && state.activeJobs == 0 && state.pauseToken == Some(clients[c].phase.token) {
          activeResume := RemoveFile;
          activePauseCount := activePauseCount + 1;
          MoveTo(c, Leaving(Acquired));
        }
    }

    method RemoveFileAfterTimeout(c: nat)
      requires Inv(View()) && Enabled(View(), TimeoutRemoved(c))
      modifies this
      ensures View() == Step(old(View()), TimeoutRemoved(c)) && Inv(View())
    {
      StepInv(View(), TimeoutRemoved(c));
      pauseFile := None;
      log := log + [FileOp.Removed];
      MoveTo(c, Leaving(Threw));
    }

    method ReleaseMutex(c: nat)
      requires Inv(View()) && Enabled(View(), Leave(c))
      modifies this
      ensures View() == Step(old(View()), Leave(c)) && Inv(View())
    {
      StepInv(View(), Leave(c));
      settled := settled[clients[c].ticket.own := true];
      match clients[c].phase.verdict
      case Acquired => MoveTo(c, Operating);
      case Released => MoveTo(c, Finished);
      case Threw => MoveTo(c, Failed);
    }

    method ResumeHandle(c: nat)
      requires Inv(View()) && Enabled(View(), CallResume(c))
      modifies this
      ensures View() == Step(old(View()), CallResume(c)) && Inv(View())
      ensures !old(clients)[c].phase.Operating? ==> View() == old(View())
    {
      StepInv(View(), CallResume(c));
      var released := !clients[c].phase.Operating?;
      if released {
        return;
      }
      var ticket := TakePauseTicket();
      clients := clients[c := Client(ticket, AwaitRelease)];
    }

    method ReleaseLocalWorkerPause(c: nat)
      requires Inv(View()) && Enabled(View(), EnterRelease(c))
      modifies this
      ensures View() == Step(old(View()), EnterRelease(c)) && Inv(View())
    {
      StepInv(View(), EnterRelease(c));
      activePauseCount := Max(0, activePauseCount - 1);
      if activePauseCount > 0 {
        MoveTo(c, Leaving(Released));
        return;
      }
      var resume := activeResume;
      activeResume := NoResume;
      MoveTo(c, if resume == RemoveFile then Removing else Leaving(Released));
    }

    method ResumeWorker(c: nat)
      requires Inv(View()) && Enabled(View(), ResumeRemoved(c))
      modifies this
      ensures View() == Step(old(View()), ResumeRemoved(c)) && Inv(View())
    {
      StepInv(View(), ResumeRemoved(c));
      pauseFile := None;
      log := log + [FileOp.Removed];
      MoveTo(c, Leaving(Released));
    }
  }
}
