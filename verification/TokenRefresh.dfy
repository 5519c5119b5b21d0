/**
 * The session refresh scheduler (apps/frontend/components/token-refresh-scheduler.tsx).
 *
 * The component's refs are the state. Timer callbacks, fetch outcomes, visibility events,
 * effect clean-ups and re-runs are events that may come in any order; the code between two
 * `await`s of a refresh is one step.
 */
module TokenRefresh {
  import opened Wrappers

  const REFRESH_BUFFER_SECONDS: int := 300
  const MIN_REFRESH_DELAY_MS: int := 5000
  const MAX_RETRY_COUNT: nat := 3
  const RETRY_BASE_DELAY_MS: int := 1000

  datatype Timer = RefreshTimer(delayMs: int) | BackoffTimer(delayMs: int)

  datatype Origin = FromTimer | FromVisible

  /** The value of the promise `refreshToken` returns: true, false or null. */
  datatype Outcome = Success | Failure | Cancelled

  datatype Phase =
    | Fetching
    | ReadingBody
    | Verifying(expiresAt: int)  // awaiting the recipient id
    | Renewing(expiresAt: int)   // awaiting onRefresh
    | Returned(outcome: Outcome) // the caller's continuation is pending
    | Over

  /** One call of `refreshToken`; `settled` says that its credential refresh has been settled. */
  datatype Call = Call(origin: Origin, phase: Phase, cancelled: bool, settled: bool)

  datatype Exit = Login | Reload

  datatype State = State(
    expiresAt: int,
    timeout: Option<nat>,
    retryCount: nat,
    cancelRefresh: Option<nat>,
    isMounted: bool,
    hasRedirected: bool,
    listening: bool,
    paused: bool,  // the last visibility event handled since the effect ran said hidden
    timers: map<nat, Timer>,
    nextTimer: nat,
    calls: seq<Call>,
    started: nat,
    exits: seq<Exit>)

  datatype Response = NetworkError | NotOk | Received

  /** The body: unreadable, without success, without a usable expiry, or with one to verify. */
  datatype Body = Unreadable | NotSuccessful | Mismatch | Candidate(expiresAt: int)

  datatype Verification = VerifyThrows | Differs | Matches

  datatype Event =
    | Fire(timer: nat, now: int)
    | Fetched(c: nat, response: Response)
    | BodyRead(c: nat, body: Body)
    | Verified(c: nat, verification: Verification)
    | Renewed(c: nat, ok: bool)
    | Continue(c: nat, now: int)
    | Visible(now: int)
    | Hidden
    | Cleanup
    | RunEffect(now: int)
    | PropsChanged(initialExpiresAt: int)

  function Initial(initialExpiresAt: int): State {
    State(initialExpiresAt, None, 0, None, true, false, false, false, map[], 0, [], 0, [])
  }

  predicate InFlight(p: Phase) {
    p.Fetching? || p.ReadingBody? || p.Verifying? || p.Renewing?
  }

  function ClearTimeout(s: State): State {
    match s.timeout
    case None => s
    case Some(id) => s.(timers := s.timers - {id}, timeout := None)
  }

  function SetTimeout(s: State, timer: Timer): State {
    s.(timers := s.timers[s.nextTimer := timer], timeout := Some(s.nextTimer), nextTimer := s.nextTimer + 1)
  }

  function RedirectToLogin(s: State): State {
    if s.hasRedirected then s
    else ClearTimeout(s.(hasRedirected := true)).(exits := s.exits + [Login])
  }

  function ReloadPage(s: State): State {
    ClearTimeout(s.(hasRedirected := true)).(exits := s.exits + [Reload])
  }

  function NearExpiry(s: State, now: int): bool {
    s.expiresAt - now / 1000 <= REFRESH_BUFFER_SECONDS
  }

  /** The delay until the next refresh; `now` is in milliseconds. */
  function RefreshDelay(expiresAt: int, now: int): int {
    var timeUntilExpirySeconds := expiresAt - now / 1000;
    var delayMs := (timeUntilExpirySeconds - REFRESH_BUFFER_SECONDS) * 1000;
    var bounded := if delayMs < MIN_REFRESH_DELAY_MS then MIN_REFRESH_DELAY_MS else delayMs;
    if timeUntilExpirySeconds <= 0 then MIN_REFRESH_DELAY_MS else bounded
  }

  function Power2(n: nat): int { if n == 0 then 1 else 2 * Power2(n - 1) }

  function ScheduleRefresh(s: State, now: int): State {
    if s.hasRedirected then s
    else SetTimeout(ClearTimeout(s), RefreshTimer(RefreshDelay(s.expiresAt, now)))
  }

  /** The synchronous start of `refreshToken`. */
  function BeginRefresh(s: State, origin: Origin): State {
    if s.cancelRefresh.Some? then s.(calls := s.calls + [Call(origin, Returned(Success), false, true)])
    else
      s.(calls := s.calls + [Call(origin, Fetching, false, false)],
         cancelRefresh := Some(|s.calls|), started := s.started + 1)
  }

  function SetPhase(s: State, c: nat, p: Phase): State
    requires c < |s.calls|
  {
    s.(calls := s.calls[c := s.calls[c].(phase := p)])
  }

  /** The `finally` block: settle, and free the slot if it is still this call's. */
  function Finish(s: State, c: nat, outcome: Outcome): State
    requires c < |s.calls|
  {
    s.(calls := s.calls[c := s.calls[c].(phase := Returned(outcome), settled := true)],
       cancelRefresh := if s.cancelRefresh == Some(c) then None else s.cancelRefresh)
  }

  /** What an answer does to a refresh that has not been cancelled. */
  datatype Answer = Moves(phase: Phase) | Ends(outcome: Outcome) | Leaves(exit: Exit) | Accepts(expiresAt: int)

  predicate IsReply(e: Event) {
    e.Fetched? || e.BodyRead? || e.Verified? || e.Renewed?
  }

  function AnswerOf(s: State, e: Event): Answer
    requires IsReply(e) && Enabled(s, e)
  {
    match e
    case Fetched(_, response) => if response.Received? then Moves(ReadingBody) else Ends(Failure)
    case BodyRead(_, Unreadable) => Ends(Failure)
    case BodyRead(_, NotSuccessful) => Leaves(Login)
    case BodyRead(_, Mismatch) => Leaves(Reload)
    case BodyRead(_, Candidate(expiresAt)) => Moves(Verifying(expiresAt))
    case Verified(_, VerifyThrows) => Ends(Failure)
    case Verified(_, Differs) => Leaves(Reload)
    case Verified(c, Matches) => Moves(Renewing(s.calls[c].phase.expiresAt))
    case Renewed(c, ok) => if ok then Accepts(s.calls[c].phase.expiresAt) else Leaves(Reload)
  }

  function LeaveFor(s: State, exit: Exit): State {
    if exit.Login? then RedirectToLogin(s) else ReloadPage(s)
  }

  function Reply(s: State, c: nat, answer: Answer): State
    requires c < |s.calls|
  {
    if s.calls[c].cancelled then Finish(s, c, Cancelled)
    else
      match answer
      case Moves(phase) => SetPhase(s, c, phase)
      case Ends(outcome) => Finish(s, c, outcome)
      case Leaves(exit) => Finish(LeaveFor(s, exit), c, Success)
      case Accepts(expiresAt) => Finish(s.(expiresAt := expiresAt, retryCount := 0), c, Success)
  }

  function CancelCurrent(s: State): State {
    match s.cancelRefresh
    case None => s
    case Some(c) =>
      if c < |s.calls| then
        s.(calls := s.calls[c := s.calls[c].(cancelled := true, settled := true)], cancelRefresh := None)
      else s.(cancelRefresh := None)
  }

  /** What a caller does with a failed refresh. */
  function CountFailure(s: State): State {
    var counted := s.(retryCount := s.retryCount + 1);
    if counted.retryCount > MAX_RETRY_COUNT then RedirectToLogin(counted)
    else SetTimeout(counted, BackoffTimer(RETRY_BASE_DELAY_MS * Power2(counted.retryCount - 1)))
  }

  predicate Enabled(s: State, e: Event) {
    match e
    case Fire(timer, _) => timer in s.timers
    case Fetched(c, _) => c < |s.calls| && s.calls[c].phase.Fetching?
    case BodyRead(c, _) => c < |s.calls| && s.calls[c].phase.ReadingBody?
    case Verified(c, _) => c < |s.calls| && s.calls[c].phase.Verifying?
    case Renewed(c, _) => c < |s.calls| && s.calls[c].phase.Renewing?
    case Continue(c, _) => c < |s.calls| && s.calls[c].phase.Returned?
    case Visible(_) => s.listening
    case Hidden => s.listening
    case Cleanup => s.listening
    case RunEffect(_) => !s.listening
    case PropsChanged(_) => true
  }

  function Step(s: State, e: Event): State
    requires Enabled(s, e)
  {
    match e
    case Fire(id, now) =>
      var fired := s.(timers := s.timers - {id});
      (match s.timers[id]
       case RefreshTimer(_) => if !s.isMounted || s.hasRedirected then fired else BeginRefresh(fired, FromTimer)
       case BackoffTimer(_) => ScheduleRefresh(fired, now))
    case Fetched(c, _) => Reply(s, c, AnswerOf(s, e))
    case BodyRead(c, _) => Reply(s, c, AnswerOf(s, e))
    case Verified(c, _) => Reply(s, c, AnswerOf(s, e))
    case Renewed(c, _) => Reply(s, c, AnswerOf(s, e))
    case Continue(c, now) =>
      var done := SetPhase(s, c, Over);
      (match s.calls[c].phase.outcome
       case Cancelled => done
       case Success => if !s.isMounted || s.hasRedirected then done else ScheduleRefresh(done, now)
       case Failure => if !s.isMounted || s.hasRedirected then done else CountFailure(done))
    case Visible(now) =>
      if s.hasRedirected then s
      else if NearExpiry(s, now) then BeginRefresh(ClearTimeout(s).(retryCount := 0, paused := false), FromVisible)
      else ScheduleRefresh(s, now).(paused := false)
    case Hidden => if s.hasRedirected then s else ClearTimeout(s).(paused := true)
    case Cleanup => ClearTimeout(CancelCurrent(s.(isMounted := false))).(listening := false)
    case RunEffect(now) => ScheduleRefresh(s.(isMounted := true), now).(listening := true, paused := false)
    case PropsChanged(initialExpiresAt) => s.(isMounted := true, expiresAt := initialExpiresAt)
  }

  ghost predicate Run(s: State, es: seq<Event>, t: State)
    decreases |es|
  {
    if es == [] then s == t else Enabled(s, es[0]) && Run(Step(s, es[0]), es[1..], t)
  }

  ghost predicate Reachable(s: State) {
    exists initialExpiresAt, es :: Run(Initial(initialExpiresAt), es, s)
  }

  // ----- One refresh at a time -----

  ghost predicate CallInv(s: State, c: nat)
    requires c < |s.calls|
  {
    var call := s.calls[c];
    && (InFlight(call.phase) && !call.cancelled <==> s.cancelRefresh == Some(c))
    && (call.settled <==> call.cancelled || !InFlight(call.phase))
  }

  ghost predicate TimerInv(s: State, id: nat)
    requires id in s.timers
  {
    id < s.nextTimer && match s.timers[id]
                        case RefreshTimer(delayMs) => delayMs >= MIN_REFRESH_DELAY_MS
                        case BackoffTimer(delayMs) => delayMs in {1000, 2000, 4000}
  }

  ghost predicate Inv(s: State) {
    && (s.cancelRefresh.Some? ==> s.cancelRefresh.value < |s.calls| && s.isMounted)
    && (forall c :: 0 <= c < |s.calls| ==> CallInv(s, c))
    && (forall id :: id in s.timers ==> TimerInv(s, id))
    && (s.timeout.Some? ==> s.timeout.value < s.nextTimer)
    && (s.retryCount <= MAX_RETRY_COUNT || (s.retryCount == MAX_RETRY_COUNT + 1 && s.hasRedirected))
    && (s.listening ==> s.isMounted)
    && (s.hasRedirected <==> s.exits != [])
  }

  /** Changing one call only, with the slot following it. */
  lemma CallChanged(s: State, s': State, c: nat)
    requires forall d :: 0 <= d < |s.calls| ==> CallInv(s, d)
    requires c < |s.calls| && |s'.calls| == |s.calls| && s'.calls == s.calls[c := s'.calls[c]]
    requires CallInv(s', c)
    requires forall d :: 0 <= d < |s.calls| && d != c ==> (s'.cancelRefresh == Some(d) <==> s.cancelRefresh == Some(d))
    ensures forall d :: 0 <= d < |s'.calls| ==> CallInv(s', d)
  {
    forall d | 0 <= d < |s'.calls| ensures CallInv(s', d) {
      if d != c { assert CallInv(s, d); }
    }
  }

  lemma ScheduleKeeps(s: State, now: int)
    requires Inv(s)
    ensures Inv(ScheduleRefresh(s, now))
  {
    var s' := ScheduleRefresh(s, now);
    forall c | 0 <= c < |s'.calls| ensures CallInv(s', c) { assert CallInv(s, c); }
    forall id | id in s'.timers ensures TimerInv(s', id) {
      if id in s.timers { assert TimerInv(s, id); }
    }
  }

  lemma ClearKeeps(s: State)
    requires Inv(s)
    ensures Inv(ClearTimeout(s))
  {
    var s' := ClearTimeout(s);
    forall c | 0 <= c < |s'.calls| ensures CallInv(s', c) { assert CallInv(s, c); }
    forall id | id in s'.timers ensures TimerInv(s', id) { assert TimerInv(s, id); }
  }

  lemma LeaveKeeps(s: State)
    requires Inv(s)
    ensures Inv(RedirectToLogin(s)) && Inv(ReloadPage(s))
  {
    LeaveKeepsAny(s, RedirectToLogin(s));
    LeaveKeepsAny(s, ReloadPage(s));
  }

  lemma LeaveKeepsAny(s: State, s': State)
    requires Inv(s) && (s' == RedirectToLogin(s) || s' == ReloadPage(s))
    ensures Inv(s')
  {
    forall c | 0 <= c < |s'.calls| ensures CallInv(s', c) { assert CallInv(s, c); }
    forall id | id in s'.timers ensures TimerInv(s', id) { assert TimerInv(s, id); }
  }

  lemma BeginKeeps(s: State, origin: Origin)
    requires Inv(s) && s.isMounted
    ensures Inv(BeginRefresh(s, origin))
  {
    var s' := BeginRefresh(s, origin);
    forall c | 0 <= c < |s'.calls| ensures CallInv(s', c) {
      if c < |s.calls| { assert CallInv(s, c); }
    }
    forall id | id in s'.timers ensures TimerInv(s', id) { assert TimerInv(s, id); }
  }

  lemma FinishKeeps(s: State, c: nat, outcome: Outcome)
    requires Inv(s) && c < |s.calls|
    ensures Inv(Finish(s, c, outcome))
  {
    var s' := Finish(s, c, outcome);
    CallChanged(s, s', c);
    forall id | id in s'.timers ensures TimerInv(s', id) { assert TimerInv(s, id); }
  }

  lemma PhaseKeeps(s: State, c: nat, p: Phase)
    requires Inv(s) && c < |s.calls| && InFlight(p) == InFlight(s.calls[c].phase)
    ensures Inv(SetPhase(s, c, p))
  {
    var s' := SetPhase(s, c, p);
    assert CallInv(s, c);
    CallChanged(s, s', c);
    forall id | id in s'.timers ensures TimerInv(s', id) { assert TimerInv(s, id); }
  }

  lemma CountKeeps(s: State)
    requires Inv(s) && !s.hasRedirected
    ensures Inv(CountFailure(s))
  {
    var s' := CountFailure(s);
    assert Power2(0) == 1 && Power2(1) == 2 && Power2(2) == 4;
    forall c | 0 <= c < |s'.calls| ensures CallInv(s', c) { assert CallInv(s, c); }
    forall id | id in s'.timers ensures TimerInv(s', id) {
      if id in s.timers { assert TimerInv(s, id); }
    }
  }

  lemma CancelKeeps(s: State)
    requires Inv(s)
    ensures Inv(CancelCurrent(s)) && CancelCurrent(s).cancelRefresh == None
  {
    if s.cancelRefresh.Some? {
      var c := s.cancelRefresh.value;
      var s' := CancelCurrent(s);
      CallChanged(s, s', c);
      forall id | id in s'.timers ensures TimerInv(s', id) { assert TimerInv(s, id); }
    }
  }

  /** Changes that leave the calls, the slot and the timers alone. */
  lemma FieldsKeep(s: State, s': State)
    requires Inv(s) && s'.calls == s.calls && s'.cancelRefresh == s.cancelRefresh && s'.timeout == s.timeout
    requires s'.nextTimer == s.nextTimer && s'.hasRedirected == s.hasRedirected && s'.exits == s.exits
    requires s'.timers.Keys <= s.timers.Keys && forall id :: id in s'.timers ==> s'.timers[id] == s.timers[id]
    requires s'.retryCount == 0 || s'.retryCount == s.retryCount
    requires (s'.cancelRefresh.Some? ==> s'.isMounted) && (s'.listening ==> s'.isMounted)
    ensures Inv(s')
  {
    forall c | 0 <= c < |s'.calls| ensures CallInv(s', c) { assert CallInv(s, c); }
    forall id | id in s'.timers ensures TimerInv(s', id) { assert TimerInv(s, id); }
  }

  lemma StepInv(s: State, e: Event)
    requires Inv(s) && Enabled(s, e)
    ensures Inv(Step(s, e))
  {
    match e
    case Fire(id, now) =>
      var fired := s.(timers := s.timers - {id});
      FieldsKeep(s, fired);
      if s.timers[id].BackoffTimer? { ScheduleKeeps(fired, now); }
      else if s.isMounted { BeginKeeps(fired, FromTimer); }
    case Fetched(c, _) => ReplyKeeps(s, c, AnswerOf(s, e));
    case BodyRead(c, _) => ReplyKeeps(s, c, AnswerOf(s, e));
    case Verified(c, _) => ReplyKeeps(s, c, AnswerOf(s, e));
    case Renewed(c, _) => ReplyKeeps(s, c, AnswerOf(s, e));
    case Continue(c, now) => ContinueKeeps(s, c, now);
    case Visible(now) => VisibleKeeps(s, now);
    case Hidden =>
      ClearKeeps(s);
      FieldsKeep(ClearTimeout(s), ClearTimeout(s).(paused := true));
    case Cleanup => CleanupKeeps(s);
    case RunEffect(now) => RunEffectKeeps(s, now);
    case PropsChanged(_) => FieldsKeep(s, Step(s, e));
  }

  lemma ContinueKeeps(s: State, c: nat, now: int)
    requires Inv(s) && Enabled(s, Continue(c, now))
    ensures Inv(Step(s, Continue(c, now)))
  {
    PhaseKeeps(s, c, Over);
    var done := SetPhase(s, c, Over);
    ScheduleKeeps(done, now);
    if !s.hasRedirected { CountKeeps(done); }
  }

  lemma VisibleKeeps(s: State, now: int)
    requires Inv(s) && Enabled(s, Visible(now))
    ensures Inv(Step(s, Visible(now)))
  {
    ScheduleKeeps(s, now);
    FieldsKeep(ScheduleRefresh(s, now), ScheduleRefresh(s, now).(paused := false));
    ClearKeeps(s);
    var reset := ClearTimeout(s).(retryCount := 0, paused := false);
    FieldsKeep(ClearTimeout(s), reset);
    BeginKeeps(reset, FromVisible);
  }

  lemma RunEffectKeeps(s: State, now: int)
    requires Inv(s) && !s.listening
    ensures Inv(Step(s, RunEffect(now)))
  {
    var mounted := s.(isMounted := true);
    FieldsKeep(s, mounted);
    ScheduleKeeps(mounted, now);
    FieldsKeep(ScheduleRefresh(mounted, now), Step(s, RunEffect(now)));
  }

  /** Every way an answer can move or end a refresh. */
  lemma ReplyKeeps(s: State, c: nat, answer: Answer)
    requires Inv(s) && c < |s.calls| && InFlight(s.calls[c].phase) && (answer.Moves? ==> InFlight(answer.phase))
    ensures Inv(Reply(s, c, answer))
  {
    if s.calls[c].cancelled {
      FinishKeeps(s, c, Cancelled);
    } else {
      match answer
      case Moves(phase) => PhaseKeeps(s, c, phase);
      case Ends(outcome) => FinishKeeps(s, c, outcome);
      case Leaves(exit) =>
        LeaveKeeps(s);
        FinishKeeps(LeaveFor(s, exit), c, Success);
      case Accepts(expiresAt) =>
        var accepted := s.(expiresAt := expiresAt, retryCount := 0);
        FieldsKeep(s, accepted);
        FinishKeeps(accepted, c, Success);
    }
  }

  lemma CleanupKeeps(s: State)
    requires Inv(s) && s.listening
    ensures Inv(Step(s, Cleanup))
  {
    CancelKeeps(s);
    var cancelled := CancelCurrent(s);
    ClearKeeps(cancelled);
    FieldsKeep(ClearTimeout(cancelled), Step(s, Cleanup));
  }

  lemma {:induction false} RunInv(s: State, es: seq<Event>, t: State)
    requires Inv(s) && Run(s, es, t)
    ensures Inv(t)
    decreases |es|
  {
    if es != [] {
      StepInv(s, es[0]);
      RunInv(Step(s, es[0]), es[1..], t);
    }
  }

  lemma ReachableInv(s: State)
    requires Reachable(s)
    ensures Inv(s)
  {
    var initialExpiresAt, es :| Run(Initial(initialExpiresAt), es, s);
    RunInv(Initial(initialExpiresAt), es, s);
  }

  /** In every run at most one refresh that has not been cancelled is in flight, and it holds the slot. */
  lemma OneRefreshInFlight(s: State, c: nat, d: nat)
    requires Reachable(s) && c < |s.calls| && d < |s.calls|
    requires InFlight(s.calls[c].phase) && !s.calls[c].cancelled
    ensures s.cancelRefresh == Some(c) && s.isMounted
    ensures InFlight(s.calls[d].phase) && !s.calls[d].cancelled ==> c == d
  {
    ReachableInv(s);
    assert CallInv(s, c) && CallInv(s, d);
  }

  /** A late answer to a cancelled refresh changes nothing but its own call; its successor keeps the slot. */
  lemma LateAnswerIsInert(s: State, e: Event, c: nat)
    requires Reachable(s) && Enabled(s, e) && c < |s.calls| && s.calls[c].cancelled
    requires IsReply(e) && e.c == c
    ensures Step(s, e) == s.(calls := s.calls[c := s.calls[c].(phase := Returned(Cancelled))])
    ensures forall now :: Step(Step(s, e), Continue(c, now)) == s.(calls := s.calls[c := s.calls[c].(phase := Over)])
  {
    ReachableInv(s);
    assert CallInv(s, c);
  }

  /** The credential refresh a call began is settled exactly when the call is cancelled or over. */
  lemma SettledWhenDone(s: State, c: nat)
    requires Reachable(s) && c < |s.calls|
    ensures s.calls[c].settled <==> s.calls[c].cancelled || !InFlight(s.calls[c].phase)
  {
    ReachableInv(s);
    assert CallInv(s, c);
  }

  // ----- Leaving the page is final -----

  /** Nothing that counts after the page is being left has changed, but timers may be gone. */
  predicate Quiet(s: State, t: State) {
    t.hasRedirected && t.started == s.started && t.timers.Keys <= s.timers.Keys && t.retryCount <= s.retryCount
  }

  lemma QuietParts(s: State, c: nat)
    requires s.hasRedirected
    ensures Quiet(s, ClearTimeout(s)) && Quiet(s, RedirectToLogin(s))
    ensures Quiet(s, ReloadPage(s)) && Quiet(s, CancelCurrent(s))
    ensures c < |s.calls| ==> forall outcome :: Quiet(s, Finish(s, c, outcome))
  {}

  lemma AfterRedirect(s: State, e: Event)
    requires s.hasRedirected && Enabled(s, e)
    ensures Quiet(s, Step(s, e))
  {
    match e
    case Cleanup =>
      var cancelled := CancelCurrent(s.(isMounted := false));
      QuietParts(s.(isMounted := false), 0);
      QuietParts(cancelled, 0);
    case Fire(_, _) =>
    case Continue(_, _) =>
    case Visible(_) =>
    case Hidden =>
    case RunEffect(_) =>
    case PropsChanged(_) =>
    case Fetched(c, _) => QuietReply(s, c, AnswerOf(s, e));
    case BodyRead(c, _) => QuietReply(s, c, AnswerOf(s, e));
    case Verified(c, _) => QuietReply(s, c, AnswerOf(s, e));
    case Renewed(c, _) => QuietReply(s, c, AnswerOf(s, e));
  }

  lemma QuietReply(s: State, c: nat, answer: Answer)
    requires s.hasRedirected && c < |s.calls|
    ensures Quiet(s, Reply(s, c, answer))
  {}

  /** Once the page is being left, no refresh starts and no timer is set, whatever happens. */
  lemma {:induction false} RedirectIsFinal(s: State, es: seq<Event>, t: State)
    requires s.hasRedirected && Run(s, es, t)
    ensures t.hasRedirected && t.started == s.started && t.timers.Keys <= s.timers.Keys
    decreases |es|
  {
    if es != [] {
      AfterRedirect(s, es[0]);
      RedirectIsFinal(Step(s, es[0]), es[1..], t);
    }
  }

  /** While unmounted nothing runs: no refresh is alive and no event but a new mount starts one. */
  lemma NothingRunsUnmounted(s: State, e: Event)
    requires Reachable(s) && !s.isMounted && Enabled(s, e)
    ensures forall c :: 0 <= c < |s.calls| && InFlight(s.calls[c].phase) ==> s.calls[c].cancelled
    ensures Step(s, e).started == s.started
  {
    ReachableInv(s);
    forall c | 0 <= c < |s.calls| && InFlight(s.calls[c].phase) ensures s.calls[c].cancelled { assert CallInv(s, c); }
  }

  // ----- The scheduler never goes to sleep -----

  predicate TimerPending(s: State) {
    s.timeout.Some? && s.timeout.value in s.timers
  }

  /** The call will still reach its caller with an answer that is not a cancellation. */
  predicate LiveCall(s: State, c: nat) {
    c < |s.calls| && !s.calls[c].cancelled && !s.calls[c].phase.Over? && s.calls[c].phase != Returned(Cancelled)
  }

  ghost predicate Awake(s: State) {
    s.listening && !s.hasRedirected && !s.paused ==> TimerPending(s) || exists c :: LiveCall(s, c)
  }

  /** A live call other than the one answered stays live. */
  lemma OtherLive(s: State, s': State, c: nat)
    requires Awake(s) && c < |s.calls| && |s'.calls| == |s.calls|
    requires forall d :: 0 <= d < |s.calls| && d != c ==> s'.calls[d] == s.calls[d]
    requires s'.timers == s.timers && s'.timeout == s.timeout
    requires s'.listening == s.listening && s'.hasRedirected == s.hasRedirected && s'.paused == s.paused
    requires LiveCall(s, c) ==> LiveCall(s', c)
    ensures Awake(s')
  {
    if d :| LiveCall(s, d) { assert LiveCall(s', d); }
  }

  lemma StepAwake(s: State, e: Event)
    requires Inv(s) && Awake(s) && Enabled(s, e)
    ensures Awake(Step(s, e))
  {
    var s' := Step(s, e);
    match e
    case Fire(id, now) => FireAwake(s, id, now);
    case Continue(c, now) => ContinueAwake(s, c, now);
    case Visible(now) => VisibleAwake(s, now);
    case Hidden =>
    case Cleanup =>
    case RunEffect(_) =>
    case PropsChanged(_) => if c :| LiveCall(s, c) { assert LiveCall(s', c); }
    case Fetched(c, _) => ReplyAwake(s, c, AnswerOf(s, e));
    case BodyRead(c, _) => ReplyAwake(s, c, AnswerOf(s, e));
    case Verified(c, _) => ReplyAwake(s, c, AnswerOf(s, e));
    case Renewed(c, _) => ReplyAwake(s, c, AnswerOf(s, e));
  }

  lemma FireAwake(s: State, id: nat, now: int)
    requires Inv(s) && Awake(s) && Enabled(s, Fire(id, now))
    ensures Awake(Step(s, Fire(id, now)))
  {
    var s' := Step(s, Fire(id, now));
    if s'.listening && !s'.hasRedirected && s.timers[id].RefreshTimer? {
      assert LiveCall(s', |s.calls|);
    }
  }

  lemma ContinueAwake(s: State, c: nat, now: int)
    requires Inv(s) && Awake(s) && Enabled(s, Continue(c, now))
    ensures Awake(Step(s, Continue(c, now)))
  {
    if s.calls[c].phase.outcome.Cancelled? { OtherLive(s, SetPhase(s, c, Over), c); }
  }

  lemma VisibleAwake(s: State, now: int)
    requires Inv(s) && Awake(s) && Enabled(s, Visible(now))
    ensures Awake(Step(s, Visible(now)))
  {
    if !s.hasRedirected && NearExpiry(s, now) {
      var c := if s.cancelRefresh.Some? then s.cancelRefresh.value else |s.calls|;
      if c < |s.calls| { assert CallInv(s, c); }
      assert LiveCall(Step(s, Visible(now)), c);
    }
  }

  lemma ReplyAwake(s: State, c: nat, answer: Answer)
    requires Inv(s) && Awake(s) && c < |s.calls| && InFlight(s.calls[c].phase)
    requires answer.Moves? ==> InFlight(answer.phase)
    requires answer.Ends? ==> !answer.outcome.Cancelled?
    ensures Awake(Reply(s, c, answer))
  {
    if s.calls[c].cancelled || !answer.Leaves? { OtherLive(s, Reply(s, c, answer), c); }
  }

  lemma {:induction false} RunAwake(s: State, es: seq<Event>, t: State)
    requires Inv(s) && Awake(s) && Run(s, es, t)
    ensures Awake(t)
    decreases |es|
  {
    if es != [] {
      StepInv(s, es[0]);
      StepAwake(s, es[0]);
      RunAwake(Step(s, es[0]), es[1..], t);
    }
  }

  /**
   * While the component is mounted, the tab is not hidden and the page is not being left, a
   * timer is pending or a refresh is on its way: no sequence of events leaves it asleep.
   */
  lemma NeverAsleep(s: State)
    requires Reachable(s) && s.listening && !s.hasRedirected && !s.paused
    ensures TimerPending(s) || exists c :: LiveCall(s, c)
  {
    var initialExpiresAt, es :| Run(Initial(initialExpiresAt), es, s);
    RunAwake(Initial(initialExpiresAt), es, s);
  }

  // ----- The retry budget -----

  /** The event counts a failure against the retry budget. */
  predicate Counts(s: State, e: Event)
    requires Enabled(s, e)
  {
    e.Continue? && s.calls[e.c].phase == Returned(Failure) && s.isMounted && !s.hasRedirected
  }

  /** The event gives the budget back: an accepted refresh, or the tab shown close to expiry. */
  predicate Resets(s: State, e: Event)
    requires Enabled(s, e)
  {
    || (e.Renewed? && e.ok && !s.calls[e.c].cancelled)
    || (e.Visible? && !s.hasRedirected && NearExpiry(s, e.now))
  }

  lemma ReplyRetries(s: State, c: nat, answer: Answer)
    requires c < |s.calls|
    ensures Reply(s, c, answer).retryCount == if answer.Accepts? && !s.calls[c].cancelled then 0 else s.retryCount
  {}

  lemma StepRetries(s: State, e: Event)
    requires Enabled(s, e)
    ensures Step(s, e).retryCount ==
            if Resets(s, e) then 0 else if Counts(s, e) then s.retryCount + 1 else s.retryCount
  {
    if IsReply(e) {
      ReplyRetries(s, e.c, AnswerOf(s, e));
    }
  }

  /** The failure that exhausts the budget sends the user to the login page. */
  lemma LastFailureLogsIn(s: State, e: Event)
    requires Enabled(s, e) && Counts(s, e) && s.retryCount >= MAX_RETRY_COUNT
    ensures Step(s, e).hasRedirected && Step(s, e).exits == s.exits + [Login]
  {}

  lemma ExitsGrow(s: State, e: Event)
    requires Enabled(s, e)
    ensures s.exits <= Step(s, e).exits
  {
    if IsReply(e) {
      ExitsGrowReply(s, e.c, AnswerOf(s, e));
    }
  }

  lemma ExitsGrowReply(s: State, c: nat, answer: Answer)
    requires c < |s.calls|
    ensures s.exits <= Reply(s, c, answer).exits
  {}

  ghost function CountedFailures(s: State, es: seq<Event>, t: State): nat
    requires Run(s, es, t)
    decreases |es|
  {
    if es == [] then 0
    else (if Counts(s, es[0]) then 1 else 0) + CountedFailures(Step(s, es[0]), es[1..], t)
  }

  ghost predicate NeverResets(s: State, es: seq<Event>, t: State)
    requires Run(s, es, t)
    decreases |es|
  {
    es == [] || (!Resets(s, es[0]) && NeverResets(Step(s, es[0]), es[1..], t))
  }

  lemma {:induction false} BudgetSpent(s: State, es: seq<Event>, t: State)
    requires Inv(s) && Run(s, es, t) && NeverResets(s, es, t)
    ensures Inv(t) && t.retryCount == s.retryCount + CountedFailures(s, es, t)
    ensures s.exits <= t.exits
    ensures s.retryCount <= MAX_RETRY_COUNT < t.retryCount ==> Login in t.exits
    decreases |es|
  {
    if es != [] {
      var next := Step(s, es[0]);
      StepRetries(s, es[0]);
      StepInv(s, es[0]);
      ExitsGrow(s, es[0]);
      BudgetSpent(next, es[1..], t);
      if s.retryCount <= MAX_RETRY_COUNT < next.retryCount {
        LastFailureLogsIn(s, es[0]);
        assert next.exits[|s.exits|] == Login;
      }
    }
  }

  /** Between two resets at most four failures are counted, and the fourth sends the user to the login page. */
  lemma FourthFailureLogsIn(s: State, es: seq<Event>, t: State)
    requires Reachable(s) && s.retryCount == 0 && Run(s, es, t) && NeverResets(s, es, t)
    ensures CountedFailures(s, es, t) <= 4
    ensures CountedFailures(s, es, t) == 4 ==> t.hasRedirected && Login in t.exits
  {
    ReachableInv(s);
    BudgetSpent(s, es, t);
  }

  lemma RetryCountBounded(s: State)
    requires Reachable(s)
    ensures s.retryCount <= MAX_RETRY_COUNT || (s.retryCount == MAX_RETRY_COUNT + 1 && s.hasRedirected)
  {
    ReachableInv(s);
  }

  // ----- Delays -----

  /** Every live timer waits at least five seconds for a refresh, or one of the three backoff delays. */
  lemma TimerDelays(s: State, id: nat)
    requires Reachable(s) && id in s.timers
    ensures match s.timers[id]
            case RefreshTimer(delayMs) => delayMs >= 5000
            case BackoffTimer(delayMs) => delayMs in {1000, 2000, 4000}
  {
    ReachableInv(s);
    assert TimerInv(s, id);
  }

  /**
   * With at least 305 seconds left the refresh comes inside the first second of the last
   * five minutes; with less it comes after exactly five seconds.
   */
  lemma RefreshComesBeforeExpiry(expiresAt: int, now: int)
    ensures var left, at := expiresAt - now / 1000, now + RefreshDelay(expiresAt, now);
            if left >= 305 then (expiresAt - 300) * 1000 <= at < (expiresAt - 300) * 1000 + 1000
            else at == now + 5000
  {
    assert now == 1000 * (now / 1000) + now % 1000;
  }

  // ----- The expiry that counts -----

  /** What a run has told about expiries: the one that counts, and the one each call has been offered. */
  datatype Book = Book(expiresAt: int, offers: map<nat, int>)

  /** Props decide at once; an offer decides when its call, not cancelled, is renewed. */
  function Note(s: State, e: Event, book: Book): Book
    requires Enabled(s, e)
  {
    match e
    case PropsChanged(initialExpiresAt) => book.(expiresAt := initialExpiresAt)
    case BodyRead(c, Candidate(expiresAt)) => book.(offers := book.offers[c := expiresAt])
    case Renewed(c, true) =>
      if !s.calls[c].cancelled && c in book.offers then book.(expiresAt := book.offers[c]) else book
    case _ => book
  }

  ghost function Booked(s: State, es: seq<Event>, t: State, book: Book): Book
    requires Run(s, es, t)
    decreases |es|
  {
    if es == [] then book else Booked(Step(s, es[0]), es[1..], t, Note(s, es[0], book))
  }

  predicate Offered(book: Book, c: nat, expiresAt: int) {
    c in book.offers && book.offers[c] == expiresAt
  }

  ghost predicate OfferKnown(book: Book, c: nat, p: Phase) {
    p.Verifying? || p.Renewing? ==> Offered(book, c, p.expiresAt)
  }

  ghost predicate Agrees(s: State, book: Book) {
    && s.expiresAt == book.expiresAt
    && forall c :: 0 <= c < |s.calls| ==> OfferKnown(book, c, s.calls[c].phase)
  }

  lemma NoteAgrees(s: State, e: Event, book: Book)
    requires Inv(s) && Agrees(s, book) && Enabled(s, e)
    ensures Agrees(Step(s, e), Note(s, e, book))
  {
    if IsReply(e) {
      NoteReply(s, e, book);
    } else {
      OtherCalls(s, e);
      OtherExpiry(s, e);
      var s' := Step(s, e);
      forall c | 0 <= c < |s'.calls| ensures OfferKnown(book, c, s'.calls[c].phase) {
        assert Follows(s, s'.calls, c, e.Cleanup?);
      }
    }
  }

  lemma NoteReply(s: State, e: Event, book: Book)
    requires Agrees(s, book) && Enabled(s, e) && IsReply(e)
    ensures Agrees(Step(s, e), Note(s, e, book))
  {
    StepIsReply(s, e);
    ReplyFrame(s, e.c, AnswerOf(s, e));
    ReplyAgrees(s, e.c, AnswerOf(s, e));
    assert OfferKnown(book, e.c, s.calls[e.c].phase);
  }

  lemma StepIsReply(s: State, e: Event)
    requires Enabled(s, e) && IsReply(e)
    ensures e.c < |s.calls| && InFlight(s.calls[e.c].phase) && Step(s, e) == Reply(s, e.c, AnswerOf(s, e))
  {}

  /** Setting and clearing timers, counting a failure and leaving change no call and no expiry. */
  lemma CallsKept(s: State, now: int)
    ensures ScheduleRefresh(s, now).calls == s.calls && ScheduleRefresh(s, now).expiresAt == s.expiresAt
    ensures ClearTimeout(s).calls == s.calls && ClearTimeout(s).expiresAt == s.expiresAt
    ensures ClearTimeout(s).cancelRefresh == s.cancelRefresh
    ensures CountFailure(s).calls == s.calls && CountFailure(s).expiresAt == s.expiresAt
  {}

  /** A call goes on or is new; it is cancelled if it is in flight at a clean-up. */
  predicate Follows(s: State, calls: seq<Call>, c: nat, cleanup: bool)
    requires c < |calls|
  {
    if c < |s.calls| then
      (calls[c].phase == s.calls[c].phase || calls[c].phase.Over?)
      && (calls[c].cancelled <==> s.calls[c].cancelled || (cleanup && InFlight(s.calls[c].phase)))
    else !calls[c].cancelled && (calls[c].phase.Fetching? || calls[c].phase.Returned?)
  }

  ghost predicate AllFollow(s: State, calls: seq<Call>, cleanup: bool) {
    |s.calls| <= |calls| && forall c :: 0 <= c < |calls| ==> Follows(s, calls, c, cleanup)
  }

  lemma CleanupFollows(s: State)
    requires Inv(s)
    ensures AllFollow(s, CancelCurrent(s.(isMounted := false)).calls, true)
  {
    forall c | 0 <= c < |s.calls| ensures Follows(s, CancelCurrent(s.(isMounted := false)).calls, c, true) {
      assert CallInv(s, c);
    }
  }

  lemma BeginFollows(s: State, before: State, origin: Origin)
    requires s.calls == before.calls
    ensures AllFollow(before, BeginRefresh(s, origin).calls, false) && BeginRefresh(s, origin).expiresAt == s.expiresAt
  {}

  lemma FireFollows(s: State, id: nat, now: int)
    requires Enabled(s, Fire(id, now))
    ensures AllFollow(s, Step(s, Fire(id, now)).calls, false)
  {
    var fired := s.(timers := s.timers - {id});
    CallsKept(fired, now);
    BeginFollows(fired, s, FromTimer);
  }

  lemma ContinueFollows(s: State, c: nat, now: int)
    requires Enabled(s, Continue(c, now))
    ensures AllFollow(s, Step(s, Continue(c, now)).calls, false)
  {
    CallsKept(SetPhase(s, c, Over), now);
  }

  lemma VisibleFollows(s: State, now: int)
    requires Enabled(s, Visible(now))
    ensures AllFollow(s, Step(s, Visible(now)).calls, false)
  {
    CallsKept(s, now);
    BeginFollows(ClearTimeout(s).(retryCount := 0, paused := false), s, FromVisible);
  }

  lemma CleanupStepFollows(s: State)
    requires Inv(s) && Enabled(s, Cleanup)
    ensures AllFollow(s, Step(s, Cleanup).calls, true)
  {
    CleanupFollows(s);
    CallsKept(CancelCurrent(s.(isMounted := false)), 0);
  }

  lemma OtherCalls(s: State, e: Event)
    requires Inv(s) && Enabled(s, e) && !IsReply(e)
    ensures AllFollow(s, Step(s, e).calls, e.Cleanup?)
  {
    match e
    case Fire(id, now) => FireFollows(s, id, now);
    case Continue(c, now) => ContinueFollows(s, c, now);
    case Visible(now) => VisibleFollows(s, now);
    case Cleanup => CleanupStepFollows(s);
    case RunEffect(now) => CallsKept(s.(isMounted := true), now);
    case Hidden => CallsKept(s, 0);
    case PropsChanged(_) =>
  }

  lemma OtherExpiry(s: State, e: Event)
    requires Enabled(s, e) && !IsReply(e)
    ensures Step(s, e).expiresAt == if e.PropsChanged? then e.initialExpiresAt else s.expiresAt
  {
    match e
    case Fire(id, now) =>
      var fired := s.(timers := s.timers - {id});
      CallsKept(fired, now);
      BeginFollows(fired, s, FromTimer);
    case Continue(c, now) => ContinueExpiry(s, c, now);
    case Visible(now) =>
      CallsKept(s, now);
      var cleared := ClearTimeout(s).(retryCount := 0, paused := false);
      BeginFollows(cleared, s, FromVisible);
    case RunEffect(now) => CallsKept(s.(isMounted := true), now);
    case Cleanup => CleanupExpiry(s);
    case Hidden => CallsKept(s, 0);
    case PropsChanged(_) =>
  }

  lemma ContinueExpiry(s: State, c: nat, now: int)
    requires Enabled(s, Continue(c, now))
    ensures Step(s, Continue(c, now)).expiresAt == s.expiresAt
  {
    CallsKept(SetPhase(s, c, Over), now);
  }

  lemma CleanupExpiry(s: State)
    requires Enabled(s, Cleanup)
    ensures Step(s, Cleanup).expiresAt == s.expiresAt
  {
    var cancelled := CancelCurrent(s.(isMounted := false));
    assert cancelled.expiresAt == s.expiresAt;
    CallsKept(cancelled, 0);
  }

  /** An answer leaves the other calls alone, and most of the rest. */
  lemma ReplyFrame(s: State, c: nat, answer: Answer)
    requires c < |s.calls|
    ensures |Reply(s, c, answer).calls| == |s.calls|
    ensures forall d :: 0 <= d < |s.calls| && d != c ==> Reply(s, c, answer).calls[d] == s.calls[d]
    ensures Reply(s, c, answer).calls[c].cancelled == s.calls[c].cancelled
    ensures Reply(s, c, answer).isMounted == s.isMounted
    ensures Reply(s, c, answer).timers.Keys <= s.timers.Keys
  {
    if answer.Leaves? { LeaveFrame(s, answer.exit); }
  }

  lemma LeaveFrame(s: State, exit: Exit)
    ensures LeaveFor(s, exit).calls == s.calls && LeaveFor(s, exit).isMounted == s.isMounted
    ensures LeaveFor(s, exit).timers.Keys <= s.timers.Keys && LeaveFor(s, exit).expiresAt == s.expiresAt
  {}

  lemma ReplyAgrees(s: State, c: nat, answer: Answer)
    requires c < |s.calls|
    ensures Reply(s, c, answer).expiresAt
         == if answer.Accepts? && !s.calls[c].cancelled then answer.expiresAt else s.expiresAt
    ensures Reply(s, c, answer).calls[c].phase
         == if s.calls[c].cancelled then Returned(Cancelled)
            else match answer
              case Moves(phase) => phase
              case Ends(outcome) => Returned(outcome)
              case Leaves(_) => Returned(Success)
              case Accepts(_) => Returned(Success)
  {
    if answer.Leaves? { LeaveFrame(s, answer.exit); }
  }

  /** In every run the expiry in use is the one given last by the props or by an accepted refresh. */
  lemma {:induction false} ExpiryIsBooked(s: State, es: seq<Event>, t: State, book: Book)
    requires Inv(s) && Agrees(s, book) && Run(s, es, t)
    ensures t.expiresAt == Booked(s, es, t, book).expiresAt && Agrees(t, Booked(s, es, t, book))
    decreases |es|
  {
    if es != [] {
      NoteAgrees(s, es[0], book);
      StepInv(s, es[0]);
      ExpiryIsBooked(Step(s, es[0]), es[1..], t, Note(s, es[0], book));
    }
  }

  /** The calls that are cancelled are those that were in flight when the component was cleaned up. */
  lemma CancelledAtCleanup(s: State, e: Event, c: nat)
    requires Reachable(s) && Enabled(s, e)
    ensures c < |s.calls| ==>
              c < |Step(s, e).calls|
              && (Step(s, e).calls[c].cancelled <==> s.calls[c].cancelled || (e.Cleanup? && InFlight(s.calls[c].phase)))
    ensures |s.calls| <= c < |Step(s, e).calls| ==> !Step(s, e).calls[c].cancelled
  {
    ReachableInv(s);
    if IsReply(e) {
      StepIsReply(s, e);
      ReplyFrame(s, e.c, AnswerOf(s, e));
    } else {
      OtherCalls(s, e);
      if c < |Step(s, e).calls| { assert Follows(s, Step(s, e).calls, c, e.Cleanup?); }
    }
  }

  // ----- When timers fire -----

  /** A timer set at `now` fires in the second that is 300 seconds before expiry, or after five seconds if that is nearer. */
  predicate InTime(expiresAt: int, now: int, delayMs: int) {
    if expiresAt - now / 1000 >= 305 then (expiresAt - 300) * 1000 <= now + delayMs < (expiresAt - 300) * 1000 + 1000
    else delayMs == 5000
  }

  function Clock(e: Event): Option<int> {
    match e
    case Fire(_, now) => Some(now)
    case Continue(_, now) => Some(now)
    case Visible(now) => Some(now)
    case RunEffect(now) => Some(now)
    case _ => None
  }

  /** A step sets at most one timer, and a refresh timer it sets is in time for the expiry in use. */
  lemma NewTimersInTime(s: State, e: Event)
    requires Inv(s) && Enabled(s, e)
    ensures SetInTime(s, Step(s, e), Clock(e))
  {
    if IsReply(e) {
      StepIsReply(s, e);
      ReplyFrame(s, e.c, AnswerOf(s, e));
    } else {
      OtherTimers(s, e);
    }
  }

  /** From `s` to `s'` at most one timer was set, and a refresh timer is in time. */
  ghost predicate SetInTime(s: State, s': State, now: Option<int>) {
    forall id :: id in s'.timers && id !in s.timers ==>
      && id == s.nextTimer && s'.timeout == Some(id)
      && (s'.timers[id].RefreshTimer? ==> now.Some? && InTime(s'.expiresAt, now.value, s'.timers[id].delayMs))
  }

  lemma TimersSet(s: State, now: int)
    ensures SetInTime(s, ScheduleRefresh(s, now), Some(now)) && SetInTime(s, ClearTimeout(s), None)
    ensures SetInTime(s, CountFailure(s), Some(now))
  {
    RefreshComesBeforeExpiry(s.expiresAt, now);
    FailureTimers(s, now);
  }

  lemma FailureTimers(s: State, now: int)
    ensures SetInTime(s, CountFailure(s), Some(now))
  {}

  lemma OtherTimers(s: State, e: Event)
    requires Inv(s) && Enabled(s, e) && !IsReply(e)
    ensures SetInTime(s, Step(s, e), Clock(e))
  {
    match e
    case Fire(id, now) => FireTimers(s, id, now);
    case Continue(c, now) => ContinueTimers(s, c, now);
    case Visible(now) => TimersSet(s, now);
    case RunEffect(now) => TimersSet(s.(isMounted := true), now);
    case Cleanup => CleanupTimers(s);
    case Hidden => TimersSet(s, 0);
    case PropsChanged(_) =>
  }

  lemma ContinueTimers(s: State, c: nat, now: int)
    requires Enabled(s, Continue(c, now))
    ensures SetInTime(s, Step(s, Continue(c, now)), Some(now))
  {
    TimersSet(SetPhase(s, c, Over), now);
  }

  lemma CleanupTimers(s: State)
    requires Enabled(s, Cleanup)
    ensures SetInTime(s, Step(s, Cleanup), None)
  {
    var cancelled := CancelCurrent(s.(isMounted := false));
    CancelTimers(s.(isMounted := false));
    TimersSet(cancelled, 0);
    assert Step(s, Cleanup).timers == ClearTimeout(cancelled).timers;
  }

  lemma CancelTimers(s: State)
    ensures CancelCurrent(s).timers == s.timers && CancelCurrent(s).nextTimer == s.nextTimer
  {}

  lemma FireTimers(s: State, id: nat, now: int)
    requires Inv(s) && Enabled(s, Fire(id, now))
    ensures SetInTime(s, Step(s, Fire(id, now)), Some(now))
  {
    var fired := s.(timers := s.timers - {id});
    TimersSet(fired, now);
    assert TimerInv(s, id);
    if s.timers[id].BackoffTimer? && !s.hasRedirected {
      var s' := ScheduleRefresh(fired, now);
      assert s'.timers.Keys <= fired.timers.Keys + {s.nextTimer};
      assert id < s.nextTimer;
    }
  }

  /**
   * After a refresh the next one is due, whatever the run: in the second 300 seconds before the expiry that
   * counts, or after five seconds.
   */
  lemma NextRefreshInTime(initialExpiresAt: int, es: seq<Event>, s: State, c: nat, now: int)
    requires Run(Initial(initialExpiresAt), es, s) && Enabled(s, Continue(c, now))
    requires s.calls[c].phase == Returned(Success) && s.isMounted && !s.hasRedirected
    ensures var s' := Step(s, Continue(c, now));
            var book := Booked(Initial(initialExpiresAt), es, s, Book(initialExpiresAt, map[]));
            && TimerPending(s') && s'.timers[s'.timeout.value].RefreshTimer?
            && InTime(book.expiresAt, now, s'.timers[s'.timeout.value].delayMs)
  {
    ExpiryIsBooked(Initial(initialExpiresAt), es, s, Book(initialExpiresAt, map[]));
    RefreshComesBeforeExpiry(s.expiresAt, now);
  }

  /** The answers of an accepted refresh. */
  function GoodAnswers(c: nat, expiresAt: int): seq<Event> {
    [Fetched(c, Received), BodyRead(c, Candidate(expiresAt)), Verified(c, Matches), Renewed(c, true)]
  }

  /** A refresh with good answers is accepted: its expiry counts and the retry budget is full again. */
  lemma GoodAnswersRenew(s: State, c: nat, expiresAt: int) returns (t: State)
    requires Reachable(s) && c < |s.calls| && s.calls[c].phase.Fetching? && !s.calls[c].cancelled
    ensures Run(s, GoodAnswers(c, expiresAt), t)
    ensures t == s.(calls := s.calls[c := s.calls[c].(phase := Returned(Success), settled := true)],
                    cancelRefresh := None, expiresAt := expiresAt, retryCount := 0)
  {
    ReachableInv(s);
    assert CallInv(s, c);
    var es := GoodAnswers(c, expiresAt);
    var s1 := Step(s, es[0]);
    var s2 := Step(s1, es[1]);
    var s3 := Step(s2, es[2]);
    t := Step(s3, es[3]);
    assert es[1..][1..][1..][1..] == [];
    assert es[1..][0] == es[1] && es[1..][1..][0] == es[2] && es[1..][1..][1..][0] == es[3];
    assert Run(t, [], t) && Run(s3, es[1..][1..][1..], t) && Run(s2, es[1..][1..], t) && Run(s1, es[1..], t);
    assert t.calls == s.calls[c := s.calls[c].(phase := Returned(Success), settled := true)];
  }

  /** A timer that fires while a refresh is in flight starts none and counts as a success. */
  lemma BusyRefreshSucceeds(s: State, id: nat, now: int)
    requires Reachable(s) && Enabled(s, Fire(id, now)) && s.timers[id].RefreshTimer? && s.isMounted && !s.hasRedirected
    ensures var s' := Step(s, Fire(id, now));
            && |s'.calls| == |s.calls| + 1
            && if s.cancelRefresh.Some?
               then s'.calls[|s.calls|].phase == Returned(Success) && s'.started == s.started
                    && s'.cancelRefresh == s.cancelRefresh
               else s'.calls[|s.calls|].phase == Fetching && s'.started == s.started + 1
                    && s'.cancelRefresh == Some(|s.calls|)
  {}

  // ----- What failures and refusals lead to -----

  /** An answer to a refresh that has not been cancelled. */
  predicate Answers(s: State, e: Event)
    requires Enabled(s, e)
  {
    IsReply(e) && !s.calls[e.c].cancelled
  }

  /** A failure that may be retried: of the network, of the server, of reading the answer or of the identity check. */
  predicate Retryable(e: Event) {
    match e
    case Fetched(_, response) => response == NetworkError || response == NotOk
    case BodyRead(_, body) => body == Unreadable
    case Verified(_, verification) => verification == VerifyThrows
    case _ => false
  }

  /** The server does not confirm the session. */
  predicate Refuses(e: Event) {
    e.BodyRead? && e.body == NotSuccessful
  }

  /** The session is another one, or the page could not take it over. */
  predicate Replaces(e: Event) {
    match e
    case BodyRead(_, body) => body == Mismatch
    case Verified(_, verification) => verification == Differs
    case Renewed(_, ok) => !ok
    case _ => false
  }

  /** Where an event sends the page, if anywhere. */
  function Sends(s: State, e: Event): seq<Exit>
    requires Enabled(s, e)
  {
    if Answers(s, e) && Refuses(e) && !s.hasRedirected then [Login]
    else if Answers(s, e) && Replaces(e) then [Reload]
    else if Counts(s, e) && s.retryCount >= 3 then [Login]
    else []
  }

  lemma ExitsExactly(s: State, e: Event)
    requires Enabled(s, e)
    ensures Step(s, e).exits == s.exits + Sends(s, e)
  {
    assert s.exits + [] == s.exits;
    if IsReply(e) {
      StepIsReply(s, e);
      ReplyExits(s, e.c, AnswerOf(s, e));
    } else {
      OtherExits(s, e);
    }
  }

  lemma OtherExits(s: State, e: Event)
    requires Enabled(s, e) && !IsReply(e)
    ensures Step(s, e).exits == s.exits + if Counts(s, e) && s.retryCount >= 3 then [Login] else []
  {
    match e
    case Fire(_, _) =>
    case Continue(_, _) =>
    case Visible(_) =>
    case _ =>
  }

  lemma ReplyExits(s: State, c: nat, answer: Answer)
    requires c < |s.calls|
    ensures Reply(s, c, answer).exits
         == if s.calls[c].cancelled || !answer.Leaves? || (answer.exit.Login? && s.hasRedirected) then s.exits
            else s.exits + [answer.exit]
  {}

  ghost function AllSends(s: State, es: seq<Event>, t: State): seq<Exit>
    requires Run(s, es, t)
    decreases |es|
  {
    if es == [] then [] else Sends(s, es[0]) + AllSends(Step(s, es[0]), es[1..], t)
  }

  /** In every run the page goes to the login or is reloaded exactly when the session was refused, replaced or given up. */
  lemma {:induction false} ExitsAreSent(s: State, es: seq<Event>, t: State)
    requires Run(s, es, t)
    ensures t.exits == s.exits + AllSends(s, es, t)
    decreases |es|
  {
    if es != [] {
      ExitsExactly(s, es[0]);
      ExitsAreSent(Step(s, es[0]), es[1..], t);
    }
  }

  /** An answer ends its refresh with a failure exactly if it may be retried. */
  lemma FailsIffRetryable(s: State, e: Event)
    requires Enabled(s, e) && Answers(s, e)
    ensures e.c < |Step(s, e).calls| && (Step(s, e).calls[e.c].phase == Returned(Failure) <==> Retryable(e))
  {
    StepIsReply(s, e);
    ReplyFrame(s, e.c, AnswerOf(s, e));
    ReplyAgrees(s, e.c, AnswerOf(s, e));
    AnswerFails(s, e);
  }

  lemma AnswerFails(s: State, e: Event)
    requires Enabled(s, e) && IsReply(e)
    ensures AnswerOf(s, e) == Ends(Failure) <==> Retryable(e)
    ensures AnswerOf(s, e).Ends? ==> AnswerOf(s, e).outcome == Failure
    ensures AnswerOf(s, e).Moves? ==> InFlight(AnswerOf(s, e).phase)
  {}

  /** The k-th counted failure since the budget was full sets the k-th back-off timer: 1, 2 and 4 seconds. */
  lemma NthBackoff(s: State, es: seq<Event>, t: State, e: Event)
    requires Reachable(s) && s.retryCount == 0 && Run(s, es, t) && NeverResets(s, es, t)
    requires Enabled(t, e) && Counts(t, e) && CountedFailures(s, es, t) < 3
    ensures var t' := Step(t, e);
            TimerPending(t') && t'.timers[t'.timeout.value] == BackoffTimer([1000, 2000, 4000][CountedFailures(s, es, t)])
  {
    ReachableInv(s);
    BudgetSpent(s, es, t);
    assert Power2(0) == 1 && Power2(1) == 2 && Power2(2) == 4;
  }

  // ----- The tab and the component -----

  /** A tab that is shown refreshes at once within 300 seconds of expiry, and otherwise waits for the right moment. */
  lemma ShownTab(s: State, now: int)
    requires Reachable(s) && Enabled(s, Visible(now)) && !s.hasRedirected
    ensures var s' := Step(s, Visible(now));
            if s.expiresAt - now / 1000 <= 300
            then s'.cancelRefresh.Some? && s'.retryCount == 0 && !TimerPending(s')
            else s'.calls == s.calls && s'.retryCount == s.retryCount && TimerPending(s')
                 && s'.timers[s'.timeout.value].RefreshTimer?
                 && InTime(s.expiresAt, now, s'.timers[s'.timeout.value].delayMs)
  {
    ReachableInv(s);
    RefreshComesBeforeExpiry(s.expiresAt, now);
  }

  /** A tab that is hidden has no pending timer, and starts nothing. */
  lemma HiddenTab(s: State)
    requires Enabled(s, Hidden) && !s.hasRedirected
    ensures var s' := Step(s, Hidden);
            !TimerPending(s') && s'.timers.Keys <= s.timers.Keys && s'.calls == s.calls && s'.expiresAt == s.expiresAt
  {}

  function MountedAfter(es: seq<Event>, before: bool): bool {
    if es == [] then before
    else MountedAfter(es[1..], if es[0].Cleanup? then false else before || es[0].RunEffect? || es[0].PropsChanged?)
  }

  /** The component counts as mounted from an effect that ran until the next clean-up. */
  lemma {:induction false} MountedIs(s: State, es: seq<Event>, t: State)
    requires Run(s, es, t)
    ensures t.isMounted == MountedAfter(es, s.isMounted)
    decreases |es|
  {
    if es != [] {
      MountedStep(s, es[0]);
      MountedIs(Step(s, es[0]), es[1..], t);
    }
  }

  lemma MountedStep(s: State, e: Event)
    requires Enabled(s, e)
    ensures Step(s, e).isMounted == if e.Cleanup? then false else s.isMounted || e.RunEffect? || e.PropsChanged?
  {
    if IsReply(e) {
      StepIsReply(s, e);
      ReplyFrame(s, e.c, AnswerOf(s, e));
    } else {
      match e
      case Fire(_, _) =>
      case Continue(_, _) =>
      case Visible(_) =>
      case _ =>
    }
  }

  // ----- The component's refs and callbacks -----

  class TokenRefreshScheduler {
    var expiresAt: int
    var timeout: Option<nat>
    var retryCount: nat
    var cancelRefresh: Option<nat>
    var isMounted: bool
    var hasRedirected: bool
    var listening: bool
    ghost var paused: bool
    var timers: map<nat, Timer>
    var nextTimer: nat
    var calls: seq<Call>
    ghost var started: nat
    ghost var exits: seq<Exit>

    ghost function View(): State
      reads this
    {
      State(expiresAt, timeout, retryCount, cancelRefresh, isMounted, hasRedirected, listening, paused,
            timers, nextTimer, calls, started, exits)
    }

    constructor (initialExpiresAt: int)
      ensures View() == Initial(initialExpiresAt) && Inv(View())
    {
      expiresAt, timeout, retryCount, cancelRefresh := initialExpiresAt, None, 0, None;
      isMounted, hasRedirected, listening, paused := true, false, false, false;
      timers, nextTimer, calls, started, exits := map[], 0, [], 0, [];
    }

    method ClearScheduledRefresh()
      modifies this
      ensures View() == ClearTimeout(old(View()))
    {
      if timeout.Some? {
        timers := timers - {timeout.value};
        timeout := None;
      }
    }

    method SetTimer(timer: Timer)
      modifies this
      ensures View() == SetTimeout(old(View()), timer)
    {
      timers := timers[nextTimer := timer];
      timeout := Some(nextTimer);
      nextTimer := nextTimer + 1;
    }

    method Redirect()
      modifies this
      ensures View() == RedirectToLogin(old(View()))
    {
      if hasRedirected {
        return;
      }
      hasRedirected := true;
      ClearScheduledRefresh();
      exits := exits + [Login];
    }

    method Reload()
      modifies this
      ensures View() == ReloadPage(old(View()))
    {
      hasRedirected := true;
      ClearScheduledRefresh();
      exits := exits + [Exit.Reload];
    }

    method Schedule(now: int)
      modifies this
      ensures View() == ScheduleRefresh(old(View()), now)
    {
      if hasRedirected {
        return;
      }
      ClearScheduledRefresh();
      var nowSeconds := now / 1000;
      var timeUntilExpirySeconds := expiresAt - nowSeconds;
      var delayMs := (timeUntilExpirySeconds - REFRESH_BUFFER_SECONDS) * 1000;
      if delayMs < MIN_REFRESH_DELAY_MS {
        delayMs := MIN_REFRESH_DELAY_MS;
      }
      if timeUntilExpirySeconds <= 0 {
        delayMs := MIN_REFRESH_DELAY_MS;
      }
      SetTimer(RefreshTimer(delayMs));
    }

    method StartRefresh(origin: Origin)
      modifies this
      ensures View() == BeginRefresh(old(View()), origin)
    {
      if cancelRefresh.Some? {
        calls := calls + [Call(origin, Returned(Success), false, true)];
        return;
      }
      cancelRefresh := Some(|calls|);
      calls := calls + [Call(origin, Fetching, false, false)];
      started := started + 1;
    }

    method FinishCall(c: nat, outcome: Outcome)
      requires c < |calls|
      modifies this
      ensures View() == Finish(old(View()), c, outcome)
    {
      calls := calls[c := calls[c].(phase := Returned(outcome), settled := true)];
      if cancelRefresh == Some(c) {
        cancelRefresh := None;
      }
    }

    method LeavePage(c: nat, exit: Exit)
      requires c < |calls|
      modifies this
      ensures View() == Finish(LeaveFor(old(View()), exit), c, Success)
    {
      if exit.Login? {
        Redirect();
      } else {
        Reload();
      }
      FinishCall(c, Success);
    }

    method MoveCall(c: nat, phase: Phase)
      requires c < |calls|
      modifies this`calls
      ensures View() == SetPhase(old(View()), c, phase)
    {
      calls := calls[c := calls[c].(phase := phase)];
    }

    method TimerFired(id: nat, now: int)
      requires Inv(View()) && Enabled(View(), Fire(id, now))
      modifies this
      ensures View() == Step(old(View()), Fire(id, now)) && Inv(View())
    {
      StepInv(View(), Fire(id, now));
      var timer := timers[id];
      timers := timers - {id};
      match timer
      case RefreshTimer(_) =>
        if isMounted && !hasRedirected { StartRefresh(FromTimer); }
      case BackoffTimer(_) => Schedule(now);
    }

    method ResponseArrived(c: nat, response: Response)
      requires Inv(View()) && Enabled(View(), Fetched(c, response))
      modifies this
      ensures View() == Step(old(View()), Fetched(c, response)) && Inv(View())
    {
      StepInv(View(), Fetched(c, response));
      if calls[c].cancelled {
        FinishCall(c, Cancelled);
      } else if response.Received? {
        MoveCall(c, ReadingBody);
      } else {
        FinishCall(c, Failure);
      }
    }

    method BodyArrived(c: nat, body: Body)
      requires Inv(View()) && Enabled(View(), BodyRead(c, body))
      modifies this
      ensures View() == Step(old(View()), BodyRead(c, body)) && Inv(View())
    {
      StepInv(View(), BodyRead(c, body));
      if calls[c].cancelled {
        FinishCall(c, Cancelled);
        return;
      }
      match body {
        case Unreadable => FinishCall(c, Failure);
        case NotSuccessful => LeavePage(c, Login);
        case Mismatch => LeavePage(c, Exit.Reload);
        case Candidate(candidate) => MoveCall(c, Verifying(candidate));
      }
    }

    method RecipientVerified(c: nat, verification: Verification)
      requires Inv(View()) && Enabled(View(), Verified(c, verification))
      modifies this
      ensures View() == Step(old(View()), Verified(c, verification)) && Inv(View())
    {
      StepInv(View(), Verified(c, verification));
      if calls[c].cancelled {
        FinishCall(c, Cancelled);
        return;
      }
      match verification {
        case VerifyThrows => FinishCall(c, Failure);
        case Differs =>
          Reload();
          FinishCall(c, Success);
        case Matches => MoveCall(c, Renewing(calls[c].phase.expiresAt));
      }
    }

    method SessionRenewed(c: nat, ok: bool)
      requires Inv(View()) && Enabled(View(), Renewed(c, ok))
      modifies this
      ensures View() == Step(old(View()), Renewed(c, ok)) && Inv(View())
    {
      StepInv(View(), Renewed(c, ok));
      if calls[c].cancelled {
        FinishCall(c, Cancelled);
        return;
      }
      if ok {
        expiresAt := calls[c].phase.expiresAt;
        retryCount := 0;
      } else {
        Reload();
      }
      FinishCall(c, Success);
    }

    method RetryLater()
      modifies this
      ensures View() == CountFailure(old(View()))
    {
      retryCount := retryCount + 1;
      if retryCount > MAX_RETRY_COUNT {
        Redirect();
      } else {
        var backoffDelay := RETRY_BASE_DELAY_MS * Power2(retryCount - 1);
        SetTimer(BackoffTimer(backoffDelay));
      }
    }

    method RefreshReturned(c: nat, now: int)
      requires Inv(View()) && Enabled(View(), Continue(c, now))
      modifies this
      ensures View() == Step(old(View()), Continue(c, now)) && Inv(View())
    {
      StepInv(View(), Continue(c, now));
      var outcome := calls[c].phase.outcome;
      MoveCall(c, Over);
      if outcome.Cancelled? || !isMounted || hasRedirected {
        return;
      }
      if outcome.Success? {
        Schedule(now);
      } else {
        RetryLater();
      }
    }

    method HandleVisibilityChange(visible: bool, now: int)
      requires Inv(View()) && listening
      modifies this
      ensures View() == Step(old(View()), if visible then Visible(now) else Hidden) && Inv(View())
    {
      StepInv(View(), if visible then Visible(now) else Hidden);
      if hasRedirected {
        return;
      }
      paused := !visible;
      if visible {
        if expiresAt - now / 1000 <= REFRESH_BUFFER_SECONDS {
          ClearScheduledRefresh();
          retryCount := 0;
          StartRefresh(FromVisible);
        } else {
          Schedule(now);
        }
      } else {
        ClearScheduledRefresh();
      }
    }

    method CleanUpEffect()
      requires Inv(View()) && listening
      modifies this
      ensures View() == Step(old(View()), Cleanup) && Inv(View())
    {
      StepInv(View(), Cleanup);
      isMounted := false;
      if cancelRefresh.Some? {
        var c := cancelRefresh.value;
        calls := calls[c := calls[c].(cancelled := true, settled := true)];
        cancelRefresh := None;
      }
      ClearScheduledRefresh();
      listening := false;
    }

    method RunEffect(now: int)
      requires Inv(View()) && !listening
      modifies this
      ensures View() == Step(old(View()), Event.RunEffect(now)) && Inv(View())
    {
      StepInv(View(), Event.RunEffect(now));
      isMounted := true;
      Schedule(now);
      listening, paused := true, false;
    }

    /** The effect that follows the props. */
    method FollowProps(initialExpiresAt: int)
      requires Inv(View()) && Enabled(View(), PropsChanged(initialExpiresAt))
      modifies this
      ensures View() == Step(old(View()), PropsChanged(initialExpiresAt)) && Inv(View())
    {
      StepInv(View(), PropsChanged(initialExpiresAt));
      isMounted := true;
      expiresAt := initialExpiresAt;
    }
  }
}
