/**
 * De-duplicated plugin loading (apps/frontend/lib/frontend-plugin-loaders.ts).
 *
 * Calls of `ensureFrontendPluginTypeLoaded` interleave with the loaders they start. Promise
 * reactions run in the order in which they were queued, one microtask at a time; everything
 * else (new calls, the end of an activation check, the end of a loader) may come at any time.
 */
module PluginLoader {
  import opened Wrappers
  import opened Seqs

  /** How the promise of a load ends: activated, declined (the loader said false), or rejected. */
  datatype Outcome = Activated | Declined | Rejected

  datatype Status = Pending | Reacting(outcome: Outcome) | Settled(outcome: Outcome)

  /** One promise in the `loading` map's history; `subs` are the calls awaiting it, oldest first. */
  datatype Load = Load(kind: string, owner: nat, status: Status, subs: seq<nat>)

  datatype Result = Returned(active: bool) | Threw

  datatype Phase =
    | Gate                             // awaiting shouldActivate
    | Waiting(load: nat)
    | Done(result: Result, via: Option<nat>)

  datatype Call = Call(kind: string, phase: Phase)

  /** A queued promise reaction: the `then` of a load, or the continuation of a call. */
  datatype Task = RunThen(load: nat) | Resume(call: nat)

  /** What invoking a loader gives: an exception, a plain value, or a promise. */
  datatype LoaderReply = Throws | Value(outcome: Outcome) | Promised

  datatype Entry = NoLoader | Ungated(reply: LoaderReply) | Gated

  datatype GateVerdict = GateThrows | Refused | Passed(reply: LoaderReply)

  datatype State = State(
    loaded: set<string>,
    loading: map<string, nat>,
    loads: seq<Load>,
    calls: seq<Call>,
    queue: seq<Task>)

  datatype Event =
    | Ensure(kind: string, entry: Entry)
    | GateDone(c: nat, verdict: GateVerdict)
    | LoaderDone(l: nat, outcome: Outcome)
    | Microtask

  const Init := State({}, map[], [], [], [])

  function SetPhase(s: State, c: nat, p: Phase): State
    requires c < |s.calls|
  {
    s.(calls := s.calls[c := s.calls[c].(phase := p)])
  }

  /** The code after the activation check. */
  function Proceed(s: State, c: nat, reply: LoaderReply): State
    requires c < |s.calls|
  {
    var kind := s.calls[c].kind;
    if kind in s.loaded then SetPhase(s, c, Done(Returned(true), None))
    else if kind in s.loading then Join(s, c, s.loading[kind])
    else if reply.Throws? then SetPhase(s, c, Done(Threw, None))
    else StartLoad(s, c, reply)
  }

  function Join(s: State, c: nat, l: nat): State
    requires c < |s.calls|
  {
    var waiting := SetPhase(s, c, Waiting(l));
    if l < |s.loads| && !s.loads[l].status.Settled? then
      waiting.(loads := s.loads[l := s.loads[l].(subs := s.loads[l].subs + [c])])
    else waiting.(queue := s.queue + [Resume(c)])
  }

  function StartLoad(s: State, c: nat, reply: LoaderReply): State
    requires c < |s.calls| && !reply.Throws?
  {
    var l, kind := |s.loads|, s.calls[c].kind;
    var status := if reply.Value? then Reacting(reply.outcome) else Pending;
    SetPhase(s, c, Waiting(l)).(
      loads := s.loads + [Load(kind, c, status, [c])],
      loading := s.loading[kind := l],
      queue := if reply.Value? then s.queue + [RunThen(l)] else s.queue)
  }

  function Resumes(subs: seq<nat>): (tasks: seq<Task>)
    ensures |tasks| == |subs| && forall i :: 0 <= i < |subs| ==> tasks[i] == Resume(subs[i])
  {
    if subs == [] then [] else [Resume(subs[0])] + Resumes(subs[1..])
  }

  /** The load's promise settles; the calls awaiting it are queued. */
  function SettleLoad(s: State, l: nat, outcome: Outcome): State
    requires l < |s.loads|
  {
    var load := s.loads[l];
    s.(loaded := if outcome.Activated? then s.loaded + {load.kind} else s.loaded,
       loads := s.loads[l := load.(status := Settled(outcome), subs := [])],
       queue := s.queue + Resumes(load.subs))
  }

  /** A call continues after its load; the owner first deletes the `loading` entry. */
  function ResumeCall(s: State, c: nat, l: nat): State
    requires c < |s.calls| && l < |s.loads|
  {
    var kind := s.calls[c].kind;
    var result := if s.loads[l].status == Settled(Rejected) then Threw else Returned(kind in s.loaded);
    var s' := SetPhase(s, c, Done(result, Some(l)));
    if s.loads[l].owner == c then s'.(loading := s.loading - {kind}) else s'
  }

  predicate Runnable(s: State, t: Task) {
    match t
    case RunThen(l) => l < |s.loads| && s.loads[l].status.Reacting?
    case Resume(c) => c < |s.calls| && s.calls[c].phase.Waiting? && s.calls[c].phase.load < |s.loads|
  }

  predicate Enabled(s: State, e: Event) {
    match e
    case Ensure(_, _) => true
    case GateDone(c, _) => c < |s.calls| && s.calls[c].phase.Gate?
    case LoaderDone(l, _) => l < |s.loads| && s.loads[l].status.Pending?
    case Microtask => s.queue != [] && Runnable(s, s.queue[0])
  }

  function Step(s: State, e: Event): State
    requires Enabled(s, e)
  {
    match e
    case Ensure(kind, entry) =>
      var c := |s.calls|;
      var called := s.(calls := s.calls + [Call(kind, Gate)]);
      (match entry
       case NoLoader => SetPhase(called, c, Done(Threw, None))
       case Ungated(reply) => Proceed(called, c, reply)
       case Gated => called)
    case GateDone(c, verdict) =>
      (match verdict
       case GateThrows => SetPhase(s, c, Done(Threw, None))
       case Refused => SetPhase(s, c, Done(Returned(false), None))
       case Passed(reply) => Proceed(s, c, reply))
    case LoaderDone(l, outcome) =>
      s.(loads := s.loads[l := s.loads[l].(status := Reacting(outcome))], queue := s.queue + [RunThen(l)])
    case Microtask =>
      var rest := s.(queue := s.queue[1..]);
      (match s.queue[0]
       case RunThen(l) => SettleLoad(rest, l, s.loads[l].status.outcome)
       case Resume(c) => ResumeCall(rest, c, s.calls[c].phase.load))
  }

  ghost predicate Run(s: State, es: seq<Event>, t: State)
    decreases |es|
  {
    if es == [] then s == t else Enabled(s, es[0]) && Run(Step(s, es[0]), es[1..], t)
  }

  ghost predicate Reachable(s: State) {
    exists es :: Run(Init, es, s)
  }

  // ----- The invariant -----

  predicate Awaits(s: State, c: nat, l: nat) {
    c < |s.calls| && s.calls[c].phase == Waiting(l)
  }

  predicate IsSettled(s: State, l: nat) {
    l < |s.loads| && s.loads[l].status.Settled?
  }

  ghost predicate Distinct<T>(q: seq<T>) {
    forall i, j :: 0 <= i < j < |q| ==> q[i] != q[j]
  }

  /** The entry of a kind is a load of that kind whose owner is still waiting for it. */
  ghost predicate EntryInv(s: State, kind: string)
    requires kind in s.loading
  {
    var l := s.loading[kind];
    l < |s.loads| && s.loads[l].kind == kind && Awaits(s, s.loads[l].owner, l)
  }

  ghost predicate LoadInv(s: State, l: nat)
    requires l < |s.loads|
  {
    var Load(kind, owner, status, subs) := s.loads[l];
    && owner < |s.calls| && s.calls[owner].kind == kind
    && (Awaits(s, owner, l) ==> kind in s.loading && s.loading[kind] == l)
    && (!status.Settled? ==> Awaits(s, owner, l) && kind !in s.loaded)
    && (status == Settled(Activated) ==> kind in s.loaded)
    && (status.Reacting? <==> RunThen(l) in s.queue)
    && Distinct(subs)
    && (forall c :: c in subs <==> Awaits(s, c, l) && !status.Settled?)
  }

  ghost predicate CallInv(s: State, c: nat)
    requires c < |s.calls|
  {
    match s.calls[c].phase
    case Gate => Resume(c) !in s.queue
    case Waiting(l) =>
      && l < |s.loads| && s.loads[l].kind == s.calls[c].kind
      && (Resume(c) in s.queue <==> IsSettled(s, l))
      && (IsSettled(s, l) && s.loads[l].status.outcome != Activated ==> s.calls[c].kind !in s.loaded)
    case Done(result, via) =>
      && Resume(c) !in s.queue
      && (via.Some? ==> IsSettled(s, via.value) && result == ResultOf(s.loads[via.value].status.outcome))
  }

  function ResultOf(outcome: Outcome): Result {
    match outcome
    case Activated => Returned(true)
    case Declined => Returned(false)
    case Rejected => Threw
  }

  /** Tasks refer to existing loads and calls, and no task is queued twice. */
  ghost predicate QueueInv(s: State) {
    && Distinct(s.queue)
    && (forall t :: t in s.queue ==> match t case RunThen(l) => l < |s.loads| case Resume(c) => c < |s.calls|)
  }

  /** A call that waits on an earlier load of a kind continues before a later load of that kind settles. */
  ghost predicate OrderInv(s: State) {
    forall i, j :: 0 <= i < |s.queue| && 0 <= j < |s.queue| && MustFollow(s, s.queue[i], s.queue[j]) ==> j < i
  }

  predicate MustFollow(s: State, t: Task, u: Task) {
    t.RunThen? && u.Resume? && SameKind(s, t.load, u.call)
  }

  predicate SameKind(s: State, l: nat, c: nat) {
    l < |s.loads| && c < |s.calls| && s.loads[l].kind == s.calls[c].kind
  }

  /** Every load but the last of its kind is settled without activation. */
  ghost predicate HistoryInv(s: State) {
    forall l, m :: 0 <= l < m < |s.loads| && s.loads[l].kind == s.loads[m].kind ==>
      IsSettled(s, l) && s.loads[l].status.outcome != Activated
  }

  ghost predicate LoadedInv(s: State) {
    forall kind :: kind in s.loaded ==>
      exists l :: 0 <= l < |s.loads| && s.loads[l].kind == kind && s.loads[l].status == Settled(Activated)
  }

  ghost predicate Inv(s: State) {
    && (forall kind :: kind in s.loading ==> EntryInv(s, kind))
    && (forall l :: 0 <= l < |s.loads| ==> LoadInv(s, l))
    && (forall c :: 0 <= c < |s.calls| ==> CallInv(s, c))
    && QueueInv(s) && OrderInv(s) && HistoryInv(s) && LoadedInv(s)
  }

  lemma InitInv()
    ensures Inv(Init)
  {}

  // ----- One lemma per kind of step -----

  /** A new call, still before its activation check. */
  lemma NewCall(s: State, kind: string)
    requires Inv(s)
    ensures Inv(s.(calls := s.calls + [Call(kind, Gate)]))
  {
    var s' := s.(calls := s.calls + [Call(kind, Gate)]);
    forall c: nat, l: nat ensures Awaits(s', c, l) <==> Awaits(s, c, l) {}
    forall l: nat | l < |s'.loads| ensures LoadInv(s', l) { LoadKept(s, s', l); }
    forall c | 0 <= c < |s'.calls| ensures CallInv(s', c) {
      if c < |s.calls| { assert CallInv(s, c); }
    }
    forall k | k in s'.loading ensures EntryInv(s', k) { assert EntryInv(s, k); }
    OrderKept(s, s');
  }

  /** A call ends without a load. */
  lemma CallEnds(s: State, c: nat, result: Result)
    requires Inv(s) && c < |s.calls| && s.calls[c].phase.Gate?
    ensures Inv(SetPhase(s, c, Done(result, None)))
  {
    var s' := SetPhase(s, c, Done(result, None));
    forall d: nat, l: nat ensures Awaits(s', d, l) <==> Awaits(s, d, l) {}
    forall l: nat | l < |s'.loads| ensures LoadInv(s', l) { LoadKept(s, s', l); }
    forall d | 0 <= d < |s'.calls| ensures CallInv(s', d) { assert CallInv(s, d); }
    forall k | k in s'.loading ensures EntryInv(s', k) { assert EntryInv(s, k); }
    OrderKept(s, s');
  }

  /** A load is as before if the same calls await it. */
  lemma LoadKept(s: State, s': State, l: nat)
    requires l < |s.loads| && LoadInv(s, l) && s'.loads == s.loads && s'.loaded == s.loaded
    requires s'.loading == s.loading && s'.queue == s.queue && |s.calls| <= |s'.calls|
    requires forall c :: 0 <= c < |s.calls| ==> s'.calls[c].kind == s.calls[c].kind
    requires forall c: nat :: Awaits(s', c, l) <==> Awaits(s, c, l)
    ensures LoadInv(s', l)
  {
    var Load(kind, owner, status, subs) := s.loads[l];
    assert Awaits(s', owner, l) <==> Awaits(s, owner, l);
    assert forall c: nat :: c in subs <==> Awaits(s', c, l) && !status.Settled?;
  }

  lemma OrderKept(s: State, s': State)
    requires OrderInv(s) && s'.queue == s.queue
    requires forall t, u :: t in s.queue && u in s.queue && MustFollow(s', t, u) ==> MustFollow(s, t, u)
    ensures OrderInv(s')
  {}

  /** A queued task goes to the end of the queue. */
  lemma OrderAppend(s: State, s': State, task: Task)
    requires OrderInv(s) && s'.queue == s.queue + [task]
    requires forall t, u :: t in s.queue && u in s.queue && MustFollow(s', t, u) ==> MustFollow(s, t, u)
    requires forall t :: t in s.queue ==> !MustFollow(s', t, task)
    ensures OrderInv(s')
  {
    forall i, j | 0 <= i < |s'.queue| && 0 <= j < |s'.queue| && MustFollow(s', s'.queue[i], s'.queue[j]) ensures j < i {
      if i < |s.queue| { assert s'.queue[i] in s.queue; }
      if j < |s.queue| { assert s'.queue[j] in s.queue; }
    }
  }

  lemma DistinctAppend<T>(q: seq<T>, t: T)
    requires Distinct(q) && t !in q
    ensures Distinct(q + [t]) && forall u :: u in q + [t] <==> u in q || u == t
  {}

  /** All loads of a kind without an entry are settled, and without activation if the kind is not loaded. */
  lemma NoEntryNoLoad(s: State, kind: string)
    requires Inv(s) && kind !in s.loading
    ensures forall l :: 0 <= l < |s.loads| && s.loads[l].kind == kind ==> IsSettled(s, l)
    ensures forall t :: t in s.queue && t.RunThen? ==> t.load < |s.loads| && s.loads[t.load].kind != kind
  {
    forall l | 0 <= l < |s.loads| && s.loads[l].kind == kind ensures IsSettled(s, l) { assert LoadInv(s, l); }
    forall t | t in s.queue && t.RunThen? ensures t.load < |s.loads| && s.loads[t.load].kind != kind {
      assert LoadInv(s, t.load);
    }
  }

  /** The entry of a kind is the only load of that kind that can be unsettled. */
  lemma EntryIsUnsettled(s: State, l: nat)
    requires Inv(s) && l < |s.loads| && !s.loads[l].status.Settled?
    ensures s.loads[l].kind in s.loading && s.loading[s.loads[l].kind] == l
  {
    assert LoadInv(s, l);
  }

  /** A call joins the load that is the entry of its kind. */
  lemma JoinKeeps(s: State, c: nat)
    requires Inv(s) && c < |s.calls| && s.calls[c].phase.Gate?
    requires s.calls[c].kind in s.loading && s.calls[c].kind !in s.loaded
    ensures Inv(Join(s, c, s.loading[s.calls[c].kind]))
  {
    var kind := s.calls[c].kind;
    assert EntryInv(s, kind);
    var l := s.loading[kind];
    assert LoadInv(s, l);
    if IsSettled(s, l) { JoinSettled(s, c, l); } else { JoinUnsettled(s, c, l); }
  }

  lemma JoinUnsettled(s: State, c: nat, l: nat)
    requires Inv(s) && c < |s.calls| && s.calls[c].phase.Gate?
    requires l < |s.loads| && !s.loads[l].status.Settled? && s.loads[l].kind == s.calls[c].kind
    ensures Inv(Join(s, c, l))
  {
    var s' := Join(s, c, l);
    assert LoadInv(s, l) && CallInv(s, c);
    forall d: nat, m: nat ensures Awaits(s', d, m) <==> Awaits(s, d, m) || (d == c && m == l) {}
    DistinctAppend(s.loads[l].subs, c);
    forall m: nat | m < |s'.loads| ensures LoadInv(s', m) { JoinLoads(s, s', c, l, m); }
    forall d | 0 <= d < |s'.calls| ensures CallInv(s', d) { assert CallInv(s, d); }
    forall k | k in s'.loading ensures EntryInv(s', k) { assert EntryInv(s, k); }
    OrderKept(s, s');
    LoadedKept(s, s');
  }

  lemma JoinLoads(s: State, s': State, c: nat, l: nat, m: nat)
    requires l < |s.loads| && m < |s.loads| && LoadInv(s, m) && !s.loads[l].status.Settled?
    requires s'.loads == s.loads[l := s.loads[l].(subs := s.loads[l].subs + [c])]
    requires s'.loaded == s.loaded && s'.loading == s.loading && s'.queue == s.queue && |s.calls| == |s'.calls|
    requires forall d :: 0 <= d < |s.calls| ==> s'.calls[d].kind == s.calls[d].kind
    requires forall d: nat, k: nat :: Awaits(s', d, k) <==> Awaits(s, d, k) || (d == c && k == l)
    requires Distinct(s.loads[l].subs + [c]) && c < |s.calls| && s.calls[c].phase.Gate?
    ensures LoadInv(s', m)
  {
    var owner, subs := s.loads[m].owner, s'.loads[m].subs;
    assert Awaits(s', owner, m) <==> Awaits(s, owner, m) || (owner == c && m == l);
    assert forall d: nat :: d in subs <==> Awaits(s', d, m) && !s'.loads[m].status.Settled?;
  }

  lemma JoinSettled(s: State, c: nat, l: nat)
    requires Inv(s) && c < |s.calls| && s.calls[c].phase.Gate?
    requires IsSettled(s, l) && s.loads[l].kind == s.calls[c].kind && s.calls[c].kind !in s.loaded
    requires s.calls[c].kind in s.loading && s.loading[s.calls[c].kind] == l
    ensures Inv(Join(s, c, l))
  {
    var s' := Join(s, c, l);
    assert LoadInv(s, l) && CallInv(s, c);
    forall d: nat, m: nat ensures Awaits(s', d, m) <==> Awaits(s, d, m) || (d == c && m == l) {}
    DistinctAppend(s.queue, Resume(c));
    forall m | 0 <= m < |s'.loads| ensures LoadInv(s', m) { assert LoadInv(s, m); }
    forall d | 0 <= d < |s'.calls| ensures CallInv(s', d) { assert CallInv(s, d); }
    forall k | k in s'.loading ensures EntryInv(s', k) { assert EntryInv(s, k); }
    forall t | t in s.queue ensures !MustFollow(s', t, Resume(c)) {
      if t.RunThen? {
        assert LoadInv(s, t.load);
        if s.loads[t.load].kind == s.calls[c].kind { EntryIsUnsettled(s, t.load); }
      }
    }
    OrderAppend(s, s', Resume(c));
  }

  /** A call starts a load. */
  lemma StartKeeps(s: State, c: nat, reply: LoaderReply)
    requires Inv(s) && c < |s.calls| && s.calls[c].phase.Gate? && !reply.Throws?
    requires s.calls[c].kind !in s.loading && s.calls[c].kind !in s.loaded
    ensures Inv(StartLoad(s, c, reply))
  {
    var s' := StartLoad(s, c, reply);
    var l, kind := |s.loads|, s.calls[c].kind;
    assert CallInv(s, c);
    NoEntryNoLoad(s, kind);
    if reply.Value? { DistinctAppend(s.queue, RunThen(l)); }
    StartLoads(s, c, reply);
    StartCalls(s, c, reply);
    if reply.Value? { OrderAppend(s, s', RunThen(l)); } else { OrderKept(s, s'); }
    HistoryGrows(s, s', l);
    LoadedKept(s, s');
  }

  lemma StartLoads(s: State, c: nat, reply: LoaderReply)
    requires Inv(s) && c < |s.calls| && s.calls[c].phase.Gate? && !reply.Throws?
    requires s.calls[c].kind !in s.loading && s.calls[c].kind !in s.loaded
    ensures var s' := StartLoad(s, c, reply);
            forall m :: 0 <= m < |s'.loads| ==> LoadInv(s', m)
  {
    var s' := StartLoad(s, c, reply);
    var l := |s.loads|;
    assert CallInv(s, c);
    NoEntryNoLoad(s, s.calls[c].kind);
    forall d: nat ensures !Awaits(s, d, l) {
      if d < |s.calls| { assert CallInv(s, d); }
    }
    forall d: nat, m: nat ensures Awaits(s', d, m) <==> Awaits(s, d, m) || (d == c && m == l) {}
    forall m | 0 <= m < |s'.loads| ensures LoadInv(s', m) {
      if m < |s.loads| { assert LoadInv(s, m); }
    }
  }

  lemma StartCalls(s: State, c: nat, reply: LoaderReply)
    requires Inv(s) && c < |s.calls| && s.calls[c].phase.Gate? && !reply.Throws?
    requires s.calls[c].kind !in s.loading && s.calls[c].kind !in s.loaded
    ensures var s' := StartLoad(s, c, reply);
            && (forall d :: 0 <= d < |s'.calls| ==> CallInv(s', d))
            && (forall k :: k in s'.loading ==> EntryInv(s', k))
  {
    var s' := StartLoad(s, c, reply);
    assert CallInv(s, c);
    forall d | 0 <= d < |s'.calls| ensures CallInv(s', d) { assert CallInv(s, d); }
    forall k | k in s'.loading ensures EntryInv(s', k) {
      if k != s.calls[c].kind { assert EntryInv(s, k); }
    }
  }

  lemma HistoryGrows(s: State, s': State, l: nat)
    requires Inv(s) && l == |s.loads| && |s'.loads| == l + 1 && s'.loads[..l] == s.loads
    requires s'.loads[l].kind !in s.loading && s'.loads[l].kind !in s.loaded
    ensures HistoryInv(s')
  {
    forall i, m | 0 <= i < m < |s'.loads| && s'.loads[i].kind == s'.loads[m].kind
      ensures IsSettled(s', i) && s'.loads[i].status.outcome != Activated
    {
      assert s'.loads[i] == s.loads[i] && LoadInv(s, i);
      if m == l { NoEntryNoLoad(s, s'.loads[l].kind); } else { assert s'.loads[m] == s.loads[m]; assert IsSettled(s, i); }
    }
  }

  lemma LoadedKept(s: State, s': State)
    requires LoadedInv(s) && s'.loaded == s.loaded && |s.loads| <= |s'.loads|
    requires forall l :: 0 <= l < |s.loads| && s.loads[l].status == Settled(Activated) ==>
               s'.loads[l].kind == s.loads[l].kind && s'.loads[l].status == s.loads[l].status
    ensures LoadedInv(s')
  {
    forall kind | kind in s'.loaded
      ensures exists l :: 0 <= l < |s'.loads| && s'.loads[l].kind == kind && s'.loads[l].status == Settled(Activated)
    {
      var l :| 0 <= l < |s.loads| && s.loads[l].kind == kind && s.loads[l].status == Settled(Activated);
      assert s'.loads[l].kind == kind && s'.loads[l].status == Settled(Activated);
    }
  }

  /** A loader's promise ends. */
  lemma LoaderDoneKeeps(s: State, l: nat, outcome: Outcome)
    requires Inv(s) && Enabled(s, LoaderDone(l, outcome))
    ensures Inv(Step(s, LoaderDone(l, outcome)))
  {
    var s' := Step(s, LoaderDone(l, outcome));
    assert LoadInv(s, l);
    DistinctAppend(s.queue, RunThen(l));
    LoaderDoneLoads(s, l, outcome);
    LoaderDoneCalls(s, l, outcome);
    OrderAppend(s, s', RunThen(l));
    LoadedKept(s, s');
  }

  lemma LoaderDoneLoads(s: State, l: nat, outcome: Outcome)
    requires Inv(s) && Enabled(s, LoaderDone(l, outcome))
    ensures var s' := Step(s, LoaderDone(l, outcome));
            forall m :: 0 <= m < |s'.loads| ==> LoadInv(s', m)
  {
    var s' := Step(s, LoaderDone(l, outcome));
    forall d: nat, m: nat ensures Awaits(s', d, m) <==> Awaits(s, d, m) {}
    forall m | 0 <= m < |s'.loads| ensures LoadInv(s', m) { assert LoadInv(s, m); }
  }

  lemma LoaderDoneCalls(s: State, l: nat, outcome: Outcome)
    requires Inv(s) && Enabled(s, LoaderDone(l, outcome))
    ensures var s' := Step(s, LoaderDone(l, outcome));
            && (forall c :: 0 <= c < |s'.calls| ==> CallInv(s', c))
            && (forall kind :: kind in s'.loading ==> EntryInv(s', kind))
  {
    var s' := Step(s, LoaderDone(l, outcome));
    forall d | 0 <= d < |s'.calls| ensures CallInv(s', d) { assert CallInv(s, d); }
    forall k | k in s'.loading ensures EntryInv(s', k) { assert EntryInv(s, k); }
  }

  lemma ResumesMember(subs: seq<nat>, t: Task)
    ensures t in Resumes(subs) <==> t.Resume? && t.call in subs
  {
    if t.Resume? && t.call in subs {
      var i :| 0 <= i < |subs| && subs[i] == t.call;
      assert Resumes(subs)[i] == t;
    }
  }

  /** The `then` of a load runs and its promise settles. */
  lemma SettleKeeps(s: State)
    requires Inv(s) && s.queue != [] && s.queue[0].RunThen? && Enabled(s, Microtask)
    ensures Inv(Step(s, Microtask))
  {
    var s' := Step(s, Microtask);
    var l := s.queue[0].load;
    var load := s.loads[l];
    var outcome := load.status.outcome;
    assert LoadInv(s, l);
    assert s' == SettleLoad(s.(queue := s.queue[1..]), l, outcome);
    assert EntryInv(s, load.kind);
    forall t ensures t in s'.queue <==> (t in s.queue && t != RunThen(l)) || (t.Resume? && t.call in load.subs) {
      ResumesMember(load.subs, t);
      QueueTail(s.queue, t);
    }
    forall d: nat, m: nat ensures Awaits(s', d, m) <==> Awaits(s, d, m) {}
    SettleCalls(s, s', l, outcome);
    EntryIsUnsettled(s, l);
    forall m: nat | m < |s'.loads| ensures LoadInv(s', m) {
      assert LoadInv(s, m);
      if !s.loads[m].status.Settled? { EntryIsUnsettled(s, m); }
    }
    forall k | k in s'.loading ensures EntryInv(s', k) { assert EntryInv(s, k); }
    SettleQueue(s, s', l, outcome);
    SettleHistory(s, s', l, outcome);
  }

  lemma QueueTail<T>(q: seq<T>, t: T)
    requires Distinct(q) && q != []
    ensures t in q[1..] <==> t in q && t != q[0]
  {
    if t in q && t != q[0] {
      var i :| 0 <= i < |q| && q[i] == t;
      assert q[1..][i - 1] == t;
    }
    if t in q[1..] {
      var i :| 0 <= i < |q[1..]| && q[1..][i] == t;
      assert q[i + 1] == t;
    }
  }

  /** What settling `l` does to the state, as far as calls are concerned. */
  ghost predicate Settles(s: State, s': State, l: nat, outcome: Outcome)
    requires l < |s.loads|
  {
    var load := s.loads[l];
    && s.queue != [] && s.queue[0] == RunThen(l) && load.status == Reacting(outcome)
    && s'.calls == s.calls && s'.loading == s.loading
    && s'.loads == s.loads[l := load.(status := Settled(outcome), subs := [])]
    && s'.loaded == (if outcome.Activated? then s.loaded + {load.kind} else s.loaded)
    && s'.queue == s.queue[1..] + Resumes(load.subs)
    && (forall t :: t in s'.queue <==> (t in s.queue && t != RunThen(l)) || (t.Resume? && t.call in load.subs))
  }

  lemma SettleCalls(s: State, s': State, l: nat, outcome: Outcome)
    requires Inv(s) && l < |s.loads| && Settles(s, s', l, outcome)
    ensures forall c :: 0 <= c < |s'.calls| ==> CallInv(s', c)
  {
    assert LoadInv(s, l);
    forall c | 0 <= c < |s'.calls| ensures CallInv(s', c) {
      assert CallInv(s, c);
      if s.calls[c].phase.Waiting? && s.calls[c].phase.load != l && s.calls[c].kind == s.loads[l].kind {
        // A call on an earlier load of this kind would still be queued, hence before the head.
        NoOlderWaiter(s, l, c);
      }
    }
  }

  /** When a load's `then` is at the head, no call still waits on another load of its kind. */
  lemma NoOlderWaiter(s: State, l: nat, c: nat)
    requires Inv(s) && l < |s.loads| && s.queue != [] && s.queue[0] == RunThen(l)
    requires c < |s.calls| && s.calls[c].phase.Waiting? && s.calls[c].kind == s.loads[l].kind
    ensures s.calls[c].phase.load == l
  {
    var m := s.calls[c].phase.load;
    assert CallInv(s, c) && LoadInv(s, l) && LoadInv(s, m) && SameKind(s, l, c);
    assert forall j :: 0 <= j < |s.queue| ==> !MustFollow(s, s.queue[0], s.queue[j]);
    assert Resume(c) !in s.queue;
    EntryIsUnsettled(s, l);
    EntryIsUnsettled(s, m);
  }

  /** No call awaiting `l` has to follow a `then` that stays in the queue. */
  lemma NothingToFollow(s: State, l: nat, t: Task, c: nat)
    requires Inv(s) && l < |s.loads| && s.loads[l].status.Reacting? && s.queue != [] && s.queue[0] == RunThen(l)
    requires t in s.queue[1..] && Awaits(s, c, l)
    ensures !MustFollow(s, t, Resume(c))
  {
    QueueTail(s.queue, t);
    assert CallInv(s, c);
    if t.RunThen? {
      assert LoadInv(s, t.load);
      EntryIsUnsettled(s, t.load);
      EntryIsUnsettled(s, l);
    }
  }

  lemma QueuedBeforeSettling(s: State, l: nat, i: nat, j: nat)
    requires Inv(s) && l < |s.loads| && s.loads[l].status.Reacting? && s.queue != [] && s.queue[0] == RunThen(l)
    requires i < |s.queue| - 1 && j < |s.loads[l].subs|
    ensures s.queue[1..][i] != Resume(s.loads[l].subs[j]) && !MustFollow(s, s.queue[1..][i], Resume(s.loads[l].subs[j]))
  {
    var c, t := s.loads[l].subs[j], s.queue[1..][i];
    assert LoadInv(s, l) && c in s.loads[l].subs && Awaits(s, c, l) && CallInv(s, c);
    assert t in s.queue[1..] && s.queue[i + 1] == t;
    NothingToFollow(s, l, t, c);
  }

  lemma SettleQueue(s: State, s': State, l: nat, outcome: Outcome)
    requires Inv(s) && l < |s.loads| && Settles(s, s', l, outcome)
    ensures QueueInv(s') && OrderInv(s')
  {
    assert LoadInv(s, l);
    var subs := s.loads[l].subs;
    var rest, more := s.queue[1..], Resumes(subs);
    forall i, j | 0 <= i < |rest| && 0 <= j < |more| ensures rest[i] != more[j] && !MustFollow(s, rest[i], more[j]) {
      QueuedBeforeSettling(s, l, i, j);
    }
    forall t | t in s'.queue ensures match t case RunThen(m) => m < |s'.loads| case Resume(c) => c < |s'.calls| {
      if t.Resume? && t.call in subs { assert Awaits(s, t.call, l); }
    }
    SettleOrder(s, s', rest, more);
  }

  lemma SettleOrder(s: State, s': State, rest: seq<Task>, more: seq<Task>)
    requires OrderInv(s) && s.queue != [] && rest == s.queue[1..] && s'.queue == rest + more
    requires forall t :: t in more ==> t.Resume?
    requires forall t, u :: MustFollow(s', t, u) ==> MustFollow(s, t, u)
    requires forall i, j :: 0 <= i < |rest| && 0 <= j < |more| ==> !MustFollow(s, rest[i], more[j])
    ensures OrderInv(s')
  {
    forall k | 0 <= k < |more| ensures s'.queue[|rest| + k] == more[k] && more[k].Resume? {
      assert more[k] in more;
    }
    forall i, j | 0 <= i < |s'.queue| && 0 <= j < |s'.queue| && MustFollow(s', s'.queue[i], s'.queue[j]) ensures j < i {
      if i < |rest| && j < |rest| {
        assert MustFollow(s, s.queue[i + 1], s.queue[j + 1]);
      }
    }
  }

  lemma SettleHistory(s: State, s': State, l: nat, outcome: Outcome)
    requires Inv(s) && l < |s.loads| && Settles(s, s', l, outcome)
    ensures HistoryInv(s') && LoadedInv(s')
  {
    assert LoadInv(s, l);
    forall i, m | 0 <= i < m < |s'.loads| && s'.loads[i].kind == s'.loads[m].kind
      ensures IsSettled(s', i) && s'.loads[i].status.outcome != Activated
    {
      assert IsSettled(s, i);
    }
    forall kind | kind in s'.loaded
      ensures exists i :: 0 <= i < |s'.loads| && s'.loads[i].kind == kind && s'.loads[i].status == Settled(Activated)
    {
      if kind in s.loaded {
        var i :| 0 <= i < |s.loads| && s.loads[i].kind == kind && s.loads[i].status == Settled(Activated);
        assert s'.loads[i].status == Settled(Activated);
      } else {
        assert s'.loads[l].status == Settled(Activated);
      }
    }
  }

  /** A call continues after its load. */
  lemma ResumeKeeps(s: State)
    requires Inv(s) && s.queue != [] && s.queue[0].Resume? && Enabled(s, Microtask)
    ensures Inv(Step(s, Microtask))
    ensures var c := s.queue[0].call;
            IsSettled(s, s.calls[c].phase.load)
            && Step(s, Microtask).calls[c].phase.result == ResultOf(s.loads[s.calls[c].phase.load].status.outcome)
  {
    var s' := Step(s, Microtask);
    var c := s.queue[0].call;
    var l := s.calls[c].phase.load;
    assert CallInv(s, c) && LoadInv(s, l);
    forall t ensures t in s'.queue <==> t in s.queue && t != Resume(c) { QueueTail(s.queue, t); }
    forall d: nat, m: nat ensures Awaits(s', d, m) <==> Awaits(s, d, m) && d != c {}
    forall d | 0 <= d < |s'.calls| ensures CallInv(s', d) { assert CallInv(s, d); }
    ResumeLoads(s, s', c, l);
    ResumeQueue(s, s');
    LoadedKept(s, s');
  }

  lemma ResumeQueue(s: State, s': State)
    requires QueueInv(s) && OrderInv(s) && s.queue != [] && s'.queue == s.queue[1..]
    requires s'.loads == s.loads && |s'.calls| == |s.calls|
    requires forall d :: 0 <= d < |s.calls| ==> s'.calls[d].kind == s.calls[d].kind
    ensures QueueInv(s') && OrderInv(s')
  {
    forall t | t in s'.queue ensures t in s.queue {}
    forall i, j | 0 <= i < |s'.queue| && 0 <= j < |s'.queue| && MustFollow(s', s'.queue[i], s'.queue[j]) ensures j < i {
      assert s'.queue[i] == s.queue[i + 1] && s'.queue[j] == s.queue[j + 1];
      assert MustFollow(s, s.queue[i + 1], s.queue[j + 1]);
    }
  }

  lemma ResumeLoads(s: State, s': State, c: nat, l: nat)
    requires Inv(s) && c < |s.calls| && s.calls[c].phase == Waiting(l) && IsSettled(s, l)
    requires s'.loads == s.loads && s'.loaded == s.loaded && |s'.calls| == |s.calls|
    requires forall d :: 0 <= d < |s.calls| ==> s'.calls[d].kind == s.calls[d].kind
    requires s'.loading == if s.loads[l].owner == c then s.loading - {s.calls[c].kind} else s.loading
    requires forall t :: t in s'.queue <==> t in s.queue && t != Resume(c)
    requires forall d: nat, m: nat :: Awaits(s', d, m) <==> Awaits(s, d, m) && d != c
    ensures forall m :: 0 <= m < |s'.loads| ==> LoadInv(s', m)
    ensures forall k :: k in s'.loading ==> EntryInv(s', k)
  {
    assert CallInv(s, c) && LoadInv(s, l) && Awaits(s, c, l);
    forall m | 0 <= m < |s'.loads| ensures LoadInv(s', m) {
      assert LoadInv(s, m);
      if s.loads[l].owner == c && s.loads[m].kind == s.calls[c].kind && m != l {
        assert !Awaits(s, s.loads[m].owner, m);
      }
    }
    forall k | k in s'.loading ensures EntryInv(s', k) { assert EntryInv(s, k); }
  }

  lemma ProceedKeeps(s: State, c: nat, reply: LoaderReply)
    requires Inv(s) && c < |s.calls| && s.calls[c].phase.Gate?
    ensures Inv(Proceed(s, c, reply))
  {
    var kind := s.calls[c].kind;
    if kind in s.loaded {
      CallEnds(s, c, Returned(true));
    } else if kind in s.loading {
      JoinKeeps(s, c);
    } else if reply.Throws? {
      CallEnds(s, c, Threw);
    } else {
      StartKeeps(s, c, reply);
    }
  }

  lemma StepInv(s: State, e: Event)
    requires Inv(s) && Enabled(s, e)
    ensures Inv(Step(s, e))
  {
    match e
    case Ensure(kind, entry) =>
      NewCall(s, kind);
      var called := s.(calls := s.calls + [Call(kind, Gate)]);
      if entry.NoLoader? { CallEnds(called, |s.calls|, Threw); }
      if entry.Ungated? { ProceedKeeps(called, |s.calls|, entry.reply); }
    case GateDone(c, verdict) =>
      if verdict.Passed? { ProceedKeeps(s, c, verdict.reply); }
      else { CallEnds(s, c, if verdict.GateThrows? then Threw else Returned(false)); }
    case LoaderDone(l, outcome) => LoaderDoneKeeps(s, l, outcome);
    case Microtask => if s.queue[0].RunThen? { SettleKeeps(s); } else { ResumeKeeps(s); }
  }

  lemma {:induction false} RunInv(s: State, es: seq<Event>, t: State)
    requires Inv(s) && Run(s, es, t)
    ensures Inv(t)
    decreases |es|
  {
    if es != [] {
      StepInv(s, es[0]);
      RunInv(Step(s, es[0]), es[1..], t);
    }
  }

  lemma ReachableInv(s: State)
    requires Reachable(s)
    ensures Inv(s)
  {
    var es :| Run(Init, es, s);
    InitInv();
    RunInv(Init, es, s);
  }

  // ----- What callers can rely on -----

  /** At most one load of a kind is in flight, and nothing is loaded again after it was activated. */
  lemma LoadedOnce(s: State, l: nat, m: nat)
    requires Reachable(s) && l < m < |s.loads| && s.loads[l].kind == s.loads[m].kind
    ensures s.loads[l].status == Settled(Declined) || s.loads[l].status == Settled(Rejected)
  {
    ReachableInv(s);
    assert IsSettled(s, l);
  }

  /** A kind is loaded exactly when one of its loads was activated. */
  lemma LoadedMeansActivated(s: State, kind: string)
    requires Reachable(s)
    ensures kind in s.loaded <==>
            exists l :: 0 <= l < |s.loads| && s.loads[l].kind == kind && s.loads[l].status == Settled(Activated)
  {
    ReachableInv(s);
    if l :| 0 <= l < |s.loads| && s.loads[l].kind == kind && s.loads[l].status == Settled(Activated) {
      assert LoadInv(s, l);
    }
  }

  /** Every call that waited for a load returns, or throws, what that very load came to. */
  lemma WaiterGetsOutcome(s: State, c: nat)
    requires Reachable(s) && c < |s.calls| && s.calls[c].phase.Done? && s.calls[c].phase.via.Some?
    ensures var l := s.calls[c].phase.via.value;
            IsSettled(s, l) && s.calls[c].phase.result == ResultOf(s.loads[l].status.outcome)
  {
    ReachableInv(s);
    assert CallInv(s, c);
  }

  /** When an owner deletes the entry of its kind, the entry is its own load, never a newer one. */
  lemma OwnerDeletesOwnEntry(s: State)
    requires Reachable(s) && Enabled(s, Microtask) && s.queue[0].Resume?
    ensures var c := s.queue[0].call;
            var l, kind := s.calls[c].phase.load, s.calls[c].kind;
            && (s.loads[l].owner == c ==> kind in s.loading && s.loading[kind] == l)
            && (s.loads[l].owner != c ==> Step(s, Microtask).loading == s.loading)
  {
    ReachableInv(s);
    var c := s.queue[0].call;
    assert CallInv(s, c) && LoadInv(s, s.calls[c].phase.load);
  }

  lemma HeadRuns(s: State)
    requires Inv(s) && s.queue != []
    ensures Enabled(s, Microtask)
  {
    var t := s.queue[0];
    assert t in s.queue;
    if t.RunThen? { assert LoadInv(s, t.load); } else { assert CallInv(s, t.call); }
  }

  /** The queue never blocks, and a waiting call is subscribed to its load or already queued. */
  lemma NoCallForgotten(s: State, c: nat)
    requires Reachable(s)
    ensures s.queue != [] ==> Enabled(s, Microtask)
    ensures c < |s.calls| && s.calls[c].phase.Waiting? ==>
              var l := s.calls[c].phase.load;
              l < |s.loads| && if IsSettled(s, l) then Resume(c) in s.queue else c in s.loads[l].subs
  {
    ReachableInv(s);
    if s.queue != [] { HeadRuns(s); }
    if c < |s.calls| && s.calls[c].phase.Waiting? {
      assert CallInv(s, c) && LoadInv(s, s.calls[c].phase.load);
      assert Awaits(s, c, s.calls[c].phase.load);
    }
  }

  // ----- The queue runs empty -----

  /** The call still waits, for a load that is not over. */
  predicate Stuck(s: State, c: nat) {
    c < |s.calls| && s.calls[c].phase.Waiting?
    && s.calls[c].phase.load < |s.loads| && s.loads[s.calls[c].phase.load].status.Pending?
  }

  /** Once the queue is empty, only the loaders of calls that still wait are pending. */
  lemma EmptyQueueMeansPending(s: State, c: nat)
    requires Inv(s) && s.queue == [] && c < |s.calls| && s.calls[c].phase.Waiting?
    ensures Stuck(s, c)
  {
    assert CallInv(s, c) && LoadInv(s, s.calls[c].phase.load);
  }

  predicate IsWaiting(c: Call) { c.phase.Waiting? }

  predicate IsReacting(l: Load) { l.status.Reacting? }

  /** The microtasks that are still to run: each settles a load, or finishes a call. */
  ghost function Work(s: State): nat {
    Count(IsWaiting, s.calls) + Count(IsReacting, s.loads)
  }

  ghost predicate Microtasks(es: seq<Event>) {
    forall i :: 0 <= i < |es| ==> es[i] == Microtask
  }

  lemma MicrotaskWorks(s: State)
    requires Inv(s) && Enabled(s, Microtask)
    ensures Work(Step(s, Microtask)) + 1 == Work(s)
    ensures |Step(s, Microtask).calls| == |s.calls|
    ensures forall c :: Stuck(Step(s, Microtask), c) <==> Stuck(s, c)
  {
    match s.queue[0]
    case RunThen(l) => SettleWorks(s, Step(s, Microtask), l);
    case Resume(c) =>
      assert Resume(c) in s.queue && CallInv(s, c);
      ResumeWorks(s, Step(s, Microtask), c);
  }

  lemma SettleWorks(s: State, s': State, l: nat)
    requires l < |s.loads| && s.loads[l].status.Reacting? && s'.calls == s.calls && |s'.loads| == |s.loads|
    requires s'.loads == s.loads[l := s'.loads[l]] && s'.loads[l].status.Settled?
    ensures Work(s') + 1 == Work(s) && forall c :: Stuck(s', c) <==> Stuck(s, c)
  {
    CountUpdate(IsReacting, s.loads, l, s'.loads[l]);
  }

  lemma ResumeWorks(s: State, s': State, c: nat)
    requires c < |s.calls| && s.calls[c].phase.Waiting? && s'.loads == s.loads && |s'.calls| == |s.calls|
    requires s'.calls == s.calls[c := s'.calls[c]] && s'.calls[c].phase.Done? && IsSettled(s, s.calls[c].phase.load)
    ensures Work(s') + 1 == Work(s) && forall d :: Stuck(s', d) <==> Stuck(s, d)
  {
    CountUpdate(IsWaiting, s.calls, c, s'.calls[c]);
  }

  /**
   * From every reachable state, microtasks alone empty the queue; then exactly the calls whose loader is
   * still pending wait, and they are those that did before.
   */
  lemma MicrotasksDrain(s: State) returns (es: seq<Event>, t: State)
    requires Reachable(s)
    ensures Microtasks(es) && Run(s, es, t) && t.queue == []
    ensures |t.calls| == |s.calls|
    ensures forall c :: 0 <= c < |t.calls| ==> (t.calls[c].phase.Waiting? <==> Stuck(s, c))
  {
    ReachableInv(s);
    es, t := Drain(s);
    RunInv(s, es, t);
    forall c | 0 <= c < |t.calls| ensures t.calls[c].phase.Waiting? <==> Stuck(s, c) {
      if t.calls[c].phase.Waiting? { EmptyQueueMeansPending(t, c); }
      assert Stuck(t, c) <==> Stuck(s, c);
    }
  }

  lemma {:induction false} Drain(s: State) returns (es: seq<Event>, t: State)
    requires Inv(s)
    ensures Microtasks(es) && Run(s, es, t) && t.queue == []
    ensures |t.calls| == |s.calls| && forall c :: Stuck(t, c) <==> Stuck(s, c)
    decreases Work(s)
  {
    if s.queue == [] {
      es, t := [], s;
    } else {
      HeadRuns(s);
      MicrotaskWorks(s);
      StepInv(s, Microtask);
      var more;
      more, t := Drain(Step(s, Microtask));
      es := [Microtask] + more;
      assert es[1..] == more;
    }
  }

  // ----- Calls that wait for no load -----

  ghost predicate HasActivated(s: State, kind: string) {
    exists l :: 0 <= l < |s.loads| && s.loads[l].kind == kind && s.loads[l].status == Settled(Activated)
  }

  /** What the loader gave, if the event lets a call go on to its loader. */
  function ReplyOf(e: Event): Option<LoaderReply> {
    match e
    case Ensure(_, Ungated(reply)) => Some(reply)
    case GateDone(_, Passed(reply)) => Some(reply)
    case _ => None
  }

  /** The call an event is about, if it is a call's own. */
  function CallOf(s: State, e: Event): Option<nat> {
    match e
    case Ensure(_, _) => Some(|s.calls|)
    case GateDone(c, _) => Some(c)
    case _ => None
  }

  function KindOf(s: State, e: Event): string
    requires Enabled(s, e) && CallOf(s, e).Some?
  {
    if e.Ensure? then e.kind else s.calls[e.c].kind
  }

  /** A call that has no check or passes it returns true at once if its type has been activated, and loads nothing. */
  lemma ActivatedReturnsTrue(s: State, e: Event)
    requires Reachable(s) && Enabled(s, e) && ReplyOf(e).Some? && HasActivated(s, KindOf(s, e))
    ensures CallOf(s, e).value < |Step(s, e).calls|
    ensures Step(s, e).calls[CallOf(s, e).value].phase == Done(Returned(true), None)
    ensures Step(s, e).loads == s.loads && Step(s, e).queue == s.queue
  {
    LoadedMeansActivated(s, KindOf(s, e));
  }

  /** Why a call can end with this result without having waited for a load. */
  predicate Explains(e: Event, result: Result) {
    match result
    case Returned(true) => ReplyOf(e).Some?
    case Returned(false) => e.GateDone? && e.verdict.Refused?
    case Threw =>
      ReplyOf(e) == Some(Throws) || (e.Ensure? && e.entry.NoLoader?) || (e.GateDone? && e.verdict.GateThrows?)
  }

  predicate EndedAlone(s: State, c: nat, result: Result) {
    c < |s.calls| && s.calls[c].phase == Done(result, None)
  }

  lemma StepExplains(s: State, e: Event, c: nat, result: Result)
    requires Enabled(s, e) && EndedAlone(Step(s, e), c, result) && !EndedAlone(s, c, result)
    ensures CallOf(s, e) == Some(c) && Explains(e, result)
    ensures result == Returned(true) ==> KindOf(s, e) in s.loaded && Step(s, e).calls[c].kind == KindOf(s, e)
  {
    match e
    case Ensure(_, _) =>
    case GateDone(_, _) =>
    case LoaderDone(_, _) =>
    case Microtask =>
  }

  lemma StepGrows(s: State, e: Event)
    requires Enabled(s, e)
    ensures |Step(s, e).calls| == |s.calls| + if e.Ensure? then 1 else 0
    ensures s.loaded <= Step(s, e).loaded
    ensures forall c :: 0 <= c < |s.calls| ==> Step(s, e).calls[c].kind == s.calls[c].kind
  {
    match e
    case Ensure(_, _) =>
    case GateDone(_, _) =>
    case LoaderDone(_, _) =>
    case Microtask => if s.queue[0].RunThen? { assert Step(s, e).calls == s.calls; }
  }

  /** How many calls a run begins. */
  function Begun(es: seq<Event>): nat {
    if es == [] then 0 else (if es[0].Ensure? then 1 else 0) + Begun(es[1..])
  }

  /** The `i`-th event is call `c`'s own; `before` calls were there at the start. */
  ghost predicate Own(es: seq<Event>, i: nat, c: nat, before: nat) {
    i < |es| && if es[i].Ensure? then before + Begun(es[..i]) == c else es[i].GateDone? && es[i].c == c
  }

  lemma {:induction false} EndFrom(s: State, es: seq<Event>, t: State, c: nat, result: Result) returns (i: nat)
    requires Run(s, es, t) && EndedAlone(t, c, result) && !EndedAlone(s, c, result)
    ensures Own(es, i, c, |s.calls|) && Explains(es[i], result)
    ensures result == Returned(true) ==> t.calls[c].kind in t.loaded
    decreases |es|
  {
    var next := Step(s, es[0]);
    StepGrows(s, es[0]);
    if EndedAlone(next, c, result) {
      StepExplains(s, es[0], c, result);
      i := 0;
      assert es[..0] == [];
      Persists(next, es[1..], t, c);
    } else {
      var j := EndFrom(next, es[1..], t, c, result);
      i := j + 1;
      assert es[..i][1..] == es[1..][..j];
    }
  }

  lemma {:induction false} Persists(s: State, es: seq<Event>, t: State, c: nat)
    requires Run(s, es, t) && c < |s.calls|
    ensures s.loaded <= t.loaded && c < |t.calls| && t.calls[c].kind == s.calls[c].kind
    decreases |es|
  {
    if es != [] {
      StepGrows(s, es[0]);
      Persists(Step(s, es[0]), es[1..], t, c);
    }
  }

  /**
   * In every run, a call that waited for no load returned false only if its own check refused it, threw only if
   * there was no loader or its own check or loader threw, and returned true only for a type that was activated.
   */
  lemma EndIsExplained(es: seq<Event>, t: State, c: nat) returns (i: nat)
    requires Run(Init, es, t) && c < |t.calls| && t.calls[c].phase.Done? && t.calls[c].phase.via.None?
    ensures Own(es, i, c, 0) && Explains(es[i], t.calls[c].phase.result)
    ensures t.calls[c].phase.result == Returned(true) ==> HasActivated(t, t.calls[c].kind)
  {
    i := EndFrom(Init, es, t, c, t.calls[c].phase.result);
    if t.calls[c].phase.result == Returned(true) { LoadedMeansActivated(t, t.calls[c].kind); }
  }

  // ----- A load's outcome is its loader's -----

  /** What one event makes of a load: a new one, a loader's outcome, or the end of a reaction. */
  function LoadAfter(s: State, e: Event, l: nat): Option<Status> {
    if l == |s.loads| then
      (match ReplyOf(e)
       case Some(Value(outcome)) => Some(Reacting(outcome))
       case Some(Promised) => Some(Pending)
       case _ => None)
    else if l > |s.loads| then None
    else if e.LoaderDone? && e.l == l then Some(Reacting(e.outcome))
    else if e.Microtask? && s.queue != [] && s.queue[0] == RunThen(l) && s.loads[l].status.Reacting? then
      Some(Settled(s.loads[l].status.outcome))
    else Some(s.loads[l].status)
  }

  /** Every load has the status that its loader's answers give it; a load begins only where there is none. */
  lemma LoadsFollow(s: State, e: Event, l: nat)
    requires Enabled(s, e) && l < |Step(s, e).loads|
    ensures LoadAfter(s, e, l) == Some(Step(s, e).loads[l].status)
    ensures l == |s.loads| ==>
              && Step(s, e).loads[l].kind == KindOf(s, e) && Step(s, e).loads[l].owner == CallOf(s, e).value
              && KindOf(s, e) !in s.loaded && KindOf(s, e) !in s.loading
  {
    match e
    case Ensure(_, _) =>
    case GateDone(_, _) =>
    case LoaderDone(_, _) =>
    case Microtask =>
  }

  /** The module with its set and its map, the calls in progress and the promises they await. */
  class FrontendPluginLoaders {
    var loadedFrontendPluginTypes: set<string>
    var loadingFrontendPluginTypes: map<string, nat>
    var loads: seq<Load>
    var calls: seq<Call>
    var microtasks: seq<Task>

    ghost function View(): State
      reads this
    {
      State(loadedFrontendPluginTypes, loadingFrontendPluginTypes, loads, calls, microtasks)
    }

    constructor ()
      ensures View() == Init && Inv(View())
    {
      loadedFrontendPluginTypes, loadingFrontendPluginTypes, loads, calls, microtasks := {}, map[], [], [], [];
      InitInv();
    }

    method MoveTo(c: nat, phase: Phase)
      requires c < |calls|
      modifies this`calls
      ensures View() == SetPhase(old(View()), c, phase)
    {
      calls := calls[c := calls[c].(phase := phase)];
    }

    method EnsureFrontendPluginTypeLoaded(kind: string, entry: Entry) returns (c: nat)
      requires Inv(View())
      modifies this
      ensures View() == Step(old(View()), Ensure(kind, entry)) && Inv(View()) && c == |old(calls)|
    {
      StepInv(View(), Ensure(kind, entry));
      c := |calls|;
      calls := calls + [Call(kind, Gate)];
      match entry
      case NoLoader => MoveTo(c, Done(Threw, None));
      case Ungated(reply) => LoadOnce(c, reply);
      case Gated =>
    }

    method ActivationChecked(c: nat, verdict: GateVerdict)
      requires Inv(View()) && Enabled(View(), GateDone(c, verdict))
      modifies this
      ensures View() == Step(old(View()), GateDone(c, verdict)) && Inv(View())
    {
      StepInv(View(), GateDone(c, verdict));
      match verdict
      case GateThrows => MoveTo(c, Done(Threw, None));
      case Refused => MoveTo(c, Done(Returned(false), None));
      case Passed(reply) => LoadOnce(c, reply);
    }

    /** From the second check of the loaded set to the call's first await. */
    method LoadOnce(c: nat, reply: LoaderReply)
      requires c < |calls|
      modifies this
      ensures View() == Proceed(old(View()), c, reply)
    {
      var kind := calls[c].kind;
      if kind in loadedFrontendPluginTypes {
        MoveTo(c, Done(Returned(true), None));
        return;
      }
      if kind in loadingFrontendPluginTypes {
        AwaitExisting(c, loadingFrontendPluginTypes[kind]);
        return;
      }
      if reply.Throws? {
        MoveTo(c, Done(Threw, None));
        return;
      }
      var load := |loads|;
      if reply.Value? {
        loads := loads + [Load(kind, c, Reacting(reply.outcome), [c])];
        microtasks := microtasks + [RunThen(load)];
      } else {
        loads := loads + [Load(kind, c, Pending, [c])];
      }
      loadingFrontendPluginTypes := loadingFrontendPluginTypes[kind := load];
      MoveTo(c, Waiting(load));
    }

    method AwaitExisting(c: nat, l: nat)
      requires c < |calls|
      modifies this`calls, this`loads, this`microtasks
      ensures View() == Join(old(View()), c, l)
    {
      if l < |loads| && !loads[l].status.Settled? {
        loads := loads[l := loads[l].(subs := loads[l].subs + [c])];
      } else {
        microtasks := microtasks + [Resume(c)];
      }
      MoveTo(c, Waiting(l));
    }

    method LoaderSettled(l: nat, outcome: Outcome)
      requires Inv(View()) && Enabled(View(), LoaderDone(l, outcome))
      modifies this
      ensures View() == Step(old(View()), LoaderDone(l, outcome)) && Inv(View())
    {
      StepInv(View(), LoaderDone(l, outcome));
      loads := loads[l := loads[l].(status := Reacting(outcome))];
      microtasks := microtasks + [RunThen(l)];
    }

    method RunMicrotask()
      requires Inv(View()) && Enabled(View(), Microtask)
      modifies this
      ensures View() == Step(old(View()), Microtask) && Inv(View())
    {
      StepInv(View(), Microtask);
      var task := microtasks[0];
      microtasks := microtasks[1..];
      match task
      case RunThen(l) => ThenActivated(l);
      case Resume(c) => AfterAwait(c);
    }

    /** The `then` of a load. */
    method ThenActivated(l: nat)
      requires l < |loads| && loads[l].status.Reacting?
      modifies this
      ensures View() == SettleLoad(old(View()), l, old(loads)[l].status.outcome)
    {
      var Load(kind, owner, status, subs) := loads[l];
      if status.outcome.Activated? {
        loadedFrontendPluginTypes := loadedFrontendPluginTypes + {kind};
      }
      loads := loads[l := Load(kind, owner, Settled(status.outcome), [])];
      microtasks := microtasks + Resumes(subs);
    }

    /** The rest of a call once its load has settled, with the owner's `finally`. */
    method AfterAwait(c: nat)
      requires c < |calls| && calls[c].phase.Waiting? && calls[c].phase.load < |loads|
      modifies this
      ensures View() == ResumeCall(old(View()), c, old(calls)[c].phase.load)
    {
      var kind, l := calls[c].kind, calls[c].phase.load;
      if loads[l].status == Settled(Rejected) {
        MoveTo(c, Done(Threw, Some(l)));
      } else {
        MoveTo(c, Done(Returned(kind in loadedFrontendPluginTypes), Some(l)));
      }
      if loads[l].owner == c {
        loadingFrontendPluginTypes := loadingFrontendPluginTypes - {kind};
      }
    }
  }
}
