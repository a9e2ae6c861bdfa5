/**
 One-shot request authorizations (`model_gateway.rs`): a table of pending authorizations and one of
 active requests, each behind its own lock, used by any number of threads. A step is what happens
 under one lock, or one atomic exchange of a control; a run is any interleaving of steps.

 `authorize` is one step as well. It holds the pending lock throughout and looks once at the active
 table under that table's lock. No other step touches both tables, so it takes effect at that look,
 and the order of the steps of a run is the order in which they take effect.
 */
module ModelGateway {
  import opened Common

  datatype Authorization = Authorization(request: string, project: string, commit: string, expiresAt: int)

  datatype Control = Active | Cancelled | TimedOut | Complete

  datatype GatewayError = Capacity | RequestIdInUse | Invalid | Expired | Stale

  /** `issued`, `taken` and `running` are history: what was authorized, taken with success, and is executing. */
  datatype State = State(
    pending: map<string, Authorization>,
    active: map<string, int>,
    controls: map<int, Control>,
    running: map<int, string>,
    issued: map<string, Authorization>,
    taken: multiset<string>)

  const START := State(map[], map[], map[], map[], map[], multiset{})

  const TTL_SECONDS := 120
  const MAX_PENDING := 32

  /** Authorization ids and execution numbers are generated. */
  datatype Step =
    | Authorize(id: string, request: string, project: string, commit: string, now: int)
    | Take(id: string, project: string, commit: string, now: int)
    | Begin(execution: int, request: string)
    | TimeOut(execution: int)
    | EndControl(execution: int)
    | Unregister(execution: int)
    | CancelActive(request: string)
    | CancelPending(request: string)
    | CancelControl(execution: int)
    | ClearPending

  // ----- Steps

  function Unexpired(pending: map<string, Authorization>, now: int): map<string, Authorization> {
    map id | id in pending && pending[id].expiresAt > now :: pending[id]
  }

  predicate RequestPending(pending: map<string, Authorization>, request: string) {
    exists id | id in pending :: pending[id].request == request
  }

  function AuthorizeError(s: State, request: string, now: int): Option<GatewayError> {
    var left := Unexpired(s.pending, now);
    if |left| >= MAX_PENDING then Some(Capacity)
    else if RequestPending(left, request) || request in s.active then Some(RequestIdInUse)
    else None
  }

  function TakeError(s: State, id: string, project: string, commit: string, now: int): Option<GatewayError> {
    if id !in s.pending then Some(Invalid)
    else if s.pending[id].expiresAt <= now then Some(Expired)
    else if s.pending[id].project != project || s.pending[id].commit != commit then Some(Stale)
    else None
  }

  /** A control leaves `Active` once (`compare_exchange`). */
  function Settle(controls: map<int, Control>, execution: int, to: Control): map<int, Control> {
    if execution in controls && controls[execution] == Active then controls[execution := to] else controls
  }

  function OtherRequests(pending: map<string, Authorization>, request: string): map<string, Authorization> {
    map id | id in pending && pending[id].request != request :: pending[id]
  }

  function Next(s: State, step: Step): State {
    match step
    case Authorize(id, request, project, commit, now) =>
      var left, authorization := Unexpired(s.pending, now), Authorization(request, project, commit, now + TTL_SECONDS);
      if AuthorizeError(s, request, now) != None then s.(pending := left)
      else s.(pending := left[id := authorization], issued := s.issued[id := authorization])
    case Take(id, project, commit, now) =>
      s.(
        pending := s.pending - {id},
        taken := if TakeError(s, id, project, commit, now) == None then s.taken + multiset{id} else s.taken)
    case Begin(execution, request) =>
      if request in s.active then s
      else
        s.(
          active := s.active[request := execution], controls := s.controls[execution := Active],
          running := s.running[execution := request])
    case TimeOut(execution) => s.(controls := Settle(s.controls, execution, TimedOut))
    case EndControl(execution) => s.(controls := Settle(s.controls, execution, Complete))
    case Unregister(execution) =>
      if execution !in s.running then s
      else s.(active := s.active - {s.running[execution]}, running := s.running - {execution})
    case CancelActive(request) =>
      if request in s.active then s.(controls := Settle(s.controls, s.active[request], Cancelled)) else s
    case CancelPending(request) => s.(pending := OtherRequests(s.pending, request))
    case CancelControl(execution) => s.(controls := Settle(s.controls, execution, Cancelled))
    case ClearPending => s.(pending := map[])
  }

  /** Generated ids are new. */
  predicate Fresh(s: State, step: Step) {
    match step
    case Authorize(id, _, _, _, _) => id !in s.issued
    case Begin(execution, _) => execution !in s.controls && execution !in s.running
    case _ => true
  }

  // ----- What the steps do, entry by entry

  /** The entries a caller at `now` may still take. */
  ghost predicate Live(s: State, id: string, now: int) { id in s.pending && s.pending[id].expiresAt > now }

  ghost function LiveIds(s: State, now: int): set<string> { set id | id in s.pending && s.pending[id].expiresAt > now }

  lemma UnexpiredIs(s: State, now: int)
    ensures forall id :: id in Unexpired(s.pending, now) <==> Live(s, id, now)
    ensures forall id | Live(s, id, now) :: Unexpired(s.pending, now)[id] == s.pending[id]
    ensures |Unexpired(s.pending, now)| == |LiveIds(s, now)|
  {
    assert Unexpired(s.pending, now).Keys == LiveIds(s, now);
  }

  /** An authorize is refused exactly with 32 live entries, or for a request id that is live or active. */
  lemma AuthorizeRefused(s: State, request: string, now: int)
    ensures AuthorizeError(s, request, now) == Some(Capacity) <==> |LiveIds(s, now)| >= 32
    ensures AuthorizeError(s, request, now) == Some(RequestIdInUse) <==>
      |LiveIds(s, now)| < 32 && (request in s.active || exists id :: Live(s, id, now) && s.pending[id].request == request)
    ensures AuthorizeError(s, request, now) == None <==>
      |LiveIds(s, now)| < 32 && request !in s.active && forall id | Live(s, id, now) :: s.pending[id].request != request
  {
    UnexpiredIs(s, now);
    var left := Unexpired(s.pending, now);
    if id :| Live(s, id, now) && s.pending[id].request == request { assert left[id].request == request; }
    if RequestPending(left, request) {
      var id :| id in left && left[id].request == request;
      assert Live(s, id, now) && s.pending[id].request == request;
    }
  }

  /**
   After an authorize at `now`, refused or not, every entry there is lives on, every entry that lived is
   there unchanged, and a granted one is added, good for 120 seconds. No other table changes.
   */
  lemma AuthorizeLeaves(s: State, id: string, request: string, project: string, commit: string, now: int)
    requires id !in s.pending
    ensures var after := Next(s, Authorize(id, request, project, commit, now));
      && (forall x | x in after.pending :: after.pending[x].expiresAt > now)
      && (forall x | Live(s, x, now) :: x in after.pending && after.pending[x] == s.pending[x])
      && (forall x | x in after.pending && x != id :: Live(s, x, now))
      && (id in after.pending <==> AuthorizeError(s, request, now) == None)
      && (id in after.pending ==> after.pending[id] == Authorization(request, project, commit, now + 120))
      && after.active == s.active && after.controls == s.controls
  {
    UnexpiredIs(s, now);
  }

  /** Why a take fails, in the order of the checks; every take uses the authorization up. */
  lemma TakeIs(s: State, id: string, project: string, commit: string, now: int)
    ensures TakeError(s, id, project, commit, now) == Some(Invalid) <==> id !in s.pending
    ensures TakeError(s, id, project, commit, now) == Some(Expired) <==> id in s.pending && s.pending[id].expiresAt <= now
    ensures TakeError(s, id, project, commit, now) == Some(Stale) <==>
      Live(s, id, now) && (s.pending[id].project != project || s.pending[id].commit != commit)
    ensures TakeError(s, id, project, commit, now) == None <==>
      Live(s, id, now) && s.pending[id].project == project && s.pending[id].commit == commit
    ensures Next(s, Take(id, project, commit, now)).pending == s.pending - {id}
    ensures Next(s, Take(id, project, commit, now)).taken ==
      if TakeError(s, id, project, commit, now) == None then s.taken[id := s.taken[id] + 1] else s.taken
  {
  }

  /** A control moves from active to what the step says, once; no other control moves. */
  lemma ControlMoves(s: State, execution: int, to: Control)
    ensures Settle(s.controls, execution, to).Keys == s.controls.Keys
    ensures forall e | e in s.controls ::
      Settle(s.controls, execution, to)[e] == if e == execution && s.controls[e] == Active then to else s.controls[e]
  {
  }

  /** Which control each step moves, and where. */
  lemma StepsSettle(s: State, execution: int, request: string)
    ensures Next(s, TimeOut(execution)) == s.(controls := Settle(s.controls, execution, TimedOut))
    ensures Next(s, CancelControl(execution)) == s.(controls := Settle(s.controls, execution, Cancelled))
    ensures Next(s, EndControl(execution)) == s.(controls := Settle(s.controls, execution, Complete))
    ensures request in s.active ==> Next(s, CancelActive(request)) == Next(s, CancelControl(s.active[request]))
    ensures request !in s.active ==> Next(s, CancelActive(request)) == s
  {
  }

  /** A cancel takes exactly the entries of its request; clearing takes all. */
  lemma CancelTakes(s: State, request: string)
    ensures var after := Next(s, CancelPending(request));
      && after == s.(pending := after.pending)
      && (forall id :: id in after.pending <==> id in s.pending && s.pending[id].request != request)
      && (forall id | id in after.pending :: after.pending[id] == s.pending[id])
    ensures Next(s, ClearPending) == s.(pending := map[])
  {
  }

  /** A begin registers the execution with an active control unless its request is active. */
  lemma BeginIs(s: State, execution: int, request: string)
    ensures request in s.active ==> Next(s, Begin(execution, request)) == s
    ensures request !in s.active ==>
      && Next(s, Begin(execution, request)).active == s.active[request := execution]
      && Next(s, Begin(execution, request)).controls == s.controls[execution := Active]
      && Next(s, Begin(execution, request)).pending == s.pending
  {
  }

  // ----- What every interleaving keeps

  ghost predicate PendingKept(s: State) {
    && |s.pending| <= 32
    && (forall a, b | a in s.pending && b in s.pending && s.pending[a].request == s.pending[b].request :: a == b)
    && (forall a | a in s.pending :: a in s.issued && s.pending[a] == s.issued[a] && a !in s.taken)
    && (forall a | a in s.taken :: a in s.issued && s.taken[a] == 1)
  }

  /** Every executing request owns its entry in the active table, and every entry is owned. */
  ghost predicate ActiveKept(s: State) {
    && (forall e | e in s.running :: e in s.controls && s.running[e] in s.active && s.active[s.running[e]] == e)
    && (forall r | r in s.active :: s.active[r] in s.running && s.running[s.active[r]] == r)
  }

  ghost predicate Kept(s: State) { PendingKept(s) && ActiveKept(s) }

  lemma SmallerMap<T>(smaller: map<string, T>, larger: map<string, T>)
    requires smaller.Keys <= larger.Keys
    ensures |smaller| <= |larger|
  {
    assert larger.Keys == smaller.Keys + (larger.Keys - smaller.Keys);
  }

  /** Dropping authorizations keeps everything about the ones left. */
  lemma FewerPending(s: State, left: map<string, Authorization>)
    requires PendingKept(s) && left.Keys <= s.pending.Keys && forall a | a in left :: left[a] == s.pending[a]
    ensures PendingKept(s.(pending := left))
  {
    SmallerMap(left, s.pending);
  }

  lemma IssuedKeeps(s: State, id: string, a: Authorization)
    requires PendingKept(s) && |s.pending| < MAX_PENDING && !RequestPending(s.pending, a.request)
    requires id !in s.issued
    ensures PendingKept(s.(pending := s.pending[id := a], issued := s.issued[id := a]))
  {
    assert |s.pending[id := a]| == |s.pending| + 1;
  }

  /** What an authorize leaves. */
  lemma AuthorizeNext(s: State, id: string, a: Authorization, now: int)
    requires a.expiresAt == now + TTL_SECONDS
    ensures var left := Unexpired(s.pending, now);
      Next(s, Authorize(id, a.request, a.project, a.commit, now)) ==
        if AuthorizeError(s, a.request, now) == None then s.(pending := left[id := a], issued := s.issued[id := a])
        else s.(pending := left)
  {
    assert a == Authorization(a.request, a.project, a.commit, now + TTL_SECONDS);
  }

  lemma AuthorizeKeeps(s: State, id: string, request: string, project: string, commit: string, now: int)
    requires PendingKept(s) && id !in s.issued
    ensures PendingKept(Next(s, Authorize(id, request, project, commit, now)))
  {
    var left, a := s.(pending := Unexpired(s.pending, now)), Authorization(request, project, commit, now + TTL_SECONDS);
    FewerPending(s, left.pending);
    AuthorizeNext(s, id, a, now);
    if AuthorizeError(s, request, now) == None { IssuedKeeps(left, id, a); }
  }

  lemma TakenGrows(s: State, id: string)
    requires PendingKept(s) && id in s.issued && id !in s.taken && id !in s.pending
    ensures PendingKept(s.(taken := s.taken + multiset{id}))
  {
  }

  lemma TakeKeeps(s: State, id: string, project: string, commit: string, now: int)
    requires PendingKept(s)
    ensures PendingKept(Next(s, Take(id, project, commit, now)))
  {
    var left := s.(pending := s.pending - {id});
    FewerPending(s, s.pending - {id});
    if TakeError(s, id, project, commit, now) == None { TakenGrows(left, id); }
  }

  lemma PendingStepKeeps(s: State, step: Step)
    requires PendingKept(s) && Fresh(s, step)
    ensures PendingKept(Next(s, step))
  {
    match step
    case Authorize(id, request, project, commit, now) => AuthorizeKeeps(s, id, request, project, commit, now);
    case Take(id, project, commit, now) => TakeKeeps(s, id, project, commit, now);
    case CancelPending(request) => FewerPending(s, Next(s, step).pending);
    case _ =>
  }

  lemma BeginKeeps(s: State, execution: int, request: string)
    requires ActiveKept(s) && Fresh(s, Begin(execution, request))
    ensures ActiveKept(Next(s, Begin(execution, request)))
  {
    var after := Next(s, Begin(execution, request));
    forall e | e in after.running
      ensures e in after.controls && after.running[e] in after.active && after.active[after.running[e]] == e
    {
      if e != execution { assert e in s.running; }
    }
  }

  lemma UnregisterKeeps(s: State, execution: int)
    requires ActiveKept(s)
    ensures ActiveKept(Next(s, Unregister(execution)))
  {
    var after := Next(s, Unregister(execution));
    forall e | e in after.running
      ensures e in after.controls && after.running[e] in after.active && after.active[after.running[e]] == e
    {
      assert e in s.running;
    }
  }

  lemma ActiveStepKeeps(s: State, step: Step)
    requires ActiveKept(s) && Fresh(s, step)
    ensures ActiveKept(Next(s, step))
  {
    match step
    case Begin(execution, request) => BeginKeeps(s, execution, request);
    case Unregister(execution) => UnregisterKeeps(s, execution);
    case _ =>
  }

  function Run(s: State, steps: seq<Step>): State {
    if steps == [] then s else Next(Run(s, steps[..|steps| - 1]), steps[|steps| - 1])
  }

  ghost predicate FreshRun(s: State, steps: seq<Step>) {
    forall i | 0 <= i < |steps| :: Fresh(Run(s, steps[..i]), steps[i])
  }

  lemma FreshEarlier(s: State, steps: seq<Step>)
    requires FreshRun(s, steps) && steps != []
    ensures FreshRun(s, steps[..|steps| - 1]) && Fresh(Run(s, steps[..|steps| - 1]), steps[|steps| - 1])
  {
    var earlier := steps[..|steps| - 1];
    forall i | 0 <= i < |earlier|
      ensures Fresh(Run(s, earlier[..i]), earlier[i])
    {
      assert earlier[..i] == steps[..i];
    }
  }

  /** Every interleaving keeps the tables: at most 32 pending, no two for one request, each taken at most once. */
  lemma {:induction false} EveryRunKeeps(s: State, steps: seq<Step>)
    requires Kept(s) && FreshRun(s, steps)
    ensures Kept(Run(s, steps))
  {
    if steps != [] {
      FreshEarlier(s, steps);
      EveryRunKeeps(s, steps[..|steps| - 1]);
      PendingStepKeeps(Run(s, steps[..|steps| - 1]), steps[|steps| - 1]);
      ActiveStepKeeps(Run(s, steps[..|steps| - 1]), steps[|steps| - 1]);
    }
  }

  /** An authorization is taken with success at most once, in time, and for what it was issued for. */
  lemma TakenOnce(steps: seq<Step>, id: string, project: string, commit: string, now: int)
    requires FreshRun(START, steps) && TakeError(Run(START, steps), id, project, commit, now) == None
    ensures id !in Run(START, steps).taken && id in Run(START, steps).issued
    ensures var a := Run(START, steps).issued[id]; a.project == project && a.commit == commit && now < a.expiresAt
    ensures TakeError(Next(Run(START, steps), Take(id, project, commit, now)), id, project, commit, now) == Some(Invalid)
  {
    EveryRunKeeps(START, steps);
  }

  /** Once taken, never again: in no later state does a take of the same id succeed. */
  lemma NeverTakenTwice(steps: seq<Step>, id: string, project: string, commit: string, now: int)
    requires FreshRun(START, steps) && id in Run(START, steps).taken
    ensures TakeError(Run(START, steps), id, project, commit, now) == Some(Invalid)
  {
    EveryRunKeeps(START, steps);
  }

  lemma UnregisterOwn(s: State, execution: int)
    requires ActiveKept(s) && execution in s.running
    ensures s.running[execution] in s.active && s.active[s.running[execution]] == execution
    ensures var after := Next(s, Unregister(execution)).active;
      forall r | r in s.active && s.active[r] != execution :: r in after && after[r] == s.active[r]
  {
  }

  /** The guard that ends an execution removes its own entry and no other. */
  lemma UnregisterRemovesOwn(steps: seq<Step>, execution: int)
    requires FreshRun(START, steps) && execution in Run(START, steps).running
    ensures var s, after := Run(START, steps), Next(Run(START, steps), Unregister(execution)).active;
      && s.running[execution] in s.active && s.active[s.running[execution]] == execution
      && forall r | r in s.active && s.active[r] != execution :: r in after && after[r] == s.active[r]
  {
    EveryRunKeeps(START, steps);
    UnregisterOwn(Run(START, steps), execution);
  }

  lemma SettledStep(s: State, step: Step, execution: int)
    requires Fresh(s, step) && execution in s.controls && s.controls[execution] != Active
    ensures execution in Next(s, step).controls && Next(s, step).controls[execution] == s.controls[execution]
  {
  }

  /** A control that has left `Active` never changes again. */
  lemma {:induction false} SettledForEver(s: State, steps: seq<Step>, execution: int)
    requires FreshRun(s, steps) && execution in s.controls && s.controls[execution] != Active
    ensures execution in Run(s, steps).controls && Run(s, steps).controls[execution] == s.controls[execution]
  {
    if steps != [] {
      FreshEarlier(s, steps);
      SettledForEver(s, steps[..|steps| - 1], execution);
      SettledStep(Run(s, steps[..|steps| - 1]), steps[|steps| - 1], execution);
    }
  }

  lemma OnlyOne(pending: map<string, Authorization>, request: string, id: string)
    requires id in pending && pending[id].request == request
    requires forall a, b | a in pending && b in pending && pending[a].request == pending[b].request :: a == b
    ensures pending - {id} == OtherRequests(pending, request)
  {
  }

  lemma NoneLeft(pending: map<string, Authorization>, request: string)
    requires !RequestPending(pending, request)
    ensures pending == OtherRequests(pending, request)
  {
  }

  // ----- The two tables together

  /** No request id is both pending and active. */
  ghost predicate Apart(s: State) {
    forall r | r in s.active :: !RequestPending(s.pending, r)
  }

  /** The step starts an execution for a request id that is waiting for one. */
  predicate StartsPending(s: State, step: Step) {
    step.Begin? && RequestPending(s.pending, step.request)
  }

  lemma FewerApart(s: State, pending: map<string, Authorization>, active: map<string, int>)
    requires Apart(s) && active.Keys <= s.active.Keys
    requires forall id | id in pending :: id in s.pending && pending[id] == s.pending[id]
    ensures Apart(s.(pending := pending, active := active))
  {
    forall r | r in active ensures !RequestPending(pending, r) {
      assert !RequestPending(s.pending, r);
    }
  }

  lemma AuthorizeApart(s: State, id: string, request: string, project: string, commit: string, now: int)
    requires Apart(s)
    ensures Apart(Next(s, Authorize(id, request, project, commit, now)))
  {
    var left, after := Unexpired(s.pending, now), Next(s, Authorize(id, request, project, commit, now));
    FewerApart(s, left, s.active);
    forall r | r in after.active ensures !RequestPending(after.pending, r) {
      assert !RequestPending(left, r);
    }
  }

  lemma BeginApart(s: State, execution: int, request: string)
    requires Apart(s)
    ensures Apart(Next(s, Begin(execution, request))) <==> !RequestPending(s.pending, request)
  {
    var after := Next(s, Begin(execution, request));
    assert request in after.active;
    forall r | r in after.active && r != request ensures !RequestPending(after.pending, r) {
      assert r in s.active;
    }
  }

  /** A step takes the tables out of this state exactly when it starts a pending request. */
  lemma ApartStep(s: State, step: Step)
    requires Apart(s)
    ensures Apart(Next(s, step)) <==> !StartsPending(s, step)
  {
    match step
    case Authorize(id, request, project, commit, now) => AuthorizeApart(s, id, request, project, commit, now);
    case Begin(execution, request) => BeginApart(s, execution, request);
    case _ => FewerApart(s, Next(s, step).pending, Next(s, step).active);
  }

  /** No state of an interleaving has a request id in both tables. */
  ghost predicate AlwaysApart(s: State, steps: seq<Step>) {
    forall i | 0 <= i <= |steps| :: Apart(Run(s, steps[..i]))
  }

  /** No step of an interleaving starts an execution for a request id that is pending at that point. */
  ghost predicate NeverStartsPending(s: State, steps: seq<Step>) {
    forall i | 0 <= i < |steps| :: !StartsPending(Run(s, steps[..i]), steps[i])
  }

  lemma RunStep(s: State, steps: seq<Step>, i: nat)
    requires i < |steps|
    ensures Run(s, steps[..i + 1]) == Next(Run(s, steps[..i]), steps[i])
  {
    assert steps[..i + 1][..i] == steps[..i];
  }

  lemma {:induction false} ApartUpTo(s: State, steps: seq<Step>, i: nat)
    requires Apart(s) && NeverStartsPending(s, steps) && i <= |steps|
    ensures Apart(Run(s, steps[..i]))
  {
    if i > 0 {
      ApartUpTo(s, steps, i - 1);
      RunStep(s, steps, i - 1);
      ApartStep(Run(s, steps[..i - 1]), steps[i - 1]);
    }
  }

  /**
   A request id is never both pending and active, in any state of an interleaving, if and only if no
   execution in it is started for a request id that is pending when it starts, in the order in which
   the steps take effect.
   */
  lemma ApartExactly(s: State, steps: seq<Step>)
    requires Apart(s)
    ensures AlwaysApart(s, steps) <==> NeverStartsPending(s, steps)
  {
    if AlwaysApart(s, steps) {
      forall i | 0 <= i < |steps| ensures !StartsPending(Run(s, steps[..i]), steps[i]) {
        RunStep(s, steps, i);
        assert Apart(Run(s, steps[..i])) && Apart(Run(s, steps[..i + 1]));
        ApartStep(Run(s, steps[..i]), steps[i]);
      }
    }
    if NeverStartsPending(s, steps) {
      forall i | 0 <= i <= |steps| ensures Apart(Run(s, steps[..i])) { ApartUpTo(s, steps, i); }
    }
  }

  /**
   What the two locks do not give: between a take and the start of its execution the request id is in
   neither table, so it can be authorized again and end up both pending and active.
   */
  lemma PendingAndActive()
    ensures var authorized := Next(START, Authorize("a", "r", "p", "c", 0));
            var taken := Next(authorized, Take("a", "p", "c", 1));
            var again := Next(taken, Authorize("b", "r", "p", "c", 2));
            var begun := Next(again, Begin(1, "r"));
            && TakeError(authorized, "a", "p", "c", 1) == None
            && Fresh(taken, Authorize("b", "r", "p", "c", 2)) && Fresh(again, Begin(1, "r"))
            && RequestPending(begun.pending, "r") && "r" in begun.active
  {
    var authorized := Next(START, Authorize("a", "r", "p", "c", 0));
    assert Unexpired(START.pending, 0) == map[];
    assert authorized.pending == map["a" := Authorization("r", "p", "c", 120)];
    var taken := Next(authorized, Take("a", "p", "c", 1));
    assert taken.pending == map[] && Unexpired(taken.pending, 2) == map[];
    var again := Next(taken, Authorize("b", "r", "p", "c", 2));
    assert again.pending == map["b" := Authorization("r", "p", "c", 122)];
    assert again.pending["b"].request == "r";
  }

  // ----- The host

  class ModelExecutionHost {
    var pending: map<string, Authorization>
    var active: map<string, int>
    var controls: map<int, Control>
    ghost var running: map<int, string>
    ghost var issued: map<string, Authorization>
    ghost var taken: multiset<string>

    ghost function Now(): State
      reads this
    {
      State(pending, active, controls, running, issued, taken)
    }

    constructor ()
      ensures Now() == START
    {
      pending, active, controls, running, issued, taken := map[], map[], map[], map[], map[], multiset{};
    }

    /** `authorize`, under the pending lock; it takes effect where it looks at the active table. */
    method AuthorizeRequest(id: string, request: string, project: string, commit: string, now: int)
      returns (failed: Option<GatewayError>)
      modifies this
      ensures failed == AuthorizeError(old(Now()), request, now)
      ensures Now() == Next(old(Now()), Authorize(id, request, project, commit, now))
    {
      pending := Unexpired(pending, now);
      if |pending| >= MAX_PENDING { return Some(Capacity); }
      if RequestPending(pending, request) || request in active { return Some(RequestIdInUse); }
      pending := pending[id := Authorization(request, project, commit, now + TTL_SECONDS)];
      issued := issued[id := Authorization(request, project, commit, now + TTL_SECONDS)];
      return None;
    }

    /** `take_authorized_request`: removal comes first, so a failed take uses the authorization up too. */
    method TakeAuthorizedRequest(id: string, project: string, commit: string, now: int)
      returns (r: Result<string, GatewayError>)
      modifies this
      ensures TakeError(old(Now()), id, project, commit, now) == if r.Failure? then Some(r.error) else None
      ensures r.Success? ==> id in old(pending) && r.value == old(pending)[id].request
      ensures Now() == Next(old(Now()), Take(id, project, commit, now))
    {
      if id !in pending {
        assert pending - {id} == pending;
        return Failure(Invalid);
      }
      var authorization := pending[id];
      pending := pending - {id};
      if authorization.expiresAt <= now { return Failure(Expired); }
      if authorization.project != project || authorization.commit != commit { return Failure(Stale); }
      taken := taken + multiset{id};
      return Success(authorization.request);
    }

    /** The start of `execute_stream_after_ready`. */
    method BeginExecution(execution: int, request: string) returns (failed: Option<GatewayError>)
      modifies this
      ensures failed == if request in old(active) then Some(RequestIdInUse) else None
      ensures Now() == Next(old(Now()), Begin(execution, request))
    {
      if request in active { return Some(RequestIdInUse); }
      active, controls := active[request := execution], controls[execution := Active];
      running := running[execution := request];
      return None;
    }

    /** The guard's drop, before it takes the lock: the control completes unless it was settled. */
    method CompleteControl(execution: int)
      modifies this
      ensures Now() == Next(old(Now()), EndControl(execution))
    {
      controls := Settle(controls, execution, Complete);
    }

    /** The guard's drop, under the lock: the request id it remembers is free again. */
    method UnregisterExecution(ghost execution: int, request: string)
      requires execution in running && running[execution] == request
      modifies this
      ensures Now() == Next(old(Now()), Unregister(execution))
    {
      active := active - {request};
      running := running - {execution};
    }

    /** The pending half of `cancel`: the first authorization found for the request. */
    method CancelPendingRequest(request: string) returns (cancelled: bool)
      requires PendingKept(Now())
      modifies this
      ensures cancelled == RequestPending(old(pending), request)
      ensures Now() == Next(old(Now()), CancelPending(request))
    {
      cancelled := RequestPending(pending, request);
      if cancelled {
        var id :| id in pending && pending[id].request == request;
        OnlyOne(pending, request, id);
        pending := pending - {id};
      } else {
        NoneLeft(pending, request);
      }
    }

    /** The active half of `cancel`. */
    method CancelActiveRequest(request: string) returns (cancelled: bool)
      modifies this
      ensures cancelled == (request in old(active) && old(active)[request] in old(controls) && old(controls)[old(active)[request]] == Active)
      ensures Now() == Next(old(Now()), CancelActive(request))
    {
      if request !in active { return false; }
      var execution := active[request];
      cancelled := execution in controls && controls[execution] == Active;
      controls := Settle(controls, execution, Cancelled);
    }
  }
}
