/**
 The lifecycle of the Prometheus reader as a step system.

 Any number of goroutines call Start and Shutdown; a successful first Start spawns a serve
 goroutine, which builds one HTTP server after another and arms an AfterFunc hook for each.
 Every statement of the critical sections and of the serve loop is a step of its own, and a
 step names the goroutine that moves, so a sequence of steps is one interleaving.
 */
module PrometheusReader {
  import opened Wrappers

  type Goroutine = nat
  type Context = nat

  datatype StartResult = Started | AlreadyClosed

  /** Program point of a goroutine that called Start or Shutdown. */
  datatype CallerPoint =
    | StartLock(ctx: Context)
    | StartCheckClosed(ctx: Context)
    | StartCheckStarted(ctx: Context)
    | StartMark(ctx: Context)
    | StartSpawn(ctx: Context)
    | StartUnlock(result: StartResult)
    | StartReturned(result: StartResult)
    | StopLock
    | StopCheckClosed
    | StopMark
    | StopCancel
    | StopWait
    | StopUnlock
    | StopReturned

  /** Program point of a serve goroutine. */
  datatype ServePoint = NewServer | Register | Listen | Unregister | Select | CloseDone | Exited

  /** `server` indexes the server of the current round of the loop. */
  datatype Serve = Serve(point: ServePoint, ctx: Context, server: nat)

  /** State of the function registered with context.AfterFunc for one server. */
  datatype Hook = Unarmed | Armed | Running | Finished | Disarmed

  datatype Server = Server(ctx: Context, hook: Hook, shut: bool)

  datatype State = State(
    mu: Option<Goroutine>,
    started: bool,
    closed: bool,
    cancelled: bool,              // r.ctx is done
    doneCloses: nat,              // how often r.done was closed
    callers: map<Goroutine, CallerPoint>,
    serves: seq<Serve>,           // every serve goroutine ever spawned
    servers: seq<Server>,         // every server ever built
    doneContexts: set<Context>)   // contexts passed to Start that are done

  datatype Step =
    | CallStart(g: Goroutine, ctx: Context)
    | CallShutdown(g: Goroutine)
    | EndContext(ctx: Context)
    | Caller(g: Goroutine)
    | ServeMove(i: nat)
    | Retry(i: nat)               // the three-second timer wins the select
    | FireHook(k: nat)
    | RunHook(k: nat)

  const INIT: State := State(None, false, false, false, 0, map[], [], [], {})

  /** Whether a call in progress holds the mutex. */
  predicate InCriticalSection(p: CallerPoint) {
    !p.StartLock? && !p.StartReturned? && !p.StopLock? && !p.StopReturned?
  }

  predicate IsShutdownCall(p: CallerPoint) {
    p.StopLock? || p.StopCheckClosed? || p.StopMark? || p.StopCancel? || p.StopWait? || p.StopUnlock? || p.StopReturned?
  }

  predicate HasReturned(p: CallerPoint) {
    p.StartReturned? || p.StopReturned?
  }

  predicate CallerEnabled(s: State, p: CallerPoint) {
    match p
    case StartLock(_) => s.mu.None?
    case StopLock => s.mu.None?
    case StopWait => s.doneCloses > 0
    case StartReturned(_) => false
    case StopReturned => false
    case _ => true
  }

  predicate ServeEnabled(s: State, v: Serve) {
    match v.point
    case NewServer => true
    case Select => s.cancelled
    case CloseDone => true
    case Exited => false
    case _ => v.server < |s.servers|
  }

  predicate Enabled(s: State, step: Step) {
    match step
    case CallStart(g, _) => g !in s.callers
    case CallShutdown(g) => g !in s.callers
    case EndContext(_) => true
    case Caller(g) => g in s.callers && CallerEnabled(s, s.callers[g])
    case ServeMove(i) => i < |s.serves| && ServeEnabled(s, s.serves[i])
    case Retry(i) => i < |s.serves| && s.serves[i].point.Select?
    case FireHook(k) => k < |s.servers| && s.servers[k].hook.Armed? && s.servers[k].ctx in s.doneContexts
    case RunHook(k) => k < |s.servers| && s.servers[k].hook.Running?
  }

  /** One statement of Start or Shutdown. */
  function MoveCaller(s: State, g: Goroutine): State
    requires Enabled(s, Caller(g))
  {
    match s.callers[g]
    case StartLock(ctx) => s.(mu := Some(g), callers := s.callers[g := StartCheckClosed(ctx)])
    case StartCheckClosed(ctx) =>
      s.(callers := s.callers[g := if s.closed then StartUnlock(AlreadyClosed) else StartCheckStarted(ctx)])
    case StartCheckStarted(ctx) =>
      s.(callers := s.callers[g := if s.started then StartUnlock(Started) else StartMark(ctx)])
    case StartMark(ctx) => s.(started := true, callers := s.callers[g := StartSpawn(ctx)])
    case StartSpawn(ctx) =>
      s.(serves := s.serves + [Serve(NewServer, ctx, 0)], callers := s.callers[g := StartUnlock(Started)])
    case StartUnlock(r) => s.(mu := None, callers := s.callers[g := StartReturned(r)])
    case StopLock => s.(mu := Some(g), callers := s.callers[g := StopCheckClosed])
    case StopCheckClosed => s.(callers := s.callers[g := if s.closed then StopUnlock else StopMark])
    case StopMark => s.(closed := true, callers := s.callers[g := StopCancel])
    case StopCancel => s.(cancelled := true, callers := s.callers[g := StopWait])
    case StopWait => s.(callers := s.callers[g := StopUnlock])
    case StopUnlock => s.(mu := None, callers := s.callers[g := StopReturned])
  }

  /** One statement of the serve loop, other than losing the select to the timer. */
  function MoveServe(s: State, i: nat): State
    requires Enabled(s, ServeMove(i))
  {
    var v := s.serves[i];
    match v.point
    case NewServer =>
      s.(servers := s.servers + [Server(v.ctx, Unarmed, false)],
         serves := s.serves[i := v.(point := Register, server := |s.servers|)])
    case Register =>
      s.(servers := s.servers[v.server := s.servers[v.server].(hook := Armed)],
         serves := s.serves[i := v.(point := Listen)])
    case Listen => s.(serves := s.serves[i := v.(point := Unregister)])
    case Unregister =>
      var server := s.servers[v.server];
      s.(servers := s.servers[v.server := if server.hook.Armed? then server.(hook := Disarmed) else server],
         serves := s.serves[i := v.(point := Select)])
    case Select => s.(serves := s.serves[i := v.(point := CloseDone)])
    case CloseDone => s.(doneCloses := s.doneCloses + 1, serves := s.serves[i := v.(point := Exited)])
  }

  function Apply(s: State, step: Step): State
    requires Enabled(s, step)
  {
    match step
    case CallStart(g, ctx) => s.(callers := s.callers[g := StartLock(ctx)])
    case CallShutdown(g) => s.(callers := s.callers[g := StopLock])
    case EndContext(ctx) => s.(doneContexts := s.doneContexts + {ctx})
    case Caller(g) => MoveCaller(s, g)
    case ServeMove(i) => MoveServe(s, i)
    case Retry(i) => s.(serves := s.serves[i := s.serves[i].(point := NewServer)])
    case FireHook(k) => s.(servers := s.servers[k := s.servers[k].(hook := Running)])
    case RunHook(k) => s.(servers := s.servers[k := s.servers[k].(hook := Finished, shut := true)])
  }

  predicate CanRun(s: State, steps: seq<Step>)
    decreases |steps|
  {
    steps == [] || (Enabled(s, steps[0]) && CanRun(Apply(s, steps[0]), steps[1..]))
  }

  function Run(s: State, steps: seq<Step>): State
    requires CanRun(s, steps)
    decreases |steps|
  {
    if steps == [] then s else Run(Apply(s, steps[0]), steps[1..])
  }

  // ----- what every step keeps

  ghost predicate Exclusive(s: State) {
    && (s.mu.Some? ==> s.mu.value in s.callers && InCriticalSection(s.callers[s.mu.value]))
    && (forall g <- s.callers :: InCriticalSection(s.callers[g]) ==> s.mu == Some(g))
  }

  function Holder(s: State): Option<CallerPoint> {
    if s.mu.Some? && s.mu.value in s.callers then Some(s.callers[s.mu.value]) else None
  }

  /** What the goroutine holding the mutex knows at each of its program points. */
  predicate HolderKnows(s: State) {
    match Holder(s)
    case None => true
    case Some(p) =>
      && (p.StartCheckStarted? || p.StartMark? || p.StartSpawn? || p.StopMark? ==> !s.closed)
      && (p.StartMark? ==> !s.started)
      && (p.StartSpawn? ==> s.started)
      && (p.StartUnlock? ==> if p.result.Started? then s.started else s.closed)
      && (p.StopCancel? || p.StopWait? || p.StopUnlock? ==> s.closed)
      && (p.StopWait? ==> s.cancelled)
      && (p.StopUnlock? ==> s.doneCloses == 1)
  }

  /** Whether some goroutine is between marking the reader closed and receiving from done. */
  predicate Stopping(s: State) {
    Holder(s).Some? && (Holder(s).value.StopCancel? || Holder(s).value.StopWait?)
  }

  /** Whether some goroutine has marked the reader started but not yet spawned its serve goroutine. */
  predicate Spawning(s: State) {
    Holder(s).Some? && Holder(s).value.StartSpawn?
  }

  ghost predicate FlagsAgree(s: State) {
    && (|s.serves| == if s.started && !Spawning(s) then 1 else 0)
    && (s.doneCloses == if |s.serves| == 1 && s.serves[0].point.Exited? then 1 else 0)
    && (s.closed && !Stopping(s) ==> s.doneCloses == 1)
    && (s.cancelled ==> s.closed)
    && (|s.serves| == 1 && (s.serves[0].point.CloseDone? || s.serves[0].point.Exited?) ==> s.cancelled)
    && (forall g <- s.callers :: s.callers[g].StopReturned? ==> s.doneCloses == 1)
    && (forall g <- s.callers :: s.callers[g] == StartReturned(AlreadyClosed) ==> s.closed)
    && (forall g <- s.callers :: s.callers[g] == StartReturned(Started) ==> |s.serves| == 1)
  }

  /** The server a serve goroutine is busy with belongs to its context and has a live hook. */
  predicate ServesBusy(s: State) {
    |s.serves| == 1 ==>
      var v := s.serves[0];
      match v.point
      case Register => v.server < |s.servers| && s.servers[v.server] == Server(v.ctx, Unarmed, false)
      case Listen => v.server < |s.servers| && s.servers[v.server].ctx == v.ctx
                     && (s.servers[v.server].hook.Armed? || s.servers[v.server].hook.Running?
                         || s.servers[v.server] == Server(v.ctx, Finished, true))
      case Unregister => v.server < |s.servers|
      case _ => true
  }

  /** A hook runs, and a server is shut, only after the context given to Start is done. */
  ghost predicate HooksTold(s: State) {
    forall server <- s.servers ::
      server.hook.Running? || server.hook.Finished? || server.shut ==> server.ctx in s.doneContexts
  }

  /** Whether the serve goroutine is between registering the hook of a server and taking it back. */
  predicate HooksAt(s: State, k: nat) {
    |s.serves| == 1 && k == s.serves[0].server && (s.serves[0].point.Listen? || s.serves[0].point.Unregister?)
  }

  /** Only the server of the current round has a hook that is still armed; those of earlier rounds were taken back. */
  ghost predicate HooksCurrent(s: State) {
    && (forall k | 0 <= k < |s.servers| && s.servers[k].hook.Armed? :: HooksAt(s, k))
    && (forall k | 0 <= k < |s.servers| && s.servers[k].hook.Unarmed? ::
          |s.serves| == 1 && k == s.serves[0].server && s.serves[0].point.Register?)
  }

  ghost predicate Inv(s: State) {
    Exclusive(s) && HolderKnows(s) && FlagsAgree(s) && ServesBusy(s) && HooksTold(s) && HooksCurrent(s)
  }

  lemma StartCallerKeepsExclusive(s: State, g: Goroutine)
    requires Inv(s) && Enabled(s, Caller(g)) && !IsShutdownCall(s.callers[g])
    ensures Exclusive(Apply(s, Caller(g)))
  {
    var t := Apply(s, Caller(g));
    assert forall h <- t.callers :: h != g ==> h in s.callers && t.callers[h] == s.callers[h];
  }

  lemma StopCallerKeepsExclusive(s: State, g: Goroutine)
    requires Inv(s) && Enabled(s, Caller(g)) && IsShutdownCall(s.callers[g])
    ensures Exclusive(Apply(s, Caller(g)))
  {
    var t := Apply(s, Caller(g));
    assert forall h <- t.callers :: h != g ==> h in s.callers && t.callers[h] == s.callers[h];
  }

  lemma StartCallerKeepsInv(s: State, g: Goroutine)
    requires Inv(s) && Enabled(s, Caller(g)) && !IsShutdownCall(s.callers[g])
    ensures Inv(Apply(s, Caller(g)))
  {
    StartCallerKeepsExclusive(s, g);
  }

  lemma StopCallerKeepsInv(s: State, g: Goroutine)
    requires Inv(s) && Enabled(s, Caller(g)) && IsShutdownCall(s.callers[g])
    ensures Inv(Apply(s, Caller(g)))
  {
    StopCallerKeepsExclusive(s, g);
  }

  lemma ServeKeepsHooks(s: State, i: nat)
    requires Inv(s) && Enabled(s, ServeMove(i))
    ensures HooksTold(Apply(s, ServeMove(i))) && HooksCurrent(Apply(s, ServeMove(i)))
  {
  }

  lemma ServeKeepsInv(s: State, i: nat)
    requires Inv(s) && Enabled(s, ServeMove(i))
    ensures Inv(Apply(s, ServeMove(i)))
  {
    ServeKeepsHooks(s, i);
    assert Holder(Apply(s, ServeMove(i))) == Holder(s);
  }

  lemma CallKeepsInv(s: State, step: Step)
    requires Inv(s) && Enabled(s, step) && (step.CallStart? || step.CallShutdown? || step.EndContext?)
    ensures Inv(Apply(s, step))
  {
    assert Holder(Apply(s, step)) == Holder(s);
  }

  lemma HookKeepsInv(s: State, step: Step)
    requires Inv(s) && Enabled(s, step) && (step.Retry? || step.FireHook? || step.RunHook?)
    ensures Inv(Apply(s, step))
  {
    assert Holder(Apply(s, step)) == Holder(s);
  }

  lemma StepKeepsInv(s: State, step: Step)
    requires Inv(s) && Enabled(s, step)
    ensures Inv(Apply(s, step))
  {
    match step
    case Caller(g) =>
      if IsShutdownCall(s.callers[g]) {
        StopCallerKeepsInv(s, g);
      } else {
        StartCallerKeepsInv(s, g);
      }
    case ServeMove(i) => ServeKeepsInv(s, i);
    case Retry(_) => HookKeepsInv(s, step);
    case FireHook(_) => HookKeepsInv(s, step);
    case RunHook(_) => HookKeepsInv(s, step);
    case _ => CallKeepsInv(s, step);
  }

  lemma {:induction false} RunKeepsInv(s: State, steps: seq<Step>)
    requires Inv(s) && CanRun(s, steps)
    ensures Inv(Run(s, steps))
    decreases |steps|
  {
    if steps == [] {
    } else {
      StepKeepsInv(s, steps[0]);
      RunKeepsInv(Apply(s, steps[0]), steps[1..]);
    }
  }

  // ----- safety over every interleaving

  lemma ReachableIsSafe(steps: seq<Step>)
    requires CanRun(INIT, steps)
    ensures var s := Run(INIT, steps);
            && |s.serves| <= 1
            && s.doneCloses <= 1
            && (forall g <- s.callers, h <- s.callers ::
                  InCriticalSection(s.callers[g]) && InCriticalSection(s.callers[h]) ==> g == h)
            && (forall g <- s.callers :: s.callers[g].StopReturned? ==>
                  |s.serves| == 1 && s.serves[0].point.Exited? && s.doneCloses == 1)
            && (forall g <- s.callers :: s.callers[g] == StartReturned(Started) ==> |s.serves| == 1)
            && (forall g <- s.callers :: s.callers[g] == StartReturned(AlreadyClosed) ==> s.closed)
            && HooksCurrent(s)
  {
    RunKeepsInv(INIT, steps);
  }

  /** After the reader closed, a goroutine that calls Start later can only be turned away. */
  predicate TurnedAway(s: State, g: Goroutine) {
    s.closed && (g in s.callers ==>
      match s.callers[g]
      case StartLock(_) => true
      case StartCheckClosed(_) => true
      case StartUnlock(r) => r.AlreadyClosed?
      case StartReturned(r) => r.AlreadyClosed?
      case _ => false)
  }

  lemma {:induction false} TurnedAwayOverRun(s: State, steps: seq<Step>, g: Goroutine)
    requires TurnedAway(s, g) && CanRun(s, steps)
    requires forall i | 0 <= i < |steps| :: steps[i] != CallShutdown(g)
    ensures TurnedAway(Run(s, steps), g)
    decreases |steps|
  {
    if steps == [] {
    } else {
      assert TurnedAway(Apply(s, steps[0]), g);
      TurnedAwayOverRun(Apply(s, steps[0]), steps[1..], g);
    }
  }

  /** Once some Shutdown has returned, every Start called from then on fails. */
  lemma StartAfterShutdownFails(before: seq<Step>, after: seq<Step>, stopper: Goroutine, starter: Goroutine)
    requires CanRun(INIT, before) && CanRun(Run(INIT, before), after)
    requires stopper in Run(INIT, before).callers && Run(INIT, before).callers[stopper].StopReturned?
    requires starter !in Run(INIT, before).callers
    requires starter in Run(Run(INIT, before), after).callers
    requires Run(Run(INIT, before), after).callers[starter].StartReturned?
    ensures Run(Run(INIT, before), after).callers[starter].result == AlreadyClosed
  {
    var s := Run(INIT, before);
    RunKeepsInv(INIT, before);
    if i :| 0 <= i < |after| && after[i] == CallShutdown(starter) {
      ShutdownCallerNeverStarts(s, after, i, starter);
    } else {
      TurnedAwayOverRun(s, after, starter);
    }
  }

  lemma ShutdownCallerStep(s: State, step: Step, g: Goroutine)
    requires g in s.callers && IsShutdownCall(s.callers[g]) && Enabled(s, step)
    ensures g in Apply(s, step).callers && IsShutdownCall(Apply(s, step).callers[g])
  {
    if step == Caller(g) {
      assert Apply(s, step).callers[g] == MoveCaller(s, g).callers[g];
    }
  }

  lemma {:induction false} ShutdownCallerStays(s: State, steps: seq<Step>, g: Goroutine)
    requires g in s.callers && IsShutdownCall(s.callers[g]) && CanRun(s, steps)
    ensures g in Run(s, steps).callers && IsShutdownCall(Run(s, steps).callers[g])
    decreases |steps|
  {
    if steps == [] {
    } else {
      ShutdownCallerStep(s, steps[0], g);
      ShutdownCallerStays(Apply(s, steps[0]), steps[1..], g);
    }
  }

  lemma {:induction false} ShutdownCallerNeverStarts(s: State, steps: seq<Step>, i: nat, g: Goroutine)
    requires CanRun(s, steps) && i < |steps| && steps[i] == CallShutdown(g)
    ensures g in Run(s, steps).callers && IsShutdownCall(Run(s, steps).callers[g])
    decreases |steps|
  {
    if i == 0 {
      ShutdownCallerStays(Apply(s, steps[0]), steps[1..], g);
    } else {
      ShutdownCallerNeverStarts(Apply(s, steps[0]), steps[1..], i - 1, g);
    }
  }

  // ----- progress of Shutdown

  predicate PastListen(p: ServePoint) {
    p.Unregister? || p.Select? || p.CloseDone? || p.Exited?
  }

  /** The serve goroutine exists, and its context is done or it is not going to listen in this round. */
  predicate Freed(s: State) {
    |s.serves| == 1 && (s.serves[0].ctx in s.doneContexts || PastListen(s.serves[0].point))
  }

  /** Shutdown of `g` is past cancelling, and the serve goroutine is free to exit. */
  ghost predicate WindingDown(s: State, g: Goroutine) {
    && Inv(s)
    && Freed(s) && s.cancelled
    && g in s.callers
    && (s.callers[g].StopWait? || s.callers[g].StopUnlock? || s.callers[g].StopReturned?)
  }

  /** The timer does not win a select that could lead back to listening for ever. */
  ghost predicate TimerHarmless(s: State, steps: seq<Step>)
    requires |s.serves| == 1
  {
    s.serves[0].ctx in s.doneContexts || forall i | 0 <= i < |steps| :: !steps[i].Retry?
  }

  function HookRank(h: Hook): nat {
    match h
    case Armed => 2
    case Running => 1
    case _ => 0
  }

  function ServeRank(s: State): nat
    requires |s.serves| == 1 && ServesBusy(s)
  {
    var v := s.serves[0];
    match v.point
    case NewServer => 8
    case Register => 7
    case Listen => 4 + HookRank(s.servers[v.server].hook)
    case Unregister => 3
    case Select => 2
    case CloseDone => 1
    case Exited => 0
  }

  function StopRank(p: CallerPoint): nat {
    match p
    case StopWait => 2
    case StopUnlock => 1
    case _ => 0
  }

  /** How far the serve goroutine and the waiting Shutdown are from their ends. */
  ghost function Rank(s: State, g: Goroutine): nat
    requires WindingDown(s, g)
  {
    ServeRank(s) + StopRank(s.callers[g])
  }

  /** A step of the serve goroutine, of the hook of its current server, or of the waiting Shutdown. */
  predicate Relevant(s: State, step: Step, g: Goroutine)
    requires |s.serves| == 1
  {
    match step
    case Caller(h) => h == g
    case ServeMove(_) => true
    case FireHook(k) => s.serves[0].point.Listen? && k == s.serves[0].server
    case RunHook(k) => s.serves[0].point.Listen? && k == s.serves[0].server
    case _ => false
  }

  ghost predicate LowersRank(s: State, step: Step, g: Goroutine)
    requires WindingDown(s, g) && Enabled(s, step)
  {
    && WindingDown(Apply(s, step), g)
    && Rank(Apply(s, step), g) + (if Relevant(s, step, g) then 1 else 0) <= Rank(s, g) + (if step.Retry? then 6 else 0)
  }

  lemma CallerLowersRank(s: State, h: Goroutine, g: Goroutine)
    requires WindingDown(s, g) && Enabled(s, Caller(h))
    ensures LowersRank(s, Caller(h), g)
  {
    StepKeepsInv(s, Caller(h));
  }

  lemma ServeLowersRank(s: State, i: nat, g: Goroutine)
    requires WindingDown(s, g) && Enabled(s, ServeMove(i))
    ensures LowersRank(s, ServeMove(i), g)
  {
    StepKeepsInv(s, ServeMove(i));
  }

  lemma StepLowersRank(s: State, step: Step, g: Goroutine)
    requires WindingDown(s, g) && Enabled(s, step)
    requires step.Retry? ==> s.serves[0].ctx in s.doneContexts
    ensures LowersRank(s, step, g)
  {
    match step
    case Caller(h) => CallerLowersRank(s, h, g);
    case ServeMove(i) => ServeLowersRank(s, i, g);
    case _ => StepKeepsInv(s, step);
  }

  lemma DoneContextsGrow(s: State, step: Step)
    requires Enabled(s, step)
    ensures s.doneContexts <= Apply(s, step).doneContexts
  {
  }

  ghost predicate SameStartContext(s: State, t: State) {
    |s.serves| >= 1 && |t.serves| >= 1 && t.serves[0].ctx == s.serves[0].ctx
  }

  lemma ServeKeepsStartContext(s: State, i: nat)
    requires |s.serves| >= 1 && Enabled(s, ServeMove(i))
    ensures SameStartContext(s, Apply(s, ServeMove(i)))
  {
  }

  lemma CallerKeepsStartContext(s: State, g: Goroutine)
    requires |s.serves| >= 1 && Enabled(s, Caller(g))
    ensures SameStartContext(s, Apply(s, Caller(g)))
  {
  }

  lemma StartContextStays(s: State, step: Step)
    requires |s.serves| >= 1 && Enabled(s, step)
    ensures SameStartContext(s, Apply(s, step))
  {
    match step
    case Caller(g) => CallerKeepsStartContext(s, g);
    case ServeMove(i) => ServeKeepsStartContext(s, i);
    case _ =>
  }

  lemma HarmlessRest(s: State, steps: seq<Step>, g: Goroutine)
    requires WindingDown(s, g) && CanRun(s, steps) && TimerHarmless(s, steps) && steps != []
    ensures LowersRank(s, steps[0], g)
    ensures TimerHarmless(Apply(s, steps[0]), steps[1..])
  {
    StepLowersRank(s, steps[0], g);
    StartContextStays(s, steps[0]);
    DoneContextsGrow(s, steps[0]);
  }

  function Retries(steps: seq<Step>): nat {
    if steps == [] then 0 else (if steps[0].Retry? then 1 else 0) + Retries(steps[1..])
  }

  ghost function RelevantSteps(s: State, steps: seq<Step>, g: Goroutine): nat
    requires WindingDown(s, g) && CanRun(s, steps) && TimerHarmless(s, steps)
    decreases |steps|
  {
    if steps == [] then 0
    else
      HarmlessRest(s, steps, g);
      (if Relevant(s, steps[0], g) then 1 else 0) + RelevantSteps(Apply(s, steps[0]), steps[1..], g)
  }

  /**
   Whatever else runs in between, the serve goroutine, its hook and the waiting Shutdown take
   at most ten steps, and six more for each time the timer wins the select.
   */
  lemma {:induction false} RankBoundsRun(s: State, steps: seq<Step>, g: Goroutine)
    requires WindingDown(s, g) && CanRun(s, steps) && TimerHarmless(s, steps)
    ensures WindingDown(Run(s, steps), g)
    ensures RelevantSteps(s, steps, g) + Rank(Run(s, steps), g) <= Rank(s, g) + 6 * Retries(steps)
    ensures Rank(s, g) <= 10
    decreases |steps|
  {
    if steps == [] {
    } else {
      HarmlessRest(s, steps, g);
      RankBoundsRun(Apply(s, steps[0]), steps[1..], g);
    }
  }

  /** Steps that must be taken in the end: ListenAndServe is bound to return only once its server is shut. */
  predicate Due(s: State, step: Step) {
    Enabled(s, step) && !step.Retry? &&
    (step.ServeMove? && s.serves[step.i].point.Listen? ==> s.servers[s.serves[step.i].server].shut)
  }

  /** A step with no help from outside: no server fails by itself, and the context given to Start stays as it is. */
  predicate Unaided(s: State, step: Step)
    requires Enabled(s, step)
  {
    && (step.ServeMove? && s.serves[step.i].point.Listen? ==> s.servers[s.serves[step.i].server].shut)
    && (step.EndContext? ==> forall i | 0 <= i < |s.serves| :: s.serves[i].ctx != step.ctx)
  }

  predicate UnaidedRun(s: State, steps: seq<Step>)
    requires CanRun(s, steps)
    decreases |steps|
  {
    steps == [] || (Unaided(s, steps[0]) && UnaidedRun(Apply(s, steps[0]), steps[1..]))
  }

  /** The step that is due while Shutdown has not returned. */
  ghost function DueStep(s: State, g: Goroutine): (step: Step)
    requires WindingDown(s, g) && !s.callers[g].StopReturned?
    ensures Due(s, step) && Relevant(s, step, g) && Unaided(s, step)
  {
    var v := s.serves[0];
    if v.point.Exited? then Caller(g)
    else if v.point.Listen? then
      var hook := s.servers[v.server].hook;
      if hook.Armed? then FireHook(v.server) else if hook.Running? then RunHook(v.server) else ServeMove(0)
    else ServeMove(0)
  }

  /** Every run takes boundedly many relevant steps, and one with none left to take has let Shutdown return. */
  lemma ShutdownProgress(s: State, steps: seq<Step>, g: Goroutine)
    requires WindingDown(s, g) && CanRun(s, steps) && TimerHarmless(s, steps)
    ensures WindingDown(Run(s, steps), g)
    ensures RelevantSteps(s, steps, g) <= 10 + 6 * Retries(steps)
    ensures var t := Run(s, steps);
            (forall step :: Due(t, step) ==> !Relevant(t, step, g)) ==>
              t.callers[g].StopReturned? && t.doneCloses == 1 && t.serves[0].point.Exited?
  {
    RankBoundsRun(s, steps, g);
    var t := Run(s, steps);
    if !t.callers[g].StopReturned? {
      var step := DueStep(t, g);
    }
  }

  /** The run that takes due steps only. */
  ghost function WindDown(s: State, g: Goroutine): (steps: seq<Step>)
    requires WindingDown(s, g)
    ensures CanRun(s, steps)
    ensures g in Run(s, steps).callers && Run(s, steps).callers[g].StopReturned?
    ensures |steps| <= Rank(s, g)
    ensures UnaidedRun(s, steps)
    decreases Rank(s, g)
  {
    if s.callers[g].StopReturned? then []
    else
      var step := DueStep(s, g);
      StepLowersRank(s, step, g);
      [step] + WindDown(Apply(s, step), g)
  }

  predicate ShutdownHasReturned(s: State, g: Goroutine) {
    g in s.callers && s.callers[g].StopReturned?
  }

  ghost predicate CanReturn(s: State, g: Goroutine) {
    exists more :: CanRun(s, more) && ShutdownHasReturned(Run(s, more), g)
  }

  /** The same with no help from outside. */
  ghost predicate CanReturnUnaided(s: State, g: Goroutine) {
    exists more :: CanRun(s, more) && UnaidedRun(s, more) && ShutdownHasReturned(Run(s, more), g)
  }

  // ----- Shutdown that waits for ever

  /** Nobody who had not returned before has returned since. */
  ghost predicate NobodyReturned(s: State, t: State) {
    forall h <- t.callers :: HasReturned(t.callers[h]) ==> h in s.callers && HasReturned(s.callers[h])
  }

  /** Shutdown of `g` waits, mutex held, for a serve goroutine that does not exist. */
  ghost predicate Stuck(s: State, g: Goroutine) {
    && Inv(s) && !s.started && s.mu == Some(g)
    && g in s.callers && s.callers[g].StopWait?
  }

  lemma {:induction false} StuckForever(s: State, steps: seq<Step>, g: Goroutine)
    requires Stuck(s, g) && CanRun(s, steps)
    ensures Stuck(Run(s, steps), g) && NobodyReturned(s, Run(s, steps))
    decreases |steps|
  {
    if steps == [] {
    } else {
      StepKeepsInv(s, steps[0]);
      StuckForever(Apply(s, steps[0]), steps[1..], g);
    }
  }

  /** Shutdown of `g` waits, mutex held, and no serve goroutine is free to exit. */
  ghost predicate Blocked(s: State, g: Goroutine) {
    && Inv(s) && !Freed(s) && s.mu == Some(g)
    && g in s.callers && s.callers[g].StopWait?
  }

  lemma BlockedServeStep(s: State, i: nat, g: Goroutine)
    requires Blocked(s, g) && Enabled(s, ServeMove(i)) && Unaided(s, ServeMove(i))
    ensures Blocked(Apply(s, ServeMove(i)), g) && NobodyReturned(s, Apply(s, ServeMove(i)))
  {
    StepKeepsInv(s, ServeMove(i));
  }

  lemma BlockedStep(s: State, step: Step, g: Goroutine)
    requires Blocked(s, g) && Enabled(s, step) && Unaided(s, step)
    ensures Blocked(Apply(s, step), g) && NobodyReturned(s, Apply(s, step))
  {
    match step
    case ServeMove(i) => BlockedServeStep(s, i, g);
    case _ => StepKeepsInv(s, step);
  }

  lemma {:induction false} BlockedForever(s: State, steps: seq<Step>, g: Goroutine)
    requires Blocked(s, g) && CanRun(s, steps) && UnaidedRun(s, steps)
    ensures Blocked(Run(s, steps), g) && NobodyReturned(s, Run(s, steps))
    decreases |steps|
  {
    if steps == [] {
    } else {
      BlockedStep(s, steps[0], g);
      BlockedForever(Apply(s, steps[0]), steps[1..], g);
    }
  }

  predicate Waits(s: State, g: Goroutine) {
    g in s.callers && s.callers[g].StopWait?
  }

  lemma FreedCanReturn(s: State, g: Goroutine)
    requires WindingDown(s, g)
    ensures CanReturnUnaided(s, g)
  {
    var more := WindDown(s, g);
    assert CanRun(s, more) && ShutdownHasReturned(Run(s, more), g);
  }

  lemma BlockedCannotReturn(s: State, g: Goroutine)
    requires Blocked(s, g)
    ensures !CanReturnUnaided(s, g)
  {
    forall more | CanRun(s, more) && UnaidedRun(s, more)
      ensures !ShutdownHasReturned(Run(s, more), g)
    {
      BlockedForever(s, more, g);
    }
  }

  /**
   A waiting Shutdown can return without help from outside if and only if the context given to Start
   is done or the serve goroutine is past listening in its current round. If not, neither this nor
   any other call in progress or made later ever returns.
   */
  lemma ShutdownReturnsIffFreed(before: seq<Step>, g: Goroutine)
    requires CanRun(INIT, before) && Waits(Run(INIT, before), g)
    ensures var s := Run(INIT, before);
            && (Freed(s) <==> CanReturnUnaided(s, g))
            && (if Freed(s) then WindingDown(s, g) else Blocked(s, g))
  {
    var s := Run(INIT, before);
    RunKeepsInv(INIT, before);
    if Freed(s) {
      FreedCanReturn(s, g);
    } else {
      BlockedCannotReturn(s, g);
    }
  }

  // ----- Shutdown that returns whatever happens

  /** The serve goroutine exits even if the timer wins a select: its context is done, or it has left the loop. */
  predicate BoundToExit(s: State) {
    |s.serves| == 1 && (s.serves[0].ctx in s.doneContexts || s.serves[0].point.CloseDone? || s.serves[0].point.Exited?)
  }

  lemma BoundStays(s: State, step: Step, g: Goroutine)
    requires WindingDown(s, g) && BoundToExit(s) && Enabled(s, step)
    ensures WindingDown(Apply(s, step), g) && BoundToExit(Apply(s, step))
  {
    StepLowersRank(s, step, g);
    StartContextStays(s, step);
    DoneContextsGrow(s, step);
  }

  lemma {:induction false} BoundOverRun(s: State, steps: seq<Step>, g: Goroutine)
    requires WindingDown(s, g) && BoundToExit(s) && CanRun(s, steps)
    ensures WindingDown(Run(s, steps), g) && BoundToExit(Run(s, steps))
    ensures TimerHarmless(s, steps)
    decreases |steps|
  {
    if steps == [] {
    } else {
      var t := Apply(s, steps[0]);
      BoundStays(s, steps[0], g);
      BoundOverRun(t, steps[1..], g);
      if s.serves[0].ctx !in s.doneContexts {
        LeftTheLoop(s, steps, g);
      }
    }
  }

  /** Once the serve goroutine has left the loop no timer can win. */
  lemma {:induction false} LeftTheLoop(s: State, steps: seq<Step>, g: Goroutine)
    requires WindingDown(s, g) && CanRun(s, steps)
    requires s.serves[0].point.CloseDone? || s.serves[0].point.Exited?
    ensures forall i | 0 <= i < |steps| :: !steps[i].Retry?
    decreases |steps|
  {
    if steps == [] {
    } else {
      var t := Apply(s, steps[0]);
      BoundStays(s, steps[0], g);
      assert t.serves[0].point.CloseDone? || t.serves[0].point.Exited?;
      LeftTheLoop(t, steps[1..], g);
      assert forall i | 0 < i < |steps| :: steps[i] == steps[1..][i - 1];
    }
  }

  /** With a live context, losing the select to the timer leads back to listening for ever. */
  lemma RetryBlocks(s: State, g: Goroutine)
    requires WindingDown(s, g) && Waits(s, g) && !BoundToExit(s) && s.serves[0].point.Select?
    ensures Enabled(s, Retry(0)) && Unaided(s, Retry(0)) && Blocked(Apply(s, Retry(0)), g)
  {
    StepKeepsInv(s, Retry(0));
  }

  /** A run without help from outside after which Shutdown waits for ever. */
  lemma MayBlock(s: State, g: Goroutine) returns (more: seq<Step>)
    requires WindingDown(s, g) && Waits(s, g) && !BoundToExit(s)
    ensures CanRun(s, more) && UnaidedRun(s, more) && Blocked(Run(s, more), g)
  {
    if s.serves[0].point.Select? {
      RetryBlocks(s, g);
      more := [Retry(0)];
      assert more[1..] == [];
    } else {
      var t := Apply(s, ServeMove(0));
      StepKeepsInv(s, ServeMove(0));
      RetryBlocks(t, g);
      more := [ServeMove(0), Retry(0)];
      assert more[1..] == [Retry(0)] && more[1..][1..] == [];
      assert CanRun(t, more[1..]) && UnaidedRun(t, more[1..]);
    }
  }

  /** If these steps happen without help from outside, Shutdown can still return. */
  ghost predicate CanReturnAfter(s: State, g: Goroutine, more: seq<Step>) {
    CanRun(s, more) && UnaidedRun(s, more) ==> CanReturnUnaided(Run(s, more), g)
  }

  /**
   A waiting Shutdown keeps being able to return, whatever happens without help from outside, if and
   only if the context given to Start is done or the serve goroutine has left its loop.
   */
  lemma ShutdownSurelyReturnsIff(before: seq<Step>, g: Goroutine)
    requires CanRun(INIT, before) && Waits(Run(INIT, before), g)
    ensures var s := Run(INIT, before);
            BoundToExit(s) <==> forall more :: CanReturnAfter(s, g, more)
  {
    var s := Run(INIT, before);
    ShutdownReturnsIffFreed(before, g);
    if BoundToExit(s) {
      forall more
        ensures CanReturnAfter(s, g, more)
      {
        if CanRun(s, more) {
          BoundOverRun(s, more, g);
          FreedCanReturn(Run(s, more), g);
        }
      }
    } else if Freed(s) {
      var more := MayBlock(s, g);
      BlockedCannotReturn(Run(s, more), g);
      assert !CanReturnAfter(s, g, more);
    } else {
      assert !CanReturnAfter(s, g, []);
    }
  }

  /** If so, every run whatsoever is short, and one with nothing left to take has let Shutdown return. */
  lemma BoundShutdownReturns(before: seq<Step>, g: Goroutine, steps: seq<Step>)
    requires CanRun(INIT, before) && Waits(Run(INIT, before), g) && BoundToExit(Run(INIT, before))
    requires CanRun(Run(INIT, before), steps)
    ensures var s := Run(INIT, before);
            var t := Run(s, steps);
            && WindingDown(s, g) && TimerHarmless(s, steps)
            && RelevantSteps(s, steps, g) <= 10 + 6 * Retries(steps)
            && |t.serves| == 1
            && ((forall step :: Due(t, step) ==> !Relevant(t, step, g)) ==>
                  g in t.callers && t.callers[g].StopReturned?)
  {
    ShutdownReturnsIffFreed(before, g);
    BoundOverRun(Run(INIT, before), steps, g);
    ShutdownProgress(Run(INIT, before), steps, g);
  }

  /** Ending the context given to Start lets a waiting Shutdown return. */
  lemma StartedCanReturn(s: State, g: Goroutine)
    requires Inv(s) && s.started && g in s.callers && s.callers[g].StopWait?
    ensures CanReturn(s, g)
  {
    var end := EndContext(s.serves[0].ctx);
    var t := Apply(s, end);
    StepKeepsInv(s, end);
    var rest := WindDown(t, g);
    var more := [end] + rest;
    assert more[0] == end && more[1..] == rest;
    assert CanRun(s, more) && ShutdownHasReturned(Run(s, more), g);
  }

  /** With help from outside a waiting Shutdown can return if and only if the reader was started. */
  lemma ShutdownCanReturnIffStarted(before: seq<Step>, g: Goroutine)
    requires CanRun(INIT, before) && Waits(Run(INIT, before), g)
    ensures var s := Run(INIT, before);
            && (s.started <==> CanReturn(s, g))
            && (!s.started ==> Stuck(s, g))
  {
    var s := Run(INIT, before);
    RunKeepsInv(INIT, before);
    if s.started {
      StartedCanReturn(s, g);
    } else {
      forall more | CanRun(s, more)
        ensures !ShutdownHasReturned(Run(s, more), g)
      {
        StuckForever(s, more, g);
      }
    }
  }

  // ----- both ways to wait for ever do occur

  ghost predicate Reachable(s: State) {
    exists steps :: CanRun(INIT, steps) && Run(INIT, steps) == s
  }

  lemma {:induction false} RunOneMore(s: State, steps: seq<Step>, step: Step)
    requires CanRun(s, steps) && Enabled(Run(s, steps), step)
    ensures CanRun(s, steps + [step]) && Run(s, steps + [step]) == Apply(Run(s, steps), step)
    decreases |steps|
  {
    if steps == [] {
      assert (steps + [step])[1..] == [];
    } else {
      RunOneMore(Apply(s, steps[0]), steps[1..], step);
      assert (steps + [step])[1..] == steps[1..] + [step];
    }
  }

  lemma ReachableNext(s: State, step: Step)
    requires Reachable(s) && Enabled(s, step)
    ensures Reachable(Apply(s, step))
  {
    var steps :| CanRun(INIT, steps) && Run(INIT, steps) == s;
    RunOneMore(INIT, steps, step);
    assert Run(INIT, steps + [step]) == Apply(s, step);
  }

  // The same goroutine taking several steps in a row.

  predicate CanRepeat(s: State, step: Step, n: nat)
    decreases n
  {
    n == 0 || (Enabled(s, step) && CanRepeat(Apply(s, step), step, n - 1))
  }

  function Repeat(s: State, step: Step, n: nat): State
    requires CanRepeat(s, step, n)
    decreases n
  {
    if n == 0 then s else Repeat(Apply(s, step), step, n - 1)
  }

  lemma {:induction false} ReachableAfter(s: State, step: Step, n: nat)
    requires Reachable(s) && CanRepeat(s, step, n)
    ensures Reachable(Repeat(s, step, n))
    decreases n
  {
    if n == 0 {
    } else {
      ReachableNext(s, step);
      ReachableAfter(Apply(s, step), step, n - 1);
    }
  }

  lemma InitIsReachable()
    ensures Reachable(INIT)
  {
    assert CanRun(INIT, []) && Run(INIT, []) == INIT;
  }

  lemma ReachableHasInv(s: State)
    requires Reachable(s)
    ensures Inv(s)
  {
    var steps :| CanRun(INIT, steps) && Run(INIT, steps) == s;
    RunKeepsInv(INIT, steps);
  }

  /** A call of Shutdown that finds the mutex free and the reader open, `n` statements on. */
  lemma ShutdownGoesOn(s: State, g: Goroutine, n: nat) returns (t: State)
    requires Reachable(s) && s.mu.None? && !s.closed && g !in s.callers && n <= 4
    ensures Reachable(t) && g in t.callers
    ensures t.callers[g] == [StopLock, StopCheckClosed, StopMark, StopCancel, StopWait][n]
    ensures t.mu == if n == 0 then None else Some(g)
    ensures t.closed <==> n >= 3
    ensures t.started == s.started && t.serves == s.serves && t.doneContexts == s.doneContexts
  {
    if n == 0 {
      ReachableNext(s, CallShutdown(g));
      t := Apply(s, CallShutdown(g));
    } else {
      var u := ShutdownGoesOn(s, g, n - 1);
      ReachableNext(u, Caller(g));
      t := Apply(u, Caller(g));
    }
  }

  lemma ShutdownComesToWait(s: State, g: Goroutine) returns (t: State)
    requires Reachable(s) && s.mu.None? && !s.closed && g !in s.callers
    ensures Reachable(t) && Inv(t) && t.mu == Some(g) && Waits(t, g)
    ensures t.started == s.started && t.serves == s.serves && t.doneContexts == s.doneContexts
  {
    t := ShutdownGoesOn(s, g, 4);
    ReachableHasInv(t);
  }

  /** Shutdown of a reader that was never started. */
  lemma NeverStartedWaits() returns (s: State)
    ensures Reachable(s) && Stuck(s, 0)
  {
    InitIsReachable();
    s := ShutdownComesToWait(INIT, 0);
  }

  /** A first Start returns. */
  lemma StartComesToReturn(ctx: Context) returns (s: State)
    ensures Reachable(s) && s.mu.None? && s.started && !s.closed && s.callers.Keys == {0} && s.doneContexts == {}
    ensures s.serves == [Serve(NewServer, ctx, 0)] && s.servers == []
  {
    var called := Apply(INIT, CallStart(0, ctx));
    InitIsReachable();
    ReachableNext(INIT, CallStart(0, ctx));
    ReachableAfter(called, Caller(0), 6);
    s := Repeat(called, Caller(0), 6);
  }

  /** A first Start, and its serve goroutine `n` statements on. */
  lemma ServeGoesOn(ctx: Context, n: nat) returns (s: State)
    requires n <= 4
    ensures Reachable(s) && s.mu.None? && s.started && !s.closed && s.callers.Keys == {0} && s.doneContexts == {}
    ensures |s.serves| == 1 && s.serves[0].ctx == ctx
    ensures s.serves[0].point == [NewServer, Register, Listen, Unregister, Select][n]
    ensures if n == 0 then s.servers == [] else |s.servers| == 1 && s.serves[0].server == 0
  {
    if n == 0 {
      s := StartComesToReturn(ctx);
    } else {
      var t := ServeGoesOn(ctx, n - 1);
      ReachableNext(t, ServeMove(0));
      s := Apply(t, ServeMove(0));
    }
  }

  /** Shutdown of a reader whose server is listening while the context given to Start is live. */
  lemma LiveContextWaits(ctx: Context) returns (s: State)
    ensures Reachable(s) && s.started && Blocked(s, 1)
  {
    s := ServeGoesOn(ctx, 2);
    s := ShutdownComesToWait(s, 1);
  }

  /** A waiting Shutdown that could return, until the timer wins the select and the server listens again. */
  lemma TimerSendsBack(ctx: Context) returns (s: State)
    ensures Reachable(s) && Waits(s, 1) && Freed(s) && !BoundToExit(s) && CanReturnUnaided(s, 1)
    ensures Enabled(s, Retry(0)) && Unaided(s, Retry(0)) && Blocked(Apply(s, Retry(0)), 1)
  {
    s := ServeGoesOn(ctx, 4);
    s := ShutdownComesToWait(s, 1);
    FreedCanReturn(s, 1);
    RetryBlocks(s, 1);
  }
}
