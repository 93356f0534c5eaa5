/**
 The teardown protocol of the lazily built native embedder: calls register before they
 touch it, the first one that needs it builds it under the load mutex, building spawns a
 background re-index, and Close refuses new calls, waits for the registered ones and only
 then destroys it. Each critical section is one atomic step; a run is any sequence of
 actions by any number of threads.
 */
module LazyKnowledge {
  type Tid = nat

  datatype Embedder = Unbuilt | Live | Destroyed

  datatype Pc =
    | Idle
    | OnStore        // registered; a delete or listing that needs no model
    | WantsLoad      // registered; about to take the load mutex
    | InLoad         // registered; holds the load mutex
    | Building       // registered; holds the load mutex, inside the native constructor
    | Using          // registered; inside the embedder
    | Ending         // registered; about to end
    | Draining       // Close: refuses new calls, waits for the registered ones
    | Drained        // Close: the wait succeeded, about to destroy
  {
    predicate Registered() { OnStore? || WantsLoad? || InLoad? || Building? || Using? || Ending? }
    predicate HoldsLoad() { InLoad? || Building? }
    predicate Closing() { Draining? || Drained? }
  }

  datatype Holder = Free | By(tid: Tid)

  type Procs = map<Tid, Pc>

  function At(procs: Procs, t: Tid): Pc { if t in procs then procs[t] else Idle }

  /** `spawned` counts background re-indexes that have not begun; `builds` and `destroys`
      count the calls into the native constructor and destructor; `gaveUp` records a Close
      whose wait timed out. */
  datatype State = State(
    closed: bool, inFlight: nat, loader: Holder, embedder: Embedder, loadFailed: bool, gaveUp: bool,
    spawned: nat, builds: nat, destroys: nat, procs: Procs)
  {
    function Go(t: Tid, pc: Pc): State { this.(procs := procs[t := pc]) }
    /** Leave load(): unlock and go on. */
    function Unlock(t: Tid, pc: Pc): State { this.(loader := Free).Go(t, pc) }
  }

  const INIT := State(false, 0, Free, Unbuilt, false, false, 0, 0, 0, map[])

  datatype Action =
    | Begin(t: Tid, needsModel: bool)   // begin() of a call
    | BeginBackfill(t: Tid)             // begin() of the background re-index
    | LockLoad(t: Tid)                  // loadMu.Lock() in load()
    | CheckLoad(t: Tid, assets: bool)   // the checks of load(), up to the constructor
    | Build(t: Tid, ok: bool)           // the constructor returns
    | Return(t: Tid)                    // the work of a call is done
    | End(t: Tid)                       // end()
    | Close(t: Tid)
    | DrainDone(t: Tid)
    | DrainTimeout(t: Tid)
    | Destroy(t: Tid)

  function Step(s: State, a: Action): State {
    var pc := At(s.procs, a.t);
    match a
    case Begin(t, needsModel) =>
      if !pc.Idle? || s.closed then s
      else s.(inFlight := s.inFlight + 1).Go(t, if needsModel then WantsLoad else OnStore)
    case BeginBackfill(t) =>
      if !pc.Idle? || s.spawned == 0 then s
      else if s.closed then s.(spawned := s.spawned - 1)
      else s.(spawned := s.spawned - 1, inFlight := s.inFlight + 1).Go(t, Using)
    case LockLoad(t) => if pc.WantsLoad? && s.loader.Free? then s.(loader := By(t)).Go(t, InLoad) else s
    case CheckLoad(t, assets) =>
      if !pc.InLoad? then s
      else if s.embedder != Unbuilt then s.Unlock(t, Using)
      else if s.loadFailed || !assets then s.Unlock(t, Ending)
      else s.(builds := s.builds + 1).Go(t, Building)
    case Build(t, ok) =>
      if !pc.Building? then s
      else if !ok then s.(loadFailed := true).Unlock(t, Ending)
      else s.(embedder := Live, spawned := s.spawned + 1).Unlock(t, Using)
    case Return(t) => if pc.Using? || pc.OnStore? then s.Go(t, Ending) else s
    case End(t) => if pc.Ending? && s.inFlight > 0 then s.(inFlight := s.inFlight - 1).Go(t, Idle) else s
    case Close(t) => if pc.Idle? && !s.closed then s.(closed := true).Go(t, Draining) else s
    case DrainDone(t) => if pc.Draining? && s.inFlight == 0 then s.Go(t, Pc.Drained) else s
    case DrainTimeout(t) => if pc.Draining? then s.(gaveUp := true).Go(t, Idle) else s
    case Destroy(t) =>
      if !pc.Drained? then s
      else if s.embedder == Unbuilt then s.Go(t, Idle)
      else s.(embedder := Destroyed, destroys := s.destroys + 1).Go(t, Idle)
  }

  function Run(s: State, actions: seq<Action>): State
    decreases |actions|
  {
    if actions == [] then s else Run(Step(s, actions[0]), actions[1..])
  }

  // ------------------------------------------------------------------ invariant

  function RegisteredSet(procs: Procs): set<Tid> { set t | t in procs && procs[t].Registered() }

  /** The wait group counts the registered calls. */
  ghost predicate Counts(s: State) { s.inFlight == |RegisteredSet(s.procs)| }

  /** The load mutex is held by exactly the thread inside load(). */
  ghost predicate Loads(s: State) { forall t :: At(s.procs, t).HoldsLoad() <==> s.loader == By(t) }

  /** The constructor's result is remembered either way, so it is entered at most once. */
  function Settled(s: State): nat { if s.embedder != Unbuilt || s.loadFailed then 1 else 0 }

  ghost predicate BuiltOnce(s: State) {
    && (s.loader.Free? ==> s.builds == Settled(s))
    && (forall t :: At(s.procs, t).InLoad? ==> s.builds == Settled(s))
    && (forall t :: At(s.procs, t).Building? ==> s.builds == 1 && Settled(s) == 0)
    && s.destroys == (if s.embedder == Destroyed then 1 else 0)
  }

  ghost predicate UsesLive(s: State) {
    && (forall t :: At(s.procs, t).Using? ==> s.embedder == Live)
    && (s.spawned > 0 ==> s.embedder != Unbuilt)
  }

  /** At most one Close gets past the flag; once it has drained, or given up, nothing runs
      that could undo it. */
  ghost predicate ClosesOnce(s: State) {
    && (!s.closed ==> s.embedder != Destroyed && !s.gaveUp && forall t :: !At(s.procs, t).Closing())
    && (forall t, u :: At(s.procs, t).Closing() && At(s.procs, u).Closing() ==> t == u)
    && (forall t :: At(s.procs, t).Closing() ==> s.embedder != Destroyed && !s.gaveUp)
  }

  ghost predicate ClosesAlone(s: State) {
    && (forall t :: At(s.procs, t).Drained? ==> s.inFlight == 0)
    && (s.embedder == Destroyed ==> s.inFlight == 0 && !s.gaveUp)
  }

  ghost predicate Inv(s: State) { Counts(s) && Loads(s) && BuiltOnce(s) && UsesLive(s) && ClosesOnce(s) && ClosesAlone(s) }

  lemma RegisteredAfter(before: Procs, after: Procs, t: Tid)
    requires forall u :: u != t ==> At(after, u) == At(before, u)
    ensures RegisteredSet(after) ==
            if At(after, t).Registered() then RegisteredSet(before) + {t} else RegisteredSet(before) - {t}
    ensures t in RegisteredSet(before) <==> At(before, t).Registered()
  {
    forall u ensures u in RegisteredSet(after) <==> At(after, u).Registered() {
    }
    forall u ensures u in RegisteredSet(before) <==> At(before, u).Registered() {
    }
  }

  lemma NoneRegistered(s: State)
    requires Counts(s) && s.inFlight == 0
    ensures forall t :: !At(s.procs, t).Registered()
  {
    forall t
      ensures !At(s.procs, t).Registered()
    {
      RegisteredAfter(s.procs, s.procs, t);
    }
  }

  lemma OthersStay(s: State, a: Action)
    ensures forall t :: t != a.t ==> At(Step(s, a).procs, t) == At(s.procs, t)
  {
  }

  /** The wait group moves with the thread's registration. */
  lemma StepRegisters(s: State, a: Action)
    requires At(s.procs, a.t).Ending? ==> s.inFlight > 0
    ensures Step(s, a).inFlight + Weight(At(s.procs, a.t)) == s.inFlight + Weight(At(Step(s, a).procs, a.t))
  {
  }

  function Weight(pc: Pc): nat { if pc.Registered() then 1 else 0 }

  lemma StepKeepsCounts(s: State, a: Action)
    requires Counts(s)
    ensures Counts(Step(s, a))
  {
    var s' := Step(s, a);
    hide Step, RegisteredSet;
    OthersStay(s, a);
    RegisteredAfter(s.procs, s'.procs, a.t);
    StepRegisters(s, a);
  }

  lemma StepKeepsLoads(s: State, a: Action)
    requires Loads(s)
    ensures Loads(Step(s, a))
  {
    OthersStay(s, a);
  }

  lemma StepKeepsBuiltOnce(s: State, a: Action)
    requires Inv(s)
    ensures BuiltOnce(Step(s, a))
  {
    OthersStay(s, a);
  }

  lemma StepKeepsUsesLive(s: State, a: Action)
    requires Inv(s)
    ensures UsesLive(Step(s, a))
  {
    OthersStay(s, a);
    if s.inFlight == 0 {
      NoneRegistered(s);
    }
  }

  lemma StepKeepsClosesOnce(s: State, a: Action)
    requires ClosesOnce(s)
    ensures ClosesOnce(Step(s, a))
  {
    OthersStay(s, a);
  }

  lemma StepKeepsClosesAlone(s: State, a: Action)
    requires ClosesOnce(s) && ClosesAlone(s) && UsesLive(s) && Counts(s) && Loads(s)
    ensures ClosesAlone(Step(s, a))
  {
    if s.inFlight == 0 {
      NoneRegistered(s);
    }
    hide Counts, RegisteredSet;
    OthersStay(s, a);
  }

  lemma StepKeepsInv(s: State, a: Action)
    requires Inv(s)
    ensures Inv(Step(s, a))
  {
    StepKeepsCounts(s, a);
    StepKeepsLoads(s, a);
    StepKeepsBuiltOnce(s, a);
    StepKeepsUsesLive(s, a);
    StepKeepsClosesOnce(s, a);
    StepKeepsClosesAlone(s, a);
  }

  lemma {:induction false} RunKeepsInv(s: State, actions: seq<Action>)
    requires Inv(s)
    ensures Inv(Run(s, actions))
    decreases |actions|
  {
    if actions != [] {
      StepKeepsInv(s, actions[0]);
      RunKeepsInv(Step(s, actions[0]), actions[1..]);
    }
  }

  // ------------------------------------------------------------------- theorems

  /** In every interleaving the constructor is entered at most once and the destructor at
      most once; a call inside the embedder finds it built and not destroyed; and when it
      is destroyed, or about to be, no call is registered. */
  lemma TeardownIsSafe(actions: seq<Action>, t: Tid)
    ensures var s := Run(INIT, actions);
            && s.builds <= 1 && s.destroys <= 1
            && (At(s.procs, t).Using? ==> s.embedder == Live)
            && (s.embedder == Destroyed || At(s.procs, t).Drained? ==>
                  s.closed && s.inFlight == 0 && forall u :: !At(s.procs, u).Registered())
            && (s.gaveUp ==> s.embedder != Destroyed)
  {
    RunKeepsInv(INIT, actions);
    var s := Run(INIT, actions);
    if s.inFlight == 0 {
      NoneRegistered(s);
    }
  }

  /** The step that destroys the embedder is a drained Close, with no call in flight. */
  lemma DestroyedOnlyWhenAlone(actions: seq<Action>, a: Action)
    ensures var s := Run(INIT, actions);
            Step(s, a).destroys > s.destroys ==>
              a.Destroy? && At(s.procs, a.t).Drained? && s.embedder == Live && s.inFlight == 0
              && forall u :: !At(s.procs, u).Registered()
  {
    RunKeepsInv(INIT, actions);
    var s := Run(INIT, actions);
    if s.inFlight == 0 {
      NoneRegistered(s);
    }
  }

  ghost predicate Over(s: State) { s.closed && s.inFlight == 0 }

  /** Once Close has drained nothing is ever built or used again. */
  lemma {:induction false} NothingAfterDrain(s: State, actions: seq<Action>)
    requires Inv(s) && Over(s)
    ensures var s' := Run(s, actions);
            Over(s') && s'.builds == s.builds && forall t :: !At(s'.procs, t).Registered()
    decreases |actions|
  {
    NoneRegistered(s);
    if actions != [] {
      StepKeepsInv(s, actions[0]);
      NothingAfterDrain(Step(s, actions[0]), actions[1..]);
    }
  }

  /** If the wait timed out the embedder is never destroyed, in any continuation. */
  lemma {:induction false} NeverDestroyedAfterTimeout(s: State, actions: seq<Action>)
    requires Inv(s) && s.gaveUp
    ensures Run(s, actions).gaveUp && Run(s, actions).destroys == 0
    decreases |actions|
  {
    if actions != [] {
      StepKeepsInv(s, actions[0]);
      NeverDestroyedAfterTimeout(Step(s, actions[0]), actions[1..]);
    }
  }

  // ------------------------------------------------------------------ single calls

  lemma RunFour(s: State, a: Action, b: Action, c: Action, d: Action)
    ensures Run(s, [a, b, c, d]) == Step(Step(Step(Step(s, a), b), c), d)
  {
    hide Step;
    var s1, s2, s3 := Step(s, a), Step(Step(s, a), b), Step(Step(Step(s, a), b), c);
    assert [a, b, c, d][1..] == [b, c, d] && [b, c, d][1..] == [c, d] && [c, d][1..] == [d];
    assert Run(s1, [b, c, d]) == Run(s2, [c, d]);
    assert Run(s3, [d]) == Step(s3, d);
  }

  /** How a call gets on that meets a free load mutex. */
  function CallSteps(t: Tid, needsModel: bool, assets: bool, ok: bool): seq<Action> {
    [Begin(t, needsModel), LockLoad(t), CheckLoad(t, assets), Build(t, ok)]
  }

  /** From every state with the load mutex free: a call on a closed environment changes
      nothing. On an open one it is registered; one that needs no model is at work, and one that
      needs it gets in exactly if the embedder is there, or none failed before, the assets are
      there and the build succeeds. A build happens exactly if it is needed and possible, its
      failure is remembered, and its success spawns exactly one re-index. */
  lemma CallGetsIn(s: State, t: Tid, needsModel: bool, assets: bool, ok: bool)
    requires At(s.procs, t).Idle? && s.loader.Free? && s.embedder != Destroyed
    ensures var after := Run(s, CallSteps(t, needsModel, assets, ok));
            var builds := needsModel && s.embedder == Unbuilt && !s.loadFailed && assets;
            if s.closed then after == s
            else
              && after.inFlight == s.inFlight + 1 && after.loader.Free? && !after.closed
              && At(after.procs, t) ==
                   (if !needsModel then OnStore else if s.embedder == Live || (builds && ok) then Using else Ending)
              && after.builds == s.builds + (if builds then 1 else 0)
              && after.embedder == (if builds && ok then Live else s.embedder)
              && after.loadFailed == (s.loadFailed || (builds && !ok))
              && after.spawned == s.spawned + (if builds && ok then 1 else 0)
              && after.destroys == s.destroys && after.gaveUp == s.gaveUp
  {
    RunFour(s, Begin(t, needsModel), LockLoad(t), CheckLoad(t, assets), Build(t, ok));
    CallBegins(s, t, needsModel);
    var begun := Step(Step(s, Begin(t, needsModel)), LockLoad(t));
    LoadEnds(begun, t, assets, ok);
    hide Step;
  }

  lemma CallBegins(s: State, t: Tid, needsModel: bool)
    requires At(s.procs, t).Idle? && s.loader.Free?
    ensures var after := Step(Step(s, Begin(t, needsModel)), LockLoad(t));
            if s.closed then after == s
            else
              && At(after.procs, t) == (if needsModel then InLoad else OnStore)
              && after == s.(inFlight := s.inFlight + 1, loader := if needsModel then By(t) else Free, procs := after.procs)
  {
  }

  lemma LoadEnds(s: State, t: Tid, assets: bool, ok: bool)
    requires !At(s.procs, t).Building? && s.embedder != Destroyed
    ensures var after := Step(Step(s, CheckLoad(t, assets)), Build(t, ok));
            var builds := s.embedder == Unbuilt && !s.loadFailed && assets;
            if !At(s.procs, t).InLoad? then after == s
            else
              && At(after.procs, t) == (if s.embedder == Live || (builds && ok) then Using else Ending)
              && after == s.(
                   loader := Free, procs := after.procs,
                   builds := s.builds + (if builds then 1 else 0),
                   embedder := if builds && ok then Live else s.embedder,
                   loadFailed := s.loadFailed || (builds && !ok),
                   spawned := s.spawned + (if builds && ok then 1 else 0))
  {
  }

  /** A call that is done is no longer registered, and leaves the rest as it is. */
  lemma CallIsDone(s: State, t: Tid)
    requires (At(s.procs, t).Using? || At(s.procs, t).OnStore?) && s.inFlight > 0
    ensures var after := Step(Step(s, Return(t)), End(t));
            At(after.procs, t).Idle? && after == s.(inFlight := s.inFlight - 1, procs := after.procs)
  {
  }

  /** A re-index that was spawned uses the embedder as a registered call, unless the
      environment was closed before it began; either way it is spent. */
  lemma ReindexBegins(s: State, t: Tid)
    requires At(s.procs, t).Idle? && s.spawned > 0
    ensures var after := Step(s, BeginBackfill(t));
            && after.spawned == s.spawned - 1
            && if s.closed then after == s.(spawned := s.spawned - 1)
               else At(after.procs, t).Using? && after == s.(spawned := s.spawned - 1, inFlight := s.inFlight + 1, procs := after.procs)
  {
  }

  ghost predicate SpawnedOnce(s: State) { s.spawned <= if s.embedder == Unbuilt then 0 else 1 }

  /** Over every run at most one re-index is ever waiting, and none before the build. */
  lemma {:induction false} AtMostOneReindex(s: State, actions: seq<Action>)
    requires Inv(s) && SpawnedOnce(s)
    ensures SpawnedOnce(Run(s, actions))
    decreases |actions|
  {
    if actions != [] {
      StepKeepsInv(s, actions[0]);
      StepKeepsSpawnedOnce(s, actions[0]);
      hide Step, Inv, SpawnedOnce;
      AtMostOneReindex(Step(s, actions[0]), actions[1..]);
    }
  }

  lemma StepKeepsSpawnedOnce(s: State, a: Action)
    requires Inv(s) && SpawnedOnce(s)
    ensures SpawnedOnce(Step(s, a))
  {
    hide Counts, Loads, ClosesOnce, ClosesAlone, UsesLive;
  }

  // -------------------------------------------------------------- the environment

  lemma {:induction false} OthersStayOver(s: State, t: Tid, actions: seq<Action>)
    requires forall i :: 0 <= i < |actions| ==> actions[i].t != t
    ensures At(Run(s, actions).procs, t) == At(s.procs, t)
    decreases |actions|
  {
    if actions != [] {
      OthersStay(s, actions[0]);
      OthersStayOver(Step(s, actions[0]), t, actions[1..]);
    }
  }

  datatype Closing = AlreadyClosed | Drained | GaveUp

  datatype Loaded = Usable | Unusable

  class Environment {
    var state: State

    ghost predicate Valid()
      reads this
    {
      Inv(state)
    }

    constructor ()
      ensures Valid() && state == INIT
    {
      state := INIT;
    }

    /** begin(): registers the call, unless the environment is closed. */
    method BeginCall(t: Tid, needsModel: bool) returns (ok: bool)
      requires Valid() && At(state.procs, t).Idle?
      modifies this
      ensures Valid() && state == Step(old(state), Begin(t, needsModel))
      ensures ok <==> !old(state).closed
      ensures ok <==> At(state.procs, t).Registered()
    {
      StepKeepsInv(state, Begin(t, needsModel));
      if state.closed {
        return false;
      }
      state := state.(inFlight := state.inFlight + 1).Go(t, if needsModel then WantsLoad else OnStore);
      return true;
    }

    method EndCall(t: Tid)
      requires Valid() && At(state.procs, t).Ending?
      modifies this
      ensures Valid() && state == Step(old(state), End(t))
      ensures state.inFlight == old(state).inFlight - 1 && !At(state.procs, t).Registered()
    {
      StepKeepsInv(state, End(t));
      RegisteredAfter(state.procs, state.procs, t);
      assert state.inFlight > 0;
      state := state.(inFlight := state.inFlight - 1).Go(t, Idle);
    }

    /** load(), from inside its mutex: `between` is what other threads do while the native
        constructor runs. It lets the caller in if and only if an embedder is there. */
    method Load(t: Tid, assets: bool, built: bool, between: seq<Action>) returns (r: Loaded)
      requires Valid() && At(state.procs, t).InLoad? && forall i :: 0 <= i < |between| ==> between[i].t != t
      modifies this
      ensures Valid() && state.loader != By(t)
      ensures r.Usable? ==> At(state.procs, t).Using? && state.embedder == Live
      ensures r.Unusable? ==> At(state.procs, t).Ending?
      ensures old(state).embedder == Live ==> r.Usable? && state.builds == old(state).builds
      ensures old(state).embedder == Unbuilt && (old(state).loadFailed || !assets) ==>
        r.Unusable? && state.embedder == Unbuilt && state.builds == old(state).builds
      ensures old(state).embedder == Unbuilt && !old(state).loadFailed && assets ==>
        state.builds == old(state).builds + 1 && (r.Usable? <==> built) && state.loadFailed == !built
    {
      StepKeepsInv(state, CheckLoad(t, assets));
      if state.embedder != Unbuilt {
        state := state.Unlock(t, Using);
        return Usable;
      }
      if state.loadFailed || !assets {
        state := state.Unlock(t, Ending);
        return Unusable;
      }
      state := state.(builds := state.builds + 1).Go(t, Building);
      RunKeepsInv(state, between);
      OthersStayOver(state, t, between);
      state := Run(state, between);
      StepKeepsInv(state, Build(t, built));
      if !built {
        state := state.(loadFailed := true).Unlock(t, Ending);
        return Unusable;
      }
      state := state.(embedder := Live, spawned := state.spawned + 1).Unlock(t, Using);
      return Usable;
    }

    /** Close(): `between` is what other threads do until the wait ends, by its group being
        empty or, if not, by its timeout. It destroys only with no call in flight, and a
        second Close does nothing. */
    method CloseAll(t: Tid, between: seq<Action>) returns (r: Closing)
      requires Valid() && At(state.procs, t).Idle?
      requires forall i :: 0 <= i < |between| ==> between[i].t != t
      modifies this
      ensures Valid() && state.closed && At(state.procs, t).Idle?
      ensures r.AlreadyClosed? <==> old(state).closed
      ensures r.AlreadyClosed? ==> state == old(state)
      ensures r.Drained? ==> state.inFlight == 0 && state.embedder != Live
      ensures r.GaveUp? ==> state.gaveUp && state.destroys == 0
    {
      hide Counts, Loads, UsesLive, RegisteredSet, Run;
      if state.closed {
        return AlreadyClosed;
      }
      ShutAndWait(t, between);
      if state.inFlight == 0 {
        DestroyDrained(t);
        return Closing.Drained;
      }
      StepKeepsInv(state, DrainTimeout(t));
      state := state.(gaveUp := true).Go(t, Idle);
      return GaveUp;
    }

    /** The head of Close(): refuse new calls, then wait. */
    method ShutAndWait(t: Tid, between: seq<Action>)
      requires Valid() && At(state.procs, t).Idle? && !state.closed
      requires forall i :: 0 <= i < |between| ==> between[i].t != t
      modifies this
      ensures Valid() && state.closed && At(state.procs, t).Draining?
      ensures state == Run(Step(old(state), Close(t)), between)
    {
      StepKeepsInv(state, Close(t));
      hide Inv;
      state := state.(closed := true).Go(t, Pc.Draining);
      RunKeepsInv(state, between);
      OthersStayOver(state, t, between);
      StaysClosed(state, between);
      state := Run(state, between);
    }

    /** The tail of Close() after a wait that succeeded. */
    method DestroyDrained(t: Tid)
      requires Valid() && At(state.procs, t).Draining? && state.inFlight == 0
      modifies this
      ensures Valid() && state == Step(Step(old(state), DrainDone(t)), Destroy(t))
      ensures state.embedder != Live && At(state.procs, t).Idle?
    {
      StepKeepsInv(state, DrainDone(t));
      StepKeepsInv(Step(state, DrainDone(t)), Destroy(t));
      state := state.Go(t, Pc.Drained);
      if state.embedder == Unbuilt {
        state := state.Go(t, Idle);
      } else {
        state := state.(embedder := Destroyed, destroys := state.destroys + 1).Go(t, Idle);
      }
    }
  }

  lemma {:induction false} StaysClosed(s: State, actions: seq<Action>)
    requires s.closed
    ensures Run(s, actions).closed
    decreases |actions|
  {
    if actions != [] {
      StaysClosed(Step(s, actions[0]), actions[1..]);
    }
  }
}
