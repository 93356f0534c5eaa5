/**
 The self-cleaning per-turn lock registry, as a step system: any number of threads,
 turns and mutexes, where LoadOrStore, TryLock, Delete and Unlock are one atomic step
 each. A run is any sequence of actions; an action that is not enabled changes nothing.
 */
module TurnLocks {
  type Turn = string
  type Tid = nat
  type Mutex = nat

  /** Where a thread stands between asking for a turn and letting go of it. */
  datatype Phase =
    | Idle
    | Want(turn: Turn)                      // about to fetch (first try or retry)
    | Fetched(turn: Turn, mutex: Mutex)     // LoadOrStore returned mutex
    | Locked(turn: Turn, mutex: Mutex)      // TryLock succeeded, not confirmed yet
    | Stale(turn: Turn, mutex: Mutex)       // confirm found another entry, about to Unlock
    | Holding(turn: Turn, mutex: Mutex)     // the claim succeeded
    | Retired(turn: Turn, mutex: Mutex)     // release has deleted the entry, about to Unlock
  {
    predicate Owns() { Locked? || Stale? || Holding? || Retired? }
    predicate Keeps() { Fetched? || Locked? || Holding? }
    predicate HasMutex() { Fetched? || Owns() }
    predicate On(u: Turn) { !Idle? && turn == u }
  }

  /** `home[m]` is the turn mutex `m` was allocated for, so `|home|` is the next mutex;
      `owner` maps every locked mutex to the thread that locked it. */
  datatype Locks = Locks(registry: map<Turn, Mutex>, home: seq<Turn>, owner: map<Mutex, Tid>, phase: map<Tid, Phase>)
  {
    function At(t: Tid): Phase { if t in phase then phase[t] else Idle }
    function Move(t: Tid, p: Phase): Locks { this.(phase := phase[t := p]) }
  }

  const NO_LOCKS := Locks(map[], [], map[], map[])

  datatype Action =
    | Ask(t: Tid, turn: Turn)
    | Fetch(t: Tid)
    | TryLock(t: Tid)
    | Confirm(t: Tid)
    | Drop(t: Tid)
    | Delete(t: Tid)
    | Unlock(t: Tid)

  function Step(s: Locks, a: Action): Locks {
    var p := s.At(a.t);
    match a
    case Ask(t, u) => if p.Idle? then s.Move(t, Want(u)) else s
    case Fetch(t) =>
      if !p.Want? then s
      else if p.turn in s.registry then s.Move(t, Fetched(p.turn, s.registry[p.turn]))
      else s.(registry := s.registry[p.turn := |s.home|], home := s.home + [p.turn]).Move(t, Fetched(p.turn, |s.home|))
    case TryLock(t) =>
      if !p.Fetched? then s
      else if p.mutex in s.owner then s.Move(t, Idle)
      else s.(owner := s.owner[p.mutex := t]).Move(t, Locked(p.turn, p.mutex))
    case Confirm(t) =>
      if !p.Locked? then s
      else if p.turn !in s.registry then
        s.(registry := s.registry[p.turn := p.mutex]).Move(t, Holding(p.turn, p.mutex))
      else if s.registry[p.turn] == p.mutex then s.Move(t, Holding(p.turn, p.mutex))
      else s.Move(t, Stale(p.turn, p.mutex))
    case Drop(t) => if p.Stale? then s.(owner := s.owner - {p.mutex}).Move(t, Want(p.turn)) else s
    case Delete(t) =>
      if p.Holding? then s.(registry := s.registry - {p.turn}).Move(t, Retired(p.turn, p.mutex)) else s
    case Unlock(t) => if p.Retired? then s.(owner := s.owner - {p.mutex}).Move(t, Idle) else s
  }

  function Run(s: Locks, actions: seq<Action>): Locks
    decreases |actions|
  {
    if actions == [] then s else Run(Step(s, actions[0]), actions[1..])
  }

  // ------------------------------------------------------------------ invariant

  ghost predicate Homes(s: Locks) {
    && (forall u :: u in s.registry ==> s.registry[u] < |s.home| && s.home[s.registry[u]] == u)
    && (forall t :: s.At(t).HasMutex() ==> s.At(t).mutex < |s.home| && s.home[s.At(t).mutex] == s.At(t).turn)
  }

  ghost predicate Owners(s: Locks) {
    && (forall t :: s.At(t).Owns() ==> s.At(t).mutex in s.owner && s.owner[s.At(t).mutex] == t)
    && (forall m :: m in s.owner ==> s.At(s.owner[m]).Owns() && s.At(s.owner[m]).mutex == m)
  }

  /** A holder is the registered one. */
  ghost predicate Registered(s: Locks) {
    forall t :: s.At(t).Holding? ==> s.At(t).turn in s.registry && s.registry[s.At(t).turn] == s.At(t).mutex
  }

  /** A mutex on its way out is not registered. */
  ghost predicate Unregistered(s: Locks) {
    forall t :: (s.At(t).Stale? || s.At(t).Retired?) && s.At(t).turn in s.registry ==>
      s.registry[s.At(t).turn] != s.At(t).mutex
  }

  ghost predicate KeptBy(s: Locks, u: Turn, t: Tid)
    requires u in s.registry
  {
    s.At(t).Keeps() && s.At(t).turn == u && s.At(t).mutex == s.registry[u]
  }

  /** Every registered mutex has a thread that fetched, locked or holds it. */
  ghost predicate Kept(s: Locks) { forall u :: u in s.registry ==> exists t :: KeptBy(s, u, t) }

  ghost predicate Inv(s: Locks) { Homes(s) && Owners(s) && Registered(s) && Unregistered(s) && Kept(s) }

  lemma OthersStay(s: Locks, a: Action)
    ensures forall t :: t != a.t ==> Step(s, a).At(t) == s.At(t)
  {
  }

  lemma StepKeepsHomes(s: Locks, a: Action)
    requires Homes(s)
    ensures Homes(Step(s, a))
  {
    OthersStay(s, a);
  }

  /** Threads other than the acting one own what they owned, whatever becomes of its mutex. */
  lemma OwnersAfterTryLock(s: Locks, t: Tid)
    requires Owners(s)
    ensures Owners(Step(s, TryLock(t)))
  {
    OthersStay(s, TryLock(t));
  }

  lemma OwnersAfterUnlock(s: Locks, a: Action)
    requires Owners(s) && (a.Drop? || a.Unlock?)
    ensures Owners(Step(s, a))
  {
    OthersStay(s, a);
  }

  /** The other steps lock and unlock nothing. */
  lemma OwnersAfterOthers(s: Locks, a: Action)
    requires Owners(s) && !a.TryLock? && !a.Drop? && !a.Unlock?
    ensures Owners(Step(s, a))
  {
    OthersStay(s, a);
    assert Step(s, a).owner == s.owner;
  }

  lemma StepKeepsOwners(s: Locks, a: Action)
    requires Owners(s)
    ensures Owners(Step(s, a))
  {
    hide Owners, Step;
    match a
    case TryLock(t) => OwnersAfterTryLock(s, t);
    case Drop(_) => OwnersAfterUnlock(s, a);
    case Unlock(_) => OwnersAfterUnlock(s, a);
    case _ => OwnersAfterOthers(s, a);
  }

  lemma StepKeepsRegistered(s: Locks, a: Action)
    requires Homes(s) && Owners(s) && Registered(s)
    ensures Registered(Step(s, a))
  {
    OthersStay(s, a);
  }

  lemma StepKeepsUnregistered(s: Locks, a: Action)
    requires Homes(s) && Owners(s) && Registered(s) && Unregistered(s)
    ensures Unregistered(Step(s, a))
  {
    OthersStay(s, a);
  }

  lemma StepKeepsKept(s: Locks, a: Action)
    requires Inv(s)
    ensures Kept(Step(s, a))
  {
    var s' := Step(s, a);
    OthersStay(s, a);
    forall u | u in s'.registry
      ensures exists t :: KeptBy(s', u, t)
    {
      if u in s.registry && s.registry[u] == s'.registry[u] {
        var t :| KeptBy(s, u, t);
        KeeperRemains(s, a, u, t);
      } else {
        assert KeptBy(s', u, a.t);
      }
    }
  }

  lemma KeeperRemains(s: Locks, a: Action, u: Turn, t: Tid)
    requires Inv(s) && u in s.registry && KeptBy(s, u, t)
    requires u in Step(s, a).registry && Step(s, a).registry[u] == s.registry[u]
    ensures exists k :: KeptBy(Step(s, a), u, k)
  {
    OthersStay(s, a);
    if t == a.t && a.TryLock? && s.At(t).Fetched? && s.At(t).mutex in s.owner {
      // The claimant gives up, but whoever locked the mutex keeps it registered.
      assert KeptBy(Step(s, a), u, s.owner[s.At(t).mutex]);
    } else {
      assert KeptBy(Step(s, a), u, t);
    }
  }

  lemma StepKeepsInv(s: Locks, a: Action)
    requires Inv(s)
    ensures Inv(Step(s, a))
  {
    StepKeepsHomes(s, a);
    StepKeepsOwners(s, a);
    StepKeepsRegistered(s, a);
    StepKeepsUnregistered(s, a);
    StepKeepsKept(s, a);
  }

  lemma {:induction false} RunKeepsInv(s: Locks, actions: seq<Action>)
    requires Inv(s)
    ensures Inv(Run(s, actions))
    decreases |actions|
  {
    if actions != [] {
      StepKeepsInv(s, actions[0]);
      RunKeepsInv(Step(s, actions[0]), actions[1..]);
    }
  }

  // ------------------------------------------------------------------- theorems

  /** In every interleaving at most one thread holds a turn, and the registry maps the
      turn to its holder's mutex. */
  lemma MutualExclusion(actions: seq<Action>, t1: Tid, t2: Tid, u: Turn)
    ensures var s := Run(NO_LOCKS, actions);
            && (s.At(t1).Holding? && s.At(t2).Holding? && s.At(t1).turn == s.At(t2).turn ==> t1 == t2)
            && (s.At(t1).Holding? && s.At(t1).turn == u ==> u in s.registry && s.registry[u] == s.At(t1).mutex)
  {
    RunKeepsInv(NO_LOCKS, actions);
  }

  /** The unconditional Delete of a release never removes another thread's entry: the
      entry it removes is its own mutex, and every other turn keeps its entry. */
  lemma DeleteRemovesOwnEntry(actions: seq<Action>, t: Tid)
    ensures var s := Run(NO_LOCKS, actions);
            var s' := Step(s, Delete(t));
            s.At(t).Holding? ==>
              && s.registry == s'.registry[s.At(t).turn := s.At(t).mutex]
              && s.At(t).turn !in s'.registry
              && forall t' :: s'.At(t').Holding? ==> s'.At(t').turn != s.At(t).turn
  {
    RunKeepsInv(NO_LOCKS, actions);
    var s := Run(NO_LOCKS, actions);
    if s.At(t).Holding? {
      var s' := Step(s, Delete(t));
      assert s.registry == s'.registry[s.At(t).turn := s.At(t).mutex];
      StepKeepsInv(s, Delete(t));
    }
  }

  /** No leak: with no thread on a turn there is no entry for it, and with no thread
      active at all the registry is empty and no mutex is locked. */
  lemma NoLeak(actions: seq<Action>, u: Turn)
    ensures var s := Run(NO_LOCKS, actions);
            && ((forall t :: !s.At(t).On(u)) ==> u !in s.registry)
            && ((forall t :: s.At(t).Idle?) ==> s.registry == map[] && s.owner == map[])
  {
    RunKeepsInv(NO_LOCKS, actions);
    var s := Run(NO_LOCKS, actions);
    assert forall v :: v in s.registry ==> exists t :: KeptBy(s, v, t) && s.At(t).On(v);
    if forall t :: s.At(t).Idle? {
      assert forall v :: v !in s.registry;
      assert forall m :: m !in s.owner;
    }
  }

  lemma LoneClaim(s: Locks, t: Tid, u: Turn)
    requires Inv(s) && s.At(t) == Want(u) && forall t' :: t' != t ==> !s.At(t').On(u)
    ensures Run(s, [Fetch(t), TryLock(t), Confirm(t)]).At(t).Holding?
  {
    var s1 := Step(s, Fetch(t));
    var s2 := Step(s1, TryLock(t));
    StepKeepsInv(s, Fetch(t));
    assert s1.At(t).mutex !in s1.owner;
    assert Step(s2, Confirm(t)).At(t).Holding?;
    hide Step, Inv;
    var acts := [Fetch(t), TryLock(t), Confirm(t)];
    assert acts[1..] == [TryLock(t), Confirm(t)] && acts[1..][1..] == [Confirm(t)];
    assert Run(s1, [TryLock(t), Confirm(t)]) == Run(s2, [Confirm(t)]);
    assert Run(s2, [Confirm(t)]) == Step(s2, Confirm(t));
  }

  /** A lone claimant never fails and never retries: with no other thread on the turn its
      TryLock succeeds and its confirm makes it the holder. */
  lemma LoneClaimantSucceeds(actions: seq<Action>, t: Tid, u: Turn)
    ensures var s := Run(NO_LOCKS, actions);
            (forall t' :: t' != t ==> !s.At(t').On(u)) ==>
              && (s.At(t) == Want(u) ==> Run(s, [Fetch(t), TryLock(t), Confirm(t)]).At(t).Holding?)
              && (s.At(t).On(u) && s.At(t).Fetched? ==> Step(s, TryLock(t)).At(t).Locked?)
              && (s.At(t).On(u) && s.At(t).Locked? ==> Step(s, Confirm(t)).At(t).Holding?)
  {
    RunKeepsInv(NO_LOCKS, actions);
    var s := Run(NO_LOCKS, actions);
    if forall t' :: t' != t ==> !s.At(t').On(u) {
      if s.At(t).On(u) && s.At(t).Locked? && u in s.registry {
        var k :| KeptBy(s, u, k);
        assert s.At(k).On(u);
      }
      if s.At(t) == Want(u) {
        LoneClaim(s, t, u);
      }
    }
  }

  /** A claim is refused only because some thread has the mutex, and retried only because
      a different mutex is registered, which another thread keeps. */
  lemma RefusedOrRetriedForCause(actions: seq<Action>, t: Tid)
    ensures var s := Run(NO_LOCKS, actions);
            && (s.At(t).Fetched? && Step(s, TryLock(t)).At(t).Idle? ==>
                  exists h :: h != t && s.At(h).Owns() && s.At(h).turn == s.At(t).turn && s.At(h).mutex == s.At(t).mutex)
            && (s.At(t).Locked? && Step(s, Confirm(t)).At(t).Stale? ==>
                  s.At(t).turn in s.registry && s.registry[s.At(t).turn] != s.At(t).mutex &&
                  exists k :: k != t && KeptBy(s, s.At(t).turn, k))
  {
    RunKeepsInv(NO_LOCKS, actions);
    var s := Run(NO_LOCKS, actions);
    if s.At(t).Fetched? && Step(s, TryLock(t)).At(t).Idle? {
      var h := s.owner[s.At(t).mutex];
      assert h != t && s.At(h).Owns() && s.At(h).mutex == s.At(t).mutex;
    }
    if s.At(t).Locked? && Step(s, Confirm(t)).At(t).Stale? {
      var k :| KeptBy(s, s.At(t).turn, k);
      assert k != t;
    }
  }

  // ------------------------------------------------------------ the claiming loop

  lemma {:induction false} OthersCannotMove(s: Locks, t: Tid, actions: seq<Action>)
    requires forall i :: 0 <= i < |actions| ==> actions[i].t != t
    ensures Run(s, actions).At(t) == s.At(t)
    decreases |actions|
  {
    if actions != [] {
      OthersStay(s, actions[0]);
      OthersCannotMove(Step(s, actions[0]), t, actions[1..]);
    }
  }

  lemma TakenIfRefused(s: Locks, t: Tid)
    requires Inv(s) && s.At(t).Fetched? && s.At(t).mutex in s.owner
    ensures TakenByOther(Step(s, TryLock(t)), t, s.At(t).turn)
  {
    var h := s.owner[s.At(t).mutex];
    assert Step(s, TryLock(t)).At(h) == s.At(h);
  }

  /** Another thread has a mutex of the turn locked. */
  ghost predicate TakenByOther(s: Locks, t: Tid, u: Turn) { exists h :: h != t && s.At(h).Owns() && s.At(h).turn == u }

  datatype Attempt = Won | Busy | Retry

  class Registry {
    var locks: Locks

    ghost predicate Valid()
      reads this
    {
      Inv(locks)
    }

    constructor ()
      ensures Valid() && locks == NO_LOCKS
    {
      locks := NO_LOCKS;
    }

    /** LoadOrStore of a fresh mutex. */
    method Load(t: Tid) returns (lock: Mutex)
      requires Valid() && locks.At(t).Want?
      modifies this
      ensures Valid() && locks.At(t) == Fetched(old(locks.At(t).turn), lock)
      ensures old(locks.At(t).turn) in locks.registry && locks.registry[old(locks.At(t).turn)] == lock
    {
      StepKeepsInv(locks, Fetch(t));
      locks := Step(locks, Fetch(t));
      lock := locks.At(t).mutex;
    }

    method Try(t: Tid) returns (ok: bool)
      requires Valid() && locks.At(t).Fetched?
      modifies this
      ensures Valid() && locks.registry == old(locks.registry)
      ensures locks.At(t) == if ok then Locked(old(locks.At(t).turn), old(locks.At(t).mutex)) else Idle
      ensures ok <==> old(locks.At(t).mutex !in locks.owner)
      ensures !ok ==> TakenByOther(locks, t, old(locks.At(t).turn))
    {
      StepKeepsInv(locks, TryLock(t));
      if locks.At(t).mutex in locks.owner {
        TakenIfRefused(locks, t);
      }
      locks := Step(locks, TryLock(t));
      ok := locks.At(t).Locked?;
    }

    /** LoadOrStore of the locked mutex itself. */
    method Check(t: Tid) returns (ok: bool)
      requires Valid() && locks.At(t).Locked?
      modifies this
      ensures Valid()
      ensures var u, m := old(locks.At(t).turn), old(locks.At(t).mutex);
              && locks.At(t) == (if ok then Holding(u, m) else Stale(u, m))
              && (ok <==> old(u in locks.registry ==> locks.registry[u] == m))
    {
      StepKeepsInv(locks, Confirm(t));
      locks := Step(locks, Confirm(t));
      ok := locks.At(t).Holding?;
    }

    /** Unlock of a mutex that turned out to be retired. */
    method DropStale(t: Tid)
      requires Valid() && locks.At(t).Stale?
      modifies this
      ensures Valid() && locks.At(t) == Want(old(locks.At(t).turn))
    {
      StepKeepsInv(locks, Drop(t));
      locks := Step(locks, Drop(t));
    }

    /** Whatever the other threads do between two steps of thread t. */
    method Others(t: Tid, actions: seq<Action>)
      requires Valid() && forall i :: 0 <= i < |actions| ==> actions[i].t != t
      modifies this
      ensures Valid() && locks.At(t) == old(locks.At(t))
      ensures locks == Run(old(locks), actions)
    {
      RunKeepsInv(locks, actions);
      OthersCannotMove(locks, t, actions);
      locks := Run(locks, actions);
    }

    /** One pass of the claiming loop, with what the other threads do before its TryLock,
        before its confirm and before it unlocks a retired mutex. It is busy only because
        another thread has a mutex of the turn locked, and without interference it never
        asks for another pass. */
    method TryOnce(t: Tid, u: Turn, first: seq<Action>, second: seq<Action>, third: seq<Action>) returns (r: Attempt)
      requires Valid() && locks.At(t) == Want(u)
      requires forall i :: 0 <= i < |first| ==> first[i].t != t
      requires forall i :: 0 <= i < |second| ==> second[i].t != t
      requires forall i :: 0 <= i < |third| ==> third[i].t != t
      modifies this
      ensures Valid()
      ensures match r
              case Won => locks.At(t).Holding? && locks.At(t).turn == u
              case Busy => locks.At(t).Idle? && TakenByOther(locks, t, u)
              case Retry => locks.At(t) == Want(u) && (first != [] || second != [])
    {
      var lock := Load(t);
      Others(t, first);
      var free := Try(t);
      if !free {
        return Busy;
      }
      Others(t, second);
      var current := Check(t);
      if current {
        return Won;
      }
      Others(t, third);
      DropStale(t);
      return Retry;
    }

    /** The claim. `between` is what the other threads do before each of its checks. It
        ends as soon as they stop interfering; it reports true if and only if it is the only
        holder of the turn, and false only if another thread has a mutex of it locked. */
    method Acquire(t: Tid, u: Turn, between: seq<seq<Action>>) returns (ok: bool)
      requires Valid() && locks.At(t).Idle?
      requires forall k, i :: 0 <= k < |between| && 0 <= i < |between[k]| ==> between[k][i].t != t
      modifies this
      ensures Valid()
      ensures if ok then locks.At(t).Holding? && locks.At(t).turn == u else locks.At(t).Idle?
      ensures ok ==> forall t' :: locks.At(t').Holding? && locks.At(t').turn == u ==> t' == t
      ensures !ok ==> TakenByOther(locks, t, u)
    {
      var k := 0;
      StepKeepsInv(locks, Ask(t, u));
      locks := Step(locks, Ask(t, u));
      while true
        invariant Valid() && k <= |between| && locks.At(t) == Want(u)
        decreases |between| - k
      {
        var first := if k < |between| then between[k] else [];
        var second := if k + 1 < |between| then between[k + 1] else [];
        var third := if k + 2 < |between| then between[k + 2] else [];
        var r := TryOnce(t, u, first, second, third);
        if r.Won? {
          return true;
        }
        if r.Busy? {
          return false;
        }
        k := if k + 3 <= |between| then k + 3 else |between|;
      }
    }

    /** Delete before Unlock. */
    method Release(t: Tid, between: seq<Action>)
      requires Valid() && locks.At(t).Holding?
      requires forall i :: 0 <= i < |between| ==> between[i].t != t
      modifies this
      ensures Valid()
      ensures locks == Step(Run(Step(old(locks), Delete(t)), between), Unlock(t)) && locks.At(t).Idle?
    {
      StepKeepsInv(locks, Delete(t));
      locks := Step(locks, Delete(t));
      Others(t, between);
      StepKeepsInv(locks, Unlock(t));
      locks := Step(locks, Unlock(t));
    }
  }
}
