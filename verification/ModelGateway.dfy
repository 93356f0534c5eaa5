/**
 The loopback model gateway: tokens and cancelable session generations. Rotate and
 Shutdown swap the fields in one critical section and run the retired generation's cancel
 afterwards, outside it, so any number of them can interleave with BindContext, with
 releases, and with the delivery of a cancel to the contexts bound to it. Tokens are fresh
 and the digest, the parameter `hash`, is injective.
 */
module ModelGateways {
  import opened Wrappers

  type Tid = nat
  type Gen = nat
  type Token = string
  type Digest = string

  const ZERO_DIGEST: Digest := ""

  /** A context bound to one generation, or to none if there was no session yet: `watching` is
      its session watch, `canceled` is set once the watch or its own release has canceled it. */
  datatype Bound = Bound(gen: Option<Gen>, parentLive: bool, watching: bool, canceled: bool, released: bool) {
    predicate Live() { parentLive && !canceled }
  }

  /** The gateway's fields; then how often each generation created so far was canceled, the
      retired generation each thread has still to cancel, every token issued, and the
      contexts bound. The empty token is no token. */
  datatype State = State(
    token: Token, digest: Digest, session: Option<Gen>, cancel: Option<Gen>,
    cancels: seq<nat>, pending: map<Tid, Gen>, issued: seq<Token>, contexts: seq<Bound>)
  {
    predicate Gone(g: Option<Gen>) { g.Some? && g.value < |cancels| && cancels[g.value] > 0 }
  }

  const NEW := State("", ZERO_DIGEST, None, None, [], map[], [], [])

  datatype Action =
    | Rotate(t: Tid, token: Token)     // the critical section of Rotate
    | Shutdown(t: Tid)                 // the critical section of Shutdown
    | RunCancel(t: Tid)                // the cancel call after either of them
    | Bind(parentLive: bool)
    | Deliver(i: nat)                  // the session watch of a context fires
    | Release(i: nat)
    | ParentEnds(i: nat)

  /** Retire the current generation into the hands of thread t. */
  function Retire(s: State, t: Tid): State {
    if s.cancel.Some? then s.(pending := s.pending[t := s.cancel.value], cancel := None) else s
  }

  function Step(hash: Token -> Digest, s: State, a: Action): State {
    match a
    case Rotate(t, token) =>
      if t in s.pending || token == "" || token in s.issued then s
      else Retire(s, t).(token := token, digest := hash(token), session := Some(|s.cancels|),
                         cancel := Some(|s.cancels|), cancels := s.cancels + [0], issued := s.issued + [token])
    case Shutdown(t) => if t in s.pending then s else Retire(s, t).(token := "", digest := ZERO_DIGEST)
    case RunCancel(t) =>
      if t !in s.pending || s.pending[t] >= |s.cancels| then s
      else s.(cancels := s.cancels[s.pending[t] := s.cancels[s.pending[t]] + 1], pending := s.pending - {t})
    case Bind(parentLive) =>
      s.(contexts := s.contexts + [Bound(s.session, parentLive, s.session.Some?, s.session.None?, false)])
    case Deliver(i) =>
      if i < |s.contexts| && s.contexts[i].watching && s.Gone(s.contexts[i].gen)
      then s.(contexts := s.contexts[i := s.contexts[i].(watching := false, canceled := true)]) else s
    case Release(i) =>
      if i < |s.contexts|
      then s.(contexts := s.contexts[i := s.contexts[i].(watching := false, canceled := true, released := true)]) else s
    case ParentEnds(i) =>
      if i < |s.contexts| then s.(contexts := s.contexts[i := s.contexts[i].(parentLive := false)]) else s
  }

  function Run(hash: Token -> Digest, s: State, actions: seq<Action>): State
    decreases |actions|
  {
    if actions == [] then s else Run(hash, Step(hash, s, actions[0]), actions[1..])
  }

  predicate Matches(hash: Token -> Digest, s: State, candidate: Token) {
    candidate != "" && s.token != "" && hash(candidate) == s.digest
  }

  // ------------------------------------------------------------------ invariant

  ghost predicate Awaits(s: State, t: Tid, g: Gen) { t in s.pending && s.pending[t] == g }

  /** Every generation is current, or awaits its cancel in one thread, or was canceled once. */
  ghost predicate Partitioned(s: State) {
    && (forall g :: 0 <= g < |s.cancels| ==> s.cancels[g] <= 1)
    && (s.cancel.Some? ==> s.session == s.cancel && s.cancel.value < |s.cancels| && s.cancels[s.cancel.value] == 0)
    && (forall t :: t in s.pending ==>
          s.pending[t] < |s.cancels| && s.cancels[s.pending[t]] == 0 && s.cancel != Some(s.pending[t]))
    && (forall t, u :: t in s.pending && u in s.pending && s.pending[t] == s.pending[u] ==> t == u)
  }

  ghost predicate Accounted(s: State) {
    forall g :: 0 <= g < |s.cancels| && s.cancels[g] == 0 && s.cancel != Some(g) ==> exists t :: Awaits(s, t, g)
  }

  ghost predicate Watched(s: State) {
    && (s.session.Some? ==> s.session.value < |s.cancels|)
    && forall i :: 0 <= i < |s.contexts| ==>
         && (s.contexts[i].gen.Some? ==> s.contexts[i].gen.value < |s.cancels|)
         && (!s.contexts[i].canceled ==> s.contexts[i].watching && !s.contexts[i].released && s.contexts[i].gen.Some?)
  }

  ghost predicate TokenOk(hash: Token -> Digest, s: State) {
    && (s.token != "" ==> s.issued != [] && s.token == s.issued[|s.issued| - 1] && s.digest == hash(s.token))
    && (s.token != "" <==> s.cancel.Some?)
    && (forall i, j :: 0 <= i < j < |s.issued| ==> s.issued[i] != s.issued[j])
  }

  ghost predicate Inv(hash: Token -> Digest, s: State) {
    Partitioned(s) && Accounted(s) && Watched(s) && TokenOk(hash, s)
  }

  lemma RetireKeepsPartitioned(s: State, t: Tid)
    requires Partitioned(s) && t !in s.pending
    ensures Partitioned(Retire(s, t)) && Retire(s, t).cancel.None?
    ensures Retire(s, t).cancels == s.cancels
  {
  }

  lemma RotateKeepsPartitioned(s: State, r: State)
    requires Partitioned(s) && s.cancel.None?
    requires r.cancel == r.session == Some(|s.cancels|) && r.cancels == s.cancels + [0] && r.pending == s.pending
    ensures Partitioned(r)
  {
  }

  lemma StepKeepsPartitioned(hash: Token -> Digest, s: State, a: Action)
    requires Partitioned(s)
    ensures Partitioned(Step(hash, s, a))
  {
    if (a.Rotate? || a.Shutdown?) && a.t !in s.pending {
      RetireKeepsPartitioned(s, a.t);
      if a.Rotate? && a.token != "" && a.token !in s.issued {
        RotateKeepsPartitioned(Retire(s, a.t), Step(hash, s, a));
      }
    } else if a.RunCancel? && a.t in s.pending {
      CancelKeepsPartitioned(hash, s, a.t);
    }
  }

  lemma CancelKeepsPartitioned(hash: Token -> Digest, s: State, t: Tid)
    requires Partitioned(s) && t in s.pending
    ensures Partitioned(Step(hash, s, RunCancel(t)))
  {
  }

  lemma StepKeepsAccounted(hash: Token -> Digest, s: State, a: Action)
    requires Partitioned(s) && Accounted(s)
    ensures Accounted(Step(hash, s, a))
  {
    var s' := Step(hash, s, a);
    forall g | 0 <= g < |s'.cancels| && s'.cancels[g] == 0 && s'.cancel != Some(g)
      ensures exists t :: Awaits(s', t, g)
    {
      if s.cancel == Some(g) {
        assert Awaits(s', a.t, g);
      } else {
        assert g < |s.cancels| && s.cancels[g] == 0;
        var t :| Awaits(s, t, g);
        AwaitsUntilCanceled(hash, s, a, t, g);
      }
    }
  }

  lemma AwaitsUntilCanceled(hash: Token -> Digest, s: State, a: Action, t: Tid, g: Gen)
    requires Partitioned(s) && Awaits(s, t, g)
    ensures Awaits(Step(hash, s, a), t, g) || Step(hash, s, a).cancels[g] == 1
  {
  }

  lemma StepKeepsRest(hash: Token -> Digest, s: State, a: Action)
    requires Watched(s) && TokenOk(hash, s)
    ensures Watched(Step(hash, s, a)) && TokenOk(hash, Step(hash, s, a))
  {
  }

  lemma {:induction false} RunKeepsInv(hash: Token -> Digest, s: State, actions: seq<Action>)
    requires Inv(hash, s)
    ensures Inv(hash, Run(hash, s, actions))
    decreases |actions|
  {
    if actions != [] {
      StepKeepsInv(hash, s, actions[0]);
      RunKeepsInv(hash, Step(hash, s, actions[0]), actions[1..]);
    }
  }

  // ------------------------------------------------------------------- theorems

  /** No Rotate or Shutdown is still on its way to a cancel. */
  ghost predicate Returned(s: State) { s.pending == map[] }

  /** No canceled session has a watch that has not fired. */
  ghost predicate Delivered(s: State) {
    forall i :: 0 <= i < |s.contexts| && s.contexts[i].watching ==> !s.Gone(s.contexts[i].gen)
  }

  /** However Rotates and Shutdowns interleave, no generation is canceled twice, and once
      they have returned every generation but the current one has been canceled once. */
  lemma CanceledExactlyOnce(hash: Token -> Digest, actions: seq<Action>, g: Gen)
    ensures var s := Run(hash, NEW, actions);
            g < |s.cancels| ==>
              s.cancels[g] <= 1 && (Returned(s) ==> s.cancels[g] == if s.cancel == Some(g) then 0 else 1)
  {
    RunKeepsInv(hash, NEW, actions);
    var s := Run(hash, NEW, actions);
    assert Returned(s) ==> forall t :: !Awaits(s, t, g);
  }

  /** Once rotations have returned and their cancels are delivered, a bound context is live
      if and only if its parent is, it is unreleased and its generation is the current one
      of a gateway that was not shut down. */
  lemma LiveExactlyIfCurrent(hash: Token -> Digest, actions: seq<Action>, i: nat)
    requires i < |Run(hash, NEW, actions).contexts|
    requires Returned(Run(hash, NEW, actions)) && Delivered(Run(hash, NEW, actions))
    ensures var s := Run(hash, NEW, actions);
            var c := s.contexts[i];
            c.Live() <==> c.parentLive && !c.released && s.cancel == c.gen && s.token != ""
  {
    RunKeepsInv(hash, NEW, actions);
    RunKeepsCause(hash, NEW, actions);
    var c := Run(hash, NEW, actions).contexts[i];
    if c.gen.Some? {
      CanceledExactlyOnce(hash, actions, c.gen.value);
    }
  }

  /** No context is canceled without its release or its generation's cancel, unless there was
      no session to bind it to. */
  ghost predicate Caused(s: State) {
    forall i :: 0 <= i < |s.contexts| && s.contexts[i].canceled ==>
      s.contexts[i].released || s.contexts[i].gen.None? || s.Gone(s.contexts[i].gen)
  }

  lemma {:induction false} RunKeepsCause(hash: Token -> Digest, s: State, actions: seq<Action>)
    requires Caused(s)
    ensures Caused(Run(hash, s, actions))
    decreases |actions|
  {
    if actions != [] {
      RunKeepsCause(hash, Step(hash, s, actions[0]), actions[1..]);
    }
  }

  // ---------------------------------------------------------- the life of a context

  /** Context i is bound to the current generation and nothing has happened to it. */
  ghost predicate Fresh(s: State, i: nat, parentLive: bool) {
    s.cancel.Some? && i < |s.contexts| && s.contexts[i] == Bound(s.cancel, parentLive, true, false, false)
  }

  /** Steps that leave the current generation and context i alone. */
  predicate Spares(i: nat, a: Action) { !a.Rotate? && !a.Shutdown? && a != Release(i) && a != ParentEnds(i) }

  lemma StepSpares(hash: Token -> Digest, s: State, a: Action, i: nat, parentLive: bool)
    requires Inv(hash, s) && Fresh(s, i, parentLive) && Spares(i, a)
    ensures Fresh(Step(hash, s, a), i, parentLive)
  {
    hide Accounted, Watched, TokenOk;
  }

  lemma {:induction false} RunSpares(hash: Token -> Digest, s: State, actions: seq<Action>, i: nat, parentLive: bool)
    requires Inv(hash, s) && Fresh(s, i, parentLive) && forall k :: 0 <= k < |actions| ==> Spares(i, actions[k])
    ensures Fresh(Run(hash, s, actions), i, parentLive)
    decreases |actions|
  {
    hide Inv, Fresh, Step;
    if actions != [] {
      StepSpares(hash, s, actions[0], i, parentLive);
      StepKeepsInv(hash, s, actions[0]);
      RunSpares(hash, Step(hash, s, actions[0]), actions[1..], i, parentLive);
    }
  }

  lemma StepKeepsInv(hash: Token -> Digest, s: State, a: Action)
    requires Inv(hash, s)
    ensures Inv(hash, Step(hash, s, a))
  {
    StepKeepsPartitioned(hash, s, a);
    StepKeepsAccounted(hash, s, a);
    StepKeepsRest(hash, s, a);
  }

  /** From every reachable state of a gateway that is not shut down: a bind adds exactly one
      context, and in every continuation without a rotation, a shutdown, its release or the
      end of its parent, that context is live if and only if its parent was. */
  lemma BoundIsLive(hash: Token -> Digest, actions: seq<Action>, parentLive: bool, later: seq<Action>)
    requires Run(hash, NEW, actions).token != ""
    requires forall k :: 0 <= k < |later| ==> Spares(|Run(hash, NEW, actions).contexts|, later[k])
    ensures var s := Run(hash, NEW, actions);
            var bound := Step(hash, s, Bind(parentLive));
            var after, i := Run(hash, bound, later), |s.contexts|;
            && |bound.contexts| == i + 1 && bound.contexts[..i] == s.contexts && bound == s.(contexts := bound.contexts)
            && i < |after.contexts| && (after.contexts[i].Live() <==> parentLive)
  {
    RunKeepsInv(hash, NEW, actions);
    var s := Run(hash, NEW, actions);
    var bound := Step(hash, s, Bind(parentLive));
    StepKeepsInv(hash, s, Bind(parentLive));
    assert Fresh(bound, |s.contexts|, parentLive);
    RunSpares(hash, bound, later, |s.contexts|, parentLive);
  }

  /** Nothing revives a context that is dead. */
  lemma {:induction false} DeadStaysDead(hash: Token -> Digest, s: State, actions: seq<Action>, i: nat)
    requires i < |s.contexts| && !s.contexts[i].Live()
    ensures var after := Run(hash, s, actions); i < |after.contexts| && !after.contexts[i].Live()
    decreases |actions|
  {
    if actions != [] {
      DeadStaysDead(hash, Step(hash, s, actions[0]), actions[1..], i);
    }
  }

  /** The step ends context i: its release, its parent's end, or the delivery of its
      generation's cancel once all rotations have returned and it is not the current one. */
  ghost predicate Kills(s: State, i: nat, a: Action)
    requires i < |s.contexts|
  {
    || a == Release(i) || a == ParentEnds(i)
    || (a == Deliver(i) && Returned(s) && (s.cancel.None? || s.cancel != s.contexts[i].gen))
  }

  /** A release, the end of the parent, and the delivery of its generation's cancel each kill a
      context for good, and no other context; once all rotations have returned, so does the
      delivery for every context of another than the current generation. */
  lemma ContextsDieFor(hash: Token -> Digest, actions: seq<Action>, i: nat, a: Action, later: seq<Action>)
    requires i < |Run(hash, NEW, actions).contexts|
    requires Kills(Run(hash, NEW, actions), i, a)
    ensures var s := Run(hash, NEW, actions);
            var dead, after := Step(hash, s, a), Run(hash, Step(hash, s, a), later);
            && i < |after.contexts| && !after.contexts[i].Live()
            && |dead.contexts| == |s.contexts| && dead == s.(contexts := dead.contexts)
            && forall k :: 0 <= k < |s.contexts| && k != i ==> dead.contexts[k] == s.contexts[k]
  {
    var s := Run(hash, NEW, actions);
    RunKeepsInv(hash, NEW, actions);
    if s.contexts[i].gen.Some? {
      CanceledExactlyOnce(hash, actions, s.contexts[i].gen.value);
    }
    DeadStaysDead(hash, Step(hash, s, a), later, i);
  }

  /** A context bound before the first rotation is dead from the start. */
  lemma UnboundIsDead(hash: Token -> Digest, parentLive: bool, later: seq<Action>)
    ensures var after := Run(hash, Step(hash, NEW, Bind(parentLive)), later); |after.contexts| > 0 && !after.contexts[0].Live()
  {
    DeadStaysDead(hash, Step(hash, NEW, Bind(parentLive)), later, 0);
  }

  ghost predicate Injective(hash: Token -> Digest) { forall x, y :: hash(x) == hash(y) ==> x == y }

  /** Only the newest token matches, and only while the gateway is not shut down. */
  lemma OnlyNewestMatches(hash: Token -> Digest, actions: seq<Action>, candidate: Token)
    requires Injective(hash)
    ensures var s := Run(hash, NEW, actions);
            && (Matches(hash, s, candidate) <==> s.token != "" && s.issued != [] && candidate == s.issued[|s.issued| - 1])
            && (forall k :: 0 <= k < |s.issued| - 1 ==> !Matches(hash, s, s.issued[k]))
  {
    RunKeepsInv(hash, NEW, actions);
  }

  lemma {:induction false} StaysShut(hash: Token -> Digest, s: State, actions: seq<Action>)
    requires s.token == "" && forall i :: 0 <= i < |actions| ==> !actions[i].Rotate?
    ensures Run(hash, s, actions).token == ""
    decreases |actions|
  {
    if actions != [] {
      StaysShut(hash, Step(hash, s, actions[0]), actions[1..]);
    }
  }

  /** After Shutdown nothing matches until a Rotate. */
  lemma ShutMeansShut(hash: Token -> Digest, s: State, t: Tid, actions: seq<Action>, candidate: Token)
    requires t !in s.pending && forall i :: 0 <= i < |actions| ==> !actions[i].Rotate?
    ensures !Matches(hash, Run(hash, Step(hash, s, Shutdown(t)), actions), candidate)
  {
    StaysShut(hash, Step(hash, s, Shutdown(t)), actions);
  }

  lemma {:induction false} StaysOpen(hash: Token -> Digest, s: State, actions: seq<Action>)
    requires forall i :: 0 <= i < |actions| ==> !actions[i].Rotate? && !actions[i].Shutdown?
    ensures Run(hash, s, actions).token == s.token && Run(hash, s, actions).digest == s.digest
    decreases |actions|
  {
    if actions != [] {
      StaysOpen(hash, Step(hash, s, actions[0]), actions[1..]);
    }
  }

  // ------------------------------------------------------------------ the gateway

  /** None of the actions is the critical section or the cancel of a call by thread t. */
  predicate ByOthers(t: Tid, actions: seq<Action>) {
    forall i :: 0 <= i < |actions| && (actions[i].Rotate? || actions[i].Shutdown? || actions[i].RunCancel?) ==> actions[i].t != t
  }

  lemma {:induction false} OthersLeavePending(hash: Token -> Digest, s: State, t: Tid, actions: seq<Action>)
    requires ByOthers(t, actions)
    ensures var s' := Run(hash, s, actions);
            && (t in s'.pending <==> t in s.pending) && (t in s.pending ==> s'.pending[t] == s.pending[t])
            && |s.cancels| <= |s'.cancels|
    decreases |actions|
  {
    if actions != [] {
      OthersLeavePending(hash, Step(hash, s, actions[0]), t, actions[1..]);
    }
  }

  class Gateway {
    const hash: Token -> Digest
    var state: State

    ghost predicate Valid()
      reads this
    {
      Inv(hash, state)
    }

    constructor (hash: Token -> Digest)
      ensures Valid() && this.hash == hash && state == NEW
    {
      this.hash := hash;
      state := NEW;
    }

    /** Whatever other threads do while thread t is outside the mutex. */
    method Others(t: Tid, actions: seq<Action>)
      requires Valid() && ByOthers(t, actions)
      modifies this
      ensures Valid() && state == Run(hash, old(state), actions)
    {
      RunKeepsInv(hash, state, actions);
      state := Run(hash, state, actions);
    }

    /** The call of a retired generation's cancel, if there is one. */
    method CancelRetired(t: Tid, previous: Option<Gen>)
      requires Valid() && (if previous.Some? then Awaits(state, t, previous.value) else t !in state.pending)
      modifies this
      ensures Valid() && state == Step(hash, old(state), RunCancel(t)) && t !in state.pending
      ensures previous.Some? ==> previous.value < |state.cancels| && state.cancels[previous.value] == 1
    {
      RunKeepsInv(hash, state, [RunCancel(t)]);
      assert Run(hash, state, [RunCancel(t)]) == Run(hash, Step(hash, state, RunCancel(t)), []);
      if previous.Some? {
        var g := previous.value;
        state := state.(cancels := state.cancels[g := state.cancels[g] + 1], pending := state.pending - {t});
      }
    }

    /** Whatever others do between the swap and the cancel: once the call has returned, the
        generation that was current before it has been canceled exactly once, and the new
        token matches unless somebody rotated or shut down meanwhile. */
    method RotateToken(t: Tid, token: Token, between: seq<Action>)
      requires Valid() && t !in state.pending && token != "" && token !in state.issued && ByOthers(t, between)
      modifies this
      ensures Valid() && t !in state.pending
      ensures state == Step(hash, Run(hash, Step(hash, old(state), Rotate(t, token)), between), RunCancel(t))
      ensures forall g :: old(state).cancel == Some(g) ==> g < |state.cancels| && state.cancels[g] == 1
      ensures (forall i :: 0 <= i < |between| ==> !between[i].Rotate? && !between[i].Shutdown?) ==> Matches(hash, state, token)
    {
      RunKeepsInv(hash, state, [Rotate(t, token)]);
      assert Run(hash, state, [Rotate(t, token)]) == Run(hash, Step(hash, state, Rotate(t, token)), []);
      var previous, session := state.cancel, |state.cancels|;
      state := Retire(state, t);
      state := state.(token := token, digest := hash(token), session := Some(session), cancel := Some(session),
                      cancels := state.cancels + [0], issued := state.issued + [token]);
      if forall i :: 0 <= i < |between| ==> !between[i].Rotate? && !between[i].Shutdown? {
        StaysOpen(hash, state, between);
      }
      OthersLeavePending(hash, state, t, between);
      Others(t, between);
      CancelRetired(t, previous);
    }

    method ShutDown(t: Tid, between: seq<Action>)
      requires Valid() && t !in state.pending && ByOthers(t, between)
      modifies this
      ensures Valid() && t !in state.pending
      ensures state == Step(hash, Run(hash, Step(hash, old(state), Shutdown(t)), between), RunCancel(t))
      ensures forall g :: old(state).cancel == Some(g) ==> g < |state.cancels| && state.cancels[g] == 1
      ensures (forall i :: 0 <= i < |between| ==> !between[i].Rotate?) ==> forall c :: !Matches(hash, state, c)
    {
      RunKeepsInv(hash, state, [Shutdown(t)]);
      assert Run(hash, state, [Shutdown(t)]) == Run(hash, Step(hash, state, Shutdown(t)), []);
      var previous := state.cancel;
      state := Retire(state, t);
      state := state.(token := "", digest := ZERO_DIGEST);
      OthersLeavePending(hash, state, t, between);
      if forall i :: 0 <= i < |between| ==> !between[i].Rotate? {
        StaysShut(hash, state, between);
      }
      Others(t, between);
      CancelRetired(t, previous);
    }
  }
}
