/**
 The recoverable list, and how an attempt claims a turn that nobody is on: the steps that
 recovery is made of.
 */
module TurnRecovery {
  import opened Wrappers
  import opened TurnIntents
  import opened AgentTurns
  import opened TextOrder
  import L = TurnLocks

  /** Where one attempt stands, on a session that is still current, and the parts of the
      state its next steps depend on. */
  ghost predicate Stands(s: Sys, t: Tid, job: Job, pc: Pc, locks: L.Locks, rows: Table, calls: seq<Call>) {
    && t in s.attempts && s.attempts[t] == Attempt(job, pc) && s.Current(job.lease)
    && s.locks == locks && s.rows == rows && s.calls == calls
  }

  /** With nobody on a turn, the four lock steps make a thread its holder. */
  lemma ClaimsFreeTurn(locks: L.Locks, t: Tid, u: Turn)
    requires L.Inv(locks) && locks.At(t).Idle? && forall k :: !locks.At(k).On(u)
    ensures var asked := L.Step(locks, L.Ask(t, u));
            var fetched := L.Step(asked, L.Fetch(t));
            var locked := L.Step(fetched, L.TryLock(t));
            && asked.At(t) == L.Want(u)
            && fetched.At(t) == L.Fetched(u, |locks.home|)
            && locked.At(t) == L.Locked(u, |locks.home|)
            && L.Step(locked, L.Confirm(t)).At(t) == L.Holding(u, |locks.home|)
  {
    assert u !in locks.registry && |locks.home| !in locks.owner;
  }

  /** The four lock steps of a claim on a turn that nobody is on. */
  function Claim(t: Tid, u: Turn): seq<Action> {
    [Lock(t, L.Ask(t, u)), Lock(t, L.Fetch(t)), Lock(t, L.TryLock(t)), Lock(t, L.Confirm(t))]
  }

  lemma RunTwo(digest: Request -> string, s: Sys, a: Action, b: Action)
    ensures Run(digest, s, [a, b]) == Step(digest, Step(digest, s, a), b)
  {
    hide Step;
    var s1 := Step(digest, s, a);
    assert [a, b][1..] == [b];
    assert Run(digest, s1, [b]) == Step(digest, s1, b);
  }

  lemma RunFour(digest: Request -> string, s: Sys, a: Action, b: Action, c: Action, d: Action)
    ensures Run(digest, s, [a, b, c, d]) == Step(digest, Step(digest, Step(digest, Step(digest, s, a), b), c), d)
  {
    hide Step;
    var s1 := Step(digest, s, a);
    var s2 := Step(digest, s1, b);
    var s3 := Step(digest, s2, c);
    assert [a, b, c, d][1..] == [b, c, d] && [b, c, d][1..] == [c, d] && [c, d][1..] == [d];
    assert Run(digest, s1, [b, c, d]) == Run(digest, s2, [c, d]);
    assert Run(digest, s3, [d]) == Step(digest, s3, d);
  }

  lemma {:induction false} RunAppend(digest: Request -> string, s: Sys, xs: seq<Action>, ys: seq<Action>)
    ensures Run(digest, s, xs + ys) == Run(digest, Run(digest, s, xs), ys)
    decreases |xs|
  {
    hide Step;
    if xs == [] {
      assert xs + ys == ys;
    } else {
      assert (xs + ys)[1..] == xs[1..] + ys;
      RunAppend(digest, Step(digest, s, xs[0]), xs[1..], ys);
    }
  }

  /** Where a successful claim leads. */
  function Claimed(known: Option<Intent>): Pc { if known.Some? then Ready(known.value) else Ensuring }

  lemma LockStands(
    digest: Request -> string, s: Sys, t: Tid, job: Job, known: Option<Intent>, locks: L.Locks, a: L.Action,
    rows: Table, calls: seq<Call>)
    requires Stands(s, t, job, Claiming(known), locks, rows, calls)
    requires a.t == t && !a.Delete? && !a.Unlock? && (a.Ask? ==> a.turn == job.turn)
    requires !(locks.At(t).Fetched? && L.Step(locks, a).At(t).Idle?)
    ensures var after := L.Step(locks, a);
            var pc := if after.At(t).Holding? then Claimed(known) else Claiming(known);
            Stands(Step(digest, s, Lock(t, a)), t, job, pc, after, rows, calls)
  {
    hide L.Step;
  }

  lemma ClaimStands(
    digest: Request -> string, s: Sys, t: Tid, job: Job, known: Option<Intent>, locks: L.Locks, rows: Table, calls: seq<Call>)
    requires L.Inv(locks) && locks.At(t).Idle? && forall k :: !locks.At(k).On(job.turn)
    requires Stands(s, t, job, Claiming(known), locks, rows, calls)
    ensures var after := Run(digest, s, Claim(t, job.turn)); Stands(after, t, job, Claimed(known), after.locks, rows, calls)
  {
    var u := job.turn;
    var l1 := L.Step(locks, L.Ask(t, u));
    var l2 := L.Step(l1, L.Fetch(t));
    var l3 := L.Step(l2, L.TryLock(t));
    ClaimsFreeTurn(locks, t, u);
    hide L.Step, L.Inv, Step, Run;
    var s1 := Step(digest, s, Lock(t, L.Ask(t, u)));
    var s2 := Step(digest, s1, Lock(t, L.Fetch(t)));
    var s3 := Step(digest, s2, Lock(t, L.TryLock(t)));
    LockStands(digest, s, t, job, known, locks, L.Ask(t, u), rows, calls);
    LockStands(digest, s1, t, job, known, l1, L.Fetch(t), rows, calls);
    LockStands(digest, s2, t, job, known, l2, L.TryLock(t), rows, calls);
    LockStands(digest, s3, t, job, known, l3, L.Confirm(t), rows, calls);
    RunFour(digest, s, Lock(t, L.Ask(t, u)), Lock(t, L.Fetch(t)), Lock(t, L.TryLock(t)), Lock(t, L.Confirm(t)));
  }

  /** The table while a Chat of the turn is in flight. */
  function InStream(rows: Table, i: Intent): Table {
    Write(Write(rows, i.uid, i.turn, Starting, NoError), i.uid, i.turn, Streaming, NoError)
  }

  lemma StepIsReachable(digest: Request -> string, s: Sys, a: Action)
    requires Reachable(digest, s)
    ensures Reachable(digest, Step(digest, s, a))
  {
    hide Step;
    var actions :| s == Run(digest, BOOT, actions);
    RunAppend(digest, BOOT, actions, [a]);
    assert Run(digest, s, [a]) == Run(digest, Step(digest, s, a), [a][1..]);
  }

  // --------------------------------------------------------- the recoverable list

  /** `stamps` gives the updated_at text of each row. */
  type Stamps = Turn -> string

  predicate Listable(rows: Table, uid: nat, u: Turn) { u in rows && rows[u].uid == uid && rows[u].state == Interrupted }

  /** ORDER BY updated_at DESC, turn_uuid. */
  predicate Ahead(stamps: Stamps, u: Turn, v: Turn) {
    Less(stamps(v), stamps(u)) || (stamps(u) == stamps(v) && Less(u, v))
  }

  lemma AheadIsOrder(stamps: Stamps, u: Turn, v: Turn, w: Turn)
    ensures u != v ==> Ahead(stamps, u, v) != Ahead(stamps, v, u)
    ensures Ahead(stamps, u, v) && Ahead(stamps, v, w) ==> Ahead(stamps, u, w)
  {
    LessIsTotal(stamps(u), stamps(v));
    LessIsTotal(u, v);
    if Less(stamps(v), stamps(u)) && Less(stamps(w), stamps(v)) {
      LessIsTransitive(stamps(w), stamps(v), stamps(u));
    }
    if Less(u, v) && Less(v, w) {
      LessIsTransitive(u, v, w);
    }
  }

  /** The rows the query returns: the owner's interrupted turns, in order, as many as the
      limit allows, and none left out that comes before one of them. */
  ghost predicate IsListing(rows: Table, stamps: Stamps, uid: nat, limit: nat, listed: seq<Turn>) {
    && |listed| <= limit
    && (forall i :: 0 <= i < |listed| ==> Listable(rows, uid, listed[i]))
    && (forall i, j :: 0 <= i < j < |listed| ==> Ahead(stamps, listed[i], listed[j]))
    && (forall u :: Listable(rows, uid, u) && u !in listed ==>
          |listed| == limit && forall i :: 0 <= i < |listed| ==> Ahead(stamps, listed[i], u))
  }

  method FirstOf(stamps: Stamps, turns: set<Turn>) returns (first: Turn)
    requires turns != {}
    ensures first in turns && forall u :: u in turns && u != first ==> Ahead(stamps, first, u)
  {
    first :| first in turns;
    var todo := turns - {first};
    while todo != {}
      invariant todo <= turns - {first} && first in turns
      invariant forall u :: u in turns && u != first && u !in todo ==> Ahead(stamps, first, u)
      decreases todo
    {
      var next :| next in todo;
      todo := todo - {next};
      AheadIsOrder(stamps, first, next, next);
      if Ahead(stamps, next, first) {
        forall u | u in turns && u != first && u != next && u !in todo
          ensures Ahead(stamps, next, u)
        {
          AheadIsOrder(stamps, next, first, u);
        }
        first := next;
      }
    }
  }

  /** The query. */
  method SelectInterrupted(rows: Table, stamps: Stamps, uid: nat, limit: nat) returns (listed: seq<Turn>)
    ensures IsListing(rows, stamps, uid, limit, listed)
  {
    var all := set u | u in rows && Listable(rows, uid, u);
    var todo := all;
    listed := [];
    while todo != {} && |listed| < limit
      invariant todo <= all && |listed| <= limit
      invariant forall i :: 0 <= i < |listed| ==> listed[i] in all && listed[i] !in todo
      invariant forall i, u :: 0 <= i < |listed| && u in todo ==> Ahead(stamps, listed[i], u)
      invariant forall i, j :: 0 <= i < j < |listed| ==> Ahead(stamps, listed[i], listed[j])
      invariant forall u :: u in all && u !in todo ==> u in listed
      decreases todo
    {
      var first := FirstOf(stamps, todo);
      todo := todo - {first};
      listed := listed + [first];
    }
  }

  /** The loop over the query's rows, which gives up on the first that does not validate. */
  method ValidateAll(digest: Request -> string, rows: Table, selected: seq<Turn>) returns (ok: bool)
    requires forall i :: 0 <= i < |selected| ==> selected[i] in rows
    ensures ok <==> forall i :: 0 <= i < |selected| ==> Recoverable(digest, selected[i], rows[selected[i]])
  {
    hide Recoverable;
    for i := 0 to |selected|
      invariant forall j :: 0 <= j < i ==> Recoverable(digest, selected[j], rows[selected[j]])
    {
      if !Recoverable(digest, selected[i], rows[selected[i]]) {
        return false;
      }
    }
    return true;
  }

  /** In every reachable state the listing of a current session succeeds, with the first
      interrupted turns of its owner. */
  method ListRecoverable(digest: Request -> string, s: Sys, stamps: Stamps, uid: nat, lease: nat, limit: nat)
    returns (items: Option<seq<Turn>>)
    requires Reachable(digest, s)
    ensures items.Some? <==> s.Current(lease)
    ensures items.Some? ==> IsListing(s.rows, stamps, uid, limit, items.value)
  {
    hide Recoverable, Reachable;
    if !s.Current(lease) {
      return None;
    }
    var selected := SelectInterrupted(s.rows, stamps, uid, limit);
    forall i | 0 <= i < |selected|
      ensures selected[i] in s.rows && Recoverable(digest, selected[i], s.rows[selected[i]])
    {
      assert Listable(s.rows, uid, selected[i]);
      RowsStayRecoverable(digest, s, selected[i]);
    }
    var ok := ValidateAll(digest, s.rows, selected);
    return if ok then Some(selected) else None;
  }
}
