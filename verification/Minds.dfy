/**
 The mind store: per identity, exactly one active mind. Every SQL statement or transaction
 is one atomic step on the table; `Create` is three of them (seed, count, insert), so
 calls of any number of threads interleave between those. New ids are fresh.
 */
module Minds {
  import opened TextOrder
  import opened Counting

  type Uid = nat
  type Id = string
  type Tid = nat

  const MAX_MINDS := 16

  datatype Mind = Mind(uid: Uid, name: string, active: bool, createdAt: string)

  type Table = map<Id, Mind>

  predicate Owns(rows: Table, uid: Uid, id: Id) { id in rows && rows[id].uid == uid }

  predicate IsActive(rows: Table, uid: Uid, id: Id) { Owns(rows, uid, id) && rows[id].active }

  function IdsOf(rows: Table, uid: Uid): set<Id> { set id | id in rows && rows[id].uid == uid }

  function Count(rows: Table, uid: Uid): nat { |IdsOf(rows, uid)| }

  /** ORDER BY created_at ASC, id ASC, as text. */
  predicate Sooner(rows: Table, i: Id, j: Id)
    requires i in rows && j in rows
  {
    Less(rows[i].createdAt, rows[j].createdAt) || (rows[i].createdAt == rows[j].createdAt && Less(i, j))
  }

  ghost predicate IsFirst(rows: Table, uid: Uid, id: Id) {
    Owns(rows, uid, id) && forall j :: Owns(rows, uid, j) && j != id ==> Sooner(rows, id, j)
  }

  ghost predicate Leads(rows: Table, ids: set<Id>, id: Id)
    requires ids <= rows.Keys
  {
    id in ids && forall j :: j in ids && j != id ==> Sooner(rows, id, j)
  }

  /** The order is total, so a non-empty set of minds has a first one. */
  lemma {:induction false} LeaderExists(rows: Table, ids: set<Id>)
    requires ids != {} && ids <= rows.Keys
    ensures exists id :: Leads(rows, ids, id)
    decreases ids
  {
    var id :| id in ids;
    var rest := ids - {id};
    assert ids == rest + {id};
    if rest == {} {
      assert Leads(rows, ids, id);
    } else {
      LeaderExists(rows, rest);
      var first :| Leads(rows, rest, first);
      SoonerIsTotal(rows, id, first);
      if Sooner(rows, first, id) {
        assert Leads(rows, ids, first);
      } else {
        forall j | j in rest && j != first ensures Sooner(rows, id, j) {
          SoonerIsTransitive(rows, id, first, j);
        }
        assert Leads(rows, ids, id);
      }
    }
  }

  ghost function First(rows: Table, uid: Uid): (id: Id)
    requires IdsOf(rows, uid) != {}
    ensures IsFirst(rows, uid, id)
  {
    LeaderExists(rows, IdsOf(rows, uid));
    var id :| Leads(rows, IdsOf(rows, uid), id);
    id
  }

  lemma FirstIsUnique(rows: Table, uid: Uid, i: Id, j: Id)
    requires IsFirst(rows, uid, i) && IsFirst(rows, uid, j)
    ensures i == j
  {
    if i != j {
      SoonerIsTotal(rows, i, j);
    }
  }

  lemma SoonerIsTotal(rows: Table, i: Id, j: Id)
    requires i in rows && j in rows && i != j
    ensures Sooner(rows, i, j) != Sooner(rows, j, i)
  {
    LessIsTotal(rows[i].createdAt, rows[j].createdAt);
    LessIsTotal(i, j);
  }

  lemma SoonerIsTransitive(rows: Table, i: Id, j: Id, k: Id)
    requires i in rows && j in rows && k in rows && Sooner(rows, i, j) && Sooner(rows, j, k)
    ensures Sooner(rows, i, k)
  {
    if Less(rows[i].createdAt, rows[j].createdAt) && Less(rows[j].createdAt, rows[k].createdAt) {
      LessIsTransitive(rows[i].createdAt, rows[j].createdAt, rows[k].createdAt);
    }
    if Less(i, j) && Less(j, k) {
      LessIsTransitive(i, j, k);
    }
  }

  lemma SurvivorsRemain(rows: Table, uid: Uid, id: Id)
    requires Owns(rows, uid, id)
    ensures IdsOf(rows - {id}, uid) == IdsOf(rows, uid) - {id}
    ensures Count(rows - {id}, uid) == Count(rows, uid) - 1
  {
    assert IdsOf(rows - {id}, uid) == IdsOf(rows, uid) - {id};
  }

  // -------------------------------------------------------------- transactions

  /** INSERT … WHERE NOT EXISTS: the default mind of an identity that has none. */
  function Seed(rows: Table, uid: Uid, id: Id, now: string): Table {
    if id in rows || IdsOf(rows, uid) != {} then rows else rows[id := Mind(uid, "General mind", true, now)]
  }

  function Insert(rows: Table, uid: Uid, id: Id, name: string, now: string): Table {
    if id in rows then rows else rows[id := Mind(uid, name, false, now)]
  }

  function Rename(rows: Table, uid: Uid, id: Id, name: string): Table {
    if Owns(rows, uid, id) then rows[id := rows[id].(name := name)] else rows
  }

  function Select(rows: Table, uid: Uid, id: Id): Table {
    if Owns(rows, uid, id)
    then map i | i in rows :: if rows[i].uid == uid then rows[i].(active := i == id) else rows[i]
    else rows
  }

  /** Refused for a missing mind and for the last one; deleting the active mind hands the
      flag to the first survivor. */
  ghost function Delete(rows: Table, uid: Uid, id: Id): Table {
    if !Owns(rows, uid, id) || Count(rows, uid) <= 1 then rows
    else if !rows[id].active then rows - {id}
    else
      SurvivorsRemain(rows, uid, id);
      var heir := First(rows - {id}, uid);
      (rows - {id})[heir := rows[heir].(active := true)]
  }

  /** The mind is gone, every other row is there, and the only flag that changed is that of
      the first survivor, set if the mind that is gone had it. */
  ghost predicate Removed(before: Table, after: Table, uid: Uid, id: Id) {
    && id in before && after.Keys == before.Keys - {id}
    && forall j :: j in after ==>
         after[j] == if before[id].active && IsFirst(before - {id}, uid, j) then before[j].(active := true) else before[j]
  }

  /** A deletion is refused, with no row changed, for a mind of another identity or none and
      for the last one; otherwise it removes exactly that mind. */
  lemma DeleteRemoves(rows: Table, uid: Uid, id: Id)
    ensures if Owns(rows, uid, id) && Count(rows, uid) > 1 then Removed(rows, Delete(rows, uid, id), uid, id)
            else Delete(rows, uid, id) == rows
  {
    if Owns(rows, uid, id) && Count(rows, uid) > 1 && rows[id].active {
      SurvivorsRemain(rows, uid, id);
      var heir := First(rows - {id}, uid);
      forall j | IsFirst(rows - {id}, uid, j) ensures j == heir {
        FirstIsUnique(rows - {id}, uid, j, heir);
      }
    }
  }

  // ------------------------------------------------------------------ the store

  datatype Deletion = Deleted | NotFound | LastOne

  class MindStore {
    var rows: Table

    constructor ()
      ensures rows == map[]
    {
      rows := map[];
    }

    method EnsureDefault(uid: Uid, id: Id, now: string)
      modifies this
      ensures rows == Step(Sys(old(rows), map[]), SeedDefault(uid, id, now)).rows
      ensures rows == Seed(old(rows), uid, id, now)
      ensures old(IdsOf(rows, uid)) != {} ==> rows == old(rows)
      ensures old(IdsOf(rows, uid)) == {} && id !in old(rows) ==> rows == old(rows)[id := Mind(uid, "General mind", true, now)]
    {
      if id !in rows && IdsOf(rows, uid) == {} {
        rows := rows[id := Mind(uid, "General mind", true, now)];
      }
    }

    /** The three statements of a call that nothing interleaves with. */
    method CreateMind(uid: Uid, defaultId: Id, id: Id, name: string, now: string) returns (ok: bool)
      requires defaultId !in rows && id !in rows && id != defaultId
      modifies this
      ensures rows == Run(Sys(old(rows), map[]), CreateSteps(0, uid, defaultId, id, name, now)).rows
      ensures ok <==> id in rows
      ensures ok ==> rows[id] == Mind(uid, name, false, now)
      ensures forall j :: j in old(rows) ==> j in rows && rows[j] == old(rows)[j]
      ensures rows.Keys <= old(rows).Keys + {defaultId, id}
      ensures ok <==> old(Count(rows, uid)) < MAX_MINDS
      ensures old(Count(rows, uid)) <= MAX_MINDS ==> Count(rows, uid) <= MAX_MINDS
    {
      ghost var seeding := StartCreate(0, uid, defaultId, now);
      EnsureDefault(uid, defaultId, now);
      CountAfterSeed(old(rows), uid, defaultId, now);
      ok := Count(rows, uid) < MAX_MINDS;
      if ok {
        CountAfterInsert(rows, uid, id, name, now);
        rows := Insert(rows, uid, id, name, now);
      }
      RunThree(Sys(old(rows), map[]), seeding, CountMinds(0), InsertMind(0, id, name, now));
    }

    method UpdateMind(uid: Uid, id: Id, name: string) returns (ok: bool)
      modifies this
      ensures rows == Step(Sys(old(rows), map[]), Action.UpdateMind(uid, id, name)).rows
      ensures ok <==> old(Owns(rows, uid, id))
      ensures rows == if ok then old(rows)[id := old(rows)[id].(name := name)] else old(rows)
    {
      ok := Owns(rows, uid, id);
      if ok {
        rows := rows[id := rows[id].(name := name)];
      }
    }

    /** The (created_at, id)-least mind of an identity. */
    method FirstOf(uid: Uid) returns (first: Id)
      requires IdsOf(rows, uid) != {}
      ensures IsFirst(rows, uid, first)
    {
      var todo := IdsOf(rows, uid);
      first :| first in todo;
      todo := todo - {first};
      while todo != {}
        invariant todo <= IdsOf(rows, uid) - {first} && Owns(rows, uid, first)
        invariant forall j :: Owns(rows, uid, j) && j != first && j !in todo ==> Sooner(rows, first, j)
        decreases todo
      {
        var next :| next in todo;
        todo := todo - {next};
        SoonerIsTotal(rows, first, next);
        if Sooner(rows, next, first) {
          forall j | Owns(rows, uid, j) && j != first && j != next && j !in todo
            ensures Sooner(rows, next, j)
          {
            SoonerIsTransitive(rows, next, first, j);
          }
          first := next;
        }
      }
    }

    /** The row is looked up before the last-one rule is applied. */
    method DeleteMind(uid: Uid, id: Id) returns (outcome: Deletion)
      modifies this
      ensures rows == Step(Sys(old(rows), map[]), Action.DeleteMind(uid, id)).rows
      ensures outcome.Deleted? <==> old(Owns(rows, uid, id) && Count(rows, uid) > 1)
      ensures outcome.Deleted? ==> Removed(old(rows), rows, uid, id)
      ensures !outcome.Deleted? ==> rows == old(rows)
      ensures outcome.NotFound? <==> !old(Owns(rows, uid, id))
      ensures outcome.LastOne? <==> old(Owns(rows, uid, id) && IdsOf(rows, uid) == {id})
    {
      var count := Count(rows, uid);
      if !Owns(rows, uid, id) {
        return NotFound;
      }
      SurvivorsRemain(rows, uid, id);
      DeleteRemoves(rows, uid, id);
      if count <= 1 {
        return LastOne;
      }
      var wasActive := rows[id].active;
      rows := rows - {id};
      if wasActive {
        var next := FirstOf(uid);
        FirstIsUnique(rows, uid, next, First(rows, uid));
        rows := rows[next := rows[next].(active := true)];
      }
      return Deleted;
    }

    /** Clear the flag of every other mind of the identity, then set it. */
    method SelectMind(uid: Uid, id: Id) returns (ok: bool)
      modifies this
      ensures rows == Step(Sys(old(rows), map[]), Action.SelectMind(uid, id)).rows
      ensures ok <==> old(Owns(rows, uid, id))
      ensures ok ==> forall j :: IsActive(rows, uid, j) <==> j == id
      ensures rows.Keys == old(rows).Keys
      ensures forall j :: j in rows ==> rows[j] == old(rows)[j].(active := rows[j].active)
      ensures forall j :: j in rows && (!ok || rows[j].uid != uid) ==> rows[j] == old(rows)[j]
    {
      if !Owns(rows, uid, id) {
        return false;
      }
      rows := map i | i in rows :: if rows[i].uid == uid && rows[i].active then rows[i].(active := false) else rows[i];
      rows := rows[id := rows[id].(active := true)];
      return true;
    }
  }

  // ---------------------------------------------------------------- interleaving

  /** Where a `Create` call of a thread stands. */
  datatype Pc = Idle | Seeded(uid: Uid) | Counted(uid: Uid)

  datatype Sys = Sys(rows: Table, pcs: map<Tid, Pc>) {
    function Pc(t: Tid): Pc { if t in pcs then pcs[t] else Idle }
  }

  const EMPTY := Sys(map[], map[])

  datatype Action =
    | SeedDefault(uid: Uid, id: Id, now: string)             // the first statement of every call
    | StartCreate(t: Tid, uid: Uid, id: Id, now: string)     // Create: seed
    | CountMinds(t: Tid)                                     // Create: count
    | InsertMind(t: Tid, id: Id, name: string, now: string)  // Create: insert
    | UpdateMind(uid: Uid, id: Id, name: string)
    | SelectMind(uid: Uid, id: Id)
    | DeleteMind(uid: Uid, id: Id)

  /** An action that is not enabled changes nothing. */
  ghost function Step(s: Sys, a: Action): Sys {
    match a
    case SeedDefault(uid, id, now) => s.(rows := Seed(s.rows, uid, id, now))
    case StartCreate(t, uid, id, now) =>
      if s.Pc(t).Idle? && id !in s.rows then Sys(Seed(s.rows, uid, id, now), s.pcs[t := Seeded(uid)]) else s
    case CountMinds(t) =>
      if s.Pc(t).Seeded?
      then s.(pcs := s.pcs[t := if Count(s.rows, s.Pc(t).uid) >= MAX_MINDS then Idle else Counted(s.Pc(t).uid)])
      else s
    case InsertMind(t, id, name, now) =>
      if s.Pc(t).Counted? then Sys(Insert(s.rows, s.Pc(t).uid, id, name, now), s.pcs[t := Idle]) else s
    case UpdateMind(uid, id, name) => s.(rows := Rename(s.rows, uid, id, name))
    case SelectMind(uid, id) => s.(rows := Select(s.rows, uid, id))
    case DeleteMind(uid, id) => s.(rows := Delete(s.rows, uid, id))
  }

  ghost function Run(s: Sys, actions: seq<Action>): Sys
    decreases actions
  {
    if actions == [] then s else Run(Step(s, actions[0]), actions[1..])
  }

  function CreateSteps(t: Tid, uid: Uid, defaultId: Id, id: Id, name: string, now: string): seq<Action> {
    [StartCreate(t, uid, defaultId, now), CountMinds(t), InsertMind(t, id, name, now)]
  }

  lemma RunThree(s: Sys, a: Action, b: Action, c: Action)
    ensures Run(s, [a, b, c]) == Step(Step(Step(s, a), b), c)
  {
    assert [a, b, c][1..] == [b, c] && [b, c][1..] == [c];
    var s2 := Step(Step(s, a), b);
    assert Run(Step(s, a), [b, c]) == Run(s2, [c]);
    assert Run(s2, [c]) == Step(s2, c);
  }

  lemma CountAfterSeed(rows: Table, uid: Uid, id: Id, now: string)
    requires id !in rows
    ensures Count(Seed(rows, uid, id, now), uid) == if Count(rows, uid) == 0 then 1 else Count(rows, uid)
  {
    if IdsOf(rows, uid) == {} {
      assert IdsOf(Seed(rows, uid, id, now), uid) == {id};
    }
  }

  lemma CountAfterInsert(rows: Table, uid: Uid, id: Id, name: string, now: string)
    requires id !in rows
    ensures Count(Insert(rows, uid, id, name, now), uid) == Count(rows, uid) + 1
  {
    assert IdsOf(Insert(rows, uid, id, name, now), uid) == IdsOf(rows, uid) + {id};
  }

  // ------------------------------------------------------------------ invariant

  ghost predicate OneActive(rows: Table, uid: Uid) {
    exists id :: IsActive(rows, uid, id) && forall j :: IsActive(rows, uid, j) ==> j == id
  }

  ghost predicate Good(rows: Table) {
    forall uid :: IdsOf(rows, uid) != {} ==> OneActive(rows, uid)
  }

  /** A `Create` past its seed works for an identity that has minds. */
  ghost predicate Inv(s: Sys) {
    Good(s.rows) && forall t :: t in s.pcs && !s.pcs[t].Idle? ==> IdsOf(s.rows, s.pcs[t].uid) != {}
  }

  /** No identity loses its last mind. */
  ghost predicate Keeps(before: Table, after: Table) {
    forall uid :: IdsOf(before, uid) != {} ==> IdsOf(after, uid) != {}
  }

  /** The minds of an identity are the same rows in both tables. */
  ghost predicate Untouched(before: Table, after: Table, uid: Uid) {
    forall id :: (Owns(before, uid, id) <==> Owns(after, uid, id)) && (Owns(before, uid, id) ==> before[id] == after[id])
  }

  lemma UntouchedFacts(before: Table, after: Table, uid: Uid)
    requires Untouched(before, after, uid)
    ensures IdsOf(before, uid) == IdsOf(after, uid)
    ensures OneActive(before, uid) ==> OneActive(after, uid)
  {
    forall id ensures id in IdsOf(before, uid) <==> id in IdsOf(after, uid) {
      assert Owns(before, uid, id) <==> Owns(after, uid, id);
    }
    forall id ensures IsActive(before, uid, id) <==> IsActive(after, uid, id) {
      assert Owns(before, uid, id) <==> Owns(after, uid, id);
    }
  }

  /** What a transaction for `uid` owes: leave others alone and keep `uid` at exactly one. */
  ghost predicate Proper(before: Table, after: Table, uid: Uid) {
    && (forall id :: id in before && before[id].uid != uid ==> id in after && after[id] == before[id])
    && (forall id :: id in after && after[id].uid != uid ==> id in before)
    && (forall id :: id in before && before[id].uid == uid && id in after ==> after[id].uid == uid)
    && (IdsOf(before, uid) != {} ==> IdsOf(after, uid) != {})
    && (IdsOf(after, uid) != {} ==> OneActive(after, uid))
  }

  lemma ProperLeavesOthers(before: Table, after: Table, uid: Uid, other: Uid)
    requires Proper(before, after, uid) && other != uid
    ensures Untouched(before, after, other)
  {
  }

  lemma ProperKeepsGood(before: Table, after: Table, uid: Uid)
    requires Good(before) && Proper(before, after, uid)
    ensures Good(after) && Keeps(before, after)
  {
    forall other | other != uid
      ensures IdsOf(before, other) == IdsOf(after, other)
      ensures OneActive(before, other) ==> OneActive(after, other)
    {
      ProperLeavesOthers(before, after, uid, other);
      UntouchedFacts(before, after, other);
    }
  }

  lemma SeedIsProper(rows: Table, uid: Uid, id: Id, now: string)
    requires Good(rows)
    ensures Proper(rows, Seed(rows, uid, id, now), uid)
    ensures id !in rows ==> IdsOf(Seed(rows, uid, id, now), uid) != {}
  {
    var after := Seed(rows, uid, id, now);
    if after != rows {
      assert IsActive(after, uid, id);
      forall j | IsActive(after, uid, j) ensures j == id {
        assert j != id ==> j in IdsOf(rows, uid);
      }
      assert id in IdsOf(after, uid);
    }
  }

  lemma InsertIsProper(rows: Table, uid: Uid, id: Id, name: string, now: string)
    requires Good(rows) && IdsOf(rows, uid) != {}
    ensures Proper(rows, Insert(rows, uid, id, name, now), uid)
  {
    var after := Insert(rows, uid, id, name, now);
    var active :| IsActive(rows, uid, active) && forall j :: IsActive(rows, uid, j) ==> j == active;
    assert IsActive(after, uid, active) && active in IdsOf(after, uid);
    forall j | IsActive(after, uid, j) ensures j == active {
      assert IsActive(rows, uid, j);
    }
  }

  lemma RenameIsProper(rows: Table, uid: Uid, id: Id, name: string)
    requires Good(rows)
    ensures Proper(rows, Rename(rows, uid, id, name), uid)
  {
    var after := Rename(rows, uid, id, name);
    assert IdsOf(rows, uid) == IdsOf(after, uid);
    if IdsOf(rows, uid) != {} {
      var active :| IsActive(rows, uid, active) && forall j :: IsActive(rows, uid, j) ==> j == active;
      assert IsActive(after, uid, active);
      forall j | IsActive(after, uid, j) ensures j == active {
        assert IsActive(rows, uid, j);
      }
    }
  }

  lemma SelectIsProper(rows: Table, uid: Uid, id: Id)
    requires Good(rows)
    ensures Proper(rows, Select(rows, uid, id), uid)
  {
    var after := Select(rows, uid, id);
    if Owns(rows, uid, id) {
      assert after.Keys == rows.Keys;
      assert forall i :: i in rows ==> after[i].uid == rows[i].uid;
      assert IsActive(after, uid, id) && id in IdsOf(after, uid);
      assert forall j :: IsActive(after, uid, j) ==> j == id;
      hide Select;
    }
  }

  lemma DeleteIsProper(rows: Table, uid: Uid, id: Id)
    requires Good(rows)
    ensures Proper(rows, Delete(rows, uid, id), uid)
  {
    var after := Delete(rows, uid, id);
    if after != rows {
      SurvivorsRemain(rows, uid, id);
      var active :| IsActive(rows, uid, active) && forall j :: IsActive(rows, uid, j) ==> j == active;
      assert rows[id].active ==> IsActive(rows, uid, id);
      var heir := if active == id then First(rows - {id}, uid) else active;
      assert IsActive(after, uid, heir) && heir in IdsOf(after, uid);
      forall j | IsActive(after, uid, j) ensures j == heir {
        assert j != heir ==> IsActive(rows, uid, j);
      }
    }
  }

  /** The identity an action works for; an action that is not enabled works for none. */
  ghost function Owner(s: Sys, a: Action): Uid {
    if a.CountMinds? || a.InsertMind? then (if s.Pc(a.t).Idle? then 0 else s.Pc(a.t).uid) else a.uid
  }

  lemma StepIsProper(s: Sys, a: Action)
    requires Inv(s)
    ensures Proper(s.rows, Step(s, a).rows, Owner(s, a))
  {
    match a
    case SeedDefault(uid, id, now) => SeedIsProper(s.rows, uid, id, now);
    case StartCreate(t, uid, id, now) => SeedIsProper(s.rows, uid, id, now);
    case CountMinds(t) =>
    case InsertMind(t, id, name, now) =>
      if s.Pc(t).Counted? {
        InsertIsProper(s.rows, s.Pc(t).uid, id, name, now);
      }
    case UpdateMind(uid, id, name) => RenameIsProper(s.rows, uid, id, name);
    case SelectMind(uid, id) => SelectIsProper(s.rows, uid, id);
    case DeleteMind(uid, id) => DeleteIsProper(s.rows, uid, id);
  }

  lemma StepKeepsInv(s: Sys, a: Action)
    requires Inv(s)
    ensures Inv(Step(s, a)) && Keeps(s.rows, Step(s, a).rows)
  {
    StepIsProper(s, a);
    ProperKeepsGood(s.rows, Step(s, a).rows, Owner(s, a));
    if a.StartCreate? {
      SeedIsProper(s.rows, a.uid, a.id, a.now);
    }
  }

  lemma {:induction false} RunKeepsInv(s: Sys, actions: seq<Action>)
    requires Inv(s)
    ensures Inv(Run(s, actions)) && Keeps(s.rows, Run(s, actions).rows)
    decreases actions
  {
    if actions != [] {
      StepKeepsInv(s, actions[0]);
      RunKeepsInv(Step(s, actions[0]), actions[1..]);
    }
  }

  // ------------------------------------------------------------------- theorems

  /** In every interleaving, an identity with minds has exactly one active mind, and once it
      has a mind it never again has none. */
  lemma ExactlyOneActive(actions: seq<Action>, later: seq<Action>, uid: Uid)
    requires IdsOf(Run(EMPTY, actions).rows, uid) != {}
    ensures IdsOf(Run(Run(EMPTY, actions), later).rows, uid) != {}
    ensures OneActive(Run(Run(EMPTY, actions), later).rows, uid)
  {
    RunKeepsInv(EMPTY, actions);
    RunKeepsInv(Run(EMPTY, actions), later);
  }

  /** None of the actions works for the identity. */
  ghost predicate NoneFor(s: Sys, actions: seq<Action>, uid: Uid)
    decreases actions
  {
    actions != [] ==> Owner(s, actions[0]) != uid && NoneFor(Step(s, actions[0]), actions[1..], uid)
  }

  /** Whatever other identities do, this one's minds stay as they are. */
  lemma {:induction false} OthersAreUntouched(s: Sys, actions: seq<Action>, uid: Uid)
    requires Inv(s) && NoneFor(s, actions, uid)
    ensures Untouched(s.rows, Run(s, actions).rows, uid)
    decreases actions
  {
    if actions != [] {
      StepIsProper(s, actions[0]);
      ProperLeavesOthers(s.rows, Step(s, actions[0]).rows, Owner(s, actions[0]), uid);
      StepKeepsInv(s, actions[0]);
      OthersAreUntouched(Step(s, actions[0]), actions[1..], uid);
    }
  }

  /** Deleting the active mind leaves the first survivor, and nobody else, active. */
  lemma FirstSurvivorInherits(rows: Table, uid: Uid, id: Id, heir: Id)
    requires Good(rows) && IsActive(rows, uid, id) && IdsOf(rows, uid) != {id}
    ensures IsActive(Delete(rows, uid, id), uid, heir) <==> IsFirst(rows - {id}, uid, heir)
  {
    SurvivorsRemain(rows, uid, id);
    var after, first := Delete(rows, uid, id), First(rows - {id}, uid);
    if IsFirst(rows - {id}, uid, heir) {
      FirstIsUnique(rows - {id}, uid, heir, first);
    }
    assert OneActive(rows, uid);
    assert IsActive(after, uid, heir) && heir != first ==> IsActive(rows, uid, heir) && heir != id;
  }

  /** The first mind is the oldest one if and only if no mind of the same second continues
      the oldest one's fraction of a second. */
  lemma OldestIsFirstExactly(rows: Table, uid: Uid, stamps: map<Id, Stamp>, oldest: Id)
    requires Owns(rows, uid, oldest)
    requires forall j :: Owns(rows, uid, j) ==>
      j in stamps && IsDigits(stamps[j].digits) && rows[j].createdAt == Text(stamps[j])
    requires forall j :: Owns(rows, uid, j) && j != oldest ==>
      |stamps[oldest].second| == |stamps[j].second| && Earlier(stamps[oldest], stamps[j])
    ensures IsFirst(rows, uid, oldest) <==>
      forall j :: Owns(rows, uid, j) && j != oldest ==>
        !(stamps[oldest].second == stamps[j].second && stamps[oldest].digits <= stamps[j].digits)
  {
    forall j | Owns(rows, uid, j) && j != oldest
      ensures Sooner(rows, oldest, j) <==>
        !(stamps[oldest].second == stamps[j].second && stamps[oldest].digits <= stamps[j].digits)
    {
      TextOrderIsTimeOrder(stamps[oldest], stamps[j]);
      if rows[oldest].createdAt == rows[j].createdAt {
        TextIsInjective(stamps[oldest], stamps[j]);
        LessIsTotal(stamps[oldest].second, stamps[j].second);
      }
    }
  }

  // ------------------------------------------------------------------ the limit

  /** The `Create` calls for an identity that have counted and not yet inserted. */
  function Counters(pcs: map<Tid, Pc>, uid: Uid): set<Tid> { set t | t in pcs && pcs[t] == Counted(uid) }

  /** In every state of the run, at most `k` calls are between their count and their insert. */
  ghost predicate AtMost(s: Sys, actions: seq<Action>, uid: Uid, k: nat)
    decreases actions
  {
    |Counters(s.pcs, uid)| <= k && (actions != [] ==> AtMost(Step(s, actions[0]), actions[1..], uid, k))
  }

  /** A call that has counted owns its place in advance. */
  ghost predicate Bounded(s: Sys, uid: Uid, k: nat) {
    Count(s.rows, uid) + |Counters(s.pcs, uid)| < MAX_MINDS + k
  }

  lemma CountAfterDelete(rows: Table, uid: Uid, id: Id)
    ensures Count(Delete(rows, uid, id), uid) <= Count(rows, uid)
  {
    var after := Delete(rows, uid, id);
    if after != rows {
      SurvivorsRemain(rows, uid, id);
      assert IdsOf(after, uid) == IdsOf(rows - {id}, uid);
    }
  }

  lemma CountAfterUpdates(rows: Table, uid: Uid, id: Id, name: string)
    ensures Count(Select(rows, uid, id), uid) == Count(Rename(rows, uid, id, name), uid) == Count(rows, uid)
  {
    assert IdsOf(Select(rows, uid, id), uid) == IdsOf(rows, uid);
    assert IdsOf(Rename(rows, uid, id, name), uid) == IdsOf(rows, uid);
  }

  lemma CountOfOther(s: Sys, a: Action, uid: Uid)
    requires Inv(s) && Owner(s, a) != uid
    ensures Count(Step(s, a).rows, uid) == Count(s.rows, uid)
  {
    StepIsProper(s, a);
    hide Step, Inv, Owner;
    ProperLeavesOthers(s.rows, Step(s, a).rows, Owner(s, a), uid);
    UntouchedFacts(s.rows, Step(s, a).rows, uid);
  }

  lemma NoneCounted(s: Sys, uid: Uid)
    requires Inv(s) && Count(s.rows, uid) == 0
    ensures Counters(s.pcs, uid) == {}
  {
    assert IdsOf(s.rows, uid) == {};
  }

  /** A transaction that is no insert for the identity does not add to its minds, except the first. */
  lemma CountAfterOthers(s: Sys, a: Action, uid: Uid)
    requires Inv(s) && !(a.InsertMind? && s.Pc(a.t) == Counted(uid))
    ensures Count(Step(s, a).rows, uid) <= Count(s.rows, uid) || (Counters(s.pcs, uid) == {} && Count(Step(s, a).rows, uid) == 1)
  {
    hide Seed, Select, Rename, Delete, Insert, Counters, Good;
    if Owner(s, a) != uid {
      CountOfOther(s, a, uid);
    } else {
      hide Count;
      match a
      case SeedDefault(_, id, now) => SeedCounts(s, uid, id, now);
      case StartCreate(_, _, id, now) => SeedCounts(s, uid, id, now);
      case UpdateMind(_, id, name) => CountAfterUpdates(s.rows, uid, id, name);
      case SelectMind(_, id) => CountAfterUpdates(s.rows, uid, id, "");
      case DeleteMind(_, id) => CountAfterDelete(s.rows, uid, id);
      case _ =>
    }
  }

  lemma SeedCounts(s: Sys, uid: Uid, id: Id, now: string)
    requires Inv(s)
    ensures Count(Seed(s.rows, uid, id, now), uid) == Count(s.rows, uid)
         || (Counters(s.pcs, uid) == {} && Count(Seed(s.rows, uid, id, now), uid) == 1)
  {
    if id !in s.rows {
      CountAfterSeed(s.rows, uid, id, now);
      if Count(s.rows, uid) == 0 {
        NoneCounted(s, uid);
      }
    }
  }

  lemma CountersAfter(s: Sys, a: Action, uid: Uid)
    ensures
      Counters(Step(s, a).pcs, uid) ==
        if a.CountMinds? && s.Pc(a.t) == Seeded(uid) && Count(s.rows, uid) < MAX_MINDS then Counters(s.pcs, uid) + {a.t}
        else if a.InsertMind? && s.Pc(a.t) == Counted(uid) then Counters(s.pcs, uid) - {a.t}
        else Counters(s.pcs, uid)
  {
  }

  lemma StepKeepsBound(s: Sys, a: Action, uid: Uid, k: nat)
    requires Inv(s) && Bounded(s, uid, k) && |Counters(Step(s, a).pcs, uid)| <= k
    ensures Bounded(Step(s, a), uid, k)
  {
    CountersAfter(s, a, uid);
    if a.InsertMind? && s.Pc(a.t) == Counted(uid) {
      assert a.t in Counters(s.pcs, uid);
      if a.id !in s.rows {
        CountAfterInsert(s.rows, uid, a.id, a.name, a.now);
      }
    } else {
      CountAfterOthers(s, a, uid);
    }
  }

  lemma {:induction false} RunKeepsBound(s: Sys, actions: seq<Action>, uid: Uid, k: nat)
    requires Inv(s) && Bounded(s, uid, k) && AtMost(s, actions, uid, k)
    ensures Bounded(Run(s, actions), uid, k)
    decreases actions
  {
    if actions != [] {
      StepKeepsInv(s, actions[0]);
      StepKeepsBound(s, actions[0], uid, k);
      RunKeepsBound(Step(s, actions[0]), actions[1..], uid, k);
    }
  }

  /** With at most `k` creations of an identity in progress at once, its minds number at
      most 15 + k: sixteen when calls are serialized. */
  lemma LimitHolds(actions: seq<Action>, uid: Uid, k: nat)
    requires AtMost(EMPTY, actions, uid, k)
    ensures Count(Run(EMPTY, actions).rows, uid) < MAX_MINDS + k
  {
    assert IdsOf(map[], uid) == {} && Counters(map[], uid) == {};
    RunKeepsBound(EMPTY, actions, uid, k);
  }

  ghost predicate Reached(s: Sys, k: nat) {
    exists actions :: AtMost(EMPTY, actions, 0, k) && Run(EMPTY, actions) == s
  }

  lemma {:induction false} OneMore(s: Sys, actions: seq<Action>, a: Action, k: nat)
    requires AtMost(s, actions, 0, k) && |Counters(Step(Run(s, actions), a).pcs, 0)| <= k
    ensures AtMost(s, actions + [a], 0, k) && Run(s, actions + [a]) == Step(Run(s, actions), a)
    decreases actions
  {
    if actions == [] {
      assert (actions + [a])[1..] == [];
      assert AtMost(Step(s, a), [], 0, k);
    } else {
      assert (actions + [a])[1..] == actions[1..] + [a];
      OneMore(Step(s, actions[0]), actions[1..], a, k);
    }
  }

  lemma StepIsReached(s: Sys, a: Action, k: nat)
    requires Reached(s, k) && |Counters(Step(s, a).pcs, 0)| <= k
    ensures Reached(Step(s, a), k)
  {
    var actions :| AtMost(EMPTY, actions, 0, k) && Run(EMPTY, actions) == s;
    OneMore(EMPTY, actions, a, k);
  }

  /** `n` minds with ids shorter than `n`; the first `c` threads have counted, the others are idle. */
  ghost predicate Shape(s: Sys, n: nat, c: nat) {
    && Count(s.rows, 0) == n
    && (forall id :: id in s.rows ==> |id| < n)
    && (forall t: Tid :: s.Pc(t) == if t < c then Counted(0) else Idle)
  }

  function NewId(n: nat): (id: Id) ensures |id| == n { seq(n, _ => 'a') }

  lemma ShapeIsReached(s: Sys, a: Action, n: nat, c: nat, k: nat)
    requires Reached(s, k) && Shape(Step(s, a), n, c) && c <= k
    ensures Reached(Step(s, a), k)
  {
    var s' := Step(s, a);
    forall t | t in Counters(s'.pcs, 0) ensures t < c {
      assert s'.Pc(t) == Counted(0);
    }
    Below(c, Counters(s'.pcs, 0));
    StepIsReached(s, a, k);
  }

  /** One more call has counted fifteen minds or fewer. */
  lemma OneMoreCounts(s: Sys, n: nat, c: nat, k: nat) returns (s': Sys)
    requires Reached(s, k) && Shape(s, n, c) && 1 <= n < MAX_MINDS && c < k
    ensures Reached(s', k) && Shape(s', n, c + 1)
  {
    var start, count := StartCreate(c, 0, NewId(n), ""), CountMinds(c);
    var seeded := Step(s, start);
    assert seeded == s.(pcs := s.pcs[c := Seeded(0)]);
    CountersAfter(s, start, 0);
    forall t | t in Counters(s.pcs, 0) ensures t < c {
      assert s.Pc(t) == Counted(0);
    }
    Below(c, Counters(s.pcs, 0));
    StepIsReached(s, start, k);
    s' := Step(seeded, count);
    assert forall t: Tid :: s'.Pc(t) == if t == c then Counted(0) else s.Pc(t);
    ShapeIsReached(seeded, count, n, c + 1, k);
  }

  /** One of the calls that have counted inserts its mind. */
  lemma OneMoreInserts(s: Sys, n: nat, c: nat, k: nat) returns (s': Sys)
    requires Reached(s, k) && Shape(s, n, c) && 1 <= c <= k
    ensures Reached(s', k) && Shape(s', n + 1, c - 1)
  {
    var insert := InsertMind(c - 1, NewId(n), "", "");
    s' := Step(s, insert);
    CountAfterInsert(s.rows, 0, NewId(n), "", "");
    assert forall t: Tid :: s'.Pc(t) == if t == c - 1 then Idle else s.Pc(t);
    ShapeIsReached(s, insert, n + 1, c - 1, k);
  }

  /** The bound is sharp: `k` calls that race reach 15 + k minds. */
  lemma RacingCreations(k: nat) returns (s: Sys)
    requires k > 0
    ensures Reached(s, k) && Count(s.rows, 0) == 15 + k
  {
    var seed := SeedDefault(0, "", "");
    assert Counters(map[], 0) == {};
    assert AtMost(EMPTY, [], 0, k) && Run(EMPTY, []) == EMPTY;
    s := Step(EMPTY, seed);
    assert IdsOf(map[], 0) == {} && IdsOf(s.rows, 0) == {""};
    ShapeIsReached(EMPTY, seed, 1, 0, k);
    var n := 1;
    while n < 15
      invariant 1 <= n <= 15 && Reached(s, k) && Shape(s, n, 0)
    {
      s := OneMoreCounts(s, n, 0, k);
      s := OneMoreInserts(s, n, 1, k);
      n := n + 1;
    }
    var c := 0;
    while c < k
      invariant 0 <= c <= k && Reached(s, k) && Shape(s, 15, c)
    {
      s := OneMoreCounts(s, 15, c, k);
      c := c + 1;
    }
    while c > 0
      invariant 0 <= c <= k && Reached(s, k) && Shape(s, 15 + k - c, c)
    {
      s := OneMoreInserts(s, 15 + k - c, c, k);
      c := c - 1;
    }
  }
}
