/**
 Local accounts: named identities of the signed-out route. Every SQL statement or
 transaction is one atomic step, so calls of any number of threads interleave; a
 serialized run is the special case where each call finishes before the next begins.
 Names are normalized, and `busy` says that the account has a turn in flight.
 */
module LocalAccounts {
  import opened Counting

  type Tid = nat

  const MAX_ACCOUNTS := 32
  const MAX_ID := 0x7fff_ffff_ffff_ffff

  // --------------------------------------------------------------------- uids

  const SINGLE_USER_UID := 0x4000_0000_0000_0000  // 1 << 62
  const NO_HISTORY_UID := 0x7fff_ffff_ffff_ffff   // 1 << 63 - 1

  /** localSingleUserUID + uint64(id - 1), in 64-bit arithmetic. */
  function Uid(id: int): nat { (SINGLE_USER_UID + (id - 1) % 0x1_0000_0000_0000_0000) % 0x1_0000_0000_0000_0000 }

  /** Ids the table can hand out give distinct uids, outside every cloud uid below 2^62; the
      uid is the no-match sentinel for one id only. */
  lemma UidsAreDistinct(id: nat, other: nat)
    requires 1 <= id <= MAX_ID && 1 <= other <= MAX_ID
    ensures Uid(id) == Uid(other) <==> id == other
    ensures Uid(id) >= SINGLE_USER_UID
    ensures Uid(id) == NO_HISTORY_UID <==> id == SINGLE_USER_UID
    ensures Uid(id) == SINGLE_USER_UID <==> id == 1
  {
    assert Uid(id) == SINGLE_USER_UID + id - 1;
    assert Uid(other) == SINGLE_USER_UID + other - 1;
  }

  // -------------------------------------------------------------------- table

  datatype Account = Account(name: string, active: bool)

  /** `nextId` is the AUTOINCREMENT counter: ids are never reused. */
  datatype Table = Table(rows: map<nat, Account>, nextId: nat)

  predicate NameFree(rows: map<nat, Account>, name: string) { forall i :: i in rows ==> rows[i].name != name }

  /** INSERT: refused for a name that is taken (unique index) and once ids run out. */
  predicate CanInsert(table: Table, name: string) { NameFree(table.rows, name) && table.nextId <= MAX_ID }

  function InsertRow(table: Table, name: string, active: bool): Table {
    if CanInsert(table, name)
    then Table(table.rows[table.nextId := Account(name, active)], table.nextId + 1)
    else table
  }

  function RenameRow(table: Table, id: nat, name: string): Table {
    if id in table.rows && NameFree(table.rows - {id}, name)
    then table.(rows := table.rows[id := table.rows[id].(name := name)])
    else table
  }

  function SelectRow(table: Table, id: nat): Table {
    if id in table.rows
    then table.(rows := map i | i in table.rows :: table.rows[i].(active := i == id))
    else table
  }

  function DropRow(table: Table, id: nat): Table { table.(rows := table.rows - {id}) }

  // ------------------------------------------------------------- interleaving

  datatype Goal = Listing | Creating(name: string) | Selecting(id: nat)

  /** Where a call stands: about to seed, seeded, about to insert, about to delete. */
  datatype Pc = Idle | Seeding(goal: Goal) | Seeded(goal: Goal) | Inserting(name: string) | Deleting(id: nat)

  datatype Sys = Sys(table: Table, pcs: map<Tid, Pc>) {
    function Pc(t: Tid): Pc { if t in pcs then pcs[t] else Idle }
  }

  const EMPTY := Sys(Table(map[], 1), map[])

  datatype Action =
    | CountRows(t: Tid, goal: Goal)               // ensureDefault: count
    | SeedInsert(t: Tid, name: string)            // ensureDefault: insert, active
    | Proceed(t: Tid)                             // list, count against the limit, or select
    | InsertAccount(t: Tid)                       // create: insert, inactive
    | RenameAccount(id: nat, name: string)
    | CheckDelete(t: Tid, id: nat, busy: bool)    // delete: the refusals
    | DeleteAccount(t: Tid)                       // delete: remove the row
    | GiveUp(t: Tid)                              // a statement of the call failed

  function Reply(table: Table, goal: Goal): (Table, Pc) {
    match goal
    case Listing => (table, Idle)
    case Creating(name) => (table, if |table.rows| >= MAX_ACCOUNTS then Idle else Inserting(name))
    case Selecting(id) => (SelectRow(table, id), Idle)
  }

  /** An action that is not enabled changes nothing. */
  function Step(s: Sys, a: Action): Sys {
    match a
    case CountRows(t, goal) =>
      if s.Pc(t).Idle? then s.(pcs := s.pcs[t := if s.table.rows == map[] then Seeding(goal) else Seeded(goal)]) else s
    case SeedInsert(t, name) =>
      if s.Pc(t).Seeding?
      then Sys(InsertRow(s.table, name, true), s.pcs[t := if CanInsert(s.table, name) then Seeded(s.Pc(t).goal) else Idle])
      else s
    case Proceed(t) =>
      if s.Pc(t).Seeded?
      then var (table, pc) := Reply(s.table, s.Pc(t).goal); Sys(table, s.pcs[t := pc])
      else s
    case InsertAccount(t) =>
      if s.Pc(t).Inserting? then Sys(InsertRow(s.table, s.Pc(t).name, false), s.pcs[t := Idle]) else s
    case RenameAccount(id, name) => s.(table := RenameRow(s.table, id, name))
    case CheckDelete(t, id, busy) =>
      if s.Pc(t).Idle? && id in s.table.rows && !s.table.rows[id].active && !busy
      then s.(pcs := s.pcs[t := Deleting(id)])
      else s
    case DeleteAccount(t) =>
      if s.Pc(t).Deleting? then Sys(DropRow(s.table, s.Pc(t).id), s.pcs[t := Idle]) else s
    case GiveUp(t) => s.(pcs := s.pcs[t := Idle])
  }

  function Run(s: Sys, actions: seq<Action>): Sys
    decreases actions
  {
    if actions == [] then s else Run(Step(s, actions[0]), actions[1..])
  }

  // ---------------------------------------------------------------- invariant

  ghost predicate OnlyActive(rows: map<nat, Account>, id: nat) {
    id in rows && rows[id].active && forall j :: j in rows && rows[j].active ==> j == id
  }

  ghost predicate LeastActive(rows: map<nat, Account>, id: nat) {
    id in rows && rows[id].active && forall j :: j in rows && rows[j].active ==> id <= j
  }

  ghost predicate OneActive(rows: map<nat, Account>) { exists id :: OnlyActive(rows, id) }

  /** Ids are below the counter, names are unique, and nobody is past seeding a table that
      never had a row. */
  ghost predicate Inv(s: Sys) {
    && 1 <= s.table.nextId <= MAX_ID + 1
    && (forall i :: i in s.table.rows ==> 1 <= i < s.table.nextId)
    && (forall i, j :: i in s.table.rows && j in s.table.rows && s.table.rows[i].name == s.table.rows[j].name ==> i == j)
    && (forall t :: t in s.pcs && (s.pcs[t].Seeded? || s.pcs[t].Inserting? || s.pcs[t].Deleting?) ==> s.table.nextId > 1)
  }

  /** Rows only go or come with a new id. */
  ghost predicate Follows(before: Table, after: Table) {
    && before.nextId <= after.nextId
    && (forall i :: i in after.rows ==> i in before.rows || i >= before.nextId)
  }

  lemma StepKeepsInv(s: Sys, a: Action)
    requires Inv(s)
    ensures Inv(Step(s, a)) && Follows(s.table, Step(s, a).table)
  {
    if a.RenameAccount? && Step(s, a) != s {
      assert forall j :: j in s.table.rows && j != a.id ==> j in s.table.rows - {a.id};
    }
  }

  lemma {:induction false} RunKeepsInv(s: Sys, actions: seq<Action>)
    requires Inv(s)
    ensures Inv(Run(s, actions)) && Follows(s.table, Run(s, actions).table)
    decreases actions
  {
    if actions != [] {
      StepKeepsInv(s, actions[0]);
      RunKeepsInv(Step(s, actions[0]), actions[1..]);
    }
  }

  // ------------------------------------------------------- identity never moves

  /** In every interleaving: an id once deleted is never in the table again, so its uid is
      never another account's. */
  lemma UidsAreNeverReissued(actions: seq<Action>, middle: seq<Action>, later: seq<Action>, id: nat, other: nat)
    requires id in Run(EMPTY, actions).table.rows
    requires id !in Run(Run(EMPTY, actions), middle).table.rows
    requires other in Run(Run(Run(EMPTY, actions), middle), later).table.rows
    ensures Uid(other) != Uid(id)
  {
    RunKeepsInv(EMPTY, actions);
    RunKeepsInv(Run(EMPTY, actions), middle);
    RunKeepsInv(Run(Run(EMPTY, actions), middle), later);
    UidsAreDistinct(id, other);
  }

  /** In every interleaving: the first row the table ever holds is active, and its uid is the
      reserved single-user uid. */
  lemma FirstAccountIsTheOldUser(actions: seq<Action>, a: Action)
    requires Run(EMPTY, actions).table.rows == map[] && Run(EMPTY, actions).table.nextId == 1
    requires Step(Run(EMPTY, actions), a).table.rows != map[]
    ensures a.SeedInsert? && Step(Run(EMPTY, actions), a).table.rows == map[1 := Account(a.name, true)]
    ensures Uid(1) == SINGLE_USER_UID
  {
    RunKeepsInv(EMPTY, actions);
    UidsAreDistinct(1, 1);
  }

  /** A rename moves no id and no flag, and no two accounts ever share a name. */
  lemma RenameMovesNothing(s: Sys, id: nat, name: string)
    requires Inv(s)
    ensures var after := Step(s, RenameAccount(id, name)).table.rows;
      && after.Keys == s.table.rows.Keys
      && (forall i :: i in after ==> after[i].active == s.table.rows[i].active && (i != id ==> after[i] == s.table.rows[i]))
      && (forall i, j :: i in after && j in after && after[i].name == after[j].name ==> i == j)
  {
    StepKeepsInv(s, RenameAccount(id, name));
  }

  /** From every state: the row a deletion was checked for is removed, and no other row and no
      id changes; the check passes exactly for an idle account that is there and not active. */
  lemma DeletionRemovesExactly(s: Sys, t: Tid, id: nat, busy: bool)
    ensures s.Pc(t) == Deleting(id) ==> Step(s, DeleteAccount(t)).table == s.table.(rows := s.table.rows - {id})
    ensures s.Pc(t).Idle? ==>
      var after := Step(s, CheckDelete(t, id, busy));
      after.table == s.table && after.Pc(t) == if id in s.table.rows && !s.table.rows[id].active && !busy then Deleting(id) else Idle
  {
  }

  // --------------------------------------------------------- exactly one active

  /** The two steps that break the rule: removing a row that was selected after the active
      check, and seeding a table that was seeded, under another name, after the count. */
  predicate Hazard(s: Sys, a: Action) {
    || (a.DeleteAccount? && s.Pc(a.t).Deleting? && s.Pc(a.t).id in s.table.rows && s.table.rows[s.Pc(a.t).id].active)
    || (a.SeedInsert? && s.Pc(a.t).Seeding? && s.table.rows != map[] && CanInsert(s.table, a.name))
  }

  lemma InsertKeepsOne(table: Table, name: string)
    requires OneActive(table.rows) && table.nextId !in table.rows
    ensures OneActive(InsertRow(table, name, false).rows)
    ensures OneActive(InsertRow(table, name, true).rows) <==> !CanInsert(table, name)
  {
    hide NameFree;
    var id :| OnlyActive(table.rows, id);
    assert OnlyActive(InsertRow(table, name, false).rows, id);
    if CanInsert(table, name) {
      var rows := InsertRow(table, name, true).rows;
      assert rows[table.nextId].active && rows[id].active;
    }
  }

  lemma SelectKeepsOne(table: Table, id: nat)
    requires OneActive(table.rows)
    ensures OneActive(SelectRow(table, id).rows)
  {
    if id in table.rows {
      assert OnlyActive(SelectRow(table, id).rows, id);
    }
  }

  lemma RenameKeepsOne(table: Table, id: nat, name: string)
    requires OneActive(table.rows)
    ensures OneActive(RenameRow(table, id, name).rows)
  {
    hide NameFree;
    var one :| OnlyActive(table.rows, one);
    assert OnlyActive(RenameRow(table, id, name).rows, one);
  }

  lemma DropKeepsOne(table: Table, id: nat)
    requires OneActive(table.rows)
    ensures OneActive(DropRow(table, id).rows) <==> !(id in table.rows && table.rows[id].active)
  {
    var one :| OnlyActive(table.rows, one);
    if one != id {
      assert OnlyActive(DropRow(table, id).rows, one);
    }
  }

  /** A step keeps exactly one account active if and only if it is not one of the hazards. */
  lemma StepKeepsOneExactly(s: Sys, a: Action)
    requires Inv(s) && OneActive(s.table.rows)
    ensures OneActive(Step(s, a).table.rows) <==> !Hazard(s, a)
  {
    match a
    case SeedInsert(t, name) => InsertKeepsOne(s.table, name);
    case InsertAccount(t) => if s.Pc(t).Inserting? { InsertKeepsOne(s.table, s.Pc(t).name); }
    case Proceed(t) => if s.Pc(t).Seeded? && s.Pc(t).goal.Selecting? { SelectKeepsOne(s.table, s.Pc(t).goal.id); }
    case RenameAccount(id, name) => RenameKeepsOne(s.table, id, name);
    case DeleteAccount(t) => if s.Pc(t).Deleting? { DropKeepsOne(s.table, s.Pc(t).id); }
    case _ =>
  }

  ghost predicate NoHazard(s: Sys, actions: seq<Action>)
    decreases actions
  {
    actions != [] ==> !Hazard(s, actions[0]) && NoHazard(Step(s, actions[0]), actions[1..])
  }

  /** Never seeded, or exactly one active. */
  ghost predicate Healthy(s: Sys) {
    Inv(s) && if s.table.nextId == 1 then s.table.rows == map[] else OneActive(s.table.rows)
  }

  lemma StepKeepsHealth(s: Sys, a: Action)
    requires Healthy(s) && !Hazard(s, a)
    ensures Healthy(Step(s, a))
  {
    StepKeepsInv(s, a);
    if s.table.nextId > 1 {
      StepKeepsOneExactly(s, a);
    } else if Step(s, a).table != s.table {
      assert a.SeedInsert?;
      assert Step(s, a).table.rows == map[1 := Account(a.name, true)];
      assert OnlyActive(Step(s, a).table.rows, 1);
    }
  }

  /** Every state of the run is healthy. */
  ghost predicate AlwaysHealthy(s: Sys, actions: seq<Action>)
    decreases actions
  {
    Healthy(s) && (actions != [] ==> AlwaysHealthy(Step(s, actions[0]), actions[1..]))
  }

  lemma HazardHurts(s: Sys, a: Action)
    requires Healthy(s) && Hazard(s, a)
    ensures !Healthy(Step(s, a))
  {
    StepKeepsInv(s, a);
    if s.table.nextId > 1 {
      StepKeepsOneExactly(s, a);
    }
  }

  /** In every interleaving: exactly one account is active at all times, once any account was
      created, if and only if no step of the run is a hazard. */
  lemma {:induction false} ExactlyOneActive(s: Sys, actions: seq<Action>)
    requires Healthy(s)
    ensures AlwaysHealthy(s, actions) <==> NoHazard(s, actions)
    ensures NoHazard(s, actions) ==> Healthy(Run(s, actions))
    decreases actions
  {
    if actions != [] {
      if Hazard(s, actions[0]) {
        HazardHurts(s, actions[0]);
      } else {
        StepKeepsHealth(s, actions[0]);
        ExactlyOneActive(Step(s, actions[0]), actions[1..]);
      }
    }
  }

  // ----------------------------------------------------------- serialized calls

  predicate AllIdle(s: Sys) { forall t :: t in s.pcs ==> s.pcs[t].Idle? }

  predicate OthersIdle(s: Sys, t: Tid) { forall u :: u in s.pcs && u != t ==> s.pcs[u].Idle? }

  /** No call takes a step while another one is under way. */
  ghost predicate Serialized(s: Sys, actions: seq<Action>)
    decreases actions
  {
    actions != [] ==>
      && (if actions[0].RenameAccount? then AllIdle(s) else OthersIdle(s, actions[0].t))
      && Serialized(Step(s, actions[0]), actions[1..])
  }

  /** What a call has read still holds. */
  ghost predicate StillTrue(table: Table, pc: Pc) {
    match pc
    case Seeding(_) => table.rows == map[]
    case Inserting(_) => |table.rows| < MAX_ACCOUNTS
    case Deleting(id) => id in table.rows && !table.rows[id].active
    case _ => true
  }

  ghost predicate Undisturbed(s: Sys) {
    |s.table.rows| <= MAX_ACCOUNTS && forall t :: t in s.pcs ==> StillTrue(s.table, s.pcs[t])
  }

  lemma SizeAfterInsert(table: Table, name: string, active: bool)
    requires table.nextId !in table.rows
    ensures |InsertRow(table, name, active).rows| <= |table.rows| + 1
  {
    var after := InsertRow(table, name, active).rows;
    if CanInsert(table, name) {
      assert after.Keys == table.rows.Keys + {table.nextId};
      assert |after| == |after.Keys| && |table.rows| == |table.rows.Keys|;
    }
  }

  lemma SizeAfterOthers(table: Table, id: nat, name: string)
    ensures |SelectRow(table, id).rows| == |RenameRow(table, id, name).rows| == |table.rows|
    ensures |DropRow(table, id).rows| <= |table.rows|
  {
    assert |table.rows| == |table.rows.Keys|;
    var selected, renamed, dropped := SelectRow(table, id).rows, RenameRow(table, id, name).rows, DropRow(table, id).rows;
    assert selected.Keys == table.rows.Keys && |selected| == |selected.Keys|;
    assert renamed.Keys == table.rows.Keys && |renamed| == |renamed.Keys|;
    assert dropped.Keys == table.rows.Keys - {id} && |dropped| == |dropped.Keys|;
  }

  lemma SizeStaysBounded(s: Sys, a: Action)
    requires Inv(s) && Undisturbed(s)
    ensures |Step(s, a).table.rows| <= MAX_ACCOUNTS
  {
    hide NameFree, SelectRow, RenameRow, DropRow, InsertRow;
    match a
    case SeedInsert(t, name) => SizeAfterInsert(s.table, name, true);
    case InsertAccount(t) => if s.Pc(t).Inserting? { SizeAfterInsert(s.table, s.Pc(t).name, false); }
    case Proceed(t) => if s.Pc(t).Seeded? && s.Pc(t).goal.Selecting? { SizeAfterOthers(s.table, s.Pc(t).goal.id, ""); }
    case RenameAccount(id, name) => SizeAfterOthers(s.table, id, name);
    case DeleteAccount(t) => if s.Pc(t).Deleting? { SizeAfterOthers(s.table, s.Pc(t).id, ""); }
    case _ =>
  }

  /** What the acting call has read holds after its step. */
  lemma OwnReadHolds(s: Sys, a: Action)
    requires !a.RenameAccount? && Undisturbed(s)
    ensures StillTrue(Step(s, a).table, Step(s, a).Pc(a.t))
  {
    hide NameFree, SelectRow, RenameRow, InsertRow;
  }

  lemma OthersStayIdle(s: Sys, a: Action)
    requires !a.RenameAccount? && OthersIdle(s, a.t)
    ensures OthersIdle(Step(s, a), a.t)
  {
    hide NameFree, SelectRow, RenameRow, InsertRow, DropRow;
  }

  lemma NoSerialHazard(s: Sys, a: Action)
    requires Undisturbed(s)
    ensures !Hazard(s, a)
  {
  }

  lemma SerialStepIsUndisturbed(s: Sys, a: Action)
    requires Inv(s) && Undisturbed(s) && Serialized(s, [a])
    ensures Undisturbed(Step(s, a)) && !Hazard(s, a)
  {
    SizeStaysBounded(s, a);
    NoSerialHazard(s, a);
    assert [a][0] == a;
    if a.RenameAccount? {
      hide RenameRow, Inv;
    } else {
      OwnReadHolds(s, a);
      OthersStayIdle(s, a);
      hide Step, StillTrue, Hazard, Inv;
      var s' := Step(s, a);
      forall t | t in s'.pcs ensures StillTrue(s'.table, s'.pcs[t]) {
        if t != a.t {
          IdleReadsNothing(s'.table);
        }
      }
    }
  }

  lemma IdleReadsNothing(table: Table)
    ensures StillTrue(table, Idle)
  {
  }

  /** Over every serialized run from the empty table: exactly one account is active once one
      was created, and there are never more than 32. */
  lemma {:induction false} SerializedRunsAreHealthy(s: Sys, actions: seq<Action>)
    requires Healthy(s) && Undisturbed(s) && Serialized(s, actions)
    ensures Healthy(Run(s, actions)) && Undisturbed(Run(s, actions)) && NoHazard(s, actions)
    decreases actions
  {
    if actions != [] {
      assert Serialized(s, [actions[0]]);
      SerialStepIsUndisturbed(s, actions[0]);
      StepKeepsHealth(s, actions[0]);
      SerializedRunsAreHealthy(Step(s, actions[0]), actions[1..]);
    }
  }

  // ------------------------------------------------------------------ the limit

  predicate PastCount(pc: Pc) { pc.Seeding? || pc.Inserting? }

  /** The calls that have counted and not yet inserted. */
  function Counters(pcs: map<Tid, Pc>): set<Tid> { set t | t in pcs && PastCount(pcs[t]) }

  /** In every state of the run, at most `k` calls are between a count and its insert. */
  ghost predicate AtMost(s: Sys, actions: seq<Action>, k: nat)
    decreases actions
  {
    |Counters(s.pcs)| <= k && (actions != [] ==> AtMost(Step(s, actions[0]), actions[1..], k))
  }

  /** A call that has counted owns its place in advance. */
  ghost predicate Bounded(s: Sys, k: nat) { |s.table.rows| + |Counters(s.pcs)| < MAX_ACCOUNTS + k }

  lemma CountersAfter(pcs: map<Tid, Pc>, t: Tid, pc: Pc)
    ensures Counters(pcs[t := pc]) == if PastCount(pc) then Counters(pcs) + {t} else Counters(pcs) - {t}
    ensures t in Counters(pcs) <==> t in pcs && PastCount(pcs[t])
  {
  }

  /** The step inserts for a call that had counted. */
  predicate Leaves(s: Sys, a: Action) {
    (a.SeedInsert? && s.Pc(a.t).Seeding?) || (a.InsertAccount? && s.Pc(a.t).Inserting?)
  }

  /** The step is a count that lets its call go on to insert. */
  predicate Joins(s: Sys, a: Action) {
    || (a.CountRows? && s.table.rows == map[])
    || (a.Proceed? && s.Pc(a.t).Seeded? && s.Pc(a.t).goal.Creating? && |s.table.rows| < MAX_ACCOUNTS)
  }

  lemma StepMovesCounters(s: Sys, a: Action)
    ensures Leaves(s, a) ==> |Counters(Step(s, a).pcs)| == |Counters(s.pcs)| - 1
    ensures !Joins(s, a) ==> |Counters(Step(s, a).pcs)| <= |Counters(s.pcs)|
  {
    hide NameFree, Counters, SelectRow, RenameRow, DropRow, InsertRow;
    if !a.RenameAccount? {
      CountersAfter(s.pcs, a.t, Step(s, a).Pc(a.t));
    }
  }

  lemma StepMovesSize(s: Sys, a: Action)
    requires Inv(s)
    ensures |Step(s, a).table.rows| <= |s.table.rows| + if Leaves(s, a) then 1 else 0
    ensures Joins(s, a) ==> Step(s, a).table == s.table && |s.table.rows| < MAX_ACCOUNTS
  {
    hide NameFree, SelectRow, RenameRow, DropRow, InsertRow;
    match a
    case SeedInsert(t, name) => SizeAfterInsert(s.table, name, true);
    case InsertAccount(t) => if s.Pc(t).Inserting? { SizeAfterInsert(s.table, s.Pc(t).name, false); }
    case Proceed(t) => if s.Pc(t).Seeded? && s.Pc(t).goal.Selecting? { SizeAfterOthers(s.table, s.Pc(t).goal.id, ""); }
    case RenameAccount(id, name) => SizeAfterOthers(s.table, id, name);
    case DeleteAccount(t) => if s.Pc(t).Deleting? { SizeAfterOthers(s.table, s.Pc(t).id, ""); }
    case _ =>
  }

  /** What a step adds to the table comes from a call that leaves its place. */
  lemma StepTakesItsPlace(s: Sys, a: Action)
    requires Inv(s)
    ensures var s' := Step(s, a);
            || |s'.table.rows| + |Counters(s'.pcs)| <= |s.table.rows| + |Counters(s.pcs)|
            || |s'.table.rows| < MAX_ACCOUNTS
  {
    hide Step, Leaves, Joins;
    StepMovesCounters(s, a);
    StepMovesSize(s, a);
  }

  lemma {:induction false} RunKeepsBound(s: Sys, actions: seq<Action>, k: nat)
    requires Inv(s) && Bounded(s, k) && AtMost(s, actions, k)
    ensures Bounded(Run(s, actions), k)
    decreases actions
  {
    hide Step, Inv;
    if actions != [] {
      StepKeepsInv(s, actions[0]);
      StepTakesItsPlace(s, actions[0]);
      RunKeepsBound(Step(s, actions[0]), actions[1..], k);
    }
  }

  /** With at most `k` calls between a count and its insert at once, at most 31 + k accounts:
      32 when calls are serialized. */
  lemma LimitHolds(actions: seq<Action>, k: nat)
    requires AtMost(EMPTY, actions, k)
    ensures |Run(EMPTY, actions).table.rows| < MAX_ACCOUNTS + k
  {
    assert Counters(map[]) == {};
    RunKeepsBound(EMPTY, actions, k);
  }

  ghost predicate Reached(s: Sys, k: nat) {
    Inv(s) && exists actions :: AtMost(EMPTY, actions, k) && Run(EMPTY, actions) == s
  }

  lemma {:induction false} OneMore(s: Sys, actions: seq<Action>, a: Action, k: nat)
    requires AtMost(s, actions, k) && |Counters(Step(Run(s, actions), a).pcs)| <= k
    ensures AtMost(s, actions + [a], k) && Run(s, actions + [a]) == Step(Run(s, actions), a)
    decreases actions
  {
    hide Step;
    if actions == [] {
      assert (actions + [a])[1..] == [];
      assert AtMost(Step(s, a), [], k);
    } else {
      assert (actions + [a])[1..] == actions[1..] + [a];
      OneMore(Step(s, actions[0]), actions[1..], a, k);
    }
  }

  lemma StepIsReached(s: Sys, a: Action, c: nat, k: nat)
    requires Reached(s, k) && c <= k && forall t: Tid :: PastCount(Step(s, a).Pc(t)) ==> t < c
    ensures Reached(Step(s, a), k)
  {
    var actions :| AtMost(EMPTY, actions, k) && Run(EMPTY, actions) == s;
    StepKeepsInv(s, a);
    var after := Step(s, a);
    forall t | t in Counters(after.pcs) ensures t < c {
      assert PastCount(after.Pc(t));
    }
    Below(c, Counters(after.pcs));
    OneMore(EMPTY, actions, a, k);
  }

  /** `n` accounts so far; the first `c` threads are about to insert, the others are idle. */
  ghost predicate Shape(s: Sys, n: nat, c: nat) {
    && |s.table.rows| == n && s.table.nextId == n + 1
    && forall t: Tid :: if t < c then s.Pc(t).Inserting? else s.Pc(t).Idle?
  }

  /** No two names in use or about to be used are the same; all are shorter than `b`. */
  ghost predicate Apart(s: Sys, b: nat) {
    && (forall i :: i in s.table.rows ==> |s.table.rows[i].name| < b)
    && (forall t: Tid :: s.Pc(t).Inserting? ==> |s.Pc(t).name| < b && NameFree(s.table.rows, s.Pc(t).name))
    && (forall t: Tid, u: Tid :: s.Pc(t).Inserting? && s.Pc(u).Inserting? && s.Pc(t).name == s.Pc(u).name ==> t == u)
  }

  function NewName(n: nat): (name: string) ensures |name| == n { seq(n, _ => 'a') }

  /** One more call has counted 31 accounts or fewer. */
  lemma OneMoreCounts(s: Sys, n: nat, c: nat, k: nat, b: nat) returns (s': Sys)
    requires Reached(s, k) && Shape(s, n, c) && Apart(s, b) && 1 <= n < MAX_ACCOUNTS && c < k
    ensures Reached(s', k) && Shape(s', n, c + 1) && Apart(s', b + 1)
  {
    var counted := Step(s, CountRows(c, Creating(NewName(b))));
    assert counted == s.(pcs := s.pcs[c := Seeded(Creating(NewName(b)))]);
    assert forall t: Tid :: counted.Pc(t) == if t == c then Seeded(Creating(NewName(b))) else s.Pc(t);
    StepIsReached(s, CountRows(c, Creating(NewName(b))), c, k);
    s' := Step(counted, Proceed(c));
    assert s'.table == s.table && forall t: Tid :: s'.Pc(t) == if t == c then Inserting(NewName(b)) else s.Pc(t);
    StepIsReached(counted, Proceed(c), c + 1, k);
  }

  lemma InsertStep(s: Sys, t: Tid)
    requires s.Pc(t).Inserting? && CanInsert(s.table, s.Pc(t).name) && s.table.nextId !in s.table.rows
    ensures var s' := Step(s, InsertAccount(t));
            && s'.table == Table(s.table.rows[s.table.nextId := Account(s.Pc(t).name, false)], s.table.nextId + 1)
            && |s'.table.rows| == |s.table.rows| + 1
            && forall u: Tid :: s'.Pc(u) == if u == t then Idle else s.Pc(u)
  {
    var rows := s.table.rows[s.table.nextId := Account(s.Pc(t).name, false)];
    assert rows.Keys == s.table.rows.Keys + {s.table.nextId};
    assert |rows| == |rows.Keys| && |s.table.rows| == |s.table.rows.Keys|;
    hide NameFree;
  }

  lemma InsertKeepsApart(s: Sys, t: Tid, b: nat)
    requires Apart(s, b) && s.Pc(t).Inserting? && s.table.nextId <= MAX_ID && s.table.nextId !in s.table.rows
    ensures Apart(Step(s, InsertAccount(t)), b)
  {
    InsertStep(s, t);
    hide Step, InsertRow;
  }

  /** One of the calls that have counted inserts its account. */
  lemma OneMoreInserts(s: Sys, n: nat, c: nat, k: nat, b: nat) returns (s': Sys)
    requires Reached(s, k) && Shape(s, n, c) && Apart(s, b) && 1 <= c <= k && n < MAX_ID
    ensures Reached(s', k) && Shape(s', n + 1, c - 1) && Apart(s', b)
  {
    s' := Step(s, InsertAccount(c - 1));
    assert s.table.nextId !in s.table.rows;
    InsertStep(s, c - 1);
    InsertKeepsApart(s, c - 1, b);
    hide Step, NameFree, Reached, InsertRow;
    StepIsReached(s, InsertAccount(c - 1), c - 1, k);
  }

  lemma OneAccount(k: nat) returns (s: Sys)
    requires k > 0
    ensures Reached(s, k) && Shape(s, 1, 0) && Apart(s, 1)
  {
    assert Counters(map[]) == {};
    assert AtMost(EMPTY, [], k) && Run(EMPTY, []) == EMPTY;
    var s1 := Step(EMPTY, CountRows(0, Listing));
    StepIsReached(EMPTY, CountRows(0, Listing), 1, k);
    var s2 := Step(s1, SeedInsert(0, ""));
    StepIsReached(s1, SeedInsert(0, ""), 1, k);
    s := Step(s2, Proceed(0));
    StepIsReached(s2, Proceed(0), 1, k);
    assert s.table == Table(map[1 := Account("", true)], 2);
  }

  /** The bound is sharp, as far as ids reach: `k` calls that race get to 31 + k accounts. */
  lemma RacingCreations(k: nat) returns (s: Sys)
    requires 0 < k <= MAX_ID - 31
    ensures Reached(s, k) && |s.table.rows| == 31 + k
  {
    hide Reached, Apart;
    s := OneAccount(k);
    var n, b := 1, 1;
    while n < 31
      invariant 1 <= n <= 31 && Reached(s, k) && Shape(s, n, 0) && Apart(s, b)
    {
      s := OneMoreCounts(s, n, 0, k, b);
      s := OneMoreInserts(s, n, 1, k, b + 1);
      n, b := n + 1, b + 1;
    }
    var c := 0;
    while c < k
      invariant 0 <= c <= k && Reached(s, k) && Shape(s, 31, c) && Apart(s, b)
    {
      s := OneMoreCounts(s, 31, c, k, b);
      c, b := c + 1, b + 1;
    }
    while c > 0
      invariant 0 <= c <= k && Reached(s, k) && Shape(s, 31 + k - c, c) && Apart(s, b)
    {
      s := OneMoreInserts(s, 31 + k - c, c, k, b);
      c := c - 1;
    }
  }

  // ------------------------------------------------------------- the two races

  lemma RunTwo(s: Sys, a: Action, b: Action)
    ensures Run(s, [a, b]) == Step(Step(s, a), b)
  {
    hide Step;
    assert [a, b][1..] == [b];
    assert Run(Step(s, a), [b]) == Step(Step(s, a), b);
  }

  lemma RunThree(s: Sys, a: Action, b: Action, c: Action)
    ensures Run(s, [a, b, c]) == Step(Step(Step(s, a), b), c)
  {
    hide Step;
    assert [a, b, c][1..] == [b, c];
    RunTwo(Step(s, a), b, c);
  }

  lemma RunFour(s: Sys, a: Action, b: Action, c: Action, d: Action)
    ensures Run(s, [a, b, c, d]) == Step(Step(Step(Step(s, a), b), c), d)
  {
    var s1, s2, s3 := Step(s, a), Step(Step(s, a), b), Step(Step(Step(s, a), b), c);
    assert [a, b, c, d][1..] == [b, c, d] && [b, c, d][1..] == [c, d] && [c, d][1..] == [d];
    assert Run(s1, [b, c, d]) == Run(s2, [c, d]);
    assert Run(s3, [d]) == Step(s3, d);
  }

  /** From every state: an account selected between its deletion's active check and the
      removal of its row leaves no account active. */
  lemma SelectDuringDelete(s: Sys, t: Tid, u: Tid, id: nat)
    requires t != u && s.Pc(t).Idle? && s.Pc(u).Idle? && id in s.table.rows && !s.table.rows[id].active
    ensures var after := Run(s, [CheckDelete(t, id, false), CountRows(u, Selecting(id)), Proceed(u), DeleteAccount(t)]).table.rows;
      id !in after && forall i :: i in after ==> !after[i].active
  {
    RunFour(s, CheckDelete(t, id, false), CountRows(u, Selecting(id)), Proceed(u), DeleteAccount(t));
  }

  /** From every state with one account active: the insert of a call that had counted zero
      leaves one active if and only if the unique name refuses it, or the ids have run out. */
  lemma SeedAfterSeed(s: Sys, t: Tid, osName: string)
    requires Inv(s) && OneActive(s.table.rows) && s.Pc(t).Seeding?
    ensures OneActive(Step(s, SeedInsert(t, osName)).table.rows) <==> !NameFree(s.table.rows, osName) || s.table.nextId > MAX_ID
  {
    StepKeepsOneExactly(s, SeedInsert(t, osName));
  }

  /** One such run: two first calls both count zero, and the first account is renamed before
      the second insert. Then two are active; without the rename one is. */
  lemma RenameDuringSeed(osName: string, name: string, renamed: bool)
    requires name != osName
    ensures
      var s := Step(Step(EMPTY, CountRows(0, Listing)), CountRows(1, Listing));
      var rename := if renamed then RenameAccount(1, name) else CountRows(0, Listing);
      var after := Run(s, [SeedInsert(0, osName), rename, GiveUp(0), SeedInsert(1, osName)]).table.rows;
      OneActive(after) <==> !renamed
  {
    var s := Step(Step(EMPTY, CountRows(0, Listing)), CountRows(1, Listing));
    var rename := if renamed then RenameAccount(1, name) else CountRows(0, Listing);
    RunFour(s, SeedInsert(0, osName), rename, GiveUp(0), SeedInsert(1, osName));
    var first := Step(s, SeedInsert(0, osName));
    assert first.table == Table(map[1 := Account(osName, true)], 2);
    var second := Step(Step(first, rename), GiveUp(0));
    assert second.table == Table(map[1 := Account(if renamed then name else osName, true)], 2);
    assert OnlyActive(second.table.rows, 1);
    InsertKeepsOne(second.table, osName);
  }

  // -------------------------------------------------------------------- the store

  /** The statements of a call that nothing interleaves with. */
  function CreateSteps(name: string, osName: string): seq<Action> {
    [CountRows(0, Creating(name)), SeedInsert(0, osName), Proceed(0), InsertAccount(0)]
  }

  function SelectSteps(id: nat, osName: string): seq<Action> {
    [CountRows(0, Selecting(id)), SeedInsert(0, osName), Proceed(0)]
  }

  function DeleteSteps(id: nat, busy: bool): seq<Action> {
    [CheckDelete(0, id, busy), DeleteAccount(0)]
  }

  datatype Outcome = Done | NotFound | NameTaken | LimitReached | IsActive | Busy | Full

  class AccountStore {
    var table: Table

    constructor ()
      ensures table == EMPTY.table
    {
      table := Table(map[], 1);
    }

    method EnsureDefault(osName: string)
      modifies this
      ensures table == if old(table).rows == map[] then InsertRow(old(table), osName, true) else old(table)
    {
      if table.rows == map[] {
        table := InsertRow(table, osName, true);
      }
    }

    /** The uid the local route runs as: that of the least active id, or the single user's
        when no account is active. */
    method ActiveUid(osName: string) returns (uid: nat)
      modifies this
      ensures table == if old(table).rows == map[] then InsertRow(old(table), osName, true) else old(table)
      ensures forall id: nat :: LeastActive(table.rows, id) ==> uid == Uid(id)
      ensures (exists id: nat :: LeastActive(table.rows, id)) || uid == SINGLE_USER_UID
      ensures (forall i :: i in table.rows ==> !table.rows[i].active) ==> uid == SINGLE_USER_UID
    {
      EnsureDefault(osName);
      var ids := set i | i in table.rows && table.rows[i].active;
      assert forall id: nat :: LeastActive(table.rows, id) ==> id in ids;
      if ids == {} {
        return SINGLE_USER_UID;
      }
      var least := Least(ids);
      assert forall i :: i in table.rows && table.rows[i].active ==> i in ids;
      assert LeastActive(table.rows, least);
      return Uid(least);
    }

    /** ORDER BY id LIMIT 1. */
    method Least(ids: set<nat>) returns (least: nat)
      requires ids != {}
      ensures least in ids && forall i :: i in ids ==> least <= i
    {
      least :| least in ids;
      var todo := ids - {least};
      while todo != {}
        invariant todo <= ids && least in ids
        invariant forall i :: i in ids && i !in todo ==> least <= i
        decreases todo
      {
        var i :| i in todo;
        todo := todo - {i};
        if i < least {
          least := i;
        }
      }
    }

    method Create(name: string, osName: string) returns (outcome: Outcome)
      modifies this
      ensures var seeded := if old(table).rows == map[] then InsertRow(old(table), osName, true) else old(table);
        && table == (if outcome.Done? then InsertRow(seeded, name, false) else seeded)
        && (outcome.LimitReached? <==> |seeded.rows| >= MAX_ACCOUNTS)
        && (outcome.NameTaken? <==> |seeded.rows| < MAX_ACCOUNTS && !NameFree(seeded.rows, name))
        && (outcome.Done? <==> |seeded.rows| < MAX_ACCOUNTS && CanInsert(seeded, name))
        && (outcome.Done? ==> table.rows == seeded.rows[seeded.nextId := Account(name, false)])
      ensures table == Run(Sys(old(table), map[]), CreateSteps(name, osName)).table
    {
      RunFour(Sys(table, map[]), CountRows(0, Creating(name)), SeedInsert(0, osName), Proceed(0), InsertAccount(0));
      EnsureDefault(osName);
      if |table.rows| >= MAX_ACCOUNTS {
        return LimitReached;
      } else if !NameFree(table.rows, name) {
        return NameTaken;
      } else if table.nextId > MAX_ID {
        return Full;
      }
      table := InsertRow(table, name, false);
      return Done;
    }

    method Rename(id: nat, name: string) returns (outcome: Outcome)
      modifies this
      ensures table == Step(Sys(old(table), map[]), RenameAccount(id, name)).table
      ensures outcome.Done? <==> old(id in table.rows && NameFree(table.rows - {id}, name))
      ensures outcome.NotFound? <==> old(id !in table.rows)
      ensures outcome.NameTaken? <==> old(id in table.rows && !NameFree(table.rows - {id}, name))
      ensures outcome.Done? ==> table == old(table).(rows := old(table).rows[id := Account(name, old(table).rows[id].active)])
      ensures !outcome.Done? ==> table == old(table)
    {
      if id !in table.rows {
        return NotFound;
      } else if !NameFree(table.rows - {id}, name) {
        return NameTaken;
      }
      table := table.(rows := table.rows[id := table.rows[id].(name := name)]);
      return Done;
    }

    /** Clear every flag that is set, then set one. */
    method Select(id: nat, osName: string) returns (outcome: Outcome)
      modifies this
      ensures var seeded := if old(table).rows == map[] then InsertRow(old(table), osName, true) else old(table);
        table == SelectRow(seeded, id) && outcome == if id in seeded.rows then Done else NotFound
      ensures outcome.Done? ==> OnlyActive(table.rows, id)
      ensures outcome.Done? && old(table).rows != map[] ==>
        && table.nextId == old(table).nextId && table.rows.Keys == old(table).rows.Keys
        && forall i :: i in table.rows ==> table.rows[i].name == old(table).rows[i].name
      ensures table == Run(Sys(old(table), map[]), SelectSteps(id, osName)).table
    {
      RunThree(Sys(table, map[]), CountRows(0, Selecting(id)), SeedInsert(0, osName), Proceed(0));
      EnsureDefault(osName);
      if id !in table.rows {
        return NotFound;
      }
      var rows := table.rows;
      var cleared := map i | i in rows :: if rows[i].active then rows[i].(active := false) else rows[i];
      table := table.(rows := cleared[id := cleared[id].(active := true)]);
      return Done;
    }

    /** A missing, an active and a busy account are refused, in this order. */
    method Delete(id: nat, busy: bool) returns (outcome: Outcome)
      modifies this
      ensures table == if outcome.Done? then old(table).(rows := old(table).rows - {id}) else old(table)
      ensures table == Run(Sys(old(table), map[]), DeleteSteps(id, busy)).table
      ensures outcome.NotFound? <==> old(id !in table.rows)
      ensures outcome.IsActive? <==> old(id in table.rows && table.rows[id].active)
      ensures outcome.Busy? <==> old(id in table.rows && !table.rows[id].active && busy)
      ensures outcome.Done? <==> old(id in table.rows && !table.rows[id].active && !busy)
    {
      RunTwo(Sys(table, map[]), CheckDelete(0, id, busy), DeleteAccount(0));
      if id !in table.rows {
        return NotFound;
      } else if table.rows[id].active {
        return IsActive;
      } else if busy {
        return Busy;
      }
      table := table.(rows := table.rows - {id});
      return Done;
    }
  }
}
