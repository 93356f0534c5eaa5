/**
 Whole attempts on a turn that nobody else is on: exactly when a chat or a replay gets
 through to Chat, whatever database statement fails and whenever a new login strikes, and
 what an attempt leaves behind when it ends.
 */
module TurnRuns {
  import opened Wrappers
  import opened TurnIntents
  import opened AgentTurns
  import opened TurnRecovery
  import L = TurnLocks

  /** What happens around one statement: whether a new login comes just before it, and
      whether the statement reaches the database. */
  datatype Luck = Luck(login: bool, db: bool) {
    predicate Good(cloud: bool) { db && !(cloud && login) }
  }

  function Do(l: Luck, a: Action): seq<Action> { if l.login then [ReplaceSession, a] else [a] }

  lemma RunDo(digest: Request -> string, s: Sys, l: Luck, a: Action)
    ensures Run(digest, s, Do(l, a)) == Step(digest, if l.login then Step(digest, s, ReplaceSession) else s, a)
  {
    hide Step;
    if l.login {
      RunTwo(digest, s, ReplaceSession, a);
    } else {
      assert Run(digest, s, [a]) == Run(digest, Step(digest, s, a), [a][1..]);
    }
  }

  // ------------------------------------------------------------- attempts that are out

  /** The attempt has ended, or is on its way out; nothing it wrote or called is new. */
  ghost predicate Out(s: Sys, t: Tid, rows: Table, calls: seq<Call>) {
    var pc := PcOf(s.attempts, t);
    (pc.Over? || pc.Releasing? || pc.Interrupting?) && s.rows == rows && s.calls == calls
  }

  /** Steps towards Chat, which an attempt that is out does not take. */
  predicate Onward(t: Tid, a: Action) {
    match a
    case ReplaceSession => true
    case CheckOwner(k, _) => k == t
    case Load(k, _, _) => k == t
    case Lock(k, lock) => k == t && lock.t == t && !lock.Delete? && !lock.Unlock?
    case EnsureRow(k, _, _) => k == t
    case EnterStarting(k, _) => k == t
    case EnterStreaming(k, _) => k == t
    case CallChat(k) => k == t
    case _ => false
  }

  ghost predicate AllOnward(t: Tid, actions: seq<Action>) { forall i :: 0 <= i < |actions| ==> Onward(t, actions[i]) }

  lemma OutStays(digest: Request -> string, s: Sys, t: Tid, a: Action, rows: Table, calls: seq<Call>)
    requires Out(s, t, rows, calls) && Onward(t, a)
    ensures Out(Step(digest, s, a), t, rows, calls)
  {
    hide L.Step, Recoverable, Ensure, Write, Writable;
  }

  lemma {:induction false} OutRuns(digest: Request -> string, s: Sys, t: Tid, actions: seq<Action>, rows: Table, calls: seq<Call>)
    requires Out(s, t, rows, calls) && AllOnward(t, actions)
    ensures Out(Run(digest, s, actions), t, rows, calls)
    decreases |actions|
  {
    hide Step, Out;
    if actions != [] {
      OutStays(digest, s, t, actions[0], rows, calls);
      OutRuns(digest, Step(digest, s, actions[0]), t, actions[1..], rows, calls);
    }
  }

  /** Either the attempt stands at `pc`, or it is out. */
  ghost predicate At(s: Sys, t: Tid, job: Job, go: bool, pc: Pc, locks: L.Locks, rows: Table, old_: Table, calls: seq<Call>) {
    if go then Stands(s, t, job, pc, locks, rows, calls) else Out(s, t, old_, calls)
  }

  // ------------------------------------------------------------------ single statements

  predicate Lease(job: Job, cloud: bool) { job.lease > 0 <==> cloud }

  /** A login leaves an attempt where it stands, with its session gone on the cloud route. */
  lemma LoginStands(digest: Request -> string, s: Sys, t: Tid, job: Job, cloud: bool, pc: Pc, locks: L.Locks, rows: Table, calls: seq<Call>)
    requires Stands(s, t, job, pc, locks, rows, calls) && Lease(job, cloud)
    ensures var after := Step(digest, s, ReplaceSession);
            && t in after.attempts && after.attempts[t] == Attempt(job, pc)
            && after.locks == locks && after.rows == rows && after.calls == calls
            && (after.Current(job.lease) <==> !cloud)
  {
  }

  lemma OwnerChecked(digest: Request -> string, s: Sys, t: Tid, job: Job, db: bool)
    requires t in s.attempts && s.attempts[t] == Attempt(job, Checking)
    ensures var mine := job.turn in s.rows ==> s.rows[job.turn].uid == job.uid;
            At(Step(digest, s, CheckOwner(t, db)), t, job, db && s.Current(job.lease) && mine, Claiming(None),
               s.locks, s.rows, s.rows, s.calls)
  {
  }

  lemma RowLoaded(digest: Request -> string, s: Sys, t: Tid, job: Job, db: bool, owns: bool)
    requires t in s.attempts && s.attempts[t] == Attempt(job, Loading)
    requires job.turn in s.rows ==> Recoverable(digest, job.turn, s.rows[job.turn])
    ensures var u := job.turn;
            var open := u in s.rows && s.rows[u].uid == job.uid && s.rows[u].state == Interrupted;
            At(Step(digest, s, Load(t, db, owns)), t, job, db && s.Current(job.lease) && owns && open,
               Claiming(Some(Intent(job.uid, u, if u in s.rows then s.rows[u].req else Request("", "", "")))),
               s.locks, s.rows, s.rows, s.calls)
  {
    hide Recoverable;
  }

  /** The rows after an accepted chat: its own row is there, and no other row changed. */
  function Inserted(digest: Request -> string, rows: Table, uid: nat, u: Turn, req: Request): Table {
    if u in rows then rows else rows[u := Row(uid, req, digest(req), Starting, NoError)]
  }

  predicate Repeats(digest: Request -> string, rows: Table, uid: nat, u: Turn, req: Request) {
    u in rows ==> rows[u].uid == uid && rows[u].req == req && rows[u].digest == digest(req) && rows[u].state != Canceled
  }

  lemma RowEnsured(digest: Request -> string, s: Sys, t: Tid, job: Job, db: bool, owns: bool)
    requires t in s.attempts && s.attempts[t] == Attempt(job, Ensuring) && job.chat.Some? && job.uid != 0
    ensures var req := job.chat.value;
            var go := db && s.Current(job.lease) && owns && Repeats(digest, s.rows, job.uid, job.turn, req);
            At(Step(digest, s, EnsureRow(t, db, owns)), t, job, go, Ready(Intent(job.uid, job.turn, req)),
               s.locks, Inserted(digest, s.rows, job.uid, job.turn, req), s.rows, s.calls)
  {
  }

  lemma StateEntered(digest: Request -> string, s: Sys, t: Tid, job: Job, i: Intent, db: bool, streaming: bool)
    requires t in s.attempts && s.attempts[t] == Attempt(job, if streaming then Entering(i) else Ready(i))
    requires Writable(s.rows, i.uid, i.turn)
    ensures var a := if streaming then EnterStreaming(t, db) else EnterStarting(t, db);
            At(Step(digest, s, a), t, job, db && s.Current(job.lease), if streaming then Entered(i) else Entering(i),
               s.locks, Write(s.rows, i.uid, i.turn, if streaming then Streaming else Starting, NoError), s.rows, s.calls)
  {
  }

  // ------------------------------------------------------------------ up to the call

  lemma Joined(t: Tid, xs: seq<Action>, ys: seq<Action>)
    requires AllOnward(t, xs) && AllOnward(t, ys)
    ensures AllOnward(t, xs + ys)
  {
  }

  /** The state a statement finds. */
  ghost function Found(digest: Request -> string, s: Sys, l: Luck): Sys {
    if l.login then Step(digest, s, ReplaceSession) else s
  }

  ghost predicate Waits(s: Sys, t: Tid, job: Job, pc: Pc, locks: L.Locks, rows: Table, calls: seq<Call>) {
    t in s.attempts && s.attempts[t] == Attempt(job, pc) && s.locks == locks && s.rows == rows && s.calls == calls
  }

  lemma FoundWaits(
    digest: Request -> string, s: Sys, t: Tid, job: Job, cloud: bool, l: Luck, pc: Pc, locks: L.Locks, rows: Table, calls: seq<Call>)
    requires Stands(s, t, job, pc, locks, rows, calls) && Lease(job, cloud)
    ensures Waits(Found(digest, s, l), t, job, pc, locks, rows, calls)
    ensures Found(digest, s, l).Current(job.lease) <==> !(cloud && l.login)
  {
    LoginStands(digest, s, t, job, cloud, pc, locks, rows, calls);
  }

  function EnterWith(t: Tid, l: Luck, streaming: bool): seq<Action> {
    Do(l, if streaming then EnterStreaming(t, l.db) else EnterStarting(t, l.db))
  }

  lemma EnterRuns(
    digest: Request -> string, s: Sys, t: Tid, job: Job, cloud: bool, i: Intent, l: Luck, streaming: bool,
    locks: L.Locks, rows: Table, calls: seq<Call>)
    requires Stands(s, t, job, if streaming then Entering(i) else Ready(i), locks, rows, calls)
    requires Lease(job, cloud) && Writable(rows, i.uid, i.turn)
    ensures At(Run(digest, s, EnterWith(t, l, streaming)), t, job, l.Good(cloud), if streaming then Entered(i) else Entering(i),
               locks, Write(rows, i.uid, i.turn, if streaming then Streaming else Starting, NoError), rows, calls)
  {
    hide Step, Run, Do;
    var pc := if streaming then Entering(i) else Ready(i);
    RunDo(digest, s, l, if streaming then EnterStreaming(t, l.db) else EnterStarting(t, l.db));
    FoundWaits(digest, s, t, job, cloud, l, pc, locks, rows, calls);
    StateEntered(digest, Found(digest, s, l), t, job, i, l.db, streaming);
  }

  /** Entering starting and streaming, and the call. */
  function DriveWith(t: Tid, l3: Luck, l4: Luck): seq<Action> {
    EnterWith(t, l3, false) + (EnterWith(t, l4, true) + [CallChat(t)])
  }

  /** What happens on the way of a whole attempt. */
  datatype Fate = Fate(check: Luck, row: Luck, starting: Luck, streaming: Luck, ownsThread: bool) {
    /** Up to the row, and all the way to the call. */
    predicate Accepts(cloud: bool) { ownsThread && check.Good(cloud) && row.Good(cloud) }
    predicate Carries(cloud: bool) { starting.Good(cloud) && streaming.Good(cloud) }
  }

  function EnsureWith(t: Tid, f: Fate): seq<Action> { Do(f.row, EnsureRow(t, f.row.db, f.ownsThread)) }

  /** Nothing fails and nobody logs in. */
  const LUCKY := Fate(Luck(false, true), Luck(false, true), Luck(false, true), Luck(false, true), true)

  function ChatRest(t: Tid, u: Turn, f: Fate): seq<Action> {
    Claim(t, u) + (EnsureWith(t, f) + DriveWith(t, f.starting, f.streaming))
  }

  function ReplayRest(t: Tid, u: Turn, f: Fate): seq<Action> { Claim(t, u) + DriveWith(t, f.starting, f.streaming) }

  /** The steps of every leg lead onward. */
  lemma StepsAreOnward(t: Tid, u: Turn, f: Fate)
    ensures AllOnward(t, Claim(t, u)) && AllOnward(t, [CallChat(t)])
    ensures AllOnward(t, Do(f.check, CheckOwner(t, f.check.db))) && AllOnward(t, Do(f.row, Load(t, f.row.db, f.ownsThread)))
    ensures AllOnward(t, EnterWith(t, f.streaming, true) + [CallChat(t)]) && AllOnward(t, DriveWith(t, f.starting, f.streaming))
    ensures AllOnward(t, EnsureWith(t, f) + DriveWith(t, f.starting, f.streaming))
    ensures AllOnward(t, ChatRest(t, u, f)) && AllOnward(t, ReplayRest(t, u, f))
  {
    assert AllOnward(t, EnsureWith(t, f)) && AllOnward(t, EnterWith(t, f.starting, false)) && AllOnward(t, EnterWith(t, f.streaming, true));
    assert AllOnward(t, Claim(t, u)) && AllOnward(t, [CallChat(t)]);
    assert AllOnward(t, Do(f.check, CheckOwner(t, f.check.db))) && AllOnward(t, Do(f.row, Load(t, f.row.db, f.ownsThread)));
    hide AllOnward, EnsureWith, EnterWith, Claim, Do;
    var drive := DriveWith(t, f.starting, f.streaming);
    Joined(t, EnterWith(t, f.streaming, true), [CallChat(t)]);
    Joined(t, EnterWith(t, f.starting, false), EnterWith(t, f.streaming, true) + [CallChat(t)]);
    Joined(t, EnsureWith(t, f), drive);
    Joined(t, Claim(t, u), EnsureWith(t, f) + drive);
    Joined(t, Claim(t, u), drive);
  }

  lemma Called(digest: Request -> string, s: Sys, t: Tid, job: Job, i: Intent, locks: L.Locks, rows: Table, calls: seq<Call>)
    requires Stands(s, t, job, Entered(i), locks, rows, calls)
    ensures Stands(Run(digest, s, [CallChat(t)]), t, job, Chatting(i), locks, rows, calls + [Call(i.turn, i.uid, i.req)])
  {
    assert Run(digest, s, [CallChat(t)]) == Run(digest, Step(digest, s, CallChat(t)), [CallChat(t)][1..]);
  }

  /** The last leg calls Chat exactly if both entries succeed. */
  ghost predicate Driven(s: Sys, t: Tid, job: Job, go: bool, i: Intent, rows: Table, calls: seq<Call>) {
    if go then Stands(s, t, job, Chatting(i), s.locks, InStream(rows, i), calls + [Call(i.turn, i.uid, i.req)])
    else Out(s, t, s.rows, calls)
  }

  lemma DriveRuns(
    digest: Request -> string, s: Sys, t: Tid, job: Job, cloud: bool, i: Intent, l3: Luck, l4: Luck,
    locks: L.Locks, rows: Table, calls: seq<Call>)
    requires Stands(s, t, job, Ready(i), locks, rows, calls) && Lease(job, cloud) && Writable(rows, i.uid, i.turn)
    ensures Driven(Run(digest, s, DriveWith(t, l3, l4)), t, job, l3.Good(cloud) && l4.Good(cloud), i, rows, calls)
  {
    hide Step, Run, EnterWith, Stands, AllOnward;
    var starting := Write(rows, i.uid, i.turn, Starting, NoError);
    var streaming := InStream(rows, i);
    var rest := EnterWith(t, l4, true) + [CallChat(t)];
    StepsAreOnward(t, i.turn, Fate(l3, l3, l3, l4, true));
    EnterRuns(digest, s, t, job, cloud, i, l3, false, locks, rows, calls);
    RunAppend(digest, s, EnterWith(t, l3, false), rest);
    var s1 := Run(digest, s, EnterWith(t, l3, false));
    if l3.Good(cloud) {
      EnterRuns(digest, s1, t, job, cloud, i, l4, true, locks, starting, calls);
      RunAppend(digest, s1, EnterWith(t, l4, true), [CallChat(t)]);
      var s2 := Run(digest, s1, EnterWith(t, l4, true));
      if l4.Good(cloud) {
        Called(digest, s2, t, job, i, locks, streaming, calls);
        LocksOf(Run(digest, s2, [CallChat(t)]), t, job, Chatting(i), locks, streaming, calls + [Call(i.turn, i.uid, i.req)]);
      } else {
        OutRuns(digest, s2, t, [CallChat(t)], starting, calls);
      }
    } else {
      OutRuns(digest, s1, t, rest, rows, calls);
    }
  }

  lemma LocksOf(s: Sys, t: Tid, job: Job, pc: Pc, locks: L.Locks, rows: Table, calls: seq<Call>)
    requires Stands(s, t, job, pc, locks, rows, calls)
    ensures Stands(s, t, job, pc, s.locks, rows, calls)
  {
  }

  lemma RunIs(digest: Request -> string, s: Sys, a: Action)
    ensures Run(digest, s, [a]) == Step(digest, s, a)
  {
    hide Step;
    assert Run(digest, s, [a]) == Run(digest, Step(digest, s, a), [a][1..]);
  }

  lemma {:induction false} EpochStaysPositive(digest: Request -> string, s: Sys, actions: seq<Action>)
    requires s.epoch > 0
    ensures Run(digest, s, actions).epoch > 0
    decreases |actions|
  {
    if actions != [] {
      StepKeepsEpoch(digest, s, actions[0]);
      EpochStaysPositive(digest, Step(digest, s, actions[0]), actions[1..]);
    }
  }

  lemma StepKeepsEpoch(digest: Request -> string, s: Sys, a: Action)
    ensures Step(digest, s, a).epoch == if a.ReplaceSession? then s.epoch + 1 else s.epoch
  {
    hide L.Step, Recoverable, Ensure, Finalize, Write, Cancel, Cleanup, Admit;
  }

  /** A claim of a turn that nobody is on, by an attempt that stands or is out. */
  lemma ClaimRuns(
    digest: Request -> string, s: Sys, t: Tid, job: Job, go: bool, known: Option<Intent>, locks: L.Locks, rows: Table, calls: seq<Call>)
    requires L.Inv(locks) && locks.At(t).Idle? && forall k :: !locks.At(k).On(job.turn)
    requires At(s, t, job, go, Claiming(known), locks, rows, rows, calls)
    ensures var after := Run(digest, s, Claim(t, job.turn));
            At(after, t, job, go, Claimed(known), after.locks, rows, rows, calls)
  {
    hide L.Inv, Run, Stands;
    if go {
      ClaimStands(digest, s, t, job, known, locks, rows, calls);
    } else {
      StepsAreOnward(t, job.turn, LUCKY);
      OutRuns(digest, s, t, Claim(t, job.turn), rows, calls);
    }
  }

  // ------------------------------------------------------------------ a chat, exactly

  /** A chat on a turn that nobody else is on, up to its Chat call. */
  function ChatWith(t: Tid, uid: nat, cloud: bool, u: Turn, body: Request, f: Fate): seq<Action> {
    [BeginChat(t, uid, cloud, u, body)] + (Do(f.check, CheckOwner(t, f.check.db)) + ChatRest(t, u, f))
  }

  lemma EnsureRuns(
    digest: Request -> string, s: Sys, t: Tid, job: Job, cloud: bool, f: Fate, locks: L.Locks, rows: Table, calls: seq<Call>)
    requires Stands(s, t, job, Ensuring, locks, rows, calls) && Lease(job, cloud) && job.chat.Some? && job.uid != 0
    ensures var req := job.chat.value;
            var go := f.row.Good(cloud) && f.ownsThread && Repeats(digest, rows, job.uid, job.turn, req);
            At(Run(digest, s, EnsureWith(t, f)), t, job, go, Ready(Intent(job.uid, job.turn, req)),
               locks, Inserted(digest, rows, job.uid, job.turn, req), rows, calls)
  {
    hide Step, Run, Do;
    RunDo(digest, s, f.row, EnsureRow(t, f.row.db, f.ownsThread));
    FoundWaits(digest, s, t, job, cloud, f.row, Ensuring, locks, rows, calls);
    RowEnsured(digest, Found(digest, s, f.row), t, job, f.row.db, f.ownsThread);
  }

  /** How a chat ends: in flight, refused with no row changed, or stopped on the way. */
  ghost predicate ChatEnds(
    digest: Request -> string, s: Sys, t: Tid, job: Job, accepted: bool, carried: bool, req: Request, rows: Table, calls: seq<Call>) {
    var i := Intent(job.uid, job.turn, req);
    if accepted then Driven(s, t, job, carried, i, Inserted(digest, rows, job.uid, job.turn, req), calls)
    else Out(s, t, rows, calls)
  }

  lemma ChatRestRuns(
    digest: Request -> string, s: Sys, t: Tid, job: Job, cloud: bool, go: bool, f: Fate, locks: L.Locks, rows: Table, calls: seq<Call>)
    requires L.Inv(locks) && locks.At(t).Idle? && forall k :: !locks.At(k).On(job.turn)
    requires Lease(job, cloud) && job.chat.Some? && job.uid != 0 && At(s, t, job, go, Claiming(None), locks, rows, rows, calls)
    ensures var req := job.chat.value;
            var accepted := go && f.row.Good(cloud) && f.ownsThread && Repeats(digest, rows, job.uid, job.turn, req);
            ChatEnds(digest, Run(digest, s, ChatRest(t, job.turn, f)), t, job, accepted, f.Carries(cloud), req, rows, calls)
  {
    hide L.Inv, Run, Stands, Step, AllOnward, EnsureWith, DriveWith, Driven;
    var u, req := job.turn, job.chat.value;
    var drive := DriveWith(t, f.starting, f.streaming);
    StepsAreOnward(t, u, f);
    ClaimRuns(digest, s, t, job, go, None, locks, rows, calls);
    var s1 := Run(digest, s, Claim(t, u));
    RunAppend(digest, s, Claim(t, u), EnsureWith(t, f) + drive);
    if !go {
      OutRuns(digest, s1, t, EnsureWith(t, f) + drive, rows, calls);
    } else {
      EnsureRuns(digest, s1, t, job, cloud, f, s1.locks, rows, calls);
      RunAppend(digest, s1, EnsureWith(t, f), drive);
      var s2 := Run(digest, s1, EnsureWith(t, f));
      if f.row.Good(cloud) && f.ownsThread && Repeats(digest, rows, job.uid, u, req) {
        var i, after := Intent(job.uid, u, req), Inserted(digest, rows, job.uid, u, req);
        DriveRuns(digest, s2, t, job, cloud, i, f.starting, f.streaming, s1.locks, after, calls);
      } else {
        OutRuns(digest, s2, t, drive, rows, calls);
      }
    }
  }

  /** The turn is new, or its row has this owner and this request and is not canceled. */
  predicate NewOrSame(rows: Table, uid: nat, u: Turn, req: Request) {
    u in rows ==> rows[u].uid == uid && rows[u].req == req && rows[u].state != Canceled
  }

  /** Whether a chat is accepted, from what it finds and what happens on the way. */
  predicate ChatAccepted(digest: Request -> string, rows: Table, job: Job, cloud: bool, f: Fate) {
    && f.Accepts(cloud) && job.chat.Some? && job.uid != 0
    && (job.turn in rows ==> rows[job.turn].uid == job.uid)
    && Repeats(digest, rows, job.uid, job.turn, job.chat.value)
  }

  lemma ChatRuns(digest: Request -> string, s: Sys, t: Tid, uid: nat, cloud: bool, u: Turn, body: Request, f: Fate)
    requires L.Inv(s.locks) && s.locks.At(t).Idle? && s.epoch > 0 && t !in s.attempts && forall k :: !s.locks.At(k).On(u)
    ensures var job := Job(uid, if cloud then s.epoch else 0, u, Admit(u, body));
            var req := if job.chat.Some? then job.chat.value else body;
            ChatEnds(digest, Run(digest, s, ChatWith(t, uid, cloud, u, body, f)), t, job,
                     ChatAccepted(digest, s.rows, job, cloud, f), f.Carries(cloud), req, s.rows, s.calls)
  {
    hide L.Inv, Run, Admit, AllOnward, ChatRest, Step, Repeats, Driven;
    var begin, check := BeginChat(t, uid, cloud, u, body), Do(f.check, CheckOwner(t, f.check.db));
    var rest := ChatRest(t, u, f);
    RunAppend(digest, s, [begin], check + rest);
    RunIs(digest, s, begin);
    var s1 := Step(digest, s, begin);
    RunAppend(digest, s1, check, rest);
    var s2 := Run(digest, s1, check);
    ChatBegun(digest, s, t, uid, cloud, u, body);
    StepsAreOnward(t, u, f);
    if uid == 0 || Admit(u, body).None? {
      OutRuns(digest, s1, t, check, s.rows, s.calls);
      OutRuns(digest, s2, t, rest, s.rows, s.calls);
    } else {
      var job := Job(uid, if cloud then s.epoch else 0, u, Admit(u, body));
      CheckRuns(digest, s1, t, job, cloud, f.check, s.locks, s.rows, s.calls);
      var go := f.check.Good(cloud) && (u in s.rows ==> s.rows[u].uid == uid);
      ChatRestRuns(digest, s2, t, job, cloud, go, f, s.locks, s.rows, s.calls);
    }
  }

  /** From every reachable state with nobody on the turn: a chat calls Chat, once, with the
      admitted request, if and only if the request is admissible, the user owns the thread,
      the turn is new or the same, every statement reaches the database, and on the cloud
      route no login comes before the streaming entry. A chat that is not accepted changes no
      row; one that gets through leaves its row streaming. */
  lemma ChatGoesThroughExactly(digest: Request -> string, s: Sys, t: Tid, uid: nat, cloud: bool, u: Turn, body: Request, f: Fate)
    requires Reachable(digest, s) && t !in s.attempts && forall k :: !s.locks.At(k).On(u)
    ensures var after := Run(digest, s, ChatWith(t, uid, cloud, u, body, f));
            var req := Admit(u, body);
            var accepted := uid != 0 && req.Some? && f.Accepts(cloud) && NewOrSame(s.rows, uid, u, req.value);
            && after.calls == s.calls + (if accepted && f.Carries(cloud) then [Call(u, uid, req.value)] else [])
            && (!accepted ==> after.rows == s.rows)
            && (accepted && f.Carries(cloud) ==>
                  u in after.rows && after.rows[u].state == Streaming && PcOf(after.attempts, t) == Chatting(Intent(uid, u, req.value)))
  {
    FreeAndIdle(digest, s, t);
    DigestsAreRight(digest, s, u);
    hide L.Inv, Run, Admit, ChatWith, Reachable;
    ChatRuns(digest, s, t, uid, cloud, u, body, f);
  }

  lemma FreeAndIdle(digest: Request -> string, s: Sys, t: Tid)
    requires Reachable(digest, s) && t !in s.attempts
    ensures L.Inv(s.locks) && s.locks.At(t).Idle? && s.epoch > 0
  {
    ReachableInv(digest, s);
    assert LinkedAt(s.locks, s.attempts, t);
    PositiveEpoch(digest, s);
  }

  lemma PositiveEpoch(digest: Request -> string, s: Sys)
    requires Reachable(digest, s)
    ensures s.epoch > 0
  {
    hide Step;
    var actions :| s == Run(digest, BOOT, actions);
    EpochStaysPositive(digest, BOOT, actions);
  }

  lemma DigestsAreRight(digest: Request -> string, s: Sys, u: Turn)
    requires Reachable(digest, s)
    ensures u in s.rows ==> s.rows[u].uid != 0 && s.rows[u].digest == digest(s.rows[u].req)
  {
    ReachableInv(digest, s);
  }

  lemma ChatBegun(digest: Request -> string, s: Sys, t: Tid, uid: nat, cloud: bool, u: Turn, body: Request)
    requires t !in s.attempts
    ensures var after := Step(digest, s, BeginChat(t, uid, cloud, u, body));
            if uid == 0 || Admit(u, body).None? then Out(after, t, s.rows, s.calls)
            else Stands(after, t, Job(uid, if cloud then s.epoch else 0, u, Admit(u, body)), Checking, s.locks, s.rows, s.calls)
  {
    hide Admit;
  }

  lemma CheckRuns(
    digest: Request -> string, s: Sys, t: Tid, job: Job, cloud: bool, l: Luck, locks: L.Locks, rows: Table, calls: seq<Call>)
    requires Stands(s, t, job, Checking, locks, rows, calls) && Lease(job, cloud)
    ensures var go := l.Good(cloud) && (job.turn in rows ==> rows[job.turn].uid == job.uid);
            At(Run(digest, s, Do(l, CheckOwner(t, l.db))), t, job, go, Claiming(None), locks, rows, rows, calls)
  {
    hide Step, Run, Do;
    RunDo(digest, s, l, CheckOwner(t, l.db));
    FoundWaits(digest, s, t, job, cloud, l, Checking, locks, rows, calls);
    OwnerChecked(digest, Found(digest, s, l), t, job, l.db);
  }

  // ---------------------------------------------------------------- a replay, exactly

  /** A replay of a turn that nobody else is on, up to its Chat call. */
  function ReplayWith(t: Tid, uid: nat, cloud: bool, u: Turn, f: Fate): seq<Action> {
    [BeginReplay(t, uid, cloud, u)] + (Do(f.row, Load(t, f.row.db, f.ownsThread)) + ReplayRest(t, u, f))
  }

  predicate IsInterrupted(rows: Table, uid: nat, u: Turn) { u in rows && rows[u].uid == uid && rows[u].state == Interrupted }

  lemma ReplayBegun(digest: Request -> string, s: Sys, t: Tid, uid: nat, cloud: bool, u: Turn)
    requires t !in s.attempts
    ensures var after := Step(digest, s, BeginReplay(t, uid, cloud, u));
            if uid == 0 || !TurnOk(u) then Out(after, t, s.rows, s.calls)
            else Stands(after, t, Job(uid, if cloud then s.epoch else 0, u, None), Loading, s.locks, s.rows, s.calls)
  {
    hide TurnOk;
  }

  lemma LoadRuns(
    digest: Request -> string, s: Sys, t: Tid, job: Job, cloud: bool, f: Fate, locks: L.Locks, rows: Table, calls: seq<Call>)
    requires Stands(s, t, job, Loading, locks, rows, calls) && Lease(job, cloud)
    requires job.turn in rows ==> Recoverable(digest, job.turn, rows[job.turn])
    ensures var go := f.row.Good(cloud) && f.ownsThread && IsInterrupted(rows, job.uid, job.turn);
            At(Run(digest, s, Do(f.row, Load(t, f.row.db, f.ownsThread))), t, job, go,
               Claiming(Some(Intent(job.uid, job.turn, if job.turn in rows then rows[job.turn].req else Request("", "", "")))),
               locks, rows, rows, calls)
  {
    hide Step, Run, Do, Recoverable;
    RunDo(digest, s, f.row, Load(t, f.row.db, f.ownsThread));
    FoundWaits(digest, s, t, job, cloud, f.row, Loading, locks, rows, calls);
    RowLoaded(digest, Found(digest, s, f.row), t, job, f.row.db, f.ownsThread);
  }

  lemma ReplayRestRuns(
    digest: Request -> string, s: Sys, t: Tid, job: Job, cloud: bool, go: bool, i: Intent, f: Fate,
    locks: L.Locks, rows: Table, calls: seq<Call>)
    requires L.Inv(locks) && locks.At(t).Idle? && forall k :: !locks.At(k).On(job.turn)
    requires Lease(job, cloud) && At(s, t, job, go, Claiming(Some(i)), locks, rows, rows, calls)
    requires go ==> Writable(rows, i.uid, i.turn)
    ensures var after := Run(digest, s, ReplayRest(t, job.turn, f));
            if go then Driven(after, t, job, f.Carries(cloud), i, rows, calls) else Out(after, t, rows, calls)
  {
    hide L.Inv, Run, Stands, Step, AllOnward, DriveWith, Driven;
    var u, drive := job.turn, DriveWith(t, f.starting, f.streaming);
    ClaimRuns(digest, s, t, job, go, Some(i), locks, rows, calls);
    var s1 := Run(digest, s, Claim(t, u));
    RunAppend(digest, s, Claim(t, u), drive);
    if go {
      DriveRuns(digest, s1, t, job, cloud, i, f.starting, f.streaming, s1.locks, rows, calls);
    } else {
      StepsAreOnward(t, u, f);
      OutRuns(digest, s1, t, drive, rows, calls);
    }
  }

  lemma ReplayRuns(digest: Request -> string, s: Sys, t: Tid, uid: nat, cloud: bool, u: Turn, f: Fate)
    requires L.Inv(s.locks) && s.locks.At(t).Idle? && s.epoch > 0 && t !in s.attempts && forall k :: !s.locks.At(k).On(u)
    requires u in s.rows ==> Recoverable(digest, u, s.rows[u])
    ensures var after := Run(digest, s, ReplayWith(t, uid, cloud, u, f));
            var job := Job(uid, if cloud then s.epoch else 0, u, None);
            if uid != 0 && TurnOk(u) && f.row.Good(cloud) && f.ownsThread && IsInterrupted(s.rows, uid, u)
            then Driven(after, t, job, f.Carries(cloud), Intent(uid, u, s.rows[u].req), s.rows, s.calls)
            else Out(after, t, s.rows, s.calls)
  {
    hide L.Inv, Run, Recoverable, AllOnward, ReplayRest, Step, Driven, TurnOk;
    var begin, load := BeginReplay(t, uid, cloud, u), Do(f.row, Load(t, f.row.db, f.ownsThread));
    var rest := ReplayRest(t, u, f);
    RunAppend(digest, s, [begin], load + rest);
    RunIs(digest, s, begin);
    var s1 := Step(digest, s, begin);
    RunAppend(digest, s1, load, rest);
    var s2 := Run(digest, s1, load);
    ReplayBegun(digest, s, t, uid, cloud, u);
    StepsAreOnward(t, u, f);
    if uid == 0 || !TurnOk(u) {
      OutRuns(digest, s1, t, load, s.rows, s.calls);
      OutRuns(digest, s2, t, rest, s.rows, s.calls);
    } else {
      var job := Job(uid, if cloud then s.epoch else 0, u, None);
      var i := Intent(uid, u, if u in s.rows then s.rows[u].req else Request("", "", ""));
      LoadRuns(digest, s1, t, job, cloud, f, s.locks, s.rows, s.calls);
      var go := f.row.Good(cloud) && f.ownsThread && IsInterrupted(s.rows, uid, u);
      ReplayRestRuns(digest, s2, t, job, cloud, go, i, f, s.locks, s.rows, s.calls);
    }
  }

  /** From every reachable state with nobody on the turn: a replay calls Chat, once, with the
      frozen request, if and only if the row is the user's and interrupted, the user owns the
      thread, every statement reaches the database, and on the cloud route no login comes
      before the streaming entry. A replay that is refused changes no row. */
  lemma ReplayGoesThroughExactly(digest: Request -> string, s: Sys, t: Tid, uid: nat, cloud: bool, u: Turn, f: Fate)
    requires Reachable(digest, s) && t !in s.attempts && forall k :: !s.locks.At(k).On(u)
    ensures var after := Run(digest, s, ReplayWith(t, uid, cloud, u, f));
            var accepted := IsInterrupted(s.rows, uid, u) && f.ownsThread && f.row.Good(cloud);
            && after.calls == s.calls + (if accepted && f.Carries(cloud) then [Call(u, uid, s.rows[u].req)] else [])
            && (!accepted ==> after.rows == s.rows)
            && (accepted && f.Carries(cloud) ==>
                  u in after.rows && after.rows[u].state == Streaming && PcOf(after.attempts, t) == Chatting(Intent(uid, u, s.rows[u].req)))
  {
    FreeAndIdle(digest, s, t);
    DigestsAreRight(digest, s, u);
    if u in s.rows {
      RowsStayRecoverable(digest, s, u);
    }
    hide L.Inv, Run, ReplayWith, Reachable;
    ReplayRuns(digest, s, t, uid, cloud, u, f);
  }

  // ------------------------------------------------------------------ a turn in use

  /** Some other thread has the turn's registered mutex locked. */
  ghost predicate InUse(locks: L.Locks, u: Turn) { u in locks.registry && locks.registry[u] in locks.owner }

  lemma ClaimOfHeldTurn(locks: L.Locks, t: Tid, u: Turn)
    requires locks.At(t).Idle? && InUse(locks, u)
    ensures var asked := L.Step(locks, L.Ask(t, u));
            var fetched := L.Step(asked, L.Fetch(t));
            && asked.At(t) == L.Want(u) && fetched.At(t).Fetched? && L.Step(fetched, L.TryLock(t)).At(t).Idle?
  {
  }

  lemma ClaimRefused(
    digest: Request -> string, s: Sys, t: Tid, job: Job, known: Option<Intent>, locks: L.Locks, rows: Table, calls: seq<Call>)
    requires locks.At(t).Idle? && InUse(locks, job.turn) && Stands(s, t, job, Claiming(known), locks, rows, calls)
    ensures Out(Run(digest, s, Claim(t, job.turn)), t, rows, calls)
  {
    var u := job.turn;
    var l1 := L.Step(locks, L.Ask(t, u));
    var l2 := L.Step(l1, L.Fetch(t));
    ClaimOfHeldTurn(locks, t, u);
    hide L.Step, Step, Run, InUse;
    var s1 := Step(digest, s, Lock(t, L.Ask(t, u)));
    var s2 := Step(digest, s1, Lock(t, L.Fetch(t)));
    var s3 := Step(digest, s2, Lock(t, L.TryLock(t)));
    LockStands(digest, s, t, job, known, locks, L.Ask(t, u), rows, calls);
    LockStands(digest, s1, t, job, known, l1, L.Fetch(t), rows, calls);
    LockRefuses(digest, s2, t, job, known, l2, rows, calls);
    OutStays(digest, s3, t, Lock(t, L.Confirm(t)), rows, calls);
    RunFour(digest, s, Lock(t, L.Ask(t, u)), Lock(t, L.Fetch(t)), Lock(t, L.TryLock(t)), Lock(t, L.Confirm(t)));
  }

  lemma LockRefuses(
    digest: Request -> string, s: Sys, t: Tid, job: Job, known: Option<Intent>, locks: L.Locks, rows: Table, calls: seq<Call>)
    requires Stands(s, t, job, Claiming(known), locks, rows, calls)
    requires locks.At(t).Fetched? && L.Step(locks, L.TryLock(t)).At(t).Idle?
    ensures Out(Step(digest, s, Lock(t, L.TryLock(t))), t, rows, calls)
  {
    hide L.Step;
  }

  lemma HeldIsInUse(digest: Request -> string, s: Sys, t: Tid, k: Tid, u: Turn)
    requires Reachable(digest, s) && t !in s.attempts && Holds(s.locks, k, u)
    ensures InUse(s.locks, u) && s.locks.At(t).Idle? && s.epoch > 0
  {
    FreeAndIdle(digest, s, t);
  }

  /** From every reachable state in which some thread holds the turn: another chat of it calls
      nothing and changes no row. */
  lemma BusyTurnIsRefused(
    digest: Request -> string, s: Sys, t: Tid, k: Tid, uid: nat, cloud: bool, u: Turn, body: Request, f: Fate)
    requires Reachable(digest, s) && t !in s.attempts && Holds(s.locks, k, u)
    ensures Out(Run(digest, s, ChatWith(t, uid, cloud, u, body, f)), t, s.rows, s.calls)
  {
    HeldIsInUse(digest, s, t, k, u);
    hide L.Inv, Run, Admit, AllOnward, Step, Reachable, EnsureWith, DriveWith, InUse;
    var begin, check := BeginChat(t, uid, cloud, u, body), Do(f.check, CheckOwner(t, f.check.db));
    var last := EnsureWith(t, f) + DriveWith(t, f.starting, f.streaming);
    var s1 := Step(digest, s, begin);
    var s2 := Run(digest, s1, check);
    var s3 := Run(digest, s2, Claim(t, u));
    RunAppend(digest, s, [begin], check + ChatRest(t, u, f));
    RunIs(digest, s, begin);
    RunAppend(digest, s1, check, ChatRest(t, u, f));
    RunAppend(digest, s2, Claim(t, u), last);
    ChatBegun(digest, s, t, uid, cloud, u, body);
    StepsAreOnward(t, u, f);
    if uid == 0 || Admit(u, body).None? {
      OutRuns(digest, s1, t, check, s.rows, s.calls);
    } else {
      CheckRuns(digest, s1, t, Job(uid, if cloud then s.epoch else 0, u, Admit(u, body)), cloud, f.check, s.locks, s.rows, s.calls);
    }
    if Out(s2, t, s.rows, s.calls) {
      OutRuns(digest, s2, t, Claim(t, u), s.rows, s.calls);
    } else {
      ClaimRefused(digest, s2, t, Job(uid, if cloud then s.epoch else 0, u, Admit(u, body)), None, s.locks, s.rows, s.calls);
    }
    OutRuns(digest, s3, t, last, s.rows, s.calls);
  }

  // ------------------------------------------------------------------------ endings

  function LetGo(t: Tid): seq<Action> { [Lock(t, L.Delete(t)), Lock(t, L.Unlock(t))] }

  /** What a finished Chat leaves in its row, unless it was canceled meanwhile. */
  function Recorded(row: Row, outcome: Outcome): Row {
    if row.state == Canceled then row
    else match outcome
      case Finished => row.(state := Completed, kind := NoError)
      case ThreadBusy => row.(state := Interrupted, kind := TurnInProgress)
      case Failed(kind) => row.(state := Interrupted, kind := kind)
  }

  /** Every intent an attempt carries names its own turn and a row of its own user. */
  ghost predicate Owned(rows: Table, job: Job, i: Intent) {
    && i.turn == job.turn && i.uid == job.uid && i.uid != 0 && TurnOk(i.turn)
    && i.turn in rows && rows[i.turn].uid == i.uid
  }

  lemma IntentsAreOwned(digest: Request -> string, s: Sys, t: Tid)
    requires Reachable(digest, s) && PcOf(s.attempts, t).HasIntent()
    ensures Owned(s.rows, s.attempts[t].job, PcOf(s.attempts, t).intent) && Linked(s.locks, s.attempts)
    ensures s.locks.At(t).Holding?
  {
    hide L.Inv, Recoverable, TurnOk;
    ReachableInv(digest, s);
    assert LinkedAt(s.locks, s.attempts, t);
  }

  lemma ChatReturnsAt(digest: Request -> string, s: Sys, t: Tid, job: Job, i: Intent, outcome: Outcome)
    requires Waits(s, t, job, Chatting(i), s.locks, s.rows, s.calls)
    ensures Waits(Step(digest, s, ChatReturns(t, outcome)), t, job, Finalizing(i, outcome), s.locks, s.rows, s.calls)
  {
  }

  lemma FinalizesAt(digest: Request -> string, s: Sys, t: Tid, job: Job, i: Intent, outcome: Outcome)
    requires Waits(s, t, job, Finalizing(i, outcome), s.locks, s.rows, s.calls) && Owned(s.rows, job, i)
    ensures Waits(Step(digest, s, FinalizeRow(t, true)), t, job, Releasing, s.locks,
                  s.rows[i.turn := Recorded(s.rows[i.turn], outcome)], s.calls)
  {
    KindsAreOk(Settled(outcome).1);
    hide TurnOk, KindOk;
    assert s.rows[i.turn := s.rows[i.turn]] == s.rows;
  }

  lemma LetGoAt(digest: Request -> string, s: Sys, t: Tid, job: Job, locks: L.Locks, rows: Table, calls: seq<Call>)
    requires Waits(s, t, job, Releasing, locks, rows, calls) && locks.At(t).Holding? && locks.At(t).turn == job.turn
    ensures var after := Run(digest, s, LetGo(t));
            && Waits(after, t, job, Over, after.locks, rows, calls)
            && after.locks.At(t).Idle? && job.turn !in after.locks.registry
  {
    RunTwo(digest, s, Lock(t, L.Delete(t)), Lock(t, L.Unlock(t)));
  }

  /** The attempt is over, the turn let go and the table as given. */
  ghost predicate Ended(s: Sys, t: Tid, u: Turn, rows: Table, calls: seq<Call>) {
    PcOf(s.attempts, t).Over? && s.locks.At(t).Idle? && u !in s.locks.registry && s.rows == rows && s.calls == calls
  }

  /** From every reachable state: when Chat returns and the terminal write reaches the
      database, the attempt ends with exactly its outcome recorded, no other row changed, and
      the turn let go. */
  lemma FinishedAttemptEnds(digest: Request -> string, s: Sys, t: Tid, outcome: Outcome)
    requires Reachable(digest, s) && PcOf(s.attempts, t).Chatting?
    ensures var u := PcOf(s.attempts, t).intent.turn;
            u in s.rows &&
            Ended(Run(digest, s, [ChatReturns(t, outcome), FinalizeRow(t, true)] + LetGo(t)), t, u,
                  s.rows[u := Recorded(s.rows[u], outcome)], s.calls)
  {
    IntentsAreOwned(digest, s, t);
    assert LinkedAt(s.locks, s.attempts, t);
    var job, i := s.attempts[t].job, PcOf(s.attempts, t).intent;
    var ends := [ChatReturns(t, outcome), FinalizeRow(t, true)];
    hide Run, Step, Recorded, Reachable, Linked, TurnOk;
    ChatReturnsAt(digest, s, t, job, i, outcome);
    var returned := Step(digest, s, ChatReturns(t, outcome));
    FinalizesAt(digest, returned, t, job, i, outcome);
    RunTwo(digest, s, ChatReturns(t, outcome), FinalizeRow(t, true));
    LetGoAt(digest, Run(digest, s, ends), t, job, s.locks, s.rows[i.turn := Recorded(s.rows[i.turn], outcome)], s.calls);
    RunAppend(digest, s, ends, LetGo(t));
  }

  lemma InterruptsAt(digest: Request -> string, s: Sys, t: Tid, job: Job, i: Intent, kind: ErrorKind, db: bool)
    requires Waits(s, t, job, Interrupting(i, kind), s.locks, s.rows, s.calls) && Owned(s.rows, job, i)
    ensures var recorded := db && s.Current(job.lease) && s.rows[i.turn].state != Canceled;
            Waits(Step(digest, s, InterruptRow(t, db)), t, job, Releasing, s.locks,
                  if recorded then s.rows[i.turn := s.rows[i.turn].(state := Interrupted, kind := kind)] else s.rows, s.calls)
  {
  }

  /** From every reachable state: an attempt that is stopped before Chat records the reason if
      the statement reaches the database, the session is still current and the row was not
      canceled; it changes nothing else, calls nothing, and lets the turn go. */
  lemma StoppedAttemptEnds(digest: Request -> string, s: Sys, t: Tid, db: bool)
    requires Reachable(digest, s) && PcOf(s.attempts, t).Interrupting?
    ensures var u, kind := PcOf(s.attempts, t).intent.turn, PcOf(s.attempts, t).kind;
            u in s.rows &&
            var recorded := db && s.Current(s.attempts[t].job.lease) && s.rows[u].state != Canceled;
            Ended(Run(digest, s, [InterruptRow(t, db)] + LetGo(t)), t, u,
                  if recorded then s.rows[u := s.rows[u].(state := Interrupted, kind := kind)] else s.rows, s.calls)
  {
    IntentsAreOwned(digest, s, t);
    assert LinkedAt(s.locks, s.attempts, t);
    var job, i, kind := s.attempts[t].job, PcOf(s.attempts, t).intent, PcOf(s.attempts, t).kind;
    hide Run, Step, Reachable, Linked, TurnOk;
    InterruptsAt(digest, s, t, job, i, kind, db);
    RunIs(digest, s, InterruptRow(t, db));
    var stopped := Step(digest, s, InterruptRow(t, db));
    LetGoAt(digest, stopped, t, job, s.locks, stopped.rows, s.calls);
    RunAppend(digest, s, [InterruptRow(t, db)], LetGo(t));
  }

  /** Preflight stops an attempt with its reason. */
  lemma PreflightStops(digest: Request -> string, s: Sys, t: Tid, kind: ErrorKind)
    requires PcOf(s.attempts, t).Ready?
    ensures var after := Step(digest, s, Preflight(t, kind));
            after == s.(attempts := after.attempts) && PcOf(after.attempts, t) == Interrupting(PcOf(s.attempts, t).intent, kind)
  {
  }

  lemma EntersAt(digest: Request -> string, s: Sys, t: Tid, job: Job, i: Intent, streaming: bool, db: bool)
    requires Waits(s, t, job, if streaming then Entering(i) else Ready(i), s.locks, s.rows, s.calls) && Owned(s.rows, job, i)
    ensures var after := Step(digest, s, if streaming then EnterStreaming(t, db) else EnterStarting(t, db));
            var fails := !db || !s.Current(job.lease) || s.rows[i.turn].state == Canceled;
            && (fails ==> after.rows == s.rows && after.calls == s.calls)
            && PcOf(after.attempts, t) == if fails then Interrupting(i, IntentInvalid) else if streaming then Entered(i) else Entering(i)
  {
  }

  /** From every reachable state: an entry fails exactly if the database, a login or a cancel
      stops it; then it changes no row and the attempt stops as invalid. */
  lemma EntryFailsExactly(digest: Request -> string, s: Sys, t: Tid, streaming: bool, db: bool)
    requires Reachable(digest, s) && (if streaming then PcOf(s.attempts, t).Entering? else PcOf(s.attempts, t).Ready?)
    ensures var i := PcOf(s.attempts, t).intent;
            var after := Step(digest, s, if streaming then EnterStreaming(t, db) else EnterStarting(t, db));
            i.turn in s.rows &&
            var fails := !db || !s.Current(s.attempts[t].job.lease) || s.rows[i.turn].state == Canceled;
            && (fails ==> after.rows == s.rows && after.calls == s.calls)
            && PcOf(after.attempts, t) == if fails then Interrupting(i, IntentInvalid) else if streaming then Entered(i) else Entering(i)
  {
    IntentsAreOwned(digest, s, t);
    hide Step, Reachable, Linked, TurnOk;
    EntersAt(digest, s, t, s.attempts[t].job, PcOf(s.attempts, t).intent, streaming, db);
  }

  /** A cancel on a session that was replaced changes nothing. */
  lemma StaleCancelIsVoid(digest: Request -> string, s: Sys, uid: nat, lease: nat, u: Turn, actions: seq<Action>)
    requires Reachable(digest, s) && lease == s.epoch
    ensures var after := Run(digest, Step(digest, s, ReplaceSession), actions);
            after.epoch > lease && Step(digest, after, CancelTurn(uid, lease, u)) == after
  {
    PositiveEpoch(digest, s);
    EpochGrows(digest, Step(digest, s, ReplaceSession), actions);
  }

  lemma {:induction false} EpochGrows(digest: Request -> string, s: Sys, actions: seq<Action>)
    ensures Run(digest, s, actions).epoch >= s.epoch
    decreases |actions|
  {
    if actions != [] {
      StepKeepsEpoch(digest, s, actions[0]);
      EpochGrows(digest, Step(digest, s, actions[0]), actions[1..]);
    }
  }

  // --------------------------------------------------------- recovery and stranding

  /** After a restart every turn that was neither completed nor canceled can be replayed by its
      owner, on either route, with the request that was frozen first. */
  lemma RestartMakesTurnsReplayable(digest: Request -> string, s: Sys, t: Tid, cloud: bool, u: Turn)
    requires Reachable(digest, s) && u in s.rows && s.rows[u].state != Completed && s.rows[u].state != Canceled
    ensures var after := Run(digest, Step(digest, s, Restart), ReplayWith(t, s.rows[u].uid, cloud, u, LUCKY));
            after.calls == s.calls + [Call(u, s.rows[u].uid, s.rows[u].req)]
  {
    var booted := Step(digest, s, Restart);
    StepIsReachable(digest, s, Restart);
    assert Follows(s.rows[u], booted.rows[u]);
    ReplayGoesThroughExactly(digest, booted, t, s.rows[u].uid, cloud, u, LUCKY);
  }

  /** The run that strands a row: a first chat whose Chat finishes and whose terminal write the
      database fails leaves the row streaming with nobody in flight. */
  lemma StrandedRun(digest: Request -> string, t: Tid, uid: nat, cloud: bool, u: Turn, body: Request)
    requires (forall r :: |digest(r)| == 64) && uid != 0 && Admit(u, body).Some?
    ensures var chat := ChatWith(t, uid, cloud, u, body, LUCKY) + [ChatReturns(t, Finished), FinalizeRow(t, false)];
            var after := Run(digest, BOOT, chat);
            u in after.rows && after.rows[u].state == Streaming && !HeldFlight(after, u)
  {
    hide Step, HeldFlight, Admit, Recoverable, ChatWith;
    assert Run(digest, BOOT, []) == BOOT;
    ChatGoesThroughExactly(digest, BOOT, t, uid, cloud, u, body, LUCKY);
    var chat := ChatWith(t, uid, cloud, u, body, LUCKY);
    var chatting := Run(digest, BOOT, chat);
    var returned := Step(digest, chatting, ChatReturns(t, Finished));
    ChatReturnsAt(digest, chatting, t, chatting.attempts[t].job, PcOf(chatting.attempts, t).intent, Finished);
    hide Run;
    StepIsReachable(digest, chatting, ChatReturns(t, Finished));
    FailedWriteStrands(digest, returned, t);
    RunTwo(digest, chatting, ChatReturns(t, Finished), FinalizeRow(t, false));
    RunAppend(digest, BOOT, chat, [ChatReturns(t, Finished), FinalizeRow(t, false)]);
  }
}
