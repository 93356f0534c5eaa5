/**
 The agent-turn protocol: chat and replay attempts that claim the per-turn lock and
 drive the intent row, cancels that do not take the lock, session replacements that
 can strike at any point, and process restarts. Every SQL statement or transaction
 and every lock operation is one atomic step, and each statement may fail. `Chat` is
 an arbitrary outcome. A run is any sequence of actions.
 */
module AgentTurns {
  import opened Wrappers
  import opened TurnIntents
  import L = TurnLocks

  type Tid = L.Tid

  datatype Intent = Intent(uid: nat, turn: Turn, req: Request)

  /** `lease` is the session epoch a request is bound to; 0 is the local route. */
  datatype Job = Job(uid: nat, lease: nat, turn: Turn, chat: Option<Request>)

  datatype Outcome = Finished | ThreadBusy | Failed(kind: ErrorKind)

  datatype Pc =
    | Checking                                   // chat: owner lookup before the lock
    | Loading                                    // replay: load of the interrupted row
    | Claiming(known: Option<Intent>)            // claiming the turn's lock
    | Ensuring                                   // chat: insert or validate the row
    | Ready(intent: Intent)                      // preflight, then enter 'starting'
    | Entering(intent: Intent)                   // about to enter 'streaming'
    | Entered(intent: Intent)                    // 'streaming' entered, Chat not called yet
    | Chatting(intent: Intent)                   // Chat in flight
    | Finalizing(intent: Intent, outcome: Outcome)
    | Interrupting(intent: Intent, kind: ErrorKind)
    | Releasing
    | Over
  {
    predicate InFlight() { Entered? || Chatting? || Finalizing? }
    predicate HasIntent() { Ready? || Entering? || InFlight() || Interrupting? }
    predicate Inside() { Ensuring? || HasIntent() }
  }

  datatype Attempt = Attempt(job: Job, pc: Pc)

  type Attempts = map<Tid, Attempt>

  function PcOf(attempts: Attempts, t: Tid): Pc { if t in attempts then attempts[t].pc else Over }

  datatype Call = Call(turn: Turn, uid: nat, req: Request)

  /** `calls` is the history of Chat calls; `lost` the turns whose terminal write failed and
      whose row no attempt has written since. */
  datatype Sys = Sys(locks: L.Locks, attempts: Attempts, rows: Table, epoch: nat, calls: seq<Call>, lost: set<Turn>)
  {
    function Go(t: Tid, pc: Pc): Sys
      requires t in attempts
    {
      this.(attempts := attempts[t := attempts[t].(pc := pc)])
    }
    predicate Current(lease: nat) { lease == 0 || lease == epoch }
  }

  const BOOT := Sys(L.NO_LOCKS, map[], map[], 1, [], {})

  /** `db` says whether the statement reached the database without an error. */
  datatype Action =
    | BeginChat(t: Tid, uid: nat, cloud: bool, turn: Turn, body: Request)
    | BeginReplay(t: Tid, uid: nat, cloud: bool, turn: Turn)
    | CheckOwner(t: Tid, db: bool)
    | Load(t: Tid, db: bool, ownsThread: bool)
    | Lock(t: Tid, lock: L.Action)
    | EnsureRow(t: Tid, db: bool, ownsThread: bool)
    | Preflight(t: Tid, kind: ErrorKind)
    | EnterStarting(t: Tid, db: bool)
    | EnterStreaming(t: Tid, db: bool)
    | CallChat(t: Tid)
    | ChatReturns(t: Tid, outcome: Outcome)
    | FinalizeRow(t: Tid, db: bool)
    | InterruptRow(t: Tid, db: bool)
    | CancelTurn(uid: nat, lease: nat, turn: Turn)
    | ReplaceSession
    | Restart

  predicate HasActor(a: Action) { !(a.CancelTurn? || a.ReplaceSession? || a.Restart?) }

  // --------------------------------------------------------------------- steps

  function Begin(s: Sys, t: Tid, job: Job): Sys {
    if t in s.attempts || job.uid == 0 then s
    else s.(attempts := s.attempts[t := Attempt(job, if job.chat.Some? then Checking else Loading)])
  }

  /** The lock operations an attempt performs: the claiming ones and the releasing ones. */
  predicate MayDo(job: Job, pc: Pc, t: Tid, a: L.Action) {
    a.t == t &&
    if a.Delete? || a.Unlock? then pc.Releasing? else pc.Claiming? && (a.Ask? ==> a.turn == job.turn)
  }

  /** Where the lock's answer takes an attempt. */
  function AfterLock(pc: Pc, before: L.Phase, after: L.Phase): Pc {
    if pc.Claiming? then
      if after.Holding? then (if pc.known.Some? then Ready(pc.known.value) else Ensuring)
      else if before.Fetched? && after.Idle? then Over
      else pc
    else if pc.Releasing? && after.Idle? then Over
    else pc
  }

  function LockStep(s: Sys, t: Tid, a: L.Action): Sys
    requires t in s.attempts
  {
    var job, pc := s.attempts[t].job, s.attempts[t].pc;
    if MayDo(job, pc, t, a) then
      var locks := L.Step(s.locks, a);
      s.(locks := locks).Go(t, AfterLock(pc, s.locks.At(t), locks.At(t)))
    else s
  }

  function Settled(outcome: Outcome): (TurnState, ErrorKind) {
    match outcome
    case Finished => (Completed, NoError)
    case ThreadBusy => (Interrupted, TurnInProgress)
    case Failed(kind) => (Interrupted, kind)
  }

  /** What one step of an attempt does besides moving on. */
  datatype Effect = Nothing | Store(rows: Table) | Calls(call: Call) | Loses(turn: Turn)

  datatype Move = Move(pc: Pc, effect: Effect)

  /** The turn whose row an attempt may write at this point. */
  function Target(job: Job, pc: Pc): Turn { if pc.HasIntent() then pc.intent.turn else job.turn }

  ghost predicate OnlyAt(a: Table, b: Table, u: Turn) {
    forall v :: v != u ==> (v in b <==> v in a) && (v in a ==> b[v] == a[v])
  }

  /** The next move of an attempt, or None when the action is not its next one. A move
      that writes does so inside the lock, on one row, and only forwards. */
  function Next(digest: Request -> string, s: Sys, job: Job, pc: Pc, a: Action): (m: Option<Move>)
    requires HasActor(a)
    ensures m.Some? && m.value.effect.Store? ==>
      pc.Inside() && Grows(s.rows, m.value.effect.rows) && OnlyAt(s.rows, m.value.effect.rows, Target(job, pc))
    ensures m.Some? && m.value.effect.Calls? ==>
      pc.Entered? && m.value == Move(Chatting(pc.intent), Calls(Call(pc.intent.turn, pc.intent.uid, pc.intent.req)))
    ensures m.Some? && m.value.effect.Loses? ==> pc.Finalizing? && m.value == Move(Releasing, Loses(pc.intent.turn))
  {
    match a
    case CheckOwner(_, db) =>
      if !pc.Checking? then None
      else if !db || !s.Current(job.lease) || (job.turn in s.rows && s.rows[job.turn].uid != job.uid)
      then Some(Move(Over, Nothing))
      else Some(Move(Claiming(None), Nothing))
    case Load(_, db, ownsThread) =>
      if !pc.Loading? then None
      else if db && s.Current(job.lease) && ownsThread && job.turn in s.rows && s.rows[job.turn].uid == job.uid
        && s.rows[job.turn].state == Interrupted && Recoverable(digest, job.turn, s.rows[job.turn])
      then Some(Move(Claiming(Some(Intent(job.uid, job.turn, s.rows[job.turn].req))), Nothing))
      else Some(Move(Over, Nothing))
    case EnsureRow(_, db, ownsThread) =>
      if !pc.Ensuring? || job.chat.None? then None
      else if !db || !s.Current(job.lease) then Some(Move(Releasing, Nothing))
      else
        var (r, rows) := Ensure(s.rows, job.uid, job.turn, job.chat.value, digest(job.chat.value), ownsThread);
        Some(Move(if r.Frozen? then Ready(Intent(job.uid, job.turn, job.chat.value)) else Releasing, Store(rows)))
    case Preflight(_, kind) => if pc.Ready? then Some(Move(Interrupting(pc.intent, kind), Nothing)) else None
    case EnterStarting(_, db) =>
      if !pc.Ready? then None else Some(Enter(s, job, pc.intent, db, Starting, Entering(pc.intent)))
    case EnterStreaming(_, db) =>
      if !pc.Entering? then None else Some(Enter(s, job, pc.intent, db, Streaming, Entered(pc.intent)))
    case CallChat(_) =>
      if pc.Entered?
      then Some(Move(Chatting(pc.intent), Calls(Call(pc.intent.turn, pc.intent.uid, pc.intent.req))))
      else None
    case ChatReturns(_, outcome) => if pc.Chatting? then Some(Move(Finalizing(pc.intent, outcome), Nothing)) else None
    case FinalizeRow(_, db) =>
      if !pc.Finalizing? then None
      else if !db then Some(Move(Releasing, Loses(pc.intent.turn)))
      else
        var (state, kind) := Settled(pc.outcome);
        Some(Move(Releasing, Store(Finalize(s.rows, pc.intent.uid, pc.intent.turn, state, kind).1)))
    case InterruptRow(_, db) =>
      if !pc.Interrupting? then None
      else if db && s.Current(job.lease)
      then Some(Move(Releasing, Store(Write(s.rows, pc.intent.uid, pc.intent.turn, Interrupted, pc.kind))))
      else Some(Move(Releasing, Nothing))
    case _ => None
  }

  /** A pre-upstream transition: it must see one live, non-canceled row. */
  function Enter(s: Sys, job: Job, i: Intent, db: bool, state: TurnState, next: Pc): (m: Move)
    ensures m.effect.Store? ==> Grows(s.rows, m.effect.rows) && OnlyAt(s.rows, m.effect.rows, i.turn)
  {
    if db && s.Current(job.lease) && Writable(s.rows, i.uid, i.turn)
    then Move(next, Store(Write(s.rows, i.uid, i.turn, state, NoError)))
    else Move(Interrupting(i, IntentInvalid), Nothing)
  }

  function Apply(s: Sys, t: Tid, m: Move): Sys
    requires t in s.attempts
  {
    match m.effect
    case Nothing => s.Go(t, m.pc)
    case Store(rows) =>
      var pc := s.attempts[t].pc;
      s.(rows := rows, lost := if pc.HasIntent() then s.lost - {pc.intent.turn} else s.lost).Go(t, m.pc)
    case Calls(call) => s.(calls := s.calls + [call]).Go(t, m.pc)
    case Loses(turn) => s.(lost := s.lost + {turn}).Go(t, m.pc)
  }

  function Advance(digest: Request -> string, s: Sys, a: Action): Sys
    requires HasActor(a) && a.t in s.attempts
  {
    var m := Next(digest, s, s.attempts[a.t].job, s.attempts[a.t].pc, a);
    if m.Some? then Apply(s, a.t, m.value) else s
  }

  /** A new process: no attempt and no lock survives, and boot sweeps the table. */
  function Restarted(s: Sys): Sys { Sys(L.NO_LOCKS, map[], Cleanup(s.rows), s.epoch, s.calls, {}) }

  function Step(digest: Request -> string, s: Sys, a: Action): Sys {
    match a
    case BeginChat(t, uid, cloud, turn, body) =>
      var admitted := Admit(turn, body);
      if admitted.Some? then Begin(s, t, Job(uid, if cloud then s.epoch else 0, turn, admitted)) else s
    case BeginReplay(t, uid, cloud, turn) =>
      if TurnOk(turn) then Begin(s, t, Job(uid, if cloud then s.epoch else 0, turn, None)) else s
    case CancelTurn(uid, lease, turn) => if s.Current(lease) then s.(rows := Cancel(s.rows, uid, turn)) else s
    case ReplaceSession => s.(epoch := s.epoch + 1)
    case Restart => Restarted(s)
    case Lock(t, lock) => if t in s.attempts then LockStep(s, t, lock) else s
    case _ => if a.t in s.attempts then Advance(digest, s, a) else s
  }

  function Run(digest: Request -> string, s: Sys, actions: seq<Action>): Sys
    decreases |actions|
  {
    if actions == [] then s else Run(digest, Step(digest, s, actions[0]), actions[1..])
  }

  // ---------------------------------------------------------------- invariants

  ghost predicate Holds(locks: L.Locks, t: Tid, u: Turn) { locks.At(t).Holding? && locks.At(t).turn == u }

  /** Where an attempt stands in the protocol agrees with where it stands in the lock. */
  ghost predicate LinkedAt(locks: L.Locks, attempts: Attempts, t: Tid) {
    var at := locks.At(t);
    if t !in attempts then at.Idle?
    else
      var pc, turn := attempts[t].pc, attempts[t].job.turn;
      && (pc.Checking? || pc.Loading? || pc.Over? ==> at.Idle?)
      && (pc.Claiming? ==> at.Idle? || (at.turn == turn && !at.Holding? && !at.Retired?))
      && (pc.Inside() ==> Holds(locks, t, turn))
      && (pc.Releasing? ==> at.On(turn) && (at.Holding? || at.Retired?))
  }

  ghost predicate Linked(locks: L.Locks, attempts: Attempts) { forall t :: LinkedAt(locks, attempts, t) }

  ghost predicate CopyOf(rows: Table, job: Job, i: Intent) {
    i.turn == job.turn && i.uid == job.uid && i.turn in rows && rows[i.turn].uid == i.uid && rows[i.turn].req == i.req
  }

  /** Every intent an attempt carries is a copy of the frozen row. */
  ghost predicate Copies(attempts: Attempts, rows: Table) {
    forall t :: t in attempts ==>
      && (attempts[t].pc.HasIntent() ==> CopyOf(rows, attempts[t].job, attempts[t].pc.intent))
      && (attempts[t].pc.Claiming? && attempts[t].pc.known.Some? ==>
            CopyOf(rows, attempts[t].job, attempts[t].pc.known.value))
  }

  ghost predicate JobOk(job: Job) {
    job.uid != 0 && TurnOk(job.turn) && (job.chat.Some? ==> exists body :: Admit(job.turn, body) == job.chat)
  }

  ghost predicate JobsOk(attempts: Attempts) { forall t :: t in attempts ==> JobOk(attempts[t].job) }

  ghost predicate RowsOk(digest: Request -> string, rows: Table) {
    forall u :: u in rows ==> rows[u].uid != 0 && Recoverable(digest, u, rows[u])
  }

  ghost predicate FliesOn(attempts: Attempts, t: Tid, u: Turn) {
    PcOf(attempts, t).InFlight() && PcOf(attempts, t).intent.turn == u
  }

  /** From streaming entry to the terminal write the row is streaming or canceled. */
  ghost predicate FlightsOk(attempts: Attempts, rows: Table) {
    forall t, u :: FliesOn(attempts, t, u) ==> u in rows && rows[u].state in {Streaming, Canceled}
  }

  /** A streaming row has an attempt in flight, or lost its terminal write. */
  ghost predicate StreamingOk(attempts: Attempts, rows: Table, lost: set<Turn>) {
    forall u :: u in rows && rows[u].state == Streaming && u !in lost ==> exists t :: FliesOn(attempts, t, u)
  }

  /** A lost row is as its flight left it, and nobody flies on it. */
  ghost predicate LostOk(attempts: Attempts, rows: Table, lost: set<Turn>) {
    forall u :: u in lost ==>
      u in rows && rows[u].state in {Streaming, Canceled} && forall t :: !FliesOn(attempts, t, u)
  }

  ghost predicate CallOk(call: Call, rows: Table) {
    call.turn in rows && rows[call.turn].uid == call.uid && rows[call.turn].req == call.req
  }

  ghost predicate CallsOk(calls: seq<Call>, rows: Table) { forall i :: 0 <= i < |calls| ==> CallOk(calls[i], rows) }

  ghost predicate DataOk(digest: Request -> string, s: Sys) {
    && Copies(s.attempts, s.rows) && JobsOk(s.attempts) && RowsOk(digest, s.rows)
    && FlightsOk(s.attempts, s.rows) && StreamingOk(s.attempts, s.rows, s.lost)
    && LostOk(s.attempts, s.rows, s.lost) && CallsOk(s.calls, s.rows)
  }

  ghost predicate Inv(digest: Request -> string, s: Sys) {
    L.Inv(s.locks) && Linked(s.locks, s.attempts) && DataOk(digest, s)
  }

  // ------------------------------------------------------------ frame of a step

  lemma TableGrows(digest: Request -> string, s: Sys, a: Action)
    ensures Grows(s.rows, Step(digest, s, a).rows)
  {
  }

  // ------------------------------------------------------- what a move can be

  /** The lock is entered and left only through lock steps; intents are copies of the row. */
  ghost predicate KeepsPlace(s: Sys, job: Job, pc: Pc, m: Move) {
    && (m.pc.Inside() || m.pc.Releasing? ==> pc.Inside())
    && (m.pc.Claiming? || m.pc.Over? ==> pc.Checking? || pc.Loading?)
    && !m.pc.Checking? && !m.pc.Loading?
    && (m.pc.HasIntent() ==>
          if pc.HasIntent() then m.pc.intent == pc.intent
          else m.effect.Store? && CopyOf(m.effect.rows, job, m.pc.intent))
    && (m.pc.Claiming? && m.pc.known.Some? ==> m.effect.Nothing? && CopyOf(s.rows, job, m.pc.known.value))
  }

  /** Writes stay inside the lock, on one row, only go forwards, and insert valid rows. */
  ghost predicate WritesWell(digest: Request -> string, s: Sys, job: Job, pc: Pc, m: Move) {
    m.effect.Store? ==>
      && pc.Inside() && Grows(s.rows, m.effect.rows) && OnlyAt(s.rows, m.effect.rows, Target(job, pc))
      && forall u :: u in m.effect.rows && u !in s.rows ==>
           m.effect.rows[u].uid != 0 && Recoverable(digest, u, m.effect.rows[u])
  }

  /** Only a take-off makes a row streaming, a flight leaves the row alone, and a landing
      writes or is recorded as lost. */
  ghost predicate FliesWell(s: Sys, pc: Pc, m: Move) {
    && (m.pc.InFlight() && pc.InFlight() ==> !m.effect.Store? && !m.pc.Entered?)
    && (m.pc.InFlight() && !pc.InFlight() ==>
          m.effect.Store? && m.pc.intent.turn in m.effect.rows && m.effect.rows[m.pc.intent.turn].state == Streaming)
    && (m.effect.Calls? ==> pc.Entered? && m.pc.Chatting? && m.effect.call == Call(pc.intent.turn, pc.intent.uid, pc.intent.req))
    && (m.effect.Store? ==> forall u :: u in m.effect.rows && m.effect.rows[u].state == Streaming ==>
          (u in s.rows && s.rows[u].state == Streaming) || (m.pc.Entered? && m.pc.intent.turn == u))
    && (pc.InFlight() && !m.pc.InFlight() ==> m.effect.Store? || m.effect == Loses(pc.intent.turn))
    && (m.effect.Loses? ==> pc.InFlight() && !m.pc.InFlight() && m.effect.turn == pc.intent.turn)
  }

  /** A write by an attempt with an intent settles the row unless it takes off; a write
      before that changes no row there is. */
  ghost predicate SettlesWell(s: Sys, pc: Pc, m: Move) {
    m.effect.Store? ==>
      && (pc.HasIntent() && !m.pc.Entered? && pc.intent.turn in m.effect.rows ==> m.effect.rows[pc.intent.turn].state != Streaming)
      && (!pc.HasIntent() ==> !m.pc.InFlight() && forall u :: u in s.rows ==> u in m.effect.rows && m.effect.rows[u] == s.rows[u])
  }

  lemma NextKeepsPlace(digest: Request -> string, s: Sys, job: Job, pc: Pc, a: Action, m: Move)
    requires HasActor(a) && Next(digest, s, job, pc, a) == Some(m)
    ensures KeepsPlace(s, job, pc, m)
  {
  }

  lemma NextWritesWell(digest: Request -> string, s: Sys, job: Job, pc: Pc, a: Action, m: Move)
    requires HasActor(a) && Next(digest, s, job, pc, a) == Some(m)
    requires JobOk(job) && forall r :: |digest(r)| == 64
    ensures WritesWell(digest, s, job, pc, m)
  {
    if a.EnsureRow? && m.effect.Store? {
      var body :| Admit(job.turn, body) == job.chat;
      if job.turn in m.effect.rows && job.turn !in s.rows {
        AdmittedIsRecoverable(digest, job.turn, body, m.effect.rows[job.turn]);
      }
    }
  }

  lemma NextFliesWell(digest: Request -> string, s: Sys, job: Job, pc: Pc, a: Action, m: Move)
    requires HasActor(a) && Next(digest, s, job, pc, a) == Some(m)
    requires JobOk(job) && (pc.HasIntent() ==> CopyOf(s.rows, job, pc.intent))
    ensures FliesWell(s, pc, m)
  {
  }

  lemma NextSettlesWell(digest: Request -> string, s: Sys, job: Job, pc: Pc, a: Action, m: Move)
    requires HasActor(a) && Next(digest, s, job, pc, a) == Some(m)
    requires JobOk(job) && (pc.HasIntent() ==> CopyOf(s.rows, job, pc.intent))
    ensures SettlesWell(s, pc, m)
  {
    if a.FinalizeRow? {
      KindsAreOk(Settled(pc.outcome).1);
    }
  }

  /** What every next move of an attempt satisfies, whichever action it came from. */
  ghost predicate Moves(digest: Request -> string, s: Sys, k: Tid, m: Move) {
    && k in s.attempts
    && KeepsPlace(s, s.attempts[k].job, s.attempts[k].pc, m)
    && WritesWell(digest, s, s.attempts[k].job, s.attempts[k].pc, m)
    && FliesWell(s, s.attempts[k].pc, m)
    && SettlesWell(s, s.attempts[k].pc, m)
  }

  // ---------------------------------------------- a move keeps the invariants

  lemma GrowsKeepsRows(digest: Request -> string, rows: Table, after: Table)
    requires RowsOk(digest, rows) && Grows(rows, after)
    requires forall u :: u in after && u !in rows ==> after[u].uid != 0 && Recoverable(digest, u, after[u])
    ensures RowsOk(digest, after)
  {
    forall u | u in after && u in rows
      ensures after[u].uid != 0 && Recoverable(digest, u, after[u])
    {
      assert Follows(rows[u], after[u]);
      KindsAreOk(after[u].kind);
    }
  }

  lemma GrowsKeepsCopies(attempts: Attempts, calls: seq<Call>, rows: Table, after: Table)
    requires Copies(attempts, rows) && CallsOk(calls, rows) && Grows(rows, after)
    ensures Copies(attempts, after) && CallsOk(calls, after)
  {
  }

  lemma MoveKeepsLinked(digest: Request -> string, s: Sys, k: Tid, m: Move)
    requires Linked(s.locks, s.attempts) && Moves(digest, s, k, m)
    ensures Linked(s.locks, Apply(s, k, m).attempts)
  {
    assert LinkedAt(s.locks, s.attempts, k);
    forall t
      ensures LinkedAt(s.locks, Apply(s, k, m).attempts, t)
    {
      assert LinkedAt(s.locks, s.attempts, t);
    }
  }

  lemma MoveKeepsCopies(digest: Request -> string, s: Sys, k: Tid, m: Move)
    requires Copies(s.attempts, s.rows) && CallsOk(s.calls, s.rows) && Moves(digest, s, k, m)
    ensures var s' := Apply(s, k, m); Copies(s'.attempts, s'.rows) && CallsOk(s'.calls, s'.rows)
  {
    var s' := Apply(s, k, m);
    GrowsKeepsCopies(s.attempts, s.calls, s.rows, s'.rows);
  }

  /** Two attempts inside the same turn are the same attempt. */
  lemma OneInside(s: Sys, t1: Tid, t2: Tid)
    requires L.Inv(s.locks) && Linked(s.locks, s.attempts) && t1 in s.attempts && t2 in s.attempts
    requires s.attempts[t1].pc.Inside() && s.attempts[t2].pc.Inside()
    requires s.attempts[t1].job.turn == s.attempts[t2].job.turn
    ensures t1 == t2
  {
    assert LinkedAt(s.locks, s.attempts, t1) && LinkedAt(s.locks, s.attempts, t2);
  }

  lemma MoveKeepsFlights(digest: Request -> string, s: Sys, k: Tid, m: Move)
    requires L.Inv(s.locks) && Linked(s.locks, s.attempts) && Copies(s.attempts, s.rows)
    requires FlightsOk(s.attempts, s.rows) && Moves(digest, s, k, m)
    ensures var s' := Apply(s, k, m); FlightsOk(s'.attempts, s'.rows)
  {
    var s' := Apply(s, k, m);
    forall t, u | FliesOn(s'.attempts, t, u)
      ensures u in s'.rows && s'.rows[u].state in {Streaming, Canceled}
    {
      if t != k {
        assert FliesOn(s.attempts, t, u);
        if m.effect.Store? && s.attempts[t].job.turn == s.attempts[k].job.turn {
          OneInside(s, t, k);
        }
      } else if s.attempts[k].pc.InFlight() {
        assert FliesOn(s.attempts, t, u);
      }
    }
  }

  lemma MoveKeepsStreaming(digest: Request -> string, s: Sys, k: Tid, m: Move)
    requires StreamingOk(s.attempts, s.rows, s.lost) && Moves(digest, s, k, m)
    ensures var s' := Apply(s, k, m); StreamingOk(s'.attempts, s'.rows, s'.lost)
  {
    var s' := Apply(s, k, m);
    forall u | u in s'.rows && s'.rows[u].state == Streaming && u !in s'.lost
      ensures exists t :: FliesOn(s'.attempts, t, u)
    {
      if m.effect.Store? && m.pc.Entered? && m.pc.intent.turn == u {
        assert FliesOn(s'.attempts, k, u);
      } else {
        var t :| FliesOn(s.attempts, t, u);
        assert FliesOn(s'.attempts, t, u);
      }
    }
  }

  lemma MoveKeepsLost(digest: Request -> string, s: Sys, k: Tid, m: Move)
    requires L.Inv(s.locks) && Linked(s.locks, s.attempts) && Copies(s.attempts, s.rows)
    requires FlightsOk(s.attempts, s.rows) && LostOk(s.attempts, s.rows, s.lost) && Moves(digest, s, k, m)
    ensures var s' := Apply(s, k, m); LostOk(s'.attempts, s'.rows, s'.lost)
  {
    hide L.Inv, Linked, Recoverable;
    var s' := Apply(s, k, m);
    forall u | u in s'.lost
      ensures u in s'.rows && s'.rows[u].state in {Streaming, Canceled}
    {
      assert m.effect == Loses(u) ==> FliesOn(s.attempts, k, u);
    }
    forall t, u | u in s'.lost
      ensures !FliesOn(s'.attempts, t, u)
    {
      if FliesOn(s'.attempts, t, u) && FliesOn(s.attempts, t, u) && m.effect == Loses(u) {
        OneInside(s, t, k);
      }
    }
  }

  lemma MoveKeepsInv(digest: Request -> string, s: Sys, k: Tid, m: Move)
    requires Inv(digest, s) && Moves(digest, s, k, m)
    ensures Inv(digest, Apply(s, k, m))
  {
    hide L.Inv, Recoverable, JobOk;
    MoveKeepsLinked(digest, s, k, m);
    MoveKeepsCopies(digest, s, k, m);
    GrowsKeepsRows(digest, s.rows, Apply(s, k, m).rows);
    MoveKeepsFlights(digest, s, k, m);
    MoveKeepsStreaming(digest, s, k, m);
    MoveKeepsLost(digest, s, k, m);
    assert JobsOk(Apply(s, k, m).attempts);
  }

  // --------------------------------------- the other steps keep the invariants

  lemma LockStepKeepsLinked(s: Sys, k: Tid, a: L.Action)
    requires Linked(s.locks, s.attempts) && k in s.attempts
    ensures var s' := LockStep(s, k, a); Linked(s'.locks, s'.attempts)
  {
    var s' := LockStep(s, k, a);
    assert LinkedAt(s.locks, s.attempts, k);
    L.OthersStay(s.locks, a);
    forall t | t != k
      ensures LinkedAt(s'.locks, s'.attempts, t)
    {
      assert LinkedAt(s.locks, s.attempts, t);
    }
  }

  /** A lock step neither starts nor ends a flight and touches no row. */
  lemma LockStepKeepsFlights(s: Sys, k: Tid, a: L.Action)
    requires k in s.attempts
    ensures forall t, u :: FliesOn(LockStep(s, k, a).attempts, t, u) <==> FliesOn(s.attempts, t, u)
  {
    hide L.Step;
  }

  lemma LockStepKeepsCopies(s: Sys, k: Tid, a: L.Action)
    requires k in s.attempts && Copies(s.attempts, s.rows) && JobsOk(s.attempts)
    ensures var s' := LockStep(s, k, a); Copies(s'.attempts, s.rows) && JobsOk(s'.attempts)
  {
    hide L.Step, JobOk;
  }

  lemma LockStepKeepsData(digest: Request -> string, s: Sys, k: Tid, a: L.Action)
    requires k in s.attempts && DataOk(digest, s)
    ensures DataOk(digest, LockStep(s, k, a))
  {
    hide L.Step, JobOk, Recoverable, Copies, FliesOn;
    LockStepKeepsFlights(s, k, a);
    LockStepKeepsCopies(s, k, a);
  }

  lemma EpochKeepsInv(digest: Request -> string, s: Sys)
    requires Inv(digest, s)
    ensures Inv(digest, Step(digest, s, ReplaceSession))
  {
    hide L.Inv, Linked, Copies, JobsOk, RowsOk, FlightsOk, StreamingOk, LostOk, CallsOk, Next;
  }

  lemma BeginKeepsLinked(s: Sys, k: Tid, job: Job)
    requires Linked(s.locks, s.attempts)
    ensures Linked(s.locks, Begin(s, k, job).attempts)
  {
    forall t
      ensures LinkedAt(s.locks, Begin(s, k, job).attempts, t)
    {
      assert LinkedAt(s.locks, s.attempts, t);
    }
  }

  lemma BeginKeepsData(digest: Request -> string, s: Sys, k: Tid, job: Job)
    requires DataOk(digest, s) && (job.uid != 0 ==> JobOk(job))
    ensures DataOk(digest, Begin(s, k, job))
  {
    forall t, u
      ensures FliesOn(Begin(s, k, job).attempts, t, u) <==> FliesOn(s.attempts, t, u)
    {
    }
  }

  lemma BeginKeepsInv(digest: Request -> string, s: Sys, k: Tid, job: Job)
    requires Inv(digest, s) && (job.uid != 0 ==> JobOk(job))
    ensures Inv(digest, Begin(s, k, job))
  {
    BeginKeepsLinked(s, k, job);
    BeginKeepsData(digest, s, k, job);
  }

  lemma CancelKeepsData(digest: Request -> string, s: Sys, uid: nat, turn: Turn)
    requires DataOk(digest, s)
    ensures DataOk(digest, s.(rows := Cancel(s.rows, uid, turn)))
  {
    hide Recoverable, JobOk;
    var rows := Cancel(s.rows, uid, turn);
    GrowsKeepsRows(digest, s.rows, rows);
    GrowsKeepsCopies(s.attempts, s.calls, s.rows, rows);
  }

  lemma RestartKeepsInv(digest: Request -> string, s: Sys)
    requires DataOk(digest, s)
    ensures Inv(digest, Restarted(s))
  {
    hide Recoverable, JobOk;
    GrowsKeepsRows(digest, s.rows, Cleanup(s.rows));
    GrowsKeepsCopies(s.attempts, s.calls, s.rows, Cleanup(s.rows));
  }

  lemma NextMoves(digest: Request -> string, s: Sys, a: Action, m: Move)
    requires Copies(s.attempts, s.rows) && JobsOk(s.attempts) && forall r :: |digest(r)| == 64
    requires HasActor(a) && a.t in s.attempts
    requires Next(digest, s, s.attempts[a.t].job, s.attempts[a.t].pc, a) == Some(m)
    ensures Moves(digest, s, a.t, m)
  {
    var job, pc := s.attempts[a.t].job, s.attempts[a.t].pc;
    NextKeepsPlace(digest, s, job, pc, a, m);
    NextWritesWell(digest, s, job, pc, a, m);
    NextFliesWell(digest, s, job, pc, a, m);
    NextSettlesWell(digest, s, job, pc, a, m);
  }

  lemma AdvanceKeepsInv(digest: Request -> string, s: Sys, a: Action)
    requires Inv(digest, s) && HasActor(a) && a.t in s.attempts && forall r :: |digest(r)| == 64
    ensures Inv(digest, Advance(digest, s, a))
  {
    hide L.Inv, Linked, Recoverable, JobOk, Moves;
    var m := Next(digest, s, s.attempts[a.t].job, s.attempts[a.t].pc, a);
    if m.Some? {
      NextMoves(digest, s, a, m.value);
      MoveKeepsInv(digest, s, a.t, m.value);
    }
  }

  lemma StepKeepsInv(digest: Request -> string, s: Sys, a: Action)
    requires Inv(digest, s) && forall r :: |digest(r)| == 64
    ensures Inv(digest, Step(digest, s, a))
  {
    hide L.Inv, Linked, DataOk, Recoverable, Next;
    match a
    case BeginChat(t, uid, cloud, turn, body) =>
      if Admit(turn, body).Some? {
        BeginKeepsInv(digest, s, t, Job(uid, if cloud then s.epoch else 0, turn, Admit(turn, body)));
      }
    case BeginReplay(t, uid, cloud, turn) =>
      if TurnOk(turn) {
        BeginKeepsInv(digest, s, t, Job(uid, if cloud then s.epoch else 0, turn, None));
      }
    case CancelTurn(uid, lease, turn) => CancelKeepsData(digest, s, uid, turn);
    case ReplaceSession => EpochKeepsInv(digest, s);
    case Restart => RestartKeepsInv(digest, s);
    case Lock(t, lock) =>
      if t in s.attempts {
        LockStepKeepsLinked(s, t, lock);
        LockStepKeepsData(digest, s, t, lock);
        L.StepKeepsInv(s.locks, lock);
      }
    case _ =>
      if a.t in s.attempts {
        AdvanceKeepsInv(digest, s, a);
      }
  }

  lemma {:induction false} RunKeepsInv(digest: Request -> string, s: Sys, actions: seq<Action>)
    requires Inv(digest, s) && forall r :: |digest(r)| == 64
    ensures Inv(digest, Run(digest, s, actions))
    decreases |actions|
  {
    if actions != [] {
      StepKeepsInv(digest, s, actions[0]);
      RunKeepsInv(digest, Step(digest, s, actions[0]), actions[1..]);
    }
  }

  // ------------------------------------------------------------------- theorems

  ghost predicate Reachable(digest: Request -> string, s: Sys) {
    (forall r :: |digest(r)| == 64) && exists actions :: s == Run(digest, BOOT, actions)
  }

  lemma ReachableInv(digest: Request -> string, s: Sys)
    requires Reachable(digest, s)
    ensures Inv(digest, s)
  {
    var actions :| s == Run(digest, BOOT, actions);
    RunKeepsInv(digest, BOOT, actions);
  }

  /** At most one attempt is between streaming entry and terminal write, so at most one
      Chat is in flight per turn. */
  lemma OneChatPerTurn(digest: Request -> string, s: Sys, t1: Tid, t2: Tid, u: Turn)
    requires Reachable(digest, s) && FliesOn(s.attempts, t1, u) && FliesOn(s.attempts, t2, u)
    ensures t1 == t2
  {
    ReachableInv(digest, s);
    OneInside(s, t1, t2);
  }

  /** While Chat runs its attempt holds the turn's lock, its request is the frozen one,
      and the row is streaming or canceled. */
  lemma ChatRunsOnLiveRow(digest: Request -> string, s: Sys, t: Tid)
    requires Reachable(digest, s) && PcOf(s.attempts, t).Chatting?
    ensures var i := PcOf(s.attempts, t).intent;
            && Holds(s.locks, t, i.turn) && i.turn in s.rows
            && s.rows[i.turn].state in {Streaming, Canceled}
            && s.rows[i.turn].uid == i.uid && s.rows[i.turn].req == i.req
  {
    ReachableInv(digest, s);
    var i := PcOf(s.attempts, t).intent;
    assert FliesOn(s.attempts, t, i.turn) && LinkedAt(s.locks, s.attempts, t);
  }

  ghost predicate HeldFlight(s: Sys, u: Turn) { exists t :: FliesOn(s.attempts, t, u) && Holds(s.locks, t, u) }

  /** A row that is not canceled is streaming if and only if a lock-holding attempt is between
      its streaming entry and its terminal write, or that write failed and no attempt has
      written the row since; never both. */
  lemma StreamingExactlyInFlight(digest: Request -> string, s: Sys, u: Turn)
    requires Reachable(digest, s) && u in s.rows && s.rows[u].state != Canceled
    ensures s.rows[u].state == Streaming <==> u in s.lost || HeldFlight(s, u)
    ensures !(u in s.lost && HeldFlight(s, u))
  {
    ReachableInv(digest, s);
    if s.rows[u].state == Streaming && u !in s.lost {
      var t :| FliesOn(s.attempts, t, u);
      FlightIsHeld(s, t, u);
    }
  }

  lemma FlightIsHeld(s: Sys, t: Tid, u: Turn)
    requires Linked(s.locks, s.attempts) && Copies(s.attempts, s.rows) && FliesOn(s.attempts, t, u)
    ensures Holds(s.locks, t, u)
  {
    assert LinkedAt(s.locks, s.attempts, t);
  }

  /** A turn is lost only through a terminal write that the database failed. */
  lemma {:induction false} LostOnlyByFailedWrite(digest: Request -> string, s: Sys, actions: seq<Action>)
    requires forall i :: 0 <= i < |actions| && actions[i].FinalizeRow? ==> actions[i].db
    ensures Run(digest, s, actions).lost <= s.lost
    decreases |actions|
  {
    if actions != [] {
      StepLosesNothing(digest, s, actions[0]);
      LostOnlyByFailedWrite(digest, Step(digest, s, actions[0]), actions[1..]);
    }
  }

  lemma StepLosesNothing(digest: Request -> string, s: Sys, a: Action)
    requires a.FinalizeRow? ==> a.db
    ensures Step(digest, s, a).lost <= s.lost
  {
    hide L.Step, Recoverable, Ensure, Finalize, Write, Cancel, Cleanup, Admit;
  }

  /** So in every run whose terminal writes reach the database, a row is streaming if and
      only if a lock-holding attempt is in flight, or it was canceled meanwhile. */
  lemma StreamingOnlyInFlight(digest: Request -> string, actions: seq<Action>, u: Turn)
    requires forall r :: |digest(r)| == 64
    requires forall i :: 0 <= i < |actions| && actions[i].FinalizeRow? ==> actions[i].db
    ensures var s := Run(digest, BOOT, actions);
            u in s.rows && s.rows[u].state != Canceled ==> (s.rows[u].state == Streaming <==> HeldFlight(s, u))
  {
    hide Step, HeldFlight;
    var s := Run(digest, BOOT, actions);
    LostOnlyByFailedWrite(digest, BOOT, actions);
    assert Reachable(digest, s);
    if u in s.rows && s.rows[u].state != Canceled {
      StreamingExactlyInFlight(digest, s, u);
    }
  }

  /** And a failed terminal write always strands the row: from every reachable state it leaves
      a row that is not canceled streaming, with no attempt in flight. */
  lemma FailedWriteStrands(digest: Request -> string, s: Sys, t: Tid)
    requires Reachable(digest, s) && PcOf(s.attempts, t).Finalizing?
    ensures var u, after := PcOf(s.attempts, t).intent.turn, Step(digest, s, FinalizeRow(t, false));
            && u in after.lost && after.rows == s.rows && u in s.rows && !HeldFlight(after, u)
            && (s.rows[u].state != Canceled ==> after.rows[u].state == Streaming)
  {
    var u, after := PcOf(s.attempts, t).intent.turn, Step(digest, s, FinalizeRow(t, false));
    assert after == s.(lost := s.lost + {u}).Go(t, Releasing);
    hide Step, Next, L.Inv, Linked, Copies, JobsOk, RowsOk, StreamingOk, CallsOk;
    ReachableInv(digest, s);
    assert FliesOn(s.attempts, t, u);
    StepKeepsInv(digest, s, FinalizeRow(t, false));
  }

  /** Rows are first-writer-wins: no run drops one, moves its owner or request, or changes
      it once it is canceled. */
  lemma {:induction false} RowsAreFrozen(digest: Request -> string, s: Sys, actions: seq<Action>)
    ensures Grows(s.rows, Run(digest, s, actions).rows)
    decreases |actions|
  {
    if actions != [] {
      var s' := Step(digest, s, actions[0]);
      TableGrows(digest, s, actions[0]);
      RowsAreFrozen(digest, s', actions[1..]);
      GrowsTransitive(s.rows, s'.rows, Run(digest, s, actions).rows);
    }
  }

  lemma GrowsTransitive(a: Table, b: Table, c: Table)
    requires Grows(a, b) && Grows(b, c)
    ensures Grows(a, c)
  {
    forall u | u in a
      ensures u in c && Follows(a[u], c[u])
    {
      assert Follows(a[u], b[u]) && Follows(b[u], c[u]);
    }
  }

  /** Every Chat of a turn, past or future, gets the owner and request of the row that was
      inserted first. */
  lemma ChatsUseTheFrozenRequest(digest: Request -> string, s: Sys, actions: seq<Action>, i: nat)
    requires Reachable(digest, s) && i < |Run(digest, s, actions).calls|
    ensures var call := Run(digest, s, actions).calls[i];
            call.turn in s.rows ==> call.uid == s.rows[call.turn].uid && call.req == s.rows[call.turn].req
  {
    ReachableInv(digest, s);
    RunKeepsInv(digest, s, actions);
    RowsAreFrozen(digest, s, actions);
    var s' := Run(digest, s, actions);
    var u := s'.calls[i].turn;
    assert CallOk(s'.calls[i], s'.rows);
    assert u in s.rows ==> Follows(s.rows[u], s'.rows[u]);
  }

  lemma ForeignMoveKeepsRow(digest: Request -> string, s: Sys, job: Job, pc: Pc, a: Action, m: Move, u: Turn)
    requires HasActor(a) && Next(digest, s, job, pc, a) == Some(m) && m.effect.Store?
    requires pc.HasIntent() ==> CopyOf(s.rows, job, pc.intent)
    requires u in s.rows && s.rows[u].uid != job.uid
    ensures u in m.effect.rows && m.effect.rows[u] == s.rows[u]
  {
  }

  /** A request of another user never changes a row. */
  lemma ForeignerCannotWrite(digest: Request -> string, s: Sys, a: Action, u: Turn)
    requires Reachable(digest, s) && u in s.rows && !a.Restart?
    requires a.CancelTurn? ==> a.uid != s.rows[u].uid
    requires HasActor(a) && a.t in s.attempts ==> s.attempts[a.t].job.uid != s.rows[u].uid
    ensures u in Step(digest, s, a).rows && Step(digest, s, a).rows[u] == s.rows[u]
  {
    hide Next, Recoverable, JobOk, L.Inv, Linked, FlightsOk, StreamingOk, LostOk;
    ReachableInv(digest, s);
    if HasActor(a) && !a.Lock? && a.t in s.attempts {
      var job, pc := s.attempts[a.t].job, s.attempts[a.t].pc;
      var m := Next(digest, s, job, pc, a);
      if m.Some? && m.value.effect.Store? {
        ForeignMoveKeepsRow(digest, s, job, pc, a, m.value, u);
      }
    }
  }

  /** A terminal write never misses: it leaves a canceled row exactly so, and otherwise
      stores completed for a finished Chat, and interrupted with the reason for any other. */
  lemma LateFinalizeSucceeds(digest: Request -> string, s: Sys, t: Tid)
    requires Reachable(digest, s) && PcOf(s.attempts, t).Finalizing?
    ensures var pc := PcOf(s.attempts, t);
            var u, rows := pc.intent.turn, Step(digest, s, FinalizeRow(t, true)).rows;
            && u in s.rows && u in rows
            && if s.rows[u].state == Canceled then rows == s.rows
               else match pc.outcome
                 case Finished => rows[u].state == Completed && rows[u].kind == NoError
                 case ThreadBusy => rows[u].state == Interrupted && rows[u].kind == TurnInProgress
                 case Failed(kind) => rows[u].state == Interrupted && rows[u].kind == kind
  {
    hide L.Inv, Recoverable;
    ReachableInv(digest, s);
    KindsAreOk(Settled(PcOf(s.attempts, t).outcome).1);
  }

  // ------------------------------------------------------ cancel is authoritative

  function CallsTo(calls: seq<Call>, u: Turn): nat {
    if calls == [] then 0
    else CallsTo(calls[..|calls| - 1], u) + if calls[|calls| - 1].turn == u then 1 else 0
  }

  ghost predicate AboutToCall(attempts: Attempts, t: Tid, u: Turn) {
    PcOf(attempts, t).Entered? && PcOf(attempts, t).intent.turn == u
  }

  ghost predicate CallPending(attempts: Attempts, u: Turn) { exists t :: AboutToCall(attempts, t, u) }

  /** Chat calls of a turn made so far or already past the point of no return. */
  ghost function Committed(s: Sys, u: Turn): nat {
    CallsTo(s.calls, u) + if CallPending(s.attempts, u) then 1 else 0
  }

  lemma MoveCommitsNothing(digest: Request -> string, s: Sys, k: Tid, m: Move, u: Turn)
    requires L.Inv(s.locks) && Linked(s.locks, s.attempts) && Copies(s.attempts, s.rows) && Moves(digest, s, k, m)
    requires u in s.rows && s.rows[u].state == Canceled
    ensures Committed(Apply(s, k, m), u) <= Committed(s, u)
  {
    hide L.Inv, Linked, Recoverable;
    var s' := Apply(s, k, m);
    if CallPending(s'.attempts, u) {
      var t :| AboutToCall(s'.attempts, t, u);
      assert AboutToCall(s.attempts, t, u);
      if m.effect.Calls? && m.effect.call.turn == u {
        OneInside(s, t, k);
      }
    }
    if m.effect.Calls? {
      assert s'.calls[..|s'.calls| - 1] == s.calls;
      assert m.effect.call.turn == u ==> AboutToCall(s.attempts, k, u);
    }
  }

  lemma LockCommitsNothing(s: Sys, k: Tid, a: L.Action, u: Turn)
    requires k in s.attempts
    ensures Committed(LockStep(s, k, a), u) <= Committed(s, u)
  {
    hide L.Step;
    var s' := LockStep(s, k, a);
    if CallPending(s'.attempts, u) {
      var t :| AboutToCall(s'.attempts, t, u);
      assert AboutToCall(s.attempts, t, u);
    }
  }

  lemma BeginCommitsNothing(s: Sys, k: Tid, job: Job, u: Turn)
    ensures Committed(Begin(s, k, job), u) <= Committed(s, u)
  {
    var s' := Begin(s, k, job);
    if CallPending(s'.attempts, u) {
      var t :| AboutToCall(s'.attempts, t, u);
      assert AboutToCall(s.attempts, t, u);
    }
  }

  lemma StepCommitsNothing(digest: Request -> string, s: Sys, a: Action, u: Turn)
    requires Inv(digest, s) && (forall r :: |digest(r)| == 64) && u in s.rows && s.rows[u].state == Canceled
    ensures Committed(Step(digest, s, a), u) <= Committed(s, u)
  {
    hide L.Inv, Linked, Copies, JobsOk, RowsOk, FlightsOk, StreamingOk, LostOk, CallsOk, Moves, Begin, LockStep, Apply, CallsTo;
    match a
    case BeginChat(t, uid, cloud, turn, body) =>
      BeginCommitsNothing(s, t, Job(uid, if cloud then s.epoch else 0, turn, Admit(turn, body)), u);
    case BeginReplay(t, uid, cloud, turn) =>
      BeginCommitsNothing(s, t, Job(uid, if cloud then s.epoch else 0, turn, None), u);
    case CancelTurn(_, _, _) =>
    case ReplaceSession =>
    case Restart =>
    case Lock(t, lock) =>
      if t in s.attempts {
        LockCommitsNothing(s, t, lock, u);
      }
    case _ =>
      if a.t in s.attempts {
        var m := Next(digest, s, s.attempts[a.t].job, s.attempts[a.t].pc, a);
        if m.Some? {
          NextMoves(digest, s, a, m.value);
          MoveCommitsNothing(digest, s, a.t, m.value, u);
        }
      }
  }

  lemma {:induction false} CanceledRun(digest: Request -> string, s: Sys, actions: seq<Action>, u: Turn)
    requires Inv(digest, s) && (forall r :: |digest(r)| == 64) && u in s.rows && s.rows[u].state == Canceled
    ensures Committed(Run(digest, s, actions), u) <= Committed(s, u)
    decreases |actions|
  {
    if actions != [] {
      StepKeepsInv(digest, s, actions[0]);
      TableGrows(digest, s, actions[0]);
      StepCommitsNothing(digest, s, actions[0], u);
      CanceledRun(digest, Step(digest, s, actions[0]), actions[1..], u);
    }
  }

  /** Once a turn is canceled its row never changes again, and Chat is called for it again
      only by an attempt that had entered 'streaming' before the cancel, at most once. */
  lemma CancelIsAuthoritative(digest: Request -> string, s: Sys, actions: seq<Action>, u: Turn)
    requires Reachable(digest, s) && u in s.rows && s.rows[u].state == Canceled
    ensures var s' := Run(digest, s, actions);
            && u in s'.rows && s'.rows[u] == s.rows[u]
            && CallsTo(s'.calls, u) <= CallsTo(s.calls, u) + if CallPending(s.attempts, u) then 1 else 0
  {
    ReachableInv(digest, s);
    RowsAreFrozen(digest, s, actions);
    CanceledRun(digest, s, actions, u);
  }

  /** From the moment its owner cancels a turn that has not completed, the turn is canceled
      in every continuation, with the same bound on further Chat calls. */
  lemma CanceledForGood(digest: Request -> string, s: Sys, lease: nat, actions: seq<Action>, u: Turn)
    requires Reachable(digest, s) && u in s.rows && s.rows[u].state != Completed && s.Current(lease)
    ensures var s' := Run(digest, Step(digest, s, CancelTurn(s.rows[u].uid, lease, u)), actions);
            && u in s'.rows && s'.rows[u].state == Canceled
            && CallsTo(s'.calls, u) <= CallsTo(s.calls, u) + if CallPending(s.attempts, u) then 1 else 0
  {
    hide L.Inv, Recoverable;
    ReachableInv(digest, s);
    var a := CancelTurn(s.rows[u].uid, lease, u);
    StepKeepsInv(digest, s, a);
    RowsAreFrozen(digest, Step(digest, s, a), actions);
    CanceledRun(digest, Step(digest, s, a), actions, u);
  }

  /** Every row, in every reachable state, passes the recovery validator. */
  lemma RowsStayRecoverable(digest: Request -> string, s: Sys, u: Turn)
    requires Reachable(digest, s) && u in s.rows
    ensures Recoverable(digest, u, s.rows[u])
  {
    ReachableInv(digest, s);
  }
}
