/**
 The durable intent row of an agent turn: what the chat handler admits, what the
 recovery validator demands, and every SQL statement or transaction that touches the
 row, as functions of the table. SHA-256 over the request is the parameter `digest`.
 */
module TurnIntents {
  import opened Wrappers
  import TurnLocks

  type Turn = TurnLocks.Turn

  datatype Request = Request(thread: string, text: string, mode: string)

  datatype TurnState = Starting | Streaming | Interrupted | Completed | Canceled

  datatype ErrorKind =
    | NoError | ThreadNotReady | IntentInvalid | SessionChanged | RequestCanceled
    | StreamInterrupted | TurnInProgress | SidecarRestarted

  datatype Row = Row(uid: nat, req: Request, digest: string, state: TurnState, kind: ErrorKind)

  type Table = map<Turn, Row>

  // -------------------------------------------------------------- text checks

  function Utf8Size(c: char): nat {
    if c as int < 0x80 then 1 else if c as int < 0x800 then 2 else if c as int < 0x10000 then 3 else 4
  }

  function Bytes(s: string): nat { if s == "" then 0 else Utf8Size(s[0]) + Bytes(s[1..]) }

  predicate IsControl(c: char) { c as int < 0x20 || c as int == 0x7f }

  predicate ContainsControl(s: string) { exists i :: 0 <= i < |s| && IsControl(s[i]) }

  predicate IsSpace(c: char) {
    var x := c as int;
    0x09 <= x <= 0x0d || x == 0x20 || x == 0x85 || x == 0xa0 || x == 0x1680 || 0x2000 <= x <= 0x200a ||
    x == 0x2028 || x == 0x2029 || x == 0x202f || x == 0x205f || x == 0x3000
  }

  /** strings.TrimSpace leaves the value as it is. */
  predicate Trimmed(s: string) { s != "" ==> !IsSpace(s[0]) && !IsSpace(s[|s| - 1]) }

  predicate AllSpace(s: string) { forall i :: 0 <= i < |s| ==> IsSpace(s[i]) }

  predicate ContainsAny(s: string, set_: string) { exists i :: 0 <= i < |s| && s[i] in set_ }

  predicate IsHex(c: char) { '0' <= c <= '9' || 'a' <= c <= 'f' }

  /** A canonical RFC 4122 version 4 UUID. */
  predicate TurnOk(u: string) {
    && |u| == 36
    && (forall i :: 0 <= i < 36 ==> if i in {8, 13, 18, 23} then u[i] == '-' else IsHex(u[i]))
    && u[14] == '4' && u[19] in "89ab"
  }

  predicate ThreadOk(s: string) {
    s != "" && Bytes(s) <= 200 && Trimmed(s) && !ContainsControl(s) && !ContainsAny(s, "/?#\\")
  }

  const MAX_USER_TEXT := 256 * 1024

  predicate TextOk(s: string) { !AllSpace(s) && Bytes(s) <= MAX_USER_TEXT && !ContainsAny(s, "\0") }

  const DEFAULT_MODE := "ppt"
  const ALLOWED_MODES := [DEFAULT_MODE]

  function NormalizeMode(mode: string): Option<string> {
    if mode == "" then Some(DEFAULT_MODE) else if mode in ALLOWED_MODES then Some(mode) else None
  }

  const MAX_ERROR_KIND := 128

  function Wire(kind: ErrorKind): string {
    match kind
    case NoError => ""
    case ThreadNotReady => "thread_not_ready"
    case IntentInvalid => "intent_invalid"
    case SessionChanged => "session_changed"
    case RequestCanceled => "request_canceled"
    case StreamInterrupted => "stream_interrupted"
    case TurnInProgress => "turn_in_progress"
    case SidecarRestarted => "sidecar_restarted"
  }

  predicate KindOk(s: string) { Bytes(s) <= MAX_ERROR_KIND && !ContainsControl(s) }

  // ---------------------------------------------------- admission and recovery

  /** What the chat handler freezes for a request body, or None when it refuses it. */
  function Admit(turn: Turn, body: Request): Option<Request> {
    if !TurnOk(turn) || !ThreadOk(body.thread) || !TextOk(body.text) then None
    else match NormalizeMode(body.mode)
      case None => None
      case Some(mode) => Some(body.(mode := mode))
  }

  /** The recovery validator, applied to a row read back from disk. */
  predicate Recoverable(digest: Request -> string, turn: Turn, row: Row) {
    && TurnOk(turn) && ThreadOk(row.req.thread) && TextOk(row.req.text)
    && NormalizeMode(row.req.mode) == Some(row.req.mode)
    && |row.digest| == 64 && digest(row.req) == row.digest
    && KindOk(Wire(row.kind))
  }

  lemma KindsAreAscii(kind: ErrorKind)
    ensures var s := Wire(kind);
            |s| <= MAX_ERROR_KIND && forall i :: 0 <= i < |s| ==> 0x20 <= s[i] as int < 0x7f
  {
  }

  /** Every error kind the sidecar writes passes the validator's bounds. */
  lemma KindsAreOk(kind: ErrorKind)
    ensures KindOk(Wire(kind))
  {
    KindsAreAscii(kind);
    AsciiBytes(Wire(kind));
  }

  lemma {:induction false} AsciiBytes(s: string)
    requires forall i :: 0 <= i < |s| ==> 0x20 <= s[i] as int < 0x7f
    ensures Bytes(s) == |s| && !ContainsControl(s)
    decreases |s|
  {
    if s != "" {
      AsciiBytes(s[1..]);
    }
  }

  /** A freshly admitted request makes a recoverable row, whatever kind is written later. */
  lemma AdmittedIsRecoverable(digest: Request -> string, turn: Turn, body: Request, row: Row)
    requires Admit(turn, body).Some? && row.req == Admit(turn, body).value
    requires row.digest == digest(row.req) && |digest(row.req)| == 64
    ensures Recoverable(digest, turn, row)
  {
    KindsAreOk(row.kind);
  }

  lemma SampleTurnIsOk()
    ensures TurnOk("00000000-0000-4000-8000-000000000000")
  {
  }

  lemma OneLetterIsOk(s: string)
    requires |s| == 1 && 'a' <= s[0] <= 'z'
    ensures ThreadOk(s) && TextOk(s)
  {
    AsciiBytes(s);
  }

  /** A request without a mode is admitted, as one with the default mode. */
  lemma DefaultModeIsAdmitted()
    ensures Admit("00000000-0000-4000-8000-000000000000", Request("t", "h", "")) == Some(Request("t", "h", DEFAULT_MODE))
  {
    hide TurnOk, ThreadOk, TextOk;
    SampleTurnIsOk();
    OneLetterIsOk("t");
    OneLetterIsOk("h");
  }

  /** Admission is exactly recovery: a body is admitted if and only if it has a mode that can
      be frozen and the row frozen for it passes the recovery validator. */
  lemma AdmittedExactly(digest: Request -> string, turn: Turn, body: Request, req: Request, uid: nat)
    requires forall r :: |digest(r)| == 64
    ensures Admit(turn, body) == Some(req) <==>
      && req.thread == body.thread && req.text == body.text
      && req.mode == (if body.mode == "" then DEFAULT_MODE else body.mode)
      && Recoverable(digest, turn, Row(uid, req, digest(req), Starting, NoError))
  {
    KindsAreOk(NoError);
    hide TurnOk, ThreadOk, TextOk, KindOk;
  }

  lemma {:induction false} LettersAsBytes(s: string)
    requires forall i :: 0 <= i < |s| ==> 'a' <= s[i] <= 'z'
    ensures Bytes(s) == |s| && !ContainsControl(s) && Trimmed(s) && !ContainsAny(s, "/?#\\") && !ContainsAny(s, "\0")
    ensures AllSpace(s) <==> s == ""
    decreases |s|
  {
    if s != "" {
      LettersAsBytes(s[1..]);
      assert !IsSpace(s[0]);
    }
  }

  /** The bounds, on plain letters: a thread id of up to 200 bytes, a text of up to 256 KiB. */
  lemma LengthsAreBounded(s: string)
    requires forall i :: 0 <= i < |s| ==> 'a' <= s[i] <= 'z'
    ensures ThreadOk(s) <==> 1 <= |s| <= 200
    ensures TextOk(s) <==> 1 <= |s| <= 262144
  {
    LettersAsBytes(s);
  }

  // ----------------------------------------------------------- SQL transitions

  /** `b` is a later version of `a`: owner and request are frozen, canceled is final. */
  ghost predicate Follows(a: Row, b: Row) {
    b.uid == a.uid && b.req == a.req && b.digest == a.digest && (a.state == Canceled ==> b == a)
  }

  /** No row is dropped, loses its owner or request, or comes back from canceled. */
  ghost predicate Grows(a: Table, b: Table) { forall u :: u in a ==> u in b && Follows(a[u], b[u]) }

  /** UPDATE … WHERE uid = ? AND turn_uuid = ? AND state <> 'canceled'. */
  function Write(rows: Table, uid: nat, turn: Turn, state: TurnState, kind: ErrorKind): (after: Table)
    ensures Grows(rows, after) && after.Keys == rows.Keys
    ensures forall u :: u in rows && (u != turn || rows[u].uid != uid) ==> after[u] == rows[u]
    ensures Writable(rows, uid, turn) ==> after[turn].state == state && after[turn].kind == kind
  {
    if Writable(rows, uid, turn) then rows[turn := rows[turn].(state := state, kind := kind)] else rows
  }

  predicate Writable(rows: Table, uid: nat, turn: Turn) {
    turn in rows && rows[turn].uid == uid && rows[turn].state != Canceled
  }

  datatype Ensured =
    | Frozen(created: bool) | OwnerConflict | IdempotencyConflict | AlreadyCanceled | ThreadMissing | StoreUnavailable

  function Replayable(row: Row, uid: nat, req: Request, digest: string): Ensured {
    if row.uid != uid then OwnerConflict
    else if row.req != req || row.digest != digest then IdempotencyConflict
    else if row.state == Canceled then AlreadyCanceled
    else Frozen(false)
  }

  /** The insert-or-validate transaction; `ownsThread` is what the thread lookup finds. */
  function Ensure(rows: Table, uid: nat, turn: Turn, req: Request, digest: string, ownsThread: bool): (r: (Ensured, Table))
    ensures Grows(rows, r.1)
    ensures r.0.Frozen? ==> turn in r.1 && r.1[turn].uid == uid && r.1[turn].req == req && r.1[turn].state != Canceled
    ensures r.0.Frozen? && r.0.created <==> turn !in rows && turn in r.1
    ensures r.0.Frozen? <==>
      && uid != 0 && ownsThread
      && (turn in rows ==> rows[turn].uid == uid && rows[turn].req == req && rows[turn].digest == digest && rows[turn].state != Canceled)
    ensures r.0.OwnerConflict? <==> uid != 0 && turn in rows && rows[turn].uid != uid
    ensures r.0.IdempotencyConflict? <==>
      uid != 0 && turn in rows && rows[turn].uid == uid && (rows[turn].req != req || rows[turn].digest != digest)
    ensures r.0.AlreadyCanceled? <==>
      && uid != 0 && turn in rows && rows[turn].uid == uid
      && rows[turn].req == req && rows[turn].digest == digest && rows[turn].state == Canceled
    ensures r.0.StoreUnavailable? <==> uid == 0
    ensures !(r.0.Frozen? && r.0.created) ==> r.1 == rows
    ensures r.0.Frozen? && r.0.created ==> r.1 - {turn} == rows && r.1[turn].state == Starting && r.1[turn].digest == digest
  {
    if uid == 0 then (StoreUnavailable, rows)
    else if turn in rows then
      var r := Replayable(rows[turn], uid, req, digest);
      (if r.Frozen? && !ownsThread then ThreadMissing else r, rows)
    else if !ownsThread then (ThreadMissing, rows)
    else (Frozen(true), rows[turn := Row(uid, req, digest, Starting, NoError)])
  }

  datatype Finalized = Stored | KeptCanceled | OwnershipChanged | InvalidOutcome

  /** The terminal write, with the check that explains a missed row. */
  function Finalize(rows: Table, uid: nat, turn: Turn, state: TurnState, kind: ErrorKind): (r: (Finalized, Table))
    ensures Grows(rows, r.1)
    ensures r.0.Stored? <==>
      uid != 0 && state in {Completed, Interrupted} && TurnOk(turn) && KindOk(Wire(kind)) && Writable(rows, uid, turn)
    ensures r.0.Stored? ==> r.1.Keys == rows.Keys && r.1[turn].state == state && r.1[turn].kind == kind
    ensures r.0.Stored? ==> forall u :: u in rows && u != turn ==> r.1[u] == rows[u]
    ensures !r.0.Stored? ==> r.1 == rows
    ensures r.0.OwnershipChanged? ==> turn !in rows || rows[turn].uid != uid
  {
    if uid == 0 || !(state == Completed || state == Interrupted) || !TurnOk(turn) || !KindOk(Wire(kind)) then
      (InvalidOutcome, rows)
    else if Writable(rows, uid, turn) then (Stored, Write(rows, uid, turn, state, kind))
    else if turn in rows && rows[turn].uid == uid && rows[turn].state == Canceled then (KeptCanceled, rows)
    else (OwnershipChanged, rows)
  }

  /** An owned turn that has not completed is canceled; everything else stays. */
  function Cancel(rows: Table, uid: nat, turn: Turn): (after: Table)
    ensures Grows(rows, after) && after.Keys == rows.Keys
    ensures forall u :: u in rows && u != turn ==> after[u] == rows[u]
    ensures turn in rows ==>
      if rows[turn].uid == uid && rows[turn].state != Completed then after[turn].state == TurnState.Canceled
      else after[turn] == rows[turn]
    ensures turn in rows && after[turn] != rows[turn] ==> after[turn].kind == NoError
  {
    if turn in rows && rows[turn].uid == uid && rows[turn].state != Canceled && rows[turn].state != Completed then
      rows[turn := rows[turn].(state := TurnState.Canceled, kind := NoError)]
    else rows
  }

  /** The boot-time sweep of rows a dead process left behind. */
  function Cleanup(rows: Table): (after: Table)
    ensures Grows(rows, after) && after.Keys == rows.Keys
    ensures forall u :: u in after ==> after[u].state != Starting && after[u].state != Streaming
    ensures forall u :: u in rows && (rows[u].state == Completed || rows[u].state == TurnState.Canceled) ==> after[u] == rows[u]
    ensures forall u :: u in rows && after[u] != rows[u] ==> after[u].state == Interrupted && after[u].kind == SidecarRestarted
  {
    map u | u in rows ::
      if rows[u].state == Starting || rows[u].state == Streaming then
        rows[u].(state := Interrupted, kind := SidecarRestarted)
      else rows[u]
  }
}
