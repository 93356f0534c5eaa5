/**
 Single-flight acquisition of the embedding assets: a presence probe, then under one
 mutex either "come back later", a remembered failure, or one new background download.
 The probe, the plan and the download are arbitrary outcomes; the clock is read under the
 mutex and does not go backwards.
 */
module KnowledgeAcquisition {
  import opened Wrappers

  /** Nanoseconds: a failure is remembered for ten minutes. */
  const RETRY := 10 * 60 * 1_000_000_000

  datatype Error = PlanFailed | DownloadFailed

  datatype State = State(fetching: bool, lastErr: Option<Error>, retryAt: nat)

  datatype Answer = Ready | Fetching | Failed(error: Error)

  /** What a call did that costs something, or recorded as a failure. */
  datatype Mark = Planned(at: nat) | Started(at: nat) | Failure(at: nat, error: Error)

  datatype Outcome = Outcome(answer: Answer, state: State, marks: seq<Mark>)

  /** ensure(): `later` is the second clock reading, taken after a failed plan. */
  function Ensure(s: State, present: bool, plan: bool, now: nat, later: nat): Outcome {
    if present then Outcome(Ready, s, [])
    else if s.fetching then Outcome(Fetching, s, [])
    else if s.lastErr.Some? && now < s.retryAt then Outcome(Failed(s.lastErr.value), s, [])
    else if !plan then
      Outcome(Failed(PlanFailed), s.(lastErr := Some(PlanFailed), retryAt := later + RETRY), [Planned(now), Failure(later, PlanFailed)])
    else Outcome(Fetching, s.(fetching := true, lastErr := None), [Planned(now), Started(now)])
  }

  /** The locked tail of download(). */
  function Finish(s: State, ok: bool, now: nat): (State, seq<Mark>) {
    if ok then (State(false, None, 0), [])
    else (State(false, Some(DownloadFailed), now + RETRY), [Failure(now, DownloadFailed)])
  }

  class KnowledgeAssets {
    var fetching: bool
    var lastErr: Option<Error>
    var retryAt: nat
    ghost var marks: seq<Mark>

    function Contents(): State
      reads this
    {
      State(fetching, lastErr, retryAt)
    }

    constructor ()
      ensures Contents() == State(false, None, 0) && marks == []
    {
      fetching, lastErr, retryAt, marks := false, None, 0, [];
    }

    /** `spawn` says that the caller's goroutine starts a download. */
    method EnsureAssets(present: bool, plan: bool, now: nat, later: nat) returns (answer: Answer, spawn: bool)
      modifies this
      ensures var o := Ensure(old(Contents()), present, plan, now, later);
              answer == o.answer && Contents() == o.state && marks == old(marks) + o.marks
      ensures spawn <==> fetching && !old(fetching)
    {
      spawn := false;
      if present {
        return Ready, false;
      }
      if fetching {
        return Fetching, false;
      }
      if lastErr.Some? && now < retryAt {
        return Failed(lastErr.value), false;
      }
      if !plan {
        lastErr, retryAt := Some(PlanFailed), later + RETRY;
        marks := marks + [Planned(now), Failure(later, PlanFailed)];
        return Failed(PlanFailed), false;
      }
      fetching, lastErr := true, None;
      marks := marks + [Planned(now), Started(now)];
      return Fetching, true;
    }

    method DownloadEnds(ok: bool, now: nat)
      modifies this
      ensures Contents() == Finish(old(Contents()), ok, now).0
      ensures marks == old(marks) + Finish(old(Contents()), ok, now).1
    {
      fetching := false;
      if !ok {
        lastErr, retryAt := Some(DownloadFailed), now + RETRY;
        marks := marks + [Failure(now, DownloadFailed)];
        return;
      }
      lastErr, retryAt := None, 0;
    }
  }

  // ------------------------------------------------------------------ histories

  datatype Event =
    | Call(present: bool, plan: bool, now: nat, later: nat)
    | Ends(ok: bool, now: nat)

  /** `downloads` counts the background downloads that have not ended. */
  datatype World = World(state: State, downloads: nat, marks: seq<Mark>)

  const FRESH := World(State(false, None, 0), 0, [])

  /** Only a running download can end. */
  function Step(w: World, e: Event): World {
    match e
    case Call(present, plan, now, later) =>
      var o := Ensure(w.state, present, plan, now, later);
      World(o.state, w.downloads + (if o.state.fetching && !w.state.fetching then 1 else 0), w.marks + o.marks)
    case Ends(ok, now) =>
      if w.downloads == 0 then w
      else World(Finish(w.state, ok, now).0, w.downloads - 1, w.marks + Finish(w.state, ok, now).1)
  }

  function Run(w: World, trace: seq<Event>): World
    decreases |trace|
  {
    if trace == [] then w else Run(Step(w, trace[0]), trace[1..])
  }

  function Clock(e: Event): nat { if e.Call? then e.later else e.now }

  ghost predicate Ordered(trace: seq<Event>, from: nat) {
    trace != [] ==> from <= trace[0].now <= Clock(trace[0]) && Ordered(trace[1..], Clock(trace[0]))
  }

  /** A recorded failure is either still remembered, with nothing running, or over. */
  ghost predicate Remembered(s: State, at: nat, now: nat) {
    (s.lastErr.Some? && !s.fetching && at + RETRY <= s.retryAt) || at + RETRY <= now
  }

  ghost predicate Spaced(marks: seq<Mark>) {
    forall i, j :: 0 <= i < j < |marks| && marks[i].Failure? && !marks[j].Failure? ==> marks[j].at >= marks[i].at + RETRY
  }

  ghost predicate Inv(w: World, now: nat) {
    && w.downloads == (if w.state.fetching then 1 else 0)
    && (forall i :: 0 <= i < |w.marks| && w.marks[i].Failure? ==> Remembered(w.state, w.marks[i].at, now))
    && Spaced(w.marks)
  }

  lemma StepKeepsInv(w: World, e: Event, now: nat)
    requires Inv(w, now) && now <= e.now <= Clock(e)
    ensures Inv(Step(w, e), Clock(e))
  {
    var w' := Step(w, e);
    assert forall i :: 0 <= i < |w.marks| ==> w'.marks[i] == w.marks[i];
  }

  lemma {:induction false} RunKeepsInv(w: World, trace: seq<Event>, now: nat)
    requires Inv(w, now) && Ordered(trace, now)
    ensures Inv(Run(w, trace), Ended(trace, now))
    decreases |trace|
  {
    if trace != [] {
      StepKeepsInv(w, trace[0], now);
      RunKeepsInv(Step(w, trace[0]), trace[1..], Clock(trace[0]));
    }
  }

  /** Over every history: a download is outstanding exactly when `fetching` is set, never
      more than one, and after a recorded failure neither a plan nor a download starts for
      ten minutes. */
  lemma SingleFlightWithBackoff(trace: seq<Event>)
    requires Ordered(trace, 0)
    ensures var w := Run(FRESH, trace);
            && w.downloads == (if w.state.fetching then 1 else 0)
            && forall i, j :: 0 <= i < j < |w.marks| && w.marks[i].Failure? && (w.marks[j].Planned? || w.marks[j].Started?) ==>
                 w.marks[j].at >= w.marks[i].at + RETRY
  {
    RunKeepsInv(FRESH, trace, 0);
  }

  /** The last thing that happened is a failure. */
  predicate JustFailed(marks: seq<Mark>) { marks != [] && marks[|marks| - 1].Failure? }

  /** A remembered error is that of the last failure, which nothing has followed. */
  ghost predicate Grounded(w: World) {
    w.state.lastErr.Some? ==>
      && JustFailed(w.marks)
      && w.state.lastErr.value == w.marks[|w.marks| - 1].error && w.state.retryAt == w.marks[|w.marks| - 1].at + RETRY
  }

  lemma StepKeepsGrounded(w: World, e: Event)
    requires Grounded(w)
    ensures Grounded(Step(w, e))
  {
  }

  lemma {:induction false} RunKeepsGrounded(w: World, trace: seq<Event>)
    requires Grounded(w)
    ensures Grounded(Run(w, trace))
    decreases |trace|
  {
    if trace != [] {
      StepKeepsGrounded(w, trace[0]);
      RunKeepsGrounded(Step(w, trace[0]), trace[1..]);
    }
  }

  /** When the last event of a history was over. */
  function Ended(trace: seq<Event>, from: nat): nat { if trace == [] then from else Ended(trace[1..], Clock(trace[0])) }

  /** After every history: ensure succeeds exactly when the probe does, and plans a download
      if and only if the assets are absent, no download is outstanding and no failure was
      recorded in the last ten minutes. */
  lemma PlansExactly(trace: seq<Event>, present: bool, plan: bool, now: nat, later: nat)
    requires Ordered(trace, 0) && Ended(trace, 0) <= now
    ensures var w := Run(FRESH, trace);
            var o := Ensure(w.state, present, plan, now, later);
            && (o.answer == Ready <==> present)
            && (o.marks != [] <==>
                  !present && w.downloads == 0 &&
                  forall i :: 0 <= i < |w.marks| && w.marks[i].Failure? ==> w.marks[i].at + RETRY <= now)
  {
    var w := Run(FRESH, trace);
    RunKeepsInv(FRESH, trace, 0);
    RunKeepsGrounded(FRESH, trace);
    assert forall i :: 0 <= i < |w.marks| && w.marks[i].Failure? ==> Remembered(w.state, w.marks[i].at, now);
  }

  /** After every history: with the assets absent, ensure says that a download is under way if
      one is outstanding; else it repeats the last failure's error if nothing followed it and it
      is younger than ten minutes; else the plan decides. */
  lemma AnsweredExactly(trace: seq<Event>, plan: bool, now: nat, later: nat)
    requires Ordered(trace, 0) && Ended(trace, 0) <= now
    ensures var w := Run(FRESH, trace);
            var last := if JustFailed(w.marks) then w.marks[|w.marks| - 1] else Failure(0, PlanFailed);
            Ensure(w.state, false, plan, now, later).answer ==
              if w.downloads > 0 then Fetching
              else if JustFailed(w.marks) && now < last.at + RETRY then Failed(last.error)
              else if plan then Fetching
              else Failed(PlanFailed)
  {
    var w := Run(FRESH, trace);
    RunKeepsInv(FRESH, trace, 0);
    RunKeepsGrounded(FRESH, trace);
    if JustFailed(w.marks) {
      assert Remembered(w.state, w.marks[|w.marks| - 1].at, Ended(trace, 0));
    }
  }
}
