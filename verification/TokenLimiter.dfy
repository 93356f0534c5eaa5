/**
 The token-bucket limiter: one bucket per key, opportunistic eviction of idle buckets
 and a hard capacity. Times and tokens are reals (the source keeps float64 seconds) and
 requests reach the lock in clock order.
 */
module TokenLimiting {
  type Key = string

  datatype Visitor = Visitor(tokens: real, lastSeen: real)

  type Visitors = map<Key, Visitor>

  const CLEANUP_TICK := 300.0

  /** `size` is maxRequests. */
  datatype Settings = Settings(size: nat, window: real, maxBuckets: nat) {
    predicate Ok() { size > 0 && window > 0.0 && maxBuckets > 0 }
    function Rate(): real
      requires Ok()
    {
      size as real / window
    }
    /** Retry-After: the seconds one token takes to refill, at least one. */
    function RetryAfter(): int
      requires Ok()
    {
      var s := -((-(window / size as real)).Floor);
      if s < 1 then 1 else s
    }
  }

  /** The constructor panics on anything else. */
  type Config = c: Settings | c.Ok() witness Settings(1, 1.0, 1)

  datatype State = State(visitors: Visitors, lastCleanup: real)

  datatype Decision = Unmetered | Admit | Empty | Full

  datatype Request = Request(key: Key, now: real)

  function Min(a: real, b: real): real { if a < b then a else b }

  /** The tokens that flow into a bucket in some seconds. */
  function Inflow(c: Config, elapsed: real): real
  {
    elapsed * c.Rate()
  }

  /** The tokens a bucket has at a later time. */
  function Level(c: Config, v: Visitor, now: real): real
  {
    Min(c.size as real, v.tokens + Inflow(c, now - v.lastSeen))
  }

  predicate Idle(c: Config, v: Visitor, now: real) { now - v.lastSeen > 2.0 * c.window }

  function Evicted(c: Config, m: Visitors, now: real): Visitors { map k | k in m && !Idle(c, m[k], now) :: m[k] }

  function Cleaned(c: Config, s: State, now: real): State {
    if now - s.lastCleanup >= CLEANUP_TICK then State(Evicted(c, s.visitors, now), now) else s
  }

  /** Refill and spend one bucket; a key that has none starts full. */
  function Charge(c: Config, m: Visitors, r: Request): (Decision, Visitors)
  {
    var level := Level(c, if r.key in m then m[r.key] else Visitor(c.size as real, r.now), r.now);
    if level < 1.0 then (Empty, m[r.key := Visitor(level, r.now)])
    else (Admit, m[r.key := Visitor(level - 1.0, r.now)])
  }

  function Step(c: Config, s: State, r: Request): (Decision, State)
  {
    if r.key == "" then (Unmetered, s)
    else
      var t := Cleaned(c, s, r.now);
      if r.key !in t.visitors && |t.visitors| >= c.maxBuckets then (Full, t)
      else
        var (d, m) := Charge(c, t.visitors, r);
        (d, t.(visitors := m))
  }

  // --------------------------------------------------------------- the limiter

  class Limiter {
    const config: Config
    var visitors: Visitors
    var lastCleanup: real

    function Contents(): State
      reads this
    {
      State(visitors, lastCleanup)
    }

    constructor (config: Config, now: real)
      ensures this.config == config && Contents() == State(map[], now)
    {
      this.config := config;
      visitors, lastCleanup := map[], now;
    }

    /** The cleanup loop over all buckets, in any order. */
    method Evict(now: real)
      modifies this`visitors
      ensures visitors == Evicted(config, old(visitors), now)
    {
      var todo := visitors.Keys;
      while todo != {}
        invariant todo <= visitors.Keys <= old(visitors).Keys
        invariant forall k :: k in visitors ==> visitors[k] == old(visitors)[k]
        invariant forall k :: k in old(visitors) ==>
                    (k in visitors <==> k in todo || !Idle(config, old(visitors)[k], now))
        decreases todo
      {
        var candidate :| candidate in todo;
        todo := todo - {candidate};
        if Idle(config, visitors[candidate], now) {
          visitors := visitors - {candidate};
        }
      }
    }

    method Handle(rawKey: Key, now: real) returns (d: Decision)
      modifies this
      ensures (d, Contents()) == Step(config, old(Contents()), Request(rawKey, now))
    {
      if rawKey == "" {
        return Unmetered;
      }
      if now - lastCleanup >= CLEANUP_TICK {
        Evict(now);
        lastCleanup := now;
      }
      assert Contents() == Cleaned(config, old(Contents()), now);
      var v: Visitor;
      if rawKey in visitors {
        v := visitors[rawKey];
      } else {
        if |visitors| >= config.maxBuckets {
          return Full;
        }
        v := Visitor(config.size as real, now);
      }
      var tokens := v.tokens + Inflow(config, now - v.lastSeen);
      if tokens > config.size as real {
        tokens := config.size as real;
      }
      assert tokens == Level(config, v, now);
      if tokens < 1.0 {
        visitors := visitors[rawKey := Visitor(tokens, now)];
        return Empty;
      }
      visitors := visitors[rawKey := Visitor(tokens - 1.0, now)];
      return Admit;
    }
  }

  // ------------------------------------------------------------------ invariant

  ghost predicate Sane(c: Config, m: Visitors, now: real) {
    forall k :: k in m ==> 0.0 <= m[k].tokens <= c.size as real && m[k].lastSeen <= now
  }

  ghost predicate Inv(c: Config, s: State, now: real) { Sane(c, s.visitors, now) && |s.visitors| <= c.maxBuckets }

  /** Requests in clock order, none before `from`. */
  ghost predicate Ordered(trace: seq<Request>, from: real) {
    trace != [] ==> from <= trace[0].now && Ordered(trace[1..], trace[0].now)
  }

  lemma Covers(elapsed: real, w: real, n: real)
    requires w > 0.0 && n > 0.0 && elapsed >= w
    ensures elapsed * (n / w) >= n
  {
    var r := n / w;
    assert w * r == n;
    Product(elapsed - w, r);
    assert elapsed * r == (elapsed - w) * r + w * r;
  }

  lemma Product(a: real, b: real)
    requires a >= 0.0 && b >= 0.0
    ensures a * b >= 0.0
  {
  }

  /** Nothing flows in no time, a window fills a bucket, Retry-After brings one token. */
  lemma InflowBounds(c: Config, elapsed: real)
    requires elapsed >= 0.0
    ensures Inflow(c, elapsed) >= 0.0 && (elapsed == 0.0 ==> Inflow(c, elapsed) == 0.0)
    ensures elapsed >= c.window ==> Inflow(c, elapsed) >= c.size as real
    ensures elapsed >= c.RetryAfter() as real ==> Inflow(c, elapsed) >= 1.0
  {
    var n, w := c.size as real, c.window;
    Product(elapsed, n / w);
    if elapsed >= w {
      Covers(elapsed, w, n);
    }
    if elapsed >= c.RetryAfter() as real {
      OneToken(elapsed, w, n);
    }
  }

  lemma OneToken(elapsed: real, w: real, n: real)
    requires w > 0.0 && n > 0.0 && elapsed >= w / n
    ensures elapsed * (n / w) >= 1.0
  {
    Covers(elapsed * n, w, 1.0) by {
      var x := w / n;
      assert x * n == w;
      Product(elapsed - x, n);
      assert elapsed * n == (elapsed - x) * n + x * n;
    }
    assert (elapsed * n) * (1.0 / w) == elapsed * (n / w);
  }

  lemma InflowAdds(c: Config, a: real, b: real)
    ensures Inflow(c, a) + Inflow(c, b) == Inflow(c, a + b)
  {
  }

  lemma SubmapSize(small: Visitors, big: Visitors)
    requires small.Keys <= big.Keys
    ensures |small| <= |big|
  {
    assert big.Keys == small.Keys + (big.Keys - small.Keys);
  }

  lemma LevelBounds(c: Config, v: Visitor, now: real)
    requires 0.0 <= v.tokens <= c.size as real && v.lastSeen <= now
    ensures 0.0 <= Level(c, v, now) <= c.size as real
    ensures Idle(c, v, now) ==> Level(c, v, now) == c.size as real
    ensures now - v.lastSeen >= c.RetryAfter() as real ==> Level(c, v, now) >= 1.0
    ensures v.lastSeen == now ==> Level(c, v, now) == v.tokens
  {
    hide Inflow, Config.RetryAfter;
    InflowBounds(c, now - v.lastSeen);
  }

  lemma ChargeKeepsSane(c: Config, m: Visitors, r: Request, now: real)
    requires Sane(c, m, now) && now <= r.now
    ensures Sane(c, Charge(c, m, r).1, r.now)
  {
    hide Level;
    LevelBounds(c, if r.key in m then m[r.key] else Visitor(c.size as real, r.now), r.now);
  }

  /** Buckets stay between empty and full, and the map never exceeds its capacity. */
  lemma StepKeepsInv(c: Config, s: State, r: Request, now: real)
    requires Inv(c, s, now) && now <= r.now
    ensures Inv(c, Step(c, s, r).1, r.now)
  {
    hide Level;
    var t := Cleaned(c, s, r.now);
    SubmapSize(t.visitors, s.visitors);
    ChargeKeepsSane(c, t.visitors, r, now);
    var m := Charge(c, t.visitors, r).1;
    assert m.Keys == t.visitors.Keys + {r.key};
  }

  lemma {:induction false} RunKeepsInv(c: Config, s: State, trace: seq<Request>, now: real)
    requires Inv(c, s, now) && Ordered(trace, now)
    ensures Inv(c, Run(c, s, trace), Last(trace, now))
    decreases |trace|
  {
    if trace != [] {
      StepKeepsInv(c, s, trace[0], now);
      RunKeepsInv(c, Step(c, s, trace[0]).1, trace[1..], trace[0].now);
    }
  }

  function Run(c: Config, s: State, trace: seq<Request>): State
    decreases |trace|
  {
    if trace == [] then s else Run(c, Step(c, s, trace[0]).1, trace[1..])
  }

  function Last(trace: seq<Request>, now: real): real { if trace == [] then now else Last(trace[1..], trace[0].now) }

  // ------------------------------------------------------- eviction is invisible

  /** The reference limiter: no eviction, no capacity. */
  function Simple(c: Config, m: Visitors, r: Request): (Decision, Visitors)
  {
    if r.key == "" then (Unmetered, m) else Charge(c, m, r)
  }

  function SimpleAnswers(c: Config, m: Visitors, trace: seq<Request>): seq<Decision>
    decreases |trace|
  {
    if trace == [] then []
    else [Simple(c, m, trace[0]).0] + SimpleAnswers(c, Simple(c, m, trace[0]).1, trace[1..])
  }

  /** The requests of a trace that are not refused for capacity, and their answers. */
  function Served(c: Config, s: State, trace: seq<Request>): (seq<Request>, seq<Decision>)
    decreases |trace|
  {
    if trace == [] then ([], [])
    else
      var (d, t) := Step(c, s, trace[0]);
      var (requests, answers) := Served(c, t, trace[1..]);
      if d.Full? then (requests, answers) else ([trace[0]] + requests, [d] + answers)
  }

  /** The evicting map and the reference agree, except that the reference still has
      buckets that have been idle long enough to be full again. */
  ghost predicate Mirrors(c: Config, m: Visitors, reference: Visitors, now: real) {
    && m.Keys <= reference.Keys
    && forall k :: k in reference ==> if k in m then m[k] == reference[k] else Idle(c, reference[k], now)
  }

  lemma CleanMirrors(c: Config, s: State, reference: Visitors, from: real, now: real)
    requires Mirrors(c, s.visitors, reference, from) && from <= now
    ensures Mirrors(c, Cleaned(c, s, now).visitors, reference, now)
  {
  }

  lemma ChargeMirrors(c: Config, m: Visitors, reference: Visitors, r: Request)
    requires Sane(c, reference, r.now) && Mirrors(c, m, reference, r.now)
    ensures Charge(c, m, r).0 == Charge(c, reference, r).0
    ensures Mirrors(c, Charge(c, m, r).1, Charge(c, reference, r).1, r.now)
  {
    hide Level;
    var fresh_ := Visitor(c.size as real, r.now);
    LevelBounds(c, fresh_, r.now);
    if r.key in reference {
      LevelBounds(c, reference[r.key], r.now);
    }
  }

  lemma {:induction false} ServedAlike(c: Config, s: State, reference: Visitors, trace: seq<Request>, now: real)
    requires Ordered(trace, now) && Sane(c, reference, now) && Mirrors(c, s.visitors, reference, now)
    ensures SimpleAnswers(c, reference, Served(c, s, trace).0) == Served(c, s, trace).1
    decreases |trace|
  {
    if trace != [] {
      var r := trace[0];
      var (d, t) := Step(c, s, r);
      var cleaned := Cleaned(c, s, r.now);
      CleanMirrors(c, s, reference, now, r.now);
      ChargeMirrors(c, cleaned.visitors, reference, r);
      ChargeKeepsSane(c, reference, r, now);
      var (requests, answers) := Served(c, t, trace[1..]);
      if d.Full? {
        ServedAlike(c, t, reference, trace[1..], r.now);
      } else {
        var after := Simple(c, reference, r).1;
        AnswerFirst(c, reference, r, requests);
        ServedAlike(c, t, after, trace[1..], r.now);
      }
    }
  }

  lemma AnswerFirst(c: Config, m: Visitors, r: Request, rest: seq<Request>)
    ensures SimpleAnswers(c, m, [r] + rest) == [Simple(c, m, r).0] + SimpleAnswers(c, Simple(c, m, r).1, rest)
  {
    hide Charge;
    assert ([r] + rest)[1..] == rest;
  }

  /** On every ordered trace the limiter answers like one that never evicts and has no
      capacity, fed the requests that were not refused for capacity. */
  lemma EvictionIsInvisible(c: Config, trace: seq<Request>, start: real)
    requires Ordered(trace, start)
    ensures SimpleAnswers(c, map[], Served(c, State(map[], start), trace).0) == Served(c, State(map[], start), trace).1
  {
    ServedAlike(c, State(map[], start), map[], trace, start);
  }

  /** The map never exceeds its capacity, and every bucket stays between empty and full. */
  lemma CapacityHolds(c: Config, trace: seq<Request>, start: real)
    requires Ordered(trace, start)
    ensures |Run(c, State(map[], start), trace).visitors| <= c.maxBuckets
    ensures Sane(c, Run(c, State(map[], start), trace).visitors, Last(trace, start))
  {
    RunKeepsInv(c, State(map[], start), trace, start);
  }

  // ------------------------------------------------------------- admission bound

  /** How many requests of `key` are admitted with a time in [from, to]. */
  function Admissions(c: Config, s: State, trace: seq<Request>, key: Key, from: real, to: real): nat
    decreases |trace|
  {
    if trace == [] then 0
    else
      var (d, t) := Step(c, s, trace[0]);
      (if d.Admit? && trace[0].key == key && from <= trace[0].now <= to then 1 else 0)
      + Admissions(c, t, trace[1..], key, from, to)
  }

  /** The tokens a key could spend at a given time. */
  function Available(c: Config, m: Visitors, key: Key, now: real): real
  {
    if key in m then Level(c, m[key], now) else c.size as real
  }

  lemma CleaningKeepsAvailable(c: Config, s: State, key: Key, now: real)
    requires Sane(c, s.visitors, now)
    ensures Available(c, Cleaned(c, s, now).visitors, key, now) == Available(c, s.visitors, key, now)
  {
    hide Level;
    if key in s.visitors {
      LevelBounds(c, s.visitors[key], now);
    }
  }

  lemma ChargeSpends(c: Config, m: Visitors, r: Request, key: Key)
    requires Sane(c, m, r.now)
    ensures var (d, after) := Charge(c, m, r);
            Available(c, after, key, r.now) + (if d.Admit? && r.key == key then 1.0 else 0.0) == Available(c, m, key, r.now)
  {
    hide Level;
    var v := if r.key in m then m[r.key] else Visitor(c.size as real, r.now);
    LevelBounds(c, v, r.now);
    var after := Charge(c, m, r).1;
    LevelBounds(c, after[r.key], r.now);
  }

  // ---------------------------------------------------------------- Retry-After

  lemma {:induction false} OthersLeaveBucket(c: Config, s: State, trace: seq<Request>, key: Key, now: real)
    requires Inv(c, s, now) && Ordered(trace, now) && forall i :: 0 <= i < |trace| ==> trace[i].key != key
    ensures var t := Run(c, s, trace);
            Inv(c, t, Last(trace, now)) && (key in t.visitors ==> key in s.visitors && t.visitors[key] == s.visitors[key])
    decreases |trace|
  {
    if trace != [] {
      StepKeepsInv(c, s, trace[0], now);
      OthersExactly(c, s, trace[0], key);
      OthersLeaveBucket(c, Step(c, s, trace[0]).1, trace[1..], key, trace[0].now);
    }
  }

  /** A client that is refused for tokens and then waits the advertised Retry-After is not
      refused for tokens again; it is admitted if its bucket is still there when it
      returns. */
  lemma RetryAfterIsEnough(c: Config, s: State, now: real, r: Request, others: seq<Request>, again: real)
    requires Inv(c, s, now) && now <= r.now && Step(c, s, r).0 == Empty
    requires Ordered(others, r.now) && forall i :: 0 <= i < |others| ==> others[i].key != r.key
    requires again >= r.now + c.RetryAfter() as real && again >= Last(others, r.now)
    ensures var t := Run(c, Step(c, s, r).1, others);
            var d := Step(c, t, Request(r.key, again)).0;
            && (d == Admit || d == Full)
            && (r.key in Cleaned(c, t, again).visitors ==> d == Admit)
  {
    var s' := Step(c, s, r).1;
    StepKeepsInv(c, s, r, now);
    OthersLeaveBucket(c, s', others, r.key, r.now);
    var t := Run(c, s', others);
    hide Level, Run, Inv;
    LevelBounds(c, Visitor(c.size as real, again), again);
    if r.key in Cleaned(c, t, again).visitors {
      BucketAfterRefusal(c, s, r, now);
      LevelBounds(c, t.visitors[r.key], again);
    }
  }

  lemma BucketAfterRefusal(c: Config, s: State, r: Request, now: real)
    requires Inv(c, s, now) && now <= r.now && Step(c, s, r).0 == Empty
    ensures var m := Step(c, s, r).1.visitors;
            r.key in m && m[r.key].lastSeen == r.now && 0.0 <= m[r.key].tokens <= c.size as real
  {
    StepKeepsInv(c, s, r, now);
  }

  // ------------------------------------------------------------------- bursts

  /** The key has a bucket, or there is room for one. */
  predicate Welcome(c: Config, m: Visitors, key: Key) { key in m || |m| < c.maxBuckets }

  lemma CleaningKeepsWelcome(c: Config, s: State, key: Key, now: real)
    requires Welcome(c, s.visitors, key) && |s.visitors| <= c.maxBuckets
    ensures Welcome(c, Cleaned(c, s, now).visitors, key)
  {
    var after := Cleaned(c, s, now).visitors;
    SubmapSize(after, s.visitors);
    if key in s.visitors && key !in after {
      assert after.Keys <= (s.visitors - {key}).Keys;
      SubmapSize(after, s.visitors - {key});
    }
  }

  lemma AvailableLater(c: Config, m: Visitors, key: Key, from: real, now: real)
    requires Sane(c, m, from) && from <= now
    ensures Available(c, m, key, from) <= Available(c, m, key, now)
  {
    hide Inflow;
    InflowBounds(c, now - from);
    if key in m {
      InflowAdds(c, from - m[key].lastSeen, now - from);
    }
  }

  lemma ChargeAdmits(c: Config, m: Visitors, r: Request)
    requires Available(c, m, r.key, r.now) >= 1.0
    ensures Charge(c, m, r).0.Admit? && r.key in Charge(c, m, r).1 && Charge(c, m, r).1[r.key].lastSeen == r.now
  {
    LevelBounds(c, Visitor(c.size as real, r.now), r.now);
  }

  /** One request of a key that has a token is admitted and costs one token. */
  lemma StepAdmits(c: Config, s: State, r: Request, now: real)
    requires Inv(c, s, now) && now <= r.now && r.key != "" && Welcome(c, s.visitors, r.key)
    requires Available(c, s.visitors, r.key, now) >= 1.0
    ensures var (d, t) := Step(c, s, r);
            && d.Admit? && r.key in t.visitors && t.visitors[r.key].lastSeen == r.now
            && Available(c, t.visitors, r.key, r.now) >= Available(c, s.visitors, r.key, now) - 1.0
  {
    hide Available, Charge;
    var t := Cleaned(c, s, r.now);
    CleaningKeepsWelcome(c, s, r.key, r.now);
    AvailableLater(c, s.visitors, r.key, now, r.now);
    CleaningKeepsAvailable(c, s, r.key, r.now);
    ChargeAdmits(c, t.visitors, r);
    ChargeSpends(c, t.visitors, r, r.key);
  }

  lemma {:induction false} LastIsLast(trace: seq<Request>, now: real)
    requires Ordered(trace, now)
    ensures now <= Last(trace, now)
    decreases |trace|
  {
    if trace != [] {
      LastIsLast(trace[1..], trace[0].now);
    }
  }

  /** How many requests of a trace are the key's. */
  function CountOf(trace: seq<Request>, key: Key): nat {
    if trace == [] then 0 else (if trace[0].key == key then 1 else 0) + CountOf(trace[1..], key)
  }

  /** Another key's request neither evicts a bucket that is not idle nor takes its tokens. */
  lemma OthersKeepBucket(c: Config, s: State, r: Request, key: Key, now: real)
    requires Inv(c, s, now) && now <= r.now && r.key != key
    requires key in s.visitors && !Idle(c, s.visitors[key], r.now)
    ensures var t := Step(c, s, r).1;
            && key in t.visitors && t.visitors[key] == s.visitors[key]
            && Available(c, t.visitors, key, r.now) >= Available(c, s.visitors, key, now)
  {
    AvailableLater(c, s.visitors, key, now, r.now);
    hide Level;
  }

  /** A key whose bucket stays until `to` is admitted as often as it has tokens, whatever the
      other keys do meanwhile. */
  lemma {:induction false} TokensAreGood(c: Config, s: State, trace: seq<Request>, key: Key, from: real, now: real, to: real)
    requires Inv(c, s, now) && Ordered(trace, now) && from <= now && Last(trace, now) <= to && key != ""
    requires key in s.visitors && !Idle(c, s.visitors[key], to)
    requires Available(c, s.visitors, key, now) >= CountOf(trace, key) as real
    ensures Admissions(c, s, trace, key, from, to) == CountOf(trace, key)
    decreases |trace|
  {
    hide Available, Step, Inflow;
    if trace != [] {
      var r, t := trace[0], Step(c, s, trace[0]).1;
      LastIsLast(trace[1..], r.now);
      StepKeepsInv(c, s, r, now);
      if r.key == key {
        StepAdmits(c, s, r, now);
      } else {
        OthersKeepBucket(c, s, r, key, now);
      }
      TokensAreGood(c, t, trace[1..], key, from, r.now, to);
    }
  }

  /** A key without a bucket, while the map has room: from its first request on it is admitted
      maxRequests times within two windows, whatever other keys interleave. */
  lemma BurstIsAdmitted(c: Config, s: State, trace: seq<Request>, key: Key, now: real)
    requires Inv(c, s, now) && Ordered(trace, now) && key != "" && key !in s.visitors && |s.visitors| < c.maxBuckets
    requires trace != [] && trace[0].key == key && CountOf(trace, key) <= c.size
    requires Last(trace, now) <= trace[0].now + 2.0 * c.window
    ensures Admissions(c, s, trace, key, now, Last(trace, now)) == CountOf(trace, key)
  {
    hide Step, Inflow;
    var r, to := trace[0], Last(trace, now);
    LastIsLast(trace[1..], r.now);
    StepKeepsInv(c, s, r, now);
    StepAdmits(c, s, r, now);
    TokensAreGood(c, Step(c, s, r).1, trace[1..], key, now, r.now, to);
  }

  // ----------------------------------------------------------- capacity, exactly

  /** The buckets that a cleanup at `now` would leave. */
  function Busy(c: Config, m: Visitors, now: real): set<Key> { set k | k in m && now - m[k].lastSeen <= 2.0 * c.window }

  /** A key without a bucket is refused for capacity if and only if the map is full: of buckets
      used within two windows if a cleanup is due, of any buckets otherwise. If not it is
      admitted. Only the empty key is not metered. */
  lemma NewKeyAnsweredExactly(c: Config, s: State, r: Request)
    requires r.key !in s.visitors
    ensures var due := r.now - s.lastCleanup >= 300.0;
            var taken := if due then |Busy(c, s.visitors, r.now)| else |s.visitors|;
            Step(c, s, r).0 == if r.key == "" then Unmetered else if taken >= c.maxBuckets then Full else Admit
  {
    var kept := Cleaned(c, s, r.now).visitors;
    if r.now - s.lastCleanup >= 300.0 {
      assert kept.Keys == Busy(c, s.visitors, r.now);
    }
    assert |kept| == |kept.Keys|;
    LevelBounds(c, Visitor(c.size as real, r.now), r.now);
  }

  /** A key with a bucket is never refused for capacity. */
  lemma KnownKeyIsNeverFull(c: Config, s: State, r: Request)
    requires r.key in s.visitors && |s.visitors| <= c.maxBuckets
    ensures Step(c, s, r).0 != Full
  {
    CleaningKeepsWelcome(c, s, r.key, r.now);
  }

  /** What a request does to the other keys: if a cleanup is due, the buckets idle for more
      than two windows go and the clock of cleanups restarts; nothing else changes. */
  lemma OthersExactly(c: Config, s: State, r: Request, key: Key)
    requires key != r.key
    ensures var due := r.key != "" && r.now - s.lastCleanup >= 300.0;
            var t := Step(c, s, r).1;
            && t.lastCleanup == (if due then r.now else s.lastCleanup)
            && (key in t.visitors <==> key in s.visitors && (due ==> r.now - s.visitors[key].lastSeen <= 2.0 * c.window))
            && (key in t.visitors ==> t.visitors[key] == s.visitors[key])
  {
    hide Level;
  }

  // ------------------------------------------------------- token refusals, exactly

  lemma {:induction false} Snoc(c: Config, s: State, trace: seq<Request>, r: Request, now: real)
    requires Ordered(trace + [r], now)
    ensures Ordered(trace, now) && Last(trace, now) <= r.now && Last(trace + [r], now) == r.now
    ensures Run(c, s, trace + [r]) == Step(c, Run(c, s, trace), r).1
    decreases |trace|
  {
    hide Step;
    if trace == [] {
      assert trace + [r] == [r] && [r][1..] == [];
    } else {
      assert (trace + [r])[1..] == trace[1..] + [r] && (trace + [r])[0] == trace[0];
      Snoc(c, Step(c, s, trace[0]).1, trace[1..], r, trace[0].now);
    }
  }

  lemma {:induction false} AdmissionsSnoc(c: Config, s: State, trace: seq<Request>, r: Request, key: Key, from: real, to: real)
    ensures Admissions(c, s, trace + [r], key, from, to)
         == Admissions(c, s, trace, key, from, to)
          + if Step(c, Run(c, s, trace), r).0.Admit? && r.key == key && from <= r.now <= to then 1 else 0
    decreases |trace|
  {
    hide Step;
    if trace == [] {
      assert trace + [r] == [r] && [r][1..] == [];
    } else {
      assert (trace + [r])[1..] == trace[1..] + [r] && (trace + [r])[0] == trace[0];
      AdmissionsSnoc(c, Step(c, s, trace[0]).1, trace[1..], r, key, from, to);
    }
  }

  /** Nothing is admitted outside the times of the trace. */
  lemma {:induction false} AdmissionsUpTo(c: Config, s: State, trace: seq<Request>, key: Key, from: real, now: real, to: real)
    requires Ordered(trace, now) && Last(trace, now) <= to
    ensures Admissions(c, s, trace, key, from, to) == Admissions(c, s, trace, key, from, Last(trace, now))
    ensures Last(trace, now) < from ==> Admissions(c, s, trace, key, from, to) == 0
    decreases |trace|
  {
    hide Step;
    if trace != [] {
      LastIsLast(trace[1..], trace[0].now);
      AdmissionsUpTo(c, Step(c, s, trace[0]).1, trace[1..], key, from, trace[0].now, to);
    }
  }

  lemma AvailableRefills(c: Config, m: Visitors, key: Key, from: real, now: real)
    requires Sane(c, m, from) && from <= now
    ensures Available(c, m, key, now) == Min(c.size as real, Available(c, m, key, from) + Inflow(c, now - from))
    ensures 0.0 <= Available(c, m, key, from) <= c.size as real
  {
    hide Inflow;
    InflowBounds(c, now - from);
    if key in m {
      LevelBounds(c, m[key], from);
      InflowAdds(c, from - m[key].lastSeen, now - from);
    }
  }

  function Spent(d: Decision, r: Request, key: Key): real { if d.Admit? && r.key == key then 1.0 else 0.0 }

  /** A request refills every key up to its time and costs its own key a token if admitted. */
  lemma StepRefills(c: Config, s: State, r: Request, key: Key, from: real)
    requires Sane(c, s.visitors, from) && from <= r.now && key != ""
    ensures var (d, t) := Step(c, s, r);
            Available(c, t.visitors, key, r.now) + Spent(d, r, key)
              == Min(c.size as real, Available(c, s.visitors, key, from) + Inflow(c, r.now - from))
  {
    hide Charge, Available, Inflow;
    AvailableRefills(c, s.visitors, key, from, r.now);
    CleaningKeepsAvailable(c, s, key, r.now);
    ChargeSpends(c, Cleaned(c, s, r.now).visitors, r, key);
  }

  /** What is left at the end of a trace, counted from some time on. */
  ghost function Left(c: Config, trace: seq<Request>, start: real, key: Key, from: real, to: real): real
  {
    c.size as real + Inflow(c, to - from) - Admissions(c, State(map[], start), trace, key, from, to) as real
  }

  /** One more request: what flowed in since, less what it spent. */
  lemma LeftSnoc(c: Config, front: seq<Request>, r: Request, start: real, key: Key, from: real)
    requires Ordered(front + [r], start) && from <= r.now
    ensures var t, d := Last(front, start), Step(c, Run(c, State(map[], start), front), r).0;
            Left(c, front + [r], start, key, from, r.now)
              == (if from <= t then Left(c, front, start, key, from, t) + Inflow(c, r.now - t)
                  else c.size as real + Inflow(c, r.now - from)) - Spent(d, r, key)
  {
    hide Step, Inflow;
    var s0, t := State(map[], start), Last(front, start);
    Snoc(c, s0, front, r, start);
    AdmissionsSnoc(c, s0, front, r, key, from, r.now);
    AdmissionsUpTo(c, s0, front, key, from, start, r.now);
    InflowAdds(c, t - from, r.now - t);
  }

  /** The tokens after a trace and after one more request. */
  lemma TokensSnoc(c: Config, front: seq<Request>, r: Request, start: real, key: Key)
    requires Ordered(front + [r], start) && key != ""
    ensures var t, s := Last(front, start), Run(c, State(map[], start), front);
            var d := Step(c, s, r).0;
            && t <= r.now && Ordered(front, start) && Last(front + [r], start) == r.now
            && 0.0 <= Available(c, s.visitors, key, t) <= c.size as real
            && Available(c, Run(c, State(map[], start), front + [r]).visitors, key, r.now) + Spent(d, r, key)
                 == Min(c.size as real, Available(c, s.visitors, key, t) + Inflow(c, r.now - t))
  {
    hide Step, Inflow, Available;
    var s0, t := State(map[], start), Last(front, start);
    Snoc(c, s0, front, r, start);
    RunKeepsInv(c, s0, front, start);
    StepRefills(c, Run(c, s0, front), r, key, t);
    AvailableRefills(c, Run(c, s0, front).visitors, key, t, r.now);
  }

  /** The tokens after a trace are exactly what is left counted from one time on. */
  lemma {:induction false} LeftExactly(c: Config, trace: seq<Request>, start: real, key: Key) returns (from: real)
    requires Ordered(trace, start) && key != ""
    ensures var t := Last(trace, start);
            from <= t && Available(c, Run(c, State(map[], start), trace).visitors, key, t) == Left(c, trace, start, key, from, t)
    decreases |trace|
  {
    hide Inflow, Available, Step, Left;
    if trace == [] {
      from := start;
      NothingYet(c, start, key);
    } else {
      var front, r := trace[..|trace| - 1], trace[|trace| - 1];
      assert trace == front + [r];
      var t := Last(front, start);
      TokensSnoc(c, front, r, start, key);
      from := LeftExactly(c, front, start, key);
      InflowBounds(c, r.now - t);
      if Available(c, Run(c, State(map[], start), front).visitors, key, t) + Inflow(c, r.now - t) > c.size as real {
        from := r.now;
        InflowBounds(c, 0.0);
      }
      LeftSnoc(c, front, r, start, key, from);
    }
  }

  lemma NothingYet(c: Config, start: real, key: Key)
    ensures Available(c, Run(c, State(map[], start), []).visitors, key, start) == c.size as real
    ensures forall from :: Left(c, [], start, key, from, start) == c.size as real + Inflow(c, start - from)
    ensures Left(c, [], start, key, start, start) == c.size as real
  {
    InflowBounds(c, 0.0);
  }

  /** And no more than what is left counted from any other time. */
  lemma {:induction false} LeftBounds(c: Config, trace: seq<Request>, start: real, key: Key, from: real)
    requires Ordered(trace, start) && key != "" && from <= Last(trace, start)
    ensures var t := Last(trace, start);
            Available(c, Run(c, State(map[], start), trace).visitors, key, t) <= Left(c, trace, start, key, from, t)
    decreases |trace|
  {
    hide Inflow, Available, Step, Left;
    if trace == [] {
      NothingYet(c, start, key);
      InflowBounds(c, start - from);
    } else {
      var front, r := trace[..|trace| - 1], trace[|trace| - 1];
      assert trace == front + [r];
      TokensSnoc(c, front, r, start, key);
      LeftSnoc(c, front, r, start, key, from);
      if from <= Last(front, start) {
        LeftBounds(c, front, start, key, from);
      } else {
        InflowBounds(c, r.now - from);
      }
    }
  }

  lemma {:induction false} LeftNever(c: Config, trace: seq<Request>, start: real, key: Key, from: real, to: real)
    requires Ordered(trace, start) && from <= to && key != ""
    ensures Left(c, trace, start, key, from, to) >= 0.0
    decreases |trace|
  {
    hide Inflow, Step, Run;
    InflowBounds(c, to - from);
    if trace != [] {
      var front, r := trace[..|trace| - 1], trace[|trace| - 1];
      assert trace == front + [r];
      Snoc(c, State(map[], start), front, r, start);
      if r.now > to {
        AdmissionsSnoc(c, State(map[], start), front, r, key, from, to);
        LeftNever(c, front, start, key, from, to);
      } else {
        LeftLater(c, trace, start, key, from, to);
        InflowBounds(c, to - r.now);
        if from <= r.now {
          LeftBounds(c, trace, start, key, from);
          TokensAreThere(c, trace, start, key);
        }
      }
    }
  }

  lemma TokensAreThere(c: Config, trace: seq<Request>, start: real, key: Key)
    requires Ordered(trace, start)
    ensures Available(c, Run(c, State(map[], start), trace).visitors, key, Last(trace, start)) >= 0.0
  {
    RunKeepsInv(c, State(map[], start), trace, start);
    AvailableRefills(c, Run(c, State(map[], start), trace).visitors, key, Last(trace, start), Last(trace, start));
  }

  /** In every interval [from, to] of every ordered trace, a key is admitted at most
      maxRequests + (maxRequests / window) * (to - from) times. */
  lemma AdmissionBound(c: Config, trace: seq<Request>, start: real, key: Key, from: real, to: real)
    requires Ordered(trace, start) && from <= to && key != ""
    ensures Admissions(c, State(map[], start), trace, key, from, to) as real
         <= c.size as real + (to - from) * (c.size as real / c.window)
  {
    hide Admissions;
    WithinInflow(c, trace, start, key, from, to);
  }

  lemma WithinInflow(c: Config, trace: seq<Request>, start: real, key: Key, from: real, to: real)
    requires Ordered(trace, start) && from <= to && key != ""
    ensures Admissions(c, State(map[], start), trace, key, from, to) as real <= c.size as real + Inflow(c, to - from)
  {
    hide Inflow, Admissions;
    LeftNever(c, trace, start, key, from, to);
  }

  /** One more admission now would exceed the rate counted from some time on. */
  ghost predicate WouldExceed(c: Config, trace: seq<Request>, start: real, key: Key, from: real, now: real)
  {
    && from <= now
    && Admissions(c, State(map[], start), trace, key, from, now) as real + 1.0 > c.size as real + Inflow(c, now - from)
  }

  /** What flows in is the rate, maxRequests / window, times the time. */
  lemma InflowIsRate(c: Config, elapsed: real)
    ensures Inflow(c, elapsed) == elapsed * (c.size as real / c.window)
  {
  }

  lemma LeftLater(c: Config, trace: seq<Request>, start: real, key: Key, from: real, now: real)
    requires Ordered(trace, start) && Last(trace, start) <= now
    ensures var t := Last(trace, start);
            Left(c, trace, start, key, from, now) == Left(c, trace, start, key, from, t) + Inflow(c, now - t)
    ensures Last(trace, start) < from ==> Left(c, trace, start, key, from, now) == c.size as real + Inflow(c, now - from)
  {
    AdmissionsUpTo(c, State(map[], start), trace, key, from, start, now);
    InflowAdds(c, Last(trace, start) - from, now - Last(trace, start));
  }

  /** On every ordered trace: a key is short of a token at some later time if and only if one
      more admission would exceed maxRequests + rate * length in some interval up to then. */
  lemma ShortExactly(c: Config, trace: seq<Request>, start: real, key: Key, now: real)
    requires Ordered(trace, start) && Last(trace, start) <= now && key != ""
    ensures Available(c, Run(c, State(map[], start), trace).visitors, key, now) < 1.0 <==>
      exists from :: WouldExceed(c, trace, start, key, from, now)
  {
    var t, m := Last(trace, start), Run(c, State(map[], start), trace).visitors;
    RunKeepsInv(c, State(map[], start), trace, start);
    hide Available, Run, Step, Inflow, Left, WouldExceed;
    AvailableRefills(c, m, key, t, now);
    if Available(c, m, key, now) < 1.0 {
      var from := LeftExactly(c, trace, start, key);
      LeftLater(c, trace, start, key, from, now);
      NoneLeft(c, trace, start, key, from, now);
    }
    forall from | WouldExceed(c, trace, start, key, from, now)
      ensures Available(c, m, key, now) < 1.0
    {
      NoneLeft(c, trace, start, key, from, now);
      LeftLater(c, trace, start, key, from, now);
      if from <= t {
        LeftBounds(c, trace, start, key, from);
      } else {
        InflowBounds(c, now - from);
      }
    }
  }

  lemma NoneLeft(c: Config, trace: seq<Request>, start: real, key: Key, from: real, now: real)
    ensures WouldExceed(c, trace, start, key, from, now) <==> from <= now && Left(c, trace, start, key, from, now) < 1.0
  {
    hide Inflow, Admissions;
  }

  /** So after every ordered trace, a request that is not refused for capacity is refused for
      tokens if and only if admitting it would exceed the rate in some interval. */
  lemma RefusedExactly(c: Config, trace: seq<Request>, start: real, key: Key, now: real)
    requires Ordered(trace, start) && Last(trace, start) <= now && key != ""
    ensures var d := Step(c, Run(c, State(map[], start), trace), Request(key, now)).0;
            d == Full || d == if exists from :: WouldExceed(c, trace, start, key, from, now) then Empty else Admit
  {
    var s := Run(c, State(map[], start), trace);
    RunKeepsInv(c, State(map[], start), trace, start);
    ShortExactly(c, trace, start, key, now);
    CleaningKeepsAvailable(c, s, key, now);
    LevelBounds(c, Visitor(c.size as real, now), now);
    hide Run, WouldExceed, Level;
  }

  /** The advertised seconds are the least whole number, at least one, that brings a token. */
  lemma RetryAfterIsLeast(c: Config, seconds: int)
    requires 1 <= seconds < c.RetryAfter()
    ensures Inflow(c, seconds as real) < 1.0
  {
    var n, w := c.size as real, c.window;
    var x := w / n;
    assert seconds as real < x;
    assert x * (n / w) == 1.0 by {
      assert x * n == w;
      assert x * (n / w) == (x * n) / w;
    }
    StrictProduct(x - seconds as real, n / w);
    assert (x - seconds as real) * (n / w) == x * (n / w) - seconds as real * (n / w);
  }

  lemma StrictProduct(a: real, b: real)
    requires a > 0.0 && b > 0.0
    ensures a * b > 0.0
  {
  }
}
