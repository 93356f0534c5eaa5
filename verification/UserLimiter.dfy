/**
 The per-user registry: fixed minute windows and concurrency counters per (uid, op), a
 global concurrency cap, release closures and a janitor. Times are nanoseconds and reach
 the lock in clock order; a release runs once per grant.
 */
module UserLimiting {
  type Uid = nat
  type Op = string

  const SECOND := 1_000_000_000
  const MINUTE := 60_000_000_000
  const IDLE := 30 * MINUTE

  /** A limit that is not positive is no limit. */
  datatype Quota = Quota(perMinute: int, perUserConcurrent: int)

  datatype User = User(window: nat, requests: nat, concurrent: nat, lastSeen: nat)

  datatype Bucket = Bucket(quota: Quota, users: map<Uid, User>)

  type Buckets = map<Op, Bucket>

  datatype Registry = Registry(buckets: Buckets, inUse: nat)

  datatype Limits = Limits(global: int, resolve: Op -> Quota)

  datatype Answer = Granted | RateLimit | ConcurrentLimit | GlobalBusy

  // ---------------------------------------------------------------- operations

  function BucketOf(l: Limits, r: Registry, op: Op): Bucket {
    if op in r.buckets then r.buckets[op] else Bucket(l.resolve(op), map[])
  }

  /** The user's counters at `now`: a new user, or a new window, starts at zero requests. */
  function Current(b: Bucket, uid: Uid, now: nat): User {
    if uid !in b.users then User(now / MINUTE, 0, 0, now)
    else if b.users[uid].window != now / MINUTE then b.users[uid].(window := now / MINUTE, requests := 0)
    else b.users[uid]
  }

  function Decide(l: Limits, r: Registry, q: Quota, u: User): Answer {
    if q.perMinute > 0 && u.requests >= q.perMinute then RateLimit
    else if q.perUserConcurrent > 0 && u.concurrent >= q.perUserConcurrent then ConcurrentLimit
    else if l.global > 0 && r.inUse >= l.global then GlobalBusy
    else Granted
  }

  function Put(r: Registry, op: Op, b: Bucket, uid: Uid, u: User): Registry {
    r.(buckets := r.buckets[op := b.(users := b.users[uid := u])])
  }

  /** A grant counts in the window, at the user and globally; a denial only refreshes the
      user's record. */
  function Acquire(l: Limits, r: Registry, uid: Uid, op: Op, now: nat): (Answer, Registry) {
    var b := BucketOf(l, r, op);
    var u := Current(b, uid, now).(lastSeen := now);
    var a := Decide(l, r, b.quota, u);
    (a, Put(r, op, b, uid, Charged(u, a)).(inUse := if a.Granted? then r.inUse + 1 else r.inUse))
  }

  function Charged(u: User, a: Answer): User {
    if a.Granted? then u.(requests := u.requests + 1, concurrent := u.concurrent + 1) else u
  }

  /** The closure a grant returns; it looks its user up again and guards both counters. */
  function Release(r: Registry, uid: Uid, op: Op): Registry {
    var t :=
      if op in r.buckets && uid in r.buckets[op].users && r.buckets[op].users[uid].concurrent > 0 then
        var u := r.buckets[op].users[uid];
        Put(r, op, r.buckets[op], uid, u.(concurrent := u.concurrent - 1))
      else r;
    t.(inUse := if r.inUse > 0 then r.inUse - 1 else r.inUse)
  }

  /** Retry-After in whole seconds; `later` is the second clock reading, and the conversion
      of a duration to an int truncates toward zero. */
  function RetryAfter(a: Answer, now: nat, later: nat): nat {
    match a
    case Granted => 0
    case RateLimit =>
      var next := (now / MINUTE + 1) * MINUTE;
      if next - later < SECOND then 1 else (next - later) / SECOND
    case _ => 1
  }

  predicate Expired(u: User, now: nat) { u.concurrent == 0 && u.lastSeen < now - IDLE }

  function Sweep(b: Bucket, now: nat): Bucket {
    b.(users := map uid | uid in b.users && !Expired(b.users[uid], now) :: b.users[uid])
  }

  function Janitor(r: Registry, now: nat): Registry {
    r.(buckets := map op | op in r.buckets :: Sweep(r.buckets[op], now))
  }

  // --------------------------------------------------------------- the registry

  class UserRateLimitRegistry {
    const limits: Limits
    var buckets: Buckets
    var inUse: nat

    function Contents(): Registry
      reads this
    {
      Registry(buckets, inUse)
    }

    constructor (limits: Limits)
      ensures this.limits == limits && Contents() == Registry(map[], 0)
    {
      this.limits := limits;
      buckets, inUse := map[], 0;
    }

    method AcquireSlot(uid: Uid, op: Op, now: nat, later: nat) returns (a: Answer, retry: int)
      modifies this
      ensures (a, Contents()) == Acquire(limits, old(Contents()), uid, op, now)
      ensures retry == RetryAfter(a, now, later)
      ensures a.Granted? ==> retry == 0
      ensures a.ConcurrentLimit? || a.GlobalBusy? ==> retry == 1
    {
      retry := 1;
      var b := if op in buckets then buckets[op] else Bucket(limits.resolve(op), map[]);
      var st := if uid in b.users then b.users[uid] else User(now / MINUTE, 0, 0, now);
      if st.window != now / MINUTE {
        st := st.(window := now / MINUTE, requests := 0);
      }
      st := st.(lastSeen := now);
      if b.quota.perMinute > 0 && st.requests >= b.quota.perMinute {
        a := RateLimit;
        var next := (now / MINUTE + 1) * MINUTE;
        retry := if next >= later then (next - later) / SECOND else -((later - next) / SECOND);
        if retry < 1 {
          retry := 1;
        }
      } else if b.quota.perUserConcurrent > 0 && st.concurrent >= b.quota.perUserConcurrent {
        a := ConcurrentLimit;
      } else if limits.global > 0 && inUse >= limits.global {
        a := GlobalBusy;
      } else {
        a, retry := Granted, 0;
        st := st.(requests := st.requests + 1, concurrent := st.concurrent + 1);
        inUse := inUse + 1;
      }
      buckets := buckets[op := b.(users := b.users[uid := st])];
    }

    method ReleaseSlot(uid: Uid, op: Op)
      modifies this
      ensures Contents() == Release(old(Contents()), uid, op)
    {
      if op in buckets && uid in buckets[op].users && buckets[op].users[uid].concurrent > 0 {
        var st := buckets[op].users[uid];
        buckets := buckets[op := buckets[op].(users := buckets[op].users[uid := st.(concurrent := st.concurrent - 1)])];
      }
      if inUse > 0 {
        inUse := inUse - 1;
      }
    }

    /** The inner loop: every user of one bucket, in any order. */
    method SweepBucket(b: Bucket, now: nat) returns (swept: Bucket)
      ensures swept == Sweep(b, now)
    {
      swept := b;
      var todo := b.users.Keys;
      while todo != {}
        invariant swept.quota == b.quota && todo <= swept.users.Keys <= b.users.Keys
        invariant forall k :: k in swept.users ==> swept.users[k] == b.users[k]
        invariant forall k :: k in b.users ==> (k in swept.users <==> k in todo || !Expired(b.users[k], now))
        decreases todo
      {
        var uid :| uid in todo;
        todo := todo - {uid};
        if Expired(swept.users[uid], now) {
          swept := swept.(users := swept.users - {uid});
        }
      }
    }

    /** One janitor pass. */
    method Pass(now: nat)
      modifies this`buckets
      ensures Contents() == Janitor(old(Contents()), now)
    {
      var todo := buckets.Keys;
      while todo != {}
        invariant todo <= buckets.Keys == old(buckets).Keys
        invariant forall k :: k in buckets ==>
                    buckets[k] == if k in todo then old(buckets)[k] else Sweep(old(buckets)[k], now)
        decreases todo
      {
        var op :| op in todo;
        todo := todo - {op};
        var swept := SweepBucket(buckets[op], now);
        buckets := buckets[op := swept];
      }
    }
  }

  // ------------------------------------------------------------------- histories

  datatype Event = Ask(uid: Uid, op: Op, now: nat) | Return(uid: Uid, op: Op) | Tick(now: nat)

  /** `permits` are the grants not released yet. */
  datatype World = World(registry: Registry, permits: multiset<(Op, Uid)>)

  const IDLE_WORLD := World(Registry(map[], 0), multiset{})

  /** A release happens only for an outstanding permit; `evict` says whether the janitor
      runs at all. */
  function Step(l: Limits, w: World, e: Event, evict: bool): World {
    match e
    case Ask(uid, op, now) =>
      var (a, r) := Acquire(l, w.registry, uid, op, now);
      World(r, if a.Granted? then w.permits + multiset{(op, uid)} else w.permits)
    case Return(uid, op) =>
      if (op, uid) in w.permits then World(Release(w.registry, uid, op), w.permits - multiset{(op, uid)}) else w
    case Tick(now) => if evict then w.(registry := Janitor(w.registry, now)) else w
  }

  function Run(l: Limits, w: World, trace: seq<Event>, evict: bool): World
    decreases |trace|
  {
    if trace == [] then w else Run(l, Step(l, w, trace[0], evict), trace[1..], evict)
  }

  /** The answers of a history, in order. */
  function Answers(l: Limits, w: World, trace: seq<Event>, evict: bool): seq<Answer>
    decreases |trace|
  {
    if trace == [] then []
    else
      (if trace[0].Ask? then [Acquire(l, w.registry, trace[0].uid, trace[0].op, trace[0].now).0] else [])
      + Answers(l, Step(l, w, trace[0], evict), trace[1..], evict)
  }

  function Clock(e: Event, now: nat): nat { if e.Return? then now else e.now }

  ghost predicate Ordered(trace: seq<Event>, from: nat) {
    trace != [] ==> from <= Clock(trace[0], from) && Ordered(trace[1..], Clock(trace[0], from))
  }

  // ------------------------------------------------------------- sums over maps

  ghost function Sum<K>(m: map<K, nat>): nat {
    if m == map[] then 0
    else
      var k :| k in m;
      m[k] + Sum(m - {k})
  }

  lemma {:induction false} SumTake<K>(m: map<K, nat>, k: K)
    requires k in m
    ensures Sum(m) == m[k] + Sum(m - {k})
    decreases |m|
  {
    var j :| j in m && Sum(m) == m[j] + Sum(m - {j});
    if j != k {
      SumTake(m - {j}, k);
      SumTake(m - {k}, j);
      assert (m - {j}) - {k} == (m - {k}) - {j};
    }
  }

  lemma SumPut<K>(m: map<K, nat>, k: K, v: nat)
    ensures Sum(m[k := v]) + (if k in m then m[k] else 0) == Sum(m) + v
  {
    SumTake(m[k := v], k);
    assert m[k := v] - {k} == m - {k};
    if k in m {
      SumTake(m, k);
    } else {
      assert m - {k} == m;
    }
  }

  lemma {:induction false} SumDropZeros<K>(m: map<K, nat>, kept: map<K, nat>)
    requires kept.Keys <= m.Keys && forall k :: k in m ==> m[k] == if k in kept then kept[k] else 0
    ensures Sum(kept) == Sum(m)
    decreases |m|
  {
    if m == map[] {
      assert kept == map[];
    } else {
      var k :| k in m;
      SumTake(m, k);
      if k in kept {
        SumTake(kept, k);
        SumDropZeros(m - {k}, kept - {k});
      } else {
        SumDropZeros(m - {k}, kept);
      }
    }
  }

  ghost function Counters(b: Bucket): map<Uid, nat> { map uid | uid in b.users :: b.users[uid].concurrent }

  ghost function BucketTotals(buckets: Buckets): map<Op, nat> {
    map op | op in buckets :: Sum(Counters(buckets[op]))
  }

  /** The sum of all users' concurrent counts over all buckets. */
  ghost function Total(buckets: Buckets): nat { Sum(BucketTotals(buckets)) }

  ghost function Concurrent(buckets: Buckets, op: Op, uid: Uid): nat {
    if op in buckets && uid in buckets[op].users then buckets[op].users[uid].concurrent else 0
  }

  lemma TotalAfterPut(l: Limits, r: Registry, op: Op, uid: Uid, u: User)
    ensures Total(Put(r, op, BucketOf(l, r, op), uid, u).buckets) + Concurrent(r.buckets, op, uid)
         == Total(r.buckets) + u.concurrent
  {
    hide Sum;
    var b := BucketOf(l, r, op);
    var b' := b.(users := b.users[uid := u]);
    var buckets' := Put(r, op, b, uid, u).buckets;
    assert Counters(b') == Counters(b)[uid := u.concurrent];
    SumPut(Counters(b), uid, u.concurrent);
    assert BucketTotals(buckets') == BucketTotals(r.buckets)[op := Sum(Counters(b'))];
    SumPut(BucketTotals(r.buckets), op, Sum(Counters(b')));
    if op !in r.buckets {
      assert Counters(b) == map[];
      SumOfNone<Uid>();
    }
  }

  lemma SumOfNone<K>()
    ensures Sum<K>(map[]) == 0
  {
  }

  lemma TotalAfterJanitor(r: Registry, now: nat)
    ensures Total(Janitor(r, now).buckets) == Total(r.buckets)
  {
    forall op | op in r.buckets
      ensures Sum(Counters(Sweep(r.buckets[op], now))) == Sum(Counters(r.buckets[op]))
    {
      SumDropZeros(Counters(r.buckets[op]), Counters(Sweep(r.buckets[op], now)));
    }
    assert BucketTotals(Janitor(r, now).buckets) == BucketTotals(r.buckets);
  }

  // --------------------------------------------------------- permit conservation

  ghost predicate Matches(buckets: Buckets, permits: multiset<(Op, Uid)>) {
    Total(buckets) == |permits| && forall op, uid :: Concurrent(buckets, op, uid) == permits[(op, uid)]
  }

  ghost predicate Counted(w: World) { w.registry.inUse == |w.permits| && Matches(w.registry.buckets, w.permits) }

  ghost predicate Capped(l: Limits, r: Registry) {
    && (l.global > 0 ==> r.inUse <= l.global)
    && (forall op :: op in r.buckets ==> r.buckets[op].quota == l.resolve(op))
    && (forall op, uid :: l.resolve(op).perUserConcurrent > 0 ==>
          Concurrent(r.buckets, op, uid) <= l.resolve(op).perUserConcurrent)
  }

  lemma ConcurrentAfterPut(l: Limits, r: Registry, op: Op, uid: Uid, u: User)
    ensures forall op', uid' ::
      Concurrent(Put(r, op, BucketOf(l, r, op), uid, u).buckets, op', uid')
        == if op' == op && uid' == uid then u.concurrent else Concurrent(r.buckets, op', uid')
  {
  }

  lemma PutMatches(l: Limits, r: Registry, op: Op, uid: Uid, u: User, permits: multiset<(Op, Uid)>, after: multiset<(Op, Uid)>)
    requires Matches(r.buckets, permits)
    requires after == permits[(op, uid) := u.concurrent]
    ensures Matches(Put(r, op, BucketOf(l, r, op), uid, u).buckets, after)
  {
    TotalAfterPut(l, r, op, uid, u);
    ConcurrentAfterPut(l, r, op, uid, u);
    hide Total, Concurrent, Put, BucketOf;
    assert Concurrent(r.buckets, op, uid) == permits[(op, uid)];
    assert |after| + permits[(op, uid)] == |permits| + u.concurrent;
  }

  lemma AskKeepsCounted(l: Limits, w: World, uid: Uid, op: Op, now: nat)
    requires Counted(w)
    ensures Counted(Step(l, w, Ask(uid, op, now), true))
  {
    var r := w.registry;
    var b := BucketOf(l, r, op);
    var u := Current(b, uid, now).(lastSeen := now);
    assert u.concurrent == Concurrent(r.buckets, op, uid) == w.permits[(op, uid)];
    hide Concurrent, Matches, Current, Decide, BucketOf;
    var a := Decide(l, r, b.quota, u);
    var permits := if a.Granted? then w.permits + multiset{(op, uid)} else w.permits;
    assert permits == w.permits[(op, uid) := Charged(u, a).concurrent];
    PutMatches(l, r, op, uid, Charged(u, a), w.permits, permits);
  }

  lemma AskKeepsCapped(l: Limits, r: Registry, uid: Uid, op: Op, now: nat)
    requires Capped(l, r)
    ensures Capped(l, Acquire(l, r, uid, op, now).1)
  {
    var b := BucketOf(l, r, op);
    var u := Current(b, uid, now).(lastSeen := now);
    assert u.concurrent == Concurrent(r.buckets, op, uid);
    var a := Decide(l, r, b.quota, u);
    ConcurrentAfterPut(l, r, op, uid, Charged(u, a));
    hide Concurrent, Current;
    assert b.quota == l.resolve(op);
    assert l.global > 0 && a.Granted? ==> r.inUse + 1 <= l.global;
  }

  /** A release always finds its user, with a positive counter, and a positive global one. */
  lemma ReturnKeepsCounted(l: Limits, w: World, uid: Uid, op: Op)
    requires Counted(w) && Capped(l, w.registry)
    ensures var w' := Step(l, w, Return(uid, op), true); Counted(w') && Capped(l, w'.registry)
    ensures (op, uid) in w.permits ==> Concurrent(w.registry.buckets, op, uid) > 0 && w.registry.inUse > 0
  {
    if (op, uid) in w.permits {
      var r := w.registry;
      assert Concurrent(r.buckets, op, uid) == w.permits[(op, uid)];
      var u := r.buckets[op].users[uid];
      var u' := u.(concurrent := u.concurrent - 1);
      var permits := w.permits - multiset{(op, uid)};
      assert permits == w.permits[(op, uid) := u'.concurrent];
      PutMatches(l, r, op, uid, u', w.permits, permits);
      ConcurrentAfterPut(l, r, op, uid, u');
    }
  }

  lemma TickKeepsCounted(l: Limits, w: World, now: nat)
    requires Counted(w) && Capped(l, w.registry)
    ensures var w' := Step(l, w, Tick(now), true); Counted(w') && Capped(l, w'.registry)
  {
    TotalAfterJanitor(w.registry, now);
    var r' := Janitor(w.registry, now);
    forall op, uid
      ensures Concurrent(r'.buckets, op, uid) == Concurrent(w.registry.buckets, op, uid)
    {
    }
  }

  lemma OneStepKeepsCounted(l: Limits, w: World, e: Event)
    requires Counted(w) && Capped(l, w.registry)
    ensures var w' := Step(l, w, e, true); Counted(w') && Capped(l, w'.registry)
  {
    match e
    case Ask(uid, op, now) =>
      AskKeepsCounted(l, w, uid, op, now);
      AskKeepsCapped(l, w.registry, uid, op, now);
    case Return(uid, op) => ReturnKeepsCounted(l, w, uid, op);
    case Tick(now) => TickKeepsCounted(l, w, now);
  }

  lemma {:induction false} RunKeepsCounted(l: Limits, w: World, trace: seq<Event>)
    requires Counted(w) && Capped(l, w.registry)
    ensures var w' := Run(l, w, trace, true); Counted(w') && Capped(l, w'.registry)
    decreases |trace|
  {
    if trace != [] {
      OneStepKeepsCounted(l, w, trace[0]);
      RunKeepsCounted(l, Step(l, w, trace[0], true), trace[1..]);
    }
  }

  /** After every history the global counter is the sum of all users' counters and the
      number of outstanding permits, each user's counter is the number of its own permits,
      the caps hold, and every outstanding release will find a positive counter. */
  lemma PermitsAreConserved(l: Limits, trace: seq<Event>)
    ensures var w := Run(l, IDLE_WORLD, trace, true);
            && w.registry.inUse == Total(w.registry.buckets) == |w.permits|
            && (forall op, uid :: Concurrent(w.registry.buckets, op, uid) == w.permits[(op, uid)])
            && (forall op, uid :: (op, uid) in w.permits ==> Concurrent(w.registry.buckets, op, uid) > 0)
            && (l.global > 0 ==> w.registry.inUse <= l.global)
            && (forall op, uid :: l.resolve(op).perUserConcurrent > 0 ==>
                  Concurrent(w.registry.buckets, op, uid) <= l.resolve(op).perUserConcurrent)
  {
    assert BucketTotals(IDLE_WORLD.registry.buckets) == map[];
    RunKeepsCounted(l, IDLE_WORLD, trace);
  }

  // ------------------------------------------------------------- minute windows

  /** Every record was last touched in the window it counts, in the past. */
  ghost predicate Dated(buckets: Buckets, now: nat) {
    forall op, uid :: op in buckets && uid in buckets[op].users ==>
      buckets[op].users[uid].lastSeen <= now && buckets[op].users[uid].window == buckets[op].users[uid].lastSeen / MINUTE
  }

  lemma StepKeepsDated(l: Limits, w: World, e: Event, evict: bool, now: nat)
    requires Dated(w.registry.buckets, now) && now <= Clock(e, now)
    ensures Dated(Step(l, w, e, evict).registry.buckets, Clock(e, now))
  {
    hide Decide;
  }

  /** Grants to (uid, op) in one minute of a history. */
  function Grants(l: Limits, w: World, trace: seq<Event>, uid: Uid, op: Op, minute: nat): nat
    decreases |trace|
  {
    if trace == [] then 0
    else
      var e := trace[0];
      (if e.Ask? && e.uid == uid && e.op == op && e.now / MINUTE == minute
          && Acquire(l, w.registry, uid, op, e.now).0.Granted? then 1 else 0)
      + Grants(l, Step(l, w, e, true), trace[1..], uid, op, minute)
  }

  /** What the user's record says was used of a minute. */
  function Used(buckets: Buckets, uid: Uid, op: Op, minute: nat): nat {
    if op in buckets && uid in buckets[op].users && buckets[op].users[uid].window == minute
    then buckets[op].users[uid].requests else 0
  }

  lemma EarlierMinute(a: nat, b: nat)
    requires a <= b
    ensures a / MINUTE <= b / MINUTE
    ensures a < b - IDLE ==> a / MINUTE < b / MINUTE
  {
  }

  /** A step moves a minute's count by exactly what it grants, until the minute is over. */
  lemma StepUses(l: Limits, w: World, e: Event, uid: Uid, op: Op, minute: nat, now: nat)
    requires Dated(w.registry.buckets, now) && now <= Clock(e, now) && Clock(e, now) / MINUTE <= minute
    ensures var granted := e.Ask? && e.uid == uid && e.op == op && e.now / MINUTE == minute
                           && Acquire(l, w.registry, uid, op, e.now).0.Granted?;
            Used(Step(l, w, e, true).registry.buckets, uid, op, minute)
              == Used(w.registry.buckets, uid, op, minute) + if granted then 1 else 0
  {
    hide Decide;
    EarlierMinute(now, Clock(e, now));
    if op in w.registry.buckets && uid in w.registry.buckets[op].users {
      EarlierMinute(w.registry.buckets[op].users[uid].lastSeen, Clock(e, now));
    }
  }

  /** A grant leaves room: the window's count was below the limit. */
  lemma GrantHadRoom(l: Limits, r: Registry, uid: Uid, op: Op, now: nat)
    requires Capped(l, r) && l.resolve(op).perMinute > 0 && Acquire(l, r, uid, op, now).0.Granted?
    ensures Used(r.buckets, uid, op, now / MINUTE) < l.resolve(op).perMinute
  {
  }

  lemma {:induction false} GrantsOfMinute(l: Limits, w: World, trace: seq<Event>, uid: Uid, op: Op, minute: nat, now: nat)
    requires Counted(w) && Capped(l, w.registry) && Dated(w.registry.buckets, now) && Ordered(trace, now)
    requires l.resolve(op).perMinute > 0 && Used(w.registry.buckets, uid, op, minute) <= l.resolve(op).perMinute
    ensures now / MINUTE <= minute ==>
      Grants(l, w, trace, uid, op, minute) + Used(w.registry.buckets, uid, op, minute) <= l.resolve(op).perMinute
    ensures now / MINUTE > minute ==> Grants(l, w, trace, uid, op, minute) == 0
    decreases |trace|
  {
    if trace != [] {
      var e, w' := trace[0], Step(l, w, trace[0], true);
      EarlierMinute(now, Clock(e, now));
      StepKeepsDated(l, w, e, true, now);
      OneStepKeepsCounted(l, w, e);
      if Clock(e, now) / MINUTE <= minute {
        StepUses(l, w, e, uid, op, minute, now);
        if e.Ask? && e.uid == uid && e.op == op && e.now / MINUTE == minute
           && Acquire(l, w.registry, uid, op, e.now).0.Granted? {
          GrantHadRoom(l, w.registry, uid, op, e.now);
        }
        GrantsOfMinute(l, w', trace[1..], uid, op, minute, Clock(e, now));
      } else {
        NoGrantsAfter(l, w', trace[1..], uid, op, minute, Clock(e, now));
      }
    }
  }

  lemma {:induction false} NoGrantsAfter(l: Limits, w: World, trace: seq<Event>, uid: Uid, op: Op, minute: nat, now: nat)
    requires Ordered(trace, now) && now / MINUTE > minute
    ensures Grants(l, w, trace, uid, op, minute) == 0
    decreases |trace|
  {
    if trace != [] {
      EarlierMinute(now, Clock(trace[0], now));
      NoGrantsAfter(l, Step(l, w, trace[0], true), trace[1..], uid, op, minute, Clock(trace[0], now));
    }
  }

  /** At most perMinute grants per (uid, op) in any minute window of any ordered history,
      janitor passes included. */
  lemma MinuteLimitHolds(l: Limits, trace: seq<Event>, uid: Uid, op: Op, minute: nat)
    requires Ordered(trace, 0) && l.resolve(op).perMinute > 0
    ensures Grants(l, IDLE_WORLD, trace, uid, op, minute) <= l.resolve(op).perMinute
  {
    assert BucketTotals(IDLE_WORLD.registry.buckets) == map[];
    GrantsOfMinute(l, IDLE_WORLD, trace, uid, op, minute, 0);
  }

  // ------------------------------------------------------- refused for cause only

  function LastClock(trace: seq<Event>, now: nat): nat {
    if trace == [] then now else LastClock(trace[1..], Clock(trace[0], now))
  }

  lemma {:induction false} ClockGrows(trace: seq<Event>, now: nat)
    requires Ordered(trace, now)
    ensures now <= LastClock(trace, now)
    decreases |trace|
  {
    if trace != [] {
      ClockGrows(trace[1..], Clock(trace[0], now));
    }
  }

  /** A window's counter is the number of grants of that minute, janitor passes included. */
  lemma {:induction false} GrantsAreCounted(l: Limits, w: World, trace: seq<Event>, uid: Uid, op: Op, minute: nat, now: nat)
    requires Dated(w.registry.buckets, now) && Ordered(trace, now) && LastClock(trace, now) / MINUTE <= minute
    ensures Used(Run(l, w, trace, true).registry.buckets, uid, op, minute)
         == Used(w.registry.buckets, uid, op, minute) + Grants(l, w, trace, uid, op, minute)
    ensures Dated(Run(l, w, trace, true).registry.buckets, LastClock(trace, now))
    decreases |trace|
  {
    hide Used, Acquire, Step, Dated;
    if trace != [] {
      var e := trace[0];
      ClockGrows(trace[1..], Clock(e, now));
      EarlierMinute(Clock(e, now), LastClock(trace, now));
      StepUses(l, w, e, uid, op, minute, now);
      StepKeepsDated(l, w, e, true, now);
      GrantsAreCounted(l, Step(l, w, e, true), trace[1..], uid, op, minute, Clock(e, now));
    }
  }

  /** An answer as the three limits give it, in their order. */
  function Verdict(l: Limits, op: Op, used: nat, open: nat, total: nat): Answer {
    var q := l.resolve(op);
    if q.perMinute > 0 && used >= q.perMinute then RateLimit
    else if q.perUserConcurrent > 0 && open >= q.perUserConcurrent then ConcurrentLimit
    else if l.global > 0 && total >= l.global then GlobalBusy
    else Granted
  }

  lemma DecidedOnCounters(l: Limits, r: Registry, uid: Uid, op: Op, now: nat)
    requires Capped(l, r)
    ensures Acquire(l, r, uid, op, now).0
         == Verdict(l, op, Used(r.buckets, uid, op, now / MINUTE), Concurrent(r.buckets, op, uid), r.inUse)
  {
  }

  /** After every ordered history the answer is that of the three limits, in their order,
      applied to the grants of this minute to (uid, op), to its open permits and to all open
      permits: each refusal exactly when its limit is the first that is reached, and a grant
      exactly when none is. */
  lemma GrantedExactly(l: Limits, trace: seq<Event>, uid: Uid, op: Op, now: nat)
    requires Ordered(trace, 0) && LastClock(trace, 0) <= now
    ensures var w := Run(l, IDLE_WORLD, trace, true);
            var q := l.resolve(op);
            var late := q.perMinute > 0 && Grants(l, IDLE_WORLD, trace, uid, op, now / MINUTE) >= q.perMinute;
            var crowded := q.perUserConcurrent > 0 && w.permits[(op, uid)] >= q.perUserConcurrent;
            var full := l.global > 0 && |w.permits| >= l.global;
            var a := Acquire(l, w.registry, uid, op, now).0;
            && (a.RateLimit? <==> late)
            && (a.ConcurrentLimit? <==> crowded && !late)
            && (a.GlobalBusy? <==> full && !crowded && !late)
            && (a.Granted? <==> !full && !crowded && !late)
  {
    assert BucketTotals(IDLE_WORLD.registry.buckets) == map[];
    RunKeepsCounted(l, IDLE_WORLD, trace);
    EarlierMinute(LastClock(trace, 0), now);
    GrantsAreCounted(l, IDLE_WORLD, trace, uid, op, now / MINUTE, 0);
    var w := Run(l, IDLE_WORLD, trace, true);
    assert Concurrent(w.registry.buckets, op, uid) == w.permits[(op, uid)];
    hide Run, Grants, Concurrent, Acquire;
    DecidedOnCounters(l, w.registry, uid, op, now);
  }

  /** Every acquire, granted or not, marks its user as seen now, in this minute's window, and
      touches no other user. */
  lemma AcquireTouches(l: Limits, r: Registry, uid: Uid, op: Op, now: nat)
    ensures var after := Acquire(l, r, uid, op, now).1.buckets;
            && after.Keys == r.buckets.Keys + {op} && uid in after[op].users
            && after[op].users[uid].lastSeen == now && after[op].users[uid].window == now / MINUTE
            && (forall k :: k in r.buckets && k != op ==> after[k] == r.buckets[k])
            && (forall k :: k != uid ==> (k in after[op].users <==> op in r.buckets && k in r.buckets[op].users))
            && (forall k :: k != uid && op in r.buckets && k in r.buckets[op].users ==> after[op].users[k] == r.buckets[op].users[k])
  {
    hide Decide;
  }

  /** A janitor pass removes exactly the users without open slots that were not seen for more
      than thirty minutes, and leaves every counter as it is. */
  lemma JanitorRemovesExactly(r: Registry, now: nat, op: Op, uid: Uid)
    requires op in r.buckets
    ensures var after := Janitor(r, now);
            && after.inUse == r.inUse && after.buckets.Keys == r.buckets.Keys && after.buckets[op].quota == r.buckets[op].quota
            && (uid in after.buckets[op].users <==>
                  && uid in r.buckets[op].users
                  && (r.buckets[op].users[uid].concurrent > 0 || now - r.buckets[op].users[uid].lastSeen <= 30 * 60 * SECOND))
            && (uid in after.buckets[op].users ==> after.buckets[op].users[uid] == r.buckets[op].users[uid])
  {
  }

  lemma NextWindowReached(now: nat, later: nat)
    requires now <= later
    ensures var next := (now / MINUTE + 1) * MINUTE;
            (later + RetryAfter(RateLimit, now, later) * SECOND) / MINUTE == now / MINUTE <==>
              next - later > SECOND && (next - later) % SECOND != 0
  {
    var next := (now / MINUTE + 1) * MINUTE;
    var back := later + RetryAfter(RateLimit, now, later) * SECOND;
    assert back / MINUTE == now / MINUTE <==> back < next;
    if next - later >= SECOND {
      assert next - later == ((next - later) / SECOND) * SECOND + (next - later) % SECOND;
    }
  }

  /** A client refused for its rate that returns after the advertised seconds, with nothing in
      between, is refused for its rate again if and only if more than a second was left of the
      window and not a whole number of seconds: the truncation sends it back too early. */
  lemma RetryAfterExactly(l: Limits, r: Registry, uid: Uid, op: Op, now: nat, later: nat)
    requires Acquire(l, r, uid, op, now).0.RateLimit? && now <= later
    ensures var next := (now / MINUTE + 1) * MINUTE;
            var back := later + RetryAfter(RateLimit, now, later) * SECOND;
            Acquire(l, Acquire(l, r, uid, op, now).1, uid, op, back).0.RateLimit? <==>
              next - later > SECOND && (next - later) % SECOND != 0
  {
    NextWindowReached(now, later);
    hide RetryAfter;
  }

  /** Half a second past a whole one: refused again, in the same minute. */
  lemma RetryAfterTooShort()
    ensures var now := 30 * SECOND + SECOND / 2;
            var back := now + RetryAfter(RateLimit, now, now) * SECOND;
            back / MINUTE == now / MINUTE
  {
  }

  // ---------------------------------------------------- the janitor is invisible

  /** The swept registry and the one that keeps everybody agree, except that the latter
      still has idle users whose window is over. */
  ghost predicate Mirrors(swept: Buckets, full: Buckets, now: nat) {
    && swept.Keys == full.Keys
    && forall op :: op in full ==>
         && swept[op].quota == full[op].quota
         && swept[op].users.Keys <= full[op].users.Keys
         && forall uid :: uid in full[op].users ==>
              if uid in swept[op].users then swept[op].users[uid] == full[op].users[uid]
              else full[op].users[uid].concurrent == 0 && full[op].users[uid].window < now / MINUTE
  }

  lemma MirrorsLater(swept: Buckets, full: Buckets, from: nat, now: nat)
    requires Mirrors(swept, full, from) && from <= now
    ensures Mirrors(swept, full, now)
  {
    EarlierMinute(from, now);
  }

  lemma AskMirrors(l: Limits, r: Registry, full: Registry, uid: Uid, op: Op, now: nat)
    requires Mirrors(r.buckets, full.buckets, now) && r.inUse == full.inUse
    ensures Acquire(l, r, uid, op, now).0 == Acquire(l, full, uid, op, now).0
    ensures Mirrors(Acquire(l, r, uid, op, now).1.buckets, Acquire(l, full, uid, op, now).1.buckets, now)
    ensures Acquire(l, r, uid, op, now).1.inUse == Acquire(l, full, uid, op, now).1.inUse
  {
    var u := Current(BucketOf(l, r, op), uid, now).(lastSeen := now);
    assert u == Current(BucketOf(l, full, op), uid, now).(lastSeen := now);
    hide Current, Decide;
    assert BucketOf(l, r, op).quota == BucketOf(l, full, op).quota;
    assert Decide(l, r, BucketOf(l, r, op).quota, u) == Decide(l, full, BucketOf(l, full, op).quota, u) by {
      SameDecision(l, r, full, BucketOf(l, r, op).quota, u);
    }
  }

  lemma SameDecision(l: Limits, r: Registry, full: Registry, q: Quota, u: User)
    requires r.inUse == full.inUse
    ensures Decide(l, r, q, u) == Decide(l, full, q, u)
  {
  }

  lemma TickMirrors(r: Registry, full: Registry, now: nat)
    requires Mirrors(r.buckets, full.buckets, now) && Dated(full.buckets, now)
    ensures Mirrors(Janitor(r, now).buckets, full.buckets, now)
  {
    forall op, uid | op in r.buckets && uid in r.buckets[op].users && Expired(r.buckets[op].users[uid], now)
      ensures r.buckets[op].users[uid].window < now / MINUTE
    {
      EarlierMinute(r.buckets[op].users[uid].lastSeen, now);
    }
  }

  lemma ReturnMirrors(r: Registry, full: Registry, uid: Uid, op: Op, now: nat)
    requires Mirrors(r.buckets, full.buckets, now) && r.inUse == full.inUse
    ensures Mirrors(Release(r, uid, op).buckets, Release(full, uid, op).buckets, now)
    ensures Release(r, uid, op).inUse == Release(full, uid, op).inUse
  {
  }

  lemma {:induction false} AnswersAlike(l: Limits, w: World, full: World, trace: seq<Event>, now: nat)
    requires Mirrors(w.registry.buckets, full.registry.buckets, now) && Dated(full.registry.buckets, now)
    requires w.registry.inUse == full.registry.inUse && w.permits == full.permits && Ordered(trace, now)
    ensures Answers(l, w, trace, true) == Answers(l, full, trace, false)
    decreases |trace|
  {
    if trace != [] {
      var e := trace[0];
      MirrorsLater(w.registry.buckets, full.registry.buckets, now, Clock(e, now));
      match e {
        case Ask(uid, op, t) => AskMirrors(l, w.registry, full.registry, uid, op, t);
        case Return(uid, op) => ReturnMirrors(w.registry, full.registry, uid, op, now);
        case Tick(t) => TickMirrors(w.registry, full.registry, t);
      }
      StepKeepsDated(l, full, e, false, now);
      AnswersAlike(l, Step(l, w, e, true), Step(l, full, e, false), trace[1..], Clock(e, now));
    }
  }

  /** Janitor eviction never changes an answer: every ordered history is answered as by a
      registry that keeps every user. */
  lemma JanitorIsInvisible(l: Limits, trace: seq<Event>)
    requires Ordered(trace, 0)
    ensures Answers(l, IDLE_WORLD, trace, true) == Answers(l, IDLE_WORLD, trace, false)
  {
    AnswersAlike(l, IDLE_WORLD, IDLE_WORLD, trace, 0);
  }
}
