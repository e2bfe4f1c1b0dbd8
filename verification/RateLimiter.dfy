/** Token buckets with lazy refill, and the map of buckets with idle eviction.
    The clock is an argument; a run passes non-decreasing readings. */
module RateLimiter {
  import opened Sums

  datatype Settings = Settings(rate: real, capacity: real)

  ghost predicate Good(cfg: Settings) {
    cfg.rate > 0.0 && cfg.capacity >= 0.0
  }

  const IDLE_SECONDS := 600.0

  // ---- one bucket -----------------------------------------------------------------------

  datatype Bucket = Bucket(tokens: real, last: real)

  ghost predicate Level(cfg: Settings, b: Bucket) {
    0.0 <= b.tokens <= cfg.capacity
  }

  function Refilled(cfg: Settings, b: Bucket, now: real): real {
    Min(cfg.capacity, b.tokens + Mul(now - b.last, cfg.rate))
  }

  function Consume(cfg: Settings, b: Bucket, now: real, n: real): (r: (Bucket, bool)) {
    var level := Refilled(cfg, b, now);
    if level >= n then (Bucket(level - n, now), true) else (Bucket(level, now), false)
  }

  function WaitTime(cfg: Settings, b: Bucket, now: real, n: real): real
    requires cfg.rate != 0.0
  {
    var level := Refilled(cfg, b, now);
    if level >= n then 0.0 else (n - level) / cfg.rate
  }

  class TokenBucket {
    const cfg: Settings
    var tokens: real
    var lastUpdate: real

    ghost function Abs(): Bucket
      reads this
    {
      Bucket(tokens, lastUpdate)
    }

    constructor (settings: Settings, initial: real, now: real)
      ensures cfg == settings && Abs() == Bucket(initial, now)
    {
      cfg := settings;
      tokens := initial;
      lastUpdate := now;
    }

    method Take(n: real, now: real) returns (granted: bool)
      modifies this
      ensures (Abs(), granted) == Consume(cfg, old(Abs()), now, n)
    {
      var elapsed := now - lastUpdate;
      tokens := Min(cfg.capacity, tokens + Mul(elapsed, cfg.rate));
      lastUpdate := now;
      if tokens >= n {
        tokens := tokens - n;
        return true;
      }
      return false;
    }

    method GetWaitTime(n: real, now: real) returns (wait: real)
      requires cfg.rate != 0.0
      ensures wait == WaitTime(cfg, Abs(), now, n)
    {
      var elapsed := now - lastUpdate;
      var current := Min(cfg.capacity, tokens + Mul(elapsed, cfg.rate));
      if current >= n { return 0.0; }
      wait := (n - current) / cfg.rate;
    }
  }

  /** `get_wait_time` is exact: from `now` on, with nobody else consuming, a request is
      granted after `w` seconds exactly when it fits the bucket at all and `w` is at
      least the reported wait. For a request above capacity no wait helps. */
  lemma {:induction false} WaitTimeExact(cfg: Settings, b: Bucket, now: real, n: real, w: real)
    requires Good(cfg) && w >= 0.0
    ensures Consume(cfg, b, now + w, n).1 <==> n <= cfg.capacity && w >= WaitTime(cfg, b, now, n)
  {
    hide Mul;
    var raw, wait := b.tokens + Mul(now - b.last, cfg.rate), WaitTime(cfg, b, now, n);
    assert now + w - b.last == (now - b.last) + w;
    MulSplit(now - b.last, w, cfg.rate);
    MulOrder(0.0, w, cfg.rate);
    if n <= cfg.capacity && raw < n {
      DivMul(n - raw, cfg.rate);
      MulOrder(wait, w, cfg.rate);
    }
  }

  // ---- what a window grants ----------------------------------------------------------------

  datatype Request = Request(time: real, amount: real)

  ghost predicate Ordered(from: real, requests: seq<Request>) {
    && (forall i | 0 <= i < |requests| :: from <= requests[i].time && requests[i].amount >= 0.0)
    && (forall i, j | 0 <= i < j < |requests| :: requests[i].time <= requests[j].time)
  }

  /** The amounts granted at times in `[s, t]`. */
  function GrantedIn(cfg: Settings, b: Bucket, requests: seq<Request>, s: real, t: real): real
    decreases |requests|
  {
    if requests == [] then 0.0
    else
      var r := requests[0];
      var (b', granted) := Consume(cfg, b, r.time, r.amount);
      (if granted && s <= r.time <= t then r.amount else 0.0) + GrantedIn(cfg, b', requests[1..], s, t)
  }

  lemma {:induction false} NothingAfter(cfg: Settings, b: Bucket, requests: seq<Request>, s: real, t: real)
    requires forall i | 0 <= i < |requests| :: requests[i].time > t
    ensures GrantedIn(cfg, b, requests, s, t) == 0.0
    decreases |requests|
  {
    if requests != [] {
      NothingAfter(cfg, Consume(cfg, b, requests[0].time, requests[0].amount).0, requests[1..], s, t);
    }
  }

  lemma {:induction false} ConsumeLevel(cfg: Settings, b: Bucket, now: real, n: real)
    requires Good(cfg) && Level(cfg, b) && b.last <= now && n >= 0.0
    ensures Level(cfg, Consume(cfg, b, now, n).0)
    ensures Refilled(cfg, b, now) <= b.tokens + Mul(now - b.last, cfg.rate)
  {
    hide Mul;
    MulOrder(0.0, now - b.last, cfg.rate);
  }

  /** What is left to grant inside the window, given the bucket. */
  ghost function Ahead(cfg: Settings, b: Bucket, s: real, t: real): real {
    if b.last >= s then b.tokens + Mul(t - b.last, cfg.rate) else cfg.capacity + Mul(t - s, cfg.rate)
  }

  lemma {:induction false} GrantedAtMost(cfg: Settings, b: Bucket, requests: seq<Request>, s: real, t: real)
    requires Good(cfg) && Level(cfg, b) && Ordered(b.last, requests) && s <= t && b.last <= t
    ensures GrantedIn(cfg, b, requests, s, t) <= Ahead(cfg, b, s, t)
    decreases |requests|
  {
    hide Mul;
    MulOrder(0.0, t - b.last, cfg.rate);
    MulOrder(0.0, t - s, cfg.rate);
    if requests != [] {
      var r := requests[0];
      var b' := Consume(cfg, b, r.time, r.amount).0;
      ConsumeLevel(cfg, b, r.time, r.amount);
      if r.time > t {
        NothingAfter(cfg, b', requests[1..], s, t);
      } else {
        GrantedAtMost(cfg, b', requests[1..], s, t);
        MulSplit(t - r.time, r.time - b.last, cfg.rate);
        MulSplit(t - r.time, r.time - s, cfg.rate);
        if r.time >= s { MulOrder(0.0, r.time - s, cfg.rate); }
      }
    }
  }

  /** Over any run with a non-decreasing clock, whatever happened before, one bucket
      grants at most `capacity + rate * (t - s)` inside any window `[s, t]`. */
  lemma {:induction false} WindowBound(cfg: Settings, b: Bucket, requests: seq<Request>, s: real, t: real)
    requires Good(cfg) && Level(cfg, b) && Ordered(b.last, requests) && s <= t
    ensures GrantedIn(cfg, b, requests, s, t) <= cfg.capacity + Mul(t - s, cfg.rate)
  {
    hide Mul;
    if b.last > t {
      NothingAfter(cfg, b, requests, s, t);
      MulOrder(0.0, t - s, cfg.rate);
    } else {
      GrantedAtMost(cfg, b, requests, s, t);
      MulOrder(t - b.last, t - s, cfg.rate);
    }
  }

  // ---- the map of buckets -----------------------------------------------------------------------

  type Buckets = map<string, Bucket>

  datatype Op = Allow(client: string, time: real) | Cleanup(time: real)

  function BucketOf(cfg: Settings, m: Buckets, client: string, now: real): Bucket {
    if client in m then m[client] else Bucket(cfg.capacity, now)
  }

  /** The bucket part of `is_allowed`: create a full bucket on first sight, take one. */
  function AllowStep(cfg: Settings, m: Buckets, client: string, now: real): (Buckets, bool) {
    var (b, granted) := Consume(cfg, BucketOf(cfg, m, client, now), now, 1.0);
    (m[client := b], granted)
  }

  /** The bucket part of `_cleanup`: forget what has been idle too long. */
  function CleanupStep(m: Buckets, now: real): Buckets {
    map c | c in m && !(m[c].last < now - IDLE_SECONDS) :: m[c]
  }

  /** The answers of a run; `evict` says whether cleanups do anything. */
  function Answers(cfg: Settings, m: Buckets, ops: seq<Op>, evict: bool): seq<bool>
    decreases |ops|
  {
    if ops == [] then []
    else match ops[0]
      case Allow(c, t) =>
        var (m', granted) := AllowStep(cfg, m, c, t);
        [granted] + Answers(cfg, m', ops[1..], evict)
      case Cleanup(t) => Answers(cfg, if evict then CleanupStep(m, t) else m, ops[1..], evict)
  }

  ghost predicate InOrder(from: real, ops: seq<Op>) {
    && (forall i | 0 <= i < |ops| :: from <= ops[i].time)
    && (forall i, j | 0 <= i < j < |ops| :: ops[i].time <= ops[j].time)
  }

  class RateLimiter {
    const cfg: Settings
    var buckets: map<string, TokenBucket>

    ghost predicate Valid()
      reads this, buckets.Values
    {
      && (forall c | c in buckets :: buckets[c].cfg == cfg)
      && (forall c, d | c in buckets && d in buckets && c != d :: buckets[c] != buckets[d])
    }

    ghost function Abs(): Buckets
      reads this, buckets.Values
    {
      map c | c in buckets :: buckets[c].Abs()
    }

    constructor (settings: Settings)
      ensures Valid() && cfg == settings && Abs() == map[]
    {
      cfg := settings;
      buckets := map[];
      new;
      assert Abs() == map[];
    }

    method TakeFor(client: string, now: real) returns (granted: bool)
      requires Valid()
      modifies this, buckets.Values
      ensures Valid()
      ensures (Abs(), granted) == AllowStep(cfg, old(Abs()), client, now)
      ensures fresh(buckets.Values - old(buckets.Values))
    {
      if client !in buckets {
        var bucket := new TokenBucket(cfg, cfg.capacity, now);
        buckets := buckets[client := bucket];
      }
      assert buckets[client].Abs() == BucketOf(cfg, old(Abs()), client, now);
      granted := buckets[client].Take(1.0, now);
      assert Abs() == AllowStep(cfg, old(Abs()), client, now).0;
    }

    method CleanupIdle(now: real)
      requires Valid()
      modifies this
      ensures Valid() && Abs() == CleanupStep(old(Abs()), now)
      ensures buckets.Values <= old(buckets.Values)
      ensures forall c ::
        c in Abs() <==> c in old(Abs()) && now - old(Abs())[c].last <= 600.0
      ensures forall c | c in Abs() :: Abs()[c] == old(Abs())[c]
    {
      buckets := map c | c in buckets && !(buckets[c].lastUpdate < now - IDLE_SECONDS) :: buckets[c];
    }
  }

  // ---- eviction is invisible, exactly when ------------------------------------------------------

  /** A forgotten bucket would by now be full again. */
  ghost predicate FullBy(cfg: Settings, b: Bucket, now: real) {
    b.tokens + Mul(now - b.last, cfg.rate) >= cfg.capacity
  }

  /** The evicting map `m` and the map `r` that forgets nothing. */
  ghost predicate Alike(cfg: Settings, m: Buckets, r: Buckets, now: real) {
    && (forall c | c in m :: c in r && r[c] == m[c])
    && (forall c | c in r && c !in m :: FullBy(cfg, r[c], now))
    && (forall c | c in r :: Level(cfg, r[c]) && r[c].last <= now)
  }

  /** Buckets that agree, or a fresh one against an old one that is full again, answer
      alike and end up alike. */
  lemma {:induction false} ConsumeAlike(cfg: Settings, b: Bucket, time: real, n: real)
    requires Good(cfg) && FullBy(cfg, b, time)
    ensures Consume(cfg, Bucket(cfg.capacity, time), time, n) == Consume(cfg, b, time, n)
  {
    hide Mul;
    MulOrder(0.0, 0.0, cfg.rate);
    assert time - time == 0.0;
  }

  lemma {:induction false} FullLater(cfg: Settings, b: Bucket, now: real, time: real)
    requires Good(cfg) && FullBy(cfg, b, now) && now <= time
    ensures FullBy(cfg, b, time)
  {
    hide Mul;
    MulOrder(now - b.last, time - b.last, cfg.rate);
  }

  lemma {:induction false} AllowAlike(cfg: Settings, m: Buckets, r: Buckets, now: real, client: string, time: real)
    requires Good(cfg) && Alike(cfg, m, r, now) && now <= time
    ensures AllowStep(cfg, m, client, time).1 == AllowStep(cfg, r, client, time).1
    ensures Alike(cfg, AllowStep(cfg, m, client, time).0, AllowStep(cfg, r, client, time).0, time)
  {
    hide Refilled, FullBy;
    var b, b' := BucketOf(cfg, m, client, time), BucketOf(cfg, r, client, time);
    assert Consume(cfg, b, time, 1.0) == Consume(cfg, b', time, 1.0) by {
      if client in r && client !in m {
        FullLater(cfg, r[client], now, time);
        ConsumeAlike(cfg, r[client], time, 1.0);
      }
    }
    ConsumeLevel(cfg, b', time, 1.0);
    forall c | c in r && c !in m ensures FullBy(cfg, r[c], time) {
      FullLater(cfg, r[c], now, time);
    }
  }

  lemma {:induction false} CleanupAlike(cfg: Settings, m: Buckets, r: Buckets, now: real, time: real)
    requires Good(cfg) && cfg.capacity <= Mul(IDLE_SECONDS, cfg.rate) && Alike(cfg, m, r, now) && now <= time
    ensures Alike(cfg, CleanupStep(m, time), r, time)
  {
    hide Mul;
    forall c | c in r ensures Mul(time - r[c].last, cfg.rate) >= Mul(now - r[c].last, cfg.rate)
      ensures r[c].last < time - IDLE_SECONDS ==> FullBy(cfg, r[c], time)
    {
      MulOrder(now - r[c].last, time - r[c].last, cfg.rate);
      MulOrder(IDLE_SECONDS, time - r[c].last, cfg.rate);
    }
  }

  lemma {:induction false} SameAnswers(cfg: Settings, m: Buckets, r: Buckets, now: real, ops: seq<Op>)
    requires Good(cfg) && cfg.capacity <= Mul(IDLE_SECONDS, cfg.rate)
    requires Alike(cfg, m, r, now) && InOrder(now, ops)
    ensures Answers(cfg, m, ops, true) == Answers(cfg, r, ops, false)
    decreases |ops|
  {
    hide Alike, AllowStep, CleanupStep, Mul;
    if ops != [] {
      match ops[0]
      case Allow(c, t) =>
        AllowAlike(cfg, m, r, now, c, t);
        SameAnswers(cfg, AllowStep(cfg, m, c, t).0, AllowStep(cfg, r, c, t).0, t, ops[1..]);
      case Cleanup(t) =>
        CleanupAlike(cfg, m, r, now, t);
        SameAnswers(cfg, CleanupStep(m, t), r, t, ops[1..]);
    }
  }

  /** A bucket that cannot hold one token never grants one. */
  lemma {:induction false} NeverGrants(cfg: Settings, m: Buckets, ops: seq<Op>, evict: bool)
    requires cfg.capacity < 1.0
    ensures forall i | 0 <= i < |Answers(cfg, m, ops, evict)| :: !Answers(cfg, m, ops, evict)[i]
    ensures |Answers(cfg, m, ops, evict)| == Allows(ops)
    decreases |ops|
  {
    if ops != [] {
      match ops[0]
      case Allow(c, t) => NeverGrants(cfg, AllowStep(cfg, m, c, t).0, ops[1..], evict);
      case Cleanup(t) => NeverGrants(cfg, if evict then CleanupStep(m, t) else m, ops[1..], evict);
    }
  }

  function Allows(ops: seq<Op>): nat {
    if ops == [] then 0 else (if ops[0].Allow? then 1 else 0) + Allows(ops[1..])
  }

  /** Whether eviction can ever change an answer. */
  ghost predicate EvictionInvisible(cfg: Settings) {
    forall ops | InOrder(0.0, ops) :: Answers(cfg, map[], ops, true) == Answers(cfg, map[], ops, false)
  }

  // ---- a run that shows the difference -----------------------------------------------------------

  /** `j` times the same operation, then the rest. */
  function Times(op: Op, j: nat, rest: seq<Op>): seq<Op> {
    if j == 0 then rest else [op] + Times(op, j - 1, rest)
  }

  ghost predicate AllGranted(cfg: Settings, m: Buckets, ops: seq<Op>, evict: bool) {
    forall i | 0 <= i < |Answers(cfg, m, ops, evict)| :: Answers(cfg, m, ops, evict)[i]
  }

  lemma {:induction false} TimesInOrder(from: real, op: Op, j: nat, rest: seq<Op>)
    requires from <= op.time && InOrder(op.time, rest)
    ensures InOrder(from, Times(op, j, rest))
    decreases j
  {
    if j > 0 { TimesInOrder(op.time, op, j - 1, rest); }
  }

  lemma {:induction false} AllGrantedStep(cfg: Settings, m: Buckets, c: string, t: real, rest: seq<Op>, evict: bool)
    ensures AllGranted(cfg, m, [Allow(c, t)] + rest, evict)
      <==> AllowStep(cfg, m, c, t).1 && AllGranted(cfg, AllowStep(cfg, m, c, t).0, rest, evict)
  {
    hide AllowStep;
    assert ([Allow(c, t)] + rest)[1..] == rest;
    var (m', granted) := AllowStep(cfg, m, c, t);
    var all, tail := Answers(cfg, m, [Allow(c, t)] + rest, evict), Answers(cfg, m', rest, evict);
    assert all == [granted] + tail;
    assert all[0] == granted;
    assert forall i | 0 <= i < |tail| :: tail[i] == all[i + 1];
    assert forall i | 0 < i < |all| :: all[i] == tail[i - 1];
  }

  /** A burst of `j` requests is granted in full exactly when `j` tokens are there. */
  lemma {:induction false} Burst(cfg: Settings, m: Buckets, c: string, t: real, j: nat, rest: seq<Op>, evict: bool,
      level: real)
    requires Good(cfg) && j > 0 && level == Refilled(cfg, BucketOf(cfg, m, c, t), t)
    ensures AllGranted(cfg, m, Times(Allow(c, t), j, rest), evict)
      <==> level >= j as real && AllGranted(cfg, m[c := Bucket(level - j as real, t)], rest, evict)
    decreases j
  {
    hide AllGranted, Mul;
    AllGrantedStep(cfg, m, c, t, Times(Allow(c, t), j - 1, rest), evict);
    if level >= 1.0 {
      var m1 := m[c := Bucket(level - 1.0, t)];
      assert AllowStep(cfg, m, c, t) == (m1, true);
      if j > 1 {
        assert t - t == 0.0;
        MulOrder(0.0, 0.0, cfg.rate);
        Burst(cfg, m1, c, t, j - 1, rest, evict, level - 1.0);
        assert m1[c := Bucket(level - j as real, t)] == m[c := Bucket(level - j as real, t)];
      } else {
        assert Times(Allow(c, t), 0, rest) == rest;
      }
    }
  }

  /** The times of the run: when a token is back, when the idle bucket has been dropped
      though it is not full yet, and when a token is back again. */
  lemma {:induction false} Instants(cfg: Settings, f: real) returns (t1: real, t2: real, t3: real)
    requires Good(cfg) && cfg.capacity > Mul(IDLE_SECONDS, cfg.rate) && 0.0 <= f < 1.0
    ensures 0.0 <= t1 && t1 + IDLE_SECONDS < t2 <= t3
    ensures Mul(t1, cfg.rate) == 1.0 - f == Mul(t3 - t2, cfg.rate)
    ensures 0.0 <= Mul(t2 - t1, cfg.rate) < cfg.capacity
  {
    hide Mul;
    t1 := (1.0 - f) / cfg.rate;
    var half := (cfg.capacity - Mul(IDLE_SECONDS, cfg.rate)) / 2.0;
    var delta := half / cfg.rate;
    t2 := t1 + IDLE_SECONDS + delta;
    t3 := t2 + t1;
    DivMul(1.0 - f, cfg.rate);
    DivMul(half, cfg.rate);
    MulOrder(0.0, t1, cfg.rate);
    MulOrder(delta, 0.0, cfg.rate);
    MulOrder(0.0, IDLE_SECONDS, cfg.rate);
    assert t2 - t1 == IDLE_SECONDS + delta;
    MulSplit(IDLE_SECONDS, delta, cfg.rate);
    assert t3 - t2 == t1;
  }

  function Evidence(k: nat, t1: real, t2: real, t3: real): seq<Op> {
    var last := Times(Allow("c", t2), k, Times(Allow("c", t3), 1, []));
    Times(Allow("c", 0.0), k, Times(Allow("c", t1), 1, [Cleanup(t2)] + last))
  }

  lemma EvidenceInOrder(k: nat, t1: real, t2: real, t3: real)
    requires 0.0 <= t1 <= t2 <= t3
    ensures InOrder(0.0, Evidence(k, t1, t2, t3))
  {
    var tail := Times(Allow("c", t3), 1, []);
    TimesInOrder(t2, Allow("c", t3), 1, []);
    TimesInOrder(t2, Allow("c", t2), k, tail);
    var mid := [Cleanup(t2)] + Times(Allow("c", t2), k, tail);
    assert InOrder(t1, mid);
    TimesInOrder(t1, Allow("c", t1), 1, mid);
    TimesInOrder(0.0, Allow("c", 0.0), k, Times(Allow("c", t1), 1, mid));
  }

  /** After the drop, the evicting limiter grants the whole second burst and the other
      one cannot. */
  lemma {:induction false} SecondBurst(cfg: Settings, m: Buckets, k: nat, f: real, t2: real, t3: real, evict: bool,
      level: real)
    requires Good(cfg) && k > 0 && 0.0 <= f < 1.0 && cfg.capacity == k as real + f
    requires Mul(t3 - t2, cfg.rate) == 1.0 - f
    requires level == Refilled(cfg, BucketOf(cfg, m, "c", t2), t2)
    ensures AllGranted(cfg, m, Times(Allow("c", t2), k, Times(Allow("c", t3), 1, [])), evict) <==> level == cfg.capacity
  {
    hide Mul, AllGranted;
    var tail := Times(Allow("c", t3), 1, []);
    Burst(cfg, m, "c", t2, k, tail, evict, level);
    if level >= k as real {
      var m1 := m["c" := Bucket(level - k as real, t2)];
      var last := Refilled(cfg, m1["c"], t3);
      Burst(cfg, m1, "c", t3, 1, [], evict, last);
      NothingAsked(cfg, m1["c" := Bucket(last - 1.0, t3)], evict);
    }
  }

  lemma {:induction false} NothingAsked(cfg: Settings, m: Buckets, evict: bool)
    ensures AllGranted(cfg, m, [], evict)
  {
  }

  lemma {:induction false} CleanupGranted(cfg: Settings, m: Buckets, t: real, rest: seq<Op>, evict: bool)
    ensures AllGranted(cfg, m, [Cleanup(t)] + rest, evict)
      <==> AllGranted(cfg, if evict then CleanupStep(m, t) else m, rest, evict)
  {
    assert ([Cleanup(t)] + rest)[1..] == rest;
    assert Answers(cfg, m, [Cleanup(t)] + rest, evict)
      == Answers(cfg, if evict then CleanupStep(m, t) else m, rest, evict);
  }

  lemma {:induction false} EvidenceGranted(cfg: Settings, k: nat, f: real, t1: real, t2: real, t3: real, evict: bool)
    requires Good(cfg) && k > 0 && 0.0 <= f < 1.0 && cfg.capacity == k as real + f
    requires t1 + IDLE_SECONDS < t2
    requires Mul(t1, cfg.rate) == 1.0 - f == Mul(t3 - t2, cfg.rate)
    requires 0.0 <= Mul(t2 - t1, cfg.rate) < cfg.capacity
    ensures AllGranted(cfg, map[], Evidence(k, t1, t2, t3), evict) <==> evict
  {
    hide Mul, AllGranted;
    MulOrder(0.0, 0.0, cfg.rate);
    assert t1 - 0.0 == t1 && 0.0 - 0.0 == 0.0 && t2 - t2 == 0.0;
    var last := Times(Allow("c", t2), k, Times(Allow("c", t3), 1, []));
    var mid := [Cleanup(t2)] + last;
    Burst(cfg, map[], "c", 0.0, k, Times(Allow("c", t1), 1, mid), evict, cfg.capacity);
    var m1: Buckets := map[]["c" := Bucket(f, 0.0)];
    Burst(cfg, m1, "c", t1, 1, mid, evict, 1.0);
    var m2: Buckets := m1["c" := Bucket(0.0, t1)];
    CleanupGranted(cfg, m2, t2, last, evict);
    var m3 := if evict then CleanupStep(m2, t2) else m2;
    SecondBurst(cfg, m3, k, f, t2, t3, evict, Refilled(cfg, BucketOf(cfg, m3, "c", t2), t2));
  }

  /** Dropping idle buckets is invisible for every run exactly when 600 seconds refill a
      bucket, or when the bucket is too small to grant anything at all. */
  lemma {:induction false} EvictionInvisibleIff(cfg: Settings)
    requires Good(cfg)
    ensures EvictionInvisible(cfg) <==> cfg.capacity < 1.0 || cfg.capacity <= Mul(600.0, cfg.rate)
  {
    if cfg.capacity < 1.0 {
      forall ops | InOrder(0.0, ops) ensures Answers(cfg, map[], ops, true) == Answers(cfg, map[], ops, false) {
        NeverGrants(cfg, map[], ops, true);
        NeverGrants(cfg, map[], ops, false);
      }
    } else if cfg.capacity <= Mul(IDLE_SECONDS, cfg.rate) {
      forall ops | InOrder(0.0, ops) ensures Answers(cfg, map[], ops, true) == Answers(cfg, map[], ops, false) {
        SameAnswers(cfg, map[], map[], 0.0, ops);
      }
    } else {
      var k := cfg.capacity.Floor;
      var f := cfg.capacity - k as real;
      var t1, t2, t3 := Instants(cfg, f);
      EvidenceInOrder(k, t1, t2, t3);
      EvidenceGranted(cfg, k, f, t1, t2, t3, true);
      EvidenceGranted(cfg, k, f, t1, t2, t3, false);
    }
  }
}
