/** Earning multipliers and the daily cap. Clock readings are arguments; amounts are exact
    reals, and the rounding of reported figures is left to the caller. */
module CreditMultipliers {
  import opened Options
  import opened Sums

  const DAY := 86400.0
  const EARLY_SECONDS := 15552000.0

  datatype Node = Node(surgeOptIn: bool, earlyAdopter: bool, earlyStart: real, completed: nat, failed: nat,
                       uptime: real, earnings: real, windowStart: real)

  datatype Engine = Engine(cap: real, launch: real, nodes: map<string, Node>, utilization: real,
                           surgeActive: bool, surgeExpires: real)

  /** The readings of the clock that one calculation makes. */
  datatype Readings = Readings(created: real, early: real, surge: real, now: real)

  function StateOf(e: Engine, node: string, now: real): Node {
    if node in e.nodes then e.nodes[node] else Node(false, true, e.launch, 0, 0, 0.0, 0.0, now)
  }

  // ---- multipliers ------------------------------------------------------------------------

  predicate IsReliable(n: Node) {
    var total := n.completed + n.failed;
    total >= 10 && n.completed as real / total as real >= 0.99
  }

  predicate HasHighErrorRate(n: Node) {
    var total := n.completed + n.failed;
    total >= 10 && n.failed as real / total as real > 0.02
  }

  /** The reliability bonus and the error penalty never meet. */
  lemma {:induction false} BonusExcludesPenalty(n: Node)
    ensures !(IsReliable(n) && HasHighErrorRate(n))
  {
    if n.completed + n.failed >= 10 {
      Shares(n.completed as real, n.failed as real, (n.completed + n.failed) as real);
    }
  }

  lemma Shares(x: real, y: real, t: real)
    requires t > 0.0 && x + y == t
    ensures x / t + y / t == 1.0
  {
    var a, b := x / t, y / t;
    DivMul(x, t);
    DivMul(y, t);
    MulSplit(a, b, t);
    assert Mul(1.0, t) == t;
    hide Mul;
    MulOrder(a + b, 1.0, t);
    MulOrder(1.0, a + b, t);
  }

  /** Both rates in whole tasks: the bonus needs at least 99 of 100 to succeed, the penalty
      more than 2 of 100 to fail, either over at least ten, and uptime plays no part. */
  lemma RatesExact(n: Node)
    ensures IsReliable(n) <==> n.completed + n.failed >= 10 && 100 * n.failed <= n.completed + n.failed
    ensures HasHighErrorRate(n) <==> n.completed + n.failed >= 10 && 50 * n.failed > n.completed + n.failed
  {
    if n.completed + n.failed >= 10 {
      var c, f, t := n.completed as real, n.failed as real, (n.completed + n.failed) as real;
      DivMul(c, t);
      DivMul(f, t);
      MulOrder(0.99, c / t, t);
      MulOrder(f / t, 0.02, t);
    }
  }

  /** The early-adopter status is stored and never read: whatever it is set to, and set
      back to, multipliers look at the start alone, which is written only on setting it. */
  lemma EarlyStatusUnread(e: Engine, node: string, on: bool, at: real, t: Readings)
    ensures var e' := Next(e, EarlyAdopter(node, on, t.created, at));
      var n, n' := StateOf(e, node, t.created), StateOf(e', node, t.created);
      && n'.earlyAdopter == on
      && (forall status: bool :: Final(e', n'.(earlyAdopter := status), t) == Final(e', n', t))
      && Final(e', n', t) == Final(e, if on then n.(earlyStart := at) else n, t)
  {
    hide IsReliable, HasHighErrorRate, Boosted;
    var n' := StateOf(Next(e, EarlyAdopter(node, on, t.created, at)), node, t.created);
    RatesIgnore(StateOf(e, node, t.created), n');
    forall status: bool ensures Final(e, n'.(earlyAdopter := status), t) == Final(e, n', t) {
      RatesIgnore(n', n'.(earlyAdopter := status));
    }
  }

  lemma RatesIgnore(n: Node, m: Node)
    requires n.completed == m.completed && n.failed == m.failed
    ensures IsReliable(n) == IsReliable(m) && HasHighErrorRate(n) == HasHighErrorRate(m)
  {
  }

  function Boosted(applies: bool, factor: real, x: real): real {
    if applies then x * factor else x
  }

  /** Each factor that applies, in order. */
  function Final(e: Engine, n: Node, t: Readings): real {
    var surgeOptIn := Boosted(n.surgeOptIn, 1.5, 1.0);
    var reliable := Boosted(IsReliable(n), 1.2, surgeOptIn);
    var early := Boosted(t.early - n.earlyStart < EARLY_SECONDS, 1.1, reliable);
    var penalized := Boosted(HasHighErrorRate(n), 0.8, early);
    var demand := Boosted(e.utilization < 0.2, 0.8, penalized);
    Boosted(e.surgeActive && t.surge < e.surgeExpires, 2.0, demand)
  }

  /** The factors in numbers: the opt-in 1.5; at most one of 100 tasks failed 1.2; the first
      180 days 1.1; more than two of 100 failed 0.8; under 20 % utilization 0.8; surge 2. */
  lemma FinalExact(e: Engine, n: Node, t: Readings)
    ensures var total := n.completed + n.failed;
      Final(e, n, t)
        == (if n.surgeOptIn then 1.5 else 1.0)
           * (if total >= 10 && 100 * n.failed <= total then 1.2 else 1.0)
           * (if t.early < n.earlyStart + 15552000.0 then 1.1 else 1.0)
           * (if total >= 10 && 50 * n.failed > total then 0.8 else 1.0)
           * (if e.utilization < 0.2 then 0.8 else 1.0)
           * (if e.surgeActive && t.surge < e.surgeExpires then 2.0 else 1.0)
  {
    RatesExact(n);
    hide IsReliable, HasHighErrorRate;
  }

  /** Whether a node is an early adopter, before anyone sets it, depends on the launch. */
  lemma FreshNode(e: Engine, node: string, now: real)
    requires node !in e.nodes
    ensures var n := StateOf(e, node, now);
      && n.earlyStart == e.launch && n.windowStart == now && n.earnings == 0.0
      && n.completed == 0 && n.failed == 0 && n.uptime == 0.0 && !n.surgeOptIn
  {
  }

  /** A surge lasts as long as it was triggered for, and utilization counts as low below a
      fifth, wherever outside its range it is set. */
  lemma SurgeAndDemand(e: Engine, seconds: real, at: real, level: real, time: real)
    ensures var s := Next(e, Surge(seconds, at)); s.surgeActive && time < s.surgeExpires <==> time < at + seconds
    ensures Next(e, Utilization(level)).utilization < 0.2 <==> level < 0.2
  {
  }

  /** Whatever applies, the final multiplier lies between 0.64 and 3.96. */
  lemma {:induction false} FinalBounds(e: Engine, n: Node, t: Readings)
    ensures 0.64 <= Final(e, n, t) <= 3.96
  {
    hide IsReliable, HasHighErrorRate;
    BonusExcludesPenalty(n);
  }

  /** Both ends are reached. */
  lemma FinalReachesBounds() returns (low: Engine, high: Engine, n: Node, n': Node, t: Readings)
    ensures Final(low, n, t) == 0.64 && Final(high, n', t) == 3.96
  {
    t := Readings(0.0, EARLY_SECONDS, 0.0, 0.0);
    low := Engine(0.0, 0.0, map[], 0.0, false, 0.0);
    high := Engine(0.0, 0.0, map[], 0.5, true, 1.0);
    n := Node(false, true, 0.0, 0, 10, 0.0, 0.0, 0.0);
    n' := Node(true, true, 1.0, 10, 0, 0.0, 0.0, 0.0);
    assert HasHighErrorRate(n) && !IsReliable(n);
    assert IsReliable(n') && !HasHighErrorRate(n');
  }

  // ---- credits ------------------------------------------------------------------------------

  function WithOptIn(n: Node, optIn: Option<bool>): Node {
    if optIn.Some? then n.(surgeOptIn := optIn.value) else n
  }

  function Rolled(n: Node, now: real): Node {
    if now - n.windowStart > DAY then n.(earnings := 0.0, windowStart := now) else n
  }

  /** What is earned before the cap. */
  function Adjusted(e: Engine, n: Node, amount: real, t: Readings): real {
    Mul(amount, Final(e, n, t))
  }

  /** What the cap leaves of it, in the window that `now` falls into. */
  function Capped(e: Engine, n: Node, adjusted: real): real {
    if adjusted > e.cap - n.earnings then e.cap - n.earnings else adjusted
  }

  datatype Receipt = Receipt(granted: real, capped: bool)

  function Credits(e: Engine, node: string, amount: real, optIn: Option<bool>, t: Readings): (Engine, Receipt) {
    var n := WithOptIn(StateOf(e, node, t.created), optIn);
    var adjusted := Adjusted(e, n, amount, t);
    var m := Rolled(n, t.now);
    var granted := Capped(e, m, adjusted);
    (Update(e, node, m.(earnings := m.earnings + granted)), Receipt(granted, adjusted > e.cap - m.earnings))
  }

  /** Earnings within the cap stay there exactly when the amount does not undo more than
      was earned in the window; amounts of zero or more always qualify. */
  lemma {:induction false} CapKeptIff(e: Engine, node: string, amount: real, optIn: Option<bool>, t: Readings)
    requires 0.0 <= StateOf(e, node, t.created).earnings <= e.cap
    ensures var n := WithOptIn(StateOf(e, node, t.created), optIn);
      var earnings := Credits(e, node, amount, optIn, t).0.nodes[node].earnings;
      0.0 <= earnings <= e.cap <==> Rolled(n, t.now).earnings + Adjusted(e, n, amount, t) >= 0.0
    ensures amount >= 0.0 ==> Adjusted(e, WithOptIn(StateOf(e, node, t.created), optIn), amount, t) >= 0.0
  {
    hide Mul;
    var n := WithOptIn(StateOf(e, node, t.created), optIn);
    FinalBounds(e, n, t);
    hide Final;
    if amount >= 0.0 { MulOrder(0.0, amount, Final(e, n, t)); }
  }

  /** A grant is what was earned, cut to what the cap has left, all of it once a day has
      passed since the window began; and the receipt says whether it was cut. */
  lemma {:induction false} GrantExact(e: Engine, node: string, amount: real, optIn: Option<bool>, t: Readings)
    requires 0.0 <= StateOf(e, node, t.created).earnings <= e.cap && amount >= 0.0
    ensures var n := WithOptIn(StateOf(e, node, t.created), optIn);
      var (e', receipt) := Credits(e, node, amount, optIn, t);
      var left := if t.now > n.windowStart + 86400.0 then e.cap else e.cap - n.earnings;
      && receipt.granted == Min(Mul(amount, Final(e, n, t)), left)
      && e'.nodes[node].earnings == e.cap - left + receipt.granted
      && e'.nodes[node].windowStart == (if t.now > n.windowStart + 86400.0 then t.now else n.windowStart)
      && 0.0 <= receipt.granted
      && (receipt.capped <==> receipt.granted < Adjusted(e, n, amount, t))
      && (receipt.capped ==> e'.nodes[node].earnings == e.cap)
      && forall other | other != node :: other in e'.nodes <==> other in e.nodes
  {
    hide Mul, Final;
    CapKeptIff(e, node, amount, optIn, t);
  }

  // ---- runs ------------------------------------------------------------------------------------

  datatype Op =
    | Earn(node: string, amount: real, optIn: Option<bool>, t: Readings)
    | Look(node: string, optIn: Option<bool>, created: real)
    | Task(node: string, success: bool, seconds: real, created: real)
    | EarlyAdopter(node: string, on: bool, created: real, at: real)
    | Surge(seconds: real, at: real)
    | Utilization(level: real)

  function Update(e: Engine, node: string, n: Node): Engine {
    e.(nodes := e.nodes[node := n])
  }

  function Next(e: Engine, op: Op): Engine {
    match op
    case Earn(node, amount, optIn, t) => Credits(e, node, amount, optIn, t).0
    case Look(node, optIn, created) => Update(e, node, WithOptIn(StateOf(e, node, created), optIn))
    case Task(node, success, seconds, created) =>
      var n := StateOf(e, node, created);
      Update(e, node, n.(completed := n.completed + (if success then 1 else 0),
                         failed := n.failed + (if success then 0 else 1), uptime := n.uptime + seconds))
    case EarlyAdopter(node, on, created, at) =>
      var n := StateOf(e, node, created);
      Update(e, node, if on then n.(earlyAdopter := true, earlyStart := at) else n.(earlyAdopter := false))
    case Surge(seconds, at) => e.(surgeActive := true, surgeExpires := at + seconds)
    case Utilization(level) => e.(utilization := Max(0.0, Min(1.0, level)))
  }

  function GrantedTo(e: Engine, op: Op, node: string): real {
    if op.Earn? && op.node == node then Credits(e, node, op.amount, op.optIn, op.t).1.granted else 0.0
  }

  /** Readings follow `clock` and one another, and base credits are not negative. */
  ghost predicate Timely(op: Op, clock: real, end: real) {
    match op
    case Earn(_, amount, _, t) => clock <= t.created <= t.now <= end && amount >= 0.0
    case Look(_, _, created) => clock <= created <= end
    case Task(_, _, _, created) => clock <= created <= end
    case EarlyAdopter(_, _, created, at) => clock <= created <= at <= end
    case _ => clock <= end
  }

  /** `total` was granted to `node` since `start`, over `k` windows that ended. */
  ghost predicate Inv(e: Engine, node: string, start: real, clock: real, total: real, k: nat) {
    && e.cap >= 0.0 && start <= clock
    && (node !in e.nodes ==> total == 0.0 && k == 0)
    && (node in e.nodes ==>
          var n := e.nodes[node];
          && 0.0 <= n.earnings <= e.cap
          && start + Mul(k as real, DAY) <= n.windowStart <= clock
          && total <= Mul(k as real, e.cap) + n.earnings)
  }

  lemma OneWindowMore(k: nat, x: real)
    ensures Mul((k + 1) as real, x) == Mul(k as real, x) + x
    ensures Mul(0.0, x) == 0.0
  {
  }

  lemma {:induction false} EarnKeeps(e: Engine, op: Op, node: string, start: real, clock: real, end: real,
      total: real, k: nat)
    returns (k': nat)
    requires op.Earn? && op.node == node && Inv(e, node, start, clock, total, k) && Timely(op, clock, end)
    ensures Inv(Next(e, op), node, start, end, total + GrantedTo(e, op, node), k')
  {
    hide Mul, Final, Adjusted;
    var n := StateOf(e, node, op.t.created);
    CapKeptIff(e, node, op.amount, op.optIn, op.t);
    OneWindowMore(k, e.cap);
    OneWindowMore(k, DAY);
    OneWindowMore(0, e.cap);
    OneWindowMore(0, DAY);
    k' := if op.t.now - n.windowStart > DAY then k + 1 else k;
  }

  /** Every operation keeps the account of every node. */
  lemma {:induction false} StepKeeps(e: Engine, op: Op, node: string, start: real, clock: real, end: real,
      total: real, k: nat)
    returns (k': nat)
    requires Inv(e, node, start, clock, total, k) && Timely(op, clock, end)
    ensures Inv(Next(e, op), node, start, end, total + GrantedTo(e, op, node), k') && Next(e, op).cap == e.cap
  {
    hide Mul, Credits;
    k' := k;
    OneWindowMore(0, e.cap);
    OneWindowMore(0, DAY);
    if op.Earn? && op.node == node {
      k' := EarnKeeps(e, op, node, start, clock, end, total, k);
    }
    if op.Earn? { CreditsFrame(e, op.node, op.amount, op.optIn, op.t, node); }
  }

  lemma {:induction false} CreditsFrame(e: Engine, node: string, amount: real, optIn: Option<bool>, t: Readings,
      other: string)
    ensures var e' := Credits(e, node, amount, optIn, t).0;
      && e'.cap == e.cap
      && (other != node ==>
            && (other in e'.nodes <==> other in e.nodes)
            && (other in e.nodes ==> e'.nodes[other] == e.nodes[other]))
  {
  }

  datatype Timed = Timed(op: Op, end: real)

  ghost predicate InOrder(clock: real, ops: seq<Timed>)
    decreases |ops|
  {
    ops == [] || (Timely(ops[0].op, clock, ops[0].end) && InOrder(ops[0].end, ops[1..]))
  }

  function TotalGranted(e: Engine, ops: seq<Timed>, node: string): real
    decreases |ops|
  {
    if ops == [] then 0.0 else GrantedTo(e, ops[0].op, node) + TotalGranted(Next(e, ops[0].op), ops[1..], node)
  }

  function EndOf(clock: real, ops: seq<Timed>): real {
    if ops == [] then clock else ops[|ops| - 1].end
  }

  lemma {:induction false} RunKeeps(e: Engine, ops: seq<Timed>, node: string, start: real, clock: real, total: real,
      k: nat, limit: real)
    requires Inv(e, node, start, clock, total, k) && InOrder(clock, ops) && EndOf(clock, ops) <= start + limit
    ensures total + TotalGranted(e, ops, node) <= Mul(((limit / 86400.0).Floor + 1) as real, e.cap)
    decreases |ops|
  {
    hide Mul, Next, GrantedTo;
    if ops == [] {
      WithinDays(e, node, start, clock, total, k, limit);
    } else {
      hide Inv;
      var op := ops[0].op;
      var k' := StepKeeps(e, op, node, start, clock, ops[0].end, total, k);
      RunKeeps(Next(e, op), ops[1..], node, start, ops[0].end, total + GrantedTo(e, op, node), k', limit);
    }
  }

  lemma {:induction false} WithinDays(e: Engine, node: string, start: real, clock: real, total: real, k: nat,
      limit: real)
    requires Inv(e, node, start, clock, total, k) && clock <= start + limit
    ensures total <= Mul(((limit / 86400.0).Floor + 1) as real, e.cap)
  {
    hide Mul;
    var q := limit / DAY;
    DivMul(limit, DAY);
    MulOrder(k as real, q, DAY);
    MulOrder(0.0, q, DAY);
    AboutDays(e, node, start, clock, total, k, q);
  }

  lemma {:induction false} AboutDays(e: Engine, node: string, start: real, clock: real, total: real, k: nat, q: real)
    requires Inv(e, node, start, clock, total, k) && q >= 0.0 && (node in e.nodes ==> k as real <= q)
    ensures total <= Mul((q.Floor + 1) as real, e.cap)
  {
    hide Mul;
    OneWindowMore(k, e.cap);
    Ordered(0.0, (q.Floor + 1) as real, e.cap);
    if node in e.nodes {
      assert k <= q.Floor;
      Ordered((k + 1) as real, (q.Floor + 1) as real, e.cap);
    }
  }

  lemma Ordered(a: real, b: real, c: real)
    requires c >= 0.0
    ensures a <= b ==> Mul(a, c) <= Mul(b, c)
    ensures Mul(0.0, c) == 0.0
  {
    if a <= b { ScaleOrder(c, a, b); }
  }

  function RunTo(e: Engine, ops: seq<Timed>): Engine
    decreases |ops|
  {
    if ops == [] then e else RunTo(Next(e, ops[0].op), ops[1..])
  }

  lemma {:induction false} RunInv(e: Engine, ops: seq<Timed>, node: string, start: real, clock: real, total: real,
      k: nat)
    returns (total': real, k': nat)
    requires Inv(e, node, start, clock, total, k) && InOrder(clock, ops)
    ensures Inv(RunTo(e, ops), node, start, EndOf(clock, ops), total', k')
    ensures RunTo(e, ops).cap == e.cap
    decreases |ops|
  {
    hide Inv, Next, Timely;
    if ops == [] {
      total', k' := total, k;
    } else {
      var op := ops[0].op;
      k' := StepKeeps(e, op, node, start, clock, ops[0].end, total, k);
      total', k' := RunInv(Next(e, op), ops[1..], node, start, ops[0].end, total + GrantedTo(e, op, node), k');
      assert EndOf(ops[0].end, ops[1..]) == EndOf(clock, ops);
    }
  }

  /** In every state that a run reaches, every node's daily earnings lie within the cap. */
  lemma {:induction false} EarningsInCap(e: Engine, ops: seq<Timed>, node: string, start: real)
    requires e.cap >= 0.0 && e.nodes == map[] && InOrder(start, ops)
    ensures node in RunTo(e, ops).nodes ==> 0.0 <= RunTo(e, ops).nodes[node].earnings <= e.cap
  {
    var total, k := RunInv(e, ops, node, start, start, 0.0, 0);
  }

  /** Whatever multipliers applied, the credits granted to a node within `limit` seconds of
      a fresh engine's first reading are at most the cap times the number of days begun. */
  lemma {:induction false} DailyCapHolds(e: Engine, ops: seq<Timed>, node: string, start: real, limit: real)
    requires e.cap >= 0.0 && e.nodes == map[] && InOrder(start, ops)
    requires limit >= 0.0 && EndOf(start, ops) <= start + limit
    ensures TotalGranted(e, ops, node) <= Mul(((limit / 86400.0).Floor + 1) as real, e.cap)
  {
    RunKeeps(e, ops, node, start, start, 0.0, 0, limit);
  }

  // ---- what a node has done ------------------------------------------------------------------------

  /** The tasks of `node` that a run records as ended so. */
  function TasksOf(ops: seq<Timed>, node: string, success: bool): nat {
    if ops == [] then 0
    else
      (if ops[0].op.Task? && ops[0].op.node == node && ops[0].op.success == success then 1 else 0)
      + TasksOf(ops[1..], node, success)
  }

  function Completed(e: Engine, node: string): nat {
    if node in e.nodes then e.nodes[node].completed else 0
  }

  function Failed(e: Engine, node: string): nat {
    if node in e.nodes then e.nodes[node].failed else 0
  }

  function Uptime(e: Engine, node: string): real {
    if node in e.nodes then e.nodes[node].uptime else 0.0
  }

  function SecondsOf(ops: seq<Timed>, node: string): real {
    if ops == [] then 0.0
    else (if ops[0].op.Task? && ops[0].op.node == node then ops[0].op.seconds else 0.0) + SecondsOf(ops[1..], node)
  }

  /** The opt-in last given for `node`, if any. */
  function LastOptIn(ops: seq<Timed>, node: string): Option<bool> {
    if ops == [] then None
    else
      var later := LastOptIn(ops[1..], node);
      if later.Some? then later
      else match ops[0].op
        case Earn(n, _, optIn, _) => if n == node then optIn else None
        case Look(n, optIn, _) => if n == node then optIn else None
        case _ => None
  }

  function OptedIn(e: Engine, node: string): bool {
    node in e.nodes && e.nodes[node].surgeOptIn
  }

  /** Over every run a node has completed and failed as many tasks as were recorded so, has
      been up for as long as they took together, and is opted in as last asked; the tasks
      and choices of others do not matter. */
  lemma {:induction false} TasksCounted(e: Engine, ops: seq<Timed>, node: string)
    ensures Completed(RunTo(e, ops), node) == Completed(e, node) + TasksOf(ops, node, true)
    ensures Failed(RunTo(e, ops), node) == Failed(e, node) + TasksOf(ops, node, false)
    ensures Uptime(RunTo(e, ops), node) == Uptime(e, node) + SecondsOf(ops, node)
    ensures OptedIn(RunTo(e, ops), node)
      == if LastOptIn(ops, node).Some? then LastOptIn(ops, node).value else OptedIn(e, node)
    decreases |ops|
  {
    if ops != [] {
      TaskStep(e, ops[0].op, node);
      hide Next, Completed, Failed, Uptime, OptedIn;
      TasksCounted(Next(e, ops[0].op), ops[1..], node);
    }
  }

  lemma {:induction false} TaskStep(e: Engine, op: Op, node: string)
    ensures var mine := op.Task? && op.node == node;
      && Completed(Next(e, op), node) == Completed(e, node) + (if mine && op.success then 1 else 0)
      && Failed(Next(e, op), node) == Failed(e, node) + (if mine && !op.success then 1 else 0)
      && Uptime(Next(e, op), node) == Uptime(e, node) + (if mine then op.seconds else 0.0)
    ensures var given := if (op.Earn? || op.Look?) && op.node == node then op.optIn else None;
      OptedIn(Next(e, op), node) == if given.Some? then given.value else OptedIn(e, node)
  {
    hide Final, Adjusted, Capped, Mul;
  }

  // ---- the engine object ---------------------------------------------------------------------------

  class CreditMultiplierEngine {
    const cap: real
    const launch: real
    var nodes: map<string, Node>
    var utilization: real
    var surgeActive: bool
    var surgeExpires: real

    ghost function Abs(): Engine
      reads this
    {
      Engine(cap, launch, nodes, utilization, surgeActive, surgeExpires)
    }

    constructor (cap: real, launch: real)
      ensures Abs() == Engine(cap, launch, map[], 0.5, false, 0.0)
    {
      this.cap, this.launch := cap, launch;
      nodes, utilization, surgeActive, surgeExpires := map[], 0.5, false, 0.0;
    }

    method GetOrCreateState(node: string, now: real) returns (n: Node)
      modifies this`nodes
      ensures n == StateOf(old(Abs()), node, now) && nodes == old(nodes)[node := n]
    {
      if node !in nodes { nodes := nodes[node := Node(false, true, launch, 0, 0, 0.0, 0.0, now)]; }
      return nodes[node];
    }

    method CalculateMultipliers(node: string, optIn: Option<bool>, t: Readings) returns (final: real)
      modifies this`nodes
      ensures Abs() == Next(old(Abs()), Op.Look(node, optIn, t.created))
      ensures final == Final(old(Abs()), WithOptIn(StateOf(old(Abs()), node, t.created), optIn), t)
    {
      hide IsReliable, HasHighErrorRate, Boosted;
      var n := GetOrCreateState(node, t.created);
      if optIn.Some? {
        n := n.(surgeOptIn := optIn.value);
        nodes := nodes[node := n];
      }
      final := Factors(n, t);
    }

    method Factors(n: Node, t: Readings) returns (final: real)
      ensures final == Final(Abs(), n, t)
    {
      hide IsReliable, HasHighErrorRate, Boosted;
      final := Boost(n.surgeOptIn, 1.5, 1.0);
      final := Boost(IsReliable(n), 1.2, final);
      final := Boost(t.early - n.earlyStart < EARLY_SECONDS, 1.1, final);
      final := Boost(HasHighErrorRate(n), 0.8, final);
      final := Boost(utilization < 0.2, 0.8, final);
      final := Boost(surgeActive && t.surge < surgeExpires, 2.0, final);
    }

    static method Boost(applies: bool, factor: real, x: real) returns (y: real)
      ensures y == Boosted(applies, factor, x)
    {
      y := x;
      if applies { y := y * factor; }
    }

    method CalculateCredits(node: string, amount: real, optIn: Option<bool>, t: Readings) returns (receipt: Receipt)
      modifies this`nodes
      ensures (Abs(), receipt) == Credits(old(Abs()), node, amount, optIn, t)
    {
      hide Final, Mul;
      var final := CalculateMultipliers(node, optIn, t);
      var adjusted := Mul(amount, final);
      var n := nodes[node];
      if t.now - n.windowStart > DAY { n := n.(earnings := 0.0, windowStart := t.now); }
      var remaining := cap - n.earnings;
      receipt := if adjusted > remaining then Receipt(remaining, true) else Receipt(adjusted, false);
      nodes := nodes[node := n.(earnings := n.earnings + receipt.granted)];
      assert nodes == old(nodes)[node := n.(earnings := n.earnings + receipt.granted)];
    }

    method RecordTaskCompletion(node: string, success: bool, seconds: real, now: real)
      modifies this`nodes
      ensures Abs() == Next(old(Abs()), Op.Task(node, success, seconds, now))
    {
      var n := GetOrCreateState(node, now);
      n := if success then n.(completed := n.completed + 1) else n.(failed := n.failed + 1);
      nodes := nodes[node := n.(uptime := n.uptime + seconds)];
    }

    method SetEarlyAdopter(node: string, on: bool, created: real, at: real)
      modifies this`nodes
      ensures Abs() == Next(old(Abs()), Op.EarlyAdopter(node, on, created, at))
    {
      var n := GetOrCreateState(node, created);
      n := n.(earlyAdopter := on);
      if on { n := n.(earlyStart := at); }
      nodes := nodes[node := n];
    }

    method TriggerSurge(seconds: real, at: real)
      modifies this`surgeActive, this`surgeExpires
      ensures Abs() == Next(old(Abs()), Op.Surge(seconds, at))
    {
      surgeActive, surgeExpires := true, at + seconds;
    }

    method UpdateNetworkUtilization(level: real)
      modifies this`utilization
      ensures Abs() == Next(old(Abs()), Op.Utilization(level))
    {
      utilization := Max(0.0, Min(1.0, level));
    }
  }
}
