/** Rounds of group-relative advantages: workers report rewards, the round is finalised
    by normalising over the whole group and slicing the result back to the workers. */
module GrpoCoordinator {
  import opened Options
  import opened Sums

  // ---- the normalisation -----------------------------------------------------------------

  const EPSILON := 0.00000001

  function Mean(xs: seq<real>): real {
    if xs == [] then 0.0 else Total(xs) / |xs| as real
  }

  function Coordinates(xs: seq<real>): nat -> real {
    (i: nat) => At(xs, i)
  }

  function Deviations(xs: seq<real>): nat -> real {
    Minus(Coordinates(xs), Const(Mean(xs)))
  }

  /** `sd` is the population standard deviation of `xs`. */
  ghost predicate IsStd(xs: seq<real>, sd: real) {
    sd >= 0.0 && Mul(|xs| as real, Sq(sd)) == Sum(|xs|, Squared(Deviations(xs)))
  }

  /** The advantage of a reward `x` within the group's rewards. */
  function Advantage(group: seq<real>, sd: real, x: real): real
    requires sd >= 0.0
  {
    if |group| <= 1 then 0.0 else (x - Mean(group)) / (sd + EPSILON)
  }

  function Advantages(group: seq<real>, sd: real, xs: seq<real>): seq<real>
    requires sd >= 0.0
  {
    seq(|xs|, i requires 0 <= i < |xs| => Advantage(group, sd, xs[i]))
  }

  lemma {:induction false} MeanCancels(xs: seq<real>)
    ensures Sum(|xs|, Deviations(xs)) == 0.0
  {
    var n, m := |xs|, Mean(xs);
    SumConst(n, Const(m), m);
    SumAdd(n, Deviations(xs), Const(m), Coordinates(xs));
    SumEq(n, Coordinates(xs), (i: nat) => At(xs, i));
    if n > 0 { assert n as real * m == Total(xs); }
  }

  /** Advantages sum to zero over the group. */
  lemma {:induction false} AdvantagesSumToZero(xs: seq<real>, sd: real)
    requires sd >= 0.0
    ensures Total(Advantages(xs, sd, xs)) == 0.0
  {
    hide Mul;
    var n, d, adv := |xs|, sd + EPSILON, Advantages(xs, sd, xs);
    var f := Coordinates(adv);
    SumEq(n, f, (i: nat) => At(adv, i));
    if n <= 1 {
      SumConst(n, f, 0.0);
    } else {
      MeanCancels(xs);
      forall i: nat | i < n ensures Scaled(d, f)(i) == Deviations(xs)(i) {
        DivMul(xs[i] - Mean(xs), d);
        Commute(d, adv[i]);
      }
      SumEq(n, Scaled(d, f), Deviations(xs));
      ScaledSum(n, d, f);
      OnlyZero(d, Sum(n, f));
    }
  }

  lemma Commute(a: real, b: real)
    ensures Mul(a, b) == Mul(b, a)
  {
  }

  lemma OnlyZero(d: real, x: real)
    requires d > 0.0 && Mul(d, x) == 0.0
    ensures x == 0.0
  {
    Commute(d, x);
    MulOrder(x, 0.0, d);
    MulOrder(0.0, x, d);
  }

  /** With more than one reward, the squares of the advantages sum to exactly
      `n * (sd / (sd + epsilon))^2`. */
  lemma {:induction false} SquaresExact(xs: seq<real>, sd: real)
    requires IsStd(xs, sd) && |xs| > 1
    ensures Mul(Sq(sd + 0.00000001), Sum(|xs|, Squared(Coordinates(Advantages(xs, sd, xs)))))
      == Mul(|xs| as real, Sq(sd))
  {
    hide Mul, Sq;
    var n, d, adv := |xs|, sd + EPSILON, Advantages(xs, sd, xs);
    var g := Squared(Coordinates(adv));
    forall i: nat | i < n ensures Scaled(Sq(d), g)(i) == Squared(Deviations(xs))(i) {
      DivMul(xs[i] - Mean(xs), d);
      SquareProduct(adv[i], d);
    }
    SumEq(n, Scaled(Sq(d), g), Squared(Deviations(xs)));
    ScaledSum(n, Sq(d), g);
  }

  lemma SquareProduct(a: real, d: real)
    ensures Mul(Sq(d), Sq(a)) == Sq(Mul(a, d))
  {
  }

  /** The squares of the advantages sum to at most the number of rewards. */
  lemma {:induction false} SquaresAtMost(xs: seq<real>, sd: real)
    requires IsStd(xs, sd)
    ensures Sum(|xs|, Squared(Coordinates(Advantages(xs, sd, xs)))) <= |xs| as real
  {
    hide Mul;
    var n, d := |xs|, sd + EPSILON;
    var total := Sum(n, Squared(Coordinates(Advantages(xs, sd, xs))));
    if n <= 1 {
      var f := Squared(Coordinates(Advantages(xs, sd, xs)));
      forall i: nat | i < n ensures f(i) == 0.0 { assert f(i) == Sq(0.0); }
      SumConst(n, f, 0.0);
    } else {
      SquaresExact(xs, sd);
      SquareOrder(sd, d);
      Shrink(n as real, Sq(sd), Sq(d), total);
    }
  }

  lemma SquareOrder(a: real, b: real)
    requires 0.0 <= a < b
    ensures 0.0 <= Sq(a) < Sq(b)
  {
    SquareNonNegative(a);
    assert Sq(b) == Sq(a) + Mul(b - a, b + a);
    assert Mul(b - a, b + a) > 0.0 by { NegativeProduct(b + a, a - b); }
  }

  lemma Shrink(n: real, s: real, d: real, x: real)
    requires n > 0.0 && 0.0 <= s < d && Mul(d, x) == Mul(n, s)
    ensures x <= n
  {
    MulOrder(s, d, n);
    assert d * x <= d * n;
    CancelOrder(d, x, n);
  }

  /** Normalising keeps the order of rewards, across workers too. */
  lemma {:induction false} OrderKept(group: seq<real>, sd: real, x: real, y: real)
    requires sd >= 0.0 && |group| > 1
    ensures x < y <==> Advantage(group, sd, x) < Advantage(group, sd, y)
    ensures Advantage(group, sd, x) > 0.0 <==> x > Mean(group)
  {
    hide Mul;
    var d, m := sd + EPSILON, Mean(group);
    DivMul(x - m, d);
    DivMul(y - m, d);
    MulOrder(Advantage(group, sd, y), Advantage(group, sd, x), d);
    MulOrder(Advantage(group, sd, x), 0.0, d);
  }

  /** Advantages are relative: raising every reward of the group by the same amount
      changes none of them, and the same `sd` still fits. */
  lemma {:induction false} ShiftInvisible(xs: seq<real>, ys: seq<real>, c: real, sd: real)
    requires IsStd(xs, sd) && |ys| == |xs| && forall i | 0 <= i < |xs| :: ys[i] == xs[i] + c
    ensures IsStd(ys, sd) && Advantages(ys, sd, ys) == Advantages(xs, sd, xs)
  {
    hide Mul, Sq, Mean;
    var n := |xs|;
    if n > 0 { ShiftedMean(xs, ys, c); }
    forall i: nat | i < n ensures Deviations(ys)(i) == Deviations(xs)(i) {
      assert At(ys, i) == At(xs, i) + c;
    }
    SumEq(n, Squared(Deviations(ys)), Squared(Deviations(xs)));
    forall i: nat | i < n ensures Advantage(ys, sd, ys[i]) == Advantage(xs, sd, xs[i]) {
      assert ys[i] - Mean(ys) == xs[i] - Mean(xs);
    }
  }

  lemma {:induction false} ShiftedMean(xs: seq<real>, ys: seq<real>, c: real)
    requires |ys| == |xs| > 0 && forall i | 0 <= i < |xs| :: ys[i] == xs[i] + c
    ensures Mean(ys) == Mean(xs) + c
  {
    var n := |xs|;
    SumConst(n, Const(c), c);
    SumAdd(n, Coordinates(xs), Const(c), Coordinates(ys));
    SumEq(n, Coordinates(xs), (i: nat) => At(xs, i));
    SumEq(n, Coordinates(ys), (i: nat) => At(ys, i));
    ShiftMean(Total(xs), n as real, c);
  }

  lemma ShiftMean(total: real, n: real, c: real)
    requires n > 0.0
    ensures (total + n * c) / n == total / n + c
  {
    assert (total / n + c) * n == total + n * c;
  }

  // ---- rounds and jobs ---------------------------------------------------------------------

  datatype Config = Config(groupSize: int, promptsPerStep: int, targetSteps: int)

  datatype Round = Round(rewards: map<string, seq<real>>, advantages: Option<seq<real>>,
                         candidates: int, numPrompts: int, meanReward: real)

  datatype Status = Running | Completed | Failed

  datatype Job = Job(workers: seq<string>, cfg: Config, status: Status, current: int,
                     rounds: map<int, Round>, steps: int)

  function RewardsOf(r: Round, worker: string): seq<real> {
    if worker in r.rewards then r.rewards[worker] else []
  }

  /** Everything reported, in worker order. */
  function AllRewards(r: Round, workers: seq<string>): seq<real> {
    if workers == [] then []
    else AllRewards(r, workers[..|workers| - 1]) + RewardsOf(r, workers[|workers| - 1])
  }

  lemma {:induction false} Grows(r: Round, workers: seq<string>, i: nat)
    requires i < |workers|
    ensures AllRewards(r, workers[..i + 1]) == AllRewards(r, workers[..i]) + RewardsOf(r, workers[i])
  {
    assert workers[..i + 1][..i] == workers[..i];
  }

  lemma {:induction false} PrefixOfAll(r: Round, workers: seq<string>, i: nat)
    requires i <= |workers|
    ensures AllRewards(r, workers[..i]) <= AllRewards(r, workers)
    decreases |workers|
  {
    var k := |workers| - 1;
    if i <= k {
      PrefixOfAll(r, workers[..k], i);
      assert workers[..k][..i] == workers[..i];
    } else {
      assert workers[..i] == workers;
    }
  }

  /** The rewards of the worker at `i` sit where the running index says. */
  lemma {:induction false} ReportAt(r: Round, workers: seq<string>, i: nat)
    requires i < |workers|
    ensures var from := |AllRewards(r, workers[..i])|;
      var upto := from + |RewardsOf(r, workers[i])|;
      && upto == |AllRewards(r, workers[..i + 1])| <= |AllRewards(r, workers)|
      && AllRewards(r, workers)[from..upto] == RewardsOf(r, workers[i])
  {
    hide AllRewards, RewardsOf;
    Grows(r, workers, i);
    PrefixOfAll(r, workers, i + 1);
    var all, before := AllRewards(r, workers), AllRewards(r, workers[..i + 1]);
    var from := |AllRewards(r, workers[..i])|;
    assert all[from..|before|] == before[from..];
  }

  function ReportedCount(r: Round, workers: seq<string>): nat {
    if workers == [] then 0
    else ReportedCount(r, workers[..|workers| - 1]) + if workers[|workers| - 1] in r.rewards then 1 else 0
  }

  /** Counting reports against listed workers tells exactly whether all have reported. */
  lemma {:induction false} AllReportedIff(r: Round, workers: seq<string>)
    ensures ReportedCount(r, workers) <= |workers|
    ensures ReportedCount(r, workers) >= |workers| <==> forall w | w in workers :: w in r.rewards
  {
    if workers != [] {
      var k := |workers| - 1;
      AllReportedIff(r, workers[..k]);
      assert workers == workers[..k] + [workers[k]];
    }
  }

  function NumPrompts(cfg: Config, rewards: int): int {
    var size := if cfg.groupSize > 1 then cfg.groupSize else 1;
    if rewards / size > 1 then rewards / size else 1
  }

  function Started(j: Job): Job {
    var fresh_ := Round(map[], None, j.cfg.groupSize * j.cfg.promptsPerStep, 0, 0.0);
    j.(rounds := j.rounds[j.current + 1 := fresh_], current := j.current + 1)
  }

  function Reported(j: Job, id: int, worker: string, rewards: seq<real>): Job {
    if id !in j.rounds then j
    else
      var r := j.rounds[id];
      j.(rounds := j.rounds[id := r.(rewards := r.rewards[worker := rewards])])
  }

  function Closed(j: Job, r: Round, sd: real): Round
    requires sd >= 0.0
  {
    var all := AllRewards(r, j.workers);
    r.(advantages := Some(Advantages(all, sd, all)), meanReward := Mean(all), numPrompts := NumPrompts(j.cfg, |all|))
  }

  function Finalised(j: Job, id: int, sd: real): Job
    requires sd >= 0.0
  {
    if id !in j.rounds then j
    else
      var r := Closed(j, j.rounds[id], sd);
      var steps := j.steps + r.numPrompts;
      var status := if j.cfg.targetSteps > 0 && steps >= j.cfg.targetSteps then Completed else j.status;
      j.(rounds := j.rounds[id := r], steps := steps, status := status)
  }

  /** What each worker is sent when a round is finalised. */
  datatype Message = Message(worker: string, advantages: seq<real>)

  function Messages(j: Job, r: Round, sd: real): seq<Message>
    requires sd >= 0.0
  {
    var all := AllRewards(r, j.workers);
    seq(|j.workers|, i requires 0 <= i < |j.workers| =>
      Message(j.workers[i], Advantages(all, sd, RewardsOf(r, j.workers[i]))))
  }

  function Concat(ms: seq<Message>): seq<real> {
    if ms == [] then [] else Concat(ms[..|ms| - 1]) + ms[|ms| - 1].advantages
  }

  lemma {:induction false} PrefixJoins(j: Job, r: Round, sd: real, n: nat)
    requires sd >= 0.0 && n <= |j.workers|
    ensures Concat(Messages(j, r, sd)[..n]) == Advantages(AllRewards(r, j.workers), sd, AllRewards(r, j.workers[..n]))
  {
    if n > 0 {
      PrefixJoins(j, r, sd, n - 1);
      var ms := Messages(j, r, sd);
      assert ms[..n][..n - 1] == ms[..n - 1];
      Grows(r, j.workers, n - 1);
    }
  }

  /** The slices sent to the workers, one after the other in worker order, are the whole
      advantage list, also when a worker is listed twice; each is as long as what its
      worker reported, and empty for a worker that reported nothing. */
  lemma {:induction false} SlicesJoin(j: Job, r: Round, sd: real)
    requires sd >= 0.0
    ensures Closed(j, r, sd).advantages == Some(Concat(Messages(j, r, sd)))
    ensures forall i | 0 <= i < |j.workers| ::
      Messages(j, r, sd)[i].worker == j.workers[i]
      && |Messages(j, r, sd)[i].advantages| == if j.workers[i] in r.rewards then |r.rewards[j.workers[i]]| else 0
  {
    var n := |j.workers|;
    PrefixJoins(j, r, sd, n);
    assert Messages(j, r, sd)[..n] == Messages(j, r, sd) && j.workers[..n] == j.workers;
  }

  class GrpoCoordinator {
    var jobs: map<string, Job>

    constructor ()
      ensures jobs == map[]
    {
      jobs := map[];
    }

    method StartJob(id: string, workers: seq<string>, cfg: Config)
      modifies this
      ensures jobs == old(jobs)[id := Job(workers, cfg, Running, 0, map[], 0)]
    {
      jobs := jobs[id := Job(workers, cfg, Running, 0, map[], 0)];
    }

    method StartRound(id: string) returns (round: Option<int>)
      modifies this
      ensures id !in old(jobs) ==> round == None && jobs == old(jobs)
      ensures id in old(jobs) ==>
        var j := old(jobs)[id];
        round == Some(j.current + 1) && jobs == old(jobs)[id := Started(j)]
      ensures id in old(jobs) ==>
        var candidates := old(jobs)[id].cfg.groupSize * old(jobs)[id].cfg.promptsPerStep;
        jobs[id].rounds[old(jobs)[id].current + 1] == Round(map[], None, candidates, 0, 0.0)
    {
      if id !in jobs { return None; }
      var j := jobs[id];
      var roundId := j.current + 1;
      var r := Round(map[], None, j.cfg.groupSize * j.cfg.promptsPerStep, 0, 0.0);
      jobs := jobs[id := j.(rounds := j.rounds[roundId := r], current := roundId)];
      return Some(roundId);
    }

    method HandleRewardReport(id: string, worker: string, roundId: int, rewards: seq<real>)
      modifies this
      ensures id !in old(jobs) ==> jobs == old(jobs)
      ensures id in old(jobs) ==> jobs == old(jobs)[id := Reported(old(jobs)[id], roundId, worker, rewards)]
    {
      if id !in jobs { return; }
      var j := jobs[id];
      if roundId !in j.rounds { return; }
      var r := j.rounds[roundId];
      r := r.(rewards := r.rewards[worker := rewards]);
      jobs := jobs[id := j.(rounds := j.rounds[roundId := r])];
    }

    method AllWorkersReported(id: string, roundId: int) returns (all: bool)
      ensures all <==>
        (id in jobs && roundId in jobs[id].rounds
         && forall w | w in jobs[id].workers :: w in jobs[id].rounds[roundId].rewards)
    {
      if id !in jobs || roundId !in jobs[id].rounds { return false; }
      var workers, r := jobs[id].workers, jobs[id].rounds[roundId];
      var count := 0;
      for i := 0 to |workers|
        invariant count == ReportedCount(r, workers[..i])
      {
        assert workers[..i + 1][..i] == workers[..i];
        if workers[i] in r.rewards { count := count + 1; }
      }
      assert workers[..|workers|] == workers;
      AllReportedIff(r, workers);
      return count >= |workers|;
    }

    method FailJob(id: string)
      modifies this
      ensures id !in old(jobs) ==> jobs == old(jobs)
      ensures id in old(jobs) ==> jobs == old(jobs)[id := old(jobs)[id].(status := Failed)]
    {
      if id !in jobs { return; }
      jobs := jobs[id := jobs[id].(status := Failed)];
    }

    /** `sd` is what the standard deviation of the collected rewards comes to. */
    method FinaliseRound(id: string, roundId: int, sd: real) returns (sent: seq<Message>)
      requires sd >= 0.0
      modifies this
      ensures id !in old(jobs) || roundId !in old(jobs)[id].rounds ==> sent == [] && jobs == old(jobs)
      ensures id in old(jobs) && roundId in old(jobs)[id].rounds ==>
        var j := old(jobs)[id];
        sent == Messages(j, j.rounds[roundId], sd) && jobs == old(jobs)[id := Finalised(j, roundId, sd)]
    {
      hide Advantages, AllRewards, Mean, NumPrompts;
      if id !in jobs || roundId !in jobs[id].rounds { return []; }
      var j := jobs[id];
      var r := j.rounds[roundId];
      var all, perWorker := Collect(r, j.workers);
      var adv := NormaliseGroup(all, sd);
      var slices := Slice(r, j.workers, all, perWorker, adv, sd);
      sent := SendSlices(j, r, slices, sd);
      r := r.(advantages := Some(adv), meanReward := Mean(all), numPrompts := NumPrompts(j.cfg, |all|));
      var reached := j.cfg.targetSteps > 0 && j.steps + r.numPrompts >= j.cfg.targetSteps;
      var status := if reached then Completed else j.status;
      jobs := jobs[id := j.(rounds := j.rounds[roundId := r], steps := j.steps + r.numPrompts, status := status)];
    }
  }

  method Collect(r: Round, workers: seq<string>) returns (all: seq<real>, perWorker: map<string, seq<real>>)
    ensures all == AllRewards(r, workers)
    ensures forall w :: w in perWorker <==> w in workers
    ensures forall w | w in perWorker :: perWorker[w] == RewardsOf(r, w)
  {
    all, perWorker := [], map[];
    for i := 0 to |workers|
      invariant all == AllRewards(r, workers[..i])
      invariant forall w :: w in perWorker <==> w in workers[..i]
      invariant forall w | w in perWorker :: perWorker[w] == RewardsOf(r, w)
    {
      assert workers[..i + 1][..i] == workers[..i] && workers[..i + 1] == workers[..i] + [workers[i]];
      var rewards := RewardsOf(r, workers[i]);
      perWorker := perWorker[workers[i] := rewards];
      all := all + rewards;
    }
    assert workers[..|workers|] == workers;
  }

  lemma {:induction false} NoWorkers(r: Round)
    ensures AllRewards(r, []) == []
  {
  }

  lemma {:induction false} AdvantagesSlice(all: seq<real>, sd: real, from: nat, upto: nat)
    requires sd >= 0.0 && from <= upto <= |all|
    ensures |Advantages(all, sd, all)| == |all|
    ensures Advantages(all, sd, all)[from..upto] == Advantages(all, sd, all[from..upto])
  {
  }

  method NormaliseGroup(all: seq<real>, sd: real) returns (adv: seq<real>)
    requires sd >= 0.0
    ensures adv == Advantages(all, sd, all)
  {
    if |all| <= 1 { return seq(|all|, _ => 0.0); }
    var mean := Mean(all);
    adv := seq(|all|, i requires 0 <= i < |all| => (all[i] - mean) / (sd + EPSILON));
  }

  method SendSlices(j: Job, r: Round, slices: map<string, seq<real>>, sd: real) returns (sent: seq<Message>)
    requires sd >= 0.0
    requires forall w | w in j.workers ::
      w in slices && slices[w] == Advantages(AllRewards(r, j.workers), sd, RewardsOf(r, w))
    ensures sent == Messages(j, r, sd)
  {
    hide Advantages, AllRewards, RewardsOf;
    sent := [];
    for i := 0 to |j.workers|
      invariant |sent| == i && forall k | 0 <= k < i :: sent[k] == Messages(j, r, sd)[k]
    {
      sent := sent + [Message(j.workers[i], slices[j.workers[i]])];
    }
  }

  /** Cuts the advantage list with a running index, as long as each worker's report. */
  method Slice(r: Round, workers: seq<string>, all: seq<real>, perWorker: map<string, seq<real>>, adv: seq<real>,
      sd: real)
    returns (slices: map<string, seq<real>>)
    requires sd >= 0.0 && all == AllRewards(r, workers) && adv == Advantages(all, sd, all)
    requires forall w | w in workers :: w in perWorker && perWorker[w] == RewardsOf(r, w)
    ensures forall w | w in workers :: w in slices && slices[w] == Advantages(all, sd, RewardsOf(r, w))
  {
    hide Advantages, AllRewards, RewardsOf;
    slices := map[];
    var idx := 0;
    AdvantagesSlice(all, sd, 0, 0);
    assert workers[..0] == [] && AllRewards(r, []) == [] by { NoWorkers(r); }
    for i := 0 to |workers|
      invariant idx == |AllRewards(r, workers[..i])| <= |all|
      invariant forall w | w in workers[..i] :: w in slices && slices[w] == Advantages(all, sd, RewardsOf(r, w))
    {
      ReportAt(r, workers, i);
      assert workers[..i + 1] == workers[..i] + [workers[i]];
      var count := |perWorker[workers[i]]|;
      AdvantagesSlice(all, sd, idx, idx + count);
      slices := slices[workers[i] := adv[idx..idx + count]];
      idx := idx + count;
    }
    assert workers[..|workers|] == workers;
  }

  // ---- every run --------------------------------------------------------------------------------

  datatype Op = Start | Report(id: int, worker: string, rewards: seq<real>) | Finalise(id: int, sd: real) | Fail

  /** The deviation handed to a step is the deviation of what was collected. */
  ghost predicate Honest(j: Job, op: Op) {
    op.Finalise? ==> op.sd >= 0.0 && (op.id in j.rounds ==> IsStd(AllRewards(j.rounds[op.id], j.workers), op.sd))
  }

  function Next(j: Job, op: Op): Job
    requires Honest(j, op)
  {
    match op
    case Start => Started(j)
    case Report(id, worker, rewards) => Reported(j, id, worker, rewards)
    case Finalise(id, sd) => Finalised(j, id, sd)
    case Fail => j.(status := Failed)
  }

  ghost predicate Normalised(adv: seq<real>) {
    Total(adv) == 0.0 && Sum(|adv|, Squared(Coordinates(adv))) <= |adv| as real
  }

  /** What holds of a job at any moment. */
  ghost predicate Inv(j: Job) {
    && j.current >= 0 && j.steps >= 0
    && (forall id :: id in j.rounds <==> 1 <= id <= j.current)
    && (forall id | id in j.rounds && j.rounds[id].advantages.Some? :: Normalised(j.rounds[id].advantages.value))
    && (forall id | id in j.rounds :: j.rounds[id].candidates == j.cfg.groupSize * j.cfg.promptsPerStep)
    && (j.status == Running ==> j.cfg.targetSteps <= 0 || j.steps < j.cfg.targetSteps)
    && (j.status == Completed ==> 0 < j.cfg.targetSteps <= j.steps)
  }

  lemma {:induction false} StepKeeps(j: Job, op: Op)
    requires Inv(j) && Honest(j, op)
    ensures Inv(Next(j, op))
  {
    hide Normalised, IsStd, Advantages, AllRewards, Mean;
    if op.Finalise? && op.id in j.rounds {
      var all := AllRewards(j.rounds[op.id], j.workers);
      ClosedNormalised(all, op.sd);
    }
  }

  lemma {:induction false} ClosedNormalised(all: seq<real>, sd: real)
    requires IsStd(all, sd)
    ensures Normalised(Advantages(all, sd, all))
  {
    AdvantagesSumToZero(all, sd);
    SquaresAtMost(all, sd);
  }

  /** The deviations handed to a run are right where they are used. */
  ghost predicate AllHonest(j: Job, ops: seq<Op>)
    decreases |ops|
  {
    ops == [] || (Honest(j, ops[0]) && AllHonest(Next(j, ops[0]), ops[1..]))
  }

  function RunJob(j: Job, ops: seq<Op>): Job
    requires AllHonest(j, ops)
    decreases |ops|
  {
    if ops == [] then j else RunJob(Next(j, ops[0]), ops[1..])
  }

  /** In every reachable state the rounds are numbered 1 to `current`, every advantage list
      kept is normalised, a running job is below its target, and a completed one at it. */
  lemma {:induction false} AlwaysInv(j: Job, ops: seq<Op>)
    requires Inv(j) && AllHonest(j, ops)
    ensures var j' := RunJob(j, ops);
      Inv(j') && j'.workers == j.workers && j'.cfg == j.cfg && j'.steps >= j.steps && j'.current >= j.current
    decreases |ops|
  {
    hide Inv;
    if ops != [] {
      StepKeeps(j, ops[0]);
      AlwaysInv(Next(j, ops[0]), ops[1..]);
    }
  }

  // ---- what `steps` counts ------------------------------------------------------------------------

  /** The prompts of the first `n` rounds, those not finalised having none. */
  function Prompts(rounds: map<int, Round>, n: int): int
    decreases n
  {
    if n <= 0 then 0 else Prompts(rounds, n - 1) + PromptsOf(rounds, n)
  }

  function PromptsOf(rounds: map<int, Round>, id: int): int {
    if id in rounds then rounds[id].numPrompts else 0
  }

  lemma {:induction false} PromptsUpdate(rounds: map<int, Round>, id: int, r: Round, n: int)
    requires id >= 1
    ensures Prompts(rounds[id := r], n)
      == Prompts(rounds, n) + if id <= n then r.numPrompts - PromptsOf(rounds, id) else 0
    decreases n
  {
    if n > 0 { PromptsUpdate(rounds, id, r, n - 1); }
  }

  /** A finalised round has prompts, any other has none. */
  ghost predicate Counted(j: Job) {
    && j.current >= 0
    && (forall id :: id in j.rounds <==> 1 <= id <= j.current)
    && forall id | id in j.rounds ::
         if j.rounds[id].advantages.Some? then j.rounds[id].numPrompts >= 1 else j.rounds[id].numPrompts == 0
  }

  function Excess(j: Job): int {
    j.steps - Prompts(j.rounds, j.current)
  }

  /** The round is finalised although it was before. */
  predicate Again(j: Job, op: Op) {
    op.Finalise? && op.id in j.rounds && j.rounds[op.id].advantages.Some?
  }

  lemma {:induction false} StepCounts(j: Job, op: Op)
    requires Counted(j) && Honest(j, op)
    ensures Counted(Next(j, op))
    ensures Excess(Next(j, op)) == Excess(j) + if Again(j, op) then j.rounds[op.id].numPrompts else 0
  {
    hide IsStd, Advantages, AllRewards, Mean;
    match op
    case Start =>
      PromptsUpdate(j.rounds, j.current + 1, Next(j, op).rounds[j.current + 1], j.current);
      assert Prompts(Next(j, op).rounds, j.current + 1) == Prompts(Next(j, op).rounds, j.current);
    case Report(id, worker, rewards) =>
      if id in j.rounds { PromptsUpdate(j.rounds, id, Next(j, op).rounds[id], j.current); }
    case Finalise(id, sd) =>
      if id in j.rounds { PromptsUpdate(j.rounds, id, Next(j, op).rounds[id], j.current); }
    case Fail =>
  }

  ghost predicate FinalisesTwice(j: Job, ops: seq<Op>)
    requires AllHonest(j, ops)
    decreases |ops|
  {
    ops != [] && (Again(j, ops[0]) || FinalisesTwice(Next(j, ops[0]), ops[1..]))
  }

  lemma {:induction false} ExcessGrows(j: Job, ops: seq<Op>)
    requires Counted(j) && AllHonest(j, ops)
    ensures Excess(RunJob(j, ops)) >= Excess(j)
    ensures Excess(RunJob(j, ops)) == Excess(j) <==> !FinalisesTwice(j, ops)
    decreases |ops|
  {
    hide Next, Honest, Excess;
    if ops != [] {
      StepCounts(j, ops[0]);
      ExcessGrows(Next(j, ops[0]), ops[1..]);
    }
  }

  function NewJob(workers: seq<string>, cfg: Config): Job {
    Job(workers, cfg, Running, 0, map[], 0)
  }

  /** `steps` is the number of prompts of the finalised rounds exactly when no round was
      finalised twice; otherwise it is more. */
  lemma {:induction false} StepsAreSumIff(workers: seq<string>, cfg: Config, ops: seq<Op>)
    requires AllHonest(NewJob(workers, cfg), ops)
    ensures var j := RunJob(NewJob(workers, cfg), ops);
      && j.steps >= Prompts(j.rounds, j.current)
      && (j.steps == Prompts(j.rounds, j.current) <==> !FinalisesTwice(NewJob(workers, cfg), ops))
  {
    hide RunJob, FinalisesTwice, AllHonest;
    ExcessGrows(NewJob(workers, cfg), ops);
  }

  // ---- failed jobs ------------------------------------------------------------------------------------

  /** Finalising a round takes the steps to the target or beyond. */
  predicate Reaches(j: Job, op: Op)
    requires op.Finalise? ==> op.sd >= 0.0
  {
    op.Finalise? && op.id in j.rounds && 0 < j.cfg.targetSteps <= Finalised(j, op.id, op.sd).steps
  }

  ghost predicate NeverReaches(j: Job, ops: seq<Op>)
    requires AllHonest(j, ops)
    decreases |ops|
  {
    ops == [] || (!Reaches(j, ops[0]) && NeverReaches(Next(j, ops[0]), ops[1..]))
  }

  ghost predicate FailedThroughout(j: Job, ops: seq<Op>)
    requires AllHonest(j, ops)
    decreases |ops|
  {
    j.status == Failed && (ops == [] || FailedThroughout(Next(j, ops[0]), ops[1..]))
  }

  /** A failed job stays failed exactly as long as no round is finalised at the target or
      beyond: that completes it. */
  lemma {:induction false} FailedStaysIff(j: Job, ops: seq<Op>)
    requires j.status == Failed && AllHonest(j, ops)
    ensures FailedThroughout(j, ops) <==> NeverReaches(j, ops)
    decreases |ops|
  {
    if ops != [] {
      FailedStep(j, ops[0]);
      hide Next, Honest, Reaches;
      if !Reaches(j, ops[0]) { FailedStaysIff(Next(j, ops[0]), ops[1..]); }
    }
  }

  lemma {:induction false} FailedStep(j: Job, op: Op)
    requires j.status == Failed && Honest(j, op)
    ensures Next(j, op).status == if Reaches(j, op) then Completed else Failed
  {
    hide IsStd, Advantages, AllRewards, Mean, NumPrompts;
  }

  /** Finalising a round in which nobody reported counts one prompt. */
  lemma {:induction false} EmptyRound(j: Job, id: int)
    requires id in j.rounds && j.rounds[id].rewards == map[]
    ensures Honest(j, Finalise(id, 0.0))
    ensures var j' := Next(j, Finalise(id, 0.0));
      && j'.steps == j.steps + 1 && id in j'.rounds && j'.rounds[id].numPrompts == 1 && j'.rounds[id].rewards == map[]
      && j'.rounds[id].advantages.Some? && j'.current == j.current
      && j'.workers == j.workers && j'.cfg == j.cfg
      && j'.status == if 0 < j.cfg.targetSteps <= j.steps + 1 then Completed else j.status
  {
    NoRewards(j.rounds[id], j.workers);
    assert Mul(0.0, Sq(0.0)) == 0.0;
    hide Mul;
  }

  /** A job with a target of two steps: its one round, in which nobody reported, is
      finalised, the job fails, and the round is finalised again. That makes two steps for
      one prompt, and completes the failed job. */
  lemma {:induction false} FinalisedTwice(workers: seq<string>, groupSize: int, promptsPerStep: int)
    ensures var j := Next(NewJob(workers, Config(groupSize, promptsPerStep, 2)), Start);
      && Honest(j, Finalise(1, 0.0))
      && var failed := Next(Next(j, Finalise(1, 0.0)), Fail);
      && failed.status == Failed && Honest(failed, Finalise(1, 0.0))
      && var j' := Next(failed, Finalise(1, 0.0));
      && j'.status == Completed && j'.steps == 2 && Prompts(j'.rounds, j'.current) == 1
  {
    hide IsStd, AllRewards;
    var j := Next(NewJob(workers, Config(groupSize, promptsPerStep, 2)), Start);
    EmptyRound(j, 1);
    var failed := Next(Next(j, Finalise(1, 0.0)), Fail);
    EmptyRound(failed, 1);
    var j' := Next(failed, Finalise(1, 0.0));
    assert Prompts(j'.rounds, 1) == Prompts(j'.rounds, 0) + PromptsOf(j'.rounds, 1);
  }

  // ---- what a round holds -----------------------------------------------------------------------------

  /** A report to a known round puts the worker's rewards in that round, and changes no other
      worker's, no other round and nothing else; to an unknown one it changes nothing. */
  lemma {:induction false} ReportLocal(j: Job, id: int, worker: string, rewards: seq<real>)
    ensures var j' := Reported(j, id, worker, rewards);
      && (id !in j.rounds ==> j' == j)
      && j' == j.(rounds := j'.rounds) && j'.rounds.Keys == j.rounds.Keys
      && (forall other | other in j.rounds && other != id :: j'.rounds[other] == j.rounds[other])
      && (id in j.rounds ==>
            var before, after := j.rounds[id], j'.rounds[id];
            && after == before.(rewards := after.rewards)
            && worker in after.rewards && after.rewards[worker] == rewards
            && forall w | w != worker ::
                 && (w in after.rewards <==> w in before.rewards)
                 && (w in before.rewards ==> after.rewards[w] == before.rewards[w]))
  {
  }

  /** What `worker` last reported to round `id`. */
  function LastReport(ops: seq<Op>, id: int, worker: string): Option<seq<real>> {
    if ops == [] then None
    else
      var later := LastReport(ops[1..], id, worker);
      if later.Some? then later
      else if ops[0].Report? && ops[0].id == id && ops[0].worker == worker then Some(ops[0].rewards)
      else None
  }

  /** The rewards that a started round holds for a worker. */
  function Held(j: Job, id: int, worker: string): Option<seq<real>> {
    if id in j.rounds && worker in j.rounds[id].rewards then Some(j.rounds[id].rewards[worker]) else None
  }

  lemma {:induction false} StepHolds(j: Job, op: Op, id: int, worker: string)
    requires Inv(j) && Honest(j, op) && id in j.rounds
    ensures id in Next(j, op).rounds
    ensures Held(Next(j, op), id, worker)
      == if op.Report? && op.id == id && op.worker == worker then Some(op.rewards) else Held(j, id, worker)
  {
    hide Normalised, IsStd, Advantages, AllRewards, Mean, NumPrompts;
    if op.Report? { ReportLocal(j, op.id, op.worker, op.rewards); }
  }

  lemma {:induction false} RunHolds(j: Job, ops: seq<Op>, id: int, worker: string)
    requires Inv(j) && AllHonest(j, ops) && id in j.rounds
    ensures id in RunJob(j, ops).rounds
    ensures var last := LastReport(ops, id, worker);
      Held(RunJob(j, ops), id, worker) == if last.Some? then last else Held(j, id, worker)
    decreases |ops|
  {
    hide Inv, Next, Honest, Held;
    if ops != [] {
      StepKeeps(j, ops[0]);
      StepHolds(j, ops[0], id, worker);
      RunHolds(Next(j, ops[0]), ops[1..], id, worker);
    }
  }

  /** Over every run, a round holds for each worker the rewards of the last report that this
      worker made to it since it started, and nothing for one that made none. */
  lemma {:induction false} RoundHoldsLastReports(j: Job, ops: seq<Op>, worker: string)
    requires Inv(j) && AllHonest(Started(j), ops)
    ensures var id, end := j.current + 1, RunJob(Started(j), ops);
      && id in end.rounds
      && (worker in end.rounds[id].rewards <==> LastReport(ops, id, worker).Some?)
      && (worker in end.rounds[id].rewards ==> LastReport(ops, id, worker) == Some(end.rounds[id].rewards[worker]))
  {
    StepKeeps(j, Start);
    hide Inv;
    RunHolds(Started(j), ops, j.current + 1, worker);
  }

  /** Once every listed worker has reported to a started round, all have reported, and each
      is sent as many advantages as it last reported rewards. */
  lemma {:induction false} AllHeard(j: Job, ops: seq<Op>, sd: real)
    requires Inv(j) && AllHonest(Started(j), ops) && sd >= 0.0
    requires forall w | w in j.workers :: LastReport(ops, j.current + 1, w).Some?
    ensures var id, end := j.current + 1, RunJob(Started(j), ops);
      && id in end.rounds && end.workers == j.workers
      && (forall w | w in end.workers :: w in end.rounds[id].rewards)
      && forall i | 0 <= i < |end.workers| ::
           var message := Messages(end, end.rounds[id], sd)[i];
           && message.worker == j.workers[i]
           && var last := LastReport(ops, id, j.workers[i]);
           && last.Some? && |message.advantages| == |last.value|
  {
    var id, end := j.current + 1, RunJob(Started(j), ops);
    StepKeeps(j, Start);
    AlwaysInv(Started(j), ops);
    hide Inv, RunJob, LastReport, Messages, AllHonest;
    RoundHoldsLastReports(j, ops, "");
    forall w | w in end.workers
      ensures w in end.rounds[id].rewards && LastReport(ops, id, w) == Some(end.rounds[id].rewards[w])
    {
      RoundHoldsLastReports(j, ops, w);
    }
    SlicesJoin(end, end.rounds[id], sd);
  }

  /** What a worker is sent, number by number: times the deviation plus 1e-8, its reward less
      the mean of all rewards collected; and zero while there is at most one. */
  lemma {:induction false} MessageExact(j: Job, r: Round, sd: real, i: nat, k: nat)
    requires sd >= 0.0 && i < |j.workers| && j.workers[i] in r.rewards && k < |r.rewards[j.workers[i]]|
    ensures var all, mine, mean := AllRewards(r, j.workers), r.rewards[j.workers[i]], Closed(j, r, sd).meanReward;
      && |all| as real * mean == Total(all)
      && k < |Messages(j, r, sd)[i].advantages|
      && var advantage := Messages(j, r, sd)[i].advantages[k];
      && (|all| > 1 ==> advantage * (sd + 0.00000001) == mine[k] - mean)
      && (|all| <= 1 ==> advantage == 0.0)
  {
    hide Total, Sum, AllRewards;
    var all, mine := AllRewards(r, j.workers), r.rewards[j.workers[i]];
    MeanTimes(all);
    if |all| > 1 { DivMul(mine[k] - Mean(all), sd + EPSILON); }
  }

  /** A round for which no reward arrived closes with mean 0 and still counts one prompt. */
  lemma {:induction false} NothingCollected(j: Job, r: Round, sd: real)
    requires sd >= 0.0 && forall w | w in j.workers && w in r.rewards :: r.rewards[w] == []
    ensures var closed := Closed(j, r, sd);
      closed.meanReward == 0.0 && closed.numPrompts == 1 && closed.advantages == Some([])
  {
    NoRewards(r, j.workers);
    assert Advantages([], sd, []) == [];
  }

  lemma {:induction false} NoRewards(r: Round, workers: seq<string>)
    requires forall w | w in workers && w in r.rewards :: r.rewards[w] == []
    ensures AllRewards(r, workers) == []
  {
    if workers != [] { NoRewards(r, workers[..|workers| - 1]); }
  }

  lemma {:induction false} MeanTimes(xs: seq<real>)
    ensures |xs| as real * Mean(xs) == Total(xs)
  {
    if xs != [] { DivMul(Total(xs), |xs| as real); }
  }

  /** A round counts one prompt for every full group of rewards, and at least one. */
  lemma NumPromptsExact(cfg: Config, rewards: nat)
    ensures var size := if cfg.groupSize > 1 then cfg.groupSize else 1;
      var n := NumPrompts(cfg, rewards);
      && n >= 1 && rewards < (n + 1) * size
      && (n * size <= rewards || n == 1)
  {
    var size := if cfg.groupSize > 1 then cfg.groupSize else 1;
    var q := rewards / size;
    assert q * size <= rewards < (q + 1) * size;
    if q < 1 { assert (1 + 1) * size >= (q + 1) * size; }
  }
}
