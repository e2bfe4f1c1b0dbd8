/** Theorems about every run of the DiLoCo outer step: a sequential run explains it, a
    conservation law ties weights to averages, and bounded submissions bound it. */
module DiLoCoRuns {
  import opened Options
  import opened Sums
  import opened DiLoCo
  import opened DiLoCoProtocol

  // ---- every run is explained by a sequential one ---------------------------------------

  lemma {:induction false} SubmitLast(s: State, entries: seq<Entry>, n: nat)
    requires n < |entries| && s.core.pending == entries[..n] && |s.tags| == n && Fit(entries, s.core.outer.weights)
    ensures var s' := DoSubmit(s, entries[n]);
      && s'.core.pending == entries[..n + 1] && |s'.tags| == n + 1
      && s'.core.outer == s.core.outer && s'.core.roundId == s.core.roundId && s'.flights == s.flights
      && s'.rounds == s.rounds && s'.lost == s.lost && |s'.log| == |s.log| + 1
  {
    assert forall k | 0 <= k < n :: s.core.pending[k] == entries[k] && entries[k].worker != entries[n].worker;
  }

  lemma {:induction false} RunSubmits(cfg: Settings, s: State, entries: seq<Entry>, n: nat)
    requires n <= |entries| && Quiet(s) && Fit(entries, s.core.outer.weights)
    ensures var s' := Run(cfg, s, Submits(entries[..n]));
      && s'.core.pending == entries[..n] && |s'.tags| == n && s'.flights == []
      && s'.core.outer == s.core.outer && s'.core.roundId == s.core.roundId
      && s'.rounds == s.rounds && s'.lost == s.lost && |s'.log| == |s.log| + n
  {
    hide DoSubmit, Fit;
    if n > 0 {
      RunSubmits(cfg, s, entries, n - 1);
      assert Submits(entries[..n]) == Submits(entries[..n - 1]) + [SubmitStep(entries[n - 1])];
      RunAppend(cfg, s, Submits(entries[..n - 1]), [SubmitStep(entries[n - 1])]);
      SubmitLast(Run(cfg, s, Submits(entries[..n - 1])), entries, n - 1);
      RunOne(cfg, Run(cfg, s, Submits(entries[..n - 1])), SubmitStep(entries[n - 1]));
    }
  }

  lemma {:induction false} RunOne(cfg: Settings, s: State, step: Step)
    ensures Run(cfg, s, [step]) == Next(cfg, s, step)
  {
    assert [step][1..] == [];
  }

  lemma {:induction false} RunThree(cfg: Settings, s: State, a: Step, b: Step, c: Step)
    ensures Run(cfg, s, [a, b, c]) == Next(cfg, Next(cfg, Next(cfg, s, a), b), c)
  {
    hide Next;
    assert [a, b, c][1..] == [b, c] && [b, c][1..] == [c];
    RunOne(cfg, Next(cfg, Next(cfg, s, a), b), c);
  }

  /** Undisturbed, a round ends where its average takes it. */
  lemma {:induction false} AloneSteps(cfg: Settings, s: State, r: Round)
    requires Quiet(s) && Coherent(s.core.outer) && Fit(r.entries, s.core.outer.weights) && r.entries != []
    requires AverageOf(r.filter, r.entries, r.avg, s.core.outer.weights)
    ensures var s' := Run(cfg, s, Alone(r));
      Quiet(s') && Matches(r.avg, s.core.outer.weights) && s'.core.outer == Nesterov(cfg, s.core.outer, r.avg)
  {
    hide Nesterov, Matches, Coherent, Fit;
    var n := |r.entries|;
    assert r.entries[..n] == r.entries;
    RunSubmits(cfg, s, r.entries, n);
    RunAppend(cfg, s, Submits(r.entries), [BeginStep, AverageStep(0, r.filter), CommitStep(0)]);
    var s1 := Run(cfg, s, Submits(r.entries));
    RunThree(cfg, s1, BeginStep, AverageStep(0, r.filter), CommitStep(0));
    var f := Flight(s1.core.roundId, r.entries, s1.tags, Taken);
    var s2 := DoBegin(s1);
    assert s2.flights == [f] && s2.core.outer == s.core.outer;
    var s3 := DoAverage(s2, 0, r.filter);
    assert s3.flights == [f.(stage := Averaged(r.avg, r.filter))];
  }

  lemma {:induction false} SequentialReplays(cfg: Settings, weights: Params, rounds: seq<Round>)
    requires forall i | 0 <= i < |rounds| ::
      && Fit(rounds[i].entries, weights) && rounds[i].entries != []
      && AverageOf(rounds[i].filter, rounds[i].entries, rounds[i].avg, weights)
    ensures var s := Run(cfg, Init(weights), Sequential(rounds));
      && Quiet(s) && Coherent(s.core.outer) && Matches(s.core.outer.weights, weights)
      && s.core.outer == Replay(cfg, Outer(weights, Zeros(weights)), rounds)
  {
    if rounds != [] {
      var before, r := rounds[..|rounds| - 1], rounds[|rounds| - 1];
      SequentialReplays(cfg, weights, before);
      RunAppend(cfg, Init(weights), Sequential(before), Alone(r));
      var s := Run(cfg, Init(weights), Sequential(before));
      hide Nesterov;
      FitElsewhere(r, weights, s.core.outer.weights);
      AloneSteps(cfg, s, r);
      NesterovKeeps(cfg, s.core.outer, r.avg);
      MatchesTransitive(Nesterov(cfg, s.core.outer, r.avg).weights, s.core.outer.weights, weights);
    }
  }

  lemma {:induction false} FitElsewhere(r: Round, a: Params, b: Params)
    requires Matches(b, a) && Fit(r.entries, a) && AverageOf(r.filter, r.entries, r.avg, a)
    ensures Fit(r.entries, b) && AverageOf(r.filter, r.entries, r.avg, b)
  {
    AverageStable(Filtered(r.filter, r.entries), a, b);
  }

  /** Whatever submits, resets and aggregations interleave, split at the two lock
      sections, weights and momentum are those of the sequential run that plays the
      committed rounds one after the other, in commit order. */
  lemma {:induction false} Serializable(cfg: Settings, weights: Params, steps: seq<Step>)
    ensures var s := Run(cfg, Init(weights), steps);
      Run(cfg, Init(weights), Sequential(s.rounds)).core.outer == s.core.outer
  {
    Reachable(cfg, weights, steps);
    SequentialReplays(cfg, weights, Run(cfg, Init(weights), steps).rounds);
  }

  /** Nothing but a commit moves weights or momentum: a failed or emptied average, a
      submission and a reset leave both as they are. */
  lemma {:induction false} OnlyCommitsMove(cfg: Settings, s: State, step: Step)
    requires |Next(cfg, s, step).rounds| == |s.rounds|
    ensures Next(cfg, s, step).core.outer == s.core.outer
  {
  }

  // ---- one coordinate ---------------------------------------------------------------------

  /** The conservation law of the recurrence, at one coordinate. */
  ghost predicate Balanced(cfg: Settings, w0: real, w: real, m: real, total: real) {
    Mul(1.0 - cfg.mu, w0 - w) + Mul(cfg.lr, Mul(cfg.mu, Mul(cfg.mu, m))) == Mul(cfg.lr, total)
  }

  /** `d` is the step direction, `m2` the new momentum. */
  lemma Direction(mu: real, m: real, g: real, m2: real, d: real)
    requires m2 == Mul(mu, m) + g && d == Mul(mu, m2) + g
    ensures Mul(1.0 - mu, d) + Mul(mu, Mul(mu, m2)) == Mul(mu, Mul(mu, m)) + g
  {
    assert Mul(1.0 - mu, d) == d - Mul(mu, d);
    Distribute(mu, Mul(mu, m2), g);
    Distribute(mu, Mul(mu, m), g);
  }

  lemma Exchange(a: real, lr: real, d: real, rest: real, sum: real)
    requires Mul(a, d) + rest == sum
    ensures Mul(a, Mul(lr, d)) + Mul(lr, rest) == Mul(lr, sum)
  {
    assert Mul(a, Mul(lr, d)) == Mul(lr, Mul(a, d));
    hide Mul;
    Distribute(lr, Mul(a, d), rest);
  }

  lemma {:induction false} BalanceStep(cfg: Settings, w0: real, w: real, m: real, total: real, g: real)
    requires Balanced(cfg, w0, w, m, total)
    ensures var m' := MomentumStep(cfg.mu, m, g);
      Balanced(cfg, w0, WeightStep(cfg.lr, cfg.mu, w, m', g), m', total + g)
  {
    var lr, mu := cfg.lr, cfg.mu;
    var m2 := Mul(mu, m) + g;
    var d := Mul(mu, m2) + g;
    assert MomentumStep(mu, m, g) == m2 && WeightStep(lr, mu, w, m2, g) == w - Mul(lr, d);
    hide Mul, MomentumStep, WeightStep;
    Direction(mu, m, g, m2, d);
    Exchange(1.0 - mu, lr, d, Mul(mu, Mul(mu, m2)), Mul(mu, Mul(mu, m)) + g);
    Distribute(1.0 - mu, w0 - w, Mul(lr, d));
    Distribute(lr, Mul(mu, Mul(mu, m)), g);
    Distribute(lr, total, g);
    assert w0 - (w - Mul(lr, d)) == (w0 - w) + Mul(lr, d);
  }

  lemma ScaledCap(a: real, x: real, cap: real)
    requires a >= 0.0 && -cap <= x <= cap
    ensures -(a * cap) <= a * x <= a * cap
  {
    ScaleOrder(a, x, cap);
    ScaleOrder(a, -cap, x);
  }

  lemma {:induction false} BoundStep(cfg: Settings, m: real, g: real, bound: real, cap: real)
    requires GoodSettings(cfg) && cfg.mu * cap + bound == cap
    requires -cap <= m <= cap && -bound <= g <= bound
    ensures -cap <= MomentumStep(cfg.mu, m, g) <= cap
  {
    ScaledCap(cfg.mu, m, cap);
  }

  /** With bounded momentum the weight moves by at most `lr * cap`. */
  lemma {:induction false} MoveStep(cfg: Settings, w: real, m': real, g: real, bound: real, cap: real)
    requires GoodSettings(cfg) && cfg.mu * cap + bound == cap
    requires -cap <= m' <= cap && -bound <= g <= bound
    ensures -Mul(cfg.lr, cap) <= WeightStep(cfg.lr, cfg.mu, w, m', g) - w <= Mul(cfg.lr, cap)
  {
    ScaledCap(cfg.mu, m', cap);
    ScaledCap(cfg.lr, cfg.mu * m' + g, cap);
  }

  // ---- all coordinates, all runs ------------------------------------------------------------

  ghost predicate Bounded(p: Params, bound: real) {
    forall n, i | n in p && 0 <= i < |p[n].data| :: -bound <= p[n].data[i] <= bound
  }

  ghost predicate Within(p: Params, q: Params, bound: real)
    requires Matches(p, q)
  {
    forall n, i | n in p && 0 <= i < |p[n].data| :: -bound <= p[n].data[i] - q[n].data[i] <= bound
  }

  function AvgAt(rounds: seq<Round>, name: string, i: nat): nat -> real {
    (k: nat) => if k < |rounds| && name in rounds[k].avg then At(rounds[k].avg[name].data, i) else 0.0
  }

  /** One Nesterov step, seen at one coordinate. */
  lemma {:induction false} NesterovAt(cfg: Settings, o: Outer, g: Params, name: string, i: nat)
    requires Coherent(o) && Matches(g, o.weights) && name in o.weights && i < |o.weights[name].data|
    ensures var r := Nesterov(cfg, o, g);
      && |r.weights[name].data| == |r.momentum[name].data| == |o.weights[name].data| == |o.momentum[name].data|
         == |g[name].data|
      && r.momentum[name].data[i] == MomentumStep(cfg.mu, o.momentum[name].data[i], g[name].data[i])
      && r.weights[name].data[i]
         == WeightStep(cfg.lr, cfg.mu, o.weights[name].data[i], r.momentum[name].data[i], g[name].data[i])
  {
    hide MomentumStep, WeightStep;
  }

  ghost predicate AvgsFit(rounds: seq<Round>, weights: Params) {
    forall k | 0 <= k < |rounds| :: Matches(rounds[k].avg, weights)
  }

  lemma {:induction false} ReplayShape(cfg: Settings, weights: Params, rounds: seq<Round>)
    requires AvgsFit(rounds, weights)
    ensures var o := Replay(cfg, Outer(weights, Zeros(weights)), rounds);
      && Coherent(o) && Matches(o.weights, weights)
      && (rounds != [] ==>
        var before := Replay(cfg, Outer(weights, Zeros(weights)), rounds[..|rounds| - 1]);
        && Coherent(before) && Matches(before.weights, weights) && Matches(rounds[|rounds| - 1].avg, before.weights)
        && o == Nesterov(cfg, before, rounds[|rounds| - 1].avg))
  {
    if rounds != [] {
      ReplayShape(cfg, weights, rounds[..|rounds| - 1]);
      var o, r := Replay(cfg, Outer(weights, Zeros(weights)), rounds[..|rounds| - 1]), rounds[|rounds| - 1];
      assert Matches(r.avg, weights);
      NesterovKeeps(cfg, o, r.avg);
      hide Nesterov;
      MatchesTransitive(Nesterov(cfg, o, r.avg).weights, o.weights, weights);
    }
  }

  lemma {:induction false} ReplayBalanced(cfg: Settings, weights: Params, rounds: seq<Round>, name: string, i: nat)
    requires AvgsFit(rounds, weights) && name in weights && i < |weights[name].data|
    ensures var o := Replay(cfg, Outer(weights, Zeros(weights)), rounds);
      && name in o.weights && name in o.momentum
      && |o.weights[name].data| == |o.momentum[name].data| == |weights[name].data|
      && Balanced(cfg, weights[name].data[i], o.weights[name].data[i], o.momentum[name].data[i],
                  Sum(|rounds|, AvgAt(rounds, name, i)))
  {
    hide Nesterov, Balanced, MomentumStep, WeightStep, AvgAt, Sum, Mul;
    ReplayShape(cfg, weights, rounds);
    if rounds == [] {
      BalanceStart(cfg, weights[name].data[i], AvgAt(rounds, name, i));
    } else {
      var before, r := rounds[..|rounds| - 1], rounds[|rounds| - 1];
      var o := Replay(cfg, Outer(weights, Zeros(weights)), before);
      ReplayBalanced(cfg, weights, before, name, i);
      NesterovAt(cfg, o, r.avg, name, i);
      SumAvgLast(rounds, name, i);
      BalanceStep(cfg, weights[name].data[i], o.weights[name].data[i], o.momentum[name].data[i],
                  Sum(|before|, AvgAt(before, name, i)), r.avg[name].data[i]);
    }
  }

  lemma {:induction false} SumAvgLast(rounds: seq<Round>, name: string, i: nat)
    requires rounds != [] && name in rounds[|rounds| - 1].avg && i < |rounds[|rounds| - 1].avg[name].data|
    ensures Sum(|rounds|, AvgAt(rounds, name, i))
         == Sum(|rounds| - 1, AvgAt(rounds[..|rounds| - 1], name, i)) + rounds[|rounds| - 1].avg[name].data[i]
  {
    SumEq(|rounds| - 1, AvgAt(rounds[..|rounds| - 1], name, i), AvgAt(rounds, name, i));
  }

  lemma {:induction false} BalanceStart(cfg: Settings, w: real, f: nat -> real)
    ensures Balanced(cfg, w, w, 0.0, Sum(0, f))
  {
  }

  /** In every reachable state, at every coordinate: the drift of the weight, scaled by
      `1 - mu`, plus the momentum still to be spent is the learning rate times the sum
      of all averages committed so far. */
  lemma {:induction false} ConservationLaw(cfg: Settings, weights: Params, steps: seq<Step>, name: string, i: nat)
    requires name in weights && i < |weights[name].data|
    ensures var s := Run(cfg, Init(weights), steps);
      var o := s.core.outer;
      && name in o.weights && name in o.momentum
      && |o.weights[name].data| == |o.momentum[name].data| == |weights[name].data|
      && Balanced(cfg, weights[name].data[i], o.weights[name].data[i], o.momentum[name].data[i],
                  Sum(|s.rounds|, AvgAt(s.rounds, name, i)))
  {
    Reachable(cfg, weights, steps);
    RoundsFit(cfg, weights, Run(cfg, Init(weights), steps));
    ReplayBalanced(cfg, weights, Run(cfg, Init(weights), steps).rounds, name, i);
  }

  lemma {:induction false} RoundsFit(cfg: Settings, weights: Params, s: State)
    requires Inv(cfg, weights, s)
    ensures AvgsFit(s.rounds, weights)
  {
    hide Replay, Fit, Tagged;
    forall k | 0 <= k < |s.rounds| ensures Matches(s.rounds[k].avg, weights) {
      assert GoodRound(s.rounds[k], weights, s.core.roundId, s.log);
    }
  }

  /** One step keeps the momentum under the cap and moves no weight further than
      `lr * cap`. */
  lemma {:induction false} NesterovBounded(cfg: Settings, o: Outer, g: Params, bound: real, cap: real)
    requires GoodSettings(cfg) && cfg.mu * cap + bound == cap && bound >= 0.0
    requires Coherent(o) && Matches(g, o.weights) && Bounded(o.momentum, cap) && Bounded(g, bound)
    ensures var r := Nesterov(cfg, o, g);
      Bounded(r.momentum, cap) && Within(r.weights, o.weights, Mul(cfg.lr, cap))
  {
    hide MomentumStep, WeightStep, Nesterov;
    var r := Nesterov(cfg, o, g);
    NesterovKeeps(cfg, o, g);
    forall n, i | n in o.weights && 0 <= i < |o.weights[n].data|
      ensures -cap <= r.momentum[n].data[i] <= cap
      ensures -Mul(cfg.lr, cap) <= r.weights[n].data[i] - o.weights[n].data[i] <= Mul(cfg.lr, cap)
    {
      NesterovAt(cfg, o, g, n, i);
      BoundStep(cfg, o.momentum[n].data[i], g[n].data[i], bound, cap);
      MoveStep(cfg, o.weights[n].data[i], r.momentum[n].data[i], g[n].data[i], bound, cap);
    }
  }

  lemma {:induction false} ReplayBounded(cfg: Settings, weights: Params, rounds: seq<Round>, bound: real, cap: real)
    requires GoodSettings(cfg) && cfg.mu * cap + bound == cap && bound >= 0.0 && cap >= 0.0
    requires AvgsFit(rounds, weights) && forall k | 0 <= k < |rounds| :: Bounded(rounds[k].avg, bound)
    ensures var o := Replay(cfg, Outer(weights, Zeros(weights)), rounds);
      && Matches(o.weights, weights) && Bounded(o.momentum, cap)
      && Within(o.weights, weights, Drift(|rounds|, Mul(cfg.lr, cap)))
  {
    hide Nesterov, Bounded, Within, Drift, Mul;
    ReplayShape(cfg, weights, rounds);
    if rounds == [] {
      StillBounded(weights, cap, Mul(cfg.lr, cap));
    } else {
      var before, r := rounds[..|rounds| - 1], rounds[|rounds| - 1];
      var o := Replay(cfg, Outer(weights, Zeros(weights)), before);
      ReplayBounded(cfg, weights, before, bound, cap);
      NesterovBounded(cfg, o, r.avg, bound, cap);
      DriftAdds(Nesterov(cfg, o, r.avg).weights, o.weights, weights, |before|, Mul(cfg.lr, cap));
    }
  }

  lemma {:induction false} StillBounded(weights: Params, cap: real, d: real)
    requires cap >= 0.0
    ensures Bounded(Zeros(weights), cap) && Within(weights, weights, Drift(0, d))
  {
  }

  /** `k` moves of at most `d` each. */
  function Drift(k: nat, d: real): real {
    k as real * d
  }

  lemma {:induction false} DriftAdds(a: Params, b: Params, c: Params, k: nat, d: real)
    requires Matches(a, b) && Matches(b, c) && Matches(a, c)
    requires Within(a, b, d) && Within(b, c, Drift(k, d))
    ensures Within(a, c, Drift(k + 1, d))
  {
    assert Drift(k + 1, d) == Drift(k, d) + d;
    hide Drift;
    forall n, i | n in a && 0 <= i < |a[n].data|
      ensures -Drift(k + 1, d) <= a[n].data[i] - c[n].data[i] <= Drift(k + 1, d)
    {
      assert |a[n].data| == |b[n].data| == |c[n].data|;
    }
  }

  // ---- bounded submissions bound every run ----------------------------------------------------

  lemma {:induction false} MeanBounded(entries: seq<Entry>, name: string, like: Tensor, bound: real)
    requires entries != [] && bound >= 0.0
    requires forall k | 0 <= k < |entries| :: Bounded(entries[k].grad, bound)
    ensures forall i | 0 <= i < |like.data| :: -bound <= MeanTensor(entries, name, like).data[i] <= bound
  {
    hide Mul, Sum;
    forall i: nat | i < |like.data| ensures -bound <= MeanTensor(entries, name, like).data[i] <= bound {
      var n, f := |entries|, Component(entries, name, i);
      forall k: nat | k < n ensures -bound <= f(k) <= bound {
        assert Bounded(entries[k].grad, bound);
      }
      SumWithin(n, f, bound);
      Quotient(Sum(n, f), n as real, bound);
    }
  }

  lemma {:induction false} SumWithin(n: nat, f: nat -> real, bound: real)
    requires forall k: nat | k < n :: -bound <= f(k) <= bound
    ensures Mul(n as real, -bound) <= Sum(n, f) <= Mul(n as real, bound)
  {
    if n > 0 {
      SumWithin(n - 1, f, bound);
      assert n as real == (n - 1) as real + 1.0;
    }
  }

  lemma Quotient(x: real, n: real, bound: real)
    requires n > 0.0 && Mul(n, -bound) <= x <= Mul(n, bound)
    ensures -bound <= x / n <= bound
  {
    Divided(x, n);
    CancelOrder(n, x / n, bound);
    CancelOrder(n, -bound, x / n);
  }

  lemma Divided(x: real, n: real)
    requires n > 0.0
    ensures n * (x / n) == x
  {
  }

  lemma {:induction false} AverageBounded(entries: seq<Entry>, template: Params, bound: real)
    requires entries != [] && bound >= 0.0 && Average(entries, template).Some?
    requires forall k | 0 <= k < |entries| :: Bounded(entries[k].grad, bound)
    ensures Bounded(Average(entries, template).value, bound)
  {
    forall n | n in template
      ensures forall i | 0 <= i < |template[n].data| :: -bound <= MeanTensor(entries, n, template[n]).data[i] <= bound
    {
      MeanBounded(entries, n, template[n], bound);
    }
  }

  ghost predicate Identity(filter: Filter) {
    forall entries :: filter(entries) == Some(entries)
  }

  ghost predicate Unfiltered(s: State) {
    && (forall i | 0 <= i < |s.flights| && s.flights[i].stage.Averaged? :: Identity(s.flights[i].stage.filter))
    && (forall i | 0 <= i < |s.rounds| :: Identity(s.rounds[i].filter))
  }

  lemma {:induction false} RunUnfiltered(cfg: Settings, s: State, steps: seq<Step>)
    requires Unfiltered(s)
    requires forall k | 0 <= k < |steps| && steps[k].AverageStep? :: Identity(steps[k].filter)
    ensures Unfiltered(Run(cfg, s, steps))
    decreases |steps|
  {
    if steps != [] {
      StepUnfiltered(cfg, s, steps[0]);
      RunUnfiltered(cfg, Next(cfg, s, steps[0]), steps[1..]);
    }
  }

  lemma {:induction false} StepUnfiltered(cfg: Settings, s: State, step: Step)
    requires Unfiltered(s) && (step.AverageStep? ==> Identity(step.filter))
    ensures Unfiltered(Next(cfg, s, step))
  {
    hide Identity, Average, Filtered, Submit, Commit, Coherent, Matches;
  }

  lemma {:induction false} RoundsBounded(cfg: Settings, weights: Params, s: State, bound: real)
    requires Inv(cfg, weights, s) && Unfiltered(s) && bound >= 0.0
    requires forall t | 0 <= t < |s.log| :: Bounded(s.log[t].grad, bound)
    ensures forall k | 0 <= k < |s.rounds| :: Bounded(s.rounds[k].avg, bound)
  {
    hide Replay, Bounded, Average, Matches;
    forall k | 0 <= k < |s.rounds| ensures Bounded(s.rounds[k].avg, bound) {
      var r := s.rounds[k];
      assert GoodRound(r, weights, s.core.roundId, s.log);
      assert Filtered(r.filter, r.entries) == r.entries;
      forall j | 0 <= j < |r.entries| ensures Bounded(r.entries[j].grad, bound) {
        assert s.log[r.tags[j]] == r.entries[j];
      }
      AverageBounded(r.entries, weights, bound);
    }
  }

  function Cap(cfg: Settings, bound: real): real
    requires GoodSettings(cfg)
  {
    bound / (1.0 - cfg.mu)
  }

  /** Every accepted coordinate of the run has magnitude at most `bound`. */
  ghost predicate AcceptedBounded(s: State, bound: real) {
    forall t | 0 <= t < |s.log| :: Bounded(s.log[t].grad, bound)
  }

  /** Without a defence filter, accepted coordinates of magnitude at most `bound` keep
      every momentum within `bound / (1 - mu)`, and after `t` commits no weight is
      further than `t * lr * bound / (1 - mu)` from where it started. What was refused
      may have been of any size. */
  lemma {:induction false} BoundedRun(cfg: Settings, weights: Params, steps: seq<Step>, bound: real)
    requires GoodSettings(cfg) && bound >= 0.0
    requires forall k | 0 <= k < |steps| && steps[k].AverageStep? :: Identity(steps[k].filter)
    ensures var s := Run(cfg, Init(weights), steps);
      AcceptedBounded(s, bound) ==>
        && Matches(s.core.outer.weights, weights)
        && Bounded(s.core.outer.momentum, Cap(cfg, bound))
        && Within(s.core.outer.weights, weights, Drift(|s.rounds|, Mul(cfg.lr, Cap(cfg, bound))))
  {
    hide Bounded, Within, Drift, Inv, Unfiltered, Cap, Mul;
    var s := Run(cfg, Init(weights), steps);
    Reachable(cfg, weights, steps);
    StartUnfiltered(weights);
    RunUnfiltered(cfg, Init(weights), steps);
    if AcceptedBounded(s, bound) { BoundedState(cfg, weights, s, bound); }
  }

  lemma {:induction false} CommitAddsRound(cfg: Settings, s: State, k: nat)
    ensures var s' := Next(cfg, s, CommitStep(k));
      && s'.log == s.log
      && ((s'.rounds == s.rounds && s'.core.outer == s.core.outer)
          || (s'.rounds != [] && Coherent(s.core.outer)
              && Matches(s'.rounds[|s'.rounds| - 1].avg, s.core.outer.weights)
              && s'.core.outer == Nesterov(cfg, s.core.outer, s'.rounds[|s'.rounds| - 1].avg)))
  {
    hide Nesterov, Matches, Coherent;
  }

  /** In the same runs, the next commit moves no weight further than
      `lr * bound / (1 - mu)`, whichever aggregation commits. */
  lemma {:induction false} CommitMoves(cfg: Settings, weights: Params, steps: seq<Step>, k: nat, bound: real)
    requires GoodSettings(cfg) && bound >= 0.0
    requires forall i | 0 <= i < |steps| && steps[i].AverageStep? :: Identity(steps[i].filter)
    ensures var s := Run(cfg, Init(weights), steps);
      var s' := Next(cfg, s, CommitStep(k));
      AcceptedBounded(s, bound) ==>
        && Matches(s'.core.outer.weights, s.core.outer.weights)
        && Within(s'.core.outer.weights, s.core.outer.weights, Mul(cfg.lr, Cap(cfg, bound)))
  {
    hide Bounded, Within, Inv, Unfiltered, Cap, Mul, Nesterov, Next, Matches;
    var s := Run(cfg, Init(weights), steps);
    var s' := Next(cfg, s, CommitStep(k));
    if AcceptedBounded(s, bound) {
      RunAppend(cfg, Init(weights), steps, [CommitStep(k)]);
      RunOne(cfg, s, CommitStep(k));
      StartUnfiltered(weights);
      RunUnfiltered(cfg, Init(weights), steps + [CommitStep(k)]);
      Reachable(cfg, weights, steps + [CommitStep(k)]);
      BoundedRun(cfg, weights, steps, bound);
      CommitAddsRound(cfg, s, k);
      CapBalances(cfg, bound);
      RoundsBounded(cfg, weights, s', bound);
      if s'.core.outer == s.core.outer {
        Unmoved(s.core.outer.weights, Mul(cfg.lr, Cap(cfg, bound)), cfg.lr, Cap(cfg, bound));
      } else {
        var avg := s'.rounds[|s'.rounds| - 1].avg;
        NesterovKeeps(cfg, s.core.outer, avg);
        NesterovBounded(cfg, s.core.outer, avg, bound, Cap(cfg, bound));
      }
    }
  }

  lemma {:induction false} Unmoved(p: Params, reach: real, lr: real, cap: real)
    requires lr > 0.0 && cap >= 0.0 && reach == Mul(lr, cap)
    ensures Matches(p, p) && Within(p, p, reach)
  {
    ScaleOrder(lr, 0.0, cap);
  }

  lemma {:induction false} BoundedState(cfg: Settings, weights: Params, s: State, bound: real)
    requires GoodSettings(cfg) && bound >= 0.0 && Inv(cfg, weights, s) && Unfiltered(s)
    requires forall t | 0 <= t < |s.log| :: Bounded(s.log[t].grad, bound)
    ensures Matches(s.core.outer.weights, weights)
    ensures Bounded(s.core.outer.momentum, Cap(cfg, bound))
    ensures Within(s.core.outer.weights, weights, Drift(|s.rounds|, Mul(cfg.lr, Cap(cfg, bound))))
  {
    hide Bounded, Within, Drift, Inv, Unfiltered, Cap, Mul;
    CapBalances(cfg, bound);
    OuterIsReplay(cfg, weights, s);
    RoundsBounded(cfg, weights, s, bound);
    RoundsFit(cfg, weights, s);
    ReplayBounded(cfg, weights, s.rounds, bound, Cap(cfg, bound));
  }

  lemma {:induction false} OuterIsReplay(cfg: Settings, weights: Params, s: State)
    requires Inv(cfg, weights, s)
    ensures s.core.outer == Replay(cfg, Outer(weights, Zeros(weights)), s.rounds)
  {
  }

  lemma {:induction false} StartUnfiltered(weights: Params)
    ensures Unfiltered(Init(weights))
  {
  }

  lemma {:induction false} CapBalances(cfg: Settings, bound: real)
    requires GoodSettings(cfg) && bound >= 0.0
    ensures Cap(cfg, bound) >= 0.0 && cfg.mu * Cap(cfg, bound) + bound == Cap(cfg, bound)
  {
    var rest := 1.0 - cfg.mu;
    var cap := bound / rest;
    Divided(bound, rest);
    assert rest * cap == cap - cfg.mu * cap;
    if cap < 0.0 { NegativeProduct(rest, cap); }
  }

  // ---- the readiness gate -----------------------------------------------------------------------

  /** `maybe_aggregate` tests the buffer in one lock section and takes it in another. The
      test still holds when the buffer is taken if no other caller took or reset it. */
  lemma {:induction false} GateHolds(cfg: Settings, s: State, between: seq<Step>)
    requires forall k | 0 <= k < |between| :: !between[k].BeginStep? && !between[k].ResetStep?
    ensures |Run(cfg, s, between).core.pending| >= |s.core.pending|
    decreases |between|
  {
    if between != [] {
      GateHolds(cfg, Next(cfg, s, between[0]), between[1..]);
    }
  }

  datatype Kind = SubmitKind | ResetKind | BeginKind | AverageKind | CommitKind

  function KindOf(step: Step): Kind {
    match step
    case SubmitStep(_) => SubmitKind
    case ResetStep => ResetKind
    case BeginStep => BeginKind
    case AverageStep(_, _) => AverageKind
    case CommitStep(_) => CommitKind
  }

  ghost predicate DrawnFrom(steps: seq<Step>, kinds: set<Kind>) {
    forall k | 0 <= k < |steps| :: KindOf(steps[k]) in kinds
  }

  /** The test that was passed still holds after anything drawn from `kinds`. */
  ghost predicate GateSurvives(cfg: Settings, s: State, kinds: set<Kind>) {
    forall between: seq<Step> | DrawnFrom(between, kinds) :: |Run(cfg, s, between).core.pending| >= cfg.minWorkers
  }

  /** What other callers may do between the test and the taking of the buffer: the test
      survives exactly when none of them takes the buffer or resets it. Two callers that
      both pass the test are the case where it fails: the second finds nothing. */
  lemma {:induction false} GateSurvivesIff(cfg: Settings, s: State, kinds: set<Kind>)
    requires |s.core.pending| >= cfg.minWorkers >= 1
    ensures GateSurvives(cfg, s, kinds) <==> BeginKind !in kinds && ResetKind !in kinds
  {
    hide Run, Next;
    if BeginKind !in kinds && ResetKind !in kinds {
      forall between: seq<Step> | DrawnFrom(between, kinds)
        ensures |Run(cfg, s, between).core.pending| >= cfg.minWorkers
      {
        forall k | 0 <= k < |between| ensures !between[k].BeginStep? && !between[k].ResetStep? {
          assert KindOf(between[k]) in kinds;
        }
        GateHolds(cfg, s, between);
      }
    } else {
      var taker := if BeginKind in kinds then BeginStep else ResetStep;
      RunOne(cfg, s, taker);
      TakesAll(cfg, s);
      assert DrawnFrom([taker], kinds);
    }
  }

  lemma {:induction false} TakesAll(cfg: Settings, s: State)
    ensures |Next(cfg, s, BeginStep).core.pending| == 0 == |Next(cfg, s, ResetStep).core.pending|
  {
  }

  // ---- which round was aggregated ----------------------------------------------------------------

  /** How often the steps take a buffer that is not empty. */
  function Takings(cfg: Settings, s: State, steps: seq<Step>): nat
    decreases |steps|
  {
    if steps == [] then 0
    else
      (if steps[0].BeginStep? && s.core.pending != [] then 1 else 0)
      + Takings(cfg, Next(cfg, s, steps[0]), steps[1..])
  }

  lemma {:induction false} RoundsCount(cfg: Settings, s: State, steps: seq<Step>)
    ensures Run(cfg, s, steps).core.roundId == s.core.roundId + Takings(cfg, s, steps)
    decreases |steps|
  {
    if steps != [] {
      OneTaking(cfg, s, steps[0]);
      hide Next;
      RoundsCount(cfg, Next(cfg, s, steps[0]), steps[1..]);
    }
  }

  lemma {:induction false} OneTaking(cfg: Settings, s: State, step: Step)
    ensures Next(cfg, s, step).core.roundId
      == s.core.roundId + if step.BeginStep? && s.core.pending != [] then 1 else 0
  {
    hide Average, Filtered, Coherent, Matches, Nesterov;
  }

  /** `maybe_aggregate` reads the round number in one lock section, at `s`, and takes the
      buffer in another. The number it returns is that of the round it took exactly when
      no other caller took a round in between. */
  lemma {:induction false} ReportedRoundIff(cfg: Settings, s: State, between: seq<Step>)
    ensures var before, s' := s.core.roundId, Run(cfg, s, between);
      s'.core.pending != [] ==>
        var taken := Next(cfg, s', BeginStep).flights;
        && |taken| == |s'.flights| + 1
        && (taken[|s'.flights|].round == before <==> Takings(cfg, s, between) == 0)
  {
    hide Run;
    RoundsCount(cfg, s, between);
  }
}
