/** The arithmetic and the lock-step operations of the DiLoCo outer step. */
module DiLoCo {
  import opened Options
  import opened Sums

  function Volume(shape: seq<nat>): nat {
    if shape == [] then 1 else shape[0] * Volume(shape[1..])
  }

  /** An array: its shape and its elements in order. */
  datatype Array = Array(shape: seq<nat>, data: seq<real>)
  type Tensor = t: Array | |t.data| == Volume(t.shape) witness Array([0], [])

  /** One tensor for each named parameter. */
  type Params = map<string, Tensor>

  datatype Settings = Settings(lr: real, mu: real, innerSteps: int, minWorkers: int)

  predicate GoodSettings(cfg: Settings) {
    cfg.lr > 0.0 && 0.0 <= cfg.mu < 1.0 && cfg.innerSteps >= 1 && cfg.minWorkers >= 1
  }

  /** The check behind `_validate_shapes`: the same names with the same shapes. */
  predicate Matches(p: Params, template: Params) {
    p.Keys == template.Keys && forall n | n in template :: p[n].shape == template[n].shape
  }

  function Zeros(p: Params): (z: Params)
    ensures Matches(z, p)
  {
    map n | n in p :: Array(p[n].shape, seq(|p[n].data|, (_: nat) => 0.0))
  }

  // ---- one outer step ---------------------------------------------------------

  function MomentumStep(mu: real, m: real, g: real): real {
    mu * m + g
  }

  function WeightStep(lr: real, mu: real, w: real, m': real, g: real): real {
    w - lr * (mu * m' + g)
  }

  function NextMomentum(mu: real, m: Tensor, g: Tensor): (r: Tensor)
    ensures r.shape == m.shape
  {
    Array(m.shape, seq(|m.data|, (i: nat) => MomentumStep(mu, At(m.data, i), At(g.data, i))))
  }

  function NextWeights(lr: real, mu: real, w: Tensor, m': Tensor, g: Tensor): (r: Tensor)
    ensures r.shape == w.shape
  {
    Array(w.shape, seq(|w.data|, (i: nat) => WeightStep(lr, mu, At(w.data, i), At(m'.data, i), At(g.data, i))))
  }

  datatype Outer = Outer(weights: Params, momentum: Params)

  predicate Coherent(o: Outer) {
    Matches(o.momentum, o.weights)
  }

  /** The Nesterov step on every parameter. */
  function Nesterov(cfg: Settings, o: Outer, g: Params): (r: Outer)
    requires Coherent(o) && Matches(g, o.weights)
    ensures Coherent(r) && Matches(r.weights, o.weights)
  {
    var momentum := map n | n in o.weights :: NextMomentum(cfg.mu, o.momentum[n], g[n]);
    Outer(map n | n in o.weights :: NextWeights(cfg.lr, cfg.mu, o.weights[n], momentum[n], g[n]), momentum)
  }

  /** The parameters outside `todo` have made their step, the others have not. */
  ghost predicate Halfway(cfg: Settings, before: Outer, g: Params, now: Outer, todo: set<string>) {
    && Coherent(before) && Matches(g, before.weights) && todo <= before.weights.Keys
    && now.weights.Keys == now.momentum.Keys == before.weights.Keys
    && (forall n | n in todo :: now.weights[n] == before.weights[n] && now.momentum[n] == before.momentum[n])
    && (forall n | n in before.weights && n !in todo ::
          && now.momentum[n] == NextMomentum(cfg.mu, before.momentum[n], g[n])
          && now.weights[n] == NextWeights(cfg.lr, cfg.mu, before.weights[n], now.momentum[n], g[n]))
  }

  lemma {:induction false} HalfwayStarts(cfg: Settings, before: Outer, g: Params)
    requires Coherent(before) && Matches(g, before.weights)
    ensures Halfway(cfg, before, g, before, before.weights.Keys)
  {
  }

  lemma {:induction false} HalfwayStep(cfg: Settings, before: Outer, g: Params, now: Outer, todo: set<string>,
      name: string)
    requires Halfway(cfg, before, g, now, todo) && name in todo
    ensures name in now.weights && name in now.momentum && name in g
    ensures var m := NextMomentum(cfg.mu, now.momentum[name], g[name]);
      Halfway(cfg, before, g,
              Outer(now.weights[name := NextWeights(cfg.lr, cfg.mu, now.weights[name], m, g[name])],
                    now.momentum[name := m]), todo - {name})
  {
    hide NextMomentum, NextWeights;
  }

  lemma {:induction false} HalfwayEnds(cfg: Settings, before: Outer, g: Params, now: Outer)
    requires Halfway(cfg, before, g, now, {})
    ensures now == Nesterov(cfg, before, g)
  {
    hide NextMomentum, NextWeights;
    var target := Nesterov(cfg, before, g);
    assert now.momentum == target.momentum;
    assert now.weights == target.weights;
  }

  // ---- averaging ----------------------------------------------------------------

  /** One buffered submission. */
  datatype Entry = Entry(worker: string, grad: Params)

  function Component(entries: seq<Entry>, name: string, i: nat): nat -> real {
    (k: nat) => if k < |entries| && name in entries[k].grad then At(entries[k].grad[name].data, i) else 0.0
  }

  /** Every entry has every layer, in the canonical shape. */
  predicate Averageable(entries: seq<Entry>, template: Params) {
    forall k, n | 0 <= k < |entries| && n in template ::
      n in entries[k].grad && entries[k].grad[n].shape == template[n].shape
  }

  function MeanTensor(entries: seq<Entry>, name: string, like: Tensor): (r: Tensor)
    requires entries != []
    ensures r.shape == like.shape
  {
    Array(like.shape, seq(|like.data|, (i: nat) => Sum(|entries|, Component(entries, name, i)) / |entries| as real))
  }

  /** The layerwise mean, or `None` where the average raises. */
  function Average(entries: seq<Entry>, template: Params): (r: Option<Params>)
    requires entries != []
    ensures r.Some? ==> Matches(r.value, template)
  {
    if Averageable(entries, template)
    then Some(map n | n in template :: MeanTensor(entries, n, template[n])) else None
  }

  /** The defence filter: any function on the snapshot; `None` where it raises. */
  type Filter = seq<Entry> -> Option<seq<Entry>>

  /** A filter that raises is skipped. */
  function Filtered(filter: Filter, entries: seq<Entry>): seq<Entry> {
    match filter(entries)
    case Some(kept) => kept
    case None => entries
  }

  // ---- the state under the lock ---------------------------------------------------

  datatype Core = Core(outer: Outer, pending: seq<Entry>, roundId: nat)

  /** Where `worker` is buffered; the length when it is not. */
  function Position(pending: seq<Entry>, worker: string): (p: nat)
    ensures p <= |pending|
    ensures p < |pending| ==> pending[p].worker == worker
    ensures forall k | 0 <= k < p :: pending[k].worker != worker
  {
    if pending == [] || pending[0].worker == worker then 0 else
      var p := 1 + Position(pending[1..], worker);
      assert forall k | 0 < k < p :: pending[k] == pending[1..][k - 1];
      p
  }

  /** A dictionary write: in place for a known worker, at the end for a new one. */
  function Buffer(pending: seq<Entry>, e: Entry): seq<Entry> {
    var p := Position(pending, e.worker);
    if p < |pending| then pending[p := e] else pending + [e]
  }

  /** At most one entry per worker, as in a dictionary. */
  ghost predicate OneEach(entries: seq<Entry>) {
    forall i, j | 0 <= i < j < |entries| :: entries[i].worker != entries[j].worker
  }

  ghost function Workers(entries: seq<Entry>): set<string> {
    set e | e in entries :: e.worker
  }

  lemma {:induction false} WorkersCounted(entries: seq<Entry>)
    requires OneEach(entries)
    ensures |Workers(entries)| == |entries|
  {
    if entries != [] {
      var init, last := entries[..|entries| - 1], entries[|entries| - 1];
      WorkersCounted(init);
      assert entries == init + [last];
      assert Workers(entries) == Workers(init) + {last.worker};
      assert last.worker !in Workers(init);
    }
  }

  /** Buffering keeps one entry per worker and adds at most its own worker. */
  lemma {:induction false} BufferOneEach(entries: seq<Entry>, e: Entry)
    requires OneEach(entries)
    ensures OneEach(Buffer(entries, e)) && Workers(Buffer(entries, e)) == Workers(entries) + {e.worker}
  {
    var p, after := Position(entries, e.worker), Buffer(entries, e);
    assert after[p] == e;
    assert forall i | 0 <= i < |entries| && i != p :: after[i] == entries[i];
    forall w ensures w in Workers(after) <==> w in Workers(entries) + {e.worker} {
      if w in Workers(entries) {
        var i :| 0 <= i < |entries| && entries[i].worker == w;
        assert after[i].worker == w;
      }
    }
  }

  function Submit(c: Core, e: Entry): Core {
    if Matches(e.grad, c.outer.weights) then c.(pending := Buffer(c.pending, e)) else c
  }

  function Reset(c: Core): Core {
    c.(pending := [])
  }

  /** The first lock section of an aggregation. */
  function Begin(c: Core): Core {
    if c.pending == [] then c else c.(pending := [], roundId := c.roundId + 1)
  }

  /** The second lock section. */
  function Commit(cfg: Settings, c: Core, avg: Params): Core
    requires Coherent(c.outer) && Matches(avg, c.outer.weights)
  {
    c.(outer := Nesterov(cfg, c.outer, avg))
  }

  // ---- the class --------------------------------------------------------------------

  datatype Outcome = NothingSubmitted | Unchanged | AverageFailed | Stepped(weights: Params)

  class DiLoCoOuterStep {
    const cfg: Settings
    var weights: Params
    var momentum: Params
    var pending: seq<Entry>
    var roundId: nat

    ghost predicate Valid()
      reads this
    {
      GoodSettings(cfg) && weights != map[] && Matches(momentum, weights) && OneEach(pending)
    }

    ghost function Abs(): Core
      reads this
    {
      Core(Outer(weights, momentum), pending, roundId)
    }

    constructor (initialWeights: Params, settings: Settings)
      requires initialWeights != map[] && GoodSettings(settings)
      ensures Valid() && cfg == settings
      ensures Abs() == Core(Outer(initialWeights, Zeros(initialWeights)), [], 0)
    {
      cfg := settings;
      weights := initialWeights;
      momentum := Zeros(initialWeights);
      pending := [];
      roundId := 0;
    }

    /** The checks of the initialiser; `null` where it raises. */
    static method Create(initialWeights: Params, settings: Settings) returns (step: DiLoCoOuterStep?)
      ensures step == null <==>
        (initialWeights == map[] || settings.lr <= 0.0 || settings.mu < 0.0 || settings.mu >= 1.0
         || settings.innerSteps < 1 || settings.minWorkers < 1)
      ensures step != null ==>
        && fresh(step) && step.Valid() && step.cfg == settings
        && step.Abs() == Core(Outer(initialWeights, Zeros(initialWeights)), [], 0)
    {
      if initialWeights == map[] || !GoodSettings(settings) { return null; }
      step := new DiLoCoOuterStep(initialWeights, settings);
    }

    method SubmitPseudoGradient(worker: string, grad: Params) returns (accepted: bool)
      requires Valid()
      modifies this`pending
      ensures Valid()
      ensures accepted <==> grad.Keys == weights.Keys && forall n | n in weights :: grad[n].shape == weights[n].shape
      ensures Abs() == Submit(old(Abs()), Entry(worker, grad))
      ensures Workers(pending) == if accepted then Workers(old(pending)) + {worker} else Workers(old(pending))
    {
      BufferOneEach(pending, Entry(worker, grad));
      accepted := Matches(grad, weights);
      if accepted { pending := Buffer(pending, Entry(worker, grad)); }
    }

    /** Enough different workers have a submission buffered, however often each sent one. */
    method ReadyToAggregate() returns (ready: bool)
      requires Valid()
      ensures ready <==> |Workers(pending)| >= cfg.minWorkers
    {
      WorkersCounted(pending);
      ready := |pending| >= cfg.minWorkers;
    }

    method ResetRound()
      requires Valid()
      modifies this`pending
      ensures Valid() && Abs() == Reset(old(Abs()))
    {
      pending := [];
    }

    /** First lock section: swap the buffer out and advance the round. */
    method TakeSnapshot() returns (snapshot: seq<Entry>)
      requires Valid()
      modifies this`pending, this`roundId
      ensures Valid() && snapshot == old(pending) && Abs() == Begin(old(Abs()))
    {
      snapshot := pending;
      if snapshot != [] {
        pending := [];
        roundId := roundId + 1;
      }
    }

    /** One layer: add the submissions up, then divide by their number. */
    method AverageLayer(entries: seq<Entry>, name: string) returns (mean: Tensor)
      requires entries != [] && Averageable(entries, weights) && name in weights
      ensures mean == MeanTensor(entries, name, weights[name])
    {
      var acc := seq(|weights[name].data|, (_: nat) => 0.0);
      for k := 0 to |entries|
        invariant acc == seq(|weights[name].data|, (i: nat) => Sum(k, Component(entries, name, i)))
      {
        acc := seq(|acc|, (i: nat) => At(acc, i) + At(entries[k].grad[name].data, i));
      }
      mean := Array(weights[name].shape, seq(|acc|, (i: nat) => At(acc, i) / |entries| as real));
      assert mean.data == MeanTensor(entries, name, weights[name]).data;
    }

    /** Outside the lock: layer by layer. */
    method AverageGradients(entries: seq<Entry>) returns (avg: Option<Params>)
      requires Valid() && entries != []
      ensures avg == Average(entries, weights)
    {
      if !Averageable(entries, weights) { return None; }
      var todo, mean := weights.Keys, map[];
      while todo != {}
        invariant todo <= weights.Keys
        invariant mean == map n | n in weights.Keys - todo :: MeanTensor(entries, n, weights[n])
        decreases todo
      {
        var name :| name in todo;
        var tensor := AverageLayer(entries, name);
        mean := mean[name := tensor];
        todo := todo - {name};
      }
      assert weights.Keys - todo == weights.Keys;
      assert mean == Average(entries, weights).value;
      avg := Some(mean);
    }

    /** Second lock section: the Nesterov step, parameter by parameter, in place. */
    method ApplyStep(avg: Params)
      requires Valid() && Matches(avg, weights)
      modifies this`weights, this`momentum
      ensures Valid() && Abs() == Commit(cfg, old(Abs()), avg)
    {
      hide NextMomentum, NextWeights, Halfway, OneEach;
      ghost var before := Outer(weights, momentum);
      HalfwayStarts(cfg, before, avg);
      var todo := weights.Keys;
      while todo != {}
        invariant todo <= weights.Keys == momentum.Keys == avg.Keys
        invariant Halfway(cfg, before, avg, Outer(weights, momentum), todo)
        decreases todo
      {
        var name :| name in todo;
        HalfwayStep(cfg, before, avg, Outer(weights, momentum), todo, name);
        var m := NextMomentum(cfg.mu, momentum[name], avg[name]);
        weights := weights[name := NextWeights(cfg.lr, cfg.mu, weights[name], m, avg[name])];
        momentum := momentum[name := m];
        todo := todo - {name};
      }
      HalfwayEnds(cfg, before, avg, Outer(weights, momentum));
    }

    /** One whole aggregation, when nothing runs between its two lock sections. */
    method AggregateAndStep(filter: Filter) returns (outcome: Outcome)
      requires Valid()
      modifies this
      ensures Valid()
      ensures old(pending) == [] ==> outcome == NothingSubmitted && Abs() == old(Abs())
      ensures old(pending) != [] ==>
        var kept := Filtered(filter, old(pending));
        var taken := Begin(old(Abs()));
        (if kept == [] then outcome == Unchanged && Abs() == taken
         else match Average(kept, old(weights))
           case None => outcome == AverageFailed && Abs() == taken
           case Some(avg) => outcome == Stepped(weights) && Abs() == Commit(cfg, taken, avg))
    {
      var snapshot := TakeSnapshot();
      if snapshot == [] { return NothingSubmitted; }
      var kept := Filtered(filter, snapshot);
      if kept == [] { return Unchanged; }
      var avg := AverageGradients(kept);
      if avg.None? { return AverageFailed; }
      ApplyStep(avg.value);
      outcome := Stepped(weights);
    }
  }
}
