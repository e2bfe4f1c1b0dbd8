/** Concurrent runs of the DiLoCo outer step. An aggregation is three steps: it takes the
    buffer under the lock, averages without the lock, and commits under the lock; other
    callers may run in between. Every accepted submission gets a number, its position in
    `log`, so that a run can be asked what became of it. */
module DiLoCoProtocol {
  import opened Options
  import opened DiLoCo

  datatype Stage = Taken | Averaged(avg: Params, filter: Filter)

  /** An aggregation under way. */
  datatype Flight = Flight(round: nat, entries: seq<Entry>, tags: seq<nat>, stage: Stage)

  /** A committed aggregation. */
  datatype Round = Round(round: nat, entries: seq<Entry>, tags: seq<nat>, filter: Filter, avg: Params)

  /** Why a submission was never averaged: its worker submitted again (`newer`), a reset
      dropped it, the filter kept nothing of its round, or what the filter kept of its
      round could not be averaged. */
  datatype Loss =
    | Overwritten(newer: nat)
    | Discarded
    | Emptied(filter: Filter, entries: seq<Entry>)
    | Failed(filter: Filter, entries: seq<Entry>)

  datatype State = State(
    core: Core,
    tags: seq<nat>,
    flights: seq<Flight>,
    rounds: seq<Round>,
    lost: seq<(nat, Loss)>,
    log: seq<Entry>)

  datatype Step =
    | SubmitStep(entry: Entry)
    | ResetStep
    | BeginStep
    | AverageStep(k: nat, filter: Filter)
    | CommitStep(k: nat)

  function Init(weights: Params): State {
    State(Core(Outer(weights, Zeros(weights)), [], 0), [], [], [], [], [])
  }

  function Remove<T>(s: seq<T>, k: nat): seq<T>
    requires k < |s|
  {
    s[..k] + s[k + 1..]
  }

  function Losses(tags: seq<nat>, why: Loss): (r: seq<(nat, Loss)>)
    ensures |r| == |tags|
  {
    seq(|tags|, i requires 0 <= i < |tags| => (tags[i], why))
  }

  function DoSubmit(s: State, e: Entry): State
    requires |s.tags| == |s.core.pending|
  {
    if !Matches(e.grad, s.core.outer.weights) then s
    else
      var p, tag := Position(s.core.pending, e.worker), |s.log|;
      var s' := s.(core := Submit(s.core, e), log := s.log + [e]);
      if p < |s.tags|
      then s'.(tags := s.tags[p := tag], lost := s.lost + [(s.tags[p], Overwritten(tag))])
      else s'.(tags := s.tags + [tag])
  }

  function DoReset(s: State): State {
    s.(core := Reset(s.core), tags := [], lost := s.lost + Losses(s.tags, Discarded))
  }

  /** Raises, changing nothing, when the buffer is empty. */
  function DoBegin(s: State): State {
    if s.core.pending == [] then s
    else s.(core := Begin(s.core), tags := [],
            flights := s.flights + [Flight(s.core.roundId, s.core.pending, s.tags, Taken)])
  }

  /** Reads the canonical weights without the lock, for their names and shapes. */
  function DoAverage(s: State, k: nat, filter: Filter): State {
    if k >= |s.flights| || s.flights[k].stage != Taken then s
    else
      var f := s.flights[k];
      var kept := Filtered(filter, f.entries);
      if kept == []
      then s.(flights := Remove(s.flights, k), lost := s.lost + Losses(f.tags, Emptied(filter, f.entries)))
      else
        match Average(kept, s.core.outer.weights)
        case None => s.(flights := Remove(s.flights, k), lost := s.lost + Losses(f.tags, Failed(filter, f.entries)))
        case Some(avg) => s.(flights := s.flights[k := f.(stage := Averaged(avg, filter))])
  }

  function DoCommit(cfg: Settings, s: State, k: nat): State {
    if k >= |s.flights| || !s.flights[k].stage.Averaged? || !Coherent(s.core.outer)
       || !Matches(s.flights[k].stage.avg, s.core.outer.weights) then s
    else
      var f := s.flights[k];
      s.(core := Commit(cfg, s.core, f.stage.avg),
         flights := Remove(s.flights, k),
         rounds := s.rounds + [Round(f.round, f.entries, f.tags, f.stage.filter, f.stage.avg)])
  }

  function Next(cfg: Settings, s: State, step: Step): State {
    match step
    case SubmitStep(e) => if |s.tags| == |s.core.pending| then DoSubmit(s, e) else s
    case ResetStep => DoReset(s)
    case BeginStep => DoBegin(s)
    case AverageStep(k, filter) => DoAverage(s, k, filter)
    case CommitStep(k) => DoCommit(cfg, s, k)
  }

  function Run(cfg: Settings, s: State, steps: seq<Step>): State
    decreases |steps|
  {
    if steps == [] then s else Run(cfg, Next(cfg, s, steps[0]), steps[1..])
  }

  lemma {:induction false} RunAppend(cfg: Settings, s: State, a: seq<Step>, b: seq<Step>)
    ensures Run(cfg, s, a + b) == Run(cfg, Run(cfg, s, a), b)
    decreases |a|
  {
    if a == [] {
      assert a + b == b;
    } else {
      assert (a + b)[1..] == a[1..] + b;
      RunAppend(cfg, Next(cfg, s, a[0]), a[1..], b);
    }
  }

  // ---- where every submission is ----------------------------------------------------

  ghost function FlightTags(flights: seq<Flight>): multiset<nat> {
    if flights == [] then multiset{} else multiset(flights[0].tags) + FlightTags(flights[1..])
  }

  ghost function RoundTags(rounds: seq<Round>): multiset<nat> {
    if rounds == [] then multiset{} else multiset(rounds[0].tags) + RoundTags(rounds[1..])
  }

  ghost function LostTags(lost: seq<(nat, Loss)>): multiset<nat> {
    if lost == [] then multiset{} else multiset{lost[0].0} + LostTags(lost[1..])
  }

  /** All places a submission can be in. */
  ghost function Whereabouts(s: State): multiset<nat> {
    multiset(s.tags) + FlightTags(s.flights) + RoundTags(s.rounds) + LostTags(s.lost)
  }

  lemma {:induction false} FlightTagsAppend(a: seq<Flight>, b: seq<Flight>)
    ensures FlightTags(a + b) == FlightTags(a) + FlightTags(b)
  {
    if a == [] {
      assert a + b == b;
    } else {
      assert (a + b)[1..] == a[1..] + b;
      FlightTagsAppend(a[1..], b);
    }
  }

  lemma {:induction false} FlightTagsRemove(flights: seq<Flight>, k: nat)
    requires k < |flights|
    ensures FlightTags(flights) == FlightTags(Remove(flights, k)) + multiset(flights[k].tags)
  {
    FlightTagsAppend(flights[..k], flights[k + 1..]);
    FlightTagsAppend(flights[..k], flights[k..]);
    assert flights == flights[..k] + flights[k..] && flights[k..][1..] == flights[k + 1..];
  }

  lemma {:induction false} FlightTagsUpdate(flights: seq<Flight>, k: nat, f: Flight)
    requires k < |flights| && f.tags == flights[k].tags
    ensures FlightTags(flights[k := f]) == FlightTags(flights)
  {
    FlightTagsRemove(flights, k);
    FlightTagsRemove(flights[k := f], k);
    assert Remove(flights[k := f], k) == Remove(flights, k);
  }

  lemma {:induction false} RoundTagsAppend(a: seq<Round>, r: Round)
    ensures RoundTags(a + [r]) == RoundTags(a) + multiset(r.tags)
  {
    if a == [] {
      assert [r][1..] == [];
      assert a + [r] == [r];
    } else {
      assert (a + [r])[1..] == a[1..] + [r];
      RoundTagsAppend(a[1..], r);
    }
  }

  lemma {:induction false} LostTagsAppend(a: seq<(nat, Loss)>, b: seq<(nat, Loss)>)
    ensures LostTags(a + b) == LostTags(a) + LostTags(b)
  {
    if a == [] {
      assert a + b == b;
    } else {
      assert (a + b)[1..] == a[1..] + b;
      LostTagsAppend(a[1..], b);
    }
  }

  lemma {:induction false} LossesTags(tags: seq<nat>, why: Loss)
    ensures LostTags(Losses(tags, why)) == multiset(tags)
  {
    if tags != [] {
      assert Losses(tags, why)[1..] == Losses(tags[1..], why);
      assert tags == [tags[0]] + tags[1..];
      LossesTags(tags[1..], why);
    }
  }

  lemma {:induction false} BufferedTags(tags: seq<nat>, p: nat, tag: nat)
    requires p < |tags|
    ensures multiset(tags[p := tag]) + multiset{tags[p]} == multiset(tags) + multiset{tag}
  {
  }

  lemma {:induction false} Shuffle(t: multiset<nat>, t': multiset<nat>, f: multiset<nat>, r: multiset<nat>,
                                   l: multiset<nat>, gone: multiset<nat>, new': multiset<nat>)
    requires t' + gone == t + new'
    ensures t' + f + r + (l + gone) == t + f + r + l + new'
  {
    forall x ensures (t' + f + r + (l + gone))[x] == (t + f + r + l + new')[x] {
      assert (t' + gone)[x] == (t + new')[x];
    }
  }

  lemma {:induction false} SubmitConserves(s: State, e: Entry)
    requires |s.tags| == |s.core.pending| && Matches(e.grad, s.core.outer.weights)
    ensures Whereabouts(DoSubmit(s, e)) == Whereabouts(s) + multiset{|s.log|}
  {
    hide Matches;
    var p, tag := Position(s.core.pending, e.worker), |s.log|;
    var s' := DoSubmit(s, e);
    if p < |s.tags| {
      BufferedTags(s.tags, p, tag);
      LostTagsAppend(s.lost, [(s.tags[p], Overwritten(tag))]);
      assert LostTags([(s.tags[p], Overwritten(tag))][1..]) == multiset{};
      Shuffle(multiset(s.tags), multiset(s'.tags), FlightTags(s.flights), RoundTags(s.rounds), LostTags(s.lost),
              multiset{s.tags[p]}, multiset{tag});
    } else {
      assert multiset(s'.tags) == multiset(s.tags) + multiset{tag};
      Shuffle(multiset(s.tags), multiset(s'.tags), FlightTags(s.flights), RoundTags(s.rounds), LostTags(s.lost),
              multiset{}, multiset{tag});
    }
  }

  lemma {:induction false} ResetConserves(s: State)
    ensures Whereabouts(DoReset(s)) == Whereabouts(s)
  {
    LossesTags(s.tags, Discarded);
    LostTagsAppend(s.lost, Losses(s.tags, Discarded));
  }

  lemma {:induction false} BeginConserves(s: State)
    requires |s.tags| == |s.core.pending|
    ensures Whereabouts(DoBegin(s)) == Whereabouts(s)
  {
    var f := Flight(s.core.roundId, s.core.pending, s.tags, Taken);
    FlightTagsAppend(s.flights, [f]);
    assert FlightTags([f][1..]) == multiset{};
  }

  /** An aggregation that ends without a step gives its submissions up. */
  lemma {:induction false} GivenUp(s: State, k: nat, why: Loss)
    requires k < |s.flights|
    ensures Whereabouts(s.(flights := Remove(s.flights, k), lost := s.lost + Losses(s.flights[k].tags, why)))
         == Whereabouts(s)
  {
    FlightTagsRemove(s.flights, k);
    LossesTags(s.flights[k].tags, why);
    LostTagsAppend(s.lost, Losses(s.flights[k].tags, why));
  }

  lemma {:induction false} AverageConserves(s: State, k: nat, filter: Filter)
    ensures Whereabouts(DoAverage(s, k, filter)) == Whereabouts(s)
  {
    hide Average, Filtered;
    if k < |s.flights| && s.flights[k].stage == Taken {
      var f := s.flights[k];
      var kept := Filtered(filter, f.entries);
      if kept == [] {
        GivenUp(s, k, Emptied(filter, f.entries));
      } else if Average(kept, s.core.outer.weights).None? {
        GivenUp(s, k, Failed(filter, f.entries));
      } else {
        FlightTagsUpdate(s.flights, k, f.(stage := Averaged(Average(kept, s.core.outer.weights).value, filter)));
      }
    }
  }

  lemma {:induction false} CommitConserves(cfg: Settings, s: State, k: nat)
    ensures Whereabouts(DoCommit(cfg, s, k)) == Whereabouts(s)
  {
    hide Commit, Matches, Coherent;
    var s' := DoCommit(cfg, s, k);
    if |s'.rounds| > |s.rounds| {
      FlightTagsRemove(s.flights, k);
      RoundTagsAppend(s.rounds, s'.rounds[|s.rounds|]);
    }
  }

  /** Conservation: a step neither loses nor doubles a submission, and an accepted one
      appears once. */
  lemma {:induction false} StepConserves(cfg: Settings, s: State, step: Step)
    requires |s.tags| == |s.core.pending|
    ensures |Next(cfg, s, step).tags| == |Next(cfg, s, step).core.pending|
    ensures if step.SubmitStep? && Matches(step.entry.grad, s.core.outer.weights)
      then Next(cfg, s, step).log == s.log + [step.entry]
           && Whereabouts(Next(cfg, s, step)) == Whereabouts(s) + multiset{|s.log|}
      else Next(cfg, s, step).log == s.log && Whereabouts(Next(cfg, s, step)) == Whereabouts(s)
  {
    hide Matches, Whereabouts, Average, Filtered, Coherent;
    match step
    case SubmitStep(e) => if Matches(e.grad, s.core.outer.weights) { SubmitConserves(s, e); }
    case ResetStep => ResetConserves(s);
    case BeginStep => BeginConserves(s);
    case AverageStep(k, filter) => AverageConserves(s, k, filter);
    case CommitStep(k) => CommitConserves(cfg, s, k);
  }

  ghost function Numbers(n: nat): multiset<nat> {
    if n == 0 then multiset{} else Numbers(n - 1) + multiset{n - 1}
  }

  lemma {:induction false} NumbersOnce(n: nat, t: nat)
    ensures Numbers(n)[t] == if t < n then 1 else 0
  {
    if n > 0 { NumbersOnce(n - 1, t); }
  }

  /** In every reachable state each accepted submission is in exactly one place: still
      buffered, in exactly one aggregation under way, taken by exactly one committed
      round, or lost for one recorded reason. */
  lemma {:induction false} EachSubmissionOnce(cfg: Settings, weights: Params, steps: seq<Step>, t: nat)
    ensures var s := Run(cfg, Init(weights), steps);
      multiset(s.tags)[t] + FlightTags(s.flights)[t] + RoundTags(s.rounds)[t] + LostTags(s.lost)[t]
      == if t < |s.log| then 1 else 0
  {
    RunConserves(cfg, Init(weights), steps);
    NumbersOnce(|Run(cfg, Init(weights), steps).log|, t);
  }

  lemma {:induction false} RunConserves(cfg: Settings, s: State, steps: seq<Step>)
    requires |s.tags| == |s.core.pending| && Whereabouts(s) == Numbers(|s.log|)
    ensures |Run(cfg, s, steps).tags| == |Run(cfg, s, steps).core.pending|
    ensures Whereabouts(Run(cfg, s, steps)) == Numbers(|Run(cfg, s, steps).log|)
    decreases |steps|
  {
    hide Whereabouts, Next;
    if steps != [] {
      StepConserves(cfg, s, steps[0]);
      RunConserves(cfg, Next(cfg, s, steps[0]), steps[1..]);
    }
  }

  // ---- what the places hold -----------------------------------------------------------

  ghost predicate Tagged(entries: seq<Entry>, tags: seq<nat>, log: seq<Entry>) {
    |entries| == |tags| && forall i | 0 <= i < |tags| :: tags[i] < |log| && log[tags[i]] == entries[i]
  }

  ghost predicate Fit(entries: seq<Entry>, template: Params) {
    OneEach(entries) && forall i | 0 <= i < |entries| :: Matches(entries[i].grad, template)
  }

  ghost predicate AverageOf(filter: Filter, entries: seq<Entry>, avg: Params, template: Params) {
    var kept := Filtered(filter, entries);
    kept != [] && Average(kept, template) == Some(avg)
  }

  ghost predicate GoodFlight(f: Flight, weights: Params, roundId: nat, log: seq<Entry>) {
    && Tagged(f.entries, f.tags, log) && Fit(f.entries, weights) && f.entries != [] && f.round < roundId
    && (f.stage.Averaged? ==> AverageOf(f.stage.filter, f.entries, f.stage.avg, weights))
  }

  ghost predicate GoodRound(r: Round, weights: Params, roundId: nat, log: seq<Entry>) {
    && Tagged(r.entries, r.tags, log) && Fit(r.entries, weights) && r.entries != [] && r.round < roundId
    && AverageOf(r.filter, r.entries, r.avg, weights)
  }

  /** What each reason for a loss means: a later submission of the same worker, a filter
      that kept nothing of the round, or one whose result lacks a layer or a shape. */
  ghost predicate GoodLoss(l: (nat, Loss), weights: Params, log: seq<Entry>) {
    && l.0 < |log|
    && match l.1
       case Overwritten(newer) => l.0 < newer < |log| && log[l.0].worker == log[newer].worker
       case Discarded => true
       case Emptied(filter, entries) => Took(l.0, entries, weights, log) && Filtered(filter, entries) == []
       case Failed(filter, entries) =>
         && Took(l.0, entries, weights, log)
         && Filtered(filter, entries) != [] && Average(Filtered(filter, entries), weights) == None
  }

  /** An aggregation took `entries`, submission `tag` among them. */
  ghost predicate Took(tag: nat, entries: seq<Entry>, weights: Params, log: seq<Entry>) {
    tag < |log| && log[tag] in entries && Fit(entries, weights)
  }

  ghost predicate RoundsDiffer(flights: seq<Flight>, rounds: seq<Round>) {
    && (forall i, j | 0 <= i < j < |flights| :: flights[i].round != flights[j].round)
    && (forall i, j | 0 <= i < j < |rounds| :: rounds[i].round != rounds[j].round)
    && (forall i, j | 0 <= i < |flights| && 0 <= j < |rounds| :: flights[i].round != rounds[j].round)
  }

  /** The committed averages, applied in commit order. */
  function Replay(cfg: Settings, o: Outer, rounds: seq<Round>): Outer {
    if rounds == [] then o
    else
      var before := Replay(cfg, o, rounds[..|rounds| - 1]);
      var avg := rounds[|rounds| - 1].avg;
      if Coherent(before) && Matches(avg, before.weights) then Nesterov(cfg, before, avg) else before
  }

  /** What every reachable state satisfies. */
  ghost predicate Inv(cfg: Settings, weights: Params, s: State) {
    && Coherent(s.core.outer) && Matches(s.core.outer.weights, weights)
    && Tagged(s.core.pending, s.tags, s.log) && Fit(s.core.pending, weights)
    && (forall i | 0 <= i < |s.flights| :: GoodFlight(s.flights[i], weights, s.core.roundId, s.log))
    && (forall i | 0 <= i < |s.rounds| :: GoodRound(s.rounds[i], weights, s.core.roundId, s.log))
    && (forall i | 0 <= i < |s.lost| :: GoodLoss(s.lost[i], weights, s.log))
    && RoundsDiffer(s.flights, s.rounds)
    && s.core.outer == Replay(cfg, Outer(weights, Zeros(weights)), s.rounds)
  }

  lemma {:induction false} BufferFits(s: State, e: Entry, weights: Params)
    requires Fit(s.core.pending, weights) && Tagged(s.core.pending, s.tags, s.log) && Matches(e.grad, weights)
    requires Matches(e.grad, s.core.outer.weights)
    ensures Fit(DoSubmit(s, e).core.pending, weights)
    ensures Tagged(DoSubmit(s, e).core.pending, DoSubmit(s, e).tags, s.log + [e])
  {
    hide Matches;
  }

  lemma {:induction false} LogGrows(entries: seq<Entry>, tags: seq<nat>, log: seq<Entry>, e: Entry)
    requires Tagged(entries, tags, log)
    ensures Tagged(entries, tags, log + [e])
  {
  }

  lemma {:induction false} AllGrow(weights: Params, s: State, e: Entry)
    requires forall i | 0 <= i < |s.flights| :: GoodFlight(s.flights[i], weights, s.core.roundId, s.log)
    requires forall i | 0 <= i < |s.rounds| :: GoodRound(s.rounds[i], weights, s.core.roundId, s.log)
    ensures forall i | 0 <= i < |s.flights| :: GoodFlight(s.flights[i], weights, s.core.roundId, s.log + [e])
    ensures forall i | 0 <= i < |s.rounds| :: GoodRound(s.rounds[i], weights, s.core.roundId, s.log + [e])
  {
    hide Fit, Tagged, AverageOf;
    forall i | 0 <= i < |s.flights| ensures GoodFlight(s.flights[i], weights, s.core.roundId, s.log + [e]) {
      LogGrows(s.flights[i].entries, s.flights[i].tags, s.log, e);
    }
    forall i | 0 <= i < |s.rounds| ensures GoodRound(s.rounds[i], weights, s.core.roundId, s.log + [e]) {
      LogGrows(s.rounds[i].entries, s.rounds[i].tags, s.log, e);
    }
  }

  lemma {:induction false} LossesGrow(weights: Params, s: State, e: Entry)
    requires Tagged(s.core.pending, s.tags, s.log) && Matches(e.grad, s.core.outer.weights)
    requires forall i | 0 <= i < |s.lost| :: GoodLoss(s.lost[i], weights, s.log)
    ensures forall i | 0 <= i < |DoSubmit(s, e).lost| :: GoodLoss(DoSubmit(s, e).lost[i], weights, s.log + [e])
  {
    hide Matches;
    var lost := DoSubmit(s, e).lost;
    forall i | 0 <= i < |lost| ensures GoodLoss(lost[i], weights, s.log + [e]) {
      if i < |s.lost| { assert GoodLoss(s.lost[i], weights, s.log); }
    }
  }

  lemma {:induction false} InvSubmit(cfg: Settings, weights: Params, s: State, e: Entry)
    requires Inv(cfg, weights, s)
    ensures Inv(cfg, weights, DoSubmit(s, e))
  {
    hide Replay, Coherent, GoodFlight, GoodRound, GoodLoss, RoundsDiffer, Fit, Tagged;
    if Matches(e.grad, s.core.outer.weights) {
      MatchesTransitive(e.grad, s.core.outer.weights, weights);
      hide Matches;
      BufferFits(s, e, weights);
      AllGrow(weights, s, e);
      LossesGrow(weights, s, e);
    }
  }

  lemma {:induction false} MatchesTransitive(a: Params, b: Params, c: Params)
    requires Matches(a, b) && Matches(b, c)
    ensures Matches(a, c)
  {
  }

  lemma {:induction false} InvReset(cfg: Settings, weights: Params, s: State)
    requires Inv(cfg, weights, s)
    ensures Inv(cfg, weights, DoReset(s))
  {
    hide Replay, Matches, Average, Coherent, GoodFlight, GoodRound;
    assert forall i | 0 <= i < |s.tags| :: GoodLoss(Losses(s.tags, Discarded)[i], weights, s.log);
  }

  lemma {:induction false} InvBegin(cfg: Settings, weights: Params, s: State)
    requires Inv(cfg, weights, s)
    ensures Inv(cfg, weights, DoBegin(s))
  {
    hide Replay, Matches, Average, Coherent, AverageOf, Fit, Tagged;
    assert Fit([], weights) by { EmptyFits(weights); }
    assert Tagged([], [], s.log) by { EmptyTagged(s.log); }
  }

  lemma {:induction false} EmptyFits(template: Params)
    ensures Fit([], template)
  {
  }

  lemma {:induction false} EmptyTagged(log: seq<Entry>)
    ensures Tagged([], [], log)
  {
  }

  /** Reading names and shapes without the lock is harmless: they never change, and the
      average depends on nothing else. */
  lemma {:induction false} AverageStable(entries: seq<Entry>, a: Params, b: Params)
    requires entries != [] && Matches(a, b)
    ensures Average(entries, a) == Average(entries, b)
  {
    forall n | n in a ensures MeanTensor(entries, n, a[n]) == MeanTensor(entries, n, b[n]) {
      assert |a[n].data| == |b[n].data|;
    }
    if Averageable(entries, b) {
      assert Averageable(entries, a);
      assert Average(entries, a).value == Average(entries, b).value;
    } else {
      var k, n :| 0 <= k < |entries| && n in b
        && !(n in entries[k].grad && entries[k].grad[n].shape == b[n].shape);
      assert n in a && a[n].shape == b[n].shape;
    }
  }

  lemma {:induction false} RemoveKeepsRounds(flights: seq<Flight>, rounds: seq<Round>, k: nat)
    requires k < |flights| && RoundsDiffer(flights, rounds)
    ensures RoundsDiffer(Remove(flights, k), rounds)
    ensures forall i | 0 <= i < |Remove(flights, k)| ::
      Remove(flights, k)[i] == flights[if i < k then i else i + 1] && Remove(flights, k)[i].round != flights[k].round
  {
  }

  lemma {:induction false} InvGivenUp(cfg: Settings, weights: Params, s: State, k: nat, why: Loss)
    requires Inv(cfg, weights, s) && k < |s.flights|
    requires forall i | 0 <= i < |s.flights[k].tags| :: GoodLoss((s.flights[k].tags[i], why), weights, s.log)
    ensures Inv(cfg, weights, s.(flights := Remove(s.flights, k), lost := s.lost + Losses(s.flights[k].tags, why)))
  {
    hide Replay, Coherent, GoodFlight, GoodRound, RoundsDiffer, Fit, Tagged, Matches;
    RemoveKeepsRounds(s.flights, s.rounds, k);
    assert forall i | 0 <= i < |s.flights[k].tags| :: GoodLoss(Losses(s.flights[k].tags, why)[i], weights, s.log);
  }

  lemma {:induction false} TakenTags(weights: Params, s: State, k: nat)
    requires k < |s.flights| && GoodFlight(s.flights[k], weights, s.core.roundId, s.log)
    ensures forall i | 0 <= i < |s.flights[k].tags| ::
      s.flights[k].tags[i] < |s.log| && Took(s.flights[k].tags[i], s.flights[k].entries, weights, s.log)
  {
    hide Fit;
  }

  lemma {:induction false} InvAverage(cfg: Settings, weights: Params, s: State, k: nat, filter: Filter)
    requires Inv(cfg, weights, s)
    ensures Inv(cfg, weights, DoAverage(s, k, filter))
  {
    hide Replay, Average, Coherent, Fit, Tagged, GoodRound, Matches, Took;
    if k < |s.flights| && s.flights[k].stage == Taken {
      var kept := Filtered(filter, s.flights[k].entries);
      TakenTags(weights, s, k);
      if kept == [] {
        InvGivenUp(cfg, weights, s, k, Emptied(filter, s.flights[k].entries));
      } else {
        AverageStable(kept, s.core.outer.weights, weights);
        if Average(kept, weights).None? {
          InvGivenUp(cfg, weights, s, k, Failed(filter, s.flights[k].entries));
        }
      }
    }
  }

  lemma {:induction false} InvCommit(cfg: Settings, weights: Params, s: State, k: nat)
    requires Inv(cfg, weights, s)
    ensures Inv(cfg, weights, DoCommit(cfg, s, k))
  {
    hide Average, Fit, Tagged, Matches, Coherent, GoodLoss, Nesterov, AverageOf;
    var s' := DoCommit(cfg, s, k);
    if |s'.rounds| > |s.rounds| {
      RemoveKeepsRounds(s.flights, s.rounds, k);
      assert s'.rounds[..|s.rounds|] == s.rounds;
      NesterovKeeps(cfg, s.core.outer, s.flights[k].stage.avg);
      MatchesTransitive(s'.core.outer.weights, s.core.outer.weights, weights);
    }
  }

  lemma {:induction false} NesterovKeeps(cfg: Settings, o: Outer, avg: Params)
    requires Coherent(o) && Matches(avg, o.weights)
    ensures Coherent(Nesterov(cfg, o, avg)) && Matches(Nesterov(cfg, o, avg).weights, o.weights)
  {
  }

  lemma {:induction false} RunInv(cfg: Settings, weights: Params, s: State, steps: seq<Step>)
    requires Inv(cfg, weights, s)
    ensures Inv(cfg, weights, Run(cfg, s, steps))
    decreases |steps|
  {
    hide Inv;
    if steps != [] {
      match steps[0] {
        case SubmitStep(e) => InvSubmit(cfg, weights, s, e);
        case ResetStep => InvReset(cfg, weights, s);
        case BeginStep => InvBegin(cfg, weights, s);
        case AverageStep(k, filter) => InvAverage(cfg, weights, s, k, filter);
        case CommitStep(k) => InvCommit(cfg, weights, s, k);
      }
      RunInv(cfg, weights, Next(cfg, s, steps[0]), steps[1..]);
    }
  }

  lemma {:induction false} Reachable(cfg: Settings, weights: Params, steps: seq<Step>)
    ensures Inv(cfg, weights, Run(cfg, Init(weights), steps))
  {
    RunInv(cfg, weights, Init(weights), steps);
  }

  // ---- the sequential run -----------------------------------------------------------------

  function Submits(entries: seq<Entry>): (steps: seq<Step>)
    ensures |steps| == |entries|
  {
    seq(|entries|, i requires 0 <= i < |entries| => SubmitStep(entries[i]))
  }

  /** One round on its own: its workers submit, then one caller aggregates undisturbed. */
  function Alone(r: Round): seq<Step> {
    Submits(r.entries) + [BeginStep, AverageStep(0, r.filter), CommitStep(0)]
  }

  function Sequential(rounds: seq<Round>): seq<Step> {
    if rounds == [] then [] else Sequential(rounds[..|rounds| - 1]) + Alone(rounds[|rounds| - 1])
  }

  ghost predicate Quiet(s: State) {
    s.core.pending == [] && s.tags == [] && s.flights == []
  }
}
