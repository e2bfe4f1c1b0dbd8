/** What becomes of the submissions that no round averages: exactly when an aggregation
    gives them up, and which runs never do. */
module DiLoCoLosses {
  import opened Options
  import opened DiLoCo
  import opened DiLoCoProtocol
  import opened DiLoCoRuns

  /** What the filter makes of `entries` cannot be averaged, or is nothing. */
  ghost predicate Hopeless(filter: Filter, entries: seq<Entry>, weights: Params) {
    Filtered(filter, entries) == [] || !Averageable(Filtered(filter, entries), weights)
  }

  function Reason(filter: Filter, entries: seq<Entry>): Loss {
    if Filtered(filter, entries) == [] then Emptied(filter, entries) else Failed(filter, entries)
  }

  // ---- one aggregation ------------------------------------------------------------------

  /** An aggregation gives its submissions up exactly when what the filter keeps is nothing
      or lacks a layer or a shape. Otherwise nothing is lost, and committing it right away
      adds the round of all it took. */
  lemma {:induction false} AverageOutcome(cfg: Settings, weights: Params, s: State, k: nat, filter: Filter)
    requires Inv(cfg, weights, s) && k < |s.flights| && s.flights[k].stage == Taken
    ensures var f, s' := s.flights[k], Next(cfg, s, AverageStep(k, filter));
      && (s'.lost != s.lost <==> Hopeless(filter, f.entries, weights))
      && (Hopeless(filter, f.entries, weights) ==>
            && s'.lost == s.lost + Losses(f.tags, Reason(filter, f.entries))
            && s'.flights == Remove(s.flights, k))
      && (!Hopeless(filter, f.entries, weights) ==>
            var average := Average(Filtered(filter, f.entries), weights);
            && average.Some?
            && Next(cfg, s', CommitStep(k)).rounds
                 == s.rounds + [Round(f.round, f.entries, f.tags, filter, average.value)])
  {
    hide Replay, Fit, MeanTensor, Nesterov, Averageable, RoundsDiffer, GoodRound, GoodLoss, Matches;
    var f := s.flights[k];
    assert GoodFlight(f, weights, s.core.roundId, s.log);
    assert f.tags != [];
    var kept := Filtered(filter, f.entries);
    if kept != [] {
      AverageStable(kept, s.core.outer.weights, weights);
      if Averageable(kept, weights) {
        MatchesBack(Average(kept, weights).value, weights, s.core.outer.weights);
      }
    }
  }

  lemma {:induction false} MatchesBack(a: Params, b: Params, c: Params)
    requires Matches(a, b) && Matches(c, b)
    ensures Matches(a, c)
  {
  }

  // ---- runs that give nothing up ------------------------------------------------------------

  ghost predicate GaveUp(s: State) {
    exists i | 0 <= i < |s.lost| :: s.lost[i].1.Emptied? || s.lost[i].1.Failed?
  }

  ghost predicate UsesOnly(steps: seq<Step>, filter: Filter) {
    forall k | 0 <= k < |steps| && steps[k].AverageStep? :: steps[k].filter == filter
  }

  /** Of every snapshot it leaves something that can be averaged. */
  ghost predicate Harmless(filter: Filter, weights: Params) {
    forall entries | entries != [] && Fit(entries, weights) :: !Hopeless(filter, entries, weights)
  }

  lemma {:induction false} StepGivesNothingUp(cfg: Settings, weights: Params, s: State, step: Step)
    requires Inv(cfg, weights, s) && !GaveUp(s)
    requires step.AverageStep? ==> Harmless(step.filter, weights)
    ensures !GaveUp(Next(cfg, s, step))
  {
    hide Replay, Fit, Hopeless, Average, Filtered, GoodRound, GoodLoss;
    hide RoundsDiffer, Matches, Coherent, Tagged, AverageOf;
    var s' := Next(cfg, s, step);
    if step.AverageStep? && step.k < |s.flights| && s.flights[step.k].stage == Taken {
      AverageOutcome(cfg, weights, s, step.k, step.filter);
      assert GoodFlight(s.flights[step.k], weights, s.core.roundId, s.log);
    }
  }

  lemma {:induction false} RunGivesNothingUp(cfg: Settings, weights: Params, s: State, steps: seq<Step>)
    requires Inv(cfg, weights, s) && !GaveUp(s)
    requires forall k | 0 <= k < |steps| && steps[k].AverageStep? :: Harmless(steps[k].filter, weights)
    ensures !GaveUp(Run(cfg, s, steps))
    decreases |steps|
  {
    hide Inv, GaveUp, Next, Harmless;
    if steps != [] {
      StepGivesNothingUp(cfg, weights, s, steps[0]);
      assert [steps[0]][1..] == [];
      RunInv(cfg, weights, s, [steps[0]]);
      RunGivesNothingUp(cfg, weights, Next(cfg, s, steps[0]), steps[1..]);
    }
  }

  lemma {:induction false} InitInv(cfg: Settings, weights: Params)
    ensures Inv(cfg, weights, Init(weights))
  {
    Reachable(cfg, weights, []);
  }

  lemma {:induction false} IdentityHarmless(filter: Filter, weights: Params)
    requires Identity(filter)
    ensures Harmless(filter, weights)
  {
  }

  /** Submits `entries` and aggregates them under `filter`. */
  function Attempt(entries: seq<Entry>, filter: Filter): seq<Step> {
    Submits(entries) + [BeginStep, AverageStep(0, filter)]
  }

  lemma {:induction false} RunTwo(cfg: Settings, s: State, a: Step, b: Step)
    ensures Run(cfg, s, [a, b]) == Next(cfg, Next(cfg, s, a), b)
  {
    hide Next;
    assert [a, b][1..] == [b];
    RunOne(cfg, Next(cfg, s, a), b);
  }

  lemma {:induction false} AttemptTaken(cfg: Settings, weights: Params, filter: Filter, entries: seq<Entry>)
    requires entries != [] && Fit(entries, weights)
    ensures var s := Run(cfg, Init(weights), Submits(entries) + [BeginStep]);
      && |s.flights| == 1 && s.flights[0].entries == entries && s.flights[0].stage == Taken
      && s.rounds == [] && s.lost == [] && s.core.pending == [] && s.core.outer == Init(weights).core.outer
      && |s.log| == |entries|
    ensures Run(cfg, Init(weights), Attempt(entries, filter))
      == Next(cfg, Run(cfg, Init(weights), Submits(entries) + [BeginStep]), AverageStep(0, filter))
  {
    hide Fit, Average, Filtered;
    var start := Init(weights);
    assert entries[..|entries|] == entries;
    RunSubmits(cfg, start, entries, |entries|);
    var s := Run(cfg, start, Submits(entries));
    RunAppend(cfg, start, Submits(entries), [BeginStep]);
    RunOne(cfg, s, BeginStep);
    RunAppend(cfg, start, Submits(entries), [BeginStep, AverageStep(0, filter)]);
    RunTwo(cfg, s, BeginStep, AverageStep(0, filter));
  }

  /** Submissions that the filter spoils are lost, whatever they are, with weights and
      momentum as they were. */
  lemma {:induction false} AttemptGivesUp(cfg: Settings, weights: Params, filter: Filter, entries: seq<Entry>)
    requires entries != [] && Fit(entries, weights) && Hopeless(filter, entries, weights)
    ensures var s := Run(cfg, Init(weights), Attempt(entries, filter));
      && |s.lost| == |entries| && (forall i | 0 <= i < |s.lost| :: s.lost[i].1 == Reason(filter, entries))
      && s.rounds == [] && s.flights == [] && s.core.pending == [] && s.core.outer == Init(weights).core.outer
      && |s.log| == |entries|
  {
    hide Fit, Hopeless, Average, Filtered, Reason;
    AttemptTaken(cfg, weights, filter, entries);
    var s := Run(cfg, Init(weights), Submits(entries) + [BeginStep]);
    Reachable(cfg, weights, Submits(entries) + [BeginStep]);
    AverageOutcome(cfg, weights, s, 0, filter);
    OnlyCommitsMove(cfg, s, AverageStep(0, filter));
  }

  /** A filter gives submissions up in some run exactly when it can spoil some snapshot of
      well-shaped submissions. Without a filter it never happens. */
  lemma {:induction false} GivesUpIff(cfg: Settings, weights: Params, filter: Filter)
    ensures (exists steps :: UsesOnly(steps, filter) && GaveUp(Run(cfg, Init(weights), steps)))
      <==> !Harmless(filter, weights)
    ensures Identity(filter) ==> Harmless(filter, weights)
  {
    hide Identity, Run, Fit, Hopeless;
    if Identity(filter) { IdentityHarmless(filter, weights); }
    if Harmless(filter, weights) {
      forall steps | UsesOnly(steps, filter) ensures !GaveUp(Run(cfg, Init(weights), steps)) {
        hide Harmless;
        InitInv(cfg, weights);
        RunGivesNothingUp(cfg, weights, Init(weights), steps);
      }
    } else {
      var entries :| entries != [] && Fit(entries, weights) && Hopeless(filter, entries, weights);
      AttemptGivesUp(cfg, weights, filter, entries);
      var steps := Attempt(entries, filter);
      var s := Run(cfg, Init(weights), steps);
      assert s.lost[0].1.Emptied? || s.lost[0].1.Failed?;
      assert UsesOnly(steps, filter);
    }
  }

  /** Two such filters on one well-shaped submission: one keeps nothing, the other hands
      back an entry without its layers. Both runs end with the submission lost. */
  lemma {:induction false} SpoiledRuns(cfg: Settings, weights: Params)
    returns (keepsNothing: Filter, dropsLayers: Filter)
    requires weights != map[]
    ensures var entries := [Entry("worker", Zeros(weights))];
      && Run(cfg, Init(weights), Attempt(entries, keepsNothing)).lost == [(0, Emptied(keepsNothing, entries))]
      && Run(cfg, Init(weights), Attempt(entries, dropsLayers)).lost == [(0, Failed(dropsLayers, entries))]
  {
    keepsNothing := (_: seq<Entry>) => Some([]);
    dropsLayers := (_: seq<Entry>) => Some([Entry("worker", map[])]);
    var entries := [Entry("worker", Zeros(weights))];
    var name :| name in weights;
    assert Fit(entries, weights);
    assert !Averageable([Entry("worker", map[])], weights) by {
      assert name !in [Entry("worker", map[])][0].grad;
    }
    AttemptTags(cfg, weights, keepsNothing, entries[0]);
    AttemptTags(cfg, weights, dropsLayers, entries[0]);
  }

  lemma {:induction false} AttemptTags(cfg: Settings, weights: Params, filter: Filter, e: Entry)
    requires Fit([e], weights) && Hopeless(filter, [e], weights)
    ensures Run(cfg, Init(weights), Attempt([e], filter)).lost == [(0, Reason(filter, [e]))]
  {
    hide Fit, Hopeless, Reason;
    AttemptGivesUp(cfg, weights, filter, [e]);
    Reachable(cfg, weights, Attempt([e], filter));
    var s := Run(cfg, Init(weights), Attempt([e], filter));
    assert GoodLoss(s.lost[0], weights, s.log);
  }

  // ---- each submission is taken by one round ----------------------------------------------------

  lemma {:induction false} LostIff(lost: seq<(nat, Loss)>, t: nat)
    ensures LostTags(lost)[t] == 0 <==> forall i | 0 <= i < |lost| :: lost[i].0 != t
  {
    if lost != [] {
      LostIff(lost[1..], t);
      assert forall i | 1 <= i < |lost| :: lost[i] == lost[1..][i - 1];
    }
  }

  ghost predicate Discarding(s: State) {
    exists i | 0 <= i < |s.lost| :: s.lost[i].1 == Discarded
  }

  lemma {:induction false} StepDiscards(cfg: Settings, s: State, step: Step)
    requires !Discarding(s) && !step.ResetStep?
    ensures !Discarding(Next(cfg, s, step))
  {
    hide Average, Filtered, Matches, Coherent, Submit, Commit, Position;
  }

  /** Only resets discard. */
  lemma {:induction false} NoResetNoDiscard(cfg: Settings, s: State, steps: seq<Step>)
    requires !Discarding(s) && ResetStep !in steps
    ensures !Discarding(Run(cfg, s, steps))
    decreases |steps|
  {
    hide Next, Discarding;
    if steps != [] {
      StepDiscards(cfg, s, steps[0]);
      NoResetNoDiscard(cfg, Next(cfg, s, steps[0]), steps[1..]);
    }
  }

  /** Unless its worker overwrote it or a reset dropped it, a submission is taken by exactly
      one round. This holds over every run whose filters spoil no snapshot, in particular
      without filters: once nothing is buffered or under way, each accepted submission was
      taken by one committed round or has one such loss on record, and never both. Whether
      the round then averages it is up to its filter. */
  lemma {:induction false} TakenOnce(cfg: Settings, weights: Params, steps: seq<Step>, t: nat)
    requires forall k | 0 <= k < |steps| && steps[k].AverageStep? :: Harmless(steps[k].filter, weights)
    ensures var s := Run(cfg, Init(weights), steps);
      && (forall i | 0 <= i < |s.lost| ::
            match s.lost[i].1
            case Overwritten(newer) => s.lost[i].0 < newer < |s.log| && s.log[s.lost[i].0].worker == s.log[newer].worker
            case Discarded => ResetStep in steps
            case _ => false)
      && (s.tags == [] && s.flights == [] && t < |s.log| ==>
            RoundTags(s.rounds)[t] == if exists i :: 0 <= i < |s.lost| && s.lost[i].0 == t then 0 else 1)
  {
    hide Harmless, Run, Next;
    var s := Run(cfg, Init(weights), steps);
    InitInv(cfg, weights);
    RunGivesNothingUp(cfg, weights, Init(weights), steps);
    if ResetStep !in steps { NoResetNoDiscard(cfg, Init(weights), steps); }
    Reachable(cfg, weights, steps);
    forall i | 0 <= i < |s.lost| ensures GoodLoss(s.lost[i], weights, s.log) {
      hide Replay, GoodFlight, GoodRound, Fit, Tagged, Matches, Coherent, RoundsDiffer;
    }
    EachSubmissionOnce(cfg, weights, steps, t);
    LostIff(s.lost, t);
  }

  // ---- each submission is averaged by one round --------------------------------------------------

  /** The round took submission `t`, and the average contains it. */
  ghost predicate Contributes(r: Round, t: nat) {
    exists i | 0 <= i < |r.tags| && i < |r.entries| :: r.tags[i] == t && r.entries[i] in Filtered(r.filter, r.entries)
  }

  ghost predicate ContributesOnce(s: State, t: nat) {
    exists k | 0 <= k < |s.rounds| ::
      && Contributes(s.rounds[k], t)
      && forall j | 0 <= j < |s.rounds| && Contributes(s.rounds[j], t) :: j == k
  }

  /** Its worker submitted again, or a reset dropped it. */
  ghost predicate Withdrawn(s: State, t: nat) {
    exists i | 0 <= i < |s.lost| :: s.lost[i].0 == t && (s.lost[i].1.Overwritten? || s.lost[i].1.Discarded?)
  }

  ghost predicate Settled(s: State) {
    s.core.pending == [] && s.tags == [] && s.flights == []
  }

  /** In this state every submission has been withdrawn or averaged by exactly one round. */
  ghost predicate AllAveraged(s: State) {
    forall t: nat | t < |s.log| && !Withdrawn(s, t) :: ContributesOnce(s, t)
  }

  /** Of every well-shaped snapshot the filter keeps every entry as it is, and what it
      leaves can be averaged. */
  ghost predicate Keeping(filter: Filter, weights: Params) {
    forall entries | entries != [] && Fit(entries, weights) ::
      !Hopeless(filter, entries, weights) && forall e | e in entries :: e in Filtered(filter, entries)
  }

  ghost predicate FilteredBy(s: State, filter: Filter) {
    && (forall i | 0 <= i < |s.flights| && s.flights[i].stage.Averaged? :: s.flights[i].stage.filter == filter)
    && (forall i | 0 <= i < |s.rounds| :: s.rounds[i].filter == filter)
  }

  lemma {:induction false} RunFilteredBy(cfg: Settings, s: State, steps: seq<Step>, filter: Filter)
    requires FilteredBy(s, filter) && UsesOnly(steps, filter)
    ensures FilteredBy(Run(cfg, s, steps), filter)
    decreases |steps|
  {
    if steps != [] {
      StepFilteredBy(cfg, s, steps[0], filter);
      hide Next, FilteredBy;
      RunFilteredBy(cfg, Next(cfg, s, steps[0]), steps[1..], filter);
    }
  }

  lemma {:induction false} StepFilteredBy(cfg: Settings, s: State, step: Step, filter: Filter)
    requires FilteredBy(s, filter) && (step.AverageStep? ==> step.filter == filter)
    ensures FilteredBy(Next(cfg, s, step), filter)
  {
    hide Average, Filtered, Submit, Commit, Coherent, Matches;
  }

  lemma {:induction false} TaggedRounds(rounds: seq<Round>, t: nat)
    ensures RoundTags(rounds)[t] == 0 <==> forall k | 0 <= k < |rounds| :: t !in rounds[k].tags
    ensures RoundTags(rounds)[t] == 1 ==>
      exists k | 0 <= k < |rounds| ::
        (t in rounds[k].tags && forall j | 0 <= j < |rounds| && t in rounds[j].tags :: j == k)
  {
    if rounds != [] {
      var rest := rounds[1..];
      TaggedRounds(rest, t);
      assert forall j | 1 <= j < |rounds| :: rounds[j] == rest[j - 1];
      if RoundTags(rounds)[t] == 1 {
        if t in rounds[0].tags {
          assert multiset(rounds[0].tags)[t] >= 1;
          assert forall j | 0 <= j < |rounds| && t in rounds[j].tags :: j == 0;
        } else {
          var k :| 0 <= k < |rest| && t in rest[k].tags && forall j | 0 <= j < |rest| && t in rest[j].tags :: j == k;
          assert t in rounds[k + 1].tags;
          assert forall j | 0 <= j < |rounds| && t in rounds[j].tags :: j == k + 1;
        }
      }
    }
  }

  lemma {:induction false} KeepingHarmless(filter: Filter, weights: Params)
    requires Keeping(filter, weights)
    ensures Harmless(filter, weights)
  {
    hide Hopeless, Fit, Filtered;
  }

  /** What a keeping filter's round took, it averages. */
  lemma {:induction false} TakenContributes(r: Round, weights: Params, roundId: nat, log: seq<Entry>, t: nat)
    requires GoodRound(r, weights, roundId, log) && Keeping(r.filter, weights) && t in r.tags
    ensures Contributes(r, t)
  {
    hide Hopeless, Fit, Filtered, AverageOf;
    var i :| 0 <= i < |r.tags| && r.tags[i] == t;
    assert r.entries[i] in r.entries;
  }

  lemma {:induction false} RoundOf(cfg: Settings, weights: Params, s: State, filter: Filter, t: nat)
    requires Inv(cfg, weights, s) && FilteredBy(s, filter) && Keeping(filter, weights) && RoundTags(s.rounds)[t] == 1
    ensures ContributesOnce(s, t)
  {
    hide Keeping, GoodFlight, GoodLoss, GoodRound, Replay, RoundsDiffer, Matches, Coherent, Fit, Tagged;
    TaggedRounds(s.rounds, t);
    var k :| 0 <= k < |s.rounds| && t in s.rounds[k].tags
      && forall j | 0 <= j < |s.rounds| && t in s.rounds[j].tags :: j == k;
    hide Contributes;
    TakenContributes(s.rounds[k], weights, s.core.roundId, s.log, t);
    forall j | 0 <= j < |s.rounds| && Contributes(s.rounds[j], t) ensures j == k {
      ContributorTaken(s.rounds[j], t);
    }
  }

  lemma {:induction false} KeepingAverages(cfg: Settings, weights: Params, filter: Filter, steps: seq<Step>)
    requires Keeping(filter, weights) && UsesOnly(steps, filter)
    ensures var s := Run(cfg, Init(weights), steps); Settled(s) ==> AllAveraged(s)
  {
    hide Keeping, Harmless, Run, Inv, ContributesOnce, FilteredBy;
    var s := Run(cfg, Init(weights), steps);
    KeepingHarmless(filter, weights);
    assert FilteredBy(Init(weights), filter) by { StartFilteredBy(weights, filter); }
    RunFilteredBy(cfg, Init(weights), steps, filter);
    Reachable(cfg, weights, steps);
    if Settled(s) {
      forall t: nat | t < |s.log| && !Withdrawn(s, t) ensures ContributesOnce(s, t) {
        TakenOnce(cfg, weights, steps, t);
        assert RoundTags(s.rounds)[t] == 1;
        RoundOf(cfg, weights, s, filter, t);
      }
    }
  }

  lemma {:induction false} StartFilteredBy(weights: Params, filter: Filter)
    ensures FilteredBy(Init(weights), filter)
  {
  }

  lemma {:induction false} ContributorTaken(r: Round, t: nat)
    requires Contributes(r, t)
    ensures t in r.tags
  {
  }

  /** Submits `entries`, aggregates them under `filter`, and commits. */
  function Whole(entries: seq<Entry>, filter: Filter): seq<Step> {
    Attempt(entries, filter) + [CommitStep(0)]
  }

  lemma {:induction false} WholeRound(cfg: Settings, weights: Params, filter: Filter, entries: seq<Entry>)
    requires entries != [] && Fit(entries, weights) && !Hopeless(filter, entries, weights)
    ensures var s := Run(cfg, Init(weights), Whole(entries, filter));
      && Settled(s) && s.lost == [] && |s.log| == |entries| && |s.rounds| == 1
      && s.rounds[0].entries == entries && s.rounds[0].filter == filter
      && Some(s.rounds[0].avg) == Average(Filtered(filter, entries), weights)
      && Tagged(entries, s.rounds[0].tags, s.log)
  {
    hide Fit, Hopeless, Average, Filtered;
    var start := Init(weights);
    AttemptTaken(cfg, weights, filter, entries);
    var s := Run(cfg, start, Submits(entries) + [BeginStep]);
    Reachable(cfg, weights, Submits(entries) + [BeginStep]);
    AverageOutcome(cfg, weights, s, 0, filter);
    RunAppend(cfg, start, Attempt(entries, filter), [CommitStep(0)]);
    RunOne(cfg, Run(cfg, start, Attempt(entries, filter)), CommitStep(0));
    Reachable(cfg, weights, Whole(entries, filter));
  }

  lemma {:induction false} SpoiledUnaveraged(cfg: Settings, weights: Params, filter: Filter, entries: seq<Entry>)
    requires entries != [] && Fit(entries, weights) && Hopeless(filter, entries, weights)
    ensures var s := Run(cfg, Init(weights), Attempt(entries, filter)); Settled(s) && !AllAveraged(s)
  {
    hide Run, Fit, Hopeless;
    AttemptGivesUp(cfg, weights, filter, entries);
    var s := Run(cfg, Init(weights), Attempt(entries, filter));
    Reachable(cfg, weights, Attempt(entries, filter));
    hide Replay, Fit, GoodFlight, GoodRound, GoodLoss, RoundsDiffer, Matches, Coherent;
    assert Tagged(s.core.pending, s.tags, s.log);
    assert !Withdrawn(s, 0) && !ContributesOnce(s, 0);
  }

  lemma {:induction false} DroppedUnaveraged(cfg: Settings, weights: Params, filter: Filter, entries: seq<Entry>,
      j: nat)
    requires j < |entries| && Fit(entries, weights) && !Hopeless(filter, entries, weights)
    requires entries[j] !in Filtered(filter, entries)
    ensures var s := Run(cfg, Init(weights), Whole(entries, filter));
      && Settled(s) && |s.rounds| == 1 && j < |s.rounds[0].tags| && s.rounds[0].tags[j] < |s.log|
      && !Withdrawn(s, s.rounds[0].tags[j]) && !ContributesOnce(s, s.rounds[0].tags[j])
  {
    hide Run, Fit, Hopeless, Filtered;
    WholeRound(cfg, weights, filter, entries);
    var s := Run(cfg, Init(weights), Whole(entries, filter));
    var r := s.rounds[0];
    var t := r.tags[j];
    forall i | 0 <= i < |r.tags| && r.tags[i] == t ensures r.entries[i] == entries[j] {
      assert s.log[r.tags[i]] == r.entries[i];
    }
    assert !Contributes(r, t);
  }

  /** Over all runs under one filter, every settled submission that was neither overwritten
      nor reset is averaged by exactly one round precisely when the filter keeps every
      well-shaped snapshot whole. Without a filter, or with one that raises and so is
      skipped, it is so; a filter that does its work and drops somebody breaks it. */
  lemma {:induction false} AveragedOnceIff(cfg: Settings, weights: Params, filter: Filter)
    ensures (forall steps | UsesOnly(steps, filter) && Settled(Run(cfg, Init(weights), steps)) ::
               AllAveraged(Run(cfg, Init(weights), steps)))
      <==> Keeping(filter, weights)
    ensures (forall entries :: filter(entries) == Some(entries) || filter(entries) == None) ==> Keeping(filter, weights)
  {
    hide Run, AllAveraged, Settled;
    if forall entries :: filter(entries) == Some(entries) || filter(entries) == None { AbsentKeeps(filter, weights); }
    hide Fit, Hopeless;
    if Keeping(filter, weights) {
      hide Keeping;
      forall steps | UsesOnly(steps, filter) && Settled(Run(cfg, Init(weights), steps))
        ensures AllAveraged(Run(cfg, Init(weights), steps))
      {
        KeepingAverages(cfg, weights, filter, steps);
      }
    } else {
      var entries :| entries != [] && Fit(entries, weights)
        && !(!Hopeless(filter, entries, weights) && forall e | e in entries :: e in Filtered(filter, entries));
      LosesSomebody(cfg, weights, filter, entries);
    }
  }

  lemma {:induction false} LosesSomebody(cfg: Settings, weights: Params, filter: Filter, entries: seq<Entry>)
    requires entries != [] && Fit(entries, weights)
    requires Hopeless(filter, entries, weights) || exists e | e in entries :: e !in Filtered(filter, entries)
    ensures exists steps | UsesOnly(steps, filter) ::
      (Settled(Run(cfg, Init(weights), steps)) && !AllAveraged(Run(cfg, Init(weights), steps)))
  {
    hide Run, Fit, Hopeless, Filtered, ContributesOnce, Withdrawn;
    if Hopeless(filter, entries, weights) {
      SpoiledUnaveraged(cfg, weights, filter, entries);
      assert UsesOnly(Attempt(entries, filter), filter);
    } else {
      var e :| e in entries && e !in Filtered(filter, entries);
      var j :| 0 <= j < |entries| && entries[j] == e;
      DroppedUnaveraged(cfg, weights, filter, entries, j);
      var s := Run(cfg, Init(weights), Whole(entries, filter));
      assert !AllAveraged(s);
      assert UsesOnly(Whole(entries, filter), filter);
    }
  }

  lemma {:induction false} AbsentKeeps(filter: Filter, weights: Params)
    requires forall entries :: filter(entries) == Some(entries) || filter(entries) == None
    ensures Keeping(filter, weights)
  {
  }

  lemma {:induction false} FirstHarmless(first: Filter, weights: Params)
    requires forall entries :: first(entries) == Some(if entries == [] then [] else [entries[0]])
    ensures Harmless(first, weights)
  {
  }

  /** Such a filter, which trusts only the first: it spoils no snapshot, and still the
      second of two submissions, neither overwritten nor reset, is in no average. */
  lemma {:induction false} DroppingRun(cfg: Settings, weights: Params, a: Params, b: Params) returns (first: Filter)
    requires Matches(a, weights) && Matches(b, weights)
    ensures Harmless(first, weights)
    ensures var entries := [Entry("a", a), Entry("b", b)];
      var s := Run(cfg, Init(weights), Whole(entries, first));
      && Settled(s) && s.lost == [] && |s.log| == 2 && |s.rounds| == 1 && s.rounds[0].entries == entries
      && Some(s.rounds[0].avg) == Average([entries[0]], weights) && !AllAveraged(s)
  {
    first := (entries: seq<Entry>) => Some(if entries == [] then [] else [entries[0]]);
    var entries := [Entry("a", a), Entry("b", b)];
    assert Fit(entries, weights);
    assert Harmless(first, weights) by { FirstHarmless(first, weights); }
    assert Filtered(first, entries) == [entries[0]] && entries[1] !in [entries[0]];
    assert Average([entries[0]], weights).Some?;
    hide Run, Fit, Harmless, Contributes, ContributesOnce, Withdrawn, Average;
    WholeRound(cfg, weights, first, entries);
    DroppedUnaveraged(cfg, weights, first, entries, 1);
  }
}
