/** What the average of a round is, number by number: over one average, and over every run
    in terms of the submissions that were accepted. */
module DiLoCoAverages {
  import opened Options
  import opened Sums
  import opened DiLoCo
  import opened DiLoCoProtocol
  import opened DiLoCoRuns

  /** Every entry has every layer of the template, in its shape; other layers may be there. */
  ghost predicate Complete(entries: seq<Entry>, template: Params) {
    forall e, n | e in entries && n in template :: n in e.grad && e.grad[n].shape == template[n].shape
  }

  /** Coordinate `i` of layer `name`, added up over the entries. */
  function CoordinateSum(entries: seq<Entry>, name: string, i: nat): real {
    if entries == [] then 0.0
    else
      var last := entries[|entries| - 1].grad;
      CoordinateSum(entries[..|entries| - 1], name, i)
      + if name in last && i < |last[name].data| then last[name].data[i] else 0.0
  }

  lemma {:induction false} ComponentsAddUp(entries: seq<Entry>, name: string, i: nat)
    ensures Sum(|entries|, Component(entries, name, i)) == CoordinateSum(entries, name, i)
  {
    if entries != [] {
      var n := |entries| - 1;
      ComponentsAddUp(entries[..n], name, i);
      SumEq(n, Component(entries, name, i), Component(entries[..n], name, i));
    }
  }

  lemma {:induction false} CompleteIff(entries: seq<Entry>, template: Params)
    ensures Averageable(entries, template) <==> Complete(entries, template)
  {
    if Complete(entries, template) {
      forall k, n | 0 <= k < |entries| && n in template
        ensures n in entries[k].grad && entries[k].grad[n].shape == template[n].shape
      {
        assert entries[k] in entries;
      }
    } else {
      var e, n :| e in entries && n in template && !(n in e.grad && e.grad[n].shape == template[n].shape);
      var k :| 0 <= k < |entries| && entries[k] == e;
    }
  }

  /** An average succeeds exactly when the entries are complete. It then has the layers and
      shapes of the template, and at every coordinate it is the sum over all entries,
      divided by their number. */
  lemma {:induction false} AverageExact(entries: seq<Entry>, template: Params)
    requires entries != []
    ensures Average(entries, template).Some? <==> Complete(entries, template)
    ensures Average(entries, template).Some? ==>
      var avg := Average(entries, template).value;
      && avg.Keys == template.Keys
      && forall n | n in template ::
           && avg[n].shape == template[n].shape && |avg[n].data| == |template[n].data|
           && forall i | 0 <= i < |avg[n].data| ::
                |entries| as real * avg[n].data[i] == CoordinateSum(entries, n, i)
  {
    hide Complete, Averageable, MeanTensor, CoordinateSum;
    CompleteIff(entries, template);
    forall n | n in template ensures MeanExact(entries, n, template[n]) { MeanIsExact(entries, n, template[n]); }
  }

  ghost predicate MeanExact(entries: seq<Entry>, name: string, like: Tensor)
    requires entries != []
  {
    var mean := MeanTensor(entries, name, like);
    && mean.shape == like.shape && |mean.data| == |like.data|
    && forall i | 0 <= i < |mean.data| :: |entries| as real * mean.data[i] == CoordinateSum(entries, name, i)
  }

  lemma {:induction false} MeanIsExact(entries: seq<Entry>, name: string, like: Tensor)
    requires entries != []
    ensures MeanExact(entries, name, like)
  {
    hide CoordinateSum, Component, Sum;
    var mean := MeanTensor(entries, name, like);
    forall i: nat | i < |like.data| ensures |entries| as real * mean.data[i] == CoordinateSum(entries, name, i) {
      ComponentsAddUp(entries, name, i);
      Divided(Sum(|entries|, Component(entries, name, i)), |entries| as real);
    }
  }

  // ---- over every run ------------------------------------------------------------------------

  /** The same sum over the accepted submissions with the given numbers. */
  function SubmissionSum(tags: seq<nat>, log: seq<Entry>, name: string, i: nat): real {
    if tags == [] then 0.0
    else
      var t := tags[|tags| - 1];
      SubmissionSum(tags[..|tags| - 1], log, name, i)
      + if t < |log| && name in log[t].grad && i < |log[t].grad[name].data| then log[t].grad[name].data[i] else 0.0
  }

  lemma {:induction false} SameSum(entries: seq<Entry>, tags: seq<nat>, log: seq<Entry>, name: string, i: nat)
    requires Tagged(entries, tags, log)
    ensures CoordinateSum(entries, name, i) == SubmissionSum(tags, log, name, i)
  {
    if entries != [] {
      var n := |entries| - 1;
      assert forall k | 0 <= k < n :: tags[..n][k] == tags[k] && entries[..n][k] == entries[k];
      SameSum(entries[..n], tags[..n], log, name, i);
    }
  }

  /** There is no filter, or it raises and is skipped. */
  ghost predicate Absent(filter: Filter) {
    forall entries :: filter(entries) == Some(entries) || filter(entries) == None
  }

  lemma {:induction false} AbsentKeepsAll(filter: Filter, entries: seq<Entry>)
    requires Absent(filter)
    ensures Filtered(filter, entries) == entries
  {
  }

  lemma {:induction false} RoundExact(r: Round, weights: Params, roundId: nat, log: seq<Entry>, name: string, i: nat)
    requires GoodRound(r, weights, roundId, log) && name in weights && i < |weights[name].data|
    ensures name in r.avg && i < |r.avg[name].data|
    ensures var kept := Filtered(r.filter, r.entries);
      |kept| as real * r.avg[name].data[i] == CoordinateSum(kept, name, i)
    ensures Absent(r.filter) ==> |r.tags| as real * r.avg[name].data[i] == SubmissionSum(r.tags, log, name, i)
  {
    hide Average, Fit, Filtered, CoordinateSum, SubmissionSum, Complete, Absent, Tagged;
    AverageExact(Filtered(r.filter, r.entries), weights);
    if Absent(r.filter) {
      AbsentKeepsAll(r.filter, r.entries);
      SameSum(r.entries, r.tags, log, name, i);
      TaggedLength(r.entries, r.tags, log);
    }
  }

  lemma {:induction false} TaggedLength(entries: seq<Entry>, tags: seq<nat>, log: seq<Entry>)
    requires Tagged(entries, tags, log)
    ensures |entries| == |tags|
  {
  }

  /** In every reachable state, at every coordinate, a committed average times the number of
      entries its filter kept is their sum; and without a filter, times the number of
      submissions it took, the sum of exactly those submissions. */
  lemma {:induction false} RoundsExact(cfg: Settings, weights: Params, steps: seq<Step>, k: nat, name: string, i: nat)
    ensures var s := Run(cfg, Init(weights), steps);
      k < |s.rounds| && name in weights && i < |weights[name].data| ==>
        var r := s.rounds[k];
        var kept := Filtered(r.filter, r.entries);
        && name in r.avg && i < |r.avg[name].data|
        && |kept| as real * r.avg[name].data[i] == CoordinateSum(kept, name, i)
        && (Absent(r.filter) ==> |r.tags| as real * r.avg[name].data[i] == SubmissionSum(r.tags, s.log, name, i))
  {
    hide Run, Inv, GoodRound, Filtered, Absent, CoordinateSum, SubmissionSum;
    var s := Run(cfg, Init(weights), steps);
    Reachable(cfg, weights, steps);
    if k < |s.rounds| && name in weights && i < |weights[name].data| {
      RoundIsGood(cfg, weights, s, k);
      RoundExact(s.rounds[k], weights, s.core.roundId, s.log, name, i);
    }
  }

  lemma {:induction false} RoundIsGood(cfg: Settings, weights: Params, s: State, k: nat)
    requires Inv(cfg, weights, s) && k < |s.rounds|
    ensures GoodRound(s.rounds[k], weights, s.core.roundId, s.log)
  {
    hide Replay, GoodFlight, GoodRound, GoodLoss, RoundsDiffer, Matches, Coherent, Fit, Tagged;
  }
}
