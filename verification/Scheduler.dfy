/** One scheduling pass: queued tasks, in queue order, each take the best capable node
    that is connected, contributing and without a pending assignment. */
module Scheduler {
  import opened Options
  import opened Sums

  /** One entry of a benchmark payload, as far as the score looks at it. */
  datatype Field = Number(n: real) | Flag(b: bool) | Nested(score: Option<Field>) | Other

  datatype Node = Node(id: string, vramMb: real, gpuModel: string, contributing: bool,
                       reliability: Option<real>, benchmark: seq<(string, Field)>)

  datatype Task = Task(id: string, minVramGb: Option<real>, requiredCuda: bool)

  datatype Requirements = Requirements(minVramGb: real, cuda: bool)

  // ---- capabilities ---------------------------------------------------------------------

  function TaskRequirements(t: Task): Requirements {
    var raw := if t.minVramGb.Some? then t.minVramGb.value else 0.0;
    Requirements(if raw > 0.0 then raw else 0.0, t.requiredCuda)
  }

  predicate IsSpace(c: char) {
    c == ' ' || '\t' <= c <= '\r' || 0x1C <= c as int <= 0x1F
  }

  function Strip(s: string): string {
    if s == [] then []
    else if IsSpace(s[0]) then Strip(s[1..])
    else if IsSpace(s[|s| - 1]) then Strip(s[..|s| - 1])
    else s
  }

  function Lower(s: string): string {
    if s == [] then []
    else [if 'A' <= s[0] <= 'Z' then s[0] + ' ' else s[0]] + Lower(s[1..])
  }

  predicate Meets(node: Node, req: Requirements) {
    && !(req.minVramGb > 0.0 && node.vramMb < req.minVramGb * 1024.0)
    && (req.cuda ==>
          var model := Lower(Strip(node.gpuModel));
          model != "" && model !in ["none", "cpu", "unknown"] && node.vramMb > 0.0)
  }

  predicate CanRun(node: Node, t: Task) {
    Meets(node, TaskRequirements(t))
  }

  /** The ASCII characters that count as white space. */
  lemma {:induction false} SpacesExact(c: char)
    ensures IsSpace(c) <==> c as int in {9, 10, 11, 12, 13, 28, 29, 30, 31, 32}
  {
  }

  lemma {:induction false} StripExact(s: string) returns (front: string, back: string)
    ensures s == front + Strip(s) + back
    ensures forall i | 0 <= i < |front| :: IsSpace(front[i])
    ensures forall i | 0 <= i < |back| :: IsSpace(back[i])
    ensures Strip(s) != [] ==> !IsSpace(Strip(s)[0]) && !IsSpace(Strip(s)[|Strip(s)| - 1])
  {
    hide IsSpace;
    if s == [] {
      front, back := [], [];
    } else if IsSpace(s[0]) {
      var inner;
      inner, back := StripExact(s[1..]);
      front := [s[0]] + inner;
      assert s == [s[0]] + s[1..] == front + Strip(s) + back;
    } else if IsSpace(s[|s| - 1]) {
      var inner;
      front, inner := StripExact(s[..|s| - 1]);
      back := inner + [s[|s| - 1]];
      assert s == s[..|s| - 1] + [s[|s| - 1]] == front + Strip(s) + back;
    } else {
      front, back := [], [];
    }
  }

  lemma {:induction false} LowerExact(s: string)
    ensures |Lower(s)| == |s|
    ensures forall i | 0 <= i < |s| ::
      Lower(s)[i] == if 'A' <= s[i] <= 'Z' then (s[i] as int + 32) as char else s[i]
  {
    if s != [] { LowerExact(s[1..]); }
  }

  /** What a node needs for a task, in terms of their fields: at least 1024 MB for every GB
      asked, if any are, and for CUDA some memory and a real model name. */
  ghost predicate Fits(node: Node, t: Task) {
    && (t.minVramGb == None || t.minVramGb.value <= 0.0 || node.vramMb >= 1024.0 * t.minVramGb.value)
    && (t.requiredCuda ==>
          && node.vramMb > 0.0
          && Lower(Strip(node.gpuModel)) != "" && Lower(Strip(node.gpuModel)) != "none"
          && Lower(Strip(node.gpuModel)) != "cpu" && Lower(Strip(node.gpuModel)) != "unknown")
  }

  lemma {:induction false} CanRunIff(node: Node, t: Task)
    ensures CanRun(node, t) <==> Fits(node, t)
  {
    hide Lower, Strip;
  }

  /** More memory never loses a task, and weaker requirements never lose a node. */
  lemma {:induction false} MeetsMonotone(node: Node, more: Node, req: Requirements, less: Requirements)
    requires Meets(node, req) && more.vramMb >= node.vramMb && more.gpuModel == node.gpuModel
    requires less.minVramGb <= req.minVramGb && (less.cuda ==> req.cuda)
    ensures Meets(more, less)
  {
  }

  // ---- the ranking ------------------------------------------------------------------------

  function Lookup(benchmark: seq<(string, Field)>, key: string): Option<Field> {
    if benchmark == [] then None
    else if benchmark[0].0 == key then Some(benchmark[0].1)
    else Lookup(benchmark[1..], key)
  }

  /** Scores of nested entries. A nested Boolean counts as 0 or 1. */
  function NestedScores(benchmark: seq<(string, Field)>): seq<real> {
    if benchmark == [] then []
    else
      var rest := NestedScores(benchmark[1..]);
      match benchmark[0].1
      case Nested(Some(Number(n))) => [n] + rest
      case Nested(Some(Flag(b))) => [if b then 1.0 else 0.0] + rest
      case _ => rest
  }

  function FirstNumber(benchmark: seq<(string, Field)>, keys: seq<string>): Option<real> {
    if keys == [] then None
    else match Lookup(benchmark, keys[0])
      case Some(Number(n)) => Some(n)
      case _ => FirstNumber(benchmark, keys[1..])
  }

  const SCORE_NAMES := ["overall", "overall_score", "score", "total_score"]

  function BenchmarkScore(node: Node): real {
    match FirstNumber(node.benchmark, SCORE_NAMES)
    case Some(n) => n
    case None =>
      var nested := NestedScores(node.benchmark);
      if nested == [] then 0.0 else Total(nested) / |nested| as real
  }

  /** Nested scores come from nested entries only, in order: a number as it is, a Boolean as
      0 or 1. */
  lemma {:induction false} NestedScoresExact(a: seq<(string, Field)>, b: seq<(string, Field)>, key: string,
      field: Field)
    ensures NestedScores(a + b) == NestedScores(a) + NestedScores(b) && NestedScores([]) == []
    ensures NestedScores([(key, field)]) == match field
      case Nested(Some(Number(n))) => [n]
      case Nested(Some(Flag(true))) => [1.0]
      case Nested(Some(Flag(false))) => [0.0]
      case _ => []
  {
    assert [(key, field)][1..] == [];
    if a == [] {
      assert a + b == b;
    } else {
      NestedScoresExact(a[1..], b, key, field);
      assert (a + b)[1..] == a[1..] + b;
    }
  }

  /** Without a number of its own, a node's score times the number of nested ones is their
      sum. */
  lemma {:induction false} NestedMeanExact(node: Node)
    requires forall key | key in ["overall", "overall_score", "score", "total_score"] :: !Holds(node.benchmark, key)
    ensures |NestedScores(node.benchmark)| as real * BenchmarkScore(node) == Total(NestedScores(node.benchmark))
  {
    hide Total, NestedScores;
    forall i | 0 <= i < 4 ensures !Holds(node.benchmark, SCORE_NAMES[i]) { assert SCORE_NAMES[i] in SCORE_NAMES; }
    FirstNumberIs(node.benchmark, SCORE_NAMES, 4);
    var nested := NestedScores(node.benchmark);
    if nested == [] {
      EmptyTotal();
    } else {
      DivMul(Total(nested), |nested| as real);
    }
  }

  lemma EmptyTotal()
    ensures Total([]) == 0.0
  {
  }

  /** The score is the number under the first of the four names that holds one. Failing
      that it lies between the least and the greatest nested score, and is 0 without any. */
  lemma {:induction false} BenchmarkScoreMeaning(node: Node, k: nat, lo: real, hi: real)
    requires k <= 4
    requires forall i | 0 <= i < k :: !Holds(node.benchmark, ["overall", "overall_score", "score", "total_score"][i])
    requires forall x | x in NestedScores(node.benchmark) :: lo <= x <= hi
    ensures var names := ["overall", "overall_score", "score", "total_score"];
      k < 4 && Holds(node.benchmark, names[k]) ==>
        Lookup(node.benchmark, names[k]) == Some(Number(BenchmarkScore(node)))
    ensures k == 4 && NestedScores(node.benchmark) != [] ==> lo <= BenchmarkScore(node) <= hi
    ensures k == 4 && NestedScores(node.benchmark) == [] ==> BenchmarkScore(node) == 0.0
  {
    hide NestedScores, Lookup;
    FirstNumberIs(node.benchmark, SCORE_NAMES, k);
    if k == 4 && NestedScores(node.benchmark) != [] { MeanWithin(NestedScores(node.benchmark), lo, hi); }
  }

  lemma {:induction false} MeanWithin(xs: seq<real>, lo: real, hi: real)
    requires xs != [] && forall x | x in xs :: lo <= x <= hi
    ensures lo <= Total(xs) / |xs| as real <= hi
  {
    var n, f := |xs|, (i: nat) => At(xs, i);
    forall i: nat | i < n ensures lo <= f(i) <= hi { assert xs[i] in xs; }
    SumConst(n, Const(lo), lo);
    SumConst(n, Const(hi), hi);
    SumLe(n, Const(lo), f);
    SumLe(n, f, Const(hi));
    SumEq(n, f, (i: nat) => At(xs, i));
    MeanBetween(Total(xs), n as real, lo, hi);
  }

  predicate Holds(benchmark: seq<(string, Field)>, key: string) {
    match Lookup(benchmark, key)
    case Some(Number(_)) => true
    case _ => false
  }

  lemma {:induction false} FirstNumberIs(benchmark: seq<(string, Field)>, keys: seq<string>, k: nat)
    requires k <= |keys| && forall i | 0 <= i < k :: !Holds(benchmark, keys[i])
    ensures k < |keys| && Holds(benchmark, keys[k]) ==>
      && FirstNumber(benchmark, keys).Some?
      && Lookup(benchmark, keys[k]) == Some(Number(FirstNumber(benchmark, keys).value))
    ensures k == |keys| ==> FirstNumber(benchmark, keys) == None
  {
    if k > 0 { FirstNumberIs(benchmark, keys[1..], k - 1); }
  }

  lemma MeanBetween(total: real, n: real, lo: real, hi: real)
    requires n > 0.0 && n * lo <= total <= n * hi
    ensures lo <= total / n <= hi
  {
    assert n * (total / n) == total;
    CancelOrder(n, lo, total / n);
    CancelOrder(n, total / n, hi);
  }

  /** An absent reliability counts as 1, and so does a reliability of 0. */
  function Reliability(node: Node): real {
    if node.reliability.None? || node.reliability.value == 0.0 then 1.0 else node.reliability.value
  }

  predicate Better(a: Node, b: Node) {
    || Reliability(a) > Reliability(b)
    || (Reliability(a) == Reliability(b) && BenchmarkScore(a) > BenchmarkScore(b))
  }

  // ---- stored scores -----------------------------------------------------------------------

  /** The order of the scores as stored, an absent one counting as 1. */
  function Stored(reliability: Option<real>): real {
    if reliability.Some? then reliability.value else 1.0
  }

  predicate StoredBetter(a: Node, b: Node) {
    || Stored(a.reliability) > Stored(b.reliability)
    || (Stored(a.reliability) == Stored(b.reliability) && BenchmarkScore(a) > BenchmarkScore(b))
  }

  /** Nodes with these scores are ranked as their scores say, whatever else they hold. */
  ghost predicate RanksAsStored(x: Option<real>, y: Option<real>) {
    forall a: Node, b: Node | a.reliability == x && b.reliability == y :: Better(a, b) <==> StoredBetter(a, b)
  }

  /** A score of 0 next to one that it should lose to and does not. */
  predicate Lifted(x: Option<real>, y: Option<real>) {
    Stored(x) == 0.0 && 0.0 < Stored(y) <= 1.0
  }

  function Scored(reliability: Option<real>, score: real): Node {
    Node("n", 0.0, "", true, reliability, [("overall", Number(score))])
  }

  lemma {:induction false} ScoredScore(reliability: Option<real>, score: real)
    ensures BenchmarkScore(Scored(reliability, score)) == score
  {
    var node := Scored(reliability, score);
    assert Lookup(node.benchmark, SCORE_NAMES[0]) == Some(Number(score));
  }

  /** Stored scores decide the ranking exactly when neither is a 0 beside a score above 0
      and up to 1: that 0 is read as 1. */
  lemma {:induction false} RanksAsStoredIff(x: Option<real>, y: Option<real>)
    ensures RanksAsStored(x, y) <==> !Lifted(x, y) && !Lifted(y, x)
  {
    hide BenchmarkScore;
    if Lifted(x, y) {
      var a, b := Scored(x, 1.0), Scored(y, 0.0);
      ScoredScore(x, 1.0);
      ScoredScore(y, 0.0);
      assert Better(a, b) && !StoredBetter(a, b);
    } else if Lifted(y, x) {
      var a, b := Scored(x, 0.0), Scored(y, 1.0);
      ScoredScore(x, 0.0);
      ScoredScore(y, 1.0);
      assert !Better(a, b) && StoredBetter(a, b);
    }
  }

  // ---- picking --------------------------------------------------------------------------------

  function Capable(candidates: seq<Node>, req: Requirements): seq<Node> {
    if candidates == [] then []
    else (if Meets(candidates[0], req) then [candidates[0]] else []) + Capable(candidates[1..], req)
  }

  /** The first of the best. */
  function Best(nodes: seq<Node>): Node
    requires nodes != []
  {
    if |nodes| == 1 then nodes[0]
    else
      var best := Best(nodes[1..]);
      if Better(best, nodes[0]) then best else nodes[0]
  }

  function Pick(candidates: seq<Node>, t: Task): Option<Node> {
    var capable := Capable(candidates, TaskRequirements(t));
    if capable == [] then None else Some(Best(capable))
  }

  /** `order` lists positions of `nodes` as a stable sort by descending key leaves them. */
  ghost predicate StableDescending(nodes: seq<Node>, order: seq<nat>) {
    && (forall p | 0 <= p < |nodes| :: p in order)
    && (forall i | 0 <= i < |order| :: order[i] < |nodes|)
    && (forall i, j | 0 <= i < j < |order| ::
          && !Better(nodes[order[j]], nodes[order[i]])
          && (Better(nodes[order[i]], nodes[order[j]]) || order[i] < order[j]))
  }

  lemma {:induction false} BestPosition(nodes: seq<Node>) returns (k: nat)
    requires nodes != []
    ensures k < |nodes| && nodes[k] == Best(nodes)
    ensures forall j | 0 <= j < |nodes| :: !Better(nodes[j], nodes[k]) && (j < k ==> Better(nodes[k], nodes[j]))
  {
    if |nodes| == 1 || !Better(Best(nodes[1..]), nodes[0]) {
      k := 0;
      if |nodes| > 1 {
        var k' := BestPosition(nodes[1..]);
        forall j | 1 <= j < |nodes| ensures !Better(nodes[j], nodes[0]) {
          assert nodes[j] == nodes[1..][j - 1];
        }
      }
    } else {
      var k' := BestPosition(nodes[1..]);
      k := k' + 1;
      forall j | 1 <= j < |nodes| ensures !Better(nodes[j], nodes[k]) && (j < k ==> Better(nodes[k], nodes[j])) {
        assert nodes[j] == nodes[1..][j - 1];
      }
    }
  }

  /** Taking the head of the stable descending sort takes the first of the best. */
  lemma {:induction false} BestHeadsTheSort(nodes: seq<Node>, order: seq<nat>)
    requires nodes != [] && StableDescending(nodes, order)
    ensures order != [] && nodes[order[0]] == Best(nodes)
  {
    var k := BestPosition(nodes);
    assert k in order;
    var i :| 0 <= i < |order| && order[i] == k;
  }

  lemma {:induction false} CapableIff(candidates: seq<Node>, req: Requirements, n: Node)
    ensures n in Capable(candidates, req) <==> n in candidates && Meets(n, req)
  {
    if candidates != [] {
      CapableIff(candidates[1..], req, n);
      assert candidates == [candidates[0]] + candidates[1..];
    }
  }

  /** The pick is a capable candidate that no capable candidate beats; there is none
      exactly when no candidate is capable. */
  lemma {:induction false} PickBest(candidates: seq<Node>, t: Task)
    ensures match Pick(candidates, t)
      case None => forall n | n in candidates :: !CanRun(n, t)
      case Some(x) => x in candidates && CanRun(x, t) && forall n | n in candidates && CanRun(n, t) :: !Better(n, x)
  {
    hide Meets, Better, TaskRequirements;
    var capable := Capable(candidates, TaskRequirements(t));
    forall n: Node ensures n in capable <==> n in candidates && CanRun(n, t) {
      CapableIff(candidates, TaskRequirements(t), n);
    }
    if capable != [] {
      var k := BestPosition(capable);
      assert capable[k] in capable;
      forall n | n in capable ensures !Better(n, capable[k]) {
        var j :| 0 <= j < |capable| && capable[j] == n;
      }
    }
  }

  /** A node stored at 0 is picked over a like one stored at a half. */
  lemma {:induction false} ZeroPickedOverHalf(t: Task)
    requires CanRun(Scored(Some(0.0), 0.0), t)
    ensures Pick([Scored(Some(0.5), 0.0), Scored(Some(0.0), 0.0)], t) == Some(Scored(Some(0.0), 0.0))
  {
    var half, zero := Scored(Some(0.5), 0.0), Scored(Some(0.0), 0.0);
    var both := [half, zero];
    assert both[0] == half && both[1] == zero;
    assert Better(zero, half);
    PickBest(both, t);
  }

  // ---- one pass ---------------------------------------------------------------------------------

  function Without(candidates: seq<Node>, id: string): seq<Node> {
    if candidates == [] then []
    else (if candidates[0].id != id then [candidates[0]] else []) + Without(candidates[1..], id)
  }

  /** The node each task gets. A node without an id is never assigned. */
  function Greedy(tasks: seq<Task>, candidates: seq<Node>): (m: seq<Option<string>>)
    ensures |m| == |tasks|
    decreases |tasks|
  {
    if tasks == [] then []
    else match Pick(candidates, tasks[0])
      case Some(x) =>
        if x.id == "" then [None] + Greedy(tasks[1..], candidates)
        else [Some(x.id)] + Greedy(tasks[1..], Without(candidates, x.id))
      case None => [None] + Greedy(tasks[1..], candidates)
  }

  function Count(m: seq<Option<string>>): nat {
    if m == [] then 0 else (if m[0].Some? then 1 else 0) + Count(m[1..])
  }

  ghost predicate OneToOne(m: seq<Option<string>>) {
    forall i, j | 0 <= i < j < |m| && m[i].Some? :: m[i] != m[j]
  }

  ghost predicate Runs(candidates: seq<Node>, id: string, t: Task) {
    exists n | n in candidates :: n.id == id && CanRun(n, t)
  }

  /** Every assigned task got a candidate that can run it. */
  ghost predicate Respects(tasks: seq<Task>, candidates: seq<Node>, m: seq<Option<string>>) {
    && |m| == |tasks|
    && forall i | 0 <= i < |m| && m[i].Some? :: Runs(candidates, m[i].value, tasks[i])
  }

  ghost predicate Named(candidates: seq<Node>) {
    forall n | n in candidates :: n.id != ""
  }

  lemma {:induction false} WithoutIff(candidates: seq<Node>, id: string, n: Node)
    ensures n in Without(candidates, id) <==> n in candidates && n.id != id
  {
    if candidates != [] {
      WithoutIff(candidates[1..], id, n);
      assert candidates == [candidates[0]] + candidates[1..];
    }
  }

  lemma {:induction false} WithoutAll(candidates: seq<Node>, id: string)
    ensures forall n :: n in Without(candidates, id) <==> n in candidates && n.id != id
    ensures forall y, t :: Runs(Without(candidates, id), y, t) <==> y != id && Runs(candidates, y, t)
  {
    hide CanRun;
    forall n: Node ensures n in Without(candidates, id) <==> n in candidates && n.id != id {
      WithoutIff(candidates, id, n);
    }
    forall y, t ensures Runs(Without(candidates, id), y, t) <==> y != id && Runs(candidates, y, t) {
      if y != id && Runs(candidates, y, t) {
        var n :| n in candidates && n.id == y && CanRun(n, t);
        assert n in Without(candidates, id);
      }
    }
  }

  /** Assignments respect capabilities and never give one node two tasks. */
  lemma {:induction false} GreedyMatches(tasks: seq<Task>, candidates: seq<Node>)
    ensures Respects(tasks, candidates, Greedy(tasks, candidates)) && OneToOne(Greedy(tasks, candidates))
    decreases |tasks|
  {
    hide Pick, CanRun, Without;
    if tasks != [] {
      PickBest(candidates, tasks[0]);
      var left := match Pick(candidates, tasks[0])
        case Some(x) => if x.id == "" then candidates else Without(candidates, x.id)
        case None => candidates;
      GreedyMatches(tasks[1..], left);
      var m, tail := Greedy(tasks, candidates), Greedy(tasks[1..], left);
      if m[0].Some? { WithoutAll(candidates, m[0].value); }
      forall i | 0 <= i < |m| && m[i].Some? ensures Runs(candidates, m[i].value, tasks[i]) {
        if i > 0 { assert m[i] == tail[i - 1] && tasks[i] == tasks[1..][i - 1]; }
      }
      forall i, j | 0 <= i < j < |m| && m[i].Some? ensures m[i] != m[j] {
        assert m[j] == tail[j - 1];
        if i > 0 { assert m[i] == tail[i - 1]; }
        else if m[j].Some? { assert Runs(left, tail[j - 1].value, tasks[1..][j - 1]); }
      }
    }
  }

  // ---- at least half of the best ----------------------------------------------------------------

  function Drop(m: seq<Option<string>>, id: string): seq<Option<string>> {
    if m == [] then [] else [if m[0] == Some(id) then None else m[0]] + Drop(m[1..], id)
  }

  lemma {:induction false} DropAt(m: seq<Option<string>>, id: string)
    ensures |Drop(m, id)| == |m|
    ensures forall i | 0 <= i < |m| :: Drop(m, id)[i] == if m[i] == Some(id) then None else m[i]
  {
    if m != [] {
      DropAt(m[1..], id);
      forall i | 1 <= i < |m| ensures Drop(m, id)[i] == if m[i] == Some(id) then None else m[i] {
        assert Drop(m, id)[i] == Drop(m[1..], id)[i - 1] && m[i] == m[1..][i - 1];
      }
    }
  }

  lemma {:induction false} DropNothing(m: seq<Option<string>>, id: string)
    requires Some(id) !in m
    ensures Drop(m, id) == m
  {
    if m != [] { DropNothing(m[1..], id); }
  }

  /** A one-to-one assignment loses at most one task with a node. */
  lemma {:induction false} DropCount(m: seq<Option<string>>, id: string)
    requires OneToOne(m)
    ensures Count(m) <= Count(Drop(m, id)) + 1
  {
    if m != [] {
      assert forall i | 0 <= i < |m[1..]| :: m[1..][i] == m[i + 1];
      if m[0] == Some(id) {
        DropNothing(m[1..], id);
      } else {
        DropCount(m[1..], id);
      }
    }
  }

  /** A pass assigns at least half as many tasks as any one-to-one assignment of tasks to
      idle nodes that can run them. */
  lemma {:induction false} HalfOfTheBest(tasks: seq<Task>, candidates: seq<Node>, m: seq<Option<string>>)
    requires Named(candidates) && Respects(tasks, candidates, m) && OneToOne(m)
    ensures Count(m) <= 2 * Count(Greedy(tasks, candidates))
    decreases |tasks|
  {
    hide Pick, CanRun;
    if tasks != [] {
      PickBest(candidates, tasks[0]);
      var rest := m[1..];
      assert forall i | 0 <= i < |rest| :: rest[i] == m[i + 1] && tasks[1..][i] == tasks[i + 1];
      match Pick(candidates, tasks[0])
      case None =>
        assert m[0].Some? ==> Runs(candidates, m[0].value, tasks[0]);
        HalfOfTheBest(tasks[1..], candidates, rest);
      case Some(x) =>
        DropAt(rest, x.id);
        DropCount(rest, x.id);
        WithoutAll(candidates, x.id);
        HalfOfTheBest(tasks[1..], Without(candidates, x.id), Drop(rest, x.id));
    }
  }

  const BIG := Node("big", 8192.0, "x", true, Some(2.0), [])
  const SMALL := Node("small", 0.0, "x", true, None, [])
  const EASY := Task("easy", None, false)
  const HARD := Task("hard", Some(8.0), false)

  lemma TightPicks()
    ensures Pick([BIG, SMALL], EASY) == Some(BIG) && Without([BIG, SMALL], "big") == [SMALL]
    ensures Pick([SMALL], HARD) == None && CanRun(BIG, HARD) && CanRun(SMALL, EASY)
  {
    var both := [BIG, SMALL];
    assert Better(BIG, SMALL) && both[0] == BIG && both[1] == SMALL && both[1..] == [SMALL] && [SMALL][1..] == [];
    assert CanRun(BIG, EASY) && CanRun(SMALL, EASY) && CanRun(BIG, HARD) && !CanRun(SMALL, HARD);
    assert Without([SMALL], "big") == [SMALL];
    assert Capable([SMALL], TaskRequirements(HARD)) == [];
    PickBest(both, EASY);
  }

  /** Half is the best possible bound: a flexible task can take the only node that a
      pickier task behind it could use. */
  lemma HalfIsTight() returns (tasks: seq<Task>, candidates: seq<Node>, m: seq<Option<string>>)
    ensures Named(candidates) && Respects(tasks, candidates, m) && OneToOne(m)
    ensures Count(m) == 2 && Count(Greedy(tasks, candidates)) == 1
  {
    hide Pick, CanRun, Without;
    tasks, candidates, m := [EASY, HARD], [BIG, SMALL], [Some("small"), Some("big")];
    TightPicks();
    assert candidates[0] == BIG && candidates[1] == SMALL;
    assert Runs(candidates, "small", EASY) && Runs(candidates, "big", HARD);
    assert tasks[1..] == [HARD] && [HARD][1..] == [] && m[1..] == [Some("big")] && m[1..][1..] == [];
    assert Greedy([HARD], [SMALL]) == [None];
    assert Greedy(tasks, candidates) == [Some("big"), None];
    assert Count([None]) == 0 by { var none: seq<Option<string>> := [None]; assert none[1..] == []; }
    assert Greedy(tasks, candidates)[1..] == [None];
  }

  // ---- priority ---------------------------------------------------------------------------------

  /** Task `i` would rather have had `n`: it can run there, and `n` beats what it got. */
  ghost predicate Prefers(tasks: seq<Task>, candidates: seq<Node>, i: nat, n: Node)
    requires i < |tasks|
  {
    var got := Greedy(tasks, candidates)[i];
    && n in candidates && CanRun(n, tasks[i])
    && (got.None? || exists x | x in candidates :: got == Some(x.id) && CanRun(x, tasks[i]) && Better(n, x))
  }

  ghost predicate DistinctIds(candidates: seq<Node>) {
    forall a, b | a in candidates && b in candidates && a.id == b.id :: a == b
  }

  /** The candidates the rest of the queue sees. */
  ghost function Left(tasks: seq<Task>, candidates: seq<Node>): seq<Node>
    requires tasks != []
  {
    var first := Greedy(tasks, candidates)[0];
    if first.None? then candidates else Without(candidates, first.value)
  }

  lemma {:induction false} GreedyTail(tasks: seq<Task>, candidates: seq<Node>)
    requires tasks != []
    ensures Greedy(tasks, candidates)[1..] == Greedy(tasks[1..], Left(tasks, candidates))
  {
    hide Pick, Without;
  }

  lemma {:induction false} HeadGetsTheBest(tasks: seq<Task>, candidates: seq<Node>, n: Node)
    requires Named(candidates) && DistinctIds(candidates) && tasks != []
    ensures !Prefers(tasks, candidates, 0, n)
  {
    hide Pick, CanRun, Better;
    PickBest(candidates, tasks[0]);
  }

  lemma {:induction false} PrefersLater(tasks: seq<Task>, candidates: seq<Node>, i: nat, n: Node)
    requires Named(candidates) && DistinctIds(candidates) && 0 < i < |tasks| && Prefers(tasks, candidates, i, n)
    requires Greedy(tasks, candidates)[0] != Some(n.id)
    ensures Prefers(tasks[1..], Left(tasks, candidates), i - 1, n)
    ensures Named(Left(tasks, candidates)) && DistinctIds(Left(tasks, candidates))
  {
    hide Pick, CanRun, Better, Greedy, Without;
    var m, left := Greedy(tasks, candidates), Left(tasks, candidates);
    GreedyTail(tasks, candidates);
    assert m[i] == m[1..][i - 1] && tasks[i] == tasks[1..][i - 1];
    GreedyMatches(tasks, candidates);
    assert m[0].Some? ==> m[0] != m[i];
    if m[0].Some? { WithoutAll(candidates, m[0].value); }
  }

  /** Whenever a task waits although a node could run it, or gets a node that another
      capable one beats, that other node went to a task earlier in the queue. */
  lemma {:induction false} EarlierTaskTookIt(tasks: seq<Task>, candidates: seq<Node>, i: nat, n: Node)
    returns (j: nat)
    requires Named(candidates) && DistinctIds(candidates) && i < |tasks| && Prefers(tasks, candidates, i, n)
    ensures j < i && Greedy(tasks, candidates)[j] == Some(n.id)
    decreases |tasks|
  {
    hide Prefers, Left, Greedy, Named, DistinctIds;
    if i == 0 {
      HeadGetsTheBest(tasks, candidates, n);
      assert false;
    } else if Greedy(tasks, candidates)[0] == Some(n.id) {
      j := 0;
    } else {
      PrefersLater(tasks, candidates, i, n);
      GreedyTail(tasks, candidates);
      var j' := EarlierTaskTookIt(tasks[1..], Left(tasks, candidates), i - 1, n);
      j := j' + 1;
    }
  }

  // ---- the scheduler object -----------------------------------------------------------------------

  /** Connected, contributing nodes without a pending assignment, in connection order. */
  function Idle(nodes: map<string, Node>, connected: seq<string>, pending: map<string, string>): seq<Node> {
    if connected == [] then []
    else
      var id, before := connected[|connected| - 1], Idle(nodes, connected[..|connected| - 1], pending);
      if id in nodes && nodes[id].contributing && id !in pending then before + [nodes[id]] else before
  }

  ghost predicate Registered(nodes: map<string, Node>) {
    forall id | id in nodes :: nodes[id].id == id && id != ""
  }

  lemma {:induction false} IdleIff(nodes: map<string, Node>, connected: seq<string>, pending: map<string, string>)
    requires Registered(nodes)
    ensures forall n :: n in Idle(nodes, connected, pending) <==>
      n.id in connected && n.id in nodes && nodes[n.id] == n && n.contributing && n.id !in pending
    ensures Named(Idle(nodes, connected, pending)) && DistinctIds(Idle(nodes, connected, pending))
  {
    if connected != [] {
      var k := |connected| - 1;
      IdleIff(nodes, connected[..k], pending);
      assert connected == connected[..k] + [connected[k]];
    }
  }

  datatype Assignment = Assignment(task: string, node: string)

  /** What a pass records, task by task. */
  function Pairs(tasks: seq<Task>, m: seq<Option<string>>): seq<Assignment>
    requires |m| <= |tasks|
  {
    if m == [] then []
    else
      var k := |m| - 1;
      Pairs(tasks, m[..k]) + if m[k].Some? then [Assignment(tasks[k].id, m[k].value)] else []
  }

  /** What becomes pending: assignments whose node is still connected when the message
      is queued. */
  function Delivered(pending: map<string, string>, tasks: seq<Task>, m: seq<Option<string>>,
      online: seq<bool>): map<string, string>
    requires |m| <= |tasks| == |online|
  {
    if m == [] then pending
    else
      var k := |m| - 1;
      var before := Delivered(pending, tasks, m[..k], online);
      if m[k].Some? && online[k] then before[m[k].value := tasks[k].id] else before
  }

  lemma {:induction false} TrailingNone(pending: map<string, string>, tasks: seq<Task>, m: seq<Option<string>>,
      online: seq<bool>, i: nat)
    requires i <= |m| <= |tasks| == |online|
    requires forall k | i <= k < |m| :: m[k].None?
    ensures Pairs(tasks, m) == Pairs(tasks, m[..i])
    ensures Delivered(pending, tasks, m, online) == Delivered(pending, tasks, m[..i], online)
    decreases |m|
  {
    if i < |m| {
      var k := |m| - 1;
      TrailingNone(pending, tasks, m[..k], online, i);
      assert m[..k][..i] == m[..i];
    } else {
      assert m[..i] == m;
    }
  }

  lemma {:induction false} NobodyLeft(tasks: seq<Task>)
    ensures forall i | 0 <= i < |Greedy(tasks, [])| :: Greedy(tasks, [])[i].None?
  {
    if tasks != [] {
      NobodyLeft(tasks[1..]);
      PickBest([], tasks[0]);
    }
  }

  lemma {:induction false} StartsEmpty(pending: map<string, string>, tasks: seq<Task>, online: seq<bool>)
    requires |tasks| == |online|
    ensures Pairs(tasks, []) == [] && Delivered(pending, tasks, [], online) == pending
  {
  }

  /** One turn of the loop, on the specification. */
  lemma {:induction false} Turn(tasks: seq<Task>, candidates: seq<Node>, m: seq<Option<string>>, i: nat)
    requires i < |tasks| == |m| && m[i..] == Greedy(tasks[i..], candidates)
    ensures match Pick(candidates, tasks[i])
      case None => m[i] == None && m[i + 1..] == Greedy(tasks[i + 1..], candidates)
      case Some(x) =>
        if x.id == "" then m[i] == None && m[i + 1..] == Greedy(tasks[i + 1..], candidates)
        else m[i] == Some(x.id) && m[i + 1..] == Greedy(tasks[i + 1..], Without(candidates, x.id))
  {
    hide Pick, Without;
    assert tasks[i..][1..] == tasks[i + 1..] && m[i + 1..] == m[i..][1..] && m[i] == m[i..][0];
  }

  lemma {:induction false} RecordTurn(pending: map<string, string>, tasks: seq<Task>, m: seq<Option<string>>,
      online: seq<bool>, i: nat)
    requires i < |m| <= |tasks| == |online|
    ensures Pairs(tasks, m[..i + 1])
      == Pairs(tasks, m[..i]) + if m[i].Some? then [Assignment(tasks[i].id, m[i].value)] else []
    ensures Delivered(pending, tasks, m[..i + 1], online)
      == (var before := Delivered(pending, tasks, m[..i], online);
          if m[i].Some? && online[i] then before[m[i].value := tasks[i].id] else before)
  {
    assert m[..i + 1][..i] == m[..i];
  }

  class TaskScheduler {
    var connected: seq<string>
    var pending: map<string, string>
    var assignments: seq<Assignment>

    constructor ()
      ensures connected == [] && pending == map[] && assignments == []
    {
      connected, pending, assignments := [], map[], [];
    }

    method IdleCandidates(nodes: map<string, Node>) returns (candidates: seq<Node>)
      ensures candidates == Idle(nodes, connected, pending)
    {
      candidates := [];
      for i := 0 to |connected|
        invariant candidates == Idle(nodes, connected[..i], pending)
      {
        var id := connected[i];
        assert connected[..i + 1][..i] == connected[..i];
        if id !in nodes { continue; }
        if !nodes[id].contributing { continue; }
        if id in pending { continue; }
        candidates := candidates + [nodes[id]];
      }
      assert connected[..|connected|] == connected;
    }

    method AssignTaskToNode(t: Task, id: string, online: bool)
      modifies this`pending, this`assignments
      ensures assignments == old(assignments) + [Assignment(t.id, id)]
      ensures pending == if online then old(pending)[id := t.id] else old(pending)
    {
      assignments := assignments + [Assignment(t.id, id)];
      if online { pending := pending[id := t.id]; }
    }

    /** `online[i]` says whether the node picked for task `i` is still connected when the
        message is queued. */
    method AssignQueuedTasks(tasks: seq<Task>, nodes: map<string, Node>, online: seq<bool>)
      requires |online| == |tasks|
      modifies this`pending, this`assignments
      ensures var m := Greedy(tasks, Idle(nodes, connected, old(pending)));
        && |m| == |tasks|
        && assignments == old(assignments) + Pairs(tasks, m)
        && pending == Delivered(old(pending), tasks, m, online)
    {
      hide Pick, CanRun, Pairs, Delivered, Greedy, Without;
      if tasks == [] {
        StartsEmpty(pending, tasks, online);
        return;
      }
      var candidates := IdleCandidates(nodes);
      ghost var m := Greedy(tasks, candidates);
      assert tasks[0..] == tasks && m[0..] == m && m[..0] == [];
      StartsEmpty(old(pending), tasks, online);
      for i := 0 to |tasks|
        invariant m[i..] == Greedy(tasks[i..], candidates)
        invariant assignments == old(assignments) + Pairs(tasks, m[..i])
        invariant pending == Delivered(old(pending), tasks, m[..i], online)
      {
        if candidates == [] {
          NobodyLeft(tasks[i..]);
          assert forall k | i <= k < |m| :: m[k] == m[i..][k - i];
          TrailingNone(old(pending), tasks, m, online, i);
          return;
        }
        Turn(tasks, candidates, m, i);
        RecordTurn(old(pending), tasks, m, online, i);
        match Pick(candidates, tasks[i]) {
          case None =>
          case Some(x) =>
            if x.id != "" {
              candidates := Without(candidates, x.id);
              AssignTaskToNode(tasks[i], x.id, online[i]);
            }
        }
      }
      assert m[..|tasks|] == m;
    }
  }

  lemma {:induction false} DeliveredAt(pending: map<string, string>, tasks: seq<Task>, m: seq<Option<string>>,
      online: seq<bool>, id: string)
    requires |m| <= |tasks| == |online| && OneToOne(m)
    ensures var after := Delivered(pending, tasks, m, online);
        && (forall i | 0 <= i < |m| && m[i] == Some(id) && online[i] :: id in after && after[id] == tasks[i].id)
        && ((forall i | 0 <= i < |m| && m[i] == Some(id) :: !online[i]) ==>
              (id in after <==> id in pending) && (id in pending ==> after[id] == pending[id]))
    decreases |m|
  {
    if m != [] {
      var k := |m| - 1;
      DeliveredAt(pending, tasks, m[..k], online, id);
      assert forall i | 0 <= i < k :: m[..k][i] == m[i];
    }
  }

  /** A pass, in terms of nodes and tasks: whoever gets a task was connected, contributing
      and free, fits it, and gets no other. And a task is left out only when every node that
      was so and fits it went to a task before. */
  lemma {:induction false} PassExact(tasks: seq<Task>, nodes: map<string, Node>, connected: seq<string>,
                                     pending: map<string, string>, i: nat, id: string)
    requires Registered(nodes) && i < |tasks|
    ensures var m := Greedy(tasks, Idle(nodes, connected, pending));
      var free := id in connected && id in nodes && nodes[id].contributing && id !in pending;
      && (m[i] == Some(id) ==>
            free && Fits(nodes[id], tasks[i]) && forall j | 0 <= j < |m| && m[j] == Some(id) :: j == i)
      && (m[i] == None && free && Fits(nodes[id], tasks[i]) ==> exists j | 0 <= j < i :: m[j] == Some(id))
  {
    hide CanRun, Fits, Greedy, Idle;
    var idle := Idle(nodes, connected, pending);
    var m := Greedy(tasks, idle);
    IdleIff(nodes, connected, pending);
    GreedyMatches(tasks, idle);
    if id in nodes { CanRunIff(nodes[id], tasks[i]); }
    if m[i] == Some(id) {
      var n :| n in idle && n.id == id && CanRun(n, tasks[i]);
      assert n == nodes[id];
    }
    if m[i] == None && id in nodes && nodes[id] in idle && CanRun(nodes[id], tasks[i]) {
      var j := EarlierTaskTookIt(tasks, idle, i, nodes[id]);
    }
  }

  /** The assignments recorded are those of the matching, one for each task placed. */
  lemma {:induction false} PairsExact(tasks: seq<Task>, m: seq<Option<string>>, a: Assignment)
    requires |m| <= |tasks|
    ensures a in Pairs(tasks, m) <==> exists i | 0 <= i < |m| :: m[i] == Some(a.node) && tasks[i].id == a.task
    ensures |Pairs(tasks, m)| == Count(m)
    decreases |m|
  {
    if m != [] {
      var k := |m| - 1;
      PairsExact(tasks, m[..k], a);
      CountLast(m);
      assert forall i | 0 <= i < k :: m[..k][i] == m[i];
    }
  }

  lemma {:induction false} CountLast(m: seq<Option<string>>)
    requires m != []
    ensures Count(m) == Count(m[..|m| - 1]) + if m[|m| - 1].Some? then 1 else 0
  {
    if |m| > 1 {
      CountLast(m[1..]);
      assert m[1..][..|m| - 2] == m[..|m| - 1][1..];
    }
  }

  /** A pass only adds to the pending assignments: what was pending stays, and a node
      gets the one task the matching gave it, if its message went out. */
  lemma {:induction false} PassKeepsPending(tasks: seq<Task>, nodes: map<string, Node>, connected: seq<string>,
                                            pending: map<string, string>, online: seq<bool>, id: string)
    requires Registered(nodes) && |online| == |tasks|
    ensures var m := Greedy(tasks, Idle(nodes, connected, pending));
        && |m| == |tasks|
        && var after := Delivered(pending, tasks, m, online);
        && (id in pending ==> Some(id) !in m && id in after && after[id] == pending[id])
        && (id !in pending ==> (id in after <==> exists i | 0 <= i < |m| :: m[i] == Some(id) && online[i]))
        && (forall i | 0 <= i < |m| && m[i] == Some(id) && online[i] :: after[id] == tasks[i].id)
  {
    hide CanRun;
    var idle := Idle(nodes, connected, pending);
    var m := Greedy(tasks, idle);
    IdleIff(nodes, connected, pending);
    GreedyMatches(tasks, idle);
    DeliveredAt(pending, tasks, m, online, id);
    if Some(id) in m {
      var i :| 0 <= i < |m| && m[i] == Some(id);
      assert Runs(idle, id, tasks[i]);
    }
  }
}
