/** The job queue: a pending list kept sorted, and the running and finished jobs. */
module JobQueue {
  import opened Options

  datatype Priority = Critical | High | Normal | Low | Background

  function Rank(p: Priority): nat {
    match p
    case Critical => 0
    case High => 1
    case Normal => 2
    case Low => 3
    case Background => 4
  }

  /** What never changes about a job. */
  datatype Spec = Spec(id: string, priority: Priority, createdAt: int, minVramGb: real, requiredCuda: bool)

  datatype Status = Pending | Running | Completed | Failed | Cancelled

  /** A finished job, how it ended and with what error or result. */
  datatype Finished = Finished(spec: Spec, status: Status, note: string)

  datatype Queue = Queue(pending: seq<Spec>, running: map<string, Spec>, finished: map<string, Finished>)

  datatype Capabilities = Capabilities(vramGb: Option<real>, hasCuda: Option<bool>)

  // ---- the order of the pending list ---------------------------------------------------------

  predicate Before(a: Spec, b: Spec) {
    Rank(a.priority) < Rank(b.priority) || (a.priority == b.priority && a.createdAt < b.createdAt)
  }

  ghost predicate SortedByKey(s: seq<Spec>) {
    forall i, j | 0 <= i < j < |s| :: !Before(s[j], s[i])
  }

  lemma BeforeOrder()
    ensures forall a, b, c | !Before(b, a) && !Before(c, b) :: !Before(c, a)
    ensures forall a, b | Before(a, b) :: !Before(b, a)
  {
  }

  /** Where `x` goes: behind everything that does not come after it. */
  function Position(s: seq<Spec>, x: Spec): (k: nat)
    ensures k <= |s|
    ensures forall i | k <= i < |s| :: Before(x, s[i])
    ensures k > 0 ==> !Before(x, s[k - 1])
  {
    if s == [] || !Before(x, s[|s| - 1]) then |s| else Position(s[..|s| - 1], x)
  }

  function Insert(s: seq<Spec>, x: Spec): (r: seq<Spec>) {
    var k := Position(s, x);
    s[..k] + [x] + s[k..]
  }

  function StableSort(s: seq<Spec>): (r: seq<Spec>)
    ensures |r| == |s|
  {
    if s == [] then [] else Insert(StableSort(s[..|s| - 1]), s[|s| - 1])
  }

  predicate Tied(a: Spec, b: Spec) {
    !Before(a, b) && !Before(b, a)
  }

  /** The jobs of `s` with the key of `k`, in order. */
  function SameKey(s: seq<Spec>, k: Spec): seq<Spec> {
    if s == [] then [] else SameKey(s[..|s| - 1], k) + if Tied(s[|s| - 1], k) then [s[|s| - 1]] else []
  }

  lemma {:induction false} SameKeyAppend(s: seq<Spec>, t: seq<Spec>, k: Spec)
    ensures SameKey(s + t, k) == SameKey(s, k) + SameKey(t, k)
    decreases |t|
  {
    hide Tied;
    if t == [] {
      assert s + t == s;
    } else {
      SameKeyAppend(s, t[..|t| - 1], k);
      assert (s + t)[..|s + t| - 1] == s + t[..|t| - 1];
    }
  }

  lemma {:induction false} NoneTied(t: seq<Spec>, k: Spec)
    requires forall i | 0 <= i < |t| :: !Tied(t[i], k)
    ensures SameKey(t, k) == []
  {
    if t != [] { NoneTied(t[..|t| - 1], k); }
  }

  lemma {:induction false} InsertSorts(s: seq<Spec>, x: Spec)
    requires SortedByKey(s)
    ensures SortedByKey(Insert(s, x))
  {
    hide Before;
    BeforeOrder();
    var k, r := Position(s, x), Insert(s, x);
    forall i | 0 <= i < k ensures !Before(x, s[i]) {
      if i < k - 1 { assert !Before(s[k - 1], s[i]); }
    }
    assert forall i | 0 <= i < |r| :: r[i] == if i < k then s[i] else if i == k then x else s[i - 1];
  }

  lemma {:induction false} InsertStable(s: seq<Spec>, x: Spec, k: Spec)
    ensures SameKey(Insert(s, x), k) == SameKey(s, k) + if Tied(x, k) then [x] else []
  {
    hide SameKey;
    var at := Position(s, x);
    var front, back := s[..at], s[at..];
    if Tied(x, k) {
      forall i | 0 <= i < |back| ensures !Tied(back[i], k) {
        assert back[i] == s[at + i] && Before(x, s[at + i]);
      }
      NoneTied(back, k);
    }
    hide Before, Tied, Position;
    SplitStable(front, back, x, k);
    assert s == front + back;
  }

  lemma {:induction false} SplitStable(front: seq<Spec>, back: seq<Spec>, x: Spec, k: Spec)
    requires Tied(x, k) ==> SameKey(back, k) == []
    ensures SameKey(front + [x] + back, k) == SameKey(front + back, k) + if Tied(x, k) then [x] else []
  {
    hide Tied, SameKey;
    SameKeyAppend(front + [x], back, k);
    SameKeyAppend(front, [x], k);
    SameKeyAppend(front, back, k);
    SameKeyOne(x, k);
  }

  lemma {:induction false} SameKeyOne(x: Spec, k: Spec)
    ensures SameKey([x], k) == if Tied(x, k) then [x] else []
  {
    hide Tied;
    assert [x][..0] == [];
  }

  lemma {:induction false} InsertMultiset(s: seq<Spec>, x: Spec)
    ensures multiset(Insert(s, x)) == multiset(s) + multiset{x}
  {
    hide Before;
    var k := Position(s, x);
    assert s == s[..k] + s[k..];
  }

  /** Sorting rearranges, orders by key, and leaves jobs with the same key in the order
      in which they were. */
  lemma {:induction false} StableSortSorts(s: seq<Spec>, k: Spec)
    ensures SortedByKey(StableSort(s)) && multiset(StableSort(s)) == multiset(s)
    ensures SameKey(StableSort(s), k) == SameKey(s, k)
  {
    hide Insert, SortedByKey, Tied;
    if s != [] {
      var init, last := s[..|s| - 1], s[|s| - 1];
      StableSortSorts(init, k);
      InsertSorts(StableSort(init), last);
      InsertMultiset(StableSort(init), last);
      InsertStable(StableSort(init), last, k);
      assert s == init + [last];
    } else {
      EmptySorted();
    }
  }

  lemma EmptySorted()
    ensures SortedByKey([])
  {
  }

  /** A sorted list is left alone, so sorting after an append only moves the new job. */
  lemma {:induction false} SortAfterAppend(s: seq<Spec>, x: Spec)
    requires SortedByKey(s)
    ensures StableSort(s) == s && StableSort(s + [x]) == Insert(s, x)
  {
    if s != [] {
      var init, last := s[..|s| - 1], s[|s| - 1];
      SortAfterAppend(init, last);
      if init != [] { assert !Before(last, s[|s| - 2]); }
      assert Position(init, last) == |init|;
      assert s == init + [last];
    }
    assert (s + [x])[..|s|] == s;
  }

  // ---- the operations on values ----------------------------------------------------------------

  predicate Suits(job: Spec, caps: Capabilities) {
    var vram := if caps.vramGb.Some? then caps.vramGb.value else 0.0;
    var cuda := caps.hasCuda.Some? && caps.hasCuda.value;
    !(job.minVramGb > vram) && !(job.requiredCuda && !cuda)
  }

  /** The position of the first suitable job, or the length of the list. */
  function FirstSuitable(s: seq<Spec>, caps: Capabilities): (k: nat)
    ensures k <= |s|
    ensures forall i | 0 <= i < k :: !Suits(s[i], caps)
    ensures k < |s| ==> Suits(s[k], caps)
  {
    if s == [] || Suits(s[0], caps) then 0 else 1 + FirstSuitable(s[1..], caps)
  }

  function Find(s: seq<Spec>, id: string): (k: nat)
    ensures k <= |s|
    ensures forall i | 0 <= i < k :: s[i].id != id
    ensures k < |s| ==> s[k].id == id
  {
    if s == [] || s[0].id == id then 0 else 1 + Find(s[1..], id)
  }

  function Remove<T>(s: seq<T>, k: nat): seq<T>
    requires k < |s|
  {
    s[..k] + s[k + 1..]
  }

  datatype Op =
    | Submit(job: Spec)
    | GetNext(caps: Capabilities)
    | Complete(id: string, result: string)
    | Fail(id: string, error: string)
    | Cancel(id: string)

  function Next(q: Queue, op: Op): Queue {
    match op
    case Submit(job) => q.(pending := StableSort(q.pending + [job]))
    case GetNext(caps) =>
      var k := FirstSuitable(q.pending, caps);
      if k == |q.pending| then q
      else q.(pending := Remove(q.pending, k), running := q.running[q.pending[k].id := q.pending[k]])
    case Complete(id, result) =>
      if id !in q.running then q else FromRunning(q, id, Finished(q.running[id], Completed, result))
    case Fail(id, error) =>
      var k := Find(q.pending, id);
      if id in q.running then FromRunning(q, id, Finished(q.running[id], Failed, error))
      else if k < |q.pending| then FromPending(q, k, Finished(q.pending[k], Failed, error))
      else q
    case Cancel(id) =>
      var k := Find(q.pending, id);
      if k < |q.pending| then FromPending(q, k, Finished(q.pending[k], Cancelled, ""))
      else if id in q.running then FromRunning(q, id, Finished(q.running[id], Cancelled, ""))
      else q
  }

  function FromRunning(q: Queue, id: string, f: Finished): Queue {
    q.(running := q.running - {id}, finished := q.finished[id := f])
  }

  function FromPending(q: Queue, k: nat, f: Finished): Queue
    requires k < |q.pending|
  {
    q.(pending := Remove(q.pending, k), finished := q.finished[f.spec.id := f])
  }

  // ---- exactly one place -------------------------------------------------------------------------

  predicate Listed(s: seq<Spec>, id: string) {
    exists x | x in s :: x.id == id
  }

  ghost predicate DistinctIds(s: seq<Spec>) {
    forall i, j | 0 <= i < j < |s| :: s[i].id != s[j].id
  }

  ghost predicate Done(s: Status) {
    s == Completed || s == Failed || s == Cancelled
  }

  /** Every known job is in exactly one place, under its own id and with a status that
      fits; the pending list is sorted. */
  ghost predicate Inv(q: Queue) {
    && SortedByKey(q.pending)
    && DistinctIds(q.pending)
    && (forall x | x in q.pending :: x.id !in q.running && x.id !in q.finished)
    && (forall id | id in q.running :: id !in q.finished && q.running[id].id == id)
    && (forall id | id in q.finished :: q.finished[id].spec.id == id && Done(q.finished[id].status))
  }

  ghost predicate Known(q: Queue, id: string) {
    Listed(q.pending, id) || id in q.running || id in q.finished
  }

  /** The job known as `id`. */
  ghost predicate Holds(q: Queue, job: Spec) {
    || job in q.pending
    || (job.id in q.running && q.running[job.id] == job)
    || (job.id in q.finished && q.finished[job.id].spec == job)
  }

  lemma {:induction false} SubmitPlaces(q: Queue, job: Spec)
    requires SortedByKey(q.pending)
    ensures var q', k := Next(q, Submit(job)), Position(q.pending, job);
      && q' == q.(pending := q.pending[..k] + [job] + q.pending[k..])
      && SortedByKey(q'.pending)
  {
    SortAfterAppend(q.pending, job);
    InsertSorts(q.pending, job);
  }

  ghost predicate Apart(a: seq<Spec>, b: seq<Spec>) {
    forall x, y | x in a && y in b :: x.id != y.id
  }

  lemma {:induction false} DistinctParts(a: seq<Spec>, b: seq<Spec>)
    requires DistinctIds(a + b)
    ensures DistinctIds(a) && DistinctIds(b) && Apart(a, b)
  {
    var t, n := a + b, |a|;
    assert forall i | 0 <= i < n :: t[i] == a[i];
    assert forall j | 0 <= j < |b| :: t[n + j] == b[j];
    forall x, y | x in a && y in b ensures x.id != y.id {
      var i :| 0 <= i < n && a[i] == x;
      var j :| 0 <= j < |b| && b[j] == y;
      assert t[i].id != t[n + j].id;
    }
    forall i, j | 0 <= i < j < |b| ensures b[i].id != b[j].id {
      assert t[n + i].id != t[n + j].id;
    }
  }

  lemma {:induction false} DistinctWhole(a: seq<Spec>, b: seq<Spec>)
    requires DistinctIds(a) && DistinctIds(b) && Apart(a, b)
    ensures DistinctIds(a + b)
  {
    var t, n := a + b, |a|;
    forall i, j | 0 <= i < j < |t| ensures t[i].id != t[j].id {
      if i < n && j >= n { assert t[i] in a && t[j] in b; }
      if i >= n { assert t[i] == b[i - n] && t[j] == b[j - n]; }
    }
  }

  lemma {:induction false} DistinctConcat(a: seq<Spec>, b: seq<Spec>)
    ensures DistinctIds(a + b) <==> DistinctIds(a) && DistinctIds(b) && Apart(a, b)
  {
    hide DistinctIds, Apart;
    if DistinctIds(a + b) { DistinctParts(a, b); }
    if DistinctIds(a) && DistinctIds(b) && Apart(a, b) { DistinctWhole(a, b); }
  }

  /** What putting `x` into a list does to its members and their distinctness. */
  lemma {:induction false} Between(a: seq<Spec>, x: Spec, b: seq<Spec>)
    ensures forall y :: y in a + [x] + b <==> y in a + b || y == x
    ensures DistinctIds(a + [x] + b) <==> DistinctIds(a + b) && !Listed(a + b, x.id)
  {
    DistinctConcat(a + [x], b);
    DistinctConcat(a, [x]);
    DistinctConcat(a, b);
    assert DistinctIds([x]);
    hide DistinctIds;
    assert Apart(a + [x], b) <==> Apart(a, b) && Apart([x], b);
    assert Listed(a + b, x.id) <==> !Apart(a, [x]) || !Apart([x], b);
  }

  lemma {:induction false} Inserted(s: seq<Spec>, x: Spec, k: nat)
    requires k <= |s|
    ensures var t := s[..k] + [x] + s[k..];
      && (forall y :: y in t <==> y in s || y == x)
      && (DistinctIds(t) <==> DistinctIds(s) && !Listed(s, x.id))
  {
    hide DistinctIds, Listed;
    assert s == s[..k] + s[k..];
    Between(s[..k], x, s[k..]);
  }

  lemma {:induction false} Removed(s: seq<Spec>, k: nat)
    requires DistinctIds(s) && k < |s|
    ensures DistinctIds(Remove(s, k)) && forall y :: y in Remove(s, k) <==> y in s && y.id != s[k].id
    ensures s[k] in s && forall y | y in s && y.id == s[k].id :: y == s[k]
  {
    forall y | y in s && y.id == s[k].id ensures y == s[k] {
      var i :| 0 <= i < |s| && s[i] == y;
    }
    hide DistinctIds;
    assert s == s[..k] + [s[k]] + s[k + 1..];
    Between(s[..k], s[k], s[k + 1..]);
  }

  /** Submitting keeps the invariant exactly when the id is new. */
  lemma {:induction false} SubmitKeepsIff(q: Queue, job: Spec)
    requires Inv(q)
    ensures Inv(Next(q, Submit(job))) <==> !Known(q, job.id)
  {
    hide SortedByKey, DistinctIds, Done, StableSort;
    SubmitPlaces(q, job);
    Inserted(q.pending, job, Position(q.pending, job));
  }

  lemma {:induction false} RemoveKeeps(s: seq<Spec>, k: nat)
    requires SortedByKey(s) && k < |s|
    ensures SortedByKey(Remove(s, k))
  {
    hide Before;
    var t := Remove(s, k);
    assert forall i | 0 <= i < |t| :: t[i] == s[if i < k then i else i + 1];
  }

  lemma {:induction false} TakeKeeps(q: Queue, k: nat)
    requires Inv(q) && k < |q.pending|
    ensures Inv(q.(pending := Remove(q.pending, k), running := q.running[q.pending[k].id := q.pending[k]]))
    ensures forall f: Finished | f.spec == q.pending[k] && Done(f.status) :: Inv(FromPending(q, k, f))
  {
    hide SortedByKey, Done, DistinctIds, Remove;
    RemoveKeeps(q.pending, k);
    Removed(q.pending, k);
  }

  /** Every operation keeps the invariant, given fresh ids. */
  lemma {:induction false} StepKeeps(q: Queue, op: Op)
    requires Inv(q) && (op.Submit? ==> !Known(q, op.job.id))
    ensures Inv(Next(q, op))
  {
    hide SortedByKey, DistinctIds, StableSort, Remove;
    match op
    case Submit(job) => SubmitKeepsIff(q, job);
    case GetNext(caps) =>
      var k := FirstSuitable(q.pending, caps);
      if k < |q.pending| { TakeKeeps(q, k); }
    case Complete(id, result) =>
    case Fail(id, error) =>
      var k := Find(q.pending, id);
      if k < |q.pending| { TakeKeeps(q, k); }
    case Cancel(id) =>
      var k := Find(q.pending, id);
      if k < |q.pending| { TakeKeeps(q, k); }
  }

  /** No job is lost, changed or invented, except that a submission adds its own. */
  lemma {:induction false} StepConserves(q: Queue, op: Op, job: Spec)
    requires Inv(q) && (op.Submit? ==> !Known(q, op.job.id))
    ensures Holds(Next(q, op), job) <==> Holds(q, job) || op == Submit(job)
  {
    hide SortedByKey, DistinctIds, Done, StableSort, Remove;
    match op
    case Submit(x) =>
      SubmitPlaces(q, x);
      Inserted(q.pending, x, Position(q.pending, x));
    case GetNext(caps) =>
      var k := FirstSuitable(q.pending, caps);
      if k < |q.pending| { Removed(q.pending, k); }
    case Complete(id, result) =>
    case Fail(id, error) =>
      var k := Find(q.pending, id);
      if k < |q.pending| { Removed(q.pending, k); }
    case Cancel(id) =>
      var k := Find(q.pending, id);
      if k < |q.pending| { Removed(q.pending, k); }
  }

  /** Finished jobs never move again, whatever happens to the others. */
  lemma {:induction false} FinishedStays(q: Queue, op: Op, id: string)
    requires Inv(q) && (op.Submit? ==> !Known(q, op.job.id)) && id in q.finished
    ensures id in Next(q, op).finished && Next(q, op).finished[id] == q.finished[id]
  {
    hide SortedByKey, StableSort;
    assert forall k | 0 <= k < |q.pending| :: q.pending[k] in q.pending;
  }

  /** A node is given the least of the jobs it can run, the first in the list among
      equals, and nothing only when it can run none. */
  lemma {:induction false} GetNextLeast(q: Queue, caps: Capabilities, i: nat)
    requires Inv(q) && i < |q.pending| && Suits(q.pending[i], caps)
    ensures var k := FirstSuitable(q.pending, caps);
      && k <= i && Suits(q.pending[k], caps) && !Before(q.pending[i], q.pending[k])
      && var taken := q.pending[k];
      && Next(q, GetNext(caps)).running == q.running[taken.id := taken]
      && taken !in Next(q, GetNext(caps)).pending
  {
    hide DistinctIds;
    Removed(q.pending, FirstSuitable(q.pending, caps));
  }

  // ---- every run -----------------------------------------------------------------------------------

  function Run(q: Queue, ops: seq<Op>): Queue
    decreases |ops|
  {
    if ops == [] then q else Run(Next(q, ops[0]), ops[1..])
  }

  ghost predicate FreshIds(q: Queue, ops: seq<Op>)
    decreases |ops|
  {
    ops == [] || ((ops[0].Submit? ==> !Known(q, ops[0].job.id)) && FreshIds(Next(q, ops[0]), ops[1..]))
  }

  /** In every run with fresh ids each submitted job, and no other, is in exactly one
      place, and what was finished stays as it was. */
  lemma {:induction false} RunKeeps(q: Queue, ops: seq<Op>, job: Spec, id: string)
    requires Inv(q) && FreshIds(q, ops)
    ensures Inv(Run(q, ops))
    ensures Holds(Run(q, ops), job) <==> Holds(q, job) || Submit(job) in ops
    ensures id in q.finished ==> id in Run(q, ops).finished && Run(q, ops).finished[id] == q.finished[id]
    decreases |ops|
  {
    hide Inv, Holds, Next, Known;
    if ops != [] {
      StepKeeps(q, ops[0]);
      StepConserves(q, ops[0], job);
      if id in q.finished { FinishedStays(q, ops[0], id); }
      RunKeeps(Next(q, ops[0]), ops[1..], job, id);
      assert ops == [ops[0]] + ops[1..];
    }
  }

  // ---- who comes first, by name --------------------------------------------------------------------

  /** The five levels, from critical down to background. */
  ghost predicate MoreUrgent(a: Priority, b: Priority) {
    match b
    case Critical => false
    case High => a == Critical
    case Normal => a == Critical || a == High
    case Low => a == Critical || a == High || a == Normal
    case Background => a != Background
  }

  /** The node has the memory asked for, an unknown amount counting as none, and CUDA if the
      job needs it. */
  ghost predicate AbleTo(job: Spec, caps: Capabilities) {
    && (caps.vramGb == None ==> job.minVramGb <= 0.0)
    && (caps.vramGb.Some? ==> job.minVramGb <= caps.vramGb.value)
    && (job.requiredCuda ==> caps.hasCuda == Some(true))
  }

  lemma {:induction false} SuitsIff(job: Spec, caps: Capabilities)
    ensures Suits(job, caps) <==> AbleTo(job, caps)
  {
  }

  /** The pending list is in order of urgency, and of creation within a level. */
  lemma {:induction false} PendingInOrder(q: Queue, i: nat, j: nat)
    requires Inv(q) && i < j < |q.pending|
    ensures !MoreUrgent(q.pending[j].priority, q.pending[i].priority)
    ensures q.pending[j].priority == q.pending[i].priority ==> q.pending[i].createdAt <= q.pending[j].createdAt
  {
    assert !Before(q.pending[j], q.pending[i]);
  }

  lemma {:induction false} TakesFirst(q: Queue, caps: Capabilities)
    requires Inv(q)
    ensures var q' := Next(q, GetNext(caps));
      var k := FirstSuitable(q.pending, caps);
      && (k == |q.pending| ==> q' == q && forall job | job in q.pending :: !AbleTo(job, caps))
      && (k < |q.pending| ==>
            var taken := q.pending[k];
            && AbleTo(taken, caps) && (forall i | 0 <= i < k :: !AbleTo(q.pending[i], caps))
            && q'.running == q.running[taken.id := taken] && taken !in q'.pending
            && forall job | job in q.pending && AbleTo(job, caps) ::
                 && !MoreUrgent(job.priority, taken.priority)
                 && (job.priority == taken.priority ==> taken.createdAt <= job.createdAt))
  {
    hide Suits, AbleTo, MoreUrgent, SortedByKey, DistinctIds;
    var k := FirstSuitable(q.pending, caps);
    forall i | 0 <= i < |q.pending| ensures Suits(q.pending[i], caps) <==> AbleTo(q.pending[i], caps) {
      SuitsIff(q.pending[i], caps);
    }
    if k < |q.pending| {
      GetNextLeast(q, caps, k);
      forall job | job in q.pending && AbleTo(job, caps)
        ensures !MoreUrgent(job.priority, q.pending[k].priority)
        ensures job.priority == q.pending[k].priority ==> q.pending[k].createdAt <= job.createdAt
      {
        var i :| 0 <= i < |q.pending| && q.pending[i] == job;
        if i > k { PendingInOrder(q, k, i); } else { assert i == k; NotOverItself(job); }
      }
    }
  }

  lemma {:induction false} NotOverItself(job: Spec)
    ensures !MoreUrgent(job.priority, job.priority)
  {
  }

  const EMPTY := Queue([], map[], map[])

  /** In every queue a run reaches, a node is given a job it is able to run, moved from
      pending to running, with no abler claim before it: none more urgent that the node can
      run, none of the same level created earlier, and the first in the list of its equals.
      Nothing is given, and nothing changes, only when it can run none. */
  lemma {:induction false} FirstAbleIsTaken(ops: seq<Op>, caps: Capabilities)
    requires FreshIds(EMPTY, ops)
    ensures var q := Run(EMPTY, ops);
      var q', k := Next(q, GetNext(caps)), FirstSuitable(q.pending, caps);
      && (k == |q.pending| ==> q' == q && forall job | job in q.pending :: !AbleTo(job, caps))
      && (k < |q.pending| ==>
            var taken := q.pending[k];
            && AbleTo(taken, caps) && (forall i | 0 <= i < k :: !AbleTo(q.pending[i], caps))
            && q'.running == q.running[taken.id := taken] && taken !in q'.pending
            && forall job | job in q.pending && AbleTo(job, caps) ::
                 && !MoreUrgent(job.priority, taken.priority)
                 && (job.priority == taken.priority ==> taken.createdAt <= job.createdAt))
  {
    assert Inv(EMPTY);
    RunKeeps(EMPTY, ops, Spec("", Low, 0, 0.0, false), "");
    hide Inv, Run, FreshIds, Next, FirstSuitable, AbleTo, MoreUrgent;
    TakesFirst(Run(EMPTY, ops), caps);
  }

  /** How jobs end: a running job by completion, with its result; a running or pending one by
      failure, with its error, or by cancellation. What is neither stays as it is. */
  lemma {:induction false} OutcomesExact(q: Queue, id: string, text: string)
    requires Inv(q)
    ensures var q' := Next(q, Complete(id, text));
      && (id in q.running ==> Ended(q, q', id, Completed, text))
      && (id !in q.running ==> q' == q)
    ensures var q' := Next(q, Fail(id, text));
      && (id in q.running || Listed(q.pending, id) ==> Ended(q, q', id, Failed, text))
      && (id !in q.running && !Listed(q.pending, id) ==> q' == q)
    ensures var q' := Next(q, Cancel(id));
      && (id in q.running || Listed(q.pending, id) ==> Ended(q, q', id, Cancelled, ""))
      && (id !in q.running && !Listed(q.pending, id) ==> q' == q)
  {
    hide SortedByKey, DistinctIds, Remove;
    var k := Find(q.pending, id);
    if k < |q.pending| {
      Removed(q.pending, k);
      assert q.pending[k] in q.pending;
    }
  }

  /** The job `id`, held unfinished before, is now finished so, and nowhere else. */
  ghost predicate Ended(q: Queue, q': Queue, id: string, status: Status, note: string) {
    && id in q'.finished && id !in q'.running && !Listed(q'.pending, id)
    && q'.finished[id].status == status && q'.finished[id].note == note
    && (q'.finished[id].spec in q.pending || (id in q.running && q.running[id] == q'.finished[id].spec))
    && (forall other | other != id :: other in q'.finished <==> other in q.finished)
  }

  // ---- the queue object --------------------------------------------------------------------------

  class JobSubmission {
    const spec: Spec
    var status: Status
    var note: string

    constructor (spec: Spec)
      ensures this.spec == spec && status == Pending && note == ""
    {
      this.spec := spec;
      status, note := Pending, "";
    }
  }

  function Specs(jobs: seq<JobSubmission>): (s: seq<Spec>)
    ensures |s| == |jobs| && forall i | 0 <= i < |jobs| :: s[i] == jobs[i].spec
  {
    seq(|jobs|, i requires 0 <= i < |jobs| => jobs[i].spec)
  }

  function InsertJob(jobs: seq<JobSubmission>, job: JobSubmission): seq<JobSubmission> {
    var k := Position(Specs(jobs), job.spec);
    jobs[..k] + [job] + jobs[k..]
  }

  /** The sort of the pending list, moving the jobs themselves. */
  function SortJobs(jobs: seq<JobSubmission>): seq<JobSubmission> {
    if jobs == [] then [] else InsertJob(SortJobs(jobs[..|jobs| - 1]), jobs[|jobs| - 1])
  }

  lemma {:induction false} InsertJobSpecs(jobs: seq<JobSubmission>, job: JobSubmission)
    ensures Specs(InsertJob(jobs, job)) == Insert(Specs(jobs), job.spec)
    ensures forall j | j in InsertJob(jobs, job) :: j in jobs || j == job
  {
    hide Position;
  }

  lemma {:induction false} SortJobsSpecs(jobs: seq<JobSubmission>)
    ensures Specs(SortJobs(jobs)) == StableSort(Specs(jobs))
    ensures forall j | j in SortJobs(jobs) :: j in jobs
  {
    hide Insert, InsertJob;
    if jobs != [] {
      var init, last := jobs[..|jobs| - 1], jobs[|jobs| - 1];
      SortJobsSpecs(init);
      InsertJobSpecs(SortJobs(init), last);
      assert Specs(jobs)[..|jobs| - 1] == Specs(init);
    }
  }

  lemma {:induction false} NextSubmit(q: Queue, job: Spec)
    ensures Next(q, Submit(job)) == q.(pending := StableSort(q.pending + [job]))
  {
  }

  lemma {:induction false} NextGet(q: Queue, caps: Capabilities)
    ensures var k := FirstSuitable(q.pending, caps);
      Next(q, GetNext(caps)) == if k == |q.pending| then q
        else q.(pending := Remove(q.pending, k), running := q.running[q.pending[k].id := q.pending[k]])
  {
  }

  lemma {:induction false} NextComplete(q: Queue, id: string, result: string)
    ensures Next(q, Complete(id, result)) ==
      if id !in q.running then q else FromRunning(q, id, Finished(q.running[id], Completed, result))
  {
  }

  lemma {:induction false} NextFail(q: Queue, id: string, error: string)
    ensures var k := Find(q.pending, id);
      Next(q, Fail(id, error)) ==
        if id in q.running then FromRunning(q, id, Finished(q.running[id], Failed, error))
        else if k < |q.pending| then FromPending(q, k, Finished(q.pending[k], Failed, error))
        else q
  {
  }

  lemma {:induction false} NextCancel(q: Queue, id: string)
    ensures var k := Find(q.pending, id);
      Next(q, Cancel(id)) ==
        if k < |q.pending| then FromPending(q, k, Finished(q.pending[k], Cancelled, ""))
        else if id in q.running then FromRunning(q, id, Finished(q.running[id], Cancelled, ""))
        else q
  {
  }

  class JobQueue {
    var pending: seq<JobSubmission>
    var running: map<string, JobSubmission>
    var completed: map<string, JobSubmission>

    ghost function RunningSpecs(): map<string, Spec>
      reads this`running
    {
      map id | id in running :: running[id].spec
    }

    ghost function Outcomes(): map<string, Finished>
      reads this`completed, completed.Values
    {
      map id | id in completed :: Finished(completed[id].spec, completed[id].status, completed[id].note)
    }

    ghost function Abs(): Queue
      reads this, completed.Values
    {
      Queue(Specs(pending), RunningSpecs(), Outcomes())
    }

    ghost predicate StatusesFit()
      reads this, pending, running.Values
    {
      && (forall j | j in pending :: j.status == Pending)
      && (forall id | id in running :: running[id].status == Running)
    }

    /** Statuses match places, and each job is in exactly one place. */
    ghost predicate Valid()
      reads this, pending, running.Values, completed.Values
    {
      StatusesFit() && Inv(Abs())
    }

    constructor ()
      ensures Valid() && Abs() == Queue([], map[], map[])
    {
      pending, running, completed := [], map[], map[];
    }

    lemma {:induction false} Separate()
      requires Valid()
      ensures forall i, j | 0 <= i < j < |pending| :: pending[i] != pending[j]
      ensures forall i, id | 0 <= i < |pending| && id in running :: pending[i] != running[id]
      ensures forall i, id | 0 <= i < |pending| && id in completed :: pending[i] != completed[id]
      ensures forall id, d | id in running && d in completed :: running[id] != completed[d]
      ensures forall id, d | id in running && d in running && id != d :: running[id] != running[d]
    {
      hide SortedByKey, Done;
      var q := Abs();
      forall i | 0 <= i < |pending| ensures q.pending[i] == pending[i].spec && q.pending[i] in q.pending { }
      forall id | id in running ensures id in q.running && q.running[id] == running[id].spec && id !in q.finished { }
      forall id | id in completed ensures id in q.finished && q.finished[id].spec == completed[id].spec { }
    }

    method Submit(job: JobSubmission)
      requires Valid() && job.status == Pending && !Known(Abs(), job.spec.id)
      modifies this
      ensures Valid() && Abs() == Next(old(Abs()), Op.Submit(job.spec))
    {
      hide Next, Inv, StableSort, SortJobs, Known, RunningSpecs, Outcomes;
      ghost var q := Abs();
      SubmitKeepsIff(q, job.spec);
      NextSubmit(q, job.spec);
      SortJobsSpecs(pending + [job]);
      assert Specs(pending + [job]) == q.pending + [job.spec];
      pending := SortJobs(pending + [job]);
    }

    /** Takes the job at `k` off the pending list. */
    method Take(k: nat) returns (job: JobSubmission)
      requires k < |pending| && forall i, j | 0 <= i < j < |pending| :: pending[i] != pending[j]
      modifies this`pending
      ensures job == old(pending)[k] && job !in pending && pending == Remove(old(pending), k)
      ensures Specs(pending) == Remove(old(Specs(pending)), k)
      ensures forall j | j in pending :: j in old(pending)
    {
      job := pending[k];
      pending := Remove(pending, k);
    }

    method MarkRunning(job: JobSubmission)
      modifies this`running, job`status
      ensures job.status == Running && running == old(running)[job.spec.id := job]
      ensures RunningSpecs() == old(RunningSpecs())[job.spec.id := job.spec]
    {
      job.status := Running;
      running := running[job.spec.id := job];
    }

    method GetNext(caps: Capabilities) returns (next: Option<JobSubmission>)
      requires Valid()
      modifies this, pending
      ensures Valid() && Abs() == Next(old(Abs()), Op.GetNext(caps))
      ensures var k := FirstSuitable(old(Abs()).pending, caps);
        next == if k < |old(pending)| then Some(old(pending)[k]) else None
    {
      hide Next, Inv, RunningSpecs, Outcomes, Remove;
      ghost var q := Abs();
      StepKeeps(q, Op.GetNext(caps));
      Separate();
      NextGet(q, caps);
      var vram := if caps.vramGb.Some? then caps.vramGb.value else 0.0;
      var cuda := caps.hasCuda.Some? && caps.hasCuda.value;
      var i := 0;
      while i < |pending| && (pending[i].spec.minVramGb > vram || (pending[i].spec.requiredCuda && !cuda))
        invariant i <= |pending| && pending == old(pending)
        invariant forall k | 0 <= k < i :: !Suits(pending[k].spec, caps)
      {
        i := i + 1;
      }
      if i == |pending| { return None; }
      var job := Take(i);
      MarkRunning(job);
      return Some(job);
    }

    method FindPending(id: string) returns (k: nat)
      ensures k == Find(Specs(pending), id) <= |pending|
    {
      k := 0;
      while k < |pending| && pending[k].spec.id != id
        invariant k <= |pending| && forall i | 0 <= i < k :: pending[i].spec.id != id
      {
        k := k + 1;
      }
    }

    method Release(id: string) returns (job: JobSubmission)
      requires id in running
      modifies this`running
      ensures job == old(running)[id] && running == old(running) - {id}
      ensures RunningSpecs() == old(RunningSpecs()) - {id}
    {
      job := running[id];
      running := running - {id};
    }

    method Finish(job: JobSubmission, status: Status, note: string)
      requires job !in completed.Values
      modifies this`completed, job
      ensures completed == old(completed)[job.spec.id := job]
      ensures Outcomes() == old(Outcomes())[job.spec.id := Finished(job.spec, status, note)]
    {
      job.status, job.note := status, note;
      completed := completed[job.spec.id := job];
    }

    method FinishRunning(id: string, status: Status, note: string)
      requires Valid() && id in running
      modifies this, running.Values
      ensures StatusesFit()
      ensures Abs() == FromRunning(old(Abs()), id, Finished(old(Abs()).running[id], status, note))
    {
      Separate();
      Holding(id);
      hide Inv, RunningSpecs, Outcomes;
      var job := Release(id);
      Finish(job, status, note);
    }

    method FinishPending(k: nat, status: Status, note: string)
      requires Valid() && k < |pending|
      modifies this, pending
      ensures StatusesFit()
      ensures Abs() == FromPending(old(Abs()), k, Finished(old(Abs()).pending[k], status, note))
    {
      Separate();
      Holding("");
      hide Inv, RunningSpecs, Outcomes, Remove;
      var job := Take(k);
      Finish(job, status, note);
    }

    method Complete(id: string, result: string)
      requires Valid()
      modifies this, running.Values
      ensures Valid() && Abs() == Next(old(Abs()), Op.Complete(id, result))
    {
      hide Next, Inv, RunningSpecs, Outcomes;
      StepKeeps(Abs(), Op.Complete(id, result));
      Holding(id);
      NextComplete(Abs(), id, result);
      if id in running { FinishRunning(id, Status.Completed, result); }
    }

    method Fail(id: string, error: string)
      requires Valid()
      modifies this, pending, running.Values
      ensures Valid() && Abs() == Next(old(Abs()), Op.Fail(id, error))
    {
      hide Next, Inv, RunningSpecs, Outcomes, FromRunning, FromPending;
      StepKeeps(Abs(), Op.Fail(id, error));
      Holding(id);
      NextFail(Abs(), id, error);
      if id in running {
        FinishRunning(id, Status.Failed, error);
        return;
      }
      var k := FindPending(id);
      if k < |pending| { FinishPending(k, Status.Failed, error); }
    }

    method Cancel(id: string) returns (found: bool)
      requires Valid()
      modifies this, pending, running.Values
      ensures Valid() && Abs() == Next(old(Abs()), Op.Cancel(id))
      ensures found == (Listed(old(Abs()).pending, id) || id in old(running))
    {
      hide Next, Inv, RunningSpecs, Outcomes, FromRunning, FromPending;
      StepKeeps(Abs(), Op.Cancel(id));
      Holding(id);
      NextCancel(Abs(), id);
      var k := FindPending(id);
      if k < |pending| {
        assert Abs().pending[k] in Abs().pending;
        FinishPending(k, Status.Cancelled, "");
        return true;
      }
      if id in running {
        FinishRunning(id, Status.Cancelled, "");
        return true;
      }
      return false;
    }

    lemma {:induction false} Holding(id: string)
      requires Valid()
      ensures id in running <==> id in RunningSpecs()
      ensures id in running ==> RunningSpecs()[id] == running[id].spec && running[id].spec.id == id
      ensures forall d | d in running :: running[d] !in completed.Values
      ensures forall i | 0 <= i < |pending| :: pending[i] !in completed.Values
    {
      Separate();
      assert id in running ==> Abs().running[id].id == id;
    }
  }
}
