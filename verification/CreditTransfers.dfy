/** Credit transfers: the hourly velocity limit with its pruned lists, and the pending and
    history records of one transfer. Clock readings, ids, balances and the outcome of the
    database write are arguments. */
module CreditTransfers {
  import opened Options

  const MIN_AMOUNT := 1.0
  const MAX_AMOUNT := 10000.0
  const MAX_PER_HOUR := 10
  const HOUR := 3600.0

  datatype Transfer = Transfer(id: string, from: string, to: string, amount: real, reason: string, timestamp: real)

  datatype Books = Books(counts: map<string, seq<real>>, pending: map<string, Transfer>, history: seq<Transfer>)

  datatype Error =
    | ToYourself | TooSmall | TooLarge | Insufficient | TooMany
    | NoDatabase | Rejected(text: string) | PersistFailed

  datatype Result<T> = Ok(value: T) | Err(error: Error)

  /** What a transfer asks for. */
  datatype Order = Order(from: string, to: string, amount: real, reason: string)

  /** How the database write ended. */
  datatype Outcome = Written | Refused(text: string) | Crashed

  // ---- validation --------------------------------------------------------------------------

  function Recent(stamps: seq<real>, after: real): seq<real> {
    if stamps == [] then []
    else
      var last := |stamps| - 1;
      Recent(stamps[..last], after) + if stamps[last] > after then [stamps[last]] else []
  }

  function Stamps(b: Books, node: string): seq<real> {
    if node in b.counts then b.counts[node] else []
  }

  function Pruned(b: Books, node: string, now: real): Books {
    b.(counts := b.counts[node := Recent(Stamps(b, node), now - HOUR)])
  }

  /** A balance of `None` stands for an infinite one. */
  function Problem(o: Order, balance: Option<real>): Option<Error> {
    if o.from == o.to then Some(ToYourself)
    else if o.amount < MIN_AMOUNT then Some(TooSmall)
    else if o.amount > MAX_AMOUNT then Some(TooLarge)
    else if balance.Some? && balance.value < o.amount then Some(Insufficient)
    else None
  }

  /** Validation prunes the sender's list, but only when nothing else is wrong. */
  function Validate(b: Books, o: Order, balance: Option<real>, now: real): (Books, Option<Error>) {
    var problem := Problem(o, balance);
    if problem.Some? then (b, problem)
    else
      var b' := Pruned(b, o.from, now);
      (b', if |b'.counts[o.from]| < MAX_PER_HOUR then None else Some(TooMany))
  }

  function Reason(reason: string): string {
    if reason == "" then "Team pooling" else reason
  }

  /** Validates at `now`, and records the transfer under the reading `later`. */
  function Create(b: Books, o: Order, balance: Option<real>, id: string, now: real, stamp: real,
      later: real): (Books, Result<Transfer>)
  {
    var (b', problem) := Validate(b, o, balance, now);
    if problem.Some? then (b', Err(problem.value))
    else
      var x := Transfer(id, o.from, o.to, o.amount, Reason(o.reason), stamp);
      (Books(b'.counts[o.from := b'.counts[o.from] + [later]], b'.pending[id := x], b'.history + [x]), Ok(x))
  }

  function RemoveFirst(h: seq<Transfer>, x: Transfer): seq<Transfer> {
    if h == [] then []
    else if h[0] == x then h[1..]
    else [h[0]] + RemoveFirst(h[1..], x)
  }

  function RolledBack(b: Books, x: Transfer): Books {
    b.(pending := b.pending - {x.id}, history := RemoveFirst(b.history, x))
  }

  /** The readings of the clock that one transfer makes. */
  datatype Readings = Readings(first: real, second: real, stamp: real, last: real)

  function CreateFor(b: Books, o: Order, credits: Option<real>, id: string, t: Readings): (Books, Result<Transfer>) {
    var balance := if credits.Some? then credits.value else 0.0;
    Create(b, o, Some(balance), id, t.second, t.stamp, t.last)
  }

  function TransferSync(b: Books, o: Order, database: bool, credits: Option<real>, outcome: Outcome, id: string,
      t: Readings): (Books, Result<Transfer>)
  {
    if !database then (b, Err(NoDatabase))
    else
      var (b1, problem) := Validate(b, o, None, t.first);
      var balance := if credits.Some? then credits.value else 0.0;
      if problem.Some? then (b1, Err(problem.value))
      else if balance < o.amount then (b1, Err(Insufficient))
      else
        var (b2, created) := CreateFor(b1, o, credits, id, t);
        if created.Err? then (b2, created)
        else match outcome
          case Written => (b2.(pending := b2.pending - {id}), created)
          case Refused(text) => (RolledBack(b2, created.value), Err(Rejected(text)))
          case Crashed => (RolledBack(b2, created.value), Err(PersistFailed))
  }

  // ---- one transfer ------------------------------------------------------------------------------

  lemma {:induction false} RecentShrinks(stamps: seq<real>, after: real, later: real)
    requires after <= later
    ensures |Recent(stamps, later)| <= |Recent(stamps, after)| <= |stamps|
    ensures Recent(Recent(stamps, after), later) == Recent(stamps, later)
  {
    if stamps != [] {
      var last := |stamps| - 1;
      RecentShrinks(stamps[..last], after, later);
      var r := Recent(stamps[..last], after);
      if stamps[last] > after {
        var grown := r + [stamps[last]];
        assert grown[..|grown| - 1] == r && grown[|r|] == stamps[last];
      } else {
        assert r + [] == r;
      }
    }
  }

  lemma {:induction false} RemoveLast(h: seq<Transfer>, x: Transfer)
    requires x !in h
    ensures RemoveFirst(h + [x], x) == h
  {
    if h == [] {
      assert ([] + [x])[1..] == [];
    } else {
      assert (h + [x])[1..] == h[1..] + [x];
      RemoveLast(h[1..], x);
    }
  }

  lemma {:induction false} RemoveSome(h: seq<Transfer>, x: Transfer)
    requires x in h
    ensures multiset(RemoveFirst(h, x)) == multiset(h) - multiset{x}
  {
    assert h == [h[0]] + h[1..];
    if h[0] != x { RemoveSome(h[1..], x); }
  }

  /** Whether a transfer passes every check before the database write. */
  ghost predicate Passes(b: Books, o: Order, database: bool, credits: Option<real>, t: Readings) {
    && database && o.from != o.to && 1.0 <= o.amount <= 10000.0
    && credits.Some? && credits.value >= o.amount
    && |Recent(Stamps(b, o.from), t.first - 3600.0)| < 10
  }

  /** The second validation cannot fail once the first has passed. */
  lemma {:induction false} SecondCheckPasses(b: Books, o: Order, credits: Option<real>, id: string, t: Readings)
    requires Passes(b, o, true, credits, t) && t.first <= t.second
    ensures var b1 := Pruned(b, o.from, t.first);
      var x := Transfer(id, o.from, o.to, o.amount, Reason(o.reason), t.stamp);
      CreateFor(b1, o, credits, id, t)
        == (Books(b.counts[o.from := Recent(Stamps(b, o.from), t.second - HOUR) + [t.last]],
                  b.pending[id := x], b.history + [x]),
            Ok(x))
  {
    RecentShrinks(Stamps(b, o.from), t.first - HOUR, t.second - HOUR);
    hide Recent;
    var first, second := Recent(Stamps(b, o.from), t.first - HOUR), Recent(Stamps(b, o.from), t.second - HOUR);
    assert b.counts[o.from := first][o.from := second][o.from := second + [t.last]]
      == b.counts[o.from := second + [t.last]];
  }

  /** A transfer succeeds exactly when it passes and the database takes it. */
  lemma {:induction false} SucceedsIff(b: Books, o: Order, database: bool, credits: Option<real>, outcome: Outcome,
      id: string, t: Readings)
    requires t.first <= t.second
    ensures TransferSync(b, o, database, credits, outcome, id, t).1.Ok? <==>
      Passes(b, o, database, credits, t) && outcome == Written
  {
    if Passes(b, o, database, credits, t) { SecondCheckPasses(b, o, credits, id, t); }
  }

  /** The transfer that a call records. */
  function Recording(o: Order, id: string, t: Readings): Transfer {
    Transfer(id, o.from, o.to, o.amount, Reason(o.reason), t.stamp)
  }

  /** What a call does to the records. The history grows by exactly this transfer when it
      succeeds, and otherwise loses no record and keeps its order unless an equal one was
      there before. The pending map ends as it was exactly when the call was refused before
      the write or the id was not pending already; else that record goes. */
  lemma {:induction false} RecordsAfter(b: Books, o: Order, database: bool, credits: Option<real>, outcome: Outcome,
                                        id: string, t: Readings)
    requires t.first <= t.second
    ensures var (b', result) := TransferSync(b, o, database, credits, outcome, id, t);
      && (result.Ok? ==> result.value == Recording(o, id, t) && b'.history == b.history + [result.value])
      && (result.Err? ==> multiset(b'.history) == multiset(b.history))
      && (result.Err? && Recording(o, id, t) !in b.history ==> b'.history == b.history)
      && b'.pending == (if Passes(b, o, database, credits, t) then b.pending - {id} else b.pending)
      && (b'.pending == b.pending <==> !Passes(b, o, database, credits, t) || id !in b.pending)
  {
    var x := Recording(o, id, t);
    hide Recent, RemoveFirst, CreateFor, Recording, Passes, TransferSync;
    assert b.pending - {id} == b.pending <==> id !in b.pending;
    if Passes(b, o, database, credits, t) {
      Passing(b, o, database, credits, outcome, id, t);
      Regained(b.history, x);
    } else {
      NotPassing(b, o, database, credits, outcome, id, t);
    }
  }

  lemma {:induction false} Regained(h: seq<Transfer>, x: Transfer)
    ensures multiset(RemoveFirst(h + [x], x)) == multiset(h)
    ensures x !in h ==> RemoveFirst(h + [x], x) == h
  {
    var grown := h + [x];
    assert grown[|grown| - 1] == x;
    RemoveSome(grown, x);
    if x !in h { RemoveLast(h, x); }
  }

  lemma {:induction false} Passing(b: Books, o: Order, database: bool, credits: Option<real>, outcome: Outcome,
                                   id: string, t: Readings)
    requires t.first <= t.second && Passes(b, o, database, credits, t)
    ensures var (b', result) := TransferSync(b, o, database, credits, outcome, id, t);
      var x := Recording(o, id, t);
      && b'.pending == b.pending - {id}
      && (if outcome == Written then result == Ok(x) && b'.history == b.history + [x]
          else result.Err? && b'.history == RemoveFirst(b.history + [x], x))
      && b'.counts == b.counts[o.from := Recent(Stamps(b, o.from), t.second - HOUR) + [t.last]]
  {
    hide Recent, RemoveFirst, CreateFor;
    SecondCheckPasses(b, o, credits, id, t);
    assert b.pending[id := Recording(o, id, t)] - {id} == b.pending - {id};
  }

  /** The sender's list after a call that does not pass: pruned when the order itself was
      in order, and as it was otherwise. */
  function PrunedOnly(b: Books, o: Order, database: bool, t: Readings): seq<real> {
    if database && Problem(o, None) == None then Recent(Stamps(b, o.from), t.first - HOUR) else Stamps(b, o.from)
  }

  lemma {:induction false} NotPassing(b: Books, o: Order, database: bool, credits: Option<real>, outcome: Outcome,
                                      id: string, t: Readings)
    requires t.first <= t.second && !Passes(b, o, database, credits, t)
    ensures var (b', result) := TransferSync(b, o, database, credits, outcome, id, t);
      && result.Err? && b'.pending == b.pending && b'.history == b.history
      && Stamps(b', o.from) == PrunedOnly(b, o, database, t)
      && forall n | n != o.from :: Stamps(b', n) == Stamps(b, n)
  {
    hide Recent, CreateFor;
  }

  /** What a call does to the hourly lists: the sender's gets a slot exactly when the call
      passes, whatever becomes of the write, and nobody else's is touched. */
  lemma {:induction false} SlotsAfter(b: Books, o: Order, database: bool, credits: Option<real>, outcome: Outcome,
                                      id: string, t: Readings)
    requires t.first <= t.second
    ensures var (b', result) := TransferSync(b, o, database, credits, outcome, id, t);
      var kept := Recent(Stamps(b, o.from), t.second - HOUR);
      && Stamps(b', o.from)
           == (if Passes(b, o, database, credits, t) then kept + [t.last] else PrunedOnly(b, o, database, t))
      && (forall n | n != o.from :: Stamps(b', n) == Stamps(b, n))
  {
    hide Recent, RemoveFirst, CreateFor, Passes, TransferSync;
    if Passes(b, o, database, credits, t) {
      Passing(b, o, database, credits, outcome, id, t);
    } else {
      NotPassing(b, o, database, credits, outcome, id, t);
    }
  }

  lemma {:induction false} FirstRecorded(o: Order, credits: real, id: string, now: real)
    requires Problem(o, Some(credits)) == None
    ensures var x := Transfer(id, o.from, o.to, o.amount, Reason(o.reason), now);
      Create(Books(map[], map[], []), o, Some(credits), id, now, now, now)
        == (Books(map[o.from := [now]], map[id := x], [x]), Ok(x))
  {
    assert Recent([], now - HOUR) == [];
    var counts: map<string, seq<real>> := map[];
    assert [] + [now] == [now];
    assert counts[o.from := []][o.from := [now]] == map[o.from := [now]];
    assert [] + [Transfer(id, o.from, o.to, o.amount, Reason(o.reason), now)]
      == [Transfer(id, o.from, o.to, o.amount, Reason(o.reason), now)];
  }

  /** A transfer recorded and pending is gone from the pending map, unconfirmed, once another
      between the same two nodes passes under the same id. */
  lemma {:induction false} CollisionDrops(o: Order, later: Order, credits: real, id: string, now: real, t: Readings)
    requires Problem(o, Some(credits)) == None && Problem(later, Some(credits)) == None
    requires later.from == o.from && later.to == o.to && t.first <= t.second
    ensures var (b, created) := Create(Books(map[], map[], []), o, Some(credits), id, now, now, now);
      && created.Ok? && b.pending == map[id := created.value] && b.history == [created.value]
      && var (b', done) := TransferSync(b, later, true, Some(credits), Written, id, t);
      && done.Ok? && b'.pending == map[] && b'.history == [created.value, done.value]
  {
    var (b, created) := Create(Books(map[], map[], []), o, Some(credits), id, now, now, now);
    hide Recent, TransferSync, Create, Reason, Recording;
    FirstRecorded(o, credits, id, now);
    RecentShrinks([now], t.first - HOUR, t.first - HOUR);
    assert Passes(b, later, true, Some(credits), t);
    hide Passes, Problem;
    RecordsAfter(b, later, true, Some(credits), Written, id, t);
    SucceedsIff(b, later, true, Some(credits), Written, id, t);
  }

  // ---- refused writes use up the hour ---------------------------------------------------------------

  const AT_ZERO := Readings(0.0, 0.0, 0.0, 0.0)

  /** `n` transfers in a row that pass and whose write is refused, all at time 0. */
  function AfterRefusals(o: Order, credits: real, n: nat): Books {
    if n == 0 then Books(map[], map[], [])
    else TransferSync(AfterRefusals(o, credits, n - 1), o, true, Some(credits), Refused("no"), "id", AT_ZERO).0
  }

  function Slots(n: nat): seq<real> {
    if n == 0 then [] else Slots(n - 1) + [0.0]
  }

  lemma {:induction false} SlotsRecent(n: nat, after: real)
    requires after < 0.0
    ensures |Slots(n)| == n && Recent(Slots(n), after) == Slots(n)
  {
    if n > 0 { SlotsRecent(n - 1, after); }
  }

  lemma {:induction false} OneRefusal(b: Books, o: Order, credits: real, n: nat)
    requires Problem(o, Some(credits)) == None && n < MAX_PER_HOUR
    requires Stamps(b, o.from) == Slots(n) && b.history == [] && b.pending == map[]
    ensures var b' := TransferSync(b, o, true, Some(credits), Refused("no"), "id", AT_ZERO).0;
      Stamps(b', o.from) == Slots(n + 1) && b'.history == [] && b'.pending == map[]
  {
    SlotsRecent(n, -HOUR);
    assert Passes(b, o, true, Some(credits), AT_ZERO);
    hide Recent, TransferSync, Passes, RemoveFirst;
    Passing(b, o, true, Some(credits), Refused("no"), "id", AT_ZERO);
    Regained([], Recording(o, "id", AT_ZERO));
  }

  lemma {:induction false} RefusalsFill(o: Order, credits: real, n: nat)
    requires Problem(o, Some(credits)) == None && n <= MAX_PER_HOUR
    ensures var b := AfterRefusals(o, credits, n);
      Stamps(b, o.from) == Slots(n) && b.history == [] && b.pending == map[]
  {
    hide TransferSync, Problem;
    if n > 0 {
      RefusalsFill(o, credits, n - 1);
      OneRefusal(AfterRefusals(o, credits, n - 1), o, credits, n - 1);
    }
  }

  lemma {:induction false} HourFull(b: Books, o: Order, credits: real, outcome: Outcome, id: string, t: Readings)
    requires Problem(o, Some(credits)) == None && |Recent(Stamps(b, o.from), t.first - HOUR)| >= MAX_PER_HOUR
    ensures TransferSync(b, o, true, Some(credits), outcome, id, t).1 == Err(TooMany)
  {
    hide Recent;
  }

  /** Ten refused writes leave no transfer behind, and still the sender's next one within
      the hour is turned down, although with empty books it would go through. */
  lemma {:induction false} RefusalsUseTheHour(o: Order, credits: real, id: string, t: Readings)
    requires Problem(o, Some(credits)) == None && 0.0 <= t.first < HOUR && t.first <= t.second
    ensures var b := AfterRefusals(o, credits, MAX_PER_HOUR);
      && b.history == [] && b.pending == map[]
      && TransferSync(b, o, true, Some(credits), Written, id, t).1 == Err(TooMany)
      && TransferSync(Books(map[], map[], []), o, true, Some(credits), Written, id, t).1.Ok?
  {
    var b := AfterRefusals(o, credits, MAX_PER_HOUR);
    SlotsRecent(MAX_PER_HOUR, t.first - HOUR);
    assert Passes(Books(map[], map[], []), o, true, Some(credits), t);
    hide AfterRefusals, TransferSync, Recent, Slots;
    RefusalsFill(o, credits, MAX_PER_HOUR);
    HourFull(b, o, credits, Written, id, t);
    SucceedsIff(Books(map[], map[], []), o, true, Some(credits), Written, id, t);
  }

  // ---- runs ------------------------------------------------------------------------------------------

  datatype Op =
    | Validation(order: Order, balance: Option<real>, at: real)
    | Creation(order: Order, balance: Option<real>, id: string, at: real, stamp: real, last: real)
    | Transferring(order: Order, database: bool, credits: Option<real>, outcome: Outcome, id: string, t: Readings)
    | Confirmation(id: string)

  function Next(b: Books, op: Op): Books {
    match op
    case Validation(o, balance, at) => Validate(b, o, balance, at).0
    case Creation(o, balance, id, at, stamp, last) => Create(b, o, balance, id, at, stamp, last).0
    case Transferring(o, database, credits, outcome, id, t) => TransferSync(b, o, database, credits, outcome, id, t).0
    case Confirmation(id) => b.(pending := b.pending - {id})
  }

  /** The reading under which the operation records a transfer by `node`, if it does;
      a transfer that is rolled back later counts too. */
  function Recorded(b: Books, op: Op, node: string): seq<real> {
    match op
    case Validation(_, _, _) => []
    case Creation(o, balance, id, at, stamp, last) =>
      if Create(b, o, balance, id, at, stamp, last).1.Ok? && o.from == node then [last] else []
    case Transferring(o, database, credits, outcome, id, t) =>
      if database && Validate(b, o, None, t.first).1.None?
         && (if credits.Some? then credits.value else 0.0) >= o.amount
         && CreateFor(Validate(b, o, None, t.first).0, o, credits, id, t).1.Ok? && o.from == node
      then [t.last] else []
    case Confirmation(_) => []
  }

  /** A transfer call spends a slot exactly when it passes, and spends it without a
      transfer exactly when, besides, the write does not go through. */
  lemma {:induction false} SlotSpentIff(b: Books, op: Op)
    requires op.Transferring? && op.t.first <= op.t.second
    ensures var passes := Passes(b, op.order, op.database, op.credits, op.t);
      var result := TransferSync(b, op.order, op.database, op.credits, op.outcome, op.id, op.t).1;
      && Recorded(b, op, op.order.from) == (if passes then [op.t.last] else [])
      && (Recorded(b, op, op.order.from) != [] && result.Err? <==> passes && op.outcome != Written)
  {
    hide Recent;
    SucceedsIff(b, op.order, op.database, op.credits, op.outcome, op.id, op.t);
    if Passes(b, op.order, op.database, op.credits, op.t) {
      SecondCheckPasses(b, op.order, op.credits, op.id, op.t);
    }
  }

  /** The readings of an operation follow `clock` and one another; the last is returned. */
  ghost predicate Timely(op: Op, clock: real, end: real) {
    match op
    case Validation(_, _, at) => clock <= at <= end
    case Creation(_, _, _, at, _, last) => clock <= at <= last <= end
    case Transferring(_, _, _, _, _, t) => clock <= t.first <= t.second <= t.last <= end
    case Confirmation(_) => clock <= end
  }

  /** `h` lists every reading under which `node` recorded a transfer up to `clock`. */
  ghost predicate Inv(b: Books, node: string, h: seq<real>, clock: real) {
    && (forall i, j | 0 <= i < j < |h| :: h[i] <= h[j])
    && (forall i | 0 <= i < |h| :: h[i] <= clock)
    && (forall i | 0 <= i < |h| - MAX_PER_HOUR :: h[i + MAX_PER_HOUR] - h[i] >= HOUR)
    && exists k: nat :: Kept(b, node, h, clock, k)
  }

  /** The list kept is what remains of `h` after dropping the first `k`, all too old. */
  ghost predicate Kept(b: Books, node: string, h: seq<real>, clock: real, k: nat) {
    && k <= |h| && Stamps(b, node) == h[k..]
    && forall i | 0 <= i < k :: h[i] <= clock - HOUR
  }

  lemma {:induction false} RecentIsSuffix(s: seq<real>, after: real) returns (k: nat)
    requires forall i, j | 0 <= i < j < |s| :: s[i] <= s[j]
    ensures k <= |s| && Recent(s, after) == s[k..]
    ensures forall i | 0 <= i < k :: s[i] <= after
  {
    if s == [] {
      k := 0;
    } else {
      var last := |s| - 1;
      k := RecentIsSuffix(s[..last], after);
      if s[last] > after {
        assert s[k..] == s[..last][k..] + [s[last]];
      } else {
        forall i | 0 <= i < last ensures s[i] <= after { assert s[i] <= s[last]; }
        AllOld(s[..last], after);
        k := |s|;
      }
    }
  }

  lemma {:induction false} AllOld(s: seq<real>, after: real)
    requires forall i | 0 <= i < |s| :: s[i] <= after
    ensures Recent(s, after) == []
  {
    if s != [] { AllOld(s[..|s| - 1], after); }
  }

  /** Pruning at `now` keeps the invariant. */
  lemma {:induction false} PruneKeeps(b: Books, node: string, h: seq<real>, clock: real, now: real)
    requires Inv(b, node, h, clock) && clock <= now
    ensures Inv(Pruned(b, node, now), node, h, now)
    ensures exists k: nat :: Kept(Pruned(b, node, now), node, h, now, k)
  {
    var k: nat :| Kept(b, node, h, clock, k);
    var k' := RecentIsSuffix(h[k..], now - HOUR);
    hide Recent;
    forall i | 0 <= i < k + k' ensures h[i] <= now - HOUR {
      if i >= k { assert h[i] == h[k..][i - k]; }
    }
    assert h[k..][k'..] == h[k + k'..];
    assert Kept(Pruned(b, node, now), node, h, now, k + k');
  }

  /** What a validation or a creation does to a node's list. */
  ghost predicate SameList(b: Books, b': Books, node: string) {
    Stamps(b, node) == Stamps(b', node)
  }

  lemma {:induction false} Untouched(b: Books, b': Books, node: string, h: seq<real>, clock: real, end: real)
    requires Inv(b, node, h, clock) && SameList(b, b', node) && clock <= end
    ensures Inv(b', node, h, end)
  {
    var k: nat :| Kept(b, node, h, clock, k);
    assert Kept(b', node, h, end, k);
  }

  /** Recording after a check that found room keeps the spacing. */
  lemma {:induction false} RecordKeeps(b: Books, b': Books, node: string, h: seq<real>, now: real, later: real)
    requires Inv(b, node, h, now) && now <= later && |Stamps(b, node)| < MAX_PER_HOUR
    requires Stamps(b', node) == Stamps(b, node) + [later]
    ensures Inv(b', node, h + [later], later)
  {
    var k: nat :| Kept(b, node, h, now, k);
    var h' := h + [later];
    assert h'[k..] == h[k..] + [later];
    assert Kept(b', node, h', later, k);
  }

  lemma {:induction false} ValidateKeeps(b: Books, o: Order, balance: Option<real>, node: string, h: seq<real>,
      clock: real, now: real)
    requires Inv(b, node, h, clock) && clock <= now
    ensures var (b', problem) := Validate(b, o, balance, now);
      && Inv(b', node, h, now)
      && (problem.None? && node == o.from ==> |Stamps(b', node)| < MAX_PER_HOUR)
  {
    hide Inv;
    if Problem(o, balance).None? && node == o.from {
      PruneKeeps(b, node, h, clock, now);
    } else {
      Untouched(b, Validate(b, o, balance, now).0, node, h, clock, now);
    }
  }

  lemma {:induction false} CreateKeeps(b: Books, o: Order, balance: Option<real>, id: string, node: string,
      h: seq<real>, clock: real, now: real, stamp: real, later: real)
    requires Inv(b, node, h, clock) && clock <= now <= later
    ensures var (b', result) := Create(b, o, balance, id, now, stamp, later);
      Inv(b', node, h + (if result.Ok? && o.from == node then [later] else []), later)
  {
    hide Inv;
    ValidateKeeps(b, o, balance, node, h, clock, now);
    var (b1, problem) := Validate(b, o, balance, now);
    var (b', result) := Create(b, o, balance, id, now, stamp, later);
    if problem.None? && node == o.from {
      RecordKeeps(b1, b', node, h, now, later);
    } else {
      Untouched(b1, b', node, h, now, later);
      assert h + [] == h;
    }
  }

  lemma {:induction false} TransferKeeps(b: Books, op: Op, node: string, h: seq<real>, clock: real, end: real)
    requires op.Transferring? && Inv(b, node, h, clock) && Timely(op, clock, end)
    ensures Inv(Next(b, op), node, h + Recorded(b, op, node), end)
  {
    hide Inv, Create, Validate;
    var t := op.t;
    assert h + [] == h;
    if !op.database {
      Untouched(b, b, node, h, clock, end);
    } else {
      ValidateKeeps(b, op.order, None, node, h, clock, t.first);
      var (b1, problem) := Validate(b, op.order, None, t.first);
      var balance := if op.credits.Some? then op.credits.value else 0.0;
      if problem.Some? || balance < op.order.amount {
        Untouched(b1, b1, node, h, t.first, end);
      } else {
        CreateKeeps(b1, op.order, Some(balance), op.id, node, h, t.first, t.second, t.stamp, t.last);
        var (b2, created) := CreateFor(b1, op.order, op.credits, op.id, t);
        Untouched(b2, Next(b, op), node, h + Recorded(b, op, node), t.last, end);
      }
    }
  }

  /** Every operation keeps the spacing of every node. */
  lemma {:induction false} StepKeeps(b: Books, op: Op, node: string, h: seq<real>, clock: real, end: real)
    requires Inv(b, node, h, clock) && Timely(op, clock, end)
    ensures Inv(Next(b, op), node, h + Recorded(b, op, node), end)
  {
    hide Inv, Create, Validate, TransferSync;
    assert h + [] == h;
    match op
    case Validation(o, balance, at) =>
      ValidateKeeps(b, o, balance, node, h, clock, at);
      Untouched(Next(b, op), Next(b, op), node, h, at, end);
    case Creation(o, balance, id, at, stamp, last) =>
      CreateKeeps(b, o, balance, id, node, h, clock, at, stamp, last);
      Untouched(Next(b, op), Next(b, op), node, h + Recorded(b, op, node), last, end);
    case Transferring(_, _, _, _, _, _) => TransferKeeps(b, op, node, h, clock, end);
    case Confirmation(id) => Untouched(b, Next(b, op), node, h, clock, end);
  }

  /** An operation and the reading of the clock after it. */
  datatype Timed = Timed(op: Op, end: real)

  ghost predicate InOrder(clock: real, ops: seq<Timed>)
    decreases |ops|
  {
    ops == [] || (Timely(ops[0].op, clock, ops[0].end) && InOrder(ops[0].end, ops[1..]))
  }

  function RecordedBy(b: Books, ops: seq<Timed>, node: string): seq<real>
    decreases |ops|
  {
    if ops == [] then [] else Recorded(b, ops[0].op, node) + RecordedBy(Next(b, ops[0].op), ops[1..], node)
  }

  function InWindow(h: seq<real>, t: real): nat {
    if h == [] then 0
    else InWindow(h[..|h| - 1], t) + if t - 3600.0 < h[|h| - 1] <= t then 1 else 0
  }

  lemma {:induction false} WindowAtMost(h: seq<real>, t: real, k: nat)
    requires k <= |h| && forall i | 0 <= i < k :: h[i] <= t - HOUR
    ensures InWindow(h, t) <= |h| - k
  {
    if h != [] {
      if k == |h| { WindowAtMost(h[..|h| - 1], t, k - 1); }
      else { WindowAtMost(h[..|h| - 1], t, k); }
    }
  }

  lemma {:induction false} SpacedWindow(h: seq<real>, t: real)
    requires forall i, j | 0 <= i < j < |h| :: h[i] <= h[j]
    requires forall i | 0 <= i < |h| - MAX_PER_HOUR :: h[i + MAX_PER_HOUR] - h[i] >= HOUR
    ensures InWindow(h, t) <= MAX_PER_HOUR
  {
    var n := |h| - 1;
    if h != [] {
      if !(t - HOUR < h[n] <= t) {
        SpacedWindow(h[..n], t);
      } else if n >= MAX_PER_HOUR {
        var k := n - MAX_PER_HOUR + 1;
        assert h[k - 1 + MAX_PER_HOUR] - h[k - 1] >= HOUR;
        forall i | 0 <= i < k ensures h[i] <= t - HOUR {
          assert i < k - 1 ==> h[i] <= h[k - 1];
        }
        WindowAtMost(h, t, k);
      } else {
        WindowAtMost(h, t, 0);
      }
    }
  }

  lemma {:induction false} RunKeeps(b: Books, ops: seq<Timed>, node: string, h: seq<real>, clock: real, t: real)
    requires Inv(b, node, h, clock) && InOrder(clock, ops)
    ensures InWindow(h + RecordedBy(b, ops, node), t) <= MAX_PER_HOUR
    decreases |ops|
  {
    hide Next, Recorded, Timely, InWindow;
    if ops == [] {
      SpacedWindow(h, t);
      assert h + [] == h;
    } else {
      hide Inv;
      var op := ops[0].op;
      StepKeeps(b, op, node, h, clock, ops[0].end);
      var h' := h + Recorded(b, op, node);
      RunKeeps(Next(b, op), ops[1..], node, h', ops[0].end, t);
      assert h + RecordedBy(b, ops, node) == h' + RecordedBy(Next(b, op), ops[1..], node);
    }
  }

  /** Over any run that starts with empty books, whatever is validated, created, rolled
      back or confirmed, no node records more than ten transfers in any window
      `(t - 3600, t]`. */
  lemma {:induction false} VelocityHolds(ops: seq<Timed>, node: string, clock: real, t: real)
    requires InOrder(clock, ops)
    ensures InWindow(RecordedBy(Books(map[], map[], []), ops, node), t) <= 10
  {
    var b := Books(map[], map[], []);
    assert Kept(b, node, [], clock, 0);
    RunKeeps(b, ops, node, [], clock, t);
    assert [] + RecordedBy(b, ops, node) == RecordedBy(b, ops, node);
  }

  // ---- exactly ten -------------------------------------------------------------------------------------

  function EndOf(clock: real, ops: seq<Timed>): real {
    if ops == [] then clock else ops[|ops| - 1].end
  }

  function RunBooks(b: Books, ops: seq<Timed>): Books
    decreases |ops|
  {
    if ops == [] then b else RunBooks(Next(b, ops[0].op), ops[1..])
  }

  lemma {:induction false} RunInv(b: Books, ops: seq<Timed>, node: string, h: seq<real>, clock: real)
    requires Inv(b, node, h, clock) && InOrder(clock, ops)
    ensures Inv(RunBooks(b, ops), node, h + RecordedBy(b, ops, node), EndOf(clock, ops))
    decreases |ops|
  {
    hide Inv, Next, Recorded, Timely;
    if ops == [] {
      assert h + [] == h;
    } else {
      var op := ops[0].op;
      StepKeeps(b, op, node, h, clock, ops[0].end);
      var h' := h + Recorded(b, op, node);
      RunInv(Next(b, op), ops[1..], node, h', ops[0].end);
      assert h + RecordedBy(b, ops, node) == h' + RecordedBy(Next(b, op), ops[1..], node);
      assert EndOf(ops[0].end, ops[1..]) == EndOf(clock, ops);
    }
  }

  lemma {:induction false} RecentCounts(h: seq<real>, k: nat, now: real)
    requires k <= |h| && (forall i | 0 <= i < |h| :: h[i] <= now) && forall i | 0 <= i < k :: h[i] <= now - 3600.0
    ensures |Recent(h[k..], now - 3600.0)| == InWindow(h, now)
    decreases |h|
  {
    var n := |h| - 1;
    if k == |h| {
      assert h[k..] == [];
      WindowAtMost(h, now, k);
    } else {
      RecentCounts(h[..n], k, now);
      assert h[..n][k..] == h[k..][..|h[k..]| - 1];
    }
  }

  /** After any run from empty books, an order that is in order itself passes the velocity
      check exactly when its sender recorded fewer than ten transfers in the last hour. */
  lemma {:induction false} VelocityExact(ops: seq<Timed>, o: Order, clock: real, now: real)
    requires InOrder(clock, ops) && EndOf(clock, ops) <= now
    requires o.from != o.to && 1.0 <= o.amount <= 10000.0
    ensures var empty := Books(map[], map[], []);
      var (_, problem) := Validate(RunBooks(empty, ops), o, None, now);
      var recent := InWindow(RecordedBy(empty, ops, o.from), now);
      && (problem == None <==> recent < 10) && (problem == Some(TooMany) <==> recent >= 10)
  {
    var empty := Books(map[], map[], []);
    assert Kept(empty, o.from, [], clock, 0);
    RunInv(empty, ops, o.from, [], clock);
    var b, h := RunBooks(empty, ops), [] + RecordedBy(empty, ops, o.from);
    assert h == RecordedBy(empty, ops, o.from);
    ValidCount(b, o, h, EndOf(clock, ops), now);
  }

  lemma {:induction false} ValidCount(b: Books, o: Order, h: seq<real>, clock: real, now: real)
    requires Inv(b, o.from, h, clock) && clock <= now && o.from != o.to && 1.0 <= o.amount <= 10000.0
    ensures var (_, problem) := Validate(b, o, None, now);
      && (problem == None <==> InWindow(h, now) < 10) && (problem == Some(TooMany) <==> InWindow(h, now) >= 10)
  {
    hide Recent, InWindow;
    var k: nat :| Kept(b, o.from, h, clock, k);
    RecentCounts(h, k, now);
  }

  /** What is wrong with an order, the first of the checks that fails; and the memo of a
      transfer, which has one even when none is given. */
  lemma {:induction false} ProblemsExact(o: Order, balance: Option<real>, id: string, t: Readings)
    ensures Problem(o, balance) ==
      if o.from == o.to then Some(ToYourself)
      else if o.amount < 1.0 then Some(TooSmall)
      else if o.amount > 10000.0 then Some(TooLarge)
      else if balance != None && balance.value < o.amount then Some(Insufficient)
      else None
    ensures Recording(o, id, t)
      == Transfer(id, o.from, o.to, o.amount, if o.reason == "" then "Team pooling" else o.reason, t.stamp)
  {
  }

  // ---- the manager object ----------------------------------------------------------------------------

  class CreditTransferManager {
    var counts: map<string, seq<real>>
    var pending: map<string, Transfer>
    var history: seq<Transfer>

    ghost function Abs(): Books
      reads this
    {
      Books(counts, pending, history)
    }

    constructor ()
      ensures Abs() == Books(map[], map[], [])
    {
      counts, pending, history := map[], map[], [];
    }

    method CheckVelocityLimit(node: string, now: real) returns (ok: bool)
      modifies this`counts
      ensures Abs() == Pruned(old(Abs()), node, now)
      ensures ok <==> |counts[node]| < MAX_PER_HOUR
    {
      var hourAgo := now - HOUR;
      if node !in counts { counts := counts[node := []]; }
      var recent := Recent(counts[node], hourAgo);
      counts := counts[node := recent];
      return |recent| < MAX_PER_HOUR;
    }

    method ValidateTransfer(o: Order, balance: Option<real>, now: real) returns (problem: Option<Error>)
      modifies this`counts
      ensures (Abs(), problem) == Validate(old(Abs()), o, balance, now)
    {
      if o.from == o.to { return Some(ToYourself); }
      if o.amount < MIN_AMOUNT { return Some(TooSmall); }
      if o.amount > MAX_AMOUNT { return Some(TooLarge); }
      if balance.Some? && balance.value < o.amount { return Some(Insufficient); }
      var ok := CheckVelocityLimit(o.from, now);
      return if ok then None else Some(TooMany);
    }

    method CreateTransfer(o: Order, balance: Option<real>, id: string, now: real, stamp: real, later: real)
      returns (result: Result<Transfer>)
      modifies this
      ensures (Abs(), result) == Create(old(Abs()), o, balance, id, now, stamp, later)
    {
      hide Recent, Problem;
      var problem := ValidateTransfer(o, balance, now);
      if problem.Some? { return Err(problem.value); }
      var x := Transfer(id, o.from, o.to, o.amount, Reason(o.reason), stamp);
      counts := counts[o.from := counts[o.from] + [later]];
      pending := pending[id := x];
      history := history + [x];
      return Ok(x);
    }

    method ConfirmTransfer(id: string) returns (found: bool)
      modifies this`pending
      ensures pending == old(pending) - {id} && found == (id in old(pending))
    {
      if id !in pending { return false; }
      pending := pending - {id};
      return true;
    }

    method RollbackTransferRecord(x: Transfer)
      modifies this`pending, this`history
      ensures Abs() == RolledBack(old(Abs()), x)
    {
      pending := pending - {x.id};
      history := RemoveFirst(history, x);
    }

    /** `database` says whether there is one, `credits` what it knows of the sender, and
        `outcome` how its write ends. */
    method TransferCredits(o: Order, database: bool, credits: Option<real>, outcome: Outcome, id: string, t: Readings)
      returns (result: Result<Transfer>)
      modifies this
      ensures (Abs(), result) == TransferSync(old(Abs()), o, database, credits, outcome, id, t)
    {
      hide Validate, Create, RolledBack;
      if !database { return Err(NoDatabase); }
      var problem := ValidateTransfer(o, None, t.first);
      if problem.Some? { return Err(problem.value); }
      var balance := if credits.Some? then credits.value else 0.0;
      if balance < o.amount { return Err(Insufficient); }
      var created := CreateTransfer(o, Some(balance), id, t.second, t.stamp, t.last);
      if created.Err? { return created; }
      match outcome {
        case Refused(text) =>
          RollbackTransferRecord(created.value);
          return Err(Rejected(text));
        case Crashed =>
          RollbackTransferRecord(created.value);
          return Err(PersistFailed);
        case Written =>
      }
      var confirmed := ConfirmTransfer(id);
      return created;
    }
  }
}
