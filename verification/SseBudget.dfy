/** The byte budget of one event stream. The clock is advanced by each sleep: by the time
    asked for plus a lateness that is never negative. */
module SseBudget {
  import opened Sums

  datatype Budget = Budget(allowance: real, last: real)

  /** One turn of the loop: when, how many bytes were charged, what allowance is left. */
  datatype Charge = Charge(time: real, amount: int, left: real)

  ghost predicate Sound(rate: nat, b: Budget) {
    0.0 <= b.allowance <= rate as real
  }

  ghost predicate NeverEarly(late: nat -> real) {
    forall k :: late(k) >= 0.0
  }

  function Level(rate: nat, b: Budget, now: real): real {
    Min(rate as real, b.allowance + Mul(now - b.last, rate as real))
  }

  lemma {:induction false} LevelBounds(rate: nat, b: Budget, now: real)
    requires Sound(rate, b) && b.last <= now
    ensures b.allowance <= Level(rate, b, now) <= rate as real
    ensures Level(rate, b, now) <= b.allowance + Mul(now - b.last, rate as real)
  {
    if rate > 0 {
      hide Mul;
      MulOrder(0.0, now - b.last, rate as real);
    } else {
      assert Mul(now - b.last, 0.0) == 0.0;
    }
  }

  /** Having slept off what remains, either all of it fits or a full allowance is there. */
  ghost predicate Rested(rate: nat, b: Budget, remaining: int, now: real)
    requires rate > 0
  {
    b.last + remaining as real / rate as real <= now
  }

  lemma {:induction false} RestedLevel(rate: nat, b: Budget, remaining: int, now: real)
    requires rate > 0 && Sound(rate, b) && remaining > 0 && b.last <= now
    ensures Rested(rate, b, remaining, now) ==>
      Level(rate, b, now) >= remaining as real || Level(rate, b, now) == rate as real
  {
    hide Mul;
    if !Rested(rate, b, remaining, now) { return; }
    var pause := remaining as real / rate as real;
    DivMul(remaining as real, rate as real);
    MulOrder(pause, now - b.last, rate as real);
    MulOrder(pause, 0.0, rate as real);
  }

  /** The turns of one call, the first reading being `now`; the `k`th sleep is `late(k)`
      too long. */
  function Turns(rate: nat, b: Budget, remaining: int, now: real, late: nat -> real, k: nat): seq<Charge>
    requires rate > 0 && Sound(rate, b) && remaining > 0 && b.last <= now && NeverEarly(late)
    requires k > 0 ==> Rested(rate, b, remaining, now)
    decreases if k == 0 then remaining + 1 else remaining
  {
    var level := Level(rate, b, now);
    LevelBounds(rate, b, now);
    if level >= remaining as real then [Charge(now, remaining, level - remaining as real)]
    else
      RestedLevel(rate, b, remaining, now);
      var rest := remaining - level.Floor;
      assert rest as real / rate as real >= 0.0;
      [Charge(now, level.Floor, 0.0)]
      + Turns(rate, Budget(0.0, now), rest, now + rest as real / rate as real + late(k), late, k + 1)
  }

  function Charged(trace: seq<Charge>): int {
    if trace == [] then 0 else trace[0].amount + Charged(trace[1..])
  }

  function After(b: Budget, trace: seq<Charge>): Budget {
    if trace == [] then b else Budget(trace[|trace| - 1].left, trace[|trace| - 1].time)
  }

  /** How many full rates it takes to cover `n`. */
  function Ceil(n: int, rate: nat): nat
    requires rate > 0
    decreases if n <= 0 then 0 else n
  {
    if n <= 0 then 0 else 1 + Ceil(n - rate, rate)
  }

  lemma {:induction false} CeilCovers(n: int, rate: nat)
    requires rate > 0 && n > 0
    ensures (Ceil(n, rate) - 1) * rate < n <= Ceil(n, rate) * rate
    decreases n
  {
    if n > rate { CeilCovers(n - rate, rate); }
    else { assert Ceil(n, rate) == 1 + Ceil(n - rate, rate) && Ceil(n - rate, rate) == 0; }
  }

  /** One turn of the loop, on the specification. */
  lemma {:induction false} OneTurn(rate: nat, b: Budget, remaining: int, now: real, late: nat -> real, k: nat)
    requires rate > 0 && Sound(rate, b) && remaining > 0 && b.last <= now && NeverEarly(late)
    requires k > 0 ==> Rested(rate, b, remaining, now)
    ensures var level := Level(rate, b, now);
      if level >= remaining as real then
        Turns(rate, b, remaining, now, late, k) == [Charge(now, remaining, level - remaining as real)]
        && Sound(rate, Budget(level - remaining as real, now))
      else
        var rest := remaining - level.Floor;
        var now' := now + rest as real / rate as real + late(k);
        && 0 < rest <= remaining && (k > 0 ==> rest < remaining)
        && now <= now' && Rested(rate, Budget(0.0, now), rest, now')
        && Turns(rate, b, remaining, now, late, k)
             == [Charge(now, level.Floor, 0.0)] + Turns(rate, Budget(0.0, now), rest, now', late, k + 1)
  {
    hide Mul;
    var level := Level(rate, b, now);
    LevelBounds(rate, b, now);
    RestedLevel(rate, b, remaining, now);
    if level < remaining as real {
      assert (remaining - level.Floor) as real / rate as real >= 0.0;
    }
  }

  /** The number of turns is exact; in particular it never exceeds `Ceil(n, rate) + 1`. */
  lemma {:induction false} TurnsExact(rate: nat, b: Budget, remaining: int, now: real, late: nat -> real, k: nat)
    requires rate > 0 && Sound(rate, b) && remaining > 0 && b.last <= now && NeverEarly(late)
    requires k > 0 ==> Rested(rate, b, remaining, now)
    ensures var level := Level(rate, b, now);
      |Turns(rate, b, remaining, now, late, k)|
        == if level >= remaining as real then 1 else 1 + Ceil(remaining - level.Floor, rate)
    ensures |Turns(rate, b, remaining, now, late, k)| <= Ceil(remaining, rate) + if k == 0 then 1 else 0
    decreases if k == 0 then remaining + 1 else remaining
  {
    var level := Level(rate, b, now);
    LevelBounds(rate, b, now);
    RestedLevel(rate, b, remaining, now);
    if level < remaining as real {
      var rest := remaining - level.Floor;
      assert rest as real / rate as real >= 0.0;
      var b', now' := Budget(0.0, now), now + rest as real / rate as real + late(k);
      TurnsExact(rate, b', rest, now', late, k + 1);
      LevelBounds(rate, b', now');
      RestedLevel(rate, b', rest, now');
      CeilOrder(rest, remaining, rate);
    }
  }

  lemma {:induction false} CeilOrder(m: int, n: int, rate: nat)
    requires rate > 0 && m <= n
    ensures Ceil(m, rate) <= Ceil(n, rate)
    decreases if n <= 0 then 0 else n
  {
    if m > 0 { CeilOrder(m - rate, n - rate, rate); }
  }

  /** Every byte asked for is charged, no more and no less. */
  lemma {:induction false} AllCharged(rate: nat, b: Budget, remaining: int, now: real, late: nat -> real, k: nat)
    requires rate > 0 && Sound(rate, b) && remaining > 0 && b.last <= now && NeverEarly(late)
    requires k > 0 ==> Rested(rate, b, remaining, now)
    ensures Charged(Turns(rate, b, remaining, now, late, k)) == remaining
    ensures Metered(rate, b, Turns(rate, b, remaining, now, late, k))
    decreases if k == 0 then remaining + 1 else remaining
  {
    var level := Level(rate, b, now);
    LevelBounds(rate, b, now);
    RestedLevel(rate, b, remaining, now);
    if level < remaining as real {
      var rest := remaining - level.Floor;
      assert rest as real / rate as real >= 0.0;
      AllCharged(rate, Budget(0.0, now), rest, now + rest as real / rate as real + late(k), late, k + 1);
    }
  }

  /** Each turn charges no more than the level it finds. */
  ghost predicate Metered(rate: nat, b: Budget, trace: seq<Charge>)
    decreases |trace|
  {
    trace == [] ||
    var c := trace[0];
    && b.last <= c.time && 0 <= c.amount && 0.0 <= c.left
    && c.amount as real + c.left <= Level(rate, b, c.time)
    && Metered(rate, Budget(c.left, c.time), trace[1..])
  }

  /** Metered traces follow one another. */
  lemma {:induction false} MeteredAppend(rate: nat, b: Budget, first: seq<Charge>, second: seq<Charge>)
    requires Metered(rate, b, first) && Metered(rate, After(b, first), second)
    ensures Metered(rate, b, first + second)
    ensures After(b, first + second) == After(After(b, first), second)
    decreases |first|
  {
    if first == [] {
      assert first + second == second;
    } else {
      MeteredAppend(rate, Budget(first[0].left, first[0].time), first[1..], second);
      assert (first + second)[1..] == first[1..] + second;
    }
  }

  // ---- runs of calls ------------------------------------------------------------------------

  /** A call made `gap` after the previous reading of the clock. */
  datatype Call = Call(bytes: int, gap: real, late: nat -> real)

  ghost predicate Causal(calls: seq<Call>) {
    forall i | 0 <= i < |calls| :: calls[i].gap >= 0.0 && NeverEarly(calls[i].late)
  }

  function WaitFor(rate: nat, b: Budget, call: Call): seq<Charge>
    requires Sound(rate, b) && call.gap >= 0.0 && NeverEarly(call.late)
  {
    if rate <= 0 || call.bytes <= 0 then []
    else Turns(rate, b, call.bytes, b.last + call.gap, call.late, 0)
  }

  lemma {:induction false} SoundAfter(rate: nat, b: Budget, trace: seq<Charge>)
    requires Sound(rate, b) && Metered(rate, b, trace)
    ensures Sound(rate, After(b, trace))
    decreases |trace|
  {
    if trace != [] {
      SoundAfter(rate, Budget(trace[0].left, trace[0].time), trace[1..]);
    }
  }

  lemma {:induction false} WaitForMetered(rate: nat, b: Budget, call: Call)
    requires Sound(rate, b) && call.gap >= 0.0 && NeverEarly(call.late)
    ensures var trace := WaitFor(rate, b, call);
      && Metered(rate, b, trace) && Sound(rate, After(b, trace))
      && Charged(trace) == if rate > 0 && call.bytes > 0 then call.bytes else 0
  {
    if rate > 0 && call.bytes > 0 {
      AllCharged(rate, b, call.bytes, b.last + call.gap, call.late, 0);
    }
    SoundAfter(rate, b, WaitFor(rate, b, call));
  }

  function Run(rate: nat, b: Budget, calls: seq<Call>): seq<Charge>
    requires Sound(rate, b) && Causal(calls)
    decreases |calls|
  {
    if calls == [] then []
    else
      WaitForMetered(rate, b, calls[0]);
      var trace := WaitFor(rate, b, calls[0]);
      trace + Run(rate, After(b, trace), calls[1..])
  }

  lemma {:induction false} RunMetered(rate: nat, b: Budget, calls: seq<Call>)
    requires Sound(rate, b) && Causal(calls)
    ensures Metered(rate, b, Run(rate, b, calls))
    decreases |calls|
  {
    if calls != [] {
      WaitForMetered(rate, b, calls[0]);
      var trace := WaitFor(rate, b, calls[0]);
      RunMetered(rate, After(b, trace), calls[1..]);
      MeteredAppend(rate, b, trace, Run(rate, After(b, trace), calls[1..]));
    }
  }

  // ---- what a window carries ------------------------------------------------------------------

  /** The bytes charged at times in `[s, t]`. */
  function ChargedIn(trace: seq<Charge>, s: real, t: real): int {
    if trace == [] then 0
    else (if s <= trace[0].time <= t then trace[0].amount else 0) + ChargedIn(trace[1..], s, t)
  }

  lemma {:induction false} NothingLater(rate: nat, b: Budget, trace: seq<Charge>, s: real, t: real)
    requires Metered(rate, b, trace) && b.last > t
    ensures ChargedIn(trace, s, t) == 0
    decreases |trace|
  {
    if trace != [] {
      NothingLater(rate, Budget(trace[0].left, trace[0].time), trace[1..], s, t);
    }
  }

  ghost function Ahead(rate: nat, b: Budget, s: real, t: real): real {
    if b.last >= s then b.allowance + Mul(t - b.last, rate as real)
    else rate as real + Mul(t - s, rate as real)
  }

  lemma {:induction false} ChargedAtMost(rate: nat, b: Budget, trace: seq<Charge>, s: real, t: real)
    requires rate > 0 && Sound(rate, b) && Metered(rate, b, trace) && s <= t && b.last <= t
    ensures ChargedIn(trace, s, t) as real <= Ahead(rate, b, s, t)
    decreases |trace|
  {
    hide Mul;
    var r := rate as real;
    MulOrder(0.0, t - b.last, r);
    MulOrder(0.0, t - s, r);
    if trace != [] {
      var c := trace[0];
      var b' := Budget(c.left, c.time);
      LevelBounds(rate, b, c.time);
      if c.time > t {
        NothingLater(rate, b', trace[1..], s, t);
      } else {
        ChargedAtMost(rate, b', trace[1..], s, t);
        MulSplit(t - c.time, c.time - b.last, r);
        MulSplit(t - c.time, c.time - s, r);
        if c.time >= s { MulOrder(0.0, c.time - s, r); }
      }
    }
  }

  /** Over any run of calls, one connection is charged at most `rate + rate * (t - s)`
      bytes inside any window `[s, t]`. At rate 0 nothing is limited and nothing charged. */
  lemma {:induction false} WindowBound(rate: nat, b: Budget, calls: seq<Call>, s: real, t: real)
    requires Sound(rate, b) && Causal(calls) && s <= t
    ensures ChargedIn(Run(rate, b, calls), s, t) as real <= rate as real + Mul(t - s, rate as real)
  {
    hide Run, Metered;
    var trace := Run(rate, b, calls);
    RunMetered(rate, b, calls);
    if rate == 0 {
      Unlimited(b, calls);
    } else if b.last > t {
      NothingLater(rate, b, trace, s, t);
      MulOrder(0.0, t - s, rate as real);
    } else {
      ChargedAtMost(rate, b, trace, s, t);
      MulOrder(t - b.last, t - s, rate as real);
    }
  }

  /** With a rate of 0 nothing is limited and nothing is charged. */
  lemma {:induction false} Unlimited(b: Budget, calls: seq<Call>)
    requires Sound(0, b) && Causal(calls)
    ensures Run(0, b, calls) == []
    decreases |calls|
  {
    if calls != [] { Unlimited(b, calls[1..]); }
  }

  class SseByteBudget {
    const rate: nat
    var allowance: real
    var last: real

    ghost function Abs(): Budget
      reads this
    {
      Budget(allowance, last)
    }

    constructor (bytesPerSec: int, now: real)
      ensures rate == (if bytesPerSec > 0 then bytesPerSec else 0)
      ensures Abs() == Budget(rate as real, now) && Sound(rate, Abs())
    {
      rate := if bytesPerSec > 0 then bytesPerSec else 0;
      allowance := (if bytesPerSec > 0 then bytesPerSec else 0) as real;
      last := now;
    }

    method Throttle(nbytes: int, gap: real, late: nat -> real) returns (trace: seq<Charge>)
      requires Sound(rate, Abs()) && gap >= 0.0 && NeverEarly(late)
      modifies this
      ensures trace == WaitFor(rate, old(Abs()), Call(nbytes, gap, late))
      ensures Abs() == After(old(Abs()), trace) && Sound(rate, Abs())
    {
      hide Mul, Turns, Rested, Metered, Charged;
      trace := [];
      WaitForMetered(rate, Abs(), Call(nbytes, gap, late));
      if rate <= 0 || nbytes <= 0 { return; }
      var remaining, now, k := nbytes, last + gap, 0;
      ghost var all := Turns(rate, Abs(), nbytes, now, late, 0);
      while remaining > 0
        invariant remaining > 0 && Sound(rate, Abs()) && last <= now
        invariant k > 0 ==> Rested(rate, Abs(), remaining, now)
        invariant all == trace + Turns(rate, Abs(), remaining, now, late, k)
        decreases if k == 0 then remaining + 1 else remaining
      {
        OneTurn(rate, Abs(), remaining, now, late, k);
        var elapsed := now - last;
        last := now;
        allowance := Min(rate as real, allowance + Mul(elapsed, rate as real));
        if allowance >= remaining as real {
          allowance := allowance - remaining as real;
          trace := trace + [Charge(now, remaining, allowance)];
          return;
        }
        trace := trace + [Charge(now, allowance.Floor, 0.0)];
        remaining := remaining - allowance.Floor;
        allowance := 0.0;
        now := now + remaining as real / rate as real + late(k);
        k := k + 1;
      }
    }
  }
}
