/** The counter of open event streams: it stands for the multiset of open sessions. */
module AdminSse {

  /** Limits are read from the environment and are at least one. */
  datatype Limits = Limits(total: nat, perIp: nat)

  ghost predicate Positive(l: Limits) {
    l.total >= 1 && l.perIp >= 1
  }

  function Name(ip: string): string {
    if ip == "" then "unknown" else ip
  }

  ghost predicate Admits(open: multiset<string>, ip: string, l: Limits) {
    |open| < l.total && open[Name(ip)] < l.perIp
  }

  ghost function Acquired(open: multiset<string>, ip: string, l: Limits): multiset<string> {
    if Admits(open, ip, l) then open + multiset{Name(ip)} else open
  }

  ghost function Released(open: multiset<string>, ip: string): multiset<string> {
    open - multiset{Name(ip)}
  }

  datatype Op = Acquire(ip: string) | Release(ip: string)

  ghost function Run(open: multiset<string>, ops: seq<Op>, l: Limits): multiset<string> {
    if ops == [] then open
    else
      var before := Run(open, ops[..|ops| - 1], l);
      match ops[|ops| - 1]
      case Acquire(ip) => Acquired(before, ip, l)
      case Release(ip) => Released(before, ip)
  }

  /** Whatever is acquired and released, in any order and however often, neither limit is
      ever exceeded. */
  lemma {:induction false} LimitsHold(ops: seq<Op>, l: Limits, ip: string)
    ensures |Run(multiset{}, ops, l)| <= l.total && Run(multiset{}, ops, l)[ip] <= l.perIp
  {
    if ops != [] {
      var before := Run(multiset{}, ops[..|ops| - 1], l);
      LimitsHold(ops[..|ops| - 1], l, ip);
      match ops[|ops| - 1]
      case Acquire(_) =>
      case Release(from) => Fewer(before, Name(from));
    }
  }

  lemma {:induction false} Fewer(open: multiset<string>, ip: string)
    ensures |open - multiset{ip}| == if ip in open then |open| - 1 else |open|
  {
    if ip in open {
      assert open == (open - multiset{ip}) + multiset{ip};
    } else {
      assert open - multiset{ip} == open;
    }
  }

  class AdminSseLimiter {
    var total: int
    var perIp: map<string, int>
    ghost var open: multiset<string>

    /** The counters never drift from the sessions they count. */
    ghost predicate Valid()
      reads this
    {
      && total == |open|
      && (forall ip :: ip in perIp <==> ip in open)
      && (forall ip | ip in perIp :: perIp[ip] == open[ip])
    }

    constructor ()
      ensures Valid() && open == multiset{}
    {
      total, perIp, open := 0, map[], multiset{};
    }

    method TryAcquire(clientIp: string, l: Limits) returns (admitted: bool)
      requires Valid() && Positive(l)
      modifies this
      ensures Valid() && open == Acquired(old(open), clientIp, l)
      ensures var ip := if clientIp == "" then "unknown" else clientIp;
        && (admitted <==> |old(open)| < l.total && old(open)[ip] < l.perIp)
        && open == if admitted then old(open) + multiset{ip} else old(open)
    {
      if total >= l.total { return false; }
      var ip := Name(clientIp);
      var count := if ip in perIp then perIp[ip] else 0;
      if count >= l.perIp { return false; }
      total := total + 1;
      perIp := perIp[ip := count + 1];
      open := open + multiset{ip};
      return true;
    }

    method ReleaseOne(clientIp: string)
      requires Valid()
      modifies this
      ensures Valid() && open == Released(old(open), clientIp)
      ensures open == old(open) - multiset{if clientIp == "" then "unknown" else clientIp}
    {
      var ip := Name(clientIp);
      Fewer(open, ip);
      var count := if ip in perIp then perIp[ip] else 0;
      open := open - multiset{ip};
      if count <= 0 { return; }
      total := if total - 1 > 0 then total - 1 else 0;
      if count == 1 { perIp := perIp - {ip}; } else { perIp := perIp[ip := count - 1]; }
    }
  }
}
