/** The authorization-code and refresh-token store. Random codes and tokens are arguments,
    and a run supplies fresh ones; the digest is an arbitrary function. */
module OAuthProvider {

  const ACCESS_TTL := 3600.0
  const CODE_TTL := 600.0

  datatype Client = Client(secret: string, confidential: bool)

  datatype Code = Code(client: string, user: string, uri: string, scope: string,
                       challenge: string, hashed: bool, expiresAt: real, used: bool)

  datatype Access = Access(expiresAt: real, scope: string, client: string, user: string, refresh: string)

  datatype Store = Store(clients: map<string, Client>, codes: map<string, Code>,
                         access: map<string, Access>, refresh: map<string, string>)

  datatype Reason =
    | InvalidClient | InvalidCode | AlreadyUsed | CodeExpired | ClientMismatch | RedirectMismatch
    | PkceFailed | InvalidRefresh | TokenNotFound

  datatype Response = Denied(reason: Reason) | Issued(access: string, refresh: string, scope: string) | Done

  // ---- the operations on values --------------------------------------------------------------

  predicate Authentic(s: Store, client: string, secret: string) {
    client in s.clients && (s.clients[client].confidential ==> s.clients[client].secret == secret)
  }

  function Generate(s: Store, client: string, user: string, scope: string, now: real, at: string, rt: string): Store {
    s.(access := s.access[at := Access(now + ACCESS_TTL, scope, client, user, rt)], refresh := s.refresh[rt := at])
  }

  function Revoke(s: Store, at: string): Store {
    if at !in s.access then s
    else
      var rt := s.access[at].refresh;
      s.(access := s.access - {at}, refresh := if rt != "" then s.refresh - {rt} else s.refresh)
  }

  datatype Op =
    | Authorize(code: string, client: string, user: string, uri: string, scope: string,
                challenge: string, hashed: bool, now: real)
    | Exchange(code: string, client: string, secret: string, verifier: string, uri: string,
               now: real, at: string, rt: string)
    | Refresh(token: string, client: string, secret: string, now: real, at: string, rt: string)
    | Cleanup(now: real)

  /** Why an exchange is refused, if it is. */
  function Refusal(s: Store, op: Op): Reason
    requires op.Exchange? && op.code in s.codes
  {
    var c := s.codes[op.code];
    if c.used then AlreadyUsed
    else if op.now > c.expiresAt then CodeExpired
    else if c.client != op.client then ClientMismatch
    else if c.uri != op.uri then RedirectMismatch
    else PkceFailed
  }

  predicate Redeemable(c: Code, digest: string -> string, client: string, verifier: string, uri: string, now: real) {
    && !c.used && now <= c.expiresAt && c.client == client && c.uri == uri
    && (if c.hashed then digest(verifier) else verifier) == c.challenge
  }

  function Next(s: Store, digest: string -> string, op: Op): (Store, Response) {
    match op
    case Authorize(code, client, user, uri, scope, challenge, hashed, now) =>
      (s.(codes := s.codes[code := Code(client, user, uri, scope, challenge, hashed, now + CODE_TTL, false)]), Done)
    case Exchange(code, client, secret, verifier, uri, now, at, rt) =>
      if !Authentic(s, client, secret) then (s, Denied(InvalidClient))
      else if code !in s.codes then (s, Denied(InvalidCode))
      else if !Redeemable(s.codes[code], digest, client, verifier, uri, now) then (s, Denied(Refusal(s, op)))
      else
        var c := s.codes[code];
        (Generate(s.(codes := s.codes[code := c.(used := true)]), client, c.user, c.scope, now, at, rt),
         Issued(at, rt, c.scope))
    case Refresh(token, client, secret, now, at, rt) =>
      if !Authentic(s, client, secret) then (s, Denied(InvalidClient))
      else if token !in s.refresh || s.refresh[token] == "" then (s, Denied(InvalidRefresh))
      else if s.refresh[token] !in s.access then (s, Denied(TokenNotFound))
      else
        var old_ := s.access[s.refresh[token]];
        (Generate(Revoke(s, s.refresh[token]), client, old_.user, old_.scope, now, at, rt), Issued(at, rt, old_.scope))
    case Cleanup(now) => (Cleaned(s, now), Done)
  }

  /** Expired codes go, and so do expired access tokens with their refresh tokens. */
  function Cleaned(s: Store, now: real): Store {
    var expired := set t | t in s.access && now > s.access[t].expiresAt;
    WithoutTokens(s.(codes := map c | c in s.codes && !(now > s.codes[c].expiresAt) :: s.codes[c]), expired)
  }

  function RefreshesOf(s: Store, tokens: set<string>): set<string> {
    set t | t in tokens && t in s.access && s.access[t].refresh != "" :: s.access[t].refresh
  }

  function WithoutTokens(s: Store, tokens: set<string>): Store {
    s.(access := s.access - tokens,
       refresh := s.refresh - RefreshesOf(s, tokens))
  }

  // ---- two maps that mirror each other ------------------------------------------------------------

  /** `refresh` is exactly the inverse of the `refresh` field over `access`. */
  ghost predicate Mirrored(s: Store) {
    && (forall r | r in s.refresh :: s.refresh[r] in s.access && s.access[s.refresh[r]].refresh == r)
    && (forall a | a in s.access :: s.access[a].refresh in s.refresh && s.refresh[s.access[a].refresh] == a)
    && "" !in s.access && "" !in s.refresh
  }

  lemma {:induction false} GenerateMirrors(s: Store, client: string, user: string, scope: string, now: real,
      at: string, rt: string)
    requires Mirrored(s) && at !in s.access && rt !in s.refresh && at != "" && rt != ""
    ensures Mirrored(Generate(s, client, user, scope, now, at, rt))
  {
  }

  lemma {:induction false} RevokeMirrors(s: Store, at: string)
    requires Mirrored(s)
    ensures Mirrored(Revoke(s, at))
  {
  }

  lemma {:induction false} WithoutMirrors(s: Store, tokens: set<string>)
    requires Mirrored(s)
    ensures Mirrored(WithoutTokens(s, tokens))
  {
    var gone := RefreshesOf(s, tokens);
    forall r | r in s.refresh ensures r in gone <==> s.refresh[r] in tokens {
      assert s.access[s.refresh[r]].refresh == r;
    }
  }

  /** What a user authorized: this client, for this scope. */
  datatype Grant = Grant(client: string, user: string, scope: string)

  /** What the run has issued and redeemed so far, and what was authorized. */
  datatype Trail = Trail(issued: set<string>, redeemed: seq<string>, grants: set<Grant>)

  /** The strings an operation brings with it. */
  function Brought(op: Op): set<string> {
    match op
    case Authorize(code, _, _, _, _, _, _, _) => {code}
    case Exchange(_, _, _, _, _, _, at, rt) => {at, rt}
    case Refresh(_, _, _, _, at, rt) => {at, rt}
    case Cleanup(_) => {}
  }

  ghost predicate Fresh(trail: Trail, op: Op) {
    && Brought(op) !! trail.issued && "" !in Brought(op)
    && (op.Exchange? || op.Refresh? ==> op.at != op.rt)
  }

  function Credential(op: Op): string {
    match op
    case Exchange(code, _, _, _, _, _, _, _) => code
    case Refresh(token, _, _, _, _, _) => token
    case _ => ""
  }

  function Follow(trail: Trail, op: Op, response: Response): Trail {
    Trail(trail.issued + Brought(op),
          if response.Issued? then trail.redeemed + [Credential(op)] else trail.redeemed,
          if op.Authorize? then trail.grants + {Grant(op.client, op.user, op.scope)} else trail.grants)
  }

  /** What holds at any moment of a run. */
  ghost predicate Inv(s: Store, trail: Trail) {
    && Mirrored(s)
    && Tracked(s, trail)
    && Spent(s, trail)
    && Granted(s, trail)
  }

  /** Everything stored was issued. */
  ghost predicate Tracked(s: Store, trail: Trail) {
    && (forall c | c in s.codes :: c in trail.issued && c !in s.refresh)
    && (forall a | a in s.access :: a in trail.issued)
    && (forall r | r in s.refresh :: r in trail.issued)
  }

  /** What was redeemed was issued and cannot be redeemed again. */
  ghost predicate Spent(s: Store, trail: Trail) {
    && (forall x | x in trail.redeemed :: x in trail.issued && x !in s.refresh && (x in s.codes ==> s.codes[x].used))
    && (forall i, j | 0 <= i < j < |trail.redeemed| :: trail.redeemed[i] != trail.redeemed[j])
  }

  /** Codes are as authorized; the user of a token authorized its scope, for some client. */
  ghost predicate Granted(s: Store, trail: Trail) {
    && (forall c | c in s.codes :: Grant(s.codes[c].client, s.codes[c].user, s.codes[c].scope) in trail.grants)
    && (forall a | a in s.access :: Authorized(trail.grants, s.access[a].user, s.access[a].scope))
  }

  ghost predicate Authorized(grants: set<Grant>, user: string, scope: string) {
    exists g | g in grants :: g.user == user && g.scope == scope
  }

  /** New tokens for someone entitled to them. */
  lemma {:induction false} GenerateKeeps(s: Store, trail: Trail, client: string, user: string, scope: string,
                                         now: real, at: string, rt: string)
    requires Inv(s, trail) && at !in trail.issued && rt !in trail.issued && at != rt && at != "" && rt != ""
    requires Authorized(trail.grants, user, scope)
    ensures Inv(Generate(s, client, user, scope, now, at, rt), trail.(issued := trail.issued + {at, rt}))
  {
    GenerateMirrors(s, client, user, scope, now, at, rt);
    hide Mirrored;
  }

  lemma {:induction false} MoreIssued(s: Store, trail: Trail, more: set<string>)
    requires Inv(s, trail)
    ensures Inv(s, trail.(issued := trail.issued + more))
  {
    hide Mirrored;
  }

  lemma {:induction false} CodeSpent(s: Store, trail: Trail, code: string)
    requires Inv(s, trail) && code in s.codes && !s.codes[code].used
    ensures Inv(s.(codes := s.codes[code := s.codes[code].(used := true)]), trail.(redeemed := trail.redeemed + [code]))
  {
    assert code !in trail.redeemed;
  }

  lemma {:induction false} RefreshSpent(s: Store, trail: Trail, token: string)
    requires Inv(s, trail) && token in s.refresh
    ensures Inv(Revoke(s, s.refresh[token]), trail.(redeemed := trail.redeemed + [token]))
  {
    RevokeMirrors(s, s.refresh[token]);
    var s' := Revoke(s, s.refresh[token]);
    assert token !in trail.redeemed && token !in s'.refresh;
    hide Mirrored;
  }

  lemma {:induction false} RefreshInv(s: Store, trail: Trail, digest: string -> string, op: Op)
    requires Inv(s, trail) && Fresh(trail, op) && op.Refresh?
    ensures var (s', response) := Next(s, digest, op);
      Inv(s', Follow(trail, op, response)) && response != Denied(TokenNotFound)
  {
    var found := op.token in s.refresh && s.refresh[op.token] != "" && s.refresh[op.token] in s.access;
    assert op.token in s.refresh ==> found;
    var grant := if found then (s.access[s.refresh[op.token]].user, s.access[s.refresh[op.token]].scope) else ("", "");
    assert found ==> Authorized(trail.grants, grant.0, grant.1);
    hide Inv, Generate, Revoke;
    if Authentic(s, op.client, op.secret) && found {
      RefreshSpent(s, trail, op.token);
      GenerateKeeps(Revoke(s, s.refresh[op.token]), trail.(redeemed := trail.redeemed + [op.token]),
                    op.client, grant.0, grant.1, op.now, op.at, op.rt);
    } else {
      MoreIssued(s, trail, {op.at, op.rt});
    }
  }

  lemma {:induction false} ExchangeInv(s: Store, trail: Trail, digest: string -> string, op: Op)
    requires Inv(s, trail) && Fresh(trail, op) && op.Exchange?
    ensures var (s', response) := Next(s, digest, op); Inv(s', Follow(trail, op, response))
  {
    var found := op.code in s.codes && Authentic(s, op.client, op.secret)
      && Redeemable(s.codes[op.code], digest, op.client, op.verifier, op.uri, op.now);
    assert found ==> Authorized(trail.grants, s.codes[op.code].user, s.codes[op.code].scope) by {
      if found {
        assert Grant(s.codes[op.code].client, s.codes[op.code].user, s.codes[op.code].scope) in trail.grants;
      }
    }
    hide Inv, Generate;
    if found {
      var c := s.codes[op.code];
      CodeSpent(s, trail, op.code);
      GenerateKeeps(s.(codes := s.codes[op.code := c.(used := true)]), trail.(redeemed := trail.redeemed + [op.code]),
                    op.client, c.user, c.scope, op.now, op.at, op.rt);
    } else {
      MoreIssued(s, trail, {op.at, op.rt});
    }
  }

  lemma {:induction false} AuthorizeInv(s: Store, trail: Trail, digest: string -> string, op: Op)
    requires Inv(s, trail) && Fresh(trail, op) && op.Authorize?
    ensures var (s', response) := Next(s, digest, op); Inv(s', Follow(trail, op, response))
  {
    assert op.code in Brought(op);
  }

  /** `s'` holds nothing that `s` does not. */
  ghost predicate Within(s': Store, s: Store) {
    && (forall c | c in s'.codes :: c in s.codes && s'.codes[c] == s.codes[c])
    && (forall a | a in s'.access :: a in s.access && s'.access[a] == s.access[a])
    && (forall r | r in s'.refresh :: r in s.refresh)
  }

  lemma {:induction false} CleanedWithin(s: Store, now: real)
    ensures Within(Cleaned(s, now), s)
  {
  }

  lemma {:induction false} WithinKeeps(s': Store, s: Store, trail: Trail)
    requires Within(s', s) && Tracked(s, trail) && Spent(s, trail) && Granted(s, trail)
    ensures Tracked(s', trail) && Spent(s', trail) && Granted(s', trail)
  {
    hide Authorized;
  }

  lemma {:induction false} CleanupInv(s: Store, trail: Trail, now: real)
    requires Inv(s, trail)
    ensures Inv(Cleaned(s, now), trail)
  {
    var kept := s.(codes := map c | c in s.codes && !(now > s.codes[c].expiresAt) :: s.codes[c]);
    assert Mirrored(kept);
    hide Mirrored, Tracked, Spent, Granted, Within;
    WithoutMirrors(kept, set t | t in s.access && now > s.access[t].expiresAt);
    CleanedWithin(s, now);
    WithinKeeps(Cleaned(s, now), s, trail);
  }

  /** Every operation keeps the invariant, given fresh codes and tokens. */
  lemma {:induction false} StepKeeps(s: Store, trail: Trail, digest: string -> string, op: Op)
    requires Inv(s, trail) && Fresh(trail, op)
    ensures var (s', response) := Next(s, digest, op);
      Inv(s', Follow(trail, op, response)) && response != Denied(TokenNotFound)
  {
    match op
    case Refresh(_, _, _, _, _, _) => RefreshInv(s, trail, digest, op);
    case Exchange(_, _, _, _, _, _, _, _) => ExchangeInv(s, trail, digest, op);
    case Authorize(_, _, _, _, _, _, _, _) => AuthorizeInv(s, trail, digest, op);
    case Cleanup(now) =>
      hide Inv, Cleaned;
      CleanupInv(s, trail, now);
      assert Follow(trail, op, Response.Done) == trail;
  }

  // ---- every run -----------------------------------------------------------------------------------

  function Run(s: Store, digest: string -> string, ops: seq<Op>): (Store, seq<Response>)
    decreases |ops|
  {
    if ops == [] then (s, [])
    else
      var (s', response) := Next(s, digest, ops[0]);
      var (end, responses) := Run(s', digest, ops[1..]);
      (end, [response] + responses)
  }

  ghost predicate AllFresh(trail: Trail, s: Store, digest: string -> string, ops: seq<Op>)
    decreases |ops|
  {
    ops == [] ||
    var (s', response) := Next(s, digest, ops[0]);
    Fresh(trail, ops[0]) && AllFresh(Follow(trail, ops[0], response), s', digest, ops[1..])
  }

  /** The trail a run leaves. */
  function TrailOf(trail: Trail, s: Store, digest: string -> string, ops: seq<Op>): Trail
    decreases |ops|
  {
    if ops == [] then trail
    else
      var (s', response) := Next(s, digest, ops[0]);
      TrailOf(Follow(trail, ops[0], response), s', digest, ops[1..])
  }

  lemma {:induction false} RunKeeps(s: Store, trail: Trail, digest: string -> string, ops: seq<Op>)
    requires Inv(s, trail) && AllFresh(trail, s, digest, ops)
    ensures Inv(Run(s, digest, ops).0, TrailOf(trail, s, digest, ops))
    ensures Denied(TokenNotFound) !in Run(s, digest, ops).1
    decreases |ops|
  {
    hide Inv, Next, Follow, Fresh;
    if ops != [] {
      StepKeeps(s, trail, digest, ops[0]);
      var (s', response) := Next(s, digest, ops[0]);
      RunKeeps(s', Follow(trail, ops[0], response), digest, ops[1..]);
    }
  }

  function Empty(clients: map<string, Client>): Store {
    Store(clients, map[], map[], map[])
  }

  /** Over any run, with cleanups anywhere: the two token maps mirror each other, no code
      and no refresh token ever yields tokens twice, every token carries a user and a
      scope that this user authorized for some client, and "token not found" is never
      answered. */
  lemma {:induction false} EveryRun(clients: map<string, Client>, digest: string -> string, ops: seq<Op>)
    requires AllFresh(Trail({}, [], {}), Empty(clients), digest, ops)
    ensures var (s, responses) := Run(Empty(clients), digest, ops);
      var trail := TrailOf(Trail({}, [], {}), Empty(clients), digest, ops);
      && Mirrored(s) && Denied(TokenNotFound) !in responses
      && (forall i, j | 0 <= i < j < |trail.redeemed| :: trail.redeemed[i] != trail.redeemed[j])
      && (forall a | a in s.access :: Authorized(trail.grants, s.access[a].user, s.access[a].scope))
  {
    hide Run, AllFresh, TrailOf;
    RunKeeps(Empty(clients), Trail({}, [], {}), digest, ops);
  }

  // ---- whose client a token names ------------------------------------------------------------

  /** Every token was authorized as it is: for its client, user and scope. */
  ghost predicate Owned(s: Store, trail: Trail) {
    forall a | a in s.access :: Grant(s.access[a].client, s.access[a].user, s.access[a].scope) in trail.grants
  }

  /** Where a refresh would succeed, its client was authorized by the user of the old token
      for the same scope. */
  ghost predicate Entitled(s: Store, trail: Trail, op: Op) {
    op.Refresh? && Authentic(s, op.client, op.secret) && op.token in s.refresh && s.refresh[op.token] in s.access ==>
      var old_ := s.access[s.refresh[op.token]];
      Grant(op.client, old_.user, old_.scope) in trail.grants
  }

  /** A refresh is presented by the client that the old token names. */
  ghost predicate PresentsOwn(s: Store, op: Op) {
    op.Refresh? && op.token in s.refresh && s.refresh[op.token] in s.access ==>
      op.client == s.access[s.refresh[op.token]].client
  }

  lemma {:induction false} GenerateOwned(s: Store, trail: Trail, client: string, user: string, scope: string,
                                         now: real, at: string, rt: string)
    requires Owned(s, trail)
    ensures Owned(Generate(s, client, user, scope, now, at, rt), trail) <==> Grant(client, user, scope) in trail.grants
  {
    var s' := Generate(s, client, user, scope, now, at, rt);
    assert s'.access[at].client == client;
  }

  /** One operation keeps tokens as authorized exactly when it is no refresh by a client
      that was not. */
  lemma {:induction false} OwnedStepIff(s: Store, trail: Trail, digest: string -> string, op: Op)
    requires Inv(s, trail) && Owned(s, trail)
    ensures var (s', response) := Next(s, digest, op);
      Owned(s', Follow(trail, op, response)) <==> Entitled(s, trail, op)
  {
    var (s', response) := Next(s, digest, op);
    if response.Issued? {
      hide Generate, Authentic;
      if op.Refresh? {
        var old_ := s.refresh[op.token];
        assert Owned(Revoke(s, old_), trail);
        GenerateOwned(Revoke(s, old_), trail, op.client, s.access[old_].user, s.access[old_].scope,
                      op.now, op.at, op.rt);
        assert Owned(s', trail) <==> Owned(s', Follow(trail, op, response));
      } else {
        var c := s.codes[op.code];
        var spent := s.(codes := s.codes[op.code := c.(used := true)]);
        GenerateOwned(spent, trail, op.client, c.user, c.scope, op.now, op.at, op.rt);
        assert Owned(s', trail) <==> Owned(s', Follow(trail, op, response));
      }
    }
  }

  /** At every moment of the run every token is as authorized. */
  ghost predicate OwnedThroughout(s: Store, trail: Trail, digest: string -> string, ops: seq<Op>)
    decreases |ops|
  {
    && Owned(s, trail)
    && (ops != [] ==>
          var (s', response) := Next(s, digest, ops[0]);
          OwnedThroughout(s', Follow(trail, ops[0], response), digest, ops[1..]))
  }

  ghost predicate AllEntitled(s: Store, trail: Trail, digest: string -> string, ops: seq<Op>)
    decreases |ops|
  {
    ops == [] ||
    var (s', response) := Next(s, digest, ops[0]);
    Entitled(s, trail, ops[0]) && AllEntitled(s', Follow(trail, ops[0], response), digest, ops[1..])
  }

  ghost predicate AllPresentOwn(s: Store, digest: string -> string, ops: seq<Op>)
    decreases |ops|
  {
    ops == [] || (PresentsOwn(s, ops[0]) && AllPresentOwn(Next(s, digest, ops[0]).0, digest, ops[1..]))
  }

  lemma {:induction false} OwnedRun(s: Store, trail: Trail, digest: string -> string, ops: seq<Op>)
    requires Inv(s, trail) && Owned(s, trail) && AllFresh(trail, s, digest, ops)
    ensures OwnedThroughout(s, trail, digest, ops) <==> AllEntitled(s, trail, digest, ops)
    decreases |ops|
  {
    hide Inv, Next, Follow, Fresh, Owned, Entitled;
    if ops != [] {
      var (s', response) := Next(s, digest, ops[0]);
      StepKeeps(s, trail, digest, ops[0]);
      OwnedStepIff(s, trail, digest, ops[0]);
      if Entitled(s, trail, ops[0]) { OwnedRun(s', Follow(trail, ops[0], response), digest, ops[1..]); }
    }
  }

  lemma {:induction false} OwnIsEntitled(s: Store, trail: Trail, digest: string -> string, ops: seq<Op>)
    requires Inv(s, trail) && Owned(s, trail) && AllFresh(trail, s, digest, ops) && AllPresentOwn(s, digest, ops)
    ensures AllEntitled(s, trail, digest, ops)
    decreases |ops|
  {
    hide Inv, Next, Follow, Fresh;
    if ops != [] {
      var (s', response) := Next(s, digest, ops[0]);
      StepKeeps(s, trail, digest, ops[0]);
      OwnedStepIff(s, trail, digest, ops[0]);
      hide Owned, Entitled;
      OwnIsEntitled(s', Follow(trail, ops[0], response), digest, ops[1..]);
    }
  }

  /** Over any run, every token is for a client, user and scope that were authorized
      together exactly when every refresh that succeeds is made by a client so authorized;
      in particular when clients only refresh their own tokens. */
  lemma {:induction false} ClientsHoldIff(clients: map<string, Client>, digest: string -> string, ops: seq<Op>)
    requires AllFresh(Trail({}, [], {}), Empty(clients), digest, ops)
    ensures var s, trail := Empty(clients), Trail({}, [], {});
      && (OwnedThroughout(s, trail, digest, ops) <==> AllEntitled(s, trail, digest, ops))
      && (AllPresentOwn(s, digest, ops) ==> OwnedThroughout(s, trail, digest, ops))
  {
    hide OwnedThroughout, AllEntitled, AllPresentOwn, AllFresh;
    var s, trail := Empty(clients), Trail({}, [], {});
    OwnedRun(s, trail, digest, ops);
    if AllPresentOwn(s, digest, ops) { OwnIsEntitled(s, trail, digest, ops); }
  }

  lemma {:induction false} ThreeOps(s: Store, trail: Trail, digest: string -> string, x: Op, y: Op, z: Op)
    ensures var (s1, r1) := Next(s, digest, x);
      var t1 := Follow(trail, x, r1);
      var (s2, r2) := Next(s1, digest, y);
      var t2 := Follow(t1, y, r2);
      var (s3, r3) := Next(s2, digest, z);
      var t3 := Follow(t2, z, r3);
      && Run(s, digest, [x, y, z]).0 == s3 && TrailOf(trail, s, digest, [x, y, z]) == t3
      && (Fresh(trail, x) && Fresh(t1, y) && Fresh(t2, z) ==> AllFresh(trail, s, digest, [x, y, z]))
      && (OwnedThroughout(s, trail, digest, [x, y, z]) ==> Owned(s3, t3))
  {
    hide Next, Follow, Fresh, Owned;
    var ops := [x, y, z];
    assert ops[1..] == [y, z] && [y, z][1..] == [z] && [z][1..] == [];
    var (s1, r1) := Next(s, digest, x);
    var t1 := Follow(trail, x, r1);
    var (s2, r2) := Next(s1, digest, y);
    var t2 := Follow(t1, y, r2);
    var (s3, r3) := Next(s2, digest, z);
    assert OwnedThroughout(s, trail, digest, ops) ==> OwnedThroughout(s1, t1, digest, [y, z]);
    assert OwnedThroughout(s1, t1, digest, [y, z]) ==> OwnedThroughout(s2, t2, digest, [z]);
    assert OwnedThroughout(s2, t2, digest, [z]) ==> OwnedThroughout(s3, Follow(t2, z, r3), digest, []);
    assert AllFresh(t2, s2, digest, [z]) <==> Fresh(t2, z);
    assert AllFresh(t1, s1, digest, [y, z]) <==> Fresh(t1, y) && AllFresh(t2, s2, digest, [z]);
    assert TrailOf(t2, s2, digest, [z]) == Follow(t2, z, r3);
    assert TrailOf(t1, s1, digest, [y, z]) == TrailOf(t2, s2, digest, [z]);
    assert Run(s2, digest, [z]).0 == s3;
    assert Run(s1, digest, [y, z]).0 == Run(s2, digest, [z]).0;
  }

  /** A user authorizes `a`, which redeems the code; then `b` refreshes. */
  function Handover(a: string, b: string, user: string, scope: string): (Op, Op, Op) {
    (Op.Authorize("c", a, user, "uri", scope, "v", false, 0.0),
     Op.Exchange("c", a, "", "v", "uri", 0.0, "a1", "r1"),
     Op.Refresh("r1", b, "", 0.0, "a2", "r2"))
  }

  /** A run in which the condition fails: what a user authorized for client `a` ends with
      client `b`, which nobody authorized. */
  lemma {:induction false} RefreshChangesClient(a: string, b: string, user: string, scope: string,
      digest: string -> string)
    requires a != b
    ensures var clients := map[a := Client("", false), b := Client("", false)];
      var (x, y, z) := Handover(a, b, user, scope);
      var s0, t0 := Empty(clients), Trail({}, [], {});
      var s := Run(s0, digest, [x, y, z]).0;
      && AllFresh(t0, s0, digest, [x, y, z])
      && "a2" in s.access && s.access["a2"] == Access(ACCESS_TTL, scope, b, user, "r2")
      && TrailOf(t0, s0, digest, [x, y, z]).grants == {Grant(a, user, scope)}
      && !OwnedThroughout(s0, t0, digest, [x, y, z])
  {
    var clients := map[a := Client("", false), b := Client("", false)];
    var (x, y, z) := Handover(a, b, user, scope);
    var s0, t0 := Empty(clients), Trail({}, [], {});
    ThreeOps(s0, t0, digest, x, y, z);
    hide Run, TrailOf, AllFresh, OwnedThroughout;
    HandoverStores(a, b, user, scope, digest);
    assert Follow(t0, x, Done) == Trail({"c"}, [], {Grant(a, user, scope)});
    var t2 := Follow(Follow(t0, x, Done), y, Issued("a1", "r1", scope));
    assert t2.issued == {"c", "a1", "r1"} && t2.grants == {Grant(a, user, scope)};
    hide Next;
  }

  /** The stores of that run. */
  lemma {:induction false} HandoverStores(a: string, b: string, user: string, scope: string, digest: string -> string)
    requires a != b
    ensures var clients := map[a := Client("", false), b := Client("", false)];
      var (x, y, z) := Handover(a, b, user, scope);
      var (s1, r1) := Next(Empty(clients), digest, x);
      var (s2, r2) := Next(s1, digest, y);
      var (s3, r3) := Next(s2, digest, z);
      && r1 == Done && r2 == Issued("a1", "r1", scope) && r3 == Issued("a2", "r2", scope)
      && "a2" in s3.access && s3.access["a2"] == Access(ACCESS_TTL, scope, b, user, "r2")
  {
    var clients := map[a := Client("", false), b := Client("", false)];
    var (x, y, z) := Handover(a, b, user, scope);
    var (s1, r1) := Next(Empty(clients), digest, x);
    assert s1 == Store(clients, map["c" := Code(a, user, "uri", scope, "v", false, CODE_TTL, false)], map[], map[]);
    var (s2, r2) := Next(s1, digest, y);
    assert s2.access == map["a1" := Access(ACCESS_TTL, scope, a, user, "r1")] && s2.refresh == map["r1" := "a1"];
  }

  // ---- one refresh, looked at closely -----------------------------------------------------------------

  /** A refresh succeeds exactly for an authentic client and a token on record. The old
      access token stops validating at once, the old refresh token is gone, and the new
      pair carries the same user and scope, but the client that asked. */
  lemma {:induction false} RefreshRotates(s: Store, digest: string -> string, op: Op)
    requires Mirrored(s) && op.Refresh? && op.at !in s.access && op.at != ""
      && op.rt !in s.refresh && op.rt != op.token
    ensures var (s', response) := Next(s, digest, op);
      && (response.Issued? <==> Authentic(s, op.client, op.secret) && op.token in s.refresh)
      && (!response.Issued? ==> s' == s)
      && (response.Issued? ==>
            var old_ := s.refresh[op.token];
            && old_ !in s'.access && op.token !in s'.refresh
            && s'.access[op.at]
                 == Access(op.now + ACCESS_TTL, s.access[old_].scope, op.client, s.access[old_].user, op.rt)
            && s'.refresh[op.rt] == op.at
            && (forall a | a in s.access && a != old_ :: a in s'.access && s'.access[a] == s.access[a]))
  {
    hide Authentic;
  }

  /** An exchange succeeds exactly for an authentic client with a known code that is
      unused, unexpired, its own, for the same redirect and with the right verifier. The
      new tokens carry the code's client, user and scope, and no exchange of that code succeeds
      afterwards, whoever asks and whenever. */
  lemma {:induction false} ExchangeOnce(s: Store, digest: string -> string, op: Op, again: Op)
    requires op.Exchange? && again.Exchange? && again.code == op.code
    ensures var (s', response) := Next(s, digest, op);
      && (response.Issued? <==>
            && Authentic(s, op.client, op.secret) && op.code in s.codes
            && var c := s.codes[op.code];
            && !c.used && op.now <= c.expiresAt && c.client == op.client && c.uri == op.uri
            && c.challenge == (if c.hashed then digest(op.verifier) else op.verifier))
      && (!response.Issued? ==> s' == s)
      && (response.Issued? ==>
            && var c := s.codes[op.code];
            && s'.access[op.at] == Access(op.now + ACCESS_TTL, c.scope, c.client, c.user, op.rt)
            && s'.refresh[op.rt] == op.at && !Next(s', digest, again).1.Issued?)
  {
    hide Authentic;
  }

  /** Why an exchange is refused: the first of the checks that fails. */
  lemma {:induction false} RefusalsExact(s: Store, digest: string -> string, op: Op)
    requires op.Exchange?
    ensures var response := Next(s, digest, op).1;
      var genuine := op.client in s.clients
        && (s.clients[op.client].confidential ==> s.clients[op.client].secret == op.secret);
      && (response == Denied(InvalidClient) <==> !genuine)
      && (response == Denied(InvalidCode) <==> genuine && op.code !in s.codes)
      && (genuine && op.code in s.codes ==>
            var c := s.codes[op.code];
            var timely := !c.used && op.now <= c.expiresAt;
            && (response == Denied(AlreadyUsed) <==> c.used)
            && (response == Denied(CodeExpired) <==> !c.used && op.now > c.expiresAt)
            && (response == Denied(ClientMismatch) <==> timely && c.client != op.client)
            && (response == Denied(RedirectMismatch) <==> timely && c.client == op.client && c.uri != op.uri)
            && var proof := if c.hashed then digest(op.verifier) else op.verifier;
            response == Denied(PkceFailed) <==>
              (timely && c.client == op.client && c.uri == op.uri && c.challenge != proof))
  {
    hide Generate;
  }

  /** A code lives ten minutes: given at `now`, it can be redeemed by its client, for its
      redirect and with the right verifier, up to 600 seconds later and not after. */
  lemma {:induction false} CodeLives(s: Store, digest: string -> string, given: Op, op: Op)
    requires given.Authorize? && op.Exchange? && op.code == given.code && op.client == given.client
    requires op.uri == given.uri && Authentic(s, op.client, op.secret)
    requires given.challenge == if given.hashed then digest(op.verifier) else op.verifier
    ensures var (s', response) := Next(Next(s, digest, given).0, digest, op);
      && (response.Issued? <==> op.now <= given.now + 600.0)
      && (response.Issued? ==>
            && response == Issued(op.at, op.rt, given.scope)
            && s'.access[op.at] == Access(op.now + 3600.0, given.scope, given.client, given.user, op.rt))
  {
    hide Generate;
    GenerateLooks(s, given.client, given.user, given.scope, op);
  }

  lemma GenerateLooks(s: Store, client: string, user: string, scope: string, op: Op)
    requires op.Exchange?
    ensures forall t: Store ::
      Generate(t, client, user, scope, op.now, op.at, op.rt).access[op.at]
        == Access(op.now + 3600.0, scope, client, user, op.rt)
  {
  }

  predicate Active(s: Store, token: string, now: real) {
    token in s.access && now <= s.access[token].expiresAt
  }

  /** Cleaning up is invisible to validation and removes exactly what had expired; the
      refresh tokens of expired access tokens go with them. */
  lemma {:induction false} CleanupExact(s: Store, now: real, token: string, later: real)
    requires Mirrored(s) && now <= later
    ensures Active(Cleaned(s, now), token, later) <==> Active(s, token, later)
    ensures token in Cleaned(s, now).access <==> Active(s, token, now)
    ensures token in Cleaned(s, now).codes <==> token in s.codes && now <= s.codes[token].expiresAt
    ensures token in Cleaned(s, now).refresh <==> token in s.refresh && Active(s, s.refresh[token], now)
  {
  }

  /** A token validates as long as it is on record and for an hour from its issue. */
  lemma {:induction false} TokenLives(s: Store, client: string, user: string, scope: string, issued: real,
      at: string, rt: string, now: real)
    ensures Active(Generate(s, client, user, scope, issued, at, rt), at, now) <==> now <= issued + 3600.0
  {
  }

  // ---- how long a refresh token lives --------------------------------------------------------------

  /** A cleanup read a clock past `expiry`. */
  predicate Sweeps(op: Op, expiry: real) {
    op.Cleanup? && op.now > expiry
  }

  ghost predicate AnySweeps(ops: seq<Op>, expiry: real) {
    exists i | 0 <= i < |ops| :: Sweeps(ops[i], expiry)
  }

  /** When the access token of a refresh token on record expires. */
  function Expiry(s: Store, token: string): real
    requires Mirrored(s) && token in s.refresh
  {
    s.access[s.refresh[token]].expiresAt
  }

  lemma {:induction false} RevokeOther(s: Store, at: string, token: string)
    requires Mirrored(s) && token in s.refresh && s.refresh[token] != at
    ensures var s' := Revoke(s, at);
      token in s'.refresh && s'.refresh[token] == s.refresh[token] && s.refresh[token] in s'.access
      && s'.access[s.refresh[token]] == s.access[s.refresh[token]]
  {
  }

  /** One operation takes an unredeemed refresh token off the record exactly when it sweeps
      past its access token; otherwise both stay as they were. */
  lemma {:induction false} StepOnRecord(s: Store, trail: Trail, digest: string -> string, op: Op, token: string)
    requires Inv(s, trail) && Fresh(trail, op) && token in s.refresh
    ensures var (s', response) := Next(s, digest, op);
      var spent := response.Issued? && Credential(op) == token;
      && Mirrored(s')
      && (token in s'.refresh <==> !spent && !Sweeps(op, Expiry(s, token)))
      && (token in s'.refresh ==> Expiry(s', token) == Expiry(s, token))
      && token in Follow(trail, op, response).issued
  {
    StepKeeps(s, trail, digest, op);
    match op
    case Refresh(presented, client, secret, now, at, rt) =>
      hide Authentic;
      if Next(s, digest, op).1.Issued? {
        assert at in Brought(op) && rt in Brought(op);
        if presented != token { RevokeOther(s, s.refresh[presented], token); }
      }
    case Exchange(code, client, secret, verifier, uri, now, at, rt) =>
      hide Authentic, Redeemable;
      assert at in Brought(op) && rt in Brought(op);
    case Authorize(_, _, _, _, _, _, _, _) =>
    case Cleanup(now) => CleanupExact(s, now, token, now);
  }

  /** A string issued before and not on record does not come back. */
  lemma {:induction false} GoneForGood(s: Store, trail: Trail, digest: string -> string, ops: seq<Op>, token: string)
    requires Inv(s, trail) && AllFresh(trail, s, digest, ops) && token in trail.issued && token !in s.refresh
    ensures token !in Run(s, digest, ops).0.refresh
    decreases |ops|
  {
    if ops != [] {
      StepKeeps(s, trail, digest, ops[0]);
      StaysGone(s, trail, digest, ops[0], token);
      hide Inv, Next, Follow, Fresh;
      var (s', response) := Next(s, digest, ops[0]);
      GoneForGood(s', Follow(trail, ops[0], response), digest, ops[1..], token);
    }
  }

  lemma {:induction false} StaysGone(s: Store, trail: Trail, digest: string -> string, op: Op, token: string)
    requires Fresh(trail, op) && token in trail.issued && token !in s.refresh
    ensures var (s', response) := Next(s, digest, op);
      token !in s'.refresh && token in Follow(trail, op, response).issued
  {
    hide Authentic, Redeemable, RefreshesOf;
    if op.Exchange? || op.Refresh? { assert op.rt in Brought(op); }
  }

  lemma {:induction false} RedeemedGrows(s: Store, trail: Trail, digest: string -> string, ops: seq<Op>, token: string)
    requires token in trail.redeemed
    ensures token in TrailOf(trail, s, digest, ops).redeemed
    decreases |ops|
  {
    hide Next;
    if ops != [] {
      var (s', response) := Next(s, digest, ops[0]);
      RedeemedGrows(s', Follow(trail, ops[0], response), digest, ops[1..], token);
    }
  }

  /** Over any run from any reachable state: a refresh token on record at the start is on
      record at the end exactly when it was not redeemed and no cleanup read a clock past
      its access token's expiry. */
  lemma {:induction false} OnRecordIff(s: Store, trail: Trail, digest: string -> string, ops: seq<Op>, token: string)
    requires Inv(s, trail) && AllFresh(trail, s, digest, ops) && token in s.refresh
    ensures token in Run(s, digest, ops).0.refresh
      <==> token !in TrailOf(trail, s, digest, ops).redeemed && !AnySweeps(ops, Expiry(s, token))
    decreases |ops|
  {
    hide Next, Follow, Fresh, Sweeps;
    if ops == [] {
      assert token !in trail.redeemed;
    } else {
      var op := ops[0];
      var (s', response) := Next(s, digest, op);
      var trail' := Follow(trail, op, response);
      StepKeeps(s, trail, digest, op);
      StepOnRecord(s, trail, digest, op, token);
      SweepsSplit(ops, Expiry(s, token));
      if token in s'.refresh {
        OnRecordIff(s', trail', digest, ops[1..], token);
      } else {
        GoneForGood(s', trail', digest, ops[1..], token);
        if response.Issued? && Credential(op) == token {
          RedeemedAtOnce(trail, op, response);
          RedeemedGrows(s', trail', digest, ops[1..], token);
        }
      }
    }
  }

  lemma {:induction false} RedeemedAtOnce(trail: Trail, op: Op, response: Response)
    requires response.Issued?
    ensures Credential(op) in Follow(trail, op, response).redeemed
  {
    var redeemed := Follow(trail, op, response).redeemed;
    assert redeemed[|redeemed| - 1] == Credential(op);
  }

  lemma {:induction false} SweepsSplit(ops: seq<Op>, expiry: real)
    requires ops != []
    ensures AnySweeps(ops, expiry) <==> Sweeps(ops[0], expiry) || AnySweeps(ops[1..], expiry)
  {
    hide Sweeps;
    if AnySweeps(ops[1..], expiry) {
      var i :| 0 <= i < |ops[1..]| && Sweeps(ops[1..][i], expiry);
      assert Sweeps(ops[i + 1], expiry);
    }
    if AnySweeps(ops, expiry) && !Sweeps(ops[0], expiry) {
      var i :| 0 <= i < |ops| && Sweeps(ops[i], expiry);
      assert Sweeps(ops[1..][i - 1], expiry);
    }
  }

  /** So a refresh token issued at `op.now` and not redeemed lives until the first cleanup
      that runs more than an hour later, and without one it has no end. */
  lemma {:induction false} RefreshLivesWithAccess(s: Store, trail: Trail, digest: string -> string, op: Op,
      ops: seq<Op>)
    requires Inv(s, trail) && Fresh(trail, op) && (op.Exchange? || op.Refresh?)
    requires var (s', response) := Next(s, digest, op); AllFresh(Follow(trail, op, response), s', digest, ops)
    ensures var (s', response) := Next(s, digest, op);
      response.Issued? ==>
        (op.rt in Run(s', digest, ops).0.refresh
         <==> op.rt !in TrailOf(Follow(trail, op, response), s', digest, ops).redeemed
              && !AnySweeps(ops, op.now + 3600.0))
  {
    var (s', response) := Next(s, digest, op);
    if response.Issued? {
      StepKeeps(s, trail, digest, op);
      assert s'.refresh[op.rt] == op.at && s'.access[op.at].expiresAt == op.now + ACCESS_TTL by { hide Authentic; }
      hide Next, Follow, AllFresh, Run, TrailOf, AnySweeps;
      OnRecordIff(s', Follow(trail, op, response), digest, ops, op.rt);
    }
  }

  // ---- the provider object ---------------------------------------------------------------------------

  class OAuthProvider {
    var clients: map<string, Client>
    var codes: map<string, Code>
    var access: map<string, Access>
    var refresh: map<string, string>
    const digest: string -> string

    ghost function Abs(): Store
      reads this
    {
      Store(clients, codes, access, refresh)
    }

    constructor (clients: map<string, Client>, digest: string -> string)
      ensures Abs() == Empty(clients) && this.digest == digest
    {
      this.clients, this.digest := clients, digest;
      codes, access, refresh := map[], map[], map[];
    }

    method Authorize(code: string, client: string, user: string, uri: string, scope: string,
                     challenge: string, hashed: bool, now: real)
      modifies this
      ensures Abs() == Next(old(Abs()), digest, Op.Authorize(code, client, user, uri, scope, challenge, hashed, now)).0
    {
      codes := codes[code := Code(client, user, uri, scope, challenge, hashed, now + CODE_TTL, false)];
    }

    method GenerateTokens(client: string, user: string, scope: string, now: real, at: string, rt: string)
      returns (response: Response)
      modifies this
      ensures Abs() == Generate(old(Abs()), client, user, scope, now, at, rt) && response == Issued(at, rt, scope)
    {
      access := access[at := Access(now + ACCESS_TTL, scope, client, user, rt)];
      refresh := refresh[rt := at];
      response := Issued(at, rt, scope);
    }

    method ExchangeCode(code: string, client: string, secret: string, verifier: string, uri: string,
                        now: real, at: string, rt: string)
      returns (response: Response)
      modifies this
      ensures (Abs(), response)
        == Next(old(Abs()), digest, Op.Exchange(code, client, secret, verifier, uri, now, at, rt))
    {
      hide Generate;
      if client !in clients { return Denied(InvalidClient); }
      if clients[client].confidential && clients[client].secret != secret { return Denied(InvalidClient); }
      if code !in codes { return Denied(InvalidCode); }
      var c := codes[code];
      if c.used { return Denied(AlreadyUsed); }
      if now > c.expiresAt { return Denied(CodeExpired); }
      if c.client != client { return Denied(ClientMismatch); }
      if c.uri != uri { return Denied(RedirectMismatch); }
      if c.hashed {
        if digest(verifier) != c.challenge { return Denied(PkceFailed); }
      } else {
        if verifier != c.challenge { return Denied(PkceFailed); }
      }
      codes := codes[code := c.(used := true)];
      response := GenerateTokens(client, c.user, c.scope, now, at, rt);
    }

    method RefreshAccessToken(token: string, client: string, secret: string, now: real, at: string, rt: string)
      returns (response: Response)
      modifies this
      ensures (Abs(), response) == Next(old(Abs()), digest, Op.Refresh(token, client, secret, now, at, rt))
    {
      hide Generate, Revoke;
      if client !in clients { return Denied(InvalidClient); }
      if clients[client].confidential && clients[client].secret != secret { return Denied(InvalidClient); }
      if token !in refresh || refresh[token] == "" { return Denied(InvalidRefresh); }
      var oldAccess := refresh[token];
      if oldAccess !in access { return Denied(TokenNotFound); }
      var oldToken := access[oldAccess];
      RevokeToken(oldAccess);
      response := GenerateTokens(client, oldToken.user, oldToken.scope, now, at, rt);
    }

    method RevokeToken(at: string)
      modifies this
      ensures Abs() == Revoke(old(Abs()), at)
    {
      if at !in access { return; }
      var token := access[at];
      access := access - {at};
      if token.refresh != "" { refresh := refresh - {token.refresh}; }
    }

    method ValidateToken(token: string, now: real) returns (active: bool)
      ensures active == Active(Abs(), token, now)
    {
      if token !in access { return false; }
      return !(now > access[token].expiresAt);
    }

    method CleanupExpired(now: real)
      modifies this
      ensures Abs() == Cleaned(old(Abs()), now)
    {
      codes := map c | c in codes && !(now > codes[c].expiresAt) :: codes[c];
      ghost var kept := Abs();
      var todo := set t | t in access && now > access[t].expiresAt;
      ghost var all := todo;
      ghost var done := {};
      NothingGone(kept);
      while todo != {}
        invariant done + todo == all && done !! todo
        invariant Abs() == WithoutTokens(kept, done)
        decreases todo
      {
        var t :| t in todo;
        OneMore(kept, done, t);
        RevokeToken(t);
        todo := todo - {t};
        done := done + {t};
      }
      assert done == all;
    }
  }

  lemma {:induction false} NothingGone(s: Store)
    ensures WithoutTokens(s, {}) == s
  {
    assert s.access - {} == s.access;
    assert WithoutTokens(s, {}).refresh == s.refresh;
  }

  /** Revoking token by token takes away what revoking them together does. */
  lemma {:induction false} OneMore(s: Store, tokens: set<string>, t: string)
    requires t in s.access && t !in tokens
    ensures Revoke(WithoutTokens(s, tokens), t) == WithoutTokens(s, tokens + {t})
  {
    var a, b := Revoke(WithoutTokens(s, tokens), t), WithoutTokens(s, tokens + {t});
    assert a.access == b.access;
    assert a.refresh == b.refresh;
  }
}
