/** Referral relationships, their tier indexes, and the 24-hour installation reward. */
module ReferralTree {
  import opened Wrappers
  import opened RedisSets

  datatype Status = PENDING | COMPLETED

  // `depth` records the tier depth that was configured when the relationship was made.
  datatype Relationship = Relationship(chain: seq<string>, status: Status, claimed: bool, depth: int)

  datatype Client = Client(totalReferral: nat, uptimeMs: nat)

  datatype Install = Install(referrer: string, referee: string)

  datatype State = State(
    clients: map<string, Client>, codes: map<string, string>, relationships: map<string, Relationship>,
    tierIndex: map<(int, string), set<string>>, pending24h: set<string>, installs: seq<Install>)

  const EMPTY := State(map[], map[], map[], map[], {}, [])

  // The blockchain call comes after the reward is stored; a thrown error hides it from the caller.
  datatype Chain = Sent | Refused | Thrown

  datatype Op =
    | CreateClient(user: string, code: string)
    | Register(user: string, code: string, maxDepth: int)
    | AddUptime(user: string, ms: nat)
    | Check24h(user: string, requiredHours: nat, chain: Chain)

  // ---------------------------------------------------------------- steps

  // validateReferralCode: the code's owner, if it is a client.
  function Owner(s: State, code: string): Option<string> {
    if code in s.codes && s.codes[code] != "" && s.codes[code] in s.clients then Some(s.codes[code]) else None
  }

  function Parent(rels: map<string, Relationship>, user: string): Option<string> {
    if user in rels && rels[user].chain != [] && rels[user].chain[0] != "" then Some(rels[user].chain[0]) else None
  }

  // At most n ancestors, nearest first.
  function Climb(rels: map<string, Relationship>, user: string, n: nat): seq<string>
    decreases n
  {
    if n == 0 || Parent(rels, user) == None then []
    else [Parent(rels, user).value] + Climb(rels, Parent(rels, user).value, n - 1)
  }

  function BuildChain(rels: map<string, Relationship>, l1: string, maxDepth: int): seq<string> {
    [l1] + Climb(rels, l1, if maxDepth < 1 then 0 else maxDepth - 1)
  }

  function IndexChain(index: map<(int, string), set<string>>, chain: seq<string>, user: string)
    : map<(int, string), set<string>>
  {
    if chain == [] then index
    else SAdd(IndexChain(index, chain[..|chain| - 1], user), (|chain|, chain[|chain| - 1]), user)
  }

  function StepCreate(s: State, user: string, code: string): State {
    if user in s.clients then s
    else s.(clients := s.clients[user := Client(0, 0)], codes := s.codes[code := user])
  }

  function StepRegister(s: State, user: string, code: string, maxDepth: int): State {
    match Owner(s, code)
    case None => s
    case Some(l1) =>
      if user in s.relationships then s
      else
        var chain := BuildChain(s.relationships, l1, maxDepth);
        s.(relationships := s.relationships[user := Relationship(chain, PENDING, false, maxDepth)],
           tierIndex := IndexChain(s.tierIndex, chain, user),
           pending24h := s.pending24h + {user},
           clients := s.clients[l1 := s.clients[l1].(totalReferral := s.clients[l1].totalReferral + 1)])
  }

  function StepCheck24h(s: State, user: string, requiredHours: nat, chain: Chain): State {
    if user !in s.relationships then s
    else
      var r := s.relationships[user];
      if r.status == COMPLETED || user !in s.clients then s
      else if s.clients[user].uptimeMs < (if requiredHours == 0 then 24 else requiredHours) * 3600000 then s
      else
        var done := s.(relationships := s.relationships[user := r.(status := COMPLETED)],
                       pending24h := s.pending24h - {user});
        if r.chain == [] || r.chain[0] == "" || r.claimed then done
        else
          var paid := done.(installs := s.installs + [Install(r.chain[0], user)]);
          if chain == Thrown then paid
          else paid.(relationships := s.relationships[user := r.(status := COMPLETED, claimed := true)])
  }

  function Apply(s: State, op: Op): State {
    match op
    case CreateClient(user, code) => StepCreate(s, user, code)
    case Register(user, code, maxDepth) => StepRegister(s, user, code, maxDepth)
    case AddUptime(user, ms) =>
      if user in s.clients
      then s.(clients := s.clients[user := s.clients[user].(uptimeMs := s.clients[user].uptimeMs + ms)]) else s
    case Check24h(user, requiredHours, chain) => StepCheck24h(s, user, requiredHours, chain)
  }

  function Run(s: State, ops: seq<Op>): State
    decreases |ops|
  {
    if ops == [] then s else Run(Apply(s, ops[0]), ops[1..])
  }

  // ---------------------------------------------------------------- chains

  // The stored chain is where the walk up from the user leads today.
  ghost predicate ChainOk(rels: map<string, Relationship>, user: string)
    requires user in rels
  {
    var r := rels[user];
    && 0 < |r.chain| <= (if r.depth < 1 then 1 else r.depth)
    && (forall i :: 0 <= i < |r.chain| ==> r.chain[i] != "")
    && r.chain == Climb(rels, user, |r.chain|)
  }

  // Parents are never taken away or replaced.
  ghost predicate Extends(rels: map<string, Relationship>, rels': map<string, Relationship>) {
    forall u :: Parent(rels, u).Some? ==> Parent(rels', u) == Parent(rels, u)
  }

  lemma {:induction false} ClimbExtends(rels: map<string, Relationship>, rels': map<string, Relationship>, u: string, n: nat)
    requires Extends(rels, rels')
    ensures |Climb(rels, u, n)| <= |Climb(rels', u, n)| <= n
    ensures Climb(rels', u, n)[..|Climb(rels, u, n)|] == Climb(rels, u, n)
    decreases n
  {
    if n > 0 && Parent(rels, u).Some? {
      ClimbExtends(rels, rels', Parent(rels, u).value, n - 1);
    } else if n > 0 && Parent(rels', u).Some? {
      ClimbExtends(rels', rels', Parent(rels', u).value, n - 1);
    }
  }

  lemma {:induction false} ClimbTruncates(rels: map<string, Relationship>, u: string, n: nat)
    ensures Climb(rels, u, |Climb(rels, u, n)|) == Climb(rels, u, n)
    ensures forall i :: 0 <= i < |Climb(rels, u, n)| ==> Climb(rels, u, n)[i] != ""
    ensures |Climb(rels, u, n)| <= n
    decreases n
  {
    if n > 0 && Parent(rels, u).Some? {
      ClimbTruncates(rels, Parent(rels, u).value, n - 1);
    }
  }

  lemma ChainStaysOk(rels: map<string, Relationship>, rels': map<string, Relationship>, u: string)
    requires u in rels && ChainOk(rels, u) && u in rels' && Extends(rels, rels')
    requires rels'[u].chain == rels[u].chain && rels'[u].depth == rels[u].depth
    ensures ChainOk(rels', u)
  {
    ClimbExtends(rels, rels', u, |rels[u].chain|);
  }

  // A chain built at registration fits, whatever cycle the new edge may close.
  lemma NewChainIsOk(rels: map<string, Relationship>, u: string, l1: string, maxDepth: int, r: Relationship)
    requires u !in rels && l1 != "" && r.chain == BuildChain(rels, l1, maxDepth) && r.depth == maxDepth
    ensures ChainOk(rels[u := r], u) && Extends(rels, rels[u := r])
  {
    var rels' := rels[u := r];
    var n := if maxDepth < 1 then 0 else maxDepth - 1;
    ClimbTruncates(rels, l1, n);
    var above := Climb(rels, l1, n);
    ClimbExtends(rels, rels', l1, |above|);
    assert Climb(rels', u, |r.chain|) == [l1] + Climb(rels', l1, |above|);
  }

  // l1 and its ancestors, each the parent of the one before, as far up as the depth allows
  // or there are any.
  ghost predicate AncestorsUpTo(rels: map<string, Relationship>, chain: seq<string>, l1: string, maxDepth: int) {
    && 0 < |chain| <= (if maxDepth < 1 then 1 else maxDepth) && chain[0] == l1
    && (forall i :: 0 <= i < |chain| - 1 ==> Parent(rels, chain[i]) == Some(chain[i + 1]))
    && (|chain| < maxDepth ==> Parent(rels, chain[|chain| - 1]) == None)
  }

  lemma {:induction false} ClimbIsAncestors(rels: map<string, Relationship>, u: string, n: nat)
    ensures AncestorsUpTo(rels, [u] + Climb(rels, u, n), u, n + 1)
    decreases n
  {
    if n > 0 && Parent(rels, u).Some? {
      var p := Parent(rels, u).value;
      ClimbIsAncestors(rels, p, n - 1);
      var above := [p] + Climb(rels, p, n - 1);
      assert [u] + Climb(rels, u, n) == [u] + above;
      forall i | 0 <= i < |above| ensures Parent(rels, ([u] + above)[i]) == Some(([u] + above)[i + 1]) {
        if 0 < i {
          assert Parent(rels, above[i - 1]) == Some(above[i]);
        }
      }
    }
  }

  lemma BuildsAncestors(rels: map<string, Relationship>, l1: string, maxDepth: int)
    ensures AncestorsUpTo(rels, BuildChain(rels, l1, maxDepth), l1, maxDepth)
  {
    ClimbIsAncestors(rels, l1, if maxDepth < 1 then 0 else maxDepth - 1);
  }

  // ---------------------------------------------------------------- indexes

  lemma {:induction false} IndexChainMembers(index: map<(int, string), set<string>>, chain: seq<string>, user: string,
                                             tier: int, r: string)
    ensures Members(IndexChain(index, chain, user), (tier, r)) ==
            Members(index, (tier, r)) + (if 1 <= tier <= |chain| && chain[tier - 1] == r then {user} else {})
  {
    if chain != [] {
      IndexChainMembers(index, chain[..|chain| - 1], user, tier, r);
    }
  }

  ghost predicate TierOf(rels: map<string, Relationship>, u: string, tier: int, r: string) {
    u in rels && 1 <= tier <= |rels[u].chain| && rels[u].chain[tier - 1] == r
  }

  ghost predicate TiersOk(rels: map<string, Relationship>, index: map<(int, string), set<string>>) {
    forall tier, r, u :: u in Members(index, (tier, r)) <==> TierOf(rels, u, tier, r)
  }

  ghost predicate CountsOk(clients: map<string, Client>, index: map<(int, string), set<string>>) {
    && (forall r :: r in clients ==> clients[r].totalReferral == |Members(index, (1, r))|)
    && (forall r :: r !in clients ==> Members(index, (1, r)) == {})
  }

  // ---------------------------------------------------------------- installation rewards

  ghost function RewardsFor(installs: seq<Install>, referee: string): nat {
    if installs == [] then 0
    else RewardsFor(installs[..|installs| - 1], referee)
         + (if installs[|installs| - 1].referee == referee then 1 else 0)
  }

  ghost predicate InstallOk(rels: map<string, Relationship>, pending: set<string>, installs: seq<Install>) {
    && (forall u :: u in pending <==> u in rels && rels[u].status == PENDING)
    && (forall u :: RewardsFor(installs, u) == if u in rels && rels[u].status == COMPLETED then 1 else 0)
    && (forall u :: u in rels && rels[u].claimed ==> rels[u].status == COMPLETED)
    && (forall i :: 0 <= i < |installs| ==> Parent(rels, installs[i].referee) == Some(installs[i].referrer))
  }

  ghost predicate ChainsOk(rels: map<string, Relationship>, clients: map<string, Client>) {
    forall u :: u in rels ==> ChainOk(rels, u) && rels[u].chain != [] && rels[u].chain[0] in clients
  }

  ghost predicate Inv(s: State) {
    && ChainsOk(s.relationships, s.clients)
    && TiersOk(s.relationships, s.tierIndex)
    && CountsOk(s.clients, s.tierIndex)
    && InstallOk(s.relationships, s.pending24h, s.installs)
  }

  // ---------------------------------------------------------------- preservation

  // The effect of one registration, part by part.

  lemma NewRelationshipChains(rels: map<string, Relationship>, clients: map<string, Client>, user: string, l1: string,
                              maxDepth: int, r: Relationship)
    requires ChainsOk(rels, clients) && user !in rels && l1 != "" && l1 in clients
    requires r.chain == BuildChain(rels, l1, maxDepth) && r.depth == maxDepth
    ensures ChainsOk(rels[user := r], clients)
  {
    NewChainIsOk(rels, user, l1, maxDepth, r);
    var rels' := rels[user := r];
    forall u | u in rels' ensures ChainOk(rels', u) {
      if u != user {
        ChainStaysOk(rels, rels', u);
      }
    }
  }

  lemma NewRelationshipTiers(rels: map<string, Relationship>, index: map<(int, string), set<string>>, user: string,
                             r: Relationship)
    requires TiersOk(rels, index) && user !in rels
    ensures TiersOk(rels[user := r], IndexChain(index, r.chain, user))
  {
    var index' := IndexChain(index, r.chain, user);
    forall tier, v, u ensures u in Members(index', (tier, v)) <==> TierOf(rels[user := r], u, tier, v) {
      IndexChainMembers(index, r.chain, user, tier, v);
      assert u in Members(index, (tier, v)) <==> TierOf(rels, u, tier, v);
    }
  }

  lemma NewRelationshipCounts(rels: map<string, Relationship>, clients: map<string, Client>,
                              index: map<(int, string), set<string>>, user: string, l1: string, chain: seq<string>)
    requires TiersOk(rels, index) && CountsOk(clients, index)
    requires user !in rels && l1 in clients && chain != [] && chain[0] == l1
    ensures CountsOk(clients[l1 := clients[l1].(totalReferral := clients[l1].totalReferral + 1)],
                     IndexChain(index, chain, user))
  {
    var index' := IndexChain(index, chain, user);
    forall r ensures Members(index', (1, r)) == Members(index, (1, r)) + (if r == l1 then {user} else {}) {
      IndexChainMembers(index, chain, user, 1, r);
    }
    assert !TierOf(rels, user, 1, l1);
    assert user !in Members(index, (1, l1));
  }

  lemma NewRelationshipInstalls(rels: map<string, Relationship>, pending: set<string>, installs: seq<Install>,
                                user: string, r: Relationship)
    requires InstallOk(rels, pending, installs) && user !in rels && r.status == PENDING && !r.claimed
    ensures InstallOk(rels[user := r], pending + {user}, installs)
  {
    forall i | 0 <= i < |installs|
      ensures Parent(rels[user := r], installs[i].referee) == Some(installs[i].referrer)
    {
      assert Parent(rels, installs[i].referee).Some?;
    }
  }

  lemma RegisterKeepsInv(s: State, user: string, code: string, maxDepth: int)
    requires Inv(s)
    ensures Inv(StepRegister(s, user, code, maxDepth))
  {
    var s' := StepRegister(s, user, code, maxDepth);
    if Owner(s, code).Some? && user !in s.relationships {
      var l1, r := Owner(s, code).value, s'.relationships[user];
      NewRelationshipChains(s.relationships, s.clients, user, l1, maxDepth, r);
      NewRelationshipTiers(s.relationships, s.tierIndex, user, r);
      NewRelationshipCounts(s.relationships, s.clients, s.tierIndex, user, l1, r.chain);
      NewRelationshipInstalls(s.relationships, s.pending24h, s.installs, user, r);
    }
  }

  // The effect of completing the first 24 hours.

  lemma SameChainsKeepTree(rels: map<string, Relationship>, clients: map<string, Client>,
                           index: map<(int, string), set<string>>, user: string, r: Relationship)
    requires ChainsOk(rels, clients) && TiersOk(rels, index)
    requires user in rels && r.chain == rels[user].chain && r.depth == rels[user].depth
    ensures ChainsOk(rels[user := r], clients) && TiersOk(rels[user := r], index)
  {
    var rels' := rels[user := r];
    forall u | u in rels' ensures ChainOk(rels', u) {
      ChainStaysOk(rels, rels', u);
    }
    forall tier, v, u ensures u in Members(index, (tier, v)) <==> TierOf(rels', u, tier, v) {
      assert TierOf(rels', u, tier, v) <==> TierOf(rels, u, tier, v);
    }
  }

  lemma CompletionInstalls(rels: map<string, Relationship>, pending: set<string>, installs: seq<Install>,
                           user: string, r: Relationship)
    requires InstallOk(rels, pending, installs) && user in rels && rels[user].status == PENDING
    requires Parent(rels, user).Some? && r.chain == rels[user].chain && r.status == COMPLETED
    ensures InstallOk(rels[user := r], pending - {user}, installs + [Install(r.chain[0], user)])
  {
    var installs' := installs + [Install(r.chain[0], user)];
    assert installs'[..|installs|] == installs;
    forall i | 0 <= i < |installs'|
      ensures Parent(rels[user := r], installs'[i].referee) == Some(installs'[i].referrer)
    {
      if i < |installs| {
        assert Parent(rels, installs[i].referee) == Some(installs[i].referrer);
      }
    }
  }

  lemma CheckKeepsInv(s: State, user: string, requiredHours: nat, chain: Chain)
    requires Inv(s)
    ensures Inv(StepCheck24h(s, user, requiredHours, chain))
  {
    var s' := StepCheck24h(s, user, requiredHours, chain);
    if s' != s {
      assert ChainOk(s.relationships, user);
      SameChainsKeepTree(s.relationships, s.clients, s.tierIndex, user, s'.relationships[user]);
      CompletionInstalls(s.relationships, s.pending24h, s.installs, user, s'.relationships[user]);
    }
  }

  lemma ApplyKeepsInv(s: State, op: Op)
    requires Inv(s)
    ensures Inv(Apply(s, op))
  {
    match op
    case CreateClient(user, code) =>
    case Register(user, code, maxDepth) => RegisterKeepsInv(s, user, code, maxDepth);
    case AddUptime(user, ms) =>
    case Check24h(user, requiredHours, chain) => CheckKeepsInv(s, user, requiredHours, chain);
  }

  // What a step may not undo: parents, chains and completion.
  ghost predicate Monotone(s: State, s': State) {
    forall u :: u in s.relationships ==>
      && u in s'.relationships
      && s'.relationships[u].chain == s.relationships[u].chain
      && (s.relationships[u].status == COMPLETED ==> s'.relationships[u].status == COMPLETED)
      && (s.relationships[u].claimed ==> s'.relationships[u].claimed)
  }

  lemma ApplyIsMonotone(s: State, op: Op)
    ensures Monotone(s, Apply(s, op))
  {
  }

  lemma {:induction false} RunKeepsInv(s: State, ops: seq<Op>)
    requires Inv(s)
    ensures Inv(Run(s, ops))
    decreases |ops|
  {
    if ops != [] {
      ApplyKeepsInv(s, ops[0]);
      RunKeepsInv(Apply(s, ops[0]), ops[1..]);
    }
  }

  // Parents are write-once and completion is final, in any run from any state.
  lemma {:induction false} RunIsMonotone(s: State, ops: seq<Op>)
    ensures Monotone(s, Run(s, ops))
    decreases |ops|
  {
    if ops != [] {
      ApplyIsMonotone(s, ops[0]);
      RunIsMonotone(Apply(s, ops[0]), ops[1..]);
    }
  }

  // Referral structure in every run, cycles and self-referrals included.
  lemma EveryRunKeepsTheTree(ops: seq<Op>)
    ensures var s := Run(EMPTY, ops);
            // a chain is a non-empty prefix of the current ancestor walk, no longer than the depth of its day
            && (forall u :: u in s.relationships ==>
                  var r := s.relationships[u];
                  && 0 < |r.chain| <= (if r.depth < 1 then 1 else r.depth)
                  && forall n: nat :: n >= |r.chain| ==> r.chain <= Climb(s.relationships, u, n))
            // the tier-k index of r holds exactly the users with r at place k of their chain
            && (forall tier, r, u :: u in Members(s.tierIndex, (tier, r)) <==> TierOf(s.relationships, u, tier, r))
            // totalReferral counts the tier-1 index
            && (forall r :: r in s.clients ==> s.clients[r].totalReferral == |Members(s.tierIndex, (1, r))|)
  {
    RunKeepsInv(EMPTY, ops);
    var s := Run(EMPTY, ops);
    forall u, n: nat | u in s.relationships && n >= |s.relationships[u].chain|
      ensures s.relationships[u].chain <= Climb(s.relationships, u, n)
    {
      assert ChainOk(s.relationships, u);
      ClimbPrefix(s.relationships, u, |s.relationships[u].chain|, n);
    }
  }

  lemma {:induction false} ClimbPrefix(rels: map<string, Relationship>, u: string, m: nat, n: nat)
    requires m <= n
    ensures Climb(rels, u, m) <= Climb(rels, u, n)
    decreases m
  {
    if m > 0 && Parent(rels, u).Some? {
      ClimbPrefix(rels, Parent(rels, u).value, m - 1, n - 1);
    }
  }

  // The installation reward, in every run and whatever the blockchain call does: pending
  // users are those whose period is pending, completing it records exactly one reward, to
  // the parent, and a claimed reward is a recorded one.
  lemma EveryRunRewardsOnce(ops: seq<Op>)
    ensures var s := Run(EMPTY, ops);
            && (forall u :: u in s.pending24h <==> u in s.relationships && s.relationships[u].status == PENDING)
            && (forall u :: RewardsFor(s.installs, u) <= 1)
            && (forall u :: u in s.relationships ==>
                  (RewardsFor(s.installs, u) == 1 <==> s.relationships[u].status == COMPLETED))
            && (forall u :: u in s.relationships && s.relationships[u].claimed ==> RewardsFor(s.installs, u) == 1)
            && (forall i :: 0 <= i < |s.installs| ==>
                  Parent(s.relationships, s.installs[i].referee) == Some(s.installs[i].referrer))
  {
    RunKeepsInv(EMPTY, ops);
  }

  // ---------------------------------------------------------------- when the first 24 hours are over

  // A client with the hours required; zero stands for 24.
  predicate HasHours(clients: map<string, Client>, user: string, requiredHours: nat) {
    user in clients && clients[user].uptimeMs >= (if requiredHours == 0 then 24 else requiredHours) * 3600000
  }

  // A check completes a pending user exactly if it has the hours, and then rewards its
  // parent once; the reward counts as claimed unless the payment throws.
  lemma CheckCompletesExactly(s: State, user: string, requiredHours: nat, chain: Chain)
    requires user in s.relationships && s.relationships[user].status == PENDING
    ensures var s', r := StepCheck24h(s, user, requiredHours, chain), s.relationships[user];
            var reached := user in s.clients
                           && s.clients[user].uptimeMs >= (if requiredHours == 0 then 24 else requiredHours) * 3600000;
            var rewards := reached && Parent(s.relationships, user).Some? && !r.claimed;
            && user in s'.relationships
            && (s'.relationships[user].status == COMPLETED <==> reached)
            && s'.installs == s.installs + (if rewards then [Install(r.chain[0], user)] else [])
            && (s'.relationships[user].claimed <==> r.claimed || (rewards && chain != Thrown))
  {
  }

  // A completed user stays as it is.
  lemma CheckOfCompletedIsNothing(s: State, user: string, requiredHours: nat, chain: Chain)
    requires user in s.relationships ==> s.relationships[user].status == COMPLETED
    ensures StepCheck24h(s, user, requiredHours, chain) == s
  {
  }

  lemma {:induction false} RunSnoc(s: State, ops: seq<Op>, op: Op)
    ensures Run(s, ops + [op]) == Apply(Run(s, ops), op)
    decreases |ops|
  {
    if ops == [] {
      assert [op][1..] == [];
    } else {
      assert (ops + [op])[0] == ops[0] && (ops + [op])[1..] == ops[1..] + [op];
      RunSnoc(Apply(s, ops[0]), ops[1..], op);
    }
  }

  // The i-th operation of the run checks a referred user that has its hours.
  ghost predicate Passes(ops: seq<Op>, i: int, user: string) {
    && 0 <= i < |ops| && ops[i].Check24h? && ops[i].user == user
    && user in Run(EMPTY, ops[..i]).relationships
    && HasHours(Run(EMPTY, ops[..i]).clients, user, ops[i].requiredHours)
  }

  // Over whole runs: a user is completed, and its parent rewarded, if and only if some check
  // found it with the hours that this check required.
  lemma {:induction false} CompletedExactlyIfChecked(ops: seq<Op>, user: string)
    ensures var s := Run(EMPTY, ops);
            (user in s.relationships && s.relationships[user].status == COMPLETED) <==> exists i :: Passes(ops, i, user)
    decreases |ops|
  {
    if ops != [] {
      var init, op := ops[..|ops| - 1], ops[|ops| - 1];
      assert ops == init + [op];
      CompletedExactlyIfChecked(init, user);
      RunSnoc(EMPTY, init, op);
      ApplyIsMonotone(Run(EMPTY, init), op);
      forall i | 0 <= i < |init| ensures Passes(ops, i, user) <==> Passes(init, i, user) {
        assert ops[..i] == init[..i] && ops[i] == init[i];
      }
      assert ops[..|init|] == init;
      assert Passes(ops, |init|, user) <==>
             && op.Check24h? && op.user == user && user in Run(EMPTY, init).relationships
             && HasHours(Run(EMPTY, init).clients, user, op.requiredHours);
      LastStepCompletes(Run(EMPTY, init), op, user);
      assert forall i :: Passes(ops, i, user) ==> i < |init| || i == |init|;
    }
  }

  lemma LastStepCompletes(s: State, op: Op, user: string)
    ensures var s' := Apply(s, op);
            (user in s'.relationships && s'.relationships[user].status == COMPLETED) <==>
            || (user in s.relationships && s.relationships[user].status == COMPLETED)
            || (op.Check24h? && op.user == user && user in s.relationships && HasHours(s.clients, user, op.requiredHours))
  {
    if op.Check24h? && user in s.relationships && s.relationships[user].status == PENDING && op.user == user {
      CheckCompletesExactly(s, user, op.requiredHours, op.chain);
    }
  }

  // What uptime reports have brought to a client.
  function Reported(ops: seq<Op>, user: string): nat {
    if ops == [] then 0
    else Reported(ops[..|ops| - 1], user)
         + (if ops[|ops| - 1].AddUptime? && ops[|ops| - 1].user == user then ops[|ops| - 1].ms else 0)
  }

  lemma {:induction false} UptimeIsReported(s: State, ops: seq<Op>, user: string)
    requires user in s.clients
    ensures user in Run(s, ops).clients
    ensures Run(s, ops).clients[user].uptimeMs == s.clients[user].uptimeMs + Reported(ops, user)
    decreases |ops|
  {
    if ops != [] {
      var init, op := ops[..|ops| - 1], ops[|ops| - 1];
      assert ops == init + [op];
      UptimeIsReported(s, init, user);
      RunSnoc(s, init, op);
    }
  }

  // ---------------------------------------------------------------- the service object

  class ReferralService {
    var clients: map<string, Client>
    var codes: map<string, string>
    var relationships: map<string, Relationship>
    var tierIndex: map<(int, string), set<string>>
    var pending24h: set<string>
    var installs: seq<Install>

    ghost function View(): State
      reads this
    {
      State(clients, codes, relationships, tierIndex, pending24h, installs)
    }

    constructor ()
      ensures View() == EMPTY
    {
      clients, codes, relationships, tierIndex := map[], map[], map[], map[];
      pending24h, installs := {}, [];
    }

    method CreateClient(user: string, code: string)
      modifies this
      ensures View() == Apply(old(View()), Op.CreateClient(user, code))
      ensures user in old(clients) ==> View() == old(View())
      ensures user !in old(clients) ==>
                clients == old(clients)[user := Client(0, 0)] && codes == old(codes)[code := user]
    {
      if user !in clients {
        clients := clients[user := Client(0, 0)];
        codes := codes[code := user];
      }
    }

    // The loop over tiers 2..maxDepth.
    method BuildReferrerChain(l1: string, maxDepth: int) returns (chain: seq<string>)
      ensures chain == BuildChain(relationships, l1, maxDepth)
    {
      chain := [l1];
      var current := l1;
      var tier := 2;
      while tier <= maxDepth
        invariant 2 <= tier && (maxDepth < 1 ==> tier == 2)
        invariant tier <= maxDepth + 1 || tier == 2
        invariant chain + Climb(relationships, current, if tier <= maxDepth then maxDepth - tier + 1 else 0)
                  == BuildChain(relationships, l1, maxDepth)
        decreases maxDepth - tier
      {
        if current !in relationships || relationships[current].chain == [] || relationships[current].chain[0] == "" {
          return;
        }
        var next := relationships[current].chain[0];
        assert chain + ([next] + Climb(relationships, next, maxDepth - tier))
            == (chain + [next]) + Climb(relationships, next, maxDepth - tier);
        chain := chain + [next];
        current := next;
        tier := tier + 1;
      }
    }

    method IndexReferrers(chain: seq<string>, user: string)
      modifies this`tierIndex
      ensures tierIndex == IndexChain(old(tierIndex), chain, user)
    {
      for i := 0 to |chain|
        invariant tierIndex == IndexChain(old(tierIndex), chain[..i], user)
      {
        assert chain[..i + 1][..i] == chain[..i];
        tierIndex := SAdd(tierIndex, (i + 1, chain[i]), user);
      }
      assert chain[..|chain|] == chain;
    }

    method RegisterWithReferralCode(user: string, code: string, maxDepth: int) returns (ok: bool)
      modifies this
      ensures ok <==>
              && code in old(codes) && old(codes)[code] != "" && old(codes)[code] in old(clients)
              && user !in old(relationships)
      ensures View() == Apply(old(View()), Register(user, code, maxDepth))
      ensures !ok ==> View() == old(View())
      ensures ok ==>
                && user in relationships && relationships[user].status == PENDING && !relationships[user].claimed
                && AncestorsUpTo(old(relationships), relationships[user].chain, old(codes)[code], maxDepth)
                && relationships == old(relationships)[user := relationships[user]]
    {
      if !(code in codes && codes[code] != "" && codes[code] in clients) {
        return false;
      }
      var l1 := codes[code];
      if user in relationships {
        return false;
      }
      var chain := BuildReferrerChain(l1, maxDepth);
      BuildsAncestors(relationships, l1, maxDepth);
      relationships := relationships[user := Relationship(chain, PENDING, false, maxDepth)];
      IndexReferrers(chain, user);
      pending24h := pending24h + {user};
      clients := clients[l1 := clients[l1].(totalReferral := clients[l1].totalReferral + 1)];
      return true;
    }

    method Check24HourCompletion(user: string, requiredHours: nat, chain: Chain) returns (rewarded: bool)
      modifies this`relationships, this`pending24h, this`installs
      ensures View() == Apply(old(View()), Check24h(user, requiredHours, chain))
      ensures user !in old(relationships) ==> !rewarded && View() == old(View())
      ensures user in old(relationships) ==>
                var r := old(relationships)[user];
                var reached := user in clients
                               && clients[user].uptimeMs >= (if requiredHours == 0 then 24 else requiredHours) * 3600000;
                && user in relationships
                && (relationships[user].status == COMPLETED <==> r.status == COMPLETED || reached)
                && (rewarded <==> if r.status == COMPLETED then r.claimed
                                  else reached && Parent(old(relationships), user).Some? && !r.claimed && chain != Thrown)
                && (rewarded ==> relationships[user].claimed)
                && installs == old(installs)
                     + if r.status == PENDING && reached && Parent(old(relationships), user).Some? && !r.claimed
                       then [Install(r.chain[0], user)] else []
    {
      if user !in relationships {
        return false;
      }
      var r := relationships[user];
      if r.status == COMPLETED {
        return r.claimed;
      }
      if user !in clients {
        return false;
      }
      var hours := if requiredHours == 0 then 24 else requiredHours;
      if clients[user].uptimeMs < hours * 3600000 {
        return false;
      }
      r := r.(status := COMPLETED);
      relationships := relationships[user := r];
      pending24h := pending24h - {user};
      if r.chain != [] && r.chain[0] != "" && !r.claimed {
        installs := installs + [Install(r.chain[0], user)];
        if chain != Thrown {
          r := r.(claimed := true);
          relationships := relationships[user := r];
          return true;
        }
      }
      return false;
    }
  }
}
