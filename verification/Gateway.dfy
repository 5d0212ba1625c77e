/**
 Choosing an account for a request and forwarding it.  What becomes of this request's commands and what Redis and
 the upstream answer is given by oracles, because every other request moves the counters in between; the log of
 the INCRs and DECRs that reached Redis says what the request itself did to the counters.
 */
module Gateway {
  import opened Common

  datatype Account = Account(
    id: nat,
    enabled: bool,
    status: AccountStatus,
    runnerKnown: bool,              // is its runner in the routing snapshot?
    maxConcurrency: int,
    rpmLimit: Option<int>)

  /**
   What one attempt meets in Redis, account by account: the answers to the in-flight read and the rate hit (`None` is
   an error), what becomes of the INCR and what it answers, and what becomes of the DECR that gives the slot back.
   */
  datatype Answers = Answers(
    load: nat -> Option<nat>,
    hits: nat -> Option<int>,
    take: nat -> Delivery,
    count: nat -> int,
    give: nat -> Delivery)

  datatype Acquired =
    | Leased(account: Account)
    | RunnerMissing(id: nat)
    | Conflict                      // the pinned account is not available
    | NoAccount
    | AtCapacity
    | RedisDown

  datatype Call = Took(id: nat) | GaveBack(id: nat)

  /** Slots of `id` taken and not given back. */
  function Net(calls: seq<Call>, id: nat): int
    decreases |calls|
  {
    if calls == [] then 0
    else
      Net(calls[..|calls| - 1], id)
      + match calls[|calls| - 1]
        case Took(x) => if x == id then 1 else 0
        case GaveBack(x) => if x == id then -1 else 0
  }

  lemma NetSnoc(calls: seq<Call>, call: Call, id: nat)
    ensures Net(calls + [call], id)
            == Net(calls, id) + if call.id != id then 0 else if call.Took? then 1 else -1
  {
    assert (calls + [call])[..|calls|] == calls;
  }

  lemma {:induction false} NetConcat(first: seq<Call>, second: seq<Call>, id: nat)
    ensures Net(first + second, id) == Net(first, id) + Net(second, id)
    decreases |second|
  {
    if second == [] {
      assert first + second == first;
    } else {
      var init, last := second[..|second| - 1], second[|second| - 1];
      assert first + second == (first + init) + [last] && second == init + [last];
      NetSnoc(first + init, last, id);
      NetSnoc(init, last, id);
      NetConcat(first, init, id);
    }
  }

  predicate Eligible(a: Account, excluded: seq<nat>) {
    a.enabled && a.status.Running? && a.id !in excluded
  }

  /** In-flight requests relative to the cap, as read for this attempt. */
  function Ratio(a: Account, answers: Answers): real {
    answers.load(a.id).GetOr(0) as real / (if a.maxConcurrency > 1 then a.maxConcurrency else 1) as real
  }

  /** Does account `i` come before account `j`: less loaded, or equally loaded and listed first? */
  predicate Before(accounts: seq<Account>, answers: Answers, i: nat, j: nat)
    requires i < |accounts| && j < |accounts|
  {
    var x, y := Ratio(accounts[i], answers), Ratio(accounts[j], answers);
    x < y || (x == y && i < j)
  }

  /** A hit that comes back as an error counts as zero. */
  predicate RateAllows(a: Account, answers: Answers) {
    a.rpmLimit.Some? ==> answers.hits(a.id).GetOr(0) <= a.rpmLimit.value
  }

  predicate OverCap(a: Account, answers: Answers) {
    answers.take(a.id).Answered? && answers.count(a.id) > a.maxConcurrency
  }

  /** Over its rate, or its slot counter came back over the cap. */
  predicate Refused(a: Account, answers: Answers) {
    !RateAllows(a, answers) || OverCap(a, answers)
  }

  ghost predicate Ordered(accounts: seq<Account>, answers: Answers, c: seq<nat>) {
    && (forall p :: 0 <= p < |c| ==> c[p] < |accounts|)
    && (forall p, q :: 0 <= p < q < |c| ==> Before(accounts, answers, c[p], c[q]))
  }

  /** Puts index `i` behind every candidate that is not more loaded. */
  method InsertByLoad(accounts: seq<Account>, answers: Answers, c: seq<nat>, i: nat) returns (r: seq<nat>)
    requires i < |accounts| && Ordered(accounts, answers, c)
    requires forall k :: k in c ==> k < i
    ensures Ordered(accounts, answers, r)
    ensures forall k :: k in r <==> k == i || k in c
  {
    var at := |c|;
    while at > 0 && Ratio(accounts[c[at - 1]], answers) > Ratio(accounts[i], answers)
      invariant 0 <= at <= |c|
      invariant forall p :: at <= p < |c| ==> Before(accounts, answers, i, c[p])
    {
      at := at - 1;
    }
    forall p | 0 <= p < at
      ensures Before(accounts, answers, c[p], i)
    {
      assert c[at - 1] in c && c[p] in c;
      assert p < at - 1 ==> Before(accounts, answers, c[p], c[at - 1]);
    }
    InsertionStaysOrdered(accounts, answers, c, at, i);
    r := c[..at] + [i] + c[at..];
  }

  lemma InsertionStaysOrdered(accounts: seq<Account>, answers: Answers, c: seq<nat>, at: nat, i: nat)
    requires i < |accounts| && at <= |c| && Ordered(accounts, answers, c)
    requires forall p :: 0 <= p < at ==> Before(accounts, answers, c[p], i)
    requires forall p :: at <= p < |c| ==> Before(accounts, answers, i, c[p])
    ensures Ordered(accounts, answers, c[..at] + [i] + c[at..])
  {
    var r := c[..at] + [i] + c[at..];
    forall p, q | 0 <= p < q < |r|
      ensures Before(accounts, answers, r[p], r[q])
    {
      var x, y := if p < at then p else p - 1, if q < at then q else q - 1;
      assert p != at && q != at ==> Before(accounts, answers, c[x], c[y]);
    }
  }

  /** The eligible accounts, least loaded first, equals in snapshot order. */
  method Candidates(accounts: seq<Account>, excluded: seq<nat>, answers: Answers) returns (c: seq<nat>)
    ensures Ordered(accounts, answers, c)
    ensures forall i :: 0 <= i < |accounts| ==> (i in c <==> Eligible(accounts[i], excluded))
  {
    c := [];
    for i := 0 to |accounts|
      invariant Ordered(accounts, answers, c)
      invariant forall k :: k in c <==> 0 <= k < i && Eligible(accounts[k], excluded)
    {
      if Eligible(accounts[i], excluded) {
        c := InsertByLoad(accounts, answers, c, i);
      }
    }
  }

  /** The account at index `k` is the first, in order, that was not refused. */
  ghost predicate FirstNotRefused(accounts: seq<Account>, excluded: seq<nat>, answers: Answers, k: nat)
    requires k < |accounts|
  {
    && Eligible(accounts[k], excluded)
    && !Refused(accounts[k], answers)
    && forall i :: 0 <= i < |accounts| && Eligible(accounts[i], excluded) && Before(accounts, answers, i, k) ==>
         Refused(accounts[i], answers)
  }

  ghost predicate AllRefused(accounts: seq<Account>, excluded: seq<nat>, answers: Answers) {
    && (exists i :: 0 <= i < |accounts| && Eligible(accounts[i], excluded))
    && (forall i :: 0 <= i < |accounts| && Eligible(accounts[i], excluded) ==> Refused(accounts[i], answers))
  }

  ghost predicate NoneEligible(accounts: seq<Account>, excluded: seq<nat>) {
    forall i :: 0 <= i < |accounts| ==> !Eligible(accounts[i], excluded)
  }

  // ----- what an attempt leaves taken -----

  /** The loop comes to account `i`: it is eligible, and all candidates before it were refused. */
  ghost predicate Visited(accounts: seq<Account>, excluded: seq<nat>, answers: Answers, i: nat) {
    && i < |accounts| && Eligible(accounts[i], excluded)
    && forall j :: 0 <= j < |accounts| && Eligible(accounts[j], excluded) && Before(accounts, answers, j, i) ==>
         Refused(accounts[j], answers)
  }

  /**
   A visit takes a slot of this account that is never given back: the INCR is executed and its reply lost, or its
   DECR does not arrive, or the account's runner is missing.
   */
  predicate Strands(a: Account, answers: Answers) {
    RateAllows(a, answers) &&
    match answers.take(a.id)
    case NotSent => false
    case ReplyLost => true
    case Answered => answers.give(a.id).NotSent? || (!OverCap(a, answers) && !a.runnerKnown)
  }

  function StrandsIn(accounts: seq<Account>, answers: Answers, seen: set<nat>, id: nat): set<nat> {
    set i | i in seen && i < |accounts| && accounts[i].id == id && Strands(accounts[i], answers)
  }

  ghost function AllVisited(accounts: seq<Account>, excluded: seq<nat>, answers: Answers): set<nat> {
    set i | 0 <= i < |accounts| && Visited(accounts, excluded, answers, i)
  }

  /** The slot whose DECR is still to come and will arrive. */
  function Owed(r: Acquired, answers: Answers): Option<nat> {
    if r.Leased? && !answers.give(r.account.id).NotSent? then Some(r.account.id) else None
  }

  function One(slot: Option<nat>, id: nat): nat {
    if slot == Some(id) then 1 else 0
  }

  /** The calls left taken what visiting `seen` strands, and the slot that is still owed. */
  ghost predicate LeftBy(calls: seq<Call>, accounts: seq<Account>, answers: Answers, seen: set<nat>,
                         owed: Option<nat>)
  {
    forall id: nat :: Net(calls, id) == |StrandsIn(accounts, answers, seen, id)| + One(owed, id)
  }

  /** The commands of one visit that reach Redis. */
  function CallsOf(a: Account, answers: Answers, released: bool): seq<Call> {
    (if answers.take(a.id).NotSent? then [] else [Took(a.id)])
    + (if released && !answers.give(a.id).NotSent? then [GaveBack(a.id)] else [])
  }

  lemma NetOfVisit(a: Account, answers: Answers, released: bool, id: nat)
    ensures Net(CallsOf(a, answers, released), id)
            == if id != a.id then 0
               else (if answers.take(a.id).NotSent? then 0 else 1)
                    - (if released && !answers.give(a.id).NotSent? then 1 else 0)
  {
    var took: seq<Call> := if answers.take(a.id).NotSent? then [] else [Took(a.id)];
    var gave: seq<Call> := if released && !answers.give(a.id).NotSent? then [GaveBack(a.id)] else [];
    NetConcat(took, gave, id);
    NetOfOne(Took(a.id), id);
    NetOfOne(GaveBack(a.id), id);
  }

  lemma NetOfOne(call: Call, id: nat)
    ensures Net([call], id) == if call.id != id then 0 else if call.Took? then 1 else -1
  {
    assert [call] == [] + [call];
    NetSnoc([], call, id);
  }

  lemma StrandsMore(accounts: seq<Account>, answers: Answers, seen: set<nat>, k: nat, id: nat)
    requires k < |accounts| && k !in seen
    ensures |StrandsIn(accounts, answers, seen + {k}, id)|
            == |StrandsIn(accounts, answers, seen, id)|
               + if accounts[k].id == id && Strands(accounts[k], answers) then 1 else 0
  {
    var was, more := StrandsIn(accounts, answers, seen, id), StrandsIn(accounts, answers, seen + {k}, id);
    if accounts[k].id == id && Strands(accounts[k], answers) {
      assert more == was + {k};
    } else {
      assert more == was;
    }
  }

  /** One more visit, whose account passed its rate gate: refused or leased or neither. */
  lemma VisitLeaves(calls: seq<Call>, accounts: seq<Account>, answers: Answers, seen: set<nat>, k: nat, released: bool,
                    owed: Option<nat>)
    requires LeftBy(calls, accounts, answers, seen, None) && k < |accounts| && k !in seen
    requires RateAllows(accounts[k], answers)
    requires released <==> OverCap(accounts[k], answers)
    requires var a := accounts[k];
             owed == if answers.take(a.id).Answered? && !OverCap(a, answers) && a.runnerKnown
                        && !answers.give(a.id).NotSent?
                     then Some(a.id) else None
    ensures LeftBy(calls + CallsOf(accounts[k], answers, released), accounts, answers, seen + {k}, owed)
  {
    forall id: nat
      ensures Net(calls + CallsOf(accounts[k], answers, released), id)
              == |StrandsIn(accounts, answers, seen + {k}, id)| + One(owed, id)
    {
      NetConcat(calls, CallsOf(accounts[k], answers, released), id);
      NetOfVisit(accounts[k], answers, released, id);
      StrandsMore(accounts, answers, seen, k, id);
      assert Net(calls, id) == |StrandsIn(accounts, answers, seen, id)| + One(None, id);
    }
  }

  /** A visit that ends at the rate gate takes nothing. */
  lemma SkippedLeaves(calls: seq<Call>, accounts: seq<Account>, answers: Answers, seen: set<nat>, k: nat)
    requires LeftBy(calls, accounts, answers, seen, None) && k < |accounts| && k !in seen
    requires !RateAllows(accounts[k], answers)
    ensures LeftBy(calls, accounts, answers, seen + {k}, None)
  {
    forall id: nat
      ensures Net(calls, id) == |StrandsIn(accounts, answers, seen + {k}, id)| + One(None, id)
    {
      StrandsMore(accounts, answers, seen, k, id);
      assert Net(calls, id) == |StrandsIn(accounts, answers, seen, id)| + One(None, id);
    }
  }

  /** The first `p` candidates. */
  function FirstOf(c: seq<nat>, p: nat): set<nat>
    requires p <= |c|
  {
    set k | k in c[..p]
  }

  lemma NextOf(accounts: seq<Account>, answers: Answers, c: seq<nat>, p: nat)
    requires Ordered(accounts, answers, c) && p < |c|
    ensures FirstOf(c, p + 1) == FirstOf(c, p) + {c[p]} && c[p] !in FirstOf(c, p)
  {
    assert c[..p + 1] == c[..p] + [c[p]];
    assert forall q :: 0 <= q < p ==> Before(accounts, answers, c[q], c[p]);
  }

  ghost predicate IsCandidates(c: seq<nat>, accounts: seq<Account>, excluded: seq<nat>, answers: Answers) {
    && Ordered(accounts, answers, c)
    && (forall i :: 0 <= i < |accounts| ==> (i in c <==> Eligible(accounts[i], excluded)))
  }

  /** If the first `p` candidates were refused and the next one stops the loop, these were the visits. */
  lemma VisitedOnes(accounts: seq<Account>, excluded: seq<nat>, answers: Answers, c: seq<nat>, p: nat)
    requires IsCandidates(c, accounts, excluded, answers) && p <= |c|
    requires forall q :: 0 <= q < p ==> Refused(accounts[c[q]], answers)
    requires p < |c| ==> !Refused(accounts[c[p]], answers)
    ensures AllVisited(accounts, excluded, answers) == FirstOf(c, if p < |c| then p + 1 else p)
  {
    var n := if p < |c| then p + 1 else p;
    forall i | 0 <= i < |accounts|
      ensures i in c[..n] <==> Visited(accounts, excluded, answers, i)
    {
      if i in c {
        var q :| 0 <= q < |c| && c[q] == i;
        CandidateVisited(accounts, excluded, answers, c, p, q);
      }
    }
  }

  lemma CandidateVisited(accounts: seq<Account>, excluded: seq<nat>, answers: Answers, c: seq<nat>, p: nat, q: nat)
    requires IsCandidates(c, accounts, excluded, answers) && p <= |c| && q < |c|
    requires forall r :: 0 <= r < p ==> Refused(accounts[c[r]], answers)
    requires p < |c| ==> !Refused(accounts[c[p]], answers)
    ensures Visited(accounts, excluded, answers, c[q]) <==> q <= p
    ensures c[q] in c[..if p < |c| then p + 1 else p] <==> q <= p
  {
    assert c[q] in c;
    if q <= p {
      forall j | 0 <= j < |accounts| && Eligible(accounts[j], excluded) && Before(accounts, answers, j, c[q])
        ensures Refused(accounts[j], answers)
      {
        var r :| 0 <= r < |c| && c[r] == j;
        assert q < r ==> Before(accounts, answers, c[q], c[r]);
      }
    } else {
      assert c[p] in c && Before(accounts, answers, c[p], c[q]);
      assert forall r :: 0 <= r <= p ==> Before(accounts, answers, c[r], c[q]);
    }
  }

  /** The account at which the loop stopped, and why. */
  ghost predicate StopsAt(accounts: seq<Account>, excluded: seq<nat>, answers: Answers, r: Acquired, k: nat) {
    && k < |accounts| && FirstNotRefused(accounts, excluded, answers, k)
    && var a := accounts[k];
       r == if !answers.take(a.id).Answered? then RedisDown
            else if a.runnerKnown then Leased(a) else RunnerMissing(a.id)
  }

  /** The first `p` candidates were refused, and the calls are what that left. */
  ghost predicate RefusedSoFar(calls: seq<Call>, accounts: seq<Account>, answers: Answers, c: seq<nat>, p: nat) {
    && p <= |c| && Ordered(accounts, answers, c)
    && (forall q :: 0 <= q < p ==> Refused(accounts[c[q]], answers))
    && LeftBy(calls, accounts, answers, FirstOf(c, p), None)
  }

  lemma OneMoreRefused(calls: seq<Call>, made: seq<Call>, accounts: seq<Account>, answers: Answers, c: seq<nat>, p: nat)
    requires RefusedSoFar(calls, accounts, answers, c, p) && p < |c| && Refused(accounts[c[p]], answers)
    requires made == if RateAllows(accounts[c[p]], answers) then CallsOf(accounts[c[p]], answers, true) else []
    ensures RefusedSoFar(calls + made, accounts, answers, c, p + 1)
  {
    NextOf(accounts, answers, c, p);
    if RateAllows(accounts[c[p]], answers) {
      VisitLeaves(calls, accounts, answers, FirstOf(c, p), c[p], true, None);
    } else {
      SkippedLeaves(calls, accounts, answers, FirstOf(c, p), c[p]);
      assert calls + made == calls;
    }
  }

  lemma EarlierCandidatesRefused(accounts: seq<Account>, excluded: seq<nat>, answers: Answers, c: seq<nat>, p: nat)
    requires Ordered(accounts, answers, c) && p < |c|
    requires forall i :: 0 <= i < |accounts| ==> (i in c <==> Eligible(accounts[i], excluded))
    requires forall q :: 0 <= q < p ==> Refused(accounts[c[q]], answers)
    requires !Refused(accounts[c[p]], answers)
    ensures FirstNotRefused(accounts, excluded, answers, c[p])
  {
    assert c[p] in c;
    forall i | 0 <= i < |accounts| && Eligible(accounts[i], excluded) && Before(accounts, answers, i, c[p])
      ensures Refused(accounts[i], answers)
    {
      var q :| 0 <= q < |c| && c[q] == i;
      assert p < q ==> Before(accounts, answers, c[p], c[q]);
    }
  }

  lemma StoppedAt(calls: seq<Call>, made: seq<Call>, accounts: seq<Account>, excluded: seq<nat>, answers: Answers,
                  c: seq<nat>, p: nat, r: Acquired)
    requires IsCandidates(c, accounts, excluded, answers)
    requires RefusedSoFar(calls, accounts, answers, c, p) && p < |c| && !Refused(accounts[c[p]], answers)
    requires made == CallsOf(accounts[c[p]], answers, false)
    requires var a := accounts[c[p]];
             r == if !answers.take(a.id).Answered? then RedisDown
                  else if a.runnerKnown then Leased(a) else RunnerMissing(a.id)
    ensures StopsAt(accounts, excluded, answers, r, c[p])
    ensures !NoneEligible(accounts, excluded) && !AllRefused(accounts, excluded, answers)
    ensures LeftBy(calls + made, accounts, answers, AllVisited(accounts, excluded, answers), Owed(r, answers))
  {
    EarlierCandidatesRefused(accounts, excluded, answers, c, p);
    NextOf(accounts, answers, c, p);
    VisitLeaves(calls, accounts, answers, FirstOf(c, p), c[p], false, Owed(r, answers));
    VisitedOnes(accounts, excluded, answers, c, p);
  }

  lemma AllWereRefused(calls: seq<Call>, accounts: seq<Account>, excluded: seq<nat>, answers: Answers, c: seq<nat>)
    requires IsCandidates(c, accounts, excluded, answers) && RefusedSoFar(calls, accounts, answers, c, |c|)
    ensures LeftBy(calls, accounts, answers, AllVisited(accounts, excluded, answers), None)
    ensures NoneEligible(accounts, excluded) <==> c == []
    ensures AllRefused(accounts, excluded, answers) <==> c != []
  {
    VisitedOnes(accounts, excluded, answers, c, |c|);
    assert forall i :: 0 <= i < |accounts| && Eligible(accounts[i], excluded) ==> i in c;
    assert c != [] ==> c[0] in c && Eligible(accounts[c[0]], excluded);
  }

  /** Least-loaded selection for a request that is not pinned. */
  method AcquireUnpinned(accounts: seq<Account>, excluded: seq<nat>, answers: Answers)
    returns (r: Acquired, calls: seq<Call>)
    ensures !r.Conflict?
    ensures r.NoAccount? <==> NoneEligible(accounts, excluded)
    ensures r.AtCapacity? <==> AllRefused(accounts, excluded, answers)
    ensures r.Leased? || r.RunnerMissing? || r.RedisDown? ==> exists k :: StopsAt(accounts, excluded, answers, r, k)
    ensures LeftBy(calls, accounts, answers, AllVisited(accounts, excluded, answers), Owed(r, answers))
  {
    calls := [];
    var c := Candidates(accounts, excluded, answers);
    if c == [] {
      AllWereRefused(calls, accounts, excluded, answers, c);
      return NoAccount, calls;
    }
    for p := 0 to |c|
      invariant RefusedSoFar(calls, accounts, answers, c, p)
    {
      var a := accounts[c[p]];
      if !RateAllows(a, answers) {
        OneMoreRefused(calls, [], accounts, answers, c, p);
        assert calls + [] == calls;
      } else {
        var outcome, made := Visit(a, answers);
        if outcome.Some? {
          StoppedAt(calls, made, accounts, excluded, answers, c, p, outcome.value);
          return outcome.value, calls + made;
        }
        OneMoreRefused(calls, made, accounts, answers, c, p);
        calls := calls + made;
      }
    }
    AllWereRefused(calls, accounts, excluded, answers, c);
    r := AtCapacity;
  }

  /** Takes a slot on an account that passed its rate gate; over the cap it is given back at once. */
  method Visit(a: Account, answers: Answers) returns (outcome: Option<Acquired>, made: seq<Call>)
    ensures made == CallsOf(a, answers, OverCap(a, answers))
    ensures outcome.None? <==> OverCap(a, answers)
    ensures outcome.Some? ==>
              outcome.value == if !answers.take(a.id).Answered? then RedisDown
                               else if a.runnerKnown then Leased(a) else RunnerMissing(a.id)
  {
    made := [];
    if !answers.take(a.id).NotSent? {
      made := made + [Took(a.id)];
    }
    if !answers.take(a.id).Answered? {
      return Some(RedisDown), made;
    }
    if answers.count(a.id) <= a.maxConcurrency {
      return Some(if a.runnerKnown then Leased(a) else RunnerMissing(a.id)), made;
    }
    if !answers.give(a.id).NotSent? {
      made := made + [GaveBack(a.id)];
    }
    outcome := None;
  }

  /** The first account of the snapshot with this id. */
  function FirstWith(accounts: seq<Account>, id: nat): Option<Account> {
    if accounts == [] then None
    else if accounts[0].id == id then Some(accounts[0])
    else FirstWith(accounts[1..], id)
  }

  method FindAccount(accounts: seq<Account>, id: nat) returns (found: Option<Account>)
    ensures found == FirstWith(accounts, id)
    ensures found.None? <==> forall i :: 0 <= i < |accounts| ==> accounts[i].id != id
    ensures found.Some? ==> found.value in accounts && found.value.id == id
  {
    for i := 0 to |accounts|
      invariant forall k :: 0 <= k < i ==> accounts[k].id != id
      invariant FirstWith(accounts, id) == FirstWith(accounts[i..], id)
    {
      if accounts[i].id == id {
        return Some(accounts[i]);
      }
      assert accounts[i..][1..] == accounts[i + 1..];
    }
    found := None;
  }

  /** Is there an account this pinned request can go to? */
  predicate PinHolds(accounts: seq<Account>, excluded: seq<nat>, id: nat) {
    FirstWith(accounts, id).Some? && Eligible(FirstWith(accounts, id).value, excluded)
  }

  /** The pinned account's runner is known, so its slot is given back in the end. */
  predicate PinnedReturns(accounts: seq<Account>, answers: Answers, id: nat) {
    FirstWith(accounts, id).Some? && FirstWith(accounts, id).value.runnerKnown && !answers.give(id).NotSent?
  }

  /** What an attempt has done to the counter of `id` for good, once the request is over. */
  ghost function AttemptLeft(accounts: seq<Account>, answers: Answers, pinned: Option<nat>, accounting: bool,
                             excluded: seq<nat>, id: nat): int
  {
    if !accounting then 0
    else match pinned
         case None => |StrandsIn(accounts, answers, AllVisited(accounts, excluded, answers), id)|
         case Some(p) =>
           if id != p || !PinHolds(accounts, excluded, p) then 0
           else (if answers.take(p).NotSent? then 0 else 1) - (if PinnedReturns(accounts, answers, p) then 1 else 0)
  }

  /** The calls so far: what the attempt leaves for good, and the slot that will still be given back. */
  ghost predicate AttemptLeaves(calls: seq<Call>, accounts: seq<Account>, answers: Answers, pinned: Option<nat>,
                                accounting: bool, excluded: seq<nat>, owed: Option<nat>)
  {
    forall id: nat ::
      Net(calls, id) == AttemptLeft(accounts, answers, pinned, accounting, excluded, id) + One(owed, id)
  }

  /** Picks an account and takes a slot on it; a pinned request goes to its account whatever the cap says. */
  method AcquireAccount(accounts: seq<Account>, pinned: Option<nat>, accounting: bool, excluded: seq<nat>,
                        answers: Answers)
    returns (r: Acquired, calls: seq<Call>)
    ensures r.Leased? ==> r.account in accounts && Eligible(r.account, excluded) && r.account.runnerKnown
    ensures accounting && pinned.Some? ==>
              && (r.Conflict? <==> !PinHolds(accounts, excluded, pinned.value))
              && (r.Leased? ==> r.account.id == pinned.value) && (r.RunnerMissing? ==> r.id == pinned.value)
              && !r.NoAccount? && !r.AtCapacity? && !r.RedisDown?
    ensures r.Conflict? ==> accounting && pinned.Some?
    ensures accounting && pinned.None? && (r.Leased? || r.RunnerMissing? || r.RedisDown?) ==>
              exists k :: StopsAt(accounts, excluded, answers, r, k)
    ensures accounting && pinned.None? ==> (r.AtCapacity? <==> AllRefused(accounts, excluded, answers))
    ensures r.AtCapacity? ==> accounting && pinned.None?
    ensures r.NoAccount? ==> NoneEligible(accounts, excluded)
    ensures AttemptLeaves(calls, accounts, answers, pinned, accounting, excluded,
                          if accounting then Owed(r, answers) else None)
  {
    calls := [];
    if !accounting {
      for i := 0 to |accounts|
        invariant forall k :: 0 <= k < i ==> !Eligible(accounts[k], excluded)
      {
        var a := accounts[i];
        if Eligible(a, excluded) {
          return if a.runnerKnown then Leased(a) else RunnerMissing(a.id), calls;
        }
      }
      return NoAccount, calls;
    }
    if pinned.Some? {
      r, calls := AcquirePinned(accounts, pinned.value, excluded, answers);
    } else {
      r, calls := AcquireUnpinned(accounts, excluded, answers);
    }
  }

  /** The INCR of a pinned request is sent, and the request goes on whatever becomes of it. */
  method AcquirePinned(accounts: seq<Account>, id: nat, excluded: seq<nat>, answers: Answers)
    returns (r: Acquired, calls: seq<Call>)
    ensures if !PinHolds(accounts, excluded, id) then r.Conflict?
            else var a := FirstWith(accounts, id).value;
                 a in accounts && a.id == id && r == if a.runnerKnown then Leased(a) else RunnerMissing(id)
    ensures AttemptLeaves(calls, accounts, answers, Some(id), true, excluded, Owed(r, answers))
  {
    calls := [];
    var found := FindAccount(accounts, id);
    if found.None? || !Eligible(found.value, excluded) {
      return Conflict, calls;
    }
    if !answers.take(id).NotSent? {
      calls := calls + [Took(id)];
    }
    forall x: nat
      ensures Net(calls, x) == if x == id && !answers.take(id).NotSent? then 1 else 0
    {
      NetOfOne(Took(id), x);
    }
    r := if found.value.runnerKnown then Leased(found.value) else RunnerMissing(id);
  }

  // ----- forwarding -----

  datatype Sent = Responded | Failed(retryable: bool)

  /** The snapshot, the answers and the upstream's behaviour an attempt meets. */
  datatype Attempt = Attempt(accounts: seq<Account>, answers: Answers, sent: Sent)

  /** The caller's API key with its rate hit (`None` is an error) and what becomes of its INCR and its DECR. */
  datatype KeyGate = KeyGate(
    rpmLimit: Option<int>,
    hits: Option<int>,
    maxConcurrency: Option<int>,
    take: Delivery,
    count: int,
    give: Delivery)

  datatype Response =
    | KeyOverRate
    | KeyOverCapacity
    | Unavailable
    | TooLarge
    | NotForwarded(why: Acquired)
    | Unreachable
    | Streaming(account: Account)

  const MAX_ATTEMPTS: nat := 3

  predicate Distinct(ids: seq<nat>) {
    forall i, j :: 0 <= i < j < |ids| ==> ids[i] != ids[j]
  }

  /** `id` is the first account, in the order of the loads the attempt read, that no gate refused. */
  ghost predicate LeastLoaded(attempt: Attempt, excluded: seq<nat>, id: nat) {
    exists k :: 0 <= k < |attempt.accounts| && attempt.accounts[k].id == id
                && FirstNotRefused(attempt.accounts, excluded, attempt.answers, k)
  }

  ghost predicate AllLeastLoaded(world: nat -> Attempt, sends: seq<nat>) {
    forall j :: 0 <= j < |sends| ==> LeastLoaded(world(j), sends[..j], sends[j])
  }

  lemma OneMoreLeastLoaded(world: nat -> Attempt, sends: seq<nat>, id: nat)
    requires AllLeastLoaded(world, sends) && LeastLoaded(world(|sends|), sends, id)
    ensures AllLeastLoaded(world, sends + [id])
  {
    var more := sends + [id];
    forall j | 0 <= j < |more|
      ensures LeastLoaded(world(j), more[..j], more[j])
    {
      assert more[..j] == sends[..j];
      assert sends[..|sends|] == sends;
      assert j < |sends| ==> LeastLoaded(world(j), sends[..j], sends[j]);
    }
  }

  /** What the retry loop did, given everything it met. */
  ghost predicate Forwarded(r: Response, sends: seq<nat>, pinned: Option<nat>, accounting: bool,
                            world: nat -> Attempt)
  {
    && |sends| <= MAX_ATTEMPTS && Distinct(sends)
    && (pinned.Some? ==> |sends| <= 1 && forall id :: id in sends ==> id == pinned.value)
    && (forall j :: 0 <= j < |sends| - 1 ==> world(j).sent == Failed(true))
    && (accounting && pinned.None? ==> AllLeastLoaded(world, sends))
    && match r
       case Streaming(a) => |sends| > 0 && a.id == sends[|sends| - 1] && world(|sends| - 1).sent.Responded?
       case Unreachable =>
         && |sends| > 0 && world(|sends| - 1).sent.Failed?
         && (pinned.Some? || |sends| == MAX_ATTEMPTS || world(|sends| - 1).sent == Failed(false))
       case NotForwarded(why) =>
         && (sends != [] ==> world(|sends| - 1).sent == Failed(true))
         && (why.AtCapacity? ==> accounting && AllRefused(world(|sends|).accounts, sends, world(|sends|).answers))
         && (why.NoAccount? ==> NoneEligible(world(|sends|).accounts, sends))
         && (why.Conflict? ==> pinned.Some?)
         && (pinned.Some? ==> sends == [])
         && !why.Leased?
       case _ => false
  }

  /** What an attempt that excludes `sends` may come to. */
  ghost predicate Chosen(attempt: Attempt, pinned: Option<nat>, accounting: bool, sends: seq<nat>, acquired: Acquired) {
    match acquired
    case Leased(a) =>
      && a.id !in sends
      && (pinned.Some? ==> a.id == pinned.value)
      && (accounting && pinned.None? ==> LeastLoaded(attempt, sends, a.id))
    case AtCapacity => accounting && AllRefused(attempt.accounts, sends, attempt.answers)
    case NoAccount => NoneEligible(attempt.accounts, sends)
    case Conflict => pinned.Some?
    case _ => true
  }

  /** One attempt: picks an account, sends, and gives the slot back if the send fails. */
  method TryOnce(attempt: Attempt, pinned: Option<nat>, accounting: bool, sends: seq<nat>)
    returns (acquired: Acquired, calls: seq<Call>)
    requires pinned.Some? ==> accounting
    ensures Chosen(attempt, pinned, accounting, sends, acquired)
    ensures AttemptLeaves(calls, attempt.accounts, attempt.answers, pinned, accounting, sends,
                          OwedAfter(attempt, accounting, acquired))
  {
    acquired, calls := AcquireAccount(attempt.accounts, pinned, accounting, sends, attempt.answers);
    if accounting && acquired.Leased? && attempt.sent.Failed? && !attempt.answers.give(acquired.account.id).NotSent? {
      ghost var taken := calls;
      calls := calls + [GaveBack(acquired.account.id)];
      forall id: nat
        ensures Net(calls, id) == AttemptLeft(attempt.accounts, attempt.answers, pinned, accounting, sends, id)
      {
        NetSnoc(taken, GaveBack(acquired.account.id), id);
      }
    }
  }

  /** The slot that is still to be given back after an attempt: that of a response that streams. */
  function OwedAfter(attempt: Attempt, accounting: bool, acquired: Acquired): Option<nat> {
    if accounting && attempt.sent.Responded? then Owed(acquired, attempt.answers) else None
  }

  /** What the loop knows before each attempt. */
  ghost predicate Retrying(sends: seq<nat>, pinned: Option<nat>, accounting: bool, world: nat -> Attempt) {
    && |sends| < MAX_ATTEMPTS && Distinct(sends)
    && (pinned.Some? ==> sends == [])
    && (forall j :: 0 <= j < |sends| ==> world(j).sent == Failed(true))
    && (accounting && pinned.None? ==> AllLeastLoaded(world, sends))
  }

  lemma NothingChosen(sends: seq<nat>, pinned: Option<nat>, accounting: bool, world: nat -> Attempt, acquired: Acquired)
    requires Retrying(sends, pinned, accounting, world) && !acquired.Leased?
    requires Chosen(world(|sends|), pinned, accounting, sends, acquired)
    ensures Forwarded(NotForwarded(acquired), sends, pinned, accounting, world)
  {
  }

  /** The loop after one more send: it ends with the response, ends with an error, or knows as much as before. */
  lemma OneMoreSend(sends: seq<nat>, pinned: Option<nat>, accounting: bool, world: nat -> Attempt, a: Account)
    requires Retrying(sends, pinned, accounting, world)
    requires Chosen(world(|sends|), pinned, accounting, sends, Leased(a))
    ensures var more, sent := sends + [a.id], world(|sends|).sent;
            if sent.Responded? then Forwarded(Streaming(a), more, pinned, accounting, world)
            else if !sent.retryable || pinned.Some? || |more| >= MAX_ATTEMPTS
            then Forwarded(Unreachable, more, pinned, accounting, world)
            else Retrying(more, pinned, accounting, world)
  {
    if accounting && pinned.None? {
      OneMoreLeastLoaded(world, sends, a.id);
    }
  }

  /** What the first `n` attempts have done to the counter of `id` for good. */
  ghost function TotalLeft(world: nat -> Attempt, pinned: Option<nat>, accounting: bool, sends: seq<nat>, n: nat,
                           id: nat): int
    requires n <= |sends| + 1
  {
    if n == 0 then 0
    else
      TotalLeft(world, pinned, accounting, sends, n - 1, id)
      + AttemptLeft(world(n - 1).accounts, world(n - 1).answers, pinned, accounting, sends[..n - 1], id)
  }

  lemma {:induction false} EarlierAttempts(world: nat -> Attempt, pinned: Option<nat>, accounting: bool,
                                           sends: seq<nat>, more: nat, n: nat, id: nat)
    requires n <= |sends| + 1
    ensures TotalLeft(world, pinned, accounting, sends + [more], n, id)
            == TotalLeft(world, pinned, accounting, sends, n, id)
  {
    if n > 0 {
      assert (sends + [more])[..n - 1] == sends[..n - 1];
      EarlierAttempts(world, pinned, accounting, sends, more, n - 1, id);
    }
  }

  /** The calls of `n` attempts, and the slot that is still owed. */
  ghost predicate RequestLeaves(calls: seq<Call>, world: nat -> Attempt, pinned: Option<nat>, accounting: bool,
                                sends: seq<nat>, n: nat, owed: Option<nat>)
    requires n <= |sends| + 1
  {
    forall id: nat :: Net(calls, id) == TotalLeft(world, pinned, accounting, sends, n, id) + One(owed, id)
  }

  lemma OneMoreAttempt(calls: seq<Call>, made: seq<Call>, world: nat -> Attempt, pinned: Option<nat>,
                       accounting: bool, sends: seq<nat>, owed: Option<nat>)
    requires RequestLeaves(calls, world, pinned, accounting, sends, |sends|, None)
    requires AttemptLeaves(made, world(|sends|).accounts, world(|sends|).answers, pinned, accounting, sends, owed)
    ensures RequestLeaves(calls + made, world, pinned, accounting, sends, |sends| + 1, owed)
  {
    forall id: nat
      ensures Net(calls + made, id)
              == TotalLeft(world, pinned, accounting, sends, |sends| + 1, id) + One(owed, id)
    {
      NetConcat(calls, made, id);
      assert sends[..|sends|] == sends;
      assert Net(calls, id) == TotalLeft(world, pinned, accounting, sends, |sends|, id) + One(None, id);
    }
  }

  lemma SendRecorded(calls: seq<Call>, world: nat -> Attempt, pinned: Option<nat>, accounting: bool,
                     sends: seq<nat>, more: nat, owed: Option<nat>)
    requires RequestLeaves(calls, world, pinned, accounting, sends, |sends| + 1, owed)
    ensures RequestLeaves(calls, world, pinned, accounting, sends + [more], |sends| + 1, owed)
  {
    forall id: nat
      ensures Net(calls, id) == TotalLeft(world, pinned, accounting, sends + [more], |sends| + 1, id) + One(owed, id)
    {
      EarlierAttempts(world, pinned, accounting, sends, more, |sends| + 1, id);
    }
  }

  /** How many attempts a request has made. */
  function Attempts(r: Response, sends: seq<nat>): nat {
    |sends| + if r.NotForwarded? then 1 else 0
  }

  /** The account slot that the observer of a streaming response will give back. */
  function OwedByStream(r: Response, sends: seq<nat>, accounting: bool, world: nat -> Attempt): Option<nat> {
    if r.Streaming? && sends != [] then OwedAfter(world(|sends| - 1), accounting, Leased(r.account)) else None
  }

  /** What a request that went through the retry loop has done. */
  ghost predicate Ended(r: Response, sends: seq<nat>, calls: seq<Call>, pinned: Option<nat>, accounting: bool,
                        world: nat -> Attempt)
  {
    && Forwarded(r, sends, pinned, accounting, world)
    && RequestLeaves(calls, world, pinned, accounting, sends, Attempts(r, sends),
                     OwedByStream(r, sends, accounting, world))
  }

  ghost predicate InLoop(sends: seq<nat>, calls: seq<Call>, pinned: Option<nat>, accounting: bool,
                         world: nat -> Attempt)
  {
    && Retrying(sends, pinned, accounting, world)
    && RequestLeaves(calls, world, pinned, accounting, sends, |sends|, None)
  }

  lemma RoundWithoutSend(sends: seq<nat>, calls: seq<Call>, made: seq<Call>, pinned: Option<nat>, accounting: bool,
                         world: nat -> Attempt, acquired: Acquired)
    requires InLoop(sends, calls, pinned, accounting, world)
    requires !acquired.Leased? && Chosen(world(|sends|), pinned, accounting, sends, acquired)
    requires AttemptLeaves(made, world(|sends|).accounts, world(|sends|).answers, pinned, accounting, sends, None)
    ensures Ended(NotForwarded(acquired), sends, calls + made, pinned, accounting, world)
  {
    NothingChosen(sends, pinned, accounting, world, acquired);
    OneMoreAttempt(calls, made, world, pinned, accounting, sends, None);
  }

  lemma SendLeaves(sends: seq<nat>, calls: seq<Call>, made: seq<Call>, pinned: Option<nat>, accounting: bool,
                   world: nat -> Attempt, a: Account)
    requires RequestLeaves(calls, world, pinned, accounting, sends, |sends|, None)
    requires AttemptLeaves(made, world(|sends|).accounts, world(|sends|).answers, pinned, accounting, sends,
                           OwedAfter(world(|sends|), accounting, Leased(a)))
    ensures RequestLeaves(calls + made, world, pinned, accounting, sends + [a.id], |sends| + 1,
                          OwedAfter(world(|sends|), accounting, Leased(a)))
  {
    var owed := OwedAfter(world(|sends|), accounting, Leased(a));
    OneMoreAttempt(calls, made, world, pinned, accounting, sends, owed);
    SendRecorded(calls + made, world, pinned, accounting, sends, a.id, owed);
  }

  lemma RoundWithSend(sends: seq<nat>, calls: seq<Call>, made: seq<Call>, pinned: Option<nat>, accounting: bool,
                      world: nat -> Attempt, a: Account)
    requires InLoop(sends, calls, pinned, accounting, world)
    requires Chosen(world(|sends|), pinned, accounting, sends, Leased(a))
    requires AttemptLeaves(made, world(|sends|).accounts, world(|sends|).answers, pinned, accounting, sends,
                           OwedAfter(world(|sends|), accounting, Leased(a)))
    ensures var more, sent := sends + [a.id], world(|sends|).sent;
            if sent.Responded? then Ended(Streaming(a), more, calls + made, pinned, accounting, world)
            else if !sent.retryable || pinned.Some? || |more| >= MAX_ATTEMPTS
            then Ended(Unreachable, more, calls + made, pinned, accounting, world)
            else InLoop(more, calls + made, pinned, accounting, world)
  {
    OneMoreSend(sends, pinned, accounting, world, a);
    SendLeaves(sends, calls, made, pinned, accounting, world, a);
    var more := sends + [a.id];
    assert |more| == |sends| + 1;
  }

  /**
   The retry loop: `sends` lists the accounts the request was sent to, `calls` what it did to their slots, and
   `records` counts its usage records so far.
   */
  method Forward(pinned: Option<nat>, accounting: bool, world: nat -> Attempt)
    returns (r: Response, sends: seq<nat>, calls: seq<Call>, records: nat)
    requires pinned.Some? ==> accounting
    ensures Ended(r, sends, calls, pinned, accounting, world)
    ensures records == if r.Unreachable? then 1 else 0
  {
    sends, calls, records := [], [], 0;
    while true
      invariant InLoop(sends, calls, pinned, accounting, world) && records == 0
      decreases MAX_ATTEMPTS - |sends|
    {
      var attempt := world(|sends|);
      var acquired, made := TryOnce(attempt, pinned, accounting, sends);
      if !acquired.Leased? {
        RoundWithoutSend(sends, calls, made, pinned, accounting, world, acquired);
        return NotForwarded(acquired), sends, calls + made, records;
      }
      RoundWithSend(sends, calls, made, pinned, accounting, world, acquired.account);
      calls, sends := calls + made, sends + [acquired.account.id];
      if attempt.sent.Responded? {
        return Streaming(acquired.account), sends, calls, records;
      }
      if !attempt.sent.retryable || pinned.Some? || |sends| >= MAX_ATTEMPTS {
        return Unreachable, sends, calls, 1;
      }
    }
  }

  // ----- when a finished request leaves a slot taken -----

  /** The attempt takes a slot of `id` that is never given back. */
  ghost predicate StrandedBy(attempt: Attempt, pinned: Option<nat>, accounting: bool, excluded: seq<nat>, id: nat) {
    accounting &&
    match pinned
    case None =>
      exists i :: 0 <= i < |attempt.accounts| && attempt.accounts[i].id == id
                  && Visited(attempt.accounts, excluded, attempt.answers, i)
                  && Strands(attempt.accounts[i], attempt.answers)
    case Some(p) =>
      && id == p && PinHolds(attempt.accounts, excluded, p)
      && !attempt.answers.take(p).NotSent? && !PinnedReturns(attempt.accounts, attempt.answers, p)
  }

  lemma AttemptStrands(attempt: Attempt, pinned: Option<nat>, accounting: bool, excluded: seq<nat>, id: nat)
    ensures AttemptLeft(attempt.accounts, attempt.answers, pinned, accounting, excluded, id) > 0
            <==> StrandedBy(attempt, pinned, accounting, excluded, id)
    ensures pinned.None? ==> AttemptLeft(attempt.accounts, attempt.answers, pinned, accounting, excluded, id) >= 0
  {
    if accounting && pinned.None? {
      var visited := AllVisited(attempt.accounts, excluded, attempt.answers);
      var left := StrandsIn(attempt.accounts, attempt.answers, visited, id);
      if left != {} {
        var i :| i in left;
        assert Visited(attempt.accounts, excluded, attempt.answers, i);
      }
      if i :| 0 <= i < |attempt.accounts| && attempt.accounts[i].id == id
              && Visited(attempt.accounts, excluded, attempt.answers, i)
              && Strands(attempt.accounts[i], attempt.answers) {
        assert i in left;
      }
    }
  }

  /**
   A finished request leaves a slot of an account taken if and only if, in one of its attempts, the INCR was executed
   and its reply lost, or a DECR did not arrive, or the runner was missing.
   */
  lemma {:induction false} LeavesASlotIff(world: nat -> Attempt, pinned: Option<nat>, accounting: bool,
                                          sends: seq<nat>, n: nat, id: nat)
    requires n <= |sends| + 1 && (pinned.Some? ==> n <= 1)
    ensures TotalLeft(world, pinned, accounting, sends, n, id) > 0
            <==> exists j :: 0 <= j < n && StrandedBy(world(j), pinned, accounting, sends[..j], id)
    ensures pinned.None? ==> TotalLeft(world, pinned, accounting, sends, n, id) >= 0
  {
    if n > 0 {
      AttemptStrands(world(n - 1), pinned, accounting, sends[..n - 1], id);
      LeavesASlotIff(world, pinned, accounting, sends, n - 1, id);
    }
  }

  /** The other error: a pinned request whose INCR never arrived takes somebody else's count down. */
  ghost predicate Undercounts(attempt: Attempt, pinned: Option<nat>, accounting: bool, id: nat) {
    && accounting && pinned == Some(id) && PinHolds(attempt.accounts, [], id)
    && attempt.answers.take(id).NotSent? && PinnedReturns(attempt.accounts, attempt.answers, id)
  }

  lemma UndercountsIff(world: nat -> Attempt, pinned: Option<nat>, accounting: bool, sends: seq<nat>, n: nat, id: nat)
    requires n <= |sends| + 1 && (pinned.Some? ==> n <= 1)
    ensures TotalLeft(world, pinned, accounting, sends, n, id) < 0
            <==> n == 1 && Undercounts(world(0), pinned, accounting, id)
  {
    LeavesASlotIff(world, pinned, accounting, sends, n, id);
    if n == 1 {
      assert TotalLeft(world, pinned, accounting, sends, 0, id) == 0 && sends[..0] == [];
    }
  }

  /** One running account, and what becomes of the two commands on it. */
  function OneAccount(take: Delivery, give: Delivery): Attempt {
    Attempt([Account(7, true, Running, true, 1, None)],
            Answers(x => Some(0), x => Some(0), x => take, x => 1, x => give), Responded)
  }

  /** Both happen: a lost reply to an INCR leaves the slot taken, though the runner is there and nothing else fails. */
  lemma LostReplyStrands()
    ensures TotalLeft(j => OneAccount(ReplyLost, Answered), None, true, [], 1, 7) > 0
  {
    var world: nat -> Attempt := j => OneAccount(ReplyLost, Answered);
    var a := world(0);
    assert Visited(a.accounts, [], a.answers, 0) && Strands(a.accounts[0], a.answers);
    var none: seq<nat> := [];
    assert none[..0] == none && StrandedBy(world(0), None, true, none[..0], 7);
    LeavesASlotIff(world, None, true, [], 1, 7);
  }

  /** ... and a pinned request whose INCR is lost and whose DECR arrives takes one off the count. */
  lemma LostIncrementUndercounts()
    ensures TotalLeft(j => OneAccount(NotSent, Answered), Some(7), true, [7], 1, 7) < 0
  {
    var world: nat -> Attempt := j => OneAccount(NotSent, Answered);
    assert Undercounts(world(0), Some(7), true, 7);
    UndercountsIff(world, Some(7), true, [7], 1, 7);
  }

  predicate OverRate(key: KeyGate) {
    key.rpmLimit.Some? && key.hits.GetOr(0) > key.rpmLimit.value
  }

  predicate OverCapacity(key: KeyGate) {
    key.maxConcurrency.Some? && key.take.Answered? && key.count > key.maxConcurrency.value
  }

  /** The request takes a slot of its key that is never given back. */
  predicate KeyStrands(key: KeyGate) {
    !OverRate(key) && key.maxConcurrency.Some? && (key.take.ReplyLost? || (key.take.Answered? && key.give.NotSent?))
  }

  /** Gives the key's slot back, if the command arrives. */
  function AfterRelease(keySlots: int, key: KeyGate): int {
    if key.maxConcurrency.Some? && !key.give.NotSent? then keySlots - 1 else keySlots
  }

  /**
   Serves one request: the limits of its key, then the retry loop.  `keySlots` counts the slots of the key that
   are still taken: when nothing is streaming, the one that is never given back, if there is one.
   */
  method Proxy(key: KeyGate, tooLarge: bool, pinned: Option<nat>, accounting: bool, world: nat -> Attempt)
    returns (r: Response, sends: seq<nat>, calls: seq<Call>, keySlots: int, records: nat)
    requires pinned.Some? ==> accounting
    ensures r.KeyOverRate? <==> OverRate(key)
    ensures r.Unavailable? <==> !OverRate(key) && key.maxConcurrency.Some? && !key.take.Answered?
    ensures r.KeyOverCapacity? <==> !OverRate(key) && OverCapacity(key)
    ensures r.TooLarge? <==> !OverRate(key) && !r.Unavailable? && !OverCapacity(key) && tooLarge
    ensures if TurnedAway(r) then sends == [] && calls == []
            else Ended(r, sends, calls, pinned, accounting, world)
    ensures (if r.Streaming? then AfterRelease(keySlots, key) else keySlots) == if KeyStrands(key) then 1 else 0
    ensures records == if r.Unreachable? then 1 else 0
  {
    sends, calls, keySlots, records := [], [], 0, 0;
    if OverRate(key) {
      return KeyOverRate, sends, calls, keySlots, records;
    }
    if key.maxConcurrency.Some? {
      if !key.take.NotSent? {
        keySlots := keySlots + 1;
      }
      if !key.take.Answered? {
        return Unavailable, sends, calls, keySlots, records;
      }
      if key.count > key.maxConcurrency.value {
        return KeyOverCapacity, sends, calls, AfterRelease(keySlots, key), records;
      }
    }
    if tooLarge {
      return TooLarge, sends, calls, AfterRelease(keySlots, key), records;
    }
    r, sends, calls, records := Forward(pinned, accounting, world);
    if !r.Streaming? {
      keySlots := AfterRelease(keySlots, key);
    }
  }

  /** Refused before anything was chosen. */
  predicate TurnedAway(r: Response) {
    r.KeyOverRate? || r.Unavailable? || r.KeyOverCapacity? || r.TooLarge?
  }

  /** The first sticky lookup that answers decides; a failed lookup counts as no answer. */
  method StickyAccount(lookups: seq<Option<Option<nat>>>) returns (pinned: Option<nat>)
    ensures pinned.None? <==> forall i :: 0 <= i < |lookups| ==> lookups[i].GetOr(None).None?
    ensures pinned.Some? ==>
              exists k :: 0 <= k < |lookups| && lookups[k] == Some(pinned)
                          && forall i :: 0 <= i < k ==> lookups[i].GetOr(None).None?
  {
    for i := 0 to |lookups|
      invariant forall k :: 0 <= k < i ==> lookups[k].GetOr(None).None?
    {
      if lookups[i].GetOr(None).Some? {
        return lookups[i].value;
      }
    }
    pinned := None;
  }
}
