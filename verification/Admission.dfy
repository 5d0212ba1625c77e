/**
 In-flight accounting.  Any number of requests on any number of replicas take and give back slots of accounts
 (or of API keys: the counters work alike).  Taking a slot is one INCR; giving it back is a DECR that is
 followed by a separate DEL when the result is not positive.  Every INCR sets the key's expiry anew.
 */
module Admission {
  import opened Common

  datatype Request =
    | Probing(key: nat, answer: int)     // has incremented, has not judged the answer
    | Holding(key: nat, pinned: bool)
    | Deleting(key: nat)                 // has decremented to zero or less, DEL still to come
    | Leaked(key: nat)                   // dropped or crashed without giving the slot back

  /** `INFLIGHT_TTL_SECS`. */
  const TTL: nat := 3600

  /** `expires` holds the last second at which a key exists, unless it was created by a DECR and never expires. */
  datatype State = State(
    caps: map<nat, int>,
    now: nat,
    counts: map<nat, int>,
    expires: map<nat, nat>,
    requests: map<nat, Request>)

  datatype Action =
    | Acquire(id: nat, key: nat, pinned: bool)
    | Miss(id: nat, key: nat)            // a pinned request goes on although its INCR never arrived
    | Admit(id: nat)
    | Decr(id: nat)
    | Del(id: nat)
    | Release(id: nat)                   // DECR and DEL with nothing in between
    | Leak(id: nat)
    | Elapse(seconds: nat)

  function Lookup(m: map<nat, int>, key: nat): int {
    if key in m then m[key] else 0
  }

  function Count(s: State, key: nat): int {
    Lookup(s.counts, key)
  }

  /** What `inflight_get` answers. */
  function Load(s: State, key: nat): int {
    if Count(s, key) > 0 then Count(s, key) else 0
  }

  function Cap(s: State, key: nat): int {
    Lookup(s.caps, key)
  }

  /** A slot is given back when its response ends, or right after a probe that came back over the cap. */
  predicate GivesBack(s: State, id: nat) {
    id in s.requests &&
    match s.requests[id]
    case Holding(_, _) => true
    case Probing(key, answer) => answer > Cap(s, key)
    case _ => false
  }

  predicate WantsDel(s: State, id: nat) {
    id in s.requests && s.requests[id].Deleting?
  }

  function DoDecr(s: State, id: nat): State
    requires id in s.requests
  {
    var key := s.requests[id].key;
    var n := Count(s, key) - 1;
    s.(counts := s.counts[key := n],
       requests := if n <= 0 then s.requests[id := Deleting(key)] else s.requests - {id})
  }

  function DoDel(s: State, id: nat): State
    requires id in s.requests
  {
    var key := s.requests[id].key;
    s.(counts := s.counts - {key}, expires := s.expires - {key}, requests := s.requests - {id})
  }

  /** Does the key expire before or at that moment? */
  predicate ExpiresBy(expires: map<nat, nat>, key: nat, moment: nat) {
    key in expires && moment > expires[key]
  }

  function Unexpired<V>(m: map<nat, V>, expires: map<nat, nat>, moment: nat): map<nat, V> {
    map key | key in m && !ExpiresBy(expires, key, moment) :: m[key]
  }

  function Step(s: State, a: Action): State {
    match a
    case Acquire(id, key, pinned) =>
      if id in s.requests then s
      else
        var n := Count(s, key) + 1;
        s.(counts := s.counts[key := n],
           expires := s.expires[key := s.now + TTL],
           requests := s.requests[id := if pinned then Holding(key, true) else Probing(key, n)])
    case Miss(id, key) => if id in s.requests then s else s.(requests := s.requests[id := Holding(key, true)])
    case Admit(id) =>
      if id in s.requests && s.requests[id].Probing? && s.requests[id].answer <= Cap(s, s.requests[id].key)
      then s.(requests := s.requests[id := Holding(s.requests[id].key, false)])
      else s
    case Decr(id) => if GivesBack(s, id) then DoDecr(s, id) else s
    case Del(id) => if WantsDel(s, id) then DoDel(s, id) else s
    case Release(id) =>
      if !GivesBack(s, id) then s
      else
        var t := DoDecr(s, id);
        if WantsDel(t, id) then DoDel(t, id) else t
    case Leak(id) =>
      if id in s.requests && (s.requests[id].Holding? || s.requests[id].Probing?)
      then s.(requests := s.requests[id := Leaked(s.requests[id].key)])
      else s
    case Elapse(seconds) =>
      var moment := s.now + seconds;
      s.(now := moment,
         counts := Unexpired(s.counts, s.expires, moment),
         expires := Unexpired(s.expires, s.expires, moment))
  }

  function Run(s: State, actions: seq<Action>): State
    decreases |actions|
  {
    if actions == [] then s else Run(Step(s, actions[0]), actions[1..])
  }

  lemma {:induction false} RunAppend(s: State, first: seq<Action>, rest: seq<Action>)
    ensures Run(s, first + rest) == Run(Run(s, first), rest)
    decreases |first|
  {
    if first == [] {
      assert first + rest == rest;
    } else {
      assert (first + rest)[1..] == first[1..] + rest;
      RunAppend(Step(s, first[0]), first[1..], rest);
    }
  }

  lemma RunSnoc(s: State, actions: seq<Action>, a: Action)
    ensures Run(s, actions + [a]) == Step(Run(s, actions), a)
  {
    RunAppend(s, actions, [a]);
    assert [a][1..] == [];
  }

  function Start(caps: map<nat, int>): State {
    State(caps, 0, map[], map[], map[])
  }

  predicate TakesSlot(r: Request, key: nat) {
    r.key == key && !r.Deleting?
  }

  /** The requests that have taken a slot of `key` and not given it back. */
  function Takers(s: State, key: nat): set<nat> {
    set id | id in s.requests && TakesSlot(s.requests[id], key)
  }

  /** How a step moves the takers and the counter of one key, except for deletions. */
  lemma StepTakers(s: State, a: Action, key: nat)
    ensures var t := Step(s, a);
            match a
            case Acquire(id, k, _) =>
              if id in s.requests || k != key then Takers(t, key) == Takers(s, key)
              else id !in Takers(s, key) && Takers(t, key) == Takers(s, key) + {id}
            case Miss(id, k) =>
              if id in s.requests || k != key then Takers(t, key) == Takers(s, key)
              else id !in Takers(s, key) && Takers(t, key) == Takers(s, key) + {id}
            case Decr(id) =>
              if GivesBack(s, id) && s.requests[id].key == key
              then id in Takers(s, key) && Takers(t, key) == Takers(s, key) - {id}
              else Takers(t, key) == Takers(s, key)
            case Release(id) =>
              if GivesBack(s, id) && s.requests[id].key == key
              then id in Takers(s, key) && Takers(t, key) == Takers(s, key) - {id}
              else Takers(t, key) == Takers(s, key)
            case _ => Takers(t, key) == Takers(s, key)
  {
  }

  /** How a step moves the counter of one key. */
  lemma StepCount(s: State, a: Action, key: nat)
    ensures var t := Step(s, a);
            match a
            case Acquire(id, k, _) =>
              Count(t, key) == Count(s, key) + (if id in s.requests || k != key then 0 else 1)
            case Decr(id) =>
              Count(t, key) == Count(s, key) - (if GivesBack(s, id) && s.requests[id].key == key then 1 else 0)
            case Release(id) =>
              if GivesBack(s, id) && s.requests[id].key == key
              then Count(t, key) == if Count(s, key) > 1 then Count(s, key) - 1 else 0
              else Count(t, key) == Count(s, key)
            case _ => Count(t, key) == if key in Removes(s, a) then 0 else Count(s, key)
  {
  }

  // ----- no phantom load -----

  ghost predicate Bounded(s: State) {
    forall key :: Count(s, key) <= |Takers(s, key)|
  }

  lemma StepKeepsBounded(s: State, a: Action)
    requires Bounded(s)
    ensures Bounded(Step(s, a))
  {
    var t := Step(s, a);
    forall key
      ensures Count(t, key) <= |Takers(t, key)|
    {
      StepTakers(s, a, key);
      StepCount(s, a, key);
      assert Count(s, key) <= |Takers(s, key)|;
    }
  }

  lemma {:induction false} BoundedAlways(s: State, actions: seq<Action>)
    requires Bounded(s)
    ensures Bounded(Run(s, actions))
    decreases |actions|
  {
    if actions != [] {
      StepKeepsBounded(s, actions[0]);
      BoundedAlways(Step(s, actions[0]), actions[1..]);
    }
  }

  /** In no interleaving does a counter exceed the slots that are taken: an idle account reads load 0. */
  lemma NoPhantomLoad(caps: map<nat, int>, actions: seq<Action>, key: nat)
    ensures var t := Run(Start(caps), actions);
            && Load(t, key) <= |Takers(t, key)|
            && (Takers(t, key) == {} ==> Load(t, key) == 0)
  {
    assert Bounded(Start(caps));
    BoundedAlways(Start(caps), actions);
    var t := Run(Start(caps), actions);
    assert Count(t, key) <= |Takers(t, key)|;
  }

  // ----- when the count is exact -----

  ghost predicate Exact(s: State) {
    forall key :: Count(s, key) == |Takers(s, key)|
  }

  /** The keys an action removes, by a DEL or because they expire. */
  function Removes(s: State, a: Action): set<nat> {
    match a
    case Del(id) => if WantsDel(s, id) then {s.requests[id].key} else {}
    case Elapse(seconds) => set key | key in s.counts && ExpiresBy(s.expires, key, s.now + seconds)
    case _ => {}
  }

  /** A removal that throws nothing away. */
  predicate RemovesZero(s: State, a: Action) {
    forall key :: key in Removes(s, a) ==> Count(s, key) == 0
  }

  /** Every slot that is taken is counted, and nothing that is counted is thrown away. */
  predicate CountsRight(s: State, a: Action) {
    RemovesZero(s, a) && (a.Miss? ==> a.id in s.requests)
  }

  ghost predicate ExactThroughout(s: State, actions: seq<Action>)
    decreases |actions|
  {
    Exact(s) && (actions != [] ==> ExactThroughout(Step(s, actions[0]), actions[1..]))
  }

  ghost predicate AlwaysCountsRight(s: State, actions: seq<Action>)
    decreases |actions|
  {
    actions != [] ==> CountsRight(s, actions[0]) && AlwaysCountsRight(Step(s, actions[0]), actions[1..])
  }

  lemma MiscountAt(s: State, a: Action, key: nat)
    requires Count(s, key) == |Takers(s, key)|
    requires if a.Miss? then a.key == key && a.id !in s.requests else key in Removes(s, a) && Count(s, key) != 0
    ensures Count(Step(s, a), key) != |Takers(Step(s, a), key)|
  {
    StepTakers(s, a, key);
    StepCount(s, a, key);
  }

  lemma MiscountBreaksExactness(s: State, a: Action)
    requires Exact(s) && !CountsRight(s, a)
    ensures !Exact(Step(s, a))
  {
    if a.Miss? {
      MiscountAt(s, a, a.key);
    } else {
      var key :| key in Removes(s, a) && Count(s, key) != 0;
      MiscountAt(s, a, key);
    }
  }

  lemma StepKeepsExactAt(s: State, a: Action, key: nat)
    requires Count(s, key) == |Takers(s, key)| && CountsRight(s, a)
    ensures Count(Step(s, a), key) == |Takers(Step(s, a), key)|
  {
    StepTakers(s, a, key);
    StepCount(s, a, key);
  }

  lemma StepKeepsExact(s: State, a: Action)
    requires Exact(s) && CountsRight(s, a)
    ensures Exact(Step(s, a))
  {
    forall key
      ensures Count(Step(s, a), key) == |Takers(Step(s, a), key)|
    {
      StepKeepsExactAt(s, a, key);
    }
  }

  /**
   Along a whole run every counter equals the number of slots taken, if and only if no DEL and no expiry ever
   hits a counter that is not zero and no pinned request goes on without its increment.
   */
  lemma {:induction false} ExactIffCountsRight(s: State, actions: seq<Action>)
    requires Exact(s)
    ensures ExactThroughout(s, actions) <==> AlwaysCountsRight(s, actions)
    decreases |actions|
  {
    if actions != [] {
      if CountsRight(s, actions[0]) {
        StepKeepsExact(s, actions[0]);
        ExactIffCountsRight(Step(s, actions[0]), actions[1..]);
      } else {
        MiscountBreaksExactness(s, actions[0]);
      }
    }
  }

  /** No key with a slot taken expires. */
  ghost predicate NoSlotExpires(s: State, actions: seq<Action>)
    decreases |actions|
  {
    actions != [] ==>
      (actions[0].Elapse? ==> RemovesZero(s, actions[0])) && NoSlotExpires(Step(s, actions[0]), actions[1..])
  }

  /** When nothing comes between a DECR and its DEL, no slot expires and no increment is missed, the count is exact. */
  lemma {:induction false} WholeReleasesAreExact(s: State, actions: seq<Action>)
    requires Exact(s)
    requires forall id :: !WantsDel(s, id)
    requires forall a :: a in actions ==> !a.Decr? && !a.Del? && !a.Miss?
    requires NoSlotExpires(s, actions)
    ensures ExactThroughout(s, actions)
    decreases |actions|
  {
    if actions != [] {
      assert actions[0] in actions;
      var t := Step(s, actions[0]);
      StepKeepsExact(s, actions[0]);
      forall id
        ensures !WantsDel(t, id)
      {
        assert !WantsDel(s, id);
      }
      WholeReleasesAreExact(t, actions[1..]);
    }
  }

  // ----- the concurrency cap -----

  predicate CountsAgainstCap(s: State, r: Request, key: nat) {
    r.key == key && ((r.Holding? && !r.pinned) || (r.Probing? && r.answer <= Cap(s, key)))
  }

  /** Unpinned requests that hold a slot of `key`, or are about to because their probe came back within the cap. */
  function Admitted(s: State, key: nat): set<nat> {
    set id | id in s.requests && CountsAgainstCap(s, s.requests[id], key)
  }

  ghost predicate WithinCaps(s: State) {
    forall key :: Admitted(s, key) != {} ==> |Admitted(s, key)| <= Cap(s, key)
  }

  /** Only an unpinned INCR that comes back within the cap adds to the admitted requests. */
  lemma StepAdmits(s: State, a: Action, key: nat)
    ensures Admitted(Step(s, a), key) <= Admitted(s, key)
            || (a.Acquire? && a.key == key && a.id !in s.requests && Count(s, key) + 1 <= Cap(s, key)
                && Admitted(Step(s, a), key) <= Admitted(s, key) + {a.id})
  {
  }

  /** An exact counter that comes back within the cap leaves room for the one who incremented it. */
  lemma RoomForOne(s: State, key: nat, id: nat, admitted: set<nat>)
    requires Count(s, key) == |Takers(s, key)| && Count(s, key) + 1 <= Cap(s, key)
    requires admitted <= Admitted(s, key) + {id}
    ensures |admitted| <= Cap(s, key)
  {
    assert Admitted(s, key) <= Takers(s, key);
    SubsetSize(admitted, Takers(s, key) + {id});
  }

  lemma StepKeepsCapOf(s: State, a: Action, key: nat)
    requires Count(s, key) == |Takers(s, key)|
    requires Admitted(s, key) != {} ==> |Admitted(s, key)| <= Cap(s, key)
    ensures Admitted(Step(s, a), key) != {} ==> |Admitted(Step(s, a), key)| <= Cap(s, key)
  {
    var admitted := Admitted(Step(s, a), key);
    StepAdmits(s, a, key);
    if admitted <= Admitted(s, key) {
      SubsetSize(admitted, Admitted(s, key));
    } else {
      RoomForOne(s, key, a.id, admitted);
    }
  }

  lemma StepKeepsCaps(s: State, a: Action)
    requires Exact(s) && WithinCaps(s)
    ensures WithinCaps(Step(s, a))
  {
    var t := Step(s, a);
    forall key | Admitted(t, key) != {}
      ensures |Admitted(t, key)| <= Cap(t, key)
    {
      assert Count(s, key) == |Takers(s, key)|;
      assert Admitted(s, key) != {} ==> |Admitted(s, key)| <= Cap(s, key);
      StepKeepsCapOf(s, a, key);
    }
  }

  lemma {:induction false} CapsHold(s: State, actions: seq<Action>)
    requires WithinCaps(s) && ExactThroughout(s, actions)
    ensures WithinCaps(Run(s, actions))
    decreases |actions|
  {
    if actions != [] {
      StepKeepsCaps(s, actions[0]);
      CapsHold(Step(s, actions[0]), actions[1..]);
    }
  }

  function UnpinnedLeases(s: State, key: nat): set<nat> {
    set id | id in s.requests && s.requests[id].Holding? && s.requests[id].key == key && !s.requests[id].pinned
  }

  /** As long as the count is exact, unpinned leases never exceed the cap, however many pinned ones bypass it. */
  lemma UnpinnedLeasesWithinCap(caps: map<nat, int>, actions: seq<Action>, key: nat)
    requires AlwaysCountsRight(Start(caps), actions)
    ensures var t := Run(Start(caps), actions);
            UnpinnedLeases(t, key) == {} || |UnpinnedLeases(t, key)| <= Lookup(caps, key)
  {
    assert Exact(Start(caps));
    ExactIffCountsRight(Start(caps), actions);
    CapsHold(Start(caps), actions);
    CapsStay(Start(caps), actions);
    var t := Run(Start(caps), actions);
    assert UnpinnedLeases(t, key) <= Admitted(t, key);
    SubsetSize(UnpinnedLeases(t, key), Admitted(t, key));
    assert Admitted(t, key) != {} ==> |Admitted(t, key)| <= Cap(t, key);
  }

  lemma {:induction false} CapsStay(s: State, actions: seq<Action>)
    ensures Run(s, actions).caps == s.caps
    decreases |actions|
  {
    if actions != [] {
      CapsStay(Step(s, actions[0]), actions[1..]);
    }
  }

  /**
   The condition is needed: a DEL that arrives after another request's INCR forgets that request, and an account
   that allows one concurrent request then serves two.
   */
  lemma LateDelExceedsCap()
    ensures var first := Step(Step(Start(map[0 := 1]), Acquire(1, 0, false)), Admit(1));
            var raced := Step(Step(Step(first, Decr(1)), Acquire(2, 0, false)), Admit(2));
            var t := Step(Step(Step(raced, Del(1)), Acquire(3, 0, false)), Admit(3));
            UnpinnedLeases(t, 0) == {2, 3} && Cap(t, 0) == 1
  {
  }

  // ----- what becomes of a leaked slot -----

  /** Is there a stretch longer than the TTL without an acquire of `key`, `idle` seconds of which have passed? */
  ghost predicate GoesQuiet(s: State, actions: seq<Action>, key: nat, idle: nat)
    decreases |actions|
  {
    actions != [] &&
    match actions[0]
    case Elapse(seconds) =>
      idle + seconds > TTL || GoesQuiet(Step(s, actions[0]), actions[1..], key, idle + seconds)
    case Acquire(id, k, _) =>
      GoesQuiet(Step(s, actions[0]), actions[1..], key, if k == key && id !in s.requests then 0 else idle)
    case _ => GoesQuiet(Step(s, actions[0]), actions[1..], key, idle)
  }

  predicate LeakedOn(s: State, id: nat, key: nat) {
    id in s.requests && s.requests[id] == Leaked(key)
  }

  /** The leaked slot is counted, with all others of its key, and the last acquire of the key is `idle` seconds ago. */
  ghost predicate Pins(s: State, id: nat, key: nat, idle: nat) {
    && LeakedOn(s, id, key)
    && Count(s, key) == |Takers(s, key)|
    && key in s.expires && s.expires[key] + idle == s.now + TTL
    && (forall x :: WantsDel(s, x) ==> s.requests[x].key != key)
  }

  /** The other takers of the key. */
  function OtherTakers(s: State, id: nat, key: nat): set<nat> {
    Takers(s, key) - {id}
  }

  /** The counter has lost the leaked slot: it counts at most the others. */
  ghost predicate Forgot(s: State, id: nat, key: nat) {
    LeakedOn(s, id, key) && Count(s, key) <= |OtherTakers(s, id, key)|
  }

  lemma TakingKeepsForgotten(s: State, a: Action, id: nat, key: nat)
    requires Forgot(s, id, key) && (a.Acquire? || a.Miss?)
    ensures Forgot(Step(s, a), id, key)
  {
    StepTakers(s, a, key);
    StepCount(s, a, key);
    if a.id !in s.requests && a.key == key {
      assert OtherTakers(Step(s, a), id, key) == OtherTakers(s, id, key) + {a.id};
    }
  }

  lemma GivingBackKeepsForgotten(s: State, a: Action, id: nat, key: nat)
    requires Forgot(s, id, key) && (a.Decr? || a.Release?)
    ensures Forgot(Step(s, a), id, key)
  {
    StepTakers(s, a, key);
    StepCount(s, a, key);
    if GivesBack(s, a.id) && s.requests[a.id].key == key {
      assert OtherTakers(Step(s, a), id, key) == OtherTakers(s, id, key) - {a.id};
    }
  }

  lemma ForgottenForGood(s: State, a: Action, id: nat, key: nat)
    requires Forgot(s, id, key)
    ensures Forgot(Step(s, a), id, key)
  {
    if a.Acquire? || a.Miss? {
      TakingKeepsForgotten(s, a, id, key);
    } else if a.Decr? || a.Release? {
      GivingBackKeepsForgotten(s, a, id, key);
    } else {
      StepTakers(s, a, key);
      StepCount(s, a, key);
    }
  }

  lemma {:induction false} ForgottenAlways(s: State, actions: seq<Action>, id: nat, key: nat)
    requires Forgot(s, id, key)
    ensures Forgot(Run(s, actions), id, key)
    decreases |actions|
  {
    if actions != [] {
      ForgottenForGood(s, actions[0], id, key);
      ForgottenAlways(Step(s, actions[0]), actions[1..], id, key);
    }
  }

  lemma PinnedTakers(s: State, id: nat, key: nat)
    requires LeakedOn(s, id, key)
    ensures id in Takers(s, key) && |Takers(s, key)| == |OtherTakers(s, id, key)| + 1
  {
  }

  /** Seconds since the last acquire of `key`, after one more action. */
  function Idle(s: State, a: Action, key: nat, idle: nat): nat {
    match a
    case Elapse(seconds) => idle + seconds
    case Acquire(id, k, _) => if k == key && id !in s.requests then 0 else idle
    case _ => idle
  }

  lemma GivingBackKeepsPinned(s: State, a: Action, id: nat, key: nat, idle: nat)
    requires Pins(s, id, key, idle) && (a.Decr? || a.Release?)
    ensures Pins(Step(s, a), id, key, idle)
  {
    StepTakers(s, a, key);
    StepCount(s, a, key);
    PinnedTakers(s, id, key);
    PinnedTakers(Step(s, a), id, key);
  }

  lemma OthersKeepCount(s: State, a: Action, id: nat, key: nat, idle: nat)
    requires Pins(s, id, key, idle) && !a.Decr? && !a.Release? && (a.Miss? ==> a.key != key)
    requires a.Elapse? ==> idle + a.seconds <= TTL
    ensures Count(Step(s, a), key) == |Takers(Step(s, a), key)|
  {
    StepTakers(s, a, key);
    StepCount(s, a, key);
  }

  lemma OthersKeepLeak(s: State, a: Action, id: nat, key: nat)
    requires LeakedOn(s, id, key)
    ensures LeakedOn(Step(s, a), id, key)
  {
  }

  lemma OthersKeepExpiry(s: State, a: Action, key: nat, idle: nat)
    requires key in s.expires && s.expires[key] + idle == s.now + TTL && !a.Decr? && !a.Release?
    requires a.Elapse? ==> idle + a.seconds <= TTL
    requires a.Del? && WantsDel(s, a.id) ==> s.requests[a.id].key != key
    ensures var t := Step(s, a); key in t.expires && t.expires[key] + Idle(s, a, key, idle) == t.now + TTL
  {
  }

  lemma NobodyElseDeletes(s: State, a: Action, key: nat, x: nat)
    requires WantsDel(s, x) ==> s.requests[x].key != key
    requires !a.Decr? && !a.Release?
    ensures WantsDel(Step(s, a), x) ==> Step(s, a).requests[x].key != key
  {
  }

  lemma OthersKeepPinned(s: State, a: Action, id: nat, key: nat, idle: nat)
    requires Pins(s, id, key, idle) && !a.Decr? && !a.Release? && (a.Miss? ==> a.key != key)
    requires a.Elapse? ==> idle + a.seconds <= TTL
    ensures Pins(Step(s, a), id, key, Idle(s, a, key, idle))
  {
    OthersKeepLeak(s, a, id, key);
    OthersKeepCount(s, a, id, key, idle);
    OthersKeepExpiry(s, a, key, idle);
    forall x | WantsDel(Step(s, a), x)
      ensures Step(s, a).requests[x].key != key
    {
      NobodyElseDeletes(s, a, key, x);
    }
  }

  /**
   A request that never gives its slot back keeps it counted if and only if every stretch without an acquire of the
   same account is at most the TTL; after a longer one the counter has lost the slot for good.
   */
  lemma {:induction false} LeakForgottenIffQuiet(s: State, actions: seq<Action>, id: nat, key: nat, idle: nat)
    requires Pins(s, id, key, idle)
    requires forall a :: a in actions ==> (a.Miss? ==> a.key != key)
    ensures var t := Run(s, actions);
            && (Count(t, key) == |Takers(t, key)| <==> !GoesQuiet(s, actions, key, idle))
            && (GoesQuiet(s, actions, key, idle) ==> Forgot(t, id, key))
    decreases |actions|
  {
    if actions != [] {
      var a, t := actions[0], Step(s, actions[0]);
      assert a in actions;
      if a.Elapse? && idle + a.seconds > TTL {
        assert Forgot(t, id, key);
        ForgottenAlways(t, actions[1..], id, key);
        PinnedTakers(Run(s, actions), id, key);
      } else {
        if a.Decr? || a.Release? {
          GivingBackKeepsPinned(s, a, id, key, idle);
        } else {
          OthersKeepPinned(s, a, id, key, idle);
        }
        LeakForgottenIffQuiet(t, actions[1..], id, key, Idle(s, a, key, idle));
      }
    }
  }

  /** A positive counter has an expiry, at most a TTL away. */
  ghost predicate Dated(s: State) {
    forall key :: Count(s, key) > 0 ==> key in s.expires && s.now <= s.expires[key] <= s.now + TTL
  }

  lemma {:induction false} DatedAlways(s: State, actions: seq<Action>)
    requires Dated(s)
    ensures Dated(Run(s, actions))
    decreases |actions|
  {
    if actions != [] {
      forall key | Count(Step(s, actions[0]), key) > 0
        ensures var t := Step(s, actions[0]); key in t.expires && t.now <= t.expires[key] <= t.now + TTL
      {
        StepStaysDated(s, actions[0], key);
      }
      DatedAlways(Step(s, actions[0]), actions[1..]);
    }
  }

  lemma StepStaysDated(s: State, a: Action, key: nat)
    requires Count(s, key) > 0 ==> key in s.expires && s.now <= s.expires[key] <= s.now + TTL
    requires Count(Step(s, a), key) > 0
    ensures var t := Step(s, a); key in t.expires && t.now <= t.expires[key] <= t.now + TTL
  {
    StepCount(s, a, key);
  }

  /** Wherever a run has counted right so far, a leaked slot is pinned; what becomes of it is then decided as above. */
  lemma LeakIsPinned(caps: map<nat, int>, actions: seq<Action>, id: nat, key: nat)
    requires AlwaysCountsRight(Start(caps), actions)
    requires LeakedOn(Run(Start(caps), actions), id, key)
    requires forall x :: WantsDel(Run(Start(caps), actions), x) ==> Run(Start(caps), actions).requests[x].key != key
    ensures exists idle :: Pins(Run(Start(caps), actions), id, key, idle)
  {
    var t := Run(Start(caps), actions);
    ExactIffCountsRight(Start(caps), actions);
    ExactAtLast(Start(caps), actions);
    DatedAlways(Start(caps), actions);
    PinnedTakers(t, id, key);
    assert Count(t, key) == |Takers(t, key)|;
    assert Pins(t, id, key, t.now + TTL - t.expires[key]);
  }

  lemma {:induction false} ExactAtLast(s: State, actions: seq<Action>)
    requires ExactThroughout(s, actions)
    ensures Exact(Run(s, actions))
    decreases |actions|
  {
    if actions != [] {
      ExactAtLast(Step(s, actions[0]), actions[1..]);
    }
  }

  /** A request that comes after an hour and is refused. */
  const RefusedHour: seq<Action> := [Elapse(TTL), Acquire(1, 0, false), Release(1)]

  /** A crash, and one refused request every hour. */
  function Hours(n: nat): seq<Action> {
    if n == 0 then [Acquire(0, 0, false), Leak(0)] else Hours(n - 1) + RefusedHour
  }

  /** An account that allows one request and is full because of a leaked slot, just after the last acquire. */
  function Full(since: nat): State {
    State(map[0 := 1], since, map[0 := 1], map[0 := since + TTL], map[0 := Leaked(0)])
  }

  lemma FirstLeak()
    ensures Run(Start(map[0 := 1]), Hours(0)) == Full(0)
  {
    assert Hours(0)[1..] == [Leak(0)] && Hours(0)[1..][1..] == [];
    var taken := Step(Start(map[0 := 1]), Acquire(0, 0, false));
    assert taken.requests == map[0 := Probing(0, 1)] && taken.counts == map[0 := 1];
  }

  lemma AnotherHour(since: nat)
    ensures Run(Full(since), RefusedHour) == Full(since + TTL)
  {
    var hour := Step(Full(since), Elapse(TTL));
    assert hour.counts == map[0 := 1] && hour.expires == map[0 := since + TTL];
    var asked := Step(hour, Acquire(1, 0, false));
    assert asked.counts == map[0 := 2] && GivesBack(asked, 1);
    var refused := Step(asked, Release(1));
    assert refused.counts == map[0 := 1] && refused.requests == map[0 := Leaked(0)];
    assert refused.expires == map[0 := since + TTL + TTL];
    var wait: seq<Action> := [Elapse(TTL)];
    assert wait[1..] == [];
    RunSnoc(Full(since), wait, Acquire(1, 0, false));
    RunSnoc(Full(since), wait + [Acquire(1, 0, false)], Release(1));
    assert RefusedHour == wait + [Acquire(1, 0, false)] + [Release(1)];
  }

  lemma Chain(s: State, first: seq<Action>, rest: seq<Action>, mid: State, last: State)
    requires Run(s, first) == mid && Run(mid, rest) == last
    ensures Run(s, first + rest) == last
  {
    RunAppend(s, first, rest);
  }

  /**
   So a crash can pin a slot for ever: on an account that allows one request, one leaked slot and one request an hour,
   which is refused because of it, keep the account full for any number of hours.
   */
  lemma {:induction false} CrashCanPinForEver(n: nat)
    ensures Run(Start(map[0 := 1]), Hours(n)) == Full(n * TTL)
  {
    if n == 0 {
      FirstLeak();
    } else {
      CrashCanPinForEver(n - 1);
      var since := n * TTL - TTL;
      AnotherHour(since);
      Chain(Start(map[0 := 1]), Hours(n - 1), RefusedHour, Full(since), Full(since + TTL));
    }
  }
}
