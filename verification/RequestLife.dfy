/** One request from its first counter to its last: what it takes, what it gives back, what it records. */
module RequestLife {
  import opened Common
  import opened Gateway
  import Observer

  /** The request, once it is over, has stranded a slot of account `id`. */
  ghost predicate StrandsAccount(r: Response, sends: seq<nat>, pinned: Option<nat>, accounting: bool,
                                 world: nat -> Attempt, id: nat)
  {
    !TurnedAway(r) &&
    exists j :: 0 <= j < Attempts(r, sends) && StrandedBy(world(j), pinned, accounting, Excluded(sends, j), id)
  }

  /** The accounts that attempt `j` excludes. */
  function Excluded(sends: seq<nat>, j: nat): seq<nat> {
    if j <= |sends| then sends[..j] else sends
  }

  /** What the calls of a request that is over come to. */
  lemma FinishedRequest(r: Response, sends: seq<nat>, calls: seq<Call>, pinned: Option<nat>, accounting: bool,
                        world: nat -> Attempt, id: nat)
    requires Forwarded(r, sends, pinned, accounting, world)
    requires RequestLeaves(calls, world, pinned, accounting, sends, Attempts(r, sends), None)
    ensures Net(calls, id) > 0 <==> exists j :: 0 <= j < Attempts(r, sends)
                                                && StrandedBy(world(j), pinned, accounting, Excluded(sends, j), id)
    ensures Net(calls, id) < 0 <==> Attempts(r, sends) == 1 && Undercounts(world(0), pinned, accounting, id)
  {
    LeavesASlotIff(world, pinned, accounting, sends, Attempts(r, sends), id);
    UndercountsIff(world, pinned, accounting, sends, Attempts(r, sends), id);
    assert Net(calls, id) == TotalLeft(world, pinned, accounting, sends, Attempts(r, sends), id) + One(None, id);
    forall j | 0 <= j < Attempts(r, sends)
      ensures StrandedBy(world(j), pinned, accounting, Excluded(sends, j), id)
              <==> StrandedBy(world(j), pinned, accounting, sends[..j], id)
    {
    }
  }

  /**
   A request is served and its response, if it streams, is read to the end or left at any event.  It leaves a slot of
   an account, or of its key, if and only if a reply or a release was lost on the way or a runner was missing; it
   takes another request's count down if and only if it was pinned and its own increment was lost.  It is recorded
   once if it was sent for the last time, and not at all otherwise.
   */
  method Serve(key: KeyGate, tooLarge: bool, pinned: Option<nat>, accounting: bool, world: nat -> Attempt,
               events: seq<Observer.Event>)
    returns (r: Response, sends: seq<nat>, calls: seq<Call>, keySlots: int, records: nat)
    requires pinned.Some? ==> accounting
    ensures forall id: nat :: Net(calls, id) > 0 <==> StrandsAccount(r, sends, pinned, accounting, world, id)
    ensures forall id: nat ::
              Net(calls, id) < 0
              <==> !TurnedAway(r) && Attempts(r, sends) == 1 && Undercounts(world(0), pinned, accounting, id)
    ensures keySlots == if KeyStrands(key) then 1 else 0
    ensures records == if r.Streaming? || r.Unreachable? then 1 else 0
  {
    r, sends, calls, keySlots, records := Proxy(key, tooLarge, pinned, accounting, world);
    if r.Streaming? {
      var o := new Observer.Observer(accounting, key.maxConcurrency.Some?);
      Observer.ServeStream(o, events);
      records := records + o.records;
      if o.keyReleases > 0 {
        keySlots := AfterRelease(keySlots, key);
      }
      if o.accountReleases > 0 && !world(|sends| - 1).answers.give(r.account.id).NotSent? {
        StreamReturns(r, sends, calls, pinned, accounting, world);
        calls := calls + [GaveBack(r.account.id)];
      }
    }
    if !TurnedAway(r) {
      forall id: nat
        ensures Net(calls, id) > 0 <==> StrandsAccount(r, sends, pinned, accounting, world, id)
        ensures Net(calls, id) < 0 <==> Attempts(r, sends) == 1 && Undercounts(world(0), pinned, accounting, id)
      {
        FinishedRequest(r, sends, calls, pinned, accounting, world, id);
      }
    }
  }

  /** The observer's release settles what the response still owed. */
  lemma StreamReturns(r: Response, sends: seq<nat>, calls: seq<Call>, pinned: Option<nat>, accounting: bool,
                      world: nat -> Attempt)
    requires Ended(r, sends, calls, pinned, accounting, world) && r.Streaming?
    requires OwedByStream(r, sends, accounting, world) == Some(r.account.id)
    ensures RequestLeaves(calls + [GaveBack(r.account.id)], world, pinned, accounting, sends, Attempts(r, sends), None)
  {
    forall id: nat
      ensures Net(calls + [GaveBack(r.account.id)], id)
              == TotalLeft(world, pinned, accounting, sends, Attempts(r, sends), id) + One(None, id)
    {
      NetSnoc(calls, GaveBack(r.account.id), id);
      assert Net(calls, id) == TotalLeft(world, pinned, accounting, sends, Attempts(r, sends), id)
                               + One(Some(r.account.id), id);
    }
  }

  /** When every command is answered and every runner known, nothing is stranded and nothing undercounted. */
  lemma CleanRequestsLeaveNothing(r: Response, sends: seq<nat>, pinned: Option<nat>, accounting: bool,
                                  world: nat -> Attempt, id: nat)
    requires forall j: nat, x: nat :: world(j).answers.take(x).Answered? && world(j).answers.give(x).Answered?
    requires forall j: nat, a :: a in world(j).accounts ==> a.runnerKnown
    ensures !StrandsAccount(r, sends, pinned, accounting, world, id)
    ensures !Undercounts(world(0), pinned, accounting, id)
  {
    if j :| 0 <= j < Attempts(r, sends) && StrandedBy(world(j), pinned, accounting, Excluded(sends, j), id) {
      var accounts := world(j).accounts;
      assert forall i :: 0 <= i < |accounts| ==> accounts[i] in accounts;
      FirstIsListed(accounts, id);
    }
  }

  lemma {:induction false} FirstIsListed(accounts: seq<Account>, id: nat)
    ensures FirstWith(accounts, id).Some? ==> FirstWith(accounts, id).value in accounts
    decreases |accounts|
  {
    if accounts != [] && accounts[0].id != id {
      FirstIsListed(accounts[1..], id);
    }
  }
}
