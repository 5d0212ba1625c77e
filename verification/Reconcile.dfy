/**
 The reconciliation half of a background tick: enabled accounts should be running, disabled ones stopped.  Each
 account is driven by its own row and its own instance; what the runner answers is given by an oracle.
 */
module Reconcile {
  import opened Common

  /** A row of the accounts table together with whether its instance really runs. */
  datatype Account = Account(enabled: bool, status: AccountStatus, instanceRuns: bool)

  /** How the outside world behaves towards one account during one tick. */
  datatype World = World(
    listed: bool,          // its runner answered the list call
    startable: bool,       // its runner row exists and it has an auth.json
    starts: bool,
    routed: bool,          // its runner is in the routing snapshot
    probes: bool,
    stops: bool)

  const Reachable: World := World(true, true, true, true, true, true)

  /** `control::start_account`. */
  function Started(a: Account, w: World): Account {
    if !w.startable then a
    else if w.starts then a.(status := Starting, instanceRuns := true)
    else a.(status := Error)
  }

  /** `control::stop_account`: the row is marked stopped even when the runner did not answer. */
  function Stopped(a: Account, w: World): Account {
    a.(status := AccountStatus.Stopped, instanceRuns := a.instanceRuns && !w.stops)
  }

  function Probed(a: Account, w: World): Account {
    a.(status := if !w.routed then Error
                 else if w.probes then Running
                 else if a.status.Starting? then Starting
                 else Unhealthy)
  }

  /** One tick for one account. */
  function Ticked(a: Account, ticks: nat, w: World): Account {
    var seen := a.instanceRuns && w.listed;
    if a.enabled then
      if seen then Probed(a, w)
      else if !a.status.Error? || ticks % 4 == 0 then Started(a, w)
      else a
    else if seen || !a.status.Stopped? then Stopped(a, w)
    else a
  }

  /** What reconciliation is for. */
  predicate Settled(a: Account) {
    if a.enabled then a.instanceRuns && a.status.Running? else !a.instanceRuns && a.status.Stopped?
  }

  /** `n` consecutive ticks, numbered from `ticks` on, in which everything the account needs is reachable. */
  function After(a: Account, ticks: nat, n: nat): Account
    decreases n
  {
    if n == 0 then a else After(Ticked(a, ticks, Reachable), ticks + 1, n - 1)
  }

  /** How many such ticks an account needs: a failed start is retried only every fourth tick. */
  function Needed(a: Account, ticks: nat): nat {
    if Settled(a) then 0
    else if !a.enabled || a.instanceRuns then 1
    else if a.status.Error? then 2 + (4 - ticks % 4) % 4
    else 2
  }

  lemma TickGetsCloser(a: Account, ticks: nat)
    ensures Needed(Ticked(a, ticks, Reachable), ticks + 1) == if Needed(a, ticks) == 0 then 0 else Needed(a, ticks) - 1
  {
  }

  /** From any mix of statuses an account is settled after `Needed` ticks, never earlier, and then for good. */
  lemma {:induction false} SettlesExactlyThen(a: Account, ticks: nat, n: nat)
    ensures Settled(After(a, ticks, n)) <==> n >= Needed(a, ticks)
    decreases n
  {
    if n > 0 {
      TickGetsCloser(a, ticks);
      SettlesExactlyThen(Ticked(a, ticks, Reachable), ticks + 1, n - 1);
    }
  }

  /** Five ticks always suffice, and some account needs all five. */
  lemma FiveTicksSuffice(a: Account, ticks: nat)
    ensures Needed(a, ticks) <= 5
    ensures Settled(After(a, ticks, 5))
    ensures Needed(Account(true, Error, false), 1) == 5
  {
    SettlesExactlyThen(a, ticks, 5);
  }

  /** However the world misbehaves: a tick starts no disabled account and calls none healthy that did not answer. */
  lemma TicksAreSafe(a: Account, ticks: nat, w: World)
    ensures var b := Ticked(a, ticks, w);
            && b.enabled == a.enabled
            && (!a.enabled && b.instanceRuns ==> a.instanceRuns)
            && (a.enabled && a.instanceRuns ==> b.instanceRuns)
            && (b.status.Running? && b != a ==> a.enabled && a.instanceRuns && w.probes)
  {
  }

  // ----- the tick -----

  method StartAccount(accounts: array<Account>, i: nat, w: World) returns (ok: bool)
    requires i < accounts.Length
    modifies accounts
    ensures accounts[..] == old(accounts[..])[i := Started(old(accounts[i]), w)]
    ensures ok <==> w.startable && w.starts
  {
    if !w.startable {
      return false;
    }
    if w.starts {
      accounts[i] := accounts[i].(instanceRuns := true);
      accounts[i] := accounts[i].(status := Starting);
      return true;
    }
    accounts[i] := accounts[i].(status := Error);
    ok := false;
  }

  method StopAccount(accounts: array<Account>, i: nat, w: World)
    requires i < accounts.Length
    modifies accounts
    ensures accounts[..] == old(accounts[..])[i := Stopped(old(accounts[i]), w)]
  {
    if w.stops {
      accounts[i] := accounts[i].(instanceRuns := false);
    }
    accounts[i] := accounts[i].(status := AccountStatus.Stopped);
  }

  /** One pass over the accounts table. */
  method Tick(accounts: array<Account>, ticks: nat, world: nat -> World)
    modifies accounts
    ensures forall i :: 0 <= i < accounts.Length ==> accounts[i] == Ticked(old(accounts[i]), ticks, world(i))
  {
    for i := 0 to accounts.Length
      invariant forall k :: 0 <= k < i ==> accounts[k] == Ticked(old(accounts[k]), ticks, world(k))
      invariant forall k :: i <= k < accounts.Length ==> accounts[k] == old(accounts[k])
    {
      ghost var before := accounts[..];
      var a, w := accounts[i], world(i);
      var seen := a.instanceRuns && w.listed;
      if a.enabled {
        if !seen {
          if !a.status.Error? || ticks % 4 == 0 {
            var _ := StartAccount(accounts, i, w);
          }
        } else if !w.routed {
          accounts[i] := a.(status := Error);
        } else if w.probes {
          accounts[i] := a.(status := Running);
        } else {
          accounts[i] := a.(status := if a.status.Starting? then Starting else Unhealthy);
        }
      } else if seen || !a.status.Stopped? {
        StopAccount(accounts, i, w);
      }
      assert accounts[..] == before[i := Ticked(a, ticks, w)];
      assert forall k :: 0 <= k < accounts.Length ==> accounts[k] == before[i := Ticked(a, ticks, w)][k];
    }
  }

  /** Whatever the table holds, five quiet ticks settle every account in it. */
  method SettleAll(accounts: array<Account>, ticks: nat, more: nat)
    modifies accounts
    ensures forall i :: 0 <= i < accounts.Length ==> Settled(accounts[i])
  {
    for n := 0 to 5 + more
      invariant forall i :: 0 <= i < accounts.Length ==> accounts[i] == After(old(accounts[i]), ticks, n)
    {
      ghost var before := accounts[..];
      Tick(accounts, ticks + n, i => Reachable);
      forall i | 0 <= i < accounts.Length
        ensures accounts[i] == After(old(accounts[i]), ticks, n + 1)
      {
        AfterSnoc(old(accounts[i]), ticks, n);
        assert before[i] == After(old(accounts[i]), ticks, n);
      }
    }
    forall i | 0 <= i < accounts.Length
      ensures Settled(accounts[i])
    {
      SettlesExactlyThen(old(accounts[i]), ticks, 5 + more);
      FiveTicksSuffice(old(accounts[i]), ticks);
    }
  }

  lemma {:induction false} AfterSnoc(a: Account, ticks: nat, n: nat)
    ensures After(a, ticks, n + 1) == Ticked(After(a, ticks, n), ticks + n, Reachable)
    decreases n
  {
    if n > 0 {
      AfterSnoc(Ticked(a, ticks, Reachable), ticks + 1, n - 1);
    }
  }
}
