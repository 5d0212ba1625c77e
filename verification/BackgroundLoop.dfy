/**
 One replica's background loop, as it runs against the shared Redis keys while every other replica, the
 controller and the clock move in between.  All it does is take steps of the machine in `Leader`.
 */
module BackgroundLoop {
  import opened Common
  import opened Leader

  class Replica {
    const me: nat
    const slot: Slot
    const ttl: nat                      // three health intervals
    // shared
    var now: nat
    var lock: Option<Lock>
    var active: Option<Slot>
    var peers: map<nat, Leader.Replica>
    var late: map<nat, Late>            // commands on their way that nobody waits for
    // local to the loop
    var wasLeader: bool
    var ticks: nat
    // what the proof remembers
    ghost var at: Place
    ghost var acquired: nat
    ghost const origin: State
    ghost var log: seq<Action>

    ghost function View(): State
      reads this
    {
      State(now, ttl, lock, active, peers[me := Leader.Replica(slot, at, wasLeader, acquired)], late)
    }

    /** Everything that happened is a run, from a state in which whoever ticks holds the lock. */
    ghost predicate Valid()
      reads this
    {
      me !in peers && TickerHoldsLock(origin) && origin.ttl == ttl && View() == Run(origin, log)
    }

    constructor (me: nat, slot: Slot, ttl: nat, now: nat, lock: Option<Lock>, active: Option<Slot>,
                 peers: map<nat, Leader.Replica>, late: map<nat, Late>)
      requires me !in peers && TickerHoldsLock(State(now, ttl, lock, active, peers, late))
      ensures Valid() && at.Checking? && !wasLeader && ticks == 0 && this.me == me && this.slot == slot
    {
      this.me, this.slot, this.ttl := me, slot, ttl;
      this.now, this.lock, this.active, this.peers, this.late := now, lock, active, peers, late;
      wasLeader, ticks, at, acquired, log := false, 0, Checking, 0, [];
      origin := State(now, ttl, lock, active, peers[me := Leader.Replica(slot, Checking, false, 0)], late);
    }

    ghost method Took(before: State, a: Action)
      requires before == Run(origin, log) && View() == Step(before, a)
      requires me !in peers && TickerHoldsLock(origin) && origin.ttl == ttl
      modifies `log
      ensures Valid() && log == old(log) + [a]
    {
      RunSnoc(origin, log, a);
      log := log + [a];
    }

    /** The parts of the state that belong to this loop. */
    twostate predicate OnlyOthersMoved()
      reads this
    {
      && at == old(at) && acquired == old(acquired) && wasLeader == old(wasLeader) && ticks == old(ticks)
      && old(log) <= log
    }

    /** Any action of the others: the clock, the marker, another replica. */
    method Environment()
      requires Valid()
      modifies this
      ensures Valid() && OnlyOthersMoved()
    {
      var moves: nat := *;
      while moves > 0
        invariant Valid() && OnlyOthersMoved()
      {
        var a: Action := *;
        OthersMove(a);
        moves := moves - 1;
      }
    }

    predicate Mine(a: Action) {
      match a
      case Elapse(_) => false
      case SetActive(_) => false
      case Spawn(id, _) => id == me
      case Die(id) => id == me
      case Check(id, _) => id == me
      case GiveUp(id, _) => id == me
      case Set(id, _) => id == me
      case Renew(id, _) => id == me
      case Hear(id) => id == me
      case Postpone(id, _) => id == me
      case Arrive(_) => false
      case EndTick(id) => id == me
      case Wake(id) => id == me
    }

    method OthersMove(a: Action)
      requires Valid()
      modifies `now, `lock, `active, `peers, `late, `log
      ensures Valid() && OnlyOthersMoved()
    {
      if !Mine(a) {
        ghost var before := View();
        var s := State(now, ttl, lock, active, peers, late);
        OthersDoNotSeeUs(s, a, Leader.Replica(slot, at, wasLeader, acquired));
        var t := Step(s, a);
        now, lock, active, peers, late := t.now, t.lock, t.active, t.replicas, t.late;
        Took(before, a);
      }
    }

    predicate IsCommand(a: Action) {
      a.GiveUp? || a.Set? || a.Renew? || a.Postpone?
    }

    lemma OthersCommandsDoNotSeeUs(s: State, a: Action, r: Leader.Replica)
      requires me !in s.replicas && !Mine(a) && IsCommand(a)
      ensures me !in Step(s, a).replicas
      ensures Step(Put(s, me, r), a) == Put(Step(s, a), me, r)
    {
      Apart(s.replicas, a.id, r);
    }

    lemma OthersStepsDoNotSeeUs(s: State, a: Action, r: Leader.Replica)
      requires me !in s.replicas && !Mine(a) && !IsCommand(a)
      ensures me !in Step(s, a).replicas
      ensures Step(Put(s, me, r), a) == Put(Step(s, a), me, r)
    {
      if a.Die? {
        assert s.replicas[me := r] - {a.id} == (s.replicas - {a.id})[me := r];
      } else if !a.Elapse? && !a.SetActive? && !a.Arrive? {
        Apart(s.replicas, a.id, r);
      }
    }

    /** A step of somebody else is the same step whether or not this replica is in the picture. */
    lemma OthersDoNotSeeUs(s: State, a: Action, r: Leader.Replica)
      requires me !in s.replicas && !Mine(a)
      ensures me !in Step(s, a).replicas
      ensures Step(Put(s, me, r), a) == Put(Step(s, a), me, r)
    {
      if IsCommand(a) {
        OthersCommandsDoNotSeeUs(s, a, r);
      } else {
        OthersStepsDoNotSeeUs(s, a, r);
      }
    }

    lemma Apart(m: map<nat, Leader.Replica>, id: nat, r: Leader.Replica)
      requires id != me
      ensures forall x {:trigger m[id := x]} :: m[me := r][id := x] == m[id := x][me := r]
    {
    }

    /** Our own steps change our entry and nobody else's. */
    lemma OwnEntry(r: Leader.Replica)
      ensures forall x {:trigger peers[me := x]} :: peers[me := r][me := x] == peers[me := x]
    {
    }

    /** While ticks and releases have been in time, and this replica ticks, it holds the lock and no peer ticks. */
    lemma TicksAlone()
      requires Valid() && at.Ticking? && Orderly(origin, log)
      ensures HeldBy(lock, me, now)
      ensures forall id :: id in peers ==> !peers[id].at.Ticking?
    {
      TickersHoldLock(origin, log);
      assert At(View(), me, Ticking);
      forall id | id in peers
        ensures !peers[id].at.Ticking?
      {
        assert View().replicas[id] == peers[id];
      }
    }

    /** Reads the marker: an unreadable or absent one counts as this slot's. */
    method SlotIsActive() returns (mine: bool)
      requires Valid() && at.Checking?
      modifies this
      ensures Valid() && wasLeader == old(wasLeader) && ticks == old(ticks) && old(log) <= log
      ensures at == if mine then Setting else if wasLeader then Leaving else Asleep
    {
      Environment();
      var answered := *;
      mine := ReadMarker(answered);
    }

    method ReadMarker(answered: bool) returns (mine: bool)
      requires Valid() && at.Checking?
      modifies `at, `log
      ensures Valid() && old(log) <= log && mine == SlotActive(active, answered, slot)
      ensures at == if mine then Setting else if wasLeader then Leaving else Asleep
    {
      ghost var before := View();
      OwnEntry(before.replicas[me]);
      mine := SlotActive(active, answered, slot);
      at := if mine then Setting else if wasLeader then Leaving else Asleep;
      Took(before, Check(me, answered));
    }

    /** Gives up waiting for the answer, before the command has been executed. */
    method GiveUpWaiting(token: nat, command: Command)
      requires Valid() && Sends(at) && command == CommandAt(at) && token !in late
      modifies `at, `wasLeader, `late, `log
      ensures Valid() && at.Asleep? && !wasLeader && old(log) <= log
      ensures late == old(late)[token := Late(me, slot, command)]
    {
      ghost var before := View();
      OwnEntry(before.replicas[me]);
      late := late[token := Late(me, slot, command)];
      wasLeader, at := false, Asleep;
      Took(before, Postpone(me, token));
    }

    /** `leader_release`; an unreachable Redis is ignored. */
    method LeaderRelease()
      requires Valid() && at.Leaving?
      modifies this
      ensures Valid() && at.Asleep? && !wasLeader && ticks == old(ticks) && old(log) <= log
    {
      Environment();
      var givesUp: bool, token: nat := *, *;
      if givesUp && token !in late {
        GiveUpWaiting(token, GiveBackCommand);
      } else {
        var delivery: Delivery := *;
        SendGiveBack(delivery);
      }
    }

    /** The compare-and-delete script, if it arrives: the own lock goes, and nobody else's. */
    method SendGiveBack(delivery: Delivery)
      requires Valid() && at.Leaving?
      modifies `lock, `at, `wasLeader, `log
      ensures Valid() && at.Asleep? && !wasLeader && old(log) <= log
      ensures delivery.NotSent? ==> lock == old(lock)
      ensures !delivery.NotSent? ==> !HeldBy(lock, me, now)
      ensures forall id :: id != me && HeldBy(old(lock), id, now) ==> lock == old(lock)
    {
      ghost var before := View();
      if !delivery.NotSent? {
        ReleaseIsOwnOnly(before, me, delivery);
        lock := GiveBack(lock, me, now);
      }
      wasLeader, at := false, Asleep;
      Took(before, GiveUp(me, delivery));
    }

    /** `leader_acquire`: `SET NX PX`, then the compare-and-extend script; an error counts as not leading. */
    method LeaderAcquire() returns (leads: bool)
      requires Valid() && at.Setting?
      modifies this
      ensures Valid() && ticks == old(ticks) && leads == wasLeader && old(log) <= log
      ensures if leads then at.Ticking? else at.Asleep?
    {
      var heard;
      leads, heard := TrySet();
      if !leads && heard {
        leads := TryExtend();
      }
    }

    /** The reply arrives after everybody else may have moved. */
    method HearAnswer(won: bool, last: bool)
      requires Valid() && at == if last then ExtendAnswer(won) else SetAnswer(won)
      modifies this
      ensures Valid() && ticks == old(ticks) && old(log) <= log
      ensures won ==> at.Ticking? && wasLeader
      ensures !won ==> if last then at.Asleep? && !wasLeader else at.Extending?
    {
      Environment();
      TakeAnswer(won, last);
    }

    method TakeAnswer(won: bool, last: bool)
      requires Valid() && at == if last then ExtendAnswer(won) else SetAnswer(won)
      modifies `at, `wasLeader, `log
      ensures Valid() && old(log) <= log
      ensures won ==> at.Ticking? && wasLeader
      ensures !won ==> if last then at.Asleep? && !wasLeader else at.Extending?
    {
      ghost var before := View();
      OwnEntry(before.replicas[me]);
      at := if won then Ticking else if last then Asleep else Extending;
      if won || last {
        wasLeader := won;
      }
      Took(before, Hear(me));
    }

    method TrySet() returns (leads: bool, heard: bool)
      requires Valid() && at.Setting?
      modifies this
      ensures Valid() && ticks == old(ticks) && old(log) <= log
      ensures leads ==> at.Ticking? && wasLeader
      ensures !leads ==> if heard then at.Extending? else at.Asleep? && !wasLeader
    {
      Environment();
      leads, heard := false, false;
      var givesUp: bool, token: nat := *, *;
      if givesUp && token !in late {
        GiveUpWaiting(token, SetCommand);
        return;
      }
      var delivery: Delivery := *;
      var won := SendSet(delivery);
      leads, heard := won && delivery.Answered?, delivery.Answered?;
      if heard {
        HearAnswer(won, false);
      }
    }

    /** Redis executes `SET NX PX`, if the command arrives. */
    method SendSet(delivery: Delivery) returns (won: bool)
      requires Valid() && at.Setting?
      modifies `lock, `at, `wasLeader, `acquired, `log
      ensures Valid() && old(log) <= log
      ensures if delivery.Answered? then at == SetAnswer(won) else at.Asleep? && !wasLeader
      ensures won == !Live(old(lock), now) && (won && !delivery.NotSent? ==> HeldBy(lock, me, now))
      ensures delivery.Answered? && won ==> acquired == now
    {
      ghost var before := View();
      OwnEntry(before.replicas[me]);
      var (lock', w) := SetNx(lock, me, now, ttl);
      won := w;
      if !delivery.NotSent? {
        lock := lock';
      }
      if delivery.Answered? {
        at, acquired := SetAnswer(won), if won then now else acquired;
      } else {
        at, wasLeader := Asleep, false;
      }
      Took(before, Set(me, delivery));
    }

    method TryExtend() returns (leads: bool)
      requires Valid() && at.Extending?
      modifies this
      ensures Valid() && ticks == old(ticks) && leads == wasLeader && old(log) <= log
      ensures if leads then at.Ticking? else at.Asleep?
    {
      Environment();
      leads := false;
      var givesUp: bool, token: nat := *, *;
      if givesUp && token !in late {
        GiveUpWaiting(token, ExtendCommand);
        return;
      }
      var delivery: Delivery := *;
      var won := SendExtend(delivery);
      leads := won && delivery.Answered?;
      if delivery.Answered? {
        HearAnswer(won, true);
      }
    }

    /** Redis executes the compare-and-extend script, if it arrives. */
    method SendExtend(delivery: Delivery) returns (won: bool)
      requires Valid() && at.Extending?
      modifies `lock, `at, `wasLeader, `acquired, `log
      ensures Valid() && old(log) <= log
      ensures if delivery.Answered? then at == ExtendAnswer(won) else at.Asleep? && !wasLeader
      ensures won == HeldBy(old(lock), me, now) && (won && !delivery.NotSent? ==> HeldBy(lock, me, now))
      ensures delivery.Answered? && won ==> acquired == now
    {
      ghost var before := View();
      OwnEntry(before.replicas[me]);
      var (lock', w) := Extend(lock, me, now, ttl);
      won := w;
      if !delivery.NotSent? {
        lock := lock';
      }
      if delivery.Answered? {
        at, acquired := ExtendAnswer(won), if won then now else acquired;
      } else {
        at, wasLeader := Asleep, false;
      }
      Took(before, Renew(me, delivery));
    }

    /** `spawn`: the loop, for as many rounds as the process lives. */
    method Loop(rounds: nat)
      requires Valid() && at.Checking?
      modifies this
      ensures Valid() && at.Checking? && ticks <= old(ticks) + rounds && old(log) <= log
    {
      for round := 0 to rounds
        invariant Valid() && at.Checking? && ticks <= old(ticks) + round && old(log) <= log
      {
        var mine := SlotIsActive();
        if !mine {
          if wasLeader {
            LeaderRelease();
          }
        } else {
          var leads := LeaderAcquire();
          if leads {
            Tick();
          }
        }
        Sleep();
      }
    }

    /** The body of one tick runs while everybody else moves. */
    method Tick()
      requires Valid() && at.Ticking?
      modifies this
      ensures Valid() && at.Asleep? && ticks == old(ticks) + 1 && old(log) <= log
    {
      Environment();
      ghost var before := View();
      OwnEntry(before.replicas[me]);
      at := Asleep;
      Took(before, EndTick(me));
      ticks := ticks + 1;
    }

    method Sleep()
      requires Valid() && at.Asleep?
      modifies this
      ensures Valid() && at.Checking? && ticks == old(ticks) && old(log) <= log
    {
      Environment();
      ghost var before := View();
      OwnEntry(before.replicas[me]);
      at := Checking;
      Took(before, Wake(me));
    }
  }
}
