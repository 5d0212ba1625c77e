/**
 The leader lock and its handoff.  Any number of replicas run the background loop: look at the active slot, try
 `SET NX PX`, else the compare-and-extend script, tick, sleep.  Redis commands are atomic, everything between
 them interleaves, time passes, replicas die and new ones appear, and replies may be lost.
 */
module Leader {
  import opened Common

  /** The value of pm:leader and the last millisecond at which the key still exists. */
  datatype Lock = Lock(holder: nat, expires: nat)

  predicate Live(lock: Option<Lock>, now: nat) {
    lock.Some? && now <= lock.value.expires
  }

  predicate HeldBy(lock: Option<Lock>, holder: nat, now: nat) {
    Live(lock, now) && lock.value.holder == holder
  }

  /** `SET pm:leader holder NX PX ttl` succeeds exactly when the key does not exist. */
  function SetNx(lock: Option<Lock>, holder: nat, now: nat, ttl: nat): (Option<Lock>, bool) {
    if Live(lock, now) then (lock, false) else (Some(Lock(holder, now + ttl)), true)
  }

  /** The compare-and-extend script. */
  function Extend(lock: Option<Lock>, holder: nat, now: nat, ttl: nat): (Option<Lock>, bool) {
    if HeldBy(lock, holder, now) then (Some(Lock(holder, now + ttl)), true) else (lock, false)
  }

  /** The compare-and-delete script. */
  function GiveBack(lock: Option<Lock>, holder: nat, now: nat): Option<Lock> {
    if HeldBy(lock, holder, now) then None else lock
  }

  /** Is a replica's slot the active one?  Without a marker, or without an answer, every slot is. */
  predicate SlotActive(active: Option<Slot>, answered: bool, slot: Slot) {
    answered && active.Some? ==> active.value == slot
  }

  /** Where a loop stands; an `Answer` is a lock command that Redis has executed and whose reply is on its way. */
  datatype Place =
    | Checking
    | Leaving
    | Setting
    | SetAnswer(won: bool)
    | Extending
    | ExtendAnswer(won: bool)
    | Ticking
    | Asleep

  datatype Replica = Replica(slot: Slot, at: Place, wasLeader: bool, acquired: nat) {
    /** Past its slot check, and Redis may still give it the lock. */
    predicate MayStillAcquire() {
      at.Setting? || at.Extending? || at == SetAnswer(false)
    }

    /** Past its slot check, and it may still tick without another one. */
    predicate MayStillTick() {
      MayStillAcquire() || Won()
    }

    /** Redis has given it the lock and it has not heard so yet. */
    predicate Won() {
      at == SetAnswer(true) || at == ExtendAnswer(true)
    }
  }

  datatype Command = SetCommand | ExtendCommand | GiveBackCommand

  /** A command whose sender has given up waiting, and which Redis has not executed yet. */
  datatype Late = Late(id: nat, slot: Slot, command: Command)

  datatype State = State(
    now: nat,
    ttl: nat,
    lock: Option<Lock>,
    active: Option<Slot>,
    replicas: map<nat, Replica>,
    late: map<nat, Late>)

  datatype Action =
    | Elapse(ms: nat)
    | SetActive(marker: Option<Slot>)
    | Spawn(id: nat, slot: Slot)
    | Die(id: nat)
    | Check(id: nat, answered: bool)
    | GiveUp(id: nat, delivery: Delivery)
    | Set(id: nat, delivery: Delivery)
    | Renew(id: nat, delivery: Delivery)
    | Hear(id: nat)
    | Postpone(id: nat, token: nat)    // the command is on its way when its sender gives up
    | Arrive(token: nat)               // ... and is executed after all
    | EndTick(id: nat)
    | Wake(id: nat)

  function Put(s: State, id: nat, r: Replica): State {
    s.(replicas := s.replicas[id := r])
  }

  /** The lock command of replica `id` is executed and answered, executed only, or neither. */
  function AfterCommand(s: State, id: nat, lock: Option<Lock>, won: bool, delivery: Delivery, answer: Place): State
    requires id in s.replicas
  {
    var r := s.replicas[id];
    var t := if delivery.NotSent? then s else s.(lock := lock);
    if !delivery.Answered? then Put(t, id, r.(at := Asleep, wasLeader := false))
    else Put(t, id, r.(at := answer, acquired := if won then s.now else r.acquired))
  }

  /** What a replica does once it hears the answer to its lock command. */
  function Heard(r: Replica): Replica {
    match r.at
    case SetAnswer(won) => if won then r.(at := Ticking, wasLeader := true) else r.(at := Extending)
    case ExtendAnswer(won) => if won then r.(at := Ticking, wasLeader := true) else r.(at := Asleep, wasLeader := false)
    case _ => r
  }

  predicate At(s: State, id: nat, at: Place) {
    id in s.replicas && s.replicas[id].at == at
  }

  predicate Sends(place: Place) {
    place.Setting? || place.Extending? || place.Leaving?
  }

  function CommandAt(place: Place): Command
    requires Sends(place)
  {
    match place
    case Setting => SetCommand
    case Extending => ExtendCommand
    case _ => GiveBackCommand
  }

  /** The lock after a late command. */
  function Executed(s: State, c: Late): Option<Lock> {
    match c.command
    case SetCommand => SetNx(s.lock, c.id, s.now, s.ttl).0
    case ExtendCommand => Extend(s.lock, c.id, s.now, s.ttl).0
    case GiveBackCommand => GiveBack(s.lock, c.id, s.now)
  }

  function Step(s: State, a: Action): State {
    match a
    case Elapse(ms) => s.(now := s.now + ms)
    case SetActive(marker) => s.(active := marker)
    case Spawn(id, slot) => if id in s.replicas then s else Put(s, id, Replica(slot, Checking, false, 0))
    case Die(id) => s.(replicas := s.replicas - {id})
    case Check(id, answered) =>
      if !At(s, id, Checking) then s
      else if SlotActive(s.active, answered, s.replicas[id].slot) then Put(s, id, s.replicas[id].(at := Setting))
      else Put(s, id, s.replicas[id].(at := if s.replicas[id].wasLeader then Leaving else Asleep))
    case GiveUp(id, delivery) =>
      if !At(s, id, Leaving) then s
      else Put(if delivery.NotSent? then s else s.(lock := GiveBack(s.lock, id, s.now)),
               id, s.replicas[id].(at := Asleep, wasLeader := false))
    case Set(id, delivery) =>
      if !At(s, id, Setting) then s
      else var (lock, won) := SetNx(s.lock, id, s.now, s.ttl);
           AfterCommand(s, id, lock, won, delivery, SetAnswer(won))
    case Renew(id, delivery) =>
      if !At(s, id, Extending) then s
      else var (lock, won) := Extend(s.lock, id, s.now, s.ttl);
           AfterCommand(s, id, lock, won, delivery, ExtendAnswer(won))
    case Hear(id) => if id in s.replicas then Put(s, id, Heard(s.replicas[id])) else s
    case Postpone(id, token) =>
      if id !in s.replicas || !Sends(s.replicas[id].at) || token in s.late then s
      else
        var r := s.replicas[id];
        Put(s.(late := s.late[token := Late(id, r.slot, CommandAt(r.at))]), id, r.(at := Asleep, wasLeader := false))
    case Arrive(token) =>
      if token in s.late then s.(lock := Executed(s, s.late[token]), late := s.late - {token}) else s
    case EndTick(id) => if At(s, id, Ticking) then Put(s, id, s.replicas[id].(at := Asleep)) else s
    case Wake(id) => if At(s, id, Asleep) then Put(s, id, s.replicas[id].(at := Checking)) else s
  }

  function Run(s: State, actions: seq<Action>): State
    decreases |actions|
  {
    if actions == [] then s else Run(Step(s, actions[0]), actions[1..])
  }

  lemma {:induction false} RunSnoc(s: State, actions: seq<Action>, a: Action)
    ensures Run(s, actions + [a]) == Step(Run(s, actions), a)
    decreases |actions|
  {
    if actions == [] {
      assert [a][1..] == [];
    } else {
      assert (actions + [a])[1..] == actions[1..] + [a];
      RunSnoc(Step(s, actions[0]), actions[1..], a);
    }
  }

  // ----- ticks never overlap -----

  /** Every tick that is under way is within one lock lifetime of the acquisition that started it. */
  ghost predicate InTime(s: State) {
    forall id :: At(s, id, Ticking) ==> s.now <= s.replicas[id].acquired + s.ttl
  }

  /** A release whose sender gave up on it arrives while the sender holds the lock again. */
  predicate StaleRelease(s: State, a: Action) {
    && a.Arrive? && a.token in s.late && s.late[a.token].command.GiveBackCommand?
    && var id := s.late[a.token].id;
       id in s.replicas && (s.replicas[id].at.Ticking? || s.replicas[id].Won()) && HeldBy(s.lock, id, s.now)
  }

  /** Ticks are in time all along, and no release arrives that late. */
  ghost predicate Orderly(s: State, actions: seq<Action>)
    decreases |actions|
  {
    InTime(s) && (actions != [] ==> !StaleRelease(s, actions[0]) && Orderly(Step(s, actions[0]), actions[1..]))
  }

  /** The lock that replica `id` was given is still in Redis and lasts as long as it was given for. */
  ghost predicate Keeps(s: State, id: nat)
    requires id in s.replicas
  {
    s.lock.Some? && s.lock.value.holder == id && s.replicas[id].acquired + s.ttl <= s.lock.value.expires
  }

  /** Won or ticking, it was given the lock at some earlier moment. */
  predicate AcquiredBefore(s: State, r: Replica) {
    r.at.Ticking? || r.Won() ==> r.acquired <= s.now
  }

  /**
   Whoever ticks keeps the lock for a whole lifetime from its acquisition on, and so does, within that lifetime,
   whoever has won it and not heard so yet.
   */
  ghost predicate TickerHoldsLock(s: State) {
    forall id :: id in s.replicas ==> HoldsLockIfTicking(s, id)
  }

  /** What has to hold of one replica. */
  ghost predicate HoldsLockIfTicking(s: State, id: nat)
    requires id in s.replicas
  {
    && AcquiredBefore(s, s.replicas[id])
    && (s.replicas[id].at.Ticking? ==> Keeps(s, id))
    && (s.replicas[id].Won() && s.now <= s.replicas[id].acquired + s.ttl ==> Keeps(s, id))
  }

  lemma AcquireKeepsOwn(s: State, a: Action)
    requires a.Set? || a.Renew?
    requires a.id in s.replicas && HoldsLockIfTicking(s, a.id)
    requires s.replicas[a.id].at.Ticking? ==> s.now <= s.replicas[a.id].acquired + s.ttl
    ensures a.id in Step(s, a).replicas && HoldsLockIfTicking(Step(s, a), a.id)
  {
  }

  lemma AcquireKeepsOthers(s: State, a: Action, id: nat)
    requires a.Set? || a.Renew?
    requires id != a.id && id in s.replicas && HoldsLockIfTicking(s, id)
    requires s.replicas[id].at.Ticking? ==> s.now <= s.replicas[id].acquired + s.ttl
    ensures id in Step(s, a).replicas && HoldsLockIfTicking(Step(s, a), id)
  {
  }

  lemma AcquireKeepsLock(s: State, a: Action)
    requires TickerHoldsLock(s) && InTime(s) && (a.Set? || a.Renew?)
    ensures TickerHoldsLock(Step(s, a))
  {
    forall id | id in s.replicas
      ensures HoldsLockIfTicking(Step(s, a), id)
    {
      assert At(s, id, Ticking) <==> s.replicas[id].at.Ticking?;
      if id == a.id {
        AcquireKeepsOwn(s, a);
      } else {
        AcquireKeepsOthers(s, a, id);
      }
    }
  }

  lemma ArrivalKeepsOne(s: State, a: Action, id: nat)
    requires a.Arrive? && !StaleRelease(s, a) && id in s.replicas && HoldsLockIfTicking(s, id)
    requires s.replicas[id].at.Ticking? ==> s.now <= s.replicas[id].acquired + s.ttl
    ensures HoldsLockIfTicking(Step(s, a), id)
  {
  }

  lemma ArrivalKeepsLock(s: State, a: Action)
    requires TickerHoldsLock(s) && InTime(s) && a.Arrive? && !StaleRelease(s, a)
    ensures TickerHoldsLock(Step(s, a))
  {
    forall id | id in s.replicas
      ensures HoldsLockIfTicking(Step(s, a), id)
    {
      assert At(s, id, Ticking) <==> s.replicas[id].at.Ticking?;
      ArrivalKeepsOne(s, a, id);
    }
  }

  lemma OthersKeepOne(s: State, a: Action, id: nat)
    requires !a.Set? && !a.Renew? && !a.Arrive?
    requires id in s.replicas ==> HoldsLockIfTicking(s, id)
    requires id in Step(s, a).replicas
    requires var t := Step(s, a); t.replicas[id].at.Ticking? ==> t.now <= t.replicas[id].acquired + t.ttl
    ensures HoldsLockIfTicking(Step(s, a), id)
  {
  }

  lemma OthersKeepLock(s: State, a: Action)
    requires TickerHoldsLock(s) && !a.Set? && !a.Renew? && !a.Arrive? && InTime(Step(s, a))
    ensures TickerHoldsLock(Step(s, a))
  {
    var t := Step(s, a);
    forall id | id in t.replicas
      ensures HoldsLockIfTicking(t, id)
    {
      assert At(t, id, Ticking) <==> t.replicas[id].at.Ticking?;
      OthersKeepOne(s, a, id);
    }
  }

  lemma {:induction false} TickersHoldLock(s: State, actions: seq<Action>)
    requires TickerHoldsLock(s) && Orderly(s, actions)
    ensures TickerHoldsLock(Run(s, actions)) && InTime(Run(s, actions))
    decreases |actions|
  {
    if actions != [] {
      if actions[0].Set? || actions[0].Renew? {
        AcquireKeepsLock(s, actions[0]);
      } else if actions[0].Arrive? {
        ArrivalKeepsLock(s, actions[0]);
      } else {
        OthersKeepLock(s, actions[0]);
      }
      TickersHoldLock(Step(s, actions[0]), actions[1..]);
    }
  }

  function Fresh(ttl: nat, lock: Option<Lock>, active: Option<Slot>): State {
    State(0, ttl, lock, active, map[], map[])
  }

  /** As long as ticks and releases are in time, no two replicas tick at the same moment of any run. */
  lemma TicksNeverOverlap(s: State, actions: seq<Action>, i: nat, j: nat)
    requires TickerHoldsLock(s) && Orderly(s, actions)
    requires At(Run(s, actions), i, Ticking) && At(Run(s, actions), j, Ticking)
    ensures i == j
  {
    TickersHoldLock(s, actions);
  }

  /** A system without replicas, whatever is in Redis, is a start from which ticks never overlap. */
  lemma FreshStart(ttl: nat, lock: Option<Lock>, active: Option<Slot>, actions: seq<Action>)
    requires Orderly(Fresh(ttl, lock, active), actions)
    ensures TickerHoldsLock(Run(Fresh(ttl, lock, active), actions))
  {
    TickersHoldLock(Fresh(ttl, lock, active), actions);
  }

  /** A replica that checks, sets and hears. */
  function Leads(s: State, id: nat): State {
    Step(Step(Step(s, Check(id, true)), Set(id, Answered)), Hear(id))
  }

  /** The time limit is needed: a tick that outlives its lock lets another replica tick beside it. */
  lemma LateTickOverlaps(ttl: nat)
    ensures var led := Leads(Step(Fresh(ttl, None, None), Spawn(0, A)), 0);
            var t := Leads(Step(Step(led, Elapse(ttl + 1)), Spawn(1, B)), 1);
            At(t, 0, Ticking) && At(t, 1, Ticking)
  {
    var led := Leads(Step(Fresh(ttl, None, None), Spawn(0, A)), 0);
    assert led.lock == Some(Lock(0, ttl)) && At(led, 0, Ticking);
    var late := Step(Step(led, Elapse(ttl + 1)), Spawn(1, B));
    assert !Live(late.lock, late.now);
    var checked := Step(late, Check(1, true));
    assert At(checked, 1, Setting) && At(checked, 0, Ticking);
  }

  /**
   That limit is needed as well: a release that was given up on takes the lock from under a later tick of its sender,
   and any other replica of an active slot can then tick beside it.
   */
  lemma StaleReleaseOverlaps(s: State, token: nat, i: nat, j: nat)
    requires At(s, i, Ticking) && HeldBy(s.lock, i, s.now)
    requires token in s.late && s.late[token].id == i && s.late[token].command.GiveBackCommand?
    requires i != j && At(s, j, Checking) && SlotActive(s.active, true, s.replicas[j].slot)
    ensures var t := Leads(Step(s, Arrive(token)), j);
            At(t, i, Ticking) && At(t, j, Ticking)
  {
    var freed := Step(s, Arrive(token));
    assert freed.lock.None? && At(freed, i, Ticking) && At(freed, j, Checking);
    var asked := Step(freed, Check(j, true));
    assert asked.lock.None? && At(asked, i, Ticking) && At(asked, j, Setting);
    var won := Step(asked, Set(j, Answered));
    assert At(won, j, SetAnswer(true)) && At(won, i, Ticking);
  }

  /** The only replica has been given the lock once, at the start. */
  function Alone(ttl: nat, active: Option<Slot>, at: Place, wasLeader: bool, late: map<nat, Late>): State {
    State(0, ttl, Some(Lock(0, ttl)), active, map[0 := Replica(A, at, wasLeader, 0)], late)
  }

  const Forgotten: map<nat, Late> := map[0 := Late(0, A, GiveBackCommand)]

  lemma FirstTick(ttl: nat)
    ensures Leads(Step(Fresh(ttl, None, None), Spawn(0, A)), 0) == Alone(ttl, None, Ticking, true, map[])
  {
    var spawned := Step(Fresh(ttl, None, None), Spawn(0, A));
    var asked := Step(spawned, Check(0, true));
    assert asked.replicas == map[0 := Replica(A, Setting, false, 0)];
    var won := Step(asked, Set(0, Answered));
    assert won.replicas == map[0 := Replica(A, SetAnswer(true), false, 0)];
  }

  lemma MarkerMoves(ttl: nat)
    ensures Step(Step(Step(Alone(ttl, None, Ticking, true, map[]), EndTick(0)), Wake(0)), SetActive(Some(B)))
            == Alone(ttl, Some(B), Checking, true, map[])
  {
    assert Step(Alone(ttl, None, Ticking, true, map[]), EndTick(0)) == Alone(ttl, None, Asleep, true, map[]);
    assert Step(Alone(ttl, None, Asleep, true, map[]), Wake(0)) == Alone(ttl, None, Checking, true, map[]);
  }

  lemma ReleaseIsGivenUpOn(ttl: nat)
    ensures Step(Step(Alone(ttl, Some(B), Checking, true, map[]), Check(0, true)), Postpone(0, 0))
            == Alone(ttl, Some(B), Asleep, false, Forgotten)
  {
    assert Step(Alone(ttl, Some(B), Checking, true, map[]), Check(0, true))
           == Alone(ttl, Some(B), Leaving, true, map[]);
  }

  lemma MarkerMovesBack(ttl: nat)
    ensures Step(Step(Alone(ttl, Some(B), Asleep, false, Forgotten), SetActive(None)), Wake(0))
            == Alone(ttl, None, Checking, false, Forgotten)
  {
    assert Step(Alone(ttl, Some(B), Asleep, false, Forgotten), SetActive(None))
           == Alone(ttl, None, Asleep, false, Forgotten);
  }

  lemma SetFails(ttl: nat)
    ensures Leads(Alone(ttl, None, Checking, false, Forgotten), 0) == Alone(ttl, None, Extending, false, Forgotten)
  {
    assert Step(Alone(ttl, None, Checking, false, Forgotten), Check(0, true))
           == Alone(ttl, None, Setting, false, Forgotten);
    assert Step(Alone(ttl, None, Setting, false, Forgotten), Set(0, Answered))
           == Alone(ttl, None, SetAnswer(false), false, Forgotten);
  }

  lemma ScriptExtends(ttl: nat)
    ensures Step(Step(Alone(ttl, None, Extending, false, Forgotten), Renew(0, Answered)), Hear(0))
            == Alone(ttl, None, Ticking, true, Forgotten)
  {
    assert Step(Alone(ttl, None, Extending, false, Forgotten), Renew(0, Answered))
           == Alone(ttl, None, ExtendAnswer(true), false, Forgotten);
  }

  /** Such a state is reached: lead, lose the marker, give up on the release, get the marker back, lead again. */
  lemma StaleReleaseHappens(ttl: nat) returns (away: State, back: State)
    ensures var led := Leads(Step(Fresh(ttl, None, None), Spawn(0, A)), 0);
            away == Step(Step(Step(led, EndTick(0)), Wake(0)), SetActive(Some(B)))
    ensures back == Step(Step(Step(Step(away, Check(0, true)), Postpone(0, 0)), SetActive(None)), Wake(0))
    ensures Step(Step(Leads(back, 0), Renew(0, Answered)), Hear(0)) == Alone(ttl, None, Ticking, true, Forgotten)
  {
    FirstTick(ttl);
    MarkerMoves(ttl);
    ReleaseIsGivenUpOn(ttl);
    MarkerMovesBack(ttl);
    SetFails(ttl);
    ScriptExtends(ttl);
    away := Alone(ttl, Some(B), Checking, true, map[]);
    back := Alone(ttl, None, Checking, false, Forgotten);
  }

  // ----- bounded handoff -----

  /** Did the action let a replica of `slot` take or extend the lock? */
  predicate Grants(s: State, a: Action, slot: Slot) {
    match a
    case Set(id, delivery) =>
      At(s, id, Setting) && s.replicas[id].slot == slot && !delivery.NotSent? && !Live(s.lock, s.now)
    case Renew(id, delivery) =>
      At(s, id, Extending) && s.replicas[id].slot == slot && !delivery.NotSent? && HeldBy(s.lock, id, s.now)
    case Arrive(token) =>
      && token in s.late && s.late[token].slot == slot
      && (s.late[token].command.SetCommand? ==> !Live(s.lock, s.now))
      && (s.late[token].command.ExtendCommand? ==> HeldBy(s.lock, s.late[token].id, s.now))
      && !s.late[token].command.GiveBackCommand?
    case _ => false
  }

  function CountGrants(s: State, actions: seq<Action>, slot: Slot): nat
    decreases |actions|
  {
    if actions == [] then 0
    else (if Grants(s, actions[0], slot) then 1 else 0) + CountGrants(Step(s, actions[0]), actions[1..], slot)
  }

  /** Did the action let a replica of `slot` start a tick? */
  predicate StartsTick(s: State, a: Action, slot: Slot) {
    a.Hear? && a.id in s.replicas && s.replicas[a.id].Won() && s.replicas[a.id].slot == slot
  }

  function CountTicks(s: State, actions: seq<Action>, slot: Slot): nat
    decreases |actions|
  {
    if actions == [] then 0
    else (if StartsTick(s, actions[0], slot) then 1 else 0) + CountTicks(Step(s, actions[0]), actions[1..], slot)
  }

  lemma {:induction false} CountTicksSnoc(s: State, actions: seq<Action>, a: Action, slot: Slot)
    ensures CountTicks(s, actions + [a], slot)
            == CountTicks(s, actions, slot) + if StartsTick(Run(s, actions), a, slot) then 1 else 0
    decreases |actions|
  {
    if actions == [] {
      assert [a][1..] == [];
    } else {
      assert (actions + [a])[1..] == actions[1..] + [a];
      CountTicksSnoc(Step(s, actions[0]), actions[1..], a, slot);
    }
  }

  /** The count misses no tick: whoever ticks at the end and did not at the start has been counted for its slot. */
  lemma {:induction false} EveryTickIsCounted(s: State, actions: seq<Action>, id: nat)
    requires !At(s, id, Ticking) && At(Run(s, actions), id, Ticking)
    ensures CountTicks(s, actions, Run(s, actions).replicas[id].slot) >= 1
    decreases |actions|
  {
    if actions != [] {
      var init, last := actions[..|actions| - 1], actions[|actions| - 1];
      assert actions == init + [last];
      RunSnoc(s, init, last);
      var slot := Run(s, actions).replicas[id].slot;
      CountTicksSnoc(s, init, last, slot);
      if At(Run(s, init), id, Ticking) {
        EveryTickIsCounted(s, init, id);
      } else {
        NoOtherTicks(Run(s, init), last, id);
      }
    }
  }

  /** A tick begins in no other way than by hearing of a lock command that succeeded. */
  lemma NoOtherTicks(s: State, a: Action, id: nat)
    requires !At(s, id, Ticking) && At(Step(s, a), id, Ticking)
    ensures a == Hear(id) && StartsTick(s, a, s.replicas[id].slot)
  {
  }

  /** The replicas of a slot that looked at the marker before it changed and may still get the lock. */
  function InWindow(s: State, slot: Slot): set<nat> {
    set id | id in s.replicas && MayAcquireFor(s, id, slot)
  }

  /** ... and those that may still tick, because they may get the lock or will hear that they have it. */
  function MayTick(s: State, slot: Slot): set<nat> {
    set id | id in s.replicas && MayTickFor(s, id, slot)
  }

  /** The lock commands of a slot that nobody waits for any more. */
  function LateFor(s: State, slot: Slot): set<nat> {
    set token | token in s.late && s.late[token].slot == slot && !s.late[token].command.GiveBackCommand?
  }

  /** The marker keeps naming the other slot and the replicas of `slot` can read it. */
  predicate KeepsAway(s: State, a: Action, slot: Slot) {
    match a
    case SetActive(marker) => marker == Some(Other(slot))
    case Check(id, answered) => id in s.replicas && s.replicas[id].slot == slot ==> answered
    case _ => true
  }

  ghost predicate KeepsAwayThroughout(s: State, actions: seq<Action>, slot: Slot)
    decreases |actions|
  {
    actions != [] ==> KeepsAway(s, actions[0], slot) && KeepsAwayThroughout(Step(s, actions[0]), actions[1..], slot)
  }

  predicate MayAcquireFor(s: State, id: nat, slot: Slot) {
    id in s.replicas && s.replicas[id].slot == slot && s.replicas[id].MayStillAcquire()
  }

  predicate MayTickFor(s: State, id: nat, slot: Slot) {
    id in s.replicas && s.replicas[id].slot == slot && s.replicas[id].MayStillTick()
  }

  lemma NobodyEnters(s: State, a: Action, id: nat, slot: Slot)
    requires s.active == Some(Other(slot)) && KeepsAway(s, a, slot)
    ensures MayAcquireFor(Step(s, a), id, slot) ==> MayAcquireFor(s, id, slot)
    ensures MayTickFor(Step(s, a), id, slot) ==> MayTickFor(s, id, slot)
  {
  }

  lemma SuccessLeaves(s: State, a: Action, slot: Slot)
    ensures Grants(s, a, slot) && !a.Arrive? ==>
              MayAcquireFor(s, a.id, slot) && !MayAcquireFor(Step(s, a), a.id, slot)
    ensures StartsTick(s, a, slot) ==> MayTickFor(s, a.id, slot) && !MayTickFor(Step(s, a), a.id, slot)
  {
  }

  /** How many more times a slot may still be given the lock. */
  function Chances(s: State, slot: Slot): nat {
    |InWindow(s, slot)| + |LateFor(s, slot)|
  }

  /** While the marker names the other slot nobody enters a window, and each success uses one member up. */
  lemma WindowShrinks(s: State, a: Action, slot: Slot)
    requires s.active == Some(Other(slot)) && KeepsAway(s, a, slot)
    ensures Step(s, a).active == Some(Other(slot))
    ensures InWindow(Step(s, a), slot) <= InWindow(s, slot)
    ensures MayTick(Step(s, a), slot) <= MayTick(s, slot)
    ensures Grants(s, a, slot) && !a.Arrive? ==> a.id in InWindow(s, slot) && a.id !in InWindow(Step(s, a), slot)
    ensures StartsTick(s, a, slot) ==> a.id in MayTick(s, slot) && a.id !in MayTick(Step(s, a), slot)
  {
    forall id
      ensures MayAcquireFor(Step(s, a), id, slot) ==> MayAcquireFor(s, id, slot)
      ensures MayTickFor(Step(s, a), id, slot) ==> MayTickFor(s, id, slot)
    {
      NobodyEnters(s, a, id, slot);
    }
    SuccessLeaves(s, a, slot);
  }

  /** Giving up on a lock command moves its sender from the window to the late commands; an arrival uses one up. */
  lemma LateCommands(s: State, a: Action, slot: Slot)
    ensures !a.Postpone? && !a.Arrive? ==> LateFor(Step(s, a), slot) == LateFor(s, slot)
    ensures a.Arrive? ==> LateFor(Step(s, a), slot) == LateFor(s, slot) - {a.token}
    ensures a.Arrive? && Grants(s, a, slot) ==> a.token in LateFor(s, slot)
    ensures a.Postpone? ==>
              || LateFor(Step(s, a), slot) == LateFor(s, slot)
              || (LateFor(Step(s, a), slot) == LateFor(s, slot) + {a.token}
                  && a.id in InWindow(s, slot) && a.id !in InWindow(Step(s, a), slot))
  {
  }

  lemma ChancesShrink(s: State, a: Action, slot: Slot)
    requires s.active == Some(Other(slot)) && KeepsAway(s, a, slot)
    ensures Chances(Step(s, a), slot) + (if Grants(s, a, slot) then 1 else 0) <= Chances(s, slot)
  {
    var t := Step(s, a);
    WindowShrinks(s, a, slot);
    LateCommands(s, a, slot);
    if a.Postpone? && LateFor(t, slot) != LateFor(s, slot) {
      SubsetSize(InWindow(t, slot), InWindow(s, slot) - {a.id});
      SubsetSize(LateFor(t, slot), LateFor(s, slot) + {a.token});
    } else if Grants(s, a, slot) && !a.Arrive? {
      SubsetSize(InWindow(t, slot), InWindow(s, slot) - {a.id});
    } else {
      SubsetSize(InWindow(t, slot), InWindow(s, slot));
      SubsetSize(LateFor(t, slot), if Grants(s, a, slot) then LateFor(s, slot) - {a.token} else LateFor(s, slot));
    }
  }

  /**
   Once the marker names the other slot, the lock commands that still succeed for the old slot number at most the
   replicas that were between their check and their lock command and the commands nobody waits for any more; the
   ticks it still starts number at most those replicas and the ones whose success was still on its way to them.
   */
  lemma {:induction false} BoundedHandoff(s: State, actions: seq<Action>, slot: Slot)
    requires s.active == Some(Other(slot)) && KeepsAwayThroughout(s, actions, slot)
    ensures CountGrants(s, actions, slot) + Chances(Run(s, actions), slot) <= Chances(s, slot)
    ensures CountTicks(s, actions, slot) + |MayTick(Run(s, actions), slot)| <= |MayTick(s, slot)|
    decreases |actions|
  {
    if actions != [] {
      var a, t := actions[0], Step(s, actions[0]);
      WindowShrinks(s, a, slot);
      ChancesShrink(s, a, slot);
      SubsetSize(MayTick(t, slot), if StartsTick(s, a, slot) then MayTick(s, slot) - {a.id} else MayTick(s, slot));
      BoundedHandoff(t, actions[1..], slot);
    }
  }

  /**
   With one process per slot: at most one more tick, and none after it; none at all if the process was neither
   between its check and its lock command nor about to hear that it has the lock.
   */
  lemma AtMostOneMoreTick(s: State, actions: seq<Action>, slot: Slot, process: nat)
    requires s.active == Some(Other(slot)) && KeepsAwayThroughout(s, actions, slot)
    requires forall id :: id in s.replicas && s.replicas[id].slot == slot ==> id == process
    ensures CountTicks(s, actions, slot) <= 1 && CountGrants(s, actions, slot) <= 1 + |LateFor(s, slot)|
    ensures CountTicks(s, actions, slot) == 1 ==>
              process in s.replicas && s.replicas[process].MayStillTick() && MayTick(Run(s, actions), slot) == {}
    ensures LateFor(s, slot) == {} && CountGrants(s, actions, slot) == 1 ==>
              process in s.replicas && s.replicas[process].MayStillAcquire() && Chances(Run(s, actions), slot) == 0
  {
    BoundedHandoff(s, actions, slot);
    SubsetSize(InWindow(s, slot), {process});
    SubsetSize(MayTick(s, slot), {process});
  }

  lemma OneMoreStep(s: State, a: Action, rest: seq<Action>, slot: Slot)
    ensures Run(s, [a] + rest) == Run(Step(s, a), rest)
    ensures KeepsAwayThroughout(s, [a] + rest, slot)
            <==> KeepsAway(s, a, slot) && KeepsAwayThroughout(Step(s, a), rest, slot)
    ensures CountTicks(s, [a] + rest, slot)
            == (if StartsTick(s, a, slot) then 1 else 0) + CountTicks(Step(s, a), rest, slot)
  {
    assert ([a] + rest)[1..] == rest;
  }

  /**
   The bound cannot be improved: whoever is past its check, or about to hear that it has the lock, can still tick
   although the marker never names its slot again.
   */
  lemma WindowIsReal(s: State, id: nat, slot: Slot) returns (actions: seq<Action>)
    requires s.active == Some(Other(slot)) && id in s.replicas && s.replicas[id].slot == slot
    requires s.replicas[id].at.Setting? || s.replicas[id].Won()
    ensures KeepsAwayThroughout(s, actions, slot) && CountTicks(s, actions, slot) == 1
    ensures At(Run(s, actions), id, Ticking)
  {
    if s.replicas[id].Won() {
      actions := [Hear(id)];
      assert actions[1..] == [];
    } else {
      actions := AfterTheLockExpires(s, id, slot);
    }
  }

  lemma AfterTheLockExpires(s: State, id: nat, slot: Slot) returns (actions: seq<Action>)
    requires s.active == Some(Other(slot)) && id in s.replicas && s.replicas[id].slot == slot
    requires s.replicas[id].at.Setting?
    ensures KeepsAwayThroughout(s, actions, slot) && CountTicks(s, actions, slot) == 1
    ensures At(Run(s, actions), id, Ticking)
  {
    var wait := if s.lock.Some? then s.lock.value.expires + 1 else 0;
    actions := [Elapse(wait)] + ([Set(id, Answered)] + ([Hear(id)] + []));
    var waited := Step(s, Elapse(wait));
    assert !Live(waited.lock, waited.now) && At(waited, id, Setting);
    var won := Step(waited, Set(id, Answered));
    assert At(won, id, SetAnswer(true)) && won.replicas[id].slot == slot;
    OneMoreStep(s, Elapse(wait), [Set(id, Answered)] + ([Hear(id)] + []), slot);
    OneMoreStep(waited, Set(id, Answered), [Hear(id)] + [], slot);
    OneMoreStep(won, Hear(id), [], slot);
  }

  /** The window is real: the lock can look free to the controller and still go to the old slot afterwards. */
  lemma OldSlotCanAcquireAfterQuiesce(ttl: nat)
    ensures var checked := Step(Step(Fresh(ttl, None, Some(A)), Spawn(0, A)), Check(0, true));
            var marked := Step(checked, SetActive(Some(B)));
            !Live(marked.lock, marked.now) && At(Step(Step(marked, Set(0, Answered)), Hear(0)), 0, Ticking)
  {
  }

  /** A replica that hears it is no longer active gives back a lock it holds and no other replica's lock. */
  lemma ReleaseIsOwnOnly(s: State, id: nat, delivery: Delivery)
    requires At(s, id, Leaving) && !delivery.NotSent?
    ensures var t := Step(s, GiveUp(id, delivery));
            && !HeldBy(t.lock, id, t.now)
            && (forall j :: j != id && HeldBy(s.lock, j, s.now) ==> t.lock == s.lock)
  {
  }
}
