/**
 The fixed-window rate gate.  A request reads the clock, then increments the counter of that minute, whose key
 expires 120 seconds after its last increment.  Replicas share a clock; an increment may fail, and it may reach Redis
 long after its request read the clock.
 */
module RateGate {
  import opened Common

  /** A counter of `pm:rl:<scope>:<id>:<minute>` and the last second at which the key exists. */
  datatype Entry = Entry(count: nat, expires: nat)

  /** A request of `key` that read the clock at `at`. */
  datatype Stamp = Stamp(key: nat, at: nat) {
    function Minute(): nat {
      at / 60
    }
  }

  datatype State = State(
    now: nat,
    limits: map<nat, int>,
    entries: map<(nat, nat), Entry>,
    waiting: map<nat, Stamp>,
    passed: seq<Stamp>,      // the requests that passed the gate
    waved: seq<Stamp>)       // those of them whose hit came back as an error, or came too late

  datatype Action = Elapse(seconds: nat) | ReadClock(id: nat, key: nat) | Hit(id: nat, delivery: Delivery)

  const KEY_TTL: nat := 120

  /** No counter of the stamp's minute can have expired yet. */
  predicate InTime(stamp: Stamp, now: nat) {
    now <= 60 * stamp.Minute() + KEY_TTL
  }

  function Limit(s: State, key: nat): int {
    if key in s.limits then s.limits[key] else 0
  }

  /** INCR and EXPIRE in one pipeline; an expired key counts from zero again. */
  function Increment(entries: map<(nat, nat), Entry>, k: (nat, nat), now: nat): Entry {
    if k in entries && now <= entries[k].expires
    then Entry(entries[k].count + 1, now + KEY_TTL)
    else Entry(1, now + KEY_TTL)
  }

  function Step(s: State, a: Action): State {
    match a
    case Elapse(seconds) => s.(now := s.now + seconds)
    case ReadClock(id, key) => if id in s.waiting then s else s.(waiting := s.waiting[id := Stamp(key, s.now)])
    case Hit(id, delivery) =>
      if id !in s.waiting then s
      else
        var stamp := s.waiting[id];
        var k := (stamp.key, stamp.Minute());
        var entry := Increment(s.entries, k, s.now);
        var passes := (if delivery.Answered? then entry.count else 0) <= Limit(s, stamp.key);
        var unchecked := !delivery.Answered? || !InTime(stamp, s.now);
        s.(waiting := s.waiting - {id},
           entries := if delivery.NotSent? then s.entries else s.entries[k := entry],
           passed := if passes then s.passed + [stamp] else s.passed,
           waved := if passes && unchecked then s.waved + [stamp] else s.waved)
  }

  function Run(s: State, actions: seq<Action>): State
    decreases |actions|
  {
    if actions == [] then s else Run(Step(s, actions[0]), actions[1..])
  }

  lemma {:induction false} RunSnoc(s: State, actions: seq<Action>, a: Action)
    ensures Run(s, actions + [a]) == Step(Run(s, actions), a)
    decreases |actions|
  {
    if actions == [] {
      assert [a][1..] == [];
    } else {
      assert (actions + [a])[1..] == actions[1..] + [a];
      RunSnoc(Step(s, actions[0]), actions[1..], a);
    }
  }

  function Start(limits: map<nat, int>, now: nat): State {
    State(now, limits, map[], map[], [], [])
  }

  /** Requests of `key` that passed the gate with a clock reading in `[from, until)`. */
  function PassedBetween(passed: seq<Stamp>, key: nat, from: nat, until: nat): nat
    decreases |passed|
  {
    if passed == [] then 0
    else
      var last := passed[|passed| - 1];
      PassedBetween(passed[..|passed| - 1], key, from, until)
      + if last.key == key && from <= last.at < until then 1 else 0
  }

  function PassedInMinute(passed: seq<Stamp>, key: nat, minute: nat): nat {
    PassedBetween(passed, key, 60 * minute, 60 * minute + 60)
  }

  lemma PassedSnoc(passed: seq<Stamp>, stamp: Stamp, key: nat, minute: nat)
    ensures PassedInMinute(passed + [stamp], key, minute)
            == PassedInMinute(passed, key, minute) + if stamp.key == key && stamp.Minute() == minute then 1 else 0
  {
  }

  /** Requests of `key` that passed in a minute on an answer from Redis that came in time. */
  function PassedOnAnswer(s: State, key: nat, minute: nat): int {
    PassedInMinute(s.passed, key, minute) - PassedInMinute(s.waved, key, minute)
  }

  ghost predicate KeyInv(s: State, key: nat, minute: nat) {
    var n := PassedOnAnswer(s, key, minute);
    && (n == 0 || 0 <= n <= Limit(s, key))
    && ((key, minute) in s.entries ==> s.entries[(key, minute)].expires >= 60 * minute + KEY_TTL)
    && (s.now <= 60 * minute + KEY_TTL ==>
          if (key, minute) in s.entries then n <= s.entries[(key, minute)].count else n == 0)
  }

  ghost predicate Inv(s: State) {
    && (forall id :: id in s.waiting ==> s.waiting[id].at <= s.now)
    && (forall key, minute :: KeyInv(s, key, minute))
  }

  /** A hit that is in time finds the counter of its minute alive, if there is one. */
  lemma CounterIsAlive(s: State, stamp: Stamp, minute: nat)
    requires KeyInv(s, stamp.key, minute) && minute == stamp.Minute() && stamp.at <= s.now
    ensures var n, entry := PassedOnAnswer(s, stamp.key, minute), Increment(s.entries, (stamp.key, minute), s.now);
            entry.expires >= 60 * minute + KEY_TTL && (InTime(stamp, s.now) ==> n < entry.count)
  {
  }

  /** What a hit does to the passes on an answer in time. */
  lemma HitCounts(s: State, id: nat, delivery: Delivery, key: nat, minute: nat)
    requires id in s.waiting
    ensures var t, stamp := Step(s, Hit(id, delivery)), s.waiting[id];
            var counts := delivery.Answered? && InTime(stamp, s.now) && stamp.key == key && stamp.Minute() == minute
                          && Increment(s.entries, (key, minute), s.now).count <= Limit(s, key);
            PassedOnAnswer(t, key, minute) == PassedOnAnswer(s, key, minute) + if counts then 1 else 0
  {
    PassedSnoc(s.passed, s.waiting[id], key, minute);
    PassedSnoc(s.waved, s.waiting[id], key, minute);
  }

  lemma HitOfAnotherMinuteKeeps(s: State, id: nat, delivery: Delivery, key: nat, minute: nat)
    requires KeyInv(s, key, minute) && id in s.waiting
    requires s.waiting[id].key != key || s.waiting[id].Minute() != minute
    ensures KeyInv(Step(s, Hit(id, delivery)), key, minute)
  {
    HitCounts(s, id, delivery, key, minute);
  }

  lemma HitKeeps(s: State, id: nat, delivery: Delivery, key: nat, minute: nat)
    requires KeyInv(s, key, minute) && id in s.waiting && s.waiting[id].at <= s.now
    ensures KeyInv(Step(s, Hit(id, delivery)), key, minute)
  {
    var stamp := s.waiting[id];
    if stamp.key == key && stamp.Minute() == minute {
      HitCounts(s, id, delivery, key, minute);
      CounterIsAlive(s, stamp, minute);
    } else {
      HitOfAnotherMinuteKeeps(s, id, delivery, key, minute);
    }
  }

  lemma StepKeeps(s: State, a: Action)
    requires Inv(s)
    ensures Inv(Step(s, a))
  {
    var t := Step(s, a);
    forall key, minute
      ensures KeyInv(t, key, minute)
    {
      assert KeyInv(s, key, minute);
      if a.Hit? && a.id in s.waiting {
        HitKeeps(s, a.id, a.delivery, key, minute);
      }
    }
  }

  lemma {:induction false} Always(s: State, actions: seq<Action>)
    requires Inv(s)
    ensures Inv(Run(s, actions)) && Run(s, actions).limits == s.limits
    decreases |actions|
  {
    if actions != [] {
      StepKeeps(s, actions[0]);
      Always(Step(s, actions[0]), actions[1..]);
    }
  }

  function Positive(n: int): nat {
    if n > 0 then n else 0
  }

  /**
   In every interleaving at most `limit` requests of a key pass with a clock reading in one minute, besides those
   whose hit came back as an error or too late.
   */
  lemma MinuteBound(limits: map<nat, int>, now: nat, actions: seq<Action>, key: nat, minute: nat)
    ensures var t := Run(Start(limits, now), actions);
            PassedInMinute(t.passed, key, minute)
            <= Positive(Limit(t, key)) + PassedInMinute(t.waved, key, minute)
    ensures Run(Start(limits, now), actions).limits == limits
  {
    var s := Start(limits, now);
    assert forall k, m :: KeyInv(s, k, m);
    Always(s, actions);
    assert KeyInv(Run(s, actions), key, minute);
  }

  /** Sixty seconds touch two calendar minutes. */
  lemma {:induction false} WindowSplits(passed: seq<Stamp>, key: nat, from: nat)
    ensures PassedBetween(passed, key, from, from + 60)
            <= PassedInMinute(passed, key, from / 60) + PassedInMinute(passed, key, from / 60 + 1)
    decreases |passed|
  {
    if passed != [] {
      WindowSplits(passed[..|passed| - 1], key, from);
    }
  }

  /** Hence at most twice the limit passes in any sixty seconds, besides those of the two minutes. */
  lemma SlidingBound(limits: map<nat, int>, now: nat, actions: seq<Action>, key: nat, from: nat)
    ensures var t := Run(Start(limits, now), actions);
            PassedBetween(t.passed, key, from, from + 60)
            <= 2 * Positive(Limit(t, key))
               + PassedInMinute(t.waved, key, from / 60) + PassedInMinute(t.waved, key, from / 60 + 1)
  {
    var t := Run(Start(limits, now), actions);
    WindowSplits(t.passed, key, from);
    MinuteBound(limits, now, actions, key, from / 60);
    MinuteBound(limits, now, actions, key, from / 60 + 1);
  }

  /** Every hit is answered, and in time. */
  ghost predicate Punctual(s: State, actions: seq<Action>)
    decreases |actions|
  {
    actions != [] ==>
      && (actions[0].Hit? && actions[0].id in s.waiting ==>
            actions[0].delivery.Answered? && InTime(s.waiting[actions[0].id], s.now))
      && Punctual(Step(s, actions[0]), actions[1..])
  }

  /** Then nothing is waved through, and the bounds are the limit and twice the limit. */
  lemma {:induction false} PunctualNothingWaved(s: State, actions: seq<Action>)
    requires Punctual(s, actions)
    ensures Run(s, actions).waved == s.waved
    decreases |actions|
  {
    if actions != [] {
      PunctualNothingWaved(Step(s, actions[0]), actions[1..]);
    }
  }

  /** A hit is in time if it comes within 61 seconds, and some that come a second later are not. */
  lemma SixtyOneSecondsAreInTime(stamp: Stamp, now: nat)
    ensures now <= stamp.at + 61 ==> InTime(stamp, now)
    ensures !InTime(Stamp(stamp.key, 59), 59 + 62)
  {
    assert stamp.at <= 60 * stamp.Minute() + 59;
  }

  /** And then the bound is broken: a limit of one lets two requests of the same minute through. */
  lemma LateHitPassesBesides()
    ensures var first := Step(Step(Start(map[0 := 1], 0), ReadClock(1, 0)), Hit(1, Answered));
            var t := Step(Step(Step(Step(first, Elapse(59)), ReadClock(2, 0)), Elapse(62)), Hit(2, Answered));
            PassedInMinute(t.passed, 0, 0) == 2 && Limit(t, 0) == 1 && t.waved == [Stamp(0, 59)]
  {
    var first := Step(Step(Start(map[0 := 1], 0), ReadClock(1, 0)), Hit(1, Answered));
    assert first.passed == [Stamp(0, 0)] && first.entries == map[(0, 0) := Entry(1, 120)];
    var read := Step(Step(first, Elapse(59)), ReadClock(2, 0));
    assert read.waiting == map[2 := Stamp(0, 59)] && Stamp(0, 59).Minute() == 0;
    var t := Step(Step(read, Elapse(62)), Hit(2, Answered));
    assert t.passed == [Stamp(0, 0)] + [Stamp(0, 59)];
    PassedSnoc([], Stamp(0, 0), 0, 0);
    PassedSnoc([Stamp(0, 0)], Stamp(0, 59), 0, 0);
    assert [Stamp(0, 0)] == [] + [Stamp(0, 0)];
  }

  /** The sliding bound is reached: a limit of one lets two requests through a second apart. */
  lemma SlidingBoundIsReached()
    ensures var first := Step(Step(Start(map[0 := 1], 59), ReadClock(1, 0)), Hit(1, Answered));
            var t := Step(Step(Step(first, Elapse(1)), ReadClock(2, 0)), Hit(2, Answered));
            PassedBetween(t.passed, 0, 59, 119) == 2
  {
  }
}
