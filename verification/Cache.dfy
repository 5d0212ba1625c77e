/**
 The counters of the cache, as one task of one replica works on them while every other task moves in between:
 each command is a step of the machine in `Admission`, and nothing else is.
 */
module InflightCounters {
  import opened Common
  import opened Admission

  class Cache {
    const caps: map<nat, int>
    var now: nat
    var counts: map<nat, int>          // the keys pm:inflight:<scope>:<id>
    var expires: map<nat, nat>         // and how long they live
    var requests: map<nat, Request>    // what every task of every replica is about to do
    ghost const origin: State
    ghost var log: seq<Action>

    ghost function View(): State
      reads this
    {
      State(caps, now, counts, expires, requests)
    }

    ghost predicate Valid()
      reads this
    {
      View() == Run(origin, log)
    }

    constructor (caps: map<nat, int>)
      ensures Valid() && View() == Start(caps) && origin == Start(caps)
    {
      this.caps, now, counts, expires, requests, log := caps, 0, map[], map[], map[], [];
      origin := Start(caps);
    }

    ghost method Took(before: State, a: Action)
      requires before == Run(origin, log) && View() == Step(before, a)
      modifies `log
      ensures Valid() && log == old(log) + [a]
    {
      RunSnoc(origin, log, a);
      log := log + [a];
    }

    twostate predicate OthersMoved(me: nat)
      reads this
    {
      && (me in requests <==> me in old(requests))
      && (me in requests ==> requests[me] == old(requests[me]))
      && old(log) <= log
    }

    predicate Mine(a: Action, me: nat) {
      !a.Elapse? && a.id == me
    }

    /** Any actions of the other tasks, and time passes. */
    method Environment(me: nat)
      requires Valid()
      modifies this
      ensures Valid() && OthersMoved(me)
    {
      var moves: nat := *;
      while moves > 0
        invariant Valid() && OthersMoved(me)
      {
        var a: Action := *;
        OthersMove(a, me);
        moves := moves - 1;
      }
    }

    lemma OthersLeaveUs(s: State, a: Action, me: nat)
      requires !Mine(a, me)
      ensures me in Step(s, a).requests <==> me in s.requests
      ensures me in s.requests ==> Step(s, a).requests[me] == s.requests[me]
      ensures Step(s, a).caps == s.caps
    {
    }

    method OthersMove(a: Action, me: nat)
      requires Valid()
      modifies this
      ensures Valid() && OthersMoved(me)
    {
      if !Mine(a, me) {
        ghost var before := View();
        OthersLeaveUs(before, a, me);
        var t := Step(State(caps, now, counts, expires, requests), a);
        now, counts, expires, requests := t.now, t.counts, t.expires, t.requests;
        Took(before, a);
      }
    }

    /**
     `inflight_acquire`: INCR and EXPIRE in one pipeline.  A lost reply leaves a slot taken that nobody will give
     back; otherwise the answer is the value of the counter right after our own increment.
     */
    method InflightAcquire(me: nat, key: nat) returns (n: Option<int>)
      requires Valid() && me !in requests
      modifies this
      ensures Valid() && old(log) <= log
      ensures n.Some? ==> me in requests && n.value == Count(View(), key) && requests[me] == Probing(key, n.value)
      ensures n.None? ==> me !in requests || requests[me] == Leaked(key)
    {
      Environment(me);
      var delivery: Delivery := *;
      if delivery.NotSent? {
        return None;
      }
      ghost var before := View();
      var count := Lookup(counts, key) + 1;
      counts, expires := counts[key := count], expires[key := now + TTL];
      requests := requests[me := Probing(key, count)];
      Took(before, Acquire(me, key, false));
      if delivery.ReplyLost? {
        before := View();
        requests := requests[me := Leaked(key)];
        Took(before, Leak(me));
        return None;
      }
      n := Some(count);
    }

    /** A pinned request takes its slot and goes on whatever the answer, and even if the command never arrived. */
    method AcquirePinned(me: nat, key: nat)
      requires Valid() && me !in requests
      modifies this
      ensures Valid() && old(log) <= log && me in requests && requests[me] == Holding(key, true)
    {
      Environment(me);
      var delivery: Delivery := *;
      ghost var before := View();
      requests := requests[me := Holding(key, true)];
      if delivery.NotSent? {
        Took(before, Miss(me, key));
      } else {
        counts, expires := counts[key := Lookup(counts, key) + 1], expires[key := now + TTL];
        Took(before, Acquire(me, key, true));
      }
    }

    /**
     `inflight_release`: DECR, and DEL when the answer is not positive; the other tasks may move in between, and
     either command may fail.  However it goes, this task's slot is given back at most once.
     */
    method InflightRelease(me: nat) returns (ok: bool)
      requires Valid() && me in requests && GivesBack(View(), me)
      modifies this
      ensures Valid() && old(log) <= log
      ensures ok ==> me !in requests
      ensures !ok ==> me !in requests || requests[me].Deleting? || requests[me] == Leaked(old(requests[me].key))
    {
      var key := requests[me].key;
      Environment(me);
      var delivery: Delivery := *;
      var n := SendDecr(me, key, delivery);
      ok := delivery.Answered?;
      if ok && n <= 0 {
        Environment(me);
        delivery := *;
        SendDel(me, key, delivery);
        ok := delivery.Answered?;
      }
    }

    /** DECR, if it arrives; a slot whose DECR does not arrive is never given back. */
    method SendDecr(me: nat, key: nat, delivery: Delivery) returns (n: int)
      requires Valid() && me in requests && requests[me].key == key && GivesBack(View(), me)
      modifies `counts, `requests, `log
      ensures Valid() && old(log) <= log
      ensures delivery.NotSent? ==> me in requests && requests[me] == Leaked(key)
      ensures !delivery.NotSent? ==>
                && n == Lookup(old(counts), key) - 1 == Lookup(counts, key)
                && if n <= 0 then me in requests && requests[me] == Deleting(key) else me !in requests
    {
      ghost var before := View();
      n := Lookup(counts, key) - 1;
      if delivery.NotSent? {
        requests := requests[me := Leaked(key)];
        Took(before, Leak(me));
      } else {
        counts := counts[key := n];
        requests := if n <= 0 then requests[me := Deleting(key)] else requests - {me};
        Took(before, Decr(me));
      }
    }

    /** DEL, if it arrives: whatever the counter is by now. */
    method SendDel(me: nat, key: nat, delivery: Delivery)
      requires Valid() && me in requests && requests[me] == Deleting(key)
      modifies `counts, `expires, `requests, `log
      ensures Valid() && old(log) <= log
      ensures if delivery.NotSent? then requests == old(requests) && counts == old(counts)
              else me !in requests && key !in counts
    {
      if !delivery.NotSent? {
        ghost var before := View();
        counts, expires, requests := counts - {key}, expires - {key}, requests - {me};
        Took(before, Del(me));
      }
    }

    /** `inflight_get`: an absent counter and a negative one both read as no load. */
    method InflightGet(key: nat) returns (load: nat)
      requires Valid()
      ensures load == Load(View(), key)
      ensures origin == Start(caps) ==> load <= |Takers(View(), key)|
    {
      load := if key in counts && counts[key] > 0 then counts[key] else 0;
      if origin == Start(caps) {
        NoPhantomLoad(caps, log, key);
      }
    }

    /** The gate of an unpinned request: take a slot, keep it only if the answer is within the cap. */
    method Probe(me: nat, key: nat) returns (admitted: bool)
      requires Valid() && me !in requests
      modifies this
      ensures Valid() && old(log) <= log
      ensures admitted ==> me in UnpinnedLeases(View(), key)
      ensures !admitted ==> me !in requests || requests[me].Deleting? || requests[me] == Leaked(key)
    {
      var n := InflightAcquire(me, key);
      if n.None? {
        return false;
      }
      ghost var before := View();
      if n.value <= Lookup(caps, key) {
        requests := requests[me := Holding(key, false)];
        Took(before, Admit(me));
        return true;
      }
      var _ := InflightRelease(me);
      admitted := false;
    }
  }
}

/** The rate counters, worked on in the same way: each command is a step of the machine in `RateGate`. */
module RateCounters {
  import opened Common
  import opened RateGate

  class Cache {
    const limits: map<nat, int>
    var now: nat
    var entries: map<(nat, nat), Entry>    // the keys pm:rl:<scope>:<id>:<minute>
    var waiting: map<nat, Stamp>           // the tasks that have read the clock
    ghost var passed: seq<Stamp>
    ghost var waved: seq<Stamp>
    ghost const origin: State
    ghost var log: seq<Action>

    ghost function View(): State
      reads this
    {
      State(now, limits, entries, waiting, passed, waved)
    }

    ghost predicate Valid()
      reads this
    {
      View() == Run(origin, log)
    }

    constructor (limits: map<nat, int>, now: nat)
      ensures Valid() && View() == Start(limits, now) && origin == Start(limits, now)
    {
      this.limits, this.now, entries, waiting, passed, waved, log := limits, now, map[], map[], [], [], [];
      origin := Start(limits, now);
    }

    ghost method Took(before: State, a: Action)
      requires before == Run(origin, log) && View() == Step(before, a)
      modifies `log
      ensures Valid() && log == old(log) + [a]
    {
      RunSnoc(origin, log, a);
      log := log + [a];
    }

    predicate Mine(a: Action, me: nat) {
      !a.Elapse? && a.id == me
    }

    /** The other tasks move and time passes. */
    method Environment(me: nat)
      requires Valid() && me in waiting
      modifies this
      ensures Valid() && me in waiting && waiting[me] == old(waiting[me]) && old(log) <= log
    {
      var moves: nat := *;
      while moves > 0
        invariant Valid() && me in waiting && waiting[me] == old(waiting[me]) && old(log) <= log
      {
        var a: Action := *;
        OthersMove(a, me);
        moves := moves - 1;
      }
    }

    /** What a step does besides the two lists of passes does not depend on them. */
    lemma PassesDoNotMatter(s: State, a: Action)
      ensures var t, u := Step(s, a), Step(s.(passed := [], waved := []), a);
              t.now == u.now && t.limits == s.limits && t.entries == u.entries && t.waiting == u.waiting
    {
    }

    method OthersMove(a: Action, me: nat)
      requires Valid() && me in waiting
      modifies this
      ensures Valid() && me in waiting && waiting[me] == old(waiting[me]) && old(log) <= log
    {
      if !Mine(a, me) {
        ghost var before := View();
        PassesDoNotMatter(before, a);
        var t := Step(State(now, limits, entries, waiting, [], []), a);
        ghost var full := Step(before, a);
        now, entries, waiting, passed, waved := t.now, t.entries, t.waiting, full.passed, full.waved;
        Took(before, a);
      }
    }

    /**
     `rate_hit`: reads the clock for the minute, then INCR and EXPIRE in one pipeline.  Together with the caller's
     comparison, which takes an error for a count of zero, it is one pass through the gate of the minute that was read.
     */
    method RateHit(me: nat, key: nat) returns (n: Option<nat>, passes: bool)
      requires Valid() && me !in waiting
      modifies this
      ensures Valid() && old(log) <= log && passes == (n.GetOr(0) <= Limit(View(), key))
      ensures log != [] && log[|log| - 1].Hit? && log[|log| - 1].id == me
      ensures exists at: nat ::
                && (n.Some? ==> (key, at / 60) in entries && entries[(key, at / 60)].count == n.value)
                && (passes ==> passed != [] && passed[|passed| - 1] == Stamp(key, at))
                && (passes && (n.None? || !InTime(Stamp(key, at), now)) ==>
                      waved != [] && waved[|waved| - 1] == Stamp(key, at))
    {
      ghost var before := View();
      var at := now;
      waiting := waiting[me := Stamp(key, at)];
      Took(before, ReadClock(me, key));
      Environment(me);
      var delivery: Delivery := *;
      n := SendHit(me, key, at, delivery);
      passes := n.GetOr(0) <= if key in limits then limits[key] else 0;
    }

    /** The pipeline, if it arrives, and what its caller makes of the answer. */
    method SendHit(me: nat, key: nat, at: nat, delivery: Delivery) returns (n: Option<nat>)
      requires Valid() && me in waiting && waiting[me] == Stamp(key, at)
      modifies `entries, `waiting, `passed, `waved, `log
      ensures Valid() && log == old(log) + [Hit(me, delivery)] && (n.Some? <==> delivery.Answered?)
      ensures n.Some? ==> (key, at / 60) in entries && entries[(key, at / 60)].count == n.value
      ensures n.GetOr(0) <= Limit(View(), key) ==>
                && passed == old(passed) + [Stamp(key, at)]
                && waved == if n.None? || !InTime(Stamp(key, at), now)
                            then old(waved) + [Stamp(key, at)] else old(waved)
    {
      ghost var before := View();
      var entry := Increment(entries, (key, at / 60), now);
      if !delivery.NotSent? {
        entries := entries[(key, at / 60) := entry];
      }
      n := if delivery.Answered? then Some(entry.count) else None;
      waiting := waiting - {me};
      if n.GetOr(0) <= if key in limits then limits[key] else 0 {
        passed := passed + [Stamp(key, at)];
        waved := if n.None? || !InTime(Stamp(key, at), now) then waved + [Stamp(key, at)] else waved;
      }
      Took(before, Hit(me, delivery));
    }
  }
}
