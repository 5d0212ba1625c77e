/**
 Operation exclusion: any number of HTTP requests, command-line runs and status probes compete for the one
 `flock` on deploy.lock.  An HTTP request takes the lease, checks the journal under it and hands the lease to
 its worker thread; a command-line run holds it around the body.
 */
module OperationExclusion {
  import opened Common

  datatype Verb = Deploy | Switch | Rollback | Resume | Runner | Status {
    /** The verbs that must not begin while an operation is unfinished. */
    predicate NeedsIdle() {
      Deploy? || Switch? || Rollback?
    }
  }

  datatype Phase =
    | Asked      // has not tried the lock yet
    | Leased     // holds the lock, has decided nothing
    | Accepted   // holds the lock, its body is about to run
    | Working    // holds the lock, its body has begun
    | Over       // done, refused or dead

  datatype Actor = Actor(verb: Verb, http: bool, phase: Phase, taken: nat, released: nat) {
    predicate HoldsLease() {
      phase.Leased? || phase.Accepted? || phase.Working?
    }
  }

  datatype State = State(lock: Option<nat>, idle: bool, actors: map<nat, Actor>)

  datatype Action =
    | Ask(id: nat, verb: Verb, http: bool)
    | Take(id: nat)
    | Gate(id: nat, writable: bool)   // the check under the lock, then the job file and the thread
    | Begin(id: nat)
    | Work(id: nat, idle: bool)       // the body advances, possibly changing the journaled stage
    | Leave(id: nat)                  // the body returns or raises, a probe ends, a process dies
    | GiveUp(id: nat)                 // the request is refused before it tries the lock

  function Release(s: State, id: nat): State
    requires id in s.actors
  {
    s.(lock := None, actors := s.actors[id := s.actors[id].(phase := Over, released := s.actors[id].released + 1)])
  }

  function To(s: State, id: nat, phase: Phase): State
    requires id in s.actors
  {
    s.(actors := s.actors[id := s.actors[id].(phase := phase)])
  }

  function Step(s: State, a: Action): State {
    match a
    case Ask(id, verb, http) =>
      if id in s.actors then s else s.(actors := s.actors[id := Actor(verb, http, Asked, 0, 0)])
    case Take(id) =>
      if id !in s.actors || !s.actors[id].phase.Asked? then s
      else if s.lock.Some? then To(s, id, Over)
      else
        s.(lock := Some(id),
           actors := s.actors[id := s.actors[id].(phase := Leased, taken := s.actors[id].taken + 1)])
    case Gate(id, writable) =>
      if id !in s.actors || !s.actors[id].phase.Leased? || s.actors[id].verb.Status? then s
      else if s.actors[id].http && ((s.actors[id].verb.NeedsIdle() && !s.idle) || !writable) then Release(s, id)
      else To(s, id, Accepted)
    case Begin(id) =>
      if id !in s.actors || !s.actors[id].phase.Accepted? then s
      else if s.actors[id].verb.NeedsIdle() && !s.idle then Release(s, id)
      else To(s, id, Working)
    case Work(id, idle) => if id in s.actors && s.actors[id].phase.Working? then s.(idle := idle) else s
    case Leave(id) => if id in s.actors && s.actors[id].HoldsLease() then Release(s, id) else s
    case GiveUp(id) => if id in s.actors && s.actors[id].phase.Asked? then To(s, id, Over) else s
  }

  function Run(s: State, actions: seq<Action>): State
    decreases |actions|
  {
    if actions == [] then s else Run(Step(s, actions[0]), actions[1..])
  }

  lemma {:induction false} RunSnoc(s: State, actions: seq<Action>, a: Action)
    ensures Run(s, actions + [a]) == Step(Run(s, actions), a)
    decreases |actions|
  {
    if actions == [] {
      assert [a][1..] == [];
    } else {
      assert (actions + [a])[1..] == actions[1..] + [a];
      RunSnoc(Step(s, actions[0]), actions[1..], a);
    }
  }

  ghost predicate ActorInv(s: State, id: nat)
    requires id in s.actors
  {
    var x := s.actors[id];
    && (x.HoldsLease() <==> s.lock == Some(id))
    && x.taken <= 1
    && x.released == (if x.HoldsLease() then 0 else x.taken)
    && (x.HoldsLease() ==> x.taken == 1)
    && (x.phase.Asked? ==> x.taken == 0)
    && (x.phase.Accepted? && x.http && x.verb.NeedsIdle() ==> s.idle)
  }

  ghost predicate Inv(s: State) {
    && (forall id :: id in s.actors ==> ActorInv(s, id))
    && (s.lock.Some? ==> s.lock.value in s.actors)
  }

  lemma StepKeeps(s: State, a: Action)
    requires Inv(s)
    ensures Inv(Step(s, a))
  {
  }

  lemma {:induction false} Always(s: State, actions: seq<Action>)
    requires Inv(s)
    ensures Inv(Run(s, actions))
    decreases |actions|
  {
    if actions != [] {
      StepKeeps(s, actions[0]);
      Always(Step(s, actions[0]), actions[1..]);
    }
  }

  /** At most one operation body is accepted or running, and it holds the lock. */
  lemma OneBodyAtATime(idle: bool, actions: seq<Action>, i: nat, j: nat)
    requires var t := Run(State(None, idle, map[]), actions);
             i in t.actors && j in t.actors && t.actors[i].HoldsLease() && t.actors[j].HoldsLease()
    ensures i == j && Run(State(None, idle, map[]), actions).lock == Some(i)
  {
    Always(State(None, idle, map[]), actions);
    var t := Run(State(None, idle, map[]), actions);
    assert ActorInv(t, i) && ActorInv(t, j);
  }

  /** The lease is held from acceptance to the end, and whoever is over has released exactly what it took. */
  lemma LeaseIsReleasedOnce(idle: bool, actions: seq<Action>, i: nat)
    requires i in Run(State(None, idle, map[]), actions).actors
    ensures var x := Run(State(None, idle, map[]), actions).actors[i];
            && (x.phase.Over? ==> x.released == x.taken <= 1)
            && (x.HoldsLease() ==> x.taken == 1 && x.released == 0)
            && (x.phase.Asked? ==> x.taken == x.released == 0)
  {
    Always(State(None, idle, map[]), actions);
    assert ActorInv(Run(State(None, idle, map[]), actions), i);
  }

  /** The journal check made under the lock still holds when the worker's body begins. */
  lemma AcceptedOperationBeginsIdle(idle: bool, actions: seq<Action>, i: nat)
    requires var t := Run(State(None, idle, map[]), actions);
             && i in t.actors && t.actors[i].phase.Accepted? && t.actors[i].verb.NeedsIdle()
    ensures var t := Run(State(None, idle, map[]), actions);
            var u := Step(t, Begin(i));
            && (u.actors[i].phase.Working? <==> t.idle)
            && (t.actors[i].http ==> u.actors[i].phase.Working?)
  {
    Always(State(None, idle, map[]), actions);
    assert ActorInv(Run(State(None, idle, map[]), actions), i);
  }

  /**
   While no body is accepted or running, a request is refused the lock if and only if somebody else has taken it and
   decided nothing yet: the probe behind `status`, or another request on its way to the journal check.
   */
  lemma RefusedWithoutABody(idle: bool, actions: seq<Action>, i: nat)
    requires i in Run(State(None, idle, map[]), actions).actors
    requires Run(State(None, idle, map[]), actions).actors[i].phase.Asked?
    requires forall j :: j in Run(State(None, idle, map[]), actions).actors ==>
               var x := Run(State(None, idle, map[]), actions).actors[j]; !x.phase.Accepted? && !x.phase.Working?
    ensures var t := Run(State(None, idle, map[]), actions);
            Step(t, Take(i)).actors[i].phase.Over? <==> exists j :: j in t.actors && t.actors[j].phase.Leased?
  {
    Always(State(None, idle, map[]), actions);
    var t := Run(State(None, idle, map[]), actions);
    if t.lock.Some? {
      assert ActorInv(t, t.lock.value) && t.actors[t.lock.value].phase.Leased?;
    }
    if j :| j in t.actors && t.actors[j].phase.Leased? {
      assert ActorInv(t, j);
    }
  }

  /** Both kinds of refusal happen. */
  lemma ProbesAndRequestsRefuse(verb: Verb, other: Verb)
    ensures var s := Step(Step(Step(State(None, true, map[]), Ask(0, other, true)), Ask(1, verb, true)), Take(0));
            var t := Step(s, Take(1));
            && t.actors[1].phase.Over? && t.actors[1].taken == 0
            && forall i :: i in t.actors ==> !t.actors[i].phase.Working?
  {
  }
}

/** The lease object and the service that passes it from the request to the worker thread. */
module ControlServer {
  import opened Common
  import opened OperationExclusion
  import Deployment
  import Release

  /** The operating system's exclusive lock on deploy.lock, and who holds it. */
  class FileLock {
    var holder: Option<nat>

    constructor ()
      ensures holder.None?
    {
      holder := None;
    }
  }

  /** `locked`: fails at once when somebody else holds the lock; leaving twice releases once. */
  class Lease {
    const file: FileLock
    const me: nat
    var open: bool

    ghost predicate Valid()
      reads this, file
    {
      open ==> file.holder == Some(me)
    }

    constructor (file: FileLock, me: nat)
      ensures Valid() && this.file == file && this.me == me && !open
    {
      this.file, this.me, open := file, me, false;
    }

    method Enter() returns (ok: bool)
      requires Valid() && !open
      modifies this, file
      ensures Valid() && ok == open == old(file.holder).None?
      ensures file.holder == if ok then Some(me) else old(file.holder)
    {
      ok := file.holder.None?;
      if ok {
        open, file.holder := true, Some(me);
      }
    }

    method Exit()
      requires Valid()
      modifies this, file
      ensures Valid() && !open
      ensures file.holder == if old(open) then None else old(file.holder)
    {
      if open {
        file.holder := None;
        open := false;
      }
    }
  }

  /** What a request asks for. */
  datatype Job = Job(verb: Verb, image: Image, target: Slot, expected: Slot)

  class ControlService {
    const file: FileLock
    const controller: Deployment.Controller
    var actors: map<nat, Actor>             // every request, command-line run and probe so far
    ghost const origin: State
    ghost var log: seq<Action>

    /** The journal the exclusion machine speaks about is the controller's. */
    function View(): State
      reads this, file, controller
    {
      State(file.holder, controller.operation.Idle?, actors)
    }

    ghost predicate Valid()
      reads this, file, controller
    {
      && controller.Valid() && controller.line.Down?
      && Inv(origin) && View() == Run(origin, log)
    }

    constructor (controller: Deployment.Controller)
      requires controller.Valid() && controller.line.Down?
      ensures Valid() && fresh(file) && file.holder.None? && this.controller == controller && actors == map[]
    {
      var f := new FileLock();
      file, this.controller, actors, log := f, controller, map[], [];
      origin := State(None, controller.operation.Idle?, map[]);
    }

    ghost method Took(before: State, a: Action)
      requires Inv(origin) && before == Run(origin, log) && View() == Step(before, a)
      requires controller.Valid() && controller.line.Down?
      modifies `log
      ensures Valid() && log == old(log) + [a]
    {
      RunSnoc(origin, log, a);
      log := log + [a];
    }

    /** Whoever holds the lease is the only one, and its journal check stays true. */
    lemma HolderIsAlone(me: nat)
      requires Valid() && me in actors && actors[me].HoldsLease()
      ensures file.holder == Some(me)
      ensures forall id :: id in actors && id != me ==> !actors[id].HoldsLease()
      ensures actors[me].taken == 1 && actors[me].released == 0
      ensures actors[me].phase.Accepted? && actors[me].http && actors[me].verb.NeedsIdle() ==>
                controller.operation.Idle?
    {
      Always(origin, log);
      assert ActorInv(View(), me);
      forall id | id in actors && id != me
        ensures !actors[id].HoldsLease()
      {
        assert ActorInv(View(), id);
      }
    }

    twostate predicate OthersMoved(me: nat)
      reads this, controller
    {
      && old(log) <= log
      && (me in actors <==> me in old(actors))
      && (me in actors ==> actors[me] == old(actors[me]))
      && (me in actors && actors[me].HoldsLease() ==>
            controller.operation == old(controller.operation) && controller.activeMap == old(controller.activeMap))
    }

    /** Anything the other requests, command-line runs and probes do; only a lease holder touches the deployment. */
    method Environment(me: nat)
      requires Valid()
      modifies this, file, controller
      ensures Valid() && OthersMoved(me)
    {
      var moves: nat := *;
      while moves > 0
        invariant Valid() && OthersMoved(me)
      {
        var a: Action := *;
        if a.id != me {
          if a.Work? {
            OthersWork(me, a.id);
          } else if * {
            WorldMoves(me);
          } else {
            OthersMove(me, a);
          }
        }
        moves := moves - 1;
      }
    }

    /** Clients, HAProxy, the leader lock and the health checks move. */
    method WorldMoves(me: nat)
      requires Valid()
      modifies controller
      ensures Valid() && OthersMoved(me)
    {
      controller.Environment();
    }

    method OthersMove(me: nat, a: Action)
      requires Valid() && a.id != me && !a.Work?
      modifies this, file
      ensures Valid() && OthersMoved(me)
    {
      ghost var before := View();
      var t := Step(View(), a);
      file.holder, actors := t.lock, t.actors;
      Took(before, a);
    }

    /** The body of another lease holder advances: it runs any operation of the controller. */
    method OthersWork(me: nat, id: nat)
      requires Valid() && id != me
      modifies this, controller
      ensures Valid() && OthersMoved(me)
    {
      if id in actors && actors[id].phase.Working? {
        if me in actors && actors[me].HoldsLease() {
          HolderIsAlone(me);
        }
        ghost var before := View();
        var job: Job := *;
        var _ := RunBody(job);
        Took(before, Work(id, controller.operation.Idle?));
      }
    }

    /** The operation a job names; a status request has none. */
    method RunBody(job: Job) returns (r: Deployment.Outcome)
      requires controller.Valid() && controller.line.Down?
      modifies controller
      ensures controller.Valid() && controller.line.Down?
      ensures job.verb.Deploy? ==> (r.Refused? <==> old(controller.operation).Pending?)
      ensures job.verb.Resume? ==> (r.Refused? <==> old(controller.operation).Idle?)
      ensures job.verb.Runner? ==> !r.Refused? && controller.operation == old(controller.operation)
      ensures r.Refused? ==> controller.operation == old(controller.operation)
      ensures r.Done? && job.verb.NeedsIdle() ==> controller.operation.Idle?
      ensures r.Done? && job.verb.Switch? ==> controller.activeMap == Some(job.target)
    {
      match job.verb {
        case Deploy => r := controller.DeployImage(job.image);
        case Switch => r := controller.SwitchTo(job.target, job.expected, Release.Kind.Switch);
        case Rollback => r := controller.RollBack(job.expected);
        case Resume => r := controller.ResumeOperation();
        case Runner => r := controller.RollRunner(job.image);
        case Status => r := Deployment.Outcome.Refused;
      }
    }

    /** What `start` asks of a request before it tries the lock. */
    predicate WellFormed(job: Job, valid: bool)
      reads controller
    {
      valid && !job.verb.Status? && (job.verb.Resume? ==> !controller.operation.Idle?)
    }

    /** A request arrives, and is refused or goes on to the lock. */
    method Arrive(me: nat, job: Job, valid: bool) returns (goesOn: bool)
      requires Valid() && me !in actors
      modifies this
      ensures Valid() && old(log) <= log && goesOn == WellFormed(job, valid)
      ensures me in actors && actors[me] == Actor(job.verb, true, if goesOn then Asked else Over, 0, 0)
    {
      ghost var before := View();
      actors := actors[me := Actor(job.verb, true, Asked, 0, 0)];
      Took(before, Ask(me, job.verb, true));
      goesOn := WellFormed(job, valid);
      if !goesOn {
        before := View();
        actors := actors[me := actors[me].(phase := Over)];
        Took(before, GiveUp(me));
      }
    }

    /** Tries the lock, without waiting. */
    method TakeLock(me: nat, lease: Lease) returns (ok: bool)
      requires Valid() && me in actors && actors[me].phase.Asked? && actors[me].taken == 0
      requires lease.Valid() && lease.file == file && lease.me == me && !lease.open
      modifies this, file, lease
      ensures Valid() && old(log) <= log && lease.Valid() && ok == lease.open == old(file.holder).None?
      ensures me in actors
      ensures actors[me] == old(actors[me]).(phase := if ok then Leased else Over, taken := if ok then 1 else 0)
    {
      ghost var before := View();
      ok := lease.Enter();
      actors := actors[me := actors[me].(phase := if ok then Leased else Over, taken := if ok then 1 else 0)];
      Took(before, Take(me));
    }

    /** The journal check under the lock, then the job file and the thread; on any failure the lease is given back. */
    method Decide(me: nat, lease: Lease, writable: bool) returns (accepted: bool)
      requires Valid() && me in actors && actors[me].phase.Leased? && actors[me].http && !actors[me].verb.Status?
      requires actors[me].released == 0
      requires lease.Valid() && lease.file == file && lease.me == me && lease.open
      modifies this, file, lease
      ensures Valid() && old(log) <= log && lease.Valid() && lease.open == accepted
      ensures accepted <==> (old(actors[me]).verb.NeedsIdle() ==> controller.operation.Idle?) && writable
      ensures me in actors
      ensures actors[me] == old(actors[me]).(phase := if accepted then Accepted else Over,
                                             released := if accepted then 0 else 1)
    {
      ghost var before := View();
      HolderIsAlone(me);
      accepted := !(actors[me].verb.NeedsIdle() && !controller.operation.Idle?) && writable;
      if !accepted {
        lease.Exit();
      }
      actors := actors[me := actors[me].(phase := if accepted then Accepted else Over,
                                         released := if accepted then 0 else 1)];
      Took(before, Gate(me, writable));
    }

    /**
     `start`: accepts a request and hands its lease on, or refuses it and has given back whatever it took.  The
     others move between the checks.
     */
    method Start(me: nat, job: Job, valid: bool, writable: bool) returns (accepted: bool, lease: Lease)
      requires Valid() && me !in actors
      modifies this, file, controller
      ensures Valid() && old(log) <= log
      ensures fresh(lease) && lease.Valid() && lease.file == file && lease.me == me && lease.open == accepted
      ensures me in actors && actors[me].http && actors[me].verb == job.verb
      ensures accepted ==> valid && writable && actors[me].phase.Accepted? && actors[me].taken == 1
      ensures accepted && job.verb.NeedsIdle() ==> controller.operation.Idle?
      ensures !accepted ==> actors[me].phase.Over? && actors[me].released == actors[me].taken
    {
      lease := new Lease(file, me);
      Environment(me);
      accepted := Arrive(me, job, valid);
      if !accepted { return; }
      Environment(me);
      accepted := TakeLock(me, lease);
      if !accepted { return; }
      Environment(me);
      HolderIsAlone(me);
      accepted := Decide(me, lease, writable);
    }

    /** The body begins: for everything but `resume` and `runner` the journal must be idle. */
    method BeginBody(me: nat)
      requires Valid() && me in actors && actors[me].phase.Accepted?
      requires actors[me].verb.NeedsIdle() ==> controller.operation.Idle?
      modifies `actors, `log
      ensures Valid() && old(log) <= log && me in actors && actors[me] == old(actors[me]).(phase := Working)
    {
      ghost var before := View();
      actors := actors[me := actors[me].(phase := Working)];
      Took(before, Begin(me));
    }

    /** `finally`: the lease is left. */
    method EndBody(me: nat, lease: Lease)
      requires Valid() && me in actors && actors[me].phase.Working?
      requires lease.Valid() && lease.file == file && lease.me == me && lease.open
      modifies this, file, lease
      ensures Valid() && old(log) <= log && !lease.open && file.holder.None?
      ensures me in actors && actors[me].phase.Over? && actors[me].taken == actors[me].released == 1
      ensures actors[me].verb == old(actors[me].verb)
    {
      ghost var before := View();
      HolderIsAlone(me);
      lease.Exit();
      actors := actors[me := actors[me].(phase := Over, released := actors[me].released + 1)];
      Took(before, Leave(me));
    }

    /**
     `_run`: the worker of an accepted request.  Whether the body returns, is refused or dies, and whether its result
     can be recorded or not, the lease is left once, and an accepted deploy is never refused by its journal check.
     */
    method RunJob(me: nat, job: Job, lease: Lease) returns (r: Deployment.Outcome)
      requires Valid() && me in actors && actors[me].phase.Accepted? && actors[me].http && actors[me].verb == job.verb
      requires lease.Valid() && lease.file == file && lease.me == me && lease.open
      modifies this, file, controller, lease
      ensures Valid() && old(log) <= log && !lease.open && file.holder.None?
      ensures me in actors && actors[me].phase.Over? && actors[me].taken == actors[me].released == 1
      ensures job.verb.Deploy? ==> !r.Refused?
      ensures job.verb.NeedsIdle() && r.Refused? ==> controller.operation.Idle?
      ensures job.verb.Switch? && r.Done? ==> controller.activeMap == Some(job.target)
    {
      HolderIsAlone(me);
      Environment(me);
      HolderIsAlone(me);
      BeginBody(me);
      ghost var before := View();
      r := RunBody(job);
      Took(before, Work(me, controller.operation.Idle?));
      Environment(me);
      HolderIsAlone(me);
      EndBody(me, lease);
    }
  }
}
