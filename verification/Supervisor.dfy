/**
 Process supervision.  Every start of an instance is a new generation: a child process, an exit-code cell and a
 background reaper that polls them.  All of them work under one mutex, so a run is a sequence of whole method
 calls with process exits in between.
 */
module SupervisorModel {
  import opened Common

  /** An entry of the supervisor's map; the generation names its child and its exit-code cell. */
  datatype Instance = Instance(port: nat, generation: nat)

  /** A spawned process: alive, or dead with the code its parent would read. */
  datatype Process = Process(owner: string, alive: bool, code: int)

  /** The code read for a process that was killed by a signal. */
  const KILLED := -1

  datatype State = State(
    instances: map<string, Instance>,
    processes: seq<Process>,              // by generation
    exitCodes: seq<Option<int>>,          // by generation
    reapers: set<(string, nat)>)          // background tasks still polling: id and generation

  datatype Action =
    | Start(id: string, port: nat, spawns: bool)   // `spawns` is false when preparing or spawning fails
    | Stop(id: string)
    | Reap(id: string, generation: nat)
    | Exit(generation: nat, code: int)
    | Shutdown

  predicate SafeChar(c: char) {
    'a' <= c <= 'z' || 'A' <= c <= 'Z' || '0' <= c <= '9' || c == '-' || c == '_'
  }

  predicate SafeId(id: string) {
    id != [] && forall i :: 0 <= i < |id| ==> SafeChar(id[i])
  }

  function Kill(processes: seq<Process>, generation: nat): seq<Process> {
    if generation < |processes| && processes[generation].alive
    then processes[generation := processes[generation].(alive := false, code := KILLED)]
    else processes
  }

  /** Is the instance in the map with no exit code recorded? */
  predicate IsRunning(s: State, id: string) {
    && id in s.instances
    && (s.instances[id].generation < |s.exitCodes| ==> s.exitCodes[s.instances[id].generation].None?)
  }

  /** The entry goes away and its child is killed. */
  function Remove(s: State, id: string): State {
    if id in s.instances
    then s.(instances := s.instances - {id}, processes := Kill(s.processes, s.instances[id].generation))
    else s
  }

  function Spawn(s: State, id: string, port: nat): State {
    State(s.instances[id := Instance(port, |s.processes|)],
          s.processes + [Process(id, true, 0)],
          s.exitCodes + [None],
          s.reapers + {(id, |s.processes|)})
  }

  function Step(s: State, a: Action): State {
    match a
    case Start(id, port, spawns) =>
      if !SafeId(id) || IsRunning(s, id) then s
      else if spawns then Spawn(Remove(s, id), id, port)
      else Remove(s, id)
    case Stop(id) => if SafeId(id) then Remove(s, id) else s
    case Reap(id, generation) =>
      if (id, generation) !in s.reapers then s
      else if id !in s.instances || s.instances[id].generation != generation
      then s.(reapers := s.reapers - {(id, generation)})
      else if generation < |s.processes| && generation < |s.exitCodes| && !s.processes[generation].alive
      then s.(exitCodes := s.exitCodes[generation := Some(s.processes[generation].code)],
              reapers := s.reapers - {(id, generation)})
      else s
    case Exit(generation, code) =>
      if generation < |s.processes| && s.processes[generation].alive
      then s.(processes := s.processes[generation := s.processes[generation].(alive := false, code := code)])
      else s
    case Shutdown => s.(processes := KillAll(s, s.processes))
  }

  /** Every process that an entry of the map refers to is killed. */
  function KillAll(s: State, processes: seq<Process>): seq<Process> {
    seq(|processes|, g requires 0 <= g < |processes| =>
      if processes[g].alive && Refers(s, g) then processes[g].(alive := false, code := KILLED) else processes[g])
  }

  predicate Refers(s: State, generation: nat) {
    exists id :: id in s.instances && s.instances[id].generation == generation
  }

  function Run(s: State, actions: seq<Action>): State
    decreases |actions|
  {
    if actions == [] then s else Run(Step(s, actions[0]), actions[1..])
  }

  const Empty: State := State(map[], [], [], {})

  // ----- the invariant -----

  predicate LiveChild(s: State, g: int) {
    0 <= g < |s.processes| && s.processes[g].alive
  }

  ghost predicate Inv(s: State) {
    && |s.exitCodes| == |s.processes|
    && (forall id :: id in s.instances ==>
          && s.instances[id].generation < |s.processes|
          && s.processes[s.instances[id].generation].owner == id)
    && (forall g :: LiveChild(s, g) ==>
          s.processes[g].owner in s.instances && s.instances[s.processes[g].owner].generation == g)
    && (forall g :: 0 <= g < |s.exitCodes| && s.exitCodes[g].Some? ==>
          !s.processes[g].alive && s.exitCodes[g].value == s.processes[g].code)
    && (forall id, g :: (id, g) in s.reapers ==> g < |s.processes| && s.processes[g].owner == id)
    && (forall id :: id in s.instances && s.exitCodes[s.instances[id].generation].None? ==>
          (id, s.instances[id].generation) in s.reapers)
  }

  lemma RemoveKeeps(s: State, id: string)
    requires Inv(s)
    ensures Inv(Remove(s, id))
    ensures forall g :: LiveChild(Remove(s, id), g) ==> s.processes[g].owner != id
  {
  }

  lemma SpawnKeeps(s: State, id: string, port: nat)
    requires Inv(s) && id !in s.instances
    ensures Inv(Spawn(s, id, port))
  {
  }

  lemma ReapKeeps(s: State, id: string, generation: nat)
    requires Inv(s)
    ensures Inv(Step(s, Reap(id, generation)))
  {
  }

  lemma ExitKeeps(s: State, a: Action)
    requires Inv(s) && (a.Exit? || a.Shutdown?)
    ensures Inv(Step(s, a))
  {
  }

  lemma StepKeeps(s: State, a: Action)
    requires Inv(s)
    ensures Inv(Step(s, a))
  {
    match a
    case Start(id, port, spawns) =>
      RemoveKeeps(s, id);
      SpawnKeeps(Remove(s, id), id, port);
    case Stop(id) => RemoveKeeps(s, id);
    case Reap(id, generation) => ReapKeeps(s, id, generation);
    case _ => ExitKeeps(s, a);
  }

  lemma {:induction false} Always(s: State, actions: seq<Action>)
    requires Inv(s)
    ensures Inv(Run(s, actions))
    decreases |actions|
  {
    if actions != [] {
      StepKeeps(s, actions[0]);
      Always(Step(s, actions[0]), actions[1..]);
    }
  }

  // ----- what every run guarantees -----

  /** Each id has at most one live child, and it is the one in the map. */
  lemma OneLiveChild(actions: seq<Action>, g: nat, h: nat)
    requires var t := Run(Empty, actions);
             LiveChild(t, g) && LiveChild(t, h) && t.processes[g].owner == t.processes[h].owner
    ensures g == h
    ensures var t := Run(Empty, actions);
            t.processes[g].owner in t.instances && t.instances[t.processes[g].owner].generation == g
  {
    Always(Empty, actions);
  }

  /** A start spawns exactly when the id is safe and not running; then it is the only live child of its id. */
  lemma StartSpawnsOnce(actions: seq<Action>, id: string, port: nat)
    ensures var t := Run(Empty, actions);
            var u := Step(t, Start(id, port, true));
            && (IsRunning(t, id) || !SafeId(id) ==> u == t)
            && (!IsRunning(t, id) && SafeId(id) ==>
                  && |u.processes| == |t.processes| + 1
                  && u.instances[id] == Instance(port, |t.processes|)
                  && forall g :: LiveChild(u, g) && u.processes[g].owner == id ==> g == |t.processes|)
    ensures var t := Run(Empty, actions);
            var u := Step(t, Start(id, port, true));
            forall again, ok :: Step(u, Start(id, again, ok)) == u
  {
    Always(Empty, actions);
    var t := Run(Empty, actions);
    StepKeeps(t, Start(id, port, true));
  }

  /** After a stop, or a start that could not spawn, the id has no live child. */
  lemma StopLeavesNoChild(actions: seq<Action>, id: string, a: Action)
    requires SafeId(id)
    requires a == Stop(id) || (a.Start? && a.id == id && !a.spawns && !IsRunning(Run(Empty, actions), id))
    ensures var u := Step(Run(Empty, actions), a);
            id !in u.instances && forall g :: LiveChild(u, g) ==> u.processes[g].owner != id
  {
    Always(Empty, actions);
    RemoveKeeps(Run(Empty, actions), id);
    StepKeeps(Run(Empty, actions), a);
  }

  /** A reaper of an earlier generation changes nobody's exit code; a current one changes only its own. */
  lemma StaleReaperIsHarmless(actions: seq<Action>, id: string, generation: nat)
    ensures var t := Run(Empty, actions);
            var u := Step(t, Reap(id, generation));
            && u.instances == t.instances && u.processes == t.processes && |u.exitCodes| == |t.exitCodes|
            && (forall h :: 0 <= h < |t.exitCodes| && h != generation ==> u.exitCodes[h] == t.exitCodes[h])
            && (id !in t.instances || t.instances[id].generation != generation ==>
                  u.exitCodes == t.exitCodes && (id, generation) !in u.reapers)
  {
    Always(Empty, actions);
  }

  /** What `list` reports is true: a recorded code is the child's own, and a child not yet reported is watched. */
  lemma ReportsAreTrue(actions: seq<Action>, id: string)
    requires id in Run(Empty, actions).instances
    ensures var t := Run(Empty, actions);
            var g := t.instances[id].generation;
            && g < |t.processes| && |t.exitCodes| == |t.processes|
            && (t.exitCodes[g].Some? ==> !t.processes[g].alive && t.exitCodes[g].value == t.processes[g].code)
            && (t.exitCodes[g].None? ==> (id, g) in t.reapers)
            && (t.exitCodes[g].None? && !t.processes[g].alive ==>
                  Step(t, Reap(id, g)).exitCodes[g] == Some(t.processes[g].code))
  {
    Always(Empty, actions);
  }
}

/** The supervisor object and its operations, each one a critical section. */
module Supervisor {
  import opened Common
  import opened SupervisorModel

  datatype InstanceInfo = InstanceInfo(port: nat, running: bool, exitCode: Option<int>)

  class Supervisor {
    var instances: map<string, Instance>
    var processes: seq<Process>            // the operating system's view
    var exitCodes: seq<Option<int>>
    var reapers: set<(string, nat)>

    function View(): State
      reads this
    {
      State(instances, processes, exitCodes, reapers)
    }

    ghost predicate Valid()
      reads this
    {
      Inv(View())
    }

    constructor ()
      ensures Valid() && View() == Empty
    {
      instances, processes, exitCodes, reapers := map[], [], [], {};
    }

    method RemoveEntry(id: string)
      requires Valid()
      modifies this
      ensures Valid() && View() == Remove(old(View()), id)
    {
      RemoveKeeps(View(), id);
      if id in instances {
        var g := instances[id].generation;
        instances := instances - {id};
        if processes[g].alive {
          processes := processes[g := processes[g].(alive := false, code := KILLED)];
        }
      }
    }

    /** Idempotent while the instance runs; otherwise replaces whatever is left of it. */
    method Start(id: string, port: nat) returns (info: Option<InstanceInfo>)
      requires Valid()
      modifies this
      ensures Valid() && exists spawns :: View() == Step(old(View()), SupervisorModel.Start(id, port, spawns))
      ensures info.Some? <==> SafeId(id) && IsRunning(View(), id)
      ensures info.Some? ==> info.value.running && info.value.port == instances[id].port
      ensures SafeId(id) && old(IsRunning(View(), id)) ==> info.Some? && View() == old(View())
    {
      ghost var before := View();
      if !SafeId(id) {
        assert View() == Step(before, SupervisorModel.Start(id, port, false));
        return None;
      }
      if id in instances && exitCodes[instances[id].generation].None? {
        assert View() == Step(before, SupervisorModel.Start(id, port, false));
        return Some(InstanceInfo(instances[id].port, true, None));
      }
      RemoveEntry(id);
      var spawned := *;
      if !spawned {
        assert View() == Step(before, SupervisorModel.Start(id, port, false));
        return None;
      }
      SpawnKeeps(View(), id, port);
      var g := |processes|;
      processes := processes + [Process(id, true, 0)];
      exitCodes := exitCodes + [None];
      instances := instances[id := Instance(port, g)];
      reapers := reapers + {(id, g)};
      assert View() == Step(before, SupervisorModel.Start(id, port, true));
      info := Some(InstanceInfo(port, true, None));
    }

    method Stop(id: string) returns (stopped: bool)
      requires Valid()
      modifies this
      ensures Valid() && View() == Step(old(View()), SupervisorModel.Stop(id))
      ensures stopped <==> SafeId(id) && id in old(instances)
    {
      if !SafeId(id) {
        return false;
      }
      stopped := id in instances;
      RemoveEntry(id);
    }

    /** One poll of one background reaper. */
    method ReaperPoll(id: string, generation: nat)
      requires Valid() && (id, generation) in reapers
      modifies this
      ensures Valid() && View() == Step(old(View()), Reap(id, generation))
    {
      ReapKeeps(View(), id, generation);
      if id !in instances || instances[id].generation != generation {
        reapers := reapers - {(id, generation)};
        return;
      }
      if !processes[generation].alive {
        exitCodes := exitCodes[generation := Some(processes[generation].code)];
        reapers := reapers - {(id, generation)};
      }
    }

    method List() returns (infos: map<string, InstanceInfo>)
      requires Valid()
      ensures infos.Keys == instances.Keys
      ensures forall id :: id in infos ==> (infos[id].running <==> IsRunning(View(), id))
      ensures forall id :: id in infos && infos[id].exitCode.Some? ==>
                var p := processes[instances[id].generation]; !p.alive && p.code == infos[id].exitCode.value
    {
      infos := map id | id in instances ::
        InstanceInfo(instances[id].port, exitCodes[instances[id].generation].None?,
                     exitCodes[instances[id].generation]);
    }
  }
}
