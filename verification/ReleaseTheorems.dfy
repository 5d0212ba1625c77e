/** The guarantees of an A/B release, over every run of the stage machine. */
module ReleaseTheorems {
  import opened Common
  import opened Release
  import opened ReleaseProofs

  // ----- no live stream is cut -----

  /** The container the body is about to force-recreate, if it is about to recreate one. */
  function AboutToRecreate(s: State): Option<Slot> {
    if s.op.Idle? then None
    else if s.line.PrepareStop? then Some(s.op.candidate)
    else if s.line.RetireStop? then Some(s.op.Old())
    else None
  }

  /**
   In every run a forced recreation hits the slot that new requests go to exactly when it is the first half of
   an `init`; every other forced recreation hits a slot that is empty as well.
   */
  lemma RecreationHitsIdleSlot(s: State, actions: seq<Action>, c: Core, slot: Slot)
    requires Begins(s, c)
    requires AboutToRecreate(Run(s, actions)) == Some(slot)
    ensures var t := Run(s, actions);
            && (t.Target() == slot <==> t.op.kind.Init? && t.line.PrepareStop?)
            && (t.Target() != slot ==> t.conns.Get(slot) == 0)
  {
    Always(s, actions, c);
  }

  lemma ExecCutsByRecreating(s: State)
    ensures Step(s, Exec).cut == match AboutToRecreate(s)
                                 case Some(slot) => s.cut.Set(slot, s.cut.Get(slot) + s.conns.Get(slot))
                                 case None => s.cut
  {
    if AboutToRecreate(s).Some? {
      StopLine(s, AboutToRecreate(s).value);
    }
  }

  lemma OthersCutNothing(s: State, a: Action)
    requires !a.Exec?
    ensures Step(s, a).cut == s.cut
  {
  }

  /** A step cuts connections if and only if it recreates a container that has some, and then exactly those. */
  lemma OnlyRecreationCuts(s: State, a: Action)
    ensures Step(s, a).cut != s.cut
            <==> a.Exec? && AboutToRecreate(s).Some? && s.conns.Get(AboutToRecreate(s).value) > 0
    ensures a.Exec? && AboutToRecreate(s).Some? ==>
              var slot := AboutToRecreate(s).value;
              Step(s, a).cut == s.cut.Set(slot, s.cut.Get(slot) + s.conns.Get(slot))
  {
    if a.Exec? {
      ExecCutsByRecreating(s);
    } else {
      OthersCutNothing(s, a);
    }
  }

  lemma RecordedStays(s: State, a: Action)
    requires s.file.Some?
    ensures Step(s, a).file.Some?
  {
  }

  lemma StepCutsNothing(s: State, a: Action, c: Core)
    requires Inv(s, c) && s.file.Some?
    ensures Step(s, a).cut == s.cut
  {
    OnlyRecreationCuts(s, a);
  }

  /** Once a slot is recorded as active, no run of releases, crashes and resumes cuts a single connection. */
  lemma {:induction false} NoLiveStreamIsCut(s: State, actions: seq<Action>, c: Core)
    requires Reached(s, c) && s.file.Some?
    ensures Run(s, actions).cut == s.cut
    decreases |actions|
  {
    if actions != [] {
      StepCutsNothing(s, actions[0], Replay(c, s.done));
      RecordedStays(s, actions[0]);
      StepKeeps(s, actions[0], c);
      NoLiveStreamIsCut(Step(s, actions[0]), actions[1..], c);
    }
  }

  /** The exception is real: before the first deploy HAProxy already sends clients to slot a. */
  lemma InitCanCutAStream(s: State, image: Image)
    requires Begins(s, Unrecorded)
    ensures var begun := Step(Step(s, Open), StartDeploy(image));
            Step(Step(Step(begun, Exec), Exec), Exec).cut.a > s.cut.a
  {
  }

  // ----- the three records of the active slot -----

  /** The four values (Redis, file, runtime) may take while traffic moves from one slot to the other. */
  ghost predicate OnTheWay(s: State, from: Slot, dest: Slot) {
    || Records(s, from, from, from)
    || Records(s, dest, from, from)
    || Records(s, dest, dest, from)
    || Records(s, dest, dest, dest)
  }

  /** The values on the way to the first recorded slot, until which Redis may hold anything. */
  ghost predicate OnTheFirstWay(s: State) {
    || (s.file.None? && s.runtime.None?)
    || (s.redis == s.file == Some(A) && s.runtime.None?)
    || Records(s, A, A, A)
  }

  /** In every state of every run the records agree between operations and are in order inside one. */
  lemma RecordsMoveInOrder(s: State, actions: seq<Action>, c: Core)
    requires Begins(s, c)
    ensures var t := Run(s, actions);
            && (t.op.Idle? ==> (t.file.None? && t.runtime.None?) || exists x :: Records(t, x, x, x))
            && (t.op.Pending? && !t.op.kind.Init? ==>
                  && t.op.active.Some? && t.op.candidate == Other(t.op.active.value)
                  && OnTheWay(t, t.op.active.value, t.op.candidate))
            && (t.op.Pending? && t.op.kind.Init? ==> t.op.candidate == A && OnTheFirstWay(t))
  {
    Always(s, actions, c);
    var t := Run(s, actions);
    var now := Replay(c, t.done);
    if t.op.Idle? && now.Serving? {
      assert Records(t, now.active, now.active, now.active);
    }
  }

  /** How many of the three records already name the candidate. */
  function Moved(s: State): nat
    requires s.op.Pending?
  {
    var dest := Some(s.op.candidate);
    (if s.redis == dest then 1 else 0) + (if s.file == dest then 1 else 0) + (if s.runtime == dest then 1 else 0)
  }

  /** The records a step from `t` to `u` may move. */
  ghost predicate MovesForward(t: State, u: State) {
    && (t.op.Idle? && u.op.Pending? ==> Moved(u) == 0 || (u.op.kind.Init? && u.file.None? && u.runtime.None?))
    && (t.op.Pending? && u.op.Idle? ==> Moved(t) == 3)
    && (t.op.Pending? && u.op.Pending? ==>
          u.op.candidate == t.op.candidate && Moved(t) <= Moved(u) <= Moved(t) + 1)
  }

  lemma WritingLinesMoveForward(s: State, c: Core)
    requires Inv(s, c) && (Handoff(s.line) || TrafficSwitch(s.line))
    ensures MovesForward(s, Step(s, Exec))
  {
  }

  lemma OtherLinesMoveForward(s: State, c: Core)
    requires Inv(s, c) && !Handoff(s.line) && !TrafficSwitch(s.line)
    ensures MovesForward(s, Step(s, Exec))
  {
  }

  lemma ExecMovesForward(s: State, c: Core)
    requires Inv(s, c)
    ensures MovesForward(s, Step(s, Exec))
  {
    if Handoff(s.line) || TrafficSwitch(s.line) {
      WritingLinesMoveForward(s, c);
    } else {
      OtherLinesMoveForward(s, c);
    }
  }

  lemma OthersMoveForward(s: State, a: Action, c: Core)
    requires Inv(s, c) && !a.Exec?
    ensures MovesForward(s, Step(s, a))
  {
  }

  /** No step takes a record back, no step moves two records, and only a complete move finishes. */
  lemma RecordsNeverGoBack(s: State, actions: seq<Action>, a: Action, c: Core)
    requires Begins(s, c)
    ensures MovesForward(Run(s, actions), Step(Run(s, actions), a))
  {
    Always(s, actions, c);
    var t := Run(s, actions);
    if a.Exec? {
      ExecMovesForward(t, Replay(c, t.done));
    } else {
      OthersMoveForward(t, a, Replay(c, t.done));
    }
  }

  /** HAProxy may restart at any point of any run: traffic stays where it is or moves on to the candidate. */
  lemma RestartNeverMovesTrafficBack(s: State, actions: seq<Action>, kept: PerSlot<nat>, c: Core)
    requires Begins(s, c)
    ensures var t := Run(s, actions);
            var u := Step(t, Restart(kept));
            u.runtime == t.runtime || (t.op.Pending? && u.runtime == Some(t.op.candidate))
  {
    Always(s, actions, c);
  }

  // ----- crash and resume -----

  /** Whenever a run is at rest, it serves exactly what its finished operations would leave without a crash. */
  lemma AtRestAfterFinishedOperations(s: State, actions: seq<Action>, c: Core)
    requires Begins(s, c)
    requires AtRest(Run(s, actions))
    ensures RestsIn(Run(s, actions), Replay(c, Run(s, actions).done))
  {
    Always(s, actions, c);
  }

  /** `begun` is still being worked on, or was the first operation to finish since `s`. */
  ghost predicate Tracks(s: State, begun: Operation, count: nat)
    requires begun.Pending?
  {
    if |s.done| == count
    then s.op.Pending? && RequestOf(s.op) == RequestOf(begun)
    else |s.done| > count && s.done[count] == RequestOf(begun)
  }

  lemma {:induction false} TracksAlways(s: State, actions: seq<Action>, begun: Operation, earlier: seq<Request>)
    requires begun.Pending? && earlier <= s.done && Tracks(s, begun, |earlier|)
    ensures earlier <= Run(s, actions).done && Tracks(Run(s, actions), begun, |earlier|)
    decreases |actions|
  {
    if actions != [] {
      var t := Step(s, actions[0]);
      assert s.done <= t.done;
      TracksAlways(t, actions[1..], begun, earlier);
    }
  }

  /** Everything a slot operation is responsible for. */
  ghost predicate SameOutcome(t: State, u: State) {
    && t.op == u.op
    && t.redis == u.redis
    && t.file == u.file
    && t.runtime == u.runtime
    && t.images == u.images
    && t.running == u.running
  }

  lemma SameConfigurationSameOutcome(t: State, u: State, c: Core)
    requires c.Serving? && AtRest(t) && AtRest(u) && RestsIn(t, c) && RestsIn(u, c)
    ensures SameOutcome(t, u)
  {
  }

  /** An accepted operation always leads to a recorded active slot. */
  lemma AcceptedOperationServes(s: State, start: Action, c: Core)
    requires Inv(s, c) && AtRest(s) && Step(s, start).op.Pending?
    ensures Apply(c, RequestOf(Step(s, start).op)).Serving?
  {
  }

  /** However often it is interrupted, an operation that finishes has the effect of its request. */
  lemma FinishedOperationHasItsEffect(s: State, start: Action, actions: seq<Action>, c: Core)
    requires Reached(s, c) && AtRest(s) && Step(s, start).op.Pending?
    requires var t := Run(Step(s, start), actions); AtRest(t) && |t.done| == |s.done| + 1
    ensures var effect := Apply(Replay(c, s.done), RequestOf(Step(s, start).op));
            effect.Serving? && RestsIn(Run(Step(s, start), actions), effect)
  {
    var begun := Step(s, start);
    StepKeeps(s, start, c);
    Always(begun, actions, c);
    TracksAlways(begun, actions, begun.op, s.done);
    assert Run(begun, actions).done == s.done + [RequestOf(begun.op)];
    ReplaySnoc(c, s.done, RequestOf(begun.op));
    AcceptedOperationServes(s, start, Replay(c, s.done));
  }

  /**
   Start an operation in any reachable resting state and let two runs finish it: whatever crashes, resumes,
   runner rolls and HAProxy restarts each of them contains, they leave the same outcome.
   */
  lemma CrashResumeEquivalence(s: State, start: Action, first: seq<Action>, second: seq<Action>, c: Core)
    requires Reached(s, c) && AtRest(s)
    requires Step(s, start).op.Pending?
    requires var t, u := Run(Step(s, start), first), Run(Step(s, start), second);
             AtRest(t) && AtRest(u) && |t.done| == |u.done| == |s.done| + 1
    ensures SameOutcome(Run(Step(s, start), first), Run(Step(s, start), second))
  {
    FinishedOperationHasItsEffect(s, start, first, c);
    FinishedOperationHasItsEffect(s, start, second, c);
    SameConfigurationSameOutcome(Run(Step(s, start), first), Run(Step(s, start), second),
                                 Apply(Replay(c, s.done), RequestOf(Step(s, start).op)));
  }

  /** Nothing in the environment holds the operation up any more. */
  ghost predicate Quiet(s: State)
    requires s.op.Pending?
  {
    s.ready == PerSlot(true, true) && s.leader.None? && s.conns.Get(s.op.Old()) == 0
  }

  /** Lines left until the operation finishes. */
  function LinesLeft(s: State): nat {
    match s.line
    case PrepareJournal => 20 case PrepareImages => 19 case PrepareStop => 18 case PrepareStart => 17
    case PrepareReady => 16 case QuiesceJournal => 15 case QuiesceRedis => 14 case QuiesceWait => 13
    case CutoverJournal => 12 case RedoJournal => 13 case RedoRedis => 12 case CutoverFile => 11
    case CutoverMap => 10 case CutoverWait => 9 case DrainWait => 8 case RetireJournal => 7
    case RetireImages => 6 case RetireStop => 5 case RetireStart => 4 case RetireReady => 3 case Finish => 2
    case _ => 0
  }

  lemma EarlyLineProgresses(s: State)
    requires s.op.Pending? && Quiet(s) && (Preparation(s.line) || Handoff(s.line))
    requires s.line.QuiesceWait? ==> s.op.active.Some?
    ensures var t := Step(s, Exec);
            t.op.Pending? && 0 < LinesLeft(t) < LinesLeft(s) && Quiet(t) && t.done == s.done
  {
  }

  lemma TrafficLineProgresses(s: State)
    requires s.op.Pending? && Quiet(s) && TrafficSwitch(s.line)
    requires s.line.CutoverWait? ==> s.runtime == Some(s.op.candidate)
    ensures var t := Step(s, Exec);
            t.op.Pending? && 0 < LinesLeft(t) < LinesLeft(s) && Quiet(t) && t.done == s.done
  {
  }

  lemma RetireLineProgresses(s: State)
    requires s.op.Pending? && LinesLeft(s) > 0 && Quiet(s) && !s.line.Finish?
    requires !Preparation(s.line) && !Handoff(s.line) && !TrafficSwitch(s.line)
    ensures var t := Step(s, Exec);
            t.op.Pending? && 0 < LinesLeft(t) < LinesLeft(s) && Quiet(t) && t.done == s.done
  {
  }

  /** From any line of any reachable operation, a quiet environment and no further crash finish it. */
  lemma {:induction false} StraightRunFinishes(s: State, c: Core) returns (lines: seq<Action>)
    requires Reached(s, c) && s.op.Pending? && LinesLeft(s) > 0 && Quiet(s)
    ensures forall a :: a in lines ==> a == Exec
    ensures AtRest(Run(s, lines)) && |Run(s, lines).done| == |s.done| + 1
    decreases LinesLeft(s)
  {
    var t := Step(s, Exec);
    StepKeeps(s, Exec, c);
    if s.line.Finish? {
      lines := [Exec];
      assert lines[1..] == [];
    } else {
      if Preparation(s.line) || Handoff(s.line) {
        EarlyLineProgresses(s);
      } else if TrafficSwitch(s.line) {
        TrafficLineProgresses(s);
      } else {
        RetireLineProgresses(s);
      }
      var rest := StraightRunFinishes(t, c);
      lines := [Exec] + rest;
      assert lines[1..] == rest;
    }
  }

  /** After a crash in a quiet world, `resume` can still bring the operation to its end. */
  lemma QuietResumeFinishes(s: State, actions: seq<Action>, c: Core) returns (lines: seq<Action>)
    requires Begins(s, c)
    requires Run(s, actions).line.Down? && Run(s, actions).op.Pending? && Quiet(Run(s, actions))
    ensures var t := Run(s, actions);
            var u := Run(Step(t, Resume), lines);
            (forall a :: a in lines ==> a == Exec) && AtRest(u) && u.done == t.done + [RequestOf(t.op)]
  {
    Always(s, actions, c);
    var t := Run(s, actions);
    StepKeeps(t, Resume, c);
    lines := StraightRunFinishes(Step(t, Resume), c);
    TracksAlways(Step(t, Resume), lines, t.op, t.done);
  }

  /** All streams of a slot come to their end. */
  function Drain(slot: Slot, streams: nat): seq<Action> {
    if streams == 0 then [] else [Close(slot)] + Drain(slot, streams - 1)
  }

  lemma {:induction false} Drains(s: State, slot: Slot)
    ensures Run(s, Drain(slot, s.conns.Get(slot))) == s.(conns := s.conns.Set(slot, 0))
    ensures forall a :: a in Drain(slot, s.conns.Get(slot)) ==> a == Close(slot)
    decreases s.conns.Get(slot)
  {
    var n := s.conns.Get(slot);
    if n > 0 {
      assert Drain(slot, n)[1..] == Drain(slot, n - 1);
      Drains(Step(s, Close(slot)), slot);
    }
  }

  /** The old slot's streams end, the leader lock is let go, and both slots answer their health checks. */
  function Settle(s: State): seq<Action>
    requires s.op.Pending?
  {
    Drain(s.op.Old(), s.conns.Get(s.op.Old())) + [Lead(None)] + [Probe(PerSlot(true, true))]
  }

  lemma Settles(s: State)
    requires s.op.Pending?
    ensures var slot := s.op.Old();
            Run(s, Settle(s)) == s.(conns := s.conns.Set(slot, 0), leader := None, ready := PerSlot(true, true))
    ensures forall a :: a in Settle(s) ==> a.Close? || a.Lead? || a.Probe?
  {
    var slot := s.op.Old();
    var drain := Drain(slot, s.conns.Get(slot));
    Drains(s, slot);
    RunSnoc(s, drain, Lead(None));
    RunSnoc(s, drain + [Lead(None)], Probe(PerSlot(true, true)));
  }

  /**
   Wherever a run crashed, and whatever the world looks like there, `resume` can still bring the journaled operation
   to its end: the streams that are open may end, and nothing but that, the leader, the health checks, the one
   `resume` and its lines is needed.
   */
  lemma ResumeCanFinish(s: State, actions: seq<Action>, c: Core) returns (rest: seq<Action>)
    requires Begins(s, c)
    requires Run(s, actions).line.Down? && Run(s, actions).op.Pending?
    ensures forall a :: a in rest ==> a.Close? || a.Lead? || a.Probe? || a.Resume? || a.Exec?
    ensures var t := Run(s, actions);
            var u := Run(t, rest);
            AtRest(u) && u.done == t.done + [RequestOf(t.op)]
  {
    var t := Run(s, actions);
    Settles(t);
    RunAppend(s, actions, Settle(t));
    var lines := QuietResumeFinishes(s, actions + Settle(t), c);
    rest := Settle(t) + ([Resume] + lines);
    RunAppend(t, Settle(t), [Resume] + lines);
    assert ([Resume] + lines)[1..] == lines;
  }

  // ----- the rollback point -----

  /** A finished deploy, by its first and last state. */
  lemma DeployEffect(s: State, t: State, c: Core, image: Image)
    requires Reached(s, c) && AtRest(s)
    requires Reached(t, c) && AtRest(t) && t.done == s.done + [Deployed(image)]
    ensures t.file.Some? && Records(t, t.file.value, t.file.value, t.file.value)
    ensures s.file.Some? ==>
              var active := s.file.value;
              && t.file == Some(Other(active))
              && t.running.Get(Other(active)) == t.images.Get(Other(active)) == Some(image)
              && t.running.Get(active) == t.images.Get(active) == s.running.Get(active)
    ensures s.file.None? ==>
              t.file == Some(A) && t.running == t.images == PerSlot(Some(image), Some(image))
  {
    ReplaySnoc(c, s.done, Deployed(image));
  }

  /** A finished switch, by its first and last state. */
  lemma SwitchEffect(s: State, t: State, c: Core)
    requires Reached(s, c) && AtRest(s) && s.file.Some?
    requires Reached(t, c) && AtRest(t) && t.done == s.done + [Switched]
    ensures var dest := Other(s.file.value); Records(t, dest, dest, dest)
    ensures t.images == s.images && t.running == s.running
  {
    ReplaySnoc(c, s.done, Switched);
  }

  /** A finished resume, by the journal it started from and its last state. */
  lemma ResumeEffect(s: State, t: State, c: Core)
    requires Reached(s, c) && s.op.Pending?
    requires Reached(t, c) && AtRest(t) && t.done == s.done + [RequestOf(s.op)]
    ensures Records(t, s.op.candidate, s.op.candidate, s.op.candidate)
    ensures t.running.Get(s.op.candidate) == t.images.Get(s.op.candidate) == s.op.image
    ensures t.running.Get(s.op.Old()) == t.images.Get(s.op.Old()) == s.op.StandbyImage()
  {
    ReplaySnoc(c, s.done, RequestOf(s.op));
  }

  /** A deploy serves the new image and leaves the image that served before it on the standby. */
  lemma DeployKeepsRollbackPoint(s: State, actions: seq<Action>, c: Core, image: Image)
    requires Reached(s, c) && AtRest(s) && s.file.Some?
    requires AtRest(Run(s, actions)) && Run(s, actions).done == s.done + [Deployed(image)]
    ensures var t := Run(s, actions);
            var active := s.file.value;
            && t.file == t.runtime == Some(Other(active))
            && t.running.Get(Other(active)) == t.images.Get(Other(active)) == Some(image)
            && t.running.Get(active) == t.images.Get(active) == s.running.Get(active)
  {
    Always(s, actions, c);
    DeployEffect(s, Run(s, actions), c, image);
  }

  /** A switch or rollback moves traffic and nothing else. */
  lemma SwitchMovesOnlyTraffic(s: State, actions: seq<Action>, c: Core)
    requires Reached(s, c) && AtRest(s) && s.file.Some?
    requires AtRest(Run(s, actions)) && Run(s, actions).done == s.done + [Switched]
    ensures var t := Run(s, actions);
            && t.file == t.runtime == Some(Other(s.file.value))
            && t.images == s.images && t.running == s.running
  {
    Always(s, actions, c);
    SwitchEffect(s, Run(s, actions), c);
  }

  /** Two rollbacks in a row restore the active slot and the images. */
  lemma TwoRollbacksRestore(s: State, actions: seq<Action>, c: Core)
    requires Reached(s, c) && AtRest(s) && s.file.Some?
    requires AtRest(Run(s, actions)) && Run(s, actions).done == s.done + [Switched] + [Switched]
    ensures var t := Run(s, actions);
            t.file == s.file && t.runtime == s.runtime && t.images == s.images && t.running == s.running
  {
    Always(s, actions, c);
    ReplaySnoc(c, s.done, Switched);
    ReplaySnoc(c, s.done + [Switched], Switched);
  }
}
