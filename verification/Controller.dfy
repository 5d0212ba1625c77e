/**
 The release controller.  Its methods update the state files, Redis, HAProxy and the containers one write at a
 time.  Before every write the environment may move and the controller may be stopped, and every method is
 proved to perform only steps of the stage machine: `View()` is always a state of a run of `Release`.
 */
module Deployment {
  import opened Common
  import opened Release
  import opened ReleaseProofs
  import opened ReleaseTheorems

  datatype Outcome = Done | Refused | Interrupted

  /** What a polling loop waits for. */
  datatype Condition =
    | LeaderReleased(holder: Option<Slot>)
    | MapPointsTo(dest: Slot)
    | Drained(slot: Slot)
    | Ready(slot: Slot)

  predicate SameJob(o: Operation, p: Operation) {
    o.Pending? && p.Pending? && o == p.(stage := o.stage)
  }

  class Controller {
    // the files under deploy/state
    var operation: Operation
    var activeMap: Option<Slot>
    var images: PerSlot<Option<Image>>
    var runnerImage: Option<Image>
    // the world the controller acts on
    var redisActive: Option<Slot>
    var runtimeMap: Option<Slot>
    var running: PerSlot<Option<Image>>
    var runnerRunning: Option<Image>
    var conns: PerSlot<nat>
    var ready: PerSlot<bool>
    var leader: Option<Slot>
    // what the proof remembers
    ghost var line: Line
    ghost var cut: PerSlot<nat>
    ghost var done: seq<Request>
    ghost const origin: State
    ghost const configuration: Core
    ghost var log: seq<Action>

    ghost function View(): State
      reads this
    {
      State(operation, line, redisActive, activeMap, runtimeMap, images, running, runnerImage, runnerRunning,
            conns, ready, leader, cut, done)
    }

    /** Everything that ever happened is a run of the stage machine. */
    ghost predicate Valid()
      reads this
    {
      Begins(origin, configuration) && View() == Run(origin, log)
    }

    /** Takes over a deployment that is at rest: either nothing is recorded yet, or all records agree. */
    constructor (file: Option<Slot>, redis: Option<Slot>, runtime: Option<Slot>, images: PerSlot<Option<Image>>,
                 running: PerSlot<Option<Image>>, conns: PerSlot<nat>, ghost c: Core)
      requires var s := State(Idle, Down, redis, file, runtime, images, running, None, None, conns,
                              PerSlot(false, false), None, PerSlot(0, 0), []);
               RestsIn(s, c)
      ensures Valid() && configuration == c && AtRest(View()) && done == []
      ensures activeMap == file && this.images == images && this.running == running
    {
      operation, activeMap, redisActive, runtimeMap := Idle, file, redis, runtime;
      this.images, this.running, this.conns := images, running, conns;
      runnerImage, runnerRunning, leader, ready := None, None, None, PerSlot(false, false);
      line, cut, done, log := Down, PerSlot(0, 0), [], [];
      configuration := c;
      origin := State(Idle, Down, redis, file, runtime, images, running, None, None, conns,
                      PerSlot(false, false), None, PerSlot(0, 0), []);
    }

    /** Appends one step of the stage machine to the run. */
    ghost method Took(before: State, a: Action)
      requires Begins(origin, configuration) && before == Run(origin, log) && View() == Step(before, a)
      modifies `log
      ensures Valid() && log == old(log) + [a]
    {
      RunSnoc(origin, log, a);
      log := log + [a];
    }

    /** What the environment leaves alone. */
    twostate predicate OnlyWorldMoved()
      reads this
    {
      && operation == old(operation) && activeMap == old(activeMap) && images == old(images)
      && runnerImage == old(runnerImage) && redisActive == old(redisActive) && running == old(running)
      && runnerRunning == old(runnerRunning) && line == old(line) && cut == old(cut) && done == old(done)
      && old(log) <= log
    }

    /** A client connects to the slot HAProxy points at, or a stream ends somewhere. */
    method ClientMoves()
      requires Valid()
      modifies this
      ensures Valid() && OnlyWorldMoved()
    {
      ghost var before := View();
      var slot: Slot := *;
      if * {
        var target := runtimeMap.GetOr(A);
        conns := conns.Set(target, conns.Get(target) + 1);
        Took(before, Open);
      } else if conns.Get(slot) > 0 {
        conns := conns.Set(slot, conns.Get(slot) - 1);
        Took(before, Close(slot));
      }
    }

    /** HAProxy restarts from the file, and keeps no stream it did not have. */
    method HaproxyRestarts()
      requires Valid()
      modifies this
      ensures Valid() && OnlyWorldMoved()
    {
      ghost var before := View();
      var kept: PerSlot<nat> := *;
      if kept.a <= conns.a && kept.b <= conns.b {
        runtimeMap, conns := activeMap, kept;
        Took(before, Restart(kept));
      }
    }

    /** The leader lock changes hands, or the health checks see something new. */
    method BackgroundMoves()
      requires Valid()
      modifies this
      ensures Valid() && OnlyWorldMoved()
    {
      ghost var before := View();
      var holder: Option<Slot>, health: PerSlot<bool> := *, *;
      if * {
        leader := holder;
        Took(before, Lead(holder));
      } else {
        ready := health;
        Took(before, Probe(health));
      }
    }

    /** Any number of moves of the environment. */
    method Environment()
      requires Valid()
      modifies this
      ensures Valid() && OnlyWorldMoved()
    {
      var moves: nat := *;
      while moves > 0
        invariant Valid() && OnlyWorldMoved()
      {
        if * {
          ClientMoves();
        } else if * {
          HaproxyRestarts();
        } else {
          BackgroundMoves();
        }
        moves := moves - 1;
      }
    }

    /** The body dies here: an exception, a timeout or a kill. */
    ghost method Die()
      requires Valid()
      modifies `line, `log
      ensures Valid() && line.Down? && old(log) <= log
    {
      ghost var before := View();
      line := Down;
      Took(before, Fail);
    }

    /** The environment moves, then the body may die; otherwise it is about to perform its next write. */
    method Proceed() returns (alive: bool)
      requires Valid()
      modifies this
      ensures Valid() && old(log) <= log
      ensures alive ==> OnlyWorldMoved()
      ensures !alive ==> line.Down? && operation == old(operation) && done == old(done)
    {
      Environment();
      alive := *;
      if !alive {
        Die();
      }
    }

    /** The write that was just performed was the body's next line. */
    ghost method Advance(before: State)
      requires Begins(origin, configuration) && before == Run(origin, log) && line == before.line
      requires View() == Step(before, Exec).(line := line)
      modifies `line, `log
      ensures Valid() && line == Step(before, Exec).line && log == old(log) + [Exec]
    {
      line := Step(before, Exec).line;
      Took(before, Exec);
    }

    /** How a method that performs one write of a slot operation moves the body on. */
    twostate predicate Moved(alive: bool, next: Line)
      reads this
    {
      && SameJob(operation, old(operation)) && done == old(done) && old(log) <= log
      && line == if alive then next else Down
    }

    predicate JournalLine(line: Line, stage: Stage) {
      match stage
      case Preparing => line.PrepareJournal?
      case Quiescing => line.QuiesceJournal?
      case Cutover => line.CutoverJournal? || line.RedoJournal?
      case Retiring => line.RetireJournal?
    }

    function AfterJournal(line: Line): Line {
      match line
      case PrepareJournal => PrepareImages
      case QuiesceJournal => QuiesceRedis
      case RedoJournal => RedoRedis
      case CutoverJournal => CutoverFile
      case _ => RetireImages
    }

    method Journal(stage: Stage) returns (alive: bool)
      requires Valid() && operation.Pending? && JournalLine(line, stage)
      modifies this
      ensures Valid()
      ensures Moved(alive, AfterJournal(old(line)))
    {
      alive := Proceed();
      if alive {
        WriteStage(stage);
      }
    }

    /** The journal's stage is replaced; its other fields stay. */
    method WriteStage(stage: Stage)
      requires Valid() && operation.Pending? && JournalLine(line, stage)
      modifies `operation, `line, `log
      ensures Valid() && operation == old(operation).(stage := stage) && old(log) <= log
      ensures line == AfterJournal(old(line))
    {
      ghost var before := View();
      operation := operation.(stage := stage);
      Advance(before);
    }

    method SetActiveRedis(slot: Slot) returns (alive: bool)
      requires Valid() && operation.Pending? && (line.QuiesceRedis? || line.RedoRedis?) && slot == operation.candidate
      modifies this
      ensures Valid() && Moved(alive, if old(line).RedoRedis? then CutoverFile else QuiesceWait)
    {
      alive := Proceed();
      if alive {
        ghost var before := View();
        redisActive := Some(slot);
        Advance(before);
      }
    }

    method PersistActive(slot: Slot) returns (alive: bool)
      requires Valid() && operation.Pending? && line.CutoverFile? && slot == operation.candidate
      modifies this
      ensures Valid() && Moved(alive, CutoverMap)
    {
      alive := Proceed();
      if alive {
        ghost var before := View();
        activeMap := Some(slot);
        Advance(before);
      }
    }

    method HapSetMap(slot: Slot) returns (alive: bool)
      requires Valid() && operation.Pending? && line.CutoverMap? && slot == operation.candidate
      modifies this
      ensures Valid() && Moved(alive, CutoverWait)
    {
      alive := Proceed();
      if alive {
        ghost var before := View();
        runtimeMap := Some(slot);
        Advance(before);
      }
    }

    method WriteImages(images': PerSlot<Option<Image>>) returns (alive: bool)
      requires Valid() && operation.Pending? && (line.PrepareImages? || line.RetireImages?)
      requires images' == ExecSlotLine(View()).images
      modifies this
      ensures Valid() && Moved(alive, if old(line).PrepareImages? then PrepareStop else RetireStop)
    {
      alive := Proceed();
      if alive {
        ghost var before := View();
        images := images';
        Advance(before);
      }
    }

    /** The first half of `docker compose up --force-recreate`: the old container goes away. */
    method StopContainer(slot: Slot) returns (alive: bool)
      requires Valid() && operation.Pending?
      requires (line.PrepareStop? && slot == operation.candidate) || (line.RetireStop? && slot == operation.Old())
      modifies this
      ensures Valid() && Moved(alive, if old(line).PrepareStop? then PrepareStart else RetireStart)
    {
      alive := Proceed();
      if alive {
        Kill(slot);
      }
    }

    /** Whatever the container was serving ends with it. */
    method Kill(slot: Slot)
      requires Valid() && operation.Pending?
      requires (line.PrepareStop? && slot == operation.candidate) || (line.RetireStop? && slot == operation.Old())
      modifies `running, `conns, `cut, `line, `log
      ensures Valid() && line == (if old(line).PrepareStop? then PrepareStart else RetireStart)
      ensures running == old(running).Set(slot, None) && old(log) <= log
      ensures cut == old(cut).Set(slot, old(cut).Get(slot) + old(conns).Get(slot))
    {
      ghost var before := View();
      cut := cut.Set(slot, cut.Get(slot) + conns.Get(slot));
      running, conns := running.Set(slot, None), conns.Set(slot, 0);
      line := if line.PrepareStop? then PrepareStart else RetireStart;
      assert View() == Step(before, Exec) by {
        StopLine(before, slot);
      }
      Took(before, Exec);
    }

    /** The second half: a container with the image `images.json` names. */
    method StartContainer(slot: Slot) returns (alive: bool)
      requires Valid() && operation.Pending?
      requires (line.PrepareStart? && slot == operation.candidate) || (line.RetireStart? && slot == operation.Old())
      modifies this
      ensures Valid() && Moved(alive, if old(line).PrepareStart? then PrepareReady else RetireReady)
    {
      alive := Proceed();
      if alive {
        ghost var before := View();
        running := running.Set(slot, images.Get(slot));
        Advance(before);
      }
    }

    method Recreate(slot: Slot) returns (alive: bool)
      requires Valid() && operation.Pending?
      requires (line.PrepareStop? && slot == operation.candidate) || (line.RetireStop? && slot == operation.Old())
      modifies this
      ensures Valid() && Moved(alive, if old(line).PrepareStop? then PrepareReady else RetireReady)
    {
      alive := StopContainer(slot);
      if alive {
        alive := StartContainer(slot);
      }
    }

    predicate Met(cond: Condition)
      reads this
    {
      match cond
      case LeaderReleased(holder) => leader != holder
      case MapPointsTo(dest) => runtimeMap == Some(dest)
      case Drained(slot) => conns.Get(slot) == 0
      case Ready(slot) => ready.Get(slot)
    }

    ghost predicate WaitsFor(cond: Condition)
      reads this
    {
      operation.Pending? &&
      match cond
      case LeaderReleased(holder) => line.QuiesceWait? && holder == operation.active
      case MapPointsTo(dest) => line.CutoverWait? && dest == operation.candidate
      case Drained(slot) => line.DrainWait? && slot == operation.Old()
      case Ready(slot) =>
        || (line.PrepareReady? && slot == operation.candidate)
        || (line.RetireReady? && slot == operation.Old())
    }

    function NextAfterWait(line: Line, op: Operation): Line {
      match line
      case QuiesceWait => CutoverJournal
      case CutoverWait => if op.Pending? && op.kind.Init? then RetireJournal else DrainWait
      case DrainWait => RetireJournal
      case PrepareReady => if op.Pending? && op.kind.Init? then RedoJournal else QuiesceJournal
      case _ => Finish
    }

    ghost method PassWait(cond: Condition)
      requires Valid() && WaitsFor(cond) && Met(cond)
      modifies `line, `log
      ensures Valid() && line == NextAfterWait(old(line), operation) && old(log) <= log
    {
      Advance(View());
    }

    /** Polls until the condition holds; a timeout stops the operation where it stands. */
    method Wait(cond: Condition, timeout: nat) returns (alive: bool)
      requires Valid() && WaitsFor(cond)
      modifies this
      ensures Valid() && Moved(alive, NextAfterWait(old(line), old(operation)))
    {
      var left := timeout;
      while true
        invariant Valid() && OnlyWorldMoved()
        decreases left
      {
        alive := Proceed();
        if !alive { return; }
        if Met(cond) {
          PassWait(cond);
          return;
        }
        if left == 0 {
          Die();
          return false;
        }
        left := left - 1;
      }
    }

    /** Installs `image` in the candidate slot and waits until it is ready; it gets no traffic yet. */
    method Prepare(candidate: Slot, image: Option<Image>) returns (alive: bool)
      requires Valid() && operation.Pending? && line.PrepareJournal?
      requires candidate == operation.candidate && image == operation.image
      modifies this
      ensures Valid() && Moved(alive, NextAfterWait(PrepareReady, old(operation)))
    {
      alive := Journal(Preparing);
      if !alive { return; }
      alive := WriteImages(images.Set(candidate, image));
      if !alive { return; }
      alive := Recreate(candidate);
      if !alive { return; }
      var timeout: nat := *;
      alive := Wait(Ready(candidate), timeout);
    }

    /** Hands over the background jobs, then the traffic, then waits for the old slot's streams to end. */
    method Handoff(active: Option<Slot>, candidate: Slot) returns (alive: bool)
      requires Valid() && operation.Pending? && !operation.kind.Init? && line.QuiesceJournal?
      requires active == operation.active && candidate == operation.candidate
      modifies this
      ensures Valid() && Moved(alive, RetireJournal)
    {
      alive := Journal(Quiescing);
      if !alive { return; }
      alive := SetActiveRedis(candidate);
      if !alive { return; }
      var timeout: nat := *;
      alive := Wait(LeaderReleased(active), timeout);
      if !alive { return; }
      alive := Journal(Cutover);
      if !alive { return; }
      alive := MoveTraffic(candidate);
    }

    /** The file, the runtime map, and, unless nobody was serving before, the drain of the old slot. */
    method MoveTraffic(candidate: Slot) returns (alive: bool)
      requires Valid() && operation.Pending? && line.CutoverFile? && candidate == operation.candidate
      modifies this
      ensures Valid() && Moved(alive, RetireJournal)
    {
      alive := PersistActive(candidate);
      if !alive { return; }
      alive := HapSetMap(candidate);
      if !alive { return; }
      alive := AwaitTraffic(candidate);
    }

    /** Waits for the map to show the candidate, and, unless nobody was serving before, for the old slot to drain. */
    method AwaitTraffic(candidate: Slot) returns (alive: bool)
      requires Valid() && operation.Pending? && line.CutoverWait? && candidate == operation.candidate
      modifies this
      ensures Valid() && Moved(alive, RetireJournal)
    {
      var timeout: nat := *;
      alive := Wait(MapPointsTo(candidate), timeout);
      if !alive || operation.kind.Init? { return; }
      timeout := *;
      alive := Wait(Drained(Other(candidate)), timeout);
    }

    /** The cutover as `resume` redoes it and as `init` does it. */
    method RedoCutover(candidate: Slot) returns (alive: bool)
      requires Valid() && operation.Pending? && line.RedoJournal? && candidate == operation.candidate
      modifies this
      ensures Valid() && Moved(alive, RetireJournal)
    {
      alive := Journal(Cutover);
      if !alive { return; }
      alive := SetActiveRedis(candidate);
      if !alive { return; }
      alive := MoveTraffic(candidate);
    }

    /** Rebuilds the old slot from `image`: a clean standby that is the rollback point. */
    method Retire(slot: Slot, image: Option<Image>) returns (alive: bool)
      requires Valid() && operation.Pending? && line.RetireJournal?
      requires slot == operation.Old() && image == operation.StandbyImage()
      modifies this
      ensures Valid() && Moved(alive, Finish)
    {
      alive := Journal(Retiring);
      if !alive { return; }
      alive := WriteImages(if image.Some? then images.Set(slot, image) else images);
      if !alive { return; }
      alive := Recreate(slot);
      if !alive { return; }
      var timeout: nat := *;
      alive := Wait(Ready(slot), timeout);
    }

    /** Clears the journal. */
    method FinishOperation() returns (alive: bool)
      requires Valid() && operation.Pending? && line.Finish?
      modifies this
      ensures Valid() && old(log) <= log && line.Down?
      ensures if alive then operation.Idle? && done == old(done) + [RequestOf(old(operation))]
              else operation == old(operation) && done == old(done)
    {
      alive := Proceed();
      if alive {
        ghost var before := View();
        done := done + [RequestOf(operation)];
        operation := Idle;
        Advance(before);
      }
    }

    /** What a body that was entered with a journaled operation leaves. */
    twostate predicate Ran(r: Outcome)
      reads this
      requires old(operation).Pending?
    {
      && line.Down? && old(log) <= log && !r.Refused?
      && (r.Done? ==> operation.Idle? && done == old(done) + [RequestOf(old(operation))])
      && (r.Interrupted? ==> SameJob(operation, old(operation)) && done == old(done))
    }

    /** `_run_from`: performs everything that is left from the journaled stage on. */
    method RunFrom(from: Stage) returns (r: Outcome)
      requires Valid() && operation.Pending? && from == operation.stage && line == EntryLine(operation)
      modifies this
      ensures Valid() && Ran(r)
    {
      var job := operation;
      ghost var entry := View();
      EntryIsConsistent();
      var stage := from;
      var alive := true;
      if stage.Preparing? {
        alive := Prepare(job.candidate, job.image);
        if !alive { return Interrupted; }
        stage := if job.kind.Init? then Cutover else Quiescing;
      }
      if stage.Quiescing? && !job.kind.Init? {
        alive := Handoff(job.active, job.candidate);
        if !alive { return Interrupted; }
        stage := Retiring;
      } else if !stage.Retiring? {
        alive := RedoCutover(job.candidate);
        if !alive { return Interrupted; }
        stage := Retiring;
      }
      alive := Retire(job.Old(), if job.kind.Init? then job.image else job.retireImage);
      if !alive { return Interrupted; }
      alive := FinishOperation();
      r := if alive then Done else Interrupted;
    }

    lemma EntryIsConsistent()
      requires Valid()
      ensures Reached(View(), configuration)
    {
      Always(origin, log, configuration);
    }

    /** Nothing has been cut since a moment at which an active slot was recorded. */
    lemma NothingCutSince(earlier: seq<Action>)
      requires Valid() && earlier <= log && Run(origin, earlier).file.Some?
      ensures cut == Run(origin, earlier).cut
    {
      Always(origin, earlier, configuration);
      RunAppend(origin, earlier, log[|earlier|..]);
      assert log == earlier + log[|earlier|..];
      NoLiveStreamIsCut(Run(origin, earlier), log[|earlier|..], configuration);
    }

    /** Journals a deploy; nothing else has happened yet. */
    method BeginDeploy(image: Image)
      requires Valid() && AtRest(View())
      modifies `operation, `line, `log
      ensures Valid() && operation.Pending? && operation.stage.Preparing? && line == EntryLine(operation)
      ensures RequestOf(operation) == Deployed(image) && old(log) <= log
    {
      ghost var before := View();
      DeployBegins(before, image);
      operation := NewDeploy(image);
      line := PrepareJournal;
      Took(before, StartDeploy(image));
    }

    method NewDeploy(image: Image) returns (op: Operation)
      ensures op == DeployOperation(View(), image)
    {
      match activeMap {
        case None =>
          op := Pending(Preparing, Init, None, A, Some(image), Some(image));
        case Some(active) =>
          op := Pending(Preparing, Deploy, activeMap, Other(active), Some(image), SlotImage(images, running, active));
      }
    }

    /** Journals a switch. */
    method BeginSwitch(target: Slot, expected: Slot, kind: Kind)
      requires Valid() && AtRest(View()) && SwitchAllowed(View(), target, expected)
      requires kind.Switch? || kind.Rollback?
      modifies `operation, `line, `log
      ensures Valid() && operation.Pending? && operation.stage.Quiescing? && line == EntryLine(operation)
      ensures RequestOf(operation) == Switched && old(log) <= log
    {
      ghost var before := View();
      operation := Pending(Quiescing, kind, activeMap, target, SlotImage(images, running, target),
                           SlotImage(images, running, Other(target)));
      line := QuiesceJournal;
      Took(before, StartSwitch(target, expected, kind));
    }

    /** `deploy`: refused while an operation is unfinished; initialises both slots if none is recorded. */
    method DeployImage(image: Image) returns (r: Outcome)
      requires Valid() && line.Down?
      modifies this
      ensures Valid() && line.Down?
      ensures r.Refused? <==> old(operation).Pending?
      ensures r.Refused? ==> unchanged(this)
      ensures r.Done? ==> AtRest(View()) && done == old(done) + [Deployed(image)]
      ensures r.Done? && old(activeMap).Some? ==>
                var active := old(activeMap).value;
                && activeMap == runtimeMap == redisActive == Some(Other(active))
                && running.Get(Other(active)) == images.Get(Other(active)) == Some(image)
                && running.Get(active) == images.Get(active) == old(running).Get(active)
      ensures r.Done? && old(activeMap).None? ==>
                && activeMap == runtimeMap == redisActive == Some(A)
                && running == images == PerSlot(Some(image), Some(image))
      ensures old(activeMap).Some? ==> cut == old(cut)
    {
      EntryIsConsistent();
      if operation.Pending? { return Refused; }
      ghost var before := View();
      BeginDeploy(image);
      r := RunFrom(Preparing);
      EntryIsConsistent();
      if before.file.Some? {
        NothingCutSince(old(log));
      }
      if r.Done? {
        DeployEffect(before, View(), configuration, image);
      }
    }

    /** `switch` and `rollback`: nothing is written unless the target is the ready, empty, other slot. */
    method SwitchTo(target: Slot, expected: Slot, kind: Kind) returns (r: Outcome)
      requires Valid() && line.Down? && (kind.Switch? || kind.Rollback?)
      modifies this
      ensures Valid() && line.Down?
      ensures r.Refused? <==> old(operation.Pending? || !SwitchAllowed(View(), target, expected))
      ensures r.Refused? ==> unchanged(this)
      ensures r.Done? ==>
                && AtRest(View()) && done == old(done) + [Switched]
                && activeMap == runtimeMap == redisActive == Some(target)
                && images == old(images) && running == old(running)
      ensures old(activeMap).Some? ==> cut == old(cut)
    {
      EntryIsConsistent();
      if operation.Pending? || activeMap != Some(expected) || target == expected { return Refused; }
      if !ready.Get(target) || conns.Get(target) != 0 { return Refused; }
      ghost var before := View();
      BeginSwitch(target, expected, kind);
      r := RunFrom(Quiescing);
      EntryIsConsistent();
      NothingCutSince(old(log));
      if r.Done? {
        SwitchEffect(before, View(), configuration);
      }
    }

    method RollBack(expected: Slot) returns (r: Outcome)
      requires Valid() && line.Down?
      modifies this
      ensures Valid() && line.Down?
      ensures r.Refused? <==> old(operation.Pending? || activeMap.None?
                                  || !SwitchAllowed(View(), Other(activeMap.value), expected))
      ensures r.Refused? ==> unchanged(this)
      ensures r.Done? ==>
                && AtRest(View())
                && activeMap == runtimeMap == redisActive == Some(Other(old(activeMap).value))
                && images == old(images) && running == old(running)
    {
      if activeMap.None? { return Refused; }
      r := SwitchTo(Other(activeMap.value), expected, Rollback);
    }

    /** `resume`: refused when nothing is unfinished, otherwise continues from the journaled stage. */
    method ResumeOperation() returns (r: Outcome)
      requires Valid() && line.Down?
      modifies this
      ensures Valid() && line.Down?
      ensures r.Refused? <==> old(operation).Idle?
      ensures r.Refused? ==> unchanged(this)
      ensures r.Done? ==>
                && AtRest(View()) && done == old(done) + [RequestOf(old(operation))]
                && activeMap == runtimeMap == redisActive == Some(old(operation).candidate)
                && running.Get(old(operation).candidate) == images.Get(old(operation).candidate) == old(operation).image
                && running.Get(old(operation).Old()) == images.Get(old(operation).Old())
                   == old(operation).StandbyImage()
      ensures old(activeMap).Some? ==> cut == old(cut)
    {
      EntryIsConsistent();
      if operation.Idle? { return Refused; }
      ghost var before := View();
      line := EntryLine(operation);
      Took(before, Resume);
      r := RunFrom(operation.stage);
      EntryIsConsistent();
      if before.file.Some? {
        NothingCutSince(old(log));
      }
      if r.Done? {
        ResumeEffect(before, View(), configuration);
      }
    }

    /** Rolls the runner; a pending slot operation is left exactly as it is. */
    method RollRunner(image: Image) returns (r: Outcome)
      requires Valid() && line.Down?
      modifies this
      ensures Valid() && line.Down? && !r.Refused?
      ensures operation == old(operation) && done == old(done)
      ensures activeMap == old(activeMap) && redisActive == old(redisActive)
      ensures images == old(images) && running == old(running) && cut == old(cut)
      ensures r.Done? ==> runnerImage == runnerRunning == Some(image)
    {
      ghost var before := View();
      line := RunnerImages(image);
      Took(before, StartRunner(image));
      r := RollFrom(image);
    }

    method RollFrom(image: Image) returns (r: Outcome)
      requires Valid() && line == RunnerImages(image)
      modifies this
      ensures Valid() && line.Down? && !r.Refused? && OnlyRunnerMoved()
      ensures r.Done? ==> runnerImage == runnerRunning == Some(image)
    {
      var alive := RunnerWrite(image);
      if !alive { return Interrupted; }
      alive := RunnerRecreate();
      if !alive { return Interrupted; }
      Environment();
      if * { Die(); return Interrupted; }
      Advance(View());
      r := Done;
    }

    /** Nothing a runner roll does concerns the slots. */
    twostate predicate OnlyRunnerMoved()
      reads this
    {
      && operation == old(operation) && done == old(done) && cut == old(cut) && old(log) <= log
      && activeMap == old(activeMap) && redisActive == old(redisActive)
      && images == old(images) && running == old(running)
    }

    method RunnerWrite(image: Image) returns (alive: bool)
      requires Valid() && line == RunnerImages(image)
      modifies this
      ensures Valid() && OnlyRunnerMoved() && line == if alive then RunnerUp else Down
      ensures alive ==> runnerImage == Some(image)
    {
      Environment();
      alive := *;
      if !alive { Die(); return; }
      ghost var before := View();
      runnerImage := Some(image);
      Advance(before);
    }

    method RunnerRecreate() returns (alive: bool)
      requires Valid() && line.RunnerUp?
      modifies this
      ensures Valid() && OnlyRunnerMoved() && line == if alive then RunnerHealthy else Down
      ensures runnerImage == old(runnerImage) && (alive ==> runnerRunning == runnerImage)
    {
      Environment();
      alive := *;
      if !alive { Die(); return; }
      ghost var before := View();
      runnerRunning := runnerImage;
      Advance(before);
    }
  }
}
