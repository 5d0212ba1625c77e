/**
 The A/B release stage machine as a step relation.

 A state is everything that outlives the controller process (the operation journal, `active.map`,
 `images.json`, the Redis key, HAProxy's runtime map, the containers) together with the line the
 controller is about to execute.  An action is one step of the controller, of an operator or of the
 environment; an action that is not enabled leaves the state alone, so every sequence of actions is a run.
 The controller may fail or be killed before any line.
 */
module Release {
  import opened Common

  datatype Kind = Deploy | Switch | Rollback | Init

  datatype Stage = Preparing | Quiescing | Cutover | Retiring

  /** The content of `operation.json`. */
  datatype Operation =
    | Idle
    | Pending(stage: Stage, kind: Kind, active: Option<Slot>, candidate: Slot,
              image: Option<Image>, retireImage: Option<Image>)
  {
    /** The slot that becomes the standby. */
    function Old(): Slot
      requires Pending?
    {
      Other(candidate)
    }

    /** What the old slot is rebuilt with: `init` puts the new image into both slots. */
    function StandbyImage(): Option<Image>
      requires Pending?
    {
      if kind.Init? then image else retireImage
    }
  }

  /** The line an operation body is about to execute; `Down` when no body is running. */
  datatype Line =
    | Down
    | PrepareJournal | PrepareImages | PrepareStop | PrepareStart | PrepareReady
    | QuiesceJournal | QuiesceRedis | QuiesceWait
    | CutoverJournal | CutoverFile | CutoverMap | CutoverWait | DrainWait
    | RedoJournal | RedoRedis
    | RetireJournal | RetireImages | RetireStop | RetireStart | RetireReady
    | Finish
    | RunnerImages(runnerImage: Image) | RunnerUp | RunnerHealthy
  {
    predicate Runner() {
      RunnerImages? || RunnerUp? || RunnerHealthy?
    }
  }

  /** A finished operation, as far as the slots are concerned. */
  datatype Request = Deployed(image: Image) | Switched

  datatype State = State(
    op: Operation,
    line: Line,
    redis: Option<Slot>,                 // pm:deploy:active
    file: Option<Slot>,                  // active.map
    runtime: Option<Slot>,               // HAProxy's map in memory
    images: PerSlot<Option<Image>>,      // images.json
    running: PerSlot<Option<Image>>,     // the image of each slot's container
    runnerImage: Option<Image>,          // images.json
    runnerRunning: Option<Image>,
    conns: PerSlot<nat>,                 // current plus queued connections of each backend
    ready: PerSlot<bool>,
    leader: Option<Slot>,                // slot prefix of the leader lock's holder
    cut: PerSlot<nat>,                   // connections cut by a forced recreation
    done: seq<Request>)                  // finished operations, oldest first
  {
    /** Where HAProxy sends a new request: a missing map entry means `manager_a`. */
    function Target(): Slot {
      runtime.GetOr(A)
    }
  }

  /** The image a slot should run: `images.json` first, the container's own image otherwise. */
  function SlotImage(images: PerSlot<Option<Image>>, running: PerSlot<Option<Image>>, slot: Slot): Option<Image> {
    images.Get(slot).Or(running.Get(slot))
  }

  datatype Action =
    | Exec                                                    // the body's next line
    | Fail                                                    // an exception, a timeout or a kill
    | StartDeploy(image: Image)
    | StartSwitch(target: Slot, expected: Slot, kind: Kind)
    | StartRunner(runnerImage: Image)
    | Resume
    | Open                                                    // a client connects
    | Close(slot: Slot)                                       // a stream ends
    | Restart(kept: PerSlot<nat>)                             // HAProxy restarts from the file
    | Lead(holder: Option<Slot>)                              // the leader lock changes hands
    | Probe(health: PerSlot<bool>)

  /** Force-recreating a container ends whatever it was serving. */
  function StopSlot(s: State, slot: Slot): State {
    s.(running := s.running.Set(slot, None),
       conns := s.conns.Set(slot, 0),
       cut := s.cut.Set(slot, s.cut.Get(slot) + s.conns.Get(slot)))
  }

  function StartSlot(s: State, slot: Slot): State {
    s.(running := s.running.Set(slot, s.images.Get(slot)))
  }

  function RequestOf(op: Operation): Request
    requires op.Pending?
  {
    if (op.kind.Deploy? || op.kind.Init?) && op.image.Some? then Deployed(op.image.value) else Switched
  }

  /** One line of a slot operation; a wait whose condition does not hold yet stays where it is. */
  function ExecSlotLine(s: State): State
    requires s.op.Pending?
  {
    var op := s.op;
    match s.line
    // prepare
    case PrepareJournal => s.(op := op.(stage := Preparing), line := PrepareImages)
    case PrepareImages => s.(images := s.images.Set(op.candidate, op.image), line := PrepareStop)
    case PrepareStop => StopSlot(s, op.candidate).(line := PrepareStart)
    case PrepareStart => StartSlot(s, op.candidate).(line := PrepareReady)
    case PrepareReady =>
      if s.ready.Get(op.candidate)
      then s.(line := if op.kind.Init? then RedoJournal else QuiesceJournal)
      else s
    // handoff
    case QuiesceJournal => s.(op := op.(stage := Quiescing), line := QuiesceRedis)
    case QuiesceRedis => s.(redis := Some(op.candidate), line := QuiesceWait)
    case QuiesceWait => if s.leader != op.active then s.(line := CutoverJournal) else s
    case CutoverJournal => s.(op := op.(stage := Cutover), line := CutoverFile)
    case CutoverFile => s.(file := Some(op.candidate), line := CutoverMap)
    case CutoverMap => s.(runtime := Some(op.candidate), line := CutoverWait)
    case CutoverWait =>
      if s.runtime == Some(op.candidate)
      then s.(line := if op.kind.Init? then RetireJournal else DrainWait)
      else s
    case DrainWait => if s.conns.Get(op.Old()) == 0 then s.(line := RetireJournal) else s
    // a cutover that is redone by resume, or done for the first time by init
    case RedoJournal => s.(op := op.(stage := Cutover), line := RedoRedis)
    case RedoRedis => s.(redis := Some(op.candidate), line := CutoverFile)
    // retire
    case RetireJournal => s.(op := op.(stage := Retiring), line := RetireImages)
    case RetireImages =>
      s.(images := if op.StandbyImage().Some? then s.images.Set(op.Old(), op.StandbyImage()) else s.images,
         line := RetireStop)
    case RetireStop => StopSlot(s, op.Old()).(line := RetireStart)
    case RetireStart => StartSlot(s, op.Old()).(line := RetireReady)
    case RetireReady => if s.ready.Get(op.Old()) then s.(line := Finish) else s
    // finish
    case Finish => s.(op := Idle, line := Down, done := s.done + [RequestOf(op)])
    case _ => s
  }

  function ExecRunnerLine(s: State): State {
    match s.line
    case RunnerImages(image) => s.(runnerImage := Some(image), line := RunnerUp)
    case RunnerUp => s.(runnerRunning := s.runnerImage, line := RunnerHealthy)
    case RunnerHealthy => s.(line := Down)
    case _ => s
  }

  /** Where `_run_from` enters for a journaled stage. */
  function EntryLine(op: Operation): Line
    requires op.Pending?
  {
    match op.stage
    case Preparing => PrepareJournal
    case Quiescing => if op.kind.Init? then RedoJournal else QuiesceJournal
    case Cutover => RedoJournal
    case Retiring => RetireJournal
  }

  /** The journal entry `deploy` writes; without a recorded active slot it initialises both slots. */
  function DeployOperation(s: State, image: Image): Operation {
    match s.file
    case None => Pending(Preparing, Init, None, A, Some(image), Some(image))
    case Some(active) => 
      Pending(Preparing, Deploy, s.file, Other(active), Some(image), SlotImage(s.images, s.running, active))
  }

  /** Everything `switch` checks before it journals anything. */
  predicate SwitchAllowed(s: State, target: Slot, expected: Slot) {
    && s.file == Some(expected)
    && target != expected
    && s.ready.Get(target)
    && s.conns.Get(target) == 0
  }

  function SwitchOperation(s: State, target: Slot, kind: Kind): Operation {
    Pending(Quiescing, kind, s.file, target, SlotImage(s.images, s.running, target),
            SlotImage(s.images, s.running, Other(target)))
  }

  /** The operation lock is free and nothing is left to resume. */
  predicate AtRest(s: State) {
    s.line.Down? && s.op.Idle?
  }

  function Step(s: State, a: Action): State {
    match a
    case Exec => if s.line.Runner() then ExecRunnerLine(s) else if s.op.Pending? then ExecSlotLine(s) else s
    case Fail => s.(line := Down)
    case StartDeploy(image) =>
      if AtRest(s) then s.(op := DeployOperation(s, image), line := PrepareJournal) else s
    case StartSwitch(target, expected, kind) =>
      if AtRest(s) && (kind.Switch? || kind.Rollback?) && SwitchAllowed(s, target, expected)
      then s.(op := SwitchOperation(s, target, kind), line := QuiesceJournal)
      else s
    case StartRunner(image) => if s.line.Down? then s.(line := RunnerImages(image)) else s
    case Resume => if s.line.Down? && s.op.Pending? then s.(line := EntryLine(s.op)) else s
    case Open => s.(conns := s.conns.Set(s.Target(), s.conns.Get(s.Target()) + 1))
    case Close(slot) =>
      if s.conns.Get(slot) > 0 then s.(conns := s.conns.Set(slot, s.conns.Get(slot) - 1)) else s
    case Restart(kept) =>
      if kept.a <= s.conns.a && kept.b <= s.conns.b then s.(runtime := s.file, conns := kept) else s
    case Lead(holder) => s.(leader := holder)
    case Probe(health) => s.(ready := health)
  }

  lemma DeployBegins(s: State, image: Image)
    requires AtRest(s)
    ensures Step(s, StartDeploy(image)) == s.(op := DeployOperation(s, image), line := PrepareJournal)
    ensures var op := DeployOperation(s, image);
            op.Pending? && op.stage.Preparing? && EntryLine(op) == PrepareJournal && RequestOf(op) == Deployed(image)
  {
  }

  lemma StopLine(s: State, slot: Slot)
    requires s.op.Pending?
    requires (s.line.PrepareStop? && slot == s.op.candidate) || (s.line.RetireStop? && slot == s.op.Old())
    ensures Step(s, Exec) == StopSlot(s, slot).(line := if s.line.PrepareStop? then PrepareStart else RetireStart)
  {
  }

  function Run(s: State, actions: seq<Action>): State
    decreases |actions|
  {
    if actions == [] then s else Run(Step(s, actions[0]), actions[1..])
  }

  lemma {:induction false} RunAppend(s: State, first: seq<Action>, rest: seq<Action>)
    ensures Run(s, first + rest) == Run(Run(s, first), rest)
    decreases |first|
  {
    if first == [] {
      assert first + rest == rest;
    } else {
      assert (first + rest)[1..] == first[1..] + rest;
      RunAppend(Step(s, first[0]), first[1..], rest);
    }
  }

  lemma RunSnoc(s: State, actions: seq<Action>, a: Action)
    ensures Run(s, actions + [a]) == Step(Run(s, actions), a)
  {
    RunAppend(s, actions, [a]);
    assert [a][1..] == [];
  }
}
