/** What every run of the release stage machine keeps, and what a finished operation leaves behind. */
module ReleaseProofs {
  import opened Common
  import opened Release

  // ----- the serving configuration between operations -----

  /** Who serves and what each slot holds; `Unrecorded` before the first deploy. */
  datatype Core = Unrecorded | Serving(active: Slot, images: PerSlot<Image>)

  /** The effect of one operation that runs without interruption. */
  function Apply(c: Core, r: Request): Core {
    match (c, r)
    case (Unrecorded, Deployed(image)) => Serving(A, PerSlot(image, image))
    case (Unrecorded, Switched) => Unrecorded
    case (Serving(active, images), Deployed(image)) => Serving(Other(active), images.Set(Other(active), image))
    case (Serving(active, images), Switched) => Serving(Other(active), images)
  }

  function Replay(c: Core, requests: seq<Request>): Core
    decreases |requests|
  {
    if requests == [] then c else Apply(Replay(c, requests[..|requests| - 1]), requests[|requests| - 1])
  }

  lemma ReplaySnoc(c: Core, requests: seq<Request>, r: Request)
    ensures Replay(c, requests + [r]) == Apply(Replay(c, requests), r)
  {
    assert (requests + [r])[..|requests|] == requests;
  }

  ghost predicate Holds(s: State, slot: Slot, image: Image) {
    s.images.Get(slot) == s.running.Get(slot) == Some(image)
  }

  ghost predicate Records(s: State, redis: Slot, file: Slot, runtime: Slot) {
    s.redis == Some(redis) && s.file == Some(file) && s.runtime == Some(runtime)
  }

  /** The state is at rest in configuration `c`: the three records agree and the standby is empty. */
  ghost predicate RestsIn(s: State, c: Core) {
    match c
    case Unrecorded => s.file.None? && s.runtime.None? && s.conns.b == 0
    case Serving(active, images) =>
      && Records(s, active, active, active)
      && s.conns.Get(Other(active)) == 0
      && Holds(s, A, images.a)
      && Holds(s, B, images.b)
  }

  /** Where a run begins: nothing pending, nothing finished yet. */
  ghost predicate Begins(s: State, c: Core) {
    AtRest(s) && s.done == [] && RestsIn(s, c)
  }

  // ----- the inductive invariant -----

  /** The journaled operation was started from configuration `c`. */
  ghost predicate StartedFrom(op: Operation, c: Core)
    requires op.Pending?
  {
    && op.image.Some?
    && match c
       case Unrecorded => op.kind.Init? && op.active.None? && op.candidate == A && op.retireImage == op.image
       case Serving(active, images) =>
         && !op.kind.Init?
         && op.active == Some(active)
         && op.candidate == Other(active)
         && op.retireImage == Some(images.Get(active))
         && (!op.kind.Deploy? ==> op.image == Some(images.Get(op.candidate)))
  }

  ghost predicate OneOf(record: Option<Slot>, from: Option<Slot>, dest: Slot) {
    record == from || record == Some(dest)
  }

  /** What holds in a journaled stage wherever the body stands, hence also after a crash. */
  ghost predicate StageInv(s: State)
    requires s.op.Pending?
  {
    var op := s.op;
    var from, cand, prev := op.active, op.candidate, op.Old();
    var image, kept := op.image, op.StandbyImage();
    && (op.kind.Init? ==> s.conns.b == 0 && !op.stage.Quiescing?)
    && (op.stage.Preparing? ==> op.kind.Deploy? || op.kind.Init?)
    && (!op.stage.Preparing? ==> s.images.Get(cand) == s.running.Get(cand) == image)
    && (!op.stage.Retiring? && !op.kind.Init? ==> s.images.Get(prev) == s.running.Get(prev) == kept)
    && match op.stage
       case Preparing =>
         s.file == s.runtime == from && (!op.kind.Init? ==> s.redis == from && s.conns.Get(cand) == 0)
       case Quiescing =>
         s.file == s.runtime == from && OneOf(s.redis, from, cand) && s.conns.Get(cand) == 0
       case Cutover =>
         && OneOf(s.file, from, cand)
         && OneOf(s.runtime, from, cand)
         && (s.runtime == Some(cand) ==> s.file == Some(cand))
         && (s.file == Some(cand) ==> s.redis == Some(cand))
         && (!op.kind.Init? ==> s.redis == Some(cand))
       case Retiring => Records(s, cand, cand, cand) && s.conns.Get(prev) == 0
  }

  /** What the body has established when it stands at a line. */
  ghost predicate LineInv(s: State)
    requires s.op.Pending?
  {
    var op := s.op;
    var cand, prev := op.candidate, op.Old();
    match s.line
    case PrepareJournal => op.stage.Preparing?
    case PrepareImages => op.stage.Preparing?
    case PrepareStop => op.stage.Preparing? && s.images.Get(cand) == op.image
    case PrepareStart => op.stage.Preparing? && s.images.Get(cand) == op.image
    case PrepareReady => op.stage.Preparing? && s.images.Get(cand) == s.running.Get(cand) == op.image
    case QuiesceJournal =>
      && !op.kind.Init?
      && (op.stage.Preparing? || op.stage.Quiescing?)
      && s.images.Get(cand) == s.running.Get(cand) == op.image
    case QuiesceRedis => op.stage.Quiescing?
    case QuiesceWait => op.stage.Quiescing? && s.redis == Some(cand)
    case CutoverJournal => op.stage.Quiescing? && s.redis == Some(cand)
    case RedoJournal =>
      && (op.stage.Cutover? || (op.kind.Init? && op.stage.Preparing?))
      && s.images.Get(cand) == s.running.Get(cand) == op.image
    case RedoRedis => op.stage.Cutover?
    case CutoverFile => op.stage.Cutover? && s.redis == Some(cand)
    case CutoverMap => op.stage.Cutover? && s.redis == s.file == Some(cand)
    case CutoverWait => op.stage.Cutover? && Records(s, cand, cand, cand)
    case DrainWait => op.stage.Cutover? && Records(s, cand, cand, cand) && !op.kind.Init?
    case RetireJournal =>
      (op.stage.Cutover? || op.stage.Retiring?) && Records(s, cand, cand, cand) && s.conns.Get(prev) == 0
    case RetireImages => op.stage.Retiring?
    case RetireStop => op.stage.Retiring? && s.images.Get(prev) == op.StandbyImage()
    case RetireStart => op.stage.Retiring? && s.images.Get(prev) == op.StandbyImage()
    case RetireReady => op.stage.Retiring? && s.images.Get(prev) == s.running.Get(prev) == op.StandbyImage()
    case Finish => op.stage.Retiring? && s.images.Get(prev) == s.running.Get(prev) == op.StandbyImage()
    case _ => true
  }

  /** The machine is at rest in `c`, or somewhere inside an operation that was started from `c`. */
  ghost predicate Inv(s: State, c: Core) {
    match s.op
    case Idle => (s.line.Down? || s.line.Runner()) && RestsIn(s, c)
    case Pending(_, _, _, _, _, _) => StartedFrom(s.op, c) && StageInv(s) && LineInv(s)
  }

  /** `Inv` for the configuration that the finished operations lead to. */
  ghost predicate Reached(s: State, c: Core) {
    Inv(s, Replay(c, s.done))
  }

  lemma FinishKeeps(s: State, c: Core)
    requires Reached(s, c) && s.line.Finish? && s.op.Pending?
    ensures Reached(Step(s, Exec), c)
  {
    ReplaySnoc(c, s.done, RequestOf(s.op));
  }

  predicate Preparation(line: Line) {
    line.PrepareJournal? || line.PrepareImages? || line.PrepareStop? || line.PrepareStart? || line.PrepareReady?
  }

  predicate Handoff(line: Line) {
    || line.QuiesceJournal? || line.QuiesceRedis? || line.QuiesceWait?
    || line.CutoverJournal? || line.RedoJournal? || line.RedoRedis?
  }

  predicate TrafficSwitch(line: Line) {
    line.CutoverFile? || line.CutoverMap? || line.CutoverWait? || line.DrainWait?
  }

  lemma PrepareKeeps(s: State, c: Core)
    requires Inv(s, c) && Preparation(s.line)
    ensures Inv(Step(s, Exec), c) && Step(s, Exec).done == s.done
  {
  }

  lemma HandoffKeeps(s: State, c: Core)
    requires Inv(s, c) && Handoff(s.line)
    ensures Inv(Step(s, Exec), c) && Step(s, Exec).done == s.done
  {
  }

  lemma TrafficSwitchKeeps(s: State, c: Core)
    requires Inv(s, c) && TrafficSwitch(s.line)
    ensures Inv(Step(s, Exec), c) && Step(s, Exec).done == s.done
  {
  }

  lemma RetireKeeps(s: State, c: Core)
    requires Inv(s, c) && !Preparation(s.line) && !Handoff(s.line) && !TrafficSwitch(s.line)
    requires !s.line.Finish? && !s.line.Runner()
    ensures Inv(Step(s, Exec), c) && Step(s, Exec).done == s.done
  {
  }

  lemma ExecKeeps(s: State, c: Core)
    requires Inv(s, c) && !s.line.Finish?
    ensures Inv(Step(s, Exec), c) && Step(s, Exec).done == s.done
  {
    if Preparation(s.line) {
      PrepareKeeps(s, c);
    } else if Handoff(s.line) {
      HandoffKeeps(s, c);
    } else if TrafficSwitch(s.line) {
      TrafficSwitchKeeps(s, c);
    } else if !s.line.Runner() {
      RetireKeeps(s, c);
    }
  }

  lemma OperatorKeeps(s: State, a: Action, c: Core)
    requires Inv(s, c)
    requires a.StartDeploy? || a.StartSwitch? || a.StartRunner? || a.Resume? || a.Fail?
    ensures Inv(Step(s, a), c) && Step(s, a).done == s.done
  {
  }

  lemma TrafficKeeps(s: State, a: Action, c: Core)
    requires Inv(s, c)
    requires a.Open? || a.Close?
    ensures Inv(Step(s, a), c) && Step(s, a).done == s.done
  {
  }

  lemma WorldKeeps(s: State, a: Action, c: Core)
    requires Inv(s, c)
    requires a.Restart? || a.Lead? || a.Probe?
    ensures Inv(Step(s, a), c) && Step(s, a).done == s.done
  {
  }

  lemma StepKeeps(s: State, a: Action, c: Core)
    requires Reached(s, c)
    ensures Reached(Step(s, a), c)
  {
    if a.Exec? && s.line.Finish? && s.op.Pending? {
      FinishKeeps(s, c);
    } else if a.Exec? {
      ExecKeeps(s, Replay(c, s.done));
    } else if a.Open? || a.Close? {
      TrafficKeeps(s, a, Replay(c, s.done));
    } else if a.Restart? || a.Lead? || a.Probe? {
      WorldKeeps(s, a, Replay(c, s.done));
    } else {
      OperatorKeeps(s, a, Replay(c, s.done));
    }
  }

  /** The invariant holds in every state of every run. */
  lemma {:induction false} Always(s: State, actions: seq<Action>, c: Core)
    requires Reached(s, c)
    ensures Reached(Run(s, actions), c)
    decreases |actions|
  {
    if actions != [] {
      StepKeeps(s, actions[0], c);
      Always(Step(s, actions[0]), actions[1..], c);
    }
  }
}
