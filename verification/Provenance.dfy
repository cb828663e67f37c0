/** Amber provenance: values, their validation, the four transitions, and what every run keeps. */
module Provenance {
  import opened Text
  import opened Ast
  import opened Uuid

  // ---------------------------------------------------------------------------
  // Values

  const MAX_UINT64: nat := 0xFFFF_FFFF_FFFF_FFFF

  type U64 = n: nat | n <= MAX_UINT64

  const MAX_REFERENCES := 32
  const MAX_STRING_LENGTH := 256

  /** An origin of the first version, or some other text. */
  datatype Origin = Local | Incoming | Retried | Replayed | OtherOrigin(name: string)

  datatype ModeKind = Normal | Retrying | Replaying | OtherMode(name: string)

  datatype Mode = Mode(kind: ModeKind, ofExecutionId: string, replayId: string)

  datatype Causation = Causation(kind: string, id: string, type_: string)

  datatype Actor = Actor(id: string, type_: string)

  datatype Attribution = Attribution(
    initiatedBy: Option<Actor>, executedBy: Option<Actor>, onBehalfOf: Option<Actor>, tenantId: string)

  datatype Reference = Reference(type_: string, id: string, relation: string)

  datatype Provenance = Provenance(
    version: int,
    workId: string,
    executionId: string,
    correlationId: string,
    causation: Option<Causation>,
    origin: Origin,
    depth: U64,
    attempt: U64,
    attribution: Option<Attribution>,
    mode: Mode,
    references: seq<Reference>)

  // ---------------------------------------------------------------------------
  // Validation

  predicate IsValidString(s: string) { |s| <= MAX_STRING_LENGTH }

  predicate IsValidActor(a: Actor) { a.id != "" && a.type_ != "" && IsValidString(a.id) && IsValidString(a.type_) }

  predicate IsValidAttribution(a: Attribution) {
    && (a.initiatedBy.Some? ==> IsValidActor(a.initiatedBy.value))
    && (a.executedBy.Some? ==> IsValidActor(a.executedBy.value))
    && (a.onBehalfOf.Some? ==> IsValidActor(a.onBehalfOf.value))
    && IsValidString(a.tenantId)
  }

  predicate IsValidReference(r: Reference) {
    r.type_ != "" && r.id != "" && IsValidString(r.type_) && IsValidString(r.id) && IsValidString(r.relation)
  }

  predicate IsCausationKind(kind: string) {
    kind == "execution" || kind == "event" || kind == "message" || kind == "request" || kind == "artifact"
  }

  predicate IsValidCausation(c: Causation) { IsCausationKind(c.kind) && IsID(c.id) && IsValidString(c.type_) }

  predicate IsSource(source: string, executionId: string) { IsID(source) && source != executionId }

  predicate IsValidMode(m: Mode, executionId: string) {
    match m.kind
    case Normal => m.ofExecutionId == "" && m.replayId == ""
    case Retrying => IsSource(m.ofExecutionId, executionId) && m.replayId == ""
    case Replaying => IsSource(m.ofExecutionId, executionId) && IsSource(m.replayId, executionId)
    case OtherMode(_) => false
  }

  predicate AreReferences(references: seq<Reference>) {
    |references| <= MAX_REFERENCES && forall r <- references :: IsValidReference(r)
  }

  /** `Validate`. */
  predicate IsValid(p: Provenance) {
    && p.version == 1
    && IsID(p.workId) && IsID(p.executionId) && IsID(p.correlationId)
    && !p.origin.OtherOrigin?
    && p.attempt != 0
    && IsValidMode(p.mode, p.executionId)
    && (p.origin.Retried? <==> p.mode.kind.Retrying?)
    && (p.origin.Replayed? <==> p.mode.kind.Replaying?)
    && (p.mode.kind.Normal? ==> p.origin.Local? || p.origin.Incoming?)
    && (p.causation.Some? ==> IsValidCausation(p.causation.value))
    && (p.attribution.Some? ==> IsValidAttribution(p.attribution.value))
    && AreReferences(p.references)
  }

  // ---------------------------------------------------------------------------
  // Transitions; an id that the factory could not make is absent

  datatype Failure = FactoryFailed | Invalid | DepthOverflow | AttemptOverflow | ChildOrigin

  type Drawn = Option<string>

  const NORMAL := Mode(Normal, "", "")

  function Checked(p: Provenance): Result<Provenance, Failure> { if IsValid(p) then Ok(p) else Err(Invalid) }

  function Start(
      attribution: Option<Attribution>, references: seq<Reference>, work: Drawn, execution: Drawn, correlation: Drawn)
    : Result<Provenance, Failure>
  {
    if work.None? || execution.None? || correlation.None? then Err(FactoryFailed)
    else Checked(Provenance(
      1, work.value, execution.value, correlation.value, None, Local, 0, 1, attribution, NORMAL, references))
  }

  function CausedBy(p: Provenance): Causation { Causation("execution", p.executionId, "") }

  /** An absent origin is local, an absent cause is the parent execution, absent attribution is inherited. */
  datatype ChildOptions = ChildOptions(
    cause: Option<Causation>, attribution: Option<Attribution>, origin: Option<Origin>, references: seq<Reference>)

  function Child(p: Provenance, o: ChildOptions, work: Drawn, execution: Drawn): Result<Provenance, Failure> {
    var origin := if o.origin.None? then Local else o.origin.value;
    if !IsValid(p) then Err(Invalid)
    else if p.depth == MAX_UINT64 then Err(DepthOverflow)
    else if origin != Local && origin != Incoming then Err(ChildOrigin)
    else if work.None? || execution.None? then Err(FactoryFailed)
    else Checked(Provenance(
      1, work.value, execution.value, p.correlationId,
      Some(if o.cause.None? then CausedBy(p) else o.cause.value), origin, p.depth + 1, 1,
      if o.attribution.None? then p.attribution else o.attribution, NORMAL, o.references))
  }

  function Retry(p: Provenance, execution: Drawn): Result<Provenance, Failure> {
    if !IsValid(p) then Err(Invalid)
    else if p.attempt == MAX_UINT64 then Err(AttemptOverflow)
    else if execution.None? then Err(FactoryFailed)
    else Checked(Provenance(
      1, p.workId, execution.value, p.correlationId, Some(CausedBy(p)), Retried, p.depth, p.attempt + 1,
      p.attribution, Mode(Retrying, p.executionId, ""), p.references))
  }

  function Replay(p: Provenance, execution: Drawn, replay: Drawn): Result<Provenance, Failure> {
    if !IsValid(p) then Err(Invalid)
    else if execution.None? || replay.None? then Err(FactoryFailed)
    else Checked(Provenance(
      1, p.workId, execution.value, p.correlationId, Some(CausedBy(p)), Replayed, p.depth, p.attempt,
      p.attribution, Mode(Replaying, p.executionId, replay.value), p.references))
  }

  /** A retry of a valid value succeeds exactly when its attempt can still grow and the factory gives a
  valid id other than the source's. */
  lemma RetrySucceedsIff(p: Provenance, execution: Drawn)
    requires IsValid(p)
    ensures Retry(p, execution).Ok? <==>
      p.attempt < MAX_UINT64 && execution.Some? && IsID(execution.value) && execution.value != p.executionId
  {
    hide IsID, IsValidAttribution, AreReferences;
  }

  /** A child of a valid value succeeds exactly when its depth can still grow, the origin asked for starts
  new work, the factory gives valid ids, and what the options bring along is valid. */
  lemma ChildSucceedsIff(p: Provenance, o: ChildOptions, work: Drawn, execution: Drawn)
    requires IsValid(p)
    ensures Child(p, o, work, execution).Ok? <==> (
      && p.depth < MAX_UINT64
      && (o.origin.Some? ==> o.origin.value == Local || o.origin.value == Incoming)
      && work.Some? && IsID(work.value) && execution.Some? && IsID(execution.value)
      && (o.cause.Some? ==> IsValidCausation(o.cause.value))
      && (o.attribution.Some? ==> IsValidAttribution(o.attribution.value))
      && AreReferences(o.references))
  {
    hide IsID, IsValidAttribution, AreReferences;
  }

  /** A start succeeds exactly when the factory gives valid ids and the attribution and references are valid. */
  lemma StartSucceedsIff(
      attribution: Option<Attribution>, references: seq<Reference>, work: Drawn, execution: Drawn, correlation: Drawn)
    ensures Start(attribution, references, work, execution, correlation).Ok? <==> (
      && work.Some? && IsID(work.value) && execution.Some? && IsID(execution.value)
      && correlation.Some? && IsID(correlation.value)
      && (attribution.Some? ==> IsValidAttribution(attribution.value)) && AreReferences(references))
  {
    hide IsID, IsValidAttribution, AreReferences;
  }

  lemma ReplaySucceedsIff(p: Provenance, execution: Drawn, replay: Drawn)
    requires IsValid(p)
    ensures Replay(p, execution, replay).Ok? <==> (
      && execution.Some? && IsID(execution.value) && execution.value != p.executionId
      && replay.Some? && IsID(replay.value) && replay.value != execution.value)
  {
    hide IsID, IsValidAttribution, AreReferences;
  }

  // ---------------------------------------------------------------------------
  // Runs: a tree of transitions that all succeeded

  datatype Action =
    | Started(attribution: Option<Attribution>, references: seq<Reference>, work: string, execution: string,
        correlation: string)
    | ChildOf(options: ChildOptions, work: string, execution: string)
    | RetryOf(execution: string)
    | ReplayOf(execution: string, replay: string)

  /** A value, the index of the value it was made from, and how. */
  datatype Node = Node(value: Provenance, parent: nat, action: Action)

  function Apply(p: Provenance, a: Action): Result<Provenance, Failure> {
    match a
    case Started(_, _, _, _, _) => Err(Invalid)
    case ChildOf(options, work, execution) => Child(p, options, Some(work), Some(execution))
    case RetryOf(execution) => Retry(p, Some(execution))
    case ReplayOf(execution, replay) => Replay(p, Some(execution), Some(replay))
  }

  /** The ids that the factory gave for a node. */
  function DrawnFor(n: Node): set<string> {
    match n.action
    case Started(_, _, work, execution, correlation) => {work, execution, correlation}
    case ChildOf(_, work, execution) => {work, execution}
    case RetryOf(execution) => {execution}
    case ReplayOf(execution, replay) => {execution, replay}
  }

  predicate IsFreshFor(a: Action, used: set<string>) {
    match a
    case Started(_, _, _, _, _) => false
    case ChildOf(_, work, execution) => work !in used && execution !in used && work != execution
    case RetryOf(execution) => execution !in used
    case ReplayOf(execution, replay) => execution !in used && replay !in used && execution != replay
  }

  function Used(run: seq<Node>): set<string> { set n, id | n in run && id in DrawnFor(n) :: id }

  /** One start with three different ids, then successful transitions of earlier values with fresh ids. */
  predicate IsRun(run: seq<Node>) {
    run != [] &&
    if |run| == 1 then
      var a := run[0].action;
      && a.Started? && run[0].parent == 0
      && Start(a.attribution, a.references, Some(a.work), Some(a.execution), Some(a.correlation)) == Ok(run[0].value)
      && a.work != a.execution && a.work != a.correlation && a.execution != a.correlation
    else
      var front, last := run[..|run| - 1], run[|run| - 1];
      && IsRun(front)
      && last.parent < |front|
      && Apply(front[last.parent].value, last.action) == Ok(last.value)
      && IsFreshFor(last.action, Used(front))
  }

  lemma {:induction false} RunParents(run: seq<Node>, k: nat)
    requires IsRun(run) && k < |run|
    ensures k == 0 ==> run[0].action.Started? && run[0].value.causation == None
    ensures k == 0 ==> run[0].value.depth == 0 && run[0].value.attempt == 1
    ensures k > 0 ==> run[k].parent < k && Apply(run[run[k].parent].value, run[k].action) == Ok(run[k].value)
    ensures IsValid(run[k].value)
  {
    hide IsID, IsValidAttribution, AreReferences, IsValidMode, IsValidCausation;
    if |run| > 1 && k < |run| - 1 {
      RunParents(run[..|run| - 1], k);
    }
  }

  // Counting edges on the path to the root

  function ChildEdges(run: seq<Node>, k: nat): nat
    requires IsRun(run) && k < |run|
  {
    if k == 0 then 0
    else
      RunParents(run, k);
      ChildEdges(run, run[k].parent) + if run[k].action.ChildOf? then 1 else 0
  }

  /** One more than the retries since the last start or child. */
  function Attempts(run: seq<Node>, k: nat): nat
    requires IsRun(run) && k < |run|
  {
    if k == 0 || run[k].action.ChildOf? then 1
    else
      RunParents(run, k);
      Attempts(run, run[k].parent) + if run[k].action.RetryOf? then 1 else 0
  }

  function PathLength(run: seq<Node>, k: nat): nat
    requires IsRun(run) && k < |run|
  {
    if k == 0 then 0
    else
      RunParents(run, k);
      1 + PathLength(run, run[k].parent)
  }

  /** Every value of a run is valid and shares the correlation id; its depth is the number of child edges
  and its attempt one more than the retries since the last child, with no counter wrapped. */
  lemma {:induction false} RunCounts(run: seq<Node>, k: nat)
    requires IsRun(run) && k < |run|
    ensures IsValid(run[k].value) && run[k].value.correlationId == run[0].value.correlationId
    ensures run[k].value.depth as nat == ChildEdges(run, k) <= MAX_UINT64
    ensures run[k].value.attempt as nat == Attempts(run, k) <= MAX_UINT64
  {
    hide IsValid, IsRun;
    RunParents(run, k);
    if k > 0 {
      RunCounts(run, run[k].parent);
    }
  }

  // ---------------------------------------------------------------------------
  // What each transition takes over

  /** The value a run starts from. */
  lemma RunStart(run: seq<Node>)
    requires IsRun(run)
    ensures run[0].action.Started?
    ensures var a := run[0].action;
      run[0].value == Provenance(1, a.work, a.execution, a.correlation, None, Local, 0, 1, a.attribution,
        Mode(Normal, "", ""), a.references)
  {
    hide IsValid, IsFreshFor;
    if |run| > 1 {
      RunStart(run[..|run| - 1]);
    }
  }

  /** A retry keeps the work, the depth, the attribution and the references of the value it was made from, and
  names its execution. */
  lemma RetryTakesOver(run: seq<Node>, k: nat)
    requires IsRun(run) && k < |run| && run[k].action.RetryOf?
    ensures 0 < k && run[k].parent < k
    ensures var p, q := run[run[k].parent].value, run[k].value;
      q == Provenance(1, p.workId, run[k].action.execution, p.correlationId,
        Some(Causation("execution", p.executionId, "")), Retried, p.depth, q.attempt, p.attribution,
        Mode(Retrying, p.executionId, ""), p.references)
      && q.attempt as nat == p.attempt as nat + 1
  {
    RunParents(run, k);
    hide IsValid, IsRun;
  }

  /** A replay keeps those and the attempt, and names the execution and the replay. */
  lemma ReplayTakesOver(run: seq<Node>, k: nat)
    requires IsRun(run) && k < |run| && run[k].action.ReplayOf?
    ensures 0 < k && run[k].parent < k
    ensures var p, q := run[run[k].parent].value, run[k].value;
      q == Provenance(1, p.workId, run[k].action.execution, p.correlationId,
        Some(Causation("execution", p.executionId, "")), Replayed, p.depth, p.attempt, p.attribution,
        Mode(Replaying, p.executionId, run[k].action.replay), p.references)
  {
    RunParents(run, k);
    hide IsValid, IsRun;
  }

  lemma ChildGives(p: Provenance, o: ChildOptions, work: string, execution: string)
    requires Child(p, o, Some(work), Some(execution)).Ok?
    ensures var q := Child(p, o, Some(work), Some(execution)).value;
      && q.version == 1 && q.workId == work && q.executionId == execution
      && q.correlationId == p.correlationId && q.depth as nat == p.depth as nat + 1 && q.attempt == 1
      && q.mode == Mode(Normal, "", "") && q.references == o.references
      && q.origin == (match o.origin case Some(origin) => origin case None => Local)
      && q.causation == Some(match o.cause
          case Some(cause) => cause
          case None => Causation("execution", p.executionId, ""))
      && q.attribution == (match o.attribution case Some(attribution) => Some(attribution) case None => p.attribution)
  {
    hide IsValid;
  }

  /** A child is new work one deeper, with what its options give, and otherwise a local origin, the parent as its
  cause and the parent's attribution. */
  lemma ChildTakesOver(run: seq<Node>, k: nat)
    requires IsRun(run) && k < |run| && run[k].action.ChildOf?
    ensures 0 < k && run[k].parent < k
    ensures var p, q, o := run[run[k].parent].value, run[k].value, run[k].action.options;
      && q.version == 1 && q.workId == run[k].action.work && q.executionId == run[k].action.execution
      && q.correlationId == p.correlationId && q.depth as nat == p.depth as nat + 1 && q.attempt == 1
      && q.mode == Mode(Normal, "", "") && q.references == o.references
      && q.origin == (match o.origin case Some(origin) => origin case None => Local)
      && q.causation == Some(match o.cause
          case Some(cause) => cause
          case None => Causation("execution", p.executionId, ""))
      && q.attribution == (match o.attribution case Some(attribution) => Some(attribution) case None => p.attribution)
  {
    RunParents(run, k);
    ChildGives(run[run[k].parent].value, run[k].action.options, run[k].action.work, run[k].action.execution);
    hide IsValid, IsRun, Child;
  }

  /** The start or the child that the last retries and replays on the path to a value go back to. */
  function WorkOrigin(run: seq<Node>, k: nat): (r: nat)
    requires IsRun(run) && k < |run|
    ensures r <= k && !run[r].action.RetryOf? && !run[r].action.ReplayOf?
  {
    if run[k].action.RetryOf? || run[k].action.ReplayOf? then
      RunParents(run, k);
      assert k > 0;
      WorkOrigin(run, run[k].parent)
    else k
  }

  /** Retries and replays, however many, keep who acted, what was referred to, the work and its depth. */
  lemma {:induction false} WorkIsKept(run: seq<Node>, k: nat)
    requires IsRun(run) && k < |run|
    ensures var p, q := run[WorkOrigin(run, k)].value, run[k].value;
      && q.attribution == p.attribution && q.references == p.references
      && q.workId == p.workId && q.depth == p.depth && q.correlationId == p.correlationId
  {
    hide IsRun, IsValid;
    if run[k].action.RetryOf? {
      RetryTakesOver(run, k);
      WorkIsKept(run, run[k].parent);
    } else if run[k].action.ReplayOf? {
      ReplayTakesOver(run, k);
      WorkIsKept(run, run[k].parent);
    }
  }

  // ---------------------------------------------------------------------------
  // Fresh ids

  lemma InUsed(run: seq<Node>, n: Node, id: string)
    requires n in run && id in DrawnFor(n)
    ensures id in Used(run)
  {
  }

  /** What a successful transition takes over and what it draws. */
  lemma AppliedFields(p: Provenance, a: Action, q: Provenance)
    requires Apply(p, a) == Ok(q)
    ensures !a.Started? && q.executionId == a.execution
    ensures q.workId == if a.ChildOf? then a.work else p.workId
    ensures q.depth == if a.ChildOf? then p.depth + 1 else p.depth
  {
    hide IsValid;
  }

  lemma {:induction false} DrawnAreUsed(run: seq<Node>, k: nat)
    requires IsRun(run) && k < |run|
    ensures run[k].value.executionId in Used(run) && run[k].value.workId in Used(run)
    decreases k
  {
    hide IsRun, Apply, Used;
    RunStart(run);
    RunParents(run, k);
    if k == 0 {
      InUsed(run, run[k], run[k].value.workId);
    } else {
      AppliedFields(run[run[k].parent].value, run[k].action, run[k].value);
      DrawnAreUsed(run, run[k].parent);
      if run[k].action.ChildOf? {
        InUsed(run, run[k], run[k].value.workId);
      }
    }
    InUsed(run, run[k], run[k].value.executionId);
  }

  lemma LastStep(run: seq<Node>)
    requires IsRun(run) && |run| > 1
    ensures var front, last := run[..|run| - 1], run[|run| - 1];
      && IsRun(front) && last.parent < |front|
      && Apply(front[last.parent].value, last.action) == Ok(last.value) && IsFreshFor(last.action, Used(front))
  {
  }

  /** No two values of a run have the same execution id. */
  lemma {:induction false} ExecutionsDiffer(run: seq<Node>, j: nat, k: nat)
    requires IsRun(run) && j < k < |run|
    ensures run[j].value.executionId != run[k].value.executionId
    decreases |run|
  {
    hide IsRun, Apply, Used;
    var front, last := run[..|run| - 1], run[|run| - 1];
    LastStep(run);
    if k < |run| - 1 {
      ExecutionsDiffer(front, j, k);
    } else {
      DrawnAreUsed(front, j);
      AppliedFields(front[last.parent].value, last.action, last.value);
    }
  }

  /** Values of the same logical work have the same depth. */
  lemma {:induction false} SameWorkSameDepth(run: seq<Node>, j: nat, k: nat)
    requires IsRun(run) && j < k < |run| && run[j].value.workId == run[k].value.workId
    ensures run[j].value.depth == run[k].value.depth
    decreases |run|
  {
    hide IsRun, Apply, Used;
    var front, last := run[..|run| - 1], run[|run| - 1];
    LastStep(run);
    if k < |run| - 1 {
      SameWorkSameDepth(front, j, k);
    } else {
      DrawnAreUsed(front, j);
      AppliedFields(front[last.parent].value, last.action, last.value);
      if j < last.parent {
        SameWorkSameDepth(front, j, last.parent);
      } else if last.parent < j {
        SameWorkSameDepth(front, last.parent, j);
      }
    }
  }

  // ---------------------------------------------------------------------------
  // Causation

  /** The value was caused by another one, as its causation link says. */
  predicate IsLinked(cause: Provenance, effect: Provenance) { effect.causation == Some(CausedBy(cause)) }

  predicate HasDefaultCause(n: Node) { n.action.ChildOf? ==> n.action.options.cause.None? }

  /** A default link names the value that the transition started from, and no other value of the run. */
  lemma DefaultLinkIsToParent(run: seq<Node>, j: nat, k: nat)
    requires IsRun(run) && 0 < k < |run| && j < |run| && HasDefaultCause(run[k])
    ensures IsLinked(run[j].value, run[k].value) <==> j == run[k].parent
  {
    hide IsRun, IsValid;
    RunParents(run, k);
    var parent := run[k].parent;
    if j < parent {
      ExecutionsDiffer(run, j, parent);
    } else if parent < j {
      ExecutionsDiffer(run, parent, j);
    }
  }

  /** Following causation links from a value, some choice of `n` links ends at the root. */
  ghost predicate LeadsToRoot(run: seq<Node>, k: nat, n: nat)
    requires k < |run|
    decreases n
  {
    if n == 0 then k == 0
    else exists j: nat :: j < |run| && IsLinked(run[j].value, run[k].value) && LeadsToRoot(run, j, n - 1)
  }

  /** With default causes, the links from a value lead to the root in exactly as many steps as its path has. */
  lemma {:induction false} LinksLeadToRoot(run: seq<Node>, k: nat, n: nat)
    requires IsRun(run) && k < |run| && forall i | 0 < i < |run| :: HasDefaultCause(run[i])
    ensures LeadsToRoot(run, k, n) <==> n == PathLength(run, k)
    decreases n
  {
    hide IsRun, IsValid, IsLinked;
    RunParents(run, k);
    if n > 0 {
      if k == 0 {
        RootHasNoCause(run);
      } else {
        forall j: nat | j < |run| ensures IsLinked(run[j].value, run[k].value) <==> j == run[k].parent {
          DefaultLinkIsToParent(run, j, k);
        }
        LinksLeadToRoot(run, run[k].parent, n - 1);
      }
    }
  }

  lemma RootHasNoCause(run: seq<Node>)
    requires IsRun(run)
    ensures forall j | 0 <= j < |run| :: !IsLinked(run[j].value, run[0].value)
  {
    RunParents(run, 0);
  }
}
