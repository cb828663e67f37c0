/** Comparing two CI result envelopes. */
module CiComparison {
  import opened Text
  import opened Ast
  import opened StringOrder
  import opened Changes
  import opened Diff
  import opened Records
  import opened Reports
  import opened ReportBuilding
  import opened FileRefs
  import J = Json

  /** `report` and `explanation` are fingerprints of producer-owned JSON. */
  datatype Artifact = Artifact(
    tool: string, kind: string, createdAt: string, root: string, modulePath: string, status: string, exitCode: int,
    policy: Option<FileRef>, policyLock: Option<FileRef>, graph: Option<FileRef>, baseline: Option<FileRef>,
    inputs: map<string, FileRef>,
    report: Value, explanation: Value)

  function CompareArtifactDigests(before: string, after: string): string {
    if before == "" && after == "" then ""
    else if before == "" then "added"
    else if after == "" then "removed"
    else if before == after then "same-bytes"
    else "replaced"
  }

  function CompareArtifactIdentity(before: Option<FileRef>, after: Option<FileRef>): string {
    if before.None? && after.None? then ""
    else if before.None? then "added"
    else if after.None? then "removed"
    else if before.value.sha256 == "" || after.value.sha256 == "" then "unknown"
    else CompareArtifactDigests(before.value.sha256, after.value.sha256)
  }

  lemma IdentityIsSupported(before: Option<FileRef>, after: Option<FileRef>)
    ensures IsSupportedIdentity(CompareArtifactIdentity(before, after))
  {
  }

  // ---------------------------------------------------------------------------
  // The category of a named input

  /** `strings.ToLower` as far as it can produce ASCII: besides the ASCII capitals, only the Kelvin sign
  and the dotted capital I lower to ASCII letters. */
  function LowerChar(c: char): char {
    if 'A' <= c <= 'Z' then (c as int + 32) as char
    else if c as int == 0x212A then 'k'
    else if c as int == 0x130 then 'i'
    else c
  }

  function ToLower(s: string): string { if s == "" then "" else [LowerChar(s[0])] + ToLower(s[1..]) }

  predicate IsContractInput(lower: string) {
    lower == "contract" || lower == "contract_lock" || lower == "contract_schema"
  }

  predicate IsPlanInput(lower: string) {
    lower == "plan" || lower == "mutation_plan" || lower == "mutation_catalogue"
  }

  predicate IsProviderInput(lower: string) {
    lower == "provider" || lower == "provider_manifest" || lower == "preparation"
  }

  predicate IsEnvironmentInput(lower: string) {
    lower == "environment" || lower == "runtime" || lower == "subject_policy"
  }

  function InputChangeCategory(name: string): string {
    var lower := ToLower(name);
    if IsContractInput(lower) then "contract"
    else if IsPlanInput(lower) then "plan"
    else if IsProviderInput(lower) then "provider"
    else if IsEnvironmentInput(lower) then "environment"
    else "input"
  }

  predicate IsInputCategory(category: string) {
    category == "contract" || category == "plan" || category == "provider" || category == "environment"
    || category == "input"
  }

  lemma InputCategories(name: string)
    ensures IsInputCategory(InputChangeCategory(name)) && '.' !in InputChangeCategory(name)
  {
    hide ToLower;
  }

  // ---------------------------------------------------------------------------
  // The compared fields

  function ContextGroup(d: Artifact): Group {
    Group("context", [Named("tool", J.Str(d.tool)), Named("kind", J.Str(d.kind)), Named("source.root", J.Str(d.root)),
      Named("source.module_path", J.Str(d.modulePath))])
  }

  function VerdictGroup(d: Artifact): Group {
    Group("verdict", [Named("status", J.Str(d.status)), Named("exit_code", J.Number(FormatInt(d.exitCode)))])
  }

  function InputGroup(d: Artifact): Group {
    Group("input", [Named("policy", FileRefValue(d.policy)), Named("policy_lock", FileRefValue(d.policyLock)),
      Named("graph", FileRefValue(d.graph)), Named("baseline", FileRefValue(d.baseline))])
  }

  function ProducerGroup(d: Artifact): Group {
    Group("producer-report", [Named("report", d.report), Named("explanation", d.explanation)])
  }

  function HeadGroups(d: Artifact): seq<Group> { [ContextGroup(d), VerdictGroup(d), InputGroup(d)] }

  function AllGroups(d: Artifact): seq<Group> { HeadGroups(d) + [ProducerGroup(d)] }

  function Inputs(inputs: map<string, FileRef>): Vector
  {
    map name | name in inputs :: FileRefValue(Some(inputs[name]))
  }

  const INPUT_FAMILY := Family((name: string) => InputChangeCategory(name), (name: string) => "inputs." + name)

  function ArtifactRecord(d: Artifact): Record {
    Record(Flatten(HeadGroups(d)), Inputs(d.inputs), Entries(ProducerGroup(d)))
  }

  ghost function ArtifactVector(d: Artifact): Vector { VectorOf(Content(ArtifactRecord(d), INPUT_FAMILY)) }

  function InputRef(inputs: map<string, FileRef>, name: string): Option<FileRef> {
    if name in inputs then Some(inputs[name]) else None
  }

  // The four `add` calls, the six calls on file references, the inputs, the two fingerprints

  function ContextCalls(b: Artifact, a: Artifact): seq<Observation>
  {
    PairUp(Entries(ContextGroup(b)), Entries(ContextGroup(a)))
  }

  function VerdictCalls(b: Artifact, a: Artifact): seq<Observation>
  {
    PairUp(Entries(VerdictGroup(b)), Entries(VerdictGroup(a)))
  }

  function RefCall(category: string, field: string, oldRef: Option<FileRef>, newRef: Option<FileRef>): Observation {
    Observation(category, field, FileRefValue(oldRef), FileRefValue(newRef), CompareArtifactIdentity(oldRef, newRef))
  }

  function FileCalls(b: Artifact, a: Artifact): seq<Observation> {
    [RefCall("input", "policy", b.policy, a.policy), RefCall("input", "policy_lock", b.policyLock, a.policyLock),
     RefCall("input", "graph", b.graph, a.graph), RefCall("input", "baseline", b.baseline, a.baseline)]
  }

  function InputCall(name: string, b: Artifact, a: Artifact): Observation {
    RefCall(InputChangeCategory(name), "inputs." + name, InputRef(b.inputs, name), InputRef(a.inputs, name))
  }

  function InputCalls(names: seq<string>, b: Artifact, a: Artifact): (r: seq<Observation>)
    ensures |r| == |names| && forall i | 0 <= i < |r| :: r[i] == InputCall(names[i], b, a)
  {
    seq(|names|, i requires 0 <= i < |names| => InputCall(names[i], b, a))
  }

  function ProducerCalls(b: Artifact, a: Artifact): seq<Observation> {
    PairUp(Entries(ProducerGroup(b)), Entries(ProducerGroup(a)))
  }

  ghost function InputNames(b: Artifact, a: Artifact): seq<string> { SortedSet(b.inputs.Keys + a.inputs.Keys) }

  ghost function ArtifactCalls(b: Artifact, a: Artifact): seq<Observation> {
    ContextCalls(b, a) + VerdictCalls(b, a) + FileCalls(b, a) + InputCalls(InputNames(b, a), b, a) + ProducerCalls(b, a)
  }

  // ---------------------------------------------------------------------------
  // Identities aside, these are the observations of two records

  function Erase(obs: seq<Observation>): (r: seq<Observation>)
    ensures |r| == |obs| && forall i | 0 <= i < |r| :: r[i] == obs[i].(identity := "")
  {
    seq(|obs|, i requires 0 <= i < |obs| => obs[i].(identity := ""))
  }

  lemma EraseAppend(xs: seq<Observation>, ys: seq<Observation>)
    ensures Erase(xs + ys) == Erase(xs) + Erase(ys)
  {
  }

  lemma ArtifactShapes(b: Artifact, a: Artifact)
    ensures SameShape(ArtifactRecord(b), ArtifactRecord(a))
  {
    var gs, hs := HeadGroups(b), HeadGroups(a);
    assert SameNames(gs[0], hs[0]) && SameNames(gs[1], hs[1]) && SameNames(gs[2], hs[2]);
    assert SameNames(ProducerGroup(b), ProducerGroup(a));
    hide Flatten;
    FlattenSameShape(gs, hs);
  }

  lemma HeadCalls(b: Artifact, a: Artifact)
    requires |Flatten(HeadGroups(b))| == |Flatten(HeadGroups(a))|
    ensures Erase(ContextCalls(b, a) + VerdictCalls(b, a) + FileCalls(b, a))
         == PairUp(Flatten(HeadGroups(b)), Flatten(HeadGroups(a)))
  {
    ThreeGroups(ContextGroup(b), VerdictGroup(b), InputGroup(b));
    ThreeGroups(ContextGroup(a), VerdictGroup(a), InputGroup(a));
    EraseAppend(ContextCalls(b, a), VerdictCalls(b, a));
    EraseAppend(ContextCalls(b, a) + VerdictCalls(b, a), FileCalls(b, a));
    var cb, vb, ib := Entries(ContextGroup(b)), Entries(VerdictGroup(b)), Entries(InputGroup(b));
    var ca, va, ia := Entries(ContextGroup(a)), Entries(VerdictGroup(a)), Entries(InputGroup(a));
    assert Erase(FileCalls(b, a)) == PairUp(ib, ia);
    assert Erase(ContextCalls(b, a)) == PairUp(cb, ca);
    assert Erase(VerdictCalls(b, a)) == PairUp(vb, va);
    hide Entries, PairUp, Erase;
    PairAppend(cb, ca, vb, va);
    PairAppend(cb + vb, ca + va, ib, ia);
  }

  lemma ThreeGroups(g: Group, h: Group, k: Group)
    ensures Flatten([g, h, k]) == Entries(g) + Entries(h) + Entries(k)
  {
    FlattenAppend([g, h], k);
    FlattenAppend([g], h);
    FlattenAppend([], g);
    assert [] + [g] == [g] && [g] + [h] == [g, h] && [g, h] + [k] == [g, h, k];
  }

  lemma MiddleCalls(b: Artifact, a: Artifact)
    ensures Erase(InputCalls(InputNames(b, a), b, a)) == Middle(ArtifactRecord(b), ArtifactRecord(a), INPUT_FAMILY)
  {
    assert Inputs(b.inputs).Keys == b.inputs.Keys && Inputs(a.inputs).Keys == a.inputs.Keys;
    hide InputChangeCategory, CompareArtifactIdentity, Flatten, HeadGroups, ProducerGroup;
  }

  lemma CallsAreObservations(b: Artifact, a: Artifact)
    requires SameShape(ArtifactRecord(b), ArtifactRecord(a))
    ensures Erase(ArtifactCalls(b, a)) == Observations(ArtifactRecord(b), ArtifactRecord(a), INPUT_FAMILY)
  {
    HeadCalls(b, a);
    MiddleCalls(b, a);
    assert Erase(ProducerCalls(b, a)) == ProducerCalls(b, a);
    hide Erase, ContextCalls, VerdictCalls, FileCalls, InputCalls, Middle, PairUp, Flatten, HeadGroups, ProducerGroup;
    var head := ContextCalls(b, a) + VerdictCalls(b, a) + FileCalls(b, a);
    EraseAppend(head, InputCalls(InputNames(b, a), b, a));
    EraseAppend(head + InputCalls(InputNames(b, a), b, a), ProducerCalls(b, a));
  }

  // ---------------------------------------------------------------------------
  // The keys are pairwise distinct, whatever the input names

  lemma ContextIsGroup(d: Artifact)
    ensures IsGroup(ContextGroup(d))
  {
  }

  lemma VerdictIsGroup(d: Artifact)
    ensures IsGroup(VerdictGroup(d))
  {
  }

  lemma InputIsGroup(d: Artifact)
    ensures IsGroup(InputGroup(d))
  {
    hide FileRefValue;
  }

  lemma ProducerIsGroup(d: Artifact)
    ensures IsGroup(ProducerGroup(d))
  {
  }

  lemma AllGroupsAreGroups(d: Artifact)
    ensures AreGroups(AllGroups(d))
  {
    hide IsGroup, FileRefValue;
    ContextIsGroup(d);
    VerdictIsGroup(d);
    InputIsGroup(d);
    ProducerIsGroup(d);
    assert AllGroups(d) == [ContextGroup(d), VerdictGroup(d), InputGroup(d), ProducerGroup(d)];
  }

  /** No fixed field looks like an input field. */
  lemma FixedIsNoInput(d: Artifact, e: Entry)
    requires e in Flatten(HeadGroups(d)) || e in Entries(ProducerGroup(d))
    ensures '.' !in e.category && (IsInputCategory(e.category) ==> '.' !in e.field)
  {
    ThreeGroups(ContextGroup(d), VerdictGroup(d), InputGroup(d));
    hide Flatten, FileRefValue, FormatInt, IsInputCategory;
    InputOnly();
    if e in Entries(ContextGroup(d)) {
      assert e.category == "context";
    } else if e in Entries(VerdictGroup(d)) {
      assert e.category == "verdict";
    } else if e in Entries(InputGroup(d)) {
      InputFields(d, e);
    } else {
      assert e.category == "producer-report";
    }
  }

  lemma InputOnly()
    ensures !IsInputCategory("context") && !IsInputCategory("verdict") && !IsInputCategory("producer-report")
  {
  }

  lemma InputFields(d: Artifact, e: Entry)
    requires e in Entries(InputGroup(d))
    ensures e.category == "input" && '.' !in e.field
  {
  }

  lemma InputKey(name: string)
    ensures INPUT_FAMILY.Key(name) == StableChangeID(InputChangeCategory(name), "inputs." + name)
    ensures ("inputs." + name)[7..] == name && '.' in "inputs." + name
  {
    assert ("inputs." + name)[6] == '.';
    hide InputChangeCategory;
  }

  lemma ArtifactKeysApart(d: Artifact)
    ensures KeysApart(ArtifactRecord(d), INPUT_FAMILY) && NoNulls(ArtifactRecord(d).keyed)
  {
    var r := ArtifactRecord(d);
    AllGroupsAreGroups(d);
    FlattenDistinct(AllGroups(d));
    FlattenAppend(HeadGroups(d), ProducerGroup(d));
    assert r.head + r.tail == Flatten(AllGroups(d));
    hide AllGroups, HeadGroups, ProducerGroup, Flatten, AreGroups, InputChangeCategory, StableChangeID;
    forall x: string, y: string | INPUT_FAMILY.Key(x) == INPUT_FAMILY.Key(y) ensures x == y {
      InputKey(x);
      InputKey(y);
      InputCategories(x);
      InputCategories(y);
      DotlessKeysAreInjective(InputChangeCategory(x), "inputs." + x, InputChangeCategory(y), "inputs." + y);
    }
    forall e, x: string | e in r.head || e in r.tail ensures e.Key() != INPUT_FAMILY.Key(x) {
      FixedIsNoInput(d, e);
      InputKey(x);
      InputCategories(x);
      if e.Key() == INPUT_FAMILY.Key(x) {
        DotlessKeysAreInjective(e.category, e.field, InputChangeCategory(x), "inputs." + x);
      }
    }
  }

  lemma DescribesErased(obs: seq<Observation>, before: Vector, after: Vector)
    requires DistinctKeys(Erase(obs)) && Describes(Erase(obs), before, after)
    ensures DistinctKeys(obs) && Describes(obs, before, after)
  {
    hide StableChangeID;
    var erased := Erase(obs);
    assert forall i | 0 <= i < |obs| :: obs[i].Key() == erased[i].Key();
    forall o | o in obs ensures Look(before, o.Key()) == o.before && Look(after, o.Key()) == o.after {
      assert o.(identity := "") in erased by {
        var i :| 0 <= i < |obs| && obs[i] == o;
        assert erased[i] in erased;
      }
    }
    forall k | k in before || k in after ensures Mentions(obs, k) {
      var e :| e in erased && e.Key() == k;
      var i :| 0 <= i < |erased| && erased[i] == e;
      assert obs[i] in obs;
    }
  }

  /** The changes between two artifacts have pairwise distinct keys for any input names, and are an exact
  patch from the one artifact to the other. */
  lemma ArtifactComparisonIsExactPatch(b: Artifact, a: Artifact)
    ensures var changes := Difference(ArtifactCalls(b, a));
      && DistinctIDs(changes)
      && Apply(changes, ArtifactVector(b)) == ArtifactVector(a) && Undo(changes, ArtifactVector(a)) == ArtifactVector(b)
      && forall key ::
        (exists c <- changes :: c.id == key) <==> Look(ArtifactVector(b), key) != Look(ArtifactVector(a), key)
  {
    ArtifactKeysApart(b);
    ArtifactKeysApart(a);
    ArtifactShapes(b, a);
    hide ArtifactRecord, KeysApart, SameShape;
    ComparisonIsExactPatch(ArtifactRecord(b), ArtifactRecord(a), INPUT_FAMILY);
    CallsAreObservations(b, a);
    hide ArtifactCalls, Describes, DistinctKeys, Content;
    DescribesErased(ArtifactCalls(b, a), ArtifactVector(b), ArtifactVector(a));
    DifferenceIsExactPatch(ArtifactCalls(b, a), ArtifactVector(b), ArtifactVector(a));
    DifferenceIDs(ArtifactCalls(b, a));
  }

  /** The changes of a comparison of artifacts pass the checks that reports make of their changes. */
  lemma ArtifactChangesAreValid(b: Artifact, a: Artifact)
    ensures AreValidChanges(Difference(ArtifactCalls(b, a)))
  {
    ArtifactComparisonIsExactPatch(b, a);
    hide ArtifactCalls, IsBlank, IsSupportedIdentity, ArtifactVector, Difference, Apply, Undo;
    forall o <- ArtifactCalls(b, a) ensures IsNameable(o) {
      CallIsNameable(b, a, o);
    }
    DifferenceIsValid(ArtifactCalls(b, a));
  }

  lemma CallIsNameable(b: Artifact, a: Artifact, o: Observation)
    requires o in ArtifactCalls(b, a)
    ensures IsNameable(o)
  {
    hide IsBlank, IsSupportedIdentity, AreGroups, CompareArtifactIdentity, InputChangeCategory, FileRefValue;
    if o in InputCalls(InputNames(b, a), b, a) {
      var i :| 0 <= i < |InputNames(b, a)| && InputCalls(InputNames(b, a), b, a)[i] == o;
      InputIsNameable(InputNames(b, a)[i], b, a);
    } else if o in FileCalls(b, a) {
      FileIsNameable(b, a, o);
    } else {
      FixedIsNameable(b, a, o);
    }
  }

  lemma InputIsNameable(name: string, b: Artifact, a: Artifact)
    ensures IsNameable(InputCall(name, b, a))
  {
    InputCategories(name);
    IdentityIsSupported(InputRef(b.inputs, name), InputRef(a.inputs, name));
    VisibleStart("inputs." + name);
    hide InputChangeCategory, IsBlank, IsSupportedIdentity, CompareArtifactIdentity;
    VisibleStart(InputChangeCategory(name));
  }

  lemma FileIsNameable(b: Artifact, a: Artifact, o: Observation)
    requires o in FileCalls(b, a)
    ensures IsNameable(o)
  {
    hide IsBlank, IsSupportedIdentity, CompareArtifactIdentity;
    IdentityIsSupported(b.policy, a.policy);
    IdentityIsSupported(b.policyLock, a.policyLock);
    IdentityIsSupported(b.graph, a.graph);
    IdentityIsSupported(b.baseline, a.baseline);
    VisibleStart(o.category);
    VisibleStart(o.field);
  }

  lemma FixedIsNameable(b: Artifact, a: Artifact, o: Observation)
    requires o in ContextCalls(b, a) || o in VerdictCalls(b, a) || o in ProducerCalls(b, a)
    ensures IsNameable(o)
  {
    hide IsBlank;
    VisibleStart(o.category);
    VisibleStart(o.field);
  }

  // ---------------------------------------------------------------------------
  // The change list of `Compare`

  method AddFileRef(list: ChangeList, category: string, field: string, oldRef: Option<FileRef>, newRef: Option<FileRef>)
    requires list.Valid()
    modifies list
    ensures list.Valid() && list.calls == old(list.calls) + [RefCall(category, field, oldRef, newRef)]
  {
    list.AddWithIdentity(
      category, field, FileRefValue(oldRef), FileRefValue(newRef), CompareArtifactIdentity(oldRef, newRef));
  }

  method AddInput(list: ChangeList, name: string, before: Artifact, after: Artifact)
    requires list.Valid()
    modifies list
    ensures list.Valid() && list.calls == old(list.calls) + [InputCall(name, before, after)]
  {
    hide InputChangeCategory, RefCall;
    var oldRef := if name in before.inputs then Some(before.inputs[name]) else None;
    var newRef := if name in after.inputs then Some(after.inputs[name]) else None;
    AddFileRef(list, InputChangeCategory(name), "inputs." + name, oldRef, newRef);
  }

  method AddInputs(list: ChangeList, names: seq<string>, before: Artifact, after: Artifact)
    requires list.Valid()
    modifies list
    ensures list.Valid() && list.calls == old(list.calls) + InputCalls(names, before, after)
  {
    ghost var base, all := list.calls, InputCalls(names, before, after);
    hide InputCall, Difference;
    for i := 0 to |names|
      invariant list.Valid() && list.calls == base + all[..i]
    {
      AddInput(list, names[i], before, after);
      OneMoreCall(base, all, i);
    }
    assert all[..|names|] == all;
  }

  method AddContext(list: ChangeList, before: Artifact, after: Artifact)
    requires list.Valid()
    modifies list
    ensures list.Valid() && list.calls == old(list.calls) + ContextCalls(before, after) + VerdictCalls(before, after)
  {
    hide StableChangeID, Difference;
    list.Add("context", "tool", J.Str(before.tool), J.Str(after.tool));
    list.Add("context", "kind", J.Str(before.kind), J.Str(after.kind));
    list.Add("context", "source.root", J.Str(before.root), J.Str(after.root));
    list.Add("context", "source.module_path", J.Str(before.modulePath), J.Str(after.modulePath));
    assert list.calls == old(list.calls) + ContextCalls(before, after);
    label Verdict:
    list.Add("verdict", "status", J.Str(before.status), J.Str(after.status));
    list.Add("verdict", "exit_code", J.Number(FormatInt(before.exitCode)), J.Number(FormatInt(after.exitCode)));
    assert list.calls == old@Verdict(list.calls) + VerdictCalls(before, after);
  }

  method AddFiles(list: ChangeList, before: Artifact, after: Artifact)
    requires list.Valid()
    modifies list
    ensures list.Valid() && list.calls == old(list.calls) + FileCalls(before, after)
  {
    hide RefCall;
    AddFileRef(list, "input", "policy", before.policy, after.policy);
    AddFileRef(list, "input", "policy_lock", before.policyLock, after.policyLock);
    AddFileRef(list, "input", "graph", before.graph, after.graph);
    AddFileRef(list, "input", "baseline", before.baseline, after.baseline);
  }

  method AddProducer(list: ChangeList, before: Artifact, after: Artifact)
    requires list.Valid()
    modifies list
    ensures list.Valid() && list.calls == old(list.calls) + ProducerCalls(before, after)
  {
    list.Add("producer-report", "report", before.report, after.report);
    list.Add("producer-report", "explanation", before.explanation, after.explanation);
  }

  method CompareChanges(before: Artifact, after: Artifact) returns (changes: seq<Change>)
    ensures changes == Difference(ArtifactCalls(before, after))
  {
    hide ContextCalls, VerdictCalls, FileCalls, InputCalls, ProducerCalls, SortedSet, Difference;
    var list := new ChangeList();
    AddContext(list, before, after);
    assert list.calls == ContextCalls(before, after) + VerdictCalls(before, after);
    AddFiles(list, before, after);
    var names := SortKeys(before.inputs.Keys + after.inputs.Keys);
    AddInputs(list, names, before, after);
    AddProducer(list, before, after);
    changes := list.changes;
  }

  // ---------------------------------------------------------------------------
  // The whole report

  /** `ExitCodeForStatus`. */
  function ExitCodeForStatus(status: string): Option<int> {
    if status == "passed" then Some(0) else if status == "failed" then Some(1)
    else if status == "error" then Some(2) else None
  }

  predicate AreFileRefs(d: Artifact) {
    && (d.policy.Some? ==> IsFileRef(d.policy.value)) && (d.policyLock.Some? ==> IsFileRef(d.policyLock.value))
    && (d.graph.Some? ==> IsFileRef(d.graph.value)) && (d.baseline.Some? ==> IsFileRef(d.baseline.value))
    && forall name <- d.inputs :: !IsBlank(name) && IsFileRef(d.inputs[name])
  }

  /** What `Artifact.Validate` checks of these fields. */
  predicate IsArtifact(d: Artifact, lib: Library) {
    && !IsBlank(d.tool) && !IsBlank(d.kind)
    && !IsBlank(d.createdAt) && lib.isTime(d.createdAt)
    && !IsBlank(d.root)
    && AreFileRefs(d)
    && ExitCodeForStatus(d.status) == Some(d.exitCode)
  }

  /** What `Comparison.Validate` checks of a side. */
  predicate IsSummary(d: Artifact, lib: Library) {
    && !IsBlank(d.tool) && !IsBlank(d.kind) && !IsBlank(d.status)
    && ExitCodeForStatus(d.status).Some?
    && !IsBlank(d.createdAt) && lib.isTime(d.createdAt)
    && !IsBlank(d.root)
    && AreFileRefs(d)
  }

  /** A side of the report; whether its summary passes is recorded when the report is built. */
  function SideOf(d: Artifact, lib: Library): Side { Side(IsSummary(d, lib), "", "") }

  function ToolReasons(b: Artifact, a: Artifact, lib: Library): seq<string> {
    if b.tool != a.tool then [ChangedFrom("tool", lib.quote(b.tool), lib.quote(a.tool))] else []
  }

  function KindReasons(b: Artifact, a: Artifact, lib: Library): seq<string> {
    if b.kind != a.kind then [ChangedFrom("kind", lib.quote(b.kind), lib.quote(a.kind))] else []
  }

  /** The ids of the comparison of mutation campaigns, if there is one, or why there is none. */
  type Campaign = Result<Option<seq<string>>, string>

  function CampaignWarnings(campaign: Campaign): seq<string> {
    if campaign.Err? then ["mutation campaign detail unavailable: " + campaign.error] else []
  }

  ghost function CompareArtifacts(b: Artifact, a: Artifact, lib: Library, campaign: Campaign): CiReport {
    var reasons := ToolReasons(b, a, lib) + KindReasons(b, a, lib);
    var changes := Difference(ArtifactCalls(b, a));
    CiReport(
      Report(CI_SCHEMA, reasons == [], reasons, SideOf(b, lib), SideOf(a, lib),
        NewStateTransition("status", b.status, a.status, reasons == []), [], changes, Summarize(changes)),
      CampaignWarnings(campaign), if campaign.Ok? then campaign.value else None)
  }

  /** `Compare`, given what comparing the mutation campaigns gave. */
  method Compare(before: Artifact, after: Artifact, lib: Library, campaign: Campaign) returns (report: CiReport)
    ensures report == CompareArtifacts(before, after, lib, campaign)
  {
    hide ChangedFrom, SideOf, Difference, ArtifactCalls, Summarize;
    var reasons: seq<string> := [];
    if before.tool != after.tool {
      reasons := reasons + [ChangedFrom("tool", lib.quote(before.tool), lib.quote(after.tool))];
    }
    if before.kind != after.kind {
      reasons := reasons + [ChangedFrom("kind", lib.quote(before.kind), lib.quote(after.kind))];
    }
    var compatible := |reasons| == 0;
    var transition := NewStateTransition("status", before.status, after.status, compatible);
    var changes := CompareChanges(before, after);
    var warnings: seq<string> := [];
    var detail: Option<seq<string>> := None;
    match campaign {
      case Ok(ids) => detail := ids;
      case Err(error) => warnings := warnings + ["mutation campaign detail unavailable: " + error];
    }
    var summary := SummarizeChanges(changes);
    report := CiReport(
      Report(CI_SCHEMA, compatible, reasons, SideOf(before, lib), SideOf(after, lib), transition, [], changes, summary),
      warnings, detail);
  }

  lemma ReasonsAreVisible(b: Artifact, a: Artifact, lib: Library)
    ensures NoBlanks(ToolReasons(b, a, lib) + KindReasons(b, a, lib))
  {
    hide ChangedFrom, IsBlank;
    OneReason(b.tool != a.tool, "tool", lib.quote(b.tool), lib.quote(a.tool));
    OneReason(b.kind != a.kind, "kind", lib.quote(b.kind), lib.quote(a.kind));
    TwoReasons(ToolReasons(b, a, lib), KindReasons(b, a, lib));
  }

  lemma WarningsAreVisible(campaign: Campaign)
    ensures NoBlanks(CampaignWarnings(campaign))
  {
    hide IsBlank;
    if campaign.Err? {
      VisibleStart("mutation campaign detail unavailable: " + campaign.error);
    }
  }

  lemma ValidStatus(status: string)
    requires ExitCodeForStatus(status).Some?
    ensures !IsBlank(status) && status != ""
  {
    hide IsBlank;
    VisibleStart(status);
  }

  /** The comparison of two valid results always passes the validator of comparisons, and what a bundle
  checks beyond it. */
  lemma ComparisonIsValid(b: Artifact, a: Artifact, lib: Library, campaign: Campaign)
    requires IsArtifact(b, lib) && IsArtifact(a, lib)
    ensures IsCiReport(CompareArtifacts(b, a, lib, campaign))
  {
    hide IsBlank, NoBlanks, ArtifactCalls, Difference, Summarize, IsEnvelope, AreFileRefs, ExitCodeForStatus;
    hide ToolReasons, KindReasons, CampaignWarnings, AreValidChanges;
    ValidStatus(b.status);
    ValidStatus(a.status);
    ReasonsAreVisible(b, a, lib);
    WarningsAreVisible(campaign);
    ArtifactChangesAreValid(b, a);
    var reasons := ToolReasons(b, a, lib) + KindReasons(b, a, lib);
    BuiltEnvelope(CI_SCHEMA, reasons, SideOf(b, lib), SideOf(a, lib),
      NewStateTransition("status", b.status, a.status, reasons == []), Difference(ArtifactCalls(b, a)),
      CampaignWarnings(campaign));
  }
}
