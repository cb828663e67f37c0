/** Comparing two Nublar collection runs. */
module NublarRun {
  import opened Text
  import opened StringOrder
  import opened Changes
  import opened Diff
  import opened Records
  import opened Reports
  import opened ReportBuilding
  import opened FileRefs
  import opened NublarDocument
  import J = Json

  function CorrelationValue(c: Option<RunCorrelation>): Value {
    if c.None? then J.Null
    else J.Obj([J.Member("system", J.Str(c.value.system)), J.Member("id", J.Str(c.value.id)),
      J.Member("attempt", J.Number(FormatInt(c.value.attempt)))])
  }

  /** A check summary as a JSON value; an empty reason is left out. */
  function CheckValue(c: CheckSummary): Value {
    J.Obj([J.Member("tool", J.Str(c.tool)), J.Member("required", J.Bool(c.required)),
      J.Member("status", J.Str(c.status))]
      + if c.reason == "" then [] else [J.Member("reason", J.Str(c.reason))])
  }

  /** The checks of a summary as JSON values. */
  function CheckValues(checks: map<string, CheckSummary>): Vector { map id | id in checks :: CheckValue(checks[id]) }

  function ContextGroup(d: Document): Group {
    Group("context", [Named("workflow.id", J.Str(d.workflow.id)),
      Named("workflow.file", FileRefValue(Some(d.workflow.file))),
      Named("correlation", CorrelationValue(d.correlation))])
  }

  function VerdictGroup(d: Document): Group {
    Group("verdict", [Named("status", J.Str(d.status)),
      Named("exit_code", J.Number(FormatInt(d.exitCode)))])
  }

  function RunGroups(d: Document): seq<Group> { [ContextGroup(d), VerdictGroup(d)] }

  const CHECK_FAMILY := Family((id: string) => "check", (id: string) => "checks." + id)

  function RunRecord(d: Document): Record { Record(Flatten(RunGroups(d)), CheckValues(CheckMap(d.checks)), []) }

  /** What a run holds, field by field, under the stable keys. */
  ghost function RunVector(d: Document): Vector { VectorOf(Content(RunRecord(d), CHECK_FAMILY)) }

  ghost function RunObservations(b: Document, a: Document): seq<Observation> {
    RunShapes(b, a);
    Observations(RunRecord(b), RunRecord(a), CHECK_FAMILY)
  }

  lemma RunShapes(b: Document, a: Document)
    ensures Matching(RunGroups(b), RunGroups(a)) && SameShape(RunRecord(b), RunRecord(a))
  {
    var gs, hs := RunGroups(b), RunGroups(a);
    assert SameNames(gs[0], hs[0]) && SameNames(gs[1], hs[1]);
    hide Flatten;
    FlattenSameShape(gs, hs);
  }

  lemma RunGroupsAreGroups(d: Document)
    ensures AreGroups(RunGroups(d)) && forall g <- RunGroups(d) :: g.category != "check"
  {
    assert IsGroup(ContextGroup(d));
    assert IsGroup(VerdictGroup(d));
    hide IsGroup;
  }

  lemma CheckKeyText(id: string)
    ensures CHECK_FAMILY.Key(id) == StableChangeID("check", "checks." + id)
    ensures ("checks." + id)[7..] == id
  {
  }

  lemma RunKeysApart(d: Document)
    ensures KeysApart(RunRecord(d), CHECK_FAMILY) && NoNulls(RunRecord(d).keyed)
  {
    RunGroupsAreGroups(d);
    FlattenDistinct(RunGroups(d));
    assert NoNulls(RunRecord(d).keyed);
    hide RunGroups, Flatten, AreGroups, StableChangeID;
    var r := RunRecord(d);
    assert r.head + r.tail == r.head;
    forall x: string, y: string | CHECK_FAMILY.Key(x) == CHECK_FAMILY.Key(y) ensures x == y {
      CheckKeyText(x);
      CheckKeyText(y);
      DotlessKeysAreInjective("check", "checks." + x, "check", "checks." + y);
    }
    forall e, x: string | e in r.head ensures e.Key() != CHECK_FAMILY.Key(x) {
      assert HasCategory(RunGroups(d), e.category);
      CheckKeyText(x);
      if e.Key() == CHECK_FAMILY.Key(x) {
        DotlessKeysAreInjective(e.category, e.field, "check", "checks." + x);
      }
    }
  }

  /** The changes between two runs: their keys are pairwise distinct, they name exactly the fields that
  differ, applying them to the first run gives the second, and undoing them goes back. */
  lemma RunComparisonIsExactPatch(b: Document, a: Document)
    ensures var changes := Difference(RunObservations(b, a));
      && DistinctIDs(changes)
      && Apply(changes, RunVector(b)) == RunVector(a) && Undo(changes, RunVector(a)) == RunVector(b)
      && forall key :: (exists c <- changes :: c.id == key) <==> Look(RunVector(b), key) != Look(RunVector(a), key)
  {
    RunKeysApart(b);
    RunKeysApart(a);
    RunShapes(b, a);
    ComparisonIsExactPatch(RunRecord(b), RunRecord(a), CHECK_FAMILY);
  }

  /** Swapping the runs swaps the two values of every change and keeps keys and order. */
  lemma RunComparisonSwaps(b: Document, a: Document)
    ensures Difference(RunObservations(a, b)) == SwapChanges(Difference(RunObservations(b, a)))
  {
    RunShapes(b, a);
    ObservationsSwapped(RunRecord(b), RunRecord(a), CHECK_FAMILY);
  }

  // ---------------------------------------------------------------------------
  // The comparison

  const NUBLAR_SCHEMA := "ingen.sattler-nublar-run-comparison/v0"

  /** Why two runs cannot be compared. */
  function Incompatibilities(b: Document, a: Document, lib: Library): seq<string> {
    if b.workflow.id != a.workflow.id
    then [ChangedFrom("workflow id", lib.quote(b.workflow.id), lib.quote(a.workflow.id))] else []
  }

  ghost function CompareRuns(before: RunFile, after: RunFile, lib: Library): Report {
    var b, a := before.document, after.document;
    var reasons := Incompatibilities(b, a, lib);
    var changes := Difference(RunObservations(b, a));
    Report(NUBLAR_SCHEMA, reasons == [], reasons, SideOf(before, lib), SideOf(after, lib),
      NewStateTransition("status", b.status, a.status, reasons == []), [], changes, Summarize(changes))
  }

  method AddFixedFields(list: ChangeList, b: Document, a: Document)
    requires list.Valid() && list.changes == []
    modifies list
    ensures list.Valid() && list.changes == GroupChanges(RunGroups(b), RunGroups(a), 2)
  {
    ghost var context, verdict := FieldPairs(b, a);
    hide Difference, ContextGroup, VerdictGroup, StableChangeID;
    ghost var base := list.calls;
    list.Add("context", "workflow.id", J.Str(b.workflow.id), J.Str(a.workflow.id));
    list.Add("context", "workflow.file", FileRefValue(Some(b.workflow.file)), FileRefValue(Some(a.workflow.file)));
    list.Add("context", "correlation", CorrelationValue(b.correlation), CorrelationValue(a.correlation));
    ThreeCalls(base, context[0], context[1], context[2]);
    base := list.calls;
    list.Add("verdict", "status", J.Str(b.status), J.Str(a.status));
    list.Add("verdict", "exit_code", J.Number(FormatInt(b.exitCode)), J.Number(FormatInt(a.exitCode)));
    TwoCalls(base, verdict[0], verdict[1]);
    GroupStep(RunGroups(b), RunGroups(a), 1);
    GroupStep(RunGroups(b), RunGroups(a), 2);
  }

  lemma FieldPairs(b: Document, a: Document) returns (context: seq<Observation>, verdict: seq<Observation>)
    ensures context == [Observation("context", "workflow.id", J.Str(b.workflow.id), J.Str(a.workflow.id), ""),
      Observation("context", "workflow.file", FileRefValue(Some(b.workflow.file)),
        FileRefValue(Some(a.workflow.file)), ""),
      Observation("context", "correlation", CorrelationValue(b.correlation), CorrelationValue(a.correlation), "")]
    ensures verdict == [Observation("verdict", "status", J.Str(b.status), J.Str(a.status), ""),
      Observation("verdict", "exit_code", J.Number(FormatInt(b.exitCode)), J.Number(FormatInt(a.exitCode)), "")]
    ensures GroupDifference(ContextGroup(b), ContextGroup(a)) == Difference(context)
    ensures GroupDifference(VerdictGroup(b), VerdictGroup(a)) == Difference(verdict)
  {
    hide Difference;
    context := PairUp(Entries(ContextGroup(b)), Entries(ContextGroup(a)));
    verdict := PairUp(Entries(VerdictGroup(b)), Entries(VerdictGroup(a)));
  }

  lemma ObservedInOrder(b: Document, a: Document)
    ensures var bc, ac := CheckValues(CheckMap(b.checks)), CheckValues(CheckMap(a.checks));
      var ids := SortedSet(bc.Keys + ac.Keys);
      Difference(RunObservations(b, a)) == GroupChanges(RunGroups(b), RunGroups(a), 2)
        + Difference(PairUp(KeyedEntries(ids, bc, CHECK_FAMILY), KeyedEntries(ids, ac, CHECK_FAMILY)))
  {
    hide CheckMap, CheckValues, Difference, KeyedEntries;
    var gs, hs := RunGroups(b), RunGroups(a);
    RunShapes(b, a);
    GroupByGroup(gs, hs, 2);
    assert gs[..2] == gs && hs[..2] == hs;
    HeadThenMiddle(b, a);
    DifferenceAppend(PairUp(Flatten(gs), Flatten(hs)), Middle(RunRecord(b), RunRecord(a), CHECK_FAMILY));
  }

  lemma HeadThenMiddle(b: Document, a: Document)
    requires |Flatten(RunGroups(b))| == |Flatten(RunGroups(a))|
    ensures RunObservations(b, a)
         == PairUp(Flatten(RunGroups(b)), Flatten(RunGroups(a))) + Middle(RunRecord(b), RunRecord(a), CHECK_FAMILY)
  {
    assert PairUp([], []) == [];
    hide PairUp, Flatten, Middle, RunGroups;
  }

  method CompareNublarRuns(before: RunFile, after: RunFile, lib: Library) returns (comparison: Report)
    ensures comparison == CompareRuns(before, after, lib)
  {
    hide Difference, RunGroups, GroupChanges, SortedSet, CheckMap, Summarize, RunObservations, KeyedEntries, PairUp;
    hide SideOf;
    var b, a := before.document, after.document;
    var beforeChecks := SummarizeChecks(b.checks);
    var afterChecks := SummarizeChecks(a.checks);
    var reasons: seq<string> := [];
    if b.workflow.id != a.workflow.id {
      reasons := reasons + [ChangedFrom("workflow id", lib.quote(b.workflow.id), lib.quote(a.workflow.id))];
    }
    var compatible := |reasons| == 0;
    var transition := NewStateTransition("status", b.status, a.status, compatible);
    var list := new ChangeList();
    NoCalls();
    AddFixedFields(list, b, a);
    var beforeValues, afterValues := CheckValues(beforeChecks), CheckValues(afterChecks);
    var checkIDs := SortKeys(beforeValues.Keys + afterValues.Keys);
    AddKeyed(list, checkIDs, beforeValues, afterValues, CHECK_FAMILY);
    ObservedInOrder(b, a);
    var summary := SummarizeChanges(list.changes);
    comparison := Report(
      NUBLAR_SCHEMA, compatible, reasons, SideOf(before, lib), SideOf(after, lib), transition, [], list.changes,
      summary);
  }

  lemma NoCalls()
    ensures Difference([]) == []
  {
  }

  // ---------------------------------------------------------------------------
  // The report and its own validator

  /** `NublarRunComparison.Validate`. */
  ghost predicate IsNublarReport(r: Report) { IsStatusReport(r, NUBLAR_SCHEMA) }

  /** What a caller can check on a loaded document for its summary to pass. */
  predicate IsPresentable(f: RunFile, lib: Library) {
    var d := f.document;
    && IsPath(f.path)
    && !IsBlank(d.status) && d.exitCode >= 0
    && IsHexDigest(d.workflow.file.sha256)
    && (d.createdAt != "" ==> lib.isTime(d.createdAt)) && (d.completedAt != "" ==> lib.isTime(d.completedAt))
    && forall c <- d.checks :: !IsBlank(c.tool) && !IsBlank(c.status)
  }

  /** The map holds summaries of listed checks only, */
  lemma {:induction false} CheckListed(checks: seq<Check>, id: string) returns (c: Check)
    requires id in CheckMap(checks)
    ensures c in checks && c.id == id && CheckMap(checks)[id] == SummaryOfCheck(c)
  {
    hide SummaryOfCheck;
    var front, last := checks[..|checks| - 1], checks[|checks| - 1];
    if last.id == id {
      c := last;
    } else {
      c := CheckListed(front, id);
    }
  }

  /** and with distinct ids the summary of every check. */
  lemma {:induction false} CheckHeld(checks: seq<Check>, i: nat)
    requires DistinctCheckIds(checks) && i < |checks|
    ensures checks[i].id in CheckMap(checks) && CheckMap(checks)[checks[i].id] == SummaryOfCheck(checks[i])
  {
    hide SummaryOfCheck;
    if i < |checks| - 1 {
      CheckHeld(checks[..|checks| - 1], i);
    }
  }

  lemma ChecksPass(checks: seq<Check>)
    requires DistinctCheckIds(checks) && forall c <- checks :: !IsBlank(c.id)
    ensures (forall id <- CheckMap(checks) :: IsCheck(id, CheckMap(checks)[id]))
      <==> forall c <- checks :: !IsBlank(c.tool) && !IsBlank(c.status)
    ensures checks != [] ==> CheckMap(checks) != map[]
  {
    hide CheckMap, IsBlank, DistinctCheckIds;
    var m := CheckMap(checks);
    if forall c <- checks :: !IsBlank(c.tool) && !IsBlank(c.status) {
      forall id <- m ensures IsCheck(id, m[id]) {
        var c := CheckListed(checks, id);
      }
    }
    if forall id <- m :: IsCheck(id, m[id]) {
      forall i | 0 <= i < |checks| ensures !IsBlank(checks[i].tool) && !IsBlank(checks[i].status) {
        CheckHeld(checks, i);
        assert IsCheck(checks[i].id, m[checks[i].id]);
      }
    }
    if checks != [] {
      CheckHeld(checks, 0);
    }
  }

  /** The validator of summaries asks more than the loader: exactly this much more. */
  lemma SummaryPasses(f: RunFile, lib: Library)
    requires IsLoaded(f.document)
    ensures IsSummary(SummaryOf(f), lib) <==> IsPresentable(f, lib)
  {
    VisibleIsGiven(f.document.workflow.file.sha256);
    hide CheckMap, IsBlank, IsHexDigest, IsCheck, DistinctCheckIds, IsPath, IsCorrelation;
    ChecksPass(f.document.checks);
  }

  lemma ChangesAreValid(b: Document, a: Document)
    ensures AreValidChanges(Difference(RunObservations(b, a)))
  {
    RunComparisonIsExactPatch(b, a);
    RunShapes(b, a);
    RunGroupsAreGroups(b);
    GroupsAreNameable(RunGroups(b));
    hide RunGroups, RunVector, Apply, Undo, AreGroups, IsNameableEntry, IsNameable, CheckValues, Difference;
    forall id: string ensures !IsBlank(CHECK_FAMILY.category(id)) && !IsBlank(CHECK_FAMILY.field(id)) {
      VisibleStart("check");
      VisibleStart("checks." + id);
    }
    ObservationsAreNameable(RunRecord(b), RunRecord(a), CHECK_FAMILY);
    DifferenceIsValid(RunObservations(b, a));
  }

  /** The comparison of two loaded runs passes the validator of comparisons exactly when both can be shown. */
  lemma ComparisonIsValid(before: RunFile, after: RunFile, lib: Library)
    requires IsLoaded(before.document) && IsLoaded(after.document)
    ensures IsNublarReport(CompareRuns(before, after, lib)) <==> IsPresentable(before, lib) && IsPresentable(after, lib)
  {
    hide RunObservations, Difference, IsEnvelope, Summarize, IsSummary, SummaryOf, IsBlank, IsHexDigest, NoBlanks;
    hide IsPresentable, IsLoaded, StartsVisibly, Incompatibilities, AreValidChanges, IsValidTransition;
    var b, a := before.document, after.document;
    var reasons := Incompatibilities(b, a, lib);
    SummaryPasses(before, lib);
    SummaryPasses(after, lib);
    ChangesAreValid(b, a);
    ReasonsAreVisible(b, a, lib);
    NoTexts();
    PresentableTransition(before, after, lib, reasons == []);
    BuiltEnvelope(NUBLAR_SCHEMA, reasons, SideOf(before, lib), SideOf(after, lib),
      NewStateTransition("status", b.status, a.status, reasons == []), Difference(RunObservations(b, a)), []);
  }

  lemma ReasonsAreVisible(b: Document, a: Document, lib: Library)
    ensures NoBlanks(Incompatibilities(b, a, lib))
  {
    OneReason(b.workflow.id != a.workflow.id, "workflow id", lib.quote(b.workflow.id), lib.quote(a.workflow.id));
  }

  lemma PresentableTransition(before: RunFile, after: RunFile, lib: Library, compatible: bool)
    ensures IsPresentable(before, lib) && IsPresentable(after, lib)
      ==> IsValidTransition(NewStateTransition("status", before.document.status, after.document.status, compatible))
  {
    hide IsBlank, IsHexDigest, IsPath;
    VisibleIsGiven(before.document.status);
    VisibleIsGiven(after.document.status);
  }

  lemma VisibleIsGiven(s: string)
    ensures s == "" ==> IsBlank(s)
  {
  }

  /** A run whose one check has no tool. */
  function RunWithoutTool(digest: string): RunFile {
    RunFile("", Document(RUN_SCHEMA, "run", Workflow("workflow", FileRef("path", digest)), None, "passed", 0, "", "",
      [Check("check", "", true, "passed", "")]))
  }

  /** It loads, and its comparison with itself, or with any other loaded run, is refused. */
  lemma CheckWithoutTool(digest: string, other: RunFile, lib: Library)
    requires !IsBlank(digest) && IsLoaded(other.document)
    ensures IsLoaded(RunWithoutTool(digest).document)
    ensures !IsNublarReport(CompareRuns(RunWithoutTool(digest), other, lib))
  {
    hide CompareRuns, IsNublarReport, IsLoaded, IsHexDigest;
    var f := RunWithoutTool(digest);
    assert IsBlank("");
    assert f.document.checks[0] in f.document.checks;
    assert !IsPresentable(f, lib);
    RunLoads(digest);
    ComparisonIsValid(f, other, lib);
  }

  lemma RunLoads(digest: string)
    requires !IsBlank(digest)
    ensures IsLoaded(RunWithoutTool(digest).document)
  {
    hide IsBlank;
    VisibleStart("run");
    VisibleStart("workflow");
    VisibleStart("path");
    VisibleStart("check");
  }
}
