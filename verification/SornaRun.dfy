/** Comparing two Sorna runs. */
module SornaRun {
  import opened Text
  import opened StringOrder
  import opened Changes
  import opened Diff
  import opened Records
  import opened Reports
  import opened ReportBuilding
  import opened SornaDocument
  import J = Json

  // ---------------------------------------------------------------------------
  // Compared values

  function Number(lexeme: string): Value { J.Number(lexeme) }

  function Str(text: string): Value { J.Str(text) }

  function OracleValue(o: Option<Oracle>): Value {
    if o.None? then J.Null
    else J.Obj([J.Member("schema", Str(o.value.schema)), J.Member("sha256", Str(o.value.sha256))])
  }

  // Absent parts read as empty strings, an absent exit code as null

  function LifecycleMode(d: Document): Value { Str(if d.lifecycle.Some? then d.lifecycle.value.mode else "") }

  function LifecycleOutcome(d: Document): Value { Str(if d.lifecycle.Some? then d.lifecycle.value.outcome else "") }

  function LifecycleExitCode(d: Document): Value {
    if d.lifecycle.Some? then Number(FormatInt(d.lifecycle.value.exitCode)) else J.Null
  }

  function MutationId(d: Document): Value { Str(if d.mutation.Some? then d.mutation.value.id else "") }

  function MutationOutcome(d: Document): Value { Str(if d.mutation.Some? then d.mutation.value.outcome else "") }

  // ---------------------------------------------------------------------------
  // The compared fields

  function ContractGroup(d: Document): Group {
    Group("contract", [Named("id", Str(d.contract.id)),
      Named("version", Number(FormatInt(d.contract.version))),
      Named("sha256", Str(d.contract.sha256))])
  }

  function ContextGroup(d: Document): Group {
    Group("context", [Named("oracle", OracleValue(d.oracle)),
      Named("subject.adapter", Str(d.subject.adapter)),
      Named("subject.variant", Str(d.subject.variant))])
  }

  function VerdictGroup(d: Document): Group {
    Group("verdict", [Named("status", Str(d.verdict.status)),
      Named("reason", Str(d.verdict.reason))])
  }

  function TotalsGroup(d: Document): Group {
    Group("summary", [Named("passed", Number(FormatInt(d.totals.passed))),
      Named("failed", Number(FormatInt(d.totals.failed))),
      Named("errors", Number(FormatInt(d.totals.errors))),
      Named("inconclusive", Number(FormatInt(d.totals.inconclusive))),
      Named("skipped", Number(FormatInt(d.totals.skipped)))])
  }

  function AssuranceGroup(d: Document): Group {
    Group("assurance", [Named("level", Number(FormatInt(d.assurance.level))),
      Named("status", Str(d.assurance.status)),
      Named("observation_coverage", Str(d.assurance.observationCoverage))])
  }

  function LifecycleGroup(d: Document): Group {
    Group("lifecycle", [Named("mode", LifecycleMode(d)),
      Named("outcome", LifecycleOutcome(d)),
      Named("exit_code", LifecycleExitCode(d))])
  }

  function MutationGroup(d: Document): Group {
    Group("mutation", [Named("id", MutationId(d)),
      Named("outcome", MutationOutcome(d))])
  }

  function RunGroups(d: Document): seq<Group> {
    [ContractGroup(d), ContextGroup(d), VerdictGroup(d), TotalsGroup(d), AssuranceGroup(d), LifecycleGroup(d),
      MutationGroup(d)]
  }

  function FixedFields(d: Document): seq<Entry> { Flatten(RunGroups(d)) }

  function Statuses(rules: map<string, Rule>): Vector { map id | id in rules :: Str(rules[id].status) }

  const RULE_FAMILY := Family((id: string) => RULES + id, (id: string) => "status")

  function RunRecord(d: Document): Record { Record(FixedFields(d), Statuses(RuleMap(d.rules)), []) }

  /** What a run holds, field by field, under the stable keys. */
  ghost function RunVector(d: Document): Vector { VectorOf(Content(RunRecord(d), RULE_FAMILY)) }

  ghost function RunObservations(b: Document, a: Document): seq<Observation> {
    RunShapes(b, a);
    Observations(RunRecord(b), RunRecord(a), RULE_FAMILY)
  }

  // ---------------------------------------------------------------------------
  // The keys are pairwise distinct, whatever the rule ids

  lemma ContractIsGroup(d: Document, e: Document)
    ensures IsGroup(ContractGroup(d)) && ContractGroup(d).category != "rules"
    ensures SameNames(ContractGroup(d), ContractGroup(e))
  {
    hide FormatInt, Number, Str;
  }

  lemma ContextIsGroup(d: Document, e: Document)
    ensures IsGroup(ContextGroup(d)) && ContextGroup(d).category != "rules"
    ensures SameNames(ContextGroup(d), ContextGroup(e))
  {
    hide FormatInt, Number, Str, OracleValue;
  }

  lemma VerdictIsGroup(d: Document, e: Document)
    ensures IsGroup(VerdictGroup(d)) && VerdictGroup(d).category != "rules"
    ensures SameNames(VerdictGroup(d), VerdictGroup(e))
  {
    hide FormatInt, Number, Str;
  }

  lemma TotalsIsGroup(d: Document, e: Document)
    ensures IsGroup(TotalsGroup(d)) && TotalsGroup(d).category != "rules"
    ensures SameNames(TotalsGroup(d), TotalsGroup(e))
  {
    hide FormatInt, Number, Str, IsGroup, IsNameChar;
    TotalsNamesDiffer(TotalsGroup(d));
    assert SameNames(TotalsGroup(d), TotalsGroup(e));
  }

  lemma TotalsNamesDiffer(g: Group)
    requires g.category == "summary" && |g.fields| == 5
    requires g.fields[0].name == "passed" && g.fields[1].name == "failed" && g.fields[2].name == "errors"
    requires g.fields[3].name == "inconclusive" && g.fields[4].name == "skipped"
    ensures IsGroup(g)
  {
  }

  lemma AssuranceIsGroup(d: Document, e: Document)
    ensures IsGroup(AssuranceGroup(d)) && AssuranceGroup(d).category != "rules"
    ensures SameNames(AssuranceGroup(d), AssuranceGroup(e))
  {
    hide FormatInt, Number, Str;
  }

  lemma LifecycleIsGroup(d: Document, e: Document)
    ensures IsGroup(LifecycleGroup(d)) && LifecycleGroup(d).category != "rules"
    ensures SameNames(LifecycleGroup(d), LifecycleGroup(e))
  {
    hide FormatInt, Number, Str, LifecycleMode, LifecycleOutcome, LifecycleExitCode;
  }

  lemma MutationIsGroup(d: Document, e: Document)
    ensures IsGroup(MutationGroup(d)) && MutationGroup(d).category != "rules"
    ensures SameNames(MutationGroup(d), MutationGroup(e))
  {
    hide FormatInt, Number, Str, MutationId, MutationOutcome;
  }

  lemma RunGroupsAreGroups(d: Document)
    ensures AreGroups(RunGroups(d)) && forall g <- RunGroups(d) :: g.category != "rules"
  {
    ContractIsGroup(d, d);
    ContextIsGroup(d, d);
    VerdictIsGroup(d, d);
    TotalsIsGroup(d, d);
    AssuranceIsGroup(d, d);
    LifecycleIsGroup(d, d);
    MutationIsGroup(d, d);
    CategoriesDiffer(d);
    hide IsGroup, SameNames, ContractGroup, ContextGroup, VerdictGroup, TotalsGroup, AssuranceGroup, LifecycleGroup;
    hide MutationGroup;
  }

  lemma CategoriesDiffer(d: Document)
    ensures forall i, j | 0 <= i < j < |RunGroups(d)| :: RunGroups(d)[i].category != RunGroups(d)[j].category
  {
    hide FormatInt, Number, Str, LifecycleMode, LifecycleOutcome, LifecycleExitCode, MutationId, MutationOutcome;
    hide OracleValue;
  }

  lemma {:induction false} StripRules(id: string)
    ensures StripPrefix(RULES + id, RULES) == Some(id)
  {
  }

  lemma RuleKeyText(id: string)
    ensures RULE_FAMILY.Key(id) == StableChangeID("rules", id + ".status")
  {
  }

  lemma RuleKeysDiffer(x: string, y: string)
    requires RULE_FAMILY.Key(x) == RULE_FAMILY.Key(y)
    ensures x == y
  {
    assert '.' !in "rules";
    hide StableChangeID;
    RuleKeyText(x);
    RuleKeyText(y);
    DotlessKeysAreInjective("rules", x + ".status", "rules", y + ".status");
    assert x == (x + ".status")[..|x + ".status"| - 7] && y == (y + ".status")[..|y + ".status"| - 7];
  }

  lemma FixedCategory(d: Document, e: Entry)
    requires e in FixedFields(d)
    ensures '.' !in e.category && e.category != "rules"
  {
    RunGroupsAreGroups(d);
    FlattenDistinct(RunGroups(d));
    hide RunGroups, Flatten, AreGroups, DistinctEntries, StartsVisibly;
    assert HasCategory(RunGroups(d), e.category);
  }

  lemma FixedKeyIsNoRule(d: Document, e: Entry, x: string)
    requires e in FixedFields(d)
    ensures e.Key() != RULE_FAMILY.Key(x)
  {
    hide FixedFields, StableChangeID;
    FixedCategory(d, e);
    RuleKeyText(x);
    if e.Key() == RULE_FAMILY.Key(x) {
      DotlessKeysAreInjective(e.category, e.field, "rules", x + ".status");
    }
  }

  lemma StatusesAreNotNull(rules: map<string, Rule>)
    ensures NoNulls(Statuses(rules))
  {
  }

  lemma RunKeysApart(d: Document)
    ensures KeysApart(RunRecord(d), RULE_FAMILY) && NoNulls(RunRecord(d).keyed)
  {
    RunGroupsAreGroups(d);
    FlattenDistinct(RunGroups(d));
    StatusesAreNotNull(RuleMap(d.rules));
    hide RunGroups, Flatten, AreGroups, StableChangeID, RuleMap, RULE_FAMILY, Statuses, NoNulls, DistinctEntries;
    var r := RunRecord(d);
    assert r.head + r.tail == r.head;
    forall x: string, y: string | RULE_FAMILY.Key(x) == RULE_FAMILY.Key(y) ensures x == y {
      RuleKeysDiffer(x, y);
    }
    forall e, x: string | e in r.head ensures e.Key() != RULE_FAMILY.Key(x) {
      FixedKeyIsNoRule(d, e, x);
    }
  }

  lemma RunGroupsMatching(b: Document, a: Document)
    ensures Matching(RunGroups(b), RunGroups(a))
  {
    ContractIsGroup(b, a);
    ContextIsGroup(b, a);
    VerdictIsGroup(b, a);
    TotalsIsGroup(b, a);
    AssuranceIsGroup(b, a);
    LifecycleIsGroup(b, a);
    MutationIsGroup(b, a);
    hide IsGroup, SameNames, ContractGroup, ContextGroup, VerdictGroup, TotalsGroup, AssuranceGroup, LifecycleGroup;
    hide MutationGroup;
  }

  lemma RunShapes(b: Document, a: Document)
    ensures SameShape(RunRecord(b), RunRecord(a))
  {
    RunGroupsMatching(b, a);
    hide RunGroups, Flatten;
    FlattenSameShape(RunGroups(b), RunGroups(a));
  }

  /** The changes between two runs: their keys are pairwise distinct, they name exactly the fields that
  differ, applying them to the first run gives the second, and undoing them goes back. */
  lemma RunComparisonIsExactPatch(b: Document, a: Document)
    ensures var changes := Difference(RunObservations(b, a));
      && DistinctIDs(changes)
      && Apply(changes, RunVector(b)) == RunVector(a) && Undo(changes, RunVector(a)) == RunVector(b)
      && forall key :: (exists c <- changes :: c.id == key) <==> Look(RunVector(b), key) != Look(RunVector(a), key)
  {
    RunKeysApart(b);
    RunKeysApart(a);
    RunShapes(b, a);
    ComparisonIsExactPatch(RunRecord(b), RunRecord(a), RULE_FAMILY);
  }

  /** Swapping the runs swaps the two values of every change and keeps keys and order. */
  lemma RunComparisonSwaps(b: Document, a: Document)
    ensures Difference(RunObservations(a, b)) == SwapChanges(Difference(RunObservations(b, a)))
  {
    RunShapes(b, a);
    ObservationsSwapped(RunRecord(b), RunRecord(a), RULE_FAMILY);
  }

  // ---------------------------------------------------------------------------
  // The comparison

  predicate LooksChanged(before: map<string, Rule>, after: map<string, Rule>, id: string) {
    Look(Statuses(before), id) != Look(Statuses(after), id)
  }

  function StatusText(rules: map<string, Rule>, id: string): string { if id in rules then rules[id].status else "" }

  /** The rules among `ids` whose status differs, in order. */
  function ChangedRules(ids: seq<string>, before: map<string, Rule>, after: map<string, Rule>): seq<RuleStatusChange> {
    if ids == [] then []
    else
      var id := ids[|ids| - 1];
      ChangedRules(ids[..|ids| - 1], before, after)
      + if LooksChanged(before, after, id)
        then [RuleStatusChange(id, StatusText(before, id), StatusText(after, id))] else []
  }

  ghost function RunRuleIds(b: Document, a: Document): seq<string> {
    SortedSet(RuleMap(b.rules).Keys + RuleMap(a.rules).Keys)
  }

  method AddContract(list: ChangeList, b: Document, a: Document)
    requires list.Valid()
    modifies list
    ensures list.Valid()
    ensures list.changes == old(list.changes) + GroupDifference(ContractGroup(b), ContractGroup(a))
  {
    ghost var pairs := ContractPairs(b, a);
    hide Difference, ContractGroup, StableChangeID;
    list.Add("contract", "id", Str(b.contract.id), Str(a.contract.id));
    list.Add("contract", "version", Number(FormatInt(b.contract.version)), Number(FormatInt(a.contract.version)));
    list.Add("contract", "sha256", Str(b.contract.sha256), Str(a.contract.sha256));
    ThreeCalls(old(list.calls), pairs[0], pairs[1], pairs[2]);
  }

  lemma ContractPairs(b: Document, a: Document) returns (pairs: seq<Observation>)
    ensures pairs == [Observation("contract", "id", Str(b.contract.id), Str(a.contract.id), ""),
      Observation("contract", "version", Number(FormatInt(b.contract.version)), Number(FormatInt(a.contract.version)),
        ""),
      Observation("contract", "sha256", Str(b.contract.sha256), Str(a.contract.sha256), "")]
    ensures GroupDifference(ContractGroup(b), ContractGroup(a)) == Difference(pairs)
  {
    hide Difference;
    pairs := PairUp(Entries(ContractGroup(b)), Entries(ContractGroup(a)));
  }

  method AddContext(list: ChangeList, b: Document, a: Document)
    requires list.Valid()
    modifies list
    ensures list.Valid()
    ensures list.changes == old(list.changes) + GroupDifference(ContextGroup(b), ContextGroup(a))
  {
    ghost var pairs := ContextPairs(b, a);
    hide Difference, ContextGroup, StableChangeID;
    list.Add("context", "oracle", OracleValue(b.oracle), OracleValue(a.oracle));
    list.Add("context", "subject.adapter", Str(b.subject.adapter), Str(a.subject.adapter));
    list.Add("context", "subject.variant", Str(b.subject.variant), Str(a.subject.variant));
    ThreeCalls(old(list.calls), pairs[0], pairs[1], pairs[2]);
  }

  lemma ContextPairs(b: Document, a: Document) returns (pairs: seq<Observation>)
    ensures pairs == [Observation("context", "oracle", OracleValue(b.oracle), OracleValue(a.oracle), ""),
      Observation("context", "subject.adapter", Str(b.subject.adapter), Str(a.subject.adapter), ""),
      Observation("context", "subject.variant", Str(b.subject.variant), Str(a.subject.variant), "")]
    ensures GroupDifference(ContextGroup(b), ContextGroup(a)) == Difference(pairs)
  {
    hide Difference;
    pairs := PairUp(Entries(ContextGroup(b)), Entries(ContextGroup(a)));
  }

  method AddVerdict(list: ChangeList, b: Document, a: Document)
    requires list.Valid()
    modifies list
    ensures list.Valid()
    ensures list.changes == old(list.changes) + GroupDifference(VerdictGroup(b), VerdictGroup(a))
  {
    ghost var pairs := VerdictPairs(b, a);
    hide Difference, VerdictGroup, StableChangeID;
    list.Add("verdict", "status", Str(b.verdict.status), Str(a.verdict.status));
    list.Add("verdict", "reason", Str(b.verdict.reason), Str(a.verdict.reason));
    TwoCalls(old(list.calls), pairs[0], pairs[1]);
  }

  lemma VerdictPairs(b: Document, a: Document) returns (pairs: seq<Observation>)
    ensures pairs == [Observation("verdict", "status", Str(b.verdict.status), Str(a.verdict.status), ""),
      Observation("verdict", "reason", Str(b.verdict.reason), Str(a.verdict.reason), "")]
    ensures GroupDifference(VerdictGroup(b), VerdictGroup(a)) == Difference(pairs)
  {
    hide Difference;
    pairs := PairUp(Entries(VerdictGroup(b)), Entries(VerdictGroup(a)));
  }

  method AddTotals(list: ChangeList, b: Document, a: Document)
    requires list.Valid()
    modifies list
    ensures list.Valid()
    ensures list.changes == old(list.changes) + GroupDifference(TotalsGroup(b), TotalsGroup(a))
  {
    ghost var pairs := TotalsPairs(b, a);
    hide Difference, TotalsGroup, StableChangeID;
    list.Add("summary", "passed", Number(FormatInt(b.totals.passed)), Number(FormatInt(a.totals.passed)));
    list.Add("summary", "failed", Number(FormatInt(b.totals.failed)), Number(FormatInt(a.totals.failed)));
    list.Add("summary", "errors", Number(FormatInt(b.totals.errors)), Number(FormatInt(a.totals.errors)));
    list.Add("summary", "inconclusive", Number(FormatInt(b.totals.inconclusive)),
      Number(FormatInt(a.totals.inconclusive)));
    list.Add("summary", "skipped", Number(FormatInt(b.totals.skipped)), Number(FormatInt(a.totals.skipped)));
    FiveCalls(old(list.calls), pairs[0], pairs[1], pairs[2], pairs[3], pairs[4]);
  }

  lemma TotalsPairs(b: Document, a: Document) returns (pairs: seq<Observation>)
    ensures pairs == [
      Observation("summary", "passed", Number(FormatInt(b.totals.passed)), Number(FormatInt(a.totals.passed)), ""),
      Observation("summary", "failed", Number(FormatInt(b.totals.failed)), Number(FormatInt(a.totals.failed)), ""),
      Observation("summary", "errors", Number(FormatInt(b.totals.errors)), Number(FormatInt(a.totals.errors)), ""),
      Observation("summary", "inconclusive", Number(FormatInt(b.totals.inconclusive)),
        Number(FormatInt(a.totals.inconclusive)), ""),
      Observation("summary", "skipped", Number(FormatInt(b.totals.skipped)), Number(FormatInt(a.totals.skipped)), "")]
    ensures GroupDifference(TotalsGroup(b), TotalsGroup(a)) == Difference(pairs)
  {
    hide Difference;
    pairs := PairUp(Entries(TotalsGroup(b)), Entries(TotalsGroup(a)));
  }

  method AddAssurance(list: ChangeList, b: Document, a: Document)
    requires list.Valid()
    modifies list
    ensures list.Valid()
    ensures list.changes == old(list.changes) + GroupDifference(AssuranceGroup(b), AssuranceGroup(a))
  {
    ghost var pairs := AssurancePairs(b, a);
    hide Difference, AssuranceGroup, StableChangeID;
    list.Add("assurance", "level", Number(FormatInt(b.assurance.level)), Number(FormatInt(a.assurance.level)));
    list.Add("assurance", "status", Str(b.assurance.status), Str(a.assurance.status));
    list.Add("assurance", "observation_coverage", Str(b.assurance.observationCoverage),
      Str(a.assurance.observationCoverage));
    ThreeCalls(old(list.calls), pairs[0], pairs[1], pairs[2]);
  }

  lemma AssurancePairs(b: Document, a: Document) returns (pairs: seq<Observation>)
    ensures pairs == [
      Observation("assurance", "level", Number(FormatInt(b.assurance.level)),
        Number(FormatInt(a.assurance.level)), ""),
      Observation("assurance", "status", Str(b.assurance.status), Str(a.assurance.status), ""),
      Observation("assurance", "observation_coverage", Str(b.assurance.observationCoverage),
        Str(a.assurance.observationCoverage), "")]
    ensures GroupDifference(AssuranceGroup(b), AssuranceGroup(a)) == Difference(pairs)
  {
    hide Difference;
    pairs := PairUp(Entries(AssuranceGroup(b)), Entries(AssuranceGroup(a)));
  }

  method AddLifecycle(list: ChangeList, b: Document, a: Document)
    requires list.Valid()
    modifies list
    ensures list.Valid()
    ensures list.changes == old(list.changes) + GroupDifference(LifecycleGroup(b), LifecycleGroup(a))
  {
    ghost var pairs := LifecyclePairs(b, a);
    if b.lifecycle.Some? || a.lifecycle.Some? {
      list.Add("lifecycle", "mode", LifecycleMode(b), LifecycleMode(a));
      list.Add("lifecycle", "outcome", LifecycleOutcome(b), LifecycleOutcome(a));
      list.Add("lifecycle", "exit_code", LifecycleExitCode(b), LifecycleExitCode(a));
      ThreeCalls(old(list.calls), pairs[0], pairs[1], pairs[2]);
    } else {
      EqualFieldsDifferNot(pairs);
    }
  }

  lemma LifecyclePairs(b: Document, a: Document) returns (pairs: seq<Observation>)
    ensures pairs == [Observation("lifecycle", "mode", LifecycleMode(b), LifecycleMode(a), ""),
      Observation("lifecycle", "outcome", LifecycleOutcome(b), LifecycleOutcome(a), ""),
      Observation("lifecycle", "exit_code", LifecycleExitCode(b), LifecycleExitCode(a), "")]
    ensures GroupDifference(LifecycleGroup(b), LifecycleGroup(a)) == Difference(pairs)
  {
    hide Difference;
    pairs := PairUp(Entries(LifecycleGroup(b)), Entries(LifecycleGroup(a)));
  }

  method AddMutation(list: ChangeList, b: Document, a: Document)
    requires list.Valid()
    modifies list
    ensures list.Valid()
    ensures list.changes == old(list.changes) + GroupDifference(MutationGroup(b), MutationGroup(a))
  {
    ghost var pairs := MutationPairs(b, a);
    hide Difference, MutationGroup, StableChangeID;
    list.Add("mutation", "id", MutationId(b), MutationId(a));
    list.Add("mutation", "outcome", MutationOutcome(b), MutationOutcome(a));
    TwoCalls(old(list.calls), pairs[0], pairs[1]);
  }

  lemma MutationPairs(b: Document, a: Document) returns (pairs: seq<Observation>)
    ensures pairs == [Observation("mutation", "id", MutationId(b), MutationId(a), ""),
      Observation("mutation", "outcome", MutationOutcome(b), MutationOutcome(a), "")]
    ensures GroupDifference(MutationGroup(b), MutationGroup(a)) == Difference(pairs)
  {
    hide Difference;
    pairs := PairUp(Entries(MutationGroup(b)), Entries(MutationGroup(a)));
  }

  lemma {:induction false} EqualFieldsDifferNot(obs: seq<Observation>)
    requires forall o <- obs :: o.before == o.after
    ensures Difference(obs) == []
  {
    if obs != [] {
      EqualFieldsDifferNot(obs[..|obs| - 1]);
    }
  }

  function RuleObservation(before: map<string, Rule>, after: map<string, Rule>, id: string): Observation {
    Observation(RULES + id, "status", Look(Statuses(before), id), Look(Statuses(after), id), "")
  }

  /** One pass of the loop over rule ids. */
  method AddRule(list: ChangeList, id: string, before: map<string, Rule>, after: map<string, Rule>)
    returns (changed: seq<RuleStatusChange>)
    requires list.Valid()
    modifies list
    ensures list.Valid() && list.changes == old(list.changes) + Differing(RuleObservation(before, after, id))
    ensures changed == if LooksChanged(before, after, id)
      then [RuleStatusChange(id, StatusText(before, id), StatusText(after, id))] else []
  {
    var beforeStatus := if id in before then Str(before[id].status) else J.Null;
    var afterStatus := if id in after then Str(after[id].status) else J.Null;
    if beforeStatus == afterStatus {
      return [];
    }
    ghost var base := list.calls;
    list.Add(RULES + id, "status", beforeStatus, afterStatus);
    assert (base + [RuleObservation(before, after, id)])[..|base|] == base;
    var change := RuleStatusChange(id, "", "");
    if id in before {
      change := change.(before := before[id].status);
    }
    if id in after {
      change := change.(after := after[id].status);
    }
    return [change];
  }

  function RuleChanges(ids: seq<string>, before: map<string, Rule>, after: map<string, Rule>): seq<Change> {
    if ids == [] then []
    else
      RuleChanges(ids[..|ids| - 1], before, after) + Differing(RuleObservation(before, after, ids[|ids| - 1]))
  }

  method AddRules(list: ChangeList, ids: seq<string>, before: map<string, Rule>, after: map<string, Rule>)
    returns (changedRules: seq<RuleStatusChange>)
    requires list.Valid()
    modifies list
    ensures list.Valid() && list.changes == old(list.changes) + RuleChanges(ids, before, after)
    ensures changedRules == ChangedRules(ids, before, after)
  {
    hide RuleObservation, Differing, LooksChanged, StatusText, Difference;
    changedRules := [];
    for i := 0 to |ids|
      invariant list.Valid() && list.changes == old(list.changes) + RuleChanges(ids[..i], before, after)
      invariant changedRules == ChangedRules(ids[..i], before, after)
    {
      assert ids[..i + 1][..i] == ids[..i];
      var changed := AddRule(list, ids[i], before, after);
      changedRules := changedRules + changed;
    }
    assert ids[..|ids|] == ids;
  }

  lemma {:induction false} RuleChangesAreDifferences(
      ids: seq<string>, before: map<string, Rule>, after: map<string, Rule>)
    ensures RuleChanges(ids, before, after) == Difference(PairUp(
      KeyedEntries(ids, Statuses(before), RULE_FAMILY), KeyedEntries(ids, Statuses(after), RULE_FAMILY)))
  {
    var all := PairUp(KeyedEntries(ids, Statuses(before), RULE_FAMILY),
      KeyedEntries(ids, Statuses(after), RULE_FAMILY));
    if ids != [] {
      var front := ids[..|ids| - 1];
      RuleChangesAreDifferences(front, before, after);
      assert all[..|ids| - 1] == PairUp(
        KeyedEntries(front, Statuses(before), RULE_FAMILY), KeyedEntries(front, Statuses(after), RULE_FAMILY));
      assert all[|ids| - 1] == RuleObservation(before, after, ids[|ids| - 1]);
    }
  }

  function ContractIdReasons(b: Document, a: Document, lib: Library): seq<string> {
    if b.contract.id != a.contract.id
    then [ChangedFrom("contract id", lib.quote(b.contract.id), lib.quote(a.contract.id))] else []
  }

  function VersionReasons(b: Document, a: Document): seq<string> {
    if b.contract.version != a.contract.version
    then [ChangedFrom("contract version", FormatInt(b.contract.version), FormatInt(a.contract.version))] else []
  }

  function DigestReasons(b: Document, a: Document, lib: Library): seq<string> {
    if b.contract.sha256 != a.contract.sha256
    then [ChangedFrom("contract sha256", lib.quote(b.contract.sha256), lib.quote(a.contract.sha256))] else []
  }

  /** Why two runs cannot be compared. */
  function Incompatibilities(b: Document, a: Document, lib: Library): seq<string> {
    ContractIdReasons(b, a, lib) + VersionReasons(b, a) + DigestReasons(b, a, lib)
  }

  ghost function CompareRuns(before: RunFile, after: RunFile, lib: Library): SornaReport {
    var b, a := before.document, after.document;
    var reasons := Incompatibilities(b, a, lib);
    var changes := Difference(RunObservations(b, a));
    SornaReport(
      Report(SORNA_SCHEMA, reasons == [], reasons, SideOf(before, lib), SideOf(after, lib),
        NewStateTransition("contract_verdict.status", b.verdict.status, a.verdict.status, reasons == []), [], changes,
        Summarize(changes)),
      ChangedRules(RunRuleIds(b, a), RuleMap(b.rules), RuleMap(a.rules)))
  }

  method AddFixedFields(list: ChangeList, b: Document, a: Document)
    requires list.Valid() && list.changes == []
    modifies list
    ensures list.Valid() && list.changes == GroupChanges(RunGroups(b), RunGroups(a), 7)
  {
    hide ContractGroup, ContextGroup, VerdictGroup, TotalsGroup, AssuranceGroup, LifecycleGroup, MutationGroup;
    hide GroupDifference;
    AddContract(list, b, a);
    AddContext(list, b, a);
    AddVerdict(list, b, a);
    AddTotals(list, b, a);
    AddAssurance(list, b, a);
    AddLifecycle(list, b, a);
    AddMutation(list, b, a);
    SevenGroups(b, a);
  }

  lemma SevenGroups(b: Document, a: Document)
    ensures GroupChanges(RunGroups(b), RunGroups(a), 7) == []
      + GroupDifference(ContractGroup(b), ContractGroup(a))
      + GroupDifference(ContextGroup(b), ContextGroup(a))
      + GroupDifference(VerdictGroup(b), VerdictGroup(a))
      + GroupDifference(TotalsGroup(b), TotalsGroup(a))
      + GroupDifference(AssuranceGroup(b), AssuranceGroup(a))
      + GroupDifference(LifecycleGroup(b), LifecycleGroup(a))
      + GroupDifference(MutationGroup(b), MutationGroup(a))
  {
    hide ContractGroup, ContextGroup, VerdictGroup, TotalsGroup, AssuranceGroup, LifecycleGroup, MutationGroup;
    hide GroupDifference;
    var gs, hs := RunGroups(b), RunGroups(a);
    GroupStep(gs, hs, 1);
    GroupStep(gs, hs, 2);
    GroupStep(gs, hs, 3);
    GroupStep(gs, hs, 4);
    GroupStep(gs, hs, 5);
    GroupStep(gs, hs, 6);
    GroupStep(gs, hs, 7);
  }

  method CollectIncompatibilities(before: Document, after: Document, lib: Library) returns (reasons: seq<string>)
    ensures reasons == Incompatibilities(before, after, lib)
  {
    hide ChangedFrom;
    var b, a := before.contract, after.contract;
    reasons := [];
    if b.id != a.id {
      reasons := reasons + [ChangedFrom("contract id", lib.quote(b.id), lib.quote(a.id))];
    }
    if b.version != a.version {
      reasons := reasons + [ChangedFrom("contract version", FormatInt(b.version), FormatInt(a.version))];
    }
    if b.sha256 != a.sha256 {
      reasons := reasons + [ChangedFrom("contract sha256", lib.quote(b.sha256), lib.quote(a.sha256))];
    }
  }

  method CompareSornaRuns(before: RunFile, after: RunFile, lib: Library) returns (comparison: SornaReport)
    ensures comparison == CompareRuns(before, after, lib)
  {
    hide Difference, RunGroups, GroupChanges, SortedSet, ChangedRules, RuleChanges, RuleMap, Summarize, RunObservations;
    hide Incompatibilities, SideOf;
    var b, a := before.document, after.document;
    var reasons := CollectIncompatibilities(b, a, lib);
    var compatible := |reasons| == 0;
    var transition := NewStateTransition("contract_verdict.status", b.verdict.status, a.verdict.status, compatible);
    var list := new ChangeList();
    NoCalls();
    AddFixedFields(list, b, a);
    var beforeRules := SummarizeRules(b.rules);
    var afterRules := SummarizeRules(a.rules);
    var ruleIDs := SortKeys(beforeRules.Keys + afterRules.Keys);
    var changedRules := AddRules(list, ruleIDs, beforeRules, afterRules);
    ObservedInOrder(b, a);
    var summary := SummarizeChanges(list.changes);
    comparison := SornaReport(
      Report(SORNA_SCHEMA, compatible, reasons, SideOf(before, lib), SideOf(after, lib), transition, [],
        list.changes, summary),
      changedRules);
  }

  lemma ObservedInOrder(b: Document, a: Document)
    ensures Difference(RunObservations(b, a))
         == GroupChanges(RunGroups(b), RunGroups(a), 7)
           + RuleChanges(RunRuleIds(b, a), RuleMap(b.rules), RuleMap(a.rules))
  {
    hide RunGroups, Flatten, GroupChanges, PairUp, KeyedEntries, Difference, Matching, RuleChanges, RuleMap, Middle;
    hide RunObservations, RunRuleIds, SameFields;
    FixedInOrder(b, a);
    RuleChangesAreDifferences(RunRuleIds(b, a), RuleMap(b.rules), RuleMap(a.rules));
    MiddleIsRules(b, a);
    HeadThenMiddle(b, a);
    DifferenceAppend(PairUp(FixedFields(b), FixedFields(a)), Middle(RunRecord(b), RunRecord(a), RULE_FAMILY));
  }

  lemma FixedInOrder(b: Document, a: Document)
    ensures |FixedFields(b)| == |FixedFields(a)|
    ensures GroupChanges(RunGroups(b), RunGroups(a), 7) == Difference(PairUp(FixedFields(b), FixedFields(a)))
  {
    hide ContractGroup, ContextGroup, VerdictGroup, TotalsGroup, AssuranceGroup, LifecycleGroup, MutationGroup;
    hide Flatten, GroupChanges, PairUp, Difference, Matching;
    var gs, hs := RunGroups(b), RunGroups(a);
    RunGroupsMatching(b, a);
    GroupByGroup(gs, hs, 7);
    assert gs[..7] == gs && hs[..7] == hs;
  }

  lemma HeadThenMiddle(b: Document, a: Document)
    requires |FixedFields(b)| == |FixedFields(a)|
    ensures RunObservations(b, a)
         == PairUp(FixedFields(b), FixedFields(a)) + Middle(RunRecord(b), RunRecord(a), RULE_FAMILY)
  {
    NoTail();
    hide PairUp, FixedFields, Middle;
  }

  lemma MiddleIsRules(b: Document, a: Document)
    ensures Middle(RunRecord(b), RunRecord(a), RULE_FAMILY) == PairUp(
      KeyedEntries(RunRuleIds(b, a), Statuses(RuleMap(b.rules)), RULE_FAMILY),
      KeyedEntries(RunRuleIds(b, a), Statuses(RuleMap(a.rules)), RULE_FAMILY))
  {
    hide PairUp, KeyedEntries, RuleMap;
    assert Statuses(RuleMap(b.rules)).Keys == RuleMap(b.rules).Keys;
    assert Statuses(RuleMap(a.rules)).Keys == RuleMap(a.rules).Keys;
  }

  lemma NoCalls()
    ensures Difference([]) == []
  {
  }

  lemma NoTail()
    ensures PairUp([], []) == []
  {
  }
}
