/** What the comparison of two Sorna runs promises: an exact rule index, and exactly when the report passes
its own validator. */
module SornaValidity {
  import opened Text
  import opened StringOrder
  import opened Changes
  import opened Diff
  import opened Records
  import opened Reports
  import opened ReportBuilding
  import opened SornaDocument
  import opened SornaRun

  function Ids(rules: seq<RuleStatusChange>): (r: seq<string>)
    ensures |r| == |rules| && forall i | 0 <= i < |r| :: r[i] == rules[i].ruleId
  {
    seq(|rules|, i requires 0 <= i < |rules| => rules[i].ruleId)
  }

  predicate IsStatusChange(c: RuleStatusChange, b: map<string, Rule>, a: map<string, Rule>) {
    LooksChanged(b, a, c.ruleId) && c.before == StatusText(b, c.ruleId) && c.after == StatusText(a, c.ruleId)
  }

  lemma {:induction false} ChangedAmong(ids: seq<string>, b: map<string, Rule>, a: map<string, Rule>)
    requires Ascending(ids)
    ensures Ascending(Ids(ChangedRules(ids, b, a)))
    ensures forall c :: c in ChangedRules(ids, b, a) <==> c.ruleId in ids && IsStatusChange(c, b, a)
  {
    if ids != [] {
      var front, last := ids[..|ids| - 1], ids[|ids| - 1];
      assert ids == front + [last];
      ChangedAmong(front, b, a);
      hide LooksChanged, StatusText;
      var before, all := ChangedRules(front, b, a), ChangedRules(ids, b, a);
      if LooksChanged(b, a, last) {
        assert Ids(all) == Ids(before) + [last];
        forall i | 0 <= i < |before| ensures Less(Ids(before)[i], last) {
          assert before[i] in before;
        }
      } else {
        assert all == before;
      }
    }
  }

  /** The rule index is the sorted list, without repetition, of the rules whose status differs, with
  the two statuses. */
  lemma RuleIndexIsExact(before: RunFile, after: RunFile, lib: Library)
    ensures var rules := CompareRuns(before, after, lib).changedRules;
      var rb, ra := RuleMap(before.document.rules), RuleMap(after.document.rules);
      && Ascending(Ids(rules))
      && forall id :: id in Ids(rules) <==> Look(Statuses(rb), id) != Look(Statuses(ra), id)
    ensures forall c <- CompareRuns(before, after, lib).changedRules ::
      && c.before == StatusText(RuleMap(before.document.rules), c.ruleId)
      && c.after == StatusText(RuleMap(after.document.rules), c.ruleId)
  {
    hide RuleMap, Summarize, RunObservations, Incompatibilities, StatusText, SortedSet, Difference, ChangedRules;
    hide SideOf;
    var b, a := before.document, after.document;
    var rb, ra := RuleMap(b.rules), RuleMap(a.rules);
    var rules := CompareRuns(before, after, lib).changedRules;
    ChangedAmong(RunRuleIds(b, a), rb, ra);
    forall id ensures id in Ids(rules) <==> Look(Statuses(rb), id) != Look(Statuses(ra), id) {
      var c := RuleStatusChange(id, StatusText(rb, id), StatusText(ra, id));
      if LooksChanged(rb, ra, id) {
        assert id in RunRuleIds(b, a) && c in rules;
        var i :| 0 <= i < |rules| && rules[i] == c;
        assert Ids(rules)[i] == id;
      }
      if id in Ids(rules) {
        var i :| 0 <= i < |rules| && Ids(rules)[i] == id;
        assert rules[i] in rules;
      }
    }
  }

  // ---------------------------------------------------------------------------
  // Loaded documents and their summaries

  lemma {:induction false} LoadedRules(rules: seq<Rule>)
    requires forall r <- rules :: IsLoadedRule(r)
    ensures forall id <- RuleMap(rules) :: !IsBlank(id) && IsRuleStatus(RuleMap(rules)[id].status)
  {
    hide IsBlank, IsRuleStatus;
    if rules != [] {
      assert forall r <- rules[..|rules| - 1] :: r in rules;
      LoadedRules(rules[..|rules| - 1]);
      assert rules[|rules| - 1] in rules;
    }
  }

  /** The map holds listed rules only, */
  lemma {:induction false} RuleListed(rules: seq<Rule>, id: string)
    requires id in RuleMap(rules)
    ensures RuleMap(rules)[id] in rules && RuleMap(rules)[id].ruleId == id
  {
    if rules[|rules| - 1].ruleId != id {
      RuleListed(rules[..|rules| - 1], id);
    }
  }

  /** and with distinct ids every rule. */
  lemma {:induction false} RuleHeld(rules: seq<Rule>, i: nat)
    requires DistinctRuleIds(rules) && i < |rules|
    ensures rules[i].ruleId in RuleMap(rules) && RuleMap(rules)[rules[i].ruleId] == rules[i]
  {
    if i < |rules| - 1 {
      RuleHeld(rules[..|rules| - 1], i);
    }
  }

  /** What a caller can check on a loaded document for its summary to pass. */
  predicate IsPresentable(f: RunFile) {
    var d := f.document;
    && IsPath(f.path)
    && (forall r <- d.rules :: !IsBlank(r.subject))
    && NoBlanks(d.assurance.limitations)
    && (d.lifecycle.Some? ==> !IsBlank(d.lifecycle.value.outcome))
    && (d.baseline.Some? ==> !IsBlank(d.baseline.value.contract.id) && d.baseline.value.contract.version >= 1)
  }

  lemma RulesPass(rules: seq<Rule>)
    requires DistinctRuleIds(rules) && forall r <- rules :: IsLoadedRule(r)
    ensures (forall id <- RuleMap(rules) :: IsRule(id, RuleMap(rules)[id]))
      <==> forall r <- rules :: !IsBlank(r.subject)
    ensures rules != [] ==> RuleMap(rules) != map[]
  {
    hide RuleMap, IsBlank, IsRuleStatus, DistinctRuleIds;
    var m := RuleMap(rules);
    if forall r <- rules :: !IsBlank(r.subject) {
      forall id <- m ensures IsRule(id, m[id]) {
        RuleListed(rules, id);
        assert IsLoadedRule(m[id]);
      }
    }
    if forall id <- m :: IsRule(id, m[id]) {
      forall i | 0 <= i < |rules| ensures !IsBlank(rules[i].subject) {
        RuleHeld(rules, i);
        assert IsRule(rules[i].ruleId, m[rules[i].ruleId]);
      }
    }
    if rules != [] {
      RuleHeld(rules, 0);
    }
  }

  /** The validator of summaries asks more than the loader: exactly this much more. */
  lemma SummaryPasses(f: RunFile, lib: Library)
    requires IsLoaded(f.document, lib)
    ensures IsSummary(SummaryOf(f), lib) <==> IsPresentable(f)
  {
    hide RuleMap, IsBlank, IsHexDigest, IsRule, IsLoadedRule, DistinctRuleIds, IsPath, NoBlanks, IsVerdict;
    hide IsMutation, IsOracle, AreCounts;
    RulesPass(f.document.rules);
  }

  // ---------------------------------------------------------------------------
  // The report and its own validator

  predicate IsFixed(d: Document, category: string, field: string) {
    exists e <- FixedFields(d) :: e.category == category && e.field == field
  }

  lemma PairIsFixed(b: Document, a: Document, o: Observation)
    requires |FixedFields(b)| == |FixedFields(a)| && o in PairUp(FixedFields(b), FixedFields(a))
    ensures IsFixed(b, o.category, o.field) && o.identity == ""
  {
    hide FixedFields;
    var i :| 0 <= i < |FixedFields(b)| && PairUp(FixedFields(b), FixedFields(a))[i] == o;
    assert FixedFields(b)[i] in FixedFields(b);
  }

  lemma MiddleIsRule(b: Document, a: Document, o: Observation) returns (id: string)
    requires o in Middle(RunRecord(b), RunRecord(a), RULE_FAMILY) && o.before != o.after
    ensures o.category == RULES + id && o.field == "status" && o.identity == ""
    ensures LooksChanged(RuleMap(b.rules), RuleMap(a.rules), id) && id in RunRuleIds(b, a)
  {
    hide Middle, FixedFields, RuleMap;
    id := MiddleDescribes(RunRecord(b), RunRecord(a), RULE_FAMILY, o);
  }

  /** Where a change of the list comes from. */
  lemma ChangeSource(b: Document, a: Document, c: Change)
    requires c in Difference(RunObservations(b, a))
    ensures c.identity == "" && c.id == StableChangeID(c.category, c.field)
    ensures IsFixed(b, c.category, c.field)
      || (exists id <- RunRuleIds(b, a) ::
        c.category == RULES + id && c.field == "status" && LooksChanged(RuleMap(b.rules), RuleMap(a.rules), id))
  {
    hide RunObservations, RuleMap, FixedFields, IsFixed, LooksChanged, PairUp, Middle, RunRuleIds;
    var obs := RunObservations(b, a);
    DifferenceIDs(obs);
    DifferenceMembers(obs, c);
    var o :| o in obs && c in Differing(o);
    RunShapes(b, a);
    HeadThenMiddle(b, a);
    if o in PairUp(FixedFields(b), FixedFields(a)) {
      PairIsFixed(b, a, o);
    } else {
      var id := MiddleIsRule(b, a, o);
    }
  }

  /** And every rule whose status differs has one. */
  lemma RuleHasChange(b: Document, a: Document, id: string)
    requires LooksChanged(RuleMap(b.rules), RuleMap(a.rules), id)
    ensures exists c <- Difference(RunObservations(b, a)) :: c.category == RULES + id && c.field == "status"
  {
    hide RuleMap, FixedFields;
    var ids := RunRuleIds(b, a);
    var i :| 0 <= i < |ids| && ids[i] == id;
    RunShapes(b, a);
    HeadThenMiddle(b, a);
    MiddleIsRules(b, a);
    var middle := Middle(RunRecord(b), RunRecord(a), RULE_FAMILY);
    var o := middle[i];
    assert o in middle;
    assert o in RunObservations(b, a);
    assert o.before != o.after;
    DifferenceMembers(RunObservations(b, a), Differing(o)[0]);
  }

  lemma PlainCategory(d: Document, e: Entry)
    requires e in FixedFields(d)
    ensures !IsBlank(e.category) && !IsBlank(e.field) && StripPrefix(e.category, RULES).None?
  {
    RunGroupsAreGroups(d);
    hide RunGroups, AreGroups;
    FlattenDistinct(RunGroups(d));
    hide Flatten, DistinctEntries, IsBlank, StartsVisibly;
    VisibleStart(e.category);
    VisibleStart(e.field);
    NotRules(e.category);
  }

  lemma NotRules(category: string)
    requires '.' !in category
    ensures StripPrefix(category, RULES).None?
  {
    assert RULES[5] == '.';
  }

  lemma RuleCategory(id: string)
    ensures !IsBlank(RULES + id) && !IsBlank("status") && StripPrefix(RULES + id, RULES) == Some(id)
  {
    VisibleStart(RULES + id);
    VisibleStart("status");
    StripRules(id);
  }

  lemma ChangesAreValid(b: Document, a: Document)
    ensures AreValidChanges(Difference(RunObservations(b, a)))
  {
    RunComparisonIsExactPatch(b, a);
    RunShapes(b, a);
    RunGroupsAreGroups(b);
    GroupsAreNameable(RunGroups(b));
    hide RunGroups, RunVector, Apply, Undo, AreGroups, IsNameableEntry, IsNameable, Statuses, Difference;
    forall id: string ensures !IsBlank(RULE_FAMILY.category(id)) && !IsBlank(RULE_FAMILY.field(id)) {
      RuleCategory(id);
    }
    ObservationsAreNameable(RunRecord(b), RunRecord(a), RULE_FAMILY);
    DifferenceIsValid(RunObservations(b, a));
  }

  lemma ChangedRulesAreValid(ids: seq<string>, rb: map<string, Rule>, ra: map<string, Rule>)
    requires Ascending(ids) && forall id <- ids :: id in rb || id in ra
    requires forall id <- rb :: !IsBlank(id) && IsRuleStatus(rb[id].status)
    requires forall id <- ra :: !IsBlank(id) && IsRuleStatus(ra[id].status)
    ensures forall r <- ChangedRules(ids, rb, ra) :: IsValidRuleChange(r)
    ensures DistinctRules(ChangedRules(ids, rb, ra))
  {
    var rules := ChangedRules(ids, rb, ra);
    ChangedAmong(ids, rb, ra);
    hide ChangedRules, IsBlank, IsRuleStatus, LooksChanged;
    forall r <- rules ensures IsValidRuleChange(r) {
      StatusIsNotEmpty(rb, r.ruleId);
      StatusIsNotEmpty(ra, r.ruleId);
    }
    forall i, j | 0 <= i < j < |rules| ensures rules[i].ruleId != rules[j].ruleId {
      assert Less(Ids(rules)[i], Ids(rules)[j]);
      LessIrreflexive(rules[i].ruleId);
    }
  }

  lemma ChangedRuleIds(ids: seq<string>, rb: map<string, Rule>, ra: map<string, Rule>, id: string)
    requires Ascending(ids)
    ensures id in RuleIDs(ChangedRules(ids, rb, ra)) <==> id in ids && LooksChanged(rb, ra, id)
  {
    ChangedAmong(ids, rb, ra);
    hide ChangedRules, LooksChanged;
    var c := RuleStatusChange(id, StatusText(rb, id), StatusText(ra, id));
    assert id in ids && LooksChanged(rb, ra, id) ==> c in ChangedRules(ids, rb, ra);
  }

  lemma IndexMatches(b: Document, a: Document)
    requires forall r | r in b.rules || r in a.rules :: IsLoadedRule(r)
    ensures RuleIndexMatches(
      Difference(RunObservations(b, a)), ChangedRules(RunRuleIds(b, a), RuleMap(b.rules), RuleMap(a.rules)))
  {
    var rb, ra, ids := RuleMap(b.rules), RuleMap(a.rules), RunRuleIds(b, a);
    var changes, rules := Difference(RunObservations(b, a)), ChangedRules(ids, rb, ra);
    LoadedRules(b.rules);
    LoadedRules(a.rules);
    hide RunObservations, ChangedRules, RuleMap, IsBlank, IsRuleStatus, Difference, RuleIndexMatches;
    ChangedRulesAreValid(ids, rb, ra);
    hide IsValidRuleChange, DistinctRules, ExpectedRules, RuleIDs;
    forall id ensures id in ExpectedRules(changes) <==> id in RuleIDs(rules) {
      ExpectedAreChanged(b, a, id);
      ChangedRuleIds(ids, rb, ra, id);
    }
    SameIdsMatch(changes, rules);
  }

  lemma SameIdsMatch(changes: seq<Change>, rules: seq<RuleStatusChange>)
    requires (forall r <- rules :: IsValidRuleChange(r)) && DistinctRules(rules)
    requires forall id :: id in ExpectedRules(changes) <==> id in RuleIDs(rules)
    ensures RuleIndexMatches(changes, rules)
  {
    hide IsBlank, IsRuleChange, DistinctRules, IsRuleStatus;
    assert RuleIDs(rules) == ExpectedRules(changes);
  }

  lemma StatusIsNotEmpty(rules: map<string, Rule>, id: string)
    requires id in rules ==> IsRuleStatus(rules[id].status)
    ensures id in rules <==> StatusText(rules, id) != ""
    ensures id in rules ==> IsRuleStatus(StatusText(rules, id))
  {
  }

  lemma ExpectedAreChanged(b: Document, a: Document, id: string)
    ensures id in ExpectedRules(Difference(RunObservations(b, a)))
      <==> LooksChanged(RuleMap(b.rules), RuleMap(a.rules), id)
  {
    var changes := Difference(RunObservations(b, a));
    hide RunObservations, RuleMap, FixedFields, IsBlank;
    if id in ExpectedRules(changes) {
      var c :| c in changes && IsRuleChange(c) && RuleOf(c) == id;
      ChangeSource(b, a, c);
      if IsFixed(b, c.category, c.field) {
        var e :| e in FixedFields(b) && e.category == c.category && e.field == c.field;
        PlainCategory(b, e);
      } else {
        var other :| other in RunRuleIds(b, a) && c.category == RULES + other
          && LooksChanged(RuleMap(b.rules), RuleMap(a.rules), other);
        StripRules(other);
      }
    }
    if LooksChanged(RuleMap(b.rules), RuleMap(a.rules), id) {
      RuleHasChange(b, a, id);
      var c :| c in changes && c.category == RULES + id && c.field == "status";
      StripRules(id);
      assert IsRuleChange(c) && RuleOf(c) == id;
    }
  }

  /** The comparison of two loaded runs passes the validator of comparisons exactly when both can be shown. */
  lemma ComparisonIsValid(before: RunFile, after: RunFile, lib: Library)
    requires IsLoaded(before.document, lib) && IsLoaded(after.document, lib)
    ensures IsSornaReport(CompareRuns(before, after, lib)) <==> IsPresentable(before) && IsPresentable(after)
  {
    var b, a := before.document, after.document;
    hide RunObservations, RuleIndexMatches, RuleMap, ChangedRules, Incompatibilities, Difference, IsEnvelope, Summarize;
    hide IsPresentable, IsSummary, SummaryOf, IsContract, IsLoadedRule, IsVerdict, IsBlank;
    ChangesAreValid(b, a);
    IndexMatches(b, a);
    ReasonsAreVisible(b, a, lib);
    SummaryPasses(before, lib);
    SummaryPasses(after, lib);
    var reasons := Incompatibilities(b, a, lib);
    var transition := NewStateTransition("contract_verdict.status", b.verdict.status, a.verdict.status, reasons == []);
    VerdictTransition(b.verdict.status, a.verdict.status, reasons == []);
    BuiltEnvelope(SORNA_SCHEMA, reasons, SideOf(before, lib), SideOf(after, lib), transition,
      Difference(RunObservations(b, a)), []);
  }

  lemma VerdictTransition(before: string, after: string, compatible: bool)
    requires IsVerdict(before) && IsVerdict(after)
    ensures IsValidTransition(NewStateTransition("contract_verdict.status", before, after, compatible))
  {
  }

  const TIME := "2026-01-02T03:04:05Z"

  /** A run whose one rule has no subject. */
  function RunWithoutSubject(digest: string): RunFile {
    RunFile("", Document(RUN_SCHEMA, "run", TIME, Contract("contract", 1, digest), None, None, Verdict("pass", ""),
      Subject("url", "adapter", ""), Assurance(0, "status", "", []), None, Totals(1, 0, 0, 0, 0),
      [Rule("rule", "case", "", "pass", "")], None))
  }

  /** It loads, and its comparison with itself, or with any other loaded run, is refused. */
  lemma RuleWithoutSubject(digest: string, other: RunFile, lib: Library)
    requires IsHexDigest(digest) && lib.isTime(TIME) && IsLoaded(other.document, lib)
    ensures IsLoaded(RunWithoutSubject(digest).document, lib)
    ensures !IsSornaReport(CompareRuns(RunWithoutSubject(digest), other, lib))
  {
    hide IsHexDigest, CompareRuns, IsSornaReport, IsLoaded;
    var f := RunWithoutSubject(digest);
    assert IsBlank("");
    assert f.document.rules[0] in f.document.rules;
    assert !IsPresentable(f);
    RunLoads(digest, lib);
    ComparisonIsValid(f, other, lib);
  }

  lemma RunLoads(digest: string, lib: Library)
    requires IsHexDigest(digest) && lib.isTime(TIME)
    ensures IsLoaded(RunWithoutSubject(digest).document, lib)
  {
    hide IsBlank, IsHexDigest, TIME;
    VisibleStart("run");
    VisibleStart("contract");
    VisibleStart("url");
    VisibleStart("adapter");
    VisibleStart("status");
    VisibleStart("rule");
    VisibleStart("case");
    TimeIsVisible();
  }

  lemma TimeIsVisible()
    ensures !IsBlank(TIME)
  {
    hide IsBlank;
    VisibleStart(TIME);
  }

  lemma ReasonsAreVisible(b: Document, a: Document, lib: Library)
    ensures NoBlanks(Incompatibilities(b, a, lib))
  {
    hide ChangedFrom, IsBlank, FormatInt;
    var bc, ac := b.contract, a.contract;
    OneReason(bc.id != ac.id, "contract id", lib.quote(bc.id), lib.quote(ac.id));
    OneReason(bc.version != ac.version, "contract version", FormatInt(bc.version), FormatInt(ac.version));
    OneReason(bc.sha256 != ac.sha256, "contract sha256", lib.quote(bc.sha256), lib.quote(ac.sha256));
    assert NoBlanks(ContractIdReasons(b, a, lib)) && NoBlanks(VersionReasons(b, a))
      && NoBlanks(DigestReasons(b, a, lib));
    hide NoBlanks, ContractIdReasons, VersionReasons, DigestReasons;
    TwoReasons(ContractIdReasons(b, a, lib), VersionReasons(b, a));
    TwoReasons(ContractIdReasons(b, a, lib) + VersionReasons(b, a), DigestReasons(b, a, lib));
  }
}
