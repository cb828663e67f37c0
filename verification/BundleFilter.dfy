/** Filtering a bundle by stable ids keeps it valid. */
module BundleFilter {
  import opened Text
  import opened StringOrder
  import opened Changes
  import opened Reports
  import opened Bundle
  import NublarRun

  // ---------------------------------------------------------------------------
  // The filters

  ghost function FilteredReport(r: Report, selected: set<string>): Report {
    var changes := Keep(r.changes, selected);
    r.(filter := SortedSet(selected), changes := changes, summary := Summarize(changes))
  }

  const STATUS_SUFFIX := ".status"

  predicate IsRuleKey(id: string) { StripPrefix(id, RULES).Some? && StripSuffix(id, STATUS_SUFFIX).Some? }

  function RuleKey(rule: RuleStatusChange): string { RULES + rule.ruleId + STATUS_SUFFIX }

  function SelectedRules(changes: seq<Change>): set<string> {
    set c | c in changes && IsRuleKey(c.StableID()) :: c.StableID()
  }

  function KeepRules(rules: seq<RuleStatusChange>, selected: set<string>): seq<RuleStatusChange> {
    if rules == [] then []
    else
      var last := rules[|rules| - 1];
      KeepRules(rules[..|rules| - 1], selected) + if RuleKey(last) in selected then [last] else []
  }

  ghost function FilteredSorna(s: SornaReport, selected: set<string>): SornaReport {
    SornaReport(FilteredReport(s.report, selected),
      if selected == {} then s.changedRules
      else KeepRules(s.changedRules, SelectedRules(Keep(s.report.changes, selected))))
  }

  ghost function FilteredOption(r: Option<Report>, selected: set<string>): Option<Report> {
    if r.None? then None else Some(FilteredReport(r.value, selected))
  }

  ghost function FilteredReports(b: Bundle, selected: set<string>): Bundle {
    b.(filter := SortedSet(selected),
       ci := if b.ci.None? then None else Some(b.ci.value.(report := FilteredReport(b.ci.value.report, selected))),
       sorna := if b.sorna.None? then None else Some(FilteredSorna(b.sorna.value, selected)),
       nublar := FilteredOption(b.nublar, selected),
       custody := FilteredOption(b.custody, selected),
       provenance := FilteredOption(b.provenance, selected))
  }

  ghost function FilteredBundle(b: Bundle, selected: set<string>): Bundle {
    var f := FilteredReports(b, selected);
    f.(summary := SummaryOf(Parts(f)), correlations := Correlate(f))
  }

  method FilterReport(r: Report, ids: seq<string>) returns (filtered: Report)
    ensures filtered == FilteredReport(r, Normalized(ids))
  {
    var filter := SortedChangeIDs(ids);
    var changes := FilterChanges(r.changes, ids);
    var summary := SummarizeChanges(changes);
    filtered := r.(filter := filter, changes := changes, summary := summary);
  }

  method SelectRules(changes: seq<Change>) returns (selectedRules: set<string>)
    ensures selectedRules == SelectedRules(changes)
  {
    hide IsRuleKey;
    selectedRules := {};
    for i := 0 to |changes|
      invariant selectedRules == SelectedRules(changes[..i])
    {
      assert changes[..i + 1] == changes[..i] + [changes[i]];
      var id := changes[i].StableID();
      if IsRuleKey(id) {
        selectedRules := selectedRules + {id};
      }
    }
    assert changes[..|changes|] == changes;
  }

  method FilterRules(rules: seq<RuleStatusChange>, selectedRules: set<string>) returns (filtered: seq<RuleStatusChange>)
    ensures filtered == KeepRules(rules, selectedRules)
  {
    filtered := [];
    for i := 0 to |rules|
      invariant filtered == KeepRules(rules[..i], selectedRules)
    {
      assert rules[..i + 1][..i] == rules[..i];
      if RuleKey(rules[i]) in selectedRules {
        filtered := filtered + [rules[i]];
      }
    }
    assert rules[..|rules|] == rules;
  }

  method FilterSornaRunChanges(s: SornaReport, ids: seq<string>) returns (filtered: SornaReport)
    ensures filtered == FilteredSorna(s, Normalized(ids))
  {
    hide SelectedRules, KeepRules, Keep, Normalized, SortedSet, Summarize;
    var report := FilterReport(s.report, ids);
    filtered := SornaReport(report, s.changedRules);
    var selected := NormalizedChangeIDs(ids);
    if selected != {} {
      var selectedRules := SelectRules(report.changes);
      var filteredRules := FilterRules(s.changedRules, selectedRules);
      filtered := filtered.(changedRules := filteredRules);
    }
  }

  method FilterOption(r: Option<Report>, ids: seq<string>) returns (filtered: Option<Report>)
    ensures filtered == FilteredOption(r, Normalized(ids))
  {
    filtered := r;
    if r.Some? {
      var report := FilterReport(r.value, ids);
      filtered := Some(report);
    }
  }

  method FilterBundleChanges(b: Bundle, ids: seq<string>) returns (filtered: Bundle)
    ensures filtered == FilteredBundle(b, Normalized(ids))
  {
    hide FilteredReport, FilteredSorna, SummaryOf, Parts, Correlate, Normalized, SortedSet;
    var filter := SortedChangeIDs(ids);
    filtered := b.(filter := filter);
    if b.ci.Some? {
      var report := FilterReport(b.ci.value.report, ids);
      filtered := filtered.(ci := Some(b.ci.value.(report := report)));
    }
    if b.sorna.Some? {
      var sorna := FilterSornaRunChanges(b.sorna.value, ids);
      filtered := filtered.(sorna := Some(sorna));
    }
    var nublar := FilterOption(b.nublar, ids);
    var custody := FilterOption(b.custody, ids);
    var provenance := FilterOption(b.provenance, ids);
    filtered := filtered.(nublar := nublar, custody := custody, provenance := provenance);
    assert filtered == FilteredReports(b, Normalized(ids));
    var summary := SummarizeBundle(filtered);
    filtered := filtered.(summary := summary, correlations := Correlate(filtered));
  }

  // ---------------------------------------------------------------------------
  // Validity is kept

  lemma SelectedIsVisible(ids: seq<string>)
    ensures NoBlanks(SortedSet(Normalized(ids)))
  {
    forall v | v in SortedSet(Normalized(ids)) ensures !IsBlank(v) {
      assert v in Normalized(ids);
      var id :| id in ids && !IsBlank(id) && Trim(id) == v;
      VisibleIsNotBlank(v, v[|v| - 1]);
    }
  }

  lemma StoredKeys(changes: seq<Change>)
    requires AreValidChanges(changes)
    ensures forall c <- changes :: c.id != "" && c.StableID() == c.id && !IsBlank(c.category)
  {
    forall c | c in changes ensures c.id != "" {
      assert IsValidChange(c);
    }
  }

  lemma KeptChangesAreValid(changes: seq<Change>, selected: set<string>)
    requires AreValidChanges(changes)
    ensures AreValidChanges(Keep(changes, selected))
  {
    StoredKeys(changes);
    hide IsValidChange;
    KeepIsSublist(changes, selected);
  }

  lemma FilterKeepsEnvelope(r: Report, schema: string, warnings: seq<string>, ids: seq<string>)
    requires IsEnvelope(r, schema, warnings)
    ensures IsEnvelope(FilteredReport(r, Normalized(ids)), schema, warnings)
  {
    var kept := Keep(r.changes, Normalized(ids));
    SelectedIsVisible(ids);
    KeptChangesAreValid(r.changes, Normalized(ids));
    StoredKeys(kept);
    SummaryConserves(kept);
    hide IsBlank, IsValidSummary, Summarize, Keep, Normalized, SortedSet, AreValidChanges;
  }

  lemma {:induction false} KeptRules(rules: seq<RuleStatusChange>, selected: set<string>)
    ensures forall r :: r in KeepRules(rules, selected) <==> r in rules && RuleKey(r) in selected
    ensures DistinctRules(rules) ==> DistinctRules(KeepRules(rules, selected))
  {
    hide RuleKey;
    if rules != [] {
      var front, last := rules[..|rules| - 1], rules[|rules| - 1];
      assert rules == front + [last];
      KeptRules(front, selected);
      if DistinctRules(rules) {
        forall r <- KeepRules(front, selected) ensures r.ruleId != last.ruleId {
          assert r in front;
        }
      }
    }
  }

  /** The key of a rule's status change. */
  lemma RuleChangeKey(c: Change)
    requires IsValidChange(c) && IsRuleChange(c)
    ensures c.id == RULES + RuleOf(c) + STATUS_SUFFIX && IsRuleKey(c.id)
  {
    hide IsRuleKey, IsValidChange;
    KeyIsStored(c);
    var rest := RuleOf(c);
    assert c.category == RULES + rest;
    StatusKey(c.category);
    RuleKeyShape(rest);
  }

  lemma KeyIsStored(c: Change)
    requires IsValidChange(c)
    ensures c.id == StableChangeID(c.category, c.field)
  {
    hide StableChangeID;
    assert Trim("") == "";
  }

  lemma StatusKey(category: string)
    ensures StableChangeID(category, "status") == category + STATUS_SUFFIX
  {
  }

  lemma RuleKeyShape(id: string)
    ensures IsRuleKey(RULES + id + STATUS_SUFFIX)
  {
    var key := RULES + id + STATUS_SUFFIX;
    assert key[..|RULES|] == RULES;
    assert key[|key| - |STATUS_SUFFIX|..] == STATUS_SUFFIX;
  }

  /** A rule is kept exactly when its status change is. This rests on the keys being distinct: the key of
  a rule's change could otherwise belong to a change of another category. */
  lemma RuleIsKeptWithItsChange(s: SornaReport, selected: set<string>, id: string)
    requires AreValidChanges(s.report.changes) && RuleIndexMatches(s.report.changes, s.changedRules)
    ensures var kept := Keep(s.report.changes, selected);
      id in ExpectedRules(kept) <==> (
        && id in ExpectedRules(s.report.changes)
        && RULES + id + STATUS_SUFFIX in SelectedRules(kept))
  {
    var changes := s.report.changes;
    var kept := Keep(changes, selected);
    StoredKeys(changes);
    KeepIsSublist(changes, selected);
    hide Keep, IsBlank, RuleIndexMatches, IsRuleKey, IsValidChange;
    if id in ExpectedRules(kept) {
      var c :| c in kept && IsRuleChange(c) && RuleOf(c) == id;
      RuleChangeKey(c);
    }
    if id in ExpectedRules(changes) && RULES + id + STATUS_SUFFIX in SelectedRules(kept) {
      var c :| c in changes && IsRuleChange(c) && RuleOf(c) == id;
      RuleChangeKey(c);
      var d :| d in kept && d.StableID() == RULES + id + STATUS_SUFFIX;
      SameKeySameChange(changes, c, d);
    }
  }

  lemma SameKeySameChange(changes: seq<Change>, c: Change, d: Change)
    requires DistinctIDs(changes) && c in changes && d in changes && c.id == d.id
    ensures c == d
  {
    var i :| 0 <= i < |changes| && changes[i] == c;
    var j :| 0 <= j < |changes| && changes[j] == d;
    assert i == j;
  }

  lemma FilterKeepsRuleIndex(s: SornaReport, ids: seq<string>)
    requires AreValidChanges(s.report.changes) && RuleIndexMatches(s.report.changes, s.changedRules)
    ensures var f := FilteredSorna(s, Normalized(ids)); RuleIndexMatches(f.report.changes, f.changedRules)
  {
    var selected := Normalized(ids);
    var kept := Keep(s.report.changes, selected);
    if selected == {} {
      StoredKeys(s.report.changes);
      KeepIsSublist(s.report.changes, selected);
      hide Keep, IsBlank, IsValidRuleChange, IsRuleChange, Normalized;
      assert ExpectedRules(kept) == ExpectedRules(s.report.changes);
    } else {
      var selectedRules := SelectedRules(kept);
      var rules := KeepRules(s.changedRules, selectedRules);
      KeptRules(s.changedRules, selectedRules);
      hide Keep, KeepRules, IsBlank, IsValidRuleChange, SelectedRules, Normalized, AreValidChanges;
      forall id ensures id in ExpectedRules(kept) <==> id in RuleIDs(rules) {
        RuleIsKeptWithItsChange(s, selected, id);
        RuleIdIsKept(s.changedRules, rules, selectedRules, id);
        hide ExpectedRules, RuleIDs;
      }
      assert ExpectedRules(kept) == RuleIDs(rules);
      assert forall r <- rules :: IsValidRuleChange(r);
      assert forall id <- ExpectedRules(kept) :: id in ExpectedRules(s.report.changes) by {
        forall id <- ExpectedRules(kept) ensures id in ExpectedRules(s.report.changes) {
          RuleIsKeptWithItsChange(s, selected, id);
        }
      }
    }
  }

  lemma RuleIdIsKept(all: seq<RuleStatusChange>, kept: seq<RuleStatusChange>, selected: set<string>, id: string)
    requires forall r :: r in kept <==> r in all && RuleKey(r) in selected
    ensures id in RuleIDs(kept) <==> id in RuleIDs(all) && RULES + id + STATUS_SUFFIX in selected
  {
    if id in RuleIDs(kept) {
      var r :| r in kept && r.ruleId == id;
    }
    if id in RuleIDs(all) && RULES + id + STATUS_SUFFIX in selected {
      var r :| r in all && r.ruleId == id;
      assert r in kept;
    }
  }

  lemma FilterKeepsSorna(s: SornaReport, ids: seq<string>)
    requires IsSornaReport(s)
    ensures IsSornaReport(FilteredSorna(s, Normalized(ids)))
  {
    FilterKeepsEnvelope(s.report, SORNA_SCHEMA, [], ids);
    FilterKeepsRuleIndex(s, ids);
    hide Keep, KeepRules, SelectedRules, RuleIndexMatches, IsEnvelope, Normalized, SortedSet, Summarize;
  }

  lemma FilterKeepsOption(r: Option<Report>, schema: string, ids: seq<string>)
    requires r.Some? ==> IsEnvelope(r.value, schema, [])
    ensures var f := FilteredOption(r, Normalized(ids));
      && f.Some? == r.Some?
      && (r.Some? ==> IsEnvelope(f.value, schema, []))
      && (r.Some? ==> SidesWellFormed(f.value) == SidesWellFormed(r.value) && f.value.transition == r.value.transition)
  {
    if r.Some? {
      FilterKeepsEnvelope(r.value, schema, [], ids);
    }
    hide IsEnvelope, Keep, SortedSet, Normalized, Summarize;
  }

  lemma FilterKeepsReports(b: Bundle, ids: seq<string>)
    requires AreValidReports(b)
    ensures var f := FilteredReports(b, Normalized(ids)); AreValidReports(f) && (Parts(b) != [] ==> Parts(f) != [])
  {
    hide IsEnvelope, IsSornaReport, FilteredOption, FilteredSorna, SidesWellFormed, Normalized, SortedSet;
    FilterKeepsOption(b.nublar, NublarRun.NUBLAR_SCHEMA, ids);
    FilterKeepsOption(b.custody, CUSTODY_SCHEMA, ids);
    FilterKeepsOption(b.provenance, PROVENANCE_SCHEMA, ids);
    if b.sorna.Some? {
      FilterKeepsSorna(b.sorna.value, ids);
    }
    if b.ci.Some? {
      FilterKeepsEnvelope(b.ci.value.report, CI_SCHEMA, b.ci.value.warnings, ids);
      SidesKept(b.ci.value.report, Normalized(ids));
    }
    hide FilteredReport;
  }

  lemma SidesKept(r: Report, selected: set<string>)
    ensures SidesWellFormed(FilteredReport(r, selected)) == SidesWellFormed(r)
  {
  }

  lemma ValidHasParts(b: Bundle)
    requires IsBundle(b)
    ensures Parts(b) != []
  {
    assert Subsystems([]) == map[];
  }

  /** A valid bundle stays valid under any id filter. */
  lemma FilterKeepsBundleValid(b: Bundle, ids: seq<string>)
    requires IsBundle(b)
    ensures IsBundle(FilteredBundle(b, Normalized(ids)))
  {
    ValidHasParts(b);
    FilterKeepsReports(b, ids);
    SelectedIsVisible(ids);
    hide AreValidReports, Parts, Correlate, SummaryOf, Normalized, SortedSet, IsBundleSummary, NoBlanks, IsBlank;
    DerivedBundleIsValid(FilteredReports(b, Normalized(ids)));
  }
}
