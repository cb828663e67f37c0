/** Comparison reports and their validators. */
module Reports {
  import opened Text
  import opened CountMaps
  import opened Changes

  datatype Classification = Unchanged | Changed | Incompatible | Unsupported

  datatype StateTransition = StateTransition(
    field: string, before: string, after: string, classification: Classification)

  function NewStateTransition(field: string, before: string, after: string, compatible: bool): StateTransition {
    StateTransition(field, before, after,
      if !compatible then Incompatible else if before != after then Changed else Unchanged)
  }

  predicate IsValidTransition(t: StateTransition) {
    t.field != "" && t.before != "" && t.after != "" && !t.classification.Unsupported?
  }

  /** What a bundle reads of one side of a report: whether its own fields check, and its identifiers. */
  datatype Side = Side(wellFormed: bool, runId: string, correlationId: string)

  datatype Report = Report(
    schema: string,
    compatible: bool,
    reasons: seq<string>,
    before: Side,
    after: Side,
    transition: StateTransition,
    filter: seq<string>,
    changes: seq<Change>,
    summary: ChangeSummary)

  predicate NoBlanks(values: seq<string>) { forall v <- values :: !IsBlank(v) }

  method ValidateStringList(values: seq<string>) returns (ok: bool)
    ensures ok == NoBlanks(values)
  {
    for i := 0 to |values|
      invariant NoBlanks(values[..i])
    {
      if IsBlank(values[i]) {
        return false;
      }
      assert values[..i + 1] == values[..i] + [values[i]];
    }
    assert values[..|values|] == values;
    return true;
  }

  predicate IsSupportedIdentity(identity: string) {
    identity == "" || identity == "same-bytes" || identity == "replaced" || identity == "added" || identity == "removed"
    || identity == "unknown"
  }

  predicate IsValidChange(c: Change) {
    && !IsBlank(c.category) && !IsBlank(c.field) && !IsBlank(c.id)
    && c.StableID() == StableChangeID(c.category, c.field)
    && IsSupportedIdentity(c.identity)
  }

  predicate AreValidChanges(changes: seq<Change>) {
    (forall c <- changes :: IsValidChange(c)) && DistinctIDs(changes)
  }

  /** The checks that `validateBundleAdapterEnvelope` makes of every report. */
  ghost predicate IsEnvelope(r: Report, schema: string, warnings: seq<string>) {
    && r.schema == schema
    && NoBlanks(r.filter)
    && IsValidTransition(r.transition)
    && (r.compatible <==> r.reasons == [])
    && NoBlanks(r.reasons) && NoBlanks(warnings)
    && IsValidSummary(r.summary) && r.summary == Summarize(r.changes)
    && AreValidChanges(r.changes)
  }

  predicate SidesWellFormed(r: Report) { r.before.wellFormed && r.after.wellFormed }

  /** The checks of a report whose transition is that of a run status. */
  ghost predicate IsStatusReport(r: Report, schema: string) {
    SidesWellFormed(r) && r.transition.field == "status" && IsEnvelope(r, schema, [])
  }

  const CI_SCHEMA := "ingen.sattler-comparison/v0"

  /** A CI report with the parts only it has; `campaign` lists the ids of the changed mutations. */
  datatype CiReport = CiReport(report: Report, warnings: seq<string>, campaign: Option<seq<string>>)

  /** What a bundle checks of a comparison of CI results. */
  ghost predicate IsCiReport(c: CiReport) { SidesWellFormed(c.report) && IsEnvelope(c.report, CI_SCHEMA, c.warnings) }

  function IDs(changes: seq<Change>): set<string> { set c | c in changes :: c.id }

  method ValidateChange(c: Change) returns (ok: bool)
    ensures ok == IsValidChange(c)
  {
    if IsBlank(c.category) || IsBlank(c.field) || IsBlank(c.id) {
      return false;
    }
    if c.StableID() != StableChangeID(c.category, c.field) {
      return false;
    }
    return IsSupportedIdentity(c.identity);
  }

  method ValidateChanges(changes: seq<Change>) returns (ok: bool)
    ensures ok == AreValidChanges(changes)
  {
    hide IsValidChange;
    var seenIDs: set<string> := {};
    for i := 0 to |changes|
      invariant AreValidChanges(changes[..i]) && seenIDs == IDs(changes[..i])
    {
      var change := changes[i];
      assert change in changes;
      var valid := ValidateChange(change);
      if !valid {
        return false;
      }
      if change.id in seenIDs {
        var c :| c in changes[..i] && c.id == change.id;
        var j :| 0 <= j < i && changes[j] == c;
        return false;
      }
      seenIDs := seenIDs + {change.id};
      NextChange(changes, i);
    }
    assert changes[..|changes|] == changes;
    return true;
  }

  lemma NextChange(changes: seq<Change>, i: nat)
    requires i < |changes| && AreValidChanges(changes[..i]) && IsValidChange(changes[i])
    requires changes[i].id !in IDs(changes[..i])
    ensures AreValidChanges(changes[..i + 1]) && IDs(changes[..i + 1]) == IDs(changes[..i]) + {changes[i].id}
  {
    hide IsValidChange;
    var front, all := changes[..i], changes[..i + 1];
    assert all == front + [changes[i]];
    forall j, k | 0 <= j < k < |all| ensures all[j].id != all[k].id {
      if k == i {
        assert front[j] in front;
      } else {
        assert all[j] == front[j] && all[k] == front[k];
      }
    }
  }

  method ValidateEnvelope(r: Report, schema: string, warnings: seq<string>) returns (ok: bool)
    ensures ok == IsEnvelope(r, schema, warnings)
  {
    if r.schema != schema {
      return false;
    }
    var filterOk := ValidateStringList(r.filter);
    if !filterOk || !IsValidTransition(r.transition) {
      return false;
    }
    if !r.compatible && |r.reasons| == 0 {
      return false;
    }
    if r.compatible && |r.reasons| > 0 {
      return false;
    }
    var reasonsOk := ValidateStringList(r.reasons);
    var warningsOk := ValidateStringList(warnings);
    if !reasonsOk || !warningsOk {
      return false;
    }
    var summaryOk := ValidateSummary(r.summary);
    if !summaryOk {
      return false;
    }
    var expected := SummarizeChanges(r.changes);
    if r.summary.total != |r.changes| || r.summary != expected {
      return false;
    }
    ok := ValidateChanges(r.changes);
  }

  // ---------------------------------------------------------------------------
  // The rule index of a Sorna report

  datatype RuleStatusChange = RuleStatusChange(ruleId: string, before: string, after: string)

  datatype SornaReport = SornaReport(report: Report, changedRules: seq<RuleStatusChange>)

  const RULES := "rules."

  predicate IsRuleChange(c: Change) { c.field == "status" && StripPrefix(c.category, RULES).Some? }

  function RuleOf(c: Change): string
    requires IsRuleChange(c)
  {
    StripPrefix(c.category, RULES).value
  }

  function ExpectedRules(changes: seq<Change>): set<string> {
    set c | c in changes && IsRuleChange(c) :: RuleOf(c)
  }

  predicate IsRuleStatus(status: string) {
    status == "pass" || status == "fail" || status == "error" || status == "inconclusive" || status == "skipped"
  }

  predicate IsValidRuleChange(r: RuleStatusChange) {
    && !IsBlank(r.ruleId)
    && (r.before != "" || r.after != "")
    && (r.before != "" ==> IsRuleStatus(r.before)) && (r.after != "" ==> IsRuleStatus(r.after))
  }

  function RuleIDs(rules: seq<RuleStatusChange>): set<string> { set r | r in rules :: r.ruleId }

  predicate DistinctRules(rules: seq<RuleStatusChange>) {
    forall i, j | 0 <= i < j < |rules| :: rules[i].ruleId != rules[j].ruleId
  }

  /** The index lists each rule with a retained status change once, and no other. */
  predicate RuleIndexMatches(changes: seq<Change>, rules: seq<RuleStatusChange>) {
    && (forall r <- ExpectedRules(changes) :: !IsBlank(r))
    && (forall r <- rules :: IsValidRuleChange(r))
    && DistinctRules(rules)
    && RuleIDs(rules) == ExpectedRules(changes)
  }

  method CollectExpectedRules(changes: seq<Change>) returns (ok: bool, expected: set<string>)
    ensures ok == forall r <- ExpectedRules(changes) :: !IsBlank(r)
    ensures ok ==> expected == ExpectedRules(changes)
  {
    expected := {};
    for i := 0 to |changes|
      invariant expected == ExpectedRules(changes[..i]) && forall r <- expected :: !IsBlank(r)
    {
      assert changes[..i + 1] == changes[..i] + [changes[i]];
      assert changes[i] in changes;
      if !IsRuleChange(changes[i]) {
        continue;
      }
      var ruleID := RuleOf(changes[i]);
      if IsBlank(ruleID) {
        assert ruleID in ExpectedRules(changes);
        return false, expected;
      }
      expected := expected + {ruleID};
    }
    assert changes[..|changes|] == changes;
    ok := true;
  }

  method ValidateRuleIndex(changes: seq<Change>, rules: seq<RuleStatusChange>) returns (ok: bool)
    ensures ok == RuleIndexMatches(changes, rules)
  {
    hide IsValidRuleChange, IsBlank, IsRuleChange;
    var expectedOk, expected := CollectExpectedRules(changes);
    if !expectedOk {
      return false;
    }
    var seen: set<string> := {};
    for i := 0 to |rules|
      invariant seen == RuleIDs(rules[..i]) && seen <= expected
      invariant DistinctRules(rules[..i]) && forall r <- rules[..i] :: IsValidRuleChange(r)
    {
      var change := rules[i];
      assert change in rules;
      assert rules[..i + 1] == rules[..i] + [change];
      if !IsValidRuleChange(change) {
        return false;
      }
      if change.ruleId in seen {
        var r :| r in rules[..i] && r.ruleId == change.ruleId;
        var j :| 0 <= j < i && rules[j] == r;
        return false;
      }
      seen := seen + {change.ruleId};
      if change.ruleId !in expected {
        assert change.ruleId in RuleIDs(rules);
        return false;
      }
      NextRule(rules, i);
    }
    assert rules[..|rules|] == rules;
    if |seen| == |expected| {
      SubsetOfSameSize(seen, expected);
    }
    return |seen| == |expected|;
  }

  lemma NextRule(rules: seq<RuleStatusChange>, i: nat)
    requires i < |rules| && DistinctRules(rules[..i]) && rules[i].ruleId !in RuleIDs(rules[..i])
    ensures DistinctRules(rules[..i + 1])
  {
    var front, all := rules[..i], rules[..i + 1];
    assert all == front + [rules[i]];
    forall j, k | 0 <= j < k < |all| ensures all[j].ruleId != all[k].ruleId {
      if k == i {
        assert front[j] in front;
      } else {
        assert all[j] == front[j] && all[k] == front[k];
      }
    }
  }

  const SORNA_SCHEMA := "ingen.sattler-sorna-run-comparison/v0"

  ghost predicate IsSornaReport(s: SornaReport) {
    && s.report.before.wellFormed && s.report.after.wellFormed
    && IsEnvelope(s.report, SORNA_SCHEMA, [])
    && RuleIndexMatches(s.report.changes, s.changedRules)
  }

  method ValidateSornaReport(s: SornaReport) returns (ok: bool)
    ensures ok == IsSornaReport(s)
  {
    if !s.report.before.wellFormed || !s.report.after.wellFormed {
      return false;
    }
    var envelopeOk := ValidateEnvelope(s.report, SORNA_SCHEMA, []);
    if !envelopeOk {
      return false;
    }
    ok := ValidateRuleIndex(s.report.changes, s.changedRules);
  }
}
