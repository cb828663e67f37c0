/** Sorna run documents: what the loader checks, the summary a report keeps, and what its validator checks. */
module SornaDocument {
  import opened Text
  import opened Changes
  import opened Reports
  import opened ReportBuilding

  // ---------------------------------------------------------------------------
  // Documents and their summaries

  datatype Rule = Rule(ruleId: string, caseId: string, subject: string, status: string, reason: string)

  datatype Contract = Contract(id: string, version: int, sha256: string)

  datatype Oracle = Oracle(schema: string, sha256: string)

  datatype Baseline = Baseline(evidencePath: string, runId: string, contract: Contract)

  datatype Verdict = Verdict(status: string, reason: string)

  datatype Subject = Subject(baseUrl: string, adapter: string, variant: string)

  datatype Assurance = Assurance(level: int, status: string, observationCoverage: string, limitations: seq<string>)

  datatype Lifecycle = Lifecycle(mode: string, outcome: string, exitCode: int)

  datatype Totals = Totals(passed: int, failed: int, errors: int, inconclusive: int, skipped: int)

  datatype Mutation = Mutation(id: string, outcome: string)

  /** A run document. */
  datatype Document = Document(
    schema: string, runId: string, createdAt: string,
    contract: Contract, oracle: Option<Oracle>, baseline: Option<Baseline>, verdict: Verdict, subject: Subject,
    assurance: Assurance, lifecycle: Option<Lifecycle>, totals: Totals, rules: seq<Rule>, mutation: Option<Mutation>)

  /** A document and the path it was read from, which may be left out. */
  datatype RunFile = RunFile(path: string, document: Document)

  /** One side of a report: the document with its rules by id. */
  datatype Summary = Summary(
    path: string, schema: string, runId: string, createdAt: string,
    contract: Contract, oracle: Option<Oracle>, baseline: Option<Baseline>, verdict: Verdict, subject: Subject,
    assurance: Assurance, lifecycle: Option<Lifecycle>, totals: Totals, rules: map<string, Rule>,
    mutation: Option<Mutation>)

  /** The rules by id; a repeated id keeps its last rule. */
  function RuleMap(rules: seq<Rule>): map<string, Rule> {
    if rules == [] then map[] else RuleMap(rules[..|rules| - 1])[rules[|rules| - 1].ruleId := rules[|rules| - 1]]
  }

  method SummarizeRules(rules: seq<Rule>) returns (m: map<string, Rule>)
    ensures m == RuleMap(rules)
  {
    m := map[];
    for i := 0 to |rules|
      invariant m == RuleMap(rules[..i])
    {
      assert rules[..i + 1][..i] == rules[..i];
      m := m[rules[i].ruleId := rules[i]];
    }
    assert rules[..|rules|] == rules;
  }

  function SummaryOf(f: RunFile): Summary {
    var d := f.document;
    Summary(f.path, d.schema, d.runId, d.createdAt, d.contract, d.oracle, d.baseline, d.verdict, d.subject, d.assurance,
      d.lifecycle, d.totals, RuleMap(d.rules), d.mutation)
  }

  // ---------------------------------------------------------------------------
  // What the loader checks, and what the validator of summaries checks

  const RUN_SCHEMA := "ingen.run/v1"
  const ORACLE_SCHEMA := "ingen.oracle/v1"

  predicate IsVerdict(status: string) {
    status == "pass" || status == "fail" || status == "error" || status == "inconclusive"
  }

  predicate IsMutation(m: Mutation) {
    !IsBlank(m.id) && (m.outcome == "killed" || m.outcome == "survived" || m.outcome == "inconclusive")
  }

  predicate IsContract(c: Contract) { !IsBlank(c.id) && c.version >= 1 && IsHexDigest(c.sha256) }

  predicate IsOracle(o: Oracle) { o.schema == ORACLE_SCHEMA && IsHexDigest(o.sha256) }

  predicate AreCounts(t: Totals) {
    t.passed >= 0 && t.failed >= 0 && t.errors >= 0 && t.inconclusive >= 0 && t.skipped >= 0
  }

  predicate IsLoadedBaseline(b: Baseline) {
    !IsBlank(b.evidencePath) && !IsBlank(b.runId) && IsHexDigest(b.contract.sha256)
  }

  predicate IsLoadedLifecycle(l: Lifecycle) { !IsBlank(l.mode) && l.exitCode >= -1 }

  predicate IsLoadedRule(r: Rule) { !IsBlank(r.ruleId) && !IsBlank(r.caseId) && IsRuleStatus(r.status) }

  predicate DistinctRuleIds(rules: seq<Rule>)
  {
    forall i, j | 0 <= i < j < |rules| :: rules[i].ruleId != rules[j].ruleId
  }

  /** `validateSornaRun`. */
  predicate IsLoaded(d: Document, lib: Library) {
    && d.schema == RUN_SCHEMA
    && !IsBlank(d.runId) && !IsBlank(d.createdAt) && lib.isTime(d.createdAt)
    && IsContract(d.contract)
    && (d.oracle.Some? ==> IsOracle(d.oracle.value))
    && (d.baseline.Some? ==> IsLoadedBaseline(d.baseline.value))
    && IsVerdict(d.verdict.status)
    && !IsBlank(d.subject.baseUrl) && !IsBlank(d.subject.adapter)
    && !IsBlank(d.assurance.status) && d.assurance.level >= 0
    && (d.lifecycle.Some? ==> IsLoadedLifecycle(d.lifecycle.value))
    && AreCounts(d.totals)
    && d.rules != [] && (forall r <- d.rules :: IsLoadedRule(r)) && DistinctRuleIds(d.rules)
    && (d.mutation.Some? ==> IsMutation(d.mutation.value))
  }

  predicate IsBaseline(b: Baseline) { !IsBlank(b.evidencePath) && !IsBlank(b.runId) && IsContract(b.contract) }

  predicate IsLifecycle(l: Lifecycle) { !IsBlank(l.mode) && !IsBlank(l.outcome) && l.exitCode >= -1 }

  predicate IsRule(id: string, r: Rule) {
    !IsBlank(id) && r.ruleId == id && !IsBlank(r.caseId) && !IsBlank(r.subject) && IsRuleStatus(r.status)
  }

  /** `validateSornaRunSummary`. */
  predicate IsSummary(s: Summary, lib: Library) {
    && s.schema == RUN_SCHEMA
    && IsPath(s.path)
    && !IsBlank(s.runId) && !IsBlank(s.createdAt) && lib.isTime(s.createdAt)
    && IsContract(s.contract)
    && (s.oracle.Some? ==> IsOracle(s.oracle.value))
    && (s.baseline.Some? ==> IsBaseline(s.baseline.value))
    && IsVerdict(s.verdict.status)
    && !IsBlank(s.subject.baseUrl) && !IsBlank(s.subject.adapter)
    && s.assurance.level >= 0 && !IsBlank(s.assurance.status)
    && NoBlanks(s.assurance.limitations)
    && (s.lifecycle.Some? ==> IsLifecycle(s.lifecycle.value))
    && AreCounts(s.totals)
    && s.rules != map[] && (forall id <- s.rules :: IsRule(id, s.rules[id]))
    && (s.mutation.Some? ==> IsMutation(s.mutation.value))
  }

  /** The side of a report; whether its summary passes is recorded when the report is built. */
  function SideOf(f: RunFile, lib: Library): Side {
    Side(IsSummary(SummaryOf(f), lib), f.document.runId, "")
  }

  /** The loop of the loader over the rules. */
  method ValidateRules(rules: seq<Rule>) returns (ok: bool)
    ensures ok <==> (forall r <- rules :: IsLoadedRule(r)) && DistinctRuleIds(rules)
  {
    hide IsLoadedRule;
    var seen: set<string> := {};
    for i := 0 to |rules|
      invariant (forall r <- rules[..i] :: IsLoadedRule(r)) && DistinctRuleIds(rules[..i])
      invariant forall id :: id in seen <==> exists j | 0 <= j < i :: rules[j].ruleId == id
    {
      assert rules[i] in rules;
      if !IsLoadedRule(rules[i]) || rules[i].ruleId in seen {
        return false;
      }
      seen := seen + {rules[i].ruleId};
      assert rules[..i + 1] == rules[..i] + [rules[i]];
    }
    assert rules[..|rules|] == rules;
    return true;
  }

  method ValidateSornaRun(d: Document, lib: Library) returns (ok: bool)
    ensures ok == IsLoaded(d, lib)
  {
    hide IsBlank, IsContract, IsOracle, IsLoadedBaseline, IsVerdict, IsLoadedLifecycle, IsLoadedRule, IsMutation;
    hide DistinctRuleIds, AreCounts;
    if d.schema != RUN_SCHEMA || IsBlank(d.runId) || IsBlank(d.createdAt) || !lib.isTime(d.createdAt) {
      return false;
    }
    if !IsContract(d.contract) || (d.oracle.Some? && !IsOracle(d.oracle.value)) {
      return false;
    }
    if (d.baseline.Some? && !IsLoadedBaseline(d.baseline.value)) || !IsVerdict(d.verdict.status) {
      return false;
    }
    if IsBlank(d.subject.baseUrl) || IsBlank(d.subject.adapter) || IsBlank(d.assurance.status)
      || d.assurance.level < 0 {
      return false;
    }
    if (d.lifecycle.Some? && !IsLoadedLifecycle(d.lifecycle.value)) || !AreCounts(d.totals) || |d.rules| == 0 {
      return false;
    }
    var rulesOk := ValidateRules(d.rules);
    return rulesOk && (d.mutation.Some? ==> IsMutation(d.mutation.value));
  }

  /** The loop of the summary validator over the rules, in any order. */
  method ValidateRuleMap(rules: map<string, Rule>) returns (ok: bool)
    ensures ok <==> forall id <- rules :: IsRule(id, rules[id])
  {
    hide IsRule;
    var rest := rules.Keys;
    while rest != {}
      invariant rest <= rules.Keys && forall id <- rules.Keys - rest :: IsRule(id, rules[id])
      decreases |rest|
    {
      var id :| id in rest;
      if !IsRule(id, rules[id]) {
        return false;
      }
      rest := rest - {id};
    }
    return true;
  }

  method ValidateSornaRunSummary(s: Summary, lib: Library) returns (ok: bool)
    ensures ok == IsSummary(s, lib)
  {
    hide IsBlank, IsContract, IsOracle, IsBaseline, IsVerdict, IsLifecycle, IsRule, IsMutation, NoBlanks, IsPath;
    hide AreCounts;
    if s.schema != RUN_SCHEMA || !IsPath(s.path) || IsBlank(s.runId) || IsBlank(s.createdAt)
      || !lib.isTime(s.createdAt) {
      return false;
    }
    if !IsContract(s.contract) || (s.oracle.Some? && !IsOracle(s.oracle.value)) {
      return false;
    }
    if (s.baseline.Some? && !IsBaseline(s.baseline.value)) || !IsVerdict(s.verdict.status) {
      return false;
    }
    if IsBlank(s.subject.baseUrl) || IsBlank(s.subject.adapter) || s.assurance.level < 0
      || IsBlank(s.assurance.status) {
      return false;
    }
    var limitationsOk := ValidateStringList(s.assurance.limitations);
    if !limitationsOk || (s.lifecycle.Some? && !IsLifecycle(s.lifecycle.value)) || !AreCounts(s.totals) {
      return false;
    }
    if s.rules == map[] {
      return false;
    }
    var rulesOk := ValidateRuleMap(s.rules);
    return rulesOk && (s.mutation.Some? ==> IsMutation(s.mutation.value));
  }
}
