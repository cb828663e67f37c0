/** What a comparison of runs or results says, in terms of the two documents alone. */
module ReportMeaning {
  import opened Text
  import opened CountMaps
  import opened Changes
  import opened Diff
  import opened Records
  import opened Reports
  import opened ReportBuilding
  import S = SornaRun
  import SD = SornaDocument
  import N = NublarRun
  import ND = NublarDocument
  import V = SornaValidity
  import C = CiComparison
  import F = FileRefs
  import J = Json

  // ---------------------------------------------------------------------------
  // Transitions, compatibility and reasons

  /** The transition of a Sorna comparison: incompatible exactly when the contracts differ in id, version or
  digest, and otherwise changed exactly when the verdicts differ. */
  lemma SornaTransition(before: SD.RunFile, after: SD.RunFile, lib: Library)
    ensures var b, a := before.document, after.document; var t := S.CompareRuns(before, after, lib).report.transition;
      var comparable := b.contract.id == a.contract.id && b.contract.version == a.contract.version
        && b.contract.sha256 == a.contract.sha256;
      && t.field == "contract_verdict.status" && t.before == b.verdict.status && t.after == a.verdict.status
      && (t.classification == Incompatible <==> !comparable)
      && (t.classification == Changed <==> comparable && b.verdict.status != a.verdict.status)
      && (t.classification == Unchanged <==> comparable && b.verdict.status == a.verdict.status)
  {
    hide S.RunObservations, SD.RuleMap, S.ChangedRules, Difference, Summarize, SD.SideOf, ChangedFrom;
  }

  /** The reasons of a Sorna comparison name what differs of the contracts, in a fixed order. */
  lemma SornaReasons(before: SD.RunFile, after: SD.RunFile, lib: Library)
    ensures var b, a := before.document.contract, after.document.contract;
      var report := S.CompareRuns(before, after, lib).report;
      && (report.compatible <==> b == a)
      && report.reasons ==
        (if b.id == a.id then [] else ["contract id changed from " + lib.quote(b.id) + " to " + lib.quote(a.id)])
        + (if b.version == a.version then []
           else ["contract version changed from " + FormatInt(b.version) + " to " + FormatInt(a.version)])
        + (if b.sha256 == a.sha256 then []
           else ["contract sha256 changed from " + lib.quote(b.sha256) + " to " + lib.quote(a.sha256)])
  {
    hide S.RunObservations, SD.RuleMap, S.ChangedRules, Difference, Summarize, SD.SideOf, FormatInt;
    var b, a := before.document, after.document;
    SameReason("contract id", "contract id changed from ", lib.quote(b.contract.id), lib.quote(a.contract.id));
    var v, w := FormatInt(b.contract.version), FormatInt(a.contract.version);
    SameReason("contract version", "contract version changed from ", v, w);
    SameReason(
      "contract sha256", "contract sha256 changed from ", lib.quote(b.contract.sha256), lib.quote(a.contract.sha256));
    hide ChangedFrom;
    assert b.contract.id != a.contract.id ==> S.ContractIdReasons(b, a, lib) != [];
  }

  lemma SameReason(what: string, opening: string, before: string, after: string)
    requires opening == what + " changed from "
    ensures ChangedFrom(what, before, after) == opening + before + " to " + after
  {
  }

  /** The transition and the reasons of a Nublar comparison depend on the workflow ids and the statuses. */
  lemma NublarTransition(before: ND.RunFile, after: ND.RunFile, lib: Library)
    ensures var b, a := before.document, after.document; var report := N.CompareRuns(before, after, lib);
      var t := report.transition; var comparable := b.workflow.id == a.workflow.id;
      && t.field == "status" && t.before == b.status && t.after == a.status
      && (t.classification == Incompatible <==> !comparable)
      && (t.classification == Changed <==> comparable && b.status != a.status)
      && (t.classification == Unchanged <==> comparable && b.status == a.status)
      && (report.compatible <==> comparable)
      && report.reasons == if comparable then []
        else ["workflow id changed from " + lib.quote(b.workflow.id) + " to " + lib.quote(a.workflow.id)]
  {
    hide N.RunObservations, Difference, Summarize, ND.SideOf;
    var b, a := before.document.workflow.id, after.document.workflow.id;
    SameReason("workflow id", "workflow id changed from ", lib.quote(b), lib.quote(a));
    hide ChangedFrom;
  }

  /** Those of a CI comparison on the tools, the kinds and the statuses. */
  lemma CiTransition(b: C.Artifact, a: C.Artifact, lib: Library, campaign: C.Campaign)
    ensures var report := C.CompareArtifacts(b, a, lib, campaign).report;
      var t := report.transition; var comparable := b.tool == a.tool && b.kind == a.kind;
      && t.field == "status" && t.before == b.status && t.after == a.status
      && (t.classification == Incompatible <==> !comparable)
      && (t.classification == Changed <==> comparable && b.status != a.status)
      && (t.classification == Unchanged <==> comparable && b.status == a.status)
      && (report.compatible <==> comparable)
      && report.reasons ==
        (if b.tool == a.tool then [] else ["tool changed from " + lib.quote(b.tool) + " to " + lib.quote(a.tool)])
        + (if b.kind == a.kind then [] else ["kind changed from " + lib.quote(b.kind) + " to " + lib.quote(a.kind)])
  {
    hide C.ArtifactCalls, Difference, Summarize, C.SideOf;
    SameReason("tool", "tool changed from ", lib.quote(b.tool), lib.quote(a.tool));
    SameReason("kind", "kind changed from ", lib.quote(b.kind), lib.quote(a.kind));
    hide ChangedFrom;
    assert b.tool != a.tool ==> C.ToolReasons(b, a, lib) != [];
  }

  // ---------------------------------------------------------------------------
  // Sides and summaries

  /** Each side of a Sorna report is that of its own run; the summary counts the listed changes. */
  lemma SornaSides(before: SD.RunFile, after: SD.RunFile, lib: Library)
    ensures var r := S.CompareRuns(before, after, lib).report;
      && r.schema == "ingen.sattler-sorna-run-comparison/v0" && r.filter == []
      && r.before.runId == before.document.runId && r.after.runId == after.document.runId
      && (r.before.wellFormed <==> SD.IsSummary(SD.SummaryOf(before), lib))
      && (r.after.wellFormed <==> SD.IsSummary(SD.SummaryOf(after), lib))
      && r.summary.total == |r.changes|
      && forall category :: Lookup(r.summary.byCategory, category) == multiset(Categories(r.changes))[category]
  {
    hide S.RunObservations, SD.RuleMap, S.ChangedRules, Difference, ChangedFrom, SD.IsSummary, Lookup;
    SummaryCounts(S.CompareRuns(before, after, lib).report.changes);
  }

  /** So is each side of a Nublar report, with the id of the run's correlation if it has one. */
  lemma NublarSides(before: ND.RunFile, after: ND.RunFile, lib: Library)
    ensures var r := N.CompareRuns(before, after, lib);
      && r.schema == "ingen.sattler-nublar-run-comparison/v0" && r.filter == []
      && r.before.runId == before.document.runId && r.after.runId == after.document.runId
      && (match before.document.correlation
          case None => r.before.correlationId == ""
          case Some(c) => r.before.correlationId == c.id)
      && (match after.document.correlation
          case None => r.after.correlationId == ""
          case Some(c) => r.after.correlationId == c.id)
      && (r.before.wellFormed <==> ND.IsSummary(ND.SummaryOf(before), lib))
      && (r.after.wellFormed <==> ND.IsSummary(ND.SummaryOf(after), lib))
      && r.summary.total == |r.changes|
      && forall category :: Lookup(r.summary.byCategory, category) == multiset(Categories(r.changes))[category]
  {
    hide N.RunObservations, Difference, ChangedFrom, ND.IsSummary, Lookup;
    SummaryCounts(N.CompareRuns(before, after, lib).changes);
  }

  /** A CI report has the ids of the campaign comparison, or a warning that says why there are none. */
  lemma CiParts(b: C.Artifact, a: C.Artifact, lib: Library, campaign: C.Campaign)
    ensures var c := C.CompareArtifacts(b, a, lib, campaign); var r := c.report;
      && r.schema == "ingen.sattler-comparison/v0" && r.filter == []
      && (match campaign
          case Ok(ids) => c.campaign == ids && c.warnings == []
          case Err(error) => c.campaign == None && c.warnings == ["mutation campaign detail unavailable: " + error])
      && (r.before.wellFormed <==> C.IsSummary(b, lib)) && (r.after.wellFormed <==> C.IsSummary(a, lib))
      && r.summary.total == |r.changes|
      && forall category :: Lookup(r.summary.byCategory, category) == multiset(Categories(r.changes))[category]
  {
    hide C.ArtifactCalls, Difference, ChangedFrom, C.IsSummary, Lookup, C.ToolReasons, C.KindReasons;
    SummaryCounts(C.CompareArtifacts(b, a, lib, campaign).report.changes);
  }

  lemma SummaryCounts(changes: seq<Change>)
    ensures Summarize(changes).total == |changes|
    ensures forall category ::
      Lookup(Summarize(changes).byCategory, category) == multiset(Categories(changes))[category]
  {
    forall category ensures Lookup(Summarize(changes).byCategory, category) == multiset(Categories(changes))[category] {
      CategoryCount(changes, category);
    }
  }

  lemma CategoryCount(changes: seq<Change>, category: string)
    ensures Lookup(Summarize(changes).byCategory, category) == multiset(Categories(changes))[category]
  {
    assert category !in Categories(changes) ==> multiset(Categories(changes))[category] == 0;
  }

  // ---------------------------------------------------------------------------
  // The compared fields of a Sorna run

  lemma SornaField(d: SD.Document, g: Group, i: nat)
    requires g in S.RunGroups(d) && i < |g.fields|
    ensures Look(S.RunVector(d), StableChangeID(g.category, g.fields[i].name)) == g.fields[i].value
  {
    S.RunKeysApart(d);
    GroupFieldListed(S.RunGroups(d), g, i);
    var e := Entry(g.category, g.fields[i].name, g.fields[i].value);
    hide S.RunGroups, Flatten, SD.RuleMap, KeysApart, Content, VectorOf, StableChangeID;
    LookContent(S.RunRecord(d), S.RULE_FAMILY, e.Key());
  }

  lemma SornaContract(d: SD.Document)
    ensures var v := S.RunVector(d);
      && Look(v, StableChangeID("contract", "id")) == J.Str(d.contract.id)
      && Look(v, StableChangeID("contract", "version")) == J.Number(FormatInt(d.contract.version))
      && Look(v, StableChangeID("contract", "sha256")) == J.Str(d.contract.sha256)
  {
    hide S.RunVector, StableChangeID, FormatInt;
    SornaField(d, S.ContractGroup(d), 0);
    SornaField(d, S.ContractGroup(d), 1);
    SornaField(d, S.ContractGroup(d), 2);
  }

  lemma SornaContext(d: SD.Document)
    ensures var v := S.RunVector(d);
      && Look(v, StableChangeID("context", "subject.adapter")) == J.Str(d.subject.adapter)
      && Look(v, StableChangeID("context", "subject.variant")) == J.Str(d.subject.variant)
      && Look(v, StableChangeID("context", "oracle")) == if d.oracle.None? then J.Null
        else J.Obj([J.Member("schema", J.Str(d.oracle.value.schema)), J.Member("sha256", J.Str(d.oracle.value.sha256))])
  {
    hide S.RunVector, StableChangeID;
    SornaField(d, S.ContextGroup(d), 0);
    SornaField(d, S.ContextGroup(d), 1);
    SornaField(d, S.ContextGroup(d), 2);
  }

  lemma SornaVerdict(d: SD.Document)
    ensures var v := S.RunVector(d);
      && Look(v, StableChangeID("verdict", "status")) == J.Str(d.verdict.status)
      && Look(v, StableChangeID("verdict", "reason")) == J.Str(d.verdict.reason)
  {
    hide S.RunVector, StableChangeID;
    SornaField(d, S.VerdictGroup(d), 0);
    SornaField(d, S.VerdictGroup(d), 1);
  }

  lemma SornaTotals(d: SD.Document)
    ensures var v := S.RunVector(d);
      && Look(v, StableChangeID("summary", "passed")) == J.Number(FormatInt(d.totals.passed))
      && Look(v, StableChangeID("summary", "failed")) == J.Number(FormatInt(d.totals.failed))
      && Look(v, StableChangeID("summary", "errors")) == J.Number(FormatInt(d.totals.errors))
      && Look(v, StableChangeID("summary", "inconclusive")) == J.Number(FormatInt(d.totals.inconclusive))
      && Look(v, StableChangeID("summary", "skipped")) == J.Number(FormatInt(d.totals.skipped))
  {
    hide S.RunVector, StableChangeID, FormatInt;
    SornaField(d, S.TotalsGroup(d), 0);
    SornaField(d, S.TotalsGroup(d), 1);
    SornaField(d, S.TotalsGroup(d), 2);
    SornaField(d, S.TotalsGroup(d), 3);
    SornaField(d, S.TotalsGroup(d), 4);
  }

  lemma SornaAssurance(d: SD.Document)
    ensures var v := S.RunVector(d);
      && Look(v, StableChangeID("assurance", "level")) == J.Number(FormatInt(d.assurance.level))
      && Look(v, StableChangeID("assurance", "status")) == J.Str(d.assurance.status)
      && Look(v, StableChangeID("assurance", "observation_coverage")) == J.Str(d.assurance.observationCoverage)
  {
    hide S.RunVector, StableChangeID, FormatInt;
    SornaField(d, S.AssuranceGroup(d), 0);
    SornaField(d, S.AssuranceGroup(d), 1);
    SornaField(d, S.AssuranceGroup(d), 2);
  }

  /** Without a lifecycle the texts are empty and the exit code is null. */
  lemma SornaLifecycle(d: SD.Document)
    ensures var v := S.RunVector(d); match d.lifecycle
      case Some(l) =>
        && Look(v, StableChangeID("lifecycle", "mode")) == J.Str(l.mode)
        && Look(v, StableChangeID("lifecycle", "outcome")) == J.Str(l.outcome)
        && Look(v, StableChangeID("lifecycle", "exit_code")) == J.Number(FormatInt(l.exitCode))
      case None =>
        && Look(v, StableChangeID("lifecycle", "mode")) == J.Str("")
        && Look(v, StableChangeID("lifecycle", "outcome")) == J.Str("")
        && Look(v, StableChangeID("lifecycle", "exit_code")) == J.Null
  {
    hide S.RunVector, StableChangeID, FormatInt;
    SornaField(d, S.LifecycleGroup(d), 0);
    SornaField(d, S.LifecycleGroup(d), 1);
    SornaField(d, S.LifecycleGroup(d), 2);
  }

  lemma SornaMutation(d: SD.Document)
    ensures var v := S.RunVector(d); var (id, outcome) := match d.mutation
      case Some(m) => (m.id, m.outcome)
      case None => ("", "");
      Look(v, StableChangeID("mutation", "id")) == J.Str(id)
      && Look(v, StableChangeID("mutation", "outcome")) == J.Str(outcome)
  {
    hide S.RunVector, StableChangeID;
    SornaField(d, S.MutationGroup(d), 0);
    SornaField(d, S.MutationGroup(d), 1);
  }

  /** And under the id of each rule its status; nothing for other ids. */
  lemma SornaRule(d: SD.Document, id: string)
    requires SD.DistinctRuleIds(d.rules)
    ensures forall r <- d.rules :: r.ruleId == id ==>
      Look(S.RunVector(d), StableChangeID("rules." + id, "status")) == J.Str(r.status)
    ensures (forall r <- d.rules :: r.ruleId != id) ==>
      Look(S.RunVector(d), StableChangeID("rules." + id, "status")) == J.Null
  {
    S.RunKeysApart(d);
    hide S.RunGroups, Flatten, SD.RuleMap, KeysApart, Content, VectorOf, StableChangeID;
    var key := S.RULE_FAMILY.Key(id);
    assert key == StableChangeID("rules." + id, "status");
    LookContent(S.RunRecord(d), S.RULE_FAMILY, key);
    forall r <- d.rules | r.ruleId == id ensures Look(S.Statuses(SD.RuleMap(d.rules)), id) == J.Str(r.status) {
      var i :| 0 <= i < |d.rules| && d.rules[i] == r;
      V.RuleHeld(d.rules, i);
    }
    if id in SD.RuleMap(d.rules) {
      V.RuleListed(d.rules, id);
    }
  }

  // ---------------------------------------------------------------------------
  // The compared fields of a Nublar run

  lemma NublarField(d: ND.Document, g: Group, i: nat)
    requires g in N.RunGroups(d) && i < |g.fields|
    ensures Look(N.RunVector(d), StableChangeID(g.category, g.fields[i].name)) == g.fields[i].value
  {
    N.RunKeysApart(d);
    GroupFieldListed(N.RunGroups(d), g, i);
    var e := Entry(g.category, g.fields[i].name, g.fields[i].value);
    hide N.RunGroups, Flatten, ND.CheckMap, KeysApart, Content, VectorOf, StableChangeID;
    LookContent(N.RunRecord(d), N.CHECK_FAMILY, e.Key());
  }

  /** The workflow, the correlation, the status and the exit code. */
  lemma NublarFields(d: ND.Document)
    ensures var v := N.RunVector(d);
      && Look(v, StableChangeID("context", "workflow.id")) == J.Str(d.workflow.id)
      && Look(v, StableChangeID("context", "workflow.file")) == F.FileRefValue(Some(d.workflow.file))
      && Look(v, StableChangeID("context", "correlation")) == (match d.correlation
        case None => J.Null
        case Some(c) => J.Obj([J.Member("system", J.Str(c.system)), J.Member("id", J.Str(c.id)),
          J.Member("attempt", J.Number(FormatInt(c.attempt)))]))
      && Look(v, StableChangeID("verdict", "status")) == J.Str(d.status)
      && Look(v, StableChangeID("verdict", "exit_code")) == J.Number(FormatInt(d.exitCode))
  {
    hide N.RunVector, StableChangeID, FormatInt, F.FileRefValue;
    NublarField(d, N.ContextGroup(d), 0);
    NublarField(d, N.ContextGroup(d), 1);
    NublarField(d, N.ContextGroup(d), 2);
    NublarField(d, N.VerdictGroup(d), 0);
    NublarField(d, N.VerdictGroup(d), 1);
  }

  /** Under the id of each check its tool, whether it is required, its status and its reason if it has one. */
  lemma NublarCheck(d: ND.Document, c: ND.Check)
    requires ND.DistinctCheckIds(d.checks) && c in d.checks
    ensures Look(N.RunVector(d), StableChangeID("check", "checks." + c.id)) == J.Obj(
      [J.Member("tool", J.Str(c.tool)), J.Member("required", J.Bool(c.required)), J.Member("status", J.Str(c.status))]
      + if c.reason == "" then [] else [J.Member("reason", J.Str(c.reason))])
  {
    N.RunKeysApart(d);
    hide N.RunGroups, Flatten, ND.CheckMap, KeysApart, Content, VectorOf, StableChangeID;
    var key := N.CHECK_FAMILY.Key(c.id);
    LookContent(N.RunRecord(d), N.CHECK_FAMILY, key);
    var i :| 0 <= i < |d.checks| && d.checks[i] == c;
    N.CheckHeld(d.checks, i);
  }

  /** A file reference as it is compared: its path, and its digest if it has one. */
  lemma FileRefMeans(ref: F.FileRef)
    ensures F.FileRefValue(Some(ref)) == J.Obj([J.Member("path", J.Str(ref.path))]
      + if ref.sha256 == "" then [] else [J.Member("sha256", J.Str(ref.sha256))])
    ensures F.FileRefValue(None) == J.Null
  {
  }

  // ---------------------------------------------------------------------------
  // The compared fields of a CI result

  lemma CiField(d: C.Artifact, g: Group, i: nat)
    requires g in C.AllGroups(d) && i < |g.fields|
    ensures Look(C.ArtifactVector(d), StableChangeID(g.category, g.fields[i].name)) == g.fields[i].value
  {
    C.ArtifactKeysApart(d);
    GroupFieldListed(C.AllGroups(d), g, i);
    FlattenAppend(C.HeadGroups(d), C.ProducerGroup(d));
    var e := Entry(g.category, g.fields[i].name, g.fields[i].value);
    hide C.HeadGroups, C.ProducerGroup, Flatten, KeysApart, Content, VectorOf, StableChangeID;
    assert e in C.ArtifactRecord(d).head || e in C.ArtifactRecord(d).tail;
    LookContent(C.ArtifactRecord(d), C.INPUT_FAMILY, e.Key());
  }

  lemma CiContext(d: C.Artifact)
    ensures var v := C.ArtifactVector(d);
      && Look(v, StableChangeID("context", "tool")) == J.Str(d.tool)
      && Look(v, StableChangeID("context", "kind")) == J.Str(d.kind)
      && Look(v, StableChangeID("context", "source.root")) == J.Str(d.root)
      && Look(v, StableChangeID("context", "source.module_path")) == J.Str(d.modulePath)
      && Look(v, StableChangeID("verdict", "status")) == J.Str(d.status)
      && Look(v, StableChangeID("verdict", "exit_code")) == J.Number(FormatInt(d.exitCode))
      && Look(v, StableChangeID("producer-report", "report")) == d.report
      && Look(v, StableChangeID("producer-report", "explanation")) == d.explanation
  {
    hide C.ArtifactVector, StableChangeID, FormatInt, C.InputGroup;
    CiField(d, C.ContextGroup(d), 0);
    CiField(d, C.ContextGroup(d), 1);
    CiField(d, C.ContextGroup(d), 2);
    CiField(d, C.ContextGroup(d), 3);
    CiField(d, C.VerdictGroup(d), 0);
    CiField(d, C.VerdictGroup(d), 1);
    CiField(d, C.ProducerGroup(d), 0);
    CiField(d, C.ProducerGroup(d), 1);
  }

  lemma CiFiles(d: C.Artifact)
    ensures var v := C.ArtifactVector(d);
      && Look(v, StableChangeID("input", "policy")) == F.FileRefValue(d.policy)
      && Look(v, StableChangeID("input", "policy_lock")) == F.FileRefValue(d.policyLock)
      && Look(v, StableChangeID("input", "graph")) == F.FileRefValue(d.graph)
      && Look(v, StableChangeID("input", "baseline")) == F.FileRefValue(d.baseline)
  {
    hide C.ArtifactVector, StableChangeID, F.FileRefValue;
    CiField(d, C.InputGroup(d), 0);
    CiField(d, C.InputGroup(d), 1);
    CiField(d, C.InputGroup(d), 2);
    CiField(d, C.InputGroup(d), 3);
  }

  /** Under the name of each input its reference, in the category of the name. */
  lemma CiInput(d: C.Artifact, name: string)
    ensures Look(C.ArtifactVector(d), StableChangeID(C.InputChangeCategory(name), "inputs." + name))
      == F.FileRefValue(if name in d.inputs then Some(d.inputs[name]) else None)
  {
    C.ArtifactKeysApart(d);
    hide C.HeadGroups, C.ProducerGroup, Flatten, KeysApart, Content, VectorOf, StableChangeID, C.InputChangeCategory;
    LookContent(C.ArtifactRecord(d), C.INPUT_FAMILY, C.INPUT_FAMILY.Key(name));
  }

  /** What the identity relation of two references says. */
  lemma IdentityMeans(before: Option<F.FileRef>, after: Option<F.FileRef>)
    ensures var relation := C.CompareArtifactIdentity(before, after);
      && (relation == "" <==> before.None? && after.None?)
      && (relation == "added" <==> before.None? && after.Some?)
      && (relation == "removed" <==> before.Some? && after.None?)
      && (relation == "unknown" <==>
        before.Some? && after.Some? && (before.value.sha256 == "" || after.value.sha256 == ""))
      && (relation == "same-bytes" <==>
        before.Some? && after.Some? && before.value.sha256 != "" && before.value.sha256 == after.value.sha256)
      && (relation == "replaced" <==> (
        && before.Some? && after.Some? && before.value.sha256 != "" && after.value.sha256 != ""
        && before.value.sha256 != after.value.sha256))
  {
    RelationTexts();
  }

  lemma RelationTexts()
    ensures "added" != "removed" && "added" != "unknown" && "added" != "same-bytes" && "added" != "replaced"
    ensures "removed" != "unknown" && "removed" != "same-bytes" && "removed" != "replaced"
    ensures "unknown" != "same-bytes" && "unknown" != "replaced" && "same-bytes" != "replaced"
  {
    assert |"added"| == 5 && |"removed"| == 7 && |"unknown"| == 7 && |"same-bytes"| == 10 && |"replaced"| == 8;
  }

  /** The names of inputs that have a category of their own, in any case of letters; all others are inputs. */
  lemma InputCategoryMeans(name: string)
    ensures var lower := C.ToLower(name); var category := C.InputChangeCategory(name);
      && (category == "contract" <==> lower in {"contract", "contract_lock", "contract_schema"})
      && (category == "plan" <==> lower in {"plan", "mutation_plan", "mutation_catalogue"})
      && (category == "provider" <==> lower in {"provider", "provider_manifest", "preparation"})
      && (category == "environment" <==> lower in {"environment", "runtime", "subject_policy"})
      && (category == "input" <==> lower !in {"contract", "contract_lock", "contract_schema", "plan", "mutation_plan",
        "mutation_catalogue", "provider", "provider_manifest", "preparation", "environment", "runtime",
        "subject_policy"})
  {
    hide C.ToLower;
    CategoryTexts();
  }

  lemma CategoryTexts()
    ensures "contract" != "plan" && "contract" != "provider" && "contract" != "environment" && "contract" != "input"
    ensures "plan" != "provider" && "plan" != "environment" && "plan" != "input"
    ensures "provider" != "environment" && "provider" != "input" && "environment" != "input"
  {
    assert "contract"[0] == 'c' && "plan"[0] == 'p' && "provider"[0] == 'p' && |"plan"| != |"provider"|;
    assert "environment"[0] == 'e' && "input"[0] == 'i';
  }
}
