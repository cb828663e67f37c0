/** Nublar run documents: what the loader checks, the summary a report keeps, and what its validator checks. */
module NublarDocument {
  import opened Text
  import opened Changes
  import opened Reports
  import opened ReportBuilding
  import opened FileRefs

  datatype Workflow = Workflow(id: string, file: FileRef)

  datatype RunCorrelation = RunCorrelation(system: string, id: string, attempt: int)

  datatype Check = Check(id: string, tool: string, required: bool, status: string, reason: string)

  datatype CheckSummary = CheckSummary(tool: string, required: bool, status: string, reason: string)

  /** A run document. */
  datatype Document = Document(
    schema: string, runId: string, workflow: Workflow, correlation: Option<RunCorrelation>, status: string,
    exitCode: int, createdAt: string, completedAt: string, checks: seq<Check>)

  /** A document and the path it was read from, which may be left out. */
  datatype RunFile = RunFile(path: string, document: Document)

  /** One side of a report: the document with its checks by id. */
  datatype Summary = Summary(
    path: string, schema: string, runId: string, workflow: Workflow, correlation: Option<RunCorrelation>,
    status: string, exitCode: int, createdAt: string, completedAt: string, checks: map<string, CheckSummary>)

  function SummaryOfCheck(c: Check): CheckSummary { CheckSummary(c.tool, c.required, c.status, c.reason) }

  /** The checks by id; a repeated id keeps its last check. */
  function CheckMap(checks: seq<Check>): map<string, CheckSummary> {
    if checks == [] then map[]
    else
      CheckMap(checks[..|checks| - 1])[checks[|checks| - 1].id := SummaryOfCheck(checks[|checks| - 1])]
  }

  method SummarizeChecks(checks: seq<Check>) returns (m: map<string, CheckSummary>)
    ensures m == CheckMap(checks)
  {
    m := map[];
    for i := 0 to |checks|
      invariant m == CheckMap(checks[..i])
    {
      assert checks[..i + 1][..i] == checks[..i];
      m := m[checks[i].id := SummaryOfCheck(checks[i])];
    }
    assert checks[..|checks|] == checks;
  }

  function SummaryOf(f: RunFile): Summary {
    var d := f.document;
    Summary(f.path, d.schema, d.runId, d.workflow, d.correlation, d.status, d.exitCode, d.createdAt, d.completedAt,
      CheckMap(d.checks))
  }

  // ---------------------------------------------------------------------------
  // What the loader checks, and what the validator of summaries checks

  const RUN_SCHEMA := "ingen.nublar-run/v1"

  predicate IsCorrelation(c: RunCorrelation) { !IsBlank(c.system) && !IsBlank(c.id) && c.attempt >= 1 }

  predicate DistinctCheckIds(checks: seq<Check>) { forall i, j | 0 <= i < j < |checks| :: checks[i].id != checks[j].id }

  /** The checks of `loadNublarRun`. */
  predicate IsLoaded(d: Document) {
    && d.schema == RUN_SCHEMA
    && !IsBlank(d.runId) && !IsBlank(d.workflow.id)
    && !IsBlank(d.workflow.file.path) && !IsBlank(d.workflow.file.sha256)
    && (d.correlation.Some? ==> IsCorrelation(d.correlation.value))
    && d.checks != [] && (forall c <- d.checks :: !IsBlank(c.id)) && DistinctCheckIds(d.checks)
  }

  predicate IsCheck(id: string, c: CheckSummary) { !IsBlank(id) && !IsBlank(c.tool) && !IsBlank(c.status) }

  /** `validateNublarRunSummary`. */
  predicate IsSummary(s: Summary, lib: Library) {
    && s.schema == RUN_SCHEMA
    && IsPath(s.path)
    && !IsBlank(s.runId) && !IsBlank(s.workflow.id)
    && !IsBlank(s.workflow.file.sha256) && IsFileRef(s.workflow.file)
    && (s.correlation.Some? ==> IsCorrelation(s.correlation.value))
    && !IsBlank(s.status) && s.exitCode >= 0
    && (s.createdAt != "" ==> lib.isTime(s.createdAt)) && (s.completedAt != "" ==> lib.isTime(s.completedAt))
    && s.checks != map[] && (forall id <- s.checks :: IsCheck(id, s.checks[id]))
  }

  /** The side of a report; whether its summary passes is recorded when the report is built. */
  function SideOf(f: RunFile, lib: Library): Side {
    var correlation := f.document.correlation;
    Side(IsSummary(SummaryOf(f), lib), f.document.runId, if correlation.Some? then correlation.value.id else "")
  }

  /** The loop of the loader over the checks. */
  method LoadChecks(checks: seq<Check>) returns (ok: bool)
    ensures ok <==> (forall c <- checks :: !IsBlank(c.id)) && DistinctCheckIds(checks)
  {
    hide IsBlank;
    var seen: set<string> := {};
    for i := 0 to |checks|
      invariant (forall c <- checks[..i] :: !IsBlank(c.id)) && DistinctCheckIds(checks[..i])
      invariant forall id :: id in seen <==> exists j | 0 <= j < i :: checks[j].id == id
    {
      assert checks[i] in checks;
      if IsBlank(checks[i].id) || checks[i].id in seen {
        return false;
      }
      seen := seen + {checks[i].id};
      assert checks[..i + 1] == checks[..i] + [checks[i]];
    }
    assert checks[..|checks|] == checks;
    return true;
  }

  method ValidateNublarRun(d: Document) returns (ok: bool)
    ensures ok == IsLoaded(d)
  {
    hide IsBlank, IsCorrelation, DistinctCheckIds;
    if d.schema != RUN_SCHEMA || IsBlank(d.runId) || IsBlank(d.workflow.id) {
      return false;
    }
    if IsBlank(d.workflow.file.path) || IsBlank(d.workflow.file.sha256) {
      return false;
    }
    if (d.correlation.Some? && !IsCorrelation(d.correlation.value)) || |d.checks| == 0 {
      return false;
    }
    ok := LoadChecks(d.checks);
  }

  /** The loop of the summary validator over the checks, in any order. */
  method ValidateCheckMap(checks: map<string, CheckSummary>) returns (ok: bool)
    ensures ok <==> forall id <- checks :: IsCheck(id, checks[id])
  {
    hide IsCheck;
    var rest := checks.Keys;
    while rest != {}
      invariant rest <= checks.Keys && forall id <- checks.Keys - rest :: IsCheck(id, checks[id])
      decreases |rest|
    {
      var id :| id in rest;
      if !IsCheck(id, checks[id]) {
        return false;
      }
      rest := rest - {id};
    }
    return true;
  }

  method ValidateNublarRunSummary(s: Summary, lib: Library) returns (ok: bool)
    ensures ok == IsSummary(s, lib)
  {
    hide IsBlank, IsCorrelation, IsFileRef, IsCheck, IsPath;
    if s.schema != RUN_SCHEMA || !IsPath(s.path) || IsBlank(s.runId) || IsBlank(s.workflow.id) {
      return false;
    }
    if IsBlank(s.workflow.file.sha256) || !IsFileRef(s.workflow.file) {
      return false;
    }
    if (s.correlation.Some? && !IsCorrelation(s.correlation.value)) || IsBlank(s.status) || s.exitCode < 0 {
      return false;
    }
    if (s.createdAt != "" && !lib.isTime(s.createdAt)) || (s.completedAt != "" && !lib.isTime(s.completedAt)) {
      return false;
    }
    if s.checks == map[] {
      return false;
    }
    ok := ValidateCheckMap(s.checks);
  }
}
