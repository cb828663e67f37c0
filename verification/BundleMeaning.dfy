/** What a bundle derives from its reports and what a filter leaves of them, field by field. */
module BundleMeaning {
  import opened Text
  import opened StringOrder
  import opened CountMaps
  import opened Changes
  import opened Reports
  import opened Bundle
  import opened BundleFilter
  import M = ReportMeaning

  // ---------------------------------------------------------------------------
  // Correlations

  /** What a relation says of the two identifiers it was observed of. */
  predicate Relates(relation: string, left: string, right: string) {
    && (relation == "exact-match" <==> left != "" && left == right)
    && (relation == "mismatch" <==> left != "" && right != "" && left != right)
    && (relation == "unknown" <==> left == "" || right == "")
  }

  lemma RelationMeans(left: string, right: string)
    ensures Relates(Relation(left, right), left, right)
  {
    assert |"exact-match"| == 11 && |"mismatch"| == 8 && |"unknown"| == 7;
  }

  predicate ObservesCustody(c: Correlation, side: string, nublar: Side, custody: Side) {
    && c.kind == "nublar-run-to-custody-source" && c.side == side
    && c.nublarRunId == nublar.runId && c.custodySourceRunId == custody.runId
    && c.nublarCorrelationId == "" && c.amberCorrelationId == ""
    && Relates(c.relation, nublar.runId, custody.runId)
  }

  predicate ObservesAmber(c: Correlation, side: string, nublar: Side, amber: Side) {
    && c.kind == "nublar-correlation-to-amber" && c.side == side
    && c.nublarCorrelationId == nublar.correlationId && c.amberCorrelationId == amber.correlationId
    && c.nublarRunId == "" && c.custodySourceRunId == ""
    && Relates(c.relation, nublar.correlationId, amber.correlationId)
  }

  /** A bundle with a Nublar report has two correlations with each of custody and provenance that is there,
  custody first, and before comes before after. */
  lemma CorrelationsMean(b: Bundle)
    ensures var cs := Correlate(b); var custody := if b.nublar.Some? && b.custody.Some? then 2 else 0;
      && |cs| == custody + (if b.nublar.Some? && b.provenance.Some? then 2 else 0)
      && (custody == 2 ==>
        && ObservesCustody(cs[0], "before", b.nublar.value.before, b.custody.value.before)
        && ObservesCustody(cs[1], "after", b.nublar.value.after, b.custody.value.after))
      && (b.nublar.Some? && b.provenance.Some? ==>
        && ObservesAmber(cs[custody], "before", b.nublar.value.before, b.provenance.value.before)
        && ObservesAmber(cs[custody + 1], "after", b.nublar.value.after, b.provenance.value.after))
  {
    hide Relates, Relation;
    forall left: string, right: string ensures Relates(Relation(left, right), left, right) {
      RelationMeans(left, right);
    }
  }

  // ---------------------------------------------------------------------------
  // The summary

  /** The report under a subsystem's name. */
  function ReportOf(b: Bundle, name: string): Option<Report> {
    if name == "ci_result" then if b.ci.None? then None else Some(b.ci.value.report)
    else if name == "sorna_run" then if b.sorna.None? then None else Some(b.sorna.value.report)
    else if name == "nublar_run" then b.nublar
    else if name == "custody" then b.custody
    else if name == "provenance" then b.provenance
    else None
  }

  function ReasonsUnder(b: Bundle, name: string): seq<string> {
    match ReportOf(b, name)
    case None => []
    case Some(r) => Prefixed(name, r.reasons)
  }

  lemma NamedReports(b: Bundle)
    ensures ReportOf(b, "ci_result") == (if b.ci.None? then None else Some(b.ci.value.report))
    ensures ReportOf(b, "sorna_run") == (if b.sorna.None? then None else Some(b.sorna.value.report))
    ensures ReportOf(b, "nublar_run") == b.nublar
    ensures ReportOf(b, "custody") == b.custody
    ensures ReportOf(b, "provenance") == b.provenance
  {
    NamesDiffer();
    assert NAMES[0] == "ci_result" && NAMES[1] == "sorna_run" && NAMES[2] == "nublar_run";
    assert NAMES[3] == "custody" && NAMES[4] == "provenance";
  }

  /** The parts of a bundle are its reports. */
  lemma PartsMean(b: Bundle, name: string, report: Report)
    ensures ReportOf(b, name) == Some(report) <==> exists p <- Parts(b) :: p.name == name && p.report == report
  {
    NamedReports(b);
    if p :| p in Parts(b) && p.name == name && p.report == report {
      PartFound(b, p);
    }
    if ReportOf(b, name) == Some(report) {
      PartListed(b, name);
    }
  }

  lemma PartFound(b: Bundle, p: Part)
    requires p in Parts(b)
    ensures ReportOf(b, p.name) == Some(p.report)
  {
    NamedReports(b);
    hide ReportOf;
  }

  lemma PartListed(b: Bundle, name: string)
    requires ReportOf(b, name).Some?
    ensures exists p <- Parts(b) :: p.name == name && p.report == ReportOf(b, name).value
  {
    var ps := Five(b);
    var i := if name == "ci_result" then 0 else if name == "sorna_run" then 1 else if name == "nublar_run" then 2
      else if name == "custody" then 3 else 4;
    var part: seq<Part> := ps[i];
    assert |part| == 1 && part[0].name == name && part[0].report == ReportOf(b, name).value;
    hide Five, Parts, ReportOf;
    InFive(ps, i);
  }

  lemma InFive(ps: seq<seq<Part>>, i: nat)
    requires |ps| == 5 && i < 5 && |ps[i]| == 1
    ensures ps[i][0] in ps[0] + ps[1] + ps[2] + ps[3] + ps[4]
  {
  }

  lemma {:induction false} SubsystemsListed(parts: seq<Part>)
    ensures forall p <- parts :: p.name in Subsystems(parts)
    ensures forall name <- Subsystems(parts) ::
      exists p <- parts :: p.name == name && Subsystems(parts)[name] == SubsystemOf(p.report)
  {
    hide SubsystemOf;
    if parts != [] {
      SubsystemsListed(parts[..|parts| - 1]);
    }
  }

  /** Every report that is there has its subsystem, and there are no others. */
  lemma SubsystemsMean(b: Bundle, name: string)
    ensures var s := SummaryOf(Parts(b)).subsystems; match ReportOf(b, name)
      case None => name !in s
      case Some(r) =>
        && name in s && s[name].compatible == r.compatible && s[name].transition == r.transition
        && s[name].summary.total == |r.changes|
        && forall category :: Lookup(s[name].summary.byCategory, category) == multiset(Categories(r.changes))[category]
  {
    hide ReportOf, Parts, Subsystems, AllReasons, AllWarnings, AllChanges;
    SubsystemsListed(Parts(b));
    if name in Subsystems(Parts(b)) {
      var p :| p in Parts(b) && p.name == name && Subsystems(Parts(b))[name] == SubsystemOf(p.report);
      PartsMean(b, name, p.report);
      M.SummaryCounts(p.report.changes);
    } else if ReportOf(b, name).Some? {
      PartsMean(b, name, ReportOf(b, name).value);
    }
    hide Summarize, Lookup;
  }

  function ReasonsIn(part: seq<Part>): seq<string> {
    if part == [] then [] else Prefixed(part[0].name, part[0].report.reasons)
  }

  function WarningsIn(part: seq<Part>): seq<string> {
    if part == [] then [] else Prefixed(part[0].name, part[0].warnings)
  }

  lemma TextsAppend(parts: seq<Part>, more: seq<Part>)
    requires |more| <= 1
    ensures AllReasons(parts + more) == AllReasons(parts) + ReasonsIn(more)
    ensures AllWarnings(parts + more) == AllWarnings(parts) + WarningsIn(more)
    ensures parts == [] ==> AllReasons(more) == ReasonsIn(more) && AllWarnings(more) == WarningsIn(more)
  {
    if more == [] {
      assert parts + more == parts;
    } else {
      OnePartMore(parts, more[0]);
      assert parts + more == parts + [more[0]];
      assert parts == [] ==> parts + more == more;
    }
  }

  lemma TextsInOrder(ps: seq<seq<Part>>)
    requires AreFive(ps)
    ensures AllReasons(ps[0] + ps[1] + ps[2] + ps[3] + ps[4])
      == ReasonsIn(ps[0]) + ReasonsIn(ps[1]) + ReasonsIn(ps[2]) + ReasonsIn(ps[3]) + ReasonsIn(ps[4])
    ensures AllWarnings(ps[0] + ps[1] + ps[2] + ps[3] + ps[4])
      == WarningsIn(ps[0]) + WarningsIn(ps[1]) + WarningsIn(ps[2]) + WarningsIn(ps[3]) + WarningsIn(ps[4])
  {
    hide AllReasons, AllWarnings, ReasonsIn, WarningsIn;
    TextsAppend([], ps[0]);
    TextsAppend(ps[0], ps[1]);
    TextsAppend(ps[0] + ps[1], ps[2]);
    TextsAppend(ps[0] + ps[1] + ps[2], ps[3]);
    TextsAppend(ps[0] + ps[1] + ps[2] + ps[3], ps[4]);
  }

  lemma ReasonsOfPlace(b: Bundle, name: string, part: seq<Part>)
    requires part == OptionalPart(name, ReportOf(b, name)) || (
      && ReportOf(b, name).Some? && |part| == 1 && part[0].name == name && part[0].report == ReportOf(b, name).value)
    ensures ReasonsIn(part) == ReasonsUnder(b, name)
  {
    hide ReportOf;
  }

  /** The five places by name; only the first may have warnings. */
  lemma PlacesMean(b: Bundle)
    ensures var ps := Five(b);
      && ReasonsIn(ps[0]) == ReasonsUnder(b, "ci_result") && ReasonsIn(ps[1]) == ReasonsUnder(b, "sorna_run")
      && ReasonsIn(ps[2]) == ReasonsUnder(b, "nublar_run") && ReasonsIn(ps[3]) == ReasonsUnder(b, "custody")
      && ReasonsIn(ps[4]) == ReasonsUnder(b, "provenance")
      && WarningsIn(ps[0]) == (if b.ci.None? then [] else Prefixed("ci_result", b.ci.value.warnings))
      && WarningsIn(ps[1]) == [] && WarningsIn(ps[2]) == [] && WarningsIn(ps[3]) == [] && WarningsIn(ps[4]) == []
  {
    NamedReports(b);
    hide ReportOf, ReasonsUnder, ReasonsIn;
    var ps := Five(b);
    ReasonsOfPlace(b, "ci_result", ps[0]);
    ReasonsOfPlace(b, "sorna_run", ps[1]);
    ReasonsOfPlace(b, "nublar_run", ps[2]);
    ReasonsOfPlace(b, "custody", ps[3]);
    ReasonsOfPlace(b, "provenance", ps[4]);
  }

  /** A bundle is compatible when it has a report and all its reports are; its reasons are those of its reports
  in a fixed order, each after the subsystem's name, and its warnings are those of the CI report. */
  lemma SummaryMeans(b: Bundle)
    ensures var s := SummaryOf(Parts(b));
      && (s.compatible <==> (
        && (exists name :: ReportOf(b, name).Some?)
        && (forall name :: ReportOf(b, name).Some? ==> ReportOf(b, name).value.compatible)))
      && s.reasons == ReasonsUnder(b, "ci_result") + ReasonsUnder(b, "sorna_run") + ReasonsUnder(b, "nublar_run")
        + ReasonsUnder(b, "custody") + ReasonsUnder(b, "provenance")
      && s.warnings == if b.ci.None? then [] else Prefixed("ci_result", b.ci.value.warnings)
  {
    CompatibleMeans(b);
    TextsMean(b);
    hide ReasonsUnder, ReportOf, Parts, AllReasons, AllWarnings, AllChanges, Subsystems, Summarize;
  }

  lemma TextsMean(b: Bundle)
    ensures AllReasons(Parts(b)) == ReasonsUnder(b, "ci_result") + ReasonsUnder(b, "sorna_run")
      + ReasonsUnder(b, "nublar_run") + ReasonsUnder(b, "custody") + ReasonsUnder(b, "provenance")
    ensures AllWarnings(Parts(b)) == if b.ci.None? then [] else Prefixed("ci_result", b.ci.value.warnings)
  {
    hide Five, Parts, ReasonsUnder, AllReasons, AllWarnings, ReasonsIn, WarningsIn;
    TextsInOrder(Five(b));
    PlacesMean(b);
  }

  lemma CompatibleMeans(b: Bundle)
    ensures Parts(b) != [] <==> exists name :: ReportOf(b, name).Some?
    ensures (forall p <- Parts(b) :: p.report.compatible)
      <==> forall name :: ReportOf(b, name).Some? ==> ReportOf(b, name).value.compatible
  {
    hide ReportOf, Parts;
    forall p <- Parts(b) ensures ReportOf(b, p.name) == Some(p.report) {
      PartFound(b, p);
    }
    forall name | ReportOf(b, name).Some? ensures exists p <- Parts(b) :: p.report == ReportOf(b, name).value {
      PartListed(b, name);
    }
    if Parts(b) != [] {
      assert ReportOf(b, Parts(b)[0].name).Some?;
    }
    if forall name :: ReportOf(b, name).Some? ==> ReportOf(b, name).value.compatible {
      forall p <- Parts(b) ensures p.report.compatible {
        assert ReportOf(b, p.name).value.compatible;
      }
    }
  }

  // ---------------------------------------------------------------------------
  // The filter

  /** The selected ids are the trimmed ids that are not empty. */
  lemma NormalizedMeans(ids: seq<string>, x: string)
    ensures x in Normalized(ids) <==> x != "" && exists id <- ids :: Trim(id) == x
  {
    hide Trim;
  }

  lemma {:induction false} KeptOf(changes: seq<Change>, selected: set<string>)
    ensures forall c :: c in Keep(changes, selected) <==>
      exists d <- changes :: c == Fill(d) && (selected == {} || d.StableID() in selected)
  {
    hide Fill;
    if changes != [] {
      KeepStep(changes, selected);
      KeptOf(changes[..|changes| - 1], selected);
      hide Keep;
    }
  }

  /** Nothing of a report changes but its changes, their summary and the list of the selected ids. */
  lemma FilteredReportMeans(r: Report, selected: set<string>)
    ensures var f := FilteredReport(r, selected);
      && f.schema == r.schema && f.compatible == r.compatible && f.reasons == r.reasons
      && f.before == r.before && f.after == r.after && f.transition == r.transition
      && Ascending(f.filter) && (forall x :: x in f.filter <==> x in selected)
      && (forall c :: c in f.changes <==>
        exists d <- r.changes :: c == Fill(d) && (selected == {} || d.StableID() in selected))
      && f.summary.total == |f.changes|
      && forall category :: Lookup(f.summary.byCategory, category) == multiset(Categories(f.changes))[category]
  {
    KeptOf(r.changes, selected);
    M.SummaryCounts(Keep(r.changes, selected));
  }

  /** Every report of a bundle is filtered, none is dropped, and the rest of the bundle is kept or derived again. */
  lemma FilteredBundleMeans(b: Bundle, selected: set<string>)
    ensures var f := FilteredBundle(b, selected);
      && f.schema == b.schema && f.manifest == b.manifest
      && Ascending(f.filter) && (forall x :: x in f.filter <==> x in selected)
      && (forall name :: ReportOf(f, name) == match ReportOf(b, name)
        case None => None
        case Some(r) => Some(FilteredReport(r, selected)))
      && (f.ci.Some? ==> f.ci.value.warnings == b.ci.value.warnings && f.ci.value.campaign == b.ci.value.campaign)
      && f.summary == SummaryOf(Parts(f)) && f.correlations == Correlate(f)
  {
    hide FilteredReport, SummaryOf, Correlate, KeepRules, SelectedRules, SortedSet;
    var f := FilteredBundle(b, selected);
    SameReports(FilteredReports(b, selected), f);
  }

  lemma SameReports(b: Bundle, f: Bundle)
    requires b.ci == f.ci && b.sorna == f.sorna && b.nublar == f.nublar && b.custody == f.custody
    requires b.provenance == f.provenance
    ensures Parts(b) == Parts(f) && Correlate(b) == Correlate(f)
  {
  }

  /** Whether the elements of one list are those of another, in its order, with some left out. */
  predicate IsSublist<T(==)>(xs: seq<T>, ys: seq<T>) {
    if ys == [] then xs == []
    else
      var front, last := ys[..|ys| - 1], ys[|ys| - 1];
      IsSublist(xs, front) || (xs != [] && xs[|xs| - 1] == last && IsSublist(xs[..|xs| - 1], front))
  }

  lemma {:induction false} KeptRulesInOrder(rules: seq<RuleStatusChange>, selected: set<string>)
    ensures IsSublist(KeepRules(rules, selected), rules)
  {
    hide RuleKey;
    if rules != [] {
      var front, last := rules[..|rules| - 1], rules[|rules| - 1];
      KeptRulesInOrder(front, selected);
      var kept := KeepRules(front, selected);
      if RuleKey(last) in selected {
        assert (kept + [last])[..|kept|] == kept;
      } else {
        assert kept + [] == kept;
      }
    }
  }

  lemma {:induction false} SublistOfItself<T>(xs: seq<T>)
    ensures IsSublist(xs, xs)
  {
    if xs != [] {
      SublistOfItself(xs[..|xs| - 1]);
    }
  }

  /** Of a valid report's rule index a filter keeps, in order, the rules whose status change it selects. */
  lemma FilteredRulesMean(s: SornaReport, selected: set<string>, rule: RuleStatusChange)
    requires AreValidChanges(s.report.changes) && RuleIndexMatches(s.report.changes, s.changedRules)
    ensures var rules := FilteredSorna(s, selected).changedRules;
      && IsSublist(rules, s.changedRules)
      && (rule in rules <==>
        rule in s.changedRules && (selected == {} || "rules." + rule.ruleId + ".status" in selected))
  {
    SublistOfItself(s.changedRules);
    var changes := s.report.changes;
    var kept := Keep(changes, selected);
    KeptRulesInOrder(s.changedRules, SelectedRules(kept));
    KeptRules(s.changedRules, SelectedRules(kept));
    if selected != {} && rule in s.changedRules {
      assert rule.ruleId in RuleIDs(s.changedRules);
      RuleIsSelected(changes, selected, rule.ruleId);
    }
    hide IsSublist, KeepRules, Keep, SelectedRules, AreValidChanges, RuleIndexMatches, FilteredReport;
  }

  lemma RuleIsSelected(changes: seq<Change>, selected: set<string>, id: string)
    requires AreValidChanges(changes) && selected != {} && id in ExpectedRules(changes)
    ensures var key := "rules." + id + ".status";
      key in SelectedRules(Keep(changes, selected)) <==> key in selected
  {
    var c :| c in changes && IsRuleChange(c) && RuleOf(c) == id;
    RuleChangeKey(c);
    StoredKeys(changes);
    hide IsBlank, IsRuleKey, IsValidChange;
    KeepIsSublist(changes, selected);
    hide Keep;
    if c.id in selected {
      assert c in Keep(changes, selected);
      assert c.StableID() == c.id;
    }
  }
}
