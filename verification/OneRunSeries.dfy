/** A series of one bundle that holds one comparison: the input at which a blank series path is refused. */
module OneRunSeries {
  import opened Text
  import opened Changes
  import opened Records
  import opened Reports
  import opened ReportBuilding
  import opened Bundle
  import opened Series
  import D = NublarDocument
  import N = NublarRun
  import F = FileRefs

  function Run(digest: string): D.RunFile {
    D.RunFile("",
      D.Document(D.RUN_SCHEMA, "run", D.Workflow("workflow", F.FileRef("path", digest)), None, "passed", 0, "",
      "", [D.Check("check", "tool", true, "passed", "")]))
  }

  lemma RunIsPresentable(digest: string, lib: Library)
    requires IsHexDigest(digest)
    ensures D.IsLoaded(Run(digest).document) && N.IsPresentable(Run(digest), lib)
  {
    hide IsBlank;
    VisibleStart("run");
    VisibleStart("workflow");
    VisibleStart("path");
    VisibleStart("check");
    VisibleStart("tool");
    VisibleStart("passed");
    assert digest[0] in digest;
    VisibleStart(digest);
  }

  /** The comparison of the run with itself, as the only report. */
  ghost function Unsummarised(digest: string, lib: Library): Bundle {
    var nublar := N.CompareRuns(Run(digest), Run(digest), lib);
    Bundle(BUNDLE_SCHEMA, "bundle.json", BundleSummary(true, [], ChangeSummary(0, map[]), [], map[]), [], [],
      None, None, Some(nublar), None, None)
  }

  ghost function OneBundle(digest: string, lib: Library): Bundle {
    var b := Unsummarised(digest, lib);
    b.(summary := SummaryOf(Parts(b)), correlations := Correlate(b))
  }

  lemma OneBundleIsValid(digest: string, lib: Library)
    requires IsHexDigest(digest)
    ensures IsBundle(OneBundle(digest, lib)) && !IsBlank(OneBundle(digest, lib).manifest)
  {
    hide IsBlank, IsHexDigest, IsBundle, N.CompareRuns, N.IsNublarReport, N.IsPresentable, D.IsLoaded;
    RunIsPresentable(digest, lib);
    N.ComparisonIsValid(Run(digest), Run(digest), lib);
    VisibleStart("bundle.json");
    DerivedBundleIsValid(Unsummarised(digest, lib));
  }

  const ENTRIES := [SeriesEntry("first", "", "bundle.json")]

  /** Valid entries and a valid bundle: with the path of one space the series is refused, without it not. */
  lemma BlankPath(digest: string, lib: Library)
    requires IsHexDigest(digest)
    ensures IsManifest(SeriesManifest(MANIFEST_SCHEMA, ENTRIES)) && IsBundle(OneBundle(digest, lib))
    ensures !IsSeries(SeriesOf(" ", ENTRIES, [OneBundle(digest, lib)], []))
    ensures IsSeries(SeriesOf("", ENTRIES, [OneBundle(digest, lib)], []))
  {
    hide IsBlank, IsHexDigest, IsBundle, OneBundle, IsSeries, SeriesOf;
    OneBundleIsValid(digest, lib);
    VisibleStart("first");
    VisibleStart("bundle.json");
    BlankPathIsRefused(SeriesManifest(MANIFEST_SCHEMA, ENTRIES), [OneBundle(digest, lib)], []);
  }
}
