# Malcolm, Sattler, packaging and Amber: a verified model

This project models four parts of the InGen repository in Dafny and proves what they promise.

* **Malcolm** (`malcolm/src`) reads executable specifications line by line and prints an intermediate
  representation as JSON. The model has the line-driven parser with its nine state variables, the literal
  parser with its cursor, the scanner that decides when a literal on several lines has ended, the conversion
  of the syntax tree, and the hand-written JSON printer. It is proved that the flat machine is a recursive
  descent parser, exactly which specifications some source is accepted with, that writing one out in the
  documented clauses and parsing it gives it back, that an error names the first line that spoils the source,
  that literals and layout mean what they should, and that a reader which looks up members by name recovers
  the specification from the printed text.
* **Sattler** (`sattler`) compares evidence records. The model has the change lists, their summaries and
  filters, the comparison of Sorna runs, Nublar runs and CI results, the bundle of comparisons, the series of
  bundles, and the validator of each. It is proved that a change list is an exact patch, what transitions,
  reasons, correlations and counts say in terms of the compared documents alone, that counts are conserved,
  that filtering keeps reports valid, and exactly when a report that Sattler builds passes Sattler's own
  validator.
* **Packaging** (`packaging/ingen_package.py`) verifies, exports, extracts and installs bundles. It is proved
  exactly which trees of files verify, that the three closures of directories written in three ways are one
  set, that exporting and extracting give the bundle back, that the second pass over an archive agrees with
  the first, and that installation is all or nothing whichever step fails, and succeeds when none does.
* **Amber** (`amber/go/provenance.go`) makes identifiers and provenance values. It is proved what every run of
  transitions keeps and takes over, and which draws of random bytes give the same identifier.

The pure parts of the sources are functions; the parts that work in place are methods and classes (`BlockParser`,
`LiteralParser`, `Writer`, `ChangeList`, `SummaryBuilder`, `SeriesBuilder`, `Installation`), each proved equal to
a specification function about which the lemmas speak. Line numbers below refer to files of the repository.

## Model

| member | source | states |
|---|---|---|
| BlockMachine.ParseNeverPanics | malcolm/src/parser.rs:17-335 | On every source text the parser returns: no `expect` fires, and `specification_mut` is only called while a specification is open. |
| BlockMachine.StepIsSound | malcolm/src/parser.rs:26-321 | One line keeps the relation between the nine state variables: at most one block is open, it lies in a specification, a body has its owner, and an unfinished value has its body. |
| BlockRefinement.MachineIsRecursiveDescent | malcolm/src/parser.rs:17-335 | For every source the flat machine and an independent recursive descent over blocks give the same specification, or the same error kind on the same line. |
| BlockRefinement.ParseKeepsEveryBlock | malcolm/src/parser.rs:17-335 | An accepted specification holds every scenario, mutation and fixture of the source once and in source order, the subject, provenance and isolation clauses that the source has, and nothing else. |
| BlockGrammar.AssembleKeepsSingles | malcolm/src/parser.rs:189-320 | A clause allowed once is read at most once, so no later block overwrites it. |
| Parser.Parse | malcolm/src/parser.rs:17-335 | The loop with its mutable variables returns exactly what the machine of steps decides. |
| Parser.BlockParser.InBody | malcolm/src/parser.rs:34-82 | One line inside a body, with or without an unfinished value, updates the parser as the step says. |
| Parser.BlockParser.Line | malcolm/src/parser.rs:26-321 | One significant line updates the parser as the step says. |
| SourceAccepted.SourceIsAccepted | malcolm/src/parser.rs:17-335 | Every specification whose texts fit on clause lines, written out in the documented clause forms, is parsed to exactly that specification. |
| AcceptedSources.AcceptedExactly | malcolm/src/parser.rs:17-335 | Some source is accepted with a specification if and only if its texts fit on clause lines: names are words or identifiers, expressions visible and on one line, quoted texts clean, body fields distinct, provenance at most one requirement. |
| AcceptedSources.AcceptedIsReadAgain | malcolm/src/parser.rs:17-335 | Writing out what an accepted source gave and parsing the text gives the same specification again. |
| ErrorLines.ErrorIsAtFirstBadLine | malcolm/src/parser.rs:17-335 | An error names the first line that spoils the source: the lines before it can be completed to an accepted source, and from a line at or after it on every continuation is refused with the same error; errors for the end of the source name the line of the unclosed literal, or the last line of a source that can still be completed. |
| ClauseText.SpecReads | malcolm/src/parser.rs:337-358 | `spec NAME {` and `spec NAME VERSION {` open a specification of that name and version. |
| ClauseText.RequirementReads | malcolm/src/parser.rs:639-653 | `must E` stores a requirement of kind `Must` with the expression, `must_not E` one of kind `MustNot`. |
| ClauseText.ScenarioWhenReads | malcolm/src/parser.rs:628-637 | `when METHOD "PATH"` stores method and path, in a scenario that has none yet. |
| ClauseText.GivenReads | malcolm/src/parser.rs:621-626 | `given E` appends the expression. |
| ClauseText.StateReads | malcolm/src/parser.rs:610-619 | `state NAME` stores the state, in a scenario that has none yet. |
| ClauseText.SetupRequirementReads | malcolm/src/parser.rs:677-691 | In a setup, `must E` and `must_not E` likewise. |
| ClauseText.SetupCaptureReads | malcolm/src/parser.rs:772-801 | `capture NAME = response.body.PATH` stores name and selector. |
| ClauseText.BodyReads | malcolm/src/parser.rs:704-731 | `NAME = LITERAL` appends a field with that name and value. |
| ClauseText.TargetReads | malcolm/src/parser.rs:433-446 | `target NAME` stores the scenario of a mutation. |
| ClauseText.ChangeReads | malcolm/src/parser.rs:448-472 | `change response.status from A to B` stores the field, A as the old and B as the new status. |
| ClauseText.RuleReads | malcolm/src/parser.rs:474-490 | `expect rule E to fail` stores the rule. |
| ClauseText.OwnerReads | malcolm/src/parser.rs:385-398 | `owner oracle` stores the owner of a fixture. |
| ClauseText.PurposeReads | malcolm/src/parser.rs:400-409 | `purpose "TEXT"` stores the purpose. |
| ClauseText.DigestReads | malcolm/src/parser.rs:411-420 | `sha256 "TEXT"` stores the digest. |
| ClauseText.ResetReads | malcolm/src/parser.rs:529-561 | `reset POST "PATH"` stores the path. |
| Layout.ErasingKeepsTheOutcome | malcolm/src/parser.rs:26-32 | Removing every blank and comment line, even inside an unfinished literal, keeps the specification, or the kind of the error. |
| Layout.ErrorLineInRange | malcolm/src/parser.rs:322-335 | Every error is reported on a line of the source, or on line 1 of an empty one. |
| BracketScanner.BodyValueIsComplete | malcolm/src/parser.rs:733-770 | The scanner loop stops as its specification says: at a closer nobody expects, or at the end with a quote open or no bracket open. |
| BracketScanner.AcceptedLiteralScans | malcolm/src/parser.rs:733-770 | A literal that the parser accepts leaves the scanner outside quotes with its stack as it was. |
| BrokenLiterals.AcceptedLineScans | malcolm/src/parser.rs:704-770 | A body line that the parser accepts is complete for the scanner. |
| BrokenLiterals.PrefixOfAcceptedLine | malcolm/src/parser.rs:733-770 | A prefix of an accepted line is judged incomplete exactly when it ends outside a string with a bracket open. |
| BrokenLiterals.UnbrokenPrefix | malcolm/src/parser.rs:733-770 | Scanner and tokens agree on strings: a text cut outside a string has no broken quote before the cut if it has none at all. |
| BrokenLiterals.BreakingBetweenTokens | malcolm/src/parser.rs:34-82 | An accepted body line, cut inside brackets, outside strings and between tokens, takes the machine to the same outcome when its parts come as separate lines. |
| BrokenSources.BreakingKeepsTheOutcome | malcolm/src/parser.rs:17-82 | Two source texts, of which one has in a body an accepted line and the other has it cut so over several lines with any indentation, give the same specification or the same kind of error. |
| Tokens.AcceptanceIsByTokens | malcolm/src/parser.rs:803-1023 | The literal parser accepts a text with a value exactly when a grammar over its tokens does. |
| Tokens.SameTokensSameLiteral | malcolm/src/parser.rs:803-1023 | Texts with the same tokens are accepted with the same value: whitespace between tokens, line breaks included, never matters. |
| Tokens.AcceptedTokens | malcolm/src/parser.rs:943-957 | Every word of an accepted literal is a scalar, a count or an identifier. |
| LiteralParser.ParseLiteral | malcolm/src/parser.rs:803-818 | The parser object with its cursor returns what the grammar on the remaining text returns, errors included. |
| LiteralParser.LiteralParser.ParseValue | malcolm/src/parser.rs:827-843 | One value moves the cursor exactly past the text that the grammar consumes. |
| LiteralParser.LiteralParser.ParseRepeat | malcolm/src/parser.rs:845-878 | A generator needs a quoted text and an integer count between parentheses. |
| LiteralParser.LiteralParser.ParseArray | malcolm/src/parser.rs:880-897 | The loop over elements gives what the grammar gives. |
| LiteralParser.LiteralParser.ParseObject | malcolm/src/parser.rs:899-923 | The loop over members gives what the grammar gives, a repeated name included. |
| LiteralParser.LiteralParser.ParseString | malcolm/src/parser.rs:959-986 | The loop over characters finds the closing quote and decodes what lies before it. |
| LiteralSource.LiteralReadsBack | malcolm/src/parser.rs:803-1023 | The documented text of any well-formed literal, generators as `repeat("TEXT", COUNT)`, is accepted with exactly that literal. |
| QuotedAgreement.SameTokens | malcolm/src/parser.rs:959-1090 | The reader of quoted clause values and the string reader of literals accept the same tokens with the same value. |
| StringCodec.DecodeQuotedContent | malcolm/src/parser.rs:1088-1140 | The loop over escapes decodes as specified and refuses every escape but the seven. |
| StringCodec.DecodePrinted | malcolm/src/parser.rs:1088-1140 | Decoding a printed string gives it back exactly if it has no control character without a short escape; otherwise the `u` escape is refused. |
| StringCodec.DecodedIsClean | malcolm/src/parser.rs:1088-1140 | What the decoder accepts holds no control character without a short escape. |
| StringCodec.ReadPrinted | malcolm/src/ir.rs:602-633 | A reader of RFC 8259, section 7, recovers every printed string and stops at its closing quote. |
| StringCodec.EscapeShape | malcolm/src/ir.rs:602-633 | A printed character is itself unless it is a quote, a backslash or a control character; exactly seven have a short escape, and the others four digits with lower-case letters. |
| LiteralRoundTrip.ParsedIsWellFormed | malcolm/src/parser.rs:803-1023 | At every depth of an accepted literal the keys are identifiers and distinct, and the strings clean. |
| LiteralRoundTrip.PrintThenParse | malcolm/src/ir.rs:528-552 | Printing any parsed literal and parsing the text gives it back, with each generator replaced by the object that stands for it. |
| LiteralRoundTrip.SameTextIffSameNormalForm | malcolm/src/ir.rs:528-552 | Two literals print the same text if and only if they are equal after generators are spelled out. |
| LiteralRoundTrip.ReservedNameIsAmbiguous | malcolm/src/semantic.rs:470-475 | Without the reserved name a generator and the object that spells it out print the same text. |
| LiteralRoundTrip.NormaliseInjective | malcolm/src/semantic.rs:470-475 | With the name reserved, literals with the same spelled-out form are equal. |
| AcceptedSources.AcceptedIsWellFormed | malcolm/src/parser.rs:17-335 | Every specification that a source is accepted with has texts that fit on clause lines, at every depth. |
| AcceptedSources.AcceptedBodiesPrintTidily | malcolm/src/ir.rs:502-633 | The printed request bodies of an accepted source, setups included, have no `u` escape and no object with a repeated key. |
| IrWriter.ToJson | malcolm/src/ir.rs:216-274 | The string that the printer appends to, piece by piece, ends as the rendering of the JSON value of the representation, reads back as that value, and gives the representation back when its members are looked up by name. |
| IrWriter.Writer.WriteLiteral | malcolm/src/ir.rs:528-552 | Appends the rendering of the literal, at any depth. |
| IrWriter.Writer.WriteObject | malcolm/src/ir.rs:502-526 | Appends the fields of an object in order, separated by commas. |
| IrWriter.Writer.WriteJsonString | malcolm/src/ir.rs:602-625 | Appends the escaped string between quotes. |
| IrWriter.Writer.WriteSpecification | malcolm/src/ir.rs:216-274 | Appends all members of a specification, the optional ones only when present. |
| IrUnambiguous.SameIrTextIffSameNormalForm | malcolm/src/ir.rs:216-274 | Two representations print the same text if and only if they are equal after generators are spelled out. |
| IrUnambiguous.PrintedTextDeterminesSpecification | malcolm/src/ir.rs:132-274 | Two specifications that compile, use no field called `generated` and print the same text are equal. |
| IrReader.PrintedIrReadsBack | malcolm/src/ir.rs:216-274 | A reader that parses the printed text as JSON and looks every member up by its name gives the representation back, with generators spelled out. |
| IrReader.PrintedSpecificationReadsBack | malcolm/src/ir.rs:132-274 | From the printed text of a compiled specification that reader recovers the specification, `must` and `must_not`, `from` and `to` included, with generators spelled out. |
| Text.ParsedNumbers | malcolm/src/parser.rs:563-567 | A text is accepted with a value exactly if the value is a 64-bit integer and the text is a suiting sign, any zeros and the decimal digits of its magnitude; every other text is refused. |
| Text.TrimMeans | malcolm/src/parser.rs:26-32 | Trimming a line takes the whitespace at both ends, all of it and nothing else. |
| StringOrder.LessMeans | sattler/filter.go:114-122 | Sorting puts one text before another exactly when it is smaller where they first differ, or ends there. |
| Diff.DifferenceIsExactPatch | sattler/comparison.go:156-223 | A change list over distinct keys turns the old record into the new one, undoing it goes back, and it names exactly the fields that differ. |
| Diff.DifferenceSwapped | sattler/comparison.go:156-223 | Comparing the other way round swaps the two values of every change and nothing else. |
| Diff.ChangeList.AddWithIdentity | sattler/comparison.go:172-190 | Adding a field appends a change exactly when the values differ. |
| Changes.DotlessKeysAreInjective | sattler/change.go:3-8 | In particular they do when the categories have no dot. |
| Changes.KeysDetermineIff | sattler/change.go:5-7 | The stable ids of two categories determine category and field if and only if neither category followed by a dot begins the other. |
| Changes.KeysDetermineAmong | sattler/change.go:5-7 | Over a set of categories this holds if and only if it holds of any two of them. |
| Changes.KeysAreNotInjective | sattler/change.go:3-8 | The ids of two fields of different categories are equal. |
| Changes.SummarizeChanges | sattler/summary.go:38-49 | The counting loop gives the total and the tally of categories. |
| Changes.ValidateSummary | sattler/summary.go:16-36 | The validator accepts exactly the summaries with named categories and nonnegative counts that sum to the total. |
| Changes.SummaryConserves | sattler/summary.go:16-49 | The counts of a computed summary sum to the number of changes, and it is valid exactly when no category is blank. |
| Changes.FilterChanges | sattler/filter.go:8-26 | The loop keeps, in order and with filled-in ids, the changes whose stable id is selected; an empty selection keeps all. |
| Changes.FilterTwice | sattler/filter.go:8-26 | Filtering by A and then by B is filtering by their intersection if and only if it is not empty or both select every change. |
| Changes.DisjointFilters | sattler/filter.go:8-26 | For ids that a change does not have, filtering by the one and then by the other keeps nothing, and filtering by their empty intersection keeps the change. |
| Changes.FilterPartitions | sattler/filter.go:8-26 | The kept and the left-out changes are an order-preserving partition of the list. |
| CountMaps.PositiveCountMapsEqual | sattler/series.go:289-299 | In particular when the expected counts are positive. |
| CountMaps.CountMapsEqualIff | sattler/series.go:289-299 | The lenient comparison with given expected counts is equality of maps if and only if no expected count is zero. |
| CountMaps.ZeroCountMapsEqual | sattler/series.go:289-299 | With an expected count of zero a different map compares equal. |
| Records.ComparisonIsExactPatch | sattler/comparison.go:156-223 | The comparison of two records with fixed fields and a keyed family has distinct keys and is an exact patch. |
| SornaRun.CompareSornaRuns | sattler/sorna.go:544-637 | The comparison, call by call, gives the specified report: reasons, transition, changes, rule index and summary. |
| ReportMeaning.SornaTransition | sattler/sorna.go:559-560 | The transition is that of the verdict statuses: incompatible if and only if the contracts differ in id, version or digest, and otherwise changed if and only if the statuses differ. |
| ReportMeaning.SornaReasons | sattler/sorna.go:550-559 | The reasons name what differs of the contracts, in the order id, version, digest; the runs are compatible if and only if nothing does. |
| ReportMeaning.SornaSides | sattler/sorna.go:544-637 | Each side carries its own run id, and the summary counts the listed changes. |
| ReportMeaning.SornaContract | sattler/sorna.go:567-569 | Under the ids `contract.id`, `contract.version` and `contract.sha256` the vector of a run has those fields of its contract. |
| ReportMeaning.SornaVerdict | sattler/sorna.go:573-574 | Under the ids of the verdict it has status and reason of the verdict. |
| ReportMeaning.SornaContext | sattler/sorna.go:570-572 | Under the ids of the context it has the oracle and the adapter and variant of the subject. |
| ReportMeaning.SornaAssurance | sattler/sorna.go:580-582 | Under the ids of the assurance it has level, status and observation coverage. |
| ReportMeaning.SornaTotals | sattler/sorna.go:575-579 | Under the ids of the summary it has the five totals. |
| ReportMeaning.SornaLifecycle | sattler/sorna.go:583-596 | Under the ids of the lifecycle it has mode, outcome and exit code, or empty texts and null without a lifecycle. |
| ReportMeaning.SornaMutation | sattler/sorna.go:705-717 | Under the ids of the mutation it has id and outcome, or empty texts without a mutation. |
| ReportMeaning.SornaRule | sattler/sorna.go:610-633 | Under the id of each rule it has the status of that rule, and nothing for other ids. |
| SornaRun.RunComparisonIsExactPatch | sattler/sorna.go:544-637 | Whatever the rule ids, the changes between two runs have distinct keys and are an exact patch between their fields. |
| SornaRun.RunComparisonSwaps | sattler/sorna.go:544-637 | Swapping the runs swaps the values of every change and keeps keys and order. |
| SornaDocument.ValidateSornaRun | sattler/sorna.go:433-505 | The loader accepts exactly the documents of `IsLoaded`. |
| SornaDocument.ValidateSornaRunSummary | sattler/sorna.go:194-271 | The validator accepts exactly the summaries of `IsSummary`. |
| SornaValidity.RuleIndexIsExact | sattler/sorna.go:600-634 | The rule index lists, sorted and once each, exactly the rules whose status differs, with both statuses. |
| SornaValidity.SummaryPasses | sattler/sorna.go:194-271 | The summary of a loaded run passes exactly when the run is presentable: what the validator asks beyond the loader. |
| SornaValidity.ComparisonIsValid | sattler/sorna.go:138-192 | The comparison of two loaded runs passes the validator of comparisons if and only if both are presentable. |
| SornaValidity.RuleWithoutSubject | sattler/sorna.go:257-261 | A run with a rule without subject loads, and its comparison with any loaded run is refused. |
| NublarRun.CompareNublarRuns | sattler/nublar.go:270-321 | The comparison, call by call, gives the specified report. |
| ReportMeaning.NublarTransition | sattler/nublar.go:278-282 | The transition is that of the statuses: incompatible if and only if the workflow ids differ, and otherwise changed if and only if the statuses differ; the reasons say so. |
| ReportMeaning.NublarSides | sattler/nublar.go:270-350 | Each side carries its own run id and the id of its correlation. |
| ReportMeaning.NublarFields | sattler/nublar.go:289-293 | The vector of a run has the workflow, the correlation, the status and the exit code under their ids. |
| ReportMeaning.NublarCheck | sattler/nublar.go:307-318 | Under the id of each check it has tool, requirement, status and reason of that check. |
| NublarRun.RunComparisonIsExactPatch | sattler/nublar.go:270-321 | Whatever the check ids, the changes between two runs have distinct keys and are an exact patch. |
| NublarRun.RunComparisonSwaps | sattler/nublar.go:270-321 | Swapping the runs swaps the values of every change and keeps keys and order. |
| NublarDocument.ValidateNublarRun | sattler/nublar.go:228-268 | The loader accepts exactly the documents of `IsLoaded`. |
| NublarDocument.ValidateNublarRunSummary | sattler/nublar.go:89-133 | The validator accepts exactly the summaries of `IsSummary`. |
| NublarRun.ComparisonIsValid | sattler/nublar.go:73-133 | The comparison of two loaded runs passes the validator of comparisons if and only if both are presentable. |
| NublarRun.CheckWithoutTool | sattler/nublar.go:127-131 | A run with a check without tool loads, and its comparison with any loaded run is refused. |
| CiComparison.ArtifactComparisonIsExactPatch | sattler/comparison.go:156-223 | Whatever the names of the inputs, the changes between two results have distinct keys and are an exact patch. |
| CiComparison.ArtifactChangesAreValid | sattler/comparison.go:156-223 | They also pass the checks of a report on its changes, the identity relations included. |
| CiComparison.Compare | sattler/comparison.go:156-223 | The comparison, call by call and with the union of input names sorted, gives the specified report: reasons, transition, changes, warnings and summary. |
| ReportMeaning.CiTransition | sattler/comparison.go:156-223 | The transition is that of the statuses: incompatible if and only if tool or kind differ, and otherwise changed if and only if the statuses differ; the reasons say what differs. |
| ReportMeaning.CiParts | sattler/comparison.go:156-223 | The report has the ids of the campaign comparison, or a warning that says why there are none, and its summary counts the listed changes. |
| ReportMeaning.CiContext | sattler/comparison.go:178-215 | The vector of a result has tool, kind, source, status, exit code and producer report under their ids. |
| ReportMeaning.CiFiles | sattler/comparison.go:184-215 | It has the four named file references under their ids. |
| ReportMeaning.FileRefMeans | sattler/comparison.go:348-353 | A file reference is compared by its path and, if it has one, its digest. |
| ReportMeaning.CiInput | sattler/comparison.go:184-215 | It has each named input under the category of its name. |
| ReportMeaning.IdentityMeans | sattler/identity.go:20-52 | Each of the five identity relations holds exactly for its case of presence and digests. |
| ReportMeaning.InputCategoryMeans | sattler/comparison.go:371-384 | Each category has exactly its names, in any case of letters; all other names are inputs. |
| CiComparison.ComparisonIsValid | sattler/comparison.go:71-153 | The comparison of two valid results always passes the validator of comparisons and the checks of a bundle. |
| Reports.ValidateEnvelope | sattler/bundle.go:131-182 | The envelope validator accepts exactly the reports with visible texts, a valid transition, reasons exactly when incompatible, the recomputed summary, and valid changes with distinct ids. |
| Reports.ValidateRuleIndex | sattler/sorna.go:155-192 | The validator accepts exactly the indexes that list each rule with a retained status change once, and no other. |
| Bundle.SummarizeBundle | sattler/bundle.go:341-386 | The accumulating loop gives the specified summary of the parts. |
| BundleMeaning.SummaryMeans | sattler/bundle.go:341-386 | A bundle is compatible if and only if it has a report and all its reports are; its reasons are those of the reports in their order, each after the name of its subsystem. |
| BundleMeaning.SubsystemsMean | sattler/bundle.go:341-386 | A subsystem is listed if and only if its report is there, with the flag, transition and counts of that report. |
| Bundle.BundleConserves | sattler/bundle.go:341-386 | The total and every category count of a bundle are the sums over its subsystems. |
| Bundle.DerivedBundleIsValid | sattler/bundle.go:74-129 | Valid reports with the derived summary and correlations make a valid bundle. |
| Bundle.CorrelationsAreValid | sattler/correlation.go:42-120 | Every derived correlation passes the check of correlations. |
| BundleMeaning.CorrelationsMean | sattler/correlation.go:64-120 | A bundle with a Nublar report has, before and after, one correlation with custody and one with provenance as far as they are there; each is an exact match, a mismatch or unknown exactly as its two ids are equal, different, or not both given. |
| BundleFilter.FilterBundleChanges | sattler/filter.go:31-56 | Filtering every report and deriving the summary again gives the specified bundle. |
| BundleFilter.RuleIsKeptWithItsChange | sattler/filter.go:91-112 | A rule stays in the index exactly when its status change is kept. |
| BundleMeaning.FilteredRulesMean | sattler/filter.go:91-112 | Of a valid rule index a filter keeps, in order, exactly the rules whose id `rules.ID.status` is selected. |
| BundleMeaning.FilteredReportMeans | sattler/filter.go:59-89 | Of a report a filter changes only the list of selected ids, the changes and their summary; it keeps exactly the selected changes. |
| BundleMeaning.FilteredBundleMeans | sattler/filter.go:31-56 | Every report of a bundle is filtered and none dropped; summary and correlations are those of the filtered reports. |
| BundleMeaning.NormalizedMeans | sattler/filter.go:124-133 | The selected ids are exactly the trimmed ids that are not empty. |
| BundleFilter.FilterKeepsBundleValid | sattler/filter.go:31-133 | A valid bundle stays valid under any id filter. |
| SeriesLoops.CompareSeriesManifest | sattler/series.go:409-463 | The builder with its running counters gives the specified series, or names the first entry whose bundle fails. |
| Series.BuiltSeriesIsValid | sattler/series.go:91-463 | From a valid manifest and valid bundles the built series passes the validator, under any filter, if and only if its path is empty or not blank. |
| Series.BlankPathIsRefused | sattler/series.go:95-97 | The series path of one space gives a refused series wherever the empty path gives an accepted one. |
| OneRunSeries.BlankPath | sattler/series.go:91-463 | At one concrete run, its bundle and its one entry, the path of one space is refused and the empty path accepted. |
| Series.CheckedMapsAreRecounts | sattler/series.go:91-167 | A series that the validator accepts holds exactly the recounted maps, although they are compared leniently. |
| SeriesMeaning.TransitionsMean | sattler/series.go:727-749 | In an accepted series the three transition counts of a subsystem are the numbers of points at which its transition is unchanged, changed and incompatible; it is listed if and only if one of them is not zero. |
| SeriesMeaning.EntriesMean | sattler/series.go:91-178 | The entry counts are the numbers of points, of compatible points and of the others. |
| SeriesMeaning.CorrelationCountsMean | sattler/series.go:706-725 | Each correlation of each point is counted once, under its kind and under its relation. |
| SeriesMeaning.MutationIdsMean | sattler/series.go:91-178 | The count of a mutation id is the number of places where a point lists it. |
| SeriesMeaning.RuleIdsMean | sattler/series.go:91-178 | The count of a rule id likewise. |
| SeriesMeaning.WarningCountsMean | sattler/series.go:751-764 | The count of a warning is the number of places where a point lists it, and blank warnings are not counted. |
| SeriesMeaning.ChangesMean | sattler/series.go:409-463 | In a built series every change of every filtered bundle is counted once in the total and once under its stable id. |
| SeriesMeaning.PointMeans | sattler/series.go:845-857 | Each point has id and label of its entry and manifest, filter, summary and correlations of its filtered bundle; exactly the last is the latest. |
| SeriesMeaning.PointIdsMean | sattler/series.go:859-885 | A point lists, sorted, the visible mutation ids of the CI report and the visible rule ids of the Sorna report. |
| Series.TransitionsAreBounded | sattler/series.go:727-749 | No subsystem has more transitions than the series has points, and only counted subsystems appear. |
| SeriesChecker.ValidateSeries | sattler/series.go:91-167 | The validator with its recounting loops accepts exactly the series of `IsSeries`. |
| SeriesChecker.ValidateBundle | sattler/bundle.go:74-129 | The validator of bundles accepts exactly the bundles of `IsBundle`. |
| PackagePaths.NameReadsBack | packaging/ingen_package.py:201-207 | The name of a safe path reads back as that path. |
| PackagePaths.PathDeterminesName | packaging/ingen_package.py:201-207 | An accepted name is its parts joined, so a path has one name. |
| PackagePaths.AcceptedNames | packaging/ingen_package.py:201-207 | A name is accepted as a path if and only if it is the name of that path and no part of the path is empty, `.`, `..` or holds a separator or NUL. |
| PackageArchive.DistinctPathsAreDistinctNames | packaging/ingen_package.py:745-757 | Comparing parsed paths finds the same duplicates as comparing names. |
| PackagePaths.ClosuresCoincide | packaging/ingen_package.py:826-831 | The parents collected in a loop, the parents in a comprehension, and the directories that the bundle check tolerates are the same set. |
| PackageBundle.VerifyBundle | packaging/ingen_package.py:605-654 | The bundle check accepts exactly the trees of `AcceptsBundle`, and returns the manifest. |
| PackageBundle.AcceptedIffLaidOut | packaging/ingen_package.py:605-654 | A tree is accepted with a manifest if and only if it holds every listed file with its size, digest and mode, the canonical bytes of the manifest, 64 digits and a line feed in `manifest.sha256`, directories only above files, and nothing else; no second manifest is accepted. |
| PackageBundle.VerifiedTreeIsClosed | packaging/ingen_package.py:605-654 | A verified tree holds its files, the directories above them, and nothing else. |
| PackageScan.VerifyArchive | packaging/ingen_package.py:726-855 | The streaming check of an archive accepts exactly the member sequences of `AcceptsArchive`. |
| PackageArchive.ExportMembers | packaging/ingen_package.py:858-920 | The export loop writes the sorted entries of the tree. |
| PackageArchive.ExportDescribesTree | packaging/ingen_package.py:871-894 | The exported members describe the tree they come from, with normalised directory modes. |
| PackageArchive.ExportPassesVerification | packaging/ingen_package.py:858-920 | The archive of a verified bundle passes the archive check if and only if its two manifest files have mode 0644. |
| PackageArchive.PrivateManifest | packaging/ingen_package.py:605-654 | Any verified bundle with its `manifest.json` set to mode 0600 still verifies, and its archive is refused. |
| PackageExtract.ExtractArchive | packaging/ingen_package.py:955-1019 | The extraction loop gives the specified tree or fails. |
| PackageExtract.SecondPassAgrees | packaging/ingen_package.py:970-1019 | The second pass accepts what the first accepted if and only if every directory mode is exactly 0755, and extracts the tree that the members describe. |
| PackageExtract.DirectoryWithTypeBits | packaging/ingen_package.py:976-983 | Any accepted archive with mode 040755 for one directory is still accepted by the first pass and refused by the second. |
| PackageExtract.ExportVerifyExtract | packaging/ingen_package.py:858-1021 | Exporting a verified bundle, checking the archive and extracting it gives the same paths, file modes and bytes, and the result verifies with the same manifest. |
| PackageExtract.ExtractedBundleVerifies | packaging/ingen_package.py:923-1021 | Any archive that both passes accept extracts to a bundle that verifies with the same manifest. |
| PackageInstall.Installation.CopyExact | packaging/ingen_package.py:1097-1124 | Copying a file leaves the prefix as it was unless the file is there with its mode and digest. |
| PackageInstall.Installation.Undo | packaging/ingen_package.py:1146-1186 | Undoing in reverse order removes everything that was created, and the prefix if it was made here. |
| PackageInstall.Installation.InstallFile | packaging/ingen_package.py:1155-1168 | The missing parents are made outermost first and then the file; if nothing fails and the bundle stays as it is, the file is there as in the bundle. |
| PackageInstall.InstallBundle | packaging/ingen_package.py:1146-1186 | Whichever step fails and whatever is read, installation leaves either the whole verified bundle or an empty prefix, absent if it was absent; and if nothing fails and the bundle stays as it is, it succeeds if and only if the bundle verifies, and leaves the same files, bytes and modes. |
| PackageDelivery.InstallArchive | packaging/ingen_package.py:923-1021 | Installing an archive is all or nothing; if nothing fails it succeeds if and only if the first pass accepts the archive and every directory mode is 0755, and leaves what the members describe. |
| PackageDelivery.ExportCanBeInstalled | packaging/ingen_package.py:858-1021 | The archive of a verified bundle with manifest files of mode 0644 meets that condition, and its members describe the bundle. |
| Uuid.ValidateID | amber/go/provenance.go:482-505 | The validator accepts exactly the canonical lowercase texts with version 4 and the variant of RFC 4122, sections 4.1.1 and 4.1.3. |
| Uuid.NewID | amber/go/provenance.go:461-480 | Marks the sixteen bytes in place and spells them out. |
| Uuid.NewIdentifierIsValid | amber/go/provenance.go:461-505 | Whatever the random bytes, the new identifier is one that the validator accepts. |
| Uuid.SameIdentifierIffSameFreeBits | amber/go/provenance.go:461-480 | Two draws give the same identifier if and only if they agree outside the six fixed bits. |
| Uuid.IdentifierReadsBack | amber/go/provenance.go:461-480 | The pairs of digits of a new identifier, read as numbers, are the sixteen bytes in order, the seventh with high digit 4 and the ninth with high bits 10. |
| Provenance.ChildSucceedsIff | amber/go/provenance.go:170-230 | A child of a valid value succeeds if and only if its depth can grow, the origin is local or incoming, both ids are valid, and the cause, attribution and references given are valid. |
| Provenance.RetrySucceedsIff | amber/go/provenance.go:233-263 | A retry of a valid value succeeds if and only if its attempt can grow and the new id is valid and differs from the source. |
| Provenance.ReplaySucceedsIff | amber/go/provenance.go:266-297 | A replay of a valid value succeeds if and only if both new ids are valid, the execution differs from the source, and the replay id from the execution. |
| Provenance.StartSucceedsIff | amber/go/provenance.go:122-167 | A start succeeds if and only if its three ids, its attribution and its references are valid. |
| Provenance.RunStart | amber/go/provenance.go:122-167 | The root of every run has the ids drawn for it, depth 0, attempt 1, a local origin, no cause, and the attribution and references given. |
| Provenance.ChildTakesOver | amber/go/provenance.go:170-230 | In every run a child has the ids drawn for it, its parent's correlation, depth one more, attempt 1, the references of its options, and their cause, origin and attribution, or else its parent as cause, a local origin and its parent's attribution. |
| Provenance.RetryTakesOver | amber/go/provenance.go:233-263 | In every run a retry differs from the value it was made from in the execution id, the cause, the origin, the mode naming that value, and an attempt one more; it has its attribution and references. |
| Provenance.ReplayTakesOver | amber/go/provenance.go:266-297 | In every run a replay differs from the value it was made from in the execution id, the cause, the origin and the mode naming that value and the replay; it has its attribution and references. |
| Provenance.WorkIsKept | amber/go/provenance.go:233-297 | Along any path of retries and replays attribution, references, work, depth and correlation are those of the start or child it began with. |
| Provenance.RunCounts | amber/go/provenance.go:122-297 | In every run all values are valid and share the correlation id, the depth is the number of child steps, the attempt one more than the retries since the last child, and no counter wraps. |
| Provenance.ExecutionsDiffer | amber/go/provenance.go:122-297 | No two values of a run have the same execution id. |
| Provenance.SameWorkSameDepth | amber/go/provenance.go:170-297 | Values of the same work in a run have the same depth. |
| Provenance.DefaultLinkIsToParent | amber/go/provenance.go:195-263 | A default cause names the value a transition started from, and no other value of the run. |
| Provenance.LinksLeadToRoot | amber/go/provenance.go:122-297 | With default causes, the links from any value lead to the root, in as many steps as its path has. |

## Findings

Each is a property that does not hold of the code on all inputs, with the input and the exact condition proved.

| what fails | source | input | exact condition |
|---|---|---|---|
| The comparison of two loaded Sorna runs passes its validator | sattler/sorna.go:433-505 against 194-271 | one rule whose `subject` is empty (`SornaValidity.RuleWithoutSubject`) | `SornaValidity.ComparisonIsValid`: both runs have every rule subject visible, no blank limitation, a visible lifecycle outcome if there is a lifecycle, a visible contract id and a version of at least 1 in a baseline if there is one, and a path that is empty or visible |
| The comparison of two loaded Nublar runs passes its validator | sattler/nublar.go:228-268 against 89-133 | one check whose `tool` is empty (`NublarRun.CheckWithoutTool`) | `NublarRun.ComparisonIsValid`: both runs have a visible status, a nonnegative exit code, a workflow digest of 64 hexadecimal digits, timestamps that are empty or parse, a visible tool and status in every check, and a path that is empty or visible |
| Printed literals are unambiguous | malcolm/src/ir.rs:528-552 | the generator `repeat("a", 3)` and the object `{ generated: { kind: "repeat", value: "a", count: 3 } }` print the same text (`LiteralRoundTrip.ReservedNameIsAmbiguous`) | `LiteralRoundTrip.SameTextIffSameNormalForm`: the texts are equal if and only if the literals are equal after generators are spelled out; `malcolm/src/semantic.rs:470-475` reserves the name, and without it equal texts mean equal literals |
| Stable change ids determine category and field | sattler/change.go:5-7 | category `rules.a` with field `status`, and category `rules` with field `a.status` (`Changes.KeysAreNotInjective`) | `Changes.KeysDetermineIff`: they do if and only if neither category followed by a dot begins the other, over a set of categories any two of them (`Changes.KeysDetermineAmong`); the keys of one comparison are distinct whatever the ids of rules, checks and inputs |
| Count maps that compare equal are equal | sattler/series.go:289-299 | `{"b": 1}` against the expected `{"a": 0}` (`CountMaps.ZeroCountMapsEqual`) | `CountMaps.CountMapsEqualIff`: equality for every map if and only if no expected count is zero; recounted maps have none, so `Series.CheckedMapsAreRecounts` |
| Filtering by A and then by B is filtering by the ids in both | sattler/filter.go:8-26 | a change and two ids that are not its own: the empty intersection selects everything (`Changes.DisjointFilters`) | `Changes.FilterTwice`: it holds if and only if the intersection is not empty or every change is selected by both |
| A series built from valid bundles passes the validator | sattler/series.go:95-97 | a series path of one space (`Series.BlankPathIsRefused`, and `OneRunSeries.BlankPath` at a concrete series) | `Series.BuiltSeriesIsValid`: it passes if and only if the path is empty or not blank |
| The archive of a verified bundle passes the archive check | packaging/ingen_package.py:605-654 against 726-855 | any verified bundle with its `manifest.json` set to mode 0600 (`PackageArchive.PrivateManifest`) | `PackageArchive.ExportPassesVerification`: it passes if and only if both manifest files have mode 0644 |
| Whatever the first pass over an archive accepts, the second accepts | packaging/ingen_package.py:726-855 against 970-1019 | any accepted archive with one directory mode set to 040755, whose low twelve bits are 0755 (`PackageExtract.DirectoryWithTypeBits`) | `PackageExtract.SecondPassAgrees`: it accepts if and only if every directory mode is exactly 0755 |

## Left out

- Error messages are replaced by the kind of the error and, for Malcolm, its line; wording and the offsets inside a literal are not modelled.
- Parser.Parse: the kind of an error is that of the step function; what is proved of errors beyond it is their line and when they occur.
- Malcolm's texts are sequences of Unicode scalar values: byte offsets, invalid UTF-8 and the depth of the call stack are not modelled.
- Malcolm's semantic validation enters only as the conditions `Ir.IsCompilable` and `IrUnambiguous.IsUnreservedSpecification`; its other checks do not bear on the printed text.
- Malcolm's command line and file handling.
- Go's `int` counters are unbounded integers: a sum that overflows the machine width is not modelled.
- Go's nil and empty slices and maps are identified; JSON encoding with `omitempty` makes no difference between them.
- Decoding and encoding JSON documents in Sattler and Amber; compared values are JSON values, and byte equality of two encodings is equality of the values.
- Parsing of timestamps is a parameter (`Library.isTime`), and so are digests and the recognition of a TypeScript package (`Env`).
- How Go quotes a text (`%q`) is a parameter (`Library.quote`).
- Whether a summary passes is recorded in the side of a CI, Sorna or Nublar report when the report is built.
- SeriesChecker.ValidateBundle: the checks of the two sides of a custody report enter as a recorded flag, because how Lockwood custody and Amber provenance are compared is not modelled; their reports enter a bundle as they are.
- CiComparison.Compare: comparing the mutation campaigns is not modelled; what it gives, the ids or why there are none, is a parameter.
- The fingerprints of a CI result's `report` and `explanation` enter as values.
- Text output of reports, and the loading of bundle and series manifests from files.
- PackageScan.VerifyArchive: the limits that the two bounded readers put on the whole compressed and expanded stream and the check of the padding after the last member are not modelled, because an archive is a sequence of decoded members.
- PackageExtract.ExtractArchive: the bounded reader and the check of the padding are not modelled, for the same reason.
- The decoding of tar and gzip, symbolic links, `fsync`, the umask and the probe for special files: an archive is a sequence of members, a bundle a tree of nodes.
- The JSON checks of a package manifest beyond paths, modes, distinctness and the one TypeScript archive (`PackageBundle.IsManifest`), building a bundle from a checkout, and publishing an archive under its final name.
- PackageInstall.InstallBundle: the world is an oracle that may fail at any step and yields the bytes and mode of each read; removal during the undo is taken to succeed, and the checks of where the prefix lies are left out.
- Amber's JSON form, its TypeScript twin, and the sharing of attribution and reference values, which the source clones.
