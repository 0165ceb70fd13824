# Verification model of verifiable-ai-governance

Dafny models of the release-evidence chain, the runtime-control protocol and the smaller
evidence loops of the repository, with proofs of what they promise.  `dafny verify dfyconfig.toml`
checks everything.

- **Release evidence.** Five documents (manifest, security bundle, build provenance, benchmark
  bundle, clean-install receipt) are printed as canonical JSON, self-digested, and bound into one
  index.  `CanonicalJson` proves the printer uniquely readable, `CanonicalForm` that it prints the
  compact sorted form, `Evidence` that a self-digest commits to its document, `ReleaseIndex` that the
  final digest commits to all five, `IndexMeaning` what the index says of them.
  `ReleaseManifest` and `ManifestStability` build and re-derive the manifest from Git, `ManifestMeaning`
  says what each of its sections records: `GitTrees` is what `git show` prints, `GitNames` the way git
  prints paths, `GitStore` and `GitSquash` the ancestry and squash checks, `MigrationHead` the
  migration head.  `Checksums`, `FilesBundle` and `Paths` carry the subject list and the bundles;
  `BuildProvenance`, `ProvenanceSoundness`, `ProvenanceAgreement`, `ProvenanceRoundTrip`,
  `ProvenanceReach`, `ProvenanceWitness` and `Workspace` are the provenance generator and verifier,
  `ProvenanceMeaning` what is archived and bundled, `BrokenRows` and `ProvenanceLines` their names with
  line breaks.  `CleanInstall` and `ReceiptMeaning`, `Benchmark` and `BenchmarkMeaning`, and
  `RuntimeDiff` are the receipt, the service-level verdict and the runtime comparison, `Matching` the
  pairing of renames.
- **Runtime control.** `RuntimeControl` is a step relation over every interleaving of agent edits,
  kill-switch commands, projection writes, routing requests, gate reads and replays of captured
  authorizations; `RuntimeGate` says over every run what the gate has compared when it opens.
  `ControlStores` has the mutable projection store and the barrier proxy; `ActuationTables` the
  insert-only tables with their constraints.
- **Loops and parsers.** `AuditChain` and `AuditMeaning` (hash-chained log and auditor), `Bootstrap`
  (keyset pagination), `Markdown`, `MarkdownPatterns` and `MarkdownMeaning` (block scanner, its regular
  expressions and its blocks), `VersionPolicy` (contract versions).

The modules whose names end in `Meaning`, and `CanonicalForm`, `RuntimeGate` and `MarkdownPatterns`,
state what results mean in terms of the inputs, next to the functions that compute them.

Conventions: exceptions are `Result` values; SHA-256 is a function parameter, and statements about
equal digests assume that the texts they compare do not collide; a text stands for its UTF-8
bytes; rates and durations are exact reals; Git objects and files are immutable maps.

What the proofs turned up, each with its exact condition and a failing input as lemmas:

- Squash equivalence compares what `git show` prints under the names that `git diff` prints.  A
  name with a quote, a backslash, a control or a non-ASCII character is printed quoted and then
  names nothing; `git show` prints nothing for a submodule, the commit id for a directory, and no
  mode.  So a commit is attested as equivalent although a quoted path or a submodule changed
  (`GitSquash.QuotedChangeIsLost`, `GitSquash.QuotedChangeIsAttestedAsAbsent`,
  `GitSquash.MovedSubmoduleIsAttestedAsAbsent`), or only a mode (`GitSquash.ModeIsNotCompared`), and
  the very tree of the evidence commit is rejected when a file became a directory
  (`GitSquash.SameTreeIsRejected`).  When exactly the verdict is wrong:
  `GitSquash.FalselyAcceptedIff`, `GitSquash.FalselyRejectedIff`; for which evidence commits it is
  right about every selection: `GitSquash.SquashIsExactIff`.
- A changed runtime file with a quoted name passes the runtime comparison
  (`RuntimeDiff.VisibleIffPlain`, `RuntimeDiff.QuotedRuntimeFileIsAccepted`), and such a migration
  is passed over (`ReleaseManifest.MigrationsReadExactly`).
- The runtime comparison does not pass `--no-renames`.  Some report of similar pairs lets a runtime
  difference through exactly when all that would show are deletions and these can be matched one
  to one with similar quiet additions (`RuntimeDiff.SomeReportHidesIff`); a deletion with no similar
  addition is always seen (`RuntimeDiff.UnmatchedDeletionIsSeen`), an exact copy elsewhere hides
  one (`RuntimeDiff.RenamedRuntimeFileIsAccepted`).  Which of the admissible pairs git reports is its own
  choice.
- The Alembic head count accepts a detached cycle of revisions
  (`MigrationHead.DetachedCycleIsAccepted`); the history is linear exactly when there is no cycle
  (`MigrationHead.SingleHeadHistory`).
- The index builder alone does not insist on verdicts: it records "pass" exactly for the documents
  that state one, and builds without any (`ReleaseIndex.IndexRecordsStatedVerdicts`,
  `ReleaseIndex.VerdictlessEvidenceBuilds`).  Behind the verifiers of the single documents, which
  both callers run first, an accepted index does mean three passing verdicts
  (`ReleaseIndex.AcceptedIndexPasses`).
- Provenance generated inside the security directory, or with a line break in the output
  directory, the version or a commit label, does not verify
  (`ProvenanceRoundTrip.GeneratedProvenanceVerifies`), and nothing stops such a run: every run
  that goes through can be repeated in such a place and is then rejected
  (`ProvenanceReach.AnyRunFailsInside`, `ProvenanceReach.AnyRunFailsBroken`; a concrete one is
  `ProvenanceWitness.SmallRunIsRejected`).
- Improving a passing benchmark to zero total duration fails a positive minimum rate
  (`Benchmark.ImprovementKeepsPassing`, `Benchmark.InstantScenarioFails`,
  `Benchmark.OneInstantSampleFails`).
- The audit log is one chain exactly when all but the last event have increasing keys
  (`AuditChain.LinearIffIncreasing`); a clock that steps back once forks it
  (`AuditChain.ClockStepForksLog`).  A walk along the chain would notice every dropped event but the
  last (`AuditChain.DeletionBreaksChain`), but no code walks it: the auditor notices the loss of a
  row exactly when it is the audited row or its direct predecessor (`AuditChain.AuditNoticesIff`).
- The copied `evaluation_id` column alone does not give one engage per evaluation; the chain of
  foreign keys does (`ActuationTables.RepeatedEvaluationIsNotUnique`,
  `ActuationTables.OneEngagePerEvaluation`).
- A heading with a line terminator inside keeps the Markdown scanner on the same line for ever
  (`Markdown.TerminatorInHeadingHangs`, `Markdown.StuckLineHangs`, `Markdown.HaltsIffEnds`).

## Model

| member | source | states |
|---|---|---|
| CanonicalJson.CanonicalJsonUnambiguous | scripts/release_candidate_evidence.py:56-64 | two JSON values print to the same text exactly when they are equal up to key order, in both escape modes |
| CanonicalJson.PrintSplits | scripts/release_candidate_evidence.py:56-64 | printed values are uniquely readable inside a longer text: equal texts have the same first value and the same remainder |
| CanonicalJson.QuoteSplits | scripts/release_candidate_evidence.py:56-64 | escaped strings are uniquely readable: quote, backslash, control and non-ASCII escapes never run into what follows |
| CanonicalJson.EscapeCharSplits | scripts/release_candidate_evidence.py:56-64 | the escape of one character, surrogate pairs included, is told apart from every other |
| CanonicalForm.PrintIsCanonical | scripts/release_candidate_evidence.py:56-64 | a text is the printed form of a value exactly when it is the canonical form: items and members joined by commas alone, names in strictly increasing order, strings and numbers as below |
| CanonicalForm.QuoteWrites | scripts/release_candidate_evidence.py:56-64 | a text is the quoted string exactly when each character has its RFC 8259 section 7 spelling: a two-character escape, four hexadecimal digits, or in ASCII mode a surrogate pair |
| CanonicalForm.IntTextSpells | scripts/release_candidate_evidence.py:56-64 | a text is the printed integer exactly when its digits spell it, without leading zeros |
| CanonicalForm.DigestIsOfCanonicalForm | scripts/release_candidate_evidence.py:67-91 | a self-digest is accepted exactly when it is the digest of the canonical, not ASCII-reduced form of the document without that field |
| Text.LessIff | scripts/release_candidate_evidence.py:56-64 | the order of keys is by code point: proper prefix, or smaller where two strings first differ |
| Evidence.SealedDocumentVerifies | scripts/release_candidate_evidence.py:77-91 | a sealed document passes its own digest check, whatever stood in the digest field |
| Evidence.SelfDigestCommits | scripts/release_candidate_evidence.py:77-91 | two verified documents have the same self-digest exactly when they are the same document |
| Evidence.UnsignedDetermines | scripts/release_candidate_evidence.py:77-81 | the digested text determines every field but the digest |
| ReleaseIndex.IndexAcceptedIffBuilt | scripts/release_candidate_evidence.py:435-463 | the index verifier accepts exactly what the builder makes from the same evidence |
| ReleaseIndex.IndexDigestCommitsToEvidence | scripts/verify_release_candidate_evidence_index.py:76-117 | two deeply verified evidence sets with the same index digest agree on the index and all five documents |
| ReleaseIndex.EqualDigestsEqualRoots | scripts/release_candidate_evidence.py:395-413 | equal recorded root digests mean equal root documents |
| ReleaseIndex.RecordedVerdictIsExact | scripts/release_candidate_evidence.py:346-354 | a root record says "pass" exactly when the document does |
| ReleaseIndex.MissingVerdictStillBuilds | scripts/release_candidate_evidence.py:346-413 | whatever builds also builds with the verdict dropped from any of the security, benchmark and receipt documents |
| ReleaseIndex.IndexRecordsStatedVerdicts | scripts/release_candidate_evidence.py:346-413 | in a built index each of the three records says "pass" exactly when its document states a verdict |
| ReleaseIndex.VerdictlessEvidenceBuilds | scripts/release_candidate_evidence.py:357-432 | five concrete documents without verdicts verify their self-digests and build an index |
| ReleaseIndex.AcceptedIndexPasses | scripts/verify_release_candidate_evidence_index.py:76-117 | given the verdict checks of the single verifiers, an accepted index means all three verdicts are "pass" and recorded so |
| IndexMeaning.IndexBuildsIff | scripts/release_candidate_evidence.py:357-413 | an index is built exactly from a manifest of this release and four documents with digests of their own, of its release, the security bundle bound to its digest and the receipt to its governance commit |
| IndexMeaning.BuiltIndexMeans | scripts/release_candidate_evidence.py:395-432 | a built index states the release version and the governance commit of the manifest, under each name the path, digest and verdict of that document, the attestation with the two checksum files, and the demo identity |
| IndexMeaning.AcceptedIndexMeans | scripts/release_candidate_evidence.py:435-463 | every accepted index means the same |
| CleanInstall.BuiltReceiptVerifies | scripts/release_candidate_evidence.py:229-343 | every issued receipt verifies against the inputs it was built from |
| CleanInstall.ReceiptBindsItsInputs | scripts/release_candidate_evidence.py:279-343 | a receipt accepted against two sets of manifest, log and repository was derived from the same log, the same script and the same manifest facts |
| CleanInstall.AcceptedReceiptIsBuilt | scripts/release_candidate_evidence.py:229-343 | up to keys added in the three bound objects and the kind of the environment value, a receipt is accepted exactly when the builder issues it for the same manifest, log and repository |
| ReceiptMeaning.ReceiptBuildsIff | scripts/release_candidate_evidence.py:209-257 | a receipt can be issued exactly for a manifest of this release, a log with the marks of a passed run (the head marker twice without overlap) and the install script present at the governance commit |
| ReceiptMeaning.ReceiptAcceptedIff | scripts/release_candidate_evidence.py:279-343 | a receipt is accepted exactly when its fields and digest are in order, the log passed, and it states the manifest's release, commit and digest, the digests of the log and of the script at that commit, and five passed checks |
| ReceiptMeaning.BuiltReceiptMeans | scripts/release_candidate_evidence.py:258-276 | an issued receipt states all that, with the given time and environment |
| Text.CountIsMost | scripts/release_candidate_evidence.py:211-218 | str.count reaches n exactly when there are n occurrences that do not overlap |
| Paths.PartsRoundTrip | scripts/release_build_provenance.py:70-77 | rendering clean parts and parsing them again is the identity, and the result is accepted |
| Paths.NormalFormIsStable | scripts/release_build_provenance.py:70-77 | the normal form of an accepted path is accepted and already normal |
| Paths.SafeIff | scripts/release_build_provenance.py:70-77 | a path is accepted exactly when it is relative, some component names something and none is ".."; its parts are the components that name something |
| Checksums.CollectRows | scripts/release_build_provenance.py:323-330 | the loop reads every record or stops at the first malformed or unsafe one |
| Checksums.RenderRows | scripts/release_build_provenance.py:335-335 | the text is the rows, one line each, in order |
| Checksums.BuildChecksums | scripts/release_build_provenance.py:319-335 | the text is that of the path-sorted rows, provenance row included |
| Checksums.ParseChecksums | scripts/release_build_provenance.py:338-355 | the loop with its seen set parses line by line, rejecting malformed lines, digests, paths and duplicates |
| Checksums.ParsedRowsAreSound | scripts/release_build_provenance.py:338-355 | accepted rows have 64-hex digests and distinct, safe, one-line paths |
| Checksums.ChecksumRoundTrip | scripts/release_build_provenance.py:319-355 | parsing the built text gives the path-sorted rows exactly when the rows are sound and distinct |
| Checksums.ChecksumTextIgnoresOrder | scripts/release_build_provenance.py:332-335 | the text does not depend on record order |
| Checksums.ChecksumTextMeans | scripts/release_build_provenance.py:319-335 | the text has one line, digest and path two spaces apart, for each record and for the provenance document, ascending by path, and no other |
| Checksums.ParsesIff | scripts/release_build_provenance.py:338-355 | rows are parsed exactly when the lines that are not blank list them in order, with digests, safe paths and no path twice |
| FilesBundle.NormalizeEntries | scripts/release_build_provenance.py:222-225 | the loop normalises every name or fails at the first unsafe one |
| FilesBundle.WriteBundle | scripts/release_build_provenance.py:219-244 | the archive is the name-sorted normalised entries with fixed metadata |
| FilesBundle.ReadBundle | scripts/release_build_provenance.py:247-266 | the loop extracts a dictionary, rejecting non-files, unsafe names and duplicates |
| FilesBundle.BundleRoundTrip | scripts/release_build_provenance.py:219-266 | reading a written bundle succeeds exactly when the normalised names are distinct, and then gives exactly the name-to-bytes map |
| FilesBundle.BundleIgnoresOrder | scripts/release_build_provenance.py:219-244 | permuted entries give the same bundle |
| FilesBundle.BundlePacks | scripts/release_build_provenance.py:219-244 | a written archive has one member for each entry and no other, with its bytes, normal name and fixed metadata, ascending by name |
| FilesBundle.BundlesIff | scripts/release_build_provenance.py:219-225 | a bundle is written exactly when every name is a safe relative path |
| FilesBundle.ReadsIff | scripts/release_build_provenance.py:247-266 | a bundle is read exactly when its members are regular files with safe names, no two the same once normalised, and gives exactly their bytes under these names |
| Benchmark.PercentileIsLeast | scripts/release_runtime_benchmark.py:71-77 | the percentile is a sample, and v is at or above it exactly when at least ceil(q*n) samples are at most v |
| Benchmark.PercentilesAscend | scripts/release_runtime_benchmark.py:71-77 | percentiles rise with the quantile, between minimum and maximum |
| Benchmark.SummarizeSamples | scripts/release_runtime_benchmark.py:80-113 | the loop accepts exactly non-empty, non-negative samples, gives the specified summary, and names the first fault otherwise |
| Benchmark.SummaryIsOrdered | scripts/release_runtime_benchmark.py:96-113 | min <= p50 <= p95 <= p99 <= max, min <= mean <= max, and min and max bound every sample |
| Benchmark.SummaryIgnoresOrder | scripts/release_runtime_benchmark.py:80-113 | the summary depends on the multiset of durations and the error count only |
| Benchmark.PercentileDominated | scripts/release_runtime_benchmark.py:71-77 | lowering samples pointwise lowers every percentile |
| Benchmark.ImprovementKeepsPassing | scripts/release_runtime_benchmark.py:80-146 | an improved passing scenario passes exactly when time was measured or no rate is demanded |
| Benchmark.InstantScenarioFails | scripts/release_runtime_benchmark.py:99-141 | every passing scenario with a positive minimum rate fails once all its durations are cut to zero |
| Benchmark.OneInstantSampleFails | scripts/release_runtime_benchmark.py:99-141 | one sample of a second passes at one per second, the same sample in no time fails |
| Benchmark.RecomputeAll | scripts/release_runtime_benchmark.py:299-306 | the loop over sorted scenarios recomputes each from its raw samples, or fails at the first that cannot be measured or has no policy |
| Benchmark.VerifyMeasurements | scripts/release_runtime_benchmark.py:294-313 | bundled summaries, checks, thresholds and verdicts are accepted exactly when they are the recomputed ones; "pass" needs a scenario and no failure |
| Benchmark.ImprovedBundlePasses | scripts/release_runtime_benchmark.py:299-313 | an improved passing bundle passes exactly when no scenario with a minimum rate loses all its measured time |
| BenchmarkMeaning.SummaryMeans | scripts/release_runtime_benchmark.py:80-113 | each number of a summary in terms of the samples: counts, shares, extremes, mean, rate, and the quantiles as least durations with enough samples at or below them |
| BenchmarkMeaning.ScenarioPassesIff | scripts/release_runtime_benchmark.py:121-146 | a scenario passes exactly when there are enough samples, few enough failed, 95 and 99 per cent were fast enough, and the measured time was short enough for so many |
| MigrationHead.ScanFiles | scripts/release_evidence_manifest.py:361-373 | the loop accepts exactly readable, duplicate-free files and collects their revisions and down-revisions |
| MigrationHead.MigrationRecord | scripts/release_evidence_manifest.py:353-384 | accepts exactly the lists with one head, and reports that head, its file and the number of migrations |
| MigrationHead.SingleHeadHistory | scripts/release_evidence_manifest.py:374-384 | with one head, walking down visits every revision once and ends at the bottom exactly when no cycle exists |
| MigrationHead.AcceptedHistoryIsLinear | scripts/release_evidence_manifest.py:353-384 | for accepted acyclic migrations the walk has migration_count steps and exactly one revision is the bottom |
| MigrationHead.FollowersFill | scripts/release_evidence_manifest.py:374-377 | the pigeonhole: if each member of a set is followed from inside, each follows a member |
| MigrationHead.DetachedCycleIsAccepted | scripts/release_evidence_manifest.py:353-384 | three migration files with a detached cycle are accepted with one head, whose history has length one |
| GitNames.ListedPlainly | scripts/release_evidence_manifest.py:205-206 | paths that git prints unquoted and without outer spaces are read back unchanged |
| GitNames.ShortestQuotedIsLost | scripts/release_evidence_manifest.py:205-206 | of the listed paths that git quotes, a shortest one is not among the names read back |
| GitNames.PrintedIs | scripts/release_evidence_manifest.py:205-206 | git prints a path as it is exactly when all its characters are printable ASCII other than quote and backslash, and otherwise quoted, each character spelled as itself, a letter escape or its UTF-8 bytes in octal |
| GitStore.SquashEquivalenceRecord | scripts/release_evidence_manifest.py:174-233 | the loop over the printed names returns a record exactly when git show prints the same for every name in both commits, None when it does not, an error for a bad commit |
| GitSquash.SquashIsExactIff | scripts/release_evidence_manifest.py:174-233 | the comparison is right about every selected tree exactly when every changed path prints unquoted and the evidence commit holds a blob at it or at a directory above it |
| GitSquash.PreservesExactly | scripts/release_evidence_manifest.py:174-233 | on plainly named changes, equivalence holds exactly when under each changed path both trees hold the same blob or both hold something git show cannot print, a blob that reads as a listing aside |
| GitSquash.FalselyAcceptedIff | scripts/release_evidence_manifest.py:174-233 | an accepted selection has lost a change exactly when some changed path is a submodule on one side and another one or nothing on the other, or a blob that reads as a listing |
| GitSquash.FalselyRejectedIff | scripts/release_evidence_manifest.py:174-233 | a selection with all changes is rejected exactly when a path the evidence commit removed names a directory in either tree |
| GitSquash.QuotedChangeIsLost | scripts/release_evidence_manifest.py:195-233 | the selection without a quoted change compares as equal and has lost it, unless a file took the place of its directory |
| GitSquash.QuotedChangeIsAttestedAsAbsent | scripts/release_evidence_manifest.py:174-233 | a one-entry change of content under any quoted name: the parent commit is attested as equivalent, with a null digest |
| GitSquash.MovedSubmoduleIsAttestedAsAbsent | scripts/release_evidence_manifest.py:174-233 | a moved submodule under any plain name: the parent commit, on the old submodule commit, is attested as equivalent, with a null digest |
| GitSquash.ModeIsNotCompared | scripts/release_evidence_manifest.py:174-233 | a change of mode alone: the parent, with the old mode, is attested as equivalent, with the file digest |
| GitSquash.SameTreeIsRejected | scripts/release_evidence_manifest.py:212-233 | a file replaced by a directory: a selection with the very tree of the evidence commit is not equivalent, and the relation fails |
| GitSquash.SquashedIff | scripts/release_evidence_manifest.py:195-233 | where changed paths are plainly named and neither submodules nor directories, equivalence holds exactly when the selected tree keeps every change |
| GitSquash.SquashedMeansSameTree | scripts/release_evidence_manifest.py:195-233 | there, a selection agreeing with the parent elsewhere is equivalent exactly when the trees are equal, modes aside |
| GitStore.SquashRecordCommits | scripts/release_evidence_manifest.py:218-233 | equal squash records attest the same names, and git show prints the same under each |
| GitStore.AncestryIsStable | scripts/release_evidence_manifest.py:159-171 | later commits never change whether one old commit is an ancestor of another |
| GitStore.CompatibilityIsStable | scripts/release_evidence_manifest.py:523-536 | an established relation is established again, with the same record, in every later store |
| RuntimeDiff.RuntimeEquivalence | scripts/release_runtime_benchmark.py:177-213 | accepts exactly when no reported path shows as a runtime path once printed and stripped, and counts the names read |
| RuntimeDiff.VisibleIffPlain | scripts/release_runtime_benchmark.py:180-191 | a runtime path shows as one exactly when git prints its name unquoted |
| RuntimeDiff.AcceptedAgreesUnlessGone | scripts/release_runtime_benchmark.py:177-213 | after acceptance the trees agree on an unquoted runtime path exactly when it has not gone from the new tree |
| RuntimeDiff.SomeReportHidesIff | scripts/release_runtime_benchmark.py:177-213 | whatever counts as similar, some report of similar pairs hides a runtime difference exactly when all differences that would show are deletions and each set of them has at least as many similar quiet additions |
| RuntimeDiff.UnmatchedDeletionIsSeen | scripts/release_runtime_benchmark.py:177-213 | a plainly named runtime file that is gone, with nothing similar added, is never accepted |
| Matching.MatchingIff | scripts/release_runtime_benchmark.py:177-186 | the marriage theorem behind the pairing: a one-to-one matching exists exactly when every set has at least as many partners as members |
| RuntimeDiff.EquivalencesCompose | scripts/verify_release_candidate_evidence_index.py:76-127 | after two accepted comparisons with one release, benchmark and HEAD agree on an unquoted runtime path exactly when it is no release file that only one of them dropped |
| RuntimeDiff.RenamedRuntimeFileIsAccepted | scripts/release_runtime_benchmark.py:177-186 | a concrete accepted diff that removes a runtime file |
| RuntimeDiff.QuotedRuntimeFileIsAccepted | scripts/release_runtime_benchmark.py:177-191 | a concrete accepted diff, without renames, that changes a runtime file with a non-ASCII name |
| ReleaseManifest.ReadDatabaseRecord | scripts/release_evidence_manifest.py:353-384 | reading the listed migrations of a tree and counting heads gives the specified database record, or fails where it has none |
| ReleaseManifest.MigrationsReadExactly | scripts/release_evidence_manifest.py:257-373 | the migrations read are exactly those of the tracked .py files that git prints unquoted and of the last listed path without its trailing spaces; reading succeeds exactly when git show can print all of these |
| ManifestStability.VerifiedIsRederived | scripts/release_evidence_manifest.py:608-634 | a document verifies exactly when it is the manifest its declared version and commits give |
| ManifestStability.ManifestOutlivesItsRefs | scripts/release_evidence_manifest.py:539-634 | a built manifest is accepted in every later state of the repositories exactly when its version tag still resolves to the same commit |
| ManifestStability.ManifestDigestFixesCommits | scripts/release_evidence_manifest.py:84-95 | manifests with the same digest are equal and selected the same four commits |
| ManifestStability.BuiltShape | scripts/release_evidence_manifest.py:587-605 | every built manifest passes the shape and self-digest checks |
| ManifestStability.PinnedResolves | scripts/release_evidence_manifest.py:151-156 | declared full commits resolve to themselves, wherever branches point |
| ManifestMeaning.BuiltManifestMeans | scripts/release_evidence_manifest.py:447-584 | a built manifest selects in each repository the commit its ref resolves to; components, files, reports and database record what these commits hold; each compatibility record carries the evidence commit and the selected commit, "exact" if they are equal, "descendant" if the one is an ancestor, else attesting that every change is preserved |
| ManifestMeaning.VerifiedManifestMeans | scripts/release_evidence_manifest.py:608-634 | a verified manifest means the same of the commits it declares |
| ManifestMeaning.UnrelatedSelectionFails | scripts/release_evidence_manifest.py:447-536 | no manifest is built on a governance or credit desk selection that neither is, nor descends from, nor preserves the commit of the evidence |
| ManifestMeaning.UnrelatedTagFails | scripts/release_evidence_manifest.py:447-536 | nor on a telemetry kit selection so unrelated to the tag of the reported version |
| ManifestMeaning.IsReleaseIff | scripts/release_evidence_manifest.py:19-19 | a version is accepted exactly when it is three numerals with points between, alone or with a hyphen and a label |
| BuildProvenance.VerifySubjectFiles | scripts/verify_release_build_provenance.py:47-81 | the loop returns all records or fails at the first malformed, unsafe, misplaced, missing or mismatching subject |
| BuildProvenance.ExpectedRecipePaths | scripts/verify_release_build_provenance.py:187-205 | the loop collects exactly the recorded recipe paths, or fails at the first that does not match its member |
| ProvenanceSoundness.AcceptedProvenanceIsReproducible | scripts/verify_release_build_provenance.py:84-216 | an accepted provenance is self-digested, bound upstream, its source archives and evidence bundle have the re-derived bytes, its recipe holds exactly the recorded files and its checksum file agrees |
| ProvenanceSoundness.SubjectsAreBacked | scripts/verify_release_build_provenance.py:47-81 | every accepted subject record has a file with the recorded digest and size |
| ProvenanceSoundness.InventoryChecked | scripts/verify_release_build_provenance.py:186-205 | inventory lines and bundle members match one another, both ways |
| ProvenanceRoundTrip.GeneratedProvenanceVerifies | scripts/generate_release_build_provenance.py:97-242 | the verifier accepts the generator's output, and returns its document, exactly when the output directory is outside the security evidence and every generated path is on one line |
| ProvenanceRoundTrip.ContentsVerdict | scripts/verify_release_build_provenance.py:141-216 | on generated files every content check passes but two: the evidence bundle decides by place, the checksum file by line breaks |
| ProvenanceLines.ChecksumsAcceptedIff | scripts/release_build_provenance.py:319-355 | the checksum file of generated subjects is accepted exactly when every generated path is on one line |
| ProvenanceRoundTrip.EvidenceAgain | scripts/verify_release_build_provenance.py:33-44 | the evidence bundle collected again has the same bytes outside the security directory and different bytes inside it |
| ProvenanceRoundTrip.FinalKeeps | scripts/generate_release_build_provenance.py:139-242 | generation changes no file that existed before |
| ProvenanceReach.GenerateSucceeds | scripts/generate_release_build_provenance.py:97-242 | with sources, evidence and recipe files supplied, plain names and a passed preflight, generation succeeds |
| ProvenanceReach.AnyRunFailsInside | scripts/generate_release_build_provenance.py:97-135 | every such run also passes preflight and generates in some directory inside the security evidence, and the verifier rejects the result |
| ProvenanceReach.AnyRunFailsBroken | scripts/generate_release_build_provenance.py:97-135 | the same in a directory with a line break in its name |
| ProvenanceWitness.SmallRunIsRejected | scripts/generate_release_build_provenance.py:97-242 | a concrete two-file checkout with lossless ports: a run inside the security evidence generates, and the verifier rejects it |
| ProvenanceWitness.SmallRunIsAccepted | scripts/generate_release_build_provenance.py:97-242 | the same checkout, generated outside: the verifier returns the document |
| Workspace.Checkout.GenerateProvenance | scripts/generate_release_build_provenance.py:97-245 | running step by step: a failed run leaves the checkout as it was, a successful one exactly the specified files |
| Workspace.Checkout.WriteArchives | scripts/generate_release_build_provenance.py:143-164 | one archive per component is written and recorded, in order, until one cannot be made |
| Workspace.Checkout.WriteSubjects | scripts/generate_release_build_provenance.py:143-195 | archives, then the evidence bundle collected from the files so far, then the recipe bundle |
| ProvenanceMeaning.AcceptedProvenanceMeans | scripts/verify_release_build_provenance.py:84-216 | for each component the source archive has the bytes of its repository at the commit the manifest states, the evidence bundle those of exactly the evidence files, and the document repeats the release, digests, bindings and attestation |
| ProvenanceMeaning.GeneratedArchivesMean | scripts/generate_release_build_provenance.py:139-164 | a run writes, component by component, the archive at the commit the manifest states |
| ProvenanceMeaning.GeneratedBundleMeans | scripts/generate_release_build_provenance.py:166-179 | outside the security evidence, the bundle of exactly the evidence files |
| ProvenanceMeaning.GeneratedRecipeMeans | scripts/generate_release_build_provenance.py:181-229 | the recipe bundle packs exactly the recipe files in order, the document lists their digests and sizes, and repeats what the two upstream documents say |
| ProvenanceMeaning.GeneratesFromClean | scripts/generate_release_build_provenance.py:97-137 | a run starts only from a clean checkout, an absent output directory, the release version asked for and repositories of the recorded identity |
| RuntimeControl.RunKeepsInv | apps/api/src/ai_governance_api/application/runtime_control.py:262-421 | every step of every interleaving keeps the protocol invariant, edits that merge with a completion included |
| RuntimeControl.RunKeepsLedger | apps/api/alembic/versions/0011_runtime_control.py:51-72 | epochs are consecutive, states alternate, floors strictly rise and stay below the agent version, one transition at most is pending |
| RuntimeControl.NothingRoutedWhileContained | docs/architecture/adr/0033-runtime-kill-switch.md:22-30 | from the acknowledged engage until the restore is applied no authorization is routed |
| RuntimeControl.RevocationIsPermanent | docs/architecture/adr/0033-runtime-kill-switch.md:52-54 | an authorization at or below the projected floor is never routed again in any continuation |
| RuntimeControl.EngageRevokesEarlierAuthorizations | scripts/verify_p1_6_cross_repo_e2e.py:600-690 | an acknowledged engage revokes, for good, every authorization whose gate read came before it |
| RuntimeControl.AllowedSawNoTransition | apps/api/src/ai_governance_api/application/model_routing.py:165-291 | a decision allowed after both gates and the scope re-read saw no transition in between |
| RuntimeGate.GateOpensIff | apps/api/src/ai_governance_api/application/runtime_control.py:152-167 | over every run, a check of the gate lets a request on exactly when the projection at that moment is the snapshot its own durable read took, and that state was inactive; otherwise the request is refused |
| RuntimeGate.SignedPassedTheGate | apps/api/src/ai_governance_api/application/model_routing.py:165-291 | a signed request has passed the gate in such a state |
| RuntimeGate.RecheckedPassedTwice | apps/api/src/ai_governance_api/application/model_routing.py:165-291 | a request that may be allowed has passed it twice, the second time on a read made after the first pass |
| RuntimeGate.EngageStopsDecisions | apps/api/src/ai_governance_api/application/model_routing.py:165-291 | once an engage is acknowledged, a request of an older version can still be allowed exactly if it has been already or only its last check of a still current version was left |
| RuntimeGate.EarlierGateReadNeverAllows | apps/api/src/ai_governance_api/application/model_routing.py:165-291 | once an engage is acknowledged, no request whose gate read has a smaller epoch, and which has not passed its second check, is allowed on that read |
| RuntimeGate.EditSupersedesRequests | apps/api/src/ai_governance_api/application/model_routing.py:165-291 | an edit that does not merge with a completion supersedes every undecided request for good |
| RuntimeGate.VersionStartsOneTransition | apps/api/src/ai_governance_api/application/runtime_control.py:262-421 | each expected version starts one transition at most |
| RuntimeGate.DisabledStartsNothing | apps/api/src/ai_governance_api/application/runtime_control.py:262-421 | a disabled agent starts no transition, whatever is asked, until an edit enables it |
| RuntimeControl.AtMostOnce | apps/api/src/ai_governance_api/application/runtime_assurance_actuation_executions.py:127-189 | each authorization is routed at most once, and each governed decision starts at most one transition |
| RuntimeControl.BarrierScenario | scripts/verify_p1_6_cross_repo_e2e.py:559-702 | from every quiescent state: B is stopped by the kill switch, stays revoked after the restore, and fresh C is routed |
| RuntimeControl.BarrierEngages | scripts/verify_p1_6_cross_repo_e2e.py:600-654 | the engage raises the version by one and refuses B without recording it as routed |
| RuntimeControl.BarrierRestores | scripts/verify_p1_6_cross_repo_e2e.py:656-702 | after the restore B is refused as revoked rather than replayed, and C has a newer version |
| RuntimeControl.FreshRequestIsAllowed | apps/api/src/ai_governance_api/application/model_routing.py:165-291 | nothing is over-blocked: from every quiescent state a fresh request is routed and allowed |
| ControlStores.InMemoryRuntimeControlStore.ProjectSnapshot | apps/api/src/ai_governance_api/adapters/runtime_control_redis.py:56-69 | compare-and-set by epoch: newer replaces, identical is accepted, stale or conflicting is rejected, other agents unchanged |
| ControlStores.NewestEpochWins | apps/api/src/ai_governance_api/adapters/runtime_control_redis.py:17-36 | whatever the order, duplication or delay of the writes, the newest epoch is held |
| ControlStores.ProjectionsConverge | apps/api/src/ai_governance_api/adapters/runtime_control_redis.py:17-36 | replicas that saw the same writes hold the same snapshot |
| ControlStores.BarrierState.ArmActivation | scripts/verify_p1_6_cross_repo_e2e.py:87-92 | arming twice fails and changes nothing |
| ControlStores.BarrierState.Record | scripts/verify_p1_6_cross_repo_e2e.py:94-112 | one capture with the next ordinal, consuming the arm |
| ControlStores.EachArmActivatesOnce | scripts/verify_p1_6_cross_repo_e2e.py:72-112 | every accepted arm activates exactly once, unless still armed |
| ActuationTables.InsertsKeepConstraints | apps/api/alembic/versions/0018_runtime_assurance_actuation_executions.py:72-107 | CHECK, FOREIGN KEY and UNIQUE constraints, those of the copied columns included, hold in every state reached by inserts |
| ActuationTables.OneEngagePerEvaluation | apps/api/alembic/versions/0016_runtime_assurance_actuation_requests.py:67-87 | following decision, request, recommendation, promotion and evaluation, one engage execution per evaluation |
| ActuationTables.RepeatedEvaluationIsNotUnique | apps/api/alembic/versions/0016_runtime_assurance_actuation_requests.py:20-90 | a reachable state with two engage executions whose requests repeat one evaluation: only the chain of foreign keys gives uniqueness |
| ActuationTables.OneRestorePerRemediation | apps/api/alembic/versions/0019_runtime_assurance_restore_workflow.py:50-63 | one restore execution per source execution and remediation snapshot |
| ActuationTables.RestoreReversesItsEngage | apps/api/alembic/versions/0019_runtime_assurance_restore_workflow.py:169-186 | every applied restore traces to an engage receipt whose states it reverses |
| ActuationTables.ExecutionsAreBacked | apps/api/alembic/versions/0018_runtime_assurance_actuation_executions.py:72-107 | every stored execution applied a transition to its state, with positive epoch and floor and the version one past the floor, on rows that are there with all they refer to |
| ActuationTables.ExecutedOnce | apps/api/alembic/versions/0018_runtime_assurance_actuation_executions.py:72-107 | no decision is executed twice and no transition applied by two executions |
| AuditChain.AuditLog.Append | apps/api/src/ai_governance_api/audit.py:14-56 | one event is added, linked to the latest by (occurred_at, id); a key clash changes nothing |
| AuditChain.HashTextDetermines | apps/api/src/ai_governance_api/audit.py:29-45 | the hashed text determines every hashed field and the predecessor |
| AuditChain.LinearIffIncreasing | apps/api/src/ai_governance_api/audit.py:25-28 | appends form one linear chain exactly when all but the last event have increasing keys |
| AuditChain.ClockStepForksLog | apps/api/src/ai_governance_api/audit.py:25-56 | three appends under a clock that steps back once: a written log with unique hashes that is no chain |
| AuditChain.WrittenIsAuthentic | scripts/verify_p1_7_cross_repo_telemetry_e2e.py:395-420 | the hash the auditor recomputes from a stored row is the one the writer stored |
| AuditChain.ChainOfLogEventsIsPrefix | apps/api/src/ai_governance_api/audit.py:25-56 | any chain made of a log's events is a prefix of the log |
| AuditChain.DeletionBreaksChain | apps/api/src/ai_governance_api/audit.py:25-56 | deleting one event leaves a chain exactly when it is the last, for a reader that follows previous_hash from the first |
| AuditChain.ReorderingBreaksChain | apps/api/src/ai_governance_api/audit.py:25-56 | a permutation is a chain exactly when it is the original order |
| AuditChain.LastHashCommits | scripts/verify_p1_7_cross_repo_telemetry_e2e.py:395-420 | two logs that walk and end in the same hash have the same hashed history |
| AuditChain.VerifyAuditEvents | scripts/verify_p1_7_cross_repo_telemetry_e2e.py:423-495 | the loop accepts exactly when every record audits, and reports the last finding per event id |
| AuditChain.AuditNoticesIff | scripts/verify_p1_7_cross_repo_telemetry_e2e.py:423-495 | losing one row makes the audit of a record fail exactly when it is the audited row or the one that row names as its predecessor |
| AuditChain.WrittenEventAudits | scripts/verify_p1_7_cross_repo_telemetry_e2e.py:423-495 | the auditor accepts a recorded event that has one matching audit row, wherever it stands |
| AuditMeaning.AppendMeans | apps/api/src/ai_governance_api/audit.py:14-56 | an appended event has the caller's fields, links to the row all others precede by time and id, and hashes the salt, a colon and the canonical ASCII form of its seven columns |
| AuditMeaning.AuditAcceptsIff | scripts/verify_p1_7_cross_repo_telemetry_e2e.py:395-495 | the auditor accepts a record exactly when one row alone records the event and that row has the writer, version, minimized payload and hash of its columns, and a predecessor that is a row or none; it reports that row |
| Bootstrap.BootstrapRuntimeControl | apps/api/src/ai_governance_api/runtime_control_bootstrap.py:18-50 | bad batch sizes fail first; otherwise the loop ends, projecting in id order, once each, every agent present at every page read |
| Bootstrap.PageIsNext | apps/api/src/ai_governance_api/runtime_control_bootstrap.py:35-40 | a page is increasing, beyond the cursor, within the limit and skips nothing |
| Bootstrap.CursorAdvances | apps/api/src/ai_governance_api/runtime_control_bootstrap.py:40-45 | moving the cursor to the last id leaves strictly fewer ids ahead |
| Bootstrap.FixedTableIsCovered | apps/api/src/ai_governance_api/runtime_control_bootstrap.py:31-46 | over an unchanging table exactly its sorted ids are projected |
| Markdown.HeadingIffSplit | apps/web/components/MarkdownDocument.tsx:71-71 | the greedy heading match succeeds exactly when some split of the line matches the pattern |
| Markdown.ProgressIffNotStuck | apps/web/components/MarkdownDocument.tsx:37-46 | a turn consumes at least one line, within the document, exactly when the line is not a heading prefix that no branch takes |
| Markdown.HaltsIffEnds | apps/web/components/MarkdownDocument.tsx:64-170 | the scanner reaches the end exactly when no visited line is stuck |
| Markdown.NoStuckLineHalts | apps/web/components/MarkdownDocument.tsx:64-170 | a document none of whose lines is stuck, visited or not, is scanned to the end |
| Markdown.StuckLineHangs | apps/web/components/MarkdownDocument.tsx:64-170 | a stuck line without a bar stops the scan, whatever stands around it |
| Markdown.UsualDocumentsHalt | apps/web/components/MarkdownDocument.tsx:60-70 | documents whose only line terminators are LF and CRLF are scanned to the end |
| Markdown.TerminatorInHeadingHangs | apps/web/components/MarkdownDocument.tsx:71-76 | one heading with U+2028 inside never advances |
| Markdown.ScanDocument | apps/web/components/MarkdownDocument.tsx:59-173 | the loop yields the specified blocks |
| Markdown.ReadBlock | apps/web/components/MarkdownDocument.tsx:65-169 | one turn takes the branch and the run of lines the patterns say |
| Markdown.ReadQuote | apps/web/components/MarkdownDocument.tsx:79-84 | the quote loop takes the maximal run and strips each marker |
| Markdown.ReadRows | apps/web/components/MarkdownDocument.tsx:97-101 | the table loop takes the maximal run of rows with a bar |
| Markdown.ReadBullets | apps/web/components/MarkdownDocument.tsx:126-133 | the list loop takes the maximal run and reads task markers |
| Markdown.ReadOrdered | apps/web/components/MarkdownDocument.tsx:149-154 | the ordered-list loop takes the maximal run |
| Markdown.ReadParagraph | apps/web/components/MarkdownDocument.tsx:163-169 | the paragraph loop stops at a blank line or where a block starts |
| Markdown.EveryLineInOneBlock | apps/web/components/MarkdownDocument.tsx:59-173 | a line is in a block exactly when it is not blank, and then in exactly one |
| MarkdownPatterns.HeadingIff | apps/web/components/MarkdownDocument.tsx:71-71 | the heading branch is taken exactly when the regular expression matches, and its captures are those of the greedy match |
| MarkdownPatterns.TaskIff | apps/web/components/MarkdownDocument.tsx:130-131 | a list item is a task exactly when the task expression matches |
| MarkdownPatterns.ReadsOneWay | apps/web/components/MarkdownDocument.tsx:71-152 | a regular expression reads a text greedily in one way at most |
| MarkdownPatterns.CellsIff | apps/web/components/MarkdownDocument.tsx:22-29 | the cells of a row are the trimmed pieces between its bars, one bar at either end aside |
| MarkdownPatterns.SeparatorIff | apps/web/components/MarkdownDocument.tsx:31-35 | a separator cell is one that the separator expression matches |
| MarkdownMeaning.BlockAtMeans | apps/web/components/MarkdownDocument.tsx:65-169 | the first expression that matches, in the order of the branches, decides the block; it takes the longest run of matching lines and holds the captures of their greedy matches |
| MarkdownMeaning.LinesAreLines | apps/web/components/MarkdownDocument.tsx:60-60 | the lines are those of the document, each ended by LF or CRLF |
| VersionPolicy.KeyInjective | scripts/verify_governance_intelligence_contract_evolution.py:90-94 | distinct canonical MAJOR.MINOR strings have distinct numeric keys |
| VersionPolicy.ValidatePolicy | scripts/verify_governance_intelligence_contract_evolution.py:199-249 | the sequence of checks accepts exactly the policies that pass all of them |
| VersionPolicy.AcceptedPolicy | scripts/verify_governance_intelligence_contract_evolution.py:199-249 | accepted exactly when keys strictly increase, the newest version alone is current, and each version reads itself and all earlier ones of its major |
| VersionPolicy.CurrentIsMaximum | scripts/verify_governance_intelligence_contract_evolution.py:220-227 | the current version is above every other |

## Left out

- Security evidence summaries and exception matching (`scripts/release_security_evidence.py`): counters and field comparisons; the bundle enters here as a self-digested document.
- The benchmark bundle's header and upstream-root comparisons: field equalities; its scenario recomputation, verdict and runtime equivalence are modelled.
- The insides of the policy model router: one atomic decision (control state, floor, replay), as the harness and the architecture decisions describe it; its other policies are not modelled.
- Single agent: the protocol is per agent; rows, snapshots and requests of other agents are independent.
- Other scope facts in an authorization (budgets, models, tool lists): represented by the agent version. An edit that merges with a completion changes them without raising it; the code's scope digest sees that change, the version check here does not.
- Row locks: an inventory edit (`apps/api/src/ai_governance_api/services/inventory.py:141-155, 430-463`) locks the AI system, not the agent, and stores the version it read plus one. The model lets the pending transition complete in between and takes it that no new transition starts, because inserting one refers to the locked row.
- Subprocesses, HTTP, Redis, SQL sessions, the file system and command lines: maps, tables and ports; fsync, permissions and symbolic links are not modelled.
- SHA-256, gzip and tar: a hash is a parameter; an archive is its ordered member list, and encoding is a parameter that decoding undoes on the archives a run writes.
- JSON, TOML and Python parsing of tracked files: reader parameters; the printer is modelled in full.
- Floats: a finite float in JSON is its decimal text; percentiles, rates and thresholds are exact reals, so rounding and NaN are out.
- Git settings: paths are printed under the default `core.quotePath`; submodule ignore settings (`diff.ignoreSubmodules`, `.gitmodules`) are out, and the commit a submodule is on is taken not to be an object of the same repository.
- Names with outer spaces are read as they are printed and stripped; the exact statements about squash equivalence exclude changed ones.
- GitSquash.SquashIsExactIff: assumes that no tracked path contains a double quote and no changed blob begins like a directory listing of the selected commit; the two statements for one given selection, FalselyAcceptedIff and FalselyRejectedIff, do not.
- Rename detection: similarity is a parameter, under which exact copies are similar; which of the admissible pairs git reports, its limits on their number included, is its own choice, so RuntimeDiff.SomeReportHidesIff speaks of some report.
- Shallow clones: a store holds the parents of its commits, as the later-state statements of ManifestStability assume.
- Python equality of `1`, `1.0` and `True`: JSON values are equal here only when they print alike.
- Version patterns: `\d` is read as an ASCII digit, and `git rev-parse` abbreviations and annotated tags are out.
- Which of several errors is reported first: manifest and provenance checks are grouped by document, so only success, and the value on success, is tied to the code.
- Build recipe list: a parameter; the round trip asks that its paths are distinct and normal, as the constant list is.
- Self-digest length: the provenance verifier asks for length 64 only; since the digest must equal a hexadecimal one, the 64-hex check used here accepts the same documents.
- Actuation tables: columns whose CHECK allows one value (schema, version, state, approval area), the digests with their shape checks, the keys into incidents, agents and systems, the incident status of a restore, and downgrades.
- MigrationHead.MigrationRecord: error messages and their order are not part of its contract.
- Benchmark samples whose fields are missing or of the wrong type: a sample has a number and a flag here.
- AuditChain.LinearIffIncreasing: says nothing about concurrent appends, which the code does not serialise.
- Bootstrap.BootstrapRuntimeControl: assumes that all ids ever present come from one finite set; with ever larger ids inserted for ever the loop need not end.
- Markdown inline rendering, heading slugs and table cell padding.
- Pydantic schemas, dependency wiring, settings, demo seeding, React pages other than the scanner.
