# Lifecycle of vended resources

Repave vends environments and components into GitOps repositories and takes them down again when
their time to live has run out. What is registered is never stored: it is folded from an append-only
log of `register` and `decommission` events. A reclaim run reads that fold once, builds three
worklists (decommission reviews waiting for a merge, expired resources to reclaim automatically,
expired resources to put under review), works through them against a Git host, and appends events as
it goes. The Git host answers, refuses or fails; pull requests are merged and closed by people at any
time; the snapshot goes stale while the run is under way.

This project models that protocol and proves what every run and every history keeps. The modules
build on each other:

- `text`, `lines`, `sorting`: the Python string operations in use, over sequences of characters, and
  `sorted` with a key.
- `records`: records, their log entries, time to live, and class or kind eligibility. Environments and
  components share one lifecycle; `Family` tells them apart wherever they differ.
- `registry`: the fold, the sorted listing, and the registry file with its writers.
- `gitops`: pull requests, paths and the host, with the ways one call can fail.
- `reclaim`: one run as a function of the log, the host and its replies. `reclaim_run` is the same
  run as the loops that update the registry file and the host, proved equal to it.
- `reclaim_theorems`: what a run does to the registry, result accounting, the diagnosis of a named
  run, and what a raising run has done.
- `histories`, `marking`: vends, clock ticks, people merging, closing and reopening pull requests, and
  reclaim runs in any order and number, with TTL safety, review safety and single marking.
- `selection`, `attempts`: what a run works on, told from the fields of record and request, what it
  does with one record, told from the host and its reply, and what it never does.
- `fault_free_sweeps`, `fault_free_runs`, `convergence`: a fault-free run in closed form, and exactly
  when two of them with a merge in between leave nothing expired. `twins` is a history after which
  they do not.
- `quiescence`: a second run after a complete first one writes nothing.
- `component_identity`: which components share an entity id, and when that does no harm.

Seven smaller parts of the engine stand on their own: `chunker` (search excerpts), `template`
(placeholder rendering), `focus` (attribution of FinOps FOCUS rows; the columns are those of the
Columns section of the FOCUS specification), `snapshots` (the cost-snapshot log), `split_diff` (diff
views), `version_lock` with `lock_rewriting` (the release script that rewrites `versions.lock`) and
`cost_estimate` (the per-resource cost roll-up).

Where a property one would expect is false of the code, the code is modelled as it is, with the exact
condition and an input:

- Two runs with every decommission pull request merged in between need not leave the registry free of
  expired records. `ConvergesIffNothingStuck` gives the condition on the state before the first run,
  and `TwinSurvives` a whole history: a bucket and a database of one name share the branch of their
  decommission pull requests.
- A run that raises may have changed the log before. `RaisesIff` says when a run raises,
  `RaisingKeepsLogIff` when it has left the log alone, and `FinalizesThenRaises` is a case where not.
- Whether a mark ends the duty to review depends on the host reporting a positive pull request number
  (`MarkEndsReviewDuty`).
- Repeating a capture of cost snapshots writes again exactly when some entity has no line left in the
  scan window (`SecondCaptureWritesNothing`, `TooManyEntities`).
- The lines of a hunk can be read back from a parsed patch unless a removed line starts with two
  dashes or an added one with two pluses (`SidesAreReadBack`).
- Rewriting a lock file to one version and then another is not always rewriting it to the other.
  `AbsorbsIff` gives the condition. Reading the file has turned every carriage return into a newline,
  but it leaves form feeds and other separators alone, at which `splitlines` also breaks
  (`FormFeedsJoinLines`).
- The totals of cost entities may count a row twice. `SharedRowIff` says between which two entities
  that can happen, and `TotalsAddUpIff` for which lists of entities it never does.
- Filling in placeholders key by key is not always filling them in all at once. `RendersAsMeantIff`
  says for which values it is: not both kinds of braces may occur among them.

`dafny verify dfyconfig.toml` checks the whole project.

## Model

| member | source | states |
|---|---|---|
| Text.TrimIsInfix | engine/src/repave_engine/environment_reclaim.py:467-468 | Stripping removes exactly the leading and trailing dropped characters and nothing in between. |
| Text.NormTwice | engine/src/repave_engine/environment_record.py:182-183 | The strip-and-lower comparison form of class names is idempotent and empty only for blank names. |
| Text.NormAgreesIff | engine/src/repave_engine/environment_record.py:182-183 | Two names compare equal exactly when, stripped, they are the same up to the case of ASCII letters. |
| Text.BeforeIff | engine/src/repave_engine/environment_registry.py:110 | One key sorts before another exactly when, up to some place, they agree, and there it ends or has the smaller character. |
| Lines.SplitKeepingEndsIff | scripts/sync_versions_lock.py:34 | A text falls into lines in one way only, and that is how it is split: the lines make up the text, each breaks at its end only, every line but the last does, and a carriage return keeps its newline. |
| Lines.SplitLinesDropsEnds | engine/src/repave_engine/assistant_fts.py:245 | Splitting without the breaks gives the same lines without them. |
| Records.RoundTrip | engine/src/repave_engine/environment_record.py:36-112 | Parsing a written event gives the record back if and only if the record is in normal form, and event and name survive in stripped form. |
| Records.ParsedIsNormal | engine/src/repave_engine/component_record.py:88-114 | Whatever a payload holds, a parsed record is in normal form and keeps the pull request number. |
| Records.ParsesIff | engine/src/repave_engine/environment_record.py:86-90 | A payload is a record if and only if it names one, with its id and, for a component, its kind. |
| Records.ParsedFields | engine/src/repave_engine/environment_record.py:91-112 | Absent or blank fields get their defaults and the others are taken stripped. |
| Records.NoTtlResolves | engine/src/repave_engine/environment_record.py:122-134 | No TTL resolves exactly when the default and every matching per-class entry are not positive. |
| Records.TtlResolvesTo | engine/src/repave_engine/environment_record.py:122-134 | The first entry for the class with a positive TTL decides, and a positive default does exactly when there is none. |
| Records.ReviewEligibility | engine/src/repave_engine/environment_record.py:176-201 | A registered class is reviewed exactly when it is not automatic and, if review classes are configured, one of them names it, whatever the case or spacing. |
| Registry.LastWriteWins | engine/src/repave_engine/environment_registry.py:95-110 | A key holds a record in the fold if and only if the last event that touches it is a parseable register of that record. |
| Registry.EffectIff | engine/src/repave_engine/environment_registry.py:95-110 | An entry registers a record exactly if it says so and parses, and drops a key exactly if it says so and names it; a component entry must parse for that. |
| Registry.DifferentKeysCommute | engine/src/repave_engine/environment_registry.py:95-110 | Two events on different keys can be written in either order. |
| Registry.ReadAfterWrite | engine/src/repave_engine/component_registry.py:88-101 | Writing a register or decommission event of a normal record updates or removes exactly its key in what is read next. |
| Registry.RefusedWritesDoNothing | engine/src/repave_engine/environment_registry.py:139-155 | An entry for a record that the writers refuse would have left the registry as it was. |
| Sorting.Sort | engine/src/repave_engine/environment_reclaim.py:186 | For every input, sorting by key permutes, orders, and keeps elements with equal keys in the order they had. |
| Sorting.SortedFixes | engine/src/repave_engine/environment_reclaim.py:186 | What is in order already comes back unchanged. |
| Sorting.InsertKeepsStrictOrder | engine/src/repave_engine/environment_registry.py:110 | Inserting a new key keeps a listing in strictly increasing key order. |
| Registry.ListingIsUnique | engine/src/repave_engine/environment_registry.py:110 | A registry has exactly one listing, so the order in which the dictionary is read does not matter. |
| Registry.SnapshotMembers | engine/src/repave_engine/environment_registry.py:113-136 | A snapshot holds exactly the registered records, each once, normal and in key order. |
| Registry.FoldPayloads | engine/src/repave_engine/environment_registry.py:95-110 | The loop over a log returns the listing of its fold. |
| Registry.ExpiredIsNormal | engine/src/repave_engine/environment_registry.py:158-174 | A record marked expired stays normal under its key, and is under review exactly when its pull request number is positive. |
| Registry.RegistryFile.Register | engine/src/repave_engine/environment_registry.py:139-148 | A valid record is appended, stamped if it had no time, and is what its key reads as next; an invalid one changes nothing. |
| Registry.RegistryFile.Decommission | engine/src/repave_engine/component_registry.py:137-141 | A valid record's key is removed and no other; an invalid one changes nothing. |
| Registry.RegistryFile.MarkExpired | engine/src/repave_engine/environment_registry.py:158-174 | The record is written back with status expired and the new pull request, keeping its branch when none is given. |
| Registry.RegistryFile.Read | engine/src/repave_engine/environment_registry.py:113-136 | Reading returns the listing of the log's fold. |
| GitOps.OpenPrExtends | engine/src/repave_engine/environment_reclaim.py:437-463 | Opening a pull request takes a fresh number and leaves every other pull request and every path alone. |
| GitOps.Host.ResolveMergeState | engine/src/repave_engine/environment_reclaim.py:228-253 | The merge state is unknown for records without number or repository, for failed lookups and for missing pull requests, else as the host has it. |
| GitOps.Host.ExecuteDecommissionPr | engine/src/repave_engine/environment_reclaim.py:356-463 | Clone failures, taken branches, absent paths, empty commits and crashes are told apart in this order, and only then is a pull request open. |
| Reclaim.JobMembers | engine/src/repave_engine/environment_reclaim.py:169-225 | Each worklist holds exactly the snapshot records its conditions select. |
| Reclaim.SelectKeepsOrder | engine/src/repave_engine/component_reclaim.py:175-234 | A worklist drawn from a listing is in strict key order. |
| Reclaim.WorklistCoverage | engine/src/repave_engine/environment_reclaim.py:169-225 | Auto and review exclude each other, pending and review exclude each other, and without configured classes an expired selected record with no open review is in exactly one of auto and review. |
| Selection.WorksOnIff | engine/src/repave_engine/component_reclaim.py:166-234 | A run works on exactly the registered records that the request names, on exactly the grounds that their own fields give for finalization, automatic reclaim or review. |
| Selection.JobsInOrder | engine/src/repave_engine/environment_reclaim.py:752-848 | Finalizations come first, then automatic reclaims, then reviews, each by key. |
| Selection.FiltersProtect | engine/src/repave_engine/component_reclaim.py:166-172 | Whatever the replies, a run with a name or kind reports only on records that have it, leaves the registry entries of all others as they are, and opens no pull request for them. |
| Selection.DiagnosisIff | engine/src/repave_engine/environment_reclaim.py:696-729 | What a named run that selects nothing is told, from the fields of the first record that the request names. |
| Reclaim.SweepAccounts | engine/src/repave_engine/environment_reclaim.py:752-848 | Results answer the jobs one for one up to a crash, explain every appended event, and a dry run changes nothing. |
| ReclaimRun.ListPendingReviews | engine/src/repave_engine/environment_reclaim.py:214-225 | For any records, the loop returns the records of the pending worklist, stably sorted by key. |
| ReclaimRun.ListExpired | engine/src/repave_engine/environment_reclaim.py:169-186 | For any records, the loop returns the records of the automatic worklist, stably sorted by key. |
| ReclaimRun.ListExpiredForReview | engine/src/repave_engine/component_reclaim.py:196-219 | For any records, the loop returns the records of the review worklist, stably sorted by key. |
| ReclaimRun.SelectionIsSorted | engine/src/repave_engine/environment_reclaim.py:169-225 | A selection from a listing is in order already, so sorting it gives the job list of the run. |
| Attempts.LocationIs | engine/src/repave_engine/environment_reclaim.py:466-480 | The path of a record is its text without the space around it and then without the slashes around that. |
| Attempts.AttemptOutcome | engine/src/repave_engine/environment_reclaim.py:352-666 | For an attempt at a record that says where it lives: exactly when it opens a pull request, which one, when it ends the run, why it leaves the record alone, what it reports and what it writes down. |
| Attempts.FinalizeOutcome | engine/src/repave_engine/environment_reclaim.py:226-351 | The same for a pending review, decided by what the host shows of its pull request. |
| Attempts.FinalizeNeedsToken | engine/src/repave_engine/environment_reclaim.py:752-776 | Without a token a pending review is skipped and reported with its pull request, even in a dry run. |
| Attempts.WithoutTokenNothingHappens | engine/src/repave_engine/environment_reclaim.py:518-521 | A live run without a token leaves log and host as they were and reports every record as skipped, whatever the replies. |
| Attempts.PlacelessRecordsStay | engine/src/repave_engine/environment_reclaim.py:466-480 | A record without repository or path is never dropped, marked or worked on by any run, and every pull request that a run opens has both. |
| ReclaimRun.FinalizeMergedDecommission | engine/src/repave_engine/environment_reclaim.py:256-353 | Only a merged pull request of a live run removes the record; every other state leaves registry and host as they were. |
| ReclaimRun.ReclaimResource | engine/src/repave_engine/environment_reclaim.py:483-570 | A live reclaim removes the record once its path is absent or its pull request open, and reports refusals without writing. |
| ReclaimRun.RequestDecommissionReview | engine/src/repave_engine/environment_reclaim.py:573-666 | A live review request removes the record if its path is absent, else marks it with the pull request it opened. |
| ReclaimRun.FinalizePending | engine/src/repave_engine/environment_reclaim.py:752-790 | The first loop gives one result per pending review, skips them all without a token, and stops only at an uncaught error. |
| ReclaimRun.SweepConcat | engine/src/repave_engine/environment_reclaim.py:752-848 | Working through one list after another is working through their concatenation, so the three loops are one sweep. |
| ReclaimRun.ReclaimExpired | engine/src/repave_engine/environment_reclaim.py:732-858 | The orchestrator, with its three loops over the registry file and the host, leaves the log, world, results and ending that the run function says. |
| ReclaimRun.ValidateFilter | engine/src/repave_engine/environment_reclaim.py:696-729 | The first record that matches the name decides the reason, in the order of the checks. |
| ReclaimTheorems.JobsAreWellPlanned | engine/src/repave_engine/environment_reclaim.py:742-805 | Every job works on a registered record, and no review job shares its record with an earlier job. |
| ReclaimTheorems.NoResurrection | engine/src/repave_engine/environment_reclaim.py:742-848 | After any run the registry is the old one minus exactly the reclaimed keys, with exactly the marked keys updated, although the snapshot is stale and a record may be processed twice. |
| ReclaimTheorems.RunAccounting | engine/src/repave_engine/environment_reclaim.py:94-108 | A returning run has one result per worklist entry. The decommission events appended are the summary's reclaimed results: the finalized, the automatic, and the reviews whose path was absent. The register events are its reviews less those, and a dry run appends nothing and reclaims nothing. |
| ReclaimTheorems.NamedRunIsDiagnosed | engine/src/repave_engine/component_reclaim.py:712-750 | A named run that selects nothing for reclaim or review always raises, with a reason that is true of a matching record, and of every match for environments. |
| ReclaimTheorems.FinalizeSweep | engine/src/repave_engine/environment_reclaim.py:752-790 | The finalize loop leaves the host alone, drops exactly the pending reviews found merged, and ends early exactly at an uncaught error. |
| ReclaimTheorems.RaisesIff | engine/src/repave_engine/environment_reclaim.py:850-857 | A run raises if and only if it is named, selects nothing for reclaim or review, and no reply about a pending review is an uncaught error. |
| ReclaimTheorems.RaisingKeepsLogIff | engine/src/repave_engine/environment_reclaim.py:778-857 | A raising run has left the host alone and dropped the pending reviews found merged, so the log is unchanged if and only if there are none. |
| ReclaimTheorems.FinalizesThenRaises | engine/src/repave_engine/environment_reclaim.py:778-857 | An instance: a run named on an environment whose decommission is merged drops it and then raises. |
| Histories.StepJustified | engine/src/repave_engine/environment_reclaim.py:256-666 | A step disturbs no existing pull request, and each result is justified by a merged pull request, an absent path or an open pull request of its own. |
| Histories.VendedIsNew | engine/src/repave_engine/environment_registry.py:55-78 | A vend never writes status expired, and sets the expiry from the TTL in force. |
| Histories.VendedAs | engine/src/repave_engine/environment_registry.py:55-78 | A vend puts down the request stripped, with its pull request, location and branch, and is pending exactly if it is a draft. |
| Histories.VendIsRecorded | engine/src/repave_engine/environment_registry.py:39-79 | A vend that changes the registry records its time and the pull request it opened, which adds the path of the record, or none if it opened none. |
| Histories.VendedExpiry | engine/src/repave_engine/environment_record.py:122-147 | A vended record expires after the hours of the first positive entry for its class, or of a positive default exactly when there is none. |
| Histories.ChangeIsWarranted | engine/src/repave_engine/environment_reclaim.py:742-848 | Whatever a run changed about a record, one of its results is about that record and had the grounds its worklist requires. |
| Histories.NextKeepsInv | engine/src/repave_engine/environment_reclaim.py:732-858 | Vends, ticks, human actions and reclaim runs keep the invariant: expiry follows vend time and TTL, status expired means expired, and a recorded decommission pull request removes the record's own path. |
| Histories.EveryHistoryKeepsInv | engine/src/repave_engine/environment_registry.py:39-78 | The invariant holds after every history. |
| Histories.TtlSafety | engine/src/repave_engine/environment_record.py:122-173 | In every history and whatever the host replies, a run drops or changes only records vended with a positive TTL at least that long ago, even on the finalize path that never looks at expiry, and opens pull requests only to remove the paths of such records. |
| Histories.InterleavedVendIsLost | engine/src/repave_engine/environment_reclaim.py:742-848 | If a key is vended anew after a run has read its record, the decommission entry for that record drops the new one, whose TTL has not run out. |
| Histories.ReviewSafety | engine/src/repave_engine/environment_reclaim.py:308-335 | In every history a record that is not reclaimed automatically leaves only if its recorded decommission pull request, which removes its own path, is merged, or its path was already absent. |
| Marking.NextKeepsMarkedOnce | engine/src/repave_engine/environment_reclaim.py:208-209 | Every action keeps this: after an entry that opens a review, the key expires again only after a new vend. |
| Marking.MarkedOnceBetweenVends | engine/src/repave_engine/environment_reclaim.py:633-647 | In every history a resource is marked at most once between two vends, given a positive pull request number. |
| Marking.MarkEndsReviewDuty | engine/src/repave_engine/environment_record.py:204-205 | A mark takes a record off the review list exactly when its pull request number is positive. |
| FaultFreeSweeps.LaneAfterSweep | engine/src/repave_engine/environment_reclaim.py:384-389 | After a fault-free sweep a branch has an open pull request exactly when it had one before or a job with something to remove claimed it. |
| FaultFreeSweeps.SweepIsExpected | engine/src/repave_engine/environment_reclaim.py:752-848 | A fault-free sweep never crashes, and each result is decided by the start world and by whether an earlier job took the branch. |
| FaultFreeSweeps.SweepOpensOwnPrs | engine/src/repave_engine/environment_reclaim.py:437-463 | Every pull request a fault-free sweep opens removes the path of a job that was not blocked. |
| FaultFreeRuns.BlockedJob | engine/src/repave_engine/environment_reclaim.py:186-211 | Whether a job finds its branch taken can be told from the registry and the world before the run. |
| FaultFreeRuns.FaultFreeRun | engine/src/repave_engine/environment_reclaim.py:732-858 | A fault-free run in closed form: which records leave, which go under review and with what, and that every other record is as it was. |
| Convergence.LanesAfterMerge | engine/src/repave_engine/environment_reclaim.py:384-389 | After a run and the merge of every decommission pull request a branch is taken exactly when some other pull request held it at the start. |
| Convergence.PathsAfterMerge | engine/src/repave_engine/environment_reclaim.py:391-401 | After a run and the merge a path is left exactly when it was there and nothing removed it. |
| Convergence.MergingInTurn | docs/api-v2.md:124-126 | Merging the open decommission pull requests one after the other, in any order, gives the world between the two runs. |
| Convergence.BlockedInSecondRun | engine/src/repave_engine/environment_reclaim.py:384-389 | Whether a record is blocked in the second run can be told before the first. |
| Convergence.KeyConverges | engine/src/repave_engine/environment_reclaim.py:732-858 | A key still holds an expired record after both runs if and only if its record was stuck at the start. |
| Convergence.ConvergesIffNothingStuck | engine/src/repave_engine/environment_reclaim.py:732-858 | From any reachable state with no decommission pull request closed unmerged, two fault-free runs at one time with a merge in between leave nothing expired if and only if nothing was stuck. |
| Twins.HistoryRuns | engine/src/repave_engine/component_registry.py:38-75 | The log, world and time after a bucket and a database of one name are vended, their vend pull requests merged, and their hour has passed. |
| Twins.TwinSurvives | engine/src/repave_engine/component_reclaim.py:385-425 | After that history the database is still registered and expired after both runs, because the bucket takes the branch both share. |
| Quiescence.SweepWritesNothing | engine/src/repave_engine/environment_reclaim.py:256-287 | A sweep over reviews that are still open and attempts at taken branches writes nothing, whatever the host replies. |
| Quiescence.SweepTakesBranches | engine/src/repave_engine/environment_reclaim.py:633-647 | Every mark of a live run, numbered or not, leaves an open pull request on its branch. |
| Quiescence.SecondRunIsSilent | engine/src/repave_engine/environment_reclaim.py:732-858 | After a live run that skipped nothing, and while its pull requests stay open, a second run appends no event and opens no pull request. |
| ComponentIdentity.SameIdIff | engine/src/repave_engine/component_record.py:12-13 | Two components share an entity id exactly when kind and name agree or one's kind swallows a hyphenated head of the other's name. |
| ComponentIdentity.IdsAreInjective | engine/src/repave_engine/component_record.py:12-13 | Without hyphens in the kinds the entity id determines kind and name. |
| ComponentIdentity.HyphensCollide | engine/src/repave_engine/component_record.py:12-13 | With a hyphen in a kind two different components, named within the rules, have one id. |
| ComponentIdentity.KeyedByIdRefinesKeyedByName | engine/src/repave_engine/component_registry.py:88-101 | For entries that carry their own id and kinds without hyphens the registry keyed by entity id holds the same records as one keyed by kind and name. |
| ComponentIdentity.CollisionLosesRecord | engine/src/repave_engine/component_registry.py:88-101 | When ids collide the second registration takes the first one's place. |
| ComponentIdentity.EveryHistoryRefines | engine/src/repave_engine/component_registry.py:38-75 | The two registries agree after every history of vended components whose kinds have no hyphen. |
| Chunker.GroupsKeepLines | engine/src/repave_engine/assistant_fts.py:242-253 | Splitting at headings loses no line and keeps their order. |
| Chunker.GroupsOpenWithHeadings | engine/src/repave_engine/assistant_fts.py:242-253 | Each section but the first opens with a heading, and no heading stands inside a section. |
| Chunker.SplitHeadings | engine/src/repave_engine/assistant_fts.py:242-253 | The loop returns the stripped non-empty sections. |
| Chunker.JoinSplits | engine/src/repave_engine/assistant_fts.py:242-253 | Joining undoes splitting: lines without breaks, the last not empty, are read back from the joined text. |
| Chunker.WindowsCover | engine/src/repave_engine/assistant_fts.py:256-272 | The windows run from one end of a section to the other, overlap by exactly 80, hold at most 800 and advance by at least 321 characters. |
| Chunker.PackedInOrder | engine/src/repave_engine/assistant_fts.py:256-272 | The chunks of a long section are its windows in order, stripped and without blanks; each window but the last ends at the last newline of its second half, or after 800 characters if there is none. |
| Chunker.PackSection | engine/src/repave_engine/assistant_fts.py:256-272 | The loop ends and returns the stripped non-empty windows of the section. |
| Chunker.SectionBound | engine/src/repave_engine/assistant_fts.py:256-272 | A section of n > 800 characters gives at most 1 + ceil((n - 800) / 321) chunks of at most 800. |
| Chunker.ChunkText | engine/src/repave_engine/assistant_fts.py:48-57 | The loop returns the chunks of all sections in order. |
| Chunker.ChunksAreShort | engine/src/repave_engine/assistant_fts.py:48-57 | No chunk is empty, longer than 800 characters, or has space around it. |
| Chunker.NoShortTokenIsCut | engine/src/repave_engine/assistant_fts.py:48-57 | Every whitespace-free token of at most 80 characters of the text lies wholly inside some chunk. |
| Template.RenderMappingValue | engine/src/repave_engine/bundle.py:169-175 | The loop replaces key after key and raises exactly when both braces are left. |
| Template.SequentialIsSimultaneous | engine/src/repave_engine/bundle.py:169-175 | For a template of brace-free literals and holes and brace-free keys, replacing key after key is filling all holes at once, provided not both kinds of braces occur among the values. |
| Template.RendersAllAtOnce | engine/src/repave_engine/bundle.py:169-175 | Under the same proviso rendering raises if and only if some hole names no key, and otherwise gives the filled template. |
| Template.OrderDoesNotMatter | engine/src/repave_engine/bundle.py:169-175 | Under the same proviso dictionaries with equal contents render alike in any order. |
| Template.RendersAsMeantIff | engine/src/repave_engine/bundle.py:169-175 | With brace-free keys, every template of brace-free literals and holes is rendered as meant if and only if not both kinds of braces occur among the values of the dictionary. |
| Template.BracesMakeOrderMatter | engine/src/repave_engine/bundle.py:169-175 | An instance of harmful values: one order renders and the other raises. |
| Focus.AggregateFocusActuals | engine/src/repave_engine/cost_actuals_focus.py:322-365 | The summary is about exactly the claimed in-window rows: their cost, number, last named currency and latest end; there is none when nothing is claimed. |
| Focus.LookbackDecides | engine/src/repave_engine/cost_actuals_focus.py:312-319 | With a positive lookback a row counts exactly if its start, or else its end, is not before the cutoff and it would count without dates; otherwise dates do not matter. |
| Focus.OldRowsDoNotCount | engine/src/repave_engine/cost_actuals_focus.py:312-351 | A row from before the cutoff may stand anywhere in the export and changes nothing. |
| Focus.CountsIff | engine/src/repave_engine/cost_actuals_focus.py:285-309 | What an undated row counts towards, from its two tags and its service name, which stands in for a missing service tag of a fully tagged entity. |
| Focus.ExactTagDecides | engine/src/repave_engine/cost_actuals_focus.py:272-277 | The tag under the exact key decides unless it is blank. |
| Focus.AnyCaseDecides | engine/src/repave_engine/cost_actuals_focus.py:278-282 | Otherwise the first tag decides whose key is the same in lower case, and without one the value is empty. |
| Focus.ClaimsIdentify | engine/src/repave_engine/cost_actuals_focus.py:285-309 | A row claimed by one fully tagged entity is claimed by another exactly when owner and service agree up to case. |
| Focus.SharedRowIff | engine/src/repave_engine/cost_actuals_focus.py:285-309 | For two different tag keys, some row counts towards both entities if and only if neither is untagged and they cannot be told apart: one names no owner, or the owners agree up to case and not both are fully tagged with different services. |
| Focus.TotalsAddUp | engine/src/repave_engine/cost_actuals_focus.py:322-351 | For entities no two of which can claim one row, the totals add up to the cost of all claimed rows, each counted once, whatever the export holds and whichever tag keys are configured. |
| Focus.TotalsAddUpIff | engine/src/repave_engine/cost_actuals_focus.py:322-351 | For two different tag keys, the totals of a list of entities add up for every export if and only if its entities are pairwise apart in that sense. |
| Focus.PartialEntitiesDoubleBill | engine/src/repave_engine/cost_actuals_focus.py:304-308 | An instance: an entity without a service name also claims what its owner's services claim. |
| Snapshots.ReadEntityCostSnapshots | engine/src/repave_engine/cost_snapshot_store.py:101-156 | Reading backwards with an early exit returns exactly the last matches of the scan window, oldest first. |
| Snapshots.LatestEntityCostSnapshot | engine/src/repave_engine/cost_snapshot_store.py:159-171 | The reader at limit one returns the last match of the window. |
| Snapshots.LineIsRead | engine/src/repave_engine/cost_snapshot_store.py:60-70 | A line is a snapshot exactly if it is an object with an id and an amount, and its currency defaults to US dollars. |
| Snapshots.ReadLatestCostSnapshots | engine/src/repave_engine/cost_snapshot_store.py:198-220 | The forward reader agrees with it for every entity. |
| Snapshots.SnapshotFile.CaptureCostSnapshots | engine/src/repave_engine/cost_snapshot_store.py:223-256 | A capture only appends, counts what it appends, and leaves the log its specification says. |
| Snapshots.CaptureWritesIff | engine/src/repave_engine/cost_snapshot_store.py:48-59 | A capture appends what it was given for an entity unless the id is blank or the snapshot shown for it is of the same day, amount and currency; days are compared as dates, or by ten characters if not both are dates. |
| Snapshots.CaptureBringsUpToDate | engine/src/repave_engine/cost_snapshot_store.py:223-256 | After a capture the latest snapshot of every captured entity is of that day and says the captured amount and currency. |
| Snapshots.SecondCaptureWritesNothing | engine/src/repave_engine/cost_snapshot_store.py:223-256 | Repeating a capture writes nothing if and only if every entity still has a line in the scan window, as it does while the log is no longer than the window. |
| Snapshots.TooManyEntities | engine/src/repave_engine/cost_snapshot_store.py:18 | With more entities than scanned lines a repeated capture always writes again. |
| SplitDiff.BuildSplitRows | engine/src/repave_engine/diff_view.py:102-133 | The loops return the rows of all opcodes in order, with changed lines paired by position. |
| SplitDiff.SplitLosesNoLine | engine/src/repave_engine/diff_view.py:102-133 | For opcodes that tile both versions the non-empty cells of each side are its non-empty lines in order, and every row's kind fits its sides. |
| SplitDiff.EveryLineStands | engine/src/repave_engine/diff_view.py:102-133 | The rows of an opcode follow those before it, as many as its longer side has lines, with the lines of both sides next to each other in order and the kind that the opcode and the empty cells give. |
| SplitDiff.ClassifyIff | engine/src/repave_engine/diff_view.py:26-35 | What the first characters of a patch line make of it: file headers start like added or removed lines and are none. |
| SplitDiff.ParseUnifiedPatch | engine/src/repave_engine/diff_view.py:38-61 | Each parsed line gives its patch line back and carries the next number on each side it belongs to. |
| SplitDiff.NumbersRunOn | engine/src/repave_engine/diff_view.py:38-61 | Old and new numbers read 1, 2, 3, ... without gaps. |
| SplitDiff.SidesAreReadBack | engine/src/repave_engine/diff_view.py:26-61 | The old and new side of a hunk are the numbered texts in order if and only if no removed line starts with two dashes and no added one with two pluses. |
| VersionLock.RewriteLock | scripts/sync_versions_lock.py:32-53 | The loop rewrites line by line and exits at the first invalid image pin. |
| VersionLock.SemverIsSafe | scripts/sync_versions_lock.py:21 | A version that passes the semver check holds no colon, quote or line break. |
| VersionLock.PinRewrites | scripts/sync_versions_lock.py:37-50 | A rewritten pin reads back with its key, image and version, and rewriting it again forgets the old version. |
| VersionLock.OtherLinesStay | scripts/sync_versions_lock.py:37-52 | A line that opens with none of the six keys is kept. |
| VersionLock.ImagePinIff | scripts/sync_versions_lock.py:43-50 | An image pin, with any space and quotes around its value, keeps what stands before its last colon and takes the version behind it, and is invalid exactly if nothing stands before. |
| VersionLock.GluedPin | scripts/sync_versions_lock.py:37-50 | A pin with text glued behind it loses that text when rewritten, or takes its old version into the image name. |
| LockRewriting.RewrittenIsWritten | scripts/sync_versions_lock.py:32-53 | Rewriting fails exactly on an invalid image pin, whatever the version. |
| LockRewriting.WithoutPinsUnchanged | scripts/sync_versions_lock.py:52 | A lock without pins is returned unchanged. |
| LockRewriting.Twice | scripts/sync_versions_lock.py:32-53 | Line by line: rewriting twice gives what rewriting once gives where no line joins a pin; elsewhere it keeps the old version somewhere or comes out shorter. |
| LockRewriting.AbsorbsIff | scripts/sync_versions_lock.py:32-53 | Rewriting to one version and then another is rewriting to the other, for all versions that pass the semver check, if and only if some image pin is invalid or every pinned line before the last ends in a newline or is followed by a bare one. The same condition decides it for all versions without colon, quote or line break. |
| LockRewriting.RewritingRepins | scripts/sync_versions_lock.py:32-53 | The rewritten file has as many lines if and only if every pinned line before the last ends in a newline; then lines without a pin are untouched, and each pin keeps its key and image and says the new version. |
| LockRewriting.FormFeedsJoinLines | scripts/sync_versions_lock.py:34-36 | For every target version there is a semver to come from at which a form feed behind a pin breaks absorption. |
| CostEstimate.ResourceCostOf | engine/src/repave_engine/cost_estimate.py:208-218 | An addressed resource costs the sum of its own price and the prices of its subresources, and anything else costs nothing. |
| CostEstimate.ParseResourceCosts | engine/src/repave_engine/cost_estimate.py:175-205 | The map has exactly the addresses that some resource of some project names, each with the sum of all prices billed to it, in the currency of the breakdown or US dollars. |
| CostEstimate.TotalMonthlyCost | engine/src/repave_engine/cost_estimate.py:231-243 | The total counts the priced addresses, and the unpriced ones are returned in order. |
| CostEstimate.PricedAndUnpriced | engine/src/repave_engine/cost_estimate.py:231-243 | Priced and unpriced addresses partition any list. |
| CostEstimate.TotalsConcatenate | engine/src/repave_engine/cost_estimate.py:231-243 | Totals and unpriced addresses of two lists add up under concatenation. |
| CostEstimate.CostIsConserved | engine/src/repave_engine/cost_estimate.py:175-243 | Totalling over every key once gives the sum of every price in the breakdown that stands for an addressed resource or one of its subresources, and leaves nothing unpriced. |

## Left out

- Text.NormTwice: covers the ASCII letters, as `Text.Lower` does; Python's `lower()` also maps others. `casefold()` is a parameter known only to keep non-empty texts non-empty.
- Histories.TtlSafety: a run is atomic with respect to vends and happens at one instant. A vend between the snapshot and an append of the same run is outside every modelled history (`InterleavedVendIsLost` says what it would do).
- Convergence.ConvergesIffNothingStuck: the two runs use one instant, one configuration without explicit review classes, and no name or kind filter.
- Quiescence.SecondRunIsSilent: one direction; a run that skipped something may also happen to leave nothing to write.
- Timestamps are integer seconds and ISO text is taken to print and parse back; the fallback key `vended_at` of component events and local-zone stamps without offset are not modelled.
- JSON text, file locking, unreadable files and the size warning: the log is a sequence of typed payloads, so neither unparseable lines, which both readers skip, nor pull request numbers that are no integers occur.
- The calendar date of a snapshot timestamp is a parameter: the date as written, in the zone it is written in, which is what the code compares.
- Repository addresses are compared as stripped texts, with one counter of pull request numbers each; parsing GitHub URLs is folded into the unknown merge state.
- Branch names come from a function of the resource name; the slug rules behind it, and those for environment entity ids, are left out.
- Pull request titles, bodies, labels, drafts as host state, and all result detail texts.
- Failures are enumerated per record: a hidden merge state, a failed clone, an empty commit, an error before or after the pull request is opened, and a missing number. Failures while vending are left out.
- The order in which `dict` and `frozenset` are iterated is a parameter only where it can matter (templates, tags).
- `map_member_inputs` and `build_bundle_context`: rendering field by field and adding five fixed keys.
- SQL branches of the snapshot store, full-text ranking, sparklines, and the `.2f` formatting of amounts, which are exact reals here.
- `difflib` itself: its opcodes are any that tile both inputs as their tags say. HTML rendering of the diffs.
- LockRewriting.AbsorbsIff: `IsSemver` has ASCII digits, while the script's pattern also admits other decimal digits. Those versions lie between the two classes for which the condition is proved.
- Focus.TotalsAddUpIff: the two tag keys are non-empty and different, as in the default settings. `TotalsAddUp` needs neither.
- Reading the engine version and the file handling around the lock rewriter.
- HTTP routes, pages, sessions, catalog loading, workflow rendering and the command line.
