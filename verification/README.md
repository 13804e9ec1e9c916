# Verified models of the rules_python tooling cores

These Dafny modules model nine stateful or transforming cores of rules_python's
tooling and prove what each promises over all inputs, runs or interleavings.
`dafny verify dfyconfig.toml` checks everything. Where the source updates fields or
fills collections step by step, a class or a method with loops does the same and is
proved against a specification function; the lemmas beside it prove what the source
promises about that function.

- **Release protocol.** `Checklist` and `IssueBody` are the tracking issue's
  printer, parser and in-place editors, `IssueInserts` and `IssueAdds` what inserting
  tasks and `--add` leave in it. `ReleaseSteps` gives every command as a
  function from the remote's state to the next state and exit code, over the commit
  graph of `GitGraph`. `ReleaseTool` holds the commands as methods that change the
  remote in place. `ReleaseNames`, `ReleaseIssueSafety`, `ReleaseSafety`,
  `ReleaseBackportSafety` and `ReleaseRuns` prove the invariant command by command,
  `ReleaseProtocol` over every run. What the commands do is told without them:
  `ReleasePicks` says which cherry-picks reach the remote, `ReleaseNotes` and
  `ReleaseChecklist` what each backport is listed as afterwards, `ReleaseDryRun` what a
  dry run tells, `ReleaseGate` and `ReleaseCut` exactly when candidates, branches and
  versions are made, `ReleaseReady` and `ReleaseSuccess` exactly when the whole of
  create-rc succeeds, and `ReleaseResults` what exit codes mean.
- **DirectorySyncer.** `SyncFiles` is the file system, `SyncProtocol` the step
  relation of the caller and the pool threads. `SyncSafety` proves counting, waiting,
  termination and absence of deadlock, `SyncErrors` how many failures can be missed;
  `SyncResult`, `SyncCopytree`, `SyncMirror` and `SyncLeftovers` prove what is on disk
  afterwards. `DirectorySyncer` is the class. `WorkerDigests` is the worker around it,
  `WorkerRequests` one of its requests on disk, and `WorkerRuns` what any number of them
  leave there. `SyncTurns` and `WorkerLosses` build the runs that show the bounds sharp.
- **Module map.** `ModuleMap` is the simplification of the modules mapping;
  `Resolver` is how imports are resolved over it, `Resolution` what an import resolves
  to and when it fails.
- **Type-checking imports.** `TypeChecking` is the tree walk, `RelativeImports` what
  relative imports ask for, `PythonImports` what they mean to Python, `Dependencies` the
  merge stages down to `deps` and `pyi_deps`, and `SiblingOrder` and `EveryOrder` when
  the order of files decides them.
- **Documentation index.** `BzlIndex` holds the four dictionaries, `BzlCoherence` what
  every sequence of operations keeps, `BzlRegistry` their agreement with the plain set
  of registered objects, `BzlReferences` which references find an object.
- **Changelog.** `Changelog` renders, parses and merges the categories of a section as
  text, `Template` is what `re.sub` makes of a replacement, and `ChangelogFile` is the
  whole file. `ChangelogReading` proves what rendered text is read back as,
  `ChangelogSections` where sections end, `ChangelogMerge` what any number of merges
  gives, `ChangelogLayout` the order and the text of its parts, `ChangelogOrder` the
  order of versions, and `ChangelogHazards` which entries break the file.
- **Runfiles.** `Runfiles` loads manifests and looks paths up; `RunfilesLookup` says what
  is found and what is refused.
- **Typedef fences.** `Typedefs` renders a module's typedefs as nested fences,
  `TypedefNames` says which directives are written.
- **Manifest sorter.** `ManifestSorter` is the stable block sort, `ManifestLines` what
  it takes lines for.

`Text`, `Decimal`, `Sorting` and `Selection` are shared vocabulary.

Some promises hold only under a condition, or not at all; the condition is then part of
the model:

- Simplification preserves lookup exactly when no wheel name is empty
  (`ModuleMap.SimplifyPreservesLookup`), and resolution over any chain of manifests
  agrees exactly when the name it ends at gives the same (`Resolver.ImportAlikeIff`),
  as it does where nothing else claims the names on the way
  (`Resolver.ApartResolvesAlike`); with two manifests it can differ
  (`Resolver.TwoManifestsDiffer`).
- Clearing a document is complete exactly when each of its objects is the document's
  entry under its own base name (`BzlCoherence.ClearIsCompleteIff`). An object that has
  lost that entry to a twin is missed by every clear (`BzlCoherence.MissedStays`).
- Reading a changelog section back needs entries without anchors of the version inside
  (`ChangelogReading.GroupReadIff`), without lines that start with a version's anchor
  (`ChangelogSections.SectionEndIff`) and, for a merge, without escapes
  (`Template.LiteralIff`). `ChangelogHazards` has an entry that breaks each condition.
- `RlocationChecked` ends exactly without a leading slash, or when something on the way
  is listed (`Runfiles.LookupEndsIff`).
- A failed copy can go unreported (`SyncSafety.FailureCanBeMissed`), but at most one per
  thread (`SyncErrors.MissedAreBounded`), which can happen (`SyncTurns.AllCanBeMissed`).
- A file is mirrored exactly when no folder was left at its path
  (`SyncLeftovers.EntryMirroredIff`), which an earlier request can do
  (`SyncLeftovers.LeftoverSwallows`).
- The worker reports exactly what is copied when the last sync returned, or raised over
  the digests of the last that did (`WorkerDigests.RequestsReportIff`).
- A raised request can make a file go missing unnoticed: by the wipe that follows,
  exactly when that request had no digests and something else is to be copied
  (`WorkerRuns.LostByWipeIff`, `WorkerRuns.FileIsLost`), or half-written
  (`WorkerRuns.FileIsTorn`). Over paths kept apart, and as long as no returned sync has
  missed a failure, the files listed alike since they were copied are safe, and no others
  (`WorkerRuns.SureIsMirrored`, `WorkerLosses.SureIffMirrored`).
- A failed cherry-pick reaches the remote exactly when it or a later one is pushed
  (`ReleasePicks.FailedPickIsPushed`), and ignored backports are picked
  (`ReleasePicks.IgnoredIsPicked`). Of several backports with one commit only the last is
  noted (`ReleaseChecklist.BackportNoted`).
- create-rc succeeds exactly when its picks do, every backport they leave alone is done or
  ignored, and the tasks around it are as they should be
  (`ReleaseSuccess.CreateRcSucceedsIff`).
- With sibling resolution the order of files can decide the dependencies
  (`SiblingOrder.SiblingOrderMatters`): two orders agree exactly when what they merge
  asks for the same names (`SiblingOrder.OrderIsIrrelevantIff`), and all orders agree
  exactly when no import decides alone what is asked for (`EveryOrder.EveryOrderIff`).
- A relative import that Python accepts asks for the file that Python reads exactly when
  the project is the whole repository (`PythonImports.RelativeReachesIff`); in a project
  below it the file is missed (`PythonImports.BelowProjectRoot`), and some imports that
  Python refuses are looked for (`PythonImports.PastTheTop`).
- `deps` and `pyi_deps` overlap exactly when a pre-resolved label is asked for on behalf
  of type checkers only (`Dependencies.ResolvedDepsMayOverlap`).
- Fences are balanced exactly when only functions are named like typedef placeholders and
  every object fits the typedefs around it (`Typedefs.RenderedIsNested`,
  `Typedefs.TowerIsNestedIff`).

## Model

| member | source | states |
|---|---|---|
| Checklist.RoundTrip | tools/private/release/release_issue.py:135-174 | Printing a task line and parsing it again is the identity exactly when the name is trimmed, free of vertical bars and not empty and the metadata has word keys and non-blank, whitespace-free values: an if-and-only-if over every name and every metadata list, the `commit= ` form included |
| Checklist.FormattedName | tools/private/release/release_issue.py:135-174 | Whatever its metadata, a printed line with a good name parses to that name and box, with the pairs the parser can find in the printed tail |
| Checklist.ParsedIsGood | tools/private/release/release_issue.py:135-155 | Everything the parser returns can be printed and read back: the name is trimmed and free of vertical bars, the metadata good |
| Checklist.GetIs | tools/private/release/release_issue.py:143-147 | Of several pairs with one key the last one counts |
| Checklist.MetadataIsLast | tools/private/release/release_issue.py:135-174 | A blank-free name with vertical bars in it is cut when read back, but the metadata printed after it still comes last, so that a line noted as an error stays one |
| Checklist.UpdateTaskInBody | tools/private/release/release_issue.py:177-197 | The line loop computes the update the three lemmas below are about, and fails exactly when no line names the task |
| Checklist.UpdateSetsExactly | tools/private/release/release_issue.py:177-197 | An update makes every line that names the task (ignoring case) parse to exactly the new box, name and metadata, and leaves the parse of every other line as it was |
| Checklist.UpdatesCommute | tools/private/release/release_issue.py:177-197 | Updates of two tasks whose names differ beyond letter case commute, the missing-task error included |
| Checklist.UpdateOverrides | tools/private/release/release_issue.py:177-197 | A later update of the same task overrides the earlier one and cannot fail after it |
| IssueBody.ParseChecklistState | tools/private/release/release_issue.py:200-280 | The state holds, for each kind of task and each RC and PR number, the last line of the body of that kind |
| IssueBody.ParseBackports | tools/private/release/release_issue.py:283-313 | The line loop returns the items of the backports section, in order |
| IssueBody.SectionExtent | tools/private/release/release_issue.py:283-313 | The section begins after its heading, holds no section break after its first line and ends at a break or at the end of the body |
| IssueBody.AddRcTaskToBody | tools/private/release/release_issue.py:379-405 | The method computes the body that `IssueInserts.AddRcTaskInserts` describes, its error included |
| IssueBody.RcNameIsGood | tools/private/release/release_issue.py:385-390 | The name written for candidate n is printable and is recognised as candidate n, never as a backport |
| IssueInserts.KindIs | tools/private/release/release_issue.py:214-278 | Which task a name stands for: the three fixed tasks by a part of the name, in this order, then `Tag RC` or `Sync Changelog #` in any letter case with the whole numeral behind it |
| IssueInserts.AddRcTaskInserts | tools/private/release/release_issue.py:379-405 | Succeeds if and only if a candidate is listed or the final task is first named below the first line; then the result is the text with one more line, an unchecked task of candidate n, right behind the last candidate or in front of the final task; no other line is touched and the listed backports stay, unless the place is between the section heading and a break right below it |
| IssueInserts.AddSyncTaskInserts | tools/private/release/release_issue.py:408-452 | Nothing changes when the sync task is listed; otherwise the same holds of its line, whose place is behind the last sync task, else in front of the final task, else behind the branching task |
| IssueBody.AddedRcTaskFound | tools/private/release/release_issue.py:379-405 | Once the RC task has been inserted, marking it done cannot fail |
| IssueBody.AddSyncTaskToBody | tools/private/release/release_issue.py:408-452 | The method computes the body that `IssueInserts.AddSyncTaskInserts` describes, its error included |
| IssueBody.AddBackportsToBody | tools/private/release/release_issue.py:316-376 | The filter, placeholder and insertion loops compute the specification that `AddBackportsAppends` is about |
| IssueBody.AddBackportsAppends | tools/private/release/release_issue.py:316-376 | Parsing the rewritten body gives the old backports, unchanged and in order, followed by those of the new lines; none is lost, moved or altered |
| IssueAdds.UnlistedAre | tools/private/release/release_issue.py:343-361 | The new items are exactly the first one of each reference that is not listed, in the order given, with that one's metadata |
| IssueAdds.NumbersAdded | tools/private/release/process_backports.py:254-279 | Adding pull requests lists each number that is not listed yet once, unchecked and without metadata, in the order given and behind the old ones |
| IssueAdds.AddBackportsKeeps | tools/private/release/release_issue.py:316-376 | Outside the section no line changes; inside it every line but empty ones and placeholders stays, in order, and the new lines follow |
| IssueAdds.AddAllIs | tools/private/release/process_backports.py:254-303 | What `--add` leaves: the old backports and the new ones behind them, the sync task of every added pull request, and an open candidate, the one there is or else exactly one more, with the number after the highest listed |
| IssueAdds.AddAllWorks | tools/private/release/process_backports.py:280-303 | It cannot fail on an issue that has a backports section and lists its final task above it, below another line |
| IssueBody.ItemLinesListed | tools/private/release/release_issue.py:355-376 | The new lines list each valid reference once, unchecked, with its own metadata |
| ReleaseNames.VersionTextInjective | tools/private/release/utils.py:17-37 | Two valid versions with the same text are the same version, so no two versions share a tag |
| ReleaseNames.RcTagUnique | tools/private/release/utils.py:91-104 | A candidate tag names one version and one number |
| ReleaseNames.FinalIsNotRc | tools/private/release/utils.py:91-104 | A final tag is never taken for a candidate |
| ReleaseNames.FirstReleasePatch | tools/private/release/promote.py:61 | The `.0` suffix test singles out exactly the versions whose patch component is 0 |
| ReleaseNames.NextRcIsAbove | tools/private/release/create_rc.py:112-123 | Every existing candidate number is below the one the next candidate gets |
| ReleaseNames.NextRcIs | tools/private/release/create_rc.py:112-123 | That number is 0 without a candidate and otherwise one more than the highest: an if-and-only-if over every set of tags |
| ReleaseNames.TitleVersionIsValid | tools/private/release/create_rc.py:101-110 | Any version found in an issue title is a valid one |
| ReleaseNames.TitleIsRead | tools/private/release/create_rc.py:101-110 | A title `Release X.Y.Z`, whatever follows, is read as that version |
| GitGraph.AncestorTransitive | tools/private/release/create_release_branch.py:59-84 | Ancestry composes, over any commit graph |
| GitGraph.PicksAccumulate | tools/private/release/process_backports.py:107-153 | A cherry-pick in the history of a commit is in the history of every descendant |
| ReleaseSafety.PushReleaseOk | tools/private/release/create_release_branch.py:59-84 | Pushing the prepared commit creates the branch or moves it to a descendant, moves no tag, and keeps the invariant |
| ReleaseSafety.CreateBranchOk | tools/private/release/create_release_branch.py:21-103 | create-release-branch keeps the invariant, whatever it exits with, also when the branch is pushed and the issue cannot be saved |
| ReleaseBackportSafety.PickOneOk | tools/private/release/process_backports.py:107-218 | One turn of the pick loop, with any of its four outcomes, keeps: the remote branch moves only forward, and a backport marked done is in its history |
| ReleaseBackportSafety.PickAllOk | tools/private/release/process_backports.py:107-218 | So does the whole loop, even when failed picks leave commits on the local branch |
| ReleaseBackportSafety.RunPicksOk | tools/private/release/process_backports.py:319-419 | Triage and picking keep the invariant and touch only the branch and the issue |
| ReleaseBackportSafety.ProcessBackportsOk | tools/private/release/process_backports.py:249-419 | process-backports, with any `--add` list and any answers of GitHub and git, keeps the invariant |
| ReleaseBackportSafety.DryRunChangesNothing | tools/private/release/process_backports.py:249-419 | A dry run leaves branches, tags and issues exactly as they were |
| ReleaseRuns.NextTagIsNew | tools/private/release/create_rc.py:112-123 | The tag of the next candidate does not exist yet, for any set of tags |
| ReleaseRuns.CandidateTagged | tools/private/release/create_rc.py:140-145 | Tagging the branch head as the next candidate keeps candidates numbered 0, 1, 2, ... along the branch |
| ReleaseRuns.FinalTagged | tools/private/release/promote.py:75-175 | A final tag at the branch head keeps the invariant, for a first release only when the highest candidate is there too |
| ReleaseRuns.CreateRcOk | tools/private/release/create_rc.py:54-178 | create-rc keeps the invariant, moves branch heads only forward and moves no tag, whether it succeeds or fails, and also when the tag is pushed and the issue cannot be saved |
| ReleaseRuns.HeadHoldsBackports | tools/private/release/process_backports.py:135-153 | In a state that satisfies the invariant the branch head contains the pick of every backport the issue marks done |
| ReleaseRuns.NewCandidateHoldsBackports | tools/private/release/create_rc.py:59-156 | A tag that create-rc adds has the next number, is at the branch head, and contains every listed backport that is not ignored |
| ReleaseRuns.PromoteOk | tools/private/release/promote.py:30-207 | promote keeps the invariant in every case, the one where the tag is pushed and the issue cannot be saved included |
| ReleaseRuns.PromoteTagsIff | tools/private/release/promote.py:30-207 | promote moves no branch and tags exactly when every check has passed and it is no dry run, even if the issue cannot be saved afterwards; the exit code is 0 exactly when the checks passed and the save did not fail |
| ReleaseRuns.PromotedIsHead | tools/private/release/promote.py:56-180 | Whatever promote exits with, a version it tags is at its branch head, which contains every backport any issue of that branch marks done; a first release is also its highest candidate |
| ReleaseProtocol.StepOk | tools/private/release/create_rc.py:32-178 | Every command, in any order and with any outcome, keeps the invariant, moves branches only to descendants and moves no tag |
| ReleaseProtocol.RunKeepsInvariant | tools/private/release/create_rc.py:32-178 | So does every run of commands of any length |
| ReleaseProtocol.RunsAreSafe | tools/private/release/create_rc.py:112-156 | In every run from a state without tags: between any two moments branch heads move only to descendants and tags stay; at every moment the candidates of a version are exactly rc0..rc(k-1), each at an ancestor of the next and of the branch head; a final `.0` tag is at its highest candidate |
| ReleaseProtocol.CandidatesHoldBackports | tools/private/release/create_rc.py:59-99 | In every run a candidate contains, when tagged, every listed backport that is not ignored |
| ReleaseProtocol.PromotionsHoldBackports | tools/private/release/promote.py:56-138 | In every run a promoted version is at the branch head and contains every backport then marked done; a `.0` version is the highest candidate |
| ReleasePicks.PicksLand | tools/private/release/process_backports.py:94-222 | For every list of picks and every mix of outcomes: the failed ones are counted, and the remote branch gains exactly the commits that land, a committed but unpushed one landing when a later pick is pushed |
| ReleasePicks.FailedPickIsPushed | tools/private/release/process_backports.py:107-187 | A pick that counts as failed is on the remote branch if and only if its error came after its own push, or between commit and push with some later pick pushed |
| ReleasePicks.PickOrderIs | tools/private/release/process_backports.py:319-419 | The commits to pick are exactly those that an unchecked listed backport, not in error, resolves to: `ignore` is no error |
| ReleasePicks.InOrderAre | tools/private/release/git.py:270-290 | The commits are picked in the order of the log: they are what stands at the places of the log that are asked for |
| ReleasePicks.PendingAre | tools/private/release/process_backports.py:321-325 | The pending backports are exactly the unchecked ones whose status is no error, in the order listed |
| ReleasePicks.BackportIsPickedIff | tools/private/release/process_backports.py:249-419 | After process-backports the branch holds the pick of a commit if and only if it did before, or the picks were reached and the commit is one of those that land; no other branch has moved |
| ReleasePicks.IgnoredIsPicked | tools/private/release/process_backports.py:321-325 | An unchecked ignored backport counts as settled for the RC gate, and the branch holds its cherry-pick after process-backports whenever its merged pull request's pick is pushed |
| ReleaseNotes.ChecklistIsEdited | tools/private/release/process_backports.py:249-419 | After any run the stored issue is the old one with the edits made up to the last that could be saved, line by line: a line that an edit names says what the last such edit wrote, every other line is unchanged, and only empty lines may go at the end; the exit code is 0 if and only if the run was not stopped before its picks and all edits check a backport off |
| ReleaseChecklist.ResolveIs | tools/private/release/process_backports.py:48-92 | A backport asks for its pull request's merge commit, or without one for the commit noted on its line; otherwise it waits for an open or draft pull request, or fails with the status written out for each answer |
| ReleaseChecklist.BackportNoted | tools/private/release/process_backports.py:48-222 | Of pending backports with names apart: one whose pick is pushed is listed as exactly checked, done, with the next candidate and the short commit; one whose pick fails as unchecked with `error-merge-conflict`; one whose lookup fails as unchecked with its own status; one that waits, is not reached, or shares its commit with a later one is unchanged, and so may be one whose own update cannot be saved |
| ReleaseChecklist.OtherLinesStay | tools/private/release/process_backports.py:249-419 | Every other line is unchanged, but for empty lines at the end |
| ReleaseChecklist.ExitIsZeroIff | tools/private/release/process_backports.py:339-419 | process-backports exits with 0 if and only if the picks are reached or no backport gives a commit, and every pending backport is checked off or left as it was |
| ReleaseDryRun.DryRunExits | tools/private/release/process_backports.py:249-419 | A dry run exits with 0 if and only if no lookup fails and either no backport gives a commit or the picks are reached and none of them goes wrong before its push |
| ReleaseResults.ZeroMeansPicked | tools/private/release/process_backports.py:319-419 | Exit code 0 means that each pending backport either waits for its pull request or is on the branch by then |
| ReleaseResults.TaggedBeforeNoted | tools/private/release/create_rc.py:140-156 | After the checks the tag is pushed whatever happens to the checklist; the exit code is 0 exactly when the checklist lists the task and can be saved |
| ReleaseResults.ZeroMeansTagged | tools/private/release/create_rc.py:54-178 | Exit code 0 of the whole command means exactly one new tag, the next candidate, at the release branch's head after the picks; that head descends from the old one, no other branch moved, and every pending backport waits for its pull request or is in the candidate |
| ReleaseResults.ZeroMeansGated | tools/private/release/create_rc.py:101-156 | The part after the picks exits with 0 only when every listed backport is settled, and then has added exactly that tag |
| ReleaseGate.GateTagsIff | tools/private/release/create_rc.py:68-156 | A candidate is tagged, at the branch head and under the next number, if and only if the preparing and branching tasks are done, every listed backport is done or ignored, the title has a version, the branch exists, and the candidate's task is listed and open or can be added and saved; the exit code is 0 exactly when that task can then be closed and saved too |
| ReleaseGate.GateLeaves | tools/private/release/create_rc.py:125-156 | The issue is unchanged unless every check passes; then it lists the candidate's task, and after a success that task is checked, with tag and commit, and no other line has changed |
| ReleaseSuccess.CreateRcTagsIff | tools/private/release/create_rc.py:54-156 | create-rc tags if and only if the backports it starts with exit with 0 and those checks pass on the issue that they leave |
| ReleaseReady.BackportsEdited | tools/private/release/process_backports.py:249-419 | Editing backports changes what the section lists exactly by those edits: none is lost, added or moved, unless a line is a heading and names one at once |
| ReleaseSuccess.CreateRcSucceedsIff | tools/private/release/create_rc.py:54-156 | From the issue, the pull requests and the outcomes of the picks alone: create-rc exits with 0 if and only if the picks succeed, every listed backport is checked off by them or is done or ignored already, both earlier tasks are done, the branch exists, the candidate's task is open or can be added, and it can be closed |
| ReleaseResults.ZeroMeansCut | tools/private/release/create_release_branch.py:21-103 | Exit code 0 on an unchecked task means the branch is at the prepared commit, a descendant of its old head, and nothing else moved |
| ReleaseCut.CutStops | tools/private/release/create_release_branch.py:21-52 | create-release-branch refuses without a prepared commit and has nothing to do when its task is checked |
| ReleaseCut.CutsIff | tools/private/release/create_release_branch.py:44-103 | Otherwise the branch is created at the prepared commit or moved forward to it if and only if the title has a version and that is possible; the task is then closed with branch and commit, and the exit code is 0, exactly when it is listed and can be saved; nothing happens in any other case |
| ReleaseCut.PromoteLeaves | tools/private/release/promote.py:75-175 | What promote leaves in the issue: the final task closed with tag and commit where it tags, in error with both commits where the highest candidate is not the branch head, and every line as it was otherwise, in a dry run and where saving fails |
| ReleaseTool.Remote.GetLatestRcTag | tools/private/release/utils.py:91-104 | The filter-and-sort loop returns the last of the highest-numbered candidates in listing order |
| ReleaseTool.Remote.RunCreateReleaseBranch | tools/private/release/create_release_branch.py:21-103 | The in-place command reaches exactly the state and exit code that `ReleaseCut.CutStops` and `ReleaseCut.CutsIff` describe |
| ReleaseTool.Remote.ProcessPrCommitInfos | tools/private/release/process_backports.py:48-92 | The loop over pull request states collects the same commits and saves the same notes as the specification |
| ReleaseTool.Remote.CherryPick | tools/private/release/process_backports.py:107-218 | One turn of the loop, with its `try` part and its handler, moves the branch and notes its outcome as the specification does, of which `ReleasePicks.PicksLand` and `ReleaseNotes.ChecklistIsEdited` say what is pushed and what the issue then lists |
| ReleaseTool.Remote.CherryPickAndUpdatePrs | tools/private/release/process_backports.py:94-222 | The loop that picks, pushes and notes refines the fold of single picks, with the same count of failures; `ReleaseChecklist.BackportNoted` says what it leaves each backport listed as |
| ReleaseTool.Remote.AddBackportsAndTasks | tools/private/release/process_backports.py:254-303 | The `--add` part computes the body that `IssueAdds.AddAllIs` and `IssueAdds.AddAllWorks` describe, or fails as the specification does |
| ReleaseTool.Remote.RunProcessBackports | tools/private/release/process_backports.py:249-419 | The in-place command reaches the state and exit code of the specification: the branch of `ReleasePicks.BackportIsPickedIff`, the issue of `ReleaseChecklist.BackportNoted` and `ReleaseChecklist.OtherLinesStay`, the code of `ReleaseChecklist.ExitIsZeroIff`, and of `ReleaseDryRun.DryRunExits` in a dry run |
| ReleaseTool.Remote.RunCreateRc | tools/private/release/create_rc.py:32-178 | The in-place command reaches the state and exit code of the specification: it tags exactly as `ReleaseSuccess.CreateRcTagsIff` says and succeeds exactly as `ReleaseSuccess.CreateRcSucceedsIff` says |
| ReleaseTool.Remote.RunPromote | tools/private/release/promote.py:30-207 | The in-place command reaches the state and exit code that `ReleaseRuns.PromoteTagsIff` and `ReleaseCut.PromoteLeaves` describe |
| SyncSafety.StepOk | sphinxdocs/sphinxdocs/private/sphinx_build.py:116-145 | Every step of the caller or of a pool thread keeps the invariant: the counter equals the number of submitted tasks not yet past `_task_finished`, tasks spawn only their own children, a waiter at zero is awake |
| SyncSafety.RunsKeepInvariant | sphinxdocs/sphinxdocs/private/sphinx_build.py:116-145 | So does every interleaving, of any length and with any failures, each step using up some of the measure |
| SyncSafety.StepsBoundedByTree | sphinxdocs/sphinxdocs/private/sphinx_build.py:158-240 | Every interleaving ends within 7 steps per file and folder plus 4 |
| SyncSafety.SomeThreadMoves | sphinxdocs/sphinxdocs/private/sphinx_build.py:121-145 | No deadlock: in every reachable unfinished state some thread can move, so the caller never sleeps at zero |
| SyncSafety.PassedAfterWholeTree | sphinxdocs/sphinxdocs/private/sphinx_build.py:121-145 | `_wait_for_completion` passes only after every task has done its work; without failures each task of the recursively spawned tree ran exactly once |
| SyncSafety.RaisesIffRecorded | sphinxdocs/sphinxdocs/private/sphinx_build.py:135-145 | The final check raises exactly when some failure has been recorded by then |
| SyncSafety.RaisedMeansFailed | sphinxdocs/sphinxdocs/private/sphinx_build.py:135-145 | An error is never invented |
| SyncSafety.FailureCanBeMissed | sphinxdocs/sphinxdocs/private/sphinx_build.py:133-145 | A run for every task in which it fails and the call nevertheless returns normally, since the counter drops before the error is recorded |
| SyncErrors.MissedAreBounded | sphinxdocs/sphinxdocs/private/sphinx_build.py:121-156 | Over every program and interleaving, a call that returns has missed at most as many failures as the pool has threads |
| SyncTurns.AllCanBeMissed | sphinxdocs/sphinxdocs/private/sphinx_build.py:121-156 | The bound is reached: for any tasks, with as many threads, there is a run in which every one of them fails and the call returns normally |
| SyncTurns.TurnsEnd | sphinxdocs/sphinxdocs/private/sphinx_build.py:121-156 | Any tasks that can be done one after the other have a run that does them and returns without a failure, and any tasks that fail one after the other a run that raises |
| SyncErrors.OneWorkerReports | sphinxdocs/sphinxdocs/private/sphinx_build.py:121-156 | With one thread only the last task to begin can have its failure missed: once a task has failed and another begins, the call cannot return normally |
| SyncResult.EveryInterleavingAgrees | sphinxdocs/sphinxdocs/private/sphinx_build.py:166-240 | When no task fails, every interleaving of any compatible set of tasks leaves the one disk those tasks determine |
| SyncCopytree.CopytreeIsSequential | sphinxdocs/sphinxdocs/private/sphinx_build.py:158-164 | Every successful interleaving of `copytree` equals a sequential recursive copy of the source tree |
| SyncMirror.SyncMirrorsEntries | sphinxdocs/sphinxdocs/private/sphinx_build.py:166-198 | A successful sync, in every interleaving, leaves the tracked files of the destination equal to the new entries, provided no tracked path is above another and equal digests mean equal content |
| SyncMirror.RunsMirror | sphinxdocs/sphinxdocs/private/sphinx_build.py:166-198 | So does every sequence of successful syncs: the destination mirrors the last request |
| SyncLeftovers.EntryMirroredIff | sphinxdocs/sphinxdocs/private/sphinx_build.py:166-222 | In every interleaving of a successful sync whose old and new paths are apart, a path to copy is mirrored if and only if no folder was there before the call, and any other entry exactly when it was mirrored before |
| SyncLeftovers.LeftoverSwallows | sphinxdocs/sphinxdocs/private/sphinx_build.py:166-222 | Syncing a/b, then nothing, then a: each request on its own keeps its paths apart, yet the folder left behind swallows the last file as a/a, which is why paths of earlier requests count |
| DirectorySyncer.Syncer.TaskFinished | sphinxdocs/sphinxdocs/private/sphinx_build.py:141-145 | The counter drops by one and the caller is woken exactly when it was asleep and zero is reached |
| DirectorySyncer.Syncer.CallerStep | sphinxdocs/sphinxdocs/private/sphinx_build.py:121-133 | The calling thread's updates of the fields are the step the safety lemmas are about |
| DirectorySyncer.Syncer.FileStep | sphinxdocs/sphinxdocs/private/sphinx_build.py:200-240 | A pool thread's work on the disk is the step the safety lemmas are about |
| DirectorySyncer.Syncer.PoolStep | sphinxdocs/sphinxdocs/private/sphinx_build.py:128-145 | A pool thread's submissions, counting and error recording are the step the safety lemmas are about |
| DirectorySyncer.Syncer.RunSchedule | sphinxdocs/sphinxdocs/private/sphinx_build.py:148-156 | Any schedule of threads is a run of the step relation |
| DirectorySyncer.Syncer.Copytree | sphinxdocs/sphinxdocs/private/sphinx_build.py:158-164 | For every schedule a call that returns without failures has copied the tree exactly |
| DirectorySyncer.Syncer.Plan | sphinxdocs/sphinxdocs/private/sphinx_build.py:166-194 | The loops over old and new digests plan one removal per vanished and one copy per new or changed entry, and nothing else |
| DirectorySyncer.Syncer.Sync | sphinxdocs/sphinxdocs/private/sphinx_build.py:166-198 | For every schedule: the program is the planned one, the recorded digests become the new ones exactly when the call returns, and without failures the destination mirrors them |
| WorkerDigests.Worker.RecordDigests | sphinxdocs/sphinxdocs/private/sphinx_build.py:338-373 | The loop records the digests of the inputs under the source directory, a repeated path keeping its last, and reports exactly the paths some input shows as new or altered |
| WorkerDigests.Worker.PrepareSphinx | sphinxdocs/sphinxdocs/private/sphinx_build.py:338-406 | The whole step on disk: a worker without digests wipes the destination, the sync runs its program over what is left, the last file is opened and written, and whatever raises leaves disk and both records as `Handles` says; the paths reported are exactly those some input shows as new or altered |
| WorkerDigests.ReportsWhatIsCopied | sphinxdocs/sphinxdocs/private/sphinx_build.py:338-396 | Every next request that lists its paths once reports just what it copies if and only if the two records agree |
| WorkerDigests.RequestsReportIff | sphinxdocs/sphinxdocs/private/sphinx_build.py:338-396 | After any sequence of requests every next one that lists its paths once reports just what it copies if and only if the last sync returned, or raised over the very digests of the last that returned |
| WorkerDigests.RaisedIsUnderReported | sphinxdocs/sphinxdocs/private/sphinx_build.py:371-396 | After a sync that raised, every file it still had to copy is copied by the next request with the same inputs and not reported by it |
| WorkerDigests.RepeatIsReported | sphinxdocs/sphinxdocs/private/sphinx_build.py:347-373 | A path listed twice is reported also when only its first digest is new, which its last, the one that counts, overrides |
| WorkerRequests.RequestMirrorsIff | sphinxdocs/sphinxdocs/private/sphinx_build.py:345-406 | After a request whose sync returned without failures a listed file that was to be copied is mirrored if and only if no folder stood in its place, and any other if and only if it was mirrored before and has not been wiped |
| WorkerRequests.WipedGoesThroughIff | sphinxdocs/sphinxdocs/private/sphinx_build.py:384-406 | Such a request goes through on a wiped destination if and only if there is something to copy: otherwise opening its last file raises |
| WorkerRuns.SureIsMirrored | sphinxdocs/sphinxdocs/private/sphinx_build.py:338-406 | After every run of requests over paths kept apart whose returned syncs miss no failure, raised ones included and whatever they did by halves: each file of the last returned request that was copied by a returned one and listed alike ever since is at the destination with its content |
| WorkerRuns.ReturnedRunsMirror | sphinxdocs/sphinxdocs/private/sphinx_build.py:338-406 | Under the same conditions a worker none of whose requests raised mirrors the last one |
| WorkerRuns.LostByWipeIff | sphinxdocs/sphinxdocs/private/sphinx_build.py:345-406 | After every run, a request over paths kept apart whose sync returns without a missed failure starts with a wipe, goes through and yet leaves out a listed file if and only if the request before it had no digests and raised, the last to return lists the file with the same digest, and something else is to be copied |
| WorkerRuns.GoneIsMissing | sphinxdocs/sphinxdocs/private/sphinx_build.py:345-406 | A file so wiped is missing after every later request that lists it with that digest, however many go through |
| WorkerRuns.FileIsLost | sphinxdocs/sphinxdocs/private/sphinx_build.py:345-406 | A run of three requests after which a listed file is absent although the last one went through without a failure |
| WorkerRuns.FileIsTorn | sphinxdocs/sphinxdocs/private/sphinx_build.py:166-240 | A run of three requests after which a half-written copy stands for a listed file although the last one went through without a failure |
| WorkerLosses.SureIffMirrored | sphinxdocs/sphinxdocs/private/sphinx_build.py:338-406 | For any requests over paths kept apart and any ways they can end, raised or returned without a missed failure: a file of the last returned one is at the destination after every such run if and only if it was copied by a returned one and listed alike ever since |
| ModuleMap.Generator.Simplify | gazelle/modules_mapping/generator.py:57-72 | The sorted loop replaces the mapping by the one the four lemmas below are about |
| ModuleMap.Generator.WalkUp | gazelle/modules_mapping/generator.py:61-70 | The inner walk blanks the wheel name exactly when the nearest stored ancestor-or-self carries it |
| ModuleMap.SimplifyPreservesLookup | gazelle/modules_mapping/generator.py:57-72 | Nearest-ancestor lookup of every dotted name is preserved if and only if no wheel name is empty |
| ModuleMap.KeptNames | gazelle/modules_mapping/generator.py:57-72 | The kept names are exactly those whose lookup differs from their parent's |
| ModuleMap.SimplifiedIsSmallest | gazelle/modules_mapping/generator.py:57-72 | Every map with the same lookups contains every kept entry, with its value |
| ModuleMap.SimplifiedIsCanonical | gazelle/modules_mapping/generator.py:57-72 | Two maps have the same lookups exactly when they simplify to the same map |
| ModuleMap.SimplifyIdempotent | gazelle/modules_mapping/generator.py:57-72 | A second run changes nothing, empty wheel names included |
| Resolver.Config.FindThirdPartyDependency | gazelle/pythonconfig/pythonconfig.go:352-379 | The walk up the parents, loading each manifest on first use, finds what the chain's manifests give and leaves every cache true to its file |
| Resolver.ResolveImport | gazelle/python/resolve.go:203-336 | The nested loop for one import computes the candidate walk, errors and labelled exits included; `Resolution.UnresolvedIff`, `Resolution.NoDependencyIff` and `Resolution.ResolvedIff` say when each of its three outcomes arises |
| Resolution.PossibleAre | gazelle/python/resolve.go:216-222 | The modules tried for a name are its dotted prefixes, longest first |
| Resolution.UnresolvedIff | gazelle/python/resolve.go:281-308 | An import is unresolved if and only if none of them settles it and one is unlisted, outside the standard library and validated, or claimed by several rules of which not exactly one is in the project root |
| Resolution.NoDependencyIff | gazelle/python/resolve.go:281-323 | It needs no dependency if and only if none settles it and none is at fault, as with the standard library where validation is off too, or the one that settles it is the importing target itself |
| Resolution.ResolvedIff | gazelle/python/resolve.go:224-336 | It resolves to a label with stubs if and only if the first module that settles it gives them: an override, else the nearest manifest's wheel with exactly the stubs listed under the four stub names, else the rule that claims it |
| Resolver.SimplifiedResolvesAlike | gazelle/python/resolve.go:203-336 | With one manifest and dotless wheel names every import resolves to the same label and stubs under the simplified manifest, provided nothing else claims a name from the deciding one up to the kept one |
| Resolver.ImportAlikeIff | gazelle/python/resolve.go:203-336 | For any import and any number of manifests in the chain: resolution under the simplified manifests agrees if and only if no manifest decides the import, or the first kept or claimed name from the deciding one up gives what the nearest manifest's entry gives |
| Resolver.ApartResolvesAlike | gazelle/python/resolve.go:203-336 | Over any number of manifests an import resolves alike when, from the deciding name up to the entry its own manifest keeps for it, nothing else claims a name: no override, no kept entry of another manifest in front of it, no first-party rule |
| Resolver.OwnEntryGivesSame | gazelle/python/resolve.go:203-336 | Without overrides that condition can fail only by ending in another manifest or at a rule |
| Resolver.TwoManifestsDiffer | gazelle/python/resolve.go:203-336 | With two manifests simplification changes what an import resolves to: the nearer one's dropped entry lets the farther one's through |
| TypeChecking.FileParser.ParseImportStatements | gazelle/python/file_parser.go:160-200 | An import statement appends one module per name it binds, with the current flag |
| TypeChecking.FileParser.Parse | gazelle/python/file_parser.go:244-271 | The recursion appends exactly the imports and the comments of the subtree and leaves the type-checking flag as it found it |
| TypeChecking.RecordedStands | gazelle/python/file_parser.go:219-271 | Every recorded import stands at some node of the tree, flagged type-checking exactly when a type-checking `if` is above that node |
| TypeChecking.StandingIsRecorded | gazelle/python/file_parser.go:244-271 | Every import statement of the tree outside other import statements is recorded with that flag |
| TypeChecking.RecordedIff | gazelle/python/file_parser.go:160-271 | The two together, in plain terms: exactly the names that an `import` gives, unless they start with a dot, and `pkg.part` for each part of a `from pkg import`, unless `pkg` is a lone dot, each flagged exactly when an `if TYPE_CHECKING` or `if typing.TYPE_CHECKING` stands above the statement |
| TypeChecking.CommentsIff | gazelle/python/file_parser.go:203-271 | Exactly the comments that stand in the tree are collected |
| TypeChecking.RelativeByName | gazelle/python/file_parser.go:160-200 | Whether a recorded import is relative, and to which package, can be read off its name |
| RelativeImports.AskedIs | gazelle/python/resolve.go:170-211 | An import that starts with no dot asks for its own name; one that does asks for what the dots lead to, and for nothing where relative imports are not resolved |
| PythonImports.RelativeReachesIff | gazelle/python/resolve.go:172-211 | Whatever the project root, package and import: what a relative import of a module asks for is the name under which the file that Python reads is indexed, or nothing where Python refuses the import, if and only if, where the dots stay among the project's packages, the project is the whole repository and the module no `__init__`, and where they climb past them, there are so many that the source refuses the import too |
| PythonImports.DefiningReachesIff | gazelle/python/resolve.go:172-222 | Where Python finds the name in the module that the import is from, the second candidate is the name under which that module's file is indexed, if and only if the project is the whole repository (and the file not spelled as an `__init__`) |
| PythonImports.PastTheTop | gazelle/python/resolve.go:195-211 | An import that climbs one package past the top-level one is refused by Python and nevertheless looked for as if it were absolute |
| PythonImports.InRootPackage | gazelle/python/resolve.go:195-211 | So is one in the root package, with a dot in front |
| PythonImports.BelowProjectRoot | gazelle/python/resolve.go:85-127 | In a project below the repository root, `from .bar import x` beside `bar.py` resolves to nothing although the file is indexed |
| Dependencies.Python3Parser.Collect | gazelle/python/parser.go:95-131 | Draining the channel in any arrival order gives the set that stands for the imports not ignored |
| Dependencies.KeptIff | gazelle/python/parser.go:105-121 | An import is dropped exactly when its name or the package it is from is ignored by an annotation of its file or by a directive |
| Dependencies.MainModulesAre | gazelle/python/parser.go:96-121 | Exactly the files with a main block have a set of their own, of the imports in the last one of that name that nothing ignores |
| Dependencies.ImportSpecInjective | gazelle/python/resolve.go:85-115 | Different files of a package are indexed under different import specs |
| Dependencies.SiblingResolves | gazelle/python/target.go:94-107 | What sibling resolution is for: the import of another file of the package gets the name under which that file's rule is indexed, so it resolves to that rule, or to no dependency within the rule itself, unless an override, a manifest or a rule elsewhere claims the name |
| Dependencies.RenamedExactly | gazelle/python/target.go:94-116 | Renaming after the merge describes the same dependencies as renaming each import, where imports of one name are renamed alike |
| Dependencies.RenamedByName | gazelle/python/target.go:94-107 | Where the package and its files have no leading dot, renamed imports of one name still ask for the same |
| SiblingOrder.SameDepsIff | gazelle/python/resolve.go:146-371 | Two sets of modules give a rule the same `deps` and `pyi_deps` under every way of resolving imports if and only if they ask for the same names for everyone and for the same names for type checkers alone |
| SiblingOrder.OrderIsIrrelevantIff | gazelle/python/target.go:94-116 | So, for all files, directives, packages and siblings, two arrival orders give the same dependencies under every way of resolving if and only if what they leave in the builder asks for the same |
| SiblingOrder.SteadyOrderIsIrrelevant | gazelle/python/target.go:94-116 | Every order gives the same dependencies where, name by name, the runtime imports, or the type-checking ones if there are no others, are renamed alike |
| EveryOrder.EveryOrderIff | gazelle/python/target.go:94-116 | Exactly when every order gives the same dependencies, read off the imports: if and only if whatever an import that can stand for its name asks for is also asked for, and for everyone if that one does, by an import for which it does not matter which of its name stands |
| SiblingOrder.SiblingOrderMatters | gazelle/python/target.go:94-107 | Otherwise the order decides: two files of package `p` beside `a.py`, one with `import a.b` and one with `from a import b`, depend on the rule of `p/a.py` in one order and on nothing in the other |
| Dependencies.TargetBuilder.AddModuleDependency | gazelle/python/target.go:94-107 | The in-place step refines the renaming and merge rule that `SiblingResolves` and `RenamedExactly` are about |
| Dependencies.TargetBuilder.AddModuleDependencies | gazelle/python/target.go:110-116 | Folding a whole set in, with sibling resolution on or off, is the fold of that step |
| Dependencies.MergedStands | gazelle/python/parser.go:175-180 | Merging two sets that stand for some imports gives a set that stands for all of them: a name is type-checking only when all of its imports are |
| Dependencies.ResolveModules | gazelle/python/resolve.go:146-371 | The module loop leaves in `deps` and `pyiDeps` exactly what the modules ask for and exits fatally exactly when some import is unresolved |
| Dependencies.DepsAreExact | gazelle/python/resolve.go:129-138 | A label is in `deps` exactly when a counted import outside type-checking blocks resolves to it, and in `pyiDeps` exactly when it is not in `deps` and a type-checking import or a stub asks for it; the two are disjoint |
| Dependencies.ArrivalOrderIsIrrelevant | gazelle/python/parser.go:95-121 | Two arrival orders of the same files, repeats included, give the same two sets |
| Dependencies.ResolvedDepsMayOverlap | gazelle/python/resolve.go:352-386 | With the pre-resolved dependencies added the two attributes overlap if and only if a pre-resolved label is asked for by a type-checking import or by stubs and no other import of the target depends on it |
| Dependencies.TargetDependencies | gazelle/python/resolve.go:146-371 | The whole chain from parsed files to the two sets, as it runs, leaves exactly what the renamed merged modules ask for; that is what the imports themselves ask for with sibling resolution off, and what the renamed imports ask for where imports of one name are renamed alike |
| Dependencies.DepsFromTrees | gazelle/python/file_parser.go:244-271 | A label is in `deps` exactly when some file's tree has an import outside every type-checking `if`, not ignored, that resolves to it |
| Dependencies.PyiDepsFromTrees | gazelle/python/file_parser.go:244-271 | A label is in `pyiDeps` exactly when it is not in `deps` and some tree has an import under a type-checking `if`, or one with such stubs, that asks for it |
| Dependencies.CountedIsShaped | gazelle/python/file_parser.go:160-200 | The imports of valid files have the shape that the statements above need: each name tells what it is imported from |
| BzlIndex.IdRoundTrip | sphinxdocs/sphinxdocs/src/sphinx_bzl/bzl.py:239-256 | An id built from repository, file and symbol names parses back to them, for a repository without slashes and a file label without `%` |
| BzlReferences.RepoLessIs | sphinxdocs/sphinxdocs/src/sphinx_bzl/bzl.py:1790-1795 | Without its repository the id of an object is the id of the same object in no repository |
| BzlReferences.SymbolBaseName | sphinxdocs/sphinxdocs/src/sphinx_bzl/bzl.py:239-256 | The short name of a symbol is its last part |
| BzlReferences.FileBaseName | sphinxdocs/sphinxdocs/src/sphinx_bzl/bzl.py:239-256 | The short name of a file is what follows its last colon |
| BzlReferences.AddedIsOffered | sphinxdocs/sphinxdocs/src/sphinx_bzl/bzl.py:1760-1800 | Once added, an object is offered under its id, its id without repository, its short name and its given aliases |
| BzlReferences.FoundById | sphinxdocs/sphinxdocs/src/sphinx_bzl/bzl.py:1716-1758 | A reference by id finds the object |
| BzlReferences.FoundWithoutRepository | sphinxdocs/sphinxdocs/src/sphinx_bzl/bzl.py:1716-1758 | So does a reference from another document by the id without repository, when no other object has that alias |
| BzlReferences.FoundLocally | sphinxdocs/sphinxdocs/src/sphinx_bzl/bzl.py:1716-1758 | So does one by its short name from its own document |
| BzlIndex.BzlDomain.AddObject | sphinxdocs/sphinxdocs/src/sphinx_bzl/bzl.py:1760-1800 | Registering fails exactly when the id is taken by another entry; otherwise all four dictionaries become the extended index, whose aliases `BzlReferences.AddedIsOffered` and `BzlReferences.FoundWithoutRepository` are about |
| BzlIndex.BzlDomain.RemoveAlias | sphinxdocs/sphinxdocs/src/sphinx_bzl/bzl.py:1803-1821 | The sweep over all aliases removes the id from every bucket and drops the buckets that become empty |
| BzlIndex.BzlDomain.ClearDoc | sphinxdocs/sphinxdocs/src/sphinx_bzl/bzl.py:1803-1821 | The in-place loops leave the cleared index that the lemmas below are about |
| BzlIndex.BzlDomain.MergeDomaindata | sphinxdocs/sphinxdocs/src/sphinx_bzl/bzl.py:1823-1835 | The in-place loops leave the merged index that the lemmas below are about |
| BzlCoherence.AddKeepsCoherent | sphinxdocs/sphinxdocs/src/sphinx_bzl/bzl.py:1760-1800 | Adding a new id keeps coherence: each object is in exactly its own kind bucket, every alias and document entry points to a live object, every object keeps its repository-less alias, no alias bucket is empty |
| BzlCoherence.ClearKeepsCoherent | sphinxdocs/sphinxdocs/src/sphinx_bzl/bzl.py:1803-1821 | Clearing any document keeps coherence, even with base names that clash |
| BzlCoherence.MergeKeepsCoherent | sphinxdocs/sphinxdocs/src/sphinx_bzl/bzl.py:1823-1835 | Merging indexes that agree on shared ids keeps coherence |
| BzlCoherence.RunsAreCoherent | sphinxdocs/sphinxdocs/src/sphinx_bzl/bzl.py:1760-1835 | Every sequence of adds, clears and merges from the empty index is coherent |
| BzlCoherence.ClearIsCompleteIff | sphinxdocs/sphinxdocs/src/sphinx_bzl/bzl.py:1803-1821 | After every legal run, clearing a document removes all of its objects if and only if each of them is the document's entry under its own base name |
| BzlCoherence.ClashFreeIsListed | sphinxdocs/sphinxdocs/src/sphinx_bzl/bzl.py:1760-1835 | Runs that never register two live objects of one document under one base name keep every object so listed, and thus every clear complete |
| BzlCoherence.TwinIsMissed | sphinxdocs/sphinxdocs/src/sphinx_bzl/bzl.py:1760-1821 | Of two objects of one document with one base name, clearing the document misses the one registered first |
| BzlCoherence.MissedStays | sphinxdocs/sphinxdocs/src/sphinx_bzl/bzl.py:1803-1821 | What one clear misses every later one misses too |
| BzlCoherence.MissedWithoutTwin | sphinxdocs/sphinxdocs/src/sphinx_bzl/bzl.py:1760-1821 | After that first clear no base names clash any more, and yet clearing the document again leaves the object |
| BzlCoherence.TwinsExist | sphinxdocs/sphinxdocs/src/sphinx_bzl/bzl.py:1760-1800 | Such twins exist: two symbols of one file, registered for one document, whose names end alike |
| BzlCoherence.FindEntryForXref | sphinxdocs/sphinxdocs/src/sphinx_bzl/bzl.py:1716-1758 | A reference finds the local name that plays the role, else the exact id, else an entry of the alias with a shortest id, else nothing |
| BzlCoherence.FoundIsLive | sphinxdocs/sphinxdocs/src/sphinx_bzl/bzl.py:1716-1758 | In a coherent index whatever a reference finds is a registered object |
| BzlRegistry.AddRepresents | sphinxdocs/sphinxdocs/src/sphinx_bzl/bzl.py:1760-1800 | The four dictionaries after an add are those of the registry with one more object |
| BzlRegistry.ClearRepresents | sphinxdocs/sphinxdocs/src/sphinx_bzl/bzl.py:1803-1821 | Clearing a document leaves exactly the index of the objects of the other documents |
| BzlRegistry.MergeRepresents | sphinxdocs/sphinxdocs/src/sphinx_bzl/bzl.py:1823-1835 | Merging the indexes of disjoint documents gives the index of both registries |
| BzlRegistry.OneIndexPerRegistry | sphinxdocs/sphinxdocs/src/sphinx_bzl/bzl.py:1760-1835 | A registry determines its four dictionaries, up to empty kind buckets |
| BzlRegistry.RegisteringRepresents | sphinxdocs/sphinxdocs/src/sphinx_bzl/bzl.py:1760-1800 | Registering objects one by one, in any order, gives the index of all of them |
| BzlRegistry.ReAddedIsFresh | sphinxdocs/sphinxdocs/src/sphinx_bzl/bzl.py:1760-1821 | Clearing a document and adding its objects again in any order equals a fresh build in any order, up to empty kind buckets |
| Changelog.AppendCategories | tools/private/release/changelog_news.py:102-127 | The loop over the category order, which creating and merging share, writes the text that `CategoriesRead` reads back |
| Changelog.ParseEntries | tools/private/release/changelog_news.py:235-252 | The accumulator loop splits a category's lines into its entries |
| Changelog.ParseCategories | tools/private/release/changelog_news.py:213-253 | The loop over the anchors found anywhere in the text reads the categories that the reading lemmas are about |
| Changelog.SortedUnique | tools/private/release/changelog_news.py:116-119 | The sorted order of entries depends only on which entries there are, not on the order they came in |
| ChangelogLayout.SubCategoryIs | tools/private/release/changelog_news.py:7-12 | The sort key is the lower-cased text in parentheses right behind the bullet, or empty without one |
| ChangelogLayout.SortedInOrder | tools/private/release/changelog_news.py:116-119 | Entries come by that key, then by text; none is lost or added |
| ChangelogLayout.SectionIsOrdered | tools/private/release/changelog_news.py:93-112 | A section has exactly the categories with entries, once each: removed, changed, fixed, added, then the others as they are first found |
| ChangelogLayout.GroupTextIs | tools/private/release/changelog_news.py:108-123 | The lines of a category: its anchor, its capitalised heading, its entries and an empty one |
| ChangelogLayout.LinesAre | tools/private/release/changelog_news.py:235-246 | What the parser takes for a bullet, for a line to skip and for a line break, character by character |
| Changelog.SectionHolds | tools/private/release/changelog_news.py:110-123 | A section holds each category's entries sorted, and nothing else |
| ChangelogReading.GroupReadIff | tools/private/release/changelog_news.py:213-253 | A category of well-formed entries is read back as it is if and only if no entry has an anchor of the version inside, wherever in a line it stands |
| ChangelogReading.CategoriesRead | tools/private/release/changelog_news.py:102-123 | Rendered categories parse back to the same groups, each sorted |
| ChangelogReading.NewSectionRead | tools/private/release/changelog_news.py:91-129 | A new section parses to its news, sorted by category |
| ChangelogReading.MergedSectionRead | tools/private/release/changelog_news.py:213-285 | A merged section parses to the union of the old section and the news, sorted by category |
| ChangelogReading.OwnAnchorLosesEntries | tools/private/release/changelog_news.py:224-253 | A text that ends with a category's anchor once more gives that category no entries, whatever stands before |
| Template.LiteralIff | tools/private/release/changelog_news.py:290-296 | The replacement template expands to itself for all groups if and only if no backslash in it is last or followed by a letter, a digit or a backslash |
| Template.BadEscapeRaises | tools/private/release/changelog_news.py:290-296 | The first escape of a letter that has no meaning, as in `\d`, is an error |
| Template.ControlIsReplaced | tools/private/release/changelog_news.py:290-296 | An escape with a meaning is replaced by it, so the text loses its backslash |
| Template.GroupIsReplaced | tools/private/release/changelog_news.py:290-296 | A group number is replaced by what the group matched, and is an error when there is no such group |
| Template.NameIsReplaced | tools/private/release/changelog_news.py:290-296 | So is a group name |
| Template.OctalIsReplaced | tools/private/release/changelog_news.py:290-296 | Three octal digits are replaced by a character, up to 255 |
| ChangelogFile.GenerateReleaseBlock | tools/private/release/changelog_news.py:91-129 | The lines joined are the anchor and the section that `NewSectionRead` reads back |
| ChangelogFile.MergeIntoSection | tools/private/release/changelog_news.py:213-285 | Parsing, extending and rendering loops together build the section that `MergedSectionRead` reads back |
| ChangelogFile.AddNewsToChangelog | tools/private/release/changelog_news.py:160-315 | The whole function computes the text, or the error, that `IncrementalIsBatch` is about |
| ChangelogFile.FindInsertionPoint | tools/private/release/changelog_news.py:138-157 | The scan stops at the first anchor of an older version, or finds none |
| ChangelogSections.AnchorRoundTrip | tools/private/release/changelog_news.py:132-145 | A version's anchor is read back whatever follows it, and no category anchor is taken for one |
| ChangelogSections.SectionEndIff | tools/private/release/changelog_news.py:191-197 | The section search reaches to the end of the section if and only if no line of it starts, after blanks, with the anchor of a version |
| ChangelogMerge.CreatedReads | tools/private/release/changelog_news.py:301-315 | A created section stands before the first older version, holds exactly the news, sorted by category, and leaves the text around it as it was |
| ChangelogLayout.CreatedTextIs | tools/private/release/changelog_news.py:79-129 | A new section is its anchor, title and link line, then its categories or the note that nothing has changed, in front of the insertion point; the rest of the text stays |
| ChangelogMerge.UpdatedReads | tools/private/release/changelog_news.py:183-297 | Merging into such a section cannot fail, holds exactly both, sorted by category, and is such a section again; around it the text gains one newline |
| ChangelogLayout.MergeKeepsHead | tools/private/release/changelog_news.py:203-212 | A merge keeps what stands above the categories, title and link included, but for blanks around it |
| ChangelogMerge.IncrementalIsBatch | tools/private/release/changelog_news.py:160-315 | Creating a section from some news and merging any number of further batches gives, category by category, the same sorted entries as creating it from all at once, for any file order: no entry is lost, added or moved, no merge fails, and the text around is only moved apart |
| ChangelogOrder.PointSplits | tools/private/release/changelog_news.py:138-157 | There is a point exactly when some anchor is of an older version; before it none is, at it one is |
| ChangelogOrder.InsertKeepsOrder | tools/private/release/changelog_news.py:138-157 | A changelog in decreasing order stays so and gains exactly the new version, and the creation succeeds exactly when some older version is there, for entries that quote no version |
| ChangelogOrder.SplitsSectionIff | tools/private/release/changelog_news.py:138-157 | A new version is put inside a section if and only if none before it is older and one quoted in it is |
| ChangelogHazards.CreatedIsWholeIff | tools/private/release/changelog_news.py:191-204 | All of a created section of well-formed entries is read if and only if no line of it starts with the anchor of a version |
| ChangelogHazards.OwnAnchorEmptiesCategory | tools/private/release/changelog_news.py:224-253 | In a created section whose last entry ends with its own category's anchor, the whole category reads empty |
| ChangelogHazards.QuotedAnchorLosesEntry | tools/private/release/changelog_news.py:224-253 | So `* Foo, see {#v2-4-0-fixed}`, alone under `fixed`, is lost, for any text before the anchor |
| ChangelogHazards.VersionLineCutsEntry | tools/private/release/changelog_news.py:191-204 | An entry that goes on with an indented version anchor is cut there, and the rest of it is left after the section |
| ChangelogHazards.BadEscapeRefused | tools/private/release/changelog_news.py:290-296 | News are refused whenever the merged section has, before any other escape, a backslash and a letter without meaning |
| ChangelogHazards.EscapeStopsMerge | tools/private/release/changelog_news.py:290-296 | So `* match \d+ in names` stops the merge into a section without categories, for any text around the escape |
| Runfiles.LinkOnePass | python/runfiles/runfiles.py:500-523 | Replacing `\s`, `\n` and `\b` one after the other equals a one-pass decoder on every string |
| Runfiles.TargetOnePass | python/runfiles/runfiles.py:500-523 | The same for the two replacements made in targets |
| Runfiles.EscapeRoundTrip | python/runfiles/runfiles.py:500-523 | Decoding an escaped string returns it, for every string |
| Runfiles.LoadRunfiles | python/runfiles/runfiles.py:500-523 | The line loop loads the map that the round trips below are about, or fails on a line it cannot split |
| Runfiles.LineRoundTrip | python/runfiles/runfiles.py:500-523 | A printed link with a non-empty path stays on one line and is read back, spaces, newlines and backslashes included |
| Runfiles.ManifestRoundTrip | python/runfiles/runfiles.py:500-523 | Printing links in any order and loading them gives the same map |
| RunfilesLookup.LoadFailsIff | python/runfiles/runfiles.py:500-523 | A manifest cannot be loaded if and only if one of its lines cannot be split |
| RunfilesLookup.AsMapIs | python/runfiles/runfiles.py:500-523 | Of several links for one path the last counts, an empty target standing for the path itself |
| Runfiles.ManifestBased.RlocationChecked | python/runfiles/runfiles.py:481-497 | For a path without `//` and without a leading slash the loop ends and returns the exact entry, else the longest listed directory joined with the rest, else nothing |
| Runfiles.LookupEndsIff | python/runfiles/runfiles.py:481-497 | For every manifest and every path without `//` the lookup ends if and only if the path has no leading slash, the lone `/` aside, or it or some directory of it is listed |
| Runfiles.CanonicalIsNormal | python/runfiles/runfiles.py:594-669 | The guards and non-empty canonical names establish what the lookup needs of its path |
| RunfilesLookup.LookupRepoIs | python/runfiles/runfiles.py:120-153 | The mapping gives nothing without a source repository, else the exact line, else the first line whose prefix fits |
| RunfilesLookup.CanonicalIs | python/runfiles/runfiles.py:640-669 | The path looked up is the given one with its first component mapped, when something follows it and the mapping has it, and the given one otherwise |
| RunfilesLookup.LongestIsFound | python/runfiles/runfiles.py:481-497 | Without an entry of its own a path is found below the longest directory of it that has one, with the rest behind it |
| RunfilesLookup.NothingIsFoundIff | python/runfiles/runfiles.py:481-497 | Nothing is found if and only if neither the path nor a directory of it has an entry that is not empty |
| RunfilesLookup.RefusedIff | python/runfiles/runfiles.py:619-634 | Which paths are refused, character by character |
| Runfiles.Rlocation | python/runfiles/runfiles.py:594-669 | Refuses the malformed paths, returns absolute ones, and answers all others by the longest listed directory of the canonical path |
| Typedefs.MySTRenderer.GetColons | sphinxdocs/sphinxdocs/private/proto_to_markdown.py:104-110 | Inside d typedefs a fence has 13 - d colons, never fewer than three; the precondition is the assertion of the source |
| Typedefs.MySTRenderer.ProcessObject | sphinxdocs/sphinxdocs/private/proto_to_markdown.py:157-167 | Closes the typedefs that do not enclose the object, renders it and stacks it if it is a placeholder, failing exactly where an assertion on a fence length fails |
| Typedefs.MySTRenderer.RenderModule | sphinxdocs/sphinxdocs/private/proto_to_markdown.py:115-155 | Sorting and the loop over objects write the fences that the lemmas below are about |
| TypedefNames.RenderedNames | sphinxdocs/sphinxdocs/private/proto_to_markdown.py:115-234 | A rendered module starts the directives of each object once, in the order of the objects, and no others: its own, and one to each field, attribute, tag class and deprecation |
| Typedefs.RenderedIsNested | sphinxdocs/sphinxdocs/private/proto_to_markdown.py:104-167 | What is rendered is a balanced word of fences, ends as long as their starts and everything inside strictly shorter, if and only if every object named like a placeholder is a function and every object fits the typedefs open around it: a function inside at most ten, a deprecated one inside at most seven, a provider, aspect, extension or repository rule inside at most seven, a rule inside at most nine |
| Typedefs.NestedIff | sphinxdocs/sphinxdocs/private/proto_to_markdown.py:104-167 | For a module in order the second half can be read off the names: each object fits the number of placeholders that are dotted prefixes of its own |
| Typedefs.ShallowIsNested | sphinxdocs/sphinxdocs/private/proto_to_markdown.py:104-167 | Where no name has more dots than its kind has room, the first half decides alone |
| Typedefs.TowerIsNestedIff | sphinxdocs/sphinxdocs/private/proto_to_markdown.py:104-234 | Inside n nested function typedefs an object of any kind is nested if and only if it fits n: a provider inside eight closes the innermost typedef with its own fence |
| Typedefs.InsideItsTypedefs | sphinxdocs/sphinxdocs/private/proto_to_markdown.py:144-167 | Each object stands inside exactly the typedefs whose name is a dotted prefix of its own |
| Typedefs.AroundIsShallow | sphinxdocs/sphinxdocs/private/proto_to_markdown.py:104-110 | The typedefs around an object are at most as many as the dots in its name |
| Typedefs.ModuleRenders | sphinxdocs/sphinxdocs/private/proto_to_markdown.py:115-167 | A module in order whose names have at most ten dots renders without running out of colons, and reads back as balanced under exactly that condition |
| Typedefs.SortedIsWellNamed | sphinxdocs/sphinxdocs/private/proto_to_markdown.py:144-155 | Sorting by case-folded name puts a module's objects in the order that nests them, given names consistent under case folding |
| Typedefs.ModuleIsNested | sphinxdocs/sphinxdocs/private/proto_to_markdown.py:115-167 | All of it from the unsorted module, whenever it renders: it is balanced under exactly that condition, and every object is inside exactly its typedefs |
| ManifestSorter.FindEntries | python/private/tools/sort_manifest.py:18-28 | First and last entry, or none |
| ManifestSorter.GroupEntries | python/private/tools/sort_manifest.py:48-72 | The accumulator loop forms the blocks of an entry with the lines attached before it |
| ManifestLines.LineKinds | python/private/tools/sort_manifest.py:20-40 | A line is blank when all its characters are, and an entry when the first that is not is no `#` |
| ManifestLines.TwoWordLine | python/private/tools/sort_manifest.py:54-63 | An entry of two words is named by the second and written with two blanks between them |
| ManifestLines.OtherLine | python/private/tools/sort_manifest.py:54-66 | Any other entry is named by its first word and stays as it is |
| ManifestLines.HeaderIs | python/private/tools/sort_manifest.py:30-46 | The header reaches to the last blank line before the first entry |
| ManifestSorter.SortManifest | python/private/tools/sort_manifest.py:10-86 | Returns the lines the lemmas below are about and reports a change exactly when they differ |
| ManifestSorter.NormalizedIsStable | python/private/tools/sort_manifest.py:55-63 | Normalising a line once is enough and keeps its kind and file name |
| ManifestSorter.SortConserves | python/private/tools/sort_manifest.py:10-86 | No line is lost, added or altered but for the spacing of entries |
| ManifestSorter.SortKeepsEnds | python/private/tools/sort_manifest.py:30-46 | Header and trailer stay where they are |
| ManifestSorter.OutputIsSorted | python/private/tools/sort_manifest.py:74-80 | Every output is in sorted form |
| ManifestSorter.UnmodifiedIff | python/private/tools/sort_manifest.py:10-86 | No change is reported exactly for files in sorted form |
| ManifestSorter.SortTwice | python/private/tools/sort_manifest.py:10-86 | A second run reports no change, even where it splits the header differently |
| ManifestSorter.EntriesMoveWithComments | python/private/tools/sort_manifest.py:48-80 | The middle part is the stable sort by file name of the entry blocks: attached lines move with their entry, equal names keep their order |
| Sorting.SortIsStable | python/private/tools/sort_manifest.py:74-75 | The sort used by the sorter and the renderer keeps the order of elements with equal keys |
| Sorting.SortedByKey | python/private/tools/sort_manifest.py:74-75 | That sort yields a permutation of its input in order of the keys |

## Left out

Text

- Character classes (`\w`, `\d`, `\s`, letter case) are those of ASCII.
- Text is split at `\n` only, in the changelog at the ASCII line breaks: other line breaks and a missing final newline in manifests are not modelled.

Release tools

- Choosing the next version (`determine_next_version`), finding the tracking issue and rewriting version placeholders: their results are arguments.
- Comments, reactions, GitHub outputs and logging: a comment that cannot be posted after a success does not change the exit code here.
- Each command is one atomic step on the remote, over a fresh clone; two commands never interleave, and a push is all or nothing.
- The add-backports, sync-changelog and complete-sync-changelog commands are not separate commands of a run.
- What GitHub answers, what each cherry-pick comes to and the order of `git log` are arguments of each command.
- ReleaseChecklist.BackportNoted: no two pending backports have one name (`ReleaseNotes.ChecklistIsEdited` is about any), and a short commit is not empty and has no blanks, as git prints it.
- ReleaseSuccess.CreateRcSucceedsIff: in addition no update of a pending backport fails to be saved, and no line is a section heading and names one at once.
- ReleaseProtocol.RunsAreSafe: a run starts without tags and with issues that list no backport yet, and only these commands edit the remote.

DirectorySyncer

- `executor.submit` and the thread pool itself never fail; symbolic links are resolved before; clearing the destination of `copytree` succeeds.
- `submit` and `add_done_callback` are one step, and the callback always occupies a pool thread: in the source a future that is done already runs it in the submitting thread. The proved bounds do not depend on it.
- A failed task changes nothing that is neither its own path, below it, nor a folder above it; the wipe of the destination succeeds completely.
- SyncMirror.SyncMirrorsEntries: only file entries are mirrored, because `_copy_dir` does not delete stale children; what failed syncs leave is the matter of `WorkerRuns`.
- SyncSafety.RaisesIffRecorded: is about recorded failures only, because a failure can be recorded after the check.
- The persistent worker's request loop, its other source directories, its output and doctree directories, and the calls into Sphinx.

Gazelle

- Label text, the third-party naming convention, embeds and the rule index are given.
- PythonImports.RelativeReachesIff: a package lies below the root of its Python project and has no empty part, as gazelle's inherited setting and Bazel's package names give it.
- Tree-sitter is an abstract tree with cleaned strings; line numbers and the search for a main block are left out, annotations and directives are sets of ignored names. Adding an equal module to the tree set replaces it, as gazelle/python/parser.go:173-174 needs.
- Writing the attributes: the two sets merged into `deps` when `generate_pyi_deps` is off.
- Merging the mappings of several wheels, and walking directories to generate rules.

Documentation index

- Two entries are equal when their fields are; which of several equally short ids a reference gets depends on dictionary order and is left open.
- Directives, roles, docutils nodes and everything else of the domain.

Changelog

- ChangelogMerge.IncrementalIsBatch: entries are well formed (one bullet at column 0, no blank or heading line, no blank at the end), without a category anchor of the version, a line that starts with a version's anchor or a template escape, and categories are lower-case words; `ChangelogHazards` shows that the last three conditions are needed.
- The unreleased preview section, which has its own anchor and drops a sentence.
- Reading and formatting news files; the release date has no brace and no backslash, as `strftime` writes it.

Runfiles

- Directory-based lookup, environment variables and finding the calling repository; a manifest is its lines.
- Runfiles.CanonicalIsNormal: canonical repository names are non-empty and without slashes, as in every repository mapping.

Typedef fences and manifest sorter

- The bodies of the directives other than fences.
- ManifestSorter.SortManifest: files end in a newline, because a last line without one can be joined to the line sorted after it.

Elsewhere

- Bootstraps, zip applications, wheel building, the precompiler worker, HTTP helpers and runtime probing: input and output around little logic.
