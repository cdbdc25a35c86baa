# Verified models of the repository's tools

Dafny models of the tools around the front end: the register renamer that walks
through the 429.mcf inner loop, the release tag rules, the waveform publisher and its
gate, the compiler of Surfer command files with its independent checker, the two
document transformers, the waiver table of the session generator and the run timer.
Each model keeps the source's branches, constants and error cases. Code that works step
by step is a method or a class proved against a specification function; the results
about it are lemmas about that function, over every input and every run.

| source | modules |
|---|---|
| `tools/rename_mcf.py` | `Renamer` (the RAT, free list, ROB and issue queue and the two loops), `RenamerState` (conservation, exhaustion, recovery), `RenamerMeaning` (what the renamed code computes, in order and out of order), `RenamerOrders` (which orders agree) |
| `tools/fe_release.py` | `ReleaseTags` |
| `tools/publish_waves.py` | `Waves` (canonical form), `WaveDigest` (the digested text), `WaveReader` (reading it back), `PublishGate` (status reader and gate) |
| `examples/fe_demo/waves/mk_sucl.py`, `chk_sucl.py` | `SurferViewer` (the viewer the header of `mk_sucl.py` states), `Sucl` (the emitter), `CycTimes` (marker times), `SuclChecker` (what `chk_sucl.py` accepts) |
| `tools/gen_doc_placeholders.py` | `UnitPage` (splitting a page), `UnitHeads` (its headings and title), `UnitRender` (rendering), `UnitWritten` (what is written text), `UnitIdempotence` (rendering again), `UnitKept` (exactly when that changes nothing), `UnitBlocks` (the generated blocks) |
| `tools/mkdocs_showcase.py` | `SpecDocument` and `SpecLines` (lines), `SpecSegments` (what is shown), `SpecShown` (how each part stands there), `SpecNames` (escapes), `SpecReadBack` (what is kept), `PlainIds` |
| `tools/gen_sessions.py` | `Waivers` |
| `tools/run_time.py` | `RunTime` (the reader), `RunTimeAccount` (what is counted) |
| all | `Text` (numerals, splitting and joining, white space, string order) |

The renamer is parametric in the number of architectural and physical registers, the
group width and the program; the source's 32, 64 and 4 are one instance. An instruction
is an uninterpreted function of its opcode and its two source values. The digest is the
text fed to SHA-256. What git answers, the raw status output, the waveform changes and
the transcript entries are inputs. The viewer leaves the focus after `group_marked`
unstated, as the header does, and any command that would depend on it fails.

## What the code does where one might expect otherwise

- `chk_sucl.py` expects the markers group only before the second signal group, so a
  scenario with events and one group would not pass, although `mk_sucl.py` writes a
  correct file for it; nor would one with a signal group itself named `markers`, nor
  one with events whose opening view is half of its waveform or more.
  `SuclChecker.CheckerAcceptsExactly` gives the exact condition.
- `status_entries` takes the source path of a rename or copy only when the first status
  letter announces it. A rename noted by the second letter alone has its source read as
  an entry of its own, and a guarded source can escape the gate. The tool asks git for
  `--no-renames`, so git does not print such a record here.
  `PublishGate.StatusReadsBack` and `PublishGate.CodesReadRight` give the exact
  conditions and `PublishGate.UnannouncedHidesSource` an input.
- `plain_ids` can take an item's id away from its own heading.
  `PlainIds.ItemsKeepTheirHeadings` gives the exact condition and
  `PlainIds.ClashLosesHeading` an input.
- `check_entry` lets a `covers` of several lines pass, although `doc_status.yaml` asks
  for one line. When the second is a heading, another run of the generator changes the
  page: `UnitBlocks.HeadingInCovers`, with an input in `UnitBlocks.SomeHeadingInCovers`.
  `UnitKept.KeptExactly` says exactly which tables give pages and reports that another
  run leaves alone, and `UnitBlocks.EntryKeptExactly` what that means for an entry: a
  closed pair of fences in `covers`, for one, does no harm.
- `demote_headings` shows levels 4, 5 and 6 all as level 6, and an escaped name is shown
  like the same name already escaped in the document; `SpecReadBack.DocumentReadBack`
  gives the exact condition under which the document can be read back.

## Model

| member | source | states |
|---|---|---|
| Renamer.RenameUnit.RenameGroup | tools/rename_mcf.py:59-97 | renaming a group with the RAT snapshot and the intra-group map leaves the RAT, free list, ROB, issue queue and printed code that renaming its instructions one at a time against the live RAT leaves, also when the free list runs out in the middle |
| Renamer.RenameUnit.RenameProgram | tools/rename_mcf.py:103-105 | whatever the group width, the whole program ends in the state, code and exhaustion of one-at-a-time renaming |
| Renamer.RenameConcat | tools/rename_mcf.py:103-105 | renaming a program is renaming any first part and then the rest from where it stopped, so every way of cutting it into groups agrees |
| RenamerState.CodePrinted | tools/rename_mcf.py:69-97 | for every program, also when the free list runs out: each instruction printed has the opcode of the one read, destination p0 exactly when its dst is 0, and otherwise the next register of the free list |
| RenamerState.RegistersConserved | tools/rename_mcf.py:82-92 | from any state, the multiset of registers held by the RAT, the free list and the logged old registers never changes |
| RenamerState.PartitionMeans | tools/rename_mcf.py:54-55 | a state that partitions the registers holds each of them once and no other, and the three lengths add up to their number |
| RenamerState.ReachablePartition | tools/rename_mcf.py:54-93 | in every reachable state the RAT, the free list and the ROB's old registers are duplicate-free and together are exactly 0..NUM_PHYS-1, free list plus ROB length is constant, and the queue is as long as the ROB |
| RenamerState.QueueMatchesLog | tools/rename_mcf.py:91-93 | every issue queue entry names its ROB entry by index and writes that entry's new register |
| RenamerState.ExhaustedExactly | tools/rename_mcf.py:82-85 | the free list runs out exactly for programs with more than NUM_PHYS - NUM_ARCH instructions with dst != 0 |
| RenamerState.RollbackRestores | tools/rename_mcf.py:85-93 | undoing the ROB from the tail to its length at any earlier point gives the whole state of that point, from any well-formed start |
| RenamerState.PreciseRecovery | tools/rename_mcf.py:85-93 | after any program a + b, undoing to the ROB length after a restores exactly the state after a |
| RenamerMeaning.Simulation | tools/rename_mcf.py:69-97 | from any sound state whose RAT shows the architectural values, the code renamed so far reads the same operands, and the final RAT shows the sequential result, also when renaming stops early |
| RenamerMeaning.RenamingPreservesMeaning | tools/rename_mcf.py:59-93 | for every program that can be renamed, every reading of its opcodes and any initial registers: each operand read and each register read through the final RAT equals sequential execution, and x0 stays p0 with its value |
| RenamerMeaning.QueueHoldsWriters | tools/rename_mcf.py:77-93 | the issue queue is the renamed code without its dst = 0 instructions, in order |
| RenamerMeaning.SkippingNonWriters | tools/rename_mcf.py:77-80 | leaving the dst = 0 instructions out changes no physical register |
| RenamerMeaning.QueueSingleAssignment | tools/rename_mcf.py:72-93 | the queue writes each physical register at most once and never one that it or an earlier entry read |
| RenamerMeaning.ProgramOrderSettles | tools/rename_mcf.py:93 | run in program order, the final register file satisfies every entry's equation and keeps every unwritten register |
| RenamerMeaning.SchedulesAgree | tools/rename_mcf.py:93 | any permutation of the queue that runs each source's producer before its consumer ends in the register file of program order |
| RenamerMeaning.ProgramOrderIsLegal | tools/rename_mcf.py:93 | program order is such a schedule, so there always is one |
| RenamerMeaning.OutOfOrderIsSequential | tools/rename_mcf.py:59-93 | rename any program and run the queue under any such schedule: each architectural register, read through the RAT, holds its sequential value |
| RenamerOrders.SchedulesAgreeExactly | tools/rename_mcf.py:93 | an order that runs every queue entry once leaves the register file of program order, on terms over distinct starting values, if and only if it runs every producer before its consumers |
| RenamerOrders.TermsDecide | tools/rename_mcf.py:93 | when those two runs on terms agree, the two orders agree for every reading of the opcodes and every register file |
| ReleaseTags.TagsAreVersions | tools/fe_release.py:30-39 | a name parses to a version exactly when it is that version's printed form, so parser and printer are mutual inverses on all triples of naturals |
| ReleaseTags.LatestIsLatest | tools/fe_release.py:42-49 | the latest tag is a listed name whose version no listed version exceeds, and None exactly when no name parses |
| ReleaseTags.LatestIsUnique | tools/fe_release.py:42-49 | it is the only such name, whatever the order and repetition of the list |
| ReleaseTags.LatestOfTwo | tools/fe_release.py:38-49 | of two printed versions the one with the greater major is the latest, then the greater minor, then the greater patch |
| ReleaseTags.SomeRelease | tools/fe_release.py:28-39 | helper: fe-1.20.3 is version 1, 20, 3 |
| Waves.Canonical | tools/publish_waves.py:365-375 | the push and pop loop computes the canonical form, for which the rows below hold |
| Waves.SortIsPermutation | tools/publish_waves.py:369 | sorting by time loses and adds no change |
| Waves.SortKeepsValue | tools/publish_waves.py:369 | the sort is stable where it matters: the last change at or before any time is the same one |
| Waves.CanonicalIsNormal | tools/publish_waves.py:365-375 | the canonical form has strictly increasing times and no equal neighbours, and the input's value at every time |
| Waves.CanonicalIsComplete | tools/publish_waves.py:365-375 | two change lists have the same canonical form if and only if they define the same step function |
| WaveDigest.SortKeys | tools/publish_waves.py:386 | the names in ascending order, each exactly once |
| Text.LessMeans | tools/publish_waves.py:386 | the ascending order is by the first character that differs, a prefix before what it opens |
| WaveDigest.FeedSignal | tools/publish_waves.py:387-389 | a signal adds its head line and one line for each canonical change |
| WaveDigest.DigestText | tools/publish_waves.py:378-390 | the text of the listed signals in name order, and no text exactly when a listed name is missing |
| WaveDigest.WaveReadBack | tools/publish_waves.py:386-389 | equal lines come from equal name lists and equal canonical changes: names, decimal times and hex-or-x values are read back |
| WaveReader.TextReadsBack | tools/publish_waves.py:386-389 | a reader of the lines S name and time value, written without the code that feeds them, takes from the text exactly the ascending names and their canonical changes |
| WaveDigest.DigestIsComplete | tools/publish_waves.py:378-390 | for names without newlines the text fed to the hash is the same if and only if the two waveforms list the same signals with the same value at every time |
| WaveDigest.UnlistedDoNotMatter | tools/publish_waves.py:383-384 | helper: order and repetition of the list and the unlisted signals make no difference |
| PublishGate.StatusEntries | tools/publish_waves.py:177-194 | the index walk reads the specified entries, for any status text |
| PublishGate.StatusReadsBack | tools/publish_waves.py:177-194 | what git prints for any list of reports is read back as exactly the reported paths, sources included, if and only if every source is announced by its first status letter |
| PublishGate.CleanMeansUntouched | tools/publish_waves.py:197-209 | for changes whose sources are announced, which is all that git prints under `--no-renames`, the tree passes exactly when no reported path, sources included, lies under the guarded directories |
| PublishGate.CodesReadRight | tools/publish_waves.py:177-209 | changes with a source pass the tree check exactly when neither path is guarded, whatever the paths, if and only if the first letter of their status code announces the source |
| PublishGate.UnannouncedHidesSource | tools/publish_waves.py:191-193 | for every other code, a report with a guarded source that reads as clean |
| PublishGate.HeadTagIsHighest | tools/publish_waves.py:240-264 | the tag found at HEAD is the annotated release tag there with the highest version, and none is found exactly when there is none |
| PublishGate.GivenTagRecords | tools/publish_waves.py:267-280 | helper: a given tag is recorded exactly when it is annotated and names HEAD, a given commit is HEAD, and the tree is clean |
| PublishGate.PublishRecords | tools/publish_waves.py:283-312 | for any arguments, repository and raw status output a publish records a tag and commit if and only if the release rules allow it: commit is HEAD, the status output reads as clean, and the tag is "untagged" as asked or an annotated release tag at HEAD, the highest when none was given |
| PublishGate.DryRunRecords | tools/publish_waves.py:297-305 | a dry run records a tag and commit if and only if the commit is the one given, or HEAD when none is, and the tag is "untagged" as asked, the annotated release tag given, naming HEAD when no commit is given, or the highest at HEAD |
| PublishGate.RefusedRightly | tools/publish_waves.py:240-312 | whatever reason a run is refused for is true of its arguments and repository |
| PublishGate.GuardedDirectories | tools/publish_waves.py:171 | helper: which directories are guarded |
| PublishGate.RecordedMeansUntouched | tools/publish_waves.py:197-312 | when the status output is what git prints for a list of changes whose sources are announced, a recorded publish has no guarded path among them, sources included |
| PublishGate.DryRunAsksNothing | tools/publish_waves.py:297-305 | helper: a dry run given its commit and tag, or untagged, does not depend on the repository |
| SurferViewer.AlphaReadsBack | examples/fe_demo/waves/mk_sucl.py:115-118 | reading an alpha index back gives the number it was written for |
| SurferViewer.GroupLast | examples/fe_demo/waves/mk_sucl.py:26-43 | grouping the focused last item puts a group in its place with the item one level below, and leaves the focus unstated |
| SurferViewer.FocusStaysInList | examples/fe_demo/waves/mk_sucl.py:26-43 | whatever commands are run, the focused item is one of the list |
| SurferViewer.RowsKept | examples/fe_demo/waves/mk_sucl.py:26-43 | no command drops or renames a row or changes their order; the one it adds is put between them |
| Sucl.EmitGroup | examples/fe_demo/waves/mk_sucl.py:330-339 | run by any viewer with n items and no focus, a group's commands add exactly its group and its signals at level 1, each with its own format, and nothing else |
| Sucl.PieceListed | examples/fe_demo/waves/mk_sucl.py:316-339 | helper: for a group whose signals are all known, the group and then, one level below, each listed signal in order under its own shown name and format |
| Sucl.EmitMarkers | examples/fe_demo/waves/mk_sucl.py:340-350 | likewise the markers group, its markers numbered from 0 in order |
| Sucl.EmitDisplay | examples/fe_demo/waves/mk_sucl.py:315-352 | the running index n always is the number of items, so the whole file builds the groups in order, the markers group right after the first; missing or unformatted signals are reported exactly when there are any |
| Sucl.Compile | examples/fe_demo/waves/mk_sucl.py:304-370 | the files of all scenarios are written exactly when every listed signal of every one of them is known and has a format, and none otherwise; run by the viewer each builds its specified item tree and opens the view on the first marker, or on the whole run |
| Sucl.OpeningViewIs | examples/fe_demo/waves/mk_sucl.py:353-356 | the opening view runs from two periods before the first marker, or from 0, to thirty after it |
| CycTimes.FindFirst | examples/fe_demo/waves/mk_sucl.py:192-212 | each value of tb.cyc is mapped to the least time at which tb.cyc has it and tb.rstn is 1, and left out exactly when there is none; the loop fails exactly when some change of tb.cyc to a value comes before the first change of tb.rstn |
| CycTimes.RiseIsFirst | examples/fe_demo/waves/mk_sucl.py:207-211 | the first rise of tb.rstn found inside a segment is the first time in it out of reset |
| CycTimes.FoundTimesPass | examples/fe_demo/waves/chk_sucl.py:208-213 | helper: every time found passes the checker's here/before test, and a value that is left out passes it nowhere |
| CycTimes.PassesAtChange | examples/fe_demo/waves/chk_sucl.py:208-213 | a marker that passes the here/before test stands where tb.cyc or tb.rstn changes |
| SuclChecker.CheckItems | examples/fe_demo/waves/chk_sucl.py:264-290 | the loop accepts exactly the item list, markers aside, that the checker derives on its own |
| SuclChecker.WantIs | examples/fe_demo/waves/chk_sucl.py:264-280 | what the checker expects is the first group, the markers group if there are events and a second group, and the other groups |
| SuclChecker.GroupCheckExact | examples/fe_demo/waves/chk_sucl.py:229-243 | the markers group check accepts the display exactly when no signal group is named markers |
| SuclChecker.NameExactly | examples/fe_demo/waves/chk_sucl.py:199 | helper: the name test accepts exactly c, the cycle, an underscore and a word |
| SuclChecker.MarksPass | examples/fe_demo/waves/chk_sucl.py:198-213 | helper: the markers made from the event times pass the name, number and time checks |
| SuclChecker.MarksNamed | examples/fe_demo/waves/mk_sucl.py:240-246 | the name of every marker, split at its underscores, reads c and the event's cycle in decimal, then the event's text; its time is the first time of that cycle |
| SuclChecker.AcceptedIsDisplay | examples/fe_demo/waves/chk_sucl.py:198-293 | conversely, whatever the checker accepts lists the wanted groups and signals in order, with a marker of the right name, number and time for each event and for nothing else |
| SuclChecker.CheckerAcceptsExactly | examples/fe_demo/waves/chk_sucl.py:198-293 | the item list, markers group, markers and view checks accept what the compiled file displays if and only if no group is named markers and a scenario with events has a second group and an opening view that is less than half its waveform and holds the first marker |
| SuclChecker.ViewFitsOneEnd | examples/fe_demo/waves/chk_sucl.py:214-219 | when tb.cyc changes last where the waveform ends, the view fits exactly when it is less than half the run |
| UnitPage.SplitSections | tools/gen_doc_placeholders.py:234-249 | the fence-tracking loop splits the body as specified |
| UnitPage.SplitIsWell | tools/gen_doc_placeholders.py:234-249 | the text before the first heading and the sections make up the body, and no text holds a heading outside its fences |
| UnitPage.SplitOfAssembled | tools/gen_doc_placeholders.py:234-249 | text and sections of that kind, assembled, are split into themselves |
| UnitHeads.HeadExactly | tools/gen_doc_placeholders.py:69 | the heading lines are two to six #, a gap of spaces and tabs, a name and perhaps a gap, and no others; the name is without the gaps |
| UnitHeads.TitleExactly | tools/gen_doc_placeholders.py:188-209 | the title is found exactly where a line opens with # and a space below empty lines and closed comments alone |
| UnitPage.TitleDecidedByHead | tools/gen_doc_placeholders.py:188-209 | the title line found does not depend on what is below it |
| UnitRender.RenderUnit | tools/gen_doc_placeholders.py:275-296 | the loop renders the page as specified and reports the skipped and the unlisted headings |
| UnitRender.SkippedAre | tools/gen_doc_placeholders.py:275-296 | the keys reported as skipped are those of the listed headings with written text |
| UnitRender.UnlistedAre | tools/gen_doc_placeholders.py:275-296 | the headings reported as unlisted are those the table lacks, with no written text, other than a blank one over a deeper heading |
| UnitRender.BlockIsEmptyBody | tools/gen_doc_placeholders.py:212-213 | a block with no end marker but its own counts as no written text |
| UnitWritten.EmptyExactly | tools/gen_doc_placeholders.py:67-213 | text made of blocks and of lines without a start marker is an empty body if and only if every line outside the blocks is blank |
| UnitWritten.BlockThen | tools/gen_doc_placeholders.py:212-213 | what follows a block is an empty body exactly when it is one with the block before it |
| UnitWritten.UnclosedIsText | tools/gen_doc_placeholders.py:67-213 | a block without its end marker is written text |
| UnitIdempotence.RenderIsIdempotent | tools/gen_doc_placeholders.py:275-296 | for any page with a title and a table of blocks to keep (no heading outside their fences, no fence left open, no written text), rendering the rendered page changes nothing and reports the same headings |
| UnitIdempotence.RenderKeepsWriting | tools/gen_doc_placeholders.py:275-296 | for such tables the head, the headings in order and every written text survive, up to surrounding empty lines; so does every line that is not empty of a text with anything written outside its blocks |
| UnitIdempotence.RenderedTextIsIdempotent | tools/gen_doc_placeholders.py:275-296 | for such tables a rendered page, written as text and read again, has the same lines, and rendering those changes nothing |
| UnitKept.KeptExactly | tools/gen_doc_placeholders.py:275-296 | for a table of possible headings whose blocks are not empty and have no empty lines around them, rendering the rendered page changes neither page nor reports, for every page with a title, if and only if every block is one to keep |
| UnitBlocks.FieldLinesAreLines | tools/gen_doc_placeholders.py:172-184 | the lines a field gives, after what stands before it, are the lines of the text written |
| UnitBlocks.BlockOneLine | tools/gen_doc_placeholders.py:166-184 | the lines of a generated block hold no newline, whatever the fields hold |
| UnitBlocks.BlockText | tools/gen_doc_placeholders.py:166-184 | the text of a block is its notices, the status and the sentence as paragraphs, and the links, introduced when there are any |
| UnitBlocks.TableKeptExactly | tools/gen_doc_placeholders.py:166-296 | the blocks of generated tables are of that kind, so rendering again changes nothing for every page if and only if each block is one to keep |
| UnitBlocks.EntryKeptExactly | tools/gen_doc_placeholders.py:166-184 | an entry's block is one to keep if and only if the later lines of its fields, one after the other, hold no heading outside their fences and leave no fence open, and the block reads as no written text |
| UnitBlocks.EndFreeEntry | tools/gen_doc_placeholders.py:166-213 | when no field holds an end marker, the headings and fences in the later lines alone decide |
| UnitBlocks.RenderedBlocksAreWellFormed | tools/gen_doc_placeholders.py:166-184 | helper: the block of an entry has plain lines only if and only if none of its fields, over however many lines, brings a heading, a fence or an end marker into it; this is enough for a block to keep, and not needed |
| UnitBlocks.HeadingInCovers | tools/gen_doc_placeholders.py:157-184 | an entry whose `covers` has a heading as its second line gives a page whose lines a second rendering changes |
| UnitBlocks.SomeHeadingInCovers | tools/gen_doc_placeholders.py:157-184 | so do the lines "x" and "## y." on the page of the title "# T" and the heading "## A" |
| SpecDocument.EscapedTextIsPlain | tools/mkdocs_showcase.py:425-433 | escaping names turns no text line into a fence or a heading |
| SpecLines.HeadingExactly | tools/mkdocs_showcase.py:144 | helper: a heading is one to six # followed by white space |
| SpecLines.RuleExactly | tools/mkdocs_showcase.py:145 | helper: a rule is three or more dashes and white space |
| SpecLines.FenceExactly | tools/mkdocs_showcase.py:452 | helper: a fence line is white space, three backticks and anything |
| SpecLines.IndentExactly | tools/mkdocs_showcase.py:388-389 | helper: the indentation is all the spaces the line opens with, and only those |
| SpecLines.TagExactly | tools/mkdocs_showcase.py:150 | a name in angle brackets is a letter, perhaps after a slash, and letters, digits, underscores and dashes, up to the bracket |
| SpecLines.DemotedExactly | tools/mkdocs_showcase.py:483-484 | a demoted heading is one two levels lower, six at most, with the same text |
| SpecSegments.KeepIndented | tools/mkdocs_showcase.py:436-471 | the loop with its pending paragraph keeps the document's segments, each on its own |
| SpecSegments.DemoteHeadings | tools/mkdocs_showcase.py:474-486 | the loop demotes exactly the headings outside fences |
| SpecSegments.DocumentIsShownBySegments | tools/mkdocs_showcase.py:436-486 | the segments are the document, no line lost or moved, no paragraph cut in two, and after both passes each is shown on its own: fenced lines unchanged, headings demoted, each paragraph whole in one fence pair or with its names escaped |
| SpecSegments.FencesStayInPlace | tools/mkdocs_showcase.py:452-480 | a fence is open before a segment in what is shown exactly when it is open there in the document, so fenced lines are still fenced |
| SpecShown.SegmentStands | tools/mkdocs_showcase.py:436-486 | every segment stands in what is shown, between those before and after it, as its kind says: a heading two levels lower with an empty line after it, a rule between empty lines, a preformatted paragraph in a fence between empty lines, another with its names escaped where it is indented by less than four |
| SpecShown.HeadingsAndRulesApart | tools/mkdocs_showcase.py:436-486 | in what is shown of any document, every heading outside fences is followed by an empty line and every rule stands between two, so no line above a rule is read as a heading |
| SpecNames.NamesEscaped | tools/mkdocs_showcase.py:425-433 | an escaped line holds no name in angle brackets and no pattern star outside its inline code, and its inline code is as it was |
| SpecNames.NamesTakenBack | tools/mkdocs_showcase.py:425-433 | taking a line's escapes back gives the line again if and only if it did not look escaped outside its inline code |
| SpecReadBack.DemotionTakenBack | tools/mkdocs_showcase.py:481-484 | taking a heading's demotion back gives the heading again if and only if its level was at most 4 |
| SpecReadBack.SegmentReadBack | tools/mkdocs_showcase.py:436-486 | from its kind alone, a shown segment is turned back into its document lines exactly when it is recoverable |
| SpecReadBack.DocumentReadBack | tools/mkdocs_showcase.py:436-486 | removing the added lines and undoing escapes and demotion gives the document again if and only if every segment is recoverable |
| SpecNames.NamesShownAlike | tools/mkdocs_showcase.py:431-432 | a placeholder and the same name already escaped are shown alike, so the condition is needed |
| SpecReadBack.HeadingsShownAlike | tools/mkdocs_showcase.py:483-484 | so are a level 5 and a level 6 heading |
| PlainIds.CounterDropped | tools/mkdocs_showcase.py:661 | the plain id of a name with a counter is the name, whatever the name |
| PlainIds.OnlyCounterDropped | tools/mkdocs_showcase.py:661 | an id that differs from its plain id is that with a counter |
| PlainIds.GivePlainIds | tools/mkdocs_showcase.py:653-669 | the recursive loop rewrites the page and the items as specified |
| PlainIds.PlainIsFlat | tools/mkdocs_showcase.py:659-660 | the recursion visits the items children first, like a loop over one flat list |
| PlainIds.LinksPreserved | tools/mkdocs_showcase.py:653-669 | after all the swaps a link and an id match exactly when they matched before, and nothing else on the page has changed |
| PlainIds.ItemsKeepTheirHeadings | tools/mkdocs_showcase.py:653-669 | for items with different ids that are their own headings': every item ends with its plain id exactly when some heading of the page held that at the start, and all items still have their own heading's id if and only if no item, when its turn comes, takes a name that another item has |
| PlainIds.ClashLosesHeading | tools/mkdocs_showcase.py:661-668 | an input that meets the other conditions and not that one, after which an item's id is no longer its heading's |
| Waivers.KeyNamesFile | tools/gen_sessions.py:146-152 | a file is meant by its stem and by its name with the extension md in any case, with white space around it or not |
| Waivers.BookIsLastRow | tools/gen_sessions.py:154-173 | what the table says of a file is what the last row for that file declares, in whichever of the three forms |
| Waivers.HitIsClosest | tools/gen_sessions.py:184-193 | the waiver met is the closest declared one covering the warning, the file counting before the code, and there is one exactly when any covers it |
| Waivers.Session.WaiverReason | tools/gen_sessions.py:174-193 | the reason of the exact-then-star hit on file and code, which alone is recorded as used; nothing when waivers are disabled |
| Waivers.Session.Warn | tools/gen_sessions.py:556-564 | the log after a warning is that of the run with it |
| Waivers.WarningsSplit | tools/gen_sessions.py:556-564 | helper: over any run the reported and the waived lists are, in order, the warnings without and with a reason, each waived one with that reason |
| Waivers.WarningsAccountedFor | tools/gen_sessions.py:556-564 | no warning of a run is lost or doubled |
| Waivers.StaleWaivers | tools/gen_sessions.py:227-234 | the pairs reported are exactly the declared ones that were not used |
| Waivers.HitSurvives | tools/gen_sessions.py:184-193 | deleting pairs other than a warning's own hit changes neither its hit nor its reason |
| Waivers.StaleWaiversCanGo | tools/gen_sessions.py:227-234 | after any run, deleting every stale pair changes no warning's destination or reason and leaves no stale pair |
| RunTime.Reader.Cut | tools/run_time.py:87-91 | the span held back grows by the open span, if there is one |
| RunTime.Reader.Settle | tools/run_time.py:94-100 | what is held back becomes estimated time, flagged when it is not zero |
| RunTime.Reader.Read | tools/run_time.py:103-126 | one entry takes the reader from the account before it to the account after it, and stops exactly at a typed prompt that is a command or comes before any interrupt |
| RunTime.Measure | tools/run_time.py:103-129 | the active time of a run is its turn durations plus the estimated spans, up to the first prompt that ends it; no result exactly when there is no assistant entry |
| RunTime.MillisExactly | tools/run_time.py:90 | helper: a span counts its whole milliseconds |
| RunTimeAccount.CountedOnce | tools/run_time.py:79-127 | each assistant entry is covered by a later duration before the next settle, or lies in exactly one estimated span, never both; that span is the entry's whole turn and, for entries in time order, holds the entry's time |
| RunTimeAccount.SpansAreTurns | tools/run_time.py:84-127 | every estimated span is a whole turn that no duration closed: it runs from the /run, the notification or the prompt before the turn, or, after a duration, from the first assistant entry, to the last assistant entry of the turn |
| RunTimeAccount.EstimateWithinWall | tools/run_time.py:87-127 | for entries in time order the estimated spans are disjoint and lie between start and end, so the estimate is at most the wall time |
| RunTimeAccount.TotalNear | tools/run_time.py:87-100 | for spans laid out in order the estimate loses less than a millisecond of each |
| RunTimeAccount.SaysWhenEstimated | tools/run_time.py:94-100 | the result is flagged as estimated exactly when the estimate is not zero |

## Left out

- The RTL and its tests; the source files of the front end are not part of this model.
- Subprocesses and files: git, make, fst2vcd, Surfer, cloning and pushing. Their answers are inputs; a git call that fails other than for a missing tag or HEAD, and a tag that names a tag, are not modelled.
- SHA-256 and UTF-8: the digest is the text before it is encoded and hashed.
- Text scraping by regular expressions: event tables, the `label` text, Surfer's saved state and its log, and the classification of transcript entries; the models start from what these give.
- Memory, branches and stores of renamed programs: the source renames registers only.
- Rolling the ROB back is not in the script: the undo in `RenamerState` is what its log records are for.
- The signal lists and the format table are data; the groups, names and formats are arbitrary inputs.
- `--svh`, which prints the event tables as SystemVerilog, and the staleness report, staging and printed reports of the publisher: they read what is modelled and decide nothing in it.
- `check_waiver_table`, which lists malformed waivers, the whole-page placeholders, which replace a page without sections, and the hooks that call the document passes in turn: no result here depends on them.
- The words of a status, the period `covers_line` adds and the addresses of links: a block starts from the fields these give.
- Line endings other than newline, Unicode white space, letters and digits, and whether a text ends in a newline.
- CycTimes.FindFirst: change lists have one change per time; several changes at one time are not covered. The clock period is a parameter.
- SuclChecker.CheckerAcceptsExactly: the view check is made without its divisions, because the rounding of the fractions is not modelled; how long the waveform is for Surfer is a parameter.
- PublishGate.CleanMeansUntouched: says nothing of changes with a source that only the second status letter announces, because the gate misreads them; what it reads then depends on the letters of that path.
- PublishGate.RecordedMeansUntouched: the same, for the same reason.
- SpecSegments.KeepIndented: which paragraphs are preformatted (`preformatted`, `plain_list`) is a parameter, because the results hold for every such choice.
- UnitBlocks.TableKeptExactly: a table key that no heading line can have is not covered, because the tool reports it as an error.
- PlainIds.ItemsKeepTheirHeadings: two items with one id are not covered, because the ids of a page's headings are unique.
- PlainIds.GivePlainIds: the page is a sequence of ids, links and other text, and items are values, so updating an item in place through an alias is not captured.
- Waivers.StaleWaivers: gives a set, because the sorted order of the report is not modelled; the warnings of all files of a run are one list.
- RunTime.Measure: timestamps are whole microseconds, because the rounding of seconds as floating-point numbers is not modelled.
- PublishGate.PublishRecords: the early exits are values of a result type, because no state survives them; their messages are left out.
