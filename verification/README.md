# imoogi-emacs: a verified model

This project models the parts of imoogi-emacs whose promises no finite set of examples
settles, and proves the promises for all inputs, all runs and all interleavings.
`dafny verify dfyconfig.toml` checks everything.

| part | files |
|---|---|
| marker reader, brace safety, numbers | `Cloze.dfy`, `MarkerText.dfy` |
| lines, paired blocks, blank-run collapse | `Lines.dfy`, `Blocks.dfy`, `MarkerLines.dfy`, `Collapse.dfy` |
| bullets, list walk, construct extents, exclusion | `Lists.dfy`, `ListRules.dfy`, `Constructs.dfy`, `ConstructRules.dfy` |
| swift cards | `ArrowLines.dfy`, `Swift.dfy`, `SwiftCard.dfy`, `ReadBack.dfy`, `SwiftLaws.dfy`, `SwiftLines.dfy`, `SwiftConserve.dfy`, `SwiftNumbers.dfy`, `SwiftRetoken.dfy`, `SwiftEntry.dfy` |
| multiline cards | `Answers.dfy`, `AnswerSpans.dfy`, `Multiline.dfy`, `Insertions.dfy`, `MultilineCard.dfy` |
| cards that do not read back | `CardExamples.dfy` |
| supplementary blocks | `Extra.dfy`, `ExtraText.dfy` |
| collection, registry, synchronization | `Collection.dfy`, `Ordered.dfy`, `Planner.dfy`, `PlannerSafety.dfy`, `NoteContents.dfy`, `PlannerDecisions.dfy`, `PlannerReports.dfy`, `PlannerQuiet.dfy`, `Quiescence.dfy`, `QuiescenceExact.dfy`, `Sync.dfy` |
| migration | `Migration.dfy`, `MigrationContents.dfy`, `AfterMigration.dfy` |
| runs that repeat an update | `PlannerExamples.dfy` |
| content hash | `Sorting.dfy`, `Hashing.dfy` |
| note cache | `NoteCache.dfy`, `NoteService.dfy`, `NoteAnswers.dfy`, `Scope.dfy`, `Hangul.dfy` |
| clipboard assets and transactions | `AssetFiles.dfy`, `Publish.dfy`, `PublishRoom.dfy`, `PublishAll.dfy`, `Transactions.dfy`, `SharedAssets.dfy`, `ClipboardService.dfy` |
| preview server and list tree | `Preview.dfy`, `PreviewHistory.dfy`, `PreviewReaders.dfy`, `PreviewServer.dfy`, `ListTree.dfy` |
| optional values, results, shared facts | `Basics.dfy` |

How the outside world enters. Requests to Anki, file operations and manifest writes each ask
a function of their number whether they fail, so every pattern of failures is covered (of the
clipboard's operations, removals and manifest writes have one each of their own); a failed
request changes nothing, and Anki hands identifiers out upwards. Rendering, the media
pass, the card-option gate, the content hash and the file parser of each version are
functions passed in. Concurrent handlers of the preview server are interleaved at their
critical sections. Loops of the program are loops here, over the fields or local variables
they update, each proved against the function the laws are about.

## What turned out false

Each with the condition under which the promise holds and, where it is not at once clear, a
lemma or method at an input that fails.

* A line whose first token is the two-way arrow and that ends right behind it is read as a
  leftward arrow with a side `>` (`ArrowLines.BothReadLeftward`), although the comment on the
  pattern (internal/anki/orgdoc/swift.go:70-73) says no prefix of that token is taken.
* Read-back of swift and multiline cards fails exactly when a marker the author wrote reaches
  into a side or answer that gets wrapped, or when a number exceeds the largest int
  (`SwiftLaws.SwiftReadBack`, `MultilineCard.MultilineReadBack`; failing inputs:
  `CardExamples.SwiftNotReadBack`, `CardExamples.MultilineNotReadBack`).
* The checked supplementary split fails on a balanced body exactly when some line is matched
  and the first line outside the matches that is not blank is no marker line but becomes one
  without its leading white space (`ExtraText.RejectedIff`; `ExtraText.ExposedExample`).
* A repeated synchronization is not silent when an entry needs an update and its recorded note
  was deleted in Anki: the update is sent and refused on every run
  (`QuiescenceExact.SecondRunSilentIff`; `PlannerExamples.DeletedNoteResent`).
* A migrated heading with a source link is not up to date at the next synchronization, which
  the comment at internal/anki/planner/migrate.go:226-229 promises: the migration hashes the
  fields without the link, so the next run sends the note again
  (`AfterMigration.NextSyncAfterMigration`; `PlannerExamples.MigratedHeadingResent`).
* An original that a migration could not delete is never collected by a later run, which the
  comment at internal/anki/planner/migrate.go:272-277 promises: the swap removes its record,
  a run deletes only recorded notes, and only an entry that claims the note records it again
  (`AfterMigration.SurvivorNeverCollected`).
* A source whose sanitized name is the asset cache file's is published there and then
  overwritten by the cache, unless an asset of its text is found first or the path is taken by
  another text (`PublishAll.PublishSingle`; `PublishAll.PublishNamedAsIndex`).
* Equal sources are stored twice when a link in the root shows their text: the search for an
  existing asset skips a link (internal/clipboard/publish.go:228-234), the comparison after a
  refused creation takes it (internal/clipboard/publish.go:170-182). They share a path if only
  regular files show their text there and the first is not named as the cache file
  (`PublishAll.SharePlainly`; `PublishAll.LinkPartsEqualSources`).
* A transaction commits although its assets are gone exactly when the list cleared at its
  commit names its document or an asset (`Transactions.CommitSoundIff`); only an abort that
  failed to remove published files leads there (`Transactions.CommitSound`,
  `Transactions.AbortThenReconcileLosesAssets`).
* An abort removes a file that another transaction found, used and committed, exactly when it
  is among the files the aborted one created (`SharedAssets.AbortSharedIff`,
  `SharedAssets.AbortTakesSharedAsset`).
* Of two first requests for one preview buffer the later commit replaces the view answered to
  the earlier one; a view stays exactly when no such handler is past its rendering
  (`PreviewReaders.ViewStaysIff`; `PreviewReaders.SecondCommitReplacesView`).
* Hangul composition leaves a precomposed syllable and a trailing consonant behind it apart;
  nothing else keeps the output from being fully composed (`Hangul.FullyComposedIff`;
  `Hangul.LoosePairStays`).

## Model

| member | source | states |
|---|---|---|
| SwiftLaws.SwiftReadBack | internal/anki/orgdoc/swift.go:508-581 | for every entry, Anki's non-greedy reader sees in title and composed body exactly the author's markers, each where its text went, plus one marker per wrapped side closing at its own generated braces, if and only if no author's marker reaches into a wrapped side and no number overflows |
| SwiftLaws.ReadBackExactly | internal/anki/orgdoc/swift.go:544-581 | the same law for any chain of arrow lines in any text: reading back and the checkable condition imply each other |
| SwiftConserve.SwiftConserves | internal/anki/orgdoc/swift.go:544-569 | every character outside sides, tokens and appended breaks is copied, in its order, and the number of lines is unchanged |
| SwiftLines.ComposedLineByLine | internal/anki/orgdoc/swift.go:541-570 | line by line: a line that carries no arrow stays; one that does is its indentation, its trimmed sides, the white space about the token and the escaped token, each side the token points to wrapped with its number unless it holds a marker, and behind it a break exactly when the next line carries an arrow, too |
| SwiftLines.NoCarrier | internal/anki/orgdoc/swift.go:508-527 | no arrow line is found exactly when no line carries one: not excluded, plain text, an arrow line, its token outside every marker of title and body |
| SwiftLines.ArrowSplits | internal/anki/orgdoc/swift.go:98-127 | a line read as an arrow line is two trimmed sides around its first token with only white space about them |
| SwiftLines.SnippetEscapes | internal/anki/orgdoc/swift.go:62-66 | what is shown for a token is the token in bold with its angle brackets as character entities |
| SwiftNumbers.NumbersAreConsecutive | internal/anki/orgdoc/swift.go:536-539 | the i-th arrow line owns base+2i-1 and base+2i, all distinct, while they fit an int |
| SwiftNumbers.NumbersAreFresh | internal/anki/orgdoc/swift.go:529-581 | every generated number is above every number the author wrote in title or body, and no two sides share one |
| SwiftNumbers.NumbersOverflow | internal/anki/orgdoc/swift.go:552-563 | a marker the author numbers with the largest int makes generated numbers wrap to negative ones, which are no markers |
| SwiftRetoken.ArrowsDoNotRenumber | internal/anki/orgdoc/swift.go:508-541 | replacing tokens of an entry's arrow lines leaves the entry with the same arrow lines in the same order, each with its new token between the same sides, and with the same base, so both numbers of the k-th arrow line stay; supposed that no new token merges with the text behind it and that the line stays plain text |
| CardExamples.SwiftNotReadBack | internal/anki/orgdoc/swift.go:543-581 | a title that opens a marker and a body `y}} A :<- B`: the arrow line is read and read-back fails |
| ArrowLines.RetokenedLine | internal/anki/orgdoc/swift.go:70-127 | with another token the line stays an arrow line with the new token between the same sides, unless the leftward token meets a text that starts with an angle bracket, where it is read as the two-way one or, if only white space is left behind it, not at all |
| SwiftNumbers.BaseIsHighestOfWhole | internal/anki/orgdoc/multiline.go:555-565 | the base taken fragment by fragment is the highest number of the text Anki reads |
| SwiftEntry.ComposeSwift | internal/anki/orgdoc/swift.go:591-597 | the missing-arrow diagnostic exactly when no line of the body carries an arrow; otherwise a composed body for which the read-back law holds and which is line by line what its pieces make it, with a break exactly between two neighbouring arrow lines |
| SwiftCard.ScanArrowLines | internal/anki/orgdoc/swift.go:508-527 | the scan finds exactly the lines that read as arrow lines, are not excluded, are plain text and whose token lies outside every marker's extent, in order |
| SwiftCard.ComposeArrowLines | internal/anki/orgdoc/swift.go:544-569 | the composing loop writes the text of the conservation, numbering, line-by-line and read-back laws |
| SwiftCard.WriteArrow | internal/anki/orgdoc/swift.go:553-566 | one turn of that loop writes one arrow line's left and right half |
| SwiftCard.WriteSide | internal/anki/orgdoc/swift.go:575-581 | a side is wrapped exactly when selected, not empty and free of markers |
| ArrowLines.ArrowLineSound | internal/anki/orgdoc/swift.go:98-127 | what is read as an arrow line is two non-empty trimmed sides around one token, in place |
| ArrowLines.ArrowLineComplete | internal/anki/orgdoc/swift.go:98-118 | a line with exactly two sides around a first token is read, with that token |
| ArrowLines.BothReadLeftward | internal/anki/orgdoc/swift.go:70-77 | a line whose first token is the two-way arrow is an arrow line exactly when its left side has text and it ends right behind the token or has text there; it is read as leftward, with the closing angle bracket as its right side, exactly when it ends there, which the pattern's comment excludes |
| Cloze.MarkerSpans | internal/anki/orgdoc/swift.go:141-156 | the search loop returns the spans of the one-pass reader: each opening to the first close after it, an unclosed one to the end of the text |
| MarkerText.OpeningExactly | internal/anki/orgdoc/orgdoc.go:30 | a text opens a marker exactly if it starts with two braces, the letter c, digits and two colons, and then those digits are its number |
| MarkerText.MarkedExactly | internal/anki/orgdoc/multiline.go:659-661 | a text holds a marker exactly if such an opening stands somewhere in it |
| MarkerText.SpansRead | internal/anki/orgdoc/swift.go:141-156 | each span begins with the first opening at or behind the end of the one before and ends behind the first closing braces behind that opening, or with the text; behind the last one no opening is left |
| MarkerText.HighestIs | internal/anki/orgdoc/multiline.go:555-565 | no opening of a fragment carries a number above its highest, and some opening carries that one unless it is 0 |
| MarkerText.HighestAmong | internal/anki/orgdoc/multiline.go:555-565 | over several fragments it is the highest of theirs |
| Cloze.SpansOrdered | internal/anki/orgdoc/swift.go:141-156 | marker spans are ordered, disjoint and inside the text |
| Cloze.ScanConcat | internal/anki/orgdoc/swift.go:141-156 | reading a text in two pieces that do not cut through braces gives the spans of the whole |
| Cloze.SafeTextFacts | internal/anki/orgdoc/multiline.go:538-546 | brace-safe text inside a marker first closes at the marker's own braces, and differs from the text only by added spaces |
| Cloze.AtoiDigits | internal/anki/orgdoc/multiline.go:555-565 | reading back a written number gives it, up to the saturation of the conversion |
| Cloze.HighestClozeNumber | internal/anki/orgdoc/multiline.go:555-565 | the loop over fragments and matches finds the highest number |
| Lines.SplitLines | internal/anki/orgdoc/multiline.go:148-171 | the splitting loop returns the lines of the text with their extents |
| Lines.TileAt | internal/anki/orgdoc/multiline.go:148-171 | lines lie one after another, each the stretch of text it names, only the last without a newline |
| Lines.SplitJoin | internal/anki/orgdoc/multiline.go:148-171 | splitting the text some rows make up gives the rows back |
| Blocks.PairedBlocks | internal/anki/orgdoc/multiline.go:194-222 | the nested search loops return the blocks pairing defines, and the first opening that is never closed |
| Blocks.PairsProper | internal/anki/orgdoc/multiline.go:179-222 | paired blocks are ordered and disjoint, each opened and closed by lines of one name |
| ConstructRules.BlocksPairUp | internal/anki/orgdoc/multiline.go:194-222 | pairing finds every block there is: a block closes with the first line that closes its name, openings inside a block are its text, and any other opening is closed by no later line |
| ConstructRules.PairedOnce | internal/anki/orgdoc/multiline.go:194-222 | only one choice of blocks does so |
| ConstructRules.OpenIsFirst | internal/anki/orgdoc/multiline.go:194-222 | the opening left unclosed is the first one outside the paired blocks |
| MarkerLines.BeginsExactly | internal/anki/orgdoc/multiline.go:113-114 | a line opens a block of a name exactly if it is white space, the mark in any case and word characters that spell the name in any case, and no word character behind them |
| MarkerLines.EndsExactly | internal/anki/orgdoc/multiline.go:113-114 | the same for closing lines |
| Blocks.PairsMove | internal/anki/orgdoc/multiline.go:194-222 | dropping lines that are no delimiters leaves the same blocks at the new places of their lines |
| Collapse.CollapseBlankRuns | internal/anki/orgdoc/multiline.go:257-280 | the collapsing loop writes the rows that stay |
| Collapse.BlockRegions | internal/anki/orgdoc/multiline.go:231-240 | the marking loops mark exactly the lines strictly inside a paired block |
| Collapse.CollapseKeepsPairs | internal/anki/orgdoc/multiline.go:242-280 | the collapsed body pairs to the same blocks in the same order and leaves the same opening unclosed |
| Collapse.NoRunsLeft | internal/anki/orgdoc/multiline.go:242-280 | no two neighbouring lines of the collapsed body are both collapsible |
| Collapse.CollapseIdempotent | internal/anki/orgdoc/multiline.go:242-280 | collapsing twice is collapsing once |
| Collapse.CollapsedTextIdempotent | internal/anki/orgdoc/multiline.go:257-280 | the same on texts, through splitting and joining |
| Collapse.BlocksCopied | internal/anki/orgdoc/multiline.go:251-256 | every block is copied whole, blank runs in its interior included |
| Collapse.TailCopied | internal/anki/orgdoc/multiline.go:253-256 | from an opening that is never closed everything is copied |
| Collapse.TextStays | internal/anki/orgdoc/multiline.go:242-280 | a line that is not blank always stays |
| Lists.WalkProgress | internal/anki/orgdoc/multiline.go:422-493 | the walk passes its first line and attaches exactly the lines up to the index it returns, once each and in order |
| Lists.BlanksSingle | internal/anki/orgdoc/multiline.go:430-468 | no two attached blank lines are neighbours |
| Lists.WalkLines | internal/anki/orgdoc/multiline.go:454-505 | the walking loop, nested constructs included, reports exactly those visits and that end |
| ListRules.WalkRules | internal/anki/orgdoc/multiline.go:430-505 | which lines the walk takes, as what, and why it ends: a bullet in the list's own column and of its numbering is an item; any other line is taken only if its blanks reach as far as the last item's sign; a block or environment entered there is taken whole; one blank line is taken, a second ends the list |
| ListRules.BulletRead | internal/anki/orgdoc/multiline.go:100-101 | a line cut into white space, a sign, white space and content is read as a bullet line with those offsets |
| ListRules.BulletCut | internal/anki/orgdoc/multiline.go:309-335 | every line read as a bullet line can be cut so |
| Lists.LatexEnvironments | internal/anki/orgdoc/swift.go:256-279 | the environment pairing loop |
| ConstructRules.EnvironmentsPairUp | internal/anki/orgdoc/swift.go:256-279 | environments pair up by the same rule as blocks, so by ConstructRules.PairedOnce in one way only |
| Constructs.ConstructEnd | internal/anki/orgdoc/swift.go:368-403 | on every body the recursion ends and returns a line between its start and the last line |
| ConstructRules.ConstructRuns | internal/anki/orgdoc/swift.go:368-452 | where that is: a drawer runs to its first end outside regions, a block or environment to its closing line, a source block to the end of the construct behind its result line, a list to where its walk ends, a keyword as far as its kind says, and a paragraph through the plain text below it and no further |
| Constructs.KeywordEnd | internal/anki/orgdoc/swift.go:430-452 | the same for keywords, which attach a later construct |
| Constructs.AttachedResult | internal/anki/orgdoc/swift.go:337-346 | finds the result line behind only blank lines after the block and with a line after it, exactly when there is one |
| Constructs.NonParagraphLines | internal/anki/orgdoc/swift.go:219-240 | the union of all exclusion passes: a line is excluded exactly when one rule excludes it |
| ConstructRules.ExcludedExactly | internal/anki/orgdoc/swift.go:219-240 | a line is excluded exactly when it lies in a paired block or environment, in a footnote definition, in a suppressed result, in a property drawer, or in a list, each told on the lines by the rules below |
| Constructs.ExcludeListContent | internal/anki/orgdoc/swift.go:486-498 | the list pass advances past every list it marks and stays in bounds |
| ConstructRules.ListLines | internal/anki/orgdoc/swift.go:486-498 | a line is list content exactly when a bullet line outside block interiors stands at or above it that no list begun above reaches, and its walk reaches the line |
| Constructs.ExcludeFootnoteDefinitions | internal/anki/orgdoc/swift.go:291-318 | the footnote pass marks exactly the extents of definitions opened outside regions |
| ConstructRules.NoteLines | internal/anki/orgdoc/swift.go:291-318 | a line belongs to a definition exactly when it or a line above defines outside regions and no headline, definition or second blank line outside regions stands between |
| Constructs.ExcludePropertyDrawers | internal/anki/orgdoc/swift.go:463-480 | the drawer pass marks exactly complete property drawers |
| ConstructRules.PropertiesFrom | internal/anki/orgdoc/swift.go:463-480 | every drawer of that name with property lines only is found, and nothing else |
| Constructs.ExcludeAttachedResult | internal/anki/orgdoc/swift.go:350-356 | a suppressed block's result is marked from its line to the end of the construct behind it |
| ConstructRules.ResultLines | internal/anki/orgdoc/swift.go:350-356 | a line belongs to a suppressed result exactly when a source block whose header suppresses it has a result line attached and the line stands between that and the end of the construct behind it |
| Answers.AnswerContentOffset | internal/anki/orgdoc/multiline.go:337-361 | fixed counts after unanchored matches never run past the content |
| AnswerSpans.AnswerBehind | internal/anki/orgdoc/multiline.go:337-361 | every content can be cut into as much as the first counter cookie anywhere is long, as a check box if one stands anywhere, a term to its first separator, and the answer; and however it is cut so, the offset is the length of what stands before the answer |
| Answers.GatherSound | internal/anki/orgdoc/multiline.go:378-420 | item spans are ordered, disjoint and inside the body |
| AnswerSpans.ListSpans | internal/anki/orgdoc/multiline.go:378-420 | the list begins with the line of the first bullet outside blocks; it has one item for each item line of the walk, in order; an item starts where its answer does and ends with the last of the continuation lines directly behind it, or on its own line |
| AnswerSpans.GatherSpans | internal/anki/orgdoc/multiline.go:400-420 | the same for the loop after any number of visits, with which item still grows |
| Answers.ScanAnswerList | internal/anki/orgdoc/multiline.go:363-420 | the scanning loop returns the list of AnswerSpans.ListSpans: at least one sound span behind the container's place, or nothing exactly when no bullet lies outside block interiors |
| Multiline.ComposeMultiline | internal/anki/orgdoc/multiline.go:567-648 | title and body as composed, or the missing-answer diagnostic |
| Multiline.WriteAnswers | internal/anki/orgdoc/multiline.go:609-630 | the writing loop, which skips unwrapped items, replaces every item's span by its piece |
| Multiline.UnreplacedIsText | internal/anki/orgdoc/multiline.go:609-630 | the stretches and spans make up the collapsed body when nothing is wrapped |
| Multiline.LeftwardBodyUntouched | internal/anki/orgdoc/multiline.go:60-78 | a leftward card's body is the collapsed body and the container line |
| Multiline.PieceIsOneMarker | internal/anki/orgdoc/multiline.go:538-546 | a wrapped answer is one marker of its number that closes at its own braces and keeps its text but for spaces |
| Multiline.ItemNumberFresh | internal/anki/orgdoc/multiline.go:596-643 | the number of every wrapped answer is above all the author's and below the title's |
| Multiline.TitleNumberFresh | internal/anki/orgdoc/multiline.go:634-641 | the title's number is above all the author's |
| Multiline.ItemNumbersRise | internal/anki/orgdoc/multiline.go:618-630 | the numbers of two wrapped answers rise on an incremental card and are one on another |
| Multiline.NextNumber | internal/anki/orgdoc/multiline.go:618-641 | on an incremental card that wraps answers the next wrapped answer takes the next number and the title the one behind the last; on any other all answers share the number above the author's and the title takes the one after it |
| Multiline.FirstNumber | internal/anki/orgdoc/multiline.go:605-630 | the first number is the one above the author's |
| Multiline.Asked | internal/anki/orgdoc/multiline.go:66-78 | answers are asked unless the arrow points at the title alone, the title if an arrow points at it; what is asked is wrapped unless it is empty or holds a marker |
| MultilineCard.MultilineReadBack | internal/anki/orgdoc/multiline.go:567-648 | for every entry that composes, Anki's reader sees in composed title and body exactly the author's markers, each where its text went, and one marker per wrapped answer and wrapped title, if and only if no author's marker reaches into a wrapped answer and no number overflows |
| CardExamples.MultilineNotReadBack | internal/anki/orgdoc/multiline.go:605-641 | a title that opens a marker and a one-item body that closes it: the card composes and read-back fails |
| MultilineCard.ListFramed | internal/anki/orgdoc/multiline.go:378-420 | the container line goes to the start of a line with text, and every answer ends where a line ends |
| Insertions.ReadsBackIff | internal/anki/orgdoc/multiline.go:609-648 | the same law for any text edited by wrapping stretches that end at a plain place and by inserting plain lines, wherever the stretches start |
| ExtraText.SplitExtraBlocksChecked | internal/anki/orgdoc/extra.go:78-98 | the checked split succeeds if and only if the body's marker lines alternate begin, end to an end and no mark is hidden where the rest is trimmed; then neither output holds a marker line |
| ExtraText.SplitExtraBlocks | internal/anki/orgdoc/extra.go:61-76 | the loop over the matches, their interiors trimmed and joined |
| ExtraText.RejectedIff | internal/anki/orgdoc/extra.go:17-98 | that equivalence for the split of any body; a mark is hidden when some line is matched and the first line outside the matches that is not blank is no marker line but becomes one without its leading white space |
| ExtraText.RestMarks | internal/anki/orgdoc/extra.go:74-75 | the trimmed rest starts with a mark exactly when the first such line of the body does without its leading white space |
| ExtraText.ExposedExample | internal/anki/orgdoc/extra.go:74-75 | a balanced body whose checked split fails: trimming turns a line that was no marker line into one |
| ExtraText.TrimSpaceMarks | internal/anki/orgdoc/extra.go:74-75 | trimming makes at most one new marker line, the one the text then starts with |
| ExtraText.UnmarkedUntouched | internal/anki/orgdoc/extra.go:44-66 | a body without marker lines comes back byte-identical |
| ExtraText.SplitConserves | internal/anki/orgdoc/extra.go:61-76 | the rest is the lines outside the matches, in order and whole, but for white space at its two ends; the supplement is the interiors in order, each its lines but for newlines at its two ends, empty ones dropped |
| Extra.CleanIffBalanced | internal/anki/orgdoc/extra.go:78-91 | first-fit pairing leaves no marker behind exactly when markers alternate |
| Extra.MatchesPaired | internal/anki/orgdoc/extra.go:17-33 | matches are ordered and disjoint, each from an opening to the next closing |
| MarkerLines.MarksExactly | internal/anki/orgdoc/extra.go:17-33 | a line is a mark exactly if it is blanks and tabs, the mark in any case, and anything behind it |
| PlannerSafety.RunNeverDangles | internal/anki/planner/planner.go:37-131 | the records whose note is gone are the same before, after the entries, after the census and at the end, under every pattern of failed requests; so if every registry identifier names a live note before, it does throughout |
| PlannerSafety.SweepSafe | internal/anki/planner/planner.go:83-110 | the entries lose no note and no record, touch only identifiers they claim or new ones, and leave a record whose note is gone as it is |
| PlannerSafety.DeletionSafety | internal/anki/planner/planner.go:622-748 | a note a run deletes was recorded at its start, is in no sighting of a complete scan, is excluded by no pattern at its refreshed path and is what the registry says was last written |
| PlannerSafety.NewcomersSurvive | internal/anki/planner/planner.go:46-60 | a note added or adopted in the run, or never recorded, survives it with its record |
| PlannerSafety.UnclaimedUntouched | internal/anki/planner/planner.go:281-391 | a note no entry claims is either deleted or exactly as it was |
| PlannerSafety.AddNewEffect | internal/anki/planner/planner.go:464-489 | the add path leaves one new note and its record, or neither |
| PlannerSafety.AdoptEffect | internal/anki/planner/planner.go:514-544 | adoption changes one note and records it only if fields and tags were written; what it then holds is NoteContents.AdoptWrites |
| PlannerSafety.UpdateEffect | internal/anki/planner/planner.go:551-595 | an update changes one note and its record only if fields and tags were written; the recorded path stays; what the note then holds is NoteContents.UpdateWrites |
| PlannerSafety.ConfirmAndDeleteSafe | internal/anki/planner/planner.go:692-748 | notes and records go together, only confirmed candidates, and nothing else changes |
| NoteContents.RunHolds | internal/anki/planner/planner.go:37-131 | after a whole run, whatever failed, every entry that no other claims and that is reported added or updated is in the collection as it asks: rendered fields with media and source link under the type's names, tags, deck and media files, a field it does not name as before, and a record that says so; the census and the orphan pass leave it so |
| NoteContents.ProcessStores | internal/anki/planner/planner.go:281-391 | the same for one entry in any state, whatever fails |
| NoteContents.UpdateWrites | internal/anki/planner/planner.go:551-595 | an update reported done left every field at its value, others as before, and the tags; it moved the note only if the recorded deck was another, and recorded the deck the note was moved to |
| NoteContents.AdoptWrites | internal/anki/planner/planner.go:514-544 | the same for adoption, which always moves the note and records the entry's own path |
| NoteContents.AddWrites | internal/anki/planner/planner.go:464-489 | an addition wrote the whole note into a deck that is there, with its media |
| NoteContents.UploadSends | internal/anki/planner/planner.go:759-780 | once the upload pass succeeds every file is in the collection |
| NoteContents.UploadsOnce | internal/anki/planner/planner.go:759-780 | each file this run has not sent is sent once, and no other |
| NoteContents.EnsureDeckMakes | internal/anki/planner/planner.go:254-273 | the deck is there once the step succeeds, and is created only when the run's listing did not name it |
| NoteContents.AddedIsOwned | internal/anki/planner/planner.go:692-731 | what was added is what the orphan pass takes for the program's own, if the type has the rendered names |
| NoteContents.UpdatedIsOwned | internal/anki/planner/planner.go:692-731 | so is what was updated, and moved if need be, if it has no other fields |
| PlannerDecisions.ProcessDecides | internal/anki/planner/planner.go:281-391 | every request answered, an entry takes the one branch its state selects, with its outcome and diagnostics: refused, another type recorded, up to date, fields unknown or missing, updated, adopted or added |
| PlannerDecisions.OneOutcomeEach | internal/anki/planner/planner.go:65-110 | one outcome for each entry, in order and under its key |
| PlannerDecisions.DuplicatedExactly | internal/anki/planner/planner.go:65-96 | an entry is held back exactly when another entry claims its identifier |
| PlannerDecisions.RecordsRelocate | internal/anki/planner/planner.go:608-620 | after a run every record is as the entries left it, at the path of the first sighting of its identifier if there is one |
| PlannerReports.OrphansExactly | internal/anki/planner/planner.go:629-748 | with the orphan pass answered a run deletes exactly the notes recorded at its start, seen nowhere by a complete scan, matched by no pattern at their refreshed path, and as recorded: same type and, in the recorded deck, same hash |
| PlannerReports.OrphanIssues | internal/anki/planner/planner.go:692-748 | the orphan pass says that it was suppressed, or complains once of each candidate that is not as recorded and of a refused deletion |
| PlannerReports.RunReports | internal/anki/planner/planner.go:37-131 | a run reports its entries first, in order, then one deletion for each note it deleted and no other; its diagnostics are those of the entries and then those of the orphan pass |
| PlannerReports.EntryReports | internal/anki/planner/planner.go:75-110 | a claim that others make fails on its own; an Org ID no link can carry is remarked on whatever becomes of the entry |
| PlannerReports.AddBlames | internal/anki/planner/planner.go:464-489 | an addition that stops short reports the request it stopped at: a file as a skip, a deck or the note as a failure, each with its code |
| PlannerReports.UpdateBlames | internal/anki/planner/planner.go:551-595 | the same for an update |
| PlannerReports.AdoptBlames | internal/anki/planner/planner.go:514-544 | the same for an adoption |
| PlannerReports.DecksListedOnce | internal/anki/planner/planner.go:254-273 | the decks are listed at most once in a run |
| PlannerReports.FieldsAskedOnce | internal/anki/planner/planner.go:191-236 | a type's field names are asked for at most once in a run that gets them |
| PlannerReports.LinkAppended | internal/anki/planner/planner.go:396-440 | the source link is appended to the back field of its shape if the Org ID may enter a link, and every other field stays |
| PlannerReports.LinkReadsBack | internal/anki/planner/planner.go:396-440 | the identifier in the link decodes to the Org ID |
| PlannerReports.LinkPlain | internal/anki/planner/planner.go:396-440 | nothing in the written identifier could end the link |
| PlannerReports.RenderedLike | internal/anki/planner/planner.go:442-456 | the program's own types are rendered like the stock ones they replace and any other type as itself, so a note that is migrated keeps its form |
| PlannerReports.OrgIdsExactly | internal/anki/protocol/protocol.go:146-157 | an Org ID may enter a link exactly if it has 1 to 128 characters, all letters, digits or one of five signs |
| PlannerReports.ExcludedExactly | internal/anki/planner/planner.go:657-682 | a pattern excludes a path exactly if it is not empty and stands somewhere in it |
| PlannerQuiet.SweepSettles | internal/anki/planner/planner.go:281-391 | after entries processed without a failed request each is settled: processing it again would ask for nothing that changes anything |
| PlannerQuiet.OrphansSettle | internal/anki/planner/planner.go:707-746 | after a complete scan with every request answered a candidate's record stays exactly when its note is gone or unowned; owned notes that are there lose theirs |
| Quiescence.SecondRunSilent | internal/anki/planner/planner.go:37-131 | after a run without a failed request the next run on the written-back entries and the matching census sends no mutating request, whatever fails in it, and leaves registry and collection as they are; recorded notes deleted by the user, duplicates, unowned candidates and skipped entries may be present |
| QuiescenceExact.SecondRunSilentIff | internal/anki/planner/planner.go:37-131 | if both runs are answered the second changes nothing exactly when every entry that alone claims a recorded note finds it there or is up to date: otherwise its update is sent, and refused, on every run |
| PlannerExamples.DeletedNoteResent | internal/anki/planner/planner.go:551-595 | an entry with a changed field and its recorded note deleted: the second of two answered runs is not silent |
| QuiescenceExact.StaysUnreachable | internal/anki/planner/planner.go:551-595 | an entry that needs an update and whose recorded note is gone is so after the run, too |
| Quiescence.StillDuplicated | internal/anki/planner/planner.go:65-96 | entries that share an identifier still share it after the write-back |
| Quiescence.CandidatesUnowned | internal/anki/planner/planner.go:629-731 | what the next run would ask about was asked about before and found gone or unowned |
| Sync.Runner.Run | internal/anki/planner/planner.go:37-131 | the whole run over client, registry and session memory does what the run function says and leaves the same records without a note |
| Sync.Runner.RunEntries | internal/anki/planner/planner.go:75-110 | the loop over entries with its count of claimants |
| Sync.Runner.ProcessEntry | internal/anki/planner/planner.go:281-391 | gate, render, media, link, hash, then one of the five branches |
| Sync.Runner.AddNewNote | internal/anki/planner/planner.go:464-489 | uploads, deck, note, record, in this order |
| Sync.Runner.Reconcile | internal/anki/planner/planner.go:499-544 | adopt a matching note, else add |
| Sync.Runner.UpdateNote | internal/anki/planner/planner.go:551-595 | the requests of an update in order, as the update function NoteContents.UpdateWrites speaks of: fields, tags, and the deck move only when the deck differs |
| Sync.Runner.ResolveFields | internal/anki/planner/planner.go:191-236 | one lookup per note type and run |
| Sync.Runner.EnsureDeck | internal/anki/planner/planner.go:254-273 | one deck listing per run, creation only of decks not known |
| Sync.Runner.UploadMedia | internal/anki/planner/planner.go:759-780 | each stored name is sent once per run |
| Sync.Runner.ReconcileSourcePaths | internal/anki/planner/planner.go:608-620 | every recorded identifier the census reports gets its first sighting's path |
| Sync.Runner.ComputeCandidates | internal/anki/planner/planner.go:629-649 | the records of before the run that no sighting reports and no pattern excludes, by identifier |
| Sync.MatchesAnyExclusion | internal/anki/planner/planner.go:657-682 | a path is excluded exactly when a non-empty pattern occurs in it |
| Sync.Runner.ConfirmAndDelete | internal/anki/planner/planner.go:692-748 | confirm, delete in one request, then forget |
| Sync.Runner.Migrate | internal/anki/planner/migrate.go:40-89 | the migration loop; a dry run only counts |
| Sync.Runner.MigrateOne | internal/anki/planner/migrate.go:177-292 | add, confirmed delete, swap, each early return a skip |
| Migration.MigrateNeverDangles | internal/anki/planner/migrate.go:40-89 | migration cuts no record off from its note, never shrinks collection or registry and leaves unrecorded notes as they were, under every pattern of failures |
| Migration.MigrateOneEffect | internal/anki/planner/migrate.go:166-292 | one migration adds a note, moves the record and removes at most the owned original, or stores nothing |
| MigrationContents.MigratesAs | internal/anki/planner/migrate.go:166-292 | whatever fails, a migration reported done left a note of the program's own type with the rendered fields, the heading's tags, its deck and media, and the record of it under the new identifier |
| MigrationContents.MigrateDecides | internal/anki/planner/migrate.go:166-292 | every request answered, a note that is taken up is replaced exactly when its card renders under the new type, and the original goes exactly when it still is what its record says |
| MigrationContents.TargetExactly | internal/anki/planner/migrate.go:91-140 | a note is taken up exactly when it is recorded under a stock type and its heading declares that type or the one it is moved to |
| PlannerReports.MigrationReports | internal/anki/planner/migrate.go:40-164 | nothing is said of an entry the migration has no business with, a type that cannot be moved is complained of, and a dry run counts |
| PlannerReports.MoveReports | internal/anki/planner/migrate.go:272-292 | a move that was made complains under the entry's key exactly if the original is still there |
| Migration.DryRunTouchesNothing | internal/anki/planner/migrate.go:62-79 | a dry run issues no request and changes nothing |
| Migration.DryRunForetells | internal/anki/planner/migrate.go:53-79 | with distinct identifiers the dry run names exactly the entries the real run will try, however that run goes |
| Migration.MigrationConverges | internal/anki/planner/migrate.go:91-118 | a migrated entry is no candidate again under either type name |
| AfterMigration.NextSyncAfterMigration | internal/anki/planner/migrate.go:226-230 | after a migration that added its note, processing the rewritten heading, rendered alike under both type names and with every request answered, issues an update exactly when a source link is appended to its fields, and else changes nothing: the migration hashes the fields without the link; supposed that the hash tells the two apart |
| AfterMigration.UpToDateAfterMigration | internal/anki/planner/migrate.go:226-230 | after such a migration the rewritten heading is up to date exactly when no source link is appended |
| AfterMigration.SurvivorNeverCollected | internal/anki/planner/migrate.go:272-292 | an original that survived its migration has lost its record; the next run does not delete it and gives it no record unless an entry claims it |
| PlannerExamples.MigratedHeadingResent | internal/anki/planner/migrate.go:226-230 | a heading with an identifier and a link target is migrated and sent again by the next synchronization |
| Collection.Registry.All | internal/anki/registry/registry.go:96-103 | all records, sorted by identifier |
| Collection.Registry.Put | internal/anki/registry/registry.go:109-111 | one record added or replaced under its own identifier |
| Collection.Client.NotesInfo | internal/anki/ankiconnect/client.go:319-352 | answers aligned with the identifiers asked about |
| Hashing.CanonicalTellsApart | internal/anki/hashing/hashing.go:14-72 | two notes get one byte string exactly when type, fields and deck are equal and tags are equal counted but not ordered, if field names hold neither separator and the other parts no terminator |
| Hashing.ValuesCollide | internal/anki/hashing/hashing.go:48-56 | that condition is needed: for any two field names that follow each other and any texts, a value holding what the string writes between two values can be cut there or not, with the same string |
| Hashing.Build | internal/anki/hashing/hashing.go:37-72 | the builder loops write that byte string whatever order the map gives its names in |
| NoteCache.HistoryCoherent | internal/notecache/service.go:16-113 | after any history of runs, edits, deletions, unsaved texts, parser versions and failed saves a run answers from the rows that parsing every scanned file from scratch would give |
| NoteCache.HistoryValid | internal/notecache/store.go:223-321 | after any such history every stored row is valid for the stamped parser version |
| NoteCache.SaveKeepsValid | internal/notecache/store.go:223-321 | a save leaves only rows valid for the version it stamps |
| NoteCache.UnsavedNeverStored | internal/notecache/service.go:65-81 | unsaved text is never stored |
| NoteCache.VanishedGone | internal/notecache/store.go:257-275 | a path the scan did not find leaves no row |
| NoteCache.ScanCoherent | internal/notecache/service.go:68-101 | the loop's rows over a valid cache are those of parsing from scratch |
| NoteCache.WarmRun | internal/notecache/service.go:82-107 | a second run on the same files parses only files with unsaved text and leaves the tables unchanged |
| NoteCache.LoadAfterUpsert | internal/notecache/store.go:174-221 | a stored row comes back field by field, in the same order |
| NoteCache.FreshRowNormal | internal/notecache/parse.go:375-388 | sorting puts a parsed file into the order the queries return, so a stored row comes back as it was |
| NoteCache.FreshRowTells | internal/notecache/service.go:79-101 | a row parsed from scratch holds the parser's document and each of its occurrences and links as often as the parser gives them, in ascending order; only the file of tasks is parsed as tasks, and every other file as a document |
| NoteAnswers.StoredTells | internal/notecache/store.go:174-321 | after a save the stored row of every scanned file without unsaved text tells so what its text on disk parses to |
| NoteAnswers.TellsInOrder | internal/notecache/parse.go:375-388 | that order told on the texts: occurrences by identifier and position, links by file and position |
| NoteAnswers.HitsCounted | internal/notecache/service.go:65-107 | the hits counted are the files whose row of this parser version and text is stored and that have no unsaved text |
| NoteAnswers.LastOverlayCounts | internal/notecache/service.go:16-64 | of several unsaved texts for one path the last one counts |
| NoteService.Run | internal/notecache/service.go:16-113 | each row tells what the parser makes of the file's current text, and the rows are those of parsing from scratch and valid tables after; a failed version read, a cancelled context, a failed row read or a failed save ends the run with the tables unchanged |
| NoteService.ScanFiles | internal/notecache/service.go:68-101 | the hit, parse, overlay and invalidate decisions per file, up to the first failed read or the cancellation |
| NoteService.Store.Load | internal/notecache/store.go:174-221 | the row stored for the path, if its recorded hash is the one asked for |
| NoteService.Store.Save | internal/notecache/store.go:223-321 | one transaction: all of its effects or none |
| NoteService.FillResponse | internal/notecache/service.go:405-452 | exactly the documents and links that pass the operation's filter, each as often as the rows hold it, sorted by file and position, and every occurrence under its identifier in order |
| NoteAnswers.ResponseAnswers | internal/notecache/service.go:405-452 | that answer told on the rows: a lookup with an identifier gets the documents and occurrences of that identifier and the links from it or to it, backlinks with an identifier the links to it, every other request all; documents by the file shown, links by the file shown and the position |
| Scope.ScopesApart | internal/notecache/service.go:273-282 | two scopes share a database name's input only if they are the same scope, so the parser's flags depend on the path |
| Sorting.SortAscending | internal/notecache/parse.go:375-388 | sorting by an order that tells the elements apart is strictly ascending |
| Sorting.SortKeeps | internal/notecache/parse.go:375-388 | sorting keeps every element as often as it was there |
| Sorting.BelowExactly | internal/notecache/parse.go:375-388 | one text sorts before another exactly when behind a common start it ends or has the smaller character |
| Hangul.ComposeHangul | internal/notecache/unicode.go:20-49 | the loop composes as the recursive rule says |
| Hangul.ComposeKeepsJamo | internal/notecache/unicode.go:20-49 | the full jamo decomposition is unchanged |
| Hangul.NothingOpen | internal/notecache/unicode.go:20-49 | no leading consonant before a vowel is left |
| Hangul.ComposeIdempotent | internal/notecache/unicode.go:20-49 | composing twice is composing once |
| Hangul.FullyComposedIff | internal/notecache/unicode.go:26-31 | the output is fully composed exactly when no precomposed syllable of the input was followed by a trailing consonant it lacked |
| Hangul.LoosePairStays | internal/notecache/unicode.go:26-31 | the syllable U+AC00 and the trailing consonant U+11A8 stay apart |
| Hangul.ComposedUnique | internal/notecache/unicode.go:16-18 | fully composed texts with the same jamo are the same text |
| PublishAll.PublishPaths | internal/clipboard/publish.go:40-90 | existing files are never altered; a failure with nothing reported left behind restores the tree, and a root that is not admitted changes nothing; if nothing fails but removals, the sources are within the limits and the root has room, it succeeds, and the cache file it writes then knows every asset as it is; on success equal sources share a path if nothing but regular files shows their text in the root and the first's sanitized name is not the cache file's; and if no source's sanitized name is that, every asset holds its recorded content |
| PublishAll.SharePlainly | internal/clipboard/publish.go:126-250 | that sharing, for any completed publication |
| PublishAll.LinkPartsEqualSources | internal/clipboard/publish.go:170-234 | a link in the root that shows the text of two equal sources under the first one's name: the first goes to the link, the second to a file of its own |
| PublishAll.PublishNamedAsIndex | internal/clipboard/publish.go:65-88 | a source named as the cache file, published into an empty root, is lost |
| PublishAll.KeptOffIndex | internal/clipboard/publish.go:65-88 | an asset holds its recorded content unless it went to the cache file's path, which only a source of that sanitized name can |
| PublishAll.PlaceAll | internal/clipboard/publish.go:65-79 | the placing loop: what was created, and where each source went |
| PublishAll.Compensate | internal/clipboard/publish.go:322-330 | removes in reverse order, and what is not reported is gone |
| PublishAll.Preflight | internal/clipboard/publish.go:97-124 | accepts exactly non-empty lists of regular files within all three limits, if every file can be looked at |
| PublishAll.PublishSingle | internal/clipboard/publish.go:126-217 | a published source that is no cache text is lost exactly when its sanitized name is the cache file's, no asset of its text is there, and that path is free or holds the same text |
| Publish.CandidateNotIndex | internal/clipboard/publish.go:160-168 | no later candidate name is the cache file's |
| Publish.Publisher.FindExistingAsset | internal/clipboard/publish.go:219-250 | with a valid cache the lookup by size and time answers as hashing every file would: the first regular file of that content, or none |
| Publish.Publisher.PublishOne | internal/clipboard/publish.go:126-217 | one asset placed, at most one new file, the tree restored on failure unless the half-written file could not be removed; if nothing fails but removals it succeeds exactly when an asset of the text is there or one of the names is to be had, and takes the first such name; it lands on the cache file's path only under that condition, and always under it if reads succeed |
| Publish.AssetCache.Record | internal/clipboard/publish.go:252-261 | recording keeps the cache right about the files and, if the file can be looked at, knows the file recorded as it is |
| Publish.Publisher.KnownHash | internal/clipboard/publish.go:234-245 | the hash of the file's text; without any operation if the file is recorded as it is, and recorded so afterwards |
| PublishRoom.RoomForAny | internal/clipboard/publish.go:160-217 | a root with fewer than 10000 names has room for any source |
| PublishRoom.CandidatesDiffer | internal/clipboard/publish.go:160-168 | no two of the names tried for a source are equal |
| PublishRoom.CandidateParts | internal/clipboard/publish.go:160-168 | a later name is the stem, a dash, the number, and the extension from the last dot on |
| PublishRoom.NameCleaned | internal/clipboard/publish.go:332-344 | the stored name is the source's without the white space around it, each slash, backslash and control character a dash, and a fixed one for a name of no use |
| PublishAll.NeverStuck | internal/clipboard/publish.go:65-88 | a publication within the limits into a root with room for all its sources meets no source it cannot place |
| Publish.LoadAssetCache | internal/clipboard/publish.go:263-279 | a readable cache file is taken over, an unreadable text counts as none |
| Transactions.CommitSound | internal/clipboard/service.go:85-415 | on every run with destinations outside the staging root in which aborts of a transaction with a document leave nothing outside it, a committed manifest's assets exist with size and hash and its document references each, whatever edits came before the commit and whatever failed |
| Transactions.CommitSoundIff | internal/clipboard/service.go:85-350 | the step that commits a manifest commits the truth exactly when the list it clears names neither the document nor an asset outside the cache file |
| SharedAssets.SharedCommitSound | internal/clipboard/service.go:85-415 | any number of transactions over the same files, which may share assets: at every moment of every careful run all committed manifests tell the truth |
| SharedAssets.OthersKept | internal/clipboard/service.go:85-350 | what any step of another transaction but an abort does keeps every file outside the staging root that is no cache file |
| SharedAssets.AbortSharedIff | internal/clipboard/service.go:352-390 | an abort that removes all it lists leaves another committed manifest true exactly when it lists neither that one's document nor an asset of it |
| SharedAssets.AbortTakesSharedAsset | internal/clipboard/service.go:352-390 | from no transactions at all a careful run leads to a committed manifest with an asset another transaction created; aborting that one removes the asset from under the committed manifest |
| Transactions.AbortThenReconcileLosesAssets | internal/clipboard/service.go:299-390 | an abort that could remove nothing, followed by reconciliation, commits a manifest whose assets are deleted |
| Transactions.AtMostFourChanges | internal/clipboard/staging.go:136-154 | whatever happens a transaction changes its state at most four times |
| Transactions.StepRaises | internal/clipboard/staging.go:85-154 | every change of state is an allowed one, comes from where such a change can come from, and raises the rank |
| Transactions.AllowedExactly | internal/clipboard/staging.go:136-154 | which states a transaction comes from when it gets to each: only a saved or listed one is committed, only a prepared one saved, and no closed one changes |
| Transactions.ReferencedExactly | internal/clipboard/service.go:392-415 | a document refers to an asset exactly if the asset's name, as it is or escaped, stands somewhere in it |
| ClipboardService.Service.Commit | internal/clipboard/service.go:85-130 | one commit step: verify, clear staging, close or list what is left; if reads succeed the outcome is told whatever removals and the one manifest write do: a saved manifest that tells the truth is closed and answered with success if all is removed and the write succeeds, and lists the orphans if not |
| ClipboardService.Service.Finalize | internal/clipboard/service.go:236-288 | one finalize step: publish, record, or take back; an owner that cannot be resolved is refused and nothing changes; if nothing fails but removals and manifest writes, a staged transaction within limits and room is prepared at the owner's root, or taken back when the first write fails, orphans being recorded by the second |
| ClipboardService.Service.RecordPrepared | internal/clipboard/service.go:268-286 | what was published is recorded as prepared, or else taken back, and what cannot be is recorded by a second write |
| ClipboardService.Service.Reconcile | internal/clipboard/service.go:299-350 | one reconcile step; if reads succeed, a manifest that tells the truth and needs it is cleaned up and closed or lists what is still left, and any other is reported as it is |
| ClipboardService.Service.Abort | internal/clipboard/service.go:352-390 | one abort step: assets, created files and staging are removed; a clean abort keeps the orphans recorded before, any other records what is left; if reads succeed, which of the two, the new manifest and the answer are told for every pattern of failing removals and writes |
| ClipboardService.Service.ImportPaths | internal/clipboard/service.go:175-218 | one import step for a staging owner, with its recovery record; for any other owner a publication that keeps what others committed; none for an owner that cannot be resolved; if nothing fails but removals and manifest writes, paths within limits and room are published and, for a staging owner, recorded, or taken back with the orphans recorded by a second write |
| ClipboardService.Service.RecordStaged | internal/clipboard/service.go:199-217 | what was published in staging is recorded, or else taken back, and what cannot be is recorded by a second write |
| ClipboardService.Service.SaveDocument | internal/clipboard/service.go:220-234 | the document-saved transition: a prepared or saved transaction is saved if the write succeeds, any other refused |
| ClipboardService.Service.VerifyPreparedManifest | internal/clipboard/service.go:392-415 | accepts only a manifest whose document and assets are as recorded, and always such a one if reads succeed |
| ClipboardService.Service.Transition | internal/clipboard/staging.go:85-111 | allowed transitions only; a refused or failed one changes nothing; with the right token and if reads succeed an allowed one happens exactly if the write succeeds |
| ClipboardService.Service.Prepare | internal/clipboard/staging.go:113-134 | the prepared manifest in one atomic write |
| Preview.BuffersWhole | internal/orgpreview/server.go:792-808 | in every interleaving each buffer's document, HTML, view and rendering handles come from one request, every handle is the digest of the stored view and its path, and stamps tell buffers apart |
| Preview.RevisionsGrow | internal/orgpreview/server.go:232-303 | no interleaving lowers a stored revision, a stamp or the set of seen events |
| Preview.StampsIncrease | internal/orgpreview/server.go:792-808 | each commit is stamped above all commits before it and stores its own request |
| PreviewHistory.LastCommitHolds | internal/orgpreview/server.go:232-303 | in every interleaving a buffer holds what the last commit to it stored, but for handles registered since |
| PreviewHistory.CommitEffect | internal/orgpreview/server.go:792-808 | a commit goes through exactly when no newer revision is stored, stores the request's own document, rendering and handles, and touches no other buffer; else nothing changes |
| PreviewHistory.HandlerEffect | internal/orgpreview/server.go:232-303 | a handler gets past its check exactly when no newer revision is stored and its text parses, is rendered under the view the buffer has by then or else a new one, and commits once |
| PreviewHistory.RegisterEffect | internal/orgpreview/server.go:754-769 | a registered path is added to the handles of its buffer, and nothing else changes |
| PreviewHistory.SeeEffect | internal/orgpreview/server.go:843-852 | an event is remembered for its session, and nothing else changes |
| Preview.PassesOnce | internal/orgpreview/server.go:843-852 | an event identifier passes once per session |
| Preview.HandleLeadsHome | internal/orgpreview/server.go:754-774 | a stored handle is the digest of the stored view and its path, registered paths included |
| PreviewReaders.ReaderLeadsHome | internal/orgpreview/server.go:736-752 | a handle looked up outside the lock, in a buffer picked earlier, leads only to a path it is the digest of with that buffer's view, whatever was committed or registered in between |
| PreviewReaders.ViewStaysIff | internal/orgpreview/server.go:263-303 | a view a buffer is stored under stays its view whatever follows exactly when no handler past its rendering comes with another view and a revision that is not stale |
| PreviewReaders.SecondCommitReplacesView | internal/orgpreview/server.go:263-303 | two first requests rendered before either commits: the second commit replaces the view the first was answered with |
| PreviewServer.SharedState.CommitRevision | internal/orgpreview/server.go:792-808 | the commit section |
| PreviewServer.SharedState.RegisterBrowserPath | internal/orgpreview/server.go:754-769 | a registered path is found under the handle returned |
| PreviewServer.SharedState.AssetHandlePath | internal/orgpreview/server.go:736-752 | a handle handed out leads to the one path of which it is the digest under the stored view |
| PreviewServer.SharedState.MarkSeen | internal/orgpreview/server.go:843-852 | the first sight of an event, and only that, passes |
| PreviewServer.SharedState.IsStale | internal/orgpreview/server.go:232-244 | the stale check before parsing |
| ListTree.ListDepths | internal/orgpreview/list.go:33-58 | the stack pass gives every item the number of its ancestors, each the nearest item before with less indentation |
| ListTree.DepthsShaped | internal/orgpreview/list.go:33-58 | depths start at 0, rise by at most one, and an item's parent is the last item before it that is less deep |
| ListTree.TreeComplete | internal/orgpreview/list.go:60-83 | from depth 0 the recursive pass takes every item, in order, each at its own depth |
| ListTree.BuildListLevel | internal/orgpreview/list.go:60-83 | the recursion over the shared index ends, advances and builds that level |
| ListTree.BuildList | internal/orgpreview/list.go:27-31 | the outline of the built tree is the items with their depths, from the first start to the last end; every level says its depth and runs from its first item's start to its last one's end or to the end of what is nested under that |

## Left out

- Org, HTML, SQLite, SHA-256 and regular-expression engines: functions, line classes or tables.
- HTTP, WebSocket and event-stream plumbing, authorization, process and clipboard adapters, command-line dispatch, logging.
- Note parsing (internal/notecache/parse.go:42-219): a function per parser version. Two links of one file are assumed to have different positions, which a first-occurrence search does not guarantee for equal links on one line.
- Field-name matching (internal/anki/planner/planner.go:208-235): a function of the model's names and the fields; the ties the map order would break cannot arise from the field names the renderer produces.
- Card-option validation (internal/anki/planner/card_options.go:1-150): a function of the card that rejects or accepts.
- A failed deck move leaves a recorded deck and content hash that describe different states; the laws about the orphan pass speak of what the registry recorded.
- That an unedited note is as recorded, and so deleted once its heading is gone, needs the note type to have the rendered field names: NoteContents.AddedIsOwned and NoteContents.UpdatedIsOwned suppose it.
- ConstructRules.ExcludedExactly: supposes of the patterns that a footnote definition and a headline are not blank and that the end of a drawer opens no property drawer.
- Multi-client interference: Anki, the files and the cache are changed by nobody else during one synchronization, publication or indexing run; edits between them are covered where a row says so.
- File sizes and time stamps stored with cached notes, and the cache's generation number: nothing modelled here reads them.
- The scan of the notes directory, symbolic links and path containment: the scan is the list of files it found, with distinct paths.
- The order of documents and links with equal display paths in a response: the program's sort leaves it open.
- Registry files on disk: loading and saving of records, the atomic replacement.
- Asset identifiers, MIME types, staging session directories, leases and pruning.
- Names of list nodes in the preview and the items' own content.
- NoteService.Store.Save: a failing statement is modelled by its effect, that nothing is committed.
- SharedAssets.SharedCommitSound: transactions take turns operation by operation; two operations at work on the same directory at one moment are not interleaved.
- PublishAll.PublishPaths: directories made for a root stay when a later step fails; the model has only files. The temporary file of the cache save is assumed to be removed by its deferred cleanup.
- Transactions.CommitSound: other transactions enter as steps that keep files outside the staging root; that their steps do so, and which aborts do not, is SharedAssets.SharedCommitSound. Assets at the path of a cache file are exempt after the commit, because a later publication rewrites that file.
- Multiline.ItemNumberFresh: supposes that numbers stay below the largest int; above it they wrap as in the swift card. So does Multiline.TitleNumberFresh.
- Answers.AnswerContentOffset: counts characters where the program counts bytes (internal/anki/orgdoc/multiline.go:345-361), so a cut inside a character of several bytes is not represented.
- SwiftRetoken.ArrowsDoNotRenumber: whether a line with another token is still plain text to the Org parser is that parser's matter and supposed; a new token that merges with the text behind it is ArrowLines.RetokenedLine.
- NoteCache.ProperParsers: a file's parsed identifiers are assumed to occur at different positions, so that no two occurrences of one identifier are equal.
- AssetFiles.FileSystem.Valid: a file written gets a time stamp no earlier file has, so a change of content within the clock's resolution is not represented.
- Preview.StampsIncrease: the parser, asset resolver and token generator may fail, which only ends a handler.
