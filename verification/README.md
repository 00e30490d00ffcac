# Proofs about proxpass

proxpass gives SSH users consoles and files on Proxmox guests. This project models the parts of it
whose correctness is least obvious from the code, and proves what those parts are for. It is checked
with `dafny verify dfyconfig.toml` (Dafny 4.11); nothing here runs proxpass itself.

The project has five groups of modules, one module a file.

* **The list filter as a compiler with two back ends.** A nested JSON filter is flattened into a linked
  token list and walked by one generic traversal, which either prints SQL with positional arguments or
  judges rows in memory (`FilterJson`, `FilterTokens`, `FilterTokenList`, `FilterWalk`, `FilterSql`,
  `FilterMatch`).
  The printed text is a sequence of lexemes; `SqlSemantics` has a parser for it (NOT over AND over OR,
  with parentheses) and `QueryReader` a reader of its characters, and neither shares code with the printer.
  `FilterSimulation`, `FilterMeaning`, `FilterAcceptance`, `FilterOrder`, `AccessFilter`, `AccessLaws`,
  `Rebind` and `QueryText` connect text, arguments and rows to the JSON tree. The truth of one comparison on
  one row is a parameter (`I`) shared by both back ends; `FilterLeaves` gives it from SQL's LIKE and proves
  that the two agree, and `FilterSpelling` spells out what each operator of the language does. The web
  console's filter builder prints and reads the same language (`FilterBuilder`, `BuilderRoundTrip`,
  `BuilderMeaning`, `BuilderReading`).
* **The status bar and its stream observer.** An incremental scanner with a bounded carry drives a bar
  that shares one terminal's scroll region, cursor and save slot with a guest nobody controls
  (`ModeFilter`, `ModeReading`, `BarLayout`, `StatusBar`, `Terminal`). The terminal has a parser and readings
  of its own: it keeps the sequence it has read a part of, and the bar's output, which starts with ESC,
  cancels it. `BarRuns`,
  `BarCursor` and `BarCache` are about every run of guest output, resizes, text changes and repaints in
  any order; `BarLimits` has runs from Start on which one of them, or of their conditions, fails. What a
  guest item does to cursor, region and bottom row is an arbitrary `Effect`, except for switches of screens
  and origin mode, margins, resets, saves, restores and erasures, which the terminal carries out itself.
* **The guest-helper protocol and its transfers.** Length-prefixed framing, a client that closes itself
  on transport failure, the helper's request loop, and chunked reads and writes of remote files
  (`Framing`, `HelperOps`, `HelperClient`, `HelperServer`, `Transfer`). Header encoding is a codec that
  decodes what it encoded; a file is a sequence of bytes.
* **The picker.** Stable in-place sorting, fuzzy filtering, and every run of keystrokes and resizes
  (`StableSort`, `PickerRows`, `PickerOrder`, `FuzzyMatch`, `PickerFilter`, `Picker`, `PickerRuns`).
* **Store algorithms and target resolution.** One-shot tokens (`TokenStore`, `TokenRuns`), name folding
  (`FoldNames`), discovery reconciliation and access rules (`Reconcile`, `ReconcileLaws`), and targets
  typed by users (`Resolve`, `ResolveLaws`).

Code that updates state in place is a class whose methods are proved equal to a specification function,
and the properties are proved about that function. Where a promise turns out not to hold of the code,
the model keeps the code and states exactly when it does:

* Printed SQL parses exactly when no logical array is empty: `joinGroup` prints `()` for one.
* A chunk of console output may be observed on its own, whatever follows, exactly when the unfinished
  sequence it ends in is at most 64 bytes long.
* The bar and the terminal stay in step exactly while no unfinished sequence is divided: the bar must not
  write into one, and it must not exceed 64 bytes (`FollowsExactly`). Nothing in the program checks the
  former: an erase followed by the start of a switch of screens makes the bar repaint inside the switch.
* They read the same sequences exactly when no control character interrupts one (`ReadersAgree`), and
  agree on origin mode exactly when no mode list that names an alternate screen sets it first
  (`TrackRun`).
* A guest's restore lands on its last save in that buffer exactly when no write of the bar has gone
  through the buffer's slot since, or the cursor then stood there (`RestoresExactly`, in every run). The
  bar keeps out for a second, unless the guest restores in either buffer: after that a repaint, a resize
  or any region it sets again takes the slot, also that of the other buffer.
* While the bar is hidden a full-screen program's own region survives a write exactly when the observer
  reports nothing of it, or the region was the whole screen (`HiddenRegion`).
* The remembered text survives the guest's next letter exactly when the cursor is above the bar's row, and
  a shrinking window can leave it on that row.
* BuildWhere and Match are meant to accept the same filters. On a row with all columns they do exactly
  when every operator is known: Match takes an unknown one for a comparison that fails.
* The comparisons that match parts of texts are escaped for a LIKE with backslash as its escape character.
  The queries declare none: on a database without a default one they compare as named, for every column
  text, exactly when the text asked for has no wildcard and no backslash.
* The filter builder's comment says that the panel never misrepresents a filter. It tells the truth about a
  field exactly when the field is not a `$nor` of one condition, which it shows as that condition; and a
  negation written `$NOT` beside one written `$not` is not shown at all.
* A message whose Len does not announce its payload is not read back. A message cut short looks like the
  proper end of the stream exactly when it is cut after the length or after the header.
* A read at a negative offset delivers every file of a given size as asked exactly when one chunk is
  enough: the helper seeks to positive offsets only, while the client counts on from the negative one.
* The comments on the picker's scoring say that skipping characters costs points, so that a tight match
  outranks a scattered one. Every gap is worth nine points too many, because `prevMatched` is never reset:
  the score is the one meant exactly when the match has no gap.
* The comment on the filter builder says that the first joining row sets a field's combiner. The last
  one does; they agree exactly when both rows carry the same join.
* Sweeping expired tokens is invisible exactly when no insert reuses the hash of an expired row, while
  the clock does not run backwards. Under any clock it is invisible exactly when, besides, no swept row is
  asked for at a time before it expires.
* Checking names for collisions before folding them predicts the database constraint exactly when
  folding twice is folding once.

## Model

| member | source | states |
|---|---|---|
| FilterTokenList.Tokenize | internal/filter/filter.go:89-113 | the linked list built by appending, nested lists included, holds exactly the flattened tree, or the error is the tree's |
| FilterTokenList.TokenList.Append | internal/filter/filter.go:70-78 | appending keeps head, tail and next pointers consistent and adds exactly one token |
| FilterTokenList.TokenizeValue | internal/filter/filter.go:117-126 | one operator's value becomes the token the flattening prescribes, or its error |
| FilterTokenList.TokenizeLogicalArray | internal/filter/filter.go:130-153 | an array becomes one list per element, in order |
| FilterTokenList.TokenizeNotObject | internal/filter/filter.go:156-171 | a $not object becomes a nested list |
| FilterWalk.Walk | internal/filter/filter.go:198-238 | the traversal by moving cursor computes the walk of the token sequence |
| FilterWalk.WalkQueryNode | internal/filter/filter.go:241-260 | dispatch on one operator and value token |
| FilterWalk.WalkLogical | internal/filter/filter.go:262-288 | the queries of a logical array are combined in order by its operator |
| FilterWalk.WalkSubListNode | internal/filter/filter.go:306-335 | a sub-list is walked to the AND of its operators, a single one standing for itself |
| FilterWalk.WalkOfFlatten | internal/filter/filter.go:89-335 | flatten-then-walk equals the direct recursion over the JSON tree, in any back end |
| FilterWalk.WalkReports | internal/filter/filter.go:198-335 | on Tokenize's lists Walk never reports a structural error; with a mapper that rejects no leaf it fails exactly on an empty operator object |
| FilterSpelling.LogicalMeaning | internal/filter/filter.go:262-288 | $and, $or and $nor, in any case, hold of all, one or none of their elements, and mean something exactly when each element does; null is the empty array |
| FilterSpelling.NotMeaning | internal/filter/filter.go:290-304 | $not holds exactly when its operator object does not |
| FilterSpelling.ObjectMeaning | internal/filter/filter.go:306-335 | an operator object holds when all of its operators do, and is an error when it has none |
| FilterSql.JoinGroupLoop | internal/filter/sql.go:63-71 | the loop joins the parts in parentheses and concatenates their arguments in the same order |
| FilterSql.BuildWhere | internal/filter/sql.go:155-176 | the printed fragment and arguments, or the error, for any raw filter |
| FilterLeaves.LeafAccepts | internal/filter/sql.go:76-130 | a comparison is accepted exactly when its field is known, its operator, in any case, is one of six that the field allows, and its value is a scalar |
| FilterLeaves.LeafHolds | internal/filter/sql.go:95-144 | with backslash as LIKE's escape character the printed comparison and its escaped argument compare as the operator is named, for all texts |
| FilterLeaves.LeafMeaning | internal/filter/sql.go:76-130 | an accepted comparison holds of exactly the rows whose column compares so |
| FilterLeaves.WithoutEscape | internal/filter/sql.go:137-144 | without an escape character it does so for every column text exactly when the text asked for has no wildcard and no backslash, or all of it is compared |
| SqlSemantics.GroupOperand | internal/filter/sql.go:48-71 | a parenthesised AND or OR of operands parses back as that group of their trees, whatever text follows |
| SqlSemantics.NegOperand | internal/filter/sql.go:48-58 | NOT in front of an operand parses back as its negation |
| SqlSemantics.GroupBroken | internal/filter/sql.go:63-71 | a group that contains an unparsable part, or is empty, does not parse |
| FilterMatch.Match | internal/filter/match.go:19-47 | the loop returns exactly the rows whose verdict is true, in order, or the first row's error |
| FilterLeaves.DatabaseAgrees | internal/filter/match.go:130-149 | so on every row the database's comparisons are Match's, which is what the theorems about both back ends ask for |
| FilterSimulation.DenoteRelated | internal/filter/filter.go:198-335 | two back ends whose leaves and combiners are related give related results on every tree |
| FilterMeaning.WhereMeansTree | internal/filter/sql.go:155-176 | the WHERE text parses and evaluates to the meaning of the tree exactly when no logical array is empty; BuildWhere fails exactly where the tree has no meaning |
| FilterMeaning.VerdictMeansTree | internal/filter/match.go:49-149 | on a row that has a scalar for every filtered field Match's verdict, errors included, is the meaning of the tree in which an unknown operator is a comparison that fails |
| FilterMeaning.VerdictOnAnyRow | internal/filter/match.go:101-128 | on any row the verdict, errors included, is the meaning of the tree with the comparisons of absent or non-scalar columns false as well |
| FilterAcceptance.AcceptanceDiffers | internal/filter/match.go:9-47 | on a covered row BuildWhere accepts a filter exactly when Match does and every operator in it is known |
| FilterAcceptance.UnknownOperator | internal/filter/match.go:130-149 | a negated unknown operator that BuildWhere rejects and for which Match keeps every row |
| FilterMeaning.CompilationPreservesMeaning | internal/filter/match.go:19-47 | the query selects on every list of rows exactly the rows Match keeps; with an empty logical array it executes on no row |
| FilterOrder.IterationOrderIsImmaterial | internal/filter/filter.go:89-171 | what BuildWhere accepts and its query selects, and what Match accepts and keeps of any list of rows, do not depend on the order in which decoded maps are iterated, at any depth |
| FilterOrder.WhereAccepts | internal/filter/sql.go:155-176 | a filter is accepted exactly when its tree has a meaning |
| AccessFilter.BuildSubjectWhere | internal/db/sql_repository.go:145-170 | the recursive printer of subject expressions produces the specified text |
| AccessFilter.SubjectLogical | internal/db/sql_repository.go:188-211 | the loop prints every element and joins them, or fails with the first error |
| AccessFilter.AppendAccessFilter | internal/db/sql_repository.go:71-95 | the remaining filter and the subject are joined by AND in that order, arguments too |
| AccessFilter.SubjectParses | internal/db/sql_repository.go:145-211 | subject text, chains of NOT included, parses back to the expression's tree |
| AccessFilter.SubjectTreeMeaning | internal/db/sql_repository.go:112-211 | that tree is true exactly when the nested and, or, nor and not of type:id terms is |
| AccessLaws.AccessFilterMeaning | internal/db/sql_repository.go:71-134 | a filter object is refused exactly when one of its members means nothing; else the rule list has exactly the rules for which every member holds, "subject" as a test of the two subject columns and the others as conditions on their fields, and is no query when one of those has an empty logical array |
| AccessLaws.TypeAndIdReads | internal/db/sql_repository.go:174-184 | a subject is a non-empty type and a non-empty id around the first colon, and nothing else is one |
| AccessLaws.SubjectSpelled | internal/db/sql_repository.go:145-170 | a subject expression has one operator: $eq asks for a subject, $not denies an expression, and all but these and the groups are errors |
| AccessLaws.SubjectGroup | internal/db/sql_repository.go:188-211 | $and, $or and $nor take an array of at least one expression and hold of all, one or none |
| Rebind.Rebind | internal/db/dialect.go:90-107 | the byte loop numbers the placeholders from 1 and copies everything else |
| Rebind.UndoRebind | internal/db/dialect.go:90-107 | undoing the numbering gives back any query without a dollar sign |
| Rebind.ParametersInOrder | internal/db/dialect.go:90-107 | the database reads parameters 1, 2, 3, ... exactly when no placeholder is directly followed by a digit |
| QueryText.RebindRender | internal/db/dialect.go:90-107 | after rebinding, leaf k of the text carries number k |
| QueryText.AccessPrinted | internal/db/sql_repository.go:71-95 | for every accepted filter the k-th leaf of the text and the k-th argument are the k-th comparison of its members, the subject's after all others; only known columns |
| QueryReader.ReadRender | internal/filter/sql.go:48-113 | a reader of words, parentheses and comparisons gets exactly the lexemes back from the printed characters, when columns are identifiers and no keywords |
| QueryReader.WhereText | internal/filter/sql.go:155-176 | the characters BuildWhere returns, read and parsed, are true of a row exactly when the JSON tree is, and no SQL when a logical array is empty |
| QueryReader.QueryMeaning | internal/db/sql_repository.go:71-106 | the whole list query is the base, WHERE and a text, and the order; the text, read and parsed, is true of a rule exactly when every member of the filter holds |
| QueryText.QueryOnPostgres | internal/db/sql_repository.go:97-106 | the database reads parameters 1 to n in order, n is the number of comparisons of the JSON tree, and the k-th leaf with the k-th argument is the k-th of them |
| FilterBuilder.ApplyFilterBuilder | frontend/assets/app.js:1493-1536 | the loops that group rows and build the filter compute the specified filter |
| FilterBuilder.ParseFieldConditions | frontend/assets/app.js:1674-1727 | the loops over a field's operators read it into the specified rows, or reject it |
| FilterBuilder.SyncFilterBuilder | frontend/assets/app.js:1648-1669 | the panel shows all fields' rows in order, or nothing but the notice |
| BuilderRoundTrip.GroupBack | frontend/assets/app.js:1522-1536 | a compiled field reads back as its rows, in any of the three shapes, exactly when its operators are known |
| BuilderRoundTrip.SyncAfterApply | frontend/assets/app.js:1648-1669 | for any rows: the panel shows the filled rows field by field with the field's join, or is read-only |
| BuilderRoundTrip.LastJoinWins | frontend/assets/app.js:1493-1502 | a group holds its field's filled rows in order under the last one's join, which is the first joining row's exactly when the two agree |
| BuilderRoundTrip.FirstJoinIsNotKept | frontend/assets/app.js:1493-1502 | three rows for which the filter asks for none where the first joining row asks for any |
| BuilderRoundTrip.BuilderRoundTrip | frontend/assets/app.js:1480-1516 | rows come back unchanged exactly when they are filled, known, grouped by field, and carry one join a field |
| BuilderRoundTrip.PanelSettles | frontend/assets/app.js:1671-1673 | after one round trip re-applying changes nothing any more |
| BuilderMeaning.BuilderMeaning | frontend/assets/app.js:1480-1536 | under Match the compiled filter is the per-field and, or, nor of the possibly negated rows, ANDed across fields |
| BuilderReading.PanelTellsTruth | frontend/assets/app.js:1648-1653 | what the panel's rows say of a field is what the filter does with it, in every back end, exactly when the field is not a $nor of one condition |
| BuilderReading.ReappliedMeansTheSame | frontend/assets/app.js:1671-1727 | applying the panel as it stands keeps Match's verdict on every row that has the fields, for filters that are filled in and have no $nor of one condition |
| BuilderReading.LoneNorIsMisread | frontend/assets/app.js:1686-1707 | {"name":{"$nor":[{"$eq":"a"}]}} is shown as the condition it denies, and applying the panel turns the verdict of every row around |
| BuilderReading.OtherCaseIsHidden | frontend/assets/app.js:1709-1718 | of $NOT beside $not the panel shows the second twice |
| ModeFilter.ScanEscape | internal/console/modefilter.go:348-371 | a sequence ends with its second byte or, after [, with the first byte outside 0x20 to 0x3f, and else is incomplete |
| ModeFilter.Filter.Observe | internal/console/modefilter.go:251-335 | the scan loop updates modes, latches and carry as the framing of the stream prescribes, and answers whether to redraw |
| ModeFilter.Filter.CursorSaved | internal/console/modefilter.go:181-192 | whether a save is held, for less than a second, dropping one that is too old |
| ModeFilter.ChunkIndependence | internal/console/modefilter.go:251-335 | any split whose unfinished tails fit the carry is observed like the whole stream |
| ModeFilter.SplitPointIsSafe | internal/console/modefilter.go:251-280 | a chunk may be observed on its own whatever follows exactly when its unfinished tail is at most 64 bytes |
| ModeFilter.CarryIsBounded | internal/console/modefilter.go:251-280 | the carry never exceeds 64 bytes |
| ModeReading.ScreenModes | internal/console/modefilter.go:409-437 | the screens are switched exactly by a set or reset that names 47, 1047 or 1049 in a parameter at or after the private marker |
| ModeReading.OriginModes | internal/console/modefilter.go:119-141 | origin mode is switched exactly by one that names 6 so |
| BarLayout.LayOut | internal/console/statusbar.go:542-562 | the text the bar lays out |
| BarLayout.BarTextReads | internal/console/statusbar.go:542-562 | with room for both, the left text, spaces and the right text at the right edge; otherwise as much of the left text as fits, all of it if it fits, and spaces |
| BarLayout.BarTextWidth | internal/console/statusbar.go:542-634 | the bar is exactly as wide as the terminal for every left and right text |
| BarLayout.CellWidth | internal/console/statusbar.go:570-576 | the width loop counts the cells of the runes |
| BarLayout.TruncateCells | internal/console/statusbar.go:621-634 | the loop cuts where the cells run out |
| BarLayout.TruncatedIsLongest | internal/console/statusbar.go:621-634 | in a positive width the prefixes that fit are exactly those no longer than the cut text; without columns nothing is left |
| StatusBar.StatusBar.Start | internal/console/statusbar.go:182-215 | state and output of starting the bar |
| StatusBar.StatusBar.Stop | internal/console/statusbar.go:218-236 | state and output of stopping it |
| StatusBar.StatusBar.Resize | internal/console/statusbar.go:321-359 | state, output and the height the guest is told |
| StatusBar.StatusBar.Observe | internal/console/statusbar.go:363-441 | state and output after guest output |
| StatusBar.StatusBar.Draw | internal/console/statusbar.go:479-538 | state and output of one repaint |
| StatusBar.StatusBar.WithCursorKept | internal/console/statusbar.go:269-311 | a region change bracketed by a save and restore unless the guest holds the slot |
| Terminal.ReadersAgree | internal/console/modefilter.go:337-371 | a terminal that reads byte by byte recognises the items the observer does, and waits for the rest of the same sequence, exactly when no control interrupts a sequence |
| BarRuns.TrackRun | internal/console/modefilter.go:285-332 | through any run of items the observer stays right about screen, region and origin mode exactly when no mode list that names a screen sets origin mode first |
| BarRuns.StepPlaced | internal/console/statusbar.go:321-441 | guest output, a resize, new texts or a tick keep the bar's knowledge of the terminal right and its row reserved |
| BarRuns.StepInStep | internal/console/modefilter.go:251-280 | bar and terminal wait for the same sequence after a step exactly when the step divided none |
| BarRuns.FollowsExactly | internal/console/modefilter.go:229-280 | whatever the guest writes next, bar and terminal agree on the screen shown, exactly when the step divided no unfinished sequence by bar output or by the 64-byte bound |
| BarRuns.RegionSafety | internal/console/statusbar.go:182-441 | over every run that divides no sequence the region is rows 1 to rows-1, which is what the guest was told; Stop restores the whole screen and the bar is silent from then on |
| BarRuns.AnswerOutside | internal/console/statusbar.go:479-538 | the bar writes text on the bottom row only, outside the scroll region, on the main screen |
| BarRuns.InactiveRun | internal/console/statusbar.go:218-236 | an inactive bar leaves the terminal to the guest, whatever the guest writes |
| BarCursor.AnswerSpares | internal/console/statusbar.go:269-311 | whatever the bar writes while the guest holds no save leaves the cursor where it was, and while it holds one leaves the slot |
| BarCursor.SlotStep | internal/console/statusbar.go:269-311 | whatever happens, the bar's answer leaves the save slots alone, or leaves the guest's cursor in the slot of the buffer in use |
| BarCursor.RestoresExactly | internal/console/statusbar.go:269-538 | in every run, however the guest's bytes are divided: a restore lands on the guest's last save in that buffer exactly when the bar has not gone through its slot since or the cursor then stood there; leaving a screen entered with a save lands where it was entered |
| BarCursor.GuestCursorSafety | internal/console/modefilter.go:306-320 | over every run that divides no sequence: a restore the terminal reads within a second of a save it read in the same buffer lands there if the guest has restored in neither buffer since |
| BarCursor.SecondRestore | internal/console/modefilter.go:306-320 | between two restores of one save, whatever event: the second lands on it exactly when the bar's answer does not save the cursor, or the cursor stood there |
| BarCache.ErasureReported | internal/console/modefilter.go:373-405 | an ED sequence is reported exactly when its parameter is none, 0, 2 or 3 |
| BarCache.BlankingReported | internal/console/modefilter.go:246-250 | whatever blanks the bottom row of the main screen of a terminal with readings of its own, the cursor being above it, is reported |
| BarCache.ReportedExactly | internal/console/modefilter.go:285-332 | what is reported of a sequence: a change of screen or origin mode, margins, a reset, the end of a hold, an erasure that reaches the bottom row, and nothing else |
| BarCache.CacheCoherence | internal/console/statusbar.go:501-537 | a remembered text is what the row shows, a due repaint leaves the bar's text, and a skipped one could not be seen |
| BarCache.StrandedCursor | internal/console/statusbar.go:321-359 | the remembered text survives the next letter exactly when the cursor is above the bar's row |
| BarLimits.RepaintDividesSwitch | internal/console/statusbar.go:363-441 | from Start: a repaint inside a switch of screens leaves the bar hidden on the main screen |
| BarLimits.LongSequenceTakesRegion | internal/console/modefilter.go:229-280 | from Start: a region change longer than the carry puts any region in force unnoticed |
| BarLimits.CancelledSaveMisses | internal/console/modefilter.go:348-371 | from Start: a save that cancels a sequence is missed, and its restore lands where the guest moved |
| BarLimits.MixedModesMisplaceBar | internal/console/modefilter.go:285-332 | from Start: a mode list that sets origin mode and enters an alternate screen makes the bar paint among the guest's rows later |
| BarLimits.SecondRestoreMisses | internal/console/modefilter.go:306-320 | from Start: save, restore, move, repaint, restore ends where the guest moved |
| BarLimits.ResizeTakesSlot | internal/console/statusbar.go:321-359 | from Start: save, restore, move, resize, restore ends where the guest moved, though nothing was painted |
| BarLimits.OtherBufferRestoreMisses | internal/console/modefilter.go:306-320 | from Start, in one instant: a restore on the alternate screen ends the hold on the main screen's save, and the restore there misses it |
| BarRuns.HiddenRegion | internal/console/statusbar.go:363-441 | while hidden, a full-screen program's region survives a write exactly when nothing is reported of it or it was the whole screen |
| BarLimits.OwnRegionIsReleased | internal/console/statusbar.go:363-441 | from Start: a region set on the alternate screen is released by the bar's answer |
| BarLimits.WindowStrandsCursor | internal/console/statusbar.go:321-359 | from Start: a window that shrinks onto the cursor's row leaves it under the painted bar, and some letter then makes the remembered text untrue |
| Framing.WriteMessage | internal/guesthelper/protocol.go:177-200 | what reaches the stream is the frame, or a proper prefix of it and an error |
| Framing.WireFormat | internal/guesthelper/protocol.go:177-200 | a frame is the header's length in four bytes, most significant first, the header, and the payload |
| Framing.ReadHeader | internal/guesthelper/protocol.go:203-220 | under any short reads: the header at the front of the stream, or the error |
| Framing.ReadPayload | internal/guesthelper/protocol.go:223-235 | under any short reads: exactly the bytes asked for, within the bounds |
| Framing.MessageRoundTrip | internal/guesthelper/protocol.go:170-235 | a written message is read back, touching nothing after it, exactly when its Len announces its payload |
| Framing.StreamRoundTrip | internal/guesthelper/protocol.go:170-235 | any sequence of sound messages is read back as that sequence, up to a clean end |
| Framing.TruncatedFails | internal/guesthelper/protocol.go:203-235 | a stream cut short inside a message yields no message, and reads as the end of the stream exactly when cut at the start, after the length or after the header |
| HelperClient.Client.Call | internal/guesthelper/client.go:61-92 | one call writes one request and reads one reply; any transport failure closes the client |
| HelperClient.Client.Close | internal/guesthelper/client.go:119-130 | closing sends at most one quit, and nothing when already closed |
| HelperClient.NewClient | internal/guesthelper/client.go:43-58 | a client exists exactly when the greeting was answered with the same version |
| HelperClient.Pairing | internal/guesthelper/client.go:61-92 | over every run the k-th result is the k-th reply until a call fails; then every call is refused and nothing is written beyond part of the failing frame |
| HelperServer.Session.Run | cmd/proxpass-helper/main.go:92-137 | the request loop answers each request on the files the earlier ones left, and stops at a quit, the end of the stream, a bad message, a failed write, or when the timer runs out between two requests; the files are then those of the answered requests |
| HelperServer.TruncatedServe | cmd/proxpass-helper/main.go:104-113 | a request cut short ends the session as a proper end of the stream does exactly at those cuts, and as an error at any other |
| HelperServer.Session.Next | cmd/proxpass-helper/main.go:140-157 | one turn of the reader takes exactly one message off the stream |
| HelperServer.ServeAnswers | cmd/proxpass-helper/main.go:92-157 | serving the frames of requests is dispatching those requests in order |
| HelperServer.EndToEnd | cmd/proxpass-helper/main.go:92-137 | the results a client gets are the dispatch of its requests, one by one |
| HelperOps.Refusals | cmd/proxpass-helper/ops.go:21-187 | exactly which requests are refused |
| HelperOps.ReadBytes | cmd/proxpass-helper/ops.go:134-160 | a read is answered with the bytes from the offset on, as many as asked for and as there are |
| HelperOps.WriteBytes | cmd/proxpass-helper/ops.go:171-187 | a write lays its payload over the file from the offset on, zeros in between, every other byte as it was; over an empty file when it is new or to be emptied |
| HelperOps.TruncateBytes | cmd/proxpass-helper/ops.go:93-94 | truncating keeps what lies before the new length and fills the rest with zeros |
| HelperOps.OnlyThePath | cmd/proxpass-helper/ops.go:21-187 | a request touches no file but the one it names, and only a write or a truncation touches that |
| Transfer.ReadRangeTo | internal/guesthelper/client.go:164-196 | delivers the chunks in order and ends; on failure a prefix of them; a missing file is refused; no payload exceeds a chunk |
| Transfer.DeliversRange | internal/guesthelper/client.go:157-196 | from any offset that is not negative the chunks are exactly the requested range, or the file to its end |
| Transfer.DeliversBytes | internal/guesthelper/client.go:157-196 | byte i of what is delivered is byte offset + i of the file, as many as asked for and as there are |
| Transfer.NegativeOffset | cmd/proxpass-helper/ops.go:134-160 | at a negative offset every file of that size is delivered as asked exactly when one call is enough |
| Transfer.WriteAtFrom | internal/guesthelper/client.go:234-255 | for any read sizes the reader's whole content lies over the file from the offset on, on failure a prefix of it; the file reaches as far as either, with zeros where neither does, and every other byte and file is as it was |
| Transfer.WriteFrom | internal/guesthelper/client.go:204-231 | for any previous content and any read sizes, an empty reader included, the file is the reader's content; other files are untouched |
| Transfer.PatchTwice | cmd/proxpass-helper/ops.go:162-186 | two adjacent writes are one write of both, gaps filled with zeros |
| StableSort.Sort | internal/session/sortmode.go:116-149 | the array is left in stable sorted order, in place |
| StableSort.OneStableOrder | internal/session/guestrow.go:170-172 | an ordered list that keeps every tie in place is unique, so the library's algorithm does not matter |
| StableSort.SortedStable | internal/session/guestrow.go:170-172 | rows that tie keep their order |
| PickerRows.ModeOrders | internal/session/sortmode.go:116-168 | every sort mode is a total order over rows with different keys |
| PickerRows.CycleLaws | internal/session/sortmode.go:92-109 | prev undoes next exactly on the cycle, four steps come back, and every column is reached |
| PickerRows.SortForgetsHistory | internal/session/sortmode.go:151-168 | sorting any rearrangement of the rows gives one and the same list |
| PickerRows.NewPickerRows | internal/session/guestrow.go:67-100 | a row for every guest and node, sorted by name |
| PickerRows.KeyIdentifies | internal/session/guestrow.go:129-137 | keys are equal exactly for the same guest or node |
| PickerOrder.RowsFollow | internal/session/sortmode.go:116-181 | in a sorted list no running row stands behind a stopped one by status, no smaller number by id, no earlier host or name by theirs, and ties go by name, number, id and key |
| PickerOrder.HostsTogether | internal/session/guestrow.go:27-31 | by host, the rows of one host stand together, its node among its guests |
| PickerOrder.RowsShow | internal/session/guestrow.go:67-100 | what the columns and search texts of a guest's and a node's row are |
| FuzzyMatch.FuzzyScore | internal/session/filter.go:13-61 | the scan reports whether and how well the needle matches |
| FuzzyMatch.ScanFindsSubsequences | internal/session/filter.go:30-46 | the scan without backtracking succeeds exactly when the needle is a subsequence |
| FuzzyMatch.GapsArePaid | internal/session/filter.go:38-57 | for any text and any match the score is the one meant plus nine for every gap |
| FuzzyMatch.ScoreIsIntended | internal/session/filter.go:13-61 | a field's score is the one meant exactly when it does not match or matches without a gap |
| FuzzyMatch.ScatteredScoresAsTight | internal/session/filter.go:49-53 | two texts, one matched tightly and one scattered, score the same |
| PickerFilter.FilterRows | internal/session/guestrow.go:144-173 | the given list itself for a blank query, otherwise a new list of the matches in order |
| PickerFilter.TrimReads | internal/session/guestrow.go:145-148 | trimming takes all white space off both ends of a query and nothing else |
| PickerFilter.BestIsLargest | internal/session/guestrow.go:150-166 | a row's score is the largest of its fields' and exists exactly when a field matches |
| PickerFilter.FieldRank | internal/session/guestrow.go:150-166 | the same text counts four points less for every field it stands further back |
| PickerFilter.FilterMeaning | internal/session/guestrow.go:139-173 | exactly the rows with a field that has the query as a subsequence, best first, ties in their order |
| Picker.Screen.Apply | internal/session/interactive.go:150-222 | every key changes list, filter, cursor, viewport and column as specified, in place where the lists are the same memory |
| Picker.Screen.SetFilter | internal/session/interactive.go:225-237 | re-filtering, and sorting the whole list when the filter is cleared |
| Picker.Screen.CycleSort | internal/session/interactive.go:244-265 | the next column, applied at once unless a filter is active |
| Picker.Screen.RestoreCursor | internal/session/interactive.go:274-287 | the cursor on the row with the key, in view |
| Picker.Screen.Move | internal/session/interactive.go:290-303 | the cursor moved, clamped and in view |
| PickerRuns.OpenPicker | internal/session/picker.go:205-207 | the rows built from guests and instances with identifying ids are sorted by name and identified by their keys, and the picker opens on them |
| PickerRuns.BuiltRuns | internal/session/interactive.go:150-320 | over every run on those rows: they are never lost, and without a filter stand in the column's order |
| PickerRuns.RunCoherent | internal/session/interactive.go:150-320 | over every run of keys and resizes: a rearrangement of the rows, the filtered list shown, the cursor in range, and in view while the window keeps its size |
| PickerRuns.HistoryForgotten | internal/session/interactive.go:225-265 | with an empty filter the list depends on rows and column alone |
| PickerRuns.ShownFollows | internal/session/interactive.go:225-265 | over every run, without a filter: no row stands before one that its column puts first |
| PickerRuns.TabKeepsSelection | internal/session/interactive.go:239-287 | Tab keeps the highlighted row highlighted and in view |
| PickerRuns.ShiftTabUndoesTab | internal/session/sortmode.go:97-109 | Shift+Tab after Tab gives back list and highlighted row |
| PickerRuns.MoveShows | internal/session/interactive.go:290-320 | after any history, resizes included, a movement brings the highlighted row into view |
| PickerRuns.MovementKeys | internal/session/interactive.go:181-192 | after any history: Up and Down move one row, PageUp and PageDown a page, stopping at the ends, Home and End go to them; the rows stay as they are |
| PickerRuns.OtherKeys | internal/session/interactive.go:150-222 | which keys leave the picker, and what is in the filter after a key |
| PickerRuns.BackspaceUndoesTyping | internal/session/interactive.go:194-221 | Backspace undoes the last character typed |
| PickerRuns.EnterSelects | internal/session/interactive.go:157-170 | Enter selects the highlighted row, one of the originals, and only if it can be entered |
| TokenStore.Store.MintSessionToken | internal/db/sql_repository.go:1048-1101 | sweeps what has expired by now and inserts, or reports the hash taken |
| TokenStore.Store.RedeemSessionToken | internal/db/sql_repository.go:1103-1128 | consumes an unexpired token and returns its identity |
| TokenStore.Store.LookupAPISession | internal/db/sql_repository.go:1142-1165 | an unexpired session's identity, consuming nothing |
| TokenStore.Store.RevokeAPISession | internal/db/sql_repository.go:1167-1179 | the session is gone, whether or not it was there |
| TokenStore.Store.ExchangeSessionToken | internal/api/session.go:178-222 | redeems, then creates a session for that identity for twelve hours |
| TokenRuns.SweepingIsUnobservable | internal/db/sql_repository.go:1038-1072 | with a clock that does not run backwards the sweeping store answers like one that never sweeps exactly when no insert reuses an expired row's hash |
| TokenRuns.SweepingShowsExactly | internal/db/sql_repository.go:1038-1072 | under any clock they answer alike exactly when no swept row is asked for before its expiry and no hash of a swept or expired row is used again |
| TokenRuns.SweepingSeenByBackwardClock | internal/db/sql_repository.go:1038-1072 | a run in which a clock that steps back tells them apart |
| TokenRuns.SpentAtMostOnce | internal/db/sql_repository.go:1103-1128 | a token is spent at most as often as it was minted |
| TokenRuns.LoginsNeverOutnumberMints | internal/api/session.go:170-222 | sessions created by exchanges, with tokens still held, never outnumber mints |
| TokenRuns.EveryLoginWasMinted | internal/db/sql_repository.go:1103-1128 | whoever redeems gets the identity the token was minted for, unexpired and unspent since |
| TokenRuns.EverySessionWasOpened | internal/db/sql_repository.go:1130-1179 | a session that answers was opened for that identity, has not expired and was not revoked since |
| FoldNames.Database.FoldStoredNames | internal/db/foldnames.go:75-135 | refuses, writing nothing, exactly when two rows of a table fold together, and names those tables; otherwise every name is folded and the constraint never refuses a write, whatever the order of tables |
| FoldNames.Database.Rewrite | internal/db/foldnames.go:126-133 | row by row under the unique constraint every write of a table succeeds |
| FoldNames.OneUpdate | internal/db/foldnames.go:59-64 | at every step a folded name meets no other, and names stay unique |
| FoldNames.CheckPredictsWrites | internal/db/foldnames.go:66-70 | the check predicts the constraint for all tables exactly when folding is idempotent |
| FoldNames.FoldedIsFixed | internal/db/foldnames.go:72-74 | ids are unchanged, names folded, and a second run writes nothing |
| FoldNames.GroupsCollide | internal/db/foldnames.go:90-102 | some group has two spellings exactly when two names fold together |
| Reconcile.Repository.StoreGuests | internal/proxmox/reconcile.go:26-64 | tables, counts and error of a pass with any cancellation, failing upserts or failing prune |
| Reconcile.Repository.UpsertGuest | internal/db/sql_repository.go:544-561 | updates the guest's row in place or adds one under a new id |
| Reconcile.Repository.RemoveGuestsNotIn | internal/db/sql_repository.go:602-654 | drops the instance's other guests with their rules, or nothing |
| Reconcile.Repository.RemoveProxmoxInstance | internal/db/sql_repository.go:483-540 | the instance, its guests, their rules and its own rules are gone, and nothing else |
| Reconcile.Repository.ClientGroupIDs | internal/db/sql_repository.go:1321-1369 | exactly the groups recorded on either side |
| Reconcile.Repository.CheckAccess | internal/db/sql_repository.go:1373-1423 | access exactly by a rule for the client, a rule for one of its groups, or the default policy |
| ReconcileLaws.PassStoresRunning | internal/proxmox/reconcile.go:26-64 | after an error-free pass the stored numbers are exactly the running ones reported |
| ReconcileLaws.PassStoresReports | internal/proxmox/reconcile.go:26-64 | after a pass that is not cancelled, whatever else fails, a guest stands in the tables as the last report stored of its number has it |
| ReconcileLaws.PassKeeps | internal/proxmox/reconcile.go:26-64 | whatever fails: ids, places and rules of surviving guests, other instances and uniqueness are kept, and a guest reported running is never pruned |
| ReconcileLaws.RulesSurvive | internal/proxmox/reconcile.go:26-64 | over every run: a guest keeps its id exactly as long as its instance stays and every pruning pass reports it running, and meanwhile its rules are those granted and not withdrawn |
| ReconcileLaws.NoAccessAfterRemoval | internal/db/sql_repository.go:483-654 | once a guest is dropped, access to its id can come only from the default policy until granted anew, over every run |
| Resolve.FindGuest | internal/cli/resolve.go:135-206 | number, then type and number, then name, each loop collecting all matches |
| Resolve.FindGuestAndInstance | internal/cli/resolve.go:75-129 | the instance filter, the pool and the host found by maps built in loops |
| Resolve.AtoiItoa | internal/cli/resolve.go:243-252 | a printed number reads back |
| ResolveLaws.NeverGuesses | internal/cli/resolve.go:131-206 | the single match of the first rule that matches, or an ambiguity with a hint per match, or not found |
| ResolveLaws.ResolvesInFields | internal/cli/resolve.go:135-206 | in the fields of the guests: who has the number the identifier reads as, else the type and number, else the name up to folding; one is the answer, several an ambiguity that hints at exactly those |
| ResolveLaws.FoundThere | internal/cli/resolve.go:75-129 | an instance that is named is the only place looked at, or reported as unknown; the host is the instance the guest is on |
| ResolveLaws.TargetReads | internal/cli/resolve.go:35-53 | a target splits at its last @ exactly when both sides have something and the right one names an instance in any case |
| ResolveLaws.OrderIsImmaterial | internal/cli/resolve.go:75-206 | the answer does not depend on the order of guests and instances |
| ResolveLaws.HintsResolveBack | internal/cli/resolve.go:35-53 | a hint parses into its two parts and resolves to exactly its guest |
| ResolveLaws.EveryHintLeadsBack | internal/cli/resolve.go:217-252 | an ambiguity has a hint for each match of the rule that decided, and the k-th leads to the k-th match |

## Left out

- SQLite's own case folding inside LIKE, column affinity and NULL: a column is its text, LIKE compares characters, and LOWER folds character by character as Match does.
- QueryReader.ReadRender: takes columns that are word characters and no keywords, as all of the program's are; others would need quoting, which the program does not do.
- BuilderReading.PanelTellsTruth: takes fields whose negation is written `$not`; OtherCaseIsHidden has one that is not.
- JSON text: values are trees; a number carries the text it is compared as; JavaScript's String of a number is taken to be that text.
- Case folding beyond ASCII in filters and the picker: `Lower` is exact wherever the lower-case text is ASCII; name folding and target resolution take any folding.
- Database drivers, SQL failures and transactions across processes: a table is a map or a sequence and a statement succeeds or is refused by the constraint modelled.
- The console goroutine and its timers: ticks and draws are atomic steps in any order, with an integer clock; a guest write and its observation are one step, and so are a resize and the call that reports it.
- BarRuns.RegionSafety: takes runs in which no control interrupts a sequence, no sequence is divided, and no mode list sets origin mode unnoticed; each condition is exact, and BarLimits has a run beyond each.
- BarCursor.GuestCursorSafety: the same runs, and restores with no other restore since the save; what was saved is what the terminal read as a save. `RestoresExactly` has the exact condition for every restore of every run.
- What DECSC saves besides the position, DECALN, selective erase, parameters with leading zeros, OSC and DCS framing: the code does not track them.
- Bytes from 0x80 on inside a sequence, which ECMA-48 leaves open: the terminal ends the sequence there, as the observer does.
- BarCache.CacheCoherence: takes runs in which the cursor stays off the bar's row and what is written above it does not reach it, erasures excepted; StrandedCursor says when it cannot.
- The helper's other operations (stat, list, mkdir, remove, rename, links, modes, times); truncate is modelled as part of dispatch only.
- Transfer.Remote: stands for a client with the helper at the other end, as `EndToEnd` justifies; the transport may fail at any call, before or after the helper acted.
- Errors of a codec while writing: encoding always succeeds.
- Guest status changing while a picker is open, the notice line, rendering and key decoding.
- Multi-byte runes in the picker's byte-wise scan, where one character is one byte.
- Object keys that JavaScript orders numerically, and field names of that kind, in the filter builder.
- HasInstanceAccess, which has the shape of HasAccess; client, group and policy editing.
- Login handling, SSH, WebSocket and Proxmox clients, command trees, settings and the activity log.
