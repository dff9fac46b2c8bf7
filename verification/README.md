# klams: a verified model

klams stores facts, events and knowledge for agents, ranks them for a query, and keeps itself filled by a
scanner. This project models six parts of it in Dafny 4.11 and proves what they promise. `dafny verify
dfyconfig.toml` checks everything.

**Timeline paging** (`Timeline`, `Walks`, `Base64Url`, `CursorText`, `CursorForm`, `Cursor`, `CursorWalk`). Three
sources are paged newest first below one keyset and merged. A walk is a list of fetches, one a request, and nothing
relates the contents of the sources from one fetch, or from one source read, to the next, so insertions and deletions
between reads are all covered. The cursor is modelled down to its bytes; `CursorForm` says which texts its readers take.

**Facts and dissents** (`Facts`, `FactHistory`, `FactTx`, `FactSafety`, `FactRequests`, `FactCrossing`, `FactStore`;
`RowLocks`, `Decay`). `Facts` says when an effect may extend a serial history, `FactHistory` what every serial history
guarantees, `FactTx` is the interleaved transactions statement by statement with row locks and aborts, `FactSafety`
shows that every interleaving leaves a serial history, `FactRequests` that each logged effect answers the request
behind it, `FactCrossing` is one run into a deadlock, and `FactStore` is the operations run one at a time, in place,
against the same effects. `RowLocks` is the batch lockers and their deadlock freedom, `Decay` the two callers that
build the ascending lists.

**Chunker** (`CharText`, `Splitting`, `Windows`, `Packing`, `Markdown`, `MarkdownForm`, `MarkdownSpec`, `MarkdownPaths`,
`CodeBlocks`). Each loop is proved against a function on its input. `MarkdownForm` tells headings and fences by the
characters of the line (compare sections 4.2 and 4.5 of CommonMark 0.31.2; the code's narrower rules are the ones
modelled), `MarkdownSpec` what the sections mean without mentioning the stack, and `MarkdownPaths` what the returned
blocks are, path and text.

**Context budget** (`Budget`), over real scores and integer token counts.

**Ranking** (`Collapse`, `Fusion`, `Reranker`, `Candidates`, `KnowledgePage`, `SearchPage`, `SearchScore`, `Search`).
Scores are reals. The stages rewrite a `Ranking` object in place; `Search.RankPage` runs them in order and
`Search.RunSearch` starts from the sources' hits.

**Scanner and repair** (`ScanStore`, `Scan`, `ScanSafety`, `ScanWitness`, `Repair`, `RepairRun`). The service answers
an index request before anything is stored: an accepted chunk joins a queue, and workers later store or drop it, in
any order. A delete reaches stored copies only. Every request takes its fate from a given sequence of replies: served,
turned away, failed with any part of its effect done, or cut off by a crash with any part done; before each request
the workers do whatever a second sequence says. Every operation on the local cursor can fail as well and ends the
scan, so a scan may stop between any two durable steps. `Scan` gives each step as a function of the state and this
outside world, with a scanner object proved to perform it; `ScanSafety` proves what every history keeps, and
`ScanWitness` holds concrete runs. "Acknowledged" means stored, queued or dropped since the last delete. `torn` is a
ghost record of deletes and publishes begun and not completed, and of deletes that had queued writes to overtake.

`Sorting` and `Options` are shared.

## What came out

- A walk is complete for every store exactly when its limit is at most 500. Each source stops at 500 rows, the
  merge compares with the caller's own limit, so a page that falls short of it ends the walk although rows are left
  (`Walks.LimitBoundIsExact`). The shipped handlers clamp at 200 (`crates/klams-api/src/handlers/memories.rs:73`), so
  a longer limit reaches `list_memories` through the store trait only.
- `is_timeline_cursor` accepts a cursor whose id is spelt as a URN, which `decode_merged_cursor` refuses
  (`Cursor.UrnCursorIsAcceptedButNotDecoded`), and the legacy form decodes but is not accepted; the two agree on a
  cursor exactly when it has two parts (`Cursor.ReadersAgreeOnTwoParts`).
- A decay batch size above 5000 ends the tick after 5000 facts, because the query clamps and the loop then takes
  the short batch for the last one (`Decay.TickOnce`).
- A character window of zero loses the text (`Windows.LosslessWindows`); the embedder's own limit would have to be
  zero for that.
- The budget's saturating guard is exact below the largest 32-bit value and not at it (`Budget.GuardIsExact`).
- The comment at `crates/klams-core/src/hybrid.rs:312-314` says the last row of an id keeps its payload; the code
  keeps the first, and so does the model.
- The comment at `crates/klams-scanner/src/publish.rs:11-17` puts the worst wait for a chunk at about three minutes;
  the delays add up to 422 seconds (`ScanStore.WorstCaseWait`).
- "An indexed file's copies are exactly its storable chunks" is false of the store, even with every request served: a
  worker may drop an accepted chunk after the cursor has advanced (`ScanWitness.DroppedAfterIndexing`), and an old
  chunk still queued at the delete lands after it (`ScanWitness.LandsAfterTheDelete`). It holds exactly when no chunk
  of the file was dropped for good and nothing foreign that outlived the delete was stored
  (`ScanSafety.IndexedExactly`, `ScanSafety.SettledExactly`); what holds always is the same about acknowledged chunks
  (`ScanSafety.EveryHistoryAgrees`).
- Three torn states are not healed by later scans: an edit undone after a failed reindex, a new file edited after a
  half-failed first publish, and one that vanished after it (`ScanWitness.EditThenRevert`, `ScanWitness.FailThenEdit`,
  `ScanWitness.FailThenVanish`). A visit that finds the hash unchanged never touches the copies
  (`ScanSafety.UnchangedExactly`).
- Fusion does not care in which order the lists arrive as long as no id comes under two sources; otherwise tied ids can
  swap (`Fusion.OnlyTiesCanMove`, `Fusion.ListOrderCanMatter`). A search whose auxiliary lists name knowledge only
  never hands over such lists (`SearchPage.SearchSourcesAreOnePerId`, `Search.RunSearch`).
- One repair is not always enough for facts, two always are (`Repair.WhenASecondApplyMatters`,
  `Repair.ThirdApplyChangesNothing`), and an interrupted event repair can simply be run again.
- Promotion locks dissent then fact, the other writers fact then dissent, and a run from the empty store reaches the
  deadlock (`FactCrossing.ProtocolCanDeadlock`); deadlock freedom holds for the batch lockers (`RowLocks.NeverStuck`).

## Model

| member | source | states |
|---|---|---|
| `Timeline.TakeMergedPage` | crates/klams-store/src/composite.rs:837-856 | of keyed candidates the page is strictly newest first, whatever is left out is older than `next`, `next` is the last key of a full page and never missing when a cut-off source leaves one |
| `Timeline.ReadSource` | crates/klams-store/src/composite.rs:902-1036 | a wanted source adds its page to the candidates and its fullness to `saturated`; any other is not read |
| `Timeline.ListMemories` | crates/klams-store/src/composite.rs:859-1038 | a request is served from the sources of the wanted kinds only, 500 rows of each at most: the page has the limit asked for, 50 when none is, and the `next` the merge gives |
| `Timeline.ReadsTheWanted` | crates/klams-store/src/composite.rs:895-1010 | a source is read if and only if no kind is named or its own is |
| `Timeline.RequestShowsWanted` | crates/klams-store/src/composite.rs:859-1038 | every shown row lies in the source of a wanted kind and below the keyset |
| `Timeline.SourcePageFacts` | crates/klams-store/src/postgres.rs:1411-1475 | a source page is strictly newest first, below the keyset, and what it leaves out is older than all it holds |
| `Timeline.LeftBehind` | crates/klams-store/src/composite.rs:831-836 | a row its own source cut off is older than the last row of the merged page, so the merge cannot miss it |
| `Timeline.PageFacts` | crates/klams-store/src/composite.rs:831-856 | the page is strictly ordered; every stored row below the keyset is on it or strictly below `next`; `next` only on a full page |
| `Timeline.RequestFacts` | crates/klams-store/src/composite.rs:859-1038 | the page facts, for exactly the rows of the wanted sources |
| `Walks.WalkIsStrictlyNewestFirst` | crates/klams-store/src/composite.rs:831-856 | over a whole walk, with a different store at every request, emitted keys strictly decrease |
| `Walks.WalkShowsOnlyStoredRows` | crates/klams-store/src/composite.rs:831-856 | every row shown was held, when its page was read, by the source of a kind the request wants |
| `Walks.WalkShowsStableRow` | crates/klams-store/src/composite.rs:831-856 | a key present at every request of a finished walk is shown |
| `Walks.WalkShowsStableRowsOnce` | crates/klams-store/src/composite.rs:831-856 | and it is shown exactly once |
| `Walks.PageProgress` | crates/klams-store/src/composite.rs:844-849 | a page with `next` uses up at least `limit` of the matching rows |
| `Walks.FixedWalkEnds` | crates/klams-store/src/composite.rs:844-849 | over N fixed rows the walk ends within N/limit + 1 pages and only its last page may be short |
| `Walks.FixedWalkIsTheSortedUnion` | crates/klams-store/src/composite.rs:837-856 | over a fixed store the pages end to end are strictly newest first and hold exactly the wanted rows below the keyset: the sorted union of the sources |
| `Walks.LongLimitLosesRows` | crates/klams-store/src/postgres.rs:1423 | for every limit above 500 there is a store whose walk ends with rows unseen |
| `Walks.ShortLimitLosesNothing` | crates/klams-store/src/composite.rs:844-849 | for limits 1 to 500 a page without `next` shows everything that was left |
| `Walks.LimitBoundIsExact` | crates/klams-store/src/composite.rs:844-849 | the walk is complete for every store if and only if the limit is at most 500 |
| `Base64Url.DecodeEncode` | crates/klams-store/src/composite.rs:790-800 | reading unpadded base64url back gives the bytes (section 5 of RFC 4648) |
| `Base64Url.EncodeDecode` | crates/klams-store/src/composite.rs:796-800 | only the canonical spelling of some bytes is read at all |
| `CursorText.PrintIntReads` | crates/klams-store/src/composite.rs:790-810 | every 128-bit signed integer survives printing and parsing |
| `CursorText.PrintUuidReads` | crates/klams-store/src/composite.rs:790-810 | every UUID survives its hyphenated text (section 4 of RFC 9562), which holds no colon |
| `CursorText.ColonsInUuid` | crates/klams-store/src/composite.rs:802-809 | a readable UUID text has no colon unless it is a URN, which has two |
| `CursorForm.NumberForm` | crates/klams-store/src/composite.rs:802-809 | a time is read exactly from one sign or none and decimal digits, within 128 bits |
| `CursorForm.IdForm` | crates/klams-store/src/composite.rs:802-809 | an id is read exactly from 32 hex digits: plain, in groups of 8, 4, 4, 4 and 12, those in braces, or as a URN |
| `CursorForm.DigitForm` | crates/klams-store/src/composite.rs:802-809 | hex digits are read in either case |
| `CursorForm.Utf8Form` | crates/klams-store/src/composite.rs:796-801 | the decoded bytes are accepted exactly when they are well-formed characters end to end (section 4 of RFC 3629) |
| `Cursor.MergedCursorRoundTrip` | crates/klams-store/src/composite.rs:790-829 | decode of encode returns the same key, and the strict check accepts it |
| `Cursor.SectionedCursorIsTolerated` | crates/klams-store/src/composite.rs:802-829 | a legacy `section:ns:uuid` cursor decodes to its key and the strict check refuses it |
| `Cursor.MergedTextIsNoUuid` | crates/klams-store/src/composite.rs:826-828 | the text of a merged cursor is never itself a UUID spelling |
| `Cursor.StrictCheckByParts` | crates/klams-store/src/composite.rs:818-829 | on two parts the strict check is exactly decodability; on three it always refuses |
| `Cursor.ReadersAgreeOnTwoParts` | crates/klams-store/src/composite.rs:802-829 | the two readers agree on a cursor that either of them takes if and only if it has two parts: an accepted one has two or four, a decodable one two or three |
| `Cursor.UrnCursorIsAcceptedButNotDecoded` | crates/klams-store/src/composite.rs:802-829 | the two functions disagree: a cursor with a URN spelling passes the strict check but does not decode |
| `CursorWalk.CursorCarriesTheKey` | crates/klams-store/src/composite.rs:859-1038 | the string handed to the client stands for exactly the keyset it was made from if its time is in the calendar, and for none otherwise |
| `CursorWalk.CursorWalkIsKeysetWalk` | crates/klams-store/src/composite.rs:859-1038 | the walk a client makes by passing strings back is the keyset walk, page for page |
| `Facts.OneEntry` | crates/klams-store/src/postgres.rs:439-462 | one committed effect raises a fact by one version exactly when it writes it, and otherwise leaves its content |
| `Facts.VersionCountsWrites` | crates/klams-store/src/postgres.rs:344-489 | after any serial history a fact is at the number of its committed payload changes and shows the last one |
| `Facts.TrustOrder` | crates/klams-types/src/entities.rs:51-58 | a user outranks a controller, a controller a task, and a task an agent proposal |
| `Facts.OneEntryOnFlags` | crates/klams-store/src/postgres.rs:439-462 | a fact keeps its type for good and is deleted when the last effect to say so said it |
| `Facts.OneEntryOnDissents` | crates/klams-store/src/postgres.rs:403-421 | exactly the dissent an effect names is filed as pending, counted once more, or resolved; no other changes |
| `FactHistory.RowShowsItsVersion` | crates/klams-store/src/postgres.rs:439-462 | whenever a fact is at version v it shows what its v-th write stored |
| `FactHistory.ExpectedVersionNamesTheWrite` | crates/klams-store/src/postgres.rs:430-438 | a write expecting version v is write number v + 1 and overwrites exactly what write v stored |
| `FactHistory.OneWriterPerVersion` | crates/klams-store/src/postgres.rs:430-462 | at most one committed write expects a given version of a given fact |
| `FactHistory.EveryVersionIsJustified` | crates/klams-store/src/postgres.rs:391-463 | each later version is an amend of at least the replaced source's trust, or the promotion of a dissent then pending on that fact |
| `FactHistory.OnlyPromotionLowersTrust` | crates/klams-store/src/postgres.rs:398-438 | without promotions a fact never moves to a less trusted source |
| `FactHistory.ResolvedIsFinal` | crates/klams-store/src/postgres.rs:639-695 | a promoted or discarded dissent row never changes again |
| `FactHistory.ResolvedOnce` | crates/klams-store/src/postgres.rs:639-726 | of any promotions and discards of one dissent exactly one commits |
| `FactHistory.DissentJustifiesOneVersion` | crates/klams-store/src/postgres.rs:617-698 | no dissent justifies two versions, of one fact or of two |
| `FactHistory.PendingIsDeduplicated` | crates/klams-store/src/postgres.rs:403-420 | no two pending dissents share fact and payload hash |
| `FactHistory.IndexHolds` | crates/klams-store/src/postgres.rs:352-360 | no two facts of a type share a hash, and every hash names its stored payload |
| `FactHistory.SubmissionsAreConserved` | crates/klams-store/src/postgres.rs:563-591 | the submission counts sum to the submissions accepted by upsert and propose together |
| `FactTx.TxOkFrame` | crates/klams-store/src/postgres.rs:353-360 | what a transaction read under a lock stays true while others respect the lock |
| `FactTx.InstallDisturbsNobody` | crates/klams-store/src/postgres.rs:439-462 | a commit under its own locks changes nothing another transaction has locked |
| `FactTx.CommitIsLegal` | crates/klams-store/src/postgres.rs:439-462 | a row image computed earlier is, at commit, still a legal effect on the committed rows |
| `FactSafety.StepKeepsInv` | crates/klams-store/src/postgres.rs:344-698 | every statement of every transaction keeps the lock invariant |
| `FactSafety.EveryRunIsSerial` | crates/klams-store/src/postgres.rs:344-730 | every interleaving of any number of transactions, with aborts anywhere, leaves a serial history that replays to the committed rows |
| `FactSafety.ConcurrentStoreIsSafe` | crates/klams-store/src/postgres.rs:344-730 | so in every interleaving versions count and name writes, each version is justified, one writer per version, one resolution and one version per dissent, resolved rows stay, pending ones are deduplicated, the unique index holds and submissions add up |
| `FactRequests.EveryCommitAnswersItsRequest` | crates/klams-store/src/postgres.rs:344-730 | in every run each logged effect answers the request of the transaction that committed it: an upsert touches a row with its content, creates or amends its explicit id, or submits against it, always with its kind, payload and source; a proposal submits against its fact; a promotion or discard resolves its own dissent for its own caller, at its version |
| `FactRequests.EveryAnswerCanBeHad` | crates/klams-store/src/postgres.rs:344-730 | and from a quiet state each such effect that is legal is what some single transaction commits |
| `FactSafety.PromoteAndDissentCanCross` | crates/klams-store/src/postgres.rs:650-656 | whenever a promotion holds a dissent and a repeated dissenting upsert its fact, neither next statement can run |
| `FactCrossing.ProtocolCanDeadlock` | crates/klams-store/src/postgres.rs:403-421 | such a state is reached: fifteen statements from the empty store, written out, leave a promotion and a dissenting upsert each waiting for the other |
| `FactStore.Store.Upsert` | crates/klams-store/src/postgres.rs:344-489 | all four routes of the canonical write, with the whole new state of each |
| `FactStore.Store.SubmitDissent` | crates/klams-store/src/postgres.rs:403-421 | a pending twin is counted once more, otherwise one new pending row appears |
| `FactStore.Store.Propose` | crates/klams-store/src/postgres.rs:538-592 | missing or soft-deleted facts refuse; otherwise exactly one submission is recorded |
| `FactStore.Store.Promote` | crates/klams-store/src/postgres.rs:617-698 | persists exactly when the dissent is pending, its fact exists at the expected version and the unique index allows it |
| `FactStore.Store.Discard` | crates/klams-store/src/postgres.rs:701-730 | resolves exactly the pending dissent and changes nothing otherwise |
| `RowLocks.RunKeepsInv` | crates/klams-store/src/postgres.rs:768-844 | in every run a row is owned exactly by the running statement that has taken it, and no two have taken the same row |
| `RowLocks.WantsClimb` | crates/klams-store/src/postgres.rs:785-844 | along any chain of waiters the wanted ids climb |
| `RowLocks.NoDeadlockCycle` | crates/klams-store/src/postgres.rs:785-844 | the wait-for graph of any reachable state has no cycle |
| `RowLocks.NeverStuck` | crates/klams-store/src/postgres.rs:785-844 | in any reachable state with work left some statement can go on |
| `RowLocks.RunsAreBounded` | crates/klams-store/src/postgres.rs:785-844 | every step uses up one unit of the remaining work |
| `RowLocks.AllFinish` | crates/klams-store/src/postgres.rs:785-844 | a run of full length has finished everyone and a shorter one can be continued |
| `RowLocks.OppositeOrdersCanDeadlock` | crates/klams-store/src/postgres.rs:768-784 | without the common order two statements can block each other |
| `Decay.DrainIntoBatch` | crates/klams-core/src/decay.rs:59-75 | whatever waits in the channel becomes one ascending list of unique ids to lock |
| `Decay.Dedup` | crates/klams-core/src/decay.rs:70-71 | adjacent deduplication of a sorted list leaves each id once |
| `Decay.TickOnce` | crates/klams-core/src/decay.rs:139-176 | over a table that may change before every batch ids climb, nothing is updated twice and the tick ends; up to a batch size of 5000 every fact that stays live is updated, by full batches until one is not, above it only the first 5000 |
| `Decay.PendingAfter` | crates/klams-store/src/postgres.rs:731-766 | what is pending after a batch is the rest of what was pending before it |
| `MarkdownPaths.MarkdownBlocks` | crates/klams-scanner/src/chunk.rs:334-388 | one block for each stretch of text between headings that is not all blank, in order: its lines joined, under no path where no heading governs them and otherwise the titles of the governing headings, in document order, joined by " > " |
| `MarkdownForm.HeadingForm` | crates/klams-scanner/src/chunk.rs:309-323 | a line is a heading exactly when, less than four columns in, one to six number signs are followed by a space or tab; the title is the rest, trimmed |
| `MarkdownForm.FenceForm` | crates/klams-scanner/src/chunk.rs:275-292 | a line opens a fence exactly when, less than four columns in, it has three or more backticks or tildes and, after backticks, no further backtick |
| `MarkdownForm.CloseForm` | crates/klams-scanner/src/chunk.rs:296-303 | a line closes a fence exactly when, less than four columns in, it has at least as many of its marks and then only white space |
| `CharText.TrimForm` | crates/klams-scanner/src/chunk.rs:322 | trimming cuts the white space at both ends and nothing else |
| `Markdown.PopDeeper` | crates/klams-scanner/src/chunk.rs:365-372 | popping leaves the headings above the new level |
| `MarkdownSpec.FenceRunsToItsClose` | crates/klams-scanner/src/chunk.rs:275-305 | a fence is open from its opener to the first line that closes it, or to the end of the file |
| `MarkdownSpec.GoverningHeading` | crates/klams-scanner/src/chunk.rs:309-332 | a new heading leaves, of the governing ones, exactly those of smaller level |
| `MarkdownSpec.StackIsGoverning` | crates/klams-scanner/src/chunk.rs:334-388 | at every line the stack holds exactly the earlier out-of-fence headings with no later heading of their level or above, levels strictly climbing |
| `MarkdownSpec.BodyIsItsLines` | crates/klams-scanner/src/chunk.rs:334-388 | a body is its lines joined, without the empty lines it would start with |
| `MarkdownSpec.BodyLinesComeBack` | crates/klams-scanner/src/chunk.rs:334-388 | splitting a body at newlines gives those lines back unchanged and in order |
| `MarkdownSpec.SectionsPartitionTheBody` | crates/klams-scanner/src/chunk.rs:334-388 | sections are in order, hold no heading, have one governing path and a non-blank body, and cover every body line |
| `MarkdownSpec.ExactlyOneSection` | crates/klams-scanner/src/chunk.rs:334-388 | every non-blank line that is no heading lies in exactly one section |
| `MarkdownSpec.SectionPathIsGoverning` | crates/klams-scanner/src/chunk.rs:334-388 | a section's path is exactly the headings that govern each of its lines |
| `MarkdownPaths.SectionStandsUnder` | crates/klams-scanner/src/chunk.rs:369-375 | so a block carries the titles of the headings that govern each of its lines, first to last |
| `MarkdownPaths.ScanRuns` | crates/klams-scanner/src/chunk.rs:334-388 | a section runs from one heading, or the start, to the next heading or the end |
| `Packing.PackBlocks` | crates/klams-scanner/src/chunk.rs:405-446 | its loop pushes exactly the pieces described, in order |
| `Packing.AppendPiece` | crates/klams-scanner/src/chunk.rs:448-459 | a scrap joins the piece before it when the heading path is the same |
| `Packing.PackingIsFaithful` | crates/klams-scanner/src/chunk.rs:405-459 | every piece is consecutive blocks of one path, or one window; every non-blank block is used once, in order; at most one scrap is absorbed |
| `Packing.PiecesAreBounded` | crates/klams-scanner/src/chunk.rs:405-459 | no piece exceeds 800 + 2 + 63 characters |
| `Packing.PackingIsTight` | crates/klams-scanner/src/chunk.rs:405-459 | neighbouring plain pieces of one path could not have been merged |
| `Packing.NoScrapIsLeft` | crates/klams-scanner/src/chunk.rs:448-459 | a scrap of under 64 bytes stands alone only behind a piece of another path |
| `Windows.SplitOnCharWindow` | crates/klams-scanner/src/chunk.rs:236-254 | the splitting loop yields exactly the windows |
| `Windows.SplitIsWindows` | crates/klams-scanner/src/chunk.rs:236-254 | each window starts where the one before it ends, less 200 characters or a quarter window, and the first to reach the end is the last |
| `Windows.LaterWindowsRebuild` | crates/klams-scanner/src/chunk.rs:463-480 | windows after the first, without their overlap, are the rest of the text |
| `Windows.SplitIsLossless` | crates/klams-scanner/src/chunk.rs:236-254 | dropping the overlap from each later piece rebuilds the text |
| `Windows.SplitSizes` | crates/klams-scanner/src/chunk.rs:236-254 | no piece is longer than the window and all but the last fill it |
| `Windows.LosslessWindows` | crates/klams-scanner/src/chunk.rs:236-254 | splitting is lossless if and only if the window is at least one character, or the text is empty |
| `Windows.EnforceLimit` | crates/klams-scanner/src/chunk.rs:211-232 | the first fitting window among the halvings wins, else the 64-character split; the result fits throughout or is that split |
| `CodeBlocks.CodeBlocks` | crates/klams-scanner/src/code.rs:28-66 | the span loop yields exactly the chunks of its groups |
| `CodeBlocks.EmitGroup` | crates/klams-scanner/src/code.rs:50-56 | a non-blank group is windowed under the group's symbols |
| `CodeBlocks.GroupsCloseAsSoonAsFull` | crates/klams-scanner/src/code.rs:46-59 | a group closes at the first item that fills it; only the last may stay short |
| `CodeBlocks.GroupsRebuildTheSource` | crates/klams-scanner/src/code.rs:28-60 | end to end the groups are the source up to the last item and hold every symbol once, in order |
| `Budget.GuardIsExact` | crates/klams-core/src/context.rs:427-428 | the saturating guard means "still fits" if and only if the budget is below the largest 32-bit value |
| `Budget.TakeFloor` | crates/klams-core/src/context.rs:470-489 | a floor pass splits its section in order, keeps each item that fits while below the floor, and with small items keeps a prefix worth the floor or everything |
| `Budget.TakeFloors` | crates/klams-core/src/context.rs:383-418 | the three passes stay within budget and pool what they left, facts before knowledge before events, each in its order |
| `Budget.FillFromPool` | crates/klams-core/src/context.rs:425-437 | the greedy fill conserves items, leaves nothing that would fit, and drops an item only when better-scored kept items left no room |
| `Budget.BestTopIsBest` | crates/klams-core/src/context.rs:442-451 | the rescued candidate has the highest score there is |
| `Sorting.SortIsStable` | crates/klams-core/src/context.rs:345-353 | sorting leaves elements that tie in their old order |
| `Sorting.SortIsTheStableOne` | crates/klams-core/src/context.rs:345-353 | and there is only one sorted arrangement that does |
| `Budget.FillPrefersAhead` | crates/klams-core/src/context.rs:419-437 | within a section, of two items of one score the fill drops the earlier only for want of the room it took itself; across sections a better item, or one as good of an earlier section, is dropped only when it is larger |
| `Budget.RescuePreferred` | crates/klams-core/src/context.rs:442-451 | the rescued item is the best there is, the last section and the earliest item of it winning ties |
| `Budget.AllocateBudget` | crates/klams-core/src/context.rs:334-468 | kept and dropped are the input, spent is the kept total; if anything fits alone the result is within budget and maximal, and a dropped item had no room beside the floors and kept items at least as good, else one best item; no section is starved of its floor; of equal scores the earlier item is preferred, and in the pool facts before knowledge before events |
| `KnowledgePage.GlobalPage` | crates/klams-core/src/retrieval.rs:704-724 | global hits become entries ranked from zero, each with its weight |
| `KnowledgePage.NewcomerFacts` | crates/klams-core/src/retrieval.rs:766-790 | exactly the ids the page lacks join, each once |
| `KnowledgePage.NewcomerIsFirst` | crates/klams-core/src/retrieval.rs:766-790 | a newcomer carries the first hit of its id |
| `KnowledgePage.NewcomersInOrder` | crates/klams-core/src/retrieval.rs:766-790 | newcomers join in the order of the list |
| `KnowledgePage.KnowledgePage.AppendAuxList` | crates/klams-core/src/retrieval.rs:766-790 | the list's own order is returned; only first newcomers are appended; ids stay unique, ranks contiguous, old weights untouched |
| `KnowledgePage.KnowledgeCandidates` | crates/klams-core/src/retrieval.rs:614-747 | the page is the global hits, then the curated hits it lacked, then the lexical hits both lacked; every id is weighed by the hit that brought it |
| `Collapse.FirstsFacts` | crates/klams-core/src/dedupe.rs:48-60 | survivors have distinct keys and each is the very first entry of its key |
| `Collapse.FirstsAreInOrder` | crates/klams-core/src/dedupe.rs:48-60 | survivors keep their order |
| `Collapse.FirstPlaces` | crates/klams-core/src/dedupe.rs:48-68 | survivors are exactly the entries with no key or with nothing of their key before them, in order |
| `Collapse.RunPlaces` | crates/klams-core/src/dedupe.rs:48-68 | what a survivor carries are exactly the later entries of its key, in order |
| `Collapse.AbsorbedSnoc` | crates/klams-core/src/dedupe.rs:54-56 | one more entry of a key is one more copy for that key's survivor and nobody else |
| `Collapse.CollapseDuplicates` | crates/klams-core/src/dedupe.rs:41-63 | survivors are the firsts, each carrying every later entry of its key in order; survivors plus copies are the candidates |
| `Fusion.Rrf` | crates/klams-core/src/hybrid.rs:327-346 | for whatever order the maps iterate in, the result holds each id once with its exact score, in strict order |
| `Fusion.Finalize` | crates/klams-core/src/hybrid.rs:416-438 | scores are written back and the sort leaves a strict order |
| `Fusion.KeepsFirstStep` | crates/klams-core/src/hybrid.rs:340-342 | the row kept for an id is the first one seen, whatever comes later |
| `Fusion.FusedIsUnique` | crates/klams-core/src/hybrid.rs:420-437 | map iteration order cannot influence the result |
| `Fusion.PrecedesIsBefore` | crates/klams-core/src/hybrid.rs:429-436 | one id is listed before another exactly when its fused row wins on score, source, id |
| `Fusion.TotalScoreOfPermuted` | crates/klams-core/src/hybrid.rs:331-343 | an id's score does not depend on the order of the lists |
| `Fusion.ListOrderIsIrrelevant` | crates/klams-core/src/hybrid.rs:327-346 | with one source per id, handing the lists over in another order changes no position and no score |
| `Fusion.OnlyTiesCanMove` | crates/klams-core/src/hybrid.rs:327-346 | for any lists, only ids tied on score can change places, and only if one of the two comes under two sources |
| `Fusion.ListOrderCanMatter` | crates/klams-core/src/hybrid.rs:340-342 | and then they can: two lists of two ids whose order decides the order of the result |
| `Fusion.RaisingNeverLowers` | crates/klams-core/src/hybrid.rs:335-339 | raising one id's weight never moves it down and never reorders the others |
| `Reranker.Rerank` | crates/klams-store/src/rerank.rs:90-150 | accepted if and only if every text is scored exactly once, then a permutation by score and index; otherwise the first bad index or the wrong count |
| `Reranker.NoneRefused` | crates/klams-store/src/rerank.rs:115-135 | one pass looking back, plus the count, decides that |
| `Reranker.EveryTextIsScored` | crates/klams-store/src/rerank.rs:115-135 | an accepted answer leaves no text out |
| `SearchPage.CollapsedIsDistinct` | crates/klams-core/src/retrieval.rs:1066-1090 | after collapse no id and no content hash is repeated |
| `SearchPage.CollapseConserves` | crates/klams-core/src/retrieval.rs:1066-1090 | survivors plus what they recorded are the candidates |
| `SearchPage.CollapseTells` | crates/klams-core/src/retrieval.rs:1066-1090 | the first candidate of each content survives in its order, otherwise untouched, and records each later one in order, by id, host and path |
| `SearchPage.RanksClimb` | crates/klams-core/src/retrieval.rs:1101-1114 | within a kind the new ranks climb with the list and stay below the kind's count |
| `SearchPage.EveryRankIsTaken` | crates/klams-core/src/retrieval.rs:1101-1114 | and every rank below that count is taken: no hole |
| `SearchPage.RankMap` | crates/klams-core/src/retrieval.rs:1304-1317 | the scored window gets ranks in scorer order, the tail the following ones, nothing else a rank |
| `SearchPage.LeadersArePermuted` | crates/klams-core/src/retrieval.rs:1318-1334 | reordering by the window's indices loses no entry |
| `SearchPage.SortedKnowledge` | crates/klams-core/src/retrieval.rs:1318-1334 | sorting by the new ranks puts the window first and the tail after it |
| `SearchPage.FusedSource` | crates/klams-core/src/retrieval.rs:1194-1221 | an entry's fused row keeps the source of its own kind, whatever the auxiliary lists say |
| `SearchPage.SearchSourcesAreOnePerId` | crates/klams-core/src/retrieval.rs:1194-1221 | a search hands over lists with one source per id if and only if its auxiliary lists name no fact or event |
| `Search.Ranking.RetainTags` | crates/klams-core/src/retrieval.rs:330-343 | keeps exactly the memories with every wanted tag |
| `Search.Ranking.CollapseDuplicatesInPlace` | crates/klams-core/src/retrieval.rs:1066-1090 | the page becomes the first of each content, in order, each recording the later ones in order; nothing is lost |
| `Search.Ranking.DropGhosts` | crates/klams-core/src/retrieval.rs:351-359 | every id of the auxiliary orders is on the page; ids on the page stand in them as often as before and in the same order |
| `Search.Ranking.RenumberSourceRanks` | crates/klams-core/src/retrieval.rs:1101-1114 | each entry's rank is how many of its kind stand before it |
| `Search.Ranking.ApplyRerankOrder` | crates/klams-core/src/retrieval.rs:1297-1338 | window in scorer order, then the knowledge tail, then the rest untouched; the auxiliary orders are reordered as the page is, ties staying as they were |
| `Search.Ranking.RerankStage` | crates/klams-core/src/retrieval.rs:1253-1289 | fewer than two candidates or a refused answer change nothing |
| `Search.Ranking.FuseInPlace` | crates/klams-core/src/retrieval.rs:1172-1230 | the same memories, each with its weight times the reciprocal ranks of its places, in strict order of score, kind, id |
| `SearchScore.TotalIsPlaced` | crates/klams-core/src/retrieval.rs:1172-1230 | what the fused rows of a memory add up to is its recorded weight, or 1 without one, times the sum of 1/(k + place + 1) over its place among its own kind and its places in the curated and lexical orders |
| `SearchScore.FusedIsPlaced` | crates/klams-core/src/retrieval.rs:1172-1230 | and that is the score fusion gives it |
| `Search.RankPage` | crates/klams-core/src/retrieval.rs:330-413 | the stages in order; the page repeats no id and no content, and before truncation survivors plus copies are the tagged candidates, each the first of its content; every score is the weight times the reciprocal ranks of the places |
| `Search.RunSearch` | crates/klams-core/src/retrieval.rs:267-413 | from the sources' hits to the page: tags, collapse, rerank, fusion and truncation in order on the knowledge page followed by fact and event rows; every score is the hit's weight times the reciprocal ranks of the memory's places |
| `ScanStore.Cursor.ListAll` | crates/klams-scanner/src/cursor.rs:101-117 | every row exactly once, in any order |
| `ScanStore.WorkMoves` | crates/klams-core/src/worker.rs:77-106 | workers take up queued writes in any order and store or drop them: what was acknowledged stays accounted for, nothing stored goes |
| `ScanStore.IndexingFacts` | crates/klams-api/src/handlers/knowledge.rs:95-157 | an index request acknowledges at most its own chunk and answers before it is stored; other files are untouched |
| `ScanStore.DeletingFacts` | crates/klams-api/src/handlers/knowledge.rs:185-225 | a delete that succeeds leaves of the file exactly what is still queued; one that fails can only take away |
| `ScanStore.PublishChunk` | crates/klams-scanner/src/publish.rs:41-104 | only a full queue is retried, twelve times at most, with the delays slept in between; the verdict is that of the last reply |
| `ScanStore.PublishingFacts` | crates/klams-scanner/src/publish.rs:41-104 | the path is acknowledged at most this chunk, however often it is offered; accepted means it was |
| `ScanStore.WorstCaseWait` | crates/klams-scanner/src/publish.rs:11-20 | giving up costs 422 seconds of sleep |
| `Scan.Scanner.ClearStale` | crates/klams-scanner/src/lib.rs:185-207 | the delete before a reindex performs the clearing step; the path is torn until the new chunks are in |
| `Scan.Scanner.Reindex` | crates/klams-scanner/src/lib.rs:209-243 | performs the reindexing step: every chunk is offered even after a failure, and the cursor advances only when all got through |
| `Scan.Scanner.ScanFile` | crates/klams-scanner/src/lib.rs:154-244 | performs one visit, with its seven ways to end |
| `Scan.Scanner.PruneOne` | crates/klams-scanner/src/lib.rs:259-266 | performs the prune of one vanished file: its copies, then its row |
| `Scan.Scanner.Prune` | crates/klams-scanner/src/lib.rs:246-268 | prunes the unlisted rows under this root in the order listed |
| `Scan.Scanner.ScanFiles` | crates/klams-scanner/src/lib.rs:154-244 | visits the listed files in turn whatever became of the others, unless the scanner dies |
| `Scan.Scanner.ScanRoot` | crates/klams-scanner/src/lib.rs:134-268 | performs one scan, however it ends; what that keeps and achieves follows |
| `ScanSafety.OfferingFacts` | crates/klams-scanner/src/lib.rs:209-225 | publishing a file acknowledges only its storable chunks, and all of them unless something failed |
| `ScanSafety.ClearingFacts` | crates/klams-scanner/src/lib.rs:185-207 | a delete that succeeds leaves of the path what is queued, and nothing if nothing is |
| `ScanSafety.ReindexingFacts` | crates/klams-scanner/src/lib.rs:209-243 | the cursor advances exactly when every chunk got through; then the path holds what it held plus all storable chunks |
| `ScanSafety.VisitingMoves` | crates/klams-scanner/src/lib.rs:154-244 | a visit touches this path of this host and nothing else |
| `ScanSafety.VisitingKeeps` | crates/klams-scanner/src/lib.rs:154-244 | whatever fails during a visit, off the torn paths what is acknowledged is exactly the storable chunks of what the cursor indexes |
| `ScanSafety.IndexedExactly` | crates/klams-scanner/src/lib.rs:178-243 | after an indexing visit the file's copies are its storable chunks if and only if everything that outlived the delete (queued writes, or without a row all that was held) is among them |
| `ScanSafety.NothingQueuedNothingSurvives` | crates/klams-scanner/src/lib.rs:194-207 | with nothing of the path queued, nothing outlives the delete |
| `ScanSafety.UnchangedExactly` | crates/klams-scanner/src/lib.rs:178-184 | a visit that finds the hash unchanged leaves copies as they are, so what was missing or stale stays |
| `ScanSafety.SettledExactly` | crates/klams-core/src/worker.rs:77-106 | once the workers are through with an indexed path, the store holds exactly its chunks if and only if none of them was dropped for good and no stored survivor of the delete is foreign to it |
| `ScanSafety.PruningOneFacts` | crates/klams-scanner/src/lib.rs:259-266 | a pruned row means no copies if nothing was queued; a row that stays is torn unless the scanner died |
| `ScanSafety.WorkIsElsewhere` | crates/klams-core/src/worker.rs:77-106 | workers may run at any time between scans: they change no row and nothing that is acknowledged |
| `ScanSafety.ScanningKeeps` | crates/klams-scanner/src/lib.rs:134-268 | a whole scan, through any failures and a stop anywhere, keeps the agreement |
| `ScanSafety.ScanningTouches` | crates/klams-scanner/src/lib.rs:246-256 | and leaves other hosts and everything outside its root alone |
| `ScanSafety.EveryHistoryAgrees` | crates/klams-scanner/src/lib.rs:134-268 | after any scans of any roots with workers in between, an untorn indexed path has acknowledged exactly its chunks, and the store holds exactly those if and only if none is still queued or was dropped for good |
| `ScanSafety.OutsideEveryRoot` | crates/klams-scanner/src/lib.rs:246-256 | over any such history a path under no scanned root keeps its row and its copies |
| `ScanSafety.ScanMirrors` | crates/klams-scanner/src/lib.rs:134-268 | whatever failed around it, each completed visit leaves its file's row, and from a healable start exactly its chunks, to the end of the scan |
| `ScanSafety.ScanCompletes` | crates/klams-scanner/src/lib.rs:134-268 | a scan that is not stopped leaves under its root only listed files and torn ones; with every request served all visits complete and only listed files are left |
| `ScanWitness.DroppedAfterIndexing` | crates/klams-core/src/worker.rs:59-75 | every request is served, a worker's embed fails, and the indexed file's only chunk is not in the store |
| `ScanWitness.LandsAfterTheDelete` | crates/klams-api/src/handlers/knowledge.rs:1-9 | every request is served, the old chunk is still queued at the delete, and lands beside the new one |
| `ScanWitness.EditThenRevert` | crates/klams-scanner/src/lib.rs:178-239 | edit, failed reindex, undo: the cursor calls the file unchanged while the store holds nothing of it |
| `ScanWitness.FailThenEdit` | crates/klams-scanner/src/lib.rs:194-243 | a new file edited after a half-failed publish counts as indexed and keeps the chunk that had landed |
| `ScanWitness.FailThenVanish` | crates/klams-scanner/src/lib.rs:251-266 | or vanishes, and keeps it without a row |
| `Repair.OnlySystemRowsChange` | crates/klams-store/src/repair.rs:84-103 | an apply changes only the author of system-owned rows, never the row count, and never gives a row to the system |
| `Repair.FactIsAwarded` | crates/klams-store/src/repair.rs:112-173 | a system-owned fact goes to the one known author of the events that name it, to the lost author if there are several or that one is gone, and stays if there is none; judged by the events as they were |
| `Repair.EventIsAwarded` | crates/klams-store/src/repair.rs:127-173 | a system-owned event likewise, by the events of its task |
| `Repair.InterruptedRepairCompletes` | crates/klams-store/src/repair.rs:265-340 | running the event repair again after it stopped anywhere ends where an uninterrupted run would have |
| `Repair.OwnerIsStable` | crates/klams-store/src/repair.rs:127-173 | a task keeps its owner however much of the repair has been written |
| `Repair.SecondApplyKeepsEvents` | crates/klams-store/src/repair.rs:84-103 | a second apply changes no event |
| `Repair.WhenASecondApplyMatters` | crates/klams-store/src/repair.rs:84-125 | a second apply changes a fact if and only if no event named its author and the first apply reassigned an event that names it |
| `Repair.OneApplyMayNotSuffice` | crates/klams-store/src/repair.rs:90-91 | such tables exist |
| `Repair.ThirdApplyChangesNothing` | crates/klams-store/src/repair.rs:84-103 | a third apply changes nothing |
| `RepairRun.Tally` | crates/klams-store/src/repair.rs:236-254 | the counters, the writes and the count per author of one pass |
| `RepairRun.BucketsSum` | crates/klams-store/src/repair.rs:231-254 | the three buckets sum to the total, the reassigned ones to the writes |
| `RepairRun.BuildPerAuthor` | crates/klams-store/src/repair.rs:199-217 | one line per author given rows, by count and then agent name, for whatever order the map iterates in |
| `RepairRun.DryRunPredictsApply` | crates/klams-store/src/repair.rs:256-262 | a dry run's report is an apply's, line for line unless two authors tie on count and agent name |
| `RepairRun.GroupByAuthor` | crates/klams-store/src/repair.rs:320-323 | grouping keeps every assignment under its author |
| `RepairRun.WrittenIsRepaired` | crates/klams-store/src/repair.rs:311-340 | grouped and chunked writes are the pointwise assignment; stopped half-way they are a partial one |
| `RepairRun.Repository.ApplyUpdates` | crates/klams-store/src/repair.rs:311-340 | after the last chunk exactly the assigned rows have exactly their assigned authors |
| `RepairRun.Repository.RepairFacts` | crates/klams-store/src/repair.rs:219-263 | the report and, when applying, the pointwise repaired facts |
| `RepairRun.Repository.RepairEvents` | crates/klams-store/src/repair.rs:265-309 | the report and, when applying, the pointwise repaired events |
| `RepairRun.Repository.RepairKnowledge` | crates/klams-store/src/repair.rs:342-407 | page after page every system point with a UUID is counted once and left, in either mode |
| `RepairRun.Repository.ReattributeSystemOwned` | crates/klams-store/src/repair.rs:84-103 | facts, events, knowledge in turn; all three reports describe the tables as they were, in either mode |

## Left out

- HTTP, MCP, typed client, middleware, metrics, logs, configuration and command lines: plumbing.
- PostgreSQL, Qdrant, SQLite, the embedder, tree-sitter and the cross-encoder are replaced by their contracts: an
  ordered page below a keyset, atomic statements under row locks, a durable map, ordered item spans, any answer.
- Hashes are taken to identify contents: SHA-256 of a file and the canonical hash of a payload are the values
  themselves.
- Floating point: scores, weights and ranks are reals, so rounding, the order of additions and NaN are not modelled,
  and the tenth of the budget set aside for a section is an integer parameter.
- Author, time and state filters of the timeline's SQL are taken as already applied to the tables; the author
  timeline (`crates/klams-store/src/composite.rs:645-707`) is this query with one author and is not repeated.
- Rows with timestamps outside the calendar: `CursorWalk` reads such a cursor as "from the start" and claims nothing
  else about it.
- Hard deletion of facts and the `orphaned` dissent status, which a store trigger outside these files sets; the
  `dissent_count` column and its triggers, with the locks they take.
- Interleaving in `FactStore`: its methods run one at a time; `FactTx` is the interleaved protocol.
- Weighted fusion: inside a search every row carries score zero under it. Only reciprocal rank fusion is modelled.
- Provenance tiers, age demotion, the boost threshold and the fact and event candidate stage are inputs to the
  ranking; raw scores kept for the miss log are not modelled.
- The outer `chunk` function: the breadcrumb it prepends, the 40-character floor for markdown bodies and the
  numbering of chunks; `plain_blocks`; text normalisation.
- `derive_repo` and its cache, which only label chunks.
- `apply_qdrant_updates`: the knowledge repair never has an assignment to write.
- Points added or removed while the knowledge repair scrolls.
- A file changed without a new modification time: it is skipped, as in the code, and the agreement is about the
  content the cursor hashed. Each file's content and modification time are given to the scan.
- Retries sleep; the model adds up the delays and has no clock.
- Search.RankPage: takes the candidates' ids as distinct and their copies lists as empty, which the projections and
  the primary keys provide; `Search.RunSearch` derives the first for overlapping knowledge lists.
- MarkdownPaths.MarkdownBlocks: takes the file's lines, already cut at newlines.
- Timeline.PageFacts: takes the limit as at most 500, the bound `Walks.LimitBoundIsExact` shows to be exact, and keys as
  unique, which ids are.
- Budget.AllocateBudget: takes the budget as below the largest 32-bit value, the bound `Budget.GuardIsExact` shows to be
  exact; at that value the addition after the guard overflows.
- Fusion.ListOrderIsIrrelevant: takes lists with one source per id; `Fusion.OnlyTiesCanMove` says what is left without,
  and `SearchPage.SearchSourcesAreOnePerId` when a search provides it.
- Search.RunSearch: takes the fact and event rows' ids as distinct and apart from the knowledge ids; ids are unique
  across the store.
- Decay.TickOnce: the decay weights it writes, an exponential in 32-bit floats, and rows deleted between the select and
  the update.
- The capacity of the service's write queue: whether a request is turned away comes from the replies. A service
  restart, which loses the queue, is workers dropping all of it.
