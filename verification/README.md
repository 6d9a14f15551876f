# Verification of the desk's and the dev tools' stateful algorithms

This project models, in Dafny, the parts of the repository whose comments and plans make
claims about every run, and proves those claims, or proves exactly when they hold. Check it
with `dafny verify dfyconfig.toml`.

Each module follows one component. The program's loops and updated fields are methods and
classes; each is proved against a function or a predicate, and the claims are lemmas about
those, over every input, every run or every interleaving.

- **Usage history** (`Responses`, `Transcripts`, `UsageStore`, `UsageHistory`, `Tally`).
  Transcripts are append-only files resumed from byte cursors; what is found is merged into
  stored rows by one rule and attributed to issues. Reading incrementally, through any
  appends, scans and rolled-back scans, stores what one whole reading stores; merging is
  free of order; tokens are conserved.
- **Sessions page** (`SessionsReader`, `SessionTree`, `CardForest`, `SessionGroups`, `PageTotals`,
  `Directory`, `TwoBranches`). A second, separately written incremental reader of the same files,
  the tree of cards it draws, the state of every card, and the totals it groups the cards'
  responses into. The two readers keep the same responses, and the two pages' totals for an issue
  differ by exactly what is stored of its responses beyond what the files on drawn cards hold;
  which files those are follows from the names in the directory and what the files say started
  what.
- **Graphs and nesting** (`Chains`, `ImportCycles`, `RouteTree`, `StripComments`). The order of
  a chain of blocked issues, the depth-first search for import cycles, the bracket matcher
  and the walk of the route tree, and the scanner that blanks comments.
- **Protocols** (`Threading`, `Ingestion`, `SuiteQueue`, `SessionsStream`, `SlidingWindow`).
  Email ingestion as lookup, commit and follow-up steps over a unique key, with any number of
  deliveries interleaved; the one-at-a-time suite queue with its bounded replay; the polling
  stream with a reading under way; the rate limiter as a pruned cache of a full history.
- **Text** (`ReplaceOnce`, `RevertLines`). Editing by pairs that occur once, and undoing the edit:
  lines always come back, and their endings exactly when a condition on each step holds.

Five claims of the source turn out not to hold as stated; each has a lemma naming an input
for which it fails and a lemma saying when it holds:

- "Every distinct runtime import cycle": of two rings sharing a module one can be missing
  (`ImportCycles.OneRingHidden`). Every ring is reported, whatever order the modules and their
  imports are listed in, exactly when no import lies on two rings
  (`ImportCycles.EveryRingReportedIffApart`); for one order a ring is reported exactly when the
  search followed each of its imports (`ImportCycles.RingReportedIffFollowed`). A ring left out
  always shares an import with one reported (`ImportCycles.EveryRingIsShown`).
- "That total is the Usage page's": not when two subagents were each started by the other's call
  (`PageTotals.RingTotalsDiffer`), nor when a response in two files has its copies on the branches
  of two issues (`TwoBranches.TwinTotalsDiffer`). The cards hold all the files' responses exactly
  when every file with one is on a card that leads to a session with a transcript
  (`PageTotals.CardsHoldIffDrawn`). With the copies of each response in one group, the totals are
  the same for every issue exactly when each of an issue's responses is in such a file with all the
  output stored of it (`PageTotals.OneTotalIffNothingHidden`). Of the files in a directory just
  those whose session's transcript is there are on a card, and each on one
  (`Directory.HeldIffHasSession`, `Directory.HeldOnce`).
- A page "is never handed one from before everybody left": it is when a reading was still
  under way as the first page came back, and only then
  (`SessionsStream.HandedOneFromBefore`, `SessionsStream.StaleIffUnderWay`).
- "The pairs file that made an edit undoes it": not when the edit takes a CRLF file's last newline
  out (`ReplaceOnce.CrlfLost`), takes newlines of both kinds (`ReplaceOnce.MixedLost`), puts a lone
  carriage return before a newline (`ReplaceOnce.LfLostToStrayReturn`) or a byte order mark first
  (`ReplaceOnce.MarkLost`; a leading mark is always lost, `ReplaceOnce.LeadingMarkIsLost`). When
  both runs succeed: with one pair, on any text, it does exactly when the edit left no byte order
  mark first and the search string, joined by the ending undoing it writes, is what the edit took
  (`ReplaceOnce.RevertsOneIff`).
  With any number of pairs, on text whose carriage returns all belong to newlines, of either kind
  or mixed, and pairs likewise, the lines always come back unless a mark is left first, and the text
  does exactly when each newline of its own that a step takes has the ending that undoing the
  step writes (`RevertLines.RevertRestoresIff`): so always on LF text
  (`ReplaceOnce.RevertRestoresLf`), and on CRLF text when the edit left a newline
  (`ReplaceOnce.RevertRestoresCrlfIff`). On any text the way back goes text by text through what the
  way out went through exactly when each step, undone, writes what it took
  (`ReplaceOnce.RevertRetraces`).
- A reply never undoes a person's resolution: the stamp of an earlier automatic resolution
  outlives a person's, and a reply then reopens what the person resolved
  (`Ingestion.PersonsResolutionUndone`), exactly when the stamp is still there
  (`Ingestion.StampOutlivesPerson`, `Ingestion.SettledStands`).

## Assumptions

Parsing a line as JSON is a function that is left open; where readings are compared, an
unfinished line parses to nothing or to the record it will be. A cursor's hash stands for the
bytes it is of. An SQL table is a map or a sequence and a transaction is one step, all or
nothing, at whichever statement it fails. Clocks do not go back.

## Model

| member | source | states |
|---|---|---|
| `Responses.GuardedFoldExact` | apps/web/dev/transcripts.ts:346-362 | folding only when a count rises equals folding always, except exactly when the first known context is 0 and nothing else rises |
| `Responses.SqlUpdateIsMerge` | apps/web/dev/usage-store.ts:365-372 | the upsert's SQL expression and `largerCounts` are one rule, unknown contexts included |
| `Responses.MergeAssociates` | apps/web/dev/transcripts.ts:346-355 | merging three copies of a response gives one row however they are grouped |
| `Responses.UpsertAllIsOneMerge` | apps/web/dev/usage-store.ts:358-406 | folding offers into a history is folding them alone and merging the outcome once |
| `Responses.KeptFromFirst` | apps/web/dev/usage-store.ts:361-372 | session, branch and time stay the first offer's, a known window is never lost |
| `Responses.UpsertAllKeepsLargest` | apps/web/dev/usage-store.ts:361-372 | after any offers each stored count is the largest ever offered for its id and was offered |
| `Responses.OrderFree` | apps/web/dev/usage-store.ts:358-406 | two runs of offers with the same elements, in any order and with any repeats, store the same counts and know the same windows |
| `Responses.Absorbed` | apps/web/dev/transcripts.ts:436-451 | offers a history already holds change nothing, to the last field |
| `Responses.OfferedTwiceIsOnce` | apps/web/dev/usage-push.ts:143-209 | a re-push or re-read changes nothing |
| `Transcripts.Keep` | apps/web/dev/transcripts.ts:478-497 | one record more: the list and its index stay the fold of everything kept |
| `Transcripts.ReadLines` | apps/web/dev/transcripts.ts:463-498 | the loop over the lines keeps exactly the fold of the lines' offers, with line numbers counted from the file's top |
| `Transcripts.ReadFile` | apps/web/dev/transcripts.ts:445-507 | one file resumed, skipped or read whole, and the cursor left for it |
| `Transcripts.ReadTranscripts` | apps/web/dev/transcripts.ts:436-511 | a scan's deduplicated list is the fold of all offers and its cursors are one per file |
| `UsageStore.Store.Record` | apps/web/dev/usage-store.ts:358-406 | rows and cursors move together, or neither does, at whichever statement the transaction fails |
| `UsageStore.Store.AddContext` | apps/web/dev/usage-store.ts:272-325 | three statements and a commit: contexts, windows and every cursor forgotten, or, at whichever throws, nothing changed |
| `UsageStore.StorePush` | apps/web/dev/usage-push.ts:173-193 | `inserted` is the number of ids the history did not hold |
| `UsageStore.AcceptPush` | apps/web/dev/usage-push.ts:143-209 | refused exactly for a bad body, no volume or a listing with nowhere to go, and then nothing is stored; else stored and counted, the rows staying when the stamp or the listing throws after them |
| `UsageStore.HistoryPushedWhole` | apps/web/dev/usage-push.ts:79-107 | a history pushed whole is merged row by row into the one that takes it, in whatever order it is sent, and makes an empty one its copy |
| `UsageStore.SixFieldsAfterWhole` | apps/web/dev/usage-push.ts:215-227 | a six-field push after the whole one changes nothing |
| `UsageStore.WholeAfterSixFields` | apps/web/dev/usage-push.ts:215-227 | the whole push after the six-field one leaves what it alone would |
| `UsageStore.SixFieldsAddNoCount` | apps/web/dev/usage-push.ts:256-268 | a six-field push beside the whole one leaves every count as the whole push alone leaves it |
| `UsageHistory.ScanInto` | apps/web/dev/usage-store.ts:358-406 | one scan from the stored cursors into the store is one step of a history, committed or rolled back |
| `UsageHistory.StoringListIsStoringOffers` | apps/web/dev/transcripts.ts:437-510 | storing the deduplicated list is storing every offer |
| `UsageHistory.OffersGrow` | apps/web/dev/transcripts.ts:427-435 | more of a file offers what it offered before, first and in the same order |
| `UsageHistory.OffersSplit` | apps/web/dev/transcripts.ts:455-474 | whole lines can be read apart, the rest numbered from where they end |
| `UsageHistory.ResumedReadIsTheRest` | apps/web/dev/transcripts.ts:445-507 | a resumed reading takes exactly what the whole reading would, less what was taken before |
| `UsageHistory.CursorStaysValid` | apps/web/dev/transcripts.ts:498-505 | the cursor a reading leaves stands for what was read |
| `UsageHistory.RunStaysCovered` | apps/web/dev/transcripts.ts:436-511 | after any appends, scans and rolled-back scans every cursor is behind only what has been offered |
| `UsageHistory.GoodScanCatchesUp` | apps/web/dev/transcripts.ts:436-511 | one committed scan of the whole files has offered everything they hold |
| `UsageHistory.IncrementalCountsEqualWhole` | apps/web/dev/transcripts.ts:436-511 | incremental and whole reading store the same counts, ids in several files and pushes between scans included |
| `UsageHistory.IncrementalEqualsWhole` | apps/web/dev/transcripts.ts:436-511 | with each id in one file they store the same rows, line-numbered ids and half-written tails included |
| `UsageHistory.MigrationHeals` | apps/web/dev/usage-store.ts:265-276 | after the migration one good scan leaves a context and a window known exactly for the responses a transcript still holds, and loses no row or count |
| `Tally.AddToWindow` | apps/web/dev/transcripts.ts:598-607 | one window's share joined: turns added, the larger peak kept |
| `Tally.TallyBranches` | apps/web/dev/transcripts.ts:552-590 | every branch's totals are the summary of the rows on it, the rest unattributed |
| `Tally.MergeWindows` | apps/web/dev/transcripts.ts:654-656 | a branch's windows merged into an issue's, whatever the order |
| `Tally.PeakOf` | apps/web/dev/transcripts.ts:614-626 | the largest context of the most-used window, a tie going to the larger peak |
| `Tally.PeakIsUnique` | apps/web/dev/transcripts.ts:609-626 | the peak does not hang on the order windows are held in |
| `Tally.SpendByIssue` | apps/web/dev/transcripts.ts:634-666 | an issue's figures are the summary of all rows on all branches naming it |
| `Tally.TallySpend` | apps/web/dev/transcripts.ts:552-590 | the two stages come to the direct per-issue tally, for any attribution rule |
| `Tally.OnSplits` | apps/web/dev/transcripts.ts:628-633 | rows on two lots of branches come to what each lot comes to, joined |
| `Tally.TallyIsOrderFree` | apps/web/dev/transcripts.ts:552-666 | the tally does not hang on the order rows are stored in |
| `Tally.TallyConserves` | apps/web/dev/transcripts.ts:541-590 | issues, unattributed work and branches naming no issue come to the whole, in turns and output |
| `SessionsReader.FactsSoFar.Feed` | apps/web/dev/sessions.ts:311-390 | one line fed to the mutable facts is one step of the fold, bad and half-written lines included |
| `SessionsReader.FactsSoFar.FeedBytes` | apps/web/dev/sessions.ts:447-458 | the complete lines are fed and no byte past the last newline is used |
| `SessionsReader.TranscriptReader.FactsOf` | apps/web/dev/sessions.ts:398-421 | the trailing line is fed to a copy: the kept facts do not move |
| `SessionsReader.TranscriptReader.Read` | apps/web/dev/sessions.ts:490-532 | unmoved, resumed or read whole, and the cursor kept for next time |
| `SessionsReader.TranscriptReader.Advance` | apps/web/dev/sessions.ts:466-482 | feeding what was read leaves the cursor the specification says, over the same facts object |
| `SessionsReader.FedLinesSplit` | apps/web/dev/sessions.ts:447-482 | feeding whole lines in two goes is feeding them in one |
| `SessionsReader.ResumedReadingStands` | apps/web/dev/sessions.ts:503-524 | a cursor resumed over the bytes it was anchored to stands for the whole file |
| `SessionsReader.PollingReadsWhole` | apps/web/dev/sessions.ts:484-532 | after any readings of a growing file the answer is what one reading from the top gives |
| `SessionsReader.ReplacedFileReadsWhole` | apps/web/dev/sessions.ts:422-429 | a replaced file the anchor gives away is read from the top |
| `SessionsReader.ReadersAgree` | apps/web/dev/sessions.ts:371-389 | the page's reader and the Usage scan keep the same responses of a file, at the same counts |
| `SessionGroups.GroupIsIssue` | apps/web/dev/session-groups.ts:69-79 | a response is in an issue's group exactly when the Usage page attributes it to that issue |
| `SessionGroups.Crediting.Visit` | apps/web/dev/session-groups.ts:92-106 | the nested visit is the crediting `FirstHolderIsCredited` describes |
| `SessionGroups.FirstHolderIsCredited` | apps/web/dev/session-groups.ts:88-106 | a response is kept exactly when some card holds it, credited to the first card in preorder that does, at the largest counts of any copy |
| `SessionGroups.Sharing.Place` | apps/web/dev/session-groups.ts:114-122 | every card has a home: its branch's group, else its parent's |
| `SessionGroups.Sharing.ShareOut` | apps/web/dev/session-groups.ts:124-130 | each credited response's output goes to its card's share of its branch's group, once |
| `SessionGroups.CreditAll` | apps/web/dev/session-groups.ts:92-133 | the three passes together |
| `SessionGroups.SlicesHoldEverything` | apps/web/dev/session-groups.ts:136-155 | a group's slices hold all its cards spent in it; nothing is hidden with a card left out |
| `SessionGroups.SlicesDrawn` | apps/web/dev/session-groups.ts:147-148 | a slice is drawn exactly when a card under it spent in the group or is in it |
| `SessionGroups.SharesSumToGroup` | apps/web/dev/session-groups.ts:124-130 | the cards' shares come to the whole group |
| `SessionGroups.GroupSumIsTally` | apps/web/dev/session-groups.ts:174-200 | a group's sum is `tallySpend` over the branches naming its issue |
| `SessionGroups.FigureIsGroupSum` | apps/web/dev/session-groups.ts:190-194 | the figure an issue group shows is the sum of its responses |
| `SessionGroups.GroupSessions` | apps/web/dev/session-groups.ts:174-209 | a group for every key a card is in or a response ran in, none empty, each listing its sessions' slices in the given order and coming to its figure; issues first, by newest session, then by number |
| `SessionGroups.GroupsConserve` | apps/web/dev/session-groups.ts:174-209 | all groups together hold each credited response's output exactly once |
| `PageTotals.CardsFoldToScannedCounts` | apps/web/dev/transcripts.ts:338-345 | what the cards hold folds to what the scan stores, count for count |
| `PageTotals.CardsFoldToScannedRows` | apps/web/dev/transcripts.ts:338-345 | row for row, when no id is in two files |
| `CardForest.LinkedMakesTree` | apps/web/dev/sessions.ts:598 | what linking leaves, each card's list sorted in any way, is a tree the page may draw |
| `CardForest.RootHolds` | apps/web/dev/sessions.ts:735-764 | a session's card holds, with all drawn under it, the files of the cards that lead to it, loose transcripts included |
| `CardForest.ForestHolds` | apps/web/dev/sessions.ts:1028-1055 | the page's cards hold what is kept of the files on drawn cards, and nothing else |
| `CardForest.CardsAreApart` | apps/web/dev/sessions.ts:655-660 | no card is drawn twice, however the subagents started one another |
| `PageTotals.CardsHoldIffDrawn` | apps/web/dev/sessions.ts:735-764 | the cards hold all the files' responses exactly when each is on a card that leads to a session with a transcript |
| `PageTotals.OneFileIsOneGroup` | apps/web/dev/session-groups.ts:15-23 | with no response in two files the copies of each are of one group, as the three below ask |
| `PageTotals.TotalsDifferByHidden` | apps/web/dev/session-groups.ts:190-194 | the Usage figure of an issue is the Sessions figure and what a scan of everything stores of its responses beyond a scan of just the files on drawn cards |
| `PageTotals.OneTotalIffNothingHidden` | apps/web/dev/session-groups.ts:15-23 | the two pages agree on every issue exactly when each of an issue's responses is in a file on a drawn card with all the output stored of it |
| `PageTotals.OneTotal` | apps/web/dev/session-groups.ts:190-194 | two computations, one total, when every response is on a drawn card, those in two files with copies of one group included: every issue group shows the figure the Usage page tallies from its own scan |
| `PageTotals.RingTotalsDiffer` | apps/web/dev/sessions.ts:748-764 | two subagents started by each other's calls: the Usage page shows 10, the Sessions page nothing |
| `PageTotals.RingDrawn` | apps/web/dev/sessions.ts:748-764 | such a reading, written out |
| `TwoBranches.ScannedAsFirstFile` | apps/web/dev/transcripts.ts:398-400 | a response of the first file listed is stored under that file's branch, whatever later copies carry |
| `TwoBranches.TwinTotalsDiffer` | apps/web/dev/session-groups.ts:20-23 | one response in two files on two issues' branches: the Sessions page shows 10 where the Usage page shows 0, with nothing hidden |
| `TwoBranches.TwinsDrawn` | apps/web/dev/session-groups.ts:20-23 | such a reading, written out, every response on a drawn card |
| `Directory.ListTranscripts` | apps/web/dev/transcripts.ts:309-336 | the nested loops list the transcripts at the top and those in `subagents` folders |
| `Directory.ReadSubagents` | apps/web/dev/sessions.ts:828-928 | a subagent for each usable meta file, and the transcripts none of them claims |
| `Directory.ReadSessions` | apps/web/dev/sessions.ts:1028-1036 | a session for each transcript at the top, with what its folder holds |
| `Directory.HeldIffHasSession` | apps/web/dev/sessions.ts:735-742 | of the files the Usage scan reads, some card holds just those of sessions whose transcript is there |
| `Directory.HeldOnce` | apps/web/dev/sessions.ts:825-857 | no file is on two cards |
| `Directory.DrawnIffLeadsHome` | apps/web/dev/sessions.ts:748-764 | a file is on a drawn card exactly when its session's transcript is there and its own card leads to it |
| `Directory.AllDrawnIffLeadHome` | apps/web/dev/sessions.ts:735-764 | every response is on a drawn card exactly when that holds of each file with one |
| `Directory.OneTotalOfDirectory` | apps/web/dev/session-groups.ts:14-20 | and then both pages over that directory show one total for every issue |
| `Chains.FindFree` | apps/web/dev/chains.ts:78-81 | the first issue with nothing in the chain left to wait for, or the first of all |
| `Chains.OrderChain` | apps/web/dev/chains.ts:72-86 | the splicing loop computes the order, and ends |
| `Chains.OrderPermutes` | apps/web/dev/chains.ts:67-86 | no issue is dropped or repeated, whatever blocks what |
| `Chains.OrderIsGreedy` | apps/web/dev/chains.ts:67-86 | at each place the lowest free number, and a blocked issue only when none is free |
| `Chains.BlockersFirstIffAcyclic` | apps/web/dev/chains.ts:67-86 | every blocker in the chain comes first exactly when no ring of issues block each other |
| `Chains.OrderIsLeast` | apps/web/dev/chains.ts:67-71 | of all orders that put blockers first it is the least by number |
| `Chains.ViewChain` | apps/web/dev/chains.ts:102-148 | unknown exactly without a plan, a listing or issues; else each issue's place by the page's rule |
| `Chains.ViewOrder` | apps/web/dev/chains.ts:126-147 | the loop that gives `next` once places every issue by that rule |
| `Chains.OneNext` | apps/web/dev/chains.ts:135-143 | at most one issue is next, and one is whenever any could start |
| `ImportCycles.CanonicalOfRotation` | apps/web/dev/scan.ts:757-763 | a ring reads the same from wherever it was entered |
| `ImportCycles.ReportedRingsAreReal` | apps/web/dev/scan.ts:737-783 | each reported ring is a simple cycle of imports, and no rotation of one is reported again |
| `ImportCycles.EmptyIffAcyclic` | apps/web/dev/scan.ts:737-783 | nothing is reported exactly when nothing imports its way back to itself |
| `ImportCycles.RingReportedIffFollowed` | apps/web/dev/scan.ts:751-768 | a ring is reported exactly when the search followed each of its imports |
| `ImportCycles.EveryRingIsShown` | apps/web/dev/scan.ts:751-768 | every ring, reported or not, shares an import with a reported one |
| `ImportCycles.EveryRingReportedIffApart` | apps/web/dev/scan.ts:731-737 | every ring is reported for every order of modules and imports exactly when no import lies on two rings |
| `ImportCycles.OneRingHidden` | apps/web/dev/scan.ts:730-737 | a graph of two rings of which one is reported |
| `ImportCycles.TwoRingsExist` | apps/web/dev/scan.ts:730-737 | such a graph, written out |
| `ImportCycles.KeyIsInjective` | apps/web/dev/scan.ts:763-767 | joined keys tell rings apart when no name holds the joining character |
| `ImportCycles.CycleFinder.Enter` | apps/web/dev/scan.ts:747-776 | the recursive visit over the colour map and the stack is the search's step |
| `ImportCycles.FindCycles` | apps/web/dev/scan.ts:737-783 | the whole search |
| `RouteTree.BracketSpan` | apps/web/dev/scan.ts:521-536 | the depth loop computes the span |
| `RouteTree.SpanIsMatch` | apps/web/dev/scan.ts:521-536 | it is the matching bracket, and none is found exactly when there is none |
| `RouteTree.SplitTopLevel` | apps/web/dev/scan.ts:541-557 | the splitting loop and the trimming of its parts |
| `RouteTree.PartsJoin` | apps/web/dev/scan.ts:541-557 | nothing is cut out of the text but the commas cut at |
| `RouteTree.SplitUndoesJoin` | apps/web/dev/scan.ts:538-557 | splitting a comma-joined list of balanced parts gives them back, trimmed and without empty places |
| `RouteTree.SpanOfWrapped` | apps/web/dev/scan.ts:508-536 | a bracketed balanced text is matched whole, wherever it stands |
| `RouteTree.TreeReadsBack` | apps/web/dev/scan.ts:607-690 | reading a printed route tree gives the tree back, to any depth |
| `RouteTree.RoutesAreWhereWaysEnd` | apps/web/dev/scan.ts:559-566 | the routes reported are those a way into the array ends at, through children and spread arrays, and a route's guards are the wrappers on its way, outermost first |
| `RouteTree.GuardsAreEnclosing` | apps/web/dev/scan.ts:673-680 | what stands around a whole array stands, in its order, before what each route in it has of its own, and changes nothing else |
| `RouteTree.RankedIffNoSelfSpread` | apps/web/dev/scan.ts:607-644 | the walk ends, by a rank that falls along every spread, exactly when no array it comes to spreads itself in, through others or not |
| `RouteTree.RouteReader.ParseArray` | apps/web/dev/scan.ts:607-690 | the walk leaves the stack as it was and reports what the tree holds, ending when no array spreads itself in |
| `RouteTree.RouteReader.ParseElement` | apps/web/dev/scan.ts:609-644 | one entry: spread, odd, unclosed or an object |
| `RouteTree.RouteReader.ParseObject` | apps/web/dev/scan.ts:646-690 | a route or a wrapper, its children behind it, and the stack restored |
| `StripComments.SkipQuoted` | tools/repo-scan/src/strip-comments.ts:72-87 | ends at the first unescaped quote, or newline outside a template, or at the end |
| `StripComments.SkipRegex` | tools/repo-scan/src/strip-comments.ts:90-107 | ends at the first unescaped slash outside a class, or newline, or at the end |
| `StripComments.Blank` | tools/repo-scan/src/strip-comments.ts:111-115 | blanks a range in place but for its newlines |
| `StripComments.Strip` | tools/repo-scan/src/strip-comments.ts:109-157 | the scan finds the source's tokens and blanks exactly the comments |
| `StripComments.TokensAreOne` | tools/repo-scan/src/strip-comments.ts:122-157 | a source has one tokenising |
| `StripComments.TokensPartSource` | tools/repo-scan/src/strip-comments.ts:122-157 | every character is in one token and in one only |
| `StripComments.OnlyCommentsGo` | tools/repo-scan/src/strip-comments.ts:1-21 | nothing in a string, template or regular expression changes; of a comment only newlines are left |
| `StripComments.StripComments` | tools/repo-scan/src/strip-comments.ts:109-172 | lines stand where they stood, and each line holding anything is counted once, as code or as comment |
| `Threading.BracketsComeOff` | apps/api/src/ingest.ts:71-73 | any id's bracketed form strips back to the id |
| `Threading.SpaceComesOff` | apps/api/src/ingest.ts:71-73 | also with space around it |
| `Threading.FindParentTicketId` | apps/api/src/ingest.ts:82-116 | one query for all candidates picks what asking for each in turn picks, in whatever order the rows come |
| `Threading.ParentIsFirstStored` | apps/api/src/ingest.ts:86-115 | the parent is the first stored candidate's ticket, and none exactly when none is stored |
| `Threading.DirectReplyLands` | apps/api/src/ingest.ts:82-116 | an email naming a stored message as what it answers lands on its ticket |
| `Threading.AnyReferenceLands` | apps/api/src/ingest.ts:82-116 | however headers are cut or reordered, an email naming one ticket's messages and no other's lands on that ticket |
| `Threading.UnknownParentsOpen` | apps/api/src/ingest.ts:91-115 | no parent exactly when no header names a stored message |
| `Threading.ThreadEndsLatest` | apps/api/src/outbound.ts:271-287 | a reply's references are the ticket's messages in time order, and its parent the latest, ties to the last stored |
| `Ingestion.OpenedExactlyOnce` | apps/api/src/ingest.ts:284-333 | over every interleaving one row per Message-ID, and each ticket has one opening message, one `created` line and one classification request |
| `Ingestion.ReopeningsRecorded` | apps/api/src/ingest.ts:221-234 | every machine resolution a reply cleared is on the trail once, about to be, or lost to a failure |
| `Ingestion.ClearedIsCounted` | apps/api/src/ingest.ts:187-190 | a stamp goes only when a reply reopens its ticket |
| `Ingestion.AnswersAreTrue` | apps/api/src/ingest.ts:47-69 | whatever a delivery is answered, its email is stored on the ticket it is told |
| `Ingestion.NeverStuck` | apps/api/src/ingest.ts:125-345 | no interleaving leaves a delivery with no step to take |
| `Ingestion.RepeatWritesNothing` | apps/api/src/ingest.ts:118-147 | all of a repeated delivery's steps can be taken out of any run, races included, with nothing else ending differently |
| `Ingestion.RepliesLand` | apps/api/src/ingest.ts:128-163 | an answer to any stored message, received or sent, is put on its ticket whatever happens meanwhile |
| `Ingestion.EmptyIdIsNeverFound` | apps/api/src/ingest.ts:87-93 | the one id left out: a message stored under the empty id is never answered into |
| `Ingestion.AnswerToDeskLands` | apps/api/src/outbound.ts:315-343 | an answer to an email the desk sent comes back to its ticket, with References alone too |
| `Ingestion.SettledStands` | apps/api/src/ingest.ts:167-190 | what a person has settled, unstamped, no email and no worker reopens |
| `Ingestion.StampOutlivesPerson` | apps/api/src/ingest.ts:175-190 | a reply undoes a person's Resolved exactly when the machine's stamp is still on the ticket |
| `Ingestion.PersonsResolutionUndone` | apps/api/src/ingest.ts:175-190 | a run from nothing in which a reply reopens what a person was the last to resolve |
| `Ingestion.CommitIsSane` | apps/api/src/ingest.ts:151-191 | the transaction keeps the tables' invariants, undone whole when the id was taken meanwhile |
| `Ingestion.ReferencesAreOwn` | apps/api/src/outbound.ts:286-287 | what a reply refers to are messages of the ticket it is written on |
| `Ingestion.WriteIsSane` | apps/api/src/outbound.ts:289-343 | a reply's message and its email are written together, under one id |
| `Ingestion.Desk.IngestInboundEmail` | apps/api/src/ingest.ts:125-345 | one email received alone runs the protocol to its end, and the update event names what moved |
| `Ingestion.Desk.AppendTo` | apps/api/src/ingest.ts:160-279 | the transaction on a thread and what follows a reopening |
| `Ingestion.Desk.OpenNew` | apps/api/src/ingest.ts:303-344 | the transaction that opens a ticket |
| `Ingestion.Desk.HandOver` | apps/api/src/ingest.ts:236-266 | what the assistant held goes to the handoff, and only that |
| `Ingestion.Desk.WriteReply` | apps/api/src/outbound.ts:248-346 | no ticket, nothing written; an id taken, nothing written; else message and email |
| `SuiteQueue.OneRunAndItsTail` | apps/web/dev/plugin.ts:133-217 | at most one run is unfinished and it is the active one; each log is the newest 4000 of all its run said, the rest counted |
| `SuiteQueue.KeptAsItGrows` | apps/web/dev/plugin.ts:170-179 | keeping the tail as events come keeps the tail of them all |
| `SuiteQueue.PageSeesEverythingAfter` | apps/web/dev/plugin.ts:236-265 | a page is shown an unbroken stretch of every run from the log kept when it came, with no gap or repeat |
| `SuiteQueue.ConnectingReplaysTheLog` | apps/web/dev/plugin.ts:241-259 | a connecting page is shown exactly the logs kept, each once |
| `SuiteQueue.PagesKnowTheActive` | apps/web/dev/plugin.ts:162-168 | every connected page was last told the suite that is active |
| `SuiteQueue.QueueRunsInOrder` | apps/web/dev/plugin.ts:183-217 | until the next request what is queued begins in order, each once, and nothing else |
| `SuiteQueue.RequestReplacesQueue` | apps/web/dev/plugin.ts:268-308 | a request replaces what waits, never queues the suite that was active when it came, and while one is active tells no page |
| `SuiteQueue.DevTools.Tell` | apps/web/dev/plugin.ts:162-164 | a message goes to every listener still connected |
| `SuiteQueue.DevTools.Log` | apps/web/dev/plugin.ts:170-179 | one event into its run's log, the oldest dropped past the cap, and out to the pages |
| `SuiteQueue.DevTools.Advance` | apps/web/dev/plugin.ts:183-191 | the next suite begins only when none is active |
| `SuiteQueue.DevTools.BeginRun` | apps/web/dev/plugin.ts:193-217 | a fresh log, the suite active, the pages told |
| `SuiteQueue.DevTools.OnEvent` | apps/web/dev/plugin.ts:207-209 | what the active run says goes into its log and out |
| `SuiteQueue.DevTools.OnEnd` | apps/web/dev/plugin.ts:207-216 | the run finished, nothing active, and straight on to what waits |
| `SuiteQueue.DevTools.OnStart` | apps/web/dev/plugin.ts:268-310 | an empty, unknown or unavailable request changes nothing |
| `SuiteQueue.DevTools.OnCancel` | apps/web/dev/plugin.ts:312-323 | the queue emptied, and the run's handle told once |
| `SuiteQueue.DevTools.CancelHandle` | apps/web/dev/suites.ts:479-490 | cancelling notes itself in the log once and leaves the end to the process |
| `SuiteQueue.DevTools.OnClear` | apps/web/dev/plugin.ts:325-337 | a finished run is forgotten, a running one is not |
| `SuiteQueue.DevTools.OnConnect` | apps/web/dev/plugin.ts:236-265 | backlog, state, then live, in one step |
| `SuiteQueue.DevTools.OnClose` | apps/web/dev/plugin.ts:262-264 | a page that goes is told nothing more and keeps what it was told |
| `SessionsStream.ClockRunsWhileHeard` | apps/web/dev/sessions-stream.ts:81-103 | the clock runs exactly while somebody listens, and nothing is held once nobody does |
| `SessionsStream.EverybodyIsCurrent` | apps/web/dev/sessions-stream.ts:53-79 | every listener has the newest reading and every change since it came, none twice running |
| `SessionsStream.NothingAfterLeaving` | apps/web/dev/sessions-stream.ts:95-98 | nothing is sent to a listener that has left |
| `SessionsStream.StaleIffUnderWay` | apps/web/dev/sessions-stream.ts:15-17 | a reading from before everybody left is sent exactly when it was under way as the first came back, and then first and once |
| `SessionsStream.HandedOneFromBefore` | apps/web/dev/sessions-stream.ts:15-17 | a run of four steps in which it is |
| `SessionsStream.SessionsStream.TickBegins` | apps/web/dev/sessions-stream.ts:53-56 | one reading at a time |
| `SessionsStream.SessionsStream.TickEnds` | apps/web/dev/sessions-stream.ts:71-79 | nobody told when everybody left or nothing changed; else everybody |
| `SessionsStream.SessionsStream.OnSubscribe` | apps/web/dev/sessions-stream.ts:88-94 | the reading there is at once, and the clock started by the first |
| `SessionsStream.SessionsStream.OnLeave` | apps/web/dev/sessions-stream.ts:95-98 | the last to leave stops the clock |
| `SessionsStream.SessionsStream.OnClose` | apps/web/dev/sessions-stream.ts:99-102 | closing leaves no listener and no clock |
| `SlidingWindow.Limiter.Admit` | apps/api/src/sliding-window.ts:55-79 | the pruned and swept map answers as the full history of admissions would; refusals are not counted; a hundredth admission leaves no expired key |
| `SlidingWindow.Limiter.Sweep` | apps/api/src/sliding-window.ts:48-53 | exactly the keys whose window has expired are forgotten, and no answer changes |
| `SlidingWindow.NoWindowOverfull` | apps/api/src/sliding-window.ts:55-79 | with one limit and a clock that runs on, no window anywhere holds more admissions of a key than the limit |
| `SlidingWindow.WaitIsEnough` | apps/api/src/sliding-window.ts:65-72 | a quiet key is admitted after the promised wait exactly when what is over the limit has left by then; always at the limit |
| `SlidingWindow.WaitIsLeast` | apps/api/src/sliding-window.ts:65-72 | and after no fewer whole seconds |
| `SlidingWindow.RefusedAtTheLimit` | apps/api/src/sliding-window.ts:61-64 | with one limit a refusal finds just the limit's number in the window |
| `ReplaceOnce.Occurrences` | apps/api/src/replace-once.ts:26-37 | the `exec` loop finds every place a match begins, overlapping ones too |
| `ReplaceOnce.Make` | apps/api/src/replace-once.ts:59-77 | one step made, or why not |
| `ReplaceOnce.Edit` | apps/api/src/replace-once.ts:45-80 | the loop over the steps, failures gathered while the others go on |
| `ReplaceOnce.MadeIffOccursOnce` | apps/api/src/replace-once.ts:61-71 | a step is made exactly when what it looks for occurs once |
| `ReplaceOnce.EditedIffEveryStep` | apps/api/src/replace-once.ts:58-79 | text comes back exactly when each step in turn occurs once |
| `ReplaceOnce.JoinedMatches` | apps/api/src/replace-once.ts:26-31 | a replacement is found where it was put, whichever newline joins it |
| `ReplaceOnce.StepUndoneIff` | apps/api/src/replace-once.ts:59-77 | on any text, undoing a step gives the text back exactly when what it writes is what the step took |
| `ReplaceOnce.LeadingMarkIsLost` | apps/api/src/replace-once.ts:50 | an edit that leaves a byte order mark first is never undone: what comes back has one mark too few |
| `ReplaceOnce.RevertsOneIff` | apps/api/src/replace-once.ts:14-15 | `revert` of one pair, on any text, endings mixed or not: exactly when no mark is left first and undoing writes what the edit took |
| `ReplaceOnce.RevertRetraces` | apps/api/src/replace-once.ts:14-15 | `revert` of any pairs, with no mark left first, goes back through every text the edit went through exactly when each step, undone, writes what it took |
| `RevertLines.StepOnLines` | apps/api/src/replace-once.ts:59-77 | on text without stray carriage returns a step changes the lines at one place, and puts one ending for those it takes |
| `RevertLines.LinesComeBack` | apps/api/src/replace-once.ts:14-15 | any pairs made and undone bring every line back, and the file's own endings exactly when each is put back |
| `RevertLines.RevertRestoresIff` | apps/api/src/replace-once.ts:14-15 | `revert` of any pairs, on such text, endings mixed or not: exactly when no mark is left first and each newline of the file's own that a step takes has the ending undoing it writes |
| `ReplaceOnce.RevertUndoesLf` | apps/api/src/replace-once.ts:14-15 | for any edit whose texts hold no CRLF, whatever the pairs: exactly when no mark is left first |
| `ReplaceOnce.RevertRestoresLf` | apps/api/src/replace-once.ts:14-15 | so for a text without carriage returns and pairs without stray ones |
| `ReplaceOnce.RevertRestoresCrlfIff` | apps/api/src/replace-once.ts:50-51 | a CRLF text comes back exactly when the edit left a newline in it and no mark first |
| `ReplaceOnce.CrlfLost` | apps/api/src/replace-once.ts:50-51 | a CRLF text that comes back with LF |
| `ReplaceOnce.LfLostToStrayReturn` | apps/api/src/replace-once.ts:50-51 | an LF text that comes back mixed |
| `ReplaceOnce.MixedLost` | apps/api/src/replace-once.ts:39-43 | a text of both endings that comes back with one changed |
| `ReplaceOnce.MarkLost` | apps/api/src/replace-once.ts:50-51 | a text that comes back as another after a pair puts a byte order mark first |
| `SessionTree.Link` | apps/web/dev/sessions.ts:744-764 | each subagent under the card that made its call, the last to claim it, else under its session with a warning |
| `SessionTree.RootedIffNoCycle` | apps/web/dev/sessions.ts:748-764 | every subagent leads to the session exactly when none was started by a call of its own, through others or not |
| `SessionTree.DrawnOnceIffRooted` | apps/web/dev/sessions.ts:748-764 | under its session a subagent is drawn exactly once, or not at all when it is in such a ring |
| `SessionTree.PairIsDetached` | apps/web/dev/sessions.ts:748-764 | two subagents started by each other's calls are under each other and under no session |
| `SessionTree.LinkedIsArranged` | apps/web/dev/sessions.ts:748-764 | the lists linking leaves are each card's children, each once |
| `SessionTree.SortedIsArranged` | apps/web/dev/sessions.ts:598 | sorting a card's children changes nothing said of the tree |
| `SessionTree.TreeHoldsTheRooted` | apps/web/dev/sessions.ts:748-764 | what settling reaches from the session is every card that leads to it |
| `SessionTree.StatesAreExact` | apps/web/dev/sessions.ts:577-604 | each state by what is live anywhere under the card, and `settle` answers whether anything of the tree is |
| `SessionTree.NothingLiveUnderTheEnded` | apps/web/dev/sessions.ts:577-604 | nothing live is under a Stopped card or a Done session |
| `SessionTree.RecordsMarkTheirSession` | apps/web/dev/sessions.ts:606-627 | a record of a session in the reading marks one card of it: the subagent it names if there is one |
| `SessionTree.Reading.Settle` | apps/web/dev/sessions.ts:583-604 | children first, every card of the tree gets its state and no other card is touched |
| `SessionTree.Reading.MarkWaiting` | apps/web/dev/sessions.ts:612-627 | exactly the cards records name are marked |

## Left out

- `readTranscripts`: a line that is the JSON literal `null` throws out of the scan in the program; the open parse function answers nothing for it.
- `TranscriptReader`: the reader's map of cursors is one cursor, for one path; forgetting paths no longer seen is not modelled.
- `SessionTree.Reading.Settle`: the comparison a card's children are sorted by; what is proved of the tree holds for any order.
- `CardForest.ForestHolds`: a transcript, meta file or directory that is there and cannot be read.
- `PageTotals.OneTotal`: assumes the copies of a response in two files carry branches of one group; where they do not the pages can differ (`TwoBranches.TwinTotalsDiffer`), though the counts still agree (`PageTotals.CardsFoldToScannedCounts`).
- `Directory.HeldIffHasSession`: symbolic links, and a top-level transcript named `.jsonl`, `..jsonl` or `...jsonl`, whose id is no folder's name.
- `Tally.TallySpend`: an issue number past what a double holds exactly.
- `UsageHistory.IncrementalEqualsWhole`: assumes no push between the scans; with pushes the counts still agree (`UsageHistory.IncrementalCountsEqualWhole`).
- `Chains.BlockersFirstIffAcyclic`: assumes issue numbers are distinct, as the listing's are.
- `ImportCycles.RingReportedIffFollowed`: assumes no module's path holds `>`; `taken`, which it speaks of, is bookkeeping the search does not keep.
- `ImportCycles.EveryRingReportedIffApart`: assumes no module's path holds `>`.
- `ReplaceOnce.RevertRetraces`: for several pairs on text with a carriage return that belongs to no newline, one way only for the text the whole way back ends at, since a later step can put right what an earlier one got wrong; on all other text see `RevertLines.RevertRestoresIff`.
- `ImportCycles.CanonicalOfRotation`: names are ordered by character; JavaScript's order by code unit differs past U+FFFF, and then picks another of a ring's rotations.
- `RouteTree.RouteReader.ParseArray`: what an object's own text says (its path, component and lazy import) is left open as a function; an array that spreads itself in never ends in the program and is outside the precondition (`RouteTree.RankedIffNoSelfSpread`); brackets and commas inside string literals count, as they do in the program.
- `StripComments.StripComments`: running it on its own result can blank more, since a newline kept from a block comment begins a line there.
- `Ingestion.OpenedExactlyOnce`: tickets deleted by hand or by a demo reset, and messages seeded outside ingestion.
- `Ingestion.Desk.IngestInboundEmail`: subjects, bodies, actors' names, the publishing of events beyond which fields they name, and times of tickets.
- `Ingestion.StampOutlivesPerson`: what people and the assistant do to a ticket is a few coarse steps, enough to move statuses, stamps, assignees and messages.
- `SuiteQueue.OneRunAndItsTail`: a run's process says nothing after its end, as the runner promises; the runner's own parsing of output is not modelled.
- `SlidingWindow.Limiter.Admit`: several processes each counting for themselves.
- `sendPush`: a call and one branch.
- The `gh` and `git` calls, HTTP, files, SQLite's SQL and the browser's pages are reduced to the steps above.
- Prompts, model calls and the automatic reply's checks; constant tables; the regular expressions that read suite output, endpoints and imports.
