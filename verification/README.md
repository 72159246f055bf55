# Sources, verified

Sources reads datasets other sites publish, stores what it reads as items, and lets consumers follow the changes. This
project models the parts of its server where a finite set of examples settles little, and proves what they promise for
every input, every interleaving and every run:

- **Resumable bulk reading** (`CsvLexer`, `BulkParser`, `RecordStream`, `OffDelta`, `Resumption`, `ExactlyOnce`): a
  character-level parser over a stream of chunks that stops at a row limit, and the cursor by which the next run goes on
  inside a half-read part.
- **One table, two readers** (`ApiParser`, `Duplicates`, `CsvAgreement`, `CsvMarks`): the CSV parser that sees the whole
  body, the one that sees a stream, and the de-duplication both promise.
- **The item store** (`CanonicalJson`, `ContentHashing`, `ItemStore`, `ChangeFeed`, `Retirement`, `Retention`, `Pruning`):
  change detection by a canonical text, revisions, sticky removals, the change feed and those who follow it, retirement
  after a run, and batched pruning.
- **The crawl** (`Frontier`, `Crawl`, `Queueing`, `CrawlRuns`): the frontier's state per URL, canonical duplicates, the cap
  on adding URLs, and runs that end within their bounds.
- **Small languages** (`PathSyntax`, `PathTrees`, `PathWalk`, `PathParser`, `RobotsRules`, `Robots`): the path and selector
  language of API mappings, and robots.txt per RFC 9309.
- **Interleaved protocols** (`Merchant`, `Spacer`): merchant claims whose read, proof and commit are separate steps, and
  per-host request spacing.

Code that changes things step by step is modelled as classes and loops, each proved equal to a specification function or
predicate; the theorems are about those. `Basics` holds what the modules share. `dafny verify dfyconfig.toml` checks the
whole project.

## Where the code does not do what it seems to

- The streaming and the whole-body CSV reader agree exactly when the text does not end inside a quoted field, has a row, and
  its first row is not blank (`CsvAgreement.AgreeExactly`). A leading byte order mark right before a quote parts them: the
  streaming reader then takes that quote for text, and so reads a dump with quoted header names under other keys, whether it
  has records or not (`CsvAgreement.AgreeOnNames`, `CsvAgreement.AgreeOnRecords`, `CsvMarks.QuotedHeaderUnderMark`). Only
  where white space or a blank row is dropped before a first name that begins with a quote, or where the header is refused,
  can table and names agree all the same, and there are texts on which they do (`CsvMarks.QuotedMarkCanAgree`,
  `CsvMarks.RefusedAlike`).
- A printed one-column table loses the rows whose one cell is empty when read back; tables of two or more columns lose none
  (`ApiParser.CsvRoundTrip`).
- A part that appears in front of a half-read one makes the run drop its offset, so rows are committed again; that is the
  only way exactly-once ends, and no row is lost (`ExactlyOnce.ExactWhile`, `ExactlyOnce.HalfReadAgain`,
  `ExactlyOnce.NoRowLost`).
- A withdrawal whose claim is verified between its read and its commit leaves the source on
  (`Merchant.OvertakenStaysOn`); that is the only way (`Merchant.SourceOnExactly`).
- The comment on `nextFiles` (server/adapters/off-delta.js:57) puts the unfinished part first; the code sorts the whole queue,
  so a part that sorts before the unfinished one comes before it. The model follows the code.
- An unchanged refresh moves an item's `retrieved_at` but not its `change_seq`, so followers need not see it; what they are
  proved to hold leaves `retrieved_at` out.

## Model

| member | source | states |
|---|---|---|
| CsvLexer.LexAppend | server/adapters/bulk.js:82-104 | reading a text in two parts is reading it whole: the lexer's state is all that a chunk boundary leaves, also between a closing quote and the next character |
| CsvLexer.LexPrinted | server/adapters/bulk.js:82-104 | a table printed with every field quoted and quotes doubled (section 2 of RFC 4180) is lexed to exactly its rows |
| BulkParser.ChunkIndependence | server/adapters/bulk.js:144-152 | for csv, tsv and jsonl, any skip and limit: feeding the chunks one by one leaves the machine exactly where the whole text does |
| BulkParser.ReadIsLines | server/adapters/bulk.js:134-142 | the line formats handle exactly the texts between line breaks, up to the one that stops the parser |
| BulkParser.ChunksStay | server/adapters/bulk.js:145-152 | once stopped or failed, further chunks change nothing |
| BulkParser.Parser.AcceptRecord | server/adapters/bulk.js:48-60 | one record moves the counters, the kept items and the stopped flag as the specification's Accept does |
| BulkParser.Parser.TakeHeader | server/adapters/bulk.js:62-66 | a header of present and distinct names is taken, any other is the error |
| BulkParser.Parser.TakeCsvRow | server/adapters/bulk.js:68-80 | the first row is the header unless it is blank; later ones are blank, of wrong width, or a record |
| BulkParser.Parser.TakeLine | server/adapters/bulk.js:117-132 | a line of JSON or of tab-separated values |
| BulkParser.Parser.CsvTurn | server/adapters/bulk.js:83-103 | one turn of the character loop reads the character, or only closes the quoted field and leaves it to be read again |
| BulkParser.Parser.CsvWrite | server/adapters/bulk.js:82-104 | the loop that steps back over a character ends, and reads exactly the chunk |
| BulkParser.Parser.CsvFinish | server/adapters/bulk.js:106-115 | the end of a CSV body: a pending quote closes, an open field is not a row, a last row without line break is one |
| BulkParser.Parser.LineWrite | server/adapters/bulk.js:134-142 | a chunk of a line format is read as its characters are, the incomplete last line kept |
| BulkParser.Parser.Write | server/adapters/bulk.js:145-152 | a chunk changes the parser as its characters do, and the answer says whether more is wanted |
| BulkParser.Parser.End | server/adapters/bulk.js:155-162 | the outcome: items, counts, how much of the skip was used, and whether the limit stopped the reading, or the header's error |
| BulkParser.Feed | server/adapters/bulk.js:145-152 | handing chunks over until the parser has had enough equals handing all of them over |
| BulkParser.ReadStream | server/adapters/bulk.js:25-165 | the answer of a whole stream depends only on the joined text, never on its chunks |
| RecordStream.AcceptMeaning | server/adapters/bulk.js:48-60 | accepting a list passes over the skipped records, keeps the first distinct identities up to the limit in order, counts every other one as skipped, and stops exactly at the limit |
| RecordStream.JsonlMeaning | server/adapters/bulk.js:117-142 | reading JSON lines accepts the well-formed records in order; malformed lines count neither in skip nor in rows, so offsets stay aligned |
| RecordStream.ReadingCounts | server/adapters/bulk.js:155-162 | how many rows a reading from an offset took, and that an uncut one took all that were left |
| OffDelta.ParseIndex | server/adapters/off-delta.js:21-42 | an index is accepted exactly when some line is not blank and every other one names a new part with a non-empty range; then it is those parts, each once, in (end, name) order |
| OffDelta.ParseLine | server/adapters/off-delta.js:24-37 | one line is blank, or names one part more, or no index with it is accepted |
| OffDelta.OrderedUnique | server/adapters/off-delta.js:21-42 | the order of an index is determined by its parts |
| OffDelta.NextFilesMeaning | server/adapters/off-delta.js:58-68 | a run's queue is what the index lists after the last completed part, the half-read part in its place |
| Resumption.DeltaState.RunOnce | server/ingest.js:497-574 | a run fails only for want of the index or of a listed part, and then leaves cursor and committed rows alone; a good one commits exactly the rows, the items and the cursor of reading the queue under the budget; after any calls cursor and committed rows are what the history of runs comes to |
| Resumption.ReadAll | server/ingest.js:511-556 | the loop over parts, budget and cursor computes the reading of the queue |
| Resumption.ReadNext | server/ingest.js:511-556 | one turn of the loop over parts: what is done and what the rest would give still make the whole reading |
| Resumption.ReadPart | server/ingest.js:513-542 | one part is streamed from its start past the rows an earlier run kept, whatever the chunks |
| Resumption.Collect | server/ingest.js:543-547 | deleting and setting each identity leaves the last item in the last place |
| Resumption.CollectedMeaning | server/ingest.js:543-547 | of items read in one run each identity is kept once, with its last item |
| ExactlyOnce.AcceptedIsGood | server/adapters/off-delta.js:21-42 | an index ParseIndex accepts is one the theorems speak of: in order, each name once, no range empty and each the one read from its name |
| ExactlyOnce.AcceptedFollows | server/adapters/off-delta.js:21-42 | after runs over accepted indexes, one more follows them exactly when it keeps the parts not completed and adds parts only after the last completed one |
| ExactlyOnce.SourceIsSound | server/ingest.js:511-556 | a part is read from its offset as one stretch of rows, to its end unless the limit cut it, never cut without taking one |
| ExactlyOnce.PartExact | server/ingest.js:550-554 | after a part, cut or finished, the committed rows and the cursor still describe one prefix |
| ExactlyOnce.CursorDescribesLog | server/ingest.js:497-574 | over any runs, failed ones included, with an index that keeps what is not completed, may drop what is, and adds parts after the cursor only: the rows committed are exactly those before the stored cursor, among all parts ever listed |
| ExactlyOnce.RowsExactlyOnce | server/ingest.js:497-574 | the committed rows are a prefix of all rows of all parts ever listed, in order, none of them twice |
| ExactlyOnce.RunAdvances | server/ingest.js:504-556 | a successful run commits a new row unless every row is committed already |
| ExactlyOnce.ExactWhile | server/adapters/off-delta.js:58-68 | the exact condition: after such runs, one whose index adds parts after the last completed one leaves the log the rows before the cursor if and only if none of the added parts sorts before the half-read one |
| ExactlyOnce.NoRowLost | server/ingest.js:497-574 | with parts appearing anywhere after the last completed one, every row up to the cursor of every part ever listed is committed |
| ExactlyOnce.HalfReadAgain | server/ingest.js:511-550 | after a part was put in front of a half-read one, whichever later run gets to that one commits its first row again, whether the part in front was finished, cut or empty, and once past it all its rows are committed again |
| ExactlyOnce.CommittedRows | server/ingest.js:425-576 | exactly-once, and never lost, for the source's own reading of its parts |
| ExactlyOnce.StoredRows | server/ingest.js:497-574 | the same of a stored state, whatever calls of RunOnce led to it: the rows they committed, and its cursor |
| ApiParser.SplitRows | server/adapters/api.js:413-433 | the loop that looks one character ahead splits a text into the rows the streaming lexer finds |
| ApiParser.ParseCsv | server/adapters/api.js:411-447 | records, bad rows and errors of a whole body |
| ApiParser.CsvRoundTrip | server/adapters/api.js:411-447 | printing a table and parsing it gives its records back and no bad row, blank rows aside, and with them exactly when there are two columns or no row of one empty cell |
| ApiParser.Parse | server/adapters/api.js:498-519 | the kept items are the first maxItems distinct identities, each with its first (or last) mapped record; items, skipped and filtered add up to records and malformed rows |
| ApiParser.ParseEntry | server/adapters/api.js:504-517 | one entry keeps the list what the entries so far call for, and is counted once: kept, skipped or filtered |
| ApiParser.KeepOne | server/adapters/api.js:512-517 | one mapped item is added, put in its earlier one's place, or left out, and the kept list stays what it should be |
| Duplicates.KeepsUnique | server/adapters/api.js:503-518 | that specification determines the kept list |
| Duplicates.KeepsDistinct | server/adapters/api.js:503-518 | kept identities are distinct and at most the cap |
| Duplicates.KeepsReplace | server/adapters/api.js:515-517 | keeping the last puts the new item in the earlier one's place |
| CsvAgreement.AgreeExactly | server/adapters/bulk.js:68-115 | unless a byte order mark stands right before a quote, both readers give the same table exactly when what is left without the mark does not end in quotes, has a row and starts with a row that is not blank |
| CsvAgreement.MarkIgnored | server/adapters/bulk.js:62-64 | a mark that no quote follows, carriage returns aside, changes nothing in what the streaming reader makes of a text |
| CsvAgreement.AgreeOnNames | server/adapters/bulk.js:68-115 | with or without records, the readers find the same table under the same names exactly when no mark stands right before a quote, the text does not end in quotes and its first row is there and not blank; unless the header is refused, or its first name begins with a quote only once white space or a blank row before it is gone |
| CsvAgreement.AgreeOnRecords | server/adapters/bulk.js:98-98 | where the whole-body reader finds records, the tables alone agree exactly then: under the mark the streaming reader's first name begins with more quotes than the other's |
| CsvAgreement.PrintedMarkDiffers | server/adapters/api.js:412-412 | every table printed with quoted fields and holding a record is read alike without a mark, and with one differently: rightly by the whole-body reader only |
| CsvMarks.QuotedHeaderUnderMark | server/adapters/bulk.js:98-98 | the plainest such text, a mark, `"a","b"` and `1,2`: both readers take it, and the first key is `a` for the one and `"a"` with its quotes for the other |
| CsvMarks.QuotedMarkCanAgree | server/adapters/bulk.js:98-98 | a text with a mark right before a quote, and a record, on which both readers find the same table and names: its first field is a line break and a quote to the one and ends at the break for the other |
| CsvMarks.RefusedAlike | server/adapters/bulk.js:62-66 | a text with such a mark whose header both refuse, for a name that comes twice |
| CsvAgreement.StreamRefinesTable | server/adapters/bulk.js:68-115 | on those texts, with a mark or without, the streaming reader under any limit and skip accepts the whole-body reader's records, a prefix once the limit stops it, and counts its wrong-width rows |
| CsvAgreement.SameItems | server/adapters/api.js:498-519 | and so keeps the same items as the whole-body parse keeping first duplicates |
| CanonicalJson.Reads | server/adapters/util.js:17-23 | unique readability: equal canonical texts, whatever may follow, have equal meanings |
| CanonicalJson.QuoteReads | server/adapters/util.js:17-23 | a quoted string, escaped per section 7 of RFC 8259, can be read back in only one way |
| CanonicalJson.SameText | server/adapters/util.js:17-23 | equal meanings have equal texts, whatever the order of keys |
| CanonicalJson.CanonicalExact | server/adapters/util.js:17-23 | two values have the same canonical text exactly when they are equal up to key order and undefined members |
| ContentHashing.ContentHashExact | server/items.js:22-27 | two contents hash alike exactly when they agree column by column and in their fields |
| ContentHashing.UpdatedExactlyWhenChanged | server/items.js:183-195 | an item offered again is updated exactly when its content changed |
| ItemStore.IngestCounts | server/items.js:169-198 | created, updated, unchanged and skipped add up to the items offered |
| ItemStore.ApplyKeeps | server/items.js:169-257 | every transaction keeps histories complete, appends to them only, leaves removed items alone and orders every change after all before it |
| ItemStore.ReachableKeeps | server/items.js:169-257 | in every reachable store revisions are exactly 1..revision, the last content revision is the row, neighbouring contents differ in hash; and removal is final |
| ChangeFeed.Items.Ingest | server/items.js:169-198 | the loop over parsed items makes the specification's store and counts |
| ChangeFeed.Items.IngestItem | server/items.js:172-196 | one item: created, sticky when removed, updated when its hash differs, else only seen |
| ChangeFeed.Items.Remove | server/items.js:211-218 | a removal touches one live item of the source and nothing else |
| ChangeFeed.Items.RetireUnseen | server/items.js:226-233 | the live items not seen since the cutoff, longest ago first, up to the limit, are removed |
| ChangeFeed.Items.RetireRun | server/items.js:239-247 | the live items of one good parse are removed, all of them when they are fewer than 500 |
| ChangeFeed.Items.SeeAgain | server/items.js:253-257 | after a 304 the live items of that parse, and no others, are unseen only before a cutoff later than the 304, so no retirement up to then takes them; every page of the feed and every copy a consumer made is what it was, and the store keeps its invariant |
| ChangeFeed.Items.List | server/items.js:273-282 | a page holds the matching rows after the cursor in change order up to the limit, and says exactly whether there is more |
| ChangeFeed.FollowerSynced | server/items.js:273-282 | between any pages and changes a follower holds all that matched up to its cursor and has not changed since |
| ChangeFeed.FollowerConverges | server/items.js:273-282 | once a page says there is no more, a follower holds exactly the content, revision and removal of every matching item |
| ChangeFeed.FollowerArrives | server/items.js:273-282 | once changes stop, one of as many pages as a follower has rows before it, of at least one row each, says there is no more, and then the follower holds exactly every matching item |
| Retirement.Runs.Run | server/ingest.js:584-627 | a run over the endpoints ingests, sees again and retires as the specification does; when it lists each identity once and is shorter than retire_after_sec, nothing it retires is shown by one of its endpoints, and the next run may rely on the same |
| Retirement.RunKeeps | server/ingest.js:584-615 | a run in which every endpoint answered leaves all that any of them lists seen since the run's start |
| Retirement.NeverRetiresShown | server/ingest.js:617-624 | over any number of runs, with removals, pruning and other sources' transactions between them: no run retires an item that one of its endpoints lists, by a good parse now or its last one kept by a 304 |
| Retirement.ShownIsNotRetired | server/ingest.js:617-624 | the same for one run, about the items it retired |
| Retirement.UnansweredForbids | server/ingest.js:608-617 | a run in which an endpoint failed or was not answered retires nothing |
| Retirement.RemovalKeepsTracks | server/items.js:201-208 | removals leave the tracking of what endpoints list intact |
| Retirement.StagesTrack | server/ingest.js:183-190 | in every reachable state the live items an endpoint's last good parse listed carry that parse's run |
| Retention.PruningKeepsCandidates | server/retention.js:105-111 | pruning some candidates leaves the others candidates: the newest row of a key is never one |
| Retention.PartThenRest | server/retention.js:105-121 | pruning part of what the rules do not keep never changes what they keep |
| Retention.LatestIsKept | server/retention.js:106-110 | of each key under keepLatest exactly the newest row by (retrieved_at, rid) is kept |
| Retention.RunsRefineOnePrune | server/retention.js:123-144 | however many capped runs it takes, the one that is not capped leaves exactly what one prune at once would |
| Retention.BacklogEnds | server/retention.js:61-62 | repeating ends: of runs at one time that could take more, at the cap, than the backlog holds, one is not capped, and it leaves exactly what one prune at once would |
| Pruning.Pruner.PruneBatch | server/retention.js:95-103 | a batch deletes the first candidates by rid up to the batch size, and exactly their revisions |
| Pruning.Pruner.PruneCategory | server/retention.js:105-121 | the batch loop deletes candidates only, all of them unless it reports the cap, and its counts are the differences |
| Pruning.Pruner.RunRule | server/retention.js:135-139 | one rule of a run; a category the contract does not know is left alone, and a rule of 0 days prunes nothing |
| Pruning.Pruner.RunOnce | server/retention.js:123-144 | a run deletes nothing the rules keep, everything else unless a category was capped and then at least a cap's worth, and counts rows, revisions and categories exactly |
| Pruning.KeptRevisionsStay | server/retention.js:95-103 | with unique ids, exactly the revisions of deleted items go |
| Frontier.DuplicateReachesContent | server/crawl.js:308-321 | from a duplicate page, following canonical targets stays on duplicates of the frontier and reaches a page that is none, in at most as many steps as there are duplicates |
| Frontier.NoDuplicateCycle | server/crawl.js:308-321 | of pages whose canonicals form a circle of any length, whichever were marked, not all are duplicates, and following targets from each that is reaches a page of the circle that is none |
| Frontier.GrownOk | server/crawl.js:166-166 | a grown interval stays between one and four times recrawl_sec |
| Crawl.PageStepKeeps | server/crawl.js:252-366 | whatever a page answers: duplicates are never due and were marked while their target was known and no duplicate; intervals stay in bounds; other rows change only in when they are due |
| Crawl.SitemapStepKeeps | server/crawl.js:370-415 | the same for whatever a sitemap answers |
| Crawl.CrashStepKeeps | server/crawl.js:442-451 | and for an unexpected error after URLs were added |
| Queueing.EnqueuedJoin | server/crawl.js:123-128 | adding a list in chunks is adding it at once: chunk boundaries do not show |
| Queueing.TakeDue | server/crawl.js:66-67 | the due rows picked are the soonest by (next_fetch_at, url) |
| CrawlRuns.Crawler.Enqueue | server/crawl.js:106-130 | known pages become due where a sitemap says so, unknown wanted ones are added, the kind's count never rises above the larger of its cap and what it was, and none is left out below the cap |
| CrawlRuns.Crawler.EnqueueChunk | server/crawl.js:123-128 | one chunk: the rows a sitemap says changed become due, then as many as there is room for are added |
| CrawlRuns.Crawler.TouchLastmod | server/crawl.js:62-65 | a newer lastmod makes a fetched page due, unless it is noindex, duplicate or excluded |
| CrawlRuns.Crawler.AddMany | server/crawl.js:56-60 | unknown URLs are inserted as new, up to the room |
| CrawlRuns.Crawler.AddSeeds | server/crawl.js:133-151 | seeds unknown so far are added and known rows left as they are |
| CrawlRuns.Crawler.FetchPage | server/crawl.js:252-366 | a page's whole effect on the frontier, branch by branch |
| CrawlRuns.Crawler.ReadBody | server/crawl.js:308-364 | a page whose body is read: marked a duplicate only for a canonical that is known and none itself, else its links are added |
| CrawlRuns.Crawler.LookUp | server/crawl.js:308-316 | whether the canonical is known and no duplicate, or could be added just now |
| CrawlRuns.Crawler.FetchSitemap | server/crawl.js:370-415 | a sitemap's whole effect on the frontier |
| CrawlRuns.Crawler.NextBatch | server/crawl.js:433-435 | due sitemaps first, else due pages up to the budget, without what the run has handled |
| CrawlRuns.Crawler.Handle | server/crawl.js:439-451 | one URL is handled as its kind and the answer call for, an unexpected error as a failure of that URL |
| CrawlRuns.Crawler.HandleDue | server/crawl.js:432-463 | the loop over batches ends, because a round that asks nothing of the site leaves fewer URLs to handle |
| CrawlRuns.Crawler.Run | server/crawl.js:423-468 | for any clock and any answers a run ends: when the site fails, the requests or the time are used up, or nothing due is left unhandled; each URL is handled at most once and only when due, at most pages_per_run requests are counted, it fails exactly when the site asked it to stop or did not answer five times in a row, and the frontier is what the seeds and the handled answers, one after the other, make of it |
| PathSyntax.PiecesJoin | server/adapters/api.js:109-140 | what was joined by a separator is what is split, brackets shielding theirs |
| PathSyntax.JoinPieces | server/adapters/api.js:109-140 | splitting loses nothing: the pieces joined are the text |
| PathTrees.ReadPrint | server/adapters/api.js:146-173 | printing any path of names, `*`, `{$key}` and selectors, references nested to any depth, and parsing it gives the same path |
| PathTrees.PrintRead | server/adapters/api.js:146-173 | a text that parses is the one its path prints |
| PathTrees.ValidExact | server/adapters/api.js:176-190 | the check accepts exactly the texts of paths nested at most eight deep, not starting at `$rec` |
| PathWalk.ArrayOwn | server/adapters/api.js:208-221 | what a walk reads of an array: each element under its index as JavaScript writes it and nothing beyond the last, and under `length` the text of the count |
| PathWalk.WalkIsEval | server/adapters/api.js:203-231 | on a valid path the walker meets no malformed segment and no depth cut-off, and computes what the path's tree means |
| PathWalk.ValidFieldIsRead | server/adapters/api.js:234-239 | the same for a record's field, whether read from the record, the body or the key |
| PathParser.SelectorConds | server/adapters/api.js:126-140 | the loop cuts at commas outside brackets, and refuses text whose brackets do not balance |
| PathParser.ParseOne | server/adapters/api.js:149-169 | one segment's text: any, map key, key, selector or malformed |
| PathParser.ParseParts | server/adapters/api.js:159-167 | a selector's conditions one by one, malformed as soon as one is |
| PathParser.SplitNew | server/adapters/api.js:112-120 | the loop over characters cuts at dots outside brackets |
| PathParser.Paths.SplitPath | server/adapters/api.js:108-123 | so does the cache |
| PathParser.Paths.ParsePath | server/adapters/api.js:146-173 | parsed segments, from the cache or anew, are those of the path |
| PathParser.Paths.WalkPath | server/adapters/api.js:203-231 | the walking loop and its nested references compute the specification's walk |
| PathParser.Paths.FindFirst | server/adapters/api.js:224-227 | the first element whose fields match all values |
| RobotsRules.RuleMatches | server/robots.js:74-80 | a compiled rule matches exactly the paths its wildcards mean (section 2.2.3 of RFC 9309), on paths without line breaks |
| RobotsRules.CollapseMeans | server/robots.js:54-56 | collapsing runs of `*` never changes which paths a rule matches |
| Robots.ParseRobots | server/robots.js:24-72 | reading line by line gives the groups the file's definition gives, and merges those that name us, else those for all (section 2.2.1 of RFC 9309) |
| Robots.TakeToken | server/robots.js:38-60 | one significant line: it opens a group, adds to the last one, or names a sitemap |
| Robots.AllowsIsLongest | server/robots.js:94-97 | allowed exactly when no rule matches or one of the longest matching rules allows (section 2.2.2 of RFC 9309) |
| Robots.OrderDoesNotMatter | server/robots.js:94-97 | the verdict does not depend on the order of the rules |
| Robots.IsAllowed | server/robots.js:88-104 | the compiled loop finds that verdict |
| Robots.Cache.EntryOf | server/robots.js:147-152 | an entry is used until it expires and then replaced by what the answer makes of it |
| Robots.Cache.Check | server/robots.js:183-195 | the check gives the verdict of the entry it read |
| Robots.Cache.MatcherFor | server/robots.js:168-173 | the crawl's matcher is made from the same entry |
| Robots.Cache.Match | server/robots.js:168-173 | and agrees with the check on every path |
| Merchant.RunSafe | server/merchant.js:221-386 | every interleaving of calls keeps claims, sources and calls under way consistent |
| Merchant.OneLiveClaim | server/merchant.js:244-266 | a domain has at most one pending or verified claim |
| Merchant.OneProvedSource | server/merchant.js:309-337 | at most one source is ever created per claim, for a proved one, and no key twice |
| Merchant.CreatedAtCommit | server/merchant.js:319-327 | a source is created only by a commit, for a claim proved and still pending at that moment |
| Merchant.StatusNeverBack | server/merchant.js:171-176 | statuses never move back; owner, domain, source and permission note stay |
| Merchant.SourceOnExactly | server/merchant.js:347-360 | a claim's source is on exactly while every withdrawal of it was overtaken by its verification, committed between that withdrawal's read and its commit |
| Merchant.OvertakenStaysOn | server/merchant.js:347-360 | such a run exists for every merchant and domain |
| Merchant.NextSafe | server/merchant.js:221-386 | each step alone keeps that |
| Merchant.Claims.StartAdd | server/merchant.js:244-248 | refused, and nothing written, exactly when the domain has a live claim; the tables stay consistent |
| Merchant.Claims.FinishAdd | server/merchant.js:249-267 | however many calls passed the first check, an insert that succeeds makes the only live claim of its domain, and one that fails changes no claim and no source |
| Merchant.Claims.StartVerify | server/merchant.js:339-345 | only the owner's pending claim is checked: the only live one of its domain, and without a source |
| Merchant.Claims.FinishLookup | server/merchant.js:309-318 | a call goes on to create a source exactly when the proof was found, and claims and sources stay |
| Merchant.Claims.FinishCheck | server/merchant.js:312-330 | a check that came to nothing, for want of a proof or because the transaction failed: whatever became of the claim meanwhile, it counts one check more and is otherwise as it was; no other claim changes |
| Merchant.Claims.StartWithdraw | server/merchant.js:347-350 | only for the owner and once; a claim it reads has had a source created exactly if it is verified |
| Merchant.Claims.Recheck | server/merchant.js:368-386 | a pending claim that is too old fails, without a source; one that is not is checked again; no claim goes back |
| Merchant.Claims.Fail | server/merchant.js:372-376 | only a pending claim fails, and no other claim changes |
| Merchant.Claims.FinishVerify | server/merchant.js:319-330 | the claim is verified and its source created, or nothing is written, and the check of a failed transaction is then still to be counted, by a statement of its own: both only for a claim proved, still pending, and never given a source, which then is the only live one of its domain with an enabled source under a new key |
| Merchant.Claims.FinishWithdraw | server/merchant.js:351-358 | the claim is withdrawn for good, and its source is off unless a verification overtook this withdrawal and every other one of it; no other claim changes |
| Merchant.Claims.Take | server/merchant.js:221-386 | whichever call takes its next step, the tables are those of the step, stay consistent, and no claim is lost or goes back |
| Spacer.FirstComeFirstServed | server/spacer.js:18-28 | grants to a host come in the order of the calls, none lost and none twice |
| Spacer.GrantsSpaced | server/spacer.js:20-25 | successive grants to a host are at least the host minimum, the caller's minimum and the crawl delay when its turn began apart, under any interleaving |
| Spacer.HostsIndependent | server/spacer.js:10-16 | what happens at a host depends on its own events alone |
| Spacer.GrantBegan | server/spacer.js:20-23 | every grant of a run has an event at which its turn began, its caller first in line and the crawl delay the one it is spaced by, whatever was set later |
| Spacer.Hosting.Begin | server/spacer.js:20-23 | a turn sleeps until its whole gap from the last grant has passed, and keeps its caller's place |
| Spacer.Hosting.Space | server/spacer.js:18-28 | a call is served after all that called before it; grants stay spaced, and no other host changes |
| Spacer.Hosting.End | server/spacer.js:24-26 | the call first in order of those not granted is granted, its whole gap after the grant before it; none is lost or overtaken |
| Spacer.Hosting.SetDelay | server/spacer.js:30-33 | of its host only the delay changes, to any number of seconds, fractions included, and at most an hour: who waits, a turn under way and the grants stay |
| Spacer.EveryCallIsGranted | server/spacer.js:18-28 | after any run, from any moment on, turns of the host alone grant every call made so far, in order, each but the first of them exactly its gap after the one before |

## Left out

- Texts are sequences of Unicode scalar values, not of UTF-16 units: lone surrogates are not modelled, and keys are ordered
  by scalar value, which differs from JavaScript's order only between characters above and below U+10000. Lengths in limits
  (`slice`, 500 characters) count scalars.
- gzip, `StringDecoder`, HTTP, sockets, timers and the address guard; the model starts at decoded text chunks and answers.
- SHA-256 is taken as injective: a content hash is its canonical text.
- `JSON.parse`, `mapRecord`, `matchesWhere`, `canonicalUrl`, `normalizePath`, `Number` and the pattern of part file names
  are parameters: what is proved holds whatever they do.
- The cursor's JSON text (`readState`); it is stored and read as a value.
- An index from which a part disappears before it is completed: its rows are then not to be had, and a half-read one is
  started again if it comes back.
- AgreeOnNames: asks that the header is not refused and that its first name, if it begins with a quote, does so as it stands
  in the first cell, because without that a mark right before a quote need not part the readers, as
  `CsvMarks.RefusedAlike` and `CsvMarks.QuotedMarkCanAgree` show.
- AgreeOnRecords: asks the same of the first name, for the same reason.
- CSV text whose first line is blank: the streaming reader keeps no header and its next data row throws. It is outside the
  domain of the agreement theorem, and `AgreeExactly` says so.
- Records with a key `__proto__`, and properties inherited from JavaScript prototypes, which a path could name.
- Item ids, revisions' provenance columns, events, the search index and the outbox; rows are kept by (source, identity).
- `retireRun` covers the last good read and at most 500 items, as the code does; nothing is claimed of older items.
- PostgreSQL: each statement is its effect on maps and sequences, each transaction one step. The unique indexes on live
  domains and on (source, identity) are assumed. Where a statement has no ORDER BY, `CrawlRuns.Crawler.AddMany` adds in the
  order listed; its contract, and all that is proved from it, holds of any choice.
- The crawl: conditional requests (ETag, Last-Modified), what a page's items do to the store, URLs that do not parse, and
  the run record. Two runs of one source at a time are assumed not to happen.
- Page parsing, sitemaps, feeds, XML and the tab-separated whole-body parser.
- robots.txt: sharing of a load under way between callers, the stored rules' JSON text, lower-casing beyond ASCII.
- Merchant claims: checking of domains and URLs, the wording of notes, which pending claims a recheck looks at and from when
  on they are too old (both part of the step), and staff who enable or disable a source by hand.
- Spacing: that a sleep lasts at least as long as asked, and that the clock does not go back while one does, is assumed.
- `server/scheduler.js`, source health, settings, accounts and pages: short or all effect.
