# A model of the session query service

The service reads the session files and databases that command-line agents leave behind, and answers
queries about them without writing to any. This project models the parts of it whose correctness rests on
more than one line: an early-stopping parallel search, the counting of messages in files that are still
growing, the limiter of connections, the windows and pages of a session's messages, the cutting of a session
into rounds and their incremental export, and the byte and graph algorithms underneath.

What the source changes step by step is changed step by step here: the line reader, the message sink, the
caches, the exporter and the transcript are classes whose methods are proved against functions of their old
state, and loops are loops. Protocols between goroutines are state machines: every lock section, channel
operation or atomic operation is one event, and the theorems hold for every sequence of events. Everything
else is functions and lemmas.

| file | part of the service |
|---|---|
| `SearchUnits.dfy`, `SearchPage.dfy`, `SearchRun.dfy`, `SearchResult.dfy`, `SearchHitsCut.dfy` | the parallel search |
| `Lines.dfy`, `LineScan.dfy` | the buffered line reader |
| `CountStable.dfy`, `CountPool.dfy` | resumed message counts, and the pool of counting workers |
| `Limiter.dfy` | the connection limiter |
| `MessageSink.dfy`, `Cursor.dfy`, `Paging.dfy` | message windows, cursors, pages |
| `Rounds.dfy`, `RoundFacts.dfy`, `RoundFields.dfy`, `Export.dfy`, `ExportPasses.dfy` | rounds, and their export |
| `CleanText.dfy`, `Snippet.dfy`, `CodePoints.dfy` | terminal control stripping, snippets, characters |
| `TailScan.dfy` | scans from the end of a file |
| `Orbits.dfy`, `ClaudeCopies.dfy`, `Subagents.dfy` | copied transcripts, parent links |
| `Hermes.dfy` | the two-pass read with deduplication |
| `StampCache.dfy` | caches that answer while a file stamp is unchanged |
| `Options.dfy`, `Collections.dfy`, `ByteStrings.dfy` | an option type, sets and sequences, byte strings |

Strings that the code only compares or copies are numbers here, 0 being the empty one; where it orders them,
the numbers are their ranks. Fingerprints (SHA-256) are the bytes they are taken of.

## Where the code does less than its documentation says

Each of these is a lemma with a concrete input or run, next to the exact condition under which the
documented property holds.

- `internal/source/sqlitecache.go:48-50` says that a value read while the file was changing is never served
  as if it were current. With two loads at once it can be: one is stamped before a write, the other reads
  through that write and enters what it read under the same old stamp, and the first one then hits
  (`StampCache.TornValueServed`). What a hit answers is right for its stamp if and only if the files still
  stood at that stamp when the entry's read ended (`StampCache.HitIsRight`). A load can test that by stamping
  again after the read; if every load that enters does, no torn value is ever served
  (`StampCache.StampingAgainIsEnough`).
- `internal/source/filecache.go:205-210` takes the last 256 bytes before an offset for proof that the bytes
  counted are still there. A resumed count is right whatever was done to the file if and only if the size
  resumed from is at most 256 bytes (`CountStable.SafeExactlyWithinWindow`): at any larger size a file can be
  rewritten so that it passes every test and is counted wrongly (`CountStable.RewriteFoolsResume`). A file
  that is only appended to is always counted rightly (`CountStable.CountOne`).
- A round forgets a file it has changed when a later call reuses the id of the call that wrote it before the
  first call is answered (`RoundFacts.ReusedIdForgets`). Otherwise `changed` holds the files whose write was
  answered well (`RoundFacts.ChangedExactly`, `RoundFacts.SettledExactly`).
- Once the listener has failed and the server has seen it, a connection that then gets its permit is never
  handed over and never gives permit or queue slot back (`Limiter.ParkedForEver`; `Limiter.CanBeParked` is
  such a run). A connection that the accept loop or a queue goroutine has can go on if and only if it is not
  one of those (`Limiter.NobodyStuck`).
- The page of a search that stopped early may not report that hits were cut (`hitsCut`) though a complete
  scan's page would. Some run misses it if and only if the page is full, only the last session on it has more
  hits than are shown of a session, and that session's first transcript with a hit has no more than that
  (`SearchHitsCut.HitsCutExactly`).

## Model

| member | source | states |
|---|---|---|
| SearchUnits.GroupUnits | internal/app/search.go:95-113 | The grouping loops give every session its subagents in order, and then the subagents whose session is outside the selection |
| SearchUnits.PartIs | internal/app/search.go:95-113 | By the fields of the candidates: within a scope everything leads; else a subagent belongs to the last session listed that it ran in, and stands alone if there is none |
| SearchUnits.InUnit | internal/app/search.go:105-113 | A subagent is in the unit of exactly the session it ran in; units past the leading sessions are subagents without one |
| SearchUnits.EachInOne | internal/app/search.go:95-113 | No candidate of the selection is lost by the grouping |
| SearchUnits.InNoOther | internal/app/search.go:95-113 | No candidate is searched twice: it is in one unit only, and in that one once |
| SearchPage.BuildOrder | internal/app/search.go:126-133 | The job list is built unit by unit, a session's own transcript before its subagents' |
| SearchPage.OrderIsAll | internal/app/search.go:126-133 | The job order is strictly ascending by unit and member and holds every transcript |
| SearchPage.Assemble | internal/app/search.go:202-236 | The loop over the hits gives the page, its count of matches and its two cut flags |
| SearchPage.PageIsFirst | internal/app/search.go:208-220 | A page holds the first matching sessions in order, as many as the limit; a match left out comes after all of them |
| SearchPage.PageShows | internal/app/search.go:208-236 | A result shows the first hits of its session, as many as may be shown; hitsCut says that some session on the page has more, sessionsCut that there are more sessions or the scan was stopped, and the match count is that of the sessions with a hit |
| SearchPage.JoinedIs | internal/app/search.go:208-212 | The hits of a session are all those of each of its transcripts, in their order |
| SearchPage.FoundFirst | internal/app/search.go:183-196 | With transcripts read only up to some job, the sessions found are a prefix of those a complete scan finds |
| SearchPage.PageStands | internal/app/search.go:183-236 | Once the limit is reached the page is that of a complete scan; only the last session begun may hold fewer hits, a prefix, or miss the hits-cut flag |
| SearchRun.StepKeepsInv | internal/app/search.go:140-199 | Each step of dispatcher or worker keeps: jobs handed out are a prefix, hits are written for exactly the jobs past writing, marked units are those with a hit, found and scanned count |
| SearchRun.EveryRunKeepsInv | internal/app/search.go:140-199 | The same over every interleaving |
| SearchResult.PageIsRight | internal/app/search.go:140-236 | For every interleaving run to its end the page has the sessions of a complete scan's page in order; match count exact unless stopped, else a lower bound; nothing is missing when sessionsCut is false |
| SearchResult.CountsAreRight | internal/app/search.go:160-176 | At the end found is the number of distinct sessions with a hit and scanned the number of sessions begun, all of them unless stopped |
| SearchHitsCut.HitsCutExactly | internal/app/search.go:183-228 | Some run's page says other of hits cut than a complete scan's page would if and only if the query has one shape, which is stated on the query alone |
| SearchHitsCut.SuchAQuery | internal/app/search.go:183-228 | There are queries of that shape: one session with a hit of its own and one in a subagent's transcript, one hit shown of each |
| SearchHitsCut.MissMeans | internal/app/search.go:183-228 | A run that misses the flag is of such a query: only the last session shown has too many hits, and its first transcript with a hit has not |
| SearchHitsCut.CutNotSeen | internal/app/search.go:145-228 | Every such query has a run that misses it: the transcripts one after another, stopped as early as may be |
| SearchHitsCut.OneMore | internal/app/search.go:145-197 | While too few sessions have matched, the next transcript can be handed out and read to the end |
| SearchResult.NeverStuck | internal/app/search.go:145-199 | In every reachable state that is not the end some step can be taken |
| SearchResult.RunsEnd | internal/app/search.go:145-199 | Every run is bounded, and one that cannot go on has ended |
| Lines.PiecesAtSeam | internal/source/record.go:479-544 | Splitting at newlines is additive across a newline |
| Lines.LinesAtSeam | internal/source/filecache.go:188-194 | The shown lines of a file are those before a line boundary and then those after it |
| Lines.PiecesAre | internal/source/record.go:479-544 | The pieces hold no newline, and put together with newlines between them they are the text |
| Lines.ShownIs | internal/source/record.go:479-544 | The lines shown are the trimmed pieces that are not blank, in order |
| LineScan.LineReader.Next | internal/source/record.go:379-416 | Whatever the buffer size and the reads, one call hands over exactly the next line and goes on after its newline, at it, or at the end; too long only past the cap |
| LineScan.LineReader.Gather | internal/source/record.go:421-462 | A line longer than the buffer is found to its end and read whole; the file is left at its newline |
| LineScan.LineReader.MoveToFront | internal/source/record.go:386-391 | Moving the buffered bytes to the front loses none of them |
| LineScan.EachLine | internal/source/record.go:479-544 | The callback is handed the non-blank trimmed lines from the offset on, in order, to the first refusal or the end; a scan cut short was cut at a line over the cap, with every line before it handed over |
| LineScan.HandedOverOnce | internal/source/record.go:479-544 | That determines what the callback gets: buffer and reads leave no trace |
| CountStable.CountLines | internal/source/msgcount.go:36-92 | A line-local counter counts the lines from the offset on that its rule accepts |
| CountStable.CountInIs | internal/source/msgcount.go:36-92 | What is counted is the number of lines that the rule accepts |
| CountStable.LongIs | internal/source/record.go:349-353 | Too long is exactly a line of more than 256 MiB, and no file of 256 MiB or less has one |
| CountStable.ResumeExact | internal/source/filecache.go:188-195 | Base plus tail is the full count if and only if the base is the count of the bytes before the old end |
| CountStable.GoodStays | internal/source/filecache.go:176-202 | A banked count stays true of a file that is only appended to |
| CountStable.CountOne | internal/source/filecache.go:176-202 | With appends at any point of it, an entry is made if and only if a stat taken after the scan tells what the one before it did; what it banks is the full count of the file's first size bytes |
| CountStable.ResumeAt | internal/source/filecache.go:186-192 | While the file is there, a count is resumed if and only if the file has grown past the entry, a line begins where that ended and the fingerprint is the same; it goes on there from the entry's count |
| CountStable.QuietScan | internal/source/filecache.go:188-195 | A scan that no write overlapped has counted the whole file, its resumed part included |
| CountStable.SafeExactlyWithinWindow | internal/source/filecache.go:188-230 | A resume from a size is right by every rule and after any rewrite if and only if the size is at most the fingerprint's 256 bytes |
| CountStable.WindowSeesAll | internal/source/filecache.go:211-230 | Up to 256 bytes the tests of a resume pass only if the old bytes are all still there |
| CountStable.RewriteFoolsResume | internal/source/filecache.go:205-230 | At every larger size some rewrite passes every test of a resume and is counted wrongly |
| CountPool.FileRecordCache.QueueCount | internal/source/filecache.go:101-124 | One lock section: answers the banked count, be it of an older version; a path with none of this version is queued unless it is queued or in flight |
| CountPool.FileRecordCache.StartCounting | internal/source/filecache.go:133-147 | Starts workers up to 4, to the number of processors and to the length of the queue, whichever is least |
| CountPool.FileRecordCache.Take | internal/source/filecache.go:150-159 | A worker takes the oldest path or leaves, in one lock section |
| CountPool.FileRecordCache.Bank | internal/source/filecache.go:161-168 | The count is banked and the path is no longer being counted, in one lock section |
| CountPool.FileRecordCache.KeepCounts | internal/source/filecache.go:252-267 | The counts of exactly the files listed are kept, as they are |
| CountPool.ScanStepGood | internal/source/filecache.go:176-202 | Each step of a scan, from the first stat to the second, keeps what makes its number the full count of an unchanged file |
| CountPool.ScanStays | internal/source/filecache.go:176-202 | An append at any moment of a scan leaves it sound: its number is worth something only while the file is as long as it was |
| CountPool.StepKeepsCounts | internal/source/filecache.go:161-168 | What a worker banks is the full count of its file's first size bytes |
| CountPool.EveryRunKeepsInv | internal/source/filecache.go:101-202 | In every run, counting is what is queued plus what is in flight without duplicates, working is the live workers and within the limit, and every banked count is true of its file, with the scans' own steps and the writers' appends in any order |
| CountPool.NoPathScannedTwice | internal/source/filecache.go:101-170 | Two workers never scan one path at once, and a path in flight is not queued |
| CountPool.NoLostWakeup | internal/source/filecache.go:125-170 | With no caller between queueing and starting, a non-empty queue has a live worker; with no worker left nothing is waiting |
| CountPool.WorkersFinish | internal/source/filecache.go:150-202 | Every step of a worker, those within a scan included, brings the work left down |
| CountPool.WorkerNeverStuck | internal/source/filecache.go:150-202 | Every live worker has a step to take without a stat failing, and it gives a scan up only if the file has changed since the first stat |
| CountPool.QueuedIsCounted | internal/source/filecache.go:101-202 | In every run a queued file that from then on is not written to, not dropped by the list and without a failed stat has, once it is no longer being counted, its full count banked for its present size and time, and is no longer being counted once the last worker has left and no caller is about to start one |
| CountPool.AskedIsCounted | internal/source/filecache.go:101-202 | So is a file that the list asks for as it stands, unless a scan of an older version of it is already going on: it is being counted from then on, or banked as it stands |
| CountPool.NotCountedAgain | internal/source/filecache.go:101-168 | And while it stays as it is it is not counted again, however often it is asked for |
| CountPool.ScanGoesOn | internal/source/filecache.go:186-202 | The next step of a scan resumes where the tests of a resume pass, and of an unchanged file banks the number with the fingerprint |
| CountPool.AnswerForPresentSize | internal/source/filecache.go:101-124 | A count answered for the present size of an append-only file is its full count |
| Limiter.StepKeepsInv | internal/app/http.go:1097-1174 | Each step of the accept loop, a queue goroutine, the server or a close keeps permits, slots and the loop's one connection in account |
| Limiter.Bounded | internal/app/http.go:1083-1174 | In every run permits are the connections wrapped and not released, at most the cap, slots are the live queue goroutines, and at most cap + depth + 1 connections are open, those still being refused included |
| Limiter.ConfiguredBound | internal/app/http.go:1046-1092 | The same bound in terms of the two settings, defaults included, and that no connection is refused at the door while there is room by them |
| Limiter.RefusedOnlyWhenFull | internal/app/http.go:1118-1128 | A connection is refused at the door only when every permit is held and every queue slot taken |
| Limiter.ChoiceIs | internal/app/http.go:1118-1143 | At the door a connection can be admitted if and only if a permit is free, queued if and only if a slot is, refused if and only if neither; in the queue it can go on if and only if a permit is free, and can time out |
| Limiter.CloseGivesBack | internal/app/http.go:1149-1174 | Closing a connection gives back its permit and no other |
| Limiter.AllGivenBack | internal/app/http.go:1121-1174 | When all connections are closed or refused no permit is held, and every slot still held is about to be freed |
| Limiter.ReleaseNeverBlocks | internal/app/http.go:1149-1174 | Closing never waits for the permit channel, however often it is called |
| Limiter.OnlyForward | internal/app/http.go:1097-1174 | A connection only moves on, from accepted over queued and admitted to closed or refused |
| Limiter.ParkedForEver | internal/app/http.go:1100-1143 | After the listener's error has been seen a connection waiting to be handed over keeps its permit and slot for ever |
| Limiter.CanBeParked | internal/app/http.go:1100-1143 | A run that comes to that |
| Limiter.NobodyStuck | internal/app/http.go:1100-1149 | A connection that the loop or a queue goroutine has can go on if and only if it does not wait to be handed to a server that has seen the listener's error |
| MessageSink.Sink.constructor | internal/source/source.go:83-98 | An empty sink whose ring holds limit plus offset messages |
| MessageSink.Sink.Add | internal/source/source.go:101-140 | The sink has seen one message more; false is answered exactly when no later message can change an ascending or empty window |
| MessageSink.Sink.Result | internal/source/source.go:144-166 | The window of all that was added, whether or not a false was heeded |
| MessageSink.MatchingIs | internal/source/source.go:102-120 | What the filter keeps, in order: messages of the role asked for, at or on the right side of the anchor, or without a time |
| MessageSink.WindowIs | internal/source/source.go:144-166 | The window message by message: as many as the limit past the offset, from the end asked for; an anchored window has no offset |
| MessageSink.RingKeeps | internal/source/source.go:133-139 | The ring holds the last limit + offset matching messages, in order from its start |
| MessageSink.TailWindow | internal/source/source.go:144-166 | A ring of limit + offset messages is enough for the window that ends offset before the end |
| MessageSink.Collect | internal/source/source.go:101-166 | A source that stops at the first false gets the same window |
| Cursor.DecodeEncode64 | internal/app/mcp.go:655-669 | Base64 decoding undoes encoding |
| Cursor.CursorRoundTrip | internal/app/mcp.go:655-669 | A cursor decodes to the offset it was made from |
| Cursor.NotACursor | internal/app/mcp.go:659-669 | What is not base64 of a decimal number that an int can hold, or is negative, reads as the first page |
| Paging.PageIsWindow | internal/app/mcp.go:525-545 | Fetching one message more and cutting gives the sink's window for limit and offset, and tells whether more follow |
| Paging.GetMessages | internal/app/mcp.go:407-477 | A page is the sink's window, anchored or not, each message of it of the role asked for and on the right side of the anchor; a cursor is given exactly when the page is not anchored and a message follows; too deep a cursor, a cursor with an anchor and an unknown role are refused |
| Paging.FollowCursors | internal/app/mcp.go:407-477 | Following the cursors reads every message of the role asked for once and in order, from either end; it is refused exactly when there are more than the deepest page reaches |
| Paging.AllMessages | internal/app/telemetry.go:342-356 | The exporter's descending pages are together the last 500000 messages |
| Rounds.FoldMessage | internal/app/brief.go:308-361 | One message folded into the current round, block by block |
| Rounds.SplitRounds | internal/app/brief.go:275-373 | The loop with its state on the side gives the rounds of a segmentation at the asks that keeps no state |
| Rounds.RoundsConcat | internal/app/brief.go:275-373 | Sessions joined where the second opens with an ask split as apart, the second's rounds numbered on |
| RoundFacts.IndicesShift | internal/app/brief.go:289-300 | Numbering on changes nothing in a round but its index |
| RoundFacts.SegmentsPartition | internal/app/brief.go:275-306 | The rounds laid end to end are the session from its first ask on, each with one ask, its first message |
| RoundFacts.RoundsConserve | internal/app/brief.go:308-353 | Messages, tool calls and failures of the rounds sum to the totals after the first ask |
| RoundFacts.MessagesCounted | internal/app/brief.go:308-353 | Failures are as many as the failed calls listed, and each block is counted once |
| RoundFacts.ChangedExactly | internal/app/brief.go:377-410 | A file is in changed exactly when a write naming it had no id or was settled well in the round; changed has no duplicates and is within files |
| RoundFacts.SettledExactly | internal/app/brief.go:392-403 | A waiting write is settled well if and only if its first answer did not fail and no later write took its id before that |
| RoundFacts.ReusedIdForgets | internal/app/brief.go:377-403 | A write whose id is reused before its answer is forgotten though it was answered well |
| RoundFields.RoundSays | internal/app/brief.go:275-373 | The other fields of a round: what was asked and when, its last message and the last that was work, the agent's last words, the commands run in order, the files named; it was interrupted exactly when the next ask followed at once or an event says so |
| RoundFields.FailuresSay | internal/app/brief.go:316-348 | One failure for each failed result, in order, with the time of its message and the name and command of the last call under its id |
| RoundFields.CountersCount | internal/app/brief.go:310-336 | The counters count the tool calls and the failed results |
| Export.RoundsSorted | internal/app/telemetry.go:182-201 | The rounds of a session are visited in ascending order, each that has a span |
| Export.NextBatch | internal/app/telemetry.go:360-379 | A batch is not empty, at most 250 spans, within 8 MiB unless one span, and cannot be longer |
| Export.OneBatch | internal/app/telemetry.go:363-373 | From each place there is one such batch |
| Export.BatchesInOrder | internal/app/telemetry.go:360-379 | Each request posted is the batch from where the one before ended, and only the last can have been refused |
| Export.PostedIsFirst | internal/app/telemetry.go:360-379 | What was posted, joined, is a beginning of the spans |
| Export.SameBatch | internal/app/telemetry.go:360-379 | The batches depend on the spans alone |
| Export.Exporter.Send | internal/app/telemetry.go:360-379 | Posts exactly the batches of the spans in order, up to the first refused; succeeds if and only if none is, and then every span was posted and accepted |
| Export.Exporter.RoundsToSend | internal/app/telemetry.go:182-201 | Kept are the spans of exactly the rounds whose recorded fingerprint differs, with their new fingerprints |
| Export.Exporter.GroupRounds | internal/app/telemetry.go:204-211 | Spans by round, in order |
| Export.OfRoundIs | internal/app/telemetry.go:204-211 | The spans of a round are all those with its number, in the order they were built |
| Export.Exporter.Mark | internal/app/telemetry.go:687-706 | What a mark records and what the bound on sessions and rounds makes it forget |
| Export.MarkedIs | internal/app/telemetry.go:687-706 | A mark sets the version of its session and leaves the others as they are; past 20000 sessions it forgets them all |
| Export.RoundsMarked | internal/app/telemetry.go:694-701 | A round that was sent is on record as it was sent, another as it was before, unless more than 5000 were sent |
| Export.MarkedTrue | internal/app/telemetry.go:687-706 | A mark after acceptance keeps every record true, whatever it forgets |
| Export.SkippedWasAccepted | internal/app/telemetry.go:141-152 | A session with no round to send had every span accepted before |
| Export.Exporter.ExportSession | internal/app/telemetry.go:130-162 | A session not due, or known at its version, posts nothing; else exactly the rounds not on record are posted; it fails if and only if a request is refused, and is then not marked; else it is marked with what was sent |
| Export.Exporter.ExportOnce | internal/app/telemetry.go:111-178 | A pass is that of session after session; failed are exactly the sessions with a refused request; every record stays true, and every due session that did not fail has every current span accepted |
| ExportPasses.NotSentAgain | internal/app/telemetry.go:130-162 | A second pass over the same sessions posts nothing of one that did not fail and has a version, while the state has room for all |
| ExportPasses.AllOnRecord | internal/app/telemetry.go:130-162 | After a session was delivered every round of it is on record, those that were not sent this time included |
| ExportPasses.OnlyChangesSent | internal/app/telemetry.go:111-201 | When sessions grow between two passes the second posts, of the rounds delivered in the first, exactly those that have changed |
| ExportPasses.SecondPassIsQuiet | internal/app/telemetry.go:111-178 | After a pass without failures, over sessions with versions, the next posts nothing at all |
| Export.Exporter.LoadState | internal/app/telemetry.go:709-720 | Starting over with an earlier state, or with none, keeps every record true |
| CleanText.EscapeSequenceLen | internal/source/cleantext.go:181-219 | The loops find the end of a sequence |
| CleanText.SequenceMeasured | internal/source/cleantext.go:181-219 | Every well-formed sequence of sections 5.4 and 5.6 of ECMA-48 and section 13.2 of ECMA-35 is measured to its last byte, whatever follows |
| CleanText.EscapeMeasured | internal/source/cleantext.go:181-219 | How far any sequence goes, finished or not, byte by byte |
| CleanText.StripTerminalControls | internal/source/cleantext.go:63-81 | The loop and its fast path strip alike |
| CleanText.StripIsClean | internal/source/cleantext.go:63-88 | No byte below 0x20 but tab and newline, and no 0x7f, is left |
| CleanText.StripIsIdempotent | internal/source/cleantext.go:63-88 | Stripping twice is stripping once, and changes a text only if it has a control character |
| CleanText.StripKeepsUtf8 | internal/source/cleantext.go:63-81 | Valid UTF-8 (section 4 of RFC 3629) stays valid |
| CleanText.StripUndecorates | internal/source/cleantext.go:63-81 | Clean text with well-formed sequences and single control characters anywhere in it strips to the text |
| Snippet.IndexFold | internal/source/cleantext.go:24-46 | The first place where the needle matches up to the case of ASCII letters, or none |
| Snippet.MatchIs | internal/source/cleantext.go:31-42 | A match is byte by byte, save that a capital ASCII letter matches its small one |
| Snippet.TrimFromLeft | internal/source/cleantext.go:266-278 | Keeps the last n characters |
| Snippet.TrimFromRight | internal/source/cleantext.go:281-290 | Keeps the first n characters |
| Snippet.Truncate | internal/source/record.go:802-814 | Cuts at a character count and marks the cut |
| Snippet.WindowIsEnough | internal/source/cleantext.go:236-262 | The byte window yields the same characters and marks as the whole text, be it valid UTF-8 or not |
| Snippet.HitBoundaries | internal/source/cleantext.go:232-250 | A hit begins and ends between characters |
| Snippet.HitIsShown | internal/source/cleantext.go:251-262 | The hit itself is in its snippet whole |
| Snippet.SnippetAround | internal/source/cleantext.go:227-263 | Around the first hit the radius in characters on each side, with a mark exactly where something was cut |
| CodePoints.AroundIs | internal/source/cleantext.go:251-262 | Of text as characters: the last ones before the hit, the hit and the first ones after it, with an ellipsis at either end where the text goes on |
| CodePoints.EllipsisIs | internal/source/cleantext.go:251-262 | The mark is the encoding of U+2026 |
| CodePoints.RuneIs | internal/source/cleantext.go:266-290 | The bytes taken for one character are exactly the encodings of Unicode scalar values (section 3 of RFC 3629) |
| CodePoints.ValidIsJoined | internal/source/cleantext.go:266-290 | Valid UTF-8 is exactly a sequence of such characters |
| CodePoints.FirstAre | internal/source/cleantext.go:281-290 | The first n characters of such a sequence, and what is left without them |
| CodePoints.LastAre | internal/source/cleantext.go:266-278 | The last n characters of such a sequence |
| TailScan.ScanBack | internal/source/record.go:727-753 | Going backwards over a buffer finds what its last line with an answer yields |
| TailScan.LastOfIs | internal/source/record.go:727-753 | That is the answer of a line after which none has any |
| TailScan.WindowAgrees | internal/source/record.go:671-722 | What a window finds after dropping its cut first line is what a scan of every line finds |
| TailScan.LastInFile | internal/source/source_claude.go:256-295 | The growing window ends with the answer of a scan of the whole file |
| TailScan.LastRecordTime | internal/source/record.go:671-722 | Trying three windows gives what the whole lines of the largest one yield last |
| TailScan.TailAgrees | internal/source/record.go:671-722 | That is the last time of the whole file, or nothing; for a file within the largest window it always is |
| TailScan.TailFinds | internal/source/record.go:671-722 | In a longer file it finds something if and only if a line with a time begins after a newline within the last 4 MiB |
| Orbits.WalkFits | internal/app/api.go:598-610 | A walk that repeats nothing is no longer than the map |
| Orbits.ReachedSoon | internal/app/api.go:598-610 | What links reach they reach in as many hops as there are links |
| ClaudeCopies.Resolve | internal/source/source_claude.go:406-423 | Ends on every map with the owner: the end of the chain, or the least path of the cycle it runs into |
| ClaudeCopies.OwnerUnique | internal/source/source_claude.go:406-423 | There is one owner |
| ClaudeCopies.OwnerOfNext | internal/source/source_claude.go:406-423 | A transcript and the one it was copied from have the same owner |
| ClaudeCopies.OwnerIdempotent | internal/source/source_claude.go:406-423 | An owner owns itself |
| ClaudeCopies.CycleOwner | internal/source/source_claude.go:413-421 | On a cycle it is the least path of all that can be reached |
| ClaudeCopies.ResolveSession | internal/source/source_claude.go:425-432 | Follows the aliases to one that has none or was passed before |
| ClaudeCopies.FollowedUntil | internal/source/source_claude.go:425-432 | The aliases are followed to the first place where there is none or that was passed before |
| ClaudeCopies.Aliases | internal/source/source_claude.go:134-144 | Every copy has its owner, and the session of every copy of another session an alias |
| ClaudeCopies.SessionAtIs | internal/source/source_claude.go:129-132 | A path stands for the session of the last record that has it |
| ClaudeCopies.ListOriginals | internal/source/source_claude.go:125-156 | Kept, in order, are the subagents, given to the original of a copied session, and the transcripts that own themselves |
| ClaudeCopies.OriginalsAre | internal/source/source_claude.go:146-156 | By the fields: kept are exactly the subagents, the transcripts that are no copies and those that own themselves; nothing but the parent of a subagent is changed |
| ClaudeCopies.OwnerIsListed | internal/source/source_claude.go:146-150 | Every transcript dropped has its owner in the list |
| Subagents.DescendsFrom | internal/app/api.go:598-610 | The hop-bounded walk decides unbounded descent, cycles or not |
| Subagents.LinkSubagents | internal/source/source_claude.go:537-563 | Each subagent's depth by its parent links, and the number of subagents of each other session |
| Subagents.ParentIs | internal/source/source_claude.go:538-557 | The parent of an agent is the last subagent listed of the same session with the id it names |
| Subagents.RanInIs | internal/source/source_claude.go:541-551 | A session has as many subagents as name it |
| Subagents.OneBelowItsParent | internal/source/source_claude.go:553-561 | An agent is one deeper than its present parent if and only if its chain of parents ends; with none present it is at depth one |
| Subagents.BoundNeverCuts | internal/source/source_claude.go:553-561 | Only a chain that never ends uses the hop bound up |
| Hermes.PassOne | internal/source/hermes_sqlite.go:549-584 | The first pass ends with one reference for each message kept |
| Hermes.KeptIs | internal/source/hermes_sqlite.go:549-566 | Looked at are the rows that are shown and not only the model's, in order |
| Hermes.WinnersAreBest | internal/source/hermes_sqlite.go:570-580 | One for each identity, and of its copies the greatest by liveness and then id |
| Hermes.FirstSeenFirst | internal/source/hermes_sqlite.go:570-580 | A message stays where its first copy was |
| Hermes.PassTwo | internal/source/hermes_sqlite.go:590-688 | Whatever the chunk size, the sink's window of the messages fetched |
| Hermes.RowForIs | internal/source/hermes_sqlite.go:651-662 | A message whose row was rewritten since is that row, one whose row was deleted is dropped |
| Hermes.Messages | internal/source/hermes_sqlite.go:520-689 | Both passes, the table possibly rewritten between them |
| Hermes.QuietSession | internal/source/hermes_sqlite.go:651-660 | With no write between the passes each message is there once, in order, with its identity's content |
| StampCache.EveryRunKeepsInv | internal/source/sqlitecache.go:59-78 | In every run an entry is right for its stamp exactly if no write had landed between the stamp and the end of its read |
| StampCache.HitIsRight | internal/source/sqlitecache.go:59-66 | A hit is right for its stamp if and only if the files still stood at it when the entry's read ended; so it is if they still do, or if that read ended before the load began |
| StampCache.StampingAgainIsEnough | internal/source/sqlitecache.go:59-78 | If every load that enters found its stamp unchanged after the read, every hit is right for its stamp |
| StampCache.QuietHitIsCurrent | internal/source/finalcache.go:44-53 | With no write during a load a hit is current |
| StampCache.MissIsRight | internal/source/sqlitecache.go:59-78 | What a load that missed enters and answers is right for its stamp if and only if the files still stood at it when its read ended; with no write during the load it is current |
| StampCache.TornValueServed | internal/source/sqlitecache.go:48-78 | With a write and a second load during it a hit may be what a torn read came to |
| StampCache.FinalCache.Enter | internal/source/finalcache.go:58-64 | Entering adds the one entry, after dropping all others if there are 4096, and none below that |
| StampCache.SnapshotCache.Enter | internal/source/sqlitecache.go:71-77 | Entering replaces the one entry of that database and no other |

## Left out

- Decoding: JSON, SQL and zstd. A file is a sequence of bytes, a row or a message its decoded fields, a
  counter or probe any function of a line.
- Input and output failures other than those named above: a file that cannot be read, a query that fails.
- Cancellation of a search, and how long anything takes: a timeout is a step that may be taken at any moment.
- The order of sessions (`NewerThan`) and of a session's subagents by time: the search is proved for whatever
  order the units are in. Scans of one transcript are taken to answer the same whenever they run.
- LineScan.LineReader.Next: what it hands over is a copy; that the source's is a view of the buffer, good
  until the next call, is not modelled. Nobody writes to the file during one scan; `CountStable.CountOne` is
  where the writer comes in, and gives a scan that a write overlapped an arbitrary count.
- CountStable.CountOne: a line longer than 256 MiB ends a scan early, and a count past one is not claimed.
- Pretty-printed counters that cannot resume are the `Whole` counters of `CountStable`; what each rule accepts
  is not modelled.
- Export.Exporter.ExportOnce: the dry run, which marks what it has printed and not sent, and the metrics.
  How a session becomes spans is not modelled; a version of a session stands for its spans, and the order in
  which they are built may differ from pass to pass.
- ExportPasses.NotSentAgain: of sessions whose keys differ. A session without a last-activity time is
  rendered again in every pass, and sent again if its spans come out in another order.
- Usage totals, kinds and costs of a round: sums with no further rule.
- Cursor.CursorRoundTrip: offsets up to the largest 64-bit integer; white space around a cursor, which is
  trimmed, and line breaks inside base64, which Go's decoder skips, are not modelled.
- Paging.GetMessages: an anchor that cannot be read as a time is refused too; reading it is not modelled.
- Paging.FollowCursors: the session does not change while its pages are read.
- Snippet.SnippetAround: begins where the text has been stripped; redaction of secrets is not modelled. The
  needle is taken to be valid UTF-8; of another one only the case without a hit is stated.
- Hermes.QuietSession: two rows of one id and one identity may differ in their reasoning, and which of them
  is shown is then the database's choice.
- StampCache.HitIsRight: takes it that a write moves a stamp to one never seen before; a file put back with
  its old size and time is outside it.
- MessageSink.Sink.Add: the offset and the limit are not bounded, as they are at the service's edge.
- Routing, authentication, rendering, the web page, and the per-agent mapping of fields.
