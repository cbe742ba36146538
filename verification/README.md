# NaviServer core: verified models

This project models parts of NaviServer's C core in Dafny and proves what they keep over
every input, every run and every interleaving of threads.

* **The transactional LRU cache** (`nsd/cache.c`).  `CacheSpec` says what each call does to a
  cache seen as a value: a table, a recency list, a pending table, a byte counter and a log of
  freed values.  `CacheImpl` is the same cache as an object with intrusive links, updated in
  place; each method is proved to do to the abstract cache what the function of `CacheSpec`
  does.  `CacheLaws` and `CacheRuns` prove the properties of single calls and of whole runs,
  `CacheMap` that the cache refines a map from keys to values with sizes and expiry times, and
  what its calls answer in terms of that map, `CacheWait` the properties of
  concurrent callers that wait for, build, rebuild and publish entries.
* **The ADP pipeline.**  `AdpText` holds the character searches of `nsd/adpparse.c`, `AdpScan`
  the four-state scanner as a function, `AdpParser` the same scanner as an object, `AdpCode` the
  block table and the single-script form, `AdpExec` the execution of both (`nsd/adpeval.c`),
  `AdpAttrs` where a start tag with quoted attributes ends, `AdpTags` which end tag closes a script or
  a registered tag, `AdpPrint` and `AdpRoundTrip` a printer and the proof that the parser undoes it,
  `AdpCalls` what the calls of registered tags say, `AdpWhole` what holds for every page.  `AdpPages` is the shared
  page table with its reference-counted pages and cached results, as steps of threads;
  `AdpPagesSteps`, `AdpPagesRuns`, `AdpPagesRefresh` and `AdpPagesWitness` prove what its runs keep,
  `AdpPagesVersions` which version of a file a thread runs.
  `AdpOutput` is the output buffer (`nsd/adpcmds.c`, `nsd/adprequest.c`).
* **Smaller cores.**  `Cgi` and `CgiLaws` are the CGI response reader (`nscgi/nscgi.c`), `Prebind`,
  `PrebindRuns` and `PrebindImpl` the pool of pre-bound sockets (`nsd/binder.c`), `ContentType` the
  Content-Type scanner (`nsd/conn.c`).

`Prelude`, `Tallies` and `Chars` hold the shared types, sums and string facts.  What the code
takes from outside is given to the model: the clock and time limits as arguments, the Tcl
interpreter as functions, files, pipes, sockets and connections as the answers they give.
Locks are atomic sections, condition waits are steps that can be repeated.

## What the code does not promise

Some properties that the code or its comments suggest do not hold.  The model keeps the code's
behaviour; each case has a lemma with the exact condition, and one that shows that it happens.

* `Ns_CacheWaitCreateEntryT` returns no entry after a timeout even if its last create made a new,
  empty entry; that entry then has no builder and blocks later callers until it is deleted
  (`OrphanAppearsIff`, `OrphanIsReachable`, `OrphanStaysIff`, `OrphanBlocks`).
* Rolling a transaction back can delete an entry that another thread is building, because an
  expired uncommitted entry keeps its transaction tag (`RollbackStealsIff`,
  `StolenEntryIsBuiltTwice`, `StolenEntryIsReachable`).
* Rolling a transaction back does not bring back a committed value that the transaction
  overwrote (`RollbackLosesOverwritten`).
* `FreeInterpPage` passes NULL to `FreeObjs` when the last holder of a page with a cached result
  never ran that result (`NullIsFreedIff`, `NullIsFreed`).
* A page's lock is set only when its result has expired, so the wait for a first result never
  happens and the first result can be built twice (`NobodyWaitsForResult`, `RefreshStartsIff`,
  `FirstResultIsBuiltTwice`); a run has two builders of one page at a time exactly if a thread
  starts while another builds the first result (`BuiltByOneIff`).
* The comment of `NsAdpFlush` says that the output buffer is truncated in all cases; without a
  connection it is not (`FlushEmptiesIff`, `FlushMayKeepBuffer`).
* `CgiCopy` says that it ignores bad header lines; it leaves them in the line buffer, so that the
  next line is glued to them and a blank line after one does not end the headers
  (`IgnoredLineJoinsNext`, `BlankLineEndsIff`, `BlankLineEndsResponseIff`, `LeadingSpaceLosesAll`).

Another behaviour is easily overlooked: the scanner goes on behind the name of a registered tag, not
behind the tag.  Without a `<` in the attributes this makes no difference (`ParseUndoesPrint`); but
inline code in the attributes of a tag without an end tag is run as well as passed to the tag, and
the rest of the tag is shown (`CodeInTagRuns`).  `AppendBlock` is then called with an end before its
start, which its own assertion excludes; without assertions it appends nothing.

## Model

| member | source | states |
|---|---|---|
| `CacheRuns.RunKeeps` | nsd/cache.c:277-313 | after every sequence of calls, list, table, pending table and byte counter agree, no entry has both values, an empty one has no size and no expiry, and every stored value is held or was freed exactly once |
| `CacheRuns.RunOrderedByRecency` | nsd/cache.c:248-252 | after every run the list is ordered by the last successful find or create |
| `CacheRuns.PruneEvictsShortestTail` | nsd/cache.c:685-714 | pruning evicts exactly the shortest tail of the list that makes room, and stops early only at the entry being set or at one without a committed value |
| `CacheRuns.CommitPublishes` | nsd/cache.c:999-1031 | commit adds exactly the transaction's uncommitted values to the committed map |
| `CacheRuns.CommitChangesNoOther` | nsd/cache.c:999-1031 | commit changes no other transaction's values, no size, no list order, and frees nothing |
| `CacheRuns.RollbackRemoves` | nsd/cache.c:999-1031 | rollback removes exactly the entries without a committed value that carry the transaction's tag |
| `CacheRuns.RollbackDiscards` | nsd/cache.c:999-1031 | rollback leaves the committed map and other transactions' values as they are |
| `CacheRuns.RunHasNoDirtyReads` | nsd/cache.c:507-542 | in every run, what a caller sees under a key was stored there outside transactions, committed there, or written there under a transaction of its own stack |
| `CacheRuns.RolledBackLeavesNoTrace` | nsd/cache.c:999-1031 | a transaction that is rolled back leaves the committed map as it was, minus what expired, was pruned, or was overwritten by it |
| `CacheRuns.RollbackLosesOverwritten` | nsd/cache.c:659-675 | after an uncommitted store and a rollback, a committed value is still there exactly if it is under another key and was not pruned |
| `CacheMap.StepRefines` | nsd/cache.c:643-827 | every call does to the map from keys to public values and drafts, with their sizes and expiry times, what a plain map would do, except for the keys that expire or are pruned; which ones these are is told from the map, the recency list and the limit |
| `CacheMap.RunRefinesMap` | nsd/cache.c:643-827 | after every run the cache holds a part of what the plain map holds, with the same values, sizes and expiry times, lacks only keys that expired or were pruned, and equals it if there were none |
| `CacheMap.RunReadsLast` | nsd/cache.c:507-542 | in every run, a value that a caller sees is the one the plain map holds for it, so never one that was replaced, unset, deleted, flushed or rolled back |
| `CacheMap.VisibleIsLookup` | nsd/cache.c:507-542 | what a transaction stack sees in an entry is what it finds in the map |
| `CacheMap.FindHitsIff` | nsd/cache.c:198-257 | a find succeeds exactly if the map holds a value for the caller that has not expired; then the key is moved to the front, otherwise the list keeps its order and loses at most this key, if it expired |
| `CacheMap.RunFinds` | nsd/cache.c:198-257 | in every run, a find that succeeds finds what the plain map holds, and it succeeds for every key that was never given up and has not expired |
| `CacheMap.CreateReportsIff` | nsd/cache.c:277-313 | a create reports a new entry exactly if there was none or an expired one, and leaves the key in front |
| `CacheMap.SetKeyStays` | nsd/cache.c:643-714 | a set never prunes its own key: afterwards its cell holds the value, size and expiry that were given |
| `CacheMap.StepLimit` | nsd/cache.c:643-714 | the limit is the last one that a set gave, if any |
| `CacheMap.SeenIff` | nsd/cache.c:1057-1080 | an iteration meets exactly the keys whose values the caller can see |
| `CacheMap.ExpiredIsPast` | nsd/cache.c:1379-1399 | an entry has expired exactly if the map holds a value for it whose expiry time has passed |
| `CacheLaws.DeleteAllTwice` | nsd/cache.c:999-1031 | deleting entries one set after the other is deleting their union, so the order of a hash walk does not matter |
| `CacheImpl.Cache.Remove` | nsd/cache.c:1418-1442 | unlinking an entry leaves consistent links for the list without it |
| `CacheImpl.Cache.Push` | nsd/cache.c:1454-1468 | linking an entry in front leaves consistent links for the list with it first |
| `CacheImpl.Cache.GetValue` | nsd/cache.c:507-542 | the committed value, else the uncommitted one if its transaction is on the caller's stack |
| `CacheImpl.Cache.UnsetValue` | nsd/cache.c:734-774 | forgets one value, frees it, gives its bytes back and keeps the invariant |
| `CacheImpl.Cache.DeleteEntry` | nsd/cache.c:805-827 | removes the entry from list, tables and counter, freeing its values |
| `CacheImpl.Cache.FindEntry` | nsd/cache.c:198-257 | finds a visible entry and moves it to the front, or deletes it if it has expired |
| `CacheImpl.Cache.CreateEntry` | nsd/cache.c:277-313 | adds an empty entry, or finds one and empties it if it has expired; reports which |
| `CacheImpl.Cache.Prune` | nsd/cache.c:685-714 | the eviction loop on the linked list does what pruning does to the abstract cache |
| `CacheImpl.Cache.SetValueExpires` | nsd/cache.c:643-714 | replaces the value, tags and registers it if uncommitted, and prunes |
| `CacheImpl.Cache.Transaction` | nsd/cache.c:998-1031 | the loop over the pending table commits or rolls back exactly the tagged entries, and counts them |
| `CacheImpl.Cache.NextEntry` | nsd/cache.c:1057-1080 | the next entry with a visible value, deleting expired ones on the way |
| `CacheImpl.Cache.Flush` | nsd/cache.c:846-866 | deletes every entry with a committed value and no other |
| `CacheWait.AtMostOneBuilder` | nsd/cache.c:340-382 | in every interleaving, with callers that overwrite values or unset and rebuild them, at most one thread builds a key, and its entry is there and empty |
| `CacheWait.ReturnSeesVisibleValue` | nsd/cache.c:340-382 | a call that returns an old entry returns a value that the caller's stack can see, which nobody is building |
| `CacheWait.AttemptOutcome` | nsd/cache.c:340-382 | a turn of the wait loop makes the caller a builder exactly if there is no entry or an expired one, or if it insists; otherwise it waits if it sees no value and returns the value it sees |
| `CacheWait.FinishStores` | nsd/cache.c:643-714 | a builder that finishes leaves its value, with size and expiry, and builds no more |
| `CacheWait.OrphanAppearsIff` | nsd/cache.c:365-381 | an empty entry without a builder appears exactly when a waiter times out and its last create made it |
| `CacheWait.OrphanStaysIff` | nsd/cache.c:365-381 | it survives every action but the deletion of its key and the rollback of its tag |
| `CacheWait.OrphanIsReachable` | nsd/cache.c:365-381 | a run that ends with such an entry |
| `CacheWait.OrphanBlocks` | nsd/cache.c:365-381 | in every run, until it is deleted or rolled back, such an entry stays, and nobody is given it |
| `CacheWait.RollbackStealsIff` | nsd/cache.c:1008-1025 | a rollback takes an entry from its builder exactly when the entry still carries the tag |
| `CacheWait.StolenEntryIsBuiltTwice` | nsd/cache.c:1008-1025 | then another caller becomes a second builder |
| `CacheWait.StolenEntryIsReachable` | nsd/cache.c:290-306 | such a state is reached in a run |
| `AdpText.CloseIsFirst` | nsd/adpparse.c:729-784 | the depth counter answers the first `%>` at which the depth of `<%` and `%>` returns to zero, if any |
| `AdpText.FindClose` | nsd/adpparse.c:729-784 | the two interleaved searches find what the depth counter finds |
| `AdpText.TagEndSkipsQuotedOnly` | nsd/adpparse.c:531-639 | no end of a tag is found exactly when no `>` follows; every earlier `>` lies inside a quoted attribute value |
| `AdpText.TagEndAgreesWithLegacy` | nsd/adpparse.c:531-639 | without a quoted `>` the end of the tag is the first `>` |
| `AdpText.ParseTagEnd` | nsd/adpparse.c:531-639 | the character loop computes that end |
| `AdpAttrs.TagEndOfPrinted` | nsd/adpparse.c:531-639 | the end of a start tag printed from its attributes is found, whatever `>` their quoted values hold and whatever follows |
| `AdpTags.ClosingIsFirst` | nsd/adpparse.c:865-955 | the level counter finds the first tag at which opening and closing tags balance, if there is one |
| `AdpTags.ScriptEnds` | nsd/adpparse.c:865-910 | a server-side script ends at the first tag at which script tags balance and is the text between its tags; without one nothing more is appended |
| `AdpTags.RegisteredTagEnds` | nsd/adpparse.c:912-955 | the same for a registered tag, its own name and its end tag |
| `AdpTags.TagsAreAll` | nsd/adpparse.c:865-910 | the tags counted are exactly the `<` that have a `>` after them |
| `AdpScan.Step` | nsd/adpparse.c:717-958 | each turn of the scanner moves the search position on, or stays and goes from looking for a tag to inline code, and never passes the end |
| `AdpScan.GetTag` | nsd/adpparse.c:1169-1205 | the name and the attributes lie between the `<` and the end of the tag, in this order |
| `AdpParser.ReadTag` | nsd/adpparse.c:1169-1205 | the character loops of the tag reader find that name and those attributes |
| `AdpParser.ParseAdp` | nsd/adpparse.c:671-991 | the parser ends on every page and yields the table, or the single script, of the page's blocks, all non-empty |
| `AdpRoundTrip.ParseUndoesPrint` | nsd/adpparse.c:717-970 | parsing a printed document gives back its blocks in order: texts, inline code, the bodies of server-side scripts and the calls of registered tags, their names in any mix of cases and their attributes with quoted `>`, when no `<` of its texts begins a script or a registered tag; in safe mode code gives no block |
| `AdpRoundTrip.ParseUndoesPrintPlain` | nsd/adpparse.c:717-970 | the same for every tag table with conditions on the parts alone |
| `AdpRoundTrip.ParseGivesBlocks` | nsd/adpparse.c:717-970 | a document of texts and inline code is exactly the list of blocks that the parser returns |
| `AdpCalls.TagCallReads` | nsd/adpparse.c:1398-1447 | for any list quoting with a reader that undoes it, the call of a registered tag reads back as the registered content, the attribute values for a procedure, the enclosed text if any, and for the other kinds a set with the tag name and the attributes; it goes through `ns_adp_parse --` exactly for ADP tags |
| `AdpCalls.ParseReadsBack` | nsd/adpparse.c:717-970 | the round trip with the calls of registered tags told by their words |
| `AdpRoundTrip.OtherTagIsText` | nsd/adpparse.c:810-862 | a start tag that is neither registered nor a server-side script appends nothing, and the search goes on behind its name |
| `AdpRoundTrip.CodeInTagRuns` | nsd/adpparse.c:834-862 | inline code in the attributes of a registered tag without an end tag is part of the call and is also run, and the rest of the tag becomes text |
| `AdpWhole.PageIsItsBlocks` | nsd/adpparse.c:717-970 | without registered tags and server-side scripts every page, well-formed or not, is the concatenation of its blocks and of empty ones that were left out |
| `AdpWhole.SafePageHasNoCode` | nsd/adpparse.c:717-970 | in safe mode every block of every page is text or the call of a registered tag |
| `AdpPrint.StartFound` | nsd/adpparse.c:800-862 | the end, the name and the attributes of a printed start tag are read back |
| `AdpPrint.BodyEnds` | nsd/adpparse.c:865-955 | a printed body ends at the end tag that the printer put there |
| `AdpPrint.CloseOfPrinted` | nsd/adpparse.c:729-784 | a printed balanced script ends where the printer put its end |
| `AdpCode.TableIsExact` | nsd/adpparse.c:1486-1527 | no length is zero, they add up to the text, the negative ones are the scripts, the pieces are the blocks, and each line counts the newlines before the block |
| `AdpCode.SingleIsRendering` | nsd/adpparse.c:1102-1147 | the single script is the line-by-line rendering of the multi-block code |
| `AdpCode.Parse.AppendBlock` | nsd/adpparse.c:1085-1149 | appending a block extends the text and the table so that they stay those of the blocks so far |
| `AdpCode.Parse.Finish` | nsd/adpparse.c:976-991 | the finished code is that of the blocks |
| `AdpExec.Exec` | nsd/adpeval.c:1208-1290 | the walk performs the pieces in order and uses one script object per script; it ends at the end of the text with all scripts counted, unless an exception or, in strict mode, an error breaks it off |
| `AdpExec.ExecutedUpTo` | nsd/adpeval.c:1208-1290 | for every page, with errors and exceptions: it is run up to the first piece that raises an exception or, in strict mode, fails; an exception counts as success, and only "return" ends with the page |
| `AdpExec.PieceMeans` | nsd/adpparse.c:1085-1149 | text is appended, code is evaluated, and a value is appended by a command |
| `AdpExec.SingleMeansTheSame` | nsd/adpeval.c:1208-1290 | for complete scripts and runs without errors, executing the single script is executing the blocks |
| `AdpPagesSteps.NextKeeps` | nsd/adpeval.c:588-757 | every step of every thread keeps the invariant of table, pages, results and threads |
| `AdpPagesRuns.RunKeeps` | nsd/adpeval.c:588-757 | the invariant holds in every interleaving |
| `AdpPagesRuns.SlotHasOneReader` | nsd/adpeval.c:588-624 | a table entry is NULL exactly while one thread reads the file, or points to a live page that points back |
| `AdpPagesRuns.PageLivesWhileHeld` | nsd/adpeval.c:1392-1413 | a page lives exactly while it is held, its count is the number of holders, it is freed once, and the table never points to a freed page |
| `AdpPagesRuns.ResultLivesWhileReferenced` | nsd/adpeval.c:1494-1502 | a cached result's count is one for its page plus the threads that run it, and it is freed once |
| `AdpPagesRuns.GenerationChangesWithResult` | nsd/adpeval.c:706-714 | the generation of a page changes exactly when its cached result does |
| `AdpPagesRuns.SlotsFitCode` | nsd/adpeval.c:727-742 | a thread runs code with as many script objects as the code has scripts |
| `AdpPagesVersions.RunsWhatItAsks` | nsd/adpeval.c:566-757 | in every interleaving a thread that runs a page runs the file it asked for, in the version it asked for or has itself read since, and runs a cached result only if it wanted one |
| `AdpPagesVersions.BeginIs` | nsd/adpeval.c:571-580 | the page in the own cache of an interpreter is used exactly if its version is the one asked for; otherwise it is dropped and looked up |
| `AdpPagesVersions.LookupIs` | nsd/adpeval.c:588-606 | a lookup shares the page in the table exactly if it is of the version asked for, waits while another thread reads the file, and otherwise makes its thread the one that reads it |
| `AdpPagesVersions.PageIsAsParsed` | nsd/adpeval.c:604-618 | in every interleaving each page has the version and the number of scripts that some thread read from its file |
| `AdpPagesVersions.StoreIs` | nsd/adpeval.c:623-634 | the page that was found or read is the one put into the own cache, without old script objects |
| `AdpPagesVersions.ChoiceIs` | nsd/adpeval.c:648-722 | a thread that does not start a refresh runs the current result of the page if it wants one, else the page |
| `AdpPagesVersions.RefreshedIs` | nsd/adpeval.c:706-722 | after a refresh the thread runs the result that it installed, or the page if there is none |
| `AdpPagesVersions.SelectIs` | nsd/adpeval.c:723-740 | the code that is run is the one chosen |
| `AdpPagesRuns.NobodyWaitsForResult` | nsd/adpeval.c:653-673 | no thread ever waits for the first result of a page |
| `AdpPagesRefresh.RefreshStartsIff` | nsd/adpeval.c:653-680 | in every interleaving a thread starts to build a result exactly if it wants one and there is none, or an expired one on an unlocked page |
| `AdpPagesRefresh.BuiltByOneIff` | nsd/adpeval.c:653-716 | in every run no page ever has two builders at a time, if and only if no thread starts to build a first result that another one is building |
| `AdpPagesWitness.FirstResultIsBuiltTwice` | nsd/adpeval.c:653-673 | two threads can build the first result of a page at the same time |
| `AdpPagesRuns.NullIsFreedIff` | nsd/adpeval.c:1399-1407 | FreeObjs gets NULL exactly when the last holder of a page with a result never ran the result |
| `AdpPagesWitness.NullIsFreed` | nsd/adpeval.c:1399-1407 | a run in which this happens |
| `AdpPagesSteps.InstallKeeps` | nsd/adpeval.c:706-714 | putting a new result in place of the old one keeps the invariant |
| `AdpPagesSteps.FreeKeeps` | nsd/adpeval.c:1392-1413 | dropping an unused InterpPage keeps the invariant |
| `AdpOutput.Interp.NsAdpFlush` | nsd/adprequest.c:503-632 | the flush, with its trim loop, write loop and all error branches, computes the specified output, flags and result |
| `AdpOutput.Interp.NsAdpAppend` | nsd/adpcmds.c:79-100 | the append computes the specified output and result, on which the laws below are proved |
| `AdpOutput.StreamingRefinesBuffering` | nsd/adprequest.c:503-632 | for every sequence of appends, flushes and changes of buffer size and stream flag, what goes out is the appended text, trimmed on the left once if trimming is on |
| `AdpOutput.NextPageIsFresh` | nsd/adpeval.c:383-402 | after the last flush of any page, aborted or not, the next page is sent as the server's flags say, with nothing left over |
| `AdpOutput.AppendFlushesIff` | nsd/adpcmds.c:79-100 | an append leaves nothing in the buffer exactly if the page streams or the buffer it appends to has grown over its limit; otherwise the text stays there |
| `AdpOutput.StreamedAtOnce` | nsd/adpcmds.c:79-100 | in every run with successful writes, after an append that flushes all that was appended so far has gone out, trimmed on the left once if trimming is on |
| `AdpOutput.AppendFailsIff` | nsd/adpcmds.c:79-100 | an append fails exactly without an active page or when it has to flush and the flush fails |
| `AdpOutput.FlushSends` | nsd/adprequest.c:503-632 | what one flush sends where, how the write is marked, when the expiry header is set, and what a failure raises |
| `AdpOutput.LastWriteIsNotStreamed` | nsd/adprequest.c:588-606 | in every run all writes of a page but that of its last flush are marked as parts of a stream |
| `AdpOutput.AutoabortCutsOff` | nsd/adprequest.c:614-626 | with autoabort, whichever writes fail, what goes out is a beginning of that text |
| `AdpOutput.SilentSendsNothing` | nsd/adprequest.c:567-606 | without a connection, after an abort, or when the connection takes no body, no text goes out |
| `AdpOutput.FlushEmptiesIff` | nsd/adprequest.c:520-542 | a flush empties the buffer exactly when there is a connection or nothing in the buffer |
| `AdpOutput.FlushMayKeepBuffer` | nsd/adprequest.c:520-529 | an input on which it does not |
| `AdpOutput.FlushFailsIff` | nsd/adprequest.c:567-626 | a flush fails exactly without a connection, after an abort, or when a write that is due fails |
| `AdpOutput.ChannelTakesPrefix` | nsd/adprequest.c:574-587 | the channel loop writes a beginning of the text, and all of it exactly when no write fails |
| `Cgi.Cgi.CgiRead` | nscgi/nscgi.c:1671-1690 | a read refills the buffer with the next bytes of the pipe, retrying interruptions |
| `Cgi.Cgi.CgiReadLine` | nscgi/nscgi.c:1709-1732 | the next line, right-trimmed, as a function of the bytes alone, however the reads cut them |
| `Cgi.Cgi.CgiCopy` | nscgi/nscgi.c:1750-1870 | headers, status and body depend only on the bytes of the pipe, not on where reads end; a failed write leaves a beginning of the body, a failed read of the headers leads to an error page |
| `CgiLaws.StatusRule` | nscgi/nscgi.c:1808-1821 | the status is the last Status value, else 302 if there is a Location, else 200, in whatever order they come |
| `CgiLaws.ReadUndoesPrint` | nscgi/nscgi.c:1780-1862 | a printed response gives back its headers with their continuation lines, its status, and the bytes after the blank line as body |
| `CgiLaws.BlankLineEndsIff` | nscgi/nscgi.c:1786-1806 | a blank line after a line ends the headers exactly when that line was not ignored; otherwise it is skipped |
| `CgiLaws.BlankLineEndsResponseIff` | nscgi/nscgi.c:1780-1806 | the same for a whole response, after any printed headers |
| `CgiLaws.IgnoredLineJoinsNext` | nscgi/nscgi.c:1789-1806 | an ignored line is joined with the next one |
| `CgiLaws.LeadingSpaceLosesAll` | nscgi/nscgi.c:1789-1797 | a response whose first line begins with white space is lost |
| `CgiLaws.EndWithinHeaders` | nscgi/nscgi.c:1840-1852 | a response that ends within its headers: the incomplete line is dropped and there is no body; a failed pipe or no complete header is an error |
| `CgiLaws.NulEndsLine` | nscgi/nscgi.c:1789-1806 | a NUL in a header line hides the rest of that line and nothing else |
| `CgiLaws.OwnHeadersPassThrough` | nscgi/nscgi.c:1765-1771 | the output of a script that makes its own headers is passed on unchanged |
| `PrebindRuns.RunConserves` | nsd/binder.c:185-230 | in every run each bound socket is in exactly one of pool, handed out and closed, and none is handed out or closed twice |
| `PrebindRuns.HitIsValid` | nsd/binder.c:254-319 | in every run a hit yields a valid socket that was not handed out or closed before |
| `PrebindRuns.CloseAllEmpties` | nsd/binder.c:1487-1527 | after closing all, every bound socket was handed out or is closed |
| `PrebindRuns.RunIsQueues` | nsd/binder.c:254-319 | in every run each address has a queue: a socket is handed out for the address it was bound or adopted for, in that order, and there is a hit exactly if the queue is not empty |
| `PrebindImpl.Binder.PrebindAlloc` | nsd/binder.c:185-230 | an entry with all answers of the system, or nothing if the first bind fails |
| `PrebindImpl.Binder.PrebindSocket` | nsd/binder.c:1703-1755 | a new entry unless there is one or the first bind fails |
| `PrebindImpl.Binder.PrebindRegisterInetSocket` | nsd/binder.c:1144-1177 | appends an adopted socket to its entry |
| `PrebindImpl.Binder.PrebindGet` | nsd/binder.c:254-319 | takes the first usable socket, and deletes the entry with its last one |
| `PrebindImpl.Binder.PrebindCloseSockets` | nsd/binder.c:338-366 | closes exactly the usable sockets of an entry |
| `PrebindImpl.Binder.NsClosePreBound` | nsd/binder.c:1487-1527 | closes the sockets of every entry and empties the tables |
| `ContentType.ParseContentTypeSuffix` | nsd/conn.c:75-102 | the part of the subtype after its last `+`, if not empty |
| `ContentType.SuffixIsUnique` | nsd/conn.c:75-102 | there is only one such part |
| `ContentType.NsParseContentTypeParams` | nsd/conn.c:125-211 | the pointer loops end on every input and return what the specification of the scan returns |
| `ContentType.ScanInBounds` | nsd/conn.c:145-211 | all returned slices lie in the scanned text |
| `ContentType.ScanUndoesPrint` | nsd/conn.c:145-211 | of a printed parameter list, with quoted or token values, blanks where they are allowed, parts that are no parameters, and even without the last closing quote, the last charset and the last boundary are returned unchanged |

## Left out

- Cache statistics, costs and reuse counts, the entry's `count` field, and overflow of the byte counter.
- CacheWait: a thread that unsets a shared value and then neither stores nor deletes it is not a step of the model; every caller in the repository that unsets one builds it again.
- The address of a cache entry: it is represented by the entry's key, so reuse of freed memory is not modelled; the free procedure is a log and does not call back into the cache.
- AdpCode.AppendElement: the separating blank depends on the last character alone; an element whose quoted form ends in an escaped blank or brace is not treated as in Tcl.
- Tcl: evaluation, list-element quoting, hash table internals and encodings are abstract; letter case is that of ASCII.
- `ParseAtts` of `nsd/adpparse.c`: a function of the attribute text, not of its characters; `AdpParseTclFile`, `RegisterObjCmd` and the logging of parse results.
- Text of pages with an unclosed registered or server script tag beyond what the scanner computes: no claim that it is kept.
- `AdpExec`: the TclPro debugger, tracing, the working directory and the call-frame fields other than the output buffer.
- Pages under named tag sets, whose wait loop looks up another key than it stored; nested includes, where an interpreter may drop the page that an outer include is running; overflow of the generation counter.
- AdpPages: script objects of a cached result that are not freed when an InterpPage with other holders is dropped are not accounted for.
- AdpOutput: the connection checked and the connection written to are the same one; the error page of `NsAdpLogError` is not appended; a channel write that makes no progress is not modelled.
- Cgi: process start, environment, registration and the key length passed with a header name; a header name is the C string up to the colon.
- Prebind: raw and Unix-domain sockets, the binder process, parsing of the prebind specification, and reuse of descriptor numbers by the operating system.
- `nsd/event.c`, `nsd/compress.c`, `nscp/nscp.c`, `nsd/config.c`, `nsd/cls.c`, `nsd/callbacks.c`, `nsd/auth.c` and the rest of `nsd/conn.c`, which would mostly add easier members.
