# Models and proofs for the blog samples

The repository is a collection of small C# projects. This project models the ones whose behaviour is hardest to see
by reading and proves what they promise. `dafny verify dfyconfig.toml` checks everything.

| files | what they model |
|---|---|
| `FullText*.dfy` | the full-text condition normaliser: token reader, parser, expression tree, printer, enumerator, a grammar of valid conditions, and what every way of writing an expression means |
| `Store*.dfy` | the append-only document store: byte layout, write steps, crashes, reopening, the manager class |
| `SharedFiles.dfy`, `FileContents.dfy`, `WholeLoads.dfy`, `QueuedFiles.dfy`, `Arrivals.dfy`, `SoloRuns.dfy`, `MixedSystems.dfy` | lock dictionaries with per-key reader-writer locks, files saved and loaded chunk by chunk under them, queued file systems, and what happens when a file is used through several systems |
| `WorkQueue.dfy` | the worker queue with requeueing, for any processing results |
| `RateLimiter.dfy` | the limiter of calls per interval and of concurrent calls |
| `Format*.dfy` | the compiled string format, its cache, and seven ways of evaluating a template |
| `KeyDerivation.dfy` | PBKDF2 over any hash of fixed length |
| `ByteCompare.dfy` | comparing byte arrays a word at a time |
| `SqlDialect.dfy`, `SqlPaging.dfy` | the paging dialect: depth scans, splitting, assembling the paged query |
| `SqlLiterals.dfy`, `SqlScripts.dfy`, `SqlRendering.dfy`, `CommaJoin.dfy` | rendering rows as batched insert statements, and reading them back |
| `Basics.dfy`, `Decimals.dfy` | what several models share |
| `StripedCounter.dfy` | the striped counter |

How the models are built:

- Code that updates objects or arrays in place is a class or a method with loops over arrays, and its contract ties it
  to a specification function; the theorems are about the functions. The parser's object tree is described by a ghost
  map from each object to its children, kept equal to the `subexpressions` lists, so that the stored indexes and parent
  links are part of what is proved.
- Concurrent code is a step relation for any number of threads, with one step for each lock, queue or dictionary
  operation and for each chunk of a file. A run is a list of actions; an action that is not possible in a state changes
  nothing. The static file access class and every queued file system have a dictionary of locks of their own, as in the
  code, and `File.Open` throws when its share mode does not tolerate a handle that is open.
- The store is a pair of growable zero-filled byte files. A push is the list of its single-byte writes followed by its
  two header writes; a crash cuts that list anywhere.
- An exception of the source is an error value or `None`.
- The `hide` statements only keep definitions out of proofs that do not need them.

Where the code and what is said about it differ, the models follow the code:

- The limiter is described as limiting calls per interval, but it counts per fixed window: whatever the limits, as long
  as they allow a call in a positive interval, a span no longer than the interval can hold twice the number
  (`KeepsLimitIff`, `KeepsLimitOrderlyIff`, `TwiceIsReached`), and never more (`SlidingBound`).
- A normal form is meant to be a valid condition. After a NEAR behind an empty group, and only then, it is not
  (`NormalFormIsValid`).
- A normal form is meant to be stable under normalising again. It is not after a NEAR behind an empty group or for
  white space other than spaces at an end of an unquoted token; `FixedPoint` says exactly when it is.
- The Svenson comparer reads two or three bytes past its arrays and decides by them as well (`PaddingMatters`).
- The collision-avoiding file access and a queued file system do not avoid collisions with each other, nor do two
  queued file systems: each has its own locks (`ExcludesIff`, `CollisionFreeIff`). Loads then need not return the latest
  save (`LoadsLatestIff`), but they are still whole (`LoadsAreWhole`).
- Replacing ids one after another in a template leaves ids with leading zeros as they are (`SequentialIff`).
- `IsReaderLocked` is meant to say that somebody reads the file, but asks only about the calling thread, so the queued
  file system never requeues (`NeverRequeued`), not even while another worker reads the file (`ReaderUnnoticed`).
- The store lets an id be pushed twice and then cannot be opened again (`RepeatedIdShutsStore`).
- `GetLimitString` throws for a query that ends in " order by " (`NothingToOrderBy`), and for one in which the last
  " order by " that its scan accepts comes before the " from " (`OrderByBeforeFrom`).
- A number with decimals becomes two cells of an insert statement in a culture with a decimal comma
  (`ScriptReadsBackIff`, `DecimalCommaSplits`).

## Model

| member | source | states |
|---|---|---|
| FullTextSpelling.NormalForm | FullTextSearch/FullTextSearch.cs:32-35 | however an expression of words, phrases, operators and parentheses is written, with any sign for each operator, any spaces and any options, its normal form is the expression in the standard writing; with ThrowOnInvalidNearUse exactly a NEAR beside parentheses is refused, with the right exception |
| FullTextSpelling.LastSignCounts | FullTextSearch/FullTextSearch.cs:566-608 | of two signs in a row the last one counts, whatever came before |
| FullTextSpelling.NotIsTerm | FullTextSearch/FullTextSearch.cs:577-596 | behind another operator than AND, an exclamation mark or the word not is a term |
| FullTextSpelling.StrayCloseIsAnd | FullTextSearch/FullTextSearch.cs:191-201 | without the throwing option a closing parenthesis too many reads as the word and |
| FullTextSpelling.MissingClose | FullTextSearch/FullTextSearch.cs:165-169 | without the throwing option groups still open at the end are closed there |
| FullTextSpelling.OperatorTable | FullTextSearch/FullTextSearch.cs:566-608 | two plain words with any of the symbols, or of the operator words in any letter case, between them become the two literals with the printed operator between them |
| FullTextTheorems.FixedPoint | FullTextSearch/FullTextSearch.cs:83-100 | with stemming off, normalising a normal form gives it back, with the same search terms, if and only if the parsed tree has no NEAR term directly after an empty group and no term with white space at an end of its text |
| FullTextTheorems.StableIsSettled | FullTextSearch/FullTextSearch.cs:226-230 | in every parsed tree a term's text survives being read as a literal exactly when neither end of it is white space |
| FullTextTheorems.SecondPassThrows | FullTextSearch/FullTextSearch.cs:418-437 | the second pass throws exactly when NEAR misuse throws and the tree has a NEAR term after an empty group; no other exception can appear |
| FullTextTheorems.ThirdPassIsSecond | FullTextSearch/FullTextSearch.cs:83-100 | for every condition at all, whenever the second pass does not throw, the third gives exactly what the second gave |
| FullTextTheorems.SettledWithoutExoticSpace | FullTextSearch/FullTextSearch.cs:215-236 | when the space and control characters are the only white space in the condition, the NEAR case is the only thing that can keep the normal form from being a fixed point |
| FullTextTheorems.OutputsAgree | FullTextSearch/FullTextSearch.cs:90-98 | for every condition and option set the quoted literals of NormalForm, undoubled and without the empty ones, are SearchTerms in order |
| FullTextSafety.NearUse | FullTextSearch/FullTextSearch.cs:400-437 | in every parsed tree a NEAR child is a term, never first, beside a sibling without children, and neither of the two prints as formsof(...) |
| FullTextRoundTrip.DepthIsClamped | FullTextSearch/FullTextSearch.cs:186-201 | the number of open groups of the specification is the clamped depth of the parentheses read |
| FullTextSafety.ParenthesesChecked | FullTextSearch/FullTextSearch.cs:163-169 | unless another exception comes first, the flag makes the constructor throw exactly when those parentheses are unbalanced; without the flag it never does |
| FullTextSafety.AlwaysNormalises | FullTextSearch/FullTextSearch.cs:32-35 | without throwing options every condition has a normal form, which is never empty and is a valid condition exactly when no NEAR term directly follows an empty group |
| FullTextGrammar.NormalFormIsValid | FullTextSearch/FullTextSearch.cs:443-496 | with any options a normal form belongs to a grammar of its own, in which NEAR stands only between quoted literals and no prefix is inflected, exactly when the parsed tree has no NEAR term directly after an empty group |
| FullTextGrammar.ShowUnique | FullTextSearch/FullTextSearch.cs:443-483 | the grammar is unambiguous: a text is the form of one condition at most |
| FullTextSafety.NearAfterEmptyGroupIsUnstable | FullTextSearch/FullTextSearch.cs:424-429 | a concrete condition, `() near x`, whose normal form is neither a valid condition nor a fixed point |
| FullTextSafety.ExoticSpaceIsUnstable | FullTextSearch/FullTextSearch.cs:226-230 | a concrete condition with a no-break space whose normal form is not a fixed point |
| FullTextText.RemoveStarsByWord | FullTextSearch/FullTextSearch.cs:350-350 | in a phrase every word is cut off at its first asterisk |
| FullTextText.CollapseRun | FullTextSearch/FullTextSearch.cs:228-228 | a run of spaces becomes one, and what stands on its two sides is cleaned up by itself |
| FullTextText.PruneCases | FullTextSearch/FullTextSearch.cs:336-346 | a word with an asterisk loses what follows it exactly if the option for terms says so |
| FullTextText.CleanIdempotent | FullTextSearch/FullTextSearch.cs:330-354 | trimming, collapsing and prefix pruning a term text a second time changes nothing |
| FullTextText.BareCleanFacts | FullTextSearch/FullTextSearch.cs:340-346 | when the pruned text of an unquoted token is clean already |
| FullTextLexer.ReadQuoteUndoesDouble | FullTextSearch/FullTextSearch.cs:265-291 | the peek rules of the quote reader undo the doubling of quotes, at the end and before every character that lets a quote close |
| FullTextLexer.UnclosedQuote | FullTextSearch/FullTextSearch.cs:265-291 | a literal that is never closed goes to the end, or is an exception if unbalanced quotes throw |
| FullTextLexer.StrayQuote | FullTextSearch/FullTextSearch.cs:268-285 | a quote that nothing lets close is part of the literal, or ends it if unbalanced quotes throw |
| FullTextLexer.LexOperator | FullTextSearch/FullTextSearch.cs:566-608 | a printed operator word is read back as exactly that operator's tokens |
| FullTextRoundTrip.BuildAppend | FullTextSearch/FullTextSearch.cs:142-163 | parsing is compositional: reading two token lists in a row is reading the second from where the first ended |
| FullTextRoundTrip.LexBody | FullTextSearch/FullTextSearch.cs:443-483 | the text printed for a list of children is split into exactly the tokens of those children |
| FullTextFixedPoint.ParsedTree | FullTextSearch/FullTextSearch.cs:131-171 | every parsed tree is well joined, and its texts hold no control characters |
| FullTextFixedPoint.ParsePrinted | FullTextSearch/FullTextSearch.cs:443-483 | parsing a printed tree gives the re-read tree, or the one NEAR exception |
| FullTextFixedPoint.RereadBodyLexemes | FullTextSearch/FullTextSearch.cs:443-483 | a re-read tree prints the tokens it came from exactly when no NEAR follows an empty group and cleaning changes no text |
| FullTextStream.ConditionStream.constructor | FullTextSearch/FullTextSearch.cs:249-253 | control characters become spaces and the index starts before the text |
| FullTextStream.ConditionStream.Read | FullTextSearch/FullTextSearch.cs:259-263 | the index moves by one and the result says whether a character is there |
| FullTextStream.ConditionStream.ReadQuote | FullTextSearch/FullTextSearch.cs:265-291 | the loop returns the literal that starts at the index, leaves the index on its last character, and throws exactly when strict and unclosed |
| FullTextStream.SpanIsQuote | FullTextSearch/FullTextSearch.cs:265-291 | the literal read by index is the literal the token reader takes from the suffix, and both go on at the same place |
| FullTextHeap.ConditionExpression.AddTerm | FullTextSearch/FullTextSearch.cs:418-437 | appends one child whose operator, index, parent and text follow the NEAR rules, or throws |
| FullTextHeap.ConditionExpression.AddSubexpression | FullTextSearch/FullTextSearch.cs:400-416 | appends one group whose operator is never NEAR, or throws |
| FullTextHeap.GrownForest | FullTextSearch/FullTextSearch.cs:324-328 | adding a child keeps every stored index equal to the position in the parent, and every parent link right |
| FullTextHeap.TermStep | FullTextSearch/FullTextSearch.cs:418-437 | the heap after AddTerm stands for the specification's state after a term |
| FullTextHeap.PopStep | FullTextSearch/FullTextSearch.cs:191-201 | moving to the parent stands for closing a group; the current expression stays on the rightmost spine |
| FullTextHeap.RootKids | FullTextSearch/FullTextSearch.cs:165-171 | at the end of input the children of the root object are the specification's tree, whatever groups are still open |
| FullTextParser.ConditionParser.PutToken | FullTextSearch/FullTextSearch.cs:215-236 | the pending token becomes an operator, a term or nothing, as the specification says, and is cleared |
| FullTextParser.ConditionParser.PushExpression | FullTextSearch/FullTextSearch.cs:186-189 | the token is put, then a group is opened with the last operator |
| FullTextParser.ConditionParser.PopExpression | FullTextSearch/FullTextSearch.cs:191-201 | the token is put, then the current group is closed, patched or refused at the root |
| FullTextParser.ConditionParser.Turn | FullTextSearch/FullTextSearch.cs:142-162 | one turn of the main loop puts exactly the tokens that the current character completes into the tree, or throws as the specification does over them |
| FullTextParser.ConditionParser.Take | FullTextSearch/FullTextSearch.cs:142-162 | what has been read and what is to come make up the same tokens after each turn, the tree is the one for what has been read, and the current expression is as deep as the clamped depth of its parentheses |
| FullTextParser.ConditionParser.Run | FullTextSearch/FullTextSearch.cs:131-171 | the object tree that the parser builds is the parsed tree of the specification, with all tokens read, or the same exception is thrown |
| FullTextSearching.ToText | FullTextSearch/FullTextSearch.cs:443-483 | the recursive printer over the objects prints what the specification prints for the tree they stand for |
| FullTextSearching.DoStemOn | FullTextSearch/FullTextSearch.cs:485-496 | the stemming decision read from parent, index and siblings is that of the specification |
| FullTextSearching.Enumerate | FullTextSearch/FullTextSearch.cs:502-511 | the enumerator yields every object below in preorder |
| FullTextSearching.WalkTerms | FullTextSearch/FullTextSearch.cs:94-98 | the terms of that order, empty ones skipped, are the specification's search terms |
| FullTextSearching.FullTextSearch.Load | FullTextSearch/FullTextSearch.cs:83-100 | NormalForm and SearchTerms are set to the specified pair, or the specified exception is thrown |
| StoreBytes.LittleEndianRoundTrip | MemoryMappedFileDemo/FileStore/DataStructure/FileStructure.cs:56-64 | a number written little-endian in enough bytes is read back |
| StoreBytes.HeaderRoundTrip | MemoryMappedFileDemo/FileStore/DataStructure/FileStructure.cs:36-64 | a header that fits its 19 bytes is read back as written |
| StoreBytes.EntryRoundTrip | MemoryMappedFileDemo/FileStore/DataStructure/LogicalEntry.cs:37-62 | a table entry that fits its 32 bytes is read back as written |
| StoreBytes.HeaderLayout | MemoryMappedFileDemo/FileStore/DataStructure/FileStructure.cs:47-63 | signature, end and size stand at the offsets 0, 3 and 11 of 19 bytes, the numbers with their lowest byte first |
| StoreBytes.EntryLayout | MemoryMappedFileDemo/FileStore/DataStructure/LogicalEntry.cs:49-62 | id, offset and length stand at the offsets 0, 16 and 24 of 32 bytes |
| StoreModel.CutOffPush | MemoryMappedFileDemo/FileStore/FileStoreManager.cs:218-258 | until the last header write the old log is stored on the disk, unharmed |
| StoreModel.WholePush | MemoryMappedFileDemo/FileStore/FileStoreManager.cs:218-258 | a whole push stores one record more, and the fields mirror the disk |
| StoreModel.PushKeepsTiles | MemoryMappedFileDemo/FileStore/FileStoreManager.cs:224-236 | a push adds its payload with no gap to the one before |
| StoreModel.OpenReads | MemoryMappedFileDemo/FileStore/FileStoreManager.cs:309-333 | opening reads exactly the stored entries, and throws exactly when an id repeats |
| StoreRuns.RunSound | MemoryMappedFileDemo/FileStore/FileStoreManager.cs:91-102 | after any history of opens, pushes and crashes the files hold exactly the completed pushes |
| StoreRuns.CrashAtomicity | MemoryMappedFileDemo/FileStore/FileStoreManager.cs:172-258 | a push cut off after any prefix of its writes leaves files that open to exactly the old list or exactly the new one, with every committed payload intact |
| StoreRuns.ReadsLatest | MemoryMappedFileDemo/FileStore/FileStoreManager.cs:283-296 | after any history GetEntry returns the payload of the last completed push under the id, or throws if there is none |
| StoreRuns.ReopenRebuilds | MemoryMappedFileDemo/FileStore/FileStoreManager.cs:309-333 | reopening gives the same list and fields if and only if no id was pushed twice; otherwise it throws |
| StoreRuns.RepeatedIdShutsStore | MemoryMappedFileDemo/FileStore/FileStoreManager.cs:253-254 | a history that pushes one id twice and leaves a store that cannot be opened |
| StoreRuns.ExtentsDisjoint | MemoryMappedFileDemo/FileStore/FileStoreManager.cs:224-245 | extents of completed pushes never overlap and lie between the header and LastByte, whatever crashes intervene |
| StoreRuns.CrashFreeTiles | MemoryMappedFileDemo/FileStore/FileStoreManager.cs:224-245 | without crashes the extents tile the data file from the header to LastByte |
| StoreManager.FileStoreManager.Start | MemoryMappedFileDemo/FileStore/FileStoreManager.cs:91-102 | the constructor's reopen path sets files and fields as specified, and fails exactly on a repeated id |
| StoreManager.FileStoreManager.MaintainHeaders | MemoryMappedFileDemo/FileStore/FileStoreManager.cs:172-210 | headers are loaded or initialised, then written, data before table |
| StoreManager.FileStoreManager.PushEntry | MemoryMappedFileDemo/FileStore/FileStoreManager.cs:218-258 | disk and fields become those after all the push's steps, and the recorded writes are payload, table entry, data header, table header, in that order |
| StoreManager.FileStoreManager.GetEntry | MemoryMappedFileDemo/FileStore/FileStoreManager.cs:283-296 | the result is the specified lookup on disk and fields |
| StoreManager.FileStoreManager.GetEntries | MemoryMappedFileDemo/FileStore/FileStoreManager.cs:309-333 | the loop fills list and dictionary from the table on first use, and afterwards answers from them |
| SharedFiles.RunLockInv | FileCollisionTests/DictionaryLock.cs:29-115 | the invariant of dictionaries, spin locks, lock objects and threads holds after every interleaving of any number of threads and systems |
| FileContents.RunFileInv | FileCollisionTests/CollisionAvoidanceFileSystem.cs:23-40 | for a file used through one system, the invariant of its content and its readers and writers holds after every interleaving, whatever happens to other files |
| FileContents.NoTornLoads | FileCollisionTests/CollisionAvoidanceFileSystem.cs:23-40 | every closed load of such a file returned, whole, the content of the last save closed before its read section opened, or missing |
| FileContents.NoCollisions | FileCollisionTests/CollisionAvoidanceFileSystem.cs:23-40 | no File.Open of such a file ever meets somebody else's handle |
| MixedSystems.ExcludesIff | FileCollisionTests/CollisionAvoidanceFileSystem.cs:18-18 | writers of a file exclude each other in every run if and only if they go through one system, because each system has its own dictionary |
| MixedSystems.CollisionFreeIff | FileCollisionTests/QueuedFileSystem.cs:38-38 | no run of two systems on a file makes File.Open throw if and only if they are one system |
| MixedSystems.LoadsLatestIff | FileCollisionTests/QueuedFileSystem.cs:38-38 | in every run of two systems on a file each closed load returned the last save closed before its read section opened, if and only if they are one system |
| WholeLoads.LoadsAreWhole | FileCollisionTests/LockingFileSystem.cs:50-112 | in every run, through any number of systems, a closed load returned what the file held at the start, or was missing as the file was then, or the whole content of one save |
| WholeLoads.RunWhole | FileCollisionTests/LockingFileSystem.cs:50-112 | after every interleaving a file that nobody has open to write is whole, and a handle to write is the only handle |
| MixedSystems.Collision | FileCollisionTests/QueuedFileSystem.cs:67-69 | for any two systems a run in which one thread writes the file, a thread of the other stands in the write section too, and its File.Open throws |
| SoloRuns.SaveThenLoad | FileCollisionTests/QueuedFileSystem.cs:83-103 | in every reachable state in which everybody is idle a save through any system and then a load through it both end by their own steps, and the load, and the client who waits for it, gets exactly what was saved |
| SoloRuns.RunsToEnd | FileCollisionTests/LockingFileSystem.cs:50-112 | a thread that works alone comes to the end of its save or load, and trace, files and items are then exactly those that were ahead |
| Arrivals.ReadersShare | FileCollisionTests/DictionaryLock.cs:55-63 | two loads of a file through one system have it open at the same time |
| SharedFiles.LockIdentity | FileCollisionTests/DictionaryLock.cs:29-52 | two threads with a lock in hand have the same lock exactly when they use one dictionary and one key |
| SharedFiles.LockForever | FileCollisionTests/DictionaryLock.cs:43-48 | an entry that has a lock keeps that lock in every continuation of the run |
| SharedFiles.WriterExcludes | FileCollisionTests/DictionaryLock.cs:58-73 | a thread in the write section of a dictionary's entry excludes all others from both sections of that entry |
| SharedFiles.NeverRequeued | FileCollisionTests/QueuedFileSystem.cs:56-57 | no interleaving reaches the requeue branch: IsReadLockHeld asks about the calling thread, which holds nothing |
| Arrivals.ReaderUnnoticed | FileCollisionTests/QueuedFileSystem.cs:56-59 | for any queued file system and file a run in which one worker reads the file, another asks IsReaderLocked about it, and goes on as if nobody read |
| SharedFiles.NotReading | FileCollisionTests/DictionaryLock.cs:78-84 | a worker about to ask IsReaderLocked holds no read lock |
| SharedFiles.WriterAlone | FileCollisionTests/DictionaryLock.cs:58-73 | the same in every state that satisfies the invariant |
| FileContents.FileIsLatest | FileCollisionTests/LockingFileSystem.cs:96-112 | what a thread in a read section finds in a file used through one system is the last closed save |
| QueuedFiles.RunQueueInv | FileCollisionTests/QueuedFileSystem.cs:51-103 | what the queue, the workers and the items promise holds after every interleaving |
| QueuedFiles.QueuedLoad | FileCollisionTests/QueuedFileSystem.cs:92-103 | a queued load of a file used through its queued file system only tells its client, whole, the last save closed before a read section that opened after the request |
| QueuedFiles.SavesAreSeen | FileCollisionTests/QueuedFileSystem.cs:78-103 | for such a file, a load submitted after a queued save returned yields that save or a later one, never an older one and never missing |
| QueuedFiles.TakenInOrder | FileCollisionTests/QueuedExecution.cs:54-57 | operations are taken from a queue in the order in which they were submitted, and it holds the rest |
| QueuedFiles.LatestIsLater | FileCollisionTests/CollisionAvoidanceFileSystem.cs:23-40 | once a save has closed, the latest save lies at or after it |
| WorkQueue.RunInv | FileCollisionTests/QueuedExecution.cs:84-138 | the queue invariant holds after every interleaving of clients and workers |
| WorkQueue.Conservation | FileCollisionTests/QueuedExecution.cs:88-110 | every submitted item is in exactly one of queue, one worker's hands and completed, through any number of requeues, and nowhere twice |
| WorkQueue.PlaceByLastRun | FileCollisionTests/QueuedExecution.cs:93-104 | an item that no worker holds is completed exactly if the last ProcessQueue call on it succeeded or failed, and queued exactly if there was none or it asked to requeue |
| WorkQueue.FirstInFirstOut | FileCollisionTests/QueuedExecution.cs:57-57 | items are taken in the order in which they were put in, new ones and requeued ones, and the queue holds the rest |
| WorkQueue.EveryItemCanFinish | FileCollisionTests/QueuedExecution.cs:88-138 | from every reachable state the client of every submitted item can still be released |
| WorkQueue.QueuedCanFinish | FileCollisionTests/QueuedExecution.cs:88-138 | a queued item can come to a worker and end with either result: its client returns, or gets the exception |
| WorkQueue.ReleasedWithFinalResult | FileCollisionTests/QueuedExecution.cs:125-138 | a released client sees the result of the last ProcessQueue call on its item; it is never FailRequeue, never changes again, and throws exactly for FailThrow |
| RateLimiter.Limiter.Attempt | GoogleAnalyticsData/GoogleAnalyticsDemo/Limiter.cs:104-126 | one locked turn of the loop grants and updates the counters as specified |
| RateLimiter.Limiter.Exit | GoogleAnalyticsData/GoogleAnalyticsDemo/Limiter.cs:132-139 | exactly one live call fewer |
| RateLimiter.SlidingBound | GoogleAnalyticsData/GoogleAnalyticsDemo/Limiter.cs:101-127 | in every run with a non-decreasing clock any span no longer than the interval holds at most twice the calls per interval |
| RateLimiter.KeepsLimitIff | GoogleAnalyticsData/GoogleAnalyticsDemo/Limiter.cs:44-117 | the calls per interval are kept in every span of one interval of every run, if and only if no calls are allowed or the interval is not positive |
| RateLimiter.KeepsLimitOrderlyIff | GoogleAnalyticsData/GoogleAnalyticsDemo/Limiter.cs:101-139 | when every exit belongs to a call that was let in, the same holds if and only if no calls are allowed, the interval is not positive or no call may be live |
| RateLimiter.TwiceIsReached | GoogleAnalyticsData/GoogleAnalyticsDemo/Limiter.cs:109-117 | for all other limits a run that lets in exactly twice the calls per interval within one time unit |
| RateLimiter.LiveCalls | GoogleAnalyticsData/GoogleAnalyticsDemo/Limiter.cs:117-139 | live calls are grants minus exits and never above the allowed number |
| FormatTemplate.JoinIsDenote | FormatBenchmarks/CompiledFormat.cs:130-140 | joining the compiled parts and values gives the template's denotation |
| FormatTemplate.RenderInjective | FormatBenchmarks/CompiledFormat.cs:44-48 | a template string has one reading, so caching by string is sound |
| FormatCompiler.CompiledString.Compile | FormatBenchmarks/CompiledFormat.cs:44-117 | with or without a cache hit the result compiles the template, and the cache stays valid |
| FormatCompiler.CompiledString.Scanned | FormatBenchmarks/CompiledFormat.cs:50-113 | the scanning loop with its growing arrays loses no part and leaves no stale id |
| FormatCompiler.Double | FormatBenchmarks/CompiledFormat.cs:71-78 | growing keeps the parts and ids so far and resets the ids from the current part on |
| FormatEvaluators.Format | FormatBenchmarks/CompiledFormat.cs:126-141 | the result is the denotation, after any history of cached calls |
| FormatEvaluators.FormatStringConcat | FormatBenchmarks/CompiledFormat.cs:150-174 | the same |
| FormatEvaluators.FormatList | FormatBenchmarks/CompiledFormat.cs:177-201 | the same |
| FormatEvaluators.FormatConcat | FormatBenchmarks/CompiledFormat.cs:203-228 | the same |
| FormatEvaluators.FormatFly | FormatBenchmarks/CompiledFormat.cs:353-397 | the one-pass evaluator without compilation gives the denotation too |
| FormatEvaluators.FormatByteCopy | FormatBenchmarks/CompiledFormat.cs:400-467 | the first characters are the denotation and all the rest are NUL |
| FormatReplacing.FormatReplace | FormatBenchmarks/CompiledFormat.cs:341-350 | for any template and values, the ids are replaced one after another in the text |
| FormatReplacing.SequentialIff | FormatBenchmarks/CompiledFormat.cs:341-350 | when no value has an opening brace, or none has a closing one, that gives the denotation if and only if every id is written canonically |
| FormatReplacing.LeadingZeroStays | FormatBenchmarks/CompiledFormat.cs:347-347 | a concrete template with the id 01, whose hole is never filled |
| FormatReplacing.ReplaceIsFill | FormatBenchmarks/CompiledFormat.cs:346-347 | replacing an id's hole in the text is filling it in the template |
| FormatReplacing.FillKeepsDenote | FormatBenchmarks/CompiledFormat.cs:346-347 | filling in one id changes nothing of what the template denotes |
| Decimals.DecimalRoundTrip | FormatBenchmarks/CompiledFormat.cs:347-347 | an int concatenated into text parses back |
| FormatReplacing.BracesInValuesMatter | FormatBenchmarks/CompiledFormat.cs:341-350 | a concrete value with braces for which the two substitutions differ |
| KeyDerivation.GetBytes | HashingTest/PBKDF2.cs:40-111 | the nested in-place loops return the first bytes of T_1 || T_2 || ... for every password, salt and hash; the one exception is named |
| KeyDerivation.FillBlocks | HashingTest/PBKDF2.cs:78-107 | block by block, the counter behind the salt and the output hold what the standard says |
| KeyDerivation.FillBlock | HashingTest/PBKDF2.cs:85-105 | the xor loop leaves the xor of all the HMAC outputs in its place and touches nothing else |
| KeyDerivation.PadKey | HashingTest/PBKDF2.cs:67-76 | zero padding and the two constants |
| KeyDerivation.IncrementBigEndianIndex | HashingTest/PBKDF2.cs:114-124 | the four bytes go from the big-endian n to n + 1, and the exception comes exactly after 2^32 - 1 |
| KeyDerivation.XorByteArray | HashingTest/PBKDF2.cs:125-135 | the addressed bytes are xored, all others stay |
| KeyDerivation.XorDiffers | HashingTest/PBKDF2.cs:131-131 | each bit of the exclusive or of two bytes is set exactly where their bits differ |
| KeyDerivation.XorBack | HashingTest/PBKDF2.cs:74-75 | a second exclusive or undoes the first |
| KeyDerivation.HmacIsStandard | HashingTest/PBKDF2.cs:61-98 | HMAC as section 2 of RFC 2104 writes it, with its constants: keys above 64 bytes are hashed, others filled up with zeros |
| KeyDerivation.BlockIsT | HashingTest/PBKDF2.cs:85-105 | xor into zeros is T_i of section 5.2 of RFC 2898, for every positive iteration count |
| KeyDerivation.BlocksAreStandard | HashingTest/PBKDF2.cs:78-107 | the concatenated blocks are those of the standard |
| KeyDerivation.ShorterIsPrefix | HashingTest/PBKDF2.cs:108-110 | a shorter request is a prefix of a longer one |
| ByteCompare.SimpleCompare | CompareByteArray/SimpleCompare.cs:11-21 | true exactly for equal arrays |
| ByteCompare.UnsafeCompare | CompareByteArray/unsafeCompare.cs:11-26 | true exactly for equal arrays, neither of them null |
| ByteCompare.SvensonCompare | CompareByteArray/unsafeSvensonCompare.cs:15-54 | true exactly when lengths are equal and the memories agree on the first L + 2 or L + 3 bytes |
| ByteCompare.SvensonMeans | CompareByteArray/unsafeSvensonCompare.cs:31-51 | true means equal arrays followed by agreeing bytes, and nothing less |
| ByteCompare.PaddingMatters | CompareByteArray/unsafeSvensonCompare.cs:41-50 | two equal arrays of eight bytes that the loop calls different |
| SqlDialect.GetSortExpression | NHibernateSQL2005Dialect/MsSql2005Dialect.cs:28-56 | the pieces join with commas to the input, each ends at depth zero and none could be cut further |
| SqlDialect.SplitsOnce | NHibernateSQL2005Dialect/MsSql2005Dialect.cs:38-53 | there is only one such list of pieces |
| SqlDialect.SplitBalanced | NHibernateSQL2005Dialect/MsSql2005Dialect.cs:38-53 | a balanced list splits into balanced pieces |
| Basics.SameWordIff | NHibernateSQL2005Dialect/MsSql2005Dialect.cs:96-96 | a comparison that ignores case holds exactly if each character is that of the lower-case word or, for a letter, its capital |
| SqlDialect.FindFrom | NHibernateSQL2005Dialect/MsSql2005Dialect.cs:81-106 | the first " from " at depth zero in any letter case, with the counter left at zero; otherwise 0, with the counter left at the whole depth |
| SqlDialect.FindOrderBy | NHibernateSQL2005Dialect/MsSql2005Dialect.cs:111-128 | the last " order by " at which the counter, carried over and run from the right, is zero; otherwise 0 |
| SqlDialect.BackwardCounter | NHibernateSQL2005Dialect/MsSql2005Dialect.cs:115-127 | the backward counter is the negated forward depth exactly when carry and total depth cancel |
| SqlDialect.BackwardAgrees | NHibernateSQL2005Dialect/MsSql2005Dialect.cs:81-128 | the backward scan accepts a top-level place if and only if the query opens and closes equally often |
| SqlDialect.BackwardFindsLast | NHibernateSQL2005Dialect/MsSql2005Dialect.cs:111-128 | then it finds exactly the last top-level " order by " |
| SqlDialect.SlicesRebuild | NHibernateSQL2005Dialect/MsSql2005Dialect.cs:109-142 | the three slices rebuild a balanced query and each is balanced |
| SqlPaging.GetLimitString | NHibernateSQL2005Dialect/MsSql2005Dialect.cs:78-209 | the paged text reads as the page asked for around the slices of the query, and the call throws exactly when the " order by " that the scan stops at precedes " from " or has only white space after it |
| SqlPaging.LimitPages | NHibernateSQL2005Dialect/MsSql2005Dialect.cs:147-206 | read back, the paged text has last behind SELECT TOP, offset behind page.row >, in both order lists the k-th alias, descending exactly if the k-th expression ends in desc, and as k-th column that expression without its direction under that alias |
| SqlPaging.OrderByText | NHibernateSQL2005Dialect/MsSql2005Dialect.cs:136-138 | trimming and cutting nine characters leaves the sort list, or throws when there is none |
| SqlPaging.NothingToOrderBy | NHibernateSQL2005Dialect/MsSql2005Dialect.cs:136-138 | any query with as many opening as closing parentheses, followed by " order by " and nothing else, makes it throw |
| SqlPaging.OrderByBeforeFrom | NHibernateSQL2005Dialect/MsSql2005Dialect.cs:135-135 | a concrete query whose last " order by " precedes its " from " makes it throw |
| SqlPaging.PagingKeepsBalance | NHibernateSQL2005Dialect/MsSql2005Dialect.cs:78-209 | every balanced query that can be paged becomes a balanced query |
| SqlPaging.AppendColumns | NHibernateSQL2005Dialect/MsSql2005Dialect.cs:168-181 | the loop appends every sort expression without its direction under its alias |
| SqlPaging.AppendOrdering | NHibernateSQL2005Dialect/MsSql2005Dialect.cs:188-206 | the last loop appends " order by " once and all keys |
| SqlRendering.GenerateTVF | MultiplParametersSQL/RenderSQL.cs:136-177 | the loop with its block counter writes the specified script, or throws exactly when some value has no literal |
| SqlRendering.ScriptReadsBackIff | MultiplParametersSQL/RenderSQL.cs:136-177 | a quote-aware reader takes exactly the rows, in order and block by block, back out of the script if and only if no number with decimals is shown with a comma, a closing parenthesis or a quote for its decimal separator |
| SqlRendering.ValuesReadBack | MultiplParametersSQL/RenderSQL.cs:279-300 | the cells of values of every supported kind, within the ranges of their types, stand for the values of the record |
| SqlScripts.ChunkSizes | MultiplParametersSQL/RenderSQL.cs:142-172 | the blocks hold the rows in order; all but the last have exactly 1000, the last 1 to 1000 |
| SqlScripts.ScriptBackIff | MultiplParametersSQL/RenderSQL.cs:148-175 | a script of any blocks is read back if and only if every cell stands as one and no row is a lone empty cell |
| SqlScripts.ReadScriptSolid | MultiplParametersSQL/RenderSQL.cs:131-134 | whatever text it is given, the reader returns only such rows |
| SqlLiterals.CellLengthIff | MultiplParametersSQL/RenderSQL.cs:131-134 | a cell is read back, whatever follows, if and only if its quotes pair up and no comma or closing parenthesis is outside them |
| SqlLiterals.LiteralSolidIff | MultiplParametersSQL/RenderSQL.cs:279-312 | every literal is such a cell and never empty, except for numbers with decimals and a decimal separator that is a comma, a closing parenthesis or a quote |
| SqlLiterals.TextRoundTrip | MultiplParametersSQL/RenderSQL.cs:284-285 | a string comes back out of its doubled-quote literal |
| SqlLiterals.ValueRoundTrip | MultiplParametersSQL/RenderSQL.cs:279-312 | so do values of every other kind within the ranges of their types: nulls, guids, dates, truth values, bytes, and numbers |
| SqlRendering.DecimalCommaSplits | MultiplParametersSQL/RenderSQL.cs:302-312 | a number shown with a decimal comma is read as two cells |
| StripedCounter.Quiescent | 3rd parties/hackcraft-Ariadne-15f7420/Counter.cs:57-89 | at rest the stripes add up, modulo 2^32, to start plus increments minus decrements, even when stripes wrap |
| StripedCounter.ReadIsBetween | 3rd parties/hackcraft-Ariadne-15f7420/Counter.cs:57-66 | a read among increments lies between the totals at its start and end if those fit 32 bits |
| StripedCounter.WrappedShadowsExact | 3rd parties/hackcraft-Ariadne-15f7420/Counter.cs:79-89 | in every interleaving the wrapped stripes and the wrapped partial sum are the wrapped exact ones |
| StripedCounter.Counter.Value | 3rd parties/hackcraft-Ariadne-15f7420/Counter.cs:57-66 | the loop returns the wrapped sum of all stripes |
| StripedCounter.Counter.Increment | 3rd parties/hackcraft-Ariadne-15f7420/Counter.cs:79-84 | one stripe moves and the value grows by one, wrapping |
| StripedCounter.Counter.Decrement | 3rd parties/hackcraft-Ariadne-15f7420/Counter.cs:86-89 | one stripe moves and the value shrinks by one, wrapping |

## Left out

- Characters are Unicode scalar values, not UTF-16 code units, and ordinal or invariant case-insensitive comparison with ASCII words folds ASCII letters only.
- The regular expressions of the normaliser are written out as the functions they compute; a null condition is the empty one.
- FullTextSearching.FullTextSearch.Load: the constructor's work after storing its arguments, since a constructor cannot return the exception.
- The .NET serialiser is any payload bytes; memory mapping, file growth, the file size field, flushing and reordering of writes by the operating system are not modelled, and each header write is one step.
- StoreRuns.CrashAtomicity: supposes that the two ends and the payload fit into 63 bits; a larger store would overflow LastByte.
- The store's Delete, GetAllEntries, GetStatistics and Dispose.
- GetEntry's default value for an entry at offset zero cannot come up, since payloads start behind the header; it is kept as a case.
- The reader-writer lock and the spin lock are their specifications; looking a lock up and releasing it on exit are one step.
- SharedFiles.RunLockInv: the only file system exception is the sharing violation of File.Open; a thread that meets it keeps its lock, since the code has no finally, and does nothing more, whatever its caller would do. The retrying overloads are left out.
- FileContents.NoTornLoads: one system per file, which is exactly when it holds (MixedSystems.LoadsLatestIff); for several systems WholeLoads.LoadsAreWhole does not say which save a load returns.
- A file is its name as a string, as it is for the locks; two names of one file, by letter case or by relative and absolute paths, have different locks even inside one system and are not modelled as one file.
- Fairness: nothing is said about waiting threads getting their turn; what is proved is that a thread that works alone comes to its end (SoloRuns.RunsToEnd).
- WorkQueue.Conservation: before disposal; Dispose, thread abort and the workers' exit are wall-clock behaviour.
- RateLimiter.SlidingBound: Enter's retry loop is any number of attempts, the clock is any non-decreasing reading, and the two readings of one attempt may differ.
- RateLimiter.Limiter.Exit: exits without an enter are allowed, as in the code; 32-bit overflow of the two counters is not modelled.
- FormatEvaluators.Format: well-formed templates only (text and {digits} in turn, ids in range and in int range, values given as their strings and not null); what the code does with malformed ones is left out.
- FormatReplacing.SequentialIff: values of which some has an opening and some a closing brace are outside it; they can be harmful (BracesInValuesMatter) or harmless.
- FullTextSpelling.NormalForm: its writings have no empty groups, no runs of signs, and balanced quotes and parentheses; what becomes of the others is stated piece by piece (FullTextSpelling.LastSignCounts, FullTextSpelling.StrayCloseIsAnd, FullTextLexer.StrayQuote and those beside them).
- FullTextGrammar.NormalFormIsValid: the grammar covers the forms that the normaliser can print; what a server does with an empty literal, or with a condition of noise words only, is left out.
- FormatInsertRemove and CompileParts drop the end of the template and keep closing braces, so they share no denotation with the rest.
- KeyDerivation.GetBytes: requests and counts below 2^31, as the source's int arithmetic needs; hash objects are functions from bytes to bytes.
- ByteCompare.SvensonCompare: reading past an array is reading whatever bytes are there; a memory fault is not modelled.
- SqlPaging.GetLimitString: works on the text of the query; NHibernate's SqlString parts and parameters, and letter case or ignorable characters beyond ASCII, are left out, as is whether the result means the same rows; taking a slice of negative length is supposed to throw.
- SqlRendering.GenerateTVF: the twins for data readers and data tables (MultiplParametersSQL/RenderSQL.cs:179-259) have the same loop over another source of rows and are not repeated.
- SqlLiterals.LiteralSolidIff: the culture decides one separator in times and one in numbers; other signs are those of the invariant culture, and not-a-number and the infinities are left out.
- SqlLiterals.ValueRoundTrip: guids have 32 digits, the parts of a date are below 100 (the year below 10000), and a decimal separator is neither a digit nor an E, or is the point where there are no decimals.
- GenerateQuery, GenerateTVF's choice of renderer, GetDbType.
- StripedCounter.ReadIsBetween: the conversions and operators around the class are left out.
- Other byte comparers, PBKDF1, the spin-lock and dictionary samples, the CSV parser, DynamicExecution, and all user interface, network, database and third-party code.
