# Verified models of the vendored components

This project models six components that the application vendors, and proves properties of the models
for all inputs, all runs or all reachable states.

* **The parser of SQLite's SQL** (`StackLog`, `LemonGrammar`, `LalrMachine`, `LalrRuns`, `PlainLr`,
  `LemonTables`, `LemonDriver`, `LemonFragment`, `FragmentRun`). The driver is an object over a fixed array,
  with the packed tables as parameters. `LemonTables.Packing` and `LalrMachine.Valid` state what the
  generator's tables have to satisfy; they can be checked entry by entry, given the item sets of the states
  as a certificate. The driver is proved against an LR machine over a stack of states and trees; that machine
  is proved sound for the grammar, and to do what a textbook LR parser does (`PlainLr`). `LemonFragment` and
  `FragmentRun` show with a real fragment that the conditions can be met and that such tables accept.
* **Compound SELECT statements and rewritten expressions** (`SelectChain`, `ExprDesugar`), the parse actions
  that build and change objects on the heap.
* **The keyword lookup** (`KeywordTables`, `KeywordEntries`, `KeywordHash`, `KeywordNames`), with the tables as
  they are, checked against the token list of the parser.
* **The authentication interceptor** (`AuthState`, `AuthInterceptor`, `AuthProtocol`, `AuthProperties`,
  `AuthWindow`, `AuthReplies`, `AuthCredentials`, `AuthLiveness`, `AuthFairness`). Each locked block is one
  atomic step and each piece of a queued block is one; callers, the queue, the authenticator and the clock
  interleave in every way. The clock readings are inputs that do not decrease, `requiresRefresh` is a property
  of the credential, and times are real numbers.
* **The multipart/form-data encoders** (`MultipartFormat`, `MultipartEncoder`, `MultipartForm`), over streams
  that deliver and accept bytes in arbitrary pieces, with an independent decoder.
* **The query encoder** (`QueryEncoding`, `NestedOrder`) **and the header list** (`HeaderList`, `Sorting`).

Text is modelled as UTF-8 bytes where bytes matter (`Octets`), and as characters otherwise.

Where the code and its documentation disagree, the code is modelled:

* The in-memory encoder compares the length of every body with the declared length; the streaming encoder,
  described as an equivalent for larger data, does not. `MultipartForm.SameForms` says exactly when they agree.
* The write loop stops without an error when the output stream has no space, so that `writeEncodedData` can
  report success with bytes missing. `MultipartForm.MultipartFormData.WriteEncodedData` says that a reported
  success is complete exactly if no write loop found the stream without space, which `OutputStream.Valid` ties
  to what the stream did; `MultipartForm.TruncatedWithoutError` is a form that is cut short.
* `retry` reads the credential before it takes the lock, so that, contrary to the purpose stated for
  `isRequest(_:authenticatedWith:)`, a rejected credential can be refreshed a second time after it was
  replaced; `AuthLiveness.ReplacedExactly` says exactly which steps do so.
* The keyword lookup is described as a check for keywords; its mask also accepts the delete character wherever
  a keyword has an underscore (`KeywordHash.MatchesAreCaseVariants`, `KeywordHash.DeleteForUnderscore`).

The query encoder sorts the keys of the parameters and visits nested dictionaries as they come; `NestedOrder`
says exactly when that shows. The decoder in `MultipartFormat` ends a header's name at the first colon, as
section 2.2 of RFC 5322 does, and expects the single space that the encoder writes behind it.

## Model

| member | source | states |
|---|---|---|
| `PlainLr.FusedRefinesPlain` | SwiftApp/Pods/WCDBOptimizedSQLCipher/parse.c:1052-1058 | a textbook LR parser over state numbers, without shift-reduce actions or pending reductions, ends with the same verdict after the same reductions |
| `LalrRuns.Soundness` | SwiftApp/Pods/WCDBOptimizedSQLCipher/parse.c:5171-5289 | whatever any run over any token stream accepts is derivable from the start symbol, with every token taken as itself, through its fallback, or as ANY; the acceptance leaves exactly the sentinel |
| `LalrRuns.YieldIsConsumed` | SwiftApp/Pods/WCDBOptimizedSQLCipher/parse.c:5171-5289 | in every reachable state the yields of the stack entries concatenate to the tokens consumed since the last acceptance or overflow |
| `LalrRuns.FeedKeeps` | SwiftApp/Pods/WCDBOptimizedSQLCipher/parse.c:5171-5289 | one call keeps the viable-prefix invariant and the stack bound, whatever its verdict, and what each verdict means for the yields |
| `LalrRuns.FeedUnfolds` | SwiftApp/Pods/WCDBOptimizedSQLCipher/parse.c:5171-5289 | one round of a call: shift, overflow, reduction, acceptance or error, with the next stack and a measure that every reduction lowers |
| `LalrRuns.TreeIsBounded` | SwiftApp/Pods/WCDBOptimizedSQLCipher/parse.c:5171-5186 | no parse tree over a given number of tokens exceeds a bound computed from the certificate, so the reduction loop ends |
| `LalrRuns.StackIsBounded` | SwiftApp/Pods/WCDBOptimizedSQLCipher/parse.c:5171-5186 | the same for all entries of a stack |
| `LalrRuns.ReduceFits` | SwiftApp/Pods/WCDBOptimizedSQLCipher/parse.c:5183-5186 | a reduction that has room keeps the invariant and lowers the measure |
| `LalrMachine.ItemPath` | SwiftApp/Pods/WCDBOptimizedSQLCipher/parse.c:1039-1062 | every item of the state on top is backed by the entries below it: a stack is a path of the automaton |
| `LalrMachine.TopState` | SwiftApp/Pods/WCDBOptimizedSQLCipher/parse.c:1039-1062 | only the top entry can hold a pending reduction or the accept action, and a state there is a real one |
| `LalrMachine.DefaultComesLast` | SwiftApp/Pods/WCDBOptimizedSQLCipher/parse.c:2144-2190 | a state decides by its default exactly about the tokens that cannot be read, directly, through the fallback or as ANY, as a symbol that it has an entry for |
| `LalrMachine.ReduceIsSafe` | SwiftApp/Pods/WCDBOptimizedSQLCipher/parse.c:5022-5036 | a reduction pops exactly the right-hand side of its rule, stays above the sentinel, and its goto exists |
| `LalrMachine.ReduceIsViable` | SwiftApp/Pods/WCDBOptimizedSQLCipher/parse.c:5022-5036 | the stack after a reduction is again a path of the automaton, and its yield is unchanged |
| `LalrMachine.ShiftIsSafe` | SwiftApp/Pods/WCDBOptimizedSQLCipher/parse.c:2273-2305 | the stack after a shift is again a path, and its yield is longer by the token |
| `LemonGrammar.DriverTreeDerives` | SwiftApp/Pods/WCDBOptimizedSQLCipher/parse.c:4962-4998 | a tree built with unit rules optimised out can be completed to a parse tree of the grammar with the same yield |
| `LemonGrammar.RestoreTree` | SwiftApp/Pods/WCDBOptimizedSQLCipher/parse.c:4962-4998 | the completion itself: same yield, same root, and an instance of a rule at every node |
| `LemonTables.PackingIsExact` | SwiftApp/Pods/WCDBOptimizedSQLCipher/parse.c:338-350 | for any row-displacement packing the lookahead test holds exactly for the explicit entries of the state, and yy_action is never read past its end |
| `LemonTables.ExactNeedsSeparateOffsets` | SwiftApp/Pods/WCDBOptimizedSQLCipher/parse.c:338-350 | the condition that states share an offset only if their rows agree cannot be dropped |
| `LemonTables.FallbackIsFinal` | SwiftApp/Pods/WCDBOptimizedSQLCipher/parse.c:5306-5316 | the function returns 0 exactly for tokens without a fallback; otherwise the token may be read as the result, which has no fallback itself |
| `LemonTables.FindShiftAction` | SwiftApp/Pods/WCDBOptimizedSQLCipher/parse.c:2127-2190 | equals the two-dimensional lookup; in the terms of the rows: the token's own entry comes first, then that of its fallback, then the wildcard's, then the default, which decides only if no entry fits; at most two rounds; a pending reduction is returned as it is |
| `LemonTables.FindReduceAction` | SwiftApp/Pods/WCDBOptimizedSQLCipher/parse.c:2196-2220 | returns the goto of the state, with its asserts proved |
| `LemonDriver.DecodeAction` | SwiftApp/Pods/WCDBOptimizedSQLCipher/parse.c:5171-5200 | the numeric comparisons of the loop decide the plain machine's action, in both directions |
| `LemonDriver.TopCode` | SwiftApp/Pods/WCDBOptimizedSQLCipher/parse.c:2133 | the stored number exceeds YY_MAX_SHIFT exactly if the entry holds a pending reduction |
| `LemonDriver.GotoCode` | SwiftApp/Pods/WCDBOptimizedSQLCipher/parse.c:5029-5036 | a goto's code is the next state's number and never a shift-reduce or an error |
| `LemonDriver.ReduceCode` | SwiftApp/Pods/WCDBOptimizedSQLCipher/parse.c:5022-5030 | the two tables of rule data describe the rule that is reduced, within the stack and the goto tables |
| `LemonDriver.Parser.constructor` | SwiftApp/Pods/WCDBOptimizedSQLCipher/parse.c:1826-1850 | a fresh parser holds the sentinel alone |
| `LemonDriver.Parser.PopParserStack` | SwiftApp/Pods/WCDBOptimizedSQLCipher/parse.c:2029-2043 | removes the top entry and hands it to the destructor |
| `LemonDriver.Parser.StackOverflow` | SwiftApp/Pods/WCDBOptimizedSQLCipher/parse.c:2225-2244 | hands every entry above the sentinel to the destructor and reports the overflow once |
| `LemonDriver.Parser.Finalize` | SwiftApp/Pods/WCDBOptimizedSQLCipher/parse.c:2048-2054 | afterwards every entry pushed was consumed, destroyed or dropped exactly once |
| `LemonDriver.Parser.YyShift` | SwiftApp/Pods/WCDBOptimizedSQLCipher/parse.c:2273-2305 | pushes the original token code with the state or the pending reduction, or overflows when the array is full |
| `LemonDriver.Parser.ReplaceHandle` | SwiftApp/Pods/WCDBOptimizedSQLCipher/parse.c:5022-5038 | replaces the right-hand side by the left-hand side and the goto |
| `LemonDriver.Parser.YyReduce` | SwiftApp/Pods/WCDBOptimizedSQLCipher/parse.c:3060-3118 | one reduction, or an overflow for an empty rule on a full stack |
| `LemonDriver.Parser.YyAccept` | SwiftApp/Pods/WCDBOptimizedSQLCipher/parse.c:5095-5115 | drops the `input` entry and leaves exactly the sentinel |
| `LemonDriver.AcceptanceShows` | SwiftApp/Pods/WCDBOptimizedSQLCipher/parse.c:5095-5115 | after a call the stack holds the sentinel alone without a message exactly if the call accepted, and then the tokens below the stack are derivable from the start symbol |
| `LemonDriver.Parser.Round` | SwiftApp/Pods/WCDBOptimizedSQLCipher/parse.c:5171-5289 | one round of the driver is one round of the plain machine |
| `LemonDriver.Parser.Parse` | SwiftApp/Pods/WCDBOptimizedSQLCipher/parse.c:5135-5299 | one call ends, and leaves the stack, the reductions and the verdict of the plain LR machine, in which every shift goes to a state and every reduction is an action of one; it has accepted exactly if yytos is 0 without a new message, and then the tokens taken so far are derivable |
| `LemonDriver.RunParser` | SwiftApp/Pods/WCDBOptimizedSQLCipher/src/tokenize.c:597-668 | over any token stream the driver does what the plain machine does up to the first error; it reports acceptance exactly if the last call accepted, and then the tokens consumed are derivable; after finalizing every entry pushed has been consumed, destroyed or dropped exactly once |
| `StackLog.Ownership` | SwiftApp/Pods/WCDBOptimizedSQLCipher/parse.c:2029-2053 | in every log that replays, pushes and removals of an entry balance |
| `LemonFragment.FragmentIsGood` | SwiftApp/Pods/WCDBOptimizedSQLCipher/parse.c:1719-1724 | the conditions on tables hold of a real fragment, with shared offsets, fallback tokens, an optimised-out rule and pending reductions |
| `FragmentRun.FallbackIsRead` | SwiftApp/Pods/WCDBOptimizedSQLCipher/parse.c:2144-2158 | on these tables `BEGIN TRANSACTION abort ;` is accepted, with ABORT, which has no entry there, read as the identifier it falls back to |
| `AuthInterceptor.AuthenticationInterceptor.constructor` | SwiftApp/Pods/Alamofire/Source/AuthenticationInterceptor.swift:205-250 | no refresh is under way and nothing is pending |
| `AuthInterceptor.AuthenticationInterceptor.IsRefreshExcessive` | SwiftApp/Pods/Alamofire/Source/AuthenticationInterceptor.swift:356-369 | true exactly if there is a window and the number of timestamps not older than its length is at least the maximum |
| `AuthInterceptor.AuthenticationInterceptor.HandleRefreshSuccess` | SwiftApp/Pods/Alamofire/Source/AuthenticationInterceptor.swift:371-387 | stores the credential and moves all pending completions into one queued block |
| `AuthInterceptor.AuthenticationInterceptor.HandleRefreshFailure` | SwiftApp/Pods/Alamofire/Source/AuthenticationInterceptor.swift:389-403 | moves all pending completions into one queued block that fails them |
| `AuthInterceptor.AuthenticationInterceptor.Refresh` | SwiftApp/Pods/Alamofire/Source/AuthenticationInterceptor.swift:331-354 | fails if the window is exhausted, otherwise notes the time and asks the authenticator on the queue |
| `AuthInterceptor.AuthenticationInterceptor.RefreshCompleted` | SwiftApp/Pods/Alamofire/Source/AuthenticationInterceptor.swift:344-351 | whoever waits is moved into one block with the outcome, and a new credential is stored |
| `AuthInterceptor.AuthenticationInterceptor.AdaptLocked` | SwiftApp/Pods/Alamofire/Source/AuthenticationInterceptor.swift:251-275 | deferred exactly if a refresh is under way or the credential requires one; otherwise adapted with the current credential, or refused for lack of one |
| `AuthInterceptor.AuthenticationInterceptor.RetryChecks` | SwiftApp/Pods/Alamofire/Source/AuthenticationInterceptor.swift:294-318 | goes on exactly if the request failed for its credential, with the credential read there; otherwise the answer |
| `AuthInterceptor.AuthenticationInterceptor.RetryLocked` | SwiftApp/Pods/Alamofire/Source/AuthenticationInterceptor.swift:320-326 | defers the retry and starts a refresh unless one is under way |
| `AuthInterceptor.AuthenticationInterceptor.RunQueueItem` | SwiftApp/Pods/Alamofire/Source/AuthenticationInterceptor.swift:342-403 | one piece of the block at the head of the serial queue; a retry behind a successful refresh is called with `retry`, and whatever waited for a failed one with its error |
| `AuthProtocol.RetryAnswers` | SwiftApp/Pods/Alamofire/Source/AuthenticationInterceptor.swift:294-318 | the answers that the protocol admits before the lock are exactly those that the checks can come to |
| `AuthProtocol.StepConserves` | SwiftApp/Pods/Alamofire/Source/AuthenticationInterceptor.swift:251-403 | no step loses or duplicates a completion |
| `AuthProtocol.Conservation` | SwiftApp/Pods/Alamofire/Source/AuthenticationInterceptor.swift:251-403 | in every run, whatever the authenticator does, the completion of every call is in exactly one place: pending, queued, in hand, being read for, or called |
| `AuthProtocol.CalledAtMostOnce` | SwiftApp/Pods/Alamofire/Source/AuthenticationInterceptor.swift:251-403 | no completion is called twice |
| `AuthReplies.RefreshDecidesReplies` | SwiftApp/Pods/Alamofire/Source/AuthenticationInterceptor.swift:371-403 | in every run, a retry that waits when a refresh is completed is called with `retry` if it succeeded and with its error if it failed, and a waiting adapt with the same error if it failed |
| `AuthReplies.ExhaustionDecidesReplies` | SwiftApp/Pods/Alamofire/Source/AuthenticationInterceptor.swift:331-336 | in every run, a call that wants a refresh for which the window has no room is called with that error |
| `AuthReplies.PendingStays` | SwiftApp/Pods/Alamofire/Source/AuthenticationInterceptor.swift:252-257 | nothing but the completion of the refresh ends the waiting |
| `AuthReplies.RetryWaitsOrFails` | SwiftApp/Pods/Alamofire/Source/AuthenticationInterceptor.swift:320-336 | a retry that takes the lock waits for a refresh exactly if one is under way or the window has room for one, and is refused otherwise |
| `AuthCredentials.NewCalls` | SwiftApp/Pods/Alamofire/Source/AuthenticationInterceptor.swift:251-283 | an adapt is answered at its turn exactly if no refresh is under way and the credential is missing or good |
| `AuthCredentials.AdaptedWithCurrent` | SwiftApp/Pods/Alamofire/Source/AuthenticationInterceptor.swift:258-283 | in every run, a request that has been adapted was adapted with the credential that was current at the step that decided so, which required no refresh |
| `AuthCredentials.CredentialIsLastWritten` | SwiftApp/Pods/Alamofire/Source/AuthenticationInterceptor.swift:371-372 | in every run, the current credential is the one that was last set or last returned by a refresh |
| `AuthCredentials.RetriesAreAnsweredInOrder` | SwiftApp/Pods/Alamofire/Source/AuthenticationInterceptor.swift:320-321 | in every run, of two waiting retries the one behind is not answered before the other |
| `AuthProperties.PhaseAlways` | SwiftApp/Pods/Alamofire/Source/AuthenticationInterceptor.swift:252-275 | whenever the lock is free, a non-empty pending list implies isRefreshing |
| `AuthProperties.OneOutstanding` | SwiftApp/Pods/Alamofire/Source/AuthenticationInterceptor.swift:331-403 | with at most one completion per refresh, the number of refreshes under way is 1 while isRefreshing and 0 otherwise |
| `AuthProperties.SlidingWindow` | SwiftApp/Pods/Alamofire/Source/AuthenticationInterceptor.swift:331-369 | over every run, every closed time window of the given length, wherever it starts, holds at most max(0, maximumAttempts) refresh timestamps |
| `AuthWindow.ExcessiveExactly` | SwiftApp/Pods/Alamofire/Source/AuthenticationInterceptor.swift:356-369 | the window is exhausted exactly if the interval that ends now holds the maximum number of timestamps; older ones do not count |
| `AuthWindow.RefreshStartsExactly` | SwiftApp/Pods/Alamofire/Source/AuthenticationInterceptor.swift:251-369 | in every run, a step starts a refresh if and only if it is an adapt that finds a credential to be refreshed or a retry that takes the lock, no refresh is under way, and fewer than the maximum were started in the window that ends at its check |
| `AuthWindow.StartIsNoted` | SwiftApp/Pods/Alamofire/Source/AuthenticationInterceptor.swift:338-339 | what is noted is the time at which the refresh starts, and nothing else ever is |
| `AuthProperties.BoundedWaiting` | SwiftApp/Pods/Alamofire/Source/AuthenticationInterceptor.swift:331-386 | for any stretch of the window's length: an adapt of which all but the first k awaited refreshes started in it has waited on at most k plus maximumAttempts refreshes, even if every new credential again requires one |
| `AuthProperties.WaitingSinceDeferral` | SwiftApp/Pods/Alamofire/Source/AuthenticationInterceptor.swift:252-275 | an adapt deferred onto a refresh under way has, within the window's length, waited on at most one refresh more than the window allows |
| `AuthLiveness.AllCalled` | SwiftApp/Pods/Alamofire/Source/AuthenticationInterceptor.swift:371-403 | when nothing is left to do, the completion of every adapt and retry has been called |
| `AuthLiveness.InternalStepLowers` | SwiftApp/Pods/Alamofire/Source/AuthenticationInterceptor.swift:331-403 | with a window, every step that needs no new call lowers a measure |
| `AuthLiveness.NoEndlessActivity` | SwiftApp/Pods/Alamofire/Source/AuthenticationInterceptor.swift:331-403 | so there is no endless activity within a stretch no longer than the window |
| `AuthLiveness.Progress` | SwiftApp/Pods/Alamofire/Source/AuthenticationInterceptor.swift:371-403 | as long as something is left, some such step can be taken |
| `AuthLiveness.EndlessRefresh` | SwiftApp/Pods/Alamofire/Source/AuthenticationInterceptor.swift:331-354 | without a window one adapt can wait on any number of refreshes at one instant |
| `AuthFairness.EveryStepMoves` | SwiftApp/Pods/Alamofire/Source/AuthenticationInterceptor.swift:251-403 | whatever step anyone takes, a deferred call is answered, or a measure of its distance from the answer falls, or stays as it is; the steps that serve the call lower it |
| `AuthFairness.EveryCallIsAnswered` | SwiftApp/Pods/Alamofire/Source/AuthenticationInterceptor.swift:251-403 | with new calls coming in without end: if the queue is served, refreshes are completed and the call's own thread goes on, every call is answered unless refreshes are started without end |
| `AuthFairness.AnsweredWithinStretch` | SwiftApp/Pods/Alamofire/Source/AuthenticationInterceptor.swift:251-403 | so with a window every call is answered as long as the clock stays in a stretch of its length |
| `AuthLiveness.EveryTicketIsAStart` | SwiftApp/Pods/Alamofire/Source/AuthenticationInterceptor.swift:331-354 | every refresh that is noted is handed to the queue for one credential |
| `AuthLiveness.ReplacedExactly` | SwiftApp/Pods/Alamofire/Source/AuthenticationInterceptor.swift:308-326 | of all steps of the protocol, one starts the refresh of a credential that is not the current one if and only if it is the locked block of a retry whose credential was replaced after it was read, no refresh is under way, and the window is not exhausted |
| `AuthLiveness.RejectedCredentialRefreshedTwice` | SwiftApp/Pods/Alamofire/Source/AuthenticationInterceptor.swift:308-326 | a run in which a rejected credential is refreshed again after it was replaced |
| `MultipartFormat.RoundTrip` | SwiftApp/Pods/Alamofire/Source/MultipartFormData.swift:64-77 | for any boundary and n >= 1 parts, decoding as in section 5.1.1 of RFC 2046 gives back exactly the headers and bodies, in order, if and only if every header can be told from its line and no line of a part starts with the dash-boundary |
| `MultipartFormat.NoLineStartsWithBoundary` | SwiftApp/Pods/Alamofire/Source/MultipartFormData.swift:64-77 | for a boundary without a carriage return that condition speaks of the lines of the part alone |
| `MultipartFormat.ContentRoundTrip` | SwiftApp/Pods/Alamofire/Source/MultipartFormData.swift:394-400 | the same for one part: exactly if no name holds a colon or breaks its line, and no value breaks its line |
| `MultipartFormat.HeaderIsLossless` | SwiftApp/Pods/Alamofire/Source/MultipartFormData.swift:394-400 | decoding a header line never loses bytes |
| `MultipartFormat.ContentIsLossless` | SwiftApp/Pods/Alamofire/Source/MultipartFormData.swift:394-400 | nor does decoding a header block and body |
| `MultipartFormat.NextDelimiter` | SwiftApp/Pods/Alamofire/Source/MultipartFormData.swift:64-77 | the first delimiter behind a part is the encoder's own exactly if no line of the part looks like one |
| `MultipartFormat.ContentInOctets` | SwiftApp/Pods/Alamofire/Source/MultipartFormData.swift:394-400 | header lines carry 58, 32 between name and value and end with 13, 10, as does the empty line behind them |
| `MultipartFormat.OnePartInOctets` | SwiftApp/Pods/Alamofire/Source/MultipartFormData.swift:64-77 | a form of one part, octet by octet |
| `MultipartFormat.MorePartsInOctets` | SwiftApp/Pods/Alamofire/Source/MultipartFormData.swift:64-77 | a form of more parts is the dash-boundary line, the first part, 13, 10 and the form of the others |
| `MultipartFormat.FormIsEnclosed` | SwiftApp/Pods/Alamofire/Source/MultipartFormData.swift:64-77 | a form starts with 45, 45, the boundary, 13, 10 and ends with 13, 10, 45, 45, the boundary, 45, 45, 13, 10 |
| `MultipartEncoder.StreamIs` | SwiftApp/Pods/Alamofire/Source/MultipartFormData.swift:402-422 | a stream that delivers chunks and then ends is their bytes; one that fails behind them is that error |
| `MultipartEncoder.BodyPart.EncodeBodyStream` | SwiftApp/Pods/Alamofire/Source/MultipartFormData.swift:402-431 | for any chunking: the bytes of the stream if their number is the declared one, otherwise the error |
| `MultipartEncoder.WriteBuffer` | SwiftApp/Pods/Alamofire/Source/MultipartFormData.swift:493-509 | for any partial writes: an error is the stream's; without one all bytes are written unless the stream was without space, and then a proper prefix of them |
| `MultipartEncoder.WriteBodyStream` | SwiftApp/Pods/Alamofire/Source/MultipartFormData.swift:452-476 | copies the stream for any chunking and any partial writes; if the stream was without space, bytes are missing and the others stand in order |
| `MultipartForm.MultipartFormData.Append` | SwiftApp/Pods/Alamofire/Source/MultipartFormData.swift:307-312 | adds a new part for the stream at the end and keeps the others |
| `MultipartForm.MultipartFormData.AppendFile` | SwiftApp/Pods/Alamofire/Source/MultipartFormData.swift:201-269 | appends the file's stream with its length, or keeps the first error |
| `MultipartForm.MultipartFormData.MarkBoundaries` | SwiftApp/Pods/Alamofire/Source/MultipartFormData.swift:329-330 | exactly the first part gets an initial and exactly the last a final boundary |
| `MultipartForm.MultipartFormData.ContentLength` | SwiftApp/Pods/Alamofire/Source/MultipartFormData.swift:103 | the sum of the declared lengths |
| `MultipartForm.MultipartFormData.EncodePart` | SwiftApp/Pods/Alamofire/Source/MultipartFormData.swift:375-392 | boundary, headers, body and closing boundary of one part |
| `MultipartForm.MultipartFormData.Encode` | SwiftApp/Pods/Alamofire/Source/MultipartFormData.swift:322-338 | the in-memory encoding of what was appended, or the first error; a form starts and ends with the octets of its dash-boundary lines |
| `MultipartForm.MultipartFormData.WritePart` | SwiftApp/Pods/Alamofire/Source/MultipartFormData.swift:435-482 | the same bytes on the output stream, all of them exactly if it was not found without space |
| `MultipartForm.MultipartFormData.WriteEncodedData` | SwiftApp/Pods/Alamofire/Source/MultipartFormData.swift:347-371 | when it reports success, the streamed encoding of what was appended has been written if and only if the stream was never found without space; otherwise bytes are missing and the others stand in order; if the stream never fails, the outcome is success exactly if all bodies can be read |
| `MultipartForm.EncodeParts` | SwiftApp/Pods/Alamofire/Source/MultipartFormData.swift:307-338 | appending the parts and encoding them gives the in-memory encoding |
| `MultipartForm.WriteParts` | SwiftApp/Pods/Alamofire/Source/MultipartFormData.swift:307-371 | the same for the streaming encoder, on a stream with any plan |
| `MultipartForm.TruncatedWithoutError` | SwiftApp/Pods/Alamofire/Source/MultipartFormData.swift:497 | a form and a stream for which success is reported and bytes are missing |
| `MultipartForm.SameForms` | SwiftApp/Pods/Alamofire/Source/MultipartFormData.swift:402-476 | both encoders give the same result if and only if every part up to the first unreadable one has its declared length |
| `MultipartForm.ThresholdDoesNotMatter` | SwiftApp/Pods/Alamofire/Source/MultipartUpload.swift:46-71 | the upload does not depend on the memory threshold if and only if that is so |
| `MultipartForm.Build` | SwiftApp/Pods/Alamofire/Source/MultipartUpload.swift:46-71 | below the threshold the form is encoded in memory and no file is written; otherwise it is streamed to the file |
| `MultipartForm.WrongLengthIsReportedBelowThreshold` | SwiftApp/Pods/Alamofire/Source/MultipartUpload.swift:46-71 | a wrong length is reported if and only if the declared lengths add up to less than the threshold |
| `MultipartForm.EveryPartCounts` | SwiftApp/Pods/Alamofire/Source/MultipartFormData.swift:103 | every part counts with its declared length |
| `MultipartForm.ErrorsDiffer` | SwiftApp/Pods/Alamofire/Source/MultipartFormData.swift:424-428 | a wrong length is reported in memory and never by the streaming encoder |
| `MultipartForm.WrongLengthIsOnlyNoticedInMemory` | SwiftApp/Pods/Alamofire/Source/MultipartFormData.swift:424-428 | a stream for which the two differ |
| `MultipartForm.FormIsEncoding` | SwiftApp/Pods/Alamofire/Source/MultipartFormData.swift:322-338 | what either encoder produces is the encoding of the headers and the streams' bytes |
| `MultipartForm.EncodedFormsDecode` | SwiftApp/Pods/Alamofire/Source/MultipartFormData.swift:322-338 | and decodes to them, if and only if every part may be delimited |
| `QueryEncoding.QueryComponents` | SwiftApp/Pods/Alamofire/Source/ParameterEncoding.swift:188-211 | for arbitrarily nested values: one escaped component for every leaf, left to right, under the key that its path spells; a leaf stands under the key, and the items of an array of leaves stand under the key with 91, 93 behind it if brackets are asked for, and else under the key |
| `QueryEncoding.ComponentsOfArray` | SwiftApp/Pods/Alamofire/Source/ParameterEncoding.swift:196-199 | every item of an array, whatever it holds, stands under key + [91, 93] or under the key |
| `QueryEncoding.ComponentsOfDictionary` | SwiftApp/Pods/Alamofire/Source/ParameterEncoding.swift:192-195 | every entry of a dictionary stands under key + [91] + its key + [93] |
| `QueryEncoding.ComponentsOfLeaves` | SwiftApp/Pods/Alamofire/Source/ParameterEncoding.swift:196-209 | the components of an array of leaves one by one: a Boolean is 49 or 48, or the octets of true or false, anything else its description |
| `QueryEncoding.KeysSpellPaths` | SwiftApp/Pods/Alamofire/Source/ParameterEncoding.swift:188-211 | along the whole path of a leaf, its key is the octets of the steps behind the first key |
| `QueryEncoding.EscapeInOctets` | SwiftApp/Pods/Alamofire/Source/ParameterEncoding.swift:218-220 | an octet that is not allowed becomes 37 and two capital hexadecimal digits, and no other is changed |
| `QueryEncoding.OnePerLeaf` | SwiftApp/Pods/Alamofire/Source/ParameterEncoding.swift:188-211 | as many components as leaves |
| `QueryEncoding.EscapeRoundTrip` | SwiftApp/Pods/Alamofire/Source/ParameterEncoding.swift:218-220 | percent-decoding (section 2.1 of RFC 3986) undoes escaping |
| `QueryEncoding.EscapeAvoids` | SwiftApp/Pods/Alamofire/Source/ParameterEncoding.swift:218-220 | an escaped text is free of every delimiter that is not allowed |
| `QueryEncoding.DecodeConcat` | SwiftApp/Pods/Alamofire/Source/ParameterEncoding.swift:222-230 | reading a query is reading the two sides of any of its ampersands |
| `QueryEncoding.JoinRoundTrip` | SwiftApp/Pods/Alamofire/Source/ParameterEncoding.swift:222-230 | every list of components can be read back |
| `QueryEncoding.LosslessExactlyWhenSafe` | SwiftApp/Pods/Alamofire/Source/ParameterEncoding.swift:188-230 | every list of components can be read back if and only if the allowed characters contain no ampersand, no equals sign, and no percent sign beside a hexadecimal digit |
| `QueryEncoding.DefaultAllowedIsSafe` | SwiftApp/Pods/Alamofire/Source/URLEncodedFormEncoder.swift:969-975 | the default set is of that kind |
| `QueryEncoding.Query` | SwiftApp/Pods/Alamofire/Source/ParameterEncoding.swift:222-230 | the components of all parameters in the order of their sorted keys, joined |
| `QueryEncoding.IterationOrderIsIrrelevant` | SwiftApp/Pods/Alamofire/Source/ParameterEncoding.swift:225 | the order in which the dictionary of parameters is visited does not show |
| `QueryEncoding.NestedOrderIsRelevant` | SwiftApp/Pods/Alamofire/Source/ParameterEncoding.swift:191-194 | the order in which a nested dictionary is visited does |
| `NestedOrder.OrderShowsExactly` | SwiftApp/Pods/Alamofire/Source/ParameterEncoding.swift:191-194 | for any nested dictionary: its order never shows if and only if what any two entries contribute commutes |
| `NestedOrder.NestedOrderShows` | SwiftApp/Pods/Alamofire/Source/ParameterEncoding.swift:191-194 | for keys without a closing bracket: the order shows if and only if two entries have leaves |
| `NestedOrder.BracketsMayCoincide` | SwiftApp/Pods/Alamofire/Source/ParameterEncoding.swift:191-194 | with a closing bracket in a key, different entries can contribute the same component |
| `QueryEncoding.RequestRoundTrip` | SwiftApp/Pods/Alamofire/Source/ParameterEncoding.swift:155-180 | the finished URL reads as what was there before and then one component per leaf, also where all parameters are empty and the query ends with an ampersand |
| `HeaderList.HTTPHeaders.constructor` | SwiftApp/Pods/Alamofire/Source/HTTPHeaders.swift:32 | an empty list |
| `HeaderList.HTTPHeaders.FromArray` | SwiftApp/Pods/Alamofire/Source/HTTPHeaders.swift:36-50 | the list after updating with the headers one by one; no two names are equal ignoring case |
| `HeaderList.HTTPHeaders.UpdateHeader` | SwiftApp/Pods/Alamofire/Source/HTTPHeaders.swift:55-85 | the last write wins: a header with that name is replaced where it stands, a new one goes to the end |
| `HeaderList.HTTPHeaders.RemoveName` | SwiftApp/Pods/Alamofire/Source/HTTPHeaders.swift:90-94 | removes the header with that name ignoring case and nothing else |
| `HeaderList.HTTPHeaders.SortInPlace` | SwiftApp/Pods/Alamofire/Source/HTTPHeaders.swift:97-108 | orders the headers by their lower-case names and changes nothing else |
| `HeaderList.HTTPHeaders.SetValue` | SwiftApp/Pods/Alamofire/Source/HTTPHeaders.swift:125-134 | the subscript updates or removes |
| `HeaderList.HTTPHeaders.Value` | SwiftApp/Pods/Alamofire/Source/HTTPHeaders.swift:116-120 | the lookup in the dictionary that the list stands for |
| `HeaderList.HTTPHeaders.Dictionary` | SwiftApp/Pods/Alamofire/Source/HTTPHeaders.swift:139-143 | maps exactly the names of the headers to their values |
| `HeaderList.IndexOf` | SwiftApp/Pods/Alamofire/Source/HTTPHeaders.swift:327-330 | the first header with that name ignoring case, or none |
| `HeaderList.RunIsWellFormed` | SwiftApp/Pods/Alamofire/Source/HTTPHeaders.swift:36-108 | after any sequence of operations no two names are equal ignoring case |
| `HeaderList.HeldAsLastWritten` | SwiftApp/Pods/Alamofire/Source/HTTPHeaders.swift:78-120 | what is held under a key is the header that was last stored there, with the name as it was spelled then |
| `HeaderList.LookupFindsLastWrite` | SwiftApp/Pods/Alamofire/Source/HTTPHeaders.swift:78-120 | after any sequence of operations a lookup finds what was last stored under the name ignoring case, unless it was removed since |
| `HeaderList.PositionsAreKept` | SwiftApp/Pods/Alamofire/Source/HTTPHeaders.swift:78-94 | updates never move a header, and removals move none past another |
| `HeaderList.AbstractIsOneToOne` | SwiftApp/Pods/Alamofire/Source/HTTPHeaders.swift:27-120 | a list is determined by the dictionary and order it stands for |
| `HeaderList.SortHeaders` | SwiftApp/Pods/Alamofire/Source/HTTPHeaders.swift:97-99 | sorting changes no lookup, and orders the keys as sorting them would |
| `HeaderList.RebuildingKeepsLookups` | SwiftApp/Pods/Alamofire/Source/HTTPHeaders.swift:44-143 | a list rebuilt from its dictionary, visited in any order, finds the same values |
| `HeaderList.DictionaryOrderIsIrrelevant` | SwiftApp/Pods/Alamofire/Source/HTTPHeaders.swift:42-48 | what a list built from a dictionary finds is independent of the order of visiting if and only if names that are equal ignoring case carry equal values |
| `Sorting.SortSorts` | SwiftApp/Pods/Alamofire/Source/HTTPHeaders.swift:97-99 | sorting returns the same elements in order |
| `Sorting.SortedIsUnique` | SwiftApp/Pods/Alamofire/Source/HTTPHeaders.swift:97-99 | without ties there is only one sorted order, so it does not matter how the library sorts |
| `SelectChain.FirstRow` | SwiftApp/Pods/WCDBOptimizedSQLCipher/parse.c:3636-3642 | rule 89: a chain of one row |
| `SelectChain.NextRow` | SwiftApp/Pods/WCDBOptimizedSQLCipher/parse.c:3643-3658 | rule 90: the chain grows by a row; SF_MultiValue is on the new head only |
| `SelectChain.AsOneTerm` | SwiftApp/Pods/WCDBOptimizedSQLCipher/parse.c:3586-3592 | several rows on the right become a subquery whose chain is doubly linked, without an error |
| `SelectChain.Attach` | SwiftApp/Pods/WCDBOptimizedSQLCipher/parse.c:3593-3600 | the operand goes behind the chain so far, SF_MultiValue is cleared |
| `SelectChain.NextOperand` | SwiftApp/Pods/WCDBOptimizedSQLCipher/parse.c:3580-3605 | rule 83 as a whole |
| `SelectChain.LinkTerms` | SwiftApp/Pods/WCDBOptimizedSQLCipher/parse.c:102-105 | pNext becomes the inverse of pPrior on the whole chain |
| `SelectChain.ParserDoubleLinkSelect` | SwiftApp/Pods/WCDBOptimizedSQLCipher/parse.c:97-113 | links a compound chain, and reports an error exactly if the limit is positive and a chain whose head lacks SF_MultiValue has more terms |
| `SelectChain.BuildSelect` | SwiftApp/Pods/WCDBOptimizedSQLCipher/parse.c:3541-3579 | for every SELECT statement: an acyclic chain of exactly its terms, pNext inverse to pPrior, SF_MultiValue on the head of a pure multi-row VALUES only, and the error exactly when the limit is exceeded |
| `SelectChain.TermsAsWritten` | SwiftApp/Pods/WCDBOptimizedSQLCipher/parse.c:3541-3605 | the terms stand in the order of the operands, each with the operator in front of it; rows of the first operand are terms of their own, several rows of a later one a subquery |
| `ExprDesugar.MeaningIsKept` | SwiftApp/Pods/WCDBOptimizedSQLCipher/parse.c:4253-4366 | for every expression the rewritten tree evaluates to the same three-valued result as what was written, in every environment |
| `ExprDesugar.BetweenMeans` | SwiftApp/Pods/WCDBOptimizedSQLCipher/parse.c:4299-4312 | NOT BETWEEN is the negation of BETWEEN |
| `ExprDesugar.InTreeMeans` | SwiftApp/Pods/WCDBOptimizedSQLCipher/parse.c:4314-4366 | empty, one-element and longer lists keep the meaning of section 8.4 of ISO/IEC 9075-2, with the empty list false |
| `ExprDesugar.DesugaredIsReduced` | SwiftApp/Pods/WCDBOptimizedSQLCipher/parse.c:4253-4366 | no IN list with fewer than two elements and no comparison with the literal NULL by IS is left |
| `ExprDesugar.BinaryToUnaryIfNull` | SwiftApp/Pods/WCDBOptimizedSQLCipher/parse.c:155-162 | turns the node into a unary test exactly if the right operand is NULL |
| `ExprDesugar.RuleIs` | SwiftApp/Pods/WCDBOptimizedSQLCipher/parse.c:4263-4278 | rules 192 and 193 |
| `ExprDesugar.RuleBetween` | SwiftApp/Pods/WCDBOptimizedSQLCipher/parse.c:4299-4312 | rule 199 |
| `ExprDesugar.RuleIn` | SwiftApp/Pods/WCDBOptimizedSQLCipher/parse.c:4314-4366 | rule 202 |
| `ExprDesugar.Build` | SwiftApp/Pods/WCDBOptimizedSQLCipher/parse.c:4253-4366 | the actions, from the leaves up, build the rewritten tree of every expression |
| `KeywordTables.EveryChar` | SwiftApp/Pods/WCDBOptimizedSQLCipher/keywordhash.h:27-63 | the text holds capital letters and underscores only |
| `KeywordEntries.EveryKeyword` | SwiftApp/Pods/WCDBOptimizedSQLCipher/keywordhash.h:65-152 | every keyword lies within the text, starts and ends with a letter, and is reached on the chain of its bucket before any entry with the same text |
| `KeywordHash.VariantsShareBucket` | SwiftApp/Pods/WCDBOptimizedSQLCipher/keywordhash.h:160-161 | every case variant of a keyword lands in its bucket, for any map that folds the case of letters |
| `KeywordHash.UpperToLowerFoldsCase` | SwiftApp/Pods/WCDBOptimizedSQLCipher/src/global.c:24-43 | the ASCII map is one |
| `KeywordHash.TextsAreUnique` | SwiftApp/Pods/WCDBOptimizedSQLCipher/keywordhash.h:27-121 | no two keywords have the same text |
| `KeywordHash.KeywordCode` | SwiftApp/Pods/WCDBOptimizedSQLCipher/keywordhash.h:156-313 | for every byte string the hash lookup writes the code of the one keyword that a search through the list finds under the mask, and nothing if there is none; all table and text accesses are in bounds and the chain ends |
| `KeywordHash.Sqlite3KeywordCode` | SwiftApp/Pods/WCDBOptimizedSQLCipher/keywordhash.h:314-318 | that code, or TK_ID |
| `KeywordHash.Sqlite3KeywordCheck` | SwiftApp/Pods/WCDBOptimizedSQLCipher/keywordhash.h:327-329 | true exactly for the strings that match a keyword under the mask |
| `KeywordHash.Sqlite3KeywordName` | SwiftApp/Pods/WCDBOptimizedSQLCipher/keywordhash.h:320-325 | fails exactly out of range, and otherwise delivers the text of the keyword, within the table |
| `KeywordHash.NamesAreKeywords` | SwiftApp/Pods/WCDBOptimizedSQLCipher/keywordhash.h:320-329 | every name so delivered is recognised |
| `KeywordNames.EveryKeywordIsNamed` | SwiftApp/Pods/WCDBOptimizedSQLCipher/parse.c:1123-1278 | the code of every keyword is that of the token with its name in the token list of the parser, but for the words that share a token |
| `KeywordNames.CodesAreTokens` | SwiftApp/Pods/WCDBOptimizedSQLCipher/keywordhash.h:156-318 | what the lookup finds for a string is the token of the word that the string is a variant of |
| `KeywordNames.WordIsFound` | SwiftApp/Pods/WCDBOptimizedSQLCipher/keywordhash.h:156-318 | every listed word is found in any case, with its listed token |
| `KeywordHash.MatchesAreCaseVariants` | SwiftApp/Pods/WCDBOptimizedSQLCipher/keywordhash.h:165-167 | the mask accepts exactly the strings of the keyword's length that carry its letters in either case and, for an underscore, an underscore or the delete character |
| `KeywordHash.DeleteForUnderscore` | SwiftApp/Pods/WCDBOptimizedSQLCipher/keywordhash.h:156-169 | CURRENT_DATE with the delete character for its underscore is taken for the keyword |

## Left out

- The 528 states of the full parser: the theorems hold for any tables that meet the conditions, and only the tables of the fragment are written out.
- The semantic values of the parser are parse trees; of the reduce actions only those for compound SELECT, IN, BETWEEN and IS are modelled.
- Error recovery, tracing, coverage and a growing stack: they are disabled in this configuration.
- The tokenizer: `RunParser` starts from the tokens it delivers, including the two that it adds at the end of the input, and does not model interruption or the limit on the length of the text.
- `input ::= cmdlist` is accepted through the start symbol; the end-of-input marker is the token 0 of the original.
- Affinity and collation of comparisons, row values, and the rename mode in expressions; allocation failures everywhere.
- Freed objects: an operand that the original deletes is simply no longer reachable.
- WITH clauses and the parts of a single SELECT: one number stands for everything written in a term.
- Opening and closing of streams, file-system checks, MIME types, random boundaries and the headers that `append` builds: a part is appended with its headers, its stream and its declared length.
- The temporary file of an upload: creating its directory, and removing it after a failed write.
- Encoding a form a second time or after more appends: the boundary flags are sticky and that is a different contract.
- The 64-bit width of body lengths and of their sum.
- In `QueryEncoding`, strings that have no UTF-8 form, and the order of texts, which is any strict total order.
- In `HeaderList`, how names are put into lower case: any function of the name.
- EBCDIC, and identifiers of 2^31 bytes and more, in the keyword lookup.
- JSON encoding, the Codable encoders, and everything in the application's own user interface.
