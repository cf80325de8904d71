# Verification models of the core library

Ten Dafny modules, with `Common.dfy` for what they share, model the parts of the library that carry an algorithm or a
protocol of their own, and prove what those parts are for. Operations that change fields, buffers or maps step by step are classes or methods with
loops; each is proved equal to a function of its inputs or of the old state, and the lemmas are about that function.
Concurrent code is a transition system with one atomic step per lock section or select branch, and the lemmas hold
for every interleaving. A store, queue or cron call that may fail takes the answer it gets as a parameter, so that a
statement over all parameters covers every pattern of failures.

`dafny verify dfyconfig.toml` checks the project. Every lemma carries `{:induction false}`: each induction is written
out, and no proof rests on a hypothesis that the verifier guesses.

| file | what it models |
|---|---|
| `SqlComments.dfy` | the removal of comments from migration scripts: a single pass that truncates its output refines "classify every byte, then drop" |
| `LocalStream.dfy` | the in-process gRPC stream: client sender, client receiver, handler, finisher and cancellation interleave over two one-slot channels |
| `JobScheduler.dfy` | the persistent job scheduler: stored entry ids against live cron entries, over start, stop, reload and rollback |
| `OpenApiRegistry.dfy` | the registry of OpenAPI documents: four indexes rebuilt by copy, lookups equal to scans |
| `Locale.dfy` | language candidates of an Accept-Language value |
| `Permissions.dfy` | the policy snapshot: the deduplicating join of roles, menus and APIs, and the start-up synchronisation |
| `LogPipeline.dfy` | the bounded log buffer with close and drain, the 63-bit key of a message id, the idempotent consumer |
| `TenantScope.dfy` | the recursive walk that fills in and checks tenant ids of a request |
| `ResponseLog.dfy` | the search for oversized collections in logged responses and the statistics it uses |
| `ServicePackages.dfy` | the inference of each service's protobuf package from an OpenAPI document, and the records of its operations |

## Findings

Statements one might expect of the code that do not hold, each with its input or its exact condition:

- Stripping a script twice removes more than stripping it once exactly if, in the script, only comments stand between two code bytes that open a comment where they meet: a slash and a star, or two dashes before white space or the end (`SqlComments.IdempotentIff`; `--#` before a line feed is such a script, `SqlComments.StrippingIsNotIdempotent`).
- A handler that returns io.EOF itself, as one does that passes on the error of a RecvMsg after the client has closed its side, makes the client see an io.EOF that is neither complete nor final: a message may still be in the slot and is delivered by the next RecvMsg (`LocalStreams.MessageAfterEndOfStream`). Among the results of finish this is the only such one (`LocalStreams.ClientEndOfStreamIsFinal`, `LocalStreams.EndOfStreamForEver`).
- A server that still receives after its handler returned nil can be told io.EOF while a message is on its way (`LocalStreams.PrematureEndOfStream`); an io.EOF is complete exactly if the client has closed its side and the slot is empty (`LocalStreams.ServerEndOfStreamIsCompleteIff`), which a running handler can rely on (`LocalStreams.ServerEndOfStreamHasAll`).
- A log message is acknowledged and lost exactly if its key was already held by another event (`LogPipeline.AcknowledgedIsLostIff`). Message ids `1-0` and `01-0` share a key (`LogPipeline.LeadingZeroLosesAMessage`), and so may hashed ids.
- After a restart the cron ids start again while stored ids survive. A reload that reports success then loses a job exactly if a later job was stored under an id this reload hands out (`JobScheduler.ReloadCompleteIffNoCollision`, `JobScheduler.StaleIdsLoseAJob`).
- A failed reload leaves entries live that it handed out exactly if what failed was the stop of a job after an enabled one that still has its new entry: only a failed start is rolled back (`JobScheduler.FailedReloadUndoneIff`, `JobScheduler.RefusedStopKeepsAJob`).
- A stop or a start whose caller passes a record with an outdated entry id, while none is stored, removes the entry of whichever job has that id by now (`JobScheduler.StopLeavesOthersIffHonest`, `JobScheduler.StartLeavesOthersIffHonest`).
- When the store makes an update of the entry id of a live job and reports an error all the same, the entry stays live with no record of it (`JobScheduler.LostUpdateStrandsAnEntry`); a single stop or start loses the agreement exactly then (`JobScheduler.StopKeepsAgreementIff`, `JobScheduler.StartKeepsAgreementIff`).
- A tenant id below a message of a type that it already lies in is neither filled nor checked (`TenantScope.ForeignIdPassesBelowItsType`); every id is in reach exactly if those on a path on which a type repeats also lie on one on which none does (`TenantScope.EveryIdInReachIff`).

## Model

| member | source | states |
|---|---|---|
| SqlComments.StripSqlComments | resource/migration/description.go:179-348 | for every byte sequence the single truncating pass returns what is left when every byte is classified by a lexer that knows no lines and then comments, indentation of comments, and comment-only lines with their breaks are dropped |
| SqlComments.LexCoversInput | resource/migration/description.go:167-176 | the classification covers every input byte once, in place |
| SqlComments.LexIsByRegion | resource/migration/description.go:231-345 | where the reading stands in code, what opens and where it ends is read off the bytes alone: a quoted text to its first delimiter that is neither escaped nor doubled, a block comment to its first star and slash, a line comment to before the first CR or LF, any other byte alone |
| SqlComments.RegionIsClassified | resource/migration/description.go:231-345 | exactly that stretch has that kind, and the reading is back in code where it ends |
| SqlComments.DroppedOnLine | resource/migration/description.go:247-302 | inside a line a byte goes exactly if the line is comment-only, the byte is comment, or it lies before the last comment that only blanks and comments precede; blanks after a standalone comment at the end of input stay |
| SqlComments.BreakDropped | resource/migration/description.go:189-230 | a line break, CR LF taken as one, goes exactly when its line is blanks and at least one comment |
| SqlComments.LineRetained | resource/migration/description.go:189-302 | what an open line contributes: nothing if comment-only, else its visible bytes after the cut |
| SqlComments.CutIsLastLeadingComment | resource/migration/description.go:247-302 | the place the pass truncates to is the end of the last comment that only blanks and comments precede |
| SqlComments.TurnKeepsStep | resource/migration/description.go:189-345 | every turn of the loop, whatever its branch, keeps state, flags, line start and output in step with the two-stage description |
| SqlComments.CommentLineTurn | resource/migration/description.go:189-230 | the truncation at a line break erases exactly the open comment-only line and its break |
| SqlComments.TextLineTurn | resource/migration/description.go:189-230 | any other line stays with its break |
| SqlComments.RunWritesRetained | resource/migration/description.go:185-347 | from any state in step, the loop ends with the retained bytes |
| SqlComments.OnlyBlanksGo | resource/migration/description.go:189-302 | besides comment bytes only spaces, tabs and line breaks in code ever go |
| SqlComments.CommentOnlyLineGoes | resource/migration/description.go:189-230 | a line of spaces and tabs, a comment, and more spaces and tabs goes with its line break, CR LF included |
| SqlComments.RetainedPicks | resource/migration/description.go:179-348 | the output is a subsequence of the input |
| SqlComments.QuotedBlockSurvives | resource/migration/description.go:231-345 | every run of quoted bytes, escapes and doubled quotes included, comes out as one block, in order |
| SqlComments.UnchangedIffNoComment | resource/migration/description.go:179-348 | a script comes back unchanged exactly when no comment opens in it |
| SqlComments.StrippingIsNotIdempotent | resource/migration/description.go:179-348 | `--#` before a line feed becomes `--` before a line feed, which strips to nothing |
| SqlComments.IdempotentIff | resource/migration/description.go:179-348 | for every script, a second stripping changes nothing exactly if its classification has no two code bytes, with only comments between, that open a comment where they meet |
| SqlComments.OutputReadsAlike | resource/migration/description.go:179-348 | a reading of the output meets a comment exactly if such a joint is still to come in the input, from every pair of corresponding places |
| SqlComments.JointOpens | resource/migration/description.go:247-283 | a code byte that stays opens a comment in the output exactly if it is a joint |
| SqlComments.NextTextStays | resource/migration/description.go:189-230 | text that stays and is no line break is followed by text that stays: what is dropped with a comment line never joins two texts |
| LocalStreams.LocalStream.constructor | client/localgrpc/conn.go:580-585 | a new stream is empty and open |
| LocalStreams.LocalStream.SetHeader | client/localgrpc/conn.go:267-275 | the header grows by the join unless it was sent or the stream is finished |
| LocalStreams.LocalStream.SendHeader | client/localgrpc/conn.go:278-289 | the same, and the header is sent |
| LocalStreams.LocalStream.MarkHeaderReady | client/localgrpc/conn.go:469-471 | headerReady is closed on the first call only |
| LocalStreams.LocalStream.SetTrailer | client/localgrpc/conn.go:292-298 | the trailer grows by the join until the stream is finished |
| LocalStreams.LocalStream.BeginServerSend | client/localgrpc/conn.go:311-336 | the server's send freezes the header, or after the end returns the result |
| LocalStreams.LocalStream.TrySend | client/localgrpc/conn.go:311-367 | a message enters a channel exactly if its one slot is free |
| LocalStreams.LocalStream.TryReceive | client/localgrpc/conn.go:500-557 | the message in the slot is taken out, in either direction |
| LocalStreams.LocalStream.CloseSend | client/localgrpc/conn.go:381-390 | the client's side is closed on the first call only |
| LocalStreams.LocalStream.Finish | client/localgrpc/conn.go:454-461 | the lock section of finish stores the result and freezes header and trailer |
| LocalStreams.LocalStream.CloseDone | client/localgrpc/conn.go:454-461 | finish ends by closing done |
| LocalStreams.StepKeepsInv | client/localgrpc/conn.go:260-557 | every atomic step of every goroutine keeps conservation, single closing, the header freeze and the soundness of what was returned |
| LocalStreams.RunKeepsInv | client/localgrpc/conn.go:260-557 | so does every interleaving |
| LocalStreams.DeliversInOrder | client/localgrpc/conn.go:311-390 | in every interleaving and each direction: SendMsg calls report in order and with their own messages, and the messages of those that returned nil are those that RecvMsg has returned or is about to return, in order and once, followed by the at most one in the slot |
| LocalStreams.SendEndsForCause | client/localgrpc/conn.go:311-367 | a SendMsg that does not return nil returns io.EOF after the client's own CloseSend, the result of finish, or the context's error once cancelled |
| LocalStreams.EndIsDecidedOnEmptySlot | client/localgrpc/conn.go:500-557 | on either side io.EOF is decided on only when everything sent so far has been received, unless the handler itself returned it |
| LocalStreams.ClientEndOfStreamIsFinal | client/localgrpc/conn.go:533-557 | for every result of finish: in every run that ends with it, a client told io.EOF has everything the server sent or will ever send, exactly if the result is not io.EOF itself |
| LocalStreams.EndOfRunIsFinal | client/localgrpc/conn.go:533-557 | in each single run whose handler did not return io.EOF, an io.EOF at the client is complete, final and for ever |
| LocalStreams.MessageAfterEndOfStream | client/localgrpc/conn.go:533-557 | a run in which the handler returns io.EOF and the client is told io.EOF, then delivered a message |
| LocalStreams.ServerEndOfStreamHasAll | client/localgrpc/conn.go:500-531 | over every interleaving, a running handler that was told io.EOF has everything the client has sent and will ever send |
| LocalStreams.ServerEndOfStreamIsFinalIffClosed | client/localgrpc/conn.go:500-531 | when io.EOF is about to be returned to the server, the client sends nothing more exactly if it has closed its side |
| LocalStreams.ServerEndOfStreamIsCompleteIff | client/localgrpc/conn.go:500-531 | in every interleaving, the server then has all the client ever sends exactly if that side is closed and the slot empty |
| LocalStreams.PrematureEndOfStream | client/localgrpc/conn.go:519-530 | an interleaving after which the server was told io.EOF and lacks a message |
| LocalStreams.RunAfterEnd | client/localgrpc/conn.go:311-390 | after finish, or after CloseSend, that side sends nothing more and the result does not change |
| LocalStreams.ResultIsThatOfFinish | client/localgrpc/conn.go:454-467 | the result of the stream is what finish was called with, in every interleaving |
| LocalStreams.EndsAreBroughtAbout | client/localgrpc/conn.go:381-390 | the client's side is closed, and the context cancelled, exactly if some action of the run did so |
| LocalStreams.NoChannelClosedTwice | client/localgrpc/conn.go:381-471 | no interleaving closes clientSendDone, done or headerReady twice |
| LocalStreams.HeaderIsJoin | client/localgrpc/conn.go:267-289 | the header is the join of the metadata set before it was sent, whatever happens later |
| LocalStreams.JoinKeepsEveryValue | client/localgrpc/conn.go:267-298 | joined metadata hold every value of every key, in the order of the calls, and no other key |
| LocalStreams.HeaderPassesIffMarked | client/localgrpc/conn.go:393-407 | a Header call is let through exactly if SendHeader, a SendMsg of the server or finish has marked the header ready |
| LocalStreams.HeaderResultsAgree | client/localgrpc/conn.go:393-407 | all successful Header calls on a stream return that join |
| LocalStreams.TrailerIsJoin | client/localgrpc/conn.go:292-298 | the trailer is the join of the SetTrailer calls before finish |
| LocalStreams.FinalReportHasWholeTrailer | client/localgrpc/conn.go:370-428 | a receive that ends with io.EOF or the handler's error writes back that whole join |
| LocalStreams.ReportHasTrailerSoFar | client/localgrpc/conn.go:370-428 | every RecvMsg, however it ends, writes back the join of the trailers set before its return and before finish |
| LocalStreams.ClientNeverStuckAfterFinish | client/localgrpc/conn.go:348-407 | once finish has closed done, every client send, receive and Header call under way has an enabled step |
| LocalStreams.BlockedIff | client/localgrpc/conn.go:311-557 | a call under way is blocked exactly in its select: a send while the slot is taken, a receive while it is empty, and either only as long as nothing it selects on has happened |
| LocalStreams.CallsMayBegin | client/localgrpc/conn.go:260-461 | whatever has happened before, a call may begin exactly if the usage contract lets it |
| LocalStreams.AtMostOneMoreMessage | client/localgrpc/conn.go:533-557 | after finish at most one more message reaches the client |
| LocalStreams.EndOfStreamForEver | client/localgrpc/conn.go:533-557 | for every result of finish: in every run that ends with it, after io.EOF every receive returns io.EOF, or the context's error once cancelled, exactly if the result is not io.EOF itself |
| LocalStreams.ReceiveAfterFinish | client/localgrpc/conn.go:533-557 | a receive after finish returns the message left in the slot, else what finish decided |
| JobScheduler.Scheduler.StopJob | job/scheduler.go:120-143 | stopping under every pattern of refusals: the new store, live entries and record |
| JobScheduler.Scheduler.StartJob | job/scheduler.go:171-224 | starting under every pattern of refusals, with every state on the way |
| JobScheduler.Scheduler.ReloadJobs | job/scheduler.go:258-292 | the reload loop with its rollback from the last started job to the first |
| JobScheduler.Scheduler.Reload | job/scheduler.go:77-85 | a reload sets the execution context before the jobs |
| JobScheduler.Scheduler.ClearExecutionContext | job/scheduler.go:88-95 | the execution context goes, nothing else |
| JobScheduler.Scheduler.UpdateEntryId | job/scheduler.go:310-312 | the stored entry id changes; a failing call changes nothing or has been made all the same |
| JobScheduler.Scheduler.ServerStart | job/server.go:36-66 | the whole state after a start: a refused transport changes nothing, a reload that fails is followed by the removal of every live entry and of the execution context |
| JobScheduler.Scheduler.ServerStop | job/server.go:69-89 | stopping removes every live entry and the execution context |
| JobScheduler.EveryRunKeepsRecords | job/scheduler.go:77-312 | over every run of calls the store keeps every record but for its entry id, so a later reload reads the original enabled flags; the execution context is there exactly if the last call that concerns it was a reload |
| JobScheduler.RollbackGoesBackwards | job/scheduler.go:275-287 | a rollback goes from the last started job to the first, to the first stop that is refused: the jobs after that have lost their entry id, the others have not |
| JobScheduler.ToInt32 | job/scheduler.go:211 | the stored id is the cron id wrapped to 32 bits |
| JobScheduler.StopKeepsAgreement | job/scheduler.go:120-143 | whatever the store answers, a stop keeps store and cron server in agreement, but for the job if its update was made and reported as failed |
| JobScheduler.StartKeepsAgreement | job/scheduler.go:171-224 | so does a start |
| JobScheduler.StopKeepsAgreementIff | job/scheduler.go:120-143 | a stop loses the agreement exactly if the store drops the id of a live job and reports that it has not |
| JobScheduler.StartKeepsAgreementIff | job/scheduler.go:211-217 | a start loses it exactly if the store takes the new id of a live job and reports that it has not |
| JobScheduler.LostUpdateStrandsAnEntry | job/scheduler.go:211-217 | an input on which the old entry stays live and the removed one stays stored |
| JobScheduler.ReloadKeeps | job/scheduler.go:258-292 | a reload from any position, with its rollback, keeps the agreement but for jobs with such an update; and with stored ids running ahead, that live entries are the stored ones |
| JobScheduler.EveryRunAgrees | job/scheduler.go:77-292 | over every run of calls no stored id is another job's live entry, and every live entry is the one stored for its job but for jobs that had an update made and reported as failed |
| JobScheduler.EveryLiveEntryIsStored | job/scheduler.go:77-292 | whatever ids were stored before, over every run every live entry is the one stored for the job it runs, but for such jobs |
| JobScheduler.StartStealsIff | job/scheduler.go:197-222 | a start makes another job's stored id its own live entry exactly if that job is stored under the id handed out |
| JobScheduler.LiveIsLastlyStarted | job/scheduler.go:77-292 | after a run a job, unless it is such a job, is live exactly if its last accepted operation, rollbacks included, was a start, or it was live and not touched |
| JobScheduler.StopLeavesOthersIffHonest | job/scheduler.go:120-143 | a stop leaves all other jobs as they were exactly if the caller's record, where it counts, names no live entry |
| JobScheduler.StartLeavesOthersIffHonest | job/scheduler.go:183-192 | so does a successful start |
| JobScheduler.RestartNeverInterrupts | job/scheduler.go:171-224 | a live job that is started again is live at every intermediate point |
| JobScheduler.TraceIsOneCallEach | job/scheduler.go:171-224 | the states of a start lead from its begin to its end, each by one call of the cron server or of the store |
| JobScheduler.FailedStartChangesNothing | job/scheduler.go:171-224 | a failed start leaves the live entries as they were, and the stored ones too unless the update was made and reported as failed |
| JobScheduler.StartReplacesEntry | job/scheduler.go:171-224 | a successful start leaves the job with one live entry, the new one, stored for it |
| JobScheduler.ReloadRuns | job/scheduler.go:258-292 | what a reload that reports success has done to every job of the list |
| JobScheduler.ReloadComplete | job/scheduler.go:258-292 | with ids above all stored ones, a successful reload leaves one live, stored entry per enabled job and none for the others |
| JobScheduler.ReloadCompleteIffNoCollision | job/scheduler.go:258-292 | without that hypothesis, it does so exactly if no later job was stored under an id handed out before |
| JobScheduler.StaleIdsLoseAJob | job/scheduler.go:120-143 | an input on which a successful reload removes the entry it has just created |
| JobScheduler.FailedReloadUnlists | job/scheduler.go:275-287 | when a start is refused and the rollback is not, no entry that the reload handed out stays live, whatever ids were stored |
| JobScheduler.FailedReloadUndoneIff | job/scheduler.go:258-292 | read off the list and the refusals: a failed reload leaves nothing live that it handed out, unless the first refusal is a stop after an enabled job whose new entry no later stored id hit |
| JobScheduler.ReloadOkIff | job/scheduler.go:258-292 | a reload reports success exactly if nothing in its list is refused |
| JobScheduler.RefusedStopKeepsAJob | job/scheduler.go:264-268 | two jobs, the second not found: the reload fails and the first stays live |
| OpenApiRegistry.Registry.Register | resource/openapi/registry.go:68-127 | all documents are registered or none, and a failing call leaves the registry as it was |
| OpenApiRegistry.Registry.CollectApiKeys | resource/openapi/registry.go:276-294 | the keys are those of the operations whose member is an HTTP method |
| OpenApiRegistry.Registry.DocumentByOperationForLocale | resource/openapi/registry.go:199-215 | the indexed lookup equals a scan of the documents over the candidate locales, then the default |
| OpenApiRegistry.Registry.ParsedDocumentByOperationForLocale | resource/openapi/registry.go:218-240 | the cached content is that of the document the scan finds |
| OpenApiRegistry.Registry.DocumentsForLocale | resource/openapi/registry.go:147-178 | the registered documents at the best-ranked locale of their key, in registration order |
| OpenApiRegistry.Registry.HasDocumentsForLocale | resource/openapi/registry.go:243-256 | true exactly if that list is not empty |
| Common.JoinedKeysDiffer | resource/openapi/registry.go:297-309 | joined keys are equal only if their parts are |
| OpenApiRegistry.ClaimAdds | resource/openapi/registry.go:101-119 | the owner index takes a document's operations exactly if none is taken or named twice, and changes no other entry |
| OpenApiRegistry.AcceptedIff | resource/openapi/registry.go:68-127 | a document is accepted exactly if it is well formed and is there already, or its key and locale are free, it can be decoded, and none of its operations, path and upper-cased method, occurs twice in it or in a document of its locale |
| OpenApiRegistry.RejectedFor | resource/openapi/registry.go:90-119 | why a document is rejected, in the order of the checks |
| OpenApiRegistry.RegisterAdds | resource/openapi/registry.go:68-127 | an accepted call appends the given documents that are not there yet, with normalised locales, in their order |
| OpenApiRegistry.AddedAre | resource/openapi/registry.go:68-127 | so that afterwards exactly the old and the given documents are there, the old ones in front |
| OpenApiRegistry.ApiKeysTellApart | resource/openapi/registry.go:297-299 | two operations have the same key exactly if their paths and upper-cased methods are the same |
| OpenApiRegistry.ContainsIffDeclares | resource/openapi/registry.go:276-299 | a document contains the key of an operation exactly if it has the operation under an HTTP method |
| OpenApiRegistry.EveryRunIsConsistent | resource/openapi/registry.go:68-127 | after every sequence of calls the four indexes agree |
| OpenApiRegistry.RegisterKeepsConsistent | resource/openapi/registry.go:68-127 | every accepted call keeps the agreement |
| OpenApiRegistry.OwnerIndexIsScan | resource/openapi/registry.go:199-240 | in one locale the owner index and the cache answer as a scan would |
| OpenApiRegistry.KeyIndexIsScan | resource/openapi/registry.go:147-178 | so does the key index |
| OpenApiRegistry.OneOwner | resource/openapi/registry.go:101-119 | in each locale an operation is in at most one document |
| OpenApiRegistry.LookupIs | resource/openapi/registry.go:199-240 | the lookup by path and method returns a document that has the operation, of the first candidate locale, the default one last, in which some document has, and none exactly if there is none |
| OpenApiRegistry.BestLocaleIsFirst | resource/openapi/registry.go:147-178 | the best locale is the first that has the key |
| OpenApiRegistry.BestDocumentsMembers | resource/openapi/registry.go:147-178 | a document is returned exactly if its locale is the best of its key |
| OpenApiRegistry.BestDocumentsInOrder | resource/openapi/registry.go:168-178 | the documents for a locale keep the order of registration |
| OpenApiRegistry.BestDocumentsDistinct | resource/openapi/registry.go:147-178 | no key is returned twice |
| OpenApiRegistry.EachKeyOnce | resource/openapi/registry.go:147-178 | exactly the keys available in some locale are returned, each once |
| OpenApiRegistry.SomeBestDocument | resource/openapi/registry.go:243-256 | there are documents exactly if some document is in one of the locales |
| Locale.ParseQuality | resource/locale/locale.go:58-92 | the quality of a part: 0 from the first invalid weight on, else the last weight, else 1 |
| Locale.ParsePreferences | resource/locale/locale.go:58-92 | the acceptable preferences, ranked |
| Locale.Candidates | resource/locale/locale.go:13-30 | the first occurrences in the truncation chains of the ranked preferences |
| Locale.AppendCandidate | resource/locale/locale.go:95-104 | an empty or seen candidate is not appended |
| Locale.PreferencesRanked | resource/locale/locale.go:58-92 | preferences go by strictly descending quality, then by position, and are exactly those of the parts whose language is neither empty nor a star and whose quality is not 0 |
| Locale.SplitIs | resource/locale/locale.go:58-63 | splitting loses nothing and leaves no separator in a part |
| Locale.WeightIs | resource/locale/locale.go:68-78 | a parameter name=text weighs exactly if its name is q and its text a number from 0 to 1, is invalid with another text, and is ignored with another name or without an equals sign |
| Locale.QualityIs | resource/locale/locale.go:67-79 | the quality is 0 if some weight is invalid, else the last weight, and 1 if there is none |
| Locale.RankingIsUnique | resource/locale/locale.go:85-91 | there is one such ranking, so any sort gives it |
| Locale.FirstOccurrencesAre | resource/locale/locale.go:95-104 | exactly the non-empty elements, none twice, in the order of first occurrence |
| Locale.ChainsHaveParents | resource/locale/locale.go:13-30 | the chains are closed under truncation and come from the preferences |
| Locale.ChainIs | resource/locale/locale.go:17-27 | a chain begins with its tag, each element is cut at its last hyphen for the next, and the last has none |
| Locale.CandidatesInOrder | resource/locale/locale.go:13-30 | before a candidate come only candidates of better preferences than the first that has it, and less truncated ones of the same |
| Locale.CandidatesClosed | resource/locale/locale.go:13-30 | no candidate is empty or repeated, and every non-empty truncation of one is one |
| Permissions.BuildCasbinRuleList | resource/biz/casbin_rule.go:136-184 | the triple-nested loop with its three indexes builds the rule list |
| Permissions.RuleListIsJoin | resource/biz/casbin_rule.go:136-184 | a rule is in the list exactly if some role of a known tenant names a menu, the last of its id, which names the operation of an API, the first of its operation, and the rule consists of just these |
| Permissions.RuleListDistinct | resource/biz/casbin_rule.go:160-181 | no rule appears twice |
| Permissions.RolesAppend | resource/biz/casbin_rule.go:159-181 | rules go in the order of the roles: more roles only add rules at the end |
| Permissions.RuleKeysDiffer | resource/biz/casbin_rule.go:160-181 | rules with the same deduplication key are the same |
| Permissions.FetchedMenusSuffice | resource/biz/casbin_rule.go:45-85 | fetching only the menus that roles refer to gives the same list as the whole menu table |
| Permissions.FetchedAre | resource/biz/casbin_rule.go:57-75 | the fetched menus are the stored ones that some role names |
| Permissions.PermissionCase.RebuildPolicyData | resource/biz/casbin_rule.go:45-85 | the stored snapshot becomes the rule list, or stays when the store refuses |
| Permissions.PermissionCase.RefreshPolicy | resource/biz/casbin_rule.go:88-133 | the policies in memory become the super rules and the complete stored rules, or stay |
| Permissions.PermissionCase.UpdateRoleMenus | resource/biz/base_tenant.go:62-74 | the row with the id gets the menus, no other changes |
| Permissions.PermissionCase.SyncTenantRoleMenus | resource/biz/base_tenant.go:35-77 | every administrator role gets the template's menus |
| Permissions.PermissionCase.Sync | resource/resource.go:79-117 | the phases in order: a refusal in the transaction changes nothing, one after it leaves the old policies in memory |
| Permissions.AdministratorsMatchTemplate | resource/resource.go:90-115 | after a successful synchronisation every administrator role of a tenant with a code may do exactly what the template's menus allow |
| Permissions.TemplateIs | resource/biz/base_tenant.go:35-54 | there is a template exactly if the default tenant is stored and has an administrator role, and it is that role |
| Permissions.SyncedRolesAre | resource/biz/base_tenant.go:56-75 | a synchronisation gives the template's menus to every administrator role and touches nothing else of the roles; without a template it touches none |
| Permissions.MemoryIs | resource/biz/casbin_rule.go:88-133 | in memory are exactly a rule of the super role for each API and the stored rules none of whose six parts is empty |
| Permissions.MemoryInOrder | resource/biz/casbin_rule.go:88-133 | the super rules in the order of the APIs, then the stored rules in theirs |
| Permissions.SuperHoldsEveryApi | resource/biz/casbin_rule.go:88-133 | the super role holds every API |
| LogPipeline.Pipeline.EmitEvent | biz/base_log.go:229-242 | an event is accepted exactly if the pipeline is open and the buffer not full, and is then last in it |
| LogPipeline.Pipeline.Receive | biz/base_log.go:245-258 | the worker takes the oldest event |
| LogPipeline.Pipeline.Close | biz/base_log.go:261-269 | the channel is closed on the first call only |
| LogPipeline.StepKeepsInv | biz/base_log.go:229-269 | every step of emitters, worker and closers keeps the pipeline's invariant; after the close nothing is accepted |
| LogPipeline.EveryRunConserves | biz/base_log.go:229-269 | in every interleaving nothing is sent on a closed channel, and accepted = handled ++ the one in hand ++ buffer with at most 2048 buffered |
| LogPipeline.EveryEventIsAccountedFor | biz/base_log.go:229-242 | in every interleaving each event given to Emit is accepted, dropped or still held by its emitter, and just one of these; the pipeline is closed exactly if some closer has locked it |
| LogPipeline.AcceptedIffRoom | biz/base_log.go:229-242 | an emitter that finds the pipeline open has its event accepted exactly if fewer than 2048 accepted events wait; one that finds it closed has it dropped |
| LogPipeline.BlockedIff | biz/base_log.go:245-269 | the worker is blocked exactly while it waits with an empty open buffer, a closer exactly while an emitter is inside or the worker runs |
| LogPipeline.CloseDrains | biz/base_log.go:261-269 | when close has returned every accepted event has been handled once, in order, for good |
| LogPipeline.CloserGetsAnswer | biz/base_log.go:245-269 | a waiting close always has a worker step or its own return enabled |
| LogPipeline.KeyOfStamp | biz/base_log.go:399-421 | on well-formed ids the shift and bitwise or give timestamp * 2^20 + sequence |
| LogPipeline.KeyInRange | biz/base_log.go:399-421 | the key never leaves the range of a non-negative int64 and is 0 for the empty id alone |
| LogPipeline.KeysFollowStamps | biz/base_log.go:399-421 | keys of well-formed ids are ordered as (timestamp, sequence) is, and equal only with it |
| LogPipeline.KeyRoundTrip | biz/base_log.go:399-421 | the key of a written id gives timestamp and sequence back |
| LogPipeline.KeysOfHashes | biz/base_log.go:414-420 | any other id has the low 63 bits of its hash for a key, 1 if they are 0; two such ids share a key exactly if those bits agree or are 0 and 1 |
| LogPipeline.DigitsJoin | biz/base_log.go:405-412 | the value of a number is that of its front shifted by the digits that follow, and of these |
| LogPipeline.ParseIntOfDigits | biz/base_log.go:405-412 | digits with at most one sign before them are an integer exactly if their value is in the int64 range |
| LogPipeline.ParseIntNeedsDigits | biz/base_log.go:405-412 | and nothing else is |
| LogPipeline.BitOrDisjoint | biz/base_log.go:399-421 | or-ing bits below a shift adds them |
| LogPipeline.LogSink.ConsumeMessage | biz/base_log.go:272-285 | one delivery: decode, normalise, insert, look up after a failed insert |
| LogPipeline.ConsumeByKind | biz/base_log.go:272-329 | which row goes to which table by the kind of the event, a missing one being api, and exactly when the delivery is acknowledged |
| LogPipeline.ConsumeOnce | biz/base_log.go:272-321 | a delivery adds at most one row, with its own event, keeps keys unique and is acknowledged only with a row under its key, which is its own event unless the table held the key with another |
| LogPipeline.Redelivery | biz/base_log.go:288-321 | delivering a stored message again changes nothing |
| LogPipeline.EveryAcknowledgedIsStored | biz/base_log.go:272-321 | under any redelivery and any failures there is at most one row per key, and for every acknowledged message a row under its key with the event of the delivery that put it there |
| LogPipeline.EveryRowWasPut | biz/base_log.go:288-321 | every row holds the event of the delivery that put it there |
| LogPipeline.AcknowledgedIsLostIff | biz/base_log.go:288-321 | an acknowledged message's own event is missing exactly if the table held its key with another event when it was delivered |
| LogPipeline.LeadingZeroLosesAMessage | biz/base_log.go:399-421 | two ids that differ in a leading zero: both are acknowledged, the second event is nowhere |
| TenantScope.TenantWalk.ApplyTenantId | server/middleware/tenant.go:155-177 | one tenant id: filled, kept or refused |
| TenantScope.TenantWalk.ApplyTenantScope | server/middleware/tenant.go:96-152 | the walk in place with its visited names, which it leaves as it found them |
| TenantScope.TenantWalk.Handle | server/middleware/tenant.go:23-42 | a request without a chain of messages to a field of the name passes untouched for every identity and for none; with such a chain it needs an identity and passes as the walk says |
| TenantScope.MessageDecides | server/middleware/tenant.go:96-152 | from any point of a walk, success and result depend only on the ids in reach and their values, and even a refused walk changes nothing but unset ids in reach |
| TenantScope.OrdinaryTenantIsConfined | server/middleware/tenant.go:96-177 | an ordinary tenant's request passes exactly if every id in reach is unset, negative or its own; then each unset one is its own and present, and nothing else ever changes |
| TenantScope.RefusalIsTheFirst | server/middleware/tenant.go:96-177 | a request is refused for the first id in the order of the walk that is to be refused on what it held at the beginning, and with the error of that id |
| TenantScope.DefaultTenantIsFree | server/middleware/tenant.go:155-160 | the default tenant's request is left as it is |
| TenantScope.ReachedIffOnChain | server/middleware/tenant.go:96-152 | an id is in reach exactly if it lies on a chain of valid messages on which no type repeats |
| TenantScope.IdsAreReachedOrMissed | server/middleware/tenant.go:96-105 | the ids of a message, on whatever path, are exactly those in reach and those on a path on which a type repeats |
| TenantScope.EveryIdInReachIff | server/middleware/tenant.go:96-105 | every id is in reach exactly if those on a path on which a type repeats also lie on one on which none does |
| TenantScope.ForeignIdPassesBelowItsType | server/middleware/tenant.go:96-105 | a request that passes with a foreign id below a repeated type |
| TenantScope.ScopeIsIdempotent | server/middleware/tenant.go:96-177 | applying the scope again passes and changes nothing |
| TenantScope.ShortcutIsSound | server/middleware/tenant.go:45-93 | when messageHasTenantField is false the walk is the identity |
| TenantScope.HasTenantFieldIff | server/middleware/tenant.go:45-92 | messageHasTenantField is true exactly if a chain of valid messages on which no type repeats ends in one with a field of the name, of whatever kind |
| TenantScope.OrderDoesNotMatter | server/middleware/tenant.go:118-134 | neither success nor the result depends on the order in which maps are iterated |
| ResponseLog.CollectMessageListStats | server/middleware/logging/response_log.go:223-237 | the count is the number of items in and below the list and the depth the deepest of them |
| ResponseLog.CollectMessageNodeStats | server/middleware/logging/response_log.go:240-253 | the same for one item and what is below it |
| ResponseLog.CollectMessageDescendantStats | server/middleware/logging/response_log.go:256-303 | the same for what is below a message; maps and single messages add no depth |
| ResponseLog.CollectMessageMapStats | server/middleware/logging/response_log.go:306-326 | the same for the values of a map |
| ResponseLog.FindLargeCollectionInMessage | server/middleware/logging/response_log.go:126-203 | the hit is the first list in document order that is too large, with its path and counts, and there is one exactly if some list is |
| ResponseLog.FindInItems | server/middleware/logging/response_log.go:134-176 | a list is reported by its own size or tree before anything in it |
| ResponseLog.FindLargeCollectionInMap | server/middleware/logging/response_log.go:206-220 | the same over the values of a map |
| ResponseLog.NothingReportedIffAllSmall | server/middleware/logging/response_log.go:126-220 | nothing is reported exactly if every list at any route of fields and elements has at most 20 items, 100 in and below it, and 5 levels |
| ResponseLog.ListingIsByRoute | server/middleware/logging/response_log.go:126-220 | the lists are those at the routes of the response, each once, in document order, with the names on the way joined by dots for a path |
| ResponseLog.PathIsDotted | server/middleware/logging/response_log.go:329-336 | the path below a parent is the parent and the names with a dot between each two |
| ResponseLog.HitSays | server/middleware/logging/response_log.go:134-189 | what the numbers of a hit say about the list that it names |
| ResponseLog.StatsAreOfLists | server/middleware/logging/response_log.go:223-326 | the count and depth of a list are those of the lists in it: all their items, and one more than the nesting of the deepest that has items |
| ResponseLog.NodesShift | server/middleware/logging/response_log.go:223-326 | counting from a deeper start makes every item that much deeper and adds none |
| ResponseLog.NestedInAcceptedIsSmaller | server/middleware/logging/response_log.go:152-176 | a list nested in a list has no larger count and strictly smaller depth |
| ResponseLog.TreeHitIsOutermost | server/middleware/logging/response_log.go:152-176 | a tree is only ever reported at a list that lies in no other |
| ServicePackages.CollectSchemaProtoPackages | resource/biz/base_api.go:269-282 | exactly the packages of the path's terminal that a reference at any depth of the schema names are added |
| ServicePackages.RefersIff | resource/biz/base_api.go:269-282 | a reference is found exactly if a chain of properties and array items leads to it |
| ServicePackages.OperationProtoPackages | resource/biz/base_api.go:241-263 | the same over parameters, request body and responses |
| ServicePackages.IndexCall | resource/biz/base_api.go:133-160 | one operation extends the candidates of its service and the packages of its terminal, and nothing else |
| ServicePackages.SelectPackages | resource/biz/base_api.go:162-184 | a service is mapped exactly if its own candidates are one package, or none and its terminal has one |
| ServicePackages.BuildServicePackageMap | resource/biz/base_api.go:127-185 | the whole inference gives every service the package it owns, and no other service one |
| ServicePackages.OrderDoesNotMatter | resource/biz/base_api.go:127-185 | two readings of a document that differ only in the order of paths, parameters, media types, responses or properties, at any depth, give the same map |
| ServicePackages.SameDocumentSameCalls | resource/biz/base_api.go:191-198 | such readings have the same operations but for the orders in them |
| ServicePackages.AllCallsAre | resource/biz/base_api.go:191-198 | the operations of a document are exactly those of its paths under GET, POST, PUT and DELETE |
| ServicePackages.PackageIsOfThePathTerminal | resource/biz/base_api.go:127-185 | every mapped package's terminal is the terminal of the path |
| ServicePackages.RecordNamesRpcOfItsTerminal | resource/biz/base_api.go:364-405 | an operation gets a record exactly if its service owns a package; the record names the RPC in that package, whose terminal is the path's, with the path and the method |
| ServicePackages.OpenApiDataToBaseApi | resource/biz/base_api.go:36-61 | the records of a document are exactly those of its operations under GET, POST, PUT and DELETE, each with its own method, made with the inferred packages |
| ServicePackages.RefOfPackage | resource/biz/base_api.go:288-304 | a reference to a message of a package gives the package back |
| ServicePackages.PackageOfRefIs | resource/biz/base_api.go:288-304 | and no other reference has a package |
| ServicePackages.VersionIs | resource/biz/base_api.go:309-311 | a version is a v and a digit, whatever follows |
| ServicePackages.TerminalOfPackage | resource/biz/base_api.go:316-323 | the terminal of a package is the segment before its version |
| ServicePackages.TerminalOfPath | resource/biz/base_api.go:228-235 | the terminal of a path is its third segment exactly if it is of the main version, whatever slashes are before and whatever follows |
| ServicePackages.OperationIdParts | resource/biz/base_api.go:204-211 | an operation id splits into service and verb exactly at its first underscore |
| ServicePackages.OperationIdElse | resource/biz/base_api.go:204-211 | an id of another form has neither |
| ServicePackages.KeyParts | resource/biz/base_api.go:216-223 | the key of a service gives terminal and service back |

## Left out

- Registration of services, unary calls, interceptors and call options of the in-process connection: wiring around the stream.
- SetContext and Context in `client/localgrpc/conn.go`; which error a handler returns beyond nil, io.EOF, the context's error and any other; copying a received message into a target of another type, which fails after the message was taken.
- The gRPC usage contract is part of the stream's steps: one sender and one receiver on each side, CloseSend not concurrent with the client's SendMsg, the handler's sends complete before it returns.
- Goroutine scheduling: the lemmas say which steps are enabled, not that an enabled step is taken.
- Store, cron server and database internals: a failing call is modelled as one that changes nothing, except an update of a job's entry id and an insert of a log row, which may be made and still reported as failed.
- ReloadComplete: holds for ids above every stored one (`Fresh`), because a cron server counts from its own start while stored ids survive it; ReloadCompleteIffNoCollision is the statement without the hypothesis.
- EveryRunAgrees: has the same hypothesis, sized by the ids the run may use up; EveryLiveEntryIsStored holds without it, and StartStealsIff says when the rest is lost.
- LiveIsLastlyStarted: has it too, and takes callers whose records name no outdated entry and reloads of the stored list; StopLeavesOthersIffHonest and StartLeavesOthersIffHonest are the statements about other records.
- Job execution, its locks, task arguments and cron expressions: only whether they are accepted is a parameter of a start.
- The mutexes of the scheduler and of its server: their entry points are atomic.
- YAML, JSON and protobuf decoding, BCP 47 normalisation, letter case, number parsing, FNV-1a and the sort library: functions that are parameters of the models, or in the case of sorting an insertion sort with a proof that the ranking is unique.
- RuleListIsJoin: takes codes and operations free of the NUL character that joins the deduplication key; RuleListDistinct needs no such hypothesis.
- EveryRunIsConsistent: takes documents whose normalised locales are free of NUL, the separator of the index keys; so do RegisterKeepsConsistent, RegisterAdds, AcceptedIff and RejectedFor.
- AcceptedIff: takes a library whose upper-cased HTTP methods are free of NUL, the separator of the operation keys; so do RejectedFor and ContainsIffDeclares, and LookupIs also of the method that is asked for.
- ListingIsByRoute: says of a path that it is the dotted names when the field of the response itself has a name, as fields have; below an empty first name the dot is missing.
- PackageIsOfThePathTerminal: takes paths free of NUL, the separator of the service keys.
- Locales and DocumentsByLocale of the OpenAPI registry: plain listings.
- Translations, menus and APIs as written to the database by the synchronisation beyond what the policies depend on.
- The queue that carries log messages, the fields of a log record, and the clocks and identifiers that fill in missing ones.
- Handle: an identity is present or not; reading it from the context is not part of the model.
- ApplyTenantScope: a tenant_id that is a member of a oneof, where filling it in would clear another member.
- Requests and responses are finite trees: message values that contain themselves through pointers are not part of the models.
- FindLargeCollectionInMessage: which of several oversized map values is reported depends on the order of iteration; that something is reported does not.
- The byte limit, the redaction and the rendering of logged responses.
- The descriptions, tool names and prompts of API records, and the sort of the list of records by operation.
- Removal of files, translations and version ordering in `resource/migration/description.go`: much easier than the comment stripper.
