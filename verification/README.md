# Verification models of the iOS web layer

Each module models one component of the repository and proves what the component is for. Objects
whose methods update fields are classes; every one of their methods is proved against a function on
the object's value (`Apply`, `Next`, `Post`, ...), and the theorems about whole runs are lemmas about
those functions. Protocols between threads are step systems whose theorems hold in every
interleaving.

| file | models |
|---|---|
| `WebThreadRegistry.dfy` | the registry of named threads, one call at a time: arrays, lock, lookup, posting |
| `WebThreadInterleaving.dfy` | the same operations as steps that other threads come between, for any number of IDs and threads; the invariant |
| `WebThreadRefinement.dfy` | the fine-grained runs refine atomic histories and always-locked runs; the main loop keeps the lifetime discipline |
| `WebThreadCalls.dfy` | the calls threads make against what takes effect; nobody gets stuck |
| `UrlDataManager.dfy` | the list of data sources to delete, one call at a time |
| `UrlDataInterleaving.dfy` | reference counts, the list and the wake-ups over every interleaving |
| `UrlDataLedger.dfy` | references and wake-ups told from the steps alone |
| `ServiceManagerConnection.dfy` | start, shut-down and loop destruction as events on a value; orderings |
| `ServiceManagerHistory.dfy` | where a connection stands, told from the events alone |
| `ServiceManagerContext.dfy` | the context and its self-deleting observer as objects that call each other |
| `StringOrder.dfy`, `CookieCache.dfy` | cookie sets, their difference, and the cache over whole histories |
| `UrlText.dfy`, `XCallbackUrl.dfy` | percent-encoding, query text, and x-callback-url URLs built and read back |
| `ChunkedUpload.dfy` | the upload coordinator as a value; reads, bytes, re-entrant callbacks as nested calls |
| `ChunkedStream.dfy` | the stream a caller sees, told from the calls alone, which the coordinator refines |
| `ChunkedDataStreamUploader.dfy` | the uploader object with completion callbacks that call back into it |
| `TimeSmoother.dfy` | timestamp smoothing in closed form |
| `CertificatePolicy.dfy` | remembered certificate decisions, bit masks and histories |
| `NotificationPromo.dfy` | a promo object and the record it keeps in prefs |
| `PromoHistory.dfy` | promo records over whole runs of any number of objects, each loaded once and acting any number of times |
| `HttpCacheHelper.dfy` | overlapping cache-clear requests |

## What turned out to need a condition

Five statements that the code or its comments suggest hold only under a condition. Each condition is
proved to be exact.

- **Sending a response.** `SendResponse` first asks whether the source is listed and then takes a
  reference; other threads come between. The question is answered no for a source that a running
  `DeleteDataSources` has swapped out (`SwappedOutIsNotCaught`; `SwappedOutHappens` reaches such a
  state). When a response is sent, the source can end up deleted twice exactly when it is not listed
  and the UI thread holds no reference of its own (`DeletedTwiceExactlyWhenNotHeld`). `Conservation`,
  `NothingLeaks` and `ListedIsDeletedByNextCall` are for the runs in which responses are sent with
  care in that sense; `NoLostWakeup` is for all runs.
- **Round trip of parameters.** Names are encoded when they are appended and not decoded when they
  are read, and an action with a `?` in it brings pairs of its own, which come first and therefore
  win. The parameters come back exactly when every name consists of characters the encoder keeps and
  the action's own pairs agree with what was asked for (`RoundTripExactlyWhen`).
- **Recognition of what was built.** What is built is recognised exactly when the scheme text is a
  URL scheme, or has a colon in it and, followed by another, is recognised already
  (`BuiltUrlIsRecognised`).
- **Smoothing.** A fresh smoother takes the null time for part of a run, so the closed form holds
  exactly when the first time is not the null time (`ClosedFormUnlessNullFirst`).
- **Promo records.** A promo object loads its record once and goes on acting on it, and the new tab
  page keeps one object for all of its life: it is viewed
  (`chrome/browser/ui/content_suggestions/content_suggestions_coordinator.mm:212-217`) and later
  closed (`chrome/browser/ui/content_suggestions/ntp_home_mediator.mm:332-336`) without loading
  again. So the stored record tells what has happened, all along a run, exactly when whatever is
  written for a promo is written by an object that loaded after the promo's last view, and no view is
  by an object that loaded it open before it was closed (`RightExactlyWhenKnown`). Under these
  conditions the cap holds, closing is for good and the first view time stays. Otherwise one object
  can be viewed any number of times, whatever the cap (`OneObjectIsNeverCapped`); closing after a
  view forgets the view (`CloseForgetsView`); a view after another object's close opens the promo
  again (`StaleViewReopens`); and an object without an id never loads, which is as bad
  (`UnsetIdIsNeverCapped`).

The comment in `web/public/web_thread.h` lists IDs by lifetime; the code also relies on each entry
being shut down by its own thread after the shorter-lived threads have been joined.
`MainLoopKeepsDiscipline` proves that the main loop does this.

## Model

| member | source | states |
|---|---|---|
| WebThreadRegistry.CurrentId | web/web_thread_impl.cc:305-320 | the current ID is the first whose runner belongs to the thread; none means no runner does |
| WebThreadRegistry.OutlivesExactlyWhen | web/web_thread_impl.cc:114-123 | the lock may be left alone exactly when the thread has a runner and none under a longer-lived ID than the target |
| WebThreadRegistry.WebThreadGlobals.RegisterThread | web/web_thread_impl.cc:217-234 | registering makes the entry RUNNING with the thread's runner, under one lock acquisition, and changes no other entry |
| WebThreadRegistry.WebThreadGlobals.ShutDownThread | web/web_thread_impl.cc:236-242 | shutting down makes the entry SHUTDOWN and leaves its runner |
| WebThreadRegistry.WebThreadGlobals.GetCurrentThreadIdentifier | web/web_thread_impl.cc:305-320 | the index loop finds the first entry of the calling thread and changes nothing |
| WebThreadRegistry.WebThreadGlobals.IsThreadInitialized | web/web_thread_impl.cc:269-278 | true exactly while the entry is RUNNING |
| WebThreadRegistry.WebThreadGlobals.CurrentlyOn | web/web_thread_impl.cc:281-288 | true exactly when the entry was registered for the calling thread, also after shut-down |
| WebThreadRegistry.WebThreadGlobals.PostTaskHelper | web/web_thread_impl.cc:107-147 | answers true exactly when the target is RUNNING, and then appends the task to its queue once; takes the lock a second time exactly when the target does not outlive the current thread |
| WebThreadInterleaving.NoRaceOn | web/web_thread_impl.cc:114-130 | no write to an entry's state or runner while another thread is about to read or write it, with or without the lock |
| WebThreadInterleaving.StepInv | web/web_thread_impl.cc:107-147 | every step of every thread keeps the invariant: lock ownership, registration order, runner presence, and what each thread may rely on where it stands |
| WebThreadRefinement.StepLog | web/web_thread_impl.cc:107-242 | every step keeps the log legal and the registry equal to what the log replays to |
| WebThreadRefinement.ReachableStates | web/web_thread_impl.cc:107-147 | in every interleaving there is no race, and the registry is what its legal log gives |
| WebThreadRefinement.RunnerThereWhenEnqueuing | web/web_thread_impl.cc:129-134 | between reading RUNNING and enqueuing, the target stays RUNNING and its runner is there, so the assertion on the runner never fails |
| WebThreadRefinement.RunnerExactlyWhenRegistered | web/web_thread_impl.cc:229-241 | a runner is present exactly when the state is RUNNING or SHUTDOWN, except between the two writes of a registration |
| WebThreadRefinement.FastRunsAreLockedRuns | web/web_thread_impl.cc:114-147 | whatever the version without the lock answers and enqueues, in whatever interleaving, the always-locking version can answer and enqueue too, and the other way round |
| WebThreadRefinement.LogsAreLegalHistories | web/web_thread_impl.cc:107-147 | with the optimisation or without it, the logs of runs are exactly the legal histories of the atomic registry |
| WebThreadCalls.CallsTakeEffect | web/web_thread_impl.cc:107-147 | in every run, whoever holds the lock, the posts, registrations and shut-downs that a thread makes are those that have taken effect for it, with the arguments and in the order they were made, followed by the one it is in the middle of |
| WebThreadCalls.CallsAreNotRefused | web/web_thread_impl.cc:107-113 | between calls a thread may post anything to any ID, and register or shut down what the discipline lets it once the lock is free |
| WebThreadCalls.CallsGoOn | web/web_thread_impl.cc:125-144 | in the middle of a call a thread can go on, or needs the lock of another that can |
| WebThreadCalls.LockLeftAloneExactlyWhen | web/web_thread_impl.cc:120-127 | the path without the lock is taken exactly when it may be |
| WebThreadRefinement.RegistryFromHistory | web/web_thread_impl.cc:77-102 | the state, runner and queue of an ID in terms of what has happened to it |
| WebThreadRefinement.PostsOverWholeRuns | web/public/web_task_traits.h:34-37 | over whole runs a task is accepted exactly when its target had been registered and not shut down; queues hold the accepted tasks, each once, in posting order |
| WebThreadRefinement.MainLoopKeepsDiscipline | web/app/web_main_loop.mm:122-216 | the next registration, shut-down or join of the main loop obeys the lifetime discipline, whatever has been posted; sub-threads register in RegisterAsWebThread and shut down in CleanUp |
| WebThreadRefinement.ScriptStep | web/web_sub_thread.cc:38-97 | what one lifecycle event of the main loop or a sub-thread does to each ID and thread |
| UrlDataManager.URLDataManager.DeleteDataSource | web/webui/url_data_manager_ios.cc:91-115 | deletes at once on the UI thread, otherwise lists the source; posts a wake-up exactly when the list was empty |
| UrlDataManager.URLDataManager.DeleteDataSources | web/webui/url_data_manager_ios.cc:77-88 | deletes every listed source once, in order, and leaves the list empty |
| UrlDataManager.URLDataManager.IsScheduledForDeletion | web/webui/url_data_manager_ios.cc:132-138 | true exactly for the listed sources |
| UrlDataInterleaving.StepConservedAt | web/webui/url_data_manager_ios.cc:77-115 | every step keeps every source in one of live, listed, swapped out, deleted, as long as a response takes its reference while the UI thread holds one |
| UrlDataInterleaving.Conservation | web/webui/url_data_manager_ios.cc:77-115 | in every interleaving in which responses are sent with care, a created source is in exactly one of the four places; it is deleted at most once, by the UI thread, and without references |
| UrlDataInterleaving.NoLostWakeup | web/webui/url_data_manager_ios.cc:101-114 | while anything is listed, a wake-up is queued, or another thread sits between its push and its post, or the UI thread is on its way to the swap |
| UrlDataInterleaving.NothingLeaks | web/webui/url_data_manager_ios.cc:77-115 | once everybody is done, a source is deleted exactly when it has no references |
| UrlDataInterleaving.ListedIsDeletedByNextCall | web/webui/url_data_manager_ios.cc:77-88 | what is listed has been deleted once when the next DeleteDataSources returns, whatever other threads and nested destructors do meanwhile |
| UrlDataLedger.HoldersAreLedger | web/webui/url_data_source_ios_impl.cc:45-48 | in every run, a source not deleted is held by exactly those whose references the steps tell: its creator, those it was passed to, and every response whose check passed, less those given up |
| UrlDataLedger.LastReferenceDecides | web/webui/url_data_manager_ios.cc:91-115 | giving up a reference does nothing while the steps tell of others; the last one deletes on the UI thread and lists on any other, which schedules a wake-up exactly when nothing was listed |
| UrlDataLedger.DeletedOnlyUnreferenced | web/webui/url_data_manager_ios.cc:86-98 | with responses sent with care, whatever deletes a source, the steps tell of no references by then |
| UrlDataLedger.ListedOnlyUnreferenced | web/webui/url_data_manager_ios.cc:108 | a source is listed only by the last release, off the UI thread |
| UrlDataLedger.WakeupsAreCounted | web/webui/url_data_manager_ios.cc:110-114 | a wake-up that is posted runs once |
| UrlDataLedger.CheckPassesExactlyWhen | web/webui/url_data_source_ios_impl.cc:31-44 | the check passes exactly when the source is not listed |
| UrlDataLedger.UiGoesOn | web/webui/url_data_manager_ios.cc:77-88 | whatever the UI thread is in the middle of, it can go on |
| UrlDataLedger.UiActsFreely | web/webui/url_data_manager_ios.cc:86-87 | inside a deletion the UI thread may do what it may do elsewhere |
| UrlDataLedger.OthersGoOn | web/webui/url_data_manager_ios.cc:102-114 | other threads are never held up |
| UrlDataInterleaving.CheckedSourceIsLive | web/webui/url_data_source_ios_impl.cc:31-44 | a source that passes the check has references exactly when it is not swapped out, so always outside DeleteDataSources |
| UrlDataInterleaving.SendResponseSafety | web/webui/url_data_source_ios_impl.cc:27-49 | whatever other threads do between check and reference, a source stays referenced exactly when the UI thread holds a reference |
| UrlDataInterleaving.DeletedTwiceExactlyWhenNotHeld | web/webui/url_data_source_ios_impl.cc:27-49 | when a response is sent, the source can end up deleted twice exactly when it is not listed and the UI thread holds no reference |
| UrlDataInterleaving.SwappedOutIsNotCaught | web/webui/url_data_source_ios_impl.cc:31-44 | the check lets a swapped-out source through, which then has a reference and a deletion still to come |
| UrlDataInterleaving.SwappedOutHappens | web/webui/url_data_manager_ios.cc:80-87 | such a state is reachable |
| ServiceManagerConnection.StepSettled | web/service_manager_connection_impl.cc:58-158 | every event keeps the reference count, weak pointer, binding and observer in step with each other |
| ServiceManagerHistory.StartedIsBound | web/service_manager_connection_impl.cc:58-69 | while owner and loop are there, a started connection waits for its start task, or is bound and observed, with the factories opened and the references of its binding |
| ServiceManagerHistory.EventsTell | web/service_manager_connection_impl.cc:58-176 | in every run: owner, start, loop, tasks in the order posted, the observer and the time in which the connection is bound, told from the events |
| ServiceManagerHistory.EventsAreNotRefused | web/service_manager_connection_impl.cc:58-80 | whatever may be called, posted or run is not refused |
| ServiceManagerConnection.LoopDestructionShutsDown | web/service_manager_connection_impl.cc:97-120 | in every ordering, after loop destruction nothing is bound or observed, the observer has been deleted exactly once if it ever existed, and the context has been freed exactly when its owner has let go |
| ServiceManagerConnection.PostedShutDownSuffices | web/service_manager_connection_impl.cc:73-80 | without loop destruction, once the owner has let go and the tasks have run, the final state is the same |
| ServiceManagerContext.MessageLoopObserver.ShutDown | web/service_manager_connection_impl.cc:97-108 | inactive: changes nothing; active: frees the observer once, after shutting the context down if the weak pointer still leads there; terminates despite the mutual calls and never touches a freed observer |
| ServiceManagerContext.MessageLoopObserver.WillDestroyCurrentMessageLoop | web/service_manager_connection_impl.cc:111-114 | shuts down and frees the observer; callers prove that it is active |
| ServiceManagerContext.IOThreadContext.StartOnIOThread | web/service_manager_connection_impl.cc:124-136 | binds, and registers one new active observer with a good weak pointer |
| ServiceManagerContext.IOThreadContext.ShutDownOnIOThread | web/service_manager_connection_impl.cc:138-158 | invalidates weak pointers, frees an active observer once, leaves one that is the caller alone, unbinds, and outlives its binding's references |
| ServiceManagerContext.IOThreadContext.Start | web/service_manager_connection_impl.cc:58-69 | does to the objects what the event does to the value |
| ServiceManagerContext.IOThreadContext.DropOwner | web/service_manager_connection_impl.cc:273-275 | the same for the owner's destructor, which posts the shut-down |
| ServiceManagerContext.IOThreadContext.RunTask | web/service_manager_connection_impl.cc:124-158 | the same for a task on the IO thread |
| ServiceManagerContext.IOThreadContext.OnBindInterface | web/service_manager_connection_impl.cc:163-173 | the same for a new factory binding |
| ServiceManagerContext.IOThreadContext.DestroyLoop | web/service_manager_connection_impl.cc:111-114 | the same for loop destruction, with tasks dropped before or after observers are told |
| CookieCache.ComparatorTrichotomy | net/cookies/cookie_cache.cc:56-80 | both comparators are strict; equivalence is equality of keys, and of keys and values; the finer order extends the coarser |
| CookieCache.ComparatorTransitive | net/cookies/cookie_cache.cc:56-80 | both comparators are transitive |
| CookieCache.ComparatorOrder | net/cookies/cookie_cache.cc:56-80 | domains decide first, then paths, then names, then values |
| StringOrder.LessExactlyWhen | net/cookies/cookie_cache.cc:60-78 | texts are in order exactly when the first is a proper prefix, or has the smaller character where they first differ |
| CookieCache.MakeSetKeepsFirst | net/cookies/cookie_cache.cc:27 | a set made from a range holds, in order, the first cookie of every key and nothing else |
| CookieCache.SortedByValueToo | net/cookies/cookie_cache.cc:32-39 | unique keys make a set sorted for the finer order too |
| CookieCache.InsertLast | net/cookies/cookie_cache.cc:34 | inserting the differences under the coarser order drops none |
| CookieCache.SetDifference | net/cookies/cookie_cache.cc:32-39 | the merge yields exactly the cookies whose key and value are not in the other set |
| CookieCache.MissingElements | net/cookies/cookie_cache.cc:29-39 | membership in the difference |
| CookieCache.MissingViews | net/cookies/cookie_cache.cc:29-39 | as sets of (domain, path, name, value) the result is the set difference |
| CookieCache.Cache.Update | net/cookies/cookie_cache.cc:20-54 | reports exactly the cookies gone and new, behind what the vectors held, replaces the set of its key, leaves other keys alone |
| CookieCache.NoChangeExactlyWhenSame | net/cookies/cookie_cache.cc:41-42 | nothing is reported exactly when the old and the new set agree cookie by cookie |
| CookieCache.ReplayReproducesCache | net/cookies/cookie_cache.h:29-42 | over any history, replaying removals then additions from nothing gives the cached set and the latest set of every key |
| CookieCache.CacheKeepsReported | net/cookies/cookie_cache.cc:41-44 | the cached cookies, down to what no comparator sees, are those of the last call that reported anything |
| UrlText.DecodeEncode | chrome/common/x_callback_url.cc:58-75 | decoding undoes encoding |
| UrlText.EncodeConcat | chrome/common/x_callback_url.cc:58-75 | text is encoded character by character |
| UrlText.EncodeSpells | chrome/common/x_callback_url.cc:58-75 | a space as plus, another character that is not kept as a percent sign and two upper-case hexadecimal digits |
| UrlText.DecodeReadsEitherCase | chrome/common/x_callback_url.cc:89-90 | in any text, an escape with digits of either case stands for its character |
| UrlText.DecodeReadsOthers | chrome/common/x_callback_url.cc:89-90 | a plus stands for a space, and any other character, or a percent sign without two digits, for itself |
| UrlText.SegmentsAreSplit | chrome/common/x_callback_url.cc:87-92 | any query is read segment by segment, split at the first equals sign; without one the value is empty |
| UrlText.EncodeFixed | chrome/common/x_callback_url.cc:74 | encoding leaves text alone exactly when all of it is kept |
| UrlText.EncodeNeverSettles | chrome/common/x_callback_url.cc:74 | encoded text that has changed would change again |
| UrlText.PairsOfAppended | chrome/common/x_callback_url.cc:57-92 | the pairs read from a query with parameters appended: its own and then the encoded ones |
| UrlText.FirstWinsConcat | chrome/common/x_callback_url.cc:89-90 | inserting pairs one after the other keeps the first of each name |
| UrlText.FirstWinsDistinct | chrome/common/x_callback_url.cc:89-90 | pairs with distinct names all go in as they are |
| XCallbackUrl.IsXCallbackURL | chrome/common/x_callback_url.cc:22-38 | true exactly when the host, or without one the first path segment, is the reserved name |
| XCallbackUrl.RecognisedExactlyWhen | chrome/common/x_callback_url.cc:29-37 | of URLs without a host, those are recognised whose path has the reserved name as its first segment, with two slashes before it or not |
| XCallbackUrl.CreateXCallbackURLWithParameters | chrome/common/x_callback_url.cc:46-80 | the loop and the branches build the URL that the theorems speak of |
| XCallbackUrl.EveryNameMapsToItsOwn | chrome/common/x_callback_url.cc:57-76 | in the built URL, x-success, x-error and x-cancel map to the callback given for each if it is valid, and otherwise, like every other name, to the parameter of that name, or to nothing |
| XCallbackUrl.BuiltUrlGoesToHost | chrome/common/x_callback_url.cc:54-55 | the built URL has the host x-callback-url, or the path that begins with it, and the action's path behind it |
| XCallbackUrl.ActionParts | chrome/common/x_callback_url.cc:54-55 | an action written out as path, query and fragment is taken apart as that |
| XCallbackUrl.ExtractQueryParametersFromXCallbackURL | chrome/common/x_callback_url.cc:82-95 | keys as they stand, values decoded, the first entry of a name wins |
| XCallbackUrl.ParsePrinted | chrome/common/x_callback_url.cc:54-55 | for a scheme text without a colon, the printed text parses to the reserved host and to the action's path and query |
| XCallbackUrl.BuiltUrlIsRecognised | chrome/common/x_callback_url.cc:78 | for every scheme text, action, callbacks and parameters, what is built is recognised exactly when the scheme text is a URL scheme, or has a colon and, followed by another, is recognised already |
| XCallbackUrl.ExtractedFromBuilt | chrome/common/x_callback_url.cc:82-95 | for every action: its own pairs, then callbacks and parameters with names encoded, first wins |
| XCallbackUrl.RoundTripExactlyWhen | chrome/common/x_callback_url.cc:54-95 | for every action and all names, the parameters come back overlaid by the valid callbacks exactly when every name is kept and the action's own pairs agree |
| XCallbackUrl.RoundTripForAnyAction | chrome/common/x_callback_url.cc:54-95 | so with kept names it is down to the action's own pairs |
| XCallbackUrl.RoundTripExactlyWhenNamesKept | chrome/common/x_callback_url.cc:54-95 | and for an action without a query it is down to the names |
| ChunkedUpload.StepInv | net/chunked_data_stream_uploader.cc:34-97 | every call keeps one fate per read, answers in order, and delivered bytes equal to taken bytes |
| ChunkedUpload.EveryReadHasOneFate | net/chunked_data_stream_uploader.cc:34-97 | every read issued is answered exactly once, or cut off by a reset, or outstanding |
| ChunkedUpload.BytesInOrder | net/chunked_data_stream_uploader.cc:64-97 | the network gets exactly the bytes of OnRead in order; an answer without bytes means end of file; end of file is signalled at most once between resets |
| ChunkedUpload.NothingAfterEof | net/chunked_data_stream_uploader.cc:70-71 | after end of file nothing is taken until a reset |
| ChunkedUpload.InitOnlyBeforeFirstUpload | net/chunked_data_stream_uploader.cc:27-32 | initialisation succeeds exactly until the first upload attempt, across resets |
| ChunkedUpload.NestedIsSequential | net/chunked_data_stream_uploader.cc:90-96 | calls made inside completion callbacks, to any depth, come to what the same calls come to in sequence |
| ChunkedStream.RunIsStream | net/chunked_data_stream_uploader.cc:27-97 | in every run, the answers, the waiting read, end of file, the reads cut off, the final-chunk mark and the results of initialisation are those of a plain stream, told from the calls alone |
| ChunkedStream.FinalChunkEndsStream | net/chunked_data_stream_uploader.cc:55-71 | once the final chunk has been announced, whether a read waited or not, a read is answered at once without bytes and at end of file; otherwise at once if there are bytes |
| ChunkedDataStreamUploader.Uploading.Upload | net/chunked_data_stream_uploader.cc:64-97 | one attempt, its completion callback and everything that does, on the object |
| ChunkedDataStreamUploader.Uploading.ReadInternal | net/chunked_data_stream_uploader.cc:34-45 | an attempt with the buffer held; never asserts |
| ChunkedDataStreamUploader.Uploading.InitInternal | net/chunked_data_stream_uploader.cc:27-32 | succeeds exactly at the front of the stream |
| ChunkedDataStreamUploader.Uploading.ResetInternal | net/chunked_data_stream_uploader.cc:47-53 | drops buffer, pending read and final-chunk mark; the front-of-stream mark stays |
| ChunkedDataStreamUploader.Uploading.UploadWhenReady | net/chunked_data_stream_uploader.cc:55-62 | does to the object what the call does to the value, re-entrant callbacks included |
| ChunkedDataStreamUploader.Uploading.PerformAll | net/chunked_data_stream_uploader.cc:34-97 | any sequence of calls, each with re-entrant callbacks, keeps to the value model |
| ChunkedDataStreamUploader.DoCoordinated | net/chunked_data_stream_uploader.cc:55-97 | after a call with everything inside it, a read is pending exactly when a buffer is held |
| TimeSmoother.Smoother.GetSmoothedTime | web/navigation/time_smoother.cc:10-23 | one call moves the marks and answers the high mark |
| TimeSmoother.Smoother.SmoothAll | web/navigation/time_smoother.cc:10-23 | a run of calls answers the specified outputs |
| TimeSmoother.ClosedFormUnlessNullFirst | web/navigation/time_smoother.cc:10-23 | for times that never go back, each output is the greatest earlier time plus the calls since, exactly when the first time is not null |
| TimeSmoother.StrictAndBarelyLate | web/navigation/time_smoother.h:24-27 | outputs are strictly increasing, never early, and at most as many microseconds late as calls came before |
| TimeSmoother.RunsAreConsecutive | web/navigation/time_smoother.cc:14-22 | for any times, outputs since the last reset are low, low + 1, ..., high |
| TimeSmoother.OutputExactly | web/navigation/time_smoother.cc:14-22 | for any times, an output told from the outputs before it: a time within the run comes out right behind the last output, any other as it is and starts a run |
| CertificatePolicy.CertificatePolicyCache.AllowCertForHost | web/net/certificate_policy_cache.cc:18-23 | sets the mask for the certificate and host, nothing else |
| CertificatePolicy.CertificatePolicyCache.QueryPolicy | web/net/certificate_policy_cache.cc:25-31 | answers from the host's policy and leaves an entry for the host |
| CertificatePolicy.CertificatePolicyCache.ClearCertificatePolicies | web/net/certificate_policy_cache.cc:33-36 | empties the cache |
| CertificatePolicy.MatchesCovered | web/net/cert_policy.cc:23-24 | the bit test holds exactly when there is an error and every bit of it was allowed |
| CertificatePolicy.AllowedExactlyWhenCovered | web/net/cert_policy.cc:20-34 | after any history a query is answered ALLOWED exactly when the latest allow since the last clear covers every error bit |
| CertificatePolicy.QueriesChangeNothing | web/net/certificate_policy_cache.cc:25-31 | leaving all queries out of a history changes no later answer |
| NotificationPromo.NumberToStringInjective | chrome/browser/notification_promo.cc:150 | different ids have different keys |
| NotificationPromo.PromoObject.InitFromPrefs | chrome/browser/notification_promo.cc:155-173 | loads the promo's own record if it has an id and one is there |
| NotificationPromo.PromoObject.CanShow | chrome/browser/notification_promo.cc:175-208 | shown exactly when open, with text, within both caps and strictly inside its dates |
| NotificationPromo.PromoObject.WritePrefs | chrome/browser/notification_promo.cc:139-153 | replaces the promo's own record |
| NotificationPromo.PromoObject.HandleClosed | chrome/browser/notification_promo.cc:182-186 | writes the record as closed unless it is |
| NotificationPromo.PromoObject.HandleViewed | chrome/browser/notification_promo.cc:188-195 | one more view, and a first view time if there was none |
| PromoHistory.RunAll | chrome/browser/notification_promo.cc:139-195 | the objects and prefs, step by step, come to what the history says |
| PromoHistory.ViewsRightExactlyWhen | chrome/browser/notification_promo.cc:182-195 | the stored count is right all along a run exactly when every write for the promo is by an object that loaded after the last view |
| PromoHistory.ClosedRightExactlyWhen | chrome/browser/notification_promo.cc:182-195 | the closed mark is right all along a run exactly when no view is by an object that loaded the promo open before it was closed |
| PromoHistory.RightExactlyWhenKnown | chrome/browser/notification_promo.cc:139-195 | for every run and id, the stored record is the history's all along exactly when both conditions hold |
| NotificationPromo.OtherRecordsStay | chrome/browser/notification_promo.cc:148-151 | writing a record leaves other promos' records untouched |
| PromoHistory.ViewsStayWithinCap | chrome/browser/notification_promo.cc:197-199 | a promo with a fixed positive cap, whose writers have missed no view, is viewed at most that often, over any interleaving of any objects |
| PromoHistory.CapCheckedExactlyWhen | chrome/browser/notification_promo.cc:197-199 | an object's check of the cap is right for every cap exactly when the object has missed no view |
| PromoHistory.ClosedForGood | chrome/browser/notification_promo.cc:175-186 | when every view knows of closes, no view comes after one |
| PromoHistory.FirstViewStays | chrome/browser/notification_promo.cc:188-195 | when every write knows of views, the first view time does not change once set |
| PromoHistory.ShownExactlyWhen | chrome/browser/notification_promo.cc:175-208 | an up-to-date object can be shown exactly when the promo was never closed, has text, has views left, is not past its time since the first view, and is within its dates |
| PromoHistory.ViewsStayWithinTime | chrome/browser/notification_promo.cc:201-208 | views stay within the dates and, when every write knows of views, within the time allowed after the first one |
| PromoHistory.OneObjectIsNeverCapped | chrome/browser/notification_promo.cc:188-199 | for every number there is a run with one load, shown whenever viewed, with that many views, whatever the cap; prefs count one |
| PromoHistory.CloseForgetsView | chrome/browser/notification_promo.cc:182-195 | from any state, closing after a view by the same object leaves a record without the view and its time |
| PromoHistory.StaleViewReopens | chrome/browser/notification_promo.cc:182-195 | from any state, a view after another object's close makes the record open again |
| PromoHistory.UnsetIdIsNeverCapped | chrome/browser/notification_promo.cc:155-158 | without an id, for every number there is a run that loads before every view, shown whenever viewed, with that many views |
| HttpCacheHelper.CacheClearing.ClearHttpCache | net/http_cache_helper.cc:89-99 | queues the request on the network thread |
| HttpCacheHelper.CacheClearing.ClearHttpCacheOnIOThread | net/http_cache_helper.cc:56-83 | goes on at once, or leaves the request with GetBackend |
| HttpCacheHelper.CacheClearing.DoomHttpCache | net/http_cache_helper.cc:34-52 | replies at once, or leaves the request with DoomEntriesBetween |
| HttpCacheHelper.StepConserves | net/http_cache_helper.cc:34-83 | every step keeps each request in exactly one place, or answered |
| HttpCacheHelper.AnsweredExactlyOnce | net/http_cache_helper.cc:34-99 | each request's callback is posted to the runner that issued it at most once, and exactly once when nothing of it is pending |
| HttpCacheHelper.AnsweredToIssuer | net/http_cache_helper.cc:89-99 | every callback posted goes to a runner that issued such a request |
| HttpCacheHelper.RepliesAreReports | net/http_cache_helper.cc:34-83 | in every run the callbacks posted, with their results, are those that the outcomes tell, in order; an error of GetBackend without a backend is reported as it is |
| HttpCacheHelper.PendingGoesOn | net/http_cache_helper.cc:77-82 | a request that waits can go on |

## Left out

Contracts that are narrower than the component:

- IsXCallbackURL: a URL is given split into host, path and query; canonicalisation of URLs (case, ports, user names, spaces) is not modelled. Splitting follows the generic syntax of RFC 3986 as far as these functions look at it.
- CreateXCallbackURLWithParameters: a callback URL is its text, or nothing when it is not valid; scheme and action end where their text ends, not at an embedded null.
- DecodeEncode: text is printable ASCII, and so are the values that the round trips speak of; names, and what is encoded, are any bytes. Escaping is percent-encoding as in section 2.1 of RFC 3986 with space as plus as in section 5 of the WHATWG URL Standard; which further characters stay unescaped is a parameter, constrained to include the unreserved ones of section 2.3 of RFC 3986 and no delimiter of a query. The escaping code itself, which leaves some encoded bytes as they are, is not part of this model.
- ParsePrinted: for a scheme text without a colon; a text with one makes its first part the scheme, and BuiltUrlIsRecognised says what that means for recognition.
- CanShow: times are whole seconds as integers where the source has floating point, and the clock is read once a call. The wrapper's further restrictions (`chrome/browser/ui/ntp/notification_promo_whats_new.mm`) are left out; they only show less.
- ScriptStep: what a sub-thread does besides registering and shutting down its entry (the delegate's Init and CleanUp, the task that completes the initialisation) does not touch the registry and is not an event.
- NoLostWakeup: the post to the UI thread is assumed to be accepted, as the code assumes when it ignores the answer.
- CheckedSourceIsLive: taking references is modelled as far as SendResponse's posting of a task; what SendResponseOnIOThread delivers to the backend is not.
- DeleteDataSources: in the class a destructor has no effects of its own; in the step system it may release sources and call DeleteDataSources again.
- EveryReadHasOneFate: the base class UploadDataStream is not part of this model beyond keeping one callback, answering end of file by itself and forgetting both on a reset; callers initialise before reading and have one read outstanding.
- BytesInOrder: OnRead hands over at most the buffer's length and does not call back in; its results up to zero are one case.
- GetSmoothedTime: times are unbounded integers; base::Time saturates.
- AnsweredExactlyOnce: GetBackend and DoomEntriesBetween are their outcomes, in any mix; whatever they do to the cache is not modelled.
- LoopDestructionShutsDown: the owner of a started connection lets go while the IO thread still takes tasks, as `web/service_manager_connection_impl.cc:71-79` demands and asserts.
- DestroyLoop: the order in which a message loop drops its tasks and tells its observers is left open, and both are covered.

Parts of the repository that are not modelled:

- Thread registry: creation of the globals, ResetGlobalsForTesting, thread names, error messages, task traits, and the delegate that SetIOThreadDelegate installs.
- What a task runner answers when it is handed a task; PostTaskHelper ignores it.
- Service manager: CreateService, OnDisconnected, the connector, and the message pipes.
- Promos: InitFromJson and InitFromVariations, which only fill in the configuration.
- Cache clearing: the QUIC state that is cleared along the way.
- Navigation, cookie stores, downloads and request tracking, whose code is Objective-C++ and is not part of this model.
- User interface, constants, preference names, factories and service getters, which hold no protocol.
