# Verification of the context broker's core

This project models the parts of the context broker that are hardest to get right, and proves what they promise. It
is written in Dafny; `dafny verify dfyconfig.toml` checks all of it.

- **Macro substitution** of custom notifications (`Macro*.dfy`): the scan, the size computation and the
  find-and-replace loops, against one simultaneous substitution.
- **Concurrency** (`SyncQueue`, `CurlContexts`, `RequestSemaphore`, `WaitClock`): the notification queue, the reusable
  curl contexts with their two levels of locks, and the request semaphore, each as a step relation over any number of
  threads.
- **Subscription cache** (`CacheList`, `CacheMatch`, `ServicePath`, `CacheSync*`, `SyncData`): the linked list on the
  heap, matching, and the synchronisation of any number of brokers with one database.
- **JSON output** (`Json`, `JsonPrinting`, `SubscriptionJson`): the printer, against a reader for sections 4, 5 and 7
  of RFC 8259.
- **Durations** (`Duration*`, `Decimals`): the ISO 8601 duration parser, against the set of texts it accepts and over
  numbers.
- **Entity merge** (`Kjson`, `AttributeMetadata`, `MetadataLoop`, `PropertiesToMetadata`, `MergeResult`,
  `AttributeMerge`, `EntityShape`, `EntityMerge`, `EntityMergeLoop`, `EntityAgreement`, `EntityRequest`): surgery on
  linked lists of JSON nodes on the heap.
- **Database scripts** (`Dots`, `Separators`, `Migration`, `SortedLists`, `CsubSignature`, `CsubDups`): two migration
  scripts, the consistency check that is their specification, and the removal of duplicate subscriptions.

Calls outside the modelled code are parameters or abstract steps. Where a promise is false of the code, the model
keeps the code, gives a concrete input, and says when the promise holds:

- Macro substitution throws exactly for names of which one comes in map order before one that ends in `${` and it
  (`MacroExact.ThrowsIff`).
- Its result is the simultaneous substitution for all templates over given names exactly when the value of every macro,
  put after a `$`, is clean for itself and for the macros replaced after it, apart from macros whose value is their own
  text (`MacroExact.SubstitutesIff`, for names without `${`; for other safe names the condition suffices). A text is
  clean for a macro if it neither contains the macro nor ends with a beginning of it.
- After a failed `sem_wait` the code sets `taken` all the same; operations exclude each other as long as none failed.
- The conversion of attribute vectors loses attributes silently exactly when some get the same key and the later of any
  two such has a dot (`Migration.SilentLoss`).
- The two migration scripts carry an attribute's name through exactly as stated by `Migration.NameReadBack`.

How the heap is modelled: `Kjson.Forest` keeps, as ghost maps, the list of children of every node and the parent of
every child; `Valid` says that `next`, `firstChild` and `lastChild` follow these maps. Every list operation states its
effect on the maps, and everything above it reasons about maps.

## Model

| member | source | states |
|---|---|---|
| `MacroTemplate.ScanFlat` | src/lib/common/macroSubstitute.cpp:156-182 | the pieces found by the scan, written out again, are the template: nothing of it is lost or moved |
| `MacroTemplate.ScanIsScanned` | src/lib/common/macroSubstitute.cpp:156-182 | literal pieces hold no `${` and macro names hold no `}` |
| `MacroReplacement.Overlap` | src/lib/common/macroSubstitute.cpp:243-247 | two occurrences of macro texts that overlap are the same one, or the earlier one is of a macro whose name ends in `${` and the name of the later |
| `MacroReplacement.SpliceKeepsCounts` | src/lib/common/macroSubstitute.cpp:246 | replacing a macro that the name of another does not end in removes no occurrence of the other but the one nested in the replaced text, whatever the value is |
| `MacroReplacement.ReplaceAllSucceeds` | src/lib/common/macroSubstitute.cpp:220-248 | if every macro occurs at least as often as the loops can use it up, no find in the two loops fails, and the length changes exactly by what is removed and added |
| `MacroReplacement.SizeIsExact` | src/lib/common/macroSubstitute.cpp:184-213 | length + toAdd - toReduce, summed over the map in any order, is the length of the simultaneous substitution; toReduce never exceeds the length |
| `MacroReplacement.EveryFindSucceeds` | src/lib/common/macroSubstitute.cpp:220-248 | in an order where no macro is replaced before one whose name ends in it, every find succeeds for arbitrary values, and the result has the precomputed length |
| `MacroMeaning.Located` | src/lib/common/macroSubstitute.cpp:246 | in a tidy template every occurrence of a macro text is one of the scanned macro pieces, so find hits a macro and nothing else |
| `MacroMeaning.SequentialIsSimultaneous` | src/lib/common/macroSubstitute.cpp:220-248 | if no value and no literal text holds, or ends with the beginning of, the text of a macro replaced then or later (other than one whose value is its own text), replacing macro by macro gives the single simultaneous left-to-right substitution; a literal may end with `$` if values are clean after a `$` as well |
| `MacroSubstitute.CollectMacros` | src/lib/common/macroSubstitute.cpp:156-182 | the scan loop returns false exactly on an unterminated macro, and otherwise the number of occurrences of each name |
| `MacroSubstitute.SizeAfter` | src/lib/common/macroSubstitute.cpp:184-213 | the 64-bit unsigned computation is the exact size modulo 2^64, including the wrap of the subtraction |
| `MacroSubstitute.Replace` | src/lib/common/macroSubstitute.cpp:220-248 | the two replacement loops compute the specified sequential replacement; a find that fails is the exception std::string::replace throws |
| `MacroSubstitute.Substitute` | src/lib/common/macroSubstitute.cpp:132-251 | the whole function: too large before, syntax error, too large after, exception, or the replaced text |
| `MacroSubstitute.ExpandSize` | src/lib/common/macroSubstitute.cpp:149-248 | with safe names the function never throws, a result has exactly the length of the simultaneous substitution, and it succeeds exactly when that length is at most MAX_DYN_MSG_SIZE |
| `MacroSubstitute.ExpandMeaning` | src/lib/common/macroSubstitute.cpp:132-251 | with safe names, and values clean for the macros replaced then or later, a successful result is the simultaneous substitution: for templates without `$` right before a macro, or for all templates if values are clean after a `$` as well |
| `MacroSubstitute.TidyTemplate` | src/lib/common/macroSubstitute.cpp:156-182 | every template is tidy, up to literals that end with `$` before a macro |
| `MacroSubstitute.PlainNamesAreSafe` | src/lib/common/macroSubstitute.cpp:171-246 | names without `${` are safe |
| `MacroSubstitute.PlainValuesAreOk` | src/lib/common/macroSubstitute.cpp:243-247 | values that have no `${` and do not end with `$` are clean for every macro, and after a `$` if they also neither are empty nor begin with `{` |
| `MacroValues.IdMacro` | src/lib/common/macroSubstitute.cpp:192-199 | `${id}` gives the entity's id, for ids up to MAX_DYN_MSG_SIZE |
| `MacroValues.TypeMacro` | src/lib/common/macroSubstitute.cpp:228-235 | `${type}` gives the entity's type |
| `MacroValues.AttributeMacro` | src/lib/common/macroSubstitute.cpp:228-241 | for any other closed name without `${` and NUL, `${name}` gives the value of the first attribute of the entity with that name, and nothing when there is none |
| `MacroExact.ThrowsIff` | src/lib/common/macroSubstitute.cpp:171-246 | for every set of names (two of which fit into a template): some template over them throws for some values exactly when one of them comes in map order before one that ends in `${` and it |
| `MacroExact.NestedNameThrows` | src/lib/common/macroSubstitute.cpp:171-246 | for any such two names the function throws on the template made of the two macros |
| `MacroExact.NestedNameExample` | src/lib/common/macroSubstitute.cpp:171-246 | the function throws on `${c${b}${b}` |
| `MacroExact.SubstitutesIff` | src/lib/common/macroSubstitute.cpp:132-251 | for every set of names without `${` and all values, each at most an eighth of MAX_DYN_MSG_SIZE: all templates over the names give the simultaneous substitution exactly when the value of every macro, put after a `$`, is clean for itself and the macros replaced later, apart from those whose value is their own text; and all templates without `$` right before a macro do so exactly when this holds of the values alone |
| `MacroExact.UncleanValueDiffers` | src/lib/common/macroSubstitute.cpp:243-247 | if the value of a macro is not clean for a macro replaced then or later, be it the same, and the value of that one is not its own text, there is a template over the two whose result is not the simultaneous substitution |
| `MacroExact.DollarInValueDiffers` | src/lib/common/macroSubstitute.cpp:243-247 | with the value `${b}` for a and x for b, the result for `${a}${b}` is `x${b}` and not `${b}x` |
| `MacroExact.DollarBeforeDiffers` | src/lib/common/macroSubstitute.cpp:243-247 | with the value `{b}` for a and x for b, the result for `$${a}${b}` is `x${b}` and not `${b}x` |
| `SyncQueue.StepInv` | src/lib/common/SyncQOverflow.h:58-101 | every step of every thread (lock, push, notify after unlock, wait, spurious wakeup, pop) keeps the invariant |
| `SyncQueue.RunSafety` | src/lib/common/SyncQOverflow.h:58-101 | in every reachable state, for any number of threads: pushed = popped followed by the queue, the size is at most max_size, one thread at most is in a critical section, and if a consumer sleeps the queue is no longer than notifies in flight plus woken consumers |
| `SyncQueue.SettledSleepersHaveNothingToPop` | src/lib/common/SyncQOverflow.h:58-89 | when all threads are idle or asleep, a sleeping consumer means an empty queue: no wakeup was lost |
| `SyncQueue.Progress` | src/lib/common/SyncQOverflow.h:58-101 | as long as some thread is neither idle nor asleep, some thread can step |
| `SyncQueue.WorkDecreases` | src/lib/common/SyncQOverflow.h:58-101 | every step other than a new call or a spurious wakeup decreases a measure |
| `SyncQueue.DrainEnds` | src/lib/common/SyncQOverflow.h:58-101 | without new calls and spurious wakeups every run ends within a bound computed from its first state |
| `SyncQueue.StuckMeansServed` | src/lib/common/SyncQOverflow.h:70-89 | where no step is possible every call has returned, or is a pop on an empty queue |
| `SyncQueue.AnswersAreRight` | src/lib/common/SyncQOverflow.h:58-89 | over runs, every answer at the moment it is given: a push is refused only when the queue holds max_size elements, an accepted item becomes the last of pushed, pop returns the front, and size the length |
| `SyncQueue.AnswersAddUp` | src/lib/common/SyncQOverflow.h:58-101 | in every reachable state each call made has been answered or is in progress, and the items accepted and returned are, in order, those pushed and popped |
| `SyncQueue.InsideTheMutex` | src/lib/common/SyncQOverflow.h:60-101 | what a step inside the critical section answers and does: with room the item joins pushed and true is returned, without it is refused; pop returns the front or sleeps; size is the length |
| `SyncQueue.RoomForAll` | src/lib/common/SyncQOverflow.h:58-69 | when at the start there is room for every push that is under way, as many items as there are such pushes have been pushed when a schedule without new calls cannot be prolonged: none was refused |
| `SyncQueue.StuckMeansAnswered` | src/lib/common/SyncQOverflow.h:58-101 | where no step is possible every call but a pop on an empty queue has its answer |
| `CurlContexts.StepInv` | src/lib/common/sem.cpp:624-740 | every step of get and release keeps the ownership invariant of the map mutex, the stored contexts and the endpoint mutexes |
| `CurlContexts.Exclusive` | src/lib/common/sem.cpp:624-740 | over every interleaving two threads never hold contexts of one key, and threads that hold contexts share neither a curl handle nor a mutex |
| `CurlContexts.StoredForEver` | src/lib/common/sem.cpp:641-677 | a context once stored for a key is the stored one in all later states |
| `CurlContexts.Progress` | src/lib/common/sem.cpp:629-740 | whenever a thread is not idle some thread can step, also on the statistics path that takes the map mutex again: no deadlock |
| `CurlContexts.WorkDecreases` | src/lib/common/sem.cpp:785-815 | every step of a call that has begun decreases a measure |
| `CurlContexts.DrainEnds` | src/lib/common/sem.cpp:624-740 | without new calls every schedule ends within a bound computed from its first state |
| `CurlContexts.StuckMeansIdle` | src/lib/common/sem.cpp:624-740 | a schedule that cannot be prolonged has ended with every context released |
| `CurlContexts.CallEndsHolding` | src/lib/common/sem.cpp:637-737 | over runs with any number of threads: a call that has found or created a context ends by releasing the very context that is stored under its key, with the mutex of the endpoint owned by the thread; a created one has a new handle and a new mutex |
| `CurlContexts.GetAlone` | src/lib/common/sem.cpp:624-740 | with both mutexes free, a call alone ends with the stored context, or with a new one that is stored under its key, with and without statistics; the other contexts and threads stay as they were |
| `WaitClock.DiffTimeExact` | src/lib/common/clockFunctions.cpp:35-45 | the difference of two normalised times is normalised and exact, whichever is later |
| `WaitClock.AddDifference` | src/lib/common/clockFunctions.cpp:35-63 | adding a measured difference to a normalised accumulator is exact and keeps it normalised |
| `WaitClock.ClockDifftime` | src/lib/common/clockFunctions.cpp:35-45 | the in-place computation through pointers is the difference of the two times |
| `WaitClock.ClockAddtime` | src/lib/common/clockFunctions.cpp:53-63 | the in-place update of the accumulator is the sum |
| `RequestSemaphore.StepInv` | src/lib/common/sem.cpp:125-172 | every step of reqSemTake and reqSemGive, under every policy, keeps the count of the semaphore and the state of the accumulator |
| `RequestSemaphore.FreePlusTaken` | src/lib/common/sem.cpp:125-172 | free count plus threads with taken = true is 1 plus the number of sem_wait calls that failed; so it is 1 exactly when none failed, because taken is set in either case |
| `RequestSemaphore.CoveredExclude` | src/lib/common/sem.cpp:125-172 | while no sem_wait has failed, of two operations that have returned from reqSemTake and not yet called reqSemGive at most one is covered by the policy |
| `RequestSemaphore.FailedWaitLetsIn` | src/lib/common/sem.cpp:149-171 | a run of four steps in which a failed sem_wait puts two covered operations inside together |
| `RequestSemaphore.AccumulatedWait` | src/lib/common/sem.cpp:154-167 | over any run the accumulated wait plus what is still to be added is the sum of all measured waits, and it is normalised whenever nobody is adding |
| `RequestSemaphore.AssignmentsAreAddTime` | src/lib/common/clockFunctions.cpp:53-63 | the separate assignments to the shared accumulator together are clock_addtime |
| `RequestSemaphore.UncoveredNeverBlocks` | src/lib/common/sem.cpp:129-145 | an operation that the policy does not cover can always start and finish by itself |
| `RequestSemaphore.WhoWaits` | src/lib/common/sem.cpp:125-172 | policy by policy: writes alone, reads alone, everything or nothing goes to sem_wait |
| `RequestSemaphore.PolicyExcludes` | src/lib/common/sem.cpp:125-172 | over runs, while no sem_wait has failed: no two writes are inside under the policies for writes and for both, no two reads under those for reads and for both, and nothing at all next to another operation under the last one |
| `RequestSemaphore.PolicyLetsThrough` | src/lib/common/sem.cpp:129-145 | a read under the policy for writes, a write under the one for reads, and anything under none goes through whoever is inside, and leaves the semaphore as it found it |
| `RequestSemaphore.Progress` | src/lib/common/sem.cpp:344-361 | whenever a thread is not idle some thread can step |
| `RequestSemaphore.DrainEnds` | src/lib/common/sem.cpp:125-172 | without new requests every schedule ends within a bound computed from its first state |
| `RequestSemaphore.StuckMeansIdle` | src/lib/common/sem.cpp:125-172 | a schedule that cannot be prolonged has ended with every request served |
| `ServicePath.SplitPrefix` | src/lib/cache/subCache.cpp:334-374 | the component list of a path is a prefix of another one's exactly when the texts are equal or the first followed by a slash is a prefix of the second |
| `ServicePath.MatchMeaning` | src/lib/cache/subCache.cpp:320-387 | a subscription path that ends in /# matches exactly the paths whose components start with its own; other paths match on equality (or as a text prefix when they end in a bare #); apart from the request /# and the empty path |
| `ServicePath.MatchExamples` | src/lib/cache/subCache.cpp:320-387 | /a/b/# matches /a/b and /a/b/c and not /a/b2 |
| `CacheMatch.TenantTestsAgree` | src/lib/cache/subCache.cpp:606-625 | the tenant filter of subMatch and tenantMatch are the same symmetric test, which identifies null and empty tenants |
| `CacheMatch.AttributeMatch` | src/lib/cache/subCache.cpp:293-312 | the nested loops find a common attribute, or the condition list is empty |
| `CacheMatch.SubMatch` | src/lib/cache/subCache.cpp:395-462 | the chain of tests is tenant, service path, attributes and some entity, each as specified |
| `CacheMatch.SelectedIff` | src/lib/cache/subCache.cpp:140-180 | over the fields, a subscription is selected exactly when the tenants agree (NULL is the empty one), its path matches, it has no condition list or one with an attribute of the update, and one of its entities fits: a literal id is that very id, an empty type on either side fits any, patterns are applied to the entity's id and type |
| `CacheMatch.MatchIsUnion` | src/lib/cache/subCache.cpp:293-312 | a non-empty attribute list selects exactly the subscriptions that one of its attributes alone selects |
| `CacheMatch.NoAttributes` | src/lib/cache/subCache.cpp:293-312 | an empty attribute list selects only subscriptions without a condition list |
| `CacheList.SubCache.Insert` | src/lib/cache/subCache.cpp:686-703 | the node is appended: the list stays acyclic, tail is its last node, and head is null exactly when tail is |
| `CacheList.SubCache.Remove` | src/lib/cache/subCache.cpp:936-977 | exactly the given node is unlinked and deleted and the others keep their order; or -1 is returned and nothing changes |
| `CacheList.SubCache.Destroy` | src/lib/cache/subCache.cpp:577-598 | every node is visited and deleted exactly once, in list order, and the list is empty |
| `CacheList.SubCache.ItemLookup` | src/lib/cache/subCache.cpp:639-654 | the first node with that tenant and id, or null when there is none |
| `CacheList.SubCache.Match` | src/lib/cache/subCache.cpp:470-524 | the result is the order-preserving filter of the list by subMatch |
| `CacheList.SubCache.Items` | src/lib/cache/subCache.cpp:273-285 | the number of nodes |
| `CacheList.InsertThenRemove` | src/lib/cache/subCache.cpp:936-977 | removing a node that was inserted restores the list |
| `CacheList.MatchingIsUnion` | src/lib/cache/subCache.cpp:470-524 | the nodes selected for an attribute list are those selected for one of its attributes, and in multitenant mode all are of the same tenant |
| `SyncData.SyncIsMax` | src/lib/cache/subCache.cpp:1105-1160 | saving, reloading, clearing older timestamps and flushing adds the cached count and leaves each timestamp at the later of the stored and the cached value |
| `CacheSync.StepInv` | src/lib/cache/subCache.cpp:1059-1176 | every step of every broker (create, delete, notify, outcome, and each database operation of a synchronisation) keeps the invariant |
| `CacheSync.NotificationsConserved` | src/lib/cache/subCache.cpp:1059-1176 | in every reachable state of any number of brokers, stored count plus the counts still held by brokers is the number of notifications recorded, for each surviving subscription |
| `CacheSync.TimestampsNeverGoBack` | src/lib/mongoBackend/mongoSubCache.cpp:581-734 | over every run, stored timestamps of a surviving subscription never go back and its stored count never falls |
| `CacheSync.SyncReachesTheLater` | src/lib/cache/subCache.cpp:1059-1176 | when a synchronisation ends, whatever other brokers did meanwhile, each stored timestamp has reached both the value stored and the value cached at its start, and nothing counted is pending |
| `CacheSync.StampIsOneOfTheFlushed` | src/lib/mongoBackend/mongoSubCache.cpp:581-734 | after any stretch of a run a stored timestamp is the value it had, or one flushed meanwhile |
| `CacheSync.StampCoversFlushed` | src/lib/mongoBackend/mongoSubCache.cpp:581-734 | a stored timestamp is not before any value flushed to it earlier: with the previous row, it is their maximum |
| `CacheSync.NotedIsStored` | src/lib/cache/subCache.cpp:1059-1176 | over runs: a notification, a success or a failure noted at some time has reached lastNotification, lastSuccess or lastFailure of the document when the broker's next synchronisation ends, whatever other brokers do, unless the broker deletes the subscription or notes something earlier in between |
| `CacheSyncMethod.Database.Update` | src/lib/mongoBackend/mongoSubCache.cpp:581-734 | one conditional update of the document, or none when there is no document |
| `CacheSyncMethod.Cache.Save` | src/lib/cache/subCache.cpp:1067-1094 | one saved entry per subscription, the first of a subscription that is cached twice |
| `CacheSyncMethod.Cache.Sync` | src/lib/cache/subCache.cpp:1059-1176 | an undisturbed synchronisation leaves each document with its count plus the first cached count and each timestamp at the later value, and the cache with one entry of count 0 per document |
| `Json.QuotedDenotes` | src/lib/common/JsonHelper.cpp:41-95 | a quoted string is read back as exactly the original, for every string of bytes |
| `Json.QuotedInjective` | src/lib/common/JsonHelper.cpp:41-95 | different strings are printed differently |
| `Json.EscapeTable` | src/lib/common/JsonHelper.cpp:41-95 | the escapes written out: quote, backslash, the five short ones and \u00XX with capital digits, and nothing else |
| `Json.EscapedIsClean` | src/lib/common/JsonHelper.cpp:41-95 | inside a printed string there is no control character, an odd number of backslashes stands before every quote, and an even number before the closing one |
| `JsonPrinting.ToJsonString` | src/lib/common/JsonHelper.cpp:41-95 | the loop over the characters prints the quoted form |
| `JsonPrinting.ObjectDenotes` | src/lib/common/JsonHelper.cpp:178-289 | members joined with commas in braces are read back as exactly these members, in order |
| `JsonPrinting.ArrayDenotes` | src/lib/common/JsonHelper.cpp:103-126 | items joined with commas in brackets are read back as exactly these items, in order |
| `JsonPrinting.VectorToJson` | src/lib/common/JsonHelper.cpp:103-126 | what is printed is read back as the list of strings, including the empty list and lists of one |
| `JsonPrinting.ObjectToJson` | src/lib/common/JsonHelper.cpp:132-160 | what is printed is read back as the map's members in key order |
| `JsonPrinting.JsonHelper.AddRaw` | src/lib/common/JsonHelper.cpp:195-204 | a member with a well-formed raw value joins the members written so far |
| `JsonPrinting.JsonHelper.AddString` | src/lib/common/JsonHelper.cpp:178-187 | a string member joins the members written so far |
| `JsonPrinting.JsonHelper.AddInteger` | src/lib/common/JsonHelper.cpp:212-221 | an integer member joins the members written so far, printed as a JSON number of that value |
| `JsonPrinting.JsonHelper.Str` | src/lib/common/JsonHelper.cpp:285-289 | the text is read back as an object with exactly the members added, in order, for every sequence of add calls |
| `SubscriptionJson.EntIDVectorToJson` | src/lib/common/JsonHelper.h:67-86 | the template over elements with toJson prints what is read back as the list of their objects |
| `SubscriptionJson.HttpInfoToJson` | src/lib/apiTypesV2/HttpInfo.cpp:90-120 | what is printed is read back as url, and for custom notifications headers, qs, method and payload where present |
| `SubscriptionJson.ConditionToJson` | src/lib/apiTypesV2/Subscription.cpp:186-205 | what is printed is read back as attrs and the expression members that are not empty |
| `SubscriptionJson.SubjectToJson` | src/lib/apiTypesV2/Subscription.cpp:170-180 | what is printed is read back as entities and condition |
| `SubscriptionJson.NotificationToJson` | src/lib/apiTypesV2/Subscription.cpp:112-164 | what is printed is read back as the counters, the attribute list or exclusion list, the format, the http part and the dates that are set |
| `SubscriptionJson.SubscriptionToJson` | src/lib/apiTypesV2/Subscription.cpp:64-103 | what is printed is read back as the id, description, expiration, status, subject, notification and throttling by the rules of the code |
| `SubscriptionJson.SubjectBack` | src/lib/apiTypesV2/Subscription.cpp:170-205 | from the members of a printed subject the subject itself is recovered: printing loses nothing of it |
| `SubscriptionJson.HttpBack` | src/lib/apiTypesV2/HttpInfo.cpp:90-120 | the receiver is recovered from its printed members: url, and for custom notifications payload, method, qs and headers |
| `SubscriptionJson.NotificationBack` | src/lib/apiTypesV2/Subscription.cpp:112-164 | from the printed members a client recovers the attribute list, whether it is an exclusion list, the format, the receiver and whether it is custom, the metadata, a positive count, and the dates that are set |
| `SubscriptionJson.SubscriptionBack` | src/lib/apiTypesV2/Subscription.cpp:64-205 | from the printed document a client recovers id, description, status, subject, notification part, and the expiration and throttling where printed: no field is lost or swapped |
| `SubscriptionJson.StatusSeen` | src/lib/apiTypesV2/Subscription.cpp:83-90 | in the decoded document the status is failed exactly when a failure is set and no success is as late, and the stored one otherwise |
| `SubscriptionJson.DatesSeen` | src/lib/apiTypesV2/Subscription.cpp:64-164 | dates are seen exactly when positive, the expiration when before 9e18, the throttling and the count when positive |
| `SubscriptionJson.ReceiverSeen` | src/lib/apiTypesV2/Subscription.cpp:112-164 | a custom receiver is seen whole, and of another one the url |
| `SubscriptionJson.FieldsSeen` | src/lib/apiTypesV2/Subscription.cpp:64-164 | id, description, subject, attribute list, its kind, metadata and format are seen as they are |
| `DurationNumbers.PlainAtoi` | src/lib/common/globals.cpp:365-366 | a plain number below 2^31 is read exactly |
| `DurationNumbers.PlainSeconds` | src/lib/common/globals.cpp:397-402 | plain seconds up to 2^24 survive the conversion to float and rounding |
| `Duration.ToSeconds` | src/lib/common/globals.cpp:267-312 | the seconds of a unit, with M a month before T and a minute after it, and -1 for a unit of the other part |
| `Duration.Parse8601` | src/lib/common/globals.cpp:323-428 | the loop over the buffer, with NULs written over units, computes the character-by-character scan of the text before the first NUL |
| `DurationMeaning.ParsePrint` | src/lib/common/globals.cpp:323-428 | every text of the accepted form (day parts, then optionally dropped digits, T and time parts) gives the weighted sum of its parts, modulo 2^64 |
| `DurationMeaning.ParsedIsForm` | src/lib/common/globals.cpp:323-428 | a result other than -1 comes from a text of the accepted form |
| `DurationMeaning.ParseMeaning` | src/lib/common/globals.cpp:323-428 | for every text: the wrapped sum of a form it prints, or -1 when there is no such form |
| `DurationMeaning.PlainDurations` | src/lib/common/globals.cpp:323-428 | up to 136 plain day and time parts below 2^31 (seconds up to 2^24) give exactly their weighted sum, without overflow |
| `Decimals.NatTextBack` | src/lib/common/JsonHelper.cpp:212-221 | the decimal digits of a number, as printed, are read back as that number |
| `DurationValues.NumberedDurations` | src/lib/common/globals.cpp:323-428 | over numbers: up to 136 parts with printed numbers below 2^31 (seconds up to 2^24), day parts before T and time parts after it, give the sum of number times seconds of the unit |
| `DurationValues.Units` | src/lib/common/globals.cpp:365-417 | P<n>Y is 31536000 n seconds, and M, W, D, and after T H, M, S are 2592000, 604800, 86400, 3600, 60 and 1 times n |
| `DurationValues.TwelveDays` | src/lib/common/globals.cpp:365-381 | P12D is 1036800 seconds |
| `DurationValues.FractionOfSeconds` | src/lib/common/globals.cpp:397-402 | PT<n>.<d>S with any digits d is rounded to the nearest second, halves up, for an exact conversion |
| `DurationMeaning.SecondT` | src/lib/common/globals.cpp:382-417 | a second T gives -1 |
| `DurationMeaning.TimeUnitBeforeT` | src/lib/common/globals.cpp:389-417 | H or S before T gives -1 |
| `DurationMeaning.DayUnitAfterT` | src/lib/common/globals.cpp:360-417 | Y, W or D after T gives -1 |
| `DurationMeaning.DayUnitWithoutDigit` | src/lib/common/globals.cpp:360-381 | a day unit with no number before it, or one that starts with a point or a comma, gives -1 |
| `DurationMeaning.TrailingDigits` | src/lib/common/globals.cpp:422-425 | digits after the last unit give -1 |
| `AttributeMetadata.NothingLost` | archive/orionldPostEntityOverwrite.cpp:287-362 | properties that stay and properties that are moved are together the original ones, each once |
| `AttributeMetadata.ObjectToValue` | archive/orionldPostEntityOverwrite.cpp:250-262 | exactly the first "object" of an attribute whose first "type" is Relationship is renamed to "value" |
| `AttributeMetadata.RelationshipObjectAt` | archive/orionldPostEntityOverwrite.cpp:250-262 | by positions: with the first "type" at i and the first "object" at j, it is the latter that is renamed, if the former says Relationship |
| `AttributeMetadata.MoveProperty` | archive/orionldPostEntityOverwrite.cpp:346-358 | the property leaves the attribute's list for the end of md, and a node with its name joins mdNames; no other list changes, and of the names exactly that of its object when it is a Relationship |
| `MetadataLoop.Visit` | archive/orionldPostEntityOverwrite.cpp:324-361 | one round keeps the loop's account of what stays, what was moved and what is still to be seen, also when md is appended to the list being walked |
| `MetadataLoop.MoveLoop` | archive/orionldPostEntityOverwrite.cpp:321-361 | the loop ends, after at most one round more than there were properties, and its account of what stayed and what was moved is complete |
| `PropertiesToMetadata.ToMetadata` | archive/orionldPostEntityOverwrite.cpp:287-362 | every member called type, value, object, creDate, modDate, md or mdNames is still a member, with value for object, and every other one is in md under its name, which is in mdNames; md and mdNames are each extended by exactly the moved properties, in original order; in a moved Relationship the first object is called value; everything else is unchanged |
| `Kjson.Forest.ChildAdd` | archive/orionldPostEntityOverwrite.cpp:354-357 | the child becomes the last one of that list; no other list changes, and all lists stay well linked |
| `Kjson.Forest.ChildRemove` | archive/orionldPostEntityOverwrite.cpp:354 | exactly this child is unlinked, and all lists stay well linked |
| `Kjson.Forest.Lookup` | archive/orionldPostEntityOverwrite.cpp:114-116 | the first child with that name, or null when there is none |
| `MergeResult.OutcomeTop` | archive/orionldPostEntityOverwrite.cpp:139-160 | putting a member right under the attribute keeps the account of the merge: old names are still there, names stay distinct, the last member of each such name stands there |
| `MergeResult.OutcomeMd` | archive/orionldPostEntityOverwrite.cpp:161-180 | turning a member into metadata keeps the account of the merge: md and mdNames have grown by exactly the members that belong there, in order |
| `MergeResult.MemberPlaced` | archive/orionldPostEntityOverwrite.cpp:128-184 | each member of the update: the last one called type, value (or object), creDate, modDate, or like a member of the attribute, stands right under it; any other is in md with = for dots and its name in mdNames, and both lists are members of the attribute |
| `MergeResult.MemberKept` | archive/orionldPostEntityOverwrite.cpp:128-184 | a member of the attribute whose name the update does not have stays where it is, under its name |
| `AttributeMerge.MergeAttribute` | archive/orionldPostEntityOverwrite.cpp:108-187 | the last member of each name that is fixed (type, value, creDate, modDate) or was there overwrites what was there, and names stay distinct; other members go to md in order with = for dots, and their names to mdNames; only the lists of the attribute and of its members change; the first modDate the attribute had is now, and no other number changes |
| `EntityMerge.SysAttrs` | archive/orionldPostEntityOverwrite.cpp:195-224 | a creation date and a modification date are appended where there was none; the modification date is now, and so is a new creation date; only the attribute's own list has changed |
| `EntityMerge.AddAttribute` | archive/orionldPostEntityOverwrite.cpp:438-464 | the attribute moves from the request to the end of attrs, and the dot form of its name to the end of attrNames; its members called type, value, object, creDate, modDate, md or mdNames are still members, with value for object, and the others are in md and listed in mdNames; the two dates and a last mdNames follow; modDate is now, so is a new creDate, and no other number changes |
| `EntityMergeLoop.MergeExisting` | archive/orionldPostEntityOverwrite.cpp:433-437 | the attribute of the entity is merged as specified for one attribute, its first modDate is now, no number of a node not called modDate changes, and attrs, attrNames, the request's list and every other attribute are left alone |
| `EntityMergeLoop.MergeLoop` | archive/orionldPostEntityOverwrite.cpp:393-469 | the loop ends at the first member that is not allowed, or at the end, with a log of its rounds: each merged into the attribute of that name, or added a new attribute, with the content specified for these, set the dates of that attribute to now and changed no other number; attrs has grown by exactly the first occurrences of new names, in order |
| `EntityMergeLoop.UntouchedSince` | archive/orionldPostEntityOverwrite.cpp:393-469 | from any round on, an attribute of the entity that the request does not name in these rounds keeps its members, their lists and their names |
| `EntityMergeLoop.NumbersSince` | archive/orionldPostEntityOverwrite.cpp:393-469 | and the numbers of its members, the dates among them |
| `EntityAgreement.MergeTree` | archive/orionldPostEntityOverwrite.cpp:370-470 | false with nothing changed without attrs or attrNames; otherwise the log of the loop leads from the tree before to the tree after, and true exactly when no member is refused |
| `EntityAgreement.SucceedsIff` | archive/orionldPostEntityOverwrite.cpp:393-469 | the merge succeeds exactly when every member of the request is an object, or is called type, value or object |
| `EntityAgreement.OthersUntouched` | archive/orionldPostEntityOverwrite.cpp:370-470 | an attribute that no member of the request names is after the merge as it was before, its dates included |
| `EntityAgreement.LastRoundStands` | archive/orionldPostEntityOverwrite.cpp:370-470 | what the last round on an attribute left of it, as merged or as added and with the dates it set, is there at the end |
| `EntityRequest.Waits` | archive/orionldPostEntityOverwrite.cpp:393-469 | an attribute of the request keeps its members, their names, lists and numbers until its round |
| `EntityRequest.NewAttributeStands` | archive/orionldPostEntityOverwrite.cpp:438-464 | at the end, a new attribute that no later member names: each member the request has with one of seven names is still a member with its value, list and number (a modDate is set), with value for object; each other one is in a member md, and its name in a member mdNames |
| `EntityRequest.LastUpdateStands` | archive/orionldPostEntityOverwrite.cpp:433-437 | at the end, the last update of an attribute: its last type, value, dates and members with names the attribute had stand in the attribute with their numbers, the others are in md and listed in mdNames, and members of the attribute that it does not name are still there |
| `EntityAgreement.AgreementKept` | archive/orionldPostEntityOverwrite.cpp:370-470 | if attrNames are the dot forms of the keys of attrs, position by position, and keys are distinct, that holds after any merge, with duplicates and early returns |
| `EntityAgreement.DotFreeKept` | archive/orionldPostEntityOverwrite.cpp:370-470 | keys stay without dots exactly when the added ones have none |
| `EntityAgreement.OneToOne` | archive/orionldPostEntityOverwrite.cpp:457-463 | with keys without dots no name stands twice in attrNames |
| `EntityAgreement.MergeRequest` | archive/orionldPostEntityOverwrite.cpp:799-806 | as the caller does it, with dots replaced first: agreement with keys without dots is kept for every request |
| `Dots.DotRoundTrip` | src/lib/orionld/common/eqForDot.cpp:33-41 | a key comes back from its dot form exactly when it has no dot |
| `Dots.DotFormsDiffer` | src/lib/orionld/common/dotForEq.cpp:33-41 | keys without dots have different dot forms; a key with a dot shares its dot form with another key |
| `Separators.RestoreReplaced` | scripts/managedb/upgrade-1.5.0/change_attr_id_separator.py:136-137 | replacing __ by () can be undone where there was no () |
| `Separators.ReplacedKey` | scripts/managedb/upgrade-1.5.0/change_attr_id_separator.py:136-137 | a name without __ that does not end in _ keeps its place before the separator |
| `Separators.BaseOfKey` | scripts/managedb/check_entities_consistency.py:53-59 | the base name of a key is what was put before the separator |
| `Migration.Convert` | scripts/managedb/upgrade-0.21.0/attrsvector2attrsobject.py:115-149 | the document is skipped exactly when a duplicate is seen; otherwise attrNames has every name once and attrs every key, with what the last attribute of that key had |
| `Migration.SeenWithoutDots` | scripts/managedb/upgrade-0.21.0/attrsvector2attrsobject.py:130-141 | of two attributes the script sees the second as a duplicate exactly when both get the same key and the second has no dot in its own |
| `Migration.SilentLoss` | scripts/managedb/upgrade-0.21.0/attrsvector2attrsobject.py:130-141 | for every list: an attribute is lost without notice exactly when some attributes get the same key and the later of any two such has a dot |
| `Migration.DottedDuplicateIsLost` | scripts/managedb/upgrade-0.21.0/attrsvector2attrsobject.py:130-141 | a concrete document that loses an attribute |
| `Migration.EqAndDotAreLost` | scripts/managedb/upgrade-0.21.0/attrsvector2attrsobject.py:130-141 | a document with attributes a=b and a.b loses one of them without notice |
| `Migration.FoundAfterStart` | scripts/managedb/upgrade-1.5.0/change_attr_id_separator.py:136 | the test of the script is that __ occurs and not first at the start |
| `Migration.Separate` | scripts/managedb/upgrade-1.5.0/change_attr_id_separator.py:129-143 | for any order of the keys: every key is replaced, and every new key has what one of its old keys had |
| `Migration.NothingIsLost` | scripts/managedb/upgrade-1.5.0/change_attr_id_separator.py:129-143 | where no key has a () every attribute is found under its new key, and no two share one |
| `Migration.CheckAttrs` | scripts/managedb/check_entities_consistency.py:87-112 | the errors reported are exactly the keys without a name and the names without a key |
| `Migration.NameReadBack` | scripts/managedb/check_entities_consistency.py:53-59 | from the converted and changed key the check reads the attribute's name exactly when the name has no = and no () and, with an id, is not empty, has no __ and does not end in _, or, without an id, has no __ after its start |
| `Migration.OneAttribute` | scripts/managedb/check_entities_consistency.py:87-112 | a document with one attribute passes the check after both scripts exactly when its name is one of these |
| `Migration.MigratedIsConsistent` | scripts/managedb/check_entities_consistency.py:87-112 | after both scripts nothing is wrong in a document all of whose names are read back |
| `Migration.Migrate` | scripts/managedb/check_entities_consistency.py:87-112 | both scripts and the check in a row: no error is reported where all names are read back, and where no key has a () every last attribute of a key is kept |
| `Migration.TrailingUnderscoreFails` | scripts/managedb/upgrade-1.5.0/change_attr_id_separator.py:136-137 | for a document with the attribute a_ and id x, migrated by both scripts, the check reports the key a()_x and the name a_ |
| `SortedLists.SameSorted` | scripts/managedb/csubs_control/csub_dups_checker.py:126-130 | two lists are sorted to the same list exactly when one is a reordering of the other, for keys that tell elements apart |
| `CsubSignature.ComputeSignature` | scripts/managedb/csubs_control/csub_dups_checker.py:108-133 | the loops and sorts of the script compute the hash of the canonical document |
| `CsubSignature.SignatureMeaning` | scripts/managedb/csubs_control/csub_dups_checker.py:103-133 | two subscriptions have the same signature exactly when they agree up to the order of entities, conditions, ONCHANGE values and attributes |
| `CsubDups.FindDuplicates` | scripts/managedb/csubs_control/csub_dups_checker.py:92-142 | every hash is mapped to the ids of its documents in the order they were found |
| `CsubDups.ChooseDeletions` | scripts/managedb/csubs_control/csub_dups_checker.py:146-154 | the deletion list is, for any order of the hashes, all but the first of each group, each id once |
| `CsubDups.OneIsKept` | scripts/managedb/csubs_control/csub_dups_checker.py:92-154 | for every document exactly one is kept among those that agree with it, and none of them expires later |
| `CsubDups.KeptAndDeleted` | scripts/managedb/csubs_control/csub_dups_checker.py:159-167 | kept and deleted documents are the whole collection |
| `CsubDups.RemoveDuplicates` | scripts/managedb/csubs_control/csub_dups_checker.py:92-154 | a document is deleted exactly when an earlier one has its signature; for each a duplicate that expires no earlier is kept; no two kept documents agree |

## Left out

- Macro substitution: `std::bad_alloc` and strings of 2^64 bytes and more; `attributeValue` is the lookup of the first
  attribute with the name, with its value as a string.
- SyncQueue: boost's mutex and condition variable are taken to work as documented, with spurious wakeups; exceptions
  from allocation are not modelled.
- CurlContexts: pthread lock and unlock calls are taken to succeed; exclusivity is stated for contexts that are not
  empty, since a failed creation returns an empty one; `curl_context_cleanup`, which runs at exit, and the flag
  `contexts_mutex_taken`, which is cleared after the unlock, are not modelled.
- RequestSemaphore: resetting the accumulated time while requests run, and `reqSemTryToTake`.
- ServicePath.MatchMeaning: is for subscription paths that start with `/`; for the paths "" and "#" of a subscription
  the code reads outside its string unless a special case applies first.
- CacheMatch.SubMatch: regular expressions of entity patterns are an uninterpreted predicate of the entity.
- CacheList: what a node owns besides its links, and the allocation of nodes.
- CacheSync: database reads succeed and see one state; creation and deletion of a subscription are single steps; ids
  are unique and never used again; brokers do not crash with counts that are not flushed. Cached timestamps after a
  synchronisation are set as the code does, but nothing is claimed of them. A new subscription enters the cache as the
  document is loaded, where the code inserts it with timestamps 0 and before the document is stored.
- Json: white space between tokens, and `\u` escapes from 0x80 on, which the printer never writes.
- SubscriptionJson.SubscriptionToJson: the texts of dates and decimal numbers are parameters, of which decimals are
  JSON numbers; `Provider::toJson` is not covered.
- SubscriptionJson.NotificationBack: a count that is not positive, a date that is not and the custom parts of a receiver
  that is not custom are not printed, and so cannot be recovered.
- Duration.Parse8601: the conversion from double to float is a parameter, exact on integers up to 2^24; conversions
  out of range are those of the GNU C library on x86-64, and signed overflow wraps.
- Kjson.Forest.ChildAdd: the functions of the kjson library are not part of the repository, and are modelled as
  operations on singly linked lists with head and tail.
- Kjson.Forest.Lookup: a node's text, number and children are separate fields, where the library keeps them in a union;
  on a property that is not an object the model looks through the children the node has, where `objectToValue` would read
  whatever the union holds.
- EntityMerge.SysAttrs: the kind of an existing modDate node is not changed to an integer, as the kind of a node is
  constant in the model.
- AttributeMerge.MergeAttribute: where metadata goes is claimed for updates without members called md or mdNames; with
  such a member the code takes the list out of the attribute and goes on filling it. Nothing is claimed about names
  being unique inside md or mdNames, where the code can leave duplicates. Members of the update are linked into the
  attribute without being unlinked first, and the list of the update is not used again, as in the code.
- EntityMergeLoop.MergeExisting: is for attributes of the entity that have a modDate; without one the code
  dereferences NULL, and so `AttributeMerge.MergeAttribute` and `EntityAgreement.MergeTree` need one as well.
- EntityAgreement.MergeRequest: putting back the dots in the names of the request after the merge.
- `kjTreeMergeAddNewAttrsIgnoreExisting`, which follows `next` after moving a node.
- Migration.Convert: documents without a vector of attributes, which are skipped, and the update in the database.
- CsubSignature.SignatureMeaning: hashes are taken to be functions of the value without collisions; pickling that
  depends on the order of a dictionary is not modelled.
- CsubDups.RemoveDuplicates: the collection is given in the order the database sorts it, in which a missing expiration
  is the smallest; the removal itself and the restart of the broker.
- `parse8601Time` and `timezoneOffset`, which rest on `sscanf`, `timegm` and floating point.
- The REST service tables, argument parsing, statistics counters, alarms and the rendering of formats, which have little
  state and few cases that interact.
