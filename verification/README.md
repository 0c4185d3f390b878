# An MLX worker and its benchmark, modelled and verified

The system is a Python inference worker that serves chat completions over a line-based socket, and
a benchmark package that loads such a worker over HTTP. The modules here follow its parts:

| module | part of the system |
|---|---|
| Basics, Sorting | sequences, options, results; the library's stable sort |
| PromptCache, Budget, CacheBudget | the recency-ordered prompt-prefix cache, byte budgets over several stores as values, and the stores, the vision feature cache and the round-robin manager as objects |
| Generation, Completion | the external batch generator as a contract, and one-batch completion on top of the cache |
| RequestBoard, Streaming | who is waiting, running and answered, what was said to whom, and what deltas add up to |
| TextScheduler, ContinuousBatching, TextDrain, TextCacheKeys | continuous batching of text requests: the step functions and their invariants, the scheduler object that refines them, draining, and what a finished request files in the cache |
| VlmScheduler, VlmBatching, VlmDrain, VlmOvertaking, VlmStreaming | the same for vision requests, with one sampling setting per generator: also when the head of the queue is overtaken, and what clients are shown |
| WorkerLoop | rounds in which both schedulers are ticked, and the end of the worker |
| Lines, Framing, Codec, JsonTexts | newline frames from a chunked byte stream, cancellation polls that defer other frames, the command codec, and a JSON text that meets its assumptions |
| Configuration, Focusing | what benchmark validation accepts, what selection expands and what the runner plans, for a whole suite and under a focus |
| Chunked, EventStream | the chunked body decoder and the event lines of a streamed answer |
| LoadTrial, ConnectionPool | the three load modes in every completion order, and the connection pool in every interleaving |
| Percentiles, GpuIntervals, JpegSize | two percentile implementations and the bootstrap interval, GPU interval merging, the JPEG size scan |

## How the model is built

Code that updates fields is a class whose methods are proved against a function of the old state;
the properties are then proved of those functions over whole runs. `ContinuousBatchScheduler.Tick`,
for example, ensures `(State(), ok) == Tick(cfg, old(State()), responses, uids)`, and
`TextScheduler.RunKeeps` speaks about every run of that function.

What is outside the worker is an input that the theorems quantify over: the responses and the uids
of the batch generator, the outcome of preparing a vision request, the chunks a socket delivers and
the outcomes of polling it, the order in which requests complete, the draws of a resampling. Where a
property depends on the outside keeping its word, the word is a named predicate:

- `PromptCache.TrimContract`: a trim that succeeds dropped exactly that many tokens. A KV snapshot is
  a list of layers, and `HoldsFor` says that each layer holds the state of exactly some tokens.
- `Completion.KeepsContract`: in a batch with usable uids whose streams all ran to their end, a stream
  that was handed the state of a prefix continued it as the network would, and a finishing state is
  the state of the sequence it is announced with. A batch that stalled or came with unusable uids is
  under no obligation.
- `TextScheduler.GeneratorObeys`, `VlmScheduler.GeneratorObeys`: an insert is answered with as many
  unused uids as it had prompts.
- `TextDrain.AlwaysProgresses`, `VlmDrain.AlwaysProgresses`, `Completion.Works`: polls use up work.
- `Codec.Faithful`: printing JSON on one line and reading it back are inverse on values whose objects
  have distinct keys and whose floats are finite doubles, and `str` of a string is the string.
  `JsonTexts.FaithfulTextExists` shows that this can be met.
- `VlmStreaming.FromTokens`: no response has text of its own before the first token of its stream.
- `LoadTrial.Fair`: waiting on requests in flight reports at least one of them.

## Where the code does less than one might expect

- A text request that reused a cached prefix files its finished state under the prefix followed by the
  whole prompt (batching.py:814-829), although the job's prompt already contains the prefix. The model
  follows the code. `TextCacheKeys.FinishStoresSoundlyIff` and `ReuseStoresSoundlyIff` give the exact
  condition under which the entry is sound, and `ReuseCanStoreTheWrongState` a run of submit, admission
  and answer after which it is not. One-batch completion does not have this, so cache transparency is proved for it.
- A prompt that is stored whole reuses nothing, since no token would be left to process
  (batching.py:367-375), even when a shorter stored prefix could have served;
  `Completion.LongestPrefixIsReused` says when something is reused and how much.
- A streaming client sees the final text only if the decoder never rewrites text it has shown;
  `Streaming.DeltasAreTheTextIff` and the two `StreamedTextIsFinalTextIff` lemmas say so exactly, and
  `Streaming.CompletingRewrites` is a decoder that does.
- Vision requests may be admitted past a waiting head of another setting (vlm_engine.py:1252-1275).
  `VlmOvertaking.HeadIsOvertakenIff` says exactly when: a generator is left over for another setting
  than the head's, nothing runs on it, and somebody further back wants it. `HeadCanBeOvertaken` is a
  run of three requests that gets there. What always holds is that an admission leaves the others in
  order, and that two ticks from rest take something off the queue.
- With a focus, an accepted configuration can plan an execution that has nothing to run, which the
  runner skips and then reports as a wrong order. `Focusing.FocusCanIdleAnExecution` is such a
  configuration. `Focusing.FocusedOrderIsAppliedIff` says exactly which focuses are safe: each runtime
  of each order for a focused model is used by a focused workload that is covered for that model.

## Model

| member | source | states |
|---|---|---|
| PromptCache.CommonPrefix | python/mlx_worker/batching.py:125-129 | the shared prefix of two token lists is equal in both and stops at the first difference |
| PromptCache.OfferIsSound | python/mlx_worker/batching.py:130-178 | what an entry offers is a prefix of the prompt, the whole prompt only for an exact entry, with the KV state of exactly those tokens |
| PromptCache.BestIsChosen | python/mlx_worker/batching.py:117-190 | lookup returns an offer that no other entry of the namespace exceeds, the most recently remembered one on ties, and misses only if nothing is offered |
| PromptCache.LookupIsSound | python/mlx_worker/batching.py:109-190 | on a sound store a hit is a prefix of the prompt with its KV state, and it is exact if and only if the prompt itself is stored |
| PromptCache.LookupFindsTheLongestSharedPrefix | python/mlx_worker/batching.py:140-178 | with a trim that never fails, a hit is at least as long as every proper prefix of the prompt that any entry of the namespace starts with |
| PromptCache.OfferIsOfKind | python/mlx_worker/batching.py:133-189 | which kind a hit is, by how the stored key compares with the prompt; a trimmed snapshot is measured anew |
| PromptCache.LookupIsCounted | python/mlx_worker/batching.py:133-189 | a lookup raises misses, or hits and the counter of the chosen entry's kind, and nothing else |
| PromptCache.EstimateBytesAdds | python/mlx_worker/batching.py:1075-1085 | a snapshot is as large as its layers together |
| PromptCache.ForgetRemovesTheKey | python/mlx_worker/batching.py:215-217 | popping a key leaves exactly the other entries, keys still distinct |
| PromptCache.FitIsLongestSuffix | python/mlx_worker/batching.py:224-228 | evicting the oldest until both limits hold keeps the longest recency suffix that fits them |
| PromptCache.RememberKeepsLongestSuffix | python/mlx_worker/batching.py:192-232 | a snapshot that is not empty and within max_bytes is stored: what is left is the longest recency suffix within both limits of the old entries minus the key and then the new one, each entry dropped counted; any other snapshot changes nothing |
| PromptCache.RememberKeepsSoundness | python/mlx_worker/batching.py:192-232 | keys stay distinct, and a sound store stays sound when the remembered snapshot is the KV of its key |
| PromptCache.EvictAndReset | python/mlx_worker/batching.py:234-253 | evicting takes the oldest entry and counts it, resetting empties exactly what it is asked to |
| PromptCache.CountersAgreeWithHistory | python/mlx_worker/batching.py:180-254 | over any run, since the counters were last reset, hits plus misses is the number of lookups, the kinds of hit add up, and every entry there was or was added is still there, was replaced or wiped, or was counted as evicted; both limits hold throughout |
| Budget.EnforcingIsDeterministic | python/mlx_worker/batching.py:71-81 | where enforcing stops depends only on the contents and the target |
| Budget.EnforcingIsFair | python/mlx_worker/batching.py:71-81 | for some k every store lost its k or k+1 oldest entries, or all it had, and those that lost k+1 are the earliest registered |
| Budget.NoEvictionBeyondTheTarget | python/mlx_worker/batching.py:71-81 | the stored bytes were over the target before the last turn, so nothing within the target is evicted |
| Budget.SetUsageReplaces | python/mlx_worker/batching.py:55-62 | a report of active bytes replaces that backend's share of the sum and no other |
| Budget.PutIsCounted | python/mlx_worker/vlm_engine.py:278-309 | when a vision entry is taken, and when taking it counts as an eviction |
| Budget.EnforcesIff | python/mlx_worker/batching.py:201-232 | the budget is enforced exactly when something was stored |
| Budget.StepStaysWithinBudget | python/mlx_worker/batching.py:43-81 | storing and reporting end within the budget from any state, and every other operation (joining empty, looking up, resetting, wiping, evicting) stays within it |
| Budget.StepIsDeterministic | python/mlx_worker/batching.py:43-81 | an operation on the stores and their budget has one outcome |
| Budget.BudgetHoldsThroughout | python/mlx_worker/batching.py:43-254 | over every run of joins, lookups, stores, resets, wipes, evictions and reports the registered stores stay within max(0, budget - active) |
| CacheBudget.CacheBudgetManager.constructor | python/mlx_worker/batching.py:46-49 | a new manager has no stores and its budget is never negative |
| CacheBudget.CacheBudgetManager.Register | python/mlx_worker/batching.py:51-53 | a store is registered once, after the earlier ones, with what it holds |
| CacheBudget.CacheBudgetManager.StoredCacheBytesAreExact | python/mlx_worker/batching.py:67-69 | the reported total is the bytes of what the registered stores hold |
| CacheBudget.CacheBudgetManager.Enforce | python/mlx_worker/batching.py:71-81 | enforcing terminates with the stored bytes at most max(0, budget - active), at the first point of the round-robin order where they are |
| CacheBudget.CacheBudgetManager.SetActiveBatchBytes | python/mlx_worker/batching.py:55-58 | a report is one budget step: the bound holds for the new active bytes, by the same fair evictions |
| CacheBudget.PromptCacheStore.constructor | python/mlx_worker/batching.py:87-107 | a new store is empty and joins its manager, if it has one, as one budget step |
| CacheBudget.PromptCacheStore.Consider | python/mlx_worker/batching.py:125-178 | the branches over one entry compute exactly its offer |
| CacheBudget.PromptCacheStore.Lookup | python/mlx_worker/batching.py:109-190 | the reverse scan returns the best offer and changes nothing but one counter of its kind, in the store and in the budget |
| CacheBudget.PromptCacheStore.EvictOldest | python/mlx_worker/batching.py:234-242 | the oldest entry goes, is counted, and its bytes are taken off the running total |
| CacheBudget.PromptCacheStore.Remember | python/mlx_worker/batching.py:192-232 | an unmanaged store ends as RememberKeepsLongestSuffix describes; for a managed one, from any state, storing and enforcing over all registered stores are one budget step |
| CacheBudget.PromptCacheStore.Reset | python/mlx_worker/batching.py:244-254 | clears entries and counters as asked, with the byte total in step; for a managed store one budget step that changes no other store |
| CacheBudget.VisionFeatureCache.EvictOldest | python/mlx_worker/vlm_engine.py:316-326 | the oldest vision entry goes and is counted; without a wrapped cache nothing happens |
| CacheBudget.VisionFeatureCache.Put | python/mlx_worker/vlm_engine.py:278-309 | what is stored and returned for every guard, and the eviction counted for a full cache that did not grow; for a managed cache, from any state, one budget step with the enforcing that follows |
| CacheBudget.VisionFeatureCache.Clear | python/mlx_worker/vlm_engine.py:311-314 | nothing is left and the eviction count stays; for a managed cache one budget step that changes no other store |
| Generation.PromptSnapshotSoundIff | python/mlx_worker/batching.py:973-985 | a finished state cut back to the prompt is the KV of the prompt if and only if it starts with the prompt and is as long as the sequence it was announced with |
| Generation.StreamIsTheProjection | python/mlx_worker/batching.py:414-441 | for every interleaving, the stream of a uid is what was said to it, up to and including its first finishing response |
| Generation.InterleavingIsInvisible | python/mlx_worker/batching.py:414-441 | two interleavings that say the same to a uid give it the same stream |
| Generation.OnlyTheStopIsDropped | python/mlx_worker/batching.py:419-425 | the tokens kept are all of the stream but the one that came with a stop |
| Generation.DistinctIff | python/mlx_worker/batching.py:401-402 | uids are distinct exactly when their set has as many elements as the list |
| Completion.PrepareSplitsPrompts | python/mlx_worker/batching.py:343-381 | requests are refused in order for the first unacceptable one; otherwise every used hit splits its prompt into a cached prefix and a non-empty suffix |
| Completion.BatchIsRefusedIff | python/mlx_worker/batching.py:343-350 | a batch is refused exactly when its first unacceptable request is for another model, or over the limits, and for that reason |
| Completion.LongestPrefixIsReused | python/mlx_worker/batching.py:355-388 | with trimming that works, an entry that shares n tokens saves at least n, unless the whole prompt is stored; then nothing is reused |
| Completion.ReportIsTruthful | python/mlx_worker/batching.py:449-462 | the cache hit, the cached tokens and bytes a reply reports are those of the hit that was used |
| Completion.StreamIsTheNetworks | python/mlx_worker/batching.py:383-441 | a stream fed a cached prefix says exactly what the network says of the whole prompt |
| Completion.AnswerIsTheReference | python/mlx_worker/batching.py:447-487 | text, finish reason and token counts of a reply are those of the network's answer to the prompt |
| Completion.StoringKeepsSoundness | python/mlx_worker/batching.py:475-487 | what a finished request files is the KV of its prompt, so the store stays sound |
| Completion.PromptIsStored | python/mlx_worker/batching.py:476-487 | a finished answer whose state can be cut back and fits leaves its prompt as the newest entry, any other leaves the cache alone |
| Completion.BatchIsTransparent | python/mlx_worker/batching.py:323-489 | one batch on a sound store comes to what it would without a cache (its answers, its refusal or the generator's failure) and leaves the store sound |
| Completion.HistoryKeepsStoreSound | python/mlx_worker/batching.py:323-489 | every history of batches, answered, refused or failed, evictions and resets keeps the store sound |
| Completion.CacheIsTransparent | python/mlx_worker/batching.py:323-489 | after every such history each batch comes to what it would with no cache at all: the same answers, refusal or failure |
| Completion.Drive | python/mlx_worker/batching.py:410-442 | polling stops at the first poll after which every stream has finished or three polls in a row were empty, stalls exactly in the second case, and otherwise the tables hold each uid's own stream |
| Completion.MlxBatchCompletionBackend.PrepareRequest | python/mlx_worker/batching.py:344-381 | the checks and the lookup for one request, and the one lookup counted |
| Completion.MlxBatchCompletionBackend.PrepareBatch | python/mlx_worker/batching.py:343-381 | all requests in order, stopping at the first failure |
| Completion.MlxBatchCompletionBackend.CollectReplies | python/mlx_worker/batching.py:447-489 | replies in request order, the store updated after each |
| Completion.MlxBatchCompletionBackend.CompleteMany | python/mlx_worker/batching.py:323-489 | the result and the store are those that CacheIsTransparent speaks about, for every script of polls, heard up to the first poll at which polling stops |
| RequestBoard.EnqueueAccounted | python/mlx_worker/batching.py:585-592 | accepting a request keeps every submission in exactly one place |
| RequestBoard.RefuseAccounted | python/mlx_worker/batching.py:568-583 | a refused request is answered once, with an error |
| RequestBoard.WithdrawAccounted | python/mlx_worker/batching.py:595-603 | cancelling a waiting request moves it to the answered ones, with one terminal event |
| RequestBoard.AdvanceAccounted | python/mlx_worker/batching.py:671-678 | a delta goes to a running request and is added to what it was sent |
| RequestBoard.CloseAccounted | python/mlx_worker/batching.py:605-614 | a running request leaves with one terminal event and nothing after it |
| RequestBoard.PutAssigns | python/mlx_worker/batching.py:752-757 | after a job was entered under its uid, that uid has this job and every other uid what it had |
| RequestBoard.ActivateAccounted | python/mlx_worker/batching.py:752-757 | starting a request moves it from waiting to running |
| RequestBoard.HoldAccounted | python/mlx_worker/vlm_engine.py:1282-1297 | a prepared vision request is held for the batch and still counted once |
| RequestBoard.FailAccounted | python/mlx_worker/vlm_engine.py:1298-1302 | a failed or cancelled preparation is answered once |
| Streaming.DeltasAreTheTextIff | python/mlx_worker/batching.py:781-796 | concatenated deltas equal the text if and only if no decoding step rewrote text already shown |
| Streaming.CompletingRewrites | python/mlx_worker/batching.py:781-796 | a decoder that completes a character rewrites it, and its client has seen one too many |
| Streaming.MonotoneDecoderStreamsFaithfully | python/mlx_worker/batching.py:781-811 | for a prefix-monotone decoder the deltas add up to the text a client that does not stream gets |
| TextScheduler.StepKeeps | python/mlx_worker/batching.py:567-761 | submit, cancel and tick each keep the invariant, and an obedient generator never makes a tick raise |
| TextScheduler.RunKeeps | python/mlx_worker/batching.py:567-830 | over every run each submission is waiting, running or answered exactly once and silent after its answer, at most decode_concurrency run, the order of admission is the order of submission minus the cancelled, and tokens and text are those of the job's own responses |
| TextScheduler.SubmitQueuesOrRefuses | python/mlx_worker/batching.py:567-592 | a request for the loaded model with allowed tokens joins the queue with its prompt and the hit of one lookup, any other gets one error |
| TextScheduler.CancelAnswersTheRequest | python/mlx_worker/batching.py:594-616 | a cancellation answers exactly the first waiting or else the first running request of the id, with the text it was shown; without one nothing happens |
| TextScheduler.TickHears | python/mlx_worker/batching.py:654-684 | a tick hears everything the generator says to running jobs |
| TextScheduler.AdmissionTakesTheHead | python/mlx_worker/batching.py:700-708 | an admission takes at most prompt_concurrency requests, all from the head of the queue, in order |
| TextScheduler.AdmissionFillsUp | python/mlx_worker/batching.py:686-761 | as many requests are admitted from the head as the queue and the two limits allow, they run under their uids, and nothing else changes |
| TextScheduler.AdmissionFailsIff | python/mlx_worker/batching.py:745-750 | an admission raises exactly when the generator answers with a wrong number of uids or one twice, and then the batch is off the queue |
| TextScheduler.StreamedTextIsFinalTextIff | python/mlx_worker/batching.py:781-843 | a streamed request's deltas equal its answer's text if and only if the decoder only extended |
| TextScheduler.AnswerIs | python/mlx_worker/batching.py:798-843 | an answered client got exactly one final event, with the text, the reason and the lengths of its prompt and of its generated tokens, and the deltas the decoder makes of them |
| TextScheduler.StreamingAgreesWithNotStreaming | python/mlx_worker/batching.py:781-811 | with a prefix-monotone decoder a streaming and a non-streaming client of the same tokens end with the same text |
| ContinuousBatching.ContinuousBatchScheduler.constructor | python/mlx_worker/batching.py:532-565 | a new scheduler is in the initial state |
| ContinuousBatching.ContinuousBatchScheduler.Submit | python/mlx_worker/batching.py:567-592 | the fields after submit are those of the step function: an error event or one more waiting request |
| ContinuousBatching.ContinuousBatchScheduler.Cancel | python/mlx_worker/batching.py:594-616 | the first waiting, else the first running request of that id is answered as cancelled; true exactly if something changed |
| ContinuousBatching.ContinuousBatchScheduler.EmitDelta | python/mlx_worker/batching.py:781-796 | the delta sent and the text recorded after a token |
| ContinuousBatching.ContinuousBatchScheduler.FinishJob | python/mlx_worker/batching.py:798-879 | the snapshot filed under the key the code uses, and the final event |
| ContinuousBatching.ContinuousBatchScheduler.DeliverResponse | python/mlx_worker/batching.py:659-684 | one response reaches the job of its uid or is ignored |
| ContinuousBatching.ContinuousBatchScheduler.StepGenerator | python/mlx_worker/batching.py:654-684 | all responses of a poll, in order |
| ContinuousBatching.ContinuousBatchScheduler.TakeBatch | python/mlx_worker/batching.py:703-708 | the batch is the head of the queue, as long as both limits allow |
| ContinuousBatching.ContinuousBatchScheduler.StartBatch | python/mlx_worker/batching.py:752-757 | each job runs under its uid |
| ContinuousBatching.ContinuousBatchScheduler.Admit | python/mlx_worker/batching.py:686-761 | admission, and false where the code raises for unusable uids |
| ContinuousBatching.ContinuousBatchScheduler.Tick | python/mlx_worker/batching.py:618-633 | a whole tick of the object is a step of the state machine |
| TextDrain.BusyTickShrinks | python/mlx_worker/batching.py:618-639 | a tick of a busy scheduler lowers an explicit measure, and an idle one stays idle |
| TextDrain.DrainReachesIdle | python/mlx_worker/batching.py:637-639 | with no more submissions the scheduler is idle after more ticks than that measure, and then every request ever submitted has been answered once |
| TextCacheKeys.FinishStoresSoundlyIff | python/mlx_worker/batching.py:814-830 | the filed entry is sound if and only if the token sequence starts with the filing key and, when no list came along, is no longer than it |
| TextCacheKeys.FinishingFilesThePrompt | python/mlx_worker/batching.py:798-838 | a finishing response files its state, cut back, under the reused prefix and the prompt, if that can be done and fits; any other response leaves the store alone |
| TextCacheKeys.WithoutReuseStoresSoundly | python/mlx_worker/batching.py:814-830 | a job without a reused prefix whose tokens came along files the KV of its prompt |
| TextCacheKeys.ReuseStoresSoundlyIff | python/mlx_worker/batching.py:815-829 | after a reused prefix the entry is sound exactly if the sequence repeats the whole prompt right after the prefix |
| TextCacheKeys.ReuseCanStoreTheWrongState | python/mlx_worker/batching.py:815-829 | a run of submit, admission and answer from a sound store after which lookup offers the state of other tokens than it names |
| VlmScheduler.StepKeeps | python/mlx_worker/vlm_engine.py:1017-1340 | submit, cancel and tick each keep the invariant |
| VlmScheduler.RunKeeps | python/mlx_worker/vlm_engine.py:1017-1340 | over every run no generator means nothing running, all running jobs share the generator's sampling setting, and each submission is waiting, running or answered exactly once, through preparation failures, cancellations and generator replacement |
| VlmScheduler.SubmitQueuesOrRefuses | python/mlx_worker/vlm_engine.py:1017-1028 | a request for the loaded model joins the queue, any other gets one error |
| VlmScheduler.CancelAnswersTheRequest | python/mlx_worker/vlm_engine.py:1030-1141 | a cancellation answers exactly the first waiting or else the first running request of the id; without one nothing happens |
| VlmScheduler.AnswerIsSent | python/mlx_worker/vlm_engine.py:1536-1610 | an answered client got exactly one final event, with the text, the reason and the token counts of its job |
| VlmScheduler.ScanGivesOutcomes | python/mlx_worker/vlm_engine.py:1269-1311 | a request that left the queue was of the admitted setting and was prepared, answered as cancelled, or answered with an error, as its preparation came out |
| VlmScheduler.AdmissionHasOutcomes | python/mlx_worker/vlm_engine.py:1245-1340 | after an admission a request still waits, runs with what its preparation gave, or was answered |
| VlmScheduler.AdmissionFailsIff | python/mlx_worker/vlm_engine.py:1324-1329 | an admission raises exactly when the generator answers with a wrong number of uids or one twice, and then the batch is off the queue |
| VlmScheduler.TickHears | python/mlx_worker/vlm_engine.py:1183-1243 | a tick hears everything the generator says to running jobs |
| VlmScheduler.ScanLeavesTheOthersInOrder | python/mlx_worker/vlm_engine.py:1269-1311 | going through the queue leaves the others in their order and stops only for a full house, a full batch or a queue without the setting |
| VlmScheduler.AdmissionKeepsOrder | python/mlx_worker/vlm_engine.py:1245-1340 | the queue after an admission is a subsequence of the queue before, with every request of another setting still in it (when the head itself is passed over is HeadIsOvertakenIff) |
| VlmScheduler.CancelledTextWasStreamed | python/mlx_worker/vlm_engine.py:1063-1079 | a cancelled streaming request is answered with exactly the text it was streamed |
| VlmScheduler.StreamedTextIsFinalTextIff | python/mlx_worker/vlm_engine.py:1208-1243 | the deltas equal the final text exactly unless the tokenizer's final text no longer begins with what was shown (for prefix-monotone tokenizers see VlmStreaming) |
| VlmScheduler.FinalTextIff | python/mlx_worker/vlm_engine.py:1542-1546 | replacing the shown text by the decoded one changes nothing if and only if the last step extended it |
| VlmStreaming.StreamIsTheProjection | python/mlx_worker/vlm_engine.py:1206-1243 | for every interleaving, the stream of a uid is what was said to it, up to its first finishing response |
| VlmStreaming.GeneratedAreTheTokens | python/mlx_worker/vlm_engine.py:1213-1216 | a job's tokens are all the tokens of its stream, in order |
| VlmStreaming.OwnTextIsShown | python/mlx_worker/vlm_engine.py:1226-1234 | without a tokenizer, and before the first token, the text shown is the responses' own |
| VlmStreaming.ShownIsDecoded | python/mlx_worker/vlm_engine.py:1217-1234 | for a prefix-monotone tokenizer the text shown is at every point what the tokens so far decode to |
| VlmStreaming.AnswerIsDecoded | python/mlx_worker/vlm_engine.py:1208-1243 | then every answer, finished or cancelled, is what all tokens of its stream decode to, and a streaming client was sent exactly that |
| VlmStreaming.StreamingAgreesWithNotStreaming | python/mlx_worker/vlm_engine.py:1542-1546 | then streamed deltas, the final text and the text without streaming are the same for the same tokens |
| VlmStreaming.WithoutTokenizer | python/mlx_worker/vlm_engine.py:1226-1234 | without a tokenizer the answer is the texts of its responses put together, and a streaming client was sent it |
| VlmOvertaking.HeadIsOvertakenIff | python/mlx_worker/vlm_engine.py:1245-1275 | an admission leaves the head waiting while taking others if and only if a generator of another setting is left over with nothing running and somebody waiting for it |
| VlmOvertaking.HeadCanBeOvertaken | python/mlx_worker/vlm_engine.py:1245-1340 | a run in which the third request runs while the second, at the head, waits |
| VlmBatching.VlmContinuousBatchScheduler.Submit | python/mlx_worker/vlm_engine.py:1017-1028 | the fields after submit, and whether the model was right |
| VlmBatching.VlmContinuousBatchScheduler.Cancel | python/mlx_worker/vlm_engine.py:1030-1134 | a waiting, else a running request of that id is answered as cancelled |
| VlmBatching.VlmContinuousBatchScheduler.HearResponse | python/mlx_worker/vlm_engine.py:1217-1234 | tokens and text after a response, with and without a tokenizer, and the delta sent |
| VlmBatching.VlmContinuousBatchScheduler.DeliverResponse | python/mlx_worker/vlm_engine.py:1206-1243 | one response reaches the job of its uid or is ignored |
| VlmBatching.VlmContinuousBatchScheduler.StepGenerator | python/mlx_worker/vlm_engine.py:1183-1243 | all responses of a poll, in order |
| VlmBatching.VlmContinuousBatchScheduler.PrepareRequest | python/mlx_worker/vlm_engine.py:1275-1305 | one preparation: held for the batch, or answered as cancelled or failed |
| VlmBatching.VlmContinuousBatchScheduler.FillBatch | python/mlx_worker/vlm_engine.py:1266-1311 | the loop over the queue, requests of other settings put back in front of the rest |
| VlmBatching.VlmContinuousBatchScheduler.AdmitPending | python/mlx_worker/vlm_engine.py:1245-1340 | admission with generator creation, replacement and closing |
| VlmBatching.VlmContinuousBatchScheduler.Tick | python/mlx_worker/vlm_engine.py:1143-1161 | a whole tick of the object is a step of the state machine |
| VlmDrain.RestingTick | python/mlx_worker/vlm_engine.py:1245-1316 | with nothing running a tick takes something off the queue or closes a generator of another setting |
| VlmDrain.TwoTicksMoveTheQueue | python/mlx_worker/vlm_engine.py:1143-1316 | whatever settings are waiting, two ticks from rest take at least one request off the queue |
| VlmDrain.BusyTickShrinks | python/mlx_worker/vlm_engine.py:1143-1167 | a tick of a busy scheduler lowers an explicit measure |
| VlmDrain.DrainReachesIdle | python/mlx_worker/vlm_engine.py:1143-1167 | with no more submissions the scheduler is idle after more ticks than that measure, and then every request ever submitted has been answered once |
| WorkerLoop.TurnsAlternate | python/mlx_worker/main.py:692-699 | neither scheduler stays second for longer than tick_max_consecutive rounds, whatever is ready |
| WorkerLoop.OrderHoldsForFour | python/mlx_worker/main.py:691-699 | while both have work the order holds for four rounds and then changes, and it changes at once when one is idle |
| WorkerLoop.Worker.TickSchedulers | python/mlx_worker/main.py:671-699 | a round ticks each scheduler exactly once, in either order with the same result, and passes the turn |
| WorkerLoop.Worker.Drain | python/mlx_worker/main.py:784-790 | after the input has ended the rounds end with both schedulers idle and every request answered exactly once, within an explicit bound and without raising |
| Lines.FramesAppend | python/mlx_worker/main.py:42-50 | bytes that arrive later do not change the lines complete before them |
| Lines.FramesRejoin | python/mlx_worker/main.py:42-50 | cutting into lines loses no byte |
| Lines.FramesOfConcat | python/mlx_worker/main.py:42-50 | lines written one after the other are read back as they were |
| Framing.ReadTakesTheFirstFrame | python/mlx_worker/main.py:53-83 | a read takes the first unread line or leaves the unread bytes alone, and reports the end of input only when no line is left |
| Framing.PollConserves | python/mlx_worker/main.py:102-118 | a cancellation poll consumes a matching cancellation or defers the frame |
| Framing.PollTakesTheLineInSight | python/mlx_worker/main.py:66-118 | a poll takes the first complete line it can see, consumes it exactly if it matches, and answers true only for that or a closed connection |
| Framing.AtMostOneIsConsumed | python/mlx_worker/main.py:101-118 | the polls of a request consume at most one line |
| Framing.CancelIsSeen | python/mlx_worker/main.py:101-133 | while the socket is ready, a request that polls often enough consumes the first cancellation meant for it, with every line before it deferred |
| Framing.NoFrameIsLost | python/mlx_worker/main.py:276-285 | for every chunking and every pattern of polls, frames processed, deferred and unread are the input's lines minus exactly the consumed matching cancellations, in order |
| Framing.LoopEnds | python/mlx_worker/main.py:276-285 | after more iterations than there are lines the loop has ended, with every frame taken and every kept one processed |
| Framing.ChunkingIsInvisible | python/mlx_worker/main.py:53-83 | two chunkings of the same bytes, each read to its end, yield the same frames |
| Framing.CommandReader.PopBufferedLine | python/mlx_worker/main.py:42-50 | the buffer up to and with its first newline |
| Framing.CommandReader.ReadCommandLine | python/mlx_worker/main.py:53-83 | the loop over socket reads, blocking and not |
| Framing.CommandReader.ShouldCancel | python/mlx_worker/main.py:102-118 | one poll; once cancelled, nothing more is read |
| Framing.CommandReader.NextFrame | python/mlx_worker/main.py:279-285 | deferred frames come first, in order |
| Framing.CommandReader.Serve | python/mlx_worker/main.py:276-285 | the serial command loop is the one NoFrameIsLost speaks about |
| Codec.EncodePartList | python/mlx_worker/ipc.py:442-459 | the loop over content parts |
| Codec.DecodePartList | python/mlx_worker/ipc.py:418-439 | the loop over decoded items, up to the first bad one |
| Codec.PartsRoundTrip | python/mlx_worker/ipc.py:418-459 | encoded content parts decode to themselves |
| Codec.MessagesRoundTrip | python/mlx_worker/ipc.py:398-404 | encoded messages decode to themselves |
| Codec.RequestRoundTrip | python/mlx_worker/ipc.py:393-497 | an encoded request body decodes to the request, field by field |
| Codec.RequestIsPrintable | python/mlx_worker/ipc.py:393-415 | what is printed of a request has distinct keys throughout, when the scalars it was given are printable |
| JsonTexts.FaithfulTextExists | python/mlx_worker/ipc.py:415 | some text of JSON meets everything the codec assumes of it |
| Codec.CommandRoundTrip | python/mlx_worker/ipc.py:390-497 | an encoded command with printable scalars is one line, decodes to its request, and is never taken for a cancellation |
| Codec.CancelRoundTrip | python/mlx_worker/ipc.py:623-627 | an encoded cancellation is one line, decodes to that of its id, and matches its own id only |
| Codec.MatchesIff | python/mlx_worker/main.py:121-137 | a frame is taken for a cancellation exactly when it reads as an object of that type with that id |
| Codec.CancelReachesTheRequest | python/mlx_worker/main.py:101-133 | a cancellation sent behind other requests reaches the request it is for, and those requests wait in order |
| Codec.OtherCommands | python/mlx_worker/ipc.py:467-478 | cancellations and resets need an id, reset flags default to true, other types are ignored |
| Codec.MissingFieldIsAnError | python/mlx_worker/ipc.py:479-499 | a request without one of its required fields is an error |
| Codec.OptionalFieldsDefault | python/mlx_worker/ipc.py:498-499 | without stop and stream a request has no stop texts and does not stream |
| Codec.PartDefaults | python/mlx_worker/ipc.py:425-440 | an image without a detail is for "auto", and a part of unknown type is its own text |
| Codec.OddContent | python/mlx_worker/ipc.py:418-440 | content that is neither text nor a list: an empty object has no parts, anything else is an error |
| Codec.BadTextIsAnError | python/mlx_worker/main.py:124-127 | a line that is not JSON is an error and nobody's cancellation |
| Codec.RequestsSurviveTheWire | python/mlx_worker/ipc.py:390-497 | requests encoded in a row, cut into any chunks and read by a worker polling in any pattern, are processed as exactly those requests in order, and then the loop ends |
| Configuration.ValidateSuite | python/mlx_benchmark/configuration.py:436-617 | the suite checks accept exactly the suites the validity predicate describes |
| Configuration.ScheduledRuntimes | python/mlx_benchmark/configuration.py:464-502 | the walk over the orders accepts exactly orders inside the suite that schedule all of it, and collects the runtimes of each model |
| Configuration.CheckCoverage | python/mlx_benchmark/configuration.py:557-617 | the walk over the coverage entries accepts exactly valid entries that cover every model and workload |
| Configuration.CheckEntry | python/mlx_benchmark/configuration.py:565-613 | one entry: inside the suite, every workload runnable, every scheduled runtime used |
| Configuration.Intersection | python/mlx_benchmark/configuration.py:913-915 | exactly the values in both lists |
| Configuration.IntersectionKeepsOrder | python/mlx_benchmark/configuration.py:913-915 | in the order of the first list |
| Configuration.SelectWorkloadsAll | python/mlx_benchmark/configuration.py:660-679 | when each workload shares a runtime with the suite, all are selected in order, cut down to the shared runtimes and given the suite's number of trials |
| Configuration.SelectOrdersAll | python/mlx_benchmark/configuration.py:697-725 | orders of selected models are all kept, in order, and planned starts are required starts |
| Configuration.SelectCoverageAll | python/mlx_benchmark/configuration.py:702-710 | an entry within the selection is kept whole |
| Configuration.SelectCoverageOnly | python/mlx_benchmark/configuration.py:702-710 | nothing else is kept: each kept entry is a configured one cut down to the selection |
| Configuration.CollectWorkloads | python/mlx_benchmark/configuration.py:660-679 | the loop over selected workloads, failing on the first without a common runtime |
| Configuration.CollectCoverage | python/mlx_benchmark/configuration.py:702-710 | the loop over coverage entries, dropping those the selection empties |
| Configuration.SelectionNeverFails | python/mlx_benchmark/configuration.py:620-737 | selecting a whole valid suite succeeds and its plan is no longer than max_model_starts |
| Configuration.SelectedAreValid | python/mlx_benchmark/configuration.py:660-679 | what validation accepted of a workload still holds after selection, with any focus |
| Configuration.PlanIsComplete | python/mlx_benchmark/runner.py:914-931 | the plan holds exactly one execution for every runtime of every order |
| Configuration.PlanIsInOrder | python/mlx_benchmark/runner.py:914-931 | the plan takes the orders one after the other and each order's runtimes in its own order |
| Configuration.WorkloadsForOnly | python/mlx_benchmark/runner.py:934-961 | an execution gets exactly the workloads covered for its model that use its runtime |
| Configuration.ExecutionHasWork | python/mlx_benchmark/runner.py:934-961 | every planned execution of a whole valid suite has a workload |
| Configuration.WorkloadHasExecution | python/mlx_benchmark/runner.py:934-961 | every workload of a whole valid suite runs in some planned execution |
| Focusing.FocusedOrderIsAppliedIff | python/mlx_benchmark/runner.py:168-203 | for every valid configuration and accepted focus, the recorded order is the planned one if and only if every runtime ordered for a focused model is used by a focused workload covered for that model |
| Focusing.FocusIsAcceptedIff | python/mlx_benchmark/configuration.py:620-737 | which focuses of a valid configuration selection accepts: those the suite lists and covers on both sides, with exactly one execution for an external server |
| Configuration.ValidationIsSufficient | python/mlx_benchmark/configuration.py:435-617 | for every valid configuration and every suite without a required focus, selection succeeds, every execution has work, every workload runs, the starts are bounded and the final order check passes |
| Focusing.FocusCanIdleAnExecution | python/mlx_benchmark/configuration.py:646-719 | a valid configuration whose focused selection succeeds but leaves a planned execution idle |
| Chunked.DecodeInvertsEncode | python/mlx_benchmark/loadgen.py:596-621 | the decoder inverts the chunked coding of section 7.1 of RFC 9112 for every list of non-empty chunks, any spelling of the sizes, any extensions and trailers, and stops at the first byte after the body |
| Chunked.CompleteBodyIsFinal | python/mlx_benchmark/loadgen.py:596-621 | once a body is complete, later bytes on the connection change neither its chunks nor its end, for every byte string |
| Chunked.AcceptedIsOnTheWire | python/mlx_benchmark/loadgen.py:596-621 | only bodies that carry their chunks, each behind a line with its size and before a line end, with a size of zero and trailers behind them, are accepted |
| Chunked.WhatIsBroken | python/mlx_benchmark/loadgen.py:596-621 | which error is raised for which kind of malformed body |
| Chunked.DigitsIff | python/mlx_benchmark/loadgen.py:605 | the digits accepted are hexadecimal ones with single underscores between them, and they are read as their number |
| Chunked.IntegerIsRead | python/mlx_benchmark/loadgen.py:605 | spaces, a sign and a 0x prefix around the digits are understood as the language does |
| Chunked.DigitsOfHex | python/mlx_benchmark/loadgen.py:605 | the size parser reads hexadecimal digits as their number |
| Chunked.StreamReader.ReadExactly | python/mlx_benchmark/loadgen.py:617-618 | exactly so many bytes, or the connection closed before |
| Chunked.StreamReader.SkipTrailers | python/mlx_benchmark/loadgen.py:610-616 | trailers are read up to the empty line |
| Chunked.StreamReader.ReadChunk | python/mlx_benchmark/loadgen.py:600-621 | one chunk, the end, or each of the errors |
| Chunked.StreamReader.BodyChunks | python/mlx_benchmark/loadgen.py:596-621 | the loop yields what the decoder function says and leaves the connection where it says |
| EventStream.TakeLines | python/mlx_benchmark/loadgen.py:497-518 | the event lines completed by one more chunk, in order, up to the first that is not understood |
| EventStream.ReadStreamResponse | python/mlx_benchmark/loadgen.py:479-543 | the answer is a function of the bytes of the body alone, not of how they were cut |
| EventStream.PayloadsOfAppend | python/mlx_benchmark/loadgen.py:497-505 | the events of a longer body are those of the shorter one and then the new ones |
| EventStream.CollectedInOrder | python/mlx_benchmark/loadgen.py:506-518 | collected are the contents that are not empty, in order, and the last finish reason and usage given |
| EventStream.NotUnderstood | python/mlx_benchmark/loadgen.py:505 | one event that cannot be read spoils the answer |
| EventStream.OtherLinesAreIgnored | python/mlx_benchmark/loadgen.py:500-501 | a line without the event prefix carries nothing |
| EventStream.PaddedEventCarries | python/mlx_benchmark/loadgen.py:499-504 | spaces and carriage returns around an event do not matter, and an event of spaces carries nothing |
| EventStream.EventTextCarries | python/mlx_benchmark/loadgen.py:500-505 | events written one to a line are read back, the end marker and empty lines ignored |
| EventStream.EventsSurviveTheWire | python/mlx_benchmark/loadgen.py:479-621 | whatever chunks carry the event text, exactly the events sent are acted on, in order |
| LoadTrial.EachCompletesOnce | python/mlx_benchmark/loadgen.py:362-396 | in every possible log a submitted request is in flight or completed, never both, and completes once |
| LoadTrial.NoneIsLost | python/mlx_benchmark/loadgen.py:362-396 | completed plus in flight is submitted |
| LoadTrial.SortedResults | python/mlx_benchmark/loadgen.py:329 | sorting the results of all requests gives them in the order of submission |
| LoadTrial.TrialState.Submit | python/mlx_benchmark/loadgen.py:371-385 | the count, the peak and the log entry of a submission, and the next order number |
| LoadTrial.TrialState.Complete | python/mlx_benchmark/loadgen.py:387-396 | the count and the log entry of a completion |
| LoadTrial.TrialState.Sequential | python/mlx_benchmark/loadgen.py:300-302 | each request once, never more than one in flight |
| LoadTrial.TrialState.Burst | python/mlx_benchmark/loadgen.py:303-305 | all requests at once, results in order of submission |
| LoadTrial.TrialState.Replace | python/mlx_benchmark/loadgen.py:318-324 | each completed request is replaced while there are more, so the number in flight is the limit until none are left |
| LoadTrial.TrialState.ClosedLoop | python/mlx_benchmark/loadgen.py:307-325 | the closed loop ends, submits every index once, collects every result once, and its peak is the smaller of concurrency and count |
| LoadTrial.ExecuteTrial | python/mlx_benchmark/loadgen.py:265-359 | in every mode and every completion order: each index once, consecutive order numbers, and the mode's exact peak |
| LoadTrial.PeakCheckPassesIff | python/mlx_benchmark/runner.py:1423-1453 | the checks of a completed trial pass exactly for the workloads that validation's concurrency rules let through |
| LoadTrial.TrialFailsIff | python/mlx_benchmark/runner.py:1423-1453 | what the checks of a completed trial catch |
| LoadTrial.ExecuteWorkloads | python/mlx_benchmark/loadgen.py:159-217 | exactly the trials the workloads ask for are run, in order; the order numbers continue without a gap and every trial passes |
| LoadTrial.ExecutePlan | python/mlx_benchmark/runner.py:1542-1548 | a whole run of an accepted configuration runs exactly the planned trials, and neither the trial checks nor the order check can fire |
| ConnectionPool.StepKeeps | python/mlx_benchmark/loadgen.py:133-156 | every step of every task keeps the pool's invariant, cancellations at every wait included |
| ConnectionPool.RunKeeps | python/mlx_benchmark/loadgen.py:116-156 | in every interleaving no connection has two users, and idle plus used connections never exceed the maximum |
| ConnectionPool.RetiredIsNeverHandedOut | python/mlx_benchmark/loadgen.py:143-155 | a connection found not to be reusable is never handed out again |
| ConnectionPool.NoRequestWaits | python/mlx_benchmark/loadgen.py:136 | while at most the maximum of requests are unfinished, a queued one gets a permit at once |
| ConnectionPool.LastGivenBackIsTaken | python/mlx_benchmark/loadgen.py:137-152 | the connection given back last is taken first |
| ConnectionPool.NewOnlyIfNoneIdle | python/mlx_benchmark/loadgen.py:137-142 | a connection is made only when none is idle |
| ConnectionPool.AsyncHttpPool.TakeConnection | python/mlx_benchmark/loadgen.py:137-142 | the connection taken has no other user and is not retired |
| ConnectionPool.AsyncHttpPool.FinishRequest | python/mlx_benchmark/loadgen.py:150-156 | a reusable connection goes back, any other is closed, and the permit is released |
| Percentiles.PercentileIsAt | python/mlx_benchmark/statistics.py:382-394 | the percentile is linear interpolation in the sorted samples |
| Percentiles.ImplementationsAgree | python/mlx_worker/benchmarking.py:307-321 | the worker's percentile equals the analysis's for every sample list and percentage |
| Percentiles.PercentileIgnoresOrder | python/mlx_benchmark/statistics.py:382-394 | the order of the samples does not matter |
| Percentiles.PercentileIsMonotone | python/mlx_benchmark/statistics.py:382-394 | a higher percentage never gives a lower value |
| Percentiles.PercentileIsWithin | python/mlx_benchmark/statistics.py:382-394 | a percentile lies between any bounds of the samples |
| Percentiles.BootstrapIsWithin | python/mlx_benchmark/statistics.py:256-268 | for every resampling the interval is ordered and stays within the samples' bounds |
| Percentiles.BootstrapIs | python/mlx_benchmark/statistics.py:256-268 | the interval is the percentiles 2.5 and 97.5 of the means of the draws, or the single value |
| GpuIntervals.MergeIntervals | mlx-host-validation/scripts/python/phase17_overlap_benchmark.py:626-631 | the merged intervals are in order, strictly separated, and cover exactly the instants the input covers |
| GpuIntervals.SeparatedIsUnique | mlx-host-validation/scripts/python/phase17_overlap_benchmark.py:626-631 | separated intervals are determined by what they cover, so the result does not depend on the order of the input |
| GpuIntervals.EveryGapIsCounted | mlx-host-validation/scripts/python/phase17_overlap_benchmark.py:632-636 | there is one positive gap between each merged interval and the next |
| GpuIntervals.ActiveAndIdleMakeTheSpan | mlx-host-validation/scripts/python/phase17_overlap_benchmark.py:632-643 | active time plus the idle gaps is the span |
| GpuIntervals.ActiveTimeIsBusyTime | mlx-host-validation/scripts/python/phase17_overlap_benchmark.py:642 | active time counts every busy instant once |
| JpegSize.ReadJpegSize | benchmarks/vlm_fixtures.py:268-312 | the scan terminates on every file with what the specification function finds |
| JpegSize.ReadMarker | benchmarks/vlm_fixtures.py:278-282 | the byte after any number of fill bytes |
| JpegSize.ReadSegment | benchmarks/vlm_fixtures.py:286-312 | a frame header gives the size, any other segment is skipped whole |
| JpegSize.SizeIsFound | benchmarks/vlm_fixtures.py:268-312 | behind a start of image and any segments with any payload and fill bytes, the width and height of the frame header are returned |
| JpegSize.SizeIsOfAFrame | benchmarks/vlm_fixtures.py:268-312 | a size is reported only for a file that begins with a start of image and has a frame header with that size |

## Left out

- The libraries behind the worker (models, batch generators, samplers, tokenizers, the trim of a KV cache): parameters with the contracts named above.
- Timing, memory and batch-size fields of responses, prompt progress reports and token counts that a vision response brings along: they are copied, never decided on.
- The reader thread and the command queue of the worker, in which a stop can arrive with lines still queued: the serial loop and the rounds after the last command are modelled. A worker without a vision scheduler is the text half alone.
- The schedulers' reports of active batch bytes to the budget manager: the manager's side is modelled, and the engine's text store is created without a manager (engine.py:78-82).
- The vision scheduler's own prompt cache: what it files on finishing is an instance of `Generation.PromptSnapshotSoundIff`, but its store is not part of the scheduler's state.
- Re-entrant cancellation while a vision request is being prepared: a cancelled preparation is an outcome of the preparation.
- Jobs and requests are values, not objects shared between the queue, the batch and the running table.
- CacheBudget.PromptCacheStore.constructor: does not model a negative max_entries, because the eviction loop of remember would not end on it.
- CacheBudget.VisionFeatureCache.Put: does not model which entries the wrapped upstream cache keeps, because that cache is external; it is an input.
- The vision cache's get, with its hit counters and signature check.
- Generator failures other than unusable uids, and uids reused while their request runs.
- TextDrain.DrainReachesIdle: does not model concurrency limits of zero, because then nothing is ever admitted.
- The response codec and the bootstrap messages: the decoder reads fewer fields than the encoder writes, by design.
- Framing.NoFrameIsLost: does not claim that every cancellation is seen, because polls do not look into deferred frames.
- JSON text: only its stated properties are used. Floats that are not finite, and negative zero, are not among the values. Integers have no length limit and values no nesting limit, unlike Python's defaults. A decoded value that is not an object where one is expected is modelled as the Python error it causes.
- Prompt banks, metrics, warmups, tail sets, diagnostics and profiles of a benchmark configuration: checked field by field, with no consequences for the plan.
- Configuration.Select: server modes other than external and self-launched, and failing profiles, end before the part that is modelled.
- Chunked.Decode: does not model the line length limit of the stream reader, because it is a setting of the library.
- Bodies of fixed length and bodies that end with the connection: read in a plain loop; `EventStream.ReadStreamResponse` holds for them too, since it takes any list of chunks.
- Timeouts, transport errors and HTTP heads: a request ends with a verdict on its connection, which is an input of the pool.
- LoadTrial.TrialState.ClosedLoop: does not model two completions whose recorded times differ from their order in the log, because times are not modelled.
- Percentiles.Percentile: over the reals, without rounding, and does not model percentages outside 0 to 100 or a minimum of zero samples on an empty list, because nothing calls it so. A single sample is returned for any percentage. Otherwise, below 0 the analysis indexes from the end of the list (or past it, an index error) and the worker extrapolates from there or from the first two samples; above 100 the analysis raises an index error, and so does the worker once the truncated rank is past the last sample, which it returns until then. The empty list raises an index error.
- The units of the trace analysis and the parsing of its XML.
- Markers without a length other than start and end of image (restart markers, TEM) do not occur between segments before a frame header and are left to the general scan.
