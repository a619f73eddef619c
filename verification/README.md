# MKC verification

A Dafny model of the algorithmic and protocol parts of MKC, a retrieval-augmented question answering system made of a
Python AI service and a Go gateway, with proofs of what these parts promise. `dafny verify dfyconfig.toml` checks the
whole project.

The modules follow the system's components:

- **Chunking.** `BaseChunker` is the recursive coarse-to-fine splitter with greedy merging; `SemanticChunker`,
  `ParagraphChunker` and `FixedTokenChunker` are the strategies built on it. `FixedTokenChunker` also holds the
  summarizer's arithmetic window, which the binary-search chunker is proved to refine. `AsrIndexing` joins speech
  segments, chunks the joined text and maps chunks back to audio times.
- **Subtitles.** `SegmentMerger` sorts, merges and splits timed cues; times are exact reals.
- **Streaming.** `AgentRun` is the agent's event stream, `SseCodec` printing and parsing of Server-Sent Events,
  `QaStream` the gateway's relay as a state machine over all interleavings, and `StreamingPipeline` puts the three
  together: what the agent tells is what the gateway forwards and saves.
- **Tasks.** `TaskBroadcaster` is the broadcaster under all interleavings of its critical sections and channel
  operations; `TaskLifecycle` is the task row under any run of reports, progress updates and retries.
- **Retrieval.** `Rrf` is reciprocal rank fusion, `CacheKey` and `Bm25Cache` the index cache, `RetrievalStages` and
  `RetrievalEngines` the two retrieval paths and their agreement, and `RetrievalCompleteness` what they find.
- **Limits and citations.** `RateLimiters` and `CitationFormatter`.
- `Text`, `Lists` and `StableSort` hold the string and list theory the components share; `Asr` the speech segment.

What the outside world answers (language model, store, clock, scheduler, JSON) is a parameter, so every theorem holds
for all its answers. The token estimator is an arbitrary function; `count(t) = |t|` is its fallback.

Where the code and its description differ, the model follows the code:

- The gateway's limiter is described as a sliding window; it is a fixed window, and `BoundIsTight` shows that almost
  twice the budget passes within one window length (`2*requests-1`, never more). It keeps its budget in every such
  interval only for a budget of one (`KeepsBudgetIffOne`).
- `Publish` sends after releasing the lock, so a send can hit a closed channel: `PublishCanPanic` gives the
  interleaving. Over all interleavings a panic is possible exactly when a channel is closed that a `Publish` under way
  has yet to try (`PublishPanicsIffUnguarded`). The panic ends the request that published; the broadcaster goes on, and
  so do the runs of the model.
- The language-model client reports an interrupted stream by an error chunk without text. The agent drops that chunk, so
  the run is done with the part that arrived (`InterruptionPassesForEnd`, `InterruptedRunIsDone`); only an error chunk
  with text ends a run in an error (`BreaksOffIff`).
- The agent validates before citations are built, so a validator that passes answers without citations validates at
  most once and the retry loop is idle (`ValidateLoop`).
- An error message outlives a later success of the task (`ErrorOutlives`, `ErrorSurvivesCompletion`), since an empty
  message is not written.
- The LlamaIndex engine checks the scope of every candidate, the service only of what it returns, so the engine can
  refuse where the service answers (`EngineIsStricter`, `StrayHit`).
- On the empty text the token chunker yields no chunk and the summarizer one empty chunk (`BothChunkers`).
- Resource ids with a comma can share a cache key with other ids (`CommaIsAmbiguous`), so freshness of the cache is
  proved for ids without punctuation and an unchanged corpus; the cache is not invalidated when the store changes.

## Model

| member | source | states |
|---|---|---|
| `BaseChunker.Chunker.SplitText` | ai-service/app/services/chunking/base_chunker.py:85-132 | For every text, offset, separator list and either merge flag: the pieces are non-empty, lie edge to edge from the offset, each is the slice at its own offsets, none is longer than the size; every piece is within the character and the token limit, or a run of the size cut from a part in which no separator is left; a text within both limits stays whole; every cut is one the separator hierarchy allows (only an oversize text is cut, finer separators only inside a coarser part); with merging no piece leaves room for what follows it, without merging every first-separator part of an oversize text starts a piece |
| `BaseChunker.Chunker.SplitParts` | ai-service/app/services/chunking/base_chunker.py:105-130 | The recursive case: the parts at the first separator, each split further, still tile the text, and every such part starts a piece |
| `BaseChunker.Chunker.CutAtSeparator` | ai-service/app/services/chunking/base_chunker.py:109-118 | The first loop lays out the parts of `split(sep)`, the separator put back in front of all but the first, an empty first part left out; they tile the text, and none contains the separator except in front |
| `BaseChunker.CoarseTiles` | ai-service/app/services/chunking/base_chunker.py:109-118 | These parts tile the text from the offset |
| `BaseChunker.Chunker.SplitChars` | ai-service/app/services/chunking/base_chunker.py:52-61 | Hard cuts tile the text, start at multiples of the size, and all but the last are full |
| `BaseChunker.Chunker.MergePieces` | ai-service/app/services/chunking/base_chunker.py:63-83 | Greedy merging keeps the tiling, adds no cut, keeps the bound, joins only what is within both limits, and leaves no two neighbours that could have been merged |
| `BaseChunker.TilingRebuilds` | ai-service/app/services/chunking/base_chunker.py:85-132 | The pieces' texts, concatenated, are the text |
| `BaseChunker.PartsRebuild` | ai-service/app/services/chunking/base_chunker.py:109-118 | Splitting at a separator and putting it back loses nothing |
| `BaseChunker.Chunker.TokensBounded` | ai-service/app/services/chunking/base_chunker.py:45-50 | With an estimator that counts at most one token per character, every piece is within the token limit too |
| `BaseChunker.Chunker.NeighboursOverflow` | ai-service/app/services/chunking/base_chunker.py:63-83 | With one token per character, two neighbouring merged pieces together exceed the size |
| `BaseChunker.Chunker.FewPieces` | ai-service/app/services/chunking/base_chunker.py:63-132 | With one token per character, n merged pieces of a text of length L satisfy (n/2)*(size+1) <= L |
| `BaseChunker.Chunker.IdsAreDistinct` | ai-service/app/services/chunking/base_chunker.py:25-43 | Chunk ids of one resource are equal only for equal indices |
| `FixedTokenChunker.FindMaxEnd` | ai-service/app/services/chunking/fixed_token_chunker.py:56-66 | The binary search ends where the slice fits and the next longer one does not, for any estimator |
| `FixedTokenChunker.FindOverlapChars` | ai-service/app/services/chunking/fixed_token_chunker.py:68-88 | The binary search ends at an overlap that fits while one more character does not |
| `FixedTokenChunker.FindNextStart` | ai-service/app/services/chunking/fixed_token_chunker.py:47-51 | The next window starts where the overlap begins, but always past the start of the window before |
| `FixedTokenChunker.Split` | ai-service/app/services/chunking/fixed_token_chunker.py:19-54 | Terminates for any estimator; the numbered chunks carry resource and metadata, are windows linked by the overlap rule from position 0 with the overlap clamped between zero and one less than the size, and the last reaches the end of the text or stands on a last character that fits no window |
| `FixedTokenChunker.StartsIncrease` | ai-service/app/services/chunking/fixed_token_chunker.py:30-54 | Starts strictly increase and every chunk is within the token limit, for any estimator |
| `FixedTokenChunker.NoGaps` | ai-service/app/services/chunking/fixed_token_chunker.py:30-54 | If every single character fits, neighbouring chunks touch or overlap and the last ends the text |
| `FixedTokenChunker.CoverIffCharsFit` | ai-service/app/services/chunking/fixed_token_chunker.py:30-54 | For an estimator monotone on parts: the chunks cover the text if and only if every single character fits |
| `FixedTokenChunker.LongestThatFits` | ai-service/app/services/chunking/fixed_token_chunker.py:56-66 | For an estimator monotone on prefixes every chunk is the longest that fits |
| `FixedTokenChunker.SplitChunks` | ai-service/app/services/summary/map_reduce_summarizer.py:35-50 | The summarizer's loop yields the windows of `limit` characters, each the step after the one before, at least one; a limit that is not positive yields the text itself |
| `FixedTokenChunker.BothChunkers` | ai-service/app/services/summary/map_reduce_summarizer.py:35-50 | Refinement: with the fallback estimator the binary-search chunker and the arithmetic window cut every non-empty text alike; on the empty text one yields nothing and the other a single empty window |
| `FixedTokenChunker.ChainIsWindows` | ai-service/app/services/chunking/fixed_token_chunker.py:30-54 | With the fallback estimator every linked chain of windows that is complete is the arithmetic window list |
| `FixedTokenChunker.StartOfChunk` | ai-service/app/services/chunking/fixed_token_chunker.py:30-54 | With the fallback estimator chunk i starts at i*(limit-overlap) |
| `FixedTokenChunker.UnlapRebuilds` | ai-service/app/services/summary/map_reduce_summarizer.py:35-50 | Dropping the overlap prefixes of the windows rebuilds the text |
| `FixedTokenChunker.DecodeSlice` | ai-service/app/services/chunking/token_estimator.py:42-54 | Decoding a slice of the fallback encoding gives the slice of the text |
| `ParagraphChunker.NextBlank` | ai-service/app/services/chunking/paragraph_chunker.py:20-33 | The next match of the blank-line pattern is the leftmost one and the longest from there |
| `ParagraphChunker.FindParagraphs` | ai-service/app/services/chunking/paragraph_chunker.py:27-37 | The first loop collects exactly the non-blank slices between blank-line matches |
| `ParagraphChunker.SplitParagraph` | ai-service/app/services/chunking/paragraph_chunker.py:42-50 | A paragraph is kept whole unless oversize; its pieces stay inside it, cover it and cut only at sentence separators |
| `ParagraphChunker.Split` | ai-service/app/services/chunking/paragraph_chunker.py:23-65 | Numbered chunks made of ordered slices that split exactly the paragraphs; touching pieces could not have been one |
| `ParagraphChunker.OnlySpaceDropped` | ai-service/app/services/chunking/paragraph_chunker.py:27-37 | Every character that is not white space lies in a chunk |
| `ParagraphChunker.NoPieceSpansParagraphs` | ai-service/app/services/chunking/paragraph_chunker.py:27-65 | No chunk reaches across a blank line |
| `ParagraphChunker.NoBlankInPiece` | ai-service/app/services/chunking/paragraph_chunker.py:27-65 | No chunk contains a match of the blank-line pattern of the text |
| `ParagraphChunker.KeptTogether` | ai-service/app/services/chunking/paragraph_chunker.py:27-50 | Two characters that are not white space and have no blank line between them belong to one paragraph, which is one chunk if it is within both limits |
| `BaseChunker.AddChunks` | ai-service/app/services/chunking/paragraph_chunker.py:52-63 | The numbering loop: chunk k is made of piece k, with the id of the resource and k, index k, the metadata if it is kept, and the tokens of its text |
| `SemanticChunker.Split` | ai-service/app/services/chunking/semantic_chunker.py:20-45 | The chunks tile the text within the size, cut where the hierarchy allows, and every part at the coarsest separator of an oversize text starts a chunk |
| `AsrIndexing.BuildTextRanges` | ai-service/app/services/vector_indexing/vector_index_service.py:81-104 | Each recorded range slices the joined text back to its segment and carries its times; one space separates neighbours; the ranges span the text |
| `AsrIndexing.SpokenAreAll` | ai-service/app/services/vector_indexing/vector_index_service.py:93-96 | The segments that get a range are those with text, all of them and in order |
| `AsrIndexing.TimeSpan` | ai-service/app/services/vector_indexing/vector_index_service.py:106-134 | The inner loop finds the least start and greatest end among the overlapping ranges, and none without overlap |
| `AsrIndexing.ApplyTimeRanges` | ai-service/app/services/vector_indexing/vector_index_service.py:106-134 | Every chunk gets the time span of the ranges it overlaps; without ranges chunks are unchanged |
| `AsrIndexing.IndexAsr` | ai-service/app/services/vector_indexing/vector_index_service.py:61-134 | End to end, for every chunking strategy: every character of every segment that is not white space lies in a chunk whose times contain the segment's interval (for token windows, when every single character fits one); the times of a chunk are the least start and the greatest end of the segments it shares a character with; chunk i is a slice of the text with the i-th id, its tokens and the audio mark; a blank text gives none |
| `AsrIndexing.ChunkText` | ai-service/app/services/chunking/chunking_service.py:42-54 | Whichever strategy is configured, the chunks are numbered slices of the text; the paragraph and separator strategies leave out only white space, and so do token windows when every single character fits one |
| `SegmentMerger.SplitLongSegment` | ai-service/app/services/segment_merger.py:17-49 | A long cue becomes runs of exactly the maximum length but the last, with its text, its confidence, time proportional to length, no gaps, and the cue's own start and end |
| `SegmentMerger.Normalize` | ai-service/app/services/segment_merger.py:99-114 | The input stably sorted by start, segment by segment with the same text and confidence, the start raised to zero and the end to the start, and nothing else changed |
| `SegmentMerger.NormalizedIsNormal` | ai-service/app/services/segment_merger.py:99-114 | Normalized segments are not reversed, start in order, and keep the text of the sorted input |
| `SegmentMerger.ValidIsKept` | ai-service/app/services/segment_merger.py:99-114 | Input with starts from zero and no reversed times is only sorted |
| `SegmentMerger.Merge` | ai-service/app/services/segment_merger.py:67-97 | The cues come from maximal groups under the merge rule, keep the ordered non-space characters of the sorted input (the exact text for zh, zh-cn, zh-tw, ja and ko), respect the maximum length, are not reversed, and on non-overlapping input stay ordered and run from the start of its first to the end of its last segment (with valid times, of the input as given) |
| `SegmentMerger.GroupStaysShort` | ai-service/app/services/segment_merger.py:80-88 | Every group, as far as it was formed, was shorter than the minimal duration, or shorter than the maximal one with a joined text shorter than the limit |
| `SegmentMerger.GroupCannotGrow` | ai-service/app/services/segment_merger.py:80-95 | With the first segment of the next group it would have been neither |
| `SegmentMerger.FoldSpaces` | ai-service/app/services/segment_merger.py:10-14 | For every other language a group of trimmed texts reads with single spaces between them |
| `SegmentMerger.MergeKeepsText` | ai-service/app/services/segment_merger.py:10-14 | Joining and splitting keep the non-space characters of the groups, and the exact text for languages written without spaces |
| `SegmentMerger.MergeKeepsTime` | ai-service/app/services/segment_merger.py:67-97 | On non-overlapping segments the cues do not overlap and span the same interval |
| `SseCodec.ReadStream` | gateway/internal/service/ai_client.go:126-163 | The read loop sends, of some first events of the body, exactly those that found a free slot; without cancellation of all its events |
| `SseCodec.SendDelivers` | gateway/internal/service/ai_client.go:165-178 | One send keeps the sent events equal to those that found a free slot: an event without one is dropped, and nothing else changes |
| `SseCodec.DeliverIsSubsequence` | gateway/internal/service/ai_client.go:174-177 | With a full buffer the delivered events are an in-order subsequence |
| `SseCodec.DeliverAll` | gateway/internal/service/ai_client.go:174-177 | While the buffer never fills nothing is lost |
| `SseCodec.ParsePrintAll` | ai-service/app/models/qa.py:55-59 | Reading any printed list of one-line events gives back as many events, each with trimmed kind and data |
| `SseCodec.ParseBlock` | gateway/internal/service/ai_client.go:142-173 | Any lines, with any number of carriage returns, up to a blank line or the end of the body: one event of the last kind, by default a message, with the trimmed lines of data one below the other; other lines are ignored, and without a kind and data there is no event |
| `SseCodec.JoinedLinesSplit` | gateway/internal/service/ai_client.go:172-173 | The lines of data can be read back from the event's data |
| `SseCodec.FaithfulIff` | gateway/internal/service/ai_client.go:126-178 | The round trip of a one-line event is exact, raw text included, if and only if its kind is not empty and neither kind nor data has white space around it |
| `QaStream.StepKeepsInv` | gateway/internal/service/qa_service.go:139-182 | Every step of every interleaving keeps: fields equal the transcript of what was forwarded, nothing lost while running, one close and one save after returning |
| `QaStream.SavedOnce` | gateway/internal/service/qa_service.go:139-214 | In every run the output is closed once and the save step called once, with the deltas and citations of exactly the forwarded events; an entirely empty answer is not stored |
| `QaStream.ForwardedInOrder` | gateway/internal/service/qa_service.go:146-180 | In every run the client reads a prefix of what was forwarded, which is a prefix of what arrived, with nothing after the first done or error |
| `QaStream.UncancelledIsComplete` | gateway/internal/service/qa_service.go:146-180 | A finished run without cancellation forwarded and saved everything up to the first done or error |
| `QaStream.CanFinish` | gateway/internal/service/qa_service.go:134-182 | From every state of a run the stream can finish without cancellation and without another arrival, and has then forwarded and saved everything that arrived up to the first done or error |
| `QaStream.WaitsOnlyFor` | gateway/internal/service/qa_service.go:146-161 | The goroutine is stuck exactly on an open empty inbox or a full client channel, and never once cancelled |
| `AgentRun.RunStream` | ai-service/app/agent/runner.py:69-88 | Every run keeps the event protocol with exactly one terminal event; the last event and everything told (answer, reasoning, citations) are those the answers of the outside world determine; it is done if and only if nothing it asks for fails; validations stay within the bound, and a done event counts them. The nodes entered are pinned: none before the memory is loaded, then the intent, then a retrieval except to generate freely or to summarize without resources, then the node of the intent (qa for any intent but summarize, compare and generate), then validations with a retrieval between any two |
| `AgentRun.DoneIff` | ai-service/app/agent/runner.py:90-210 | The determined last event is done if and only if the preparation, the model's stream, some validation within the bound, the citations and the save all succeed |
| `AgentRun.RunNodes` | ai-service/app/agent/runner.py:90-210 | The same events and nodes up to an escaping exception, which leaves at most one node open and gives the error code |
| `AgentRun.Prepare` | ai-service/app/agent/runner.py:93-122 | Memory, intent and the first retrieval: on success the intent and, if it calls for it, the retrieval were entered, the chunks are those retrieved, and the branch is that of the intent; otherwise the exception that stopped it |
| `AgentRun.FailedPreparation` | ai-service/app/agent/runner.py:69-122 | A run that fails before it generates tells nothing but one error with the code of the exception |
| `AgentRun.FirstValidationPasses` | ai-service/app/agent/runner.py:103-210 | A run that generates and passes its first validation ends as its citations and saves do: the citations are built from the model's text and the chunks of the first retrieval, which is asked for by every intent but generate if there are resources, else from none, and the run counts one validation |
| `AgentRun.Generate` | ai-service/app/agent/runner.py:124-156 | The relayed events tell exactly the model's answer and reasoning up to its first finish reason; the node fails with an error event if and only if that reason is an error on a chunk with text, and raises if and only if the stream raises before any finish reason |
| `AgentRun.BreaksOffIff` | ai-service/app/agent/nodes/agent_nodes.py:147-151 | A stream that ends in an error is reported as one if and only if the chunk that says so carries text |
| `AgentRun.InterruptionPassesForEnd` | ai-service/app/services/llm/llm_client.py:67-77 | A run whose model stream is interrupted ends exactly like one whose stream stopped normally in the same place |
| `AgentRun.InterruptedRunIsDone` | ai-service/app/services/llm/llm_client.py:73-77 | A concrete run that is cut off after a few words and is done |
| `AgentRun.ValidateLoop` | ai-service/app/agent/runner.py:158-179 | The loop computes the state that passes validation, or the exception; at most min(recursion_limit, max(1, max_iterations - iterations)) validations for any validator, at most one when answers without citations pass |
| `AgentRun.FirstRoundThatEnds` | ai-service/app/agent/runner.py:158-179 | The loop retrieves again exactly as long as validation fails within the iteration budget and the retrieval answers: it ends in the first state that passes, with the chunks of the last retrieval, in the first exception, or out of validations |
| `AgentRun.TerminalIsLast` | ai-service/app/agent/runner.py:69-210 | A finished stream has exactly one terminal event, and it is the last |
| `AgentRun.NodesPair` | ai-service/app/agent/runner.py:98-156 | Node events pair up without nesting, a done event finds no node open, and chunk and reasoning indices count 0, 1, 2, ... |
| `StreamingPipeline.ReadBack` | gateway/internal/service/ai_client.go:126-178 | The gateway reads exactly the events the agent emitted |
| `StreamingPipeline.StreamArrives` | gateway/internal/service/qa_service.go:139-182 | Across both services, whichever events found room in the gateway's buffer: when these arrived and nothing was cancelled, exactly these are forwarded with raw texts as printed, and the one save holds the answer, the reasoning and the citations they tell |
| `StreamingPipeline.AnswerArrives` | gateway/internal/service/qa_service.go:139-182 | While the buffer never fills, the client and the one save get everything the agent told |
| `TaskBroadcaster.StepKeepsInv` | gateway/internal/service/task_broadcaster.go:71-133 | Every critical section and channel operation keeps: subscriber lists within the limit, no channel twice, registered channels open, detached channels owned by one closer, buffers bounded |
| `TaskBroadcaster.SafeRuns` | gateway/internal/service/task_broadcaster.go:71-133 | In every interleaving a registered channel is open, within the limit, and registered for one task once |
| `TaskBroadcaster.ClosedAtMostOnce` | gateway/internal/service/task_broadcaster.go:107-133 | In every interleaving no channel is closed twice |
| `TaskBroadcaster.DeliveredInOrder` | gateway/internal/service/task_broadcaster.go:90-105 | With sequential publishers per task each subscriber receives an in-order subsequence of its task's events |
| `TaskBroadcaster.DeliveredAll` | gateway/internal/service/task_broadcaster.go:71-105 | With sequential publishers a subscriber below the limit is sent every event of its task published since it subscribed, in order, as long as it stays, none of its publishers is stopped or panics before trying it, and its buffer is never full when tried: all of them once no publisher has yet to try it, else all but the last |
| `TaskBroadcaster.SentUnlessHindered` | gateway/internal/service/task_broadcaster.go:96-104 | In any interleaving an event misses a channel of its snapshot only if the channel was closed or full when tried, or the publisher stopped before |
| `TaskBroadcaster.ReadsAndBuffer` | gateway/internal/service/task_broadcaster.go:71-105 | In any run what a subscriber read and what is buffered add up to what it was sent |
| `TaskBroadcaster.CanReadAll` | gateway/internal/service/task_broadcaster.go:71-88 | In any reachable state a subscriber can read everything it was sent |
| `TaskBroadcaster.LeavingCloses` | gateway/internal/service/task_broadcaster.go:118-133 | A subscriber that leaves has its channel closed and unregistered for good |
| `TaskBroadcaster.ClosingClosesAll` | gateway/internal/service/task_broadcaster.go:107-116 | Closing a task leaves it without subscribers, and every channel it had is closed once the closer is through |
| `TaskBroadcaster.PendingShrinks` | gateway/internal/service/task_broadcaster.go:96-104 | A publisher whose context is done, or whose send panics, tries no further channel |
| `TaskBroadcaster.PublishCanPanic` | gateway/internal/service/task_broadcaster.go:90-133 | A four-step interleaving in which Publish sends on a channel that was just removed and closed |
| `TaskBroadcaster.PublishPanicsIffUnguarded` | gateway/internal/service/task_broadcaster.go:90-133 | Over every interleaving: a panic is possible at some moment of a run if and only if some step of the run closes a channel that a publisher has yet to try; a run without such a step never panics |
| `TaskBroadcaster.PanicsIffExposed` | gateway/internal/service/task_broadcaster.go:97-104 | In any state the publishers under way can go on so that one panics if and only if one of them has a closed channel still to try, or one already did |
| `TaskLifecycle.Task.ProcessInternalStatusUpdate` | gateway/internal/service/task_service.go:281-344 | A worker report is refused without a trace, or writes the fields of its status and publishes one event: done with progress 100 for a completion, error with progress 0 and its message for a failure, else status with the current progress |
| `TaskLifecycle.Task.UpdateProgress` | gateway/internal/service/task_service.go:258-278 | Progress is recorded for a running task and a value up to 100 only |
| `TaskLifecycle.Task.Retry` | gateway/internal/service/task_service.go:211-255 | A failed or completed task is reset once the cooldown has passed, any other is left alone |
| `TaskLifecycle.Task.UpdateStatus` | gateway/internal/repository/task_repository.go:135-161 | The fields written for a status, and no others; an empty message leaves the old one |
| `TaskLifecycle.Task.UpdateStatusWithAttempt` | gateway/internal/repository/task_repository.go:164-189 | The same with the attempt recorded |
| `TaskLifecycle.Task.ResetForRetry` | gateway/internal/repository/task_repository.go:192-208 | Back to pending with progress, result, error, attempts and completion time cleared |
| `TaskLifecycle.PlayIsOk` | gateway/internal/service/task_service.go:211-344 | Over every run of reports, progress updates and retries: progress at most 100, completed means 100, pending and failed mean 0, the message is that of the last accepted error since the last reset |
| `TaskLifecycle.DoneAndRetries` | gateway/internal/service/task_service.go:211-344 | Over every run done events number at most one more than accepted retries, and accepted retries are a cooldown apart |
| `TaskLifecycle.DoneCountsCompletions` | gateway/internal/service/task_service.go:329-344 | Over every run the done events are as many as the accepted reports of completion |
| `TaskLifecycle.ReportPublishes` | gateway/internal/service/task_service.go:329-344 | In every run a report publishes exactly one event of its kind and progress if it is accepted, and none if it is refused |
| `TaskLifecycle.CompletedUntilRetried` | gateway/internal/service/task_service.go:519-531 | In every run a completed task keeps its whole row until a retry is accepted |
| `TaskLifecycle.StoppedUntilStarted` | gateway/internal/service/task_service.go:519-531 | In every run a task that is not running stays so until a report that it is running is accepted |
| `TaskLifecycle.TerminalReports` | gateway/internal/service/task_service.go:281-344 | In every run a terminal report is accepted exactly when the task is running, and otherwise leaves no trace |
| `TaskLifecycle.OneTerminalReport` | gateway/internal/service/task_service.go:281-293 | In every run, after an accepted terminal report no other is accepted until the task was reported running again, so repeated and late reports are refused |
| `TaskLifecycle.ErrorOutlives` | gateway/internal/repository/task_repository.go:141-143 | In every run an error message outlives whatever follows until a retry or an accepted report with a message |
| `TaskLifecycle.ErrorSurvivesCompletion` | gateway/internal/repository/task_repository.go:141-143 | A run in which a completed task shows the message of its earlier failure |
| `CacheKey.KeyIdentifies` | ai-service/app/services/hybrid_retrieval/hybrid_retrieval_service.py:388-394 | For ids free of the comma and the vertical bar, two requests share a key if and only if they have the same user and the same ids in any order, where the list of one empty id counts as the empty list |
| `CacheKey.CommaIsAmbiguous` | ai-service/app/services/hybrid_retrieval/hybrid_retrieval_service.py:388-394 | An id with a comma has the key of the two ids around the comma |
| `Bm25Cache.Cache.Evict` | ai-service/app/services/hybrid_retrieval/hybrid_retrieval_service.py:344-346 | The newest entries remain, at most the maximum, with their indexes |
| `Bm25Cache.Cache.GetOrBuild` | ai-service/app/services/hybrid_retrieval/hybrid_retrieval_service.py:325-342 | A hit moves the key to the end; a miss builds, adds and evicts; a failed build changes nothing; while the corpus is unchanged every lookup for ids the key can be read back from equals a fresh build |
| `Bm25Cache.LeastRecentlyUsed` | ai-service/app/services/hybrid_retrieval/hybrid_retrieval_service.py:325-346 | After any history the keys, newest first, are the first max_entries distinct keys of the reversed history |
| `Rrf.AddRanks` | ai-service/app/services/hybrid_retrieval/rrf.py:23-32 | One loop adds to every id the weighted reciprocal of its ranks and keeps the first hit of each id |
| `Rrf.ReciprocalRankFusion` | ai-service/app/services/hybrid_retrieval/rrf.py:6-38 | The result is each id's first hit with its fused score, in the order of falling score with ties as first seen |
| `Rrf.ScoreOfRanks` | ai-service/app/services/hybrid_retrieval/rrf.py:26-32 | In lists without repetitions the score of an id is w/(k+rank+1) of its rank in the first list plus v/(k+rank+1) of its rank in the second, nothing where it is missing |
| `Rrf.CarrierIsFirst` | ai-service/app/services/hybrid_retrieval/rrf.py:28-32 | The hit kept for an id is the first with that id |
| `Rrf.FusedIsSortedUnion` | ai-service/app/services/hybrid_retrieval/rrf.py:34-38 | The ids are exactly the union, each once, sorted by fused score |
| `Rrf.UnanimousOrderIsKept` | ai-service/app/services/hybrid_retrieval/rrf.py:23-38 | For duplicate-free lists and non-negative weights: if a precedes b in every list containing b, a precedes b in the result, even at zero weights |
| `CitationFormatter.Format` | ai-service/app/services/citation_formatter.py:21-42 | The citations are the in-range markers in order of first appearance, numbered from one, each with its chunk; the answer is renumbered accordingly |
| `CitationFormatter.Collect` | ai-service/app/services/citation_formatter.py:26-37 | The marker loop collects the citations and the replacement table of exactly the cited numbers |
| `CitationFormatter.RenumberAnswer` | ai-service/app/services/citation_formatter.py:80-91 | Substitution rewrites every resolved marker and leaves the rest of the text |
| `CitationFormatter.FormattedReadsBack` | ai-service/app/services/citation_formatter.py:80-91 | Reading the formatted answer again finds exactly the renumbered markers: none appears or disappears |
| `CitationFormatter.ResolvedKeepsItsChunk` | ai-service/app/services/citation_formatter.py:33-37 | A resolved marker denotes the same chunk under its new number |
| `CitationFormatter.UnresolvedNeverCollides` | ai-service/app/services/citation_formatter.py:30-32 | A marker left alone never has one of the new numbers |
| `CitationFormatter.FormatIsIdempotent` | ai-service/app/services/citation_formatter.py:21-42 | Formatting the result against the cited chunks changes nothing and cites 1, 2, ..., n |
| `CitationFormatter.CitationsSettle` | ai-service/app/services/citation_formatter.py:44-67 | The second time every citation keeps its number and chunk and has no original index |
| `RateLimiters.SlidingWindow.Acquire` | ai-service/app/agent/tools/web_search_tool.py:48-56 | Calls a whole window old are forgotten, and a call is admitted while fewer than the limit remain |
| `RateLimiters.SlidingLimitHolds` | ai-service/app/agent/tools/web_search_tool.py:42-56 | Under a monotone clock no half-open interval of the window length holds more than the limit of admitted calls |
| `RateLimiters.RefusesOnlyWhenFull` | ai-service/app/agent/tools/web_search_tool.py:48-56 | A call is refused if and only if the limit is not positive or that many calls were admitted within the last window |
| `RateLimiters.FixedWindow.Limit` | gateway/internal/middleware/ratelimit.go:36-67 | One request counts against its key's window or opens a new one; other keys are untouched |
| `RateLimiters.FixedLimitHolds` | gateway/internal/middleware/ratelimit.go:36-67 | Under a monotone clock any closed interval of the window length holds at most 2*requests-1 admitted requests of a client |
| `RateLimiters.BoundIsTight` | gateway/internal/middleware/ratelimit.go:36-67 | For every budget and window some ascending request times attain 2*requests-1 within one window length |
| `RateLimiters.KeepsBudgetIffOne` | gateway/internal/middleware/ratelimit.go:18-67 | At most the budget is admitted in every interval of the window length, in every run, if and only if the budget is one |
| `RetrievalStages.GatherCandidates` | ai-service/app/services/retrieval/retrieval_service.py:81-102 | The broad search and, for several resources, the best hit of each distinct one in order; the first failure ends it (what suffices to be asked for: `RetrievalCompleteness`) |
| `RetrievalStages.GatherHasAll` | ai-service/app/services/retrieval/retrieval_service.py:81-102 | What is gathered begins with all hits of the broad search and, for several resources, has the best hit of every single one; gathering fails only with one of these searches |
| `RetrievalStages.Deduplicate` | ai-service/app/services/retrieval/retrieval_service.py:132-145 | The loop keeps the first item of every key |
| `RetrievalStages.KeepFirstKeys` | ai-service/app/services/retrieval/retrieval_service.py:132-145 | The keys of what is kept are the distinct keys in order of first appearance |
| `RetrievalStages.SurvivorsAreRanked` | ai-service/app/services/retrieval/retrieval_service.py:104-110 | Survivors are candidates at or above the threshold by falling score, at most top_k, no key twice for several resources |
| `RetrievalStages.NothingBetterIsDropped` | ai-service/app/services/retrieval/retrieval_service.py:104-110 | A relevant candidate is represented by a survivor with its key that ranks as high, or the result is full of items that rank as high |
| `RetrievalStages.SurvivorsMap` | ai-service/app/services/llamaindex/retrieval_engine.py:94-99 | Converting candidates before the stages or survivors after them gives the same items |
| `RetrievalStages.Compress` | ai-service/app/services/llamaindex/context_compressor.py:13-31 | The loop keeps the prefix the budget allows and counts its tokens |
| `RetrievalStages.LongestIffFit` | ai-service/app/services/llamaindex/context_compressor.py:23-31 | That prefix, and no other, is the longest within the budget with the first item always kept |
| `RetrievalEngines.NodeRoundTrip` | ai-service/app/services/llamaindex/metadata_mapper.py:22-98 | A search result passes through a node with id, resource, text, score and owner intact and keeps its other metadata |
| `RetrievalEngines.NormalizedFills` | ai-service/app/services/llamaindex/metadata_mapper.py:73-88 | Normalized metadata has both spellings of the resource type and of the two times if either was given, each with the value given, a chunk id also from a plain id, and is otherwise unchanged |
| `RetrievalEngines.NormalizeIds` | ai-service/app/services/llamaindex/filters.py:22-30 | Trimmed, without blanks and repetitions, in order of first appearance |
| `RetrievalEngines.AdapterIsTransparent` | ai-service/app/services/llamaindex/milvus_adapter.py:34-63 | For trimmed ids the adapter's trimming, deduplication and clamping change nothing the store can see |
| `RetrievalEngines.ServiceRetrieve` | ai-service/app/services/retrieval/retrieval_service.py:65-118 | The service's pipeline: gather, rank, drop duplicates, cut, check scope, fit the budget |
| `RetrievalEngines.ServiceReplies` | ai-service/app/services/retrieval/retrieval_service.py:104-118 | A reply's scores fall and reach the threshold, no key repeats for several resources, every chunk is in scope, and the chunks are the longest run of survivors within the budget with the first always kept |
| `RetrievalEngines.EngineRetrieve` | ai-service/app/services/llamaindex/retrieval_engine.py:72-108 | The engine's pipeline: validate, query through the adapter, check scope of all candidates, then the same stages |
| `RetrievalEngines.EngineRefuses` | ai-service/app/services/llamaindex/retrieval_engine.py:72-93 | A blank question or user and an empty list of resources are invalid requests; a list of blank resources only is an invalid filter |
| `RetrievalEngines.EnginesAgree` | ai-service/app/services/llamaindex/retrieval_engine.py:72-171 | On the same store, configuration and trimmed request the engine fails where the service does, refuses exactly when some candidate is out of scope, and otherwise returns the same chunks, scores, order and token count |
| `RetrievalCompleteness.CandidatesAsked` | ai-service/app/services/retrieval/retrieval_service.py:120-130 | A request over one resource asks for top_k candidates; one over several for the larger of eight times as many and one more for every distinct resource, but never for more than a hundred |
| `RetrievalCompleteness.FirstIsKept` | ai-service/app/services/retrieval/retrieval_service.py:132-145 | The first item with a key is kept |
| `RetrievalCompleteness.ServiceFindsBest` | ai-service/app/services/retrieval/retrieval_service.py:65-118 | Over a store that answers from one ranked list: as long as the candidates asked for hold all hits of the request's resources, or top_k different ones, the reply is the first top_k of the ideal list (the ranked hits of these resources, for several only the first of every key) that reach the request's threshold or the default one, up to the request's budget or the default one, and the rest of the search never disturbs it |
| `RetrievalCompleteness.EightCopiesSuffice` | ai-service/app/services/retrieval/retrieval_service.py:120-130 | Over several resources they suffice whenever 8*top_k is within the store's limit and a hundred and no key stands more than eight times among the first 8*top_k hits |
| `RetrievalCompleteness.ServiceFindsTopK` | ai-service/app/services/retrieval/retrieval_service.py:65-130 | Then, with thresholds and budget met, the reply has the best hit of each of the first top_k distinct keys, or of every key if there are fewer |
| `RetrievalCompleteness.EngineFindsBest` | ai-service/app/services/llamaindex/retrieval_engine.py:72-108 | Over such a store the engine answers every trimmed request, and with the service's chunks |
| `RetrievalEngines.EngineRefinesService` | ai-service/app/services/llamaindex/retrieval_engine.py:72-108 | Whenever the engine returns, the service returns the same result |
| `RetrievalEngines.EngineIsStricter` | ai-service/app/services/llamaindex/retrieval_engine.py:94-96 | The service returns where the engine refuses if and only if some candidate is out of scope and no survivor is |
| `RetrievalEngines.StrayHit` | ai-service/app/services/retrieval/retrieval_service.py:110-111 | A store with one stray hit below the threshold: the service returns, the engine refuses |

## Left out

- HTTP handlers, middleware other than the limiter, the Flutter client, authentication, configuration, metrics and tracing: plumbing around the modelled parts.
- The databases and vector stores behind the queries: a store is a function of user, resource set and limit, and a task row is a record of fields.
- Concurrent access to one task row: each operation is applied atomically; the read and the write of one request are not interleaved with another's.
- Rounding of stored times to the database's precision and of floating-point scores and times: both are exact reals.
- Resource status updates, automatic summaries and extraction dispatched when a task completes.
- An unknown name of a chunking strategy, which the dispatching service rejects.
- tiktoken: the estimator is an arbitrary function with `count("") = 0`.
- Upserting chunks and deleting old vectors after indexing, and PDF indexing, whose chunk ids restart on each page.
- SRT and VTT output of the merged cues: only a printer exists.
- Citation fields copied or converted from chunk metadata, snippet truncation, and markers of more than 4300 digits, which Python refuses to convert.
- A negative maximum of BM25 cache entries, for which eviction fails on an empty cache, and a negative RRF constant `k`.
- The language-model, embedding, reranking and search providers, which are arbitrary answers.
- A client that abandons the agent's stream: the generator is then closed without further events.
- Failure of the database write inside the gateway's save step: the call and its contents are modelled, not its outcome.
- `per_resource_candidates` switched off in the LlamaIndex engine: the service has no such switch, so the two are compared with it on.
- Prompt assembly from the retrieved chunks.
- Rule-based text cleaning and extraction, evaluation metrics, tags and entities: easy members or long regular expressions.
