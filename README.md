# Lecture video Q&A backend, modelled in Dafny

The backend accepts an uploaded lecture video and keeps a status record for it. A background pipeline
extracts the audio with ffmpeg, transcribes it with Whisper, cuts the transcript into chunks and indexes
them in a vector store. Questions about a processed lecture are answered from the chunks that lie
closest to the question, with timestamp citations and a confidence score.

This project models the backend's own logic and proves properties of it. The external systems
(ffmpeg, Whisper, the text splitter, the embedding model, the vector store, the language model, the
file system, the id generator and the clock) enter the model as inputs: an outcome
(`Pass | Fail(error)`, `Ok(value) | Err(error)`) or a function given as a parameter.

Files (all modules are top-level; every file is verified together):

- `wrappers.dfy`: `Option`, `Result` and `Outcome`.
- `text.dfy` (module `Text`): the parts of Python's `str` the backend uses, over `seq<char>`. These are
  `strip` with Python's whitespace set, ASCII `lower`, `split()`, `join`, `find` and `in`, `endswith`,
  `replace`, and decimal rendering and parsing.
- `clock.dfy` (module `Clock`): Python's float `//`, `%` and `int()`, the hour, minute and second
  fields both timestamp formatters compute, and `{:02d}`.
- `video_processor.dfy` (module `VideoProcessor`), for `backend/services/video_processor.py`:
  - the audio path, as written and corrected;
  - the reshaping of Whisper's result;
  - `format_timestamp`;
  - `get_segment_at_time`.
- `rag_pipeline.dfy` (module `RagPipeline`), for `backend/services/rag_pipeline.py`:
  - collection naming;
  - chunk timestamp recovery;
  - chunk building;
  - the records written to the collection;
  - the mapping of a query result;
  - `get_collection_info`.
- `chat_service.dfy` (module `ChatService`), for `backend/services/chat_service.py`:
  - citations and their stable sort;
  - confidence, as written and corrected;
  - display timestamps and the context blocks;
  - `get_response`;
  - key points and the summary.
- `main.dfy` (module `LectureApi`), for `backend/main.py`: upload validation, and the class
  `StatusStore`. `StatusStore` holds the status records by id, plus the ids in insertion order (the
  order a Python dict yields them). Its methods are the four endpoints and the background pipeline,
  each changing the store in place.

Times and scores are `real`.

The pipeline's four status updates are ordered. `StatusStore` has a ghost field `log` to which every
record write appends the record written: the upload, each stage's entry, and the handler's failure
write. The pipeline's `ensures` states that one run appends exactly `PipelineTrace` for where the run
stops, and leaves the record equal to the last entry appended.

Some behaviour of the code is worth stating up front, because the model follows it:

- statuses are strings, with fixed progress values 10/30/70/100;
- a "completed" record can still turn "failed", when removing the audio file fails;
- chunks come from an overlapping character splitter, not from segment boundaries;
- validation and not-ready errors reach the caller as HTTP 500 responses.

## Model

| member | source | states |
|---|---|---|
| LectureApi.ValidateUpload | backend/main.py:76-80 | An upload passes exactly when its lower-cased name ends in .mp4/.avi/.mov/.mkv/.webm and its size is at most 2 GiB. The extension is checked first (400 "Invalid video format"), then the size (400 "File too large"). |
| LectureApi.UpperCaseExtensionAccepted | backend/main.py:76 | The extension check ignores case: any name ending in ".MP4" passes. |
| LectureApi.SizeLimitIsInclusive | backend/main.py:79-80 | A file of exactly 2147483648 bytes passes; one of 2147483649 bytes is rejected as too large. |
| LectureApi.CaughtErrorKeepsCode | backend/main.py:111-113 | A 400 or 404 caught by the generic handler becomes a 500 whose detail reads "<code>: <detail>": the first three characters parse back to the original code, then ": ", then the original detail. |
| LectureApi.UpperCaseUploadAudioIsVideo | backend/main.py:76-89 | An upload named "<stem>.MP4" is accepted, yet the audio path derived from its saved path "uploads/<id>_<stem>.MP4" as written is that same path, so ffmpeg is asked to write the audio over the upload. |
| LectureApi.AcceptedUploadAudioIsApart | backend/main.py:76-89 | With the corrected audio path, every accepted upload's audio path ends in ".wav" and differs from its saved video path. |
| LectureApi.StatusStore.constructor | backend/main.py:59 | The store starts empty and valid: each id listed once, listed ids are the stored ids, and each record carries its own id. Nothing has been written yet. |
| LectureApi.StatusStore.UploadVideo | backend/main.py:66-113 | A validation failure or a save failure is returned as a 500 and changes nothing. A 400 arrives as "<code>: <detail>". Otherwise the reply carries the new id, the fixed message and the file name, and the store gains exactly one record (uploaded, 0.0, "Video uploaded successfully"); every other id is untouched, the id list grows by that id, and that record is the one write logged. The store stays valid. |
| LectureApi.StatusStore.GetVideoStatus | backend/main.py:115-123 | Returns the stored record exactly when the id is stored; otherwise a 404 "Video not found". |
| LectureApi.StatusStore.ChatWithLecture | backend/main.py:125-149 | An unknown id gives a 500 carrying "404: Video not found". A stored id whose status is not exactly "completed" gives a 500 carrying "400: Video is still processing. Status: <status>". The chat service answers exactly when the status is "completed", and its answer is `get_response`'s for the search outcome, confidence as written included. |
| LectureApi.StatusStore.ListVideos | backend/main.py:184-201 | The list is the completed entries in insertion order. An entry (id, "completed", now) is present exactly when the id is stored with status "completed"; every entry has status "completed" and time stamp `now`. |
| LectureApi.CompletedEntriesExact | backend/main.py:191-197 | The filter keeps an id exactly when it is listed and its status is "completed", and writes nothing else. |
| LectureApi.StatusStore.ProcessVideoPipeline | backend/main.py:203-243 | The run writes exactly the records of `PipelineTrace` for where the run stops, in order, and no others. Only this video's record changes, and it ends as the last record written; the id order is unchanged and the store stays valid. |
| LectureApi.StatusStore.RunStages | backend/main.py:207-238 | The stages run in order until one raises. The handler receives the failing step's error with its service's prefix (for example "Audio extraction failed: "), or nothing when every step passes. The records written are those of the stages entered, up to and including the failing one, in order, and the record holds the last of them. |
| LectureApi.StatusStore.EnterStage | backend/main.py:209-235 | Entering stage k sets status, progress and message to the k-th of the fixed values, logs that one write, and changes nothing else. |
| LectureApi.StatusStore.MarkFailed | backend/main.py:240-243 | The handler sets status "failed" and message "Processing failed: " + error, keeps the progress, logs that one write, and changes nothing else. |
| LectureApi.PipelineStop | backend/main.py:207-243 | A run either finishes or fails during one of the four stages (1 to 4). |
| LectureApi.PipelineHappyPath | backend/main.py:209-235 | With every step passing, the record goes through extracting_audio/10, transcribing/30, processing_rag/70 and completed/100 in that order, and progress strictly increases. |
| LectureApi.PipelineFailure | backend/main.py:240-243 | When stage k raises, the final record is "failed" with "Processing failed: " + error and the progress set when stage k began. The earlier stages' statuses were set in order, and "completed" was never set before stage 4. |
| LectureApi.RemovalFailureFlipsCompleted | backend/main.py:233-243 | When only the audio file's removal fails, the record reads completed/100 and then ends failed/100. |
| LectureApi.PipelineProgressMonotone | backend/main.py:209-243 | Progress never decreases along any run, failed or not. |
| VideoProcessor.AudioPathAsWrittenUnchanged | backend/services/video_processor.py:34 | A path containing none of the five lower-case extensions is used unchanged as the audio path. |
| VideoProcessor.AudioPathAsWrittenKeepsUpperCase | backend/services/video_processor.py:34 | For a dot-free stem, the replace chain as written leaves "<stem>.MP4" unchanged, so the audio path equals the video path. |
| VideoProcessor.AudioPathAsWritten | backend/services/video_processor.py:34 | After the chain of five replacements as written, none of ".mp4", ".avi", ".mov", ".mkv" and ".webm" occurs anywhere in the path: no later replacement brings back an extension an earlier one removed. |
| VideoProcessor.ReplaceLeavesNoDotted | backend/services/video_processor.py:34 | Each `.replace(ext, '.wav')` leaves no occurrence of its own extension, and creates none of an extension that did not occur before it. |
| VideoProcessor.AudioPath | backend/services/video_processor.py:34 | The corrected audio path ends in ".wav" and is never the video path itself. What precedes ".wav" is the video path with at most its last five characters removed. |
| VideoProcessor.AudioPathAgreesOnPlainNames | backend/services/video_processor.py:34 | For a dot-free stem and any lower-case video extension, the path as written and the corrected path are both "<stem>.wav". |
| VideoProcessor.ExtractAudio | backend/services/video_processor.py:22-54 | Succeeds exactly when ffmpeg does, returning the audio path as written, in which no lower-case video extension occurs. Otherwise the error is "Audio extraction failed: " + ffmpeg's error. |
| VideoProcessor.TranscribeAudio | backend/services/video_processor.py:56-113 | On success the transcript keeps Whisper's text and language. It has one segment per Whisper segment in order: bounds copied, text stripped, words empty when the "words" key is absent, else one stripped word per input word in order. The duration is the last segment's end, or 0.0. A Whisper failure gives "Transcription failed: " + its error. |
| VideoProcessor.FormatTimestamp | backend/services/video_processor.py:125-139 | For a non-negative time, reading the "HH:MM:SS" text back (hours·3600 + minutes·60 + seconds) gives the whole number of seconds. Below 100 hours the text is eight characters with colons at positions 2 and 5. |
| Clock.ClockFieldsCount | backend/services/video_processor.py:135-137 | For any time, minutes and seconds lie in [0, 59] and hours·3600 + minutes·60 + seconds is the floor of the time. Hours are positive exactly from one hour on, and negative exactly before zero. |
| Clock.ZeroPad2 | backend/services/video_processor.py:139 | `{:02d}` gives a non-negative field at least two digits that parse back to it, exactly two below 100, and a leading '-' for a negative field. |
| Text.StripIsTrimmedSlice | backend/services/video_processor.py:88 | `strip()` returns a slice of its input with only whitespace around it and no whitespace at either end. |
| VideoProcessor.SegmentAtTime | backend/services/video_processor.py:141-156 | None exactly when no segment covers the time (bounds inclusive). Otherwise the first covering segment in list order. |
| VideoProcessor.SharedBoundaryGoesToEarlier | backend/services/video_processor.py:152-156 | When a segment ends where the next starts and no earlier segment covers that instant, the lookup returns the earlier one. |
| RagPipeline.CollectionName | backend/services/rag_pipeline.py:56 | The name is "video_" followed by the video id. |
| RagPipeline.CollectionNameInjective | backend/services/rag_pipeline.py:56 | Distinct videos never share a collection name. |
| RagPipeline.FirstAndLastWordsSplitBack | backend/services/rag_pipeline.py:129-133 | The first and last phrases split back into the chunk's first and last five words (all of them when it has fewer). |
| RagPipeline.LockedStartIsFirstLock | backend/services/rag_pipeline.py:139-144 | The scanned start is the start of the first matching segment whose start is not 0.0. It is 0.0 exactly when every matching segment starts at 0.0. |
| RagPipeline.LastEndIsLastMention | backend/services/rag_pipeline.py:139-148 | The scanned end is the end of the last segment holding the last words, or 0.0 when none does. |
| RagPipeline.ScanSegments | backend/services/rag_pipeline.py:135-148 | The loop's start and end equal the locked start and the last end. |
| RagPipeline.PlacementInRange | backend/services/rag_pipeline.py:156-162 | A chunk placed by its position lies inside the recording with positive length: 0 ≤ start < end ≤ duration. |
| RagPipeline.ChunkTimestampsOrigin | backend/services/rag_pipeline.py:117-164 | A chunk's range is either a position placement inside the recording, or scanned bounds (each 0.0 or from the segments described above) for which the fallback did not apply. |
| RagPipeline.FindChunkTimestamps | backend/services/rag_pipeline.py:117-164 | The scan followed by the fallback computes `ChunkTimestamps`. |
| RagPipeline.ChunkFor | backend/services/rag_pipeline.py:100-113 | The i-th chunk has id i, the transcript's language and the recovered range. Its duration is end − start when end > start and 0.0 otherwise, so it is never negative. |
| RagPipeline.CreateChunksWithTimestamps | backend/services/rag_pipeline.py:82-115 | One chunk per splitter chunk, in order, the i-th being `ChunkFor` of the i-th text. |
| RagPipeline.CollectionRecords | backend/services/rag_pipeline.py:174-186 | The id, document and metadata lists each have one entry per chunk. |
| RagPipeline.CollectionRecordsRoundTrip | backend/services/rag_pipeline.py:174-186 | Record i has id "chunk_<i>", and its document and metadata read back as chunk i. |
| RagPipeline.CollectionIdsDistinct | backend/services/rag_pipeline.py:186 | No two records share an id. |
| Text.FindIsLeftmost | backend/services/rag_pipeline.py:154 | `find` answers -1 exactly when the text does not occur, and otherwise its leftmost occurrence. |
| RagPipeline.ProcessTranscript | backend/services/rag_pipeline.py:46-80 | A failure to create the collection or add to it gives "RAG processing failed: " + error. Otherwise the collection is "video_<id>" and holds the records of the chunks built from the splitter's output. |
| RagPipeline.RetrievedAt | backend/services/rag_pipeline.py:223-233 | The i-th entry carries the i-th document and metadata, relevance 1 − distance (distance 0.0 when absent), and the metadata's start and end. |
| RagPipeline.SearchRelevantChunks | backend/services/rag_pipeline.py:195-240 | A failed lookup or query gives "Search failed: " + error, and so does a metadata or distance list shorter than the documents ("list index out of range"). Otherwise one entry per returned document, in order, each `RetrievedAt`; no documents give an empty list. |
| RagPipeline.GetCollectionInfo | backend/services/rag_pipeline.py:242-273 | The name is "video_<id>". The status is "ready" with the count exactly when the count succeeds, otherwise "not_found" with 0. |
| ChatService.SortByRelevance | backend/services/chat_service.py:186 | The sort orders by relevance, highest first, and is a permutation of its input. |
| ChatService.SortByRelevanceStable | backend/services/chat_service.py:186 | Entries of equal relevance keep their relative order. |
| ChatService.SortByRelevanceKeepsSorted | backend/services/chat_service.py:186 | Input already ordered by relevance comes out unchanged. |
| ChatService.ExtractTimestamps | backend/services/chat_service.py:165-188 | One (start, end, relevance) citation per chunk, relevance 0.0 when the score is missing, sorted highest first. The result is a permutation and stable. |
| ChatService.NearestFirstKeepsOrder | backend/services/chat_service.py:186 | When the store returns chunks nearest first, the citations keep the retrieval order. |
| ChatService.ConfidenceAsWritten | backend/services/chat_service.py:190-213 | The formula as written is 0.0 without chunks and never above 1.0. |
| ChatService.ConfidenceAsWrittenCanBeNegative | backend/services/chat_service.py:190-213 | One chunk at a distance above 8/7 makes the confidence as written negative. |
| ChatService.CalculateConfidence | backend/services/chat_service.py:190-213 | The corrected confidence lies in [0.0, 1.0] and equals the formula as written wherever that is non-negative. |
| ChatService.ConfidenceOfUnitScores | backend/services/chat_service.py:200-213 | With every relevance in [0, 1], the formula as written stays in [0.0, 1.0] and the corrected confidence equals it. |
| ChatService.ConfidenceOfUnitRelevance | backend/services/chat_service.py:200-213 | Chunks whose relevance all lie in [0, 1] never give a negative confidence as written. |
| ChatService.ConfidenceSaturates | backend/services/chat_service.py:208-211 | From three chunks on, only the mean relevance moves the confidence. |
| ChatService.FormatChatTimestamp | backend/services/chat_service.py:215-232 | For a non-negative time, the display text read back as colon-separated fields, in either layout, gives the whole number of seconds. Below one hour the display is five characters with the colon at position 2. |
| ChatService.FormatChatTimestampMatchesTranscript | backend/services/chat_service.py:225-232 | From one hour on the display equals the transcript's "HH:MM:SS". Below one hour it is that text without the leading "00:". |
| ChatService.ContextBlocksAt | backend/services/chat_service.py:108-116 | The k-th context block is the block of the k-th chunk. |
| ChatService.ContextBlockHoldsText | backend/services/chat_service.py:112-115 | Each block contains its chunk's text. |
| Text.JoinContainsPart | backend/services/chat_service.py:118 | Every part appears whole inside the joined string. |
| ChatService.ContextHoldsChunk | backend/services/chat_service.py:106-118 | The joined context contains every chunk's block and every chunk's text. |
| ChatService.PrepareContext | backend/services/chat_service.py:96-118 | The context is the chunks' blocks in input order, joined by "\n", and contains every block and chunk text. |
| ChatService.GenerateResponse | backend/services/chat_service.py:151-163 | The model's text when the call succeeds; the fixed apology when it fails. |
| ChatService.GetResponse | backend/services/chat_service.py:44-94 | A failed search gives the fixed error answer; no chunks give the fixed "couldn't find" answer with no citations and confidence 0.0. Otherwise the answer is generated from the context, the citations are sorted, and the confidence is the formula as written. The confidence is never above 1.0, and it is not negative when every chunk's relevance lies in [0, 1]. |
| ChatService.Excerpt | backend/services/chat_service.py:314 | Text of at most 200 characters is kept. Longer text becomes its first 200 characters followed by "...". |
| ChatService.KeyPointsAt | backend/services/chat_service.py:312-318 | The k-th key point is the k-th chunk's: its excerpt, its start time and its display time. |
| ChatService.ExtractKeyPoints | backend/services/chat_service.py:300-320 | At most five key points, one for each of the first five chunks, in order. |
| ChatService.SummaryDuration | backend/services/chat_service.py:284 | The duration is at least every chunk's end time and equal to one of them; 0.0 without chunks. |
| ChatService.GetLectureSummary | backend/services/chat_service.py:234-298 | A failed search, or a failed model call, gives the fixed failure summary. No chunks give "No content available for summary." with no key points and duration 0.0. Otherwise the summary is the model's text, with the key points of the first five chunks and the latest end time. |

## Left out

- ffmpeg, Whisper, the text splitter, the embedding model, the vector store and the language model are foreign code. Their results are inputs, and the model does not describe what they compute.
- The similarity ranking happens inside the vector store. The model only maps the returned result; it has no top-k or distance computation.
- The prompts sent to the language model are not modelled. The model is a function from question and context (or from context alone, for summaries) to an outcome.
- Deleting an old collection before indexing is not modelled: the source ignores its failure, so it has no effect on the result.
- The `get_video` and root endpoints are not modelled. They serve files and a fixed health message.
- The id generator is not modelled; the new id is a parameter. Saving the upload is not modelled either; how saving ends is an outcome. The clock in `list_videos` is a single `now` parameter. Logging is not modelled.
- Async scheduling and the background task are not modelled: the pipeline is one sequential method. No await falls between a stage's three field writes, so each triple is one record update.
- Times, progress values and scores are exact reals. IEEE float rounding is not modelled.
- Text.Lower: `str.lower()` is modelled for ASCII letters only; other characters are kept as they are.
- Starlette's rendering of a caught `HTTPException` as "<code>: <detail>" is library code; the model takes that text form as given.
- LectureApi.StatusStore.UploadVideo: the size is a natural number. An upload whose size is unknown (`None`), which the comparison in the source would reject with a `TypeError` turned into a 500, is not modelled.
- LectureApi.StatusStore.ProcessVideoPipeline: requires the video id to be stored. The source would raise a `KeyError` outside its handler for a missing id, which upload never lets happen.
- LectureApi.StatusStore.ProcessVideoPipeline: requires every splitter chunk to be non-empty. The splitter never yields an empty chunk, and this rules out the division by zero at backend/services/rag_pipeline.py:160.
- LectureApi.StatusStore.RunStages: requires every splitter chunk to be non-empty, for the same reason.
- RagPipeline.ProcessTranscript: requires each chunk text or the joined transcript text to be non-empty, which rules out the same division by zero.
- RagPipeline.CreateChunksWithTimestamps: requires each chunk text or the joined transcript text to be non-empty, for the same reason.
- RagPipeline.FindChunkTimestamps: requires the chunk text or the joined transcript text to be non-empty, for the same reason.
- RagPipeline.ChunkFor: requires the chunk text or the joined transcript text to be non-empty, for the same reason.
- RagPipeline.ChunkTimestampsOrigin: requires the chunk text or the joined transcript text to be non-empty, for the same reason.
- RagPipeline.SearchRelevantChunks: a missing "start_time" key in a stored metadata entry is not modelled. Metadata is a record with every field present, as `_add_chunks_to_collection` writes it.
- VideoProcessor.TranscribeAudio: a segment whose "words" key holds `None` is not modelled. The key is either absent or holds a list.
- The log of written records is a ghost field; the source keeps no such history. The concurrent reads of the store that would observe intermediate states (`get_video_status` while the pipeline runs) are not modelled.

## Findings

The operations that use these values, `ExtractAudio` and `GetResponse` (and through it
`ChatWithLecture`), compute what the code computes: the path and the confidence as written. Each
corrected member stands beside them with its intended property proved.

| source | as written | input that shows it | evidently intended | confidence | as-written member | corrected member |
|---|---|---|---|---|---|---|
| backend/services/chat_service.py:190-213 | The confidence is min(0.7·mean(1 − distance) + 0.3·min(n/3, 1), 1.0). It is capped only from above, and a relevance of 1 − distance is negative once the store's default squared Euclidean distance passes 1. | A single retrieved chunk at distance 1.2: 0.7·(−0.2) + 0.1 = −0.04. | A confidence in [0.0, 1.0], as the method's documentation says. | not executed | ChatService.ConfidenceAsWritten, ChatService.ConfidenceAsWrittenCanBeNegative | ChatService.CalculateConfidence |
| backend/services/video_processor.py:34 | The audio path replaces only lower-case extensions, although the upload check at backend/main.py:76 accepts them in any case. For a name with an upper-case extension, the audio path is the video path, so ffmpeg is asked to write its output over its own input. ffmpeg refuses an output file that is also its input, even with overwriting enabled, so such an upload most likely ends "failed" in stage 1 with "Processing failed: Audio extraction failed: …". | An upload named "LECTURE.MP4", saved as "uploads/<id>_LECTURE.MP4". | The video's extension, in any case, replaced by ".wav", giving an audio file distinct from the video. | not executed | VideoProcessor.AudioPathAsWritten, VideoProcessor.AudioPathAsWrittenKeepsUpperCase | VideoProcessor.AudioPath, LectureApi.AcceptedUploadAudioIsApart |
