/** The HTTP layer: the in-memory status store, upload validation, the gates on status lookup, chat and
    the video list, and the background pipeline that drives a video's status record from "uploaded"
    to "completed" or "failed". File saving, the id generator, the clock and every external step
    reach the model as inputs. */
module LectureApi {
  import opened Wrappers
  import opened Text
  import opened VideoProcessor
  import opened RagPipeline
  import opened ChatService

  /** The processing record kept for each video. */
  datatype VideoStatus = VideoStatus(videoId: string, status: string, progress: real, message: string)

  /** An `HTTPException`: a status code and a detail text. */
  datatype HttpError = HttpError(statusCode: nat, detail: string)

  /** The body `upload_video` returns. */
  datatype UploadReply = UploadReply(videoId: string, message: string, filename: string)

  /** One entry of the `list_videos` body. */
  datatype VideoEntry = VideoEntry(videoId: string, status: string, processedAt: string)

  /** The upload limit: 2 GiB. */
  const MaxUploadBytes: nat := 2 * 1024 * 1024 * 1024

  const InvalidFormat := "Invalid video format"
  const FileTooLarge := "File too large"
  const VideoNotFound := "Video not found"
  const StillProcessing := "Video is still processing. Status: "
  const UploadedMessage := "Video uploaded successfully"
  const UploadReplyMessage := "Video uploaded successfully. Processing started."
  const ProcessingFailed := "Processing failed: "

  // ---------------------------------------------------------------- upload validation

  /** The lower-cased file name ends in one of the video extensions. */
  predicate HasVideoExtension(filename: string) {
    exists k :: 0 <= k < |VideoExtensions| && EndsWith(Lower(filename), VideoExtensions[k])
  }

  /** The checks `upload_video` makes before saving: the extension first, then the size. */
  function ValidateUpload(filename: string, size: nat): (e: Option<HttpError>)
    ensures e.None? <==> HasVideoExtension(filename) && size <= MaxUploadBytes
    ensures e.Some? ==> e.value.statusCode == 400
    ensures !HasVideoExtension(filename) ==> e == Some(HttpError(400, InvalidFormat))
    ensures HasVideoExtension(filename) && size > MaxUploadBytes ==> e == Some(HttpError(400, FileTooLarge))
  {
    if !HasVideoExtension(filename) then Some(HttpError(400, InvalidFormat))
    else if size > MaxUploadBytes then Some(HttpError(400, FileTooLarge))
    else None
  }

  /** The extension check ignores case: any stem with an upper-case ".MP4" passes. */
  lemma UpperCaseExtensionAccepted(stem: string)
    ensures HasVideoExtension(stem + ".MP4")
  {
    LowerAppend(stem, ".MP4");
    var lowered := Lower(stem + ".MP4");
    assert Lower(".MP4") == ".mp4";
    assert lowered[|lowered| - 4..] == ".mp4";
    assert EndsWith(lowered, VideoExtensions[0]);
  }

  /** Where `upload_video` saves the file, and the path the pipeline receives. */
  function UploadPath(videoId: string, filename: string): string {
    "uploads/" + videoId + "_" + filename
  }

  /** An upload named "<stem>.MP4" is accepted, yet the audio path derived from its saved path as
      written is that same path, so ffmpeg is asked to write the audio over the upload. */
  lemma UpperCaseUploadAudioIsVideo(videoId: string, stem: string)
    requires '.' !in videoId && '.' !in stem
    ensures ValidateUpload(stem + ".MP4", MaxUploadBytes).None?
    ensures var path := UploadPath(videoId, stem + ".MP4"); AudioPathAsWritten(path) == path
  {
    UpperCaseExtensionAccepted(stem);
    var prefix := "uploads/" + videoId + "_" + stem;
    assert UploadPath(videoId, stem + ".MP4") == prefix + ".MP4";
    AudioPathAsWrittenKeepsUpperCase(prefix);
  }

  /** With the corrected path, the audio of any accepted upload gets a ".wav" path of its own. */
  lemma AcceptedUploadAudioIsApart(videoId: string, filename: string)
    requires HasVideoExtension(filename)
    ensures var path := UploadPath(videoId, filename);
      AudioPath(path) != path && EndsWith(AudioPath(path), ".wav")
  {
  }

  /** A file of exactly 2 GiB passes the size check; one byte more does not. */
  lemma SizeLimitIsInclusive(filename: string)
    requires HasVideoExtension(filename)
    ensures ValidateUpload(filename, 2147483648).None?
    ensures ValidateUpload(filename, 2147483649) == Some(HttpError(400, FileTooLarge))
  {
  }

  /** The text of an `HTTPException` caught by a generic handler: "<code>: <detail>". The handler
      re-raises it as a 500 carrying this text. */
  function ExceptionText(e: HttpError): string {
    NatToString(e.statusCode) + ": " + e.detail
  }

  /** A caught 400 or 404 reaches the caller as a 500 whose detail starts with the original code. */
  lemma CaughtErrorKeepsCode(e: HttpError)
    requires e.statusCode == 400 || e.statusCode == 404
    ensures var text := ExceptionText(e);
      |text| >= 5 && ParseNat(text[..3]) == Some(e.statusCode) && text[3..5] == ": " && text[5..] == e.detail
  {
    var digits := NatToString(e.statusCode);
    ParseNatToString(e.statusCode);
    assert |digits| == 3 by {
      if e.statusCode == 400 { assert digits == "400"; } else { assert digits == "404"; }
    }
    var text := ExceptionText(e);
    assert text[..3] == digits;
  }

  // ---------------------------------------------------------------- the pipeline's stages

  /** The four record updates of `process_video_pipeline`, in order. */
  const StageStatuses: seq<string> := ["extracting_audio", "transcribing", "processing_rag", "completed"]
  const StageProgress: seq<real> := [10.0, 30.0, 70.0, 100.0]
  const StageMessages: seq<string> := [
    "Extracting audio from video...",
    "Generating transcript with timestamps...",
    "Processing transcript with RAG pipeline...",
    "Processing completed successfully!"]

  /** The record once the k-th stage (1 to 4) has been entered. */
  function StageRecord(r: VideoStatus, k: nat): (s: VideoStatus)
    requires 1 <= k <= 4
  {
    r.(status := StageStatuses[k - 1], progress := StageProgress[k - 1], message := StageMessages[k - 1])
  }

  /** The record after the handler caught `error`: status and message change, progress stays. */
  function FailedRecord(r: VideoStatus, error: string): VideoStatus {
    r.(status := "failed", message := ProcessingFailed + error)
  }

  /** How a run ends: every step passed, or the step begun as the `stage`-th (1 to 4) raised. */
  datatype Stop = Finished | FailedDuring(stage: nat, error: string)

  /** Where a run stops, given the outcome of each external step: audio extraction (stage 1),
      transcription (2), collection creation and insertion (3), removal of the audio file (4). The
      removal runs after the record was set to "completed". */
  function PipelineStop(ffmpeg: Outcome<string>, whisper: Result<WhisperResult, string>,
                        create: Outcome<string>, add: Outcome<string>, removal: Outcome<string>): (stop: Stop)
    ensures stop.FailedDuring? ==> 1 <= stop.stage <= 4
  {
    if ffmpeg.Fail? then FailedDuring(1, AudioExtractionFailed + ffmpeg.error)
    else if whisper.Err? then FailedDuring(2, TranscriptionFailed + whisper.error)
    else if create.Fail? then FailedDuring(3, RagProcessingFailed + create.error)
    else if add.Fail? then FailedDuring(3, RagProcessingFailed + add.error)
    else if removal.Fail? then FailedDuring(4, removal.error)
    else Finished
  }

  /** The stages a run enters. */
  function StagesEntered(stop: Stop): nat {
    if stop.Finished? then 4 else stop.stage
  }

  /** The records of the first `n` stages (0 to 4) entered from `r`. */
  function Entered(r: VideoStatus, n: nat): (entered: seq<VideoStatus>)
    requires n <= 4
    ensures |entered| == n
  {
    [StageRecord(r, 1), StageRecord(r, 2), StageRecord(r, 3), StageRecord(r, 4)][..n]
  }

  /** Every state the record takes during a run that starts from `r`, in order. */
  function PipelineTrace(r: VideoStatus, stop: Stop): (trace: seq<VideoStatus>)
    requires stop.FailedDuring? ==> 1 <= stop.stage <= 4
    ensures |trace| == if stop.Finished? then 4 else stop.stage + 1
  {
    match stop
    case Finished => Entered(r, 4)
    case FailedDuring(k, e) => Entered(r, k) + [FailedRecord(StageRecord(r, k), e)]
  }

  /** A run where every step passes goes through extracting_audio/10, transcribing/30,
      processing_rag/70 and completed/100, with progress strictly increasing. */
  lemma PipelineHappyPath(r: VideoStatus)
    ensures var trace := PipelineTrace(r, Finished);
      && (forall i :: 0 <= i < 4 ==> trace[i].status == StageStatuses[i] && trace[i].progress == StageProgress[i])
      && (forall i, j :: 0 <= i < j < 4 ==> trace[i].progress < trace[j].progress)
      && trace[3].status == "completed" && trace[3].progress == 100.0
  {
  }

  /** A step that raises leaves the record "failed" with "Processing failed: " and the error as its
      message, keeps the progress set when that step began, and no later stage is ever entered. */
  lemma PipelineFailure(r: VideoStatus, stage: nat, error: string)
    requires 1 <= stage <= 4
    ensures var trace := PipelineTrace(r, FailedDuring(stage, error));
      && trace[stage].status == "failed"
      && trace[stage].message == ProcessingFailed + error
      && trace[stage].progress == StageProgress[stage - 1]
      && (forall i :: 0 <= i < stage ==> trace[i].status == StageStatuses[i])
      && (forall i :: 0 <= i <= stage ==> trace[i].status != "completed" || i == 3)
  {
  }

  /** When only the removal of the audio file fails, the record first reads completed/100 and then
      ends as failed/100. */
  lemma RemovalFailureFlipsCompleted(r: VideoStatus, whisper: WhisperResult, error: string)
    ensures var stop := PipelineStop(Pass, Ok(whisper), Pass, Pass, Fail(error));
      var trace := PipelineTrace(r, stop);
      && stop == FailedDuring(4, error)
      && trace[3].status == "completed" && trace[3].progress == 100.0
      && trace[4].status == "failed" && trace[4].progress == 100.0
  {
  }

  /** Progress never goes down during a run. */
  lemma PipelineProgressMonotone(r: VideoStatus, stop: Stop)
    requires stop.FailedDuring? ==> 1 <= stop.stage <= 4
    ensures var trace := PipelineTrace(r, stop);
      forall i, j :: 0 <= i < j < |trace| ==> trace[i].progress <= trace[j].progress
  {
  }

  // ---------------------------------------------------------------- the store

  /** `video_status_store`: the records by video id, and the ids in insertion order (the order in
      which a dictionary yields its items). */
  class StatusStore {
    var records: map<string, VideoStatus>
    var order: seq<string>
    /** Every record the store has written, in the order written. */
    ghost var log: seq<VideoStatus>

    /** Each id is listed once, the listed ids are the stored ones, and each record carries its id. */
    ghost predicate Valid()
      reads this
    {
      && (forall i, j :: 0 <= i < j < |order| ==> order[i] != order[j])
      && (forall id :: id in records <==> id in order)
      && (forall id :: id in records ==> records[id].videoId == id)
    }

    constructor()
      ensures Valid() && records == map[] && order == [] && log == []
    {
      records := map[];
      order := [];
      log := [];
    }

    /** `upload_video`, given the id the generator returned and how saving the file ended. Every
        failure, the validation's own 400s included, reaches the caller as a 500. */
    method UploadVideo(filename: string, size: nat, newId: string, save: Outcome<string>)
      returns (r: Result<UploadReply, HttpError>)
      requires Valid()
      modifies this
      ensures Valid()
      ensures ValidateUpload(filename, size).Some? ==>
        r == Err(HttpError(500, ExceptionText(ValidateUpload(filename, size).value)))
      ensures ValidateUpload(filename, size).None? && save.Fail? ==> r == Err(HttpError(500, save.error))
      ensures r.Err? ==> records == old(records) && order == old(order) && log == old(log)
      ensures r.Ok? <==> ValidateUpload(filename, size).None? && save.Pass?
      ensures r.Ok? ==>
        && r.value == UploadReply(newId, UploadReplyMessage, filename)
        && records == old(records)[newId := VideoStatus(newId, "uploaded", 0.0, UploadedMessage)]
        && log == old(log) + [VideoStatus(newId, "uploaded", 0.0, UploadedMessage)]
        && order == if newId in old(records) then old(order) else old(order) + [newId]
    {
      var invalid := ValidateUpload(filename, size);
      if invalid.Some? {
        return Err(HttpError(500, ExceptionText(invalid.value)));
      }
      if save.Fail? {
        return Err(HttpError(500, save.error));
      }
      if newId !in records {
        order := order + [newId];
      }
      records := records[newId := VideoStatus(newId, "uploaded", 0.0, UploadedMessage)];
      log := log + [records[newId]];
      return Ok(UploadReply(newId, UploadReplyMessage, filename));
    }

    /** `get_video_status`: the stored record, or a 404 raised outside any handler. */
    function GetVideoStatus(videoId: string): (r: Result<VideoStatus, HttpError>)
      reads this
      ensures r.Ok? <==> videoId in records
      ensures r.Ok? ==> r.value == records[videoId]
      ensures r.Err? ==> r.error == HttpError(404, VideoNotFound)
    {
      if videoId in records then Ok(records[videoId]) else Err(HttpError(404, VideoNotFound))
    }

    /** `chat_with_lecture`, given the outcome of the search for the message's video and the language
        model. Only a video whose status is exactly "completed" reaches the chat service; the 404 and
        400 raised before it are caught and re-raised as 500s. */
    method ChatWithLecture(videoId: string, message: string, search: Result<seq<RelevantChunk>, string>,
                           model: (string, string) -> Result<string, string>)
      returns (r: Result<ChatResponse, HttpError>)
      ensures videoId !in records ==> r == Err(HttpError(500, ExceptionText(HttpError(404, VideoNotFound))))
      ensures videoId in records && records[videoId].status != "completed" ==>
        r == Err(HttpError(500, ExceptionText(HttpError(400, StillProcessing + records[videoId].status))))
      ensures r.Ok? <==> videoId in records && records[videoId].status == "completed"
      ensures r.Ok? ==> r.value == ResponseFor(message, search, model)
    {
      if videoId !in records {
        return Err(HttpError(500, ExceptionText(HttpError(404, VideoNotFound))));
      }
      var status := records[videoId];
      if status.status != "completed" {
        return Err(HttpError(500, ExceptionText(HttpError(400, StillProcessing + status.status))));
      }
      var response := GetResponse(message, search, model);
      return Ok(response);
    }

    /** `list_videos`, with `now` standing for the time stamp written into each entry. */
    method ListVideos(now: string) returns (videos: seq<VideoEntry>)
      requires Valid()
      ensures videos == CompletedEntries(order, records, now)
      ensures forall id :: VideoEntry(id, "completed", now) in videos <==> id in records && records[id].status == "completed"
      ensures forall e :: e in videos ==> e.status == "completed" && e.processedAt == now
    {
      videos := [];
      var i := 0;
      while i < |order|
        invariant 0 <= i <= |order|
        invariant videos == CompletedEntries(order[..i], records, now)
      {
        var videoId := order[i];
        assert order[..i + 1][..i] == order[..i];
        if records[videoId].status == "completed" {
          videos := videos + [VideoEntry(videoId, records[videoId].status, now)];
        }
        i := i + 1;
      }
      assert order[..i] == order;
      CompletedEntriesExact(order, records, now);
    }

    /** `process_video_pipeline` for a stored video, given the outcome of each external step and the
        splitter's chunks: the `try` block, then the handler when a step raised. Each stage's three
        field writes happen with no suspension between them, so each is one record update here. */
    method ProcessVideoPipeline(videoId: string, filePath: string, ffmpeg: Outcome<string>,
                                whisper: Result<WhisperResult, string>, textChunks: seq<string>,
                                create: Outcome<string>, add: Outcome<string>, removal: Outcome<string>)
      requires Valid() && videoId in records
      requires forall i :: 0 <= i < |textChunks| ==> textChunks[i] != []
      modifies this
      ensures Valid() && order == old(order)
      ensures log == old(log) + PipelineTrace(old(records[videoId]), PipelineStop(ffmpeg, whisper, create, add, removal))
      ensures records == old(records)[videoId := log[|log| - 1]]
    {
      ghost var start := records[videoId];
      ghost var stop := PipelineStop(ffmpeg, whisper, create, add, removal);
      var raised := RunStages(videoId, filePath, ffmpeg, whisper, textChunks, create, add, removal);
      if raised.Some? {
        ghost var reached := records[videoId];
        MarkFailed(videoId, raised.value);
        assert log == old(log) + (Entered(start, stop.stage) + [records[videoId]]);
        Overwrite(old(records), videoId, reached, records[videoId]);
      }
    }

    /** The `try` block of `process_video_pipeline`: the stages run in order until one raises, and
        `raised` is the error the handler receives. */
    method RunStages(videoId: string, filePath: string, ffmpeg: Outcome<string>,
                     whisper: Result<WhisperResult, string>, textChunks: seq<string>,
                     create: Outcome<string>, add: Outcome<string>, removal: Outcome<string>)
      returns (raised: Option<string>)
      requires videoId in records
      requires forall i :: 0 <= i < |textChunks| ==> textChunks[i] != []
      modifies this
      ensures order == old(order)
      ensures var stop := PipelineStop(ffmpeg, whisper, create, add, removal);
        && raised == (if stop.Finished? then None else Some(stop.error))
        && log == old(log) + Entered(old(records[videoId]), StagesEntered(stop))
        && records == old(records)[videoId := StageRecord(old(records[videoId]), StagesEntered(stop))]
    {
      ghost var start := records[videoId];
      EnterStage(videoId, 1);
      assert log == old(log) + Entered(start, 1);
      var audioPath := ExtractAudio(filePath, ffmpeg);
      if audioPath.Err? {
        return Some(audioPath.error);
      }

      EnterStage(videoId, 2);
      NextStage(old(records), old(log), videoId, start, 2);
      var transcript := TranscribeAudio(whisper);
      if transcript.Err? {
        return Some(transcript.error);
      }

      EnterStage(videoId, 3);
      NextStage(old(records), old(log), videoId, start, 3);
      var indexed := ProcessTranscript(transcript.value, videoId, textChunks, create, add);
      if indexed.Err? {
        return Some(indexed.error);
      }

      EnterStage(videoId, 4);
      NextStage(old(records), old(log), videoId, start, 4);
      if removal.Fail? {
        return Some(removal.error);
      }
      return None;
    }

    /** The three field writes that enter stage `k` (1 to 4). */
    method EnterStage(videoId: string, k: nat)
      requires videoId in records && 1 <= k <= 4
      modifies this
      ensures order == old(order)
      ensures records == old(records)[videoId := StageRecord(old(records[videoId]), k)]
      ensures log == old(log) + [StageRecord(old(records[videoId]), k)]
    {
      records := records[videoId := StageRecord(records[videoId], k)];
      log := log + [records[videoId]];
    }

    /** The handler's two field writes: status "failed" and the error in the message. */
    method MarkFailed(videoId: string, error: string)
      requires videoId in records
      modifies this
      ensures order == old(order)
      ensures records == old(records)[videoId := FailedRecord(old(records[videoId]), error)]
      ensures log == old(log) + [FailedRecord(old(records[videoId]), error)]
    {
      records := records[videoId := FailedRecord(records[videoId], error)];
      log := log + [records[videoId]];
    }
  }

  /** Entering stage `k` from the record of stage `k - 1` gives the record of stage `k`, and logs the
      next record of the run. */
  lemma NextStage(m: map<string, VideoStatus>, prefix: seq<VideoStatus>, id: string, start: VideoStatus, k: nat)
    requires 2 <= k <= 4
    ensures var reached := StageRecord(start, k - 1);
      && m[id := reached][id := StageRecord(reached, k)] == m[id := StageRecord(start, k)]
      && prefix + Entered(start, k - 1) + [StageRecord(reached, k)] == prefix + Entered(start, k)
  {
    var reached := StageRecord(start, k - 1);
    assert StageRecord(reached, k) == StageRecord(start, k);
    assert Entered(start, k - 1) + [StageRecord(start, k)] == Entered(start, k);
  }

  /** A second write to the same key replaces the first. */
  lemma Overwrite<K, V>(m: map<K, V>, k: K, a: V, b: V)
    ensures m[k := a][k := b] == m[k := b]
  {
  }

  /** The entries `list_videos` writes for `ids`, in order: one per id whose status is "completed". */
  function CompletedEntries(ids: seq<string>, records: map<string, VideoStatus>, now: string): seq<VideoEntry>
    requires forall i :: 0 <= i < |ids| ==> ids[i] in records
    decreases |ids|
  {
    if ids == [] then []
    else
      var last := ids[|ids| - 1];
      var rest := CompletedEntries(ids[..|ids| - 1], records, now);
      if records[last].status == "completed" then rest + [VideoEntry(last, "completed", now)] else rest
  }

  /** The list holds an entry for an id exactly when the id is listed and its status is "completed". */
  lemma {:induction false} CompletedEntriesExact(ids: seq<string>, records: map<string, VideoStatus>, now: string)
    requires forall i :: 0 <= i < |ids| ==> ids[i] in records
    ensures forall id :: VideoEntry(id, "completed", now) in CompletedEntries(ids, records, now) <==>
      id in ids && records[id].status == "completed"
    ensures forall e :: e in CompletedEntries(ids, records, now) ==> e.status == "completed" && e.processedAt == now
    decreases |ids|
  {
    if ids != [] {
      CompletedEntriesExact(ids[..|ids| - 1], records, now);
      assert ids == ids[..|ids| - 1] + [ids[|ids| - 1]];
    }
  }
}
