/** The RAG pipeline: recovering a time range for each text chunk of a transcript, the chunk
    records written to a video's vector collection, and the reshaping of a similarity query's result.
    The text splitter, the embedding model and the vector store are outside the model: the
    splitter's chunks, the store's query result and the outcome of each store call are inputs. */
module RagPipeline {
  import opened Wrappers
  import opened Text
  import opened VideoProcessor

  /** How many words at each end of a chunk are looked up in the segments. */
  const MatchWords := 5
  /** The assumed length, in seconds, of a chunk placed by its text position. */
  const EstimatedSpan := 30.0

  const RagProcessingFailed := "RAG processing failed: "
  const SearchFailed := "Search failed: "
  /** The text of the `IndexError` a too-short list raises. */
  const IndexOutOfRange := "list index out of range"

  /** One chunk as `_create_chunks_with_timestamps` builds it. */
  datatype Chunk = Chunk(text: string, chunkId: nat, startTime: real, endTime: real, duration: real, language: string)

  /** The metadata stored beside each chunk's text in the collection. */
  datatype Metadata = Metadata(chunkId: nat, startTime: real, endTime: real, duration: real, language: string)

  // ---------------------------------------------------------------- collection naming

  /** The collection that holds a video's chunks. */
  function CollectionName(videoId: string): (name: string)
    ensures |name| == 6 + |videoId| && name[..6] == "video_" && name[6..] == videoId
  {
    "video_" + videoId
  }

  /** Distinct videos never share a collection. */
  lemma CollectionNameInjective(a: string, b: string)
    requires CollectionName(a) == CollectionName(b)
    ensures a == b
  {
    assert a == CollectionName(a)[6..];
  }

  // ---------------------------------------------------------------- chunk timestamps

  function SegmentTexts(segments: seq<Segment>): seq<string> {
    seq(|segments|, i requires 0 <= i < |segments| => segments[i].text)
  }

  /** The segment texts joined by single spaces: the text the splitter cut the chunks from, and the
      text a chunk's position is looked up in. */
  function FullText(segments: seq<Segment>): string {
    Join(" ", SegmentTexts(segments))
  }

  /** The chunk's first five words (fewer if it has fewer), joined by single spaces. */
  function FirstWords(chunkText: string): string {
    var ws := Words(chunkText);
    Join(" ", ws[..Min(MatchWords, |ws|)])
  }

  /** The chunk's last five words (fewer if it has fewer), joined by single spaces. */
  function LastWords(chunkText: string): string {
    var ws := Words(chunkText);
    Join(" ", ws[|ws| - Min(MatchWords, |ws|)..])
  }

  /** The phrases looked up are the chunk's own words: splitting them again gives the chunk's first
      and last five words (all of them when it has fewer). */
  lemma FirstAndLastWordsSplitBack(chunkText: string)
    ensures var ws := Words(chunkText); var n := Min(MatchWords, |ws|);
      && Words(FirstWords(chunkText)) == ws[..n]
      && Words(LastWords(chunkText)) == ws[|ws| - n..]
  {
    var ws := Words(chunkText);
    var n := Min(MatchWords, |ws|);
    WordsPrefixSplitsBack(ws, n);
    WordsSuffixSplitsBack(ws, |ws| - n);
  }

  lemma WordsPrefixSplitsBack(ws: seq<string>, hi: nat)
    requires hi <= |ws|
    requires forall k :: 0 <= k < |ws| ==> IsWord(ws[k])
    ensures Words(Join(" ", ws[..hi])) == ws[..hi]
  {
    var part := ws[..hi];
    assert forall k :: 0 <= k < |part| ==> part[k] == ws[k];
    WordsOfJoin(part);
  }

  lemma WordsSuffixSplitsBack(ws: seq<string>, lo: nat)
    requires lo <= |ws|
    requires forall k :: 0 <= k < |ws| ==> IsWord(ws[k])
    ensures Words(Join(" ", ws[lo..])) == ws[lo..]
  {
    var part := ws[lo..];
    assert forall k :: 0 <= k < |part| ==> part[k] == ws[lo + k];
    WordsOfJoin(part);
  }

  /** The segment's stripped text contains `phrase`, compared in lower case. */
  predicate Mentions(seg: Segment, phrase: string) {
    Contains(Lower(Strip(seg.text)), Lower(phrase))
  }

  /** The segment test the scan applies for one phrase. The scan's properties below hold for any
      test, so they are stated for a test `holds`. */
  function MentionOf(phrase: string): Segment -> bool {
    seg => Mentions(seg, phrase)
  }

  /** Segment `i` is the first one passing `holds` whose start is not 0.0. */
  predicate LocksStart(segments: seq<Segment>, holds: Segment -> bool, i: int) {
    && 0 <= i < |segments|
    && holds(segments[i])
    && segments[i].start != 0.0
    && forall j :: 0 <= j < i && holds(segments[j]) ==> segments[j].start == 0.0
  }

  /** The start the scan settles on: a start of 0.0 does not stop the scan. */
  function LockedStart(segments: seq<Segment>, holds: Segment -> bool): real
    decreases |segments|
  {
    if segments == [] then 0.0
    else if holds(segments[0]) && segments[0].start != 0.0 then segments[0].start
    else LockedStart(segments[1..], holds)
  }

  /** The locked start is the start of the first passing segment whose start is not 0.0, and it is
      0.0 exactly when every passing segment starts at 0.0. */
  lemma {:induction false} LockedStartIsFirstLock(segments: seq<Segment>, holds: Segment -> bool)
    ensures var r := LockedStart(segments, holds);
      && (r != 0.0 ==> exists i :: LocksStart(segments, holds, i) && r == segments[i].start)
      && (r == 0.0 <==> forall i :: 0 <= i < |segments| && holds(segments[i]) ==> segments[i].start == 0.0)
    decreases |segments|
  {
    if segments == [] {
    } else if holds(segments[0]) && segments[0].start != 0.0 {
      assert LocksStart(segments, holds, 0);
    } else {
      LockedStartIsFirstLock(segments[1..], holds);
      assert forall i :: 1 <= i < |segments| ==> segments[1..][i - 1] == segments[i];
      assert forall i :: 1 <= i < |segments| && LocksStart(segments[1..], holds, i - 1) ==> LocksStart(segments, holds, i);
    }
  }

  /** Segment `i` passes `holds` and no later segment does. */
  predicate LastMention(segments: seq<Segment>, holds: Segment -> bool, i: int) {
    && 0 <= i < |segments|
    && holds(segments[i])
    && forall j :: i < j < |segments| ==> !holds(segments[j])
  }

  /** The end of the last segment passing `holds`, or 0.0 when none does. */
  function LastEnd(segments: seq<Segment>, holds: Segment -> bool): real
    decreases |segments|
  {
    if segments == [] then 0.0
    else if holds(segments[|segments| - 1]) then segments[|segments| - 1].end
    else LastEnd(segments[..|segments| - 1], holds)
  }

  /** The end is the end of the last passing segment, or 0.0 when no segment passes. */
  lemma {:induction false} LastEndIsLastMention(segments: seq<Segment>, holds: Segment -> bool)
    ensures var r := LastEnd(segments, holds);
      || (exists i :: LastMention(segments, holds, i) && r == segments[i].end)
      || (r == 0.0 && forall i :: 0 <= i < |segments| ==> !holds(segments[i]))
    decreases |segments|
  {
    if segments == [] {
    } else if holds(segments[|segments| - 1]) {
      assert LastMention(segments, holds, |segments| - 1);
    } else {
      var init := segments[..|segments| - 1];
      LastEndIsLastMention(init, holds);
      assert forall i :: 0 <= i < |init| ==> init[i] == segments[i];
      assert forall i :: LastMention(init, holds, i) ==> LastMention(segments, holds, i);
    }
  }

  /** Scanning one more segment: a locked start stays; otherwise a passing segment sets it. */
  lemma {:induction false} LockedStartSnoc(segments: seq<Segment>, seg: Segment, holds: Segment -> bool)
    ensures LockedStart(segments + [seg], holds) ==
      if LockedStart(segments, holds) != 0.0 then LockedStart(segments, holds)
      else if holds(seg) then seg.start
      else 0.0
    decreases |segments|
  {
    if segments != [] {
      assert (segments + [seg])[1..] == segments[1..] + [seg];
      LockedStartSnoc(segments[1..], seg, holds);
    }
  }

  /** Scanning one more segment: a passing segment moves the end to it. */
  lemma LastEndSnoc(segments: seq<Segment>, seg: Segment, holds: Segment -> bool)
    ensures LastEnd(segments + [seg], holds) == if holds(seg) then seg.end else LastEnd(segments, holds)
  {
    assert (segments + [seg])[..|segments|] == segments;
  }

  /** Whether `_find_chunk_timestamps` falls back to placing the chunk by its text position. */
  predicate EstimateApplies(chunkText: string, t: Transcript, start: real, end: real) {
    (start == 0.0 || end == 0.0) && Find(FullText(t.segments), chunkText) != -1 && t.duration > 0.0
  }

  /** The fallback placement: a chunk found at `pos` in a text of `len` characters starts at the
      same fraction of the duration and lasts 30 seconds, cut at the duration. */
  function Placement(pos: int, len: int, duration: real): (real, real)
    requires 0 < len
  {
    var start := pos as real / len as real * duration;
    (start, MinReal(start + EstimatedSpan, duration))
  }

  /** A placed chunk lies inside the recording and has a positive length. */
  lemma PlacementInRange(pos: int, len: int, duration: real)
    requires 0 <= pos < len && duration > 0.0
    ensures var (start, end) := Placement(pos, len, duration); 0.0 <= start < end <= duration
  {
    ScaledFractionBelow(pos, len, duration);
  }

  lemma ScaledFractionBelow(pos: int, len: int, d: real)
    requires 0 <= pos < len && d > 0.0
    ensures 0.0 <= pos as real / len as real * d < d
  {
    var f := pos as real / len as real;
    assert 0.0 <= f < 1.0;
    assert f * d < 1.0 * d;
  }

  /** A chunk found in the joined text starts before its end, unless both are empty. */
  lemma FoundBeforeEnd(full: string, chunkText: string)
    requires chunkText != [] || full != []
    requires Find(full, chunkText) != -1
    ensures Find(full, chunkText) < |full|
  {
    if chunkText == [] {
      FindIsLeftmost(full, chunkText);
      assert OccursAt(full, chunkText, 0);
    }
  }

  /** The time range `_find_chunk_timestamps` gives a chunk: the locked start of its first words and
      the end of the last segment holding its last words, settled by `Settle`. */
  function ChunkTimestamps(chunkText: string, t: Transcript): (real, real)
    requires chunkText != [] || FullText(t.segments) != []
  {
    Settle(chunkText, t, LockedStart(t.segments, MentionOf(FirstWords(chunkText))),
           LastEnd(t.segments, MentionOf(LastWords(chunkText))))
  }

  /** The scan's range `(s0, e0)` stands unless either bound is 0.0 and the chunk's text occurs in the
      joined transcript of a non-zero duration; then the chunk is placed by its position. */
  function Settle(chunkText: string, t: Transcript, s0: real, e0: real): (real, real)
    requires chunkText != [] || FullText(t.segments) != []
  {
    if EstimateApplies(chunkText, t, s0, e0) then
      Placement(Find(FullText(t.segments), chunkText), |FullText(t.segments)|, t.duration)
    else
      (s0, e0)
  }

  /** Where a chunk's range comes from: either it was placed by position, and then it lies inside the
      recording with a positive length; or each bound is 0.0 or taken from a segment, the start from
      the first segment holding the first words with a non-zero start, the end from the last segment
      holding the last words, and the placement did not apply. */
  lemma ChunkTimestampsOrigin(chunkText: string, t: Transcript)
    requires chunkText != [] || FullText(t.segments) != []
    ensures var (start, end) := ChunkTimestamps(chunkText, t);
      var first, last := MentionOf(FirstWords(chunkText)), MentionOf(LastWords(chunkText));
      || (Find(FullText(t.segments), chunkText) >= 0 && 0.0 <= start < end <= t.duration)
      || (&& (start == 0.0 || exists i :: LocksStart(t.segments, first, i) && start == t.segments[i].start)
          && (end == 0.0 || exists i :: LastMention(t.segments, last, i) && end == t.segments[i].end)
          && ((start != 0.0 && end != 0.0) || Find(FullText(t.segments), chunkText) == -1 || t.duration <= 0.0))
  {
    var first, last := MentionOf(FirstWords(chunkText)), MentionOf(LastWords(chunkText));
    var s0, e0 := LockedStart(t.segments, first), LastEnd(t.segments, last);
    LockedStartIsFirstLock(t.segments, first);
    LastEndIsLastMention(t.segments, last);
    if EstimateApplies(chunkText, t, s0, e0) {
      var full := FullText(t.segments);
      FoundBeforeEnd(full, chunkText);
      PlacementInRange(Find(full, chunkText), |full|, t.duration);
    }
  }

  /** The scan of `_find_chunk_timestamps`: the first mentioning segment with a non-zero start sets
      the start, and every segment holding the last words moves the end to its own. */
  method ScanSegments(segments: seq<Segment>, firstWords: string, lastWords: string) returns (start: real, end: real)
    ensures start == LockedStart(segments, MentionOf(firstWords))
    ensures end == LastEnd(segments, MentionOf(lastWords))
  {
    ghost var opens, closes := MentionOf(firstWords), MentionOf(lastWords);
    start, end := 0.0, 0.0;
    var i := 0;
    while i < |segments|
      invariant 0 <= i <= |segments|
      invariant start == LockedStart(segments[..i], opens)
      invariant end == LastEnd(segments[..i], closes)
    {
      var segment := segments[i];
      var mentionsFirst, mentionsLast := Mentions(segment, firstWords), Mentions(segment, lastWords);
      assert opens(segment) == mentionsFirst && closes(segment) == mentionsLast;
      if mentionsFirst && start == 0.0 {
        start := segment.start;
      }
      if mentionsLast {
        end := segment.end;
      }
      LockedStartSnoc(segments[..i], segment, opens);
      LastEndSnoc(segments[..i], segment, closes);
      assert segments[..i + 1] == segments[..i] + [segment];
      i := i + 1;
    }
    assert segments[..i] == segments;
  }

  /** `_find_chunk_timestamps`: the scan, then the position fallback. */
  method FindChunkTimestamps(chunkText: string, t: Transcript) returns (start: real, end: real)
    requires chunkText != [] || FullText(t.segments) != []
    ensures (start, end) == ChunkTimestamps(chunkText, t)
  {
    start, end := ScanSegments(t.segments, FirstWords(chunkText), LastWords(chunkText));
    ghost var scannedStart, scannedEnd := start, end;
    if start == 0.0 || end == 0.0 {
      var fullText := FullText(t.segments);
      var chunkStartPos := Find(fullText, chunkText);
      if chunkStartPos != -1 {
        var totalDuration := t.duration;
        if totalDuration > 0.0 {
          FoundBeforeEnd(fullText, chunkText);
          var placed := Placement(chunkStartPos, |fullText|, totalDuration);
          start, end := placed.0, placed.1;
          assert EstimateApplies(chunkText, t, scannedStart, scannedEnd);
        }
      }
    }
    assert (start, end) == Settle(chunkText, t, scannedStart, scannedEnd);
  }

  // ---------------------------------------------------------------- chunks

  /** The i-th chunk built from `text`: its id is its index, its duration is never negative. */
  function ChunkFor(t: Transcript, text: string, i: nat): (c: Chunk)
    requires text != [] || FullText(t.segments) != []
    ensures c.text == text && c.chunkId == i && c.language == t.language
    ensures (c.startTime, c.endTime) == ChunkTimestamps(text, t)
    ensures c.duration >= 0.0
    ensures c.endTime > c.startTime ==> c.duration == c.endTime - c.startTime
    ensures c.endTime <= c.startTime ==> c.duration == 0.0
  {
    var (start, end) := ChunkTimestamps(text, t);
    Chunk(text, i, start, end, if end > start then end - start else 0.0, t.language)
  }

  /** `_create_chunks_with_timestamps`, given the splitter's chunks of the joined transcript text. */
  method CreateChunksWithTimestamps(t: Transcript, textChunks: seq<string>) returns (chunks: seq<Chunk>)
    requires forall i :: 0 <= i < |textChunks| ==> textChunks[i] != [] || FullText(t.segments) != []
    ensures |chunks| == |textChunks|
    ensures forall i :: 0 <= i < |chunks| ==> chunks[i] == ChunkFor(t, textChunks[i], i)
  {
    chunks := [];
    var i := 0;
    while i < |textChunks|
      invariant 0 <= i <= |textChunks|
      invariant |chunks| == i
      invariant forall k :: 0 <= k < i ==> chunks[k] == ChunkFor(t, textChunks[k], k)
    {
      var chunkText := textChunks[i];
      var startTime, endTime := FindChunkTimestamps(chunkText, t);
      var chunk := Chunk(chunkText, i, startTime, endTime,
                         if endTime > startTime then endTime - startTime else 0.0, t.language);
      assert chunk == ChunkFor(t, chunkText, i);
      chunks := chunks + [chunk];
      i := i + 1;
    }
  }

  // ---------------------------------------------------------------- the collection

  /** The three parallel lists handed to the collection's `add`. */
  datatype Records = Records(ids: seq<string>, documents: seq<string>, metadatas: seq<Metadata>)

  function MetadataOf(c: Chunk): Metadata {
    Metadata(c.chunkId, c.startTime, c.endTime, c.duration, c.language)
  }

  function RecordId(i: nat): string {
    "chunk_" + NatToString(i)
  }

  /** The lists `_add_chunks_to_collection` builds, one entry per chunk in each. */
  function CollectionRecords(chunks: seq<Chunk>): (r: Records)
    ensures |r.ids| == |r.documents| == |r.metadatas| == |chunks|
  {
    Records(seq(|chunks|, i requires 0 <= i < |chunks| => RecordId(i)),
            seq(|chunks|, i requires 0 <= i < |chunks| => chunks[i].text),
            seq(|chunks|, i requires 0 <= i < |chunks| => MetadataOf(chunks[i])))
  }

  /** The chunk a stored document and its metadata describe. */
  function ChunkOfRecord(document: string, m: Metadata): Chunk {
    Chunk(document, m.chunkId, m.startTime, m.endTime, m.duration, m.language)
  }

  /** Reading the i-th document and metadata back gives the i-th chunk, under id "chunk_<i>". */
  lemma CollectionRecordsRoundTrip(chunks: seq<Chunk>, i: nat)
    requires i < |chunks|
    ensures var r := CollectionRecords(chunks);
      r.ids[i] == RecordId(i) && ChunkOfRecord(r.documents[i], r.metadatas[i]) == chunks[i]
  {
  }

  /** No two records of a collection share an id. */
  lemma CollectionIdsDistinct(chunks: seq<Chunk>, i: nat, j: nat)
    requires i < j < |chunks|
    ensures CollectionRecords(chunks).ids[i] != CollectionRecords(chunks).ids[j]
  {
    var ids := CollectionRecords(chunks).ids;
    if ids[i] == ids[j] {
      assert NatToString(i) == ids[i][6..] && NatToString(j) == ids[j][6..];
      NatToStringInjective(i, j);
    }
  }

  /** A video's collection once indexed: its name and its records. */
  datatype Collection = Collection(name: string, records: Records)

  /** `process_transcript`, given the outcomes of creating the collection and of adding to it. The
      failure to delete an old collection is ignored by the source and has no input here. */
  method ProcessTranscript(t: Transcript, videoId: string, textChunks: seq<string>,
                           create: Outcome<string>, add: Outcome<string>)
    returns (r: Result<Collection, string>)
    requires forall i :: 0 <= i < |textChunks| ==> textChunks[i] != [] || FullText(t.segments) != []
    ensures create.Fail? ==> r == Err(RagProcessingFailed + create.error)
    ensures create.Pass? && add.Fail? ==> r == Err(RagProcessingFailed + add.error)
    ensures r.Ok? <==> create.Pass? && add.Pass?
    ensures r.Ok? ==> r.value.name == CollectionName(videoId)
    ensures r.Ok? ==>
      r.value.records == CollectionRecords(seq(|textChunks|, i requires 0 <= i < |textChunks| => ChunkFor(t, textChunks[i], i)))
  {
    var collectionName := CollectionName(videoId);
    if create.Fail? {
      return Err(RagProcessingFailed + create.error);
    }
    var chunks := CreateChunksWithTimestamps(t, textChunks);
    var records := CollectionRecords(chunks);
    if add.Fail? {
      return Err(RagProcessingFailed + add.error);
    }
    assert chunks == seq(|textChunks|, i requires 0 <= i < |textChunks| => ChunkFor(t, textChunks[i], i));
    return Ok(Collection(collectionName, records));
  }

  // ---------------------------------------------------------------- search

  /** The part of the store's query result the backend reads: one inner list per query text. An
      absent `distances` entry is the empty list. */
  datatype QueryResult = QueryResult(documents: seq<seq<string>>, metadatas: seq<seq<Metadata>>, distances: seq<seq<real>>)

  /** The number of documents returned for the one query text. */
  function ReturnedCount(q: QueryResult): nat {
    if |q.documents| > 0 then |q.documents[0]| else 0
  }

  /** The store returns a metadata entry, and a distance when it returns distances, per document. */
  predicate WellShaped(q: QueryResult) {
    ReturnedCount(q) > 0 ==>
      && |q.metadatas| > 0 && |q.metadatas[0]| >= ReturnedCount(q)
      && (|q.distances| > 0 ==> |q.distances[0]| >= ReturnedCount(q))
  }

  /** The distance of the i-th returned document; 0.0 when the store returned no distances. */
  function DistanceAt(q: QueryResult, i: nat): real
    requires WellShaped(q) && i < ReturnedCount(q)
  {
    if |q.distances| > 0 then q.distances[0][i] else 0.0
  }

  /** A retrieved chunk as the chat service receives it; `relevanceScore` is None when the entry
      carries no "relevance_score" key. */
  datatype RelevantChunk = RelevantChunk(text: string, metadata: Metadata, relevanceScore: Option<real>,
                                         startTime: real, endTime: real)

  /** The i-th entry of the result of `search_relevant_chunks` for query result `q`. */
  function RetrievedAt(q: QueryResult, i: nat): (c: RelevantChunk)
    requires WellShaped(q) && i < ReturnedCount(q)
    ensures c.text == q.documents[0][i] && c.metadata == q.metadatas[0][i]
    ensures c.relevanceScore == Some(1.0 - DistanceAt(q, i))
    ensures c.startTime == c.metadata.startTime && c.endTime == c.metadata.endTime
  {
    var metadata := q.metadatas[0][i];
    RelevantChunk(q.documents[0][i], metadata, Some(1.0 - DistanceAt(q, i)), metadata.startTime, metadata.endTime)
  }

  /** `search_relevant_chunks`, given the store's query result for the video's collection (an error
      when the collection is missing or the query fails). A result whose metadata or distance list
      is shorter than its document list raises an `IndexError` in the loop, which the handler turns
      into the same failure as any other. */
  method SearchRelevantChunks(query: Result<QueryResult, string>) returns (r: Result<seq<RelevantChunk>, string>)
    ensures query.Err? ==> r == Err(SearchFailed + query.error)
    ensures query.Ok? && !WellShaped(query.value) ==> r == Err(SearchFailed + IndexOutOfRange)
    ensures r.Ok? <==> query.Ok? && WellShaped(query.value)
    ensures r.Ok? ==> |r.value| == ReturnedCount(query.value)
    ensures r.Ok? ==> forall i :: 0 <= i < |r.value| ==> r.value[i] == RetrievedAt(query.value, i)
  {
    if query.Err? {
      return Err(SearchFailed + query.error);
    }
    var results := query.value;
    if !WellShaped(results) {
      return Err(SearchFailed + IndexOutOfRange);
    }
    var relevantChunks: seq<RelevantChunk> := [];
    if |results.documents| > 0 && |results.documents[0]| > 0 {
      var i := 0;
      while i < |results.documents[0]|
        invariant 0 <= i <= |results.documents[0]|
        invariant |relevantChunks| == i
        invariant forall k :: 0 <= k < i ==> relevantChunks[k] == RetrievedAt(results, k)
      {
        var doc := results.documents[0][i];
        var metadata := results.metadatas[0][i];
        var distance := if |results.distances| > 0 then results.distances[0][i] else 0.0;
        var chunk := RelevantChunk(doc, metadata, Some(1.0 - distance), metadata.startTime, metadata.endTime);
        relevantChunks := relevantChunks + [chunk];
        i := i + 1;
      }
    }
    return Ok(relevantChunks);
  }

  /** What `get_collection_info` reports. */
  datatype CollectionInfo = CollectionInfo(collectionName: string, chunkCount: nat, status: string)

  /** `get_collection_info`, given the collection's count (an error when the collection is missing). */
  function GetCollectionInfo(videoId: string, count: Result<nat, string>): (info: CollectionInfo)
    ensures info.collectionName == CollectionName(videoId)
    ensures info.status == "ready" <==> count.Ok?
    ensures info.status == "ready" || info.status == "not_found"
    ensures info.chunkCount == if count.Ok? then count.value else 0
  {
    match count
    case Ok(n) => CollectionInfo(CollectionName(videoId), n, "ready")
    case Err(_) => CollectionInfo(CollectionName(videoId), 0, "not_found")
  }
}
