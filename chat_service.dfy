/** The chat service: composing an answer from retrieved chunks. The language model is outside the
    model: its outcome for a question and a context (or for a context alone, when summarising) is a
    function given as a parameter. */
module ChatService {
  import opened Wrappers
  import opened Text
  import opened Clock
  import opened VideoProcessor
  import opened RagPipeline

  const NoMatchAnswer := "I couldn't find relevant information in the lecture for your question. Could you try rephrasing or asking about a different topic?"
  const ErrorAnswer := "I apologize, but I encountered an error while processing your question. Please try again."
  const GenerationFailedAnswer := "I apologize, but I couldn't generate a response at this time. Please try again."
  const NoContentSummary := "No content available for summary."
  const SummaryFailed := "Unable to generate summary at this time."

  /** How many retrieved chunks become key points. */
  const KeyPointCount := 5
  /** How many characters of a chunk a key point keeps before "...". */
  const ExcerptLength := 200

  /** A chunk's relevance as the service reads it: 0.0 when the entry has no score. */
  function Relevance(c: RelevantChunk): real {
    match c.relevanceScore
    case Some(r) => r
    case None => 0.0
  }

  // ---------------------------------------------------------------- citations

  /** One entry of the answer's "timestamps" list. */
  datatype Citation = Citation(start: real, end: real, relevance: real)

  function CitationOf(c: RelevantChunk): Citation {
    Citation(c.startTime, c.endTime, Relevance(c))
  }

  /** The citations in retrieval order, before sorting. */
  function Citations(chunks: seq<RelevantChunk>): seq<Citation> {
    seq(|chunks|, i requires 0 <= i < |chunks| => CitationOf(chunks[i]))
  }

  /** Highest relevance first. */
  predicate SortedDesc(s: seq<Citation>) {
    forall i, j :: 0 <= i < j < |s| ==> s[i].relevance >= s[j].relevance
  }

  /** The entries of `s` whose relevance is `v`, in their order in `s`. A sort is stable when it
      keeps every such subsequence. */
  function WithRelevance(s: seq<Citation>, v: real): seq<Citation>
    decreases |s|
  {
    if s == [] then []
    else (if s[0].relevance == v then [s[0]] else []) + WithRelevance(s[1..], v)
  }

  /** Places `x` after every entry whose relevance is at least its own. */
  function Insert(x: Citation, s: seq<Citation>): seq<Citation>
    decreases |s|
  {
    if s == [] then [x]
    else if s[0].relevance >= x.relevance then [s[0]] + Insert(x, s[1..])
    else [x] + s
  }

  /** Python's `list.sort(key=relevance, reverse=True)`: a stable sort, highest relevance first. The
      result is ordered by relevance and only reorders its input. */
  function SortByRelevance(s: seq<Citation>): (sorted: seq<Citation>)
    ensures SortedDesc(sorted)
    ensures multiset(sorted) == multiset(s)
    decreases |s|
  {
    if s == [] then []
    else
      var init, last := s[..|s| - 1], s[|s| - 1];
      assert s == init + [last];
      InsertStep(last, SortByRelevance(init), init);
      Insert(last, SortByRelevance(init))
  }

  /** Inserting into a sorted arrangement of `s` gives a sorted arrangement of `s + [x]`. */
  lemma InsertStep(x: Citation, sorted: seq<Citation>, s: seq<Citation>)
    requires SortedDesc(sorted) && multiset(sorted) == multiset(s)
    ensures SortedDesc(Insert(x, sorted)) && multiset(Insert(x, sorted)) == multiset(s + [x])
  {
    InsertSorted(x, sorted);
    InsertElements(x, sorted);
  }

  lemma {:induction false} InsertElements(x: Citation, s: seq<Citation>)
    ensures multiset(Insert(x, s)) == multiset(s) + multiset{x}
    decreases |s|
  {
    if s != [] && s[0].relevance >= x.relevance {
      InsertElements(x, s[1..]);
      assert s == [s[0]] + s[1..];
    }
  }

  lemma {:induction false} InsertSorted(x: Citation, s: seq<Citation>)
    requires SortedDesc(s)
    ensures SortedDesc(Insert(x, s))
    decreases |s|
  {
    if s != [] && s[0].relevance >= x.relevance {
      var rest := Insert(x, s[1..]);
      InsertSorted(x, s[1..]);
      InsertElements(x, s[1..]);
      forall k | 0 <= k < |rest| ensures s[0].relevance >= rest[k].relevance {
        assert rest[k] in multiset(rest);
        assert rest[k] in multiset(s[1..]) || rest[k] == x;
      }
    }
  }

  lemma {:induction false} WithRelevanceAbsent(s: seq<Citation>, v: real)
    requires forall i :: 0 <= i < |s| ==> s[i].relevance != v
    ensures WithRelevance(s, v) == []
    decreases |s|
  {
    if s != [] {
      WithRelevanceAbsent(s[1..], v);
    }
  }

  lemma {:induction false} InsertStable(x: Citation, s: seq<Citation>, v: real)
    requires SortedDesc(s)
    ensures WithRelevance(Insert(x, s), v) ==
      if x.relevance == v then WithRelevance(s, v) + [x] else WithRelevance(s, v)
    decreases |s|
  {
    if s == [] {
    } else if s[0].relevance >= x.relevance {
      InsertStable(x, s[1..], v);
      var ins := Insert(x, s);
      var head := if s[0].relevance == v then [s[0]] else [];
      assert ins[0] == s[0] && ins[1..] == Insert(x, s[1..]);
      assert WithRelevance(ins, v) == head + WithRelevance(Insert(x, s[1..]), v);
      assert WithRelevance(s, v) == head + WithRelevance(s[1..], v);
    } else {
      InsertBeforeAll(x, s, v);
    }
  }

  /** An entry more relevant than the head of a sorted sequence goes first, and no entry after it
      shares its relevance. */
  lemma InsertBeforeAll(x: Citation, s: seq<Citation>, v: real)
    requires SortedDesc(s) && s != [] && s[0].relevance < x.relevance
    ensures WithRelevance(Insert(x, s), v) ==
      if x.relevance == v then WithRelevance(s, v) + [x] else WithRelevance(s, v)
  {
    var ins := Insert(x, s);
    assert ins[0] == x && ins[1..] == s;
    if x.relevance == v {
      assert forall i :: 0 <= i < |s| ==> s[i].relevance <= s[0].relevance;
      WithRelevanceAbsent(s, v);
    }
  }

  lemma {:induction false} InsertAtEnd(x: Citation, s: seq<Citation>)
    requires forall i :: 0 <= i < |s| ==> s[i].relevance >= x.relevance
    ensures Insert(x, s) == s + [x]
    decreases |s|
  {
    if s != [] {
      InsertAtEnd(x, s[1..]);
      assert s == [s[0]] + s[1..];
    }
  }

  /** The sort is stable: entries of equal relevance keep their relative order. */
  lemma {:induction false} SortByRelevanceStable(s: seq<Citation>, v: real)
    ensures WithRelevance(SortByRelevance(s), v) == WithRelevance(s, v)
    decreases |s|
  {
    if s != [] {
      var init, last := s[..|s| - 1], s[|s| - 1];
      assert s == init + [last];
      var sortedInit := SortByRelevance(init);
      assert SortByRelevance(s) == Insert(last, sortedInit);
      SortByRelevanceStable(init, v);
      InsertStable(last, sortedInit, v);
      WithRelevanceAppend(init, last, v);
    }
  }

  lemma {:induction false} WithRelevanceAppend(s: seq<Citation>, x: Citation, v: real)
    ensures WithRelevance(s + [x], v) == WithRelevance(s, v) + (if x.relevance == v then [x] else [])
    decreases |s|
  {
    if s != [] {
      WithRelevanceAppend(s[1..], x, v);
      assert (s + [x])[1..] == s[1..] + [x];
    }
  }

  /** Input already ordered by relevance comes out unchanged. */
  lemma {:induction false} SortByRelevanceKeepsSorted(s: seq<Citation>)
    requires SortedDesc(s)
    ensures SortByRelevance(s) == s
    decreases |s|
  {
    if s != [] {
      var init, last := s[..|s| - 1], s[|s| - 1];
      assert s == init + [last];
      SortByRelevanceKeepsSorted(init);
      InsertAtEnd(last, init);
    }
  }

  /** `_extract_timestamps`: one citation per chunk, then the stable sort by relevance. */
  method ExtractTimestamps(chunks: seq<RelevantChunk>) returns (timestamps: seq<Citation>)
    ensures timestamps == SortByRelevance(Citations(chunks))
    ensures SortedDesc(timestamps) && multiset(timestamps) == multiset(Citations(chunks))
    ensures forall v :: WithRelevance(timestamps, v) == WithRelevance(Citations(chunks), v)
  {
    timestamps := [];
    var i := 0;
    while i < |chunks|
      invariant 0 <= i <= |chunks|
      invariant timestamps == Citations(chunks[..i])
    {
      timestamps := timestamps + [CitationOf(chunks[i])];
      i := i + 1;
    }
    assert chunks[..i] == chunks;
    forall v {
      SortByRelevanceStable(timestamps, v);
    }
    timestamps := SortByRelevance(timestamps);
  }

  /** When the store returns chunks nearest first, the citations keep the retrieval order. */
  lemma NearestFirstKeepsOrder(q: QueryResult)
    requires WellShaped(q)
    requires forall i, j :: 0 <= i < j < ReturnedCount(q) ==> DistanceAt(q, i) <= DistanceAt(q, j)
    ensures var chunks := seq(ReturnedCount(q), i requires 0 <= i < ReturnedCount(q) => RetrievedAt(q, i));
      SortByRelevance(Citations(chunks)) == Citations(chunks)
  {
    var chunks := seq(ReturnedCount(q), i requires 0 <= i < ReturnedCount(q) => RetrievedAt(q, i));
    var cs := Citations(chunks);
    assert forall i :: 0 <= i < |cs| ==> cs[i].relevance == 1.0 - DistanceAt(q, i);
    SortByRelevanceKeepsSorted(cs);
  }

  // ---------------------------------------------------------------- confidence

  function Sum(s: seq<real>): real
    decreases |s|
  {
    if s == [] then 0.0 else s[0] + Sum(s[1..])
  }

  /** The relevance of every chunk, in retrieval order. */
  function Scores(chunks: seq<RelevantChunk>): seq<real> {
    seq(|chunks|, i requires 0 <= i < |chunks| => Relevance(chunks[i]))
  }

  /** The count factor: a third per chunk, full from three chunks on. */
  function CountFactor(n: nat): real {
    MinReal(n as real / 3.0, 1.0)
  }

  /** `_calculate_confidence` as written: 0.0 without chunks; otherwise 0.7 times the mean relevance
      plus 0.3 times the count factor, capped at 1.0 from above only. */
  function ConfidenceAsWritten(scores: seq<real>): (c: real)
    ensures c <= 1.0
    ensures scores == [] ==> c == 0.0
  {
    if scores == [] then 0.0
    else
      var avg := Sum(scores) / |scores| as real;
      MinReal(avg * 0.7 + CountFactor(|scores|) * 0.3, 1.0)
  }

  /** A relevance of 1 - distance goes below zero once the distance passes 1, which the store's
      default squared Euclidean distance allows; a single such chunk far enough away makes the
      confidence negative, outside the range 0.0 to 1.0 the method documents. */
  lemma ConfidenceAsWrittenCanBeNegative(distance: real)
    requires distance > 8.0 / 7.0
    ensures ConfidenceAsWritten([1.0 - distance]) < 0.0
  {
    assert Sum([1.0 - distance]) == 1.0 - distance;
  }

  /** The confidence with the evident intent restored: the same formula, kept within 0.0 to 1.0. */
  function CalculateConfidence(scores: seq<real>): (c: real)
    ensures 0.0 <= c <= 1.0
    ensures ConfidenceAsWritten(scores) >= 0.0 ==> c == ConfidenceAsWritten(scores)
  {
    var c := ConfidenceAsWritten(scores);
    if c < 0.0 then 0.0 else c
  }

  lemma {:induction false} SumBounds(s: seq<real>)
    requires forall i :: 0 <= i < |s| ==> 0.0 <= s[i] <= 1.0
    ensures 0.0 <= Sum(s) <= |s| as real
    decreases |s|
  {
    if s != [] {
      SumBounds(s[1..]);
    }
  }

  lemma MeanBounds(total: real, n: nat)
    requires n > 0 && 0.0 <= total <= n as real
    ensures 0.0 <= total / n as real <= 1.0
  {
    var m := total / n as real;
    assert m * n as real == total;
  }

  /** With every relevance between 0 and 1 the formula already stays within 0.0 to 1.0, so the
      corrected confidence agrees with the code as written there. */
  lemma ConfidenceOfUnitScores(scores: seq<real>)
    requires forall i :: 0 <= i < |scores| ==> 0.0 <= scores[i] <= 1.0
    ensures 0.0 <= ConfidenceAsWritten(scores) <= 1.0
    ensures CalculateConfidence(scores) == ConfidenceAsWritten(scores)
  {
    if scores != [] {
      SumBounds(scores);
      MeanBounds(Sum(scores), |scores|);
    }
  }

  /** Chunks whose relevance lies between 0 and 1 never give a negative confidence. */
  lemma ConfidenceOfUnitRelevance(chunks: seq<RelevantChunk>)
    ensures (forall i :: 0 <= i < |chunks| ==> 0.0 <= Relevance(chunks[i]) <= 1.0) ==>
      0.0 <= ConfidenceAsWritten(Scores(chunks))
  {
    if forall i :: 0 <= i < |chunks| ==> 0.0 <= Relevance(chunks[i]) <= 1.0 {
      ConfidenceOfUnitScores(Scores(chunks));
    }
  }

  /** From three chunks on, only the mean relevance moves the confidence. */
  lemma ConfidenceSaturates(scores: seq<real>, more: seq<real>)
    requires |scores| >= 3 && |more| >= 3
    requires Sum(scores) / |scores| as real == Sum(more) / |more| as real
    ensures ConfidenceAsWritten(scores) == ConfidenceAsWritten(more)
  {
    assert CountFactor(|scores|) == 1.0 == CountFactor(|more|);
  }

  // ---------------------------------------------------------------- timestamps for display

  /** `_format_timestamp`: "HH:MM:SS" when the hours field is positive, "MM:SS" otherwise. For a
      non-negative time the text reads back as its whole number of seconds in either layout, and
      below an hour it is exactly "MM:SS". */
  function FormatChatTimestamp(seconds: real): (text: string)
    ensures seconds >= 0.0 ==> ParseClock(text) == Some(seconds.Floor)
    ensures 0.0 <= seconds < 3600.0 ==> |text| == 5 && text[2] == ':'
  {
    var f := ClockFields(seconds);
    ClockFieldsCount(seconds);
    if f.hours > 0 then
      ParseClockThree(f.hours, f.minutes, f.seconds);
      ZeroPad2(f.hours) + ":" + ZeroPad2(f.minutes) + ":" + ZeroPad2(f.seconds)
    else if seconds < 0.0 then ZeroPad2(f.minutes) + ":" + ZeroPad2(f.seconds)
    else
      ParseClockTwo(f.minutes, f.seconds);
      ZeroPad2(f.minutes) + ":" + ZeroPad2(f.seconds)
  }

  /** From an hour on the display matches the transcript's "HH:MM:SS"; below an hour it is that text
      without the leading "00:". */
  lemma FormatChatTimestampMatchesTranscript(seconds: real)
    requires seconds >= 0.0
    ensures seconds >= 3600.0 ==> FormatChatTimestamp(seconds) == FormatTimestamp(seconds)
    ensures seconds < 3600.0 ==> "00:" + FormatChatTimestamp(seconds) == FormatTimestamp(seconds)
  {
    var f := ClockFields(seconds);
    ClockFieldsCount(seconds);
    if seconds < 3600.0 {
      assert f.hours == 0;
      assert ZeroPad2(0) == "00";
    }
  }

  // ---------------------------------------------------------------- context

  /** The block `_prepare_context` writes for one chunk. */
  function ContextBlock(c: RelevantChunk): string {
    "\n[Timestamp: " + FormatChatTimestamp(c.startTime) + " - " + FormatChatTimestamp(c.endTime) + "]\n" + c.text + "\n"
  }

  /** The blocks of the chunks, in order. */
  function ContextBlocks(chunks: seq<RelevantChunk>): (blocks: seq<string>)
    ensures |blocks| == |chunks|
    decreases |chunks|
  {
    if chunks == [] then [] else ContextBlocks(chunks[..|chunks| - 1]) + [ContextBlock(chunks[|chunks| - 1])]
  }

  /** One more chunk adds its block at the end. */
  lemma ContextBlocksNext(chunks: seq<RelevantChunk>, i: nat)
    requires i < |chunks|
    ensures ContextBlocks(chunks[..i + 1]) == ContextBlocks(chunks[..i]) + [ContextBlock(chunks[i])]
  {
    assert chunks[..i + 1][..i] == chunks[..i];
  }

  /** The k-th block is the k-th chunk's. */
  lemma {:induction false} ContextBlocksAt(chunks: seq<RelevantChunk>, k: nat)
    requires k < |chunks|
    ensures ContextBlocks(chunks)[k] == ContextBlock(chunks[k])
    decreases |chunks|
  {
    if k < |chunks| - 1 {
      ContextBlocksAt(chunks[..|chunks| - 1], k);
    }
  }

  /** Each block holds its chunk's text. */
  lemma ContextBlockHoldsText(c: RelevantChunk)
    ensures Contains(ContextBlock(c), c.text)
  {
    var header := "\n[Timestamp: " + FormatChatTimestamp(c.startTime) + " - " + FormatChatTimestamp(c.endTime) + "]\n";
    var block := ContextBlock(c);
    assert block == header + c.text + "\n";
    assert block[|header|..|header| + |c.text|] == c.text;
    OccursThenContains(block, c.text, |header|);
  }

  /** The joined context holds every chunk's block, and so every chunk's text. */
  lemma ContextHoldsChunk(chunks: seq<RelevantChunk>)
    ensures var context := Join("\n", ContextBlocks(chunks));
      forall k :: 0 <= k < |chunks| ==> Contains(context, ContextBlock(chunks[k])) && Contains(context, chunks[k].text)
  {
    var context := Join("\n", ContextBlocks(chunks));
    forall k | 0 <= k < |chunks|
      ensures Contains(context, ContextBlock(chunks[k])) && Contains(context, chunks[k].text)
    {
      JoinContainsPart("\n", ContextBlocks(chunks), k);
      ContextBlocksAt(chunks, k);
      ContextBlockHoldsText(chunks[k]);
      ContainsTransitive(context, ContextBlock(chunks[k]), chunks[k].text);
    }
  }

  /** `_prepare_context`: the blocks, in retrieval order, joined by newlines. */
  method PrepareContext(chunks: seq<RelevantChunk>) returns (context: string)
    ensures context == Join("\n", ContextBlocks(chunks))
    ensures forall i :: 0 <= i < |chunks| ==> Contains(context, ContextBlock(chunks[i])) && Contains(context, chunks[i].text)
  {
    var contextParts: seq<string> := [];
    var i := 0;
    while i < |chunks|
      invariant 0 <= i <= |chunks|
      invariant contextParts == ContextBlocks(chunks[..i])
    {
      ContextBlocksNext(chunks, i);
      contextParts := contextParts + [ContextBlock(chunks[i])];
      i := i + 1;
    }
    assert chunks[..i] == chunks;
    context := Join("\n", contextParts);
    ContextHoldsChunk(chunks);
  }

  // ---------------------------------------------------------------- answers

  /** The answer `get_response` returns. */
  datatype ChatResponse = ChatResponse(response: string, timestamps: seq<Citation>, confidence: real)

  /** `_generate_response`: the model's text, or a fixed apology when the call fails. */
  function GenerateResponse(query: string, context: string, model: (string, string) -> Result<string, string>): (answer: string)
    ensures model(query, context).Ok? ==> answer == model(query, context).value
    ensures model(query, context).Err? ==> answer == GenerationFailedAnswer
  {
    match model(query, context)
    case Ok(text) => text
    case Err(_) => GenerationFailedAnswer
  }

  /** The answer `get_response` gives for a search outcome, with the confidence as the code computes
      it. */
  function ResponseFor(query: string, search: Result<seq<RelevantChunk>, string>,
                       model: (string, string) -> Result<string, string>): ChatResponse
  {
    match search
    case Err(_) => ChatResponse(ErrorAnswer, [], 0.0)
    case Ok(chunks) =>
      if chunks == [] then ChatResponse(NoMatchAnswer, [], 0.0)
      else ChatResponse(GenerateResponse(query, Join("\n", ContextBlocks(chunks)), model),
                        SortByRelevance(Citations(chunks)), ConfidenceAsWritten(Scores(chunks)))
  }

  /** `get_response`, given the outcome of the search for the question and the language model. A
      failed search ends in the fixed error answer; no chunks end in the fixed "couldn't find" answer
      without a call to the model. The confidence never exceeds 1.0, and it is not negative when every
      chunk's relevance lies between 0 and 1. */
  method GetResponse(query: string, search: Result<seq<RelevantChunk>, string>,
                     model: (string, string) -> Result<string, string>) returns (r: ChatResponse)
    ensures search.Err? ==> r == ChatResponse(ErrorAnswer, [], 0.0)
    ensures search.Ok? && search.value == [] ==> r == ChatResponse(NoMatchAnswer, [], 0.0)
    ensures search.Ok? && search.value != [] ==>
      && r.response == GenerateResponse(query, Join("\n", ContextBlocks(search.value)), model)
      && r.timestamps == SortByRelevance(Citations(search.value))
      && r.confidence == ConfidenceAsWritten(Scores(search.value))
    ensures r.confidence <= 1.0
    ensures search.Ok? && (forall i :: 0 <= i < |search.value| ==> 0.0 <= Relevance(search.value[i]) <= 1.0) ==>
      0.0 <= r.confidence
    ensures r == ResponseFor(query, search, model)
  {
    if search.Err? {
      return ChatResponse(ErrorAnswer, [], 0.0);
    }
    var relevantChunks := search.value;
    if relevantChunks == [] {
      return ChatResponse(NoMatchAnswer, [], 0.0);
    }
    var context := PrepareContext(relevantChunks);
    var responseText := GenerateResponse(query, context, model);
    var timestamps := ExtractTimestamps(relevantChunks);
    var confidence := ConfidenceAsWritten(Scores(relevantChunks));
    ConfidenceOfUnitRelevance(relevantChunks);
    return ChatResponse(responseText, timestamps, confidence);
  }

  // ---------------------------------------------------------------- summary

  /** One key point of a summary. */
  datatype KeyPoint = KeyPoint(text: string, timestamp: real, formattedTime: string)

  /** A chunk's text cut to 200 characters plus "..." when it is longer; shorter text is kept. */
  function Excerpt(text: string): (e: string)
    ensures |text| <= ExcerptLength ==> e == text
    ensures |text| > ExcerptLength ==> |e| == ExcerptLength + 3 && e[..ExcerptLength] == text[..ExcerptLength] && e[ExcerptLength..] == "..."
  {
    if |text| > ExcerptLength then text[..ExcerptLength] + "..." else text
  }

  function KeyPointOf(c: RelevantChunk): KeyPoint {
    KeyPoint(Excerpt(c.text), c.startTime, FormatChatTimestamp(c.startTime))
  }

  /** The key points of the chunks, in order. */
  function KeyPoints(chunks: seq<RelevantChunk>): (points: seq<KeyPoint>)
    ensures |points| == |chunks|
    decreases |chunks|
  {
    if chunks == [] then [] else KeyPoints(chunks[..|chunks| - 1]) + [KeyPointOf(chunks[|chunks| - 1])]
  }

  /** The k-th key point is the k-th chunk's. */
  lemma {:induction false} KeyPointsAt(chunks: seq<RelevantChunk>, k: nat)
    requires k < |chunks|
    ensures KeyPoints(chunks)[k] == KeyPointOf(chunks[k])
    decreases |chunks|
  {
    if k < |chunks| - 1 {
      KeyPointsAt(chunks[..|chunks| - 1], k);
    }
  }

  /** `_extract_key_points`: one point for each of the first five chunks, in order. */
  method ExtractKeyPoints(chunks: seq<RelevantChunk>) returns (keyPoints: seq<KeyPoint>)
    ensures |keyPoints| == Min(KeyPointCount, |chunks|)
    ensures keyPoints == KeyPoints(chunks[..Min(KeyPointCount, |chunks|)])
  {
    var first := chunks[..Min(KeyPointCount, |chunks|)];
    keyPoints := [];
    var i := 0;
    while i < |first|
      invariant 0 <= i <= |first|
      invariant keyPoints == KeyPoints(first[..i])
    {
      assert first[..i + 1][..i] == first[..i];
      keyPoints := keyPoints + [KeyPointOf(first[i])];
      i := i + 1;
    }
    assert first[..i] == first;
  }

  /** The latest end among the chunks; 0.0 without chunks. */
  function SummaryDuration(chunks: seq<RelevantChunk>): (d: real)
    ensures chunks == [] ==> d == 0.0
    ensures forall i :: 0 <= i < |chunks| ==> chunks[i].endTime <= d
    ensures chunks != [] ==> exists i :: 0 <= i < |chunks| && chunks[i].endTime == d
    decreases |chunks|
  {
    if chunks == [] then 0.0
    else if |chunks| == 1 then chunks[0].endTime
    else
      var rest := SummaryDuration(chunks[1..]);
      assert forall i :: 1 <= i < |chunks| ==> chunks[1..][i - 1] == chunks[i];
      if chunks[0].endTime >= rest then chunks[0].endTime else rest
  }

  /** What `get_lecture_summary` returns. */
  datatype Summary = Summary(summary: string, keyPoints: seq<KeyPoint>, duration: real)

  /** `get_lecture_summary`, given the outcome of the search and the language model's outcome for a
      context. The model's failure is not caught on its own, so it ends in the fixed failure summary
      like a failed search. */
  method GetLectureSummary(search: Result<seq<RelevantChunk>, string>, model: string -> Result<string, string>)
    returns (r: Summary)
    ensures search.Err? ==> r == Summary(SummaryFailed, [], 0.0)
    ensures search.Ok? && search.value == [] ==> r == Summary(NoContentSummary, [], 0.0)
    ensures search.Ok? && search.value != [] ==>
      var chunks := search.value;
      var outcome := model(Join("\n", ContextBlocks(chunks)));
      && (outcome.Err? ==> r == Summary(SummaryFailed, [], 0.0))
      && (outcome.Ok? ==>
            && r.summary == outcome.value
            && |r.keyPoints| == Min(KeyPointCount, |chunks|)
            && r.keyPoints == KeyPoints(chunks[..Min(KeyPointCount, |chunks|)])
            && r.duration == SummaryDuration(chunks))
  {
    if search.Err? {
      return Summary(SummaryFailed, [], 0.0);
    }
    var allChunks := search.value;
    if allChunks == [] {
      return Summary(NoContentSummary, [], 0.0);
    }
    var context := PrepareContext(allChunks);
    var summaryResponse := model(context);
    if summaryResponse.Err? {
      return Summary(SummaryFailed, [], 0.0);
    }
    var totalDuration := SummaryDuration(allChunks);
    var keyPoints := ExtractKeyPoints(allChunks);
    return Summary(summaryResponse.value, keyPoints, totalDuration);
  }
}
