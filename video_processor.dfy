/** The video processor: the audio path derived from a video path, the reshaping of Whisper's
    transcription result into the transcript the rest of the backend uses, timestamp formatting and
    the lookup of the segment spoken at a given time. ffmpeg and Whisper themselves are outside the
    model: their results are inputs. */
module VideoProcessor {
  import opened Wrappers
  import opened Text
  import opened Clock

  /** One word of Whisper's output. */
  datatype RawWord = RawWord(start: real, end: real, word: string)

  /** One segment of Whisper's output; `words` is None when the segment has no "words" key. */
  datatype RawSegment = RawSegment(start: real, end: real, text: string, words: Option<seq<RawWord>>)

  /** The part of Whisper's result dictionary the backend reads. */
  datatype WhisperResult = WhisperResult(text: string, segments: seq<RawSegment>, language: string)

  datatype Word = Word(start: real, end: real, word: string)

  datatype Segment = Segment(start: real, end: real, text: string, words: seq<Word>)

  /** The transcript dictionary returned by `transcribe_audio`. */
  datatype Transcript = Transcript(text: string, segments: seq<Segment>, language: string, duration: real)

  const AudioExtractionFailed := "Audio extraction failed: "
  const TranscriptionFailed := "Transcription failed: "

  // ---------------------------------------------------------------- audio extraction

  /** The video file extensions the backend handles, in the order it lists them. */
  const VideoExtensions: seq<string> := [".mp4", ".avi", ".mov", ".mkv", ".webm"]

  /** The output path of `extract_audio` as written: each lower-case video extension, wherever it
      occurs, becomes ".wav", one extension after the other. No lower-case video extension is left
      anywhere in the result: ".wav" cannot complete one with its neighbours, so a later
      replacement never brings back what an earlier one removed. */
  function AudioPathAsWritten(videoPath: string): (p: string)
    ensures forall k :: 0 <= k < |VideoExtensions| ==> !Contains(p, VideoExtensions[k])
  {
    assert DottedSuffix(".mp4") && DottedSuffix(".avi") && DottedSuffix(".mov");
    assert DottedSuffix(".mkv") && DottedSuffix(".webm");
    var p1 := Replace(videoPath, ".mp4", ".wav");
    ReplaceLeavesNoDotted(videoPath, ".mp4", ".mp4", 1);
    var p2 := Replace(p1, ".avi", ".wav");
    ReplaceLeavesNoDotted(p1, ".avi", ".mp4", 1);
    ReplaceLeavesNoDotted(p1, ".avi", ".avi", 1);
    var p3 := Replace(p2, ".mov", ".wav");
    ReplaceLeavesNoDotted(p2, ".mov", ".mp4", 1);
    ReplaceLeavesNoDotted(p2, ".mov", ".avi", 1);
    ReplaceLeavesNoDotted(p2, ".mov", ".mov", 1);
    var p4 := Replace(p3, ".mkv", ".wav");
    ReplaceLeavesNoDotted(p3, ".mkv", ".mp4", 1);
    ReplaceLeavesNoDotted(p3, ".mkv", ".avi", 1);
    ReplaceLeavesNoDotted(p3, ".mkv", ".mov", 1);
    ReplaceLeavesNoDotted(p3, ".mkv", ".mkv", 1);
    ReplaceLeavesNoDotted(p4, ".webm", ".mp4", 1);
    ReplaceLeavesNoDotted(p4, ".webm", ".avi", 1);
    ReplaceLeavesNoDotted(p4, ".webm", ".mov", 1);
    ReplaceLeavesNoDotted(p4, ".webm", ".mkv", 1);
    ReplaceLeavesNoDotted(p4, ".webm", ".webm", 2);
    Replace(p4, ".webm", ".wav")
  }

  /** Replacing `target` by ".wav" leaves no occurrence of a dotted name `n` that disagrees with
      ".wav" at position `d`, when `n` is the target itself or did not occur before. */
  lemma {:induction false} ReplaceLeavesNoDotted(s: string, target: string, n: string, d: nat)
    requires target != [] && DottedSuffix(n) && d < |n| && d < 4 && n[d] != ".wav"[d]
    requires n == target || !Contains(s, n)
    ensures !Contains(Replace(s, target, ".wav"), n)
    decreases |s|, 1
  {
    ReplaceStep(s, target, ".wav");
    if Find(s, target) >= 0 {
      ReplaceFirstLeavesNoDotted(s, target, n, d);
    }
  }

  /** The step of `ReplaceLeavesNoDotted` where the target occurs: the text before it, ".wav", and
      the replaced rest. */
  lemma {:induction false} ReplaceFirstLeavesNoDotted(s: string, target: string, n: string, d: nat)
    requires target != [] && DottedSuffix(n) && d < |n| && d < 4 && n[d] != ".wav"[d]
    requires n == target || !Contains(s, n)
    requires Find(s, target) >= 0
    ensures var i := Find(s, target);
      !Contains(s[..i] + ".wav" + Replace(s[i + |target|..], target, ".wav"), n)
    decreases |s|, 0
  {
    var i := Find(s, target);
    var before, rest := s[..i], s[i + |target|..];
    AroundFirstOccurrence(s, target, n);
    ReplaceLeavesNoDotted(rest, target, n, d);
    NoDottedAroundWav(before, Replace(rest, target, ".wav"), n, d);
  }

  /** Around the first occurrence of `target`, the text before it holds no `n`, and neither does the
      text after it unless `n` is the target. */
  lemma AroundFirstOccurrence(s: string, target: string, n: string)
    requires target != [] && n != [] && Find(s, target) >= 0
    requires n == target || !Contains(s, n)
    ensures !Contains(s[..Find(s, target)], n)
    ensures n != target ==> !Contains(s[Find(s, target) + |target|..], n)
  {
    var i := Find(s, target);
    FindIsLeftmost(s, target);
    FindIsLeftmost(s, n);
    PrefixBeforeOccurrence(s, n, i);
    if n != target {
      SuffixKeepsAbsence(s, n, i + |target|);
    }
  }

  /** No occurrence starting before `i` means none inside `s[..i]`. */
  lemma PrefixBeforeOccurrence(s: string, n: string, i: nat)
    requires i <= |s| && n != []
    requires forall j :: 0 <= j < i ==> !OccursAt(s, n, j)
    ensures !Contains(s[..i], n)
  {
    var before := s[..i];
    forall j | 0 <= j <= |before|
      ensures !OccursAt(before, n, j)
    {
      if j + |n| <= |before| {
        assert !OccursAt(s, n, j);
        assert before[j..j + |n|] == s[j..j + |n|];
      }
    }
    FindIsLeftmost(before, n);
  }

  /** A string holding no `n` has no `n` in any of its suffixes. */
  lemma SuffixKeepsAbsence(s: string, n: string, i: nat)
    requires i <= |s| && !Contains(s, n)
    ensures !Contains(s[i..], n)
  {
    var rest := s[i..];
    FindIsLeftmost(s, n);
    forall j | 0 <= j <= |rest|
      ensures !OccursAt(rest, n, j)
    {
      if j + |n| <= |rest| {
        assert !OccursAt(s, n, i + j);
        assert rest[j..j + |n|] == s[i + j..i + j + |n|];
      }
    }
    FindIsLeftmost(rest, n);
  }

  /** ".wav" placed between two strings that hold no `n` creates no `n`: an occurrence would have to
      start at a dot, and the only dot in ".wav" starts a text that disagrees with `n` at `d`. */
  lemma NoDottedAroundWav(before: string, after: string, n: string, d: nat)
    requires DottedSuffix(n) && d < |n| && d < 4 && n[d] != ".wav"[d]
    requires !Contains(before, n) && !Contains(after, n)
    ensures !Contains(before + ".wav" + after, n)
  {
    var h := before + ".wav" + after;
    forall j | 0 <= j <= |h|
      ensures !OccursAt(h, n, j)
    {
      NoDottedAroundWavAt(before, after, n, d, j);
    }
    FindIsLeftmost(h, n);
  }

  /** The same, at one position. */
  lemma NoDottedAroundWavAt(before: string, after: string, n: string, d: nat, j: int)
    requires DottedSuffix(n) && d < |n| && d < 4 && n[d] != ".wav"[d]
    requires !Contains(before, n) && !Contains(after, n)
    ensures !OccursAt(before + ".wav" + after, n, j)
  {
    var h := before + ".wav" + after;
    if 0 <= j && j + |n| <= |h| {
      var at := h[j..j + |n|];
      if j + |n| <= |before| {
        FindIsLeftmost(before, n);
        assert h[..|before|] == before;
        assert at == h[..|before|][j..j + |n|];
        assert !OccursAt(before, n, j);
      } else if j < |before| {
        var o := |before| - j;
        assert at[o] == '.';
        assert n[o] == n[1..][o - 1];
      } else if j == |before| {
        assert at[d] == ".wav"[d];
      } else if j < |before| + 4 {
        assert at[0] == ".wav"[j - |before|];
      } else {
        var k := j - |before| - 4;
        FindIsLeftmost(after, n);
        assert h[|before| + 4..] == after;
        assert at == h[|before| + 4..][k..k + |n|];
        assert !OccursAt(after, n, k);
      }
    }
  }

  /** A path that mentions none of the lower-case extensions is used unchanged. */
  lemma AudioPathAsWrittenUnchanged(videoPath: string)
    requires !Contains(videoPath, ".mp4") && !Contains(videoPath, ".avi") && !Contains(videoPath, ".mov")
    requires !Contains(videoPath, ".mkv") && !Contains(videoPath, ".webm")
    ensures AudioPathAsWritten(videoPath) == videoPath
  {
  }

  /** A dotted suffix: a dot followed by no other dot. */
  predicate DottedSuffix(dotted: string) {
    dotted != [] && dotted[0] == '.' && '.' !in dotted[1..]
  }

  /** In `stem + dotted`, with no dot in the stem, a dotted name can only start at the suffix. */
  lemma DotsOnlyAtSuffix(stem: string, dotted: string, n: string)
    requires '.' !in stem && DottedSuffix(dotted) && n != [] && n[0] == '.'
    ensures forall j :: OccursAt(stem + dotted, n, j) ==> j == |stem|
  {
    var s := stem + dotted;
    forall i | 0 <= i < |s| && i != |stem|
      ensures s[i] != '.'
    {
      if i < |stem| {
        assert s[i] == stem[i];
      } else {
        assert s[i] == dotted[1..][i - |stem| - 1];
      }
    }
    forall j | OccursAt(s, n, j)
      ensures j == |stem|
    {
      assert s[j] == s[j..j + |n|][0];
    }
  }

  /** Replacing the whole dotted suffix of a path whose stem has no dot. */
  lemma ReplaceWholeSuffix(stem: string, dotted: string, replacement: string)
    requires '.' !in stem && DottedSuffix(dotted)
    ensures Replace(stem + dotted, dotted, replacement) == stem + replacement
  {
    var s := stem + dotted;
    DotsOnlyAtSuffix(stem, dotted, dotted);
    FindIsLeftmost(s, dotted);
    assert s[|stem|..|stem| + |dotted|] == dotted;
    assert OccursAt(s, dotted, |stem|);
    var f := Find(s, dotted);
    assert f == |stem|;
    assert s[..f] == stem && s[f + |dotted|..] == [];
  }

  /** Replacing a dotted name that differs from the dotted suffix at position `i` changes nothing. */
  lemma ReplaceOtherSuffix(stem: string, dotted: string, n: string, replacement: string, i: nat)
    requires '.' !in stem && DottedSuffix(dotted) && n != [] && n[0] == '.'
    requires i < |n| && i < |dotted| && dotted[i] != n[i]
    ensures Replace(stem + dotted, n, replacement) == stem + dotted
  {
    var s := stem + dotted;
    DotsOnlyAtSuffix(stem, dotted, n);
    FindIsLeftmost(s, n);
    assert !OccursAt(s, n, |stem|) by {
      if |stem| + |n| <= |s| {
        assert s[|stem|..|stem| + |n|][i] == dotted[i];
      }
    }
  }

  /** An upload named with an upper-case extension passes the case-insensitive check of
      `upload_video`, but no lower-case extension occurs in its path, so the audio path as written is
      the video path itself: ffmpeg is asked to write its output over its own input. */
  lemma AudioPathAsWrittenKeepsUpperCase(stem: string)
    requires '.' !in stem
    ensures AudioPathAsWritten(stem + ".MP4") == stem + ".MP4"
  {
    assert DottedSuffix(".MP4");
    ReplaceOtherSuffix(stem, ".MP4", ".mp4", ".wav", 1);
    ReplaceOtherSuffix(stem, ".MP4", ".avi", ".wav", 1);
    ReplaceOtherSuffix(stem, ".MP4", ".mov", ".wav", 1);
    ReplaceOtherSuffix(stem, ".MP4", ".mkv", ".wav", 1);
    ReplaceOtherSuffix(stem, ".MP4", ".webm", ".wav", 1);
  }

  /** The first of `exts` that `lowered` ends with. */
  function MatchingExtension(lowered: string, exts: seq<string>): (r: Option<string>)
    ensures r.Some? ==> r.value in exts && EndsWith(lowered, r.value)
    ensures r.None? ==> forall k :: 0 <= k < |exts| ==> !EndsWith(lowered, exts[k])
    decreases |exts|
  {
    if exts == [] then None
    else if EndsWith(lowered, exts[0]) then Some(exts[0])
    else
      var r := MatchingExtension(lowered, exts[1..]);
      assert forall k :: 1 <= k < |exts| ==> exts[k] == exts[1..][k - 1];
      r
  }

  /** The output path of `extract_audio` with the evident intent restored: the video extension that
      ends the path, in any letter case, becomes ".wav"; any other path gets ".wav" appended. The
      result ends in ".wav", keeps the path before the extension, and is never the video path
      itself. */
  function AudioPath(videoPath: string): (p: string)
    ensures EndsWith(p, ".wav") && p != videoPath
    ensures |videoPath| - 5 <= |p| - 4 <= |videoPath|
    ensures p[..|p| - 4] == videoPath[..|p| - 4]
  {
    match MatchingExtension(Lower(videoPath), VideoExtensions)
    case Some(ext) =>
      var stem := videoPath[..|videoPath| - |ext|];
      StemWithWavDiffers(videoPath, ext);
      assert (stem + ".wav")[..|stem|] == stem;
      stem + ".wav"
    case None =>
      assert (videoPath + ".wav")[..|videoPath|] == videoPath;
      videoPath + ".wav"
  }

  /** Swapping a matched video extension for ".wav" changes the path: ".webm" is longer than ".wav",
      and the four-letter extensions differ from it in their first letter after the dot. */
  lemma StemWithWavDiffers(v: string, ext: string)
    requires ext in VideoExtensions && EndsWith(Lower(v), ext)
    ensures v[..|v| - |ext|] + ".wav" != v
  {
    var p := v[..|v| - |ext|] + ".wav";
    if |ext| == 4 {
      var i := |v| - 3;
      assert Lower(v)[i] == Lower(v)[|v| - |ext|..][1] == ext[1];
      assert LowerChar(v[i]) != 'w';
      assert p[i] == 'w';
    }
  }

  /** For a path made of a stem without a dot and one lower-case video extension, the corrected
      path and the path as written agree: the extension becomes ".wav". */
  lemma AudioPathAgreesOnPlainNames(stem: string, k: nat)
    requires '.' !in stem && k < |VideoExtensions|
    ensures AudioPath(stem + VideoExtensions[k]) == stem + ".wav"
    ensures AudioPathAsWritten(stem + VideoExtensions[k]) == stem + ".wav"
  {
    var ext := VideoExtensions[k];
    var path := stem + ext;
    LowerAppend(stem, ext);
    assert Lower(ext) == ext;
    var lowered := Lower(path);
    assert lowered[|lowered| - |ext|..] == ext;
    FirstMatchingExtension(lowered, k);
    assert path[..|path| - |ext|] == stem;
    ReplaceChain(stem, k);
  }

  /** A name ending in the k-th extension matches that one and no earlier one. */
  lemma FirstMatchingExtension(lowered: string, k: nat)
    requires k < |VideoExtensions| && EndsWith(lowered, VideoExtensions[k])
    ensures MatchingExtension(lowered, VideoExtensions) == Some(VideoExtensions[k])
  {
    var ext := VideoExtensions[k];
    var n := |lowered|;
    forall j | 0 <= j < k
      ensures !EndsWith(lowered, VideoExtensions[j])
    {
      var other := VideoExtensions[j];
      assert lowered[n - |ext|..] == ext;
      assert lowered[n - 2] == ext[|ext| - 2];
      assert lowered[n - 1] == ext[|ext| - 1];
      if |other| <= n {
        assert lowered[n - |other|..][|other| - 2] == lowered[n - 2];
        assert lowered[n - |other|..][|other| - 1] == lowered[n - 1];
      }
    }
    assert VideoExtensions[1..][1..][1..][1..] == [".webm"];
  }

  /** The chain of replacements as written turns a lower-case extension after a dot-free stem into
      ".wav". */
  lemma ReplaceChain(stem: string, k: nat)
    requires '.' !in stem && k < |VideoExtensions|
    ensures AudioPathAsWritten(stem + VideoExtensions[k]) == stem + ".wav"
  {
    assert DottedSuffix(".wav");
    if k == 0 {
      assert DottedSuffix(".mp4");
      ReplaceWholeSuffix(stem, ".mp4", ".wav");
      ReplaceOtherSuffix(stem, ".wav", ".avi", ".wav", 1);
      ReplaceOtherSuffix(stem, ".wav", ".mov", ".wav", 1);
      ReplaceOtherSuffix(stem, ".wav", ".mkv", ".wav", 1);
      ReplaceOtherSuffix(stem, ".wav", ".webm", ".wav", 2);
    } else if k == 1 {
      assert DottedSuffix(".avi");
      ReplaceOtherSuffix(stem, ".avi", ".mp4", ".wav", 1);
      ReplaceWholeSuffix(stem, ".avi", ".wav");
      ReplaceOtherSuffix(stem, ".wav", ".mov", ".wav", 1);
      ReplaceOtherSuffix(stem, ".wav", ".mkv", ".wav", 1);
      ReplaceOtherSuffix(stem, ".wav", ".webm", ".wav", 2);
    } else if k == 2 {
      assert DottedSuffix(".mov");
      ReplaceOtherSuffix(stem, ".mov", ".mp4", ".wav", 2);
      ReplaceOtherSuffix(stem, ".mov", ".avi", ".wav", 1);
      ReplaceWholeSuffix(stem, ".mov", ".wav");
      ReplaceOtherSuffix(stem, ".wav", ".mkv", ".wav", 1);
      ReplaceOtherSuffix(stem, ".wav", ".webm", ".wav", 2);
    } else if k == 3 {
      assert DottedSuffix(".mkv");
      ReplaceOtherSuffix(stem, ".mkv", ".mp4", ".wav", 2);
      ReplaceOtherSuffix(stem, ".mkv", ".avi", ".wav", 1);
      ReplaceOtherSuffix(stem, ".mkv", ".mov", ".wav", 2);
      ReplaceWholeSuffix(stem, ".mkv", ".wav");
      ReplaceOtherSuffix(stem, ".wav", ".webm", ".wav", 2);
    } else {
      assert DottedSuffix(".webm");
      ReplaceOtherSuffix(stem, ".webm", ".mp4", ".wav", 1);
      ReplaceOtherSuffix(stem, ".webm", ".avi", ".wav", 1);
      ReplaceOtherSuffix(stem, ".webm", ".mov", ".wav", 1);
      ReplaceOtherSuffix(stem, ".webm", ".mkv", ".wav", 1);
      ReplaceWholeSuffix(stem, ".webm", ".wav");
    }
  }

  /** `extract_audio`, given how the ffmpeg run ended: the audio path as written on success, and no
      video extension in lower case is left in it. */
  function ExtractAudio(videoPath: string, ffmpeg: Outcome<string>): (r: Result<string, string>)
    ensures r.Ok? <==> ffmpeg.Pass?
    ensures r.Ok? ==> r.value == AudioPathAsWritten(videoPath)
    ensures r.Ok? ==> forall k :: 0 <= k < |VideoExtensions| ==> !Contains(r.value, VideoExtensions[k])
    ensures r.Err? ==> r.error == AudioExtractionFailed + ffmpeg.error
  {
    match ffmpeg
    case Pass => Ok(AudioPathAsWritten(videoPath))
    case Fail(e) => Err(AudioExtractionFailed + e)
  }

  // ---------------------------------------------------------------- transcription

  /** `seg` is what the reshaping loop builds from Whisper's `raw` segment. */
  predicate SegmentFrom(raw: RawSegment, seg: Segment) {
    && seg.start == raw.start
    && seg.end == raw.end
    && seg.text == Strip(raw.text)
    && (raw.words.None? ==> seg.words == [])
    && (raw.words.Some? ==>
          && |seg.words| == |raw.words.value|
          && forall j :: 0 <= j < |seg.words| ==>
               seg.words[j] == Word(raw.words.value[j].start, raw.words.value[j].end, Strip(raw.words.value[j].word)))
  }

  /** `t` keeps Whisper's text and language, has one reshaped segment per Whisper segment in the same
      order, and lasts until the end of its last segment (0.0 without segments). */
  predicate ReshapedFrom(result: WhisperResult, t: Transcript) {
    && t.text == result.text
    && t.language == result.language
    && |t.segments| == |result.segments|
    && (forall i :: 0 <= i < |t.segments| ==> SegmentFrom(result.segments[i], t.segments[i]))
    && t.duration == if result.segments == [] then 0.0 else result.segments[|result.segments| - 1].end
  }

  /** `transcribe_audio`, given the outcome of the Whisper run. */
  method TranscribeAudio(whisper: Result<WhisperResult, string>) returns (r: Result<Transcript, string>)
    ensures r.Ok? <==> whisper.Ok?
    ensures r.Ok? ==> ReshapedFrom(whisper.value, r.value)
    ensures r.Err? ==> r.error == TranscriptionFailed + whisper.error
  {
    if whisper.Err? {
      return Err(TranscriptionFailed + whisper.error);
    }
    var result := whisper.value;
    var segments: seq<Segment> := [];
    var i := 0;
    while i < |result.segments|
      invariant 0 <= i <= |result.segments|
      invariant |segments| == i
      invariant forall k :: 0 <= k < i ==> SegmentFrom(result.segments[k], segments[k])
    {
      var raw := result.segments[i];
      var words: seq<Word> := [];
      if raw.words.Some? {
        var rawWords := raw.words.value;
        var j := 0;
        while j < |rawWords|
          invariant 0 <= j <= |rawWords|
          invariant |words| == j
          invariant forall k :: 0 <= k < j ==>
            words[k] == Word(rawWords[k].start, rawWords[k].end, Strip(rawWords[k].word))
        {
          words := words + [Word(rawWords[j].start, rawWords[j].end, Strip(rawWords[j].word))];
          j := j + 1;
        }
      }
      segments := segments + [Segment(raw.start, raw.end, Strip(raw.text), words)];
      i := i + 1;
    }
    var duration := 0.0;
    if segments != [] {
      duration := segments[|segments| - 1].end;
    }
    return Ok(Transcript(result.text, segments, result.language, duration));
  }

  // ---------------------------------------------------------------- timestamps

  /** `format_timestamp`: hours, minutes and seconds, each `{:02d}`, separated by colons. For a
      non-negative time the text reads back as its whole number of seconds, and below 100 hours it
      is exactly "HH:MM:SS". */
  function FormatTimestamp(seconds: real): (text: string)
    ensures seconds >= 0.0 ==> ParseClock(text) == Some(seconds.Floor)
    ensures 0.0 <= seconds < 360000.0 ==> |text| == 8 && text[2] == ':' && text[5] == ':'
  {
    var f := ClockFields(seconds);
    ClockFieldsCount(seconds);
    var text := ZeroPad2(f.hours) + ":" + ZeroPad2(f.minutes) + ":" + ZeroPad2(f.seconds);
    if seconds < 0.0 then text
    else
      ParseClockThree(f.hours, f.minutes, f.seconds);
      assert f.hours * 3600 <= seconds.Floor;
      text
  }

  // ---------------------------------------------------------------- segment lookup

  /** `t` lies within the segment, both bounds included. */
  predicate Covers(seg: Segment, t: real) {
    seg.start <= t <= seg.end
  }

  /** `get_segment_at_time`: the first segment, in list order, that covers `t`; None if none does. */
  function SegmentAtTime(segments: seq<Segment>, t: real): (r: Option<Segment>)
    ensures r.None? <==> forall i :: 0 <= i < |segments| ==> !Covers(segments[i], t)
    ensures r.Some? ==> exists i :: 0 <= i < |segments| && segments[i] == r.value && Covers(segments[i], t)
                                    && forall j :: 0 <= j < i ==> !Covers(segments[j], t)
    decreases |segments|
  {
    if segments == [] then None
    else if Covers(segments[0], t) then Some(segments[0])
    else
      var r := SegmentAtTime(segments[1..], t);
      assert forall i :: 1 <= i < |segments| ==> segments[1..][i - 1] == segments[i];
      r
  }

  /** Where one segment ends exactly where the next starts, that instant belongs to the earlier one. */
  lemma SharedBoundaryGoesToEarlier(segments: seq<Segment>, k: nat)
    requires k + 1 < |segments|
    requires segments[k].start <= segments[k].end == segments[k + 1].start
    requires forall j :: 0 <= j < k ==> !Covers(segments[j], segments[k].end)
    ensures SegmentAtTime(segments, segments[k].end) == Some(segments[k])
  {
    var t := segments[k].end;
    var r := SegmentAtTime(segments, t);
    var i :| 0 <= i < |segments| && segments[i] == r.value && Covers(segments[i], t)
             && forall j :: 0 <= j < i ==> !Covers(segments[j], t);
    assert i == k;
  }
}
