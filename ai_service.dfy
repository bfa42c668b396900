/**
 * The two calls to the chat-completions endpoint: `generateDialogue`, which
 * decodes a streamed event-stream reply into a running transcript and
 * reports every step of it, and `generateChunks`, which turns a full reply
 * into a list of normalised chunk records.
 *
 * The network, `TextDecoder` and `JSON.parse` are outside the model: a reply
 * is a `Response` value, a stream body is the sequence of already-decoded
 * text blocks its reader yields, and `JSON.parse` is the `parse` parameter.
 */
module AiService {
  import opened JsValues
  import opened Text
  import opened Chat

  const DataPrefix := "data: "
  const DoneMarker := "[DONE]"

  const DialogueFailedMessage := "Failed to generate dialogue"
  const ReadFailedMessage := "Failed to read response"
  const ChunksFailedMessage := "Failed to generate chunks"
  const NoContentMessage := "No content in response"
  const ParseFailedMessage := "Failed to parse chunks data"

  /** `response.body?.getReader()`: no reader at all, or a reader that yields
      `blocks` (each already decoded to text) and then either reports `done`
      or, when `failsAfter` holds, rejects its next `read()`. */
  datatype StreamBody = NoReader | Reader(blocks: seq<string>, failsAfter: bool)

  // ---------------------------------------------------------------------
  // Stream decoding
  // ---------------------------------------------------------------------

  /** What one line of a block adds to the transcript: `None` when the line
      is not a `data: ` line, is the `[DONE]` sentinel, does not parse, or
      has a `null`/`undefined` `choices` (so `choices[0]` throws), or when
      `+=` cannot convert its delta to text (the TypeError is caught with the
      others); otherwise `choices[0]?.delta?.content || ''` as text. */
  function FrameDelta(line: string, parse: Parser): Option<string>
  {
    if !StartsWith(line, DataPrefix) then None
    else
      var payload := line[|DataPrefix|..];
      if payload == DoneMarker then None
      else
        match parse(payload)
        case None => None
        case Some(frame) =>
          match ChoiceContent(frame, "delta")
          case None => None
          case Some(content) => ToJsString(Or(content, JStr("")))
  }

  /** The deltas of the lines that contribute, in order. */
  function FrameDeltas(lines: seq<string>, parse: Parser): (r: seq<string>)
    ensures |r| <= |lines|
  {
    if |lines| == 0 then []
    else
      var earlier := FrameDeltas(lines[..|lines| - 1], parse);
      match FrameDelta(lines[|lines| - 1], parse)
      case None => earlier
      case Some(d) => earlier + [d]
  }

  /** The in-order concatenation of some pieces of text. */
  function Concat(pieces: seq<string>): string
  {
    if |pieces| == 0 then "" else Concat(pieces[..|pieces| - 1]) + pieces[|pieces| - 1]
  }

  /** The transcript after each delta: what `onProgress` receives, call by call. */
  function RunningTexts(deltas: seq<string>): (r: seq<string>)
    ensures |r| == |deltas|
  {
    if |deltas| == 0 then []
    else RunningTexts(deltas[..|deltas| - 1]) + [Concat(deltas)]
  }

  /** The k-th report is the concatenation of the first k + 1 deltas. */
  lemma {:induction false} RunningTextAt(deltas: seq<string>, k: nat)
    requires k < |deltas|
    ensures RunningTexts(deltas)[k] == Concat(deltas[..k + 1])
  {
    var n := |deltas| - 1;
    if k < n {
      RunningTextAt(deltas[..n], k);
      assert deltas[..n][..k + 1] == deltas[..k + 1];
    } else {
      assert deltas[..k + 1] == deltas;
    }
  }

  /** The lines of all blocks, block by block, each block split on "\n" on
      its own (a frame split across two reads stays split). */
  function StreamLines(blocks: seq<string>): seq<string>
  {
    if |blocks| == 0 then []
    else StreamLines(blocks[..|blocks| - 1]) + Split(blocks[|blocks| - 1], '\n')
  }

  /** What `generateDialogue` resolves or rejects with. */
  function DialogueResult(response: Response<StreamBody>, parse: Parser): Result<string>
  {
    match response
    case NetworkError => Err(EngineError)
    case Received(ok, _, body) =>
      if !ok then Err(Thrown(DialogueFailedMessage))
      else match body
        case NoReader => Err(Thrown(ReadFailedMessage))
        case Reader(blocks, failsAfter) =>
          if failsAfter then Err(EngineError)
          else Ok(Concat(FrameDeltas(StreamLines(blocks), parse)))
  }

  /** The arguments of the `onProgress` calls `generateDialogue` makes, in order. */
  function ProgressReports(response: Response<StreamBody>, parse: Parser): seq<string>
  {
    if response.Received? && response.ok && response.body.Reader? then
      RunningTexts(FrameDeltas(StreamLines(response.body.blocks), parse))
    else []
  }

  /** `generateDialogue`: checks the response, then reads block after block,
      splitting each on "\n" and folding the `data: ` frames into the
      transcript, reporting the whole transcript after each parsed frame. */
  method GenerateDialogue(response: Response<StreamBody>, parse: Parser)
    returns (result: Result<string>, reports: seq<string>)
    ensures result == DialogueResult(response, parse)
    ensures reports == ProgressReports(response, parse)
    ensures response.Received? && !response.ok ==>
              result == Err(Thrown(DialogueFailedMessage)) && reports == []
    ensures response.Received? && response.ok && response.body.NoReader? ==>
              result == Err(Thrown(ReadFailedMessage)) && reports == []
  {
    reports := [];
    if response.NetworkError? {
      return Err(EngineError), reports;
    }
    if !response.ok {
      return Err(Thrown(DialogueFailedMessage)), reports;
    }
    if response.body.NoReader? {
      return Err(Thrown(ReadFailedMessage)), reports;
    }
    var blocks := response.body.blocks;
    var fullText := "";
    var i := 0;
    while i < |blocks|
      invariant 0 <= i <= |blocks|
      invariant fullText == Concat(FrameDeltas(StreamLines(blocks[..i]), parse))
      invariant reports == RunningTexts(FrameDeltas(StreamLines(blocks[..i]), parse))
    {
      fullText, reports := DecodeLines(Split(blocks[i], '\n'), parse, StreamLines(blocks[..i]), fullText, reports);
      StreamLinesStep(blocks, i);
      i := i + 1;
    }
    assert blocks[..|blocks|] == blocks;
    if response.body.failsAfter {
      result := Err(EngineError);
    } else {
      result := Ok(fullText);
    }
  }

  /** The inner loop of `generateDialogue`: the lines of one block, after
      the lines `before` of the earlier blocks, extend the transcript and the
      reports by what those lines contribute. */
  method DecodeLines(lines: seq<string>, parse: Parser, ghost before: seq<string>,
                     text: string, reported: seq<string>)
    returns (fullText: string, reports: seq<string>)
    requires text == Concat(FrameDeltas(before, parse))
    requires reported == RunningTexts(FrameDeltas(before, parse))
    ensures fullText == Concat(FrameDeltas(before + lines, parse))
    ensures reports == RunningTexts(FrameDeltas(before + lines, parse))
  {
    fullText, reports := text, reported;
    assert before + lines[..0] == before;
    for j := 0 to |lines|
      invariant fullText == Concat(FrameDeltas(before + lines[..j], parse))
      invariant reports == RunningTexts(FrameDeltas(before + lines[..j], parse))
    {
      PrefixStep(before, lines, j);
      FrameDeltasStep(before + lines[..j], lines[j], parse);
      var delta := FrameDelta(lines[j], parse);
      if delta.Some? {
        RunningTextsStep(FrameDeltas(before + lines[..j], parse), delta.value);
        fullText := fullText + delta.value;
        reports := reports + [fullText];
      }
    }
    assert lines[..|lines|] == lines;
  }

  lemma {:induction false} PrefixStep(before: seq<string>, lines: seq<string>, j: nat)
    requires j < |lines|
    ensures before + lines[..j + 1] == (before + lines[..j]) + [lines[j]]
  {
    assert lines[..j + 1] == lines[..j] + [lines[j]];
  }

  lemma {:induction false} FrameDeltasStep(lines: seq<string>, line: string, parse: Parser)
    ensures FrameDeltas(lines + [line], parse)
         == FrameDeltas(lines, parse) + (if FrameDelta(line, parse).Some? then [FrameDelta(line, parse).value] else [])
  {
    assert (lines + [line])[..|lines|] == lines;
  }

  lemma {:induction false} RunningTextsStep(deltas: seq<string>, delta: string)
    ensures Concat(deltas + [delta]) == Concat(deltas) + delta
    ensures RunningTexts(deltas + [delta]) == RunningTexts(deltas) + [Concat(deltas) + delta]
  {
    assert (deltas + [delta])[..|deltas|] == deltas;
  }

  lemma {:induction false} StreamLinesStep(blocks: seq<string>, i: nat)
    requires i < |blocks|
    ensures StreamLines(blocks[..i + 1]) == StreamLines(blocks[..i]) + Split(blocks[i], '\n')
  {
    assert blocks[..i + 1][..i] == blocks[..i];
  }

  lemma {:induction false} FrameDeltasAppend(a: seq<string>, b: seq<string>, parse: Parser)
    ensures FrameDeltas(a + b, parse) == FrameDeltas(a, parse) + FrameDeltas(b, parse)
  {
    if |b| == 0 {
      assert a + b == a;
    } else {
      var b' := b[..|b| - 1];
      assert (a + b)[..|a + b| - 1] == a + b';
      FrameDeltasAppend(a, b', parse);
    }
  }

  lemma {:induction false} ConcatAppend(a: seq<string>, b: seq<string>)
    ensures Concat(a + b) == Concat(a) + Concat(b)
  {
    if |b| == 0 {
      assert a + b == a;
    } else {
      var b' := b[..|b| - 1];
      assert (a + b)[..|a + b| - 1] == a + b';
      ConcatAppend(a, b');
    }
  }

  /** Each report extends the one before: successive `onProgress` arguments
      are prefixes of each other, and the last one is the whole transcript. */
  lemma {:induction false} ReportsArePrefixOrdered(deltas: seq<string>)
    ensures forall i, j :: 0 <= i <= j < |deltas| ==> RunningTexts(deltas)[i] <= RunningTexts(deltas)[j]
    ensures |deltas| > 0 ==> RunningTexts(deltas)[|deltas| - 1] == Concat(deltas)
  {
    var r := RunningTexts(deltas);
    forall i, j | 0 <= i <= j < |deltas|
      ensures r[i] <= r[j]
    {
      RunningTextAt(deltas, i);
      RunningTextAt(deltas, j);
      assert deltas[..j + 1] == deltas[..i + 1] + deltas[i + 1..j + 1];
      ConcatAppend(deltas[..i + 1], deltas[i + 1..j + 1]);
    }
    if |deltas| > 0 {
      RunningTextAt(deltas, |deltas| - 1);
      assert deltas[..|deltas|] == deltas;
    }
  }

  /** A line that contributes no delta leaves both the transcript and the
      sequence of reports exactly as they would be without it: later lines
      are still decoded. */
  lemma {:induction false} IgnoredLineChangesNothing(before: seq<string>, line: string, after: seq<string>, parse: Parser)
    requires FrameDelta(line, parse).None?
    ensures FrameDeltas(before + [line] + after, parse) == FrameDeltas(before + after, parse)
  {
    FrameDeltasAppend(before + [line], after, parse);
    FrameDeltasAppend(before, after, parse);
    assert (before + [line])[..|before|] == before;
  }

  /** Lines without the `data: ` prefix contribute nothing. */
  lemma {:induction false} NonDataLineIgnored(before: seq<string>, line: string, after: seq<string>, parse: Parser)
    requires !StartsWith(line, DataPrefix)
    ensures FrameDeltas(before + [line] + after, parse) == FrameDeltas(before + after, parse)
  {
    IgnoredLineChangesNothing(before, line, after, parse);
  }

  /** `data: [DONE]` contributes nothing and does not end the decoding: the
      frames after it are decoded as if it were absent. */
  lemma {:induction false} DoneDoesNotStopDecoding(before: seq<string>, after: seq<string>, parse: Parser)
    ensures FrameDeltas(before + [DataPrefix + DoneMarker] + after, parse)
         == FrameDeltas(before, parse) + FrameDeltas(after, parse)
  {
    var line := DataPrefix + DoneMarker;
    assert line[..|DataPrefix|] == DataPrefix && line[|DataPrefix|..] == DoneMarker;
    IgnoredLineChangesNothing(before, line, after, parse);
    FrameDeltasAppend(before, after, parse);
  }

  /** A frame whose payload does not parse, or parses to something whose
      `choices` cannot be indexed, is dropped without disturbing the rest. */
  lemma {:induction false} BrokenFrameDropped(before: seq<string>, payload: string, after: seq<string>, parse: Parser)
    requires payload != DoneMarker
    requires parse(payload).None?
          || Nullish(parse(payload).value)
          || Nullish(Get(parse(payload).value, "choices").value)
    ensures FrameDeltas(before + [DataPrefix + payload] + after, parse)
         == FrameDeltas(before + after, parse)
  {
    var line := DataPrefix + payload;
    assert line[..|DataPrefix|] == DataPrefix && line[|DataPrefix|..] == payload;
    IgnoredLineChangesNothing(before, line, after, parse);
  }

  /** A frame whose delta `+=` cannot turn into text (an object with an own
      `toString` key, or an array holding one) throws inside the `try`: it is
      dropped, with no report, and the rest is decoded as if it were absent. */
  lemma {:induction false} UnconvertibleDeltaDropped(before: seq<string>, payload: string, after: seq<string>, parse: Parser)
    requires payload != DoneMarker && parse(payload).Some?
    requires ChoiceContent(parse(payload).value, "delta").Some?
    requires ConversionThrows(ChoiceContent(parse(payload).value, "delta").value)
    ensures FrameDeltas(before + [DataPrefix + payload] + after, parse)
         == FrameDeltas(before + after, parse)
  {
    var line := DataPrefix + payload;
    assert line[..|DataPrefix|] == DataPrefix && line[|DataPrefix|..] == payload;
    IgnoredLineChangesNothing(before, line, after, parse);
  }

  /** A parsed frame with a falsy delta (missing, `null`, `""`) still counts:
      it adds one report, repeating the transcript so far. */
  lemma {:induction false} EmptyDeltaStillReported(before: seq<string>, payload: string, after: seq<string>, parse: Parser)
    requires payload != DoneMarker && parse(payload).Some?
    requires ChoiceContent(parse(payload).value, "delta").Some?
    requires !Truthy(ChoiceContent(parse(payload).value, "delta").value)
    ensures FrameDeltas(before + [DataPrefix + payload] + after, parse)
         == FrameDeltas(before, parse) + [""] + FrameDeltas(after, parse)
  {
    var line := DataPrefix + payload;
    assert line[..|DataPrefix|] == DataPrefix && line[|DataPrefix|..] == payload;
    assert FrameDelta(line, parse) == Some("");
    FrameDeltasAppend(before + [line], after, parse);
    assert (before + [line])[..|before|] == before;
  }

  function DataLines(payloads: seq<string>): (r: seq<string>)
    ensures |r| == |payloads|
  {
    seq(|payloads|, k requires 0 <= k < |payloads| => DataPrefix + payloads[k])
  }

  /** A well-formed stream: N frames whose payloads parse to objects with a
      string at `choices[0].delta.content` (whatever other keys they carry),
      followed by `data: [DONE]`, yields exactly those deltas. */
  lemma {:induction false} WellFormedFrames(payloads: seq<string>, deltas: seq<string>, parse: Parser)
    requires |payloads| == |deltas|
    requires forall k :: 0 <= k < |payloads| ==>
               payloads[k] != DoneMarker && parse(payloads[k]).Some?
               && ChoiceContent(parse(payloads[k]).value, "delta") == Some(JStr(deltas[k]))
    ensures FrameDeltas(DataLines(payloads) + [DataPrefix + DoneMarker], parse) == deltas
  {
    DoneDoesNotStopDecoding(DataLines(payloads), [], parse);
    assert DataLines(payloads) + [DataPrefix + DoneMarker] + [] == DataLines(payloads) + [DataPrefix + DoneMarker];
    DataLinesDeltas(payloads, deltas, parse);
  }

  lemma {:induction false} DataLinesDeltas(payloads: seq<string>, deltas: seq<string>, parse: Parser)
    requires |payloads| == |deltas|
    requires forall k :: 0 <= k < |payloads| ==>
               payloads[k] != DoneMarker && parse(payloads[k]).Some?
               && ChoiceContent(parse(payloads[k]).value, "delta") == Some(JStr(deltas[k]))
    ensures FrameDeltas(DataLines(payloads), parse) == deltas
  {
    var lines := DataLines(payloads);
    forall k | 0 <= k < |lines|
      ensures FrameDelta(lines[k], parse) == Some(deltas[k])
    {
      DataFrameDelta(payloads[k], deltas[k], parse);
    }
    FramesDeltas(lines, deltas, parse);
  }

  /** Lines that each contribute a delta contribute exactly those deltas. */
  lemma {:induction false} FramesDeltas(lines: seq<string>, deltas: seq<string>, parse: Parser)
    requires |lines| == |deltas|
    requires forall k :: 0 <= k < |lines| ==> FrameDelta(lines[k], parse) == Some(deltas[k])
    ensures FrameDeltas(lines, parse) == deltas
  {
    if |lines| > 0 {
      var n := |lines| - 1;
      FramesDeltas(lines[..n], deltas[..n], parse);
      assert deltas[..n] + [deltas[n]] == deltas;
    }
  }

  /** One `data: ` line whose frame carries a string delta contributes that delta. */
  lemma {:induction false} DataFrameDelta(payload: string, delta: string, parse: Parser)
    requires payload != DoneMarker && parse(payload).Some?
    requires ChoiceContent(parse(payload).value, "delta") == Some(JStr(delta))
    ensures FrameDelta(DataPrefix + payload, parse) == Some(delta)
  {
    var line := DataPrefix + payload;
    assert line[..|DataPrefix|] == DataPrefix && line[|DataPrefix|..] == payload;
    if delta == "" {
      assert FrameDelta(line, parse) == Some("");
    }
  }

  /** End to end: a successful response whose single block holds the
      well-formed frames (one per line) and the `[DONE]` line resolves to
      the concatenated deltas, reported once per frame. */
  lemma {:induction false} WellFormedStream(payloads: seq<string>, deltas: seq<string>, statusText: string, parse: Parser)
    requires |payloads| == |deltas|
    requires forall k :: 0 <= k < |payloads| ==>
               '\n' !in payloads[k] && payloads[k] != DoneMarker
               && parse(payloads[k]).Some?
               && ChoiceContent(parse(payloads[k]).value, "delta") == Some(JStr(deltas[k]))
    ensures var block := Join(DataLines(payloads) + [DataPrefix + DoneMarker], "\n");
            var response := Received(true, statusText, Reader([block], false));
            && DialogueResult(response, parse) == Ok(Concat(deltas))
            && ProgressReports(response, parse) == RunningTexts(deltas)
  {
    var lines := DataLines(payloads) + [DataPrefix + DoneMarker];
    var block := Join(lines, "\n");
    FrameLinesOmitNewline(payloads);
    SplitJoin(lines, '\n');
    SingleBlockLines(block);
    WellFormedFrames(payloads, deltas, parse);
  }

  lemma {:induction false} FrameLinesOmitNewline(payloads: seq<string>)
    requires forall k :: 0 <= k < |payloads| ==> '\n' !in payloads[k]
    ensures var lines := DataLines(payloads) + [DataPrefix + DoneMarker];
            forall k :: 0 <= k < |lines| ==> '\n' !in lines[k]
  {
    var lines := DataLines(payloads) + [DataPrefix + DoneMarker];
    forall k | 0 <= k < |lines| ensures '\n' !in lines[k] {
      if k < |payloads| {
        assert lines[k] == DataPrefix + payloads[k];
      }
    }
  }

  lemma {:induction false} SingleBlockLines(block: string)
    ensures StreamLines([block]) == Split(block, '\n')
  {
    assert [block][..0] == [];
    assert [] + Split(block, '\n') == Split(block, '\n');
  }

  /** Whatever the stream holds, the progress arguments grow by extension and
      the last one is the transcript `generateDialogue` resolves with. */
  lemma {:induction false} DialogueReportsEndWithTranscript(response: Response<StreamBody>, parse: Parser)
    requires DialogueResult(response, parse).Ok?
    ensures var reports := ProgressReports(response, parse);
            && (forall i, j :: 0 <= i <= j < |reports| ==> reports[i] <= reports[j])
            && (|reports| > 0 ==> reports[|reports| - 1] == DialogueResult(response, parse).value)
            && (|reports| == 0 ==> DialogueResult(response, parse).value == "")
  {
    ReportsArePrefixOrdered(FrameDeltas(StreamLines(response.body.blocks), parse));
  }

  // ---------------------------------------------------------------------
  // Chunk extraction
  // ---------------------------------------------------------------------

  /** A chunk record as `generateChunks` builds it. The fields hold whatever
      value the `||` chains produced (normally strings). */
  datatype Chunk = Chunk(chunk: Json, pronunciation: Json, chineseMeaning: Json, suitableScenes: seq<Json>)

  const OpeningFence := "```json"
  const Fence := "```"

  /** "```" at position `p`. */
  predicate FenceAt(s: string, p: nat) {
    p + 3 <= |s| && s[p] == '`' && s[p + 1] == '`' && s[p + 2] == '`'
  }

  /** "```json" at position `p`. */
  predicate OpeningFenceAt(s: string, p: nat) {
    p + 7 <= |s| && FenceAt(s, p)
    && s[p + 3] == 'j' && s[p + 4] == 's' && s[p + 5] == 'o' && s[p + 6] == 'n'
  }

  /** `^` under the `m` flag: the start of the input or just after a line terminator. */
  predicate LineStart(s: string, p: nat)
    requires p <= |s|
  {
    p == 0 || IsLineTerminator(s[p - 1])
  }

  /** How much a greedy `\s*` takes from position `p`. */
  function WhitespaceRun(s: string, p: nat): (n: nat)
    requires p <= |s|
    ensures p + n <= |s|
    decreases |s| - p
  {
    if p < |s| && IsWhitespace(s[p]) then 1 + WhitespaceRun(s, p + 1) else 0
  }

  /** A greedy `\s*` takes whitespace only, and stops at the end or at a
      character that is not whitespace. */
  lemma {:induction false} WhitespaceRunSpan(s: string, p: nat)
    requires p <= |s|
    ensures forall k :: p <= k < p + WhitespaceRun(s, p) ==> IsWhitespace(s[k])
    ensures p + WhitespaceRun(s, p) == |s| || !IsWhitespace(s[p + WhitespaceRun(s, p)])
    decreases |s| - p
  {
    if p < |s| && IsWhitespace(s[p]) {
      WhitespaceRunSpan(s, p + 1);
    }
  }

  /** Where `/^```json\s*\/m` first matches, searching from `p`. */
  function FirstOpeningFence(s: string, p: nat): (r: Option<nat>)
    requires p <= |s|
    ensures r.Some? ==> p <= r.value <= |s| && LineStart(s, r.value) && OpeningFenceAt(s, r.value)
    ensures r.Some? ==> forall k :: p <= k < r.value ==> !(LineStart(s, k) && OpeningFenceAt(s, k))
    ensures r.None? ==> forall k :: p <= k <= |s| ==> !(LineStart(s, k) && OpeningFenceAt(s, k))
    decreases |s| - p
  {
    if LineStart(s, p) && OpeningFenceAt(s, p) then Some(p)
    else if p == |s| then None
    else FirstOpeningFence(s, p + 1)
  }

  /** `content.replace(/^```json\s*\/m, '')`: removes the first "```json" that
      begins a line, with the whitespace (line breaks included) after it. */
  function StripOpeningFence(s: string): string
  {
    match FirstOpeningFence(s, 0)
    case None => s
    case Some(p) => s[..p] + s[p + 7 + WhitespaceRun(s, p + 7)..]
  }

  /** The last line terminator in `s[lo..hi]`, if any. */
  function LastLineTerminator(s: string, lo: nat, hi: nat): (r: Option<nat>)
    requires lo <= hi <= |s|
    ensures r.Some? ==> lo <= r.value < hi && IsLineTerminator(s[r.value])
    ensures r.Some? ==> forall k :: r.value < k < hi ==> !IsLineTerminator(s[k])
    ensures r.None? ==> forall k :: lo <= k < hi ==> !IsLineTerminator(s[k])
    decreases hi - lo
  {
    if hi == lo then None
    else if IsLineTerminator(s[hi - 1]) then Some(hi - 1)
    else LastLineTerminator(s, lo, hi - 1)
  }

  /** The end of a match of `/\s*```\s*$/m` that starts at `p`, if there is
      one. The leading `\s*` must stop right at the backticks; the trailing
      greedy `\s*` then keeps as much as still lets `$` hold, i.e. up to the
      end of the input or up to the last line terminator of its run. */
  function ClosingFenceEnd(s: string, p: nat): (r: Option<nat>)
    requires p <= |s|
    ensures r.Some? ==> FenceAt(s, p + WhitespaceRun(s, p))
    ensures r.Some? ==> p + WhitespaceRun(s, p) + 3 <= r.value <= |s|
    ensures r.Some? ==> r.value == |s| || IsLineTerminator(s[r.value])
  {
    var f := p + WhitespaceRun(s, p);
    if !FenceAt(s, f) then None
    else
      var a := f + 3;
      var n := WhitespaceRun(s, a);
      if a + n == |s| then Some(|s|)
      else LastLineTerminator(s, a, a + n)
  }

  /** `ClosingFenceEnd` misses no match and takes the longest one: with `a`
      just past the backticks and `n` the whitespace after them, a match
      starting at `p` exists exactly when the backticks follow the leading
      whitespace and `$` holds somewhere in `a..a+n`, and the end chosen is
      the last such place. */
  lemma {:induction false} ClosingFenceEndComplete(s: string, p: nat)
    requires p <= |s|
    ensures var f := p + WhitespaceRun(s, p);
            FenceAt(s, f) ==>
              var a := f + 3;
              var n := WhitespaceRun(s, a);
              && (ClosingFenceEnd(s, p).None? <==>
                    forall e :: a <= e <= a + n ==> e < |s| && !IsLineTerminator(s[e]))
              && (ClosingFenceEnd(s, p).Some? ==>
                    ClosingFenceEnd(s, p).value <= a + n
                    && forall e :: ClosingFenceEnd(s, p).value < e <= a + n ==>
                         e < |s| && !IsLineTerminator(s[e]))
  {
    var f := p + WhitespaceRun(s, p);
    if FenceAt(s, f) {
      var a := f + 3;
      var n := WhitespaceRun(s, a);
      WhitespaceRunSpan(s, a);
      if a + n < |s| {
        assert !IsLineTerminator(s[a + n]);
      }
    }
  }

  /** The leftmost match of `/\s*```\s*$/m` at or after `p`, as (start, end). */
  function FirstClosingFence(s: string, p: nat): (r: Option<(nat, nat)>)
    requires p <= |s|
    ensures r.Some? ==> p <= r.value.0 <= |s| && ClosingFenceEnd(s, r.value.0) == Some(r.value.1)
    ensures r.Some? ==> forall k :: p <= k < r.value.0 ==> ClosingFenceEnd(s, k).None?
    ensures r.None? ==> forall k :: p <= k <= |s| ==> ClosingFenceEnd(s, k).None?
    decreases |s| - p
  {
    match ClosingFenceEnd(s, p)
    case Some(e) => Some((p, e))
    case None => if p == |s| then None else FirstClosingFence(s, p + 1)
  }

  /** `.replace(/\s*```\s*$/m, '')` */
  function StripClosingFence(s: string): string
  {
    match FirstClosingFence(s, 0)
    case None => s
    case Some((q, e)) => s[..q] + s[e..]
  }

  /** The de-fencing chain: opening fence, closing fence, then `trim()`. */
  function CleanContent(s: string): string
  {
    Trim(StripClosingFence(StripOpeningFence(s)))
  }

  predicate FenceFree(s: string) {
    forall i :: 0 <= i <= |s| ==> !FenceAt(s, i)
  }

  /** Text without a backtick holds no fence. */
  lemma {:induction false} BacktickFreeIsFenceFree(s: string)
    requires '`' !in s
    ensures FenceFree(s)
  {
    forall i | 0 <= i <= |s|
      ensures !FenceAt(s, i)
    {
      if i < |s| {
        assert s[i] in s;
      }
    }
  }

  /** Content without any "```" is only trimmed. */
  lemma {:induction false} FenceFreeContentIsTrimmed(s: string)
    requires FenceFree(s)
    ensures CleanContent(s) == Trim(s)
  {
    if FirstOpeningFence(s, 0).Some? {
      assert false;
    }
    if FirstClosingFence(s, 0).Some? {
      assert false;
    }
  }

  /** Content fenced the usual way, "```json\n" + body + "\n```", with no
      backtick in the body, cleans to the trimmed body. */
  lemma {:induction false} FencedContentIsBody(body: string)
    requires '`' !in body
    ensures CleanContent(OpeningFence + "\n" + body + "\n" + Fence) == Trim(body)
  {
    var t := "\n" + body + "\n";
    assert '`' !in t;
    FencedContentOpens(body);
    BacktickFreeTrimStart(t);
    ClosingFenceThenTrim(OpeningFence + "\n" + body + "\n" + Fence, TrimStart(t));
    TrimIdempotent(t);
    TrimIgnoresPadding("\n", body, "\n");
  }

  /** Once the opening fence is gone and a backtick-free text is followed by
      the closing fence, cleaning trims that text. */
  lemma {:induction false} ClosingFenceThenTrim(s: string, v: string)
    requires '`' !in v
    requires StripOpeningFence(s) == v + Fence
    ensures CleanContent(s) == Trim(TrimEnd(v))
  {
    ClosingFenceAtEnd(v);
  }

  lemma {:induction false} BacktickFreeTrimStart(t: string)
    requires '`' !in t
    ensures '`' !in TrimStart(t)
  {
    TrimStartCuts(t);
    var v := TrimStart(t);
    forall k | 0 <= k < |v|
      ensures v[k] != '`'
    {
      assert v[k] == t[|t| - |v| + k];
    }
  }

  /** The opening fence of such content goes with the line break after it. */
  lemma {:induction false} FencedContentOpens(body: string)
    ensures StripOpeningFence(OpeningFence + "\n" + body + "\n" + Fence)
            == TrimStart("\n" + body + "\n") + Fence
  {
    var t := "\n" + body + "\n";
    assert OpeningFence + "\n" + body + "\n" + Fence == OpeningFence + (t + Fence);
    OpeningFenceAtStart(t + Fence);
    TrimStartBeforeNonWhitespace(t, Fence);
  }

  /** A "```json" at the very start is removed with the whitespace after it. */
  lemma {:induction false} OpeningFenceAtStart(x: string)
    ensures StripOpeningFence(OpeningFence + x) == TrimStart(x)
  {
    var s := OpeningFence + x;
    assert OpeningFenceAt(s, 0);
    LeadingOpeningFence(s);
    assert s[7..] == x;
  }

  lemma {:induction false} LeadingOpeningFence(s: string)
    requires OpeningFenceAt(s, 0)
    ensures StripOpeningFence(s) == TrimStart(s[7..])
  {
    assert FirstOpeningFence(s, 0) == Some(0);
    StripAtOpeningFence(s, 0);
    WhitespaceRunTrimsStart(s, 7);
  }

  /** Where the opening fence is found, it goes with the whitespace after it. */
  lemma {:induction false} StripAtOpeningFence(s: string, p: nat)
    requires FirstOpeningFence(s, 0) == Some(p)
    ensures StripOpeningFence(s) == s[..p] + s[p + 7 + WhitespaceRun(s, p + 7)..]
  {
  }

  /** A greedy `\s*` takes exactly what `trimStart` removes. */
  lemma {:induction false} WhitespaceRunTrimsStart(s: string, p: nat)
    requires p <= |s|
    ensures s[p + WhitespaceRun(s, p)..] == TrimStart(s[p..])
    decreases |s| - p
  {
    if p < |s| && IsWhitespace(s[p]) {
      assert s[p..][1..] == s[p + 1..];
      WhitespaceRunTrimsStart(s, p + 1);
    } else {
      assert TrimStart(s[p..]) == s[p..];
    }
  }

  /** The closing-fence pattern, applied to text free of backticks followed
      by "```", removes exactly the fence and the whitespace before it. */
  lemma {:induction false} ClosingFenceAtEnd(v: string)
    requires '`' !in v
    ensures StripClosingFence(v + Fence) == TrimEnd(v)
  {
    var u := v + Fence;
    var q0 := |TrimEnd(v)|;
    TrimEndCuts(v);
    forall q | 0 <= q < q0
      ensures ClosingFenceEnd(u, q).None?
    {
      NoClosingFenceBefore(v, q);
    }
    ClosingFenceAfterText(v);
    LeftmostClosingFence(u, 0, q0);
    assert u[..q0] == TrimEnd(v);
  }

  lemma {:induction false} NoClosingFenceBefore(v: string, q: nat)
    requires '`' !in v
    requires q < |TrimEnd(v)|
    ensures ClosingFenceEnd(v + Fence, q).None?
  {
    var u := v + Fence;
    var q0 := |TrimEnd(v)|;
    TrimEndCuts(v);
    var f := q + WhitespaceRun(u, q);
    WhitespaceRunSpan(u, q);
    assert u[q0 - 1] == TrimEnd(v)[q0 - 1];
    assert f < q0;
    assert u[f] == v[f];
    assert v[f] in v;
  }

  lemma {:induction false} ClosingFenceAfterText(v: string)
    ensures ClosingFenceEnd(v + Fence, |TrimEnd(v)|) == Some(|v| + |Fence|)
  {
    var u := v + Fence;
    var q0 := |TrimEnd(v)|;
    TrimEndCuts(v);
    forall k | q0 <= k < |v|
      ensures IsWhitespace(u[k])
    {
      assert u[k] == v[q0..][k - q0];
    }
    WhitespaceRunIs(u, q0, |v| - q0);
    assert FenceAt(u, |v|);
  }

  lemma {:induction false} WhitespaceRunIs(s: string, p: nat, n: nat)
    requires p + n < |s|
    requires forall k :: p <= k < p + n ==> IsWhitespace(s[k])
    requires !IsWhitespace(s[p + n])
    ensures WhitespaceRun(s, p) == n
    decreases n
  {
    if n > 0 {
      WhitespaceRunIs(s, p + 1, n - 1);
    }
  }

  lemma {:induction false} LeftmostClosingFence(s: string, p: nat, q: nat)
    requires p <= q <= |s|
    requires forall k :: p <= k < q ==> ClosingFenceEnd(s, k).None?
    requires ClosingFenceEnd(s, q).Some?
    ensures FirstClosingFence(s, p) == Some((q, ClosingFenceEnd(s, q).value))
    decreases q - p
  {
    if p < q {
      LeftmostClosingFence(s, p + 1, q);
      ClosingFenceSkipped(s, p);
    } else {
      ClosingFenceFound(s, p);
    }
  }

  lemma {:induction false} ClosingFenceSkipped(s: string, p: nat)
    requires p < |s| && ClosingFenceEnd(s, p).None?
    ensures FirstClosingFence(s, p) == FirstClosingFence(s, p + 1)
  {
  }

  lemma {:induction false} ClosingFenceFound(s: string, p: nat)
    requires p <= |s| && ClosingFenceEnd(s, p).Some?
    ensures FirstClosingFence(s, p) == Some((p, ClosingFenceEnd(s, p).value))
  {
  }

  /** `Array.isArray(parsed) ? { chunks: parsed } : parsed`, then the check
      `!jsonContent.chunks || !Array.isArray(jsonContent.chunks)`: the list
      of raw chunk items, or `None` where the code throws. */
  function ShapeChunks(parsed: Json): (r: Option<seq<Json>>)
    ensures r.Some? <==> parsed.JArr? || (parsed.JObj? && "chunks" in parsed.fields && parsed.fields["chunks"].JArr?)
    ensures parsed.JArr? ==> r == Some(parsed.elems)
    ensures parsed.JObj? && "chunks" in parsed.fields && parsed.fields["chunks"].JArr? ==>
              r == Some(parsed.fields["chunks"].elems)
  {
    var wrapped := if parsed.JArr? then JObj(map["chunks" := parsed]) else parsed;
    match Get(wrapped, "chunks")
    case None => None
    case Some(chunks) => if !Truthy(chunks) || !chunks.JArr? then None else Some(chunks.elems)
  }

  /** One element of the `.map`: `None` is the TypeError of reading a field
      of a `null` element. */
  function Normalize(item: Json): (r: Option<Chunk>)
    ensures r.None? <==> Nullish(item)
  {
    if Nullish(item) then None
    else
      var scenes := Or(Get(item, "scenes").value, Get(item, "suitable_scenes").value);
      Some(Chunk(
        Or(Get(item, "chunk").value, JStr("")),
        Or(Get(item, "pronunciation").value, JStr("")),
        Or(Or(Get(item, "meaning").value, Get(item, "chinese_meaning").value), JStr("")),
        if scenes.JArr? then scenes.elems else []))
  }

  /** A reference reading of the aliasing rule: the value of the first key,
      in the given order, whose value is truthy, else the default. */
  function FirstTruthy(item: Json, keys: seq<string>, default: Json): Json
    requires !Nullish(item)
  {
    if |keys| == 0 then default
    else if Truthy(Get(item, keys[0]).value) then Get(item, keys[0]).value
    else FirstTruthy(item, keys[1..], default)
  }

  /** Normalisation is first-truthy-wins over an ordered key list per field:
      `meaning` before `chinese_meaning`, `scenes` before `suitable_scenes`,
      and the scene list is kept only when the winning value is an array. */
  lemma {:induction false} NormalizeByAliases(item: Json)
    requires !Nullish(item)
    ensures var scenes := FirstTruthy(item, ["scenes", "suitable_scenes"], JUndef);
            Normalize(item) == Some(Chunk(
              FirstTruthy(item, ["chunk"], JStr("")),
              FirstTruthy(item, ["pronunciation"], JStr("")),
              FirstTruthy(item, ["meaning", "chinese_meaning"], JStr("")),
              if scenes.JArr? then scenes.elems else []))
  {
    FirstTruthyOne(item, "chunk", JStr(""));
    FirstTruthyOne(item, "pronunciation", JStr(""));
    FirstTruthyTwo(item, "meaning", "chinese_meaning", JStr(""));
    FirstTruthyTwo(item, "scenes", "suitable_scenes", JUndef);
  }

  lemma {:induction false} FirstTruthyOne(item: Json, key: string, default: Json)
    requires !Nullish(item)
    ensures FirstTruthy(item, [key], default) == Or(Get(item, key).value, default)
  {
    assert [key][1..] == [];
  }

  lemma {:induction false} FirstTruthyTwo(item: Json, key: string, alias: string, default: Json)
    requires !Nullish(item)
    ensures var first := FirstTruthy(item, [key, alias], default);
            var chained := Or(Get(item, key).value, Get(item, alias).value);
            && (Truthy(chained) ==> first == chained)
            && (!Truthy(chained) ==> first == default)
  {
    assert [key, alias][1..] == [alias];
    FirstTruthyOne(item, alias, default);
  }

  /** A truthy non-array `scenes` hides an array `suitable_scenes`. */
  lemma {:induction false} ScenesShadowSuitableScenes(fields: map<string, Json>)
    requires "scenes" in fields && Truthy(fields["scenes"]) && !fields["scenes"].JArr?
    requires "suitable_scenes" in fields && fields["suitable_scenes"].JArr?
    ensures Normalize(JObj(fields)).value.suitableScenes == []
  {
  }

  /** `.map(...)` over the raw items: element for element, or `None` when
      an element is `null` (the TypeError aborts the whole map). */
  function NormalizeAll(items: seq<Json>): (r: Option<seq<Chunk>>)
    ensures r.Some? <==> forall k :: 0 <= k < |items| ==> !Nullish(items[k])
    ensures r.Some? ==> |r.value| == |items|
    ensures r.Some? ==> forall k :: 0 <= k < |items| ==> Normalize(items[k]) == Some(r.value[k])
  {
    if |items| == 0 then Some([])
    else
      match Normalize(items[0])
      case None => None
      case Some(c) =>
        match NormalizeAll(items[1..])
        case None => None
        case Some(cs) => Some([c] + cs)
  }

  /** The inner `try` of `generateChunks`: de-fence, parse, check the shape,
      normalise. `None` is any failure there (including `content.replace`
      throwing when the content is not a string). */
  function ExtractChunks(content: Json, parse: Parser): Option<seq<Chunk>>
  {
    if !content.JStr? then None
    else
      match parse(CleanContent(content.s))
      case None => None
      case Some(parsed) =>
        match ShapeChunks(parsed)
        case None => None
        case Some(items) => NormalizeAll(items)
  }

  /** `generateChunks` after the request: the response checks, the content
      lookup, then extraction, with its error messages. */
  function GenerateChunks(response: Response<Option<Json>>, parse: Parser): (r: Result<seq<Chunk>>)
    ensures response.Received? && !response.ok ==> r == Err(Thrown(ChunksFailedMessage))
    ensures r == Err(Thrown(NoContentMessage)) <==>
              && response.Received? && response.ok && response.body.Some?
              && var content := ChoiceContent(response.body.value, "message");
                 content.Some? && !Truthy(content.value)
  {
    match response
    case NetworkError => Err(EngineError)
    case Received(ok, _, body) =>
      if !ok then Err(Thrown(ChunksFailedMessage))
      else
        match body
        case None => Err(EngineError)
        case Some(data) =>
          match ChoiceContent(data, "message")
          case None => Err(EngineError)
          case Some(content) =>
            if !Truthy(content) then Err(Thrown(NoContentMessage))
            else
              match ExtractChunks(content, parse)
              case None => Err(Thrown(ParseFailedMessage))
              case Some(chunks) => Ok(chunks)
  }

  /** Records come only from an ok reply whose content is a non-empty
      string, and they are exactly what extraction yields for it. */
  lemma {:induction false} ChunksComeFromContent(response: Response<Option<Json>>, parse: Parser)
    requires GenerateChunks(response, parse).Ok?
    ensures && response.Received? && response.ok && response.body.Some?
            && var content := ChoiceContent(response.body.value, "message");
               && content.Some? && content.value.JStr? && content.value.s != ""
               && ExtractChunks(content.value, parse) == Some(GenerateChunks(response, parse).value)
  {
  }

  /** Once the reply has truthy content, every failure of de-fencing,
      parsing, shape or normalisation surfaces as the one parse-failure
      message; success is never an empty stand-in for failure. */
  lemma {:induction false} ExtractionFailuresAreUniform(data: Json, statusText: string, parse: Parser)
    requires ChoiceContent(data, "message").Some? && Truthy(ChoiceContent(data, "message").value)
    ensures var r := GenerateChunks(Received(true, statusText, Some(data)), parse);
            var extracted := ExtractChunks(ChoiceContent(data, "message").value, parse);
            && (extracted.None? <==> r == Err(Thrown(ParseFailedMessage)))
            && (extracted.Some? ==> r == Ok(extracted.value))
            && (r.Ok? ==> extracted.Some?)
  {
  }

  /** A successful extraction keeps one record per raw item, in order. */
  lemma {:induction false} ExtractedChunksFollowItems(content: string, parse: Parser)
    requires ExtractChunks(JStr(content), parse).Some?
    ensures var parsed := parse(CleanContent(content)).value;
            && ShapeChunks(parsed).Some?
            && var items := ShapeChunks(parsed).value;
               var chunks := ExtractChunks(JStr(content), parse).value;
               && |chunks| == |items|
               && forall k :: 0 <= k < |items| ==> Normalize(items[k]) == Some(chunks[k])
  {
  }

  /** An object carrying `"chunks": []` is accepted and yields no records. */
  lemma {:induction false} EmptyChunksAccepted(fields: map<string, Json>)
    requires "chunks" in fields && fields["chunks"] == JArr([])
    ensures ShapeChunks(JObj(fields)) == Some([])
    ensures NormalizeAll([]) == Some([])
  {
  }

  /** The fence is transparent: a body without backticks is extracted the
      same whether or not it is wrapped in "```json\n" ... "\n```". */
  lemma {:induction false} FenceIsTransparent(body: string, parse: Parser)
    requires '`' !in body
    ensures ExtractChunks(JStr(OpeningFence + "\n" + body + "\n" + Fence), parse)
         == ExtractChunks(JStr(body), parse)
  {
    FencedContentIsBody(body);
    BacktickFreeIsFenceFree(body);
    FenceFreeContentIsTrimmed(body);
  }

  /** Parsed JSON without a `chunks` array (and not itself an array) is
      rejected with the parse-failure message. */
  lemma {:induction false} WrongShapeRejected(data: Json, statusText: string, parse: Parser)
    requires ChoiceContent(data, "message").Some?
    requires var content := ChoiceContent(data, "message").value;
             && content.JStr? && content.s != ""
             && parse(CleanContent(content.s)).Some?
             && var parsed := parse(CleanContent(content.s)).value;
                parsed.JObj? && ("chunks" !in parsed.fields || !parsed.fields["chunks"].JArr?)
    ensures GenerateChunks(Received(true, statusText, Some(data)), parse) == Err(Thrown(ParseFailedMessage))
  {
  }
}
