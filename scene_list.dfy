/**
 * The scene list: picking a scene (or typing a custom one) starts a
 * generation session that streams a dialogue, shows it as markdown with a
 * progress bar, then extracts chunk records from the finished dialogue.
 *
 * The component's state is the `Session` class; each event handler is a
 * method whose new state is given by a pure function on `View`, the
 * snapshot of that state. `localStorage`, the scene catalogue and the two
 * service replies are the `Environment` a handler runs in.
 */
module SceneList {
  import opened JsValues
  import opened Text
  import opened Chat
  import opened StoredSettings
  import opened AiService

  const CustomSceneId := "custom"

  const MissingSettingsMessage := "请先在设置中配置 API 信息"
  const IncompleteSettingsMessage := "请先在设置中配置 API URL 和 API Key"
  const ChunkFailureMessage := "英语块生成失败，请稍后重试。您仍然可以查看生成的对话。"

  /** Milliseconds waited between the two phases; the wait changes no state. */
  const ChunkGenerationDelay := 3000

  datatype Step = Idle | GeneratingDialogue | GeneratingChunks

  /** An entry of the scene catalogue (only the fields the logic reads). */
  datatype Scene = Scene(id: string, title: string)

  /** The API configuration read from the stored settings. */
  datatype Config = Config(apiUrl: Json, apiKey: Json)

  /** What a generation depends on besides the component's state: the stored
      `userSettings` entry, the scene catalogue, the stream reply to the
      dialogue request for a given prompt, the reply to the chunk request
      for a given dialogue, and `JSON.parse`. */
  datatype Environment = Environment(
    stored: Option<string>,
    catalog: seq<Scene>,
    dialogueService: string -> Response<StreamBody>,
    chunkService: string -> Response<Option<Json>>,
    parse: Parser)

  // ---------------------------------------------------------------------
  // The progress callback: markdown formatting and the progress heuristic
  // ---------------------------------------------------------------------

  /** One line of the transcript as markdown: a line with a colon becomes
      `**speaker**: content`, from the trimmed first two colon-separated
      pieces; any other line is kept. */
  function FormatLine(line: string): string
  {
    if ':' in line then
      var pieces := Split(line, ':');
      "**" + Trim(pieces[0]) + "**: " + Trim(pieces[1])
    else line
  }

  function FormatLines(lines: seq<string>): (r: seq<string>)
    ensures |r| == |lines|
  {
    seq(|lines|, k requires 0 <= k < |lines| => FormatLine(lines[k]))
  }

  /** The transcript as markdown: split on "\n", format each line, join
      with a blank line between. */
  function FormatDialogue(text: string): string
  {
    Join(FormatLines(Split(text, '\n')), "\n\n")
  }

  /** Text without a colon keeps every line as it is; only the line
      breaks are doubled. */
  lemma {:induction false} ColonFreeTextKeepsLines(text: string)
    requires ':' !in text
    ensures FormatDialogue(text) == Join(Split(text, '\n'), "\n\n")
  {
    var lines := Split(text, '\n');
    SplitPiecesOmit(text, '\n', ':');
    assert FormatLines(lines) == lines;
  }

  /** `speaker:content` becomes `**speaker**: content`, both trimmed. */
  lemma {:induction false} SpeakerLineFormatted(speaker: string, content: string)
    requires ':' !in speaker && ':' !in content
    ensures FormatLine(speaker + ":" + content) == "**" + Trim(speaker) + "**: " + Trim(content)
  {
    SplitAtFirst(speaker, ':', content);
    SplitWithoutSeparator(content, ':');
    assert (speaker + ":" + content)[|speaker|] == ':';
  }

  /** Everything from a second colon on is dropped. */
  lemma {:induction false} SecondColonDropped(speaker: string, content: string, tail: string)
    requires ':' !in speaker && ':' !in content
    ensures FormatLine(speaker + ":" + content + ":" + tail) == "**" + Trim(speaker) + "**: " + Trim(content)
  {
    var line := speaker + ":" + content + ":" + tail;
    assert line == speaker + [':'] + (content + [':'] + tail);
    SplitAtFirst(speaker, ':', content + [':'] + tail);
    SplitAtFirst(content, ':', tail);
    assert line[|speaker|] == ':';
  }

  /** Lines are formatted independently: a line break in the transcript
      becomes a blank line between the two formatted halves. */
  lemma {:induction false} FormatSplitsAtLineBreak(a: string, b: string)
    ensures FormatDialogue(a + "\n" + b) == FormatDialogue(a) + "\n\n" + FormatDialogue(b)
  {
    SplitAround(a, '\n', b);
    var x := Split(a, '\n');
    var y := Split(b, '\n');
    assert FormatLines(x + y) == FormatLines(x) + FormatLines(y);
    JoinAppend(FormatLines(x), FormatLines(y), "\n\n");
  }

  lemma {:induction false} EmptyTranscriptFormatsEmpty()
    ensures FormatDialogue("") == ""
  {
    assert Split("", '\n') == [""];
    assert FormatLines([""]) == [""];
  }

  /** The dialogue-phase progress, `Math.min(50, (text.length / 500) * 50)`. */
  function DialogueProgress(text: string): (p: real)
    ensures 0.0 <= p <= 50.0
  {
    var raw := (|text| as real / 500.0) * 50.0;
    if raw <= 50.0 then raw else 50.0
  }

  /** Longer text never shows less progress, and 500 characters fill the
      dialogue phase's half of the bar. */
  lemma {:induction false} ProgressGrowsWithText(a: string, b: string)
    requires |a| <= |b|
    ensures DialogueProgress(a) <= DialogueProgress(b)
    ensures |b| >= 500 ==> DialogueProgress(b) == 50.0
  {
  }

  /** Over a whole stream the progress bar never moves backwards. */
  lemma {:induction false} StreamProgressNeverDecreases(response: Response<StreamBody>, parse: Parser)
    ensures var reports := ProgressReports(response, parse);
            forall i, j :: 0 <= i <= j < |reports| ==>
              DialogueProgress(reports[i]) <= DialogueProgress(reports[j])
  {
    if response.Received? && response.ok && response.body.Reader? {
      ReportsArePrefixOrdered(FrameDeltas(StreamLines(response.body.blocks), parse));
    }
  }

  // ---------------------------------------------------------------------
  // Settings and scene lookup
  // ---------------------------------------------------------------------

  /** Reading the configuration: a missing entry and a falsy `baseUrl` or
      `apiKey` raise the two settings messages; `JSON.parse` failing or
      `settings.gemini` being `null`/`undefined` raise an engine error. */
  function ReadConfig(stored: Option<string>, parse: Parser): (r: Result<Config>)
    ensures r == Err(Thrown(MissingSettingsMessage)) <==> stored.None? || stored.value == ""
    ensures r == Err(EngineError) <==> LoadGemini(stored, parse).Unreadable?
    ensures r == Err(Thrown(IncompleteSettingsMessage)) <==>
              && LoadGemini(stored, parse).Gemini?
              && !(Truthy(LoadGemini(stored, parse).baseUrl) && Truthy(LoadGemini(stored, parse).apiKey))
    ensures r.Ok? ==>
              && LoadGemini(stored, parse) == Gemini(r.value.apiUrl, r.value.apiKey)
              && Truthy(r.value.apiUrl) && Truthy(r.value.apiKey)
  {
    match LoadGemini(stored, parse)
    case NotStored => Err(Thrown(MissingSettingsMessage))
    case Unreadable => Err(EngineError)
    case Gemini(baseUrl, apiKey) =>
      if !Truthy(baseUrl) || !Truthy(apiKey) then Err(Thrown(IncompleteSettingsMessage))
      else Ok(Config(baseUrl, apiKey))
  }

  /** `scenes.find(s => s.id === sceneId)`: the first entry with that id. */
  function FindScene(catalog: seq<Scene>, sceneId: string): (r: Option<Scene>)
    ensures r.None? <==> forall k :: 0 <= k < |catalog| ==> catalog[k].id != sceneId
    ensures r.Some? ==> exists k :: 0 <= k < |catalog| && catalog[k] == r.value
                                    && (forall m :: 0 <= m < k ==> catalog[m].id != sceneId)
    ensures r.Some? ==> r.value.id == sceneId
  {
    if |catalog| == 0 then None
    else if catalog[0].id == sceneId then Some(catalog[0])
    else
      var r := FindScene(catalog[1..], sceneId);
      assert forall k :: 1 <= k < |catalog| ==> catalog[k] == catalog[1..][k - 1];
      r
  }

  /** A custom prompt counts when it is truthy, i.e. present and non-empty. */
  predicate Supplied(customPrompt: Option<string>) {
    customPrompt.Some? && customPrompt.value != ""
  }

  /** `customPrompt || scene!.title`, or `None` for the early return taken
      when the id is unknown and no custom prompt was given. */
  function ScenePrompt(catalog: seq<Scene>, sceneId: string, customPrompt: Option<string>): (r: Option<string>)
    ensures r.None? <==> FindScene(catalog, sceneId).None? && !Supplied(customPrompt)
    ensures Supplied(customPrompt) ==> r == customPrompt
    ensures !Supplied(customPrompt) && r.Some? ==>
              exists k :: 0 <= k < |catalog| && catalog[k].id == sceneId && r.value == catalog[k].title
  {
    if Supplied(customPrompt) then customPrompt
    else
      match FindScene(catalog, sceneId)
      case None => None
      case Some(scene) => Some(scene.title)
  }

  // ---------------------------------------------------------------------
  // The session state and its transitions
  // ---------------------------------------------------------------------

  /** A snapshot of the component's state. `error` holds what `setError`
      received: `Thrown(m)` shows the message `m`, `EngineError` the
      message of an error raised by the engine or the browser. */
  datatype View = View(
    selectedScene: Option<string>,
    chunks: seq<Chunk>,
    loading: bool,
    error: Option<Failure>,
    dialogue: string,
    processingStep: Step,
    progress: real,
    customSceneInput: string,
    isDialogueExpanded: bool)

  const Initial := View(None, [], false, None, "", Idle, 0.0, "", false)

  /** One `onProgress` call: the transcript so far, formatted, and the
      dialogue-phase progress for it. */
  function Report(v: View, text: string): View
  {
    v.(dialogue := FormatDialogue(text), progress := DialogueProgress(text))
  }

  /** The `onProgress` calls of a stream, in order. */
  function ApplyReports(v: View, reports: seq<string>): View
  {
    if |reports| == 0 then v else Report(ApplyReports(v, reports[..|reports| - 1]), reports[|reports| - 1])
  }

  /** Only the last report shows: earlier ones are overwritten. */
  lemma {:induction false} LastReportShows(v: View, reports: seq<string>)
    requires |reports| > 0
    ensures ApplyReports(v, reports) == Report(v, reports[|reports| - 1])
  {
    var n := |reports| - 1;
    if n > 0 {
      LastReportShows(v, reports[..n]);
    }
  }

  /** The dialogue-phase `catch`: the error shown, the scene cleared, back to
      idle; the `finally` ends the loading state. */
  function Failed(v: View, e: Failure): View
  {
    v.(error := Some(e), selectedScene := None, processingStep := Idle, loading := false)
  }

  /** The reset at the start of `generateSceneDialogue`. */
  function Started(v: View, sceneId: string): View
  {
    v.(loading := true, error := None, selectedScene := Some(sceneId), dialogue := "",
       chunks := [], progress := 0.0, processingStep := GeneratingDialogue)
  }

  /** The chunk phase, from the state the finished stream left. */
  function ChunkPhase(streamed: View, outcome: Result<seq<Chunk>>): View
  {
    var chunking := streamed.(processingStep := GeneratingChunks, progress := 60.0);
    match outcome
    case Ok(cs) =>
      chunking.(chunks := cs, progress := 100.0, processingStep := Idle,
                isDialogueExpanded := false, loading := false)
    case Err(_) =>
      chunking.(error := Some(Thrown(ChunkFailureMessage)), processingStep := Idle, loading := false)
  }

  /** The dialogue phase and what follows it, for a chosen prompt. */
  function DialoguePhase(started: View, prompt: string, env: Environment): View
  {
    var response := env.dialogueService(prompt);
    var streamed := ApplyReports(started, ProgressReports(response, env.parse));
    match DialogueResult(response, env.parse)
    case Err(e) => Failed(streamed, e)
    case Ok(transcript) => ChunkPhase(streamed, GenerateChunks(env.chunkService(transcript), env.parse))
  }

  /** The state `generateSceneDialogue(sceneId, customPrompt)` leaves behind,
      assuming no other handler (Back, the dialogue toggle, typing in the
      custom input) runs while the generation is waiting. */
  function Generation(v: View, sceneId: string, customPrompt: Option<string>, env: Environment): View
  {
    var started := Started(v, sceneId);
    match ReadConfig(env.stored, env.parse)
    case Err(e) => Failed(started, e)
    case Ok(_) =>
      match ScenePrompt(env.catalog, sceneId, customPrompt)
      case None => started.(loading := false)
      case Some(prompt) => DialoguePhase(started, prompt, env)
  }

  /** `handleSceneClick`: the custom card only opens the input. */
  function SceneClicked(v: View, sceneId: string, env: Environment): View
  {
    if sceneId == CustomSceneId then v.(selectedScene := Some(CustomSceneId))
    else Generation(v, sceneId, None, env)
  }

  /** `handleCustomSceneSubmit`: blank input is ignored; otherwise the
      input, untrimmed, is the prompt. */
  function CustomSubmitted(v: View, env: Environment): View
  {
    if Trim(v.customSceneInput) == "" then v
    else Generation(v, CustomSceneId, Some(v.customSceneInput), env)
  }

  /** The back button. */
  function WentBack(v: View): View
  {
    v.(selectedScene := None, chunks := [], dialogue := "", processingStep := Idle,
       customSceneInput := "", progress := 0.0)
  }

  // ---------------------------------------------------------------------
  // What a generation ends in
  // ---------------------------------------------------------------------

  /** Every generation ends with loading off and the custom input untouched;
      it ends idle, except after the early return for an unknown scene. */
  lemma {:induction false} GenerationSettles(v: View, sceneId: string, customPrompt: Option<string>, env: Environment)
    ensures var w := Generation(v, sceneId, customPrompt, env);
            && !w.loading
            && w.customSceneInput == v.customSceneInput
            && (w.processingStep == Idle <==>
                  !(ReadConfig(env.stored, env.parse).Ok?
                    && ScenePrompt(env.catalog, sceneId, customPrompt).None?))
  {
    if ReadConfig(env.stored, env.parse).Ok? && ScenePrompt(env.catalog, sceneId, customPrompt).Some? {
      DialoguePhaseSettles(Started(v, sceneId), ScenePrompt(env.catalog, sceneId, customPrompt).value, env);
    }
  }

  lemma {:induction false} DialoguePhaseSettles(started: View, prompt: string, env: Environment)
    ensures var w := DialoguePhase(started, prompt, env);
            !w.loading && w.customSceneInput == started.customSceneInput && w.processingStep == Idle
  {
    ReportsOnlyTouchDialogue(started, ProgressReports(env.dialogueService(prompt), env.parse));
  }

  /** Progress reports change the dialogue and the progress and nothing else. */
  lemma {:induction false} ReportsOnlyTouchDialogue(v: View, reports: seq<string>)
    ensures var w := ApplyReports(v, reports);
            w == v.(dialogue := w.dialogue, progress := w.progress)
  {
    if |reports| > 0 {
      LastReportShows(v, reports);
    }
  }

  /** Missing, unreadable or incomplete settings: the message, no scene,
      idle, and everything the start of the generation reset. */
  lemma {:induction false} SettingsFailureClearsScene(v: View, sceneId: string, customPrompt: Option<string>, env: Environment)
    requires ReadConfig(env.stored, env.parse).Err?
    ensures var w := Generation(v, sceneId, customPrompt, env);
            && w.error == Some(ReadConfig(env.stored, env.parse).error)
            && w.selectedScene.None? && w.processingStep == Idle && !w.loading
            && w.dialogue == "" && w.chunks == [] && w.progress == 0.0
  {
  }

  /** An unknown scene without a custom prompt stops after the reset: loading
      ends, but the step stays at `generating-dialogue`. */
  lemma {:induction false} UnknownSceneReturnsEarly(v: View, sceneId: string, env: Environment)
    requires ReadConfig(env.stored, env.parse).Ok?
    requires forall k :: 0 <= k < |env.catalog| ==> env.catalog[k].id != sceneId
    ensures var w := Generation(v, sceneId, None, env);
            && w.processingStep == GeneratingDialogue && !w.loading
            && w.selectedScene == Some(sceneId) && w.error.None?
            && w.dialogue == "" && w.chunks == [] && w.progress == 0.0
  {
  }

  /** The streamed dialogue, once the stream completes, is the formatted
      transcript `generateDialogue` resolves with, and the progress is the
      heuristic for it. */
  lemma {:induction false} StreamShowsTranscript(v: View, response: Response<StreamBody>, parse: Parser)
    requires v.dialogue == "" && v.progress == 0.0
    requires DialogueResult(response, parse).Ok?
    ensures var w := ApplyReports(v, ProgressReports(response, parse));
            var transcript := DialogueResult(response, parse).value;
            && w.dialogue == FormatDialogue(transcript)
            && w.progress == DialogueProgress(transcript)
            && w == v.(dialogue := w.dialogue, progress := w.progress)
  {
    var reports := ProgressReports(response, parse);
    DialogueReportsEndWithTranscript(response, parse);
    if |reports| > 0 {
      LastReportShows(v, reports);
    } else {
      EmptyTranscriptFormatsEmpty();
    }
  }

  /** A dialogue failure (non-ok reply, no reader, a failing read, a
      rejected fetch) clears the scene and shows the error; the dialogue
      streamed before the failure stays. */
  lemma {:induction false} DialogueFailureClearsScene(v: View, sceneId: string, customPrompt: Option<string>, env: Environment)
    requires ReadConfig(env.stored, env.parse).Ok?
    requires ScenePrompt(env.catalog, sceneId, customPrompt).Some?
    requires var response := env.dialogueService(ScenePrompt(env.catalog, sceneId, customPrompt).value);
             DialogueResult(response, env.parse).Err?
    ensures var response := env.dialogueService(ScenePrompt(env.catalog, sceneId, customPrompt).value);
            var reports := ProgressReports(response, env.parse);
            var w := Generation(v, sceneId, customPrompt, env);
            && w.error == Some(DialogueResult(response, env.parse).error)
            && w.selectedScene.None? && w.processingStep == Idle && !w.loading
            && w.chunks == []
            && w.dialogue == (if |reports| == 0 then "" else FormatDialogue(reports[|reports| - 1]))
  {
    var started := Started(v, sceneId);
    var response := env.dialogueService(ScenePrompt(env.catalog, sceneId, customPrompt).value);
    var reports := ProgressReports(response, env.parse);
    if |reports| > 0 {
      LastReportShows(started, reports);
    }
  }

  /** A chunk failure keeps the scene and the whole formatted dialogue,
      shows the fixed chunk message, leaves no chunks and the bar at 60. */
  lemma {:induction false} ChunkFailureKeepsDialogue(v: View, sceneId: string, customPrompt: Option<string>, env: Environment)
    requires ReadConfig(env.stored, env.parse).Ok?
    requires ScenePrompt(env.catalog, sceneId, customPrompt).Some?
    requires var response := env.dialogueService(ScenePrompt(env.catalog, sceneId, customPrompt).value);
             && DialogueResult(response, env.parse).Ok?
             && GenerateChunks(env.chunkService(DialogueResult(response, env.parse).value), env.parse).Err?
    ensures var response := env.dialogueService(ScenePrompt(env.catalog, sceneId, customPrompt).value);
            var w := Generation(v, sceneId, customPrompt, env);
            && w.selectedScene == Some(sceneId)
            && w.dialogue == FormatDialogue(DialogueResult(response, env.parse).value)
            && w.chunks == []
            && w.error == Some(Thrown(ChunkFailureMessage))
            && w.progress == 60.0 && w.processingStep == Idle && !w.loading
  {
    var started := Started(v, sceneId);
    var response := env.dialogueService(ScenePrompt(env.catalog, sceneId, customPrompt).value);
    StreamShowsTranscript(started, response, env.parse);
  }

  /** A full success: the extracted chunks, the formatted dialogue
      collapsed, no error, the bar at 100, idle. */
  lemma {:induction false} GenerationSucceeds(v: View, sceneId: string, customPrompt: Option<string>, env: Environment)
    requires ReadConfig(env.stored, env.parse).Ok?
    requires ScenePrompt(env.catalog, sceneId, customPrompt).Some?
    requires var response := env.dialogueService(ScenePrompt(env.catalog, sceneId, customPrompt).value);
             && DialogueResult(response, env.parse).Ok?
             && GenerateChunks(env.chunkService(DialogueResult(response, env.parse).value), env.parse).Ok?
    ensures var response := env.dialogueService(ScenePrompt(env.catalog, sceneId, customPrompt).value);
            var transcript := DialogueResult(response, env.parse).value;
            var w := Generation(v, sceneId, customPrompt, env);
            && w.selectedScene == Some(sceneId)
            && w.dialogue == FormatDialogue(transcript)
            && w.chunks == GenerateChunks(env.chunkService(transcript), env.parse).value
            && w.error.None? && !w.isDialogueExpanded
            && w.progress == 100.0 && w.processingStep == Idle && !w.loading
  {
    var started := Started(v, sceneId);
    var response := env.dialogueService(ScenePrompt(env.catalog, sceneId, customPrompt).value);
    StreamShowsTranscript(started, response, env.parse);
  }

  /** Clicking the custom card selects it and starts nothing. */
  lemma {:induction false} CustomCardOnlySelects(v: View, env: Environment)
    ensures SceneClicked(v, CustomSceneId, env) == v.(selectedScene := Some(CustomSceneId))
  {
  }

  /** Blank custom input does nothing; otherwise the untrimmed input is the
      prompt, whatever the catalogue holds. */
  lemma {:induction false} CustomInputIsPrompt(v: View, env: Environment)
    ensures Trim(v.customSceneInput) == "" ==> CustomSubmitted(v, env) == v
    ensures Trim(v.customSceneInput) != "" ==>
              ScenePrompt(env.catalog, CustomSceneId, Some(v.customSceneInput)) == Some(v.customSceneInput)
  {
    if v.customSceneInput == "" {
      assert Trim(v.customSceneInput) == "";
    }
  }

  /** The component. Field for field the state of the source's hooks. */
  class Session {
    var selectedScene: Option<string>
    var chunks: seq<Chunk>
    var loading: bool
    var error: Option<Failure>
    var dialogue: string
    var processingStep: Step
    var progress: real
    var customSceneInput: string
    var isDialogueExpanded: bool

    function State(): View
      reads this
    {
      View(selectedScene, chunks, loading, error, dialogue, processingStep, progress,
           customSceneInput, isDialogueExpanded)
    }

    constructor()
      ensures State() == Initial
    {
      selectedScene := None;
      chunks := [];
      loading := false;
      error := None;
      dialogue := "";
      processingStep := Idle;
      progress := 0.0;
      customSceneInput := "";
      isDialogueExpanded := false;
    }

    /** The `onProgress` callback passed to `generateDialogue`. */
    method ReportProgress(text: string)
      modifies this
      ensures State() == Report(old(State()), text)
    {
      dialogue := FormatDialogue(text);
      progress := DialogueProgress(text);
    }

    /** `generateSceneDialogue`: reset, read the settings, pick the prompt,
        then run the dialogue phase. */
    method GenerateSceneDialogue(sceneId: string, customPrompt: Option<string>, env: Environment)
      modifies this
      ensures State() == Generation(old(State()), sceneId, customPrompt, env)
    {
      loading := true;
      error := None;
      selectedScene := Some(sceneId);
      dialogue := "";
      chunks := [];
      progress := 0.0;
      processingStep := GeneratingDialogue;
      assert State() == Started(old(State()), sceneId);

      var config := ReadConfig(env.stored, env.parse);
      if config.Err? {
        error := Some(config.error);
        selectedScene := None;
        processingStep := Idle;
        loading := false;
        return;
      }
      var prompt := ScenePrompt(env.catalog, sceneId, customPrompt);
      if prompt.None? {
        loading := false;
        return;
      }
      DialogueStep(prompt.value, env);
    }

    /** The dialogue phase of `generateSceneDialogue`: stream, then either
        record the failure or go on to the chunks. The chunk reply is a
        function of the transcript here, and no other handler runs while the
        phase waits (the model's assumption, see `Generation`), so taking the
        outcome of `generateChunks` before the chunk phase's first state
        change gives the same state as the source's order. */
    method DialogueStep(prompt: string, env: Environment)
      modifies this
      ensures State() == DialoguePhase(old(State()), prompt, env)
    {
      var response := env.dialogueService(prompt);
      var result := StreamStep(response, env.parse);
      if result.Err? {
        error := Some(result.error);
        selectedScene := None;
        processingStep := Idle;
        loading := false;
        return;
      }
      var chunkResult := GenerateChunks(env.chunkService(result.value), env.parse);
      ChunkStep(chunkResult);
    }

    /** `generateDialogue` with this component's `onProgress` callback: each
        report in turn rewrites the dialogue and the progress bar. */
    method StreamStep(response: Response<StreamBody>, parse: Parser) returns (result: Result<string>)
      modifies this
      ensures result == DialogueResult(response, parse)
      ensures State() == ApplyReports(old(State()), ProgressReports(response, parse))
    {
      ghost var start := State();
      var reports;
      result, reports := GenerateDialogue(response, parse);
      var i := 0;
      while i < |reports|
        invariant 0 <= i <= |reports|
        invariant State() == ApplyReports(start, reports[..i])
      {
        ReportProgress(reports[i]);
        assert reports[..i + 1][..i] == reports[..i];
        i := i + 1;
      }
      assert reports[..|reports|] == reports;
    }

    /** The chunk phase of `generateSceneDialogue`, with its `finally`. */
    method ChunkStep(chunkResult: Result<seq<Chunk>>)
      modifies this
      ensures State() == ChunkPhase(old(State()), chunkResult)
    {
      processingStep := GeneratingChunks;
      progress := 60.0;
      // `await delay(ChunkGenerationDelay)` comes here; waiting changes no state.
      ghost var chunking := State();
      if chunkResult.Ok? {
        chunks := chunkResult.value;
        progress := 100.0;
        processingStep := Idle;
        isDialogueExpanded := false;
        loading := false;
        assert State() == chunking.(chunks := chunkResult.value, progress := 100.0, processingStep := Idle,
                                    isDialogueExpanded := false, loading := false);
      } else {
        error := Some(Thrown(ChunkFailureMessage));
        processingStep := Idle;
        loading := false;
        assert State() == chunking.(error := Some(Thrown(ChunkFailureMessage)), processingStep := Idle, loading := false);
      }
    }

    /** `handleSceneClick` */
    method SceneClick(sceneId: string, env: Environment)
      modifies this
      ensures State() == SceneClicked(old(State()), sceneId, env)
    {
      if sceneId == CustomSceneId {
        selectedScene := Some(CustomSceneId);
        return;
      }
      GenerateSceneDialogue(sceneId, None, env);
    }

    /** `handleCustomSceneSubmit` */
    method CustomSceneSubmit(env: Environment)
      modifies this
      ensures State() == CustomSubmitted(old(State()), env)
    {
      if Trim(customSceneInput) == "" {
        return;
      }
      GenerateSceneDialogue(CustomSceneId, Some(customSceneInput), env);
    }

    /** The back button's handler. */
    method Back()
      modifies this
      ensures State() == WentBack(old(State()))
    {
      selectedScene := None;
      chunks := [];
      dialogue := "";
      processingStep := Idle;
      customSceneInput := "";
      progress := 0.0;
    }

    /** The custom input's `onChange`. */
    method EditCustomScene(input: string)
      modifies this
      ensures State() == old(State()).(customSceneInput := input)
    {
      customSceneInput := input;
    }

    /** The dialogue header's click: expand or collapse. */
    method ToggleDialogue()
      modifies this
      ensures State() == old(State()).(isDialogueExpanded := !old(isDialogueExpanded))
    {
      isDialogueExpanded := !isDialogueExpanded;
    }
  }
}
