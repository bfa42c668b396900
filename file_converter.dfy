/**
 * The file converter: an uploaded text file is sent to the chat-completions
 * endpoint and the JSON object in the reply, taken from the first "{" to
 * the last "}", is offered as a download. The download itself is recorded
 * as the saved payload.
 */
module FileConverter {
  import opened JsValues
  import opened Chat
  import opened StoredSettings

  const SettingsMessage := "请先在设置页面配置 Gemini API 信息"
  const ApiFailurePrefix := "API 调用失败: "
  const BadFormatMessage := "API 返回数据格式错误"
  const NoJsonMessage := "未能从响应中提取到JSON数据"

  /** The chosen file: what `file.text()` resolves with, or `None` when it
      rejects. */
  datatype Upload = Upload(text: Option<string>)

  /** The index of the first `c` in `s`. */
  function FirstIndexOf(s: string, c: char): (r: Option<nat>)
    ensures r.None? <==> c !in s
    ensures r.Some? ==> r.value < |s| && s[r.value] == c
    ensures r.Some? ==> forall k :: 0 <= k < r.value ==> s[k] != c
  {
    if |s| == 0 then None
    else if s[0] == c then Some(0)
    else
      match FirstIndexOf(s[1..], c)
      case None => None
      case Some(i) => Some(i + 1)
  }

  /** The index of the last `c` in `s`. */
  function LastIndexOf(s: string, c: char): (r: Option<nat>)
    ensures r.None? <==> c !in s
    ensures r.Some? ==> r.value < |s| && s[r.value] == c
    ensures r.Some? ==> forall k :: r.value < k < |s| ==> s[k] != c
  {
    if |s| == 0 then None
    else if s[|s| - 1] == c then Some(|s| - 1)
    else LastIndexOf(s[..|s| - 1], c)
  }

  /** `content.match(/\{[\s\S]*\}/)?.[0]`: the leftmost "{" that has a "}"
      after it is the first "{" of all, and the greedy body runs to the last
      "}". */
  function ExtractJsonObject(s: string): Option<string>
  {
    match FirstIndexOf(s, '{')
    case None => None
    case Some(i) =>
      match LastIndexOf(s, '}')
      case None => None
      case Some(j) => if i < j then Some(s[i..j + 1]) else None
  }

  /** A match exists exactly when some "{" comes before some "}", and it is
      the text from the first "{" to the last "}", both included. */
  lemma {:induction false} ExtractionSpansOutermostBraces(s: string)
    ensures ExtractJsonObject(s).Some? <==>
              exists i, j :: 0 <= i < j < |s| && s[i] == '{' && s[j] == '}'
    ensures ExtractJsonObject(s).Some? ==>
              exists i, j :: && 0 <= i < j < |s| && ExtractJsonObject(s).value == s[i..j + 1]
                             && s[i] == '{' && s[j] == '}'
                             && (forall k :: 0 <= k < i ==> s[k] != '{')
                             && (forall k :: j < k < |s| ==> s[k] != '}')
  {
    BracePairIsFound(s);
    if ExtractJsonObject(s).Some? {
      var f := FirstIndexOf(s, '{').value;
      var l := LastIndexOf(s, '}').value;
      assert ExtractJsonObject(s).value == s[f..l + 1];
    }
  }

  /** Some "{" before some "}" is all extraction needs. */
  lemma {:induction false} BracePairIsFound(s: string)
    ensures (exists i, j :: 0 <= i < j < |s| && s[i] == '{' && s[j] == '}') ==> ExtractJsonObject(s).Some?
  {
    if !exists i, j :: 0 <= i < j < |s| && s[i] == '{' && s[j] == '}' {
      return;
    }
    var i, j :| 0 <= i < j < |s| && s[i] == '{' && s[j] == '}';
    assert s[i] in s && s[j] in s;
    var f := FirstIndexOf(s, '{').value;
    var l := LastIndexOf(s, '}').value;
    assert f <= i;
    assert j <= l;
  }

  /** Text around an object: nothing before it opens a brace and nothing
      after it closes one, so the whole object is extracted, braces inside
      it included. */
  lemma {:induction false} ObjectExtractedWhole(before: string, body: string, after: string)
    requires '{' !in before && '}' !in after
    ensures ExtractJsonObject(before + "{" + body + "}" + after) == Some("{" + body + "}")
  {
    var s := before + "{" + body + "}" + after;
    var i := |before|;
    var j := |before| + 1 + |body|;
    assert s[i] == '{' && s[j] == '}';
    forall k | 0 <= k < i
      ensures s[k] != '{'
    {
      assert s[k] == before[k];
    }
    forall k | j < k < |s|
      ensures s[k] != '}'
    {
      assert s[k] == after[k - j - 1];
    }
    ExtractionAt(s, i, j);
    assert s[i..j + 1] == "{" + body + "}";
  }

  /** The match spans a first "{" and a last "}" that come in that order. */
  lemma {:induction false} ExtractionAt(s: string, i: nat, j: nat)
    requires i < j < |s| && s[i] == '{' && s[j] == '}'
    requires forall k :: 0 <= k < i ==> s[k] != '{'
    requires forall k :: j < k < |s| ==> s[k] != '}'
    ensures ExtractJsonObject(s) == Some(s[i..j + 1])
  {
    assert s[i] in s && s[j] in s;
    var f := FirstIndexOf(s, '{').value;
    var l := LastIndexOf(s, '}').value;
    assert f == i;
    assert l == j;
  }

  /** What `handleFileUpload` ends with once a file was chosen: the raw
      extracted text, or the error its `catch` receives. The checks run in
      the source's order: reading the file, the stored settings, the
      response status, the content, the match. */
  function Convert(upload: Upload, stored: Option<string>, response: Response<Option<Json>>, parse: Parser): (r: Result<string>)
    ensures upload.text.Some? && !SettingsUsable(stored, parse) && !LoadGemini(stored, parse).Unreadable? ==>
              r == Err(Thrown(SettingsMessage))
    ensures upload.text.Some? && SettingsUsable(stored, parse) && response.Received? && !response.ok ==>
              r == Err(Thrown(ApiFailurePrefix + response.statusText))
    ensures r.Ok? ==>
              && upload.text.Some? && SettingsUsable(stored, parse)
              && response.Received? && response.ok && response.body.Some?
              && var content := ChoiceContent(response.body.value, "message");
                 content.Some? && content.value.JStr?
                 && ExtractJsonObject(content.value.s) == Some(r.value)
  {
    match upload.text
    case None => Err(EngineError)
    case Some(_) =>
      match LoadGemini(stored, parse)
      case NotStored => Err(Thrown(SettingsMessage))
      case Unreadable => Err(EngineError)
      case Gemini(baseUrl, apiKey) =>
        if !Truthy(apiKey) || !Truthy(baseUrl) then Err(Thrown(SettingsMessage))
        else
          match response
          case NetworkError => Err(EngineError)
          case Received(ok, statusText, body) =>
            if !ok then Err(Thrown(ApiFailurePrefix + statusText))
            else
              match body
              case None => Err(EngineError)
              case Some(data) =>
                match ChoiceContent(data, "message")
                case None => Err(EngineError)
                case Some(content) =>
                  if !Truthy(content) then Err(Thrown(BadFormatMessage))
                  else if !content.JStr? then Err(EngineError)
                  else
                    match ExtractJsonObject(content.s)
                    case None => Err(Thrown(NoJsonMessage))
                    case Some(json) => Ok(json)
  }

  /** Stored settings with a truthy `gemini.apiKey` and `gemini.baseUrl`. */
  predicate SettingsUsable(stored: Option<string>, parse: Parser) {
    var lookup := LoadGemini(stored, parse);
    lookup.Gemini? && Truthy(lookup.apiKey) && Truthy(lookup.baseUrl)
  }

  /** Settings are checked before the request: with unusable settings the
      reply plays no part in the outcome. */
  lemma {:induction false} SettingsCheckedBeforeRequest(upload: Upload, stored: Option<string>,
                                                       first: Response<Option<Json>>, second: Response<Option<Json>>,
                                                       parse: Parser)
    requires !SettingsUsable(stored, parse)
    ensures Convert(upload, stored, first, parse) == Convert(upload, stored, second, parse)
    ensures Convert(upload, stored, first, parse).Err?
  {
  }

  /** A reply whose content is missing or falsy is a format error; one
      whose content has no "{" before a "}" is the no-JSON error. */
  lemma {:induction false} ContentErrors(upload: Upload, stored: Option<string>, statusText: string, data: Json, parse: Parser)
    requires upload.text.Some? && SettingsUsable(stored, parse)
    requires ChoiceContent(data, "message").Some?
    ensures var content := ChoiceContent(data, "message").value;
            var r := Convert(upload, stored, Received(true, statusText, Some(data)), parse);
            && (!Truthy(content) ==> r == Err(Thrown(BadFormatMessage)))
            && (content.JStr? && content.s != "" ==>
                  (r == Err(Thrown(NoJsonMessage)) <==>
                     !exists i, j :: 0 <= i < j < |content.s| && content.s[i] == '{' && content.s[j] == '}'))
  {
    var content := ChoiceContent(data, "message").value;
    if content.JStr? {
      ExtractionSpansOutermostBraces(content.s);
    }
  }

  /** The converter's state: the loading flag, the error shown, the file
      input's value and the payloads offered for download so far. */
  datatype ConverterView = ConverterView(isLoading: bool, error: Option<Failure>, inputValue: string, downloads: seq<string>)

  /** The state a `handleFileUpload` with a chosen file leaves behind. */
  function Uploaded(v: ConverterView, upload: Upload, stored: Option<string>, response: Response<Option<Json>>, parse: Parser): ConverterView
  {
    match Convert(upload, stored, response, parse)
    case Ok(json) => v.(isLoading := false, error := None, inputValue := "", downloads := v.downloads + [json])
    case Err(e) => v.(isLoading := false, error := Some(e))
  }

  /** Every upload ends with loading off; exactly the successful ones save
      a payload, the raw extracted text, and clear the input. */
  lemma {:induction false} UploadSettles(v: ConverterView, upload: Upload, stored: Option<string>,
                                         response: Response<Option<Json>>, parse: Parser)
    ensures var w := Uploaded(v, upload, stored, response, parse);
            var r := Convert(upload, stored, response, parse);
            && !w.isLoading
            && (w.error.None? <==> r.Ok?)
            && (r.Ok? ==> w.downloads == v.downloads + [r.value] && w.inputValue == "")
            && (r.Err? ==> w.downloads == v.downloads && w.inputValue == v.inputValue)
  {
  }

  class Converter {
    var isLoading: bool
    var error: Option<Failure>
    var inputValue: string
    var downloads: seq<string>

    function State(): ConverterView
      reads this
    {
      ConverterView(isLoading, error, inputValue, downloads)
    }

    constructor()
      ensures State() == ConverterView(false, None, "", [])
    {
      isLoading := false;
      error := None;
      inputValue := "";
      downloads := [];
    }

    /** `handleFileUpload`: nothing without a file; otherwise loading while
        the guarded steps run, each failure caught into `error`. */
    method HandleFileUpload(file: Option<Upload>, stored: Option<string>,
                            response: Response<Option<Json>>, parse: Parser)
      modifies this
      ensures file.None? ==> State() == old(State())
      ensures file.Some? ==> State() == Uploaded(old(State()), file.value, stored, response, parse)
    {
      if file.None? {
        return;
      }
      isLoading := true;
      error := None;
      var outcome := Err(EngineError);
      if file.value.text.Some? {
        outcome := Extract(file.value.text.value, stored, response, parse);
      }
      match outcome {
        case Ok(json) =>
          downloads := downloads + [json];
          inputValue := "";
        case Err(e) =>
          error := Some(e);
      }
      isLoading := false;
    }

    /** The body of the `try` once the file's text was read (the text only
        goes into the request), as the source's guarded early returns.
        `Convert` is the same chain written as one expression, so that
        `Uploaded` and the lemmas can use it. */
    static method Extract(text: string, stored: Option<string>, response: Response<Option<Json>>, parse: Parser)
      returns (outcome: Result<string>)
      ensures outcome == Convert(Upload(Some(text)), stored, response, parse)
    {
      var lookup := LoadGemini(stored, parse);
      if lookup.NotStored? {
        return Err(Thrown(SettingsMessage));
      }
      if lookup.Unreadable? {
        return Err(EngineError);
      }
      if !Truthy(lookup.apiKey) || !Truthy(lookup.baseUrl) {
        return Err(Thrown(SettingsMessage));
      }
      if response.NetworkError? {
        return Err(EngineError);
      }
      if !response.ok {
        return Err(Thrown(ApiFailurePrefix + response.statusText));
      }
      if response.body.None? {
        return Err(EngineError);
      }
      var content := ChoiceContent(response.body.value, "message");
      if content.None? {
        return Err(EngineError);
      }
      if !Truthy(content.value) {
        return Err(Thrown(BadFormatMessage));
      }
      if !content.value.JStr? {
        return Err(EngineError);
      }
      var jsonMatch := ExtractJsonObject(content.value.s);
      if jsonMatch.None? {
        return Err(Thrown(NoJsonMessage));
      }
      return Ok(jsonMatch.value);
    }
  }
}
