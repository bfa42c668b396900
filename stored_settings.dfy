/**
 * Reading the `userSettings` entry of `localStorage` the way both the scene
 * list and the file converter do: `getItem`, `JSON.parse`, then the
 * `gemini` sub-object's `baseUrl` and `apiKey`.
 */
module StoredSettings {
  import opened JsValues

  /** `NotStored`: `getItem` gave `null` or `""` (both falsy).
      `Unreadable`: `JSON.parse` threw, or reading `.gemini.<field>` threw
      because the settings or their `gemini` member are `null`/`undefined`.
      `Gemini`: the two fields, whatever values they hold. */
  datatype Lookup = NotStored | Unreadable | Gemini(baseUrl: Json, apiKey: Json)

  function LoadGemini(stored: Option<string>, parse: Parser): (r: Lookup)
    ensures r.NotStored? <==> stored.None? || stored.value == ""
    ensures r.Gemini? <==>
              && stored.Some? && stored.value != ""
              && parse(stored.value).Some?
              && !Nullish(parse(stored.value).value)
              && !Nullish(OptGet(parse(stored.value).value, "gemini"))
    ensures r.Gemini? ==>
              var gemini := OptGet(parse(stored.value).value, "gemini");
              r.baseUrl == OptGet(gemini, "baseUrl") && r.apiKey == OptGet(gemini, "apiKey")
  {
    if stored.None? || stored.value == "" then NotStored
    else
      match parse(stored.value)
      case None => Unreadable
      case Some(settings) =>
        match Get(settings, "gemini")
        case None => Unreadable
        case Some(gemini) =>
          match Get(gemini, "baseUrl")
          case None => Unreadable
          case Some(baseUrl) => Gemini(baseUrl, Get(gemini, "apiKey").value)
  }
}
