/** The client's call to the proxy (`generateDressUpImage`): where it sends
    the request, and how it turns the reply into a data URI or a thrown
    error. `localStorage`, `import.meta.env` and `fetch` are parameters. */
module Service {
  import opened Wrappers
  import opened Images

  /** A value the client throws or sees thrown: an `Error` object with its
      message, or a value that is not an `Error`. */
  datatype Failure = ErrorObject(message: string) | NonError

  /** The POST request the client sends: URL, method, content type and the
      JSON body `{ character, clothing, prompt }`. */
  datatype ClientRequest = ClientRequest(url: string, httpMethod: string, contentType: string,
                                         character: ImageData, clothing: ImageData, prompt: string)

  /** The fields of `await response.json()` the client looks at. */
  datatype ImagePayload = ImagePayload(imageBase64: Option<string>, mimeType: Option<string>)

  /** `response.json()`: the parsed value (`None` for `null` or a value
      without properties), or a rejection. */
  datatype JsonRead = JsonParsed(data: Option<ImagePayload>) | JsonRejected(error: Failure)

  /** What `fetch` yields: a rejection, or a response with its status, status
      text, and the two ways of reading its body (`text` is `None` when
      `response.text()` rejects). Only one of the two is read. */
  datatype Delivery =
    | FetchRejected(error: Failure)
    | Delivered(status: int, statusText: string, text: Option<string>, json: JsonRead)

  const Path := "/api/gemini-dress"
  const GenerationFailed := "GENERATION_FAILED:"
  const NoImageReturned := "NO_IMAGE_RETURNED"

  /** The API base: the stored `API_BASE` if non-empty, else `VITE_API_BASE`
      if non-empty, else the empty string (same-origin). */
  function ApiBase(stored: Option<string>, configured: Option<string>): (base: string)
    ensures stored.Some? && stored.value != "" ==> base == stored.value
    ensures (stored.None? || stored.value == "") && configured.Some? ==> base == configured.value
    ensures (stored.None? || stored.value == "") && configured.None? ==> base == ""
  {
    var fromStorage := stored.GetOr("");
    if fromStorage != "" then fromStorage else configured.GetOr("")
  }

  function BuildRequest(stored: Option<string>, configured: Option<string>,
                        character: ImageData, clothing: ImageData, prompt: string): ClientRequest
  {
    ClientRequest(ApiBase(stored, configured) + Path, "POST", "application/json", character, clothing, prompt)
  }

  /** `response.ok`. */
  predicate IsOk(status: int) {
    200 <= status <= 299
  }

  /** The text after `GENERATION_FAILED:`: the body text, or the status text
      when the body is empty or could not be read. */
  function FailureDetail(text: Option<string>, statusText: string): (detail: string)
    ensures text.Some? && text.value != "" ==> detail == text.value
    ensures text.None? || text.value == "" ==> detail == statusText
  {
    var msg := text.GetOr("");
    if msg != "" then msg else statusText
  }

  /** How the client classifies what `fetch` gave it. */
  function Classify(d: Delivery): (r: Result<string, Failure>)
    ensures r.Ok? ==> d.Delivered? && IsOk(d.status) && "data:" <= r.value
    ensures d.Delivered? && !IsOk(d.status) ==>
              r.Err? && r.error.ErrorObject? && GenerationFailed <= r.error.message
    ensures d.FetchRejected? ==> r == Err(d.error)
  {
    match d
    case FetchRejected(e) => Err(e)
    case Delivered(status, statusText, text, json) =>
      if !IsOk(status) then Err(ErrorObject(GenerationFailed + FailureDetail(text, statusText)))
      else
        match json
        case JsonRejected(e) => Err(e)
        case JsonParsed(data) =>
          if data.None? || data.value.imageBase64.GetOr("") == "" || data.value.mimeType.GetOr("") == ""
          then Err(ErrorObject(NoImageReturned))
          else Ok(DataUri(data.value.mimeType.value, data.value.imageBase64.value))
  }

  /** `generateDressUpImage(character, clothing, prompt)`, with `fetch` the
      network's answer to the request sent. */
  function GenerateDressUpImage(stored: Option<string>, configured: Option<string>,
                                character: ImageData, clothing: ImageData, prompt: string,
                                fetch: ClientRequest -> Delivery): (r: Result<string, Failure>)
    ensures r.Ok? ==> "data:" <= r.value
    ensures var d := fetch(BuildRequest(stored, configured, character, clothing, prompt));
            d.Delivered? && !IsOk(d.status) ==> r.Err? && r.error.ErrorObject? && GenerationFailed <= r.error.message
  {
    Classify(fetch(BuildRequest(stored, configured, character, clothing, prompt)))
  }

  // ------------------------------------------------------------- properties

  /** The request goes to the API base followed by `/api/gemini-dress`, as a
      JSON POST that carries the three inputs unchanged. */
  lemma RequestShape(stored: Option<string>, configured: Option<string>,
                     character: ImageData, clothing: ImageData, prompt: string)
    ensures var r := BuildRequest(stored, configured, character, clothing, prompt);
            && r.url[..|r.url| - |Path|] == ApiBase(stored, configured)
            && r.url[|r.url| - |Path|..] == "/api/gemini-dress"
            && r.httpMethod == "POST" && r.contentType == "application/json"
            && r.character == character && r.clothing == clothing && r.prompt == prompt
  {
  }

  /** A reply without a 2xx status becomes `GENERATION_FAILED:` followed by
      the body text, or by the status text when that text is empty or
      unreadable. */
  lemma NotOkIsGenerationFailed(d: Delivery)
    requires d.Delivered? && !(200 <= d.status <= 299)
    ensures Classify(d) == Err(ErrorObject("GENERATION_FAILED:" +
              (if d.text.Some? && d.text.value != "" then d.text.value else d.statusText)))
  {
  }

  /** The proxy's 502 `NO_IMAGE_RETURNED` reaches the caller as
      `GENERATION_FAILED:NO_IMAGE_RETURNED`, never as the bare
      `NO_IMAGE_RETURNED`. */
  lemma ProxyNoImageIsGenerationFailed(d: Delivery)
    requires d.Delivered? && d.status == 502 && d.text == Some("NO_IMAGE_RETURNED")
    ensures Classify(d) == Err(ErrorObject("GENERATION_FAILED:NO_IMAGE_RETURNED"))
    ensures Classify(d) != Err(ErrorObject("NO_IMAGE_RETURNED"))
  {
    assert GenerationFailed + "NO_IMAGE_RETURNED" == "GENERATION_FAILED:NO_IMAGE_RETURNED";
  }

  /** The bare `NO_IMAGE_RETURNED` comes only from a 2xx reply whose JSON
      lacks a non-empty `imageBase64` or `mimeType` (or from a rejection
      that happens to carry that message), and every such reply gives it. */
  lemma NoImageOnlyFromOkReply(d: Delivery)
    ensures Classify(d) == Err(ErrorObject(NoImageReturned)) <==>
              || d == FetchRejected(ErrorObject(NoImageReturned))
              || (&& d.Delivered? && IsOk(d.status)
                  && (|| d.json == JsonRejected(ErrorObject(NoImageReturned))
                      || (&& d.json.JsonParsed?
                          && (|| d.json.data.None?
                              || d.json.data.value.imageBase64.GetOr("") == ""
                              || d.json.data.value.mimeType.GetOr("") == ""))))
  {
    if d.Delivered? && !IsOk(d.status) {
      var m := GenerationFailed + FailureDetail(d.text, d.statusText);
      assert m[0] != NoImageReturned[0];
    }
  }

  /** Success is exactly a 2xx reply with both fields non-empty, and the
      result is `data:<mimeType>;base64,<imageBase64>` built from them. */
  lemma SuccessIsDataUri(d: Delivery)
    ensures Classify(d).Ok? <==>
              && d.Delivered? && IsOk(d.status) && d.json.JsonParsed? && d.json.data.Some?
              && d.json.data.value.imageBase64.GetOr("") != "" && d.json.data.value.mimeType.GetOr("") != ""
    ensures Classify(d).Ok? ==>
              Classify(d).value == DataUri(d.json.data.value.mimeType.value, d.json.data.value.imageBase64.value)
  {
  }
}
