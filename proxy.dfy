/** The decision logic shared by both versions of the composite proxy
    `handler`: the method, credential and input checks, the one outbound
    generation request, the first-match scan of the provider's response and
    the mapping of caught errors to status 500. */
module Proxy {
  import opened Wrappers
  import opened Text

  // ---------------------------------------------------------------- inbound

  /** `{ base64, mimeType }` as it arrives in the JSON body; either field may
      be missing. */
  datatype ImageField = ImageField(base64: Option<string>, mimeType: Option<string>)

  /** The destructured request body `{ character, clothing, prompt }`. */
  datatype Body = Body(character: Option<ImageField>, clothing: Option<ImageField>, prompt: Option<string>)

  /** A caught exception: `message` is `None` when `err?.message` is not a
      string. */
  datatype Thrown = Thrown(message: Option<string>)

  /** Reading the body either gives its fields or throws (malformed JSON). */
  datatype BodyRead = Parsed(body: Body) | ParseThrew(error: Thrown)

  /** What the handler sees of the inbound request. */
  datatype Inbound = Inbound(verb: string, body: BodyRead)

  // --------------------------------------------------------------- outbound

  datatype OutPart = TextPart(text: string) | InlinePart(data: string, mimeType: Option<string>)
  datatype Content = Content(role: string, parts: seq<OutPart>)

  /** One `generateContent` call: the credential the client was built with,
      the model name and the request contents. */
  datatype GenerateRequest = GenerateRequest(apiKey: string, model: string, contents: seq<Content>)

  // ------------------------------------------------------ provider response

  /** The loosely typed response: every level may be missing. */
  datatype InlineData = InlineData(data: Option<string>, mimeType: Option<string>)
  datatype Part = Part(text: Option<string>, inlineData: Option<InlineData>)
  datatype CandidateContent = CandidateContent(parts: Option<seq<Option<Part>>>)
  datatype Candidate = Candidate(content: Option<CandidateContent>)
  datatype GenerateResponse = GenerateResponse(candidates: Option<seq<Option<Candidate>>>)
  datatype GenerateResult = GenerateResult(response: Option<GenerateResponse>)

  /** The awaited `generateContent` call: a result, or a thrown error. */
  datatype ProviderReply = Returned(result: Option<GenerateResult>) | Threw(error: Thrown)

  // ---------------------------------------------------------- HTTP response

  datatype ResponseBody = PlainText(text: string) | ImageJson(imageBase64: string, mimeType: string)
  datatype Response = Response(status: int, body: ResponseBody)

  /** The image selected from the provider's response. */
  datatype Image = Image(data: string, mimeType: string)

  /** The handler's response, and the outbound call it made, if any. */
  datatype Outcome = Outcome(response: Response, call: Option<GenerateRequest>)

  const ModelName := "gemini-1.5-flash"
  const Directive := "You are an expert image compositor. Combine the provided character and clothing images. "

  // ----------------------------------------------------------------- checks

  /** JavaScript truthiness of an optional string. */
  predicate Truthy(s: Option<string>) {
    s.Some? && s.value != ""
  }

  /** `process.env.GEMINI_API_KEY` is set and non-empty. */
  predicate HasKey(apiKey: Option<string>) {
    Truthy(apiKey)
  }

  predicate HasBase64(f: Option<ImageField>) {
    f.Some? && Truthy(f.value.base64)
  }

  /** The negation of `!character?.base64 || !clothing?.base64 || !prompt?.trim()`. */
  predicate ValidBody(b: Body) {
    HasBase64(b.character) && HasBase64(b.clothing) && b.prompt.Some? && Trim(b.prompt.value) != ""
  }

  /** `typeof err?.message === 'string' ? err.message : 'Unknown error'`. */
  function FaultMessage(e: Thrown): string {
    e.message.GetOr("Unknown error")
  }

  function Fault(e: Thrown): Response {
    Response(500, PlainText(FaultMessage(e)))
  }

  /** The single outbound request: the directive followed by the literal
      prompt, then the character image, then the clothing image. */
  function BuildRequest(apiKey: string, b: Body): GenerateRequest
    requires ValidBody(b)
  {
    var ch := b.character.value;
    var cl := b.clothing.value;
    GenerateRequest(apiKey, ModelName,
      [Content("user", [
         TextPart(Directive + b.prompt.value),
         InlinePart(ch.base64.value, ch.mimeType),
         InlinePart(cl.base64.value, cl.mimeType)])])
  }

  // ------------------------------------------------------------------- scan

  /** `result?.response?.candidates ?? []`. */
  function CandidatesOf(r: Option<GenerateResult>): seq<Option<Candidate>> {
    if r.Some? && r.value.response.Some? && r.value.response.value.candidates.Some?
    then r.value.response.value.candidates.value
    else []
  }

  /** `c?.content?.parts ?? []`. */
  function PartsOf(c: Option<Candidate>): seq<Option<Part>> {
    if c.Some? && c.value.content.Some? && c.value.content.value.parts.Some?
    then c.value.content.value.parts.value
    else []
  }

  /** `p?.inlineData?.data && p?.inlineData?.mimeType?.startsWith('image/')`. */
  predicate Qualifies(p: Option<Part>) {
    && p.Some? && p.value.inlineData.Some?
    && Truthy(p.value.inlineData.value.data)
    && p.value.inlineData.value.mimeType.Some?
    && "image/" <= p.value.inlineData.value.mimeType.value
  }

  function ImageOf(p: Option<Part>): (img: Image)
    requires Qualifies(p)
    ensures img.data != "" && "image/" <= img.mimeType
  {
    Image(p.value.inlineData.value.data.value, p.value.inlineData.value.mimeType.value)
  }

  /** The first qualifying part of one candidate, in part order. */
  function FirstInParts(ps: seq<Option<Part>>): (r: Option<Image>)
    ensures r.Some? ==> r.value.data != "" && "image/" <= r.value.mimeType
  {
    if |ps| == 0 then None
    else if Qualifies(ps[0]) then Some(ImageOf(ps[0]))
    else FirstInParts(ps[1..])
  }

  /** The first qualifying part over all candidates, in candidate order and
      then part order. */
  function FirstImage(cs: seq<Option<Candidate>>): (r: Option<Image>)
    ensures r.Some? ==> r.value.data != "" && "image/" <= r.value.mimeType
  {
    if |cs| == 0 then None
    else
      match FirstInParts(PartsOf(cs[0]))
      case Some(img) => Some(img)
      case None => FirstImage(cs[1..])
  }

  /** Part `i` of candidate `c` exists and qualifies. */
  predicate QualifiesAt(cs: seq<Option<Candidate>>, c: int, i: int) {
    0 <= c < |cs| && 0 <= i < |PartsOf(cs[c])| && Qualifies(PartsOf(cs[c])[i])
  }

  /** Position (c', i') comes before (c, i) in candidate-then-part order. */
  predicate Before(c': int, i': int, c: int, i: int) {
    c' < c || (c' == c && i' < i)
  }

  lemma {:induction false} FirstInPartsIsFirstMatch(ps: seq<Option<Part>>)
    ensures FirstInParts(ps).None? <==> forall i :: 0 <= i < |ps| ==> !Qualifies(ps[i])
    ensures FirstInParts(ps).Some? ==>
              exists i :: 0 <= i < |ps| && Qualifies(ps[i]) && FirstInParts(ps).value == ImageOf(ps[i])
                          && forall j :: 0 <= j < i ==> !Qualifies(ps[j])
  {
    if |ps| > 0 && !Qualifies(ps[0]) {
      FirstInPartsIsFirstMatch(ps[1..]);
      assert forall i :: 1 <= i < |ps| ==> ps[i] == ps[1..][i - 1];
      if FirstInParts(ps).Some? {
        var k :| 0 <= k < |ps[1..]| && Qualifies(ps[1..][k]) && FirstInParts(ps[1..]).value == ImageOf(ps[1..][k])
                 && forall j :: 0 <= j < k ==> !Qualifies(ps[1..][j]);
        assert Qualifies(ps[k + 1]) && FirstInParts(ps).value == ImageOf(ps[k + 1]);
        assert forall j :: 0 <= j < k + 1 ==> !Qualifies(ps[j]) by {
          forall j | 0 <= j < k + 1 ensures !Qualifies(ps[j]) {
            if j > 0 { assert ps[j] == ps[1..][j - 1]; }
          }
        }
      }
    }
  }

  /** The scan's result is the image of the first qualifying part in
      candidate-then-part order, and it finds nothing exactly when no part
      qualifies. */
  lemma {:induction false} FirstImageIsFirstMatch(cs: seq<Option<Candidate>>)
    ensures FirstImage(cs).None? <==> forall c, i :: !QualifiesAt(cs, c, i)
    ensures FirstImage(cs).Some? ==>
              exists c, i :: QualifiesAt(cs, c, i) && FirstImage(cs).value == ImageOf(PartsOf(cs[c])[i])
                             && forall c', i' :: Before(c', i', c, i) ==> !QualifiesAt(cs, c', i')
  {
    if |cs| > 0 {
      var ps := PartsOf(cs[0]);
      FirstInPartsIsFirstMatch(ps);
      if FirstInParts(ps).Some? {
        var i :| 0 <= i < |ps| && Qualifies(ps[i]) && FirstInParts(ps).value == ImageOf(ps[i])
                 && forall j :: 0 <= j < i ==> !Qualifies(ps[j]);
        assert QualifiesAt(cs, 0, i);
        assert forall c', i' :: Before(c', i', 0, i) ==> !QualifiesAt(cs, c', i');
      } else {
        FirstImageIsFirstMatch(cs[1..]);
        assert forall c :: 1 <= c < |cs| ==> cs[c] == cs[1..][c - 1];
        assert forall c, i :: QualifiesAt(cs, c, i) && c > 0 ==> QualifiesAt(cs[1..], c - 1, i);
        assert forall c, i :: QualifiesAt(cs[1..], c, i) ==> QualifiesAt(cs, c + 1, i);
        if FirstImage(cs).Some? {
          var c, i :| QualifiesAt(cs[1..], c, i) && FirstImage(cs[1..]).value == ImageOf(PartsOf(cs[1..][c])[i])
                      && forall c', i' :: Before(c', i', c, i) ==> !QualifiesAt(cs[1..], c', i');
          assert QualifiesAt(cs, c + 1, i);
          forall c', i' | Before(c', i', c + 1, i) ensures !QualifiesAt(cs, c', i') {
            if c' > 0 {
              assert Before(c' - 1, i', c, i);
            }
          }
        }
      }
    }
  }

  /** The nested `for...of` search with early return, proved to return what
      `FirstImage` describes. */
  method FindImage(result: Option<GenerateResult>) returns (found: Option<Image>)
    ensures found == FirstImage(CandidatesOf(result))
  {
    var candidates := CandidatesOf(result);
    var c := 0;
    while c < |candidates|
      invariant 0 <= c <= |candidates|
      invariant FirstImage(candidates) == FirstImage(candidates[c..])
    {
      var parts := PartsOf(candidates[c]);
      var i := 0;
      while i < |parts|
        invariant 0 <= i <= |parts|
        invariant FirstInParts(parts) == FirstInParts(parts[i..])
      {
        if Qualifies(parts[i]) {
          return Some(ImageOf(parts[i]));
        }
        assert parts[i..][1..] == parts[i + 1..];
        i := i + 1;
      }
      assert candidates[c..][1..] == candidates[c + 1..];
      c := c + 1;
    }
    return None;
  }

  // -------------------------------------------------------------- responses

  /** 200 with the selected image, or 502 `NO_IMAGE_RETURNED`. */
  function Deliver(img: Option<Image>): Response {
    match img
    case Some(i) => Response(200, ImageJson(i.data, i.mimeType))
    case None => Response(502, PlainText("NO_IMAGE_RETURNED"))
  }

  /** The whole decision chain of `handler`, as a specification both
      versions are proved against. `reply` is the provider: what the
      `generateContent` call returns for a given request. */
  function Respond(req: Inbound, apiKey: Option<string>, reply: GenerateRequest -> ProviderReply): Outcome {
    if req.verb != "POST" then Outcome(Response(405, PlainText("Method Not Allowed")), None)
    else if !HasKey(apiKey) then Outcome(Response(500, PlainText("Missing GEMINI_API_KEY")), None)
    else
      match req.body
      case ParseThrew(e) => Outcome(Fault(e), None)
      case Parsed(b) =>
        if !ValidBody(b) then Outcome(Response(400, PlainText("Invalid input")), None)
        else
          var call := BuildRequest(apiKey.value, b);
          match reply(call)
          case Threw(e) => Outcome(Fault(e), Some(call))
          case Returned(r) => Outcome(Deliver(FirstImage(CandidatesOf(r))), Some(call))
  }

  /** The outbound calls an outcome records: none or one. */
  function Calls(o: Outcome): (calls: seq<GenerateRequest>)
    ensures |calls| <= 1
  {
    if o.call.Some? then [o.call.value] else []
  }

  // ----------------------------------------------------------- the provider

  /** The Gemini model the handler talks to. `requests` logs every
      `generateContent` call made on it. */
  class GeminiModel {
    const reply: GenerateRequest -> ProviderReply
    ghost var requests: seq<GenerateRequest>

    constructor (reply: GenerateRequest -> ProviderReply)
      ensures this.reply == reply && requests == []
    {
      this.reply := reply;
      requests := [];
    }

    method GenerateContent(request: GenerateRequest) returns (r: ProviderReply)
      modifies this
      ensures requests == old(requests) + [request]
      ensures r == reply(request)
    {
      requests := requests + [request];
      r := reply(request);
    }
  }

  // ------------------------------------------------------------- properties

  /** Any method other than POST gets 405, whatever the key or body, and
      nothing is sent to the provider. */
  lemma NonPostRejected(req: Inbound, apiKey: Option<string>, reply: GenerateRequest -> ProviderReply)
    requires req.verb != "POST"
    ensures Respond(req, apiKey, reply) == Outcome(Response(405, PlainText("Method Not Allowed")), None)
  {
  }

  /** A POST without a usable key gets 500 `Missing GEMINI_API_KEY`, and
      nothing is sent to the provider. */
  lemma MissingKeyRejected(req: Inbound, apiKey: Option<string>, reply: GenerateRequest -> ProviderReply)
    requires req.verb == "POST" && (apiKey.None? || apiKey.value == "")
    ensures Respond(req, apiKey, reply) == Outcome(Response(500, PlainText("Missing GEMINI_API_KEY")), None)
  {
  }

  /** Before the key check passes the body is not looked at: the outcome is
      the same for any two bodies and any two providers. */
  lemma MissingKeyIgnoresBody(b1: BodyRead, b2: BodyRead, apiKey: Option<string>,
                              reply1: GenerateRequest -> ProviderReply, reply2: GenerateRequest -> ProviderReply)
    requires !HasKey(apiKey)
    ensures Respond(Inbound("POST", b1), apiKey, reply1) == Respond(Inbound("POST", b2), apiKey, reply2)
  {
  }

  /** A missing or empty `character.base64` or `clothing.base64`, or a
      missing or all-whitespace prompt, gets 400 `Invalid input` and no
      outbound call. */
  lemma InvalidInputRejected(req: Inbound, apiKey: Option<string>, reply: GenerateRequest -> ProviderReply)
    requires req.verb == "POST" && HasKey(apiKey) && req.body.Parsed?
    requires var b := req.body.body;
             || b.character.None? || b.character.value.base64 == None || b.character.value.base64 == Some("")
             || b.clothing.None? || b.clothing.value.base64 == None || b.clothing.value.base64 == Some("")
             || b.prompt.None? || IsBlank(b.prompt.value)
    ensures Respond(req, apiKey, reply) == Outcome(Response(400, PlainText("Invalid input")), None)
  {
    if req.body.body.prompt.Some? {
      TrimEmptyIffBlank(req.body.body.prompt.value);
    }
  }

  /** The provider is called exactly when the HTTP method is POST, the key is
      set, the body was read and all three inputs are present, with a
      prompt that is not all whitespace. */
  lemma {:induction false} CalledIffAccepted(req: Inbound, apiKey: Option<string>, reply: GenerateRequest -> ProviderReply)
    ensures Respond(req, apiKey, reply).call.Some? <==>
              && req.verb == "POST" && HasKey(apiKey) && req.body.Parsed?
              && HasBase64(req.body.body.character) && HasBase64(req.body.body.clothing)
              && req.body.body.prompt.Some? && !IsBlank(req.body.body.prompt.value)
  {
    if req.body.Parsed? && req.body.body.prompt.Some? {
      TrimEmptyIffBlank(req.body.body.prompt.value);
    }
  }

  /** The outbound request: the key and model name, one user message with
      three parts in order: the directive followed by the unmodified prompt,
      then the character's inline data, then the clothing's. */
  lemma OutboundRequestShape(req: Inbound, apiKey: Option<string>, reply: GenerateRequest -> ProviderReply)
    requires Respond(req, apiKey, reply).call.Some?
    ensures var r := Respond(req, apiKey, reply).call.value;
            var b := req.body.body;
            && req.body.Parsed? && apiKey.Some?
            && r.apiKey == apiKey.value && r.model == "gemini-1.5-flash"
            && |r.contents| == 1 && r.contents[0].role == "user"
            && |r.contents[0].parts| == 3
            && r.contents[0].parts[0].TextPart?
            && Directive <= r.contents[0].parts[0].text
            && r.contents[0].parts[0].text[|Directive|..] == b.prompt.value
            && r.contents[0].parts[1] == InlinePart(b.character.value.base64.value, b.character.value.mimeType)
            && r.contents[0].parts[2] == InlinePart(b.clothing.value.base64.value, b.clothing.value.mimeType)
  {
    var b := req.body.body;
    assert (Directive + b.prompt.value)[|Directive|..] == b.prompt.value;
  }

  /** A 200 response carries exactly the data and MIME type of the first
      qualifying part, in candidate-then-part order, of what the provider
      returned. */
  lemma SuccessIsFirstImage(req: Inbound, apiKey: Option<string>, reply: GenerateRequest -> ProviderReply)
    requires Respond(req, apiKey, reply).response.status == 200
    ensures var o := Respond(req, apiKey, reply);
            && o.call.Some? && reply(o.call.value).Returned?
            && var cs := CandidatesOf(reply(o.call.value).result);
               exists c, i :: QualifiesAt(cs, c, i)
                 && o.response.body == ImageJson(ImageOf(PartsOf(cs[c])[i]).data, ImageOf(PartsOf(cs[c])[i]).mimeType)
                 && forall c', i' :: Before(c', i', c, i) ==> !QualifiesAt(cs, c', i')
  {
    var o := Respond(req, apiKey, reply);
    FirstImageIsFirstMatch(CandidatesOf(reply(o.call.value).result));
  }

  /** Conversely, when the provider returns and some part qualifies, the
      response is 200 and carries the first qualifying part, which is at or
      before that one. */
  lemma ImageFoundIs200(req: Inbound, apiKey: Option<string>, reply: GenerateRequest -> ProviderReply, c: int, i: int)
    requires Respond(req, apiKey, reply).call.Some?
    requires var call := Respond(req, apiKey, reply).call.value;
             && reply(call).Returned?
             && QualifiesAt(CandidatesOf(reply(call).result), c, i)
    ensures var o := Respond(req, apiKey, reply);
            && o.response.status == 200
            && var cs := CandidatesOf(reply(o.call.value).result);
               exists c', i' :: QualifiesAt(cs, c', i') && !Before(c, i, c', i')
                 && o.response.body == ImageJson(ImageOf(PartsOf(cs[c'])[i']).data, ImageOf(PartsOf(cs[c'])[i']).mimeType)
                 && forall c'', i'' :: Before(c'', i'', c', i') ==> !QualifiesAt(cs, c'', i'')
  {
    var call := Respond(req, apiKey, reply).call.value;
    var cs := CandidatesOf(reply(call).result);
    FirstImageIsFirstMatch(cs);
    var c', i' :| QualifiesAt(cs, c', i') && FirstImage(cs).value == ImageOf(PartsOf(cs[c'])[i'])
                  && forall c'', i'' :: Before(c'', i'', c', i') ==> !QualifiesAt(cs, c'', i'');
    assert Respond(req, apiKey, reply).response == Deliver(FirstImage(cs));
  }

  /** When the provider returns but no part qualifies (only text, say, or
      any level missing), the response is 502 `NO_IMAGE_RETURNED`. */
  lemma NoImageIs502(req: Inbound, apiKey: Option<string>, reply: GenerateRequest -> ProviderReply)
    requires Respond(req, apiKey, reply).call.Some?
    requires var call := Respond(req, apiKey, reply).call.value;
             && reply(call).Returned?
             && forall c, i :: !QualifiesAt(CandidatesOf(reply(call).result), c, i)
    ensures Respond(req, apiKey, reply).response == Response(502, PlainText("NO_IMAGE_RETURNED"))
  {
    var call := Respond(req, apiKey, reply).call.value;
    FirstImageIsFirstMatch(CandidatesOf(reply(call).result));
  }

  /** An error thrown while reading the body, or by the provider, gets 500
      with its message when that is a string and `Unknown error` otherwise. */
  lemma FaultsAre500(req: Inbound, apiKey: Option<string>, reply: GenerateRequest -> ProviderReply, e: Thrown)
    requires req.verb == "POST" && HasKey(apiKey)
    requires req.body == ParseThrew(e)
             || (Respond(req, apiKey, reply).call.Some? && reply(Respond(req, apiKey, reply).call.value) == Threw(e))
    ensures Respond(req, apiKey, reply).response
            == Response(500, PlainText(if e.message.Some? then e.message.value else "Unknown error"))
  {
  }

  /** Every path ends in a response with one of the five statuses; 200
      is the only one with a JSON body, and that body names a non-empty
      image of an `image/` type. */
  lemma ResponseShape(req: Inbound, apiKey: Option<string>, reply: GenerateRequest -> ProviderReply)
    ensures var r := Respond(req, apiKey, reply).response;
            && r.status in {200, 400, 405, 500, 502}
            && (r.status == 200 <==> r.body.ImageJson?)
            && (r.body.ImageJson? ==> r.body.imageBase64 != "" && "image/" <= r.body.mimeType)
  {
    if req.verb == "POST" && HasKey(apiKey) && req.body.Parsed? && ValidBody(req.body.body) {
      var call := BuildRequest(apiKey.value, req.body.body);
      if reply(call).Returned? {
        var img := FirstImage(CandidatesOf(reply(call).result));
        assert Respond(req, apiKey, reply).response == Deliver(img);
      }
    }
  }

  /** The example of two candidates where only the second part of the
      second candidate carries an `image/png` inline image. */
  lemma SecondCandidateSecondPart(data: string)
    requires data != ""
    ensures var textOnly := Some(Part(Some("text"), None));
            var png := Some(Part(None, Some(InlineData(Some(data), Some("image/png")))));
            var c1 := Some(Candidate(Some(CandidateContent(Some([textOnly, textOnly])))));
            var c2 := Some(Candidate(Some(CandidateContent(Some([textOnly, png])))));
            FirstImage([c1, c2]) == Some(Image(data, "image/png"))
  {
    var textOnly := Some(Part(Some("text"), None));
    var png := Some(Part(None, Some(InlineData(Some(data), Some("image/png")))));
    assert FirstInParts([textOnly]) == None;
    assert FirstInParts([textOnly, textOnly]) == None by {
      assert [textOnly, textOnly][1..] == [textOnly];
    }
    assert FirstInParts([textOnly, png]) == Some(Image(data, "image/png")) by {
      assert [textOnly, png][1..] == [png];
    }
    var c1 := Some(Candidate(Some(CandidateContent(Some([textOnly, textOnly])))));
    var c2 := Some(Candidate(Some(CandidateContent(Some([textOnly, png])))));
    assert [c1, c2][1..] == [c2];
  }
}
