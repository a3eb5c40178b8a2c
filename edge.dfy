/** The edge-runtime version of the proxy (`api/gemini-dress.ts`): a handler
    that returns a `Response` value. The provider is the `GeminiModel`
    object it is given; `process.env.GEMINI_API_KEY` is the `apiKey`
    parameter. */
module EdgeProxy {
  import opened Wrappers
  import opened Text
  import opened Proxy

  /** Checks in order: method, key, body, inputs; then one provider call and
      the scan. Proved to give the response `Respond` specifies and to make
      exactly the outbound calls it records. */
  method Handler(req: Inbound, apiKey: Option<string>, gemini: GeminiModel) returns (resp: Response)
    modifies gemini
    ensures resp == Respond(req, apiKey, gemini.reply).response
    ensures gemini.requests == old(gemini.requests) + Calls(Respond(req, apiKey, gemini.reply))
  {
    if req.verb != "POST" {
      return Response(405, PlainText("Method Not Allowed"));
    }
    // Inside the try block from here on; the catch clause is `Fault`.
    if apiKey.None? || apiKey.value == "" {
      return Response(500, PlainText("Missing GEMINI_API_KEY"));
    }
    if req.body.ParseThrew? {
      return Fault(req.body.error);
    }
    var body := req.body.body;
    if !HasBase64(body.character) || !HasBase64(body.clothing) || body.prompt.None? || Trim(body.prompt.value) == "" {
      return Response(400, PlainText("Invalid input"));
    }
    var reply := gemini.GenerateContent(BuildRequest(apiKey.value, body));
    if reply.Threw? {
      return Fault(reply.error);
    }
    var found := FindImage(reply.result);
    if found.Some? {
      return Response(200, ImageJson(found.value.data, found.value.mimeType));
    }
    return Response(502, PlainText("NO_IMAGE_RETURNED"));
  }
}
