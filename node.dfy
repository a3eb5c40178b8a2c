/** The Node-style version of the proxy (`api_backup/api/gemini-dress.ts`):
    the handler writes its answer into a response object and returns. */
module NodeProxy {
  import opened Wrappers
  import opened Text
  import opened Proxy
  import EdgeProxy

  /** The part of Vercel's `res` object the handler uses. `sent` logs every
      `send`/`json` call with the status code in force at that moment. */
  class VercelResponse {
    var statusCode: int
    var sent: seq<Response>

    constructor ()
      ensures statusCode == 200 && sent == []
    {
      statusCode := 200;
      sent := [];
    }

    /** `res.status(code)`. */
    method Status(code: int)
      modifies this
      ensures statusCode == code && sent == old(sent)
    {
      statusCode := code;
    }

    /** `res.send(text)`. */
    method Send(text: string)
      modifies this
      ensures statusCode == old(statusCode)
      ensures sent == old(sent) + [Response(statusCode, PlainText(text))]
    {
      sent := sent + [Response(statusCode, PlainText(text))];
    }

    /** `res.json({ imageBase64, mimeType })`. */
    method Json(imageBase64: string, mimeType: string)
      modifies this
      ensures statusCode == old(statusCode)
      ensures sent == old(sent) + [Response(statusCode, ImageJson(imageBase64, mimeType))]
    {
      sent := sent + [Response(statusCode, ImageJson(imageBase64, mimeType))];
    }
  }

  /** Every path sends exactly one response, the one `Respond` specifies,
      and calls the provider only as `Respond` records. `req.body` being
      read is the `body` field of `req`. */
  method Handler(req: Inbound, apiKey: Option<string>, res: VercelResponse, gemini: GeminiModel)
    modifies res, gemini
    ensures res.sent == old(res.sent) + [Respond(req, apiKey, gemini.reply).response]
    ensures gemini.requests == old(gemini.requests) + Calls(Respond(req, apiKey, gemini.reply))
  {
    if req.verb != "POST" {
      res.Status(405);
      res.Send("Method Not Allowed");
      return;
    }
    // Inside the try block from here on.
    if apiKey.None? || apiKey.value == "" {
      res.Status(500);
      res.Send("Missing GEMINI_API_KEY");
      return;
    }
    if req.body.ParseThrew? {
      res.Status(500);
      res.Send(FaultMessage(req.body.error));
      return;
    }
    var body := req.body.body;
    if !HasBase64(body.character) || !HasBase64(body.clothing) || body.prompt.None? || Trim(body.prompt.value) == "" {
      res.Status(400);
      res.Send("Invalid input");
      return;
    }
    var reply := gemini.GenerateContent(BuildRequest(apiKey.value, body));
    if reply.Threw? {
      res.Status(500);
      res.Send(FaultMessage(reply.error));
      return;
    }
    var found := FindImage(reply.result);
    if found.Some? {
      res.Status(200);
      res.Json(found.value.data, found.value.mimeType);
      return;
    }
    res.Status(502);
    res.Send("NO_IMAGE_RETURNED");
  }

  /** Both versions, given the same request, key and provider behaviour,
      answer with the same status and body and make the same outbound
      calls. */
  method SameAsEdge(req: Inbound, apiKey: Option<string>, reply: GenerateRequest -> ProviderReply)
    returns (edge: Response, node: Response, ghost edgeCalls: seq<GenerateRequest>, ghost nodeCalls: seq<GenerateRequest>)
    ensures edge == node && edge == Respond(req, apiKey, reply).response
    ensures edgeCalls == nodeCalls && |nodeCalls| <= 1
    ensures edgeCalls == Calls(Respond(req, apiKey, reply))
  {
    var g1 := new GeminiModel(reply);
    edge := EdgeProxy.Handler(req, apiKey, g1);
    var g2 := new GeminiModel(reply);
    var res := new VercelResponse();
    Handler(req, apiKey, res, g2);
    node := res.sent[0];
    edgeCalls, nodeCalls := g1.requests, g2.requests;
  }
}
