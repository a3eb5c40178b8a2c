/** Facts that connect the proxy, the client service and the app: what a
    proxy answer becomes once the client has classified it and the app has
    chosen a message for it. */
module Pipeline {
  import opened Wrappers
  import opened Text
  import opened Images
  import Proxy
  import Service
  import App

  /** The transport between proxy and client: the client sees the proxy's
      status; a text body reads back as that text, and the JSON image body
      parses to its two fields. */
  predicate Carries(r: Proxy.Response, d: Service.Delivery) {
    && d.Delivered? && d.status == r.status
    && (r.body.PlainText? ==> d.text == Some(r.body.text))
    && (r.body.ImageJson? ==>
          d.json == Service.JsonParsed(Some(Service.ImagePayload(Some(r.body.imageBase64), Some(r.body.mimeType)))))
  }

  /** A 200 from the proxy becomes the data URI of the selected image; every
      other proxy answer becomes `GENERATION_FAILED:` followed by its text
      (or by the status text when the proxy's text is empty). */
  lemma ProxyAnswerAtClient(req: Proxy.Inbound, apiKey: Option<string>,
                            reply: Proxy.GenerateRequest -> Proxy.ProviderReply, d: Service.Delivery)
    requires Carries(Proxy.Respond(req, apiKey, reply).response, d)
    ensures var r := Proxy.Respond(req, apiKey, reply).response;
            && (r.status == 200 ==>
                  r.body.ImageJson? && Service.Classify(d) == Ok(DataUri(r.body.mimeType, r.body.imageBase64)))
            && (r.status != 200 ==>
                  r.body.PlainText? &&
                  Service.Classify(d) == Err(Service.ErrorObject("GENERATION_FAILED:" +
                                               (if r.body.text != "" then r.body.text else d.statusText))))
  {
    Proxy.ResponseShape(req, apiKey, reply);
  }

  /** The proxy's 502 `NO_IMAGE_RETURNED` is shown with the
      `errorGenerationFailed` template, its `{message}` replaced by
      `NO_IMAGE_RETURNED`, and not with `errorNoImage`. */
  lemma {:induction false} NoImageShownAsGenerationFailed(c: App.Catalog, lang: App.Language, d: Service.Delivery)
    requires App.Complete(c)
    requires d.Delivered? && d.status == 502 && d.text == Some("NO_IMAGE_RETURNED")
    ensures Service.Classify(d).Err?
    ensures App.AlertFor(Service.Classify(d).error) == App.GenerationFailedWith("NO_IMAGE_RETURNED")
    ensures App.ErrorMessage(c, lang, Service.Classify(d).error)
            == ReplaceFirst(App.Translate(c, lang, App.ErrorGenerationFailed), "{message}", "NO_IMAGE_RETURNED")
  {
    Service.ProxyNoImageIsGenerationFailed(d);
    App.AlertCases(Service.Classify(d).error);
    assert "GENERATION_FAILED:NO_IMAGE_RETURNED"[18..] == "NO_IMAGE_RETURNED";
  }

  /** No answer of this proxy makes the app show `errorNoImage`: every
      failure it reports reaches the app as a `GENERATION_FAILED:` message
      whose detail is the proxy's text (or the status text). */
  lemma {:induction false} ProxyNeverShowsNoImage(req: Proxy.Inbound, apiKey: Option<string>,
                                                  reply: Proxy.GenerateRequest -> Proxy.ProviderReply, d: Service.Delivery)
    requires Carries(Proxy.Respond(req, apiKey, reply).response, d)
    ensures var r := Proxy.Respond(req, apiKey, reply).response;
            Service.Classify(d).Err? ==>
              && r.body.PlainText?
              && App.AlertFor(Service.Classify(d).error)
                 == App.GenerationFailedWith(if r.body.text != "" then r.body.text else d.statusText)
  {
    ProxyAnswerAtClient(req, apiKey, reply, d);
    var r := Proxy.Respond(req, apiKey, reply).response;
    if Service.Classify(d).Err? {
      var detail := if r.body.text != "" then r.body.text else d.statusText;
      App.AlertCases(Service.Classify(d).error);
      assert ("GENERATION_FAILED:" + detail)[18..] == detail;
    }
  }
}
