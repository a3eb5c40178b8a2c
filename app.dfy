/** The `App` component's decision logic: the `t` lookup with its English
    fallback, the generate gate, the preview URIs, the mapping of thrown
    errors to user-facing messages, and what `handleGenerate` does to the
    component state. */
module App {
  import opened Wrappers
  import opened Text
  import opened Images
  import Service

  datatype Language = Ko | En

  /** The translation keys (`keyof typeof translations.ko`). */
  datatype Key =
    | AppTitle | AppSubtitle | AppDescription | Step1Title | CharacterImageTitle
    | ClothingImageTitle | Step2Title | PromptPlaceholder | ModerationWarning
    | GenerateButton | GeneratingButton | ResultTitle | ResultPlaceholder | ErrorTitle
    | ErrorGeneric | ErrorNoImage | ErrorGenerationFailed | FileTypeError | FileSizeError
    | UploadClick | UploadHint | LoadingMessage | LoadingSubMessage | LangKo | LangEn
    | DownloadButton

  /** The two translation tables. Their texts are not part of the model. */
  datatype Catalog = Catalog(ko: map<Key, string>, en: map<Key, string>)

  /** The English table defines every key, as the source's table does. */
  predicate Complete(c: Catalog) {
    forall k: Key :: k in c.en
  }

  function Table(c: Catalog, lang: Language): map<Key, string> {
    match lang
    case Ko => c.ko
    case En => c.en
  }

  /** `t(key)`: `translations[language][key] || translations['en'][key]`. */
  function Translate(c: Catalog, lang: Language, key: Key): (r: string)
    requires Complete(c)
    ensures r == c.en[key] || (key in Table(c, lang) && r == Table(c, lang)[key])
    ensures c.en[key] != "" ==> r != ""
  {
    var table := Table(c, lang);
    if key in table && table[key] != "" then table[key] else c.en[key]
  }

  /** The current language's entry is used when it is present and
      non-empty; otherwise the English one. */
  lemma TranslateFallsBack(c: Catalog, lang: Language, key: Key)
    requires Complete(c)
    ensures key in Table(c, lang) && Table(c, lang)[key] != "" ==> Translate(c, lang, key) == Table(c, lang)[key]
    ensures (key !in Table(c, lang) || Table(c, lang)[key] == "") ==> Translate(c, lang, key) == c.en[key]
    ensures Translate(c, En, key) == c.en[key]
  {
  }

  // ------------------------------------------------------------ error text

  /** Which message `handleGenerate` shows for a thrown value. */
  datatype Alert = NoImage | GenerationFailedWith(detail: string) | Generic

  /** An `Error` whose message is exactly `NO_IMAGE_RETURNED`, one whose
      message starts with `GENERATION_FAILED:` (carrying the message with
      that first occurrence removed), or anything else. */
  function AlertFor(err: Service.Failure): (a: Alert)
    ensures a.NoImage? ==> err == Service.ErrorObject("NO_IMAGE_RETURNED")
    ensures a.GenerationFailedWith? ==> err.ErrorObject? && "GENERATION_FAILED:" <= err.message
  {
    match err
    case NonError => Generic
    case ErrorObject(m) =>
      if m == "NO_IMAGE_RETURNED" then NoImage
      else if "GENERATION_FAILED:" <= m then GenerationFailedWith(ReplaceFirst(m, "GENERATION_FAILED:", ""))
      else Generic
  }

  function AlertText(c: Catalog, lang: Language, a: Alert): string
    requires Complete(c)
  {
    match a
    case NoImage => Translate(c, lang, ErrorNoImage)
    case GenerationFailedWith(detail) => ReplaceFirst(Translate(c, lang, ErrorGenerationFailed), "{message}", detail)
    case Generic => Translate(c, lang, ErrorGeneric)
  }

  /** The `errorMessage` the catch block computes. */
  function ErrorMessage(c: Catalog, lang: Language, err: Service.Failure): string
    requires Complete(c)
  {
    AlertText(c, lang, AlertFor(err))
  }

  /** The three cases of the mapping, and the text after the prefix as the
      detail of a `GENERATION_FAILED:` message. */
  lemma {:induction false} AlertCases(err: Service.Failure)
    ensures AlertFor(err) == NoImage <==> err == Service.ErrorObject("NO_IMAGE_RETURNED")
    ensures err.ErrorObject? && "GENERATION_FAILED:" <= err.message ==>
              AlertFor(err) == GenerationFailedWith(err.message[18..])
    ensures AlertFor(err) == Generic <==>
              err.NonError? || (err.message != "NO_IMAGE_RETURNED" && !("GENERATION_FAILED:" <= err.message))
  {
    if err.ErrorObject? && "GENERATION_FAILED:" <= err.message {
      ReplacePrefixByEmpty(err.message, "GENERATION_FAILED:");
    }
  }

  /** With a detail free of `$`, the shown text is the template with its
      first `{message}` replaced by the detail; a template without
      `{message}` is shown as it is. */
  lemma GenerationFailedText(c: Catalog, lang: Language, detail: string)
    requires Complete(c) && '$' !in detail
    ensures var template := Translate(c, lang, ErrorGenerationFailed);
            var shown := AlertText(c, lang, GenerationFailedWith(detail));
            && (IndexOf(template, "{message}").Some? ==>
                  var i := IndexOf(template, "{message}").value;
                  shown == template[..i] + detail + template[i + 9..])
            && (IndexOf(template, "{message}").None? ==> shown == template)
  {
  }

  /** The detail is spliced in through `replace`, so `$` sequences in it
      are expanded: a failure whose text is `$&` shows the template with
      its own `{message}` placeholder instead of any detail. */
  lemma {:induction false} DollarDetailShowsPlaceholder(c: Catalog, lang: Language)
    requires Complete(c)
    requires IndexOf(Translate(c, lang, ErrorGenerationFailed), "{message}").Some?
    ensures ErrorMessage(c, lang, Service.ErrorObject("GENERATION_FAILED:$&"))
            == Translate(c, lang, ErrorGenerationFailed)
  {
    AlertCases(Service.ErrorObject("GENERATION_FAILED:$&"));
    assert "GENERATION_FAILED:$&"[18..] == "$&";
    ReplaceByMatchUnchanged(Translate(c, lang, ErrorGenerationFailed), "{message}");
  }

  // ------------------------------------------------------------- the gate

  /** `canGenerate`: both images set, a prompt that is not blank after
      `trim()`, and no generation in flight. */
  function CanGenerate(character: Option<ImageData>, clothing: Option<ImageData>, prompt: string, isLoading: bool): bool {
    character.Some? && clothing.Some? && Trim(prompt) != "" && !isLoading
  }

  lemma CanGenerateIff(character: Option<ImageData>, clothing: Option<ImageData>, prompt: string, isLoading: bool)
    ensures CanGenerate(character, clothing, prompt, isLoading) <==>
              character.Some? && clothing.Some? && !IsBlank(prompt) && !isLoading
  {
    TrimEmptyIffBlank(prompt);
  }

  /** The `uploadedImage` preview passed to each uploader. */
  function Preview(img: Option<ImageData>): (uri: Option<string>)
    ensures uri.Some? <==> img.Some?
    ensures uri.Some? ==> "data:" <= uri.value
  {
    match img
    case Some(i) => Some(DataUri(i.mimeType, i.base64))
    case None => None
  }

  /** Splitting a preview on "," and taking index 1 recovers the stored
      base64 text when neither it nor the MIME type contains a comma. */
  lemma PreviewRecoversBase64(img: ImageData)
    requires ',' !in img.mimeType && ',' !in img.base64
    ensures Preview(Some(img)).Some? && Piece(Preview(Some(img)).value, ',', 1) == Some(img.base64)
  {
    DataUriSecondPiece(img.mimeType, img.base64);
  }

  // -------------------------------------------------------- the component

  /** The component's state. `requests` logs what the service sent. */
  class AppState {
    const catalog: Catalog
    var characterImage: Option<ImageData>
    var clothingImage: Option<ImageData>
    var prompt: string
    var generatedImage: Option<string>
    var isLoading: bool
    var error: Option<string>
    var language: Language
    ghost var requests: seq<Service.ClientRequest>

    constructor (catalog: Catalog)
      ensures this.catalog == catalog
      ensures characterImage == None && clothingImage == None && prompt == ""
      ensures generatedImage == None && !isLoading && error == None && language == Ko
      ensures requests == []
    {
      this.catalog := catalog;
      characterImage, clothingImage, prompt := None, None, "";
      generatedImage, isLoading, error, language := None, false, None, Ko;
      requests := [];
    }

    /** The uploader passes `split(',')[1]` of a `readAsDataURL` result,
        which always contains a comma, so `base64` is always defined here
        (`Uploader.StripPrefix`). */
    method HandleCharacterUpload(base64: string, mimeType: string)
      modifies this
      ensures characterImage == Some(ImageData(base64, mimeType))
      ensures clothingImage == old(clothingImage) && prompt == old(prompt) && isLoading == old(isLoading)
      ensures generatedImage == old(generatedImage) && error == old(error) && language == old(language)
      ensures requests == old(requests)
    {
      characterImage := Some(ImageData(base64, mimeType));
    }

    method HandleClothingUpload(base64: string, mimeType: string)
      modifies this
      ensures clothingImage == Some(ImageData(base64, mimeType))
      ensures characterImage == old(characterImage) && prompt == old(prompt) && isLoading == old(isLoading)
      ensures generatedImage == old(generatedImage) && error == old(error) && language == old(language)
      ensures requests == old(requests)
    {
      clothingImage := Some(ImageData(base64, mimeType));
    }

    /** `handleGenerate`: nothing happens unless the gate is open; otherwise
        it runs one generation. `stored` and `configured` are
        `localStorage`'s `API_BASE` and `VITE_API_BASE`; `fetch` is the
        network. */
    method HandleGenerate(stored: Option<string>, configured: Option<string>, fetch: Service.ClientRequest -> Service.Delivery)
      requires Complete(catalog)
      modifies this
      ensures !old(CanGenerate(characterImage, clothingImage, prompt, isLoading)) ==> unchanged(this)
      ensures old(CanGenerate(characterImage, clothingImage, prompt, isLoading)) ==> Generated(stored, configured, fetch)
    {
      if !CanGenerate(characterImage, clothingImage, prompt, isLoading) {
        return;
      }
      Generate(stored, configured, fetch);
    }

    /** The state after one generation from the old state: loading is over,
        the inputs are as they were, one request was sent, and either the
        generated image or the mapped error message is set. */
    twostate predicate Generated(stored: Option<string>, configured: Option<string>, fetch: Service.ClientRequest -> Service.Delivery)
      reads this
      requires Complete(catalog)
    {
      && old(characterImage).Some? && old(clothingImage).Some?
      && var character, clothing := old(characterImage).value, old(clothingImage).value;
         var result := Service.GenerateDressUpImage(stored, configured, character, clothing, old(prompt), fetch);
         && !isLoading
         && characterImage == old(characterImage) && clothingImage == old(clothingImage)
         && prompt == old(prompt) && language == old(language)
         && generatedImage == (if result.Ok? then Some(result.value) else None)
         && error == (if result.Err? then Some(ErrorMessage(catalog, language, result.error)) else None)
         && requests == old(requests) + [Service.BuildRequest(stored, configured, character, clothing, old(prompt))]
    }

    /** The body of `handleGenerate` past the gate. */
    method Generate(stored: Option<string>, configured: Option<string>, fetch: Service.ClientRequest -> Service.Delivery)
      requires Complete(catalog) && characterImage.Some? && clothingImage.Some?
      modifies this
      ensures Generated(stored, configured, fetch)
    {
      var character, clothing, text := characterImage.value, clothingImage.value, prompt;
      isLoading := true;
      error := None;
      generatedImage := None;
      requests := requests + [Service.BuildRequest(stored, configured, character, clothing, text)];
      var result := Service.GenerateDressUpImage(stored, configured, character, clothing, text, fetch);
      Settle(result);
    }

    /** The `try`/`catch`/`finally` once the service has answered: the
        image on success, the mapped message on failure, and loading is
        over either way. */
    method Settle(result: Result<string, Service.Failure>)
      requires Complete(catalog)
      modifies this
      ensures !isLoading
      ensures generatedImage == (if result.Ok? then Some(result.value) else old(generatedImage))
      ensures error == (if result.Err? then Some(ErrorMessage(catalog, language, result.error)) else old(error))
      ensures characterImage == old(characterImage) && clothingImage == old(clothingImage)
      ensures prompt == old(prompt) && language == old(language) && requests == old(requests)
    {
      match result {
        case Ok(uri) =>
          generatedImage := Some(uri);
        case Err(e) =>
          error := Some(ErrorMessage(catalog, language, e));
      }
      isLoading := false;
    }
  }
}
