/** The image payload that travels between the uploader, the app state and
    the service, and the `data:` URI built from it for display. */
module Images {
  import opened Wrappers
  import opened Text

  /** An uploaded image: base64 text without the data-URI prefix, and its
      MIME type. */
  datatype ImageData = ImageData(base64: string, mimeType: string)

  /** `data:${mimeType};base64,${base64}`, the form used both for upload
      previews and for the generated image. */
  function DataUri(mimeType: string, base64: string): (uri: string)
    ensures "data:" <= uri && |uri| == 13 + |mimeType| + |base64|
    ensures uri[|uri| - |base64|..] == base64
  {
    "data:" + mimeType + ";base64," + base64
  }

  /** The data URI of an image is `data:` followed by the MIME type: the
      MIME type can be read back from between `data:` and `;base64,`. */
  lemma DataUriRecoversMimeType(mimeType: string, base64: string)
    ensures var uri := DataUri(mimeType, base64);
            uri[5..5 + |mimeType|] == mimeType && uri[5 + |mimeType|..5 + |mimeType| + 8] == ";base64,"
  {
  }

  /** Splitting a data URI on "," and taking the second piece gives back
      the base64 text, provided neither the MIME type nor the base64 text
      contains a comma. */
  lemma {:induction false} DataUriSecondPiece(mimeType: string, base64: string)
    requires ',' !in mimeType && ',' !in base64
    ensures Piece(DataUri(mimeType, base64), ',', 1) == Some(base64)
  {
    var head := "data:" + mimeType + ";base64";
    assert DataUri(mimeType, base64) == head + [','] + base64;
    assert forall i :: 0 <= i < |head| ==> head[i] != ',' by {
      forall i | 0 <= i < |head| ensures head[i] != ',' {
        if 5 <= i < 5 + |mimeType| {
          assert head[i] == mimeType[i - 5];
        }
      }
    }
    SplitAtFirst(head, ',', base64);
    SplitNoSeparator(base64, ',');
  }
}
