/** `ImageUploader.handleFileChange`: validate the picked file, then read it
    as a data URL and hand the base64 part to the parent. The browser's
    `FileReader` is abstracted to the data URL it produces. */
module Uploader {
  import opened Wrappers
  import opened Text
  import opened Images

  const AllowedTypes: seq<string> := ["image/png", "image/jpeg", "image/webp"]
  const MaxBytes: nat := 4 * 1024 * 1024

  /** The picked file's `type` and `size`. */
  datatype File = File(mimeType: string, size: nat)

  datatype Verdict = WrongType | TooLarge | Accepted

  /** The type check comes first, then the size check. */
  function Validate(f: File): (v: Verdict)
    ensures v == Accepted <==> f.mimeType in AllowedTypes && f.size <= MaxBytes
    ensures v == TooLarge ==> f.mimeType in AllowedTypes
  {
    if f.mimeType !in AllowedTypes then WrongType
    else if f.size > MaxBytes then TooLarge
    else Accepted
  }

  /** One call of the `onImageUpload` callback. `base64` is `None` when
      `result.split(',')[1]` is `undefined`. */
  datatype Upload = Upload(base64: Option<string>, mimeType: string)

  /** `result.split(',')[1]`: defined exactly when the data URL contains a
      comma, which a `readAsDataURL` result always does; the piece then
      contains no comma. */
  function StripPrefix(dataUrl: string): (r: Option<string>)
    ensures r.Some? <==> ',' in dataUrl
    ensures r.Some? ==> ',' !in r.value
  {
    SplitHasSecondPiece(dataUrl, ',');
    Piece(dataUrl, ',', 1)
  }

  class ImageUploader {
    /** The two translated messages it was given. */
    const fileTypeError: string
    const fileSizeError: string
    /** The error shown under the upload box. */
    var error: Option<string>
    /** Files handed to `readAsDataURL`, in order. */
    var readFiles: seq<File>
    /** Calls of `onImageUpload`, in order. */
    var uploads: seq<Upload>

    constructor (fileTypeError: string, fileSizeError: string)
      ensures this.fileTypeError == fileTypeError && this.fileSizeError == fileSizeError
      ensures error == None && readFiles == [] && uploads == []
    {
      this.fileTypeError := fileTypeError;
      this.fileSizeError := fileSizeError;
      error := None;
      readFiles := [];
      uploads := [];
    }

    /** `picked` is `event.target.files?.[0]`; `readerResult` is the reader's
        `result` when `onloadend` fires (`None` if the read failed, in which
        case the callback throws before calling `onImageUpload`). */
    method HandleFileChange(picked: Option<File>, readerResult: Option<string>)
      modifies this
      ensures picked.None? ==> error == old(error) && readFiles == old(readFiles) && uploads == old(uploads)
      ensures picked.Some? && Validate(picked.value) == WrongType ==>
                error == Some(fileTypeError) && readFiles == old(readFiles) && uploads == old(uploads)
      ensures picked.Some? && Validate(picked.value) == TooLarge ==>
                error == Some(fileSizeError) && readFiles == old(readFiles) && uploads == old(uploads)
      ensures picked.Some? && Validate(picked.value) == Accepted ==>
                && error == None && readFiles == old(readFiles) + [picked.value]
                && uploads == old(uploads) +
                     (if readerResult.Some? then [Upload(StripPrefix(readerResult.value), picked.value.mimeType)] else [])
    {
      if picked.None? {
        return;
      }
      var file := picked.value;
      if file.mimeType !in AllowedTypes {
        error := Some(fileTypeError);
        return;
      }
      if file.size > 4 * 1024 * 1024 {
        error := Some(fileSizeError);
        return;
      }
      error := None;
      readFiles := readFiles + [file];
      if readerResult.Some? {
        var base64 := StripPrefix(readerResult.value);
        uploads := uploads + [Upload(base64, file.mimeType)];
      }
    }
  }

  // ------------------------------------------------------------- properties

  /** A type outside the allow-list is rejected as such whatever the size:
      an oversized file of a bad type gets the type error. */
  lemma TypeCheckedFirst(f: File)
    requires f.mimeType != "image/png" && f.mimeType != "image/jpeg" && f.mimeType != "image/webp"
    ensures Validate(f) == WrongType
  {
  }

  /** For an allowed type, the file is too large exactly when it has more
      than 4 MiB; exactly 4 MiB passes. */
  lemma SizeLimit(f: File)
    requires f.mimeType in {"image/png", "image/jpeg", "image/webp"}
    ensures Validate(f) == TooLarge <==> f.size > 4194304
    ensures Validate(f) == Accepted <==> f.size <= 4194304
  {
  }

  /** When the reader yields `data:<type>;base64,<b64>` for an accepted file,
      the callback receives exactly `b64` (base64 text has no comma). */
  lemma UploadRecoversBase64(f: File, base64: string)
    requires Validate(f) == Accepted && ',' !in base64
    ensures StripPrefix(DataUri(f.mimeType, base64)) == Some(base64)
  {
    assert ',' !in f.mimeType by {
      assert f.mimeType == "image/png" || f.mimeType == "image/jpeg" || f.mimeType == "image/webp";
    }
    DataUriSecondPiece(f.mimeType, base64);
  }
}
