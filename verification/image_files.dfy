/**
 * The checks an uploaded image goes through, written out identically for each gallery file
 * (server/src/routes/reviews.ts) and for an avatar (server/src/routes/user.ts).
 */
module ImageFiles {
  import opened Outcomes
  import opened JsNumbers

  /** What the handlers read of a multer file: its size in bytes and its declared MIME type. */
  datatype UploadedFile = UploadedFile(size: nat, mimetype: string)

  const MAX_SIZE_MB: nat := 3
  const MAX_BYTES: nat := 1024 * 1024 * MAX_SIZE_MB

  const NO_FILE := "No file was uploaded."
  /** The template `Size exceeded ${maxSizeMB} MB`. */
  const SIZE_EXCEEDED := "Size exceeded " + DecimalString(MAX_SIZE_MB) + " MB"
  const BAD_FORMAT := "File format is incorrect."

  predicate IsAcceptedType(mimetype: string) {
    mimetype == "image/jpeg" || mimetype == "image/png"
  }

  /** The message of the first check a file fails (missing, then too large, then wrong type), or None when it passes. */
  function CheckImage(file: Option<UploadedFile>): (error: Option<string>)
    ensures error.None? <==> file.Some? && file.value.size <= MAX_BYTES && IsAcceptedType(file.value.mimetype)
    ensures file.None? ==> error == Some(NO_FILE)
    ensures file.Some? && file.value.size > MAX_BYTES ==> error == Some(SIZE_EXCEEDED)
    ensures file.Some? && file.value.size <= MAX_BYTES && !IsAcceptedType(file.value.mimetype) ==> error == Some(BAD_FORMAT)
  {
    if file.None? then Some(NO_FILE)
    else if file.value.size > MAX_BYTES then Some(SIZE_EXCEEDED)
    else if !IsAcceptedType(file.value.mimetype) then Some(BAD_FORMAT)
    else None
  }

  /** The limit is inclusive: a file of exactly 3 MiB passes, one byte more does not. */
  lemma SizeLimitIsInclusive(mimetype: string)
    requires IsAcceptedType(mimetype)
    ensures MAX_BYTES == 3145728
    ensures CheckImage(Some(UploadedFile(3145728, mimetype))) == None
    ensures CheckImage(Some(UploadedFile(3145729, mimetype))) == Some("Size exceeded 3 MB")
  {
    assert DecimalDigit(3) == '3';
    assert DecimalString(3) == "3";
    assert SIZE_EXCEEDED == "Size exceeded 3 MB";
  }
}
