/** The image service: validation with error codes and its DNI, banner and
    portal wrappers, the sanitised unique file name, the size-and-dimension
    compression decision, the validate-then-maybe-compress pipeline and the
    batch partition into valid and invalid files. */
module ImageService {
  import opened Wrappers
  import opened Text
  import opened Sorting
  import opened FirebaseTypes
  import opened FirebaseErrors
  import opened ImageProcessing

  // ---------------------------------------------------------------------
  // Validation

  datatype ServiceValidation = ServiceValidation(isValid: bool, error: Option<string>, errorCode: Option<string>)

  /** `Math.round(maxSize / (1024 * 1024))`: the size in MiB, halves rounded up. */
  function RoundMiB(maxSize: nat): (r: nat)
    ensures r * MIB <= maxSize + MIB / 2 < (r + 1) * MIB
  {
    (maxSize + MIB / 2) / MIB
  }

  function TooLargeMessage(maxSize: nat): string {
    "El archivo es demasiado grande. Máximo " + NatToString(RoundMiB(maxSize)) + "MB."
  }

  /** `validateImageFile(file, maxSize)`: presence, then type, then size in
      bytes; nothing rejects an empty file. */
  function ValidateImageFile(file: Option<File>, maxSize: nat): (r: ServiceValidation)
    ensures r.isValid <==> file.Some? && file.value.mimeType in ALLOWED_IMAGE_TYPES && file.value.size <= maxSize
    ensures r.isValid <==> r.errorCode.None?
    ensures file.None? ==> r == ServiceValidation(false, Some(FILE_REQUIRED_MSG), Some("file-required"))
    ensures file.Some? && file.value.mimeType !in ALLOWED_IMAGE_TYPES ==>
      r == ServiceValidation(false, Some(INVALID_FILE_TYPE_MSG), Some("invalid-file-type"))
    ensures file.Some? && file.value.mimeType in ALLOWED_IMAGE_TYPES && file.value.size > maxSize ==>
      r == ServiceValidation(false, Some(TooLargeMessage(maxSize)), Some("file-too-large"))
  {
    match file
    case None => ServiceValidation(false, Some(FILE_REQUIRED_MSG), Some("file-required"))
    case Some(f) =>
      if f.mimeType !in ALLOWED_IMAGE_TYPES then
        ServiceValidation(false, Some(INVALID_FILE_TYPE_MSG), Some("invalid-file-type"))
      else if f.size > maxSize then
        ServiceValidation(false, Some(TooLargeMessage(maxSize)), Some("file-too-large"))
      else ServiceValidation(true, None, None)
  }

  /** The three image kinds the service validates. */
  datatype ValidationType = Dni | Banner | PortalMemoriaImage

  /** The wrappers `validateDniImage`, `validateBannerImage` and
      `validatePortalMemoriaImage`: the byte limit of each kind. */
  function SizeLimit(t: ValidationType): (limit: nat)
    ensures t.Dni? ==> limit == 5 * 1024 * 1024
    ensures !t.Dni? ==> limit == 10 * 1024 * 1024
  {
    match t
    case Dni => MAX_DNI_IMAGE_SIZE
    case Banner => MAX_BANNER_IMAGE_SIZE
    case PortalMemoriaImage => MAX_PORTAL_IMAGE_SIZE
  }

  function ValidateFor(file: Option<File>, t: ValidationType): (r: ServiceValidation)
    ensures r.isValid <==> file.Some? && file.value.mimeType in ALLOWED_IMAGE_TYPES && file.value.size <= SizeLimit(t)
  {
    ValidateImageFile(file, SizeLimit(t))
  }

  /** The service's messages name the limit in whole MiB, and it accepts
      empty files while rejecting `image/jpg`. */
  lemma ServiceValidationFacts(name: string)
    ensures RoundMiB(MAX_DNI_IMAGE_SIZE) == 5 && RoundMiB(MAX_BANNER_IMAGE_SIZE) == 10
    ensures ValidateImageFile(Some(File(name, "image/png", 0)), MAX_BANNER_IMAGE_SIZE).isValid
    ensures ValidateImageFile(Some(File(name, "image/jpg", 1)), MAX_BANNER_IMAGE_SIZE).errorCode == Some("invalid-file-type")
  {
    assert "image/jpg" != ALLOWED_IMAGE_TYPES[0] && "image/jpg" != ALLOWED_IMAGE_TYPES[1]
        && "image/jpg" != ALLOWED_IMAGE_TYPES[2];
  }

  // ---------------------------------------------------------------------
  // File names

  /** `replace(/\.[^/.]+$/, '')`: drop a final dot and the non-empty run after
      it, when that run has neither a dot nor a slash. */
  function StripExtension(name: string): (r: string)
    ensures |r| <= |name| && r == name[..|r|]
    ensures |r| < |name| ==>
      && name[|r|] == '.' && |r| + 1 < |name|
      && forall j :: |r| < j < |name| ==> name[j] != '.' && name[j] != '/'
  {
    match LastIndexOfChar(name, '.')
    case None => name
    case Some(i) =>
      if i + 1 < |name| && forall j :: i < j < |name| ==> name[j] != '/' then name[..i] else name
  }

  /** Every character outside `[A-Za-z0-9]` becomes `_`. */
  function Underscored(s: string): (r: string)
    ensures |r| == |s|
    ensures forall i :: 0 <= i < |s| ==> r[i] == (if IsAsciiAlnum(s[i]) then s[i] else '_')
  {
    seq(|s|, i requires 0 <= i < |s| => if IsAsciiAlnum(s[i]) then s[i] else '_')
  }

  /** The cleaned name part of a generated file name. */
  function CleanName(originalName: string): (r: string)
    ensures |r| == if |StripExtension(originalName)| < 20 then |StripExtension(originalName)| else 20
    ensures forall i :: 0 <= i < |r| ==> IsAsciiAlnum(r[i]) || r[i] == '_'
    ensures r == Underscored(StripExtension(originalName))[..|r|]
  {
    Take(Underscored(StripExtension(originalName)), 20)
  }

  /** `generateUniqueFileName(originalName)`: `<timestamp>_<token>_<clean>.<ext>`. */
  function ServiceUniqueFileName(originalName: string, timestamp: nat, randomId: string): string
  {
    NatToString(timestamp) + "_" + randomId + "_" + CleanName(originalName) + "." + ExtensionOrJpg(originalName)
  }

  /** The generated name ends with the original extension, lowercased (or `jpg`). */
  lemma ServiceNameExtension(originalName: string, timestamp: nat, randomId: string)
    ensures GetFileExtension(ServiceUniqueFileName(originalName, timestamp, randomId))
            == ExtensionOrJpg(originalName)
  {
    LastSegmentAfterDot(NatToString(timestamp) + "_" + randomId + "_" + CleanName(originalName),
                        ExtensionOrJpg(originalName));
    ToLowerOfExtension(originalName);
  }

  // ---------------------------------------------------------------------
  // Compression

  /** `shouldCompressImage(file, maxSize)`, given the decoded size. */
  function ServiceShouldCompress(file: File, maxSize: nat, decoded: Option<(nat, nat)>): (r: bool)
    ensures file.size <= maxSize ==> !r
    ensures file.size > maxSize ==> (r <==> decoded.None? || decoded.value.0 > 1920 || decoded.value.1 > 1080)
  {
    if file.size <= maxSize then false
    else match decoded
      case None => true
      case Some((w, h)) => w > 1920 || h > 1080
  }

  const CANVAS_UNAVAILABLE := ErrorObject("Error", "Canvas context not available", "")
  const COMPRESS_FAILED := ErrorObject("Error", "Failed to compress image", "")

  /** `compressImage(file, options)`: the canvas is checked before the image
      is decoded; an undecodable image fails with the `file-corrupted` error. */
  function ServiceCompressImage(file: File, options: CompressionOptions, env: ImageEnv)
    : (r: Result<Compressed, Thrown>)
    requires options.maxWidth >= 0.0 && options.maxHeight >= 0.0
    ensures !env.hasCanvas ==> r == Err(CANVAS_UNAVAILABLE)
    ensures env.hasCanvas && env.decoded.None? ==>
      r == Err(AppError(CreateFirebaseError("file-corrupted", NullValue, [])))
    ensures env.hasCanvas && env.decoded.Some? && env.blobSize.None? ==> r == Err(COMPRESS_FAILED)
    ensures r.Ok? <==> env.hasCanvas && env.decoded.Some? && env.blobSize.Some?
    ensures r.Ok? ==>
      && r.value.file == File(ServiceUniqueFileName(file.name, env.now, env.randomId),
                              "image/" + options.format.Name(), env.blobSize.value)
      && r.value.canvas == ClampDimensions(Dimensions(env.decoded.value.0 as real, env.decoded.value.1 as real),
                                           options.maxWidth, options.maxHeight)
  {
    if !env.hasCanvas then Err(CANVAS_UNAVAILABLE)
    else match env.decoded
      case None => Err(AppError(CreateFirebaseError("file-corrupted", NullValue, [])))
      case Some((w, h)) =>
        var canvas := ClampDimensions(Dimensions(w as real, h as real), options.maxWidth, options.maxHeight);
        match env.blobSize
        case None => Err(COMPRESS_FAILED)
        case Some(size) =>
          Ok(Compressed(File(ServiceUniqueFileName(file.name, env.now, env.randomId),
                             "image/" + options.format.Name(), size), canvas))
  }

  /** The byte size above which an upload of this kind is considered for compression. */
  function CompressionThreshold(t: ValidationType): (n: nat)
    ensures n == (if t.Dni? then MAX_DNI_IMAGE_SIZE / 2 else MAX_BANNER_IMAGE_SIZE / 2)
  {
    if t.Dni? then MAX_DNI_IMAGE_SIZE / 2 else MAX_BANNER_IMAGE_SIZE / 2
  }

  function UploadCompression(t: ValidationType): (o: CompressionOptions)
    ensures o.maxWidth == (if t.Dni? then 800.0 else 1920.0)
    ensures o.maxHeight == (if t.Dni? then 600.0 else 1080.0)
    ensures o.quality == 0.8 && o.format == Jpeg
  {
    if t.Dni? then CompressionOptions(800.0, 600.0, 0.8, Jpeg) else CompressionOptions(1920.0, 1080.0, 0.8, Jpeg)
  }

  /** `processImageForUpload(file, validationType)`. */
  function ProcessImageForUpload(file: File, t: ValidationType, env: ImageEnv): (r: Result<File, FirebaseError>)
    ensures !ValidateFor(Some(file), t).isValid ==>
      r == Err(CreateFirebaseError(ValidateFor(Some(file), t).errorCode.GetOr("invalid-file-type"), NullValue, []))
    ensures r.Ok? <==> ValidateFor(Some(file), t).isValid
    ensures r.Ok? && !ServiceShouldCompress(file, CompressionThreshold(t), env.decoded) ==> r.value == file
    ensures r.Ok? && ServiceCompressImage(file, UploadCompression(t), env).Err? ==> r.value == file
    ensures r.Ok? && ServiceShouldCompress(file, CompressionThreshold(t), env.decoded)
            && ServiceCompressImage(file, UploadCompression(t), env).Ok? ==>
      r.value == ServiceCompressImage(file, UploadCompression(t), env).value.file
  {
    var validation := ValidateFor(Some(file), t);
    if !validation.isValid then
      Err(CreateFirebaseError(validation.errorCode.GetOr("invalid-file-type"), NullValue, []))
    else if ServiceShouldCompress(file, CompressionThreshold(t), env.decoded) then
      match ServiceCompressImage(file, UploadCompression(t), env)
      case Ok(c) => Ok(c.file)
      case Err(_) => Ok(file)
    else Ok(file)
  }

  /** An oversized upload fails with `file-too-large`, and since no parameters
      are passed the user message keeps the literal `{maxSize}` placeholder. */
  lemma OversizedUploadMessage(file: File, env: ImageEnv)
    requires file.mimeType in ALLOWED_IMAGE_TYPES && file.size > MAX_DNI_IMAGE_SIZE
    ensures ProcessImageForUpload(file, Dni, env).Err?
    ensures ProcessImageForUpload(file, Dni, env).error.code == "file-too-large"
    ensures ProcessImageForUpload(file, Dni, env).error.userMessage == Some(FILE_TOO_LARGE_MSG)
  {
    assert "file-too-large" in ERROR_MESSAGES;
    assert ERROR_MESSAGES["file-too-large"] == FILE_TOO_LARGE_MSG;
  }

  // ---------------------------------------------------------------------
  // Batch validation

  /** What `validateMultipleImages` returns for a list of files: the valid
      ones, and the invalid ones with their messages, both in input order. */
  function Partition(files: seq<File>, t: ValidationType): (r: (seq<File>, seq<(File, string)>))
    ensures |r.0| + |r.1| == |files|
    ensures forall i :: 0 <= i < |r.0| ==> r.0[i] in files && ValidateFor(Some(r.0[i]), t).isValid
    ensures forall i :: 0 <= i < |r.1| ==>
      && r.1[i].0 in files
      && !ValidateFor(Some(r.1[i].0), t).isValid
      && r.1[i].1 == ValidateFor(Some(r.1[i].0), t).error.GetOr("Archivo inválido")
    ensures forall f :: f in files ==> (f in r.0 || exists i :: 0 <= i < |r.1| && r.1[i].0 == f)
  {
    if files == [] then ([], [])
    else
      var init := files[..|files| - 1];
      var f := files[|files| - 1];
      var rest := Partition(init, t);
      assert forall g :: g in init ==> g in files;
      assert forall g :: g in files ==> g in init || g == f;
      var validation := ValidateFor(Some(f), t);
      if validation.isValid then (rest.0 + [f], rest.1)
      else
        var r := (rest.0, rest.1 + [(f, validation.error.GetOr("Archivo inválido"))]);
        assert r.1[|r.1| - 1].0 == f;
        assert forall g :: g in init ==> (g in r.0 || exists i :: 0 <= i < |r.1| && r.1[i].0 == g) by {
          forall g | g in init ensures g in r.0 || exists i :: 0 <= i < |r.1| && r.1[i].0 == g {
            if g !in r.0 {
              var i :| 0 <= i < |rest.1| && rest.1[i].0 == g;
              assert r.1[i].0 == g;
            }
          }
        }
        r
  }

  function PassesFor(t: ValidationType): File -> bool {
    (f: File) => ValidateFor(Some(f), t).isValid
  }

  function FailsFor(t: ValidationType): File -> bool {
    (f: File) => !ValidateFor(Some(f), t).isValid
  }

  function Files(invalid: seq<(File, string)>): seq<File> {
    seq(|invalid|, i requires 0 <= i < |invalid| => invalid[i].0)
  }

  /** The valid list is the input filtered by the validator. */
  lemma {:induction false} PartitionValidIsFilter(files: seq<File>, t: ValidationType)
    ensures Partition(files, t).0 == Select(files, PassesFor(t))
    decreases |files|
  {
    if files != [] {
      var init, f := files[..|files| - 1], files[|files| - 1];
      assert files == init + [f];
      PartitionValidIsFilter(init, t);
      SelectAppend(init, f, PassesFor(t));
    }
  }

  /** The invalid list holds the input filtered by the validator's negation. */
  lemma {:induction false} PartitionInvalidIsFilter(files: seq<File>, t: ValidationType)
    ensures Files(Partition(files, t).1) == Select(files, FailsFor(t))
    decreases |files|
  {
    if files != [] {
      var init, f := files[..|files| - 1], files[|files| - 1];
      assert files == init + [f];
      PartitionInvalidIsFilter(init, t);
      SelectAppend(init, f, FailsFor(t));
      var rest := Partition(init, t).1;
      if !ValidateFor(Some(f), t).isValid {
        var m := ValidateFor(Some(f), t).error.GetOr("Archivo inválido");
        assert Files(rest + [(f, m)]) == Files(rest) + [f];
      }
    }
  }

  /** Both lists keep the input order. */
  lemma PartitionKeepsOrder(files: seq<File>, t: ValidationType)
    ensures IsSubsequence(Partition(files, t).0, files)
    ensures IsSubsequence(Files(Partition(files, t).1), files)
  {
    PartitionValidIsFilter(files, t);
    PartitionInvalidIsFilter(files, t);
    SelectIsSubsequence(files, PassesFor(t));
    SelectIsSubsequence(files, FailsFor(t));
  }

  /** `validateMultipleImages(files, validationType)`: the loop pushing each
      file into the valid or the invalid list. */
  method ValidateMultipleImages(files: seq<File>, t: ValidationType)
    returns (valid: seq<File>, invalid: seq<(File, string)>)
    ensures (valid, invalid) == Partition(files, t)
  {
    valid, invalid := [], [];
    for i := 0 to |files|
      invariant (valid, invalid) == Partition(files[..i], t)
    {
      assert files[..i + 1][..i] == files[..i];
      var file := files[i];
      var validation := ValidateFor(Some(file), t);
      if validation.isValid {
        valid := valid + [file];
      } else {
        invalid := invalid + [(file, validation.error.GetOr("Archivo inválido"))];
      }
    }
    assert files[..|files|] == files;
  }
}
