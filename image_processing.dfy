/** Client-side image checks and compression planning: the ordered
    type/size/empty check, file-name and extension derivation, the
    aspect-preserving dimension clamp, the "compress only if needed" decision
    and the batch loop. Image decoding, the canvas and the clock are an
    oracle (`ImageEnv`). */
module ImageProcessing {
  import opened Wrappers
  import opened Text
  import opened FirebaseTypes

  // ---------------------------------------------------------------------
  // Validation

  datatype ImageValidationResult = ImageValidationResult(isValid: bool, error: Option<string>)

  /** The MIME types this validator accepts (`image/jpg` included). */
  const PROCESSING_IMAGE_TYPES: seq<string> := ["image/jpeg", "image/jpg", "image/png", "image/webp"]

  const INVALID_TYPE_MSG := "Tipo de archivo no válido. Solo se permiten imágenes JPG, PNG y WebP."
  const EMPTY_FILE_MSG := "El archivo está vacío."

  function TooLargeMsg(maxSizeMB: nat): string {
    "El archivo es demasiado grande. Máximo " + NatToString(maxSizeMB) + "MB."
  }

  /** `validateImageFile(file, maxSizeMB)`: type first, then the size limit in
      MiB, then emptiness; the first failing check reports. */
  function ValidateImageFile(file: File, maxSizeMB: nat): (r: ImageValidationResult)
    ensures r.isValid <==> file.mimeType in PROCESSING_IMAGE_TYPES && 0 < file.size <= maxSizeMB * MIB
    ensures r.isValid <==> r.error.None?
    ensures file.mimeType !in PROCESSING_IMAGE_TYPES ==> r.error == Some(INVALID_TYPE_MSG)
    ensures file.mimeType in PROCESSING_IMAGE_TYPES && file.size > maxSizeMB * MIB
            ==> r.error == Some(TooLargeMsg(maxSizeMB))
    ensures file.mimeType in PROCESSING_IMAGE_TYPES && file.size == 0 ==> r.error == Some(EMPTY_FILE_MSG)
  {
    if file.mimeType !in PROCESSING_IMAGE_TYPES then ImageValidationResult(false, Some(INVALID_TYPE_MSG))
    else if file.size > maxSizeMB * MIB then ImageValidationResult(false, Some(TooLargeMsg(maxSizeMB)))
    else if file.size == 0 then ImageValidationResult(false, Some(EMPTY_FILE_MSG))
    else ImageValidationResult(true, None)
  }

  /** `isImageFile`: the MIME type starts with `image/`. */
  predicate IsImageFile(file: File) {
    |file.mimeType| >= 6 && file.mimeType[..6] == "image/"
  }

  /** Everything the validator accepts is an image file. */
  lemma ValidImpliesImageFile(file: File, maxSizeMB: nat)
    requires ValidateImageFile(file, maxSizeMB).isValid
    ensures IsImageFile(file)
  {
    var t := file.mimeType;
    assert t == "image/jpeg" || t == "image/jpg" || t == "image/png" || t == "image/webp";
  }

  // ---------------------------------------------------------------------
  // File names

  /** `getFileExtension`: the lowercased text after the last dot; the whole
      name when there is none, and empty for a trailing dot. */
  function GetFileExtension(filename: string): (r: string)
    ensures forall j :: 0 <= j < |r| ==> r[j] != '.'
    ensures (forall j :: 0 <= j < |filename| ==> filename[j] != '.') ==> r == ToLower(filename)
    ensures |filename| > 0 && filename[|filename| - 1] == '.' ==> r == []
  {
    var seg := LastSegment(filename, '.');
    assert |seg| > 0 ==> seg[|seg| - 1] == filename[|filename| - 1];
    assert |seg| < |filename| ==> filename[|filename| - |seg| - 1] == '.';
    var r := ToLower(seg);
    assert forall j :: 0 <= j < |r| ==> r[j] == LowerChar(seg[j]);
    r
  }

  /** The extension is the part of the name after its last dot, lowercased:
      a dot-free suffix of the name that is the whole name or follows a dot. */
  lemma GetFileExtensionIsLastPart(filename: string)
    ensures var r := GetFileExtension(filename);
      && |r| <= |filename| && r == ToLower(filename[|filename| - |r|..])
      && (|r| < |filename| ==> filename[|filename| - |r| - 1] == '.')
  {
    var seg := LastSegment(filename, '.');
    assert GetFileExtension(filename) == ToLower(seg);
  }

  /** For a name `a.b` whose last part `b` has no dot, the extension is `b` lowercased. */
  lemma GetFileExtensionAfterLastDot(a: string, b: string)
    requires forall j :: 0 <= j < |b| ==> b[j] != '.'
    ensures GetFileExtension(a + "." + b) == ToLower(b)
  {
    LastSegmentAfterDot(a, b);
  }

  /** The extension a generated name ends with: the original one, lowercased,
      or `jpg` when that is empty. */
  function ExtensionOrJpg(originalName: string): (ext: string)
    ensures ext != [] && forall j :: 0 <= j < |ext| ==> ext[j] != '.'
    ensures GetFileExtension(originalName) == [] ==> ext == "jpg"
    ensures GetFileExtension(originalName) != [] ==> ext == GetFileExtension(originalName)
  {
    var e := GetFileExtension(originalName);
    if e == [] then "jpg" else e
  }

  /** `generateUniqueFileName(originalName)` with `Date.now()` and the random
      token as parameters: `<timestamp>_<token>.<ext>`. */
  function GenerateUniqueFileName(originalName: string, timestamp: nat, randomId: string): string
  {
    NatToString(timestamp) + "_" + randomId + "." + ExtensionOrJpg(originalName)
  }

  lemma LowerCharIdempotent(c: char)
    ensures LowerChar(LowerChar(c)) == LowerChar(c)
    ensures LowerChar(c) == '.' <==> c == '.'
  {
  }

  /** The text after a dot that is followed by no other dot is the last segment. */
  lemma LastSegmentAfterDot(a: string, b: string)
    requires forall j :: 0 <= j < |b| ==> b[j] != '.'
    ensures LastSegment(a + "." + b, '.') == b
  {
    var s := a + "." + b;
    assert s[|a|] == '.';
    var i := LastIndexOfChar(s, '.');
    assert i.Some?;
    assert forall j :: |a| < j < |s| ==> s[j] == b[j - |a| - 1];
    assert i.value == |a|;
    assert s[|a| + 1..] == b;
  }

  /** Lowercasing an extension that is already lowercase changes nothing. */
  lemma ToLowerOfExtension(filename: string)
    ensures ToLower(ExtensionOrJpg(filename)) == ExtensionOrJpg(filename)
  {
    var e := GetFileExtension(filename);
    if e != [] {
      var seg := LastSegment(filename, '.');
      forall j | 0 <= j < |e| ensures LowerChar(e[j]) == e[j] {
        LowerCharIdempotent(seg[j]);
      }
    } else {
      assert ToLower("jpg") == "jpg";
    }
  }

  /** A generated name's extension is the one it was generated with. */
  lemma GeneratedNameExtension(originalName: string, timestamp: nat, randomId: string)
    ensures GetFileExtension(GenerateUniqueFileName(originalName, timestamp, randomId))
            == ExtensionOrJpg(originalName)
  {
    var ext := ExtensionOrJpg(originalName);
    LastSegmentAfterDot(NatToString(timestamp) + "_" + randomId, ext);
    ToLowerOfExtension(originalName);
  }

  // ---------------------------------------------------------------------
  // Dimensions

  datatype Dimensions = Dimensions(width: real, height: real)

  /** The factor that brings `size` down to `limit`, or 1 when it is within it. */
  function Factor(size: real, limit: real): (k: real)
    requires size >= 0.0 && limit >= 0.0
    ensures 0.0 <= k <= 1.0
    ensures size * k <= limit
    ensures size <= limit ==> k == 1.0
    ensures size > limit ==> size * k == limit
  {
    if size > limit then limit / size else 1.0
  }

  /** One step of the resize rule: a side over its limit becomes the limit
      and the other side is scaled in proportion; a side within its limit
      leaves both unchanged. */
  function ScaleToLimit(side: real, other: real, limit: real): (r: (real, real))
    requires limit >= 0.0
  {
    if side > limit then (limit, (other * limit) / side) else (side, other)
  }

  lemma MulDiv(a: real, b: real, c: real)
    requires c != 0.0
    ensures (a * b) / c == a * (b / c)
  {
  }

  /** The resize rule: scale down to the maximum width, then to the maximum
      height, keeping the proportions. */
  function ClampDimensions(d: Dimensions, maxWidth: real, maxHeight: real): (r: Dimensions)
    requires d.width >= 0.0 && d.height >= 0.0 && maxWidth >= 0.0 && maxHeight >= 0.0
    ensures r.width <= maxWidth && r.height <= maxHeight
    ensures r.width >= 0.0 && r.height >= 0.0
    ensures r.width * d.height == r.height * d.width
    ensures d.width <= maxWidth && d.height <= maxHeight ==> r == d
  {
    var (w1, h1) := ScaleToLimit(d.width, d.height, maxWidth);
    var (h2, w2) := ScaleToLimit(h1, w1, maxHeight);
    TwoStepsScale(d.width, d.height, maxWidth, maxHeight, w1, h1, w2, h2);
    Dimensions(w2, h2)
  }

  /** The two steps of the rule multiply both sides by the product of their
      factors, which keeps them within the limits and in proportion. */
  lemma TwoStepsScale(w: real, h: real, maxWidth: real, maxHeight: real,
                      w1: real, h1: real, w2: real, h2: real)
    requires w >= 0.0 && h >= 0.0 && maxWidth >= 0.0 && maxHeight >= 0.0
    requires (w1, h1) == ScaleToLimit(w, h, maxWidth)
    requires (h2, w2) == ScaleToLimit(h1, w1, maxHeight)
    ensures 0.0 <= w2 <= maxWidth && 0.0 <= h2 <= maxHeight
    ensures w2 * h == h2 * w
    ensures w <= maxWidth && h <= maxHeight ==> w2 == w && h2 == h
  {
    var k1 := StepFactor(w, h, maxWidth, w1, h1);
    var k2 := StepFactor(h1, w1, maxHeight, h2, w2);
    ScaledTwice(w, h, k1, k2, maxWidth, maxHeight);
  }

  /** One step of the rule multiplies both sides by a factor in `[0, 1]`
      that is 1 when the side is within its limit. */
  lemma StepFactor(side: real, other: real, limit: real, newSide: real, newOther: real)
    returns (k: real)
    requires side >= 0.0 && other >= 0.0 && limit >= 0.0
    requires (newSide, newOther) == ScaleToLimit(side, other, limit)
    ensures 0.0 <= k <= 1.0 && newSide == side * k && newOther == other * k
    ensures 0.0 <= newSide <= limit && 0.0 <= newOther
    ensures side <= limit ==> k == 1.0
  {
    k := Factor(side, limit);
    if side > limit {
      MulDiv(other, limit, side);
      assert newOther == other * k;
    }
    MulNonneg(other, k);
  }

  /** An image over a limit is scaled down no further than needed: the
      result reaches the width limit or the height limit. */
  lemma ClampReachesLimit(d: Dimensions, maxWidth: real, maxHeight: real)
    requires d.width >= 0.0 && d.height >= 0.0 && maxWidth >= 0.0 && maxHeight >= 0.0
    requires d.width > maxWidth || d.height > maxHeight
    ensures var r := ClampDimensions(d, maxWidth, maxHeight);
      r.width == maxWidth || r.height == maxHeight
  {
    var (w1, h1) := ScaleToLimit(d.width, d.height, maxWidth);
    if h1 <= maxHeight {
      assert d.width > maxWidth;
    }
  }

  /** Two factors in `[0, 1]`, the first bringing the width within its
      limit and the second the scaled height within its own. */
  lemma ScaledTwice(w: real, h: real, k1: real, k2: real, maxWidth: real, maxHeight: real)
    requires w >= 0.0 && h >= 0.0 && 0.0 <= k1 <= 1.0 && 0.0 <= k2 <= 1.0
    requires w * k1 <= maxWidth && (h * k1) * k2 <= maxHeight
    ensures 0.0 <= w * k1 * k2 <= maxWidth && 0.0 <= h * k1 * k2 <= maxHeight
    ensures (w * k1 * k2) * h == (h * k1 * k2) * w
    ensures k1 == 1.0 && k2 == 1.0 ==> w * k1 * k2 == w && h * k1 * k2 == h
  {
    MulNonneg(w, k1);
    MulNonneg(h, k1);
    MulNonneg(w * k1, k2);
    MulNonneg(h * k1, k2);
    MulAtMost(w * k1, k2, maxWidth);
    Proportional(w, h, k1, k2);
  }

  lemma MulNonneg(a: real, b: real)
    requires a >= 0.0 && b >= 0.0
    ensures a * b >= 0.0
  {
  }

  lemma MulAtMost(a: real, k: real, limit: real)
    requires 0.0 <= a <= limit && 0.0 <= k <= 1.0
    ensures a * k <= limit
  {
    assert a * k <= a * 1.0;
  }

  lemma Proportional(w: real, h: real, k1: real, k2: real)
    ensures (w * k1 * k2) * h == (h * k1 * k2) * w
  {
  }

  /** One `if` of the dimension computation in `compressImage`, reassigning
      the side over its limit and the other side. */
  method ScaleDown(side: real, other: real, limit: real) returns (newSide: real, newOther: real)
    requires limit >= 0.0
    ensures (newSide, newOther) == ScaleToLimit(side, other, limit)
  {
    newSide, newOther := side, other;
    if newSide > limit {
      newOther := (newOther * limit) / newSide;
      newSide := limit;
    }
  }

  /** The dimension computation in `compressImage`: width first, then
      height, each pair reassigned in turn. */
  method Resize(width: real, height: real, maxWidth: real, maxHeight: real)
    returns (newWidth: real, newHeight: real)
    requires width >= 0.0 && height >= 0.0 && maxWidth >= 0.0 && maxHeight >= 0.0
    ensures Dimensions(newWidth, newHeight) == ClampDimensions(Dimensions(width, height), maxWidth, maxHeight)
  {
    newWidth, newHeight := ScaleDown(width, height, maxWidth);
    newHeight, newWidth := ScaleDown(newHeight, newWidth, maxHeight);
  }

  // ---------------------------------------------------------------------
  // Compression

  /** What the browser does for one file: the decoded natural size (absent
      when decoding fails), whether a 2D canvas context is available, the
      size of the encoded blob (absent when encoding fails), the clock and
      the random token. */
  datatype ImageEnv = ImageEnv(
    decoded: Option<(nat, nat)>,
    hasCanvas: bool,
    blobSize: Option<nat>,
    now: nat,
    randomId: string)

  datatype ImageFormat = Jpeg | Png | Webp {
    function Name(): string {
      match this
      case Jpeg => "jpeg"
      case Png => "png"
      case Webp => "webp"
    }
  }

  datatype CompressionOptions = CompressionOptions(
    maxWidth: real, maxHeight: real, quality: real, format: ImageFormat)

  /** The defaults of `compressImage`. */
  const DEFAULT_COMPRESSION := CompressionOptions(1920.0, 1080.0, 0.8, Jpeg)

  /** A compressed file together with the canvas size it was drawn at. */
  datatype Compressed = Compressed(file: File, canvas: Dimensions)

  function Failed(message: string): Thrown { ErrorObject("Error", message, "") }

  const LOAD_ERROR_MSG := "Error al cargar la imagen"
  const CANVAS_ERROR_MSG := "No se pudo crear el contexto del canvas"
  const COMPRESS_ERROR_MSG := "Error al comprimir la imagen"

  /** `compressImage(file, options)`: decode, then get the canvas, then encode;
      the new file has a generated name and the `image/<format>` type. */
  function CompressImage(file: File, options: CompressionOptions, env: ImageEnv): (r: Result<Compressed, Thrown>)
    requires options.maxWidth >= 0.0 && options.maxHeight >= 0.0
    ensures env.decoded.None? ==> r == Err(Failed(LOAD_ERROR_MSG))
    ensures env.decoded.Some? && !env.hasCanvas ==> r == Err(Failed(CANVAS_ERROR_MSG))
    ensures env.decoded.Some? && env.hasCanvas && env.blobSize.None? ==> r == Err(Failed(COMPRESS_ERROR_MSG))
    ensures r.Ok? <==> env.decoded.Some? && env.hasCanvas && env.blobSize.Some?
    ensures r.Ok? ==>
      && r.value.file == File(GenerateUniqueFileName(file.name, env.now, env.randomId),
                              "image/" + options.format.Name(), env.blobSize.value)
      && r.value.canvas == ClampDimensions(Dimensions(env.decoded.value.0 as real, env.decoded.value.1 as real),
                                           options.maxWidth, options.maxHeight)
  {
    match env.decoded
    case None => Err(Failed(LOAD_ERROR_MSG))
    case Some((w, h)) =>
      if !env.hasCanvas then Err(Failed(CANVAS_ERROR_MSG))
      else
        var canvas := ClampDimensions(Dimensions(w as real, h as real), options.maxWidth, options.maxHeight);
        match env.blobSize
        case None => Err(Failed(COMPRESS_ERROR_MSG))
        case Some(size) =>
          Ok(Compressed(File(GenerateUniqueFileName(file.name, env.now, env.randomId),
                             "image/" + options.format.Name(), size), canvas))
  }

  /** `shouldCompressImage(file, maxSizeMB, maxDimension)`, given the decoded size. */
  function ShouldCompressImage(file: File, maxSizeMB: real, maxDimension: real, decoded: Option<(nat, nat)>)
    : (r: bool)
    ensures file.size as real / (MIB as real) > maxSizeMB ==> r
    ensures file.size as real / (MIB as real) <= maxSizeMB && decoded.Some? ==>
      (r <==> decoded.value.0 as real > maxDimension || decoded.value.1 as real > maxDimension)
    ensures decoded.None? ==> r
  {
    if file.size as real / (MIB as real) > maxSizeMB then true
    else match decoded
      case None => true
      case Some((w, h)) => w as real > maxDimension || h as real > maxDimension
  }

  /** `smartCompressImage(file, options)`: compress only when needed. */
  function SmartCompressImage(file: File, options: CompressionOptions, maxSizeMB: real, env: ImageEnv)
    : (r: Result<File, Thrown>)
    requires options.maxWidth >= 0.0 && options.maxHeight >= 0.0
    ensures !ShouldCompressImage(file, maxSizeMB, 1920.0, env.decoded) ==> r == Ok(file)
    ensures ShouldCompressImage(file, maxSizeMB, 1920.0, env.decoded) ==>
      match CompressImage(file, options, env)
      case Ok(c) => r == Ok(c.file)
      case Err(e) => r == Err(e)
  {
    if !ShouldCompressImage(file, maxSizeMB, 1920.0, env.decoded) then Ok(file)
    else match CompressImage(file, options, env)
      case Ok(c) => Ok(c.file)
      case Err(e) => Err(e)
  }

  /** A file small enough whose dimensions are within the limit is returned as it is. */
  lemma SmallImageKeptAsIs(file: File, options: CompressionOptions, maxSizeMB: real, env: ImageEnv)
    requires options.maxWidth >= 0.0 && options.maxHeight >= 0.0
    requires file.size as real <= maxSizeMB * (MIB as real)
    requires env.decoded.Some? && env.decoded.value.0 <= 1920 && env.decoded.value.1 <= 1920
    ensures SmartCompressImage(file, options, maxSizeMB, env) == Ok(file)
  {
    assert file.size as real / (MIB as real) <= maxSizeMB;
  }

  /** The result of processing one file in a batch: the compressed file, or
      the original when processing fails. */
  function ProcessedOrOriginal(file: File, options: CompressionOptions, env: ImageEnv): (r: File)
    requires options.maxWidth >= 0.0 && options.maxHeight >= 0.0
    ensures SmartCompressImage(file, options, 2.0, env).Err? ==> r == file
    ensures SmartCompressImage(file, options, 2.0, env).Ok? ==> r == SmartCompressImage(file, options, 2.0, env).value
  {
    match SmartCompressImage(file, options, 2.0, env)
    case Ok(f) => f
    case Err(_) => file
  }

  /** `batchProcessImages(files, options)`: the loop pushing one file per
      input, `env(f)` being what the browser does for `f`. */
  method BatchProcessImages(files: seq<File>, options: CompressionOptions, env: File -> ImageEnv)
    returns (processedFiles: seq<File>)
    requires options.maxWidth >= 0.0 && options.maxHeight >= 0.0
    ensures |processedFiles| == |files|
    ensures forall i :: 0 <= i < |files| ==> processedFiles[i] == ProcessedOrOriginal(files[i], options, env(files[i]))
  {
    processedFiles := [];
    for i := 0 to |files|
      invariant |processedFiles| == i
      invariant forall k :: 0 <= k < i ==> processedFiles[k] == ProcessedOrOriginal(files[k], options, env(files[k]))
    {
      var file := files[i];
      var processed := SmartCompressImage(file, options, 2.0, env(file));
      var next := file;
      if processed.Ok? {
        next := processed.value;
      }
      assert next == ProcessedOrOriginal(file, options, env(file));
      ghost var before := processedFiles;
      processedFiles := processedFiles + [next];
      assert forall k :: 0 <= k < i ==> processedFiles[k] == before[k];
    }
  }
}
