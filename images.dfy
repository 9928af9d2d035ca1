/** The opaque image handles of the GD library, the sizes they carry, the
    integer conversion that turns a resolved size into pixels, and the
    encoded outputs of the export operations. */
module Images {
  import opened Wrappers

  /** The two decoders (and encoders) the builders dispatch to. */
  datatype Format = Png | Jpeg

  /** The error outcomes of the builders: an unknown size-transformation
      flag, a file name without a recognised suffix, and an export of a
      thumbnail that was never built. */
  datatype Error = InvalidPolicy | UnsupportedFormat | NotBuilt

  /** An integer pixel size, as `getimagesize` reports it and as
      `imagecreatetruecolor` receives it. */
  datatype Size = Size(width: int, height: int)

  /** A source size as `getimagesize` reports it for a readable image. */
  predicate IsNative(native: Size) {
    native.width > 0 && native.height > 0
  }

  /** A resolved thumbnail size before it is handed to the image library:
      PHP's `/` yields a fraction when the division is not exact. */
  datatype Dims = Dims(width: real, height: real)

  /** An image handle. `Decoded` is what `imagecreatefrompng` or
      `imagecreatefromjpeg` returns for the source file; `Resampled` is a
      canvas made by `imagecreatetruecolor` into which
      `imagecopyresampled` drew the whole of `source`. Pixels are not
      modelled, only where an image came from and how large it is. */
  datatype Image =
    | Decoded(format: Format, size: Size)
    | Resampled(size: Size, source: Image)

  /** The source and destination handles a successful build leaves behind. */
  datatype Handles = Handles(src: Image, dst: Image)

  /** PHP's conversion of a float to an integer: truncation toward zero. */
  function Trunc(x: real): (n: int)
    ensures 0.0 <= x ==> 0 <= n && n as real <= x < n as real + 1.0
    ensures x < 0.0 ==> n <= 0 && n as real - 1.0 < x <= n as real
  {
    if x >= 0.0 then x.Floor else -((-x).Floor)
  }

  /** Truncating a whole number changes nothing, whatever its sign. */
  lemma TruncOfInteger(n: int)
    ensures Trunc(n as real) == n
  {
  }

  /** The integer size a resolved size becomes when it is passed to
      `imagecreatetruecolor`. */
  function PixelSize(d: Dims): (s: Size)
    ensures d.width >= 0.0 ==> 0 <= s.width && s.width as real <= d.width < s.width as real + 1.0
    ensures d.height >= 0.0 ==> 0 <= s.height && s.height as real <= d.height < s.height as real + 1.0
  {
    Size(Trunc(d.width), Trunc(d.height))
  }

  /** The default PNG compression level and JPEG quality of the exports. */
  const DefaultPngCompression: int := 5
  const DefaultJpegQuality: int := 75

  /** The bytes `imagepng` or `imagejpeg` produce for an image at a given
      compression level or quality; the codec itself is not modelled. */
  datatype Encoded = Encoded(format: Format, setting: int, image: Image)

  /** What a file export writes: the target path (`None` stands for PHP's
      `NULL`, which sends the bytes to the output buffer) and the bytes. */
  datatype Written = Written(path: Option<string>, data: Encoded)

  /** The base64 text of a buffered encoding. */
  datatype Base64Text = Base64Text(data: Encoded)

  /** Encoding the destination handle: it fails exactly when no thumbnail
      was built, and otherwise encodes that very image with the requested
      setting passed through unchanged. */
  function Encode(dst: Option<Image>, format: Format, setting: int): (r: Result<Encoded, Error>)
    ensures r.Ok? <==> dst.Some?
    ensures r.Err? ==> r.error == NotBuilt
    ensures r.Ok? ==> r.value.image == dst.value && r.value.format == format && r.value.setting == setting
  {
    match dst
    case None => Err(NotBuilt)
    case Some(img) => Ok(Encoded(format, setting, img))
  }

  /** The file export: encode, then write to `path`. */
  function WriteFile(dst: Option<Image>, format: Format, path: Option<string>, setting: int): (r: Result<Written, Error>)
    ensures r.Ok? <==> dst.Some?
    ensures r.Err? ==> r.error == NotBuilt
    ensures r.Ok? ==> r.value.path == path && r.value.data == Encode(dst, format, setting).value
  {
    match Encode(dst, format, setting)
    case Err(e) => Err(e)
    case Ok(bytes) => Ok(Written(path, bytes))
  }

  /** The base64 export: the file export to the output buffer (path `NULL`),
      captured and base64-encoded. */
  function ToBase64(dst: Option<Image>, format: Format, setting: int): (r: Result<Base64Text, Error>)
    ensures r.Ok? <==> dst.Some?
    ensures r.Err? ==> r.error == NotBuilt
    ensures r.Ok? ==> WriteFile(dst, format, None, setting) == Ok(Written(None, r.value.data))
  {
    match WriteFile(dst, format, None, setting)
    case Err(e) => Err(e)
    case Ok(w) => Ok(Base64Text(w.data))
  }
}
