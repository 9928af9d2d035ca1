/** The older, un-namespaced builder (src/thumbnailr.php): a boolean
    aspect-ratio switch instead of a flag, a case-sensitive decoder
    dispatch, and the same pair of image handles. */
module ThumbnailrLegacy {
  import opened Wrappers
  import opened Images
  import opened Suffix

  /** The aspect branch of `create_thumbnail`: with `keepAspectRatio` the
      width-driven pair is taken when its height fits the box, otherwise
      the height-driven pair; without it the request is kept. */
  function ResolveSize(width: int, height: int, native: Size, keepAspectRatio: bool): (d: Dims)
    requires IsNative(native)
    ensures !keepAspectRatio ==> d == Dims(width as real, height as real)
    ensures keepAspectRatio ==> d.width == width as real || d.height == height as real
  {
    if keepAspectRatio then
      var rHeight := (width * native.height) as real / native.width as real;
      var rWidth := (height * native.width) as real / native.height as real;
      if rHeight <= height as real then Dims(width as real, rHeight) else Dims(rWidth, height as real)
    else
      Dims(width as real, height as real)
  }

  /** With a positive request, keeping the aspect ratio fits the box,
      touches it on one side and keeps the source's proportions exactly. */
  lemma KeepAspectRatioFitsBox(width: int, height: int, native: Size)
    requires width > 0 && height > 0 && IsNative(native)
    ensures var d := ResolveSize(width, height, native, true);
      0.0 < d.width <= width as real && 0.0 < d.height <= height as real &&
      (d.width == width as real || d.height == height as real) &&
      d.width * native.height as real == d.height * native.width as real
  {
  }

  /** The decoder dispatch of `create_thumbnail`: the name as given, so the
      match is case-sensitive. */
  function DetectFormat(file: string): (r: Option<Format>)
    ensures r == Some(Png) <==> EndsWith(file, ".png")
    ensures r == Some(Jpeg) <==> EndsWith(file, ".jpg") || EndsWith(file, ".jpeg")
    ensures r == None <==> !EndsWith(file, ".png") && !EndsWith(file, ".jpg") && !EndsWith(file, ".jpeg")
  {
    FormatOfSuffix(file)
  }

  /** Upper-case suffixes are rejected. */
  lemma UpperCaseSuffixRejected()
    ensures DetectFormat("a.PNG") == None
    ensures DetectFormat("a.JPG") == None
  {
    assert "a.PNG"[1..] != ".png" by { assert "a.PNG"[2] == 'P'; }
    assert "a.JPG"[1..] != ".jpg" by { assert "a.JPG"[2] == 'J'; }
  }

  /** What `create_thumbnail` does, as a value: an unknown suffix stops the
      build (the script dies); otherwise the source is decoded and the
      destination is a canvas of the resolved size, truncated to whole
      pixels, holding the resampled source. */
  function Build(file: string, width: int, height: int, native: Size, keepAspectRatio: bool)
    : (r: Result<Handles, Error>)
    requires IsNative(native)
    ensures r.Ok? <==> DetectFormat(file).Some?
    ensures r.Err? ==> r.error == UnsupportedFormat
    ensures r.Ok? ==>
      r.value.src == Decoded(DetectFormat(file).value, native) &&
      r.value.dst == Resampled(PixelSize(ResolveSize(width, height, native, keepAspectRatio)), r.value.src)
  {
    match DetectFormat(file)
    case None => Err(UnsupportedFormat)
    case Some(format) =>
      var src := Decoded(format, native);
      Ok(Handles(src, Resampled(PixelSize(ResolveSize(width, height, native, keepAspectRatio)), src)))
  }

  /** The builder object of the older version. */
  class Thumbnailr {
    const file: string
    var src: Option<Image>
    var dst: Option<Image>

    constructor (file: string := "")
      ensures this.file == file && src == None && dst == None
    {
      this.file := file;
      src := None;
      dst := None;
    }

    /** `create_thumbnail`; `native` is what `getimagesize` reports. An
        unrecognised suffix ends the build before either handle is set; a
        successful build replaces both. */
    method CreateThumbnail(width: int, height: int, native: Size, keepAspectRatio: bool := true)
      returns (r: Result<(), Error>)
      requires IsNative(native)
      modifies this
      ensures r.Err? <==> Build(file, width, height, native, keepAspectRatio).Err?
      ensures r.Err? ==> r.error == UnsupportedFormat && src == old(src) && dst == old(dst)
      ensures r.Ok? ==>
        src == Some(Build(file, width, height, native, keepAspectRatio).value.src) &&
        dst == Some(Build(file, width, height, native, keepAspectRatio).value.dst)
    {
      var size := ResolveSize(width, height, native, keepAspectRatio);
      if EndsWith(file, ".png") {
        src := Some(Decoded(Png, native));
      } else if EndsWith(file, ".jpg") || EndsWith(file, ".jpeg") {
        src := Some(Decoded(Jpeg, native));
      } else {
        return Err(UnsupportedFormat);
      }
      dst := Some(Resampled(PixelSize(size), src.value));
      return Ok(());
    }

    /** `to_png_base_64`: the PNG bytes of the destination, base64-encoded. */
    method ToPngBase64(compressionLevel: int := DefaultPngCompression) returns (r: Result<Base64Text, Error>)
      ensures r.Err? <==> dst.None?
      ensures r.Err? ==> r.error == NotBuilt
      ensures r.Ok? ==> r.value.data == Encoded(Png, compressionLevel, dst.value)
    {
      r := ToBase64(dst, Png, compressionLevel);
    }

    /** `to_png_file`: writes the PNG bytes of the destination to `path`. */
    method ToPngFile(path: Option<string> := None, compressionLevel: int := DefaultPngCompression)
      returns (r: Result<Written, Error>)
      ensures r.Err? <==> dst.None?
      ensures r.Err? ==> r.error == NotBuilt
      ensures r.Ok? ==> r.value == Written(path, Encoded(Png, compressionLevel, dst.value))
    {
      r := WriteFile(dst, Png, path, compressionLevel);
    }

    /** `to_jpeg_base_64`: the JPEG bytes of the destination, base64-encoded. */
    method ToJpegBase64(quality: int := DefaultJpegQuality) returns (r: Result<Base64Text, Error>)
      ensures r.Err? <==> dst.None?
      ensures r.Err? ==> r.error == NotBuilt
      ensures r.Ok? ==> r.value.data == Encoded(Jpeg, quality, dst.value)
    {
      r := ToBase64(dst, Jpeg, quality);
    }

    /** `to_jpeg_file`: writes the JPEG bytes of the destination to `path`. */
    method ToJpegFile(path: Option<string> := None, quality: int := DefaultJpegQuality)
      returns (r: Result<Written, Error>)
      ensures r.Err? <==> dst.None?
      ensures r.Err? ==> r.error == NotBuilt
      ensures r.Ok? ==> r.value == Written(path, Encoded(Jpeg, quality, dst.value))
    {
      r := WriteFile(dst, Jpeg, path, quality);
    }
  }
}
