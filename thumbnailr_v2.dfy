/** The namespaced builder of version 2.0 (src/Thumbnailr.php): a size
    resolver driven by a size-transformation flag, a case-insensitive
    decoder dispatch, and a builder object holding the source and
    destination image handles. */
module ThumbnailrV2 {
  import opened Wrappers
  import opened Images
  import opened Suffix

  /** The three size-transformation flags. */
  const SizeFixed: int := 1
  const SizeFitLongest: int := 2
  const SizeFitShortest: int := 3

  /** The size switch of `buildThumbnail`. `SizeFixed` keeps the request;
      the two fitting flags compute the height that goes with the requested
      width and the width that goes with the requested height (exactly, as
      fractions), and `SizeFitLongest` takes the width-driven pair when its
      height fits the box while `SizeFitShortest` takes it when its height
      overflows the box; any other flag is an error. */
  function ResolveSize(width: int, height: int, native: Size, flag: int): (r: Result<Dims, Error>)
    requires IsNative(native)
    ensures r.Err? <==> flag != SizeFixed && flag != SizeFitLongest && flag != SizeFitShortest
    ensures r.Err? ==> r.error == InvalidPolicy
    ensures flag == SizeFixed ==> r == Ok(Dims(width as real, height as real))
    ensures flag == SizeFitLongest || flag == SizeFitShortest ==>
      r.Ok? && (r.value.width == width as real || r.value.height == height as real)
  {
    if flag == SizeFixed then
      Ok(Dims(width as real, height as real))
    else if flag == SizeFitLongest || flag == SizeFitShortest then
      var rHeight := (width * native.height) as real / native.width as real;
      var rWidth := (height * native.width) as real / native.height as real;
      if flag == SizeFitLongest then
        if rHeight <= height as real then Ok(Dims(width as real, rHeight)) else Ok(Dims(rWidth, height as real))
      else
        if rHeight > height as real then Ok(Dims(width as real, rHeight)) else Ok(Dims(rWidth, height as real))
    else
      Err(InvalidPolicy)
  }

  /** Dividing by a positive number and comparing, or comparing the
      cross-multiplied values, decide the same. */
  lemma DivCompare(a: real, b: real, c: real)
    requires c > 0.0
    ensures a / c <= b <==> a <= b * c
    ensures a / c * c == a
  {
  }

  /** Both fitting flags keep the source's aspect ratio exactly. */
  lemma AspectRatioPreserved(width: int, height: int, native: Size, flag: int)
    requires IsNative(native)
    requires flag == SizeFitLongest || flag == SizeFitShortest
    ensures var d := ResolveSize(width, height, native, flag).value;
      d.width * native.height as real == d.height * native.width as real
  {
  }

  /** `SizeFitLongest` with a positive request: the thumbnail fits inside
      the box and touches it on at least one side. */
  lemma FitLongestWithinBox(width: int, height: int, native: Size)
    requires width > 0 && height > 0 && IsNative(native)
    ensures var d := ResolveSize(width, height, native, SizeFitLongest).value;
      0.0 < d.width <= width as real && 0.0 < d.height <= height as real &&
      (d.width == width as real || d.height == height as real)
  {
  }

  /** `SizeFitShortest` with a positive request: the thumbnail covers the
      box and touches it on at least one side. */
  lemma FitShortestCoversBox(width: int, height: int, native: Size)
    requires width > 0 && height > 0 && IsNative(native)
    ensures var d := ResolveSize(width, height, native, SizeFitShortest).value;
      d.width >= width as real && d.height >= height as real &&
      (d.width == width as real || d.height == height as real)
  {
  }

  /** The smaller of two ratios. */
  function Min(a: real, b: real): (m: real)
    ensures m <= a && m <= b && (m == a || m == b)
  {
    if a <= b then a else b
  }

  /** The larger of two ratios. */
  function Max(a: real, b: real): (m: real)
    ensures m >= a && m >= b && (m == a || m == b)
  {
    if a >= b then a else b
  }

  /** The source scaled uniformly by a factor. */
  function Scaled(native: Size, k: real): (d: Dims) {
    Dims(native.width as real * k, native.height as real * k)
  }

  /** An independent description of the two fitting flags: the thumbnail is
      the source scaled by the smaller (`SizeFitLongest`) or the larger
      (`SizeFitShortest`) of the two ratios request/source. */
  lemma FitIsUniformScale(width: int, height: int, native: Size)
    requires IsNative(native)
    ensures var kw, kh := width as real / native.width as real, height as real / native.height as real;
      ResolveSize(width, height, native, SizeFitLongest) == Ok(Scaled(native, Min(kw, kh))) &&
      ResolveSize(width, height, native, SizeFitShortest) == Ok(Scaled(native, Max(kw, kh)))
  {
    var w, h, ow, oh := width as real, height as real, native.width as real, native.height as real;
    var kw, kh := w / ow, h / oh;
    assert ow * kw == w && oh * kh == h by {
      DivCompare(w, 0.0, ow);
      DivCompare(h, 0.0, oh);
    }
    assert (width * native.height) as real / ow == oh * kw;
    assert (height * native.width) as real / oh == ow * kh;
    assert oh * kw <= h <==> kw <= kh by {
      DivCompare(h, kw, oh);
    }
    if kw <= kh {
      assert Scaled(native, Min(kw, kh)) == Dims(w, oh * kw);
    } else {
      assert Scaled(native, Min(kw, kh)) == Dims(ow * kh, h);
    }
    if kw > kh {
      assert Scaled(native, Max(kw, kh)) == Dims(w, oh * kw);
    } else {
      assert Scaled(native, Max(kw, kh)) == Dims(ow * kh, h);
    }
  }

  /** `SizeFitLongest` in pixels: the truncated size still fits the box and
      keeps the requested length on the side that bound it. */
  lemma FitLongestPixelsWithinBox(width: int, height: int, native: Size)
    requires width > 0 && height > 0 && IsNative(native)
    ensures var p := PixelSize(ResolveSize(width, height, native, SizeFitLongest).value);
      0 <= p.width <= width && 0 <= p.height <= height && (p.width == width || p.height == height)
  {
  }

  /** `SizeFitShortest` in pixels: the truncated size still covers the box
      and keeps the requested length on one side. */
  lemma FitShortestPixelsCoverBox(width: int, height: int, native: Size)
    requires width > 0 && height > 0 && IsNative(native)
    ensures var p := PixelSize(ResolveSize(width, height, native, SizeFitShortest).value);
      p.width >= width && p.height >= height && (p.width == width || p.height == height)
  {
  }

  /** `SizeFixed` in pixels is the request, whatever the source. */
  lemma FixedPixelsAreRequest(width: int, height: int, native: Size)
    requires IsNative(native)
    ensures PixelSize(ResolveSize(width, height, native, SizeFixed).value) == Size(width, height)
  {
    TruncOfInteger(width);
    TruncOfInteger(height);
  }

  /** An 800x600 source fitted into 100x100 with `SizeFitLongest`
      becomes 100x75. */
  lemma LandscapeFitLongest()
    ensures PixelSize(ResolveSize(100, 100, Size(800, 600), SizeFitLongest).value) == Size(100, 75)
  {
  }

  /** A 600x800 source covering 100x100 with `SizeFitShortest`: the height
      133.33... is truncated, giving 100x133. */
  lemma PortraitFitShortest()
    ensures PixelSize(ResolveSize(100, 100, Size(600, 800), SizeFitShortest).value) == Size(100, 133)
  {
  }

  /** A very flat source: the fitted height 0.1 truncates to 0, the height
      handed to `imagecreatetruecolor`. */
  lemma FlatSourceTruncatesToZero()
    ensures PixelSize(ResolveSize(100, 100, Size(1000, 1), SizeFitLongest).value) == Size(100, 0)
  {
  }

  /** The decoder dispatch of `buildThumbnail`: the suffix of the lowered
      name decides, so the match ignores ASCII case. */
  function DetectFormat(file: string): (r: Option<Format>)
    ensures r == Some(Png) <==> EndsWith(Lower(file), ".png")
    ensures r == Some(Jpeg) <==> EndsWith(Lower(file), ".jpg") || EndsWith(Lower(file), ".jpeg")
    ensures r == None <==>
      !EndsWith(Lower(file), ".png") && !EndsWith(Lower(file), ".jpg") && !EndsWith(Lower(file), ".jpeg")
  {
    FormatOfSuffix(Lower(file))
  }

  /** Names that differ only in ASCII case select the same decoder. */
  lemma DetectFormatIgnoresCase(a: string, b: string)
    requires |a| == |b|
    requires forall i :: 0 <= i < |a| ==> LowerChar(a[i]) == LowerChar(b[i])
    ensures DetectFormat(a) == DetectFormat(b)
  {
    assert Lower(a) == Lower(b);
  }

  /** Every name the case-sensitive dispatch accepts is accepted here too,
      with the same decoder. */
  lemma DetectFormatExtendsCaseSensitive(file: string)
    requires FormatOfSuffix(file).Some?
    ensures DetectFormat(file) == FormatOfSuffix(file)
  {
    FormatOfSuffixUnderLower(file);
  }

  /** An upper-case `.PNG` is decoded as PNG. */
  lemma UpperCasePngAccepted()
    ensures DetectFormat("a.PNG") == Some(Png)
  {
    assert Lower("a.PNG") == "a.png";
    assert "a.png"[1..] == ".png";
  }

  /** A mixed-case `.JpEg` is decoded as JPEG. */
  lemma MixedCaseJpegAccepted()
    ensures DetectFormat("a.JpEg") == Some(Jpeg)
  {
    assert Lower("a.JpEg") == "a.jpeg";
    assert "a.jpeg"[1..] == ".jpeg";
  }

  /** A `.gif` has no decoder. */
  lemma GifRejected()
    ensures DetectFormat("a.gif") == None
  {
    assert Lower("a.gif") == "a.gif";
    assert "a.gif"[1..] == ".gif";
  }

  /** A name too short to hold a suffix has no decoder. */
  lemma ShortNameRejected()
    ensures DetectFormat("png") == None
  {
  }

  /** What `buildThumbnail` does, as a value: the size switch runs first and
      an unknown flag stops the build; then the decoder dispatch, where an
      unknown suffix stops it; otherwise the source is decoded at its native
      size and the destination is a canvas of the resolved size, truncated
      to whole pixels, into which the whole source was resampled. */
  function Build(file: string, width: int, height: int, native: Size, flag: int): (r: Result<Handles, Error>)
    requires IsNative(native)
    ensures r.Ok? <==> ResolveSize(width, height, native, flag).Ok? && DetectFormat(file).Some?
    ensures ResolveSize(width, height, native, flag).Err? ==> r == Err(InvalidPolicy)
    ensures ResolveSize(width, height, native, flag).Ok? && DetectFormat(file).None? ==> r == Err(UnsupportedFormat)
    ensures r.Ok? ==>
      r.value.src == Decoded(DetectFormat(file).value, native) &&
      r.value.dst.Resampled? && r.value.dst.source == r.value.src &&
      r.value.dst.size == PixelSize(ResolveSize(width, height, native, flag).value)
  {
    match ResolveSize(width, height, native, flag)
    case Err(e) => Err(e)
    case Ok(d) =>
      match DetectFormat(file)
      case None => Err(UnsupportedFormat)
      case Some(format) =>
        var src := Decoded(format, native);
        Ok(Handles(src, Resampled(PixelSize(d), src)))
  }

  /** A successful build with `SizeFitLongest` produces a destination that
      fits the box, and exporting it encodes exactly that destination. */
  lemma BuiltThumbnailFitsAndExports(file: string, width: int, height: int, native: Size, setting: int)
    requires width > 0 && height > 0 && IsNative(native)
    requires DetectFormat(file).Some?
    ensures var r := Build(file, width, height, native, SizeFitLongest);
      r.Ok? && r.value.dst.size.width <= width && r.value.dst.size.height <= height &&
      Encode(Some(r.value.dst), Png, setting) == Ok(Encoded(Png, setting, r.value.dst))
  {
  }

  /** The builder object: the path given to the constructor and the two
      image handles, unset until a build succeeds. */
  class Thumbnailr {
    const file: string
    var src: Option<Image>
    var dst: Option<Image>

    /** PHP's default `NULL` path behaves as the empty string here. */
    constructor (file: string := "")
      ensures this.file == file && src == None && dst == None
    {
      this.file := file;
      src := None;
      dst := None;
    }

    /** `buildThumbnail`; `native` is what `getimagesize` reports for the
        file. A failed build changes nothing; a successful one replaces both
        handles, whatever they held before. */
    method BuildThumbnail(width: int, height: int, native: Size, flag: int := SizeFitLongest)
      returns (r: Result<(), Error>)
      requires IsNative(native)
      modifies this
      ensures r.Err? <==> Build(file, width, height, native, flag).Err?
      ensures r.Err? ==> r.error == Build(file, width, height, native, flag).error
      ensures r.Err? ==> src == old(src) && dst == old(dst)
      ensures r.Ok? ==>
        src == Some(Build(file, width, height, native, flag).value.src) &&
        dst == Some(Build(file, width, height, native, flag).value.dst)
    {
      var resolved := ResolveSize(width, height, native, flag);
      if resolved.Err? {
        return Err(InvalidPolicy);
      }
      var lowered := Lower(file);
      if EndsWith(lowered, ".png") {
        src := Some(Decoded(Png, native));
      } else if EndsWith(lowered, ".jpg") || EndsWith(lowered, ".jpeg") {
        src := Some(Decoded(Jpeg, native));
      } else {
        return Err(UnsupportedFormat);
      }
      dst := Some(Resampled(PixelSize(resolved.value), src.value));
      return Ok(());
    }

    /** `toPngBase64`: the PNG bytes of the destination, base64-encoded;
        reads the destination and changes nothing. */
    method ToPngBase64(compressionLevel: int := DefaultPngCompression) returns (r: Result<Base64Text, Error>)
      ensures r.Err? <==> dst.None?
      ensures r.Err? ==> r.error == NotBuilt
      ensures r.Ok? ==> r.value.data == Encoded(Png, compressionLevel, dst.value)
    {
      r := ToBase64(dst, Png, compressionLevel);
    }

    /** `toPngFile`: writes the PNG bytes of the destination to `path`. */
    method ToPngFile(path: Option<string> := None, compressionLevel: int := DefaultPngCompression)
      returns (r: Result<Written, Error>)
      ensures r.Err? <==> dst.None?
      ensures r.Err? ==> r.error == NotBuilt
      ensures r.Ok? ==> r.value == Written(path, Encoded(Png, compressionLevel, dst.value))
    {
      r := WriteFile(dst, Png, path, compressionLevel);
    }

    /** `toJpegBase64`: the JPEG bytes of the destination, base64-encoded. */
    method ToJpegBase64(quality: int := DefaultJpegQuality) returns (r: Result<Base64Text, Error>)
      ensures r.Err? <==> dst.None?
      ensures r.Err? ==> r.error == NotBuilt
      ensures r.Ok? ==> r.value.data == Encoded(Jpeg, quality, dst.value)
    {
      r := ToBase64(dst, Jpeg, quality);
    }

    /** `toJpegFile`: writes the JPEG bytes of the destination to `path`. */
    method ToJpegFile(path: Option<string> := None, quality: int := DefaultJpegQuality)
      returns (r: Result<Written, Error>)
      ensures r.Err? <==> dst.None?
      ensures r.Err? ==> r.error == NotBuilt
      ensures r.Ok? ==> r.value == Written(path, Encoded(Jpeg, quality, dst.value))
    {
      r := WriteFile(dst, Jpeg, path, quality);
    }
  }

  /** A caller's view: exporting before any build fails, the default flag
      fits the box, and a second build replaces the destination. */
  method BuildThenExport(file: string)
    requires DetectFormat(file) == Some(Jpeg)
  {
    var t := new Thumbnailr(file);
    var early := t.ToPngBase64();
    assert early == Err(NotBuilt);
    var r := t.BuildThumbnail(100, 100, Size(800, 600));
    LandscapeFitLongest();
    assert r.Ok? && t.dst.value.size == Size(100, 75);
    var bad := t.BuildThumbnail(10, 10, Size(800, 600), 7);
    assert bad == Err(InvalidPolicy) && t.dst.value.size == Size(100, 75);
    var again := t.BuildThumbnail(50, 50, Size(800, 600), SizeFixed);
    FixedPixelsAreRequest(50, 50, Size(800, 600));
    assert again.Ok? && t.dst.value.size == Size(50, 50);
    var out := t.ToJpegFile(Some("thumb.jpg"));
    assert out.Ok? && out.value.data.image.size == Size(50, 50) && out.value.data.setting == 75;
  }
}
