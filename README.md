# Thumbnailr, modelled in Dafny

Thumbnailr is a small PHP utility that makes a thumbnail of a PNG or JPEG
image. Its builder object is constructed with the path of the source image.
A build works out the thumbnail's size from a requested box, a fit policy
and the source's native size. It then picks a decoder from the file-name
suffix, decodes the source, and resamples it into a fresh canvas of the
resolved size. Export operations write the canvas as PNG or JPEG, either to
a file or as base64 text. The repository ships two versions of the
builder:

- `src/Thumbnailr.php` (version 2.0, namespace `Thumbnailr`):
  `buildThumbnail(width, height, sizeTransformation)` takes one of the
  flags `SIZE_FIXED` (1), `SIZE_FIT_LONGEST` (2, the default) and
  `SIZE_FIT_SHORTEST` (3). The suffix is matched on the lowercased path.
- `src/thumbnailr.php` (the older class): `create_thumbnail(width, height,
  keep_aspect_ratio)` takes a boolean (default true). The suffix is matched
  case-sensitively.

The model has six modules:

- `Wrappers` (wrappers.dfy): `Option` and `Result`.
- `Images` (images.dfy): the image handles as tokens that carry a size and
  their origin; the pair of handles a build leaves; the error kinds; PHP's float-to-int truncation; the encoded
  outputs of the exports.
- `Suffix` (suffix.dfy): `strtolower` on ASCII, the `substr_compare` suffix
  test, and the suffix-to-decoder dispatch.
- `ThumbnailrV2` (thumbnailr_v2.dfy): the version 2.0 size resolver, its
  decoder dispatch, the build as a value, and the class `Thumbnailr` with
  the fields `file`, `src` and `dst`. The method `BuildThenExport` is a
  caller's walk through the class: an export before any build fails, a
  default-flag build of an 800x600 JPEG gives a 100x75 canvas, a build with
  an unknown flag leaves it in place, and a fixed-size rebuild replaces it.
- `ThumbnailrLegacy` (thumbnailr_legacy.dfy): the same for the older class.
- `Versions` (versions.dfy): lemmas that relate the older class to
  version 2.0.

Sizes are resolved exactly, over `real`, as the fractions
`width * oHeight / oWidth` and `height * oWidth / oHeight`. A separate step,
`PixelSize`, truncates them toward zero. That step stands for PHP's
conversion of the float arguments of `imagecreatetruecolor`. The native size
that `getimagesize` reports is a parameter (`native`) with positive sides.

## Model

| member | source | states |
|---|---|---|
| `Images.Trunc` | src/Thumbnailr.php:98 | the integer handed to `imagecreatetruecolor` is the float truncated toward zero: for x >= 0, n <= x < n + 1; for x < 0, n - 1 < x <= n |
| `Images.TruncOfInteger` | src/Thumbnailr.php:61-63 | a whole-number size, as `SIZE_FIXED` keeps it, passes the conversion unchanged, whatever its sign |
| `Images.PixelSize` | src/Thumbnailr.php:98 | each side of the canvas is the resolved side truncated, within one pixel below it |
| `Images.Encode` | src/Thumbnailr.php:130-133 | encoding fails with NotBuilt exactly when there is no destination; otherwise it encodes that destination with the setting passed through |
| `Images.WriteFile` | src/Thumbnailr.php:130-133 | a file export fails exactly when nothing was built and otherwise writes the encoding of the destination to the given path |
| `Images.ToBase64` | src/Thumbnailr.php:114-124 | the base64 export is the buffered file export (path NULL), so it fails exactly when the file export fails |
| `Suffix.LowerChar` | src/Thumbnailr.php:91 | `strtolower` maps an ASCII capital to the matching small letter and leaves every other character alone |
| `Suffix.Lower` | src/Thumbnailr.php:91 | lowering keeps the length and lowers every character |
| `Suffix.EndsWithIsSuffix` | src/Thumbnailr.php:91-93 | `substr_compare(name, suffix, -n, n) === 0` holds exactly when the name is some prefix followed by the suffix; since the offset is clamped to the start and the lengths then differ, a name shorter than the suffix never matches |
| `Suffix.EndsWithLower` | src/Thumbnailr.php:91-93 | a name that ends in a lowercase suffix still ends in it after lowering |
| `Suffix.PngExcludesJpeg` | src/Thumbnailr.php:91-94 | no name ends both in `.png` and in `.jpg` or `.jpeg`, so the order of the tests does not matter |
| `Suffix.FormatOfSuffix` | src/thumbnailr.php:37-42 | PNG exactly when the name ends in `.png`, JPEG exactly when it ends in `.jpg` or `.jpeg`, and nothing otherwise, including names shorter than the suffix |
| `Suffix.FormatOfSuffixUnderLower` | src/Thumbnailr.php:91-96 | a name the case-sensitive test accepts keeps its format after lowering |
| `ThumbnailrV2.ResolveSize` | src/Thumbnailr.php:59-89 | a flag outside {1, 2, 3} is exactly the InvalidPolicy error; `SIZE_FIXED` yields the request unchanged; both fitting flags keep the requested length on at least one side |
| `ThumbnailrV2.AspectRatioPreserved` | src/Thumbnailr.php:65-85 | both fitting flags keep the source's aspect ratio exactly: rw * oHeight == rh * oWidth |
| `ThumbnailrV2.FitLongestWithinBox` | src/Thumbnailr.php:67-76 | for a positive request, `SIZE_FIT_LONGEST` gives 0 < rw <= width and 0 < rh <= height, with equality on at least one side |
| `ThumbnailrV2.FitShortestCoversBox` | src/Thumbnailr.php:67-83 | for a positive request, `SIZE_FIT_SHORTEST` gives rw >= width and rh >= height, with equality on at least one side |
| `ThumbnailrV2.FitIsUniformScale` | src/Thumbnailr.php:65-85 | `SIZE_FIT_LONGEST` is the source scaled by min(width/oWidth, height/oHeight) and `SIZE_FIT_SHORTEST` the source scaled by the max |
| `ThumbnailrV2.FitLongestPixelsWithinBox` | src/Thumbnailr.php:65-98 | after truncation the `SIZE_FIT_LONGEST` canvas still fits the box and keeps the requested length on one side |
| `ThumbnailrV2.FitShortestPixelsCoverBox` | src/Thumbnailr.php:65-98 | after truncation the `SIZE_FIT_SHORTEST` canvas still covers the box and keeps the requested length on one side |
| `ThumbnailrV2.FixedPixelsAreRequest` | src/Thumbnailr.php:61-63 | with `SIZE_FIXED` the canvas is exactly the requested width and height, whatever the source |
| `ThumbnailrV2.LandscapeFitLongest` | src/Thumbnailr.php:65-98 | an 800x600 source fitted into 100x100 gives a 100x75 canvas |
| `ThumbnailrV2.PortraitFitShortest` | src/Thumbnailr.php:65-98 | a 600x800 source covering 100x100 gives a 100x133 canvas (133.33 truncated) |
| `ThumbnailrV2.FlatSourceTruncatesToZero` | src/Thumbnailr.php:65-98 | a 1000x1 source fitted into 100x100 hands `imagecreatetruecolor` a height of 0 (0.1 truncated) |
| `ThumbnailrV2.DetectFormat` | src/Thumbnailr.php:91-96 | PNG exactly when the lowered path ends in `.png`, JPEG exactly when it ends in `.jpg` or `.jpeg`, no decoder otherwise |
| `ThumbnailrV2.DetectFormatIgnoresCase` | src/Thumbnailr.php:91-96 | two paths of the same length whose characters agree position by position up to ASCII case select the same decoder |
| `ThumbnailrV2.DetectFormatExtendsCaseSensitive` | src/Thumbnailr.php:91-96 | every path the case-sensitive test accepts is accepted with the same format |
| `ThumbnailrV2.UpperCasePngAccepted` | src/Thumbnailr.php:91-92 | `a.PNG` is decoded as PNG |
| `ThumbnailrV2.MixedCaseJpegAccepted` | src/Thumbnailr.php:93-94 | `a.JpEg` is decoded as JPEG |
| `ThumbnailrV2.GifRejected` | src/Thumbnailr.php:95-96 | `a.gif` has no decoder |
| `ThumbnailrV2.ShortNameRejected` | src/Thumbnailr.php:91-96 | a path shorter than the suffix, `png`, has no decoder |
| `ThumbnailrV2.Build` | src/Thumbnailr.php:52-99 | a build succeeds exactly when the flag is known and the suffix recognised; an unknown flag is reported before the suffix; on success the source is decoded at its native size and the destination is the truncated resolved size, resampled from that source |
| `ThumbnailrV2.BuiltThumbnailFitsAndExports` | src/Thumbnailr.php:52-133 | a default-flag build of a recognised file succeeds, its canvas fits the box, and the PNG export encodes exactly that canvas |
| `ThumbnailrV2.Thumbnailr.constructor` | src/Thumbnailr.php:24-26 | the path is stored and neither handle is set |
| `ThumbnailrV2.Thumbnailr.BuildThumbnail` | src/Thumbnailr.php:52-103 | the flag defaults to `SIZE_FIT_LONGEST`; an error leaves `src` and `dst` unchanged; success replaces both with the handles of `Build`, whatever they held before |
| `ThumbnailrV2.Thumbnailr.ToPngBase64` | src/Thumbnailr.php:114-124 | fails with NotBuilt exactly when there is no destination; otherwise the text encodes the destination as PNG at the level given (default 5); changes nothing |
| `ThumbnailrV2.Thumbnailr.ToPngFile` | src/Thumbnailr.php:130-133 | fails with NotBuilt exactly when there is no destination; otherwise writes the destination as PNG to the path; changes nothing |
| `ThumbnailrV2.Thumbnailr.ToJpegBase64` | src/Thumbnailr.php:144-154 | fails with NotBuilt exactly when there is no destination; otherwise the text encodes the destination as JPEG at the quality given (default 75) |
| `ThumbnailrV2.Thumbnailr.ToJpegFile` | src/Thumbnailr.php:156-159 | fails with NotBuilt exactly when there is no destination; otherwise writes the destination as JPEG to the path |
| `ThumbnailrLegacy.ResolveSize` | src/thumbnailr.php:26-35 | without `keep_aspect_ratio` the request is kept; with it the requested length is kept on at least one side |
| `ThumbnailrLegacy.KeepAspectRatioFitsBox` | src/thumbnailr.php:28-34 | for a positive request, keeping the aspect ratio fits the box, touches it on one side and keeps rw * size[1] == rh * size[0] |
| `ThumbnailrLegacy.DetectFormat` | src/thumbnailr.php:37-42 | PNG exactly when the name as given ends in `.png`, JPEG exactly when it ends in `.jpg` or `.jpeg`, no decoder otherwise |
| `ThumbnailrLegacy.UpperCaseSuffixRejected` | src/thumbnailr.php:37-42 | `a.PNG` and `a.JPG` are rejected: the match is case-sensitive |
| `ThumbnailrLegacy.Build` | src/thumbnailr.php:22-45 | a build succeeds exactly when the suffix is recognised, otherwise it is UnsupportedFormat; on success the handles are the decoded source and the truncated resolved canvas |
| `ThumbnailrLegacy.Thumbnailr.constructor` | src/thumbnailr.php:17-20 | the path is stored and neither handle is set |
| `ThumbnailrLegacy.Thumbnailr.CreateThumbnail` | src/thumbnailr.php:22-49 | `keep_aspect_ratio` defaults to true; an unrecognised suffix ends the build with `_src` and `_dst` unchanged; success replaces both with the handles of `Build` |
| `ThumbnailrLegacy.Thumbnailr.ToPngBase64` | src/thumbnailr.php:60-70 | fails with NotBuilt exactly when there is no destination; otherwise the text encodes the destination as PNG at the level given (default 5) |
| `ThumbnailrLegacy.Thumbnailr.ToPngFile` | src/thumbnailr.php:76-79 | fails with NotBuilt exactly when there is no destination; otherwise writes the destination as PNG to the path |
| `ThumbnailrLegacy.Thumbnailr.ToJpegBase64` | src/thumbnailr.php:90-100 | fails with NotBuilt exactly when there is no destination; otherwise the text encodes the destination as JPEG at the quality given (default 75) |
| `ThumbnailrLegacy.Thumbnailr.ToJpegFile` | src/thumbnailr.php:102-105 | fails with NotBuilt exactly when there is no destination; otherwise writes the destination as JPEG to the path |
| `Versions.FlagFor` | src/thumbnailr.php:22-35 | the boolean switch corresponds to exactly two flags, true to `SIZE_FIT_LONGEST` and false to `SIZE_FIXED` |
| `Versions.AgreesWithFlagResolver` | src/thumbnailr.php:26-35 | the boolean resolver equals the version 2.0 resolver with the corresponding flag, for every input |
| `Versions.BuildRefinedByV2` | src/thumbnailr.php:22-45 | every build the older class completes, version 2.0 completes with the corresponding flag and identical handles |
| `Versions.LegacyFormatAcceptedByV2` | src/thumbnailr.php:37-42 | every name the older, case-sensitive dispatch accepts, version 2.0 accepts with the same decoder |
| `Versions.UpperCaseSuffixOnlyInV2` | src/Thumbnailr.php:91-92 | `a.PNG` is rejected by the older dispatch and decoded as PNG by version 2.0, so the inclusion is strict |

## Left out

- The GD library is opaque. `getimagesize` becomes the parameter `native`. A file it cannot read, which would give PHP a division by zero or a missing size, is excluded by the requirement that both native sides are positive.
- `imagecreatefrompng`, `imagecreatefromjpeg`, `imagecreatetruecolor` and `imagecopyresampled` become image tokens that record only a size and an origin. A decode failure on a corrupt file is not modelled, and neither are pixels or resampling.
- `imagecreatetruecolor` rejects a side below one pixel. Truncation can hand it a 0 (`ThumbnailrV2.FlatSourceTruncatesToZero`), and the model does not model that rejection: its build then succeeds with a 0-sided destination token. On PHP 8 the rejection is an error raised after src/Thumbnailr.php:92/94 (src/thumbnailr.php:38/40) has already replaced the source handle, leaving the destination handle as it was; the model does not capture that partial update either.
- The divisions at src/Thumbnailr.php:67-68 and src/thumbnailr.php:28-29 are computed exactly, over `real`. PHP computes the integer product exactly and divides as doubles when the quotient is not whole. IEEE double rounding is not modelled; it can matter only once a product `width * oHeight` or `height * oWidth` reaches 2^53 (sides of about 10^8 pixels), where it can flip the comparison at src/Thumbnailr.php:72/79 (src/thumbnailr.php:31) or the truncation at src/Thumbnailr.php:98 (src/thumbnailr.php:44).
- PNG compression, JPEG quality and the encoded bytes are not modelled. The level and quality pass through unvalidated into an `Encoded` token, and GD's own range checks are not modelled. `ob_start`/`ob_get_contents` and `base64_encode` become the `Base64Text` wrapper around that token.
- An export with no destination is modelled as the error NotBuilt. PHP itself raises a type error, or on older versions warns and returns NULL from the file exports and empty text from the base64 exports.
- `throw` in version 2.0 and `die` in the older class are both modelled as an error result. The model does not capture that `die` ends the whole script, or that the unqualified `Exception` inside the namespace does not resolve to PHP's own class.
- PHP's loose `switch` comparison is not modelled: the flag is an `int`, and width, height and flag are never strings, floats or booleans. The path is a `string`; a constructor called without a path gets the empty string where PHP has `NULL`.
- `strtolower` is modelled as ASCII lowercasing. Locale-dependent lowering, as in PHP before 8.2, is not modelled.
- Method chaining (`return $this`) is not modelled: the build methods return an outcome instead of the object.
