/** How the older builder (src/thumbnailr.php) relates to version 2.0
    (src/Thumbnailr.php): its boolean switch is two of the three flags, its
    case-sensitive dispatch accepts a subset of the names, and every build
    it completes, version 2.0 completes with the same handles. */
module Versions {
  import opened Wrappers
  import opened Images
  import opened Suffix
  import ThumbnailrV2
  import ThumbnailrLegacy

  /** The flag of version 2.0 that a boolean aspect-ratio switch
      corresponds to. */
  function FlagFor(keepAspectRatio: bool): (flag: int)
    ensures flag == ThumbnailrV2.SizeFitLongest || flag == ThumbnailrV2.SizeFixed
    ensures keepAspectRatio <==> flag == ThumbnailrV2.SizeFitLongest
  {
    if keepAspectRatio then ThumbnailrV2.SizeFitLongest else ThumbnailrV2.SizeFixed
  }

  /** The boolean switch is the flag-driven resolver restricted to two
      flags: keeping the aspect ratio is `SizeFitLongest`, not keeping it
      is `SizeFixed`. */
  lemma AgreesWithFlagResolver(width: int, height: int, native: Size, keepAspectRatio: bool)
    requires IsNative(native)
    ensures ThumbnailrV2.ResolveSize(width, height, native, FlagFor(keepAspectRatio))
         == Ok(ThumbnailrLegacy.ResolveSize(width, height, native, keepAspectRatio))
  {
  }

  /** Every name the case-sensitive dispatch accepts, version 2.0 accepts
      with the same decoder. */
  lemma LegacyFormatAcceptedByV2(file: string)
    requires ThumbnailrLegacy.DetectFormat(file).Some?
    ensures ThumbnailrV2.DetectFormat(file) == ThumbnailrLegacy.DetectFormat(file)
  {
    ThumbnailrV2.DetectFormatExtendsCaseSensitive(file);
  }

  /** The converse fails: `a.PNG` is decoded by version 2.0 only. */
  lemma UpperCaseSuffixOnlyInV2()
    ensures ThumbnailrLegacy.DetectFormat("a.PNG") == None
    ensures ThumbnailrV2.DetectFormat("a.PNG") == Some(Png)
  {
    ThumbnailrLegacy.UpperCaseSuffixRejected();
    ThumbnailrV2.UpperCasePngAccepted();
  }

  /** Every build the older builder completes, version 2.0 completes with
      the corresponding flag and the same handles. */
  lemma BuildRefinedByV2(file: string, width: int, height: int, native: Size, keepAspectRatio: bool)
    requires IsNative(native)
    requires ThumbnailrLegacy.Build(file, width, height, native, keepAspectRatio).Ok?
    ensures ThumbnailrV2.Build(file, width, height, native, FlagFor(keepAspectRatio))
         == ThumbnailrLegacy.Build(file, width, height, native, keepAspectRatio)
  {
    AgreesWithFlagResolver(width, height, native, keepAspectRatio);
    LegacyFormatAcceptedByV2(file);
  }
}
