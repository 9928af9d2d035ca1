/** Choosing the decoder from the end of the file name, as both builders do
    with `substr_compare(name, suffix, -len, len) === 0`, and the ASCII
    lowercasing `strtolower` applies first in the newer builder. */
module Suffix {
  import opened Wrappers
  import opened Images

  /** `strtolower` on one character: only the ASCII capitals change. */
  function LowerChar(c: char): (r: char)
    ensures 'A' <= c <= 'Z' ==> 'a' <= r <= 'z' && r as int - 'a' as int == c as int - 'A' as int
    ensures !('A' <= c <= 'Z') ==> r == c
  {
    if 'A' <= c <= 'Z' then (c as int - 'A' as int + 'a' as int) as char else c
  }

  /** `strtolower` on a string: the same length, each character lowered. */
  function Lower(s: string): (r: string)
    ensures |r| == |s|
    ensures forall i :: 0 <= i < |s| ==> r[i] == LowerChar(s[i])
  {
    if s == [] then [] else [LowerChar(s[0])] + Lower(s[1..])
  }

  /** A string is lowercase when lowering leaves each character alone. */
  predicate IsLower(s: string) {
    forall i :: 0 <= i < |s| ==> LowerChar(s[i]) == s[i]
  }

  /** `substr_compare(s, suffix, -|suffix|, |suffix|) === 0`. A negative
      offset reaching before the start of `s` is moved to 0, and the
      comparison then fails because the lengths differ, so a name shorter
      than the suffix never matches. */
  predicate EndsWith(s: string, suffix: string) {
    |suffix| <= |s| && s[|s| - |suffix|..] == suffix
  }

  /** `EndsWith` is the usual notion of a suffix: the name is some prefix
      followed by the suffix. In particular a name shorter than the suffix
      never ends with it. */
  lemma EndsWithIsSuffix(s: string, suffix: string)
    ensures EndsWith(s, suffix) <==> exists p :: s == p + suffix
  {
    if EndsWith(s, suffix) {
      var p := s[..|s| - |suffix|];
      assert s == p + suffix;
    }
    if exists p :: s == p + suffix {
      var p :| s == p + suffix;
      assert s[|p|..] == suffix;
    }
  }

  /** A suffix that is already lowercase survives lowering the name. */
  lemma EndsWithLower(s: string, suffix: string)
    requires IsLower(suffix)
    requires EndsWith(s, suffix)
    ensures EndsWith(Lower(s), suffix)
  {
    var k := |s| - |suffix|;
    forall i | 0 <= i < |suffix|
      ensures Lower(s)[k..][i] == suffix[i]
    {
      assert s[k + i] == s[k..][i] == suffix[i];
    }
  }

  /** No name ends both in `.png` and in one of the JPEG suffixes. */
  lemma PngExcludesJpeg(name: string)
    requires EndsWith(name, ".png")
    ensures !EndsWith(name, ".jpg") && !EndsWith(name, ".jpeg")
  {
    var n := |name|;
    assert name[n - 3] == name[n - 4..][1] == 'p';
    assert name[n - 4] == name[n - 4..][0] == '.';
  }

  /** The decoder dispatch on a name as given: `.png` first, then `.jpg`
      or `.jpeg`; anything else has no decoder. */
  function FormatOfSuffix(name: string): (r: Option<Format>)
    ensures r == Some(Png) <==> EndsWith(name, ".png")
    ensures r == Some(Jpeg) <==> EndsWith(name, ".jpg") || EndsWith(name, ".jpeg")
    ensures r == None <==> !EndsWith(name, ".png") && !EndsWith(name, ".jpg") && !EndsWith(name, ".jpeg")
  {
    if EndsWith(name, ".png") then
      PngExcludesJpeg(name);
      Some(Png)
    else if EndsWith(name, ".jpg") || EndsWith(name, ".jpeg") then
      Some(Jpeg)
    else
      None
  }

  /** A recognised lowercase suffix is recognised after lowering the name,
      with the same format. */
  lemma FormatOfSuffixUnderLower(name: string)
    requires FormatOfSuffix(name).Some?
    ensures FormatOfSuffix(Lower(name)) == FormatOfSuffix(name)
  {
    assert IsLower(".png") && IsLower(".jpg") && IsLower(".jpeg");
    if EndsWith(name, ".png") {
      EndsWithLower(name, ".png");
    } else if EndsWith(name, ".jpg") {
      EndsWithLower(name, ".jpg");
    } else {
      EndsWithLower(name, ".jpeg");
    }
  }
}
