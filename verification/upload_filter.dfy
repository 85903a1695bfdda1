/**
 * The audio allow-list that both separation servers hand to multer's
 * `fileFilter`: the lower-cased `path.extname` of the client's file name
 * must be one of `.mp3`, `.wav`, `.flac`, `.m4a`.
 */
module UploadFilter {
  import opened Base
  import opened Strings
  import opened NodePath

  const AllowedTypes: seq<string> := [".mp3", ".wav", ".flac", ".m4a"]

  /** `allowedTypes.includes(path.extname(name).toLowerCase())`. */
  predicate HasAllowedType(name: string) {
    Lower(ExtName(name)) in AllowedTypes
  }

  /**
   * An independent reading of the allow-list: the lower-cased final segment
   * of the name ends in one of the four types, with at least one character
   * in front of it.
   */
  predicate EndsInAllowedType(name: string) {
    var seg := FinalSegment(name);
    exists t :: t in AllowedTypes && |seg| > |t| && IsSuffix(t, Lower(seg))
  }

  /** Lower-casing commutes with taking a suffix. */
  lemma LowerSuffix(s: string, k: nat)
    requires k <= |s|
    ensures Lower(s)[k..] == Lower(s[k..])
  {
  }

  /** Only `.` lower-cases to `.`, and no letter or digit of the types is a `.`. */
  lemma LowerKeepsDots(c: char)
    ensures LowerChar(c) == '.' <==> c == '.'
  {
  }

  /** Each allowed type is a `.` followed by at least three dot-free characters. */
  lemma AllowedTypesShape(t: string)
    requires t in AllowedTypes
    ensures |t| >= 4 && t[0] == '.' && forall j :: 1 <= j < |t| ==> t[j] != '.'
  {
  }

  /** A name the filter accepts ends in the allowed type its extension lower-cases to. */
  lemma AcceptedEndsInAllowedType(name: string)
    requires HasAllowedType(name)
    ensures EndsInAllowedType(name)
  {
    var seg := FinalSegment(name);
    var e := ExtName(name);
    var t := Lower(e);
    assert |t| == |e| && e != "";
    LowerSuffix(seg, |seg| - |e|);
    assert IsSuffix(t, Lower(seg));
  }

  /** A name whose final segment ends in an allowed type is accepted by the filter. */
  lemma EndingInAllowedTypeIsAccepted(name: string)
    requires EndsInAllowedType(name)
    ensures HasAllowedType(name)
  {
    var seg := FinalSegment(name);
    var ls := Lower(seg);
    var t :| t in AllowedTypes && |seg| > |t| && IsSuffix(t, ls);
    AllowedTypesShape(t);
    var d := |seg| - |t|;
    assert ls[d..] == t;
    DotsSurviveLowering(seg, d, t);
    ExtNameAtLastDot(name, d);
    LowerSuffix(seg, d);
  }

  /** Where the lower-cased text shows a single leading `.`, so does the original. */
  lemma DotsSurviveLowering(s: string, d: nat, t: string)
    requires d < |s| && Lower(s)[d..] == t
    requires t[0] == '.' && forall j :: 1 <= j < |t| ==> t[j] != '.'
    ensures s[d] == '.' && forall j :: d < j < |s| ==> s[j] != '.'
  {
    var ls := Lower(s);
    assert ls[d] == t[0];
    LowerKeepsDots(s[d]);
    forall j | d < j < |s|
      ensures s[j] != '.'
    {
      assert ls[j] == t[j - d];
      LowerKeepsDots(s[j]);
    }
  }

  /** The filter accepts a name exactly when its final segment ends in an allowed type. */
  lemma AllowedTypeIffSuffix(name: string)
    ensures HasAllowedType(name) <==> EndsInAllowedType(name)
  {
    if HasAllowedType(name) {
      AcceptedEndsInAllowedType(name);
    }
    if EndsInAllowedType(name) {
      EndingInAllowedTypeIsAccepted(name);
    }
  }
}
