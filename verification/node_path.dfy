/**
 * The parts of Node's posix `path` module the servers use: `path.extname`,
 * `path.basename(p, path.extname(p))` and `path.join` of plain segments.
 */
module NodePath {
  import opened Base
  import opened Strings

  /** The index of the last `c` in `s`. */
  function LastIndexOf(s: string, c: char): (r: Option<nat>)
    ensures r.Some? ==> r.value < |s| && s[r.value] == c
    ensures r.Some? ==> forall j :: r.value < j < |s| ==> s[j] != c
    ensures r.None? ==> c !in s
  {
    if s == [] then None
    else if s[|s| - 1] == c then Some(|s| - 1)
    else LastIndexOf(s[..|s| - 1], c)
  }

  /** `p` without its trailing slashes, which `extname` and `basename` ignore. */
  function TrimTrailingSlashes(p: string): (r: string)
    ensures IsPrefix(r, p)
    ensures r == [] || r[|r| - 1] != '/'
    ensures forall j :: |r| <= j < |p| ==> p[j] == '/'
  {
    if p != [] && p[|p| - 1] == '/' then TrimTrailingSlashes(p[..|p| - 1]) else p
  }

  /** The last path segment: what follows the last `/` once trailing slashes are dropped. */
  function FinalSegment(p: string): (r: string)
    ensures '/' !in r
  {
    var t := TrimTrailingSlashes(p);
    match LastIndexOf(t, '/')
    case None => t
    case Some(k) => t[k + 1..]
  }

  /**
   * `path.extname(p)`: from the last `.` of the final segment to its end;
   * empty when the segment has no `.`, when its only `.` would be the
   * leading character, or when the segment is `..`.
   */
  function ExtName(p: string): (r: string)
    ensures IsSuffix(r, FinalSegment(p))
    ensures r != "" ==> r[0] == '.' && '.' !in r[1..] && |r| < |FinalSegment(p)|
  {
    var seg := FinalSegment(p);
    match LastIndexOf(seg, '.')
    case None => ""
    case Some(d) => if d == 0 || seg == ".." then "" else seg[d..]
  }

  /** `path.basename(p, path.extname(p))`: the final segment without its extension. */
  function BaseNameSansExt(p: string): (r: string)
    ensures r + ExtName(p) == FinalSegment(p)
  {
    var seg := FinalSegment(p);
    var e := ExtName(p);
    assert seg[|seg| - |e|..] == e;
    seg[..|seg| - |e|]
  }

  /** `path.join(dir, name)` for a directory and a plain name, which needs no normalisation. */
  function Join(dir: string, name: string): string {
    dir + "/" + name
  }

  /** A name without slashes is its own final segment. */
  lemma PlainNameIsFinalSegment(name: string)
    requires '/' !in name
    ensures FinalSegment(name) == name
  {
    assert name == [] || name[|name| - 1] != '/';
    assert TrimTrailingSlashes(name) == name;
  }

  /** Joining a plain, non-empty name under a directory leaves that name as the final segment. */
  lemma FinalSegmentOfJoin(dir: string, name: string)
    requires name != "" && '/' !in name
    ensures FinalSegment(Join(dir, name)) == name
  {
    var p := Join(dir, name);
    assert p[|p| - 1] == name[|name| - 1];
    assert TrimTrailingSlashes(p) == p;
    var r := LastIndexOf(p, '/');
    assert p[|dir|] == '/';
    assert r.Some?;
    assert r.value == |dir|;
    assert p[|dir| + 1..] == name;
  }

  /**
   * A plain name `prefix + ext`, where the prefix has neither `/` nor `.`
   * and `ext` is empty or a `.` followed by dot-free text, has extension `ext`.
   */
  lemma ExtNameOfPlainName(prefix: string, ext: string)
    requires prefix != "" && '/' !in prefix && '.' !in prefix
    requires '/' !in ext
    requires ext == "" || (ext[0] == '.' && '.' !in ext[1..])
    ensures ExtName(prefix + ext) == ext
    ensures BaseNameSansExt(prefix + ext) == prefix
  {
    var seg := prefix + ext;
    PlainNameIsFinalSegment(seg);
    var r := LastIndexOf(seg, '.');
    if ext == "" {
      assert seg == prefix;
      assert r.None?;
    } else {
      assert seg[|prefix|] == '.';
      assert r.Some?;
      assert r.value == |prefix|;
      assert seg[0] == prefix[0] != '.';
      assert seg[|prefix|..] == ext;
    }
  }

  /** When the final segment's last `.` sits after its first character, the extension starts there. */
  lemma ExtNameAtLastDot(p: string, d: nat)
    requires 1 <= d < |FinalSegment(p)| && FinalSegment(p)[d] == '.'
    requires forall j :: d < j < |FinalSegment(p)| ==> FinalSegment(p)[j] != '.'
    requires |FinalSegment(p)| > 2
    ensures ExtName(p) == FinalSegment(p)[d..]
  {
    var seg := FinalSegment(p);
    assert LastIndexOf(seg, '.') == Some(d);
  }

  /** `ExtNameOfPlainName` for a name stored under a directory. */
  lemma ExtNameOfJoinedName(dir: string, prefix: string, ext: string)
    requires prefix != "" && '/' !in prefix && '.' !in prefix
    requires '/' !in ext
    requires ext == "" || (ext[0] == '.' && '.' !in ext[1..])
    ensures ExtName(Join(dir, prefix + ext)) == ext
    ensures BaseNameSansExt(Join(dir, prefix + ext)) == prefix
  {
    FinalSegmentOfJoin(dir, prefix + ext);
    ExtNameOfPlainName(prefix, ext);
    PlainNameIsFinalSegment(prefix + ext);
  }

  /** Every extension `ExtName` returns is of the shape `ExtNameOfPlainName` accepts. */
  lemma ExtNameShape(p: string)
    ensures '/' !in ExtName(p)
    ensures ExtName(p) == "" || (ExtName(p)[0] == '.' && '.' !in ExtName(p)[1..])
  {
    var seg := FinalSegment(p);
    var e := ExtName(p);
    assert e == seg[|seg| - |e|..];
  }
}
