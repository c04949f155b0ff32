/** The POSIX flavour of Python's `os.path.basename`, `dirname`, `splitext` and
    `join`, on plain strings, as the script uses them to name its output file
    and the detector's report. */
module PosixPath {

  predicate NoSlash(s: string) {
    forall i :: 0 <= i < |s| ==> s[i] != '/'
  }

  predicate AllSlashes(s: string) {
    forall i :: 0 <= i < |s| ==> s[i] == '/'
  }

  /** `s.rfind(c)`: the last index holding `c`, or -1. */
  function RFind(s: string, c: char): (r: int)
    ensures -1 <= r < |s|
    ensures r >= 0 ==> s[r] == c
    ensures forall j :: r < j < |s| ==> s[j] != c
  {
    if s == [] then -1
    else if s[|s| - 1] == c then |s| - 1
    else RFind(s[..|s| - 1], c)
  }

  /** The last `c` of `s` is at `k` when `s[k]` is one and none follows. */
  lemma RFindAt(s: string, c: char, k: int)
    requires -1 <= k < |s| && (k >= 0 ==> s[k] == c)
    requires forall j :: k < j < |s| ==> s[j] != c
    ensures RFind(s, c) == k
  {
    if k >= 0 && RFind(s, c) < k {
      assert false;
    }
  }

  /** `os.path.basename`: everything after the last slash, that is the
      longest slash-free suffix. */
  function Basename(p: string): (r: string)
    ensures NoSlash(r)
    ensures |r| <= |p| && p[|p| - |r|..] == r
    ensures |r| == |p| || p[|p| - |r| - 1] == '/'
  {
    p[RFind(p, '/') + 1..]
  }

  /** `s.rstrip('/')`. */
  function RStripSlashes(s: string): (r: string)
    ensures |r| <= |s| && r == s[..|r|]
    ensures AllSlashes(s[|r|..])
    ensures r == [] || r[|r| - 1] != '/'
  {
    if s != [] && s[|s| - 1] == '/' then RStripSlashes(s[..|s| - 1]) else s
  }

  /** `os.path.dirname`: the head up to the last slash, with trailing slashes
      removed unless the head is made of slashes only. */
  function Dirname(p: string): (r: string)
    ensures r == [] || AllSlashes(r) || r[|r| - 1] != '/'
  {
    var head := p[..RFind(p, '/') + 1];
    if head != [] && !AllSlashes(head) then RStripSlashes(head) else head
  }

  /** The directory name is empty exactly when the path has no slash;
      otherwise it is the head before the base name with its trailing
      slashes removed, unless that head is nothing but slashes. */
  lemma DirnameIsHead(p: string)
    ensures Dirname(p) == [] <==> NoSlash(p)
    ensures var r := Dirname(p);
      var head := p[..|p| - |Basename(p)|];
      && |r| <= |head| && head[..|r|] == r
      && AllSlashes(head[|r|..])
      && (AllSlashes(head) ==> r == head)
  {
    var k := RFind(p, '/');
    var head := p[..k + 1];
    assert head == p[..|p| - |Basename(p)|];
    if k >= 0 {
      assert p[k] == '/';
    }
    if head != [] && !AllSlashes(head) {
      var r := RStripSlashes(head);
      assert Dirname(p) == r;
    } else {
      assert Dirname(p) == head;
    }
  }

  /** `os.path.join(a, b)` for two components. */
  function Join(a: string, b: string): string {
    if |b| > 0 && b[0] == '/' then b
    else if a == [] || a[|a| - 1] == '/' then a + b
    else a + "/" + b
  }

  /** An absolute `b` replaces `a`; otherwise `b` follows `a`, with one
      slash between them when `a` is non-empty and does not already end in
      one. */
  lemma JoinParts(a: string, b: string)
    ensures var r := Join(a, b);
      && (|b| > 0 && b[0] == '/' ==> r == b)
      && (!(|b| > 0 && b[0] == '/') ==>
            && |a| + |b| <= |r| <= |a| + |b| + 1
            && r[..|a|] == a && r[|r| - |b|..] == b
            && (|r| == |a| + |b| + 1 <==> a != [] && a[|a| - 1] != '/')
            && (|r| == |a| + |b| + 1 ==> r[|a|] == '/'))
  {
  }

  /** Some character of `s[lo..hi]` is not a dot. */
  predicate NonDotBetween(s: string, lo: int, hi: int) {
    exists i :: lo <= i < hi && 0 <= i < |s| && s[i] != '.'
  }

  /** `os.path.splitext`: (root, ext), where ext is the last dot of the last
      path component and what follows it, unless every character of that
      component before the dot is itself a dot (".profile" has no extension). */
  function Splitext(p: string): (r: (string, string))
    ensures r.0 + r.1 == p
  {
    var sep := RFind(p, '/');
    var dot := RFind(p, '.');
    if dot > sep && NonDotBetween(p, sep + 1, dot) then (p[..dot], p[dot..]) else (p, "")
  }

  /** A non-empty extension is one dot followed by neither a dot nor a
      slash. */
  lemma SplitextParts(p: string)
    ensures var ext := Splitext(p).1;
      ext == [] || (ext[0] == '.' && forall i :: 0 < i < |ext| ==> ext[i] != '.' && ext[i] != '/')
  {
    var sep := RFind(p, '/');
    var dot := RFind(p, '.');
    var ext := Splitext(p).1;
    if ext != [] {
      assert Splitext(p) == (p[..dot], p[dot..]);
      assert dot > sep;
      forall i | 0 < i < |ext| ensures ext[i] != '.' && ext[i] != '/' {
        assert ext[i] == p[dot + i];
      }
    }
  }

  /** The extension is non-empty exactly when the last path component has a
      dot somewhere after a character that is not a dot. */
  lemma SplitextHasExtension(p: string)
    ensures Splitext(p).1 != [] <==>
      exists i, j :: RFind(p, '/') < i < j < |p| && p[i] != '.' && p[j] == '.'
  {
    forall i, j | RFind(p, '/') < i < j < |p| && p[i] != '.' && p[j] == '.'
      ensures Splitext(p).1 != []
    {
      ExtensionFromPair(p, i, j);
    }
    if Splitext(p).1 != [] {
      var sep := RFind(p, '/');
      var dot := RFind(p, '.');
      assert dot > sep && NonDotBetween(p, sep + 1, dot);
      PairBeforeDot(p, sep, dot);
    }
  }

  lemma ExtensionFromPair(p: string, i: int, j: int)
    requires RFind(p, '/') < i < j < |p| && p[i] != '.' && p[j] == '.'
    ensures Splitext(p).1 != []
  {
    var sep := RFind(p, '/');
    var dot := RFind(p, '.');
    assert dot >= j;
    assert NonDotBetween(p, sep + 1, dot);
  }

  lemma PairBeforeDot(p: string, sep: int, dot: int)
    requires -1 <= sep < dot < |p| && p[dot] == '.' && NonDotBetween(p, sep + 1, dot)
    ensures exists i, j :: sep < i < j < |p| && p[i] != '.' && p[j] == '.'
  {
    var i :| sep + 1 <= i < dot && 0 <= i < |p| && p[i] != '.';
    assert p[i] != '.' && p[dot] == '.';
  }

  /** The name the script gives a file derived from `path`: the base name with
      its last extension replaced by `ext`. */
  function DerivedName(path: string, ext: string): string {
    Splitext(Basename(path)).0 + ext
  }

  /** A derived name stays slash-free when the new extension is. */
  lemma DerivedNameNoSlash(path: string, ext: string)
    requires NoSlash(ext)
    ensures NoSlash(DerivedName(path, ext))
  {
    var base := Basename(path);
    var parts := Splitext(base);
    NoSlashReplaced(base, parts.0, parts.1, ext);
  }

  lemma NoSlashReplaced(base: string, root: string, oldExt: string, ext: string)
    requires root + oldExt == base && NoSlash(base) && NoSlash(ext)
    ensures NoSlash(root + ext)
  {
    assert forall i :: 0 <= i < |root| ==> root[i] == base[i];
    assert forall i :: |root| <= i < |root + ext| ==> (root + ext)[i] == ext[i - |root|];
  }

  /** A name derived with a non-empty slash-free extension is the base name
      of any path that joins it to a directory. */
  lemma JoinDerived(dir: string, path: string, ext: string)
    requires ext != [] && NoSlash(ext)
    ensures Basename(Join(dir, DerivedName(path, ext))) == DerivedName(path, ext)
  {
    DerivedNameNoSlash(path, ext);
    JoinBasename(dir, DerivedName(path, ext));
  }

  /** Whatever it is joined to, a non-empty slash-free name is the base name
      of the result. */
  lemma JoinBasename(a: string, name: string)
    requires name != [] && NoSlash(name)
    ensures Basename(Join(a, name)) == name
  {
    JoinParts(a, name);
  }

  /** Joining a directory name with a slash-free name and taking the result
      apart again gives back the directory name and the name. */
  lemma JoinDirname(p: string, name: string)
    requires NoSlash(name)
    ensures Dirname(Join(Dirname(p), name)) == Dirname(p)
    ensures Basename(Join(Dirname(p), name)) == name
  {
    JoinDir(Dirname(p), name);
  }

  /** The same for any string shaped like a directory name: empty, all
      slashes, or not ending in a slash. */
  lemma {:induction false} JoinDir(d: string, name: string)
    requires d == [] || AllSlashes(d) || d[|d| - 1] != '/'
    requires NoSlash(name)
    ensures Dirname(Join(d, name)) == d
    ensures Basename(Join(d, name)) == name
  {
    var j := Join(d, name);
    assert |name| > 0 ==> name[0] != '/';
    if d == [] {
      assert j == name;
      assert RFind(j, '/') == -1;
    } else if d[|d| - 1] == '/' {
      assert j == d + name;
      assert j[|d| - 1] == '/';
      assert forall i :: |d| <= i < |j| ==> j[i] == name[i - |d|];
      var r := RFind(j, '/');
      assert r == |d| - 1;
      assert j[..r + 1] == d;
    } else {
      assert j == d + "/" + name;
      assert j[|d|] == '/';
      assert forall i :: |d| < i < |j| ==> j[i] == name[i - |d| - 1];
      var r := RFind(j, '/');
      assert r == |d|;
      var head := j[..r + 1];
      assert head == d + "/";
      assert !AllSlashes(head) by {
        assert head[|d| - 1] != '/';
      }
      assert head[..|head| - 1] == d;
      assert RStripSlashes(head) == RStripSlashes(d);
      assert RStripSlashes(d) == d;
    }
  }
}
