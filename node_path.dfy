/** The pieces of Node's `path.posix` and of `String.prototype` that the
    upload helpers and `removeBackground` use to derive file names. */
module NodePath {
  import opened Wrappers
  import opened Routing

  /** Position of the last `c` in `s[..k]`. */
  function LastIndexBefore(s: string, c: char, k: nat): (r: Option<nat>)
    requires k <= |s|
    ensures r.Some? ==> r.value < k && s[r.value] == c && forall i :: r.value < i < k ==> s[i] != c
    ensures r.None? ==> forall i :: 0 <= i < k ==> s[i] != c
  {
    if k == 0 then None
    else if s[k - 1] == c then Some(k - 1)
    else LastIndexBefore(s, c, k - 1)
  }

  /** Position of the last `c` in `s`. */
  function LastIndexOf(s: string, c: char): (r: Option<nat>)
    ensures r.Some? ==> r.value < |s| && s[r.value] == c && forall i :: r.value < i < |s| ==> s[i] != c
    ensures r.None? ==> forall i :: 0 <= i < |s| ==> s[i] != c
  {
    LastIndexBefore(s, c, |s|)
  }

  /** `s.split("/").pop()`: what follows the last slash (all of `s` when it
      has none). */
  function LastSegment(s: string): (r: string)
    ensures forall i :: 0 <= i < |r| ==> r[i] != '/'
    ensures |r| <= |s| && r == s[|s| - |r|..]
    ensures |r| < |s| ==> s[|s| - |r| - 1] == '/'
  {
    match LastIndexOf(s, '/')
    case None => s
    case Some(k) => s[k + 1..]
  }

  /** `s.replace(/\\/g, "/")`. */
  function SlashesForward(s: string): (r: string)
    ensures |r| == |s|
    ensures forall i :: 0 <= i < |s| ==> r[i] == (if s[i] == '\\' then '/' else s[i])
    ensures forall i :: 0 <= i < |r| ==> r[i] != '\\'
  {
    seq(|s|, i requires 0 <= i < |s| => if s[i] == '\\' then '/' else s[i])
  }

  /** The end of `s[..k]` once its trailing slashes are dropped. */
  function SkipSlashesBack(s: string, k: nat): (e: nat)
    requires k <= |s|
    ensures e <= k
    ensures forall i :: e <= i < k ==> s[i] == '/'
    ensures e == 0 || s[e - 1] != '/'
  {
    if k > 0 && s[k - 1] == '/' then SkipSlashesBack(s, k - 1) else k
  }

  function StripTrailingSlashes(s: string): (r: string)
    ensures |r| <= |s| && r == s[..|r|]
    ensures forall i :: |r| <= i < |s| ==> s[i] == '/'
    ensures r == [] || r[|r| - 1] != '/'
  {
    s[..SkipSlashesBack(s, |s|)]
  }

  /** `path.posix.basename(p)`: the last segment once trailing slashes are
      dropped. */
  function Basename(p: string): (r: string)
    ensures forall i :: 0 <= i < |r| ==> r[i] != '/'
    ensures |r| <= |p|
  {
    LastSegment(StripTrailingSlashes(p))
  }

  /** A name without a slash is its own base name. */
  lemma BasenameOfName(name: string)
    requires forall i :: 0 <= i < |name| ==> name[i] != '/'
    ensures Basename(name) == name
  {
    if name != [] {
      assert name[|name| - 1] != '/';
    }
    assert StripTrailingSlashes(name) == name;
    assert LastIndexOf(name, '/').None?;
  }

  /** The base name of `dir + "/" + name` is `name`. */
  lemma {:induction false} BasenameAfterSlash(dir: string, name: string)
    requires name != [] && forall i :: 0 <= i < |name| ==> name[i] != '/'
    ensures Basename(dir + "/" + name) == name
  {
    var p := dir + "/" + name;
    assert p[|p| - 1] == name[|name| - 1];
    assert StripTrailingSlashes(p) == p;
    var k := LastIndexOf(p, '/');
    assert p[|dir|] == '/';
    assert k.Some? && k.value >= |dir|;
    if k.value > |dir| {
      assert false;
    }
    assert p[|dir| + 1..] == name;
  }

  /** `path.posix.extname(p)`: the base name from its last dot on; empty
      when the base name has no dot, when that dot is its first character,
      and for "..". */
  function ExtName(p: string): (r: string)
    ensures r == [] || r[0] == '.'
    ensures |r| <= |Basename(p)| <= |p|
  {
    var b := Basename(p);
    match LastIndexOf(b, '.')
    case None => ""
    case Some(k) => if k == 0 || b == ".." then "" else b[k..]
  }

  /** The extension is a suffix of the base name holding no further dot. */
  lemma ExtNameIsSuffix(p: string)
    ensures var r, b := ExtName(p), Basename(p);
      && r == b[|b| - |r|..]
      && forall i :: 1 <= i < |r| ==> r[i] != '.' && r[i] != '/'
  {
    var b := Basename(p);
    var k := LastIndexOf(b, '.');
    if k.Some? && k.value != 0 && b != ".." {
      assert ExtName(p) == b[k.value..];
    }
  }

  /** A base name without a dot has no extension. */
  lemma ExtNameWithoutDot(p: string)
    requires forall i :: 0 <= i < |Basename(p)| ==> Basename(p)[i] != '.'
    ensures ExtName(p) == []
  {
  }

  /** Joining two names without a slash by a dot gives a name without one. */
  lemma NoSlashInDotted(a: string, b: string)
    requires forall i :: 0 <= i < |a| ==> a[i] != '/'
    requires forall i :: 0 <= i < |b| ==> b[i] != '/'
    ensures forall i :: 0 <= i < |a + "." + b| ==> (a + "." + b)[i] != '/'
  {
    var n := a + "." + b;
    forall i | 0 <= i < |n| ensures n[i] != '/' {
      if i < |a| { assert n[i] == a[i]; }
      else if i > |a| { assert n[i] == b[i - |a| - 1]; }
    }
  }

  /** A name that does not start with a dot and whose extension is `x`
      has `"." + x` as its `extname`. */
  lemma {:induction false} ExtNameOf(stem: string, x: string)
    requires stem != [] && stem[0] != '.'
    requires forall i :: 0 <= i < |stem| ==> stem[i] != '/'
    requires forall i :: 0 <= i < |x| ==> x[i] != '.' && x[i] != '/'
    ensures ExtName(stem + "." + x) == "." + x
  {
    var name := stem + "." + x;
    NoSlashInDotted(stem, x);
    BasenameOfName(name);
    var k := LastIndexOf(name, '.');
    assert name[|stem|] == '.';
    assert forall i :: |stem| < i < |name| ==> name[i] == x[i - |stem| - 1];
    assert k.Some? && k.value >= |stem|;
    if k.value > |stem| {
      assert false;
    }
    assert name != "..";
    assert name[|stem|..] == "." + x;
  }

  // --------------------------------------------------- path.posix.join

  /** `segs.join("/")`. */
  function JoinSlash(segs: seq<string>): string
    decreases |segs|
  {
    if segs == [] then "" else if |segs| == 1 then segs[0] else segs[0] + "/" + JoinSlash(segs[1..])
  }

  /** Joining the pieces of a split by slashes gives the string back. */
  lemma {:induction false} JoinSplit(s: string)
    ensures JoinSlash(Split(s)) == s
    decreases |s|
  {
    match IndexFrom(s, '/', 0)
    case None =>
    case Some(k) =>
      JoinSplit(s[k + 1..]);
      assert Split(s) == [s[..k]] + Split(s[k + 1..]);
      assert s == s[..k] + "/" + s[k + 1..];
  }

  /** The first slash is where `IndexFrom` finds one. */
  lemma FirstSlashAt(s: string, k: nat)
    requires k < |s| && s[k] == '/' && forall j :: 0 <= j < k ==> s[j] != '/'
    ensures IndexFrom(s, '/', 0) == Some(k)
  {
  }

  /** A split at the first slash. */
  lemma SplitAt(s: string, k: nat)
    requires IndexFrom(s, '/', 0) == Some(k)
    ensures Split(s) == [s[..k]] + Split(s[k + 1..])
  {
  }

  /** Splitting `a + "/" + b` splits `a` and `b` apart. */
  lemma {:induction false} SplitAppend(a: string, b: string)
    ensures Split(a + "/" + b) == Split(a) + Split(b)
    decreases |a|
  {
    var s := a + "/" + b;
    match IndexFrom(a, '/', 0)
    case None =>
      SplitConcat(a, b);
      SplitNoSlash(a);
    case Some(k) =>
      var rest := a[k + 1..];
      assert forall j :: 0 <= j <= k ==> s[j] == a[j];
      FirstSlashAt(s, k);
      assert s[..k] == a[..k];
      assert s[k + 1..] == rest + "/" + b;
      SplitAt(s, k);
      SplitAt(a, k);
      SplitAppend(rest, b);
      assert Split(s) == [a[..k]] + (Split(rest) + Split(b));
  }

  /** A segment `normalizeString` keeps as it is. */
  predicate KeptSegment(s: string) {
    s != "" && s != "." && s != ".."
  }

  /** A path whose every segment is kept: no empty, "." or ".." segment. */
  predicate PlainPath(p: string) {
    forall i :: 0 <= i < |Split(p)| ==> KeptSegment(Split(p)[i])
  }

  /** One step of Node's `normalizeString` on the segment stack. */
  function NormalizeStep(acc: seq<string>, s: string, allowAboveRoot: bool): seq<string> {
    if s == "" || s == "." then acc
    else if s == ".." then
      if acc != [] && acc[|acc| - 1] != ".." then acc[..|acc| - 1]
      else if allowAboveRoot then acc + [".."]
      else acc
    else acc + [s]
  }

  /** Node's `normalizeString`, read left to right over the segments:
      empty and "." segments are dropped, ".." removes the last kept
      segment, and with nothing to remove (or a ".." on top) it is kept on
      a relative path and dropped on an absolute one. */
  function NormalizeSegments(segs: seq<string>, acc: seq<string>, allowAboveRoot: bool): (r: seq<string>)
    ensures (forall i :: 0 <= i < |acc| ==> acc[i] != "" && acc[i] != ".") ==>
              forall i :: 0 <= i < |r| ==> r[i] != "" && r[i] != "."
    ensures (!allowAboveRoot && forall i :: 0 <= i < |acc| ==> acc[i] != "..") ==>
              forall i :: 0 <= i < |r| ==> r[i] != ".."
    decreases |segs|
  {
    if segs == [] then acc
    else NormalizeSegments(segs[1..], NormalizeStep(acc, segs[0], allowAboveRoot), allowAboveRoot)
  }

  /** Normalising pieces one after the other is normalising them together. */
  lemma {:induction false} NormalizeSegmentsAppend(a: seq<string>, b: seq<string>, acc: seq<string>, allow: bool)
    ensures NormalizeSegments(a + b, acc, allow) == NormalizeSegments(b, NormalizeSegments(a, acc, allow), allow)
    decreases |a|
  {
    if a == [] {
      assert a + b == b;
    } else {
      assert (a + b)[0] == a[0] && (a + b)[1..] == a[1..] + b;
      NormalizeSegmentsAppend(a[1..], b, NormalizeStep(acc, a[0], allow), allow);
    }
  }

  /** Kept segments pass through unchanged. */
  lemma {:induction false} NormalizeKept(segs: seq<string>, acc: seq<string>, allow: bool)
    requires forall i :: 0 <= i < |segs| ==> KeptSegment(segs[i])
    ensures NormalizeSegments(segs, acc, allow) == acc + segs
    decreases |segs|
  {
    if segs != [] {
      NormalizeKept(segs[1..], acc + [segs[0]], allow);
      assert acc + [segs[0]] + segs[1..] == acc + segs;
    }
  }

  /** `path.posix.normalize(p)`: the kept segments joined by slashes, with
      the leading slash of an absolute path and a trailing slash kept. */
  function Normalize(p: string): string {
    if p == "" then "."
    else
      var absolute := p[0] == '/';
      var trailing := p[|p| - 1] == '/';
      var body := JoinSlash(NormalizeSegments(Split(p), [], !absolute));
      if body == "" then (if absolute then "/" else if trailing then "./" else ".")
      else (if absolute then "/" else "") + body + (if trailing then "/" else "")
  }

  /** `path.posix.join(a, b)`: the non-empty arguments joined by a slash,
      then normalised; "." when both are empty. */
  function PosixJoin(a: string, b: string): string {
    if a == "" && b == "" then "."
    else Normalize(if a == "" then b else if b == "" then a else a + "/" + b)
  }

  /** A relative path of kept segments is already normal. */
  lemma {:induction false} NormalizePlain(p: string)
    requires p != "" && p[0] != '/' && p[|p| - 1] != '/'
    requires PlainPath(p)
    ensures Normalize(p) == p
  {
    NormalizeKept(Split(p), [], true);
    assert [] + Split(p) == Split(p);
    JoinSplit(p);
  }

  /** Joining a plain relative folder and a plain name puts one slash
      between them and changes nothing else. */
  lemma {:induction false} JoinPlainName(base: string, name: string)
    requires base != "" && base[0] != '/' && PlainPath(base)
    requires KeptSegment(name) && forall i :: 0 <= i < |name| ==> name[i] != '/'
    ensures PosixJoin(base, name) == base + "/" + name
  {
    var p := base + "/" + name;
    SplitAppend(base, name);
    SplitNoSlash(name);
    assert Split(p) == Split(base) + [name];
    assert PlainPath(p);
    assert p[0] == base[0] && p[|p| - 1] == name[|name| - 1];
    NormalizePlain(p);
  }

  /** The segments of `dir/x/y/z` for slash-free `x`, `y` and `z`. */
  lemma {:induction false} SplitThreeAfter(dir: string, x: string, y: string, z: string)
    requires forall i :: 0 <= i < |x| ==> x[i] != '/'
    requires forall i :: 0 <= i < |y| ==> y[i] != '/'
    requires forall i :: 0 <= i < |z| ==> z[i] != '/'
    ensures Split(dir + "/" + (x + "/" + (y + "/" + z))) == Split(dir) + [x, y, z]
  {
    var yz := y + "/" + z;
    var xyz := x + "/" + yz;
    SplitTwo(yz, y, z);
    SplitConcat(x, yz);
    assert Split(xyz) == [x, y, z];
    SplitAppend(dir, xyz);
  }

  /** The ".." after `last` removes it again. */
  lemma {:induction false} NormalizeParentSegments(d: seq<string>, last: string, name: string)
    requires forall i :: 0 <= i < |d| ==> KeptSegment(d[i])
    requires KeptSegment(last) && KeptSegment(name)
    ensures NormalizeSegments(d + [last, "..", name], [], true) == d + [name]
  {
    NormalizeSegmentsAppend(d, [last, "..", name], [], true);
    NormalizeKept(d, [], true);
    assert [] + d == d;
    ParentSteps(d, last, "..", name);
  }

  /** The three steps over `last`, "..", `name`. */
  lemma ParentSteps(d: seq<string>, last: string, up: string, name: string)
    requires up == ".." && KeptSegment(last) && KeptSegment(name)
    ensures NormalizeSegments([last, up, name], d, true) == d + [name]
  {
    var d1 := d + [last];
    assert NormalizeStep(d, last, true) == d1;
    assert d1[..|d1| - 1] == d;
    assert NormalizeStep(d1, up, true) == d;
    assert [last, up, name][1..] == [up, name];
    assert [up, name][1..] == [name];
    assert NormalizeSegments([last, up, name], d, true) == NormalizeSegments([up, name], d1, true);
    assert NormalizeSegments([up, name], d1, true) == NormalizeSegments([name], d, true);
    assert NormalizeSegments([name], d, true) == NormalizeSegments([], d + [name], true);
  }

  /** A name led by "../" climbs out of the folder: joined to `dir/last`
      it lands in `dir`. */
  lemma {:induction false} JoinParentName(dir: string, last: string, name: string)
    requires dir != "" && dir[0] != '/' && PlainPath(dir)
    requires KeptSegment(last) && forall i :: 0 <= i < |last| ==> last[i] != '/'
    requires KeptSegment(name) && forall i :: 0 <= i < |name| ==> name[i] != '/'
    ensures PosixJoin(dir + "/" + last, "../" + name) == dir + "/" + name
  {
    var up := "../" + name;
    var p := dir + "/" + last + "/" + up;
    assert PosixJoin(dir + "/" + last, up) == Normalize(p);
    assert up == ".." + "/" + name;
    NormalizeParentPath(p, dir, last, "..", name);
  }

  lemma {:induction false} NormalizeParentPath(p: string, dir: string, last: string, up: string, name: string)
    requires up == ".." && p == dir + "/" + last + "/" + (up + "/" + name)
    requires dir != "" && dir[0] != '/' && PlainPath(dir)
    requires KeptSegment(last) && forall i :: 0 <= i < |last| ==> last[i] != '/'
    requires KeptSegment(name) && forall i :: 0 <= i < |name| ==> name[i] != '/'
    ensures Normalize(p) == dir + "/" + name
  {
    assert p == dir + "/" + (last + "/" + (up + "/" + name));
    SplitThreeAfter(dir, last, up, name);
    var d := Split(dir);
    NormalizeParentSegments(d, last, name);
    var q := dir + "/" + name;
    SplitAppend(dir, name);
    SplitNoSlash(name);
    JoinSplit(q);
    assert JoinSlash(NormalizeSegments(Split(p), [], true)) == q;
    assert p[0] == dir[0];
    assert p[|p| - 1] == name[|name| - 1];
    NormalizeRelative(p, q);
  }

  /** A relative path without a trailing slash normalises to its
      normalised segments joined by slashes. */
  lemma NormalizeRelative(p: string, q: string)
    requires p != "" && p[0] != '/' && p[|p| - 1] != '/'
    requires q != "" && JoinSlash(NormalizeSegments(Split(p), [], true)) == q
    ensures Normalize(p) == q
  {
  }

  /** `pat` occurs in `s` at position `i`. */
  predicate OccursAt(s: string, pat: string, i: nat) {
    i + |pat| <= |s| && s[i..i + |pat|] == pat
  }

  /** Position of the first occurrence of `pat` in `s` at or after `from`. */
  function IndexOfFrom(s: string, pat: string, from: nat): (r: Option<nat>)
    requires from <= |s|
    ensures r.Some? ==> from <= r.value && OccursAt(s, pat, r.value)
    ensures r.Some? ==> forall i :: from <= i < r.value ==> !OccursAt(s, pat, i)
    ensures r.None? ==> forall i :: from <= i ==> !OccursAt(s, pat, i)
    decreases |s| - from
  {
    if from + |pat| > |s| then None
    else if OccursAt(s, pat, from) then Some(from)
    else
      assert pat != [] && from < |s|;
      IndexOfFrom(s, pat, from + 1)
  }

  /** An occurrence with none before it is the one `IndexOfFrom` finds. */
  lemma FirstOccurrence(s: string, pat: string, k: nat)
    requires OccursAt(s, pat, k)
    requires forall i :: 0 <= i < k ==> !OccursAt(s, pat, i)
    ensures IndexOfFrom(s, pat, 0) == Some(k)
  {
    var r := IndexOfFrom(s, pat, 0);
    if r.Some? && r.value > k {
      assert false;
    }
  }

  /** `s.replace(pat, rep)` with a string pattern: only the FIRST
      occurrence is replaced; an empty pattern occurs at position 0.
      `$` patterns in `rep` are not modelled. */
  function ReplaceFirst(s: string, pat: string, rep: string): (r: string)
    ensures IndexOfFrom(s, pat, 0).None? ==> r == s
    ensures IndexOfFrom(s, pat, 0).Some? ==>
      var i := IndexOfFrom(s, pat, 0).value;
      r == s[..i] + rep + s[i + |pat|..]
    ensures pat == [] ==> r == rep + s
  {
    match IndexOfFrom(s, pat, 0)
    case None => s
    case Some(i) => s[..i] + rep + s[i + |pat|..]
  }
}
