/**
 * POSIX paths as used by Node's `path` module. A path is the sequence of its
 * segments below the filesystem root; the empty sequence is the root `/`.
 */
module Paths {
  import opened Wrappers
  import opened Strings

  type Path = seq<string>

  /** A segment produced by normalisation: non-empty, without `/`, not `.` or `..`. */
  predicate CleanSegment(s: string) {
    s != "" && s != "." && s != ".." && '/' !in s
  }

  predicate Clean(p: Path) {
    forall i :: 0 <= i < |p| ==> CleanSegment(p[i])
  }

  /** `path.dirname`; the root is its own parent. */
  function Dirname(p: Path): (r: Path)
    ensures p != [] ==> |r| == |p| - 1 && r == p[..|p| - 1]
    ensures p == [] ==> r == []
  {
    if p == [] then [] else p[..|p| - 1]
  }

  /** `path.basename`; the root has the empty basename. */
  function Basename(p: Path): string {
    if p == [] then "" else p[|p| - 1]
  }

  function Segments(p: Path): string
    decreases |p|
  {
    if p == [] then "" else "/" + p[0] + Segments(p[1..])
  }

  /** The absolute path string, `/a/b` for `[a, b]`. */
  function PathString(p: Path): (r: string)
    ensures |r| > 0 && r[0] == '/'
  {
    if p == [] then "/" else Segments(p)
  }

  lemma SegmentsAppend(p: Path, s: string)
    ensures Segments(p + [s]) == Segments(p) + "/" + s
    decreases |p|
  {
    if p == [] {
      assert [s][1..] == [];
    } else {
      assert (p + [s])[1..] == p[1..] + [s];
      SegmentsAppend(p[1..], s);
    }
  }

  /** Folds path segments into `acc` the way `path.normalize` does: empty and `.` are skipped, `..` pops (never above the root). */
  function Normalize(acc: Path, parts: seq<string>): (r: Path)
    ensures Clean(acc) && (forall i :: 0 <= i < |parts| ==> '/' !in parts[i]) ==> Clean(r)
    decreases |parts|
  {
    if parts == [] then acc
    else if parts[0] == "" || parts[0] == "." then Normalize(acc, parts[1..])
    else if parts[0] == ".." then Normalize(Dirname(acc), parts[1..])
    else Normalize(acc + [parts[0]], parts[1..])
  }

  /** `path.resolve(base, spec)`: an absolute `spec` starts again from the root. */
  function Resolve(base: Path, spec: string): (r: Path)
    ensures Clean(base) ==> Clean(r)
  {
    if StartsWith(spec, "/") then Normalize([], Split(spec, '/')) else Normalize(base, Split(spec, '/'))
  }

  /** `path.join(base, spec)`: unlike `Resolve`, a leading `/` in `spec` does not reset. */
  function JoinSpec(base: Path, spec: string): (r: Path)
    ensures Clean(base) ==> Clean(r)
  {
    Normalize(base, Split(spec, '/'))
  }

  /** Joining a plain segment appends it. */
  lemma JoinSegment(base: Path, name: string)
    requires CleanSegment(name)
    ensures JoinSpec(base, name) == base + [name]
  {
    assert '/' !in name;
    assert Split(name, '/') == [name];
    assert Normalize(base, [name]) == Normalize(base + [name], [name][1..]);
  }

  /** The path whose string is `PathString(p) + ext` (a file name extension appended). */
  function AddSuffix(p: Path, ext: string): (r: Path)
    ensures ext == "" ==> r == p
    ensures ext != "" ==> |r| == (if p == [] then 1 else |p|) && Dirname(r) == Dirname(p)
  {
    if ext == "" then p
    else if p == [] then [ext]
    else p[..|p| - 1] + [p[|p| - 1] + ext]
  }

  lemma AddSuffixString(p: Path, ext: string)
    requires ext != ""
    ensures PathString(AddSuffix(p, ext)) == PathString(p) + ext
  {
    if p == [] {
      assert [ext][1..] == [];
      assert PathString([ext]) == "/" + ext + Segments([]);
    } else {
      var q := p[..|p| - 1];
      var last := p[|p| - 1];
      assert p == q + [last];
      assert AddSuffix(p, ext) == q + [last + ext];
      SegmentsAppend(q, last);
      SegmentsAppend(q, last + ext);
      calc {
        PathString(AddSuffix(p, ext));
        Segments(q + [last + ext]);
        Segments(q) + "/" + (last + ext);
        (Segments(q) + "/" + last) + ext;
        Segments(p) + ext;
      }
    }
  }

  /** Index of the last `.` in `s`. */
  function LastDot(s: string): (r: Option<nat>)
    ensures r.Some? ==> r.value < |s| && s[r.value] == '.' && '.' !in s[r.value + 1..]
    ensures r.None? ==> '.' !in s
    decreases |s|
  {
    if |s| == 0 then None
    else if s[|s| - 1] == '.' then Some(|s| - 1)
    else
      var r := LastDot(s[..|s| - 1]);
      assert s == s[..|s| - 1] + [s[|s| - 1]];
      r
  }

  /** `path.extname` of a file name: from the last `.` on, unless that dot starts the name. */
  function ExtName(name: string): (e: string)
    ensures e == "" || (e[0] == '.' && EndsWith(name, e) && |e| < |name| && '.' !in e[1..])
  {
    if name == ".." then ""
    else match LastDot(name)
      case None => ""
      case Some(i) => if i == 0 then "" else name[i..]
  }

  function Ext(p: Path): string {
    ExtName(Basename(p))
  }

  /** `path.basename(p, ext)` */
  function BasenameWithout(p: Path, ext: string): string {
    var b := Basename(p);
    if ext != "" && EndsWith(b, ext) && b != ext then b[..|b| - |ext|] else b
  }

  function CommonPrefix(a: Path, b: Path): (n: nat)
    ensures n <= |a| && n <= |b| && a[..n] == b[..n]
    ensures n < |a| && n < |b| ==> a[n] != b[n]
    decreases |a|
  {
    if |a| > 0 && |b| > 0 && a[0] == b[0] then
      var k := CommonPrefix(a[1..], b[1..]);
      assert a[..k + 1] == [a[0]] + a[1..][..k];
      assert b[..k + 1] == [b[0]] + b[1..][..k];
      1 + k
    else 0
  }

  /** `path.relative(from, to)`: up as far as the common ancestor, then down. */
  function Relative(from: Path, to: Path): string {
    var n := CommonPrefix(from, to);
    Join(seq(|from| - n, _ => "..") + to[n..], "/")
  }

  /** A relative path to a descendant is its remaining segments joined by `/`. */
  lemma RelativeToDescendant(from: Path, to: Path)
    requires |from| <= |to| && to[..|from|] == from
    ensures Relative(from, to) == Join(to[|from|..], "/")
  {
    var n := CommonPrefix(from, to);
    assert n == |from|;
    assert seq(|from| - n, _ => "..") == [];
    assert seq(|from| - n, _ => "..") + to[n..] == to[n..];
  }
}
