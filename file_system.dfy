/**
 * The filesystem the analyzers read through `fs.promises` and `fs.*Sync`:
 * a finite map from absolute paths to directories (their entry names, in
 * `readdir` order) and files (their contents). Reads are pure; an access to a
 * missing path, or of the wrong kind, is an error result.
 */
module FileSystem {
  import opened Wrappers
  import opened Paths
  import opened SourceText

  datatype FsNode = Dir(names: seq<string>) | File(content: Content)

  type FS = map<Path, FsNode>

  /** The error codes Node reports: ENOENT, ENOTDIR, EISDIR. */
  datatype IoError = NoEntry | NotADirectory | IsADirectory

  /** An entry of `readdir(dir, { withFileTypes: true })`. */
  datatype Dirent = Dirent(name: string, isDir: bool)

  /** `fs.access`, `fs.existsSync`, `fs.stat` succeeding. */
  predicate Exists(fs: FS, p: Path) {
    p in fs
  }

  predicate IsDirectory(fs: FS, p: Path) {
    p in fs && fs[p].Dir?
  }

  predicate IsFile(fs: FS, p: Path) {
    p in fs && fs[p].File?
  }

  /**
   * Every name a directory lists is a path of the filesystem. What breaks it
   * is a dangling symbolic link: `readdir` lists it, and reading it fails.
   */
  ghost predicate NoDangling(fs: FS) {
    forall p, name {:trigger Lists(fs, p, name)} :: Lists(fs, p, name) ==> p + [name] in fs
  }

  /** The directory `p` lists `name`. */
  predicate Lists(fs: FS, p: Path, name: string) {
    p in fs && fs[p].Dir? && name in fs[p].names
  }

  function ReadDir(fs: FS, p: Path): (r: Result<seq<Dirent>, IoError>)
    ensures r.Ok? <==> IsDirectory(fs, p)
    ensures r.Ok? ==> |r.value| == |fs[p].names|
    ensures r.Ok? ==> forall i :: 0 <= i < |r.value| ==>
      r.value[i].name == fs[p].names[i] && (r.value[i].isDir <==> IsDirectory(fs, p + [fs[p].names[i]]))
  {
    if p !in fs then Err(NoEntry)
    else match fs[p]
      case File(_) => Err(NotADirectory)
      case Dir(names) =>
        Ok(seq(|names|, i requires 0 <= i < |names| => Dirent(names[i], IsDirectory(fs, p + [names[i]]))))
  }

  /** Below a listing with no dangling link, every listed name is a path of the filesystem. */
  lemma ListedEntries(fs: FS, dir: Path, entries: seq<Dirent>)
    requires ReadDir(fs, dir) == Ok(entries)
    ensures NoDangling(fs) ==> forall i :: 0 <= i < |entries| ==> dir + [entries[i].name] in fs
  {
    if NoDangling(fs) {
      forall i | 0 <= i < |entries|
        ensures dir + [entries[i].name] in fs
      {
        assert fs[dir].names[i] in fs[dir].names;
        assert Lists(fs, dir, entries[i].name);
      }
    }
  }

  function ReadFile(fs: FS, p: Path): (r: Result<Content, IoError>)
    ensures r.Ok? <==> IsFile(fs, p)
    ensures r.Ok? ==> r.value == fs[p].content
  {
    if p !in fs then Err(NoEntry)
    else match fs[p]
      case Dir(_) => Err(IsADirectory)
      case File(c) => Ok(c)
  }

  ghost function MaxLen(s: set<Path>): (m: nat)
    ensures forall p :: p in s ==> |p| <= m
    decreases |s|
  {
    if s == {} then 0
    else
      var p :| p in s;
      var m := MaxLen(s - {p});
      if |p| > m then |p| else m
  }

  /** A bound on the length of every path in the filesystem: directory walks terminate below it. */
  ghost function Depth(fs: FS): (d: nat)
    ensures forall p :: p in fs ==> |p| <= d
  {
    MaxLen(fs.Keys)
  }

  /** The path strings of every entry: the universe `processedFiles` sets draw from. */
  ghost function PathStrings(fs: FS): set<string> {
    set p | p in fs.Keys :: PathString(p)
  }

  /** The measure a directory walk decreases: how far the path is from the deepest path of the filesystem. */
  ghost function Height(fs: FS, p: Path): nat {
    if |p| <= Depth(fs) then Depth(fs) - |p| else 0
  }

  /** The first candidate that exists (`fs.access` tried in order). */
  function FirstExisting(fs: FS, cands: seq<Path>): (r: Option<Path>)
    ensures r.Some? ==> r.value in cands && Exists(fs, r.value)
    ensures r.None? ==> forall i :: 0 <= i < |cands| ==> !Exists(fs, cands[i])
    decreases |cands|
  {
    if cands == [] then None
    else if Exists(fs, cands[0]) then Some(cands[0])
    else
      var r := FirstExisting(fs, cands[1..]);
      assert forall i :: 0 < i < |cands| ==> cands[i] == cands[1..][i - 1];
      r
  }

  /** The first existing candidate comes no later than any existing candidate. */
  lemma {:induction false} FirstIsFirst(fs: FS, cs: seq<Path>, i: nat)
    requires i < |cs| && Exists(fs, cs[i])
    ensures FirstExisting(fs, cs).Some?
    ensures exists k :: 0 <= k <= i && FirstExisting(fs, cs) == Some(cs[k])
    decreases |cs|
  {
    if !Exists(fs, cs[0]) {
      assert cs[1..][i - 1] == cs[i];
      FirstIsFirst(fs, cs[1..], i - 1);
      var k :| 0 <= k <= i - 1 && FirstExisting(fs, cs[1..]) == Some(cs[1..][k]);
      assert cs[1..][k] == cs[k + 1];
    }
  }

  /** The candidate found is the earliest accessible one: every candidate before it is missing. */
  lemma {:induction false} FirstExistingEarliest(fs: FS, cands: seq<Path>)
    ensures FirstExisting(fs, cands).Some? ==> exists i :: (0 <= i < |cands| && cands[i] == FirstExisting(fs, cands).value &&
      forall j :: 0 <= j < i ==> !Exists(fs, cands[j]))
    decreases |cands|
  {
    if cands != [] && !Exists(fs, cands[0]) && FirstExisting(fs, cands[1..]).Some? {
      FirstExistingEarliest(fs, cands[1..]);
      var i :| 0 <= i < |cands[1..]| && cands[1..][i] == FirstExisting(fs, cands[1..]).value &&
        forall j :: 0 <= j < i ==> !Exists(fs, cands[1..][j]);
      forall j | 0 <= j < i + 1
        ensures !Exists(fs, cands[j])
      {
        if j > 0 {
          assert cands[j] == cands[1..][j - 1];
        }
      }
      assert cands[i + 1] == cands[1..][i];
    }
  }

  /**
   * The candidates a resolver tries for `base`, in order: `base` with each
   * extension appended, then `base/index` with each extension.
   */
  function ExtensionCandidates(base: Path, exts: seq<string>): (r: seq<Path>)
    ensures |r| == 2 * |exts|
    ensures forall i :: 0 <= i < |exts| ==> r[i] == AddSuffix(base, exts[i]) && r[|exts| + i] == base + ["index" + exts[i]]
  {
    seq(|exts|, i requires 0 <= i < |exts| => AddSuffix(base, exts[i])) + seq(|exts|, i requires 0 <= i < |exts| => base + ["index" + exts[i]])
  }

  /** When `base` plus the i-th extension exists, the result is `base` plus one of the first i + 1 extensions. */
  lemma ExtensionPrecedence(fs: FS, base: Path, exts: seq<string>, i: nat)
    requires i < |exts| && Exists(fs, AddSuffix(base, exts[i]))
    ensures exists k :: 0 <= k <= i && FirstExisting(fs, ExtensionCandidates(base, exts)) == Some(AddSuffix(base, exts[k]))
  {
    FirstIsFirst(fs, ExtensionCandidates(base, exts), i);
  }

  /** The path itself is never a candidate: every extension is non-empty. */
  lemma BareNeverTried(fs: FS, base: Path, exts: seq<string>)
    requires forall i :: 0 <= i < |exts| ==> exts[i] != ""
    ensures FirstExisting(fs, ExtensionCandidates(base, exts)) != Some(base)
  {
    var cs := ExtensionCandidates(base, exts);
    forall k | 0 <= k < |cs|
      ensures cs[k] != base
    {
      if k < |exts| {
        if base != [] {
          assert cs[k][|base| - 1] == base[|base| - 1] + exts[k];
          assert |cs[k][|base| - 1]| > |base[|base| - 1]|;
        }
      } else {
        assert |cs[k]| == |base| + 1;
      }
    }
  }

  /**
   * The probing loop every resolver runs: try each candidate in turn and
   * stop at the first that is accessible.
   */
  method Probe(fs: FS, cands: seq<Path>) returns (r: Option<Path>)
    ensures r == FirstExisting(fs, cands)
  {
    var i := 0;
    while i < |cands|
      invariant 0 <= i <= |cands|
      invariant forall j :: 0 <= j < i ==> !Exists(fs, cands[j])
      invariant FirstExisting(fs, cands) == FirstExisting(fs, cands[i..])
    {
      if Exists(fs, cands[i]) {
        assert FirstExisting(fs, cands[i..]) == Some(cands[i]);
        return Some(cands[i]);
      }
      assert cands[i..][1..] == cands[i + 1..];
      i := i + 1;
    }
    return None;
  }

  /**
   * The nearest directory strictly below the filesystem root, from `dir` up,
   * that holds a package.json: no directory between it and `dir` holds one.
   */
  function NearestManifestDir(fs: FS, dir: Path): (r: Option<Path>)
    ensures r.Some? ==> |r.value| <= |dir| && r.value == dir[..|r.value|] && r.value != [] && Exists(fs, r.value + ["package.json"])
    ensures r.Some? ==> forall k :: |r.value| < k <= |dir| ==> !Exists(fs, dir[..k] + ["package.json"])
    ensures r.None? ==> forall k :: 1 <= k <= |dir| ==> !Exists(fs, dir[..k] + ["package.json"])
    decreases |dir|
  {
    if dir == [] then None
    else if Exists(fs, dir + ["package.json"]) then (assert dir[..|dir|] == dir; Some(dir))
    else
      var r := NearestManifestDir(fs, Dirname(dir));
      assert forall k :: 0 <= k < |dir| ==> dir[..k] == Dirname(dir)[..k];
      assert dir[..|dir|] == dir;
      r
  }

  /** `findProjectRoot`: walk up while the directory is not its own parent; the start path when no package.json is found. */
  method FindProjectRoot(fs: FS, currentPath: Path) returns (root: Path)
    ensures root == NearestManifestDir(fs, currentPath).GetOr(currentPath)
  {
    var dir := currentPath;
    while dir != Dirname(dir)
      invariant NearestManifestDir(fs, currentPath) == NearestManifestDir(fs, dir)
      decreases |dir|
    {
      if Exists(fs, dir + ["package.json"]) {
        return dir;
      }
      dir := Dirname(dir);
    }
    return currentPath;
  }
}
