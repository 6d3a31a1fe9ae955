/**
 * `generateMinimalRepoStructure`: the plain-text tree printer. A directory
 * is rendered as one line per entry (drawn with `├── ` / `└── ` markers and
 * an accumulated prefix), directories followed by their own rendering.
 * The output string is the rendered lines, each ended by a newline.
 */
module MinimalRepoStructure {
  import opened Wrappers
  import opened Strings
  import opened FrameworkConfig
  import Sequences

  /**
   * A directory entry as `readdir` reports it. A folder carries its own
   * listing; `readable` is false when reading it fails.
   */
  datatype Entry = FileEntry(name: string) | Folder(name: string, readable: bool, children: seq<Entry>) {
    predicate IsDir() { Folder? }
  }

  /** Code-unit order of names (the stand-in for `localeCompare`). */
  predicate NameLe(a: string, b: string)
    decreases |a|
  {
    a == [] || (b != [] && (a[0] < b[0] || (a[0] == b[0] && NameLe(a[1..], b[1..]))))
  }

  lemma {:induction false} NameLeTotal(a: string, b: string)
    ensures NameLe(a, b) || NameLe(b, a)
    decreases |a|
  {
    if a != [] && b != [] && a[0] == b[0] {
      NameLeTotal(a[1..], b[1..]);
    }
  }

  lemma {:induction false} NameLeTrans(a: string, b: string, c: string)
    requires NameLe(a, b) && NameLe(b, c)
    ensures NameLe(a, c)
    decreases |a|
  {
    if a != [] && b != [] && c != [] && a[0] == b[0] && b[0] == c[0] {
      NameLeTrans(a[1..], b[1..], c[1..]);
    }
  }

  /** The comparator: files before folders, then by name. */
  predicate Le(a: Entry, b: Entry) {
    (!a.IsDir() && b.IsDir()) || (a.IsDir() == b.IsDir() && NameLe(a.name, b.name))
  }

  lemma LeTotal(a: Entry, b: Entry)
    ensures Le(a, b) || Le(b, a)
  {
    NameLeTotal(a.name, b.name);
  }

  lemma LeTrans(a: Entry, b: Entry, c: Entry)
    requires Le(a, b) && Le(b, c)
    ensures Le(a, c)
  {
    if a.IsDir() == b.IsDir() && b.IsDir() == c.IsDir() {
      NameLeTrans(a.name, b.name, c.name);
    }
  }

  predicate Sorted(es: seq<Entry>) {
    forall i, j :: 0 <= i < j < |es| ==> Le(es[i], es[j])
  }

  /** The entries that are listed at all: not in `ignore` and not hidden. */
  predicate Shown(e: Entry, ignore: seq<string>) {
    e.name !in ignore && !StartsWith(e.name, ".")
  }

  function Filter(es: seq<Entry>, ignore: seq<string>): (r: seq<Entry>)
    ensures forall x :: x in r ==> x in es && Shown(x, ignore)
    decreases |es|
  {
    if es == [] then []
    else if Shown(es[0], ignore) then [es[0]] + Filter(es[1..], ignore)
    else Filter(es[1..], ignore)
  }

  /** Nothing shown is dropped: the filter keeps every shown entry, as often as it occurs. */
  lemma {:induction false} FilterKeepsShown(es: seq<Entry>, ignore: seq<string>)
    ensures forall x :: Shown(x, ignore) ==> multiset(Filter(es, ignore))[x] == multiset(es)[x]
    ensures forall x :: !Shown(x, ignore) ==> multiset(Filter(es, ignore))[x] == 0
    decreases |es|
  {
    if es != [] {
      FilterKeepsShown(es[1..], ignore);
      assert es == [es[0]] + es[1..];
    }
  }

  function Insert(x: Entry, s: seq<Entry>): (r: seq<Entry>)
    ensures multiset(r) == multiset(s) + multiset{x}
    ensures forall y :: y in r ==> y == x || y in s
    decreases |s|
  {
    if s == [] || Le(x, s[0]) then [x] + s
    else
      assert s == [s[0]] + s[1..];
      [s[0]] + Insert(x, s[1..])
  }

  /** `Array.prototype.sort` with the comparator, as a stable insertion sort. */
  function Sort(es: seq<Entry>): (r: seq<Entry>)
    ensures multiset(r) == multiset(es)
    decreases |es|
  {
    if es == [] then []
    else
      assert es == [es[0]] + es[1..];
      Insert(es[0], Sort(es[1..]))
  }

  lemma {:induction false} InsertSorted(x: Entry, s: seq<Entry>)
    requires Sorted(s)
    ensures Sorted(Insert(x, s))
    decreases |s|
  {
    if s != [] && !Le(x, s[0]) {
      LeTotal(x, s[0]);
      InsertSorted(x, s[1..]);
      var r := Insert(x, s[1..]);
      forall j | 0 <= j < |r|
        ensures Le(s[0], r[j])
      {
        assert r[j] in Insert(x, s[1..]);
        if r[j] != x {
          var k :| 0 <= k < |s[1..]| && s[1..][k] == r[j];
          assert s[k + 1] == r[j];
        }
      }
    } else if s != [] {
      forall j | 0 <= j < |s|
        ensures Le(x, s[j])
      {
        if j > 0 {
          LeTrans(x, s[0], s[j]);
        }
      }
      assert Insert(x, s) == [x] + s;
    }
  }

  lemma {:induction false} SortSorted(es: seq<Entry>)
    ensures Sorted(Sort(es))
    decreases |es|
  {
    if es != [] {
      SortSorted(es[1..]);
      InsertSorted(es[0], Sort(es[1..]));
    }
  }

  /** The listing order: the shown entries, files first, each group by name. */
  function Arrange(es: seq<Entry>, ignore: seq<string>): (r: seq<Entry>)
    ensures forall x :: x in r ==> x in es && Shown(x, ignore)
  {
    var f := Filter(es, ignore);
    var r := Sort(f);
    assert forall x :: x in r ==> x in multiset(f);
    r
  }

  /** Arrange yields a sorted permutation of exactly the shown entries. */
  lemma ArrangeSpec(es: seq<Entry>, ignore: seq<string>)
    ensures Sorted(Arrange(es, ignore))
    ensures multiset(Arrange(es, ignore)) == multiset(Filter(es, ignore))
    ensures forall x :: Shown(x, ignore) ==> multiset(Arrange(es, ignore))[x] == multiset(es)[x]
    ensures forall i, j :: 0 <= i < j < |Arrange(es, ignore)| && Arrange(es, ignore)[j].FileEntry? ==> Arrange(es, ignore)[i].FileEntry?
  {
    SortSorted(Filter(es, ignore));
    FilterKeepsShown(es, ignore);
  }

  function Marker(isLast: bool): string {
    if isLast then "└── " else "├── "
  }

  function NextPrefix(prefix: string, isLast: bool): string {
    if isLast then prefix + "    " else prefix + "│   "
  }

  function ErrorLine(prefix: string, name: string): string {
    prefix + "└── Error processing " + name
  }

  /**
   * The lines for directory `d` (a folder) drawn under `prefix`; the root
   * call adds the `<name>/` header. A folder that cannot be read gives the
   * single error line.
   */
  function DirLines(d: Entry, ignore: seq<string>, prefix: string, isRoot: bool): (r: seq<string>)
    requires d.Folder?
    decreases d, 1, 0
  {
    if !d.readable then [ErrorLine(prefix, d.name)]
    else
      var body := EntriesLines(d, Arrange(d.children, ignore), 0, ignore, prefix);
      if isRoot then [d.name + "/"] + body else body
  }

  /** The lines of `ordered[i..]`, the arranged entries of `d`. */
  function EntriesLines(ghost d: Entry, ordered: seq<Entry>, i: nat, ignore: seq<string>, prefix: string): seq<string>
    requires d.Folder?
    requires forall x :: x in ordered ==> x in d.children
    requires i <= |ordered|
    decreases d, 0, |ordered| - i
  {
    if i == |ordered| then []
    else
      var e := ordered[i];
      assert e in d.children;
      var isLast := i == |ordered| - 1;
      var head := prefix + Marker(isLast) + e.name;
      var lines :=
        if e.Folder? && e.name !in FrameworkDirs then
          [head + "/"] + DirLines(e, ignore, NextPrefix(prefix, isLast), false)
        else if e.FileEntry? then [head]
        else [head + "/ (ignored)"];
      lines + EntriesLines(d, ordered, i + 1, ignore, prefix)
  }

  function JoinLines(lines: seq<string>): string
    decreases |lines|
  {
    if lines == [] then "" else lines[0] + "\n" + JoinLines(lines[1..])
  }

  /** `generateMinimalRepoStructure(startPath, ignore, prefix, isRoot)` for the folder at `startPath`. */
  function Generate(d: Entry, ignore: seq<string>, prefix: string, isRoot: bool): string
    requires d.Folder?
  {
    JoinLines(DirLines(d, ignore, prefix, isRoot))
  }

  /** A readable root starts with its header line; an unreadable folder renders as exactly its error line, with no header. */
  lemma RootHeaderAndError(d: Entry, ignore: seq<string>, prefix: string, isRoot: bool)
    requires d.Folder?
    ensures !d.readable ==> Generate(d, ignore, prefix, isRoot) == prefix + "└── Error processing " + d.name + "\n"
    ensures d.readable && isRoot ==> StartsWith(Generate(d, ignore, prefix, isRoot), d.name + "/\n")
    ensures d.readable && !isRoot && Arrange(d.children, ignore) == [] ==> Generate(d, ignore, prefix, isRoot) == ""
  {
    var ls := DirLines(d, ignore, prefix, isRoot);
    if !d.readable {
      assert ls == [ErrorLine(prefix, d.name)];
      assert ls[1..] == [];
      assert JoinLines(ls) == ErrorLine(prefix, d.name) + "\n" + JoinLines([]);
    } else if isRoot {
      assert JoinLines(ls) == d.name + "/" + "\n" + JoinLines(ls[1..]);
    } else if Arrange(d.children, ignore) == [] {
      assert EntriesLines(d, Arrange(d.children, ignore), 0, ignore, prefix) == [];
    }
  }

  /** Every line below a folder starts with the prefix it is drawn under; only the root header does not. */
  lemma {:induction false} LinesPrefixed(d: Entry, ignore: seq<string>, prefix: string)
    requires d.Folder?
    ensures forall k :: 0 <= k < |DirLines(d, ignore, prefix, false)| ==> StartsWith(DirLines(d, ignore, prefix, false)[k], prefix)
    decreases d, 1, 0
  {
    if d.readable {
      EntriesPrefixed(d, Arrange(d.children, ignore), 0, ignore, prefix);
    }
  }

  lemma {:induction false} EntriesPrefixed(d: Entry, ordered: seq<Entry>, i: nat, ignore: seq<string>, prefix: string)
    requires d.Folder?
    requires forall x :: x in ordered ==> x in d.children
    requires i <= |ordered|
    ensures forall k :: 0 <= k < |EntriesLines(d, ordered, i, ignore, prefix)| ==> StartsWith(EntriesLines(d, ordered, i, ignore, prefix)[k], prefix)
    decreases d, 0, |ordered| - i
  {
    if i < |ordered| {
      var e := ordered[i];
      assert e in d.children;
      var isLast := i == |ordered| - 1;
      var head := prefix + Marker(isLast) + e.name;
      EntriesPrefixed(d, ordered, i + 1, ignore, prefix);
      if e.Folder? && e.name !in FrameworkDirs {
        var np := NextPrefix(prefix, isLast);
        LinesPrefixed(e, ignore, np);
        var sub := DirLines(e, ignore, np, false);
        forall k | 0 <= k < |sub|
          ensures StartsWith(sub[k], prefix)
        {
          assert StartsWith(sub[k], np);
          assert sub[k][..|prefix|] == np[..|prefix|];
        }
        assert StartsWith(head + "/", prefix) by {
          assert (head + "/")[..|prefix|] == prefix;
        }
      } else {
        assert (head + "/ (ignored)")[..|prefix|] == prefix;
        assert head[..|prefix|] == prefix;
      }
    }
  }

  /**
   * One line per shown entry, headed by its marker: the last entry of a
   * listing is drawn with `└── `, every other with `├── `, and a folder's
   * line is followed by the lines of its own listing unless it is a
   * framework directory.
   */
  lemma EntryLine(d: Entry, ordered: seq<Entry>, i: nat, ignore: seq<string>, prefix: string)
    requires d.Folder?
    requires forall x :: x in ordered ==> x in d.children
    requires i < |ordered|
    ensures var e := ordered[i];
      var isLast := i == |ordered| - 1;
      var ls := EntriesLines(d, ordered, i, ignore, prefix);
      |ls| > 0 &&
      (e.FileEntry? ==> ls[0] == prefix + Marker(isLast) + e.name && ls[1..] == EntriesLines(d, ordered, i + 1, ignore, prefix)) &&
      (e.Folder? && e.name in FrameworkDirs ==>
        ls[0] == prefix + Marker(isLast) + e.name + "/ (ignored)" && ls[1..] == EntriesLines(d, ordered, i + 1, ignore, prefix)) &&
      (e.Folder? && e.name !in FrameworkDirs ==>
        ls[0] == prefix + Marker(isLast) + e.name + "/" &&
        ls[1..] == DirLines(e, ignore, NextPrefix(prefix, isLast), false) + EntriesLines(d, ordered, i + 1, ignore, prefix))
  {
    var e := ordered[i];
    var isLast := i == |ordered| - 1;
    var head := prefix + Marker(isLast) + e.name;
    var rest := EntriesLines(d, ordered, i + 1, ignore, prefix);
    var ls := EntriesLines(d, ordered, i, ignore, prefix);
    if e.Folder? && e.name !in FrameworkDirs {
      var sub := DirLines(e, ignore, NextPrefix(prefix, isLast), false);
      assert ls == [head + "/"] + sub + rest;
      Sequences.ConsTail(head + "/", sub, rest);
    } else if e.FileEntry? {
      assert ls == [head] + rest;
    } else {
      assert ls == [head + "/ (ignored)"] + rest;
    }
  }
}
