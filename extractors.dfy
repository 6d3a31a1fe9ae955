/**
 * The regular expressions of the analyzers, as matches on single statements,
 * and the two ways the code collects their matches: every match in order
 * (`matchAll`, an `exec` loop) and the distinct matches in first-seen order
 * (an insertion-ordered `Set`).
 */
module Extractors {
  import opened Wrappers
  import opened Strings
  import opened SourceText
  import Sequences

  datatype Pattern =
    | RequireCall        // require\(['"]([^'"]+)['"]\)
    | ImportLazy         // import.*?['"]([^'"]+)['"]
    | FromDot            // from\s+['"]\..*?['"]            (then the first quoted string)
    | ImportDot          // import\s+['"]\..*?['"]
    | RequireDot         // require\s*\(['"]\..*?['"]\)
    | CssImportDot       // @import\s+['"]\..*?['"]
    | CssImportAny       // @import\s+['"].*?['"]
    | CssUrlAny          // url\s*\(['"].*?['"]\)
    | LinkHrefAny        // <link[^>]+href=["'].*?["']
    | FromAlias          // from\s+['"](@\/[^'"]+)['"]
    | FromDotLong        // from\s+['"](\.[^'"]+)['"]
    | ImportDotLong      // import\s+['"](\.[^'"]+)['"]
    | FromAny            // from\s+['"]([^'"]+)['"]
    | ImportQuotedAny    // import\s+['"]([^'"]+)['"]
    | ImportFrom         // import.*from ['"]([^'"]+)['"]
    | Python             // from\s+(\w+(?:\.\w+)*)\s+import|\bimport\s+(\w+(?:\.\w+)*)
    | Java               // import\s+([a-zA-Z_][\w.]*\*?);
    | Php                // use\s+([a-zA-Z_][\w\\]*);
    | Route(verb: string) // \.<verb>\(['"]([^'"]+)['"]
    | StackScreenName     // <Stack\.Screen[^>]*name=["']([^"']+)["'][^>]*component=\{([^}]+)\}
    | LayoutsDirImport    // import.*from ['"][@\/\w-]+\/layouts\/(\w+)['"]
    | LayoutClause        // import.*Layout.*from ['"]([^'"]+)['"]
    | ParentLayoutsImport // import.*from ['"]\.\.\/layouts\/(\w+)['"]

  predicate NoQuote(s: string) {
    forall i :: 0 <= i < |s| ==> !IsQuote(s[i])
  }

  /** `\w+(?:\.\w+)*` matched in full. */
  predicate DottedName(s: string) {
    |s| > 0 && IsWordChar(s[0]) && IsWordChar(s[|s| - 1]) &&
    (forall i :: 0 <= i < |s| ==> IsWordChar(s[i]) || s[i] == '.') &&
    (forall i :: 0 <= i < |s| - 1 ==> !(s[i] == '.' && s[i + 1] == '.'))
  }

  /** The end of the longest prefix of `s[k..]` of the form `\w+(?:\.\w+)*`, given that `s[..k]` is one. */
  function DottedEnd(s: string, k: nat): (e: nat)
    requires 0 < k <= |s|
    ensures k <= e <= |s|
    decreases |s| - k
  {
    var w := WordRunEnd(s, k);
    if w + 1 < |s| && s[w] == '.' && IsWordChar(s[w + 1]) then DottedEnd(s, w + 1) else w
  }

  /** What `\bimport\s+(\w+(?:\.\w+)*)` captures after the keyword: the longest dotted prefix. */
  function DottedPrefix(s: string): (r: string)
    ensures r != "" ==> StartsWith(s, r)
  {
    if |s| > 0 && IsWordChar(s[0]) then s[..DottedEnd(s, 1)] else ""
  }

  predicate JavaName(s: string) {
    var body := if EndsWith(s, "*") then s[..|s| - 1] else s;
    |body| > 0 && (IsWordChar(body[0]) && !('0' <= body[0] <= '9')) &&
    forall i :: 0 <= i < |body| ==> IsWordChar(body[i]) || body[i] == '.'
  }

  predicate PhpName(s: string) {
    |s| > 0 && (IsWordChar(s[0]) && !('0' <= s[0] <= '9')) &&
    forall i :: 0 <= i < |s| ==> IsWordChar(s[i]) || s[i] == '\\'
  }

  /** `[@\/\w-]` */
  predicate PathWordChar(c: char) {
    IsWordChar(c) || c == '@' || c == '/' || c == '-'
  }

  /** The start of the longest run of `\w` characters that ends at `e`. */
  function WordRunStart(s: string, e: nat): (k: nat)
    requires e <= |s|
    ensures k <= e && forall i :: k <= i < e ==> IsWordChar(s[i])
    ensures k > 0 ==> !IsWordChar(s[k - 1])
    decreases e
  {
    if e > 0 && IsWordChar(s[e - 1]) then WordRunStart(s, e - 1) else e
  }

  /**
   * The `(\w+)` of `[@\/\w-]+\/layouts\/(\w+)` matched against a whole
   * specifier: its trailing word, when what precedes it is `/layouts/`
   * after at least one character of `[@\/\w-]`.
   */
  function LayoutsCapture(s: string): (r: Option<string>)
    ensures r.Some? ==> IsWord(r.value) && EndsWith(s, "/layouts/" + r.value) && |s| > |r.value| + 9
  {
    var k := WordRunStart(s, |s|);
    if k < |s| && k >= 10 && s[k - 9..k] == "/layouts/" && (forall i :: 0 <= i < k - 9 ==> PathWordChar(s[i])) then
      assert s[|s| - |s[k..]| - 9..] == "/layouts/" + s[k..];
      Some(s[k..])
    else None
  }

  /** The capture a pattern yields on one statement (in its canonical form), if it matches. */
  function Match(p: Pattern, st: Stmt): (r: Option<string>)
    ensures r.Some? ==> r.value != ""
  {
    match p
    case RequireCall =>
      if st.Require? && !st.spaced && QuotedBody(st.spec) then Some(st.spec) else None
    case ImportLazy =>
      if st.Import? && NoQuote(st.clause) && QuotedBody(st.spec) then Some(st.spec)
      else if (st.SideEffectImport? || st.CssImport?) && QuotedBody(st.spec) then Some(st.spec)
      else None
    case FromDot =>
      if (st.Import? || st.ExportFrom?) && QuotedBody(st.spec) && st.spec[0] == '.' then Some(st.spec) else None
    case ImportDot =>
      if (st.SideEffectImport? || st.CssImport?) && QuotedBody(st.spec) && st.spec[0] == '.' then Some(st.spec) else None
    case RequireDot =>
      if st.Require? && QuotedBody(st.spec) && st.spec[0] == '.' then Some(st.spec) else None
    case CssImportDot =>
      if st.CssImport? && QuotedBody(st.spec) && st.spec[0] == '.' then Some(st.spec) else None
    case CssImportAny =>
      if st.CssImport? && QuotedBody(st.spec) then Some(st.spec) else None
    case CssUrlAny =>
      if st.CssUrl? && QuotedBody(st.spec) then Some(st.spec) else None
    case LinkHrefAny =>
      if st.LinkHref? && QuotedBody(st.spec) then Some(st.spec) else None
    case FromAlias =>
      if (st.Import? || st.ExportFrom?) && QuotedBody(st.spec) && |st.spec| > 2 && StartsWith(st.spec, "@/") then Some(st.spec) else None
    case FromDotLong =>
      if (st.Import? || st.ExportFrom?) && QuotedBody(st.spec) && |st.spec| > 1 && st.spec[0] == '.' then Some(st.spec) else None
    case ImportDotLong =>
      if (st.SideEffectImport? || st.CssImport?) && QuotedBody(st.spec) && |st.spec| > 1 && st.spec[0] == '.' then Some(st.spec) else None
    case FromAny =>
      if (st.Import? || st.ExportFrom?) && QuotedBody(st.spec) then Some(st.spec) else None
    case ImportQuotedAny =>
      if (st.SideEffectImport? || st.CssImport?) && QuotedBody(st.spec) then Some(st.spec) else None
    case ImportFrom =>
      if st.Import? && QuotedBody(st.spec) then Some(st.spec) else None
    case Python =>
      if st.PyFromImport? && DottedName(st.pkg) then Some(st.pkg)
      else if st.PyImport? && DottedPrefix(st.pkg) != "" then Some(DottedPrefix(st.pkg))
      else if st.Import? && DottedPrefix(st.clause) != "" then Some(DottedPrefix(st.clause))
      else if st.JavaImport? && DottedPrefix(st.name) != "" then Some(DottedPrefix(st.name))
      else None
    case Java =>
      if st.JavaImport? && JavaName(st.name) then Some(st.name) else None
    case Php =>
      if st.PhpUse? && PhpName(st.name) then Some(st.name) else None
    case Route(verb) =>
      if st.RouteCall? && st.verb == verb && QuotedBody(st.path) then Some(st.path) else None
    case StackScreenName =>
      if st.StackScreen? && QuotedBody(st.name) && st.component != "" && '}' !in st.component then Some(st.name) else None
    case LayoutsDirImport =>
      if st.Import? && QuotedBody(st.spec) then LayoutsCapture(st.spec) else None
    case LayoutClause =>
      if st.Import? && Contains(st.clause, "Layout") && QuotedBody(st.spec) then Some(st.spec) else None
    case ParentLayoutsImport =>
      if st.Import? && |st.spec| > 11 && st.spec[..11] == "../layouts/" && IsWord(st.spec[11..]) then Some(st.spec[11..]) else None
  }

  /** A route pattern matches exactly the route calls of its own verb whose path is non-empty and quote-free. */
  lemma RouteMatch(verb: string, st: Stmt)
    ensures Match(Route(verb), st) == (if st.RouteCall? && st.verb == verb && QuotedBody(st.path) then Some(st.path) else None)
  {
  }

  /** What the `@import '.…'` pattern finds, the lazy import pattern finds too. */
  lemma CssDotIsLazy(st: Stmt)
    ensures Match(CssImportDot, st).Some? ==> Match(ImportLazy, st) == Match(CssImportDot, st)
  {
  }

  /** Every match of a global pattern, in order of position. */
  function MatchAll(p: Pattern, stmts: seq<Stmt>): (r: seq<string>)
    ensures |r| <= |stmts|
    decreases |stmts|
  {
    if stmts == [] then [] else Hit(p, stmts[0]) + MatchAll(p, stmts[1..])
  }

  /** The capture of one statement, as a list of zero or one specifier. */
  function Hit(p: Pattern, st: Stmt): (r: seq<string>)
    ensures |r| <= 1 && (r == [] <==> Match(p, st).None?) && (r != [] ==> Match(p, st) == Some(r[0]))
  {
    match Match(p, st) case Some(s) => [s] case None => []
  }

  /** A string is found exactly when some statement yields it. */
  lemma {:induction false} MatchAllMembers(p: Pattern, stmts: seq<Stmt>, x: string)
    ensures x in MatchAll(p, stmts) <==> exists i :: 0 <= i < |stmts| && Match(p, stmts[i]) == Some(x)
    decreases |stmts|
  {
    if stmts != [] {
      MatchAllMembers(p, stmts[1..], x);
      if x in MatchAll(p, stmts[1..]) {
        var i :| 0 <= i < |stmts[1..]| && Match(p, stmts[1..][i]) == Some(x);
        assert stmts[i + 1] == stmts[1..][i];
      }
      if exists i :: 0 <= i < |stmts| && Match(p, stmts[i]) == Some(x) {
        var i :| 0 <= i < |stmts| && Match(p, stmts[i]) == Some(x);
        if i > 0 {
          assert stmts[1..][i - 1] == stmts[i];
        }
      }
    }
  }

  /** The first match of a non-global pattern (`String.prototype.match`). */
  function MatchFirst(p: Pattern, stmts: seq<Stmt>): (r: Option<string>)
    ensures r.Some? ==> exists i :: 0 <= i < |stmts| && Match(p, stmts[i]) == r && forall j :: 0 <= j < i ==> Match(p, stmts[j]).None?
    ensures r.None? ==> forall i :: 0 <= i < |stmts| ==> Match(p, stmts[i]).None?
    decreases |stmts|
  {
    if stmts == [] then None
    else if Match(p, stmts[0]).Some? then Match(p, stmts[0])
    else
      var r := MatchFirst(p, stmts[1..]);
      assert forall i :: 0 < i < |stmts| ==> stmts[i] == stmts[1..][i - 1];
      r
  }

  predicate Distinct<T(==)>(xs: seq<T>) {
    forall i, j :: 0 <= i < j < |xs| ==> xs[i] != xs[j]
  }

  /** Adds the elements of `xs` to an insertion-ordered set whose elements, in order, are `seen`. */
  function AddAll<T(==)>(seen: seq<T>, xs: seq<T>): (r: seq<T>)
    decreases |xs|
  {
    if xs == [] then seen
    else if xs[0] in seen then AddAll(seen, xs[1..])
    else AddAll(seen + [xs[0]], xs[1..])
  }

  /** The elements of `new Set(xs)` in iteration order. */
  function Dedup<T(==)>(xs: seq<T>): seq<T> {
    AddAll([], xs)
  }

  lemma {:induction false} AddAllSpec<T>(seen: seq<T>, xs: seq<T>)
    requires Distinct(seen)
    ensures Distinct(AddAll(seen, xs))
    ensures forall x :: x in AddAll(seen, xs) <==> x in seen || x in xs
    ensures |AddAll(seen, xs)| >= |seen| && AddAll(seen, xs)[..|seen|] == seen
    decreases |xs|
  {
    if xs != [] {
      if xs[0] in seen {
        AddAllSpec(seen, xs[1..]);
      } else {
        var s' := seen + [xs[0]];
        assert Distinct(s');
        AddAllSpec(s', xs[1..]);
        assert AddAll(s', xs[1..])[..|seen|] == s'[..|seen|];
      }
      assert forall x :: x in xs <==> x == xs[0] || x in xs[1..];
    }
  }

  /** `new Set(xs)` holds each element of `xs` once, and nothing else. */
  lemma DedupSpec<T>(xs: seq<T>)
    ensures Distinct(Dedup(xs))
    ensures forall x :: x in Dedup(xs) <==> x in xs
  {
    AddAllSpec([], xs);
  }

  /** Building the set with `add` in a loop yields its elements in first-insertion order. */
  method CollectDistinct<T(==)>(xs: seq<T>) returns (r: seq<T>)
    ensures r == Dedup(xs)
    ensures Distinct(r)
    ensures forall x :: x in r <==> x in xs
  {
    r := [];
    var i := 0;
    while i < |xs|
      invariant 0 <= i <= |xs|
      invariant AddAll(r, xs[i..]) == Dedup(xs)
      invariant Distinct(r)
    {
      assert xs[i..][1..] == xs[i + 1..];
      if xs[i] !in r {
        r := r + [xs[i]];
      }
      i := i + 1;
    }
    assert xs[i..] == [];
    DedupSpec(xs);
  }

  /**
   * The `extractImports` of the Next.js and React Native analyzers: '@/'
   * and '.' specifiers after `from`, then '.' specifiers after `import`,
   * each once, in first-seen order.
   */
  function AppImportsOf(stmts: seq<Stmt>): seq<string> {
    Dedup(MatchAll(FromAlias, stmts) + MatchAll(FromDotLong, stmts) + MatchAll(ImportDotLong, stmts))
  }

  method ExtractAppImports(stmts: seq<Stmt>) returns (r: seq<string>)
    ensures r == AppImportsOf(stmts)
    ensures Distinct(r)
    ensures forall x :: x in r <==> x in MatchAll(FromAlias, stmts) || x in MatchAll(FromDotLong, stmts) || x in MatchAll(ImportDotLong, stmts)
  {
    r := CollectDistinct(MatchAll(FromAlias, stmts) + MatchAll(FromDotLong, stmts) + MatchAll(ImportDotLong, stmts));
  }

  /** A specifier the Node.js analyzer follows: relative (`.`) or absolute (`/`). */
  predicate LocalSpec(s: string) {
    StartsWith(s, ".") || StartsWith(s, "/")
  }

  function KeepLocal(xs: seq<string>): seq<string>
    decreases |xs|
  {
    if xs == [] then [] else (if LocalSpec(xs[0]) then [xs[0]] else []) + KeepLocal(xs[1..])
  }

  /** The filter keeps exactly the local specifiers. */
  lemma {:induction false} KeepLocalMembers(xs: seq<string>)
    ensures forall x :: x in KeepLocal(xs) <==> x in xs && LocalSpec(x)
    decreases |xs|
  {
    if xs != [] {
      KeepLocalMembers(xs[1..]);
      assert forall x :: x in xs <==> x == xs[0] || x in xs[1..];
    }
  }

  /**
   * The `extractImports` of the Node.js analyzer: `require('…')`, then
   * `from '…'`, then `import '…'` specifiers, each kept only when local,
   * each once, in first-seen order.
   */
  function NodeImportsOf(stmts: seq<Stmt>): seq<string> {
    Dedup(KeepLocal(MatchAll(RequireCall, stmts) + MatchAll(FromAny, stmts) + MatchAll(ImportQuotedAny, stmts)))
  }

  /** The `startsWith('.') || startsWith('/')` test applied to every match in turn. */
  method FilterLocal(xs: seq<string>) returns (kept: seq<string>)
    ensures kept == KeepLocal(xs)
  {
    kept := [];
    var i := 0;
    while i < |xs|
      invariant 0 <= i <= |xs|
      invariant kept + KeepLocal(xs[i..]) == KeepLocal(xs)
    {
      assert xs[i..][0] == xs[i] && xs[i..][1..] == xs[i + 1..];
      ghost var head := if LocalSpec(xs[i]) then [xs[i]] else [];
      assert KeepLocal(xs[i..]) == head + KeepLocal(xs[i + 1..]);
      ghost var before := kept;
      if LocalSpec(xs[i]) {
        kept := kept + [xs[i]];
      }
      Sequences.ConcatPrefix(before, head);
      Sequences.ConcatStep(before, KeepLocal(xs[i..]), head, KeepLocal(xs[i + 1..]), KeepLocal(xs));
      i := i + 1;
    }
    assert xs[i..] == [];
  }

  method ExtractNodeImports(stmts: seq<Stmt>) returns (r: seq<string>)
    ensures r == NodeImportsOf(stmts)
    ensures Distinct(r) && forall x :: x in r ==> LocalSpec(x)
    ensures forall x :: x in r <==> (LocalSpec(x) &&
      (x in MatchAll(RequireCall, stmts) || x in MatchAll(FromAny, stmts) || x in MatchAll(ImportQuotedAny, stmts)))
  {
    var kept := FilterLocal(MatchAll(RequireCall, stmts) + MatchAll(FromAny, stmts) + MatchAll(ImportQuotedAny, stmts));
    KeepLocalMembers(MatchAll(RequireCall, stmts) + MatchAll(FromAny, stmts) + MatchAll(ImportQuotedAny, stmts));
    r := CollectDistinct(kept);
  }
}
