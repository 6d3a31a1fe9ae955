/**
 * File contents. The analyzers scan source text with regular expressions that
 * work line by line; the model represents a file as its raw text (used where
 * the code looks at the text as a whole) together with the sequence of its
 * statements, one per line, each written out in the canonical form given in
 * its comment. Every regular expression is then a match on one statement.
 */
module SourceText {
  import opened Wrappers
  import opened Strings

  datatype Stmt =
    | Import(clause: string, spec: string)       // import <clause> from '<spec>'
    | ExportFrom(clause: string, spec: string)   // export <clause> from '<spec>'
    | SideEffectImport(spec: string)             // import '<spec>'
    | Require(spaced: bool, spec: string)        // require('<spec>'), or require ('<spec>') when spaced
    | CssImport(spec: string)                    // @import '<spec>'
    | CssUrl(spec: string)                       // url('<spec>')
    | LinkHref(spec: string)                     // <link rel="stylesheet" href="<spec>">
    | PyFromImport(pkg: string, names: string)  // from <pkg> import <names>
    | PyImport(pkg: string)                      // import <pkg>
    | JavaImport(name: string)                   // import <name>;
    | PhpUse(name: string)                       // use <name>;
    | RouteCall(verb: string, path: string)      // router.<verb>('<path>', handler)
    | StackScreen(name: string, component: string) // <Stack.Screen name="<name>" component={<component>} />
    | Other(line: string)                        // anything the patterns do not look at

  /** package.json, reduced to the fields the analyzers read. */
  datatype Manifest = Manifest(dependencies: set<string>, devDependencies: set<string>, main: Option<string>)

  /**
   * A file: its text, its statements, and its value as JSON when it parses
   * as a package manifest (`None` when `JSON.parse` would throw).
   */
  datatype Content = Content(text: string, stmts: seq<Stmt>, manifest: Option<Manifest>)

  predicate IsQuote(c: char) {
    c == '\'' || c == '"'
  }

  /** What `[^'"]+` captures: non-empty, no quote character. */
  predicate QuotedBody(s: string) {
    s != "" && forall i :: 0 <= i < |s| ==> !IsQuote(s[i])
  }
}
