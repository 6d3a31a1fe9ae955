/** String helpers: the subset of JavaScript's String API the analyzers use. */
module Strings {

  predicate StartsWith(s: string, p: string) {
    |p| <= |s| && s[..|p|] == p
  }

  predicate EndsWith(s: string, p: string) {
    |p| <= |s| && s[|s| - |p|..] == p
  }

  /** `s.includes(t)` */
  predicate Contains(s: string, t: string)
    decreases |s|
  {
    StartsWith(s, t) || (|s| > 0 && Contains(s[1..], t))
  }

  /** `parts.join(sep)` */
  function Join(parts: seq<string>, sep: string): string
    decreases |parts|
  {
    if |parts| == 0 then ""
    else if |parts| == 1 then parts[0]
    else parts[0] + sep + Join(parts[1..], sep)
  }

  /** The join of three pieces. */
  lemma Join3(a: string, b: string, c: string, sep: string)
    ensures Join([a, b, c], sep) == a + sep + b + sep + c
  {
    assert [a, b, c][1..] == [b, c] && [b, c][1..] == [c];
    assert Join([b, c], sep) == b + sep + c;
    assert a + sep + (b + sep + c) == a + sep + b + sep + c;
  }

  /** Index of the first occurrence of `c` in `s`. */
  function FirstIndex(s: string, c: char): (r: nat)
    requires c in s
    ensures r < |s| && s[r] == c && c !in s[..r]
  {
    if s[0] == c then 0
    else
      assert c in s[1..];
      var k := FirstIndex(s[1..], c);
      assert s[..k + 1] == [s[0]] + s[1..][..k];
      k + 1
  }

  /** `s.split(c)`: the pieces between occurrences of `c`, possibly empty. */
  function Split(s: string, c: char): (r: seq<string>)
    ensures |r| >= 1
    ensures forall i :: 0 <= i < |r| ==> c !in r[i]
    decreases |s|
  {
    if c in s then
      var i := FirstIndex(s, c);
      [s[..i]] + Split(s[i + 1..], c)
    else [s]
  }

  /** Splitting a join on a separator that no piece holds gives the pieces back. */
  lemma {:induction false} SplitJoin(parts: seq<string>, c: char)
    requires |parts| >= 1
    requires forall i :: 0 <= i < |parts| ==> c !in parts[i]
    ensures Split(Join(parts, [c]), c) == parts
    decreases |parts|
  {
    if |parts| > 1 {
      var j := Join(parts, [c]);
      var p0 := parts[0];
      assert j == p0 + [c] + Join(parts[1..], [c]);
      assert j[|p0|] == c && j[..|p0|] == p0;
      assert FirstIndex(j, c) == |p0|;
      assert j[|p0| + 1..] == Join(parts[1..], [c]);
      SplitJoin(parts[1..], c);
    }
  }

  /** Joining the pieces of a split on the same character gives the string back. */
  lemma {:induction false} JoinSplit(s: string, c: char)
    ensures Join(Split(s, c), [c]) == s
    decreases |s|
  {
    if c in s {
      var i := FirstIndex(s, c);
      var rest := Split(s[i + 1..], c);
      JoinSplit(s[i + 1..], c);
      assert Split(s, c) == [s[..i]] + rest;
      assert ([s[..i]] + rest)[1..] == rest;
      assert Join(Split(s, c), [c]) == s[..i] + [c] + s[i + 1..];
    }
  }

  /** Joining non-empty pieces without `c` starts with the first piece's first character and ends with the last piece's last. */
  lemma {:induction false} JoinEnds(parts: seq<string>, c: char)
    requires |parts| >= 1
    requires forall i :: 0 <= i < |parts| ==> parts[i] != "" && c !in parts[i]
    ensures var j := Join(parts, [c]); |j| > 0 && j[0] == parts[0][0] && j[|j| - 1] == parts[|parts| - 1][|parts[|parts| - 1]| - 1]
    ensures var j := Join(parts, [c]); j[0] != c && j[|j| - 1] != c
    decreases |parts|
  {
    if |parts| > 1 {
      JoinEnds(parts[1..], c);
    }
  }

  /** The characters `String.prototype.trim` removes (the ASCII part of its set). */
  predicate IsWhitespace(ch: char) {
    ch == ' ' || ch == '\t' || ch == '\n' || ch == '\r' || ch == '\U{000B}' || ch == '\U{000C}'
  }

  /** `s.trim().length === 0` */
  predicate IsBlank(s: string) {
    forall i :: 0 <= i < |s| ==> IsWhitespace(s[i])
  }

  /** The regular-expression class `\w`. */
  predicate IsWordChar(ch: char) {
    ('a' <= ch <= 'z') || ('A' <= ch <= 'Z') || ('0' <= ch <= '9') || ch == '_'
  }

  predicate IsWord(s: string) {
    |s| > 0 && forall i :: 0 <= i < |s| ==> IsWordChar(s[i])
  }

  /** The end of the longest run of `\w` characters that starts at `k`. */
  function WordRunEnd(s: string, k: nat): (e: nat)
    requires k <= |s|
    ensures k <= e <= |s|
    ensures forall i :: k <= i < e ==> IsWordChar(s[i])
    ensures e < |s| ==> !IsWordChar(s[e])
    decreases |s| - k
  {
    if k < |s| && IsWordChar(s[k]) then WordRunEnd(s, k + 1) else k
  }

  /** Removes one trailing `suffix`, as `s.replace(/suffix$/, '')` does. */
  function StripSuffix(s: string, suffix: string): (r: string)
    ensures EndsWith(s, suffix) ==> r + suffix == s
    ensures !EndsWith(s, suffix) ==> r == s
  {
    if EndsWith(s, suffix) then s[..|s| - |suffix|] else s
  }

  /** `s.replace(/^c+/, '')` */
  function TrimStart(s: string, c: char): (r: string)
    ensures |r| <= |s| && (|r| > 0 ==> r[0] != c)
    ensures r == s[|s| - |r|..]
    decreases |s|
  {
    if |s| > 0 && s[0] == c then TrimStart(s[1..], c) else s
  }

  /** `s.replace(/c+$/, '')` */
  function TrimEnd(s: string, c: char): (r: string)
    ensures |r| <= |s| && (|r| > 0 ==> r[|r| - 1] != c)
    ensures r == s[..|r|]
    decreases |s|
  {
    if |s| > 0 && s[|s| - 1] == c then TrimEnd(s[..|s| - 1], c) else s
  }

  /** True when `s` holds two consecutive occurrences of `c`. */
  predicate HasDouble(s: string, c: char) {
    exists i :: 0 <= i < |s| - 1 && s[i] == c && s[i + 1] == c
  }

  /** `s.replace(/c+/g, c)`: every run of `c` becomes a single `c`. */
  function Collapse(s: string, c: char): (r: string)
    ensures |r| <= |s|
    ensures !HasDouble(r, c)
    ensures |s| > 0 ==> |r| > 0 && r[0] == s[0] && r[|r| - 1] == s[|s| - 1]
    decreases |s|
  {
    if |s| <= 1 then s
    else if s[0] == c && s[1] == c then Collapse(s[1..], c)
    else
      var t := Collapse(s[1..], c);
      assert forall i :: 0 < i < |[s[0]] + t| - 1 ==> ([s[0]] + t)[i] == t[i - 1];
      [s[0]] + t
  }

  /** Joining non-empty pieces without `c` on `c` never puts two `c` side by side. */
  lemma {:induction false} JoinNoDouble(parts: seq<string>, c: char)
    requires forall i :: 0 <= i < |parts| ==> parts[i] != "" && c !in parts[i]
    ensures !HasDouble(Join(parts, [c]), c)
    decreases |parts|
  {
    if |parts| > 1 {
      var p0 := parts[0];
      var rest := Join(parts[1..], [c]);
      var j := Join(parts, [c]);
      assert j == p0 + [c] + rest;
      JoinEnds(parts[1..], c);
      JoinNoDouble(parts[1..], c);
      forall i | 0 <= i < |j| - 1
        ensures !(j[i] == c && j[i + 1] == c)
      {
        if i < |p0| {
          assert j[i] == p0[i];
        } else if i > |p0| {
          assert j[i] == rest[i - |p0| - 1] && j[i + 1] == rest[i - |p0|];
        } else {
          assert j[i + 1] == rest[0];
        }
      }
    } else if |parts| == 1 {
      assert Join(parts, [c]) == parts[0];
      forall i | 0 <= i < |parts[0]| - 1
        ensures parts[0][i] != c
      {
      }
    }
  }

  /** Collapsing is the identity on a string without a doubled `c`. */
  lemma {:induction false} CollapseIdentity(s: string, c: char)
    requires !HasDouble(s, c)
    ensures Collapse(s, c) == s
    decreases |s|
  {
    if |s| > 1 {
      assert !(s[0] == c && s[1] == c);
      forall i | 0 <= i < |s[1..]| - 1
        ensures !(s[1..][i] == c && s[1..][i + 1] == c)
      {
        assert s[1..][i] == s[i + 1] && s[1..][i + 1] == s[i + 2];
      }
      CollapseIdentity(s[1..], c);
    }
  }
}
