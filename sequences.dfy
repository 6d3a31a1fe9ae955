/** Facts about sequence prefixes shared by the walks of the model. */
module Sequences {

  /** A prefix of a prefix is a prefix. */
  lemma PrefixTrans<T>(a: seq<T>, b: seq<T>, c: seq<T>)
    requires |a| <= |b| <= |c| && b[..|a|] == a && c[..|b|] == b
    ensures c[..|a|] == a
  {
    assert c[..|a|] == c[..|b|][..|a|];
  }

  /** An element below a kept prefix is where it was. */
  lemma PrefixIndex<T>(s: seq<T>, t: seq<T>, k: nat)
    requires k < |t| <= |s| && s[..|t|] == t
    ensures s[k] == t[k]
  {
    assert s[k] == s[..|t|][k];
  }

  /** The first `i + 1` elements are the first `i` and then the element at `i`. */
  lemma TakeSnoc<T>(s: seq<T>, i: nat)
    requires i < |s|
    ensures s[..i + 1] == s[..i] + [s[i]]
  {
  }

  /** Positions in the first two parts of a five-part concatenation. */
  lemma FiveIndex<T>(a: seq<T>, b: seq<T>, c: seq<T>, d: seq<T>, e: seq<T>, i: nat, j: nat)
    requires i < |a| && j < |b|
    ensures (a + b + c + d + e)[i] == a[i] && (a + b + c + d + e)[|a| + j] == b[j]
  {
  }

  /** Dropping the head of `[a] + b + c` leaves `b + c`. */
  lemma ConsTail<T>(a: T, b: seq<T>, c: seq<T>)
    ensures ([a] + b + c)[1..] == b + c
  {
  }

  /** `a` is a prefix of `a + b`, and all of it when `b` is empty. */
  lemma ConcatPrefix<T>(a: seq<T>, b: seq<T>)
    ensures (a + b)[..|a|] == a
    ensures b == [] ==> a + b == a
  {
  }

  /** Storing a key in a map whose keys are `base + a` gives `base + a + {k}`. */
  lemma KeysStep<K, V>(m: map<K, V>, k: K, v: V, base: set<K>, a: set<K>, a2: set<K>)
    requires m.Keys == base + a && a2 == a + {k}
    ensures m[k := v].Keys == base + a2
  {
  }

  /** Storing a key's own value again leaves the map as it was. */
  lemma StoreSame<K, V>(m: map<K, V>, k: K, v: V)
    requires k in m && m[k] == v
    ensures m[k := v] == m
  {
  }

  /** One step of a walk that keeps `done + todo == whole`: the head of `todo` moves to `done`. */
  lemma ConcatStep<T>(done: seq<T>, todo: seq<T>, head: seq<T>, rest: seq<T>, whole: seq<T>)
    requires done + todo == whole && todo == head + rest
    ensures (done + head) + rest == whole
  {
  }

  /** The suffix from `i` starts with the element at `i`, followed by the suffix from `i + 1`. */
  lemma DropHead<T>(s: seq<T>, i: nat)
    requires i < |s|
    ensures s[i..][0] == s[i] && s[i..][1..] == s[i + 1..]
  {
  }
}
