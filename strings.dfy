/** String operations the core takes from Go and client-go: Go's ordering of
    strings and cache.SplitMetaNamespaceKey. */
module Strings {
  import opened Types

  /** Go's `a < b` on strings: lexicographic comparison. Go compares the UTF-8
      bytes; on Unicode scalar values code-point order is the same order. (Dafny's
      own `<` on sequences means "proper prefix", which is a different relation.) */
  predicate LexLess(a: string, b: string)
    decreases |a|
  {
    if a == [] then b != []
    else if b == [] then false
    else if a[0] == b[0] then LexLess(a[1..], b[1..])
    else a[0] < b[0]
  }

  lemma {:induction false} LexLessIrreflexive(a: string)
    ensures !LexLess(a, a)
    decreases |a|
  {
    if a != [] {
      LexLessIrreflexive(a[1..]);
    }
  }

  lemma {:induction false} LexLessAsymmetric(a: string, b: string)
    ensures LexLess(a, b) ==> !LexLess(b, a)
    decreases |a|
  {
    if a != [] && b != [] && a[0] == b[0] {
      LexLessAsymmetric(a[1..], b[1..]);
    }
  }

  lemma {:induction false} LexLessTransitive(a: string, b: string, c: string)
    requires LexLess(a, b) && LexLess(b, c)
    ensures LexLess(a, c)
    decreases |a|
  {
    if a != [] && a[0] == b[0] && b[0] == c[0] {
      LexLessTransitive(a[1..], b[1..], c[1..]);
    }
  }

  lemma {:induction false} LexLessTotal(a: string, b: string)
    ensures a == b || LexLess(a, b) || LexLess(b, a)
    decreases |a|
  {
    if a != [] && b != [] && a[0] == b[0] {
      LexLessTotal(a[1..], b[1..]);
      if a[1..] == b[1..] {
        assert a == [a[0]] + a[1..] && b == [b[0]] + b[1..];
      }
    }
  }

  /** A common prefix does not change the comparison. */
  lemma {:induction false} LexLessCommonPrefix(p: string, a: string, b: string)
    ensures LexLess(p + a, p + b) <==> LexLess(a, b)
    decreases |p|
  {
    if p != [] {
      assert (p + a)[0] == p[0] == (p + b)[0];
      assert (p + a)[1..] == p[1..] + a;
      assert (p + b)[1..] == p[1..] + b;
      LexLessCommonPrefix(p[1..], a, b);
      assert LexLess(p + a, p + b) == LexLess(p[1..] + a, p[1..] + b);
    } else {
      assert p + a == a && p + b == b;
    }
  }

  /** Two strings that agree before position i and differ there are ordered by
      the characters at i. */
  lemma {:induction false} LexLessAtFirstDifference(a: string, b: string, i: nat)
    requires i < |a| && i < |b| && a[i] < b[i]
    requires forall j :: 0 <= j < i ==> a[j] == b[j]
    ensures LexLess(a, b)
    decreases i
  {
    if i > 0 {
      LexLessAtFirstDifference(a[1..], b[1..], i - 1);
    }
  }

  /** The index of the first '/' in s, or |s| when there is none. */
  function IndexOfSlash(s: string): (i: nat)
    ensures i <= |s|
    ensures i < |s| ==> s[i] == '/'
    ensures forall j :: 0 <= j < i ==> s[j] != '/'
  {
    if s == [] then 0
    else if s[0] == '/' then 0
    else 1 + IndexOfSlash(s[1..])
  }

  predicate HasSlash(s: string) {
    exists j :: 0 <= j < |s| && s[j] == '/'
  }

  /** cache.SplitMetaNamespaceKey: "name" is ("", name), "ns/name" is (ns, name),
      and a key that splits at '/' into more than two parts is an error. */
  function SplitMetaNamespaceKey(key: string): Result<(string, string)> {
    var i := IndexOfSlash(key);
    if i == |key| then Success(("", key))
    else
      var rest := key[i + 1..];
      if IndexOfSlash(rest) == |rest| then Success((key[..i], rest))
      else Failure(Failed("unexpected key format: \"" + key + "\""))
  }

  /** The key a namespaced object is queued under. */
  function JoinKey(namespace: string, name: string): string {
    namespace + "/" + name
  }

  /** A key fails to split exactly when it holds two slashes, and neither part of
      a split key holds one. */
  lemma SplitMetaNamespaceKeyFails(key: string)
    ensures SplitMetaNamespaceKey(key).Failure? <==>
              exists i, j :: 0 <= i < j < |key| && key[i] == '/' && key[j] == '/'
    ensures SplitMetaNamespaceKey(key).Success? ==>
              !HasSlash(SplitMetaNamespaceKey(key).value.0) && !HasSlash(SplitMetaNamespaceKey(key).value.1)
  {
    var f := IndexOfSlash(key);
    if f < |key| {
      var rest := key[f + 1..];
      var g := IndexOfSlash(rest);
      if g < |rest| {
        assert key[f + 1 + g] == '/';
      } else {
        forall i, j | 0 <= i < j < |key| && key[i] == '/'
          ensures key[j] != '/'
        {
          assert i >= f;
          assert rest[j - f - 1] == key[j];
        }
      }
    }
  }

  /** Splitting inverts joining for names and namespaces without slashes. */
  lemma SplitJoinedKey(namespace: string, name: string)
    requires !HasSlash(namespace) && !HasSlash(name)
    ensures SplitMetaNamespaceKey(JoinKey(namespace, name)) == Success((namespace, name))
    ensures SplitMetaNamespaceKey(name) == Success(("", name))
  {
    var key := JoinKey(namespace, name);
    var f := IndexOfSlash(key);
    assert key[|namespace|] == '/';
    assert forall j :: 0 <= j < |namespace| ==> key[j] == namespace[j];
    assert f == |namespace|;
    assert key[..f] == namespace;
    assert key[f + 1..] == name;
  }
}
