/**
 Route-template strings: the `endsWith` tests the server makes on a path,
 and the collection key, which is the path with the regular expression
 `/\/:\w+$/` replaced by "/".
 */
module RoutePath {

  /** `\w` of a JavaScript regular expression without the `u` flag. */
  predicate IsWordChar(c: char) {
    'a' <= c <= 'z' || 'A' <= c <= 'Z' || '0' <= c <= '9' || c == '_'
  }

  predicate AllWord(s: string) {
    forall i :: 0 <= i < |s| ==> IsWordChar(s[i])
  }

  /** `s.endsWith(suffix)`. */
  predicate EndsWith(s: string, suffix: string) {
    |suffix| <= |s| && s[|s| - |suffix|..] == suffix
  }

  /** The length of the longest run of word characters that ends `s`. */
  function WordSuffixLength(s: string): (n: nat)
    ensures n <= |s|
    ensures AllWord(s[|s| - n..])
    ensures n < |s| ==> !IsWordChar(s[|s| - n - 1])
  {
    if s == [] || !IsWordChar(s[|s| - 1]) then 0
    else
      var m := WordSuffixLength(s[..|s| - 1]);
      WordSuffixGrows(s, m);
      1 + m
  }

  /** A word character after a maximal word run of the rest extends it by one. */
  lemma WordSuffixGrows(s: string, m: nat)
    requires s != [] && IsWordChar(s[|s| - 1])
    requires m <= |s| - 1 && AllWord(s[..|s| - 1][|s| - 1 - m..])
    requires m < |s| - 1 ==> !IsWordChar(s[..|s| - 1][|s| - 1 - m - 1])
    ensures AllWord(s[|s| - (m + 1)..])
    ensures m + 1 < |s| ==> !IsWordChar(s[|s| - (m + 1) - 1])
  {
    var init, tail := s[..|s| - 1], s[|s| - (m + 1)..];
    forall i | 0 <= i < |tail| ensures IsWordChar(tail[i]) {
      if i < m { assert tail[i] == init[|s| - 1 - m..][i]; }
    }
    if m + 1 < |s| { assert s[|s| - (m + 1) - 1] == init[|s| - 1 - m - 1]; }
  }

  /** The partition a handler reads and writes: a trailing `/:name` (one or
      more word characters after the colon) becomes "/", any other path is
      its own key. */
  function CollectionKey(path: string): string {
    var n := WordSuffixLength(path);
    var p := |path| - n;
    if n > 0 && p >= 2 && path[p - 2] == '/' && path[p - 1] == ':' then path[..p - 2] + "/"
    else path
  }

  /** `/\/:\w+$/` matches `path` at index `i`. */
  ghost predicate ParamSuffixAt(path: string, i: int) {
    0 <= i && i + 2 < |path| && path[i] == '/' && path[i + 1] == ':' && AllWord(path[i + 2..])
  }

  /** The regular expression matches at most once, and `CollectionKey` is
      exactly the replacement: the match becomes "/", no match keeps the path. */
  lemma CollectionKeySpec(path: string)
    ensures forall i, j :: ParamSuffixAt(path, i) && ParamSuffixAt(path, j) ==> i == j
    ensures forall i :: ParamSuffixAt(path, i) ==> CollectionKey(path) == path[..i] + "/"
    ensures (forall i :: !ParamSuffixAt(path, i)) ==> CollectionKey(path) == path
  {
    var n := WordSuffixLength(path);
    var p := |path| - n;
    assert forall k :: p <= k < |path| ==> path[k] == path[p..][k - p];
    forall i | ParamSuffixAt(path, i) ensures p == i + 2 {
      assert forall k :: i + 2 <= k < |path| ==> path[k] == path[i + 2..][k - (i + 2)];
    }
    if n > 0 && p >= 2 && path[p - 2] == '/' && path[p - 1] == ':' {
      assert ParamSuffixAt(path, p - 2);
    }
  }

  /** A template `prefix/:name` has the key `prefix/`. */
  lemma ParamPathKey(prefix: string, name: string)
    requires name != [] && AllWord(name)
    ensures CollectionKey(prefix + "/:" + name) == prefix + "/"
  {
    var path := prefix + "/:" + name;
    assert path[|prefix| + 2..] == name;
    assert ParamSuffixAt(path, |prefix|);
    CollectionKeySpec(path);
    assert path[..|prefix|] == prefix;
  }

  /** A path that ends in "/" is its own key. */
  lemma SlashPathKey(path: string)
    requires EndsWith(path, "/")
    ensures CollectionKey(path) == path
  {
    assert path[|path| - 1] == '/';
  }

  /** The item template `P/:id` and the list template `P/` share the
      partition `P/`. */
  lemma SiblingsShareKey(prefix: string, name: string)
    requires name != [] && AllWord(name)
    ensures CollectionKey(prefix + "/:" + name) == CollectionKey(prefix + "/")
    ensures CollectionKey(prefix + "/") == prefix + "/"
  {
    ParamPathKey(prefix, name);
    SlashPathKey(prefix + "/");
  }
}
