/**
  Cache keys of the recommendation service. The reader and the writer address a
  user's cached list under `prefix + ":user_recommendations:" + userId`; the
  invalidation scans for the glob `prefix + ":user_recommendations:*"`.
 */
module CacheKeys {

  /** The prefix used when no CACHE_PREFIX is configured. */
  const DefaultPrefix: string := "polyforge:recommendation"

  const Namespace: string := ":user_recommendations:"

  function UserKey(prefix: string, userId: string): string {
    prefix + Namespace + userId
  }

  function InvalidationPattern(prefix: string): string {
    prefix + Namespace + "*"
  }

  /** Characters that are special in a Redis glob. */
  predicate IsGlobMeta(c: char) {
    c == '*' || c == '?' || c == '[' || c == '\\'
  }

  predicate NoGlobMeta(s: string) {
    forall i :: 0 <= i < |s| ==> !IsGlobMeta(s[i])
  }

  /** Redis glob matching for `*` (any run of characters), `?` (any one character)
      and literal characters. */
  function GlobMatch(pattern: string, s: string): bool
    decreases |pattern| + |s|
  {
    if pattern == [] then s == []
    else if pattern[0] == '*' then GlobMatch(pattern[1..], s) || (s != [] && GlobMatch(pattern, s[1..]))
    else s != [] && (pattern[0] == '?' || pattern[0] == s[0]) && GlobMatch(pattern[1..], s[1..])
  }

  lemma {:induction false} StarMatchesEverything(s: string)
    ensures GlobMatch("*", s)
  {
    if s != [] {
      StarMatchesEverything(s[1..]);
    }
  }

  /** A pattern that starts with a literal text matches exactly the strings that
      start with that text and whose remainder matches the rest of the pattern. */
  lemma {:induction false} LiteralHead(lit: string, rest: string, s: string)
    requires NoGlobMeta(lit)
    ensures GlobMatch(lit + rest, s) <==> |lit| <= |s| && s[..|lit|] == lit && GlobMatch(rest, s[|lit|..])
  {
    if lit == [] {
      assert lit + rest == rest;
      assert s[..0] == lit && s[0..] == s;
    } else {
      assert (lit + rest)[0] == lit[0] && !IsGlobMeta(lit[0]);
      assert (lit + rest)[1..] == lit[1..] + rest;
      if s != [] {
        LiteralHead(lit[1..], rest, s[1..]);
        if |lit| <= |s| {
          assert s[..|lit|] == [s[0]] + s[1..][..|lit| - 1];
          assert lit == [lit[0]] + lit[1..];
          assert s[|lit|..] == s[1..][|lit| - 1..];
        }
      }
    }
  }

  lemma NamespaceLiteral(prefix: string)
    requires NoGlobMeta(prefix)
    ensures NoGlobMeta(prefix + Namespace)
  {
  }

  /** With a prefix free of glob characters, the invalidation pattern matches a key
      exactly when the key is some user's key: it starts with `prefix:user_recommendations:`. */
  lemma PatternMatchesExactlyUserKeys(prefix: string, key: string)
    requires NoGlobMeta(prefix)
    ensures GlobMatch(InvalidationPattern(prefix), key) <==>
              |prefix + Namespace| <= |key| && key[..|prefix + Namespace|] == prefix + Namespace
    ensures GlobMatch(InvalidationPattern(prefix), key) ==>
              key == UserKey(prefix, key[|prefix + Namespace|..])
  {
    var lit := prefix + Namespace;
    NamespaceLiteral(prefix);
    LiteralHead(lit, "*", key);
    if |lit| <= |key| {
      StarMatchesEverything(key[|lit|..]);
      assert key == key[..|lit|] + key[|lit|..];
    }
  }

  /** Every key the reader and the writer use is removed by the invalidation scan. */
  lemma UserKeyMatchesPattern(prefix: string, userId: string)
    requires NoGlobMeta(prefix)
    ensures GlobMatch(InvalidationPattern(prefix), UserKey(prefix, userId))
  {
    var key := UserKey(prefix, userId);
    PatternMatchesExactlyUserKeys(prefix, key);
    assert key[..|prefix + Namespace|] == prefix + Namespace;
  }

  /** Different users never share a cache key. */
  lemma UserKeyInjective(prefix: string, a: string, b: string)
    ensures UserKey(prefix, a) == UserKey(prefix, b) ==> a == b
  {
    if UserKey(prefix, a) == UserKey(prefix, b) {
      var n := |prefix + Namespace|;
      assert a == UserKey(prefix, a)[n..];
      assert b == UserKey(prefix, b)[n..];
    }
  }

  lemma DefaultPrefixIsLiteral()
    ensures NoGlobMeta(DefaultPrefix)
  {
  }
}
