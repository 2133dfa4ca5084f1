/**
  The two wildcard tests the cache manager relies on: Java's `String.indexOf`
  for the characters `*` and `?`, and the store's key-glob matching
  restricted to those two wildcards over the characters of a key: `*` is any
  run of characters, `?` exactly one character. The store matches the key's
  UTF-8 bytes, so for keys outside ASCII its `?` (one byte) and this one (one
  character) differ; patterns made of literals and `*` agree on both.
 */
module Glob {

  /** Java's `s.indexOf(c)`: the first position of `c` in `s`, or -1 when there is none. */
  function IndexOf(s: string, c: char): (r: int)
    ensures r == -1 <==> c !in s
    ensures r != -1 ==> 0 <= r < |s| && s[r] == c && forall j :: 0 <= j < r ==> s[j] != c
  {
    if |s| == 0 then -1
    else if s[0] == c then 0
    else
      var i := IndexOf(s[1..], c);
      if i == -1 then -1 else i + 1
  }

  /** The test `key.indexOf("*") != -1 || key.indexOf("?") != -1`. */
  predicate HasWildcard(key: string)
    ensures HasWildcard(key) <==> '*' in key || '?' in key
  {
    IndexOf(key, '*') != -1 || IndexOf(key, '?') != -1
  }

  /**
    The store's glob matcher walking a non-empty key: `*` is any run of
    characters, `?` one character, anything else itself. Once the key is
    used up, only `*`s may be left in the pattern.
   */
  predicate GlobMatch(pattern: string, key: string)
    ensures GlobMatch(pattern, key) && '*' !in pattern ==> |key| == |pattern|
    decreases |pattern| + |key|
  {
    if |pattern| == 0 then |key| == 0
    else if pattern[0] == '*' then
      GlobMatch(pattern[1..], key) || (|key| > 0 && GlobMatch(pattern, key[1..]))
    else if |key| == 0 then false
    else if pattern[0] == '?' then GlobMatch(pattern[1..], key[1..])
    else pattern[0] == key[0] && GlobMatch(pattern[1..], key[1..])
  }

  /**
    Whether the store's KEYS command lists `key` for `pattern`. The matcher
    never starts on an empty key, so the empty key is listed only for the
    empty pattern, and for the lone `*`, which lists every key.
   */
  predicate Matches(pattern: string, key: string)
    ensures Matches(pattern, key) && '*' !in pattern ==> |key| == |pattern|
  {
    if |key| == 0 then pattern == "" || pattern == "*" else GlobMatch(pattern, key)
  }

  /** A lone `*` matches every key. */
  lemma {:induction false} StarMatchesEverything(key: string)
    ensures GlobMatch("*", key) && Matches("*", key)
  {
    if |key| > 0 {
      StarMatchesEverything(key[1..]);
    }
  }

  /**
    A pattern made only of `*`s matches every non-empty key, provided it is
    not empty; the empty key it matches only when it is at most one `*`.
   */
  lemma {:induction false} StarRunMatches(stars: string, key: string)
    requires forall j :: 0 <= j < |stars| ==> stars[j] == '*'
    ensures GlobMatch(stars, key) <==> |stars| > 0 || |key| == 0
    ensures Matches(stars, key) <==> if |key| == 0 then |stars| <= 1 else |stars| > 0
  {
    if |stars| > 0 {
      assert forall j :: 0 <= j < |stars| - 1 ==> stars[1..][j] == stars[j + 1];
      if |key| == 0 {
        StarRunMatches(stars[1..], key);
      } else {
        StarRunMatches(stars, key[1..]);
      }
    }
  }

  /**
    A pattern without `*` matches exactly the keys of its own length that
    agree with it at every position not holding `?`.
   */
  lemma {:induction false} StarFreeMatches(pattern: string, key: string)
    requires '*' !in pattern
    ensures GlobMatch(pattern, key) <==>
              |key| == |pattern| && forall j :: 0 <= j < |pattern| && pattern[j] != '?' ==> key[j] == pattern[j]
    ensures Matches(pattern, key) <==>
              |key| == |pattern| && forall j :: 0 <= j < |pattern| && pattern[j] != '?' ==> key[j] == pattern[j]
  {
    if |pattern| > 0 && |key| > 0 {
      assert '*' !in pattern[1..] by {
        assert forall c :: c in pattern[1..] ==> c in pattern;
      }
      StarFreeMatches(pattern[1..], key[1..]);
      if |key| == |pattern| {
        assert forall j :: 0 < j < |pattern| ==> pattern[j] == pattern[1..][j - 1] && key[j] == key[1..][j - 1];
      }
    }
  }

  /** A pattern without wildcards matches exactly the key equal to it. */
  lemma {:induction false} LiteralPatternMatchesItselfOnly(pattern: string, key: string)
    requires !HasWildcard(pattern)
    ensures GlobMatch(pattern, key) <==> pattern == key
    ensures Matches(pattern, key) <==> pattern == key
  {
    if |pattern| > 0 && |key| > 0 {
      assert !HasWildcard(pattern[1..]) by {
        assert forall c :: c in pattern[1..] ==> c in pattern;
      }
      LiteralPatternMatchesItselfOnly(pattern[1..], key[1..]);
      assert pattern == [pattern[0]] + pattern[1..];
      assert key == [key[0]] + key[1..];
    }
  }

  /** A wildcard-free prefix followed by `*` matches exactly the keys that start with the prefix. */
  lemma {:induction false} PrefixStarMatchesExtensions(prefix: string, key: string)
    requires !HasWildcard(prefix)
    ensures GlobMatch(prefix + "*", key) <==> prefix <= key
    ensures Matches(prefix + "*", key) <==> prefix <= key
  {
    if |prefix| == 0 {
      assert prefix + "*" == "*";
      StarMatchesEverything(key);
    } else {
      var p := prefix + "*";
      assert p[0] == prefix[0];
      assert p[1..] == prefix[1..] + "*";
      assert !HasWildcard(prefix[1..]) by {
        assert forall c :: c in prefix[1..] ==> c in prefix;
      }
      if |key| > 0 {
        PrefixStarMatchesExtensions(prefix[1..], key[1..]);
        assert prefix <= key <==> prefix[0] == key[0] && prefix[1..] <= key[1..];
      }
    }
  }
}
