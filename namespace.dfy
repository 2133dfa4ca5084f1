/**
  Namespace prefixing of cache keys. The configured namespace may be null
  (`None`) or empty, in which case keys are used as they are.
 */
module Namespace {
  import opened Wrappers
  import opened Glob

  /** The effective key: `namespace + ":" + cacheKey` when a non-empty namespace is configured. */
  function AppendNamespace(namespace: Option<string>, cacheKey: string): (r: string)
    ensures namespace.None? || |namespace.value| == 0 ==> r == cacheKey
    ensures namespace.Some? && |namespace.value| > 0 ==>
              |r| == |namespace.value| + 1 + |cacheKey| && r[|namespace.value|] == ':' &&
              (forall j :: 0 <= j < |namespace.value| ==> r[j] == namespace.value[j]) &&
              (forall j :: 0 <= j < |cacheKey| ==> r[|namespace.value| + 1 + j] == cacheKey[j])
  {
    if namespace.Some? && |namespace.value| > 0 then namespace.value + ":" + cacheKey else cacheKey
  }

  /** The key a namespace adds in front of every raw key (empty when no namespace applies). */
  function NamespacePrefix(namespace: Option<string>): (p: string)
    ensures namespace.None? || |namespace.value| == 0 ==> p == []
    ensures namespace.Some? && |namespace.value| > 0 ==>
              |p| == |namespace.value| + 1 && p[..|p| - 1] == namespace.value && p[|p| - 1] == ':'
  {
    if namespace.Some? && |namespace.value| > 0 then namespace.value + ":" else ""
  }

  /** Prefixing adds the same fixed prefix to every key, and leaves the key unchanged without a namespace. */
  lemma AppendNamespaceIsPrefixing(namespace: Option<string>, cacheKey: string)
    ensures AppendNamespace(namespace, cacheKey) == NamespacePrefix(namespace) + cacheKey
    ensures namespace.None? || namespace.value == "" ==> AppendNamespace(namespace, cacheKey) == cacheKey
    ensures namespace == Some("ns") && cacheKey == "k" ==> AppendNamespace(namespace, cacheKey) == "ns:k"
  {
  }

  /** Under one namespace, distinct raw keys have distinct effective keys. */
  lemma AppendNamespaceInjective(namespace: Option<string>, a: string, b: string)
    requires AppendNamespace(namespace, a) == AppendNamespace(namespace, b)
    ensures a == b
  {
    var p := NamespacePrefix(namespace);
    AppendNamespaceIsPrefixing(namespace, a);
    AppendNamespaceIsPrefixing(namespace, b);
    assert a == (p + a)[|p|..];
    assert b == (p + b)[|p|..];
  }

  /**
    The effective key holds a wildcard exactly when the raw key or the
    namespace does. So the raw-key test of setCache and the effective-key
    test of delete agree whenever the namespace itself is wildcard-free.
   */
  lemma NamespacedKeyWildcard(namespace: Option<string>, cacheKey: string)
    ensures HasWildcard(AppendNamespace(namespace, cacheKey)) <==>
              HasWildcard(cacheKey) || (namespace.Some? && HasWildcard(namespace.value))
  {
  }

  /**
    A namespace containing `*` lets a raw key pass setCache's wildcard test
    while its effective key is a pattern for delete.
   */
  lemma WildcardNamespaceEscapesSetCheck()
    ensures !HasWildcard("k") && HasWildcard(AppendNamespace(Some("a*"), "k"))
  {
  }

  /**
    Under a wildcard-free namespace, the effective pattern built from a raw
    prefix followed by `*` matches exactly the stored keys that begin with the
    effective prefix.
   */
  lemma NamespacedPrefixPattern(namespace: Option<string>, prefix: string, key: string)
    requires namespace.Some? ==> !HasWildcard(namespace.value)
    requires !HasWildcard(prefix)
    ensures AppendNamespace(namespace, prefix + "*") == AppendNamespace(namespace, prefix) + "*"
    ensures Matches(AppendNamespace(namespace, prefix + "*"), key) <==> AppendNamespace(namespace, prefix) <= key
  {
    var p := NamespacePrefix(namespace);
    AppendNamespaceIsPrefixing(namespace, prefix + "*");
    AppendNamespaceIsPrefixing(namespace, prefix);
    assert p + (prefix + "*") == (p + prefix) + "*";
    NamespacedKeyWildcard(namespace, prefix);
    PrefixStarMatchesExtensions(AppendNamespace(namespace, prefix), key);
  }
}
