/**
 Cache-key derivation (app.py `generate_cache_key`). The raw key is
 `role + "::" + query.lower().strip()`; the stored key is its SHA-256 hex digest. The
 digest is not modelled: it is a parameter `hash`, and the one property the cache's role
 isolation needs of it, injectivity (collision resistance), is an explicit hypothesis
 where it is needed.
 */
module CacheKey {
  import opened Wrappers
  import opened Text
  import opened Roles

  const Separator: string := "::"

  /** The query normalisation: `query.lower().strip()`. */
  function Normalize(query: string): string
  {
    Strip(Lower(query))
  }

  /** The raw key that is digested. For a role name without ':' it splits back, at its
      first "::", into the role name and the normalised query. */
  function RawKey(role: string, query: string): (k: string)
    ensures NoColon(role) ==> SplitKey(k) == Some((role, Normalize(query)))
  {
    SplitJoin(role, Normalize(query));
    role + Separator + Normalize(query)
  }

  /** The stored key: the digest of the raw key. Under an injective digest it identifies
      the role name and the normalised query it was made from. */
  function Key(hash: string -> string, role: string, query: string): (k: string)
    ensures Injective(hash) && NoColon(role) ==>
              forall role', query' :: NoColon(role') && hash(RawKey(role', query')) == k ==>
                role' == role && Normalize(query') == Normalize(query)
  {
    hash(RawKey(role, query))
  }

  /** The assumption made of the digest: no two raw keys collide. */
  ghost predicate Injective(hash: string -> string)
  {
    forall x, y :: hash(x) == hash(y) ==> x == y
  }

  /** Splits a raw key at its first "::"; the inverse of `RawKey` for role names
      without ':'. */
  function SplitKey(k: string): (r: Option<(string, string)>)
    ensures r.Some? ==> k == r.value.0 + Separator + r.value.1
  {
    if |k| < 2 then None
    else if k[..2] == Separator then Some(([], k[2..]))
    else match SplitKey(k[1..])
      case None => None
      case Some((role, rest)) => Some(([k[0]] + role, rest))
  }

  // ---------------------------------------------------------------------------
  // Properties

  /** Joining a colon-free role name and any text with "::" splits back into the two. */
  lemma {:induction false} SplitJoin(role: string, rest: string)
    ensures NoColon(role) ==> SplitKey(role + Separator + rest) == Some((role, rest))
    decreases |role|
  {
    if NoColon(role) {
      var k := role + Separator + rest;
      if role == [] {
        assert k == Separator + rest;
      } else {
        assert k[..2] != Separator by { assert k[0] == role[0]; }
        assert k[1..] == role[1..] + Separator + rest;
        assert NoColon(role[1..]);
        SplitJoin(role[1..], rest);
        assert [k[0]] + role[1..] == role;
      }
    }
  }

  /** Raw keys of colon-free role names determine the role and the normalised query. */
  lemma RawKeyInjective(role1: string, q1: string, role2: string, q2: string)
    requires NoColon(role1) && NoColon(role2)
    requires RawKey(role1, q1) == RawKey(role2, q2)
    ensures role1 == role2 && Normalize(q1) == Normalize(q2)
  {
  }

  /** Cache isolation: the same query under two different role names never shares a
      raw key (for any role names at all), and under an injective digest never shares a
      stored key. */
  lemma RolesNeverShareKey(hash: string -> string, role1: string, role2: string, query: string)
    requires role1 != role2
    ensures RawKey(role1, query) != RawKey(role2, query)
    ensures Injective(hash) ==> Key(hash, role1, query) != Key(hash, role2, query)
  {
    var n := Normalize(query);
    assert |RawKey(role1, query)| == |role1| + 2 + |n|;
    assert |RawKey(role2, query)| == |role2| + 2 + |n|;
    assert RawKey(role1, query)[..|role1|] == role1;
    assert RawKey(role2, query)[..|role2|] == role2;
  }

  /** Case and surrounding whitespace do not matter: a query whose letters differ only in
      case, padded with whitespace, gets the same key as the original. */
  lemma QueryVariantsShareKey(hash: string -> string, role: string, query: string, variant: string, p: string, q: string)
    requires SameUpToCase(query, variant)
    requires AllSpace(p) && AllSpace(q)
    ensures RawKey(role, p + variant + q) == RawKey(role, query)
    ensures Key(hash, role, p + variant + q) == Key(hash, role, query)
  {
    LowerConcat(p + variant, q);
    LowerConcat(p, variant);
    LowerKeepsSpace(p);
    LowerKeepsSpace(q);
    LowerSameUpToCase(query, variant);
    StripIgnoresPadding(Lower(variant), p, q);
  }

  /** The key is computed from the normalised query, so normalising first changes nothing. */
  lemma NormalizeIdempotent(query: string)
    ensures Normalize(Normalize(query)) == Normalize(query)
  {
  }

  /** Stored keys under an injective digest coincide only for the same role name and the
      same normalised query. */
  lemma KeyCollisionFree(hash: string -> string, role1: string, q1: string, role2: string, q2: string)
    requires Injective(hash)
    requires NoColon(role1) && NoColon(role2)
    requires Key(hash, role1, q1) == Key(hash, role2, q2)
    ensures role1 == role2 && Normalize(q1) == Normalize(q2)
  {
    RawKeyInjective(role1, q1, role2, q2);
  }
}
