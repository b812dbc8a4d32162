/**
 The answer cache (app.py `check_cache` and `save_to_cache`): a key-value store keyed by
 the digest of role and normalised query. Store faults are inputs: a failing read is a
 miss, a failing write leaves the store as it was.
 */
module AnswerCache {
  import opened Wrappers
  import opened Roles
  import opened CacheKey

  /** Seconds an entry is declared valid for (the `ttl` attribute is `now + TtlSeconds`). */
  const TtlSeconds: int := 86400

  datatype CacheEntry = CacheEntry(question: string, role: string, answer: string, sources: seq<string>, ttl: int)

  type Cache = map<string, CacheEntry>

  /** `check_cache`: the stored item for this role and query, or None on a miss or when
      the store raises. No expiry check is made on read. */
  function CheckCache(cache: Cache, readFails: bool, hash: string -> string, role: string, query: string): (r: Option<CacheEntry>)
    ensures r.Some? <==> !readFails && Key(hash, role, query) in cache
    ensures r.Some? ==> r.value == cache[Key(hash, role, query)]
  {
    var key := Key(hash, role, query);
    if readFails then None
    else if key in cache then Some(cache[key])
    else None
  }

  /** `save_to_cache`: writes one item under the role-and-query key with a 24-hour TTL;
      a failing write is swallowed and changes nothing. */
  function SaveToCache(cache: Cache, writeFails: bool, hash: string -> string, role: string, query: string,
                       answer: string, sources: seq<string>, now: int): (c: Cache)
    ensures c.Keys == if writeFails then cache.Keys else cache.Keys + {Key(hash, role, query)}
    ensures forall k :: k in cache && k != Key(hash, role, query) ==> c[k] == cache[k]
    ensures !writeFails ==> var e := c[Key(hash, role, query)];
              e.question == query && e.role == role && e.answer == answer && e.sources == sources
              && e.ttl == now + TtlSeconds
    ensures writeFails ==> c == cache
  {
    if writeFails then cache
    else cache[Key(hash, role, query) := CacheEntry(query, role, answer, sources, now + TtlSeconds)]
  }

  /** Every entry sits under the key of its own role and question, and its role name has
      no ':'. Holds of the empty store and is kept by every write (`SaveKeepsWellKeyed`). */
  ghost predicate WellKeyed(hash: string -> string, cache: Cache)
  {
    forall k :: k in cache ==> NoColon(cache[k].role) && k == Key(hash, cache[k].role, cache[k].question)
  }

  // ---------------------------------------------------------------------------
  // Properties

  /** Round trip: a successful write is read back by the same role for any query that
      normalises the same way, unless the read fails. */
  lemma SaveThenCheck(cache: Cache, hash: string -> string, role: string, query: string, query': string,
                      answer: string, sources: seq<string>, now: int, readFails: bool)
    requires Normalize(query') == Normalize(query)
    ensures var c := SaveToCache(cache, false, hash, role, query, answer, sources, now);
            CheckCache(c, readFails, hash, role, query')
              == if readFails then None else Some(CacheEntry(query, role, answer, sources, now + TtlSeconds))
  {
  }

  /** Isolation: under an injective digest, a write for one role is invisible to every
      lookup by another role, whatever the two queries are. */
  lemma SaveInvisibleToOtherRoles(cache: Cache, writeFails: bool, hash: string -> string, role: string, query: string,
                                  answer: string, sources: seq<string>, now: int,
                                  readFails: bool, other: string, query': string)
    requires Injective(hash)
    requires NoColon(role) && NoColon(other) && role != other
    ensures CheckCache(SaveToCache(cache, writeFails, hash, role, query, answer, sources, now), readFails, hash, other, query')
         == CheckCache(cache, readFails, hash, other, query')
  {
    if Key(hash, other, query') == Key(hash, role, query) {
      KeyCollisionFree(hash, other, query', role, query);
    }
  }

  /** Writes keep the store well keyed. */
  lemma SaveKeepsWellKeyed(cache: Cache, writeFails: bool, hash: string -> string, role: string, query: string,
                           answer: string, sources: seq<string>, now: int)
    requires WellKeyed(hash, cache) && NoColon(role)
    ensures WellKeyed(hash, SaveToCache(cache, writeFails, hash, role, query, answer, sources, now))
  {
  }

  /** No cross-role leak: in a well-keyed store under an injective digest, every hit
      for a role is an entry written by that same role for an equivalent question. */
  lemma HitBelongsToRole(cache: Cache, readFails: bool, hash: string -> string, role: string)
    requires Injective(hash) && WellKeyed(hash, cache) && NoColon(role)
    ensures forall query :: CheckCache(cache, readFails, hash, role, query).Some? ==>
              CheckCache(cache, readFails, hash, role, query).value.role == role
              && Normalize(CheckCache(cache, readFails, hash, role, query).value.question) == Normalize(query)
  {
    forall query | CheckCache(cache, readFails, hash, role, query).Some?
      ensures CheckCache(cache, readFails, hash, role, query).value.role == role
      ensures Normalize(CheckCache(cache, readFails, hash, role, query).value.question) == Normalize(query)
    {
      var e := cache[Key(hash, role, query)];
      KeyCollisionFree(hash, role, query, e.role, e.question);
    }
  }

  /** The source does not compare `ttl` with the clock on read: an entry past its declared
      expiry is still served while the store keeps it. */
  lemma ExpiredEntryStillServed(cache: Cache, hash: string -> string, role: string, query: string, now: int)
    requires Key(hash, role, query) in cache && cache[Key(hash, role, query)].ttl < now
    ensures CheckCache(cache, false, hash, role, query) == Some(cache[Key(hash, role, query)])
  {
  }
}
