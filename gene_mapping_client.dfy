/** The browser side of the gene-mapping lookups in client/src/services/gene-mapping.js:
    `getGeneSymbol`, which turns a 404 into "no mapping", and the module-level cache in front
    of it that `getGeneSymbolCached` fills and `clearGeneMappingCache` empties. */
module GeneMappingClient {

  import opened Wrappers
  import opened Strings

  /** A mapping as the server sends it. */
  datatype Mapping = Mapping(ensemblId: string, geneSymbol: string)

  /** How the HTTP request for one ID ends: a response body (`null` is `None`), an error
      response with its status, or an error without a response. */
  datatype Reply = Ok(data: Option<Mapping>) | HttpError(status: int) | NetworkError

  /** `getGeneSymbol(ensemblId)` given the reply to its request: the body, `null` for a 404,
      and any other error thrown again unchanged. */
  function GetGeneSymbol(reply: Reply): (r: Result<Option<Mapping>, Reply>)
    ensures r.Success? <==> reply.Ok? || reply == HttpError(404)
    ensures reply.Ok? ==> r.value == reply.data
    ensures reply == HttpError(404) ==> r.value == None
    ensures r.Failure? ==> r.error == reply
  {
    match reply
    case Ok(data) => Success(data)
    case HttpError(status) => if status == 404 then Success(None) else Failure(reply)
    case NetworkError => Failure(reply)
  }

  /** The cache key of an ID: the ID upper-cased. */
  function CacheKey(ensemblId: string): (k: string)
    ensures EqualIgnoringCase(k, ensemblId) && IsUpper(k)
  {
    UpperMeaning(ensemblId);
    Upper(ensemblId)
  }

  /** IDs that differ only in case share one cache entry. */
  lemma SameKeyIgnoringCase(a: string, b: string)
    ensures EqualIgnoringCase(a, b) <==> CacheKey(a) == CacheKey(b)
  {
    if CacheKey(a) == CacheKey(b) {
      assert forall i :: 0 <= i < |a| ==> UpperChar(a[i]) == CacheKey(a)[i];
    }
    if EqualIgnoringCase(a, b) {
      UpperOfCaseVariants(a, b);
    }
  }

  /** One cached lookup as a value: its result and the cache after it. `reply` is what the
      request would give, consulted only on a miss. */
  function Step(entries: map<string, Option<Mapping>>, ensemblId: string, reply: Reply)
    : (r: (Result<Option<Mapping>, Reply>, map<string, Option<Mapping>>))
  {
    var key := CacheKey(ensemblId);
    if key in entries then (Success(entries[key]), entries)
    else
      var result := GetGeneSymbol(reply);
      if result.Success? then (result, entries[key := result.value]) else (result, entries)
  }

  /** A hit answers from the cache; a miss answers what the request gives, stores a success
      (a 404 included, as "no mapping") under the key, and stores no error. No other entry
      changes. */
  lemma StepMeaning(entries: map<string, Option<Mapping>>, ensemblId: string, reply: Reply)
    ensures var (r, after) := Step(entries, ensemblId, reply);
      var key := CacheKey(ensemblId);
      && (key in entries ==> r == Success(entries[key]) && after == entries)
      && (key !in entries ==> r == GetGeneSymbol(reply))
      && (r.Success? ==> key in after && after[key] == r.value)
      && (r.Failure? ==> after == entries)
      && (forall k :: k != key ==> (k in after <==> k in entries))
      && (forall k :: k != key && k in entries ==> after[k] == entries[k])
  {
  }

  /** After a successful lookup, the same ID in any case is answered from the cache with the
      same value, whatever a new request would give. */
  lemma SecondLookupHits(entries: map<string, Option<Mapping>>, a: string, b: string, first: Reply, second: Reply)
    requires Step(entries, a, first).0.Success? && EqualIgnoringCase(a, b)
    ensures var (r, after) := Step(entries, a, first);
      Step(after, b, second) == (r, after)
  {
    SameKeyIgnoringCase(a, b);
  }

  /** A failed lookup leaves the cache as it was, so the next lookup asks again. */
  lemma FailureNotCached(entries: map<string, Option<Mapping>>, a: string, first: Reply, second: Reply)
    requires Step(entries, a, first).0.Failure?
    ensures Step(entries, a, first).1 == entries
    ensures CacheKey(a) !in entries
    ensures Step(Step(entries, a, first).1, a, second).0 == GetGeneSymbol(second)
  {
  }

  /** The module-level `Map` behind `getGeneSymbolCached`, with the IDs requested from the
      server so far. */
  class GeneSymbolCache {
    var entries: map<string, Option<Mapping>>
    var requests: seq<string>

    constructor()
      ensures entries == map[] && requests == []
    {
      entries := map[];
      requests := [];
    }

    /** `getGeneSymbolCached(ensemblId)`; `fetch` stands for the server. A hit sends no
        request; a miss sends one for the ID as given. */
    method Lookup(ensemblId: string, fetch: string -> Reply) returns (r: Result<Option<Mapping>, Reply>)
      modifies this
      ensures CacheKey(ensemblId) in old(entries) ==>
        r == Success(old(entries)[CacheKey(ensemblId)]) && entries == old(entries) && requests == old(requests)
      ensures CacheKey(ensemblId) !in old(entries) ==>
        (r, entries) == Step(old(entries), ensemblId, fetch(ensemblId))
        && requests == old(requests) + [ensemblId]
    {
      var cacheKey := CacheKey(ensemblId);
      if cacheKey in entries {
        return Success(entries[cacheKey]);
      }
      var reply := fetch(ensemblId);
      requests := requests + [ensemblId];
      r := GetGeneSymbol(reply);
      if r.Success? {
        entries := entries[cacheKey := r.value];
      }
    }

    /** `clearGeneMappingCache()`: every entry goes, so the next lookup of any ID asks the
        server again. */
    method Clear()
      modifies this
      ensures entries == map[] && requests == old(requests)
      ensures forall id :: CacheKey(id) !in entries
    {
      entries := map[];
    }
  }
}
