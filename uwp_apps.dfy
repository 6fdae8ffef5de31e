/**
  * `UwpAppFinder`: resolves a search term to the executable of an installed
  * Store package by running a package query, and remembers each successful
  * answer under the lower-cased term.
  */
module UwpApps {
  import opened Wrappers
  import opened Text
  import opened Host

  /** The dictionary key of a search term: the term in lower case. */
  function CacheKey(searchTerm: string): (key: string)
    ensures Lower(key) == key
    ensures |key| == |searchTerm|
  {
    LowerAbsorbs(searchTerm);
    Lower(searchTerm)
  }

  /**
    * What one run of the query yields: nothing when no process was started,
    * when it threw, when it printed only whitespace or when it exited with a
    * non-zero code; otherwise its output without the surrounding whitespace.
    */
  function QueryResult(outcome: QueryOutcome): (r: Option<string>)
    ensures r.Some? <==> outcome.Exited? && outcome.exitCode == 0 && !IsBlank(outcome.output)
    ensures r.Some? ==> r.value == Trim(outcome.output) && r.value != [] && Trim(r.value) == r.value
  {
    match outcome
    case Exited(exitCode, raw) =>
      var output := Trim(raw);
      TrimIdempotent(raw);
      BlankIffTrimEmpty(raw);
      BlankIffTrimEmpty(output);
      if IsBlank(output) || exitCode != 0 then None
      else Some(Trim(output))
    case _ => None
  }

  /** Every key is lower case and every stored path is non-empty and trimmed. */
  predicate CacheValid(cache: map<string, string>) {
    forall key | key in cache :: Lower(key) == key && cache[key] != [] && Trim(cache[key]) == cache[key]
  }

  /**
    * The answer and the new cache after a query for `searchTerm` came back
    * with `outcome`: only the term's own key can change, it is present
    * afterwards exactly when it was before or the query succeeded, and a
    * success is what it then holds.
    */
  function AfterQuery(cache: map<string, string>, searchTerm: string, outcome: QueryOutcome)
    : (r: (Option<string>, map<string, string>))
    ensures r.0 == QueryResult(outcome)
    ensures forall k | k in cache && k != CacheKey(searchTerm) :: k in r.1 && r.1[k] == cache[k]
    ensures forall k | k in r.1 && k != CacheKey(searchTerm) :: k in cache
    ensures CacheKey(searchTerm) in r.1 <==> CacheKey(searchTerm) in cache || r.0.Some?
    ensures r.0.Some? ==> r.1[CacheKey(searchTerm)] == r.0.value
    ensures r.0.None? ==> r.1 == cache
  {
    var result := QueryResult(outcome);
    if result.Some? then (result, cache[CacheKey(searchTerm) := result.value]) else (result, cache)
  }

  /** Storing query answers keeps the cache well-formed. */
  lemma QueryKeepsCacheValid(cache: map<string, string>, searchTerm: string, outcome: QueryOutcome)
    requires CacheValid(cache)
    ensures CacheValid(AfterQuery(cache, searchTerm, outcome).1)
  {
  }

  /**
    * After a successful query, the same term in any casing finds the stored
    * answer, so a second lookup returns the identical path without a query.
    */
  lemma SuccessIsRemembered(cache: map<string, string>, searchTerm: string, outcome: QueryOutcome, again: string)
    requires QueryResult(outcome).Some?
    requires Upper(again) == Upper(searchTerm)
    ensures CacheKey(again) in AfterQuery(cache, searchTerm, outcome).1
    ensures AfterQuery(cache, searchTerm, outcome).1[CacheKey(again)] == QueryResult(outcome).value
  {
    SameUpperSameLower(again, searchTerm);
  }

  /** A failed query stores nothing, so the next lookup of the term queries again. */
  lemma FailureIsRetried(cache: map<string, string>, searchTerm: string, outcome: QueryOutcome)
    requires QueryResult(outcome).None?
    ensures AfterQuery(cache, searchTerm, outcome) == (None, cache)
    ensures CacheKey(searchTerm) in AfterQuery(cache, searchTerm, outcome).1 <==> CacheKey(searchTerm) in cache
  {
  }

  /** The answer a lookup of `searchTerm` gave, read off the cache after the lookup. */
  function Cached(cache: map<string, string>, searchTerm: string): Option<string> {
    if CacheKey(searchTerm) in cache then Some(cache[CacheKey(searchTerm)]) else None
  }

  /** How many queries a lookup of `searchTerm` runs: none on a cache hit, one otherwise. */
  function QueriesNeeded(cache: map<string, string>, searchTerm: string): nat {
    if CacheKey(searchTerm) in cache then 0 else 1
  }

  /** `queries` are the events of one lookup of `searchTerm` that turned `cache` into `cache'`. */
  ghost predicate LookupEffect(cache: map<string, string>, searchTerm: string, queries: seq<Event>,
                               cache': map<string, string>)
  {
    if CacheKey(searchTerm) in cache then queries == [] && cache' == cache
    else
      |queries| == 1 && queries[0].PackageQuery? && queries[0].term == searchTerm
      && cache' == AfterQuery(cache, searchTerm, queries[0].outcome).1
  }

  /** The answer of a lookup is the cached entry after it: the old one on a hit, the query's answer on a miss. */
  lemma LookupAnswer(cache: map<string, string>, searchTerm: string, outcome: QueryOutcome)
    requires CacheKey(searchTerm) !in cache
    ensures Cached(AfterQuery(cache, searchTerm, outcome).1, searchTerm) == QueryResult(outcome)
  {
  }

  class UwpAppFinder {
    /** The system the query runs on. */
    const os: Os
    /** `_cache`: resolved executable paths by lower-cased search term. */
    var cache: map<string, string>

    ghost predicate Valid()
      reads this
    {
      CacheValid(cache)
    }

    constructor (os: Os)
      ensures this.os == os && cache == map[]
      ensures Valid()
    {
      this.os := os;
      cache := map[];
    }

    /**
      * A cached answer for the term (in any casing) is returned without a
      * query; otherwise the query runs once, and only a successful answer is
      * stored and returned.
      */
    method FindUwpApp(searchTerm: string) returns (result: Option<string>, ghost queries: seq<Event>)
      requires Valid()
      modifies this, os`trace
      ensures Valid()
      ensures CacheKey(searchTerm) in old(cache) ==>
                result == Some(old(cache)[CacheKey(searchTerm)])
                && cache == old(cache) && os.trace == old(os.trace)
      ensures CacheKey(searchTerm) !in old(cache) ==>
                |os.trace| == |old(os.trace)| + 1
                && os.trace[|old(os.trace)|].PackageQuery?
                && os.trace == old(os.trace) + [PackageQuery(searchTerm, os.trace[|old(os.trace)|].outcome)]
                && (result, cache) == AfterQuery(old(cache), searchTerm, os.trace[|old(os.trace)|].outcome)
      ensures result.Some? ==> result.value != [] && Trim(result.value) == result.value
      ensures result == Cached(cache, searchTerm)
      ensures os.trace == old(os.trace) + queries && LookupEffect(old(cache), searchTerm, queries, cache)
    {
      var key := CacheKey(searchTerm);
      if key in cache {
        return Some(cache[key]), [];
      }
      var outcome := os.RunPackageQuery(searchTerm);
      queries := [PackageQuery(searchTerm, outcome)];
      QueryKeepsCacheValid(cache, searchTerm, outcome);
      result := QueryResult(outcome);
      if result.Some? {
        cache := cache[key := result.value];
      }
    }

    /** `ClearCache`: forgets every answer, so the next lookup of any term queries again. */
    method ClearCache()
      modifies this
      ensures cache == map[] && Valid()
    {
      cache := map[];
    }
  }
}
