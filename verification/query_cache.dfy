/**
 * The query cache in front of the base RAG system (`OptimizedRAGSystem`):
 * results memoised under the MD5 of the normalised question, lazy expiry,
 * a size-triggered cleanup, and a fixed apology when the base system raises.
 * The clock readings and the base system are inputs.
 */
module QueryCache {
  import opened Wrappers
  import opened Digests
  import Text
  import Metadata

  /** What a RAG query returns; `answer` is `None` when the dictionary has no `answer` key, which callers read with a default. */
  datatype PipelineResult = PipelineResult(
    question: string,
    answer: Option<string>,
    sources: seq<Source>,
    context: string)

  /**
   * A retrieved passage as either vector store's `search` formats it: the
   * backend-neutral copy of `QdrantStore.SearchResult`, with the same four
   * fields, so that the pipeline does not depend on which store produced it.
   */
  datatype Source = Source(content: Metadata.Value, metadata: map<string, Metadata.Value>, score: real, rank: int)

  /** The outcome of the base system's `query(question, top_k)`. */
  datatype BaseOutcome = Answered(result: PipelineResult) | Raised(message: string)

  type BaseSystem = (string, int) -> BaseOutcome

  const DefaultMaxCacheSize := 100

  /** One hour, in seconds. */
  const DefaultTtl := 3600

  const ApologyAnswer := "I'm experiencing some technical difficulties. Please try again in a moment."

  datatype Entry = Entry(result: PipelineResult, timestamp: int)

  datatype Cache = Cache(entries: map<Digest, Entry>, maxSize: int, ttl: int)

  /** A fresh cache as the constructor sets it up. */
  function NewCache(): (c: Cache)
    ensures c.entries == map[] && c.maxSize == DefaultMaxCacheSize && c.ttl == DefaultTtl
  {
    Cache(map[], DefaultMaxCacheSize, DefaultTtl)
  }

  /**
   * `_get_cache_key`: the digest of the lower-cased, stripped question; the
   * order of lower-casing and stripping does not matter.
   */
  function CacheKey(md5: Md5, question: string): (k: Digest)
    ensures k == md5(Text.Lower(Text.Strip(question)))
  {
    Text.LowerStripCommute(question);
    md5(Text.Normalize(question))
  }

  /**
   * `_is_cache_valid`: an entry is usable only strictly before the instant
   * `ttl` seconds after it was stored; a valid entry is never one cleanup drops.
   */
  function IsValid(e: Entry, now: int, ttl: int): (b: bool)
    ensures b <==> now < e.timestamp + ttl
    ensures b ==> !(now - e.timestamp > ttl)
  {
    now - e.timestamp < ttl
  }

  /**
   * `_cleanup_cache`: drops the entries older than the TTL (age `>` TTL) and
   * keeps every other entry untouched, so every valid entry survives.
   */
  function Cleanup(entries: map<Digest, Entry>, now: int, ttl: int): (r: map<Digest, Entry>)
    ensures r.Keys <= entries.Keys
    ensures forall k :: k in r ==> r[k] == entries[k]
    ensures forall k :: k in entries && IsValid(entries[k], now, ttl) ==> k in r
    ensures forall k :: k in entries ==> (k !in r <==> now - entries[k].timestamp > ttl)
  {
    map k | k in entries && !(now - entries[k].timestamp > ttl) :: entries[k]
  }

  /**
   * The two boundaries differ: an entry exactly `ttl` old is no longer valid,
   * yet cleanup keeps it.
   */
  lemma CleanupKeepsEntryAtTtl(entries: map<Digest, Entry>, k: Digest, now: int, ttl: int)
    requires k in entries && now - entries[k].timestamp == ttl
    ensures !IsValid(entries[k], now, ttl)
    ensures k in Cleanup(entries, now, ttl)
  {
  }

  /** The entries a miss works with: cleaned up only when the cache is over its size. */
  function Pruned(c: Cache, now: int): map<Digest, Entry> {
    if |c.entries| > c.maxSize then Cleanup(c.entries, now, c.ttl) else c.entries
  }

  /** The fallback returned when the base system raises. */
  function Apology(question: string): (r: PipelineResult)
    ensures r.question == question && r.answer == Some(ApologyAnswer)
    ensures r.sources == [] && r.context == ""
  {
    PipelineResult(question, Some(ApologyAnswer), [], "")
  }

  /** The result of one `query` call, the cache after it, and whether the base system was called. */
  datatype Step = Step(result: PipelineResult, cache: Cache, baseCalled: bool)

  /**
   * `query`. `now` is the clock at the lookup and the cleanup, `storedAt` the
   * clock read again after the base system returns.
   */
  function Query(c: Cache, md5: Md5, base: BaseSystem, question: string, topK: int, now: int, storedAt: int): (s: Step)
    ensures s.cache.maxSize == c.maxSize && s.cache.ttl == c.ttl
    ensures var key := CacheKey(md5, question);
      var hit := key in c.entries && IsValid(c.entries[key], now, c.ttl);
      && (hit ==> s == Step(c.entries[key].result, c, false))
      && (!hit ==> s.baseCalled)
      && (!hit && base(question, topK).Answered? ==>
            && s.result == base(question, topK).result
            && s.cache.entries == Pruned(c, now)[key := Entry(s.result, storedAt)])
      && (!hit && base(question, topK).Raised? ==>
            s.result == Apology(question) && s.cache.entries == Pruned(c, now))
  {
    var key := CacheKey(md5, question);
    if key in c.entries && IsValid(c.entries[key], now, c.ttl) then
      Step(c.entries[key].result, c, false)
    else
      var entries := Pruned(c, now);
      match base(question, topK)
      case Answered(r) => Step(r, c.(entries := entries[key := Entry(r, storedAt)]), true)
      case Raised(_) => Step(Apology(question), c.(entries := entries), true)
  }

  /** Questions with the same normal form share one cache key. */
  lemma SameNormalFormSameKey(md5: Md5, a: string, b: string)
    requires Text.Normalize(a) == Text.Normalize(b)
    ensures CacheKey(md5, a) == CacheKey(md5, b)
  {
  }

  /** Case and surrounding white space do not change the key. */
  lemma KeyIgnoresCaseAndPadding(md5: Md5, pre: string, q: string, post: string, q': string)
    requires Text.AllSpace(pre) && Text.AllSpace(post)
    requires Text.Lower(q) == Text.Lower(q')
    ensures CacheKey(md5, pre + q + post) == CacheKey(md5, q')
  {
    var l := Text.Lower(pre + q + post);
    assert l == Text.Lower(pre) + Text.Lower(q) + Text.Lower(post);
    Text.LowerKeepsSpace(pre);
    Text.LowerKeepsSpace(post);
    Text.StripIgnoresPadding(Text.Lower(pre), Text.Lower(q), Text.Lower(post));
  }

  /** "What is ASU?" and "what is asu? " hit the same entry. */
  lemma KeyExample(md5: Md5)
    ensures CacheKey(md5, "What is ASU?") == CacheKey(md5, "what is asu? ")
  {
    var q, q' := "what is asu?", "What is ASU?";
    assert Text.Lower(q) == Text.Lower(q');
    assert Text.AllSpace(" ") && Text.AllSpace("");
    assert "" + q + " " == "what is asu? ";
    KeyIgnoresCaseAndPadding(md5, "", q, " ", q');
  }

  /**
   * A failed base call caches nothing: no key gains an entry or a new value,
   * and when no cleanup was due the cache is unchanged.
   */
  lemma FailureCachesNothing(c: Cache, md5: Md5, base: BaseSystem, question: string, topK: int, now: int, storedAt: int)
    requires base(question, topK).Raised?
    ensures var s := Query(c, md5, base, question, topK, now, storedAt);
      && s.cache.entries.Keys <= c.entries.Keys
      && (forall k :: k in s.cache.entries ==> s.cache.entries[k] == c.entries[k])
      && (|c.entries| <= c.maxSize ==> s.cache == c)
  {
  }

  /**
   * After a successful miss, asking the same question again, in any case or
   * padding, before the TTL has run out returns the identical result without
   * calling the base system and without changing the cache.
   */
  lemma RepeatWithinTtlHits(c: Cache, md5: Md5, base: BaseSystem, q: string, q': string, topK: int, topK': int,
                            now: int, storedAt: int, later: int, base': BaseSystem, storedAt': int)
    requires Text.Normalize(q) == Text.Normalize(q')
    requires var key := CacheKey(md5, q);
      !(key in c.entries && IsValid(c.entries[key], now, c.ttl))
    requires base(q, topK).Answered?
    requires later - storedAt < c.ttl
    ensures var first := Query(c, md5, base, q, topK, now, storedAt);
      var second := Query(first.cache, md5, base', q', topK', later, storedAt');
      && first.baseCalled && !second.baseCalled
      && second.result == first.result
      && second.cache == first.cache
  {
    var first := Query(c, md5, base, q, topK, now, storedAt);
    var key := CacheKey(md5, q);
    assert CacheKey(md5, q') == key;
    assert first.cache.entries[key] == Entry(first.result, storedAt);
  }

  /** Once the TTL has run out, the same question goes to the base system again. */
  lemma RepeatAfterTtlRecomputes(c: Cache, md5: Md5, base: BaseSystem, q: string, topK: int,
                                 now: int, storedAt: int, later: int, base': BaseSystem, storedAt': int)
    requires var key := CacheKey(md5, q);
      !(key in c.entries && IsValid(c.entries[key], now, c.ttl))
    requires base(q, topK).Answered?
    requires later - storedAt >= c.ttl
    ensures var first := Query(c, md5, base, q, topK, now, storedAt);
      Query(first.cache, md5, base', q, topK, later, storedAt').baseCalled
  {
    var first := Query(c, md5, base, q, topK, now, storedAt);
    assert first.cache.entries[CacheKey(md5, q)] == Entry(first.result, storedAt);
  }

  /**
   * The size limit is only a cleanup trigger: when every entry is still too
   * young to be cleaned, a miss on a new key grows the cache past the limit.
   */
  lemma NoHardSizeBound(c: Cache, md5: Md5, base: BaseSystem, question: string, topK: int, now: int, storedAt: int)
    requires |c.entries| > c.maxSize
    requires forall k :: k in c.entries ==> now - c.entries[k].timestamp <= c.ttl
    requires CacheKey(md5, question) !in c.entries
    requires base(question, topK).Answered?
    ensures |Query(c, md5, base, question, topK, now, storedAt).cache.entries| == |c.entries| + 1
  {
    var key := CacheKey(md5, question);
    assert Cleanup(c.entries, now, c.ttl) == c.entries;
  }

  /** Without a cleanup due, a miss keeps every other entry as it was. */
  lemma MissBelowLimitKeepsOthers(c: Cache, md5: Md5, base: BaseSystem, question: string, topK: int, now: int, storedAt: int)
    requires |c.entries| <= c.maxSize
    ensures var s := Query(c, md5, base, question, topK, now, storedAt);
      forall k :: k in c.entries && k != CacheKey(md5, question) ==> k in s.cache.entries && s.cache.entries[k] == c.entries[k]
  {
  }
}
