# ASU assistant: vector store, query cache and messaging handler

This project models the serving core of a retrieval-augmented question
answering service for Arizona State University questions, which answers over
WhatsApp and SMS. It covers four parts and proves properties about each.

- **The Qdrant vector store** (`QdrantStore`, `PointIds`, `Metadata`):
  - Opening a store: credentials, and the collection being found or created.
  - Sanitising metadata into scalar payloads.
  - Deterministic point ids, laid out like a UUID from the MD5 digest of the document id.
  - Batched upserts with a one-point-at-a-time retry when a batch fails.
  - Search-result formatting, statistics, existence and deletion.
- **The query cache** in front of the base pipeline (`QueryCache`):
  - Keys are the MD5 digest of the lower-cased, stripped question.
  - Entries expire after a one-hour TTL.
  - Cleanup runs only once the cache holds more than 100 entries.
  - An exception in the pipeline turns into an apology answer, which is not cached.
- **The incoming-message handler** (`SmsHandler`):
  - Empty bodies get a fixed reply.
  - The first quick reply whose key is a substring of the message is sent without calling the pipeline.
  - Otherwise the outcome of the bounded RAG call (a result, a timeout or an exception) decides the reply.
  - Every outgoing message longer than 1600 characters is cut to its first 1600 characters plus a marker; shorter ones go out unchanged.
- **Backend selection** (`VectorStoreFactory`):
  - The factory dispatches on the lower-cased type setting.
  - The info report compares the type case-sensitively.

`Serving` composes the handler with the cache and the 15-second alarm. That composition shows the finding below.

Python semantics are modelled explicitly:
- `str.lower` folds ASCII letters only.
- `str.strip` removes the `str.isspace` characters.
- `in` on strings is a substring test.
- Dictionary iteration follows insertion order.
- `range(0, n, size)` raises on a zero step and is empty for a negative one.

The clock, MD5, the Qdrant client and the base pipeline enter as parameters:
- The clock is two integer readings. `now` stands for the readings at the validity check and at cleanup; `storedAt` is taken when a result is stored.
- The base pipeline's reaction to the 15-second alarm is an input too: once the alarm fires it either raises or returns a result of its own.
- MD5 is a function onto 32-character lowercase hex digests.
- The Qdrant client's replies are `Result`/`Outcome` values, or a function from (call index, batch) to accepted.
- The base pipeline is a function from (question, `top_k`) to an answer or a raised message.

## Model

| member | source | states |
|---|---|---|
| QdrantStore.Either | src/rag/qdrant_vector_store.py:20-21 | an explicit URL or key is used when it is truthy, and the environment value otherwise |
| QdrantStore.Open | src/rag/qdrant_vector_store.py:15-61 | missing URL or key is the credentials ValueError; the store opens exactly when credentials are present, the listing succeeds, and the collection is listed or created; a failed listing or a failed creation is re-raised as that client error; the opened store carries the name, credentials and embedding size (default 1536) |
| Metadata.CleanValue | src/rag/qdrant_vector_store.py:63-79 | the cleaned value is always a scalar; None becomes the empty string; scalars are kept; lists and other values become their `str()` text, in which list items appear by their `repr()`, strings among them quoted and escaped as Python's `repr` does for ASCII |
| Metadata.Clean | src/rag/qdrant_vector_store.py:63-79 | keeps exactly the same keys, maps each value through the per-value rule, and leaves only scalars |
| Metadata.CleanFixesExactlyScalars | src/rag/qdrant_vector_store.py:63-79 | cleaning leaves a mapping unchanged if and only if all its values are already scalars |
| Metadata.CleanIdempotent | src/rag/qdrant_vector_store.py:63-79 | cleaning twice equals cleaning once |
| Metadata.ListItemsShownByRepr | src/rag/qdrant_vector_store.py:73-78 | an object on its own is stored as its `str()` text, but inside a list as its `repr()` text, as in `"[datetime.date(2024, 1, 1)]"` |
| Metadata.CleanListAndNull | src/rag/qdrant_vector_store.py:70-77 | a list `[1, 2, 3]` is stored as the text "[1, 2, 3]" and None as "" |
| Metadata.ReprQuote | src/rag/qdrant_vector_store.py:73-77 | the repr of a listed string is double-quoted exactly when it holds a single quote and no double quote, and single-quoted otherwise |
| Metadata.EscapeRoundTrip | src/rag/qdrant_vector_store.py:73-77 | reading the escapes back (`Unescape`) recovers the string, for either quote: no escape is ambiguous |
| Metadata.StrReprRoundTrip | src/rag/qdrant_vector_store.py:73-77 | the stored repr of a listed string, with its quotes removed, reads back to the string, so distinct strings never share a stored text |
| Metadata.ListedBackslashEscaped | src/rag/qdrant_vector_store.py:73-75 | a list `["C:\\docs"]` is stored as the text `"['C:\\\\docs']"`, its backslash doubled |
| Metadata.ListedNewlineEscaped | src/rag/qdrant_vector_store.py:73-75 | a list `["a\nb"]` is stored as the text `"['a\\nb']"`, its newline written as an escape |
| PointIds.Layout | src/rag/qdrant_vector_store.py:81-88 | the id has 36 characters, with hyphens exactly at positions 8, 13, 18 and 23 and hex digits elsewhere; removing the hyphens gives back the digest |
| PointIds.PointId | src/rag/qdrant_vector_store.py:81-88 | the point id has 36 characters with hyphens exactly at positions 8, 13, 18 and 23, and removing the hyphens gives back the MD5 digest of the document id |
| PointIds.PointIdSameIffDigestSame | src/rag/qdrant_vector_store.py:81-88 | two document ids get the same point id if and only if their MD5 digests are equal |
| PointIds.VersionAndVariantNotSet | src/rag/qdrant_vector_store.py:85-88 | the UUID version and variant positions just carry digest characters, so the id is not a version-4-style UUID |
| QdrantStore.Payload | src/rag/qdrant_vector_store.py:97-107 | the payload has the metadata keys plus `content` and `original_id`; those two override metadata of the same name; the other values are cleaned; every value is scalar |
| QdrantStore.BuildPoints | src/rag/qdrant_vector_store.py:97-109 | documents and embeddings are zipped, so there are as many points as the shorter of the two lists |
| QdrantStore.BuildPointsZip | src/rag/qdrant_vector_store.py:97-109 | point i is built from document i and embedding i: its id, its vector and its payload |
| QdrantStore.Batches | src/rag/qdrant_vector_store.py:115-116 | concatenating the batches gives back the points; every batch is non-empty and at most the batch size; all but the last are full |
| QdrantStore.RetryEach | src/rag/qdrant_vector_store.py:127-136 | the points stored by the retry come only from the batch, and the count of stored points grows by at most the batch length |
| QdrantStore.RetryEachStoresAccepted | src/rag/qdrant_vector_store.py:127-136 | a failed batch adds exactly the points whose own single-point call was accepted, in order, as picked out by index by `Accepted` |
| QdrantStore.RetryEachCalls | src/rag/qdrant_vector_store.py:127-136 | a failed batch is retried with one single-point call per point, in order |
| QdrantStore.RetryEachAllAccepted | src/rag/qdrant_vector_store.py:127-136 | when the client accepts every call, the retry stores every point of the batch |
| QdrantStore.RunBatch | src/rag/qdrant_vector_store.py:117-136 | an accepted batch is stored whole in one call; a rejected one falls back to per-point retries; either way it costs one call, plus one per point when retried, and adds the whole batch or exactly its individually accepted points |
| QdrantStore.BatchCount | src/rag/qdrant_vector_store.py:115-116 | the number of batches is the point count divided by the batch size, rounded up |
| QdrantStore.DefaultBatchSizeCalls | src/rag/qdrant_vector_store.py:112-123 | with the default batch size of 100 and a client that accepts everything, ingestion makes one upsert per hundred points, rounded up |
| QdrantStore.RunBatches | src/rag/qdrant_vector_store.py:115-136 | stored points are drawn only from the batches, and there are never more of them than points |
| QdrantStore.RunBatchesStoresAccepted | src/rag/qdrant_vector_store.py:115-136 | whatever the client answers, the loop stores exactly each accepted batch and, of each rejected batch, the points accepted one at a time, in order |
| QdrantStore.RunBatchesAllAccepted | src/rag/qdrant_vector_store.py:115-126 | with a client that accepts everything, each batch is one call and all points are stored in order |
| QdrantStore.AddDocuments | src/rag/qdrant_vector_store.py:90-138 | empty documents or embeddings make no calls and add nothing; otherwise it fails exactly when the batch size is zero, with the `range()` ValueError; a negative batch size makes no calls; otherwise the stored points, whose number is `successful_adds`, are exactly the accepted batches plus the individually accepted points of rejected batches, and never more than the points built |
| QdrantStore.AddDocumentsBounds | src/rag/qdrant_vector_store.py:110-138 | whatever the client answers, every call sends between 1 and batch-size points, and only built points are stored |
| QdrantStore.AddDocumentsAllAccepted | src/rag/qdrant_vector_store.py:110-126 | with a client that accepts everything, the calls are exactly the batches and every point is stored |
| QdrantStore.AddDocumentsLoop | src/rag/qdrant_vector_store.py:110-138 | the loop over batches with its per-point fallback computes what `AddDocuments` specifies |
| QdrantStore.RetryEachLoop | src/rag/qdrant_vector_store.py:127-136 | the per-point fallback loop computes what `RetryEach` specifies |
| QdrantStore.UpsertIsOverride | src/rag/qdrant_vector_store.py:117-120 | upserting into a collection overrides it with exactly the points the same upsert would put into an empty collection, the last point per id winning |
| QdrantStore.UpsertTwice | src/rag/qdrant_vector_store.py:117-120 | upserting the same points twice leaves the collection as one upsert does |
| QdrantStore.AddDocumentsTwiceIdempotent | src/rag/qdrant_vector_store.py:81-120 | upserting the stored points of an ingestion a second time leaves the server collection as the first time did |
| QdrantStore.FormatHits | src/rag/qdrant_vector_store.py:155-167 | one result per hit, in order, with rank counting from the start rank and the hit's score |
| QdrantStore.Search | src/rag/qdrant_vector_store.py:140-172 | a client failure gives an empty list; otherwise result i has rank i+1, the hit's score and content, and the payload minus `content` as metadata |
| QdrantStore.SearchBoundedAndOrdered | src/rag/qdrant_vector_store.py:140-172 | when the client honours the limit and orders by score, the results number at most `top_k` (none for a negative one) and their scores do not increase |
| QdrantStore.SearchReturnsStoredDocument | src/rag/qdrant_vector_store.py:97-167 | a hit on a stored point gives back the document's content, and its cleaned metadata plus `original_id` |
| QdrantStore.GetStats | src/rag/qdrant_vector_store.py:174-189 | the client's point count, vector size and distance; on a client failure, zero documents and no size or distance |
| QdrantStore.ReingestKeepsTotalDocuments | src/rag/qdrant_vector_store.py:174-183 | after a repeated upsert of an ingestion's stored points, `total_documents` is still the number of points the first upsert left on the server |
| QdrantStore.StatsErrorLooksEmpty | src/rag/qdrant_vector_store.py:174-189 | a failing statistics call reports zero documents, like an empty collection, and differs from it only by the missing vector size and distance |
| QdrantStore.CollectionExists | src/rag/qdrant_vector_store.py:200-207 | true if and only if the listing succeeds and contains the name |
| QdrantStore.DeleteCollection | src/rag/qdrant_vector_store.py:191-198 | fails if and only if the client fails, re-raising its error |
| QdrantStore.OnlyDeletionRaises | src/rag/qdrant_vector_store.py:174-208 | the same client failure is re-raised by deletion but swallowed by statistics (zero documents) and by the existence check (false) |
| QdrantStore.OpenChecksCredentialsFirst | src/rag/qdrant_vector_store.py:20-35 | missing credentials fail with the same ValueError whatever the listing and creation calls would answer |
| QdrantStore.OpenSkipsCreateIffExists | src/rag/qdrant_vector_store.py:37-57 | with credentials present, the store opens even when creation would fail exactly when the existence check finds the collection, and then the creation outcome does not matter |
| Text.Lower | src/rag/optimized_rag_system.py:30 | same length, with each character folded |
| Text.StripShape | src/rag/optimized_sms_handler.py:80 | the stripped text is a slice of the input cut only at white space, and it neither starts nor ends with white space |
| Text.StripEmptyIffAllSpace | src/rag/optimized_sms_handler.py:80-85 | stripping gives the empty string if and only if the text is all white space |
| Text.StripIgnoresPadding | src/rag/optimized_rag_system.py:30 | white space added around a text does not change its stripped form |
| Text.LowerStripCommute | src/rag/optimized_sms_handler.py:43 | lower-casing then stripping equals stripping then lower-casing |
| Text.ContainsIff | src/rag/optimized_sms_handler.py:54-56 | the substring test holds if and only if the needle occurs at some position |
| Text.ContainsSurvivesStrip | src/rag/optimized_sms_handler.py:43-56 | stripping cannot remove an occurrence of a key that starts and ends with non-space |
| Text.NatToDecimal | src/rag/qdrant_vector_store.py:74-76 | the decimal rendering is non-empty, all digits, reads back as the number, and has no leading zero except for 0 itself |
| QueryCache.NewCache | src/rag/optimized_rag_system.py:21-26 | a new cache is empty, with limit 100 and TTL 3600 |
| QueryCache.CacheKey | src/rag/optimized_rag_system.py:28-30 | the key is the digest of the lower-cased and stripped question, in either order |
| QueryCache.IsValid | src/rag/optimized_rag_system.py:32-34 | an entry is valid exactly before the instant TTL seconds after it was stored, and a valid entry is never one cleanup removes |
| QueryCache.Cleanup | src/rag/optimized_rag_system.py:36-44 | an entry is removed if and only if its age is strictly above the TTL; the kept entries are unchanged |
| QueryCache.CleanupKeepsEntryAtTtl | src/rag/optimized_rag_system.py:32-44 | an entry whose age equals the TTL is no longer valid, yet cleanup keeps it |
| QueryCache.Apology | src/rag/optimized_rag_system.py:77-84 | the fallback result echoes the question with the apology answer, no sources and empty context |
| QueryCache.Query | src/rag/optimized_rag_system.py:46-84 | a valid hit returns the stored result without calling the pipeline or changing the cache; a miss calls the pipeline after the size-triggered cleanup; an answer is stored under the key with the later clock reading; an exception yields the apology and stores nothing |
| QueryCache.SameNormalFormSameKey | src/rag/optimized_rag_system.py:28-30 | questions with the same normal form share a key |
| QueryCache.KeyIgnoresCaseAndPadding | src/rag/optimized_rag_system.py:28-30 | questions that differ only in ASCII case and surrounding white space share a key |
| QueryCache.KeyExample | src/rag/optimized_rag_system.py:28-30 | "What is ASU?" and "what is asu? " share a key |
| QueryCache.FailureCachesNothing | src/rag/optimized_rag_system.py:59-84 | a failed pipeline call adds or changes no entry, and leaves the cache as it was when no cleanup was due |
| QueryCache.RepeatWithinTtlHits | src/rag/optimized_rag_system.py:46-75 | after an answered miss, the same question in any case or padding before the TTL expires returns the same result, without a pipeline call or a cache change |
| QueryCache.RepeatAfterTtlRecomputes | src/rag/optimized_rag_system.py:32-56 | once the TTL has run out, the same question calls the pipeline again |
| QueryCache.NoHardSizeBound | src/rag/optimized_rag_system.py:59-70 | the limit only triggers cleanup: when nothing is old enough to remove, a new key grows the cache past the limit |
| QueryCache.MissBelowLimitKeepsOthers | src/rag/optimized_rag_system.py:59-70 | with no cleanup due, a miss leaves every other entry as it was |
| SmsHandler.FirstMatch | src/rag/optimized_sms_handler.py:54-58 | no reply exactly when no key occurs; otherwise the reply of the first key that occurs |
| SmsHandler.QuickResponse | src/rag/optimized_sms_handler.py:41-58 | matching is on the lower-cased, stripped question; no reply if and only if no key is a substring; otherwise the first matching key in table order wins |
| SmsHandler.HelloPrecedence | src/rag/optimized_sms_handler.py:45-56 | any message containing "hello" in any case gets the greeting, whatever else it contains |
| SmsHandler.HiMatchesInsideWords | src/rag/optimized_sms_handler.py:47-56 | without "hello", any message containing "hi" (for instance inside "which") gets the "hi" reply |
| SmsHandler.Truncate | src/rag/optimized_sms_handler.py:137-138 | messages up to 1600 characters are unchanged; longer ones keep their first 1600 characters followed by the marker; the result is at most 1626 characters |
| SmsHandler.TruncateKeepsPrefix | src/rag/optimized_sms_handler.py:137-138 | the sent text always starts with the intended text, up to the limit |
| SmsHandler.HandleIncoming | src/rag/optimized_sms_handler.py:76-125 | a missing or all-white-space body gets the empty-message reply; the RAG system is queried, with the stripped body, exactly when that body is non-empty and has no quick reply; a quick reply, a timeout and an exception each get their fixed reply, all short enough to go out uncut; a result's answer (or the default) goes out truncated |
| SmsHandler.ReplyIsBounded | src/rag/optimized_sms_handler.py:137-141 | every reply is at most 1626 characters |
| SmsHandler.GreetingSkipsRag | src/rag/optimized_sms_handler.py:78-93 | a body containing "hello" gets the greeting and the RAG system is not called |
| VectorStoreFactory.CreateVectorStore | src/rag/vector_store_factory.py:14-43 | the collection defaults to the configured name; lower-cased "qdrant" opens the Qdrant store and passes its error on; "chromadb" builds the Chroma store exactly when its constructor does not raise, and passes the exception on otherwise; any other type is the ValueError naming it |
| VectorStoreFactory.DispatchIgnoresCase | src/rag/vector_store_factory.py:27-41 | types equal up to ASCII case give the same result |
| VectorStoreFactory.UnsupportedNeedsNoServer | src/rag/vector_store_factory.py:42-43 | an unsupported type fails without any server interaction mattering |
| VectorStoreFactory.UnsupportedMessageNamesTypes | src/rag/vector_store_factory.py:43 | the error text contains the type and both supported names |
| VectorStoreFactory.GetVectorStoreInfo | src/rag/vector_store_factory.py:45-57 | type and collection as configured; Qdrant URL only for the exact type "qdrant"; database path only for the exact type "chromadb" |
| VectorStoreFactory.InfoNamesAtMostOneLocation | src/rag/vector_store_factory.py:52-57 | the URL and the database path are never both reported |
| VectorStoreFactory.InfoAgreesWithFactory | src/rag/vector_store_factory.py:27-57 | when the report names a location, the factory builds the matching backend, or fails with that backend's own constructor error |
| VectorStoreFactory.CapitalisedTypeHidesUrl | src/rag/vector_store_factory.py:27-57 | the type "Qdrant" makes the factory build Qdrant while the report names neither location |
| Serving.BoundedQueryAsWritten | src/rag/optimized_sms_handler.py:60-74 | as written, the bounded query always returns a result. On a miss where the pipeline lets the alarm's exception out, the result is the apology and nothing is cached. Where a stage catches it and returns, that result is returned and cached |
| Serving.BusyBranchUnreachable | src/rag/optimized_sms_handler.py:19-23 | as written, no deadline, however the pipeline reacts to the alarm, makes the handler see a timeout |
| Serving.TimeoutAnsweredWithApology | src/rag/optimized_sms_handler.py:99-114 | as written, a message whose pipeline overruns and lets the exception out gets the apology, never the busy reply, and nothing is cached |
| Serving.SwallowedTimeoutIsCached | src/rag/llm.py:68-70 | as written, when the answer generator catches the alarm's exception, its text "Error generating answer: Query timeout" is the reply. That result is cached, and the same message within the TTL gets the same reply from the cache whatever its deadline |
| Serving.BoundedQuery | src/rag/optimized_sms_handler.py:60-74 | corrected: a timeout reaches the handler if and only if the query misses and the alarm fires; the cache is then just cleaned up |
| Serving.TimeoutAnsweredBusy | src/rag/optimized_sms_handler.py:107-112 | corrected: an overrun gets the busy reply and caches nothing, however the pipeline would have reacted |
| Serving.InTimeAgrees | src/rag/optimized_sms_handler.py:60-74 | when the alarm does not fire, both compositions behave the same |
| Serving.HitIgnoresDeadline | src/rag/optimized_rag_system.py:51-56 | a cache hit is answered the same whatever the deadline |
| Serving.ServeAsWritten | src/rag/optimized_sms_handler.py:76-125 | messages that need no RAG call leave the cache alone; the others query with the stripped body |
| Serving.Serve | src/rag/optimized_sms_handler.py:76-125 | same shape as `ServeAsWritten`, with the timeout reaching the handler |

## Left out

- Logging, timing measurements and the cache-hit messages: they have no effect on results.
- The SIGALRM mechanics: the alarm is reduced to whether it fires during the base pipeline. An alarm firing during the cache lookup, or before `query` is entered, is not modelled.
- The TwiML markup of `_send_response` is not modelled; only the text sent is. The markup builder's own failure branch, which returns an empty response, is also left out.
- A result whose `answer` key holds Python None is not modelled. The reply text would then be None, and the send step's own failure branch would return an empty response.
- `send_whatsapp_message` and `handle_incoming_sms` are left out. The first is an outbound network call. The second only delegates to the WhatsApp handler.
- The Twilio client setup in the handler's constructor is left out, because it does not affect replies.
- `OptimizedRAGSystem.get_stats` and `_calculate_cache_hit_ratio` are left out. They only report on the cache and the base pipeline, and do not affect answers.
- The Chroma `VectorStore` and the base `ASURAGSystem` are not part of this model. Chroma appears only as its constructor arguments and as whether its constructor raises, an input to the factory; the pipeline appears only as a parameter, together with how it ends when the alarm fires inside it.
- `llm.py` is not part of this model, apart from the text its answer generator returns when it catches an exception (src/rag/llm.py:68-70). The configuration module, scripts and the WSGI entry point are not part of this model.
- `Text.Lower` folds ASCII letters only. Python's full Unicode lower-casing is not modelled.
- `Metadata.CleanValue`: the `repr` of a listed string escapes backslashes, the chosen quote, tab, newline, carriage return and the other ASCII control characters (as `\xNN`). It does not escape the non-ASCII code points Python treats as non-printable (written `\xNN`, `\uNNNN` or `\UNNNNNNNN`), because which code points those are depends on the Unicode database. `Float` and `Other` values carry their repr text as given.
- Float values are opaque: their `str()` text is carried as given, and floating-point formatting is not modelled.
- Parsing of the `EMBEDDING_DIM` environment variable is left out; the environment supplies it already as an integer or as absent.
- `QdrantStore.AddDocuments`: returns the calls made and the stored points. The source returns None and only logs the success count.
- MD5 is a parameter, a function onto 32-character lowercase hex strings. Its actual values are not modelled, so no statement depends on collision resistance.
- `QueryCache.Query`: one reading `now` serves both the validity check and the cleanup, where the source reads the clock separately for each. A clock step between the two readings is not modelled.
- Search embeddings and scores are modelled as reals; the server's similarity computation is the client's business.

## Findings

| source | as written | input that shows it | evidently intended | confidence | as-written member | corrected member |
|---|---|---|---|---|---|---|
| src/rag/optimized_sms_handler.py:19-23 | `TimeoutException` subclasses `Exception`. It is raised inside the base pipeline, which runs within the cached system's `try` (src/rag/optimized_rag_system.py:62-84). If it propagates out of the pipeline, that system's `except Exception` turns it into the uncached apology. If it is raised during answer generation, the generator's own `except Exception` (src/rag/llm.py:68-70) returns an error text, which is cached (`Serving.SwallowedTimeoutIsCached`). Either way `_execute_with_timeout` never returns None. | A non-empty, non-greeting message that misses the cache and whose pipeline runs past 15 seconds. An overrun outside answer generation gets "I'm experiencing some technical difficulties. Please try again in a moment."; one during answer generation gets "Error generating answer: Query timeout", and so does the same question for the next hour | The handler's `result is None` branch (lines 107-112) sends the busy reply "I'm processing a lot of requests right now. …" | high, not executed | Serving.TimeoutAnsweredWithApology | Serving.TimeoutAnsweredBusy |
