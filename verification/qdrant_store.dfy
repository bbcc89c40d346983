/**
 * The Qdrant vector-store adapter (`QdrantVectorStore`): credential checks,
 * payload assembly, batched upserts with per-point retry, search-result
 * shaping and the error policy of the remaining client calls. The Qdrant
 * client is an oracle: each call's outcome is an input.
 */
module QdrantStore {
  import opened Wrappers
  import opened Digests
  import opened Metadata
  import PointIds

  /** An embedding vector; its components are opaque to this model. */
  type Embedding = seq<real>

  datatype Document = Document(id: string, content: string, metadata: map<string, Value>)

  /** A Qdrant `PointStruct`. */
  datatype Point = Point(id: string, vector: Embedding, payload: map<string, Value>)

  datatype Error =
    | ValueError(message: string)    // raised by the adapter itself
    | ClientError(message: string)   // raised by the Qdrant client and re-raised

  /** `Config.BATCH_SIZE` when it is not configured. */
  const DefaultBatchSize := 100

  /** `EMBEDDING_DIM` when it is not set. */
  const DefaultEmbeddingDim := 1536

  const CredentialsMessage := "Qdrant URL and API key must be provided via environment variables or parameters"

  // ---------------------------------------------------------------------------
  // Construction

  /** The environment variables the constructor reads. */
  datatype Environment = Environment(qdrantUrl: Option<string>, qdrantApiKey: Option<string>, embeddingDim: Option<int>)

  datatype Store = Store(collectionName: string, url: string, apiKey: string, embeddingDim: int)

  /** A Python string that is neither `None` nor empty, i.e. truthy. */
  predicate Present(s: Option<string>) {
    s.Some? && s.value != ""
  }

  /** Python's `arg or env`: a missing or empty argument defers to the environment. */
  function Either(arg: Option<string>, env: Option<string>): (r: Option<string>)
    ensures Present(arg) ==> r == arg
    ensures !Present(arg) ==> r == env
    ensures Present(r) <==> Present(arg) || Present(env)
  {
    if Present(arg) then arg else env
  }

  /**
   * The constructor with `_get_or_create_collection`. `listing` is the client's
   * list of collection names and `create` the outcome of creating the
   * collection; a client failure in either is re-raised. Credentials are checked
   * before either client call is consulted.
   */
  function Open(collectionName: string, urlArg: Option<string>, keyArg: Option<string>, env: Environment,
                listing: Result<seq<string>, string>, create: Outcome<string>): (r: Result<Store, Error>)
    ensures var url, key := Either(urlArg, env.qdrantUrl), Either(keyArg, env.qdrantApiKey);
      && (!Present(url) || !Present(key) ==> r == Failure(ValueError(CredentialsMessage)))
      && (r.Success? <==>
            Present(url) && Present(key) && listing.Success? &&
            (collectionName in listing.value || create.Pass?))
      && (r.Success? ==>
            r.value == Store(collectionName, url.value, key.value, env.embeddingDim.GetOr(DefaultEmbeddingDim)))
      && (Present(url) && Present(key) && listing.Failure? ==> r == Failure(ClientError(listing.error)))
      && (Present(url) && Present(key) && listing.Success? && collectionName !in listing.value && create.Fail? ==>
            r == Failure(ClientError(create.error)))
  {
    var url, key := Either(urlArg, env.qdrantUrl), Either(keyArg, env.qdrantApiKey);
    if !Present(url) || !Present(key) then
      Failure(ValueError(CredentialsMessage))
    else
      var store := Store(collectionName, url.value, key.value, env.embeddingDim.GetOr(DefaultEmbeddingDim));
      match listing
      case Failure(e) => Failure(ClientError(e))
      case Success(names) =>
        if collectionName in names then Success(store)
        else
          match create
          case Pass => Success(store)
          case Fail(e) => Failure(ClientError(e))
  }

  /** Missing credentials fail the same way whatever either client call would answer. */
  lemma OpenChecksCredentialsFirst(collectionName: string, urlArg: Option<string>, keyArg: Option<string>, env: Environment,
                                   listing: Result<seq<string>, string>, create: Outcome<string>,
                                   listing': Result<seq<string>, string>, create': Outcome<string>)
    requires !Present(Either(urlArg, env.qdrantUrl)) || !Present(Either(keyArg, env.qdrantApiKey))
    ensures Open(collectionName, urlArg, keyArg, env, listing, create)
         == Open(collectionName, urlArg, keyArg, env, listing', create')
         == Failure(ValueError(CredentialsMessage))
  {
  }

  /**
   * With credentials present, the collection is already there exactly when the
   * store opens even though creating it would fail, and then the outcome of
   * creating it is never consulted.
   */
  lemma OpenSkipsCreateIffExists(collectionName: string, urlArg: Option<string>, keyArg: Option<string>, env: Environment,
                                 listing: Result<seq<string>, string>, create: Outcome<string>, e: string)
    requires Present(Either(urlArg, env.qdrantUrl)) && Present(Either(keyArg, env.qdrantApiKey))
    ensures CollectionExists(collectionName, listing) <==>
              Open(collectionName, urlArg, keyArg, env, listing, Fail(e)).Success?
    ensures CollectionExists(collectionName, listing) ==>
              (Open(collectionName, urlArg, keyArg, env, listing, create)
               == Open(collectionName, urlArg, keyArg, env, listing, Fail(e)))
  {
  }

  // ---------------------------------------------------------------------------
  // Payloads and points

  /**
   * The payload stored for a document: its sanitised metadata with `content`
   * and `original_id` written last, so they override metadata keys of those names.
   */
  function Payload(doc: Document): (p: map<string, Value>)
    ensures p.Keys == doc.metadata.Keys + {"content", "original_id"}
    ensures p["content"] == Str(doc.content) && p["original_id"] == Str(doc.id)
    ensures forall k :: k in doc.metadata && k != "content" && k != "original_id" ==>
              p[k] == CleanValue(doc.metadata[k])
    ensures AllScalar(p)
  {
    Clean(doc.metadata)["content" := Str(doc.content)]["original_id" := Str(doc.id)]
  }

  function MakePoint(md5: Md5, doc: Document, embedding: Embedding): Point {
    Point(PointIds.PointId(md5, doc.id), embedding, Payload(doc))
  }

  /** `zip(documents, embeddings)` turned into points: one per pair, the rest dropped. */
  function BuildPoints(md5: Md5, docs: seq<Document>, embs: seq<Embedding>): (pts: seq<Point>)
    ensures |pts| == if |docs| < |embs| then |docs| else |embs|
  {
    if |docs| == 0 || |embs| == 0 then []
    else [MakePoint(md5, docs[0], embs[0])] + BuildPoints(md5, docs[1..], embs[1..])
  }

  /** Point `i` is built from the `i`-th document and the `i`-th embedding. */
  lemma {:induction false} BuildPointsZip(md5: Md5, docs: seq<Document>, embs: seq<Embedding>)
    ensures forall i :: 0 <= i < |BuildPoints(md5, docs, embs)| ==>
      BuildPoints(md5, docs, embs)[i] == MakePoint(md5, docs[i], embs[i])
  {
    if |docs| > 0 && |embs| > 0 {
      BuildPointsZip(md5, docs[1..], embs[1..]);
    }
  }

  // ---------------------------------------------------------------------------
  // Batching

  function Flatten<T>(bs: seq<seq<T>>): seq<T> {
    if |bs| == 0 then [] else bs[0] + Flatten(bs[1..])
  }

  lemma {:induction false} FlattenAppend<T>(a: seq<seq<T>>, b: seq<seq<T>>)
    ensures Flatten(a + b) == Flatten(a) + Flatten(b)
  {
    if |a| == 0 {
      assert a + b == b;
    } else {
      assert (a + b)[1..] == a[1..] + b;
      FlattenAppend(a[1..], b);
    }
  }

  /**
   * `points[i:i + size] for i in range(0, len(points), size)`: consecutive
   * non-empty slices of at most `size` points, all but the last full, that
   * concatenate back to the point list.
   */
  function Batches(pts: seq<Point>, size: nat): (bs: seq<seq<Point>>)
    requires size > 0
    ensures Flatten(bs) == pts
    ensures forall j :: 0 <= j < |bs| ==> 0 < |bs[j]| <= size
    ensures forall j :: 0 <= j < |bs| - 1 ==> |bs[j]| == size
    decreases |pts|
  {
    if |pts| == 0 then []
    else if |pts| <= size then
      assert Flatten([pts]) == pts + Flatten([pts][1..]);
      [pts]
    else
      var rest := Batches(pts[size..], size);
      assert ([pts[..size]] + rest)[1..] == rest;
      assert pts[..size] + pts[size..] == pts;
      [pts[..size]] + rest
  }

  /** The first batch is the first `size` points (or all of them) and the rest is batched the same way. */
  lemma BatchesUnfold(pts: seq<Point>, size: nat)
    requires size > 0 && |pts| > 0
    ensures var k := if size < |pts| then size else |pts|;
      Batches(pts, size) == [pts[..k]] + Batches(pts[k..], size)
  {
    if |pts| <= size {
      assert pts[..|pts|] == pts;
      assert Batches(pts[|pts|..], size) == [];
    }
  }

  /**
   * The batches number `len(points) / size` rounded up: enough to hold every
   * point, and one fewer would not be.
   */
  lemma {:induction false} BatchCount(pts: seq<Point>, size: nat)
    requires size > 0
    ensures |pts| <= |Batches(pts, size)| * size
    ensures |pts| > 0 ==> (|Batches(pts, size)| - 1) * size < |pts|
    decreases |pts|
  {
    if |pts| > size {
      var rest := pts[size..];
      BatchCount(rest, size);
      BatchesUnfold(pts, size);
      CountStep(|rest|, |Batches(rest, size)|, size);
    } else if |pts| > 0 {
      assert |Batches(pts, size)| == 1;
    }
  }

  /** One more full batch of `size` points needs exactly one more batch. */
  lemma CountStep(p: nat, n: int, size: nat)
    requires size > 0 && p > 0
    requires p <= n * size && (n - 1) * size < p
    ensures p + size <= (n + 1) * size && n * size < p + size
  {
    assert (n + 1) * size == n * size + size;
    assert (n - 1) * size == n * size - size;
  }

  // ---------------------------------------------------------------------------
  // Upserting

  /**
   * The Qdrant client's `upsert`: whether call number `n` (counting from 0)
   * with the given points succeeds.
   */
  type UpsertClient = (nat, seq<Point>) -> bool

  /**
   * What `add_documents` has done so far: every upsert call in order, and the
   * points of the calls that succeeded. `successful_adds` is `|stored|`.
   */
  datatype Progress = Progress(calls: seq<seq<Point>>, stored: seq<Point>) {
    function SuccessfulAdds(): nat {
      |stored|
    }
  }

  /** One single-point call per point. */
  function Singletons(pts: seq<Point>): seq<seq<Point>> {
    if |pts| == 0 then [] else [[pts[0]]] + Singletons(pts[1..])
  }

  lemma {:induction false} SingletonsAt(pts: seq<Point>)
    ensures |Singletons(pts)| == |pts|
    ensures forall i :: 0 <= i < |pts| ==> Singletons(pts)[i] == [pts[i]]
  {
    if |pts| > 0 {
      SingletonsAt(pts[1..]);
    }
  }

  /**
   * The retry loop of a failed batch: one single-point call per point, and the
   * points whose call succeeded are stored, in order.
   */
  function RetryEach(client: UpsertClient, p: Progress, pts: seq<Point>): (r: Progress)
    ensures |p.stored| <= |r.stored| <= |p.stored| + |pts|
    ensures forall x :: x in r.stored ==> x in p.stored || x in pts
    decreases |pts|
  {
    if |pts| == 0 then p
    else
      var ok := client(|p.calls|, [pts[0]]);
      var p' := Progress(p.calls + [[pts[0]]], if ok then p.stored + [pts[0]] else p.stored);
      TailMembers(pts);
      RetryEach(client, p', pts[1..])
  }

  /** One step of the retry loop: the first point's call, then the rest. */
  lemma RetryEachStep(client: UpsertClient, p: Progress, pts: seq<Point>)
    requires |pts| > 0
    ensures var h := if client(|p.calls|, [pts[0]]) then [pts[0]] else [];
      RetryEach(client, p, pts) == RetryEach(client, Progress(p.calls + [[pts[0]]], p.stored + h), pts[1..])
  {
    if !client(|p.calls|, [pts[0]]) {
      assert p.stored + [] == p.stored;
    }
  }

  /** The retry stores exactly the points whose own call was accepted, in order. */
  lemma {:induction false} RetryEachStoresAccepted(client: UpsertClient, p: Progress, pts: seq<Point>)
    ensures RetryEach(client, p, pts).stored == p.stored + Accepted(client, |p.calls|, pts)
    decreases |pts|
  {
    if |pts| > 0 {
      var ok := client(|p.calls|, [pts[0]]);
      var h := if ok then [pts[0]] else [];
      var p' := Progress(p.calls + [[pts[0]]], p.stored + h);
      RetryEachStep(client, p, pts);
      RetryEachStoresAccepted(client, p', pts[1..]);
      AcceptedUnfold(client, |p.calls|, pts);
      assert p.stored + h + Accepted(client, |p.calls| + 1, pts[1..])
          == p.stored + (h + Accepted(client, |p.calls| + 1, pts[1..]));
    }
  }

  /**
   * The points of `pts` whose own single-point call succeeds, in order, when
   * point `i` is sent as call number `n + i`.
   */
  function Accepted(client: UpsertClient, n: nat, pts: seq<Point>): seq<Point>
    decreases |pts|
  {
    if |pts| == 0 then []
    else
      var i := |pts| - 1;
      Accepted(client, n, pts[..i]) + (if client(n + i, [pts[i]]) then [pts[i]] else [])
  }

  /** `Accepted` seen from the front: the first point's call decides whether it leads. */
  lemma {:induction false} AcceptedUnfold(client: UpsertClient, n: nat, pts: seq<Point>)
    requires |pts| > 0
    ensures Accepted(client, n, pts)
         == (if client(n, [pts[0]]) then [pts[0]] else []) + Accepted(client, n + 1, pts[1..])
    decreases |pts|
  {
    var i := |pts| - 1;
    if i == 0 {
      assert pts[..0] == [] && pts[1..] == [];
    } else {
      AcceptedUnfold(client, n, pts[..i]);
      assert pts[..i][0] == pts[0];
      assert pts[..i][1..] == pts[1..][..i - 1];
      assert pts[1..][i - 1] == pts[i];
    }
  }

  lemma TailMembers<T>(s: seq<T>)
    requires |s| > 0
    ensures forall x :: x in s[1..] ==> x in s
    ensures s[0] in s
  {
  }

  /** The retry makes one single-point call per point, in order. */
  lemma {:induction false} RetryEachCalls(client: UpsertClient, p: Progress, pts: seq<Point>)
    ensures RetryEach(client, p, pts).calls == p.calls + Singletons(pts)
    decreases |pts|
  {
    if |pts| > 0 {
      var ok := client(|p.calls|, [pts[0]]);
      var p' := Progress(p.calls + [[pts[0]]], if ok then p.stored + [pts[0]] else p.stored);
      RetryEachCalls(client, p', pts[1..]);
      assert p.calls + [[pts[0]]] + Singletons(pts[1..]) == p.calls + Singletons(pts);
    }
  }

  /** A client that accepts every upsert call. */
  ghost predicate AcceptsAll(client: UpsertClient) {
    forall n, q :: client(n, q)
  }

  lemma {:induction false} RetryEachAllAccepted(client: UpsertClient, p: Progress, pts: seq<Point>)
    requires AcceptsAll(client)
    ensures RetryEach(client, p, pts).stored == p.stored + pts
    decreases |pts|
  {
    if |pts| > 0 {
      assert client(|p.calls|, [pts[0]]);
      RetryEachAllAccepted(client, Progress(p.calls + [[pts[0]]], p.stored + [pts[0]]), pts[1..]);
      assert p.stored + [pts[0]] + pts[1..] == p.stored + pts;
    }
  }

  /**
   * One iteration of the batch loop: the whole batch is upserted in one call;
   * if that call fails, each point is retried on its own.
   */
  function RunBatch(client: UpsertClient, p: Progress, batch: seq<Point>): (r: Progress)
    ensures client(|p.calls|, batch) ==> r == Progress(p.calls + [batch], p.stored + batch)
    ensures !client(|p.calls|, batch) ==> r == RetryEach(client, Progress(p.calls + [batch], p.stored), batch)
    ensures |p.stored| <= |r.stored| <= |p.stored| + |batch|
    ensures forall x :: x in r.stored ==> x in p.stored || x in batch
    ensures |r.calls| == |p.calls| + BatchCalls(client, |p.calls|, batch)
    ensures r.stored == p.stored + BatchStored(client, |p.calls|, batch)
  {
    if client(|p.calls|, batch) then Progress(p.calls + [batch], p.stored + batch)
    else
      RetryEachStoresAccepted(client, Progress(p.calls + [batch], p.stored), batch);
      RetryEachCalls(client, Progress(p.calls + [batch], p.stored), batch);
      SingletonsAt(batch);
      RetryEach(client, Progress(p.calls + [batch], p.stored), batch)
  }

  /**
   * How many upsert calls a batch sent as call `n` costs: one when it is
   * accepted, and one more per point when it is retried.
   */
  function BatchCalls(client: UpsertClient, n: nat, batch: seq<Point>): nat {
    if client(n, batch) then 1 else 1 + |batch|
  }

  /**
   * What a batch sent as call `n` adds to the collection: the whole batch when
   * that call succeeds, otherwise the points accepted one at a time.
   */
  function BatchStored(client: UpsertClient, n: nat, batch: seq<Point>): seq<Point> {
    if client(n, batch) then batch else Accepted(client, n + 1, batch)
  }

  /** What the batches add, in order, when the first one is sent as call `n`. */
  function StoredFrom(client: UpsertClient, n: nat, bs: seq<seq<Point>>): seq<Point>
    decreases |bs|
  {
    if |bs| == 0 then []
    else BatchStored(client, n, bs[0]) + StoredFrom(client, n + BatchCalls(client, n, bs[0]), bs[1..])
  }

  /** The batch loop. */
  function RunBatches(client: UpsertClient, p: Progress, bs: seq<seq<Point>>): (r: Progress)
    ensures |p.stored| <= |r.stored| <= |p.stored| + |Flatten(bs)|
    ensures forall x :: x in r.stored ==> x in p.stored || x in Flatten(bs)
    decreases |bs|
  {
    if |bs| == 0 then p
    else
      var p' := RunBatch(client, p, bs[0]);
      var r := RunBatches(client, p', bs[1..]);
      assert Flatten(bs) == bs[0] + Flatten(bs[1..]);
      r
  }

  /**
   * Whatever the client answers, the batch loop stores exactly the accepted
   * batches and, of each rejected batch, the points accepted one at a time;
   * so `successful_adds` is the length of `StoredFrom`.
   */
  lemma {:induction false} RunBatchesStoresAccepted(client: UpsertClient, p: Progress, bs: seq<seq<Point>>)
    ensures RunBatches(client, p, bs).stored == p.stored + StoredFrom(client, |p.calls|, bs)
    decreases |bs|
  {
    if |bs| > 0 {
      var p' := RunBatch(client, p, bs[0]);
      assert RunBatches(client, p, bs) == RunBatches(client, p', bs[1..]);
      RunBatchesStoresAccepted(client, p', bs[1..]);
      var first := BatchStored(client, |p.calls|, bs[0]);
      var rest := StoredFrom(client, |p'.calls|, bs[1..]);
      assert p'.stored == p.stored + first;
      assert StoredFrom(client, |p.calls|, bs) == first + rest;
      assert p.stored + first + rest == p.stored + (first + rest);
    }
  }

  lemma {:induction false} RunBatchesAllAccepted(client: UpsertClient, p: Progress, bs: seq<seq<Point>>)
    requires AcceptsAll(client)
    ensures RunBatches(client, p, bs) == Progress(p.calls + bs, p.stored + Flatten(bs))
    decreases |bs|
  {
    if |bs| == 0 {
      assert p.calls + bs == p.calls && p.stored + Flatten(bs) == p.stored;
    } else {
      assert client(|p.calls|, bs[0]);
      var p' := Progress(p.calls + [bs[0]], p.stored + bs[0]);
      RunBatchesAllAccepted(client, p', bs[1..]);
      assert p'.calls + bs[1..] == p.calls + bs by {
        assert bs == [bs[0]] + bs[1..];
      }
      assert p'.stored + Flatten(bs[1..]) == p.stored + Flatten(bs);
    }
  }

  /** The error `range` raises for a zero step. */
  const ZeroStepMessage := "range() arg 3 must not be zero"

  /**
   * `add_documents`. Empty documents or embeddings do nothing; otherwise one
   * point per zipped pair is built and upserted in batches of `batchSize`.
   * A zero batch size makes `range` raise; a negative one makes it empty.
   */
  function AddDocuments(md5: Md5, client: UpsertClient, docs: seq<Document>, embs: seq<Embedding>,
                        batchSize: int): (r: Result<Progress, Error>)
    ensures r.Failure? <==> |docs| > 0 && |embs| > 0 && batchSize == 0
    ensures r.Failure? ==> r.error == ValueError(ZeroStepMessage)
    ensures |docs| == 0 || |embs| == 0 || batchSize < 0 ==> r == Success(Progress([], []))
    ensures r.Success? ==> r.value.SuccessfulAdds() <= |BuildPoints(md5, docs, embs)|
    ensures |docs| > 0 && |embs| > 0 && batchSize > 0 ==>
      r.Success? && r.value.stored == StoredFrom(client, 0, Batches(BuildPoints(md5, docs, embs), batchSize))
  {
    if |docs| == 0 || |embs| == 0 then Success(Progress([], []))
    else if batchSize == 0 then Failure(ValueError(ZeroStepMessage))
    else if batchSize < 0 then Success(Progress([], []))
    else
      var bs := Batches(BuildPoints(md5, docs, embs), batchSize);
      RunBatchesStoresAccepted(client, Progress([], []), bs);
      Success(RunBatches(client, Progress([], []), bs))
  }

  /**
   * Whatever the client does, every call carries between one and `batchSize`
   * points, and only built points are stored.
   */
  lemma AddDocumentsBounds(md5: Md5, client: UpsertClient, docs: seq<Document>, embs: seq<Embedding>, batchSize: int)
    requires AddDocuments(md5, client, docs, embs, batchSize).Success?
    ensures forall c :: c in AddDocuments(md5, client, docs, embs, batchSize).value.calls ==> 0 < |c| <= batchSize
    ensures forall x :: x in AddDocuments(md5, client, docs, embs, batchSize).value.stored ==> x in BuildPoints(md5, docs, embs)
  {
    var p := AddDocuments(md5, client, docs, embs, batchSize).value;
    if |docs| > 0 && |embs| > 0 && batchSize > 0 {
      var bs := Batches(BuildPoints(md5, docs, embs), batchSize);
      CallsAreBatchesOrSingles(client, Progress([], []), bs, batchSize);
    }
  }

  /** Every call of the batch loop is one whole batch or one point of a batch. */
  lemma {:induction false} CallsAreBatchesOrSingles(client: UpsertClient, p: Progress, bs: seq<seq<Point>>, size: int)
    requires forall c :: c in p.calls ==> 0 < |c| <= size
    requires forall j :: 0 <= j < |bs| ==> 0 < |bs[j]| <= size
    ensures forall c :: c in RunBatches(client, p, bs).calls ==> 0 < |c| <= size
    decreases |bs|
  {
    if |bs| > 0 {
      var p' := RunBatch(client, p, bs[0]);
      if !client(|p.calls|, bs[0]) {
        RetryEachCalls(client, Progress(p.calls + [bs[0]], p.stored), bs[0]);
        SingletonsAt(bs[0]);
        var s := Singletons(bs[0]);
        assert forall c :: c in s ==> |c| == 1;
      }
      CallsAreBatchesOrSingles(client, p', bs[1..], size);
    }
  }

  /** When every upsert succeeds, the calls are exactly the batches and every point is stored. */
  lemma AddDocumentsAllAccepted(md5: Md5, client: UpsertClient, docs: seq<Document>, embs: seq<Embedding>, batchSize: int)
    requires AcceptsAll(client)
    requires |docs| > 0 && |embs| > 0 && batchSize > 0
    ensures var pts := BuildPoints(md5, docs, embs);
      AddDocuments(md5, client, docs, embs, batchSize) == Success(Progress(Batches(pts, batchSize), pts))
  {
    var pts := BuildPoints(md5, docs, embs);
    RunBatchesAllAccepted(client, Progress([], []), Batches(pts, batchSize));
    assert [] + Batches(pts, batchSize) == Batches(pts, batchSize) && [] + pts == pts;
  }

  /**
   * With the default batch size of 100 and a client that accepts every call,
   * ingesting makes one upsert per hundred points, rounded up.
   */
  lemma DefaultBatchSizeCalls(md5: Md5, client: UpsertClient, docs: seq<Document>, embs: seq<Embedding>)
    requires AcceptsAll(client)
    requires |docs| > 0 && |embs| > 0
    ensures var r := AddDocuments(md5, client, docs, embs, DefaultBatchSize);
      var n := |BuildPoints(md5, docs, embs)|;
      r.Success? && (|r.value.calls| - 1) * 100 < n <= |r.value.calls| * 100
  {
    AddDocumentsAllAccepted(md5, client, docs, embs, DefaultBatchSize);
    BatchCount(BuildPoints(md5, docs, embs), DefaultBatchSize);
  }

  /** Running the batches from `start` is running the batch `start..end` and then the batches from `end`. */
  lemma BatchSplit(client: UpsertClient, p: Progress, points: seq<Point>, start: nat, end: nat, size: nat)
    requires size > 0 && start < |points|
    requires end == if start + size < |points| then start + size else |points|
    ensures RunBatches(client, p, Batches(points[start..], size))
         == RunBatches(client, RunBatch(client, p, points[start..end]), Batches(points[end..], size))
  {
    BatchesUnfold(points[start..], size);
    assert points[start..][..end - start] == points[start..end];
    assert points[start..][end - start..] == points[end..];
    var bs := Batches(points[start..], size);
    assert bs[0] == points[start..end] && bs[1..] == Batches(points[end..], size);
  }

  /** The per-point retry loop of a failed batch, as the source writes it. */
  method RetryEachLoop(client: UpsertClient, p: Progress, batch: seq<Point>) returns (r: Progress)
    ensures r == RetryEach(client, p, batch)
  {
    r := p;
    var j := 0;
    while j < |batch|
      invariant 0 <= j <= |batch|
      invariant RetryEach(client, r, batch[j..]) == RetryEach(client, p, batch)
    {
      var point := batch[j];
      assert batch[j..][0] == point && batch[j..][1..] == batch[j + 1..];
      if client(|r.calls|, [point]) {
        r := Progress(r.calls + [[point]], r.stored + [point]);
      } else {
        r := Progress(r.calls + [[point]], r.stored);
      }
      j := j + 1;
    }
  }

  /**
   * The batch loop of `add_documents` as the source writes it, stepping
   * through the points `batchSize` at a time: it computes exactly what
   * `AddDocuments` states.
   */
  method AddDocumentsLoop(md5: Md5, client: UpsertClient, docs: seq<Document>, embs: seq<Embedding>, batchSize: int)
    returns (r: Result<Progress, Error>)
    ensures r == AddDocuments(md5, client, docs, embs, batchSize)
  {
    if |docs| == 0 || |embs| == 0 {
      return Success(Progress([], []));
    }
    var points := BuildPoints(md5, docs, embs);
    if batchSize == 0 {
      return Failure(ValueError(ZeroStepMessage));
    }
    if batchSize < 0 {
      return Success(Progress([], []));
    }
    var progress := Progress([], []);
    var start := 0;
    while start < |points|
      invariant 0 <= start <= |points|
      invariant RunBatches(client, progress, Batches(points[start..], batchSize))
             == RunBatches(client, Progress([], []), Batches(points, batchSize))
      decreases |points| - start
    {
      var end := if start + batchSize < |points| then start + batchSize else |points|;
      var batch := points[start..end];
      ghost var before := progress;
      BatchSplit(client, progress, points, start, end, batchSize);
      if client(|progress.calls|, batch) {
        progress := Progress(progress.calls + [batch], progress.stored + batch);
      } else {
        progress := RetryEachLoop(client, Progress(progress.calls + [batch], progress.stored), batch);
      }
      assert progress == RunBatch(client, before, batch);
      start := end;
    }
    assert points[start..] == [];
    return Success(progress);
  }

  // ---------------------------------------------------------------------------
  // The collection on the server, for the idempotence of re-ingestion

  /** The server's points, keyed by point id. */
  type Collection = map<string, Point>

  /** Server-side upsert: insert or overwrite by id, later points winning. */
  function Upsert(c: Collection, pts: seq<Point>): Collection
    decreases |pts|
  {
    if |pts| == 0 then c
    else Upsert(c, pts[..|pts| - 1])[pts[|pts| - 1].id := pts[|pts| - 1]]
  }

  lemma {:induction false} UpsertIsOverride(c: Collection, pts: seq<Point>)
    ensures Upsert(c, pts) == c + Upsert(map[], pts)
    decreases |pts|
  {
    if |pts| > 0 {
      UpsertIsOverride(c, pts[..|pts| - 1]);
    }
  }

  /** Upserting the same points a second time leaves the collection as the first time did. */
  lemma UpsertTwice(c: Collection, pts: seq<Point>)
    ensures Upsert(Upsert(c, pts), pts) == Upsert(c, pts)
  {
    UpsertIsOverride(c, pts);
    UpsertIsOverride(Upsert(c, pts), pts);
    var m := Upsert(map[], pts);
    assert (c + m) + m == c + m;
  }

  /**
   * Upserting the points an ingestion stored a second time leaves the
   * collection, and so `total_documents`, as the first time did.
   */
  lemma AddDocumentsTwiceIdempotent(md5: Md5, client: UpsertClient, docs: seq<Document>, embs: seq<Embedding>,
                                    batchSize: int, c: Collection)
    requires AddDocuments(md5, client, docs, embs, batchSize).Success?
    ensures var p := AddDocuments(md5, client, docs, embs, batchSize).value;
      Upsert(Upsert(c, p.stored), p.stored) == Upsert(c, p.stored)
  {
    UpsertTwice(c, AddDocuments(md5, client, docs, embs, batchSize).value.stored);
  }

  // ---------------------------------------------------------------------------
  // Search

  /** A scored point as the client's `search` returns it. */
  datatype Hit = Hit(payload: map<string, Value>, score: real)

  datatype SearchResult = SearchResult(content: Value, metadata: map<string, Value>, score: real, rank: int)

  /** The client's `search(query_vector, limit)`; `Failure` means it raised. */
  type SearchClient = (Embedding, int) -> Result<seq<Hit>, string>

  /** `payload.get('content', '')` */
  function ContentOf(payload: map<string, Value>): Value {
    if "content" in payload then payload["content"] else Str("")
  }

  /** The formatting loop: client order kept, 1-based ranks, `content` moved out of the metadata. */
  function FormatHits(hits: seq<Hit>, first: int): (rs: seq<SearchResult>)
    ensures |rs| == |hits|
    ensures forall i :: 0 <= i < |hits| ==>
              rs[i] == SearchResult(ContentOf(hits[i].payload), hits[i].payload - {"content"}, hits[i].score, first + i)
    decreases |hits|
  {
    if |hits| == 0 then []
    else
      var h := hits[0];
      [SearchResult(ContentOf(h.payload), h.payload - {"content"}, h.score, first)] + FormatHits(hits[1..], first + 1)
  }

  /** `search`: the formatted hits, or no results at all when the client raises. */
  function Search(client: SearchClient, query: Embedding, topK: int): (rs: seq<SearchResult>)
    ensures client(query, topK).Failure? ==> rs == []
    ensures client(query, topK).Success? ==>
      var hits := client(query, topK).value;
      && |rs| == |hits|
      && forall i :: 0 <= i < |hits| ==>
           && rs[i].rank == i + 1
           && rs[i].score == hits[i].score
           && rs[i].content == ContentOf(hits[i].payload)
           && rs[i].metadata.Keys == hits[i].payload.Keys - {"content"}
           && forall k :: k in rs[i].metadata ==> rs[i].metadata[k] == hits[i].payload[k]
  {
    match client(query, topK)
    case Failure(_) => []
    case Success(hits) => FormatHits(hits, 1)
  }

  predicate NonIncreasingScores(rs: seq<SearchResult>) {
    forall i, j :: 0 <= i < j < |rs| ==> rs[i].score >= rs[j].score
  }

  /**
   * If the client honours `limit` and returns hits best first, `search`
   * returns at most `topK` results, best first.
   */
  lemma SearchBoundedAndOrdered(client: SearchClient, query: Embedding, topK: int)
    requires client(query, topK).Success? ==>
      var hits := client(query, topK).value;
      |hits| <= topK && forall i, j :: 0 <= i < j < |hits| ==> hits[i].score >= hits[j].score
    ensures |Search(client, query, topK)| <= (if topK < 0 then 0 else topK)
    ensures NonIncreasingScores(Search(client, query, topK))
  {
  }

  /**
   * A point built from a document comes back out of `search` with the
   * document's content, and with metadata that is its sanitised metadata
   * without `content` plus `original_id`.
   */
  lemma SearchReturnsStoredDocument(doc: Document, score: real, rank: int)
    ensures var r := FormatHits([Hit(Payload(doc), score)], rank)[0];
      && r.content == Str(doc.content)
      && r.metadata == (Clean(doc.metadata) - {"content"})["original_id" := Str(doc.id)]
      && r.rank == rank
  {
    var p := Payload(doc);
    var r := FormatHits([Hit(p, score)], rank)[0];
    assert r.metadata == p - {"content"};
    var expected := (Clean(doc.metadata) - {"content"})["original_id" := Str(doc.id)];
    assert r.metadata.Keys == expected.Keys;
    forall k | k in expected ensures r.metadata[k] == expected[k] {
    }
  }

  // ---------------------------------------------------------------------------
  // Stats, existence and deletion

  /** What `get_collection` reports. */
  datatype CollectionInfo = CollectionInfo(pointsCount: int, vectorSize: int, distance: string)

  datatype Stats = Stats(totalDocuments: int, collectionName: string, vectorSize: Option<int>, distanceMetric: Option<string>)

  /** `get_stats`: the client's figures, or zero documents when it raises; it never raises itself. */
  function GetStats(name: string, info: Result<CollectionInfo, string>): (s: Stats)
    ensures s.collectionName == name
    ensures info.Failure? <==> s.vectorSize.None?
    ensures info.Failure? ==> s == Stats(0, name, None, None)
    ensures info.Success? ==>
      && s.totalDocuments == info.value.pointsCount
      && s.vectorSize == Some(info.value.vectorSize)
      && s.distanceMetric == Some(info.value.distance)
  {
    match info
    case Failure(_) => Stats(0, name, None, None)
    case Success(ci) => Stats(ci.pointsCount, name, Some(ci.vectorSize), Some(ci.distance))
  }

  /** What `get_collection` reports for a server collection holding the points `c`. */
  function Reported(c: Collection, vectorSize: int, distance: string): CollectionInfo {
    CollectionInfo(|c|, vectorSize, distance)
  }

  /** Re-ingesting what an ingestion stored does not change the reported `total_documents`. */
  lemma ReingestKeepsTotalDocuments(md5: Md5, client: UpsertClient, docs: seq<Document>, embs: seq<Embedding>,
                                    batchSize: int, c: Collection, name: string, vectorSize: int, distance: string)
    requires AddDocuments(md5, client, docs, embs, batchSize).Success?
    ensures var s := AddDocuments(md5, client, docs, embs, batchSize).value.stored;
      GetStats(name, Success(Reported(Upsert(Upsert(c, s), s), vectorSize, distance))).totalDocuments == |Upsert(c, s)|
  {
    UpsertTwice(c, AddDocuments(md5, client, docs, embs, batchSize).value.stored);
  }

  /**
   * A failing `get_collection` reports zero documents, the same figure as an
   * empty collection; only the missing vector size and distance tell them apart.
   */
  lemma StatsErrorLooksEmpty(name: string, e: string, vectorSize: int, distance: string)
    ensures GetStats(name, Failure(e)).totalDocuments
         == GetStats(name, Success(Reported(map[], vectorSize, distance))).totalDocuments
    ensures GetStats(name, Failure(e)) != GetStats(name, Success(Reported(map[], vectorSize, distance)))
  {
  }

  /** `collection_exists`: true exactly when the listing succeeds and names the collection. */
  function CollectionExists(name: string, listing: Result<seq<string>, string>): (b: bool)
    ensures b <==> listing.Success? && name in listing.value
  {
    match listing
    case Failure(_) => false
    case Success(names) => name in names
  }

  /** `delete_collection`: the one call whose client failure is re-raised. */
  function DeleteCollection(name: string, response: Outcome<string>): (r: Outcome<Error>)
    ensures r.Fail? <==> response.Fail?
    ensures response.Fail? ==> r.error == ClientError(response.error)
  {
    match response
    case Pass => Pass
    case Fail(e) => Fail(ClientError(e))
  }

  /**
   * Of the three calls on an opened store, only deletion lets a client failure
   * reach the caller: the same failure makes statistics report an empty
   * collection and existence report `false`.
   */
  lemma OnlyDeletionRaises(name: string, e: string)
    ensures DeleteCollection(name, Fail(e)) == Fail(ClientError(e))
    ensures GetStats(name, Failure(e)) == Stats(0, name, None, None)
    ensures !CollectionExists(name, Failure(e))
  {
  }
}
