/**
 * The handler and the cached RAG system put together, with the 15-second
 * alarm the handler arms around `rag_system.query`. The alarm is abstracted
 * to whether it expires while the base pipeline is running.
 *
 * As written, the alarm's `TimeoutException` is an ordinary `Exception`
 * raised inside the base pipeline. Either it propagates out of the pipeline
 * and the cached system's own `except Exception` turns it into the apology
 * result, or a pipeline stage catches it first (the answer generator returns
 * "Error generating answer: Query timeout") and the pipeline returns a
 * result, which is then cached. Either way the handler's timeout branch is
 * never reached. `BoundedQueryAsWritten` models that; `BoundedQuery` lets
 * the timeout reach the handler, as the handler's `result is None` branch
 * and its busy reply evidently intend.
 */
module Serving {
  import opened Wrappers
  import opened Digests
  import QueryCache
  import SmsHandler

  /**
   * Whether the alarm fires while the base pipeline runs, and if it does, how
   * the pipeline then ends: `Raised` when the `TimeoutException` propagates
   * out of it, `Answered` when a stage catches it and returns normally.
   */
  datatype Deadline = InTime | ExpiresDuringBase(overrun: QueryCache.BaseOutcome)

  /** The message `timeout_handler` raises with. */
  const TimeoutMessage := "Query timeout"

  /** The answer the answer generator returns when it catches the alarm's exception. */
  const GeneratorTimeoutAnswer := "Error generating answer: " + TimeoutMessage

  /** The base pipeline as the alarm lets it behave: once the alarm fires, it ends as `overrun` says. */
  function TimedBase(base: QueryCache.BaseSystem, deadline: Deadline): QueryCache.BaseSystem {
    (q: string, k: int) => if deadline.ExpiresDuringBase? then deadline.overrun else base(q, k)
  }

  predicate IsHit(c: QueryCache.Cache, md5: Md5, question: string, now: int) {
    var key := QueryCache.CacheKey(md5, question);
    key in c.entries && QueryCache.IsValid(c.entries[key], now, c.ttl)
  }

  /** The outcome the handler sees and the cache afterwards. */
  datatype Bounded = Bounded(outcome: SmsHandler.RagOutcome, cache: QueryCache.Cache)

  /**
   * `_execute_with_timeout(rag_system.query, ...)` as written: the timeout is
   * swallowed by `query` or inside the pipeline, so the handler always
   * receives a result. A propagated timeout gives the uncached apology; a
   * timeout a stage caught gives that stage's result, cached like any other.
   */
  function BoundedQueryAsWritten(c: QueryCache.Cache, md5: Md5, base: QueryCache.BaseSystem, deadline: Deadline,
                                 question: string, topK: int, now: int, storedAt: int): (r: Bounded)
    ensures r.outcome.Returned?
    ensures !IsHit(c, md5, question, now) && deadline.ExpiresDuringBase? && deadline.overrun.Raised? ==>
      r.outcome.result == QueryCache.Apology(question) && r.cache.entries == QueryCache.Pruned(c, now)
    ensures !IsHit(c, md5, question, now) && deadline.ExpiresDuringBase? && deadline.overrun.Answered? ==>
      && r.outcome.result == deadline.overrun.result
      && r.cache.entries == QueryCache.Pruned(c, now)[QueryCache.CacheKey(md5, question) :=
                                                        QueryCache.Entry(deadline.overrun.result, storedAt)]
  {
    var s := QueryCache.Query(c, md5, TimedBase(base, deadline), question, topK, now, storedAt);
    Bounded(SmsHandler.Returned(s.result), s.cache)
  }

  /**
   * The intended bounded query: a cache hit answers at once; on a miss an
   * alarm during the base pipeline reaches the handler as a timeout, after
   * the size-triggered cleanup and with nothing cached. With the exception
   * outside `Exception`, no `except Exception` in the pipeline catches it,
   * so how the pipeline would have ended does not matter.
   */
  function BoundedQuery(c: QueryCache.Cache, md5: Md5, base: QueryCache.BaseSystem, deadline: Deadline,
                        question: string, topK: int, now: int, storedAt: int): (r: Bounded)
    ensures r.outcome.TimedOut? <==> !IsHit(c, md5, question, now) && deadline.ExpiresDuringBase?
    ensures r.outcome.TimedOut? ==> r.cache == c.(entries := QueryCache.Pruned(c, now))
    ensures !r.outcome.TimedOut? ==>
      var s := QueryCache.Query(c, md5, base, question, topK, now, storedAt);
      r == Bounded(SmsHandler.Returned(s.result), s.cache)
  {
    if !IsHit(c, md5, question, now) && deadline.ExpiresDuringBase? then
      Bounded(SmsHandler.TimedOut, c.(entries := QueryCache.Pruned(c, now)))
    else
      var s := QueryCache.Query(c, md5, base, question, topK, now, storedAt);
      Bounded(SmsHandler.Returned(s.result), s.cache)
  }

  /** The reply and the cache after one incoming message. */
  datatype Served = Served(reply: SmsHandler.Response, cache: QueryCache.Cache)

  /** A message the handler passes on to the RAG system. */
  predicate NeedsRag(form: map<string, string>) {
    var body := SmsHandler.MessageBody(form);
    body != "" && SmsHandler.QuickResponse(body).None?
  }

  function Respond(form: map<string, string>, b: Bounded): Served {
    Served(SmsHandler.HandleIncoming(form, (q: string, k: int) => b.outcome), b.cache)
  }

  /** One message through the deployed composition. */
  function ServeAsWritten(c: QueryCache.Cache, md5: Md5, base: QueryCache.BaseSystem, deadline: Deadline,
                          form: map<string, string>, now: int, storedAt: int): (r: Served)
    ensures !NeedsRag(form) ==> r.cache == c && r.reply.queried.None?
    ensures NeedsRag(form) ==> r.reply.queried == Some(SmsHandler.MessageBody(form))
  {
    var body := SmsHandler.MessageBody(form);
    if NeedsRag(form) then
      Respond(form, BoundedQueryAsWritten(c, md5, base, deadline, body, SmsHandler.HandlerTopK, now, storedAt))
    else
      Served(SmsHandler.HandleIncoming(form, (q: string, k: int) => SmsHandler.TimedOut), c)
  }

  /** One message through the composition with the timeout reaching the handler. */
  function Serve(c: QueryCache.Cache, md5: Md5, base: QueryCache.BaseSystem, deadline: Deadline,
                 form: map<string, string>, now: int, storedAt: int): (r: Served)
    ensures !NeedsRag(form) ==> r.cache == c && r.reply.queried.None?
    ensures NeedsRag(form) ==> r.reply.queried == Some(SmsHandler.MessageBody(form))
  {
    var body := SmsHandler.MessageBody(form);
    if NeedsRag(form) then
      Respond(form, BoundedQuery(c, md5, base, deadline, body, SmsHandler.HandlerTopK, now, storedAt))
    else
      Served(SmsHandler.HandleIncoming(form, (q: string, k: int) => SmsHandler.TimedOut), c)
  }

  /**
   * As written, a query whose pipeline lets the alarm's exception out is
   * answered with the cached system's apology, never with the handler's busy
   * reply, and nothing is cached.
   */
  lemma TimeoutAnsweredWithApology(c: QueryCache.Cache, md5: Md5, base: QueryCache.BaseSystem, message: string,
                                   form: map<string, string>, now: int, storedAt: int)
    requires NeedsRag(form) && !IsHit(c, md5, SmsHandler.MessageBody(form), now)
    ensures var r := ServeAsWritten(c, md5, base, ExpiresDuringBase(QueryCache.Raised(message)), form, now, storedAt);
      && r.reply.message == QueryCache.ApologyAnswer
      && r.reply.message != SmsHandler.BusyReply
      && r.cache.entries == QueryCache.Pruned(c, now)
  {
  }

  /**
   * As written, when a pipeline stage catches the alarm's exception and
   * returns `result`, that result is the reply, it is cached, and the same
   * message within the TTL gets the same reply from the cache whatever its
   * own deadline. With the answer generator's text, the reply is
   * "Error generating answer: Query timeout".
   */
  lemma SwallowedTimeoutIsCached(c: QueryCache.Cache, md5: Md5, base: QueryCache.BaseSystem,
                                 result: QueryCache.PipelineResult, form: map<string, string>, now: int, storedAt: int,
                                 base': QueryCache.BaseSystem, deadline': Deadline, later: int, storedAt': int)
    requires NeedsRag(form) && !IsHit(c, md5, SmsHandler.MessageBody(form), now)
    requires later - storedAt < c.ttl
    ensures var first := ServeAsWritten(c, md5, base, ExpiresDuringBase(QueryCache.Answered(result)), form, now, storedAt);
      && first.reply.message == SmsHandler.Truncate(result.answer.GetOr(SmsHandler.NoAnswerReply))
      && first.cache.entries[QueryCache.CacheKey(md5, SmsHandler.MessageBody(form))] == QueryCache.Entry(result, storedAt)
      && ServeAsWritten(first.cache, md5, base', deadline', form, later, storedAt') == first
    ensures result.answer == Some(GeneratorTimeoutAnswer) ==>
      ServeAsWritten(c, md5, base, ExpiresDuringBase(QueryCache.Answered(result)), form, now, storedAt).reply.message
      == GeneratorTimeoutAnswer
  {
    var body := SmsHandler.MessageBody(form);
    var deadline := ExpiresDuringBase(QueryCache.Answered(result));
    var timed := TimedBase(base, deadline);
    var s := QueryCache.Query(c, md5, timed, body, SmsHandler.HandlerTopK, now, storedAt);
    QueryCache.RepeatWithinTtlHits(c, md5, timed, body, body, SmsHandler.HandlerTopK, SmsHandler.HandlerTopK,
                                   now, storedAt, later, TimedBase(base', deadline'), storedAt');
    assert |GeneratorTimeoutAnswer| <= SmsHandler.MaxMessageLength;
  }

  /** As written, the handler's timeout branch is unreachable: no deadline makes the RAG call time out. */
  lemma BusyBranchUnreachable(c: QueryCache.Cache, md5: Md5, base: QueryCache.BaseSystem, deadline: Deadline,
                              question: string, topK: int, now: int, storedAt: int)
    ensures !BoundedQueryAsWritten(c, md5, base, deadline, question, topK, now, storedAt).outcome.TimedOut?
  {
  }

  /** With the timeout reaching the handler, an overrun gets the busy reply and caches nothing. */
  lemma TimeoutAnsweredBusy(c: QueryCache.Cache, md5: Md5, base: QueryCache.BaseSystem, overrun: QueryCache.BaseOutcome,
                            form: map<string, string>, now: int, storedAt: int)
    requires NeedsRag(form) && !IsHit(c, md5, SmsHandler.MessageBody(form), now)
    ensures var r := Serve(c, md5, base, ExpiresDuringBase(overrun), form, now, storedAt);
      && r.reply.message == SmsHandler.BusyReply
      && r.cache.entries == QueryCache.Pruned(c, now)
  {
  }

  /** The two compositions differ only when the alarm fires: in time, they agree. */
  lemma InTimeAgrees(c: QueryCache.Cache, md5: Md5, base: QueryCache.BaseSystem,
                     form: map<string, string>, now: int, storedAt: int)
    ensures Serve(c, md5, base, InTime, form, now, storedAt) == ServeAsWritten(c, md5, base, InTime, form, now, storedAt)
  {
  }

  /** A cache hit is answered before the alarm can matter, under either composition. */
  lemma HitIgnoresDeadline(c: QueryCache.Cache, md5: Md5, base: QueryCache.BaseSystem, deadline: Deadline,
                           form: map<string, string>, now: int, storedAt: int)
    requires IsHit(c, md5, SmsHandler.MessageBody(form), now)
    ensures Serve(c, md5, base, deadline, form, now, storedAt) == Serve(c, md5, base, InTime, form, now, storedAt)
    ensures ServeAsWritten(c, md5, base, deadline, form, now, storedAt) == Serve(c, md5, base, InTime, form, now, storedAt)
  {
  }
}
