/**
 * The decision logic of the messaging front end (`OptimizedSMSHandler`):
 * canned quick replies, outbound truncation, and the branches of the
 * incoming-message handler. The bounded RAG call is an input whose outcome
 * is a result, a timeout (`None`) or a raised exception.
 */
module SmsHandler {
  import opened Wrappers
  import Text
  import QueryCache

  const HelloReply := "Hi! I'm the ASU assistant. Ask me anything about Arizona State University!"
  const HiReply := "Hello! I can help you with questions about ASU. What would you like to know?"
  const HelpReply := "I can answer questions about ASU academics, campus life, admissions, and more. Just ask!"
  const AsuReply := "Arizona State University (ASU) is a public research university in Arizona, known for innovation and academic excellence."
  const ThanksReply := "You're welcome! Feel free to ask more questions about ASU anytime."
  const ThankYouReply := "You're welcome! Happy to help with ASU information."

  /** The quick-reply table in the order the dictionary literal lists it; the order decides ties. */
  const QuickReplies: seq<(string, string)> := [
    ("hello", HelloReply),
    ("hi", HiReply),
    ("help", HelpReply),
    ("what is asu", AsuReply),
    ("thanks", ThanksReply),
    ("thank you", ThankYouReply)
  ]

  const EmptyMessageReply := "Please send a message with your question about ASU."
  const BusyReply := "I'm processing a lot of requests right now. Please try asking a more specific question or try again in a moment."
  const NoAnswerReply := "Sorry, I could not find relevant information."
  const TechnicalDifficultiesReply := "I'm experiencing technical difficulties. Please try again in a few minutes or contact ASU directly for immediate assistance."

  /** WhatsApp's limit on one outbound message. */
  const MaxMessageLength := 1600
  const TruncationMarker := "... (truncated for length)"

  /** The `top_k` the handler asks the RAG system for. */
  const HandlerTopK := 3

  /** Entry `i` is the first one of `table` whose key occurs in `text`. */
  ghost predicate FirstMatchAt(table: seq<(string, string)>, text: string, i: int) {
    && 0 <= i < |table|
    && Text.Contains(table[i].0, text)
    && forall j :: 0 <= j < i ==> !Text.Contains(table[j].0, text)
  }

  /** The reply of the first entry whose key is a substring of `text`. */
  function FirstMatch(table: seq<(string, string)>, text: string): (r: Option<string>)
    ensures r.None? <==> forall i :: 0 <= i < |table| ==> !Text.Contains(table[i].0, text)
    ensures r.Some? ==> exists i :: FirstMatchAt(table, text, i) && r.value == table[i].1
  {
    if |table| == 0 then None
    else if Text.Contains(table[0].0, text) then
      assert FirstMatchAt(table, text, 0);
      Some(table[0].1)
    else
      var r := FirstMatch(table[1..], text);
      assert forall i :: 1 <= i < |table| ==> table[i] == table[1..][i - 1];
      assert forall i :: FirstMatchAt(table[1..], text, i) ==> FirstMatchAt(table, text, i + 1);
      r
  }

  /**
   * `_get_quick_response`: the reply of the first key, in table order, that
   * occurs in the lower-cased, stripped question; `None` exactly when no key occurs.
   */
  function QuickResponse(question: string): (r: Option<string>)
    ensures var text := Text.Normalize(question);
      && (r.None? <==> forall i :: 0 <= i < |QuickReplies| ==> !Text.Contains(QuickReplies[i].0, text))
      && (r.Some? ==> exists i :: FirstMatchAt(QuickReplies, text, i) && r.value == QuickReplies[i].1)
  {
    FirstMatch(QuickReplies, Text.Normalize(question))
  }

  /** A message containing "hello" in any case gets the greeting, whatever else it says. */
  lemma HelloPrecedence(message: string)
    requires Text.Contains("hello", Text.Lower(message))
    ensures QuickResponse(message) == Some(HelloReply)
  {
    Text.ContainsSurvivesStrip("hello", Text.Lower(message));
  }

  /**
   * Keys are matched as substrings, not words: a question with "which" in it
   * gets the "hi" greeting instead of an answer.
   */
  lemma HiMatchesInsideWords(message: string)
    requires Text.Contains("hi", Text.Lower(message)) && !Text.Contains("hello", Text.Normalize(message))
    ensures QuickResponse(message) == Some(HiReply)
  {
    var text := Text.Normalize(message);
    Text.ContainsSurvivesStrip("hi", Text.Lower(message));
    assert QuickReplies[1].0 == "hi";
    assert QuickResponse(message).Some?;
    var i :| FirstMatchAt(QuickReplies, text, i) && QuickResponse(message).value == QuickReplies[i].1;
    assert i == 1;
  }

  /**
   * `_send_response`'s length limit: short messages go out unchanged, longer
   * ones are cut to 1600 characters and marked.
   */
  function Truncate(message: string): (r: string)
    ensures |message| <= MaxMessageLength ==> r == message
    ensures |message| > MaxMessageLength ==>
      |r| == MaxMessageLength + |TruncationMarker| &&
      r[..MaxMessageLength] == message[..MaxMessageLength] && r[MaxMessageLength..] == TruncationMarker
    ensures |r| <= MaxMessageLength + |TruncationMarker|
    ensures |r| <= MaxMessageLength <==> |message| <= MaxMessageLength
  {
    if |message| > MaxMessageLength then message[..MaxMessageLength] + TruncationMarker else message
  }

  /** Every message the handler sends is a prefix of the intended text, marked when cut. */
  lemma TruncateKeepsPrefix(message: string)
    ensures var r := Truncate(message);
      var n := if |message| < MaxMessageLength then |message| else MaxMessageLength;
      r[..n] == message[..n] && (r == message || r == message[..n] + TruncationMarker)
  {
  }

  /** The canned replies are short enough to go out uncut. */
  lemma FixedRepliesFit()
    ensures forall i :: 0 <= i < |QuickReplies| ==> |QuickReplies[i].1| <= MaxMessageLength
    ensures |EmptyMessageReply| <= MaxMessageLength && |BusyReply| <= MaxMessageLength
    ensures |TechnicalDifficultiesReply| <= MaxMessageLength
  {
  }

  /** The outcome of `_execute_with_timeout(rag_system.query, body, top_k=3)`. */
  datatype RagOutcome =
    | TimedOut                                   // the call returned None
    | Returned(result: QueryCache.PipelineResult)
    | Raised(message: string)                    // any other exception

  type RagSystem = (string, int) -> RagOutcome

  /** The reply text and the question handed to the RAG system, if it was called. */
  datatype Response = Response(message: string, queried: Option<string>)

  /** `request.form.get('Body', '')` */
  function RawBody(form: map<string, string>): string {
    if "Body" in form then form["Body"] else ""
  }

  /** The message body, stripped. */
  function MessageBody(form: map<string, string>): string {
    Text.Strip(RawBody(form))
  }

  /**
   * `handle_incoming_whatsapp`: an empty body and a quick reply are answered
   * without the RAG system; otherwise the stripped body is queried with
   * `top_k = 3` and a timeout, an answer (or its default) or an exception
   * decides the reply. Every reply goes through the length limit.
   */
  function HandleIncoming(form: map<string, string>, rag: RagSystem): (r: Response)
    ensures r.queried.Some? <==> MessageBody(form) != "" && QuickResponse(MessageBody(form)).None?
    ensures r.queried.Some? ==> r.queried.value == MessageBody(form)
    ensures Text.AllSpace(RawBody(form)) ==> r.message == EmptyMessageReply
    ensures MessageBody(form) != "" && QuickResponse(MessageBody(form)).Some? ==>
      r.message == QuickResponse(MessageBody(form)).value
    ensures r.queried.Some? && rag(r.queried.value, HandlerTopK).TimedOut? ==> r.message == BusyReply
    ensures r.queried.Some? && rag(r.queried.value, HandlerTopK).Returned? ==>
      r.message == Truncate(rag(r.queried.value, HandlerTopK).result.answer.GetOr(NoAnswerReply))
    ensures r.queried.Some? && rag(r.queried.value, HandlerTopK).Raised? ==> r.message == TechnicalDifficultiesReply
  {
    FixedRepliesFit();
    Text.StripEmptyIffAllSpace(RawBody(form));
    var body := MessageBody(form);
    if body == "" then Response(Truncate(EmptyMessageReply), None)
    else
      match QuickResponse(body)
      case Some(reply) => Response(Truncate(reply), None)
      case None =>
        var text :=
          match rag(body, HandlerTopK)
          case TimedOut => BusyReply
          case Returned(result) => result.answer.GetOr(NoAnswerReply)
          case Raised(_) => TechnicalDifficultiesReply;
        Response(Truncate(text), Some(body))
  }

  /** The handler's reply never exceeds the limit plus the marker. */
  lemma ReplyIsBounded(form: map<string, string>, rag: RagSystem)
    ensures |HandleIncoming(form, rag).message| <= MaxMessageLength + |TruncationMarker|
  {
  }

  /** A greeting is answered from the table without calling the RAG system. */
  lemma GreetingSkipsRag(form: map<string, string>, rag: RagSystem)
    requires "Body" in form && Text.Contains("hello", Text.Lower(form["Body"]))
    ensures HandleIncoming(form, rag) == Response(HelloReply, None)
  {
    var raw := form["Body"];
    var body := MessageBody(form);
    Text.LowerStripCommute(raw);
    Text.ContainsSurvivesStrip("hello", Text.Lower(raw));
    HelloPrecedence(body);
  }
}
