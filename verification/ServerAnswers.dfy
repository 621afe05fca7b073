/** What the server makes of one request, from its bytes to the answer and to what happens then. */
module ServerAnswers {
  import opened Wrappers
  import opened HeaderFields
  import opened HttpMessages
  import opened Lines
  import opened RequestParser
  import opened Server
  import opened WrittenRequests

  /** The response object that a servlet gets. */
  predicate Offered(response: HttpResponse, request: HttpRequest, settings: Settings) {
    && response.status == 200 && response.version == request.version && !response.websocket
    && response.close == (request.close || !settings.keepAlive)
    && response.reason == "" && response.body == "" && response.cookies == []
    && response.headers == [Field("Server", settings.name)]
  }

  /** The answer of a servlet: what it leaves, or the error text if it threw; without a body for HEAD; and
      closing if the servlet, the request or the settings say so. */
  predicate Answers(answer: HttpResponse, request: HttpRequest, settings: Settings, servlet: Servlet,
                    offered: HttpResponse) {
    var (left, threw) := servlet(request, offered);
    && answer.status == (if threw then 500 else left.status)
    && answer.version == left.version && answer.headers == left.headers && answer.cookies == left.cookies
    && answer.reason == left.reason && answer.websocket == left.websocket
    && answer.body == (if request.verb == HEAD then "" else if threw then "Internal Server Error" else left.body)
    && (answer.close <==> left.close || request.close || !settings.keepAlive)
  }

  lemma AnswerIs(request: HttpRequest, settings: Settings)
    requires settings.dispatch.Some?
    ensures exists offered :: Offered(offered, request, settings) &&
              Answers(Answer(request, settings), request, settings, settings.dispatch.value, offered)
  {
    var offered := CreateResponse(request, settings);
    assert Put([], "Server", settings.name) == [Field("Server", settings.name)];
    assert Offered(offered, request, settings);
  }

  /** Without a servlet there is an error to tell. */
  lemma NoServlet(request: HttpRequest, settings: Settings)
    requires settings.dispatch.None?
    ensures var answer := Answer(request, settings);
            && answer.status == 500 && answer.version == request.version
            && answer.body == (if request.verb == HEAD then "" else "No servlet dispatcher is configured")
            && (answer.close <==> request.close || !settings.keepAlive)
  {
  }

  lemma WholeLength(body: string, after: string)
    ensures (body + after)[..|body|] == body && (body + after)[|body|..] == after
  {
  }

  /** For every written request with its body, and whatever comes after it: the first answer is the
      servlet's to a request with exactly these parts, and the next ones are those to what comes after,
      unless the first one closes. */
  lemma FirstAnswer(
      verb: Method, target: Target, version: nat, fields: seq<Field>, body: string, after: string, settings: Settings)
    requires WellFormed(target, version, fields) && FirstRefusal(fields, 0) == None
    requires |body| == (match AnnouncedLength(fields) case Some(n) => n case None => 0) && |body| <= MAX_BODY
    requires |LinesText(WrittenLines(verb, target, version, fields))| + 2 <= MAX_HEADER
    requires settings.dispatch.Some?
    ensures var exchanges := Exchanges(Written(verb, target, version, fields, body + after), settings);
            && exchanges != [] && exchanges[0].verb == verb
            && (exists request, offered ::
                  && Means(request, verb, target, version, fields, body)
                  && Offered(offered, request, settings)
                  && Answers(exchanges[0].response, request, settings, settings.dispatch.value, offered))
            && exchanges[1..] == if exchanges[0].response.close then [] else Exchanges(after, settings)
  {
    hide ParseRequest, Answer, Exchanges, Means, WellFormed, FirstRefusal, AnnouncedLength, LinesText, WrittenLines,
      Offered, Answers;
    var stream := Written(verb, target, version, fields, body + after);
    WrittenRequestRead(verb, target, version, fields, body + after);
    WholeLength(body, after);
    ExchangesStep(stream, settings);
    var request := ParseRequest(stream).request;
    RequestIs(request, verb, target, version, fields, body);
    AnswerIs(request, settings);
    RestBehind(verb, target, version, fields, body, after);
  }

  lemma RequestIs(request: HttpRequest, verb: Method, target: Target, version: nat, fields: seq<Field>, body: string)
    requires Means(request, verb, target, version, fields, body)
    ensures request.verb == verb
  {
  }

  lemma RestBehind(
      verb: Method, target: Target, version: nat, fields: seq<Field>, body: string, after: string)
    ensures var stream := Written(verb, target, version, fields, body + after);
            var size := |LinesText(WrittenLines(verb, target, version, fields))| + 2 + |body|;
            size <= |stream| && stream[size..] == after
  {
    hide LinesText, WrittenLines;
  }
}
