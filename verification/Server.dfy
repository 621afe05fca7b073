/** `HttpServer::handleClient`: the keep-alive loop of one connection. */
module Server {
  import opened Wrappers
  import opened HeaderFields
  import opened HttpMessages
  import opened ResponsePrinter
  import opened ResponseRoundTrip
  import opened Session
  import RequestParser

  /** The user's code: the response object as the servlet leaves it, and whether it threw. */
  type Servlet = (HttpRequest, HttpResponse) -> (HttpResponse, bool)

  datatype Settings = Settings(name: string, keepAlive: bool, dispatch: Option<Servlet>, phrases: Phrases)

  function CreateResponse(request: HttpRequest, settings: Settings): HttpResponse {
    HttpResponse(200, request.version, request.close || !settings.keepAlive, false, "", "",
                 Put([], "Server", settings.name), [])
  }

  function Handled(request: HttpRequest, settings: Settings): HttpResponse {
    var response := CreateResponse(request, settings);
    if settings.dispatch.None? then response.(status := 500, body := "No servlet dispatcher is configured")
    else
      var (left, threw) := settings.dispatch.value(request, response);
      if threw then left.(status := 500, body := "Internal Server Error") else left
  }

  /** What is sent for a request. */
  function Answer(request: HttpRequest, settings: Settings): HttpResponse {
    var handled := Handled(request, settings);
    handled.(close := handled.close || request.close || !settings.keepAlive,
             body := if request.verb == HEAD then "" else handled.body)
  }

  /** The exchanges a stream of requests calls for, up to the first that closes. */
  function Exchanges(stream: string, settings: Settings): seq<Exchange>
    decreases |stream|
  {
    match RequestParser.ParseRequest(stream)
    case Finished(request, n) =>
      var response := Answer(request, settings);
      [Exchange(request.verb, response)] + (if response.close then [] else Exchanges(stream[n..], settings))
    case _ => []
  }

  /** HttpSession::sendResponse, as far as the peer lets it: all bytes, or some and then an error. */
  datatype Sending = Complete | Partial(bytes: nat)

  function Sent(text: string, sending: Sending): string {
    if sending.Complete? then text else text[..if sending.bytes < |text| then sending.bytes else |text|]
  }

  /** The first `answered` answers went out whole; if the connection broke, part of the next one. */
  predicate Carried(all: seq<Exchange>, answered: nat, broken: bool, sent: string, phrases: Phrases) {
    && answered <= |all|
    && (if broken then
          answered < |all| && DumpAll(all[..answered], phrases) <= sent <= DumpAll(all[..answered + 1], phrases)
        else sent == DumpAll(all[..answered], phrases))
  }

  /** The part of a round before the response is sent. */
  method AnswerNext(session: HttpSession, settings: Settings, ghost all: seq<Exchange>, ghost answered: nat)
    returns (response: Option<HttpResponse>)
    requires session.Valid() && session.open
    requires answered <= |all| && all[answered..] == Exchanges(session.Stream(), settings)
    modifies session, session.inputBuffer
    ensures session.Valid() && (session.inputBuffer == old(session.inputBuffer) || fresh(session.inputBuffer))
    ensures response.None? ==> answered == |all| && !session.open
    ensures response.Some? ==>
              && answered < |all| && all[answered].response == response.value && session.open
              && |session.Stream()| < |old(session.Stream())|
              && (if response.value.close then answered + 1 == |all|
                  else all[answered + 1..] == Exchanges(session.Stream(), settings))
  {
    hide RequestParser.ParseRequest, Answer, Exchanges, Flatten;
    ghost var before := session.Stream();
    ExchangesStep(before, settings);
    var request := session.RecvRequest();
    if request.None? {
      return None;
    }
    response := Some(Answer(request.value, settings));
    TailOf(all, answered);
  }

  lemma TailOf(all: seq<Exchange>, k: nat)
    requires k < |all|
    ensures all[k..][0] == all[k] && all[k..][1..] == all[k + 1..]
  {
  }

  /** The connection in one run of the loop: the answers go out in order, each whole, except that the
      last one may be cut off where the peer stopped taking bytes; and the loop ends with the first
      response that closes. */
  method HandleClient(session: HttpSession, settings: Settings, sendings: seq<Sending>, ghost all: seq<Exchange>)
    returns (sent: string, ghost answered: nat, ghost broken: bool)
    requires session.Valid() && session.open && all == Exchanges(session.Stream(), settings)
    modifies session, session.inputBuffer
    ensures !session.open && Carried(all, answered, broken, sent, settings.phrases)
    ensures !broken ==> answered == |all|
    ensures (forall i :: 0 <= i < |sendings| ==> sendings[i].Complete?) && |sendings| >= |all| ==> !broken
  {
    sent, answered, broken := "", 0, false;
    hide RequestParser.ParseRequest, Answer, DumpText, DumpAll, Exchanges, Flatten, Sent, Carried;
    hide HttpSession.Stream;
    CarriedNone(all, settings.phrases);
    assert all[0..] == all;
    var calls := 0;
    while true
      invariant session.Valid() && session.open && answered == calls <= |all|
      invariant session.inputBuffer == old(session.inputBuffer) || fresh(session.inputBuffer)
      invariant Carried(all, answered, false, sent, settings.phrases)
      invariant all[answered..] == Exchanges(session.Stream(), settings)
      decreases |session.Stream()|
    {
      var response := AnswerNext(session, settings, all, answered);
      if response.None? {
        return;
      }
      var text := DumpText(response.value, settings.phrases);
      var sending := if calls < |sendings| then sendings[calls] else Partial(0);
      CarriedMore(all, answered, sent, sending, settings.phrases);
      sent := sent + Sent(text, sending);
      if sending.Partial? {
        broken, session.open := true, false;
        return;
      }
      calls, answered := calls + 1, answered + 1;
      if response.value.close {
        session.open := false;
        return;
      }
    }
  }

  lemma DumpNone(exchanges: seq<Exchange>, phrases: Phrases)
    ensures DumpAll(exchanges[..0], phrases) == "" && exchanges[0..] == exchanges
  {
  }

  lemma CarriedNone(all: seq<Exchange>, phrases: Phrases)
    ensures Carried(all, 0, false, "", phrases)
  {
    DumpNone(all, phrases);
  }

  lemma CarriedMore(all: seq<Exchange>, answered: nat, sent: string, sending: Sending, phrases: Phrases)
    requires answered < |all| && Carried(all, answered, false, sent, phrases)
    ensures var more := sent + Sent(DumpText(all[answered].response, phrases), sending);
            if sending.Complete? then Carried(all, answered + 1, false, more, phrases)
            else Carried(all, answered, true, more, phrases)
  {
    hide DumpAll, DumpText, Sent;
    DumpMore(all, answered, phrases);
    SentPrefix(sent, DumpText(all[answered].response, phrases), sending);
  }

  lemma SentPrefix(before: string, text: string, sending: Sending)
    ensures before <= before + Sent(text, sending) <= before + text
    ensures sending.Complete? ==> Sent(text, sending) == text
  {
  }

  lemma ExchangesStep(stream: string, settings: Settings)
    ensures var o := RequestParser.ParseRequest(stream);
            && (!o.Finished? ==> Exchanges(stream, settings) == [])
            && (o.Finished? ==>
                  var response := Answer(o.request, settings);
                  && |Exchanges(stream, settings)| > 0
                  && Exchanges(stream, settings)[0] == Exchange(o.request.verb, response)
                  && Exchanges(stream, settings)[1..] ==
                       if response.close then [] else Exchanges(stream[o.consumed..], settings))
  {
    hide Answer, RequestParser.ParseRequest;
  }

  lemma DumpMore(exchanges: seq<Exchange>, k: nat, phrases: Phrases)
    requires k < |exchanges|
    ensures DumpAll(exchanges[..k + 1], phrases) ==
              DumpAll(exchanges[..k], phrases) + DumpText(exchanges[k].response, phrases)
  {
    hide DumpAll;
    DumpJoin(exchanges[..k], [exchanges[k]], phrases);
    assert exchanges[..k + 1] == exchanges[..k] + [exchanges[k]];
    DumpOne(exchanges[k], phrases);
  }

  lemma DumpOne(exchange: Exchange, phrases: Phrases)
    ensures DumpAll([exchange], phrases) == DumpText(exchange.response, phrases)
  {
    hide DumpText;
    assert [exchange][1..] == [];
    var text := DumpText(exchange.response, phrases);
    assert text + "" == text;
  }

  lemma {:induction false} DumpJoin(a: seq<Exchange>, b: seq<Exchange>, phrases: Phrases)
    ensures DumpAll(a + b, phrases) == DumpAll(a, phrases) + DumpAll(b, phrases)
    decreases |a|
  {
    hide DumpText;
    if a == [] {
      assert a + b == b;
    } else {
      DumpJoin(a[1..], b, phrases);
      assert (a + b)[1..] == a[1..] + b;
    }
  }

  // ----- the client at the other end

  /** Every answer but that to CONNECT ends, for its reader, where the printer ended it: a HEAD answer
      has no body, and the other statuses without a body are printed without one. */
  lemma AnswersInStep(request: HttpRequest, settings: Settings)
    requires request.verb != CONNECT
    ensures InStep(request.verb, Answer(request, settings))
  {
    hide Handled;
  }

  /** A CONNECT answered with 2xx and a body leaves the body in the stream. */
  lemma ConnectOutOfStep(request: HttpRequest, settings: Settings)
    requires request.verb == CONNECT
    ensures InStep(CONNECT, Answer(request, settings)) <==>
              !(200 <= Answer(request, settings).status < 300) || PrintedBody(Answer(request, settings)) == ""
  {
    hide Handled;
  }

  lemma {:induction false} ExchangesInStep(stream: string, settings: Settings)
    ensures forall e :: e in Exchanges(stream, settings) && e.verb != CONNECT ==> InStep(e.verb, e.response)
    ensures forall i :: 0 <= i < |Exchanges(stream, settings)| - 1 ==> !Exchanges(stream, settings)[i].response.close
    decreases |stream|
  {
    hide RequestParser.ParseRequest, Answer, InStep;
    var outcome := RequestParser.ParseRequest(stream);
    if outcome.Finished? {
      var response := Answer(outcome.request, settings);
      if outcome.request.verb != CONNECT {
        AnswersInStep(outcome.request, settings);
      }
      if !response.close {
        ExchangesInStep(stream[outcome.consumed..], settings);
      }
    }
  }

  predicate ConnectsInStep(exchanges: seq<Exchange>) {
    forall e :: e in exchanges && e.verb == CONNECT ==> InStep(CONNECT, e.response)
  }

  /** The exchanges answer the requests of the stream, in order, up to the first answer that closes
      or else all of them. */
  lemma {:induction false} ExchangesAnswer(stream: string, settings: Settings)
    ensures var requests, exchanges := TranscriptOf(stream).requests, Exchanges(stream, settings);
            && |exchanges| <= |requests|
            && (forall i :: 0 <= i < |exchanges| ==>
                  exchanges[i] == Exchange(requests[i].verb, Answer(requests[i], settings)))
            && (|exchanges| < |requests| ==> exchanges != [] && exchanges[|exchanges| - 1].response.close)
    decreases |stream|
  {
    hide RequestParser.ParseRequest, Answer;
    var outcome := RequestParser.ParseRequest(stream);
    if outcome.Finished? && !Answer(outcome.request, settings).close {
      ExchangesAnswer(stream[outcome.consumed..], settings);
    }
  }

  /** Whatever the servlet does, as long as what it leaves can be printed: a client that reads the
      connection with the methods of its requests gets every answer back, in order, exactly when the
      answers to CONNECT are in step; and only the last one closes. */
  lemma ClientReadsAnswers(stream: string, settings: Settings, answered: nat, rest: string)
    requires answered <= |Exchanges(stream, settings)|
    requires forall i :: 0 <= i < answered ==> Printable(Exchanges(stream, settings)[i].response, settings.phrases)
    ensures var taken := Exchanges(stream, settings)[..answered];
            && (ConnectsInStep(taken) <==>
                  ReadAll(Verbs(taken), DumpAll(taken, settings.phrases) + rest) ==
                    Some((ReadBacks(taken, settings.phrases), rest)))
            && forall i :: 0 <= i < answered - 1 ==> !taken[i].response.close
  {
    hide Exchanges, InStep, Printable, ReadAll, DumpAll;
    ExchangesInStep(stream, settings);
    var taken := Exchanges(stream, settings)[..answered];
    forall e | e in taken
      ensures Printable(e.response, settings.phrases) && (e.verb != CONNECT ==> InStep(e.verb, e.response))
    {
      var i :| 0 <= i < |taken| && taken[i] == e;
      assert Exchanges(stream, settings)[i] == e;
    }
    PipelineInStep(taken, settings.phrases, rest);
  }
}
