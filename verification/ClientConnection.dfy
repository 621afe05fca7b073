/** `HttpConnection::recvResponse`: responses taken from a connection that delivers its bytes in
    arbitrary pieces; interim responses are skipped, and the end of the connection may end a body. */
module ClientConnection {
  import opened Wrappers
  import opened Text
  import opened HttpMessages
  import opened Buffers
  import opened ResponseParser
  import opened ResponseFraming
  import opened ResponseParserObject
  import Session

  datatype ConnectionError = ParseFailed(error: ParseError) | ClosedByPeer | ReceiveFailed

  predicate IsInterim(response: HttpResponse) {
    100 <= response.status < 200 && response.status != 101
  }

  /** How a receive ends: with a response and what is left of the stream, which may have ended with
      it, or with an error. */
  datatype Reception =
    | Received(response: HttpResponse, rest: string, reusable: bool, atEnd: bool)
    | Broken(error: ConnectionError)

  /** What the receive loop makes of the bytes it has and the pieces still to come, behind which the
      peer closes or the read fails. */
  function ReceiveFrom(verb: Method, buffered: string, incoming: seq<string>, closes: bool): Reception
    decreases |incoming|, |buffered|
  {
    match ParseResponse(verb, buffered, false)
    case Failed(e) => Broken(ParseFailed(e))
    case Finished(response, n) =>
      if IsInterim(response) then ReceiveFrom(verb, buffered[n..], incoming, closes)
      else
        Received(response, buffered[n..] + Session.Flatten(incoming), !response.close && response.status != 101, false)
    case NeedMore =>
      if incoming != [] then ReceiveFrom(verb, buffered + incoming[0], incoming[1..], closes)
      else if closes then AtEnd(verb, buffered)
      else Broken(ReceiveFailed)
  }

  /** What the bytes of a stream amount to when they are there at once. */
  function Receive(verb: Method, stream: string, closes: bool): Reception {
    ReceiveFrom(verb, stream, [], closes)
  }

  /** The attempt after the peer has closed. */
  function AtEnd(verb: Method, stream: string): Reception {
    if stream == "" then Broken(ClosedByPeer)
    else
      match ParseResponse(verb, stream, true)
      case Failed(e) => Broken(ParseFailed(e))
      case Finished(response, n) => Received(response, stream[n..], false, true)
      case NeedMore => Broken(ClosedByPeer)
  }

  /** Chunk metadata of the response is shorter than the limit, or the whole stream fails for its
      sake too; and so for the response behind an interim one. */
  predicate Steady(verb: Method, stream: string)
    decreases |stream|
  {
    && (Quiet(verb, stream) || ParseResponse(verb, stream, false) == Failed(HEADER_TOO_LARGE))
    && match ParseResponse(verb, stream, false)
       case Finished(response, n) => IsInterim(response) ==> Steady(verb, stream[n..])
       case _ => true
  }

  lemma NothingUndecided(verb: Method)
    ensures ParseResponse(verb, "", false) == NeedMore
  {
  }

  /** No interim response; and the connection can be used again unless the response closes it or
      hands it over, or the end of the stream, which closes it here, was the end of the body. */
  predicate Concluded(response: HttpResponse, before: bool, after: bool, reusable: bool) {
    && (response.status == 101 || !(100 <= response.status <= 199))
    && (after == before ==> (reusable <==> !response.close && response.status != 101))
    && (after != before ==> !reusable && !after)
  }

  lemma FinalConcluded(
      verb: Method, buffered: string, incoming: seq<string>, closes: bool, before: bool, after: bool, reusable: bool)
    requires var reception := ReceiveFrom(verb, buffered, incoming, closes);
             reception.Received? && after == (before && !reception.atEnd) && (reception.atEnd ==> before) &&
             reusable == reception.reusable
    ensures Concluded(ReceiveFrom(verb, buffered, incoming, closes).response, before, after, reusable)
  {
    hide ReceiveFrom;
    FinalReceived(verb, buffered, incoming, closes);
  }

  /** One turn of the receive loop: it is over, it starts again behind an interim response, or it
      waits for bytes. */
  datatype Turn = Done(result: Option<HttpResponse>) | Again | Wait

  class HttpConnection {
    var inputBuffer: array<char>
    /** The bytes the coming `read` calls deliver; behind them the peer closes, or the read fails. */
    var incoming: seq<string>
    var closes: bool
    var open: bool
    var lastError: Option<ConnectionError>
    var pendingMethod: Method
    var requestCount: nat
    var reusable: bool

    ghost predicate Valid()
      reads this
    {
      forall piece :: piece in incoming ==> 0 < |piece| <= 4096
    }

    /** On a closed connection every read fails. */
    ghost function Coming(): seq<string>
      reads this
    {
      if open then incoming else []
    }

    ghost function Closing(): bool
      reads this
    {
      open && closes
    }

    ghost function Stream(): string
      reads this, inputBuffer
    {
      inputBuffer[..] + Session.Flatten(Coming())
    }

    constructor (incoming: seq<string>, closes: bool)
      requires forall piece :: piece in incoming ==> 0 < |piece| <= 4096
      ensures Valid() && open && Stream() == Session.Flatten(incoming) && this.closes == closes && requestCount == 0
    {
      inputBuffer := new char[0];
      this.incoming, this.closes := incoming, closes;
      open, lastError, pendingMethod, requestCount, reusable := true, None, GET, 0, true;
    }

    /** The read step: a piece is appended, or nothing is left to come. */
    method Fill() returns (more: bool)
      requires Valid()
      modifies this`incoming, this`inputBuffer
      ensures Valid() && Stream() == old(Stream())
      ensures more ==> old(Coming()) != [] && Coming() == old(Coming()[1..]) && fresh(inputBuffer)
      ensures more ==> |incoming| < |old(incoming)| && inputBuffer[..] == old(inputBuffer[..] + Coming()[0])
      ensures !more ==> inputBuffer == old(inputBuffer) && Coming() == [] && incoming == old(incoming)
    {
      hide Session.Flatten;
      if !open || incoming == [] {
        return false;
      }
      Session.FlattenFirst(incoming);
      var piece := incoming[0];
      Session.Regroup(inputBuffer[..], piece, Session.Flatten(incoming[1..]));
      inputBuffer := Append(inputBuffer, piece);
      incoming := incoming[1..];
      return true;
    }

    /** One attempt at the buffered bytes. */
    method Attempt(parser: HttpResponseParser, eof: bool) returns (outcome: Outcome)
      requires parser.error == None && !parser.finished
      modifies this`inputBuffer, inputBuffer, parser
      ensures outcome == old(ParseResponse(parser.requestMethod, inputBuffer[..], eof))
      ensures parser.requestMethod == old(parser.requestMethod)
      ensures outcome.NeedMore? ==> parser.error == None && !parser.finished
      ensures inputBuffer == old(inputBuffer) || fresh(inputBuffer)
      ensures outcome.NeedMore? ==> inputBuffer[..] == old(inputBuffer[..])
      ensures outcome.Finished? ==> inputBuffer[..] == old(inputBuffer[..])[outcome.consumed..]
      ensures outcome.Finished? ==> inputBuffer.Length < old(inputBuffer.Length)
    {
      hide ParseResponse, StartOf;
      var buffered := inputBuffer.Length;
      ghost var seen := inputBuffer[..];
      assert inputBuffer[..buffered] == seen;
      var consumed := parser.Execute(inputBuffer, buffered, eof);
      if parser.error.Some? {
        return Failed(parser.error.value);
      }
      if parser.finished {
        inputBuffer := Shrink(inputBuffer, buffered - consumed);
        return Finished(parser.data, consumed);
      }
      assert inputBuffer[..buffered] == inputBuffer[..];
      return NeedMore;
    }

    method Close(error: ConnectionError) returns (r: Option<HttpResponse>)
      modifies this`open, this`lastError
      ensures r == None && !open && lastError == Some(error)
    {
      open, lastError := false, Some(error);
      return None;
    }

    /** The call has ended as `reception` says. */
    twostate predicate Delivered(reception: Reception, new r: Option<HttpResponse>)
      reads this, inputBuffer
    {
      && pendingMethod == old(pendingMethod)
      && match reception
         case Received(response, rest, again, atEnd) =>
           && r == Some(response) && Stream() == rest && requestCount == old(requestCount) + 1
           && reusable == again && lastError == None && open == (old(open) && !atEnd) && (atEnd ==> old(open))
         case Broken(error) =>
           r == None && !open && lastError == Some(error) && requestCount == old(requestCount)
    }

    predicate Ready(parser: HttpResponseParser)
      reads this, parser
    {
      parser.error == None && !parser.finished && parser.requestMethod == pendingMethod && lastError == None
    }

    ghost function Outlook(): Reception
      reads this, inputBuffer
    {
      ReceiveFrom(pendingMethod, inputBuffer[..], Coming(), Closing())
    }

    /** What the buffer alone can tell. */
    method TryBuffered(parser: HttpResponseParser) returns (turn: Turn)
      requires Valid() && Ready(parser)
      modifies this, inputBuffer, parser
      ensures inputBuffer == old(inputBuffer) || fresh(inputBuffer)
      ensures turn.Done? ==> Delivered(old(Outlook()), turn.result)
      ensures !turn.Done? ==>
                && Valid() && Ready(parser) && incoming == old(incoming) && Outlook() == old(Outlook())
                && open == old(open)
                && pendingMethod == old(pendingMethod) && requestCount == old(requestCount)
      ensures turn.Again? ==> inputBuffer.Length < old(inputBuffer.Length)
      ensures turn.Wait? ==> ParseResponse(pendingMethod, inputBuffer[..], false).NeedMore?
    {
      NothingUndecided(pendingMethod);
      hide ParseResponse, Session.Flatten, IsInterim;
      if inputBuffer.Length == 0 {
        assert inputBuffer[..] == "";
        return Wait;
      }
      var outcome := Attempt(parser, false);
      if outcome.NeedMore? {
        return Wait;
      }
      if outcome.Failed? {
        var none := Close(ParseFailed(outcome.error));
        return Turn.Done(None);
      }
      if IsInterim(outcome.response) {
        parser.Reset(pendingMethod);
        return Again;
      }
      requestCount := requestCount + 1;
      reusable := !outcome.response.close && outcome.response.status != 101;
      return Turn.Done(Some(outcome.response));
    }

    /** The loop does as `ReceiveFrom` says; and for a steady stream, and only for a steady one, the
        pieces it comes in make no difference (`PiecesExact`). */
    method RecvResponse() returns (r: Option<HttpResponse>)
      requires Valid()
      modifies this, inputBuffer
      ensures Delivered(old(ReceiveFrom(pendingMethod, inputBuffer[..], Coming(), Closing())), r)
      ensures old(Steady(pendingMethod, Stream())) ==> Delivered(old(Receive(pendingMethod, Stream(), Closing())), r)
      ensures r.Some? ==> Concluded(r.value, old(open), open, reusable)
    {
      hide ParseResponse, Session.Flatten, Steady, ReceiveFrom, Receive, Concluded;
      ghost var verb, seen, coming, closing := pendingMethod, inputBuffer[..], Coming(), Closing();
      SteadyReception(verb, seen, coming, closing);
      lastError := None;
      var parser := new HttpResponseParser(pendingMethod);
      ghost var reception := Outlook();
      while true
        invariant Valid() && Ready(parser) && fresh(parser)
        invariant pendingMethod == old(pendingMethod) && requestCount == old(requestCount) && open == old(open)
        invariant inputBuffer == old(inputBuffer) || fresh(inputBuffer)
        invariant Outlook() == reception
        decreases |incoming|, inputBuffer.Length
      {
        var turn := TryBuffered(parser);
        if turn.Wait? {
          turn := Await(parser);
        }
        if turn.Done? {
          if turn.result.Some? {
            FinalConcluded(verb, seen, coming, closing, old(open), open, reusable);
          }
          return turn.result;
        }
      }
    }

    /** The buffer cannot tell: a piece more, or the end. */
    method Await(parser: HttpResponseParser) returns (turn: Turn)
      requires Valid() && Ready(parser) && ParseResponse(pendingMethod, inputBuffer[..], false).NeedMore?
      modifies this, inputBuffer, parser
      ensures inputBuffer == old(inputBuffer) || fresh(inputBuffer)
      ensures turn.Done? ==> Delivered(old(Outlook()), turn.result)
      ensures !turn.Done? ==>
                && Valid() && Ready(parser) && |incoming| < |old(incoming)| && Outlook() == old(Outlook())
                && open == old(open)
                && pendingMethod == old(pendingMethod) && requestCount == old(requestCount)
    {
      hide ParseResponse, Session.Flatten, ReceiveFrom;
      ghost var seen, coming := inputBuffer[..], Coming();
      var more := Fill();
      if !more {
        var r := Finish(parser);
        return Turn.Done(r);
      }
      MoreArrived(pendingMethod, seen, coming, Closing());
      return Again;
    }

    /** Nothing more arrives. */
    method Finish(parser: HttpResponseParser) returns (r: Option<HttpResponse>)
      requires Valid() && Ready(parser)
      requires Coming() == [] && ParseResponse(pendingMethod, inputBuffer[..], false).NeedMore?
      modifies this, inputBuffer, parser
      ensures inputBuffer == old(inputBuffer) || fresh(inputBuffer)
      ensures Delivered(old(Outlook()), r)
    {
      hide ParseResponse;
      assert inputBuffer[..] == Stream();
      if open && closes && inputBuffer.Length != 0 {
        var outcome := Attempt(parser, true);
        match outcome
        case Finished(response, n) =>
          requestCount := requestCount + 1;
          reusable, open := false, false;
          assert inputBuffer[..] == Stream();
          return Some(response);
        case Failed(e) =>
          r := Close(ParseFailed(e));
          return r;
        case NeedMore =>
      }
      r := Close(if open && closes then ClosedByPeer else ReceiveFailed);
    }
  }

  /** The response that is received is no interim one, and the connection can be used again unless the
      response or its end says otherwise. */
  lemma {:induction false} FinalReceived(verb: Method, buffered: string, incoming: seq<string>, closes: bool)
    ensures var reception := ReceiveFrom(verb, buffered, incoming, closes);
            reception.Received? ==>
              var status := reception.response.status;
              && (status == 101 || !(100 <= status <= 199))
              && (reception.reusable <==> !reception.atEnd && !reception.response.close && status != 101)
    decreases |incoming|, |buffered|
  {
    hide ParseResponse;
    match ParseResponse(verb, buffered, false)
    case Failed(_) =>
    case Finished(response, n) =>
      if IsInterim(response) {
        FinalReceived(verb, buffered[n..], incoming, closes);
      }
    case NeedMore =>
      if incoming != [] {
        FinalReceived(verb, buffered + incoming[0], incoming[1..], closes);
      } else if ParseResponse(verb, buffered, true).Finished? {
        EndIsFinal(verb, buffered);
      }
  }

  /** A response that only the end of the stream completes has a body, so it is no interim one. */
  lemma EndIsFinal(verb: Method, stream: string)
    requires ParseResponse(verb, stream, false).NeedMore? && ParseResponse(verb, stream, true).Finished?
    ensures !IsInterim(ParseResponse(verb, stream, true).response)
  {
    hide ParseResponse, StartOf, ParseChunks, StoredHeaders, ClosesAfter;
    OutcomeOfStart(verb, stream, false);
    OutcomeOfStart(verb, stream, true);
    StartFraming(verb, stream);
  }

  /** Where the interim responses at the front of a stream start, and last the response behind them. */
  predicate Interims(verb: Method, stream: string, starts: seq<nat>) {
    && starts != [] && starts[0] == 0 && (forall i :: 0 <= i < |starts| ==> starts[i] <= |stream|)
    && forall i :: 0 <= i < |starts| - 1 ==> InterimBetween(verb, stream, starts[i], starts[i + 1])
  }

  predicate InterimBetween(verb: Method, stream: string, begin: nat, end: nat)
    requires begin <= |stream|
  {
    var outcome := ParseResponse(verb, stream[begin..], false);
    && outcome.Finished? && begin + outcome.consumed == end
    && 100 <= outcome.response.status <= 199 && outcome.response.status != 101
  }

  /** What is received is the first response of the stream that is no interim one. */
  lemma {:induction false} FirstFinal(verb: Method, stream: string, closes: bool) returns (starts: seq<nat>)
    requires Receive(verb, stream, closes).Received?
    ensures Interims(verb, stream, starts)
    ensures var Received(response, rest, reusable, atEnd) := Receive(verb, stream, closes);
            var last := stream[starts[|starts| - 1]..];
            var outcome := ParseResponse(verb, last, atEnd);
            && outcome.Finished? && outcome.response == response && rest == last[outcome.consumed..]
            && (response.status == 101 || !(100 <= response.status <= 199))
    decreases |stream|
  {
    hide ParseResponse;
    FinalReceived(verb, stream, [], closes);
    var outcome := ParseResponse(verb, stream, false);
    assert stream[0..] == stream;
    if outcome.Finished? && IsInterim(outcome.response) {
      var n := outcome.consumed;
      var more := FirstFinal(verb, stream[n..], closes);
      starts := Shifted(more, n);
      Behind(verb, stream, n, more);
      SameRest(stream, n, more[|more| - 1]);
    } else {
      starts := [0];
      if outcome.Finished? {
        assert stream[outcome.consumed..] + Session.Flatten([]) == stream[outcome.consumed..];
      }
    }
  }

  lemma Behind(verb: Method, stream: string, n: nat, more: seq<nat>)
    requires n <= |stream| && Interims(verb, stream[n..], more) && InterimBetween(verb, stream, 0, n)
    ensures Interims(verb, stream, Shifted(more, n))
  {
    hide InterimBetween, Shifted;
    var starts := Shifted(more, n);
    forall i | 0 <= i < |starts| ensures starts[i] <= |stream| {
      if i > 0 {
        assert starts[i] == n + more[i - 1];
      }
    }
    forall i | 0 <= i < |more| ensures InterimBetween(verb, stream, starts[i], starts[i + 1]) {
      ShiftedPair(verb, stream, n, more, i);
    }
  }

  lemma ShiftedPair(verb: Method, stream: string, n: nat, more: seq<nat>, i: nat)
    requires n <= |stream| && Interims(verb, stream[n..], more) && InterimBetween(verb, stream, 0, n) && i < |more|
    ensures var starts := Shifted(more, n);
            starts[i] <= |stream| && InterimBetween(verb, stream, starts[i], starts[i + 1])
  {
    hide InterimBetween, Shifted;
    if i > 0 {
      ShiftedInterim(verb, stream, n, more[i - 1], more[i]);
    }
  }

  function Shifted(more: seq<nat>, n: nat): (r: seq<nat>)
    ensures |r| == |more| + 1 && r[0] == 0 && forall i :: 0 <= i < |more| ==> r[i + 1] == n + more[i]
  {
    [0] + seq(|more|, i requires 0 <= i < |more| => n + more[i])
  }

  lemma SameRest(stream: string, n: nat, k: nat)
    requires n + k <= |stream|
    ensures stream[n..][k..] == stream[n + k..]
  {
  }

  lemma ShiftedInterim(verb: Method, stream: string, n: nat, begin: nat, end: nat)
    requires n <= |stream| && begin <= |stream| - n && InterimBetween(verb, stream[n..], begin, end)
    ensures InterimBetween(verb, stream, n + begin, n + end)
  {
    hide ParseResponse;
    assert stream[n..][begin..] == stream[n + begin..];
  }

  lemma MoreArrived(verb: Method, buffered: string, incoming: seq<string>, closes: bool)
    requires ParseResponse(verb, buffered, false).NeedMore? && incoming != []
    ensures ReceiveFrom(verb, buffered, incoming, closes) ==
              ReceiveFrom(verb, buffered + incoming[0], incoming[1..], closes)
  {
    hide ParseResponse;
  }

  // ----- whether the pieces matter

  lemma SteadyReception(verb: Method, buffered: string, incoming: seq<string>, closes: bool)
    ensures Steady(verb, buffered + Session.Flatten(incoming)) ==>
              ReceiveFrom(verb, buffered, incoming, closes) ==
              Receive(verb, buffered + Session.Flatten(incoming), closes)
  {
    hide Steady, ReceiveFrom, Receive;
    if Steady(verb, buffered + Session.Flatten(incoming)) {
      PiecesDoNotMatter(verb, buffered, incoming, closes);
    }
  }

  lemma {:induction false} PiecesDoNotMatter(verb: Method, buffered: string, incoming: seq<string>, closes: bool)
    requires Steady(verb, buffered + Session.Flatten(incoming))
    ensures ReceiveFrom(verb, buffered, incoming, closes) ==
              Receive(verb, buffered + Session.Flatten(incoming), closes)
    decreases |incoming|, |buffered|
  {
    hide ParseResponse, Quiet, Impatient, IsInterim;
    var later := Session.Flatten(incoming);
    var stream, outcome := buffered + later, ParseResponse(verb, buffered, false);
    if outcome.NeedMore? {
      if incoming == [] {
        assert stream == buffered;
      } else {
        assert stream == (buffered + incoming[0]) + Session.Flatten(incoming[1..]);
        PiecesDoNotMatter(verb, buffered + incoming[0], incoming[1..], closes);
      }
    } else if Impatient(verb, buffered) {
      ImpatientFails(verb, buffered);
      QuietExact(verb, stream);
      assert stream[..|buffered|] == buffered;
    } else {
      OutcomeStable(verb, buffered, stream, false);
      if outcome.Finished? {
        Session.RestOfStream(buffered, later, outcome.consumed);
        if IsInterim(outcome.response) {
          PiecesDoNotMatter(verb, buffered[outcome.consumed..], incoming, closes);
        } else {
          assert stream[outcome.consumed..] + Session.Flatten([]) == stream[outcome.consumed..];
        }
      }
    }
  }

  /** An interim response has no body, so its bytes alone are it. */
  lemma InterimAlone(verb: Method, stream: string)
    requires var o := ParseResponse(verb, stream, false); o.Finished? && IsInterim(o.response)
    ensures var o := ParseResponse(verb, stream, false);
            Quiet(verb, stream) && ParseResponse(verb, stream[..o.consumed], false) == o
  {
    hide ParseResponse, StartOf, ParseChunks, StoredHeaders, ClosesAfter, MetadataShort;
    OutcomeOfStart(verb, stream, false);
    StartFraming(verb, stream);
    var size := StartOf(verb, stream).value.size;
    StartOfPrefix(verb, stream, size);
    OutcomeOfStart(verb, stream[..size], false);
  }

  lemma StartFraming(verb: Method, stream: string)
    requires StartOf(verb, stream).Some?
    ensures var start := StartOf(verb, stream).value;
            start.framing.NoBody? <==> HasNoBody(verb, start.head.line.status)
  {
    hide At, ParseHead;
  }

  /** The outcome of a stream with a refused part is no interim response, and the end of the stream
      adds nothing to it. */
  lemma ImpatientStream(verb: Method, stream: string, k: nat)
    requires k <= |stream| && Impatient(verb, stream[..k])
    ensures var o := ParseResponse(verb, stream, false);
            && (o.Finished? ==> !IsInterim(o.response))
            && ParseResponse(verb, stream, true) == o
  {
    hide ParseResponse, StartOf, ParseChunks, StoredHeaders, ClosesAfter;
    StartGrows(verb, stream, k);
    StartFraming(verb, stream);
    OutcomeOfStart(verb, stream, false);
    OutcomeOfStart(verb, stream, true);
    ChunkedOutcome(verb, stream);
  }

  lemma ChunkedOutcome(verb: Method, stream: string)
    requires StartOf(verb, stream).Some? && StartOf(verb, stream).value.framing.Chunked?
    ensures ParseResponse(verb, stream, true) == ParseResponse(verb, stream, false)
  {
    hide ParseResponse, StartOf;
    OutcomeOfStart(verb, stream, false);
    OutcomeOfStart(verb, stream, true);
  }

  /** One byte at a time. */
  function Bytes(stream: string): (r: seq<string>)
    ensures |r| == |stream|
  {
    seq(|stream|, i requires 0 <= i < |stream| => [stream[i]])
  }

  lemma BytesStep(stream: string, k: nat)
    requires k < |stream|
    ensures var bytes := Bytes(stream[k..]);
            && stream[..k] + bytes[0] == stream[..k + 1]
            && bytes[1..] == Bytes(stream[k + 1..])
  {
    assert stream[k..][0] == stream[k];
  }

  /** Bytes that come one at a time let no refused part pass unnoticed. */
  lemma {:induction false} ByteByByte(verb: Method, stream: string, k: nat, closes: bool)
    requires k <= |stream| && !Steady(verb, stream)
    requires forall j :: 0 <= j < k ==> ParseResponse(verb, stream[..j], false).NeedMore?
    ensures ReceiveFrom(verb, stream[..k], Bytes(stream[k..]), closes) != Receive(verb, stream, closes)
    decreases |stream|, |stream| - k
  {
    hide ParseResponse, Quiet, Impatient, IsInterim, Steady;
    var outcome := ParseResponse(verb, stream[..k], false);
    if outcome.NeedMore? {
      assert stream[..|stream|] == stream;
      if k == |stream| {
        NeverRefused(verb, stream);
        assert false;
      } else {
        BytesStep(stream, k);
        ByteByByte(verb, stream, k + 1, closes);
      }
    } else if Impatient(verb, stream[..k]) {
      RefusedPart(verb, stream, k, closes);
    } else {
      FirstDecided(verb, stream, k);
      var n := outcome.consumed;
      assert stream[..k][n..] == stream[n..][..0] && stream[k..] == stream[n..][0..];
      ByteByByte(verb, stream[n..], 0, closes);
    }
  }

  lemma NeverRefused(verb: Method, stream: string)
    requires forall j :: 0 <= j <= |stream| ==> ParseResponse(verb, stream[..j], false).NeedMore?
    ensures Steady(verb, stream)
  {
    hide ParseResponse, Quiet, Impatient;
    assert stream[..|stream|] == stream;
    QuietExact(verb, stream);
    forall j | 0 <= j <= |stream| ensures !Impatient(verb, stream[..j]) {
      if Impatient(verb, stream[..j]) {
        ImpatientFails(verb, stream[..j]);
      }
    }
  }

  lemma RefusedPart(verb: Method, stream: string, k: nat, closes: bool)
    requires k <= |stream| && Impatient(verb, stream[..k]) && !Steady(verb, stream)
    ensures ReceiveFrom(verb, stream[..k], Bytes(stream[k..]), closes) == Broken(ParseFailed(HEADER_TOO_LARGE))
    ensures Receive(verb, stream, closes) != Broken(ParseFailed(HEADER_TOO_LARGE))
  {
    hide ParseResponse, Quiet, Impatient, IsInterim;
    ImpatientFails(verb, stream[..k]);
    ImpatientStream(verb, stream, k);
  }

  /** If the first decided attempt is not a refusal, it is an interim response, and what makes the
      stream unsteady comes behind it. */
  lemma FirstDecided(verb: Method, stream: string, k: nat)
    requires k <= |stream| && !Steady(verb, stream) && !Impatient(verb, stream[..k])
    requires forall j :: 0 <= j < k ==> ParseResponse(verb, stream[..j], false).NeedMore?
    requires !ParseResponse(verb, stream[..k], false).NeedMore?
    ensures var o := ParseResponse(verb, stream[..k], false);
            && o.Finished? && IsInterim(o.response) && o.consumed == k
            && ParseResponse(verb, stream, false) == o && !Steady(verb, stream[k..])
  {
    hide ParseResponse, Quiet, Impatient, IsInterim;
    var outcome := ParseResponse(verb, stream[..k], false);
    OutcomeStable(verb, stream[..k], stream, false);
    if outcome.Finished? && IsInterim(outcome.response) {
      InterimAlone(verb, stream);
    } else {
      QuietExact(verb, stream);
      var j :| 0 <= j <= |stream| && Impatient(verb, stream[..j]);
      ImpatientFails(verb, stream[..j]);
      assert j >= k && stream[..k] <= stream[..j];
      OutcomeStable(verb, stream[..k], stream[..j], false);
      assert false;
    }
  }

  /** A way the network may deliver a stream. */
  predicate Pieces(pieces: seq<string>, stream: string) {
    Session.Flatten(pieces) == stream && forall piece :: piece in pieces ==> 0 < |piece| <= 4096
  }

  lemma {:induction false} BytesArePieces(stream: string)
    ensures Pieces(Bytes(stream), stream)
  {
    if stream != "" {
      BytesArePieces(stream[1..]);
      BytesStep(stream, 0);
      assert stream[0..] == stream && Bytes(stream)[0] + stream[1..] == stream;
    }
  }

  /** The client's result is independent of the pieces exactly for steady streams. */
  lemma PiecesExact(verb: Method, stream: string, closes: bool)
    ensures Steady(verb, stream) <==>
            forall pieces :: Pieces(pieces, stream) ==>
              ReceiveFrom(verb, "", pieces, closes) == Receive(verb, stream, closes)
  {
    hide Steady, Receive, ReceiveFrom;
    if Steady(verb, stream) {
      forall pieces | Pieces(pieces, stream)
        ensures ReceiveFrom(verb, "", pieces, closes) == Receive(verb, stream, closes)
      {
        assert "" + Session.Flatten(pieces) == stream;
        PiecesDoNotMatter(verb, "", pieces, closes);
      }
    } else {
      BytesArePieces(stream);
      assert stream[..0] == "" && stream[0..] == stream;
      ByteByByte(verb, stream, 0, closes);
    }
  }

  /** For a complete response the lengths of its metadata alone decide. */
  lemma FinishedSteady(verb: Method, stream: string)
    requires ParseResponse(verb, stream, false).Finished?
    requires !IsInterim(ParseResponse(verb, stream, false).response)
    ensures Steady(verb, stream) <==> Quiet(verb, stream)
  {
  }
}
