/** `HttpSession::recvRequest`: requests taken from a connection that delivers its bytes in
    arbitrary pieces. */
module Session {
  import opened Wrappers
  import opened HttpMessages
  import opened Buffers
  import opened RequestParser

  function Flatten(pieces: seq<string>): string {
    if pieces == [] then "" else pieces[0] + Flatten(pieces[1..])
  }

  lemma FlattenFirst(pieces: seq<string>)
    requires pieces != []
    ensures Flatten(pieces) == pieces[0] + Flatten(pieces[1..])
  {
  }

  lemma Regroup(a: string, b: string, c: string)
    ensures (a + b) + c == a + (b + c)
  {
  }

  /** What a byte stream holds: its requests in order, and the error that ends them, if any. */
  datatype Transcript = Transcript(requests: seq<HttpRequest>, error: Option<ParseError>)

  function TranscriptOf(stream: string): Transcript
    decreases |stream|
  {
    match ParseRequest(stream)
    case NeedMore => Transcript([], None)
    case Failed(e) => Transcript([], Some(e))
    case Finished(request, n) =>
      var rest := TranscriptOf(stream[n..]);
      Transcript([request] + rest.requests, rest.error)
  }

  /** Bytes that arrive later never revise what was received: the requests of a prefix of the
      stream come first, and an error stays where it was. */
  lemma {:induction false} TranscriptGrows(stream: string, longer: string)
    requires stream <= longer
    ensures TranscriptOf(stream).requests <= TranscriptOf(longer).requests
    ensures TranscriptOf(stream).error.Some? ==> TranscriptOf(longer) == TranscriptOf(stream)
    decreases |stream|
  {
    hide ParseRequest;
    var r := ParseRequest(stream);
    if !r.NeedMore? {
      OutcomeStable(stream, longer);
      if r.Finished? {
        assert stream[r.consumed..] <= longer[r.consumed..];
        TranscriptGrows(stream[r.consumed..], longer[r.consumed..]);
      }
    }
  }

  class HttpSession {
    var inputBuffer: array<char>
    /** The bytes the coming `read` calls deliver, one piece a call; when there are none left the
        peer has closed or the read fails. */
    var incoming: seq<string>
    var open: bool
    var lastError: Option<ParseError>

    ghost predicate Valid()
      reads this
    {
      forall piece :: piece in incoming ==> 0 < |piece| <= 4096
    }

    /** All bytes this session can still come to see. */
    ghost function Stream(): string
      reads this, inputBuffer
    {
      inputBuffer[..] + if open then Flatten(incoming) else ""
    }

    constructor (incoming: seq<string>)
      requires forall piece :: piece in incoming ==> 0 < |piece| <= 4096
      ensures Valid() && open && lastError == None && fresh(inputBuffer)
      ensures Stream() == Flatten(incoming)
    {
      inputBuffer := new char[0];
      this.incoming := incoming;
      open := true;
      lastError := None;
    }

    method Read() returns (piece: Option<string>)
      requires Valid()
      modifies this`incoming
      ensures Valid()
      ensures piece.None? ==> (!open || old(incoming) == []) && incoming == old(incoming)
      ensures piece.Some? ==> open && old(incoming) == [piece.value] + incoming
    {
      if !open || incoming == [] {
        return None;
      }
      piece := Some(incoming[0]);
      incoming := incoming[1..];
    }

    /** The read step of the receive loop. */
    method Fill() returns (more: bool)
      requires Valid()
      modifies this`incoming, this`inputBuffer
      ensures Valid() && Stream() == old(Stream())
      ensures more ==> |incoming| < |old(incoming)| && fresh(inputBuffer)
      ensures !more ==> inputBuffer == old(inputBuffer) && inputBuffer[..] == Stream()
    {
      var piece := Read();
      if piece.None? {
        assert inputBuffer[..] == Stream();
        return false;
      }
      inputBuffer := Append(inputBuffer, piece.value);
      assert old(inputBuffer[..]) + (piece.value + Flatten(incoming)) == Stream();
      return true;
    }

    /** One attempt of a fresh parser at the buffered bytes. */
    method Attempt(parser: HttpRequestParser) returns (outcome: Outcome)
      requires parser.error == None && !parser.finished
      modifies this`inputBuffer, inputBuffer, parser
      ensures outcome == old(ParseRequest(inputBuffer[..]))
      ensures outcome.NeedMore? ==> parser.error == None && !parser.finished
      ensures inputBuffer == old(inputBuffer) || fresh(inputBuffer)
      ensures !outcome.Finished? ==> inputBuffer[..] == old(inputBuffer[..])
      ensures outcome.Finished? ==> inputBuffer[..] == old(inputBuffer[..])[outcome.consumed..]
    {
      NothingUndecided();
      hide ParseRequest;
      var buffered := inputBuffer.Length;
      if buffered == 0 {
        assert inputBuffer[..] == "";
        return NeedMore;
      }
      ghost var seen := inputBuffer[..];
      assert inputBuffer[..buffered] == seen;
      var consumed := parser.Execute(inputBuffer, buffered);
      if parser.error.Some? {
        assert inputBuffer[..buffered] == inputBuffer[..];
        return Failed(parser.error.value);
      }
      if parser.finished {
        inputBuffer := Shrink(inputBuffer, buffered - consumed);
        return Finished(parser.data, consumed);
      }
      assert inputBuffer[..buffered] == inputBuffer[..];
      return NeedMore;
    }

    /** The result depends on the bytes of the stream only, not on the pieces they come in: it is
        what one attempt at the whole remaining stream returns, and exactly the bytes of a
        finished request leave the stream. */
    method RecvRequest() returns (r: Option<HttpRequest>)
      requires Valid()
      modifies this, inputBuffer
      ensures Valid() && (inputBuffer == old(inputBuffer) || fresh(inputBuffer))
      ensures match old(ParseRequest(Stream()))
              case Finished(request, n) =>
                r == Some(request) && open == old(open) && lastError == None && Stream() == old(Stream()[n..])
              case Failed(e) =>
                r == None && !open && lastError == Some(e) &&
                inputBuffer[..] + (if old(open) then Flatten(incoming) else "") == old(Stream())
              case NeedMore =>
                r == None && !open && lastError == None && inputBuffer[..] == old(Stream())
    {
      hide ParseRequest, Flatten;
      ghost var whole := Stream();
      lastError := None;
      var parser := new HttpRequestParser();
      while true
        invariant Valid() && lastError == None && open == old(open)
        invariant inputBuffer == old(inputBuffer) || fresh(inputBuffer)
        invariant parser.error == None && !parser.finished && fresh(parser)
        invariant Stream() == whole
        decreases |incoming|
      {
        ghost var seen := inputBuffer[..];
        var outcome := Attempt(parser);
        if !outcome.NeedMore? {
          OutcomeStable(seen, whole);
        }
        match outcome
        case Failed(e) =>
          assert inputBuffer[..] == seen;
          lastError := Some(e);
          open := false;
          return None;
        case Finished(request, n) =>
          RestOfStream(seen, if open then Flatten(incoming) else "", n);
          return Some(request);
        case NeedMore =>
          var more := Fill();
          if !more {
            open := false;
            return None;
          }
      }
    }

    /** Called again until it returns nothing, the session yields the requests of the stream and
        its first error. */
    method ReceiveAll() returns (requests: seq<HttpRequest>)
      requires Valid()
      modifies this, inputBuffer
      ensures Valid() && !open
      ensures Transcript(requests, lastError) == old(TranscriptOf(Stream()))
    {
      hide ParseRequest, Flatten, Stream, TranscriptOf;
      requests := [];
      ghost var whole := TranscriptOf(Stream());
      ghost var left := Stream();
      while true
        invariant Valid() && (inputBuffer == old(inputBuffer) || fresh(inputBuffer))
        invariant left == Stream()
        invariant whole.requests == requests + TranscriptOf(left).requests
        invariant whole.error == TranscriptOf(left).error
        decreases |left|
      {
        TranscriptStep(left);
        var request := RecvRequest();
        if request.None? {
          return;
        }
        requests := requests + [request.value];
        left := Stream();
      }
    }
  }

  lemma TranscriptStep(stream: string)
    ensures var o, transcript := ParseRequest(stream), TranscriptOf(stream);
            && (o.NeedMore? ==> transcript == Transcript([], None))
            && (o.Failed? ==> transcript == Transcript([], Some(o.error)))
            && (o.Finished? ==>
                  var rest := TranscriptOf(stream[o.consumed..]);
                  transcript == Transcript([o.request] + rest.requests, rest.error))
  {
    hide ParseRequest;
  }

  lemma RestOfStream(seen: string, later: string, n: nat)
    requires n <= |seen|
    ensures (seen + later)[n..] == seen[n..] + later
  {
  }

  /** The empty buffer, which the loop does not hand to the parser, is undecided too. */
  lemma NothingUndecided()
    ensures ParseRequest("").NeedMore?
  {
  }
}
