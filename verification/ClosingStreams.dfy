/** A response without a length: its body is what comes until the peer closes, in whatever pieces. */
module ClosingStreams {
  import opened Wrappers
  import opened Text
  import opened HeaderFields
  import opened HttpMessages
  import opened Lines
  import opened ResponseParser
  import opened WrittenResponses
  import opened ClientConnection
  import RequestPrinter
  import ResponsePrinter
  import WrittenRequests
  import Session

  /** Neither a length nor a coding is announced. */
  predicate Unannounced(fields: seq<Field>) {
    ValuesOf(fields, "content-length") == [] && ValuesOf(fields, "transfer-encoding") == []
  }

  predicate ClosesBody(
      verb: Method, version: nat, status: nat, reason: string, fields: seq<Field>, body: string) {
    && WellFormed(version, status, reason, fields) && Unannounced(fields) && !EndsWithHead(verb, status)
    && |LinesText(WrittenLines(version, status, reason, fields))| + 2 <= MAX_HEADER && |body| <= MAX_BODY
  }

  lemma {:induction false} NoLengthField(fields: seq<Field>, i: nat)
    requires ValuesOf(fields, "content-length") == [] && i < |fields|
    ensures !WrittenRequests.IsLength(fields[i])
  {
    hide SameName;
    if i > 0 {
      NoLengthField(fields[1..], i - 1);
    }
  }

  lemma NoneRefused(fields: seq<Field>)
    requires ValuesOf(fields, "content-length") == []
    ensures !SomeRefused(fields, 0)
  {
    hide ValuesOf, WrittenRequests.IsLength;
    forall i: nat | i < |fields| ensures !RefusedAt(fields, i) {
      NoLengthField(fields, i);
    }
  }

  /** Without the end of the stream the attempt waits, and nothing in it can be refused early. */
  lemma Waits(verb: Method, version: nat, status: nat, reason: string, fields: seq<Field>, body: string)
    requires ClosesBody(verb, version, status, reason, fields, body)
    ensures var text := Written(version, status, reason, fields, body);
            ParseResponse(verb, text, false) == NeedMore && Steady(verb, text) && text != ""
  {
    hide WellFormed, SomeRefused, ValuesOf, LinesText, IsLine, ParseHead, RequestPrinter.FieldLines, HeadMeans, Find,
      ResponsePrinter.StatusLineText, ParseResponse, WrittenRequests.AnnouncedLength, JoinItems;
    var lines, text := WrittenLines(version, status, reason, fields), Written(version, status, reason, fields, body);
    NoneRefused(fields);
    NothingAnnounced(fields);
    WrittenResponseRead(verb, version, status, reason, fields, body, false);
    WrittenHead(version, status, reason, fields);
    WrittenRequests.HeadEnds(lines, body);
    HeadParts(ParseHead(LinesText(lines)).value, version, status, reason, fields);
  }

  /** With it, the body is everything behind the head, and the connection is done for. */
  lemma EndsBody(verb: Method, version: nat, status: nat, reason: string, fields: seq<Field>, body: string)
    requires ClosesBody(verb, version, status, reason, fields, body)
    ensures var text := Written(version, status, reason, fields, body);
            var outcome := ParseResponse(verb, text, true);
            && outcome.Finished? && outcome.consumed == |text| && outcome.response.close
            && Means(outcome.response, version, status, reason, fields, body)
  {
    hide WellFormed, SomeRefused, ValuesOf, LinesText, WrittenLines, ParseResponse, Means,
      WrittenRequests.AnnouncedLength;
    NoneRefused(fields);
    NothingAnnounced(fields);
    WrittenResponseRead(verb, version, status, reason, fields, body, true);
    WrittenSize(version, status, reason, fields, body);
  }

  lemma WrittenSize(version: nat, status: nat, reason: string, fields: seq<Field>, rest: string)
    ensures |Written(version, status, reason, fields, rest)| ==
              |LinesText(WrittenLines(version, status, reason, fields))| + 2 + |rest|
  {
    hide LinesText, WrittenLines;
  }

  /** For all pieces: when the peer closes, the response is the one that was written, with all of the
      body; when the connection breaks instead, there is none. */
  lemma CloseDelimited(
      verb: Method, version: nat, status: nat, reason: string, fields: seq<Field>, body: string,
      pieces: seq<string>, closes: bool)
    requires ClosesBody(verb, version, status, reason, fields, body)
    requires Pieces(pieces, Written(version, status, reason, fields, body))
    ensures var reception := ReceiveFrom(verb, "", pieces, closes);
            if closes then
              && reception.Received? && Means(reception.response, version, status, reason, fields, body)
              && reception.response.close && reception.rest == "" && !reception.reusable && reception.atEnd
            else reception == Broken(ReceiveFailed)
  {
    hide ClosesBody, ParseResponse, Steady, Written, Means;
    var text := Written(version, status, reason, fields, body);
    Waits(verb, version, status, reason, fields, body);
    EndsBody(verb, version, status, reason, fields, body);
    assert "" + Session.Flatten(pieces) == text;
    PiecesDoNotMatter(verb, "", pieces, closes);
  }
}
