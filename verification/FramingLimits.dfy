/** Messages for which framing does not keep its promise: one for each of the exact conditions. */
module FramingLimits {
  import opened Wrappers
  import opened Text
  import opened Numbers
  import opened HeaderFields
  import opened HttpMessages
  import opened Lines
  import opened ResponseParser
  import opened ResponseFraming
  import opened ChunkedBody
  import RequestParser
  import RequestPrinter
  import RequestRoundTrip
  import ResponsePrinter
  import ResponseRoundTrip
  import Server

  const CODING: Field := Field("Transfer-Encoding", "chunked")

  function ChunkedHead(): seq<string> {
    [ResponsePrinter.StatusLineText(0x11, 200, "OK"), FieldLine(CODING)]
  }

  lemma CodingPrintable()
    ensures PrintableField(CODING)
  {
  }

  lemma CodingAdded()
    ensures AddField(NO_FIELDS, CODING) == Ok(NO_FIELDS.(coding := Some("chunked")))
  {
    hide Put, RequestParser.ParseContentLength;
    assert |CODING.name| == 17 && |"content-length"| == 14;
  }

  lemma CodingFinal()
    ensures IsFinalChunked(Items("chunked", 0))
  {
    hide Trim, SameName;
    assert Items("chunked", 0) == ["chunked"];
    TrimOfTrimmed("chunked");
    assert CodingOf("chunked") == "chunked";
    assert SameName("chunked", "chunked") by { SameItself("chunked"); }
  }

  lemma ChunkedHeadParsed()
    ensures ParseHead(LinesText(ChunkedHead())) ==
            Ok(Head(StatusLine(0x11, 200, "OK"), NO_FIELDS.(coding := Some("chunked"))))
    ensures forall line :: line in ChunkedHead() ==> IsLine(line)
  {
    hide At, ParseStatusLine, ResponsePrinter.StatusLineText, FieldLine, IsLine, ParseFields, AddField;
    var lines := ChunkedHead();
    var head, rest := LinesText(lines), LinesText(lines[1..]);
    CodingPrintable();
    CodingAdded();
    FieldLineIsLine(CODING);
    ResponseRoundTrip.StatusLineRoundTrip(0x11, 200, "OK");
    assert lines[1..] == RequestPrinter.FieldLines([CODING]);
    assert head[0..] == lines[0] + (CRLF + rest);
    SplitLine(head, 0, lines[0], rest);
    ResponseRoundTrip.FieldsRoundTrip(head, |lines[0]| + 2, [CODING], NO_FIELDS);
    assert [CODING][1..] == [];
  }

  lemma ChunkedStart(after: string)
    ensures var head := LinesText(ChunkedHead());
            |head| <= 100 &&
            StartOf(GET, head + (CRLF + after)) ==
              Some(Start(Head(StatusLine(0x11, 200, "OK"), NO_FIELDS.(coding := Some("chunked"))), Chunked, |head| + 2))
  {
    hide At, ParseHead, IsLine, IsFinalChunked;
    var head := LinesText(ChunkedHead());
    var text := head + (CRLF + after);
    ChunkedHeadParsed();
    CodingFinal();
    HeadLength();
    BlankLineBehind(ChunkedHead(), after);
    FindIs(text, CRLFCRLF, 0, |head| - 2);
    assert text[..|head|] == head;
  }

  lemma HeadLength()
    ensures |LinesText(ChunkedHead())| <= 100
  {
    ThreeDigits(200);
    ResponseRoundTrip.VersionLength(0x11);
  }

  /** A response with an empty body whose only size line carries an extension of 65536 bytes: it is
      accepted when it arrives whole, and refused when it arrives in certain pieces. */
  lemma AcceptedOnlyWhole() returns (input: string, k: nat)
    ensures ParseResponse(GET, input, false).Finished? && ParseResponse(GET, input, false).consumed == |input|
    ensures k < |input| && ParseResponse(GET, input[..k], false) == Failed(HEADER_TOO_LARGE)
  {
    hide StartOf, ParseResponse, Encode, EncodeEnd, LinesText, Quiet;
    var extensions := seq(MAX_HEADER, i => ';');
    input := LinesText(ChunkedHead()) + (CRLF + Encode([], EncodeEnd(extensions, [], "")));
    LongLine(input, extensions);
    k := RefusedEarly(input);
  }

  lemma RefusedEarly(input: string) returns (k: nat)
    requires ParseResponse(GET, input, false).Finished? && ParseResponse(GET, input, false).consumed == |input|
    requires !Quiet(GET, input)
    ensures k < |input| && ParseResponse(GET, input[..k], false) == Failed(HEADER_TOO_LARGE)
  {
    hide ParseResponse, Quiet, Impatient;
    PrefixExact(GET, input);
    k :| 0 <= k < |input| && !Undecided(GET, input, k);
    PrefixOutcome(GET, input, k);
    ImpatientFails(GET, input[..k]);
  }

  lemma LongLine(input: string, extensions: string)
    requires ValidExtensions(extensions) && MAX_HEADER <= |extensions| <= MAX_HEADER
    requires input == LinesText(ChunkedHead()) + (CRLF + Encode([], EncodeEnd(extensions, [], "")))
    ensures ParseResponse(GET, input, false).Finished? && ParseResponse(GET, input, false).consumed == |input|
    ensures !Quiet(GET, input)
  {
    hide StartOf, ParseResponse, ParseChunks, LinesText, ReadChunk, ValidExtensions;
    var after, head := Encode([], EncodeEnd(extensions, [], "")), LinesText(ChunkedHead());
    ChunkedStart(after);
    assert input[|head| + 2..] == after;
    assert NumberText(0, 16) == "0";
    ChunkedResponseRead(GET, input, [], extensions, [], "");
    SizeLineRead(0, extensions);
    SplitLine(input, |head| + 2, SizeLine(0, extensions), CRLF + "");
  }

  const ANNOUNCED: Field := Field("Content-Length", "5")

  const CONTRADICTION: HttpRequest := HttpRequest(GET, 0x11, false, false, "/", "", "", "", [ANNOUNCED])

  lemma AnnouncedPrintable()
    ensures PrintableField(ANNOUNCED)
  {
    hide IsTokenCharacter;
    AnnouncedLetters();
  }

  lemma AnnouncedLetters()
    ensures forall i :: 0 <= i < |"Content-Length"| ==> IsTokenCharacter("Content-Length"[i])
  {
  }

  lemma FiveRead()
    ensures RequestParser.ParseContentLength("5") == Some(5)
  {
    hide Trim;
    TrimOfTrimmed("5");
  }

  lemma AnnouncedRead()
    ensures PrintableField(ANNOUNCED) && RequestParser.ParseContentLength("5") == Some(5)
  {
    hide PrintableField, RequestParser.ParseContentLength;
    AnnouncedPrintable();
    FiveRead();
  }

  lemma AnnouncedKept()
    ensures RequestRoundTrip.KeptFields(CONTRADICTION) == [ANNOUNCED]
  {
    assert |ANNOUNCED.name| == 14 && |"connection"| == 10;
  }

  lemma HeadersOrdered()
    ensures Sorted(CONTRADICTION.headers)
  {
  }

  lemma ContradictionPrintable()
    ensures RequestRoundTrip.Printable(CONTRADICTION)
  {
    hide PrintableField, Sorted, RequestPrinter.HeadLines, LinesText, RequestParser.ParseContentLength;
    HeadersOrdered();
    AnnouncedRead();
    ContradictionLength();
  }

  lemma ContradictionRead()
    ensures RequestRoundTrip.Acceptable(ANNOUNCED) && RequestRoundTrip.LengthIn([ANNOUNCED]) == Some(5)
  {
    hide RequestParser.ParseContentLength, PrintableField;
    AnnouncedRead();
    assert SameName(ANNOUNCED.name, "content-length");
    OtherLength("Content-Length", "transfer-encoding");
  }

  /** A request without a body that carries a Content-Length of 5: the reader of its printed text
      waits for five bytes that are never sent. */
  lemma LengthWithoutBody()
    ensures RequestRoundTrip.Printable(CONTRADICTION)
    ensures RequestParser.ParseRequest(RequestPrinter.DumpText(CONTRADICTION)) == RequestParser.NeedMore
  {
    hide RequestParser.ParseRequest, RequestPrinter.DumpText, RequestRoundTrip.Acceptable, RequestRoundTrip.LengthIn,
      RequestRoundTrip.HeadersReadBack, RequestRoundTrip.AddAll, PrintableField, Sorted, LinesText,
      RequestPrinter.HeadLines, RequestPrinter.PrintedFields;
    ContradictionPrintable();
    AnnouncedKept();
    ContradictionRead();
    RequestRoundTrip.PrintedFieldsRead(CONTRADICTION);
    RequestRoundTrip.Delivered(CONTRADICTION,
      RequestRoundTrip.AddAll(RequestParser.NO_FIELDS, RequestPrinter.PrintedFields(CONTRADICTION)));
  }

  lemma ContradictionLength()
    ensures |LinesText(RequestPrinter.HeadLines(CONTRADICTION))| <= 200
  {
    hide NumberText;
    AnnouncedKept();
    var connection := RequestPrinter.ConnectionField(false);
    assert RequestPrinter.PrintedFields(CONTRADICTION) == [ANNOUNCED, connection];
    assert RequestPrinter.FieldLines([ANNOUNCED, connection]) == [FieldLine(ANNOUNCED), FieldLine(connection)];
    VersionShort();
    var first := RequestPrinter.FirstLine(CONTRADICTION);
    LengthOfThree(first, FieldLine(ANNOUNCED), FieldLine(connection));
  }

  lemma VersionShort()
    ensures |RequestPrinter.FirstLine(CONTRADICTION)| <= 100
  {
    hide RequestPrinter.VersionText;
    ResponseRoundTrip.VersionLength(0x11);
    assert METHOD_NAMES[GET] == "GET";
  }

  lemma LengthOfThree(a: string, b: string, c: string)
    ensures |LinesText([a] + [b, c])| == |a| + |b| + |c| + 6
  {
    var lines := [a] + [b, c];
    assert lines[0] == a && lines[1..] == [b, c] && [b, c][1..] == [c] && [c][1..] == [];
    assert LinesText([c]) == c + (CRLF + "");
    assert LinesText([b, c]) == b + (CRLF + LinesText([c]));
    assert LinesText(lines) == a + (CRLF + LinesText([b, c]));
  }

  /** A servlet that answers with one byte. */
  function OneByte(request: HttpRequest, response: HttpResponse): (HttpResponse, bool) {
    (response.(body := "x"), false)
  }

  const OBLIGING := Server.Settings("droplet", true, Some(OneByte), map[200 := "OK"])

  /** What it sends, also to CONNECT. */
  function OneByteAnswer(version: nat, close: bool): HttpResponse {
    HttpResponse(200, version, close, false, "", "x", [Field("Server", "droplet")], [])
  }

  lemma OneByteAnswered(request: HttpRequest)
    requires request.verb == CONNECT
    ensures Server.Answer(request, OBLIGING) == OneByteAnswer(request.version, request.close)
  {
  }

  lemma ServerPrintable()
    ensures PrintableField(Field("Server", "droplet"))
  {
  }

  lemma ServerKept()
    ensures Sorted([Field("Server", "droplet")])
    ensures Kept([Field("Server", "droplet")], true, true) == [Field("Server", "droplet")]
  {
    hide PrintableField, SameName;
    OtherLength("Server", "connection");
    OtherLength("Server", "content-length");
  }


  lemma OneByteLength(version: nat, close: bool)
    requires version == 0x10 || version == 0x11
    ensures |LinesText(ResponsePrinter.HeadLines(OneByteAnswer(version, close), OBLIGING.phrases))| <= 200
  {
    hide NumberText, PrintableField, Kept, Sorted;
    ServerKept();
    var answer, server := OneByteAnswer(version, close), Field("Server", "droplet");
    var connection, length := RequestPrinter.ConnectionField(close), RequestPrinter.LengthField(1);
    assert NumberText(1, 10) == "1" by { OneDigit(); }
    assert ResponsePrinter.ResponseFields(answer) == [server, connection, length];
    assert RequestPrinter.FieldLines([server, connection, length]) ==
           [FieldLine(server), FieldLine(connection), FieldLine(length)];
    ThreeDigits(200);
    ResponseRoundTrip.VersionLength(version);
    LengthOfFour(ResponsePrinter.FirstLine(answer, OBLIGING.phrases),
                 FieldLine(server), FieldLine(connection), FieldLine(length));
  }

  lemma OneDigit()
    ensures NumberText(1, 10) == "1"
  {
  }

  lemma LengthOfFour(a: string, b: string, c: string, d: string)
    ensures |LinesText([a] + [b, c, d])| == |a| + |b| + |c| + |d| + 8
  {
    var lines := [a] + [b, c, d];
    assert lines[0] == a && lines[1..] == [b] + [c, d];
    LengthOfThree(b, c, d);
    assert LinesText(lines) == a + (CRLF + LinesText([b] + [c, d]));
  }

  lemma OneBytePrintable(version: nat, close: bool)
    requires version == 0x10 || version == 0x11
    ensures ResponseRoundTrip.Printable(OneByteAnswer(version, close), OBLIGING.phrases)
  {
    hide PrintableField, Sorted, ResponsePrinter.HeadLines, LinesText, Kept;
    ServerPrintable();
    ServerKept();
    OneByteLength(version, close);
  }

  /** To the client that sent a CONNECT, the answer ends before its body: the byte is left in front
      of what follows. */
  lemma ConnectBodyLeftOver(request: HttpRequest, rest: string)
    requires request.verb == CONNECT && (request.version == 0x10 || request.version == 0x11)
    ensures var answer := Server.Answer(request, OBLIGING);
            ResponseRoundTrip.ReadAll([CONNECT], ResponsePrinter.DumpText(answer, OBLIGING.phrases) + rest) ==
              Some(([ResponseRoundTrip.ReadBack(answer, OBLIGING.phrases).(body := "")], "x" + rest))
  {
    hide Server.Answer, ResponseRoundTrip.ReadAll, ResponsePrinter.DumpText, ResponseRoundTrip.ReadBack,
      ResponseRoundTrip.Printable;
    OneByteAnswered(request);
    OneBytePrintable(request.version, request.close);
    ResponseRoundTrip.FirstRead(ResponseRoundTrip.Exchange(CONNECT, OneByteAnswer(request.version, request.close)),
                                OBLIGING.phrases, rest);
  }
}
