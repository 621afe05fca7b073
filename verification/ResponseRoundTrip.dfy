/** Parsing what `HttpResponse::dump` printed, one response and a whole pipeline of them. */
module ResponseRoundTrip {
  import opened Wrappers
  import opened Text
  import opened Numbers
  import opened HeaderFields
  import opened HttpMessages
  import opened Lines
  import opened ResponseParser
  import opened ResponseFraming
  import opened ResponsePrinter
  import RequestParser
  import RequestPrinter
  import RequestRoundTrip

  /** The header list read field by field. */
  function AddAll(fields: Fields, list: seq<Field>): Result<Fields, ParseError>
    decreases |list|
  {
    if list == [] then Ok(fields)
    else
      match AddField(fields, list[0])
      case Err(error) => Err(error)
      case Ok(more) => AddAll(more, list[1..])
  }

  /** Reading printed header lines gives the printed fields, one by one. */
  lemma {:induction false} FieldsRoundTrip(head: string, begin: nat, list: seq<Field>, fields: Fields)
    requires begin <= |head| && head[begin..] == LinesText(RequestPrinter.FieldLines(list))
    requires forall field :: field in list ==> PrintableField(field)
    ensures ParseFields(head, begin, fields) == AddAll(fields, list)
    decreases |list|
  {
    hide At, ParseField, AddField, FieldLine;
    if list != [] {
      var field := list[0];
      var line, end := FieldLine(field), begin + |FieldLine(field)|;
      var rest := LinesText(RequestPrinter.FieldLines(list[1..]));
      FieldLineIsLine(field);
      FieldRoundTrip(field);
      assert RequestPrinter.FieldLines(list)[1..] == RequestPrinter.FieldLines(list[1..]);
      assert head[begin..] == line + (CRLF + rest);
      SplitLine(head, begin, line, rest);
      match AddField(fields, field) {
        case Err(_) =>
        case Ok(more) => FieldsRoundTrip(head, end + 2, list[1..], more);
      }
    }
  }

  lemma AddAllOfConcat(fields: Fields, a: seq<Field>, b: seq<Field>)
    ensures AddAll(fields, a + b) ==
            match AddAll(fields, a)
            case Err(error) => Err(error)
            case Ok(more) => AddAll(more, b)
    decreases |a|
  {
    hide AddField;
    if a == [] {
      assert a + b == b;
    } else {
      assert (a + b)[1..] == a[1..] + b;
      match AddField(fields, a[0]) {
        case Err(_) =>
        case Ok(more) => AddAllOfConcat(more, a[1..], b);
      }
    }
  }

  /** A field that is stored in the map and nowhere else. */
  predicate Ordinary(name: string) {
    && !SameName(name, "content-length") && !SameName(name, "transfer-encoding")
    && !SameName(name, "connection") && !SameName(name, "set-cookie")
  }

  /** Reading the ordinary fields of a sorted map rebuilds the map. */
  lemma {:induction false} AddSorted(fields: Fields, list: Headers)
    requires Sorted(fields.headers + list)
    requires forall i :: 0 <= i < |list| ==> Ordinary(list[i].name)
    ensures AddAll(fields, list) == Ok(fields.(headers := fields.headers + list))
    decreases |list|
  {
    hide SameName;
    var done := fields.headers;
    if list == [] {
      assert done + list == done;
    } else {
      var field, more := list[0], done + [list[0]];
      assert more + list[1..] == done + list;
      forall i | 0 <= i < |done| ensures NameLess(done[i].name, field.name) {
        assert (done + list)[i] == done[i] && (done + list)[|done|] == field;
      }
      PutAtEnd(done, field.name, field.value);
      assert Ordinary(field.name);
      AddSorted(fields.(headers := more), list[1..]);
    }
  }

  /** Reading the cookie lines rebuilds the list of cookies, in order. */
  lemma {:induction false} AddCookies(fields: Fields, cookies: seq<string>)
    ensures AddAll(fields, CookieFields(cookies)) == Ok(fields.(cookies := fields.cookies + cookies))
    decreases |cookies|
  {
    hide AddField;
    if cookies == [] {
      assert fields.cookies + [] == fields.cookies;
    } else {
      var more := fields.(cookies := fields.cookies + [cookies[0]]);
      CookieRead(fields, cookies[0]);
      assert CookieFields(cookies)[1..] == CookieFields(cookies[1..]);
      assert more.cookies + cookies[1..] == fields.cookies + cookies;
      AddCookies(more, cookies[1..]);
    }
  }

  lemma CookieRead(fields: Fields, cookie: string)
    ensures AddField(fields, Field("Set-Cookie", cookie)) == Ok(fields.(cookies := fields.cookies + [cookie]))
  {
    assert SameName("Set-Cookie", "set-cookie") by { CookieName(); }
    hide SameName, Put, RequestParser.ParseContentLength;
    OtherLength("Set-Cookie", "content-length");
    OtherLength("Set-Cookie", "transfer-encoding");
    OtherFirst("Set-Cookie", "connection");
  }

  lemma CookieName()
    ensures SameName("Set-Cookie", "set-cookie")
  {
  }

  lemma ConnectionRead(fields: Fields, close: bool)
    requires fields.connection.None?
    ensures var field := RequestPrinter.ConnectionField(close);
            AddField(fields, field) == Ok(fields.(connection := Some(field.value)))
  {
  }

  lemma LengthRead(fields: Fields, length: nat)
    requires length < U64_LIMIT && fields.length.None?
    ensures var field := RequestPrinter.LengthField(length);
            AddField(fields, field) ==
              Ok(fields.(length := Some(length), headers := Put(fields.headers, field.name, field.value)))
  {
    hide Put, RequestParser.ParseContentLength, NumberText;
    RequestRoundTrip.LengthTextRead(length);
  }

  function KeptFields(response: HttpResponse): Headers {
    Kept(response.headers, true, true)
  }

  /** The fields that are read back from the printed lines. */
  function FieldsReadBack(response: HttpResponse): Fields {
    var length := RequestPrinter.LengthField(|response.body|);
    var all := Fields(KeptFields(response), response.cookies, None, None,
                      Some(RequestPrinter.ConnectionField(response.close).value));
    if AllowsBody(response.status)
    then all.(length := Some(|response.body|), headers := Put(all.headers, length.name, length.value))
    else all
  }

  /** The responses whose parts are what their names say, within the limits of the parser. */
  predicate Printable(response: HttpResponse, phrases: Phrases) {
    && !response.websocket && (response.version == 0x10 || response.version == 0x11)
    && 100 <= response.status <= 999 && IsValidHeaderValue(ReasonText(response, phrases))
    && Sorted(response.headers)
    && (forall i :: 0 <= i < |response.headers| ==> PrintableField(response.headers[i]))
    && (forall i :: 0 <= i < |response.headers| ==>
          !SameName(response.headers[i].name, "transfer-encoding") && !SameName(response.headers[i].name, "set-cookie"))
    && (forall i :: 0 <= i < |response.cookies| ==> PrintableField(Field("Set-Cookie", response.cookies[i])))
    && |LinesText(HeadLines(response, phrases))| + 2 <= MAX_HEADER && |response.body| <= MAX_BODY
  }

  lemma KeptOrdinary(response: HttpResponse, phrases: Phrases)
    requires Printable(response, phrases)
    ensures Sorted(KeptFields(response))
    ensures forall i :: 0 <= i < |KeptFields(response)| ==>
              Ordinary(KeptFields(response)[i].name) && PrintableField(KeptFields(response)[i])
  {
    hide SameName, PrintableField, Kept;
    var kept := KeptFields(response);
    KeptSorted(response.headers, true, true);
    forall i | 0 <= i < |kept| ensures Ordinary(kept[i].name) && PrintableField(kept[i]) {
      KeptMember(response.headers, true, true, i);
      var j :| 0 <= j < |response.headers| && response.headers[j] == kept[i];
    }
  }

  /** Reading all printed fields. */
  lemma PrintedFieldsRead(response: HttpResponse, phrases: Phrases)
    requires Printable(response, phrases)
    ensures AddAll(NO_FIELDS, ResponseFields(response)) == Ok(FieldsReadBack(response))
  {
    hide AddField, Put, Kept, CookieFields, RequestPrinter.ConnectionField, RequestPrinter.LengthField, SameName,
      PrintableField, HeadLines, LinesText, IsValidHeaderValue, AllowsBody;
    var kept, cookies := KeptFields(response), CookieFields(response.cookies);
    var connection := RequestPrinter.ConnectionField(response.close);
    var length := RequestPrinter.LengthField(|response.body|);
    var own := [connection] + if AllowsBody(response.status) then [length] else [];
    assert ResponseFields(response) == kept + (cookies + own);
    AddAllOfConcat(NO_FIELDS, kept, cookies + own);
    KeptOrdinary(response, phrases);
    assert [] + kept == kept;
    AddSorted(NO_FIELDS, kept);
    var stored := NO_FIELDS.(headers := kept);
    AddAllOfConcat(stored, cookies, own);
    AddCookies(stored, response.cookies);
    assert [] + response.cookies == response.cookies;
    OwnFieldsRead(response, stored.(cookies := response.cookies));
  }

  lemma OwnFieldsRead(response: HttpResponse, fields: Fields)
    requires fields == Fields(KeptFields(response), response.cookies, None, None, None)
    requires |response.body| < U64_LIMIT
    ensures var connection := RequestPrinter.ConnectionField(response.close);
            var length := RequestPrinter.LengthField(|response.body|);
            AddAll(fields, [connection] + if AllowsBody(response.status) then [length] else []) ==
              Ok(FieldsReadBack(response))
  {
    hide AddField, Put, Kept, RequestPrinter.ConnectionField, RequestPrinter.LengthField, AllowsBody;
    var connection := RequestPrinter.ConnectionField(response.close);
    var length := RequestPrinter.LengthField(|response.body|);
    var own := [connection] + if AllowsBody(response.status) then [length] else [];
    ConnectionRead(fields, response.close);
    var more := fields.(connection := Some(connection.value));
    assert AddAll(fields, own) == AddAll(more, own[1..]);
    if AllowsBody(response.status) {
      LengthRead(more, |response.body|);
      assert own[1..] == [length] && own[1..][1..] == [];
    }
  }

  /** The status line is read back. */
  lemma StatusLineRoundTrip(version: nat, status: nat, reason: string)
    requires version == 0x10 || version == 0x11
    requires 100 <= status <= 999 && IsValidHeaderValue(reason)
    ensures ParseStatusLine(StatusLineText(version, status, reason)) == Ok(StatusLine(version, status, reason))
    ensures IsLine(StatusLineText(version, status, reason))
  {
    hide ParseStatusLine, RequestPrinter.VersionText, NumberText, IsLine, RequestParser.VersionNamed;
    var first, digits := RequestPrinter.VersionText(version), NumberText(status, 10);
    RequestRoundTrip.VersionRoundTrip(version);
    VersionLength(version);
    ThreeDigits(status);
    ParsePrinted(status, 10, 0x1_0000);
    DigitsAreLine(status);
    CutStatusLine(StatusLineText(version, status, reason), first, digits, reason, version, status);
    StatusLineIsLine(first, digits, reason);
  }

  lemma VersionLength(version: nat)
    requires version == 0x10 || version == 0x11
    ensures |RequestPrinter.VersionText(version)| == 8
  {
    assert NumberText(1, 10) == "1" && NumberText(0, 10) == "0";
  }

  lemma DigitsAreLine(n: nat)
    ensures var text := NumberText(n, 10);
            IsLine(text) && RequestRoundTrip.Without(text, ' ')
  {
    var text := NumberText(n, 10);
    NumberRoundTrip(n, 10);
    forall i | 0 <= i < |text| ensures text[i] != ' ' && IsLineCharacter(text[i]) {
      assert IsLowerDigit(text[i]);
    }
  }

  lemma CutStatusLine(line: string, first: string, digits: string, reason: string, version: nat, status: nat)
    requires line == first + ([' '] + (digits + ([' '] + reason)))
    requires |first| == 8 && |digits| == 3 && RequestRoundTrip.Without(digits, ' ')
    requires RequestParser.VersionNamed(first) == Some(version) && ParseNumber(digits, 10, 0x1_0000) == Some(status)
    requires 100 <= status <= 999 && IsValidHeaderValue(reason)
    ensures ParseStatusLine(line) == Ok(StatusLine(version, status, reason))
  {
    hide RequestParser.VersionNamed, IsValidHeaderValue, ParseNumber;
    assert line[8] == ' ' && line[..8] == first && line[12] == ' ';
    forall i | 9 <= i < 12 ensures line[i] != ' ' {
      assert line[i] == digits[i - 9];
    }
    FindCharIs(line, ' ', 9, 12);
    assert line[9..12] == digits && line[13..] == reason;
  }

  lemma StatusLineIsLine(first: string, digits: string, reason: string)
    requires IsLine(first) && IsLine(digits) && IsValidHeaderValue(reason)
    ensures IsLine(first + ([' '] + (digits + ([' '] + reason))))
  {
    var line, n, m := first + ([' '] + (digits + ([' '] + reason))), |first|, |first| + 1 + |digits|;
    forall i | 0 <= i < |line| ensures IsLineCharacter(line[i]) {
      if n < i < m {
        assert line[i] == digits[i - n - 1];
      } else if m < i {
        assert line[i] == reason[i - m - 1] && IsValueCharacter(reason[i - m - 1]);
      }
    }
  }

  lemma PrintedFieldsPrintable(response: HttpResponse, phrases: Phrases)
    requires Printable(response, phrases)
    ensures forall field :: field in ResponseFields(response) ==> PrintableField(field)
  {
    hide PrintableField, Kept, SameName, Sorted, HeadLines, LinesText, IsValidHeaderValue;
    var fields, kept, cookies := ResponseFields(response), KeptFields(response), CookieFields(response.cookies);
    RequestRoundTrip.OwnFieldsPrintable(response.close, |response.body|);
    KeptOrdinary(response, phrases);
    forall field | field in kept ensures PrintableField(field) {
      var i :| 0 <= i < |kept| && kept[i] == field;
    }
    forall field | field in cookies ensures PrintableField(field) {
      var i :| 0 <= i < |cookies| && cookies[i] == field;
    }
  }

  /** The head of the printed text, parsed. */
  lemma HeadRoundTrip(response: HttpResponse, phrases: Phrases)
    requires Printable(response, phrases)
    ensures ParseHead(LinesText(HeadLines(response, phrases))) ==
            Ok(Head(StatusLine(response.version, response.status, ReasonText(response, phrases)),
                    FieldsReadBack(response)))
    ensures forall line :: line in HeadLines(response, phrases) ==> IsLine(line)
  {
    hide At, ParseStatusLine, StatusLineText, ParseFields, AddAll, PrintableField, IsLine, FieldLine,
      RequestPrinter.FieldLines,
      ReasonText, Kept, CookieFields, LinesText, SameName, Sorted, Put;
    var first, fields := FirstLine(response, phrases), ResponseFields(response);
    var head, rest := LinesText(HeadLines(response, phrases)), LinesText(RequestPrinter.FieldLines(fields));
    StatusLineRoundTrip(response.version, response.status, ReasonText(response, phrases));
    RequestPrinter.HeadText(first, fields);
    assert head[0..] == head;
    SplitLine(head, 0, first, rest);
    PrintedFieldsPrintable(response, phrases);
    FieldsRoundTrip(head, |first| + 2, fields, NO_FIELDS);
    PrintedFieldsRead(response, phrases);
    forall line | line in RequestPrinter.FieldLines(fields) ensures IsLine(line) {
      var i :| 0 <= i < |RequestPrinter.FieldLines(fields)| && RequestPrinter.FieldLines(fields)[i] == line;
      assert fields[i] in fields;
      FieldLineIsLine(fields[i]);
    }
  }

  /** Where the printed text is cut into head and body. */
  lemma PrintedHeadEnd(response: HttpResponse, phrases: Phrases)
    requires forall line :: line in HeadLines(response, phrases) ==> IsLine(line)
    ensures var text, head := DumpText(response, phrases), LinesText(HeadLines(response, phrases));
            && 2 <= |head| && |text| == |head| + 2 + |PrintedBody(response)|
            && Find(text, CRLFCRLF, 0) == Some(|head| - 2)
            && text[..|head|] == head && text[|head| + 2..] == PrintedBody(response)
  {
    hide At, LinesText, HeadLines, IsLine;
    var text, head := DumpText(response, phrases), LinesText(HeadLines(response, phrases));
    assert HeadLines(response, phrases) != [] by { HasFirstLine(response, phrases); }
    BlankLineBehind(HeadLines(response, phrases), PrintedBody(response));
    FindIs(text, CRLFCRLF, 0, |head| - 2);
    RequestRoundTrip.HeadAndBody(head, PrintedBody(response));
  }

  lemma HasFirstLine(response: HttpResponse, phrases: Phrases)
    ensures HeadLines(response, phrases) != []
  {
  }

  lemma CloseReadBack(response: HttpResponse)
    ensures ClosesAfter(response.version, StoredHeaders(FieldsReadBack(response))) == response.close
  {
    hide ClosesAfter, Put, Kept;
    var headers, value := FieldsReadBack(response).headers, RequestPrinter.ConnectionField(response.close).value;
    GetAfterPut(headers, "Connection", value, "connection");
    RequestRoundTrip.CloseRoundTrip(response.version, StoredHeaders(FieldsReadBack(response)), response.close);
  }

  /** What is read back: the printed reason and body, and the printed fields stored by name. */
  function ReadBack(response: HttpResponse, phrases: Phrases): HttpResponse {
    response.(reason := ReasonText(response, phrases), body := PrintedBody(response),
              headers := StoredHeaders(FieldsReadBack(response)))
  }

  /** Every header of the response is read back with its value, but for the two that the printer writes
      itself. */
  lemma HeadersSurvive(response: HttpResponse, phrases: Phrases, name: string)
    ensures Get(ReadBack(response, phrases).headers, name) ==
              if SameName(name, "connection") then Some(if response.close then "close" else "keep-alive")
              else if SameName(name, "content-length") then
                if AllowsBody(response.status) then Some(NumberText(|response.body|, 10)) else None
              else Get(response.headers, name)
  {
    KeptValue(response.headers, true, true, name);
    hide Kept, Put, Get, SameName, NumberText, AllowsBody;
    var kept := KeptFields(response);
    var connection := RequestPrinter.ConnectionField(response.close);
    var length := RequestPrinter.LengthField(|response.body|);
    RequestRoundTrip.StoredUnder(kept, length.name, "content-length", length.value, name);
    var headers := FieldsReadBack(response).headers;
    RequestRoundTrip.StoredUnder(headers, connection.name, "connection", connection.value, name);
  }

  /** The body that is printed is one the reader of the response expects: a response that ends
      with its head (for this request method) is printed without body bytes. */
  predicate InStep(verb: Method, response: HttpResponse) {
    HasNoBody(verb, response.status) ==> PrintedBody(response) == ""
  }

  /** Printer and parser agree on where the body ends, exactly when the response is in step with
      the request method; otherwise the body bytes are left over for the next response. */
  lemma ResponseRoundTrip(verb: Method, response: HttpResponse, phrases: Phrases)
    requires Printable(response, phrases)
    ensures InStep(verb, response) <==>
            ParseResponse(verb, DumpText(response, phrases), false) ==
            Finished(ReadBack(response, phrases), |DumpText(response, phrases)|)
    ensures !InStep(verb, response) ==>
            ParseResponse(verb, DumpText(response, phrases), false) ==
            Finished(ReadBack(response, phrases).(body := ""), |DumpText(response, phrases)| - |PrintedBody(response)|)
  {
    hide At, ParseHead, Put, Kept, FieldLine, LinesText, HeadLines, DumpText, ClosesAfter, StoredHeaders,
      PrintableField, Sorted, SameName, IsValidHeaderValue, ReasonText;
    var text, head := DumpText(response, phrases), LinesText(HeadLines(response, phrases));
    HeadRoundTrip(response, phrases);
    PrintedHeadEnd(response, phrases);
    CloseReadBack(response);
    hide ParseResponse, Deliver, Find, Printable, FieldsReadBack, ReadBack, PrintedBody, InStep;
    HeadFits(response, phrases);
    DeliveredAt(verb, text, |head| - 2);
    BodyBehind(text, |head| + 2, PrintedBody(response));
    PrintedDelivered(verb, response, phrases, text, |head| + 2);
  }

  lemma HeadFits(response: HttpResponse, phrases: Phrases)
    requires Printable(response, phrases)
    ensures |LinesText(HeadLines(response, phrases))| + 2 <= MAX_HEADER
  {
  }

  lemma DeliveredAt(verb: Method, text: string, headerEnd: nat)
    requires Find(text, CRLFCRLF, 0) == Some(headerEnd) && headerEnd + 4 <= MAX_HEADER && headerEnd + 4 <= |text|
    ensures ParseResponse(verb, text, false) ==
            Deliver(ParseHead(text[..headerEnd + 2]), verb, text, headerEnd + 4, false)
  {
    hide ParseHead, Deliver, Find;
  }

  lemma BodyBehind(text: string, k: nat, body: string)
    requires k + |body| == |text| && text[k..] == body
    ensures text[k..k + |body|] == body && text[k..k + 0] == ""
  {
  }

  lemma PrintedDelivered(verb: Method, response: HttpResponse, phrases: Phrases, text: string, headerSize: nat)
    requires Printable(response, phrases)
    requires headerSize <= |text| == headerSize + |PrintedBody(response)| && headerSize <= MAX_HEADER
    requires text[headerSize..headerSize + |PrintedBody(response)|] == PrintedBody(response)
    requires text[headerSize..headerSize + 0] == ""
    requires ClosesAfter(response.version, StoredHeaders(FieldsReadBack(response))) == response.close
    ensures var line := StatusLine(response.version, response.status, ReasonText(response, phrases));
            var outcome := Deliver(Ok(Head(line, FieldsReadBack(response))), verb, text, headerSize, false);
            outcome == if InStep(verb, response) then Finished(ReadBack(response, phrases), |text|)
                       else Finished(ReadBack(response, phrases).(body := ""), headerSize)
  {
    hide Put, Kept, ClosesAfter, StoredHeaders, PrintableField, Sorted, SameName, IsValidHeaderValue, ReasonText,
      LinesText, HeadLines;
    assert FieldsReadBack(response).coding == None;
  }

  datatype Exchange = Exchange(verb: Method, response: HttpResponse)

  /** The bytes of a connection that carries the responses of some exchanges. */
  function DumpAll(exchanges: seq<Exchange>, phrases: Phrases): string {
    if exchanges == [] then "" else DumpText(exchanges[0].response, phrases) + DumpAll(exchanges[1..], phrases)
  }

  /** A reader that parses one response after the other, knowing the request methods; the second
      component is what is left of the stream. */
  function ReadAll(verbs: seq<Method>, stream: string): Option<(seq<HttpResponse>, string)>
    decreases |verbs|
  {
    if verbs == [] then Some(([], stream))
    else
      match ParseResponse(verbs[0], stream, false)
      case Finished(response, n) =>
        (match ReadAll(verbs[1..], stream[n..])
         case Some(more) => Some(([response] + more.0, more.1))
         case None => None)
      case _ => None
  }

  function Verbs(exchanges: seq<Exchange>): (r: seq<Method>)
    ensures |r| == |exchanges|
  {
    if exchanges == [] then [] else [exchanges[0].verb] + Verbs(exchanges[1..])
  }

  function ReadBacks(exchanges: seq<Exchange>, phrases: Phrases): (r: seq<HttpResponse>)
    ensures |r| == |exchanges|
    ensures forall i :: 0 <= i < |r| ==> r[i] == ReadBack(exchanges[i].response, phrases)
  {
    if exchanges == [] then [] else [ReadBack(exchanges[0].response, phrases)] + ReadBacks(exchanges[1..], phrases)
  }

  /** Any printed response, read from the front of a stream: one that is out of step leaves its body
      for the next response. */
  lemma FirstRead(exchange: Exchange, phrases: Phrases, rest: string)
    requires Printable(exchange.response, phrases)
    ensures var back := ReadBack(exchange.response, phrases);
            ReadAll([exchange.verb], DumpText(exchange.response, phrases) + rest) ==
              Some(if InStep(exchange.verb, exchange.response) then ([back], rest)
                   else ([back.(body := "")], PrintedBody(exchange.response) + rest))
  {
    hide Printable, InStep, ParseResponse, ReadBack, ReadAll, DumpText, PrintedBody;
    var text := DumpText(exchange.response, phrases);
    var outcome := ParseResponse(exchange.verb, text, false);
    assert text <= text + rest;
    ResponseRoundTrip(exchange.verb, exchange.response, phrases);
    FinishedStable(exchange.verb, text, text + rest, false);
    ReadOne(exchange.verb, text + rest);
    PrintedBehind(exchange.response, phrases, rest);
    assert (text + rest)[outcome.consumed..] == text[outcome.consumed..] + rest;
  }

  lemma ReadOne(verb: Method, stream: string)
    requires ParseResponse(verb, stream, false).Finished?
    ensures ReadAll([verb], stream) ==
              var outcome := ParseResponse(verb, stream, false);
              Some(([outcome.response], stream[outcome.consumed..]))
  {
    hide ParseResponse;
    assert [verb][1..] == [];
    var outcome := ParseResponse(verb, stream, false);
    assert ReadAll([], stream[outcome.consumed..]) == Some(([], stream[outcome.consumed..]));
    assert [outcome.response] + [] == [outcome.response];
  }

  lemma PrintedBehind(response: HttpResponse, phrases: Phrases, rest: string)
    ensures var text, body := DumpText(response, phrases), PrintedBody(response);
            |body| <= |text| && text[|text| - |body|..] == body && text[|text|..] == "" && "" + rest == rest
  {
    hide LinesText, HeadLines;
  }

  predicate AllInStep(exchanges: seq<Exchange>) {
    forall e :: e in exchanges ==> InStep(e.verb, e.response)
  }

  /** Reading the concatenation of any printed responses with the matching request methods gives
      each of them back, in order, and leaves what follows, exactly when all are in step. */
  lemma {:induction false} PipelineInStep(exchanges: seq<Exchange>, phrases: Phrases, rest: string)
    requires forall e :: e in exchanges ==> Printable(e.response, phrases)
    ensures AllInStep(exchanges) <==>
            ReadAll(Verbs(exchanges), DumpAll(exchanges, phrases) + rest) == Some((ReadBacks(exchanges, phrases), rest))
    decreases |exchanges|
  {
    hide Printable, InStep, DumpText, ParseResponse, ReadBack;
    if exchanges == [] {
      assert "" + rest == rest;
    } else {
      var first, text := exchanges[0], DumpText(exchanges[0].response, phrases);
      var more := DumpAll(exchanges[1..], phrases);
      var stream := DumpAll(exchanges, phrases) + rest;
      assert stream == text + (more + rest);
      assert text <= stream && stream[|text|..] == more + rest;
      assert first in exchanges;
      ResponseRoundTrip(first.verb, first.response, phrases);
      FinishedStable(first.verb, text, stream, false);
      assert Verbs(exchanges)[1..] == Verbs(exchanges[1..]);
      PipelineInStep(exchanges[1..], phrases, rest);
      FirstAndRest(exchanges);
      if !InStep(first.verb, first.response) {
        BodyDiffers(first, phrases);
      } else {
        assert ReadBacks(exchanges, phrases)[1..] == ReadBacks(exchanges[1..], phrases);
      }
    }
  }

  lemma FirstAndRest(exchanges: seq<Exchange>)
    requires exchanges != []
    ensures AllInStep(exchanges) <==> InStep(exchanges[0].verb, exchanges[0].response) && AllInStep(exchanges[1..])
  {
    hide InStep;
    assert exchanges == [exchanges[0]] + exchanges[1..];
  }

  lemma BodyDiffers(exchange: Exchange, phrases: Phrases)
    requires !InStep(exchange.verb, exchange.response)
    ensures ReadBack(exchange.response, phrases).(body := "") != ReadBack(exchange.response, phrases)
  {
  }
}
