/** The response parser object: the loops of `HttpResponseParser::parse`, proved against the
    functions of `ResponseParser`. */
module ResponseParserObject {
  import opened Wrappers
  import opened Text
  import opened HeaderFields
  import opened HttpMessages
  import opened Buffers
  import opened ResponseParser
  import opened ResponseFraming

  const BLANK: HttpResponse := HttpResponse(200, 0x11, true, false, "", "", [], [])

  class HttpResponseParser {
    var data: HttpResponse
    var requestMethod: Method
    var error: Option<ParseError>
    var contentLength: nat
    var chunked: bool
    var closeDelimited: bool
    var finished: bool

    predicate Fresh()
      reads this
    {
      error == None && !finished && !chunked && !closeDelimited && contentLength == 0
    }

    constructor (verb: Method)
      ensures Fresh() && requestMethod == verb
    {
      data, requestMethod, error := BLANK, verb, None;
      contentLength, chunked, closeDelimited, finished := 0, false, false, false;
    }

    method Reset(verb: Method)
      modifies this
      ensures Fresh() && requestMethod == verb
    {
      data, requestMethod, error := BLANK, verb, None;
      contentLength, chunked, closeDelimited, finished := 0, false, false, false;
    }

    method SetError(e: ParseError)
      modifies this`error, this`finished
      ensures error == Some(e) && !finished
    {
      error := Some(e);
      finished := false;
    }

    /** The state an attempt leaves behind. */
    twostate predicate Took(outcome: Outcome, start: Option<Start>, consumed: nat)
      reads this
    {
      && requestMethod == old(requestMethod)
      && closeDelimited == (old(closeDelimited) || (start.Some? && start.value.framing.UntilClose?))
      && chunked == (old(chunked) || (outcome.Finished? && start.Some? && start.value.framing.Chunked?))
      && match outcome
         case NeedMore =>
           consumed == 0 && error == old(error) && finished == old(finished)
           && data == old(data) && contentLength == old(contentLength)
         case Failed(e) =>
           consumed == 0 && error == Some(e) && !finished
           && data == old(data) && contentLength == old(contentLength)
         case Finished(response, n) =>
           consumed == n && error == old(error) && finished
           && data == response && contentLength == |response.body|
    }

    method Parse(input: string, eof: bool) returns (consumed: nat)
      modifies this
      ensures Took(ParseResponse(requestMethod, input, eof), StartOf(requestMethod, input), consumed)
    {
      hide At, ParseHead, FramingOf, BodyOutcome;
      var found := Find(input, CRLFCRLF, 0);
      if found.None? {
        if MAX_HEADER < |input| {
          SetError(HEADER_TOO_LARGE);
        }
        return 0;
      }
      FoundInside(input, CRLFCRLF, 0);
      var headerSize := found.value + 4;
      if MAX_HEADER < headerSize {
        SetError(HEADER_TOO_LARGE);
        return 0;
      }
      var parsed := ReadHead(input, found.value);
      if parsed.Err? {
        SetError(parsed.error);
        return 0;
      }
      var framing := DecideFraming(parsed.value);
      if framing.Err? {
        SetError(framing.error);
        return 0;
      }
      consumed := ReadBody(parsed.value, framing.value, input, headerSize, eof);
    }

    /** Parses the first `length` bytes of a buffer in place. */
    method Execute(buffer: array<char>, length: nat, eof: bool) returns (consumed: nat)
      requires length <= buffer.Length
      modifies this, buffer
      ensures old(finished || error.Some?) ==> consumed == 0 && unchanged(this) && buffer[..] == old(buffer[..])
      ensures !old(finished || error.Some?) ==>
                && Took(old(ParseResponse(requestMethod, buffer[..length], eof)),
                        old(StartOf(requestMethod, buffer[..length])), consumed)
                && consumed <= length
                && buffer[..length - consumed] == old(buffer[consumed..length])
    {
      hide ParseResponse, StartOf;
      if finished || error.Some? {
        return 0;
      }
      consumed := Parse(buffer[..length], eof);
      if consumed != 0 && consumed < length {
        MoveToFront(buffer, consumed, length);
      }
    }

    method DecideFraming(head: Head) returns (r: Result<Framing, ParseError>)
      ensures r == FramingOf(requestMethod, head)
    {
      if HasNoBody(requestMethod, head.line.status) {
        return Ok(NoBody);
      }
      if head.fields.coding.Some? {
        var final := HeaderContainsFinalChunked(head.fields.coding.value);
        return if final then Ok(Chunked) else Err(UNSUPPORTED_TRANSFER_ENCODING);
      }
      return if head.fields.length.Some? then Ok(Length(head.fields.length.value)) else Ok(UntilClose);
    }

    /** The part of `parse` behind the header checks. */
    method ReadBody(head: Head, framing: Framing, input: string, headerSize: nat, eof: bool) returns (consumed: nat)
      requires headerSize <= |input|
      modifies this
      ensures Took(BodyOutcome(head, framing, input, headerSize, eof), Some(Start(head, framing, headerSize)), consumed)
    {
      hide StoredHeaders, ClosesAfter, ParseChunks;
      var headers := StoredHeaders(head.fields);
      var close := InitConnection(head.line.version, headers);
      match framing
      case NoBody =>
        Finish(ResponseOf(head, headers, "", close));
        return headerSize;
      case Chunked =>
        var body := ReadChunks(input, headerSize, headers);
        match body {
          case More =>
            return 0;
          case TooLong =>
            SetError(HEADER_TOO_LARGE);
            return 0;
          case Bad(e) =>
            SetError(e);
            return 0;
          case Done(text, all, end) =>
            close := InitConnection(head.line.version, all);
            Finish(ResponseOf(head, all, text, close));
            chunked := true;
            return end;
        }
      case Length(n) =>
        if 0x1_0000_0000_0000_0000 <= n + headerSize {
          SetError(BODY_TOO_LARGE);
          return 0;
        }
        if |input| < headerSize + n {
          return 0;
        }
        Finish(ResponseOf(head, headers, input[headerSize..headerSize + n], close));
        return headerSize + n;
      case UntilClose =>
        closeDelimited := true;
        if MAX_BODY < |input| - headerSize {
          SetError(BODY_TOO_LARGE);
          return 0;
        }
        if !eof {
          return 0;
        }
        Finish(ResponseOf(head, headers, input[headerSize..], true));
        return |input|;
    }

    method Finish(response: HttpResponse)
      modifies this`data, this`contentLength, this`finished
      ensures data == response && contentLength == |response.body| && finished
    {
      data := response;
      contentLength := |response.body|;
      finished := true;
    }

    /** Status line and header loop, over positions of the whole input. */
    method ReadHead(input: string, headerEnd: nat) returns (r: Result<Head, ParseError>)
      requires headerEnd + 2 <= |input|
      ensures r == ParseHead(input[..headerEnd + 2])
    {
      hide At, ParseStatusLine, ParseFields;
      ghost var head := input[..headerEnd + 2];
      FindStable(head, input, CRLF, 0);
      FoundInside(head, CRLF, 0);
      var lineFound := Find(input, CRLF, 0);
      if lineFound.None? || headerEnd < lineFound.value {
        return Err(INVALID_STATUS);
      }
      var lineEnd := lineFound.value;
      FoundInside(input, CRLF, 0);
      assert head[..lineEnd] == input[..lineEnd];
      var line := ParseStatusLine(input[..lineEnd]);
      if line.Err? {
        return Err(line.error);
      }
      var read := ReadFields(input, headerEnd, lineEnd + 2);
      if read.Err? {
        return Err(read.error);
      }
      var fields := read.value;
      if fields.length.Some? && fields.coding.Some? {
        return Err(INVALID_CONTENT_LENGTH);
      }
      if fields.length.Some? && MAX_BODY < fields.length.value {
        return Err(BODY_TOO_LARGE);
      }
      return Ok(Head(line.value, fields));
    }

    /** The header loop. */
    method ReadFields(input: string, headerEnd: nat, lineBegin: nat) returns (r: Result<Fields, ParseError>)
      requires headerEnd + 2 <= |input|
      ensures r == ParseFields(input[..headerEnd + 2], lineBegin, NO_FIELDS)
    {
      hide At, ParseField, AddField;
      ghost var head := input[..headerEnd + 2];
      var begin, fields := lineBegin, NO_FIELDS;
      while begin < headerEnd
        invariant ParseFields(head, begin, fields) == ParseFields(head, lineBegin, NO_FIELDS)
        decreases |input| - begin
      {
        FindStable(head, input, CRLF, begin);
        FoundInside(head, CRLF, begin);
        var end := Find(input, CRLF, begin);
        if end.None? || headerEnd < end.value {
          return Err(INVALID_HEADER);
        }
        FoundInside(input, CRLF, begin);
        assert head[begin..end.value] == input[begin..end.value];
        var field := ParseField(input[begin..end.value]);
        if field.Err? {
          return Err(field.error);
        }
        var more := AddField(fields, field.value);
        if more.Err? {
          return Err(more.error);
        }
        begin, fields := end.value + 2, more.value;
      }
      return Ok(fields);
    }

    /** The chunk loop. */
    method ReadChunks(input: string, headerSize: nat, headers: Headers) returns (r: ChunkOutcome)
      requires headerSize <= |input|
      ensures r == ParseChunks(input, headerSize, "", headers)
    {
      hide ReadChunk, ParseTrailers;
      var position, body := headerSize, "";
      while true
        invariant position <= |input|
        invariant ParseChunks(input, position, body, headers) == ParseChunks(input, headerSize, "", headers)
        decreases |input| - position
      {
        match ReadChunk(input, position, |body|)
        case StepMore => return More;
        case StepTooLong => return TooLong;
        case StepBad(e) => return Bad(e);
        case LastChunk(trailers) =>
          r := ReadTrailers(input, trailers, body, headers);
          return;
        case DataChunk(data, size) =>
          position, body := data + size + 2, body + input[data..data + size];
      }
    }

    /** The trailer loop. */
    method ReadTrailers(input: string, begin: nat, body: string, headers: Headers) returns (r: ChunkOutcome)
      requires begin <= |input|
      ensures r == ParseTrailers(input, begin, begin, body, headers)
    {
      hide At, ParseTrailer, AddTrailer;
      var position, all := begin, headers;
      while true
        invariant begin <= position <= |input|
        invariant ParseTrailers(input, begin, position, body, all) == ParseTrailers(input, begin, begin, body, headers)
        decreases |input| - position
      {
        FoundInside(input, CRLF, position);
        var end := Find(input, CRLF, position);
        if end.None? {
          return if MAX_HEADER < |input| - begin then TooLong else More;
        }
        if MAX_HEADER < end.value - begin {
          return Bad(HEADER_TOO_LARGE);
        }
        if end.value == position {
          return Done(body, all, end.value + 2);
        }
        var field := ParseTrailer(input[position..end.value]);
        if field.Err? {
          return Bad(field.error);
        }
        position, all := end.value + 2, AddTrailer(all, field.value);
      }
    }
  }

  /** `chunked` stands last in a list that starts with some codings already read. */
  lemma FinalChunkedOfCons(item: string, rest: seq<string>)
    requires rest != []
    ensures IsFinalChunked([item] + rest) <==>
            CodingOf(item) != "" && !SameName(CodingOf(item), "chunked") && IsFinalChunked(rest)
  {
    hide CodingOf, SameName;
    var all := [item] + rest;
    assert all[1..] == rest;
    if IsFinalChunked(all) {
      assert all[0] == item;
      forall i | 0 <= i < |rest|
        ensures CodingOf(rest[i]) != "" && (SameName(CodingOf(rest[i]), "chunked") <==> i == |rest| - 1)
      {
        assert rest[i] == all[i + 1];
      }
    }
    if CodingOf(item) != "" && !SameName(CodingOf(item), "chunked") && IsFinalChunked(rest) {
      forall i | 0 <= i < |all|
        ensures CodingOf(all[i]) != "" && (SameName(CodingOf(all[i]), "chunked") <==> i == |all| - 1)
      {
        if 0 < i {
          assert all[i] == rest[i - 1];
        }
      }
    }
  }

  /** The list walk of `HeaderContainsFinalChunked`, which stops at the first item that follows
      a `chunked`. */
  method HeaderContainsFinalChunked(value: string) returns (final: bool)
    ensures final <==> IsFinalChunked(Items(value, 0))
  {
    hide CodingOf, SameName, IsFinalChunked;
    var begin, sawChunked := 0, false;
    while begin <= |value|
      invariant begin <= |value|
      invariant sawChunked ==> !IsFinalChunked(Items(value, 0))
      invariant !sawChunked ==> (IsFinalChunked(Items(value, 0)) <==> IsFinalChunked(Items(value, begin)))
    {
      var end := FindChar(value, ',', begin);
      var coding := CodingOf(if end.None? then value[begin..] else value[begin..end.value]);
      if coding == "" || sawChunked {
        LastOrNot(value, begin);
        return false;
      }
      LastOrNot(value, begin);
      if end.None? {
        return SameName(coding, "chunked");
      }
      sawChunked := SameName(coding, "chunked");
      begin := end.value + 1;
    }
    return false;
  }

  /** One step of that walk. */
  lemma LastOrNot(value: string, begin: nat)
    requires begin <= |value|
    ensures var end := FindChar(value, ',', begin);
            var coding := CodingOf(if end.None? then value[begin..] else value[begin..end.value]);
            IsFinalChunked(Items(value, begin)) <==>
            if end.None? then coding != "" && SameName(coding, "chunked")
            else coding != "" && !SameName(coding, "chunked") && IsFinalChunked(Items(value, end.value + 1))
  {
    hide CodingOf, SameName;
    var end := FindChar(value, ',', begin);
    if end.Some? {
      FinalChunkedOfCons(value[begin..end.value], Items(value, end.value + 1));
    } else {
      var items := Items(value, begin);
      assert items[0] == value[begin..];
    }
  }
}
