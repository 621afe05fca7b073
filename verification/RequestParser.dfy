/** `HttpRequestParser`: what one attempt at the buffered bytes returns, as a function of those
    bytes, and the parser object that computes it. */
module RequestParser {
  import opened Wrappers
  import opened Text
  import opened Numbers
  import opened HeaderFields
  import opened HttpMessages
  import opened Buffers

  /** An attempt asks for more bytes, reports an error, or hands over a message and the number of
      bytes it took. */
  datatype Outcome =
    | NeedMore
    | Failed(error: ParseError)
    | Finished(request: HttpRequest, consumed: nat)

  datatype RequestLine = RequestLine(verb: Method, target: string, version: nat)

  predicate IsTargetCharacter(c: char) {
    ' ' < c && c != 127 as char
  }

  function VersionNamed(text: string): Option<nat> {
    if text == "HTTP/1.1" then Some(0x11) else if text == "HTTP/1.0" then Some(0x10) else None
  }

  predicate IsTargetText(text: string) {
    forall i :: 0 <= i < |text| ==> IsTargetCharacter(text[i])
  }

  /** Method, target and version, separated by exactly two spaces. */
  function ParseRequestLine(line: string): Result<RequestLine, ParseError> {
    match FindChar(line, ' ', 0)
    case None => Err(INVALID_REQUEST_TARGET)
    case Some(methodEnd) =>
      match FindChar(line, ' ', methodEnd + 1)
      case None => Err(INVALID_REQUEST_TARGET)
      case Some(targetEnd) =>
        if FindChar(line, ' ', targetEnd + 1).Some? then Err(INVALID_REQUEST_TARGET)
        else LineOf(line[..methodEnd], line[methodEnd + 1..targetEnd], line[targetEnd + 1..])
  }

  function LineOf(name: string, target: string, last: string): Result<RequestLine, ParseError> {
    if name == "" || target == "" then Err(INVALID_REQUEST_TARGET)
    else
      match MethodNamed(name)
      case None => Err(INVALID_METHOD)
      case Some(verb) =>
        if !IsTargetText(target) then Err(INVALID_REQUEST_TARGET)
        else
          match VersionNamed(last)
          case None => Err(INVALID_VERSION)
          case Some(version) => Ok(RequestLine(verb, target, version))
  }

  datatype Target = Target(path: string, query: string, fragment: string)

  /** The fragment is cut off first, then the query. */
  function SplitTarget(target: string): Target {
    var hash := FindChar(target, '#', 0);
    var fragment := if hash.Some? then target[hash.value + 1..] else "";
    var rest := if hash.Some? then target[..hash.value] else target;
    match FindChar(rest, '?', 0)
    case Some(k) => Target(rest[..k], rest[k + 1..], fragment)
    case None => Target(rest, "", fragment)
  }

  datatype Fields = Fields(headers: Headers, length: Option<nat>)

  function ParseContentLength(value: string): Option<nat> {
    ParseNumber(Trim(value), 10, U64_LIMIT)
  }

  /** One header line added to those already read. */
  function AddField(fields: Fields, field: Field): Result<Fields, ParseError> {
    var headers := Put(fields.headers, field.name, field.value);
    if SameName(field.name, "content-length") then
      var length := ParseContentLength(field.value);
      if fields.length.Some? || length.None? then Err(INVALID_CONTENT_LENGTH)
      else Ok(Fields(headers, length))
    else if SameName(field.name, "transfer-encoding") && field.value != "" then
      Err(UNSUPPORTED_TRANSFER_ENCODING)
    else Ok(Fields(headers, fields.length))
  }

  /** The header lines of `head` from a position on; `head` ends with the line end of its last
      line. */
  function ParseFields(head: string, begin: nat, fields: Fields): Result<Fields, ParseError>
    decreases |head| - begin
  {
    if |head| <= begin + 2 then Ok(fields)
    else
      match Find(head, CRLF, begin)
      case None => Err(INVALID_HEADER)
      case Some(end) =>
        match ParseField(head[begin..end])
        case Err(error) => Err(error)
        case Ok(field) =>
          match AddField(fields, field)
          case Err(error) => Err(error)
          case Ok(more) => ParseFields(head, end + 2, more)
  }

  datatype Head = Head(line: RequestLine, target: Target, fields: Fields)

  const NO_FIELDS: Fields := Fields([], None)

  /** Everything before the empty line. */
  function ParseHead(head: string): Result<Head, ParseError> {
    match Find(head, CRLF, 0)
    case None => Err(INVALID_VERSION)
    case Some(lineEnd) =>
      match ParseRequestLine(head[..lineEnd])
      case Err(error) => Err(error)
      case Ok(line) =>
        var target := SplitTarget(line.target);
        if target.path == "" then Err(INVALID_REQUEST_TARGET)
        else
          match ParseFields(head, lineEnd + 2, NO_FIELDS)
          case Err(error) => Err(error)
          case Ok(fields) => Ok(Head(line, target, fields))
  }

  function LengthOf(head: Head): nat {
    match head.fields.length case Some(n) => n case None => 0
  }

  function RequestOf(head: Head, body: string): HttpRequest {
    var version, headers := head.line.version, head.fields.headers;
    HttpRequest(head.line.verb, version, ClosesAfter(version, headers), false,
                head.target.path, head.target.query, head.target.fragment, body, headers)
  }

  /** The outcome once the head is complete: the body must fit the limits and be present. */
  function Deliver(parsed: Result<Head, ParseError>, input: string, headerSize: nat): (r: Outcome)
    requires headerSize <= |input|
    ensures r.Finished? ==> headerSize <= r.consumed <= |input|
  {
    match parsed
    case Err(error) => Failed(error)
    case Ok(head) =>
      var length := LengthOf(head);
      if MAX_BODY < length || U64_LIMIT <= length + headerSize then Failed(BODY_TOO_LARGE)
      else if |input| < headerSize + length then NeedMore
      else Finished(RequestOf(head, input[headerSize..headerSize + length]), headerSize + length)
  }

  /** What one attempt at `input` returns. */
  function ParseRequest(input: string): (r: Outcome)
    ensures r.Finished? ==> 0 < r.consumed <= |input|
  {
    match Find(input, CRLFCRLF, 0)
    case None => if MAX_HEADER < |input| then Failed(HEADER_TOO_LARGE) else NeedMore
    case Some(headerEnd) =>
      if MAX_HEADER < headerEnd + 4 then Failed(HEADER_TOO_LARGE)
      else Deliver(ParseHead(input[..headerEnd + 2]), input, headerEnd + 4)
  }

  lemma DeliverStable(parsed: Result<Head, ParseError>, input: string, longer: string, headerSize: nat)
    requires headerSize <= |input| && input <= longer
    requires !Deliver(parsed, input, headerSize).NeedMore?
    ensures Deliver(parsed, longer, headerSize) == Deliver(parsed, input, headerSize)
  {
    hide RequestOf;
    if parsed.Ok? {
      var size := headerSize + LengthOf(parsed.value);
      if size <= |input| {
        assert longer[headerSize..size] == input[headerSize..size];
      }
    }
  }

  /** A decided outcome does not change when more bytes arrive. */
  lemma OutcomeStable(input: string, longer: string)
    requires input <= longer && !ParseRequest(input).NeedMore?
    ensures ParseRequest(longer) == ParseRequest(input)
  {
    hide ParseHead, Deliver, At;
    FindStable(input, longer, CRLFCRLF, 0);
    var found := Find(input, CRLFCRLF, 0);
    if found.Some? {
      FoundInside(input, CRLFCRLF, 0);
      var head := input[..found.value + 2];
      assert longer[..found.value + 2] == head;
      if found.value + 4 <= MAX_HEADER {
        DeliverStable(ParseHead(head), input, longer, found.value + 4);
      }
    }
  }

  /** A request consumes exactly its own bytes: no strict prefix of them is decided. */
  lemma PrefixUndecided(input: string, k: nat)
    requires ParseRequest(input).Finished? && k < ParseRequest(input).consumed
    ensures ParseRequest(input[..k]) == NeedMore
  {
    hide ParseRequest;
    if ParseRequest(input[..k]) != NeedMore {
      OutcomeStable(input[..k], input);
    }
  }

  class HttpRequestParser {
    var data: HttpRequest
    var error: Option<ParseError>
    var contentLength: nat
    var finished: bool

    constructor ()
      ensures error == None && !finished && contentLength == 0
    {
      data := HttpRequest(GET, 0x11, true, false, "/", "", "", "", []);
      error := None;
      contentLength := 0;
      finished := false;
    }

    method Reset()
      modifies this
      ensures error == None && !finished && contentLength == 0
    {
      data := HttpRequest(GET, 0x11, true, false, "/", "", "", "", []);
      error := None;
      contentLength := 0;
      finished := false;
    }

    method SetError(e: ParseError)
      modifies this
      ensures error == Some(e) && !finished && data == old(data) && contentLength == old(contentLength)
    {
      error := Some(e);
      finished := false;
    }

    /** The state an outcome leaves behind. */
    twostate predicate Took(outcome: Outcome, consumed: nat)
      reads this
    {
      match outcome
      case NeedMore =>
        consumed == 0 && unchanged(this)
      case Failed(e) =>
        consumed == 0 && error == Some(e) && !finished && data == old(data) && contentLength == old(contentLength)
      case Finished(request, n) =>
        consumed == n && data == request && contentLength == |request.body| && finished && error == old(error)
    }

    method Parse(input: string) returns (consumed: nat)
      modifies this
      ensures Took(ParseRequest(input), consumed)
    {
      hide ParseHead, At, ClosesAfter;
      var found := Find(input, CRLFCRLF, 0);
      if found.None? {
        if MAX_HEADER < |input| {
          SetError(HEADER_TOO_LARGE);
        }
        return 0;
      }
      FoundInside(input, CRLFCRLF, 0);
      var headerSize := found.value + 4;
      if MAX_HEADER < headerSize {
        SetError(HEADER_TOO_LARGE);
        return 0;
      }
      var parsed := ParseLines(input, found.value);
      if parsed.Err? {
        SetError(parsed.error);
        return 0;
      }
      var head := parsed.value;
      var length := LengthOf(head);
      if MAX_BODY < length || U64_LIMIT <= length + headerSize {
        SetError(BODY_TOO_LARGE);
        return 0;
      }
      var messageSize := headerSize + length;
      if |input| < messageSize {
        return 0;
      }
      var request := RequestOf(head, input[headerSize..messageSize]);
      var close := InitConnection(request.version, request.headers);
      data := request.(close := close);
      contentLength := length;
      finished := true;
      return messageSize;
    }

    /** Request line and header loop, over positions of the whole input. */
    method ParseLines(input: string, headerEnd: nat) returns (r: Result<Head, ParseError>)
      requires headerEnd + 2 <= |input|
      ensures r == ParseHead(input[..headerEnd + 2])
    {
      hide At, ParseRequestLine, SplitTarget, ParseField, AddField;
      ghost var head := input[..headerEnd + 2];
      FindStable(head, input, CRLF, 0);
      FoundInside(head, CRLF, 0);
      var lineFound := Find(input, CRLF, 0);
      if lineFound.None? || headerEnd < lineFound.value {
        return Err(INVALID_VERSION);
      }
      var lineEnd := lineFound.value;
      FoundInside(input, CRLF, 0);
      assert head[..lineEnd] == input[..lineEnd];
      var line := ParseRequestLine(input[..lineEnd]);
      if line.Err? {
        return Err(line.error);
      }
      var target := SplitTarget(line.value.target);
      if target.path == "" {
        return Err(INVALID_REQUEST_TARGET);
      }
      var fields := ParseFieldLines(input, headerEnd, lineEnd + 2);
      if fields.Err? {
        return Err(fields.error);
      }
      return Ok(Head(line.value, target, fields.value));
    }

    /** The header loop. */
    method ParseFieldLines(input: string, headerEnd: nat, lineBegin: nat) returns (r: Result<Fields, ParseError>)
      requires headerEnd + 2 <= |input|
      ensures r == ParseFields(input[..headerEnd + 2], lineBegin, NO_FIELDS)
    {
      hide At, ParseField, AddField;
      ghost var head := input[..headerEnd + 2];
      var begin, fields := lineBegin, NO_FIELDS;
      while begin < headerEnd
        invariant ParseFields(head, begin, fields) == ParseFields(head, lineBegin, NO_FIELDS)
        decreases |input| - begin
      {
        FindStable(head, input, CRLF, begin);
        FoundInside(head, CRLF, begin);
        var end := Find(input, CRLF, begin);
        if end.None? || headerEnd < end.value {
          return Err(INVALID_HEADER);
        }
        FoundInside(input, CRLF, begin);
        assert head[begin..end.value] == input[begin..end.value];
        var field := ParseField(input[begin..end.value]);
        if field.Err? {
          return Err(field.error);
        }
        var more := AddField(fields, field.value);
        if more.Err? {
          return Err(more.error);
        }
        begin, fields := end.value + 2, more.value;
      }
      return Ok(fields);
    }

    /** Parses the first `length` bytes of a buffer in place: the bytes behind a finished message
        move to the front. */
    method Execute(buffer: array<char>, length: nat) returns (consumed: nat)
      requires length <= buffer.Length
      modifies this, buffer
      ensures old(length == 0 || finished || error.Some?) ==>
                consumed == 0 && unchanged(this) && buffer[..] == old(buffer[..])
      ensures !old(length == 0 || finished || error.Some?) ==>
                && Took(old(ParseRequest(buffer[..length])), consumed)
                && consumed <= length
                && buffer[..length - consumed] == old(buffer[consumed..length])
    {
      hide ParseRequest;
      if length == 0 || finished || error.Some? {
        return 0;
      }
      consumed := Parse(buffer[..length]);
      if consumed != 0 && consumed < length {
        MoveToFront(buffer, consumed, length);
      }
    }
  }
}
