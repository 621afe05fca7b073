/** `HttpResponseParser`: what one attempt at the buffered bytes returns. */
module ResponseParser {
  import opened Wrappers
  import opened Text
  import opened Numbers
  import opened HeaderFields
  import opened HttpMessages
  import RequestParser

  datatype StatusLine = StatusLine(version: nat, status: nat, reason: string)

  function ParseStatusLine(line: string): (r: Result<StatusLine, ParseError>)
    ensures r.Ok? ==> 100 <= r.value.status <= 999
  {
    if |line| < 12 || line[8] != ' ' then Err(INVALID_STATUS)
    else
      match RequestParser.VersionNamed(line[..8])
      case None => Err(INVALID_VERSION)
      case Some(version) =>
        var reasonBegin := FindChar(line, ' ', 9);
        var text := if reasonBegin.None? then line[9..] else line[9..reasonBegin.value];
        var status := ParseNumber(text, 10, 0x1_0000);
        if |text| != 3 || status.None? || status.value < 100 || 999 < status.value then Err(INVALID_STATUS)
        else
          var reason := if reasonBegin.None? then "" else line[reasonBegin.value + 1..];
          if IsValidHeaderValue(reason) then Ok(StatusLine(version, status.value, reason)) else Err(INVALID_STATUS)
  }

  /** The fields of a response head; Transfer-Encoding and Connection lines are joined. */
  datatype Fields = Fields(
    headers: Headers, cookies: seq<string>, length: Option<nat>, coding: Option<string>, connection: Option<string>)

  const NO_FIELDS: Fields := Fields([], [], None, None, None)

  function Joined(before: Option<string>, value: string): Option<string> {
    Some(match before case Some(text) => text + "," + value case None => value)
  }

  function AddField(fields: Fields, field: Field): Result<Fields, ParseError> {
    var name, value := field.name, field.value;
    if SameName(name, "content-length") then
      var length := RequestParser.ParseContentLength(value);
      if fields.length.Some? || length.None? then Err(INVALID_CONTENT_LENGTH)
      else Ok(fields.(length := length, headers := Put(fields.headers, name, value)))
    else if SameName(name, "transfer-encoding") then Ok(fields.(coding := Joined(fields.coding, value)))
    else if SameName(name, "connection") then Ok(fields.(connection := Joined(fields.connection, value)))
    else if SameName(name, "set-cookie") then Ok(fields.(cookies := fields.cookies + [value]))
    else Ok(fields.(headers := Put(fields.headers, name, value)))
  }

  function ParseFields(head: string, begin: nat, fields: Fields): Result<Fields, ParseError>
    decreases |head| - begin
  {
    if |head| <= begin + 2 then Ok(fields)
    else
      match Find(head, CRLF, begin)
      case None => Err(INVALID_HEADER)
      case Some(end) =>
        match ParseField(head[begin..end])
        case Err(error) => Err(error)
        case Ok(field) =>
          match AddField(fields, field)
          case Err(error) => Err(error)
          case Ok(more) => ParseFields(head, end + 2, more)
  }

  datatype Head = Head(line: StatusLine, fields: Fields)

  /** The header map with the joined lines stored back. */
  function StoredHeaders(fields: Fields): Headers {
    var first := match fields.coding
                 case Some(value) => Put(fields.headers, "Transfer-Encoding", value)
                 case None => fields.headers;
    match fields.connection case Some(value) => Put(first, "Connection", value) case None => first
  }

  function ParseHead(head: string): Result<Head, ParseError> {
    match Find(head, CRLF, 0)
    case None => Err(INVALID_STATUS)
    case Some(lineEnd) =>
      match ParseStatusLine(head[..lineEnd])
      case Err(error) => Err(error)
      case Ok(line) =>
        match ParseFields(head, lineEnd + 2, NO_FIELDS)
        case Err(error) => Err(error)
        case Ok(fields) =>
          if fields.length.Some? && fields.coding.Some? then Err(INVALID_CONTENT_LENGTH)
          else if fields.length.Some? && MAX_BODY < fields.length.value then Err(BODY_TOO_LARGE)
          else Ok(Head(line, fields))
  }

  /** RFC 9112, section 6.3: which responses end with their head. */
  predicate HasNoBody(verb: Method, status: nat) {
    verb == HEAD || (verb == CONNECT && 200 <= status < 300) || 100 <= status < 200 || status == 204 || status == 304
  }

  /** The name of a transfer coding, without its parameters. */
  function CodingOf(item: string): string {
    var token := Trim(item);
    match FindChar(token, ';', 0) case Some(k) => Trim(token[..k]) case None => Trim(token)
  }

  /** Every item names a coding, and `chunked` is the last one and no other. */
  predicate IsFinalChunked(items: seq<string>) {
    && items != []
    && (forall i :: 0 <= i < |items| ==> CodingOf(items[i]) != "")
    && (forall i :: 0 <= i < |items| ==> (SameName(CodingOf(items[i]), "chunked") <==> i == |items| - 1))
  }

  datatype Framing = NoBody | Chunked | Length(n: nat) | UntilClose

  function FramingOf(verb: Method, head: Head): Result<Framing, ParseError> {
    if HasNoBody(verb, head.line.status) then Ok(NoBody)
    else
      match head.fields.coding
      case Some(coding) => if IsFinalChunked(Items(coding, 0)) then Ok(Chunked) else Err(UNSUPPORTED_TRANSFER_ENCODING)
      case None => match head.fields.length case Some(n) => Ok(Length(n)) case None => Ok(UntilClose)
  }

  /** The size that opens a chunk: hexadecimal, up to a semicolon. */
  function ParseChunkSize(line: string): Option<nat> {
    var digits := match FindChar(line, ';', 0) case Some(k) => line[..k] case None => line;
    ParseNumber(Trim(digits), 16, U64_LIMIT)
  }

  /** The state of a chunked body. `TooLong` is the error for metadata that is still incomplete
      but already longer than the limit. */
  datatype ChunkOutcome =
    | More
    | TooLong
    | Bad(error: ParseError)
    | Done(body: string, headers: Headers, end: nat)

  function ParseTrailer(trailer: string): Result<Field, ParseError> {
    match FindChar(trailer, ':', 0)
    case None => Err(INVALID_HEADER)
    case Some(k) =>
      var name, value := trailer[..k], Trim(trailer[k + 1..]);
      if IsValidHeaderName(name) && IsValidHeaderValue(value) then Ok(Field(name, value)) else Err(INVALID_HEADER)
  }

  function AddTrailer(headers: Headers, field: Field): Headers {
    if SameName(field.name, "content-length") || SameName(field.name, "transfer-encoding") then headers
    else Put(headers, field.name, field.value)
  }

  /** The trailer section, which began at `begin`, from a position on. */
  function ParseTrailers(input: string, begin: nat, position: nat, body: string, headers: Headers): (r: ChunkOutcome)
    requires begin <= position <= |input|
    ensures r.Done? ==> position < r.end <= |input|
    decreases |input| - position
  {
    match Find(input, CRLF, position)
    case None => if MAX_HEADER < |input| - begin then TooLong else More
    case Some(end) =>
      if MAX_HEADER < end - begin then Bad(HEADER_TOO_LARGE)
      else if end == position then Done(body, headers, end + 2)
      else
        match ParseTrailer(input[position..end])
        case Err(error) => Bad(error)
        case Ok(field) => ParseTrailers(input, begin, end + 2, body, AddTrailer(headers, field))
  }

  /** One chunk: its size line and, unless it is the last chunk, its data and the line end behind. */
  datatype ChunkStep =
    | StepMore
    | StepTooLong
    | StepBad(error: ParseError)
    | LastChunk(trailers: nat)
    | DataChunk(data: nat, size: nat)

  /** The chunk at a position, after `collected` bytes of body. */
  function ReadChunk(input: string, position: nat, collected: nat): (r: ChunkStep)
    requires position <= |input|
    ensures r.LastChunk? ==> position < r.trailers <= |input|
    ensures r.DataChunk? ==> position < r.data && r.data + r.size + 2 <= |input|
  {
    match Find(input, CRLF, position)
    case None => if MAX_HEADER < |input| - position then StepTooLong else StepMore
    case Some(end) =>
      match ParseChunkSize(input[position..end])
      case None => StepBad(INVALID_CHUNK_SIZE)
      case Some(size) =>
        var data := end + 2;
        if size == 0 then LastChunk(data)
        else if MAX_BODY < collected + size || U64_LIMIT <= data + size + 2 then StepBad(BODY_TOO_LARGE)
        else if |input| < data + size + 2 then StepMore
        else if !At(input, CRLF, data + size) then StepBad(INVALID_CHUNK_SIZE)
        else DataChunk(data, size)
  }

  /** The chunks from a position on, after `body` has been collected. */
  function ParseChunks(input: string, position: nat, body: string, headers: Headers): (r: ChunkOutcome)
    requires position <= |input|
    ensures r.Done? ==> position < r.end <= |input|
    decreases |input| - position
  {
    match ReadChunk(input, position, |body|)
    case StepMore => More
    case StepTooLong => TooLong
    case StepBad(error) => Bad(error)
    case LastChunk(trailers) => ParseTrailers(input, trailers, trailers, body, headers)
    case DataChunk(data, size) =>
      ParseChunks(input, data + size + 2, body + input[data..data + size], headers)
  }

  datatype Outcome =
    | NeedMore
    | Failed(error: ParseError)
    | Finished(response: HttpResponse, consumed: nat)

  function ResponseOf(head: Head, headers: Headers, body: string, close: bool): HttpResponse {
    HttpResponse(head.line.status, head.line.version, close, false, head.line.reason, body, headers,
                 head.fields.cookies)
  }

  function BodyOutcome(head: Head, framing: Framing, input: string, headerSize: nat, eof: bool): (r: Outcome)
    requires headerSize <= |input|
    ensures r.Finished? ==> headerSize <= r.consumed <= |input|
  {
    var headers := StoredHeaders(head.fields);
    var close := ClosesAfter(head.line.version, headers);
    match framing
    case NoBody => Finished(ResponseOf(head, headers, "", close), headerSize)
    case Chunked =>
      (match ParseChunks(input, headerSize, "", headers)
       case More => NeedMore
       case TooLong => Failed(HEADER_TOO_LARGE)
       case Bad(error) => Failed(error)
       case Done(body, all, end) =>
         Finished(ResponseOf(head, all, body, ClosesAfter(head.line.version, all)), end))
    case Length(n) =>
      if U64_LIMIT <= n + headerSize then Failed(BODY_TOO_LARGE)
      else if |input| < headerSize + n then NeedMore
      else Finished(ResponseOf(head, headers, input[headerSize..headerSize + n], close), headerSize + n)
    case UntilClose =>
      if MAX_BODY < |input| - headerSize then Failed(BODY_TOO_LARGE)
      else if !eof then NeedMore
      else Finished(ResponseOf(head, headers, input[headerSize..], true), |input|)
  }

  function Deliver(parsed: Result<Head, ParseError>, verb: Method, input: string, headerSize: nat, eof: bool)
    : (r: Outcome)
    requires headerSize <= |input|
    ensures r.Finished? ==> headerSize <= r.consumed <= |input|
  {
    match parsed
    case Err(error) => Failed(error)
    case Ok(head) =>
      match FramingOf(verb, head)
      case Err(error) => Failed(error)
      case Ok(framing) => BodyOutcome(head, framing, input, headerSize, eof)
  }

  /** What one attempt at `input` returns; `eof` tells that the connection has ended. */
  function ParseResponse(verb: Method, input: string, eof: bool): (r: Outcome)
    ensures r.Finished? ==> 0 < r.consumed <= |input|
  {
    match Find(input, CRLFCRLF, 0)
    case None => if MAX_HEADER < |input| then Failed(HEADER_TOO_LARGE) else NeedMore
    case Some(headerEnd) =>
      if MAX_HEADER < headerEnd + 4 then Failed(HEADER_TOO_LARGE)
      else Deliver(ParseHead(input[..headerEnd + 2]), verb, input, headerEnd + 4, eof)
  }
}
