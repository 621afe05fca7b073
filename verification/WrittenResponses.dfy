/** Responses written by hand: any status, reason and header lines in any number and order, and
    whatever follows the blank line; and how the parser frames them (RFC 9112, section 6.3). */
module WrittenResponses {
  import opened Wrappers
  import opened Text
  import opened HeaderFields
  import opened HttpMessages
  import opened Lines
  import opened ResponseParser
  import opened ResponseFraming
  import opened ResponsePrinter
  import opened ResponseRoundTrip
  import opened WrittenRequests
  import opened ChunkedBody
  import Numbers
  import RequestParser
  import RequestPrinter
  import RequestRoundTrip

  // ----- header lines

  /** The values of the fields with that name, in order. */
  function ValuesOf(fields: seq<Field>, name: string): seq<string> {
    if fields == [] then []
    else (if SameName(fields[0].name, name) then [fields[0].value] else []) + ValuesOf(fields[1..], name)
  }

  /** A length that is no number or the second one. */
  predicate RefusedAt(fields: seq<Field>, i: nat)
    requires i < |fields|
  {
    IsLength(fields[i]) && (RequestParser.ParseContentLength(fields[i].value).None? || SeenLength(fields, i))
  }

  predicate SomeRefused(fields: seq<Field>, i: nat)
    requires i <= |fields|
  {
    exists j :: i <= j < |fields| && RefusedAt(fields, j)
  }

  /** Further values joined to a field that is kept as one list. */
  function JoinedOn(before: Option<string>, values: seq<string>): Option<string>
    decreases |values|
  {
    if values == [] then before else JoinedOn(Joined(before, values[0]), values[1..])
  }

  lemma {:induction false} JoinedToOne(text: string, values: seq<string>)
    ensures JoinedOn(Some(text), values) == Some(if values == [] then text else text + ([','] + JoinItems(values)))
    decreases |values|
  {
    if values != [] {
      var more := text + "," + values[0];
      JoinedToOne(more, values[1..]);
      Regrouped(text, values[0], JoinItems(values[1..]));
    }
  }

  lemma Regrouped(a: string, b: string, c: string)
    ensures a + "," + b == a + ([','] + b)
    ensures a + "," + b + ([','] + c) == a + ([','] + (b + ([','] + c)))
  {
  }

  lemma JoinedList(values: seq<string>)
    ensures JoinedOn(None, values) == if values == [] then None else Some(JoinItems(values))
  {
    if values != [] {
      JoinedToOne(values[0], values[1..]);
    }
  }

  /** A name that the parser keeps apart from the map while it reads the lines. */
  predicate KeptApart(name: string) {
    SameName(name, "connection") || SameName(name, "transfer-encoding") || SameName(name, "set-cookie")
  }

  lemma SameNames(a: string, b: string, c: string)
    requires SameName(a, b)
    ensures SameName(a, c) <==> SameName(b, c)
  {
  }

  /** The four names are different. */
  lemma FourNames(name: string)
    ensures SameName(name, "content-length") ==> !KeptApart(name)
    ensures SameName(name, "transfer-encoding") ==> !SameName(name, "connection") && !SameName(name, "set-cookie")
    ensures SameName(name, "connection") ==> !SameName(name, "set-cookie")
  {
    hide SameName;
    if SameName(name, "content-length") {
      SameNames(name, "content-length", "connection");
      SameNames(name, "content-length", "transfer-encoding");
      SameNames(name, "content-length", "set-cookie");
    }
    if SameName(name, "transfer-encoding") {
      SameNames(name, "transfer-encoding", "connection");
      SameNames(name, "transfer-encoding", "set-cookie");
    }
    if SameName(name, "connection") {
      SameNames(name, "connection", "set-cookie");
    }
    OtherLength("content-length", "connection");
    OtherLength("content-length", "transfer-encoding");
    OtherLength("content-length", "set-cookie");
    OtherLength("transfer-encoding", "connection");
    OtherLength("transfer-encoding", "set-cookie");
    OtherFirst("connection", "set-cookie");
  }

  /** What one more field adds. */
  function FieldAdded(read: Fields, field: Field): Fields {
    var name, value := field.name, field.value;
    Fields(
      if KeptApart(name) then read.headers else Put(read.headers, name, value),
      read.cookies + (if SameName(name, "set-cookie") then [value] else []),
      if IsLength(field) then RequestParser.ParseContentLength(value) else read.length,
      if SameName(name, "transfer-encoding") then Joined(read.coding, value) else read.coding,
      if SameName(name, "connection") then Joined(read.connection, value) else read.connection)
  }

  lemma OneField(fields: seq<Field>, i: nat, read: Fields)
    requires i < |fields| && (read.length.Some? <==> SeenLength(fields, i))
    ensures AddField(read, fields[i]) ==
            if RefusedAt(fields, i) then Err(INVALID_CONTENT_LENGTH) else Ok(FieldAdded(read, fields[i]))
  {
    hide Put, RequestParser.ParseContentLength, SameName, SeenLength, Joined;
    FourNames(fields[i].name);
    assert read.cookies + [] == read.cookies;
  }

  predicate Sought(before: Headers, after: Headers, fields: seq<Field>, name: string) {
    Get(after, name) ==
      if KeptApart(name) then Get(before, name)
      else match LastValue(fields, name) case Some(value) => Some(value) case None => Get(before, name)
  }

  lemma SoughtStep(read: Fields, after: Headers, fields: seq<Field>, name: string)
    requires fields != [] && Sought(FieldAdded(read, fields[0]).headers, after, fields[1..], name)
    ensures Sought(read.headers, after, fields, name)
  {
    hide Get, Put, SameName, RequestParser.ParseContentLength;
    var field := fields[0];
    if SameName(field.name, name) {
      SameNames(field.name, name, "connection");
      SameNames(field.name, name, "transfer-encoding");
      SameNames(field.name, name, "set-cookie");
    }
    StoredValue(read.headers, field, name);
  }

  /** What reading the fields leaves besides the map. */
  predicate ReadFrom(before: Fields, all: Fields, fields: seq<Field>) {
    && all.cookies == before.cookies + ValuesOf(fields, "set-cookie")
    && all.coding == JoinedOn(before.coding, ValuesOf(fields, "transfer-encoding"))
    && all.connection == JoinedOn(before.connection, ValuesOf(fields, "connection"))
    && all.length == if LastValue(fields, "content-length").None? then before.length else AnnouncedLength(fields)
  }

  lemma ReadStep(before: Fields, all: Fields, fields: seq<Field>)
    requires fields != [] && ReadFrom(FieldAdded(before, fields[0]), all, fields[1..])
    ensures ReadFrom(before, all, fields)
  {
    hide Put, SameName, RequestParser.ParseContentLength, Joined;
    CookiesStep(before.cookies, fields);
    ValuesStep(before.coding, fields, "transfer-encoding");
    ValuesStep(before.connection, fields, "connection");
  }

  lemma CookiesStep(before: seq<string>, fields: seq<Field>)
    requires fields != []
    ensures var first := if SameName(fields[0].name, "set-cookie") then [fields[0].value] else [];
            before + first + ValuesOf(fields[1..], "set-cookie") == before + ValuesOf(fields, "set-cookie")
  {
    hide SameName;
    var first := if SameName(fields[0].name, "set-cookie") then [fields[0].value] else [];
    Associated(before, first, ValuesOf(fields[1..], "set-cookie"));
  }

  lemma Associated(a: seq<string>, b: seq<string>, c: seq<string>)
    ensures a + b + c == a + (b + c)
  {
  }

  lemma ValuesStep(before: Option<string>, fields: seq<Field>, name: string)
    requires fields != []
    ensures var first := if SameName(fields[0].name, name) then Joined(before, fields[0].value) else before;
            JoinedOn(first, ValuesOf(fields[1..], name)) == JoinedOn(before, ValuesOf(fields, name))
  {
    hide SameName, Joined;
    var rest := ValuesOf(fields[1..], name);
    if SameName(fields[0].name, name) {
      assert ([fields[0].value] + rest)[1..] == rest;
    } else {
      assert [] + rest == rest;
    }
  }

  /** What reading the fields from the i-th on gives. */
  predicate Reading(result: Result<Fields, ParseError>, fields: seq<Field>, i: nat, before: Fields, name: string)
    requires i <= |fields|
  {
    match result
    case Err(e) => SomeRefused(fields, i) && e == INVALID_CONTENT_LENGTH
    case Ok(all) =>
      && !SomeRefused(fields, i) && Sorted(all.headers)
      && Sought(before.headers, all.headers, fields[i..], name) && ReadFrom(before, all, fields[i..])
  }

  /** The header lines one by one, from the i-th on. */
  lemma {:induction false} FieldsFrom(fields: seq<Field>, i: nat, read: Fields, name: string)
    requires i <= |fields| && Sorted(read.headers) && (read.length.Some? <==> SeenLength(fields, i))
    ensures Reading(AddAll(read, fields[i..]), fields, i, read, name)
    decreases |fields| - i
  {
    hide AddField, Put, Get, Sorted, RequestParser.ParseContentLength, SameName, SeenLength, RefusedAt, Sought,
      ReadFrom, FieldAdded, SomeRefused;
    RefusedStep(fields, i);
    if i == |fields| {
      assert fields[i..] == [];
      NothingSought(read, name);
    } else {
      var rest := fields[i..];
      assert rest[0] == fields[i] && rest[1..] == fields[i + 1..];
      OneField(fields, i, read);
      if !RefusedAt(fields, i) {
        var more := FieldAdded(read, fields[i]);
        AddedKeeps(fields, i, read);
        FieldsFrom(fields, i + 1, more, name);
        match AddAll(more, fields[i + 1..]) {
          case Err(_) =>
          case Ok(all) =>
            SoughtStep(read, all.headers, rest, name);
            ReadStep(read, all, rest);
        }
      }
    }
  }

  lemma RefusedStep(fields: seq<Field>, i: nat)
    requires i <= |fields|
    ensures SomeRefused(fields, i) <==> i < |fields| && (RefusedAt(fields, i) || SomeRefused(fields, i + 1))
  {
    hide RefusedAt;
  }

  lemma AddedKeeps(fields: seq<Field>, i: nat, read: Fields)
    requires i < |fields| && !RefusedAt(fields, i)
    requires Sorted(read.headers) && (read.length.Some? <==> SeenLength(fields, i))
    ensures var more := FieldAdded(read, fields[i]);
            Sorted(more.headers) && (more.length.Some? <==> SeenLength(fields, i + 1))
  {
    hide Sorted, Put, SameName, RequestParser.ParseContentLength;
    PutSorted(read.headers, fields[i].name, fields[i].value);
    SeenStep(fields, i);
  }

  lemma NothingSought(read: Fields, name: string)
    ensures Sought(read.headers, read.headers, [], name) && ReadFrom(read, read, [])
  {
    assert read.cookies + [] == read.cookies;
  }

  /** The value of a name in the map of the finished response. */
  function HeaderValue(fields: seq<Field>, name: string): Option<string> {
    if SameName(name, "set-cookie") then None
    else if SameName(name, "connection") || SameName(name, "transfer-encoding") then
      var values := ValuesOf(fields, if SameName(name, "connection") then "connection" else "transfer-encoding");
      if values == [] then None else Some(JoinItems(values))
    else LastValue(fields, name)
  }

  lemma StoredMeans(fields: seq<Field>, read: Fields, name: string)
    requires Sought([], read.headers, fields, name) && ReadFrom(NO_FIELDS, read, fields)
    ensures Get(StoredHeaders(read), name) == HeaderValue(fields, name)
  {
    StoredLists(fields, read);
    hide Put, Get, ValuesOf, LastValue, JoinedOn, ReadFrom, SameName;
    assert Get([], name) == None by { NothingThere(name); }
    FourNames(name);
    var first := match read.coding
                 case Some(value) => Put(read.headers, "Transfer-Encoding", value)
                 case None => read.headers;
    if read.coding.Some? {
      OwnValue(read.headers, "Transfer-Encoding", "transfer-encoding", read.coding.value, name);
    }
    if read.connection.Some? {
      OwnValue(first, "Connection", "connection", read.connection.value, name);
    }
  }

  lemma NothingThere(name: string)
    ensures Get([], name) == None
  {
  }

  lemma StoredLists(fields: seq<Field>, read: Fields)
    requires ReadFrom(NO_FIELDS, read, fields)
    ensures read.coding == var values := ValuesOf(fields, "transfer-encoding");
                           if values == [] then None else Some(JoinItems(values))
    ensures read.connection == var values := ValuesOf(fields, "connection");
                               if values == [] then None else Some(JoinItems(values))
  {
    hide ValuesOf;
    JoinedList(ValuesOf(fields, "transfer-encoding"));
    JoinedList(ValuesOf(fields, "connection"));
  }

  lemma OwnValue(headers: Headers, name: string, folded: string, value: string, key: string)
    requires (name == "Transfer-Encoding" && folded == "transfer-encoding") ||
             (name == "Connection" && folded == "connection")
    ensures Get(Put(headers, name, value), key) == if SameName(key, folded) then Some(value) else Get(headers, key)
  {
    hide Get, Put, SameName;
    StoredValue(headers, Field(name, value), key);
    CapitalsSpelled();
    if SameName(key, folded) {
      Swapped(key, folded);
      SameNames(name, folded, key);
    }
    if SameName(name, key) {
      Swapped(name, key);
      SameNames(name, key, folded);
    }
  }

  lemma Swapped(a: string, b: string)
    requires SameName(a, b)
    ensures SameName(b, a)
  {
  }

  lemma CapitalsSpelled()
    ensures SameName("Connection", "connection") && SameName("Transfer-Encoding", "transfer-encoding")
  {
    hide SameName;
    RequestRoundTrip.ConnectionSpelled();
    RequestRoundTrip.SpelledAlike("Transfer-Encoding", "transfer-encoding", 9);
  }

  lemma StoredSorted(read: Fields)
    requires Sorted(read.headers)
    ensures Sorted(StoredHeaders(read))
  {
    hide Sorted, Put;
    var first := match read.coding
                 case Some(value) => Put(read.headers, "Transfer-Encoding", value)
                 case None => read.headers;
    if read.coding.Some? {
      PutSorted(read.headers, "Transfer-Encoding", read.coding.value);
    }
    if read.connection.Some? {
      PutSorted(first, "Connection", read.connection.value);
    }
  }

  // ----- the head

  predicate WellFormed(version: nat, status: nat, reason: string, fields: seq<Field>) {
    && (version == 0x10 || version == 0x11) && 100 <= status <= 999 && IsValidHeaderValue(reason)
    && forall field :: field in fields ==> PrintableField(field)
  }

  function WrittenLines(version: nat, status: nat, reason: string, fields: seq<Field>): seq<string> {
    [StatusLineText(version, status, reason)] + RequestPrinter.FieldLines(fields)
  }

  function Written(version: nat, status: nat, reason: string, fields: seq<Field>, rest: string): string {
    LinesText(WrittenLines(version, status, reason, fields)) + (CRLF + rest)
  }

  lemma HeadOfLines(first: string, line: StatusLine, fields: seq<Field>)
    requires IsLine(first) && ParseStatusLine(first) == Ok(line)
    requires forall field :: field in fields ==> PrintableField(field)
    ensures ParseHead(LinesText([first] + RequestPrinter.FieldLines(fields))) ==
            match AddAll(NO_FIELDS, fields)
            case Err(e) => Err(e)
            case Ok(read) =>
              if read.length.Some? && read.coding.Some? then Err(INVALID_CONTENT_LENGTH)
              else if read.length.Some? && MAX_BODY < read.length.value then Err(BODY_TOO_LARGE)
              else Ok(Head(line, read))
  {
    hide ParseStatusLine, ParseFields, AddAll, PrintableField, IsLine, LinesText, RequestPrinter.FieldLines, Find;
    RequestPrinter.HeadText(first, fields);
    var head := LinesText([first] + RequestPrinter.FieldLines(fields));
    assert head[0..] == head;
    SplitLine(head, 0, first, LinesText(RequestPrinter.FieldLines(fields)));
    FieldsRoundTrip(head, |first| + 2, fields, NO_FIELDS);
  }

  /** What the head says of the whole: the parts of the message, but for its body and its end. */
  ghost predicate HeadMeans(head: Head, version: nat, status: nat, reason: string, fields: seq<Field>) {
    && head.line == StatusLine(version, status, reason) && Sorted(head.fields.headers)
    && (forall name: string :: Sought([], head.fields.headers, fields, name))
    && ReadFrom(NO_FIELDS, head.fields, fields)
  }

  /** Which heads are refused, and what the others mean. */
  ghost predicate HeadRead(
      parsed: Result<Head, ParseError>, version: nat, status: nat, reason: string, fields: seq<Field>) {
    var lengths, codings := ValuesOf(fields, "content-length"), ValuesOf(fields, "transfer-encoding");
    if SomeRefused(fields, 0) || (lengths != [] && codings != []) then parsed == Err(INVALID_CONTENT_LENGTH)
    else if AnnouncedLength(fields).Some? && MAX_BODY < AnnouncedLength(fields).value then parsed == Err(BODY_TOO_LARGE)
    else parsed.Ok? && HeadMeans(parsed.value, version, status, reason, fields)
  }

  lemma {:induction false} LastOfValues(fields: seq<Field>, name: string)
    ensures LastValue(fields, name).Some? <==> ValuesOf(fields, name) != []
  {
    hide SameName;
    if fields != [] {
      LastOfValues(fields[1..], name);
    }
  }

  lemma NoneSeen(fields: seq<Field>)
    ensures Sorted(NO_FIELDS.headers) && NO_FIELDS.length.None? && !SeenLength(fields, 0)
  {
  }

  lemma {:induction false} LengthAccepted(fields: seq<Field>, i: nat)
    requires i <= |fields| && !SomeRefused(fields, i)
    ensures LastValue(fields[i..], "content-length").Some? ==> AnnouncedLength(fields[i..]).Some?
    decreases |fields| - i
  {
    hide SameName, RequestParser.ParseContentLength, SeenLength;
    if i < |fields| {
      assert fields[i..][1..] == fields[i + 1..];
      assert !RefusedAt(fields, i);
      LengthAccepted(fields, i + 1);
    }
  }

  lemma WrittenHead(version: nat, status: nat, reason: string, fields: seq<Field>)
    requires WellFormed(version, status, reason, fields)
    ensures var lines := WrittenLines(version, status, reason, fields);
            && (forall line :: line in lines ==> IsLine(line))
            && HeadRead(ParseHead(LinesText(lines)), version, status, reason, fields)
  {
    hide ParseHead, AddAll, PrintableField, IsLine, LinesText, RequestPrinter.FieldLines, StatusLineText, SomeRefused,
      Sought, ReadFrom, Sorted, ValuesOf, LastValue, AnnouncedLength, IsValidHeaderValue;
    var first := StatusLineText(version, status, reason);
    StatusLineRoundTrip(version, status, reason);
    LinesAreLines(first, fields);
    HeadOfLines(first, StatusLine(version, status, reason), fields);
    FieldsRead(fields);
  }

  /** What reading all fields gives. */
  ghost predicate AllRead(result: Result<Fields, ParseError>, fields: seq<Field>) {
    match result
    case Err(e) => SomeRefused(fields, 0) && e == INVALID_CONTENT_LENGTH
    case Ok(all) =>
      && !SomeRefused(fields, 0) && Sorted(all.headers) && ReadFrom(NO_FIELDS, all, fields)
      && (forall name: string :: Sought([], all.headers, fields, name))
      && all.length == AnnouncedLength(fields)
      && (all.length.Some? <==> ValuesOf(fields, "content-length") != [])
      && (all.coding.Some? <==> ValuesOf(fields, "transfer-encoding") != [])
  }

  lemma FieldsRead(fields: seq<Field>)
    ensures AllRead(AddAll(NO_FIELDS, fields), fields)
  {
    hide AddAll, SomeRefused, Sought, Sorted, ValuesOf, LastValue, SeenLength;
    assert fields[0..] == fields;
    NoneSeen(fields);
    var result := AddAll(NO_FIELDS, fields);
    FieldsFrom(fields, 0, NO_FIELDS, "");
    match result {
      case Err(_) =>
      case Ok(all) =>
        forall name: string ensures Sought([], all.headers, fields, name) {
          FieldsFrom(fields, 0, NO_FIELDS, name);
        }
        LastOfValues(fields, "content-length");
        LengthAccepted(fields, 0);
        StoredLists(fields, all);
    }
  }

  // ----- the whole response

  /** The message that a response with these parts is, whatever its header map looks like inside. */
  ghost predicate Means(
      response: HttpResponse, version: nat, status: nat, reason: string, fields: seq<Field>, body: string) {
    && response.version == version && response.status == status && response.reason == reason
    && response.body == body && !response.websocket && response.cookies == ValuesOf(fields, "set-cookie")
    && Sorted(response.headers) && forall name: string :: Get(response.headers, name) == HeaderValue(fields, name)
  }

  /** What the Connection fields and the version say of the connection. */
  ghost predicate ClosesAsSaid(close: bool, version: nat, fields: seq<Field>) {
    var values := ValuesOf(fields, "connection");
    if values == [] then close <==> version == 0x10
    else
      forall items :: WithoutCommas(items) && JoinItems(items) == JoinItems(values) ==>
        (close <==> ClosesSaying(items, version))
  }

  predicate EndsWithHead(verb: Method, status: nat) {
    verb == HEAD || (verb == CONNECT && 200 <= status <= 299) || 100 <= status <= 199 || status == 204 || status == 304
  }

  /** The part of an item in front of its parameters. */
  predicate NameEnds(item: string, k: nat) {
    k <= |item| && ';' !in item[..k] && (k == |item| || item[k] == ';')
  }

  predicate NamesChunked(item: string) {
    exists k :: 0 <= k <= |item| && NameEnds(item, k) && Says(item[..k], "chunked")
  }

  predicate NamesNothing(item: string) {
    exists k :: 0 <= k <= |item| && NameEnds(item, k) && forall i :: 0 <= i < k ==> item[i] == ' ' || item[i] == '\t'
  }

  /** Every item names a coding, the last one is `chunked`, and no other. */
  predicate ChunkedLast(items: seq<string>) {
    && items != []
    && (forall i :: 0 <= i < |items| ==> !NamesNothing(items[i]))
    && (forall i :: 0 <= i < |items| ==> (NamesChunked(items[i]) <==> i == |items| - 1))
  }

  ghost predicate Completed(
      outcome: Outcome, version: nat, status: nat, reason: string, fields: seq<Field>, body: string, size: nat) {
    && outcome.Finished? && outcome.consumed == size
    && Means(outcome.response, version, status, reason, fields, body)
    && ClosesAsSaid(outcome.response.close, version, fields)
  }

  /** How a response whose head takes `size` bytes is framed. */
  ghost predicate Framed(
      verb: Method, version: nat, status: nat, reason: string, fields: seq<Field>, rest: string, eof: bool, size: nat,
      outcome: Outcome) {
    var lengths, codings := ValuesOf(fields, "content-length"), ValuesOf(fields, "transfer-encoding");
    var length := match AnnouncedLength(fields) case Some(n) => n case None => 0;
    if 0x1_0000 < size then outcome == Failed(HEADER_TOO_LARGE)
    else if SomeRefused(fields, 0) || (lengths != [] && codings != []) then outcome == Failed(INVALID_CONTENT_LENGTH)
    else if 0x400_0000 < length then outcome == Failed(BODY_TOO_LARGE)
    else if EndsWithHead(verb, status) then Completed(outcome, version, status, reason, fields, "", size)
    else if codings != [] then
      forall items :: WithoutCommas(items) && JoinItems(items) == JoinItems(codings) && !ChunkedLast(items) ==>
        outcome == Failed(UNSUPPORTED_TRANSFER_ENCODING)
    else if lengths != [] then
      if |rest| < length then outcome == NeedMore
      else Completed(outcome, version, status, reason, fields, rest[..length], size + length)
    else if 0x400_0000 < |rest| then outcome == Failed(BODY_TOO_LARGE)
    else if !eof then outcome == NeedMore
    else
      && outcome.Finished? && outcome.consumed == size + |rest| && outcome.response.close
      && Means(outcome.response, version, status, reason, fields, rest)
  }

  lemma HeadersMean(head: Head, version: nat, status: nat, reason: string, fields: seq<Field>)
    requires HeadMeans(head, version, status, reason, fields)
    ensures Sorted(StoredHeaders(head.fields))
    ensures forall name: string :: Get(StoredHeaders(head.fields), name) == HeaderValue(fields, name)
  {
    hide Sorted, Get, StoredHeaders, HeaderValue, ReadFrom, Sought;
    StoredSorted(head.fields);
    forall name: string ensures Get(StoredHeaders(head.fields), name) == HeaderValue(fields, name) {
      StoredMeans(fields, head.fields, name);
    }
  }

  lemma ResponseMeans(
      head: Head, version: nat, status: nat, reason: string, fields: seq<Field>, body: string, close: bool)
    requires HeadMeans(head, version, status, reason, fields)
    ensures Means(ResponseOf(head, StoredHeaders(head.fields), body, close), version, status, reason, fields, body)
  {
    hide Sorted, Get, StoredHeaders, HeaderValue, Sought, ValuesOf, LastValue, JoinedOn;
    HeadersMean(head, version, status, reason, fields);
    assert [] + ValuesOf(fields, "set-cookie") == ValuesOf(fields, "set-cookie");
  }

  lemma ClosesSaid(head: Head, version: nat, status: nat, reason: string, fields: seq<Field>)
    requires HeadMeans(head, version, status, reason, fields) && (version == 0x10 || version == 0x11)
    ensures ClosesAsSaid(ClosesAfter(version, StoredHeaders(head.fields)), version, fields)
  {
    hide HeadMeans, Get, StoredHeaders, ValuesOf, LastValue, JoinItems, WithoutCommas, ClosesSaying, ClosesAfter;
    HeadersMean(head, version, status, reason, fields);
    var headers, values := StoredHeaders(head.fields), ValuesOf(fields, "connection");
    assert HeaderValue(fields, "connection") == if values == [] then None else Some(JoinItems(values)) by {
      ConnectionValue(fields);
    }
    CloseFlag(version, headers, []);
    forall items | WithoutCommas(items) && JoinItems(items) == JoinItems(values)
      ensures values != [] ==> (ClosesAfter(version, headers) <==> ClosesSaying(items, version))
    {
      CloseFlag(version, headers, items);
    }
  }

  lemma ConnectionValue(fields: seq<Field>)
    ensures HeaderValue(fields, "connection") ==
              var values := ValuesOf(fields, "connection");
              if values == [] then None else Some(JoinItems(values))
  {
    hide ValuesOf, JoinItems, LastValue;
    SameItself("connection");
    hide SameName;
    OtherFirst("connection", "set-cookie");
  }

  /** The attempt, once the head has been found. */
  lemma HeadFound(verb: Method, lines: seq<string>, rest: string, eof: bool)
    requires lines != [] && forall line :: line in lines ==> IsLine(line)
    ensures var text, size := LinesText(lines) + (CRLF + rest), |LinesText(lines)| + 2;
            && size + |rest| == |text| && text[size..] == rest
            && ParseResponse(verb, text, eof) ==
                 if MAX_HEADER < size then Failed(HEADER_TOO_LARGE)
                 else Deliver(ParseHead(LinesText(lines)), verb, text, size, eof)
  {
    hide LinesText, IsLine, ParseHead, Deliver, Find;
    HeadEnds(lines, rest);
  }

  lemma DeliveredFramed(
      parsed: Result<Head, ParseError>, verb: Method, version: nat, status: nat, reason: string, fields: seq<Field>,
      text: string, size: nat, eof: bool)
    requires WellFormed(version, status, reason, fields) && HeadRead(parsed, version, status, reason, fields)
    requires size <= |text| && size <= MAX_HEADER
    ensures Framed(verb, version, status, reason, fields, text[size..], eof, size,
                   Deliver(parsed, verb, text, size, eof))
  {
    hide WellFormed, HeadMeans, SomeRefused, ValuesOf, AnnouncedLength, IsFinalChunked, JoinItems, Items, Means,
      ChunkedLast, WithoutCommas,
      ClosesAsSaid, ParseChunks, StoredHeaders, ClosesAfter;
    if parsed.Ok? {
      var head, rest := parsed.value, text[size..];
      HeadParts(head, version, status, reason, fields);
      CodingsRead(ValuesOf(fields, "transfer-encoding"));
      ClosesSaid(head, version, status, reason, fields) by { VersionOf(version, status, reason, fields); }
      ResponseMeans(head, version, status, reason, fields, "", ClosesAfter(version, StoredHeaders(head.fields)));
      ResponseMeans(head, version, status, reason, fields, rest, true);
      var length := match head.fields.length case Some(n) => n case None => 0;
      if length <= |rest| {
        assert text[size..size + length] == rest[..length];
        ResponseMeans(head, version, status, reason, fields, rest[..length],
                      ClosesAfter(version, StoredHeaders(head.fields)));
      }
    }
  }

  // ----- transfer codings

  lemma BlanksAround(item: string, word: string, k: nat)
    requires NameEnds(item, k) && word != "" && Trimmed(word)
    ensures SameName(CodingOf(item), word) <==> Says(item[..k], word)
  {
    hide SameName, Says;
    CodingIs(item, k);
    SaysTrimmed(item[..k], word);
  }

  /** Cutting the parameters off before the blanks or behind them makes no difference. */
  lemma CodingIs(item: string, k: nat)
    requires NameEnds(item, k)
    ensures CodingOf(item) == Trim(item[..k])
  {
    hide Trim;
    var begin := SkipBlanks(item, 0);
    var end := DropBlanks(item, begin, |item|);
    assert Trim(item) == item[begin..end] by { TrimIs(item); }
    if k < |item| {
      CutName(item, begin, end, k);
    } else {
      assert item[..k] == item;
      assert FindChar(Trim(item), ';', 0) == None by { NoneInside(item, begin, end); }
      TrimIsTrimmed(item);
      TrimOfTrimmed(Trim(item));
    }
  }

  lemma TrimIs(item: string)
    ensures var begin := SkipBlanks(item, 0); Trim(item) == item[begin..DropBlanks(item, begin, |item|)]
  {
  }

  lemma NoneInside(item: string, begin: nat, end: nat)
    requires begin <= end <= |item| && ';' !in item
    ensures FindChar(item[begin..end], ';', 0) == None
  {
  }

  lemma CutName(item: string, begin: nat, end: nat, k: nat)
    requires k < |item| && NameEnds(item, k)
    requires begin == SkipBlanks(item, 0) && end == DropBlanks(item, begin, |item|)
    ensures begin <= k < end && FindChar(item[begin..end], ';', 0) == Some(k - begin)
    ensures item[begin..end][..k - begin] == item[begin..k] && Trim(item[begin..k]) == Trim(item[..k])
  {
    hide SkipBlanks, DropBlanks, Trim;
    assert !IsBlank(item[k]);
    var name := item[..k];
    assert forall j :: 0 <= j < k ==> name[j] == item[j];
    MarkInside(item, begin, end, k);
    SameTrim(name, begin);
    assert name[begin..] == item[begin..k];
  }

  lemma MarkInside(item: string, begin: nat, end: nat, k: nat)
    requires begin <= k < end <= |item| && item[k] == ';' && forall j :: 0 <= j < k ==> item[j] != ';'
    ensures FindChar(item[begin..end], ';', 0) == Some(k - begin)
    ensures item[begin..end][..k - begin] == item[begin..k]
  {
    FindCharIs(item[begin..end], ';', 0, k - begin);
  }

  lemma SameTrim(text: string, n: nat)
    requires n <= |text| && forall i :: 0 <= i < n ==> IsBlank(text[i])
    ensures Trim(text[n..]) == Trim(text)
  {
    hide SkipBlanks, DropBlanks, Trim, IsBlank;
    var rest := text[n..];
    TrimIs(text);
    TrimIs(rest);
    var b := SkipBlanks(rest, 0);
    var d := DropBlanks(rest, b, |rest|);
    assert SkipBlanks(text, 0) == n + b by { SameSkip(text, n); }
    assert DropBlanks(text, n + b, |text|) == n + d by { SameDrop(text, n, b); }
    assert text[n + b..n + d] == rest[b..d];
  }

  lemma SameSkip(text: string, n: nat)
    requires n <= |text| && forall i :: 0 <= i < n ==> IsBlank(text[i])
    ensures SkipBlanks(text, 0) == n + SkipBlanks(text[n..], 0)
  {
    hide SkipBlanks, IsBlank;
    var rest := text[n..];
    var c := SkipBlanks(rest, 0);
    forall i | 0 <= i < n + c ensures IsBlank(text[i]) {
      if n <= i {
        assert text[i] == rest[i - n];
      }
    }
    OneSkip(text, SkipBlanks(text, 0), n + c);
  }

  lemma OneSkip(text: string, a: nat, b: nat)
    requires a <= |text| && b <= |text|
    requires (forall i :: 0 <= i < a ==> IsBlank(text[i])) && (a < |text| ==> !IsBlank(text[a]))
    requires (forall i :: 0 <= i < b ==> IsBlank(text[i])) && (b < |text| ==> !IsBlank(text[b]))
    ensures a == b
  {
    hide IsBlank;
  }

  lemma SameDrop(text: string, n: nat, b: nat)
    requires n + b <= |text|
    ensures DropBlanks(text, n + b, |text|) == n + DropBlanks(text[n..], b, |text| - n)
  {
    hide DropBlanks, IsBlank;
    var rest := text[n..];
    assert forall i :: 0 <= i < |rest| ==> rest[i] == text[n + i];
    assert forall i :: n <= i < |text| ==> text[i] == rest[i - n];
  }

  lemma {:induction false} NameEnd(item: string) returns (k: nat)
    ensures NameEnds(item, k)
  {
    var found := FindChar(item, ';', 0);
    k := if found.Some? then found.value else |item|;
  }

  lemma OneEnd(item: string, j: nat, k: nat)
    requires NameEnds(item, j) && NameEnds(item, k)
    ensures j == k
  {
    if j < k {
      InFront(item, j, k);
    } else if k < j {
      InFront(item, k, j);
    }
  }

  lemma InFront(item: string, j: nat, k: nat)
    requires j < k <= |item|
    ensures item[j] in item[..k]
  {
    assert item[..k][j] == item[j];
  }

  lemma ItemNames(item: string)
    ensures SameName(CodingOf(item), "chunked") <==> NamesChunked(item)
    ensures CodingOf(item) == "" <==> NamesNothing(item)
  {
    hide SameName, Says, CodingOf;
    var k := NameEnd(item);
    BlanksAround(item, "chunked", k);
    CodingIs(item, k);
    AllBlank(item[..k]);
    if NamesChunked(item) {
      var j :| 0 <= j <= |item| && NameEnds(item, j) && Says(item[..j], "chunked");
      OneEnd(item, j, k);
    }
    if NamesNothing(item) {
      var j :| 0 <= j <= |item| && NameEnds(item, j) &&
               forall i :: 0 <= i < j ==> item[i] == ' ' || item[i] == '\t';
      OneEnd(item, j, k);
    }
    assert forall i :: 0 <= i < k ==> item[..k][i] == item[i];
  }

  lemma AllBlank(text: string)
    ensures Trim(text) == "" <==> forall i :: 0 <= i < |text| ==> text[i] == ' ' || text[i] == '\t'
  {
  }

  lemma ChunkedLastRead(items: seq<string>)
    requires WithoutCommas(items)
    ensures IsFinalChunked(Items(JoinItems(items), 0)) <==> ChunkedLast(items)
  {
    hide SameName, CodingOf, NamesChunked, NamesNothing;
    assert JoinItems(items)[0..] == JoinItems(items);
    ItemsOfJoined(JoinItems(items), 0, items);
    forall i | 0 <= i < |items|
      ensures SameName(CodingOf(items[i]), "chunked") <==> NamesChunked(items[i])
      ensures CodingOf(items[i]) == "" <==> NamesNothing(items[i])
    {
      ItemNames(items[i]);
    }
  }

  lemma CodingsRead(codings: seq<string>)
    ensures forall items :: WithoutCommas(items) && JoinItems(items) == JoinItems(codings) && !ChunkedLast(items) ==>
              !IsFinalChunked(Items(JoinItems(codings), 0))
  {
    hide IsFinalChunked, ChunkedLast, WithoutCommas, JoinItems;
    forall items | WithoutCommas(items) && JoinItems(items) == JoinItems(codings) && !ChunkedLast(items)
      ensures !IsFinalChunked(Items(JoinItems(codings), 0))
    {
      ChunkedLastRead(items);
    }
  }

  lemma VersionOf(version: nat, status: nat, reason: string, fields: seq<Field>)
    requires WellFormed(version, status, reason, fields)
    ensures version == 0x10 || version == 0x11
  {
  }

  lemma HeadParts(head: Head, version: nat, status: nat, reason: string, fields: seq<Field>)
    requires HeadMeans(head, version, status, reason, fields) && !SomeRefused(fields, 0)
    ensures head.line == StatusLine(version, status, reason)
    ensures var codings := ValuesOf(fields, "transfer-encoding");
            head.fields.coding == if codings == [] then None else Some(JoinItems(codings))
    ensures head.fields.length == AnnouncedLength(fields)
    ensures AnnouncedLength(fields).Some? <==> ValuesOf(fields, "content-length") != []
  {
    hide Sorted, Sought, ValuesOf, LastValue, AnnouncedLength, SomeRefused;
    assert fields[0..] == fields;
    LengthAccepted(fields, 0);
    StoredLists(fields, head.fields);
    LastOfValues(fields, "content-length");
    NotAnnounced(fields);
  }

  /** Every written response is framed as its head demands. */
  lemma WrittenResponseRead(
      verb: Method, version: nat, status: nat, reason: string, fields: seq<Field>, rest: string, eof: bool)
    requires WellFormed(version, status, reason, fields)
    ensures Framed(verb, version, status, reason, fields, rest, eof,
                   |LinesText(WrittenLines(version, status, reason, fields))| + 2,
                   ParseResponse(verb, Written(version, status, reason, fields, rest), eof))
  {
    hide WellFormed, HeadRead, Deliver, ParseHead, LinesText, IsLine, Framed, RequestPrinter.FieldLines, StatusLineText,
      ParseResponse;
    var lines := WrittenLines(version, status, reason, fields);
    WrittenHead(version, status, reason, fields);
    HeadFound(verb, lines, rest, eof);
    var text, size := Written(version, status, reason, fields, rest), |LinesText(lines)| + 2;
    if size <= MAX_HEADER {
      DeliveredFramed(ParseHead(LinesText(lines)), verb, version, status, reason, fields, text, size, eof);
    } else {
      TooLong(verb, version, status, reason, fields, rest, eof, size);
    }
  }

  lemma TooLong(
      verb: Method, version: nat, status: nat, reason: string, fields: seq<Field>, rest: string, eof: bool, size: nat)
    requires MAX_HEADER < size
    ensures Framed(verb, version, status, reason, fields, rest, eof, size, Failed(HEADER_TOO_LARGE))
  {
  }

  // ----- the chunked coding, announced by hand

  lemma ChunkedStart(verb: Method, version: nat, status: nat, reason: string, fields: seq<Field>, rest: string)
    requires WellFormed(version, status, reason, fields) && !EndsWithHead(verb, status)
    requires !SomeRefused(fields, 0) && ValuesOf(fields, "content-length") == []
    requires IsFinalChunked(Items(JoinItems(ValuesOf(fields, "transfer-encoding")), 0))
    requires ValuesOf(fields, "transfer-encoding") != []
    requires |LinesText(WrittenLines(version, status, reason, fields))| + 2 <= MAX_HEADER
    ensures var text, start := Written(version, status, reason, fields, rest),
                               StartOf(verb, Written(version, status, reason, fields, rest));
            && start.Some? && start.value.framing.Chunked?
            && start.value.size == |LinesText(WrittenLines(version, status, reason, fields))| + 2
            && text[start.value.size..] == rest
  {
    hide SomeRefused, ValuesOf, AnnouncedLength, IsFinalChunked, JoinItems, Items, LinesText, IsLine, ParseHead,
      RequestPrinter.FieldLines, StatusLineText, HeadMeans, Find, IsValidHeaderValue, PrintableField;
    var lines := WrittenLines(version, status, reason, fields);
    WrittenHead(version, status, reason, fields);
    HeadEnds(lines, rest);
    NothingAnnounced(fields);
    var parsed := ParseHead(LinesText(lines));
    HeadParts(parsed.value, version, status, reason, fields);
  }

  lemma NothingAnnounced(fields: seq<Field>)
    requires ValuesOf(fields, "content-length") == []
    ensures AnnouncedLength(fields) == None
  {
    hide ValuesOf, LastValue;
    LastOfValues(fields, "content-length");
    NotAnnounced(fields);
  }

  function WrittenChunked(
      version: nat, status: nat, reason: string, fields: seq<Field>, chunks: seq<Chunk>, extensions: string,
      trailers: seq<Field>, after: string): string {
    Written(version, status, reason, fields, Encode(chunks, EncodeEnd(extensions, trailers, after)))
  }

  /** A response whose last transfer coding, and no other, is written `chunked`, in any case, and whose
      body is encoded in any chunks: the data comes back, and what follows the encoding stays. */
  lemma WrittenChunkedRead(
      verb: Method, version: nat, status: nat, reason: string, fields: seq<Field>, codings: seq<string>,
      chunks: seq<Chunk>, extensions: string, trailers: seq<Field>, after: string)
    requires WellFormed(version, status, reason, fields) && !EndsWithHead(verb, status)
    requires ValuesOf(fields, "content-length") == [] && !SomeRefused(fields, 0)
    requires WithoutCommas(codings) && JoinItems(codings) == JoinItems(ValuesOf(fields, "transfer-encoding"))
    requires ValuesOf(fields, "transfer-encoding") != [] && ChunkedLast(codings)
    requires |LinesText(WrittenLines(version, status, reason, fields))| + 2 <= MAX_HEADER
    requires forall chunk :: chunk in chunks ==> chunk.data != "" && ValidExtensions(chunk.extensions)
    requires ValidExtensions(extensions) && forall field :: field in trailers ==> PrintableField(field)
    requires |DataOf(chunks)| <= MAX_BODY && |EncodeTrailers(trailers, "")| - 2 <= MAX_HEADER
    requires |WrittenChunked(version, status, reason, fields, chunks, extensions, trailers, after)| < Numbers.U64_LIMIT
    ensures var text := WrittenChunked(version, status, reason, fields, chunks, extensions, trailers, after);
            var outcome := ParseResponse(verb, text, false);
            && outcome.Finished? && outcome.response.body == DataOf(chunks)
            && outcome.consumed == |text| - |after| && text[outcome.consumed..] == after
  {
    hide WellFormed, SomeRefused, ValuesOf, LinesText, WrittenLines, IsFinalChunked, Items, JoinItems, Encode,
      EncodeEnd, EncodeTrailers, DataOf, ValidExtensions, PrintableField, ParseResponse, StartOf, Written, ChunkedLast,
      WithoutCommas;
    var rest := Encode(chunks, EncodeEnd(extensions, trailers, after));
    ChunkedLastRead(codings);
    ChunkedStart(verb, version, status, reason, fields, rest);
    ChunkedResponseRead(verb, Written(version, status, reason, fields, rest), chunks, extensions, trailers, after);
  }
}
