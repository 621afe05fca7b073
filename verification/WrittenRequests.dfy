/** Requests written by hand: any method, target, version, header lines in any number and order, and
    whatever follows the blank line; and what the parser makes of them. */
module WrittenRequests {
  import opened Wrappers
  import opened Text
  import Numbers
  import opened HeaderFields
  import opened HttpMessages
  import opened Lines
  import opened RequestParser
  import opened RequestPrinter
  import opened RequestRoundTrip

  // ----- header lines

  /** The value of the last field with that name. */
  function LastValue(fields: seq<Field>, name: string): Option<string> {
    if fields == [] then None
    else
      match LastValue(fields[1..], name)
      case Some(value) => Some(value)
      case None => if SameName(fields[0].name, name) then Some(fields[0].value) else None
  }

  predicate IsLength(field: Field) {
    SameName(field.name, "content-length")
  }

  /** Why a field is refused: a length that is no number or the second one, or a transfer coding. */
  function Refusal(fields: seq<Field>, i: nat): Option<ParseError>
    requires i < |fields|
  {
    if IsLength(fields[i]) then
      if ParseContentLength(fields[i].value).None? || exists j :: 0 <= j < i && IsLength(fields[j])
      then Some(INVALID_CONTENT_LENGTH) else None
    else if SameName(fields[i].name, "transfer-encoding") && fields[i].value != "" then
      Some(UNSUPPORTED_TRANSFER_ENCODING)
    else None
  }

  /** The first field that is refused decides. */
  function FirstRefusal(fields: seq<Field>, i: nat): Option<ParseError>
    requires i <= |fields|
    decreases |fields| - i
  {
    if i == |fields| then None
    else if Refusal(fields, i).Some? then Refusal(fields, i)
    else FirstRefusal(fields, i + 1)
  }

  /** What the fields announce, if they are accepted. */
  function AnnouncedLength(fields: seq<Field>): Option<nat> {
    match LastValue(fields, "content-length")
    case None => None
    case Some(value) => ParseContentLength(value)
  }

  predicate SeenLength(fields: seq<Field>, i: nat)
    requires i <= |fields|
  {
    exists j :: 0 <= j < i && IsLength(fields[j])
  }

  lemma SeenStep(fields: seq<Field>, i: nat)
    requires i < |fields|
    ensures SeenLength(fields, i + 1) <==> SeenLength(fields, i) || IsLength(fields[i])
  {
  }

  lemma OneField(fields: seq<Field>, i: nat, read: Fields)
    requires i < |fields| && (read.length.Some? <==> SeenLength(fields, i))
    ensures var r, field := AddField(read, fields[i]), fields[i];
            match Refusal(fields, i)
            case Some(e) => r == Err(e)
            case None =>
              r == Ok(Fields(Put(read.headers, field.name, field.value),
                             if IsLength(field) then ParseContentLength(field.value) else read.length))
  {
    hide Put, ParseContentLength, SameName;
  }

  /** The value under a name, once a field more has been stored. */
  lemma StoredValue(headers: Headers, field: Field, name: string)
    ensures Get(Put(headers, field.name, field.value), name) ==
            if SameName(field.name, name) then Some(field.value) else Get(headers, name)
  {
    if SameName(field.name, name) {
      GetAfterPut(headers, field.name, field.value, name);
    } else {
      GetOtherAfterPut(headers, field.name, field.value, name);
    }
  }

  predicate Sought(before: Headers, after: Headers, fields: seq<Field>, name: string) {
    Get(after, name) == match LastValue(fields, name) case Some(value) => Some(value) case None => Get(before, name)
  }

  lemma SoughtStep(before: Headers, after: Headers, fields: seq<Field>, name: string)
    requires fields != [] && Sought(Put(before, fields[0].name, fields[0].value), after, fields[1..], name)
    ensures Sought(before, after, fields, name)
  {
    hide Get, Put, SameName;
    StoredValue(before, fields[0], name);
  }

  /** The header lines one by one, from the i-th on. */
  lemma {:induction false} FieldsFrom(fields: seq<Field>, i: nat, read: Fields, name: string)
    requires i <= |fields| && Sorted(read.headers) && (read.length.Some? <==> SeenLength(fields, i))
    ensures AddAll(read, fields[i..]).Err? <==> FirstRefusal(fields, i).Some?
    ensures match AddAll(read, fields[i..])
            case Err(e) => FirstRefusal(fields, i) == Some(e)
            case Ok(all) =>
              && Sorted(all.headers) && Sought(read.headers, all.headers, fields[i..], name)
              && (all.length == if LastValue(fields[i..], "content-length").None? then read.length
                                else AnnouncedLength(fields[i..]))
    decreases |fields| - i
  {
    hide AddField, Put, Get, Sorted, ParseContentLength, SameName, SeenLength, Refusal, Sought;
    if i == |fields| {
      assert fields[i..] == [];
      assert Sought(read.headers, read.headers, [], name) by { NothingSought(read.headers, name); }
    } else {
      var rest := fields[i..];
      assert rest[0] == fields[i] && rest[1..] == fields[i + 1..];
      OneField(fields, i, read);
      SeenStep(fields, i);
      if Refusal(fields, i).None? {
        var more := AddField(read, fields[i]).value;
        PutSorted(read.headers, fields[i].name, fields[i].value);
        AcceptedLength(fields, i);
        FieldsFrom(fields, i + 1, more, name);
        match AddAll(more, fields[i + 1..]) {
          case Err(_) =>
          case Ok(all) => SoughtStep(read.headers, all.headers, rest, name);
        }
      }
    }
  }

  lemma NothingSought(headers: Headers, name: string)
    ensures Sought(headers, headers, [], name)
  {
  }

  lemma AcceptedLength(fields: seq<Field>, i: nat)
    requires i < |fields| && Refusal(fields, i).None?
    ensures IsLength(fields[i]) ==> ParseContentLength(fields[i].value).Some?
  {
    hide ParseContentLength, SameName;
  }

  // ----- request lines

  function Words(words: seq<string>): string {
    if words == [] then "" else if |words| == 1 then words[0] else words[0] + ([' '] + Words(words[1..]))
  }

  predicate Blankless(words: seq<string>) {
    forall i :: 0 <= i < |words| ==> Without(words[i], ' ')
  }

  lemma FirstBlank(line: string, begin: nat, first: string, rest: string)
    requires begin <= |line| && line[begin..] == first + ([' '] + rest) && Without(first, ' ')
    ensures FindChar(line, ' ', begin) == Some(begin + |first|) && begin + |first| < |line|
    ensures line[begin..begin + |first|] == first && line[begin + |first| + 1..] == rest
  {
    var tail := line[begin..];
    JoinedAt(first, ' ', rest);
    assert forall j :: begin <= j < |line| ==> line[j] == tail[j - begin];
    assert forall j :: 0 <= j < |first| ==> tail[j] == first[j];
    FindCharIs(line, ' ', begin, begin + |first|);
    assert line[begin..begin + |first|] == tail[..|first|];
    assert line[begin + |first| + 1..] == tail[|first| + 1..];
  }

  lemma NoBlank(line: string, begin: nat)
    requires begin <= |line| && Without(line[begin..], ' ')
    ensures FindChar(line, ' ', begin) == None
  {
    assert forall j :: begin <= j < |line| ==> line[j] == line[begin..][j - begin];
  }

  lemma RestBlankless(words: seq<string>)
    requires |words| > 1 && Blankless(words)
    ensures Blankless(words[1..]) && Without(words[0], ' ') && Words(words) == words[0] + ([' '] + Words(words[1..]))
  {
  }

  predicate IsMethodName(name: string) {
    exists verb: Method :: METHOD_NAMES[verb] == name
  }

  /** What three words are read as: the first one that is wrong decides. */
  predicate WordsRead(parsed: Result<RequestLine, ParseError>, name: string, target: string, last: string) {
    if name == "" || target == "" then parsed == Err(INVALID_REQUEST_TARGET)
    else if !IsMethodName(name) then parsed == Err(INVALID_METHOD)
    else if exists i :: 0 <= i < |target| && (target[i] <= ' ' || target[i] == 127 as char) then
      parsed == Err(INVALID_REQUEST_TARGET)
    else if last == "HTTP/1.1" || last == "HTTP/1.0" then
      && parsed.Ok? && METHOD_NAMES[parsed.value.verb] == name && parsed.value.target == target
      && parsed.value.version == if last == "HTTP/1.1" then 0x11 else 0x10
    else parsed == Err(INVALID_VERSION)
  }

  /** A line of words between single blanks: anything but three is no request line. */
  lemma RequestLineRead(words: seq<string>)
    requires words != [] && Blankless(words)
    ensures |words| != 3 ==> ParseRequestLine(Words(words)) == Err(INVALID_REQUEST_TARGET)
    ensures |words| == 3 ==> WordsRead(ParseRequestLine(Words(words)), words[0], words[1], words[2])
  {
    hide FindChar, LineOf, Without, Words, Blankless, WordsRead, ParseRequestLine;
    var line := Words(words);
    assert line[0..] == line;
    if |words| == 1 {
      OneWord(words);
      NoBlank(line, 0);
      NotThreeWords(line);
    } else {
      NextBlank(words, line, 0);
      var rest, begin := words[1..], |words[0]| + 1;
      if |words| == 2 {
        LastWord(rest, line, begin);
        NotThreeWords(line);
      } else {
        NextBlank(rest, line, begin);
        LastWord(rest[1..], line, begin + |rest[0]| + 1);
        if |words| == 3 {
          ThreeWords(line, words[0], words[1], words[2]);
        } else {
          NotThreeWords(line);
        }
      }
    }
  }

  lemma ThreeWords(line: string, name: string, target: string, last: string)
    requires var n, m := |name|, |name| + 1 + |target|;
             && m < |line|
             && FindChar(line, ' ', 0) == Some(n) && FindChar(line, ' ', n + 1) == Some(m)
             && FindChar(line, ' ', m + 1) == None
             && line[..n] == name && line[n + 1..m] == target && line[m + 1..] == last
    ensures WordsRead(ParseRequestLine(line), name, target, last)
  {
    hide FindChar, LineOf, WordsRead, ParseRequestLine;
    CutLineIsLineOf(line, name, target, last);
    LineOfWords(name, target, last);
  }

  /** One blank missing, or one too many. */
  lemma NotThreeWords(line: string)
    requires var first := FindChar(line, ' ', 0);
             first.Some? ==>
               var second := FindChar(line, ' ', first.value + 1);
               second.Some? ==> FindChar(line, ' ', second.value + 1).Some?
    ensures ParseRequestLine(line) == Err(INVALID_REQUEST_TARGET)
  {
    hide FindChar, LineOf;
  }

  lemma OneWord(words: seq<string>)
    requires |words| == 1 && Blankless(words)
    ensures Words(words) == words[0] && Without(Words(words), ' ')
  {
  }

  lemma NextBlank(words: seq<string>, line: string, begin: nat)
    requires |words| > 1 && Blankless(words) && begin <= |line| && line[begin..] == Words(words)
    ensures var end := begin + |words[0]|;
            && end < |line| && FindChar(line, ' ', begin) == Some(end) && line[begin..end] == words[0]
            && line[end + 1..] == Words(words[1..]) && Blankless(words[1..])
  {
    hide FindChar, Without, Words, Blankless;
    RestBlankless(words);
    FirstBlank(line, begin, words[0], Words(words[1..]));
  }

  lemma LastWord(words: seq<string>, line: string, begin: nat)
    requires words != [] && Blankless(words) && begin <= |line| && line[begin..] == Words(words)
    ensures FindChar(line, ' ', begin).Some? <==> |words| > 1
    ensures |words| == 1 ==> line[begin..] == words[0]
  {
    hide FindChar, Without, Words;
    if |words| == 1 {
      OneWord(words);
      NoBlank(line, begin);
    } else {
      NextBlank(words, line, begin);
    }
  }

  lemma LineOfWords(name: string, target: string, last: string)
    ensures WordsRead(LineOf(name, target, last), name, target, last)
  {
    hide MethodNamed, IsMethodName;
    NameListed(name);
  }

  lemma NameListed(name: string)
    ensures MethodNamed(name).Some? <==> IsMethodName(name)
    ensures MethodNamed(name).Some? ==> METHOD_NAMES[MethodNamed(name).value] == name
  {
    hide MethodNamed;
    if IsMethodName(name) {
      var verb: Method :| METHOD_NAMES[verb] == name;
      MethodRoundTrip(verb);
    }
    var found := MethodNamed(name);
    assert found.Some? ==> METHOD_NAMES[found.value] == name;
  }

  // ----- the whole request

  predicate WellFormed(target: Target, version: nat, fields: seq<Field>) {
    && (version == 0x10 || version == 0x11)
    && target.path != "" && IsTargetText(target.path) && IsTargetText(target.query) && IsTargetText(target.fragment)
    && Without(target.path, '#') && Without(target.path, '?') && Without(target.query, '#')
    && forall field :: field in fields ==> PrintableField(field)
  }

  /** The request line and the header lines. */
  function WrittenLines(verb: Method, target: Target, version: nat, fields: seq<Field>): seq<string> {
    [RequestLineText(verb, TargetText(target.path, target.query, target.fragment), version)] + FieldLines(fields)
  }

  function Written(verb: Method, target: Target, version: nat, fields: seq<Field>, rest: string): string {
    LinesText(WrittenLines(verb, target, version, fields)) + (CRLF + rest)
  }

  lemma LinesAreLines(first: string, fields: seq<Field>)
    requires IsLine(first) && forall field :: field in fields ==> PrintableField(field)
    ensures forall line :: line in [first] + FieldLines(fields) ==> IsLine(line)
  {
    hide IsLine, PrintableField, FieldLine;
    forall line | line in FieldLines(fields) ensures IsLine(line) {
      var i :| 0 <= i < |FieldLines(fields)| && FieldLines(fields)[i] == line;
      assert fields[i] in fields;
      FieldLineIsLine(fields[i]);
    }
  }

  lemma WrittenTarget(target: Target, version: nat, fields: seq<Field>)
    requires WellFormed(target, version, fields)
    ensures var text := TargetText(target.path, target.query, target.fragment);
            text != "" && IsTargetText(text) && SplitTarget(text) == target
  {
    hide PrintableField, SplitTarget, IsTargetCharacter, Without;
    TargetRoundTrip(target.path, target.query, target.fragment);
    MarksAreTarget();
    JoinedIsTarget(target.path, target.query, target.fragment);
    TargetNotEmpty(target.path, target.query, target.fragment);
  }

  lemma WrittenHead(verb: Method, target: Target, version: nat, fields: seq<Field>)
    requires WellFormed(target, version, fields)
    ensures var lines := WrittenLines(verb, target, version, fields);
            var text := TargetText(target.path, target.query, target.fragment);
            && (forall line :: line in lines ==> IsLine(line))
            && ParseHead(LinesText(lines)) ==
                 match AddAll(NO_FIELDS, fields)
                 case Err(e) => Err(e)
                 case Ok(read) => Ok(Head(RequestLine(verb, text, version), target, read))
  {
    WrittenTarget(target, version, fields);
    hide ParseRequestLine, SplitTarget, TargetText, RequestLineText, ParseHead, AddAll, PrintableField, IsLine,
      IsTargetText, Without, LinesText, FieldLines;
    var text := TargetText(target.path, target.query, target.fragment);
    var first := RequestLineText(verb, text, version);
    RequestLineRoundTrip(verb, text, version);
    LinesAreLines(first, fields);
    HeadOfLines(first, RequestLine(verb, text, version), target, fields);
  }

  lemma HeadOfLines(first: string, line: RequestLine, target: Target, fields: seq<Field>)
    requires IsLine(first) && ParseRequestLine(first) == Ok(line)
    requires SplitTarget(line.target) == target && target.path != ""
    requires forall field :: field in fields ==> PrintableField(field)
    ensures ParseHead(LinesText([first] + FieldLines(fields))) ==
            match AddAll(NO_FIELDS, fields)
            case Err(e) => Err(e)
            case Ok(read) => Ok(Head(line, target, read))
  {
    hide ParseRequestLine, SplitTarget, ParseFields, AddAll, PrintableField, IsLine, LinesText, FieldLines, Find;
    HeadText(first, fields);
    var head := LinesText([first] + FieldLines(fields));
    assert head[0..] == head;
    SplitLine(head, 0, first, LinesText(FieldLines(fields)));
    FieldsRoundTrip(head, |first| + 2, fields, NO_FIELDS);
  }

  /** Where the head of written lines ends. */
  lemma HeadEnds(lines: seq<string>, rest: string)
    requires lines != [] && forall line :: line in lines ==> IsLine(line)
    ensures var text, head := LinesText(lines) + (CRLF + rest), LinesText(lines);
            && 2 <= |head| && |text| == |head| + 2 + |rest| && Find(text, CRLFCRLF, 0) == Some(|head| - 2)
            && text[..|head|] == head && text[|head| + 2..] == rest
  {
    hide At, LinesText, IsLine;
    BlankLineBehind(lines, rest);
    FindIs(LinesText(lines) + (CRLF + rest), CRLFCRLF, 0, |LinesText(lines)| - 2);
    HeadAndBody(LinesText(lines), rest);
  }

  /** The message that a request with these parts is, whatever its header map looks like inside. */
  ghost predicate Means(
      request: HttpRequest, verb: Method, target: Target, version: nat, fields: seq<Field>, body: string) {
    && request.verb == verb && request.version == version && !request.websocket && request.body == body
    && request.path == target.path && request.query == target.query && request.fragment == target.fragment
    && Sorted(request.headers)
    && (forall name :: Get(request.headers, name) == LastValue(fields, name))
    && (LastValue(fields, "connection").None? ==> (request.close <==> version == 0x10))
    && (forall items :: WithoutCommas(items) && LastValue(fields, "connection") == Some(JoinItems(items)) ==>
          (request.close <==> ClosesSaying(items, version)))
  }

  lemma HeadersMean(read: Fields, fields: seq<Field>)
    requires AddAll(NO_FIELDS, fields) == Ok(read)
    ensures FirstRefusal(fields, 0).None? && Sorted(read.headers) && read.length == AnnouncedLength(fields)
    ensures forall name :: Get(read.headers, name) == LastValue(fields, name)
  {
    hide AddAll, FirstRefusal, Sorted, LastValue, AnnouncedLength, SeenLength;
    assert fields[0..] == fields;
    NothingRead(fields);
    forall name ensures Get(read.headers, name) == LastValue(fields, name) {
      FieldsFrom(fields, 0, NO_FIELDS, name);
    }
    FieldsFrom(fields, 0, NO_FIELDS, "");
    assert LastValue(fields, "content-length").None? ==> AnnouncedLength(fields).None? by { NotAnnounced(fields); }
  }

  lemma NothingRead(fields: seq<Field>)
    ensures Sorted(NO_FIELDS.headers) && NO_FIELDS.length.None? && !SeenLength(fields, 0)
  {
  }

  lemma NotAnnounced(fields: seq<Field>)
    ensures LastValue(fields, "content-length").None? ==> AnnouncedLength(fields).None?
  {
  }

  lemma RequestMeans(verb: Method, target: Target, version: nat, fields: seq<Field>, read: Fields, body: string)
    requires WellFormed(target, version, fields) && AddAll(NO_FIELDS, fields) == Ok(read)
    ensures var text := TargetText(target.path, target.query, target.fragment);
            Means(RequestOf(Head(RequestLine(verb, text, version), target, read), body), verb, target, version, fields,
                  body)
  {
    hide AddAll, ClosesAfter, LastValue, Get, Sorted, ClosesSaying, IsTargetText, Without, WithoutCommas, JoinItems,
      PrintableField;
    HeadersMean(read, fields);
    CloseFlag(version, read.headers, []);
    forall items | WithoutCommas(items) && LastValue(fields, "connection") == Some(JoinItems(items))
      ensures ClosesAfter(version, read.headers) <==> ClosesSaying(items, version)
    {
      CloseFlag(version, read.headers, items);
    }
  }

  /** Every written request gets the answer that its parts demand: the limit of 64 KiB on the head, the
      first refused field or the limit of 64 MiB on the body decides, then the announced length, and
      what follows is left alone. */
  lemma WrittenRequestRead(verb: Method, target: Target, version: nat, fields: seq<Field>, rest: string)
    requires WellFormed(target, version, fields)
    ensures var size := |LinesText(WrittenLines(verb, target, version, fields))| + 2;
            var length := match AnnouncedLength(fields) case Some(n) => n case None => 0;
            var outcome := ParseRequest(Written(verb, target, version, fields, rest));
            if 0x1_0000 < size then outcome == Failed(HEADER_TOO_LARGE)
            else if FirstRefusal(fields, 0).Some? then outcome == Failed(FirstRefusal(fields, 0).value)
            else if 0x400_0000 < length then outcome == Failed(BODY_TOO_LARGE)
            else if |rest| < length then outcome == NeedMore
            else
              && outcome.Finished? && outcome.consumed == size + length
              && Means(outcome.request, verb, target, version, fields, rest[..length])
  {
    hide ParseHead, AddAll, LinesText, WrittenLines, Find, IsLine, WellFormed, FirstRefusal, AnnouncedLength, Means,
      RequestOf;
    var lines := WrittenLines(verb, target, version, fields);
    WrittenHead(verb, target, version, fields);
    assert lines != [] by { HasLines(verb, target, version, fields); }
    HeadEnds(lines, rest);
    assert fields[0..] == fields;
    FieldsFrom(fields, 0, NO_FIELDS, "");
    match AddAll(NO_FIELDS, fields) {
      case Err(_) =>
      case Ok(read) =>
        HeadersMean(read, fields);
        var text, size := Written(verb, target, version, fields, rest), |LinesText(lines)| + 2;
        var length := match read.length case Some(n) => n case None => 0;
        if length <= |rest| {
          assert text[size..size + length] == rest[..length];
          RequestMeans(verb, target, version, fields, read, rest[..length]);
        }
    }
  }

  lemma HasLines(verb: Method, target: Target, version: nat, fields: seq<Field>)
    ensures WrittenLines(verb, target, version, fields) != []
  {
  }

  // ----- one of them, byte by byte

  const HOST := Field("Host", "x")
  const LENGTH := Field("Content-Length", "2")

  lemma FirstLineSpelled()
    ensures RequestLineText(GET, TargetText("/a", "b", "c"), 0x11) == "GET /a?b#c HTTP/1.1"
  {
    assert METHOD_NAMES[GET] == "GET";
    assert VersionText(0x11) == "HTTP/1.1" by { VersionSpelled(); }
    hide VersionText;
    assert TargetText("/a", "b", "c") == "/a?b#c";
  }

  lemma VersionSpelled()
    ensures VersionText(0x11) == "HTTP/1.1"
  {
    assert Numbers.NumberText(1, 10) == "1";
  }

  lemma LinesSpelled()
    ensures FieldLines([HOST, LENGTH]) == ["Host: x", "Content-Length: 2"]
  {
    assert [HOST, LENGTH][1..] == [LENGTH] && [LENGTH][1..] == [];
    assert FieldLine(HOST) == "Host: x";
    assert FieldLine(LENGTH) == "Content-Length: 2";
  }

  lemma ThreeLines(a: string, b: string, c: string, rest: string)
    ensures LinesText([a, b, c]) + (CRLF + rest) == a + (CRLF + (b + (CRLF + (c + (CRLF + (CRLF + rest))))))
    ensures |LinesText([a, b, c])| == |a| + |b| + |c| + 6
  {
    assert [a, b, c][1..] == [b, c] && [b, c][1..] == [c] && [c][1..] == [];
    assert LinesText([c]) == c + (CRLF + "");
    assert LinesText([b, c]) == b + (CRLF + LinesText([c]));
  }

  lemma LinesTogether(lines: seq<string>, a: string, b: string, c: string)
    requires lines == [a, b, c]
    ensures LinesText(lines) + (CRLF + "ok") == a + (CRLF + (b + (CRLF + (c + (CRLF + (CRLF + "ok"))))))
    ensures |LinesText(lines)| == |a| + |b| + |c| + 6
  {
    ThreeLines(a, b, c, "ok");
  }

  /** The bytes on the wire. */
  const WIRE: string :=
    "GET /a?b#c HTTP/1.1" + (CRLF + ("Host: x" + (CRLF + ("Content-Length: 2" + (CRLF + (CRLF + "ok"))))))

  lemma TextSpelled()
    ensures Written(GET, Target("/a", "b", "c"), 0x11, [HOST, LENGTH], "ok") == WIRE
    ensures |LinesText(WrittenLines(GET, Target("/a", "b", "c"), 0x11, [HOST, LENGTH]))| == 49
  {
    hide FieldLines, RequestLineText, TargetText;
    FirstLineSpelled();
    LinesSpelled();
    var a, b, c := "GET /a?b#c HTTP/1.1", "Host: x", "Content-Length: 2";
    var lines := WrittenLines(GET, Target("/a", "b", "c"), 0x11, [HOST, LENGTH]);
    assert lines == [a, b, c];
    LinesTogether(lines, a, b, c);
  }

  lemma HostSpelled()
    ensures SameName("Host", "host") && PrintableField(HOST)
  {
  }

  lemma TwoSpelled()
    ensures PrintableField(LENGTH) && ParseContentLength("2") == Some(2)
  {
    hide ParseContentLength, PrintableField;
    assert Numbers.NumberText(2, 10) == "2";
    LengthTextRead(2);
    OwnFieldsPrintable(true, 2);
  }

  lemma TargetSpelled()
    ensures WellFormed(Target("/a", "b", "c"), 0x11, [])
  {
  }

  lemma FieldsSpelled()
    ensures WellFormed(Target("/a", "b", "c"), 0x11, [HOST, LENGTH])
    ensures FirstRefusal([HOST, LENGTH], 0) == None && AnnouncedLength([HOST, LENGTH]) == Some(2)
    ensures LastValue([HOST, LENGTH], "host") == Some("x") && LastValue([HOST, LENGTH], "connection") == None
  {
    hide SameName, PrintableField, ParseContentLength, IsTargetText, Without;
    HostSpelled();
    TwoSpelled();
    LengthSpelled();
    TargetSpelled();
    OtherLength("Host", "content-length");
    OtherLength("Host", "transfer-encoding");
    OtherLength("Host", "connection");
    OtherLength("Content-Length", "host");
    OtherLength("Content-Length", "connection");
    var fields := [HOST, LENGTH];
    assert fields[1..] == [LENGTH] && [LENGTH][1..] == [];
    assert FirstRefusal(fields, 2) == None;
    assert Refusal(fields, 0) == None && Refusal(fields, 1) == None;
    assert FirstRefusal(fields, 1) == None;
    assert LastValue([LENGTH], "content-length") == Some("2");
    assert LastValue([LENGTH], "host") == None && LastValue([LENGTH], "connection") == None;
    assert LastValue(fields, "host") == Some("x") && LastValue(fields, "connection") == None;
  }

  /** One request byte by byte: the letters, marks and blanks of the wire. */
  lemma ForInstance()
    ensures var outcome := ParseRequest(WIRE);
            && outcome.Finished? && outcome.consumed == 53
            && outcome.request.verb == GET && outcome.request.version == 0x11 && !outcome.request.close
            && outcome.request.path == "/a" && outcome.request.query == "b" && outcome.request.fragment == "c"
            && outcome.request.body == "ok" && Get(outcome.request.headers, "host") == Some("x")
  {
    hide ParseRequest, WellFormed, LinesText, WrittenLines, Written, LastValue, Get, FirstRefusal, AnnouncedLength;
    TextSpelled();
    FieldsSpelled();
    WrittenRequestRead(GET, Target("/a", "b", "c"), 0x11, [HOST, LENGTH], "ok");
    assert "ok"[..2] == "ok";
  }
}
