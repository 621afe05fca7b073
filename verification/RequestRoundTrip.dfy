/** Parsing what `HttpRequest::dump` printed. */
module RequestRoundTrip {
  import opened Wrappers
  import opened Text
  import opened Numbers
  import opened HeaderFields
  import opened HttpMessages
  import opened Lines
  import opened RequestParser
  import opened RequestPrinter

  /** The header list read field by field. */
  function AddAll(fields: Fields, list: seq<Field>): Result<Fields, ParseError>
    decreases |list|
  {
    if list == [] then Ok(fields)
    else
      match AddField(fields, list[0])
      case Err(error) => Err(error)
      case Ok(more) => AddAll(more, list[1..])
  }

  /** Reading printed header lines gives the printed fields, one by one. */
  lemma {:induction false} FieldsRoundTrip(head: string, begin: nat, list: seq<Field>, fields: Fields)
    requires begin <= |head| && head[begin..] == LinesText(FieldLines(list))
    requires forall field :: field in list ==> PrintableField(field)
    ensures ParseFields(head, begin, fields) == AddAll(fields, list)
    decreases |list|
  {
    hide At, ParseField, AddField, FieldLine;
    if list != [] {
      var field := list[0];
      var line, end := FieldLine(field), begin + |FieldLine(field)|;
      var rest := LinesText(FieldLines(list[1..]));
      FieldLineIsLine(field);
      FieldRoundTrip(field);
      assert FieldLines(list)[1..] == FieldLines(list[1..]);
      assert head[begin..] == line + (CRLF + rest);
      SplitLine(head, begin, line, rest);
      match AddField(fields, field) {
        case Err(_) =>
        case Ok(more) => FieldsRoundTrip(head, end + 2, list[1..], more);
      }
    }
  }

  predicate Without(text: string, c: char) {
    forall i :: 0 <= i < |text| ==> text[i] != c
  }

  predicate IsMethodText(text: string) {
    text != "" && forall i :: 0 <= i < |text| ==> 'A' <= text[i] <= 'Z' || text[i] == '-'
  }

  lemma FirstNameLetters(verb: Method)
    requires verb < 14
    ensures IsMethodText(METHOD_NAMES[verb])
  {
  }

  lemma MiddleNameLetters(verb: Method)
    requires 14 <= verb < 24
    ensures IsMethodText(METHOD_NAMES[verb])
  {
  }

  lemma LastNameLetters(verb: Method)
    requires verb >= 24
    ensures IsMethodText(METHOD_NAMES[verb])
  {
  }

  lemma MethodNameLetters(verb: Method)
    ensures IsMethodText(METHOD_NAMES[verb]) && Without(METHOD_NAMES[verb], ' ')
  {
    hide IsMethodText, Without;
    if verb < 14 {
      FirstNameLetters(verb);
    } else if verb < 24 {
      MiddleNameLetters(verb);
    } else {
      LastNameLetters(verb);
    }
    LettersOnly(METHOD_NAMES[verb]);
  }

  lemma LettersOnly(name: string)
    requires IsMethodText(name)
    ensures Without(name, ' ')
  {
  }

  lemma VersionRoundTrip(version: nat)
    requires version == 0x10 || version == 0x11
    ensures VersionNamed(VersionText(version)) == Some(version)
    ensures Without(VersionText(version), ' ') && IsLine(VersionText(version))
  {
    assert NumberText(1, 10) == "1" && NumberText(0, 10) == "0";
    assert VersionText(version) == if version == 0x11 then "HTTP/1.1" else "HTTP/1.0";
  }

  /** The request line is read back. */
  lemma RequestLineRoundTrip(verb: Method, target: string, version: nat)
    requires version == 0x10 || version == 0x11
    requires target != "" && IsTargetText(target)
    ensures ParseRequestLine(RequestLineText(verb, target, version)) == Ok(RequestLine(verb, target, version))
    ensures IsLine(RequestLineText(verb, target, version))
  {
    hide VersionText, MethodNamed, VersionNamed, ParseRequestLine, IsLine, Without, IsMethodText;
    MethodNameLetters(verb);
    MethodRoundTrip(verb);
    VersionRoundTrip(version);
    NamedLineRoundTrip(METHOD_NAMES[verb], verb, target, VersionText(version), version);
  }

  lemma NamedLineRoundTrip(name: string, verb: Method, target: string, last: string, version: nat)
    requires IsMethodText(name) && Without(name, ' ') && MethodNamed(name) == Some(verb)
    requires target != "" && IsTargetText(target)
    requires VersionNamed(last) == Some(version) && Without(last, ' ') && IsLine(last)
    ensures var line := name + ([' '] + (target + ([' '] + last)));
            ParseRequestLine(line) == Ok(RequestLine(verb, target, version)) && IsLine(line)
  {
    hide MethodNamed, VersionNamed, ParseRequestLine, IsLine, Without, IsTargetText;
    CutInThree(name, target, last);
    CutLineRoundTrip(name + ([' '] + (target + ([' '] + last))), name, verb, target, last, version);
    RequestLineIsLine(name, target, last);
  }

  lemma CutLineRoundTrip(line: string, name: string, verb: Method, target: string, last: string, version: nat)
    requires name != "" && MethodNamed(name) == Some(verb)
    requires target != "" && IsTargetText(target) && VersionNamed(last) == Some(version)
    requires var n, m := |name|, |name| + 1 + |target|;
             && m < |line|
             && FindChar(line, ' ', 0) == Some(n) && FindChar(line, ' ', n + 1) == Some(m)
             && FindChar(line, ' ', m + 1) == None
             && line[..n] == name && line[n + 1..m] == target && line[m + 1..] == last
    ensures ParseRequestLine(line) == Ok(RequestLine(verb, target, version))
  {
    hide MethodNamed, VersionNamed, FindChar, IsTargetText, LineOf, ParseRequestLine;
    CutLineIsLineOf(line, name, target, last);
    LineOfParts(name, verb, target, last, version);
  }

  lemma CutLineIsLineOf(line: string, name: string, target: string, last: string)
    requires var n, m := |name|, |name| + 1 + |target|;
             && m < |line|
             && FindChar(line, ' ', 0) == Some(n) && FindChar(line, ' ', n + 1) == Some(m)
             && FindChar(line, ' ', m + 1) == None
             && line[..n] == name && line[n + 1..m] == target && line[m + 1..] == last
    ensures ParseRequestLine(line) == LineOf(name, target, last)
  {
    hide LineOf, FindChar;
  }

  lemma LineOfParts(name: string, verb: Method, target: string, last: string, version: nat)
    requires name != "" && MethodNamed(name) == Some(verb)
    requires target != "" && IsTargetText(target) && VersionNamed(last) == Some(version)
    ensures LineOf(name, target, last) == Ok(RequestLine(verb, target, version))
  {
    hide MethodNamed, VersionNamed, IsTargetText;
  }

  lemma RequestLineIsLine(name: string, target: string, last: string)
    requires IsMethodText(name) && IsTargetText(target) && IsLine(last)
    ensures IsLine(name + ([' '] + (target + ([' '] + last))))
  {
    var line, n, m := name + ([' '] + (target + ([' '] + last))), |name|, |name| + 1 + |target|;
    forall i | 0 <= i < |line| ensures IsLineCharacter(line[i]) {
      if n < i < m {
        assert line[i] == target[i - n - 1] && IsTargetCharacter(target[i - n - 1]);
      } else if m < i {
        assert line[i] == last[i - m - 1];
      }
    }
  }

  lemma CutInThree(name: string, target: string, last: string)
    requires Without(name, ' ') && IsTargetText(target) && Without(last, ' ')
    ensures var line, n, m := name + ([' '] + (target + ([' '] + last))), |name|, |name| + 1 + |target|;
            && FindChar(line, ' ', 0) == Some(n) && FindChar(line, ' ', n + 1) == Some(m)
            && FindChar(line, ' ', m + 1) == None && m < |line|
            && line[..n] == name && line[n + 1..m] == target && line[m + 1..] == last
  {
    hide Without, IsTargetText, FindChar;
    var rest := target + ([' '] + last);
    JoinedAt(name, ' ', rest);
    JoinedAt(target, ' ', last);
    ThreeParts(name + ([' '] + rest), rest, |name|, |target|);
  }

  lemma ThreeParts(line: string, rest: string, n: nat, t: nat)
    requires n < |line| && line[n + 1..] == rest && t < |rest| && line[n] == ' ' && rest[t] == ' '
    requires Without(line[..n], ' ') && IsTargetText(rest[..t]) && Without(rest[t + 1..], ' ')
    ensures var m := n + 1 + t;
            && FindChar(line, ' ', 0) == Some(n) && FindChar(line, ' ', n + 1) == Some(m)
            && FindChar(line, ' ', m + 1) == None && m < |line|
            && line[n + 1..m] == rest[..t] && line[m + 1..] == rest[t + 1..]
  {
    var m := n + 1 + t;
    forall i | 0 <= i < n ensures line[i] != ' ' {
      assert line[i] == line[..n][i];
    }
    FindCharIs(line, ' ', 0, n);
    assert forall i :: n < i < |line| ==> line[i] == rest[i - n - 1];
    forall i | n + 1 <= i < m ensures line[i] != ' ' {
      assert line[i] == rest[..t][i - n - 1] && IsTargetCharacter(rest[..t][i - n - 1]);
    }
    FindCharIs(line, ' ', n + 1, m);
    forall i | m + 1 <= i < |line| ensures line[i] != ' ' {
      assert line[i] == rest[t + 1..][i - m - 1];
    }
  }

  /** The target is taken apart into the pieces it was printed from. */
  lemma TargetRoundTrip(path: string, query: string, fragment: string)
    requires Without(path, '#') && Without(path, '?') && Without(query, '#')
    ensures SplitTarget(TargetText(path, query, fragment)) == Target(path, query, fragment)
  {
    hide FindChar, Without;
    var front := path + if query == "" then "" else ['?'] + query;
    assert Without(front, '#') by { NoHash(path, query); }
    assert TargetText(path, query, fragment) == front + if fragment == "" then "" else ['#'] + fragment;
    CutMark(front, '#', fragment);
    CutMark(path, '?', query);
  }

  lemma NoHash(path: string, query: string)
    requires Without(path, '#') && Without(query, '#')
    ensures Without(path + if query == "" then "" else ['?'] + query, '#')
  {
  }

  /** A text is taken apart at the mark it was joined with. */
  lemma CutMark(front: string, mark: char, back: string)
    requires Without(front, mark)
    ensures var text := front + if back == "" then "" else [mark] + back;
            match FindChar(text, mark, 0)
            case Some(k) => text[..k] == front && text[k + 1..] == back
            case None => text == front && back == ""
  {
    if back == "" {
      assert front + "" == front;
    } else {
      var text := front + ([mark] + back);
      JoinedAt(front, mark, back);
      assert forall i :: 0 <= i < |front| ==> text[i] == front[i];
      FindCharIs(text, mark, 0, |front|);
    }
  }

  /** A field the request parser accepts wherever it stands. */
  predicate Acceptable(field: Field) {
    && (SameName(field.name, "transfer-encoding") ==> field.value == "")
    && (SameName(field.name, "content-length") ==> ParseContentLength(field.value).Some?)
  }

  /** The length that a header map announces. */
  function LengthIn(headers: Headers): Option<nat> {
    match Get(headers, "content-length")
    case None => None
    case Some(value) => ParseContentLength(value)
  }

  lemma GetAppended(headers: Headers, field: Field, name: string)
    ensures Get(headers + [field], name) ==
            if Get(headers, name).Some? then Get(headers, name)
            else if SameName(field.name, name) then Some(field.value) else None
  {
    if headers != [] {
      assert (headers + [field])[1..] == headers[1..] + [field];
      GetAppended(headers[1..], field, name);
    }
  }

  lemma GetFinds(headers: Headers, name: string)
    ensures Get(headers, name).Some? ==>
              exists i :: 0 <= i < |headers| && SameName(headers[i].name, name) &&
                headers[i].value == Get(headers, name).value
    ensures Get(headers, name).None? ==> forall i :: 0 <= i < |headers| ==> !SameName(headers[i].name, name)
  {
    if headers != [] && !SameName(headers[0].name, name) {
      GetFinds(headers[1..], name);
      if Get(headers, name).Some? {
        var i :| 0 <= i < |headers[1..]| && SameName(headers[1..][i].name, name)
                 && headers[1..][i].value == Get(headers, name).value;
        assert headers[i + 1] == headers[1..][i];
      }
    }
  }

  /** One further field of a sorted map: it is appended, and the announced length follows. */
  lemma AddOne(done: Headers, field: Field)
    requires Sorted(done + [field])
    requires forall i :: 0 <= i < |done| ==> Acceptable(done[i])
    ensures AddField(Fields(done, LengthIn(done)), field).Ok? <==> Acceptable(field)
    ensures Acceptable(field) ==>
              AddField(Fields(done, LengthIn(done)), field) == Ok(Fields(done + [field], LengthIn(done + [field])))
  {
    forall i | 0 <= i < |done| ensures NameLess(done[i].name, field.name) && !SameName(done[i].name, field.name) {
      assert (done + [field])[i] == done[i] && (done + [field])[|done|] == field;
      NameLessTotal(done[i].name, field.name);
    }
    PutAtEnd(done, field.name, field.value);
    GetAppended(done, field, "content-length");
    GetFinds(done, "content-length");
  }

  /** Reading the fields of a sorted map rebuilds the map, or fails if one is not acceptable. */
  lemma {:induction false} AddSorted(done: Headers, list: Headers)
    requires Sorted(done + list)
    requires forall i :: 0 <= i < |done| ==> Acceptable(done[i])
    ensures (forall i :: 0 <= i < |list| ==> Acceptable(list[i])) ==>
              AddAll(Fields(done, LengthIn(done)), list) == Ok(Fields(done + list, LengthIn(done + list)))
    ensures AddAll(Fields(done, LengthIn(done)), list).Ok? ==> forall i :: 0 <= i < |list| ==> Acceptable(list[i])
    decreases |list|
  {
    hide AddField, Acceptable, LengthIn;
    if list == [] {
      assert done + list == done;
    } else {
      var more := done + [list[0]];
      assert more + list[1..] == done + list;
      assert Sorted(more) by {
        assert forall i | 0 <= i < |more| :: more[i] == (done + list)[i];
      }
      AddOne(done, list[0]);
      if Acceptable(list[0]) {
        AddSorted(more, list[1..]);
      }
    }
  }

  lemma AddAllOfConcat(fields: Fields, a: seq<Field>, b: seq<Field>)
    ensures AddAll(fields, a + b) ==
            match AddAll(fields, a)
            case Err(error) => Err(error)
            case Ok(more) => AddAll(more, b)
    decreases |a|
  {
    if a == [] {
      assert a + b == b;
    } else {
      assert (a + b)[1..] == a[1..] + b;
      match AddField(fields, a[0]) {
        case Err(_) =>
        case Ok(more) => AddAllOfConcat(more, a[1..], b);
      }
    }
  }

  function KeptFields(request: HttpRequest): Headers {
    Kept(request.headers, true, request.body != "")
  }

  /** The header map of the request that is read back: the printed fields, stored by name. */
  function HeadersReadBack(request: HttpRequest): Headers {
    var connection := ConnectionField(request.close);
    var length := LengthField(|request.body|);
    var headers := Put(KeptFields(request), connection.name, connection.value);
    if request.body == "" then headers else Put(headers, length.name, length.value)
  }

  lemma ConnectionRead(fields: Fields, close: bool)
    ensures var field := ConnectionField(close);
            AddField(fields, field) == Ok(Fields(Put(fields.headers, field.name, field.value), fields.length))
  {
    hide Put;
  }

  lemma LengthTextRead(length: nat)
    requires length < U64_LIMIT
    ensures ParseContentLength(NumberText(length, 10)) == Some(length)
  {
    var text := NumberText(length, 10);
    NumberRoundTrip(length, 10);
    assert IsLowerDigit(text[0]) && IsLowerDigit(text[|text| - 1]);
    TrimOfTrimmed(text);
    ParsePrinted(length, 10, U64_LIMIT);
  }

  lemma LengthRead(fields: Fields, length: nat)
    requires length < U64_LIMIT && fields.length.None?
    ensures var field := LengthField(length);
            AddField(fields, field) == Ok(Fields(Put(fields.headers, field.name, field.value), Some(length)))
  {
    hide Put, ParseContentLength, NumberText;
    LengthTextRead(length);
  }

  function OwnFields(request: HttpRequest): seq<Field> {
    [ConnectionField(request.close)] + if request.body == "" then [] else [LengthField(|request.body|)]
  }

  lemma OwnFieldsRead(request: HttpRequest, fields: Fields)
    requires fields.headers == KeptFields(request) && |request.body| < U64_LIMIT
    requires request.body != "" ==> fields.length.None?
    ensures AddAll(fields, OwnFields(request)) ==
            Ok(Fields(HeadersReadBack(request), if request.body == "" then fields.length else Some(|request.body|)))
  {
    hide AddField, Put, Kept, ConnectionField, LengthField;
    var connection, length := ConnectionField(request.close), LengthField(|request.body|);
    var own := OwnFields(request);
    ConnectionRead(fields, request.close);
    var more := Fields(Put(fields.headers, connection.name, connection.value), fields.length);
    assert AddAll(fields, own) == AddAll(more, own[1..]);
    if request.body != "" {
      LengthRead(more, |request.body|);
      assert own[1..] == [length] && own[1..][1..] == [];
    }
  }

  /** Reading all printed fields. */
  lemma PrintedFieldsRead(request: HttpRequest)
    requires !request.websocket && Sorted(request.headers) && |request.body| < U64_LIMIT
    ensures var kept := KeptFields(request);
            if forall i :: 0 <= i < |kept| ==> Acceptable(kept[i]) then
              AddAll(NO_FIELDS, PrintedFields(request)) ==
              Ok(Fields(HeadersReadBack(request), if request.body == "" then LengthIn(kept) else Some(|request.body|)))
            else AddAll(NO_FIELDS, PrintedFields(request)).Err?
  {
    hide AddField, Acceptable, Put, Kept, ConnectionField, LengthField, AddAll, HeadersReadBack, LengthIn;
    var kept := KeptFields(request);
    assert PrintedFields(request) == kept + OwnFields(request);
    AddAllOfConcat(NO_FIELDS, kept, OwnFields(request));
    KeptSorted(request.headers, true, request.body != "");
    NothingAnnounced();
    assert [] + kept == kept;
    AddSorted([], kept);
    if forall i :: 0 <= i < |kept| ==> Acceptable(kept[i]) {
      if request.body != "" {
        NoLengthKept(request.headers);
      }
      OwnFieldsRead(request, Fields(kept, LengthIn(kept)));
    }
  }

  lemma NothingAnnounced()
    ensures LengthIn([]) == None
  {
  }

  lemma NoLengthKept(headers: Headers)
    ensures Get(Kept(headers, true, true), "content-length") == None
    ensures LengthIn(Kept(headers, true, true)) == None
  {
    var kept := Kept(headers, true, true);
    GetFinds(kept, "content-length");
    if Get(kept, "content-length").Some? {
      var i :| 0 <= i < |kept| && SameName(kept[i].name, "content-length");
      KeptMember(headers, true, true, i);
    }
  }

  /** The Connection line decides the close flag, whatever the version. */
  lemma CloseRoundTrip(version: nat, headers: Headers, close: bool)
    requires Get(headers, "connection") == Some(ConnectionField(close).value)
    ensures ClosesAfter(version, headers) == close
  {
    hide ContainsToken, Get;
    if close {
      CloseToken();
    } else {
      KeepAliveToken();
    }
  }

  lemma CloseToken()
    ensures ContainsToken("close", "close")
  {
    hide Trim, SameName;
    assert Items("close", 0) == ["close"];
    TrimOfTrimmed("close");
    SingleItem("close", "close");
    SameItself("close");
  }

  lemma KeepAliveToken()
    ensures ContainsToken("keep-alive", "keep-alive") && !ContainsToken("keep-alive", "close")
  {
    hide Trim, SameName;
    assert Items("keep-alive", 0) == ["keep-alive"];
    TrimOfTrimmed("keep-alive");
    SingleItem("keep-alive", "keep-alive");
    SingleItem("keep-alive", "close");
    SameItself("keep-alive");
    OtherLength("keep-alive", "close");
  }

  lemma SingleItem(value: string, token: string)
    requires Items(value, 0) == [value] && Trim(value) == value
    ensures ContainsToken(value, token) <==> SameName(value, token)
  {
    AnyItemOfCons(value, [], token);
    assert [value] + [] == [value];
  }

  lemma CloseReadBack(request: HttpRequest)
    ensures ClosesAfter(request.version, HeadersReadBack(request)) == request.close
  {
    hide ClosesAfter, Put, Kept;
    var connection, length := ConnectionField(request.close), LengthField(|request.body|);
    var headers := Put(KeptFields(request), connection.name, connection.value);
    GetAfterPut(KeptFields(request), connection.name, connection.value, "connection");
    GetOtherAfterPut(headers, length.name, length.value, "connection");
    CloseRoundTrip(request.version, HeadersReadBack(request), request.close);
  }

  /** The requests whose parts are what their names say, within the limits of the parser. */
  predicate Printable(request: HttpRequest) {
    && !request.websocket && (request.version == 0x10 || request.version == 0x11)
    && IsTargetText(request.path) && IsTargetText(request.query) && IsTargetText(request.fragment)
    && Without(request.path, '#') && Without(request.path, '?') && Without(request.query, '#')
    && Sorted(request.headers)
    && (forall i :: 0 <= i < |request.headers| ==> PrintableField(request.headers[i]))
    && |LinesText(HeadLines(request))| + 2 <= MAX_HEADER && |request.body| <= MAX_BODY
  }

  /** No header contradicts the body that follows: a Transfer-Encoding is empty, and a
      Content-Length that is printed (next to an empty body) is zero. */
  predicate Unambiguous(request: HttpRequest) {
    var kept := KeptFields(request);
    && (forall i :: 0 <= i < |kept| && SameName(kept[i].name, "transfer-encoding") ==> kept[i].value == "")
    && (forall i :: 0 <= i < |kept| && SameName(kept[i].name, "content-length") ==>
          ParseContentLength(kept[i].value) == Some(0))
  }

  /** What is read back: an empty path has become "/", and the map holds the printed fields. */
  function ReadBack(request: HttpRequest): HttpRequest {
    request.(path := PathText(request), headers := HeadersReadBack(request))
  }

  lemma PrintedFieldsPrintable(request: HttpRequest)
    requires Printable(request)
    ensures forall field :: field in PrintedFields(request) ==> PrintableField(field)
  {
    hide PrintableField, Kept;
    var fields, kept := PrintedFields(request), KeptFields(request);
    OwnFieldsPrintable(request.close, |request.body|);
    forall field | field in kept ensures PrintableField(field) {
      var i :| 0 <= i < |kept| && kept[i] == field;
      KeptMember(request.headers, true, request.body != "", i);
    }
  }

  lemma OwnFieldsPrintable(close: bool, length: nat)
    ensures PrintableField(ConnectionField(close)) && PrintableField(LengthField(length))
  {
    OwnNamesValid();
    DigitsPrintable(length);
  }

  lemma OwnNamesValid()
    ensures IsValidHeaderName("Connection") && IsValidHeaderName("Content-Length")
  {
  }

  lemma DigitsPrintable(length: nat)
    ensures IsValidHeaderValue(NumberText(length, 10)) && Trimmed(NumberText(length, 10))
  {
    var text := NumberText(length, 10);
    NumberRoundTrip(length, 10);
    forall i | 0 <= i < |text| ensures IsValueCharacter(text[i]) && !IsBlank(text[i]) {
      assert IsLowerDigit(text[i]);
    }
  }

  lemma TargetIsTarget(request: HttpRequest)
    requires Printable(request)
    ensures IsTargetText(TargetText(PathText(request), request.query, request.fragment))
    ensures SplitTarget(TargetText(PathText(request), request.query, request.fragment)) ==
            Target(PathText(request), request.query, request.fragment)
  {
    hide PrintableField, Sorted, LinesText, HeadLines, IsTargetCharacter, SplitTarget;
    PathIsTarget(request);
    TargetRoundTrip(PathText(request), request.query, request.fragment);
    MarksAreTarget();
    JoinedIsTarget(PathText(request), request.query, request.fragment);
  }

  lemma PathIsTarget(request: HttpRequest)
    requires IsTargetText(request.path) && Without(request.path, '#') && Without(request.path, '?')
    ensures var path := PathText(request); IsTargetText(path) && Without(path, '#') && Without(path, '?')
  {
  }

  lemma MarksAreTarget()
    ensures IsTargetCharacter('?') && IsTargetCharacter('#')
  {
  }

  lemma JoinedIsTarget(path: string, query: string, fragment: string)
    requires IsTargetText(path) && IsTargetText(query) && IsTargetText(fragment)
    requires IsTargetCharacter('?') && IsTargetCharacter('#')
    ensures IsTargetText(TargetText(path, query, fragment))
  {
    hide IsTargetCharacter;
  }

  /** The head of the printed text, parsed. */
  lemma HeadRoundTrip(request: HttpRequest)
    requires Printable(request)
    ensures var head := LinesText(HeadLines(request));
            ParseHead(head) ==
            match AddAll(NO_FIELDS, PrintedFields(request))
            case Err(error) => Err(error)
            case Ok(fields) =>
              Ok(Head(RequestLine(request.verb, TargetText(PathText(request), request.query, request.fragment),
                                  request.version),
                      Target(PathText(request), request.query, request.fragment), fields))
    ensures forall line :: line in HeadLines(request) ==> IsLine(line)
  {
    hide At, ParseRequestLine, SplitTarget, TargetText, RequestLineText, ParseFields, AddAll, PrintableField, IsLine,
      FieldLine;
    var head, first := LinesText(HeadLines(request)), FirstLine(request);
    var fields := PrintedFields(request);
    var rest := LinesText(FieldLines(fields));
    TargetIsTarget(request);
    TargetNotEmpty(PathText(request), request.query, request.fragment);
    RequestLineRoundTrip(request.verb, TargetText(PathText(request), request.query, request.fragment), request.version);
    assert HeadLines(request)[1..] == FieldLines(fields);
    assert head == first + (CRLF + rest);
    assert head[0..] == head;
    SplitLine(head, 0, first, rest);
    PrintedFieldsPrintable(request);
    FieldsRoundTrip(head, |first| + 2, fields, NO_FIELDS);
    forall line | line in FieldLines(fields) ensures IsLine(line) {
      var i :| 0 <= i < |FieldLines(fields)| && FieldLines(fields)[i] == line;
      assert fields[i] in fields;
      FieldLineIsLine(fields[i]);
    }
  }

  lemma TargetNotEmpty(path: string, query: string, fragment: string)
    requires path != ""
    ensures TargetText(path, query, fragment) != ""
  {
  }

  /** Where the printed text is cut into head and body. */
  lemma PrintedHeadEnd(request: HttpRequest)
    requires forall line :: line in HeadLines(request) ==> IsLine(line)
    ensures var text, head := DumpText(request), LinesText(HeadLines(request));
            && 2 <= |head| && |text| == |head| + 2 + |request.body|
            && Find(text, CRLFCRLF, 0) == Some(|head| - 2)
            && text[..|head|] == head && text[|head| + 2..] == request.body
  {
    hide At, LinesText, HeadLines, IsLine;
    var text, head := DumpText(request), LinesText(HeadLines(request));
    assert HeadLines(request) != [] by { HasFirstLine(request); }
    BlankLineBehind(HeadLines(request), request.body);
    FindIs(text, CRLFCRLF, 0, |head| - 2);
    HeadAndBody(head, request.body);
  }

  lemma HasFirstLine(request: HttpRequest)
    ensures HeadLines(request) != []
  {
  }

  lemma HeadAndBody(head: string, body: string)
    ensures var text := head + (CRLF + body);
            |text| == |head| + 2 + |body| && text[..|head|] == head && text[|head| + 2..] == body
  {
  }

  /** A sorted map announces a length other than zero exactly if one of its fields does. */
  lemma LengthDecides(kept: Headers)
    requires Sorted(kept) && forall i :: 0 <= i < |kept| ==> Acceptable(kept[i])
    ensures (LengthIn(kept).None? || LengthIn(kept) == Some(0)) <==>
            forall i :: 0 <= i < |kept| && SameName(kept[i].name, "content-length") ==>
              ParseContentLength(kept[i].value) == Some(0)
  {
    hide ParseContentLength;
    GetFinds(kept, "content-length");
    if Get(kept, "content-length").Some? {
      var i :| 0 <= i < |kept| && SameName(kept[i].name, "content-length") &&
               kept[i].value == Get(kept, "content-length").value;
      assert Acceptable(kept[i]);
      forall j | 0 <= j < |kept| && SameName(kept[j].name, "content-length") ensures j == i {
        NameLessTotal(kept[i].name, kept[j].name);
        NameLessTotal(kept[j].name, kept[i].name);
      }
    }
  }

  /** The outcome, from what reading the fields gave. */
  lemma Delivered(request: HttpRequest, fields: Result<Fields, ParseError>)
    requires Printable(request)
    requires AddAll(NO_FIELDS, PrintedFields(request)) == fields
    requires fields.Ok? ==> fields.value.headers == HeadersReadBack(request)
    requires fields.Ok? && request.body != "" ==> fields.value.length == Some(|request.body|)
    ensures ParseRequest(DumpText(request)) ==
            match fields
            case Err(error) => Failed(error)
            case Ok(read) =>
              var length := match read.length case Some(n) => n case None => 0;
              if MAX_BODY < length then Failed(BODY_TOO_LARGE)
              else if |request.body| < length then NeedMore
              else Finished(ReadBack(request), |DumpText(request)|)
  {
    hide At, ParseHead, Put, Kept, FieldLine, LinesText, FieldLines, AddAll, SplitTarget, DumpText, HeadersReadBack,
      PrintedFields, HeadLines, ClosesAfter, TargetText, PrintableField, Sorted, IsTargetText, Without;
    var text, head := DumpText(request), LinesText(HeadLines(request));
    HeadRoundTrip(request);
    PrintedHeadEnd(request);
    CloseReadBack(request);
    if fields.Ok? {
      var length := match fields.value.length case Some(n) => n case None => 0;
      if length <= |request.body| {
        assert text[|head| + 2..|head| + 2 + length] == request.body[..length];
      }
    }
  }

  /** A printable request is read back from its printed text, completely and with every part
      restored, exactly when no header contradicts its body. */
  lemma RequestRoundTrip(request: HttpRequest)
    requires Printable(request)
    ensures Unambiguous(request) <==>
            ParseRequest(DumpText(request)) == Finished(ReadBack(request), |DumpText(request)|)
    ensures ParseRequest(DumpText(request)).Finished? ==> Unambiguous(request)
  {
    hide ParseRequest, AddAll, PrintedFields, HeadersReadBack, HeadLines, ParseContentLength, Sorted, PrintableField,
      IsTargetText, Without, ReadBack, LengthIn, Get, Put, Kept, SameName;
    var kept := KeptFields(request);
    var fields := AddAll(NO_FIELDS, PrintedFields(request));
    PrintedFieldsRead(request);
    Delivered(request, fields);
    KeptSorted(request.headers, true, request.body != "");
    if forall i :: 0 <= i < |kept| ==> Acceptable(kept[i]) {
      LengthDecides(kept);
      if request.body != "" {
        NoLengthKept(request.headers);
        GetFinds(kept, "content-length");
      }
    }
  }

  /** Every header of the request is read back with its value, but for the two that the printer writes
      itself: those say what the close flag and the body say. */
  lemma HeadersSurvive(request: HttpRequest, name: string)
    ensures Get(ReadBack(request).headers, name) ==
              if SameName(name, "connection") then Some(if request.close then "close" else "keep-alive")
              else if SameName(name, "content-length") && request.body != "" then Some(NumberText(|request.body|, 10))
              else Get(request.headers, name)
  {
    KeptValue(request.headers, true, request.body != "", name);
    hide Kept, Put, Get, SameName, NumberText;
    var kept := KeptFields(request);
    var connection, length := ConnectionField(request.close), LengthField(|request.body|);
    var headers := Put(kept, connection.name, connection.value);
    StoredUnder(kept, connection.name, "connection", connection.value, name);
    StoredUnder(headers, length.name, "content-length", length.value, name);
    if SameName(name, "connection") {
      SameTwo(name, "connection", "content-length");
      OtherLength("connection", "content-length");
    }
  }

  lemma StoredUnder(headers: Headers, name: string, folded: string, value: string, key: string)
    requires (name == "Connection" && folded == "connection") ||
             (name == "Content-Length" && folded == "content-length")
    ensures Get(Put(headers, name, value), key) == if SameName(key, folded) then Some(value) else Get(headers, key)
  {
    hide Get, Put, SameName;
    ConnectionSpelled();
    LengthSpelled();
    SameTwo(name, folded, key);
    Symmetric(folded, key);
    if SameName(name, key) {
      GetAfterPut(headers, name, value, key);
    } else {
      GetOtherAfterPut(headers, name, value, key);
    }
  }

  lemma Symmetric(a: string, b: string)
    ensures SameName(a, b) <==> SameName(b, a)
  {
  }

  /** Printing what was read back prints the same text. */
  lemma DumpOfReadBack(request: HttpRequest)
    requires !request.websocket
    ensures DumpText(ReadBack(request)) == DumpText(request)
    ensures Kept(ReadBack(request).headers, true, true) == Kept(request.headers, true, true)
  {
    hide FieldLine, FieldLines, LinesText, FirstLine, HeadersReadBack, Kept;
    KeptReadBack(request);
    assert FirstLine(ReadBack(request)) == FirstLine(request) by {
      SameFirstLine(request);
    }
  }

  lemma SameFirstLine(request: HttpRequest)
    ensures FirstLine(ReadBack(request)) == FirstLine(request)
  {
    assert PathText(ReadBack(request)) == PathText(request);
  }

  /** The stored form differs from the original map only in the names that are not printed
      from it. */
  lemma OwnNamesSkipped(lengthToo: bool)
    ensures Skipped("Connection", true, lengthToo) && Skipped("Connection", true, true)
    ensures Skipped("Content-Length", true, true)
  {
    hide SameName;
    ConnectionSpelled();
    LengthSpelled();
  }

  lemma ConnectionSpelled()
    ensures SameName("Connection", "connection")
  {
    SpelledAlike("Connection", "connection", 1);
  }

  lemma LengthSpelled()
    ensures SameName("Content-Length", "content-length")
  {
    SpelledAlike("Content-Length", "content-length", 8);
  }

  /** Names that differ in the case of their first letter and of the one at `k` only. */
  lemma SpelledAlike(left: string, right: string, k: nat)
    requires |left| == |right| && 0 < k < |left|
    requires Lower(left[0]) == Lower(right[0]) && Lower(left[k]) == Lower(right[k])
    requires left[1..k] == right[1..k] && left[k + 1..] == right[k + 1..]
    ensures SameName(left, right)
  {
    forall i | 0 <= i < |left| ensures Lower(left[i]) == Lower(right[i]) {
      if 0 < i < k {
        assert left[i] == left[1..k][i - 1];
      } else if i > k {
        assert left[i] == left[k + 1..][i - k - 1];
      }
    }
  }

  lemma KeptReadBack(request: HttpRequest)
    ensures Kept(HeadersReadBack(request), true, request.body != "") == KeptFields(request)
    ensures Kept(HeadersReadBack(request), true, true) == Kept(request.headers, true, true)
  {
    OwnNamesSkipped(request.body != "");
    hide Put, Kept, Skipped, NumberText;
    var connection, length := ConnectionField(request.close), LengthField(|request.body|);
    var kept := KeptFields(request);
    var headers := Put(kept, connection.name, connection.value);
    KeptIdempotent(request.headers, true, request.body != "");
    KeptIgnoresSkipped(kept, connection.name, connection.value, true, request.body != "");
    KeptIgnoresSkipped(kept, connection.name, connection.value, true, true);
    KeptIgnoresSkipped(headers, length.name, length.value, true, true);
    KeptTwice(request.headers, request.body != "");
  }

  lemma KeptTwice(headers: Headers, lengthToo: bool)
    ensures Kept(Kept(headers, true, lengthToo), true, true) == Kept(headers, true, true)
  {
    if headers != [] {
      KeptTwice(headers[1..], lengthToo);
    }
  }
}
