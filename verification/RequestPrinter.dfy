/** `HttpRequest::dump`, and its round trip with the request parser. */
module RequestPrinter {
  import opened Text
  import opened Numbers
  import opened HeaderFields
  import opened HttpMessages
  import opened Lines

  function PathText(request: HttpRequest): string {
    if request.path == "" then "/" else request.path
  }

  function TargetText(path: string, query: string, fragment: string): string {
    path + ((if query == "" then "" else ['?'] + query) + (if fragment == "" then "" else ['#'] + fragment))
  }

  function VersionText(version: nat): string {
    "HTTP/" + NumberText(version / 16, 10) + "." + NumberText(version % 16, 10)
  }

  function RequestLineText(verb: Method, target: string, version: nat): string {
    METHOD_NAMES[verb] + ([' '] + (target + ([' '] + VersionText(version))))
  }

  function ConnectionField(close: bool): Field {
    Field("Connection", if close then "close" else "keep-alive")
  }

  function LengthField(length: nat): Field {
    Field("Content-Length", NumberText(length, 10))
  }

  function PrintedFields(request: HttpRequest): seq<Field> {
    Kept(request.headers, !request.websocket, request.body != "")
    + (if request.websocket then [] else [ConnectionField(request.close)])
    + (if request.body == "" then [] else [LengthField(|request.body|)])
  }

  function FieldLines(fields: seq<Field>): (r: seq<string>)
    ensures |r| == |fields| && forall i :: 0 <= i < |fields| ==> r[i] == FieldLine(fields[i])
  {
    if fields == [] then [] else [FieldLine(fields[0])] + FieldLines(fields[1..])
  }

  function FirstLine(request: HttpRequest): string {
    RequestLineText(request.verb, TargetText(PathText(request), request.query, request.fragment), request.version)
  }

  /** Everything `dump` prints before the empty line. */
  function HeadLines(request: HttpRequest): seq<string> {
    [FirstLine(request)] + FieldLines(PrintedFields(request))
  }

  function DumpText(request: HttpRequest): string {
    LinesText(HeadLines(request)) + (CRLF + request.body)
  }

  lemma KeptNext(headers: Headers, i: nat, connectionToo: bool, lengthToo: bool)
    requires i < |headers|
    ensures var more := Kept(headers[i + 1..], connectionToo, lengthToo);
            Kept(headers[i..], connectionToo, lengthToo) ==
              if Skipped(headers[i].name, connectionToo, lengthToo) then more else [headers[i]] + more
  {
    hide Skipped;
    assert headers[i..][1..] == headers[i + 1..];
  }

  lemma KeptEnd(headers: Headers, connectionToo: bool, lengthToo: bool)
    ensures Kept(headers[|headers|..], connectionToo, lengthToo) == []
  {
  }

  /** The header loop of `dump`. */
  method DumpHeaders(headers: Headers, connectionToo: bool, lengthToo: bool) returns (text: string)
    ensures text == LinesText(FieldLines(Kept(headers, connectionToo, lengthToo)))
  {
    hide Skipped, FieldLine, FieldLines, LinesText, Kept;
    text := "";
    var i := 0;
    ghost var done: seq<Field> := [];
    ghost var kept := Kept(headers, connectionToo, lengthToo);
    assert headers[0..] == headers;
    KeptEnd(headers, connectionToo, lengthToo);
    NoLines();
    while i < |headers|
      invariant i <= |headers|
      invariant kept == done + Kept(headers[i..], connectionToo, lengthToo)
      invariant text == LinesText(FieldLines(done))
    {
      var field := headers[i];
      ghost var more := Kept(headers[i + 1..], connectionToo, lengthToo);
      KeptNext(headers, i, connectionToo, lengthToo);
      if !Skipped(field.name, connectionToo, lengthToo) {
        text := text + (FieldLine(field) + CRLF);
        LineAppended(done, field);
        assert done + ([field] + more) == done + [field] + more;
        done := done + [field];
      }
      i := i + 1;
    }
    assert kept == done;
  }

  /** The request line. */
  method DumpFirstLine(request: HttpRequest) returns (text: string)
    ensures text == FirstLine(request)
  {
    hide VersionText;
    var target := DumpTarget(request);
    hide TargetText;
    FourParts(METHOD_NAMES[request.verb], target, VersionText(request.version));
    text := METHOD_NAMES[request.verb] + " " + target + " " + VersionText(request.version);
  }

  method DumpTarget(request: HttpRequest) returns (target: string)
    ensures target == TargetText(PathText(request), request.query, request.fragment)
  {
    target := if request.path == "" then "/" else request.path;
    if request.query != "" {
      target := target + ("?" + request.query);
    }
    if request.fragment != "" {
      target := target + ("#" + request.fragment);
    }
  }

  lemma FourParts(name: string, target: string, version: string)
    ensures name + " " + target + " " + version == name + ([' '] + (target + ([' '] + version)))
  {
  }

  /** `dump`: first line, header map in order without the names printed separately, then those. */
  method Dump(request: HttpRequest) returns (text: string)
    ensures text == DumpText(request)
  {
    hide Kept, Skipped, FirstLine, LinesText, FieldLine, FieldLines, HeadLines;
    var first := DumpFirstLine(request);
    var lines := DumpHeaders(request.headers, !request.websocket, request.body != "");
    if !request.websocket {
      lines := lines + (FieldLine(ConnectionField(request.close)) + CRLF);
    }
    if request.body != "" {
      lines := lines + (FieldLine(LengthField(|request.body|)) + CRLF);
    }
    PrintedLines(request);
    text := first + (CRLF + lines) + (CRLF + request.body);
  }

  lemma NoLines()
    ensures LinesText(FieldLines([])) == ""
  {
  }

  lemma LineAppended(done: seq<Field>, field: Field)
    ensures LinesText(FieldLines(done + [field])) == LinesText(FieldLines(done)) + (FieldLine(field) + CRLF)
  {
    hide FieldLine;
    FieldLinesOfConcat(done, [field]);
    assert FieldLines([field]) == [FieldLine(field)];
    LinesTextOfConcat(FieldLines(done), [FieldLine(field)]);
    assert LinesText([FieldLine(field)]) == FieldLine(field) + (CRLF + "");
  }

  lemma FieldLinesOfConcat(a: seq<Field>, b: seq<Field>)
    ensures FieldLines(a + b) == FieldLines(a) + FieldLines(b)
  {
  }

  lemma HeadText(first: string, fields: seq<Field>)
    ensures LinesText([first] + FieldLines(fields)) == first + (CRLF + LinesText(FieldLines(fields)))
  {
    var lines := [first] + FieldLines(fields);
    assert lines[1..] == FieldLines(fields);
  }

  lemma PrintedLines(request: HttpRequest)
    ensures LinesText(HeadLines(request)) == FirstLine(request) + (CRLF + (
              LinesText(FieldLines(Kept(request.headers, !request.websocket, request.body != "")))
              + (if request.websocket then "" else FieldLine(ConnectionField(request.close)) + CRLF)
              + (if request.body == "" then "" else FieldLine(LengthField(|request.body|)) + CRLF)))
  {
    hide Kept, Skipped, FirstLine, FieldLine, FieldLines, LinesText;
    var kept := Kept(request.headers, !request.websocket, request.body != "");
    var connection := if request.websocket then [] else [ConnectionField(request.close)];
    LineAppended(kept, ConnectionField(request.close));
    LineAppended(kept + connection, LengthField(|request.body|));
    assert kept + [] == kept && kept + connection + [] == kept + connection;
    HeadText(FirstLine(request), PrintedFields(request));
  }
}
