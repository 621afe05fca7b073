/** `HttpResponse::dump`. */
module ResponsePrinter {
  import opened Text
  import opened Numbers
  import opened HeaderFields
  import opened HttpMessages
  import opened Lines
  import opened RequestPrinter

  /** The reason phrases by status code (`HttpStatusToString`); other codes are "Unknown". */
  type Phrases = map<nat, string>

  function ReasonText(response: HttpResponse, phrases: Phrases): string {
    if response.reason != "" then response.reason
    else if response.status in phrases then phrases[response.status]
    else "Unknown"
  }

  /** Informational responses, 204 and 304 have no body, so none is printed. */
  predicate AllowsBody(status: nat) {
    !(100 <= status < 200) && status != 204 && status != 304
  }

  function StatusLineText(version: nat, status: nat, reason: string): string {
    VersionText(version) + ([' '] + (NumberText(status, 10) + ([' '] + reason)))
  }

  function CookieFields(cookies: seq<string>): (r: seq<Field>)
    ensures |r| == |cookies| && forall i :: 0 <= i < |r| ==> r[i] == Field("Set-Cookie", cookies[i])
  {
    if cookies == [] then [] else [Field("Set-Cookie", cookies[0])] + CookieFields(cookies[1..])
  }

  function ResponseFields(response: HttpResponse): seq<Field> {
    Kept(response.headers, !response.websocket, !response.websocket)
    + CookieFields(response.cookies)
    + (if response.websocket then []
       else [ConnectionField(response.close)]
            + if AllowsBody(response.status) then [LengthField(|response.body|)] else [])
  }

  function FirstLine(response: HttpResponse, phrases: Phrases): string {
    StatusLineText(response.version, response.status, ReasonText(response, phrases))
  }

  function HeadLines(response: HttpResponse, phrases: Phrases): seq<string> {
    [FirstLine(response, phrases)] + FieldLines(ResponseFields(response))
  }

  function PrintedBody(response: HttpResponse): string {
    if AllowsBody(response.status) then response.body else ""
  }

  function DumpText(response: HttpResponse, phrases: Phrases): string {
    LinesText(HeadLines(response, phrases)) + (CRLF + PrintedBody(response))
  }

  /** The cookie loop of `dump`. */
  method DumpCookies(cookies: seq<string>) returns (text: string)
    ensures text == LinesText(FieldLines(CookieFields(cookies)))
  {
    hide FieldLine, FieldLines, LinesText, CookieFields;
    text := "";
    NoLines();
    NoCookies();
    var i := 0;
    while i < |cookies|
      invariant i <= |cookies|
      invariant text == LinesText(FieldLines(CookieFields(cookies[..i])))
    {
      var field := Field("Set-Cookie", cookies[i]);
      LineAppended(CookieFields(cookies[..i]), field);
      MoreCookies(cookies, i);
      text := text + (FieldLine(field) + CRLF);
      i := i + 1;
    }
    assert cookies[..i] == cookies;
  }

  lemma NoCookies()
    ensures CookieFields([]) == []
  {
  }

  lemma MoreCookies(cookies: seq<string>, i: nat)
    requires i < |cookies|
    ensures CookieFields(cookies[..i + 1]) == CookieFields(cookies[..i]) + [Field("Set-Cookie", cookies[i])]
  {
    var more := CookieFields(cookies[..i + 1]);
    assert forall j | 0 <= j < i :: more[j] == CookieFields(cookies[..i])[j];
  }

  method Dump(response: HttpResponse, phrases: Phrases) returns (text: string)
    ensures text == DumpText(response, phrases)
  {
    hide Kept, Skipped, LinesText, FieldLine, FieldLines, CookieFields, HeadLines, VersionText, NumberText;
    var first := VersionText(response.version)
                 + ([' '] + (NumberText(response.status, 10) + ([' '] + ReasonText(response, phrases))));
    var headers := DumpHeaders(response.headers, !response.websocket, !response.websocket);
    var cookies := DumpCookies(response.cookies);
    var lines := headers + cookies;
    if !response.websocket {
      lines := lines + (FieldLine(ConnectionField(response.close)) + CRLF);
      if AllowsBody(response.status) {
        lines := lines + (FieldLine(LengthField(|response.body|)) + CRLF);
      }
    }
    PrintedLines(response, phrases);
    text := first + (CRLF + lines) + (CRLF + PrintedBody(response));
  }

  lemma LinesOfAppended(a: seq<Field>, b: seq<Field>)
    ensures LinesText(FieldLines(a + b)) == LinesText(FieldLines(a)) + LinesText(FieldLines(b))
  {
    hide FieldLine, LinesText;
    FieldLinesOfConcat(a, b);
    LinesTextOfConcat(FieldLines(a), FieldLines(b));
  }

  lemma PrintedLines(response: HttpResponse, phrases: Phrases)
    ensures LinesText(HeadLines(response, phrases)) == FirstLine(response, phrases) + (CRLF + (
              (LinesText(FieldLines(Kept(response.headers, !response.websocket, !response.websocket)))
               + LinesText(FieldLines(CookieFields(response.cookies))))
              + (if response.websocket then "" else FieldLine(ConnectionField(response.close)) + CRLF)
              + (if response.websocket || !AllowsBody(response.status) then ""
                 else FieldLine(LengthField(|response.body|)) + CRLF)))
  {
    hide Kept, Skipped, FirstLine, FieldLine, FieldLines, LinesText, CookieFields;
    var kept := Kept(response.headers, !response.websocket, !response.websocket);
    var cookies := CookieFields(response.cookies);
    var connection := if response.websocket then [] else [ConnectionField(response.close)];
    var length := if response.websocket || !AllowsBody(response.status) then [] else [LengthField(|response.body|)];
    LinesOfAppended(kept, cookies);
    LineAppended(kept + cookies, ConnectionField(response.close));
    LineAppended(kept + cookies + connection, LengthField(|response.body|));
    assert kept + cookies + [] == kept + cookies && kept + cookies + connection + [] == kept + cookies + connection;
    assert ResponseFields(response) == kept + cookies + connection + length;
    HeadText(FirstLine(response, phrases), ResponseFields(response));
  }
}
