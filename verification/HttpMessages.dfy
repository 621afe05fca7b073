/** Requests, responses and the pieces of grammar their parsers and printers share. */
module HttpMessages {
  import opened Wrappers
  import opened Text
  import opened HeaderFields
  import opened Lines

  const METHOD_NAMES: seq<string> := [
    "DELETE", "GET", "HEAD", "POST", "PUT", "CONNECT",
    "OPTIONS", "TRACE", "COPY", "LOCK", "MKCOL", "MOVE",
    "PROPFIND", "PROPPATCH", "SEARCH", "UNLOCK", "BIND", "REBIND",
    "UNBIND", "ACL", "REPORT", "MKACTIVITY", "CHECKOUT", "MERGE",
    "M-SEARCH", "NOTIFY", "SUBSCRIBE", "UNSUBSCRIBE", "PATCH", "PURGE",
    "MKCALENDAR", "LINK", "UNLINK", "SOURCE"
  ]

  /** A request method is its position in the name table. */
  type Method = m: nat | m < 34

  const GET: Method := 1
  const HEAD: Method := 2
  const CONNECT: Method := 5

  datatype ParseError =
    | INVALID_METHOD
    | INVALID_REQUEST_TARGET
    | INVALID_VERSION
    | INVALID_STATUS
    | INVALID_HEADER
    | INVALID_CONTENT_LENGTH
    | INVALID_CHUNK_SIZE
    | UNSUPPORTED_TRANSFER_ENCODING
    | HEADER_TOO_LARGE
    | BODY_TOO_LARGE

  const MAX_HEADER: nat := 64 * 1024
  const MAX_BODY: nat := 64 * 1024 * 1024

  datatype HttpRequest = HttpRequest(
    verb: Method, version: nat, close: bool, websocket: bool,
    path: string, query: string, fragment: string, body: string, headers: Headers)

  datatype HttpResponse = HttpResponse(
    status: nat, version: nat, close: bool, websocket: bool,
    reason: string, body: string, headers: Headers, cookies: seq<string>)

  function IndexOf(names: seq<string>, text: string): (r: nat)
    ensures r <= |names|
    ensures r < |names| ==> names[r] == text
  {
    if names == [] || names[0] == text then 0 else 1 + IndexOf(names[1..], text)
  }

  /** The method with a given name; names are matched exactly. */
  function MethodNamed(text: string): (r: Option<Method>)
    ensures r.Some? ==> METHOD_NAMES[r.value] == text
  {
    var i := IndexOf(METHOD_NAMES, text);
    if i < 34 then Some(i) else None
  }

  lemma IndexOfEntry(names: seq<string>, i: nat)
    requires i < |names|
    requires forall j, k :: 0 <= j < k < |names| ==> names[j] != names[k]
    ensures IndexOf(names, names[i]) == i
  {
    if 0 < i {
      IndexOfEntry(names[1..], i - 1);
    }
  }

  /** Where a name stands in the table, told by its length and a few letters. */
  function Rank(text: string): nat
    requires |text| >= 3
  {
    var first, second, third, last := text[0], text[1], text[2], text[|text| - 1];
    match |text|
    case 3 => if first == 'G' then 1 else if first == 'P' then 4 else 19
    case 4 =>
      if first == 'H' then 2 else if first == 'P' then 3 else if first == 'C' then 8 else if first == 'M' then 11
      else if first == 'B' then 16 else if second == 'O' then 9 else 31
    case 5 =>
      if first == 'T' then 7 else if first == 'P' then (if second == 'A' then 28 else 29)
      else if second == 'K' then 10 else 23
    case 6 =>
      if first == 'D' then 0 else if first == 'N' then 25
      else if first == 'S' then (if second == 'E' then 14 else 33)
      else if first == 'R' then (if third == 'B' then 17 else 20)
      else if third == 'B' then 18 else if text[3] == 'O' then 15 else 32
    case 7 => if first == 'C' then 5 else 6
    case 8 => if first == 'P' then 12 else if first == 'C' then 22 else 24
    case 9 => if first == 'P' then 13 else 26
    case 10 => if last == 'Y' then 21 else 30
    case _ => 27
  }

  lemma RankOfName(k: Method)
    ensures |METHOD_NAMES[k]| >= 3 && Rank(METHOD_NAMES[k]) == k
  {
  }

  /** No two methods share a name, so a printed method is read back. */
  lemma MethodRoundTrip(verb: Method)
    ensures MethodNamed(METHOD_NAMES[verb]) == Some(verb)
  {
    hide Rank;
    forall j: Method, k: Method | 0 <= j < k < 34 ensures METHOD_NAMES[j] != METHOD_NAMES[k] {
      RankOfName(j);
      RankOfName(k);
    }
    IndexOfEntry(METHOD_NAMES, verb);
  }

  /** The delimiters `IsTokenCharacter` refuses. */
  predicate IsDelimiter(c: char) {
    c == '(' || c == ')' || c == '<' || c == '>' || c == '@' || c == ',' || c == ';' || c == ':' ||
    c == '\\' || c == '"' || c == '/' || c == '[' || c == ']' || c == '?' || c == '=' ||
    c == '{' || c == '}'
  }

  predicate IsTokenCharacter(c: char) {
    ' ' < c < 127 as char && !IsDelimiter(c)
  }

  /** These are the token characters of RFC 9110, section 5.6.2. */
  lemma TokenCharacters(c: char)
    ensures IsTokenCharacter(c) <==>
              'a' <= c <= 'z' || 'A' <= c <= 'Z' || '0' <= c <= '9' ||
              c in {'!', '#', '$', '%', '&', '\'', '*', '+', '-', '.', '^', '_', '`', '|', '~'}
  {
  }

  predicate IsValidHeaderName(name: string) {
    name != "" && forall i :: 0 <= i < |name| ==> IsTokenCharacter(name[i])
  }

  predicate IsValueCharacter(c: char) {
    (' ' <= c || c == '\t') && c != 127 as char
  }

  predicate IsValidHeaderValue(value: string) {
    forall i :: 0 <= i < |value| ==> IsValueCharacter(value[i])
  }

  /** One header line without its line end. */
  function ParseField(line: string): (r: Result<Field, ParseError>)
    ensures r.Ok? ==> IsValidHeaderName(r.value.name) && IsValidHeaderValue(r.value.value)
    ensures r.Ok? ==> Trimmed(r.value.value)
    ensures r.Err? ==> r.error == INVALID_HEADER
  {
    if line == "" || IsBlank(line[0]) then Err(INVALID_HEADER)
    else
      match FindChar(line, ':', 0)
      case None => Err(INVALID_HEADER)
      case Some(colon) =>
        var name, value := line[..colon], Trim(line[colon + 1..]);
        TrimIsTrimmed(line[colon + 1..]);
        if IsValidHeaderName(name) && IsValidHeaderValue(value) then Ok(Field(name, value))
        else Err(INVALID_HEADER)
  }

  /** The line `dump` prints for a field. */
  function FieldLine(field: Field): string {
    field.name + ": " + field.value
  }

  predicate PrintableField(field: Field) {
    IsValidHeaderName(field.name) && IsValidHeaderValue(field.value) && Trimmed(field.value)
  }

  lemma FieldLineShape(name: string, value: string)
    requires IsValidHeaderName(name)
    ensures var line := FieldLine(Field(name, value));
            && FindChar(line, ':', 0) == Some(|name|)
            && line[..|name|] == name && line[|name| + 1..] == [' '] + value
            && !IsBlank(line[0])
  {
    var line := FieldLine(Field(name, value));
    forall j | 0 <= j < |name| ensures name[j] != ':' {
      assert IsTokenCharacter(name[j]);
    }
    FindCharIs(line, ':', 0, |name|);
    assert line[0] == name[0] && IsTokenCharacter(name[0]);
  }

  /** A printed header line is read back as the field it was printed from. */
  lemma FieldRoundTrip(field: Field)
    requires PrintableField(field)
    ensures ParseField(FieldLine(field)) == Ok(field)
  {
    FieldLineShape(field.name, field.value);
    TrimOfTrimmed(field.value);
  }

  lemma FieldLineIsLine(field: Field)
    requires PrintableField(field)
    ensures IsLine(FieldLine(field))
  {
    var line, n := FieldLine(field), |field.name|;
    forall i | 0 <= i < |line| ensures IsLineCharacter(line[i]) {
      if i < n {
        assert line[i] == field.name[i] && IsTokenCharacter(field.name[i]);
      } else if n + 2 <= i {
        assert line[i] == field.value[i - n - 2] && IsValueCharacter(field.value[i - n - 2]);
      }
    }
  }

  /** The items of a comma-separated list from a position on. */
  function Items(value: string, begin: nat): (r: seq<string>)
    requires begin <= |value|
    ensures r != []
    decreases |value| - begin
  {
    match FindChar(value, ',', begin)
    case None => [value[begin..]]
    case Some(k) => [value[begin..k]] + Items(value, k + 1)
  }

  predicate AnyItem(items: seq<string>, token: string) {
    exists item :: item in items && SameName(Trim(item), token)
  }

  /** A comma-separated list contains the token, up to case and surrounding blanks. */
  predicate ContainsToken(value: string, token: string) {
    AnyItem(Items(value, 0), token)
  }

  lemma AnyItemOfCons(item: string, rest: seq<string>, token: string)
    ensures AnyItem([item] + rest, token) <==> SameName(Trim(item), token) || AnyItem(rest, token)
  {
    var all := [item] + rest;
    assert all[0] == item && all[1..] == rest;
  }

  lemma ItemsStep(value: string, begin: nat, token: string)
    requires begin <= |value|
    ensures var end := FindChar(value, ',', begin);
            AnyItem(Items(value, begin), token) <==>
              if end.None? then SameName(Trim(value[begin..]), token)
              else SameName(Trim(value[begin..end.value]), token) || AnyItem(Items(value, end.value + 1), token)
  {
    hide Trim, SameName;
    var end := FindChar(value, ',', begin);
    if end.Some? {
      AnyItemOfCons(value[begin..end.value], Items(value, end.value + 1), token);
    }
  }

  /** The list walk of `HeaderContainsToken`. */
  method HeaderContainsToken(header: string, token: string) returns (found: bool)
    ensures found <==> ContainsToken(header, token)
  {
    hide Items, AnyItem, Trim, SameName;
    var begin := 0;
    while begin <= |header|
      invariant begin <= |header|
      invariant ContainsToken(header, token) <==> AnyItem(Items(header, begin), token)
    {
      ItemsStep(header, begin, token);
      var end := FindChar(header, ',', begin);
      var item := if end.None? then header[begin..] else header[begin..end.value];
      if SameName(Trim(item), token) {
        return true;
      }
      if end.None? {
        return false;
      }
      begin := end.value + 1;
    }
    return false;
  }

  /** Whether the connection is closed after a message, from its version and Connection value. */
  function ClosesAfter(version: nat, headers: Headers): bool {
    var connection := match Get(headers, "connection") case Some(v) => v case None => "";
    if ContainsToken(connection, "close") then true
    else if ContainsToken(connection, "keep-alive") then false
    else version <= 0x10
  }

  // ----- the same, said of the list as it is written

  /** Items with commas between them. */
  function JoinItems(items: seq<string>): string {
    if items == [] then "" else if |items| == 1 then items[0] else items[0] + ([','] + JoinItems(items[1..]))
  }

  predicate WithoutCommas(items: seq<string>) {
    items != [] && forall i :: 0 <= i < |items| ==> ',' !in items[i]
  }

  /** The item is the word, in any case and between any blanks. */
  predicate Says(item: string, word: string) {
    exists lo, hi :: 0 <= lo <= hi <= |item| && Between(item, lo, hi, word)
  }

  predicate Between(item: string, lo: nat, hi: nat, word: string)
    requires lo <= hi <= |item|
  {
    && (forall i :: 0 <= i < lo ==> item[i] == ' ' || item[i] == '\t')
    && (forall i :: hi <= i < |item| ==> item[i] == ' ' || item[i] == '\t')
    && SameName(item[lo..hi], word)
  }

  predicate SomeSays(items: seq<string>, word: string) {
    exists i :: 0 <= i < |items| && Says(items[i], word)
  }

  lemma CutAtComma(value: string, begin: nat, first: string, rest: string)
    requires begin <= |value| && value[begin..] == first + ([','] + rest) && ',' !in first
    ensures FindChar(value, ',', begin) == Some(begin + |first|)
    ensures value[begin..begin + |first|] == first && value[begin + |first| + 1..] == rest
  {
    var tail := value[begin..];
    JoinedAt(first, ',', rest);
    assert forall j :: begin <= j < |value| ==> value[j] == tail[j - begin];
    assert forall j :: 0 <= j < |first| ==> tail[j] == first[j];
    assert value[begin + |first|] == ',';
    FindCharIs(value, ',', begin, begin + |first|);
    assert value[begin..begin + |first|] == tail[..|first|];
    assert value[begin + |first| + 1..] == tail[|first| + 1..];
  }

  lemma LastItem(value: string, begin: nat, item: string)
    requires begin <= |value| && value[begin..] == item && ',' !in item
    ensures FindChar(value, ',', begin) == None
  {
    assert forall j :: begin <= j < |value| ==> value[j] == item[j - begin];
  }

  lemma {:induction false} ItemsOfJoined(value: string, begin: nat, items: seq<string>)
    requires begin <= |value| && value[begin..] == JoinItems(items) && WithoutCommas(items)
    ensures Items(value, begin) == items
    decreases |items|
  {
    hide FindChar, Items, WithoutCommas;
    FirstPlain(items);
    var first := items[0];
    if |items| == 1 {
      LastItem(value, begin, first);
      ItemsFrom(value, begin);
      assert items == [first];
    } else {
      CutAtComma(value, begin, first, JoinItems(items[1..]));
      ItemsOfJoined(value, begin + |first| + 1, items[1..]);
      ItemsFrom(value, begin);
      assert items == [first] + items[1..];
    }
  }

  lemma FirstPlain(items: seq<string>)
    requires WithoutCommas(items)
    ensures items != [] && ',' !in items[0] && (|items| > 1 ==> WithoutCommas(items[1..]))
  {
  }

  lemma ItemsFrom(value: string, begin: nat)
    requires begin <= |value|
    ensures Items(value, begin) ==
            match FindChar(value, ',', begin)
            case None => [value[begin..]]
            case Some(k) => [value[begin..k]] + Items(value, k + 1)
  {
  }

  lemma SaysTrimmed(item: string, word: string)
    requires word != "" && Trimmed(word)
    ensures Says(item, word) <==> SameName(Trim(item), word)
  {
    hide SameName;
    var begin := SkipBlanks(item, 0);
    var end := DropBlanks(item, begin, |item|);
    if SameName(Trim(item), word) {
      assert Between(item, begin, end, word);
    }
    if Says(item, word) {
      var lo, hi :| 0 <= lo <= hi <= |item| && Between(item, lo, hi, word);
      NonBlankEnds(item[lo..hi], word);
      assert !IsBlank(item[lo]) && !IsBlank(item[hi - 1]);
      assert begin == lo && end == hi;
    }
  }

  lemma NonBlankEnds(text: string, word: string)
    requires SameName(text, word) && word != "" && Trimmed(word)
    ensures text != "" && !IsBlank(text[0]) && !IsBlank(text[|text| - 1])
  {
    assert Lower(text[0]) == Lower(word[0]) && Lower(text[|text| - 1]) == Lower(word[|word| - 1]);
  }

  lemma ListedToken(items: seq<string>, word: string)
    requires WithoutCommas(items) && word != "" && Trimmed(word)
    ensures ContainsToken(JoinItems(items), word) <==> SomeSays(items, word)
  {
    hide SameName, Trim, Says;
    assert JoinItems(items)[0..] == JoinItems(items);
    ItemsOfJoined(JoinItems(items), 0, items);
    forall i | 0 <= i < |items| ensures Says(items[i], word) <==> SameName(Trim(items[i]), word) {
      SaysTrimmed(items[i], word);
    }
    if SomeSays(items, word) {
      var i :| 0 <= i < |items| && Says(items[i], word);
      assert items[i] in items;
    }
  }

  /** What closes: `close` in the list; else, unless `keep-alive` is in it, the version 1.0. */
  predicate ClosesSaying(items: seq<string>, version: nat) {
    SomeSays(items, "close") || (!SomeSays(items, "keep-alive") && version <= 0x10)
  }

  /** The close flag of a message without a Connection field, and of one with any list in it. */
  lemma CloseFlag(version: nat, headers: Headers, items: seq<string>)
    ensures Get(headers, "connection").None? ==> (ClosesAfter(version, headers) <==> version <= 0x10)
    ensures Get(headers, "connection") == Some(JoinItems(items)) && WithoutCommas(items) ==>
              (ClosesAfter(version, headers) <==> ClosesSaying(items, version))
  {
    hide SameName, Trim, Says, ContainsToken, SomeSays, Get;
    if Get(headers, "connection").None? {
      assert [""][0] == "" && JoinItems([""]) == "";
      ListedToken([""], "close");
      ListedToken([""], "keep-alive");
      NothingSaid("close");
      NothingSaid("keep-alive");
    } else if WithoutCommas(items) {
      ListedToken(items, "close");
      ListedToken(items, "keep-alive");
    }
  }

  lemma NothingSaid(word: string)
    requires word != ""
    ensures !SomeSays([""], word)
  {
  }

  method InitConnection(version: nat, headers: Headers) returns (close: bool)
    ensures close == ClosesAfter(version, headers)
    ensures Get(headers, "connection").None? ==> (close <==> version <= 0x10)
    ensures forall items :: Get(headers, "connection") == Some(JoinItems(items)) && WithoutCommas(items) ==>
              (close <==> ClosesSaying(items, version))
  {
    forall items
      ensures Get(headers, "connection").None? ==> (ClosesAfter(version, headers) <==> version <= 0x10)
      ensures Get(headers, "connection") == Some(JoinItems(items)) && WithoutCommas(items) ==>
                (ClosesAfter(version, headers) <==> ClosesSaying(items, version))
    {
      CloseFlag(version, headers, items);
    }
    hide ContainsToken, ClosesSaying;
    close := version <= 0x10;
    var entry := Get(headers, "connection");
    var connection := if entry.Some? then entry.value else "";
    var hasClose := HeaderContainsToken(connection, "close");
    if hasClose {
      close := true;
    } else {
      var keeps := HeaderContainsToken(connection, "keep-alive");
      if keeps {
        close := false;
      }
    }
  }
}
