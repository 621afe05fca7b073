/** `Uri`: a parser and a printer that normalises (sections 3 and 6.2.3 of RFC 3986). */
module Uris {
  import opened Wrappers
  import opened Text
  import opened Numbers

  datatype Uri = Uri(
    scheme: string,
    userinfo: string,
    host: string,
    port: Option<nat>,
    path: string,
    query: string,
    fragment: string,
    hasAuthority: bool)
  {
    // The accessors.

    function Path(): string {
      if path == "" then "/" else path
    }

    function DefaultPort(): Option<nat> {
      if scheme == "http" || scheme == "ws" then Some(80)
      else if scheme == "https" || scheme == "wss" then Some(443)
      else None
    }

    function Port(): Option<nat> {
      if port.Some? then port else DefaultPort()
    }

    predicate IsDefaultPort() {
      port.None? || port == DefaultPort()
    }
  }

  const BLANK := Uri("", "", "", None, "", "", "", false)

  // ----- characters

  predicate IsAlpha(c: char) {
    'a' <= c <= 'z' || 'A' <= c <= 'Z'
  }

  predicate IsHexDigit(c: char) {
    DigitValue(c) < 16
  }

  predicate IsSchemeCharacter(c: char) {
    IsAlpha(c) || '0' <= c <= '9' || c == '+' || c == '-' || c == '.'
  }

  predicate Printable(c: char) {
    c > ' ' && c != 0x7f as char
  }

  predicate TripleAt(text: string, i: nat)
    requires i < |text|
  {
    text[i] == '%' ==> i + 2 < |text| && IsHexDigit(text[i + 1]) && IsHexDigit(text[i + 2])
  }

  /** No control characters and blanks, and every percent sign starts a triple. */
  predicate Clean(text: string) {
    forall i :: 0 <= i < |text| ==> Printable(text[i]) && TripleAt(text, i)
  }

  /** IsValidUriText, which steps over the digits of a triple. */
  method IsValidUriText(text: string) returns (valid: bool)
    ensures valid <==> Clean(text)
  {
    var index := 0;
    while index < |text|
      invariant index <= |text|
      invariant forall i :: 0 <= i < index ==> Printable(text[i]) && TripleAt(text, i)
    {
      if !Printable(text[index]) {
        return false;
      }
      if text[index] == '%' {
        if index + 2 >= |text| || !IsHexDigit(text[index + 1]) || !IsHexDigit(text[index + 2]) {
          return false;
        }
        index := index + 2;
      }
      index := index + 1;
    }
    return true;
  }

  // ----- parsing

  /** The part before the first `c` and the part behind it. */
  function Cut(text: string, c: char): (string, string) {
    var k := FindChar(text, c, 0);
    if k.None? then (text, "") else (text[..k.value], text[k.value + 1..])
  }

  /** rfind. */
  function FindLast(text: string, c: char): (r: Option<nat>)
    ensures r.Some? ==> r.value < |text| && text[r.value] == c
    ensures r.Some? ==> forall j :: r.value < j < |text| ==> text[j] != c
    ensures r.None? ==> c !in text
  {
    if text == "" then None
    else if text[|text| - 1] == c then Some(|text| - 1)
    else FindLast(text[..|text| - 1], c)
  }

  function ParsePort(text: string): Option<nat> {
    ParseNumber(text, 10, 65536)
  }

  predicate SchemeOk(scheme: string) {
    scheme != "" && IsAlpha(scheme[0]) && forall i :: 0 <= i < |scheme| ==> IsSchemeCharacter(scheme[i])
  }

  function LowerAll(text: string): (r: string)
    ensures |r| == |text|
  {
    seq(|text|, i requires 0 <= i < |text| => Lower(text[i]))
  }

  datatype HostPort = HostPort(host: string, port: Option<nat>)

  function ParseBracketed(text: string): Option<HostPort>
    requires text != ""
  {
    var closing := FindChar(text, ']', 0);
    if closing.None? || closing.value <= 1 then None
    else
      var host, suffix := text[1..closing.value], text[closing.value + 1..];
      if suffix == "" then Some(HostPort(host, None))
      else if suffix[0] != ':' then None
      else
        var port := ParsePort(suffix[1..]);
        if port.None? then None else Some(HostPort(host, port))
  }

  function ParsePlain(text: string): Option<HostPort> {
    if '[' in text || ']' in text then None
    else
      var colon := FindLast(text, ':');
      if colon.None? then Some(HostPort(text, None))
      else if FindChar(text, ':', 0) != colon then None
      else
        var port := ParsePort(text[colon.value + 1..]);
        if port.None? then None else Some(HostPort(text[..colon.value], port))
  }

  function ParseHostPort(text: string): Option<HostPort> {
    if text != "" && text[0] == '[' then ParseBracketed(text) else ParsePlain(text)
  }

  function ParseAuthority(authority: string, uri: Uri): Option<Uri> {
    var at := FindLast(authority, '@');
    var userinfo := if at.None? then "" else authority[..at.value];
    var rest := if at.None? then authority else authority[at.value + 1..];
    var hostPort := ParseHostPort(rest);
    if hostPort.None? then None
    else
      Some(uri.(userinfo := userinfo, host := hostPort.value.host, port := hostPort.value.port, hasAuthority := true))
  }

  predicate HasScheme(hierarchy: string) {
    var colon, slash := FindChar(hierarchy, ':', 0), FindChar(hierarchy, '/', 0);
    colon.Some? && (slash.None? || colon.value < slash.value)
  }

  function ParseHierarchy(hierarchy: string, uri: Uri): Option<Uri> {
    if |hierarchy| >= 2 && hierarchy[0] == '/' && hierarchy[1] == '/' then
      var rest := hierarchy[2..];
      var slash := FindChar(rest, '/', 0);
      var authority := if slash.None? then rest else rest[..slash.value];
      var path := if slash.None? then "" else rest[slash.value..];
      var parsed := ParseAuthority(authority, uri);
      if parsed.None? then None else Some(parsed.value.(path := path))
    else Some(uri.(path := hierarchy))
  }

  function ParseSchemed(hierarchy: string, uri: Uri): Option<Uri> {
    if HasScheme(hierarchy) then
      var (scheme, rest) := Cut(hierarchy, ':');
      if !SchemeOk(scheme) then None else ParseHierarchy(rest, uri.(scheme := LowerAll(scheme)))
    else ParseHierarchy(hierarchy, uri)
  }

  /** Uri::Create. */
  function Create(text: string): Option<Uri> {
    if !Clean(text) then None
    else
      var (front, fragment) := Cut(text, '#');
      var (hierarchy, query) := Cut(front, '?');
      ParseSchemed(hierarchy, BLANK.(fragment := fragment, query := query))
  }

  // ----- printing

  function HostText(host: string): string {
    if ':' in host then "[" + host + "]" else host
  }

  function PortText(uri: Uri): string {
    if uri.port.Some? && !uri.IsDefaultPort() then ":" + NumberText(uri.port.value, 10) else ""
  }

  function UserText(userinfo: string): string {
    if userinfo == "" then "" else userinfo + "@"
  }

  function AuthorityText(uri: Uri): string {
    UserText(uri.userinfo) + (HostText(uri.host) + PortText(uri))
  }

  function PathText(uri: Uri): string {
    if uri.path == "" && uri.hasAuthority then "/" else uri.path
  }

  function SchemeText(uri: Uri): string {
    if uri.scheme == "" then "" else uri.scheme + ":"
  }

  function Marked(c: char, text: string): string {
    if text == "" then "" else [c] + text
  }

  function HierarchyText(uri: Uri): string {
    (if uri.hasAuthority then "//" + AuthorityText(uri) else "") + PathText(uri)
  }

  /** Uri::dump. */
  function DumpText(uri: Uri): string {
    ((SchemeText(uri) + HierarchyText(uri)) + Marked('?', uri.query)) + Marked('#', uri.fragment)
  }

  lemma Regroup(a: string, b: string, c: string)
    ensures (a + b) + c == a + (b + c)
  {
  }

  /** The stream writes of dump, in order. */
  method Dump(uri: Uri) returns (stream: string)
    ensures stream == DumpText(uri)
  {
    hide AuthorityText, SchemeText, HierarchyText, Marked;
    stream := DumpFront(uri);
    stream := DumpMarked(stream, '?', uri.query);
    stream := DumpMarked(stream, '#', uri.fragment);
  }

  method DumpFront(uri: Uri) returns (stream: string)
    ensures stream == SchemeText(uri) + HierarchyText(uri)
  {
    hide AuthorityText;
    stream := "";
    if uri.scheme != "" {
      stream := uri.scheme + ":";
    }
    var authority := DumpAuthority(uri);
    Regroup(SchemeText(uri), authority, PathText(uri));
    stream := stream + authority;
    if uri.path == "" {
      if uri.hasAuthority {
        stream := stream + "/";
      }
    } else {
      stream := stream + uri.path;
    }
  }

  method DumpMarked(before: string, mark: char, text: string) returns (stream: string)
    ensures stream == before + Marked(mark, text)
  {
    stream := before;
    if text != "" {
      Regroup(stream, [mark], text);
      stream := stream + [mark] + text;
    }
  }

  method DumpAuthority(uri: Uri) returns (stream: string)
    ensures stream == if uri.hasAuthority then "//" + AuthorityText(uri) else ""
  {
    if !uri.hasAuthority {
      return "";
    }
    stream := "";
    if uri.userinfo != "" {
      stream := stream + uri.userinfo + "@";
    }
    assert stream == UserText(uri.userinfo);
    ghost var user := stream;
    if ':' in uri.host {
      stream := stream + ("[" + uri.host + "]");
    } else {
      stream := stream + uri.host;
    }
    Regroup(user, HostText(uri.host), PortText(uri));
    if uri.port.Some? && !uri.IsDefaultPort() {
      stream := stream + (":" + NumberText(uri.port.value, 10));
    }
    stream := "//" + stream;
  }

  // ----- pieces of a clean text

  lemma CleanPrefix(text: string, k: nat)
    requires Clean(text) && k <= |text| && (k < |text| ==> !IsHexDigit(text[k]))
    ensures Clean(text[..k])
  {
    forall i | 0 <= i < k ensures Printable(text[..k][i]) && TripleAt(text[..k], i) {
      assert Printable(text[i]) && TripleAt(text, i);
    }
  }

  lemma CleanSuffix(text: string, k: nat)
    requires Clean(text) && k <= |text|
    ensures Clean(text[k..])
  {
    forall i | 0 <= i < |text| - k ensures Printable(text[k..][i]) && TripleAt(text[k..], i) {
      assert Printable(text[k + i]) && TripleAt(text, k + i);
    }
  }

  lemma CleanConcat(a: string, b: string)
    requires Clean(a) && Clean(b)
    ensures Clean(a + b)
  {
    forall i | 0 <= i < |a + b| ensures Printable((a + b)[i]) && TripleAt(a + b, i) {
      if i < |a| {
        assert Printable(a[i]) && TripleAt(a, i);
      } else {
        assert Printable(b[i - |a|]) && TripleAt(b, i - |a|);
      }
    }
  }

  predicate Delimiter(c: char) {
    c == '#' || c == '?' || c == ':' || c == '/' || c == '@' || c == '[' || c == ']'
  }

  lemma DelimiterClean(c: char)
    requires Delimiter(c)
    ensures !IsHexDigit(c) && Clean([c])
  {
  }

  lemma NumberClean(n: nat)
    ensures Clean(NumberText(n, 10))
    ensures forall i :: 0 <= i < |NumberText(n, 10)| ==> !Delimiter(NumberText(n, 10)[i])
  {
    NumberRoundTrip(n, 10);
  }

  lemma CutClean(text: string, c: char)
    requires Clean(text) && Delimiter(c)
    ensures Clean(Cut(text, c).0) && Clean(Cut(text, c).1) && c !in Cut(text, c).0
    ensures forall d :: d !in text ==> d !in Cut(text, c).0 && d !in Cut(text, c).1
  {
    DelimiterClean(c);
    var k := FindChar(text, c, 0);
    if k.Some? {
      CleanPrefix(text, k.value);
      CleanSuffix(text, k.value + 1);
    }
  }

  /** A cut finds the mark that the printer put in. */
  lemma CutJoined(front: string, c: char, back: string)
    requires c !in front
    ensures Cut(front + Marked(c, back), c) == (front, back)
  {
    var text := front + Marked(c, back);
    if back == "" {
      assert text == front;
      assert FindChar(text, c, 0).None?;
    } else {
      CutAt(front, c, back);
      assert text == front + ([c] + back);
    }
  }

  lemma CutAt(front: string, c: char, back: string)
    requires c !in front
    ensures Cut(front + ([c] + back), c) == (front, back)
    ensures FindChar(front + ([c] + back), c, 0) == Some(|front|)
  {
    var text := front + ([c] + back);
    JoinedAt(front, c, back);
    assert forall i :: 0 <= i < |front| ==> text[i] == front[i];
    FindCharIs(text, c, 0, |front|);
  }

  lemma {:induction false} FindLastIs(front: string, c: char, back: string)
    requires c !in back
    ensures FindLast(front + ([c] + back), c) == Some(|front|)
    decreases |back|
  {
    var text, n := front + ([c] + back), |back|;
    if n == 0 {
      assert text[|text| - 1] == c;
    } else {
      FindLastIs(front, c, back[..n - 1]);
      assert text[|text| - 1] == back[n - 1];
      assert text[..|text| - 1] == front + ([c] + back[..n - 1]);
    }
  }

  // ----- what Create produces

  predicate SchemeShape(uri: Uri) {
    uri.scheme == "" || (SchemeOk(uri.scheme) && LowerAll(uri.scheme) == uri.scheme)
  }

  predicate AllClean(uri: Uri) {
    Clean(uri.userinfo) && Clean(uri.host) && Clean(uri.path) && Clean(uri.query) && Clean(uri.fragment)
  }

  /** The marks that end a part do not occur in the parts before it. */
  predicate Separated(uri: Uri) {
    && '#' !in uri.query
    && '#' !in uri.userinfo && '#' !in uri.host && '#' !in uri.path
    && '?' !in uri.userinfo && '?' !in uri.host && '?' !in uri.path
  }

  predicate StartsDouble(path: string) {
    |path| >= 2 && path[0] == '/' && path[1] == '/'
  }

  predicate HierarchyShape(uri: Uri) {
    if uri.hasAuthority then
      && '/' !in uri.userinfo && '/' !in uri.host && '@' !in uri.host && ']' !in uri.host
      && (uri.path == "" || uri.path[0] == '/')
      && (uri.port.Some? ==> uri.port.value < 65536)
    else
      && uri.userinfo == "" && uri.host == "" && uri.port.None?
      && !StartsDouble(uri.path)
      && (uri.scheme == "" ==> !HasScheme(uri.path))
  }

  predicate Shape(uri: Uri) {
    SchemeShape(uri) && AllClean(uri) && Separated(uri) && HierarchyShape(uri)
  }

  lemma HostPortShape(text: string)
    requires Clean(text) && ParseHostPort(text).Some?
    ensures var hp := ParseHostPort(text).value;
            && Clean(hp.host) && ']' !in hp.host && (hp.port.Some? ==> hp.port.value < 65536)
            && forall d :: d !in text ==> d !in hp.host
  {
    if text != "" && text[0] == '[' {
      var closing := FindChar(text, ']', 0).value;
      DelimiterClean(']');
      CleanPrefix(text, closing);
      CleanSuffix(text[..closing], 1);
      assert text[1..closing] == text[..closing][1..];
    } else {
      var colon := FindLast(text, ':');
      if colon.Some? {
        DelimiterClean(':');
        CleanPrefix(text, colon.value);
      }
    }
  }

  lemma AuthorityShape(text: string, uri: Uri)
    requires Clean(text) && ParseAuthority(text, uri).Some?
    ensures var u := ParseAuthority(text, uri).value;
            && Clean(u.userinfo) && Clean(u.host) && '@' !in u.host && ']' !in u.host
            && (u.port.Some? ==> u.port.value < 65536)
            && (forall d :: d !in text ==> d !in u.userinfo && d !in u.host)
            && u == uri.(userinfo := u.userinfo, host := u.host, port := u.port, hasAuthority := true)
  {
    hide ParseHostPort;
    var at := FindLast(text, '@');
    if at.Some? {
      DelimiterClean('@');
      CleanPrefix(text, at.value);
      CleanSuffix(text, at.value + 1);
      HostPortShape(text[at.value + 1..]);
    } else {
      HostPortShape(text);
    }
  }

  /** The authority and the path of what follows two slashes. */
  function AuthorityPart(rest: string): string {
    var slash := FindChar(rest, '/', 0);
    if slash.None? then rest else rest[..slash.value]
  }

  function PathPart(rest: string): string {
    var slash := FindChar(rest, '/', 0);
    if slash.None? then "" else rest[slash.value..]
  }

  lemma PartsShape(rest: string)
    requires Clean(rest)
    ensures Clean(AuthorityPart(rest)) && Clean(PathPart(rest)) && '/' !in AuthorityPart(rest)
    ensures PathPart(rest) == "" || PathPart(rest)[0] == '/'
    ensures forall d :: d !in rest ==> d !in AuthorityPart(rest) && d !in PathPart(rest)
  {
    var slash := FindChar(rest, '/', 0);
    DelimiterClean('/');
    if slash.Some? {
      CleanPrefix(rest, slash.value);
      CleanSuffix(rest, slash.value);
    }
  }

  lemma HierarchyParts(text: string, uri: Uri)
    requires StartsDouble(text)
    ensures ParseHierarchy(text, uri) ==
              var parsed := ParseAuthority(AuthorityPart(text[2..]), uri);
              if parsed.None? then None else Some(parsed.value.(path := PathPart(text[2..])))
  {
    hide ParseAuthority;
  }

  predicate Unplaced(uri: Uri) {
    uri.userinfo == "" && uri.host == "" && uri.port.None? && !uri.hasAuthority && uri.path == ""
  }

  lemma HierarchyParsed(text: string, uri: Uri)
    requires Clean(text) && '#' !in text && '?' !in text && ParseHierarchy(text, uri).Some?
    requires Unplaced(uri) && SchemeShape(uri) && Clean(uri.query) && Clean(uri.fragment) && '#' !in uri.query
    requires uri.scheme == "" ==> !HasScheme(text)
    ensures Shape(ParseHierarchy(text, uri).value)
    ensures var u := ParseHierarchy(text, uri).value;
            u.scheme == uri.scheme && u.query == uri.query && u.fragment == uri.fragment
  {
    hide ParseAuthority, HasScheme, SchemeOk, Clean, AuthorityPart, PathPart;
    if StartsDouble(text) {
      HierarchyParts(text, uri);
      hide ParseHierarchy;
      CleanSuffix(text, 2);
      NotInSuffix(text, 2);
      PartsShape(text[2..]);
      AuthorityShape(AuthorityPart(text[2..]), uri);
    } else {
      EmptyClean();
    }
  }

  lemma NotInSuffix(text: string, k: nat)
    requires k <= |text|
    ensures forall d :: d !in text ==> d !in text[k..]
  {
  }

  lemma LowerIdempotent(text: string)
    ensures LowerAll(LowerAll(text)) == LowerAll(text)
    ensures SchemeOk(text) ==> SchemeOk(LowerAll(text))
  {
  }

  lemma CreateShape(text: string)
    requires Create(text).Some?
    ensures Shape(Create(text).value)
  {
    hide ParseHierarchy, SchemeOk, HasScheme;
    var (front, fragment) := Cut(text, '#');
    CutClean(text, '#');
    var (hierarchy, query) := Cut(front, '?');
    CutClean(front, '?');
    var base := BLANK.(fragment := fragment, query := query);
    assert '#' !in hierarchy && '?' !in hierarchy && '#' !in query;
    hide Cut, Clean;
    if HasScheme(hierarchy) {
      var (scheme, rest) := Cut(hierarchy, ':');
      CutClean(hierarchy, ':');
      LowerIdempotent(scheme);
      SchemeNotEmpty(scheme);
      HierarchyParsed(rest, base.(scheme := LowerAll(scheme)));
    } else {
      HierarchyParsed(hierarchy, base);
    }
  }

  lemma SchemeNotEmpty(scheme: string)
    requires SchemeOk(scheme)
    ensures LowerAll(scheme) != ""
  {
  }

  // ----- printing and parsing again

  /** What printing makes of a URI: an empty path is completed and a default port dropped. */
  function Canonical(uri: Uri): Uri {
    uri.(path := PathText(uri), port := if uri.IsDefaultPort() then None else uri.port)
  }

  /** The printer leaves the brackets of an address without a colon away. */
  predicate HostPrintable(host: string) {
    ':' in host || '[' !in host
  }

  lemma PortBack(uri: Uri)
    requires uri.port.Some? ==> uri.port.value < 65536
    ensures Clean(PortText(uri))
    ensures forall i :: 0 <= i < |PortText(uri)| ==> !Delimiter(PortText(uri)[i]) || (i == 0 && PortText(uri)[0] == ':')
    ensures PortText(uri) == "" ==> Canonical(uri).port.None?
    ensures PortText(uri) != "" ==>
              PortText(uri)[0] == ':' && ':' !in PortText(uri)[1..] && Canonical(uri).port.Some? &&
              ParsePort(PortText(uri)[1..]) == Canonical(uri).port
  {
    if uri.port.Some? && !uri.IsDefaultPort() {
      var digits := NumberText(uri.port.value, 10);
      NumberClean(uri.port.value);
      DelimiterClean(':');
      CleanConcat(":", digits);
      ParsePrinted(uri.port.value, 10, 65536);
      assert PortText(uri)[1..] == digits;
      assert forall i :: 0 < i < |PortText(uri)| ==> PortText(uri)[i] == digits[i - 1];
    }
  }

  lemma BracketedBack(host: string, port: string, value: Option<nat>)
    requires ':' in host && ']' !in host
    requires port == "" ==> value.None?
    requires port != "" ==> port[0] == ':' && value.Some? && ParsePort(port[1..]) == value
    ensures ParseHostPort(HostText(host) + port) == Some(HostPort(host, value))
  {
    hide ParsePort, Cut;
    var text := HostText(host) + port;
    Regroup("[" + host, "]", port);
    assert text == ("[" + host) + ([']'] + port);
    CutAt("[" + host, ']', port);
    BracketSlices(host, port);
  }

  lemma BracketSlices(host: string, port: string)
    ensures var text := ("[" + host) + ([']'] + port);
            text[0] == '[' && text[1..|host| + 1] == host && text[|host| + 2..] == port
  {
  }

  lemma PlainBack(host: string, port: string, value: Option<nat>)
    requires ':' !in host && '[' !in host && ']' !in host
    requires forall i :: 0 <= i < |port| ==> port[i] != '[' && port[i] != ']'
    requires port == "" ==> value.None?
    requires port != "" ==> port[0] == ':' && ':' !in port[1..] && value.Some? && ParsePort(port[1..]) == value
    ensures ParseHostPort(HostText(host) + port) == Some(HostPort(host, value))
  {
    var text := host + port;
    assert '[' !in text && ']' !in text;
    if port == "" {
      assert text == host;
    } else {
      assert text == host + ([':'] + port[1..]);
      CutAt(host, ':', port[1..]);
      FindLastIs(host, ':', port[1..]);
      assert text[..|host|] == host;
      assert text[|host| + 1..] == port[1..];
    }
  }

  /** The one case that fails: brackets were needed and are gone. */
  lemma UnprintableHost(host: string, port: string)
    requires ':' !in host && '[' in host && ']' !in host
    requires forall i :: 0 <= i < |port| ==> port[i] != '[' && port[i] != ']'
    ensures ParseHostPort(HostText(host) + port).None?
  {
    var text := host + port;
    assert ']' !in text;
    assert text[0] == host[0];
    if text[0] != '[' {
      var i :| 0 <= i < |host| && host[i] == '[';
      assert text[i] == '[';
    }
  }

  lemma HostPortBack(uri: Uri)
    requires HierarchyShape(uri) && uri.hasAuthority
    ensures ParseHostPort(HostText(uri.host) + PortText(uri)) ==
              if HostPrintable(uri.host) then Some(HostPort(uri.host, Canonical(uri).port)) else None
    ensures '@' !in HostText(uri.host) + PortText(uri) && '/' !in HostText(uri.host) + PortText(uri)
  {
    hide ParseHostPort, PortText, ParsePort, Clean;
    PortBack(uri);
    if ':' in uri.host {
      BracketedBack(uri.host, PortText(uri), Canonical(uri).port);
    } else if '[' !in uri.host {
      PlainBack(uri.host, PortText(uri), Canonical(uri).port);
    } else {
      UnprintableHost(uri.host, PortText(uri));
    }
  }

  lemma AuthorityBack(uri: Uri, base: Uri)
    requires HierarchyShape(uri) && uri.hasAuthority
    ensures '/' !in AuthorityText(uri)
    ensures ParseAuthority(AuthorityText(uri), base) ==
              if HostPrintable(uri.host)
              then Some(base.(userinfo := uri.userinfo, host := uri.host, port := Canonical(uri).port,
                              hasAuthority := true))
              else None
  {
    hide ParseHostPort, HostText, PortText;
    HostPortBack(uri);
    var rest := HostText(uri.host) + PortText(uri);
    if uri.userinfo == "" {
      assert AuthorityText(uri) == rest;
    } else {
      assert AuthorityText(uri) == uri.userinfo + (['@'] + rest);
      FindLastIs(uri.userinfo, '@', rest);
      assert AuthorityText(uri)[..|uri.userinfo|] == uri.userinfo;
      assert AuthorityText(uri)[|uri.userinfo| + 1..] == rest;
    }
  }

  lemma HierarchyBack(uri: Uri, base: Uri)
    requires HierarchyShape(uri)
    requires base == uri.(userinfo := "", host := "", port := None, path := "", hasAuthority := false)
    ensures ParseHierarchy(HierarchyText(uri), base) ==
              if !uri.hasAuthority || HostPrintable(uri.host) then Some(Canonical(uri)) else None
  {
    hide ParseAuthority, HasScheme;
    if uri.hasAuthority {
      AuthorityBack(uri, base);
      var authority, path := AuthorityText(uri), PathText(uri);
      var text := HierarchyText(uri);
      assert text == "//" + (authority + path);
      assert text[2..] == authority + path;
      assert authority + path == authority + (['/'] + path[1..]);
      CutAt(authority, '/', path[1..]);
      assert (authority + path)[..|authority|] == authority;
      assert (authority + path)[|authority|..] == path;
    } else {
      assert HierarchyText(uri) == uri.path;
    }
  }

  lemma SchemeStops(scheme: string)
    requires SchemeOk(scheme)
    ensures ':' !in scheme && '/' !in scheme && '#' !in scheme && '?' !in scheme && Clean(scheme)
  {
  }

  lemma SchemedBack(uri: Uri, base: Uri)
    requires SchemeShape(uri) && HierarchyShape(uri)
    requires base == uri.(scheme := "", userinfo := "", host := "", port := None, path := "", hasAuthority := false)
    ensures ParseSchemed(SchemeText(uri) + HierarchyText(uri), base) ==
              if !uri.hasAuthority || HostPrintable(uri.host) then Some(Canonical(uri)) else None
  {
    hide ParseHierarchy, SchemeOk;
    var hierarchy := HierarchyText(uri);
    HierarchyBack(uri, base.(scheme := uri.scheme));
    if uri.scheme == "" {
      assert SchemeText(uri) + hierarchy == hierarchy;
      if uri.hasAuthority {
        assert hierarchy[0] == '/';
      } else {
        assert hierarchy == uri.path;
      }
    } else {
      SchemeStops(uri.scheme);
      assert SchemeText(uri) + hierarchy == uri.scheme + ([':'] + hierarchy);
      CutAt(uri.scheme, ':', hierarchy);
      SlashLater(uri.scheme, hierarchy);
    }
  }

  lemma SlashLater(scheme: string, hierarchy: string)
    requires '/' !in scheme
    ensures var slash := FindChar(scheme + ([':'] + hierarchy), '/', 0); slash.None? || slash.value > |scheme|
  {
  }

  lemma MarkedClean(c: char, text: string)
    requires Delimiter(c) && Clean(text)
    ensures Clean(Marked(c, text))
  {
    DelimiterClean(c);
    if text != "" {
      CleanConcat([c], text);
    }
  }

  lemma AuthorityClean(uri: Uri)
    requires AllClean(uri) && HierarchyShape(uri) && uri.hasAuthority
    ensures Clean(AuthorityText(uri))
    ensures forall d :: d == '#' || d == '?' ==> d !in uri.userinfo && d !in uri.host ==> d !in AuthorityText(uri)
  {
    hide Clean, PortText;
    PortBack(uri);
    DelimiterClean('@');
    DelimiterClean('[');
    DelimiterClean(']');
    CleanConcat("[", uri.host);
    CleanConcat("[" + uri.host, "]");
    CleanConcat(HostText(uri.host), PortText(uri));
    CleanConcat(uri.userinfo, "@");
    if uri.userinfo == "" {
      assert AuthorityText(uri) == HostText(uri.host) + PortText(uri);
    } else {
      CleanConcat(uri.userinfo + "@", HostText(uri.host) + PortText(uri));
    }
  }

  lemma FrontSeparated(uri: Uri)
    requires Shape(uri)
    ensures Clean(SchemeText(uri) + HierarchyText(uri))
    ensures '#' !in SchemeText(uri) + HierarchyText(uri) && '?' !in SchemeText(uri) + HierarchyText(uri)
  {
    hide Clean, SchemeOk, AuthorityText;
    DelimiterClean(':');
    DelimiterClean('/');
    if uri.scheme != "" {
      SchemeStops(uri.scheme);
      CleanConcat(uri.scheme, ":");
    } else {
      EmptyClean();
    }
    if uri.hasAuthority {
      AuthorityClean(uri);
      CleanConcat("/", "/");
      assert "/" + "/" == "//";
      CleanConcat("//", AuthorityText(uri));
      CleanConcat("//" + AuthorityText(uri), PathText(uri));
    } else {
      assert HierarchyText(uri) == uri.path;
    }
    CleanConcat(SchemeText(uri), HierarchyText(uri));
  }

  lemma EmptyClean()
    ensures Clean("")
  {
  }

  lemma {:induction false} DumpCreate(uri: Uri)
    requires Shape(uri)
    ensures Create(DumpText(uri)) == if HostPrintable(uri.host) then Some(Canonical(uri)) else None
  {
    hide Clean, ParseSchemed, SchemeText, HierarchyText, Cut, Marked, Canonical, HierarchyShape, SchemeShape;
    var front := SchemeText(uri) + HierarchyText(uri);
    var query := front + Marked('?', uri.query);
    FrontSeparated(uri);
    MarkedClean('?', uri.query);
    MarkedClean('#', uri.fragment);
    CleanConcat(front, Marked('?', uri.query));
    CleanConcat(query, Marked('#', uri.fragment));
    NoHash(front, uri.query);
    CutJoined(query, '#', uri.fragment);
    CutJoined(front, '?', uri.query);
    var base := uri.(scheme := "", userinfo := "", host := "", port := None, path := "", hasAuthority := false);
    SchemedBack(uri, base);
    assert BLANK.(fragment := uri.fragment, query := uri.query) == base;
    if !uri.hasAuthority {
      NoHost(uri);
    }
  }

  lemma NoHash(front: string, query: string)
    requires '#' !in front && '#' !in query
    ensures '#' !in front + Marked('?', query)
  {
  }

  lemma NoHost(uri: Uri)
    requires HierarchyShape(uri) && !uri.hasAuthority
    ensures HostPrintable(uri.host)
  {
  }

  predicate SameAccessors(a: Uri, b: Uri) {
    && a.scheme == b.scheme && a.userinfo == b.userinfo && a.host == b.host && a.Port() == b.Port()
    && a.Path() == b.Path() && a.query == b.query && a.fragment == b.fragment && a.hasAuthority == b.hasAuthority
  }

  /** For every accepted text: printing and parsing again succeeds and changes no accessor, exactly
      unless the host has an opening bracket but no colon. */
  lemma UriRoundTrip(text: string)
    requires Create(text).Some?
    ensures var uri := Create(text).value;
            var again := Create(DumpText(uri));
            (again.Some? && SameAccessors(again.value, uri)) <==> HostPrintable(uri.host)
  {
    hide Create, DumpText, Shape;
    CreateShape(text);
    DumpCreate(Create(text).value);
  }

  /** And the printed form is stable. */
  lemma DumpIdempotent(text: string)
    requires Create(text).Some? && Create(DumpText(Create(text).value)).Some?
    ensures DumpText(Create(DumpText(Create(text).value)).value) == DumpText(Create(text).value)
  {
    hide Create, Shape;
    var uri := Create(text).value;
    CreateShape(text);
    DumpCreate(uri);
    var again := Canonical(uri);
    assert AuthorityText(again) == AuthorityText(uri);
    assert PathText(again) == PathText(uri);
  }

  lemma BracketsParsed()
    ensures ParseAuthority("[[a]", BLANK) == Some(BLANK.(host := "[a", hasAuthority := true))
  {
    var host := "[[a]";
    FindCharIs(host, ']', 0, 3);
    assert host[1..3] == "[a" && host[4..] == "";
    assert ParseHostPort(host) == Some(HostPort("[a", None));
  }

  lemma BracketsCreated()
    ensures Create("//[[a]") == Some(BLANK.(host := "[a", hasAuthority := true))
  {
    hide ParseAuthority;
    var text := "//[[a]";
    assert Clean(text);
    assert Cut(text, '#') == (text, "") && Cut(text, '?') == (text, "");
    assert FindChar(text, '/', 0) == Some(0);
    assert text[2..] == "[[a]";
    BracketsParsed();
  }

  lemma BracketsDumped()
    ensures DumpText(BLANK.(host := "[a", hasAuthority := true)) == "//[a/"
  {
  }

  /** A text for which it fails. */
  lemma BracketsLost()
    ensures var uri := BLANK.(host := "[a", hasAuthority := true);
            Create("//[[a]") == Some(uri) && DumpText(uri) == "//[a/" && Create("//[a/").None?
  {
    hide Create, Shape, DumpText;
    BracketsCreated();
    BracketsDumped();
    CreateShape("//[[a]");
    DumpCreate(BLANK.(host := "[a", hasAuthority := true));
  }
}
