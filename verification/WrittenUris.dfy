/** URIs with an authority, written by hand: scheme in any case, userinfo, host, port and the parts
    behind; and the ports that the schemes stand for. */
module WrittenUris {
  import opened Wrappers
  import opened Text
  import opened Numbers
  import opened Uris

  function Authority(parts: Uri): string {
    (if parts.userinfo == "" then "" else parts.userinfo + "@")
    + ((if ':' in parts.host then "[" + parts.host + "]" else parts.host)
       + (if parts.port.None? then "" else ":" + NumberText(parts.port.value, 10)))
  }

  function Front(parts: Uri): string {
    (if parts.scheme == "" then "" else parts.scheme + ":") + (("//" + Authority(parts)) + parts.path)
  }

  function Written(parts: Uri): string {
    (Front(parts) + (if parts.query == "" then "" else "?" + parts.query))
    + (if parts.fragment == "" then "" else "#" + parts.fragment)
  }

  /** No part contains a mark that ends it. */
  predicate WellFormed(parts: Uri) {
    && (parts.scheme == "" || SchemeOk(parts.scheme)) && parts.hasAuthority && HostPrintable(parts.host)
    && AllClean(parts) && Separated(parts) && HierarchyShape(parts)
  }

  /** Without a scheme no port is the default one. */
  lemma SameAuthority(parts: Uri)
    ensures AuthorityText(parts.(scheme := "")) == Authority(parts)
  {
  }

  lemma AuthorityRead(parts: Uri, base: Uri)
    requires WellFormed(parts)
    ensures '/' !in Authority(parts) && '#' !in Authority(parts) && '?' !in Authority(parts) && Clean(Authority(parts))
    ensures ParseAuthority(Authority(parts), base) ==
              Some(base.(userinfo := parts.userinfo, host := parts.host, port := parts.port, hasAuthority := true))
  {
    hide Clean, AuthorityText, ParseAuthority;
    var bare := parts.(scheme := "");
    SameAuthority(parts);
    AuthorityBack(bare, base);
    AuthorityClean(bare);
  }

  lemma HierarchyRead(parts: Uri, base: Uri)
    requires WellFormed(parts)
    ensures ParseHierarchy(("//" + Authority(parts)) + parts.path, base) ==
              Some(base.(userinfo := parts.userinfo, host := parts.host, port := parts.port, hasAuthority := true,
                         path := parts.path))
  {
    hide Clean, ParseAuthority, Authority, ParseHierarchy, WellFormed, AuthorityPart, PathPart;
    AuthorityRead(parts, base);
    assert parts.path == "" || parts.path[0] == '/' by { PathShape(parts); }
    CutPath(Authority(parts), parts.path);
    DoubleSlash(Authority(parts), parts.path);
    HierarchyParts(("//" + Authority(parts)) + parts.path, base);
  }

  lemma PathShape(parts: Uri)
    requires WellFormed(parts)
    ensures parts.path == "" || parts.path[0] == '/'
    ensures Clean(parts.path) && '#' !in parts.path && '?' !in parts.path
  {
  }

  lemma DoubleSlash(authority: string, path: string)
    ensures var text := ("//" + authority) + path; StartsDouble(text) && text[2..] == authority + path
  {
  }

  lemma CutPath(authority: string, path: string)
    requires '/' !in authority && (path == "" || path[0] == '/')
    ensures AuthorityPart(authority + path) == authority && PathPart(authority + path) == path
  {
    var rest := authority + path;
    if path == "" {
      assert rest == authority;
    } else {
      assert rest == authority + (['/'] + path[1..]);
      CutAt(authority, '/', path[1..]);
    }
  }

  lemma SchemeRead(parts: Uri, base: Uri)
    requires WellFormed(parts) && base.scheme == ""
    ensures ParseSchemed(Front(parts), base) ==
              Some(base.(scheme := LowerAll(parts.scheme), userinfo := parts.userinfo, host := parts.host,
                         port := parts.port, hasAuthority := true, path := parts.path))
  {
    hide ParseHierarchy, SchemeOk, Authority, AllClean, Separated, HierarchyShape, HostPrintable;
    var hierarchy := ("//" + Authority(parts)) + parts.path;
    HierarchyRead(parts, base);
    HierarchyRead(parts, base.(scheme := LowerAll(parts.scheme)));
    if parts.scheme == "" {
      assert Front(parts) == hierarchy && hierarchy[0] == '/';
      assert LowerAll("") == "";
    } else {
      SchemeStops(parts.scheme);
      assert Front(parts) == parts.scheme + ([':'] + hierarchy);
      CutAt(parts.scheme, ':', hierarchy);
      SlashLater(parts.scheme, hierarchy);
    }
  }

  lemma FrontClean(parts: Uri)
    requires WellFormed(parts)
    ensures Clean(Front(parts)) && '#' !in Front(parts) && '?' !in Front(parts)
  {
    hide Clean, Authority, WellFormed, ParseAuthority;
    AuthorityRead(parts, BLANK);
    PathShape(parts);
    SchemeClean(parts);
    JoinedClean(if parts.scheme == "" then "" else parts.scheme + ":", Authority(parts), parts.path);
  }

  lemma SchemeClean(parts: Uri)
    requires WellFormed(parts)
    ensures var text := if parts.scheme == "" then "" else parts.scheme + ":";
            Clean(text) && '#' !in text && '?' !in text
  {
    hide Clean, SchemeOk, AllClean, Separated, HierarchyShape, HostPrintable;
    DelimiterClean(':');
    if parts.scheme != "" {
      SchemeStops(parts.scheme);
      CleanConcat(parts.scheme, ":");
    } else {
      EmptyClean();
    }
  }

  lemma JoinedClean(scheme: string, authority: string, path: string)
    requires Clean(scheme) && Clean(authority) && Clean(path)
    requires '#' !in scheme && '?' !in scheme && '#' !in authority && '?' !in authority && '#' !in path && '?' !in path
    ensures var text := scheme + (("//" + authority) + path);
            Clean(text) && '#' !in text && '?' !in text
  {
    hide Clean;
    DelimiterClean('/');
    CleanConcat("/", "/");
    assert "/" + "/" == "//";
    CleanConcat("//", authority);
    CleanConcat("//" + authority, path);
    CleanConcat(scheme, ("//" + authority) + path);
  }

  /** Every written URI is taken apart as it was put together; only the scheme is folded. */
  lemma WrittenUriRead(parts: Uri)
    requires WellFormed(parts)
    ensures Create(Written(parts)) == Some(parts.(scheme := LowerAll(parts.scheme)))
  {
    FrontClean(parts);
    SchemeRead(parts, BLANK.(fragment := parts.fragment, query := parts.query));
    assert Clean(parts.query) && Clean(parts.fragment) && '#' !in parts.query;
    hide Clean, ParseSchemed, Front, Cut, WellFormed;
    MarkedClean('?', parts.query);
    MarkedClean('#', parts.fragment);
    var query := Front(parts) + Marked('?', parts.query);
    CleanConcat(Front(parts), Marked('?', parts.query));
    CleanConcat(query, Marked('#', parts.fragment));
    NoHash(Front(parts), parts.query);
    CutJoined(query, '#', parts.fragment);
    CutJoined(Front(parts), '?', parts.query);
  }

  /** The port of the scheme, if it is one of the four. */
  function SchemePort(scheme: string): Option<nat> {
    if SameName(scheme, "http") || SameName(scheme, "ws") then Some(80)
    else if SameName(scheme, "https") || SameName(scheme, "wss") then Some(443)
    else None
  }

  lemma Folded(scheme: string, name: string)
    requires LowerAll(name) == name
    ensures LowerAll(scheme) == name <==> SameName(scheme, name)
  {
    if LowerAll(scheme) == name {
      assert forall i :: 0 <= i < |scheme| ==> LowerAll(scheme)[i] == LowerAll(name)[i];
    }
  }

  lemma FourSchemes()
    ensures LowerAll("http") == "http" && LowerAll("https") == "https"
    ensures LowerAll("ws") == "ws" && LowerAll("wss") == "wss"
  {
  }

  /** What the accessors say of the port: the written one; else 80 or 443 for the four schemes. */
  lemma PortsOfSchemes(parts: Uri)
    requires WellFormed(parts)
    ensures Create(Written(parts)).Some?
    ensures var uri := Create(Written(parts)).value;
            && uri.Port() == (if parts.port.Some? then parts.port else SchemePort(parts.scheme))
            && (uri.IsDefaultPort() <==> parts.port.None? || parts.port == SchemePort(parts.scheme))
  {
    hide Create, Written, WellFormed, LowerAll, SameName;
    WrittenUriRead(parts);
    FourSchemes();
    Folded(parts.scheme, "http");
    Folded(parts.scheme, "https");
    Folded(parts.scheme, "ws");
    Folded(parts.scheme, "wss");
  }
}
