/** frontend/src/telemetry-policy.ts, safeRoute: any address becomes one of a fixed set of names. */
module TelemetryRoutes {
  import opened Wrappers
  import opened JsValues
  import opened Sequences

  const UNMATCHED := "<unmatched>"
  const JOIN := "/join/{org_id}"
  const PAGES: set<string> := {
    "/", "/login", "/signup", "/sso/complete", "/applications", "/organizations", "/members", "/silicons",
    "/invitations", "/tags", "/trust", "/approvals", "/scope-reviews", "/bundles", "/testing", "/profile", "/sessions"
  }

  /** The parts of a path between its slashes. */
  function Parts(path: string): (r: seq<string>)
    ensures |r| > 0
  {
    Split(path, {'/'})
  }

  predicate Placeholder(part: string) {
    |part| > 0 && part[0] == '{' && part[|part| - 1] == '}'
  }

  predicate PartFits(pattern: string, part: string) {
    pattern == part || (Placeholder(pattern) && part != "")
  }

  predicate Fits(route: string, parts: seq<string>) {
    |Parts(route)| == |parts| && forall i :: 0 <= i < |parts| ==> PartFits(Parts(route)[i], parts[i])
  }

  function FirstFit(routes: seq<string>, parts: seq<string>): (i: nat)
    ensures i <= |routes| && (i < |routes| ==> Fits(routes[i], parts))
    ensures forall j :: 0 <= j < i ==> !Fits(routes[j], parts)
  {
    if routes == [] || Fits(routes[0], parts) then 0 else 1 + FirstFit(routes[1..], parts)
  }

  predicate JoinPage(parts: seq<string>) {
    |parts| == 3 && parts[0] == "" && parts[1] == "join" && parts[2] != ""
  }

  /** The known routes, and the URL parser: the path of an address, None if it is none. */
  datatype Site = Site(routes: seq<string>, pathname: string -> Option<string>)

  /** The name of a path. */
  function NameOf(site: Site, path: string): string {
    var parts := Parts(path);
    if path in PAGES then path
    else if JoinPage(parts) then JOIN
    else
      var i := FirstFit(site.routes, parts);
      if i < |site.routes| then site.routes[i] else UNMATCHED
  }

  function SafeRoute(site: Site, value: Option<Js>): string {
    if value.None? || !value.value.Str? then UNMATCHED
    else
      var path := site.pathname(value.value.text);
      if path.None? then UNMATCHED else NameOf(site, path.value)
  }

  // ----- how the URL parser treats the names -----

  function EncodeChar(c: char): string {
    if c == '{' then "%7B" else if c == '}' then "%7D" else if c == '<' then "%3C" else if c == '>' then "%3E" else [c]
  }

  /** Percent-encoding, for the characters that occur in names. */
  function Encode(s: string): string {
    if s == "" then "" else EncodeChar(s[0]) + Encode(s[1..])
  }

  /** A part of a route is a placeholder or a literal that encoding leaves alone and that is not
      itself an encoded placeholder. */
  predicate RegularPart(part: string) {
    Placeholder(part) || (Encode(part) == part && !("%7B" <= part))
  }

  predicate RegularRoute(route: string) {
    && (forall i :: 0 <= i < |Parts(route)| ==> RegularPart(Parts(route)[i]))
    && !Fits(route, ["", "%3Cunmatched%3E"])
  }

  /** Every route is regular, and the parser encodes names and otherwise keeps them. */
  ghost predicate Regular(site: Site) {
    && (forall r :: r in site.routes ==> RegularRoute(r) && site.pathname(r) == Some(Encode(r)))
    && (forall p :: p in PAGES ==> site.pathname(p) == Some(p))
    && site.pathname(JOIN) == Some("/join/%7Borg_id%7D")
    && site.pathname(UNMATCHED) == Some("/%3Cunmatched%3E")
  }

  function Each(parts: seq<string>): (r: seq<string>)
    ensures |r| == |parts| && forall i :: 0 <= i < |r| ==> r[i] == Encode(parts[i])
  {
    seq(|parts|, i requires 0 <= i < |parts| => Encode(parts[i]))
  }

  lemma PartsPrefix(x: string, s: string)
    requires '/' !in x
    ensures Parts(x + s) == [x + Parts(s)[0]] + Parts(s)[1..]
  {
    SplitPrefix(x, s, {'/'});
  }

  lemma EncodeCons(c: char, rest: string)
    ensures Encode([c] + rest) == EncodeChar(c) + Encode(rest) && (c != '/' ==> '/' !in EncodeChar(c))
  {
    assert ([c] + rest)[1..] == rest;
  }

  /** Encoding a path encodes its parts. */
  lemma {:induction false} SplitEncode(s: string)
    ensures Parts(Encode(s)) == Each(Parts(s))
  {
    if s != "" {
      SplitEncode(s[1..]);
      assert [s[0]] + s[1..] == s;
      if s[0] == '/' { SlashEncode(s[1..]); } else { CharEncode(s[0], s[1..]); }
    }
  }

  lemma EachCons(head: string, parts: seq<string>)
    ensures Each([head] + parts) == [Encode(head)] + Each(parts)
    ensures parts != [] ==> Each(parts) == [Encode(parts[0])] + Each(parts[1..])
  {
    hide Encode;
  }

  lemma SlashEncode(rest: string)
    requires Parts(Encode(rest)) == Each(Parts(rest))
    ensures Parts(Encode("/" + rest)) == Each(Parts("/" + rest))
  {
    EncodeCons('/', rest);
    EachCons("", Parts(rest));
    SplitSlash(rest);
    SplitSlash(Encode(rest));
    assert Encode("") == "" && EncodeChar('/') == "/";
    hide Parts, Encode, Each, EncodeChar;
  }

  lemma SplitSlash(rest: string)
    ensures Parts("/" + rest) == [""] + Parts(rest)
  {
    assert ("/" + rest)[1..] == rest;
  }

  lemma CharEncode(c: char, rest: string)
    requires c != '/' && Parts(Encode(rest)) == Each(Parts(rest))
    ensures Parts(Encode([c] + rest)) == Each(Parts([c] + rest))
  {
    hide EncodeChar, Encode, Each, Parts;
    var parts := Parts(rest);
    EncodeCons(c, rest);
    EncodeCons(c, parts[0]);
    PartsPrefix([c], rest);
    PartsPrefix(EncodeChar(c), Encode(rest));
    EachCons([c] + parts[0], parts[1..]);
    EachCons("", parts);
  }

  lemma {:induction false} SplitInjective(a: string, b: string)
    requires Parts(a) == Parts(b)
    ensures a == b
  {
    SplitLength(a);
    SplitLength(b);
    if a != "" && b != "" {
      var x, y := Parts(a[1..]), Parts(b[1..]);
      if a[0] == '/' {
        assert Parts(a)[0] == "" && b[0] == '/';
        assert Parts(a)[1..] == x && Parts(b)[1..] == y;
      } else {
        assert Parts(a)[0][0] == a[0] && b[0] != '/' && Parts(b)[0][0] == b[0];
        assert Parts(a)[0][1..] == x[0] && Parts(b)[0][1..] == y[0];
        assert Parts(a)[1..] == x[1..] && Parts(b)[1..] == y[1..];
        assert x == [x[0]] + x[1..] && y == [y[0]] + y[1..];
      }
      SplitInjective(a[1..], b[1..]);
      assert a == [a[0]] + a[1..] && b == [b[0]] + b[1..];
    }
  }

  /** Only the empty path splits into one empty part. */
  lemma SplitLength(s: string)
    ensures s == "" <==> Parts(s) == [""]
  {
    if s != "" {
      var rest := Split(s[1..], {'/'});
      assert s[0] == '/' ==> |Parts(s)| == 1 + |rest| > 1;
      assert s[0] != '/' ==> Parts(s)[0] == [s[0]] + rest[0] != "";
    }
  }

  lemma {:induction false} SplitChars(s: string, i: nat, c: char)
    requires i < |Parts(s)| && c in Parts(s)[i]
    ensures c in s
  {
    if s != "" {
      var rest := Parts(s[1..]);
      if s[0] == '/' {
        SplitChars(s[1..], i - 1, c);
      } else if i > 0 {
        SplitChars(s[1..], i, c);
      } else if c != s[0] {
        SplitChars(s[1..], 0, c);
      }
    }
  }

  lemma {:induction false} EncodePlain(s: string)
    requires '%' !in Encode(s)
    ensures Encode(s) == s && '{' !in s
  {
    if s != "" {
      assert EncodeChar(s[0])[0] in Encode(s);
      assert forall c :: c in Encode(s[1..]) ==> c in Encode(s);
      EncodePlain(s[1..]);
    }
  }

  lemma EncodeOpens(part: string)
    requires Placeholder(part)
    ensures "%7B" <= Encode(part)
  {
  }

  lemma EncodeEmpty(part: string)
    ensures Encode(part) == "" <==> part == ""
  {
  }

  // ----- naming a name -----

  /** A route fits its own encoded name. */
  lemma FitsItself(route: string)
    requires RegularRoute(route)
    ensures Fits(route, Each(Parts(route)))
  {
    forall i | 0 <= i < |Parts(route)| ensures PartFits(Parts(route)[i], Each(Parts(route))[i]) {
      assert RegularPart(Parts(route)[i]);
      EncodeEmpty(Parts(route)[i]);
    }
  }

  /** Whatever fits the encoded name of a route fits every path the route fits. */
  lemma FitsBack(earlier: string, route: string, parts: seq<string>)
    requires RegularRoute(earlier) && RegularRoute(route) && Fits(route, parts) && Fits(earlier, Each(Parts(route)))
    ensures Fits(earlier, parts)
  {
    var pattern, names := Parts(earlier), Parts(route);
    forall i | 0 <= i < |parts| ensures PartFits(pattern[i], parts[i]) {
      assert RegularPart(pattern[i]) && RegularPart(names[i]);
      assert PartFits(names[i], parts[i]) && PartFits(pattern[i], Each(names)[i]);
      EncodeEmpty(names[i]);
      if Placeholder(names[i]) { EncodeOpens(names[i]); }
    }
  }

  /** The route a path is named by is the route its own name is named by. */
  lemma SameFirstFit(site: Site, parts: seq<string>)
    requires Regular(site) && FirstFit(site.routes, parts) < |site.routes|
    ensures var i := FirstFit(site.routes, parts);
            FirstFit(site.routes, Each(Parts(site.routes[i]))) == i
  {
    var i := FirstFit(site.routes, parts);
    var route := site.routes[i];
    assert route in site.routes;
    FitsItself(route);
    var j := FirstFit(site.routes, Each(Parts(route)));
    if j < i {
      assert site.routes[j] in site.routes;
      FitsBack(site.routes[j], route, parts);
    }
  }

  lemma UnmatchedSplit()
    ensures Parts("/%3Cunmatched%3E") == ["", "%3Cunmatched%3E"]
  {
    var name := "%3Cunmatched%3E";
    assert '/' !in name;
    NoSlash(name);
    assert "/%3Cunmatched%3E"[1..] == name;
  }

  lemma TwoParts(a: string, b: string)
    requires '/' !in a && '/' !in b
    ensures Parts("/" + a + ("/" + b)) == ["", a, b]
  {
    NoSlash(b);
    assert ("/" + b)[1..] == b;
    PartsPrefix(a, "/" + b);
    assert ("/" + a + ("/" + b))[1..] == a + ("/" + b);
    assert a + "" == a;
  }

  lemma JoinName(site: Site, path: string, id: string)
    requires path == "/" + "join" + ("/" + id) && id != "" && '/' !in id && path !in PAGES
    ensures NameOf(site, path) == JOIN
  {
    TwoParts("join", id);
  }

  /** The name of the join pages is a join page. */
  lemma JoinStays(site: Site)
    ensures NameOf(site, "/join/%7Borg_id%7D") == JOIN
  {
    hide Parts, FirstFit, NameOf, Encode;
    NotPage("/join/%7Borg_id%7D", 6);
    hide PAGES;
    var id := "%7Borg_id%7D";
    assert "/join/%7Borg_id%7D" == "/" + "join" + ("/" + id);
    JoinName(site, "/join/%7Borg_id%7D", id);
  }

  /** Nothing fits the name of what fits nothing. */
  lemma UnmatchedStays(site: Site)
    requires Regular(site)
    ensures NameOf(site, "/%3Cunmatched%3E") == UNMATCHED
  {
    hide Parts, Fits, PAGES, FirstFit, Encode, Split;
    UnmatchedSplit();
    NotPage("/%3Cunmatched%3E", 1);
    var parts := ["", "%3Cunmatched%3E"];
    var i := FirstFit(site.routes, parts);
    assert i < |site.routes| ==> RegularRoute(site.routes[i]);
    hide Parts, Fits, PAGES, FirstFit;
  }

  lemma NotPage(path: string, i: nat)
    requires i < |path| && path[i] == '%'
    ensures path !in PAGES
  {
    PagesPlain();
  }

  lemma {:induction false} NoSlash(s: string)
    requires '/' !in s
    ensures Parts(s) == [s]
  {
    PartsPrefix(s, "");
    assert s + "" == s;
  }

  lemma PagesPlain()
    ensures forall p :: p in PAGES ==> '%' !in p
  {
  }

  lemma NoPlaceholders(route: string)
    requires '{' !in route
    ensures forall i :: 0 <= i < |Parts(route)| ==> !Placeholder(Parts(route)[i])
  {
    forall i | 0 <= i < |Parts(route)| ensures '{' !in Parts(route)[i] {
      if '{' in Parts(route)[i] { SplitChars(route, i, '{'); }
    }
  }

  /** A name of a route is no page and no join page, once its path was none. */
  lemma RouteNameIsRoute(site: Site, path: string)
    requires Regular(site)
    requires path !in PAGES && !JoinPage(Parts(path)) && FirstFit(site.routes, Parts(path)) < |site.routes|
    ensures var route := site.routes[FirstFit(site.routes, Parts(path))];
            Encode(route) !in PAGES && !JoinPage(Parts(Encode(route)))
  {
    var route := site.routes[FirstFit(site.routes, Parts(path))];
    assert RegularRoute(route) && Fits(route, Parts(path));
    hide RegularRoute, Fits, PAGES, JoinPage, Parts, Encode;
    NameIsNoPage(route, path);
    NameIsNoJoin(route, path);
  }

  lemma NameIsNoPage(route: string, path: string)
    requires Fits(route, Parts(path)) && path !in PAGES
    ensures Encode(route) !in PAGES
  {
    hide Parts;
    if Encode(route) in PAGES {
      PagesPlain();
      EncodePlain(route);
      NoPlaceholders(route);
      hide PAGES, Placeholder;
      assert forall i :: 0 <= i < |Parts(route)| ==> PartFits(Parts(route)[i], Parts(path)[i]);
      assert Parts(route) == Parts(path);
      SplitInjective(route, path);
    }
  }

  lemma NameIsNoJoin(route: string, path: string)
    requires RegularRoute(route) && Fits(route, Parts(path)) && !JoinPage(Parts(path))
    ensures !JoinPage(Parts(Encode(route)))
  {
    hide Parts, Encode, RegularPart, PartFits, Placeholder;
    var names, parts := Parts(route), Parts(path);
    SplitEncode(route);
    if |names| == 3 {
      assert RegularPart(names[0]) && RegularPart(names[1]) && RegularPart(names[2]);
      assert PartFits(names[0], parts[0]) && PartFits(names[1], parts[1]) && PartFits(names[2], parts[2]);
      PartNamed(names[0], parts[0]);
      PartNamed(names[1], parts[1]);
      PartNamed(names[2], parts[2]);
    }
  }

  /** A part is empty, or join, if the encoded name of what fits it is. */
  lemma PartNamed(name: string, part: string)
    requires RegularPart(name) && PartFits(name, part)
    ensures (Encode(name) == "" <==> part == "") && (Encode(name) == "join" ==> part == "join")
  {
    EncodeEmpty(name);
    if Placeholder(name) {
      EncodeOpens(name);
      assert Encode(name)[0] == "%7B"[0] && "join"[0] == 'j';
    }
    hide Encode;
  }

  lemma RouteStays(site: Site, path: string)
    requires Regular(site)
    requires path !in PAGES && !JoinPage(Parts(path)) && FirstFit(site.routes, Parts(path)) < |site.routes|
    ensures NameOf(site, Encode(NameOf(site, path))) == NameOf(site, path)
  {
    hide Parts, FirstFit, JoinPage, Regular, Encode, PAGES, Each, Fits;
    SameFirstFit(site, Parts(path));
    RouteNameIsRoute(site, path);
    SplitEncode(site.routes[FirstFit(site.routes, Parts(path))]);
  }

  lemma NameStays(site: Site, path: string)
    requires Regular(site)
    ensures var again := site.pathname(NameOf(site, path));
            again.Some? && NameOf(site, again.value) == NameOf(site, path)
  {
    hide PAGES, Parts, JoinPage, Fits, Encode, RegularRoute, FirstFit;
    UnmatchedStays(site);
    JoinStays(site);
    if path !in PAGES && !JoinPage(Parts(path)) && FirstFit(site.routes, Parts(path)) < |site.routes| {
      RouteStays(site, path);
      assert NameOf(site, path) in site.routes;
    }
  }

  /** Naming is idempotent: the second time round every name stays as it is. */
  lemma NamesStay(site: Site, value: Option<Js>)
    requires Regular(site)
    ensures var name := SafeRoute(site, value);
            SafeRoute(site, Some(Str(name))) == name
  {
    assert site.pathname(UNMATCHED) == Some("/%3Cunmatched%3E");
    UnmatchedStays(site);
    hide Regular;
    if value.Some? && value.value.Str? && site.pathname(value.value.text).Some? {
      NameStays(site, site.pathname(value.value.text).value);
    }
    hide NameOf, PAGES, Fits, FirstFit, Parts, Encode;
  }

  /** Only pages, known routes and two fixed names ever come out. */
  lemma NamesKnown(site: Site, value: Option<Js>)
    ensures SafeRoute(site, value) in PAGES + {JOIN, UNMATCHED} + (set r | r in site.routes)
  {
  }

  /** What an address is named: its page, the join page, the first known route that fits its path, or
      unmatched if none does. */
  lemma NamedBy(site: Site, text: string)
    ensures var path, name := site.pathname(text), SafeRoute(site, Some(Str(text)));
            if path.None? then name == UNMATCHED
            else if path.value in PAGES then name == path.value
            else if JoinPage(Parts(path.value)) then name == JOIN
            else if exists r :: r in site.routes && Fits(r, Parts(path.value)) then
              exists i :: 0 <= i < |site.routes| && name == site.routes[i] && Fits(name, Parts(path.value))
                && forall j :: 0 <= j < i ==> !Fits(site.routes[j], Parts(path.value))
            else name == UNMATCHED
  {
    hide Fits, PAGES, Parts, JoinPage;
    var path := site.pathname(text);
    if path.Some? {
      var i := FirstFit(site.routes, Parts(path.value));
      assert i == |site.routes| ==> forall r :: r in site.routes ==> !Fits(r, Parts(path.value));
    }
  }
}
