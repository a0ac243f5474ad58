/** The provider's URL-parameter resolver: from the page's query parameters
    it decides whether to try a connection on its own, and with which
    configuration.

    The query string is modelled as a map from parameter names to their
    already-decoded values (`None` when the page has no location to read).
    A driver handed to the provider by its caller switches URL parsing off
    altogether; the resolver only needs to know whether there is one. */
module Resolver {
  import opened Wrappers
  import opened UrlGrammar
  import opened Connection

  type Query = map<string, string>

  /** A query parameter, with an empty value read as absent, as
      `searchParams.get(name) || undefined` does. */
  function Param(q: Query, name: string): Option<string> {
    if name in q && q[name] != "" then Some(q[name]) else None
  }

  /** JavaScript truthiness of a port value. */
  predicate PortIsTruthy(port: Port) {
    match port
    case PortDigits(d) => d != ""
    case PortNumber(n) => n != 0
  }

  /** The scheme a match resolves to: the scheme name of its prefix, without
      the suffix, or the default scheme when there is no prefix. */
  function MatchScheme(m: UrlMatch): (scheme: string)
    ensures Valid(m) ==> IsSchemeName(scheme)
    ensures m.prefix.None? ==> scheme == DefaultScheme
    ensures m.prefix.Some? ==> PrefixText(m.prefix) == scheme + m.prefix.value.suffix + "://"
  {
    match m.prefix
    case Some(p) => p.name
    case None => DefaultScheme
  }

  /** The port a match resolves to: its digit string, or the default port. */
  function MatchPort(m: UrlMatch): (port: Port)
    ensures m.port.None? <==> port == PortNumber(DefaultPort)
    ensures m.port.Some? ==> port == PortDigits(m.port.value)
  {
    match m.port
    case Some(d) => PortDigits(d)
    case None => PortNumber(DefaultPort)
  }

  /** The configuration to connect with automatically, if any.
      `supplied` says whether the caller handed the provider a driver;
      `search` is the page's query, `None` when there is no location. */
  function Resolve(supplied: bool, search: Option<Query>): (r: Option<Config>)
    ensures supplied ==> r.None?
    ensures r.Some? ==> search.Some? && "url" in search.value
    ensures r.Some? ==>
      && IsSchemeName(r.value.scheme)
      && |r.value.host| > 0 && AllHostChars(r.value.host)
      && PortIsTruthy(r.value.port)
  {
    if supplied then None
    else
      match search
      case None => None
      case Some(q) =>
        var matched := if "url" in q then MatchUrl(q["url"]) else None;
        match matched
        case None => None
        case Some(m) =>
          var scheme := MatchScheme(m);
          var port := MatchPort(m);
          // Only a URL that yielded scheme, host and port is tried.
          if scheme != "" && m.host != "" && PortIsTruthy(port) then
            Some(Config(scheme, m.host, port, Param(q, "user"), Param(q, "pass"), Param(q, "database")))
          else None
  }

  /** A connection is attempted exactly when there is no supplied driver and
      `url` is present and matches: the check that scheme, host and port
      were all found never turns a matched URL away. */
  lemma AttemptedIffMatched(supplied: bool, search: Option<Query>)
    ensures Resolve(supplied, search).Some? <==>
      && !supplied && search.Some?
      && "url" in search.value && MatchUrl(search.value["url"]).Some?
  {
  }

  /** A URL spelled from valid parts resolves to exactly those parts, with
      the scheme suffix dropped and the scheme and port defaulted, plus the
      credentials and database of their own parameters. */
  lemma ResolveSpelled(m: UrlMatch, q: Query)
    requires Valid(m) && "url" in q && q["url"] == Spell(m)
    ensures Resolve(false, Some(q)) == Some(Config(
      if m.prefix.Some? then m.prefix.value.name else DefaultScheme,
      m.host,
      if m.port.Some? then PortDigits(m.port.value) else PortNumber(DefaultPort),
      Param(q, "user"), Param(q, "pass"), Param(q, "database")))
  {
    MatchUrlComplete(m);
  }

  /** The suffix after the scheme name never reaches the configuration:
      URLs that differ only in it resolve to the same configuration. */
  lemma SchemeSuffixDropped(q: Query, p1: Prefix, p2: Prefix, host: string, port: Option<string>)
    requires ValidPrefix(p1) && ValidPrefix(p2) && p1.name == p2.name
    requires |host| > 0 && AllHostChars(host) && ValidPort(port)
    ensures Resolve(false, Some(q["url" := Spell(UrlMatch(Some(p1), host, port))]))
         == Resolve(false, Some(q["url" := Spell(UrlMatch(Some(p2), host, port))]))
  {
    var q1 := q["url" := Spell(UrlMatch(Some(p1), host, port))];
    var q2 := q["url" := Spell(UrlMatch(Some(p2), host, port))];
    ResolveSpelled(UrlMatch(Some(p1), host, port), q1);
    ResolveSpelled(UrlMatch(Some(p2), host, port), q2);
    assert Param(q1, "user") == Param(q2, "user");
    assert Param(q1, "pass") == Param(q2, "pass");
    assert Param(q1, "database") == Param(q2, "database");
  }

  /** The resolved port is the digit string after a ':' that only digits
      follow, and the default port 7687 exactly when there is no such ':'. */
  lemma ResolvedPort(q: Query)
    requires Resolve(false, Some(q)).Some?
    ensures var url := q["url"];
      var port := Resolve(false, Some(q)).value.port;
      && (port == PortNumber(DefaultPort) <==> forall k :: 0 <= k < |url| ==> !PortSuffixAt(url, k))
      && (forall k :: PortSuffixAt(url, k) ==> port == PortDigits(url[k + 1..]))
  {
    var url := q["url"];
    var m := MatchUrl(url).value;
    var port := Resolve(false, Some(q)).value.port;
    assert port == MatchPort(m);
    forall k | PortSuffixAt(url, k)
      ensures port == PortDigits(url[k + 1..])
    {
      PortSuffixIsPort(m, k);
    }
    if m.port.Some? {
      PortIsPortSuffix(m);
    }
  }

  /** The credentials and database come from their own parameters whatever
      the URL is: two URLs that both resolve give the same ones, and an
      empty parameter is left out. */
  lemma CredentialsIndependentOfUrl(q: Query, url1: string, url2: string)
    requires Resolve(false, Some(q["url" := url1])).Some?
    requires Resolve(false, Some(q["url" := url2])).Some?
    ensures var c1 := Resolve(false, Some(q["url" := url1])).value;
      var c2 := Resolve(false, Some(q["url" := url2])).value;
      && c1.username == c2.username && c1.password == c2.password && c1.database == c2.database
    ensures var c := Resolve(false, Some(q["url" := url1])).value;
      && (c.username.Some? <==> "user" in q && q["user"] != "")
      && (c.password.Some? <==> "pass" in q && q["pass"] != "")
      && (c.database.Some? <==> "database" in q && q["database"] != "")
  {
  }

  /** `?url=bolt://myhost:7688&user=a&pass=b&database=d` resolves to every
      part of the URL and all three parameters. */
  lemma BoltUrlWithPortExample()
    ensures Resolve(false, Some(map["url" := "bolt://myhost:7688", "user" := "a", "pass" := "b", "database" := "d"]))
         == Some(Config("bolt", "myhost", PortDigits("7688"), Some("a"), Some("b"), Some("d")))
  {
    var m := UrlMatch(Some(Prefix("bolt", "")), "myhost", Some("7688"));
    assert PrefixText(m.prefix) == "bolt://" && PortText(m.port) == ":7688";
    assert Spell(m) == "bolt://myhost:7688";
    assert AllDigits("7688");
    assert AllHostChars("myhost");
    assert Valid(m);
    var q := map["url" := "bolt://myhost:7688", "user" := "a", "pass" := "b", "database" := "d"];
    assert Param(q, "user") == Some("a");
    assert Param(q, "pass") == Some("b");
    assert Param(q, "database") == Some("d");
    ResolveSpelled(m, q);
  }

  /** `?url=myhost` resolves to the default scheme and port, no credentials. */
  lemma BareHostExample()
    ensures Resolve(false, Some(map["url" := "myhost"]))
         == Some(Config("neo4j", "myhost", PortNumber(7687), None, None, None))
  {
    var m := UrlMatch(None, "myhost", None);
    assert PrefixText(m.prefix) == "" && PortText(m.port) == "";
    assert Spell(m) == "myhost";
    assert AllHostChars("myhost");
    var q := map["url" := "myhost"];
    assert Param(q, "user") == Param(q, "pass") == Param(q, "database") == None;
    ResolveSpelled(m, q);
  }

  /** An encrypted scheme is accepted, but only its name is kept. */
  lemma SecureSchemeExample()
    ensures Resolve(false, Some(map["url" := "neo4j+s://db.io:443"]))
         == Some(Config("neo4j", "db.io", PortDigits("443"), None, None, None))
  {
    var m := UrlMatch(Some(Prefix("neo4j", "+s")), "db.io", Some("443"));
    assert PrefixText(m.prefix) == "neo4j+s://" && PortText(m.port) == ":443";
    assert Spell(m) == "neo4j+s://db.io:443";
    assert AllDigits("443");
    assert AllHostChars("db.io");
    assert Valid(m);
    var q := map["url" := "neo4j+s://db.io:443"];
    assert Param(q, "user") == Param(q, "pass") == Param(q, "database") == None;
    ResolveSpelled(m, q);
  }

  /** An unsupported scheme is not an error: nothing is tried. */
  lemma ForeignSchemeExample()
    ensures Resolve(false, Some(map["url" := "http://myhost:7687"])).None?
  {
    assert "http://myhost:7687" == "http" + "://" + "myhost:7687";
    assert "http"[0] == 'h' && "neo4j"[0] == 'n' && "bolt"[0] == 'b';
    RejectsForeignScheme("http", "myhost:7687");
  }
}
