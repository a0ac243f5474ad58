/** The connection-string grammar of the provider's URL-parameter resolver.

    A connection URL is an optional prefix, a host and an optional port:
      - the prefix is a scheme name, `neo4j` or `bolt`, then one of the
        suffixes "", "+", "+s", "+sc" or "+ssc", then "://";
      - the host is a non-empty run of ASCII letters, digits, '_' and '.';
      - the port is ':' followed by one or more ASCII digits;
    and nothing else may surround them.

    `MatchUrl` is a deterministic matcher for this grammar; `Spell` writes a
    match back out as text. `MatchUrl` is sound (whatever it returns spells
    the input) and complete (`MatchUrlComplete`: it recovers every valid
    match from its spelling), so a string is accepted exactly when it is the
    spelling of a valid match, and that match is unique. */
module UrlGrammar {
  import opened Wrappers

  /** `\w` of a JavaScript regular expression: ASCII letters, digits and '_'. */
  predicate IsWordChar(c: char) {
    ('a' <= c <= 'z') || ('A' <= c <= 'Z') || ('0' <= c <= '9') || c == '_'
  }

  predicate IsHostChar(c: char) {
    IsWordChar(c) || c == '.'
  }

  predicate IsDigit(c: char) {
    '0' <= c <= '9'
  }

  predicate IsNotColon(c: char) {
    c != ':'
  }

  predicate AllHostChars(s: string) {
    forall i :: 0 <= i < |s| ==> IsHostChar(s[i])
  }

  predicate AllDigits(s: string) {
    forall i :: 0 <= i < |s| ==> IsDigit(s[i])
  }

  predicate IsSchemeName(s: string) {
    s == "neo4j" || s == "bolt"
  }

  /** The encryption suffixes the grammar accepts after a scheme name. */
  predicate IsSchemeSuffix(s: string) {
    s == "" || s == "+" || s == "+s" || s == "+sc" || s == "+ssc"
  }

  /** A scheme name followed by an accepted suffix: the text before "://". */
  predicate IsSchemeHead(x: string) {
    || ("neo4j" <= x && IsSchemeSuffix(x[5..]))
    || ("bolt" <= x && IsSchemeSuffix(x[4..]))
  }

  datatype Prefix = Prefix(name: string, suffix: string)

  /** The parts of a successful match: the optional prefix, the host and the
      optional port digits. */
  datatype UrlMatch = UrlMatch(prefix: Option<Prefix>, host: string, port: Option<string>)

  predicate ValidPrefix(p: Prefix) {
    IsSchemeName(p.name) && IsSchemeSuffix(p.suffix)
  }

  predicate ValidPort(port: Option<string>) {
    port.Some? ==> |port.value| > 0 && AllDigits(port.value)
  }

  predicate Valid(m: UrlMatch) {
    && (m.prefix.Some? ==> ValidPrefix(m.prefix.value))
    && |m.host| > 0 && AllHostChars(m.host)
    && ValidPort(m.port)
  }

  function PrefixText(p: Option<Prefix>): string {
    match p
    case None => ""
    case Some(q) => q.name + q.suffix + "://"
  }

  function PortText(port: Option<string>): string {
    match port
    case None => ""
    case Some(d) => ":" + d
  }

  /** The text a match was read from. */
  function Spell(m: UrlMatch): string {
    PrefixText(m.prefix) + m.host + PortText(m.port)
  }

  /** Length of the longest prefix of `s` whose characters all satisfy `p`. */
  function Span(s: string, p: char -> bool): (n: nat)
    ensures n <= |s|
    ensures forall i :: 0 <= i < n ==> p(s[i])
    ensures n < |s| ==> !p(s[n])
  {
    if |s| == 0 || !p(s[0]) then 0
    else
      var n := 1 + Span(s[1..], p);
      assert forall i :: 1 <= i < n ==> s[i] == s[1..][i - 1];
      n
  }

  /** A run of `p`-characters stops exactly where the first other character is. */
  lemma {:induction false} SpanOfSplit(h: string, rest: string, p: char -> bool)
    requires forall i :: 0 <= i < |h| ==> p(h[i])
    requires |rest| == 0 || !p(rest[0])
    ensures Span(h + rest, p) == |h|
  {
    if |h| == 0 {
      assert h + rest == rest;
    } else {
      assert (h + rest)[0] == h[0];
      assert (h + rest)[1..] == h[1..] + rest;
      assert forall i :: 0 <= i < |h[1..]| ==> h[1..][i] == h[i + 1];
      SpanOfSplit(h[1..], rest, p);
    }
  }

  /** The host and port part: a maximal run of host characters, then either
      the end of the input or ':' and one or more digits up to the end.
      Because ':' is not a host character, a shorter host could never be
      followed by ':' or the end, so the maximal run is the only candidate. */
  function MatchHostPort(s: string): (r: Option<(string, Option<string>)>)
    ensures r.Some? ==>
      && |r.value.0| > 0 && AllHostChars(r.value.0)
      && ValidPort(r.value.1)
      && s == r.value.0 + PortText(r.value.1)
  {
    var n := Span(s, IsHostChar);
    if n == 0 then None
    else if n == |s| then
      assert s[..n] == s;
      Some((s, None))
    else if s[n] == ':' && n + 1 < |s| && AllDigits(s[n + 1..]) then
      assert s == s[..n] + ":" + s[n + 1..];
      Some((s[..n], Some(s[n + 1..])))
    else None
  }

  /** The prefix part: a scheme name, then an accepted suffix and "://".
      Yields the prefix and what follows it. */
  function MatchPrefix(s: string): (r: Option<(Prefix, string)>)
    ensures r.Some? ==> ValidPrefix(r.value.0) && s == PrefixText(Some(r.value.0)) + r.value.1
  {
    var name := LeadingSchemeName(s);
    if name == "" then None
    else
      match MatchSeparatedSuffix(s[|name|..])
      case None => None
      case Some((suffix, rest)) =>
        assert s == name + s[|name|..];
        Some((Prefix(name, suffix), rest))
  }

  /** The text after the scheme name: the text up to the first ':', which
      must be an accepted suffix, then "://". Suffixes contain no ':', so
      the first ':' is the only place the suffix can end. Yields the suffix
      and what follows "://". */
  function MatchSeparatedSuffix(t: string): (r: Option<(string, string)>)
    ensures r.Some? ==> IsSchemeSuffix(r.value.0) && t == r.value.0 + "://" + r.value.1
  {
    var k := Span(t, IsNotColon);
    if IsSchemeSuffix(t[..k]) && "://" <= t[k..] then
      assert t == t[..k] + "://" + t[k + 3..];
      Some((t[..k], t[k + 3..]))
    else None
  }

  /** The scheme name `s` starts with, or "" when it starts with neither. */
  function LeadingSchemeName(s: string): (name: string)
    ensures name == "" || (IsSchemeName(name) && name <= s)
  {
    if "neo4j" <= s then "neo4j" else if "bolt" <= s then "bolt" else ""
  }

  /** The whole grammar. The prefixed reading is tried first; when it fails
      the matcher backtracks to reading the whole input as host and port,
      as a regular-expression engine does with an optional group. */
  function MatchUrl(url: string): (r: Option<UrlMatch>)
    ensures r.Some? ==> Valid(r.value) && Spell(r.value) == url
  {
    var prefixed := MatchPrefixed(url);
    if prefixed.Some? then prefixed
    else
      var bare := MatchHostPort(url);
      if bare.None? then None
      else
        var m := UrlMatch(None, bare.value.0, bare.value.1);
        assert PrefixText(m.prefix) + m.host == m.host;
        Some(m)
  }

  /** The reading of `url` that starts with a prefix, if there is one. */
  function MatchPrefixed(url: string): (r: Option<UrlMatch>)
    ensures r.Some? ==> r.value.prefix.Some? && Valid(r.value) && Spell(r.value) == url
  {
    match MatchPrefix(url)
    case None => None
    case Some((p, rest)) =>
      match MatchHostPort(rest)
      case None => None
      case Some((host, port)) =>
        assert url == PrefixText(Some(p)) + host + PortText(port);
        Some(UrlMatch(Some(p), host, port))
  }

  /** Every valid host-and-port spelling is read back as itself. */
  lemma MatchHostPortComplete(host: string, port: Option<string>)
    requires |host| > 0 && AllHostChars(host) && ValidPort(port)
    ensures MatchHostPort(host + PortText(port)) == Some((host, port))
  {
    var s := host + PortText(port);
    SpanOfSplit(host, PortText(port), IsHostChar);
    assert s[..|host|] == host;
    if port.Some? {
      assert s[|host| + 1..] == port.value;
    } else {
      assert s == host;
    }
  }

  /** None of the accepted suffixes contains ':'. */
  lemma SuffixHasNoColon(sfx: string)
    requires IsSchemeSuffix(sfx)
    ensures forall i :: 0 <= i < |sfx| ==> IsNotColon(sfx[i])
  {
  }

  /** A text that starts with a scheme name has that name as its leading one. */
  lemma LeadingSchemeNameOf(name: string, after: string)
    requires IsSchemeName(name)
    ensures LeadingSchemeName(name + after) == name
  {
    var s := name + after;
    assert s[..|name|] == name;
    if name == "bolt" {
      assert s[0] == 'b';
    }
  }

  /** Every accepted suffix followed by "://" is read back as itself. */
  lemma MatchSeparatedSuffixComplete(sfx: string, rest: string)
    requires IsSchemeSuffix(sfx)
    ensures MatchSeparatedSuffix(sfx + "://" + rest) == Some((sfx, rest))
  {
    var t := sfx + "://" + rest;
    SuffixHasNoColon(sfx);
    assert t == sfx + ("://" + rest);
    SpanOfSplit(sfx, "://" + rest, IsNotColon);
    assert t[..|sfx|] == sfx;
    assert t[|sfx|..] == "://" + rest;
    assert t[|sfx| + 3..] == rest;
  }

  /** Every valid prefix is read back as itself, whatever follows it. */
  lemma MatchPrefixComplete(p: Prefix, rest: string)
    requires ValidPrefix(p)
    ensures MatchPrefix(PrefixText(Some(p)) + rest) == Some((p, rest))
  {
    var s := PrefixText(Some(p)) + rest;
    var after := p.suffix + "://" + rest;
    assert s == p.name + after;
    LeadingSchemeNameOf(p.name, after);
    assert s[|p.name|..] == after;
    MatchSeparatedSuffixComplete(p.suffix, rest);
  }

  /** A text with a prefixed reading holds a '/' right after the head's ':'. */
  lemma PrefixedHasSlash(s: string)
    requires MatchPrefix(s).Some?
    ensures var p := MatchPrefix(s).value.0;
      |p.name + p.suffix| + 1 < |s| && s[|p.name + p.suffix| + 1] == '/'
  {
    var p := MatchPrefix(s).value.0;
    var head := p.name + p.suffix;
    assert s == head + "://" + MatchPrefix(s).value.1;
    assert s[|head| + 1] == (head + "://")[|head| + 1];
  }

  /** A text that holds no '/' has no prefixed reading. */
  lemma NoPrefixWithoutSlash(s: string)
    requires forall i :: 0 <= i < |s| ==> s[i] != '/'
    ensures MatchPrefix(s).None?
  {
    if MatchPrefix(s).Some? {
      PrefixedHasSlash(s);
      assert false;
    }
  }

  /** No host character, digit or ':' is a '/'. */
  lemma HostPortHasNoSlash(host: string, port: Option<string>)
    requires AllHostChars(host) && ValidPort(port)
    ensures forall i :: 0 <= i < |host + PortText(port)| ==> (host + PortText(port))[i] != '/'
  {
    var s := host + PortText(port);
    forall i | 0 <= i < |s|
      ensures s[i] != '/'
    {
      if i < |host| {
        assert s[i] == host[i];
      } else if i > |host| {
        assert s[i] == port.value[i - |host| - 1];
      }
    }
  }

  /** The matcher recovers every valid match from its spelling. */
  lemma MatchUrlComplete(m: UrlMatch)
    requires Valid(m)
    ensures MatchUrl(Spell(m)) == Some(m)
  {
    var hp := m.host + PortText(m.port);
    MatchHostPortComplete(m.host, m.port);
    match m.prefix
    case Some(p) =>
      assert Spell(m) == PrefixText(Some(p)) + hp;
      MatchPrefixComplete(p, hp);
    case None =>
      assert Spell(m) == hp;
      HostPortHasNoSlash(m.host, m.port);
      NoPrefixWithoutSlash(hp);
  }

  /** A string is accepted exactly when it spells some valid match. */
  lemma AcceptedIffSpelled(url: string)
    ensures MatchUrl(url).Some? <==> exists m :: Valid(m) && Spell(m) == url
  {
    if exists m :: Valid(m) && Spell(m) == url {
      var m :| Valid(m) && Spell(m) == url;
      MatchUrlComplete(m);
    }
  }

  /** Two valid matches with the same spelling are the same match. */
  lemma SpellingIsUnambiguous(m1: UrlMatch, m2: UrlMatch)
    requires Valid(m1) && Valid(m2) && Spell(m1) == Spell(m2)
    ensures m1 == m2
  {
    MatchUrlComplete(m1);
    MatchUrlComplete(m2);
  }

  /** Characters that can occur in an accepted URL. */
  predicate IsUrlChar(c: char) {
    IsHostChar(c) || c == ':' || c == '/' || c == '+'
  }

  /** The length of the scheme head, or 0 when there is no prefix. */
  function HeadLength(p: Option<Prefix>): nat {
    match p
    case None => 0
    case Some(q) => |q.name + q.suffix|
  }

  /** Every character of a valid spelling is a host character or one of
      ':', '/', '+'. The only '/' are the two of "://" after the scheme
      head, and the only ':' are the one of "://" and the one before the
      port digits. */
  lemma SpellAlphabet(m: UrlMatch)
    requires Valid(m)
    ensures forall i :: 0 <= i < |Spell(m)| ==> IsUrlChar(Spell(m)[i])
    ensures forall i :: 0 <= i < |Spell(m)| && Spell(m)[i] == '/' ==>
      m.prefix.Some? && (i == HeadLength(m.prefix) + 1 || i == HeadLength(m.prefix) + 2)
    ensures forall i :: 0 <= i < |Spell(m)| && Spell(m)[i] == ':' ==>
      || (m.prefix.Some? && i == HeadLength(m.prefix))
      || (m.port.Some? && i == |PrefixText(m.prefix)| + |m.host|)
    ensures m.prefix.Some? ==>
      HeadLength(m.prefix) + 2 < |Spell(m)| && Spell(m)[HeadLength(m.prefix) + 1] == '/'
  {
    var pre := PrefixText(m.prefix);
    var hp := m.host + PortText(m.port);
    var s := Spell(m);
    HostPortHasNoSlash(m.host, m.port);
    assert s == pre + hp;
    if m.prefix.Some? {
      SuffixHasNoColon(m.prefix.value.suffix);
      var head := m.prefix.value.name + m.prefix.value.suffix;
      assert pre == head + "://";
      assert s[|head| + 1] == pre[|head| + 1];
    }
    forall i | 0 <= i < |s|
      ensures IsUrlChar(s[i])
      ensures s[i] == '/' ==> m.prefix.Some? && (i == HeadLength(m.prefix) + 1 || i == HeadLength(m.prefix) + 2)
      ensures s[i] == ':' ==>
        || (m.prefix.Some? && i == HeadLength(m.prefix))
        || (m.port.Some? && i == |pre| + |m.host|)
    {
      if i < |pre| {
        var p := m.prefix.value;
        var head := p.name + p.suffix;
        assert s[i] == pre[i];
        if i < |head| {
          assert pre[i] == head[i];
          if i < |p.name| {
            assert head[i] == p.name[i];
          } else {
            assert head[i] == p.suffix[i - |p.name|];
          }
        }
      } else {
        assert s[i] == hp[i - |pre|];
        if i - |pre| < |m.host| {
          assert hp[i - |pre|] == m.host[i - |pre|];
        } else if i - |pre| > |m.host| {
          assert hp[i - |pre|] == m.port.value[i - |pre| - |m.host| - 1];
        }
      }
    }
  }

  /** A character outside [A-Za-z0-9_.] that is not part of the scheme
      separator or suffix syntax rejects the URL: no match, hence no
      connection attempt. */
  lemma RejectsForeignCharacter(url: string, i: int)
    requires 0 <= i < |url| && !IsUrlChar(url[i])
    ensures MatchUrl(url).None?
  {
    if MatchUrl(url).Some? {
      SpellAlphabet(MatchUrl(url).value);
      assert false;
    }
  }

  /** If a valid spelling has "://" right after `x`, then `x` is an
      accepted scheme name and suffix. */
  lemma SeparatorFollowsSchemeHead(m: UrlMatch, x: string, y: string)
    requires Valid(m) && Spell(m) == x + "://" + y
    ensures IsSchemeHead(x)
  {
    var url := x + "://" + y;
    SpellAlphabet(m);
    assert url[|x|] == ':' && url[|x| + 1] == '/';
    var p := m.prefix.value;
    var head := p.name + p.suffix;
    assert url == head + "://" + m.host + PortText(m.port);
    assert url[|head| + 1] == '/';
    assert |x| == |head|;
    assert x == url[..|x|] == head;
    if p.name == "neo4j" {
      assert x[5..] == p.suffix;
    } else {
      assert x[4..] == p.suffix;
    }
  }

  /** Text before "://" that is not an accepted scheme name and suffix
      rejects the URL: host characters cannot absorb ':' or '/'. */
  lemma RejectsForeignScheme(x: string, y: string)
    requires !IsSchemeHead(x)
    ensures MatchUrl(x + "://" + y).None?
  {
    if MatchUrl(x + "://" + y).Some? {
      SeparatorFollowsSchemeHead(MatchUrl(x + "://" + y).value, x, y);
      assert false;
    }
  }

  /** A valid spelling ends in a host character or a digit, never ':'. */
  lemma SpellDoesNotEndInColon(m: UrlMatch)
    requires Valid(m)
    ensures |Spell(m)| > 0 && Spell(m)[|Spell(m)| - 1] != ':'
  {
    var s := Spell(m);
    assert s == (PrefixText(m.prefix) + m.host) + PortText(m.port);
    match m.port
    case None =>
      assert s[|s| - 1] == m.host[|m.host| - 1];
    case Some(d) =>
      assert s[|s| - 1] == d[|d| - 1];
  }

  /** A ':' at the end, with no digits after it, rejects the URL. */
  lemma RejectsColonWithoutDigits(url: string)
    requires |url| > 0 && url[|url| - 1] == ':'
    ensures MatchUrl(url).None?
  {
    if MatchUrl(url).Some? {
      SpellDoesNotEndInColon(MatchUrl(url).value);
      assert false;
    }
  }

  /** ':' at index `k` of `url`, followed by one or more digits up to the end. */
  predicate PortSuffixAt(url: string, k: int) {
    0 <= k < |url| - 1 && url[k] == ':' && AllDigits(url[k + 1..])
  }

  /** In a valid spelling, a ':' followed only by digits is the port
      separator, and the digits after it are the port. */
  lemma PortSuffixIsPort(m: UrlMatch, k: int)
    requires Valid(m) && PortSuffixAt(Spell(m), k)
    ensures m.port == Some(Spell(m)[k + 1..])
  {
    var url := Spell(m);
    SpellAlphabet(m);
    assert url[k + 1..][0] == url[k + 1];
    assert IsDigit(url[k + 1]);
    assert m.port.Some? && k == |PrefixText(m.prefix)| + |m.host|;
    assert url == (PrefixText(m.prefix) + m.host) + ":" + m.port.value;
    assert url[k + 1..] == m.port.value;
  }

  /** A valid spelling with a port ends in ':' and the port digits. */
  lemma PortIsPortSuffix(m: UrlMatch)
    requires Valid(m) && m.port.Some?
    ensures PortSuffixAt(Spell(m), |Spell(m)| - |m.port.value| - 1)
    ensures Spell(m)[|Spell(m)| - |m.port.value|..] == m.port.value
  {
    var url := Spell(m);
    var k := |PrefixText(m.prefix)| + |m.host|;
    assert url == (PrefixText(m.prefix) + m.host) + ":" + m.port.value;
    assert url[k] == ':';
    assert url[k + 1..] == m.port.value;
  }
}
