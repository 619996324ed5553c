/** The proxy directive a PAC clause returns for a rule: the `proxyString`
    selection written out for tab rules (background.js:450-495) and, in the
    same words, for domain rules (background.js:519-564), and the third copy
    for the global default (background.js:576-598). */
module Directives {
  import opened Wrappers
  import opened Text
  import opened Model

  /** The proxy types the selection recognises, compared after `toLowerCase()`. */
  const KnownTypes: set<string> := {"direct", "http", "https", "socks4", "socks5", "mtproto"}

  /** "server:port". */
  function Endpoint(server: string, port: Port): string {
    server + ":" + port.Render()
  }

  /** "user:pass@" when both are non-empty, otherwise nothing. */
  function AuthPart(username: string, password: string): string {
    if username != "" && password != "" then username + ":" + password + "@" else ""
  }

  /** The rule's directive; `None` where the source leaves `proxyString`
      undefined (a type it does not recognise). */
  function EncodeRule(r: Rule): Option<string> {
    var t := ToLower(r.proxyType);
    if t == "direct" then Some("DIRECT")
    else if t == "mtproto" then Some("SOCKS5 " + Endpoint(r.server, r.port))
    else if t == "http" || t == "https" then
      Some(ToUpper(r.proxyType) + " " + AuthPart(r.username, r.password) + Endpoint(r.server, r.port))
    else if t == "socks4" || t == "socks5" then Some("SOCKS " + Endpoint(r.server, r.port))
    else None
  }

  /** The PAC keyword each recognised type is sent as (mtproto travels as SOCKS5,
      socks4 and socks5 both as SOCKS). */
  function SchemeFor(lowerType: string): string {
    match lowerType
    case "direct" => "DIRECT"
    case "http" => "HTTP"
    case "https" => "HTTPS"
    case "mtproto" => "SOCKS5"
    case _ => "SOCKS"
  }

  /** The word a PAC consumer reads first: the directive up to its first space. */
  function Scheme(directive: string): string {
    UpTo(directive, ' ')
  }

  lemma {:induction false} UpToStopsAtSeparator(a: string, b: string, sep: char)
    requires sep !in a
    ensures UpTo(a + [sep] + b, sep) == a
  {
    if a != [] {
      assert (a + [sep] + b)[1..] == a[1..] + [sep] + b;
      UpToStopsAtSeparator(a[1..], b, sep);
    } else {
      assert (a + [sep] + b)[0] == sep;
    }
  }

  lemma UpperHttp(t: string)
    requires ToLower(t) == "http" || ToLower(t) == "https"
    ensures ToUpper(t) == ToUpper(ToLower(t))
    ensures ToLower(t) == "http" ==> ToUpper(t) == "HTTP"
    ensures ToLower(t) == "https" ==> ToUpper(t) == "HTTPS"
  {
    UpperOfLower(t);
    assert ToUpper("http") == "HTTP";
    assert ToUpper("https") == "HTTPS";
  }

  /** Exactly the recognised types (ignoring case) get a directive. */
  lemma DirectiveDefinedIffKnown(r: Rule)
    ensures EncodeRule(r).Some? <==> ToLower(r.proxyType) in KnownTypes
  {
  }

  /** The directive table: DIRECT; SOCKS5 for mtproto; HTTP or HTTPS with
      the credentials only when both are present; SOCKS for socks4 and
      socks5, never with credentials. */
  lemma EncodeTable(r: Rule)
    ensures var t := ToLower(r.proxyType);
      && (t == "direct" ==> EncodeRule(r) == Some("DIRECT"))
      && (t == "mtproto" ==> EncodeRule(r) == Some("SOCKS5 " + Endpoint(r.server, r.port)))
      && (t == "http" ==> EncodeRule(r) == Some("HTTP " + AuthPart(r.username, r.password) + Endpoint(r.server, r.port)))
      && (t == "https" ==> EncodeRule(r) == Some("HTTPS " + AuthPart(r.username, r.password) + Endpoint(r.server, r.port)))
      && (t == "socks4" || t == "socks5" ==> EncodeRule(r) == Some("SOCKS " + Endpoint(r.server, r.port)))
  {
    var t := ToLower(r.proxyType);
    if t == "http" || t == "https" {
      UpperHttp(r.proxyType);
      assert "HTTP" + " " == "HTTP ";
      assert "HTTPS" + " " == "HTTPS ";
    }
  }

  /** A keyword without spaces followed by a space is read back as that keyword. */
  lemma KeywordThenRest(k: string, rest: string)
    requires ' ' !in k
    ensures Scheme(k + " " + rest) == k
  {
    assert k + " " + rest == k + [' '] + rest;
    UpToStopsAtSeparator(k, rest, ' ');
  }

  /** The first word of every directive is the keyword of the rule's type. */
  lemma SchemeOfDirective(r: Rule)
    requires EncodeRule(r).Some?
    ensures Scheme(EncodeRule(r).value) == SchemeFor(ToLower(r.proxyType))
  {
    var t := ToLower(r.proxyType);
    DirectiveDefinedIffKnown(r);
    assert t in KnownTypes;
    if t == "direct" {
      SchemeOfDirect(r);
    } else if t == "http" || t == "https" {
      SchemeOfHttp(r);
    } else {
      SchemeOfSocks(r);
    }
  }

  lemma SchemeOfDirect(r: Rule)
    requires ToLower(r.proxyType) == "direct"
    ensures Scheme(EncodeRule(r).value) == SchemeFor(ToLower(r.proxyType))
  {
    assert Scheme("DIRECT") == "DIRECT";
  }

  lemma SchemeOfHttp(r: Rule)
    requires ToLower(r.proxyType) == "http" || ToLower(r.proxyType) == "https"
    ensures Scheme(EncodeRule(r).value) == SchemeFor(ToLower(r.proxyType))
  {
    UpperHttp(r.proxyType);
    var rest := AuthPart(r.username, r.password) + Endpoint(r.server, r.port);
    assert EncodeRule(r).value == ToUpper(r.proxyType) + " " + rest;
    KeywordThenRest(ToUpper(r.proxyType), rest);
  }

  lemma SchemeOfSocks(r: Rule)
    requires ToLower(r.proxyType) in ["mtproto", "socks4", "socks5"]
    ensures Scheme(EncodeRule(r).value) == SchemeFor(ToLower(r.proxyType))
  {
    var e := Endpoint(r.server, r.port);
    if ToLower(r.proxyType) == "mtproto" {
      assert EncodeRule(r).value == "SOCKS5" + " " + e;
      KeywordThenRest("SOCKS5", e);
    } else {
      assert SchemeFor(ToLower(r.proxyType)) == "SOCKS";
      assert EncodeRule(r).value == "SOCKS" + " " + e;
      KeywordThenRest("SOCKS", e);
    }
  }

  /** The type is compared without regard to case: two spellings of the same
      type give the same directive. */
  lemma CaseInsensitive(r: Rule, t1: string, t2: string)
    requires ToLower(t1) == ToLower(t2)
    ensures EncodeRule(r.(proxyType := t1)) == EncodeRule(r.(proxyType := t2))
  {
    if ToLower(t1) == "http" || ToLower(t1) == "https" {
      UpperHttp(t1);
      UpperHttp(t2);
    }
  }

  /** An mtproto rule's secret never reaches the directive. */
  lemma MtprotoIgnoresSecret(r: Rule, secret: string)
    ensures EncodeRule(r.(mtprotoSecret := secret)) == EncodeRule(r)
  {
  }

  /** Credentials are embedded only when both username and password are
      non-empty; a rule missing either encodes as one with neither. */
  lemma CredentialsNeedBoth(r: Rule)
    requires r.username == "" || r.password == ""
    ensures EncodeRule(r) == EncodeRule(r.(username := "", password := ""))
  {
  }

  /** Types other than http and https never carry credentials. */
  lemma OnlyHttpCarriesCredentials(r: Rule, username: string, password: string)
    requires ToLower(r.proxyType) != "http" && ToLower(r.proxyType) != "https"
    ensures EncodeRule(r.(username := username, password := password)) == EncodeRule(r)
  {
  }

  /** The selection of the default clause (background.js:576-598): same
      table, except that an unrecognised type falls back to DIRECT. */
  function DefaultDirective(s: Settings): string {
    var t := ToLower(s.proxyType);
    if t == "mtproto" then "SOCKS5 " + Endpoint(s.server, s.port)
    else if t == "http" || t == "https" then
      ToUpper(s.proxyType) + " " + AuthPart(s.username, s.password) + Endpoint(s.server, s.port)
    else if t == "socks4" || t == "socks5" then "SOCKS " + Endpoint(s.server, s.port)
    else "DIRECT"
  }

  function SettingsAsRule(s: Settings): Rule {
    Rule("", s.proxyType, s.server, s.port, s.username, s.password, s.mtprotoSecret)
  }

  /** The three copies of the selection agree wherever the type is recognised;
      where it is not, the default clause says DIRECT and a rule has none. */
  lemma DefaultAgreesWithRuleEncoding(s: Settings)
    ensures ToLower(s.proxyType) in KnownTypes ==>
      EncodeRule(SettingsAsRule(s)) == Some(DefaultDirective(s))
    ensures ToLower(s.proxyType) !in KnownTypes ==>
      EncodeRule(SettingsAsRule(s)) == None && DefaultDirective(s) == "DIRECT"
  {
  }
}
