/** `hostMatchesPattern`, the helper emitted into every generated PAC script
    (background.js:424-435). A pattern that starts with "*." matches the
    domain after it and all its subdomains; any other pattern is an anchored
    glob in which '*' matches any run of characters and every other
    character, '.' included, stands for itself. */
module HostMatch {
  import opened Text

  /** The anchored regular expression the source builds from a pattern
      (every '.' escaped, every '*' turned into ".*"), as a direct matcher. */
  function GlobMatch(host: string, pattern: string): bool
    decreases |pattern|, |host|
  {
    if pattern == [] then host == []
    else if pattern[0] == '*' then
      GlobMatch(host, pattern[1..]) || (host != [] && GlobMatch(host[1..], pattern))
    else
      host != [] && host[0] == pattern[0] && GlobMatch(host[1..], pattern[1..])
  }

  function HostMatchesPattern(host: string, pattern: string): bool {
    if StartsWith(pattern, "*.") then
      var domainPart := pattern[2..];
      host == domainPart || EndsWith(host, "." + domainPart)
    else
      GlobMatch(host, pattern)
  }

  // A reference meaning of a glob, independent of the matcher: a host
  // matches when it is the pattern with each '*' replaced by some text.

  function StarCount(p: string): nat {
    if p == [] then 0 else (if p[0] == '*' then 1 else 0) + StarCount(p[1..])
  }

  /** The pattern with its k-th '*' replaced by `fills[k]`. */
  function Instantiate(p: string, fills: seq<string>): string
    requires |fills| == StarCount(p)
  {
    if p == [] then []
    else if p[0] == '*' then fills[0] + Instantiate(p[1..], fills[1..])
    else [p[0]] + Instantiate(p[1..], fills)
  }

  /** The text each '*' stands for in a successful match. */
  function GlobFills(host: string, pattern: string): (fills: seq<string>)
    requires GlobMatch(host, pattern)
    ensures |fills| == StarCount(pattern) && Instantiate(pattern, fills) == host
    decreases |pattern|, |host|
  {
    if pattern == [] then []
    else if pattern[0] == '*' then
      if GlobMatch(host, pattern[1..]) then
        [""] + GlobFills(host, pattern[1..])
      else
        var rest := GlobFills(host[1..], pattern);
        var fills := [[host[0]] + rest[0]] + rest[1..];
        assert fills[1..] == rest[1..];
        assert host == [host[0]] + host[1..];
        fills
    else
      var rest := GlobFills(host[1..], pattern[1..]);
      assert host == [host[0]] + host[1..];
      rest
  }

  lemma {:induction false} StarAbsorbs(f: string, r: string, p: string)
    requires p != [] && p[0] == '*' && GlobMatch(r, p[1..])
    ensures GlobMatch(f + r, p)
    decreases |f|
  {
    if f == [] {
      assert f + r == r;
    } else {
      StarAbsorbs(f[1..], r, p);
      assert (f + r)[1..] == f[1..] + r;
    }
  }

  lemma {:induction false} InstantiateMatches(p: string, fills: seq<string>)
    requires |fills| == StarCount(p)
    ensures GlobMatch(Instantiate(p, fills), p)
  {
    if p == [] {
    } else if p[0] == '*' {
      InstantiateMatches(p[1..], fills[1..]);
      StarAbsorbs(fills[0], Instantiate(p[1..], fills[1..]), p);
    } else {
      InstantiateMatches(p[1..], fills);
      var h := [p[0]] + Instantiate(p[1..], fills);
      assert h[1..] == Instantiate(p[1..], fills);
    }
  }

  /** The glob matcher agrees with the reference meaning, in both directions. */
  lemma GlobMeansInstantiation(host: string, p: string)
    ensures GlobMatch(host, p) <==>
      exists fills :: |fills| == StarCount(p) && Instantiate(p, fills) == host
  {
    if GlobMatch(host, p) {
      var fills := GlobFills(host, p);
      assert Instantiate(p, fills) == host;
    }
    forall fills | |fills| == StarCount(p) && Instantiate(p, fills) == host
      ensures GlobMatch(host, p)
    {
      InstantiateMatches(p, fills);
    }
  }

  lemma {:induction false} NoStars(p: string)
    requires '*' !in p
    ensures StarCount(p) == 0 && Instantiate(p, []) == p
  {
    if p != [] {
      assert '*' !in p[1..] by {
        forall i | 0 <= i < |p[1..]| ensures p[1..][i] != '*' {
          assert p[1..][i] == p[i + 1];
        }
      }
      NoStars(p[1..]);
    }
  }

  /** "*.D" matches D itself and every host ending in ".D". */
  lemma WildcardMatches(host: string, d: string)
    ensures HostMatchesPattern(host, "*." + d) <==> host == d || EndsWith(host, "." + d)
  {
    var p := "*." + d;
    assert StartsWith(p, "*.");
    assert p[2..] == d;
  }

  /** `*.D` matches every subdomain of D. */
  lemma SubdomainMatches(name: string, d: string)
    ensures HostMatchesPattern(name + "." + d, "*." + d)
  {
    var host := name + "." + d;
    assert host[|host| - |"." + d|..] == "." + d;
    WildcardMatches(host, d);
  }

  /** `*.D` never matches a host shorter than D. */
  lemma ShortHostMisses(host: string, d: string)
    requires |host| < |d|
    ensures !HostMatchesPattern(host, "*." + d)
  {
    WildcardMatches(host, d);
  }

  /** Any pattern that does not start with "*." is an anchored glob. */
  lemma GlobPatternMatches(host: string, p: string)
    requires !StartsWith(p, "*.")
    ensures HostMatchesPattern(host, p) <==>
      exists fills :: |fills| == StarCount(p) && Instantiate(p, fills) == host
  {
    GlobMeansInstantiation(host, p);
  }

  /** A pattern without '*' matches only the identical host: '.' is literal. */
  lemma ExactWithoutStar(host: string, p: string)
    requires '*' !in p
    ensures HostMatchesPattern(host, p) <==> host == p
  {
    NoStars(p);
    assert p == [] || p[0] != '*';
    GlobMeansInstantiation(host, p);
    if host == p {
      assert Instantiate(p, []) == host;
    }
  }

  /** The pattern "*" matches every host. */
  lemma StarMatchesAll(host: string)
    ensures HostMatchesPattern(host, "*")
  {
    assert !StartsWith("*", "*.");
    assert Instantiate("*", [host]) == host by {
      assert "*"[1..] == [];
      assert [host][1..] == [];
    }
    InstantiateMatches("*", [host]);
  }

  /** The examples of the suffix form: a subdomain and the bare domain match,
      a host that merely ends in the same letters does not. */
  lemma TelegramWildcardExamples()
    ensures HostMatchesPattern("web.telegram.org", "*.telegram.org")
    ensures HostMatchesPattern("telegram.org", "*.telegram.org")
    ensures !HostMatchesPattern("xtelegram.org", "*.telegram.org")
  {
    TelegramSubdomainExample();
    TelegramBareExample();
    TelegramLookalikeExample();
  }

  lemma TelegramSubdomainExample()
    ensures HostMatchesPattern("web.telegram.org", "*.telegram.org")
  {
    var d := "telegram.org";
    assert "*." + d == "*.telegram.org";
    assert "web" + "." + d == "web.telegram.org";
    SubdomainMatches("web", d);
  }

  lemma TelegramBareExample()
    ensures HostMatchesPattern("telegram.org", "*.telegram.org")
  {
    var d := "telegram.org";
    assert "*." + d == "*.telegram.org";
    WildcardMatches(d, d);
  }

  lemma TelegramLookalikeExample()
    ensures !HostMatchesPattern("xtelegram.org", "*.telegram.org")
  {
    var d := "telegram.org";
    assert "*." + d == "*.telegram.org";
    assert ['x'] + d == "xtelegram.org";
    LetterBeforeDomainMisses('x', d);
  }

  /** `*.D` does not match D with one more letter, other than a dot, in front. */
  lemma LetterBeforeDomainMisses(c: char, d: string)
    requires c != '.'
    ensures !HostMatchesPattern([c] + d, "*." + d)
  {
    var host := [c] + d;
    WildcardMatches(host, d);
    assert host[|host| - |"." + d|..] == host;
    assert host[0] != ("." + d)[0];
  }
}
