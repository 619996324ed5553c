/** `setupTelegramDomainRules` (background.js:956-997): every rule that
    mentions Telegram is dropped and five mtproto rules for the Telegram
    domains, using the global server, port and secret, are appended. */
module Telegram {
  import opened Wrappers
  import opened Text
  import opened Model
  import opened Ascii
  import opened Directives
  import opened HostMatch
  import opened Pac

  const TelegramDomains: seq<string> := ["*.telegram.org", "telegram.org", "web.telegram.org", "*.t.me", "t.me"]

  /** The filter's test: the pattern contains "telegram" or "t.me". */
  predicate MentionsTelegram(r: Rule) {
    Contains(r.pattern, "telegram") || Contains(r.pattern, "t.me")
  }

  function WithoutTelegramRules(rules: seq<Rule>): (kept: seq<Rule>)
    ensures |kept| <= |rules|
  {
    if rules == [] then []
    else if MentionsTelegram(rules[0]) then WithoutTelegramRules(rules[1..])
    else [rules[0]] + WithoutTelegramRules(rules[1..])
  }

  /** The rule pushed for one Telegram domain. */
  function TelegramRule(domain: string, s: Settings): Rule {
    Rule(domain, "mtproto", s.server, s.port, "", "", s.mtprotoSecret)
  }

  function TelegramRules(domains: seq<string>, s: Settings): (rs: seq<Rule>)
    ensures |rs| == |domains|
    ensures forall k :: 0 <= k < |domains| ==> rs[k] == TelegramRule(domains[k], s)
  {
    seq(|domains|, k requires 0 <= k < |domains| => TelegramRule(domains[k], s))
  }

  /** The domain-rule list the function stores. */
  function TelegramRewrite(rules: seq<Rule>, s: Settings): seq<Rule> {
    WithoutTelegramRules(rules) + TelegramRules(TelegramDomains, s)
  }

  method SetupTelegramDomainRules(rules: seq<Rule>, s: Settings) returns (domainRules: seq<Rule>)
    ensures domainRules == TelegramRewrite(rules, s)
  {
    domainRules := WithoutTelegramRules(rules);
    for k := 0 to |TelegramDomains|
      invariant domainRules == WithoutTelegramRules(rules) + TelegramRules(TelegramDomains[..k], s)
    {
      domainRules := domainRules + [TelegramRule(TelegramDomains[k], s)];
    }
    assert TelegramDomains[..|TelegramDomains|] == TelegramDomains;
  }

  /** The filter keeps exactly the rules that do not mention Telegram. */
  lemma {:induction false} KeptIffNotTelegram(rules: seq<Rule>, r: Rule)
    ensures r in WithoutTelegramRules(rules) <==> r in rules && !MentionsTelegram(r)
  {
    if rules != [] {
      KeptIffNotTelegram(rules[1..], r);
      assert rules == [rules[0]] + rules[1..];
    }
  }

  lemma {:induction false} FilterAppend(a: seq<Rule>, b: seq<Rule>)
    ensures WithoutTelegramRules(a + b) == WithoutTelegramRules(a) + WithoutTelegramRules(b)
  {
    if a == [] {
      assert a + b == b;
    } else {
      assert (a + b)[0] == a[0];
      assert (a + b)[1..] == a[1..] + b;
      FilterAppend(a[1..], b);
    }
  }

  lemma {:induction false} FilterKeepsClean(rules: seq<Rule>)
    requires forall r <- rules :: !MentionsTelegram(r)
    ensures WithoutTelegramRules(rules) == rules
  {
    if rules != [] {
      assert rules[0] in rules;
      FilterKeepsClean(rules[1..]);
    }
  }

  lemma {:induction false} FilterDropsAll(rules: seq<Rule>)
    requires forall r <- rules :: MentionsTelegram(r)
    ensures WithoutTelegramRules(rules) == []
  {
    if rules != [] {
      assert rules[0] in rules;
      FilterDropsAll(rules[1..]);
    }
  }

  lemma AppendedRulesMentionTelegram(s: Settings)
    ensures forall r <- TelegramRules(TelegramDomains, s) :: MentionsTelegram(r)
  {
    ContainsAt("*.telegram.org", "telegram", 2);
    ContainsAt("telegram.org", "telegram", 0);
    ContainsAt("web.telegram.org", "telegram", 4);
    ContainsAt("*.t.me", "t.me", 2);
    ContainsAt("t.me", "t.me", 0);
  }

  /** The stored list: the surviving rules in their old order, then the five
      Telegram rules with the global server, port and secret and no
      credentials. */
  lemma RewriteShape(rules: seq<Rule>, s: Settings)
    ensures var out := TelegramRewrite(rules, s);
      var kept := WithoutTelegramRules(rules);
      && |out| == |kept| + 5
      && out[..|kept|] == kept
      && (forall k :: 0 <= k < 5 ==>
            out[|kept| + k].pattern == TelegramDomains[k]
            && out[|kept| + k].proxyType == "mtproto"
            && out[|kept| + k].server == s.server && out[|kept| + k].port == s.port
            && out[|kept| + k].username == "" && out[|kept| + k].password == ""
            && out[|kept| + k].mtprotoSecret == s.mtprotoSecret)
  {
  }

  /** Running the setup twice stores the same list as running it once. */
  lemma RewriteIdempotent(rules: seq<Rule>, s: Settings)
    ensures TelegramRewrite(TelegramRewrite(rules, s), s) == TelegramRewrite(rules, s)
  {
    var kept := WithoutTelegramRules(rules);
    var added := TelegramRules(TelegramDomains, s);
    FilterAppend(kept, added);
    forall r <- kept ensures !MentionsTelegram(r) {
      KeptIffNotTelegram(rules, r);
    }
    FilterKeepsClean(kept);
    AppendedRulesMentionTelegram(s);
    FilterDropsAll(added);
  }

  /** The first appended rule, "*.telegram.org", takes the Telegram form and
      so claims every Telegram host. */
  lemma FirstTelegramRuleClaims(s: Settings, host: string)
    requires host == "telegram.org" || EndsWith(host, ".telegram.org") || host == "t.me" || EndsWith(host, ".t.me")
    ensures Evaluate(DomainClause(TelegramRule("*.telegram.org", s)), host)
      == Some(StripNonAscii("SOCKS5 " + Endpoint(s.server, s.port)))
  {
    var first := TelegramRule("*.telegram.org", s);
    ContainsAt("*.telegram.org", "telegram.org", 2);
    assert ToLower("mtproto") == "mtproto";
    assert TelegramMtproto(first);
    TelegramDomainClause(first, host);
    EncodeTable(first);
  }

  /** After the setup, a request to telegram.org, t.me or any of their
      subdomains that no surviving rule claims goes through the mtproto
      server as SOCKS5. */
  lemma TelegramHostsUseMtproto(rules: seq<Rule>, s: Settings, host: string)
    requires host == "telegram.org" || EndsWith(host, ".telegram.org") || host == "t.me" || EndsWith(host, ".t.me")
    requires forall r <- WithoutTelegramRules(rules) :: Evaluate(DomainClause(r), host).None?
    ensures Evaluate(DomainClauses(TelegramRewrite(rules, s)), host)
      == Some(StripNonAscii("SOCKS5 " + Endpoint(s.server, s.port)))
  {
    var kept := WithoutTelegramRules(rules);
    var added := TelegramRules(TelegramDomains, s);
    var out := kept + added;
    assert added[0] == TelegramRule("*.telegram.org", s);
    assert out[|kept|] == added[0];
    FirstTelegramRuleClaims(s, host);
    forall j | 0 <= j < |kept| ensures Evaluate(DomainClause(out[j]), host).None? {
      assert out[j] == kept[j];
      assert kept[j] in kept;
    }
    FirstApplicableRuleWins(out, DomainClause, |kept|, host);
  }
}
