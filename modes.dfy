/** Which proxy mode the extension installs: plain direct connections, or
    the generated PAC script (background.js:118-172, 353-395). The
    `fixed_servers` configuration of `applyProxySettings` is never reached,
    because `useDirectByDefault` makes that function return first. */
module Modes {
  import opened Wrappers
  import opened Text
  import opened Model
  import opened Ascii
  import opened HostMatch
  import opened Directives
  import opened Pac
  import opened TabPatterns

  datatype ProxyConfig = DirectMode | PacScriptMode(program: PacProgram)

  /** `hasMtprotoRulesForTelegram` (background.js:364-371); note the exact,
      case-sensitive type comparison and the wider "telegram" marker. */
  predicate HasMtprotoRulesForTelegram(rules: seq<Rule>) {
    exists i :: 0 <= i < |rules| && rules[i].proxyType == "mtproto"
      && (Contains(rules[i].pattern, "telegram") || Contains(rules[i].pattern, "t.me"))
  }

  /** The decision at the head of `generateAndApplyPacFile`
      (background.js:353-395) followed by the script it installs. */
  function GenerateAndApplyPacFile(s: Settings, rules: seq<Rule>, tabs: seq<Rule>): ProxyConfig {
    var hasDomainRules := |rules| > 0;
    var hasTabPatterns := |tabs| > 0;
    if !hasDomainRules && !hasTabPatterns && !HasMtprotoRulesForTelegram(rules)
       && (!s.enabled || UseDirectByDefault)
    then DirectMode
    else PacScriptMode(PacFor(s, rules, tabs))
  }

  /** `applyProxySettings` (background.js:158-172). Because
      `useDirectByDefault` is the constant true, it sets direct mode and
      returns before it looks at the rules; the PAC and `fixed_servers`
      branches after that return are never reached. */
  function ApplyProxySettings(s: Settings): ProxyConfig {
    DirectMode
  }

  /** `loadAndApplySettings` (background.js:118-155); its last branch calls
      `applyProxySettings`. */
  function LoadAndApplySettings(s: Settings, rules: seq<Rule>, tabs: seq<Rule>, useCustomPac: bool): ProxyConfig {
    if UseDirectByDefault && !s.enabled then DirectMode
    else if useCustomPac || |rules| > 0 then GenerateAndApplyPacFile(s, rules, tabs)
    else ApplyProxySettings(s)
  }

  /** What the background reads when it applies a configuration: the
      settings, the domain rules and `useCustomPac` of sync storage, the tab
      patterns of local storage, the stored tab choices and the open tabs. For
      a request that writes storage first (`updateOptionsSettings`), it is the
      storage after that write. */
  datatype Stored = Stored(
    settings: Settings, rules: seq<Rule>, useCustomPac: bool,
    tabPatterns: seq<Rule>, tabRules: map<int, TabRule>, tabs: seq<Tab>)

  /** A message to the background: its action and the `settings` object it
      carries; the options page's object also holds `useCustomPac` and
      `customPacScript`. */
  datatype Request = Request(action: string, settings: Settings, useCustomPac: bool, customPacScript: string)

  /** The effect of a message on the installed configuration. */
  datatype Applied = Keeps | Installs(config: ProxyConfig) | InstallsCustomPac(script: string)

  /** The message listener (background.js:38-101):
      - `updateProxySettings` runs `applyProxySettings` on the sent settings;
      - `updatePacFile` runs `generateAndApplyPacFile` on what is stored;
      - `updateOptionsSettings` stores the sent settings, then installs the
        sent custom PAC script, or runs `loadAndApplySettings`
        (background.js:874-885);
      - `updateTabProxies` runs `applyTabProxies`, which stores fresh tab
        patterns and regenerates the script from them (background.js:696-788);
      - `resetSettings` runs `loadAndApplySettings`;
      - any other action installs nothing. */
  function AfterMessage(req: Request, st: Stored): Applied {
    if req.action == "updateProxySettings" then Installs(ApplyProxySettings(req.settings))
    else if req.action == "updatePacFile" then Installs(GenerateAndApplyPacFile(st.settings, st.rules, st.tabPatterns))
    else if req.action == "updateOptionsSettings" then
      if req.useCustomPac then InstallsCustomPac(req.customPacScript)
      else Installs(LoadAndApplySettings(st.settings, st.rules, st.tabPatterns, st.useCustomPac))
    else if req.action == "updateTabProxies" then
      Installs(GenerateAndApplyPacFile(st.settings, st.rules, TabPatternsFor(st.tabs, st.tabRules, st.rules)))
    else if req.action == "resetSettings" then
      Installs(LoadAndApplySettings(st.settings, st.rules, st.tabPatterns, st.useCustomPac))
    else Keeps
  }

  /** How a request to `host` is routed under a configuration. */
  function Route(c: ProxyConfig, host: string): string {
    match c
    case DirectMode => "DIRECT"
    case PacScriptMode(p) => FindProxyForURL(p, host)
  }

  /** A script is generated exactly when there is a domain rule or a tab
      pattern; the mtproto test adds nothing, since such a rule is a domain rule. */
  lemma GenerateIsDirectIffNoRules(s: Settings, rules: seq<Rule>, tabs: seq<Rule>)
    ensures GenerateAndApplyPacFile(s, rules, tabs) == DirectMode <==> rules == [] && tabs == []
    ensures GenerateAndApplyPacFile(s, rules, tabs) != DirectMode ==>
      GenerateAndApplyPacFile(s, rules, tabs) == PacScriptMode(PacFor(s, rules, tabs))
  {
  }

  /** The mode chosen at start-up and on reset: direct when disabled; a script
      when enabled and there is a domain rule, or a custom-PAC request with
      tab patterns to put in it; direct otherwise. */
  lemma LoadAndApplyDecision(s: Settings, rules: seq<Rule>, tabs: seq<Rule>, useCustomPac: bool)
    ensures LoadAndApplySettings(s, rules, tabs, useCustomPac).PacScriptMode? <==>
      s.enabled && (rules != [] || (useCustomPac && tabs != []))
    ensures LoadAndApplySettings(s, rules, tabs, useCustomPac).PacScriptMode? ==>
      LoadAndApplySettings(s, rules, tabs, useCustomPac).program == PacFor(s, rules, tabs)
  {
    GenerateIsDirectIffNoRules(s, rules, tabs);
  }

  /** A host that no tab pattern and no domain rule claims is reached directly,
      in every mode and for every setting of the global proxy. */
  lemma UnclaimedHostIsDirect(s: Settings, rules: seq<Rule>, tabs: seq<Rule>, useCustomPac: bool, host: string)
    requires Evaluate(TabClauses(tabs), host).None? && Evaluate(DomainClauses(rules), host).None?
    ensures Route(LoadAndApplySettings(s, rules, tabs, useCustomPac), host) == "DIRECT"
    ensures Route(GenerateAndApplyPacFile(s, rules, tabs), host) == "DIRECT"
  {
    TabsBeforeDomains(s, rules, tabs, host);
  }

  /** With the proxy disabled and no rules at all, the mode is direct. */
  lemma DisabledWithoutRulesIsDirect(s: Settings, useCustomPac: bool)
    requires !s.enabled
    ensures LoadAndApplySettings(s, [], [], useCustomPac) == DirectMode
    ensures GenerateAndApplyPacFile(s, [], []) == DirectMode
  {
  }

  /** An enabled HTTP proxy with credentials and no rules still yields direct
      mode: the fixed-proxy configuration is unreachable. */
  lemma EnabledProxyWithoutRulesIsDirect(useCustomPac: bool)
    ensures LoadAndApplySettings(Settings(true, "http", "10.0.0.1", Num(3128), "u", "p", "", ""), [], [], useCustomPac)
      == DirectMode
  {
  }

  /** The five action names are different texts. */
  lemma ActionsDistinct()
    ensures "updatePacFile" != "updateProxySettings"
    ensures "updateOptionsSettings" != "updateProxySettings" && "updateOptionsSettings" != "updatePacFile"
    ensures "updateTabProxies" != "updateProxySettings" && "updateTabProxies" != "updatePacFile"
    ensures "updateTabProxies" != "updateOptionsSettings"
    ensures "resetSettings" != "updateProxySettings" && "resetSettings" != "updatePacFile"
    ensures "resetSettings" != "updateOptionsSettings" && "resetSettings" != "updateTabProxies"
  {
    assert "updatePacFile"[7] != "updateProxySettings"[7];
    assert "updateOptionsSettings"[6] != "updateProxySettings"[6];
    assert "updateOptionsSettings"[6] != "updatePacFile"[6];
    assert "updateTabProxies"[6] != "updateProxySettings"[6];
    assert "updateTabProxies"[6] != "updatePacFile"[6];
    assert "updateTabProxies"[6] != "updateOptionsSettings"[6];
    assert "resetSettings"[0] != "updateProxySettings"[0];
    assert "resetSettings"[0] != "updatePacFile"[0];
    assert "resetSettings"[0] != "updateOptionsSettings"[0];
    assert "resetSettings"[0] != "updateTabProxies"[0];
  }

  /** Saving the settings form sends `updateProxySettings`, after which every
      host is reached directly, whatever rules and tab patterns are stored. */
  lemma SettingsSaveIsDirect(req: Request, st: Stored, host: string)
    requires req.action == "updateProxySettings"
    ensures AfterMessage(req, st) == Installs(DirectMode)
    ensures Route(AfterMessage(req, st).config, host) == "DIRECT"
  {
  }

  /** `updatePacFile` installs the script built from the stored rules and tab
      patterns, or direct mode when both are empty. */
  lemma PacFileOutcome(req: Request, st: Stored)
    requires req.action == "updatePacFile"
    ensures AfterMessage(req, st).Installs?
    ensures AfterMessage(req, st).config == DirectMode <==> st.rules == [] && st.tabPatterns == []
    ensures AfterMessage(req, st).config.PacScriptMode? ==>
      AfterMessage(req, st).config.program == PacFor(st.settings, st.rules, st.tabPatterns)
  {
    ActionsDistinct();
    GenerateIsDirectIffNoRules(st.settings, st.rules, st.tabPatterns);
  }

  /** An options save installs the sent custom PAC script when it asks for
      one; otherwise the stored settings decide as at start-up: a script iff
      enabled and there is a domain rule, or custom PAC is stored with tab
      patterns. */
  lemma OptionsSaveOutcome(req: Request, st: Stored)
    requires req.action == "updateOptionsSettings"
    ensures req.useCustomPac ==> AfterMessage(req, st) == InstallsCustomPac(req.customPacScript)
    ensures !req.useCustomPac ==> AfterMessage(req, st).Installs?
    ensures !req.useCustomPac ==>
      (AfterMessage(req, st).config.PacScriptMode? <==>
        st.settings.enabled && (st.rules != [] || (st.useCustomPac && st.tabPatterns != [])))
  {
    ActionsDistinct();
    LoadAndApplyDecision(st.settings, st.rules, st.tabPatterns, st.useCustomPac);
  }

  /** Saving tab choices installs the script built from the tab patterns the
      current tabs and choices give, or direct mode when there are no domain
      rules and no tab yields a pattern. */
  lemma TabProxiesOutcome(req: Request, st: Stored)
    requires req.action == "updateTabProxies"
    ensures var patterns := TabPatternsFor(st.tabs, st.tabRules, st.rules);
      && AfterMessage(req, st).Installs?
      && (AfterMessage(req, st).config == DirectMode <==> st.rules == [] && patterns == [])
      && (AfterMessage(req, st).config.PacScriptMode? ==>
            AfterMessage(req, st).config.program == PacFor(st.settings, st.rules, patterns))
  {
    ActionsDistinct();
    GenerateIsDirectIffNoRules(st.settings, st.rules, TabPatternsFor(st.tabs, st.tabRules, st.rules));
  }

  /** A reset applies the stored settings as at start-up. */
  lemma ResetOutcome(req: Request, st: Stored)
    requires req.action == "resetSettings"
    ensures AfterMessage(req, st).Installs?
    ensures AfterMessage(req, st).config.PacScriptMode? <==>
      st.settings.enabled && (st.rules != [] || (st.useCustomPac && st.tabPatterns != []))
  {
    ActionsDistinct();
    LoadAndApplyDecision(st.settings, st.rules, st.tabPatterns, st.useCustomPac);
  }

  /** The settings `loadAndApplySettings` reads from an empty sync storage
      (background.js:122-133). */
  const StorageDefaults := Settings(false, "http", "", Num(8080), "", "", "", "")

  /** The options page clears sync storage before it sends `resetSettings`,
      so the reset reads the defaults, which are disabled: direct mode. */
  lemma ResetAfterClearIsDirect(req: Request, st: Stored)
    requires req.action == "resetSettings" && st.settings == StorageDefaults
    ensures AfterMessage(req, st) == Installs(DirectMode)
  {
    ResetOutcome(req, st);
  }

  /** The options page always sends `useCustomPac`; when it is false, the save
      installs a script iff the stored settings are enabled and there is a
      domain rule. Tab patterns alone give direct mode. */
  lemma OptionsSaveWithoutCustomPac(req: Request, st: Stored)
    requires req.action == "updateOptionsSettings" && !req.useCustomPac && !st.useCustomPac
    ensures AfterMessage(req, st).Installs?
    ensures AfterMessage(req, st).config.PacScriptMode? <==> st.settings.enabled && st.rules != []
    ensures !(st.settings.enabled && st.rules != []) ==> AfterMessage(req, st) == Installs(DirectMode)
  {
    OptionsSaveOutcome(req, st);
  }

  /** Only the five handled actions change the configuration. */
  lemma UnknownActionKeeps(req: Request, st: Stored)
    ensures AfterMessage(req, st) == Keeps <==>
      req.action !in ["updateProxySettings", "updatePacFile", "updateOptionsSettings", "updateTabProxies", "resetSettings"]
  {
  }

  const ExampleRule := Rule("*.example.com", "socks5", "s", Num(1080), "", "", "")

  lemma PortRendering()
    ensures Num(1080).Render() == "1080"
  {
    assert NatToString(1080) == NatToString(108) + [DigitChar(0)];
    assert NatToString(108) == NatToString(10) + [DigitChar(8)];
    assert NatToString(10) == NatToString(1) + [DigitChar(0)];
  }

  lemma ExampleRuleEncoding()
    ensures EncodeRule(ExampleRule) == Some("SOCKS s:1080")
  {
    assert ToLower("socks5") == "socks5";
    PortRendering();
    EncodeTable(ExampleRule);
    assert Endpoint("s", Num(1080)) == "s:1080";
    assert "SOCKS " + "s:1080" == "SOCKS s:1080";
  }

  lemma ExampleRuleDirective()
    ensures Usable(ExampleRule) && !TelegramMtproto(ExampleRule)
    ensures StripNonAscii(ExampleRule.pattern) == "*.example.com"
    ensures StripNonAscii(EncodeRule(ExampleRule).GetOr("undefined")) == "SOCKS s:1080"
  {
    assert ToLower("socks5") == "socks5";
    assert IsAscii("*.example.com");
    ExampleRuleEncoding();
    assert IsAscii("SOCKS s:1080");
  }

  lemma ExampleRuleMatching()
    ensures HostMatchesPattern("a.example.com", "*.example.com")
    ensures !HostMatchesPattern("other.org", "*.example.com")
  {
    var d := "example.com";
    assert "*." + d == "*.example.com";
    assert "a" + "." + d == "a.example.com";
    SubdomainMatches("a", d);
    ShortHostMisses("other.org", d);
  }

  lemma ExampleClauseOnly(host: string)
    requires host == "a.example.com" || host == "other.org"
    ensures Evaluate(DomainClause(ExampleRule), host)
      == if host == "a.example.com" then Some("SOCKS s:1080") else None
  {
    ExampleRuleDirective();
    ExampleRuleMatching();
    DomainRuleMatchesPattern(ExampleRule, host);
  }

  lemma ExampleDomainClauses(host: string)
    requires host == "a.example.com" || host == "other.org"
    ensures Evaluate(DomainClauses([ExampleRule]), host)
      == if host == "a.example.com" then Some("SOCKS s:1080") else None
  {
    ExampleClauseOnly(host);
    if host == "a.example.com" {
      FirstApplicableRuleWins([ExampleRule], DomainClause, 0, host);
    } else {
      NoRuleApplies([ExampleRule], DomainClause, host);
    }
  }

  lemma ExampleScript(s: Settings)
    ensures FindProxyForURL(PacFor(s, [ExampleRule], []), "a.example.com") == "SOCKS s:1080"
    ensures FindProxyForURL(PacFor(s, [ExampleRule], []), "other.org") == "DIRECT"
  {
    ExampleDomainClauses("a.example.com");
    ExampleDomainClauses("other.org");
    assert TabClauses([]) == [];
    TabsBeforeDomains(s, [ExampleRule], [], "a.example.com");
    TabsBeforeDomains(s, [ExampleRule], [], "other.org");
  }

  /** A single socks5 rule for "*.example.com": its subdomains go through the
      SOCKS proxy, every other host connects directly. */
  lemma SocksRuleExample(s: Settings, useCustomPac: bool)
    requires s.enabled
    ensures Route(LoadAndApplySettings(s, [ExampleRule], [], useCustomPac), "a.example.com") == "SOCKS s:1080"
    ensures Route(LoadAndApplySettings(s, [ExampleRule], [], useCustomPac), "other.org") == "DIRECT"
  {
    LoadAndApplyDecision(s, [ExampleRule], [], useCustomPac);
    ExampleScript(s);
  }

  /** With that rule stored, start-up sends subdomains of example.com through
      the SOCKS proxy; a later save of the settings form sends them directly,
      and the next `updatePacFile` brings the proxy back. */
  lemma SaveDiscardsScript(st: Stored, save: Request, refresh: Request)
    requires st.settings.enabled && st.rules == [ExampleRule] && st.tabPatterns == []
    requires save.action == "updateProxySettings" && refresh.action == "updatePacFile"
    ensures Route(LoadAndApplySettings(st.settings, st.rules, st.tabPatterns, st.useCustomPac), "a.example.com")
      == "SOCKS s:1080"
    ensures AfterMessage(save, st) == Installs(DirectMode)
    ensures AfterMessage(refresh, st).Installs?
    ensures Route(AfterMessage(refresh, st).config, "a.example.com") == "SOCKS s:1080"
  {
    SocksRuleExample(st.settings, st.useCustomPac);
    PacFileOutcome(refresh, st);
    ExampleScript(st.settings);
  }
}
