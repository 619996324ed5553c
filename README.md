# Proxy policy engine of a browser proxy-switcher extension, in Dafny

The extension lets a user route browser traffic through HTTP, HTTPS, SOCKS4,
SOCKS5 or MTProto proxies, globally, per domain rule or per browser tab. Its
background script turns the stored settings, the ordered list of domain rules
and the per-tab choices into a proxy configuration. That is either plain direct
connections or a generated PAC script whose `FindProxyForURL(url, host)`
answers with a directive such as `SOCKS s:1080` or `DIRECT`. The popup page
validates and edits the rules before they are stored.

This project models that core:

- `HostMatch`: the `hostMatchesPattern` helper emitted into every PAC script.
  The `*.D` suffix form, and the anchored glob form in which `*` matches any
  run of characters and `.` is literal. The glob matcher is proved equal to an
  independent meaning: the host is the pattern with each `*` replaced by some
  text.
- `Directives`: the three copies of the `proxyString` selection. They are for
  tab rules, for domain rules, and for the default clause.
- `Pac`: the generated script as a structured decision list of clauses, each a
  disjunction of host tests with a directive. Tab patterns come first, then
  domain rules in list order, then the DIRECT default. It includes the Telegram
  forms of mtproto rules and the removal of non-ASCII characters.
  `BuildPacProgram` is the loop that assembles the script. `FindProxyForURL`
  evaluates it, first matching clause first.
- `Modes`: the choice between direct mode and the PAC script made by the
  message listener, `loadAndApplySettings`, `applyProxySettings` and
  `generateAndApplyPacFile`.
- `TabPatterns`: `applyTabProxies`, which turns stored per-tab choices
  (`direct`, `rule_<i>`) into tab patterns keyed by the tab's hostname.
- `Telegram`: the rule-list rewrite of `setupTelegramDomainRules`.
- `Responder`: the respond-once `safeResponse` guard, as a class with the
  `hasResponded` flag.
- `PopupForms`, `PopupRules`, `PopupTabs`: the popup's settings and rule
  validation, the rule list edited by push and splice (a class over a `seq`),
  the `rule_<i>` option values, and the tab-rule map built by `saveTabRules`.
- `Text`, `Ascii`, `Model`, `Wrappers`: the JavaScript string operations the
  code relies on, and the shared data types. `Text` covers `trim` with the
  exact JavaScript white-space set, `parseInt(_, 10)`, `includes`, `split`
  and ASCII case mapping.

Behaviour that the code has and a reader might not expect, all modelled as
written:

- The final PAC clause is always `DIRECT`, because `useDirectByDefault` is the
  constant `true`. The global proxy is never used as the PAC default.
- `applyProxySettings` installs direct mode unconditionally, for the same
  reason, and never builds the `fixed_servers` configuration. The popup sends
  `updateProxySettings` on every save of the settings form, so a save replaces
  any installed PAC script with direct mode, even when domain rules or tab
  patterns exist (`Modes.SettingsSaveIsDirect`, `Modes.SaveDiscardsScript`).
  Only `updatePacFile` and `updateTabProxies` always bring the script back,
  when there is a rule or a tab pattern. An options save without a custom PAC
  script brings it back only when the settings are enabled and a domain rule
  exists; tab patterns alone do not (`Modes.OptionsSaveWithoutCustomPac`). The
  options page clears sync storage before it sends `resetSettings`, so a reset
  always installs direct mode (`Modes.ResetAfterClearIsDirect`).
- `setupTelegramDomainRules` has a single caller, background.js:245, inside
  the part of `applyProxySettings` that the direct-mode `return` at
  background.js:162-172 always skips. The `Telegram` module models the rewrite
  as written, but nothing in the extension reaches it.
- A domain rule of an unrecognised type still emits a clause, and that clause
  returns the text `undefined`. A tab pattern of such a type emits nothing.
- Tab choices refer to domain rules by position. Deleting a rule therefore
  makes every tab that chose a later rule use the rule after it
  (`PopupTabs.DeleteShiftsTabChoices`).
- Two of the modelled type checks are case-sensitive. `saveSettings`
  compares the type with `"direct"` exactly, and `hasMtprotoRulesForTelegram`
  compares it with `"mtproto"` exactly. Every other modelled type check
  ignores case. Two checks that are not modelled also compare exactly: the
  unreachable `fixed_servers` branch (background.js:207-222), and the popup's
  toggle of the secret field (js/popup.js:61).
- `hostMatchesPattern` does not split patterns at `;`, and it does not strip a
  scheme or path from the host.

## Model

| member | source | states |
|---|---|---|
| HostMatch.HostMatchesPattern | background.js:424-434 | the suffix form for `*.D`, the anchored glob otherwise (stated by the HostMatch lemmas below) |
| HostMatch.GlobMatch | background.js:431-433 | the anchored glob with `*` as any run and every other character literal (stated by GlobMeansInstantiation) |
| Directives.EncodeRule | background.js:519-564 | the directive of a rule by its lower-cased type, none for an unknown type (stated by EncodeTable and DirectiveDefinedIffKnown) |
| Directives.DefaultDirective | background.js:576-598 | the default-clause selection over the global settings (stated by DefaultAgreesWithRuleEncoding) |
| Pac.TabClause | background.js:443-505 | the clause of one tab pattern (stated by TabPatternIsExactHost, TelegramTabClause, TabPatternWithoutDirective) |
| Pac.DomainClause | background.js:512-570 | the clause of one domain rule (stated by DomainRuleMatchesPattern, TelegramDomainClause, UnusableRulesSkipped) |
| Pac.PacFor | background.js:419-613 | the whole script: tab clauses, domain clauses, DIRECT default (stated by BuildPacProgram and TabsBeforeDomains) |
| Pac.FindProxyForURL | background.js:437-613 | the script's answer for a host (stated by EvaluateIsFirstMatch) |
| Modes.GenerateAndApplyPacFile | background.js:353-395 | direct mode or the script (stated by GenerateIsDirectIffNoRules) |
| Modes.ApplyProxySettings | background.js:158-172 | direct mode, always (stated by SettingsSaveIsDirect and EnabledProxyWithoutRulesIsDirect) |
| Modes.LoadAndApplySettings | background.js:118-155 | the start-up choice (stated by LoadAndApplyDecision) |
| Modes.AfterMessage | background.js:38-101 | the configuration each message installs (stated by the per-action outcome lemmas) |
| TabPatterns.DecodeRuleIndex | background.js:729 | the index in a `rule_<i>` value (stated by RuleIndexRoundTrip) |
| TabPatterns.TabPatternsFor | background.js:699-761 | the tab patterns of the open tabs (stated by ApplyTabProxies and the TabPatterns lemmas) |
| Telegram.TelegramRewrite | background.js:957-997 | the rule list `setupTelegramDomainRules` stores (stated by RewriteShape and RewriteIdempotent) |
| Responder.Delivered | background.js:14-36 | what reaches the sender after a series of `safeResponse` calls (stated by AtMostOneAnswer and FirstSuccessfulSendWins) |
| PopupForms.SaveSettings | js/popup.js:178-208 | the stored settings or the refusal message (stated by SaveSettingsRefusals and SavedSettingsUsable) |
| PopupForms.CheckRule | js/popup.js:330-358 | the accepted rule or the refusal message (stated by CheckRuleRefusals and AcceptedRulesWellFormed) |
| PopupForms.FormOf | js/popup.js:385-397 | the rule form `editDomainRule` fills (stated by EditThenAddRestores) |
| PopupTabs.ProxyOptions | js/popup.js:468-476 | the options of a tab's selector (stated by OptionsLayout and OptionValuesDistinct) |
| PopupTabs.TabRuleMap | js/popup.js:539-552 | the `tabRules` map `saveTabRules` builds (stated by TabRuleMapKeys and TabRuleMapValue) |
| HostMatch.GlobFills | background.js:431-433 | every successful glob match has witnesses: the text each `*` stands for, which rebuilds the host exactly |
| HostMatch.GlobMeansInstantiation | background.js:431-433 | the glob matcher accepts a host iff the host is the pattern with every `*` replaced by some text (both directions) |
| HostMatch.WildcardMatches | background.js:426-429 | `*.D` matches a host iff it equals D or ends with `.D` |
| HostMatch.GlobPatternMatches | background.js:424-434 | a pattern not starting with `*.` matches iff the whole host is an instance of the glob |
| HostMatch.ExactWithoutStar | background.js:431-433 | a pattern without `*` matches only the identical host, so `.` is literal |
| HostMatch.StarMatchesAll | background.js:431-433 | the pattern `*` matches every host |
| HostMatch.SubdomainMatches | background.js:426-429 | `*.D` matches every host of the form `name.D` |
| HostMatch.LetterBeforeDomainMisses | background.js:426-429 | `*.D` does not match D with one non-dot character in front |
| HostMatch.TelegramWildcardExamples | background.js:426-429 | `web.telegram.org` and `telegram.org` match `*.telegram.org`; `xtelegram.org` does not |
| Directives.DirectiveDefinedIffKnown | background.js:450-495 | a rule gets a directive iff its lower-cased type is one of direct, http, https, socks4, socks5, mtproto |
| Directives.EncodeTable | background.js:519-564 | DIRECT; `SOCKS5 s:p` for mtproto; `HTTP`/`HTTPS` with `user:pass@` only when both are present; `SOCKS s:p` for socks4 and socks5 |
| Directives.SchemeOfDirective | background.js:450-495 | the first word of every directive is the keyword of the rule's type |
| Directives.CaseInsensitive | background.js:521-562 | two spellings of a type that agree after lower-casing give the same directive |
| Directives.MtprotoIgnoresSecret | background.js:523-525 | the mtproto secret never reaches the directive |
| Directives.CredentialsNeedBoth | background.js:546-549 | a rule missing the username or the password encodes as one with neither |
| Directives.OnlyHttpCarriesCredentials | background.js:558-563 | credentials never change a directive of a type other than http or https |
| Directives.DefaultAgreesWithRuleEncoding | background.js:576-598 | the default-clause selection agrees with the rule selection on recognised types and says DIRECT for any other type |
| Ascii.StripNonAscii | background.js:627-632 | the result is ASCII and no longer than the input, and ASCII input comes back unchanged |
| Ascii.StripDistributes | background.js:627-632 | stripping a concatenation strips each part, so sanitising the whole script equals sanitising each spliced string |
| Ascii.StripIdempotent | background.js:627-632 | stripping twice is stripping once |
| Ascii.StripKeepsExactlyAscii | background.js:631 | a character survives stripping iff it is at most 0x7F |
| Pac.BuildPacProgram | background.js:437-613 | the assembly loops over tab patterns and domain rules build exactly the specified decision list and the default |
| Pac.EvaluateIsFirstMatch | background.js:437-609 | the script answers with the directive of the first clause whose test holds, and falls through iff no clause holds |
| Pac.FirstApplicableRuleWins | background.js:512-571 | rules are tried in list order: the first rule whose clause applies decides |
| Pac.NoRuleApplies | background.js:512-571 | when no rule's clause applies, the rules' clauses together give no answer |
| Pac.TabsBeforeDomains | background.js:437-609 | a tab pattern that matches wins over every domain rule; with no match anywhere the answer is DIRECT |
| Pac.DefaultAlwaysDirect | background.js:572-609 | the final clause answers DIRECT whatever the settings |
| Pac.TabPatternIsExactHost | background.js:497-505 | an ordinary tab pattern matches only the host equal to its pattern |
| Pac.TabPatternWithoutDirective | background.js:445-448 | a tab pattern without pattern or type, or with a type that has no directive, adds no clause |
| Pac.TelegramTabClause | background.js:460-472 | an mtproto tab pattern naming Telegram also matches web.telegram.org and every host ending in `.t.me` |
| Pac.DomainRuleMatchesPattern | background.js:566-570 | an ordinary domain rule matches through `hostMatchesPattern`; an unknown type answers `undefined` |
| Pac.TelegramDomainClause | background.js:527-541 | an mtproto domain rule naming Telegram also matches telegram.org, t.me and all their subdomains |
| Pac.UnusableRulesSkipped | background.js:514-517 | a rule without pattern or type contributes no clause |
| Pac.ProgramIsAscii | background.js:627-632 | every answer of the applied script is ASCII |
| Modes.GenerateIsDirectIffNoRules | background.js:353-395 | generating the PAC script sets direct mode iff there are no domain rules and no tab patterns; otherwise it installs the script |
| Modes.LoadAndApplyDecision | background.js:137-152 | the start-up choice is the script iff enabled and there is a domain rule, or a custom-PAC request with tab patterns |
| Modes.UnclaimedHostIsDirect | background.js:137-172 | a host no tab pattern and no domain rule claims connects directly in every mode |
| Modes.DisabledWithoutRulesIsDirect | background.js:137-147 | disabled settings with no rules give direct mode |
| Modes.EnabledProxyWithoutRulesIsDirect | background.js:160-172 | an enabled HTTP proxy with no rules still gives direct mode, not a fixed proxy |
| Modes.SettingsSaveIsDirect | background.js:38-48 | `updateProxySettings` installs direct mode, so every host connects directly whatever rules and tab patterns are stored |
| Modes.PacFileOutcome | background.js:49-57 | `updatePacFile` installs direct mode iff no domain rule and no tab pattern is stored, and otherwise the script built from them |
| Modes.OptionsSaveOutcome | background.js:58-68 | an options save with `useCustomPac` installs the sent custom script; otherwise it installs a generated script iff the stored settings are enabled and there is a domain rule, or custom PAC is stored with tab patterns |
| Modes.TabProxiesOutcome | background.js:69-91 | `updateTabProxies` installs the script built from the tab patterns of the current tabs and choices, or direct mode iff there is no domain rule and no tab yields a pattern |
| Modes.ResetOutcome | background.js:92-101 | `resetSettings` installs a script iff the stored settings are enabled and there is a domain rule, or custom PAC is stored with tab patterns |
| Modes.OptionsSaveWithoutCustomPac | background.js:874-885 | an options save without custom PAC installs a script iff the stored settings are enabled and a domain rule exists, and direct mode otherwise |
| Modes.ResetAfterClearIsDirect | background.js:92-101 | a reset that reads the cleared storage's defaults (background.js:122-133) installs direct mode |
| Modes.UnknownActionKeeps | background.js:38-101 | the configuration is left alone iff the action is none of the five handled ones |
| Modes.SaveDiscardsScript | background.js:38-57 | with a socks5 rule stored, start-up routes `a.example.com` through the proxy; a settings save then installs direct mode, and the next `updatePacFile` routes it through the proxy again |
| Modes.SocksRuleExample | background.js:512-609 | with one socks5 rule for `*.example.com`, `a.example.com` goes through `SOCKS s:1080` and `other.org` directly |
| TabPatterns.ApplyTabProxies | background.js:696-761 | the loop produces exactly the specified tab patterns, in tab order |
| TabPatterns.TabOrderKept | background.js:699-761 | each tab's contribution sits between those of the tabs before and after it |
| TabPatterns.TabPatternShape | background.js:699-760 | a tab yields at most one pattern, only when eligible, and the pattern is its hostname |
| TabPatterns.PatternsComeFromEligibleTabs | background.js:699-761 | there are at most as many patterns as tabs, and each is the hostname of a tab with a stored rule and an http(s) URL |
| TabPatterns.DirectTab | background.js:720-726 | a tab set to `direct` yields a direct pattern for its hostname |
| TabPatterns.RuleTab | background.js:727-755 | a tab set to `rule_<i>` copies rule i with its hostname as pattern when rule i exists, and yields nothing otherwise |
| TabPatterns.NoPatternForDefaultOrIneligible | background.js:700-708 | `default`, a missing rule, or a URL that is not http(s) yields nothing |
| TabPatterns.RuleIndexRoundTrip | background.js:729 | decoding the value `rule_<i>` gives back i |
| Telegram.SetupTelegramDomainRules | background.js:963-989 | the rewrite loop stores exactly the filtered rules followed by the five Telegram rules |
| Telegram.KeptIffNotTelegram | background.js:964-967 | a rule survives the filter iff it was in the list and its pattern contains neither `telegram` nor `t.me` |
| Telegram.RewriteShape | background.js:969-989 | the stored list is the survivors in order, then five mtproto rules for the Telegram domains with the global server, port and secret and no credentials |
| Telegram.RewriteIdempotent | background.js:963-989 | running the setup twice stores the same list as running it once |
| Telegram.TelegramHostsUseMtproto | background.js:969-989 | after the setup, a Telegram host no surviving rule claims goes through the mtproto server as SOCKS5 |
| Responder.ResponseFor | background.js:24-31 | the answer is a success iff success was reported, and a failure always carries a non-empty error text |
| Responder.Responder.SafeResponse | background.js:17-32 | after the first delivered answer every call is ignored; a failed send leaves the flag clear |
| Responder.RespondToAttempts | background.js:14-36 | a listener run delivers exactly what the guard specification says |
| Responder.AtMostOneAnswer | background.js:14-36 | at most one answer reaches the sender, and one does iff some send went through |
| Responder.FirstSuccessfulSendWins | background.js:17-32 | the answer delivered is that of the first call whose send went through |
| Responder.LaterCallsIgnored | background.js:18-21 | once an answer has gone out, later calls change nothing |
| PopupForms.SaveSettingsRefusals | js/popup.js:190-208 | settings are refused for a missing server or port (exact `direct` comparison) and, after that, for an mtproto type without secret |
| PopupForms.SavedSettingsUsable | js/popup.js:178-208 | stored enabled non-direct settings have a server and a non-zero port, mtproto ones a secret, and trimmed fields; disabled settings are always stored |
| PopupForms.CheckRuleRefusals | js/popup.js:330-363 | each of the three refusals happens iff its test fails and the earlier ones pass: an empty trimmed pattern, then a non-direct type without server or non-zero port, then an mtproto type without secret; a form passing all three is accepted as read |
| PopupForms.AcceptedRulesWellFormed | js/popup.js:330-358 | every accepted rule has a pattern, trimmed fields, a numeric port, a server and port when not direct, and a secret when mtproto |
| PopupForms.EditThenAddRestores | js/popup.js:385-397 | the edit form of a well-formed rule, added back unchanged, is accepted as the same rule |
| Text.ParseIntOfIntToString | js/popup.js:335 | a rendered port parses back to the same number |
| Text.TrimIdempotent | js/popup.js:332-338 | trimming a trimmed field changes nothing |
| PopupRules.RemoveAt | js/popup.js:414-415 | deleting index k keeps the rules before k, shifts those after k down by one, and changes nothing for an index past the end |
| PopupRules.RuleList.AddDomainRule | js/popup.js:330-363 | an accepted rule is appended at the end; a refused one leaves the list unchanged |
| PopupRules.RuleList.DeleteDomainRule | js/popup.js:412-422 | the list becomes the old list without element k |
| PopupRules.RuleList.EditDomainRule | js/popup.js:385-410 | the form is filled from rule k, which is then deleted; a missing index changes nothing |
| PopupRules.AddKeepsEarlierRules | js/popup.js:362-363 | adding keeps every earlier rule at its index and puts the new rule last |
| PopupRules.RemoveAtMultiset | js/popup.js:415 | deleting removes one occurrence of the rule and nothing else |
| PopupRules.EditThenAddMovesToEnd | js/popup.js:385-403 | editing and re-adding a rule unchanged keeps the same rules, with the edited one moved to the end |
| PopupTabs.SaveTabRules | js/popup.js:539-552 | the loop builds exactly the specified map and sets the flag iff some selector is not `default` |
| PopupTabs.OptionsLayout | js/popup.js:468-476 | the options are direct, default, then `rule_0` … `rule_{n-1}` in rule order |
| PopupTabs.OptionValuesDistinct | js/popup.js:468-476 | no two options share a value |
| PopupTabs.RuleOptionSelectsRule | js/popup.js:472-473 | choosing the option of rule i makes the background use rule i for that tab's host |
| PopupTabs.TabRuleMapKeys | js/popup.js:543-550 | a tab has an entry iff some selector for it holds a value other than `default` |
| PopupTabs.TabRuleMapValue | js/popup.js:543-550 | a tab's entry holds the value of the last selector that chose something other than `default` for it |
| PopupTabs.NonDefaultIffNonEmpty | js/popup.js:541-551 | `hasNonDefaultRules` is set iff the map is non-empty |
| PopupTabs.DeleteShiftsTabChoices | js/popup.js:412-422 | after deleting rule k, a tab that chose rule j > k gets rule j+1, or nothing if j was the last |

## Left out

- `Modes.Stored` does not model the `chrome.storage.sync.clear` the options page performs before sending `resetSettings`. `Modes.ResetAfterClearIsDirect` takes the cleared state as an input whose settings are `Modes.StorageDefaults`.
- All `chrome.*` calls are left out: storage reads and writes, `proxy.settings.set`, `tabs.query`, `runtime.sendMessage`, notifications and the WebRTC privacy settings. Their data are inputs and results of the model.
- Promise sequencing, the `setTimeout` guard of `updateTabProxies` and overlapping applies are left out. The model is sequential.
- `new URL(tab.url).hostname` is a foreign URL parser. A tab carries its hostname as an input, with `None` where the parser throws.
- The PAC script is not rendered as text. It is a structured clause list with the same tests and answers, so the JavaScript string-literal quoting of a `"` or `\` inside a pattern is not modelled.
- HostMatch.GlobMatch: the regular expression's `.*` does not cross line terminators, and regular-expression metacharacters other than `.` and `*` in a pattern would be interpreted by the regex engine. The model treats every character except `*` literally. A pattern that is not a valid regular expression, such as one with an unbalanced `(` or `[`, makes `new RegExp` throw at background.js:433. `FindProxyForURL` then throws for every host that reaches that clause, and later clauses are never tried. The model matches such a pattern literally instead.
- `toLowerCase`/`toUpperCase` are modelled on ASCII letters only. Unicode case mappings (for example the Kelvin sign) are not modelled.
- Numbers are unbounded integers. A port is a `parseInt` result or NaN; JavaScript's floating-point range is not modelled.
- The `fixed_servers` construction and bypass-list splitting of `applyProxySettings` (background.js:182-257) are not modelled. They are unreachable because `useDirectByDefault` returns first.
- `applyCustomPacScript` and the custom PAC script's text are not modelled. An options save that asks for one yields `Modes.InstallsCustomPac` with the script as an opaque string, so routing under it is not modelled.
- The storage write of `updateOptionsSettings`, a merge into sync storage, is not modelled. `Modes.Stored` is the storage as read after that write. The settings-changed notification and the 5-second response timeout of `updateTabProxies` are not modelled either; they do not affect the installed configuration.
- The storage fallbacks of `generateAndApplyPacFile` (missing lists read as empty) are not modelled. The model takes the lists as given.
- `applyTabProxy`, diagnostics, the WebRTC functions and the mtproto bookkeeping in local storage are not part of this model. They only log, call host APIs, or sit outside the policy core.
- js/options.js and js/util.js are not part of this model. They hold DOM forms, file import and export, custom-PAC validation through a JavaScript parser, and promise wrappers.
- The popup's DOM building (`createDomainRuleElement`, `createTabElement`, `loadSettings`, the diagnostics modal) is not modelled. `PopupTabs.Selector` takes each selector's tab id as a number, standing for the `parseInt` of the id written into it.
- `deleteDomainRule` is modelled for non-negative indices, the only ones the rule list's buttons pass. `splice` with a negative index would count from the end.
