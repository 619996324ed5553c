/** `applyTabProxies` (background.js:669-796): the stored per-tab choices are
    turned into concrete tab patterns, one per eligible tab, with the tab's
    hostname as the pattern. */
module TabPatterns {
  import opened Wrappers
  import opened Text
  import opened Model

  /** `parseInt(value.split("_")[1], 10)` (background.js:729). */
  function DecodeRuleIndex(value: string): Option<int> {
    match SecondField(value, '_')
    case None => None
    case Some(field) => ParseInt(field)
  }

  /** A tab is considered when it has a stored rule and a non-empty URL
      starting with "http" (the test for "https" adds nothing). */
  predicate Eligible(tab: Tab, tabRules: map<int, TabRule>) {
    tab.id in tabRules && tab.url != "" && StartsWith(tab.url, "http")
  }

  /** The pattern pushed for a "direct" tab; the source's object carries only
      the pattern and the type, the other fields play no part for it. */
  function DirectPattern(host: string): Rule {
    Rule(host, "direct", "", NaN, "", "", "")
  }

  /** What one tab contributes (background.js:700-760). */
  function TabPatternFor(tab: Tab, tabRules: map<int, TabRule>, domainRules: seq<Rule>): seq<Rule> {
    if !Eligible(tab, tabRules) || tab.hostname.None? then []
    else
      var host := tab.hostname.value;
      var value := tabRules[tab.id].value;
      if value == "direct" then [DirectPattern(host)]
      else if StartsWith(value, "rule_") then
        match DecodeRuleIndex(value)
        case Some(i) => if 0 <= i < |domainRules| then [domainRules[i].(pattern := host)] else []
        case None => []
      else []
  }

  /** The tab patterns of all tabs, in tab order. */
  function TabPatternsFor(tabs: seq<Tab>, tabRules: map<int, TabRule>, domainRules: seq<Rule>): seq<Rule> {
    if tabs == [] then [] else
      TabPatternsFor(tabs[..|tabs| - 1], tabRules, domainRules)
      + TabPatternFor(tabs[|tabs| - 1], tabRules, domainRules)
  }

  /** The materialisation loop of `applyTabProxies`. */
  method ApplyTabProxies(tabs: seq<Tab>, tabRules: map<int, TabRule>, domainRules: seq<Rule>)
    returns (tabPatterns: seq<Rule>)
    ensures tabPatterns == TabPatternsFor(tabs, tabRules, domainRules)
  {
    tabPatterns := [];
    for k := 0 to |tabs|
      invariant tabPatterns == TabPatternsFor(tabs[..k], tabRules, domainRules)
    {
      assert tabs[..k + 1][..k] == tabs[..k];
      var tab := tabs[k];
      if tab.id in tabRules && tab.url != "" {
        if !StartsWith(tab.url, "http") {
          continue;
        }
        var rule := tabRules[tab.id];
        if tab.hostname.Some? {
          var tabHost := tab.hostname.value;
          if rule.value == "direct" {
            tabPatterns := tabPatterns + [DirectPattern(tabHost)];
          } else if StartsWith(rule.value, "rule_") {
            var ruleIndex := DecodeRuleIndex(rule.value);
            if ruleIndex.Some? && 0 <= ruleIndex.value < |domainRules| {
              var domainRule := domainRules[ruleIndex.value];
              tabPatterns := tabPatterns + [domainRule.(pattern := tabHost)];
            }
          }
        }
      }
    }
    assert tabs[..|tabs|] == tabs;
  }

  lemma {:induction false} TabPatternsAppend(a: seq<Tab>, b: seq<Tab>, tabRules: map<int, TabRule>, domainRules: seq<Rule>)
    ensures TabPatternsFor(a + b, tabRules, domainRules)
      == TabPatternsFor(a, tabRules, domainRules) + TabPatternsFor(b, tabRules, domainRules)
    decreases |b|
  {
    if b == [] {
      assert a + b == a;
    } else {
      var init := b[..|b| - 1];
      var last := TabPatternFor(b[|b| - 1], tabRules, domainRules);
      assert (a + b)[..|a + b| - 1] == a + init;
      assert (a + b)[|a + b| - 1] == b[|b| - 1];
      TabPatternsAppend(a, init, tabRules, domainRules);
      calc {
        TabPatternsFor(a + b, tabRules, domainRules);
        TabPatternsFor(a + init, tabRules, domainRules) + last;
        (TabPatternsFor(a, tabRules, domainRules) + TabPatternsFor(init, tabRules, domainRules)) + last;
        TabPatternsFor(a, tabRules, domainRules) + (TabPatternsFor(init, tabRules, domainRules) + last);
      }
    }
  }

  /** Every tab's contribution appears in the output, between those of the
      tabs before it and those of the tabs after it. */
  lemma TabOrderKept(tabs: seq<Tab>, j: nat, tabRules: map<int, TabRule>, domainRules: seq<Rule>)
    requires j < |tabs|
    ensures TabPatternsFor(tabs, tabRules, domainRules)
      == TabPatternsFor(tabs[..j], tabRules, domainRules)
       + TabPatternFor(tabs[j], tabRules, domainRules)
       + TabPatternsFor(tabs[j + 1..], tabRules, domainRules)
  {
    assert tabs == tabs[..j] + [tabs[j]] + tabs[j + 1..];
    TabPatternsAppend(tabs[..j] + [tabs[j]], tabs[j + 1..], tabRules, domainRules);
    TabPatternsAppend(tabs[..j], [tabs[j]], tabRules, domainRules);
    assert [tabs[j]][..0] == [];
  }

  /** A tab yields at most one pattern, and only when it is eligible; the
      pattern is then the tab's hostname. */
  lemma TabPatternShape(tab: Tab, tabRules: map<int, TabRule>, domainRules: seq<Rule>)
    ensures |TabPatternFor(tab, tabRules, domainRules)| <= 1
    ensures TabPatternFor(tab, tabRules, domainRules) != [] ==>
      Eligible(tab, tabRules) && tab.hostname == Some(TabPatternFor(tab, tabRules, domainRules)[0].pattern)
  {
  }

  predicate HostOfEligibleTab(tabs: seq<Tab>, tabRules: map<int, TabRule>, host: string) {
    exists j :: 0 <= j < |tabs| && Eligible(tabs[j], tabRules) && tabs[j].hostname == Some(host)
  }

  /** Each tab pattern is the hostname of an eligible tab; at most one per tab. */
  lemma {:induction false} PatternsComeFromEligibleTabs(tabs: seq<Tab>, tabRules: map<int, TabRule>, domainRules: seq<Rule>)
    ensures |TabPatternsFor(tabs, tabRules, domainRules)| <= |tabs|
    ensures forall r <- TabPatternsFor(tabs, tabRules, domainRules) :: HostOfEligibleTab(tabs, tabRules, r.pattern)
  {
    if tabs != [] {
      var init := tabs[..|tabs| - 1];
      var lastTab := tabs[|tabs| - 1];
      PatternsComeFromEligibleTabs(init, tabRules, domainRules);
      TabPatternShape(lastTab, tabRules, domainRules);
      var prev := TabPatternsFor(init, tabRules, domainRules);
      var last := TabPatternFor(lastTab, tabRules, domainRules);
      var out := TabPatternsFor(tabs, tabRules, domainRules);
      assert out == prev + last;
      forall r <- out ensures HostOfEligibleTab(tabs, tabRules, r.pattern) {
        if r in prev {
          var j :| 0 <= j < |init| && Eligible(init[j], tabRules) && init[j].hostname == Some(r.pattern);
          assert tabs[j] == init[j];
        } else {
          assert r == last[0];
          assert tabs[|tabs| - 1] == lastTab;
        }
      }
    }
  }

  /** A tab set to "direct" yields a DIRECT pattern for its hostname. */
  lemma DirectTab(tab: Tab, tabRules: map<int, TabRule>, domainRules: seq<Rule>, host: string)
    requires Eligible(tab, tabRules) && tab.hostname == Some(host) && tabRules[tab.id].value == "direct"
    ensures TabPatternFor(tab, tabRules, domainRules) == [Rule(host, "direct", "", NaN, "", "", "")]
  {
  }

  /** A tab set to "rule_<i>" copies domain rule i with its hostname as the
      pattern when that rule exists, and yields nothing when it does not. */
  lemma RuleTab(tab: Tab, tabRules: map<int, TabRule>, domainRules: seq<Rule>, host: string, i: nat)
    requires Eligible(tab, tabRules) && tab.hostname == Some(host)
    requires tabRules[tab.id].value == "rule_" + NatToString(i)
    ensures i < |domainRules| ==> TabPatternFor(tab, tabRules, domainRules) == [domainRules[i].(pattern := host)]
    ensures i >= |domainRules| ==> TabPatternFor(tab, tabRules, domainRules) == []
  {
    RuleIndexRoundTrip(i);
    var value := tabRules[tab.id].value;
    assert StartsWith(value, "rule_");
    assert value != "direct" by {
      assert value[..5] == "rule_";
    }
  }

  /** A tab set to "default", or with no stored rule, or whose URL is not
      http(s), contributes nothing. */
  lemma NoPatternForDefaultOrIneligible(tab: Tab, tabRules: map<int, TabRule>, domainRules: seq<Rule>)
    requires !Eligible(tab, tabRules) || tabRules[tab.id].value == "default"
    ensures TabPatternFor(tab, tabRules, domainRules) == []
  {
    if Eligible(tab, tabRules) {
      assert !StartsWith("default", "rule_") by {
        assert "default"[..5][0] != "rule_"[0];
      }
    }
  }

  lemma {:induction false} UpToWithoutSeparator(s: string, sep: char)
    requires sep !in s
    ensures UpTo(s, sep) == s
  {
    if s != [] {
      assert sep !in s[1..];
      UpToWithoutSeparator(s[1..], sep);
    }
  }

  lemma {:induction false} AfterFirstSkips(a: string, b: string, sep: char)
    requires sep !in a
    ensures sep in a + [sep] + b && AfterFirst(a + [sep] + b, sep) == b
  {
    assert (a + [sep] + b)[|a|] == sep;
    if a != [] {
      assert (a + [sep] + b)[1..] == a[1..] + [sep] + b;
      AfterFirstSkips(a[1..], b, sep);
    }
  }

  /** Decoding the option value "rule_<i>" gives back i. */
  lemma RuleIndexRoundTrip(i: nat)
    ensures DecodeRuleIndex("rule_" + NatToString(i)) == Some(i)
  {
    var digits := NatToString(i);
    var value := "rule_" + digits;
    assert '_' !in digits by {
      forall k | 0 <= k < |digits| ensures digits[k] != '_' {
        assert IsDigit(digits[k]);
      }
    }
    assert value == "rule" + ['_'] + digits;
    AfterFirstSkips("rule", digits, '_');
    UpToWithoutSeparator(digits, '_');
    ParseIntOfIntToString(i);
  }
}
