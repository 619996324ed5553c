/** The per-tab choices of the popup: the options each tab's selector
    offers (js/popup.js:468-476) and the `tabRules` map `saveTabRules`
    builds from the selectors (js/popup.js:539-552). The background side
    decodes the stored values in `applyTabProxies`. */
module PopupTabs {
  import opened Wrappers
  import opened Text
  import opened Model
  import opened TabPatterns
  import opened PopupRules

  datatype ProxyOption = ProxyOption(value: string, caption: string)

  /** The value of the option for domain rule `i`. */
  function RuleOptionValue(i: nat): string {
    "rule_" + NatToString(i)
  }

  function ProxyOptions(domainRules: seq<Rule>): seq<ProxyOption> {
    [ProxyOption("direct", "Direct Connection (Default)"), ProxyOption("default", "Use Global Proxy Settings")]
    + seq(|domainRules|, i requires 0 <= i < |domainRules| =>
        ProxyOption(RuleOptionValue(i), domainRules[i].pattern + " (" + ToUpper(domainRules[i].proxyType) + ")"))
  }

  /** One selector: the tab id it was created for and the value selected. */
  datatype Selector = Selector(tabId: int, value: string)

  /** The map the selectors produce, later selectors for the same tab winning. */
  function TabRuleMap(selectors: seq<Selector>): map<int, TabRule> {
    if selectors == [] then map[] else
      var prev := TabRuleMap(selectors[..|selectors| - 1]);
      var sel := selectors[|selectors| - 1];
      if sel.value != "default" then prev[sel.tabId := TabRule(sel.value)] else prev
  }

  predicate AnyNonDefault(selectors: seq<Selector>) {
    exists i :: 0 <= i < |selectors| && selectors[i].value != "default"
  }

  method SaveTabRules(selectors: seq<Selector>) returns (tabRules: map<int, TabRule>, hasNonDefaultRules: bool)
    ensures tabRules == TabRuleMap(selectors)
    ensures hasNonDefaultRules <==> AnyNonDefault(selectors)
  {
    tabRules := map[];
    hasNonDefaultRules := false;
    for k := 0 to |selectors|
      invariant tabRules == TabRuleMap(selectors[..k])
      invariant hasNonDefaultRules <==> AnyNonDefault(selectors[..k])
    {
      assert selectors[..k + 1][..k] == selectors[..k];
      var tabId := selectors[k].tabId;
      var value := selectors[k].value;
      if value != "default" {
        tabRules := tabRules[tabId := TabRule(value)];
        hasNonDefaultRules := true;
      }
      if AnyNonDefault(selectors[..k + 1]) && !AnyNonDefault(selectors[..k]) {
        assert selectors[..k + 1][k] == selectors[k];
      }
      if AnyNonDefault(selectors[..k]) {
        var i :| 0 <= i < k && selectors[..k][i].value != "default";
        assert selectors[..k + 1][i] == selectors[..k][i];
      }
    }
    assert selectors[..|selectors|] == selectors;
  }

  /** The options: direct, default, then one per domain rule in list order. */
  lemma OptionsLayout(domainRules: seq<Rule>)
    ensures var opts := ProxyOptions(domainRules);
      && |opts| == |domainRules| + 2
      && opts[0].value == "direct" && opts[1].value == "default"
      && forall i :: 0 <= i < |domainRules| ==> opts[i + 2].value == "rule_" + NatToString(i)
  {
  }

  /** No two options share a value, so a stored value names one option. */
  lemma OptionValuesDistinct(domainRules: seq<Rule>)
    ensures var opts := ProxyOptions(domainRules);
      forall i, j :: 0 <= i < j < |opts| ==> opts[i].value != opts[j].value
  {
    var opts := ProxyOptions(domainRules);
    forall i, j | 0 <= i < j < |opts| ensures opts[i].value != opts[j].value {
      if i >= 2 {
        RuleValuesDistinct(i - 2, j - 2);
      } else if j >= 2 {
        RuleValueNotFixed(j - 2);
      } else {
        assert "direct"[2] != "default"[2];
      }
    }
  }

  lemma RuleValuesDistinct(i: nat, j: nat)
    requires i != j
    ensures RuleOptionValue(i) != RuleOptionValue(j)
  {
    RuleIndexRoundTrip(i);
    RuleIndexRoundTrip(j);
  }

  lemma RuleValueNotFixed(i: nat)
    ensures RuleOptionValue(i) != "direct" && RuleOptionValue(i) != "default"
  {
    assert RuleOptionValue(i)[0] == 'r';
  }

  /** Choosing the option of domain rule i for an http(s) tab makes the
      background use that rule for the tab's host. */
  lemma RuleOptionSelectsRule(domainRules: seq<Rule>, i: nat, tab: Tab, host: string, tabRules: map<int, TabRule>)
    requires i < |domainRules|
    requires tab.id in tabRules && tabRules[tab.id].value == ProxyOptions(domainRules)[i + 2].value
    requires tab.url != "" && StartsWith(tab.url, "http") && tab.hostname == Some(host)
    ensures TabPatternFor(tab, tabRules, domainRules) == [domainRules[i].(pattern := host)]
  {
    RuleTab(tab, tabRules, domainRules, host, i);
  }

  /** Selector i chose something other than "default" for tab `id`. */
  predicate SelectsFor(selectors: seq<Selector>, i: int, id: int) {
    0 <= i < |selectors| && selectors[i].tabId == id && selectors[i].value != "default"
  }

  /** Selector i is the last one that chose something for tab `id`. */
  predicate LastSelectionFor(selectors: seq<Selector>, i: int, id: int) {
    SelectsFor(selectors, i, id) && forall j :: i < j < |selectors| ==> !SelectsFor(selectors, j, id)
  }

  /** A tab gets an entry exactly when some selector for it holds a value
      other than "default". */
  lemma {:induction false} TabRuleMapKeys(selectors: seq<Selector>, id: int)
    ensures id in TabRuleMap(selectors) <==> exists i :: SelectsFor(selectors, i, id)
  {
    if selectors != [] {
      var init := selectors[..|selectors| - 1];
      TabRuleMapKeys(init, id);
      if exists i :: SelectsFor(selectors, i, id) {
        var i :| SelectsFor(selectors, i, id);
        if i < |init| {
          assert SelectsFor(init, i, id);
        }
      }
      if exists i :: SelectsFor(init, i, id) {
        var i :| SelectsFor(init, i, id);
        assert SelectsFor(selectors, i, id);
      }
      if selectors[|selectors| - 1].tabId == id && selectors[|selectors| - 1].value != "default" {
        assert SelectsFor(selectors, |selectors| - 1, id);
      }
    }
  }

  /** The entry holds the value of the last selector that chose something
      for the tab. */
  lemma {:induction false} TabRuleMapValue(selectors: seq<Selector>, id: int, i: int)
    requires LastSelectionFor(selectors, i, id)
    ensures id in TabRuleMap(selectors) && TabRuleMap(selectors)[id] == TabRule(selectors[i].value)
  {
    var init := selectors[..|selectors| - 1];
    if i < |init| {
      assert !SelectsFor(selectors, |selectors| - 1, id);
      assert LastSelectionFor(init, i, id) by {
        forall j | i < j < |init| ensures !SelectsFor(init, j, id) {
          assert !SelectsFor(selectors, j, id);
        }
      }
      TabRuleMapValue(init, id, i);
    }
  }

  /** `hasNonDefaultRules` is set exactly when the map is non-empty. */
  lemma NonDefaultIffNonEmpty(selectors: seq<Selector>)
    ensures AnyNonDefault(selectors) <==> TabRuleMap(selectors) != map[]
  {
    if AnyNonDefault(selectors) {
      var i :| 0 <= i < |selectors| && selectors[i].value != "default";
      assert SelectsFor(selectors, i, selectors[i].tabId);
      TabRuleMapKeys(selectors, selectors[i].tabId);
    }
    if !AnyNonDefault(selectors) {
      AllDefaultGivesEmpty(selectors);
    }
  }

  lemma {:induction false} AllDefaultGivesEmpty(selectors: seq<Selector>)
    requires !AnyNonDefault(selectors)
    ensures TabRuleMap(selectors) == map[]
  {
    if selectors != [] {
      var init := selectors[..|selectors| - 1];
      AllDefaultGivesEmpty(init);
    }
  }

  /** Deleting a domain rule does not renumber the stored tab choices: a tab
      that chose the option of rule j > k now gets the rule that followed it. */
  lemma DeleteShiftsTabChoices(domainRules: seq<Rule>, k: nat, j: nat, tab: Tab, host: string, tabRules: map<int, TabRule>)
    requires k < j < |domainRules|
    requires tab.id in tabRules && tabRules[tab.id].value == RuleOptionValue(j)
    requires tab.url != "" && StartsWith(tab.url, "http") && tab.hostname == Some(host)
    ensures j < |domainRules| - 1 ==>
      TabPatternFor(tab, tabRules, RemoveAt(domainRules, k)) == [domainRules[j + 1].(pattern := host)]
    ensures j == |domainRules| - 1 ==> TabPatternFor(tab, tabRules, RemoveAt(domainRules, k)) == []
  {
    RuleTab(tab, tabRules, RemoveAt(domainRules, k), host, j);
  }
}
