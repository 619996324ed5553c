/** The ordered domain-rule list as the popup edits it: `addDomainRule`
    pushes an accepted rule (js/popup.js:330-363), `deleteDomainRule`
    splices one out (js/popup.js:412-422), and `editDomainRule` copies a
    rule into the form and deletes it (js/popup.js:385-410). */
module PopupRules {
  import opened Wrappers
  import opened Model
  import opened PopupForms

  /** `rules.splice(k, 1)` for an index from the rule list's buttons. */
  function RemoveAt(rules: seq<Rule>, k: nat): (out: seq<Rule>)
    ensures k < |rules| ==> |out| == |rules| - 1
    ensures k < |rules| ==> forall i :: 0 <= i < k ==> out[i] == rules[i]
    ensures k < |rules| ==> forall i :: k <= i < |out| ==> out[i] == rules[i + 1]
    ensures k >= |rules| ==> out == rules
  {
    if k < |rules| then rules[..k] + rules[k + 1..] else rules
  }

  /** The stored `domainRules` array. */
  class RuleList {
    var rules: seq<Rule>

    constructor(initial: seq<Rule>)
      ensures rules == initial
    {
      rules := initial;
    }

    method AddDomainRule(f: RuleForm) returns (outcome: Result<Rule, string>)
      modifies this
      ensures outcome == CheckRule(f)
      ensures outcome.Ok? ==> rules == old(rules) + [outcome.value]
      ensures outcome.Err? ==> rules == old(rules)
    {
      outcome := CheckRule(f);
      if outcome.Ok? {
        rules := rules + [outcome.value];
      }
    }

    method DeleteDomainRule(index: nat)
      modifies this
      ensures rules == RemoveAt(old(rules), index)
    {
      if index < |rules| {
        rules := rules[..index] + rules[index + 1..];
      }
    }

    /** Returns the refilled form; `None` when there is no rule at `index`,
        in which case nothing changes. */
    method EditDomainRule(index: nat) returns (form: Option<RuleForm>)
      modifies this
      ensures index < |old(rules)| ==> form == Some(FormOf(old(rules)[index]))
      ensures index >= |old(rules)| ==> form == None
      ensures rules == RemoveAt(old(rules), index)
    {
      if index >= |rules| {
        return None;
      }
      form := Some(FormOf(rules[index]));
      DeleteDomainRule(index);
    }
  }

  /** Adding keeps every earlier rule at its index and puts the new one last. */
  lemma AddKeepsEarlierRules(rules: seq<Rule>, f: RuleForm)
    requires CheckRule(f).Ok?
    ensures var out := rules + [CheckRule(f).value];
      |out| == |rules| + 1 && out[..|rules|] == rules && out[|rules|] == ReadRule(f)
  {
    CheckRuleRefusals(f);
  }

  /** Deleting removes one occurrence of the rule and nothing else. */
  lemma RemoveAtMultiset(rules: seq<Rule>, k: nat)
    requires k < |rules|
    ensures multiset(RemoveAt(rules, k)) + multiset{rules[k]} == multiset(rules)
  {
    assert rules == rules[..k] + [rules[k]] + rules[k + 1..];
  }

  /** Editing a well-formed rule and adding the untouched form back leaves the
      same rules, with the edited one moved to the end. */
  lemma EditThenAddMovesToEnd(rules: seq<Rule>, k: nat)
    requires k < |rules| && WellFormedRule(rules[k])
    ensures CheckRule(FormOf(rules[k])) == Ok(rules[k])
    ensures multiset(RemoveAt(rules, k) + [rules[k]]) == multiset(rules)
    ensures RemoveAt(rules, k) + [rules[k]] == rules[..k] + rules[k + 1..] + [rules[k]]
  {
    EditThenAddRestores(rules[k]);
    RemoveAtMultiset(rules, k);
  }
}
