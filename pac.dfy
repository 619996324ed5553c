/** The generated PAC script as a structured decision list
    (`generateAndApplyPacFile`, background.js:419-613). Instead of the text of
    `FindProxyForURL` the model keeps its clauses: each is a disjunction of
    tests on the host and the directive it returns. Tab patterns come first,
    then domain rules in list order, then a default clause. Every string
    spliced into the script passes through the ASCII filter of
    background.js:627-632; since that filter works character by character
    (Ascii.StripDistributes) and the template text is ASCII, it is applied
    here to each spliced string. */
module Pac {
  import opened Wrappers
  import opened Text
  import opened Model
  import opened HostMatch
  import opened Ascii
  import opened Directives

  /** One test of a clause, as the script writes it. */
  datatype Test =
    | HostIs(name: string)                 // host === "name"
    | HostEndsWith(suffix: string)         // host.endsWith("suffix")
    | MatchesPattern(pattern: string)      // hostMatchesPattern(host, "pattern")

  /** `if (test || test || ...) { return "result"; }` */
  datatype Clause = Clause(tests: seq<Test>, result: string)

  /** The clauses in script order and the value of the final `return`. */
  datatype PacProgram = PacProgram(clauses: seq<Clause>, fallback: string)

  predicate TestHolds(t: Test, host: string) {
    match t
    case HostIs(name) => host == name
    case HostEndsWith(suffix) => EndsWith(host, suffix)
    case MatchesPattern(pattern) => HostMatchesPattern(host, pattern)
  }

  predicate AnyHolds(tests: seq<Test>, host: string) {
    tests != [] && (TestHolds(tests[0], host) || AnyHolds(tests[1..], host))
  }

  /** The directive of the first clause whose condition holds, if any. */
  function Evaluate(clauses: seq<Clause>, host: string): Option<string> {
    if clauses == [] then None
    else if AnyHolds(clauses[0].tests, host) then Some(clauses[0].result)
    else Evaluate(clauses[1..], host)
  }

  /** What the script's `FindProxyForURL(url, host)` returns (the url is unused). */
  function FindProxyForURL(p: PacProgram, host: string): string {
    Evaluate(p.clauses, host).GetOr(p.fallback)
  }

  // How the script is assembled from the rules.

  /** A rule is skipped when its pattern or its proxy type is empty. */
  predicate Usable(r: Rule) {
    r.pattern != "" && r.proxyType != ""
  }

  predicate IsTelegramPattern(pattern: string) {
    Contains(pattern, "telegram.org") || Contains(pattern, "t.me")
  }

  /** An mtproto rule whose pattern names Telegram gets the expanded clause. */
  predicate TelegramMtproto(r: Rule) {
    ToLower(r.proxyType) == "mtproto" && IsTelegramPattern(r.pattern)
  }

  /** The clause a tab pattern contributes (background.js:443-505): exact
      host, or the Telegram form; none when the type gives no directive. */
  function TabClause(t: Rule): seq<Clause> {
    if !Usable(t) then []
    else if TelegramMtproto(t) then
      [Clause([HostIs(StripNonAscii(t.pattern)), HostIs("web.telegram.org"), HostEndsWith(".t.me")],
               StripNonAscii("SOCKS5 " + Endpoint(t.server, t.port)))]
    else
      match EncodeRule(t)
      case Some(d) => [Clause([HostIs(StripNonAscii(t.pattern))], StripNonAscii(d))]
      case None => []
  }

  /** The clause a domain rule contributes (background.js:512-570): a pattern
      match, or the Telegram form; an unrecognised type still gets its clause,
      returning the text "undefined". */
  function DomainClause(r: Rule): seq<Clause> {
    if !Usable(r) then []
    else if TelegramMtproto(r) then
      [Clause([MatchesPattern(StripNonAscii(r.pattern)),
               HostIs("telegram.org"), HostEndsWith(".telegram.org"),
               HostIs("t.me"), HostEndsWith(".t.me")],
              StripNonAscii("SOCKS5 " + Endpoint(r.server, r.port)))]
    else
      [Clause([MatchesPattern(StripNonAscii(r.pattern))], StripNonAscii(EncodeRule(r).GetOr("undefined")))]
  }

  /** The clauses of a list of rules, one rule after another. */
  function ClausesOf(rules: seq<Rule>, clauseOf: Rule -> seq<Clause>): seq<Clause> {
    if rules == [] then []
    else ClausesOf(rules[..|rules| - 1], clauseOf) + clauseOf(rules[|rules| - 1])
  }

  function TabClauses(tabs: seq<Rule>): seq<Clause> {
    ClausesOf(tabs, TabClause)
  }

  function DomainClauses(rules: seq<Rule>): seq<Clause> {
    ClausesOf(rules, DomainClause)
  }

  /** The constant `useDirectByDefault` of the source. */
  const UseDirectByDefault := true

  /** The value of the final `return` (background.js:572-609). */
  function DefaultResult(s: Settings): string {
    if s.enabled && !UseDirectByDefault then DefaultDirective(s) else "DIRECT"
  }

  /** The script for the given settings, domain rules and tab patterns. */
  function PacFor(s: Settings, rules: seq<Rule>, tabs: seq<Rule>): PacProgram {
    PacProgram(TabClauses(tabs) + DomainClauses(rules), StripNonAscii(DefaultResult(s)))
  }

  /** The assembly loops: tab patterns, then domain rules, appended clause by
      clause as the source appends text to `pacScript`. */
  method BuildPacProgram(s: Settings, rules: seq<Rule>, tabs: seq<Rule>) returns (p: PacProgram)
    ensures p == PacFor(s, rules, tabs)
  {
    var clauses: seq<Clause> := [];
    for i := 0 to |tabs|
      invariant clauses == TabClauses(tabs[..i])
    {
      assert tabs[..i + 1][..i] == tabs[..i];
      clauses := clauses + TabClause(tabs[i]);
    }
    assert tabs[..|tabs|] == tabs;
    for j := 0 to |rules|
      invariant clauses == TabClauses(tabs) + DomainClauses(rules[..j])
    {
      assert rules[..j + 1][..j] == rules[..j];
      clauses := clauses + DomainClause(rules[j]);
    }
    assert rules[..|rules|] == rules;
    var fallback: string;
    if s.enabled && !UseDirectByDefault {
      fallback := DefaultDirective(s);
    } else {
      fallback := "DIRECT";
    }
    p := PacProgram(clauses, StripNonAscii(fallback));
  }

  // First match wins.

  lemma {:induction false} EvaluateAppend(a: seq<Clause>, b: seq<Clause>, host: string)
    ensures Evaluate(a + b, host) ==
      if Evaluate(a, host).Some? then Evaluate(a, host) else Evaluate(b, host)
  {
    if a == [] {
      assert a + b == b;
    } else {
      assert (a + b)[0] == a[0];
      assert (a + b)[1..] == a[1..] + b;
      EvaluateAppend(a[1..], b, host);
    }
  }

  /** The reference reading of a decision list: the result is that of the
      first clause whose condition holds, and there is none exactly when no
      condition holds. */
  lemma {:induction false} EvaluateIsFirstMatch(cs: seq<Clause>, host: string)
    ensures Evaluate(cs, host).None? <==> forall i :: 0 <= i < |cs| ==> !AnyHolds(cs[i].tests, host)
    ensures Evaluate(cs, host).Some? ==>
      exists i :: 0 <= i < |cs| && AnyHolds(cs[i].tests, host) && cs[i].result == Evaluate(cs, host).value
        && forall j :: 0 <= j < i ==> !AnyHolds(cs[j].tests, host)
  {
    if cs != [] {
      EvaluateIsFirstMatch(cs[1..], host);
      if !AnyHolds(cs[0].tests, host) {
        if Evaluate(cs, host).Some? {
          var k :| 0 <= k < |cs[1..]| && AnyHolds(cs[1..][k].tests, host)
            && cs[1..][k].result == Evaluate(cs, host).value
            && forall j :: 0 <= j < k ==> !AnyHolds(cs[1..][j].tests, host);
          assert forall j :: 0 <= j < k + 1 ==> !AnyHolds(cs[j].tests, host) by {
            forall j | 0 <= j < k + 1 ensures !AnyHolds(cs[j].tests, host) {
              if j > 0 {
                assert cs[j] == cs[1..][j - 1];
              }
            }
          }
          assert cs[k + 1] == cs[1..][k];
        } else {
          forall i | 0 <= i < |cs| ensures !AnyHolds(cs[i].tests, host) {
            if i > 0 {
              assert cs[i] == cs[1..][i - 1];
            }
          }
        }
      }
    }
  }

  lemma {:induction false} ClausesOfAppend(a: seq<Rule>, b: seq<Rule>, f: Rule -> seq<Clause>)
    ensures ClausesOf(a + b, f) == ClausesOf(a, f) + ClausesOf(b, f)
    decreases |b|
  {
    if b == [] {
      assert a + b == a;
    } else {
      var last := b[|b| - 1];
      assert (a + b)[..|a + b| - 1] == a + b[..|b| - 1];
      ClausesOfAppend(a, b[..|b| - 1], f);
    }
  }

  lemma {:induction false} NoRuleApplies(rules: seq<Rule>, f: Rule -> seq<Clause>, host: string)
    requires forall j :: 0 <= j < |rules| ==> Evaluate(f(rules[j]), host).None?
    ensures Evaluate(ClausesOf(rules, f), host).None?
  {
    if rules != [] {
      NoRuleApplies(rules[..|rules| - 1], f, host);
      EvaluateAppend(ClausesOf(rules[..|rules| - 1], f), f(rules[|rules| - 1]), host);
    }
  }

  /** Rules are tried in list order: the first rule whose clause holds decides. */
  lemma FirstApplicableRuleWins(rules: seq<Rule>, f: Rule -> seq<Clause>, i: nat, host: string)
    requires i < |rules|
    requires Evaluate(f(rules[i]), host).Some?
    requires forall j :: 0 <= j < i ==> Evaluate(f(rules[j]), host).None?
    ensures Evaluate(ClausesOf(rules, f), host) == Evaluate(f(rules[i]), host)
  {
    var before, after := rules[..i], rules[i + 1..];
    assert rules == before + [rules[i]] + after;
    ClausesOfAppend(before + [rules[i]], after, f);
    ClausesOfAppend(before, [rules[i]], f);
    assert ClausesOf([rules[i]], f) == f(rules[i]) by {
      assert [rules[i]][..0] == [];
    }
    NoRuleApplies(before, f, host);
    EvaluateAppend(ClausesOf(before, f), f(rules[i]), host);
    EvaluateAppend(ClausesOf(before, f) + f(rules[i]), ClausesOf(after, f), host);
  }

  /** The final clause always returns DIRECT, whatever the settings, because
      `useDirectByDefault` is true. */
  lemma DefaultAlwaysDirect(s: Settings, rules: seq<Rule>, tabs: seq<Rule>)
    ensures PacFor(s, rules, tabs).fallback == "DIRECT"
  {
    assert IsAscii("DIRECT");
  }

  /** Tab patterns take priority over domain rules; when no clause matches the
      answer is DIRECT. */
  lemma TabsBeforeDomains(s: Settings, rules: seq<Rule>, tabs: seq<Rule>, host: string)
    ensures FindProxyForURL(PacFor(s, rules, tabs), host) ==
      match Evaluate(TabClauses(tabs), host)
      case Some(d) => d
      case None => Evaluate(DomainClauses(rules), host).GetOr("DIRECT")
  {
    DefaultAlwaysDirect(s, rules, tabs);
    EvaluateAppend(TabClauses(tabs), DomainClauses(rules), host);
  }

  // What each kind of clause tests.

  /** A tab pattern (other than the Telegram form) matches only the host equal
      to its pattern. */
  lemma TabPatternIsExactHost(t: Rule, host: string)
    requires Usable(t) && !TelegramMtproto(t) && EncodeRule(t).Some?
    ensures Evaluate(TabClause(t), host) ==
      if host == StripNonAscii(t.pattern) then Some(StripNonAscii(EncodeRule(t).value)) else None
  {
    var c := TabClause(t)[0];
    SingleClause(c, host);
    assert c.tests[1..] == [];
  }

  /** A tab pattern is dropped when it is unusable or its type gives no directive. */
  lemma TabPatternWithoutDirective(t: Rule)
    requires !Usable(t) || (EncodeRule(t).None? && !TelegramMtproto(t))
    ensures TabClause(t) == []
  {
  }

  /** The Telegram form of a tab pattern: its own host, web.telegram.org, or
      any host ending in ".t.me". */
  lemma TelegramTabClause(t: Rule, host: string)
    requires Usable(t) && TelegramMtproto(t)
    ensures Evaluate(TabClause(t), host).Some? <==>
      host == StripNonAscii(t.pattern) || host == "web.telegram.org" || EndsWith(host, ".t.me")
    ensures Evaluate(TabClause(t), host).Some? ==>
      Evaluate(TabClause(t), host).value == StripNonAscii(EncodeRule(t).value)
  {
    EncodeTable(t);
    var c := TabClause(t)[0];
    SingleClause(c, host);
    AnyHoldsUnfolded(c.tests, host);
    var want := host == StripNonAscii(t.pattern) || host == "web.telegram.org" || EndsWith(host, ".t.me");
    if want {
      var k := if host == StripNonAscii(t.pattern) then 0 else if host == "web.telegram.org" then 1 else 2;
      assert TestHolds(c.tests[k], host);
    }
    if AnyHolds(c.tests, host) {
      var k :| 0 <= k < |c.tests| && TestHolds(c.tests[k], host);
      assert k == 0 || k == 1 || k == 2;
    }
  }

  /** An ordinary domain rule matches through `hostMatchesPattern`; a rule of
      unrecognised type answers "undefined". */
  lemma DomainRuleMatchesPattern(r: Rule, host: string)
    requires Usable(r) && !TelegramMtproto(r)
    ensures Evaluate(DomainClause(r), host) ==
      if HostMatchesPattern(host, StripNonAscii(r.pattern))
      then Some(StripNonAscii(EncodeRule(r).GetOr("undefined")))
      else None
  {
    var c := DomainClause(r)[0];
    SingleClause(c, host);
    assert c.tests[1..] == [];
  }

  /** The Telegram form of a domain rule also covers telegram.org, t.me and
      all their subdomains. */
  lemma TelegramDomainClause(r: Rule, host: string)
    requires Usable(r) && TelegramMtproto(r)
    ensures Evaluate(DomainClause(r), host).Some? <==>
      HostMatchesPattern(host, StripNonAscii(r.pattern))
      || host == "telegram.org" || EndsWith(host, ".telegram.org")
      || host == "t.me" || EndsWith(host, ".t.me")
    ensures Evaluate(DomainClause(r), host).Some? ==>
      Evaluate(DomainClause(r), host).value == StripNonAscii(EncodeRule(r).value)
  {
    EncodeTable(r);
    var c := DomainClause(r)[0];
    SingleClause(c, host);
    AnyHoldsUnfolded(c.tests, host);
    if HostMatchesPattern(host, StripNonAscii(r.pattern)) || host == "telegram.org" || EndsWith(host, ".telegram.org")
      || host == "t.me" || EndsWith(host, ".t.me")
    {
      var k :=
        if HostMatchesPattern(host, StripNonAscii(r.pattern)) then 0
        else if host == "telegram.org" then 1
        else if EndsWith(host, ".telegram.org") then 2
        else if host == "t.me" then 3
        else 4;
      assert TestHolds(c.tests[k], host);
    }
    if AnyHolds(c.tests, host) {
      var k :| 0 <= k < |c.tests| && TestHolds(c.tests[k], host);
      assert k == 0 || k == 1 || k == 2 || k == 3 || k == 4;
    }
  }

  /** A disjunction holds when one of its tests does. */
  lemma {:induction false} AnyHoldsUnfolded(tests: seq<Test>, host: string)
    ensures AnyHolds(tests, host) <==> exists i :: 0 <= i < |tests| && TestHolds(tests[i], host)
  {
    if tests != [] {
      AnyHoldsUnfolded(tests[1..], host);
      if AnyHolds(tests[1..], host) {
        var i :| 0 <= i < |tests[1..]| && TestHolds(tests[1..][i], host);
        assert tests[1..][i] == tests[i + 1];
      }
      forall i | 1 <= i < |tests| && TestHolds(tests[i], host)
        ensures AnyHolds(tests[1..], host)
      {
        assert tests[1..][i - 1] == tests[i];
      }
    }
  }

  lemma SingleClause(c: Clause, host: string)
    ensures Evaluate([c], host) == if AnyHolds(c.tests, host) then Some(c.result) else None
  {
    assert [c][1..] == [];
  }

  /** Rules with an empty pattern or an empty type contribute nothing. */
  lemma UnusableRulesSkipped(r: Rule)
    requires !Usable(r)
    ensures DomainClause(r) == [] && TabClause(r) == []
  {
  }

  /** Every answer the script returns is ASCII. */
  lemma ProgramIsAscii(s: Settings, rules: seq<Rule>, tabs: seq<Rule>, host: string)
    ensures IsAscii(FindProxyForURL(PacFor(s, rules, tabs), host))
  {
    var p := PacFor(s, rules, tabs);
    AllResultsAscii(tabs, TabClause);
    AllResultsAscii(rules, DomainClause);
    EvaluateResultAscii(p.clauses, host);
  }

  lemma {:induction false} AllResultsAscii(rules: seq<Rule>, f: Rule -> seq<Clause>)
    requires f == TabClause || f == DomainClause
    ensures forall i :: 0 <= i < |ClausesOf(rules, f)| ==> IsAscii(ClausesOf(rules, f)[i].result)
  {
    if rules != [] {
      AllResultsAscii(rules[..|rules| - 1], f);
    }
  }

  lemma {:induction false} EvaluateResultAscii(cs: seq<Clause>, host: string)
    requires forall i :: 0 <= i < |cs| ==> IsAscii(cs[i].result)
    ensures Evaluate(cs, host).Some? ==> IsAscii(Evaluate(cs, host).value)
  {
    if cs != [] && !AnyHolds(cs[0].tests, host) {
      EvaluateResultAscii(cs[1..], host);
    }
  }
}
