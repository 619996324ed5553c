/** The two forms of the popup and the checks they pass before anything is
    stored: the global settings form (`saveSettings`, js/popup.js:178-208)
    and the domain-rule form (`addDomainRule`, js/popup.js:330-363), with the
    way `editDomainRule` refills the rule form (js/popup.js:385-403). */
module PopupForms {
  import opened Wrappers
  import opened Text
  import opened Model

  /** The raw text of the settings form's fields. */
  datatype SettingsForm = SettingsForm(
    enabled: bool, proxyType: string, server: string, port: string,
    username: string, password: string, bypassList: string, mtprotoSecret: string)

  /** The raw text of the domain-rule form's fields. */
  datatype RuleForm = RuleForm(
    pattern: string, proxyType: string, server: string, port: string,
    username: string, password: string, mtprotoSecret: string)

  const MissingServerOrPort := "Please enter a valid server and port."
  const MissingSecret := "Please enter a secret key for MTProto proxy."
  const MissingPattern := "Please enter a domain pattern."

  /** `parseInt(text, 10)`, NaN included. */
  function PortOf(text: string): Port {
    match ParseInt(text)
    case Some(n) => Num(n)
    case None => NaN
  }

  /** `parseInt(text, 10) || 0`: NaN and 0 both become 0. */
  function PortOrZero(text: string): Port {
    match ParseInt(text)
    case Some(n) => Num(n)
    case None => Num(0)
  }

  function ReadSettings(f: SettingsForm): Settings {
    Settings(f.enabled, f.proxyType, Trim(f.server), PortOf(f.port), Trim(f.username),
             f.password, Trim(f.bypassList), Trim(f.mtprotoSecret))
  }

  /** The settings `saveSettings` writes, or the message it shows instead. */
  function SaveSettings(f: SettingsForm): Result<Settings, string> {
    var s := ReadSettings(f);
    if s.enabled && (s.server == "" || !s.port.Truthy()) && s.proxyType != "direct" then
      Err(MissingServerOrPort)
    else if s.enabled && ToLower(s.proxyType) == "mtproto" && s.mtprotoSecret == "" then
      Err(MissingSecret)
    else
      Ok(s)
  }

  function ReadRule(f: RuleForm): Rule {
    Rule(Trim(f.pattern), f.proxyType, Trim(f.server), PortOrZero(f.port), Trim(f.username),
         f.password, Trim(f.mtprotoSecret))
  }

  /** The rule `addDomainRule` appends, or the message it shows instead. */
  function CheckRule(f: RuleForm): Result<Rule, string> {
    var r := ReadRule(f);
    if r.pattern == "" then Err(MissingPattern)
    else if ToLower(r.proxyType) != "direct" && (r.server == "" || !r.port.Truthy()) then
      Err(MissingServerOrPort)
    else if ToLower(r.proxyType) == "mtproto" && r.mtprotoSecret == "" then
      Err(MissingSecret)
    else
      Ok(r)
  }

  /** A text field as `trim` leaves it. */
  predicate Trimmed(s: string) {
    Trim(s) == s
  }

  lemma TrimmedTrim(s: string)
    ensures Trimmed(Trim(s))
  {
    TrimIdempotent(s);
  }

  /** What every rule entered through the form satisfies. */
  predicate WellFormedRule(r: Rule) {
    && r.pattern != "" && Trimmed(r.pattern) && Trimmed(r.server)
    && Trimmed(r.username) && Trimmed(r.mtprotoSecret) && r.port.Num?
    && (ToLower(r.proxyType) != "direct" ==> r.server != "" && r.port.Truthy())
    && (ToLower(r.proxyType) == "mtproto" ==> r.mtprotoSecret != "")
  }

  /** The form `editDomainRule` fills from a stored rule; a port of 0 (or
      NaN) leaves the field empty. */
  function FormOf(r: Rule): RuleForm {
    RuleForm(r.pattern, r.proxyType, r.server, if r.port.Truthy() then r.port.Render() else "",
             r.username, r.password, r.mtprotoSecret)
  }

  /** Settings are refused exactly in the two cases, with the server check
      first; the type comparison there is exact, the mtproto one ignores case. */
  lemma SaveSettingsRefusals(f: SettingsForm)
    ensures SaveSettings(f) == Err(MissingServerOrPort) <==>
      f.enabled && (Trim(f.server) == "" || !PortOf(f.port).Truthy()) && f.proxyType != "direct"
    ensures SaveSettings(f) == Err(MissingSecret) <==>
      && f.enabled && ToLower(f.proxyType) == "mtproto" && Trim(f.mtprotoSecret) == ""
      && !((Trim(f.server) == "" || !PortOf(f.port).Truthy()) && f.proxyType != "direct")
  {
  }

  /** Stored settings that are enabled with a proxy type other than direct
      always have a server and a usable port, and an mtproto secret where
      needed; their text fields carry no surrounding white space. Disabled
      settings are stored whatever the fields hold. */
  lemma SavedSettingsUsable(f: SettingsForm)
    ensures SaveSettings(f).Ok? ==>
      var s := SaveSettings(f).value;
      && s == ReadSettings(f)
      && (s.enabled && s.proxyType != "direct" ==> s.server != "" && s.port.Num? && s.port.n != 0)
      && (s.enabled && ToLower(s.proxyType) == "mtproto" ==> s.mtprotoSecret != "")
      && Trimmed(s.server) && Trimmed(s.username) && Trimmed(s.bypassList) && Trimmed(s.mtprotoSecret)
    ensures !f.enabled ==> SaveSettings(f) == Ok(ReadSettings(f))
  {
    SaveSettingsAccepts(f);
    if SaveSettings(f).Ok? {
      assert SaveSettings(f).value == ReadSettings(f);
      TrimmedTrim(f.server);
      TrimmedTrim(f.username);
      TrimmedTrim(f.bypassList);
      TrimmedTrim(f.mtprotoSecret);
    }
  }

  lemma SaveSettingsAccepts(f: SettingsForm)
    ensures SaveSettings(f).Ok? ==> SaveSettings(f) == Ok(ReadSettings(f))
    ensures !f.enabled ==> SaveSettings(f) == Ok(ReadSettings(f))
  {
  }

  /** The three messages are different texts. */
  lemma MessagesDistinct()
    ensures MissingPattern != MissingServerOrPort && MissingPattern != MissingSecret
    ensures MissingServerOrPort != MissingSecret
  {
    assert MissingPattern[15] == 'd';
    assert MissingServerOrPort[15] == 'v';
    assert MissingSecret[15] == 's';
  }

  /** The rule form's type needs a server and port it does not have. */
  predicate LacksServerOrPort(f: RuleForm) {
    ToLower(f.proxyType) != "direct" && (Trim(f.server) == "" || !PortOrZero(f.port).Truthy())
  }

  /** The rule form is for mtproto and has no secret. */
  predicate LacksSecret(f: RuleForm) {
    ToLower(f.proxyType) == "mtproto" && Trim(f.mtprotoSecret) == ""
  }

  /** The three refusals of `addDomainRule`, in their order, and acceptance
      of every form that passes all three. */
  lemma CheckRuleRefusals(f: RuleForm)
    ensures CheckRule(f) == Err(MissingPattern) <==> Trim(f.pattern) == ""
    ensures CheckRule(f) == Err(MissingServerOrPort) <==> Trim(f.pattern) != "" && LacksServerOrPort(f)
    ensures CheckRule(f) == Err(MissingSecret) <==>
      Trim(f.pattern) != "" && !LacksServerOrPort(f) && LacksSecret(f)
    ensures CheckRule(f).Ok? <==> Trim(f.pattern) != "" && !LacksServerOrPort(f) && !LacksSecret(f)
    ensures CheckRule(f).Ok? ==> CheckRule(f) == Ok(ReadRule(f))
  {
    var r := ReadRule(f);
    assert r.pattern == Trim(f.pattern) && r.proxyType == f.proxyType;
    assert LacksServerOrPort(f) <==> ToLower(r.proxyType) != "direct" && (r.server == "" || !r.port.Truthy());
    assert LacksSecret(f) <==> ToLower(r.proxyType) == "mtproto" && r.mtprotoSecret == "";
    MessagesDistinct();
  }

  /** Every accepted rule is well formed. */
  lemma AcceptedRulesWellFormed(f: RuleForm)
    ensures CheckRule(f).Ok? ==> WellFormedRule(CheckRule(f).value)
  {
    if CheckRule(f).Ok? {
      CheckRuleRefusals(f);
      var r := ReadRule(f);
      assert CheckRule(f).value == r;
      TrimmedTrim(f.pattern);
      TrimmedTrim(f.server);
      TrimmedTrim(f.username);
      TrimmedTrim(f.mtprotoSecret);
    }
  }

  lemma ParseEmptyIsNaN()
    ensures ParseInt("") == None
  {
    assert TrimStart("") == "";
    assert LeadingDigits("") == "";
  }

  /** Editing a well-formed rule and adding the refilled form back, unchanged,
      gives the same rule: the accepted rules are exactly the well-formed ones. */
  lemma EditThenAddRestores(r: Rule)
    requires WellFormedRule(r)
    ensures CheckRule(FormOf(r)) == Ok(r)
  {
    var f := FormOf(r);
    if r.port.Truthy() {
      ParseIntOfIntToString(r.port.n);
      assert PortOrZero(f.port) == r.port;
    } else {
      ParseEmptyIsNaN();
      assert PortOrZero(f.port) == r.port;
    }
    assert ReadRule(f) == r;
  }
}
