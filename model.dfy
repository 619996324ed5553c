/** The records the extension stores and passes around. Every field the
    source reads is here; JavaScript's loose values are made explicit
    (`NaN` ports, a hostname that the URL parser could not produce). */
module Model {
  import opened Wrappers
  import opened Text

  /** A port as the popup leaves it: the result of `parseInt`, which may be `NaN`. */
  datatype Port = Num(n: int) | NaN {
    /** JavaScript truthiness: `0` and `NaN` are falsy. */
    predicate Truthy() {
      Num? && n != 0
    }

    /** Template-literal rendering `${port}`. */
    function Render(): string {
      match this
      case Num(k) => IntToString(k)
      case NaN => "NaN"
    }
  }

  /** A domain rule, and also a materialised tab pattern (the same record
      with `pattern` set to a tab's hostname). */
  datatype Rule = Rule(
    pattern: string,
    proxyType: string,
    server: string,
    port: Port,
    username: string,
    password: string,
    mtprotoSecret: string)

  /** The global settings record of the popup. */
  datatype Settings = Settings(
    enabled: bool,
    proxyType: string,
    server: string,
    port: Port,
    username: string,
    password: string,
    bypassList: string,
    mtprotoSecret: string)

  /** A browser tab: its id, its URL, and the hostname `new URL(url)` yields
      (`None` when that constructor throws). */
  datatype Tab = Tab(id: int, url: string, hostname: Option<string>)

  /** The stored choice for one tab: "direct", "default" or "rule_<i>". */
  datatype TabRule = TabRule(value: string)
}
