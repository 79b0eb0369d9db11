/** JSON values as the parser sees them, and the JavaScript conversions it applies to them. */
module Json {
  import opened Prelude

  datatype Json =
    | JNull
    | JBool(b: bool)
    | JNum(n: real)
    | JStr(s: string)
    | JArr(items: seq<Json>)
    | JObj(fields: map<string, Json>)

  /**
   * What is left to the platform: `JSON.parse` (`None` is a SyntaxError), `JSON.stringify`,
   * `String(...)` of a value that is no string, and the reading of a usage record.
   */
  datatype Platform = Platform(
    parse: string -> Option<Json>,
    stringify: Json -> string,
    show: Json -> string,
    usage: Option<Json> -> Option<Json>)

  /** A property read; `None` is `undefined`. */
  function Field(j: Json, name: string): Option<Json> {
    if j.JObj? && name in j.fields then Some(j.fields[name]) else None
  }

  predicate IsObject(j: Option<Json>) {
    j.Some? && j.value.JObj?
  }

  predicate Truthy(j: Option<Json>) {
    match j
    case None => false
    case Some(JNull) => false
    case Some(JBool(b)) => b
    case Some(JNum(n)) => n != 0.0
    case Some(JStr(s)) => s != ""
    case Some(_) => true
  }

  function ToText(p: Platform, j: Json): string {
    if j.JStr? then j.s else p.show(j)
  }

  /** `String(a || b || c || fallback)`. */
  function FirstText(p: Platform, a: Option<Json>, b: Option<Json>, c: Option<Json>, fallback: string): string {
    if Truthy(a) then ToText(p, a.value)
    else if Truthy(b) then ToText(p, b.value)
    else if Truthy(c) then ToText(p, c.value)
    else fallback
  }

  /** What `trim` removes: the white space and line terminators of ECMAScript. */
  predicate IsSpace(c: char) {
    || c == ' ' || '\t' <= c <= '\r' || c == '\U{00A0}' || c == '\U{FEFF}' || c == '\U{1680}'
    || '\U{2000}' <= c <= '\U{200A}' || c == '\U{2028}' || c == '\U{2029}'
    || c == '\U{202F}' || c == '\U{205F}' || c == '\U{3000}'
  }

  function TrimStart(s: string): string {
    if s != "" && IsSpace(s[0]) then TrimStart(s[1..]) else s
  }

  function TrimEnd(s: string): string {
    if s != "" && IsSpace(s[|s| - 1]) then TrimEnd(s[..|s| - 1]) else s
  }

  function Trim(s: string): string {
    TrimEnd(TrimStart(s))
  }

  predicate Blank(s: string) {
    Trim(s) == ""
  }

  function Lines(s: string): seq<string> {
    LinesFrom(s, 0)
  }

  /** `s.split('\n')`, from position `i` of the current line on. */
  function LinesFrom(s: string, i: nat): seq<string>
    requires i <= |s|
    decreases |s|, |s| - i
  {
    if i == |s| then [s]
    else if s[i] == '\n' then [s[..i]] + LinesFrom(s[i + 1..], 0)
    else LinesFrom(s, i + 1)
  }
}
