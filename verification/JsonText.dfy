/**
 JSON texts as sections 2 to 7 of RFC 8259 print them, with arbitrary whitespace between tokens.
 The whitespace is part of the syntax tree, so that one tree is one text.
 */
module JsonText {

  /** One unit of a string: an unescaped character, a two-character escape, or \uXXXX. */
  datatype Unit = Plain(c: char) | Escape(c: char) | Hex(digits: string)

  datatype Value =
    | Text(units: seq<Unit>)
    | Literal(text: string)  // number, true, false or null
    | EmptyArray(ws: string)
    | Array(elems: Elements)
    | EmptyObject(ws: string)
    | Object(members: Members)

  datatype Elements =
    | LastElement(before: string, v: Value, after: string)
    | MoreElements(before: string, v: Value, after: string, tail: Elements)

  datatype Members =
    | LastMember(m: Member)
    | MoreMembers(m: Member, tail: Members)

  datatype Member = Member(beforeKey: string, key: seq<Unit>, afterKey: string, before: string, v: Value, after: string)

  predicate IsBlank(c: char) {
    c == ' ' || c == '\t' || c == '\n' || c == '\r'
  }

  predicate Blank(w: string) {
    forall i :: 0 <= i < |w| ==> IsBlank(w[i])
  }

  predicate IsLiteralChar(c: char) {
    ('0' <= c <= '9') || ('a' <= c <= 'z') || c == 'E' || c == '+' || c == '-' || c == '.'
  }

  predicate IsHexDigit(c: char) {
    ('0' <= c <= '9') || ('a' <= c <= 'f') || ('A' <= c <= 'F')
  }

  predicate UnitOk(u: Unit) {
    match u
    case Plain(c) => c != '"' && c != '\\' && ' ' <= c
    case Escape(c) => c in "\"\\/bfnrt"
    case Hex(digits) => |digits| == 4 && forall i :: 0 <= i < 4 ==> IsHexDigit(digits[i])
  }

  predicate UnitsOk(us: seq<Unit>) {
    forall i :: 0 <= i < |us| ==> UnitOk(us[i])
  }

  predicate WellFormed(v: Value) {
    match v
    case Text(us) => UnitsOk(us)
    case Literal(text) => text != [] && forall i :: 0 <= i < |text| ==> IsLiteralChar(text[i])
    case EmptyArray(ws) => Blank(ws)
    case Array(elems) => ElementsOk(elems)
    case EmptyObject(ws) => Blank(ws)
    case Object(members) => MembersOk(members)
  }

  predicate ElementsOk(es: Elements) {
    Blank(es.before) && WellFormed(es.v) && Blank(es.after) && (es.MoreElements? ==> ElementsOk(es.tail))
  }

  predicate MembersOk(ms: Members) {
    MemberOk(ms.m) && (ms.MoreMembers? ==> MembersOk(ms.tail))
  }

  predicate MemberOk(m: Member) {
    Blank(m.beforeKey) && UnitsOk(m.key) && Blank(m.afterKey) && Blank(m.before) && WellFormed(m.v) && Blank(m.after)
  }

  /** `raw` prints quotes inside strings as they are, as a careless producer does. */
  function PrintUnit(u: Unit, raw: bool): string {
    match u
    case Plain(c) => [c]
    case Escape(c) => if raw && c == '"' then "\"" else ['\\', c]
    case Hex(digits) => "\\u" + digits
  }

  function PrintUnits(us: seq<Unit>, raw: bool): string {
    if us == [] then [] else PrintUnit(us[0], raw) + PrintUnits(us[1..], raw)
  }

  function PrintText(us: seq<Unit>, raw: bool): string {
    "\"" + PrintUnits(us, raw) + "\""
  }

  function Print(v: Value, raw: bool): string {
    match v
    case Text(us) => PrintText(us, raw)
    case Literal(text) => text
    case EmptyArray(ws) => "[" + ws + "]"
    case Array(elems) => "[" + PrintElements(elems, raw) + "]"
    case EmptyObject(ws) => "{" + ws + "}"
    case Object(members) => "{" + PrintMembers(members, raw) + "}"
  }

  function PrintElements(es: Elements, raw: bool): string {
    es.before + Print(es.v, raw) + es.after + (if es.MoreElements? then "," + PrintElements(es.tail, raw) else "")
  }

  function PrintMembers(ms: Members, raw: bool): string {
    PrintMember(ms.m, raw) + (if ms.MoreMembers? then "," + PrintMembers(ms.tail, raw) else "")
  }

  function PrintMember(m: Member, raw: bool): string {
    PrintKey(m, raw) + (m.before + Print(m.v, raw) + m.after)
  }

  function PrintKey(m: Member, raw: bool): string {
    m.beforeKey + PrintText(m.key, raw) + m.afterKey + ":"
  }
}
