/**
 The quote repair on printed JSON: it never changes a correct text, and it turns a text whose
 string quotes were left unescaped into the correct one exactly when no such quote is followed by
 a delimiter.
 */
module JsonRecovery {
  import opened JsonText
  import opened JsonRepair

  /** A quote unit printed raw is safe if what follows it inside the string does not look like the
      continuation of the enclosing text. */
  predicate SafeUnits(us: seq<Unit>) {
    us == [] || ((us[0] == Escape('"') ==> !Closes(PrintUnits(us[1..], true) + "\"")) && SafeUnits(us[1..]))
  }

  predicate Safe(v: Value) {
    match v
    case Text(us) => SafeUnits(us)
    case Array(es) => SafeElements(es)
    case Object(ms) => SafeMembers(ms)
    case _ => true
  }

  predicate SafeElements(es: Elements) {
    Safe(es.v) && (es.MoreElements? ==> SafeElements(es.tail))
  }

  predicate SafeMembers(ms: Members) {
    SafeUnits(ms.m.key) && Safe(ms.m.v) && (ms.MoreMembers? ==> SafeMembers(ms.tail))
  }

  // ----- pieces of text -----

  /** Read in mode `from` and followed by `rest`, the piece p comes out as q, leaving mode `to`. */
  ghost predicate Passes(from: Mode, p: string, q: string, to: Mode, rest: string) {
    Repair(from, p + rest) == q + Repair(to, rest)
  }

  lemma Compose(m0: Mode, p1: string, q1: string, m1: Mode, p2: string, q2: string, m2: Mode, rest: string)
    requires Passes(m0, p1, q1, m1, p2 + rest) && Passes(m1, p2, q2, m2, rest)
    ensures Passes(m0, p1 + p2, q1 + q2, m2, rest)
  {
    assert p1 + p2 + rest == p1 + (p2 + rest);
    assert q1 + (q2 + Repair(m2, rest)) == q1 + q2 + Repair(m2, rest);
  }

  lemma PassOne(from: Mode, c: char, rest: string)
    requires from == EscapeNext || (c != '"' && c != '\\')
    ensures Passes(from, [c], [c], if from == EscapeNext then InString else from, rest)
  {
    Head(c, rest);
  }

  /** A run of characters that are neither quote nor backslash passes in either mode. */
  lemma {:induction false} PassPlain(from: Mode, w: string, rest: string)
    requires from != EscapeNext && '"' !in w && '\\' !in w
    ensures Passes(from, w, w, from, rest)
    decreases |w|
  {
    if w == [] {
      assert w + rest == rest && w + Repair(from, rest) == Repair(from, rest);
    } else {
      assert w == [w[0]] + w[1..];
      PassOne(from, w[0], w[1..] + rest);
      PassPlain(from, w[1..], rest);
      Compose(from, [w[0]], [w[0]], from, w[1..], w[1..], from, rest);
    }
  }

  lemma {:induction false} BlankTransparent(w: string, rest: string)
    requires Blank(w)
    ensures Closes(w + rest) == Closes(rest) && '"' !in w && '\\' !in w
    decreases |w|
  {
    if w == [] {
      assert w + rest == rest;
    } else {
      assert (w + rest)[1..] == w[1..] + rest;
      BlankTransparent(w[1..], rest);
      assert w == [w[0]] + w[1..];
    }
  }

  lemma PassBlank(w: string, rest: string)
    requires Blank(w)
    ensures Passes(Normal, w, w, Normal, rest)
  {
    BlankTransparent(w, "");
    PassPlain(Normal, w, rest);
  }

  /** Whether a quote closes does not depend on what follows the next quote. */
  lemma {:induction false} ClosesLocal(a: string, rest: string)
    ensures Closes(a + ("\"" + rest)) == Closes(a + "\"")
    decreases |a|
  {
    var long, short := a + ("\"" + rest), a + "\"";
    if a == [] {
      assert long[0] == '"' && short[0] == '"';
    } else {
      assert long[1..] == a[1..] + ("\"" + rest) && short[1..] == a[1..] + "\"";
      ClosesLocal(a[1..], rest);
    }
  }

  /** One unit comes out as its correct printing, unless it is a raw quote that seems to close. */
  lemma UnitRepaired(u: Unit, raw: bool, rest: string)
    requires UnitOk(u) && (raw && u == Escape('"') ==> !Closes(rest))
    ensures Passes(InString, PrintUnit(u, raw), PrintUnit(u, false), InString, rest)
  {
    match u
    case Plain(c) =>
      PassOne(InString, c, rest);
    case Escape(c) =>
      if raw && c == '"' {
        Head('"', rest);
      } else {
        Head('\\', [c] + rest);
        PassOne(EscapeNext, c, rest);
        Compose(InString, "\\", "\\", EscapeNext, [c], [c], InString, rest);
      }
    case Hex(digits) =>
      HexRepaired(digits, rest);
  }

  lemma HexRepaired(digits: string, rest: string)
    requires '"' !in digits && '\\' !in digits
    ensures Passes(InString, "\\u" + digits, "\\u" + digits, InString, rest)
  {
    PassPlain(InString, digits, rest);
    PassOne(EscapeNext, 'u', digits + rest);
    Compose(EscapeNext, "u", "u", InString, digits, digits, InString, rest);
    Head('\\', "u" + digits + rest);
    Compose(InString, "\\", "\\", EscapeNext, "u" + digits, "u" + digits, InString, rest);
    assert "\\" + ("u" + digits) == "\\u" + digits;
  }

  /** The content of a string, up to a closing quote. */
  lemma {:induction false} UnitsRepaired(us: seq<Unit>, raw: bool, rest: string)
    requires UnitsOk(us) && (raw ==> SafeUnits(us))
    ensures Passes(InString, PrintUnits(us, raw), PrintUnits(us, false), InString, "\"" + rest)
    decreases |us|
  {
    if us == [] {
      PassPlain(InString, "", "\"" + rest);
    } else {
      var more := PrintUnits(us[1..], raw);
      ClosesLocal(more, rest);
      UnitRepaired(us[0], raw, more + ("\"" + rest));
      UnitsRepaired(us[1..], raw, rest);
      Compose(InString, PrintUnit(us[0], raw), PrintUnit(us[0], false), InString, more, PrintUnits(us[1..], false),
        InString, "\"" + rest);
    }
  }

  lemma TextRepaired(us: seq<Unit>, raw: bool, rest: string)
    requires UnitsOk(us) && (raw ==> SafeUnits(us)) && Closes(rest)
    ensures Passes(Normal, PrintText(us, raw), PrintText(us, false), Normal, rest)
  {
    var p, q := PrintUnits(us, raw), PrintUnits(us, false);
    OpenQuote(p + ("\"" + rest));
    UnitsRepaired(us, raw, rest);
    Compose(Normal, "\"", "\"", InString, p, q, InString, "\"" + rest);
    CloseQuote(rest);
    Compose(Normal, "\"" + p, "\"" + q, InString, "\"", "\"", Normal, rest);
  }

  lemma OpenQuote(rest: string)
    ensures Passes(Normal, "\"", "\"", InString, rest)
  {
    Head('"', rest);
  }

  lemma CloseQuote(rest: string)
    requires Closes(rest)
    ensures Passes(InString, "\"", "\"", Normal, rest)
  {
    Head('"', rest);
  }

  // ----- values -----

  lemma {:induction false} ValueRepaired(v: Value, raw: bool, rest: string)
    requires WellFormed(v) && (raw ==> Safe(v)) && Closes(rest)
    ensures Passes(Normal, Print(v, raw), Print(v, false), Normal, rest)
    decreases v, 0
  {
    match v
    case Text(us) => TextRepaired(us, raw, rest);
    case Literal(text) => PassPlain(Normal, text, rest);
    case EmptyArray(ws) =>
      BlankTransparent(ws, "");
      PassPlain(Normal, "[" + ws + "]", rest);
    case EmptyObject(ws) =>
      BlankTransparent(ws, "");
      PassPlain(Normal, "{" + ws + "}", rest);
    case Array(es) =>
      ElementsRepaired(es, raw, "]" + rest);
      Bracketed('[', PrintElements(es, raw), PrintElements(es, false), ']', rest);
    case Object(ms) =>
      MembersRepaired(ms, raw, "}" + rest);
      Bracketed('{', PrintMembers(ms, raw), PrintMembers(ms, false), '}', rest);
  }

  lemma Bracketed(open: char, p: string, q: string, close: char, rest: string)
    requires open in "[{" && close in "]}" && Passes(Normal, p, q, Normal, [close] + rest)
    ensures Passes(Normal, [open] + p + [close], [open] + q + [close], Normal, rest)
  {
    PassOne(Normal, open, p + ([close] + rest));
    Compose(Normal, [open], [open], Normal, p, q, Normal, [close] + rest);
    PassOne(Normal, close, rest);
    Compose(Normal, [open] + p, [open] + q, Normal, [close], [close], Normal, rest);
  }

  /** blank, value, blank, in front of a delimiter */
  lemma {:induction false} PaddedRepaired(before: string, v: Value, after: string, raw: bool, rest: string)
    requires Blank(before) && WellFormed(v) && Blank(after) && (raw ==> Safe(v)) && Closes(rest)
    ensures Passes(Normal, before + Print(v, raw) + after, before + Print(v, false) + after, Normal, rest)
    decreases v, 1
  {
    var p, q := Print(v, raw), Print(v, false);
    PassBlank(before, p + (after + rest));
    BlankTransparent(after, rest);
    ValueRepaired(v, raw, after + rest);
    Compose(Normal, before, before, Normal, p, q, Normal, after + rest);
    PassBlank(after, rest);
    Compose(Normal, before + p, before + q, Normal, after, after, Normal, rest);
  }

  /** p, a comma, then the tail */
  lemma Comma(p: string, q: string, tailP: string, tailQ: string, rest: string)
    requires Passes(Normal, p, q, Normal, "," + tailP + rest) && Passes(Normal, tailP, tailQ, Normal, rest)
    ensures Passes(Normal, p + ("," + tailP), q + ("," + tailQ), Normal, rest)
  {
    PassOne(Normal, ',', tailP + rest);
    Compose(Normal, ",", ",", Normal, tailP, tailQ, Normal, rest);
    Compose(Normal, p, q, Normal, "," + tailP, "," + tailQ, Normal, rest);
  }

  lemma {:induction false} ElementsRepaired(es: Elements, raw: bool, rest: string)
    requires ElementsOk(es) && (raw ==> SafeElements(es)) && Closes(rest)
    ensures Passes(Normal, PrintElements(es, raw), PrintElements(es, false), Normal, rest)
    decreases es
  {
    var p, q := es.before + Print(es.v, raw) + es.after, es.before + Print(es.v, false) + es.after;
    if es.LastElement? {
      PaddedRepaired(es.before, es.v, es.after, raw, rest);
      assert p + "" == p && q + "" == q;
    } else {
      PaddedRepaired(es.before, es.v, es.after, raw, "," + PrintElements(es.tail, raw) + rest);
      ElementsRepaired(es.tail, raw, rest);
      Comma(p, q, PrintElements(es.tail, raw), PrintElements(es.tail, false), rest);
    }
  }

  lemma {:induction false} MemberRepaired(m: Member, raw: bool, rest: string)
    requires MemberOk(m) && (raw ==> SafeUnits(m.key) && Safe(m.v)) && Closes(rest)
    ensures Passes(Normal, PrintMember(m, raw), PrintMember(m, false), Normal, rest)
    decreases m
  {
    var p, q := m.before + Print(m.v, raw) + m.after, m.before + Print(m.v, false) + m.after;
    KeyRepaired(m, raw, p + rest);
    PaddedRepaired(m.before, m.v, m.after, raw, rest);
    Compose(Normal, PrintKey(m, raw), PrintKey(m, false), Normal, p, q, Normal, rest);
  }

  lemma KeyRepaired(m: Member, raw: bool, rest: string)
    requires MemberOk(m) && (raw ==> SafeUnits(m.key))
    ensures Passes(Normal, PrintKey(m, raw), PrintKey(m, false), Normal, rest)
  {
    var p, q := PrintText(m.key, raw), PrintText(m.key, false);
    PassBlank(m.beforeKey, p + (m.afterKey + (":" + rest)));
    BlankTransparent(m.afterKey, ":" + rest);
    TextRepaired(m.key, raw, m.afterKey + (":" + rest));
    Compose(Normal, m.beforeKey, m.beforeKey, Normal, p, q, Normal, m.afterKey + (":" + rest));
    PassBlank(m.afterKey, ":" + rest);
    Compose(Normal, m.beforeKey + p, m.beforeKey + q, Normal, m.afterKey, m.afterKey, Normal, ":" + rest);
    PassOne(Normal, ':', rest);
    Compose(Normal, m.beforeKey + p + m.afterKey, m.beforeKey + q + m.afterKey, Normal, ":", ":", Normal, rest);
  }

  lemma {:induction false} MembersRepaired(ms: Members, raw: bool, rest: string)
    requires MembersOk(ms) && (raw ==> SafeMembers(ms)) && Closes(rest)
    ensures Passes(Normal, PrintMembers(ms, raw), PrintMembers(ms, false), Normal, rest)
    decreases ms
  {
    var p, q := PrintMember(ms.m, raw), PrintMember(ms.m, false);
    if ms.LastMember? {
      MemberRepaired(ms.m, raw, rest);
      assert p + "" == p && q + "" == q;
    } else {
      MemberRepaired(ms.m, raw, "," + PrintMembers(ms.tail, raw) + rest);
      MembersRepaired(ms.tail, raw, rest);
      Comma(p, q, PrintMembers(ms.tail, raw), PrintMembers(ms.tail, false), rest);
    }
  }

  /** Every correct JSON text, with whatever whitespace, is left as it is. */
  lemma PrintedJsonUntouched(before: string, v: Value, after: string)
    requires Blank(before) && WellFormed(v) && Blank(after)
    ensures Repair(Normal, before + Print(v, false) + after) == before + Print(v, false) + after
  {
    PaddedRepaired(before, v, after, false, "");
    var t := before + Print(v, false) + after;
    assert t + "" == t;
  }

  // ----- when raw quotes defeat the repair -----

  /** The texts differ at a position both have. */
  ghost predicate Diverge(a: string, b: string) {
    exists k :: 0 <= k < |a| && k < |b| && a[..k] == b[..k] && a[k] != b[k]
  }

  lemma DivergeHere(a: string, b: string, k: nat)
    requires k < |a| && k < |b| && a[..k] == b[..k] && a[k] != b[k]
    ensures Diverge(a, b)
  {
  }

  lemma DivergeAfter(p: string, a: string, b: string)
    requires Diverge(a, b)
    ensures Diverge(p + a, p + b)
  {
    var k :| 0 <= k < |a| && k < |b| && a[..k] == b[..k] && a[k] != b[k];
    assert (p + a)[..|p| + k] == p + a[..k] && (p + b)[..|p| + k] == p + b[..k];
    DivergeHere(p + a, p + b, |p| + k);
  }

  lemma DivergeBefore(a: string, b: string, x: string)
    requires Diverge(a, b)
    ensures Diverge(a + x, b)
  {
    var k :| 0 <= k < |a| && k < |b| && a[..k] == b[..k] && a[k] != b[k];
    assert (a + x)[..k] == a[..k];
    DivergeHere(a + x, b, k);
  }

  /** Read in mode `from` and followed by `rest`, the piece p goes wrong before the end of q. */
  ghost predicate Fails(from: Mode, p: string, q: string, rest: string) {
    Diverge(q, Repair(from, p + rest))
  }

  /** A piece that passes, then one that fails. */
  lemma FailSecond(m0: Mode, p1: string, q1: string, m1: Mode, p2: string, q2: string, rest: string)
    requires Passes(m0, p1, q1, m1, p2 + rest) && Fails(m1, p2, q2, rest)
    ensures Fails(m0, p1 + p2, q1 + q2, rest)
  {
    assert p1 + p2 + rest == p1 + (p2 + rest);
    DivergeAfter(q1, q2, Repair(m1, p2 + rest));
  }

  /** A piece that fails, then anything. */
  lemma FailFirst(m0: Mode, p1: string, q1: string, p2: string, q2: string, rest: string)
    requires Fails(m0, p1, q1, p2 + rest)
    ensures Fails(m0, p1 + p2, q1 + q2, rest)
  {
    assert p1 + p2 + rest == p1 + (p2 + rest);
    DivergeBefore(q1, Repair(m0, p1 + (p2 + rest)), q2);
  }

  lemma {:induction false} UnitsFail(us: seq<Unit>, rest: string)
    requires UnitsOk(us) && !SafeUnits(us)
    ensures Fails(InString, PrintUnits(us, true), PrintUnits(us, false), "\"" + rest)
    decreases |us|
  {
    var p, q := PrintUnit(us[0], true), PrintUnit(us[0], false);
    var more := PrintUnits(us[1..], true);
    var tail := more + ("\"" + rest);
    ClosesLocal(more, rest);
    if us[0] == Escape('"') && Closes(more + "\"") {
      Head('"', tail);
      DivergeHere(q, Repair(InString, p + tail), 0);
      FailFirst(InString, p, q, more, PrintUnits(us[1..], false), "\"" + rest);
    } else {
      UnitRepaired(us[0], true, tail);
      UnitsFail(us[1..], rest);
      FailSecond(InString, p, q, InString, more, PrintUnits(us[1..], false), "\"" + rest);
    }
  }

  lemma TextFails(us: seq<Unit>, rest: string)
    requires UnitsOk(us) && !SafeUnits(us)
    ensures Fails(Normal, PrintText(us, true), PrintText(us, false), rest)
  {
    var p, q := PrintUnits(us, true), PrintUnits(us, false);
    OpenQuote(p + ("\"" + rest));
    UnitsFail(us, rest);
    FailSecond(Normal, "\"", "\"", InString, p, q, "\"" + rest);
    FailFirst(Normal, "\"" + p, "\"" + q, "\"", "\"", rest);
  }

  lemma {:induction false} ValueFails(v: Value, rest: string)
    requires WellFormed(v) && !Safe(v)
    ensures Fails(Normal, Print(v, true), Print(v, false), rest)
    decreases v, 0
  {
    match v
    case Text(us) => TextFails(us, rest);
    case Array(es) =>
      ElementsFail(es, "]" + rest);
      BracketedFails('[', PrintElements(es, true), PrintElements(es, false), ']', rest);
    case Object(ms) =>
      MembersFail(ms, "}" + rest);
      BracketedFails('{', PrintMembers(ms, true), PrintMembers(ms, false), '}', rest);
  }

  lemma BracketedFails(open: char, p: string, q: string, close: char, rest: string)
    requires open in "[{" && Fails(Normal, p, q, [close] + rest)
    ensures Fails(Normal, [open] + p + [close], [open] + q + [close], rest)
  {
    PassOne(Normal, open, p + ([close] + rest));
    FailSecond(Normal, [open], [open], Normal, p, q, [close] + rest);
    FailFirst(Normal, [open] + p, [open] + q, [close], [close], rest);
  }

  lemma {:induction false} PaddedFails(before: string, v: Value, after: string, rest: string)
    requires Blank(before) && WellFormed(v) && !Safe(v)
    ensures Fails(Normal, before + Print(v, true) + after, before + Print(v, false) + after, rest)
    decreases v, 1
  {
    var p, q := Print(v, true), Print(v, false);
    PassBlank(before, p + (after + rest));
    ValueFails(v, after + rest);
    FailSecond(Normal, before, before, Normal, p, q, after + rest);
    FailFirst(Normal, before + p, before + q, after, after, rest);
  }

  /** A tail that fails after p and a comma. */
  lemma CommaFails(p: string, q: string, tailP: string, tailQ: string, rest: string)
    requires Passes(Normal, p, q, Normal, "," + tailP + rest) && Fails(Normal, tailP, tailQ, rest)
    ensures Fails(Normal, p + ("," + tailP), q + ("," + tailQ), rest)
  {
    PassOne(Normal, ',', tailP + rest);
    FailSecond(Normal, ",", ",", Normal, tailP, tailQ, rest);
    FailSecond(Normal, p, q, Normal, "," + tailP, "," + tailQ, rest);
  }

  lemma {:induction false} ElementsFail(es: Elements, rest: string)
    requires ElementsOk(es) && !SafeElements(es)
    ensures Fails(Normal, PrintElements(es, true), PrintElements(es, false), rest)
    decreases es
  {
    var p, q := es.before + Print(es.v, true) + es.after, es.before + Print(es.v, false) + es.after;
    if !Safe(es.v) {
      var x, y := if es.MoreElements? then "," + PrintElements(es.tail, true) else "",
                  if es.MoreElements? then "," + PrintElements(es.tail, false) else "";
      PaddedFails(es.before, es.v, es.after, x + rest);
      FailFirst(Normal, p, q, x, y, rest);
    } else {
      PaddedRepaired(es.before, es.v, es.after, true, "," + PrintElements(es.tail, true) + rest);
      ElementsFail(es.tail, rest);
      CommaFails(p, q, PrintElements(es.tail, true), PrintElements(es.tail, false), rest);
    }
  }

  lemma {:induction false} MemberFails(m: Member, rest: string)
    requires MemberOk(m) && !(SafeUnits(m.key) && Safe(m.v))
    ensures Fails(Normal, PrintMember(m, true), PrintMember(m, false), rest)
    decreases m
  {
    var p, q := m.before + Print(m.v, true) + m.after, m.before + Print(m.v, false) + m.after;
    var k, l := PrintKey(m, true), PrintKey(m, false);
    if SafeUnits(m.key) {
      KeyRepaired(m, true, p + rest);
      PaddedFails(m.before, m.v, m.after, rest);
      FailSecond(Normal, k, l, Normal, p, q, rest);
    } else {
      KeyFails(m, p + rest);
      FailFirst(Normal, k, l, p, q, rest);
    }
  }

  lemma KeyFails(m: Member, rest: string)
    requires MemberOk(m) && !SafeUnits(m.key)
    ensures Fails(Normal, PrintKey(m, true), PrintKey(m, false), rest)
  {
    var p, q := PrintText(m.key, true), PrintText(m.key, false);
    PassBlank(m.beforeKey, p + (m.afterKey + (":" + rest)));
    TextFails(m.key, m.afterKey + (":" + rest));
    FailSecond(Normal, m.beforeKey, m.beforeKey, Normal, p, q, m.afterKey + (":" + rest));
    FailFirst(Normal, m.beforeKey + p, m.beforeKey + q, m.afterKey, m.afterKey, ":" + rest);
    FailFirst(Normal, m.beforeKey + p + m.afterKey, m.beforeKey + q + m.afterKey, ":", ":", rest);
  }

  lemma {:induction false} MembersFail(ms: Members, rest: string)
    requires MembersOk(ms) && !SafeMembers(ms)
    ensures Fails(Normal, PrintMembers(ms, true), PrintMembers(ms, false), rest)
    decreases ms
  {
    var p, q := PrintMember(ms.m, true), PrintMember(ms.m, false);
    if !(SafeUnits(ms.m.key) && Safe(ms.m.v)) {
      var x, y := if ms.MoreMembers? then "," + PrintMembers(ms.tail, true) else "",
                  if ms.MoreMembers? then "," + PrintMembers(ms.tail, false) else "";
      MemberFails(ms.m, x + rest);
      FailFirst(Normal, p, q, x, y, rest);
    } else {
      MemberRepaired(ms.m, true, "," + PrintMembers(ms.tail, true) + rest);
      MembersFail(ms.tail, rest);
      CommaFails(p, q, PrintMembers(ms.tail, true), PrintMembers(ms.tail, false), rest);
    }
  }

  /** A text printed with its string quotes unescaped is repaired into the correct text exactly if
      in no string such a quote is followed, blanks aside, by one of , } ] and colon. */
  lemma RawQuotesRepairedIff(before: string, v: Value, after: string)
    requires Blank(before) && WellFormed(v) && Blank(after)
    ensures Repair(Normal, before + Print(v, true) + after) == before + Print(v, false) + after <==> Safe(v)
  {
    var p, q := before + Print(v, true) + after, before + Print(v, false) + after;
    assert p + "" == p && q + "" == q;
    if Safe(v) {
      PaddedRepaired(before, v, after, true, "");
    } else {
      PaddedFails(before, v, after, "");
    }
  }
}
