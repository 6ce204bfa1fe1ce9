/**
 extractFirstJSONObject of pkg/encoding/json/json.go: find the first '{' and the brace that closes
 it, skipping braces inside strings.
 */
module JsonExtract {
  import opened Strings
  import opened Wrappers
  import opened JsonText

  datatype Mode = Outside | Inside | Escaped

  /** Where the scan stands: inside a string or not, and how many braces are open. */
  datatype Scan = Scan(mode: Mode, depth: int)

  /** One character of the scan. */
  function Step(st: Scan, ch: char): Scan {
    match st.mode
    case Escaped => st.(mode := Inside)
    case Inside => if ch == '\\' then st.(mode := Escaped) else if ch == '"' then st.(mode := Outside) else st
    case Outside =>
      if ch == '"' then st.(mode := Inside)
      else if ch == '{' then st.(depth := st.depth + 1)
      else if ch == '}' then st.(depth := st.depth - 1)
      else st
  }

  predicate Done(st: Scan, ch: char) {
    st.mode == Outside && ch == '}' && st.depth == 1
  }

  /** The length of the text up to the brace that brings the depth back to zero. */
  function Length(st: Scan, s: string): Option<nat>
    decreases |s|
  {
    if s == [] then None
    else if Done(st, s[0]) then Some(1)
    else
      var r := Length(Step(st, s[0]), s[1..]);
      if r.Some? then Some(r.value + 1) else None
  }

  // ----- the source -----

  function IndexOf(s: string, c: char): (r: Option<nat>)
    ensures r.Some? ==> r.value < |s| && s[r.value] == c && c !in s[..r.value]
    ensures r.None? <==> c !in s
  {
    if s == [] then None
    else if s[0] == c then Some(0)
    else
      var r := IndexOf(s[1..], c);
      assert s == [s[0]] + s[1..];
      if r.Some? then assert s[..r.value + 1] == [s[0]] + s[1..][..r.value]; Some(r.value + 1) else None
  }

  function At(inString: bool, escaped: bool, depth: int): Scan {
    Scan(if !inString then Outside else if escaped then Escaped else Inside, depth)
  }

  /** What the scan extracts. */
  function Extract(content: string): string {
    var found := IndexOf(content, '{');
    if found.None? then ""
    else
      var from := content[found.value..];
      var n := Length(Scan(Outside, 0), from);
      if n.Some? && n.value <= |from| then TrimSpace(from[..n.value]) else ""
  }

  lemma LengthNext(st: Scan, content: string, idx: nat)
    requires idx < |content|
    ensures Length(st, content[idx..]) ==
      if Done(st, content[idx]) then Some(1)
      else
        var r := Length(Step(st, content[idx]), content[idx + 1..]);
        if r.Some? then Some(r.value + 1) else None
  {
    assert content[idx..][1..] == content[idx + 1..];
  }

  /** The depth scan from the first brace: where the object ends, if it does. */
  method FindEnd(content: string, start: nat) returns (end: Option<nat>)
    requires start <= |content|
    ensures Length(Scan(Outside, 0), content[start..]) == if end.Some? then Some(end.value - start) else None
    ensures end.Some? ==> start < end.value <= |content|
  {
    var inString, escaped, depth := false, false, 0;
    ghost var whole := Length(Scan(Outside, 0), content[start..]);
    for idx := start to |content|
      invariant escaped ==> inString
      invariant var rest := Length(At(inString, escaped, depth), content[idx..]);
        whole == if rest.Some? then Some(rest.value + (idx - start)) else None
    {
      var ch := content[idx];
      LengthNext(At(inString, escaped, depth), content, idx);
      if inString {
        if escaped {
          escaped := false;
          continue;
        }
        if ch == '\\' {
          escaped := true;
          continue;
        }
        if ch == '"' {
          inString := false;
        }
        continue;
      }
      match ch {
        case '"' => inString := true;
        case '{' => depth := depth + 1;
        case '}' =>
          depth := depth - 1;
          if depth == 0 {
            return Some(idx + 1);
          }
        case _ =>
      }
    }
    end := None;
  }

  method ExtractFirstJSONObject(content: string) returns (r: string)
    ensures r == Extract(content)
  {
    var start := IndexOf(content, '{');
    if start.None? {
      return "";
    }
    var end := FindEnd(content, start.value);
    if end.None? {
      return "";
    }
    SliceOfSlice(content, start.value, end.value - start.value);
    r := TrimSpace(content[start.value..end.value]);
  }

  lemma SliceOfSlice(s: string, i: nat, n: nat)
    requires i + n <= |s|
    ensures s[i..][..n] == s[i..i + n]
  {
  }

  // ----- skipping over printed JSON -----

  /** From scan state a, the piece p is passed over, leaving state b, whatever follows. */
  ghost predicate Skips(a: Scan, p: string, b: Scan, rest: string) {
    var after := Length(b, rest);
    Length(a, p + rest) == if after.Some? then Some(after.value + |p|) else None
  }

  lemma Compose(a: Scan, p: string, b: Scan, q: string, c: Scan, rest: string)
    requires Skips(a, p, b, q + rest) && Skips(b, q, c, rest)
    ensures Skips(a, p + q, c, rest)
  {
    assert p + q + rest == p + (q + rest);
  }

  lemma SkipOne(a: Scan, c: char, rest: string)
    requires !Done(a, c)
    ensures Skips(a, [c], Step(a, c), rest)
  {
    assert ([c] + rest)[0] == c && ([c] + rest)[1..] == rest;
  }

  /** Characters the scan does not react to. */
  lemma {:induction false} SkipPlain(a: Scan, w: string, rest: string)
    requires a.mode != Escaped && forall c :: c in w ==> c !in "\"\\{}"
    ensures Skips(a, w, a, rest)
    decreases |w|
  {
    if w == [] {
      assert w + rest == rest;
    } else {
      assert w == [w[0]] + w[1..];
      assert w[0] in w;
      SkipOne(a, w[0], w[1..] + rest);
      SkipPlain(a, w[1..], rest);
      Compose(a, [w[0]], a, w[1..], a, rest);
    }
  }

  lemma SkipUnit(d: int, u: Unit, rest: string)
    requires UnitOk(u)
    ensures Skips(Scan(Inside, d), PrintUnit(u, false), Scan(Inside, d), rest)
  {
    var inside, escaped := Scan(Inside, d), Scan(Escaped, d);
    match u
    case Plain(c) =>
      SkipOne(inside, c, rest);
    case Escape(c) =>
      SkipOne(inside, '\\', [c] + rest);
      SkipOne(escaped, c, rest);
      Compose(inside, "\\", escaped, [c], inside, rest);
    case Hex(digits) =>
      SkipPlain(inside, digits, rest);
      SkipOne(escaped, 'u', digits + rest);
      Compose(escaped, "u", inside, digits, inside, rest);
      SkipOne(inside, '\\', "u" + digits + rest);
      Compose(inside, "\\", escaped, "u" + digits, inside, rest);
      assert "\\" + ("u" + digits) == "\\u" + digits;
  }

  lemma {:induction false} SkipUnits(d: int, us: seq<Unit>, rest: string)
    requires UnitsOk(us)
    ensures Skips(Scan(Inside, d), PrintUnits(us, false), Scan(Inside, d), rest)
    decreases |us|
  {
    if us == [] {
      SkipPlain(Scan(Inside, d), "", rest);
    } else {
      SkipUnit(d, us[0], PrintUnits(us[1..], false) + rest);
      SkipUnits(d, us[1..], rest);
      Compose(Scan(Inside, d), PrintUnit(us[0], false), Scan(Inside, d), PrintUnits(us[1..], false), Scan(Inside, d),
        rest);
    }
  }

  lemma SkipText(d: int, us: seq<Unit>, rest: string)
    requires UnitsOk(us)
    ensures Skips(Scan(Outside, d), PrintText(us, false), Scan(Outside, d), rest)
  {
    var outside, inside, p := Scan(Outside, d), Scan(Inside, d), PrintUnits(us, false);
    SkipOne(outside, '"', p + ("\"" + rest));
    SkipUnits(d, us, "\"" + rest);
    Compose(outside, "\"", inside, p, inside, "\"" + rest);
    SkipOne(inside, '"', rest);
    Compose(outside, "\"" + p, inside, "\"", outside, rest);
  }

  lemma {:induction false} SkipValue(d: int, v: Value, rest: string)
    requires WellFormed(v) && 1 <= d
    ensures Skips(Scan(Outside, d), Print(v, false), Scan(Outside, d), rest)
    decreases v, 0
  {
    var outside := Scan(Outside, d);
    match v
    case Text(us) => SkipText(d, us, rest);
    case Literal(text) => SkipPlain(outside, text, rest);
    case EmptyArray(ws) => SkipPlain(outside, "[" + ws + "]", rest);
    case Array(es) =>
      var p := PrintElements(es, false);
      SkipPlain(outside, "[", p + ("]" + rest));
      SkipElements(d, es, "]" + rest);
      Compose(outside, "[", outside, p, outside, "]" + rest);
      SkipPlain(outside, "]", rest);
      Compose(outside, "[" + p, outside, "]", outside, rest);
    case EmptyObject(ws) =>
      SkipPlain(Scan(Outside, d + 1), ws, "}" + rest);
      SkipBraces(d, ws, rest);
    case Object(ms) =>
      SkipMembers(d + 1, ms, "}" + rest);
      SkipBraces(d, PrintMembers(ms, false), rest);
  }

  lemma SkipBraces(d: int, p: string, rest: string)
    requires 1 <= d && Skips(Scan(Outside, d + 1), p, Scan(Outside, d + 1), "}" + rest)
    ensures Skips(Scan(Outside, d), "{" + p + "}", Scan(Outside, d), rest)
  {
    var outer, inner := Scan(Outside, d), Scan(Outside, d + 1);
    SkipOne(outer, '{', p + ("}" + rest));
    Compose(outer, "{", inner, p, inner, "}" + rest);
    SkipOne(inner, '}', rest);
    Compose(outer, "{" + p, inner, "}", outer, rest);
  }

  lemma {:induction false} SkipPadded(d: int, before: string, v: Value, after: string, rest: string)
    requires Blank(before) && WellFormed(v) && Blank(after) && 1 <= d
    ensures Skips(Scan(Outside, d), before + Print(v, false) + after, Scan(Outside, d), rest)
    decreases v, 1
  {
    var outside, p := Scan(Outside, d), Print(v, false);
    SkipPlain(outside, before, p + (after + rest));
    SkipValue(d, v, after + rest);
    Compose(outside, before, outside, p, outside, after + rest);
    SkipPlain(outside, after, rest);
    Compose(outside, before + p, outside, after, outside, rest);
  }

  lemma SkipComma(d: int, p: string, tail: string, rest: string)
    requires Skips(Scan(Outside, d), p, Scan(Outside, d), "," + tail + rest)
      && Skips(Scan(Outside, d), tail, Scan(Outside, d), rest)
    ensures Skips(Scan(Outside, d), p + ("," + tail), Scan(Outside, d), rest)
  {
    var outside := Scan(Outside, d);
    SkipPlain(outside, ",", tail + rest);
    Compose(outside, ",", outside, tail, outside, rest);
    Compose(outside, p, outside, "," + tail, outside, rest);
  }

  lemma {:induction false} SkipElements(d: int, es: Elements, rest: string)
    requires ElementsOk(es) && 1 <= d
    ensures Skips(Scan(Outside, d), PrintElements(es, false), Scan(Outside, d), rest)
    decreases es
  {
    var p := es.before + Print(es.v, false) + es.after;
    if es.LastElement? {
      SkipPadded(d, es.before, es.v, es.after, rest);
      assert p + "" == p;
    } else {
      SkipPadded(d, es.before, es.v, es.after, "," + PrintElements(es.tail, false) + rest);
      SkipElements(d, es.tail, rest);
      SkipComma(d, p, PrintElements(es.tail, false), rest);
    }
  }

  lemma {:induction false} SkipMember(d: int, m: Member, rest: string)
    requires MemberOk(m) && 1 <= d
    ensures Skips(Scan(Outside, d), PrintMember(m, false), Scan(Outside, d), rest)
    decreases m
  {
    var outside, p := Scan(Outside, d), m.before + Print(m.v, false) + m.after;
    SkipKey(d, m, p + rest);
    SkipPadded(d, m.before, m.v, m.after, rest);
    Compose(outside, PrintKey(m, false), outside, p, outside, rest);
  }

  lemma SkipKey(d: int, m: Member, rest: string)
    requires MemberOk(m)
    ensures Skips(Scan(Outside, d), PrintKey(m, false), Scan(Outside, d), rest)
  {
    var outside, p := Scan(Outside, d), PrintText(m.key, false);
    SkipPlain(outside, m.beforeKey, p + (m.afterKey + (":" + rest)));
    SkipText(d, m.key, m.afterKey + (":" + rest));
    Compose(outside, m.beforeKey, outside, p, outside, m.afterKey + (":" + rest));
    SkipPlain(outside, m.afterKey, ":" + rest);
    Compose(outside, m.beforeKey + p, outside, m.afterKey, outside, ":" + rest);
    SkipPlain(outside, ":", rest);
    Compose(outside, m.beforeKey + p + m.afterKey, outside, ":", outside, rest);
  }

  lemma {:induction false} SkipMembers(d: int, ms: Members, rest: string)
    requires MembersOk(ms) && 1 <= d
    ensures Skips(Scan(Outside, d), PrintMembers(ms, false), Scan(Outside, d), rest)
    decreases ms
  {
    var p := PrintMember(ms.m, false);
    if ms.LastMember? {
      SkipMember(d, ms.m, rest);
      assert p + "" == p;
    } else {
      SkipMember(d, ms.m, "," + PrintMembers(ms.tail, false) + rest);
      SkipMembers(d, ms.tail, rest);
      SkipComma(d, p, PrintMembers(ms.tail, false), rest);
    }
  }

  // ----- the embedded object -----

  /** An object followed by anything: the scan stops exactly at its closing brace. */
  lemma ObjectLength(v: Value, suffix: string)
    requires WellFormed(v) && (v.Object? || v.EmptyObject?)
    ensures Length(Scan(Outside, 0), Print(v, false) + suffix) == Some(|Print(v, false)|)
  {
    if v.Object? {
      SkipMembers(1, v.members, "}" + suffix);
      BracedLength(PrintMembers(v.members, false), suffix);
    } else {
      SkipPlain(Scan(Outside, 1), v.ws, "}" + suffix);
      BracedLength(v.ws, suffix);
    }
  }

  /** What the scan passes over inside one brace, closed. */
  lemma BracedLength(p: string, suffix: string)
    requires Skips(Scan(Outside, 1), p, Scan(Outside, 1), "}" + suffix)
    ensures Length(Scan(Outside, 0), "{" + p + "}" + suffix) == Some(|"{" + p + "}"|)
  {
    var zero, one, rest := Scan(Outside, 0), Scan(Outside, 1), "}" + suffix;
    SkipOne(zero, '{', p + rest);
    Compose(zero, "{", one, p, one, rest);
    assert rest[0] == '}';
    assert Length(one, rest) == Some(1);
    assert "{" + p + "}" + suffix == "{" + p + rest;
  }

  lemma {:induction false} IndexAfter(prefix: string, s: string)
    requires '{' !in prefix && s != [] && s[0] == '{'
    ensures IndexOf(prefix + s, '{') == Some(|prefix|)
    decreases |prefix|
  {
    if prefix == [] {
      assert prefix + s == s;
    } else {
      assert prefix[0] in prefix;
      assert (prefix + s)[1..] == prefix[1..] + s;
      assert forall c :: c in prefix[1..] ==> c in prefix;
      IndexAfter(prefix[1..], s);
    }
  }

  /** Whatever text surrounds it and whatever braces, quotes and escapes its strings contain, an
      embedded object is extracted exactly, provided no brace opens before it. */
  lemma EmbeddedObjectExtracted(prefix: string, v: Value, suffix: string)
    requires '{' !in prefix && WellFormed(v) && (v.Object? || v.EmptyObject?)
    ensures Extract(prefix + Print(v, false) + suffix) == Print(v, false)
  {
    var t := Print(v, false);
    Braces(v);
    ObjectLength(v, suffix);
    ExtractsLength(prefix, t, suffix);
  }

  lemma Braces(v: Value)
    requires v.Object? || v.EmptyObject?
    ensures var t := Print(v, false); |t| >= 2 && t[0] == '{' && t[|t| - 1] == '}'
  {
  }

  /** What the scan delimits is extracted, if there is no space at its ends. */
  lemma ExtractsLength(prefix: string, t: string, suffix: string)
    requires '{' !in prefix && |t| >= 2 && t[0] == '{' && t[|t| - 1] == '}'
    requires Length(Scan(Outside, 0), t + suffix) == Some(|t|)
    ensures Extract(prefix + t + suffix) == t
  {
    var content, from := prefix + t + suffix, t + suffix;
    assert content == prefix + from;
    IndexAfter(prefix, from);
    assert content[|prefix|..] == from && from[..|t|] == t;
    NothingToTrim(t);
  }

  lemma NothingToTrim(t: string)
    requires t != "" && t[0] == '{' && t[|t| - 1] == '}'
    ensures TrimSpace(t) == t
  {
  }

  /** Without an opening brace there is nothing to extract. */
  lemma NoBraceNothing(content: string)
    requires '{' !in content
    ensures Extract(content) == ""
  {
  }

  /** Where the scan stops does not depend on what comes later. */
  lemma {:induction false} LengthOfPrefix(st: Scan, p: string, q: string)
    requires Length(st, p).Some?
    ensures Length(st, p).value <= |p| && Length(st, p + q) == Length(st, p)
    decreases |p|
  {
    assert (p + q)[0] == p[0] && (p + q)[1..] == p[1..] + q;
    if !Done(st, p[0]) {
      LengthOfPrefix(Step(st, p[0]), p[1..], q);
    }
  }

  /** An object that is cut off anywhere before its closing brace is not extracted, not even in part. */
  lemma TruncatedObjectIgnored(prefix: string, v: Value, n: nat)
    requires '{' !in prefix && WellFormed(v) && (v.Object? || v.EmptyObject?) && 0 < n < |Print(v, false)|
    ensures Extract(prefix + Print(v, false)[..n]) == ""
  {
    var all, t := Print(v, false), Print(v, false)[..n];
    Braces(v);
    IndexAfter(prefix, t);
    assert (prefix + t)[|prefix|..] == t;
    ObjectLength(v, "");
    assert all + "" == all && t + all[n..] == all;
    if Length(Scan(Outside, 0), t).Some? {
      LengthOfPrefix(Scan(Outside, 0), t, all[n..]);
    }
  }
}
