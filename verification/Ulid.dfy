/**
 The lower-case text form of a ULID (pkg/ulid/ulid.go): 16 bytes, most significant first, printed
 as 26 characters of Crockford's base 32.
 */
module Ulid {

  const ENCODING: string := "0123456789abcdefghjkmnpqrstvwxyz"

  type Bytes = b: seq<bv8> | |b| == 16 witness seq(16, _ => 0)

  // ----- positional notation -----

  predicate Below(base: nat, ds: seq<nat>) {
    forall i :: 0 <= i < |ds| ==> ds[i] < base
  }

  /** The number written ds, most significant digit first. */
  function Value(base: nat, ds: seq<nat>): nat {
    if ds == [] then 0 else Value(base, ds[..|ds| - 1]) * base + ds[|ds| - 1]
  }

  /** The last n base-32 digits of a number. */
  function Base32(v: nat, n: nat): (ds: seq<nat>)
    ensures |ds| == n && Below(32, ds)
  {
    if n == 0 then [] else Base32(v / 32, n - 1) + [v % 32]
  }

  /** Digits in range are determined by the number they write. */
  lemma {:induction false} DigitsUnique(ds: seq<nat>)
    requires Below(32, ds)
    ensures ds == Base32(Value(32, ds), |ds|)
    decreases |ds|
  {
    if ds != [] {
      var front, last := ds[..|ds| - 1], ds[|ds| - 1];
      DigitsUnique(front);
      var v := Value(32, front) * 32 + last;
      assert v / 32 == Value(32, front) && v % 32 == last;
      assert ds == front + [last];
    }
  }

  /** First difference decides. */
  ghost predicate LexLess(a: seq<nat>, b: seq<nat>) {
    exists k :: 0 <= k < |a| && k < |b| && a[..k] == b[..k] && a[k] < b[k]
  }

  lemma LexLessLast(a: seq<nat>, b: seq<nat>)
    requires |a| == |b| > 0
    ensures var n := |a| - 1;
      LexLess(a, b) <==> LexLess(a[..n], b[..n]) || (a[..n] == b[..n] && a[n] < b[n])
  {
    var n := |a| - 1;
    if LexLess(a, b) {
      var k :| 0 <= k < |a| && k < |b| && a[..k] == b[..k] && a[k] < b[k];
      if k < n {
        assert a[..n][..k] == a[..k] && b[..n][..k] == b[..k];
        assert a[..n][k] < b[..n][k];
      }
    }
    if LexLess(a[..n], b[..n]) {
      var k :| 0 <= k < n && a[..n][..k] == b[..n][..k] && a[..n][k] < b[..n][k];
      assert a[..n][..k] == a[..k] && b[..n][..k] == b[..k];
    }
  }

  lemma Times(p: nat, q: nat, base: nat)
    requires p < q
    ensures p * base + base <= q * base
  {
    assert q * base == p * base + base + (q - p - 1) * base;
  }

  lemma PairOrder(base: nat, p: nat, x: nat, q: nat, y: nat)
    requires x < base && y < base
    ensures p * base + x < q * base + y <==> p < q || (p == q && x < y)
    ensures p * base + x == q * base + y <==> p == q && x == y
  {
    if p < q {
      Times(p, q, base);
    } else if q < p {
      Times(q, p, base);
    }
  }

  /** For equal lengths, numeric order is order by first difference. */
  lemma {:induction false} ValueOrder(base: nat, a: seq<nat>, b: seq<nat>)
    requires |a| == |b| && Below(base, a) && Below(base, b)
    ensures Value(base, a) < Value(base, b) <==> LexLess(a, b)
    ensures Value(base, a) == Value(base, b) <==> a == b
    decreases |a|
  {
    if a != [] {
      var n := |a| - 1;
      ValueOrder(base, a[..n], b[..n]);
      PairOrder(base, Value(base, a[..n]), a[n], Value(base, b[..n]), b[n]);
      LexLessLast(a, b);
      assert a == a[..n] + [a[n]] && b == b[..n] + [b[n]];
    }
  }

  // ----- the identifier as a number -----

  function Ints(id: seq<bv8>): (r: seq<nat>)
    ensures |r| == |id| && Below(256, r)
  {
    seq(|id|, i requires 0 <= i < |id| => id[i] as nat)
  }

  /** The 128-bit big-endian number. */
  function Number(id: Bytes): nat {
    Value(256, Ints(id))
  }

  function Chars(ds: seq<nat>): (s: string)
    requires Below(32, ds)
    ensures |s| == |ds|
  {
    seq(|ds|, i requires 0 <= i < |ds| => ENCODING[ds[i]])
  }

  /** What the text must be: the 26 base-32 digits of the number. */
  function Text(id: Bytes): string {
    Chars(Base32(Number(id), 26))
  }

  // ----- 5 bytes are 8 digits -----

  function Front(b0: nat, b1: nat, b2: nat): seq<nat> {
    [b0 / 8, (b0 % 8) * 4 + b1 / 64, (b1 / 2) % 32, (b1 % 2) * 16 + b2 / 16]
  }

  function Back(b2: nat, b3: nat, b4: nat): seq<nat> {
    [(b2 % 16) * 2 + b3 / 128, (b3 / 4) % 32, (b3 % 4) * 8 + b4 / 32, b4 % 32]
  }

  function Group(b0: nat, b1: nat, b2: nat, b3: nat, b4: nat): seq<nat> {
    Front(b0, b1, b2) + Back(b2, b3, b4)
  }

  lemma FrontIs(n0: nat, n1: nat, n2: nat, i0: int, i1: int, i2: int, i3: int) returns (ds: seq<nat>)
    requires n0 < 256 && n1 < 256 && n2 < 256
    requires i0 == n0 / 8 && i1 == (n0 % 8) * 4 + n1 / 64 && i2 == (n1 / 2) % 32 && i3 == (n1 % 2) * 16 + n2 / 16
    ensures ds == Front(n0, n1, n2) && |ds| == 4 && Below(32, ds)
    ensures i0 == ds[0] && i1 == ds[1] && i2 == ds[2] && i3 == ds[3]
  {
    Split62(n1);
    ds := Front(n0, n1, n2);
  }

  lemma BackIs(n2: nat, n3: nat, n4: nat, i0: int, i1: int, i2: int, i3: int) returns (ds: seq<nat>)
    requires n2 < 256 && n3 < 256 && n4 < 256
    requires i0 == (n2 % 16) * 2 + n3 / 128 && i1 == (n3 / 4) % 32 && i2 == (n3 % 4) * 8 + n4 / 32 && i3 == n4 % 32
    ensures ds == Back(n2, n3, n4) && |ds| == 4 && Below(32, ds)
    ensures i0 == ds[0] && i1 == ds[1] && i2 == ds[2] && i3 == ds[3]
  {
    Split124(n3);
    ds := Back(n2, n3, n4);
  }

  /** The 26 digits, from the bytes. */
  function Digits(v: seq<nat>): seq<nat>
    requires |v| == 16
  {
    [v[0] / 32, v[0] % 32] + Group(v[1], v[2], v[3], v[4], v[5]) + Group(v[6], v[7], v[8], v[9], v[10])
    + Group(v[11], v[12], v[13], v[14], v[15])
  }

  lemma Snoc(base: nat, ds: seq<nat>, d: nat)
    ensures Value(base, ds + [d]) == Value(base, ds) * base + d
  {
    assert (ds + [d])[..|ds|] == ds;
  }

  lemma FiveBytes(ds: seq<nat>, b0: nat, b1: nat, b2: nat, b3: nat, b4: nat)
    ensures Value(256, ds + [b0, b1, b2, b3, b4])
         == Value(256, ds) * 0x100_0000_0000 + b0 * 0x1_0000_0000 + b1 * 0x100_0000 + b2 * 0x1_0000 + b3 * 0x100 + b4
  {
    Snoc(256, ds, b0);
    Snoc(256, ds + [b0], b1);
    Snoc(256, ds + [b0] + [b1], b2);
    Snoc(256, ds + [b0] + [b1] + [b2], b3);
    Snoc(256, ds + [b0] + [b1] + [b2] + [b3], b4);
    assert ds + [b0, b1, b2, b3, b4] == ds + [b0] + [b1] + [b2] + [b3] + [b4];
  }

  lemma EightDigits(ds: seq<nat>, g: seq<nat>)
    requires |g| == 8
    ensures Value(32, ds + g)
         == Value(32, ds) * 0x100_0000_0000 + g[0] * 0x8_0000_0000 + g[1] * 0x4000_0000 + g[2] * 0x200_0000
           + g[3] * 0x10_0000
            + g[4] * 0x8000 + g[5] * 0x400 + g[6] * 0x20 + g[7]
  {
    Snoc(32, ds, g[0]);
    Snoc(32, ds + [g[0]], g[1]);
    Snoc(32, ds + [g[0]] + [g[1]], g[2]);
    Snoc(32, ds + [g[0]] + [g[1]] + [g[2]], g[3]);
    var h := ds + [g[0]] + [g[1]] + [g[2]] + [g[3]];
    Snoc(32, h, g[4]);
    Snoc(32, h + [g[4]], g[5]);
    Snoc(32, h + [g[4]] + [g[5]], g[6]);
    Snoc(32, h + [g[4]] + [g[5]] + [g[6]], g[7]);
    assert ds + g == h + [g[4]] + [g[5]] + [g[6]] + [g[7]];
  }

  /** Byte by byte, how the bits are shared out over the digits. */
  lemma Split62(b: nat)
    requires b < 256
    ensures b == (b / 64) * 64 + ((b / 2) % 32) * 2 + b % 2 && b / 64 < 4
  {
  }

  lemma Split124(b: nat)
    requires b < 256
    ensures b == (b / 128) * 128 + ((b / 4) % 32) * 4 + b % 4 && b / 128 < 2
  {
  }

  lemma GroupSum(b0: nat, b1: nat, b2: nat, b3: nat, b4: nat)
    requires b0 < 256 && b1 < 256 && b2 < 256 && b3 < 256 && b4 < 256
    ensures var g := Group(b0, b1, b2, b3, b4);
      && Below(32, g)
      && g[0] * 0x8_0000_0000 + g[1] * 0x4000_0000 + g[2] * 0x200_0000 + g[3] * 0x10_0000
         + g[4] * 0x8000 + g[5] * 0x400 + g[6] * 0x20 + g[7]
         == b0 * 0x1_0000_0000 + b1 * 0x100_0000 + b2 * 0x1_0000 + b3 * 0x100 + b4
  {
    Split62(b1);
    Split124(b3);
    assert b0 == (b0 / 8) * 8 + b0 % 8 && b2 == (b2 / 16) * 16 + b2 % 16 && b4 == (b4 / 32) * 32 + b4 % 32;
  }

  lemma GroupValue(ds: seq<nat>, bs: seq<nat>, b0: nat, b1: nat, b2: nat, b3: nat, b4: nat)
    requires Value(32, ds) == Value(256, bs) && Below(32, ds)
    requires b0 < 256 && b1 < 256 && b2 < 256 && b3 < 256 && b4 < 256
    ensures Value(32, ds + Group(b0, b1, b2, b3, b4)) == Value(256, bs + [b0, b1, b2, b3, b4])
    ensures Below(32, ds + Group(b0, b1, b2, b3, b4))
  {
    GroupSum(b0, b1, b2, b3, b4);
    FiveBytes(bs, b0, b1, b2, b3, b4);
    EightDigits(ds, Group(b0, b1, b2, b3, b4));
  }

  lemma FirstByte(b: nat)
    requires b < 256
    ensures Value(32, [b / 32, b % 32]) == b == Value(256, [b]) && Below(32, [b / 32, b % 32])
  {
    Snoc(32, [], b / 32);
    Snoc(32, [b / 32], b % 32);
    Snoc(256, [], b);
    assert [] + [b / 32] == [b / 32] && [b / 32] + [b % 32] == [b / 32, b % 32] && [] + [b] == [b];
  }

  lemma DigitsValue(v: seq<nat>)
    requires |v| == 16 && Below(256, v)
    ensures Value(32, Digits(v)) == Value(256, v) && Below(32, Digits(v))
  {
    FirstByte(v[0]);
    var a, b := [v[0] / 32, v[0] % 32], [v[0]];
    GroupValue(a, b, v[1], v[2], v[3], v[4], v[5]);
    var a1, b1 := a + Group(v[1], v[2], v[3], v[4], v[5]), b + [v[1], v[2], v[3], v[4], v[5]];
    GroupValue(a1, b1, v[6], v[7], v[8], v[9], v[10]);
    var a2, b2 := a1 + Group(v[6], v[7], v[8], v[9], v[10]), b1 + [v[6], v[7], v[8], v[9], v[10]];
    GroupValue(a2, b2, v[11], v[12], v[13], v[14], v[15]);
    assert v == b2 + [v[11], v[12], v[13], v[14], v[15]];
  }

  /** The characters' indices are the base-32 digits of the 128-bit number. */
  lemma DigitsAreBase32(v: seq<nat>)
    requires |v| == 16 && Below(256, v)
    ensures Digits(v) == Base32(Value(256, v), 26) && Below(32, Digits(v))
  {
    DigitsValue(v);
    DigitsUnique(Digits(v));
  }

  // ----- the source's bit fields, as arithmetic -----

  lemma Tops(x: bv8)
    ensures ((x & 224) >> 5) as int == x as int / 32 && ((x & 248) >> 3) as int == x as int / 8
    ensures ((x & 192) >> 6) as int == x as int / 64 && ((x & 240) >> 4) as int == x as int / 16
    ensures ((x & 128) >> 7) as int == x as int / 128
  {
  }

  lemma Low5(x: bv8)
    ensures (x & 31) as int == x as int % 32
  {
  }

  lemma Shifts(x: bv8)
    ensures (x >> 1) as int == x as int / 2 && (x >> 2) as int == x as int / 4
  {
  }

  lemma Middles(x: bv8)
    ensures ((x & 62) >> 1) as int == (x as int / 2) % 32 && ((x & 124) >> 2) as int == (x as int / 4) % 32
  {
    assert (x & 62) >> 1 == (x >> 1) & 31 && (x & 124) >> 2 == (x >> 2) & 31;
    Shifts(x);
    Low5(x >> 1);
    Low5(x >> 2);
  }

  lemma Low1(x: bv8)
    ensures ((x & 1) << 4) as int == (x as int % 2) * 16
  {
  }

  lemma Low2(x: bv8)
    ensures ((x & 3) << 3) as int == (x as int % 4) * 8
  {
  }

  lemma Low3(x: bv8)
    ensures ((x & 7) << 2) as int == (x as int % 8) * 4
  {
  }

  lemma Low4(x: bv8)
    ensures ((x & 15) << 1) as int == (x as int % 16) * 2
  {
  }

  lemma Or(a: bv8, b: bv8)
    requires a & b == 0 && a < 32 && b < 32
    ensures (a | b) as int == a as int + b as int
  {
  }

  // The fields that straddle two bytes.

  lemma Straddle3(x: bv8, y: bv8)
    ensures (((x & 7) << 2) | ((y & 192) >> 6)) as int == (x as int % 8) * 4 + y as int / 64
  {
    Low3(x);
    Tops(y);
    Or((x & 7) << 2, (y & 192) >> 6);
  }

  lemma Straddle1(x: bv8, y: bv8)
    ensures (((x & 1) << 4) | ((y & 240) >> 4)) as int == (x as int % 2) * 16 + y as int / 16
  {
    Low1(x);
    Tops(y);
    Or((x & 1) << 4, (y & 240) >> 4);
  }

  lemma Straddle4(x: bv8, y: bv8)
    ensures (((x & 15) << 1) | ((y & 128) >> 7)) as int == (x as int % 16) * 2 + y as int / 128
  {
    Low4(x);
    Tops(y);
    Or((x & 15) << 1, (y & 128) >> 7);
  }

  lemma Straddle2(x: bv8, y: bv8)
    ensures (((x & 3) << 3) | ((y & 224) >> 5)) as int == (x as int % 4) * 8 + y as int / 32
  {
    Low2(x);
    Tops(y);
    Or((x & 3) << 3, (y & 224) >> 5);
  }

  // ----- String -----

  lemma FrontFields(b0: bv8, b1: bv8, b2: bv8)
    ensures ((b0 & 248) >> 3) as int == b0 as int / 8
    ensures (((b0 & 7) << 2) | ((b1 & 192) >> 6)) as int == (b0 as int % 8) * 4 + b1 as int / 64
    ensures ((b1 & 62) >> 1) as int == (b1 as int / 2) % 32
    ensures (((b1 & 1) << 4) | ((b2 & 240) >> 4)) as int == (b1 as int % 2) * 16 + b2 as int / 16
  {
    Tops(b0);
    Straddle3(b0, b1);
    Middles(b1);
    Straddle1(b1, b2);
  }

  lemma BackFields(b2: bv8, b3: bv8, b4: bv8)
    ensures (((b2 & 15) << 1) | ((b3 & 128) >> 7)) as int == (b2 as int % 16) * 2 + b3 as int / 128
    ensures ((b3 & 124) >> 2) as int == (b3 as int / 4) % 32
    ensures (((b3 & 3) << 3) | ((b4 & 224) >> 5)) as int == (b3 as int % 4) * 8 + b4 as int / 32
    ensures (b4 & 31) as int == b4 as int % 32
  {
    Straddle4(b2, b3);
    Middles(b3);
    Straddle2(b3, b4);
    Low5(b4);
  }

  lemma FrontMatch(b0: bv8, b1: bv8, b2: bv8) returns (ds: seq<nat>)
    ensures ds == Front(b0 as nat, b1 as nat, b2 as nat) && |ds| == 4 && Below(32, ds)
    ensures ((b0 & 248) >> 3) as int == ds[0] && (((b0 & 7) << 2) | ((b1 & 192) >> 6)) as int == ds[1]
    ensures ((b1 & 62) >> 1) as int == ds[2] && (((b1 & 1) << 4) | ((b2 & 240) >> 4)) as int == ds[3]
  {
    FrontFields(b0, b1, b2);
    ds := FrontIs(b0 as nat, b1 as nat, b2 as nat, ((b0 & 248) >> 3) as int,
                  (((b0 & 7) << 2) | ((b1 & 192) >> 6)) as int,
                  ((b1 & 62) >> 1) as int, (((b1 & 1) << 4) | ((b2 & 240) >> 4)) as int);
  }

  lemma BackMatch(b2: bv8, b3: bv8, b4: bv8) returns (ds: seq<nat>)
    ensures ds == Back(b2 as nat, b3 as nat, b4 as nat) && |ds| == 4 && Below(32, ds)
    ensures (((b2 & 15) << 1) | ((b3 & 128) >> 7)) as int == ds[0] && ((b3 & 124) >> 2) as int == ds[1]
    ensures (((b3 & 3) << 3) | ((b4 & 224) >> 5)) as int == ds[2] && (b4 & 31) as int == ds[3]
  {
    BackFields(b2, b3, b4);
    ds := BackIs(b2 as nat, b3 as nat, b4 as nat, (((b2 & 15) << 1) | ((b3 & 128) >> 7)) as int,
                 ((b3 & 124) >> 2) as int,
                 (((b3 & 3) << 3) | ((b4 & 224) >> 5)) as int, (b4 & 31) as int);
  }

  /** Four assignments into the buffer. */
  method PutFour(buf: array<char>, at: nat, f0: bv8, f1: bv8, f2: bv8, f3: bv8, ghost ds: seq<nat>)
    requires at + 4 <= buf.Length && |ds| == 4 && Below(32, ds)
    requires f0 as int == ds[0] && f1 as int == ds[1] && f2 as int == ds[2] && f3 as int == ds[3]
    modifies buf
    ensures buf[..at] == old(buf[..at]) && buf[at..at + 4] == Chars(ds)
  {
    buf[at] := ENCODING[f0 as nat];
    buf[at + 1] := ENCODING[f1 as nat];
    buf[at + 2] := ENCODING[f2 as nat];
    buf[at + 3] := ENCODING[f3 as nat];
  }

  method PutFront(buf: array<char>, at: nat, b0: bv8, b1: bv8, b2: bv8)
    requires at + 4 <= buf.Length
    modifies buf
    ensures buf[..at] == old(buf[..at])
    ensures Below(32, Front(b0 as nat, b1 as nat, b2 as nat))
    ensures buf[at..at + 4] == Chars(Front(b0 as nat, b1 as nat, b2 as nat))
  {
    var f0, f1, f2, f3 := (b0 & 248) >> 3, ((b0 & 7) << 2) | ((b1 & 192) >> 6), (b1 & 62) >> 1,
      ((b1 & 1) << 4) | ((b2 & 240) >> 4);
    ghost var ds := FrontMatch(b0, b1, b2);
    PutFour(buf, at, f0, f1, f2, f3, ds);
  }

  method PutBack(buf: array<char>, at: nat, b2: bv8, b3: bv8, b4: bv8)
    requires at + 4 <= buf.Length
    modifies buf
    ensures buf[..at] == old(buf[..at])
    ensures Below(32, Back(b2 as nat, b3 as nat, b4 as nat))
    ensures buf[at..at + 4] == Chars(Back(b2 as nat, b3 as nat, b4 as nat))
  {
    var f0, f1, f2, f3 := ((b2 & 15) << 1) | ((b3 & 128) >> 7), (b3 & 124) >> 2, ((b3 & 3) << 3) | ((b4 & 224) >> 5),
      b4 & 31;
    ghost var ds := BackMatch(b2, b3, b4);
    PutFour(buf, at, f0, f1, f2, f3, ds);
  }

  method PutGroup(buf: array<char>, at: nat, b0: bv8, b1: bv8, b2: bv8, b3: bv8, b4: bv8)
    requires at + 8 <= buf.Length
    modifies buf
    ensures buf[..at] == old(buf[..at])
    ensures Below(32, Group(b0 as nat, b1 as nat, b2 as nat, b3 as nat, b4 as nat))
    ensures buf[at..at + 8] == Chars(Group(b0 as nat, b1 as nat, b2 as nat, b3 as nat, b4 as nat))
  {
    PutFront(buf, at, b0, b1, b2);
    ghost var was := buf[..];
    PutBack(buf, at + 4, b2, b3, b4);
    Joined(was, buf[..], at);
    CharsConcat(Front(b0 as nat, b1 as nat, b2 as nat), Back(b2 as nat, b3 as nat, b4 as nat));
  }

  /** Writing after the first four places keeps what is before them and in them. */
  lemma Joined(was: seq<char>, now: seq<char>, at: nat)
    requires at + 8 <= |was| == |now| && now[..at + 4] == was[..at + 4]
    ensures now[..at] == was[..at] && now[at..at + 8] == was[at..at + 4] + now[at + 4..at + 8]
  {
    assert now[..at] == now[..at + 4][..at] == was[..at];
    assert now[at..at + 4] == now[..at + 4][at..] == was[at..at + 4];
  }

  method PutFirst(buf: array<char>, b0: bv8)
    requires 2 <= buf.Length
    modifies buf
    ensures Below(32, [b0 as nat / 32, b0 as nat % 32]) && buf[..2] == Chars([b0 as nat / 32, b0 as nat % 32])
  {
    Tops(b0);
    Low5(b0);
    buf[0] := ENCODING[((b0 & 224) >> 5) as nat];
    buf[1] := ENCODING[(b0 & 31) as nat];
  }

  lemma Adjoin(buf: array<char>, i: nat, j: nat)
    requires i <= j <= buf.Length
    ensures buf[..j] == buf[..i] + buf[i..j]
  {
  }

  /** String prints the 26 base-32 digits of the 128-bit number. */
  method String(id: Bytes) returns (s: string)
    ensures s == Text(id)
  {
    var buf := new char[26];
    PutFirst(buf, id[0]);
    PutGroup(buf, 2, id[1], id[2], id[3], id[4], id[5]);
    Adjoin(buf, 2, 10);
    PutGroup(buf, 10, id[6], id[7], id[8], id[9], id[10]);
    Adjoin(buf, 10, 18);
    PutGroup(buf, 18, id[11], id[12], id[13], id[14], id[15]);
    Adjoin(buf, 18, 26);
    s := buf[..];
    assert s == buf[..26];
    Assembled(id);
  }

  /** The pieces of the buffer together are the text. */
  lemma Assembled(id: Bytes)
    ensures var v := Ints(id);
      var a, g1 := [v[0] / 32, v[0] % 32], Group(v[1], v[2], v[3], v[4], v[5]);
      var g2, g3 := Group(v[6], v[7], v[8], v[9], v[10]), Group(v[11], v[12], v[13], v[14], v[15]);
      && Below(32, a) && Below(32, g1) && Below(32, g2) && Below(32, g3)
      && Text(id) == Chars(a) + Chars(g1) + Chars(g2) + Chars(g3)
  {
    DigitsAreBase32(Ints(id));
    FourParts(Ints(id));
  }

  lemma FourParts(v: seq<nat>)
    requires |v| == 16 && Below(256, v) && Below(32, Digits(v))
    ensures var a, g1 := [v[0] / 32, v[0] % 32], Group(v[1], v[2], v[3], v[4], v[5]);
      var g2, g3 := Group(v[6], v[7], v[8], v[9], v[10]), Group(v[11], v[12], v[13], v[14], v[15]);
      && Below(32, a) && Below(32, g1) && Below(32, g2) && Below(32, g3)
      && Chars(Digits(v)) == Chars(a) + Chars(g1) + Chars(g2) + Chars(g3)
  {
    FirstByte(v[0]);
    GroupSum(v[1], v[2], v[3], v[4], v[5]);
    GroupSum(v[6], v[7], v[8], v[9], v[10]);
    GroupSum(v[11], v[12], v[13], v[14], v[15]);
    JoinFour([v[0] / 32, v[0] % 32], Group(v[1], v[2], v[3], v[4], v[5]), Group(v[6], v[7], v[8], v[9], v[10]),
             Group(v[11], v[12], v[13], v[14], v[15]));
  }

  lemma JoinFour(a: seq<nat>, g1: seq<nat>, g2: seq<nat>, g3: seq<nat>)
    requires Below(32, a) && Below(32, g1) && Below(32, g2) && Below(32, g3)
    ensures Below(32, a + g1 + g2 + g3) && Chars(a + g1 + g2 + g3) == Chars(a) + Chars(g1) + Chars(g2) + Chars(g3)
  {
    CharsConcat(a, g1);
    CharsConcat(a + g1, g2);
    CharsConcat(a + g1 + g2, g3);
  }

  lemma CharsConcat(a: seq<nat>, b: seq<nat>)
    requires Below(32, a) && Below(32, b)
    ensures Below(32, a + b) && Chars(a + b) == Chars(a) + Chars(b)
  {
  }

  // ----- order -----

  /** Compare of the embedded identifier: bytewise, -1, 0 or 1. */
  function Compare(u: seq<bv8>, o: seq<bv8>): int
    requires |u| == |o|
  {
    if u == [] then 0 else if u[0] < o[0] then -1 else if u[0] > o[0] then 1 else Compare(u[1..], o[1..])
  }

  predicate LessThan(u: Bytes, o: Bytes) {
    Compare(u, o) < 0
  }

  predicate GreaterThan(u: Bytes, o: Bytes) {
    Compare(u, o) > 0
  }

  predicate EqualsTo(u: Bytes, o: Bytes) {
    Compare(u, o) == 0
  }

  function Codes(s: string): (r: seq<nat>)
    ensures |r| == |s|
    ensures forall i :: 0 <= i < |r| ==> r[i] == s[i] as nat
  {
    seq(|s|, i requires 0 <= i < |s| => s[i] as nat)
  }

  lemma BitsOrder(x: bv8, y: bv8)
    ensures x < y <==> x as int < y as int
    ensures x == y <==> x as int == y as int
  {
  }

  lemma {:induction false} CompareIsLex(u: seq<bv8>, o: seq<bv8>)
    requires |u| == |o|
    ensures Compare(u, o) < 0 <==> LexLess(Ints(u), Ints(o))
    ensures Compare(u, o) == 0 <==> u == o
    decreases |u|
  {
    if u != [] {
      BitsOrder(u[0], o[0]);
      CompareIsLex(u[1..], o[1..]);
      assert Ints(u)[1..] == Ints(u[1..]) && Ints(o)[1..] == Ints(o[1..]);
      assert u == [u[0]] + u[1..] && o == [o[0]] + o[1..];
      LexLessFirst(Ints(u), Ints(o));
    }
  }

  lemma LexLessFirst(a: seq<nat>, b: seq<nat>)
    requires |a| == |b| > 0
    ensures LexLess(a, b) <==> a[0] < b[0] || (a[0] == b[0] && LexLess(a[1..], b[1..]))
  {
    if LexLess(a, b) {
      var k :| 0 <= k < |a| && k < |b| && a[..k] == b[..k] && a[k] < b[k];
      if k > 0 {
        assert a[0] == a[..k][0] == b[0];
        assert a[1..][..k - 1] == a[..k][1..] && b[1..][..k - 1] == b[..k][1..];
        assert a[1..][k - 1] < b[1..][k - 1];
      }
    }
    if a[0] < b[0] {
      assert a[..0] == b[..0];
    } else if a[0] == b[0] && LexLess(a[1..], b[1..]) {
      var k :| 0 <= k < |a| - 1 && a[1..][..k] == b[1..][..k] && a[1..][k] < b[1..][k];
      assert a[..k + 1] == [a[0]] + a[1..][..k] && b[..k + 1] == [b[0]] + b[1..][..k];
      assert a[k + 1] < b[k + 1];
    }
  }

  /** The alphabet is in ASCII order. */
  lemma EncodingAscends(i: nat, j: nat)
    requires i < j < 32
    ensures ENCODING[i] < ENCODING[j]
  {
  }

  lemma CharsOrder(a: seq<nat>, b: seq<nat>)
    requires |a| == |b| && Below(32, a) && Below(32, b)
    ensures LexLess(a, b) <==> LexLess(Codes(Chars(a)), Codes(Chars(b)))
    ensures Chars(a) == Chars(b) ==> a == b
  {
    var x, y := Codes(Chars(a)), Codes(Chars(b));
    forall k | 0 <= k < |a|
      ensures (a[k] < b[k] <==> x[k] < y[k]) && (a[k] == b[k] <==> x[k] == y[k])
    {
      if a[k] < b[k] {
        EncodingAscends(a[k], b[k]);
      } else if b[k] < a[k] {
        EncodingAscends(b[k], a[k]);
      }
    }
    assert forall k :: 0 <= k <= |a| ==> (a[..k] == b[..k] <==> x[..k] == y[..k]) by {
      forall k | 0 <= k <= |a| ensures a[..k] == b[..k] <==> x[..k] == y[..k] {
        PrefixAgree(a, b, x, y, k);
      }
    }
    if Chars(a) == Chars(b) {
      assert x == y;
    }
  }

  lemma PrefixAgree(a: seq<nat>, b: seq<nat>, x: seq<nat>, y: seq<nat>, k: nat)
    requires |a| == |b| == |x| == |y| && k <= |a|
    requires forall i :: 0 <= i < |a| ==> (a[i] == b[i] <==> x[i] == y[i])
    ensures a[..k] == b[..k] <==> x[..k] == y[..k]
  {
    if a[..k] == b[..k] {
      forall i | 0 <= i < k ensures x[i] == y[i] {
        assert a[..k][i] == b[..k][i];
      }
    }
    if x[..k] == y[..k] {
      forall i | 0 <= i < k ensures a[i] == b[i] {
        assert x[..k][i] == y[..k][i];
      }
    }
  }

  /** For all identifiers, byte order, numeric order and the ASCII order of the texts agree, and
      different identifiers have different texts. */
  lemma TextOrder(u: Bytes, v: Bytes)
    ensures LessThan(u, v) <==> Number(u) < Number(v)
    ensures LessThan(u, v) <==> LexLess(Codes(Text(u)), Codes(Text(v)))
    ensures GreaterThan(u, v) <==> Number(v) < Number(u)
    ensures EqualsTo(u, v) <==> Text(u) == Text(v)
    ensures Text(u) == Text(v) <==> u == v
  {
    CompareIsLex(u, v);
    ValueOrder(256, Ints(u), Ints(v));
    DigitsOrder(u, v);
    SameInts(u, v);
  }

  /** The texts compare as the numbers do. */
  lemma DigitsOrder(u: Bytes, v: Bytes)
    ensures Number(u) < Number(v) <==> LexLess(Codes(Text(u)), Codes(Text(v)))
    ensures Number(u) == Number(v) <==> Text(u) == Text(v)
  {
    var a, b := Base32(Number(u), 26), Base32(Number(v), 26);
    DigitsAreBase32(Ints(u));
    DigitsAreBase32(Ints(v));
    DigitsWrite(Ints(u));
    DigitsWrite(Ints(v));
    ValueOrder(32, a, b);
    CharsOrder(a, b);
  }

  lemma SameInts(u: Bytes, v: Bytes)
    ensures Ints(u) == Ints(v) <==> u == v
  {
    if Ints(u) == Ints(v) {
      forall i | 0 <= i < 16 ensures u[i] == v[i] {
        assert Ints(u)[i] == Ints(v)[i];
        BitsOrder(u[i], v[i]);
      }
    }
  }

  /** Printing loses nothing: the digits write the number again. */
  lemma DigitsWrite(v: seq<nat>)
    requires |v| == 16 && Below(256, v)
    ensures Value(32, Base32(Value(256, v), 26)) == Value(256, v)
  {
    DigitsValue(v);
    DigitsAreBase32(v);
  }

  // ----- reading the text -----

  /** A digit, or a lower-case letter other than i, l, o and u. */
  predicate InAlphabet(c: char) {
    '0' <= c <= '9' || ('a' <= c <= 'z' && c != 'i' && c != 'l' && c != 'o' && c != 'u')
  }

  /** The value of a character: letters count on from ten, without the four that are left out. */
  function CharValue(c: char): (v: nat)
    requires InAlphabet(c)
  {
    if c <= '9' then c as nat - '0' as nat
    else c as nat - 'a' as nat + 10 - if c < 'i' then 0 else if c < 'l' then 1 else if c < 'o' then 2
                                      else if c < 'u' then 3 else 4
  }

  lemma AlphabetSays(d: nat)
    requires d < 32
    ensures InAlphabet(ENCODING[d]) && CharValue(ENCODING[d]) == d
  {
  }

  /** The number that a text is read as, the first character counting most. */
  function Read(t: string): nat
    requires forall i :: 0 <= i < |t| ==> InAlphabet(t[i])
  {
    if t == "" then 0 else 32 * Read(t[..|t| - 1]) + CharValue(t[|t| - 1])
  }

  lemma {:induction false} CharsRead(ds: seq<nat>)
    requires Below(32, ds)
    ensures var t := Chars(ds);
            (forall i :: 0 <= i < |t| ==> InAlphabet(t[i])) && Read(t) == Value(32, ds)
    decreases |ds|
  {
    var t := Chars(ds);
    forall i | 0 <= i < |t| ensures InAlphabet(t[i]) {
      AlphabetSays(ds[i]);
    }
    if ds != [] {
      CharsRead(ds[..|ds| - 1]);
      assert t[..|t| - 1] == Chars(ds[..|ds| - 1]);
      AlphabetSays(ds[|ds| - 1]);
    }
  }

  /** The number the bytes stand for, the first counting most. */
  function BigEndian(bytes: seq<bv8>): nat {
    if bytes == [] then 0 else 256 * BigEndian(bytes[..|bytes| - 1]) + bytes[|bytes| - 1] as nat
  }

  lemma {:induction false} BigEndianIs(bytes: seq<bv8>)
    ensures BigEndian(bytes) == Value(256, Ints(bytes))
    decreases |bytes|
  {
    if bytes != [] {
      var n := |bytes| - 1;
      BigEndianIs(bytes[..n]);
      assert Ints(bytes)[..n] == Ints(bytes[..n]);
    }
  }

  /** The text is 26 characters of the alphabet, and they are read as the number of the bytes. */
  lemma TextReads(id: Bytes)
    ensures |Text(id)| == 26 && forall i :: 0 <= i < 26 ==> InAlphabet(Text(id)[i])
    ensures Read(Text(id)) == BigEndian(id)
  {
    CharsRead(Base32(Number(id), 26));
    DigitsWrite(Ints(id));
    BigEndianIs(id);
  }
}
