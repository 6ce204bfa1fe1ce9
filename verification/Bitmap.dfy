/**
 A bitmap that stores its own length (pkg/bitmap/bitmap.go): the content bytes, then the bit count as
 an unsigned varint. Reading one back tries every length the varint may have.
 */
module Bitmap {
  import opened Wrappers

  const MAX32: nat := 0x1_0000_0000

  /** ceil(bitCount / 8) in 32-bit arithmetic: the addition wraps. */
  function AlignTo8(bitCount: nat): nat
    requires bitCount < MAX32
  {
    (bitCount + 7) % MAX32 / 8
  }

  /** Every index below the count has a byte, exactly for the counts the addition does not wrap on. */
  lemma RoomIff(count: nat)
    requires count < MAX32
    ensures (forall i :: 0 <= i < count ==> i / 8 < AlignTo8(count)) <==> count <= MAX32 - 8
  {
    if count > MAX32 - 8 {
      assert 0 / 8 >= AlignTo8(count);
    }
  }

  // ----- varints -----

  function Varint(x: nat): seq<bv8> {
    if x < 128 then [x as bv8] else [(x % 128 + 128) as bv8] + Varint(x / 128)
  }

  /** The value and the number of bytes read, 0 when the bytes end too soon. The source never passes
      enough bytes to overflow. */
  function Uvarint(buf: seq<bv8>): (nat, nat)
    requires |buf| <= 5
  {
    if buf == [] then (0, 0)
    else if buf[0] as nat < 128 then (buf[0] as nat, 1)
    else
      var (x, n) := Uvarint(buf[1..]);
      if n == 0 then (0, 0) else (buf[0] as nat % 128 + 128 * x, n + 1)
  }

  lemma ByteBack(x: nat)
    requires x < 256
    ensures (x as bv8) as nat == x
  {
    assert x % 256 == x;
  }

  function Pow128(n: nat): (p: nat)
    ensures p > 0
  {
    if n == 0 then 1 else 128 * Pow128(n - 1)
  }

  lemma {:induction false} VarintLength(x: nat, n: nat)
    requires x < Pow128(n + 1)
    ensures 1 <= |Varint(x)| <= n + 1
    decreases n
  {
    assert Pow128(n + 1) == 128 * Pow128(n);
    if x >= 128 && n > 0 {
      VarintLength(x / 128, n - 1);
    }
  }

  lemma {:induction false} VarintRoundTrip(x: nat)
    requires |Varint(x)| <= 5
    ensures Uvarint(Varint(x)) == (x, |Varint(x)|)
    decreases x
  {
    if x < 128 {
      ByteBack(x);
    } else {
      ByteBack(x % 128 + 128);
      VarintRoundTrip(x / 128);
      assert Varint(x)[1..] == Varint(x / 128);
    }
  }

  /** The varint of a number has no more bytes than it needs, */
  lemma {:induction false} VarintShortest(x: nat)
    ensures var n := |Varint(x)|; n > 0 && x < Pow128(n) && (n == 1 || x >= Pow128(n - 1))
    decreases x
  {
    if x < 128 {
      assert Pow128(1) == 128 * Pow128(0);
    } else {
      VarintShortest(x / 128);
      PowStep(x, |Varint(x / 128)|);
      PowStep(x, |Varint(x / 128)| - 1);
    }
  }

  /** ... each with seven bits of it, the lowest first, and every byte but the last marked. */
  lemma {:induction false} VarintByte(x: nat, i: nat)
    requires i < |Varint(x)|
    ensures Varint(x)[i] as nat == x / Pow128(i) % 128 + if i + 1 < |Varint(x)| then 128 else 0
    decreases x
  {
    if i == 0 {
      FirstByte(x);
    } else {
      VarintRest(x, i);
      VarintByte(x / 128, i - 1);
      DivStep(x, Pow128(i - 1));
    }
  }

  lemma FirstByte(x: nat)
    ensures |Varint(x)| > 0 && Varint(x)[0] as nat == x % 128 + if 1 < |Varint(x)| then 128 else 0
    ensures x / Pow128(0) % 128 == x % 128
  {
    if x < 128 {
      ByteBack(x);
    } else {
      ByteBack(x % 128 + 128);
      VarintShortest(x / 128);
    }
  }

  lemma VarintRest(x: nat, i: nat)
    requires 0 < i < |Varint(x)|
    ensures x >= 128 && |Varint(x)| == |Varint(x / 128)| + 1 && Varint(x)[i] == Varint(x / 128)[i - 1]
  {
  }

  lemma PowStep(x: nat, n: nat)
    ensures x / 128 < Pow128(n) <==> x < Pow128(n + 1)
  {
    var q, p := x / 128, Pow128(n);
    assert Pow128(n + 1) == 128 * p;
    assert 128 * q <= x < 128 * q + 128;
    assert q < p ==> 128 * q + 128 <= 128 * p;
    assert q >= p ==> 128 * p <= 128 * q;
  }

  lemma DivStep(x: nat, p: nat)
    requires p > 0
    ensures x / 128 / p == x / (128 * p)
  {
    var q := x / 128 / p;
    var low, high := x % 128, x / 128 % p;
    assert x / 128 == q * p + high && x == 128 * (x / 128) + low;
    assert x == q * (128 * p) + (128 * high + low) by {
      assert 128 * (q * p) == q * (128 * p);
    }
    assert 128 * high + low < 128 * p;
    QuotientIs(x, 128 * p, q, 128 * high + low);
  }

  lemma QuotientIs(x: nat, m: nat, q: nat, r: nat)
    requires 0 < m && x == q * m + r && r < m
    ensures x / m == q
  {
    var q', r' := x / m, x % m;
    assert x == q' * m + r';
    if q < q' {
      Times(q + 1, q', m);
    } else if q' < q {
      Times(q' + 1, q, m);
    }
  }

  lemma Times(a: nat, b: nat, m: nat)
    requires a <= b
    ensures a * m <= b * m
  {
    assert b * m == a * m + (b - a) * m;
  }

  lemma LastByte(a: seq<bv8>)
    requires |a| == 1 && Uvarint(a).1 == 1
    ensures Uvarint(a).0 == a[0] as nat
  {
  }

  lemma LowSeven(x: nat)
    requires 128 <= x < 256
    ensures x % 128 == x - 128
  {
  }

  lemma MoreBytes(a: seq<bv8>)
    requires 2 <= |a| <= 5 && Uvarint(a).1 == |a|
    ensures Uvarint(a[1..]).1 == |a| - 1
    ensures 128 <= a[0] as nat < 256
    ensures Uvarint(a).0 == (a[0] as nat - 128) + 128 * Uvarint(a[1..]).0
  {
    LowSeven(a[0] as nat);
  }

  /** A varint without its first d bytes is the varint of the value shifted down. */
  lemma {:induction false} TailValue(buf: seq<bv8>, d: nat)
    requires |buf| <= 5 && Uvarint(buf).1 == |buf| && d < |buf|
    ensures Uvarint(buf[d..]).1 == |buf| - d
    ensures Shifted(Pow128(d), Uvarint(buf[d..]).0, Uvarint(buf).0)
    decreases d
  {
    if d == 0 {
      assert buf[0..] == buf;
    } else {
      MoreBytes(buf);
      TailValue(buf[1..], d - 1);
      assert buf[1..][d - 1..] == buf[d..];
      ShiftedMore(Pow128(d - 1), Uvarint(buf[d..]).0, Uvarint(buf[1..]).0, buf[0] as nat - 128);
    }
  }

  /** y without its low digits, which number fewer than p, is x. */
  predicate Shifted(p: nat, x: nat, y: nat) {
    p * x <= y < p * (x + 1)
  }

  lemma ShiftedMore(p: nat, x: nat, y: nat, low: nat)
    requires Shifted(p, x, y) && low < 128
    ensures Shifted(128 * p, x, low + 128 * y)
  {
    assert 128 * p * x == 128 * (p * x) && 128 * p * (x + 1) == 128 * (p * (x + 1));
  }

  // ----- layout -----

  function Count(bits: seq<bv8>, k: nat): nat
    requires k <= |bits| && k <= 5
  {
    Uvarint(bits[|bits| - k..]).0
  }

  /** The layout test for a count of k bytes. */
  predicate Passes(bits: seq<bv8>, k: nat) {
    && 1 <= k <= 5 && k <= |bits|
    && Uvarint(bits[|bits| - k..]).1 == k
    && Count(bits, k) < MAX32
    && AlignTo8(Count(bits, k)) + k == |bits|
  }

  predicate HasLayout(bits: seq<bv8>, count: nat) {
    exists k :: 1 <= k <= 5 && Passes(bits, k) && Count(bits, k) == count
  }

  /** The arithmetic core: a longer count is too large for its content to be shorter, unless the 32-bit
      addition wraps, and then the shorter count would have to be one no 32-bit value extends. */
  lemma NoTwoCounts(c1: nat, c2: nat, d: nat, p: nat)
    requires c1 < MAX32 && c2 < MAX32 && 1 <= d <= 4
    requires p == if d == 1 then 128 else if d == 2 then 16384 else if d == 3 then 2097152 else 268435456
    requires Shifted(p, c1, c2)
    ensures AlignTo8(c1) != AlignTo8(c2) + d
  {
    NoWrap(c1);
    NoWrap(c2);
  }

  lemma NoWrap(c: nat)
    requires c < MAX32
    ensures c > MAX32 - 8 ==> AlignTo8(c) == 0
    ensures c <= MAX32 - 8 ==> AlignTo8(c) == (c + 7) / 8
  {
  }

  lemma Pow128Table()
    ensures Pow128(1) == 128 && Pow128(2) == 16384 && Pow128(3) == 2097152 && Pow128(4) == 268435456
  {
    assert Pow128(0) == 1;
    assert Pow128(1) == 128 * Pow128(0);
    assert Pow128(2) == 128 * Pow128(1);
    assert Pow128(3) == 128 * Pow128(2);
  }

  /** For every byte string at most one length passes. */
  lemma OneLength(bits: seq<bv8>, k1: nat, k2: nat)
    requires Passes(bits, k1) && Passes(bits, k2)
    ensures k1 == k2
  {
    if k1 < k2 {
      NotBoth(bits, k1, k2);
    } else if k2 < k1 {
      NotBoth(bits, k2, k1);
    }
  }

  lemma NotBoth(bits: seq<bv8>, k1: nat, k2: nat)
    requires k1 < k2 && Passes(bits, k1)
    ensures !Passes(bits, k2)
  {
    if Passes(bits, k2) {
      var tail, d := bits[|bits| - k2..], k2 - k1;
      TailValue(tail, d);
      assert tail[d..] == bits[|bits| - k1..];
      Pow128Table();
      NoTwoCounts(Count(bits, k1), Count(bits, k2), d, Pow128(d));
    }
  }

  lemma OneCount(bits: seq<bv8>, c1: nat, c2: nat)
    requires HasLayout(bits, c1) && HasLayout(bits, c2)
    ensures c1 == c2
  {
    var k1 :| 1 <= k1 <= 5 && Passes(bits, k1) && Count(bits, k1) == c1;
    var k2 :| 1 <= k2 <= 5 && Passes(bits, k2) && Count(bits, k2) == c2;
    OneLength(bits, k1, k2);
  }

  /** What New lays out. */
  function Fresh(count: nat): seq<bv8>
    requires count < MAX32
  {
    seq(AlignTo8(count), _ => 0) + Varint(count)
  }

  lemma FreshHasLayout(count: nat)
    requires count < MAX32
    ensures HasLayout(Fresh(count), count)
  {
    Pow128Table();
    assert Pow128(5) == 128 * Pow128(4);
    VarintLength(count, 4);
    VarintRoundTrip(count);
    var bits, k := Fresh(count), |Varint(count)|;
    assert bits[|bits| - k..] == Varint(count);
    assert Passes(bits, k);
  }

  // ----- single bits -----

  function Mask(k: nat): bv8
    requires k < 8
  {
    1 << k
  }

  predicate BitAt(bits: seq<bv8>, index: nat)
    requires index / 8 < |bits|
  {
    bits[index / 8] & Mask(index % 8) != 0
  }

  datatype Op = SetAt(index: nat) | UnsetAt(index: nat)

  function Apply(bits: seq<bv8>, op: Op): (r: seq<bv8>)
    requires op.index / 8 < |bits|
    ensures |r| == |bits|
  {
    var byte, mask := bits[op.index / 8], Mask(op.index % 8);
    bits[op.index / 8 := if op.SetAt? then byte | mask else byte & !mask]
  }

  lemma MaskIs(k: nat)
    requires k < 8
    ensures Mask(k) == if k == 0 then 1 else if k == 1 then 2 else if k == 2 then 4 else if k == 3 then 8
                       else if k == 4 then 16 else if k == 5 then 32 else if k == 6 then 64 else 128
  {
  }

  lemma MaskedBit(b: bv8, j: nat, k: nat)
    requires j < 8 && k < 8
    ensures (b | Mask(k)) & Mask(j) != 0 <==> j == k || b & Mask(j) != 0
    ensures (b & !Mask(k)) & Mask(j) != 0 <==> j != k && b & Mask(j) != 0
  {
    MaskIs(j);
    MaskIs(k);
  }

  /** One operation changes its own bit and no other. */
  lemma ApplyBit(bits: seq<bv8>, op: Op, i: nat)
    requires op.index / 8 < |bits| && i / 8 < |bits|
    ensures BitAt(Apply(bits, op), i) <==> if i == op.index then op.SetAt? else BitAt(bits, i)
  {
    if i / 8 == op.index / 8 {
      MaskedBit(bits[i / 8], i % 8, op.index % 8);
    }
  }

  // ----- whole histories -----

  predicate Within(ops: seq<Op>, count: nat) {
    forall k :: 0 <= k < |ops| ==> ops[k].index < count
  }

  function Run(bits: seq<bv8>, ops: seq<Op>): (r: seq<bv8>)
    requires Within(ops, 8 * |bits|)
    ensures |r| == |bits|
  {
    if ops == [] then bits else Apply(Run(bits, ops[..|ops| - 1]), ops[|ops| - 1])
  }

  /** The last operation on an index decides. */
  predicate LastSet(ops: seq<Op>, i: nat) {
    ops != [] && (if ops[|ops| - 1].index == i then ops[|ops| - 1].SetAt? else LastSet(ops[..|ops| - 1], i))
  }

  /** The tail that holds the count is out of reach of indices below the content's end. */
  lemma {:induction false} RunKeepsTail(bits: seq<bv8>, ops: seq<Op>, from: nat)
    requires from <= |bits| && Within(ops, 8 * from)
    ensures Within(ops, 8 * |bits|) && Run(bits, ops)[from..] == bits[from..]
    decreases |ops|
  {
    if ops != [] {
      RunKeepsTail(bits, ops[..|ops| - 1], from);
    }
  }

  lemma {:induction false} RunBits(bits: seq<bv8>, ops: seq<Op>, i: nat)
    requires Within(ops, 8 * |bits|) && i / 8 < |bits| && !BitAt(bits, i)
    ensures BitAt(Run(bits, ops), i) <==> LastSet(ops, i)
    decreases |ops|
  {
    if ops != [] {
      RunBits(bits, ops[..|ops| - 1], i);
      ApplyBit(Run(bits, ops[..|ops| - 1]), ops[|ops| - 1], i);
    }
  }

  /** Set and Unset inside the content keep the layout, whatever the bitmap. */
  lemma RunKeepsLayout(bits: seq<bv8>, count: nat, ops: seq<Op>)
    requires HasLayout(bits, count) && count < MAX32 && Within(ops, 8 * AlignTo8(count))
    ensures Within(ops, 8 * |bits|) && HasLayout(Run(bits, ops), count)
  {
    var k :| 1 <= k <= 5 && Passes(bits, k) && Count(bits, k) == count;
    RunKeepsTail(bits, ops, |bits| - k);
    assert Passes(Run(bits, ops), k);
  }

  /** An operation changes its own bit and no other, and inside the content the bytes stay readable. */
  lemma OneOperation(bits: seq<bv8>, count: nat, op: Op)
    requires op.index / 8 < |bits|
    ensures forall i: nat :: i / 8 < |bits| ==>
              (BitAt(Apply(bits, op), i) <==> if i == op.index then op.SetAt? else BitAt(bits, i))
    ensures count < MAX32 && HasLayout(bits, count) && op.index < 8 * AlignTo8(count) ==>
      HasLayout(Apply(bits, op), count)
  {
    forall i: nat | i / 8 < |bits|
      ensures BitAt(Apply(bits, op), i) <==> if i == op.index then op.SetAt? else BitAt(bits, i)
    {
      ApplyBit(bits, op, i);
    }
    if count < MAX32 && HasLayout(bits, count) && op.index < 8 * AlignTo8(count) {
      RunKeepsLayout(bits, count, [op]);
      assert [op][..0] == [];
      assert Run(bits, [op]) == Apply(Run(bits, []), op);
    }
  }

  /** For counts up to 2^32 - 8 and any history below the count: the string reads back to the same
      bytes and only to that count, and each bit says whether it was set last. */
  lemma HistoryRoundTrip(count: nat, ops: seq<Op>)
    requires count <= MAX32 - 8 && Within(ops, count)
    ensures Within(ops, 8 * |Fresh(count)|)
    ensures var bits := Run(Fresh(count), ops);
      && DecodeHex(EncodeHex(bits)) == Some(bits)
      && (forall c :: HasLayout(bits, c) <==> c == count)
      && (forall i :: 0 <= i < count ==> i / 8 < |bits| && (BitAt(bits, i) <==> LastSet(ops, i)))
  {
    RoomIff(count);
    FreshHasLayout(count);
    RunKeepsLayout(Fresh(count), count, ops);
    var bits := Run(Fresh(count), ops);
    HexRoundTrip(bits);
    forall c | HasLayout(bits, c) ensures c == count {
      OneCount(bits, c, count);
    }
    forall i | 0 <= i < count ensures i / 8 < |bits| && (BitAt(bits, i) <==> LastSet(ops, i)) {
      assert i / 8 < AlignTo8(count);
      FreshIsClear(count, i);
      RunBits(Fresh(count), ops, i);
    }
  }

  lemma FreshIsClear(count: nat, i: nat)
    requires count < MAX32 && i / 8 < AlignTo8(count)
    ensures !BitAt(Fresh(count), i)
  {
    assert Fresh(count)[i / 8] == 0;
    MaskIs(i % 8);
  }

  lemma LowDigits(p: nat, x: nat, q: nat, y: nat)
    requires p < 128 && q < 128 && p + 128 * x == q + 128 * y
    ensures p == q && x == y
  {
  }

  /** Bytes that are read to their end are determined by the value. */
  lemma {:induction false} UvarintInjective(a: seq<bv8>, b: seq<bv8>)
    requires |a| == |b| <= 5 && Uvarint(a).1 == |a| && Uvarint(b) == Uvarint(a)
    ensures a == b
    decreases |a|
  {
    if |a| == 1 {
      LastByte(a);
      LastByte(b);
      SameByte(a[0], b[0]);
    } else if |a| > 1 {
      MoreBytes(a);
      MoreBytes(b);
      LowDigits(a[0] as nat - 128, Uvarint(a[1..]).0, b[0] as nat - 128, Uvarint(b[1..]).0);
      UvarintInjective(a[1..], b[1..]);
      SameByte(a[0], b[0]);
      assert a == [a[0]] + a[1..] && b == [b[0]] + b[1..];
    }
  }

  lemma SameByte(x: bv8, y: bv8)
    requires x as nat == y as nat
    ensures x == y
  {
  }

  /** An operation that finds its bit as it leaves it changes nothing. */
  lemma IdleOperation(bits: seq<bv8>, op: Op)
    requires op.index / 8 < |bits| && (BitAt(bits, op.index) <==> op.SetAt?)
    ensures Apply(bits, op) == bits
  {
    MaskedByte(bits[op.index / 8], op.index % 8);
  }

  lemma MaskedByte(b: bv8, k: nat)
    requires k < 8
    ensures b & Mask(k) != 0 ==> b | Mask(k) == b
    ensures b & Mask(k) == 0 ==> b & !Mask(k) == b
  {
    MaskIs(k);
  }

  /** The bytes past the content are the count's. */
  lemma TailAt(bits: seq<bv8>, count: nat)
    requires HasLayout(bits, count)
    ensures var from := AlignTo8(count);
      from <= |bits| <= from + 5 && Uvarint(bits[from..]) == (count, |bits| - from)
  {
    var k :| 1 <= k <= 5 && Passes(bits, k) && Count(bits, k) == count;
    assert |bits| - k == AlignTo8(count);
  }

  /** Byte strings of one length that are read with the same count agree on the bytes past the content. */
  lemma TailDetermined(bits: seq<bv8>, other: seq<bv8>, count: nat, at: nat)
    requires count < MAX32 && |bits| == |other| && HasLayout(bits, count) && HasLayout(other, count)
    requires AlignTo8(count) <= at < |bits|
    ensures bits[at] == other[at]
  {
    var from := AlignTo8(count);
    TailAt(bits, count);
    TailAt(other, count);
    UvarintInjective(bits[from..], other[from..]);
    assert bits[at] == bits[from..][at - from] == other[from..][at - from];
  }

  /** Set and Unset do not compare their index with the count. For every bitmap and every index that has a
      byte: the bytes are still read with the same count exactly if the index is inside the content or the
      bit was already as the operation leaves it. */
  lemma CountKeptIff(bits: seq<bv8>, count: nat, op: Op)
    requires count < MAX32 && HasLayout(bits, count) && op.index / 8 < |bits|
    ensures HasLayout(Apply(bits, op), count) <==>
      op.index < 8 * AlignTo8(count) || (BitAt(bits, op.index) <==> op.SetAt?)
  {
    var after := Apply(bits, op);
    if op.index < 8 * AlignTo8(count) {
      OneOperation(bits, count, op);
    } else if BitAt(bits, op.index) <==> op.SetAt? {
      IdleOperation(bits, op);
    } else {
      ApplyBit(bits, op, op.index);
      if HasLayout(after, count) {
        TailDetermined(bits, after, count, op.index / 8);
      }
    }
  }

  /** One past the content of a bitmap of one bit: its bytes are read with another count. */
  lemma SetPastContentChangesCount()
    ensures HasLayout([0, 1], 1) && 9 / 8 < |[0 as bv8, 1]|
    ensures Apply([0, 1], SetAt(9)) == [0, 3] && HasLayout([0, 3], 3) && !HasLayout([0, 3], 1)
  {
    FreshHasLayout(1);
    assert Fresh(1) == [0, 1];
    FreshHasLayout(3);
    assert Fresh(3) == [0, 3];
    MaskIs(1);
    CountKeptIff([0, 1], 1, SetAt(9));
  }

  // ----- hexadecimal -----

  const HEX: string := "0123456789abcdef"

  function HexDigit(n: bv8): char
    requires n < 16
  {
    HEX[n as nat]
  }

  function FromHex(c: char): Option<bv8> {
    if '0' <= c <= '9' then Some((c as nat - 48) as bv8)
    else if 'a' <= c <= 'f' then Some((c as nat - 87) as bv8)
    else if 'A' <= c <= 'F' then Some((c as nat - 55) as bv8)
    else None
  }

  function EncodeHex(bytes: seq<bv8>): string {
    if bytes == [] then "" else [HexDigit(bytes[0] >> 4), HexDigit(bytes[0] & 15)] + EncodeHex(bytes[1..])
  }

  function DecodeHex(s: string): Option<seq<bv8>> {
    if s == "" then Some([])
    else if |s| == 1 || FromHex(s[0]).None? || FromHex(s[1]).None? then None
    else
      var rest := DecodeHex(s[2..]);
      if rest.None? then None else Some([(FromHex(s[0]).value << 4) | FromHex(s[1]).value] + rest.value)
  }

  lemma NibbleRoundTrip(n: bv8)
    requires n < 16
    ensures FromHex(HexDigit(n)) == Some(n)
  {
  }

  lemma Nibbles(b: bv8)
    ensures b >> 4 < 16 && b & 15 < 16 && ((b >> 4) << 4) | (b & 15) == b
  {
  }

  lemma HexOne(b: bv8)
    ensures var high, low := FromHex(HexDigit(b >> 4)), FromHex(HexDigit(b & 15));
      high.Some? && low.Some? && (high.value << 4) | low.value == b
  {
    Nibbles(b);
    NibbleRoundTrip(b >> 4);
    NibbleRoundTrip(b & 15);
  }

  lemma {:induction false} HexRoundTrip(bytes: seq<bv8>)
    ensures DecodeHex(EncodeHex(bytes)) == Some(bytes)
    decreases |bytes|
  {
    if bytes != [] {
      HexRoundTrip(bytes[1..]);
      HexCons(bytes[0], bytes[1..]);
      assert bytes == [bytes[0]] + bytes[1..];
    }
  }

  /** The lower-case digit of a number below sixteen. */
  predicate IsDigitOf(c: char, n: nat) {
    if n < 10 then c as nat == '0' as nat + n else n < 16 && c as nat == 'a' as nat + n - 10
  }

  lemma DigitSays(n: bv8)
    requires n < 16
    ensures IsDigitOf(HexDigit(n), n as nat)
  {
    assert n as nat < 16;
  }

  lemma HalvesAre(b: bv8)
    ensures b >> 4 < 16 && b & 15 < 16 && (b >> 4) as nat == b as nat / 16 && (b & 15) as nat == b as nat % 16
  {
  }

  /** Byte i is written as two lower-case digits, the high one first. */
  lemma {:induction false} HexSays(bytes: seq<bv8>, i: nat)
    requires i < |bytes|
    ensures var s := EncodeHex(bytes);
            && |s| == 2 * |bytes|
            && IsDigitOf(s[2 * i], bytes[i] as nat / 16) && IsDigitOf(s[2 * i + 1], bytes[i] as nat % 16)
    decreases |bytes|
  {
    var b := bytes[0];
    HalvesAre(b);
    DigitSays(b >> 4);
    DigitSays(b & 15);
    HexLength(bytes);
    if i > 0 {
      HexSays(bytes[1..], i - 1);
      var rest := EncodeHex(bytes[1..]);
      assert EncodeHex(bytes)[2..] == rest;
      assert EncodeHex(bytes)[2 * i] == rest[2 * i - 2] && EncodeHex(bytes)[2 * i + 1] == rest[2 * i - 1];
    }
  }

  lemma {:induction false} HexLength(bytes: seq<bv8>)
    ensures |EncodeHex(bytes)| == 2 * |bytes|
    decreases |bytes|
  {
    if bytes != [] {
      HexLength(bytes[1..]);
    }
  }

  /** A hexadecimal digit of either case, and its value. */
  predicate StandsFor(c: char, n: nat) {
    IsDigitOf(c, n) || (10 <= n < 16 && c as nat == 'A' as nat + n - 10)
  }

  /** Digits are read in pairs, the high one first. */
  predicate ReadsAs(s: string, bytes: seq<bv8>) {
    && |s| == 2 * |bytes|
    && forall i :: 0 <= i < |bytes| ==>
         StandsFor(s[2 * i], bytes[i] as nat / 16) && StandsFor(s[2 * i + 1], bytes[i] as nat % 16)
  }

  /** A digit's place among the sixteen, or sixteen. */
  function DigitValue(c: char): nat {
    if '0' <= c <= '9' then c as nat - 48
    else if 'a' <= c <= 'f' then c as nat - 87
    else if 'A' <= c <= 'F' then c as nat - 55
    else 16
  }

  lemma StandsForIts(c: char, n: nat)
    requires n < 16
    ensures StandsFor(c, n) <==> DigitValue(c) == n
  {
  }

  lemma FromHexIs(c: char)
    ensures FromHex(c).Some? <==> DigitValue(c) < 16
    ensures FromHex(c).Some? ==> FromHex(c).value as nat == DigitValue(c)
  {
    if DigitValue(c) < 16 {
      ByteBack(DigitValue(c));
    }
  }

  lemma JoinHalves(high: bv8, low: bv8, b: bv8)
    requires high < 16 && low < 16
    ensures (high << 4) | low == b <==> high == b >> 4 && low == b & 15
  {
  }

  /** Two digits are read as the byte whose halves they stand for. */
  lemma PairSays(high: char, low: char, h: Option<bv8>, l: Option<bv8>, b: bv8)
    requires h == FromHex(high) && l == FromHex(low)
    ensures h.Some? && l.Some? && (h.value << 4) | l.value == b
       <==> StandsFor(high, b as nat / 16) && StandsFor(low, b as nat % 16)
  {
    FromHexIs(high);
    FromHexIs(low);
    ValuesSay(high, low, h, l, b);
  }

  lemma ValuesSay(high: char, low: char, h: Option<bv8>, l: Option<bv8>, b: bv8)
    requires (h.Some? <==> DigitValue(high) < 16) && (h.Some? ==> h.value as nat == DigitValue(high))
    requires (l.Some? <==> DigitValue(low) < 16) && (l.Some? ==> l.value as nat == DigitValue(low))
    ensures h.Some? && l.Some? && (h.value << 4) | l.value == b
       <==> StandsFor(high, b as nat / 16) && StandsFor(low, b as nat % 16)
  {
    BelowSixteen(b);
    StandsForIts(high, b as nat / 16);
    StandsForIts(low, b as nat % 16);
    PairOf(h, l, DigitValue(high), DigitValue(low), b);
  }

  lemma PairOf(high: Option<bv8>, low: Option<bv8>, h: nat, l: nat, b: bv8)
    requires (high.Some? <==> h < 16) && (high.Some? ==> high.value as nat == h)
    requires (low.Some? <==> l < 16) && (low.Some? ==> low.value as nat == l)
    ensures high.Some? && low.Some? && (high.value << 4) | low.value == b <==> h == b as nat / 16 && l == b as nat % 16
  {
    BelowSixteen(b);
    if high.Some? && low.Some? {
      HalvesMeet(high.value, low.value, b);
    }
  }

  lemma BelowSixteen(b: bv8)
    ensures b as nat / 16 < 16 && b as nat % 16 < 16
  {
  }

  lemma HalvesMeet(high: bv8, low: bv8, b: bv8)
    requires high as nat < 16 && low as nat < 16
    ensures (high << 4) | low == b <==> high as nat == b as nat / 16 && low as nat == b as nat % 16
  {
    HalvesAre(b);
    SmallByte(high);
    SmallByte(low);
    JoinHalves(high, low, b);
    SameNumber(high, b >> 4);
    SameNumber(low, b & 15);
  }

  lemma SmallByte(n: bv8)
    requires n as nat < 16
    ensures n < 16
  {
  }

  lemma SameNumber(x: bv8, y: bv8)
    ensures x == y <==> x as nat == y as nat
  {
  }

  /** Decoding succeeds with the bytes that the digits stand for, and exactly if they stand for some. */
  lemma {:induction false} DecodeSays(s: string, bytes: seq<bv8>)
    ensures DecodeHex(s) == Some(bytes) <==> ReadsAs(s, bytes)
    decreases |s|
  {
    if |s| >= 2 && bytes != [] {
      DecodeSays(s[2..], bytes[1..]);
      ReadsMore(s, bytes);
      PairSays(s[0], s[1], FromHex(s[0]), FromHex(s[1]), bytes[0]);
      DecodeFirst(s, bytes);
    }
  }

  lemma DecodeFirst(s: string, bytes: seq<bv8>)
    requires |s| >= 2 && bytes != []
    ensures DecodeHex(s) == Some(bytes)
       <==> FromHex(s[0]).Some? && FromHex(s[1]).Some?
            && (FromHex(s[0]).value << 4) | FromHex(s[1]).value == bytes[0]
            && DecodeHex(s[2..]) == Some(bytes[1..])
  {
    if FromHex(s[0]).Some? && FromHex(s[1]).Some? && DecodeHex(s[2..]).Some? {
      ConsIs((FromHex(s[0]).value << 4) | FromHex(s[1]).value, DecodeHex(s[2..]).value, bytes);
    }
  }

  lemma ConsIs(b: bv8, rest: seq<bv8>, bytes: seq<bv8>)
    requires bytes != []
    ensures [b] + rest == bytes <==> b == bytes[0] && rest == bytes[1..]
  {
    assert ([b] + rest)[1..] == rest;
  }

  lemma ReadsMore(s: string, bytes: seq<bv8>)
    requires |s| >= 2 && bytes != []
    ensures ReadsAs(s, bytes)
       <==> StandsFor(s[0], bytes[0] as nat / 16) && StandsFor(s[1], bytes[0] as nat % 16)
            && ReadsAs(s[2..], bytes[1..])
  {
    var t, rest := s[2..], bytes[1..];
    if |s| == 2 * |bytes| {
      forall i | 0 <= i < |rest|
        ensures t[2 * i] == s[2 * (i + 1)] && t[2 * i + 1] == s[2 * (i + 1) + 1] && rest[i] == bytes[i + 1]
      {
      }
      if ReadsAs(t, rest) {
        forall i | 0 < i < |bytes|
          ensures StandsFor(s[2 * i], bytes[i] as nat / 16) && StandsFor(s[2 * i + 1], bytes[i] as nat % 16)
        {
          assert rest[i - 1] == bytes[i];
          assert t[2 * (i - 1)] == s[2 * i] && t[2 * (i - 1) + 1] == s[2 * i + 1];
        }
      }
    }
  }

  lemma HexCons(b: bv8, rest: seq<bv8>)
    requires DecodeHex(EncodeHex(rest)) == Some(rest)
    ensures DecodeHex(EncodeHex([b] + rest)) == Some([b] + rest)
  {
    HexOne(b);
    DecodeOne(HexDigit(b >> 4), HexDigit(b & 15), EncodeHex(rest));
    assert ([b] + rest)[1..] == rest;
  }

  lemma DecodeOne(high: char, low: char, rest: string)
    requires FromHex(high).Some? && FromHex(low).Some? && DecodeHex(rest).Some?
    ensures DecodeHex([high, low] + rest)
         == Some([(FromHex(high).value << 4) | FromHex(low).value] + DecodeHex(rest).value)
  {
    assert ([high, low] + rest)[2..] == rest;
  }

  // ----- the program -----

  /** The search: it finds a count exactly when the bytes have that layout. */
  method FindCount(bits: seq<bv8>) returns (r: Option<nat>)
    ensures forall c: nat :: HasLayout(bits, c) <==> r == Some(c)
  {
    var maxCountBytes := 5;
    if |bits| < maxCountBytes {
      maxCountBytes := |bits|;
    }
    for countBytes := 1 to maxCountBytes + 1
      invariant forall k :: 1 <= k < countBytes ==> !Passes(bits, k)
    {
      var start := |bits| - countBytes;
      var (count, n) := Uvarint(bits[start..]);
      if n != countBytes {
        continue;
      }
      if count > MAX32 - 1 {
        continue;
      }
      if AlignTo8(count) + countBytes != |bits| {
        continue;
      }
      assert Passes(bits, countBytes) && HasLayout(bits, count);
      forall c | HasLayout(bits, c) ensures c == count {
        OneCount(bits, c, count);
      }
      return Some(count);
    }
    r := None;
  }

  class Bitmap {
    var bitCount: nat
    var bits: array<bv8>

    ghost predicate Valid()
      reads this, bits
    {
      bitCount < MAX32 && HasLayout(bits[..], bitCount)
    }

    constructor (count: nat)
      requires count < MAX32
      ensures bitCount == count && bits[..] == Fresh(count) && fresh(bits) && Valid()
    {
      var ab := AlignTo8(count);
      var cb := Varint(count);
      var bytes := new bv8[ab + |cb|](_ => 0);
      forall i | 0 <= i < |cb| {
        bytes[ab + i] := cb[i];
      }
      bitCount := count;
      bits := bytes;
      assert bytes[..] == Fresh(count);
      FreshHasLayout(count);
    }

    constructor Wrap(count: nat, content: seq<bv8>)
      ensures bitCount == count && bits[..] == content && fresh(bits)
    {
      bitCount := count;
      var bytes := new bv8[|content|](i requires 0 <= i < |content| => content[i]);
      bits := bytes;
      assert bytes[..] == content;
    }

    method Set(index: nat)
      requires index / 8 < bits.Length
      modifies bits
      ensures bits[..] == Apply(old(bits[..]), SetAt(index))
    {
      var bitIndex := index % 8;
      var byteIndex := index / 8;
      bits[byteIndex] := bits[byteIndex] | (1 << bitIndex);
    }

    method Unset(index: nat)
      requires index / 8 < bits.Length
      modifies bits
      ensures bits[..] == Apply(old(bits[..]), UnsetAt(index))
    {
      var bitIndex := index % 8;
      var byteIndex := index / 8;
      bits[byteIndex] := bits[byteIndex] & !(1 << bitIndex);
    }

    predicate Get(index: nat)
      requires index / 8 < bits.Length
      reads this, bits
    {
      bits[index / 8] & (1 << (index % 8)) != 0
    }

    /** Exactly the set indices below the count, ascending. */
    method GetAllSet() returns (out: seq<nat>)
      requires bitCount <= 8 * bits.Length
      ensures forall i, j :: 0 <= i < j < |out| ==> out[i] < out[j]
      ensures forall i: nat :: i in out <==> i < bitCount && BitAt(bits[..], i)
    {
      out := [];
      for i := 0 to bitCount
        invariant forall a :: 0 <= a < |out| ==> out[a] < i
        invariant forall a, b :: 0 <= a < b < |out| ==> out[a] < out[b]
        invariant forall j: nat :: j in out <==> j < i && BitAt(bits[..], j)
      {
        if Get(i) {
          out := out + [i];
        }
      }
    }

    method String() returns (s: string)
      ensures s == EncodeHex(bits[..])
    {
      s := EncodeHex(bits[..]);
    }

    /** A string is read as a bitmap exactly when it is hexadecimal and its bytes have a layout. */
    static method NewFrom(s: string) returns (r: Option<Bitmap>)
      ensures r.Some? ==> fresh(r.value) && fresh(r.value.bits) && r.value.Valid()
                          && DecodeHex(s) == Some(r.value.bits[..])
      ensures r.None? ==> DecodeHex(s).None? || forall c :: !HasLayout(DecodeHex(s).value, c)
    {
      var decoded := DecodeHex(s);
      if decoded.None? {
        return None;
      }
      var count := FindCount(decoded.value);
      if count.None? {
        return None;
      }
      assert HasLayout(decoded.value, count.value);
      var b := new Bitmap.Wrap(count.value, decoded.value);
      r := Some(b);
    }
  }

  /** A bitmap in a valid state, written and read back, is equal to itself. */
  method WriteThenRead(b: Bitmap) returns (r: Option<Bitmap>)
    requires b.Valid()
    ensures r.Some? && r.value.bitCount == b.bitCount && r.value.bits[..] == b.bits[..]
  {
    var s := b.String();
    HexRoundTrip(b.bits[..]);
    r := Bitmap.NewFrom(s);
    assert HasLayout(b.bits[..], b.bitCount);
    OneCount(b.bits[..], b.bitCount, r.value.bitCount);
  }
}
