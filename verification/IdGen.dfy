/**
 The id generator of pkg/idgen/idgen.go: a bounded LRU of per-key counters.

 `Rec` sequences, most recently touched first, are the reference model; the class keeps a map
 and a list of shared mutable entries, as the source does, and is proved to represent one.
 */
module IdGen {

  const DEFAULT_MAX_KEYS: nat := 102400
  const UINT64: nat := 0x1_0000_0000_0000_0000

  /** A tracked key and the (ms, idx) pair it returned last. */
  datatype Rec = Rec(key: string, ms: int, idx: nat)

  datatype State = State(maxKeys: nat, recs: seq<Rec>)

  datatype Op = Get(key: string, now: int) | SetMaxKeys(n: int)

  function Capacity(n: int): nat {
    if n <= 0 then DEFAULT_MAX_KEYS else n
  }

  function Find(recs: seq<Rec>, key: string): (i: nat)
    ensures i <= |recs|
    ensures i < |recs| ==> recs[i].key == key
    ensures forall j :: 0 <= j < i ==> recs[j].key != key
  {
    if recs == [] || recs[0].key == key then 0 else 1 + Find(recs[1..], key)
  }

  predicate Tracked(recs: seq<Rec>, key: string) {
    Find(recs, key) < |recs|
  }

  function Truncate(recs: seq<Rec>, n: nat): seq<Rec> {
    if |recs| <= n then recs else recs[..n]
  }

  /** The element at i moved to the front, the others in their order. */
  function ToFront<T>(s: seq<T>, i: nat): seq<T>
    requires i < |s|
  {
    seq(|s|, j requires 0 <= j < |s| => if j == 0 then s[i] else if j <= i then s[j - 1] else s[j])
  }

  /** touch: the key comes first; the others keep their order, the oldest leave if there is no room. */
  function Touched(s: State, key: string, now: int): State
    requires s.maxKeys > 0
  {
    var i := Find(s.recs, key);
    if i < |s.recs| then s.(recs := ToFront(s.recs, i))
    else s.(recs := [Rec(key, now, 0)] + Truncate(s.recs, s.maxKeys - 1))
  }

  /** The counter a Get leaves for its key, which is also the pair it returns. */
  function Counter(s: State, key: string, now: int): Rec {
    var i := Find(s.recs, key);
    if i < |s.recs| && s.recs[i].ms == now then Rec(key, now, (s.recs[i].idx + 1) % UINT64)
    else Rec(key, now, 0)
  }

  function Step(s: State, op: Op): State
    requires s.maxKeys > 0
  {
    match op
    case Get(key, now) =>
      var t := Touched(s, key, now);
      t.(recs := t.recs[0 := Counter(s, key, now)])
    case SetMaxKeys(n) => State(Capacity(n), Truncate(s.recs, Capacity(n)))
  }

  ghost predicate Duplicates(recs: seq<Rec>) {
    exists i, j :: 0 <= i < j < |recs| && recs[i].key == recs[j].key
  }

  ghost predicate Ok(s: State) {
    && 0 < s.maxKeys
    && |s.recs| <= s.maxKeys
    && !Duplicates(s.recs)
    && (forall i :: 0 <= i < |s.recs| ==> s.recs[i].idx < UINT64)
  }

  lemma Unique(recs: seq<Rec>, key: string, i: nat)
    requires i < |recs| && recs[i].key == key && !Duplicates(recs)
    ensures Find(recs, key) == i
  {
    if Find(recs, key) != i {
      assert false;
    }
  }

  lemma ToFrontUnique(recs: seq<Rec>, i: nat)
    requires i < |recs| && !Duplicates(recs)
    ensures !Duplicates(ToFront(recs, i))
  {
    var r := ToFront(recs, i);
    forall a, b | 0 <= a < b < |r| ensures r[a].key != r[b].key {
      var a' := if a == 0 then i else if a <= i then a - 1 else a;
      var b' := if b <= i then b - 1 else b;
      assert r[a] == recs[a'] && r[b] == recs[b'];
      if a' < b' {
        assert recs[a'].key != recs[b'].key;
      } else {
        assert recs[b'].key != recs[a'].key;
      }
    }
  }

  lemma TouchedTracked(s: State, t: State, key: string, now: int)
    requires 0 < s.maxKeys && Tracked(s.recs, key)
    requires t == State(s.maxKeys, ToFront(s.recs, Find(s.recs, key)))
    ensures t == Touched(s, key, now)
  {
  }

  lemma TouchedNew(s: State, t: State, key: string, now: int)
    requires 0 < s.maxKeys && !Tracked(s.recs, key)
    requires t == State(s.maxKeys, [Rec(key, now, 0)] + Truncate(s.recs, s.maxKeys - 1))
    ensures t == Touched(s, key, now)
  {
  }

  lemma FrontAfterTouch(s: State, key: string, now: int)
    requires 0 < s.maxKeys
    ensures var i := Find(s.recs, key);
      var t := Touched(s, key, now);
      && t.recs != [] && t.recs[0].key == key
      && (if i < |s.recs| then t.recs[0] == s.recs[i] else t.recs[0] == Rec(key, now, 0))
  {
  }

  /** The counter and the whole step, by the front entry after the touch. */
  lemma TouchedFront(s: State, t: State, key: string, now: int, created: bool)
    requires 0 < s.maxKeys && t == Touched(s, key, now) && (created <==> !Tracked(s.recs, key))
    ensures t.recs != [] && t.recs[0].key == key && (created ==> t.recs[0].ms == now && t.recs[0].idx == 0)
    ensures var idx := if created || t.recs[0].ms != now then 0 else (t.recs[0].idx + 1) % UINT64;
      && Counter(s, key, now) == Rec(key, now, idx)
      && Step(s, Op.Get(key, now)) == t.(recs := t.recs[0 := Rec(key, now, idx)])
  {
    FrontAfterTouch(s, key, now);
  }

  lemma PushFrontUnique(recs: seq<Rec>, r: Rec)
    requires !Duplicates(recs) && forall i :: 0 <= i < |recs| ==> recs[i].key != r.key
    ensures !Duplicates([r] + recs)
  {
    var q := [r] + recs;
    forall a, b | 0 <= a < b < |q| ensures q[a].key != q[b].key {
      assert q[b] == recs[b - 1];
      if a > 0 {
        assert q[a] == recs[a - 1];
        assert recs[a - 1].key != recs[b - 1].key;
      }
    }
  }

  lemma TruncateUnique(recs: seq<Rec>, n: nat)
    requires !Duplicates(recs)
    ensures !Duplicates(Truncate(recs, n))
  {
    var t := Truncate(recs, n);
    forall a, b | 0 <= a < b < |t| ensures t[a].key != t[b].key {
      assert recs[a].key != recs[b].key;
    }
  }

  lemma TouchedOk(s: State, key: string, now: int)
    requires Ok(s)
    ensures Ok(Touched(s, key, now))
  {
    var i := Find(s.recs, key);
    if i < |s.recs| {
      ToFrontUnique(s.recs, i);
    } else {
      TruncateUnique(s.recs, s.maxKeys - 1);
      PushFrontUnique(Truncate(s.recs, s.maxKeys - 1), Rec(key, now, 0));
    }
  }

  /** Every operation keeps the represented sequence duplicate-free and within capacity. */
  lemma StepOk(s: State, op: Op)
    requires Ok(s)
    ensures Ok(Step(s, op))
  {
    match op
    case SetMaxKeys(n) =>
      TruncateUnique(s.recs, Capacity(n));
    case Get(key, now) =>
      TouchedOk(s, key, now);
      var t := Touched(s, key, now).recs;
      var u := t[0 := Counter(s, key, now)];
      forall a, b | 0 <= a < b < |u| ensures u[a].key != u[b].key {
        assert t[a].key != t[b].key;
      }
  }

  // ----- the object -----

  class Entry {
    const key: string
    var ms: int
    var idx: nat

    constructor (key: string, ms: int)
      ensures this.key == key && this.ms == ms && this.idx == 0
    {
      this.key := key;
      this.ms, this.idx := ms, 0;
    }

    /** The counter update of Get, through the pointer touch returned. */
    method Advance(now: int, created: bool) returns (idx: nat)
      modifies this
      ensures ms == (if created then old(ms) else now) && idx == this.idx
      ensures idx == if created then old(this.idx) else if old(ms) == now then (old(this.idx) + 1) % UINT64 else 0
    {
      if created {
        idx := this.idx;
      } else if ms != now {
        ms := now;
        this.idx := 0;
        idx := 0;
      } else {
        this.idx := (this.idx + 1) % UINT64;
        idx := this.idx;
      }
    }
  }

  /** Map and list hold the same entries, each once and under its own key. */
  ghost predicate Linked(items: map<string, Entry>, order: seq<Entry>) {
    && (forall i :: 0 <= i < |order| ==> order[i].key in items && items[order[i].key] == order[i])
    && (forall k :: k in items ==> items[k] in order && items[k].key == k)
    && Injective(order)
  }

  ghost predicate Injective<T>(s: seq<T>) {
    forall i, j :: 0 <= i < |s| && 0 <= j < |s| && i != j ==> s[i] != s[j]
  }

  lemma ToFrontMembers<T>(s: seq<T>, i: nat)
    requires i < |s|
    ensures forall o :: o in ToFront(s, i) <==> o in s
  {
    var r := ToFront(s, i);
    forall o | o in s ensures o in r {
      var j :| 0 <= j < |s| && s[j] == o;
      var at := if j == i then 0 else if j < i then j + 1 else j;
      assert r[at] == o;
    }
  }

  lemma ToFrontInjective<T>(s: seq<T>, i: nat)
    requires i < |s| && Injective(s)
    ensures Injective(ToFront(s, i))
  {
    var r := ToFront(s, i);
    forall a, b | 0 <= a < |r| && 0 <= b < |r| && a != b ensures r[a] != r[b] {
      var a' := if a == 0 then i else if a <= i then a - 1 else a;
      var b' := if b == 0 then i else if b <= i then b - 1 else b;
      assert s[a'] != s[b'];
    }
  }

  lemma LinkedToFront(items: map<string, Entry>, order: seq<Entry>, i: nat)
    requires Linked(items, order) && i < |order|
    ensures Linked(items, ToFront(order, i))
  {
    ToFrontInjective(order, i);
    ToFrontMembers(order, i);
  }

  ghost function Recs(order: seq<Entry>): (r: seq<Rec>)
    reads order
    ensures |r| == |order|
    ensures forall i :: 0 <= i < |r| ==> r[i] == Rec(order[i].key, order[i].ms, order[i].idx)
  {
    seq(|order|, i requires 0 <= i < |order| reads order => Rec(order[i].key, order[i].ms, order[i].idx))
  }

  lemma RecsToFront(order: seq<Entry>, i: nat)
    requires i < |order|
    ensures Recs(ToFront(order, i)) == ToFront(Recs(order), i)
  {
  }

  lemma LinkedPushFront(items: map<string, Entry>, order: seq<Entry>, e: Entry)
    requires Linked(items, order) && e !in order && forall j :: 0 <= j < |order| ==> order[j].key != e.key
    ensures Linked(items[e.key := e], [e] + order)
  {
    assert e.key !in items;
  }

  lemma RecsPushFront(order: seq<Entry>, e: Entry)
    ensures Recs([e] + order) == [Rec(e.key, e.ms, e.idx)] + Recs(order)
  {
  }

  class Cache {
    var maxKeys: nat
    var items: map<string, Entry>
    var order: seq<Entry>  // front first

    ghost function View(): State
      reads this, order
    {
      State(maxKeys, Recs(order))
    }

    ghost predicate Valid()
      reads this, order
    {
      Linked(items, order) && Ok(View())
    }

    constructor (n: int)
      ensures Valid() && View() == State(Capacity(n), []) && order == []
      ensures maxKeys == if n <= 0 then 102400 else n
    {
      maxKeys := Capacity(n);
      items := map[];
      order := [];
    }

    method EvictOldest()
      requires Linked(items, order)
      modifies this`items, this`order
      ensures Linked(items, order)
      ensures order == if old(order) == [] then [] else old(order)[..|old(order)| - 1]
    {
      if |order| == 0 {
        return;
      }
      var e := order[|order| - 1];
      items := items - {e.key};
      order := order[..|order| - 1];
    }

    /** The eviction loops of touch and setMaxKeys: drop from the back down to n entries. */
    method EvictDownTo(n: nat)
      requires Linked(items, order)
      modifies this`items, this`order
      ensures Linked(items, order)
      ensures order == if |old(order)| <= n then old(order) else old(order)[..n]
    {
      while |order| > n
        invariant Linked(items, order)
        invariant |order| <= |old(order)| && order == old(order)[..|order|]
        invariant |order| == |old(order)| || |order| >= n
      {
        EvictOldest();
      }
    }

    method SetMaxKeys(n: int)
      requires Valid()
      modifies this
      ensures Valid() && View() == Step(old(View()), Op.SetMaxKeys(n))
      ensures maxKeys == if n <= 0 then 102400 else n
    {
      StepOk(View(), Op.SetMaxKeys(n));
      maxKeys := if n <= 0 then DEFAULT_MAX_KEYS else n;
      EvictDownTo(maxKeys);
      assert Recs(order) == Step(old(View()), Op.SetMaxKeys(n)).recs;
    }

    /** list.MoveToFront for a tracked key. */
    method MoveToFront(e: Entry)
      requires Linked(items, order) && !Duplicates(Recs(order)) && e in order
      modifies this`order
      ensures Linked(items, order) && order != [] && order[0] == e
      ensures forall o :: o in order ==> o in old(order)
      ensures Tracked(old(Recs(order)), e.key)
      ensures Recs(order) == ToFront(old(Recs(order)), Find(old(Recs(order)), e.key))
    {
      ghost var recs := Recs(order);
      var i :| 0 <= i < |order| && order[i] == e;
      Unique(recs, e.key, i);
      LinkedToFront(items, order, i);
      ToFrontMembers(order, i);
      RecsToFront(order, i);
      order := ToFront(order, i);
    }

    /** Returns the entry itself: the caller updates the counter through it. */
    method Touch(key: string, now: int) returns (e: Entry, created: bool)
      requires Valid()
      modifies this
      ensures Linked(items, order) && View() == Touched(old(View()), key, now)
      ensures order != [] && e == order[0] && e.key == key
      ensures created <==> !Tracked(old(View()).recs, key)
      ensures forall o :: o in order ==> o in old(order) || fresh(o)
    {
      ghost var s := View();
      if key in items {
        e := items[key];
        MoveToFront(e);
        TouchedTracked(s, View(), key, now);
        created := false;
      } else {
        e := EvictAndInsert(key, now);
        TouchedNew(s, View(), key, now);
        created := true;
      }
    }

    /** The rest of touch for a key that is not in the map. */
    method EvictAndInsert(key: string, now: int) returns (e: Entry)
      requires Linked(items, order) && key !in items && 0 < maxKeys
      modifies this`items, this`order
      ensures Linked(items, order) && order != [] && e == order[0] && e.key == key
      ensures forall o :: o in order ==> o in old(order) || fresh(o)
      ensures !Tracked(old(Recs(order)), key)
      ensures Recs(order) == [Rec(key, now, 0)] + Truncate(old(Recs(order)), maxKeys - 1)
    {
      ghost var recs := Recs(order);
      forall j | 0 <= j < |recs| ensures recs[j].key != key {
        assert order[j].key in items;
      }
      EvictDownTo(maxKeys - 1);
      assert Recs(order) == Truncate(recs, maxKeys - 1);
      e := Insert(key, now);
    }

    /** list.PushFront of a new entry. */
    method Insert(key: string, now: int) returns (e: Entry)
      requires Linked(items, order) && forall j :: 0 <= j < |order| ==> order[j].key != key
      modifies this`items, this`order
      ensures Linked(items, order) && fresh(e) && order == [e] + old(order) && e.key == key
      ensures Recs(order) == [Rec(key, now, 0)] + old(Recs(order))
    {
      e := new Entry(key, now);
      LinkedPushFront(items, order, e);
      RecsPushFront(order, e);
      items := items[key := e];
      order := [e] + order;
    }

    method Get(key: string, now: int) returns (ms: int, idx: nat)
      requires Valid()
      modifies this, order
      ensures Valid() && View() == Step(old(View()), Op.Get(key, now))
      ensures Rec(key, ms, idx) == Counter(old(View()), key, now) && ms == now
    {
      StepOk(View(), Op.Get(key, now));
      ms, idx := TouchAndCount(key, now);
    }

    method TouchAndCount(key: string, now: int) returns (ms: int, idx: nat)
      requires Valid()
      modifies this, order
      ensures Linked(items, order) && View() == Step(old(View()), Op.Get(key, now))
      ensures Rec(key, ms, idx) == Counter(old(View()), key, now)
    {
      ghost var s := View();
      var e, created := Touch(key, now);
      ghost var t := View();
      TouchedFront(s, t, key, now, created);
      idx := Count(now, created, t);
      ms := now;
    }

    /** The rest of Get, once the key's entry is at the front of t. */
    method Count(now: int, created: bool, ghost t: State) returns (idx: nat)
      requires Linked(items, order) && order != [] && t == View()
      requires created ==> t.recs[0].ms == now && t.recs[0].idx == 0
      modifies order[0]
      ensures idx == if created || t.recs[0].ms != now then 0 else (t.recs[0].idx + 1) % UINT64
      ensures unchanged(this) && View() == t.(recs := t.recs[0 := Rec(t.recs[0].key, now, idx)])
    {
      idx := order[0].Advance(now, created);
      assert forall i :: 1 <= i < |order| ==> order[i] != order[0];
      assert Recs(order) == t.recs[0 := Rec(t.recs[0].key, now, idx)];
    }
  }
}
