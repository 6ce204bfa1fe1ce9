/**
 The in-process exchange of pkg/exchange/exchange.go.

 The object keeps two indexes (topic -> list, handle -> subscription). Both represent one
 list: the live subscriptions in the order they were made. Every method below is one lock
 region (or one unlocked WaitGroup / channel operation) of the source, and is proved to act
 on that single list and on the lifecycle exactly as the functions on `Core` say.
 */
module Exchange {
  import opened Wrappers

  type Topic = string
  type Handle = nat
  type Handler = nat

  datatype Subscription = Subscription(handle: Handle, topic: Topic, handler: Handler)

  datatype Lifecycle = Running | Terminating | Terminated

  datatype Error = NilHandler | Closed | PoolFailed | InvalidHandle

  /** The exchange as its clients see it: one ordered list instead of two indexes. */
  datatype Core = Core(
    live: seq<Subscription>,
    nextHandle: Handle,
    life: Lifecycle,
    done: bool,
    wg: int,
    pools: set<Topic>,
    released: set<Topic>)

  const INITIAL := Core([], 0, Running, false, 0, {}, {})

  /** The subscriptions of one topic, in order. */
  function OnTopic(live: seq<Subscription>, topic: Topic): seq<Subscription> {
    if live == [] then []
    else (if live[0].topic == topic then [live[0]] else []) + OnTopic(live[1..], topic)
  }

  /** The list with the subscription of one handle cancelled. */
  function Without(live: seq<Subscription>, handle: Handle): seq<Subscription> {
    if live == [] then []
    else (if live[0].handle == handle then [] else [live[0]]) + Without(live[1..], handle)
  }

  function Handlers(subs: seq<Subscription>): (r: seq<Handler>)
    ensures |r| == |subs|
    ensures forall i :: 0 <= i < |r| ==> r[i] == subs[i].handler
  {
    seq(|subs|, i requires 0 <= i < |subs| => subs[i].handler)
  }

  /** Handles were handed out in increasing order, all of them below the next one. */
  ghost predicate Ascending(live: seq<Subscription>, bound: Handle) {
    && (forall i, j :: 0 <= i < j < |live| ==> live[i].handle < live[j].handle)
    && (forall s :: s in live ==> s.handle < bound)
  }

  /** What every lock region keeps. */
  ghost predicate CoreOk(c: Core) {
    && Ascending(c.live, c.nextHandle)
    && (forall s :: s in c.live ==> s.topic in c.pools)
    && 0 <= c.wg
    && (c.done ==> c.life != Running && c.wg == 0)
    && (c.life == Terminated ==> c.done)
    && (c.released != {} ==> c.life == Terminated)
    && c.released <= c.pools
  }

  // ----- the lock regions on the single list -----

  function AfterSubscribe(c: Core, topic: Topic, handler: Handler): Core {
    c.(live := c.live + [Subscription(c.nextHandle, topic, handler)],
       nextHandle := c.nextHandle + 1,
       pools := c.pools + {topic})
  }

  function AfterUnsubscribe(c: Core, handle: Handle): Core {
    c.(live := Without(c.live, handle))
  }

  function Snapshot(c: Core, topic: Topic): seq<Handler> {
    Handlers(OnTopic(c.live, topic))
  }

  function AfterPublish(c: Core, topic: Topic): Core {
    c.(wg := c.wg + |Snapshot(c, topic)|)
  }

  function AfterDone(c: Core): Core {
    c.(wg := c.wg - 1)
  }

  function AfterTerminate(c: Core): Core {
    if c.life == Running then c.(life := Terminating) else c
  }

  function AfterSeal(c: Core): Core {
    if c.life == Terminating then c.(life := Terminated) else c
  }

  // ----- lemmas about the list -----

  lemma {:induction false} OnTopicMembers(live: seq<Subscription>, topic: Topic)
    ensures forall s :: s in OnTopic(live, topic) <==> s in live && s.topic == topic
  {
    if live != [] {
      OnTopicMembers(live[1..], topic);
      assert live == [live[0]] + live[1..];
    }
  }

  lemma {:induction false} WithoutMembers(live: seq<Subscription>, handle: Handle)
    ensures forall s :: s in Without(live, handle) <==> s in live && s.handle != handle
  {
    if live != [] {
      WithoutMembers(live[1..], handle);
      assert live == [live[0]] + live[1..];
    }
  }

  lemma {:induction false} OnTopicAppend(live: seq<Subscription>, s: Subscription, topic: Topic)
    ensures OnTopic(live + [s], topic) == OnTopic(live, topic) + (if s.topic == topic then [s] else [])
  {
    if live == [] {
    } else {
      OnTopicAppend(live[1..], s, topic);
      assert (live + [s])[1..] == live[1..] + [s];
      Reassociate(if live[0].topic == topic then [live[0]] else [], OnTopic(live[1..], topic),
                  if s.topic == topic then [s] else []);
    }
  }

  lemma Reassociate(a: seq<Subscription>, b: seq<Subscription>, c: seq<Subscription>)
    ensures a + (b + c) == a + b + c
  {
  }

  lemma {:induction false} WithoutId(live: seq<Subscription>, handle: Handle)
    requires forall s :: s in live ==> s.handle != handle
    ensures Without(live, handle) == live
  {
    if live != [] {
      WithoutId(live[1..], handle);
    }
  }

  /** The tail of an ascending list is ascending, and strictly above its head. */
  lemma AscendingTail(live: seq<Subscription>, bound: Handle)
    requires Ascending(live, bound) && live != []
    ensures Ascending(live[1..], bound)
    ensures forall s :: s in live[1..] ==> live[0].handle < s.handle
  {
    var tail := live[1..];
    assert forall j :: 0 <= j < |tail| ==> tail[j] == live[j + 1];
  }

  lemma AscendingCons(head: Subscription, tail: seq<Subscription>, bound: Handle)
    requires Ascending(tail, bound) && head.handle < bound
    requires forall s :: s in tail ==> head.handle < s.handle
    ensures Ascending([head] + tail, bound)
  {
  }

  lemma CutOne(live: seq<Subscription>, k: nat)
    requires 0 < k < |live|
    ensures live[..k] + live[k + 1..] == [live[0]] + (live[1..][..k - 1] + live[1..][k..])
  {
    assert live[1..][..k - 1] == live[1..k];
  }

  /** Cancelling removes one position and keeps the order of the others. */
  lemma {:induction false} WithoutAt(live: seq<Subscription>, k: nat, bound: Handle)
    requires Ascending(live, bound) && k < |live|
    ensures Without(live, live[k].handle) == live[..k] + live[k + 1..]
  {
    AscendingTail(live, bound);
    if k == 0 {
      WithoutId(live[1..], live[0].handle);
    } else {
      WithoutAt(live[1..], k - 1, bound);
      CutOne(live, k);
      assert live[1..][k - 1] in live[1..];
    }
  }

  /** Filtering by topic and cancelling commute. */
  lemma {:induction false} OnTopicWithout(live: seq<Subscription>, handle: Handle, topic: Topic)
    ensures OnTopic(Without(live, handle), topic) == Without(OnTopic(live, topic), handle)
  {
    if live != [] {
      var head, tail := live[0], live[1..];
      OnTopicWithout(tail, handle, topic);
      var kept := Without(tail, handle);
      assert ([head] + kept)[1..] == kept;
      var same := OnTopic(tail, topic);
      assert ([head] + same)[1..] == same;
      assert [] + kept == kept && [] + same == same;
    }
  }

  lemma {:induction false} OnTopicAscending(live: seq<Subscription>, topic: Topic, bound: Handle)
    requires Ascending(live, bound)
    ensures Ascending(OnTopic(live, topic), bound)
  {
    if live != [] {
      AscendingTail(live, bound);
      OnTopicAscending(live[1..], topic, bound);
      OnTopicMembers(live[1..], topic);
      var rest := OnTopic(live[1..], topic);
      AscendingCons(live[0], rest, bound);
      assert [] + rest == rest;
    }
  }

  lemma {:induction false} WithoutAscending(live: seq<Subscription>, handle: Handle, bound: Handle)
    requires Ascending(live, bound)
    ensures Ascending(Without(live, handle), bound)
  {
    if live != [] {
      AscendingTail(live, bound);
      WithoutAscending(live[1..], handle, bound);
      WithoutMembers(live[1..], handle);
      var rest := Without(live[1..], handle);
      AscendingCons(live[0], rest, bound);
      assert [] + rest == rest;
    }
  }

  // ----- every lock region keeps CoreOk -----

  /** A handle that belongs to no subscription. */
  predicate IsFresh(live: seq<Subscription>, handle: Handle) {
    forall s :: s in live ==> s.handle != handle
  }

  lemma FreshHandle(live: seq<Subscription>, next: Handle)
    requires Ascending(live, next)
    ensures IsFresh(live, next)
  {
  }

  lemma SubscribeKeeps(c: Core, c': Core, topic: Topic, handler: Handler)
    requires CoreOk(c) && c.life == Running && c' == AfterSubscribe(c, topic, handler)
    ensures CoreOk(c')
  {
  }

  lemma UnsubscribeKeeps(c: Core, handle: Handle)
    requires CoreOk(c)
    ensures CoreOk(AfterUnsubscribe(c, handle))
  {
    WithoutAscending(c.live, handle, c.nextHandle);
    WithoutMembers(c.live, handle);
  }

  /** A topic with a handler to call has a pool. */
  lemma SnapshotHasPool(c: Core, topic: Topic)
    requires CoreOk(c) && Snapshot(c, topic) != []
    ensures topic in c.pools
  {
    OnTopicMembers(c.live, topic);
    assert OnTopic(c.live, topic)[0] in OnTopic(c.live, topic);
  }

  // ----- the two indexes -----

  /** topic -> list: exactly the topics with a subscription, each with its part of the list. */
  ghost predicate ForwardOk(m: map<Topic, seq<Subscription>>, live: seq<Subscription>) {
    forall t: Topic ::
      && (t in m <==> OnTopic(live, t) != [])
      && (t in m ==> m[t] == OnTopic(live, t))
  }

  /** handle -> subscription: exactly the members of the list. */
  ghost predicate ReverseOk(m: map<Handle, Subscription>, live: seq<Subscription>) {
    && (forall s :: s in live ==> s.handle in m && m[s.handle] == s)
    && (forall h :: h in m ==> m[h] in live && m[h].handle == h)
  }

  /** Subscribe's effect on the lists. */
  function AfterAdd(m: map<Topic, seq<Subscription>>, s: Subscription): map<Topic, seq<Subscription>> {
    m[s.topic := (if s.topic in m then m[s.topic] else []) + [s]]
  }

  /** Unsubscribe's effect on the lists. */
  function AfterRemove(m: map<Topic, seq<Subscription>>, s: Subscription): map<Topic, seq<Subscription>>
    requires s.topic in m
  {
    var subs := Without(m[s.topic], s.handle);
    if subs == [] then m - {s.topic} else m[s.topic := subs]
  }

  lemma ForwardAppend(m: map<Topic, seq<Subscription>>, m': map<Topic, seq<Subscription>>, live: seq<Subscription>,
                      s: Subscription)
    requires ForwardOk(m, live) && m' == AfterAdd(m, s)
    ensures ForwardOk(m', live + [s])
  {
    forall t: Topic
      ensures OnTopic(live + [s], t) == OnTopic(live, t) + (if s.topic == t then [s] else [])
    {
      OnTopicAppend(live, s, t);
    }
  }

  /** Cancelling a subscription leaves the lists of the other topics alone. */
  lemma OtherTopicKept(live: seq<Subscription>, s: Subscription, t: Topic, bound: Handle)
    requires Ascending(live, bound) && s in live && t != s.topic
    ensures OnTopic(Without(live, s.handle), t) == OnTopic(live, t)
  {
    OnTopicWithout(live, s.handle, t);
    OnTopicMembers(live, t);
    forall o | o in OnTopic(live, t) ensures o.handle != s.handle {
      Distinct(live, o, s, bound);
    }
    WithoutId(OnTopic(live, t), s.handle);
  }

  /** A live subscription is in its topic's list, in order. */
  lemma ForwardHas(m: map<Topic, seq<Subscription>>, live: seq<Subscription>, s: Subscription, bound: Handle)
    requires ForwardOk(m, live) && Ascending(live, bound) && s in live
    ensures s.topic in m && s in m[s.topic] && Ascending(m[s.topic], bound)
  {
    OnTopicMembers(live, s.topic);
    OnTopicAscending(live, s.topic, bound);
  }

  /** What cancelling does to the list of each topic. */
  lemma TopicWithout(live: seq<Subscription>, s: Subscription, t: Topic, bound: Handle)
    requires Ascending(live, bound) && s in live
    ensures OnTopic(Without(live, s.handle), t)
         == if t == s.topic then Without(OnTopic(live, t), s.handle) else OnTopic(live, t)
  {
    if t == s.topic {
      OnTopicWithout(live, s.handle, t);
    } else {
      OtherTopicKept(live, s, t, bound);
    }
  }

  lemma ForwardRemove(m: map<Topic, seq<Subscription>>, m': map<Topic, seq<Subscription>>, live: seq<Subscription>,
                      s: Subscription, bound: Handle)
    requires ForwardOk(m, live) && Ascending(live, bound) && s in live && s.topic in m
    requires m' == AfterRemove(m, s)
    ensures ForwardOk(m', Without(live, s.handle))
  {
    var rest := Without(live, s.handle);
    forall t: Topic
      ensures (t in m' <==> OnTopic(rest, t) != []) && (t in m' ==> m'[t] == OnTopic(rest, t))
    {
      TopicWithout(live, s, t, bound);
    }
  }

  lemma ReverseAppend(m: map<Handle, Subscription>, m': map<Handle, Subscription>, live: seq<Subscription>,
                      s: Subscription)
    requires ReverseOk(m, live) && IsFresh(live, s.handle) && m' == m[s.handle := s]
    ensures ReverseOk(m', live + [s])
  {
  }

  lemma ReverseRemove(m: map<Handle, Subscription>, m': map<Handle, Subscription>, live: seq<Subscription>,
                      handle: Handle)
    requires ReverseOk(m, live) && m' == m - {handle}
    ensures ReverseOk(m', Without(live, handle))
  {
    WithoutMembers(live, handle);
  }

  /** Live handles are unique. */
  lemma Distinct(live: seq<Subscription>, a: Subscription, b: Subscription, bound: Handle)
    requires Ascending(live, bound) && a in live && b in live
    ensures a.handle == b.handle ==> a == b
  {
    var i :| 0 <= i < |live| && live[i] == a;
    var j :| 0 <= j < |live| && live[j] == b;
    assert i < j ==> a.handle < b.handle;
    assert j < i ==> b.handle < a.handle;
  }

  /** What is copied from a topic's list is the snapshot, and it has a pool. */
  lemma CopyIsSnapshot(m: map<Topic, seq<Subscription>>, c: Core, topic: Topic, handlers: seq<Handler>)
    requires topic in m <==> OnTopic(c.live, topic) != []
    requires topic in m ==> m[topic] == OnTopic(c.live, topic)
    requires forall s :: s in c.live ==> s.topic in c.pools
    requires handlers == if topic in m then Handlers(m[topic]) else []
    ensures handlers == Snapshot(c, topic)
    ensures |handlers| != 0 ==> topic in c.pools
  {
    if handlers != [] {
      OnTopicMembers(c.live, topic);
      assert OnTopic(c.live, topic)[0] in OnTopic(c.live, topic);
    }
  }

  lemma CountKeeps(c: Core, c': Core, topic: Topic)
    requires CoreOk(c) && c.life == Running && c' == AfterPublish(c, topic)
    ensures CoreOk(c')
  {
  }

  // ----- topic lists -----

  /** A slice: the first `len` cells of an array. Copies of a slice share its cells. */
  datatype Slice = Slice(cells: array<Subscription>, len: nat) {
    ghost predicate Fits() {
      len <= cells.Length
    }

    ghost function Items(): seq<Subscription>
      requires Fits()
      reads cells
    {
      cells[..len]
    }
  }

  /** Append to a topic list: in place while the array has room, else into a larger copy. */
  method Append(list: Slice, sub: Subscription) returns (r: Slice)
    requires list.Fits()
    modifies list.cells
    ensures r.Fits() && r.Items() == old(list.Items()) + [sub]
    ensures r.cells == list.cells || fresh(r.cells)
  {
    var cells := list.cells;
    if list.len == cells.Length {
      var capacity: nat :| list.len < capacity;
      cells := new Subscription[capacity](_ => sub);
      for i := 0 to list.len
        invariant cells[..i] == list.cells[..i]
        invariant list.cells[..] == old(list.cells[..])
      {
        cells[i] := list.cells[i];
      }
    }
    cells[list.len] := sub;
    r := Slice(cells, list.len + 1);
  }

  /** Move every later entry one cell down, over entry i: the old cells are overwritten. */
  method Shift(list: Slice, i: nat)
    requires list.Fits() && i < list.len
    modifies list.cells
    ensures list.cells[..list.len - 1] == old(list.Items()[..i] + list.Items()[i + 1..])
    ensures list.cells[list.len - 1..] == old(list.cells[list.len - 1..])
  {
    ghost var was := list.cells[..];
    for j := i to list.len - 1
      invariant forall k :: 0 <= k < i ==> list.cells[k] == was[k]
      invariant forall k :: i <= k < j ==> list.cells[k] == was[k + 1]
      invariant forall k :: j <= k < list.cells.Length ==> list.cells[k] == was[k]
    {
      list.cells[j] := list.cells[j + 1];
    }
    Shifted(was, list.cells[..], i, list.len);
  }

  lemma Shifted(was: seq<Subscription>, now: seq<Subscription>, i: nat, len: nat)
    requires i < len <= |was| == |now|
    requires forall k :: 0 <= k < i ==> now[k] == was[k]
    requires forall k :: i <= k < len - 1 ==> now[k] == was[k + 1]
    requires forall k :: len - 1 <= k < |was| ==> now[k] == was[k]
    ensures now[..len - 1] == was[..len][..i] + was[..len][i + 1..] && now[len - 1..] == was[len - 1..]
  {
    var items := was[..len];
    assert now[..i] == items[..i];
    assert now[i..len - 1] == items[i + 1..];
    assert now[..len - 1] == now[..i] + now[i..len - 1];
  }

  /** The search-and-shift loop of Unsubscribe; the remaining list shares the old one's cells. */
  method RemoveFromList(list: Slice, sub: Subscription, ghost bound: Handle) returns (r: Slice)
    requires list.Fits() && Ascending(list.Items(), bound) && sub in list.Items()
    modifies list.cells
    ensures r == Slice(list.cells, list.len - 1)
    ensures r.Items() == Without(old(list.Items()), sub.handle)
    ensures list.cells[r.len..] == old(list.cells[list.len - 1..])
  {
    for i := 0 to list.len
      invariant list.cells[..] == old(list.cells[..])
      invariant sub !in list.cells[..i]
    {
      if list.cells[i] == sub {
        assert list.Items() == old(list.Items());
        WithoutAt(list.Items(), i, bound);
        Shift(list, i);
        return Slice(list.cells, list.len - 1);
      }
    }
    assert false;
    r := list;
  }

  /** The forward index: topic -> list. */
  class TopicLists {
    var slices: map<Topic, Slice>
    ghost var contents: map<Topic, seq<Subscription>>
    ghost var owned: set<array<Subscription>> // the arrays of the lists

    /** The lists hold `contents`, and no two topics share an array. */
    ghost predicate Valid()
      reads this, owned
    {
      && slices.Keys == contents.Keys
      && (forall t :: t in slices ==> slices[t].cells in owned)
      && (forall t :: t in slices ==> Holds(t))
      && (forall t, u :: t in slices && u in slices && t != u ==> slices[t].cells != slices[u].cells)
    }

    ghost predicate Holds(topic: Topic)
      requires topic in slices && topic in contents
      reads this, slices[topic].cells
    {
      slices[topic].Fits() && slices[topic].Items() == contents[topic]
    }

    constructor ()
      ensures Valid() && contents == map[] && owned == {}
    {
      slices, contents, owned := map[], map[], {};
    }

    /** Put a list whose array is its own, with `items` in it, under a topic. */
    method Store(list: Slice, ghost items: seq<Subscription>, topic: Topic)
      requires slices.Keys == contents.Keys && list.Fits() && list.Items() == items
      requires forall t :: t in slices ==> slices[t].cells in owned
      requires forall t :: t in slices && t != topic ==> Holds(t) && slices[t].cells != list.cells
      requires forall t, u :: t in slices && u in slices && t != u ==> slices[t].cells != slices[u].cells
      modifies this
      ensures Valid() && contents == old(contents)[topic := items]
      ensures owned == old(owned) + {list.cells}
    {
      owned := owned + {list.cells};
      slices := slices[topic := list];
      contents := contents[topic := items];
    }

    /** Subscribe's write: append to the topic's list, a new one if there is none. */
    method Add(sub: Subscription)
      requires Valid()
      modifies this, owned
      ensures Valid() && fresh(owned - old(owned))
      ensures contents == AfterAdd(old(contents), sub)
    {
      var list;
      if sub.topic in slices {
        list := slices[sub.topic];
        assert Holds(sub.topic);
      } else {
        var none := new Subscription[0];
        list := Slice(none, 0);
      }
      ghost var items := AfterAdd(contents, sub)[sub.topic];
      list := Append(list, sub);
      Store(list, items, sub.topic);
    }

    /** Unsubscribe's write: shift the topic's list, drop the key when it is empty. */
    method Remove(sub: Subscription, ghost bound: Handle)
      requires Valid() && sub.topic in contents
      requires Ascending(contents[sub.topic], bound) && sub in contents[sub.topic]
      modifies this, owned
      ensures Valid() && fresh(owned - old(owned))
      ensures contents == AfterRemove(old(contents), sub)
    {
      assert Holds(sub.topic);
      ghost var items := Without(contents[sub.topic], sub.handle);
      var list := RemoveFromList(slices[sub.topic], sub, bound);
      if list.len == 0 {
        Drop(sub.topic);
      } else {
        Store(list, items, sub.topic);
      }
    }

    /** Forget a topic. */
    method Drop(topic: Topic)
      requires slices.Keys == contents.Keys
      requires forall t :: t in slices ==> slices[t].cells in owned
      requires forall t :: t in slices && t != topic ==> Holds(t)
      requires forall t, u :: t in slices && u in slices && t != u ==> slices[t].cells != slices[u].cells
      modifies this
      ensures Valid() && contents == old(contents) - {topic} && owned == old(owned)
    {
      slices := slices - {topic};
      contents := contents - {topic};
    }

    /** The snapshot loop of Publish: copy the handlers of a topic into an array of their own. */
    method CopyHandlers(topic: Topic) returns (handlers: array<Handler>)
      requires Valid()
      ensures fresh(handlers)
      ensures handlers[..] == if topic in contents then Handlers(contents[topic]) else []
    {
      if topic !in slices {
        handlers := new Handler[0];
        return;
      }
      assert Holds(topic);
      var subs := slices[topic];
      handlers := new Handler[subs.len];
      for i := 0 to subs.len
        invariant forall k :: 0 <= k < i ==> handlers[k] == contents[topic][k].handler
      {
        handlers[i] := subs.cells[i].handler;
      }
    }
  }

  // ----- the object -----

  class Exchange {
    const subsByTopic: TopicLists
    var subsByHandle: map<Handle, Subscription>
    var nextHandle: Handle
    var state: Lifecycle
    var done: bool           // the done channel is closed
    var pools: set<Topic>    // topics that own a goroutine pool
    var released: set<Topic> // ... and whose pool has been released
    var wg: int
    ghost var live: seq<Subscription>

    ghost function View(): Core
      reads this
    {
      Core(live, nextHandle, state, done, wg, pools, released)
    }

    /** Both indexes represent `live`. */
    ghost predicate Indexed()
      reads this`subsByHandle, this`live, subsByTopic, subsByTopic.owned
    {
      && subsByTopic.Valid()
      && ForwardOk(subsByTopic.contents, live)
      && ReverseOk(subsByHandle, live)
    }

    ghost predicate Valid()
      reads this, subsByTopic, subsByTopic.owned
    {
      Indexed() && CoreOk(View())
    }

    constructor ()
      ensures Valid() && View() == INITIAL && fresh(subsByTopic)
      ensures live == [] && nextHandle == 0 && state == Running && !done && wg == 0 && pools == released == {}
    {
      subsByTopic := new TopicLists();
      subsByHandle, pools, released := map[], {}, {};
      nextHandle, state, done, wg := 0, Running, false, 0;
      live := [];
    }

    /** `handler` is None for Go's nil; `poolOk` says whether creating the topic's pool succeeds. */
    method Subscribe(topic: Topic, handler: Option<Handler>, poolOk: bool) returns (r: Result<Handle, Error>)
      requires Valid()
      modifies this, subsByTopic, subsByTopic.owned
      ensures Valid() && fresh(subsByTopic.owned - old(subsByTopic.owned))
      ensures r.Ok? <==> handler.Some? && old(state) == Running && (topic in old(pools) || poolOk)
      ensures r.Ok? ==> r.value == old(nextHandle) && View() == AfterSubscribe(old(View()), topic, handler.value)
      ensures r.Ok? ==> live == old(live) + [Subscription(r.value, topic, handler.value)]
      ensures r.Ok? ==> pools == old(pools) + {topic} && nextHandle == old(nextHandle) + 1
      ensures unchanged(`state, `done, `wg, `released)
      ensures r.Err? ==> View() == old(View())
      ensures r.Err? ==>
        r.error == (if handler.None? then NilHandler else if old(state) != Running then Closed else PoolFailed)
    {
      if handler.None? {
        return Err(NilHandler);
      }
      if state != Running {
        return Err(Closed);
      }
      if topic !in pools && !poolOk {
        return Err(PoolFailed);
      }
      ghost var was := View();
      FreshHandle(live, nextHandle);
      var handle := Register(topic, handler.value);
      SubscribeKeeps(was, View(), topic, handler.value);
      r := Ok(handle);
    }

    /** Subscribe past its checks: the topic's pool exists or can be created. */
    method Register(topic: Topic, handler: Handler) returns (handle: Handle)
      requires Indexed() && IsFresh(live, nextHandle)
      modifies this, subsByTopic, subsByTopic.owned
      ensures Indexed() && fresh(subsByTopic.owned - old(subsByTopic.owned))
      ensures handle == old(nextHandle) && View() == AfterSubscribe(old(View()), topic, handler)
      ensures live == old(live) + [Subscription(handle, topic, handler)]
      ensures pools == old(pools) + {topic} && nextHandle == old(nextHandle) + 1
      ensures unchanged(`state, `done, `wg, `released)
    {
      handle := nextHandle;
      Record(Subscription(handle, topic, handler));
      pools, nextHandle := pools + {topic}, nextHandle + 1;
    }

    /** Subscribe's writes to the two indexes. */
    method Record(sub: Subscription)
      requires Indexed() && IsFresh(live, sub.handle)
      modifies this`subsByHandle, this`live, subsByTopic, subsByTopic.owned
      ensures Indexed() && live == old(live) + [sub]
      ensures fresh(subsByTopic.owned - old(subsByTopic.owned))
    {
      ReverseAppend(subsByHandle, subsByHandle[sub.handle := sub], live, sub);
      Link(sub);
      subsByHandle := subsByHandle[sub.handle := sub];
      live := live + [sub];
    }

    /** The forward-index part of Subscribe. */
    method Link(sub: Subscription)
      requires subsByTopic.Valid() && ForwardOk(subsByTopic.contents, live)
      modifies subsByTopic, subsByTopic.owned
      ensures subsByTopic.Valid() && ForwardOk(subsByTopic.contents, live + [sub])
      ensures fresh(subsByTopic.owned - old(subsByTopic.owned))
    {
      ghost var was := subsByTopic.contents;
      subsByTopic.Add(sub);
      ForwardAppend(was, subsByTopic.contents, live, sub);
    }

    method Unsubscribe(handle: Handle) returns (r: Result<(), Error>)
      requires Valid()
      modifies this, subsByTopic, subsByTopic.owned
      ensures Valid() && fresh(subsByTopic.owned - old(subsByTopic.owned))
      ensures r.Ok? <==> exists s :: s in old(live) && s.handle == handle
      ensures r.Err? ==> r.error == InvalidHandle
      ensures View() == AfterUnsubscribe(old(View()), handle)
    {
      UnsubscribeKeeps(View(), handle);
      if handle !in subsByHandle {
        WithoutId(live, handle);
        return Err(InvalidHandle);
      }
      Erase(handle);
      r := Ok(());
    }

    /** Unsubscribe's writes to the two indexes. */
    method Erase(handle: Handle)
      requires Indexed() && Ascending(live, nextHandle) && handle in subsByHandle
      modifies this`subsByHandle, this`live, subsByTopic, subsByTopic.owned
      ensures Indexed() && fresh(subsByTopic.owned - old(subsByTopic.owned)) && live == Without(old(live), handle)
    {
      ReverseRemove(subsByHandle, subsByHandle - {handle}, live, handle);
      var sub := subsByHandle[handle];
      assert sub in live && sub.handle == handle;
      Unlink(sub);
      subsByHandle := subsByHandle - {handle};
      live := Without(live, handle);
    }

    /** The forward-index part of Unsubscribe. */
    method Unlink(sub: Subscription)
      requires subsByTopic.Valid() && ForwardOk(subsByTopic.contents, live)
      requires Ascending(live, nextHandle) && sub in live
      modifies subsByTopic, subsByTopic.owned
      ensures subsByTopic.Valid() && ForwardOk(subsByTopic.contents, Without(live, sub.handle))
      ensures fresh(subsByTopic.owned - old(subsByTopic.owned))
    {
      ForwardHas(subsByTopic.contents, live, sub, nextHandle);
      ghost var was := subsByTopic.contents;
      subsByTopic.Remove(sub, nextHandle);
      ForwardRemove(was, subsByTopic.contents, live, sub, nextHandle);
    }

    /** The read-locked part of Publish: check the state, copy the handlers out and count them. */
    method SnapshotAndCount(topic: Topic) returns (r: Result<array<Handler>, Error>)
      requires Valid()
      modifies this`wg
      ensures Valid()
      ensures r.Ok? <==> old(state) == Running
      ensures r.Ok? ==> fresh(r.value) && r.value[..] == Snapshot(old(View()), topic)
      ensures r.Ok? ==> View() == AfterPublish(old(View()), topic) && wg == old(wg) + r.value.Length
      ensures r.Ok? && r.value.Length != 0 ==> topic in pools
      ensures r.Err? ==> r.error == Closed && View() == old(View())
    {
      if state != Running {
        return Err(Closed);
      }
      ghost var was := View();
      var handlers := SnapshotHandlers(topic);
      wg := wg + handlers.Length;
      CountKeeps(was, View(), topic);
      r := Ok(handlers);
    }

    method SnapshotHandlers(topic: Topic) returns (handlers: array<Handler>)
      requires subsByTopic.Valid() && ForwardOk(subsByTopic.contents, live)
      requires forall s :: s in live ==> s.topic in pools
      ensures fresh(handlers) && handlers[..] == Snapshot(View(), topic)
      ensures handlers.Length != 0 ==> topic in pools
    {
      handlers := subsByTopic.CopyHandlers(topic);
      CopyIsSnapshot(subsByTopic.contents, View(), topic, handlers[..]);
    }

    /** Publish's snapshot, then an Unsubscribe that shifts the list it was taken from: the snapshot
        keeps the old handlers while the list loses one. */
    method SnapshotOutlivesUnsubscribe(topic: Topic, handle: Handle) returns (handlers: array<Handler>)
      requires Valid() && state == Running
      modifies this, subsByTopic, subsByTopic.owned
      ensures Valid() && handlers[..] == Snapshot(old(View()), topic)
      ensures View() == AfterUnsubscribe(AfterPublish(old(View()), topic), handle)
    {
      var r := SnapshotAndCount(topic);
      handlers := r.value;
      label Taken:
      var _ := Unsubscribe(handle);
      assert handlers[..] == old@Taken(handlers[..]);
    }

    /** wg.Done, by a finished handler or for a rejected task; the WaitGroup panics below zero. */
    method TaskDone()
      requires Valid() && 0 < wg
      modifies this`wg
      ensures Valid() && View() == AfterDone(old(View())) && wg == old(wg) - 1
    {
      wg := wg - 1;
    }

    /** First lock region of Terminate; `wait` is false when it returns nil at once. */
    method BeginTerminate() returns (wait: bool)
      requires Valid()
      modifies this`state
      ensures Valid()
      ensures wait <==> old(state) != Terminated
      ensures View() == AfterTerminate(old(View()))
      ensures state == if old(state) == Running then Terminating else old(state)
    {
      match state {
        case Running => state := Terminating; wait := true;
        case Terminating => wait := true;
        case Terminated => wait := false;
      }
    }

    /** Second lock region of Terminate, entered once `done` is closed: seal and list the pools. */
    method Seal() returns (todo: set<Topic>)
      requires Valid() && done
      modifies this`state
      ensures Valid()
      ensures View() == AfterSeal(old(View())) && state == Terminated
      ensures todo == pools
    {
      if state == Terminating {
        state := Terminated;
      }
      todo := pools;
    }

    /** releasePools: every listed pool ends up released, whichever order the map yields, and the
        result joins the errors of exactly the pools that fail: none without a budget, since plain
        Release reports nothing. `fails` are the pools whose ReleaseTimeout reports an error other
        than ErrPoolClosed; the result is nil when `joined` is empty. */
    method ReleasePools(todo: set<Topic>, timeout: nat, fails: set<Topic>) returns (joined: set<Topic>)
      requires Valid() && state == Terminated && todo <= pools
      modifies this`released
      ensures Valid()
      ensures View() == old(View()).(released := old(released) + todo)
      ensures joined == if timeout == 0 then {} else todo * fails
    {
      var rest := todo;
      joined := {};
      while rest != {}
        invariant rest <= todo
        invariant released == old(released) + (todo - rest)
        invariant joined == if timeout == 0 then {} else (todo - rest) * fails
        decreases rest
      {
        var t :| t in rest;
        released := released + {t};
        if timeout != 0 && t in fails {
          joined := joined + {t};
        }
        rest := rest - {t};
      }
    }
  }
}
