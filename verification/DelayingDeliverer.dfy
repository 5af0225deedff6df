/**
  The delaying deliverer: a binary min-heap on delivery time with an index from keys to heap
  positions, and the loop that coalesces requests per key and delivers them when they are due.

  The heap operations follow Go's container/heap over the Less, Swap, Push and Pop of the source.
  Time is an integer, and sending to the target channel appends to a log.
 */
module DelayingDeliverer {
  // A payload; nothing ever looks inside it.
  type Value = int

  datatype Item = Item(key: string, value: Value, deliveryTime: int)

  // -------------------------------------------------------------------------- heap order

  function Parent(i: nat): nat
    requires i > 0
  {
    (i - 1) / 2
  }

  predicate InOrder(s: seq<Item>, child: nat)
    requires 0 < child < |s|
  {
    s[Parent(child)].deliveryTime <= s[child].deliveryTime
  }

  /** The first `n` items form a min-heap. */
  ghost predicate Ordered(s: seq<Item>, n: nat)
    requires n <= |s|
  {
    forall c :: 0 < c < n ==> InOrder(s, c)
  }

  // Every child of `i` is at least as late as the parent of `i`.
  ghost predicate Grandchildren(s: seq<Item>, n: nat, i: nat)
    requires n <= |s|
  {
    i > 0 ==> forall c :: i < c < n && Parent(c) == i ==> s[Parent(i)].deliveryTime <= s[c].deliveryTime
  }

  /** A heap except that item `i` may be too early for its place. */
  ghost predicate OrderedAbove(s: seq<Item>, n: nat, i: nat)
    requires n <= |s|
  {
    (forall c :: 0 < c < n && c != i ==> InOrder(s, c)) && Grandchildren(s, n, i)
  }

  /** A heap except that item `i` may be too late for its place. */
  ghost predicate OrderedBelow(s: seq<Item>, n: nat, i: nat)
    requires n <= |s|
  {
    (forall c :: 0 < c < n && Parent(c) != i ==> InOrder(s, c)) && Grandchildren(s, n, i)
  }

  /** A heap except that item `i` may be out of place in either direction. */
  ghost predicate OrderedAround(s: seq<Item>, n: nat, i: nat)
    requires n <= |s|
  {
    (forall c :: 0 < c < n && c != i && Parent(c) != i ==> InOrder(s, c)) && Grandchildren(s, n, i)
  }

  lemma {:induction false} RootIsEarliest(s: seq<Item>, n: nat, i: nat)
    requires i < n <= |s| && Ordered(s, n)
    ensures s[0].deliveryTime <= s[i].deliveryTime
  {
    if i > 0 {
      RootIsEarliest(s, n, Parent(i));
      assert InOrder(s, i);
    }
  }

  function Swapped(s: seq<Item>, i: nat, j: nat): (r: seq<Item>)
    requires i < |s| && j < |s|
    ensures |r| == |s|
  {
    s[i := s[j]][j := s[i]]
  }

  lemma SwapUp(s: seq<Item>, n: nat, j: nat)
    requires 0 < j < n <= |s| && OrderedAbove(s, n, j) && !InOrder(s, j)
    ensures OrderedAbove(Swapped(s, Parent(j), j), n, Parent(j))
  {
    var i := Parent(j);
    var r := Swapped(s, i, j);
    forall c | 0 < c < n && c != i ensures InOrder(r, c) {
      if c != j { assert InOrder(s, c); }
    }
    forall c | i > 0 && i < c < n && Parent(c) == i ensures r[Parent(i)].deliveryTime <= r[c].deliveryTime {
      assert InOrder(s, i);
      if c != j { assert InOrder(s, c); }
    }
  }

  /** `j` is the earliest child of `i` among the first `n` items. */
  predicate EarliestChild(s: seq<Item>, n: nat, i: nat, j: nat)
    requires n <= |s|
  {
    && (j == 2 * i + 1 || j == 2 * i + 2) && j < n
    && s[j].deliveryTime <= s[2 * i + 1].deliveryTime
    && (2 * i + 2 < n ==> s[j].deliveryTime <= s[2 * i + 2].deliveryTime)
  }

  lemma EarliestOfChildren(s: seq<Item>, n: nat, i: nat, j: nat, c: nat)
    requires n <= |s| && EarliestChild(s, n, i, j) && 0 < c < n && Parent(c) == i
    ensures s[j].deliveryTime <= s[c].deliveryTime
  {
    assert c == 2 * i + 1 || c == 2 * i + 2;
  }

  lemma SwapDown(s: seq<Item>, n: nat, i: nat, j: nat, first: bool)
    requires n <= |s| && EarliestChild(s, n, i, j) && s[j].deliveryTime < s[i].deliveryTime
    requires if first then OrderedAround(s, n, i) else OrderedBelow(s, n, i)
    ensures OrderedBelow(Swapped(s, i, j), n, j)
  {
    var r := Swapped(s, i, j);
    assert Parent(j) == i;
    forall c: nat | 0 < c < n && Parent(c) != j ensures InOrder(r, c) {
      if Parent(c) == i {
        EarliestOfChildren(s, n, i, j, c);
      } else if c == i {
        assert Parent(j) == i && i < j < n;
      } else {
        assert InOrder(s, c);
      }
    }
    forall c: nat | j < c < n && Parent(c) == j ensures r[Parent(j)].deliveryTime <= r[c].deliveryTime {
      assert InOrder(s, c);
    }
  }

  /** Where no child of `i` is earlier than `i`, nothing is out of order below `i`. */
  lemma DownStops(s: seq<Item>, n: nat, i: nat, j: nat)
    requires n <= |s|
    requires 2 * i + 1 >= n || (EarliestChild(s, n, i, j) && s[i].deliveryTime <= s[j].deliveryTime)
    ensures OrderedAround(s, n, i) ==> OrderedAbove(s, n, i)
    ensures OrderedBelow(s, n, i) ==> Ordered(s, n)
  {
    forall c: nat | 0 < c < n && Parent(c) == i ensures InOrder(s, c) {
      EarliestOfChildren(s, n, i, j, c);
    }
    if OrderedBelow(s, n, i) {
      forall c | 0 < c < n ensures InOrder(s, c) {
      }
    }
  }

  /** An item appended to a heap may only be too early for its place. */
  lemma AppendedAbove(s: seq<Item>, x: Item)
    requires Ordered(s, |s|)
    ensures OrderedAbove(s + [x], |s| + 1, |s|)
  {
    forall c | 0 < c < |s| ensures InOrder(s + [x], c) {
      assert InOrder(s, c);
    }
  }

  /** With the last item moved to the root, the rest is a heap except at the root. */
  lemma LastAtRoot(s: seq<Item>)
    requires |s| > 0 && Ordered(s, |s|)
    ensures OrderedAround(Swapped(s, 0, |s| - 1), |s| - 1, 0)
  {
    forall c | 0 < c < |s| - 1 && Parent(c) != 0 ensures InOrder(Swapped(s, 0, |s| - 1), c) {
      assert InOrder(s, c);
    }
  }

  // -------------------------------------------------------------------------- the indexed heap

  ghost predicate IndexOf(positions: map<string, int>, s: seq<Item>) {
    && (forall i :: 0 <= i < |s| ==> s[i].key in positions && positions[s[i].key] == i)
    && (forall k :: k in positions ==> 0 <= positions[k] < |s| && s[positions[k]].key == k)
  }

  /** The items by key. */
  ghost function ByKey(positions: map<string, int>, s: seq<Item>): map<string, Item>
    requires IndexOf(positions, s)
  {
    map k | k in positions :: s[positions[k]]
  }

  lemma EarliestByKey(positions: map<string, int>, s: seq<Item>)
    requires IndexOf(positions, s) && |s| > 0 && Ordered(s, |s|)
    ensures var pending := ByKey(positions, s);
            && s[0].key in pending && pending[s[0].key] == s[0]
            && forall k :: k in pending ==> s[0].deliveryTime <= pending[k].deliveryTime
  {
    forall k | k in positions ensures s[0].deliveryTime <= s[positions[k]].deliveryTime {
      RootIsEarliest(s, |s|, positions[k]);
    }
  }

  /** Exchanging two items and their positions does not change which item belongs to which key. */
  lemma SwappedIndex(positions: map<string, int>, s: seq<Item>, i: nat, j: nat)
    requires IndexOf(positions, s) && i < |s| && j < |s|
    ensures var swapped := positions[s[i].key := j][s[j].key := i];
            IndexOf(swapped, Swapped(s, i, j)) && ByKey(swapped, Swapped(s, i, j)) == ByKey(positions, s)
  {
  }

  lemma OrderedPrefix(s: seq<Item>, n: nat)
    requires n <= |s| && Ordered(s, n)
    ensures Ordered(s[..n], n)
  {
    forall c | 0 < c < n ensures InOrder(s[..n], c) {
      assert InOrder(s, c);
    }
  }

  class DelivererHeap {
    var keyPosition: map<string, int>
    var data: seq<Item>

    /** `keyPosition` is the exact inverse of `data`: every key occurs once, where the index says. */
    ghost predicate Indexed()
      reads this
    {
      IndexOf(keyPosition, data)
    }

    ghost predicate Valid()
      reads this
    {
      Indexed() && Ordered(data, |data|)
    }

    ghost function Pending(): map<string, Item>
      requires Indexed()
      reads this
    {
      ByKey(keyPosition, data)
    }

    constructor ()
      ensures Valid() && data == [] && Pending() == map[]
    {
      keyPosition := map[];
      data := [];
    }

    predicate Less(i: nat, j: nat)
      requires i < |data| && j < |data|
      reads this
    {
      data[i].deliveryTime < data[j].deliveryTime
    }

    method Swap(i: nat, j: nat)
      requires Indexed() && i < |data| && j < |data|
      modifies this
      ensures Indexed() && data == Swapped(old(data), i, j)
      ensures Pending() == old(Pending())
    {
      SwappedIndex(keyPosition, data, i, j);
      keyPosition := keyPosition[data[i].key := j];
      keyPosition := keyPosition[data[j].key := i];
      data := data[i := data[j]][j := data[i]];
    }

    method Push(x: Item)
      requires Indexed() && x.key !in keyPosition
      modifies this
      ensures Indexed() && data == old(data) + [x]
      ensures Pending() == old(Pending())[x.key := x]
    {
      data := data + [x];
      keyPosition := keyPosition[x.key := |data| - 1];
    }

    method Pop() returns (item: Item)
      requires Indexed() && |data| > 0
      modifies this
      ensures Indexed() && item == old(data)[|old(data)| - 1] && data == old(data)[..|old(data)| - 1]
      ensures Pending() == old(Pending()) - {item.key}
    {
      var n := |data|;
      item := data[n - 1];
      data := data[..n - 1];
      keyPosition := keyPosition - {item.key};
    }

    // container/heap's up.
    method Up(j0: nat)
      requires Indexed() && j0 < |data| && OrderedAbove(data, |data|, j0)
      modifies this
      ensures Valid() && |data| == |old(data)| && Pending() == old(Pending())
    {
      var j: nat := j0;
      while true
        invariant Indexed() && |data| == |old(data)| && Pending() == old(Pending())
        invariant j < |data| && OrderedAbove(data, |data|, j)
        decreases j
      {
        var i: nat := if j == 0 then 0 else (j - 1) / 2;
        if i == j || !Less(j, i) {
          break;
        }
        SwapUp(data, |data|, j);
        Swap(i, j);
        j := i;
      }
    }

    // container/heap's down on the first n items.
    method Down(i0: nat, n: nat) returns (moved: bool)
      requires Indexed() && (i0 < n || i0 == n == 0) && n <= |data| && OrderedAround(data, n, i0)
      modifies this
      ensures Indexed() && |data| == |old(data)| && data[n..] == old(data)[n..] && Pending() == old(Pending())
      ensures if moved then Ordered(data, n) else data == old(data) && OrderedAbove(data, n, i0)
    {
      hide OrderedAround, OrderedAbove, OrderedBelow, Ordered, IndexOf, ByKey;
      var i: nat := i0;
      while true
        invariant Indexed() && |data| == |old(data)| && data[n..] == old(data)[n..] && Pending() == old(Pending())
        invariant i0 <= i && (i < n || i == n == 0)
        invariant if i == i0 then data == old(data) && OrderedAround(data, n, i) else OrderedBelow(data, n, i)
        decreases n - i
      {
        var j1: nat := 2 * i + 1;
        if j1 >= n {
          DownStops(data, n, i, j1);
          break;
        }
        var j: nat := j1;
        var j2: nat := j1 + 1;
        if j2 < n && Less(j2, j1) {
          j := j2;
        }
        if !Less(j, i) {
          DownStops(data, n, i, j);
          break;
        }
        SwapDown(data, n, i, j, i == i0);
        Swap(i, j);
        i := j;
      }
      moved := i > i0;
    }

    method HeapPush(x: Item)
      requires Valid() && x.key !in keyPosition
      modifies this
      ensures Valid() && Pending() == old(Pending())[x.key := x]
    {
      AppendedAbove(data, x);
      Push(x);
      Up(|data| - 1);
    }

    /** Removes the earliest item. */
    method HeapPop() returns (item: Item)
      requires Valid() && |data| > 0
      modifies this
      ensures Valid() && |data| == |old(data)| - 1
      ensures item == old(data)[0] && item.key in old(Pending()) && old(Pending())[item.key] == item
      ensures Pending() == old(Pending()) - {item.key}
      ensures forall k :: k in old(Pending()) ==> item.deliveryTime <= old(Pending())[k].deliveryTime
    {
      hide ByKey, Grandchildren, InOrder;
      EarliestByKey(keyPosition, data);
      LastAtRoot(data);
      var n := |data| - 1;
      Swap(0, n);
      var moved := Down(0, n);
      assert data[n] == old(data)[0];
      assert Ordered(data, n);
      OrderedPrefix(data, n);
      item := Pop();
    }

    /** Restores the heap after the item at `i` has changed. */
    method HeapFix(i: nat)
      requires Indexed() && i < |data| && OrderedAround(data, |data|, i)
      modifies this
      ensures Valid() && Pending() == old(Pending())
    {
      var moved := Down(i, |data|);
      if !moved {
        Up(i);
      }
    }

    /** The branch of the run loop that takes a request: the earlier of two requests for a key wins. */
    method Accept(item: Item)
      requires Valid()
      modifies this
      ensures Valid() && Pending() == Coalesce(old(Pending()), item)
      ensures var waiting := item.key in old(Pending());
              && (waiting && old(Pending())[item.key].deliveryTime <= item.deliveryTime ==> Pending() == old(Pending()))
              && (!waiting || item.deliveryTime < old(Pending())[item.key].deliveryTime ==>
                    Pending() == old(Pending())[item.key := item])
    {
      if item.key in keyPosition {
        var position := keyPosition[item.key];
        if item.deliveryTime < data[position].deliveryTime {
          ghost var before := data;
          data := data[position := item];
          assert OrderedAround(data, |data|, position) by { ReplaceWithEarlier(before, position, item); }
          HeapFix(position);
        }
      } else {
        HeapPush(item);
      }
    }
  }

  lemma ReplaceWithEarlier(s: seq<Item>, i: nat, item: Item)
    requires i < |s| && Ordered(s, |s|)
    ensures OrderedAround(s[i := item], |s|, i)
  {
    var r := s[i := item];
    forall c | 0 < c < |s| && c != i && Parent(c) != i ensures InOrder(r, c) {
      assert InOrder(s, c);
    }
    forall c | i > 0 && i < c < |s| && Parent(c) == i ensures r[Parent(i)].deliveryTime <= r[c].deliveryTime {
      assert InOrder(s, c) && InOrder(s, i);
    }
  }

  /** What is pending once a request has been taken. */
  function Coalesce(pending: map<string, Item>, item: Item): map<string, Item> {
    if item.key in pending && pending[item.key].deliveryTime <= item.deliveryTime then pending
    else pending[item.key := item]
  }

  // -------------------------------------------------------------------------- one delivery

  /** What stays pending after everything due by `now` has been delivered. */
  function NotDue(pending: map<string, Item>, now: int): map<string, Item> {
    map k | k in pending && pending[k].deliveryTime > now :: pending[k]
  }

  /** `sent` lists exactly the items due by `now`, each once, in order of their delivery times. */
  ghost predicate Delivers(pending: map<string, Item>, now: int, sent: seq<Item>) {
    && (forall i :: 0 <= i < |sent| ==>
          sent[i].key in pending && pending[sent[i].key] == sent[i] && sent[i].deliveryTime <= now)
    && (forall k :: k in pending && pending[k].deliveryTime <= now ==> pending[k] in sent)
    && (forall i, j :: 0 <= i < j < |sent| ==>
          sent[i].deliveryTime <= sent[j].deliveryTime && sent[i].key != sent[j].key)
  }

  // One more step of a delivery loop that has sent `sent` of `pending` and still holds `rest`.
  ghost predicate Delivering(pending: map<string, Item>, now: int, sent: seq<Item>, rest: map<string, Item>) {
    && (forall i :: 0 <= i < |sent| ==>
          && sent[i].key in pending && pending[sent[i].key] == sent[i]
          && sent[i].deliveryTime <= now && sent[i].key !in rest)
    && (forall k :: k in rest ==> k in pending && rest[k] == pending[k])
    && (forall k :: k in pending ==> k in rest || pending[k] in sent)
    && (forall i, j :: 0 <= i < j < |sent| ==>
          sent[i].deliveryTime <= sent[j].deliveryTime && sent[i].key != sent[j].key)
    && (forall i, k :: 0 <= i < |sent| && k in rest ==> sent[i].deliveryTime <= rest[k].deliveryTime)
  }

  lemma NotDueIsLater(pending: map<string, Item>, now: int)
    ensures forall k :: k in pending ==> (k in NotDue(pending, now) <==> pending[k].deliveryTime > now)
  {
  }

  lemma NothingDelivered(pending: map<string, Item>, now: int)
    ensures Delivering(pending, now, [], pending)
  {
  }

  lemma NothingLeft(positions: map<string, int>, s: seq<Item>)
    requires IndexOf(positions, s) && s == []
    ensures ByKey(positions, s) == map[]
  {
  }

  lemma DeliverNext(pending: map<string, Item>, now: int, sent: seq<Item>, rest: map<string, Item>, item: Item)
    requires Delivering(pending, now, sent, rest)
    requires item.key in rest && rest[item.key] == item && item.deliveryTime <= now
    requires forall k :: k in rest ==> item.deliveryTime <= rest[k].deliveryTime
    ensures Delivering(pending, now, sent + [item], rest - {item.key})
  {
    forall k | k in pending ensures k in rest - {item.key} || pending[k] in sent + [item] {
      if k == item.key {
        assert (sent + [item])[|sent|] == item;
      } else if k !in rest {
        assert pending[k] in sent;
      }
    }
  }

  lemma DeliverDone(pending: map<string, Item>, now: int, sent: seq<Item>, rest: map<string, Item>)
    requires Delivering(pending, now, sent, rest)
    requires forall k :: k in rest ==> rest[k].deliveryTime > now
    ensures Delivers(pending, now, sent) && rest == NotDue(pending, now)
  {
    forall k | k in pending && pending[k].deliveryTime > now ensures k in rest {
      assert pending[k] !in sent;
    }
  }

  // -------------------------------------------------------------------------- the run loop

  /** What wakes up the run loop: its timer, a request on the update channel, or the stop channel. */
  datatype Event = Timer | Request(item: Item) | Stop

  /** One round of the run loop: the time it reads and the event it then waits for. */
  datatype Round = Round(now: int, event: Event)

  function AfterRound(pending: map<string, Item>, round: Round): map<string, Item> {
    var kept := NotDue(pending, round.now);
    match round.event
    case Request(item) => Coalesce(kept, item)
    case _ => kept
  }

  /** What is pending at the start of round `i`. */
  function PendingAt(rounds: seq<Round>, i: nat): map<string, Item>
    requires i <= |rounds|
  {
    if i == 0 then map[]
    else AfterRound(PendingAt(rounds, i - 1), rounds[i - 1])
  }

  /** `sent[i]` is what round `i` delivers. */
  ghost predicate IsRun(rounds: seq<Round>, sent: seq<seq<Item>>) {
    && |sent| <= |rounds|
    && (forall i {:trigger sent[i]} :: 0 <= i < |sent| ==> Delivers(PendingAt(rounds, i), rounds[i].now, sent[i]))
    && (forall i :: 0 <= i < |sent| - 1 ==> rounds[i].event != Stop)
    && (|sent| < |rounds| ==> |sent| > 0 && rounds[|sent| - 1].event == Stop)
  }

  function Flatten(sent: seq<seq<Item>>): seq<Item> {
    if sent == [] then [] else Flatten(sent[..|sent| - 1]) + sent[|sent| - 1]
  }

  class Deliverer {
    const heap: DelivererHeap
    var targetChannel: seq<Item>

    constructor ()
      ensures fresh(heap) && heap.Valid() && heap.Pending() == map[] && targetChannel == []
    {
      heap := new DelivererHeap();
      targetChannel := [];
    }

    /** Sends all items due before or at `timestamp`. */
    method Deliver(timestamp: int) returns (ghost sent: seq<Item>)
      requires heap.Valid()
      modifies this`targetChannel, heap
      ensures heap.Valid() && targetChannel == old(targetChannel) + sent
      ensures Delivers(old(heap.Pending()), timestamp, sent)
      ensures heap.Pending() == NotDue(old(heap.Pending()), timestamp)
      ensures forall k :: k in old(heap.Pending()) ==>
                (k in heap.Pending() <==> old(heap.Pending())[k].deliveryTime > timestamp)
    {
      hide Delivering, Delivers, NotDue, ByKey;
      sent := [];
      ghost var pending := heap.Pending();
      NothingDelivered(pending, timestamp);
      while |heap.data| > 0
        invariant heap.Valid() && targetChannel == old(targetChannel) + sent
        invariant Delivering(pending, timestamp, sent, heap.Pending())
        decreases |heap.data|
      {
        if timestamp < heap.data[0].deliveryTime {
          EarliestByKey(heap.keyPosition, heap.data);
          DeliverDone(pending, timestamp, sent, heap.Pending());
          NotDueIsLater(pending, timestamp);
          return;
        }
        ghost var rest := heap.Pending();
        var item := heap.HeapPop();
        DeliverNext(pending, timestamp, sent, rest, item);
        targetChannel := targetChannel + [item];
        sent := sent + [item];
      }
      NothingLeft(heap.keyPosition, heap.data);
      DeliverDone(pending, timestamp, sent, heap.Pending());
      NotDueIsLater(pending, timestamp);
    }

    /** The run loop, for the times it reads and the events it receives. */
    method Run(rounds: seq<Round>) returns (ghost sent: seq<seq<Item>>)
      requires heap.Valid() && heap.Pending() == map[] && targetChannel == []
      modifies this`targetChannel, heap
      ensures heap.Valid() && IsRun(rounds, sent)
      ensures targetChannel == Flatten(sent)
    {
      hide Delivers, AfterRound, NotDue, Coalesce;
      sent := [];
      var i := 0;
      while i < |rounds|
        invariant 0 <= i <= |rounds| && |sent| == i
        invariant heap.Valid() && heap.Pending() == PendingAt(rounds, i)
        invariant forall j {:trigger sent[j]} :: 0 <= j < i ==> Delivers(PendingAt(rounds, j), rounds[j].now, sent[j])
        invariant forall j :: 0 <= j < i ==> rounds[j].event != Stop
        invariant targetChannel == Flatten(sent)
      {
        ghost var delivered := Serve(rounds[i]);
        FlattenOneMore(sent, delivered);
        sent := sent + [delivered];
        if rounds[i].event.Stop? {
          return;
        }
        i := i + 1;
      }
    }

    /** One round of the run loop. */
    method Serve(round: Round) returns (ghost sent: seq<Item>)
      requires heap.Valid()
      modifies this`targetChannel, heap
      ensures heap.Valid() && targetChannel == old(targetChannel) + sent
      ensures Delivers(old(heap.Pending()), round.now, sent)
      ensures heap.Pending() == AfterRound(old(heap.Pending()), round)
    {
      sent := Deliver(round.now);
      match round.event {
        case Timer =>
        case Request(item) => heap.Accept(item);
        case Stop =>
      }
    }
  }

  lemma FlattenOneMore(sent: seq<seq<Item>>, next: seq<Item>)
    ensures Flatten(sent + [next]) == Flatten(sent) + next
  {
    assert (sent + [next])[..|sent|] == sent;
  }

  // -------------------------------------------------------------------------- whole runs

  ghost predicate DeliveredBetween(sent: seq<seq<Item>>, i: nat, j: nat, key: string, time: int) {
    exists d, x :: i < d < j && d < |sent| && x in sent[d] && x.key == key && x.deliveryTime <= time
  }

  lemma RoundHonours(pending: map<string, Item>, round: Round, sent: seq<Item>, key: string, time: int)
    requires Delivers(pending, round.now, sent) && key in pending && pending[key].key == key
    requires pending[key].deliveryTime <= time
    ensures var after := AfterRound(pending, round);
            || (key in after && after[key].deliveryTime <= time)
            || pending[key] in sent
  {
  }

  lemma RunDelivers(rounds: seq<Round>, sent: seq<seq<Item>>, j: nat)
    requires IsRun(rounds, sent) && j < |sent|
    ensures Delivers(PendingAt(rounds, j), rounds[j].now, sent[j])
  {
  }

  lemma DeliveredNow(sent: seq<seq<Item>>, i: nat, j: nat, x: Item, time: int)
    requires i < j < |sent| && x in sent[j] && x.deliveryTime <= time
    ensures DeliveredBetween(sent, i, j + 1, x.key, time)
  {
  }

  lemma DeliveredLonger(sent: seq<seq<Item>>, i: nat, j: nat, key: string, time: int)
    requires DeliveredBetween(sent, i, j, key, time)
    ensures DeliveredBetween(sent, i, j + 1, key, time)
  {
  }

  /** Nothing gets lost: a request for a key is still pending at a time no later than it asked for,
      or an item of that key due no later has been delivered since. */
  lemma {:induction false} RequestHonoured(rounds: seq<Round>, sent: seq<seq<Item>>, i: nat, j: nat)
    requires IsRun(rounds, sent) && i < j <= |sent| && rounds[i].event.Request?
    ensures var item, pending := rounds[i].event.item, PendingAt(rounds, j);
            || (item.key in pending && pending[item.key].deliveryTime <= item.deliveryTime)
            || DeliveredBetween(sent, i, j, item.key, item.deliveryTime)
  {
    var item := rounds[i].event.item;
    if i + 1 < j {
      hide IsRun, DeliveredBetween, AfterRound, Delivers;
      var before := PendingAt(rounds, j - 1);
      RequestHonoured(rounds, sent, i, j - 1);
      if DeliveredBetween(sent, i, j - 1, item.key, item.deliveryTime) {
        DeliveredLonger(sent, i, j - 1, item.key, item.deliveryTime);
      } else {
        PendingKeys(rounds, j - 1);
        RunDelivers(rounds, sent, j - 1);
        RoundHonours(before, rounds[j - 1], sent[j - 1], item.key, item.deliveryTime);
        if before[item.key] in sent[j - 1] {
          DeliveredNow(sent, i, j - 1, before[item.key], item.deliveryTime);
        }
      }
    }
  }

  lemma RoundRequested(pending: map<string, Item>, round: Round, sent: seq<Item>, key: string)
    requires Delivers(pending, round.now, sent) && key in AfterRound(pending, round)
    ensures var item := AfterRound(pending, round)[key];
            || round.event == Request(item)
            || (key in pending && item == pending[key] && forall y :: y in sent ==> y.key != key)
  {
    if key in pending && pending[key].deliveryTime > round.now {
      forall y | y in sent ensures y.key != key {
        assert pending[y.key] == y && y.deliveryTime <= round.now;
      }
    }
  }

  lemma {:induction false} PendingKeys(rounds: seq<Round>, j: nat)
    requires j <= |rounds|
    ensures forall k :: k in PendingAt(rounds, j) ==> PendingAt(rounds, j)[k].key == k
  {
    if j > 0 { PendingKeys(rounds, j - 1); }
  }

  /** Nothing is invented, early or repeated: what is delivered is due, was asked for in exactly that
      form in an earlier round, and its key has not been delivered in between. */
  lemma DeliveredWasRequested(rounds: seq<Round>, sent: seq<seq<Item>>, d: nat, x: Item) returns (i: nat)
    requires IsRun(rounds, sent) && d < |sent| && x in sent[d]
    ensures x.deliveryTime <= rounds[d].now
    ensures i < d && rounds[i].event == Request(x)
    ensures forall e, y :: i < e < d && y in sent[e] ==> y.key != x.key
  {
    assert Delivers(PendingAt(rounds, d), rounds[d].now, sent[d]);
    i := PendingWasRequested(rounds, sent, d, x.key);
  }

  lemma {:induction false} PendingWasRequested(rounds: seq<Round>, sent: seq<seq<Item>>, j: nat,
                                               k: string) returns (i: nat)
    requires IsRun(rounds, sent) && j <= |sent| && k in PendingAt(rounds, j)
    ensures i < j && rounds[i].event == Request(PendingAt(rounds, j)[k])
    ensures forall e, y :: i < e < j && y in sent[e] ==> y.key != k
  {
    assert j > 0;
    hide IsRun, AfterRound, Delivers;
    RunDelivers(rounds, sent, j - 1);
    RoundRequested(PendingAt(rounds, j - 1), rounds[j - 1], sent[j - 1], k);
    if rounds[j - 1].event == Request(PendingAt(rounds, j)[k]) {
      i := j - 1;
    } else {
      i := PendingWasRequested(rounds, sent, j - 1, k);
    }
  }

  /** Nothing is late: what is pending after a round is due after the time the round read, but for the
      request that round took; and of two requests for a key with equal times the first stays. */
  lemma NothingOverdue(rounds: seq<Round>, j: nat, k: string)
    requires j < |rounds| && k in PendingAt(rounds, j + 1)
    ensures var item := PendingAt(rounds, j + 1)[k];
            || (k in PendingAt(rounds, j) && item == PendingAt(rounds, j)[k] && item.deliveryTime > rounds[j].now)
            || (&& rounds[j].event == Request(item) && item.key == k
                && (k in PendingAt(rounds, j) && PendingAt(rounds, j)[k].deliveryTime > rounds[j].now ==>
                      item.deliveryTime < PendingAt(rounds, j)[k].deliveryTime))
  {
    var pending := PendingAt(rounds, j);
    assert PendingAt(rounds, j + 1) == AfterRound(pending, rounds[j]);
  }
}
