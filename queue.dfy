/**
 * The order queue of js/app.js as values: two ordered lists, `active` and
 * `standby`, and the state each store operation leaves behind. The class in
 * module App performs these operations in place; the lemmas here state what
 * they guarantee.
 */
module Queue {
  import opened JsArray
  import opened Shopify

  datatype Option<T> = None | Some(value: T)

  /** An order in a queue: the fetched record plus the position shown in the UI. */
  datatype Order = Order(id: string, orderNumber: string, orderDate: string, queuePosition: int)

  /** `window.state.activeOrders` and `window.state.standbyOrders`. */
  datatype Queues = Queues(active: seq<Order>, standby: seq<Order>)

  /** Every queue name other than "active" selects the standby list. */
  predicate IsActive(queueName: string) {
    queueName == "active"
  }

  function Chosen(q: Queues, queueName: string): seq<Order> {
    if IsActive(queueName) then q.active else q.standby
  }

  // ---------------------------------------------------------------------------
  // Views of a list
  // ---------------------------------------------------------------------------

  /** An order without its position. */
  function Record(o: Order): FetchedOrder {
    FetchedOrder(o.id, o.orderNumber, o.orderDate)
  }

  function Records(s: seq<Order>): (r: seq<FetchedOrder>)
    ensures |r| == |s|
    ensures forall i :: 0 <= i < |s| ==> r[i] == Record(s[i])
  {
    Map(Record, s)
  }

  function OrderId(o: Order): string {
    o.id
  }

  function Ids(s: seq<Order>): (r: seq<string>)
    ensures |r| == |s|
    ensures forall i :: 0 <= i < |s| ==> r[i] == s[i].id
  {
    Map(OrderId, s)
  }

  function FetchedId(o: FetchedOrder): string {
    o.id
  }

  function FetchedIds(s: seq<FetchedOrder>): (r: seq<string>)
    ensures |r| == |s|
    ensures forall i :: 0 <= i < |s| ==> r[i] == s[i].id
  {
    Map(FetchedId, s)
  }

  predicate HasId(s: seq<Order>, id: string) {
    id in Ids(s)
  }

  /** Positions are exactly 1..|s| in sequence order. */
  predicate Dense(s: seq<Order>) {
    forall i :: 0 <= i < |s| ==> s[i].queuePosition == i + 1
  }

  /** `s.findIndex(order => order.id === id)`: the first index with that id, or -1. */
  function FindIndex(s: seq<Order>, id: string): (k: int)
    ensures -1 <= k < |s|
    ensures k == -1 <==> !HasId(s, id)
    ensures k >= 0 ==> s[k].id == id && !HasId(s[..k], id)
  {
    if s == [] then -1
    else
      HasIdCons(s, id);
      if s[0].id == id then 0
      else
        var k := FindIndex(s[1..], id);
        if k == -1 then -1
        else
          HasIdCons(s[..k + 1], id);
          assert s[..k + 1][1..] == s[1..][..k];
          k + 1
  }

  /** An id is in a non-empty list exactly when it is the head's or in the tail. */
  lemma HasIdCons(s: seq<Order>, id: string)
    requires s != []
    ensures HasId(s, id) <==> s[0].id == id || HasId(s[1..], id)
  {
    assert Ids(s) == [s[0].id] + Ids(s[1..]);
  }

  /** The `forEach((order, index) => order.queuePosition = index + 1)` loop:
    * the same orders in the same sequence, numbered 1..n. */
  function Renumbered(s: seq<Order>): (r: seq<Order>)
    ensures Dense(r)
    ensures Records(r) == Records(s)
    ensures Ids(r) == Ids(s)
  {
    seq(|s|, i requires 0 <= i < |s| => s[i].(queuePosition := i + 1))
  }

  /** Fetched records numbered 1..n in the order received. */
  function Numbered(fs: seq<FetchedOrder>): (r: seq<Order>)
    ensures Dense(r)
    ensures Records(r) == fs
    ensures Ids(r) == FetchedIds(fs)
  {
    seq(|fs|, i requires 0 <= i < |fs| => Order(fs[i].id, fs[i].orderNumber, fs[i].orderDate, i + 1))
  }

  /** Every id across both lists, with multiplicity. */
  function IdBag(q: Queues): multiset<string> {
    multiset(Ids(q.active)) + multiset(Ids(q.standby))
  }

  /** No id is held twice: not twice in one list and never in both lists. */
  predicate Valid(q: Queues) {
    forall id | id in IdBag(q) :: IdBag(q)[id] <= 1
  }

  /** `updateQueueCount`: the length of active plus the length of standby. */
  function Count(q: Queues): nat {
    |q.active| + |q.standby|
  }

  /** The number shown is the number of ids held, counted with multiplicity. */
  lemma CountIsBagSize(q: Queues)
    ensures Count(q) == |IdBag(q)|
  {
  }

  // ---------------------------------------------------------------------------
  // Operations
  // ---------------------------------------------------------------------------

  /** The `orders.filter(order => !standbyOrderIds.includes(order.id))` step. */
  function NotParked(fetched: seq<FetchedOrder>, standby: seq<Order>): (r: seq<FetchedOrder>)
    ensures forall o :: o in r <==> o in fetched && o.id !in Ids(standby)
    ensures |r| <= |fetched|
  {
    if fetched == [] then []
    else
      var rest := NotParked(fetched[1..], standby);
      assert fetched == [fetched[0]] + fetched[1..];
      if fetched[0].id in Ids(standby) then rest else [fetched[0]] + rest
  }

  /** The body of `refreshOrders`' `.then`: active becomes the fetched orders
    * not parked in standby, numbered 1..n; standby is kept. */
  function Refreshed(q: Queues, fetched: seq<FetchedOrder>): (r: Queues)
    ensures r.standby == q.standby
    ensures Dense(r.active)
    ensures forall o :: o in Records(r.active) <==> o in fetched && !HasId(q.standby, o.id)
  {
    Queues(Numbered(NotParked(fetched, q.standby)), q.standby)
  }

  /** `markAsDelivered(id)`. */
  function Delivered(q: Queues, id: string): Queues {
    var k := FindIndex(q.active, id);
    if k == -1 then q else Queues(Renumbered(RemoveAt(q.active, k)), q.standby)
  }

  /** `moveToActiveQueue(id)`. */
  function Activated(q: Queues, id: string): Queues {
    var k := FindIndex(q.standby, id);
    if k == -1 then q
    else Queues(q.active + [q.standby[k].(queuePosition := |q.active| + 1)], RemoveAt(q.standby, k))
  }

  /** `moveToStandbyQueue(id)`. */
  function Parked(q: Queues, id: string): Queues {
    var k := FindIndex(q.active, id);
    if k == -1 then q else Queues(Renumbered(RemoveAt(q.active, k)), q.standby + [q.active[k]])
  }

  /** Where the target list of a move receives the order: at `newIndex` when
    * one is given and it is below the current length, at the end otherwise. */
  function PlaceIndex(s: seq<Order>, newIndex: Option<int>): (p: nat)
    ensures p <= |s|
  {
    if newIndex.Some? && newIndex.value < |s| then ClampStart(newIndex.value, |s|) else |s|
  }

  /** The insert-or-push step of `moveOrderBetweenQueues`: `x` lands at
    * PlaceIndex and the other orders keep their sequence. */
  function Placed(s: seq<Order>, x: Order, newIndex: Option<int>): (r: seq<Order>)
    ensures |r| == |s| + 1
    ensures r[PlaceIndex(s, newIndex)] == x
    ensures RemoveAt(r, PlaceIndex(s, newIndex)) == s
    ensures multiset(r) == multiset(s) + multiset{x}
  {
    var p := PlaceIndex(s, newIndex);
    RemoveAtInsertAt(s, p, x);
    InsertAt(s, p, x)
  }

  /** `moveOrderBetweenQueues(id, from, to, newIndex)`. */
  function Moved(q: Queues, id: string, from: string, to: string, newIndex: Option<int>): Queues {
    var source := Chosen(q, from);
    var k := FindIndex(source, id);
    if k == -1 then q
    else
      var order := source[k];
      var active := if IsActive(from) then RemoveAt(q.active, k) else q.active;
      var standby := if IsActive(from) then q.standby else RemoveAt(q.standby, k);
      if IsActive(to) then Queues(Renumbered(Placed(active, order, newIndex)), standby)
      else Queues(Renumbered(active), Placed(standby, order, newIndex))
  }

  /** `splice(oldIndex, 1)` takes an element out exactly for these indices:
    * the list is not empty and the index is below its length. A negative
    * index counts back from the end, and one reaching past the front
    * starts at 0. */
  predicate TakesOne(oldIndex: int, len: nat) {
    0 < len && oldIndex < len
  }

  /** The two splices of `reorderQueue` on one list: the order at `oldIndex`
    * is taken out and put back at `newIndex`; the others keep their sequence. */
  function Repositioned(s: seq<Order>, oldIndex: int, newIndex: int): (r: seq<Order>)
    requires TakesOne(oldIndex, |s|)
    ensures |r| == |s|
    ensures multiset(r) == multiset(s)
    ensures r[ClampStart(newIndex, |s| - 1)] == s[ClampStart(oldIndex, |s|)]
    ensures RemoveAt(r, ClampStart(newIndex, |s| - 1)) == RemoveAt(s, ClampStart(oldIndex, |s|))
  {
    var i := ClampStart(oldIndex, |s|);
    var rest := RemoveAt(s, i);
    var j := ClampStart(newIndex, |rest|);
    RemoveAtInsertAt(rest, j, s[i]);
    InsertAt(rest, j, s[i])
  }

  /** `reorderQueue(queueType, oldIndex, newIndex)`, which also renumbers the
    * active list whichever list was reordered. */
  function Reordered(q: Queues, queueType: string, oldIndex: int, newIndex: int): Queues
    requires TakesOne(oldIndex, |Chosen(q, queueType)|)
  {
    if IsActive(queueType) then Queues(Renumbered(Repositioned(q.active, oldIndex, newIndex)), q.standby)
    else Queues(Renumbered(q.active), Repositioned(q.standby, oldIndex, newIndex))
  }

  /** `handleDragEnd` in js/draggable.js: a drop into a different list is a
    * move to the drop index, a drop into the same list is a reorder. */
  function Dragged(q: Queues, id: string, fromList: string, toList: string, oldIndex: int, newIndex: int): Queues
    requires fromList == toList ==> TakesOne(oldIndex, |Chosen(q, fromList)|)
  {
    if fromList != toList then Moved(q, id, fromList, toList, Some(newIndex))
    else Reordered(q, fromList, oldIndex, newIndex)
  }
}
