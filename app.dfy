/**
 * The queue store of js/app.js as it runs: `window.state.activeOrders` and
 * `window.state.standbyOrders` are fields that each store operation updates
 * in place. Every method is proved to leave exactly the state the matching
 * function of module Queue describes, so the lemmas of QueueProperties hold
 * of the store.
 */
module App {
  import opened JsArray
  import opened Shopify
  import opened Queue

  class QueueStore {
    var activeOrders: seq<Order>
    var standbyOrders: seq<Order>

    /** Both lists as one value. */
    function State(): Queues
      reads this
    {
      Queues(activeOrders, standbyOrders)
    }

    /** The page starts with two empty lists. */
    constructor ()
      ensures activeOrders == [] && standbyOrders == []
    {
      activeOrders := [];
      standbyOrders := [];
    }

    /** `updateQueueCount`: the total it displays, one per order held. */
    method UpdateQueueCount() returns (totalOrders: nat)
      ensures totalOrders == |IdBag(State())|
      ensures totalOrders == |activeOrders| + |standbyOrders|
    {
      totalOrders := |activeOrders| + |standbyOrders|;
    }

    /** `updateQueuePositions`: the active orders are numbered 1..n in list
      * order; standby is not touched. */
    method UpdateQueuePositions()
      modifies this
      ensures activeOrders == Renumbered(old(activeOrders))
      ensures standbyOrders == old(standbyOrders)
    {
      var index := 0;
      while index < |activeOrders|
        invariant 0 <= index <= |activeOrders| == |old(activeOrders)|
        invariant forall j :: 0 <= j < index ==> activeOrders[j] == old(activeOrders)[j].(queuePosition := j + 1)
        invariant forall j :: index <= j < |activeOrders| ==> activeOrders[j] == old(activeOrders)[j]
        invariant standbyOrders == old(standbyOrders)
      {
        activeOrders := activeOrders[index := activeOrders[index].(queuePosition := index + 1)];
        index := index + 1;
      }
    }

    /** `refreshOrders`: nothing happens unless connected; a fetch that
      * throws (or yields no list) leaves the queue alone; otherwise active
      * becomes the fetched orders not parked on standby, numbered 1..n. */
    method RefreshOrders(isConnected: bool, result: FetchResult)
      modifies this
      ensures isConnected && result.Fetched? ==> State() == Refreshed(old(State()), result.orders)
      ensures !(isConnected && result.Fetched?) ==> State() == old(State())
    {
      if !isConnected {
        return;
      }
      if result.Fetched? {
        var newOrders := NotParked(result.orders, standbyOrders);
        activeOrders := Numbered(newOrders);
      }
    }

    /** `markAsDelivered`. */
    method MarkAsDelivered(orderId: string)
      modifies this
      ensures State() == Delivered(old(State()), orderId)
    {
      var orderIndex := FindIndex(activeOrders, orderId);
      if orderIndex != -1 {
        activeOrders := RemoveAt(activeOrders, orderIndex);
        UpdateQueuePositions();
      }
    }

    /** `moveToActiveQueue`. */
    method MoveToActiveQueue(orderId: string)
      modifies this
      ensures State() == Activated(old(State()), orderId)
    {
      var orderIndex := FindIndex(standbyOrders, orderId);
      if orderIndex != -1 {
        var order := standbyOrders[orderIndex];
        standbyOrders := RemoveAt(standbyOrders, orderIndex);
        order := order.(queuePosition := |activeOrders| + 1);
        activeOrders := activeOrders + [order];
      }
    }

    /** `moveToStandbyQueue`. */
    method MoveToStandbyQueue(orderId: string)
      modifies this
      ensures State() == Parked(old(State()), orderId)
    {
      var orderIndex := FindIndex(activeOrders, orderId);
      if orderIndex != -1 {
        var order := activeOrders[orderIndex];
        activeOrders := RemoveAt(activeOrders, orderIndex);
        standbyOrders := standbyOrders + [order];
        UpdateQueuePositions();
      }
    }

    /** The insert-or-push step of `moveOrderBetweenQueues` on one list. */
    static method Place(list: seq<Order>, order: Order, newIndex: Option<int>) returns (r: seq<Order>)
      ensures r == Placed(list, order, newIndex)
      ensures r[PlaceIndex(list, newIndex)] == order
    {
      if newIndex.Some? && newIndex.value < |list| {
        r := InsertAt(list, ClampStart(newIndex.value, |list|), order);
      } else {
        assert list + [order] == InsertAt(list, |list|, order);
        r := list + [order];
      }
    }

    /** `moveOrderBetweenQueues`. */
    method MoveOrderBetweenQueues(orderId: string, fromQueue: string, toQueue: string, newIndex: Option<int>)
      modifies this
      ensures State() == Moved(old(State()), orderId, fromQueue, toQueue, newIndex)
    {
      var order: Option<Order> := None;
      if IsActive(fromQueue) {
        var index := FindIndex(activeOrders, orderId);
        if index != -1 {
          order := Some(activeOrders[index]);
          activeOrders := RemoveAt(activeOrders, index);
        }
      } else {
        var index := FindIndex(standbyOrders, orderId);
        if index != -1 {
          order := Some(standbyOrders[index]);
          standbyOrders := RemoveAt(standbyOrders, index);
        }
      }

      if order.None? {
        return;
      }

      if IsActive(toQueue) {
        activeOrders := Place(activeOrders, order.value, newIndex);
      } else {
        standbyOrders := Place(standbyOrders, order.value, newIndex);
      }

      UpdateQueuePositions();
    }

    /** `reorderQueue`: take the order splice(oldIndex, 1) names out of the
      * chosen list, put it back at newIndex, then renumber active. */
    method ReorderQueue(queueType: string, oldIndex: int, newIndex: int)
      requires TakesOne(oldIndex, |Chosen(State(), queueType)|)
      modifies this
      ensures State() == Reordered(old(State()), queueType, oldIndex, newIndex)
    {
      if IsActive(queueType) {
        var start := ClampStart(oldIndex, |activeOrders|);
        var order := activeOrders[start];
        activeOrders := RemoveAt(activeOrders, start);
        activeOrders := InsertAt(activeOrders, ClampStart(newIndex, |activeOrders|), order);
      } else {
        var start := ClampStart(oldIndex, |standbyOrders|);
        var order := standbyOrders[start];
        standbyOrders := RemoveAt(standbyOrders, start);
        standbyOrders := InsertAt(standbyOrders, ClampStart(newIndex, |standbyOrders|), order);
      }

      UpdateQueuePositions();
    }

    /** `handleDragEnd` of js/draggable.js. */
    method HandleDragEnd(orderId: string, fromList: string, toList: string, oldIndex: int, newIndex: int)
      requires fromList == toList ==> TakesOne(oldIndex, |Chosen(State(), fromList)|)
      modifies this
      ensures State() == Dragged(old(State()), orderId, fromList, toList, oldIndex, newIndex)
    {
      if fromList != toList {
        MoveOrderBetweenQueues(orderId, fromList, toList, Some(newIndex));
      } else {
        ReorderQueue(fromList, oldIndex, newIndex);
      }
    }

    /** `loadQueueState`: each list is replaced by its saved copy when one
      * was saved and kept otherwise. */
    method LoadQueueState(savedActive: Option<seq<Order>>, savedStandby: Option<seq<Order>>)
      modifies this
      ensures activeOrders == if savedActive.Some? then savedActive.value else old(activeOrders)
      ensures standbyOrders == if savedStandby.Some? then savedStandby.value else old(standbyOrders)
    {
      if savedActive.Some? {
        activeOrders := savedActive.value;
      }
      if savedStandby.Some? {
        standbyOrders := savedStandby.value;
      }
    }
  }
}
