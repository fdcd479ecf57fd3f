/**
 * What the queue operations of js/app.js guarantee: where each order ends
 * up, that positions in the active list are renumbered 1..n and those in
 * standby never are, that moves neither lose nor duplicate an order, and
 * that no id is ever held twice.
 */
module QueueProperties {
  import opened JsArray
  import opened Shopify
  import opened Queue

  // ---------------------------------------------------------------------------
  // Helpers about ids
  // ---------------------------------------------------------------------------

  lemma IdsRemoveAt(s: seq<Order>, k: nat)
    requires k < |s|
    ensures multiset(Ids(RemoveAt(s, k))) == multiset(Ids(s)) - multiset{s[k].id}
  {
    MapRemoveAt(OrderId, s, k);
  }

  lemma IdsInsertAt(s: seq<Order>, k: nat, x: Order)
    requires k <= |s|
    ensures multiset(Ids(InsertAt(s, k, x))) == multiset(Ids(s)) + multiset{x.id}
  {
    MapInsertAt(OrderId, s, k, x);
  }

  lemma IdsPlaced(s: seq<Order>, x: Order, newIndex: Option<int>)
    ensures multiset(Ids(Placed(s, x, newIndex))) == multiset(Ids(s)) + multiset{x.id}
  {
    IdsInsertAt(s, PlaceIndex(s, newIndex), x);
  }

  lemma IdsAppend(a: seq<Order>, b: seq<Order>)
    ensures Ids(a + b) == Ids(a) + Ids(b)
  {
    MapAppend(OrderId, a, b);
  }

  lemma IdsRepositioned(s: seq<Order>, oldIndex: int, newIndex: int)
    requires TakesOne(oldIndex, |s|)
    ensures multiset(Ids(Repositioned(s, oldIndex, newIndex))) == multiset(Ids(s))
  {
    var i := ClampStart(oldIndex, |s|);
    var rest := RemoveAt(s, i);
    IdsRemoveAt(s, i);
    IdsInsertAt(rest, ClampStart(newIndex, |rest|), s[i]);
    assert s[i].id in multiset(Ids(s)) by {
      assert Ids(s)[i] == s[i].id;
    }
  }

  lemma IdInBag(s: seq<Order>, k: nat)
    requires k < |s|
    ensures s[k].id in multiset(Ids(s))
  {
    assert Ids(s)[k] == s[k].id;
  }

  /** An order appended to a list that lacks its id is found at the end. */
  lemma {:induction false} FindIndexAppended(s: seq<Order>, x: Order, id: string)
    requires !HasId(s, id) && x.id == id
    ensures FindIndex(s + [x], id) == |s|
  {
    if s != [] {
      assert (s + [x])[1..] == s[1..] + [x];
      assert Ids(s) == [s[0].id] + Ids(s[1..]);
      FindIndexAppended(s[1..], x, id);
    }
  }

  /** With no id held twice, no id is both active and on standby. */
  lemma {:induction false} ValidMeansDisjoint(q: Queues)
    requires Valid(q)
    ensures forall i, j :: 0 <= i < |q.active| && 0 <= j < |q.standby| ==> q.active[i].id != q.standby[j].id
  {
    forall i, j | 0 <= i < |q.active| && 0 <= j < |q.standby|
      ensures q.active[i].id != q.standby[j].id
    {
      IdInBag(q.active, i);
      IdInBag(q.standby, j);
      assert q.active[i].id in IdBag(q);
    }
  }

  /** A state holding no more of any id than a valid one is valid. */
  lemma SmallerBagKeepsValid(q: Queues, r: Queues)
    requires Valid(q) && IdBag(r) <= IdBag(q)
    ensures Valid(r)
  {
    forall id | id in IdBag(r)
      ensures IdBag(r)[id] <= 1
    {
      assert IdBag(r)[id] <= IdBag(q)[id];
    }
  }

  // ---------------------------------------------------------------------------
  // Refresh
  // ---------------------------------------------------------------------------

  /** The filter keeps the fetched order: filtering a concatenation is the
    * concatenation of the filtered parts, and one order survives exactly when
    * its id is not on standby. */
  lemma {:induction false} NotParkedKeepsOrder(a: seq<FetchedOrder>, b: seq<FetchedOrder>, standby: seq<Order>)
    ensures NotParked(a + b, standby) == NotParked(a, standby) + NotParked(b, standby)
  {
    if a == [] {
      assert a + b == b;
    } else {
      assert (a + b)[1..] == a[1..] + b;
      NotParkedKeepsOrder(a[1..], b, standby);
    }
  }

  /** The filter on a single fetched order. */
  lemma NotParkedSingle(o: FetchedOrder, standby: seq<Order>)
    ensures NotParked([o], standby) == if o.id in Ids(standby) then [] else [o]
  {
    assert [o][1..] == [];
  }

  /** Each id occurs in the filtered list as often as in the fetched list,
    * except ids on standby, which do not occur at all. */
  lemma {:induction false} NotParkedIds(fetched: seq<FetchedOrder>, standby: seq<Order>, id: string)
    ensures multiset(FetchedIds(NotParked(fetched, standby)))[id]
         == if id in Ids(standby) then 0 else multiset(FetchedIds(fetched))[id]
  {
    if fetched != [] {
      var o := fetched[0];
      var tail := fetched[1..];
      var rest := NotParked(tail, standby);
      NotParkedIds(tail, standby, id);
      assert multiset(FetchedIds(fetched))[id] == (if o.id == id then 1 else 0) + multiset(FetchedIds(tail))[id] by {
        assert fetched == [o] + tail;
        FetchedIdsCons(o, tail, id);
      }
      NotParkedStep(fetched, standby);
      if o.id !in Ids(standby) {
        FetchedIdsCons(o, rest, id);
      }
    }
  }

  lemma NotParkedStep(fetched: seq<FetchedOrder>, standby: seq<Order>)
    requires fetched != []
    ensures NotParked(fetched, standby)
         == if fetched[0].id in Ids(standby) then NotParked(fetched[1..], standby)
            else [fetched[0]] + NotParked(fetched[1..], standby)
  {
  }

  lemma FetchedIdsCons(o: FetchedOrder, rest: seq<FetchedOrder>, id: string)
    ensures multiset(FetchedIds([o] + rest))[id] == (if o.id == id then 1 else 0) + multiset(FetchedIds(rest))[id]
  {
    MapAppend(FetchedId, [o], rest);
    assert FetchedIds([o] + rest) == [o.id] + FetchedIds(rest);
  }

  lemma {:induction false} DistinctOccurOnce(xs: seq<string>, x: string)
    requires forall i, j :: 0 <= i < j < |xs| ==> xs[i] != xs[j]
    ensures multiset(xs)[x] <= 1
  {
    if xs != [] {
      var tail := xs[1..];
      assert forall i, j :: 0 <= i < j < |tail| ==> tail[i] != tail[j] by {
        forall i, j | 0 <= i < j < |tail|
          ensures tail[i] != tail[j]
        {
          assert tail[i] == xs[i + 1] && tail[j] == xs[j + 1];
        }
      }
      DistinctOccurOnce(tail, x);
      assert xs[0] !in tail by {
        forall k | 0 <= k < |tail|
          ensures tail[k] != xs[0]
        {
          assert tail[k] == xs[k + 1];
        }
      }
      assert xs == [xs[0]] + tail;
      assert multiset(xs) == multiset{xs[0]} + multiset(tail);
    }
  }

  lemma DistinctIdsOccurOnce(fetched: seq<FetchedOrder>, id: string)
    requires DistinctFetchedIds(fetched)
    ensures multiset(FetchedIds(fetched))[id] <= 1
  {
    DistinctOccurOnce(FetchedIds(fetched), id);
  }

  /** Refreshing with orders of distinct ids leaves no id held twice: the
    * fetched orders already parked are skipped. */
  lemma RefreshedIsValid(q: Queues, fetched: seq<FetchedOrder>)
    requires Valid(q) && DistinctFetchedIds(fetched)
    ensures Valid(Refreshed(q, fetched))
  {
    var r := Refreshed(q, fetched);
    var kept := NotParked(fetched, q.standby);
    assert Ids(r.active) == FetchedIds(kept);
    forall id | id in IdBag(r)
      ensures IdBag(r)[id] <= 1
    {
      NotParkedIds(fetched, q.standby, id);
      DistinctIdsOccurOnce(fetched, id);
      if id in Ids(q.standby) {
        assert IdBag(q)[id] >= multiset(Ids(q.standby))[id];
      } else {
        assert multiset(Ids(q.standby))[id] == 0;
      }
    }
  }

  /** Refresh replaces the active list with the fetched orders not on
    * standby, in fetched order and numbered 1..n, and keeps standby. */
  lemma RefreshedActive(q: Queues, fetched: seq<FetchedOrder>)
    ensures Records(Refreshed(q, fetched).active) == NotParked(fetched, q.standby)
    ensures Refreshed(q, fetched).standby == q.standby
    ensures Dense(Refreshed(q, fetched).active)
    ensures forall i :: 0 <= i < |fetched| ==>
      (fetched[i] in Records(Refreshed(q, fetched).active) <==> !HasId(q.standby, fetched[i].id))
  {
  }

  // ---------------------------------------------------------------------------
  // Deliver, park, reactivate
  // ---------------------------------------------------------------------------

  /** markAsDelivered removes exactly the first active order with the id,
    * renumbers active and leaves standby alone; the count drops by one. An id
    * not in active changes nothing. */
  lemma DeliveredSpec(q: Queues, id: string)
    ensures !HasId(q.active, id) ==> Delivered(q, id) == q
    ensures HasId(q.active, id) ==>
      var k := FindIndex(q.active, id);
      var r := Delivered(q, id);
      && Records(r.active) == Records(q.active[..k] + q.active[k + 1..])
      && Dense(r.active)
      && r.standby == q.standby
      && IdBag(r) == IdBag(q) - multiset{id}
      && Count(r) == Count(q) - 1
  {
    if HasId(q.active, id) {
      DeliveredFound(q, id);
    }
  }

  /** DeliveredSpec when the id is in active. */
  lemma DeliveredFound(q: Queues, id: string)
    requires HasId(q.active, id)
    ensures var k := FindIndex(q.active, id);
      var r := Delivered(q, id);
      && Records(r.active) == Records(q.active[..k] + q.active[k + 1..])
      && Dense(r.active)
      && r.standby == q.standby
      && IdBag(r) == IdBag(q) - multiset{id}
      && Count(r) == Count(q) - 1
  {
    var k := FindIndex(q.active, id);
    var rest := RemoveAt(q.active, k);
    var u := Renumbered(rest);
    var r := Delivered(q, id);
    assert r == Queues(u, q.standby);
    assert rest == q.active[..k] + q.active[k + 1..];
    assert Records(u) == Records(rest) && Ids(u) == Ids(rest);
    assert Count(r) == Count(q) - 1 by {
      assert |u| == |q.active| - 1;
    }
    assert IdBag(r) == IdBag(q) - multiset{id} by {
      IdsDropped(q.active, q.standby, k);
    }
  }

  /** Taking the order at index k out of the first of two lists takes its id
    * out of the ids of both. */
  lemma IdsDropped(a: seq<Order>, s: seq<Order>, k: nat)
    requires k < |a|
    ensures multiset(Ids(RemoveAt(a, k))) + multiset(Ids(s)) == (multiset(Ids(a)) + multiset(Ids(s))) - multiset{a[k].id}
  {
    IdsRemoveAt(a, k);
    IdInBag(a, k);
    TakeFromFirst(multiset(Ids(a)), multiset(Ids(s)), a[k].id);
  }

  lemma TakeFromFirst(m: multiset<string>, n: multiset<string>, x: string)
    requires x in m
    ensures (m - multiset{x}) + n == (m + n) - multiset{x}
  {
    forall y
      ensures ((m - multiset{x}) + n)[y] == ((m + n) - multiset{x})[y]
    {
    }
  }

  /** moveToStandbyQueue takes the first active order with the id out of
    * active, renumbers active, and appends that order, with the position it
    * had, to the end of standby. Nothing is lost or duplicated. */
  lemma ParkedSpec(q: Queues, id: string)
    ensures !HasId(q.active, id) ==> Parked(q, id) == q
    ensures HasId(q.active, id) ==>
      var k := FindIndex(q.active, id);
      var r := Parked(q, id);
      && Records(r.active) == Records(q.active[..k] + q.active[k + 1..])
      && Dense(r.active)
      && r.standby == q.standby + [q.active[k]]
      && IdBag(r) == IdBag(q)
      && Count(r) == Count(q)
  {
    if HasId(q.active, id) {
      var k := FindIndex(q.active, id);
      var o := q.active[k];
      var rest := RemoveAt(q.active, k);
      var u := Renumbered(rest);
      var st := q.standby + [o];
      var r := Parked(q, id);
      assert r == Queues(u, st);
      assert rest == q.active[..k] + q.active[k + 1..];
      assert Records(u) == Records(rest) && Ids(u) == Ids(rest);
      assert IdBag(r) == IdBag(q) by {
        IdsCarriedOver(q.standby, q.active, k, o);
      }
    }
  }

  /** moveToActiveQueue takes the first standby order with the id out of
    * standby and appends it to active with position |active| + 1, so a
    * densely numbered active list stays dense. */
  lemma ActivatedSpec(q: Queues, id: string)
    ensures !HasId(q.standby, id) ==> Activated(q, id) == q
    ensures HasId(q.standby, id) ==>
      var k := FindIndex(q.standby, id);
      var r := Activated(q, id);
      && Records(r.active) == Records(q.active) + [Record(q.standby[k])]
      && r.active[|q.active|].queuePosition == |r.active|
      && r.active[..|q.active|] == q.active
      && r.standby == q.standby[..k] + q.standby[k + 1..]
      && (Dense(q.active) ==> Dense(r.active))
      && IdBag(r) == IdBag(q)
      && Count(r) == Count(q)
  {
    if HasId(q.standby, id) {
      var k := FindIndex(q.standby, id);
      var n := |q.active|;
      var moved := q.standby[k].(queuePosition := n + 1);
      var a := q.active + [moved];
      var rest := RemoveAt(q.standby, k);
      var r := Activated(q, id);
      assert r == Queues(a, rest);
      assert rest == q.standby[..k] + q.standby[k + 1..];
      assert a[..n] == q.active && a[n] == moved && |a| == n + 1;
      assert Records(a) == Records(q.active) + [Record(q.standby[k])] by {
        MapAppend(Record, q.active, [moved]);
      }
      assert Dense(q.active) ==> Dense(a) by {
        AppendedDense(q.active, moved);
      }
      assert IdBag(r) == IdBag(q) by {
        IdsCarriedOver(q.active, q.standby, k, moved);
      }
    }
  }

  /** Moving the order at index k of one list to the end of another keeps
    * the ids of the two lists together. */
  lemma IdsCarriedOver(a: seq<Order>, s: seq<Order>, k: nat, moved: Order)
    requires k < |s| && moved.id == s[k].id
    ensures multiset(Ids(a + [moved])) + multiset(Ids(RemoveAt(s, k))) == multiset(Ids(a)) + multiset(Ids(s))
    ensures multiset(Ids(RemoveAt(s, k))) + multiset(Ids(a + [moved])) == multiset(Ids(s)) + multiset(Ids(a))
  {
    assert multiset(Ids(a + [moved])) == multiset(Ids(a)) + multiset{moved.id} by {
      IdsAppend(a, [moved]);
    }
    IdsRemoveAt(s, k);
    IdInBag(s, k);
    SwapAcross(multiset(Ids(a)), multiset(Ids(s)), moved.id);
    PutAcross(multiset(Ids(s)), multiset(Ids(a)), moved.id);
  }

  /** An order numbered one past the end of a list numbered 1..n extends it. */
  lemma AppendedDense(s: seq<Order>, x: Order)
    requires x.queuePosition == |s| + 1
    ensures Dense(s) ==> Dense(s + [x])
  {
  }

  lemma SwapAcross(m: multiset<string>, n: multiset<string>, x: string)
    requires x in n
    ensures (m + multiset{x}) + (n - multiset{x}) == m + n
  {
    forall y
      ensures ((m + multiset{x}) + (n - multiset{x}))[y] == (m + n)[y]
    {
    }
  }

  /** Parking an order and reactivating it puts it back at the end of active
    * with the next position, leaves standby as it was and keeps every id
    * once. */
  lemma ParkThenActivate(q: Queues, id: string)
    requires Valid(q) && HasId(q.active, id)
    ensures var k := FindIndex(q.active, id);
      var r := Activated(Parked(q, id), id);
      && Records(r.active) == Records(q.active[..k] + q.active[k + 1..]) + [Record(q.active[k])]
      && Dense(r.active)
      && r.standby == q.standby
      && IdBag(r) == IdBag(q)
  {
    var k := FindIndex(q.active, id);
    var p := Parked(q, id);
    ParkedSpec(q, id);
    ActivatedSpec(p, id);
    ValidMeansDisjoint(q);
    assert !HasId(q.standby, id);
    FindIndexAppended(q.standby, q.active[k], id);
  }

  // ---------------------------------------------------------------------------
  // Moves between lists and reordering
  // ---------------------------------------------------------------------------

  lemma RecordsRemoveAt(s: seq<Order>, k: nat)
    requires k < |s|
    ensures Records(RemoveAt(s, k)) == RemoveAt(Records(s), k)
    ensures multiset(Records(RemoveAt(s, k))) == multiset(Records(s)) - multiset{Record(s[k])}
  {
    MapRemoveAt(Record, s, k);
  }

  lemma RecordsInsertAt(s: seq<Order>, k: nat, x: Order)
    requires k <= |s|
    ensures Records(InsertAt(s, k, x)) == InsertAt(Records(s), k, Record(x))
    ensures multiset(Records(InsertAt(s, k, x))) == multiset(Records(s)) + multiset{Record(x)}
  {
    MapInsertAt(Record, s, k, x);
  }

  lemma PutBack(m: multiset<string>, x: string)
    requires x in m
    ensures (m - multiset{x}) + multiset{x} == m
  {
    forall y
      ensures ((m - multiset{x}) + multiset{x})[y] == m[y]
    {
    }
  }

  lemma PutAcross(m: multiset<string>, n: multiset<string>, x: string)
    requires x in m
    ensures (m - multiset{x}) + (n + multiset{x}) == m + n
  {
    forall y
      ensures ((m - multiset{x}) + (n + multiset{x}))[y] == (m + n)[y]
    {
    }
  }

  /** Taking an order out of a list and placing it back in the same list
    * keeps the ids of the list. */
  lemma TakeAndPlaceBack(s: seq<Order>, k: nat, newIndex: Option<int>)
    requires k < |s|
    ensures multiset(Ids(Placed(RemoveAt(s, k), s[k], newIndex))) == multiset(Ids(s))
  {
    IdsRemoveAt(s, k);
    IdsPlaced(RemoveAt(s, k), s[k], newIndex);
    IdInBag(s, k);
    PutBack(multiset(Ids(s)), s[k].id);
  }

  /** The four routes of moveOrderBetweenQueues, one lemma each: ids kept. */
  lemma MovedWithin(q: Queues, id: string, from: string, to: string, newIndex: Option<int>)
    requires IsActive(from) == IsActive(to) && HasId(Chosen(q, from), id)
    ensures IdBag(Moved(q, id, from, to, newIndex)) == IdBag(q)
  {
    var source := Chosen(q, from);
    var k := FindIndex(source, id);
    var placed := Placed(RemoveAt(source, k), source[k], newIndex);
    TakeAndPlaceBack(source, k, newIndex);
    if IsActive(from) {
      assert Moved(q, id, from, to, newIndex) == Queues(Renumbered(placed), q.standby);
    } else {
      assert Moved(q, id, from, to, newIndex) == Queues(Renumbered(q.active), placed);
    }
  }

  lemma MovedToStandby(q: Queues, id: string, from: string, to: string, newIndex: Option<int>)
    requires IsActive(from) && !IsActive(to) && HasId(q.active, id)
    ensures var k := FindIndex(q.active, id);
      Moved(q, id, from, to, newIndex) == Queues(Renumbered(RemoveAt(q.active, k)), Placed(q.standby, q.active[k], newIndex))
    ensures IdBag(Moved(q, id, from, to, newIndex)) == IdBag(q)
  {
    var k := FindIndex(q.active, id);
    var rest := RemoveAt(q.active, k);
    var placed := Placed(q.standby, q.active[k], newIndex);
    assert Moved(q, id, from, to, newIndex) == Queues(Renumbered(rest), placed);
    IdsRemoveAt(q.active, k);
    IdsPlaced(q.standby, q.active[k], newIndex);
    IdInBag(q.active, k);
    PutAcross(multiset(Ids(q.active)), multiset(Ids(q.standby)), id);
  }

  lemma MovedToActive(q: Queues, id: string, from: string, to: string, newIndex: Option<int>)
    requires !IsActive(from) && IsActive(to) && HasId(q.standby, id)
    ensures var k := FindIndex(q.standby, id);
      Moved(q, id, from, to, newIndex) == Queues(Renumbered(Placed(q.active, q.standby[k], newIndex)), RemoveAt(q.standby, k))
    ensures IdBag(Moved(q, id, from, to, newIndex)) == IdBag(q)
  {
    var k := FindIndex(q.standby, id);
    var rest := RemoveAt(q.standby, k);
    var placed := Placed(q.active, q.standby[k], newIndex);
    assert Moved(q, id, from, to, newIndex) == Queues(Renumbered(placed), rest);
    IdsRemoveAt(q.standby, k);
    IdsPlaced(q.active, q.standby[k], newIndex);
    IdInBag(q.standby, k);
    PutAcross(multiset(Ids(q.standby)), multiset(Ids(q.active)), id);
  }

  /** moveOrderBetweenQueues: an id not in the source list changes nothing;
    * otherwise no order is lost or copied, and active is numbered 1..n. */
  lemma MovedSpec(q: Queues, id: string, from: string, to: string, newIndex: Option<int>)
    ensures !HasId(Chosen(q, from), id) ==> Moved(q, id, from, to, newIndex) == q
    ensures HasId(Chosen(q, from), id) ==>
      var r := Moved(q, id, from, to, newIndex);
      Dense(r.active) && IdBag(r) == IdBag(q) && Count(r) == Count(q)
  {
    if HasId(Chosen(q, from), id) {
      if IsActive(from) == IsActive(to) {
        MovedWithin(q, id, from, to, newIndex);
      } else if IsActive(from) {
        MovedToStandby(q, id, from, to, newIndex);
      } else {
        MovedToActive(q, id, from, to, newIndex);
      }
    }
  }

  /** moveOrderBetweenQueues: the first order with the id leaves the source
    * list and lands in the target list at PlaceIndex of that list (taken
    * after the removal); the other orders of both lists keep their sequence,
    * and standby keeps every position as it was. */
  lemma MovedPlacement(q: Queues, id: string, from: string, to: string, newIndex: Option<int>)
    requires HasId(Chosen(q, from), id)
    ensures var source := Chosen(q, from);
      var k := FindIndex(source, id);
      var rest := RemoveAt(source, k);
      var target := if IsActive(from) == IsActive(to) then rest else Chosen(q, to);
      var p := PlaceIndex(target, newIndex);
      var r := Moved(q, id, from, to, newIndex);
      && Records(Chosen(r, to)) == Records(InsertAt(target, p, source[k]))
      && (!IsActive(to) ==> r.standby == InsertAt(target, p, source[k]))
      && (IsActive(from) != IsActive(to) ==> Records(Chosen(r, from)) == Records(rest))
      && (!IsActive(from) && IsActive(to) ==> r.standby == rest)
      && (IsActive(from) && IsActive(to) ==> r.standby == q.standby)
      && (!IsActive(from) && !IsActive(to) ==> Records(r.active) == Records(q.active))
  {
  }

  /** Dropping at the end of a list (no index given) appends. */
  lemma PlacedAtEnd(s: seq<Order>, x: Order)
    ensures Placed(s, x, None) == s + [x]
  {
  }

  /** Moving an order from standby to the end of active and back to the end
    * of standby gives active back its orders in the same sequence, numbered
    * 1..n (so an active list already numbered that way comes back unchanged),
    * and puts the order at the end of standby, now carrying the position
    * active gave it. */
  lemma MoveToActiveAndBack(q: Queues, id: string, standbyName: string, activeName: string)
    requires Valid(q) && HasId(q.standby, id)
    requires IsActive(activeName) && !IsActive(standbyName)
    ensures var k := FindIndex(q.standby, id);
      var r := Moved(Moved(q, id, standbyName, activeName, None), id, activeName, standbyName, None);
      && Records(r.active) == Records(q.active)
      && Dense(r.active)
      && (Dense(q.active) ==> r.active == q.active)
      && r.standby == RemoveAt(q.standby, k) + [q.standby[k].(queuePosition := |q.active| + 1)]
  {
    var n := |q.active|;
    var k := FindIndex(q.standby, id);
    var o' := q.standby[k].(queuePosition := n + 1);
    var m := Moved(q, id, standbyName, activeName, None);
    var r := Moved(m, id, activeName, standbyName, None);
    ActivatedAtEnd(q, id, standbyName, activeName);
    MovedToStandby(m, id, activeName, standbyName, None);
    PlacedAtEnd(m.standby, o');
    RemoveLast(m.active);
    MovedSpec(m, id, activeName, standbyName, None);
    if Dense(q.active) {
      DenseRecordsDetermine(r.active, q.active);
    }
  }

  /** Two lists numbered 1..n with the same records are the same list. */
  lemma DenseRecordsDetermine(a: seq<Order>, b: seq<Order>)
    requires Dense(a) && Dense(b) && Records(a) == Records(b)
    ensures a == b
  {
    forall i | 0 <= i < |a|
      ensures a[i] == b[i]
    {
      assert Records(a)[i] == Records(b)[i];
    }
  }

  /** The first half of MoveToActiveAndBack: the order is appended to active,
    * found there at the end, and active's other orders keep their records. */
  lemma ActivatedAtEnd(q: Queues, id: string, standbyName: string, activeName: string)
    requires Valid(q) && HasId(q.standby, id)
    requires IsActive(activeName) && !IsActive(standbyName)
    ensures var n := |q.active|;
      var k := FindIndex(q.standby, id);
      var m := Moved(q, id, standbyName, activeName, None);
      && |m.active| == n + 1
      && m.active[n] == q.standby[k].(queuePosition := n + 1)
      && Records(m.active[..n]) == Records(q.active)
      && FindIndex(m.active, id) == n
      && m.standby == RemoveAt(q.standby, k)
  {
    var k := FindIndex(q.standby, id);
    var o := q.standby[k];
    assert Moved(q, id, standbyName, activeName, None) == Queues(Renumbered(q.active + [o]), RemoveAt(q.standby, k)) by {
      PlacedAtEnd(q.active, o);
      MovedToActive(q, id, standbyName, activeName, None);
    }
    assert !HasId(q.active, id) by {
      ValidMeansDisjoint(q);
      assert forall i :: 0 <= i < |q.active| ==> Ids(q.active)[i] != id;
    }
    RenumberedAppend(q.active, o);
  }

  /** Renumbering a list with one order appended: the order ends up last with
    * the next position, the others keep their records, and an id the list
    * lacked is found at the end. */
  lemma RenumberedAppend(a: seq<Order>, o: Order)
    requires !HasId(a, o.id)
    ensures var n := |a|;
      var u := Renumbered(a + [o]);
      && |u| == n + 1
      && u[n] == o.(queuePosition := n + 1)
      && Records(u[..n]) == Records(a)
      && FindIndex(u, o.id) == n
  {
    var n := |a|;
    var u := Renumbered(a + [o]);
    var o' := o.(queuePosition := n + 1);
    assert u == u[..n] + [o'];
    assert Ids(u[..n]) == Ids(a);
    FindIndexAppended(u[..n], o', o.id);
    forall i | 0 <= i < n
      ensures Records(u[..n])[i] == Records(a)[i]
    {
      assert u[..n][i] == a[i].(queuePosition := i + 1);
    }
  }

  /** Renumbering a list already numbered 1..n changes nothing. */
  lemma RenumberedDense(s: seq<Order>)
    requires Dense(s)
    ensures Renumbered(s) == s
  {
    assert forall i :: 0 <= i < |s| ==> s[i].(queuePosition := i + 1) == s[i];
  }

  lemma RecordsRepositioned(s: seq<Order>, oldIndex: int, newIndex: int)
    requires TakesOne(oldIndex, |s|)
    ensures multiset(Records(Repositioned(s, oldIndex, newIndex))) == multiset(Records(s))
  {
    var i := ClampStart(oldIndex, |s|);
    var rest := RemoveAt(s, i);
    RecordsRemoveAt(s, i);
    RecordsInsertAt(rest, ClampStart(newIndex, |rest|), s[i]);
    assert Record(s[i]) in multiset(Records(s)) by {
      assert Records(s)[i] == Record(s[i]);
    }
  }

  /** `splice(start, 1)` removes an element exactly when the index it starts
    * at lies inside the list, which is what TakesOne says. */
  lemma TakesOneExactly(oldIndex: int, len: nat)
    ensures TakesOne(oldIndex, len) <==> ClampStart(oldIndex, len) < len
  {
  }

  /** reorderQueue: the order splice(oldIndex, 1) names moves to the index
    * splice(newIndex, 0, …) names in the shortened list, the other orders of
    * that list keep their sequence, the other list keeps its orders, and active
    * is renumbered whichever list was reordered (standby never is). */
  lemma ReorderedSpec(q: Queues, queueType: string, oldIndex: int, newIndex: int)
    requires TakesOne(oldIndex, |Chosen(q, queueType)|)
    ensures var s := Chosen(q, queueType);
      var i := ClampStart(oldIndex, |s|);
      var j := ClampStart(newIndex, |s| - 1);
      var r := Reordered(q, queueType, oldIndex, newIndex);
      && |Chosen(r, queueType)| == |s|
      && Records(Chosen(r, queueType))[j] == Record(s[i])
      && Records(RemoveAt(Chosen(r, queueType), j)) == Records(RemoveAt(s, i))
      && multiset(Records(Chosen(r, queueType))) == multiset(Records(s))
      && (IsActive(queueType) ==> r.standby == q.standby)
      && (!IsActive(queueType) ==>
            Records(r.active) == Records(q.active) && r.standby[j] == s[i] && RemoveAt(r.standby, j) == RemoveAt(s, i))
      && (!IsActive(queueType) && Dense(q.active) ==> r.active == q.active)
      && Dense(r.active)
      && IdBag(r) == IdBag(q)
      && Count(r) == Count(q)
  {
    if IsActive(queueType) {
      ReorderedActive(q, queueType, oldIndex, newIndex);
    } else {
      ReorderedStandby(q, queueType, oldIndex, newIndex);
    }
  }

  /** ReorderedSpec when the active list is reordered. */
  lemma ReorderedActive(q: Queues, queueType: string, oldIndex: int, newIndex: int)
    requires IsActive(queueType) && TakesOne(oldIndex, |q.active|)
    ensures var s := Chosen(q, queueType);
      var i := ClampStart(oldIndex, |s|);
      var j := ClampStart(newIndex, |s| - 1);
      var r := Reordered(q, queueType, oldIndex, newIndex);
      && |Chosen(r, queueType)| == |s|
      && Records(Chosen(r, queueType))[j] == Record(s[i])
      && Records(RemoveAt(Chosen(r, queueType), j)) == Records(RemoveAt(s, i))
      && multiset(Records(Chosen(r, queueType))) == multiset(Records(s))
      && (IsActive(queueType) ==> r.standby == q.standby)
      && Dense(r.active)
      && IdBag(r) == IdBag(q)
      && Count(r) == Count(q)
  {
    var u := Renumbered(Repositioned(q.active, oldIndex, newIndex));
    var r := Reordered(q, queueType, oldIndex, newIndex);
    assert r == Queues(u, q.standby);
    assert Chosen(r, queueType) == u && Chosen(q, queueType) == q.active;
    RenumberedRepositioned(q.active, oldIndex, newIndex);
    CountIsBagSize(q);
    CountIsBagSize(r);
  }

  /** A list reordered and then renumbered: what the active case of
    * reorderQueue leaves. */
  lemma RenumberedRepositioned(s: seq<Order>, oldIndex: int, newIndex: int)
    requires TakesOne(oldIndex, |s|)
    ensures var i := ClampStart(oldIndex, |s|);
      var j := ClampStart(newIndex, |s| - 1);
      var u := Renumbered(Repositioned(s, oldIndex, newIndex));
      && |u| == |s|
      && Records(u)[j] == Record(s[i])
      && Records(RemoveAt(u, j)) == Records(RemoveAt(s, i))
      && multiset(Records(u)) == multiset(Records(s))
      && Dense(u)
      && multiset(Ids(u)) == multiset(Ids(s))
  {
    var i := ClampStart(oldIndex, |s|);
    var j := ClampStart(newIndex, |s| - 1);
    var t := Repositioned(s, oldIndex, newIndex);
    var u := Renumbered(t);
    assert Records(u) == Records(t) && Ids(u) == Ids(t);
    assert multiset(Ids(t)) == multiset(Ids(s)) by {
      IdsRepositioned(s, oldIndex, newIndex);
    }
    assert multiset(Records(t)) == multiset(Records(s)) by {
      RecordsRepositioned(s, oldIndex, newIndex);
    }
    assert Records(RemoveAt(u, j)) == Records(RemoveAt(s, i)) by {
      RenumberedRemoveAt(t, j);
    }
  }

  /** Renumbering does not change the records left after a removal. */
  lemma RenumberedRemoveAt(t: seq<Order>, j: nat)
    requires j < |t|
    ensures Records(RemoveAt(Renumbered(t), j)) == Records(RemoveAt(t, j))
  {
    RecordsRemoveAt(Renumbered(t), j);
    RecordsRemoveAt(t, j);
  }

  /** ReorderedSpec when standby is reordered. */
  lemma ReorderedStandby(q: Queues, queueType: string, oldIndex: int, newIndex: int)
    requires !IsActive(queueType) && TakesOne(oldIndex, |q.standby|)
    ensures var s := Chosen(q, queueType);
      var i := ClampStart(oldIndex, |s|);
      var j := ClampStart(newIndex, |s| - 1);
      var r := Reordered(q, queueType, oldIndex, newIndex);
      && |Chosen(r, queueType)| == |s|
      && Records(Chosen(r, queueType))[j] == Record(s[i])
      && Records(RemoveAt(Chosen(r, queueType), j)) == Records(RemoveAt(s, i))
      && multiset(Records(Chosen(r, queueType))) == multiset(Records(s))
      && (IsActive(queueType) ==> r.standby == q.standby)
      && (!IsActive(queueType) ==>
            Records(r.active) == Records(q.active) && r.standby[j] == s[i] && RemoveAt(r.standby, j) == RemoveAt(s, i))
      && (!IsActive(queueType) && Dense(q.active) ==> r.active == q.active)
      && Dense(r.active)
      && IdBag(r) == IdBag(q)
      && Count(r) == Count(q)
  {
    var t := Repositioned(q.standby, oldIndex, newIndex);
    var r := Reordered(q, queueType, oldIndex, newIndex);
    assert r == Queues(Renumbered(q.active), t);
    assert Chosen(r, queueType) == t && Chosen(q, queueType) == q.standby;
    RepositionedRecords(q.standby, oldIndex, newIndex);
    if Dense(q.active) {
      RenumberedDense(q.active);
    }
    CountIsBagSize(q);
    CountIsBagSize(r);
  }

  /** A list reordered: what the standby case of reorderQueue leaves. */
  lemma RepositionedRecords(s: seq<Order>, oldIndex: int, newIndex: int)
    requires TakesOne(oldIndex, |s|)
    ensures var i := ClampStart(oldIndex, |s|);
      var j := ClampStart(newIndex, |s| - 1);
      var t := Repositioned(s, oldIndex, newIndex);
      && Records(t)[j] == Record(s[i])
      && Records(RemoveAt(t, j)) == Records(RemoveAt(s, i))
      && multiset(Records(t)) == multiset(Records(s))
      && multiset(Ids(t)) == multiset(Ids(s))
  {
    var i := ClampStart(oldIndex, |s|);
    var j := ClampStart(newIndex, |s| - 1);
    var t := Repositioned(s, oldIndex, newIndex);
    assert RemoveAt(t, j) == RemoveAt(s, i);
    IdsRepositioned(s, oldIndex, newIndex);
    RecordsRepositioned(s, oldIndex, newIndex);
  }

  /** Dragging an order back to where it came from within one list restores
    * the list. */
  lemma RepositionedUndo(s: seq<Order>, i: nat, j: nat)
    requires i < |s| && j < |s|
    ensures Repositioned(Repositioned(s, i, j), j, i) == s
  {
    var t := Repositioned(s, i, j);
    assert RemoveAt(t, j) == RemoveAt(s, i);
    InsertAtRemoveAt(s, i);
  }

  // ---------------------------------------------------------------------------
  // Sessions: any sequence of store operations
  // ---------------------------------------------------------------------------

  /** What the page can do to the queue: a refresh with the orders fetched,
    * the two buttons, a drop, and `markAsDelivered`, which no button calls. */
  datatype Event =
    | Refresh(fetched: seq<FetchedOrder>)
    | Deliver(id: string)
    | Activate(id: string)
    | Park(id: string)
    | Drag(id: string, fromList: string, toList: string, oldIndex: int, newIndex: int)

  /** A reorder needs an index that splice can take an order from. */
  predicate Runnable(q: Queues, e: Event) {
    e.Drag? && e.fromList == e.toList ==> TakesOne(e.oldIndex, |Chosen(q, e.fromList)|)
  }

  /** A fetch that holds no id twice. The page does not check this; the
    * invariant below relies on the server never repeating an id. */
  predicate Sound(e: Event) {
    e.Refresh? ==> DistinctFetchedIds(e.fetched)
  }

  function Apply(q: Queues, e: Event): Queues
    requires Runnable(q, e)
  {
    match e
    case Refresh(fetched) => Refreshed(q, fetched)
    case Deliver(id) => Delivered(q, id)
    case Activate(id) => Activated(q, id)
    case Park(id) => Parked(q, id)
    case Drag(id, fromList, toList, oldIndex, newIndex) => Dragged(q, id, fromList, toList, oldIndex, newIndex)
  }

  predicate RunnableAll(q: Queues, es: seq<Event>)
    decreases |es|
  {
    es == [] || (Runnable(q, es[0]) && RunnableAll(Apply(q, es[0]), es[1..]))
  }

  function Run(q: Queues, es: seq<Event>): Queues
    requires RunnableAll(q, es)
    decreases |es|
  {
    if es == [] then q else Run(Apply(q, es[0]), es[1..])
  }

  /** The store's invariant: no id held twice, active numbered 1..n. */
  predicate Good(q: Queues) {
    Valid(q) && Dense(q.active)
  }

  lemma RemovedKeepsValid(q: Queues, r: Queues, id: string)
    requires Valid(q) && IdBag(r) == IdBag(q) - multiset{id}
    ensures Valid(r)
  {
    SmallerBagKeepsValid(q, r);
  }

  /** A refresh with orders mapped from a Shopify answer is sound whenever
    * Shopify's numeric ids are distinct. */
  lemma MappedRefreshIsSound(ws: seq<WireOrder>)
    requires DistinctWireIds(ws)
    ensures Sound(Refresh(MapOrders(ws)))
  {
    MapOrdersKeepsIds(ws);
  }

  /** Every operation keeps the invariant. */
  lemma ApplyKeepsGood(q: Queues, e: Event)
    requires Good(q) && Runnable(q, e) && Sound(e)
    ensures Good(Apply(q, e))
  {
    match e
    case Refresh(fetched) =>
      RefreshedIsValid(q, fetched);
    case Deliver(id) =>
      DeliveredKeepsGood(q, id);
    case Activate(id) =>
      ActivatedKeepsGood(q, id);
    case Park(id) =>
      ParkedKeepsGood(q, id);
    case Drag(id, fromList, toList, oldIndex, newIndex) =>
      DraggedKeepsGood(q, id, fromList, toList, oldIndex, newIndex);
  }

  /** markAsDelivered keeps no id twice and active numbered 1..n. */
  lemma DeliveredKeepsGood(q: Queues, id: string)
    requires Good(q)
    ensures Good(Delivered(q, id))
  {
    DeliveredSpec(q, id);
    if HasId(q.active, id) {
      RemovedKeepsValid(q, Delivered(q, id), id);
    }
  }

  /** moveToActiveQueue keeps no id twice and active numbered 1..n. */
  lemma ActivatedKeepsGood(q: Queues, id: string)
    requires Good(q)
    ensures Good(Activated(q, id))
  {
    ActivatedSpec(q, id);
  }

  /** moveToStandbyQueue keeps no id twice and active numbered 1..n. */
  lemma ParkedKeepsGood(q: Queues, id: string)
    requires Good(q)
    ensures Good(Parked(q, id))
  {
    ParkedSpec(q, id);
  }

  /** A drop, whether a move or a reorder, keeps no id twice and active
    * numbered 1..n. */
  lemma DraggedKeepsGood(q: Queues, id: string, fromList: string, toList: string, oldIndex: int, newIndex: int)
    requires Good(q) && (fromList == toList ==> TakesOne(oldIndex, |Chosen(q, fromList)|))
    ensures Good(Dragged(q, id, fromList, toList, oldIndex, newIndex))
  {
    if fromList != toList {
      MovedSpec(q, id, fromList, toList, Some(newIndex));
    } else {
      ReorderedSpec(q, fromList, oldIndex, newIndex);
    }
  }

  /** Any session of sound operations keeps the invariant. */
  lemma {:induction false} RunKeepsGood(q: Queues, es: seq<Event>)
    requires Good(q) && RunnableAll(q, es)
    requires forall i :: 0 <= i < |es| ==> Sound(es[i])
    ensures Good(Run(q, es))
    decreases |es|
  {
    if es != [] {
      ApplyKeepsGood(q, es[0]);
      assert forall i :: 0 <= i < |es[1..]| ==> Sound(es[1..][i]) by {
        forall i | 0 <= i < |es[1..]|
          ensures Sound(es[1..][i])
        {
          assert es[1..][i] == es[i + 1];
        }
      }
      RunKeepsGood(Apply(q, es[0]), es[1..]);
    }
  }

  lemma InRemoveAt(s: seq<Order>, k: nat)
    requires k < |s|
    ensures forall o :: o in RemoveAt(s, k) ==> o in s
  {
    forall o | o in RemoveAt(s, k)
      ensures o in s
    {
      assert o in multiset(RemoveAt(s, k));
    }
  }

  lemma InPlaced(s: seq<Order>, x: Order, newIndex: Option<int>)
    ensures forall o :: o in Placed(s, x, newIndex) ==> o in s || o == x
  {
    forall o | o in Placed(s, x, newIndex)
      ensures o in s || o == x
    {
      assert o in multiset(Placed(s, x, newIndex));
    }
  }

  lemma InRepositioned(s: seq<Order>, oldIndex: int, newIndex: int)
    requires TakesOne(oldIndex, |s|)
    ensures forall o :: o in Repositioned(s, oldIndex, newIndex) ==> o in s
  {
    forall o | o in Repositioned(s, oldIndex, newIndex)
      ensures o in s
    {
      assert o in multiset(Repositioned(s, oldIndex, newIndex));
    }
  }

  /** Standby is never renumbered: every order on standby after an operation
    * was already held, on one list or the other, with the same position. */
  lemma StandbyKeepsPositions(q: Queues, e: Event)
    requires Runnable(q, e)
    ensures forall o :: o in Apply(q, e).standby ==> o in q.standby || o in q.active
  {
    match e
    case Refresh(_) =>
    case Deliver(_) =>
    case Activate(id) =>
      var k := FindIndex(q.standby, id);
      if k != -1 {
        InRemoveAt(q.standby, k);
      }
    case Park(id) =>
    case Drag(id, fromList, toList, oldIndex, newIndex) =>
      if fromList == toList {
        if !IsActive(fromList) {
          InRepositioned(q.standby, oldIndex, newIndex);
        }
      } else {
        var source := Chosen(q, fromList);
        var k := FindIndex(source, id);
        if k != -1 {
          InRemoveAt(source, k);
          var rest := RemoveAt(source, k);
          var target := if IsActive(fromList) == IsActive(toList) then rest else Chosen(q, toList);
          InPlaced(target, source[k], Some(newIndex));
        }
      }
  }
}
