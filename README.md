# Order queue: a verified model

This project models the order queue of a small Shopify packing-station web
page. The page fetches unfulfilled orders from a shop. It keeps them in two
ordered lists in the browser:

- the **active** queue, where every order shows a position 1, 2, 3, …;
- the **standby** queue, where orders are parked.

Staff move orders between the two lists with buttons or by drag and drop,
and reorder them within a list; the code also defines `markAsDelivered`,
which nothing calls yet.

Modules:

- `JsArray` (js_array.dfy) states the JavaScript array behaviour the store
  relies on: where `splice` starts for a negative or oversized index, removal
  at an index, insertion at an index, and `map`.
- `NumberText` (number_text.dfy) writes an integer id as decimal text, as
  `id.toString()` does. It also reads the text back, which shows that
  different ids stay different.
- `Shopify` (shopify.dfy) models the shop-name normaliser `formatShopName`.
  It also models the order fetch `fetchOrders`:
  - the credential guard;
  - the bounded retry loop, written as a `while` loop;
  - the mapping of wire orders to the records the page keeps.

  The network is a parameter: `network(k)` is how the k-th request ends.
- `Queue` (queue.dfy) describes the state each store operation leaves
  behind. It works on values: two sequences of orders. Each order is an `id`,
  an `orderNumber`, an `orderDate` and a `queuePosition`.
- `QueueProperties` (queue_properties.dfy) proves what the operations
  guarantee:
  - where each order ends up;
  - that active positions are always 1..n;
  - that standby positions are never renumbered;
  - that moves neither lose nor copy an order, and no id is held twice;
  - that the count shown is kept.

  It also models any sequence of store operations and proves the invariant
  is kept for all of them, provided each fetch returns no id twice. The
  page does not check this itself; a fetch that repeats an id puts that id
  in active twice.
- `App` (app.dfy) holds the store itself. `QueueStore` is a class whose
  fields `activeOrders` and `standbyOrders` its methods update in place. The
  positions are rewritten in a `while` loop, as the `forEach` loop does.
  Each method is proved to leave exactly the state that the matching
  function of `Queue` describes.

The model follows the code as written:

- Only the active list is ever renumbered. Standby orders keep whatever
  position they last had.
- Parking an order appends it to standby with no duplicate check.
- `reorderQueue` does no bounds check. A negative index counts from the end,
  as `splice` does.
- There are two lists, active and standby.
- Any queue name other than `"active"` selects standby.

## Model

| member | source | states |
|---|---|---|
| JsArray.ClampStart | js/app.js:479-480 | the index `splice` starts at: a negative start counts back from the end, and the result is clamped to 0..length |
| JsArray.RemoveAt | js/app.js:310 | `splice(i, 1)` shortens the list by one; the elements before `i` stay and the ones after shift down; the multiset loses exactly the removed element |
| JsArray.InsertAt | js/app.js:452 | `splice(i, 0, x)` puts `x` at `i`; the elements before stay and the ones after shift up; the multiset gains exactly `x` |
| JsArray.InsertAtRemoveAt | js/app.js:479-480 | taking an element out and putting it back at the same index restores the list |
| JsArray.RemoveAtInsertAt | js/app.js:479-480 | removing an element just inserted restores the list |
| NumberText.Digits | js/shopify.js:66 | decimal digits of a natural number, non-empty and without a leading zero |
| NumberText.DecimalString | js/shopify.js:66 | `toString()` of an integer: non-empty, with a leading minus exactly for negatives |
| NumberText.DigitsRoundTrip | js/shopify.js:66 | reading the digits back gives the number |
| NumberText.DecimalRoundTrip | js/shopify.js:66 | the text of an id is well-formed and reads back as the id |
| NumberText.DecimalStringInjective | js/shopify.js:66 | different ids get different id texts |
| Shopify.TrimStart | js/shopify.js:7 | leading white space is dropped: the result is a suffix, all dropped characters are white space, and the result does not start with white space |
| Shopify.TrimEnd | js/shopify.js:7 | trailing white space is dropped, with the mirror-image guarantees |
| Shopify.Trim | js/shopify.js:7 | the result is a slice of the name, everything outside it is white space, and it neither starts nor ends with white space |
| Shopify.LowerChar | js/shopify.js:7 | an upper-case letter maps to its lower case (code point + 32); every other character is kept; nothing upper-case remains |
| Shopify.Lower | js/shopify.js:7 | lower-casing maps every character and keeps the length |
| Shopify.StripPrefix | js/shopify.js:8-9 | a name starting with the prefix loses exactly that prefix; any other name is kept |
| Shopify.IndexOf | js/shopify.js:10 | `indexOf`: -1 exactly when the character is absent, otherwise its first index |
| Shopify.CutAtSlash | js/shopify.js:10-11 | the result is a prefix of the name; it is the name itself, or the non-empty part before the first '/'; a slash at index 0 keeps the whole name |
| Shopify.Cleaned | js/shopify.js:7-11 | the cleaned name has no upper-case letter, and a '/' survives only when it is the first character |
| Shopify.WithSuffix | js/shopify.js:12 | the result is the host itself when it already ends in ".myshopify.com", and the host followed by ".myshopify.com" otherwise |
| Shopify.FormatShopName | js/shopify.js:5-13 | the result is the cleaned name, or the cleaned name followed by ".myshopify.com"; it always ends in ".myshopify.com"; the suffix is added exactly when the cleaned name lacks it, so it is never added twice |
| Shopify.FormatShopNameNormalizesFirst | js/shopify.js:7 | the result depends only on the trimmed, lower-cased input |
| Shopify.FormatShopNameExample | js/shopify.js:5-13 | `" HTTPS://Ab/x "` becomes `"ab.myshopify.com"` |
| Shopify.FormatShopNameBothSchemes | js/shopify.js:8-9 | "http://" is stripped before "https://" is looked for, so `"http://https://x"` becomes `"x.myshopify.com"` |
| Shopify.FormatShopNameLeadingSlash | js/shopify.js:10-11 | a slash at index 0 is kept with the rest of the name |
| Shopify.FormatShopNameNotIdempotent | js/shopify.js:7-12 | `"http:// x"` becomes `" x.myshopify.com"`, and formatting that again gives `"x.myshopify.com"` |
| Shopify.MapOrders | js/shopify.js:65-69 | the mapping keeps length and order and maps each wire order to `{id.toString(), name, created_at}` |
| Shopify.MapOrdersKeepsIds | js/shopify.js:66 | every mapped id reads back as its wire id, so distinct wire ids stay distinct |
| Shopify.ToFetchedOrder | js/shopify.js:65-69 | one wire order becomes `{id.toString(), name, created_at}`; its id reads back as the wire id (stated by Shopify.MapOrdersKeepsIds) |
| Shopify.RunAttempt | js/shopify.js:56-71 | one attempt succeeds exactly on a 2xx response with a readable order list, with those orders mapped. A rejected request fails with its own message. A non-2xx status fails with "HTTP error " followed by the status. An unreadable 2xx body fails with the parse message |
| Shopify.FetchOrders | js/shopify.js:40-85 | with an empty credential it throws "Missing shop name or access token" before any request. Otherwise it makes at most `maxAttempts` requests, and every request before the last failed. It returns the first success, or rethrows the last error after exactly `maxAttempts` failures. It returns undefined exactly when `maxAttempts <= 0`, and waits once after every failure but the last |
| Shopify.AllAttemptsFailExample | js/shopify.js:48-78 | a server that always answers 500 gives three requests, two waits and the error "HTTP error 500" |
| Queue.FindIndex | js/app.js:305 | `findIndex`: -1 exactly when no order has the id, otherwise the first index with it |
| Queue.Renumbered | js/app.js:498-500 | renumbering keeps the orders and their sequence and numbers them 1..n |
| Queue.Numbered | js/app.js:138-141 | the fetched records, in fetched order, numbered 1..n |
| Queue.IsActive | js/app.js:435-478 | only the name "active" selects the active list; every other name selects standby (stated by QueueProperties.MovedToStandby and QueueProperties.MovedToActive) |
| Queue.Count | js/app.js:162 | the count displayed is the length of active plus the length of standby (stated by Queue.CountIsBagSize and App.QueueStore.UpdateQueueCount) |
| Queue.CountIsBagSize | js/app.js:162 | the count shown, active length plus standby length, is the number of ids held in both lists counted with repeats |
| Queue.NotParked | js/app.js:134-135 | the filter keeps exactly the fetched orders whose id is not on standby |
| QueueProperties.NotParkedSingle | js/app.js:134-135 | the filter on one fetched order drops it exactly when its id is on standby (with NotParkedKeepsOrder, this characterises the filter) |
| Queue.Refreshed | js/app.js:132-141 | after a refresh, standby is unchanged, active is numbered 1..n, and it holds exactly the fetched records whose id is not on standby |
| Queue.PlaceIndex | js/app.js:451-455 | the insertion index is `newIndex`, clamped as `splice` clamps it, when one is given and below the length; otherwise it is the length. It never exceeds the length |
| Queue.Placed | js/app.js:451-455 | the moved order lands at the insertion index, and removing it gives back the list |
| Queue.Delivered | js/app.js:304-328 | the state `markAsDelivered` leaves (stated by QueueProperties.DeliveredSpec) |
| Queue.Activated | js/app.js:331-350 | the state `moveToActiveQueue` leaves (stated by QueueProperties.ActivatedSpec) |
| Queue.Parked | js/app.js:402-428 | the state `moveToStandbyQueue` leaves (stated by QueueProperties.ParkedSpec) |
| Queue.Moved | js/app.js:431-474 | the state `moveOrderBetweenQueues` leaves (stated by QueueProperties.MovedSpec and QueueProperties.MovedPlacement) |
| Queue.Reordered | js/app.js:477-493 | the state `reorderQueue` leaves (stated by QueueProperties.ReorderedSpec) |
| Queue.Dragged | js/draggable.js:47-66 | a drop into another list is a move to the drop index; a drop into the same list is a reorder (stated by QueueProperties.DraggedKeepsGood) |
| Queue.Repositioned | js/app.js:479-480 | reordering keeps the length and the multiset of orders; the order `splice(oldIndex, 1)` takes ends at the clamped `newIndex`, and the others keep their sequence |
| QueueProperties.FindIndexAppended | js/app.js:403 | an order appended to a list without its id is found at the end |
| QueueProperties.ValidMeansDisjoint | js/app.js:16-23 | when no id is held twice, no id is both active and on standby |
| QueueProperties.NotParkedKeepsOrder | js/app.js:135 | filtering keeps the fetched order: filtering a concatenation concatenates the filtered parts |
| QueueProperties.NotParkedIds | js/app.js:134-135 | each fetched id occurs after filtering as often as before, except ids on standby, which vanish |
| QueueProperties.DistinctOccurOnce | js/app.js:135 | a list of distinct ids holds each id at most once |
| QueueProperties.RefreshedIsValid | js/app.js:132-141 | a refresh with distinct fetched ids never puts an id in both lists or twice in one |
| QueueProperties.RefreshedActive | js/app.js:133-141 | active becomes exactly the filtered fetched records in fetched order, numbered 1..n; standby is untouched; a fetched order is active exactly when its id is not on standby |
| QueueProperties.DeliveredSpec | js/app.js:304-328 | an id not in active changes nothing. Otherwise exactly the first active order with it is removed, active is renumbered, standby is unchanged, the id leaves the bag and the count drops by one |
| QueueProperties.ParkedSpec | js/app.js:402-428 | an id not in active changes nothing. Otherwise its first order leaves active, active is renumbered, and the order is appended to standby with its old position; ids and count are kept |
| QueueProperties.ActivatedSpec | js/app.js:331-350 | an id not on standby changes nothing. Otherwise its first order leaves standby and is appended to active with position equal to the new active length. The rest of active is untouched, a densely numbered active stays dense, and ids and count are kept |
| QueueProperties.ParkThenActivate | js/app.js:331-350 | parking an order and reactivating it puts it back at the end of active, with active dense, standby as before and no id duplicated |
| QueueProperties.TakeAndPlaceBack | js/app.js:435-455 | moving an order within one list keeps that list's ids |
| QueueProperties.MovedWithin | js/app.js:431-474 | a move whose source and target are the same list keeps the ids |
| QueueProperties.MovedToStandby | js/app.js:435-463 | an active-to-standby move removes the first match from active, renumbers active and places the order in standby; ids are kept |
| QueueProperties.MovedToActive | js/app.js:440-455 | a standby-to-active move removes the first match from standby and places the order in active, renumbered; ids are kept |
| QueueProperties.MovedSpec | js/app.js:431-474 | an id absent from the source list changes nothing. Otherwise no order is lost or copied, the count is kept and active is numbered 1..n |
| QueueProperties.MovedPlacement | js/app.js:449-464 | the target list holds the order at the insertion index, measured after removal, and the others in sequence. The source list keeps its other orders. A list that is neither source nor target keeps its orders, and standby is never renumbered |
| QueueProperties.PlacedAtEnd | js/app.js:454 | with no index given, the order is pushed to the end |
| QueueProperties.ActivatedAtEnd | js/app.js:450-455 | moving a standby order to active with `newIndex` undefined appends it with the next position, where it is then found |
| QueueProperties.MoveToActiveAndBack | js/app.js:431-474 | moving an order from standby to active and back gives active back its orders in the same sequence, renumbered 1..n, so an active list already numbered 1..n comes back unchanged; standby ends with the order carrying its active position |
| QueueProperties.DenseRecordsDetermine | js/app.js:138-141 | two lists numbered 1..n in sequence order that hold the same records are the same list |
| QueueProperties.RenumberedDense | js/app.js:498-500 | renumbering an already dense active list changes nothing |
| QueueProperties.TakesOneExactly | js/app.js:479 | `splice(oldIndex, 1)` removes an order exactly when the list is non-empty and `oldIndex` is below its length |
| QueueProperties.ReorderedSpec | js/app.js:477-493 | the chosen list keeps its length and multiset of records; the order at `oldIndex` moves to the clamped `newIndex` and the others keep their sequence. Reordering active leaves standby unchanged; reordering standby leaves a dense active unchanged. Active ends dense, and ids and count are kept |
| QueueProperties.RepositionedUndo | js/app.js:479-480 | dragging an order back to where it came from restores the list |
| QueueProperties.RemovedKeepsValid | js/app.js:310 | removing an id keeps every id held at most once |
| QueueProperties.MappedRefreshIsSound | js/shopify.js:65-69 | orders mapped from distinct wire ids have distinct ids |
| QueueProperties.DeliveredKeepsGood | js/app.js:304-328 | delivering keeps no id twice and active numbered 1..n |
| QueueProperties.ActivatedKeepsGood | js/app.js:331-350 | moving to active keeps no id twice and active numbered 1..n |
| QueueProperties.ParkedKeepsGood | js/app.js:402-428 | moving to standby keeps no id twice and active numbered 1..n |
| QueueProperties.DraggedKeepsGood | js/draggable.js:47-66 | a drop, whether a move between lists or a reorder within one, keeps no id twice and active numbered 1..n |
| QueueProperties.Apply | js/app.js:304-504 | one store operation applied to the state (stated by QueueProperties.ApplyKeepsGood and QueueProperties.StandbyKeepsPositions) |
| QueueProperties.Run | js/app.js:304-504 | a sequence of store operations applied in turn (stated by QueueProperties.RunKeepsGood) |
| QueueProperties.ApplyKeepsGood | js/app.js:304-504 | every operation — refresh, deliver, activate, park, drop — keeps no id twice and active numbered 1..n, provided a refresh brings no id twice |
| QueueProperties.RunKeepsGood | js/app.js:304-504 | the same holds after any sequence of operations in which no fetch returns an id twice |
| QueueProperties.StandbyKeepsPositions | js/app.js:496-500 | after any operation, every standby order was already held, with the same position: standby is never renumbered |
| App.QueueStore.constructor | js/app.js:16-18 | both lists start empty |
| App.QueueStore.UpdateQueueCount | js/app.js:160-165 | the count displayed is the number of orders held in both lists |
| App.QueueStore.UpdateQueuePositions | js/app.js:496-504 | the loop numbers the active orders 1..n in place and leaves standby alone |
| App.QueueStore.RefreshOrders | js/app.js:123-157 | when not connected, or when the fetch throws, nothing changes; otherwise the state becomes the refreshed state |
| App.QueueStore.MarkAsDelivered | js/app.js:304-328 | the new state is exactly the delivered state |
| App.QueueStore.MoveToActiveQueue | js/app.js:331-350 | the new state is exactly the activated state |
| App.QueueStore.MoveToStandbyQueue | js/app.js:402-428 | the new state is exactly the parked state |
| App.QueueStore.Place | js/app.js:451-455 | inserts at `newIndex` when it is given and below the length, otherwise pushes |
| App.QueueStore.MoveOrderBetweenQueues | js/app.js:431-474 | the new state is exactly the moved state |
| App.QueueStore.ReorderQueue | js/app.js:477-493 | the new state is exactly the reordered state |
| App.QueueStore.HandleDragEnd | js/draggable.js:47-66 | a drop into another list is a move to the drop index; a drop into the same list is a reorder |
| App.QueueStore.LoadQueueState | js/app.js:383-393 | each list is replaced only when a saved copy exists |

## Left out

- Rendering, status text, `saveQueueState`, the auto-refresh timer and the connection flow (`connectToShopify`, `fetchShopInfo`) are not modelled. They are DOM, timer and storage effects that do not change the lists.
- js/server.js and js/auth.js are not part of this model. They are an HTTP proxy and credential storage.
- JSON encoding and decoding in `loadQueueState` is not modelled. A saved list is given as an optional value, present when its stored text is non-empty.
- Orders are values, not shared objects. The code never holds one object in both lists, since every move takes the order out before inserting it, so no aliasing is lost.
- Shopify.LowerChar: covers ASCII and Latin-1 letters only, not all of Unicode's case mapping used by `toLowerCase`.
- NumberText.DecimalString: covers integral ids only; `toString` of non-integers and of magnitudes of 10^21 and above (exponent notation) is not modelled. Shopify ids are far below that.
- Shopify.RunAttempt: `new Date(created_at)` is not modelled; the order date is carried as the wire text.
- Shopify.FetchOrders: the one-second waits are counted, not timed. The cache-busting timestamp in the URL and the `updateStatus` call before rethrowing are not modelled.
- App.QueueStore.ReorderQueue: requires an `oldIndex` from which `splice(oldIndex, 1)` takes an order: the list is non-empty and `oldIndex` is below its length. A negative index counts from the end, and one reaching past the front takes the first order. On an empty list, or with an index at or past the end, `splice` takes nothing, `undefined` is inserted, and building the status text then throws; that path is not modelled. Drag and drop always supplies an in-range index.
- QueueProperties.RunKeepsGood: holds only for sessions in which every fetch returns distinct ids. js/app.js:134-141 does not remove repeated ids from a fetch, so an answer that repeats an id puts that id in active twice.
- App.QueueStore.MoveOrderBetweenQueues: `newIndex` is an integer or absent (`undefined`); a `null` index is not modelled.
- App.QueueStore.HandleDragEnd: the `typeof … === 'function'` checks are taken as true, since app.js always defines both functions.
