# A Dafny model of the UBBClicker game backend

This project models the core of the clicker game's backend:

- **Item pricing and the ownership table** (`app/crud/item.py`). The price of the next unit of an item is its base cost times `multiplier ** quantity`, rounded half-up. A hard-coded table overrides the price for a 10-point item at multiplier 1.15. Units are credited to the (user, item) records.
- **The economy** (`app/crud/game.py`):
  - lazy passive accrual on every read of a user's state;
  - clicks and purchases;
  - the leaderboard query;
  - the administrative overwrite of a user's counters.
- **The game endpoints** (`app/api/game.py`):
  - the catalog priced for one user;
  - the HTTP outcome of a purchase or a click;
  - the websocket session, which answers each client message and broadcasts the leaderboard after a successful purchase.
- **The connection registry** (`app/api/websocket.py`):
  - `ConnectionManager`, with its map of active sockets and its broadcast list;
  - the user id carried by an access token.
- **The generic document helper** (`app/mongodb/base.py`): `read`, the field merge of `update`, and the skip/limit arguments of `find_many`.

The model is organised in modules:

- `Models` holds the records: a `Store` of three maps (users, catalog, and the ownership table keyed by (user, item)) and a `Database` class with the same maps as fields.
- `ItemCrud` and `Economy` state every rule of the game as a function of the store.
- `GameCrud` has the in-place operations on a `Database`. Each one is proved to leave the tables exactly as the matching `Economy` function says.
- `GameApi` holds two layers:
  - the websocket session as a function (`Dispatch`, `Run`, `Session`);
  - the same session written imperatively over a `Database` and a `Connections.ConnectionManager`, proved equal to the function.
- `Ordering` models an `ORDER BY score LIMIT n` query.
- `CrudBase` models the document helper.

Python floats are `real`. Python's `int(x)` on a float truncates toward zero (`ItemCrud.Trunc`). The wall clock (`time.time()`) is the parameter `now`. Token validation is a function parameter.

## Model

| member | source | states |
|---|---|---|
| ItemCrud.Trunc | app/crud/item.py:65 | `int(x)` is the integer part of `x`, truncating toward zero, on both sides of zero |
| ItemCrud.RoundHalfUp | app/crud/item.py:65 | for a non-negative amount the result is the nearest integer with halves rounding up; a negative amount is truncated |
| ItemCrud.RoundHalfUpIsFloorOfHalfMore | app/crud/item.py:65 | for a non-negative amount, `int(raw) + (1 if frac >= 0.5 else 0)` equals `floor(raw + 0.5)` |
| ItemCrud.RoundHalfUpMonotonic | app/crud/item.py:65 | half-up rounding never reverses the order of two non-negative amounts |
| ItemCrud.CalculateItemCost | app/crud/item.py:45-65 | the price of the next unit: the table entry for base cost 10 at 1.15, otherwise `base_cost * multiplier ** quantity` rounded half-up; no contract of its own, its properties are the `Cost...` lemmas below |
| ItemCrud.CostTable | app/crud/item.py:51-62 | base cost 10 at multiplier 1.15 costs 10, 11, 13 and 41 with 0, 1, 2 and 10 units owned |
| ItemCrud.CostRoundsHalfUp | app/crud/item.py:48-65 | outside the table the price is within half a point of `base_cost * multiplier ** quantity` (half-up rounding) |
| ItemCrud.TableOverridesRounding | app/crud/item.py:51-65 | the table disagrees with exact half-up rounding: the rule gives 12 and 40 where the table gives 11 and 41 |
| ItemCrud.CostOfFirstUnit | app/crud/item.py:48-53 | with no units owned the price is exactly the base cost |
| ItemCrud.CostAtLeastBase | app/crud/item.py:48-65 | with a non-negative base cost and a multiplier of at least 1, no unit costs less than the base cost |
| ItemCrud.CostNonDecreasing | app/crud/item.py:45-65 | owning one more unit never lowers the next price, including the steps that touch the table |
| ItemCrud.SecondUnitCostsMore | app/crud/item.py:51-56 | after the first purchase of a 10-point item at 1.15 the next unit costs more than 10 |
| ItemCrud.GetUserItem | app/crud/item.py:20-25 | the record of exactly (user, item) is found iff it exists, with its quantity |
| ItemCrud.WithUserItem | app/crud/item.py:31-43 | crediting creates or increments the (user, item) record by `quantity` and leaves every other record as it was |
| ItemCrud.AddThenGet | app/crud/item.py:31-43 | after crediting, the record is found holding the old quantity (0 if none) plus the credit; other records read as before |
| ItemCrud.AddUserItem | app/crud/item.py:31-43 | increments an existing record in place or inserts one holding `quantity`; returns the new quantity; users and catalog unchanged |
| ItemCrud.GetAllItems | app/crud/item.py:16-18 | the catalog ordered by base cost; no contract of its own, `GetAllItemsSorted` states it |
| ItemCrud.GetAllItemsSorted | app/crud/item.py:16-18 | the listing holds every catalog item exactly once, in ascending base cost |
| Ordering.SortedKeysLength | app/crud/game.py:130 | `ORDER BY ... LIMIT n` returns `min(n, rows)` rows |
| Ordering.SortedKeysFromTable | app/crud/game.py:130 | every row returned is a row of the table |
| Ordering.SortedKeysSorted | app/crud/game.py:130 | rows returned are distinct and each precedes the ones after it in the query order |
| Ordering.SortedKeysTop | app/crud/game.py:130 | a row the limit leaves out is preceded by every row returned |
| Ordering.SortedKeysComplete | app/crud/game.py:130 | a limit of at least the table size returns every row |
| Economy.Accrue | app/crud/game.py:23-53 | accrual changes only points, lifetime points and the clock, and adds the same non-negative amount to both counters |
| Economy.PassiveEarnings | app/crud/game.py:39 | `int(rate * elapsed)` is non-negative and within one point below the exact product |
| Economy.AccrueFirstObservation | app/crud/game.py:28-31 | a record never observed (`last_updated == 0`) only has its clock set |
| Economy.AccrueCredits | app/crud/game.py:34-46 | a positive rate over a positive interval adds `int(rate * elapsed)` to both counters and sets the clock |
| Economy.AccrueIdle | app/crud/game.py:37-51 | no elapsed time changes nothing; elapsed time at a non-positive rate moves only the clock |
| Economy.AccrueFiveSeconds | app/crud/game.py:34-46 | 1.0 point per second over 5 seconds adds exactly 5 to both counters |
| Economy.AccrueIdempotent | app/crud/game.py:23-53 | observing twice at the same instant credits once |
| Economy.AccrueSplitNeverGains | app/crud/game.py:34-46 | because each observation truncates, observing at t1 and then t2 never credits more than observing only at t2 |
| Economy.AccrueUser | app/crud/game.py:23-53 | accrual touches only the observed user's record; an unknown user leaves the store as it was |
| Economy.Observe | app/crud/game.py:13-21 | the record is returned iff the user exists, accrued up to `now`, and is the one stored |
| Economy.Click | app/crud/game.py:55-60 | a click yields no record exactly when the user is unknown |
| Economy.ClickCases | app/crud/game.py:55-73 | an unknown user gives `(0, None)` and no change; otherwise, after accrual, both counters gain `int(points_per_click)`, clicks gain 1, the untruncated rate is reported, and nothing else changes |
| Economy.TwoClicksFromScratch | app/crud/game.py:55-73 | a newly registered user (never observed, 1 point per click, no passive income) clicking at `t1` and again at any later `t2` has 2 points, 2 lifetime points and 2 clicks |
| Economy.NegativeClickRateLowersLifetime | app/crud/game.py:55-73 | nothing keeps click rates non-negative: a never-observed user with rate -1.0 loses one lifetime point on a click, so the economy has not progressed |
| Economy.Purchase | app/crud/game.py:75-79 | a purchase keeps the set of users, and yields no result exactly when the user is unknown |
| Economy.NextCost | app/crud/game.py:88-91 | the price of the user's next unit of an item, from the owned quantity (0 if none); no contract of its own |
| Economy.PurchaseCases | app/crud/game.py:75-126 | each case of `buy_item`. Unknown user: no change. Unknown item or too few points: the matching refusal, with only accrual applied. Success: the price is deducted (the balance stays >= 0), one unit is credited, the rates grow by the item's bonuses, lifetime points and other users are untouched, and the result reports the new values and the next price |
| Economy.RefusalChangesNothing | app/crud/game.py:81-98 | a refused purchase leaves the store exactly as accrual left it, and a known user always gets a result |
| Economy.RefusalReasons | app/crud/game.py:81-98 | "Item not found" happens iff the item is missing; "Not enough points" iff it exists and the accrued balance is below the price |
| Economy.FirstPurchaseExample | app/crud/game.py:100-126 | buying a 10-point, +0.1/s item with 100 points leaves 90 points, adds 0.1/s, owns 1 unit, and reports a next price above 10 |
| Economy.RowLimit | app/crud/game.py:130 | the rows SQLite's `LIMIT` admits: a negative limit means no limit; no contract of its own |
| Economy.TopUsers | app/crud/game.py:130 | the ids of `ORDER BY lifetime_points DESC LIMIT limit`; no contract of its own, `TopUsersSorted` states it |
| Economy.Leaderboard | app/crud/game.py:128-141 | the entries of `get_leaderboard`; no contract of its own, the `Leaderboard...` lemmas state it |
| Economy.TopUsersSorted | app/crud/game.py:130 | the query returns `min(limit, users)` distinct users, or every user when the limit is negative (SQLite's "no limit"), by descending lifetime points |
| Economy.LeaderboardRanked | app/crud/game.py:128-141 | at most `limit` entries (every user when the limit is negative), one per user, copied from the user's record, by descending lifetime points, with `rank = index + 1` |
| Economy.ListedAreTopUsers | app/crud/game.py:130-139 | the entries list exactly the users the query returned, in its order |
| Economy.LeaderboardTop | app/crud/game.py:130 | nobody left off the leaderboard has more lifetime points than anybody on it |
| Economy.LeaderboardComplete | app/crud/game.py:130 | a negative limit, or one of at least the number of users, lists everybody |
| Economy.LeaderboardPosition | app/crud/game.py:130 | under any limit, including the default 10, each position holds the best lifetime points among users not listed before it, whether they are listed later or left out |
| Economy.LeaderboardStrictBest | app/crud/game.py:130-139 | under any limit, a user strictly ahead of everyone not yet listed takes the next position |
| Economy.LeaderboardExample | app/crud/game.py:128-141 | users with 1000, 500 and 1500 lifetime points are ranked 1500, 1000, 500 as 1, 2, 3, under the default limit, any limit of at least 3, or no limit |
| Economy.Overwrite | app/crud/game.py:143-161 | each supplied field overwrites its column and nothing else changes, with no accrual; an unknown user gives `None` |
| Economy.OverwriteIdempotent | app/crud/game.py:143-161 | applying the same overwrite twice is applying it once |
| Economy.ObservePreserves | app/crud/game.py:23-53 | accrual keeps balances and click rates non-negative and never lowers lifetime points, clicks or holdings (given `WellFormed`: catalog click bonuses and users' click rates non-negative, which the source does not enforce) |
| Economy.ClickPreserves | app/crud/game.py:55-73 | a click keeps those invariants and never lowers lifetime points, clicks or holdings (given `WellFormed`: catalog click bonuses and users' click rates non-negative, which the source does not enforce) |
| Economy.PurchasePreserves | app/crud/game.py:93-111 | a purchase never drives a balance below zero and never lowers lifetime points, clicks or holdings (given `WellFormed`: catalog click bonuses and users' click rates non-negative, which the source does not enforce) |
| GameCrud.UpdatePassivePoints | app/crud/game.py:23-53 | the in-place update leaves the tables as `Economy.AccrueUser` says and returns the stored record |
| GameCrud.GetUserGameState | app/crud/game.py:13-21 | the tables and the returned record are those of `Economy.Observe` |
| GameCrud.ProcessClick | app/crud/game.py:55-73 | the tables, the points earned and the record are those of `Economy.Click` |
| GameCrud.BuyItem | app/crud/game.py:75-126 | the tables and the result are those of `Economy.Purchase` |
| GameCrud.GetLeaderboard | app/crud/game.py:128-141 | for any integer limit, negative included, the loop's result is `Economy.Leaderboard` |
| GameCrud.UpdateGameState | app/crud/game.py:143-161 | the tables and the record are those of `Economy.Overwrite` |
| GameApi.PriceItem | app/api/game.py:69-85 | an entry copies the item's fields; its quantity is the owned quantity (0 if none); its price is `calculate_item_cost` of that quantity |
| GameApi.CalculatedItems | app/api/game.py:60-85 | one priced entry per catalog item, in catalog order, with distinct ids |
| GameApi.CalculateItems | app/api/game.py:68-85 | the loop builds exactly `CalculatedItems` |
| GameApi.PurchaseUpdatesListing | app/api/game.py:64-85 | after a purchase the bought item's entry shows the reported quantity (one more) and the reported next price; other entries and other users' listings are unchanged |
| GameApi.ListingIgnoresUserRecords | app/api/game.py:57-89 | the listing depends only on the catalog and the inventory, so accrual before it does not change it |
| GameApi.BuyEndpoint | app/api/game.py:155-177 | unknown item: 404 before the user's record is read or accrued. Unknown user: 404. Too few points: 400 "Not enough points". Otherwise 200 with the purchase result |
| GameApi.ClickEndpoint | app/api/game.py:114-127 | unknown user: 404; otherwise 200 with the points earned, new total, lifetime points and clicks of the accrued-then-clicked record |
| GameApi.GameStateWithItems | app/api/game.py:57-91 | the accrued record with the priced catalog, for a known user |
| GameApi.Classify | app/api/game.py:245-283 | each of the four `type` values maps to its own message, a purchase keeping its `item_id` field (absent, null or an id); every other value is ignored |
| GameApi.OnClick | app/api/game.py:245-258 | a click message replies only to its sender, and raises exactly when the user is unknown |
| GameApi.PurchaseReplies | app/api/game.py:263-273 | the purchase result goes first to the buyer, followed by one leaderboard broadcast exactly when the purchase succeeded |
| GameApi.OnBuy | app/api/game.py:259-273 | a purchase message replies only to its sender, and raises (reading `success` of `None`) exactly when the user is unknown |
| GameApi.OnBuyNull | app/api/game.py:259-273 | a purchase with a null `item_id` accrues, replies once to its sender, and raises exactly when the user is unknown |
| GameApi.NullItemIsUnknownItem | app/crud/game.py:75-86 | a null `item_id` is answered exactly as a purchase of any id missing from the catalog ("Item not found") |
| GameApi.OnGetState | app/api/game.py:275-281 | a state request replies with the accrued record (or none) and never raises |
| GameApi.OnGetItems | app/api/game.py:283-314 | an items request replies with the priced catalog and never raises |
| GameApi.Dispatch | app/api/game.py:239-314 | undecodable text and a purchase with no `item_id` key raise with no change; an unknown type is ignored; every reply goes to the sender |
| GameApi.BroadcastOnlyAfterPurchase | app/api/game.py:259-273 | a leaderboard broadcast follows a message iff it was a purchase that succeeded |
| GameApi.PurchaseReply | app/api/game.py:259-268 | a purchase message is always answered first with its result, and raises iff the user is unknown |
| GameApi.ClickReply | app/api/game.py:245-258 | a click from a known user is answered with the HTTP click endpoint's body; from an unknown user it raises silently |
| GameApi.DispatchPreserves | app/api/game.py:239-314 | handling one message keeps the economy's invariants and never lowers lifetime points, clicks or holdings (given `WellFormed`: catalog click bonuses and users' click rates non-negative, which the source does not enforce) |
| GameApi.RunPreserves | app/api/game.py:239-314 | so does handling any number of messages (given `WellFormed`: catalog click bonuses and users' click rates non-negative, which the source does not enforce) |
| GameApi.RunStopsAtFault | app/api/game.py:230-322 | once a message raises, no later message is handled |
| GameApi.Run | app/api/game.py:239-314 | the first `n` messages handled in order, stopping at the first that raises; no contract of its own, the `Run...` lemmas state it |
| GameApi.DispatchRepliesOnlyTo | app/api/game.py:239-314 | handling one message sends personal replies to nobody but its sender |
| GameApi.RunRepliesToOwnUser | app/api/game.py:239-314 | every personal reply of a session goes to the session's own user |
| GameApi.SessionPreserves | app/api/game.py:230-314 | a session opens with the user's state, replies only to its user, keeps the invariants and never lowers lifetime points, clicks or holdings (given `WellFormed`: catalog click bonuses and users' click rates non-negative, which the source does not enforce) |
| GameApi.Session | app/api/game.py:228-314 | the initial state message followed by the handled inbox; no contract of its own, `SessionPreserves` states it |
| GameApi.Deliver | app/api/websocket.py:33-41 | a reply becomes `Personal`, a broadcast becomes `Fanout`; no contract of its own |
| GameApi.DeliverAll | app/api/websocket.py:33-41 | the sends of a sequence of replies, in order; no contract of its own, `SendsAccumulate` and `PurchaseRepliesDelivered` state it |
| GameApi.SendsAccumulate | app/api/websocket.py:33-41 | sending the deliveries of one run of replies and then another sends those of their concatenation |
| GameApi.PurchaseRepliesDelivered | app/api/game.py:263-273 | a purchase's replies reach the buyer's socket, then, on success, every broadcast socket |
| GameApi.RepliesReachSessionSocket | app/api/websocket.py:19-36 | while the user is connected on `ws`, a reply to the user goes to `ws` alone |
| GameApi.HandleClick | app/api/game.py:245-258 | the imperative click branch changes the tables and sends exactly as `OnClick` says; the registry is unchanged |
| GameApi.SendPurchaseReplies | app/api/game.py:263-273 | the sends are the deliveries of `PurchaseReplies` |
| GameApi.HandleBuy | app/api/game.py:259-273 | the imperative purchase branch matches `OnBuy` in tables, sends and fault |
| GameApi.HandleBuyNull | app/api/game.py:259-273 | the imperative purchase branch with a null `item_id` matches `OnBuyNull` in tables, sends and fault |
| GameApi.HandleGetState | app/api/game.py:275-281 | the imperative state branch matches `OnGetState` |
| GameApi.HandleGetItems | app/api/game.py:283-314 | the imperative items branch matches `OnGetItems` |
| GameApi.HandleMessage | app/api/game.py:245-314 | one iteration of the loop matches `Dispatch` in tables, sends and fault |
| GameApi.ServeNext | app/api/game.py:239-314 | one more iteration takes the tables and the sends from the state after `i` messages to the state after `i + 1` |
| GameApi.ServeMessages | app/api/game.py:239-314 | the `while True` loop leaves the tables and the sends exactly as `Run` says over the whole inbox |
| GameApi.WebsocketEndpoint | app/api/game.py:207-322 | a rejected token closes with 1008 and a token whose subject is not an integer raises, both without registering; otherwise the user is registered, sent the session's messages and deregistered |
| Connections.RemoveFirst | app/api/websocket.py:29-30 | `list.remove` drops one occurrence when present (length and multiset) and nothing otherwise |
| Connections.RemoveFirstAt | app/api/websocket.py:30 | the occurrence dropped is the first, and the rest of the list keeps its order |
| Connections.IndexOf | app/api/websocket.py:29-30 | the search finds the first position holding the socket |
| Connections.Connected | app/api/websocket.py:19-23 | after connecting, the user's entry names `ws`, other entries are unchanged, and `ws` is appended to the broadcast list |
| Connections.Disconnected | app/api/websocket.py:25-31 | an unregistered user changes nothing; a registered one loses the entry and the first occurrence of its socket; other entries are unchanged |
| Connections.ActiveAreBroadcast | app/api/websocket.py:19-31 | in a consistent registry every registered socket is in the broadcast list |
| Connections.EmptyConsistent | app/api/websocket.py:13-17 | the empty registry is consistent |
| Connections.ConnectedConsistent | app/api/websocket.py:19-23 | connecting keeps the registry consistent |
| Connections.DisconnectedConsistent | app/api/websocket.py:25-31 | disconnecting keeps the registry consistent |
| Connections.Consistent | app/api/websocket.py:13-31 | the registry invariant: no socket is held by more users than it has entries in the broadcast list; no contract of its own, kept by `EmptyConsistent`, `ConnectedConsistent` and `DisconnectedConsistent` |
| Connections.ReconnectLeavesStaleSocket | app/api/websocket.py:19-31 | reconnecting a user on a new socket leaves the old socket in the broadcast list, even after the user disconnects |
| Connections.ConnectThenDisconnect | app/api/websocket.py:19-31 | a fresh socket connected and then disconnected leaves the registry as it was |
| Connections.Fanout | app/api/websocket.py:38-41 | a broadcast sends the message once per list entry, in list order |
| Connections.Personal | app/api/websocket.py:33-36 | a personal message goes once to the socket registered for the user and to no other socket; nothing is sent when the user is not registered |
| Connections.BroadcastReachesActive | app/api/websocket.py:38-41 | every registered user's socket receives a broadcast |
| Connections.ConnectionManager.constructor | app/api/websocket.py:13-17 | a new manager is empty, consistent, and has sent nothing |
| Connections.ConnectionManager.Connect | app/api/websocket.py:19-23 | the fields become `Connected` of the old registry; consistency kept; nothing sent |
| Connections.ConnectionManager.Disconnect | app/api/websocket.py:25-31 | the fields become `Disconnected` of the old registry; consistency kept; nothing sent |
| Connections.ConnectionManager.SendPersonalMessage | app/api/websocket.py:33-36 | the sends grow by exactly one delivery of the message to the user's registered socket, or by nothing when the user is not registered; the registry is unchanged |
| Connections.ConnectionManager.Broadcast | app/api/websocket.py:38-41 | the loop's sends are `Fanout` of the broadcast list; the registry is unchanged |
| Connections.ConnectionManager.BroadcastLeaderboard | app/api/websocket.py:43-54 | the default top 10 leaderboard is broadcast |
| Connections.ParseInt | app/api/websocket.py:76 | `int(s)` succeeds only on non-empty text |
| Connections.ParseIntRoundTrip | app/api/websocket.py:76 | `int(str(n)) == n` for every integer id |
| Connections.NatToString | app/api/websocket.py:76 | `str(n)` of a natural number is a non-empty run of digits with no leading zero |
| Connections.IntToString | app/api/websocket.py:76 | `str(n)` starts with a minus sign exactly when `n` is negative, and the rest is digits |
| Connections.GetUserIdFromToken | app/api/websocket.py:71-76 | failed validation gives `None`; otherwise the parsed subject, which raises when the subject is missing or not an integer |
| Connections.TokenForId | app/api/websocket.py:71-76 | a valid token whose subject is `str(id)` yields `id` |
| CrudBase.Read | app/mongodb/base.py:37-43 | the document is found iff it is stored; otherwise `DocumentNotFound(id)` |
| CrudBase.MergedField | app/mongodb/base.py:58-66 | the new value of one field; no contract of its own, the merge lemmas below state it |
| CrudBase.Merged | app/mongodb/base.py:51-66 | the merged document has exactly the fields it had before; keys of the update data that are not fields add nothing |
| CrudBase.UpdateField | app/mongodb/base.py:59-66 | the `setattr` calls for one field leave it as the merge rule says and touch no other field |
| CrudBase.Update | app/mongodb/base.py:45-69 | the loop over the document's fields leaves it exactly `Merged` |
| CrudBase.PutOverwrites | app/mongodb/base.py:58-63 | without `patch`, a field named in the update data takes the supplied value, even `None` |
| CrudBase.PatchSkipsMissing | app/mongodb/base.py:59-60 | with `patch`, a field whose value is missing or `None` keeps its value |
| CrudBase.PatchSetsSupplied | app/mongodb/base.py:59-66 | with `patch`, a field with a value takes it (`updated_at` takes now) |
| CrudBase.UpdatedAtRefresh | app/mongodb/base.py:59-66 | `updated_at` becomes now on every full update; on a patch, only when a non-`None` value is supplied |
| CrudBase.UnnamedFieldsKept | app/mongodb/base.py:58-66 | fields the update data does not name keep their value, except `updated_at` |
| CrudBase.MergeIdempotent | app/mongodb/base.py:58-66 | the same update applied twice is applied once |
| CrudBase.PatchAgreesWithPut | app/mongodb/base.py:58-66 | with no `None` values and `updated_at` supplied, a patch and a full update agree |
| CrudBase.FindMany | app/mongodb/base.py:87-104 | a falsy limit becomes `multi_max`; a truthy page gives `skip = (page - 1) * limit` and `limit`; no page passes neither; a page with no limit at all raises |
| CrudBase.PagesTile | app/mongodb/base.py:87-99 | with a positive page size, `find_many` asks page 1 from 0, and page `p + 1` with the same size starting where page `p` ends, the two windows disjoint |

## Left out

- Floating point: `points_per_click`, `points_per_second` and `cost_multiplier` are exact reals. IEEE-754 rounding near the .5 boundary of the price rule is not modelled. This is why the price table is kept as written instead of being derived.
- The wall clock is the parameter `now`. `int(time.time())` is not modelled.
- Persistence: `db.commit`/`db.refresh`, the SQLAlchemy session and the Mongo engine. Each CRUD operation is one atomic change of in-memory maps. `get_user_items`, `get_by_name` and the generic `get` are map lookups.
- Ties in `ORDER BY`: SQL leaves the order of equal base costs or equal lifetime points open. The model breaks ties by ascending id.
- Websocket transport: `accept`, `send_json`, `receive_text` and JSON decoding. A message arrives already decoded (`GameApi.Inbound`). A send is recorded as a `Delivery` in `ConnectionManager.sent`. The end of the inbox stands for the client leaving (`WebSocketDisconnect`).
- Concurrency: each session is a sequence of messages. Interleaving with other sessions and with `periodic_leaderboard_update` (its `while True` loop and `asyncio.sleep`) is not modelled, nor is the startup hook.
- `broadcast_leaderboard` opens its own database session. Here it reads the same `Database`.
- Exceptions other than the ones the handlers raise on missing data are not modelled: database errors and send failures. The log line printed on an error is not modelled.
- JWT decoding and signature checking (`validate_token`) are a function parameter.
- `Connections.ParseInt`: only an optional sign followed by ASCII digits parses. Python's `int` also accepts surrounding whitespace, underscores between digits and non-ASCII digits. Such subjects are treated as raising.
- `CrudBase`: `create`, `delete`, `save`, `configure`, `count`, `find_one` and the `collection` property are engine calls and are not modelled. `update` does not model saving the document. Field values are an abstract type, and `jsonable_encoder` is the list of field names in order.
- `CrudBase.FindMany`: returns the keyword arguments given to the engine's `find`, not the documents it would return. An absent `sort` keyword is represented as `None`.
- `Economy.ObservePreserves`: holds only under `Economy.WellFormed`, which asks for non-negative catalog click bonuses and users' click rates. The source enforces neither: the item schema takes any float, and `update_game_state` writes any value. `Economy.NegativeClickRateLowersLifetime` shows what breaks without it.
- `Economy.ClickPreserves`: holds only under `Economy.WellFormed`, as above.
- `Economy.PurchasePreserves`: holds only under `Economy.WellFormed`, as above.
- `GameApi.DispatchPreserves`: holds only under `Economy.WellFormed`, as above.
- `GameApi.RunPreserves`: holds only under `Economy.WellFormed`, as above.
- `GameApi.SessionPreserves`: holds only under `Economy.WellFormed`, as above.
- `GameApi.OnBuyNull`: `app/crud/base.py` is not part of this model; its `get` is taken to find no item for a null id. An `item_id` that is neither an integer nor `null` (a string, a float) is not modelled.
- `CrudBase.Read`: the id is an integer key. `ObjectId(id)` raising on a malformed id is not modelled.
- `CrudBase.Update`: the document is an object with named fields. `setattr` raising when `db_obj` is a plain dict is not modelled.
- The HTTP endpoints' authentication dependency (`get_current_user_dependency`) is not modelled. The caller's id is a parameter.
