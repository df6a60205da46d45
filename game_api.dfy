/**
 * The game endpoints' decision logic: the catalog listing with current prices, the HTTP outcome
 * of a purchase or a click, and the websocket session, which answers each client message and
 * broadcasts the leaderboard after a successful purchase. Transport, JSON and authentication are
 * not modelled; a message arrives already decoded, stamped with the time it is handled.
 */
module GameApi {
  import opened Wrappers
  import opened Models
  import opened ItemCrud
  import Economy
  import GameCrud
  import opened Connections

  // ---------------------------------------------------------------------------------------
  // The catalog with current prices

  /** One catalog entry priced for `userId`: owned quantity (0 if none) and the price of the next unit. */
  function PriceItem(s: Store, userId: UserId, id: ItemId): (c: CalculatedItem)
    requires id in s.items
    ensures c.id == id && c.quantity == OwnedQuantity(s.owned, userId, id)
    ensures c.currentCost == CalculateItemCost(s.items[id].baseCost, c.quantity, s.items[id].costMultiplier)
    ensures c == CalculatedItem(id, s.items[id].name, s.items[id].description, s.items[id].baseCost,
                                c.currentCost, s.items[id].pointsPerClick, s.items[id].pointsPerSecond,
                                s.items[id].costMultiplier, c.quantity, s.items[id].imageUrl)
  {
    var item := s.items[id];
    var quantity := OwnedQuantity(s.owned, userId, id);
    CalculatedItem(id, item.name, item.description, item.baseCost,
                   CalculateItemCost(item.baseCost, quantity, item.costMultiplier),
                   item.pointsPerClick, item.pointsPerSecond, item.costMultiplier, quantity, item.imageUrl)
  }

  /** The items list: one priced entry per catalog item, in catalog order. */
  function CalculatedItems(s: Store, userId: UserId): (r: seq<CalculatedItem>)
    ensures |r| == |s.items| == |GetAllItems(s.items)|
    ensures forall i :: 0 <= i < |r| ==>
              GetAllItems(s.items)[i] in s.items && r[i] == PriceItem(s, userId, GetAllItems(s.items)[i])
    ensures forall i, j :: 0 <= i < j < |r| ==> r[i].id != r[j].id
  {
    var ids := GetAllItems(s.items);
    GetAllItemsSorted(s.items);
    seq(|ids|, i requires 0 <= i < |ids| => PriceItem(s, userId, ids[i]))
  }

  /** The loop that builds the items list. */
  method CalculateItems(db: Database, userId: UserId) returns (calculatedItems: seq<CalculatedItem>)
    ensures calculatedItems == CalculatedItems(db.Snapshot(), userId)
  {
    var allItems := GetAllItems(db.items);
    GetAllItemsSorted(db.items);
    calculatedItems := [];
    for i := 0 to |allItems|
      invariant |calculatedItems| == i
      invariant forall j :: 0 <= j < i ==> calculatedItems[j] == PriceItem(db.Snapshot(), userId, allItems[j])
    {
      var item := db.items[allItems[i]];
      var userItem := GetUserItem(db.owned, userId, allItems[i]);
      var quantity := if userItem.Some? then userItem.value else 0;
      var currentCost := CalculateItemCost(item.baseCost, quantity, item.costMultiplier);
      calculatedItems := calculatedItems + [CalculatedItem(allItems[i], item.name, item.description, item.baseCost,
                                                           currentCost, item.pointsPerClick, item.pointsPerSecond,
                                                           item.costMultiplier, quantity, item.imageUrl)];
    }
  }

  /**
   * After a successful purchase the buyer's listing shows the bought item with the reported
   * quantity and next price; every other entry, and every other user's listing, is unchanged.
   */
  lemma PurchaseUpdatesListing(s: Store, userId: UserId, itemId: ItemId, now: int, other: UserId)
    requires Economy.Purchase(s, userId, itemId, now).result.Some?
    requires Economy.Purchase(s, userId, itemId, now).result.value.Purchased?
    ensures var b := Economy.Purchase(s, userId, itemId, now);
            var before := CalculatedItems(s, userId);
            var after := CalculatedItems(b.store, userId);
            && |after| == |before|
            && (forall i :: 0 <= i < |after| && after[i].id == itemId ==>
                  after[i].quantity == b.result.value.itemQuantity == before[i].quantity + 1
                  && after[i].currentCost == b.result.value.itemCost)
            && (forall i :: 0 <= i < |after| && after[i].id != itemId ==> after[i] == before[i])
            && (other != userId ==> CalculatedItems(b.store, other) == CalculatedItems(s, other))
  {
    var b := Economy.Purchase(s, userId, itemId, now);
    assert userId in s.users && itemId in s.items;
    assert b.store.items == s.items;
    if other != userId {
      assert forall id :: id in s.items ==> OwnedQuantity(b.store.owned, other, id) == OwnedQuantity(s.owned, other, id);
    }
  }

  /** The listing depends only on the catalog and the inventory. */
  lemma ListingIgnoresUserRecords(s: Store, t: Store, userId: UserId)
    requires s.items == t.items && s.owned == t.owned
    ensures CalculatedItems(s, userId) == CalculatedItems(t, userId)
  {
    var a, b := CalculatedItems(s, userId), CalculatedItems(t, userId);
    assert forall i :: 0 <= i < |a| ==> a[i] == b[i];
  }

  // ---------------------------------------------------------------------------------------
  // HTTP endpoints

  /** A response: a body with status 200, or an error status with its detail. */
  datatype Response<T> = Ok(body: T) | HttpError(status: int, detail: string)

  datatype Handled<T> = Handled(store: Store, response: Response<T>)

  /**
   * `POST /game/buy/{item_id}`: an unknown item is rejected with 404 before anything is read or
   * accrued; an unknown user gets 404; a refusal gets 400 with its message; a purchase gets 200.
   */
  function BuyEndpoint(s: Store, userId: UserId, itemId: ItemId, now: int): (r: Handled<PurchaseResult>)
    ensures itemId !in s.items ==> r == Handled(s, HttpError(404, "Item not found"))
    ensures itemId in s.items && userId !in s.users ==> r == Handled(s, HttpError(404, "User not found"))
    ensures itemId in s.items && userId in s.users ==>
              && r.store == Economy.Purchase(s, userId, itemId, now).store
              && (r.response.Ok? <==>
                    Economy.Accrue(s.users[userId], now).points >= Economy.NextCost(s, userId, itemId))
              && (r.response.Ok? ==> Some(r.response.body) == Economy.Purchase(s, userId, itemId, now).result)
              && (!r.response.Ok? ==> r.response == HttpError(400, "Not enough points"))
  {
    if itemId !in s.items then
      Handled(s, HttpError(404, "Item not found"))
    else
      var b := Economy.Purchase(s, userId, itemId, now);
      match b.result
      case None => Handled(b.store, HttpError(404, "User not found"))
      case Some(result) =>
        if result.Refused? then Handled(b.store, HttpError(400, result.message))
        else Handled(b.store, Ok(result))
  }

  /** `POST /game/click`: 404 for an unknown user, otherwise the click's outcome. */
  function ClickEndpoint(s: Store, userId: UserId, now: int): (r: Handled<ClickResult>)
    ensures userId !in s.users ==> r == Handled(s, HttpError(404, "User not found"))
    ensures userId in s.users ==>
              var before := Economy.Accrue(s.users[userId], now);
              && r.response.Ok?
              && r.store == Economy.Click(s, userId, now).store
              && r.response.body.pointsEarned == before.pointsPerClick
              && r.response.body.newTotal == before.points + Trunc(before.pointsPerClick)
              && r.response.body.lifetimePoints == before.lifetimePoints + Trunc(before.pointsPerClick)
              && r.response.body.clicks == before.clicks + 1
  {
    var c := Economy.Click(s, userId, now);
    match c.user
    case None => Handled(c.store, HttpError(404, "User not found"))
    case Some(u) => Handled(c.store, Ok(ClickResult(c.pointsEarned, u.points, u.lifetimePoints, u.clicks)))
  }

  /**
   * `GET /game/state/with-items`: the accrued record and the priced catalog. Accrual does not
   * touch the catalog or the inventory, so the listing is the one of the store before the read.
   */
  function GameStateWithItems(s: Store, userId: UserId, now: int): (r: Handled<(User, seq<CalculatedItem>)>)
    ensures r.store == Economy.Observe(s, userId, now).store
    ensures r.response.Ok? <==> userId in s.users
    ensures r.response.Ok? ==> r.response.body == (Economy.Accrue(s.users[userId], now), CalculatedItems(s, userId))
  {
    var observed := Economy.Observe(s, userId, now);
    ListingIgnoresUserRecords(s, observed.store, userId);
    match observed.user
    case None => Handled(observed.store, HttpError(500, "Internal Server Error"))
    case Some(u) => Handled(observed.store, Ok((u, CalculatedItems(observed.store, userId))))
  }

  // ---------------------------------------------------------------------------------------
  // Websocket dispatch

  /** The `item_id` of a purchase message: no such key, JSON `null`, or an id. */
  datatype ItemField = Absent | Null | Given(id: ItemId)

  /**
   * A client message, by its `type`: the four kinds the loop handles (a purchase carries its
   * `item_id` field), any other `type`, or text that is not a JSON object with a `type`.
   */
  datatype Inbound =
    | Click
    | BuyItem(itemId: ItemField)
    | GetState
    | GetItems
    | Other(kind: string)
    | Unreadable

  /** A message handled at time `at`. */
  datatype Received = Received(message: Inbound, at: int)

  /** A reply to one user, or a broadcast to every broadcast socket. */
  datatype Outbound = ToUser(userId: UserId, message: ServerMessage) | ToAll(message: ServerMessage)

  /** The store after handling, what was sent, and whether handling raised (which ends the session). */
  datatype Step = Step(store: Store, out: seq<Outbound>, faulted: bool)

  /** The default number of leaderboard entries. */
  const LeaderboardLimit: nat := 10

  /** The `type` values the loop acts on. */
  predicate Known(kind: string) {
    kind == "click" || kind == "buy_item" || kind == "get_state" || kind == "get_items"
  }

  /** The message a decoded JSON object with this `type` (and `item_id`, when present) stands for. */
  function Classify(kind: string, itemId: ItemField): (m: Inbound)
    ensures m.Other? <==> !Known(kind)
    ensures m.Other? ==> m.kind == kind
    ensures m == Click <==> kind == "click"
    ensures m.BuyItem? <==> kind == "buy_item"
    ensures m.BuyItem? ==> m.itemId == itemId
    ensures m == GetState <==> kind == "get_state"
    ensures m == GetItems <==> kind == "get_items"
  {
    if kind == "click" then Click
    else if kind == "buy_item" then BuyItem(itemId)
    else if kind == "get_state" then GetState
    else if kind == "get_items" then GetItems
    else Other(kind)
  }

  /** The leaderboard broadcast after a successful purchase. */
  predicate IsLeaderboardBroadcast(o: Outbound) {
    o.ToAll? && o.message.LeaderboardUpdate?
  }

  /** A `click` message: the click's result, or a fault when the user is gone. */
  function OnClick(s: Store, userId: UserId, now: int): (r: Step)
    ensures forall i :: 0 <= i < |r.out| ==> r.out[i] == ToUser(userId, r.out[i].message)
    ensures r.faulted <==> userId !in s.users
  {
    var c := Economy.Click(s, userId, now);
    match c.user
    case None => Step(c.store, [], true)
    case Some(u) =>
      Step(c.store, [ToUser(userId, ClickResultMsg(ClickResult(c.pointsEarned, u.points, u.lifetimePoints, u.clicks)))], false)
  }

  /** What follows a purchase attempt: its result to the buyer, then on success the leaderboard to everybody. */
  function PurchaseReplies(userId: UserId, result: Option<PurchaseResult>, users: map<UserId, User>): (out: seq<Outbound>)
    ensures |out| >= 1 && out[0] == ToUser(userId, PurchaseResultMsg(result))
    ensures |out| == (if result.Some? && result.value.Purchased? then 2 else 1)
    ensures forall i :: 1 <= i < |out| ==> IsLeaderboardBroadcast(out[i])
  {
    var reply := [ToUser(userId, PurchaseResultMsg(result))];
    if result.Some? && result.value.Purchased? then
      reply + [ToAll(LeaderboardUpdate(Economy.Leaderboard(users, LeaderboardLimit)))]
    else reply
  }

  /**
   * A `buy_item` message: the purchase and its replies; reading `success` of a missing result
   * raises after the reply is sent.
   */
  function OnBuy(s: Store, userId: UserId, itemId: ItemId, now: int): (r: Step)
    ensures forall i :: 0 <= i < |r.out| && r.out[i].ToUser? ==> r.out[i].userId == userId
    ensures r.faulted <==> userId !in s.users
  {
    var b := Economy.Purchase(s, userId, itemId, now);
    Step(b.store, PurchaseReplies(userId, b.result, b.store.users), b.result.None?)
  }

  /**
   * A `buy_item` message whose `item_id` is `null`: no catalog item has a null id, so after
   * accrual the buyer is told "Item not found"; a user that is gone raises after the reply.
   */
  function OnBuyNull(s: Store, userId: UserId, now: int): (r: Step)
    ensures r.store == Economy.Observe(s, userId, now).store
    ensures r.faulted <==> userId !in s.users
    ensures |r.out| == 1 && r.out[0].ToUser? && r.out[0].userId == userId
  {
    var observed := Economy.Observe(s, userId, now);
    var result := if observed.user.Some? then Some(Refused("Item not found")) else None;
    Step(observed.store, PurchaseReplies(userId, result, observed.store.users), result.None?)
  }

  /** A null `item_id` is answered as a purchase of any id missing from the catalog. */
  lemma NullItemIsUnknownItem(s: Store, userId: UserId, itemId: ItemId, now: int)
    requires itemId !in s.items
    ensures OnBuyNull(s, userId, now) == OnBuy(s, userId, itemId, now)
  {
    Economy.PurchaseCases(s, userId, itemId, now);
  }

  /** A `get_state` message: the accrued record, or nothing for a user that is gone. */
  function OnGetState(s: Store, userId: UserId, now: int): (r: Step)
    ensures r.store == Economy.Observe(s, userId, now).store
    ensures r.out == [ToUser(userId, GameState(Economy.Observe(s, userId, now).user))] && !r.faulted
  {
    var observed := Economy.Observe(s, userId, now);
    Step(observed.store, [ToUser(userId, GameState(observed.user))], false)
  }

  /** A `get_items` message: accrual, then the priced catalog. */
  function OnGetItems(s: Store, userId: UserId, now: int): (r: Step)
    ensures r.store == Economy.Observe(s, userId, now).store
    ensures r.out == [ToUser(userId, ItemsList(CalculatedItems(s, userId)))] && !r.faulted
  {
    var observed := Economy.Observe(s, userId, now);
    ListingIgnoresUserRecords(s, observed.store, userId);
    Step(observed.store, [ToUser(userId, ItemsList(CalculatedItems(observed.store, userId)))], false)
  }

  /** Handling of one client message by the websocket loop. */
  function Dispatch(s: Store, userId: UserId, msg: Inbound, now: int): (r: Step)
    ensures msg.Unreadable? ==> r == Step(s, [], true)
    ensures msg.Other? ==> r == Step(s, [], false)
    ensures msg == BuyItem(Absent) ==> r == Step(s, [], true)
    ensures forall i :: 0 <= i < |r.out| && r.out[i].ToUser? ==> r.out[i].userId == userId
  {
    match msg
    case Unreadable => Step(s, [], true)
    case Click => OnClick(s, userId, now)
    case BuyItem(Absent) => Step(s, [], true)
    case BuyItem(Null) => OnBuyNull(s, userId, now)
    case BuyItem(Given(id)) => OnBuy(s, userId, id, now)
    case GetState => OnGetState(s, userId, now)
    case GetItems => OnGetItems(s, userId, now)
    case Other(_) => Step(s, [], false)
  }

  /** A leaderboard broadcast follows a message exactly when it was a purchase that succeeded. */
  lemma BroadcastOnlyAfterPurchase(s: Store, userId: UserId, msg: Inbound, now: int)
    ensures var out := Dispatch(s, userId, msg, now).out;
            (exists i :: 0 <= i < |out| && IsLeaderboardBroadcast(out[i])) <==>
            && msg.BuyItem? && msg.itemId.Given?
            && Economy.Purchase(s, userId, msg.itemId.id, now).result.Some?
            && Economy.Purchase(s, userId, msg.itemId.id, now).result.value.Purchased?
  {
    var out := Dispatch(s, userId, msg, now).out;
    if msg.BuyItem? && msg.itemId.Given? {
      var b := Economy.Purchase(s, userId, msg.itemId.id, now);
      assert out == PurchaseReplies(userId, b.result, b.store.users);
      if b.result.Some? && b.result.value.Purchased? {
        assert IsLeaderboardBroadcast(out[1]);
      }
    } else {
      assert forall i :: 0 <= i < |out| ==> out[i].ToUser?;
    }
  }

  /** A purchase message is always answered with its result, then, on success, the new leaderboard. */
  lemma PurchaseReply(s: Store, userId: UserId, itemId: ItemId, now: int)
    ensures var r := Dispatch(s, userId, BuyItem(Given(itemId)), now);
            var b := Economy.Purchase(s, userId, itemId, now);
            && r.store == b.store
            && |r.out| >= 1 && r.out[0] == ToUser(userId, PurchaseResultMsg(b.result))
            && (r.faulted <==> userId !in s.users)
  {
  }

  /** A click message from a known user is answered with the click's result; from an unknown user it raises. */
  lemma ClickReply(s: Store, userId: UserId, now: int)
    ensures var r := Dispatch(s, userId, Click, now);
            && (userId !in s.users ==> r.faulted && r.out == [])
            && (userId in s.users ==>
                  var h := ClickEndpoint(s, userId, now);
                  !r.faulted && r.store == h.store && r.out == [ToUser(userId, ClickResultMsg(h.response.body))])
  {
  }

  /** Handling a message keeps the economy's invariants and never lowers lifetime points, clicks or holdings. */
  lemma DispatchPreserves(s: Store, userId: UserId, msg: Inbound, now: int)
    requires Economy.WellFormed(s)
    ensures Economy.WellFormed(Dispatch(s, userId, msg, now).store)
    ensures Economy.Progressed(s, Dispatch(s, userId, msg, now).store)
  {
    match msg
    case Click => Economy.ClickPreserves(s, userId, now);
    case BuyItem(Given(id)) => Economy.PurchasePreserves(s, userId, id, now);
    case BuyItem(Null) => Economy.ObservePreserves(s, userId, now);
    case GetState => Economy.ObservePreserves(s, userId, now);
    case GetItems => Economy.ObservePreserves(s, userId, now);
    case _ =>
  }

  // ---------------------------------------------------------------------------------------
  // The session

  /** Handling the first `n` messages in order until one raises; the messages after it are never handled. */
  function Run(s: Store, userId: UserId, inbox: seq<Received>, n: nat): Step
    requires n <= |inbox|
    decreases n
  {
    if n == 0 then Step(s, [], false)
    else
      var previous := Run(s, userId, inbox, n - 1);
      if previous.faulted then previous
      else
        var step := Dispatch(previous.store, userId, inbox[n - 1].message, inbox[n - 1].at);
        Step(step.store, previous.out + step.out, step.faulted)
  }

  /** Over a whole session the economy's invariants hold and nothing that only grows went down. */
  lemma {:induction false} RunPreserves(s: Store, userId: UserId, inbox: seq<Received>, n: nat)
    requires n <= |inbox| && Economy.WellFormed(s)
    ensures Economy.WellFormed(Run(s, userId, inbox, n).store)
    ensures Economy.Progressed(s, Run(s, userId, inbox, n).store)
    decreases n
  {
    if n > 0 {
      RunPreserves(s, userId, inbox, n - 1);
      RunStepPreserves(s, userId, inbox, n);
    }
  }

  /** The step of `RunPreserves`: handling message `n - 1` keeps what the first `n - 1` kept. */
  lemma RunStepPreserves(s: Store, userId: UserId, inbox: seq<Received>, n: nat)
    requires 0 < n <= |inbox| && Economy.WellFormed(s)
    requires Economy.WellFormed(Run(s, userId, inbox, n - 1).store)
    requires Economy.Progressed(s, Run(s, userId, inbox, n - 1).store)
    ensures Economy.WellFormed(Run(s, userId, inbox, n).store)
    ensures Economy.Progressed(s, Run(s, userId, inbox, n).store)
  {
    var previous := Run(s, userId, inbox, n - 1);
    if !previous.faulted {
      var last := inbox[n - 1];
      var step := Dispatch(previous.store, userId, last.message, last.at);
      assert Run(s, userId, inbox, n).store == step.store;
      DispatchPreserves(previous.store, userId, last.message, last.at);
      Economy.ProgressedTransitive(s, previous.store, step.store);
    }
  }

  /** Once a message raises, the messages after it change nothing and send nothing. */
  lemma {:induction false} RunStopsAtFault(s: Store, userId: UserId, inbox: seq<Received>, i: nat, n: nat)
    requires i <= n <= |inbox| && Run(s, userId, inbox, i).faulted
    ensures Run(s, userId, inbox, n) == Run(s, userId, inbox, i)
    decreases n
  {
    if n > i {
      RunStopsAtFault(s, userId, inbox, i, n - 1);
    }
  }

  /** Every reply in `out` is addressed to `userId`. */
  predicate RepliesOnlyTo(out: seq<Outbound>, userId: UserId) {
    forall i :: 0 <= i < |out| && out[i].ToUser? ==> out[i].userId == userId
  }

  lemma RepliesOnlyToAppend(a: seq<Outbound>, b: seq<Outbound>, userId: UserId)
    requires RepliesOnlyTo(a, userId) && RepliesOnlyTo(b, userId)
    ensures RepliesOnlyTo(a + b, userId)
  {
    forall i | 0 <= i < |a + b| && (a + b)[i].ToUser?
      ensures (a + b)[i].userId == userId
    {
      if i >= |a| {
        assert (a + b)[i] == b[i - |a|];
      }
    }
  }

  /** Handling one message replies to nobody but its sender. */
  lemma DispatchRepliesOnlyTo(s: Store, userId: UserId, msg: Inbound, now: int)
    ensures RepliesOnlyTo(Dispatch(s, userId, msg, now).out, userId)
  {
  }

  /** Every message the session sends goes to the session's own user or to everybody. */
  lemma {:induction false} RunRepliesToOwnUser(s: Store, userId: UserId, inbox: seq<Received>, n: nat)
    requires n <= |inbox|
    ensures RepliesOnlyTo(Run(s, userId, inbox, n).out, userId)
    decreases n
  {
    if n > 0 {
      var previous := Run(s, userId, inbox, n - 1);
      RunRepliesToOwnUser(s, userId, inbox, n - 1);
      if !previous.faulted {
        var step := Dispatch(previous.store, userId, inbox[n - 1].message, inbox[n - 1].at);
        assert Run(s, userId, inbox, n).out == previous.out + step.out;
        DispatchRepliesOnlyTo(previous.store, userId, inbox[n - 1].message, inbox[n - 1].at);
        RepliesOnlyToAppend(previous.out, step.out, userId);
      }
    }
  }

  /** A whole session: the initial state message, then the handled messages. */
  function Session(s: Store, userId: UserId, t0: int, inbox: seq<Received>): Step {
    var observed := Economy.Observe(s, userId, t0);
    var run := Run(observed.store, userId, inbox, |inbox|);
    Step(run.store, [ToUser(userId, GameState(observed.user))] + run.out, run.faulted)
  }

  /**
   * A session opens with the user's state, sends nothing to any other user, keeps the economy's
   * invariants and never lowers lifetime points, clicks or holdings.
   */
  lemma SessionPreserves(s: Store, userId: UserId, t0: int, inbox: seq<Received>)
    requires Economy.WellFormed(s)
    ensures var r := Session(s, userId, t0, inbox);
            && |r.out| >= 1 && r.out[0] == ToUser(userId, GameState(Economy.Observe(s, userId, t0).user))
            && RepliesOnlyTo(r.out, userId)
            && Economy.WellFormed(r.store)
            && Economy.Progressed(s, r.store)
  {
    var observed := Economy.Observe(s, userId, t0);
    var run := Run(observed.store, userId, inbox, |inbox|);
    Economy.ObservePreserves(s, userId, t0);
    RunPreserves(observed.store, userId, inbox, |inbox|);
    Economy.ProgressedTransitive(s, observed.store, run.store);
    RunRepliesToOwnUser(observed.store, userId, inbox, |inbox|);
    RepliesOnlyToAppend([ToUser(userId, GameState(observed.user))], run.out, userId);
  }

  // ---------------------------------------------------------------------------------------
  // Delivery through the registry

  /** The sends one outbound message turns into. */
  function Deliver(reg: Registry, o: Outbound): seq<Delivery> {
    match o
    case ToUser(u, m) => Personal(reg, u, m)
    case ToAll(m) => Fanout(reg.broadcast, m)
  }

  /** The sends a sequence of outbound messages turns into, in order. */
  function DeliverAll(reg: Registry, outs: seq<Outbound>): (ds: seq<Delivery>)
    decreases |outs|
  {
    if |outs| == 0 then [] else Deliver(reg, outs[0]) + DeliverAll(reg, outs[1..])
  }

  /** Delivering two runs of messages one after the other is delivering their concatenation. */
  lemma {:induction false} DeliverAllAppend(reg: Registry, a: seq<Outbound>, b: seq<Outbound>)
    ensures DeliverAll(reg, a + b) == DeliverAll(reg, a) + DeliverAll(reg, b)
    decreases |a|
  {
    if |a| == 0 {
      assert a + b == b;
    } else {
      assert (a + b)[1..] == a[1..] + b;
      DeliverAllAppend(reg, a[1..], b);
    }
  }

  /** The sends a purchase's replies turn into: the result to the buyer, then on success the leaderboard to every broadcast socket. */
  /** Sending the deliveries of `a` and then those of `b` sends the deliveries of `a + b`. */
  lemma SendsAccumulate(sent: seq<Delivery>, reg: Registry, a: seq<Outbound>, b: seq<Outbound>)
    ensures sent + DeliverAll(reg, a) + DeliverAll(reg, b) == sent + DeliverAll(reg, a + b)
  {
    DeliverAllAppend(reg, a, b);
  }

  lemma PurchaseRepliesDelivered(reg: Registry, userId: UserId, result: Option<PurchaseResult>, users: map<UserId, User>)
    ensures DeliverAll(reg, PurchaseReplies(userId, result, users))
         == Personal(reg, userId, PurchaseResultMsg(result))
            + (if result.Some? && result.value.Purchased?
               then Fanout(reg.broadcast, LeaderboardUpdate(Economy.Leaderboard(users, LeaderboardLimit)))
               else [])
  {
    var out := PurchaseReplies(userId, result, users);
    assert DeliverAll(reg, out) == Deliver(reg, out[0]) + DeliverAll(reg, out[1..]);
    if result.Some? && result.value.Purchased? {
      assert DeliverAll(reg, out[1..]) == Deliver(reg, out[1]) + DeliverAll(reg, out[2..]);
    }
  }

  /** While the session's user is connected on `ws`, every reply to that user goes to `ws` alone. */
  lemma RepliesReachSessionSocket(reg: Registry, ws: Socket, userId: UserId, m: ServerMessage)
    ensures Deliver(Connected(reg, ws, userId), ToUser(userId, m)) == [Delivery(ws, m)]
  {
  }

  // ---------------------------------------------------------------------------------------
  // The imperative handler

  method HandleClick(mgr: ConnectionManager, db: Database, userId: UserId, now: int) returns (faulted: bool)
    modifies mgr, db
    ensures db.Snapshot() == OnClick(old(db.Snapshot()), userId, now).store
    ensures faulted == OnClick(old(db.Snapshot()), userId, now).faulted
    ensures mgr.State() == old(mgr.State())
    ensures mgr.sent == old(mgr.sent) + DeliverAll(old(mgr.State()), OnClick(old(db.Snapshot()), userId, now).out)
  {
    var pointsEarned, user := GameCrud.ProcessClick(db, userId, now);
    if user.None? {
      return true;
    }
    mgr.SendPersonalMessage(ClickResultMsg(ClickResult(pointsEarned, user.value.points, user.value.lifetimePoints, user.value.clicks)), userId);
    faulted := false;
  }

  method SendPurchaseReplies(mgr: ConnectionManager, db: Database, userId: UserId, result: Option<PurchaseResult>)
    modifies mgr
    ensures mgr.State() == old(mgr.State())
    ensures mgr.sent == old(mgr.sent) + DeliverAll(old(mgr.State()), PurchaseReplies(userId, result, db.users))
  {
    ghost var reg := mgr.State();
    mgr.SendPersonalMessage(PurchaseResultMsg(result), userId);
    PurchaseRepliesDelivered(reg, userId, result, db.users);
    if result.Some? && result.value.Purchased? {
      ghost var replied := mgr.sent;
      mgr.BroadcastLeaderboard(db);
      assert mgr.sent == old(mgr.sent) + (Personal(reg, userId, PurchaseResultMsg(result))
                          + Fanout(reg.broadcast, LeaderboardUpdate(Economy.Leaderboard(db.users, LeaderboardLimit))));
    }
  }

  method HandleBuy(mgr: ConnectionManager, db: Database, userId: UserId, itemId: ItemId, now: int) returns (faulted: bool)
    modifies mgr, db
    ensures db.Snapshot() == OnBuy(old(db.Snapshot()), userId, itemId, now).store
    ensures faulted == OnBuy(old(db.Snapshot()), userId, itemId, now).faulted
    ensures mgr.State() == old(mgr.State())
    ensures mgr.sent == old(mgr.sent) + DeliverAll(old(mgr.State()), OnBuy(old(db.Snapshot()), userId, itemId, now).out)
  {
    var result := GameCrud.BuyItem(db, userId, itemId, now);
    SendPurchaseReplies(mgr, db, userId, result);
    if result.None? {
      return true;
    }
    faulted := false;
  }

  method HandleBuyNull(mgr: ConnectionManager, db: Database, userId: UserId, now: int) returns (faulted: bool)
    modifies mgr, db
    ensures db.Snapshot() == OnBuyNull(old(db.Snapshot()), userId, now).store
    ensures faulted == OnBuyNull(old(db.Snapshot()), userId, now).faulted
    ensures mgr.State() == old(mgr.State())
    ensures mgr.sent == old(mgr.sent) + DeliverAll(old(mgr.State()), OnBuyNull(old(db.Snapshot()), userId, now).out)
  {
    var user := GameCrud.GetUserGameState(db, userId, now);
    var result: Option<PurchaseResult> := if user.Some? then Some(Refused("Item not found")) else None;
    SendPurchaseReplies(mgr, db, userId, result);
    faulted := result.None?;
  }

  method HandleGetState(mgr: ConnectionManager, db: Database, userId: UserId, now: int)
    modifies mgr, db
    ensures db.Snapshot() == OnGetState(old(db.Snapshot()), userId, now).store
    ensures mgr.State() == old(mgr.State())
    ensures mgr.sent == old(mgr.sent) + DeliverAll(old(mgr.State()), OnGetState(old(db.Snapshot()), userId, now).out)
  {
    var user := GameCrud.GetUserGameState(db, userId, now);
    mgr.SendPersonalMessage(GameState(user), userId);
  }

  method HandleGetItems(mgr: ConnectionManager, db: Database, userId: UserId, now: int)
    modifies mgr, db
    ensures db.Snapshot() == OnGetItems(old(db.Snapshot()), userId, now).store
    ensures mgr.State() == old(mgr.State())
    ensures mgr.sent == old(mgr.sent) + DeliverAll(old(mgr.State()), OnGetItems(old(db.Snapshot()), userId, now).out)
  {
    ghost var before := db.Snapshot();
    var _ := GameCrud.GetUserGameState(db, userId, now);
    var calculatedItems := CalculateItems(db, userId);
    ListingIgnoresUserRecords(before, db.Snapshot(), userId);
    mgr.SendPersonalMessage(ItemsList(calculatedItems), userId);
  }

  /** One iteration of the websocket loop, on the database and the connection manager. */
  method HandleMessage(mgr: ConnectionManager, db: Database, userId: UserId, msg: Inbound, now: int) returns (faulted: bool)
    modifies mgr, db
    ensures db.Snapshot() == Dispatch(old(db.Snapshot()), userId, msg, now).store
    ensures faulted == Dispatch(old(db.Snapshot()), userId, msg, now).faulted
    ensures mgr.State() == old(mgr.State())
    ensures mgr.sent == old(mgr.sent) + DeliverAll(old(mgr.State()), Dispatch(old(db.Snapshot()), userId, msg, now).out)
  {
    match msg
    case Unreadable =>
      faulted := true;
    case Click =>
      faulted := HandleClick(mgr, db, userId, now);
    case BuyItem(Absent) =>
      faulted := true;
    case BuyItem(Null) =>
      faulted := HandleBuyNull(mgr, db, userId, now);
    case BuyItem(Given(itemId)) =>
      faulted := HandleBuy(mgr, db, userId, itemId, now);
    case GetState =>
      HandleGetState(mgr, db, userId, now);
      faulted := false;
    case GetItems =>
      HandleGetItems(mgr, db, userId, now);
      faulted := false;
    case Other(_) =>
      faulted := false;
  }

  /**
   * One turn of the websocket loop, while no earlier message raised: the database moves from the
   * state after `i` messages to the state after `i + 1`, and the sends of message `i` are appended.
   */
  method ServeNext(mgr: ConnectionManager, db: Database, userId: UserId, inbox: seq<Received>, i: nat,
                   ghost start: Store, ghost sentBefore: seq<Delivery>)
    returns (faulted: bool)
    requires i < |inbox| && !Run(start, userId, inbox, i).faulted
    requires db.Snapshot() == Run(start, userId, inbox, i).store
    requires mgr.sent == sentBefore + DeliverAll(mgr.State(), Run(start, userId, inbox, i).out)
    modifies mgr, db
    ensures mgr.State() == old(mgr.State())
    ensures faulted == Run(start, userId, inbox, i + 1).faulted
    ensures db.Snapshot() == Run(start, userId, inbox, i + 1).store
    ensures mgr.sent == sentBefore + DeliverAll(mgr.State(), Run(start, userId, inbox, i + 1).out)
  {
    ghost var reg := mgr.State();
    ghost var done := Run(start, userId, inbox, i);
    faulted := HandleMessage(mgr, db, userId, inbox[i].message, inbox[i].at);
    ghost var step := Dispatch(done.store, userId, inbox[i].message, inbox[i].at);
    assert Run(start, userId, inbox, i + 1) == Step(step.store, done.out + step.out, step.faulted);
    SendsAccumulate(sentBefore, reg, done.out, step.out);
  }

  /** The `while True` loop of the websocket endpoint: messages are handled in order until one raises. */
  method ServeMessages(mgr: ConnectionManager, db: Database, userId: UserId, inbox: seq<Received>)
    modifies mgr, db
    ensures mgr.State() == old(mgr.State())
    ensures db.Snapshot() == Run(old(db.Snapshot()), userId, inbox, |inbox|).store
    ensures mgr.sent == old(mgr.sent) + DeliverAll(old(mgr.State()), Run(old(db.Snapshot()), userId, inbox, |inbox|).out)
  {
    ghost var start := db.Snapshot();
    ghost var reg := mgr.State();
    ghost var sentBefore := mgr.sent;
    var i := 0;
    var faulted := false;
    while i < |inbox| && !faulted
      invariant 0 <= i <= |inbox|
      invariant mgr.State() == reg
      invariant faulted == Run(start, userId, inbox, i).faulted
      invariant db.Snapshot() == Run(start, userId, inbox, i).store
      invariant mgr.sent == sentBefore + DeliverAll(reg, Run(start, userId, inbox, i).out)
      decreases |inbox| - i
    {
      faulted := ServeNext(mgr, db, userId, inbox, i, start, sentBefore);
      i := i + 1;
    }
    if i < |inbox| {
      RunStopsAtFault(start, userId, inbox, i, |inbox|);
    }
  }

  /**
   * `websocket_endpoint`: a token that fails validation closes the socket with 1008 before
   * registration; a token whose subject is not an integer raises before registration; otherwise
   * the user is registered on `ws`, sent the initial state, served message by message until the
   * client leaves or a message raises, and deregistered.
   */
  method WebsocketEndpoint(mgr: ConnectionManager, db: Database, validate: string -> Option<TokenData>,
                           token: string, ws: Socket, t0: int, inbox: seq<Received>)
    returns (closeCode: Option<int>)
    requires mgr.Valid()
    modifies mgr, db
    ensures mgr.Valid()
    ensures !GetUserIdFromToken(validate, token).UserIdOf? ==>
              && closeCode == (if GetUserIdFromToken(validate, token).Rejected? then Some(1008) else None)
              && mgr.State() == old(mgr.State()) && mgr.sent == old(mgr.sent)
              && db.Snapshot() == old(db.Snapshot())
    ensures GetUserIdFromToken(validate, token).UserIdOf? ==>
              var userId := GetUserIdFromToken(validate, token).id;
              var during := Connected(old(mgr.State()), ws, userId);
              var session := Session(old(db.Snapshot()), userId, t0, inbox);
              && closeCode == None
              && db.Snapshot() == session.store
              && mgr.sent == old(mgr.sent) + DeliverAll(during, session.out)
              && mgr.State() == Disconnected(during, userId)
  {
    var outcome := GetUserIdFromToken(validate, token);
    if outcome.Rejected? {
      return Some(1008);
    }
    if outcome.Raises? {
      return None;
    }
    var userId := outcome.id;
    mgr.Connect(ws, userId);
    ghost var during := mgr.State();
    ghost var before := db.Snapshot();
    var user := GameCrud.GetUserGameState(db, userId, t0);
    mgr.SendPersonalMessage(GameState(user), userId);
    ghost var opening := [ToUser(userId, GameState(user))];
    assert DeliverAll(during, opening) == Personal(during, userId, GameState(user));
    ghost var sentOpening := mgr.sent;
    ghost var afterOpening := db.Snapshot();
    ServeMessages(mgr, db, userId, inbox);
    ghost var run := Run(afterOpening, userId, inbox, |inbox|);
    SendsAccumulate(old(mgr.sent), during, opening, run.out);
    assert Session(before, userId, t0, inbox).out == opening + run.out;
    mgr.Disconnect(userId);
    closeCode := None;
  }
}
