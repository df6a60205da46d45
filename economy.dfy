/**
 * The rules of the game economy as functions of the store: lazy passive accrual, clicks,
 * purchases, the leaderboard and the administrative overwrite. The in-place operations of
 * module GameCrud are proved to compute exactly these functions; the websocket dispatch
 * (module GameApi) is written in terms of them.
 */
module Economy {
  import opened Wrappers
  import opened Models
  import opened ItemCrud
  import Ordering

  // ---------------------------------------------------------------------------------------
  // Passive accrual

  /**
   * A user's record after passive income up to `now`. Only `points`, `lifetime_points` and
   * `last_updated` change, and both point counters gain the same non-negative amount.
   */
  function Accrue(u: User, now: int): (r: User)
    ensures r.points - u.points == r.lifetimePoints - u.lifetimePoints >= 0
    ensures r == u.(points := r.points, lifetimePoints := r.lifetimePoints, lastUpdated := r.lastUpdated)
  {
    if u.lastUpdated == 0 then
      u.(lastUpdated := now)
    else
      var elapsed := now - u.lastUpdated;
      if elapsed > 0 && u.pointsPerSecond > 0.0 then
        var earned := PassiveEarnings(u.pointsPerSecond, elapsed);
        u.(points := u.points + earned, lifetimePoints := u.lifetimePoints + earned, lastUpdated := now)
      else if elapsed > 0 then
        u.(lastUpdated := now)
      else
        u
  }

  /** `int(points_per_second * elapsed_seconds)`: whole points earned over a positive interval at a positive rate. */
  function PassiveEarnings(rate: real, elapsed: int): (earned: int)
    requires rate > 0.0 && elapsed > 0
    ensures earned >= 0
    ensures earned as real <= rate * elapsed as real < earned as real + 1.0
  {
    assert rate * elapsed as real > 0.0;
    Trunc(rate * elapsed as real)
  }

  /** The first observation only starts the clock: no points for time before it. */
  lemma AccrueFirstObservation(u: User, now: int)
    requires u.lastUpdated == 0
    ensures Accrue(u, now) == u.(lastUpdated := now)
  {
  }

  /** A positive rate over a positive interval credits the truncated product to both counters. */
  lemma AccrueCredits(u: User, now: int)
    requires u.lastUpdated != 0 && now > u.lastUpdated && u.pointsPerSecond > 0.0
    ensures var earned := Trunc(u.pointsPerSecond * (now - u.lastUpdated) as real);
            Accrue(u, now) == u.(points := u.points + earned, lifetimePoints := u.lifetimePoints + earned, lastUpdated := now)
  {
  }

  /** No time elapsed: nothing changes. Time elapsed without a rate: only the clock moves. */
  lemma AccrueIdle(u: User, now: int)
    requires u.lastUpdated != 0
    ensures now <= u.lastUpdated ==> Accrue(u, now) == u
    ensures now > u.lastUpdated && u.pointsPerSecond <= 0.0 ==> Accrue(u, now) == u.(lastUpdated := now)
  {
  }

  /** One point per second over five seconds credits exactly five points. */
  lemma AccrueFiveSeconds(u: User, now: int)
    requires u.pointsPerSecond == 1.0 && u.lastUpdated == now - 5 && u.lastUpdated != 0
    ensures Accrue(u, now).points == u.points + 5
    ensures Accrue(u, now).lifetimePoints == u.lifetimePoints + 5
    ensures Accrue(u, now).lastUpdated == now
  {
  }

  /** Observing twice at the same instant credits once. */
  lemma AccrueIdempotent(u: User, now: int)
    ensures Accrue(Accrue(u, now), now) == Accrue(u, now)
  {
  }

  lemma FloorSuperadditive(x: real, y: real)
    requires x >= 0.0 && y >= 0.0
    ensures x.Floor + y.Floor <= (x + y).Floor
  {
  }

  /**
   * Lazy accrual rounds down at every observation, so observing at `t1` and then at `t2`
   * never credits more than observing only at `t2`.
   */
  lemma AccrueSplitNeverGains(u: User, t1: int, t2: int)
    requires 0 < u.lastUpdated <= t1 <= t2
    ensures Accrue(Accrue(u, t1), t2).lifetimePoints <= Accrue(u, t2).lifetimePoints
    ensures Accrue(Accrue(u, t1), t2).points <= Accrue(u, t2).points
    ensures Accrue(Accrue(u, t1), t2).lastUpdated == Accrue(u, t2).lastUpdated
  {
    var p := u.pointsPerSecond;
    if t1 > u.lastUpdated && p > 0.0 {
      var a, b := (t1 - u.lastUpdated) as real, (t2 - t1) as real;
      assert p * a + p * b == p * (a + b);
      if t2 > t1 {
        FloorSuperadditive(p * a, p * b);
      }
    }
  }

  // ---------------------------------------------------------------------------------------
  // The store

  /** `r` differs from `s` at most in the record of `userId`. */
  ghost predicate OnlyUserChanged(s: Store, r: Store, userId: UserId) {
    && r.items == s.items
    && r.owned == s.owned
    && r.users.Keys == s.users.Keys
    && forall v :: v in s.users && v != userId ==> r.users[v] == s.users[v]
  }

  /** The store after the passive income of `userId` is brought up to `now` (no change for an unknown user). */
  function AccrueUser(s: Store, userId: UserId, now: int): (r: Store)
    ensures OnlyUserChanged(s, r, userId)
    ensures userId in s.users ==> r.users[userId] == Accrue(s.users[userId], now)
    ensures userId !in s.users ==> r == s
  {
    if userId in s.users then s.(users := s.users[userId := Accrue(s.users[userId], now)]) else s
  }

  /** The result of reading a user's state: the store after the read, and the record if the user exists. */
  datatype Observed = Observed(store: Store, user: Option<User>)

  /** `get_user_game_state`: the record with passive income applied; reading may change the store. */
  function Observe(s: Store, userId: UserId, now: int): (r: Observed)
    ensures r.store == AccrueUser(s, userId, now)
    ensures r.user.Some? <==> userId in s.users
    ensures r.user.Some? ==> r.user.value == Accrue(s.users[userId], now) == r.store.users[userId]
  {
    var s' := AccrueUser(s, userId, now);
    Observed(s', if userId in s.users then Some(s'.users[userId]) else None)
  }

  // ---------------------------------------------------------------------------------------
  // Clicks

  datatype Clicked = Clicked(store: Store, pointsEarned: real, user: Option<User>)

  /**
   * `process_click`: accrual, then one click's worth of points; `ClickCases` states it case by case.
   */
  function Click(s: Store, userId: UserId, now: int): (r: Clicked)
    ensures r.user.None? <==> userId !in s.users
  {
    var observed := Observe(s, userId, now);
    match observed.user
    case None => Clicked(s, 0.0, None)
    case Some(u) =>
      var earned := u.pointsPerClick;
      var u' := u.(points := u.points + Trunc(earned),
                   lifetimePoints := u.lifetimePoints + Trunc(earned),
                   clicks := u.clicks + 1);
      Clicked(observed.store.(users := observed.store.users[userId := u']), earned, Some(u'))
  }

  /**
   * `process_click`, case by case: an unknown user yields `(0, None)` and no change; otherwise,
   * after accrual, `int(points_per_click)` is added to both point counters, the click count grows
   * by one, nothing else of the record or the store changes, and the untruncated rate is reported.
   */
  lemma ClickCases(s: Store, userId: UserId, now: int)
    ensures userId !in s.users ==> Click(s, userId, now) == Clicked(s, 0.0, None)
    ensures userId in s.users ==>
      var r := Click(s, userId, now);
      var before := Accrue(s.users[userId], now);
      var gained := Trunc(before.pointsPerClick);
      var after := r.store.users[userId];
      && OnlyUserChanged(s, r.store, userId)
      && r.user == Some(after)
      && r.pointsEarned == before.pointsPerClick
      && after.points == before.points + gained
      && after.lifetimePoints == before.lifetimePoints + gained
      && after.clicks == before.clicks + 1
      && after == before.(points := after.points, lifetimePoints := after.lifetimePoints, clicks := after.clicks)
  {
  }

  /**
   * A newly registered user (never observed, one point per click, no passive income) clicking at
   * `t1` and again at any later `t2` has 2 points, 2 lifetime points and 2 clicks.
   */
  lemma TwoClicksFromScratch(s: Store, userId: UserId, t1: int, t2: int)
    requires userId in s.users && s.users[userId] == NewUser(s.users[userId].nickname)
    requires 0 < t1 <= t2
    ensures var once := Click(s, userId, t1);
            var twice := Click(once.store, userId, t2);
            && twice.user.Some?
            && twice.user.value.points == 2
            && twice.user.value.lifetimePoints == 2
            && twice.user.value.clicks == 2
  {
    ClickCases(s, userId, t1);
    var once := Click(s, userId, t1);
    assert once.store.users[userId].lastUpdated == t1;
    ClickCases(once.store, userId, t2);
  }

  /**
   * Nothing in the source keeps click rates non-negative: a user whose rate is -1.0 (an item with a
   * negative click bonus, or an overwrite) loses a lifetime point on a click, so `Progressed` and
   * `ClickPreserves` need `WellFormed`.
   */
  lemma NegativeClickRateLowersLifetime(s: Store, userId: UserId, now: int)
    requires userId in s.users && s.users[userId].pointsPerClick == -1.0 && s.users[userId].lastUpdated == 0
    ensures Click(s, userId, now).store.users[userId].lifetimePoints == s.users[userId].lifetimePoints - 1
    ensures !Progressed(s, Click(s, userId, now).store)
  {
    ClickCases(s, userId, now);
  }

  // ---------------------------------------------------------------------------------------
  // Purchases

  datatype Bought = Bought(store: Store, result: Option<PurchaseResult>)

  /** The price of the next unit of `itemId` for `userId`. */
  function NextCost(s: Store, userId: UserId, itemId: ItemId): int
    requires itemId in s.items
  {
    var item := s.items[itemId];
    CalculateItemCost(item.baseCost, OwnedQuantity(s.owned, userId, itemId), item.costMultiplier)
  }

  /** `buy_item`: accrual, then the purchase of one unit; `PurchaseCases` states it case by case. */
  function Purchase(s: Store, userId: UserId, itemId: ItemId, now: int): (r: Bought)
    ensures r.store.users.Keys == s.users.Keys
    ensures r.result.None? <==> userId !in s.users
  {
    var observed := Observe(s, userId, now);
    match observed.user
    case None => Bought(s, None)
    case Some(user) =>
      if itemId !in s.items then
        Bought(observed.store, Some(Refused("Item not found")))
      else
        var item := s.items[itemId];
        var quantity := OwnedQuantity(s.owned, userId, itemId);
        var cost := CalculateItemCost(item.baseCost, quantity, item.costMultiplier);
        if user.points < cost then
          Bought(observed.store, Some(Refused("Not enough points")))
        else
          var user' := user.(points := user.points - cost,
                             pointsPerClick := user.pointsPerClick + item.pointsPerClick,
                             pointsPerSecond := user.pointsPerSecond + item.pointsPerSecond);
          var owned' := WithUserItem(s.owned, userId, itemId, 1);
          var newQuantity := quantity + 1;
          var store' := Store(s.users[userId := user'], s.items, owned');
          Bought(store', Some(Purchased(
            "Successfully purchased " + item.name,
            user'.points, user'.pointsPerClick, user'.pointsPerSecond,
            newQuantity, CalculateItemCost(item.baseCost, newQuantity, item.costMultiplier))))
  }

  /**
   * `buy_item`, case by case. After accrual: an unknown user yields `None` and no change; an
   * unknown item, or a balance below the price, yields a refusal and no change beyond the accrual;
   * otherwise the price is deducted, one unit is credited, the item's bonuses are added to the
   * rates, lifetime points are untouched, and the price of the following unit is reported.
   */
  lemma PurchaseCases(s: Store, userId: UserId, itemId: ItemId, now: int)
    ensures userId !in s.users ==> Purchase(s, userId, itemId, now) == Bought(s, None)
    ensures userId in s.users && itemId !in s.items ==>
              Purchase(s, userId, itemId, now) == Bought(AccrueUser(s, userId, now), Some(Refused("Item not found")))
    ensures userId in s.users && itemId in s.items &&
            Accrue(s.users[userId], now).points < NextCost(s, userId, itemId) ==>
              Purchase(s, userId, itemId, now) == Bought(AccrueUser(s, userId, now), Some(Refused("Not enough points")))
    ensures userId in s.users && itemId in s.items &&
            Accrue(s.users[userId], now).points >= NextCost(s, userId, itemId) ==>
              var r := Purchase(s, userId, itemId, now);
              var before := Accrue(s.users[userId], now);
              var item := s.items[itemId];
              var cost := NextCost(s, userId, itemId);
              var after := r.store.users[userId];
              && r.result.Some? && r.result.value.Purchased?
              && (forall v :: v in s.users && v != userId ==> r.store.users[v] == s.users[v])
              && r.store.items == s.items
              && r.store.owned == WithUserItem(s.owned, userId, itemId, 1)
              && after.points == before.points - cost >= 0
              && after.lifetimePoints == before.lifetimePoints
              && after.pointsPerClick == before.pointsPerClick + item.pointsPerClick
              && after.pointsPerSecond == before.pointsPerSecond + item.pointsPerSecond
              && after == before.(points := after.points,
                                  pointsPerClick := after.pointsPerClick,
                                  pointsPerSecond := after.pointsPerSecond)
              && r.result.value.newPoints == after.points
              && r.result.value.newPointsPerClick == after.pointsPerClick
              && r.result.value.newPointsPerSecond == after.pointsPerSecond
              && r.result.value.itemQuantity == OwnedQuantity(s.owned, userId, itemId) + 1
              && r.result.value.itemCost == NextCost(r.store, userId, itemId)
  {
  }

  /** A refused purchase leaves balance, rates and inventory exactly as accrual left them. */
  lemma RefusalChangesNothing(s: Store, userId: UserId, itemId: ItemId, now: int)
    requires userId in s.users
    ensures var r := Purchase(s, userId, itemId, now);
            r.result.Some? && r.result.value.Refused? ==> r.store == AccrueUser(s, userId, now)
    ensures Purchase(s, userId, itemId, now).result.Some?
  {
  }

  /** "Item not found" and "Not enough points" are told apart: each happens exactly in its own case. */
  lemma RefusalReasons(s: Store, userId: UserId, itemId: ItemId, now: int)
    requires userId in s.users
    ensures var r := Purchase(s, userId, itemId, now).result.value;
            (r == Refused("Item not found") <==> itemId !in s.items)
            && (r == Refused("Not enough points") <==>
                  itemId in s.items && Accrue(s.users[userId], now).points < NextCost(s, userId, itemId))
  {
    var r := Purchase(s, userId, itemId, now).result.value;
    if itemId in s.items && Accrue(s.users[userId], now).points >= NextCost(s, userId, itemId) {
      assert r.Purchased?;
    }
  }

  /**
   * Buying a 10-point item that adds 0.1 per second with 100 points: 90 points remain, the rate
   * grows by 0.1, one unit is owned and the next unit costs more than 10.
   */
  lemma FirstPurchaseExample(s: Store, userId: UserId, itemId: ItemId, now: int)
    requires userId in s.users && s.users[userId].points == 100 && s.users[userId].lastUpdated == 0
    requires itemId in s.items && (userId, itemId) !in s.owned
    requires s.items[itemId].baseCost == 10 && s.items[itemId].costMultiplier == DefaultMultiplier
    requires s.items[itemId].pointsPerSecond == 0.1
    ensures var r := Purchase(s, userId, itemId, now).result;
            && r.Some? && r.value.Purchased?
            && r.value.newPoints == 90
            && r.value.newPointsPerSecond == s.users[userId].pointsPerSecond + 0.1
            && r.value.itemQuantity == 1
            && r.value.itemCost > 10
  {
    assert NextCost(s, userId, itemId) == 10;
  }

  // ---------------------------------------------------------------------------------------
  // Leaderboard

  /** Ordering by ascending negated lifetime points is ordering by descending lifetime points. */
  function NegatedLifetimes(users: map<UserId, User>): (scores: map<int, int>)
    ensures scores.Keys == users.Keys
    ensures forall id :: id in users ==> scores[id] == -users[id].lifetimePoints
  {
    map id | id in users :: -users[id].lifetimePoints
  }

  /** The row count SQLite's `LIMIT` admits out of `rows`: a negative limit means no limit. */
  function RowLimit(limit: int, rows: nat): nat {
    if limit < 0 then rows else limit
  }

  /** The ids of the users the leaderboard query returns, best first (see `TopUsersSorted`). */
  function TopUsers(users: map<UserId, User>, limit: int): seq<UserId> {
    Ordering.SortedKeys(NegatedLifetimes(users), RowLimit(limit, |users|))
  }

  /**
   * The query returns `min(limit, |users|)` distinct users, or every user when the limit is
   * negative, by descending lifetime points.
   */
  lemma TopUsersSorted(users: map<UserId, User>, limit: int)
    ensures var ids := TopUsers(users, limit);
            && |ids| == (if 0 <= limit < |users| then limit else |users|)
            && (forall i :: 0 <= i < |ids| ==> ids[i] in users)
            && (forall i, j :: 0 <= i < j < |ids| ==>
                  ids[i] != ids[j] && users[ids[i]].lifetimePoints >= users[ids[j]].lifetimePoints)
  {
    var scores := NegatedLifetimes(users);
    assert |scores| == |users| by {
      assert scores.Keys == users.Keys;
    }
    var n := RowLimit(limit, |users|);
    Ordering.SortedKeysLength(scores, n);
    Ordering.SortedKeysFromTable(scores, n);
    Ordering.SortedKeysSorted(scores, n);
  }

  /** The entry of the user at 0-based position `i` of the listing. */
  function EntryAt(users: map<UserId, User>, ids: seq<UserId>, i: nat): LeaderboardEntry
    requires i < |ids| && ids[i] in users
  {
    LeaderboardEntry(ids[i], users[ids[i]].nickname, users[ids[i]].lifetimePoints, i + 1)
  }

  /** The ids a leaderboard lists, in order. */
  function ListedIds(entries: seq<LeaderboardEntry>): (ids: seq<UserId>)
    ensures |ids| == |entries| && forall i :: 0 <= i < |entries| ==> ids[i] == entries[i].id
  {
    seq(|entries|, i requires 0 <= i < |entries| => entries[i].id)
  }

  /** `get_leaderboard(limit)`: the listed users' entries, numbered from 1 (see `LeaderboardRanked`). */
  function Leaderboard(users: map<UserId, User>, limit: int): seq<LeaderboardEntry> {
    var ids := TopUsers(users, limit);
    TopUsersSorted(users, limit);
    seq(|ids|, i requires 0 <= i < |ids| => EntryAt(users, ids, i))
  }

  /**
   * At most `limit` entries (every user when `limit` is negative), one per user, by descending
   * lifetime points, ranked 1, 2, 3, .... That nobody left out outscores anybody listed is
   * `LeaderboardTop`.
   */
  lemma LeaderboardRanked(users: map<UserId, User>, limit: int)
    ensures var r := Leaderboard(users, limit);
            && |r| == (if 0 <= limit < |users| then limit else |users|)
            && (forall i :: 0 <= i < |r| ==>
                  && r[i].rank == i + 1
                  && r[i].id in users
                  && r[i].nickname == users[r[i].id].nickname
                  && r[i].lifetimePoints == users[r[i].id].lifetimePoints)
            && (forall i, j :: 0 <= i < j < |r| ==> r[i].id != r[j].id && r[i].lifetimePoints >= r[j].lifetimePoints)
  {
    TopUsersSorted(users, limit);
  }

  lemma ListedAreTopUsers(users: map<UserId, User>, limit: int)
    ensures ListedIds(Leaderboard(users, limit)) == TopUsers(users, limit)
  {
  }

  /** Nobody left off the leaderboard has more lifetime points than anybody on it. */
  lemma LeaderboardTop(users: map<UserId, User>, limit: int, i: nat, id: UserId)
    requires i < |Leaderboard(users, limit)| && id in users && id !in ListedIds(Leaderboard(users, limit))
    ensures users[id].lifetimePoints <= Leaderboard(users, limit)[i].lifetimePoints
  {
    var scores := NegatedLifetimes(users);
    ListedAreTopUsers(users, limit);
    TopUsersSorted(users, limit);
    Ordering.SortedKeysTop(scores, RowLimit(limit, |users|), i, id);
  }

  /** With a negative limit, or one of at least the number of users, everybody is listed. */
  lemma LeaderboardComplete(users: map<UserId, User>, limit: int)
    requires limit < 0 || limit >= |users|
    ensures forall id :: id in users ==> id in ListedIds(Leaderboard(users, limit))
  {
    var scores := NegatedLifetimes(users);
    assert |scores| == |users| by {
      assert scores.Keys == users.Keys;
    }
    ListedAreTopUsers(users, limit);
    Ordering.SortedKeysComplete(scores, RowLimit(limit, |users|));
  }

  /**
   * Whoever is not listed before position `i` has at most the lifetime points of the entry at
   * `i`: each position holds the best of those still unlisted, whether listed later or left out.
   */
  lemma {:induction false} LeaderboardPosition(users: map<UserId, User>, limit: int, i: nat, x: UserId)
    requires x in users
    requires i < |Leaderboard(users, limit)|
    requires forall j :: 0 <= j < i ==> Leaderboard(users, limit)[j].id != x
    ensures users[x].lifetimePoints <= Leaderboard(users, limit)[i].lifetimePoints
  {
    var r := Leaderboard(users, limit);
    var ids := ListedIds(r);
    LeaderboardRanked(users, limit);
    if x in ids {
      var k :| 0 <= k < |ids| && ids[k] == x;
      assert i <= k;
    } else {
      LeaderboardTop(users, limit, i, x);
    }
  }

  /** `x` has strictly more lifetime points than every other user not in `listed`. */
  ghost predicate StrictlyAhead(users: map<UserId, User>, x: UserId, listed: seq<UserId>)
    requires x in users
  {
    forall y :: y in users && y != x && y !in listed ==> users[y].lifetimePoints < users[x].lifetimePoints
  }

  /** A user strictly ahead of everyone not listed before position `i` takes position `i`. */
  lemma {:induction false} LeaderboardStrictBest(users: map<UserId, User>, limit: int, i: nat, x: UserId)
    requires x in users
    requires i < |Leaderboard(users, limit)|
    requires x !in ListedIds(Leaderboard(users, limit))[..i]
    requires StrictlyAhead(users, x, ListedIds(Leaderboard(users, limit))[..i])
    ensures Leaderboard(users, limit)[i].id == x
  {
    var r := Leaderboard(users, limit);
    LeaderboardRanked(users, limit);
    var before := ListedIds(r)[..i];
    assert forall j :: 0 <= j < i ==> before[j] == r[j].id;
    assert forall j :: 0 <= j < i ==> r[j].id != x;
    LeaderboardPosition(users, limit, i, x);
    assert r[i].id !in before;
  }

  /**
   * Three players with 1000, 500 and 1500 lifetime points are listed 1500, 1000, 500 with ranks
   * 1, 2, 3 under the default limit of 10, any limit of at least three, or no limit.
   */
  lemma LeaderboardExample(users: map<UserId, User>, limit: int)
    requires users.Keys == {1, 2, 3} && (limit < 0 || limit >= 3)
    requires users[1].lifetimePoints == 1000 && users[2].lifetimePoints == 500 && users[3].lifetimePoints == 1500
    ensures var r := Leaderboard(users, limit);
            && |r| == 3
            && r[0].id == 3 && r[0].rank == 1
            && r[1].id == 1 && r[1].rank == 2
            && r[2].id == 2 && r[2].rank == 3
  {
    assert |users| == 3 by {
      assert users.Keys == {1, 2, 3};
    }
    assert StrictlyAhead(users, 3, []);
    assert StrictlyAhead(users, 1, [3]);
    assert StrictlyAhead(users, 2, [3, 1]);
    var r := Leaderboard(users, limit);
    LeaderboardRanked(users, limit);
    assert ListedIds(r)[..0] == [];
    LeaderboardStrictBest(users, limit, 0, 3);
    assert ListedIds(r)[..1] == [3];
    LeaderboardStrictBest(users, limit, 1, 1);
    assert ListedIds(r)[..2] == [3, 1];
    LeaderboardStrictBest(users, limit, 2, 2);
  }

  // ---------------------------------------------------------------------------------------
  // Administrative overwrite

  /** `update_game_state`: each supplied field overwrites its column; nothing else changes and no accrual happens. */
  function Overwrite(s: Store, userId: UserId, update: GameStateUpdate): (r: Observed)
    ensures r.store.users.Keys == s.users.Keys
    ensures userId !in s.users ==> r == Observed(s, None)
    ensures userId in s.users ==>
      var before := s.users[userId];
      var after := r.store.users[userId];
      && OnlyUserChanged(s, r.store, userId)
      && r.user == Some(after)
      && after.points == update.points.GetOr(before.points)
      && after.lifetimePoints == update.lifetimePoints.GetOr(before.lifetimePoints)
      && after.clicks == update.clicks.GetOr(before.clicks)
      && after == before.(points := after.points, lifetimePoints := after.lifetimePoints, clicks := after.clicks)
  {
    if userId !in s.users then Observed(s, None)
    else
      var u := s.users[userId];
      var u1 := if update.points.Some? then u.(points := update.points.value) else u;
      var u2 := if update.lifetimePoints.Some? then u1.(lifetimePoints := update.lifetimePoints.value) else u1;
      var u3 := if update.clicks.Some? then u2.(clicks := update.clicks.value) else u2;
      Observed(s.(users := s.users[userId := u3]), Some(u3))
  }

  /** Applying the same overwrite twice is applying it once. */
  lemma OverwriteIdempotent(s: Store, userId: UserId, update: GameStateUpdate)
    ensures Overwrite(Overwrite(s, userId, update).store, userId, update) == Overwrite(s, userId, update)
  {
  }

  // ---------------------------------------------------------------------------------------
  // Invariants of the economy

  /** Catalog click bonuses are non-negative; every balance and click rate is non-negative. */
  ghost predicate WellFormed(s: Store) {
    && (forall id :: id in s.items ==> s.items[id].pointsPerClick >= 0.0)
    && (forall id :: id in s.users ==> s.users[id].points >= 0 && s.users[id].pointsPerClick >= 0.0)
  }

  /**
   * `r` is a later state of `s` under the economy: same users and catalog, and no user's lifetime
   * points or clicks, and no owned quantity, went down.
   */
  ghost predicate Progressed(s: Store, r: Store) {
    && r.users.Keys == s.users.Keys
    && r.items == s.items
    && (forall id :: id in s.users ==>
          r.users[id].lifetimePoints >= s.users[id].lifetimePoints && r.users[id].clicks >= s.users[id].clicks)
    && s.owned.Keys <= r.owned.Keys
    && (forall k :: k in s.owned ==> r.owned[k] >= s.owned[k])
  }

  lemma ProgressedTransitive(s: Store, t: Store, u: Store)
    requires Progressed(s, t) && Progressed(t, u)
    ensures Progressed(s, u)
  {
  }

  lemma ObservePreserves(s: Store, userId: UserId, now: int)
    requires WellFormed(s)
    ensures WellFormed(Observe(s, userId, now).store) && Progressed(s, Observe(s, userId, now).store)
  {
  }

  /** A click never lowers a balance, lifetime points or a click count, given non-negative click rates. */
  lemma ClickPreserves(s: Store, userId: UserId, now: int)
    requires WellFormed(s)
    ensures WellFormed(Click(s, userId, now).store) && Progressed(s, Click(s, userId, now).store)
  {
    if userId in s.users {
      var before := Accrue(s.users[userId], now);
      assert Trunc(before.pointsPerClick) >= 0;
    }
  }

  /** A purchase never drives a balance below zero and never lowers lifetime points. */
  lemma PurchasePreserves(s: Store, userId: UserId, itemId: ItemId, now: int)
    requires WellFormed(s)
    ensures WellFormed(Purchase(s, userId, itemId, now).store) && Progressed(s, Purchase(s, userId, itemId, now).store)
  {
  }
}
