/**
 * The game's CRUD operations on the database session. Each one changes the tables in place and
 * is proved to leave them exactly as the corresponding rule of module Economy says. The wall
 * clock is the parameter `now`.
 */
module GameCrud {
  import opened Wrappers
  import opened Models
  import opened ItemCrud
  import Economy

  /** `update_passive_points`: brings the income of an existing user up to `now`. */
  method UpdatePassivePoints(db: Database, userId: UserId, now: int) returns (user: User)
    requires userId in db.users
    modifies db
    ensures db.Snapshot() == Economy.AccrueUser(old(db.Snapshot()), userId, now)
    ensures user == db.users[userId]
  {
    user := db.users[userId];
    if user.lastUpdated == 0 {
      user := user.(lastUpdated := now);
      db.users := db.users[userId := user];
      return;
    }
    var elapsed := now - user.lastUpdated;
    if elapsed > 0 && user.pointsPerSecond > 0.0 {
      var earned := Economy.PassiveEarnings(user.pointsPerSecond, elapsed);
      user := user.(points := user.points + earned);
      user := user.(lifetimePoints := user.lifetimePoints + earned);
      user := user.(lastUpdated := now);
      db.users := db.users[userId := user];
    } else if elapsed > 0 {
      user := user.(lastUpdated := now);
      db.users := db.users[userId := user];
    }
  }

  /** `get_user_game_state`: the user's record with passive income applied, or `None`. */
  method GetUserGameState(db: Database, userId: UserId, now: int) returns (user: Option<User>)
    modifies db
    ensures db.Snapshot() == Economy.Observe(old(db.Snapshot()), userId, now).store
    ensures user == Economy.Observe(old(db.Snapshot()), userId, now).user
  {
    if userId !in db.users {
      return None;
    }
    var u := UpdatePassivePoints(db, userId, now);
    user := Some(u);
  }

  /** `process_click`: the points the click earned and the updated record, or `(0, None)`. */
  method ProcessClick(db: Database, userId: UserId, now: int) returns (pointsEarned: real, user: Option<User>)
    modifies db
    ensures db.Snapshot() == Economy.Click(old(db.Snapshot()), userId, now).store
    ensures pointsEarned == Economy.Click(old(db.Snapshot()), userId, now).pointsEarned
    ensures user == Economy.Click(old(db.Snapshot()), userId, now).user
  {
    var found := GetUserGameState(db, userId, now);
    if found.None? {
      return 0.0, None;
    }
    var u := found.value;
    pointsEarned := u.pointsPerClick;
    u := u.(points := u.points + Trunc(pointsEarned));
    u := u.(lifetimePoints := u.lifetimePoints + Trunc(pointsEarned));
    u := u.(clicks := u.clicks + 1);
    db.users := db.users[userId := u];
    user := Some(u);
  }

  /** `buy_item`: `None` for an unknown user, otherwise the purchase outcome. */
  method BuyItem(db: Database, userId: UserId, itemId: ItemId, now: int) returns (result: Option<PurchaseResult>)
    modifies db
    ensures db.Snapshot() == Economy.Purchase(old(db.Snapshot()), userId, itemId, now).store
    ensures result == Economy.Purchase(old(db.Snapshot()), userId, itemId, now).result
  {
    var found := GetUserGameState(db, userId, now);
    if found.None? {
      return None;
    }
    var user := found.value;
    if itemId !in db.items {
      return Some(Refused("Item not found"));
    }
    var item := db.items[itemId];
    var userItem := GetUserItem(db.owned, userId, itemId);
    var currentQuantity := if userItem.Some? then userItem.value else 0;
    var cost := CalculateItemCost(item.baseCost, currentQuantity, item.costMultiplier);
    if user.points < cost {
      return Some(Refused("Not enough points"));
    }
    user := user.(points := user.points - cost);
    db.users := db.users[userId := user];
    var quantity := AddUserItem(db, userId, itemId, 1);
    user := user.(pointsPerClick := user.pointsPerClick + item.pointsPerClick);
    user := user.(pointsPerSecond := user.pointsPerSecond + item.pointsPerSecond);
    db.users := db.users[userId := user];
    var newCost := CalculateItemCost(item.baseCost, quantity, item.costMultiplier);
    result := Some(Purchased("Successfully purchased " + item.name,
                             user.points, user.pointsPerClick, user.pointsPerSecond, quantity, newCost));
  }

  /** `get_leaderboard`: numbers the rows of the ordered query from 1. */
  method GetLeaderboard(db: Database, limit: int) returns (result: seq<LeaderboardEntry>)
    ensures result == Economy.Leaderboard(db.users, limit)
  {
    var users := Economy.TopUsers(db.users, limit);
    Economy.TopUsersSorted(db.users, limit);
    result := [];
    for i := 0 to |users|
      invariant |result| == i
      invariant forall j :: 0 <= j < i ==> result[j] == Economy.EntryAt(db.users, users, j)
    {
      var id := users[i];
      result := result + [LeaderboardEntry(id, db.users[id].nickname, db.users[id].lifetimePoints, i + 1)];
    }
  }

  /** `update_game_state`: overwrites the supplied fields, without accrual. */
  method UpdateGameState(db: Database, userId: UserId, update: GameStateUpdate) returns (user: Option<User>)
    modifies db
    ensures db.Snapshot() == Economy.Overwrite(old(db.Snapshot()), userId, update).store
    ensures user == Economy.Overwrite(old(db.Snapshot()), userId, update).user
  {
    if userId !in db.users {
      return None;
    }
    var u := db.users[userId];
    if update.points.Some? {
      u := u.(points := update.points.value);
    }
    if update.lifetimePoints.Some? {
      u := u.(lifetimePoints := update.lifetimePoints.value);
    }
    if update.clicks.Some? {
      u := u.(clicks := update.clicks.value);
    }
    db.users := db.users[userId := u];
    user := Some(u);
  }
}
