/**
 * The records of the clicker game's store and the payloads the game exchanges with its clients.
 * Python floats are modelled as `real`; ids are plain integers.
 */
module Models {
  import opened Wrappers

  type UserId = int
  type ItemId = int

  /** The game columns of a row of the users table. */
  datatype User = User(
    nickname: string,
    points: int,
    lifetimePoints: int,
    clicks: int,
    pointsPerClick: real,
    pointsPerSecond: real,
    lastUpdated: int)

  /** A freshly registered player: the column defaults (0 points, 1.0 per click, 0.0 per second, never observed). */
  function NewUser(nickname: string): User {
    User(nickname, 0, 0, 0, 1.0, 0.0, 0)
  }

  /** A catalog entry. The cost multiplier defaults to 1.15. */
  datatype Item = Item(
    name: string,
    description: string,
    baseCost: int,
    pointsPerClick: real,
    pointsPerSecond: real,
    costMultiplier: real,
    imageUrl: Option<string>)

  /** The persistent state: users and catalog by id, and the ownership table keyed by (user, item). */
  datatype Store = Store(
    users: map<UserId, User>,
    items: map<ItemId, Item>,
    owned: map<(UserId, ItemId), nat>)

  /** The database session: the same three tables, updated in place by the CRUD operations. */
  class Database {
    var users: map<UserId, User>
    var items: map<ItemId, Item>
    var owned: map<(UserId, ItemId), nat>

    /** The tables as a value. */
    function Snapshot(): Store
      reads this
    {
      Store(users, items, owned)
    }

    constructor (s: Store)
      ensures Snapshot() == s
    {
      users, items, owned := s.users, s.items, s.owned;
    }
  }

  /** The dictionary `buy_item` returns: optional fields are present exactly on success. */
  datatype PurchaseResult =
    | Purchased(
        message: string,
        newPoints: int,
        newPointsPerClick: real,
        newPointsPerSecond: real,
        itemQuantity: nat,
        itemCost: int)
    | Refused(message: string)

  datatype LeaderboardEntry = LeaderboardEntry(id: UserId, nickname: string, lifetimePoints: int, rank: nat)

  /** A catalog entry together with the requesting user's quantity and next price. */
  datatype CalculatedItem = CalculatedItem(
    id: ItemId,
    name: string,
    description: string,
    baseCost: int,
    currentCost: int,
    pointsPerClick: real,
    pointsPerSecond: real,
    costMultiplier: real,
    quantity: nat,
    imageUrl: Option<string>)

  /** Fields an administrator may overwrite; `None` leaves the column alone. */
  datatype GameStateUpdate = GameStateUpdate(points: Option<int>, lifetimePoints: Option<int>, clicks: Option<int>)

  datatype ClickResult = ClickResult(pointsEarned: real, newTotal: int, lifetimePoints: int, clicks: int)

  /** What the server sends over a websocket: `{"type": ..., "data": ...}`. */
  datatype ServerMessage =
    | GameState(state: Option<User>)
    | ClickResultMsg(click: ClickResult)
    | PurchaseResultMsg(purchase: Option<PurchaseResult>)
    | ItemsList(items: seq<CalculatedItem>)
    | LeaderboardUpdate(entries: seq<LeaderboardEntry>)
}
