/**
 * The websocket connection registry: which socket serves each user, the list every broadcast
 * goes to, and the messages handed to sockets. A socket is identified by an integer; accepting,
 * sending and receiving are not modelled beyond recording what is sent to which socket.
 */
module Connections {
  import opened Wrappers
  import opened Models
  import GameCrud
  import Economy

  /** The identity of an accepted websocket. */
  type Socket = int

  /** One `send_json` call: the socket and the message it carried. */
  datatype Delivery = Delivery(socket: Socket, message: ServerMessage)

  /** `active_connections` and `broadcast_connections` as a value. */
  datatype Registry = Registry(active: map<UserId, Socket>, broadcast: seq<Socket>)

  // ---------------------------------------------------------------------------------------
  // List removal

  /** Python's `list.remove(x)` on a list that may not hold `x`: drops the first occurrence, if any. */
  function RemoveFirst(xs: seq<Socket>, x: Socket): (r: seq<Socket>)
    ensures x !in xs ==> r == xs
    ensures x in xs ==> |r| == |xs| - 1
    ensures multiset(r) == multiset(xs) - multiset{x}
  {
    if |xs| == 0 then []
    else
      assert xs == [xs[0]] + xs[1..];
      if xs[0] == x then xs[1..] else [xs[0]] + RemoveFirst(xs[1..], x)
  }

  /** Removal cuts the list at the first position holding `x`, keeping everything else in order. */
  lemma {:induction false} RemoveFirstAt(xs: seq<Socket>, x: Socket, i: nat)
    requires i < |xs| && xs[i] == x && x !in xs[..i]
    ensures RemoveFirst(xs, x) == xs[..i] + xs[i + 1..]
    decreases i
  {
    if i > 0 {
      assert xs[0] != x by {
        assert xs[0] == xs[..i][0];
      }
      assert xs[1..][i - 1] == x;
      assert xs[1..][..i - 1] == xs[..i][1..];
      RemoveFirstAt(xs[1..], x, i - 1);
      assert xs[1..][i..] == xs[i + 1..];
    }
  }

  // ---------------------------------------------------------------------------------------
  // Registry transitions

  /** `connect(websocket, user_id)`: the user's entry now names `ws`, and `ws` is appended to the broadcast list. */
  function Connected(r: Registry, ws: Socket, userId: UserId): (r': Registry)
    ensures r'.active.Keys == r.active.Keys + {userId} && r'.active[userId] == ws
    ensures forall u :: u in r.active && u != userId ==> r'.active[u] == r.active[u]
    ensures |r'.broadcast| == |r.broadcast| + 1
    ensures r'.broadcast[..|r.broadcast|] == r.broadcast && r'.broadcast[|r.broadcast|] == ws
  {
    var b := r.broadcast + [ws];
    assert b[..|r.broadcast|] == r.broadcast;
    Registry(r.active[userId := ws], b)
  }

  /**
   * `disconnect(user_id)`: for a registered user, drops the entry and the first occurrence of its
   * socket from the broadcast list; for anybody else, no change.
   */
  function Disconnected(r: Registry, userId: UserId): (r': Registry)
    ensures userId !in r.active ==> r' == r
    ensures r'.active.Keys == r.active.Keys - {userId}
    ensures forall u :: u in r'.active ==> r'.active[u] == r.active[u]
    ensures userId in r.active ==> r'.broadcast == RemoveFirst(r.broadcast, r.active[userId])
  {
    if userId in r.active then
      Registry(r.active - {userId}, RemoveFirst(r.broadcast, r.active[userId]))
    else r
  }

  /** The users whose entry names socket `s`. */
  function Holders(active: map<UserId, Socket>, s: Socket): (users: set<UserId>)
    ensures forall u :: u in users <==> u in active && active[u] == s
  {
    set u | u in active && active[u] == s
  }

  /**
   * Every socket occurs in the broadcast list at least as often as users are registered to it.
   * In particular (`ActiveAreBroadcast`) every registered socket receives broadcasts.
   */
  ghost predicate Consistent(r: Registry) {
    forall s :: |Holders(r.active, s)| <= multiset(r.broadcast)[s]
  }

  lemma {:induction false} SubsetCard(a: set<UserId>, b: set<UserId>)
    requires a <= b
    ensures |a| <= |b|
    decreases |b|
  {
    if a != {} {
      if forall y :: y !in a { assert false; }
      var x :| x in a;
      SubsetCard(a - {x}, b - {x});
    }
  }

  lemma ActiveAreBroadcast(r: Registry, userId: UserId)
    requires Consistent(r) && userId in r.active
    ensures r.active[userId] in r.broadcast
  {
    var s := r.active[userId];
    assert userId in Holders(r.active, s);
    assert multiset(r.broadcast)[s] >= 1;
  }

  lemma EmptyConsistent()
    ensures Consistent(Registry(map[], []))
  {
    forall s | true
      ensures |Holders(map[], s)| <= multiset([])[s]
    {
      assert Holders(map[], s) == {};
    }
  }

  /** Connecting keeps the registry consistent, whatever socket and user. */
  lemma ConnectedConsistent(r: Registry, ws: Socket, userId: UserId)
    requires Consistent(r)
    ensures Consistent(Connected(r, ws, userId))
  {
    var r' := Connected(r, ws, userId);
    assert r'.broadcast == r.broadcast + [ws];
    forall s | true
      ensures |Holders(r'.active, s)| <= multiset(r'.broadcast)[s]
    {
      if s == ws {
        SubsetCard(Holders(r'.active, s), Holders(r.active, s) + {userId});
      } else {
        SubsetCard(Holders(r'.active, s), Holders(r.active, s));
      }
    }
  }

  /** Dropping a user's entry drops exactly that user from the holders of every socket. */
  lemma HoldersWithout(active: map<UserId, Socket>, userId: UserId, s: Socket)
    ensures Holders(active - {userId}, s) == Holders(active, s) - {userId}
  {
  }

  /** Disconnecting a registered user keeps the count of one socket within bounds. */
  lemma DisconnectedBound(r: Registry, userId: UserId, s: Socket)
    requires userId in r.active && |Holders(r.active, s)| <= multiset(r.broadcast)[s]
    ensures |Holders(Disconnected(r, userId).active, s)| <= multiset(Disconnected(r, userId).broadcast)[s]
  {
    var gone := r.active[userId];
    var broadcast := RemoveFirst(r.broadcast, gone);
    assert Disconnected(r, userId) == Registry(r.active - {userId}, broadcast);
    var before := Holders(r.active, s);
    HoldersWithout(r.active, userId, s);
    if s == gone {
      assert userId in before;
      assert multiset(broadcast)[s] == multiset(r.broadcast)[s] - 1;
    } else {
      SubsetCard(before - {userId}, before);
      assert multiset(broadcast)[s] == multiset(r.broadcast)[s];
    }
  }

  /** Disconnecting keeps the registry consistent. */
  lemma DisconnectedConsistent(r: Registry, userId: UserId)
    requires Consistent(r)
    ensures Consistent(Disconnected(r, userId))
  {
    if userId in r.active {
      forall s | true
        ensures |Holders(Disconnected(r, userId).active, s)| <= multiset(Disconnected(r, userId).broadcast)[s]
      {
        DisconnectedBound(r, userId, s);
      }
    }
  }

  /**
   * Reconnecting a user on a new socket replaces the entry but leaves the old socket in the
   * broadcast list, and it stays there after the user disconnects.
   */
  lemma ReconnectLeavesStaleSocket(r: Registry, first: Socket, second: Socket, userId: UserId)
    requires first != second
    ensures var twice := Connected(Connected(r, first, userId), second, userId);
            && twice.active[userId] == second
            && first in twice.broadcast
            && first in Disconnected(twice, userId).broadcast
  {
    var twice := Connected(Connected(r, first, userId), second, userId);
    assert twice.broadcast == r.broadcast + [first] + [second];
    assert multiset(twice.broadcast)[first] >= 1;
    assert multiset(Disconnected(twice, userId).broadcast)[first] == multiset(twice.broadcast)[first];
  }

  /** Some position holding `x` at or before `i` is its first occurrence. */
  lemma {:induction false} FirstIndexOf(xs: seq<Socket>, x: Socket, i: nat) returns (j: nat)
    requires i < |xs| && xs[i] == x
    ensures j <= i && xs[j] == x && x !in xs[..j]
    decreases i
  {
    if x in xs[..i] {
      var k :| 0 <= k < i && xs[..i][k] == x;
      j := FirstIndexOf(xs, x, k);
    } else {
      j := i;
    }
  }

  /** A fresh socket connected and then disconnected leaves the registry as it was. */
  lemma ConnectThenDisconnect(r: Registry, ws: Socket, userId: UserId)
    requires userId !in r.active && ws !in r.broadcast
    ensures Disconnected(Connected(r, ws, userId), userId) == r
  {
    var r' := Connected(r, ws, userId);
    assert r'.broadcast == r.broadcast + [ws];
    RemoveFirstAt(r'.broadcast, ws, |r.broadcast|);
    assert r'.broadcast[..|r.broadcast|] == r.broadcast;
    assert r'.active - {userId} == r.active;
  }

  // ---------------------------------------------------------------------------------------
  // Sending

  /** What `broadcast(message)` hands out: the message once per list entry, in list order. */
  function Fanout(sockets: seq<Socket>, message: ServerMessage): (out: seq<Delivery>)
    ensures |out| == |sockets|
    ensures forall i :: 0 <= i < |out| ==> out[i] == Delivery(sockets[i], message)
  {
    seq(|sockets|, i requires 0 <= i < |sockets| => Delivery(sockets[i], message))
  }

  /**
   * What `send_personal_message(message, user_id)` hands out: the message, once, to the socket
   * registered for the user and to no other socket; nothing when the user is not registered.
   */
  function Personal(r: Registry, userId: UserId, message: ServerMessage): (out: seq<Delivery>)
    ensures userId in r.active ==> out == [Delivery(r.active[userId], message)]
    ensures userId !in r.active ==> out == []
  {
    if userId in r.active then [Delivery(r.active[userId], message)] else []
  }

  /** Every registered user's socket receives a broadcast at least once. */
  lemma BroadcastReachesActive(r: Registry, message: ServerMessage, userId: UserId)
    requires Consistent(r) && userId in r.active
    ensures Delivery(r.active[userId], message) in Fanout(r.broadcast, message)
  {
    ActiveAreBroadcast(r, userId);
    var i :| 0 <= i < |r.broadcast| && r.broadcast[i] == r.active[userId];
    assert Fanout(r.broadcast, message)[i] == Delivery(r.active[userId], message);
  }

  // ---------------------------------------------------------------------------------------
  // The manager object

  /** `list.remove`'s search: the position of the first occurrence of `x`. */
  method IndexOf(xs: seq<Socket>, x: Socket) returns (i: nat)
    requires x in xs
    ensures i < |xs| && xs[i] == x && x !in xs[..i]
  {
    i := 0;
    while xs[i] != x
      invariant 0 <= i < |xs|
      invariant x !in xs[..i]
      invariant x in xs[i..]
      decreases |xs| - i
    {
      assert xs[..i + 1] == xs[..i] + [xs[i]];
      assert xs[i..] == [xs[i]] + xs[i + 1..];
      i := i + 1;
    }
  }

  /** `ConnectionManager`, with the record of what it has sent. */
  class ConnectionManager {
    var activeConnections: map<UserId, Socket>
    var broadcastConnections: seq<Socket>
    var sent: seq<Delivery>

    function State(): Registry
      reads this
    {
      Registry(activeConnections, broadcastConnections)
    }

    ghost predicate Valid()
      reads this
    {
      Consistent(State())
    }

    constructor ()
      ensures State() == Registry(map[], []) && sent == []
      ensures Valid()
    {
      activeConnections := map[];
      broadcastConnections := [];
      sent := [];
      EmptyConsistent();
    }

    method Connect(ws: Socket, userId: UserId)
      requires Valid()
      modifies this
      ensures Valid()
      ensures State() == Connected(old(State()), ws, userId)
      ensures sent == old(sent)
    {
      ConnectedConsistent(State(), ws, userId);
      activeConnections := activeConnections[userId := ws];
      broadcastConnections := broadcastConnections + [ws];
    }

    method Disconnect(userId: UserId)
      requires Valid()
      modifies this
      ensures Valid()
      ensures State() == Disconnected(old(State()), userId)
      ensures sent == old(sent)
    {
      DisconnectedConsistent(State(), userId);
      if userId in activeConnections {
        var ws := activeConnections[userId];
        if ws in broadcastConnections {
          var i := IndexOf(broadcastConnections, ws);
          RemoveFirstAt(broadcastConnections, ws, i);
          broadcastConnections := broadcastConnections[..i] + broadcastConnections[i + 1..];
        }
        activeConnections := activeConnections - {userId};
      }
    }

    method SendPersonalMessage(message: ServerMessage, userId: UserId)
      modifies this
      ensures State() == old(State())
      ensures sent == old(sent) + Personal(old(State()), userId, message)
    {
      if userId in activeConnections {
        sent := sent + [Delivery(activeConnections[userId], message)];
      }
    }

    method Broadcast(message: ServerMessage)
      modifies this
      ensures State() == old(State())
      ensures sent == old(sent) + Fanout(old(State()).broadcast, message)
    {
      for i := 0 to |broadcastConnections|
        invariant State() == old(State())
        invariant sent == old(sent) + Fanout(broadcastConnections[..i], message)
      {
        assert broadcastConnections[..i + 1] == broadcastConnections[..i] + [broadcastConnections[i]];
        sent := sent + [Delivery(broadcastConnections[i], message)];
      }
      assert broadcastConnections[..|broadcastConnections|] == broadcastConnections;
    }

    /** `broadcast_leaderboard`: the default top 10 to every broadcast socket. */
    method BroadcastLeaderboard(db: Database)
      modifies this
      ensures State() == old(State())
      ensures sent == old(sent) + Fanout(old(State()).broadcast, LeaderboardUpdate(Economy.Leaderboard(db.users, 10)))
    {
      var leaderboard := GameCrud.GetLeaderboard(db, 10);
      Broadcast(LeaderboardUpdate(leaderboard));
    }
  }

  // ---------------------------------------------------------------------------------------
  // Tokens

  /** The validated claims of an access token. */
  datatype TokenData = TokenData(sub: Option<string>, exp: int)

  /** The three ways `get_user_id_from_token` ends. */
  datatype TokenOutcome = Rejected | UserIdOf(id: UserId) | Raises

  predicate IsDigit(c: char) {
    '0' <= c <= '9'
  }

  /** The value of a non-empty run of decimal digits. */
  function DigitsValue(s: string): (n: nat)
    requires forall i :: 0 <= i < |s| ==> IsDigit(s[i])
    decreases |s|
  {
    if |s| == 0 then 0
    else
      assert IsDigit(s[|s| - 1]);
      DigitsValue(s[..|s| - 1]) * 10 + (s[|s| - 1] as int - '0' as int)
  }

  /** Python's `int(s)` on an optional sign followed by decimal digits; anything else raises. */
  function ParseInt(s: string): (r: Option<int>)
    ensures r.Some? ==> |s| > 0
  {
    var sign := if |s| > 0 && (s[0] == '-' || s[0] == '+') then 1 else 0;
    var digits := s[sign..];
    if |digits| > 0 && forall i :: 0 <= i < |digits| ==> IsDigit(digits[i]) then
      var magnitude: int := DigitsValue(digits);
      Some(if sign == 1 && s[0] == '-' then -magnitude else magnitude)
    else None
  }

  /** The decimal rendering of a natural number. */
  function NatToString(n: nat): (s: string)
    ensures |s| > 0 && forall i :: 0 <= i < |s| ==> IsDigit(s[i])
    ensures s[0] == '0' ==> n == 0
    decreases n
  {
    var last := ['0' + (n % 10) as char];
    if n < 10 then last else NatToString(n / 10) + last
  }

  /** `str(n)` for an integer: a minus sign exactly for a negative number, then its digits. */
  function IntToString(n: int): (s: string)
    ensures |s| > 0 && (s[0] == '-' <==> n < 0)
    ensures forall i :: 1 <= i < |s| ==> IsDigit(s[i])
  {
    if n < 0 then "-" + NatToString(-n) else NatToString(n)
  }

  lemma {:induction false} DigitsRoundTrip(n: nat)
    ensures DigitsValue(NatToString(n)) == n
    decreases n
  {
    var s := NatToString(n);
    if n >= 10 {
      DigitsRoundTrip(n / 10);
      assert s[..|s| - 1] == NatToString(n / 10);
    }
  }

  /** An unsigned run of digits parses to its value. */
  lemma ParseUnsigned(s: string)
    requires |s| > 0 && forall i :: 0 <= i < |s| ==> IsDigit(s[i])
    ensures ParseInt(s) == Some(DigitsValue(s))
  {
    assert IsDigit(s[0]);
    assert s[0..] == s;
  }

  /** A minus sign before a run of digits negates its value. */
  lemma ParseNegative(s: string)
    requires |s| > 0 && forall i :: 0 <= i < |s| ==> IsDigit(s[i])
    ensures ParseInt("-" + s) == Some(-(DigitsValue(s) as int))
  {
    assert ("-" + s)[1..] == s;
  }

  /** Parsing the decimal rendering of an id gives the id back. */
  lemma ParseIntRoundTrip(n: int)
    ensures ParseInt(IntToString(n)) == Some(n)
  {
    if n < 0 {
      var digits := NatToString(-n);
      assert IntToString(n) == "-" + digits;
      DigitsRoundTrip(-n);
      ParseNegative(digits);
    } else {
      var digits := NatToString(n);
      assert IntToString(n) == digits;
      DigitsRoundTrip(n);
      ParseUnsigned(digits);
    }
  }

  /**
   * `get_user_id_from_token`: `None` when validation fails; otherwise `int(sub)`, which raises
   * when `sub` is missing or not an integer.
   */
  function GetUserIdFromToken(validate: string -> Option<TokenData>, token: string): (r: TokenOutcome)
    ensures validate(token).None? <==> r == Rejected
    ensures r.UserIdOf? <==> validate(token).Some? && validate(token).value.sub.Some?
                              && ParseInt(validate(token).value.sub.value).Some?
    ensures r.UserIdOf? ==> r.id == ParseInt(validate(token).value.sub.value).value
  {
    match validate(token)
    case None => Rejected
    case Some(data) =>
      match data.sub
      case None => Raises
      case Some(sub) =>
        match ParseInt(sub)
        case None => Raises
        case Some(id) => UserIdOf(id)
  }

  /** A token whose subject is the decimal rendering of an id yields that id. */
  lemma TokenForId(validate: string -> Option<TokenData>, token: string, id: UserId)
    requires validate(token).Some? && validate(token).value.sub == Some(IntToString(id))
    ensures GetUserIdFromToken(validate, token) == UserIdOf(id)
  {
    ParseIntRoundTrip(id);
  }
}
