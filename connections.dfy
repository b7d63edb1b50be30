/**
 * Connection request handlers (backend/app/api/routes/connections.py):
 * create a request, let its target update it, list and count a user's
 * requests. The store is a class holding the users table, the songs table
 * and the connections table (a map from id to record); the listing and
 * statistics handlers are pure queries over that table.
 */
module Connections {
  import opened Wrappers
  import opened Models
  import opened ConnectionModel
  import Similarity

  /** The HTTP errors the handlers raise, by their detail text. */
  datatype Error =
    | UserNotFound            // 404 "User not found"
    | ConnectionAlreadyExists // 400 "Connection already exists"
    | MessageTooLong          // the store refusing a message wider than its column
    | ConnectionNotFound      // 404 "Connection not found"

  /** `ConnectionUpdate`: the two optional fields; only supplied ones are assigned. */
  datatype ConnectionUpdate = ConnectionUpdate(status: Patch<Status>, similarityScore: Patch<Option<real>>)

  /** Which side of a record the caller must be on. */
  datatype Role = Initiator | Target | EitherParty

  // ---------------------------------------------------------------- table

  /** Every user row is stored under its own id. */
  ghost predicate UsersKeyed(users: map<int, User>)
  {
    forall uid | uid in users :: users[uid].id == uid
  }

  /** Every connection row is stored under its own id. */
  ghost predicate WellKeyed(conns: map<int, Connection>)
  {
    forall id | id in conns :: conns[id].id == id
  }

  /** A higher id was created later: ids are handed out in creation order. */
  ghost predicate CreatedInOrder(conns: map<int, Connection>)
  {
    forall i, j | i in conns && j in conns && i < j :: conns[i].createdAt < conns[j].createdAt
  }

  /** What the store guarantees of the connections table at all times. */
  ghost predicate TableInvariant(conns: map<int, Connection>, users: map<int, User>, nextId: nat, clock: nat)
  {
    && WellKeyed(conns)
    && CreatedInOrder(conns)
    && (forall id | id in conns ::
          && 0 <= id < nextId
          && conns[id].createdAt < clock
          && conns[id].userId in users
          && conns[id].connectedUserId in users
          && MessageFits(conns[id].recommendationMessage))
  }

  /** A record for the ordered pair (initiator, target) exists, in any status. */
  predicate HasOrdered(conns: map<int, Connection>, initiator: int, target: int)
  {
    exists id | id in conns :: conns[id].userId == initiator && conns[id].connectedUserId == target
  }

  /** The update query: record `id` exists and `me` is its target. */
  predicate VisibleTo(conns: map<int, Connection>, id: int, me: int)
  {
    id in conns && conns[id].connectedUserId == me
  }

  /** Inserting a fresh row stamped with the next id and the clock keeps the invariant. */
  lemma InsertKeepsInvariant(conns: map<int, Connection>, users: map<int, User>, nextId: nat, clock: nat, c: Connection)
    requires TableInvariant(conns, users, nextId, clock)
    requires c.id == nextId && c.createdAt == clock
    requires c.userId in users && c.connectedUserId in users && MessageFits(c.recommendationMessage)
    ensures nextId !in conns
    ensures TableInvariant(conns[nextId := c], users, nextId + 1, clock + 1)
  {
  }

  /**
   * Replacing a row by one with the same id, users, message and creation
   * time, and the users table by one with the same keys, keeps the invariant.
   */
  lemma ReplaceKeepsInvariant(conns: map<int, Connection>, users: map<int, User>, users': map<int, User>,
                              nextId: nat, clock: nat, id: int, c: Connection)
    requires TableInvariant(conns, users, nextId, clock)
    requires id in conns && users'.Keys == users.Keys
    requires c.(status := conns[id].status, similarityScore := conns[id].similarityScore) == conns[id]
    ensures TableInvariant(conns[id := c], users', nextId, clock)
  {
  }

  // -------------------------------------------------------------- updates

  /** The `setattr` loop: assigns exactly the supplied fields. */
  function ApplyUpdate(c: Connection, upd: ConnectionUpdate): (r: Connection)
    ensures r.(status := c.status, similarityScore := c.similarityScore) == c
    ensures r.status == (if upd.status.Set? then upd.status.value else c.status)
    ensures r.similarityScore == (if upd.similarityScore.Set? then upd.similarityScore.value else c.similarityScore)
  {
    var withStatus := if upd.status.Set? then c.(status := upd.status.value) else c;
    if upd.similarityScore.Set? then withStatus.(similarityScore := upd.similarityScore.value) else withStatus
  }

  /**
   * The counters an acceptance bumps: the initiator's `connections_made` and
   * the target's `likes_received`, each by exactly one (both on the same row
   * when a user accepts their own request); nothing else changes.
   */
  function RecordAcceptance(users: map<int, User>, initiator: int, target: int): (r: map<int, User>)
    requires initiator in users && target in users
    ensures r.Keys == users.Keys
    ensures forall u | u in users && u != initiator && u != target :: r[u] == users[u]
    ensures r[initiator].connectionsMade == users[initiator].connectionsMade + 1
    ensures r[target].likesReceived == users[target].likesReceived + 1
    ensures initiator != target ==>
      r[initiator].likesReceived == users[initiator].likesReceived &&
      r[target].connectionsMade == users[target].connectionsMade
    ensures forall u | u in users ::
      r[u].(likesReceived := users[u].likesReceived, connectionsMade := users[u].connectionsMade) == users[u]
  {
    var bumped := users[initiator := users[initiator].(connectionsMade := users[initiator].connectionsMade + 1)];
    bumped[target := bumped[target].(likesReceived := bumped[target].likesReceived + 1)]
  }

  /**
   * There is no prior-state guard: accepting the same request twice bumps the
   * counters twice, a request to oneself included.
   */
  lemma ReacceptCountsTwice(users: map<int, User>, initiator: int, target: int)
    requires initiator in users && target in users
    ensures var twice := RecordAcceptance(RecordAcceptance(users, initiator, target), initiator, target);
      twice[initiator].connectionsMade == users[initiator].connectionsMade + 2 &&
      twice[target].likesReceived == users[target].likesReceived + 2
  {
    var once := RecordAcceptance(users, initiator, target);
    assert once[initiator].connectionsMade == users[initiator].connectionsMade + 1;
    assert once[target].likesReceived == users[target].likesReceived + 1;
  }

  class ConnectionStore {
    var users: map<int, User>
    var songs: seq<Song>
    var connections: map<int, Connection>
    var nextId: nat   // the next id the table hands out
    var clock: nat    // the store's clock, read for `created_at`

    ghost predicate Valid()
      reads this
    {
      UsersKeyed(users) && TableInvariant(connections, users, nextId, clock)
    }

    constructor (users: map<int, User>, songs: seq<Song>)
      requires UsersKeyed(users)
      ensures Valid()
      ensures this.users == users && this.songs == songs && connections == map[]
    {
      this.users := users;
      this.songs := songs;
      connections := map[];
      nextId := 0;
      clock := 0;
    }

    /**
     * `create_connection`: the target must exist (checked first), the ordered
     * pair must be new in any status; then one PENDING record is inserted,
     * stamped with the similarity score of the two users at this moment.
     * Neither a self-request nor the reverse direction is refused.
     */
    method CreateConnection(me: int, target: int, songId: Option<int>, message: Option<string>)
      returns (r: Result<Connection, Error>)
      requires Valid() && me in users
      modifies this
      ensures Valid()
      ensures users == old(users) && songs == old(songs)
      ensures target !in users ==> r == Failure(UserNotFound)
      ensures target in users && HasOrdered(old(connections), me, target) ==> r == Failure(ConnectionAlreadyExists)
      ensures target in users && !HasOrdered(old(connections), me, target) && !MessageFits(message) ==>
        r == Failure(MessageTooLong)
      ensures target in users && !HasOrdered(old(connections), me, target) && MessageFits(message) ==> r.Success?
      ensures r.Failure? ==> connections == old(connections) && nextId == old(nextId) && clock == old(clock)
      ensures r.Success? ==>
        && target in users
        && r.value.id !in old(connections)
        && connections == old(connections)[r.value.id := r.value]
        && r.value == Connection(r.value.id, me, target,
                                 Some(Similarity.CalculateSimilarityScore(users[me], users[target], songs)),
                                 Pending, songId, message, old(clock))
    {
      if target !in users {
        return Failure(UserNotFound);
      }
      if HasOrdered(connections, me, target) {
        return Failure(ConnectionAlreadyExists);
      }
      if !MessageFits(message) {
        return Failure(MessageTooLong);
      }
      var score := Similarity.CalculateSimilarityScore(users[me], users[target], songs);
      var c := Connection(nextId, me, target, Some(score), Pending, songId, message, clock);
      InsertKeepsInvariant(connections, users, nextId, clock, c);
      connections := connections[nextId := c];
      nextId := nextId + 1;
      clock := clock + 1;
      r := Success(c);
    }

    /**
     * `update_connection`: only the target sees the record (anyone else, or
     * an unknown id, gets "Connection not found" and nothing changes); the
     * supplied fields are assigned whatever the current status; a supplied
     * ACCEPTED status bumps the two counters.
     */
    method UpdateConnection(me: int, connectionId: int, upd: ConnectionUpdate)
      returns (r: Result<Connection, Error>)
      requires Valid() && me in users
      modifies this
      ensures Valid()
      ensures songs == old(songs) && nextId == old(nextId) && clock == old(clock)
      ensures !VisibleTo(old(connections), connectionId, me) ==>
        r == Failure(ConnectionNotFound) && connections == old(connections) && users == old(users)
      ensures VisibleTo(old(connections), connectionId, me) ==>
        && r == Success(ApplyUpdate(old(connections)[connectionId], upd))
        && connections == old(connections)[connectionId := r.value]
        && users == (if upd.status == Set(Accepted)
                     then RecordAcceptance(old(users), old(connections)[connectionId].userId, me)
                     else old(users))
    {
      if !VisibleTo(connections, connectionId, me) {
        return Failure(ConnectionNotFound);
      }
      var old_c := connections[connectionId];
      var c := old_c;
      if upd.status.Set? {
        c := c.(status := upd.status.value);
      }
      if upd.similarityScore.Set? {
        c := c.(similarityScore := upd.similarityScore.value);
      }
      assert c == ApplyUpdate(old_c, upd);
      var newUsers := users;
      if upd.status == Set(Accepted) {
        var initiator := c.userId;
        newUsers := newUsers[initiator := newUsers[initiator].(connectionsMade := newUsers[initiator].connectionsMade + 1)];
        newUsers := newUsers[me := newUsers[me].(likesReceived := newUsers[me].likesReceived + 1)];
        assert newUsers == RecordAcceptance(users, initiator, me);
      }
      ReplaceKeepsInvariant(connections, users, newUsers, nextId, clock, connectionId, c);
      connections := connections[connectionId := c];
      users := newUsers;
      r := Success(c);
    }
  }

  // ------------------------------------------------------------- listings

  predicate Involves(c: Connection, me: int, role: Role)
  {
    match role
    case Initiator => c.userId == me
    case Target => c.connectedUserId == me
    case EitherParty => c.userId == me || c.connectedUserId == me
  }

  /** The query filters: the caller's side and, when given, the status. */
  predicate Selected(c: Connection, me: int, role: Role, filter: Option<Status>)
  {
    Involves(c, me, role) && (filter == None || c.status == filter.value)
  }

  /** The records with an id below `bound` that pass the filters, newest first. */
  function Listing(conns: map<int, Connection>, bound: nat, me: int, role: Role, filter: Option<Status>)
    : (r: seq<Connection>)
    ensures forall c | c in r :: Selected(c, me, role, filter) && c in conns.Values
    ensures forall id | id in conns && 0 <= id < bound && Selected(conns[id], me, role, filter) :: conns[id] in r
    ensures |r| <= bound
  {
    if bound == 0 then []
    else
      var rest := Listing(conns, bound - 1, me, role, filter);
      var id := bound - 1;
      if id in conns && Selected(conns[id], me, role, filter) then [conns[id]] + rest else rest
  }

  /** `/connections/me`: the requests the caller sent, newest first. */
  function MyConnections(conns: map<int, Connection>, bound: nat, me: int, filter: Option<Status>)
    : (r: seq<Connection>)
    ensures forall c | c in r :: c.userId == me && (filter == None || c.status == filter.value) && c in conns.Values
    ensures forall id | id in conns && 0 <= id < bound && conns[id].userId == me
                        && (filter == None || conns[id].status == filter.value) :: conns[id] in r
  {
    var r := Listing(conns, bound, me, Initiator, filter);
    assert forall id | id in conns && 0 <= id < bound && conns[id].userId == me
                       && (filter == None || conns[id].status == filter.value) ::
             Selected(conns[id], me, Initiator, filter);
    r
  }

  /** `/connections/received`: the requests sent to the caller, newest first. */
  function ReceivedConnections(conns: map<int, Connection>, bound: nat, me: int, filter: Option<Status>)
    : (r: seq<Connection>)
    ensures forall c | c in r :: c.connectedUserId == me && (filter == None || c.status == filter.value) && c in conns.Values
    ensures forall id | id in conns && 0 <= id < bound && conns[id].connectedUserId == me
                        && (filter == None || conns[id].status == filter.value) :: conns[id] in r
  {
    var r := Listing(conns, bound, me, Target, filter);
    assert forall id | id in conns && 0 <= id < bound && conns[id].connectedUserId == me
                       && (filter == None || conns[id].status == filter.value) ::
             Selected(conns[id], me, Target, filter);
    r
  }

  lemma PrependDescending(x: Connection, rest: seq<Connection>)
    requires forall c | c in rest :: c.id < x.id
    requires forall i, j | 0 <= i < j < |rest| :: rest[i].id > rest[j].id
    ensures forall i, j | 0 <= i < j < |[x] + rest| :: ([x] + rest)[i].id > ([x] + rest)[j].id
  {
    var r := [x] + rest;
    forall i, j | 0 <= i < j < |r| ensures r[i].id > r[j].id {
      assert r[j] == rest[j - 1];
      if i > 0 {
        assert r[i] == rest[i - 1];
      }
    }
  }

  /** Every listed record is stored under its id, which lies below `bound`. */
  lemma {:induction false} ListingStored(conns: map<int, Connection>, bound: nat, me: int, role: Role, filter: Option<Status>)
    requires WellKeyed(conns)
    ensures forall c | c in Listing(conns, bound, me, role, filter) :: 0 <= c.id < bound && c.id in conns && conns[c.id] == c
  {
    if bound > 0 {
      ListingStored(conns, bound - 1, me, role, filter);
    }
  }

  /** The ids strictly decrease along a listing. */
  lemma {:induction false} ListingIdsDescending(conns: map<int, Connection>, bound: nat, me: int, role: Role, filter: Option<Status>)
    requires WellKeyed(conns)
    ensures forall i, j | 0 <= i < j < |Listing(conns, bound, me, role, filter)| ::
      Listing(conns, bound, me, role, filter)[i].id > Listing(conns, bound, me, role, filter)[j].id
  {
    if bound > 0 {
      var rest := Listing(conns, bound - 1, me, role, filter);
      ListingIdsDescending(conns, bound - 1, me, role, filter);
      ListingStored(conns, bound - 1, me, role, filter);
      var id := bound - 1;
      if id in conns && Selected(conns[id], me, role, filter) {
        assert conns[id].id == id;
        PrependDescending(conns[id], rest);
        assert Listing(conns, bound, me, role, filter) == [conns[id]] + rest;
      }
    }
  }

  /** Listings come newest first: `created_at` strictly decreases along them. */
  lemma ListingNewestFirst(conns: map<int, Connection>, bound: nat, me: int, role: Role, filter: Option<Status>)
    requires WellKeyed(conns) && CreatedInOrder(conns)
    ensures var r := Listing(conns, bound, me, role, filter);
      forall i, j | 0 <= i < j < |r| :: r[i].createdAt > r[j].createdAt
  {
    ListingStored(conns, bound, me, role, filter);
    ListingIdsDescending(conns, bound, me, role, filter);
    var r := Listing(conns, bound, me, role, filter);
    forall i, j | 0 <= i < j < |r| ensures r[i].createdAt > r[j].createdAt {
      assert r[i] in r && r[j] in r;
      assert conns[r[j].id] == r[j] && conns[r[i].id] == r[i];
    }
  }

  // ---------------------------------------------------------------- stats

  datatype ConnectionStats = ConnectionStats(
    totalConnections: nat,
    pendingSent: nat,
    pendingReceived: nat,
    likesReceived: nat,
    connectionsMade: nat)

  /** The SQL `count()` of the records that pass the filters. */
  function CountWhere(conns: map<int, Connection>, me: int, role: Role, status: Status): nat
  {
    |set id | id in conns && Selected(conns[id], me, role, Some(status))|
  }

  /** `get_connection_stats`: three counts over the table and the caller's two counters. */
  function Stats(conns: map<int, Connection>, me: User): (s: ConnectionStats)
    ensures s.likesReceived == me.likesReceived && s.connectionsMade == me.connectionsMade
  {
    ConnectionStats(
      CountWhere(conns, me.id, Initiator, Accepted),
      CountWhere(conns, me.id, Initiator, Pending),
      CountWhere(conns, me.id, Target, Pending),
      me.likesReceived,
      me.connectionsMade)
  }

  /** The ids below `bound` whose records pass the filters. */
  function IdsBelow(conns: map<int, Connection>, bound: nat, me: int, role: Role, filter: Option<Status>): set<int>
  {
    set id | id in conns && 0 <= id < bound && Selected(conns[id], me, role, filter)
  }

  lemma IdsBelowStep(conns: map<int, Connection>, bound: nat, me: int, role: Role, filter: Option<Status>)
    requires bound > 0
    ensures var id := bound - 1;
      IdsBelow(conns, bound, me, role, filter)
      == IdsBelow(conns, id, me, role, filter) + (if id in conns && Selected(conns[id], me, role, filter) then {id} else {})
    ensures bound - 1 !in IdsBelow(conns, bound - 1, me, role, filter)
  {
  }

  lemma {:induction false} ListingLength(conns: map<int, Connection>, bound: nat, me: int, role: Role, filter: Option<Status>)
    ensures |Listing(conns, bound, me, role, filter)| == |IdsBelow(conns, bound, me, role, filter)|
  {
    if bound > 0 {
      ListingLength(conns, bound - 1, me, role, filter);
      IdsBelowStep(conns, bound, me, role, filter);
    }
  }

  /**
   * The statistics agree with the listings: `total_connections` is the length
   * of `/me?status=accepted`, `pending_sent` of `/me?status=pending` and
   * `pending_received` of `/received?status=pending`.
   */
  lemma StatsMatchListings(conns: map<int, Connection>, bound: nat, me: User)
    requires forall id | id in conns :: 0 <= id < bound
    ensures Stats(conns, me).totalConnections == |MyConnections(conns, bound, me.id, Some(Accepted))|
    ensures Stats(conns, me).pendingSent == |MyConnections(conns, bound, me.id, Some(Pending))|
    ensures Stats(conns, me).pendingReceived == |ReceivedConnections(conns, bound, me.id, Some(Pending))|
  {
    ListingLength(conns, bound, me.id, Initiator, Some(Accepted));
    ListingLength(conns, bound, me.id, Initiator, Some(Pending));
    ListingLength(conns, bound, me.id, Target, Some(Pending));
    assert IdsBelow(conns, bound, me.id, Initiator, Some(Accepted))
        == (set id | id in conns && Selected(conns[id], me.id, Initiator, Some(Accepted)));
    assert IdsBelow(conns, bound, me.id, Initiator, Some(Pending))
        == (set id | id in conns && Selected(conns[id], me.id, Initiator, Some(Pending)));
    assert IdsBelow(conns, bound, me.id, Target, Some(Pending))
        == (set id | id in conns && Selected(conns[id], me.id, Target, Some(Pending)));
  }

  // ------------------------------------------------------------- scenarios

  function Ada(): User { User(1, "ada", ["pop"], ["Adele"], 0, 0) }
  function Bo(): User { User(2, "bo", ["pop", "rock"], [], 0, 0) }

  /** The duplicate check is per ordered pair: a repeat is refused, the reverse direction is not. */
  method DuplicateIsDirectional()
    returns (repeat: Result<Connection, Error>, reverse: Result<Connection, Error>)
    ensures repeat == Failure(ConnectionAlreadyExists)
    ensures reverse.Success? && reverse.value.userId == 2 && reverse.value.connectedUserId == 1
  {
    var store := new ConnectionStore(map[1 := Ada(), 2 := Bo()], []);
    var first := store.CreateConnection(1, 2, None, Some("hi"));
    var id := first.value.id;
    assert store.connections == map[id := first.value];
    assert HasOrdered(store.connections, 1, 2) by {
      assert store.connections[id].userId == 1 && store.connections[id].connectedUserId == 2;
    }
    repeat := store.CreateConnection(1, 2, None, None);
    assert !HasOrdered(store.connections, 2, 1);
    reverse := store.CreateConnection(2, 1, None, None);
  }

  /**
   * Only the target can update a request, and accepting the same request
   * twice counts it twice.
   */
  method AcceptTwice()
    returns (byInitiator: Result<Connection, Error>, made: nat, liked: nat)
    ensures byInitiator == Failure(ConnectionNotFound)
    ensures made == 2 && liked == 2
  {
    var store := new ConnectionStore(map[1 := Ada(), 2 := Bo()], []);
    var first := store.CreateConnection(1, 2, None, None);
    var id := first.value.id;
    assert store.connections == map[id := first.value];
    var accept := ConnectionUpdate(Set(Accepted), Unset);
    byInitiator := store.UpdateConnection(1, id, accept);
    assert store.users == map[1 := Ada(), 2 := Bo()];
    var once := store.UpdateConnection(2, id, accept);
    assert store.users[1].connectionsMade == 1 && store.users[2].likesReceived == 1;
    assert store.connections[id].userId == 1 && store.connections[id].connectedUserId == 2;
    var twice := store.UpdateConnection(2, id, accept);
    made := store.users[1].connectionsMade;
    liked := store.users[2].likesReceived;
  }
}
