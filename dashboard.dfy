/**
 * Graph building in the D3 dashboard
 * (frontend/WIC_Project_Teams_InTune/dashboard.js): turning rows of the
 * user-similarity CSV into nodes and links, and the node selection set.
 * Rendering, layout and the force simulation are not part of this model.
 */
module Dashboard {
  import opened Wrappers

  /** One CSV row: two user ids and the similarity parsed from its text. */
  datatype Row = Row(user1: string, user2: string, similarity: real)

  datatype Node = Node(id: string, name: string, group: int, value: int, connectionCount: nat)

  datatype Link = Link(source: string, target: string, value: real, similarity: real)

  // ---------------------------------------------------- specification

  function AddIfNew(order: seq<string>, u: string): seq<string>
  {
    if u in order then order else order + [u]
  }

  /** The distinct users in the order a JavaScript `Set` sees them: `user_1`, then `user_2`, row by row. */
  function FirstSeen(rows: seq<Row>): seq<string>
  {
    if rows == [] then []
    else
      var last := rows[|rows| - 1];
      AddIfNew(AddIfNew(FirstSeen(rows[..|rows| - 1]), last.user1), last.user2)
  }

  predicate Distinct(s: seq<string>)
  {
    forall i, j | 0 <= i < j < |s| :: s[i] != s[j]
  }

  /** `u` is an endpoint of some row. */
  predicate Appears(rows: seq<Row>, u: string)
  {
    exists i | 0 <= i < |rows| :: rows[i].user1 == u || rows[i].user2 == u
  }

  /** `((groupCounter - 1) % 4) + 1`: the colour group of the `counter`-th node (from 1). */
  function GroupOf(counter: nat): (g: int)
    requires counter >= 1
    ensures 1 <= g <= 4
    ensures g == ((counter - 1) % 4) + 1
  {
    ((counter - 1) % 4) + 1
  }

  /** The number of positive rows with `u` as an endpoint; a row from `u` to `u` counts twice. */
  function Degree(rows: seq<Row>, u: string): nat
  {
    if rows == [] then 0
    else
      var last := rows[|rows| - 1];
      Degree(rows[..|rows| - 1], u)
        + (if last.similarity > 0.0 then (if last.user1 == u then 1 else 0) + (if last.user2 == u then 1 else 0) else 0)
  }

  function LinkOf(r: Row): Link
  {
    Link(r.user1, r.user2, r.similarity * 10.0, r.similarity)
  }

  /** One link per row with a positive similarity, in row order. */
  function PositiveLinks(rows: seq<Row>): (r: seq<Link>)
    ensures forall l | l in r :: l.similarity > 0.0
    ensures |r| <= |rows|
  {
    if rows == [] then []
    else
      var last := rows[|rows| - 1];
      PositiveLinks(rows[..|rows| - 1]) + (if last.similarity > 0.0 then [LinkOf(last)] else [])
  }

  /** `8 + Math.min(connectionCount * 2, 20)`. */
  function NodeValue(count: nat): (v: int)
    ensures 8 <= v <= 28
    ensures count >= 10 ==> v == 28
  {
    8 + Min(count * 2, 20)
  }

  /** The nodes built from the rows, one per distinct user, before filtering. */
  function BuiltNodes(rows: seq<Row>): (r: seq<Node>)
    ensures |r| == |FirstSeen(rows)|
    ensures forall n | n in r :: 1 <= n.group <= 4 && 8 <= n.value <= 28
  {
    var order := FirstSeen(rows);
    seq(|order|, k requires 0 <= k < |order| =>
      Node(order[k], order[k], GroupOf(k + 1), NodeValue(Degree(rows, order[k])), Degree(rows, order[k])))
  }

  /** The ids some link touches. */
  function Endpoints(links: seq<Link>): set<string>
  {
    (set l | l in links :: l.source) + (set l | l in links :: l.target)
  }

  function NodeIds(nodes: seq<Node>): set<string>
  {
    set n | n in nodes :: n.id
  }

  /** `nodes.filter(node => ids.has(node.id))`. */
  function KeepNodes(nodes: seq<Node>, ids: set<string>): (r: seq<Node>)
    ensures forall n | n in r :: n in nodes && n.id in ids
    ensures forall n | n in nodes && n.id in ids :: n in r
  {
    if nodes == [] then []
    else
      var rest := KeepNodes(nodes[1..], ids);
      if nodes[0].id in ids then [nodes[0]] + rest else rest
  }

  /** `links.filter(link => ids.has(source) && ids.has(target))`. */
  function KeepLinks(links: seq<Link>, ids: set<string>): (r: seq<Link>)
    ensures forall l | l in r :: l in links && l.source in ids && l.target in ids
    ensures forall l | l in links && l.source in ids && l.target in ids :: l in r
  {
    if links == [] then []
    else
      var rest := KeepLinks(links[1..], ids);
      if links[0].source in ids && links[0].target in ids then [links[0]] + rest else rest
  }

  /**
   * What `processData` leaves in `graphData`: the new positive links are
   * appended to the links already there, nodes no link touches are dropped,
   * then links whose endpoints are not both kept are dropped.
   */
  function Processed(prior: seq<Link>, rows: seq<Row>): (r: (seq<Node>, seq<Link>))
    ensures forall n | n in r.0 :: n in BuiltNodes(rows) && n.id in Endpoints(prior + PositiveLinks(rows))
    ensures forall n | n in BuiltNodes(rows) && n.id in Endpoints(prior + PositiveLinks(rows)) :: n in r.0
    ensures forall l | l in r.1 :: l in prior + PositiveLinks(rows) && l.source in NodeIds(r.0) && l.target in NodeIds(r.0)
    ensures forall l | l in prior + PositiveLinks(rows) && l.source in NodeIds(r.0) && l.target in NodeIds(r.0) :: l in r.1
  {
    var all := prior + PositiveLinks(rows);
    var kept := KeepNodes(BuiltNodes(rows), Endpoints(all));
    (kept, KeepLinks(all, NodeIds(kept)))
  }

  /** The selection after toggling `id`. */
  function Toggled(selected: set<string>, id: string): (r: set<string>)
    ensures id in r <==> id !in selected
    ensures forall x | x != id :: x in r <==> x in selected
  {
    if id in selected then selected - {id} else selected + {id}
  }

  // --------------------------------------------------------- properties

  /** Each distinct user appearing in a row gets exactly one place in the order. */
  lemma {:induction false} FirstSeenUsers(rows: seq<Row>)
    ensures Distinct(FirstSeen(rows))
    ensures forall u :: u in FirstSeen(rows) <==> Appears(rows, u)
  {
    if rows != [] {
      var init := rows[..|rows| - 1];
      var last := rows[|rows| - 1];
      FirstSeenUsers(init);
      forall u ensures u in FirstSeen(rows) <==> Appears(rows, u) {
        if Appears(init, u) {
          var i :| 0 <= i < |init| && (init[i].user1 == u || init[i].user2 == u);
          assert rows[i] == init[i];
        }
        if Appears(rows, u) && !(last.user1 == u || last.user2 == u) {
          var i :| 0 <= i < |rows| && (rows[i].user1 == u || rows[i].user2 == u);
          assert i < |init| && init[i] == rows[i];
        }
      }
    }
  }

  /** Every node gets a colour group in 1..4, cycling with its first-seen position. */
  lemma GroupsCycle(rows: seq<Row>, k: nat)
    requires k < |BuiltNodes(rows)|
    ensures BuiltNodes(rows)[k].group == (k % 4) + 1
    ensures k >= 4 ==> BuiltNodes(rows)[k].group == BuiltNodes(rows)[k - 4].group
  {
    var built := BuiltNodes(rows);
    assert built[k].group == GroupOf(k + 1);
    if k >= 4 {
      assert built[k - 4].group == GroupOf(k - 3);
      assert (k - 4) % 4 == k % 4;
    }
  }

  /** Which rows to count: the positive ones, or those also starting or ending at a user. */
  datatype RowKind = Positive | PositiveFrom(u: string) | PositiveTo(u: string)

  predicate IsKind(r: Row, k: RowKind)
  {
    r.similarity > 0.0 &&
    match k
    case Positive => true
    case PositiveFrom(u) => r.user1 == u
    case PositiveTo(u) => r.user2 == u
  }

  /** The indices of the rows of kind `k`. */
  function RowsWhere(rows: seq<Row>, k: RowKind): set<int>
  {
    set i | 0 <= i < |rows| && IsKind(rows[i], k)
  }

  lemma RowsWhereStep(rows: seq<Row>, k: RowKind)
    requires rows != []
    ensures var n := |rows| - 1;
      RowsWhere(rows, k) == RowsWhere(rows[..n], k) + (if IsKind(rows[n], k) then {n} else {})
  {
    var n := |rows| - 1;
    assert forall i | 0 <= i < n :: rows[..n][i] == rows[i];
  }

  /**
   * A node's `connectionCount` counts the positive rows it is an endpoint of,
   * once as `user_1` and once as `user_2`.
   */
  lemma {:induction false} DegreeCountsRows(rows: seq<Row>, u: string)
    ensures Degree(rows, u)
         == |RowsWhere(rows, PositiveFrom(u))| + |RowsWhere(rows, PositiveTo(u))|
  {
    if rows != [] {
      var n := |rows| - 1;
      DegreeCountsRows(rows[..n], u);
      RowsWhereStep(rows, PositiveFrom(u));
      RowsWhereStep(rows, PositiveTo(u));
    }
  }

  /** Exactly one link per row with a positive similarity. */
  lemma {:induction false} OneLinkPerPositiveRow(rows: seq<Row>)
    ensures |PositiveLinks(rows)| == |RowsWhere(rows, Positive)|
  {
    if rows != [] {
      var n := |rows| - 1;
      OneLinkPerPositiveRow(rows[..n]);
      RowsWhereStep(rows, Positive);
    }
  }

  /** A user is touched by a new link exactly when its count is positive. */
  lemma {:induction false} EndpointIffDegree(rows: seq<Row>, u: string)
    ensures u in Endpoints(PositiveLinks(rows)) <==> Degree(rows, u) > 0
  {
    if rows != [] {
      var init := rows[..|rows| - 1];
      var last := rows[|rows| - 1];
      EndpointIffDegree(init, u);
      var extra := if last.similarity > 0.0 then [LinkOf(last)] else [];
      EndpointsAppend(PositiveLinks(init), extra);
      if last.similarity > 0.0 {
        assert Endpoints(extra) == {last.user1, last.user2};
      }
    }
  }

  lemma EndpointsAppend(a: seq<Link>, b: seq<Link>)
    ensures Endpoints(a + b) == Endpoints(a) + Endpoints(b)
  {
    assert forall l :: l in a + b <==> l in a || l in b;
  }

  /** After filtering, every link's endpoints are shown as nodes. */
  lemma LinksStayClosed(prior: seq<Link>, rows: seq<Row>)
    ensures var (nodes, links) := Processed(prior, rows);
      forall l | l in links :: l.source in NodeIds(nodes) && l.target in NodeIds(nodes)
  {
  }

  /** Ids of the nodes built from the rows: the users seen in them. */
  lemma BuiltNodeIds(rows: seq<Row>)
    ensures forall n | n in BuiltNodes(rows) :: n.id in FirstSeen(rows) && n.connectionCount == Degree(rows, n.id)
    ensures forall u | u in FirstSeen(rows) :: exists n | n in BuiltNodes(rows) :: n.id == u
  {
    var order := FirstSeen(rows);
    var built := BuiltNodes(rows);
    forall u | u in order ensures exists n | n in built :: n.id == u {
      var k :| 0 <= k < |order| && order[k] == u;
      assert built[k] in built;
    }
  }

  /** A built node is touched by a new link exactly when its count is positive. */
  lemma KeptIffPositive(rows: seq<Row>)
    ensures forall n | n in BuiltNodes(rows) :: n.id in Endpoints(PositiveLinks(rows)) <==> n.connectionCount > 0
  {
    BuiltNodeIds(rows);
    forall n | n in BuiltNodes(rows)
      ensures n.id in Endpoints(PositiveLinks(rows)) <==> n.connectionCount > 0
    {
      EndpointIffDegree(rows, n.id);
    }
  }

  /** Both endpoints of every new link are users with a built node. */
  lemma LinkEndsHaveNodes(rows: seq<Row>, l: Link)
    requires l in PositiveLinks(rows)
    ensures exists n | n in BuiltNodes(rows) :: n.id == l.source
    ensures exists n | n in BuiltNodes(rows) :: n.id == l.target
  {
    var links := PositiveLinks(rows);
    var i :| 0 <= i < |links| && links[i] == l;
    PositiveLinkFromRow(rows, i);
    var row :| row in rows && l == LinkOf(row);
    assert Appears(rows, l.source) && Appears(rows, l.target) by {
      var j :| 0 <= j < |rows| && rows[j] == row;
    }
    FirstSeenUsers(rows);
    BuiltNodeIds(rows);
  }

  /**
   * On the first load (no links yet), the kept nodes are exactly the users
   * with a positive `connectionCount`, and no kept node is left without a
   * kept link.
   */
  lemma FirstLoadHasNoIsolatedNodes(rows: seq<Row>)
    ensures var (nodes, links) := Processed([], rows);
      && (forall n | n in nodes :: n.connectionCount > 0)
      && (forall n | n in BuiltNodes(rows) && n.connectionCount > 0 :: n in nodes)
      && (forall n | n in nodes :: exists l | l in links :: l.source == n.id || l.target == n.id)
  {
    var all := PositiveLinks(rows);
    assert [] + all == all;
    var built := BuiltNodes(rows);
    var nodes := KeepNodes(built, Endpoints(all));
    var links := KeepLinks(all, NodeIds(nodes));
    assert Processed([], rows) == (nodes, links);
    KeptIffPositive(rows);
    forall n | n in nodes
      ensures exists l | l in links :: l.source == n.id || l.target == n.id
    {
      var l :| l in all && (l.source == n.id || l.target == n.id);
      LinkEndsHaveNodes(rows, l);
      var ns :| ns in built && ns.id == l.source;
      var nt :| nt in built && nt.id == l.target;
      assert ns in nodes && nt in nodes;
      assert l.source in NodeIds(nodes) && l.target in NodeIds(nodes);
    }
  }

  lemma {:induction false} PositiveLinkFromRow(rows: seq<Row>, i: nat)
    requires i < |PositiveLinks(rows)|
    ensures exists row | row in rows :: PositiveLinks(rows)[i] == LinkOf(row)
  {
    var init := rows[..|rows| - 1];
    var last := rows[|rows| - 1];
    if i < |PositiveLinks(init)| {
      PositiveLinkFromRow(init, i);
      var row :| row in init && PositiveLinks(init)[i] == LinkOf(row);
      assert row in rows;
    } else {
      assert PositiveLinks(rows)[i] == LinkOf(last);
    }
  }

  /** Toggling twice restores the selection. */
  lemma ToggleTwice(selected: set<string>, id: string)
    ensures Toggled(Toggled(selected, id), id) == selected
  {
  }

  lemma FirstSeenStep(rows: seq<Row>, i: nat)
    requires i < |rows|
    ensures FirstSeen(rows[..i + 1]) == AddIfNew(AddIfNew(FirstSeen(rows[..i]), rows[i].user1), rows[i].user2)
  {
    assert rows[..i + 1][..i] == rows[..i];
  }

  lemma RowStep(rows: seq<Row>, i: nat)
    requires i < |rows|
    ensures PositiveLinks(rows[..i + 1])
         == PositiveLinks(rows[..i]) + (if rows[i].similarity > 0.0 then [LinkOf(rows[i])] else [])
    ensures forall u :: (Degree(rows[..i + 1], u) == Degree(rows[..i], u) +
      (if rows[i].similarity > 0.0
       then (if rows[i].user1 == u then 1 else 0) + (if rows[i].user2 == u then 1 else 0)
       else 0))
  {
    assert rows[..i + 1][..i] == rows[..i];
  }

  // ------------------------------------------------------------ the page

  /** The first pass: the users of the rows, each once, in first-seen order. */
  method CollectUsers(rows: seq<Row>) returns (userSet: seq<string>)
    ensures userSet == FirstSeen(rows)
    ensures Distinct(userSet)
  {
    userSet := [];
    var i := 0;
    while i < |rows|
      invariant 0 <= i <= |rows|
      invariant userSet == FirstSeen(rows[..i])
    {
      FirstSeenStep(rows, i);
      if rows[i].user1 !in userSet {
        userSet := userSet + [rows[i].user1];
      }
      if rows[i].user2 !in userSet {
        userSet := userSet + [rows[i].user2];
      }
      i := i + 1;
    }
    assert rows[..|rows|] == rows;
    FirstSeenUsers(rows);
  }

  /** One node per user, colour groups cycling through 1..4, no connections yet. */
  method CreateNodes(userSet: seq<string>) returns (nodeMap: map<string, Node>)
    requires Distinct(userSet)
    ensures nodeMap.Keys == set j | 0 <= j < |userSet| :: userSet[j]
    ensures forall j | 0 <= j < |userSet| :: nodeMap[userSet[j]] == Node(userSet[j], userSet[j], GroupOf(j + 1), 10, 0)
    ensures forall u | u in nodeMap :: nodeMap[u].connectionCount == 0
  {
    nodeMap := map[];
    var groupCounter := 1;
    var k := 0;
    while k < |userSet|
      invariant 0 <= k <= |userSet|
      invariant groupCounter == k + 1
      invariant nodeMap.Keys == set j | 0 <= j < k :: userSet[j]
      invariant forall j | 0 <= j < k :: nodeMap[userSet[j]] == Node(userSet[j], userSet[j], GroupOf(j + 1), 10, 0)
      invariant forall u | u in nodeMap :: nodeMap[u].connectionCount == 0
    {
      var group := ((groupCounter - 1) % 4) + 1;
      groupCounter := groupCounter + 1;
      nodeMap := nodeMap[userSet[k] := Node(userSet[k], userSet[k], group, 10, 0)];
      k := k + 1;
    }
  }

  /** `if (nodeMap.has(u)) nodeMap.get(u).connectionCount++`. */
  function Bump(m: map<string, Node>, u: string): map<string, Node>
  {
    if u in m then m[u := m[u].(connectionCount := m[u].connectionCount + 1)] else m
  }

  /** Every node of `m` is the one of `nodeMap` with its count over `rows`. */
  predicate CountsAre(m: map<string, Node>, nodeMap: map<string, Node>, rows: seq<Row>)
  {
    m.Keys == nodeMap.Keys &&
    forall u | u in m :: m[u] == nodeMap[u].(connectionCount := Degree(rows, u))
  }

  /** Counting one more row keeps the counts equal to the degrees. */
  lemma CountRowStep(m: map<string, Node>, nodeMap: map<string, Node>, rows: seq<Row>, i: nat)
    requires i < |rows| && CountsAre(m, nodeMap, rows[..i])
    ensures CountsAre(if rows[i].similarity > 0.0 then Bump(Bump(m, rows[i].user1), rows[i].user2) else m,
                      nodeMap, rows[..i + 1])
  {
    RowStep(rows, i);
  }

  /**
   * The second pass: a link appended per positive row, and both endpoints'
   * counts incremented.
   */
  method CountLinks(rows: seq<Row>, nodeMap: map<string, Node>, links: seq<Link>)
    returns (counted: map<string, Node>, linked: seq<Link>)
    requires forall u | u in nodeMap :: nodeMap[u].connectionCount == 0
    ensures linked == links + PositiveLinks(rows)
    ensures CountsAre(counted, nodeMap, rows)
  {
    counted, linked := nodeMap, links;
    var i := 0;
    while i < |rows|
      invariant 0 <= i <= |rows|
      invariant linked == links + PositiveLinks(rows[..i])
      invariant CountsAre(counted, nodeMap, rows[..i])
    {
      var row := rows[i];
      CountRowStep(counted, nodeMap, rows, i);
      RowStep(rows, i);
      if row.similarity > 0.0 {
        counted := Bump(counted, row.user1);
        counted := Bump(counted, row.user2);
        linked := linked + [Link(row.user1, row.user2, row.similarity * 10.0, row.similarity)];
      }
      i := i + 1;
    }
    assert rows[..i] == rows;
  }

  /** Node size from the connection count, for every node, visited in insertion order. */
  method SizeNodes(userSet: seq<string>, nodeMap: map<string, Node>) returns (sized: map<string, Node>)
    requires nodeMap.Keys == set j | 0 <= j < |userSet| :: userSet[j]
    ensures sized.Keys == nodeMap.Keys
    ensures forall u | u in sized :: sized[u] == nodeMap[u].(value := NodeValue(nodeMap[u].connectionCount))
  {
    sized := nodeMap;
    var k := 0;
    while k < |userSet|
      invariant 0 <= k <= |userSet|
      invariant sized.Keys == nodeMap.Keys
      invariant forall u | u in sized ::
        sized[u] == if u in userSet[..k] then nodeMap[u].(value := NodeValue(nodeMap[u].connectionCount)) else nodeMap[u]
    {
      var u := userSet[k];
      sized := sized[u := sized[u].(value := 8 + Min(sized[u].connectionCount * 2, 20))];
      assert userSet[..k + 1] == userSet[..k] + [u];
      k := k + 1;
    }
    assert userSet[..k] == userSet;
  }

  /** The ids every link touches. */
  method ConnectedIds(links: seq<Link>) returns (ids: set<string>)
    ensures ids == Endpoints(links)
  {
    ids := {};
    var i := 0;
    while i < |links|
      invariant 0 <= i <= |links|
      invariant ids == Endpoints(links[..i])
    {
      EndpointsAppend(links[..i], [links[i]]);
      assert links[..i + 1] == links[..i] + [links[i]];
      ids := ids + {links[i].source, links[i].target};
      i := i + 1;
    }
    assert links[..i] == links;
  }

  /** The map's values in the order their keys were inserted. */
  method NodesInOrder(userSet: seq<string>, nodeMap: map<string, Node>) returns (nodes: seq<Node>)
    requires forall j | 0 <= j < |userSet| :: userSet[j] in nodeMap
    ensures |nodes| == |userSet|
    ensures forall j | 0 <= j < |userSet| :: nodes[j] == nodeMap[userSet[j]]
  {
    nodes := [];
    var k := 0;
    while k < |userSet|
      invariant 0 <= k <= |userSet|
      invariant |nodes| == k
      invariant forall j | 0 <= j < k :: nodes[j] == nodeMap[userSet[j]]
    {
      nodes := nodes + [nodeMap[userSet[k]]];
      k := k + 1;
    }
  }

  /** The three passes over the node map build exactly `BuiltNodes(rows)`. */
  lemma NodesBuilt(rows: seq<Row>, userSet: seq<string>, created: map<string, Node>,
                   counted: map<string, Node>, sized: map<string, Node>, nodes: seq<Node>)
    requires userSet == FirstSeen(rows)
    requires created.Keys == set j | 0 <= j < |userSet| :: userSet[j]
    requires forall j | 0 <= j < |userSet| :: created[userSet[j]] == Node(userSet[j], userSet[j], GroupOf(j + 1), 10, 0)
    requires CountsAre(counted, created, rows)
    requires sized.Keys == counted.Keys
    requires forall u | u in sized :: sized[u] == counted[u].(value := NodeValue(counted[u].connectionCount))
    requires |nodes| == |userSet|
    requires forall j | 0 <= j < |userSet| :: nodes[j] == sized[userSet[j]]
    ensures nodes == BuiltNodes(rows)
  {
    var built := BuiltNodes(rows);
    forall j | 0 <= j < |userSet| ensures nodes[j] == built[j] {
      var u := userSet[j];
      assert u in created.Keys;
      var d := Degree(rows, u);
      assert created[u] == Node(u, u, GroupOf(j + 1), 10, 0);
      assert counted[u] == Node(u, u, GroupOf(j + 1), 10, d);
      assert sized[u] == Node(u, u, GroupOf(j + 1), NodeValue(d), d);
      assert built[j] == Node(u, u, GroupOf(j + 1), NodeValue(d), d);
    }
  }

  /**
   * The node passes of `processData`: collect the users, create their nodes,
   * count the positive rows (appending their links), size the nodes, and
   * read the nodes back in insertion order.
   */
  method BuildNodes(rows: seq<Row>, links: seq<Link>) returns (nodes: seq<Node>, linked: seq<Link>)
    ensures nodes == BuiltNodes(rows)
    ensures linked == links + PositiveLinks(rows)
  {
    var userSet := CollectUsers(rows);
    var created := CreateNodes(userSet);
    var counted;
    counted, linked := CountLinks(rows, created, links);
    var sized := SizeNodes(userSet, counted);

    // `Array.from(nodeMap.values())`: insertion order.
    nodes := NodesInOrder(userSet, sized);
    NodesBuilt(rows, userSet, created, counted, sized, nodes);
  }

  /** The page's `graphData` and `selectedNodes` globals. */
  class Graph {
    var nodes: seq<Node>
    var links: seq<Link>
    var selectedNodes: set<string>

    constructor ()
      ensures nodes == [] && links == [] && selectedNodes == {}
    {
      nodes := [];
      links := [];
      selectedNodes := {};
    }

    /** `processData`. */
    method ProcessData(rows: seq<Row>)
      modifies this
      ensures (nodes, links) == Processed(old(links), rows)
      ensures selectedNodes == old(selectedNodes)
    {
      nodes, links := BuildNodes(rows, links);

      // Keep only the users some link touches, then the links between them.
      var connectedNodeIds := ConnectedIds(links);
      nodes := KeepNodes(nodes, connectedNodeIds);
      var nodeIds := NodeIds(nodes);
      links := KeepLinks(links, nodeIds);
    }

    /** `toggleNodeSelection`. */
    method ToggleNodeSelection(nodeId: string)
      modifies this
      ensures selectedNodes == Toggled(old(selectedNodes), nodeId)
      ensures nodes == old(nodes) && links == old(links)
    {
      if nodeId in selectedNodes {
        selectedNodes := selectedNodes - {nodeId};
      } else {
        selectedNodes := selectedNodes + {nodeId};
      }
    }
  }
}
