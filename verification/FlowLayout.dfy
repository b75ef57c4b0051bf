/**
  `spreadCompactFlowNodes`: nodes of the scenario editor that would overlap are pushed
  down until every two nodes in one lane are a full step apart.
*/
module FlowLayout {
  import opened Collections

  /** An editor node; `rest` stands for everything the layout carries along untouched. */
  datatype Node = Node(id: string, x: real, y: real, rest: string)

  const MINIMUM_VERTICAL_STEP := 128.0
  const OVERLAPPING_LANE_WIDTH := 250.0

  predicate SharesLane(a: Node, b: Node) {
    -OVERLAPPING_LANE_WIDTH < a.x - b.x < OVERLAPPING_LANE_WIDTH
  }

  /** Less than 250 apart horizontally. */
  predicate InOneLane(a: Node, b: Node) {
    -250.0 < a.x - b.x < 250.0
  }

  predicate DistinctIds(nodes: seq<Node>) {
    forall i, j :: 0 <= i < j < |nodes| ==> nodes[i].id != nodes[j].id
  }

  predicate Apart(a: Node, b: Node) {
    InOneLane(a, b) ==> b.y - a.y >= 128.0 || a.y - b.y >= 128.0
  }

  predicate Separated(nodes: seq<Node>) {
    forall i, j :: 0 <= i < j < |nodes| ==> Apart(nodes[i], nodes[j])
  }

  // --- The stable sort by height, then by horizontal position ---

  predicate NotAfter(a: Node, b: Node) {
    a.y < b.y || (a.y == b.y && a.x <= b.x)
  }

  predicate Ascending(s: seq<Node>) {
    forall i, j :: 0 <= i < j < |s| ==> NotAfter(s[i], s[j])
  }

  function Insert(n: Node, s: seq<Node>): seq<Node> {
    if s == [] || NotAfter(n, s[0]) then [n] + s else [s[0]] + Insert(n, s[1..])
  }

  function Sort(s: seq<Node>): seq<Node> {
    if s == [] then [] else Insert(s[0], Sort(s[1..]))
  }

  /** Node i is handled before node j: it is higher up, or level with it and listed first. */
  predicate Precedes(nodes: seq<Node>, i: nat, j: nat)
    requires i < |nodes| && j < |nodes|
  {
    var a, b := nodes[i], nodes[j];
    a.y < b.y || (a.y == b.y && a.x < b.x) || (a.y == b.y && a.x == b.x && i < j)
  }

  /** The place at which an element is inserted: after everything that must stay ahead of it. */
  lemma {:induction false} InsertPlace(n: Node, s: seq<Node>) returns (k: nat)
    requires Ascending(s)
    ensures k <= |s| && Insert(n, s) == s[..k] + [n] + s[k..]
    ensures forall i :: 0 <= i < k ==> !NotAfter(n, s[i])
    ensures forall i :: k <= i < |s| ==> NotAfter(n, s[i])
  {
    if s == [] || NotAfter(n, s[0]) {
      k := 0;
    } else {
      var rest := InsertPlace(n, s[1..]);
      k := rest + 1;
      assert s[..k] == [s[0]] + s[1..][..rest];
      forall i | k <= i < |s| ensures NotAfter(n, s[i]) {
        assert s[i] == s[1..][i - 1];
      }
    }
  }

  /** Positions in the sorted list: `order[a]` is the input index of the a-th sorted node. */
  ghost predicate IsOrder(nodes: seq<Node>, order: seq<nat>) {
    && |order| == |nodes|
    && (forall a :: 0 <= a < |order| ==> order[a] < |nodes|)
    && (forall i :: 0 <= i < |nodes| ==> i in order)
    && (forall a, b :: 0 <= a < b < |order| ==> Precedes(nodes, order[a], order[b]))
  }

  /** Where an input node ends up in the sorted list. */
  lemma Rank(nodes: seq<Node>, order: seq<nat>, i: nat) returns (a: nat)
    requires IsOrder(nodes, order) && i < |nodes|
    ensures a < |order| && order[a] == i
  {
    assert i in order;
    a :| 0 <= a < |order| && order[a] == i;
  }

  lemma RankOrder(nodes: seq<Node>, order: seq<nat>, a: nat, b: nat)
    requires IsOrder(nodes, order) && a < |order| && b < |order|
    requires Precedes(nodes, order[a], order[b])
    ensures a < b
  {
  }

  function Extended(inner: seq<nat>, k: nat): (r: seq<nat>)
    requires k <= |inner|
    ensures |r| == |inner| + 1 && r[k] == 0
    ensures forall a :: 0 <= a < k ==> r[a] == inner[a] + 1
    ensures forall a :: k < a < |r| ==> r[a] == inner[a - 1] + 1
  {
    seq(|inner| + 1, a requires 0 <= a < |inner| + 1 =>
      if a < k then inner[a] + 1 else if a == k then 0 else inner[a - 1] + 1)
  }

  lemma ExtendedCovers(nodes: seq<Node>, inner: seq<nat>, k: nat, i: nat)
    requires nodes != [] && IsOrder(nodes[1..], inner) && k <= |inner| && i < |nodes|
    ensures i in Extended(inner, k)
  {
    var order := Extended(inner, k);
    if i == 0 {
      assert order[k] == i;
    } else {
      var a := Rank(nodes[1..], inner, i - 1);
      assert order[if a < k then a else a + 1] == i;
    }
  }

  lemma ExtendedPrecedes(nodes: seq<Node>, inner: seq<nat>, k: nat, a: nat, b: nat)
    requires nodes != [] && IsOrder(nodes[1..], inner) && k <= |inner| && a < b <= |inner|
    requires forall c :: 0 <= c < k ==> !NotAfter(nodes[0], nodes[1..][inner[c]])
    requires forall c :: k <= c < |inner| ==> NotAfter(nodes[0], nodes[1..][inner[c]])
    ensures Precedes(nodes, Extended(inner, k)[a], Extended(inner, k)[b])
  {
    if a == k {
      assert NotAfter(nodes[0], nodes[1..][inner[b - 1]]);
    } else if b == k {
      assert !NotAfter(nodes[0], nodes[1..][inner[a]]);
    } else {
      assert Precedes(nodes[1..], inner[if a < k then a else a - 1], inner[if b < k then b else b - 1]);
    }
  }

  lemma ExtendedIsOrder(nodes: seq<Node>, inner: seq<nat>, k: nat)
    requires nodes != [] && IsOrder(nodes[1..], inner) && k <= |inner|
    requires forall c :: 0 <= c < k ==> !NotAfter(nodes[0], nodes[1..][inner[c]])
    requires forall c :: k <= c < |inner| ==> NotAfter(nodes[0], nodes[1..][inner[c]])
    ensures IsOrder(nodes, Extended(inner, k))
  {
    var order := Extended(inner, k);
    forall i | 0 <= i < |nodes| ensures i in order {
      ExtendedCovers(nodes, inner, k, i);
    }
    forall a, b | 0 <= a < b < |order| ensures Precedes(nodes, order[a], order[b]) {
      ExtendedPrecedes(nodes, inner, k, a, b);
    }
  }

  lemma InsertKeepsAscending(n: Node, s: seq<Node>, k: nat)
    requires Ascending(s) && k <= |s|
    requires forall i :: 0 <= i < k ==> !NotAfter(n, s[i])
    requires forall i :: k <= i < |s| ==> NotAfter(n, s[i])
    ensures Ascending(s[..k] + [n] + s[k..])
  {
  }

  /** The sort is stable: the order it puts nodes in is exactly `Precedes`. */
  lemma {:induction false} SortOrder(nodes: seq<Node>) returns (order: seq<nat>)
    ensures IsOrder(nodes, order) && Ascending(Sort(nodes)) && |Sort(nodes)| == |nodes|
    ensures forall a :: 0 <= a < |order| ==> Sort(nodes)[a] == nodes[order[a]]
  {
    if nodes == [] {
      order := [];
    } else {
      var sorted := Sort(nodes[1..]);
      var inner := SortOrder(nodes[1..]);
      var k := InsertPlace(nodes[0], sorted);
      InsertKeepsAscending(nodes[0], sorted, k);
      ExtendedIsOrder(nodes, inner, k);
      order := Extended(inner, k);
    }
  }

  // --- Placing the nodes one by one ---

  /** One turn of the inner loop: clear `previous` if it shares the lane. */
  function Clear(n: Node, y: real, previous: Node): real {
    if SharesLane(n, previous) && y - previous.y < MINIMUM_VERTICAL_STEP
    then previous.y + MINIMUM_VERTICAL_STEP
    else y
  }

  function Pushed(n: Node, placed: seq<Node>): real {
    if placed == [] then n.y
    else Clear(n, Pushed(n, placed[..|placed| - 1]), placed[|placed| - 1])
  }

  function Place(sorted: seq<Node>): (r: seq<Node>)
    ensures |r| == |sorted|
  {
    if sorted == [] then []
    else
      var n := sorted[|sorted| - 1];
      var placed := Place(sorted[..|sorted| - 1]);
      placed + [n.(y := Pushed(n, placed))]
  }

  type Position = (real, real)

  /** The map of positions by id; a later node of the same id replaces an earlier one. */
  function Positions(placed: seq<Node>): map<string, Position> {
    if placed == [] then map[]
    else
      var n := placed[|placed| - 1];
      Positions(placed[..|placed| - 1])[n.id := (n.x, n.y)]
  }

  function Moved(n: Node, positions: map<string, Position>): Node {
    if n.id in positions then n.(x := positions[n.id].0, y := positions[n.id].1) else n
  }

  function Spread(nodes: seq<Node>): (r: seq<Node>)
    ensures |r| == |nodes|
  {
    var positions := Positions(Place(Sort(nodes)));
    seq(|nodes|, i requires 0 <= i < |nodes| => Moved(nodes[i], positions))
  }

  lemma PlaceStep(sorted: seq<Node>, k: nat)
    requires k < |sorted|
    ensures Place(sorted[..k + 1]) == Place(sorted[..k]) + [sorted[k].(y := Pushed(sorted[k], Place(sorted[..k])))]
  {
    assert sorted[..k + 1][..k] == sorted[..k];
  }

  lemma PositionsStep(placed: seq<Node>, n: Node)
    ensures Positions(placed + [n]) == Positions(placed)[n.id := (n.x, n.y)]
  {
    assert (placed + [n])[..|placed|] == placed;
  }

  lemma PushedStep(n: Node, placed: seq<Node>, j: nat)
    requires j < |placed|
    ensures Pushed(n, placed[..j + 1]) == Clear(n, Pushed(n, placed[..j]), placed[j])
  {
    assert placed[..j + 1][..j] == placed[..j];
  }

  method SpreadCompactFlowNodes(nodes: seq<Node>) returns (r: seq<Node>)
    ensures r == Spread(nodes)
  {
    var sorted := Sort(nodes);
    var placed: seq<Node> := [];
    var positions: map<string, Position> := map[];
    for k := 0 to |sorted|
      invariant placed == Place(sorted[..k])
      invariant positions == Positions(placed)
    {
      var n := sorted[k];
      var y := n.y;
      for j := 0 to |placed|
        invariant y == Pushed(n, placed[..j])
      {
        PushedStep(n, placed, j);
        if SharesLane(n, placed[j]) && y - placed[j].y < MINIMUM_VERTICAL_STEP {
          y := placed[j].y + MINIMUM_VERTICAL_STEP;
        }
      }
      assert placed[..|placed|] == placed;
      PlaceStep(sorted, k);
      PositionsStep(placed, n.(y := y));
      positions := positions[n.id := (n.x, y)];
      placed := placed + [n.(y := y)];
    }
    assert sorted[..|sorted|] == sorted;
    r := seq(|nodes|, i requires 0 <= i < |nodes| => Moved(nodes[i], positions));
  }

  // --- What one placement achieves ---

  /** The pushed height clears every placed node of the lane and is the least that does. */
  lemma {:induction false} PushedIsLeast(n: Node, placed: seq<Node>)
    ensures Pushed(n, placed) >= n.y
    ensures forall p :: p in placed && SharesLane(n, p) ==> Pushed(n, placed) - p.y >= MINIMUM_VERTICAL_STEP
    ensures Pushed(n, placed) == n.y
         || exists p :: p in placed && SharesLane(n, p) && Pushed(n, placed) == p.y + MINIMUM_VERTICAL_STEP
  {
    if placed != [] {
      var front, last := placed[..|placed| - 1], placed[|placed| - 1];
      assert placed == front + [last];
      PushedIsLeast(n, front);
    }
  }

  lemma {:induction false} PlaceAt(sorted: seq<Node>, k: nat)
    requires k < |sorted|
    ensures Place(sorted)[..k] == Place(sorted[..k])
    ensures Place(sorted)[k] == sorted[k].(y := Pushed(sorted[k], Place(sorted[..k])))
  {
    var front := sorted[..|sorted| - 1];
    if k < |front| {
      PlaceAt(front, k);
      assert front[..k] == sorted[..k];
    }
  }

  lemma PushedStays(n: Node, placed: seq<Node>)
    requires forall p :: p in placed && SharesLane(n, p) ==> n.y - p.y >= MINIMUM_VERTICAL_STEP
    ensures Pushed(n, placed) == n.y
  {
    PushedIsLeast(n, placed);
  }

  lemma KeepsOne(front: seq<Node>, n: Node)
    requires Place(front) == front && Pushed(n, front) == n.y
    ensures Place(front + [n]) == front + [n]
  {
    assert (front + [n])[..|front|] == front;
  }

  lemma BelowAll(sorted: seq<Node>, k: nat)
    requires Ascending(sorted) && Separated(sorted) && k < |sorted|
    ensures forall p :: p in sorted[..k] && SharesLane(sorted[k], p) ==> sorted[k].y - p.y >= MINIMUM_VERTICAL_STEP
  {
    forall p | p in sorted[..k] && SharesLane(sorted[k], p) ensures sorted[k].y - p.y >= MINIMUM_VERTICAL_STEP {
      var i :| 0 <= i < k && sorted[i] == p;
      assert NotAfter(sorted[i], sorted[k]) && Apart(sorted[i], sorted[k]);
    }
  }

  /** Nodes that are already apart and in order are left where they are. */
  lemma {:induction false} PlaceKeeps(sorted: seq<Node>, k: nat)
    requires Ascending(sorted) && Separated(sorted) && k <= |sorted|
    ensures Place(sorted[..k]) == sorted[..k]
  {
    if k > 0 {
      var n := sorted[k - 1];
      PlaceKeeps(sorted, k - 1);
      BelowAll(sorted, k - 1);
      PushedStays(n, sorted[..k - 1]);
      KeepsOne(sorted[..k - 1], n);
      assert sorted[..k] == sorted[..k - 1] + [n];
    }
  }

  lemma {:induction false} PositionFound(placed: seq<Node>, k: nat)
    requires DistinctIds(placed) && k < |placed|
    ensures placed[k].id in Positions(placed) && Positions(placed)[placed[k].id] == (placed[k].x, placed[k].y)
  {
    if k < |placed| - 1 {
      PositionFound(placed[..|placed| - 1], k);
    }
  }

  // --- What the layout achieves ---

  /**
    With distinct ids the layout is the one and only arrangement that moves nodes straight
    down, as little as clears the nodes handled before them.
  */
  ghost predicate IsLayout(nodes: seq<Node>, r: seq<Node>) {
    && |r| == |nodes|
    && forall i :: 0 <= i < |nodes| ==> SettledAt(nodes, r, i)
  }

  ghost predicate SettledAt(nodes: seq<Node>, r: seq<Node>, i: nat)
    requires |r| == |nodes| && i < |nodes|
  {
    && r[i] == nodes[i].(y := r[i].y)
    && r[i].y >= nodes[i].y
    && (forall j :: 0 <= j < |nodes| && Precedes(nodes, j, i) && InOneLane(nodes[i], nodes[j]) ==>
        r[i].y - r[j].y >= 128.0)
    && (r[i].y == nodes[i].y || exists j :: 0 <= j < |nodes| && RestsOn(nodes, r, i, j))
  }

  predicate RestsOn(nodes: seq<Node>, r: seq<Node>, i: nat, j: nat)
    requires |r| == |nodes| && i < |nodes| && j < |nodes|
  {
    Precedes(nodes, j, i) && InOneLane(nodes[i], nodes[j]) && r[i].y == r[j].y + 128.0
  }

  /** The layout of a node is the position at which it was placed. */
  lemma SpreadAt(nodes: seq<Node>, order: seq<nat>)
    requires DistinctIds(nodes) && IsOrder(nodes, order)
    requires |Sort(nodes)| == |nodes| && forall a :: 0 <= a < |order| ==> Sort(nodes)[a] == nodes[order[a]]
    ensures forall a :: 0 <= a < |order| ==>
      Spread(nodes)[order[a]] == Place(Sort(nodes))[a] == nodes[order[a]].(y := Place(Sort(nodes))[a].y)
  {
    var sorted := Sort(nodes);
    var placed := Place(sorted);
    forall a | 0 <= a < |order| ensures placed[a] == nodes[order[a]].(y := placed[a].y) {
      PlaceAt(sorted, a);
    }
    assert DistinctIds(placed) by {
      forall a, b | 0 <= a < b < |order| ensures placed[a].id != placed[b].id {
        assert Precedes(nodes, order[a], order[b]);
      }
    }
    forall a | 0 <= a < |order| ensures Spread(nodes)[order[a]] == placed[a] {
      PositionFound(placed, a);
    }
  }

  lemma SettledAtRank(nodes: seq<Node>, order: seq<nat>, a: nat, r: seq<Node>, placed: seq<Node>)
    requires IsOrder(nodes, order) && a < |order| && |r| == |placed| == |nodes|
    requires forall b :: 0 <= b < |order| ==> r[order[b]] == placed[b] == nodes[order[b]].(y := placed[b].y)
    requires placed[a].y == Pushed(nodes[order[a]], placed[..a])
    ensures SettledAt(nodes, r, order[a])
  {
    var i := order[a];
    var n := nodes[i];
    PushedIsLeast(n, placed[..a]);
    forall j | 0 <= j < |nodes| && Precedes(nodes, j, i) && SharesLane(n, nodes[j])
      ensures r[i].y - r[j].y >= MINIMUM_VERTICAL_STEP
    {
      var b := Rank(nodes, order, j);
      RankOrder(nodes, order, b, a);
      assert r[j] in placed[..a] by {
        assert placed[..a][b] == r[j];
      }
    }
    if r[i].y != n.y {
      var p :| p in placed[..a] && SharesLane(n, p) && r[i].y == p.y + MINIMUM_VERTICAL_STEP;
      var b :| 0 <= b < a && placed[b] == p;
      assert Precedes(nodes, order[b], order[a]);
      assert RestsOn(nodes, r, i, order[b]);
    }
  }

  lemma SpreadIsLayout(nodes: seq<Node>)
    requires DistinctIds(nodes)
    ensures IsLayout(nodes, Spread(nodes))
  {
    var order := SortOrder(nodes);
    SpreadAt(nodes, order);
    var placed := Place(Sort(nodes));
    forall i | 0 <= i < |nodes| ensures SettledAt(nodes, Spread(nodes), i) {
      var a := Rank(nodes, order, i);
      PlaceAt(Sort(nodes), a);
      SettledAtRank(nodes, order, a, Spread(nodes), placed);
    }
  }

  /** Any two nodes of one lane end a full step apart. */
  lemma SpreadSeparates(nodes: seq<Node>)
    requires DistinctIds(nodes)
    ensures Separated(Spread(nodes))
  {
    SpreadIsLayout(nodes);
    var r := Spread(nodes);
    forall i, j | 0 <= i < j < |nodes| ensures Apart(r[i], r[j]) {
      assert SettledAt(nodes, r, i) && SettledAt(nodes, r, j);
      assert Precedes(nodes, i, j) || Precedes(nodes, j, i);
    }
  }

  /** No other arrangement is as tight: following the handling order, heights are forced. */
  lemma LayoutUnique(nodes: seq<Node>, r: seq<Node>)
    requires DistinctIds(nodes) && IsLayout(nodes, r)
    ensures r == Spread(nodes)
  {
    var s := Spread(nodes);
    SpreadIsLayout(nodes);
    var order := SortOrder(nodes);
    forall a | 0 <= a < |order| ensures r[order[a]] == s[order[a]] {
      SameHeight(nodes, r, s, order, a);
    }
    forall i | 0 <= i < |nodes| ensures r[i] == s[i] {
      assert i in order;
    }
  }

  lemma {:induction false} SameHeight(nodes: seq<Node>, r: seq<Node>, s: seq<Node>, order: seq<nat>, a: nat)
    requires IsOrder(nodes, order) && a < |order| && IsLayout(nodes, r) && IsLayout(nodes, s)
    ensures r[order[a]] == s[order[a]]
    decreases a
  {
    var i := order[a];
    assert SettledAt(nodes, r, i) && SettledAt(nodes, s, i);
    forall j | 0 <= j < |nodes| && Precedes(nodes, j, i) ensures r[j] == s[j] {
      var b := Rank(nodes, order, j);
      RankOrder(nodes, order, b, a);
      SameHeight(nodes, r, s, order, b);
    }
  }

  /** The layout changes nothing exactly when the nodes are apart already. */
  lemma FixedIffSeparated(nodes: seq<Node>)
    requires DistinctIds(nodes)
    ensures Spread(nodes) == nodes <==> Separated(nodes)
  {
    if Separated(nodes) {
      var order := SortOrder(nodes);
      var sorted := Sort(nodes);
      forall a, b | 0 <= a < b < |sorted| ensures Apart(sorted[a], sorted[b]) {
        var i, j := order[a], order[b];
        assert Precedes(nodes, i, j);
        assert Apart(nodes[if i < j then i else j], nodes[if i < j then j else i]);
      }
      PlaceKeeps(sorted, |sorted|);
      assert sorted[..|sorted|] == sorted;
      SpreadAt(nodes, order);
      forall i | 0 <= i < |nodes| ensures Spread(nodes)[i] == nodes[i] {
        assert i in order;
      }
    }
    SpreadSeparates(nodes);
  }

  /** Spreading twice is spreading once, although the second pass may sort differently. */
  lemma SpreadIdempotent(nodes: seq<Node>)
    requires DistinctIds(nodes)
    ensures Spread(Spread(nodes)) == Spread(nodes)
  {
    SpreadIsLayout(nodes);
    SpreadSeparates(nodes);
    var r := Spread(nodes);
    forall i, j | 0 <= i < j < |r| ensures r[i].id != r[j].id {
      assert SettledAt(nodes, r, i) && SettledAt(nodes, r, j);
    }
    FixedIffSeparated(r);
  }
}
