/** The run map: a layered graph of nodes, one layer per floor, built by
    `MapGenerator.Generate`. Edges only lead from a floor to the next one,
    every node but the boss has a way forward and every node past floor 0
    has a way in, so every node lies on a path from a start node to the
    boss. */
module GameMap {
  import opened Rand
  import opened Wrappers

  /** 'enemy', 'elite', 'safe' or 'boss'. */
  datatype NodeType = Enemy | Elite | Safe | Boss

  /** A map node: its id, type and floor, the ids of the nodes on the next
      floor it leads to, and whether the player has beaten it. */
  datatype MapNode = MapNode(
    id: string,
    nodeType: NodeType,
    floor: nat,
    connectedNodes: seq<string>,
    completed: bool)

  // ---------------------------------------------------------------------
  // Node ids: "node_<floor>_<index>"

  function DigitChar(d: nat): char
    requires d < 10
  {
    ('0' as int + d) as char
  }

  predicate IsDigits(s: string)
  {
    forall i | 0 <= i < |s| :: '0' <= s[i] <= '9'
  }

  /** The decimal numeral of n, as a template literal prints a number. */
  function Digits(n: nat): (s: string)
    ensures |s| >= 1 && IsDigits(s)
    ensures (n < 10) == (|s| == 1)
  {
    if n < 10 then [DigitChar(n)] else Digits(n / 10) + [DigitChar(n % 10)]
  }

  /** The number a decimal numeral denotes. */
  function DigitsValue(s: string): nat
    requires IsDigits(s)
  {
    if s == [] then 0 else DigitsValue(s[..|s| - 1]) * 10 + (s[|s| - 1] as int - '0' as int)
  }

  /** Reading the numeral back gives the number. */
  lemma {:induction false} DigitsRoundTrip(n: nat)
    ensures DigitsValue(Digits(n)) == n
  {
    var s := Digits(n);
    if n >= 10 {
      DigitsRoundTrip(n / 10);
      assert s[..|s| - 1] == Digits(n / 10);
    } else {
      assert s[..|s| - 1] == [];
    }
  }

  /** Different numbers have different numerals. */
  lemma DigitsInjective(a: nat, b: nat)
    ensures Digits(a) == Digits(b) <==> a == b
  {
    DigitsRoundTrip(a);
    DigitsRoundTrip(b);
  }

  /** The id of the n-th node of floor f. */
  function NodeId(f: nat, n: nat): (id: string)
    ensures |id| >= 8 && id[..5] == "node_"
  {
    "node_" + Digits(f) + "_" + Digits(n)
  }

  /** Node ids are unique: two ids are equal exactly when floor and index are. */
  lemma NodeIdInjective(f1: nat, n1: nat, f2: nat, n2: nat)
    ensures NodeId(f1, n1) == NodeId(f2, n2) <==> f1 == f2 && n1 == n2
  {
    if NodeId(f1, n1) == NodeId(f2, n2) {
      var a1, b1, a2, b2 := Digits(f1), Digits(n1), Digits(f2), Digits(n2);
      assert a1 + "_" + b1 == a2 + "_" + b2 by {
        NodeIdTail(f1, n1);
        NodeIdTail(f2, n2);
      }
      SplitAtSeparator(a1, b1, a2, b2);
      DigitsInjective(f1, f2);
      DigitsInjective(n1, n2);
    }
  }

  lemma NodeIdTail(f: nat, n: nat)
    ensures NodeId(f, n)[5..] == Digits(f) + "_" + Digits(n)
  {
    assert NodeId(f, n) == "node_" + (Digits(f) + "_" + Digits(n));
  }

  /** A numeral followed by '_' and any text splits back uniquely. */
  lemma SplitAtSeparator(a1: string, b1: string, a2: string, b2: string)
    requires IsDigits(a1) && IsDigits(a2)
    requires a1 + "_" + b1 == a2 + "_" + b2
    ensures a1 == a2 && b1 == b2
  {
    var s := a1 + "_" + b1;
    var k := if |a1| < |a2| then |a1| else |a2|;
    assert s[k] == (a2 + "_" + b2)[k];
    assert a1 == s[..|a1|] && a2 == s[..|a2|];
    assert b1 == s[|a1| + 1..] && b2 == (a2 + "_" + b2)[|a2| + 1..];
  }

  // ---------------------------------------------------------------------
  // Shape rules

  /** How many nodes floor f of a T-floor map holds: the last floor one
      (the boss), every other floor 2 to 4. */
  predicate FloorSized(totalFloors: int, f: nat, count: nat)
  {
    if f == totalFloors - 1 then count == 1 else 2 <= count <= 4
  }

  /** The types a node on floor f can have: the last floor is the boss,
      floor 0 is all ordinary enemies, safe rooms appear on the floors in
      between and elites only from floor 3 on. */
  predicate TypeAllowed(totalFloors: int, f: nat, t: NodeType)
  {
    if f == totalFloors - 1 then t == Boss
    else if f == 0 then t == Enemy
    else t == Enemy || t == Safe || (t == Elite && f > 2)
  }

  /** `nd` is node `id` as generated on floor f: its own id and floor, not
      completed, of a type allowed there. */
  predicate LaidNode(totalFloors: int, nd: MapNode, id: string, f: nat)
  {
    nd.id == id && nd.floor == f && !nd.completed && TypeAllowed(totalFloors, f, nd.nodeType)
  }

  /** The node dictionary and the floor lists agree: the n-th id of floor
      f is node_f_n and names a node laid on floor f, and the dictionary
      holds no other node. */
  ghost predicate Laid(totalFloors: int, nodes: map<string, MapNode>, floors: seq<seq<string>>)
  {
    && (forall f, n | 0 <= f < |floors| && 0 <= n < |floors[f]| ::
          && floors[f][n] == NodeId(f, n)
          && floors[f][n] in nodes
          && LaidNode(totalFloors, nodes[floors[f][n]], floors[f][n], f))
    && (forall id | id in nodes :: nodes[id].floor < |floors| && id in floors[nodes[id].floor])
  }

  /** Every floor below `upTo` has the size `FloorSized` demands. */
  ghost predicate Sized(totalFloors: int, floors: seq<seq<string>>, upTo: nat)
    requires upTo <= |floors|
  {
    forall f | 0 <= f < upTo :: FloorSized(totalFloors, f, |floors[f]|)
  }

  predicate NoDup(s: seq<string>)
  {
    forall i, j | 0 <= i < j < |s| :: s[i] != s[j]
  }

  /** An edge list as the generator leaves it: not empty, no repeats, and
      every edge to a node of the next floor. */
  predicate Forward(out: seq<string>, next: seq<string>)
  {
    |out| >= 1 && NoDup(out) && forall e | e in out :: e in next
  }

  /** Every node on floor f leads forward to floor f + 1. */
  ghost predicate LinksForward(nodes: map<string, MapNode>, floors: seq<seq<string>>, f: nat)
    requires f + 1 < |floors|
  {
    forall n | 0 <= n < |floors[f]| ::
      floors[f][n] in nodes && Forward(nodes[floors[f][n]].connectedNodes, floors[f + 1])
  }

  /** Some node of `cur` has an edge to `id`. */
  predicate HasIncoming(nodes: map<string, MapNode>, cur: seq<string>, id: string)
  {
    exists c | c in cur :: c in nodes && id in nodes[c].connectedNodes
  }

  /** Every node of `next` is entered from some node of `cur`. */
  ghost predicate FedFrom(nodes: map<string, MapNode>, cur: seq<string>, next: seq<string>)
  {
    forall n | 0 <= n < |next| :: HasIncoming(nodes, cur, next[n])
  }

  /** No node on floor f has an edge. */
  ghost predicate NoEdges(nodes: map<string, MapNode>, floors: seq<seq<string>>, f: nat)
    requires f < |floors|
  {
    forall n | 0 <= n < |floors[f]| :: floors[f][n] in nodes && nodes[floors[f][n]].connectedNodes == []
  }

  /** The floors below `done` are connected to the next floor in both
      directions; the floors from `done` on have no edges yet. */
  ghost predicate LinkedUpTo(nodes: map<string, MapNode>, floors: seq<seq<string>>, done: nat)
    requires done == 0 || done < |floors|
  {
    && (forall f | 0 <= f < done :: LinksForward(nodes, floors, f) && FedFrom(nodes, floors[f], floors[f + 1]))
    && (forall f | done <= f < |floors| :: NoEdges(nodes, floors, f))
  }

  /** What `generate` promises: one floor per `totalFloors`, each of the
      right size with its nodes laid, every floor but the last linked
      forward, every floor past 0 entered, and the last floor without
      edges. */
  ghost predicate Generated(totalFloors: int, nodes: map<string, MapNode>, floors: seq<seq<string>>)
  {
    && |floors| == (if totalFloors < 0 then 0 else totalFloors)
    && Laid(totalFloors, nodes, floors)
    && Sized(totalFloors, floors, |floors|)
    && LinkedUpTo(nodes, floors, if |floors| == 0 then 0 else |floors| - 1)
  }

  // ---------------------------------------------------------------------
  // Edge updates

  /** The node with one more edge, to `target`. */
  function WithEdge(nd: MapNode, target: string): MapNode
  {
    nd.(connectedNodes := nd.connectedNodes + [target])
  }

  /** `after` differs from `before` at most in the edges of floor-f nodes. */
  ghost predicate EdgesChangedOn(before: map<string, MapNode>, after: map<string, MapNode>, f: nat)
  {
    && before.Keys == after.Keys
    && forall id | id in before ::
         && after[id].(connectedNodes := before[id].connectedNodes) == before[id]
         && (before[id].floor != f ==> after[id] == before[id])
  }

  /** Changing only the edges of floor f keeps the layout and leaves the
      nodes of every other floor as they were. */
  lemma EdgesChangedKeepsRest(
    totalFloors: int, before: map<string, MapNode>, after: map<string, MapNode>,
    floors: seq<seq<string>>, f: nat)
    requires Laid(totalFloors, before, floors) && EdgesChangedOn(before, after, f)
    ensures Laid(totalFloors, after, floors)
    ensures forall g, n | 0 <= g < |floors| && g != f && 0 <= n < |floors[g]| ::
      after[floors[g][n]] == before[floors[g][n]]
  {
  }

  /** Nodes left as they were keep every way in they gave. */
  lemma UnchangedKeepsIncoming(
    before: map<string, MapNode>, after: map<string, MapNode>, cur: seq<string>, next: seq<string>)
    requires forall k | 0 <= k < |cur| :: cur[k] in before && cur[k] in after && after[cur[k]] == before[cur[k]]
    requires FedFrom(before, cur, next)
    ensures FedFrom(after, cur, next)
  {
    forall n | 0 <= n < |next|
      ensures HasIncoming(after, cur, next[n])
    {
      assert HasIncoming(before, cur, next[n]);
      var c :| c in cur && c in before && next[n] in before[c].connectedNodes;
      var k :| 0 <= k < |cur| && cur[k] == c;
      assert after[cur[k]] == before[cur[k]];
    }
  }

  /** Floor f (`cur`) and the next floor (`next`) before they are
      linked: neither is empty, the ids of `cur` are distinct and name
      nodes of floor f without edges. */
  ghost predicate ReadyToLink(nodes: map<string, MapNode>, cur: seq<string>, next: seq<string>, f: nat)
  {
    && |cur| > 0 && |next| > 0
    && (forall a, b | 0 <= a < |cur| && 0 <= b < |cur| && a != b :: cur[a] != cur[b])
    && (forall m | 0 <= m < |cur| ::
          cur[m] in nodes && nodes[cur[m]].floor == f && nodes[cur[m]].connectedNodes == [])
  }

  /** In a laid-out map whose floors below f are connected, floor f is
      ready to be linked to the next one. */
  lemma FloorReadyToLink(totalFloors: int, nodes: map<string, MapNode>, floors: seq<seq<string>>, f: nat)
    requires f + 1 < |floors|
    requires Laid(totalFloors, nodes, floors) && Sized(totalFloors, floors, |floors|)
    requires LinkedUpTo(nodes, floors, f)
    ensures ReadyToLink(nodes, floors[f], floors[f + 1], f)
  {
    assert FloorSized(totalFloors, f, |floors[f]|) && FloorSized(totalFloors, f + 1, |floors[f + 1]|);
    assert NoEdges(nodes, floors, f);
    forall a, b | 0 <= a < |floors[f]| && 0 <= b < |floors[f]| && a != b
      ensures floors[f][a] != floors[f][b]
    {
      NodeIdInjective(f, a, f, b);
    }
  }

  /** Two edge changes on floor f make one. */
  lemma EdgesChangedTransitive(n0: map<string, MapNode>, n1: map<string, MapNode>, n2: map<string, MapNode>, f: nat)
    requires EdgesChangedOn(n0, n1, f) && EdgesChangedOn(n1, n2, f)
    ensures EdgesChangedOn(n0, n2, f)
  {
  }

  /** Once floor f alone has changed and now links forward and feeds the
      next floor, the floors up to f are connected. */
  lemma ConnectedFloorStep(
    totalFloors: int, before: map<string, MapNode>, after: map<string, MapNode>,
    floors: seq<seq<string>>, f: nat)
    requires f + 1 < |floors|
    requires Laid(totalFloors, before, floors) && LinkedUpTo(before, floors, f)
    requires EdgesChangedOn(before, after, f)
    requires forall m | 0 <= m < |floors[f]| ::
      floors[f][m] in after && Forward(after[floors[f][m]].connectedNodes, floors[f + 1])
    requires FedFrom(after, floors[f], floors[f + 1])
    ensures Laid(totalFloors, after, floors) && LinkedUpTo(after, floors, f + 1)
  {
    EdgesChangedKeepsRest(totalFloors, before, after, floors, f);
    forall g | 0 <= g < f + 1
      ensures LinksForward(after, floors, g) && FedFrom(after, floors[g], floors[g + 1])
    {
      if g < f {
        assert LinksForward(before, floors, g) && FedFrom(before, floors[g], floors[g + 1]);
        UnchangedKeepsIncoming(before, after, floors[g], floors[g + 1]);
      }
    }
    forall g | f + 1 <= g < |floors|
      ensures NoEdges(after, floors, g)
    {
      assert NoEdges(before, floors, g);
    }
  }

  /** Forcing an edge from a node of floor f (`cur`) to a node of the next
      floor it does not lead to yet changes only floor f's edges, keeps
      every edge list forward and every way in, and gives `target` a way
      in. */
  lemma ForcedEdgeKeepsLinks(
    nodes: map<string, MapNode>, cur: seq<string>, next: seq<string>, f: nat,
    src: string, target: string, k: nat)
    requires src in cur && target in next
    requires forall m | 0 <= m < |cur| ::
      cur[m] in nodes && nodes[cur[m]].floor == f && Forward(nodes[cur[m]].connectedNodes, next)
    requires target !in nodes[src].connectedNodes
    requires k <= |next| && forall m | 0 <= m < k :: HasIncoming(nodes, cur, next[m])
    ensures var after := nodes[src := WithEdge(nodes[src], target)];
      && EdgesChangedOn(nodes, after, f)
      && (forall m | 0 <= m < |cur| ::
            cur[m] in after && after[cur[m]].floor == f && Forward(after[cur[m]].connectedNodes, next))
      && (forall m | 0 <= m < k :: HasIncoming(after, cur, next[m]))
      && HasIncoming(after, cur, target)
  {
    var after := nodes[src := WithEdge(nodes[src], target)];
    forall m | 0 <= m < k
      ensures HasIncoming(after, cur, next[m])
    {
      var c :| c in cur && c in nodes && next[m] in nodes[c].connectedNodes;
      assert next[m] in after[c].connectedNodes;
    }
    assert target in after[src].connectedNodes;
  }

  /** Laying node_f_n on floor f, which holds n nodes so far and is the
      top floor, keeps the layout consistent and adds no edge. */
  lemma LayNodeKeepsLaid(
    totalFloors: int, nodes: map<string, MapNode>, floors: seq<seq<string>>, f: nat, t: NodeType)
    requires |floors| == f + 1
    requires Laid(totalFloors, nodes, floors) && LinkedUpTo(nodes, floors, 0)
    requires TypeAllowed(totalFloors, f, t)
    ensures var id := NodeId(f, |floors[f]|);
      && id !in nodes
      && Laid(totalFloors, nodes[id := MapNode(id, t, f, [], false)], floors[f := floors[f] + [id]])
      && LinkedUpTo(nodes[id := MapNode(id, t, f, [], false)], floors[f := floors[f] + [id]], 0)
  {
    var n := |floors[f]|;
    var id := NodeId(f, n);
    if id in nodes {
      var g := nodes[id].floor;
      var k :| 0 <= k < |floors[g]| && floors[g][k] == id;
      NodeIdInjective(g, k, f, n);
      assert false;
    }
    var nodes' := nodes[id := MapNode(id, t, f, [], false)];
    var floors' := floors[f := floors[f] + [id]];
    forall g, m | 0 <= g < |floors'| && 0 <= m < |floors'[g]|
      ensures floors'[g][m] == NodeId(g, m) && floors'[g][m] in nodes'
      ensures LaidNode(totalFloors, nodes'[floors'[g][m]], floors'[g][m], g)
      ensures nodes'[floors'[g][m]].connectedNodes == []
    {
      if g < f || m < n {
        assert floors'[g][m] == floors[g][m];
        assert NoEdges(nodes, floors, g);
      }
    }
    forall key | key in nodes'
      ensures nodes'[key].floor < |floors'| && key in floors'[nodes'[key].floor]
    {
      if key != id {
        var g := nodes[key].floor;
        var k :| 0 <= k < |floors[g]| && floors[g][k] == key;
        assert floors'[g][k] == key;
      } else {
        assert floors'[f][n] == id;
      }
    }
  }

  /** Opening an empty floor on top keeps the layout consistent. */
  lemma OpenFloorKeepsLaid(totalFloors: int, nodes: map<string, MapNode>, floors: seq<seq<string>>)
    requires Laid(totalFloors, nodes, floors) && LinkedUpTo(nodes, floors, 0)
    ensures Laid(totalFloors, nodes, floors + [[]]) && LinkedUpTo(nodes, floors + [[]], 0)
  {
    var floors' := floors + [[]];
    forall g | 0 <= g < |floors|
      ensures floors'[g] == floors[g] && NoEdges(nodes, floors', g)
    {
      assert NoEdges(nodes, floors, g);
    }
  }

  // ---------------------------------------------------------------------
  // What a generated map guarantees

  /** `p` is a walk through the map: every id names a node and each id
      after the first is an edge of the node before it. */
  ghost predicate Walk(nodes: map<string, MapNode>, p: seq<string>)
  {
    && |p| >= 1
    && (forall i | 0 <= i < |p| :: p[i] in nodes)
    && (forall i | 0 <= i < |p| - 1 :: p[i + 1] in nodes[p[i]].connectedNodes)
  }

  /** Every id on a floor names a node. */
  ghost predicate AllPresent(nodes: map<string, MapNode>, floors: seq<seq<string>>)
  {
    forall f, n | 0 <= f < |floors| && 0 <= n < |floors[f]| :: floors[f][n] in nodes
  }

  /** Every floor past 0 is entered from the floor below it. */
  ghost predicate AllEntered(nodes: map<string, MapNode>, floors: seq<seq<string>>)
  {
    forall f | 0 < f < |floors| :: FedFrom(nodes, floors[f - 1], floors[f])
  }

  /** Every floor but the last leads forward to the floor above it. */
  ghost predicate AllExit(nodes: map<string, MapNode>, floors: seq<seq<string>>)
  {
    forall f | 0 <= f < |floors| - 1 :: LinksForward(nodes, floors, f)
  }

  /** The parts of `Generated` the walks are built from. */
  lemma GeneratedLinks(totalFloors: int, nodes: map<string, MapNode>, floors: seq<seq<string>>)
    requires Generated(totalFloors, nodes, floors)
    ensures AllPresent(nodes, floors) && AllEntered(nodes, floors) && AllExit(nodes, floors)
    ensures |floors| > 0 ==> |floors[|floors| - 1]| == 1
  {
    if |floors| > 0 {
      assert FloorSized(totalFloors, |floors| - 1, |floors[|floors| - 1]|);
    }
    forall f | 0 < f < |floors|
      ensures FedFrom(nodes, floors[f - 1], floors[f])
    {
      var g := f - 1;
      assert FedFrom(nodes, floors[g], floors[g + 1]);
    }
  }

  /** Every node can be reached from a start node, a node of floor 0. */
  lemma {:induction false} ReachableFromStart(
    nodes: map<string, MapNode>, floors: seq<seq<string>>, f: nat, n: nat)
    requires AllPresent(nodes, floors) && AllEntered(nodes, floors)
    requires f < |floors| && n < |floors[f]|
    ensures exists p :: Walk(nodes, p) && p[0] in floors[0] && p[|p| - 1] == floors[f][n]
  {
    if f == 0 {
      var p := [floors[0][n]];
      assert Walk(nodes, p) && p[0] in floors[0];
    } else {
      assert FedFrom(nodes, floors[f - 1], floors[f]);
      assert HasIncoming(nodes, floors[f - 1], floors[f][n]);
      var c :| c in floors[f - 1] && c in nodes && floors[f][n] in nodes[c].connectedNodes;
      var j :| 0 <= j < |floors[f - 1]| && floors[f - 1][j] == c;
      ReachableFromStart(nodes, floors, f - 1, j);
      var q :| Walk(nodes, q) && q[0] in floors[0] && q[|q| - 1] == c;
      var p := q + [floors[f][n]];
      assert Walk(nodes, p) by {
        forall i | 0 <= i < |p| - 1
          ensures p[i + 1] in nodes[p[i]].connectedNodes
        {
          if i < |q| - 1 {
            assert p[i] == q[i] && p[i + 1] == q[i + 1];
          }
        }
      }
      assert p[0] == q[0];
    }
  }

  /** From every node a walk leads to the single node of the last floor. */
  lemma {:induction false} ReachesLastFloor(
    nodes: map<string, MapNode>, floors: seq<seq<string>>, f: nat, n: nat)
    requires AllPresent(nodes, floors) && AllExit(nodes, floors)
    requires f < |floors| && n < |floors[f]| && |floors[|floors| - 1]| == 1
    ensures exists p :: Walk(nodes, p) && p[0] == floors[f][n] && p[|p| - 1] == floors[|floors| - 1][0]
    decreases |floors| - f
  {
    if f == |floors| - 1 {
      var p := [floors[f][n]];
      assert Walk(nodes, p);
    } else {
      assert LinksForward(nodes, floors, f);
      var out := nodes[floors[f][n]].connectedNodes;
      assert Forward(out, floors[f + 1]);
      assert out[0] in floors[f + 1];
      var j :| 0 <= j < |floors[f + 1]| && floors[f + 1][j] == out[0];
      ReachesLastFloor(nodes, floors, f + 1, j);
      var q :| Walk(nodes, q) && q[0] == out[0] && q[|q| - 1] == floors[|floors| - 1][0];
      var p := [floors[f][n]] + q;
      assert Walk(nodes, p) by {
        forall i | 0 <= i < |p| - 1
          ensures p[i + 1] in nodes[p[i]].connectedNodes
        {
          if i > 0 {
            assert p[i] == q[i - 1] && p[i + 1] == q[i];
          }
        }
      }
      assert p[|p| - 1] == q[|q| - 1];
    }
  }

  /** In a generated map every node lies on a walk from a start node to
      the boss. */
  lemma OnStartToBossWalk(
    totalFloors: int, nodes: map<string, MapNode>, floors: seq<seq<string>>, f: nat, n: nat)
    requires Generated(totalFloors, nodes, floors)
    requires f < |floors| && n < |floors[f]|
    ensures exists p :: Walk(nodes, p) && p[0] in floors[0] && p[|p| - 1] == floors[f][n]
    ensures exists p :: Walk(nodes, p) && p[0] == floors[f][n] && p[|p| - 1] == floors[|floors| - 1][0]
  {
    GeneratedLinks(totalFloors, nodes, floors);
    ReachableFromStart(nodes, floors, f, n);
    ReachesLastFloor(nodes, floors, f, n);
  }

  /** A generated map with at least one floor has exactly one boss: the
      single node of the last floor. */
  lemma OneBoss(totalFloors: int, nodes: map<string, MapNode>, floors: seq<seq<string>>)
    requires Generated(totalFloors, nodes, floors) && totalFloors >= 1
    ensures |floors[totalFloors - 1]| == 1
    ensures forall id | id in nodes :: nodes[id].nodeType == Boss <==> id == floors[totalFloors - 1][0]
  {
    assert FloorSized(totalFloors, totalFloors - 1, |floors[totalFloors - 1]|);
    LaidHasOneBoss(totalFloors, nodes, floors);
  }

  lemma LaidHasOneBoss(totalFloors: int, nodes: map<string, MapNode>, floors: seq<seq<string>>)
    requires Laid(totalFloors, nodes, floors) && |floors| == totalFloors >= 1
    requires |floors[totalFloors - 1]| == 1
    ensures forall id | id in nodes :: nodes[id].nodeType == Boss <==> id == floors[totalFloors - 1][0]
  {
    forall id | id in nodes
      ensures nodes[id].nodeType == Boss <==> id == floors[totalFloors - 1][0]
    {
      var g := nodes[id].floor;
      var k :| 0 <= k < |floors[g]| && floors[g][k] == id;
      NodeIdInjective(g, k, totalFloors - 1, 0);
    }
  }

  // ---------------------------------------------------------------------
  // Generator

  class MapGenerator {
    const totalFloors: int
    /** Every node, by id. */
    var nodes: map<string, MapNode>
    /** The ids of the nodes on each floor, floor 0 first. */
    var floorNodes: seq<seq<string>>

    constructor (floors: int)
      ensures totalFloors == floors && nodes == map[] && floorNodes == []
    {
      totalFloors := floors;
      nodes := map[];
      floorNodes := [];
    }

    /** Builds a fresh map: all floors with their nodes first, then the
        edges between each floor and the next. Nothing of an earlier map
        survives. */
    method Generate(rng: Random)
      modifies this`nodes, this`floorNodes, rng
      ensures Generated(totalFloors, nodes, floorNodes)
    {
      nodes := map[];
      floorNodes := [];
      var f := 0;
      while f < totalFloors
        invariant 0 <= f && (f <= totalFloors || f == 0)
        invariant |floorNodes| == f
        invariant Laid(totalFloors, nodes, floorNodes) && Sized(totalFloors, floorNodes, f)
        invariant LinkedUpTo(nodes, floorNodes, 0)
      {
        AddFloor(f, rng);
        f := f + 1;
      }
      f := 0;
      while f < totalFloors - 1
        invariant 0 <= f && (f <= totalFloors - 1 || f == 0)
        invariant |floorNodes| == (if totalFloors < 0 then 0 else totalFloors)
        invariant Laid(totalFloors, nodes, floorNodes) && Sized(totalFloors, floorNodes, |floorNodes|)
        invariant LinkedUpTo(nodes, floorNodes, f)
      {
        FloorReadyToLink(totalFloors, nodes, floorNodes, f);
        ghost var unlinked := nodes;
        ConnectFloor(f, rng);
        ConnectedFloorStep(totalFloors, unlinked, nodes, floorNodes, f);
        f := f + 1;
      }
    }

    /** Lays floor f on top of the floors below: the boss alone on the last
        floor, otherwise 2 to 4 nodes whose types are rolled. */
    method AddFloor(f: nat, rng: Random)
      requires f < totalFloors && |floorNodes| == f
      requires Laid(totalFloors, nodes, floorNodes) && LinkedUpTo(nodes, floorNodes, 0)
      modifies this`nodes, this`floorNodes, rng
      ensures |floorNodes| == f + 1 && floorNodes[..f] == old(floorNodes)
      ensures FloorSized(totalFloors, f, |floorNodes[f]|)
      ensures Laid(totalFloors, nodes, floorNodes) && LinkedUpTo(nodes, floorNodes, 0)
    {
      OpenFloorKeepsLaid(totalFloors, nodes, floorNodes);
      floorNodes := floorNodes + [[]];
      var numNodes := 1;
      if f != totalFloors - 1 {
        var k := rng.Below(3);
        numNodes := k + 2;
      }
      var n := 0;
      while n < numNodes
        invariant 0 <= n <= numNodes
        invariant |floorNodes| == f + 1 && floorNodes[..f] == old(floorNodes) && |floorNodes[f]| == n
        invariant Laid(totalFloors, nodes, floorNodes) && LinkedUpTo(nodes, floorNodes, 0)
      {
        var t := RollType(f, rng);
        var id := NodeId(f, n);
        LayNodeKeepsLaid(totalFloors, nodes, floorNodes, f, t);
        nodes := nodes[id := MapNode(id, t, f, [], false)];
        floorNodes := floorNodes[f := floorNodes[f] + [id]];
        n := n + 1;
      }
    }

    /** The type of a new node on floor f: the boss on the last floor, an
        ordinary enemy on floor 0; on the floors between, a roll below 0.15
        makes a safe room and, from floor 3 on, a roll below 0.3 an elite.
        Only the floors between consume a roll. */
    method RollType(f: nat, rng: Random) returns (t: NodeType)
      modifies rng
      ensures TypeAllowed(totalFloors, f, t)
      ensures f == totalFloors - 1 ==> t == Boss && rng.used == old(rng.used)
      ensures f == 0 && f != totalFloors - 1 ==> t == Enemy && rng.used == old(rng.used)
      ensures 0 < f != totalFloors - 1 ==>
        var roll := rng.draws(old(rng.used));
        && rng.used == old(rng.used) + 1
        && (t == Safe <==> roll < 0.15)
        && (t == Elite <==> 0.15 <= roll < 0.3 && f > 2)
    {
      t := Enemy;
      if f == totalFloors - 1 {
        t := Boss;
      } else if f > 0 {
        var roll := rng.Next();
        if roll < 0.15 {
          t := Safe;
        } else if roll < 0.3 && f > 2 {
          t := Elite;
        }
      }
    }

    /** Connects floor f to floor f + 1: first every node of floor f gets
        an edge to a random node of the next floor; then every node of the
        next floor that no edge reaches gets one from a random node of
        floor f, unless that node already has it. Only the edges of floor
        f change. */
    method ConnectFloor(f: nat, rng: Random)
      requires f + 1 < |floorNodes| && ReadyToLink(nodes, floorNodes[f], floorNodes[f + 1], f)
      modifies this`nodes, rng
      ensures EdgesChangedOn(old(nodes), nodes, f)
      ensures forall m | 0 <= m < |floorNodes[f]| ::
        floorNodes[f][m] in nodes && Forward(nodes[floorNodes[f][m]].connectedNodes, floorNodes[f + 1])
      ensures FedFrom(nodes, floorNodes[f], floorNodes[f + 1])
    {
      var currentFloorIds := floorNodes[f];
      var nextFloorIds := floorNodes[f + 1];
      LinkEach(f, currentFloorIds, nextFloorIds, rng);
      ghost var linked := nodes;
      RepairOrphans(f, currentFloorIds, nextFloorIds, rng);
      EdgesChangedTransitive(old(nodes), linked, nodes, f);
    }

    /** The first pass: every node of `cur`, which has no edges yet, gets
        one edge to a random node of `next`. */
    method LinkEach(f: nat, cur: seq<string>, next: seq<string>, rng: Random)
      requires ReadyToLink(nodes, cur, next, f)
      modifies this`nodes, rng
      ensures EdgesChangedOn(old(nodes), nodes, f)
      ensures forall m | 0 <= m < |cur| ::
        cur[m] in nodes && |nodes[cur[m]].connectedNodes| == 1 && nodes[cur[m]].connectedNodes[0] in next
    {
      var k := 0;
      while k < |cur|
        invariant 0 <= k <= |cur|
        invariant EdgesChangedOn(old(nodes), nodes, f)
        invariant forall m | 0 <= m < |cur| :: cur[m] in nodes && nodes[cur[m]].floor == f
        invariant forall m | 0 <= m < k ::
          |nodes[cur[m]].connectedNodes| == 1 && nodes[cur[m]].connectedNodes[0] in next
        invariant forall m | k <= m < |cur| :: nodes[cur[m]].connectedNodes == []
      {
        var j := rng.Below(|next|);
        var targetId := next[j];
        nodes := nodes[cur[k] := WithEdge(nodes[cur[k]], targetId)];
        k := k + 1;
      }
    }

    /** The repair pass: a node of `next` that no edge from `cur` reaches
        gets an edge from a random node of `cur`, which does not have it
        yet. */
    method RepairOrphans(f: nat, cur: seq<string>, next: seq<string>, rng: Random)
      requires |cur| > 0
      requires forall m | 0 <= m < |cur| ::
        cur[m] in nodes && nodes[cur[m]].floor == f && Forward(nodes[cur[m]].connectedNodes, next)
      modifies this`nodes, rng
      ensures EdgesChangedOn(old(nodes), nodes, f)
      ensures forall m | 0 <= m < |cur| ::
        cur[m] in nodes && Forward(nodes[cur[m]].connectedNodes, next)
      ensures FedFrom(nodes, cur, next)
    {
      var k := 0;
      while k < |next|
        invariant 0 <= k <= |next|
        invariant EdgesChangedOn(old(nodes), nodes, f)
        invariant forall m | 0 <= m < |cur| ::
          cur[m] in nodes && nodes[cur[m]].floor == f && Forward(nodes[cur[m]].connectedNodes, next)
        invariant forall m | 0 <= m < k :: HasIncoming(nodes, cur, next[m])
      {
        var nextId := next[k];
        var hasConnection := HasIncoming(nodes, cur, nextId);
        if !hasConnection {
          var x := rng.Below(|cur|);
          var forceId := cur[x];
          if nextId !in nodes[forceId].connectedNodes {
            ForcedEdgeKeepsLinks(nodes, cur, next, f, forceId, nextId, k);
            ghost var before := nodes;
            nodes := nodes[forceId := WithEdge(nodes[forceId], nextId)];
            EdgesChangedTransitive(old(nodes), before, nodes, f);
          }
        }
        k := k + 1;
      }
    }

    /** After generation the start nodes are all the nodes of floor 0:
        two to four ordinary enemies, or the boss alone in a one-floor map,
        none completed. */
    lemma StartNodesAfterGenerate()
      requires Generated(totalFloors, nodes, floorNodes) && totalFloors >= 1
      ensures var r := GetSelectableStartNodes();
        && (if totalFloors == 1 then |r| == 1 else 2 <= |r| <= 4)
        && forall i | 0 <= i < |r| ::
             && r[i].Some? && r[i].value.id == NodeId(0, i) && r[i].value.floor == 0
             && !r[i].value.completed
             && r[i].value.nodeType == (if totalFloors == 1 then Boss else Enemy)
    {
      assert FloorSized(totalFloors, 0, |floorNodes[0]|);
    }

    /** The nodes a run can start from: the nodes of floor 0, looked up by
        id (`None` for an id the dictionary lacks). */
    function GetSelectableStartNodes(): (r: seq<Option<MapNode>>)
      reads this
      requires |floorNodes| > 0
      ensures |r| == |floorNodes[0]|
      ensures forall i | 0 <= i < |r| ::
        r[i] == if floorNodes[0][i] in nodes then Some(nodes[floorNodes[0][i]]) else None
    {
      var ids, byId := floorNodes[0], nodes;
      seq(|ids|, i requires 0 <= i < |ids| => if ids[i] in byId then Some(byId[ids[i]]) else None)
    }
  }
}
