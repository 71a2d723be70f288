/** Monte Carlo tree search with random rollouts.

    The tree is an arena: a sequence of nodes that refer to their parent and
    their children by index, node 0 being the root. The UCT child choice and
    the random rollout moves are nondeterministic choices; a ghost record of
    how many rollouts were started at each node carries the visit-count
    bookkeeping. */
module MonteCarlo {
  import opened Rules

  /** One tree node: its position, parent, the move that led to it (None at
      the root), its children, the legal moves not yet expanded, and its
      visit count and summed rollout results. */
  datatype Node = Node(
    pos: Pos,
    parent: Option<nat>,
    move: Option<Move>,
    children: seq<nat>,
    untried: seq<Move>,
    visits: nat,
    value: int)

  /** A new node: no children, every legal move untried, no visits. */
  function NewNode(pos: Pos, parent: Option<nat>, move: Option<Move>): (n: Node)
    ensures n.untried == LegalMoves(pos) && n.children == [] && n.visits == 0 && n.value == 0
  {
    Node(pos, parent, move, [], LegalMoves(pos), 0, 0)
  }

  /** The summed visits of the nodes with indices `cs`. */
  function SumVisits(nodes: seq<Node>, cs: seq<nat>): nat {
    if cs == [] then 0
    else (if cs[0] < |nodes| then nodes[cs[0]].visits else 0) + SumVisits(nodes, cs[1..])
  }

  /** No index occurs twice. */
  predicate Distinct(cs: seq<nat>) {
    forall j, k :: 0 <= j < k < |cs| ==> cs[j] != cs[k]
  }

  /** Node `i` and its neighbours agree: a non-root node has a smaller
      parent that lists it, and each of its children is a later node that
      names it as parent, listed once. */
  ghost predicate NodeLinked(nodes: seq<Node>, i: nat)
    requires i < |nodes|
  {
    var n := nodes[i];
    (i > 0 ==> n.parent.Some? && n.parent.value < i && i in nodes[n.parent.value].children)
    && (forall j :: 0 <= j < |n.children| ==>
          i < n.children[j] < |nodes| && nodes[n.children[j]].parent == Some(i))
    && Distinct(n.children)
  }

  ghost predicate Linked(nodes: seq<Node>) {
    |nodes| >= 1 && nodes[0].parent.None? && nodes[0].move.None?
    && forall i :: 0 <= i < |nodes| ==> NodeLinked(nodes, i)
  }

  /** The children of node `i` are its last legal moves, expanded from the
      end of the move list; the untried moves are the rest, in order. */
  ghost predicate NodeExpanded(nodes: seq<Node>, i: nat)
    requires i < |nodes|
  {
    var n := nodes[i];
    var count := |n.pos.children|;
    |n.children| + |n.untried| == count
    && n.untried == LegalMoves(n.pos)[..|n.untried|]
    && forall j :: 0 <= j < |n.children| ==>
         n.children[j] < |nodes|
         && nodes[n.children[j]].pos == n.pos.children[count - 1 - j].next
         && nodes[n.children[j]].move == Some(n.pos.children[count - 1 - j].move)
  }

  ghost predicate Expanded(nodes: seq<Node>) {
    forall i :: 0 <= i < |nodes| ==> NodeExpanded(nodes, i)
  }

  /** Node `i`'s visits are its children's visits plus the rollouts started
      at it (one short when it is `pending`, a result being on its way up),
      its summed result is no larger than its visits, and a non-root node
      has had a rollout. */
  ghost predicate NodeCounted(nodes: seq<Node>, rollouts: seq<nat>, pending: Option<nat>, i: nat)
    requires i < |nodes| && i < |rollouts|
  {
    var n := nodes[i];
    n.visits + (if pending == Some(i) then 1 else 0) == SumVisits(nodes, n.children) + rollouts[i]
    && -(n.visits as int) <= n.value <= n.visits
    && (i > 0 ==> rollouts[i] >= 1)
  }

  /** Every node is counted, and the root only hosts rollouts when it has
      no legal move. */
  ghost predicate Counted(nodes: seq<Node>, rollouts: seq<nat>, pending: Option<nat>) {
    |rollouts| == |nodes| && |nodes| >= 1
    && (forall i :: 0 <= i < |nodes| ==> NodeCounted(nodes, rollouts, pending, i))
    && (|nodes[0].pos.children| > 0 ==> rollouts[0] == 0)
  }

  /** The nodes without their counters. */
  function Shapes(nodes: seq<Node>): (r: seq<Node>)
    ensures |r| == |nodes|
  {
    seq(|nodes|, i requires 0 <= i < |nodes| => nodes[i].(visits := 0, value := 0))
  }

  /** Linking and expansion do not look at the counters. */
  lemma SameShape(a: seq<Node>, b: seq<Node>)
    requires Shapes(a) == Shapes(b)
    ensures Linked(a) ==> Linked(b)
    ensures Expanded(a) ==> Expanded(b)
  {
    assert |a| == |b|;
    forall i | 0 <= i < |a|
      ensures a[i].pos == b[i].pos && a[i].parent == b[i].parent && a[i].move == b[i].move
      ensures a[i].children == b[i].children && a[i].untried == b[i].untried
    {
      assert Shapes(a)[i] == Shapes(b)[i];
    }
    if Linked(a) {
      forall i | 0 <= i < |b|
        ensures NodeLinked(b, i)
      {
        assert NodeLinked(a, i);
      }
    }
    if Expanded(a) {
      forall i | 0 <= i < |b|
        ensures NodeExpanded(b, i)
      {
        assert NodeExpanded(a, i);
      }
    }
  }

  // ---------------------------------------------------------------------------
  // Sums of visit counts

  lemma {:induction false} SumFrame(a: seq<Node>, b: seq<Node>, cs: seq<nat>)
    requires forall j :: 0 <= j < |cs| ==> cs[j] < |a| && cs[j] < |b| && a[cs[j]].visits == b[cs[j]].visits
    ensures SumVisits(a, cs) == SumVisits(b, cs)
  {
    if cs != [] {
      SumFrame(a, b, cs[1..]);
    }
  }

  lemma {:induction false} SumAppend(nodes: seq<Node>, cs: seq<nat>, c: nat)
    requires c < |nodes|
    ensures SumVisits(nodes, cs + [c]) == SumVisits(nodes, cs) + nodes[c].visits
  {
    if cs != [] {
      assert (cs + [c])[1..] == cs[1..] + [c];
      SumAppend(nodes, cs[1..], c);
    }
  }

  /** One more visit at node `k` adds one to every sum that lists it once. */
  lemma {:induction false} SumBump(a: seq<Node>, b: seq<Node>, cs: seq<nat>, k: nat)
    requires k < |a| && |b| == |a| && b[k].visits == a[k].visits + 1
    requires forall j :: 0 <= j < |cs| ==> cs[j] < |a| && (cs[j] != k ==> a[cs[j]].visits == b[cs[j]].visits)
    requires forall j, l :: 0 <= j < l < |cs| ==> cs[j] != cs[l]
    ensures SumVisits(b, cs) == SumVisits(a, cs) + (if k in cs then 1 else 0)
  {
    if cs != [] {
      if cs[0] == k {
        assert k !in cs[1..];
        SumFrame(a, b, cs[1..]);
      } else {
        SumBump(a, b, cs[1..], k);
      }
    }
  }

  /** A node with visits has a child with visits or a rollout of its own. */
  lemma {:induction false} SumPositive(nodes: seq<Node>, cs: seq<nat>)
    requires forall j :: 0 <= j < |cs| ==> cs[j] < |nodes| && nodes[cs[j]].visits >= 1
    ensures SumVisits(nodes, cs) >= |cs|
  {
    if cs != [] {
      SumPositive(nodes, cs[1..]);
    }
  }

  // ---------------------------------------------------------------------------
  // The arena

  class SearchTree {
    var nodes: seq<Node>
    ghost var rollouts: seq<nat>

    ghost predicate Valid()
      reads this
    {
      Linked(nodes) && Expanded(nodes) && Counted(nodes, rollouts, None)
    }

    /** A tree holding only the root. */
    constructor (p: Pos)
      ensures Valid()
      ensures nodes == [NewNode(p, None, None)] && rollouts == [0]
    {
      nodes := [NewNode(p, None, None)];
      rollouts := [0];
      new;
      assert LegalMoves(p)[..|LegalMoves(p)|] == LegalMoves(p);
      assert NodeLinked(nodes, 0);
      assert NodeExpanded(nodes, 0);
      assert NodeCounted(nodes, rollouts, None, 0);
    }

    /** Selection: descend through fully expanded nodes, choosing a child
        the way UCT would (left open here), until a node with an untried
        move or without children. */
    method Select() returns (leaf: nat)
      requires Valid()
      ensures leaf < |nodes|
      ensures |nodes[leaf].untried| > 0 || |nodes[leaf].children| == 0
    {
      leaf := 0;
      while |nodes[leaf].untried| == 0 && |nodes[leaf].children| > 0
        invariant leaf < |nodes|
        decreases |nodes| - leaf
      {
        var j :| 0 <= j < |nodes[leaf].children|;
        assert NodeLinked(nodes, leaf);
        leaf := nodes[leaf].children[j];
      }
    }

    /** Expansion: pop the last untried move of `leaf` and append the node it
        leads to; a leaf without untried moves is kept. Either way the node
        returned is the one whose rollout is about to be counted. */
    method Expand(leaf: nat) returns (node: nat)
      requires Valid() && leaf < |nodes|
      requires |nodes[leaf].untried| > 0 || |nodes[leaf].children| == 0
      modifies this
      ensures Linked(nodes) && Expanded(nodes) && Counted(nodes, rollouts, Some(node))
      ensures node < |nodes| && nodes[0].visits == old(nodes[0].visits) && nodes[0].pos == old(nodes[0].pos)
      ensures old(|nodes[leaf].untried|) > 0 ==>
        var n := old(nodes[leaf]);
        var k := |n.untried| - 1;
        k < |n.pos.children|
        && node == old(|nodes|)
        && nodes == old(nodes)[leaf := n.(children := n.children + [node], untried := n.untried[..k])]
                    + [NewNode(n.pos.children[k].next, Some(leaf), Some(n.untried[k]))]
      ensures old(|nodes[leaf].untried|) == 0 ==> node == leaf && nodes == old(nodes)
    {
      assert NodeExpanded(nodes, leaf);
      if |nodes[leaf].untried| > 0 {
        var n := nodes[leaf];
        var k := |n.untried| - 1;
        var move := n.untried[k];
        var child := NewNode(n.pos.children[k].next, Some(leaf), Some(move));
        node := |nodes|;
        ghost var before := nodes;
        ghost var counts := rollouts;
        nodes := nodes[leaf := n.(children := n.children + [node], untried := n.untried[..k])] + [child];
        rollouts := rollouts + [1];
        ExpandLinked(before, nodes, leaf, child);
        ExpandExpanded(before, nodes, leaf);
        ExpandCounted(before, nodes, counts, leaf, child);
      } else {
        node := leaf;
        ghost var counts := rollouts;
        rollouts := rollouts[leaf := rollouts[leaf] + 1];
        forall i | 0 <= i < |nodes|
          ensures NodeCounted(nodes, rollouts, Some(leaf), i)
        {
          assert NodeCounted(nodes, counts, None, i);
        }
      }
    }

    /** Backpropagation: add one visit and the rollout result to `node` and
        to each of its ancestors up to the root, and to no other node. */
    method Backpropagate(node: nat, result: int)
      requires Linked(nodes) && Expanded(nodes) && Counted(nodes, rollouts, Some(node))
      requires node < |nodes| && -1 <= result <= 1
      modifies this
      ensures Valid()
      ensures nodes[0].visits == old(nodes[0].visits) + 1
      ensures rollouts == old(rollouts) && Shapes(nodes) == Shapes(old(nodes))
      ensures nodes[0].pos == old(nodes[0].pos)
      ensures |nodes| == old(|nodes|)
      ensures forall i :: 0 <= i < |nodes| ==>
        nodes[i].visits == old(nodes[i].visits) + (if OnPath(old(nodes), node, i) then 1 else 0)
        && nodes[i].value == old(nodes[i].value) + (if OnPath(old(nodes), node, i) then result else 0)
    {
      var cur: Option<nat> := Some(node);
      assert Bumped(nodes, nodes, node, cur, result);
      while cur.Some?
        invariant cur.Some? ==> cur.value < |nodes| && OnPath(old(nodes), node, cur.value)
        invariant Linked(nodes) && Expanded(nodes) && Counted(nodes, rollouts, cur)
        invariant rollouts == old(rollouts) && Shapes(nodes) == Shapes(old(nodes))
        invariant nodes[0].visits == old(nodes[0].visits) + (if cur.None? then 1 else 0)
        invariant Bumped(old(nodes), nodes, node, cur, result)
        decreases if cur.Some? then cur.value + 1 else 0
      {
        var c := cur.value;
        var n := nodes[c];
        ghost var before := nodes;
        nodes := nodes[c := n.(visits := n.visits + 1, value := n.value + result)];
        BackpropShape(before, nodes, c, result);
        SameShape(before, nodes);
        BackpropCounted(before, nodes, rollouts, c, result);
        assert NodeLinked(before, c);
        assert Shapes(before)[c] == Shapes(old(nodes))[c];
        BackpropPath(old(nodes), before, nodes, node, c, result);
        cur := n.parent;
      }
      assert Shapes(nodes)[0] == Shapes(old(nodes))[0];
    }
  }

  /** Expansion keeps parents and children in agreement. */
  lemma ExpandLinked(a: seq<Node>, b: seq<Node>, leaf: nat, child: Node)
    requires Linked(a) && leaf < |a| && child.parent == Some(leaf) && child.children == []
    requires exists untried :: b == a[leaf := a[leaf].(children := a[leaf].children + [|a|], untried := untried)] + [child]
    ensures Linked(b)
  {
    forall i | 0 <= i < |b|
      ensures NodeLinked(b, i)
    {
      ExpandLinkedAt(a, b, leaf, child, i);
    }
  }

  /** The same, one node at a time. */
  lemma ExpandLinkedAt(a: seq<Node>, b: seq<Node>, leaf: nat, child: Node, i: nat)
    requires Linked(a) && leaf < |a| && child.parent == Some(leaf) && child.children == []
    requires exists untried :: b == a[leaf := a[leaf].(children := a[leaf].children + [|a|], untried := untried)] + [child]
    requires i < |b|
    ensures NodeLinked(b, i)
  {
    var N := |a|;
    assert b[N].parent == Some(leaf) && b[N].children == [];
    assert b[leaf].children == a[leaf].children + [N];
    if i < N {
      assert NodeLinked(a, i);
      assert i != leaf ==> b[i] == a[i];
      assert b[i].parent == a[i].parent;
      if i > 0 {
        var q := a[i].parent.value;
        assert i in a[q].children;
        if q == leaf {
          var j :| 0 <= j < |a[q].children| && a[q].children[j] == i;
          assert b[q].children[j] == i;
        } else {
          assert b[q] == a[q];
        }
      }
      forall j | 0 <= j < |b[i].children|
        ensures i < b[i].children[j] < |b| && b[b[i].children[j]].parent == Some(i)
      {
        if j < |a[i].children| {
          assert b[i].children[j] == a[i].children[j];
          assert NodeLinked(a, a[i].children[j]);
          var c := a[i].children[j];
          assert c != leaf ==> b[c] == a[c];
        }
      }
    } else {
      assert b[leaf].children[|a[leaf].children|] == N;
    }
  }

  /** Expansion keeps every node's children in step with its legal moves. */
  lemma ExpandExpanded(a: seq<Node>, b: seq<Node>, leaf: nat)
    requires Linked(a) && Expanded(a) && leaf < |a| && |a[leaf].untried| > 0
    requires var n := a[leaf];
      var k := |n.untried| - 1;
      NodeExpanded(a, leaf)
      && b == a[leaf := n.(children := n.children + [|a|], untried := n.untried[..k])]
              + [NewNode(n.pos.children[k].next, Some(leaf), Some(n.untried[k]))]
    ensures Expanded(b)
  {
    var n := a[leaf];
    var k := |n.untried| - 1;
    var N := |a|;
    forall i | 0 <= i < |b|
      ensures NodeExpanded(b, i)
    {
      if i == N {
        assert b[N].untried == LegalMoves(b[N].pos)[..|LegalMoves(b[N].pos)|];
      } else if i == leaf {
        assert n.untried[k] == LegalMoves(n.pos)[k];
        assert b[leaf].untried == LegalMoves(n.pos)[..k];
        forall j | 0 <= j < |b[leaf].children|
          ensures b[leaf].children[j] < |b|
          ensures b[b[leaf].children[j]].pos == n.pos.children[|n.pos.children| - 1 - j].next
          ensures b[b[leaf].children[j]].move == Some(n.pos.children[|n.pos.children| - 1 - j].move)
        {
          if j < |n.children| {
            assert NodeLinked(a, leaf);
            assert b[leaf].children[j] == n.children[j];
          }
        }
      } else {
        assert NodeExpanded(a, i);
        assert NodeLinked(a, i);
        forall j | 0 <= j < |b[i].children|
          ensures b[b[i].children[j]].pos == a[a[i].children[j]].pos
          ensures b[b[i].children[j]].move == a[a[i].children[j]].move
        {
          var c := a[i].children[j];
          if c == leaf {
            assert a[leaf].parent == Some(i);
          }
        }
      }
    }
  }

  /** Expansion leaves the new node pending its first rollout and every
      other count as it was. */
  lemma ExpandCounted(a: seq<Node>, b: seq<Node>, rollouts: seq<nat>, leaf: nat, child: Node)
    requires Linked(a) && Counted(a, rollouts, None) && leaf < |a|
    requires child.visits == 0 && child.value == 0 && child.children == []
    requires exists untried :: b == a[leaf := a[leaf].(children := a[leaf].children + [|a|], untried := untried)] + [child]
    ensures Counted(b, rollouts + [1], Some(|a|))
  {
    var N := |a|;
    var r := rollouts + [1];
    forall i | 0 <= i < |b|
      ensures NodeCounted(b, r, Some(N), i)
    {
      if i < N {
        assert NodeCounted(a, rollouts, None, i);
        assert NodeLinked(a, i);
        assert r[i] == rollouts[i];
        SumFrame(a, b, a[i].children);
        if i == leaf {
          SumAppend(b, a[leaf].children, N);
        }
      }
    }
    assert r[0] == rollouts[0];
  }

  /** Whether node `i` lies on the path from node `from` up to the root,
      `from` itself included. */
  ghost predicate OnPath(nodes: seq<Node>, from: nat, i: nat)
    decreases from
  {
    from == i
    || (from < |nodes| && nodes[from].parent.Some? && nodes[from].parent.value < from
        && OnPath(nodes, nodes[from].parent.value, i))
  }

  /** A path only climbs: every node on it is at most its start. */
  lemma {:induction false} OnPathBelow(nodes: seq<Node>, from: nat, i: nat)
    requires OnPath(nodes, from, i)
    ensures i <= from
    decreases from
  {
    if from != i {
      OnPathBelow(nodes, nodes[from].parent.value, i);
    }
  }

  /** The parent of a node on the path from `from` is on it too. */
  lemma {:induction false} OnPathParent(nodes: seq<Node>, from: nat, c: nat)
    requires OnPath(nodes, from, c) && c < |nodes| && nodes[c].parent.Some? && nodes[c].parent.value < c
    ensures OnPath(nodes, from, nodes[c].parent.value)
    decreases from
  {
    if from != c {
      OnPathParent(nodes, nodes[from].parent.value, c);
    }
  }

  /** The nodes backpropagation from `node` has updated while `cur` is the
      next one: those on the path from `node` below `cur`. */
  ghost predicate Done(o: seq<Node>, node: nat, cur: Option<nat>, i: nat) {
    OnPath(o, node, i) && !(cur.Some? && OnPath(o, cur.value, i))
  }

  /** `a` is `o` with one visit and `result` added to each node done so far. */
  ghost predicate Bumped(o: seq<Node>, a: seq<Node>, node: nat, cur: Option<nat>, result: int) {
    |a| == |o|
    && forall i :: 0 <= i < |a| ==>
         a[i].visits == o[i].visits + (if Done(o, node, cur, i) then 1 else 0)
         && a[i].value == o[i].value + (if Done(o, node, cur, i) then result else 0)
  }

  /** One step of backpropagation adds the visit and the result to node `c`
      and passes on to its parent, which is on the path too. */
  lemma BackpropPath(o: seq<Node>, a: seq<Node>, b: seq<Node>, node: nat, c: nat, result: int)
    requires Linked(o) && c < |o| && OnPath(o, node, c) && Bumped(o, a, node, Some(c), result)
    requires b == a[c := a[c].(visits := a[c].visits + 1, value := a[c].value + result)]
    ensures Bumped(o, b, node, o[c].parent, result)
    ensures o[c].parent.Some? ==> OnPath(o, node, o[c].parent.value)
  {
    assert NodeLinked(o, c);
    if o[c].parent.Some? {
      OnPathParent(o, node, c);
      if OnPath(o, o[c].parent.value, c) {
        OnPathBelow(o, o[c].parent.value, c);
      }
    }
    forall i | 0 <= i < |b|
      ensures b[i].visits == o[i].visits + (if Done(o, node, o[c].parent, i) then 1 else 0)
      ensures b[i].value == o[i].value + (if Done(o, node, o[c].parent, i) then result else 0)
    {
      assert Done(o, node, o[c].parent, i) <==> Done(o, node, Some(c), i) || i == c;
    }
  }

  /** A visit changes no shape. */
  lemma BackpropShape(a: seq<Node>, b: seq<Node>, c: nat, result: int)
    requires c < |a| && b == a[c := a[c].(visits := a[c].visits + 1, value := a[c].value + result)]
    ensures Shapes(b) == Shapes(a)
  {
    assert forall i :: 0 <= i < |a| ==> Shapes(b)[i] == Shapes(a)[i];
  }

  /** One step of backpropagation: node `c` gains a visit, and the pending
      visit passes to its parent (or is settled at the root). */
  lemma BackpropCounted(a: seq<Node>, b: seq<Node>, rollouts: seq<nat>, c: nat, result: int)
    requires Linked(a) && Counted(a, rollouts, Some(c)) && c < |a| && -1 <= result <= 1
    requires b == a[c := a[c].(visits := a[c].visits + 1, value := a[c].value + result)]
    ensures Counted(b, rollouts, a[c].parent)
  {
    forall i | 0 <= i < |b|
      ensures NodeCounted(b, rollouts, a[c].parent, i)
    {
      assert NodeCounted(a, rollouts, Some(c), i);
      assert NodeLinked(a, i);
      SumBump(a, b, a[i].children, c);
      if a[c].parent == Some(i) {
        assert NodeLinked(a, c);
      }
      if c in a[i].children {
        var j :| 0 <= j < |a[i].children| && a[i].children[j] == c;
        assert a[c].parent == Some(i);
      }
    }
  }

  // ---------------------------------------------------------------------------
  // Rollout and search

  /** A random game from the board's position to its end: returns 1 when the
      side that is not `rootColor` is mated, -1 when `rootColor` is mated,
      and 0 for any other ending. */
  method Simulate(board: Board, rootColor: Color) returns (result: int)
    requires board.Valid()
    modifies board
    ensures board.Valid() && IsGameOver(board.state) && Reaches(old(board.state), board.state)
    ensures result == 1 <==> IsCheckmate(board.state) && board.state.turn != rootColor
    ensures result == -1 <==> IsCheckmate(board.state) && board.state.turn == rootColor
    ensures result == 0 <==> !IsCheckmate(board.state)
  {
    while !IsGameOver(board.state)
      invariant board.Valid() && Reaches(old(board.state), board.state)
      decreases board.state
    {
      LiveHasMoves(board.state);
      var k :| 0 <= k < |board.state.children|;
      assert board.state.children[k] in board.state.children;
      ReachesStep(old(board.state), board.state, k);
      board.Push(k);
    }
    if IsCheckmate(board.state) {
      var loser := board.turn;
      var winner := Other(loser);
      result := if winner == rootColor then 1 else -1;
    } else {
      result := 0;
    }
  }

  /** The first most-visited child of the root, as `max` with a key picks it. */
  method MostVisited(tree: SearchTree) returns (best: nat)
    requires tree.Valid() && |tree.nodes[0].children| > 0
    ensures var cs := tree.nodes[0].children;
      best < |cs| && (forall l :: 0 <= l < |cs| ==> cs[l] < |tree.nodes|)
      && (forall l :: 0 <= l < best ==> tree.nodes[cs[l]].visits < tree.nodes[cs[best]].visits)
      && (forall l :: 0 <= l < |cs| ==> tree.nodes[cs[l]].visits <= tree.nodes[cs[best]].visits)
  {
    var cs := tree.nodes[0].children;
    assert NodeLinked(tree.nodes, 0);
    best := 0;
    for j := 1 to |cs|
      invariant best < j
      invariant forall l :: 0 <= l < best ==> tree.nodes[cs[l]].visits < tree.nodes[cs[best]].visits
      invariant forall l :: 0 <= l < j ==> tree.nodes[cs[l]].visits <= tree.nodes[cs[best]].visits
    {
      if tree.nodes[cs[j]].visits > tree.nodes[cs[best]].visits {
        best := j;
      }
    }
  }

  /** Every node of a valid tree below the root has been visited. */
  lemma Visited(nodes: seq<Node>, rollouts: seq<nat>)
    requires Linked(nodes) && Counted(nodes, rollouts, None)
    ensures forall i :: 0 < i < |nodes| ==> nodes[i].visits >= 1
    ensures SumVisits(nodes, nodes[0].children) >= |nodes[0].children|
  {
    forall i | 0 < i < |nodes|
      ensures nodes[i].visits >= 1
    {
      assert NodeCounted(nodes, rollouts, None, i);
    }
    assert NodeLinked(nodes, 0);
    SumPositive(nodes, nodes[0].children);
  }

  /** Monte Carlo tree search from the board's position with `simulations`
      iterations; the move into the first most-visited root child, or None
      where the program raises because the root has no child (no iteration,
      or no legal move). */
  method Mcts(board: Board, simulations: nat) returns (move: Option<Move>, tree: SearchTree)
    requires board.Valid()
    ensures fresh(tree) && tree.Valid() && tree.nodes[0].pos == board.state
    ensures tree.nodes[0].visits == simulations
    ensures |board.state.children| > 0 ==> SumVisits(tree.nodes, tree.nodes[0].children) == simulations
    ensures forall i :: 0 < i < |tree.nodes| ==> tree.nodes[i].visits >= 1
    ensures move.None? <==> simulations == 0 || |board.state.children| == 0
    ensures move.Some? ==>
      var cs := tree.nodes[0].children;
      move.value in LegalMoves(board.state)
      && (forall l :: 0 <= l < |cs| ==> cs[l] < |tree.nodes|)
      && (exists j :: 0 <= j < |cs|
            && move == tree.nodes[cs[j]].move
            && (forall l :: 0 <= l < j ==> tree.nodes[cs[l]].visits < tree.nodes[cs[j]].visits)
            && (forall l :: 0 <= l < |cs| ==> tree.nodes[cs[l]].visits <= tree.nodes[cs[j]].visits))
  {
    tree := new SearchTree(board.state);
    var rootColor := board.turn;
    var it := 0;
    while it < simulations
      invariant it <= simulations
      invariant tree.Valid() && tree.nodes[0].pos == board.state && tree.nodes[0].visits == it
    {
      var leaf := tree.Select();
      var node := tree.Expand(leaf);
      var rollout := new Board(tree.nodes[node].pos);
      var result := Simulate(rollout, rootColor);
      tree.Backpropagate(node, result);
      it := it + 1;
    }
    Visited(tree.nodes, tree.rollouts);
    assert NodeCounted(tree.nodes, tree.rollouts, None, 0);
    assert NodeExpanded(tree.nodes, 0);
    var cs := tree.nodes[0].children;
    if |cs| == 0 {
      return None, tree;
    }
    var best := MostVisited(tree);
    move := tree.nodes[cs[best]].move;
    ghost var count := |board.state.children|;
    assert move.value == LegalMoves(board.state)[count - 1 - best];
  }
}
