/**
  * Single-source shortest paths by Dijkstra's algorithm with a priority queue
  * and lazy deletion: each node records its best known cost and the nodes
  * before it on the walk of that cost; nodes are settled in order of cost,
  * and the result is the recorded walk to the destination.
  */
module ShortestPath {
  import opened Graphs
  import opened HeapQueue

  /** A best known cost; Unreached stands for the "infinite" starting cost. */
  datatype Cost = Reached(value: nat) | Unreached

  /** The per-node record: best known cost and the nodes before it on a walk of that cost. */
  datatype NodeData = NodeData(cost: Cost, pred: seq<Node>)

  /** A cost c improves on d: every number is below the "infinite" cost. */
  predicate Improves(c: nat, d: Cost) {
    d.Unreached? || c < d.value
  }

  // ---------------------------------------------------------------------------
  // Invariants of the search
  // ---------------------------------------------------------------------------

  /** Every reached node records a walk from the source whose weight is its cost. */
  ghost predicate WalksRecorded(g: Graph<Node>, src: Node, nd: map<Node, NodeData>) {
    forall v :: v in nd && nd[v].cost.Reached? ==>
      IsPath(g, nd[v].pred + [v], src, v) && Weight(g, nd[v].pred + [v]) == nd[v].cost.value
  }

  /** A node not reached yet has no predecessors. */
  ghost predicate UnreachedEmpty(nd: map<Node, NodeData>) {
    forall v :: v in nd && nd[v].cost.Unreached? ==> nd[v].pred == []
  }

  /** Every visited node is reached. */
  ghost predicate VisitedReached(nd: map<Node, NodeData>, visited: set<Node>) {
    forall x :: x in visited ==> x in nd && nd[x].cost.Reached?
  }

  /** The cost of a visited node is at most the weight of any walk to it. */
  ghost predicate VisitedOptimal(g: Graph<Node>, src: Node, nd: map<Node, NodeData>, visited: set<Node>)
    requires VisitedReached(nd, visited)
  {
    forall x, p :: x in visited && IsPath(g, p, src, x) ==> nd[x].cost.value <= Weight(g, p)
  }

  /** Every edge from a visited node x to an unvisited y has been relaxed. */
  ghost predicate Relaxed(g: Graph<Node>, nd: map<Node, NodeData>, visited: set<Node>)
    requires VisitedReached(nd, visited)
  {
    forall x, y :: x in visited && x in g && y in g[x] && y !in visited ==>
      y in nd && nd[y].cost.Reached? && nd[y].cost.value <= nd[x].cost.value + g[x][y]
  }

  /**
    * Every queued entry is for a reached node at no less than its cost, and
    * every reached unvisited node is queued at exactly its cost.
    */
  ghost predicate QueueTracks(nd: map<Node, NodeData>, visited: set<Node>, heap: multiset<Entry>) {
    && (forall e :: e in heap ==> e.node in nd && nd[e.node].cost.Reached? && nd[e.node].cost.value <= e.cost)
    && (forall v :: v in nd && v !in visited && nd[v].cost.Reached? ==> Entry(nd[v].cost.value, v) in heap)
  }

  /** The edges from temp to the nodes of todo may still be unrelaxed; every other one is relaxed. */
  ghost predicate RelaxedExcept(g: Graph<Node>, nd: map<Node, NodeData>, visited: set<Node>,
                                temp: Node, todo: set<Node>)
    requires VisitedReached(nd, visited)
  {
    forall x, y :: x in visited && x in g && y in g[x] && y !in visited && !(x == temp && y in todo) ==>
      y in nd && nd[y].cost.Reached? && nd[y].cost.value <= nd[x].cost.value + g[x][y]
  }

  /** What the search knows of the recorded costs and walks. */
  ghost predicate Recorded(g: Graph<Node>, src: Node, nd: map<Node, NodeData>, visited: set<Node>) {
    && nd.Keys == g.Keys
    && visited <= g.Keys
    && src in nd && nd[src] == NodeData(Reached(0), [])
    && WalksRecorded(g, src, nd)
    && UnreachedEmpty(nd)
    && VisitedReached(nd, visited)
    && VisitedOptimal(g, src, nd, visited)
  }

  /** The invariant of the search between two queue pops. */
  ghost predicate SearchInvariant(g: Graph<Node>, src: Node, nd: map<Node, NodeData>,
                                  visited: set<Node>, heap: multiset<Entry>)
  {
    Recorded(g, src, nd, visited) && Relaxed(g, nd, visited) && QueueTracks(nd, visited, heap)
  }

  /**
    * The search invariant while the edges from temp to the nodes of todo are
    * still to be relaxed.
    */
  ghost predicate SearchInvariantBut(g: Graph<Node>, src: Node, nd: map<Node, NodeData>,
                                     visited: set<Node>, heap: multiset<Entry>, temp: Node, todo: set<Node>)
  {
    Recorded(g, src, nd, visited) && RelaxedExcept(g, nd, visited, temp, todo) && QueueTracks(nd, visited, heap)
  }

  /**
    * Any walk from the source to an unvisited node passes an unvisited node
    * that is reached at a cost no greater than the weight of the walk.
    */
  lemma {:induction false} FrontierBound(g: Graph<Node>, src: Node, nd: map<Node, NodeData>,
                                         visited: set<Node>, p: seq<Node>, v: Node)
    returns (y: Node)
    requires src in nd && nd[src].cost == Reached(0)
    requires VisitedReached(nd, visited)
    requires VisitedOptimal(g, src, nd, visited) && Relaxed(g, nd, visited)
    requires IsPath(g, p, src, v) && v !in visited
    ensures y in nd && y !in visited && nd[y].cost.Reached? && nd[y].cost.value <= Weight(g, p)
    decreases |p|
  {
    if |p| == 1 {
      y := src;
    } else {
      var q := p[..|p| - 1];
      var u := p[|p| - 2];
      WalkPrefix(g, p);
      assert IsPath(g, q, src, u);
      if u in visited {
        y := v;
      } else {
        y := FrontierBound(g, src, nd, visited, q, u);
      }
    }
  }

  // ---------------------------------------------------------------------------
  // The order in which nodes are settled (positive weights)
  // ---------------------------------------------------------------------------

  /** The queue entry of a reached node at its recorded cost. */
  function CostEntry(nd: map<Node, NodeData>, x: Node): Entry
    requires x in nd && nd[x].cost.Reached?
  {
    Entry(nd[x].cost.value, x)
  }

  /** Every visited node comes, in (cost, label) order, before every queued entry. */
  ghost predicate SettledFirst(nd: map<Node, NodeData>, visited: set<Node>, heap: multiset<Entry>)
    requires VisitedReached(nd, visited)
  {
    forall x, e :: x in visited && e in heap ==> EntryLe(CostEntry(nd, x), e)
  }

  /** temp is the node visited last: every visited node comes before it in (cost, label) order. */
  ghost predicate SettledLast(nd: map<Node, NodeData>, visited: set<Node>, temp: Node)
    requires VisitedReached(nd, visited) && temp in visited
  {
    forall x :: x in visited ==> EntryLe(CostEntry(nd, x), CostEntry(nd, temp))
  }

  /**
    * The walk recorded for v, a node other than the source, extends the walk
    * recorded for its last node u, a visited node whose edge gives v its cost;
    * and every visited node x whose edge gives v the same cost comes after u
    * in (cost, label) order, unless x is temp and v is in todo: an edge still
    * to be looked at.
    */
  ghost predicate ParentFirst(g: Graph<Node>, nd: map<Node, NodeData>, visited: set<Node>, v: Node,
                              temp: Node, todo: set<Node>)
    requires VisitedReached(nd, visited) && v in nd && nd[v].pred != []
  {
    var u := nd[v].pred[|nd[v].pred| - 1];
    && u in visited && u in g && v in g[u]
    && nd[v].pred == nd[u].pred + [u]
    && nd[v].cost == Reached(nd[u].cost.value + g[u][v])
    && forall x ::
         (x in visited && !(x == temp && v in todo) && x in g && v in g[x] &&
          nd[x].cost.value + g[x][v] == nd[v].cost.value) ==>
         EntryLe(CostEntry(nd, u), CostEntry(nd, x))
  }

  /**
    * ParentFirst for every node with a recorded walk, while the edges from
    * temp to the nodes of todo are still to be looked at (none when todo is
    * empty).
    */
  ghost predicate ParentsFirst(g: Graph<Node>, nd: map<Node, NodeData>, visited: set<Node>, temp: Node, todo: set<Node>)
    requires VisitedReached(nd, visited)
  {
    forall v {:trigger ParentFirst(g, nd, visited, v, temp, todo)} :: v in nd && nd[v].pred != [] ==>
      ParentFirst(g, nd, visited, v, temp, todo)
  }

  /**
    * Each node of p after the first is entered from the node that comes
    * first, in (cost, label) order, among the last steps of the lightest
    * walks from src to it.
    */
  ghost predicate FirstInOrder(g: Graph<Node>, src: Node, p: seq<Node>)
    requires IsWalk(g, p)
  {
    forall i :: 0 < i < |p| ==> LeastStepAt(g, src, p, i)
  }

  /**
    * No walk q from src to a node x with an edge to p[i] is, through that
    * edge, at most as heavy as p up to p[i] while x comes before p[i - 1] in
    * (cost, label) order.
    */
  ghost predicate LeastStepAt(g: Graph<Node>, src: Node, p: seq<Node>, i: int)
    requires IsWalk(g, p) && 0 < i < |p|
  {
    assert IsWalk(g, p[..i]) && IsWalk(g, p[..i + 1]);
    forall q, x :: IsPath(g, q, src, x) && p[i] in g[x] && Weight(g, q) + g[x][p[i]] <= Weight(g, p[..i + 1]) ==>
      EntryLe(Entry(Weight(g, p[..i]), p[i - 1]), Entry(Weight(g, q), x))
  }

  // ---------------------------------------------------------------------------
  // The search
  // ---------------------------------------------------------------------------

  /**
    * The shortest walk from src to dst: src alone when they are equal, a walk
    * of least total weight when dst can be reached, and dst alone when it
    * cannot; returned with its printed form, the labels joined by spaces.
    * With positive weights, ties between equally light walks go to the
    * walk whose every step comes from the first node in (cost, label) order.
    */
  method Dijkstra(g: Graph<Node>, src: Node, dst: Node) returns (path: seq<Node>, shortestPath: string)
    requires Closed(g) && src in g && dst in g
    ensures shortestPath == JoinWords(path)
    ensures src == dst ==> path == [dst]
    ensures Reachable(g, src, dst) ==>
              IsPath(g, path, src, dst) && forall p :: IsPath(g, p, src, dst) ==> Weight(g, path) <= Weight(g, p)
    ensures !Reachable(g, src, dst) ==> path == [dst]
    ensures PositiveWeights(g) ==> FirstInOrder(g, src, path)
  {
    var nodeData := map k | k in g :: NodeData(Unreached, []);
    nodeData := nodeData[src := NodeData(Reached(0), [])];
    var visited: set<Node> := {};
    var heap := multiset{Entry(0, src)};
    ghost var settled: map<Node, NodeData> := map[];
    SearchStarts(g, src, nodeData);
    while heap != multiset{}
      invariant SearchInvariant(g, src, nodeData, visited, heap)
      invariant PositiveWeights(g) ==> SettledFirst(nodeData, visited, heap) && ParentsFirst(g, nodeData, visited, src, {})
      invariant SettledKept(nodeData, visited, settled)
      decreases |g.Keys - visited|, |heap|
    {
      ghost var queued := heap;
      var e;
      e, heap := HeapPop(heap);
      var temp := e.node;
      if src == dst {
        break;
      }
      if temp in visited {
        SkipVisited(g, src, nodeData, visited, queued, e);
        continue;
      }
      SettleNext(g, src, nodeData, visited, queued, e);
      if PositiveWeights(g) {
        SettleOrder(g, src, nodeData, visited, queued, e);
      }
      VisitShrinksUnvisited(g, visited, temp);
      settled := Settle(nodeData, visited, settled, temp);
      visited := visited + {temp};
      var neighbours := g[temp];
      if |neighbours| == 0 {
        NoNeighbours(g, src, nodeData, visited, heap, temp);
        continue;
      }
      ghost var before := nodeData;
      nodeData, heap := RelaxNeighbours(g, src, nodeData, visited, heap, temp);
      SettledUnchanged(g[temp], before, nodeData, visited, settled);
    }
    path := nodeData[dst].pred + [dst];
    shortestPath := JoinWords(path);
    if src != dst {
      SearchEnds(g, src, dst, nodeData, visited);
      if PositiveWeights(g) {
        TieBreakEnds(g, src, dst, nodeData, visited);
      }
    }
  }

  /** The records of the visited nodes are the ones they had when they were visited. */
  ghost predicate SettledKept(nd: map<Node, NodeData>, visited: set<Node>, settled: map<Node, NodeData>) {
    forall v :: v in visited ==> v in settled && v in nd && nd[v] == settled[v]
  }

  /** Visiting temp adds its current record to the snapshot. */
  ghost function Settle(nd: map<Node, NodeData>, visited: set<Node>, settled: map<Node, NodeData>, temp: Node): (s: map<Node, NodeData>)
    requires temp in nd && SettledKept(nd, visited, settled)
    ensures SettledKept(nd, visited + {temp}, s)
  {
    settled[temp := nd[temp]]
  }

  /** The relaxation leaves the records of visited nodes alone, so they still match the snapshot. */
  lemma SettledUnchanged(nb: map<Node, nat>, nd: map<Node, NodeData>, nd': map<Node, NodeData>,
                         visited: set<Node>, settled: map<Node, NodeData>)
    requires SettledKept(nd, visited, settled)
    requires nd'.Keys == nd.Keys
    requires forall v :: v in nd && (v in visited || v !in nb) ==> nd'[v] == nd[v]
    ensures SettledKept(nd', visited, settled)
  {
  }

  lemma SearchStarts(g: Graph<Node>, src: Node, nd: map<Node, NodeData>)
    requires src in g
    requires nd == (map k | k in g :: NodeData(Unreached, []))[src := NodeData(Reached(0), [])]
    ensures SearchInvariant(g, src, nd, {}, multiset{Entry(0, src)})
    ensures SettledFirst(nd, {}, multiset{Entry(0, src)}) && ParentsFirst(g, nd, {}, src, {})
  {
    assert IsPath(g, [src], src, src);
  }

  /** An entry for a node already visited is dropped without changing anything else. */
  lemma SkipVisited(g: Graph<Node>, src: Node, nd: map<Node, NodeData>, visited: set<Node>,
                    heap: multiset<Entry>, e: Entry)
    requires SearchInvariant(g, src, nd, visited, heap)
    requires e in heap && e.node in visited
    ensures SearchInvariant(g, src, nd, visited, heap - multiset{e})
    ensures SettledFirst(nd, visited, heap) ==> SettledFirst(nd, visited, heap - multiset{e})
  {
  }

  lemma VisitShrinksUnvisited(g: Graph<Node>, visited: set<Node>, temp: Node)
    requires temp in g && temp !in visited
    ensures |g.Keys - (visited + {temp})| < |g.Keys - visited|
  {
    assert g.Keys - visited == (g.Keys - (visited + {temp})) + {temp};
  }

  /** A visited node without neighbours has no edges to relax. */
  lemma NoNeighbours(g: Graph<Node>, src: Node, nd: map<Node, NodeData>, visited: set<Node>,
                     heap: multiset<Entry>, temp: Node)
    requires temp in g && |g[temp]| == 0
    requires SearchInvariantBut(g, src, nd, visited, heap, temp, g[temp].Keys)
    ensures SearchInvariant(g, src, nd, visited, heap)
    ensures ParentsFirst(g, nd, visited, temp, g[temp].Keys) ==> ParentsFirst(g, nd, visited, src, {})
  {
    assert g[temp].Keys == {};
    RelaxedAll(g, nd, visited, temp);
    if ParentsFirst(g, nd, visited, temp, g[temp].Keys) {
      NothingPending(g, nd, visited, temp, src);
    }
  }

  /** With no edge left to look at, it does not matter which node was visited last. */
  lemma NothingPending(g: Graph<Node>, nd: map<Node, NodeData>, visited: set<Node>, temp: Node, src: Node)
    requires VisitedReached(nd, visited) && ParentsFirst(g, nd, visited, temp, {})
    ensures ParentsFirst(g, nd, visited, src, {})
  {
    forall v | v in nd && nd[v].pred != []
      ensures ParentFirst(g, nd, visited, v, src, {})
    {
      assert ParentFirst(g, nd, visited, v, temp, {});
    }
  }

  lemma RelaxedAll(g: Graph<Node>, nd: map<Node, NodeData>, visited: set<Node>, temp: Node)
    requires VisitedReached(nd, visited) && RelaxedExcept(g, nd, visited, temp, {})
    ensures Relaxed(g, nd, visited)
  {
  }

  /**
    * Once the queue is empty every node reachable from the source is visited,
    * so the walk recorded for dst is a shortest one; a node never reached
    * keeps no predecessors.
    */
  lemma SearchEnds(g: Graph<Node>, src: Node, dst: Node, nd: map<Node, NodeData>, visited: set<Node>)
    requires dst in g && SearchInvariant(g, src, nd, visited, multiset{})
    ensures Reachable(g, src, dst) ==>
              IsPath(g, nd[dst].pred + [dst], src, dst) &&
              forall p :: IsPath(g, p, src, dst) ==> Weight(g, nd[dst].pred + [dst]) <= Weight(g, p)
    ensures !Reachable(g, src, dst) ==> nd[dst].pred == []
  {
    if Reachable(g, src, dst) {
      var p :| IsPath(g, p, src, dst);
      ReachableVisited(g, src, nd, visited, p, dst);
    }
  }

  /** Once the queue is empty, every node some walk from the source reaches is visited. */
  lemma ReachableVisited(g: Graph<Node>, src: Node, nd: map<Node, NodeData>, visited: set<Node>, p: seq<Node>, x: Node)
    requires SearchInvariant(g, src, nd, visited, multiset{}) && IsPath(g, p, src, x)
    ensures x in visited
  {
    if x !in visited {
      var y := FrontierBound(g, src, nd, visited, p, x);
    }
  }

  /**
    * Once the queue is empty, with the parents recorded first in (cost,
    * label) order, every step of the walk recorded for dst comes from the
    * first node in that order among the last steps of lightest walks.
    */
  lemma TieBreakEnds(g: Graph<Node>, src: Node, dst: Node, nd: map<Node, NodeData>, visited: set<Node>)
    requires dst in g && SearchInvariant(g, src, nd, visited, multiset{}) && ParentsFirst(g, nd, visited, src, {})
    ensures IsWalk(g, nd[dst].pred + [dst]) && FirstInOrder(g, src, nd[dst].pred + [dst])
  {
    var p := nd[dst].pred + [dst];
    if nd[dst].pred == [] {
      assert p == [dst];
    } else {
      RecordedWalk(g, src, nd, visited, dst);
      PredChain(g, src, nd, visited, dst);
      forall i | 0 < i < |p|
        ensures LeastStepAt(g, src, p, i)
      {
        if i < |p| - 1 {
          assert nd[p[i]].pred == nd[dst].pred[..i];
        }
        assert nd[dst].pred[..i] == p[..i];
        LastStepFirst(g, src, nd, visited, p, i);
      }
    }
  }

  /** The walk recorded for a node with predecessors is a walk. */
  lemma RecordedWalk(g: Graph<Node>, src: Node, nd: map<Node, NodeData>, visited: set<Node>, v: Node)
    requires Recorded(g, src, nd, visited) && v in nd && nd[v].pred != []
    ensures nd[v].cost.Reached? && IsPath(g, nd[v].pred + [v], src, v)
  {
  }

  /** The walk recorded for each node on a recorded walk is the part of that walk before it. */
  lemma {:induction false} PredChain(g: Graph<Node>, src: Node, nd: map<Node, NodeData>, visited: set<Node>, v: Node)
    requires VisitedReached(nd, visited) && ParentsFirst(g, nd, visited, src, {}) && v in nd
    ensures forall k :: 0 <= k < |nd[v].pred| ==> nd[v].pred[k] in nd && nd[nd[v].pred[k]].pred == nd[v].pred[..k]
    decreases |nd[v].pred|
  {
    if nd[v].pred != [] {
      assert ParentFirst(g, nd, visited, v, src, {});
      var u := nd[v].pred[|nd[v].pred| - 1];
      PredChain(g, src, nd, visited, u);
      forall k | 0 <= k < |nd[v].pred|
        ensures nd[v].pred[k] in nd && nd[nd[v].pred[k]].pred == nd[v].pred[..k]
      {
        if k < |nd[u].pred| {
          assert nd[v].pred[k] == nd[u].pred[k];
          assert nd[v].pred[..k] == nd[u].pred[..k];
        } else {
          assert nd[v].pred[..k] == nd[u].pred;
        }
      }
    }
  }

  /**
    * Once the queue is empty, when the walk recorded for p[i] is p up to
    * p[i], its last step comes from the first node in (cost, label) order
    * among the last steps of lightest walks to p[i].
    */
  lemma LastStepFirst(g: Graph<Node>, src: Node, nd: map<Node, NodeData>, visited: set<Node>, p: seq<Node>, i: int)
    requires SearchInvariant(g, src, nd, visited, multiset{}) && ParentsFirst(g, nd, visited, src, {})
    requires IsWalk(g, p) && 0 < i < |p| && p[i] in nd && nd[p[i]].pred == p[..i]
    ensures LeastStepAt(g, src, p, i)
  {
    var v := p[i];
    assert ParentFirst(g, nd, visited, v, src, {});
    var u := p[i - 1];
    var w := p[..i + 1];
    assert w == nd[v].pred + [v];
    assert nd[u].pred + [u] == p[..i];
    ReachableVisited(g, src, nd, visited, w, v);
    forall q, x | IsPath(g, q, src, x) && v in g[x] && Weight(g, q) + g[x][v] <= Weight(g, w)
      ensures EntryLe(Entry(Weight(g, p[..i]), u), Entry(Weight(g, q), x))
    {
      ReachableVisited(g, src, nd, visited, q, x);
      var r := nd[x].pred + [x];
      WalkExtend(g, r, v);
      assert IsPath(g, r + [v], src, v);
    }
  }

  /**
    * Taking the least entry e off the queue, for a node not yet visited,
    * keeps the invariant once that node is visited: its cost is already the
    * least weight of any walk to it.
    */
  lemma SettleNext(g: Graph<Node>, src: Node, nd: map<Node, NodeData>, visited: set<Node>,
                   heap: multiset<Entry>, e: Entry)
    requires SearchInvariant(g, src, nd, visited, heap)
    requires IsMinOf(e, heap) && e.node !in visited
    ensures e.node in g
    ensures SearchInvariantBut(g, src, nd, visited + {e.node}, heap - multiset{e}, e.node, g[e.node].Keys)
  {
    SettledOptimal(g, src, nd, visited, heap, e);
    SettledQueue(nd, visited, heap, e);
    SettledRelaxed(g, nd, visited, e.node);
  }

  /**
    * The least entry e is the entry of its node at its recorded cost, so the
    * node it settles comes after every visited node and before every entry
    * left in the queue; its edges are still to be looked at.
    */
  lemma SettleOrder(g: Graph<Node>, src: Node, nd: map<Node, NodeData>, visited: set<Node>, heap: multiset<Entry>, e: Entry)
    requires VisitedReached(nd, visited) && QueueTracks(nd, visited, heap) && nd.Keys == g.Keys
    requires IsMinOf(e, heap) && e.node !in visited
    requires SettledFirst(nd, visited, heap) && ParentsFirst(g, nd, visited, src, {})
    ensures e.node in g && nd[e.node].cost.Reached? && e == CostEntry(nd, e.node)
    ensures VisitedReached(nd, visited + {e.node})
    ensures SettledFirst(nd, visited + {e.node}, heap - multiset{e})
    ensures SettledLast(nd, visited + {e.node}, e.node)
    ensures ParentsFirst(g, nd, visited + {e.node}, e.node, g[e.node].Keys)
  {
    var temp := e.node;
    assert CostEntry(nd, temp) in heap;
    assert EntryLe(e, CostEntry(nd, temp));
    EntryLeReflexive(e);
    forall v | v in nd && nd[v].pred != []
      ensures ParentFirst(g, nd, visited + {temp}, v, temp, g[temp].Keys)
    {
      assert ParentFirst(g, nd, visited, v, src, {});
    }
  }

  /** The least queued node costs no more than any walk to it. */
  lemma SettledOptimal(g: Graph<Node>, src: Node, nd: map<Node, NodeData>, visited: set<Node>,
                       heap: multiset<Entry>, e: Entry)
    requires src in nd && nd[src].cost == Reached(0)
    requires VisitedReached(nd, visited)
    requires VisitedOptimal(g, src, nd, visited) && Relaxed(g, nd, visited)
    requires QueueTracks(nd, visited, heap)
    requires IsMinOf(e, heap) && e.node !in visited
    ensures VisitedReached(nd, visited + {e.node})
    ensures VisitedOptimal(g, src, nd, visited + {e.node})
  {
    var temp := e.node;
    forall p | IsPath(g, p, src, temp) ensures nd[temp].cost.value <= Weight(g, p) {
      var y := FrontierBound(g, src, nd, visited, p, temp);
      assert Entry(nd[y].cost.value, y) in heap;
    }
  }

  lemma SettledQueue(nd: map<Node, NodeData>, visited: set<Node>, heap: multiset<Entry>, e: Entry)
    requires QueueTracks(nd, visited, heap) && e in heap
    ensures QueueTracks(nd, visited + {e.node}, heap - multiset{e})
  {
  }

  lemma SettledRelaxed(g: Graph<Node>, nd: map<Node, NodeData>, visited: set<Node>, temp: Node)
    requires VisitedReached(nd, visited + {temp}) && Relaxed(g, nd, visited)
    ensures RelaxedExcept(g, nd, visited + {temp}, temp, if temp in g then g[temp].Keys else {})
  {
  }

  /**
    * The record of j once the edge from temp, of weight w, is relaxed: the
    * walk through temp at its cost when that is strictly cheaper, otherwise
    * the record j had.
    */
  function RelaxedRecord(nd: map<Node, NodeData>, temp: Node, w: nat, j: Node): (r: NodeData)
    requires temp in nd && j in nd && nd[temp].cost.Reached?
    ensures r.cost.Reached? && r.cost.value <= nd[temp].cost.value + w
    ensures nd[j].cost.Reached? ==> r.cost.value <= nd[j].cost.value
    ensures r == nd[j] || r == NodeData(Reached(nd[temp].cost.value + w), nd[temp].pred + [temp])
  {
    var cost := nd[temp].cost.value + w;
    if Improves(cost, nd[j].cost) then NodeData(Reached(cost), nd[temp].pred + [temp]) else nd[j]
  }

  /**
    * The records after the neighbours of temp outside todo have been relaxed:
    * the same nodes, each unvisited neighbour done so far holds its relaxed
    * record and is queued once more at its new cost, and nothing else changed.
    */
  ghost predicate RelaxedSoFar(nd: map<Node, NodeData>, nb: map<Node, nat>, visited: set<Node>, heap: multiset<Entry>,
                               temp: Node, todo: set<Node>, nd': map<Node, NodeData>, heap': multiset<Entry>)
    requires temp in nd && nd[temp].cost.Reached?
  {
    && nd'.Keys == nd.Keys
    && (forall v {:trigger nd'[v]} :: v in nd && (v in visited || v !in nb || v in todo) ==> nd'[v] == nd[v])
    && (forall j {:trigger nd'[j]} :: j in nb && j in nd && j !in todo && j !in visited ==> nd'[j] == RelaxedRecord(nd, temp, nb[j], j))
    && (forall e {:trigger heap'[e]} :: heap'[e] == heap[e] +
          if e.node in nb && e.node in nd' && e.node !in todo && e.node !in visited && nd'[e.node].cost == Reached(e.cost)
          then 1 else 0)
  }

  lemma NothingRelaxed(nd: map<Node, NodeData>, nb: map<Node, nat>, visited: set<Node>, heap: multiset<Entry>, temp: Node)
    requires temp in nd && nd[temp].cost.Reached?
    ensures RelaxedSoFar(nd, nb, visited, heap, temp, nb.Keys, nd, heap)
  {
  }

  lemma AllRelaxed(nd: map<Node, NodeData>, nb: map<Node, nat>, visited: set<Node>, heap: multiset<Entry>, temp: Node,
                   nd': map<Node, NodeData>, heap': multiset<Entry>)
    requires temp in nd && nd[temp].cost.Reached? && nb.Keys <= nd.Keys
    requires RelaxedSoFar(nd, nb, visited, heap, temp, {}, nd', heap')
    ensures nd'.Keys == nd.Keys
    ensures forall v :: v in nd && (v in visited || v !in nb) ==> nd'[v] == nd[v]
    ensures forall j :: j in nb && j !in visited ==> nd'[j] == RelaxedRecord(nd, temp, nb[j], j)
    ensures forall e :: heap'[e] == heap[e] +
              if e.node in nb && e.node !in visited && nd'[e.node].cost == Reached(e.cost) then 1 else 0
  {
  }

  lemma RelaxStepRecords(nd: map<Node, NodeData>, nb: map<Node, nat>, visited: set<Node>, heap: multiset<Entry>,
                         temp: Node, todo: set<Node>, j: Node,
                         nd0: map<Node, NodeData>, heap0: multiset<Entry>, nd': map<Node, NodeData>, heap': multiset<Entry>)
    requires temp in nd && nd[temp].cost.Reached? && temp in visited
    requires j in todo && j in nb && j in nd && j !in visited
    requires RelaxedSoFar(nd, nb, visited, heap, temp, todo, nd0, heap0)
    requires nd' == nd0[j := RelaxedRecord(nd0, temp, nb[j], j)]
    requires heap' == heap0 + multiset{Entry(nd'[j].cost.value, j)}
    ensures RelaxedSoFar(nd, nb, visited, heap, temp, todo - {j}, nd', heap')
  {
    assert nd0[temp] == nd[temp] && nd0[j] == nd[j];
    assert nd'[j] == RelaxedRecord(nd, temp, nb[j], j);
  }

  lemma SkipStepRecords(nd: map<Node, NodeData>, nb: map<Node, nat>, visited: set<Node>, heap: multiset<Entry>,
                        temp: Node, todo: set<Node>, j: Node, nd': map<Node, NodeData>, heap': multiset<Entry>)
    requires temp in nd && nd[temp].cost.Reached? && j in visited
    requires RelaxedSoFar(nd, nb, visited, heap, temp, todo, nd', heap')
    ensures RelaxedSoFar(nd, nb, visited, heap, temp, todo - {j}, nd', heap')
  {
  }

  /**
    * The loop over the neighbours of the node just visited: every unvisited
    * neighbour j gets cost min(its cost, cost of temp + edge weight), taking
    * the walk through temp when that is strictly cheaper, and is queued once
    * at its new cost; every other record stays as it was. The neighbours are
    * taken in no particular order.
    */
  method RelaxNeighbours(g: Graph<Node>, src: Node, nd: map<Node, NodeData>, visited: set<Node>,
                         heap: multiset<Entry>, temp: Node)
    returns (nd': map<Node, NodeData>, heap': multiset<Entry>)
    requires Closed(g) && temp in g && temp in visited
    requires SearchInvariantBut(g, src, nd, visited, heap, temp, g[temp].Keys)
    requires PositiveWeights(g) ==>
               SettledFirst(nd, visited, heap) && SettledLast(nd, visited, temp) &&
               ParentsFirst(g, nd, visited, temp, g[temp].Keys)
    ensures SearchInvariant(g, src, nd', visited, heap')
    ensures nd'.Keys == nd.Keys
    ensures forall v :: v in nd && (v in visited || v !in g[temp]) ==> nd'[v] == nd[v]
    ensures forall j :: j in g[temp] && j !in visited ==> nd'[j] == RelaxedRecord(nd, temp, g[temp][j], j)
    ensures forall e :: heap'[e] == heap[e] +
              if e.node in g[temp] && e.node !in visited && nd'[e.node].cost == Reached(e.cost) then 1 else 0
    ensures PositiveWeights(g) ==> SettledFirst(nd', visited, heap') && ParentsFirst(g, nd', visited, src, {})
  {
    nd', heap' := nd, heap;
    var todo := g[temp].Keys;
    NothingRelaxed(nd, g[temp], visited, heap, temp);
    while todo != {}
      invariant todo <= g[temp].Keys
      invariant RelaxedSoFar(nd, g[temp], visited, heap, temp, todo, nd', heap')
      decreases |todo|
    {
      var j :| j in todo;
      if j !in visited {
        ghost var nd0, heap0 := nd', heap';
        nd' := nd'[j := RelaxedRecord(nd', temp, g[temp][j], j)];
        heap' := heap' + multiset{Entry(nd'[j].cost.value, j)};
        RelaxStepRecords(nd, g[temp], visited, heap, temp, todo, j, nd0, heap0, nd', heap');
      } else {
        SkipStepRecords(nd, g[temp], visited, heap, temp, todo, j, nd', heap');
      }
      todo := todo - {j};
    }
    AllRelaxed(nd, g[temp], visited, heap, temp, nd', heap');
    RelaxationKeepsSearch(g, src, nd, visited, heap, temp, nd', heap');
    if PositiveWeights(g) {
      RelaxationKeepsOrder(g, src, nd, visited, heap, temp, nd', heap');
    }
  }

  /**
    * Relaxing every edge from temp keeps the search invariant: a record
    * changes only to the walk through temp, at a lower cost, and is queued
    * at that cost.
    */
  lemma RelaxationKeepsSearch(g: Graph<Node>, src: Node, nd: map<Node, NodeData>, visited: set<Node>,
                              heap: multiset<Entry>, temp: Node, nd': map<Node, NodeData>, heap': multiset<Entry>)
    requires Closed(g) && temp in g && temp in visited
    requires SearchInvariantBut(g, src, nd, visited, heap, temp, g[temp].Keys)
    requires RelaxedSoFar(nd, g[temp], visited, heap, temp, {}, nd', heap')
    ensures SearchInvariant(g, src, nd', visited, heap')
  {
    WalksAfterRelax(g, src, nd, visited, heap, temp, nd', heap');
    VisitedAfterRelax(g, src, nd, visited, heap, temp, nd', heap');
    RelaxedAfterRelax(g, nd, visited, heap, temp, nd', heap');
    QueueAfterRelax(g, nd, visited, heap, temp, nd', heap');
    if src in g[temp] && src !in visited {
      assert nd'[src] == RelaxedRecord(nd, temp, g[temp][src], src);
    }
  }

  lemma WalksAfterRelax(g: Graph<Node>, src: Node, nd: map<Node, NodeData>, visited: set<Node>,
                        heap: multiset<Entry>, temp: Node, nd': map<Node, NodeData>, heap': multiset<Entry>)
    requires Closed(g) && temp in g && temp in visited && nd.Keys == g.Keys
    requires VisitedReached(nd, visited) && WalksRecorded(g, src, nd) && UnreachedEmpty(nd)
    requires RelaxedSoFar(nd, g[temp], visited, heap, temp, {}, nd', heap')
    ensures WalksRecorded(g, src, nd') && UnreachedEmpty(nd')
  {
    forall v | v in nd' && nd'[v].cost.Reached?
      ensures IsPath(g, nd'[v].pred + [v], src, v) && Weight(g, nd'[v].pred + [v]) == nd'[v].cost.value
    {
      if v in g[temp] && v !in visited {
        assert nd'[v] == RelaxedRecord(nd, temp, g[temp][v], v);
        if nd'[v] != nd[v] {
          WalkExtend(g, nd[temp].pred + [temp], v);
        }
      }
    }
  }

  lemma VisitedAfterRelax(g: Graph<Node>, src: Node, nd: map<Node, NodeData>, visited: set<Node>,
                          heap: multiset<Entry>, temp: Node, nd': map<Node, NodeData>, heap': multiset<Entry>)
    requires temp in g && temp in nd && temp in visited
    requires VisitedReached(nd, visited) && VisitedOptimal(g, src, nd, visited)
    requires RelaxedSoFar(nd, g[temp], visited, heap, temp, {}, nd', heap')
    ensures VisitedReached(nd', visited) && VisitedOptimal(g, src, nd', visited)
  {
  }

  lemma RelaxedAfterRelax(g: Graph<Node>, nd: map<Node, NodeData>, visited: set<Node>,
                          heap: multiset<Entry>, temp: Node, nd': map<Node, NodeData>, heap': multiset<Entry>)
    requires Closed(g) && temp in g && temp in visited && nd.Keys == g.Keys
    requires VisitedReached(nd, visited) && RelaxedExcept(g, nd, visited, temp, g[temp].Keys)
    requires RelaxedSoFar(nd, g[temp], visited, heap, temp, {}, nd', heap')
    ensures VisitedReached(nd', visited) && Relaxed(g, nd', visited)
  {
    forall x, y | x in visited && x in g && y in g[x] && y !in visited
      ensures y in nd' && nd'[y].cost.Reached? && nd'[y].cost.value <= nd'[x].cost.value + g[x][y]
    {
      if y in g[temp] {
        assert nd'[y] == RelaxedRecord(nd, temp, g[temp][y], y);
      }
    }
  }

  lemma QueueAfterRelax(g: Graph<Node>, nd: map<Node, NodeData>, visited: set<Node>,
                        heap: multiset<Entry>, temp: Node, nd': map<Node, NodeData>, heap': multiset<Entry>)
    requires Closed(g) && temp in g && temp in visited && nd.Keys == g.Keys
    requires VisitedReached(nd, visited) && QueueTracks(nd, visited, heap)
    requires RelaxedSoFar(nd, g[temp], visited, heap, temp, {}, nd', heap')
    ensures QueueTracks(nd', visited, heap')
  {
    forall v | v in nd' && v !in visited && nd'[v].cost.Reached?
      ensures Entry(nd'[v].cost.value, v) in heap'
    {
      if v in g[temp] {
        assert heap'[Entry(nd'[v].cost.value, v)] > 0;
      }
    }
    forall e | e in heap'
      ensures e.node in nd' && nd'[e.node].cost.Reached? && nd'[e.node].cost.value <= e.cost
    {
      if e.node in g[temp] && e.node in nd && e.node !in visited {
        assert nd'[e.node] == RelaxedRecord(nd, temp, g[temp][e.node], e.node);
      }
    }
  }

  /**
    * Relaxing every edge from temp, with positive weights, keeps the settling
    * order: each entry queued comes after every visited node, and each record
    * still comes from the first node in (cost, label) order among the visited
    * nodes that give its cost.
    */
  lemma RelaxationKeepsOrder(g: Graph<Node>, src: Node, nd: map<Node, NodeData>, visited: set<Node>,
                             heap: multiset<Entry>, temp: Node, nd': map<Node, NodeData>, heap': multiset<Entry>)
    requires Closed(g) && PositiveWeights(g) && temp in g && temp in visited
    requires SearchInvariantBut(g, src, nd, visited, heap, temp, g[temp].Keys)
    requires SettledFirst(nd, visited, heap) && SettledLast(nd, visited, temp)
    requires ParentsFirst(g, nd, visited, temp, g[temp].Keys)
    requires RelaxedSoFar(nd, g[temp], visited, heap, temp, {}, nd', heap')
    ensures VisitedReached(nd', visited)
    ensures SettledFirst(nd', visited, heap') && ParentsFirst(g, nd', visited, src, {})
  {
    forall x, e | x in visited && e in heap'
      ensures EntryLe(CostEntry(nd', x), e)
    {
      assert EntryLe(CostEntry(nd, x), CostEntry(nd, temp));
      if e !in heap {
        assert nd'[e.node] == RelaxedRecord(nd, temp, g[temp][e.node], e.node);
      }
    }
    forall v | v in nd' && nd'[v].pred != []
      ensures ParentFirst(g, nd', visited, v, src, {})
    {
      ParentStillFirst(g, src, nd, visited, heap, temp, nd', heap', v);
    }
  }

  /** One record after relaxing every edge from temp: its parent still comes first. */
  lemma ParentStillFirst(g: Graph<Node>, src: Node, nd: map<Node, NodeData>, visited: set<Node>, heap: multiset<Entry>,
                         temp: Node, nd': map<Node, NodeData>, heap': multiset<Entry>, v: Node)
    requires Closed(g) && PositiveWeights(g) && temp in g && temp in visited
    requires SearchInvariantBut(g, src, nd, visited, heap, temp, g[temp].Keys)
    requires SettledLast(nd, visited, temp)
    requires ParentsFirst(g, nd, visited, temp, g[temp].Keys)
    requires RelaxedSoFar(nd, g[temp], visited, heap, temp, {}, nd', heap')
    requires v in nd' && nd'[v].pred != []
    ensures VisitedReached(nd', visited)
    ensures ParentFirst(g, nd', visited, v, src, {})
  {
    if v in g[temp] && v !in visited {
      assert nd'[v] == RelaxedRecord(nd, temp, g[temp][v], v);
    }
    if v in g[temp] && v !in visited && Improves(nd[temp].cost.value + g[temp][v], nd[v].cost) {
      ImprovedParentFirst(g, src, nd, visited, temp, nd', v);
    } else {
      assert ParentFirst(g, nd, visited, v, temp, g[temp].Keys);
      KeptParentFirst(g, src, nd, visited, temp, nd', v);
    }
  }

  /** temp becomes the parent of v: no other visited node gave v its new, lower cost before. */
  lemma ImprovedParentFirst(g: Graph<Node>, src: Node, nd: map<Node, NodeData>, visited: set<Node>, temp: Node,
                            nd': map<Node, NodeData>, v: Node)
    requires PositiveWeights(g) && temp in g && temp in visited && v in g[temp] && v !in visited && v in nd
    requires VisitedReached(nd, visited) && RelaxedExcept(g, nd, visited, temp, g[temp].Keys)
    requires Improves(nd[temp].cost.value + g[temp][v], nd[v].cost)
    requires v in nd' && nd'[v] == NodeData(Reached(nd[temp].cost.value + g[temp][v]), nd[temp].pred + [temp])
    requires forall x :: x in visited ==> x in nd' && nd'[x] == nd[x]
    ensures VisitedReached(nd', visited) && ParentFirst(g, nd', visited, v, src, {})
  {
    EntryLeReflexive(CostEntry(nd, temp));
  }

  /** v keeps its record, and its parent was visited before temp, so it still comes first. */
  lemma KeptParentFirst(g: Graph<Node>, src: Node, nd: map<Node, NodeData>, visited: set<Node>, temp: Node,
                        nd': map<Node, NodeData>, v: Node)
    requires PositiveWeights(g) && temp in g && temp in visited && v in nd && nd[v].pred != []
    requires VisitedReached(nd, visited) && SettledLast(nd, visited, temp)
    requires ParentFirst(g, nd, visited, v, temp, g[temp].Keys)
    requires v in visited || v !in g[temp] || !Improves(nd[temp].cost.value + g[temp][v], nd[v].cost)
    requires v in nd' && nd'[v] == nd[v]
    requires forall x :: x in visited ==> x in nd' && nd'[x] == nd[x]
    ensures VisitedReached(nd', visited) && ParentFirst(g, nd', visited, v, src, {})
  {
    var u := nd[v].pred[|nd[v].pred| - 1];
    assert EntryLe(CostEntry(nd, u), CostEntry(nd, temp));
    if v in visited {
      assert EntryLe(CostEntry(nd, v), CostEntry(nd, temp));
    }
  }

  // ---------------------------------------------------------------------------
  // The printed form of a path
  // ---------------------------------------------------------------------------

  /** The words separated by single spaces: the printed form of a path. */
  function JoinWords(ws: seq<string>): string {
    if ws == [] then ""
    else if |ws| == 1 then ws[0]
    else ws[0] + " " + JoinWords(ws[1..])
  }

  /** Splits a string at every space (empty words included), the inverse of JoinWords. */
  function SplitWords(s: string): (ws: seq<string>)
    ensures ws != []
    decreases |s|
  {
    if ' ' !in s then [s]
    else
      var i := FirstSpace(s);
      [s[..i]] + SplitWords(s[i + 1..])
  }

  /** Position of the first space of s. */
  function FirstSpace(s: string): (i: nat)
    requires ' ' in s
    ensures i < |s| && s[i] == ' ' && ' ' !in s[..i]
  {
    if s[0] == ' ' then 0
    else
      assert ' ' in s[1..];
      var j := FirstSpace(s[1..]);
      assert s[..j + 1] == [s[0]] + s[1..][..j];
      j + 1
  }

  /** Splitting a joined path gives its labels back, when no label holds a space. */
  lemma {:induction false} SplitJoin(ws: seq<string>)
    requires ws != [] && forall w :: w in ws ==> ' ' !in w
    ensures SplitWords(JoinWords(ws)) == ws
  {
    if |ws| > 1 {
      var s := JoinWords(ws);
      var rest := JoinWords(ws[1..]);
      assert s == ws[0] + " " + rest;
      assert s[|ws[0]|] == ' ';
      assert s[..|ws[0]|] == ws[0];
      var i := FirstSpace(s);
      assert ' ' !in ws[0];
      assert i == |ws[0]|;
      assert s[i + 1..] == rest;
      SplitJoin(ws[1..]);
      assert ws == [ws[0]] + ws[1..];
    }
  }

  /** Joining the pieces of a split string gives the string back. */
  lemma {:induction false} JoinSplit(s: string)
    ensures JoinWords(SplitWords(s)) == s
    decreases |s|
  {
    if ' ' in s {
      var i := FirstSpace(s);
      JoinSplit(s[i + 1..]);
      var ws := SplitWords(s);
      assert ws[0] == s[..i] && ws[1..] == SplitWords(s[i + 1..]);
      assert s == s[..i] + " " + s[i + 1..];
    }
  }
}
