/**
  * The shortest-path cases of the program's test suite: a six-node weighted
  * graph and, for every ordered pair of its nodes, the printed path the search
  * must return. Each expected path is pinned by a potential (the distances
  * from the source) under which it is the only lightest walk.
  */
module DijkstraCases {
  import opened Graphs
  import opened Potentials
  import opened ShortestPath

  const TestGraph: Graph<Node> := map[
    "A" := map["B" := 2, "C" := 4],
    "B" := map["A" := 2, "C" := 3, "D" := 8],
    "C" := map["A" := 4, "B" := 3, "E" := 5, "D" := 2],
    "D" := map["B" := 8, "C" := 2, "E" := 11, "F" := 22],
    "E" := map["C" := 5, "D" := 11, "F" := 1],
    "F" := map["D" := 22, "E" := 1]
  ]

  /** Every neighbour in the test graph is a node, at a positive weight. */
  lemma TestEdge(u: Node, v: Node)
    requires u in TestGraph && v in TestGraph[u]
    ensures v in TestGraph && TestGraph[u][v] > 0
  {
    if u == "A" { assert v == "B" || v == "C"; }
    else if u == "B" { assert v == "A" || v == "C" || v == "D"; }
    else if u == "C" { assert v == "A" || v == "B" || v == "E" || v == "D"; }
    else if u == "D" { assert v == "B" || v == "C" || v == "E" || v == "F"; }
    else if u == "E" { assert v == "C" || v == "D" || v == "F"; }
    else { assert v == "D" || v == "E"; }
  }

  lemma TestGraphClosed()
    ensures Closed(TestGraph)
  {
    forall u, v | u in TestGraph && v in TestGraph[u]
      ensures v in TestGraph
    {
      TestEdge(u, v);
    }
  }

  lemma TestGraphPositive()
    ensures PositiveWeights(TestGraph)
  {
    forall u, v | u in TestGraph && v in TestGraph[u]
      ensures TestGraph[u][v] > 0
    {
      TestEdge(u, v);
    }
  }

  lemma Walk2(g: Graph<Node>, a: Node, b: Node)
    requires a in g && b in g && b in g[a]
    ensures IsWalk(g, [a, b]) && Weight(g, [a, b]) == g[a][b]
  {
    assert [a, b][..1] == [a];
  }

  lemma Walk3(g: Graph<Node>, a: Node, b: Node, c: Node)
    requires a in g && b in g && c in g && b in g[a] && c in g[b]
    ensures IsWalk(g, [a, b, c]) && Weight(g, [a, b, c]) == g[a][b] + g[b][c]
  {
    Walk2(g, a, b);
    WalkExtend(g, [a, b], c);
    assert [a, b] + [c] == [a, b, c];
  }

  lemma Walk4(g: Graph<Node>, a: Node, b: Node, c: Node, d: Node)
    requires a in g && b in g && c in g && d in g && b in g[a] && c in g[b] && d in g[c]
    ensures IsWalk(g, [a, b, c, d]) && Weight(g, [a, b, c, d]) == g[a][b] + g[b][c] + g[c][d]
  {
    Walk3(g, a, b, c);
    WalkExtend(g, [a, b, c], d);
    assert [a, b, c] + [d] == [a, b, c, d];
  }

  lemma Join2(a: string, b: string)
    ensures JoinWords([a, b]) == a + " " + b
  {
    assert [a, b][1..] == [b];
  }

  lemma Join3(a: string, b: string, c: string)
    ensures JoinWords([a, b, c]) == a + " " + b + " " + c
  {
    assert [a, b, c][1..] == [b, c];
    Join2(b, c);
  }

  lemma Join4(a: string, b: string, c: string, d: string)
    ensures JoinWords([a, b, c, d]) == a + " " + b + " " + c + " " + d
  {
    assert [a, b, c, d][1..] == [b, c, d];
    Join3(b, c, d);
  }

  /**
    * The search's promise pins its result: when the expected walk weighs the
    * potential of its end and the potential admits no other walk of that
    * weight, the lightest walk the search returns is the expected one.
    */
  lemma SearchFinds(g: Graph<Node>, pot: map<Node, nat>, parent: map<Node, Node>, src: Node, dst: Node,
                    expected: seq<Node>, path: seq<Node>)
    requires Feasible(g, pot) && TightTree(g, pot, src, parent) && PositiveWeights(g)
    requires IsPath(g, expected, src, dst) && dst in pot && Weight(g, expected) == pot[dst]
    requires Reachable(g, src, dst) ==>
               IsPath(g, path, src, dst) && forall p :: IsPath(g, p, src, dst) ==> Weight(g, path) <= Weight(g, p)
    ensures path == expected
  {
    ShortestWalkUnique(g, pot, src, parent, expected, path, dst);
  }

  /** Searches the test graph from src to dst, where the expected path is pinned by a potential, and prints the result. */
  method SearchTestGraph(pot: map<Node, nat>, parent: map<Node, Node>, src: Node, dst: Node, expected: seq<Node>,
                         printed: string)
    returns (result: string)
    requires Feasible(TestGraph, pot) && TightTree(TestGraph, pot, src, parent)
    requires IsPath(TestGraph, expected, src, dst) && dst in pot && Weight(TestGraph, expected) == pot[dst]
    requires JoinWords(expected) == printed
    ensures result == printed
  {
    TestGraphClosed();
    TestGraphPositive();
    var path;
    path, result := Dijkstra(TestGraph, src, dst);
    SearchFinds(TestGraph, pot, parent, src, dst, expected, path);
  }

  /** Every node of the test graph has a distance from every source. */
  lemma PotentialsCoverNodes()
    ensures forall u :: u in TestGraph ==> u in PotA && u in PotB && u in PotC && u in PotD && u in PotE && u in PotF
  {
  }

  /** Distances from A and the last step of each shortest path from A. */
  const PotA: map<Node, nat> := map["A" := 0, "B" := 2, "C" := 4, "D" := 6, "E" := 9, "F" := 10]
  const ParentA: map<Node, Node> := map["B" := "A", "C" := "A", "D" := "C", "E" := "C", "F" := "E"]

  /** One edge of the test graph against the distances from A. */
  lemma EdgeFromA(u: Node, v: Node)
    requires u in TestGraph && v in TestGraph[u]
    ensures v in PotA && PotA[v] <= PotA[u] + TestGraph[u][v]
    ensures PotA[v] == PotA[u] + TestGraph[u][v] ==> v in ParentA && ParentA[v] == u
  {
    if u == "A" { assert v == "B" || v == "C"; }
    else if u == "B" { assert v == "A" || v == "C" || v == "D"; }
    else if u == "C" { assert v == "A" || v == "B" || v == "E" || v == "D"; }
    else if u == "D" { assert v == "B" || v == "C" || v == "E" || v == "F"; }
    else if u == "E" { assert v == "C" || v == "D" || v == "F"; }
    else { assert v == "D" || v == "E"; }
  }

  /** Along each edge the distance from A rises by at most the edge's weight, and by exactly it only from the parent. */
  lemma EdgesFromA()
    ensures forall u, v :: u in TestGraph && v in TestGraph[u] ==> v in PotA && PotA[v] <= PotA[u] + TestGraph[u][v]
    ensures forall u, v :: u in TestGraph && v in TestGraph[u] && PotA[v] == PotA[u] + TestGraph[u][v] ==>
              v in ParentA && ParentA[v] == u
  {
    forall u, v | u in TestGraph && v in TestGraph[u]
      ensures v in PotA && PotA[v] <= PotA[u] + TestGraph[u][v]
      ensures PotA[v] == PotA[u] + TestGraph[u][v] ==> v in ParentA && ParentA[v] == u
    {
      EdgeFromA(u, v);
    }
  }

  /** The distances from A are a feasible potential whose tight edges form the tree of parents. */
  lemma FromA()
    ensures Feasible(TestGraph, PotA) && TightTree(TestGraph, PotA, "A", ParentA)
  {
    PotentialsCoverNodes();
    EdgesFromA();
    TreeOfPotential(TestGraph, PotA, "A", ParentA);
  }

  /** Searches the test graph from A for a destination whose expected path weighs its distance from A. */
  method SearchFromA(dst: Node, expected: seq<Node>, printed: string) returns (result: string)
    requires IsPath(TestGraph, expected, "A", dst) && dst in PotA && Weight(TestGraph, expected) == PotA[dst]
    requires JoinWords(expected) == printed
    ensures result == printed
  {
    FromA();
    result := SearchTestGraph(PotA, ParentA, "A", dst, expected, printed);
  }

  /** The search from A to A prints "A". */
  method SearchAToA() returns (result: string)
    ensures result == "A"
  {
    result := SearchFromA("A", ["A"], "A");
  }

  /** The search from A to B prints "A B". */
  method SearchAToB() returns (result: string)
    ensures result == "A B"
  {
    Walk2(TestGraph, "A", "B");
    Join2("A", "B");
    result := SearchFromA("B", ["A", "B"], "A B");
  }

  /** The search from A to C prints "A C". */
  method SearchAToC() returns (result: string)
    ensures result == "A C"
  {
    Walk2(TestGraph, "A", "C");
    Join2("A", "C");
    result := SearchFromA("C", ["A", "C"], "A C");
  }

  /** The search from A to D prints "A C D". */
  method SearchAToD() returns (result: string)
    ensures result == "A C D"
  {
    Walk3(TestGraph, "A", "C", "D");
    Join3("A", "C", "D");
    result := SearchFromA("D", ["A", "C", "D"], "A C D");
  }

  /** The search from A to E prints "A C E". */
  method SearchAToE() returns (result: string)
    ensures result == "A C E"
  {
    Walk3(TestGraph, "A", "C", "E");
    Join3("A", "C", "E");
    result := SearchFromA("E", ["A", "C", "E"], "A C E");
  }

  /** The search from A to F prints "A C E F". */
  method SearchAToF() returns (result: string)
    ensures result == "A C E F"
  {
    Walk4(TestGraph, "A", "C", "E", "F");
    Join4("A", "C", "E", "F");
    result := SearchFromA("F", ["A", "C", "E", "F"], "A C E F");
  }

  /** The printed shortest paths from A to A, ..., F. */
  method PathsFromA() returns (results: seq<string>)
    ensures results == ["A", "A B", "A C", "A C D", "A C E", "A C E F"]
  {
    var toA := SearchAToA();
    var toB := SearchAToB();
    var toC := SearchAToC();
    var toD := SearchAToD();
    var toE := SearchAToE();
    var toF := SearchAToF();
    results := [toA, toB, toC, toD, toE, toF];
  }

  /** Distances from B and the last step of each shortest path from B. */
  const PotB: map<Node, nat> := map["A" := 2, "B" := 0, "C" := 3, "D" := 5, "E" := 8, "F" := 9]
  const ParentB: map<Node, Node> := map["A" := "B", "C" := "B", "D" := "C", "E" := "C", "F" := "E"]

  /** One edge of the test graph against the distances from B. */
  lemma EdgeFromB(u: Node, v: Node)
    requires u in TestGraph && v in TestGraph[u]
    ensures v in PotB && PotB[v] <= PotB[u] + TestGraph[u][v]
    ensures PotB[v] == PotB[u] + TestGraph[u][v] ==> v in ParentB && ParentB[v] == u
  {
    if u == "A" { assert v == "B" || v == "C"; }
    else if u == "B" { assert v == "A" || v == "C" || v == "D"; }
    else if u == "C" { assert v == "A" || v == "B" || v == "E" || v == "D"; }
    else if u == "D" { assert v == "B" || v == "C" || v == "E" || v == "F"; }
    else if u == "E" { assert v == "C" || v == "D" || v == "F"; }
    else { assert v == "D" || v == "E"; }
  }

  /** Along each edge the distance from B rises by at most the edge's weight, and by exactly it only from the parent. */
  lemma EdgesFromB()
    ensures forall u, v :: u in TestGraph && v in TestGraph[u] ==> v in PotB && PotB[v] <= PotB[u] + TestGraph[u][v]
    ensures forall u, v :: u in TestGraph && v in TestGraph[u] && PotB[v] == PotB[u] + TestGraph[u][v] ==>
              v in ParentB && ParentB[v] == u
  {
    forall u, v | u in TestGraph && v in TestGraph[u]
      ensures v in PotB && PotB[v] <= PotB[u] + TestGraph[u][v]
      ensures PotB[v] == PotB[u] + TestGraph[u][v] ==> v in ParentB && ParentB[v] == u
    {
      EdgeFromB(u, v);
    }
  }

  /** The distances from B are a feasible potential whose tight edges form the tree of parents. */
  lemma FromB()
    ensures Feasible(TestGraph, PotB) && TightTree(TestGraph, PotB, "B", ParentB)
  {
    PotentialsCoverNodes();
    EdgesFromB();
    TreeOfPotential(TestGraph, PotB, "B", ParentB);
  }

  /** Searches the test graph from B for a destination whose expected path weighs its distance from B. */
  method SearchFromB(dst: Node, expected: seq<Node>, printed: string) returns (result: string)
    requires IsPath(TestGraph, expected, "B", dst) && dst in PotB && Weight(TestGraph, expected) == PotB[dst]
    requires JoinWords(expected) == printed
    ensures result == printed
  {
    FromB();
    result := SearchTestGraph(PotB, ParentB, "B", dst, expected, printed);
  }

  /** The search from B to A prints "B A". */
  method SearchBToA() returns (result: string)
    ensures result == "B A"
  {
    Walk2(TestGraph, "B", "A");
    Join2("B", "A");
    result := SearchFromB("A", ["B", "A"], "B A");
  }

  /** The search from B to B prints "B". */
  method SearchBToB() returns (result: string)
    ensures result == "B"
  {
    result := SearchFromB("B", ["B"], "B");
  }

  /** The search from B to C prints "B C". */
  method SearchBToC() returns (result: string)
    ensures result == "B C"
  {
    Walk2(TestGraph, "B", "C");
    Join2("B", "C");
    result := SearchFromB("C", ["B", "C"], "B C");
  }

  /** The search from B to D prints "B C D". */
  method SearchBToD() returns (result: string)
    ensures result == "B C D"
  {
    Walk3(TestGraph, "B", "C", "D");
    Join3("B", "C", "D");
    result := SearchFromB("D", ["B", "C", "D"], "B C D");
  }

  /** The search from B to E prints "B C E". */
  method SearchBToE() returns (result: string)
    ensures result == "B C E"
  {
    Walk3(TestGraph, "B", "C", "E");
    Join3("B", "C", "E");
    result := SearchFromB("E", ["B", "C", "E"], "B C E");
  }

  /** The search from B to F prints "B C E F". */
  method SearchBToF() returns (result: string)
    ensures result == "B C E F"
  {
    Walk4(TestGraph, "B", "C", "E", "F");
    Join4("B", "C", "E", "F");
    result := SearchFromB("F", ["B", "C", "E", "F"], "B C E F");
  }

  /** The printed shortest paths from B to A, ..., F. */
  method PathsFromB() returns (results: seq<string>)
    ensures results == ["B A", "B", "B C", "B C D", "B C E", "B C E F"]
  {
    var toA := SearchBToA();
    var toB := SearchBToB();
    var toC := SearchBToC();
    var toD := SearchBToD();
    var toE := SearchBToE();
    var toF := SearchBToF();
    results := [toA, toB, toC, toD, toE, toF];
  }

  /** Distances from C and the last step of each shortest path from C. */
  const PotC: map<Node, nat> := map["A" := 4, "B" := 3, "C" := 0, "D" := 2, "E" := 5, "F" := 6]
  const ParentC: map<Node, Node> := map["A" := "C", "B" := "C", "D" := "C", "E" := "C", "F" := "E"]

  /** One edge of the test graph against the distances from C. */
  lemma EdgeFromC(u: Node, v: Node)
    requires u in TestGraph && v in TestGraph[u]
    ensures v in PotC && PotC[v] <= PotC[u] + TestGraph[u][v]
    ensures PotC[v] == PotC[u] + TestGraph[u][v] ==> v in ParentC && ParentC[v] == u
  {
    if u == "A" { assert v == "B" || v == "C"; }
    else if u == "B" { assert v == "A" || v == "C" || v == "D"; }
    else if u == "C" { assert v == "A" || v == "B" || v == "E" || v == "D"; }
    else if u == "D" { assert v == "B" || v == "C" || v == "E" || v == "F"; }
    else if u == "E" { assert v == "C" || v == "D" || v == "F"; }
    else { assert v == "D" || v == "E"; }
  }

  /** Along each edge the distance from C rises by at most the edge's weight, and by exactly it only from the parent. */
  lemma EdgesFromC()
    ensures forall u, v :: u in TestGraph && v in TestGraph[u] ==> v in PotC && PotC[v] <= PotC[u] + TestGraph[u][v]
    ensures forall u, v :: u in TestGraph && v in TestGraph[u] && PotC[v] == PotC[u] + TestGraph[u][v] ==>
              v in ParentC && ParentC[v] == u
  {
    forall u, v | u in TestGraph && v in TestGraph[u]
      ensures v in PotC && PotC[v] <= PotC[u] + TestGraph[u][v]
      ensures PotC[v] == PotC[u] + TestGraph[u][v] ==> v in ParentC && ParentC[v] == u
    {
      EdgeFromC(u, v);
    }
  }

  /** The distances from C are a feasible potential whose tight edges form the tree of parents. */
  lemma FromC()
    ensures Feasible(TestGraph, PotC) && TightTree(TestGraph, PotC, "C", ParentC)
  {
    PotentialsCoverNodes();
    EdgesFromC();
    TreeOfPotential(TestGraph, PotC, "C", ParentC);
  }

  /** Searches the test graph from C for a destination whose expected path weighs its distance from C. */
  method SearchFromC(dst: Node, expected: seq<Node>, printed: string) returns (result: string)
    requires IsPath(TestGraph, expected, "C", dst) && dst in PotC && Weight(TestGraph, expected) == PotC[dst]
    requires JoinWords(expected) == printed
    ensures result == printed
  {
    FromC();
    result := SearchTestGraph(PotC, ParentC, "C", dst, expected, printed);
  }

  /** The search from C to A prints "C A". */
  method SearchCToA() returns (result: string)
    ensures result == "C A"
  {
    Walk2(TestGraph, "C", "A");
    Join2("C", "A");
    result := SearchFromC("A", ["C", "A"], "C A");
  }

  /** The search from C to B prints "C B". */
  method SearchCToB() returns (result: string)
    ensures result == "C B"
  {
    Walk2(TestGraph, "C", "B");
    Join2("C", "B");
    result := SearchFromC("B", ["C", "B"], "C B");
  }

  /** The search from C to C prints "C". */
  method SearchCToC() returns (result: string)
    ensures result == "C"
  {
    result := SearchFromC("C", ["C"], "C");
  }

  /** The search from C to D prints "C D". */
  method SearchCToD() returns (result: string)
    ensures result == "C D"
  {
    Walk2(TestGraph, "C", "D");
    Join2("C", "D");
    result := SearchFromC("D", ["C", "D"], "C D");
  }

  /** The search from C to E prints "C E". */
  method SearchCToE() returns (result: string)
    ensures result == "C E"
  {
    Walk2(TestGraph, "C", "E");
    Join2("C", "E");
    result := SearchFromC("E", ["C", "E"], "C E");
  }

  /** The search from C to F prints "C E F". */
  method SearchCToF() returns (result: string)
    ensures result == "C E F"
  {
    Walk3(TestGraph, "C", "E", "F");
    Join3("C", "E", "F");
    result := SearchFromC("F", ["C", "E", "F"], "C E F");
  }

  /** The printed shortest paths from C to A, ..., F. */
  method PathsFromC() returns (results: seq<string>)
    ensures results == ["C A", "C B", "C", "C D", "C E", "C E F"]
  {
    var toA := SearchCToA();
    var toB := SearchCToB();
    var toC := SearchCToC();
    var toD := SearchCToD();
    var toE := SearchCToE();
    var toF := SearchCToF();
    results := [toA, toB, toC, toD, toE, toF];
  }

  /** Distances from D and the last step of each shortest path from D. */
  const PotD: map<Node, nat> := map["A" := 6, "B" := 5, "C" := 2, "D" := 0, "E" := 7, "F" := 8]
  const ParentD: map<Node, Node> := map["A" := "C", "B" := "C", "C" := "D", "E" := "C", "F" := "E"]

  /** One edge of the test graph against the distances from D. */
  lemma EdgeFromD(u: Node, v: Node)
    requires u in TestGraph && v in TestGraph[u]
    ensures v in PotD && PotD[v] <= PotD[u] + TestGraph[u][v]
    ensures PotD[v] == PotD[u] + TestGraph[u][v] ==> v in ParentD && ParentD[v] == u
  {
    if u == "A" { assert v == "B" || v == "C"; }
    else if u == "B" { assert v == "A" || v == "C" || v == "D"; }
    else if u == "C" { assert v == "A" || v == "B" || v == "E" || v == "D"; }
    else if u == "D" { assert v == "B" || v == "C" || v == "E" || v == "F"; }
    else if u == "E" { assert v == "C" || v == "D" || v == "F"; }
    else { assert v == "D" || v == "E"; }
  }

  /** Along each edge the distance from D rises by at most the edge's weight, and by exactly it only from the parent. */
  lemma EdgesFromD()
    ensures forall u, v :: u in TestGraph && v in TestGraph[u] ==> v in PotD && PotD[v] <= PotD[u] + TestGraph[u][v]
    ensures forall u, v :: u in TestGraph && v in TestGraph[u] && PotD[v] == PotD[u] + TestGraph[u][v] ==>
              v in ParentD && ParentD[v] == u
  {
    forall u, v | u in TestGraph && v in TestGraph[u]
      ensures v in PotD && PotD[v] <= PotD[u] + TestGraph[u][v]
      ensures PotD[v] == PotD[u] + TestGraph[u][v] ==> v in ParentD && ParentD[v] == u
    {
      EdgeFromD(u, v);
    }
  }

  /** The distances from D are a feasible potential whose tight edges form the tree of parents. */
  lemma FromD()
    ensures Feasible(TestGraph, PotD) && TightTree(TestGraph, PotD, "D", ParentD)
  {
    PotentialsCoverNodes();
    EdgesFromD();
    TreeOfPotential(TestGraph, PotD, "D", ParentD);
  }

  /** Searches the test graph from D for a destination whose expected path weighs its distance from D. */
  method SearchFromD(dst: Node, expected: seq<Node>, printed: string) returns (result: string)
    requires IsPath(TestGraph, expected, "D", dst) && dst in PotD && Weight(TestGraph, expected) == PotD[dst]
    requires JoinWords(expected) == printed
    ensures result == printed
  {
    FromD();
    result := SearchTestGraph(PotD, ParentD, "D", dst, expected, printed);
  }

  /** The search from D to A prints "D C A". */
  method SearchDToA() returns (result: string)
    ensures result == "D C A"
  {
    Walk3(TestGraph, "D", "C", "A");
    Join3("D", "C", "A");
    result := SearchFromD("A", ["D", "C", "A"], "D C A");
  }

  /** The search from D to B prints "D C B". */
  method SearchDToB() returns (result: string)
    ensures result == "D C B"
  {
    Walk3(TestGraph, "D", "C", "B");
    Join3("D", "C", "B");
    result := SearchFromD("B", ["D", "C", "B"], "D C B");
  }

  /** The search from D to C prints "D C". */
  method SearchDToC() returns (result: string)
    ensures result == "D C"
  {
    Walk2(TestGraph, "D", "C");
    Join2("D", "C");
    result := SearchFromD("C", ["D", "C"], "D C");
  }

  /** The search from D to D prints "D". */
  method SearchDToD() returns (result: string)
    ensures result == "D"
  {
    result := SearchFromD("D", ["D"], "D");
  }

  /** The search from D to E prints "D C E". */
  method SearchDToE() returns (result: string)
    ensures result == "D C E"
  {
    Walk3(TestGraph, "D", "C", "E");
    Join3("D", "C", "E");
    result := SearchFromD("E", ["D", "C", "E"], "D C E");
  }

  /** The search from D to F prints "D C E F". */
  method SearchDToF() returns (result: string)
    ensures result == "D C E F"
  {
    Walk4(TestGraph, "D", "C", "E", "F");
    Join4("D", "C", "E", "F");
    result := SearchFromD("F", ["D", "C", "E", "F"], "D C E F");
  }

  /** The printed shortest paths from D to A, ..., F. */
  method PathsFromD() returns (results: seq<string>)
    ensures results == ["D C A", "D C B", "D C", "D", "D C E", "D C E F"]
  {
    var toA := SearchDToA();
    var toB := SearchDToB();
    var toC := SearchDToC();
    var toD := SearchDToD();
    var toE := SearchDToE();
    var toF := SearchDToF();
    results := [toA, toB, toC, toD, toE, toF];
  }

  /** Distances from E and the last step of each shortest path from E. */
  const PotE: map<Node, nat> := map["A" := 9, "B" := 8, "C" := 5, "D" := 7, "E" := 0, "F" := 1]
  const ParentE: map<Node, Node> := map["A" := "C", "B" := "C", "C" := "E", "D" := "C", "F" := "E"]

  /** One edge of the test graph against the distances from E. */
  lemma EdgeFromE(u: Node, v: Node)
    requires u in TestGraph && v in TestGraph[u]
    ensures v in PotE && PotE[v] <= PotE[u] + TestGraph[u][v]
    ensures PotE[v] == PotE[u] + TestGraph[u][v] ==> v in ParentE && ParentE[v] == u
  {
    if u == "A" { assert v == "B" || v == "C"; }
    else if u == "B" { assert v == "A" || v == "C" || v == "D"; }
    else if u == "C" { assert v == "A" || v == "B" || v == "E" || v == "D"; }
    else if u == "D" { assert v == "B" || v == "C" || v == "E" || v == "F"; }
    else if u == "E" { assert v == "C" || v == "D" || v == "F"; }
    else { assert v == "D" || v == "E"; }
  }

  /** Along each edge the distance from E rises by at most the edge's weight, and by exactly it only from the parent. */
  lemma EdgesFromE()
    ensures forall u, v :: u in TestGraph && v in TestGraph[u] ==> v in PotE && PotE[v] <= PotE[u] + TestGraph[u][v]
    ensures forall u, v :: u in TestGraph && v in TestGraph[u] && PotE[v] == PotE[u] + TestGraph[u][v] ==>
              v in ParentE && ParentE[v] == u
  {
    forall u, v | u in TestGraph && v in TestGraph[u]
      ensures v in PotE && PotE[v] <= PotE[u] + TestGraph[u][v]
      ensures PotE[v] == PotE[u] + TestGraph[u][v] ==> v in ParentE && ParentE[v] == u
    {
      EdgeFromE(u, v);
    }
  }

  /** The distances from E are a feasible potential whose tight edges form the tree of parents. */
  lemma FromE()
    ensures Feasible(TestGraph, PotE) && TightTree(TestGraph, PotE, "E", ParentE)
  {
    PotentialsCoverNodes();
    EdgesFromE();
    TreeOfPotential(TestGraph, PotE, "E", ParentE);
  }

  /** Searches the test graph from E for a destination whose expected path weighs its distance from E. */
  method SearchFromE(dst: Node, expected: seq<Node>, printed: string) returns (result: string)
    requires IsPath(TestGraph, expected, "E", dst) && dst in PotE && Weight(TestGraph, expected) == PotE[dst]
    requires JoinWords(expected) == printed
    ensures result == printed
  {
    FromE();
    result := SearchTestGraph(PotE, ParentE, "E", dst, expected, printed);
  }

  /** The search from E to A prints "E C A". */
  method SearchEToA() returns (result: string)
    ensures result == "E C A"
  {
    Walk3(TestGraph, "E", "C", "A");
    Join3("E", "C", "A");
    result := SearchFromE("A", ["E", "C", "A"], "E C A");
  }

  /** The search from E to B prints "E C B". */
  method SearchEToB() returns (result: string)
    ensures result == "E C B"
  {
    Walk3(TestGraph, "E", "C", "B");
    Join3("E", "C", "B");
    result := SearchFromE("B", ["E", "C", "B"], "E C B");
  }

  /** The search from E to C prints "E C". */
  method SearchEToC() returns (result: string)
    ensures result == "E C"
  {
    Walk2(TestGraph, "E", "C");
    Join2("E", "C");
    result := SearchFromE("C", ["E", "C"], "E C");
  }

  /** The search from E to D prints "E C D". */
  method SearchEToD() returns (result: string)
    ensures result == "E C D"
  {
    Walk3(TestGraph, "E", "C", "D");
    Join3("E", "C", "D");
    result := SearchFromE("D", ["E", "C", "D"], "E C D");
  }

  /** The search from E to E prints "E". */
  method SearchEToE() returns (result: string)
    ensures result == "E"
  {
    result := SearchFromE("E", ["E"], "E");
  }

  /** The search from E to F prints "E F". */
  method SearchEToF() returns (result: string)
    ensures result == "E F"
  {
    Walk2(TestGraph, "E", "F");
    Join2("E", "F");
    result := SearchFromE("F", ["E", "F"], "E F");
  }

  /** The printed shortest paths from E to A, ..., F. */
  method PathsFromE() returns (results: seq<string>)
    ensures results == ["E C A", "E C B", "E C", "E C D", "E", "E F"]
  {
    var toA := SearchEToA();
    var toB := SearchEToB();
    var toC := SearchEToC();
    var toD := SearchEToD();
    var toE := SearchEToE();
    var toF := SearchEToF();
    results := [toA, toB, toC, toD, toE, toF];
  }

  /** Distances from F and the last step of each shortest path from F. */
  const PotF: map<Node, nat> := map["A" := 10, "B" := 9, "C" := 6, "D" := 8, "E" := 1, "F" := 0]
  const ParentF: map<Node, Node> := map["A" := "C", "B" := "C", "C" := "E", "D" := "C", "E" := "F"]

  /** One edge of the test graph against the distances from F. */
  lemma EdgeFromF(u: Node, v: Node)
    requires u in TestGraph && v in TestGraph[u]
    ensures v in PotF && PotF[v] <= PotF[u] + TestGraph[u][v]
    ensures PotF[v] == PotF[u] + TestGraph[u][v] ==> v in ParentF && ParentF[v] == u
  {
    if u == "A" { assert v == "B" || v == "C"; }
    else if u == "B" { assert v == "A" || v == "C" || v == "D"; }
    else if u == "C" { assert v == "A" || v == "B" || v == "E" || v == "D"; }
    else if u == "D" { assert v == "B" || v == "C" || v == "E" || v == "F"; }
    else if u == "E" { assert v == "C" || v == "D" || v == "F"; }
    else { assert v == "D" || v == "E"; }
  }

  /** Along each edge the distance from F rises by at most the edge's weight, and by exactly it only from the parent. */
  lemma EdgesFromF()
    ensures forall u, v :: u in TestGraph && v in TestGraph[u] ==> v in PotF && PotF[v] <= PotF[u] + TestGraph[u][v]
    ensures forall u, v :: u in TestGraph && v in TestGraph[u] && PotF[v] == PotF[u] + TestGraph[u][v] ==>
              v in ParentF && ParentF[v] == u
  {
    forall u, v | u in TestGraph && v in TestGraph[u]
      ensures v in PotF && PotF[v] <= PotF[u] + TestGraph[u][v]
      ensures PotF[v] == PotF[u] + TestGraph[u][v] ==> v in ParentF && ParentF[v] == u
    {
      EdgeFromF(u, v);
    }
  }

  /** The distances from F are a feasible potential whose tight edges form the tree of parents. */
  lemma FromF()
    ensures Feasible(TestGraph, PotF) && TightTree(TestGraph, PotF, "F", ParentF)
  {
    PotentialsCoverNodes();
    EdgesFromF();
    TreeOfPotential(TestGraph, PotF, "F", ParentF);
  }

  /** Searches the test graph from F for a destination whose expected path weighs its distance from F. */
  method SearchFromF(dst: Node, expected: seq<Node>, printed: string) returns (result: string)
    requires IsPath(TestGraph, expected, "F", dst) && dst in PotF && Weight(TestGraph, expected) == PotF[dst]
    requires JoinWords(expected) == printed
    ensures result == printed
  {
    FromF();
    result := SearchTestGraph(PotF, ParentF, "F", dst, expected, printed);
  }

  /** The search from F to A prints "F E C A". */
  method SearchFToA() returns (result: string)
    ensures result == "F E C A"
  {
    Walk4(TestGraph, "F", "E", "C", "A");
    Join4("F", "E", "C", "A");
    result := SearchFromF("A", ["F", "E", "C", "A"], "F E C A");
  }

  /** The search from F to B prints "F E C B". */
  method SearchFToB() returns (result: string)
    ensures result == "F E C B"
  {
    Walk4(TestGraph, "F", "E", "C", "B");
    Join4("F", "E", "C", "B");
    result := SearchFromF("B", ["F", "E", "C", "B"], "F E C B");
  }

  /** The search from F to C prints "F E C". */
  method SearchFToC() returns (result: string)
    ensures result == "F E C"
  {
    Walk3(TestGraph, "F", "E", "C");
    Join3("F", "E", "C");
    result := SearchFromF("C", ["F", "E", "C"], "F E C");
  }

  /** The search from F to D prints "F E C D". */
  method SearchFToD() returns (result: string)
    ensures result == "F E C D"
  {
    Walk4(TestGraph, "F", "E", "C", "D");
    Join4("F", "E", "C", "D");
    result := SearchFromF("D", ["F", "E", "C", "D"], "F E C D");
  }

  /** The search from F to E prints "F E". */
  method SearchFToE() returns (result: string)
    ensures result == "F E"
  {
    Walk2(TestGraph, "F", "E");
    Join2("F", "E");
    result := SearchFromF("E", ["F", "E"], "F E");
  }

  /** The search from F to F prints "F". */
  method SearchFToF() returns (result: string)
    ensures result == "F"
  {
    result := SearchFromF("F", ["F"], "F");
  }

  /** The printed shortest paths from F to A, ..., F. */
  method PathsFromF() returns (results: seq<string>)
    ensures results == ["F E C A", "F E C B", "F E C", "F E C D", "F E", "F"]
  {
    var toA := SearchFToA();
    var toB := SearchFToB();
    var toC := SearchFToC();
    var toD := SearchFToD();
    var toE := SearchFToE();
    var toF := SearchFToF();
    results := [toA, toB, toC, toD, toE, toF];
  }


  /**
    * The search over every ordered pair of nodes, sources in the order A to F
    * and destinations likewise, prints the expected list of paths.
    */
  method AllPairs() returns (results: seq<string>)
    ensures results == ["A", "A B", "A C", "A C D", "A C E", "A C E F",
              "B A", "B", "B C", "B C D", "B C E", "B C E F",
              "C A", "C B", "C", "C D", "C E", "C E F",
              "D C A", "D C B", "D C", "D", "D C E", "D C E F",
              "E C A", "E C B", "E C", "E C D", "E", "E F",
              "F E C A", "F E C B", "F E C", "F E C D", "F E", "F"]
  {
    var fromA := PathsFromA();
    var fromB := PathsFromB();
    var fromC := PathsFromC();
    var fromD := PathsFromD();
    var fromE := PathsFromE();
    var fromF := PathsFromF();
    results := fromA + fromB + fromC + fromD + fromE + fromF;
  }
}
