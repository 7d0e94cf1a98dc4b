# Knight's shortest path, modelled in Dafny

This project models the knight's-path finder: a program that reads requests
such as `D4 G7` and prints the shortest sequence of knight moves between the
two squares of an 8 x 8 chess board, such as `D4 E6 G7`. It does this in
three steps:

- It builds the knight's graph. The nodes are square labels `A1` .. `H8`. An
  edge of weight 1 joins two squares one knight move apart.
- It runs a general Dijkstra search on that graph. The search uses a
  lazy-deletion priority queue of `(cost, label)` entries.
- It prints the path as labels separated by spaces.

The modules follow the program's parts:

- `Board` (board.dfy): (row, col) squares, the eight knight offsets, the
  moves that stay on an n x n board, and the coordinate-to-label mapping.
- `Graphs` (graphs.dfy): graphs as dictionaries of dictionaries, walks, walk
  weights and reachability.
- `EdgeGraphs` (edge_graphs.dfy): adding an undirected weight-1 edge, and the
  graph whose edges are exactly a given set of pairs.
- `KnightsGraph` (knights_graph.dfy): the dictionary that creates a node when
  an edge first touches it (a class, updated in place), the edge-adding
  method, and the graph builder with its nested loops.
- `HeapQueue` (heap_queue.dfy): the priority-queue contract. An entry is a
  (cost, label) pair, and the least one is popped, with labels compared as
  strings.
- `ShortestPath` (shortest_path.dfy): the Dijkstra loop with its invariants,
  the relaxation loop, and the printed form of a path.
- `InputValidation` (input_validation.dfy): the request-line check.
- `Potentials` (potentials.dfy): lower bounds on walk weights. A node
  potential is a number per node that rises along each edge by at most the
  edge's weight. The module uses potentials to show that a given walk is the
  only lightest one.
- `TestCases`, `DijkstraCases` (test_cases.dfy, dijkstra_cases.dfy): the cases
  of the program's test suite, stated and proved over the model. They cover:
  - the moves from each square of a 3 x 3 board;
  - the 3 x 3 knight's graph;
  - the 36 printed paths of a six-node weighted graph;
  - the three request lines.
- `KnightPaths` (knight_paths.dfy): the three requests of the program's usage
  text, with proofs of how many moves each answer takes and of the exact path
  the search prints for each.

Nothing here was executed. Each row of the table below is a proved contract, or a definition followed by the lemmas that state its properties.

## Model

| member | source | states |
|---|---|---|
| Board.MovesWithOffsets | main.py:168-171 | the kept squares are exactly the targets of the given offsets that lie on the n x n board, in the order of the offsets |
| Board.PermittedMovesFrom | main.py:148-171 | the moves from (row, col) are exactly the squares one of the eight offsets away that lie on the board, in offset order, each once, at most eight |
| Board.PermittedMovesAreKnightSteps | main.py:148-153 | the eight offsets of the constant `Board.PermittedMoves` are exactly the steps of one square along one axis and two along the other |
| Board.PermittedMovesDistinct | main.py:148-153 | no offset of `Board.PermittedMoves` is listed twice |
| Board.MovesSymmetric | main.py:156-171 | t is a move from s exactly when t is on the board and s is a move from t |
| Board.NoMoveToSelf | main.py:156-171 | no square is a move from itself |
| Board.NoMovesOnSmallBoard | main.py:156-171 | on a board of side at most 2 no square has a move |
| Board.Label | main.py:95-105 | the label of square (r, c) of the 8 x 8 board is file letter r of "ABCDEFGH" followed by rank digit c of "12345678"; `Board.LabelRoundTrip` and `Board.LabelInjective` state what it promises |
| Board.Coordinate | main.py:84-107 | a string names a square exactly when it is a file letter A-H and a rank digit 1-8, and the square it names has that label |
| Board.LabelRoundTrip | main.py:95-105 | reading back the label of a square of the 8 x 8 board gives the square |
| Board.LabelInjective | main.py:95-105 | two squares share a label only when they are the same square |
| Board.GetMapping | main.py:84-107 | the mapping has 64 entries, one per square of the 8 x 8 board, sends (r, c) to file letter r and rank digit c, and no two squares share a label |
| Board.SquaresCount | main.py:100-101 | an n x n board has n * n squares |
| EdgeGraphs.WithEdge | main.py:110-119 | after adding a-b, a and b are nodes, each lists the other with weight 1, and every other node and entry is as before |
| EdgeGraphs.WithEdgeIdempotent | main.py:118-119 | adding the same edge twice gives the same graph as adding it once |
| EdgeGraphs.WithEdgeKeepsSymmetric | main.py:118-119 | adding an edge keeps a symmetric graph symmetric |
| EdgeGraphs.HasEdgesOfUnique | main.py:135-144 | two graphs with weight 1 on exactly the same pairs, and no node without a neighbour, are equal |
| EdgeGraphs.HasEdgesOfSymmetric | main.py:118-119 | a graph whose pair set contains each pair's reverse is symmetric |
| KnightsGraph.AdjacencyDict.constructor | main.py:135 | a new dictionary has no nodes |
| KnightsGraph.AdjacencyDict.AddEdge | main.py:110-119 | the dictionary becomes the graph with the undirected edge a-b of weight 1 added, creating a and b when absent |
| KnightsGraph.AddMovesFrom | main.py:139-143 | after the inner loop, the dictionary has weight 1 on exactly the pairs recorded before plus the moves from the current square, in both directions |
| KnightsGraph.BuildKnightsGraph | main.py:122-144 | the built graph has weight 1 on exactly the legal knight moves of the n x n board (n at most 8), and its nodes are the squares with at least one move |
| KnightsGraph.KnightEdgesSymmetric | main.py:137-143 | the set of knight moves, as label pairs, is its own reverse |
| KnightsGraph.KnightGraphEdge | main.py:137-143 | the label of t is a neighbour of the label of s exactly when t is a legal move from s, and then at weight 1 |
| KnightsGraph.KnightEdgeMember | main.py:137-143 | the label pair of two squares is a knight edge exactly when the second is a move from the first |
| KnightsGraph.KnightEdgeEnds | main.py:137-143 | every knight edge joins the labels of two squares of the board, the second a move from the first |
| KnightsGraph.KnightGraphNode | main.py:135-143 | a square is a node exactly when the knight has a move from it (on 3 x 3, B2 is not a node) |
| KnightsGraph.KnightGraphNodesOnBoard | main.py:135-143 | every node is the label of a square of the board |
| KnightsGraph.KnightGraphShape | main.py:118-119 | the knight's graph is symmetric, every neighbour is a node, and no node is its own neighbour |
| KnightsGraph.SmallBoardGraphEmpty | main.py:135-144 | on a board of side at most 2 the graph is empty |
| KnightsGraph.FullBoardEveryLabelIsNode | main.py:135-144 | on the 8 x 8 board every square's label is a node |
| HeapQueue.StrLeTotal | main.py:52 | any two labels compare one way or the other |
| HeapQueue.StrLeTransitive | main.py:52 | the string order is transitive |
| HeapQueue.StrLeAntisymmetric | main.py:52 | labels that compare both ways are equal |
| HeapQueue.EntryLe | main.py:52 | queue entries compare as the (cost, label) tuples the queue holds: cost first, then label as a string; `HeapQueue.EntryTotalOrder` states its properties |
| HeapQueue.EntryLeReflexive | main.py:52 | every entry compares to itself |
| HeapQueue.EntryTotalOrder | main.py:52 | the (cost, label) order is total, transitive and antisymmetric, so two entries that compare both ways are the same entry |
| HeapQueue.MinUnique | main.py:52 | the queue has only one least (cost, label) entry |
| HeapQueue.HeapPop | main.py:52 | the popped entry is a least (cost, label) entry of the queue, and the rest is the queue without it |
| ShortestPath.Dijkstra | main.py:22-81 | src alone when src is dst; otherwise a walk from src to dst of least total weight when dst can be reached, and dst alone when it cannot; the returned string is those labels joined by spaces; with positive weights, each step of the walk enters its node from the first predecessor in (cost, label) order among the equally light ones |
| ShortestPath.RelaxNeighbours | main.py:68-76 | every unvisited neighbour j gets the improved record (cost through the node just visited, walk extended by that node) exactly when the new cost is strictly lower, and keeps its record otherwise; every other entry is unchanged; the queue gains one entry (new cost of j, j) per unvisited neighbour; the search invariant and the (cost, label) visiting order are restored |
| ShortestPath.RelaxedRecord | main.py:72-75 | the record of j after relaxing the edge from temp is either j's old record or the cost through temp with temp's walk extended by temp, and it is never costlier than either |
| ShortestPath.AllRelaxed | main.py:70-76 | once the neighbour loop has seen every neighbour, the table and the queue are as the relaxation contract states |
| ShortestPath.RelaxationKeepsSearch | main.py:70-76 | the table and queue after the neighbour loop satisfy the search invariant again |
| ShortestPath.RelaxationKeepsOrder | main.py:70-76 | with positive weights, after the neighbour loop every visited node still comes before every queued entry, and every recorded walk still enters its node from the first predecessor in (cost, label) order |
| ShortestPath.ImprovedParentFirst | main.py:73-75 | a neighbour whose record the relaxation improves now enters from the node just visited, and that node is its first predecessor in (cost, label) order |
| ShortestPath.KeptParentFirst | main.py:73 | a node whose record the relaxation keeps (no strictly lower cost) keeps its first predecessor: the strict comparison keeps the earlier of two equally light parents |
| ShortestPath.SettleOrder | main.py:50-61 | the least queue entry's node, once visited, comes after every node visited before it and before every entry left in the queue |
| ShortestPath.Settle | main.py:61 | the snapshot of visited entries, extended by the node just visited, agrees with the table on every visited node |
| ShortestPath.SettledUnchanged | main.py:70-76 | a relaxation that changes only unvisited neighbours keeps the table equal to the snapshot on every visited node |
| ShortestPath.LastStepFirst | main.py:73-79 | on the recorded walk, the node before p[i] comes first in (cost, label) order among all nodes reaching p[i] at no greater weight |
| ShortestPath.TieBreakEnds | main.py:78-79 | with positive weights, the recorded walk to dst is a walk whose every step is first in (cost, label) order |
| ShortestPath.PredChain | main.py:75 | every node on a recorded walk has as its own recorded walk the prefix before it |
| ShortestPath.ReachableVisited | main.py:50-61 | when the queue is empty, every node reachable from src has been visited |
| ShortestPath.SearchStarts | main.py:37-48 | the initial table and queue satisfy the search invariant |
| ShortestPath.SkipVisited | main.py:57-59 | dropping a stale entry keeps the invariant |
| ShortestPath.SettleNext | main.py:50-61 | the least entry's node is a node, and marking it visited keeps the invariant while its edges are still to be relaxed |
| ShortestPath.SettledOptimal | main.py:50-61 | the node of the least entry costs no more than any walk to it |
| ShortestPath.NoNeighbours | main.py:63-66 | a visited node without neighbours leaves the invariant whole |
| ShortestPath.FrontierBound | main.py:50-76 | every walk from src to an unvisited node passes an unvisited reached node whose cost is at most the walk's weight |
| ShortestPath.SearchEnds | main.py:78-79 | when the queue is empty the recorded walk to dst is a shortest one if dst is reachable, and empty of predecessors if not |
| ShortestPath.JoinWords | main.py:80 | the printed path is its labels separated by single spaces, the empty path prints as the empty string; `ShortestPath.SplitJoin` and `ShortestPath.JoinSplit` state its inverse |
| ShortestPath.SplitJoin | main.py:78-80 | splitting a printed path at spaces gives its labels back, when no label holds a space |
| ShortestPath.JoinSplit | main.py:78-80 | joining the pieces of a split string gives the string back |
| InputValidation.IsSpace | main.py:184 | the characters the pattern's whitespace class accepts: tab to carriage return, 0x1C to 0x1F, the space and the Unicode spaces and separators; `InputValidation.RequestIsTwoLabels` and `InputValidation.RequestRoundTrip` state what it admits between the two labels |
| InputValidation.MatchesRequest | main.py:184 | a line matches the pattern when it is file letter, rank digit, one whitespace character, file letter, rank digit, and then either ends or ends with one newline; `InputValidation.RequestIsTwoLabels` and `InputValidation.RequestRoundTrip` state it |
| InputValidation.InputIsValid | main.py:174-188 | true exactly when every line matches the request pattern (so true for no lines), false at the first line that does not |
| InputValidation.RequestNamesSquares | main.py:184 | a matching line's first two and its fourth and fifth characters name squares of the board |
| InputValidation.RequestRoundTrip | main.py:184 | two squares' labels around one whitespace character form a matching line that reads back as those squares |
| InputValidation.RequestIsTwoLabels | main.py:184 | every matching line is two labels around a whitespace character, possibly followed by a newline |
| Potentials.WalkLowerBound | main.py:22-33 | no walk weighs less than the rise of a feasible potential from its first node to its last |
| Potentials.TightWalkUnique | main.py:22-33 | under a tight tree with positive weights, two walks from src to x that both weigh the potential of x are equal |
| Potentials.ZeroWeightWalk | main.py:22-33 | with positive weights only a walk that takes no edge weighs 0 |
| Potentials.ShortestWalkUnique | main.py:22-33 | a walk no heavier than one that weighs the potential of its end is that walk |
| DijkstraCases.TestGraphClosed | test_main.py:14-21 | every neighbour in the six-node test graph is a node |
| DijkstraCases.TestGraphPositive | test_main.py:14-21 | every edge of the test graph has positive weight |
| DijkstraCases.SearchFinds | test_main.py:61-64 | the search's result is the expected walk when a potential pins it as the only lightest walk |
| DijkstraCases.SearchTestGraph | test_main.py:61-64 | the search on the test graph prints the expected path |
| DijkstraCases.PathsFromA | test_main.py:24-29 | the searches from A print "A", "A B", "A C", "A C D", "A C E", "A C E F" |
| DijkstraCases.PathsFromB | test_main.py:30-35 | the searches from B print "B A", "B", "B C", "B C D", "B C E", "B C E F" |
| DijkstraCases.PathsFromC | test_main.py:36-41 | the searches from C print "C A", "C B", "C", "C D", "C E", "C E F" |
| DijkstraCases.PathsFromD | test_main.py:42-47 | the searches from D print "D C A", "D C B", "D C", "D", "D C E", "D C E F" |
| DijkstraCases.PathsFromE | test_main.py:48-53 | the searches from E print "E C A", "E C B", "E C", "E C D", "E", "E F" |
| DijkstraCases.PathsFromF | test_main.py:54-59 | the searches from F print "F E C A", "F E C B", "F E C", "F E C D", "F E", "F" |
| DijkstraCases.AllPairs | test_main.py:10-64 | the search over every ordered pair of the six nodes prints the 36 expected paths in order |
| TestCases.MovesFrom00 | test_main.py:91 | the moves from (0, 0) on 3 x 3 are [(2, 1), (1, 2)] |
| TestCases.MovesFrom01 | test_main.py:92 | the moves from (0, 1) on 3 x 3 are [(2, 0), (2, 2)] |
| TestCases.MovesFrom02 | test_main.py:93 | the moves from (0, 2) on 3 x 3 are [(1, 0), (2, 1)] |
| TestCases.MovesFrom10 | test_main.py:94 | the moves from (1, 0) on 3 x 3 are [(0, 2), (2, 2)] |
| TestCases.MovesFrom11 | test_main.py:95 | there are no moves from (1, 1) on 3 x 3 |
| TestCases.MovesFrom12 | test_main.py:96 | the moves from (1, 2) on 3 x 3 are [(0, 0), (2, 0)] |
| TestCases.MovesFrom20 | test_main.py:97 | the moves from (2, 0) on 3 x 3 are [(0, 1), (1, 2)] |
| TestCases.MovesFrom21 | test_main.py:98 | the moves from (2, 1) on 3 x 3 are [(0, 0), (0, 2)] |
| TestCases.MovesFrom22 | test_main.py:99 | the moves from (2, 2) on 3 x 3 are [(1, 0), (0, 1)] |
| TestCases.FixtureMoves | test_main.py:72-82 | on 3 x 3, t is a move from s exactly when the expected graph lists the label of t as a neighbour of the label of s |
| TestCases.FixtureIsKnightGraph | test_main.py:72-82 | the expected 3 x 3 graph has weight 1 on exactly the knight moves of the 3 x 3 board |
| TestCases.ThreeByThreeGraph | test_main.py:72-82 | every knight's graph of the 3 x 3 board is the expected one, which has eight nodes and no B2 |
| TestCases.BuildThreeByThree | test_main.py:67-82 | building the graph of a 3 x 3 board gives the expected graph |
| TestCases.RequestCases | test_main.py:107-117 | "D4 D5" is valid, "A1 H9" (off the board) and "A1  H8" (two spaces) are not |
| KnightPaths.KnightGraphStep | main.py:137-143 | an edge of the 8 x 8 knight's graph joins two labelled squares, the second a move from the first, at weight 1 |
| KnightPaths.KnightStepsBound | main.py:148-153 | after k knight steps, row + col has changed by at most 3k, and by an amount of the same parity as k |
| KnightPaths.SumBoundStep | main.py:148-153 | one more step of change 1 or 3 either way keeps the bound and the parity |
| KnightPaths.WalkTakesKnightSteps | main.py:137-143 | consecutive squares on a walk of the knight's graph are a knight step apart |
| KnightPaths.KnightWalkWeight | main.py:118-119 | a walk of the knight's graph weighs its number of moves |
| KnightPaths.KnightWalk | main.py:137-143 | a walk between two squares weighs its number of moves, and that number bounds the change of row + col and has its parity |
| KnightPaths.KnightTour | main.py:137-143 | a sequence of board squares, each a knight move from the one before, labels a walk of the 8 x 8 knight's graph |
| KnightPaths.ShortestKnightMoves | main.py:22-81 | a lightest walk between two squares has exactly as many moves as a known tour, when no smaller count fits the change of row + col |
| KnightPaths.KnightSearch | main.py:22-81 | the search between two squares returns a walk of exactly the tour's number of moves, printed as its labels joined by spaces, which split back into that walk; every step of the walk is first in (cost, label) order |
| KnightPaths.LabelOrder | main.py:52 | labels compare as strings exactly as their squares compare by file, then by rank |
| KnightPaths.KnightGraphPositive | main.py:118-119 | every edge of the knight's graph has positive weight |
| KnightPaths.KnightPrefixWeight | main.py:118-119 | the first k nodes of a walk of the knight's graph weigh k - 1 |
| KnightPaths.StepWeights | main.py:72 | a walk of i nodes to a neighbour y of p[i] weighs as much as p's first i nodes, and through y as much as p's first i + 1 |
| KnightPaths.EqualStepFirst | main.py:52-73 | a walk as heavy as p's prefix that steps into p[i] ends no earlier in label order than p[i - 1] |
| KnightPaths.PredecessorFirst | main.py:52-73 | on the searched walk, the node before p[i] comes, in label order, no later than any node reached in i - 1 moves with an edge to p[i] |
| KnightPaths.PinPredecessor | main.py:52-73 | the node before p[i] = c is x when x is reached in i - 1 moves and is c's first neighbour in label order (or, for the second node, the first common neighbour of the source and c) |
| KnightPaths.PinStep | main.py:52-73 | one step back along the searched walk against a tour of equal length: p[i] on the tour gives p[i - 1] on the tour |
| KnightPaths.FirstNeighbourH8 | main.py:12 | F7 is the first square, in label order, a knight reaches H8 from |
| KnightPaths.FirstNeighbourF7 | main.py:12 | D6 is the first square a knight reaches F7 from |
| KnightPaths.FirstNeighbourD6 | main.py:12 | B5 is the first square a knight reaches D6 from |
| KnightPaths.FirstNeighbourB5 | main.py:12 | A3 is the first square a knight reaches B5 from |
| KnightPaths.FirstNeighbourD5 | main.py:11 | B4 is the first square a knight reaches D5 from |
| KnightPaths.FirstCommonD4G7 | main.py:10 | E6 is the first square one move from both D4 and G7 |
| KnightPaths.FirstCommonD4B4 | main.py:11 | C2 is the first square one move from both D4 and B4 |
| KnightPaths.FirstCommonA1A3 | main.py:12 | C2 is the first square one move from both A1 and A3 |
| KnightPaths.PinD4G7 | main.py:5-10 | the search's two-move path from D4 to G7 prints as "D4 E6 G7" |
| KnightPaths.PinD4D5 | main.py:6-11 | the search's three-move path from D4 to D5 prints as "D4 C2 B4 D5" |
| KnightPaths.PinA1H8 | main.py:7-12 | the search's six-move path from A1 to H8 prints as "A1 C2 A3 B5 D6 F7 H8" |
| KnightPaths.PinA1H8End | main.py:12 | the last three moves of that path are B5 D6 F7 H8 |
| KnightPaths.PrintedKnightWalk | main.py:78-80 | the printed form of a walk of the knight's graph splits back into the walk |
| KnightPaths.PrintedLabels | main.py:78-80 | the printed form of a sequence of labels splits back into it |
| KnightPaths.TourD4G7 | main.py:5 | D4 E6 G7 is a tour of two knight moves |
| KnightPaths.TourD4D5 | main.py:6 | D4 C2 B4 D5 is a tour of three knight moves |
| KnightPaths.NoShorterD4D5 | main.py:6 | no walk from D4 to D5 has fewer than three moves: the count is odd, and D5 is not one move from D4 |
| KnightPaths.TourA1H8 | main.py:7 | A1 C2 A3 B5 D6 F7 H8 is a tour of six knight moves |
| KnightPaths.NoShorterA1H8 | main.py:7 | no walk from A1 to H8 has fewer than six moves: fewer than five cannot rise by 14, and five is odd |
| KnightPaths.UsageExamples | main.py:1-12 | on the 8 x 8 knight's graph the printed answers to D4 G7, D4 D5 and A1 H8 are exactly "D4 E6 G7", "D4 C2 B4 D5" and "A1 C2 A3 B5 D6 F7 H8" |
| KnightPaths.RequestNodesInGraph | main.py:184-188 | both squares a valid request line names are nodes of the 8 x 8 knight's graph |

## Left out

- `main` (main.py:191-236) is console I/O: reading lines, the loop that stops at an empty line or end of input, printing, and the final pause. It is not part of this model. `KnightPaths.UsageExamples` stands for its use of the builder and the search.
- The binary-heap array layout of `heapq` is not modelled. The queue is a multiset of entries, and a pop removes a least entry under the (cost, label) order.
- The regular-expression engine is not modelled. The one pattern the program uses is written out as character checks in `InputValidation.MatchesRequest`.
- `sys.maxsize`, used as the starting cost, is the marker `Unreached`, which every real cost is below. No cost in a graph with fewer than `sys.maxsize` total weight reaches that value.
- The `visited` list is a set. Only membership in it is ever tested.
- Edge weights are natural numbers (`Graphs.Graph`). The search itself accepts any nonnegative weight, floats included, but every graph the program builds or tests has integer weights.
- ShortestPath.Dijkstra: states which of several equally light walks it returns only for graphs with positive weights. There, each step enters its node from the first predecessor in (cost, label) order. This is the order the queue pops entries in (main.py:52), kept by the strict comparison at main.py:73. With zero-weight edges the order of visits is not stated. The test-suite paths are pinned either way, because each of them is proved to be the only lightest walk.
- ShortestPath.Dijkstra: requires src and dst to be nodes and every neighbour to be a node. The program raises a KeyError when src is not a node (main.py:42), and when dst is not a node once the search ends (main.py:79). A neighbour that is not a node raises only when the search relaxes it (main.py:73), and never when src is dst, because the loop stops at once (main.py:54-55).
- KnightsGraph.BuildKnightsGraph: requires a board side of at most 8. Larger boards raise a KeyError in the 8 x 8 label mapping (main.py:143).
- A square with no knight move is not a node of the graph: the code creates a node only when an edge touches it, and the model follows the code. On 3 x 3, B2 is absent, as test_main.py:72-82 expects.
- The nested loops of `build_knights_graph` and the neighbour loop of `dijkstra` are separate methods, `KnightsGraph.AddMovesFrom` and `ShortestPath.RelaxNeighbours`, each with its own loop invariant.
