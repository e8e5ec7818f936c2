# Line-aware A* route search over a subway network

This project models the route planner of `main.py`. The planner works on a
network of 14 stations and four named lines (red, green, blue, yellow).

A search state is a pair of a station and the line the traveller is riding.
Moving to an adjacent station costs the edge's travel time. When the current
line does not serve the next station, the move costs `CHANGE_LINE_MIN` = 4
extra minutes, and the traveller switches to the last line of the current
station, in table order, that also serves the next station.

`search` is A*. Its frontier is a dictionary from state to priority. `pop`
takes the first entry of least priority, in insertion order. The start is
pushed at priority 0. Every other state is pushed at its minutes since the
start plus the straight-line time estimate to the goal station. The search stops at the first popped state whose
*station* is the goal's station, or when the frontier is empty.
`route_from_precedents` follows the predecessor links back from the goal
*state*, meaning the (station, line) pair, then reverses them. It returns
the route together with the recorded time of the goal state.

Modules:

- `Wrappers` (wrappers.dfy) holds `Option`.
- `Network` (network.dfy) holds the `SubwaySystem` lookups. `get_lines`,
  `get_neighbors` and the line-change loop are methods with loops, each proved
  against a recursive specification function.
- `Frontier` (priority_queue.dfy) holds the `PriorityQueue` class. Its fields
  are the key order and the priority map, which together model an
  insertion-ordered Python dict.
- `SearchSpec` (search_spec.dfy) holds states, moves, move costs and the
  invariant of the predecessor and cost maps.
- `SearchMeasure` (search_measure.dfy) holds the termination measure of the
  search loop.
- `Search` (search.dfy) holds the search loop, split into the move, the
  relaxation of one neighbour and the expansion of one state.
- `Route` (route.dfy) holds `route_from_precedents`.
- `SearchProperties` (search_properties.dfy) holds what the maps produced by
  the search guarantee about sequences of moves.
- `Planner` (plan.dfy) holds the two calls made for one journey: search,
  then route reconstruction.

Stations and times:

- A station number is an `int` in 1..14.
- Travel times are `nat`.
- A missing edge, infinity in the table, is `None`.

## Model

| member | source | states |
|---|---|---|
| Network.GetEdge | main.py:26-29 | `get_edge` reads the upper triangle of the edge table; its meaning is stated by `Network.EdgeSymmetric` |
| Network.GetEtaGoal | main.py:31-35 | `get_ETA_goal` reads the upper triangle of the estimate table; its meaning is stated by `Network.EtaSymmetric` |
| Network.EdgeSymmetric | main.py:26-29 | `get_edge(a, b)` equals `get_edge(b, a)`, because only the upper triangle of the edge table is read |
| Network.EtaSymmetric | main.py:31-35 | `get_ETA_goal(a, b)` equals `get_ETA_goal(b, a)` |
| Network.GetLines | main.py:37-43 | the loop returns `LinesOf`: the names of the lines whose station list contains the station, in table order |
| Network.LinesOfMembership | main.py:37-43 | a name is in `get_lines(s)` if and only if some line of that name lists `s` |
| Network.LinesOfAreNames | main.py:37-43 | every line returned for a station is a line of the table |
| Network.GetNeighbors | main.py:45-50 | the result is strictly ascending, so it has no duplicates; it holds `i` if and only if `i` is in 1..14 and has a finite edge to the station |
| Network.NeighborsUpToSpec | main.py:45-50 | after scanning 1..k, the list is ascending and holds exactly the stations in 1..k with a finite edge |
| Network.PickChangeLine | main.py:113-115 | the loop without early exit returns `LastShared`, the last shared line |
| Network.LastSharedSpec | main.py:113-115 | `LastShared` is None exactly when the two lists share no line; otherwise it is a shared line with no shared line after it, so it is the last shared line, not the first |
| Network.ReferenceLinesCoverStations | main.py:15-20 | in the network's own line table, every station 1..14 is served by at least one line |
| SearchSpec.ReferenceStatesExist | main.py:15-20 | on the network's own line table, every station 1..14 has a line that serves it, so the entry point's checks on a start or goal state can be met at every station |
| Frontier.FirstMinIndex | main.py:61 | `argmin`: the returned index holds a least priority, and every earlier key has a strictly greater one |
| Frontier.PriorityQueue.constructor | main.py:54-55 | the new queue is empty |
| Frontier.PriorityQueue.Size | main.py:97 | `len(elements)` is the number of keys in the priority map |
| Frontier.PriorityQueue.Push | main.py:57-58 | after `push(item, p)`, `item` has priority `p` and every other key keeps its priority; a new key goes to the end of the order, an existing key keeps its position; the size grows by one exactly when the key is new |
| Frontier.PriorityQueue.Pop | main.py:60-65 | on a non-empty queue it returns a key of least priority, the first one in insertion order on ties, and removes exactly that key; the other keys keep their priorities and their order |
| SearchSpec.NextLineServes | main.py:110-119 | when adjacent stations share a line, the line after a move serves the neighbour; on a change it also serves the current station |
| SearchSpec.RelaxKeepsInvariant | main.py:119-123 | recording a strictly cheaper state through `current` keeps the map invariant: equal key sets, the start at cost 0 with no predecessor, every line serving its station, and every predecessor an adjacent state whose move leads to the state at no more than the recorded cost |
| Search.Move | main.py:108-119 | the move to a neighbour keeps the current line when it serves the neighbour, otherwise takes a line of the current station; it costs the edge time plus 4 exactly when the line changes |
| Search.RelaxImproves | main.py:120-123 | a strict improvement keeps the loop invariant and never rewrites the start or the state being expanded |
| Search.RelaxNeighbor | main.py:108-123 | one neighbour: a new or strictly cheaper state is recorded with its cost and predecessor, pushed with cost plus estimate, and appended to the queue order exactly when it was not queued; otherwise the maps, the priorities and the queue order are unchanged; costs never rise |
| Search.ExpandNeighbors | main.py:105-123 | after all neighbours: every state a move from the expanded state leads to that is new or strictly cheaper is recorded at its cost through that state, with that state as predecessor, and queued at cost plus estimate; every other entry of the cost map, the predecessor map and the priorities is unchanged; the new keys are appended to the queue order in neighbour order; the map invariant holds, costs never rise, and the termination measure drops unless nothing changed |
| Search.GoalPopped | main.py:98-103 | the goal test compares stations only: the first popped state at the goal station ends the search |
| Search.Search | main.py:90-126 | the returned maps satisfy the map invariant; the start is popped first; the search stops at the first popped state at the goal station; if none is popped, every recorded state is relaxed and none is at the goal station; the loop terminates |
| SearchMeasure.RelaxProgress | main.py:97-123 | each relaxation either records a new state of the finite state space or lowers a recorded cost, so the loop measure decreases |
| Route.ReversedAt | main.py:137 | `reverse()` keeps the length and maps index `i` to index `n-1-i` |
| Route.ReversedChain | main.py:133-137 | reversing the back chain gives a route from `start` to `goal` along the predecessor links, with `start` only at the head |
| Route.RouteFromPrecedents | main.py:128-138 | the route is `[start]` when the goal state was never recorded; otherwise it starts at `start`, ends at the goal state and each entry is the predecessor of the next; the time is `times[goal]`, or None where that lookup fails |
| Route.ChainReachesStart | main.py:133-135 | on the search's maps, with positive edge times, the predecessor links from any recorded state reach the start within its cost in links, so the reconstruction loop ends |
| SearchProperties.SettledBound | main.py:97-126 | when the frontier is exhausted, every sequence of legal moves from the start ends in a recorded state whose cost is at most the cost of those moves |
| SearchProperties.ExhaustedMeansUnreachable | main.py:97-126 | when the frontier empties without reaching the goal station, no sequence of moves from the start reaches it |
| SearchProperties.LinkedRouteCost | main.py:128-138 | a route along the recorded predecessor links is a sequence of legal moves whose cost is at most the time recorded for its last state |
| Planner.PlanRoute | main.py:157-158 | the route starts at `start`; a reported time belongs to a route of legal moves ending at the goal state that costs no more; without a time the route is `[start]`; when start equals goal the result is `[start]` with time 0 |

## Left out

- Loading the two tables from CSV files and scaling them by `TO_MIN_BY_TRAIN` are not modelled. The tables are inputs of the model.
- Floating point is not modelled: travel times are natural numbers, infinity is `None`, and the `np.round` of the returned time is dropped.
- Console output is left out: `StationViz`, `print_frontier`, the prints inside `search` and `SubwaySystem.print`.
- The interactive `__main__` block is left out. Its input assertions, a station in 1..14 and a line that serves it, become the preconditions of `Search.Search` and `Planner.PlanRoute`.
- Search.Search: the source only works when adjacent stations share a line. When they share none, the line-change loop leaves `neighbor_line` as it was in the previous iteration, or undefined on the first. The model requires the sharing (`AdjacentShareLine`) rather than modelling that stale value.
- Search.Search: nothing is proved about the heuristic's admissibility. The search stops at the first goal-station pop, so the returned time is proved to bound a real route, but not to be the shortest time.
- The goal test matches the station only, while the reconstruction looks up the full (station, line) goal state. The model keeps this. The search may stop on another line of the goal station. The route and time are then those recorded for the goal state, which need not be the state that ended the search, and whose time need not be final. Only when the goal state was never recorded is the route `[start]` with no time.
- Route.RouteFromPrecedents: the `KeyError` of `times[goal]` is modelled as the time `None`. Its precondition that the links from the goal reach the start holds on the search's maps when edge times between different stations are positive (`Route.ChainReachesStart`).
- Planner.PlanRoute: requires every finite edge between two different stations to take at least one minute (`PositiveEdges`). The source does not need this: a state is re-linked only on a strict improvement, which keeps the predecessor links free of cycles even with zero-minute edges. The model proves that the links reach the start only for positive edge times, so it promises nothing on networks with zero-minute edges.
- Route.ChainReachesStart: proved only for positive edge times between different stations, for the reason given for `Planner.PlanRoute`.
- Frontier.PriorityQueue.Pop: `np.argmin` on an empty list raises an error; the model requires a non-empty queue, which the search loop guarantees.
