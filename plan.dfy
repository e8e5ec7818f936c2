/** The two calls the program makes for one journey: the search, then the
    reconstruction of the route from its predecessor map. */
module Planner {
  import opened Wrappers
  import opened Network
  import opened SearchSpec
  import Search
  import opened Route
  import opened SearchProperties

  /** Plans a journey from `start` to `goal` (both a station with a line that
      serves it). The route always begins at `start`; a reported time belongs
      to a route of legal moves ending at `goal` that costs no more than it;
      with no reported time the route is `[start]` alone; a journey that
      starts at its goal is `[start]` at zero minutes. */
  method PlanRoute(ss: Subway, start: State, goal: State) returns (route: seq<State>, eta: Option<nat>)
    requires ss.Valid() && AdjacentShareLine(ss) && PositiveEdges(ss)
    requires Serves(ss, start) && Serves(ss, goal)
    ensures route != [] && route[0] == start
    ensures eta.Some? ==> route[|route| - 1] == goal && RouteWithin(ss, route, eta.value)
    ensures eta.None? ==> route == [start]
    ensures start == goal ==> route == [start] && eta == Some(0)
  {
    var precedents, times, popped, goalState := Search.Search(ss, start, goal);
    if goal in precedents {
      ChainReachesStart(ss, start, precedents, times, goal);
    }
    route, eta := RouteFromPrecedents(start, goal, precedents, times);
    if eta.Some? {
      LinkedRouteCost(ss, start, precedents, times, route);
    }
  }
}
