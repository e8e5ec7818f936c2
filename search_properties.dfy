/** What the search's result guarantees about routes through the network. */
module SearchProperties {
  import opened Wrappers
  import opened Network
  import opened SearchSpec
  import opened Route

  /** `p` is a sequence of legal moves: consecutive states are on adjacent
      stations and each state's line is the one the move leads to. */
  ghost predicate Moves(ss: Subway, p: seq<State>)
    requires ss.Valid()
  {
    && p != []
    && (forall i :: 0 <= i < |p| ==> IsStation(p[i].station))
    && forall i, j :: 0 <= i && j == i + 1 < |p| ==>
         && GetEdge(ss, p[i].station, p[j].station).Some?
         && NextLine(ss, p[i], p[j].station) == Some(p[j].line)
  }

  lemma MovesPrefix(ss: Subway, p: seq<State>)
    requires ss.Valid() && Moves(ss, p) && |p| > 1
    ensures Moves(ss, p[..|p| - 1])
  {
    var init := p[..|p| - 1];
    forall i, j | 0 <= i && j == i + 1 < |init|
      ensures GetEdge(ss, init[i].station, init[j].station).Some?
      ensures NextLine(ss, init[i], init[j].station) == Some(init[j].line)
    {
      assert init[i] == p[i] && init[j] == p[j];
    }
  }

  /** A legal move appended to a sequence of legal moves. */
  lemma MovesSnoc(ss: Subway, p: seq<State>, x: State)
    requires ss.Valid() && Moves(ss, p) && IsStation(x.station)
    requires GetEdge(ss, p[|p| - 1].station, x.station).Some?
    requires NextLine(ss, p[|p| - 1], x.station) == Some(x.line)
    ensures Moves(ss, p + [x])
  {
    var q := p + [x];
    forall i | 0 <= i < |q| ensures IsStation(q[i].station) {
      if i < |p| { assert q[i] == p[i]; }
    }
    forall i, j | 0 <= i && j == i + 1 < |q|
      ensures GetEdge(ss, q[i].station, q[j].station).Some?
      ensures NextLine(ss, q[i], q[j].station) == Some(q[j].line)
    {
      if j < |p| { assert q[i] == p[i] && q[j] == p[j]; }
    }
  }

  lemma LinksBackPrefix(precedents: map<State, Option<State>>, route: seq<State>)
    requires LinksBack(precedents, route) && route != []
    ensures LinksBack(precedents, route[..|route| - 1])
  {
    var init := route[..|route| - 1];
    forall i | 0 < i < |init|
      ensures init[i] in precedents && precedents[init[i]] == Some(init[i - 1])
    {
      assert init[i] == route[i] && init[i - 1] == route[i - 1];
    }
  }

  /** Total minutes of a sequence of moves, line-change penalties included. */
  function MovesCost(ss: Subway, p: seq<State>): nat
    requires ss.Valid() && Moves(ss, p)
  {
    if |p| == 1 then 0
    else
      var init := p[..|p| - 1];
      MovesPrefix(ss, p);
      var a, b := p[|p| - 2], p[|p| - 1];
      MovesCost(ss, init) + StepCost(ss, a, b.station)
  }

  /** Once every recorded state is relaxed (the frontier is empty), every
      sequence of moves from the start ends in a recorded state whose cost is at
      most the cost of those moves. */
  lemma {:induction false} SettledBound(ss: Subway, start: State, precedents: map<State, Option<State>>,
                                        times: map<State, nat>, p: seq<State>)
    requires SearchInvariant(ss, start, precedents, times)
    requires forall k :: k in times ==> Relaxed(ss, times, k)
    requires Moves(ss, p) && p[0] == start
    ensures p[|p| - 1] in times && times[p[|p| - 1]] <= MovesCost(ss, p)
  {
    if |p| > 1 {
      var init := p[..|p| - 1];
      assert init[0] == start;
      MovesPrefix(ss, p);
      SettledBound(ss, start, precedents, times, init);
      var a, b := p[|p| - 2], p[|p| - 1];
      assert a == init[|init| - 1];
      assert RelaxedVia(ss, times, a, b.station);
    }
  }

  /** `p` is a sequence of legal moves that takes at most `t` minutes. */
  ghost predicate RouteWithin(ss: Subway, p: seq<State>, t: nat)
    requires ss.Valid()
  {
    Moves(ss, p) && MovesCost(ss, p) <= t
  }

  /** When the search ends with an empty frontier, no sequence of moves from
      the start reaches the goal station. */
  lemma ExhaustedMeansUnreachable(ss: Subway, start: State, goal: State, precedents: map<State, Option<State>>,
                                  times: map<State, nat>, p: seq<State>)
    requires SearchInvariant(ss, start, precedents, times)
    requires forall k :: k in times ==> Relaxed(ss, times, k) && k.station != goal.station
    requires Moves(ss, p) && p[0] == start
    ensures p[|p| - 1].station != goal.station
  {
    SettledBound(ss, start, precedents, times, p);
  }

  /** A route that follows the recorded predecessor links from the start is a
      sequence of legal moves, and the cost recorded for its last state is at
      least what those moves cost. */
  lemma {:induction false} LinkedRouteCost(ss: Subway, start: State, precedents: map<State, Option<State>>,
                                           times: map<State, nat>, route: seq<State>)
    requires SearchInvariant(ss, start, precedents, times)
    requires route != [] && route[0] == start && LinksBack(precedents, route)
    ensures Moves(ss, route)
    ensures route[|route| - 1] in times && MovesCost(ss, route) <= times[route[|route| - 1]]
  {
    if |route| > 1 {
      var init := route[..|route| - 1];
      LinksBackPrefix(precedents, route);
      LinkedRouteCost(ss, start, precedents, times, init);
      var a, b := init[|init| - 1], route[|route| - 1];
      assert route == init + [b];
      assert precedents[b] == Some(a);
      assert PredecessorStep(ss, a, b, times);
      MovesSnoc(ss, init, b);
      assert MovesCost(ss, route) == MovesCost(ss, init) + StepCost(ss, a, b.station);
    }
  }
}
