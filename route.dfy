/** route_from_precedents: rebuilding the route from the predecessor map. */
module Route {
  import opened Wrappers
  import opened Network
  import opened SearchSpec

  /** The state reached from `s` after following `n` predecessor links, None
      when a link is missing on the way. */
  function Walk(precedents: map<State, Option<State>>, s: State, n: nat): Option<State>
    decreases n
  {
    if n == 0 then Some(s)
    else if s in precedents && precedents[s].Some? then Walk(precedents, precedents[s].value, n - 1)
    else None
  }

  /** The sequence in reverse order (list.reverse). */
  function Reversed(s: seq<State>): seq<State>
  {
    if s == [] then [] else [s[|s| - 1]] + Reversed(s[..|s| - 1])
  }

  lemma {:induction false} ReversedAt(s: seq<State>)
    ensures |Reversed(s)| == |s|
    ensures forall i :: 0 <= i < |s| ==> Reversed(s)[i] == s[|s| - 1 - i]
  {
    if s != [] {
      var init := s[..|s| - 1];
      ReversedAt(init);
      forall i | 0 <= i < |s| ensures Reversed(s)[i] == s[|s| - 1 - i] {
        if i > 0 { assert Reversed(s)[i] == Reversed(init)[i - 1] == init[|init| - i]; }
      }
    }
  }

  /** `back` is a chain of predecessor links that starts at `goal`: each entry's
      predecessor is the next entry. */
  ghost predicate BackChain(precedents: map<State, Option<State>>, back: seq<State>, goal: State)
  {
    && back != [] && back[0] == goal
    && forall i :: 0 <= i < |back| - 1 ==> back[i] in precedents && precedents[back[i]] == Some(back[i + 1])
  }

  /** Each entry of `route` after the first has the entry before it as its
      recorded predecessor. */
  ghost predicate LinksBack(precedents: map<State, Option<State>>, route: seq<State>)
  {
    forall i :: 0 < i < |route| ==> route[i] in precedents && precedents[route[i]] == Some(route[i - 1])
  }

  lemma BackChainExtend(precedents: map<State, Option<State>>, back: seq<State>, goal: State, x: State)
    requires BackChain(precedents, back, goal)
    requires back[|back| - 1] in precedents && precedents[back[|back| - 1]] == Some(x)
    ensures BackChain(precedents, back + [x], goal)
  {
  }

  /** Reversing a back chain from `goal` that ends at its only occurrence of
      `start` gives a route from `start` to `goal` along the predecessor links. */
  lemma ReversedChain(precedents: map<State, Option<State>>, back: seq<State>, start: State, goal: State)
    requires BackChain(precedents, back, goal) && back[|back| - 1] == start
    requires start !in back[..|back| - 1]
    ensures var route := Reversed(back);
              && route != [] && route[0] == start && route[|route| - 1] == goal
              && (forall i :: 0 < i < |route| ==> route[i] != start)
              && LinksBack(precedents, route)
  {
    ReversedAt(back);
    var route := Reversed(back);
    forall i | 0 < i < |route| ensures route[i] != start {
      assert route[i] == back[..|back| - 1][|back| - 1 - i];
    }
    forall i | 0 < i < |route|
      ensures route[i] in precedents && precedents[route[i]] == Some(route[i - 1])
    {
      var b := |back| - 1 - i;
      assert route[i] == back[b] && route[i - 1] == back[b + 1];
    }
  }

  /** route_from_precedents: follows the predecessor links from `goal` back to
      `start` when `goal` was recorded, appends `start`, reverses, and looks up
      the goal's cost; `eta` is None where the lookup of `times[goal]` fails. */
  method RouteFromPrecedents(start: State, goal: State, precedents: map<State, Option<State>>,
                             times: map<State, nat>)
    returns (route: seq<State>, eta: Option<nat>)
    requires goal in precedents ==> exists n :: Walk(precedents, goal, n) == Some(start)
    ensures goal !in precedents ==> route == [start]
    ensures goal in precedents ==>
              && route != [] && route[0] == start && route[|route| - 1] == goal
              && (forall i :: 0 < i < |route| ==> route[i] != start)
              && LinksBack(precedents, route)
    ensures eta.Some? <==> goal in times
    ensures eta.Some? ==> eta.value == times[goal]
  {
    var current := goal;
    var back: seq<State> := [];
    if goal in precedents {
      ghost var n :| Walk(precedents, goal, n) == Some(start);
      while current != start
        invariant Walk(precedents, current, n) == Some(start)
        invariant BackChain(precedents, back + [current], goal)
        invariant start !in back
        decreases n
      {
        BackChainExtend(precedents, back + [current], goal, precedents[current].value);
        back := back + [current];
        current := precedents[current].value;
        n := n - 1;
      }
      assert back == (back + [start])[..|back|];
      back := back + [start];
      ReversedChain(precedents, back, start, goal);
    } else {
      back := back + [start];
      assert Reversed(back) == [start] + Reversed([]);
    }
    route := Reversed(back);
    eta := if goal in times then Some(times[goal]) else None;
  }

  /** Every edge between two different stations takes at least one minute. */
  ghost predicate PositiveEdges(ss: Subway)
    requires ss.Valid()
  {
    forall a, b :: IsStation(a) && IsStation(b) && a != b && GetEdge(ss, a, b).Some? ==> GetEdge(ss, a, b).value >= 1
  }

  /** With positive edge weights, the predecessor links recorded by the search
      lead from every recorded state back to the start, within as many links as
      the state's cost: the reconstruction terminates on the search's maps. */
  lemma {:induction false} ChainReachesStart(ss: Subway, start: State, precedents: map<State, Option<State>>,
                                             times: map<State, nat>, k: State)
    requires SearchInvariant(ss, start, precedents, times) && PositiveEdges(ss)
    requires k in times
    ensures exists n :: n <= times[k] && Walk(precedents, k, n) == Some(start)
    decreases times[k]
  {
    if k == start {
      assert Walk(precedents, k, 0) == Some(start);
    } else {
      var p := precedents[k].value;
      assert PredecessorStep(ss, p, k, times);
      assert p.station != k.station;
      assert times[p] < times[k];
      ChainReachesStart(ss, start, precedents, times, p);
      var n :| n <= times[p] && Walk(precedents, p, n) == Some(start);
      assert Walk(precedents, k, n + 1) == Some(start);
    }
  }
}
