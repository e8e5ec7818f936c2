/** The line-aware A* search loop. */
module Search {
  import opened Wrappers
  import opened Network
  import opened Frontier
  import opened SearchSpec
  import opened SearchMeasure

  /** Between iterations: every recorded state outside the frontier has been
      expanded (is relaxed) and is not at the goal station. */
  ghost predicate LoopInv(ss: Subway, start: State, goal: State, precedents: map<State, Option<State>>,
                          times: map<State, nat>, frontier: set<State>)
  {
    && SearchInvariant(ss, start, precedents, times)
    && frontier <= times.Keys
    && (forall k :: k in times && k !in frontier ==> Relaxed(ss, times, k) && k.station != goal.station)
  }

  /** While expanding `cur`: as LoopInv, except that `cur` is relaxed only
      towards the neighbours in `done`. */
  ghost predicate Expanding(ss: Subway, start: State, goal: State, precedents: map<State, Option<State>>,
                            times: map<State, nat>, frontier: set<State>, cur: State, done: seq<int>)
  {
    && SearchInvariant(ss, start, precedents, times)
    && frontier <= times.Keys
    && cur in times && cur.station != goal.station
    && (forall k :: k in times && k !in frontier && k != cur ==> Relaxed(ss, times, k) && k.station != goal.station)
    && (forall nb :: nb in done ==> RelaxedVia(ss, times, cur, nb))
  }

  lemma StartExpanding(ss: Subway, start: State, goal: State, precedents: map<State, Option<State>>,
                       times: map<State, nat>, frontier: set<State>, cur: State)
    requires LoopInv(ss, start, goal, precedents, times, frontier)
    requires cur in frontier && cur.station != goal.station
    ensures Expanding(ss, start, goal, precedents, times, frontier - {cur}, cur, [])
  {
  }

  /** A strict improvement of `next` through `cur` keeps the invariant and
      relaxes `cur` towards `nb`. */
  lemma RelaxImproves(ss: Subway, start: State, goal: State, precedents: map<State, Option<State>>,
                      times: map<State, nat>, frontier: set<State>, cur: State, done: seq<int>,
                      nb: int, next: State, elapsed: nat)
    requires ss.Valid() && AdjacentShareLine(ss)
    requires Expanding(ss, start, goal, precedents, times, frontier, cur, done)
    requires IsStation(nb) && GetEdge(ss, cur.station, nb).Some?
    requires NextLine(ss, cur, nb) == Some(next.line) && next.station == nb
    requires elapsed == times[cur] + StepCost(ss, cur, nb)
    requires next !in times || elapsed < times[next]
    ensures next != cur && next != start && Serves(ss, next)
    ensures Refines(times, times[next := elapsed])
    ensures Expanding(ss, start, goal, precedents[next := Some(cur)], times[next := elapsed],
                      frontier + {next}, cur, done + [nb])
  {
    NextLineServes(ss, cur, nb);
    RelaxKeepsInvariant(ss, start, precedents, times, cur, nb, next, elapsed);
    var t', f' := times[next := elapsed], frontier + {next};
    forall k | k in t' && k !in f' && k != cur
      ensures Relaxed(ss, t', k) && k.station != goal.station
    {
      RelaxedMonotone(ss, times, t', k);
    }
    forall n | n in done + [nb] ensures RelaxedVia(ss, t', cur, n) {
      if n != nb { RelaxedViaMonotone(ss, times, t', cur, n); }
    }
  }

  /** A move that does not improve `next` leaves cur already relaxed towards `nb`. */
  lemma RelaxSkips(ss: Subway, start: State, goal: State, precedents: map<State, Option<State>>,
                   times: map<State, nat>, frontier: set<State>, cur: State, done: seq<int>,
                   nb: int, next: State, elapsed: nat)
    requires ss.Valid()
    requires Expanding(ss, start, goal, precedents, times, frontier, cur, done)
    requires IsStation(nb) && GetEdge(ss, cur.station, nb).Some?
    requires NextLine(ss, cur, nb) == Some(next.line) && next.station == nb
    requires elapsed == times[cur] + StepCost(ss, cur, nb)
    requires next in times && times[next] <= elapsed
    ensures Expanding(ss, start, goal, precedents, times, frontier, cur, done + [nb])
  {
  }

  lemma FinishExpanding(ss: Subway, start: State, goal: State, precedents: map<State, Option<State>>,
                        times: map<State, nat>, frontier: set<State>, cur: State, done: seq<int>)
    requires Expanding(ss, start, goal, precedents, times, frontier, cur, done)
    requires forall nb :: IsStation(nb) && GetEdge(ss, cur.station, nb).Some? ==> nb in done
    ensures LoopInv(ss, start, goal, precedents, times, frontier)
  {
    assert Relaxed(ss, times, cur) by {
      forall nb ensures RelaxedVia(ss, times, cur, nb) {
        if IsStation(nb) && IsStation(cur.station) && GetEdge(ss, cur.station, nb).Some? {
          assert nb in done;
        }
      }
    }
  }

  /** The effect of one relaxation: the move from `cur` to station `nb` gives
      the state `next` at cost `elapsed`; when `next` is new or `elapsed` is
      strictly lower than its recorded cost, `next` is recorded with that cost,
      with `cur` as predecessor, and queued at `elapsed` plus the estimate to
      the goal (at the end of the queue order when it was not queued);
      otherwise nothing changes. */
  ghost predicate RelaxStep(ss: Subway, goal: State, cur: State, nb: int,
                            precedents0: map<State, Option<State>>, times0: map<State, nat>,
                            prio0: map<State, nat>, order0: seq<State>,
                            precedents: map<State, Option<State>>, times: map<State, nat>,
                            prio: map<State, nat>, order: seq<State>)
    requires ss.Valid() && IsStation(cur.station) && IsStation(nb) && IsStation(goal.station)
    requires GetEdge(ss, cur.station, nb).Some? && NextLine(ss, cur, nb).Some? && cur in times0
  {
    var next := State(nb, NextLine(ss, cur, nb).value);
    var elapsed := times0[cur] + StepCost(ss, cur, nb);
    if next !in times0 || elapsed < times0[next] then
      && times == times0[next := elapsed]
      && precedents == precedents0[next := Some(cur)]
      && prio == prio0[next := elapsed + GetEtaGoal(ss, nb, goal.station)]
      && order == (if next in prio0 then order0 else order0 + [next])
    else
      times == times0 && precedents == precedents0 && prio == prio0 && order == order0
  }

  /** The move from `current` to the adjacent station `neighbor`, reached
      `base` minutes after the start: the state it leads to (same line when
      that line serves `neighbor`, otherwise the last shared line) and the
      minutes since the start on arrival, with the line-change penalty exactly
      when the current line does not serve `neighbor`. */
  method Move(ss: Subway, current: State, currentLines: seq<string>, neighbor: int, base: nat)
    returns (next: State, elapsed: nat)
    requires ss.Valid() && AdjacentShareLine(ss) && Serves(ss, current)
    requires currentLines == LinesOf(ss.lines, current.station)
    requires IsStation(neighbor) && GetEdge(ss, current.station, neighbor).Some?
    ensures NextLine(ss, current, neighbor).Some?
    ensures next == State(neighbor, NextLine(ss, current, neighbor).value) && Serves(ss, next)
    ensures current.line in LinesOf(ss.lines, neighbor) ==> next.line == current.line
    ensures current.line !in LinesOf(ss.lines, neighbor) ==> next.line in currentLines
    ensures elapsed == base + StepCost(ss, current, neighbor)
    ensures elapsed == base + GetEdge(ss, current.station, neighbor).value +
                       (if current.line in LinesOf(ss.lines, neighbor) then 0 else CHANGE_LINE_MIN)
  {
    elapsed := base + GetEdge(ss, current.station, neighbor).value;
    var nbLines := GetLines(ss, neighbor);
    var neighborLine: string;
    NextLineServes(ss, current, neighbor);
    if current.line !in nbLines {
      elapsed := elapsed + CHANGE_LINE_MIN;
      var picked := PickChangeLine(currentLines, nbLines);
      neighborLine := picked.value;
    } else {
      neighborLine := current.line;
    }
    next := State(neighbor, neighborLine);
  }

  /** One pass of the `for neighbor` loop: the move from `current` to
      `neighbor`, its cost and line, and the relaxation of the resulting state. */
  method RelaxNeighbor(ss: Subway, start: State, goal: State, current: State, currentLines: seq<string>,
                       neighbor: int, precedents0: map<State, Option<State>>, times0: map<State, nat>,
                       frontier: PriorityQueue<State>, ghost us: seq<State>, ghost done: seq<int>,
                       ghost timesIt: map<State, nat>)
    returns (precedents: map<State, Option<State>>, times: map<State, nat>)
    requires ss.Valid() && AdjacentShareLine(ss) && IsStation(goal.station)
    requires us == Universe(ss)
    requires frontier.Valid()
    requires Expanding(ss, start, goal, precedents0, times0, frontier.prio.Keys, current, done)
    requires currentLines == LinesOf(ss.lines, current.station)
    requires IsStation(neighbor) && GetEdge(ss, current.station, neighbor).Some?
    requires Refines(timesIt, times0) && (times0 == timesIt || Progress(us, timesIt, times0))
    modifies frontier
    ensures frontier.Valid()
    ensures Expanding(ss, start, goal, precedents, times, frontier.prio.Keys, current, done + [neighbor])
    ensures Refines(timesIt, times) && (times == timesIt || Progress(us, timesIt, times))
    ensures times == timesIt ==> times0 == timesIt && frontier.order == old(frontier.order)
    ensures NextLine(ss, current, neighbor).Some?
    ensures RelaxStep(ss, goal, current, neighbor, precedents0, times0, old(frontier.prio), old(frontier.order),
                      precedents, times, frontier.prio, frontier.order)
  {
    precedents, times := precedents0, times0;
    var next, elapsed := Move(ss, current, currentLines, neighbor, times[current]);
    if next !in times || elapsed < times[next] {
      RelaxImproves(ss, start, goal, precedents, times, frontier.prio.Keys, current, done,
                    neighbor, next, elapsed);
      UniverseHas(ss, next);
      RelaxProgress(us, timesIt, times, next, elapsed);
      times := times[next := elapsed];
      frontier.Push(next, elapsed + GetEtaGoal(ss, neighbor, goal.station));
      precedents := precedents[next := Some(current)];
    } else {
      RelaxSkips(ss, start, goal, precedents, times, frontier.prio.Keys, current, done,
                 neighbor, next, elapsed);
    }
  }

  /** `k` is a state a move from `cur` leads to, and it is new or strictly
      cheaper through `cur` than recorded in `times0`. */
  ghost predicate Improves(ss: Subway, cur: State, times0: map<State, nat>, k: State)
    requires ss.Valid() && IsStation(cur.station) && cur in times0
  {
    && IsStation(k.station) && GetEdge(ss, cur.station, k.station).Some?
    && NextLine(ss, cur, k.station) == Some(k.line)
    && (k !in times0 || times0[cur] + StepCost(ss, cur, k.station) < times0[k])
  }

  /** The states reached from `cur` through the stations `nbs`, in that order,
      that improve on `times0` and were not queued in `prio0`: the keys the
      expansion appends to the queue order. */
  ghost function Appended(ss: Subway, cur: State, nbs: seq<int>, times0: map<State, nat>,
                          prio0: map<State, nat>): seq<State>
    requires ss.Valid() && IsStation(cur.station) && cur in times0
  {
    if nbs == [] then []
    else
      var nb := nbs[|nbs| - 1];
      var nl := NextLine(ss, cur, nb);
      Appended(ss, cur, nbs[..|nbs| - 1], times0, prio0) +
        (if IsStation(nb) && nl.Some? && Improves(ss, cur, times0, State(nb, nl.value)) && State(nb, nl.value) !in prio0
         then [State(nb, nl.value)] else [])
  }

  /** `k` is an improving state on one of the stations `done`. */
  ghost predicate Touched(ss: Subway, cur: State, done: seq<int>, t0: map<State, nat>, k: State)
    requires ss.Valid() && IsStation(cur.station) && cur in t0
  {
    k.station in done && Improves(ss, cur, t0, k)
  }

  /** `m` has the same entry for `k` as `m0`, or lacks it as `m0` does. */
  ghost predicate Same<V>(m0: map<State, V>, m: map<State, V>, k: State)
  {
    (k in m <==> k in m0) && (k in m0 ==> m[k] == m0[k])
  }

  /** Every improving state on a station of `done` is recorded at its cost
      through `cur`, with `cur` as predecessor, and queued at that cost plus
      the estimate to the goal. */
  ghost predicate Recorded(ss: Subway, goal: State, cur: State, done: seq<int>, t0: map<State, nat>,
                           p: map<State, Option<State>>, t: map<State, nat>, prio: map<State, nat>)
    requires ss.Valid() && IsStation(cur.station) && cur in t0 && IsStation(goal.station)
  {
    forall k :: Touched(ss, cur, done, t0, k) ==>
      && k in t && t[k] == t0[cur] + StepCost(ss, cur, k.station)
      && k in p && p[k] == Some(cur)
      && k in prio && prio[k] == t[k] + GetEtaGoal(ss, k.station, goal.station)
  }

  /** Every other state keeps its entries in the three maps. */
  ghost predicate KeptOutside(ss: Subway, cur: State, done: seq<int>,
                              p0: map<State, Option<State>>, t0: map<State, nat>, prio0: map<State, nat>,
                              p: map<State, Option<State>>, t: map<State, nat>, prio: map<State, nat>)
    requires ss.Valid() && IsStation(cur.station) && cur in t0
  {
    forall k :: !Touched(ss, cur, done, t0, k) ==> Same(t0, t, k) && Same(p0, p, k) && Same(prio0, prio, k)
  }

  /** The maps and the queue after relaxing `cur` towards the stations `done`,
      stated against the state before the expansion: the improving states are
      `Recorded`, every other entry of the maps is kept, and the new keys are
      appended to the queue order in the order of `done`. */
  ghost predicate ExpandedOver(ss: Subway, goal: State, cur: State, done: seq<int>,
                               p0: map<State, Option<State>>, t0: map<State, nat>,
                               prio0: map<State, nat>, order0: seq<State>,
                               p: map<State, Option<State>>, t: map<State, nat>,
                               prio: map<State, nat>, order: seq<State>)
    requires ss.Valid() && IsStation(cur.station) && cur in t0 && IsStation(goal.station)
  {
    && Recorded(ss, goal, cur, done, t0, p, t, prio)
    && KeptOutside(ss, cur, done, p0, t0, prio0, p, t, prio)
    && order == order0 + Appended(ss, cur, done, t0, prio0)
  }

  lemma ExpandedNone(ss: Subway, goal: State, cur: State,
                     p0: map<State, Option<State>>, t0: map<State, nat>, prio0: map<State, nat>, order0: seq<State>)
    requires ss.Valid() && IsStation(cur.station) && cur in t0 && IsStation(goal.station)
    ensures ExpandedOver(ss, goal, cur, [], p0, t0, prio0, order0, p0, t0, prio0, order0)
  {
    assert order0 + [] == order0;
  }

  /** Before relaxing towards `nb`, the expanded state and the state `nb`
      leads to still have the entries they had before the expansion. */
  lemma UntouchedBefore(ss: Subway, cur: State, done: seq<int>, nb: int,
                        p0: map<State, Option<State>>, t0: map<State, nat>, prio0: map<State, nat>,
                        p1: map<State, Option<State>>, t1: map<State, nat>, prio1: map<State, nat>)
    requires ss.Valid() && IsStation(cur.station) && cur in t0
    requires IsStation(nb) && nb !in done && NextLine(ss, cur, nb).Some?
    requires KeptOutside(ss, cur, done, p0, t0, prio0, p1, t1, prio1)
    ensures cur in t1 && t1[cur] == t0[cur]
    ensures Same(t0, t1, State(nb, NextLine(ss, cur, nb).value))
    ensures Same(prio0, prio1, State(nb, NextLine(ss, cur, nb).value))
    ensures Same(p0, p1, State(nb, NextLine(ss, cur, nb).value))
  {
    assert !Touched(ss, cur, done, t0, cur);
    assert !Touched(ss, cur, done, t0, State(nb, NextLine(ss, cur, nb).value));
  }

  lemma RecordedStep(ss: Subway, goal: State, cur: State, done: seq<int>, nb: int,
                     p0: map<State, Option<State>>, t0: map<State, nat>, prio0: map<State, nat>, order0: seq<State>,
                     p1: map<State, Option<State>>, t1: map<State, nat>, prio1: map<State, nat>, order1: seq<State>,
                     p2: map<State, Option<State>>, t2: map<State, nat>, prio2: map<State, nat>, order2: seq<State>)
    requires ss.Valid() && IsStation(cur.station) && cur in t0 && IsStation(goal.station)
    requires IsStation(nb) && nb !in done && GetEdge(ss, cur.station, nb).Some? && NextLine(ss, cur, nb).Some?
    requires Recorded(ss, goal, cur, done, t0, p1, t1, prio1)
    requires cur in t1 && t1[cur] == t0[cur] && Same(t0, t1, State(nb, NextLine(ss, cur, nb).value))
    requires RelaxStep(ss, goal, cur, nb, p1, t1, prio1, order1, p2, t2, prio2, order2)
    ensures Recorded(ss, goal, cur, done + [nb], t0, p2, t2, prio2)
  {
    var next := State(nb, NextLine(ss, cur, nb).value);
    forall k | Touched(ss, cur, done + [nb], t0, k)
      ensures k in t2 && t2[k] == t0[cur] + StepCost(ss, cur, k.station)
      ensures k in p2 && p2[k] == Some(cur)
      ensures k in prio2 && prio2[k] == t2[k] + GetEtaGoal(ss, k.station, goal.station)
    {
      if k != next {
        assert Touched(ss, cur, done, t0, k);
      }
    }
  }

  lemma KeptStep(ss: Subway, goal: State, cur: State, done: seq<int>, nb: int,
                 p0: map<State, Option<State>>, t0: map<State, nat>, prio0: map<State, nat>, order0: seq<State>,
                 p1: map<State, Option<State>>, t1: map<State, nat>, prio1: map<State, nat>, order1: seq<State>,
                 p2: map<State, Option<State>>, t2: map<State, nat>, prio2: map<State, nat>, order2: seq<State>)
    requires ss.Valid() && IsStation(cur.station) && cur in t0 && IsStation(goal.station)
    requires IsStation(nb) && nb !in done && GetEdge(ss, cur.station, nb).Some? && NextLine(ss, cur, nb).Some?
    requires KeptOutside(ss, cur, done, p0, t0, prio0, p1, t1, prio1)
    requires cur in t1 && t1[cur] == t0[cur] && Same(t0, t1, State(nb, NextLine(ss, cur, nb).value))
    requires RelaxStep(ss, goal, cur, nb, p1, t1, prio1, order1, p2, t2, prio2, order2)
    ensures KeptOutside(ss, cur, done + [nb], p0, t0, prio0, p2, t2, prio2)
  {
    var next := State(nb, NextLine(ss, cur, nb).value);
    forall k | !Touched(ss, cur, done + [nb], t0, k)
      ensures Same(t0, t2, k) && Same(p0, p2, k) && Same(prio0, prio2, k)
    {
      assert !Touched(ss, cur, done, t0, k);
    }
  }

  lemma AppendedStep(ss: Subway, goal: State, cur: State, done: seq<int>, nb: int,
                     t0: map<State, nat>, prio0: map<State, nat>, order0: seq<State>,
                     p1: map<State, Option<State>>, t1: map<State, nat>, prio1: map<State, nat>, order1: seq<State>,
                     p2: map<State, Option<State>>, t2: map<State, nat>, prio2: map<State, nat>, order2: seq<State>)
    requires ss.Valid() && IsStation(cur.station) && cur in t0 && IsStation(goal.station)
    requires IsStation(nb) && GetEdge(ss, cur.station, nb).Some? && NextLine(ss, cur, nb).Some?
    requires order1 == order0 + Appended(ss, cur, done, t0, prio0)
    requires cur in t1 && t1[cur] == t0[cur] && Same(t0, t1, State(nb, NextLine(ss, cur, nb).value))
    requires Same(prio0, prio1, State(nb, NextLine(ss, cur, nb).value))
    requires RelaxStep(ss, goal, cur, nb, p1, t1, prio1, order1, p2, t2, prio2, order2)
    ensures order2 == order0 + Appended(ss, cur, done + [nb], t0, prio0)
  {
    assert (done + [nb])[..|done + [nb]| - 1] == done;
  }

  /** Relaxing `cur` towards one more station `nb`, not relaxed before, extends
      the expansion by `nb`. */
  lemma ExpandedStep(ss: Subway, goal: State, cur: State, done: seq<int>, nb: int,
                     p0: map<State, Option<State>>, t0: map<State, nat>, prio0: map<State, nat>, order0: seq<State>,
                     p1: map<State, Option<State>>, t1: map<State, nat>, prio1: map<State, nat>, order1: seq<State>,
                     p2: map<State, Option<State>>, t2: map<State, nat>, prio2: map<State, nat>, order2: seq<State>)
    requires ss.Valid() && IsStation(cur.station) && cur in t0 && IsStation(goal.station)
    requires IsStation(nb) && nb !in done && GetEdge(ss, cur.station, nb).Some? && NextLine(ss, cur, nb).Some?
    requires ExpandedOver(ss, goal, cur, done, p0, t0, prio0, order0, p1, t1, prio1, order1)
    requires cur in t1
    requires RelaxStep(ss, goal, cur, nb, p1, t1, prio1, order1, p2, t2, prio2, order2)
    ensures ExpandedOver(ss, goal, cur, done + [nb], p0, t0, prio0, order0, p2, t2, prio2, order2)
  {
    UntouchedBefore(ss, cur, done, nb, p0, t0, prio0, p1, t1, prio1);
    RecordedStep(ss, goal, cur, done, nb, p0, t0, prio0, order0, p1, t1, prio1, order1, p2, t2, prio2, order2);
    KeptStep(ss, goal, cur, done, nb, p0, t0, prio0, order0, p1, t1, prio1, order1, p2, t2, prio2, order2);
    AppendedStep(ss, goal, cur, done, nb, t0, prio0, order0, p1, t1, prio1, order1, p2, t2, prio2, order2);
  }

  /** A strictly increasing sequence does not repeat an entry. */
  lemma IncreasingFresh(s: seq<int>, j: int)
    requires StrictlyIncreasing(s) && 0 <= j < |s|
    ensures s[j] !in s[..j]
  {
    forall i | 0 <= i < j ensures s[..j][i] != s[j] {
    }
  }

  lemma PrefixSnoc<T>(s: seq<T>, j: int)
    requires 0 <= j < |s|
    ensures s[..j + 1] == s[..j] + [s[j]]
  {
  }

  /** The body of one iteration after the goal test: relax every neighbour of
      `current` (the `for neighbor` loop of the search). */
  method ExpandNeighbors(ss: Subway, start: State, goal: State, current: State,
                         precedents0: map<State, Option<State>>, times0: map<State, nat>,
                         frontier: PriorityQueue<State>, ghost us: seq<State>)
    returns (precedents: map<State, Option<State>>, times: map<State, nat>)
    requires ss.Valid() && AdjacentShareLine(ss) && IsStation(goal.station)
    requires us == Universe(ss)
    requires frontier.Valid()
    requires Expanding(ss, start, goal, precedents0, times0, frontier.prio.Keys, current, [])
    modifies frontier
    ensures frontier.Valid()
    ensures LoopInv(ss, start, goal, precedents, times, frontier.prio.Keys)
    ensures Refines(times0, times)
    ensures times == times0 ==> frontier.order == old(frontier.order)
    ensures times == times0 || Progress(us, times0, times)
    ensures ExpandedOver(ss, goal, current, NeighborsUpTo(ss, current.station, N),
                         precedents0, times0, old(frontier.prio), old(frontier.order),
                         precedents, times, frontier.prio, frontier.order)
  {
    precedents, times := precedents0, times0;
    var currentLines := GetLines(ss, current.station);
    var neighbors := GetNeighbors(ss, current.station);
    ExpandedNone(ss, goal, current, precedents0, times0, frontier.prio, frontier.order);
    var j := 0;
    while j < |neighbors|
      invariant 0 <= j <= |neighbors|
      invariant frontier.Valid()
      invariant Expanding(ss, start, goal, precedents, times, frontier.prio.Keys, current, neighbors[..j])
      invariant Refines(times0, times) && (times == times0 || Progress(us, times0, times))
      invariant times == times0 ==> frontier.order == old(frontier.order)
      invariant ExpandedOver(ss, goal, current, neighbors[..j], precedents0, times0, old(frontier.prio),
                             old(frontier.order), precedents, times, frontier.prio, frontier.order)
    {
      PrefixSnoc(neighbors, j);
      IncreasingFresh(neighbors, j);
      ghost var p1, t1, prio1, order1 := precedents, times, frontier.prio, frontier.order;
      precedents, times := RelaxNeighbor(ss, start, goal, current, currentLines, neighbors[j],
                                         precedents, times, frontier, us, neighbors[..j], times0);
      ExpandedStep(ss, goal, current, neighbors[..j], neighbors[j],
                   precedents0, times0, old(frontier.prio), old(frontier.order),
                   p1, t1, prio1, order1, precedents, times, frontier.prio, frontier.order);
      j := j + 1;
    }
    assert neighbors[..j] == neighbors;
    FinishExpanding(ss, start, goal, precedents, times, frontier.prio.Keys, current, neighbors);
  }

  lemma InitialLoopInv(ss: Subway, start: State, goal: State)
    requires ss.Valid() && Serves(ss, start)
    ensures LoopInv(ss, start, goal, map[start := None], map[start := 0], {start})
  {
  }

  lemma ExhaustedLoopInv(ss: Subway, start: State, goal: State, precedents: map<State, Option<State>>,
                         times: map<State, nat>, frontier: set<State>)
    requires LoopInv(ss, start, goal, precedents, times, frontier) && frontier == {}
    ensures forall k :: k in times ==> Relaxed(ss, times, k) && k.station != goal.station
  {
  }

  /** The popped states: the start first, every one recorded and none at the
      goal station. */
  ghost predicate PoppedBeforeGoal(popped: seq<State>, start: State, goal: State, times: map<State, nat>) {
    && (popped != [] ==> popped[0] == start)
    && forall i :: 0 <= i < |popped| ==> popped[i] in times && popped[i].station != goal.station
  }

  lemma PoppedGrow(popped: seq<State>, start: State, goal: State, before: map<State, nat>, after: map<State, nat>)
    requires Refines(before, after) && PoppedBeforeGoal(popped, start, goal, before)
    ensures PoppedBeforeGoal(popped, start, goal, after)
  {
  }

  lemma PoppedAppend(popped: seq<State>, start: State, goal: State, times: map<State, nat>, x: State)
    requires PoppedBeforeGoal(popped, start, goal, times)
    requires x in times && x.station != goal.station && (popped == [] ==> x == start)
    ensures PoppedBeforeGoal(popped + [x], start, goal, times)
  {
  }

  /** The goal test: `popped` lists the popped states in order, starting with
      `start`; the search stops at the first one at the goal station, and
      `goalState` is that state, or None when no popped state is at the goal
      station. */
  ghost predicate StopsAtFirstGoal(start: State, goal: State, times: map<State, nat>,
                                   popped: seq<State>, goalState: Option<State>)
  {
    && popped != [] && popped[0] == start
    && (forall i :: 0 <= i < |popped| ==> popped[i] in times)
    && (forall i :: 0 <= i < |popped| - 1 ==> popped[i].station != goal.station)
    && (goalState.Some? <==> popped[|popped| - 1].station == goal.station)
    && (goalState.Some? ==> goalState.value == popped[|popped| - 1])
  }

  lemma GoalPopped(popped: seq<State>, start: State, goal: State, times: map<State, nat>, current: State)
    requires PoppedBeforeGoal(popped, start, goal, times)
    requires current in times && current.station == goal.station && (popped == [] ==> current == start)
    ensures StopsAtFirstGoal(start, goal, times, popped + [current], Some(current))
  {
  }

  lemma NoGoalPopped(popped: seq<State>, start: State, goal: State, times: map<State, nat>)
    requires PoppedBeforeGoal(popped, start, goal, times) && popped != []
    ensures StopsAtFirstGoal(start, goal, times, popped, None)
  {
  }

  /** The loop invariant of the search: LoopInv, the frontier holds only the
      start before the first pop, and the popped states so far. */
  ghost predicate SearchLoop(ss: Subway, start: State, goal: State, precedents: map<State, Option<State>>,
                             times: map<State, nat>, frontier: set<State>, popped: seq<State>)
  {
    && LoopInv(ss, start, goal, precedents, times, frontier)
    && (popped == [] ==> frontier == {start})
    && PoppedBeforeGoal(popped, start, goal, times)
  }

  /** search: A* from `start` until a state at the goal station is popped or
      the frontier is empty. Returns the predecessor and best-cost maps; the
      ghost outputs record the popped states and the goal state reached. */
  method Search(ss: Subway, start: State, goal: State)
    returns (precedents: map<State, Option<State>>, times: map<State, nat>,
             ghost popped: seq<State>, ghost goalState: Option<State>)
    requires ss.Valid() && AdjacentShareLine(ss)
    requires Serves(ss, start) && IsStation(goal.station)
    ensures SearchInvariant(ss, start, precedents, times)
    ensures StopsAtFirstGoal(start, goal, times, popped, goalState)
    ensures goalState.None? ==> forall k :: k in times ==> Relaxed(ss, times, k) && k.station != goal.station
  {
    precedents := map[start := None];
    times := map[start := 0];
    var frontier := new PriorityQueue<State>();
    frontier.Push(start, 0);
    ghost var us := Universe(ss);
    InitialLoopInv(ss, start, goal);
    popped := [];
    goalState := None;
    while frontier.Size() > 0
      invariant frontier.Valid()
      invariant SearchLoop(ss, start, goal, precedents, times, frontier.prio.Keys, popped)
      decreases AbsentCount(us, times), CostSum(us, times), |frontier.order|
    {
      ghost var keys0 := frontier.prio.Keys;
      var current := frontier.Pop();
      assert current in times;
      if current.station == goal.station {
        GoalPopped(popped, start, goal, times, current);
        goalState := Some(current);
        popped := popped + [current];
        break;
      }
      PoppedAppend(popped, start, goal, times, current);
      popped := popped + [current];
      StartExpanding(ss, start, goal, precedents, times, keys0, current);
      ghost var times0 := times;
      precedents, times := ExpandNeighbors(ss, start, goal, current, precedents, times, frontier, us);
      PoppedGrow(popped, start, goal, times0, times);
    }
    if goalState.None? {
      ExhaustedLoopInv(ss, start, goal, precedents, times, frontier.prio.Keys);
      NoGoalPopped(popped, start, goal, times);
    }
  }
}
