/** States, moves and the invariants of the line-aware A* search. */
module SearchSpec {
  import opened Wrappers
  import opened Network

  /** A search state: the station and the line the traveller is riding. */
  datatype State = State(station: int, line: string)

  /** The line the traveller is on after moving from `cur` to station `nb`:
      the same line when it serves `nb`, otherwise the last line of the
      current station that also serves `nb`. */
  function NextLine(ss: Subway, cur: State, nb: int): Option<string>
  {
    var nbLines := LinesOf(ss.lines, nb);
    if cur.line in nbLines then Some(cur.line)
    else LastShared(LinesOf(ss.lines, cur.station), nbLines)
  }

  /** Minutes for the hop from `cur` to the adjacent station `nb`, with the
      line-change penalty when the current line does not serve `nb`. */
  function StepCost(ss: Subway, cur: State, nb: int): nat
    requires ss.Valid() && IsStation(cur.station) && IsStation(nb)
    requires GetEdge(ss, cur.station, nb).Some?
  {
    GetEdge(ss, cur.station, nb).value + (if cur.line in LinesOf(ss.lines, nb) then 0 else CHANGE_LINE_MIN)
  }

  /** Adjacent stations always share a line. */
  ghost predicate AdjacentShareLine(ss: Subway)
    requires ss.Valid()
  {
    forall a, b :: IsStation(a) && IsStation(b) && GetEdge(ss, a, b).Some? ==>
      LastShared(LinesOf(ss.lines, a), LinesOf(ss.lines, b)).Some?
  }

  /** A state whose station is valid and whose line serves that station. */
  ghost predicate Serves(ss: Subway, k: State) {
    IsStation(k.station) && k.line in LinesOf(ss.lines, k.station)
  }

  /** On the network's own line table every station 1..14 has a line serving
      it, so a start and a goal state meeting the entry point's input checks
      exist for every station. */
  lemma ReferenceStatesExist(ss: Subway, s: int)
    requires ss.lines == ReferenceLines && IsStation(s)
    ensures LinesOf(ss.lines, s) != [] && Serves(ss, State(s, LinesOf(ss.lines, s)[0]))
  {
    ReferenceLinesCoverStations(s);
  }

  /** Moving from a state whose line serves its station to an adjacent station
      yields a line that serves the neighbour: the kept line, or on a change a
      line of both stations. */
  lemma NextLineServes(ss: Subway, cur: State, nb: int)
    requires ss.Valid() && AdjacentShareLine(ss) && Serves(ss, cur) && IsStation(nb)
    requires GetEdge(ss, cur.station, nb).Some?
    ensures NextLine(ss, cur, nb).Some?
    ensures Serves(ss, State(nb, NextLine(ss, cur, nb).value))
    ensures cur.line !in LinesOf(ss.lines, nb) ==> NextLine(ss, cur, nb).value in LinesOf(ss.lines, cur.station)
  {
    var cl, nl := LinesOf(ss.lines, cur.station), LinesOf(ss.lines, nb);
    if cur.line !in nl {
      assert LastShared(cl, nl).Some?;
      LastSharedSpec(cl, nl);
    }
  }

  /** Whether `k` is recorded with predecessor `p` consistently: `p` is a
      different recorded state, adjacent, its move leads to `k`'s line, and
      `k`'s cost is at least `p`'s cost plus that move. */
  ghost predicate PredecessorStep(ss: Subway, p: State, k: State, times: map<State, nat>)
    requires ss.Valid()
  {
    && p != k && p in times && k in times && Serves(ss, p) && IsStation(k.station)
    && GetEdge(ss, p.station, k.station).Some?
    && NextLine(ss, p, k.station) == Some(k.line)
    && times[k] >= times[p] + StepCost(ss, p, k.station)
  }

  /** The invariant of the predecessor and best-cost maps. */
  ghost predicate SearchInvariant(ss: Subway, start: State, precedents: map<State, Option<State>>, times: map<State, nat>)
  {
    && ss.Valid()
    && precedents.Keys == times.Keys
    && start in times && times[start] == 0 && precedents[start] == None
    && (forall k :: k in precedents ==> Serves(ss, k) && (precedents[k].None? <==> k == start))
    && (forall k :: k in precedents && precedents[k].Some? ==> PredecessorStep(ss, precedents[k].value, k, times))
  }

  /** A consistent predecessor link stays consistent when costs only go down
      and the cost of `k` itself is unchanged. */
  lemma PredecessorStepKept(ss: Subway, p: State, k: State, before: map<State, nat>, after: map<State, nat>)
    requires ss.Valid() && PredecessorStep(ss, p, k, before)
    requires Refines(before, after) && after[k] == before[k]
    ensures PredecessorStep(ss, p, k, after)
  {
  }

  /** Recording `next` through `cur` at the strictly smaller cost `elapsed` keeps
      the invariant; `next` is neither `cur` nor the start state. */
  lemma RelaxKeepsInvariant(ss: Subway, start: State, precedents: map<State, Option<State>>,
                            times: map<State, nat>, cur: State, nb: int, next: State, elapsed: nat)
    requires SearchInvariant(ss, start, precedents, times)
    requires cur in times && IsStation(nb) && GetEdge(ss, cur.station, nb).Some?
    requires NextLine(ss, cur, nb) == Some(next.line) && next.station == nb && Serves(ss, next)
    requires elapsed == times[cur] + StepCost(ss, cur, nb)
    requires next !in times || elapsed < times[next]
    ensures next != cur && next != start
    ensures Refines(times, times[next := elapsed])
    ensures SearchInvariant(ss, start, precedents[next := Some(cur)], times[next := elapsed])
  {
    var p', t' := precedents[next := Some(cur)], times[next := elapsed];
    assert Refines(times, t');
    forall k | k in p' ensures Serves(ss, k) && (p'[k].None? <==> k == start) {
      if k != next { assert k in precedents && p'[k] == precedents[k]; }
    }
    forall k | k in p' && p'[k].Some? ensures PredecessorStep(ss, p'[k].value, k, t') {
      if k != next {
        PredecessorStepKept(ss, precedents[k].value, k, times, t');
      }
    }
  }

  /** Moving from the recorded state `k` to station `nb` is already reflected in
      the costs: the resulting state is recorded at no more than via `k`. */
  ghost predicate RelaxedVia(ss: Subway, times: map<State, nat>, k: State, nb: int)
    requires ss.Valid()
  {
    k in times && IsStation(k.station) && IsStation(nb) && GetEdge(ss, k.station, nb).Some? ==>
      && NextLine(ss, k, nb).Some?
      && State(nb, NextLine(ss, k, nb).value) in times
      && times[State(nb, NextLine(ss, k, nb).value)] <= times[k] + StepCost(ss, k, nb)
  }

  ghost predicate Relaxed(ss: Subway, times: map<State, nat>, k: State)
    requires ss.Valid()
  {
    forall nb :: RelaxedVia(ss, times, k, nb)
  }

  /** Costs only go down and keys are only added. */
  ghost predicate Refines(before: map<State, nat>, after: map<State, nat>) {
    && before.Keys <= after.Keys
    && forall k :: k in before ==> after[k] <= before[k]
  }

  lemma RelaxedViaMonotone(ss: Subway, before: map<State, nat>, after: map<State, nat>, k: State, nb: int)
    requires ss.Valid() && Refines(before, after) && k in before && after[k] == before[k]
    requires RelaxedVia(ss, before, k, nb)
    ensures RelaxedVia(ss, after, k, nb)
  {
  }

  lemma RelaxedMonotone(ss: Subway, before: map<State, nat>, after: map<State, nat>, k: State)
    requires ss.Valid() && Refines(before, after) && k in before && after[k] == before[k]
    requires Relaxed(ss, before, k)
    ensures Relaxed(ss, after, k)
  {
    forall nb ensures RelaxedVia(ss, after, k, nb) {
      assert RelaxedVia(ss, before, k, nb);
      RelaxedViaMonotone(ss, before, after, k, nb);
    }
  }
}
