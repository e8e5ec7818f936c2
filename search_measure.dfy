/** The termination measure of the search loop. The states that can ever be
    recorded form a finite universe; each iteration either records a new
    state, strictly lowers a recorded cost, or only shrinks the frontier. */
module SearchMeasure {
  import opened Network
  import opened SearchSpec

  /** The states of one station, one per line name. */
  function StationStates(names: seq<string>, s: int): (r: seq<State>)
    ensures forall l :: l in names ==> State(s, l) in r
  {
    if names == [] then []
    else StationStates(names[..|names| - 1], s) + [State(s, names[|names| - 1])]
  }

  function Flatten(rows: seq<seq<State>>): seq<State> {
    if rows == [] then [] else Flatten(rows[..|rows| - 1]) + rows[|rows| - 1]
  }

  lemma {:induction false} FlattenHas(rows: seq<seq<State>>, i: int, k: State)
    requires 0 <= i < |rows| && k in rows[i]
    ensures k in Flatten(rows)
  {
    if i < |rows| - 1 {
      FlattenHas(rows[..|rows| - 1], i, k);
    }
  }

  /** All states with a station in 1..N and a line name of the table. */
  function Universe(ss: Subway): seq<State> {
    var names := Names(ss.lines);
    Flatten(seq(N, i requires 0 <= i < N => StationStates(names, i + 1)))
  }

  /** Every state whose line serves its station belongs to the universe. */
  lemma UniverseHas(ss: Subway, k: State)
    requires Serves(ss, k)
    ensures k in Universe(ss)
  {
    LinesOfAreNames(ss.lines, k.station, k.line);
    var names := Names(ss.lines);
    var rows := seq(N, i requires 0 <= i < N => StationStates(names, i + 1));
    assert k in rows[k.station - 1];
    FlattenHas(rows, k.station - 1, k);
  }

  /** Number of universe entries not yet recorded. */
  function AbsentCount(us: seq<State>, times: map<State, nat>): nat {
    if us == [] then 0
    else AbsentCount(us[1..], times) + (if us[0] in times then 0 else 1)
  }

  /** Sum of the recorded costs over the universe. */
  function CostSum(us: seq<State>, times: map<State, nat>): nat {
    if us == [] then 0
    else CostSum(us[1..], times) + (if us[0] in times then times[us[0]] else 0)
  }

  /** Strict progress of the measure from `before` to `after`. */
  ghost predicate Progress(us: seq<State>, before: map<State, nat>, after: map<State, nat>) {
    || AbsentCount(us, after) < AbsentCount(us, before)
    || (AbsentCount(us, after) == AbsentCount(us, before) && CostSum(us, after) < CostSum(us, before))
  }

  lemma {:induction false} AbsentMonotone(us: seq<State>, a: map<State, nat>, b: map<State, nat>)
    requires a.Keys <= b.Keys
    ensures AbsentCount(us, b) <= AbsentCount(us, a)
  {
    if us != [] { AbsentMonotone(us[1..], a, b); }
  }

  /** Recording a new universe state lowers the absent count. */
  lemma {:induction false} AbsentInsert(us: seq<State>, times: map<State, nat>, x: State, v: nat)
    requires x in us && x !in times
    ensures AbsentCount(us, times[x := v]) < AbsentCount(us, times)
  {
    if us[0] != x {
      AbsentInsert(us[1..], times, x, v);
    } else {
      AbsentMonotone(us[1..], times, times[x := v]);
    }
  }

  /** Overwriting a recorded state keeps the absent count and, with a smaller
      cost, lowers the cost sum. */
  lemma {:induction false} CostDecrease(us: seq<State>, times: map<State, nat>, x: State, v: nat)
    requires x in times && v < times[x]
    ensures AbsentCount(us, times[x := v]) == AbsentCount(us, times)
    ensures CostSum(us, times[x := v]) <= CostSum(us, times)
    ensures x in us ==> CostSum(us, times[x := v]) < CostSum(us, times)
  {
    if us != [] { CostDecrease(us[1..], times, x, v); }
  }

  /** One relaxation keeps the measure strictly below its value at the start of
      the iteration. */
  lemma RelaxProgress(us: seq<State>, times0: map<State, nat>, times: map<State, nat>, x: State, v: nat)
    requires Refines(times0, times)
    requires times == times0 || Progress(us, times0, times)
    requires x in us && (x !in times || v < times[x])
    ensures Progress(us, times0, times[x := v])
  {
    AbsentMonotone(us, times0, times);
    if x !in times {
      AbsentInsert(us, times, x, v);
    } else {
      CostDecrease(us, times, x, v);
    }
  }
}
