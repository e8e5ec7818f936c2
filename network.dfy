/** The static rail network: the two N x N time tables and the ordered table of
    lines, with the lookups the route search makes into them. */
module Network {
  import opened Wrappers

  /** Number of stations; stations are numbered 1..N. */
  const N: nat := 14
  /** Minutes added when the traveller has to change lines. */
  const CHANGE_LINE_MIN: nat := 4

  predicate IsStation(s: int) { 1 <= s <= N }

  /** A named line and the stations it passes through. */
  datatype Line = Line(name: string, stations: seq<int>)

  /** The network: `edgeWeights[i][j]` is the travel time between stations i+1
      and j+1, None where there is no direct edge (infinity in the tables);
      `etaTimes[i][j]` the straight-line time estimate; `lines` the line table
      in its declaration order. Only the upper triangles of the tables are read. */
  datatype Subway = Subway(edgeWeights: seq<seq<Option<nat>>>, etaTimes: seq<seq<nat>>, lines: seq<Line>)
  {
    ghost predicate Valid() {
      && |edgeWeights| == N
      && (forall i :: 0 <= i < N ==> |edgeWeights[i]| == N)
      && |etaTimes| == N
      && (forall i :: 0 <= i < N ==> |etaTimes[i]| == N)
      && (forall i, j :: 0 <= i < j < |lines| ==> lines[i].name != lines[j].name)
    }
  }

  /** Direct travel time between two stations, None when they are not adjacent. */
  function GetEdge(ss: Subway, s1: int, s2: int): (r: Option<nat>)
    requires ss.Valid() && IsStation(s1) && IsStation(s2)
  {
    var (a, b) := if s1 > s2 then (s2, s1) else (s1, s2);
    ss.edgeWeights[a - 1][b - 1]
  }

  /** Straight-line time estimate between a station and the goal station. */
  function GetEtaGoal(ss: Subway, station: int, goal: int): (r: nat)
    requires ss.Valid() && IsStation(station) && IsStation(goal)
  {
    var (s, g) := if station > goal then (goal, station) else (station, goal);
    ss.etaTimes[s - 1][g - 1]
  }

  lemma EdgeSymmetric(ss: Subway, a: int, b: int)
    requires ss.Valid() && IsStation(a) && IsStation(b)
    ensures GetEdge(ss, a, b) == GetEdge(ss, b, a)
  {
  }

  lemma EtaSymmetric(ss: Subway, a: int, b: int)
    requires ss.Valid() && IsStation(a) && IsStation(b)
    ensures GetEtaGoal(ss, a, b) == GetEtaGoal(ss, b, a)
  {
  }

  /** The names of the lines, in table order. */
  function Names(lines: seq<Line>): (r: seq<string>)
    ensures |r| == |lines| && forall i :: 0 <= i < |lines| ==> r[i] == lines[i].name
  {
    if lines == [] then [] else Names(lines[..|lines| - 1]) + [lines[|lines| - 1].name]
  }

  /** The names of the lines serving `station`, in table order. */
  function LinesOf(lines: seq<Line>, station: int): seq<string>
  {
    if lines == [] then []
    else
      var last := lines[|lines| - 1];
      LinesOf(lines[..|lines| - 1], station) + (if station in last.stations then [last.name] else [])
  }

  /** A name is listed exactly when some line of that name serves the station. */
  lemma {:induction false} LinesOfMembership(lines: seq<Line>, station: int, l: string)
    ensures l in LinesOf(lines, station) <==>
            exists i :: 0 <= i < |lines| && lines[i].name == l && station in lines[i].stations
  {
    if lines != [] {
      var init := lines[..|lines| - 1];
      LinesOfMembership(init, station, l);
      if l in LinesOf(lines, station) {
        if l in LinesOf(init, station) {
          var i :| 0 <= i < |init| && init[i].name == l && station in init[i].stations;
          assert lines[i] == init[i];
        } else {
          assert lines[|lines| - 1].name == l && station in lines[|lines| - 1].stations;
        }
      } else {
        forall i | 0 <= i < |lines| && lines[i].name == l
          ensures station !in lines[i].stations
        {
          if i < |init| { assert init[i] == lines[i]; }
        }
      }
    }
  }

  /** Every line listed for a station is a line name of the table. */
  lemma {:induction false} LinesOfAreNames(lines: seq<Line>, station: int, l: string)
    requires l in LinesOf(lines, station)
    ensures l in Names(lines)
  {
    LinesOfMembership(lines, station, l);
    var i :| 0 <= i < |lines| && lines[i].name == l && station in lines[i].stations;
    assert Names(lines)[i] == l;
  }

  /** get_lines: walks the line table in order and keeps the lines that serve
      the station. */
  method GetLines(ss: Subway, station: int) returns (stLines: seq<string>)
    ensures stLines == LinesOf(ss.lines, station)
  {
    stLines := [];
    var i := 0;
    while i < |ss.lines|
      invariant 0 <= i <= |ss.lines|
      invariant stLines == LinesOf(ss.lines[..i], station)
    {
      assert ss.lines[..i + 1][..i] == ss.lines[..i];
      if station in ss.lines[i].stations {
        stLines := stLines + [ss.lines[i].name];
      }
      i := i + 1;
    }
    assert ss.lines[..i] == ss.lines;
  }

  /** Stations 1..k that have a finite edge to `station`, in ascending order. */
  function NeighborsUpTo(ss: Subway, station: int, k: nat): seq<int>
    requires ss.Valid() && IsStation(station) && k <= N
  {
    if k == 0 then []
    else NeighborsUpTo(ss, station, k - 1) + (if GetEdge(ss, station, k).Some? then [k] else [])
  }

  ghost predicate StrictlyIncreasing(s: seq<int>) {
    forall i, j :: 0 <= i < j < |s| ==> s[i] < s[j]
  }

  /** The neighbours up to k are exactly the adjacent stations in 1..k, strictly ascending. */
  lemma {:induction false} NeighborsUpToSpec(ss: Subway, station: int, k: nat)
    requires ss.Valid() && IsStation(station) && k <= N
    ensures StrictlyIncreasing(NeighborsUpTo(ss, station, k))
    ensures forall i :: i in NeighborsUpTo(ss, station, k) <==> 1 <= i <= k && GetEdge(ss, station, i).Some?
  {
    if k > 0 {
      NeighborsUpToSpec(ss, station, k - 1);
      var prev := NeighborsUpTo(ss, station, k - 1);
      assert forall i :: 0 <= i < |prev| ==> prev[i] < k by {
        forall i | 0 <= i < |prev| ensures prev[i] < k {
          assert prev[i] in prev;
        }
      }
    }
  }

  /** get_neighbors: scans stations 1..N and keeps those with a finite edge. */
  method GetNeighbors(ss: Subway, station: int) returns (neighbors: seq<int>)
    requires ss.Valid() && IsStation(station)
    ensures StrictlyIncreasing(neighbors)
    ensures forall i :: i in neighbors <==> IsStation(i) && GetEdge(ss, station, i).Some?
    ensures neighbors == NeighborsUpTo(ss, station, N)
  {
    neighbors := [];
    var i := 1;
    while i <= N
      invariant 1 <= i <= N + 1
      invariant neighbors == NeighborsUpTo(ss, station, i - 1)
    {
      if GetEdge(ss, station, i).Some? {
        neighbors := neighbors + [i];
      }
      i := i + 1;
    }
    NeighborsUpToSpec(ss, station, N);
  }

  /** The last line of `cur` that also appears in `nb`, scanning `cur` in order;
      None when they share no line. */
  function LastShared(cur: seq<string>, nb: seq<string>): Option<string>
  {
    if cur == [] then None
    else if cur[|cur| - 1] in nb then Some(cur[|cur| - 1])
    else LastShared(cur[..|cur| - 1], nb)
  }

  /** LastShared picks a shared line with no shared line after it, and is None
      only when nothing is shared. */
  lemma {:induction false} LastSharedSpec(cur: seq<string>, nb: seq<string>)
    ensures LastShared(cur, nb).None? <==> forall i :: 0 <= i < |cur| ==> cur[i] !in nb
    ensures LastShared(cur, nb).Some? ==>
              exists i :: 0 <= i < |cur| && cur[i] == LastShared(cur, nb).value && cur[i] in nb &&
                          forall j :: i < j < |cur| ==> cur[j] !in nb
  {
    if cur != [] && cur[|cur| - 1] !in nb {
      var init := cur[..|cur| - 1];
      LastSharedSpec(init, nb);
      if LastShared(init, nb).Some? {
        var i :| 0 <= i < |init| && init[i] == LastShared(init, nb).value && init[i] in nb &&
                 forall j :: i < j < |init| ==> init[j] !in nb;
        assert cur[i] == init[i];
        assert forall j :: i < j < |cur| ==> cur[j] !in nb by {
          forall j | i < j < |cur| ensures cur[j] !in nb {
            if j < |init| { assert cur[j] == init[j]; }
          }
        }
      } else {
        forall i | 0 <= i < |cur| ensures cur[i] !in nb {
          if i < |init| { assert cur[i] == init[i]; }
        }
      }
    }
  }

  /** The line-change loop of the search: for each line of the current station,
      remember it if the neighbour is also on it (no early exit). */
  method PickChangeLine(currentLines: seq<string>, nbLines: seq<string>) returns (neighborLine: Option<string>)
    ensures neighborLine == LastShared(currentLines, nbLines)
  {
    neighborLine := None;
    var i := 0;
    while i < |currentLines|
      invariant 0 <= i <= |currentLines|
      invariant neighborLine == LastShared(currentLines[..i], nbLines)
    {
      assert currentLines[..i + 1][..i] == currentLines[..i];
      if currentLines[i] in nbLines {
        neighborLine := Some(currentLines[i]);
      }
      i := i + 1;
    }
    assert currentLines[..i] == currentLines;
  }

  /** The line table of the reference network, in declaration order. */
  const ReferenceLines: seq<Line> := [
    Line("red", [3, 9, 11, 13]),
    Line("green", [4, 8, 12, 13, 14]),
    Line("blue", [1, 2, 3, 4, 5, 6]),
    Line("yellow", [2, 5, 7, 8, 9, 10])
  ]

  /** In the reference network every station is served by at least one line. */
  lemma ReferenceLinesCoverStations(s: int)
    requires IsStation(s)
    ensures LinesOf(ReferenceLines, s) != []
  {
    var i := if s in [3, 9, 11, 13] then 0 else if s in [4, 8, 12, 13, 14] then 1
             else if s in [1, 2, 3, 4, 5, 6] then 2 else 3;
    assert s in ReferenceLines[i].stations;
    LinesOfMembership(ReferenceLines, s, ReferenceLines[i].name);
  }
}
