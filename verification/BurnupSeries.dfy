/** The burn-up line of one consumer: its queues' loaded counts, summed at the times every queue reported. */
module BurnupSeries {
  import opened Wrappers
  import opened Progress
  import opened Burnup

  type Cell = seq<(real, int)>

  /** How many points fall at `t`, and their sum. */
  function Tally(points: seq<(real, int)>, t: real): (nat, int) {
    if points == [] then (0, 0)
    else
      var (n, loaded) := Tally(points[..|points| - 1], t);
      if points[|points| - 1].0 == t then (n + 1, loaded + points[|points| - 1].1) else (n, loaded)
  }

  function Flat(cells: seq<Cell>): seq<(real, int)> {
    if cells == [] then [] else Flat(cells[..|cells| - 1]) + cells[|cells| - 1]
  }

  ghost predicate TalliedBy(sums: map<real, (nat, int)>, points: seq<(real, int)>) {
    forall t :: (t in sums <==> Tally(points, t).0 > 0) && (t in sums ==> sums[t] == Tally(points, t))
  }

  lemma TallySnoc(points: seq<(real, int)>, p: (real, int), t: real)
    ensures var (n, loaded) := Tally(points, t);
            Tally(points + [p], t) == if p.0 == t then (n + 1, loaded + p.1) else (n, loaded)
    ensures Tally(points, t).0 == 0 ==> Tally(points, t).1 == 0
  {
    assert (points + [p])[..|points|] == points;
    NoneIsZero(points, t);
  }

  lemma NoneIsZero(points: seq<(real, int)>, t: real)
    ensures Tally(points, t).0 == 0 ==> Tally(points, t).1 == 0
  {
  }

  method Counted(cells: seq<Cell>) returns (sums: map<real, (nat, int)>)
    ensures TalliedBy(sums, Flat(cells))
  {
    sums := map[];
    ghost var done: seq<(real, int)> := [];
    for i := 0 to |cells|
      invariant done == Flat(cells[..i]) && TalliedBy(sums, done)
    {
      ghost var before := done;
      for j := 0 to |cells[i]|
        invariant done == before + cells[i][..j] && TalliedBy(sums, done)
      {
        var (time, loaded) := cells[i][j];
        var at := if time in sums then sums[time] else (0, 0);
        forall t ensures Tally(done + [(time, loaded)], t) ==
                         if t == time then (at.0 + 1, at.1 + loaded) else Tally(done, t)
        {
          TallySnoc(done, (time, loaded), t);
        }
        sums := sums[time := (at.0 + 1, at.1 + loaded)];
        done := done + [(time, loaded)];
      }
      assert cells[i][..|cells[i]|] == cells[i];
      assert cells[..i + 1][..i] == cells[..i];
    }
    assert cells[..|cells|] == cells;
  }

  lemma HasMember<T>(s: set<T>) returns (x: T)
    requires |s| > 0
    ensures x in s
  {
    x :| x in s;
  }

  lemma {:induction false} LeastExists(s: set<real>)
    requires |s| > 0
    ensures exists t :: t in s && forall u :: u in s ==> t <= u
  {
    var x := HasMember(s);
    var rest := s - {x};
    if |rest| == 0 {
      assert s == {x} + rest;
    } else {
      LeastExists(rest);
      var y :| y in rest && forall u :: u in rest ==> y <= u;
      var least := if x <= y then x else y;
      forall u | u in s ensures least <= u {
        assert u == x || u in rest;
      }
    }
  }

  predicate Ascending(points: seq<(real, int)>) {
    forall j, k :: 0 <= j < k < |points| ==> points[j].0 < points[k].0
  }

  ghost predicate At(series: seq<(real, real)>, t: real) {
    exists k :: 0 <= k < |series| && series[k].0 == t
  }

  /** In time order, exactly the times at which as many points fall as there are cells, each with their sum
  over the expected total. */
  ghost predicate IsLine(cells: seq<Cell>, totalExpected: real, series: seq<(real, real)>)
    requires totalExpected > 0.0
  {
    && (forall j, k :: 0 <= j < k < |series| ==> series[j].0 < series[k].0)
    && (forall t :: At(series, t) <==> Tally(Flat(cells), t).0 > 0 && Tally(Flat(cells), t).0 == |cells|)
    && (forall k :: 0 <= k < |series| ==> series[k].1 == Tally(Flat(cells), series[k].0).1 as real / totalExpected)
  }

  /** Part of the line: the times already taken, `left` still to take. */
  ghost predicate IsPart(sums: map<real, (nat, int)>, totalExpected: real, all: set<real>, left: set<real>,
                         series: seq<(real, real)>)
    requires totalExpected > 0.0
  {
    && left <= all && all <= sums.Keys
    && (forall k :: 0 <= k < |series| ==>
        series[k].0 in all && series[k].1 == sums[series[k].0].1 as real / totalExpected)
    && (forall k, t :: 0 <= k < |series| && t in left ==> series[k].0 < t)
    && (forall j, k :: 0 <= j < k < |series| ==> series[j].0 < series[k].0)
    && (forall t :: t in all && t !in left ==> At(series, t))
  }

  lemma TakesNext(sums: map<real, (nat, int)>, totalExpected: real, all: set<real>, left: set<real>,
                  series: seq<(real, real)>, t: real)
    requires totalExpected > 0.0 && IsPart(sums, totalExpected, all, left, series)
    requires t in left && forall u :: u in left ==> t <= u
    ensures IsPart(sums, totalExpected, all, left - {t}, series + [(t, sums[t].1 as real / totalExpected)])
  {
    var point := (t, sums[t].1 as real / totalExpected);
    forall u | u in all && u !in left - {t} ensures At(series + [point], u) {
      AtMore(series, point, u);
    }
  }

  lemma PartIsLine(cells: seq<Cell>, sums: map<real, (nat, int)>, totalExpected: real, all: set<real>,
                   series: seq<(real, real)>)
    requires totalExpected > 0.0 && TalliedBy(sums, Flat(cells)) && IsPart(sums, totalExpected, all, {}, series)
    requires forall t :: t in all <==> t in sums && sums[t].0 == |cells|
    ensures IsLine(cells, totalExpected, series)
  {
    forall t ensures At(series, t) <==> Tally(Flat(cells), t).0 > 0 && Tally(Flat(cells), t).0 == |cells| {
      if At(series, t) {
        assert t in all;
      }
    }
  }

  method Series(cells: seq<Cell>, totalExpected: real) returns (series: seq<(real, real)>)
    requires totalExpected > 0.0
    ensures IsLine(cells, totalExpected, series)
  {
    var sums := Counted(cells);
    var left := set t | t in sums && sums[t].0 == |cells|;
    ghost var all := left;
    series := [];
    while left != {}
      invariant IsPart(sums, totalExpected, all, left, series)
      decreases left
    {
      LeastExists(left);
      var t :| t in left && forall u :: u in left ==> t <= u;
      TakesNext(sums, totalExpected, all, left, series, t);
      series := series + [(t, sums[t].1 as real / totalExpected)];
      left := left - {t};
    }
    PartIsLine(cells, sums, totalExpected, all, series);
  }

  lemma AtMore(series: seq<(real, real)>, point: (real, real), t: real)
    ensures At(series + [point], t) <==> At(series, t) || t == point.0
  {
    if At(series, t) {
      var k :| 0 <= k < |series| && series[k].0 == t;
      assert (series + [point])[k].0 == t;
    } else if t == point.0 {
      assert (series + [point])[|series|].0 == t;
    }
  }

  // ---------------------------------------------------------------- the line never falls

  ghost predicate HasTime(cell: Cell, t: real) {
    exists k :: 0 <= k < |cell| && cell[k].0 == t
  }

  /** What a queue had loaded at `t`, where it reported then. */
  ghost predicate Reports(cell: Cell, t: real, loaded: int) {
    exists k :: 0 <= k < |cell| && cell[k] == (t, loaded)
  }

  lemma {:induction false} TallyConcat(a: seq<(real, int)>, b: seq<(real, int)>, t: real)
    ensures Tally(a + b, t) == (Tally(a, t).0 + Tally(b, t).0, Tally(a, t).1 + Tally(b, t).1)
  {
    if b == [] {
      assert a + b == a;
    } else {
      assert (a + b)[..|a + b| - 1] == a + b[..|b| - 1];
      TallyConcat(a, b[..|b| - 1], t);
    }
  }

  lemma {:induction false} TallyOfCell(cell: Cell, t: real)
    requires Ascending(cell)
    ensures Tally(cell, t).0 <= 1
    ensures Tally(cell, t).0 == 1 <==> HasTime(cell, t)
    ensures Tally(cell, t).0 == 1 ==> Reports(cell, t, Tally(cell, t).1)
  {
    if cell != [] {
      var init := cell[..|cell| - 1];
      TallyOfCell(init, t);
      NoneIsZero(init, t);
      if Tally(init, t).0 == 1 {
        var k :| 0 <= k < |init| && init[k] == (t, Tally(init, t).1);
        assert cell[k] == init[k];
      } else if cell[|cell| - 1].0 == t {
        assert cell[|cell| - 1] == (t, Tally(cell, t).1);
      } else {
        forall k | 0 <= k < |cell| ensures cell[k].0 != t {
          if k < |init| {
            assert init[k] == cell[k];
          }
        }
      }
    }
  }

  ghost predicate Rising(cell: Cell) {
    Ascending(cell) && forall j, k :: 0 <= j <= k < |cell| ==> cell[j].1 <= cell[k].1
  }

  /** Times every cell reports are the times the tally is full; between two of them the sum never falls. */
  lemma {:induction false} TallyRises(cells: seq<Cell>, t: real, u: real)
    requires t <= u && forall i :: 0 <= i < |cells| ==> Rising(cells[i])
    ensures Tally(Flat(cells), t).0 <= |cells| && Tally(Flat(cells), u).0 <= |cells|
    ensures Tally(Flat(cells), t).0 == |cells| == Tally(Flat(cells), u).0 ==>
            Tally(Flat(cells), t).1 <= Tally(Flat(cells), u).1
  {
    if cells != [] {
      var init, cell := cells[..|cells| - 1], cells[|cells| - 1];
      TallyRises(init, t, u);
      TallyConcat(Flat(init), cell, t);
      TallyConcat(Flat(init), cell, u);
      TallyOfCell(cell, t);
      TallyOfCell(cell, u);
      if Tally(cell, t).0 == 1 == Tally(cell, u).0 {
        var j :| 0 <= j < |cell| && cell[j] == (t, Tally(cell, t).1);
        var k :| 0 <= k < |cell| && cell[k] == (u, Tally(cell, u).1);
        assert j <= k;
      }
    }
  }

  lemma {:induction false} TallyIsFull(cells: seq<Cell>, t: real)
    requires forall i :: 0 <= i < |cells| ==> Rising(cells[i])
    ensures Tally(Flat(cells), t).0 <= |cells|
    ensures Tally(Flat(cells), t).0 == |cells| <==> forall i :: 0 <= i < |cells| ==> Tally(cells[i], t).0 == 1
  {
    if cells != [] {
      var init, cell := cells[..|cells| - 1], cells[|cells| - 1];
      TallyIsFull(init, t);
      TallyConcat(Flat(init), cell, t);
      TallyOfCell(cell, t);
      assert forall i :: 0 <= i < |init| ==> init[i] == cells[i];
      if forall i :: 0 <= i < |init| ==> Tally(init[i], t).0 == 1 {
        assert forall i :: 0 <= i < |cells| - 1 ==> Tally(cells[i], t).0 == Tally(init[i], t).0;
      }
    }
  }

  /** The series holds exactly the times every queue reported. */
  lemma SeriesTimes(cells: seq<Cell>, t: real)
    requires cells != [] && forall i :: 0 <= i < |cells| ==> Rising(cells[i])
    ensures Tally(Flat(cells), t).0 > 0 && Tally(Flat(cells), t).0 == |cells| <==>
            forall i :: 0 <= i < |cells| ==> HasTime(cells[i], t)
  {
    TallyIsFull(cells, t);
    forall i | 0 <= i < |cells| ensures Tally(cells[i], t).0 == 1 <==> HasTime(cells[i], t) {
      TallyOfCell(cells[i], t);
    }
  }

  // ---------------------------------------------------------------- end to end

  predicate InOrder(points: seq<Point>) {
    forall j, k :: 0 <= j < k < |points| ==> points[j].at < points[k].at
  }

  lemma {:induction false} AfterKeepsOrder(points: seq<Point>, start: real)
    requires InOrder(points)
    ensures InOrder(After(points, start))
    ensures After(points, start) != [] ==>
            After(points, start)[|After(points, start)| - 1].at <= points[|points| - 1].at
  {
    if points != [] {
      var init, last := points[..|points| - 1], points[|points| - 1];
      AfterKeepsOrder(init, start);
      if init != [] {
        assert init[|init| - 1].at < last.at;
      }
      LaterLast(After(init, start), last);
    }
  }

  lemma LaterLast(points: seq<Point>, p: Point)
    requires InOrder(points) && (points != [] ==> points[|points| - 1].at < p.at)
    ensures InOrder(points + [p])
  {
    forall j, k | 0 <= j < k < |points + [p]| ensures (points + [p])[j].at < (points + [p])[k].at {
      if k == |points| {
        assert points[j].at <= points[|points| - 1].at;
      }
    }
  }

  predicate AllCounts(points: seq<Point>) {
    forall k :: 0 <= k < |points| ==> points[k].value >= 0.0
  }

  lemma {:induction false} AfterKeepsCounts(points: seq<Point>, start: real)
    requires AllCounts(points)
    ensures AllCounts(After(points, start))
  {
    if points != [] {
      AfterKeepsCounts(points[..|points| - 1], start);
    }
  }

  /** Counters: their samples are in time order and never negative. */
  ghost predicate Sampled(r: Results, queue: string, end: real) {
    && InOrder(GetOr(r.ackedPoints, queue, []))
    && AllCounts(GetOr(r.ackedPoints, queue, []))
    && (queue in r.ackedEnd ==> r.ackedEnd[queue] >= 0.0)
  }

  lemma AckedInOrder(r: Results, queue: string, start: real, end: real)
    requires Sampled(r, queue, end)
    ensures InOrder(AckedIn(r, queue, start, end)) && NonNegative(Values(AckedIn(r, queue, start, end)))
  {
    var points := GetOr(r.ackedPoints, queue, []);
    var closed := WithEnd(points, end, Get(r.ackedEnd, queue));
    if closed != points {
      LaterLast(points, Point(end, r.ackedEnd[queue]));
    }
    AfterKeepsOrder(closed, start);
    AfterKeepsCounts(closed, start);
  }

  lemma DividesInOrder(a: int, b: int, total: real)
    requires a <= b && total > 0.0
    ensures a as real / total <= b as real / total
  {
    var x, y := a as real / total, b as real / total;
    assert x * total == a as real && y * total == b as real;
  }

  lemma LineRises(cells: seq<Cell>, totalExpected: real, series: seq<(real, real)>, j: nat, k: nat)
    requires totalExpected > 0.0 && IsLine(cells, totalExpected, series) && j < k < |series|
    requires forall i :: 0 <= i < |cells| ==> Rising(cells[i])
    ensures series[j].1 <= series[k].1
  {
    assert At(series, series[j].0) && At(series, series[k].0);
    TallyRises(cells, series[j].0, series[k].0);
    DividesInOrder(Tally(Flat(cells), series[j].0).1, Tally(Flat(cells), series[k].0).1, totalExpected);
  }

  /** From the broker's counters to the line on the page, through resets, rounding and missing samples:
  it never falls. */
  lemma LineNeverFalls(r: Results, start: real, end: real, consumer: string, queues: seq<Queue>, rows: seq<QueueRow>,
                       cells: seq<Cell>, totalExpected: real, series: seq<(real, real)>)
    requires |rows| == |queues| == |cells|
    requires forall i :: 0 <= i < |rows| ==>
             QueueOk(r, start, end, consumer, queues[i], rows[i]) && cells[i] == rows[i].points
    requires forall i :: 0 <= i < |queues| ==> Sampled(r, queues[i].name, end)
    requires totalExpected > 0.0 && IsLine(cells, totalExpected, series)
    ensures forall j, k :: 0 <= j < k < |series| ==> series[j].1 <= series[k].1
  {
    forall i | 0 <= i < |cells| ensures Rising(cells[i]) {
      AckedInOrder(r, queues[i].name, start, end);
      PointsRise(r, start, end, consumer, queues[i], rows[i]);
    }
    forall j, k | 0 <= j < k < |series| ensures series[j].1 <= series[k].1 {
      LineRises(cells, totalExpected, series, j, k);
    }
  }
}
