/** The run's progress page: per-entity totals, per-queue counts, and the burn-up line the browser draws. */
module Burnup {
  import opened Wrappers
  import opened Progress

  /** Python's `round`: to the nearest integer, ties to the even one. */
  function Round(x: real): int {
    var f := x.Floor;
    var rest := x - f as real;
    if rest < 0.5 || (rest == 0.5 && f % 2 == 0) then f else f + 1
  }

  lemma RoundGrows(x: real, y: real)
    requires x <= y
    ensures Round(x) <= Round(y)
  {
    assert x.Floor <= y.Floor;
  }

  /** `n` is the whole number nearest to `x`, the even one of two equally near. */
  ghost predicate Nearest(n: int, x: real) {
    -1.0 <= 2.0 * (n as real - x) <= 1.0 && (2.0 * (n as real - x) in {-1.0, 1.0} ==> n % 2 == 0)
  }

  lemma RoundIsNearest(x: real)
    ensures Nearest(Round(x), x)
  {
  }

  lemma RoundWhole(n: int)
    ensures Round(n as real) == n
  {
  }

  function ExpectedRecords(extracted: Option<int>, fileProgress: Option<real>): Option<int> {
    if extracted.None? || fileProgress.None? || extracted.value <= 0 || fileProgress.value <= 0.0 then None
    else Some(Round(extracted.value as real / if fileProgress.value < 1.0 then fileProgress.value else 1.0))
  }

  /** An entity is never expected to have fewer records than were already extracted; a total is given
  exactly when something was extracted and the file's progress is known and not zero. */
  lemma ExpectedIsEnough(extracted: Option<int>, fileProgress: Option<real>)
    ensures ExpectedRecords(extracted, fileProgress).Some? <==>
            extracted.Some? && extracted.value > 0 && fileProgress.Some? && fileProgress.value > 0.0
    ensures ExpectedRecords(extracted, fileProgress).Some? ==>
            ExpectedRecords(extracted, fileProgress).value >= extracted.value
  {
    if ExpectedRecords(extracted, fileProgress).Some? {
      var n := extracted.value as real;
      var q := if fileProgress.value < 1.0 then fileProgress.value else 1.0;
      DivideByFraction(n, q);
      RoundWhole(extracted.value);
      RoundGrows(n, n / q);
    }
  }

  /** `share` of `total` is as near to `count` as that of any whole number, with a tie going to the even one. */
  ghost predicate SharesOut(total: int, share: real, count: int) {
    var off := 2.0 * (total as real * share - count as real);
    -share <= off <= share && (off in {-share, share} ==> total % 2 == 0)
  }

  lemma ExpectedSharesOut(count: int, progress: real)
    requires count > 0 && progress > 0.0
    ensures var expected := ExpectedRecords(Some(count), Some(progress));
            && expected.Some?
            && SharesOut(expected.value, if progress < 1.0 then progress else 1.0, count)
            && (progress >= 1.0 ==> expected.value == count)
  {
    var share := if progress < 1.0 then progress else 1.0;
    var x := count as real / share;
    var total := Round(x);
    RoundIsNearest(x);
    RoundWhole(count);
    NearestSharesOut(total, x, share, count);
  }

  lemma NearestSharesOut(total: int, x: real, share: real, count: int)
    requires Nearest(total, x) && 0.0 < share && x * share == count as real
    ensures SharesOut(total, share, count)
  {
    var off := 2.0 * (total as real - x);
    Scaled(off, share);
    assert 2.0 * (total as real * share - count as real) == off * share;
  }

  lemma Scaled(off: real, share: real)
    requires -1.0 <= off <= 1.0 && 0.0 < share
    ensures -share <= off * share <= share
    ensures off * share == share ==> off == 1.0
    ensures off * share == -share ==> off == -1.0
  {
    assert (1.0 - off) * share >= 0.0 && (1.0 + off) * share >= 0.0;
  }

  /** The further the file has been read, the fewer records the same count points to. */
  lemma ExpectedFalls(count: int, progress: real, further: real)
    requires count > 0 && 0.0 < progress <= further
    ensures ExpectedRecords(Some(count), Some(further)).value <= ExpectedRecords(Some(count), Some(progress)).value
  {
    var p, q := if progress < 1.0 then progress else 1.0, if further < 1.0 then further else 1.0;
    QuotientFalls(count as real, p, q);
    RoundGrows(count as real / q, count as real / p);
  }

  lemma NonNegativeFactor(x: real, y: real)
    requires x * y >= 0.0 && y > 0.0
    ensures x >= 0.0
  {
  }

  lemma QuotientFalls(x: real, p: real, q: real)
    requires x > 0.0 && 0.0 < p <= q
    ensures x / q <= x / p
  {
    var b := x / p;
    assert b * p == x && b >= 0.0;
    assert b * (q - p) >= 0.0;
    assert (b - x / q) * q == b * q - x;
    NonNegativeFactor(b - x / q, q);
  }

  lemma DivideByFraction(n: real, q: real)
    requires n >= 0.0 && 0.0 < q <= 1.0
    ensures n / q >= n
  {
    var d := n / q;
    assert d * q == n;
    assert d >= 0.0;
    assert d * (1.0 - q) >= 0.0;
  }

  // ---------------------------------------------------------------- the rows of a run

  datatype Queue = Queue(name: string, entity: string)
  datatype Consumer = Consumer(name: string, queues: seq<Queue>)
  datatype Pipeline = Pipeline(entityTypes: seq<string>, consumers: seq<Consumer>)

  /** What VictoriaMetrics answered: instant values at the run's start and end, and samples between. */
  datatype Results = Results(
    ackedStart: map<string, real>, ackedEnd: map<string, real>, ackedPoints: map<string, seq<Point>>,
    recordsStart: map<string, real>, recordsEnd: map<string, real>, recordsPoints: map<string, seq<Point>>,
    fileProgress: map<string, real>, progressStart: map<string, real>, progressPoints: map<string, seq<Point>>)

  datatype EntityRow = EntityRow(entity: string, extracted: Option<int>, fileProgress: Option<real>,
                                 expected: Option<int>, waiting: bool)

  datatype QueueRow = QueueRow(queue: string, consumer: string, entity: string, baseline: Option<real>,
                               loaded: Option<int>, points: seq<(real, int)>)

  function GetOr<V>(m: map<string, V>, key: string, other: V): V {
    if key in m then m[key] else other
  }

  /** The samples, closed by the one at the run's end, where the range stops short of it. */
  function WithEnd(points: seq<Point>, end: real, value: Option<real>): seq<Point> {
    if value.None? || (points != [] && points[|points| - 1].at >= end) then points
    else points + [Point(end, value.value)]
  }

  /** Some sample inside the run differs from what the gauge read when the run began, if it read anything. */
  predicate GaugeMoved(atStart: Option<real>, points: seq<Point>, start: real) {
    exists k :: 0 <= k < |points| && points[k].at > start && (atStart.None? || points[k].value != atStart.value)
  }

  function RecordsIn(r: Results, entity: string, start: real, end: real): seq<real> {
    Values(After(WithEnd(GetOr(r.recordsPoints, entity, []), end, Get(r.recordsEnd, entity)), start))
  }

  function RatiosIn(r: Results, entity: string, end: real): seq<Point> {
    WithEnd(GetOr(r.progressPoints, entity, []), end, Get(r.fileProgress, entity))
  }

  function AckedIn(r: Results, queue: string, start: real, end: real): seq<Point> {
    After(WithEnd(GetOr(r.ackedPoints, queue, []), end, Get(r.ackedEnd, queue)), start)
  }

  /** An entity's row: the records counted since the start, where the metrics reach that far back, and
  the total they point to, unless the file's progress is still the previous run's. */
  predicate EntityOk(r: Results, start: real, end: real, entity: string, row: EntityRow) {
    var moved := GaugeMoved(Get(r.progressStart, entity), RatiosIn(r, entity, end), start);
    && row.entity == entity
    && row.extracted == (if r.ackedStart == map[] then None
                         else Some(Round(Total(GetOr(r.recordsStart, entity, 0.0), RecordsIn(r, entity, start, end)))))
    && (row.waiting <==> entity in r.fileProgress && !moved)
    && row.fileProgress == (if row.waiting then None else Get(r.fileProgress, entity))
    && row.expected == ExpectedRecords(row.extracted, row.fileProgress)
  }

  /** A queue's row: what was acked since the start, and at each sample on the way. */
  ghost predicate QueueOk(r: Results, start: real, end: real, consumer: string, queue: Queue, row: QueueRow) {
    var acked := AckedIn(r, queue.name, start, end);
    && row.queue == queue.name && row.consumer == consumer && row.entity == queue.entity
    && row.baseline == Get(r.ackedStart, queue.name)
    && (row.baseline.None? ==> row.loaded.None? && row.points == [])
    && (row.baseline.Some? ==>
          && row.loaded == Some(Round(Total(row.baseline.value, Values(acked))))
          && |row.points| == |acked|
          && forall k :: 0 <= k < |acked| ==>
               row.points[k] == (acked[k].at, Round(Total(row.baseline.value, Values(acked)[..k + 1]))))
  }

  /** Every queue of the pipeline with its consumer, in the order they are read. */
  function QueuesOf(consumers: seq<Consumer>): seq<(string, Queue)> {
    if consumers == [] then []
    else
      var last := consumers[|consumers| - 1];
      QueuesOf(consumers[..|consumers| - 1]) + Named(last.name, last.queues)
  }

  function Named(consumer: string, queues: seq<Queue>): seq<(string, Queue)> {
    if queues == [] then [] else Named(consumer, queues[..|queues| - 1]) + [(consumer, queues[|queues| - 1])]
  }

  /** The last of an increase, as a whole number; zero before the first sample. */
  function LastOf(increase: seq<Point>): int {
    if increase == [] then 0 else Round(increase[|increase| - 1].value)
  }

  lemma LastOfIs(baseline: real, points: seq<Point>, increase: seq<Point>)
    requires IncreaseOver(baseline, points, increase)
    ensures LastOf(increase) == Round(Total(baseline, Values(points)))
  {
    if points == [] {
      RoundWhole(0);
    } else {
      assert Values(points)[..|points|] == Values(points);
    }
  }

  method ShapeEntity(r: Results, start: real, end: real, entity: string) returns (row: EntityRow)
    ensures EntityOk(r, start, end, entity, row)
    ensures row.expected.Some? ==>
              && row.extracted.Some? && row.fileProgress.Some? && 0.0 < row.fileProgress.value
              && SharesOut(row.expected.value, if row.fileProgress.value < 1.0 then row.fileProgress.value else 1.0,
                           row.extracted.value)
  {
    var baseline := if r.ackedStart != map[] then Some(GetOr(r.recordsStart, entity, 0.0)) else None;
    var records := WithEnd(GetOr(r.recordsPoints, entity, []), end, Get(r.recordsEnd, entity));
    var increase := CounterIncrease(baseline, records, start);
    if increase.Some? {
      LastOfIs(baseline.value, After(records, start), increase.value);
    }
    var extracted := if increase.None? then None else Some(LastOf(increase.value));
    var ratio := Get(r.fileProgress, entity);
    var waiting := ratio.Some? && !GaugeMoved(Get(r.progressStart, entity), RatiosIn(r, entity, end), start);
    if waiting {
      ratio := None;
    }
    row := EntityRow(entity, extracted, ratio, ExpectedRecords(extracted, ratio), waiting);
    TotalSharesOut(r, start, end, entity, row);
  }

  method RoundedPoints(increase: seq<Point>) returns (points: seq<(real, int)>)
    ensures |points| == |increase|
    ensures forall k :: 0 <= k < |points| ==> points[k] == (increase[k].at, Round(increase[k].value))
  {
    points := [];
    for i := 0 to |increase|
      invariant |points| == i
      invariant forall k :: 0 <= k < i ==> points[k] == (increase[k].at, Round(increase[k].value))
    {
      points := points + [(increase[i].at, Round(increase[i].value))];
    }
  }

  method ShapeQueue(r: Results, start: real, end: real, consumer: string, queue: Queue) returns (row: QueueRow)
    ensures QueueOk(r, start, end, consumer, queue, row)
  {
    var baseline := Get(r.ackedStart, queue.name);
    var acked := WithEnd(GetOr(r.ackedPoints, queue.name, []), end, Get(r.ackedEnd, queue.name));
    var increase := CounterIncrease(baseline, acked, start);
    if increase.None? {
      return QueueRow(queue.name, consumer, queue.entity, baseline, None, []);
    }
    LastOfIs(baseline.value, After(acked, start), increase.value);
    var points := RoundedPoints(increase.value);
    row := QueueRow(queue.name, consumer, queue.entity, baseline, Some(LastOf(increase.value)), points);
  }

  method ShapeProgress(p: Pipeline, start: real, end: real, r: Results)
    returns (entities: seq<EntityRow>, queues: seq<QueueRow>)
    ensures |entities| == |p.entityTypes|
    ensures forall k :: 0 <= k < |entities| ==> EntityOk(r, start, end, p.entityTypes[k], entities[k])
    ensures var all := QueuesOf(p.consumers);
            |queues| == |all| && forall k :: 0 <= k < |all| ==> QueueOk(r, start, end, all[k].0, all[k].1, queues[k])
  {
    entities := [];
    for i := 0 to |p.entityTypes|
      invariant |entities| == i
      invariant forall k :: 0 <= k < i ==> EntityOk(r, start, end, p.entityTypes[k], entities[k])
    {
      var row := ShapeEntity(r, start, end, p.entityTypes[i]);
      entities := entities + [row];
    }
    queues := [];
    ghost var all: seq<(string, Queue)> := [];
    for i := 0 to |p.consumers|
      invariant all == QueuesOf(p.consumers[..i]) && |queues| == |all|
      invariant forall k :: 0 <= k < |all| ==> QueueOk(r, start, end, all[k].0, all[k].1, queues[k])
    {
      var consumer := p.consumers[i];
      ghost var before := all;
      for j := 0 to |consumer.queues|
        invariant all == before + Named(consumer.name, consumer.queues[..j]) && |queues| == |all|
        invariant forall k :: 0 <= k < |all| ==> QueueOk(r, start, end, all[k].0, all[k].1, queues[k])
      {
        var row := ShapeQueue(r, start, end, consumer.name, consumer.queues[j]);
        queues := queues + [row];
        assert consumer.queues[..j + 1][..j] == consumer.queues[..j];
        all := all + [(consumer.name, consumer.queues[j])];
      }
      assert consumer.queues[..|consumer.queues|] == consumer.queues;
      assert p.consumers[..i + 1][..i] == p.consumers[..i];
    }
    assert p.consumers[..|p.consumers|] == p.consumers;
  }

  // ---------------------------------------------------------------- what the rows say

  lemma RoundedTotalGrows(baseline: real, values: seq<real>, j: nat, k: nat)
    requires NonNegative(values) && j <= k <= |values|
    ensures 0 <= Round(Total(baseline, values[..j])) <= Round(Total(baseline, values[..k]))
  {
    TotalGrows(baseline, values, j, k);
    RoundWhole(0);
    RoundGrows(0.0, Total(baseline, values[..j]));
    RoundGrows(Total(baseline, values[..j]), Total(baseline, values[..k]));
  }

  /** Of any entity's row: what was extracted is its counter's growth to the nearest record, and the file's
  progress times the total expected is that count, as near as a whole total allows. */
  lemma TotalSharesOut(r: Results, start: real, end: real, entity: string, row: EntityRow)
    requires EntityOk(r, start, end, entity, row)
    ensures row.extracted.Some? ==>
              Nearest(row.extracted.value, Total(GetOr(r.recordsStart, entity, 0.0), RecordsIn(r, entity, start, end)))
    ensures row.expected.Some? ==>
              && row.extracted.Some? && row.fileProgress.Some?
              && var progress := row.fileProgress.value;
                 && 0.0 < progress
                 && SharesOut(row.expected.value, if progress < 1.0 then progress else 1.0, row.extracted.value)
                 && (progress >= 1.0 ==> row.expected.value == row.extracted.value)
  {
    if row.extracted.Some? {
      RoundIsNearest(Total(GetOr(r.recordsStart, entity, 0.0), RecordsIn(r, entity, start, end)));
    }
    if row.expected.Some? {
      ExpectedSharesOut(row.extracted.value, row.fileProgress.value);
    }
  }

  /** Nothing is said of an entity's records without data at the run's start; and the file's progress is told
  exactly when some reading of it inside the run differs from the one at the start, if there was one. */
  lemma RowSaysWhatIsKnown(r: Results, start: real, end: real, entity: string, row: EntityRow)
    requires EntityOk(r, start, end, entity, row)
    ensures row.entity == entity && (row.extracted.Some? <==> r.ackedStart != map[])
    ensures row.fileProgress == None || (entity in r.fileProgress && row.fileProgress == Some(r.fileProgress[entity]))
    ensures row.waiting <==> entity in r.fileProgress && row.fileProgress == None
    ensures entity in r.fileProgress ==>
              (row.fileProgress.Some? <==>
                exists p :: p in RatiosIn(r, entity, end) && p.at > start
                            && (entity in r.progressStart ==> p.value != r.progressStart[entity]))
  {
    var points := RatiosIn(r, entity, end);
    forall k | 0 <= k < |points| ensures points[k] in points {
    }
  }

  /** A counter read at the start of a run, at points before its end, and at its end, and never lower at the next
  of these that is inside the run. */
  ghost predicate NeverDrops(baseline: real, points: seq<Point>, start: real, end: real, value: real) {
    var values := Values(After(points, start));
    && 0.0 <= baseline && start < end && (forall k :: 0 <= k < |points| ==> points[k].at < end)
    && NonNegative(values) && NoDrop(baseline, values) && 0.0 <= value && Latest(baseline, values) <= value
  }

  lemma GrowthBetweenEnds(baseline: real, points: seq<Point>, start: real, end: real, value: real)
    requires NeverDrops(baseline, points, start, end, value)
    ensures Total(baseline, Values(After(WithEnd(points, end, Some(value)), start))) == value - baseline
  {
    var values := Values(After(points, start));
    ClosedValues(points, start, end, value);
    assert (values + [value])[..|values|] == values;
    NoDropSnoc(baseline, values + [value]);
    IncreaseTelescopes(baseline, values + [value]);
  }

  lemma ClosedValues(points: seq<Point>, start: real, end: real, value: real)
    requires start < end && forall k :: 0 <= k < |points| ==> points[k].at < end
    ensures Values(After(WithEnd(points, end, Some(value)), start)) == Values(After(points, start)) + [value]
  {
    var closed := points + [Point(end, value)];
    assert WithEnd(points, end, Some(value)) == closed && closed[..|points|] == points;
    ValuesSnoc(After(points, start), Point(end, value));
  }

  /** So a queue whose counter never drops during the run has loaded, to the nearest message, what its acks
  grew by between the run's start and its end. */
  lemma LoadedIsTheDifference(r: Results, start: real, end: real, consumer: string, queue: Queue, row: QueueRow,
                              points: seq<Point>, value: real)
    requires QueueOk(r, start, end, consumer, queue, row) && row.baseline.Some?
    requires points == if queue.name in r.ackedPoints then r.ackedPoints[queue.name] else []
    requires queue.name in r.ackedEnd && value == r.ackedEnd[queue.name]
    requires NeverDrops(row.baseline.value, points, start, end, value)
    ensures queue.name in r.ackedStart && row.baseline.value == r.ackedStart[queue.name]
    ensures row.queue == queue.name && row.consumer == consumer && row.entity == queue.entity
    ensures row.loaded.Some? && Nearest(row.loaded.value, value - r.ackedStart[queue.name])
  {
    LoadedRounds(r, start, end, consumer, queue, row, points, value);
    RoundsTheGrowth(row.baseline.value, points, start, end, value);
  }

  lemma RoundsTheGrowth(baseline: real, points: seq<Point>, start: real, end: real, value: real)
    requires NeverDrops(baseline, points, start, end, value)
    ensures Nearest(Round(Total(baseline, Values(After(WithEnd(points, end, Some(value)), start)))), value - baseline)
  {
    GrowthBetweenEnds(baseline, points, start, end, value);
    RoundIsNearest(value - baseline);
  }

  lemma LoadedRounds(r: Results, start: real, end: real, consumer: string, queue: Queue, row: QueueRow,
                     points: seq<Point>, value: real)
    requires QueueOk(r, start, end, consumer, queue, row) && row.baseline.Some?
    requires points == if queue.name in r.ackedPoints then r.ackedPoints[queue.name] else []
    requires queue.name in r.ackedEnd && value == r.ackedEnd[queue.name]
    ensures var growth := Total(row.baseline.value, Values(After(WithEnd(points, end, Some(value)), start)));
            row.loaded == Some(Round(growth))
  {
  }

  /** The same of the records of an entity, which had counted nothing at the start if it was not seen then. */
  lemma ExtractedIsTheDifference(r: Results, start: real, end: real, entity: string, row: EntityRow,
                                 baseline: real, points: seq<Point>, value: real)
    requires EntityOk(r, start, end, entity, row) && r.ackedStart != map[]
    requires baseline == if entity in r.recordsStart then r.recordsStart[entity] else 0.0
    requires points == if entity in r.recordsPoints then r.recordsPoints[entity] else []
    requires entity in r.recordsEnd && value == r.recordsEnd[entity]
    requires NeverDrops(baseline, points, start, end, value)
    ensures row.extracted.Some? && Nearest(row.extracted.value, value - baseline)
  {
    ExtractedRounds(r, start, end, entity, row, baseline, points, value);
    RoundsTheGrowth(baseline, points, start, end, value);
  }

  lemma ExtractedRounds(r: Results, start: real, end: real, entity: string, row: EntityRow,
                        baseline: real, points: seq<Point>, value: real)
    requires EntityOk(r, start, end, entity, row) && r.ackedStart != map[]
    requires baseline == if entity in r.recordsStart then r.recordsStart[entity] else 0.0
    requires points == if entity in r.recordsPoints then r.recordsPoints[entity] else []
    requires entity in r.recordsEnd && value == r.recordsEnd[entity]
    ensures row.extracted == Some(Round(Total(baseline, Values(After(WithEnd(points, end, Some(value)), start)))))
  {
  }

  /** The queues come consumer by consumer, each consumer's own in order and under its name. */
  lemma {:induction false} QueuesByConsumer(before: seq<Consumer>, c: Consumer, after: seq<Consumer>, k: nat)
    requires k < |c.queues|
    ensures var first := |QueuesOf(before)|;
            && |QueuesOf(before + [c] + after)| == first + |c.queues| + |QueuesOf(after)|
            && QueuesOf(before + [c] + after)[first + k] == (c.name, c.queues[k])
  {
    var all := before + [c] + after;
    if after == [] {
      assert all[..|all| - 1] == before;
      NamedAre(c.name, c.queues);
    } else {
      var rest := after[..|after| - 1];
      assert all[..|all| - 1] == before + [c] + rest;
      QueuesByConsumer(before, c, rest, k);
    }
  }

  lemma {:induction false} NamedAre(consumer: string, queues: seq<Queue>)
    ensures |Named(consumer, queues)| == |queues|
    ensures forall k :: 0 <= k < |queues| ==> Named(consumer, queues)[k] == (consumer, queues[k])
  {
    if queues != [] {
      NamedAre(consumer, queues[..|queues| - 1]);
    }
  }

  /** As the file is read on, with nothing more extracted, the expected total never grows. */
  lemma TotalFallsWithProgress(r: Results, r': Results, start: real, end: real, end': real, entity: string,
                               row: EntityRow, row': EntityRow)
    requires EntityOk(r, start, end, entity, row) && EntityOk(r', start, end', entity, row')
    requires row.extracted == row'.extracted && row.expected.Some? && row'.expected.Some?
    requires row.fileProgress.value <= row'.fileProgress.value
    ensures row'.expected.value <= row.expected.value
  {
    ExpectedFalls(row.extracted.value, row.fileProgress.value, row'.fileProgress.value);
  }

  lemma LastPoint(row: QueueRow, baseline: real, values: seq<real>)
    requires |row.points| == |values| && row.loaded == Some(Round(Total(baseline, values)))
    requires forall k :: 0 <= k < |values| ==> row.points[k].1 == Round(Total(baseline, values[..k + 1]))
    ensures row.loaded == Some(if row.points == [] then 0 else row.points[|row.points| - 1].1)
  {
    assert values[..|values|] == values;
    RoundWhole(0);
  }

  lemma PointsGrow(row: QueueRow, baseline: real, values: seq<real>)
    requires |row.points| == |values| && NonNegative(values)
    requires forall k :: 0 <= k < |values| ==> row.points[k].1 == Round(Total(baseline, values[..k + 1]))
    ensures forall j, k :: 0 <= j <= k < |row.points| ==> 0 <= row.points[j].1 <= row.points[k].1
  {
    forall j, k | 0 <= j <= k < |row.points| ensures 0 <= row.points[j].1 <= row.points[k].1 {
      RoundedTotalGrows(baseline, values, j + 1, k + 1);
    }
  }

  /** A queue's points never fall, and end at its loaded count. */
  lemma PointsRise(r: Results, start: real, end: real, consumer: string, queue: Queue, row: QueueRow)
    requires QueueOk(r, start, end, consumer, queue, row) && NonNegative(Values(AckedIn(r, queue.name, start, end)))
    ensures forall j, k :: 0 <= j <= k < |row.points| ==> 0 <= row.points[j].1 <= row.points[k].1
    ensures row.points != [] ==> row.loaded == Some(row.points[|row.points| - 1].1)
    ensures row.points == [] && row.baseline.Some? ==> row.loaded == Some(0)
  {
    if row.baseline.Some? {
      var values := Values(AckedIn(r, queue.name, start, end));
      PointsGrow(row, row.baseline.value, values);
      LastPoint(row, row.baseline.value, values);
    }
  }

  /** An entity's expected total is never below what was extracted, and a progress gauge that still shows
  only the value it had when the run started gives no total. */
  lemma TotalsAreThisRuns(r: Results, start: real, end: real, entity: string, row: EntityRow)
    requires EntityOk(r, start, end, entity, row)
    ensures row.expected.Some? ==> row.extracted.Some? && row.expected.value >= row.extracted.value > 0
    ensures row.expected.Some? ==> GaugeMoved(Get(r.progressStart, entity), RatiosIn(r, entity, end), start)
    ensures entity in r.progressStart
              && (forall p :: p in RatiosIn(r, entity, end) && p.at > start ==> p.value == r.progressStart[entity])
            ==> row.expected.None?
  {
    ExpectedIsEnough(row.extracted, row.fileProgress);
    var points := RatiosIn(r, entity, end);
    if k :| 0 <= k < |points| && points[k].at > start {
      assert points[k] in points;
    }
  }
}
