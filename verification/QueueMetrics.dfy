/** Queue counters scraped from the broker, and the rates the console computes from them. */
module QueueMetrics {
  import opened Wrappers

  /** (vhost, queue name) */
  type QueueKey = (string, string)

  datatype Sample = Sample(messages: int, ready: int, unacknowledged: int, consumers: int, published: real, acked: real)

  const NO_SAMPLE := Sample(0, 0, 0, 0, 0.0, 0.0)

  datatype Metric = Messages | Ready | Unacked | Consumers | Acked | Published | Unwanted

  /** One line of the broker's text format, after the library parser. */
  datatype Line = Line(metric: Metric, key: QueueKey, value: real)

  /** Python's `int()` on a float drops the fraction, towards zero. */
  function Truncated(x: real): int {
    if x < 0.0 then -((-x).Floor) else x.Floor
  }

  function Parsed(s: Sample, l: Line): Sample {
    match l.metric
    case Messages => s.(messages := Truncated(l.value))
    case Ready => s.(ready := Truncated(l.value))
    case Unacked => s.(unacknowledged := Truncated(l.value))
    case Consumers => s.(consumers := Truncated(l.value))
    case Acked => s.(acked := s.acked + l.value)
    case Published => s.(published := s.published + l.value)
    case Unwanted => s
  }

  // What the parsed counters mean, said without the parser's loop.

  predicate Mentions(lines: seq<Line>, key: QueueKey) {
    exists i :: 0 <= i < |lines| && lines[i].key == key && lines[i].metric != Unwanted
  }

  /** The sum of one counter's series over its labels (exchanges, for the publish counter). */
  function Total(lines: seq<Line>, key: QueueKey, metric: Metric): real {
    if lines == [] then 0.0
    else
      var n := |lines| - 1;
      Total(lines[..n], key, metric) + if lines[n].key == key && lines[n].metric == metric then lines[n].value else 0.0
  }

  /** The last value of one gauge; zero before the first. */
  function LastGauge(lines: seq<Line>, key: QueueKey, metric: Metric): int {
    if lines == [] then 0
    else
      var n := |lines| - 1;
      if lines[n].key == key && lines[n].metric == metric then Truncated(lines[n].value)
         else LastGauge(lines[..n], key, metric)
  }

  function SampleOf(lines: seq<Line>, key: QueueKey): Sample {
    Sample(LastGauge(lines, key, Messages), LastGauge(lines, key, Ready), LastGauge(lines, key, Unacked),
           LastGauge(lines, key, Consumers), Total(lines, key, Published), Total(lines, key, Acked))
  }

  /** One sample per queue mentioned: counters summed over their series, gauges as last given, and a
  series not emitted yet counted as zero. */
  method ParseQueueSamples(lines: seq<Line>) returns (samples: map<QueueKey, Sample>)
    ensures forall key :: key in samples <==> Mentions(lines, key)
    ensures forall key :: key in samples ==> samples[key] == SampleOf(lines, key)
  {
    samples := map[];
    for i := 0 to |lines|
      invariant forall key :: key in samples <==> Mentions(lines[..i], key)
      invariant forall key :: key in samples ==> samples[key] == SampleOf(lines[..i], key)
    {
      var l := lines[i];
      if l.metric != Unwanted {
        var queue := if l.key in samples then samples[l.key] else NO_SAMPLE;
        if l.key !in samples {
          NothingYet(lines[..i], l.key);
        }
        samples := samples[l.key := Parsed(queue, l)];
      }
      assert lines[..i + 1][..i] == lines[..i];
      forall key ensures key in samples <==> Mentions(lines[..i + 1], key) {
        MentionsSnoc(lines, i, key);
      }
    }
    assert lines[..|lines|] == lines;
  }

  lemma MentionsSnoc(lines: seq<Line>, i: nat, key: QueueKey)
    requires i < |lines|
    ensures Mentions(lines[..i + 1], key) <==>
            Mentions(lines[..i], key) || (lines[i].key == key && lines[i].metric != Unwanted)
  {
    if Mentions(lines[..i], key) {
      var j :| 0 <= j < i && lines[..i][j].key == key && lines[..i][j].metric != Unwanted;
      assert lines[..i + 1][j] == lines[..i][j];
    }
    if lines[i].key == key && lines[i].metric != Unwanted {
      assert lines[..i + 1][i] == lines[i];
    }
    if Mentions(lines[..i + 1], key) {
      var j :| 0 <= j < i + 1 && lines[..i + 1][j].key == key && lines[..i + 1][j].metric != Unwanted;
      if j < i {
        assert lines[..i][j] == lines[..i + 1][j];
      }
    }
  }

  lemma {:induction false} NothingYet(lines: seq<Line>, key: QueueKey)
    requires !Mentions(lines, key)
    ensures SampleOf(lines, key) == NO_SAMPLE
  {
    if lines != [] {
      var n := |lines| - 1;
      assert lines[..n + 1] == lines;
      MentionsSnoc(lines, n, key);
      NothingYet(lines[..n], key);
    }
  }

  /** A gauge's value without its fraction. */
  ghost predicate Whole(n: int, x: real) {
    if x < 0.0 then n as real - 1.0 < x <= n as real <= 0.0 else 0.0 <= n as real <= x < n as real + 1.0
  }

  lemma TruncatedIsWhole(x: real)
    ensures Whole(Truncated(x), x)
  {
  }

  /** What a single line says of its queue: one gauge without its fraction, or one counter, or nothing. */
  lemma OneLine(l: Line)
    ensures var s := SampleOf([l], l.key);
            match l.metric
            case Messages => Whole(s.messages, l.value) && s == NO_SAMPLE.(messages := s.messages)
            case Ready => Whole(s.ready, l.value) && s == NO_SAMPLE.(ready := s.ready)
            case Unacked => Whole(s.unacknowledged, l.value) && s == NO_SAMPLE.(unacknowledged := s.unacknowledged)
            case Consumers => Whole(s.consumers, l.value) && s == NO_SAMPLE.(consumers := s.consumers)
            case Acked => s == Sample(0, 0, 0, 0, 0.0, l.value)
            case Published => s == Sample(0, 0, 0, 0, l.value, 0.0)
            case Unwanted => s == Sample(0, 0, 0, 0, 0.0, 0.0)
  {
    TruncatedIsWhole(l.value);
    forall metric {
      OneReading(l, metric);
    }
  }

  lemma OneReading(l: Line, metric: Metric)
    ensures Total([l], l.key, metric) == if l.metric == metric then l.value else 0.0
    ensures LastGauge([l], l.key, metric) == if l.metric == metric then Truncated(l.value) else 0
  {
    var lines := [l];
    assert lines[..|lines| - 1] == [] && lines[|lines| - 1] == l;
    assert Total(lines[..|lines| - 1], l.key, metric) == 0.0 && LastGauge(lines[..|lines| - 1], l.key, metric) == 0;
  }

  /** Of two pieces of a scrape, the counters of a queue add up, each gauge is the later piece's where that
  gives it, and a piece that is about other queues changes nothing. */
  lemma {:induction false} PiecesAddUp(a: seq<Line>, b: seq<Line>, key: QueueKey)
    ensures var s, t, whole := SampleOf(a, key), SampleOf(b, key), SampleOf(a + b, key);
            && whole.published == s.published + t.published && whole.acked == s.acked + t.acked
            && whole.messages == (if Gives(b, key, Messages) then t.messages else s.messages)
            && whole.ready == (if Gives(b, key, Ready) then t.ready else s.ready)
            && whole.unacknowledged == (if Gives(b, key, Unacked) then t.unacknowledged else s.unacknowledged)
            && whole.consumers == (if Gives(b, key, Consumers) then t.consumers else s.consumers)
            && (!Mentions(b, key) ==> whole == s)
  {
    TotalConcat(a, b, key, Published);
    TotalConcat(a, b, key, Acked);
    GaugeConcat(a, b, key, Messages);
    GaugeConcat(a, b, key, Ready);
    GaugeConcat(a, b, key, Unacked);
    GaugeConcat(a, b, key, Consumers);
    if !Mentions(b, key) {
      NothingYet(b, key);
    }
  }

  predicate Gives(lines: seq<Line>, key: QueueKey, metric: Metric) {
    exists i :: 0 <= i < |lines| && lines[i].key == key && lines[i].metric == metric
  }

  lemma {:induction false} TotalConcat(a: seq<Line>, b: seq<Line>, key: QueueKey, metric: Metric)
    ensures Total(a + b, key, metric) == Total(a, key, metric) + Total(b, key, metric)
  {
    if b == [] {
      assert a + b == a;
    } else {
      assert (a + b)[..|a + b| - 1] == a + b[..|b| - 1];
      TotalConcat(a, b[..|b| - 1], key, metric);
    }
  }

  lemma {:induction false} GaugeConcat(a: seq<Line>, b: seq<Line>, key: QueueKey, metric: Metric)
    ensures LastGauge(a + b, key, metric) ==
            if Gives(b, key, metric) then LastGauge(b, key, metric) else LastGauge(a, key, metric)
  {
    if b == [] {
      assert a + b == a;
    } else {
      var n := |b| - 1;
      assert (a + b)[..|a + b| - 1] == a + b[..n];
      GaugeConcat(a, b[..n], key, metric);
      assert Gives(b, key, metric) <==> Gives(b[..n], key, metric) || (b[n].key == key && b[n].metric == metric) by {
        GivesSnoc(b, key, metric);
      }
    }
  }

  lemma GivesSnoc(b: seq<Line>, key: QueueKey, metric: Metric)
    requires b != []
    ensures var n := |b| - 1;
            Gives(b, key, metric) <==> Gives(b[..n], key, metric) || (b[n].key == key && b[n].metric == metric)
  {
    var n := |b| - 1;
    if i :| 0 <= i < n && b[..n][i].key == key && b[..n][i].metric == metric {
      assert b[i].key == key;
    }
    if i :| 0 <= i < |b| && b[i].key == key && b[i].metric == metric && i < n {
      assert b[..n][i].key == key;
    }
  }

  // ---------------------------------------------------------------- rates

  function Rate(before: real, after: real, elapsed: real): Option<real>
    requires elapsed > 0.0
  {
    if after < before then None else Some((after - before) / elapsed)
  }

  datatype Rates = Rates(publish: Option<real>, ack: Option<real>)

  type Baselines = map<QueueKey, (real, Sample)>

  function RatesOf(previous: Baselines, key: QueueKey, sample: Sample, now: real): Rates {
    if key !in previous || now <= previous[key].0 then Rates(None, None)
    else
      var (at, before) := previous[key];
      Rates(Rate(before.published, sample.published, now - at), Rate(before.acked, sample.acked, now - at))
  }

  /** A rate is zero exactly when the counter stands where the poll before left it, that poll saw the queue,
  and time passed between the two: never for want of a baseline. */
  lemma ComputedZero(previous: Baselines, key: QueueKey, sample: Sample, now: real)
    ensures RatesOf(previous, key, sample, now).ack == Some(0.0)
            <==> key in previous && now > previous[key].0 && sample.acked == previous[key].1.acked
  {
    if key in previous && now > previous[key].0 && sample.acked >= previous[key].1.acked {
      ZeroQuotient(sample.acked - previous[key].1.acked, now - previous[key].0);
    }
  }

  /** A rate is known exactly when the scrape before saw the queue, time has passed since and the counter did not
  drop; then, over the time that passed, it makes up the counter's growth. */
  lemma RatesArePerSecond(previous: Baselines, key: QueueKey, sample: Sample, now: real)
    ensures var rates := RatesOf(previous, key, sample, now);
            && (rates.publish.Some? <==>
                  key in previous && previous[key].0 < now && previous[key].1.published <= sample.published)
            && (rates.ack.Some? <==>
                  key in previous && previous[key].0 < now && previous[key].1.acked <= sample.acked)
            && (rates.publish.Some? ==>
                  rates.publish.value * (now - previous[key].0) == sample.published - previous[key].1.published)
            && (rates.ack.Some? ==>
                  rates.ack.value * (now - previous[key].0) == sample.acked - previous[key].1.acked)
  {
    if key in previous && previous[key].0 < now {
      var elapsed := now - previous[key].0;
      QuotientTimes(sample.published - previous[key].1.published, elapsed);
      QuotientTimes(sample.acked - previous[key].1.acked, elapsed);
    }
  }

  lemma QuotientTimes(x: real, y: real)
    requires y > 0.0
    ensures (x / y) * y == x
  {
  }

  lemma ZeroQuotient(x: real, y: real)
    requires y > 0.0
    ensures x / y == 0.0 <==> x == 0.0
  {
    if x / y == 0.0 {
      assert x == (x / y) * y;
    }
  }

  class RateTracker {
    var previous: Baselines

    constructor ()
      ensures previous == map[]
    {
      previous := map[];
    }

    /** Record a scrape taken at `now` and return each queue's rates since the scrape before. */
    method Update(samples: map<QueueKey, Sample>, now: real) returns (rates: map<QueueKey, Rates>)
      modifies this
      ensures rates == map key | key in samples :: RatesOf(old(previous), key, samples[key], now)
      ensures previous == map key | key in samples :: (now, samples[key])
      ensures forall key :: key in samples ==>
                var was, rate := old(previous), rates[key];
                && (rate.publish.Some? <==>
                      key in was && was[key].0 < now && was[key].1.published <= samples[key].published)
                && (rate.ack.Some? <==> key in was && was[key].0 < now && was[key].1.acked <= samples[key].acked)
                && (rate.publish.Some? ==>
                      rate.publish.value * (now - was[key].0) == samples[key].published - was[key].1.published)
                && (rate.ack.Some? ==> rate.ack.value * (now - was[key].0) == samples[key].acked - was[key].1.acked)
    {
      rates := map[];
      var todo := samples.Keys;
      while todo != {}
        invariant todo <= samples.Keys && rates.Keys == samples.Keys - todo
        invariant forall key :: key in rates ==> rates[key] == RatesOf(previous, key, samples[key], now)
        decreases |todo|
      {
        var key :| key in todo;
        todo := todo - {key};
        var sample := samples[key];
        if key !in previous || now <= previous[key].0 {
          rates := rates[key := Rates(None, None)];
          continue;
        }
        var baseline := previous[key];
        var elapsed := now - baseline.0;
        rates := rates[key := Rates(Rate(baseline.1.published, sample.published, elapsed),
                                    Rate(baseline.1.acked, sample.acked, elapsed))];
      }
      forall key | key in samples {
        RatesArePerSecond(previous, key, samples[key], now);
      }
      previous := map key | key in samples :: (now, samples[key]);
    }
  }
}
