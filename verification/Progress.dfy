/** A run's progress, worked out from cumulative counters that restart from zero when their process does. */
module Progress {
  import opened Wrappers

  /** A sample of a time series. */
  datatype Point = Point(at: real, value: real)

  /** What one sample adds to the count after another: the difference, or all of it after a reset. */
  function Grown(previous: real, value: real): real {
    if value >= previous then value - previous else value
  }

  /** The latest sample, the baseline while there is none. */
  function Latest(baseline: real, values: seq<real>): real {
    if values == [] then baseline else values[|values| - 1]
  }

  /** The growth over a run of samples. */
  function Total(baseline: real, values: seq<real>): real {
    if values == [] then 0.0
    else Total(baseline, values[..|values| - 1]) + Grown(Latest(baseline, values[..|values| - 1]), values[|values| - 1])
  }

  lemma TotalSnoc(baseline: real, values: seq<real>, v: real)
    ensures Total(baseline, values + [v]) == Total(baseline, values) + Grown(Latest(baseline, values), v)
  {
    assert (values + [v])[..|values|] == values;
  }

  /** The samples inside the run. */
  function After(points: seq<Point>, start: real): seq<Point> {
    if points == [] then []
    else After(points[..|points| - 1], start) + if points[|points| - 1].at <= start then [] else [points[|points| - 1]]
  }

  function Values(points: seq<Point>): (r: seq<real>)
    ensures |r| == |points| && forall k :: 0 <= k < |r| ==> r[k] == points[k].value
  {
    seq(|points|, k requires 0 <= k < |points| => points[k].value)
  }

  /** They are the samples later than its start, in the order they come; `at` says where each one was. */
  lemma {:induction false} AfterIsInside(points: seq<Point>, start: real) returns (at: seq<nat>)
    ensures PickedAt(points, start, After(points, start), at)
  {
    at := [];
    if points != [] {
      var n := |points| - 1;
      at := AfterIsInside(points[..n], start);
      OneMorePicked(points, start, After(points[..n], start), at);
      if points[n].at > start {
        at := at + [n];
      }
    }
  }

  ghost predicate PickedAt(points: seq<Point>, start: real, picked: seq<Point>, at: seq<nat>) {
    && |at| == |picked| && (forall j, k :: 0 <= j < k < |at| ==> at[j] < at[k])
    && (forall k :: 0 <= k < |at| ==> at[k] < |points| && picked[k] == points[at[k]])
    && (forall i: nat :: i < |points| ==> (i in at <==> points[i].at > start))
  }

  lemma OneMorePicked(points: seq<Point>, start: real, picked: seq<Point>, at: seq<nat>)
    requires points != [] && PickedAt(points[..|points| - 1], start, picked, at)
    ensures var n := |points| - 1;
            if points[n].at > start then PickedAt(points, start, picked + [points[n]], at + [n])
            else PickedAt(points, start, picked, at)
  {
    var n := |points| - 1;
    var init := points[..n];
    assert forall i: nat :: i < n ==> init[i] == points[i];
    assert forall i: nat :: i < n ==> (i in at <==> init[i].at > start);
    assert n !in at;
    var more := at + [n];
    assert forall i: nat :: i in more <==> i in at || i == n;
  }

  /** `increases` gives, at the time of each point, the growth up to it. */
  ghost predicate IncreaseOver(baseline: real, points: seq<Point>, increases: seq<Point>) {
    && |increases| == |points|
    && forall k :: 0 <= k < |points| ==>
         increases[k].at == points[k].at && increases[k].value == Total(baseline, Values(points)[..k + 1])
  }

  method CounterIncrease(baseline: Option<real>, points: seq<Point>, start: real)
    returns (increases: Option<seq<Point>>)
    ensures increases.Some? <==> baseline.Some?
    ensures baseline.Some? ==> IncreaseOver(baseline.value, After(points, start), increases.value)
  {
    if baseline.None? {
      return None;
    }
    var previous, total, found := baseline.value, 0.0, [];
    ghost var done: seq<Point> := [];
    var i := 0;
    while i < |points|
      invariant 0 <= i <= |points| && done == After(points[..i], start)
      invariant IncreaseOver(baseline.value, done, found)
      invariant total == Total(baseline.value, Values(done))
      invariant previous == Latest(baseline.value, Values(done))
    {
      assert points[..i + 1][..i] == points[..i];
      if points[i].at > start {
        var value := points[i].value;
        OneMore(baseline.value, done, points[i], found, total);
        total := total + if value >= previous then value - previous else value;
        previous := value;
        found := found + [Point(points[i].at, total)];
        done := done + [points[i]];
      }
      i := i + 1;
    }
    assert points[..i] == points;
    increases := Some(found);
  }

  lemma OneMore(baseline: real, done: seq<Point>, p: Point, found: seq<Point>, total: real)
    requires IncreaseOver(baseline, done, found) && total == Total(baseline, Values(done))
    ensures var grown := total + Grown(Latest(baseline, Values(done)), p.value);
            && Total(baseline, Values(done + [p])) == grown && Latest(baseline, Values(done + [p])) == p.value
            && IncreaseOver(baseline, done + [p], found + [Point(p.at, grown)])
  {
    var values := Values(done);
    ValuesSnoc(done, p);
    TotalSnoc(baseline, values, p.value);
    forall k {:trigger found[k]} | 0 <= k < |done| ensures (values + [p.value])[..k + 1] == values[..k + 1] {
    }
    assert (values + [p.value])[..|done| + 1] == values + [p.value];
  }

  lemma ValuesSnoc(points: seq<Point>, p: Point)
    ensures Values(points + [p]) == Values(points) + [p.value]
  {
  }

  // ---------------------------------------------------------------- the count behind the samples

  /** What happens to the counter between two samples: it counts, or its process restarts. */
  datatype Happening = Count(n: real) | Reset

  predicate Counts(between: seq<Happening>) {
    forall h :: h in between ==> h.Count? ==> h.n >= 0.0
  }

  function Shown(value: real, between: seq<Happening>): real {
    if between == [] then value
    else match between[|between| - 1]
      case Count(n) => Shown(value, between[..|between| - 1]) + n
      case Reset => 0.0
  }

  function Counted(between: seq<Happening>): real {
    if between == [] then 0.0
    else Counted(between[..|between| - 1]) + (match between[|between| - 1] case Count(n) => n case Reset => 0.0)
  }

  /** What was counted and then wiped by a reset before the next sample could show it. */
  function Lost(between: seq<Happening>): real {
    if between == [] then 0.0
    else match between[|between| - 1]
      case Count(_) => Lost(between[..|between| - 1])
      case Reset => Counted(between[..|between| - 1])
  }

  lemma {:induction false} ShownIs(value: real, between: seq<Happening>)
    requires value >= 0.0 && Counts(between)
    ensures Counted(between) >= Lost(between) >= 0.0
    ensures Shown(value, between) == Counted(between) - Lost(between) + if Reset in between then 0.0 else value
    ensures Reset !in between ==> Lost(between) == 0.0
  {
    if between != [] {
      var init := between[..|between| - 1];
      ShownIs(value, init);
      assert between == init + [between[|between| - 1]];
    }
  }

  /** Every reset since the last sample shows as a drop, or had nothing to drop from, and wiped nothing
  counted since. */
  predicate Seen(value: real, between: seq<Happening>) {
    Reset in between ==> Lost(between) == 0.0 && (value == 0.0 || Shown(value, between) < value)
  }

  /** One sample never adds more than was counted, and adds all of it exactly when nothing went unseen. */
  lemma GrowthIsBounded(value: real, between: seq<Happening>)
    requires value >= 0.0 && Counts(between)
    ensures 0.0 <= Grown(value, Shown(value, between)) <= Counted(between)
    ensures Grown(value, Shown(value, between)) == Counted(between) <==> Seen(value, between)
  {
    ShownIs(value, between);
  }

  /** The samples a counter shows, from the baseline on. */
  function Samples(baseline: real, run: seq<seq<Happening>>): (r: seq<real>)
    ensures |r| == |run|
  {
    if run == [] then []
    else
      var before := Samples(baseline, run[..|run| - 1]);
      before + [Shown(Latest(baseline, before), run[|run| - 1])]
  }

  function CountedOver(run: seq<seq<Happening>>): real {
    if run == [] then 0.0 else CountedOver(run[..|run| - 1]) + Counted(run[|run| - 1])
  }

  predicate SeenOver(baseline: real, run: seq<seq<Happening>>) {
    run == [] ||
    (SeenOver(baseline, run[..|run| - 1])
     && Seen(Latest(baseline, Samples(baseline, run[..|run| - 1])), run[|run| - 1]))
  }

  predicate NonNegative(values: seq<real>) {
    forall k :: 0 <= k < |values| ==> values[k] >= 0.0
  }

  ghost predicate Counters(run: seq<seq<Happening>>) {
    forall k :: 0 <= k < |run| ==> Counts(run[k])
  }

  lemma {:induction false} SamplesNonNegative(baseline: real, run: seq<seq<Happening>>)
    requires baseline >= 0.0 && Counters(run)
    ensures Latest(baseline, Samples(baseline, run)) >= 0.0 && NonNegative(Samples(baseline, run))
  {
    if run != [] {
      var init := run[..|run| - 1];
      SamplesNonNegative(baseline, init);
      assert Counts(run[|run| - 1]);
      ShownIs(Latest(baseline, Samples(baseline, init)), run[|run| - 1]);
    }
  }

  /** However the counter counts and restarts between samples, the increase worked out from them never
  exceeds what was counted since the baseline, and equals it exactly when every reset was seen. */
  lemma {:induction false} IncreaseNeverExceeds(baseline: real, run: seq<seq<Happening>>)
    requires baseline >= 0.0 && Counters(run)
    ensures 0.0 <= Total(baseline, Samples(baseline, run)) <= CountedOver(run)
    ensures Total(baseline, Samples(baseline, run)) == CountedOver(run) <==> SeenOver(baseline, run)
  {
    if run != [] {
      var init, between := run[..|run| - 1], run[|run| - 1];
      var before := Samples(baseline, init);
      var value := Latest(baseline, before);
      IncreaseNeverExceeds(baseline, init);
      SamplesNonNegative(baseline, init);
      assert Counts(between);
      GrowthIsBounded(value, between);
      TotalSnoc(baseline, before, Shown(value, between));
    }
  }

  lemma {:induction false} SamplesPrefix(baseline: real, run: seq<seq<Happening>>, n: nat)
    requires n <= |run|
    ensures Samples(baseline, run)[..n] == Samples(baseline, run[..n])
  {
    if n < |run| {
      assert run[..|run| - 1][..n] == run[..n];
      SamplesPrefix(baseline, run[..|run| - 1], n);
    } else {
      assert run[..n] == run;
    }
  }

  /** So it is of what `CounterIncrease` returns for the samples of such a counter, at every one of them. */
  lemma EveryIncreaseIsSafe(baseline: real, points: seq<Point>, increases: seq<Point>, run: seq<seq<Happening>>, k: nat)
    requires baseline >= 0.0 && Counters(run) && Values(points) == Samples(baseline, run)
    requires IncreaseOver(baseline, points, increases) && k < |points|
    ensures |run| == |points| && 0.0 <= increases[k].value <= CountedOver(run[..k + 1])
    ensures increases[k].value == CountedOver(run[..k + 1]) <==> SeenOver(baseline, run[..k + 1])
  {
    SamplesPrefix(baseline, run, k + 1);
    IncreaseNeverExceeds(baseline, run[..k + 1]);
  }

  // ---------------------------------------------------------------- the line it draws

  lemma {:induction false} TotalGrows(baseline: real, values: seq<real>, j: nat, k: nat)
    requires j <= k <= |values| && NonNegative(values)
    ensures 0.0 <= Total(baseline, values[..j]) <= Total(baseline, values[..k])
    decreases k
  {
    if j < k {
      assert values[..k][..k - 1] == values[..k - 1];
      TotalGrows(baseline, values, j, k - 1);
    } else if k > 0 {
      assert values[..k][..k - 1] == values[..k - 1];
      TotalGrows(baseline, values, k - 1, k - 1);
    }
  }

  predicate Rises(baseline: real, values: seq<real>, k: nat)
    requires k < |values|
  {
    values[k] >= if k == 0 then baseline else values[k - 1]
  }

  predicate NoDrop(baseline: real, values: seq<real>) {
    forall k :: 0 <= k < |values| ==> Rises(baseline, values, k)
  }

  /** The increase is the last sample less the baseline exactly when no sample is below the one before
  it; otherwise it is more. */
  lemma {:induction false} IncreaseTelescopes(baseline: real, values: seq<real>)
    requires baseline >= 0.0 && NonNegative(values)
    ensures values != [] ==> Total(baseline, values) >= values[|values| - 1] - baseline
    ensures values != [] ==> (Total(baseline, values) == values[|values| - 1] - baseline <==> NoDrop(baseline, values))
  {
    if values != [] {
      var init := values[..|values| - 1];
      IncreaseTelescopes(baseline, init);
      NoDropSnoc(baseline, values);
    }
  }

  lemma NoDropSnoc(baseline: real, values: seq<real>)
    requires values != []
    ensures var init := values[..|values| - 1];
            NoDrop(baseline, values) <==> NoDrop(baseline, init) && values[|values| - 1] >= Latest(baseline, init)
  {
    var init := values[..|values| - 1];
    assert forall k :: 0 <= k < |init| ==> Rises(baseline, init, k) == Rises(baseline, values, k);
    assert Rises(baseline, values, |init|) <==> values[|init|] >= Latest(baseline, init);
  }
}
