/** The browser's short history of a queue's readings: an unbroken run of samples over the trend window,
with one older sample as the baseline. Times are milliseconds of server time. */
module Window {
  const TREND_MS := 300000
  const GAP_MS := 30000

  datatype Sample = Sample(t: int, messages: int)

  predicate Increasing(h: seq<Sample>) {
    forall j, k :: 0 <= j < k < |h| ==> h[j].t < h[k].t
  }

  /** The history with one more sample that did not come late. */
  function Pushed(h: seq<Sample>, s: Sample): seq<Sample> {
    if h != [] && h[|h| - 1].t == s.t then h[..|h| - 1] + [s] else h + [s]
  }

  /** A sample older than the last one kept. */
  predicate Older(h: seq<Sample>, s: Sample) {
    h != [] && s.t < h[|h| - 1].t
  }

  /** Everything offered, but for samples that arrived late and samples replaced by another of their time. */
  function History(offered: seq<Sample>): seq<Sample> {
    if offered == [] then []
    else
      var h, s := History(offered[..|offered| - 1]), offered[|offered| - 1];
      if Older(h, s) then h else Pushed(h, s)
  }

  lemma PushedIncreases(h: seq<Sample>, s: Sample)
    requires Increasing(h) && !Older(h, s)
    ensures Increasing(Pushed(h, s))
  {
  }

  lemma {:induction false} HistoryIncreases(offered: seq<Sample>)
    ensures Increasing(History(offered))
  {
    if offered != [] {
      var h, s := History(offered[..|offered| - 1]), offered[|offered| - 1];
      HistoryIncreases(offered[..|offered| - 1]);
      if !Older(h, s) {
        PushedIncreases(h, s);
      }
    }
  }

  lemma HistorySnoc(offered: seq<Sample>, s: Sample)
    ensures History(offered + [s]) == if Older(History(offered), s) then History(offered)
            else Pushed(History(offered), s)
  {
    assert (offered + [s])[..|offered|] == offered;
  }

  /** A sample offered after one of a later time. */
  ghost predicate Late(offered: seq<Sample>, s: Sample) {
    exists k :: 0 <= k < |offered| && offered[k].t > s.t
  }

  lemma LateSnoc(offered: seq<Sample>, last: Sample, s: Sample)
    ensures Late(offered + [last], s) <==> Late(offered, s) || last.t > s.t
  {
    var all := offered + [last];
    if Late(offered, s) {
      var k :| 0 <= k < |offered| && offered[k].t > s.t;
      assert all[k].t > s.t;
    } else if last.t > s.t {
      assert all[|offered|].t > s.t;
    }
  }

  /** A sample is older than the last one kept exactly when it came after one of a later time. */
  lemma {:induction false} LateIsOlder(offered: seq<Sample>, s: Sample)
    ensures Late(offered, s) <==> Older(History(offered), s)
  {
    if offered != [] {
      var init, last := offered[..|offered| - 1], offered[|offered| - 1];
      assert offered == init + [last];
      LateIsOlder(init, s);
      LateSnoc(init, last, s);
      HistorySnoc(init, last);
    }
  }

  /** Sample `j` comes no more than thirty seconds after the one before it. */
  predicate Joined(h: seq<Sample>, j: nat)
    requires 0 < j < |h|
  {
    h[j].t - h[j - 1].t <= 30000
  }

  /** Sample `j` is less than five minutes older than the last. */
  predicate Inside(h: seq<Sample>, j: nat)
    requires j < |h|
  {
    h[j].t > h[|h| - 1].t - 300000
  }

  /** From sample `i` on there is no gap over thirty seconds, and all but `i` are inside the window. */
  ghost predicate Unbroken(h: seq<Sample>, i: nat) {
    i < |h| && forall j :: i < j < |h| ==> Joined(h, j) && Inside(h, j)
  }

  /** `w` is the longest such end of the history. */
  ghost predicate WindowFrom(h: seq<Sample>, w: seq<Sample>, i: nat) {
    Unbroken(h, i) && w == h[i..] && (i == 0 || !Unbroken(h, i - 1))
  }

  ghost predicate IsWindow(h: seq<Sample>, w: seq<Sample>) {
    if h == [] then w == [] else exists i: nat :: WindowFrom(h, w, i)
  }

  predicate EndsWith(w: seq<Sample>, s: Sample) {
    w != [] && w[|w| - 1] == s
  }

  class QueueHistory {
    var samples: seq<Sample>
    ghost var offered: seq<Sample>

    ghost predicate Valid()
      reads this
    {
      IsWindow(History(offered), samples)
    }

    constructor ()
      ensures Valid() && offered == [] && samples == []
    {
      samples, offered := [], [];
    }

    /** One more reading of the queue, unless it came late; says whether it was taken. */
    method Record(sample: Sample) returns (kept: bool)
      requires Valid()
      modifies this
      ensures Valid() && offered == old(offered) + [sample]
      ensures kept <==> !Late(old(offered), sample)
      ensures !kept ==> samples == old(samples)
      ensures kept ==> EndsWith(samples, sample)
    {
      ghost var i := Takes(offered, samples, sample);
      ghost var h := History(offered + [sample]);
      offered := offered + [sample];
      if samples != [] && sample.t < samples[|samples| - 1].t {
        return false;
      }
      Take(sample);
      assert EndsWith(h, sample);
      Trim(sample.t - TREND_MS, h, i);
      kept := true;
    }

    /** Put a sample at the end, in place of one of the same time, or of all of them after a gap. */
    method Take(sample: Sample)
      requires !Older(samples, sample)
      modifies this`samples
      ensures samples == Kept(old(samples), sample)
    {
      if samples != [] && sample.t == samples[|samples| - 1].t {
        samples := samples[..|samples| - 1];
      } else if samples != [] && sample.t - samples[|samples| - 1].t > GAP_MS {
        samples := [];
      }
      samples := samples + [sample];
    }

    /** Drop samples from the front while the second one is at or before the window's start. */
    method Trim(start: int, ghost h: seq<Sample>, ghost from: nat)
      requires Trimmable(h, samples, from) && start == h[|h| - 1].t - TREND_MS
      modifies this`samples
      ensures IsWindow(h, samples) && EndsWith(samples, h[|h| - 1])
    {
      ghost var i := from;
      while |samples| > 1 && samples[1].t <= start
        invariant Trimmable(h, samples, i)
        decreases |samples|
      {
        Trims(h, samples, i);
        samples := samples[1..];
        i := i + 1;
      }
      TrimmedIsWindow(h, samples, i);
      WindowEnds(h, samples);
    }
  }

  /** What one more sample makes of the window: nothing when it is late, and otherwise samples still to be
  trimmed, `i` of the history before them. */
  lemma Takes(offered: seq<Sample>, w: seq<Sample>, s: Sample) returns (i: nat)
    requires IsWindow(History(offered), w)
    ensures Late(offered, s) <==> Older(w, s)
    ensures if Older(w, s) then IsWindow(History(offered + [s]), w)
            else Trimmable(History(offered + [s]), Kept(w, s), i)
  {
    WindowEnds(History(offered), w);
    LateIsOlder(offered, s);
    HistorySnoc(offered, s);
    HistoryIncreases(offered + [s]);
    i := 0;
    if !Older(w, s) {
      i := Pushes(History(offered), w, s);
    }
  }

  /** The samples with one more, before they are trimmed to the window. */
  function Kept(w: seq<Sample>, s: Sample): seq<Sample> {
    if w != [] && s.t - w[|w| - 1].t > GAP_MS then [s] else Pushed(w, s)
  }

  lemma WindowEnds(h: seq<Sample>, w: seq<Sample>)
    requires IsWindow(h, w)
    ensures w == [] <==> h == []
    ensures w != [] ==> w[|w| - 1] == h[|h| - 1]
  {
  }

  /** What the samples are while they are trimmed: the end of the history from `i`, with no gap. */
  ghost predicate Trimmable(h: seq<Sample>, w: seq<Sample>, i: nat) {
    i < |h| && w == h[i..] && NoGap(h, i) && Increasing(h) && (i == 0 || !Unbroken(h, i - 1))
  }

  lemma Pushes(h: seq<Sample>, w: seq<Sample>, s: Sample) returns (i: nat)
    requires IsWindow(h, w) && Increasing(Pushed(h, s)) && (h != [] ==> h[|h| - 1].t <= s.t)
    ensures Trimmable(Pushed(h, s), Kept(w, s), i)
  {
    if h == [] {
      i := 0;
    } else {
      i :| WindowFrom(h, w, i);
      if s.t == h[|h| - 1].t {
        Replaced(h, w, i, s);
      } else if s.t - h[|h| - 1].t > GAP_MS {
        i := |h|;
        assert !Joined(h + [s], |h|);
      } else {
        Appended(h, w, i, s);
      }
    }
  }

  lemma Trims(h: seq<Sample>, w: seq<Sample>, i: nat)
    requires Trimmable(h, w, i) && |w| > 1 && w[1].t <= h[|h| - 1].t - TREND_MS
    ensures Trimmable(h, w[1..], i + 1)
  {
    assert h[i + 1] == w[1];
    assert !Inside(h, i + 1);
  }

  lemma TrimmedIsWindow(h: seq<Sample>, w: seq<Sample>, i: nat)
    requires Trimmable(h, w, i) && (|w| > 1 ==> w[1].t > h[|h| - 1].t - TREND_MS)
    ensures IsWindow(h, w)
  {
    if |w| > 1 {
      assert h[i + 1] == w[1];
      forall j | i < j < |h| ensures Inside(h, j) {
        assert h[i + 1].t <= h[j].t;
      }
    }
    assert WindowFrom(h, w, i);
  }

  ghost predicate NoGap(h: seq<Sample>, i: nat) {
    forall j :: i < j < |h| ==> Joined(h, j)
  }

  lemma Replaced(h: seq<Sample>, w: seq<Sample>, i: nat, s: Sample)
    requires WindowFrom(h, w, i) && h[|h| - 1].t == s.t && Increasing(Pushed(h, s))
    ensures Trimmable(Pushed(h, s), Pushed(w, s), i)
  {
    var h' := Pushed(h, s);
    assert forall j :: 0 <= j < |h| ==> h'[j].t == h[j].t;
    assert forall j :: 0 < j < |h| ==> Joined(h', j) == Joined(h, j) && Inside(h', j) == Inside(h, j);
    assert Pushed(w, s) == h'[i..];
    if i > 0 {
      StillBroken(h, h', i - 1);
    }
  }

  /** A break in the history stays one when samples are added, and time only moves on. */
  lemma StillBroken(h: seq<Sample>, h': seq<Sample>, i: nat)
    requires !Unbroken(h, i) && i < |h| <= |h'|
    requires forall j :: 0 < j < |h| ==> (Joined(h', j) ==> Joined(h, j)) && (Inside(h', j) ==> Inside(h, j))
    ensures !Unbroken(h', i)
  {
    var j :| i < j < |h| && !(Joined(h, j) && Inside(h, j));
    assert !(Joined(h', j) && Inside(h', j));
  }

  lemma Appended(h: seq<Sample>, w: seq<Sample>, i: nat, s: Sample)
    requires WindowFrom(h, w, i) && 0 < s.t - h[|h| - 1].t <= GAP_MS && Increasing(Pushed(h, s))
    ensures Trimmable(Pushed(h, s), Pushed(w, s), i)
  {
    var h' := h + [s];
    assert w != [] && w[|w| - 1] == h[|h| - 1];
    assert w + [s] == h'[i..];
    AppendedJoined(h, s);
    if i > 0 {
      StillBroken(h, h', i - 1);
    }
  }

  lemma AppendedJoined(h: seq<Sample>, s: Sample)
    requires h != [] && 0 < s.t - h[|h| - 1].t <= GAP_MS
    ensures forall j :: 0 < j < |h| ==> Joined(h + [s], j) == Joined(h, j) && (Inside(h + [s], j) ==> Inside(h, j))
    ensures Joined(h + [s], |h|)
  {
  }

  // ---------------------------------------------------------------- what the window holds

  /** The window is strictly increasing, has no gap over thirty seconds, and holds at most its first
  sample at or before the window's start. */
  lemma WindowShape(h: seq<Sample>, w: seq<Sample>)
    requires IsWindow(h, w) && Increasing(h)
    ensures Increasing(w)
    ensures forall j :: 0 < j < |w| ==> Joined(w, j) && Inside(w, j)
  {
    if h != [] {
      var i: nat :| WindowFrom(h, w, i);
      forall j | 0 < j < |w| ensures Joined(w, j) && Inside(w, j) {
        EndShape(h, i, j);
      }
      EndIncreases(h, i);
    }
  }

  lemma EndShape(h: seq<Sample>, i: nat, j: nat)
    requires Unbroken(h, i) && 0 < j < |h| - i
    ensures Joined(h[i..], j) && Inside(h[i..], j)
  {
    assert Joined(h, i + j) && Inside(h, i + j);
  }

  lemma EndIncreases(h: seq<Sample>, i: nat)
    requires Increasing(h) && i <= |h|
    ensures Increasing(h[i..])
  {
  }

  /** There is only one window of a history. */
  lemma WindowIsUnique(h: seq<Sample>, v: seq<Sample>, w: seq<Sample>)
    requires IsWindow(h, v) && IsWindow(h, w)
    ensures v == w
  {
    if h != [] {
      var i: nat :| WindowFrom(h, v, i);
      var j: nat :| WindowFrom(h, w, j);
      NotBefore(h, i, j);
      NotBefore(h, j, i);
    }
  }

  lemma NotBefore(h: seq<Sample>, i: nat, j: nat)
    requires Unbroken(h, i) && j < |h| && (j == 0 || !Unbroken(h, j - 1))
    ensures j <= i
  {
    if i < j {
      UnbrokenOn(h, i, j - 1);
      assert false;
    }
  }

  lemma UnbrokenOn(h: seq<Sample>, i: nat, j: nat)
    requires Unbroken(h, i) && i <= j < |h|
    ensures Unbroken(h, j)
  {
  }

  /** How far back the history goes, at most the window; and the depth's change over it. */
  function Coverage(w: seq<Sample>): int {
    if w == [] then 0
    else if w[|w| - 1].t - w[0].t < TREND_MS then w[|w| - 1].t - w[0].t else TREND_MS
  }

  function DepthChange(w: seq<Sample>): int {
    if w == [] then 0 else w[|w| - 1].messages - w[0].messages
  }

  /** A sample at or before the window's start, with no gap over thirty seconds since. */
  ghost predicate Baseline(h: seq<Sample>, b: nat) {
    b < |h| && !Inside(h, b) && NoGap(h, b)
  }

  /** The window's first sample is a baseline as soon as the history has one, and then the newest there
  is: the depth's change is measured from it. */
  lemma BaselineIsNewest(h: seq<Sample>, w: seq<Sample>, b: nat)
    requires IsWindow(h, w) && Increasing(h) && Baseline(h, b)
    ensures exists i: nat :: b <= i && Baseline(h, i) && w == h[i..] && forall j :: i < j < |h| ==> Inside(h, j)
  {
    var i: nat :| WindowFrom(h, w, i);
    if i < b {
      assert false;
    }
    if b < i {
      var j :| i - 1 < j < |h| && !(Joined(h, j) && Inside(h, j));
      assert Joined(h, j);
      assert h[i].t <= h[j].t;
    }
    assert Baseline(h, i);
  }

  /** Without one, the window reaches back to the last gap over thirty seconds, or to the first sample. */
  lemma ShortHistory(h: seq<Sample>, w: seq<Sample>)
    requires IsWindow(h, w) && h != [] && forall b: nat :: !Baseline(h, b)
    ensures exists i: nat :: i < |h| && w == h[i..] && NoGap(h, i) && (i == 0 || !Joined(h, i))
  {
    var i: nat :| WindowFrom(h, w, i);
    assert NoGap(h, i);
    assert !Baseline(h, i);
    assert Inside(h, i);
    if i > 0 && Joined(h, i) {
      assert Unbroken(h, i - 1);
    }
  }

  /** So the window is covered in full exactly when the history has a baseline. */
  lemma CoveredInFull(h: seq<Sample>, w: seq<Sample>)
    requires IsWindow(h, w) && Increasing(h) && h != []
    ensures Coverage(w) == TREND_MS <==> exists b: nat :: Baseline(h, b)
  {
    if b: nat :| Baseline(h, b) {
      BaselineIsNewest(h, w, b);
    } else {
      var i: nat :| WindowFrom(h, w, i);
      assert !Baseline(h, i);
    }
  }

  /** Sample `i` is where the depth's change is measured from: with no gap since, it is the newest one at or
  before the window's start, which is then covered in full; or else the one after the last gap, or the first. */
  ghost predicate MeasuredFrom(h: seq<Sample>, i: nat, change: int, covered: int) {
    && i < |h| && change == h[|h| - 1].messages - h[i].messages
    && NoGap(h, i) && (forall j :: i < j < |h| ==> Inside(h, j))
    && if h[i].t <= h[|h| - 1].t - TREND_MS then covered == TREND_MS
       else covered == h[|h| - 1].t - h[i].t && (i == 0 || h[i].t - h[i - 1].t > GAP_MS)
  }

  lemma ChangeIsOverTheWindow(h: seq<Sample>, w: seq<Sample>)
    requires IsWindow(h, w) && h != []
    ensures exists i: nat :: MeasuredFrom(h, i, DepthChange(w), Coverage(w))
  {
    var i: nat :| WindowFrom(h, w, i);
    if i > 0 {
      var j :| i - 1 < j < |h| && !(Joined(h, j) && Inside(h, j));
      assert j == i;
    }
    assert NoGap(h, i);
    assert MeasuredFrom(h, i, DepthChange(w), Coverage(w));
  }
}
