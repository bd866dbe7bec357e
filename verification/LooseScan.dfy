/** The newest embeddings load, found by walking the distinct model versions through their index instead
of reading every row. */
module LooseScan {
  import opened Wrappers

  /** Versions are compared as their index orders them; `computedAt` is the time of the load. */
  datatype Row = Row(modelVersion: int, computedAt: int)

  ghost predicate HasVersion(table: seq<Row>, v: int) {
    exists i :: 0 <= i < |table| && table[i].modelVersion == v
  }

  /** One look into the index: the first version past `after`, or the first of all when there is none. */
  function Next(table: seq<Row>, after: Option<int>): Option<int> {
    if table == [] then None
    else
      var v := Next(table[1..], after);
      var first := table[0].modelVersion;
      if after.Some? && first <= after.value then v
      else if v.Some? && v.value <= first then v
      else Some(first)
  }

  lemma {:induction false} NextIsLeast(table: seq<Row>, after: Option<int>)
    ensures match Next(table, after)
            case Some(v) =>
              && HasVersion(table, v) && (after.Some? ==> v > after.value)
              && forall w :: HasVersion(table, w) && (after.Some? ==> w > after.value) ==> v <= w
            case None => forall w :: HasVersion(table, w) ==> after.Some? && w <= after.value
  {
    if table != [] {
      NextIsLeast(table[1..], after);
      var rest := table[1..];
      assert forall i :: 0 <= i < |rest| ==> rest[i] == table[i + 1];
      forall w ensures HasVersion(table, w) <==> w == table[0].modelVersion || HasVersion(rest, w) {
        OneMoreRow(table, w);
      }
    }
  }

  lemma OneMoreRow(table: seq<Row>, w: int)
    requires table != []
    ensures HasVersion(table, w) <==> w == table[0].modelVersion || HasVersion(table[1..], w)
  {
    var rest := table[1..];
    if HasVersion(table, w) {
      var i :| 0 <= i < |table| && table[i].modelVersion == w;
      if i > 0 {
        assert rest[i - 1].modelVersion == w;
      }
    }
    if HasVersion(rest, w) {
      var i :| 0 <= i < |rest| && rest[i].modelVersion == w;
      assert table[i + 1].modelVersion == w;
    }
    assert table[0].modelVersion == w ==> HasVersion(table, w);
  }

  /** How many rows are of a version after `v`: what the recursion has left to find. */
  function Left(table: seq<Row>, v: int): nat {
    if table == [] then 0 else Left(table[1..], v) + if table[0].modelVersion > v then 1 else 0
  }

  lemma {:induction false} LeftFalls(table: seq<Row>, v: int, w: int)
    requires v < w
    ensures Left(table, w) <= Left(table, v)
    ensures HasVersion(table, w) ==> Left(table, w) < Left(table, v)
  {
    if table != [] {
      LeftFalls(table[1..], v, w);
      OneMoreRow(table, w);
    }
  }

  /** The recursive part: each turn looks past the row of the turn before, until it finds none; that last
  null is a row of the result too. */
  function Versions(table: seq<Row>, last: int): (r: seq<Option<int>>)
    requires HasVersion(table, last)
    decreases Left(table, last)
  {
    var next := Next(table, Some(last));
    NextIsLeast(table, Some(last));
    if next.Some? then
      LeftFalls(table, last, next.value);
      [next] + Versions(table, next.value)
    else [None]
  }

  function AllVersions(table: seq<Row>): seq<Option<int>> {
    var first := Next(table, None);
    NextIsLeast(table, None);
    if first.Some? then [first] + Versions(table, first.value) else []
  }

  /** `vs` lists versions in ascending order, all after `last` and then a null, and misses none. */
  ghost predicate ListsAfter(table: seq<Row>, last: int, vs: seq<Option<int>>) {
    && vs != [] && vs[|vs| - 1] == None
    && (forall k :: 0 <= k < |vs| - 1 ==> vs[k].Some? && vs[k].value > last && HasVersion(table, vs[k].value))
    && (forall j, k :: 0 <= j < k < |vs| - 1 ==> vs[j].value < vs[k].value)
    && (forall w :: HasVersion(table, w) && w > last ==> Some(w) in vs)
  }

  lemma {:induction false} VersionsAreListed(table: seq<Row>, last: int)
    requires HasVersion(table, last)
    ensures ListsAfter(table, last, Versions(table, last))
    decreases Left(table, last)
  {
    NextIsLeast(table, Some(last));
    var next := Next(table, Some(last));
    if next.Some? {
      LeftFalls(table, last, next.value);
      VersionsAreListed(table, next.value);
      OneMoreVersion(table, last, next.value, Versions(table, next.value));
    }
  }

  lemma OneMoreVersion(table: seq<Row>, last: int, next: int, vs: seq<Option<int>>)
    requires ListsAfter(table, next, vs) && next > last && HasVersion(table, next)
    requires forall w :: HasVersion(table, w) && w > last ==> next <= w
    ensures ListsAfter(table, last, [Some(next)] + vs)
  {
    var all := [Some(next)] + vs;
    forall k | 0 <= k < |all| - 1 ensures all[k].Some? && all[k].value > last && HasVersion(table, all[k].value) {
      if k > 0 {
        assert all[k] == vs[k - 1];
      }
    }
    forall j, k | 0 <= j < k < |all| - 1 ensures all[j].value < all[k].value {
      assert all[k] == vs[k - 1];
      if j > 0 {
        assert all[j] == vs[j - 1];
      }
    }
  }

  /** `vs` lists every version of the table once, in ascending order, and then a null; nothing at all for
  an empty table. */
  ghost predicate ListsAll(table: seq<Row>, vs: seq<Option<int>>) {
    if table == [] then vs == []
    else
      && vs != [] && vs[|vs| - 1] == None
      && (forall k :: 0 <= k < |vs| - 1 ==> vs[k].Some? && HasVersion(table, vs[k].value))
      && (forall j, k :: 0 <= j < k < |vs| - 1 ==> vs[j].value < vs[k].value)
      && (forall w :: HasVersion(table, w) ==> Some(w) in vs)
  }

  /** The recursion stops, and lists every distinct version of the table exactly once, in ascending order. */
  lemma EachVersionOnce(table: seq<Row>)
    ensures ListsAll(table, AllVersions(table))
  {
    NextIsLeast(table, None);
    if table != [] {
      assert HasVersion(table, table[0].modelVersion);
      var first := Next(table, None).value;
      VersionsAreListed(table, first);
      OneMoreVersion(table, first - 1, first, Versions(table, first));
      ListedAfterAll(table, first - 1, AllVersions(table));
    }
  }

  lemma ListedAfterAll(table: seq<Row>, last: int, vs: seq<Option<int>>)
    requires table != [] && ListsAfter(table, last, vs) && forall w :: HasVersion(table, w) ==> w > last
    ensures ListsAll(table, vs)
  {
  }

  // ---------------------------------------------------------------- the row it chooses

  /** One row of each version listed, any one of them: `LIMIT 1` without an order. */
  ghost predicate Picked(table: seq<Row>, vs: seq<Option<int>>, picks: seq<Row>) {
    && |picks| == (if vs == [] then 0 else |vs| - 1)
    && forall k :: 0 <= k < |picks| ==> picks[k] in table && vs[k] == Some(picks[k].modelVersion)
  }

  ghost predicate Newest(rows: seq<Row>, r: Row) {
    r in rows && forall row :: row in rows ==> row.computedAt <= r.computedAt
  }

  /** What the query may answer. */
  ghost predicate Answers(table: seq<Row>, r: Option<Row>) {
    exists picks :: Picked(table, AllVersions(table), picks)
        && (if picks == [] then r == None else r.Some? && Newest(picks, r.value))
  }

  ghost predicate OneLoadPerVersion(table: seq<Row>) {
    forall a, b :: a in table && b in table && a.modelVersion == b.modelVersion ==> a.computedAt == b.computedAt
  }

  lemma VersionPicked(table: seq<Row>, picks: seq<Row>, row: Row) returns (k: nat)
    requires Picked(table, AllVersions(table), picks) && row in table
    ensures k < |picks| && picks[k].modelVersion == row.modelVersion && picks[k] in picks
  {
    EachVersionOnce(table);
    var i :| 0 <= i < |table| && table[i] == row;
    assert HasVersion(table, row.modelVersion);
    var vs := AllVersions(table);
    k :| 0 <= k < |vs| && vs[k] == Some(row.modelVersion);
  }

  /** The query answers no row exactly when the table is empty; and when each load wrote one time on all
  its rows, the row it answers is the newest of the whole table. */
  lemma AnswerIsNewest(table: seq<Row>, r: Option<Row>)
    requires Answers(table, r)
    ensures r == None <==> table == []
    ensures r.Some? && OneLoadPerVersion(table) ==> Newest(table, r.value)
  {
    var picks: seq<Row> :| Picked(table, AllVersions(table), picks)
        && (if picks == [] then r == None else r.Some? && Newest(picks, r.value));
    if table != [] {
      var _ := VersionPicked(table, picks, table[0]);
    } else {
      EachVersionOnce(table);
    }
    if r.Some? && OneLoadPerVersion(table) {
      forall row | row in table ensures row.computedAt <= r.value.computedAt {
        var k := VersionPicked(table, picks, row);
        assert picks[k].computedAt == row.computedAt;
      }
    }
  }

  /** Some version's rows all carry the newest time. */
  ghost predicate NewestThroughout(table: seq<Row>, v: int) {
    HasVersion(table, v) && forall row :: row in table && row.modelVersion == v ==> Newest(table, row)
  }

  lemma {:induction false} OlderPicks(table: seq<Row>, vs: seq<Option<int>>) returns (picks: seq<Row>)
    requires forall k :: 0 <= k < |vs| ==>
             vs[k].Some? && HasVersion(table, vs[k].value) && !NewestThroughout(table, vs[k].value)
    ensures |picks| == |vs|
    ensures forall k :: 0 <= k < |picks| ==>
              picks[k] in table && vs[k] == Some(picks[k].modelVersion) && !Newest(table, picks[k])
  {
    if vs == [] {
      picks := [];
    } else {
      var before := OlderPicks(table, vs[..|vs| - 1]);
      var v := vs[|vs| - 1].value;
      var row :| row in table && row.modelVersion == v && !Newest(table, row);
      picks := before + [row];
    }
  }

  lemma {:induction false} HasNewest(rows: seq<Row>) returns (r: Row)
    requires rows != []
    ensures Newest(rows, r)
  {
    if |rows| == 1 {
      r := rows[0];
    } else {
      var rest := rows[1..];
      var newest := HasNewest(rest);
      r := if rows[0].computedAt < newest.computedAt then newest else rows[0];
      forall row | row in rows ensures row.computedAt <= r.computedAt {
        assert row == rows[0] || row in rest;
      }
    }
  }

  /** Whichever rows it picks, the query finds the newest load exactly when some version's rows all carry
  the newest time. */
  lemma AlwaysNewest(table: seq<Row>)
    requires table != []
    ensures (forall r :: Answers(table, r) ==> r.Some? && Newest(table, r.value)) <==>
            exists v :: NewestThroughout(table, v)
  {
    EachVersionOnce(table);
    var vs := AllVersions(table);
    if v :| NewestThroughout(table, v) {
      forall r | Answers(table, r) ensures r.Some? && Newest(table, r.value) {
        AnswerIsNewest(table, r);
        var picks: seq<Row> :| Picked(table, vs, picks)
            && (if picks == [] then r == None else r.Some? && Newest(picks, r.value));
        var i :| 0 <= i < |table| && table[i].modelVersion == v;
        var k := VersionPicked(table, picks, table[i]);
        assert Newest(table, picks[k]);
      }
    } else {
      var picks := OlderPicks(table, vs[..|vs| - 1]);
      assert Picked(table, vs, picks);
      var _ := VersionPicked(table, picks, table[0]);
      var r := HasNewest(picks);
      assert Answers(table, Some(r));
    }
  }

  /** Two rows of one version, the second of a later load: the scan may stop at the first. */
  lemma OlderRowChosen(table: seq<Row>)
    requires table == [Row(1, 100), Row(1, 200)]
    ensures Answers(table, Some(Row(1, 100))) && !Newest(table, Row(1, 100)) && Newest(table, Row(1, 200))
  {
    var rest := table[1..];
    assert rest == [Row(1, 200)] && rest[1..] == [];
    assert Next(rest, None) == Some(1) && Next(rest, Some(1)) == None;
    assert Next(table, None) == Some(1) && Next(table, Some(1)) == None;
    NextIsLeast(table, None);
    var vs := AllVersions(table);
    assert vs == [Some(1), None];
    var picks := [table[0]];
    assert Picked(table, vs, picks);
    assert Newest(picks, table[0]);
    assert table[1] in table;
  }
}
