/**
 The tag filter: with a non-empty selection a row is kept when any selected
 tag occurs in its tag list (exact, case-sensitive string equality); with an
 empty selection the table is returned as it is. Kept rows keep their index
 labels and their relative order.
 */
module Filter {
  import opened Catalog

  /** Some selected tag occurs in `tags`. */
  predicate Matches(tags: seq<string>, selected: seq<string>) {
    exists k :: 0 <= k < |selected| && selected[k] in tags
  }

  /** Index labels strictly increase along the sequence. */
  ghost predicate LabelsIncreasing(rows: seq<Row>) {
    forall j, k :: 0 <= j < k < |rows| ==> rows[j].index < rows[k].index
  }

  /** The boolean mask of the filter applied to `rows`. */
  function Keep(rows: seq<Row>, selected: seq<string>): (r: seq<Row>)
    ensures |r| <= |rows|
    ensures forall x :: x in r <==> x in rows && Matches(x.app.tags, selected)
  {
    if |rows| == 0 then []
    else
      var rest := Keep(rows[1..], selected);
      assert forall x :: x in rows <==> x == rows[0] || x in rows[1..] by {
        assert rows == [rows[0]] + rows[1..];
      }
      if Matches(rows[0].app.tags, selected) then [rows[0]] + rest else rest
  }

  lemma TailIncreasing(rows: seq<Row>)
    requires |rows| > 0 && LabelsIncreasing(rows)
    ensures LabelsIncreasing(rows[1..])
    ensures forall x :: x in rows[1..] ==> rows[0].index < x.index
  {
    var tail := rows[1..];
    forall j, k | 0 <= j < k < |tail|
      ensures tail[j].index < tail[k].index
    {
      assert tail[j] == rows[j + 1] && tail[k] == rows[k + 1];
    }
    forall x | x in tail
      ensures rows[0].index < x.index
    {
      var k :| 0 <= k < |tail| && tail[k] == x;
      assert rows[k + 1] == x;
    }
  }

  lemma ConsIncreasing(x: Row, rest: seq<Row>)
    requires LabelsIncreasing(rest)
    requires forall y :: y in rest ==> x.index < y.index
    ensures LabelsIncreasing([x] + rest)
  {
    var r := [x] + rest;
    forall j, k | 0 <= j < k < |r|
      ensures r[j].index < r[k].index
    {
      assert r[k] == rest[k - 1];
      if j > 0 {
        assert r[j] == rest[j - 1];
      } else {
        assert r[k] in rest;
      }
    }
  }

  /** Keeping rows never reorders them. */
  lemma {:induction false} KeepPreservesOrder(rows: seq<Row>, selected: seq<string>)
    requires LabelsIncreasing(rows)
    ensures LabelsIncreasing(Keep(rows, selected))
  {
    if |rows| > 0 {
      TailIncreasing(rows);
      KeepPreservesOrder(rows[1..], selected);
      if Matches(rows[0].app.tags, selected) {
        ConsIncreasing(rows[0], Keep(rows[1..], selected));
      }
    }
  }

  /** When no row matches, nothing is kept. */
  lemma {:induction false} KeepNoneMatching(rows: seq<Row>, selected: seq<string>)
    requires forall x :: x in rows ==> !Matches(x.app.tags, selected)
    ensures Keep(rows, selected) == []
  {
    if |rows| > 0 {
      assert rows[0] in rows;
      forall x | x in rows[1..]
        ensures !Matches(x.app.tags, selected)
      {
        assert x in rows;
      }
      KeepNoneMatching(rows[1..], selected);
    }
  }

  /** `filtered_apps`: the whole table for an empty selection, the kept rows otherwise. */
  function FilterApps(rows: seq<Row>, selected: seq<string>): (r: seq<Row>)
    ensures |selected| == 0 ==> r == rows
    ensures |selected| > 0 ==>
      forall x :: x in r <==> x in rows && Matches(x.app.tags, selected)
  {
    if |selected| == 0 then rows else Keep(rows, selected)
  }

  /**
   Filtering the catalog table yields catalog records under their own labels,
   in catalog order, and record `i` is among them exactly when the selection is
   empty or one of its tags is in record `i`'s tags.
   */
  lemma FilterFrame(apps: seq<App>, selected: seq<string>)
    ensures LabelsIncreasing(FilterApps(Frame(apps), selected))
    ensures forall x :: x in FilterApps(Frame(apps), selected) ==>
      x.index < |apps| && x.app == apps[x.index]
    ensures forall i :: 0 <= i < |apps| ==>
      (Row(i, apps[i]) in FilterApps(Frame(apps), selected) <==>
       |selected| == 0 || Matches(apps[i].tags, selected))
  {
    var rows := Frame(apps);
    assert LabelsIncreasing(rows);
    if |selected| > 0 {
      KeepPreservesOrder(rows, selected);
    }
    forall x | x in FilterApps(rows, selected)
      ensures x.index < |apps| && x.app == apps[x.index]
    {
      var k :| 0 <= k < |rows| && rows[k] == x;
    }
    forall i | 0 <= i < |apps|
      ensures Row(i, apps[i]) in rows
    {
      assert rows[i] == Row(i, apps[i]);
    }
  }

  /** The filter looks at the selection only as a set: order and repeats do not matter. */
  lemma {:induction false} KeepSelectionAsSet(rows: seq<Row>, s1: seq<string>, s2: seq<string>)
    requires forall t :: t in s1 <==> t in s2
    ensures Keep(rows, s1) == Keep(rows, s2)
  {
    if |rows| > 0 {
      var tags := rows[0].app.tags;
      if Matches(tags, s1) {
        var k :| 0 <= k < |s1| && s1[k] in tags;
        assert s1[k] in s2;
      }
      if Matches(tags, s2) {
        var k :| 0 <= k < |s2| && s2[k] in tags;
        assert s2[k] in s1;
      }
      KeepSelectionAsSet(rows[1..], s1, s2);
    }
  }

  /** Selecting a tag that no row carries changes nothing. */
  lemma {:induction false} KeepIgnoresUnknownTag(rows: seq<Row>, selected: seq<string>, u: string)
    requires forall x :: x in rows ==> u !in x.app.tags
    ensures Keep(rows, selected + [u]) == Keep(rows, selected)
  {
    if |rows| > 0 {
      var tags := rows[0].app.tags;
      assert rows[0] in rows;
      if Matches(tags, selected + [u]) {
        var k :| 0 <= k < |selected + [u]| && (selected + [u])[k] in tags;
        assert k < |selected| && selected[k] in tags;
      }
      if Matches(tags, selected) {
        var k :| 0 <= k < |selected| && selected[k] in tags;
        assert (selected + [u])[k] in tags;
      }
      forall x | x in rows[1..]
        ensures u !in x.app.tags
      {
        assert x in rows;
      }
      KeepIgnoresUnknownTag(rows[1..], selected, u);
    }
  }

  /**
   A non-empty selection none of whose tags any row carries shows nothing,
   whereas the empty selection shows everything.
   */
  lemma UnknownSelectionIsEmpty(rows: seq<Row>, selected: seq<string>)
    requires |selected| > 0
    requires forall t, x :: t in selected && x in rows ==> t !in x.app.tags
    ensures FilterApps(rows, selected) == []
  {
    forall x | x in rows
      ensures !Matches(x.app.tags, selected)
    {
      forall k | 0 <= k < |selected|
        ensures selected[k] !in x.app.tags
      {
        assert selected[k] in selected;
      }
    }
    KeepNoneMatching(rows, selected);
  }
}
