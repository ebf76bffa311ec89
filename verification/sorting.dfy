/**
 `sorted(set(xs))` on a list of strings: the distinct values of `xs` in
 ascending order. The result is characterised by being strictly ascending
 and holding exactly the values of `xs`; `AscendingUnique` shows that this
 characterisation pins down a single sequence.
 */
module Sorting {
  import opened Strings

  /** Every earlier element is smaller than every later one (hence no duplicates). */
  ghost predicate StrictlyAscending(s: seq<string>) {
    forall i, j :: 0 <= i < j < |s| ==> Less(s[i], s[j])
  }

  /** Each element is smaller than its successor. */
  predicate AdjacentAscending(s: seq<string>) {
    forall i :: 0 <= i < |s| - 1 ==> Less(s[i], s[i + 1])
  }

  /** Inserts `t` into an ascending sequence, dropping it if already present. */
  function Insert(s: seq<string>, t: string): (r: seq<string>)
    requires StrictlyAscending(s)
    ensures StrictlyAscending(r)
    ensures forall x :: x in r <==> x in s || x == t
  {
    if |s| == 0 then [t]
    else if t == s[0] then s
    else if Less(t, s[0]) then
      assert forall j :: 0 <= j < |s| ==> Less(t, s[j]) by {
        forall j | 0 <= j < |s| {
          LessTransitive(t, s[0], s[j]);
        }
      }
      [t] + s
    else
      LessTotal(t, s[0]);
      var tail := Insert(s[1..], t);
      assert forall x :: x in tail ==> Less(s[0], x) by {
        forall x | x in tail
          ensures Less(s[0], x)
        {
          if x != t {
            var j :| 0 <= j < |s[1..]| && s[1..][j] == x;
            assert s[j + 1] == x;
          }
        }
      }
      [s[0]] + tail
  }

  /** `sorted(set(xs))`. */
  function SortedUnique(xs: seq<string>): (r: seq<string>)
    ensures StrictlyAscending(r)
    ensures forall x :: x in r <==> x in xs
  {
    if |xs| == 0 then []
    else Insert(SortedUnique(xs[1..]), xs[0])
  }

  lemma {:induction false} AdjacentIsStrict(s: seq<string>)
    requires AdjacentAscending(s)
    ensures StrictlyAscending(s)
  {
    if |s| > 1 {
      AdjacentIsStrict(s[1..]);
      forall j | 1 <= j < |s|
        ensures Less(s[0], s[j])
      {
        if j > 1 {
          assert Less(s[1], s[j]) by {
            assert s[1..][0] == s[1] && s[1..][j - 1] == s[j];
          }
          LessTransitive(s[0], s[1], s[j]);
        }
      }
      forall i, j | 0 <= i < j < |s|
        ensures Less(s[i], s[j])
      {
        if i > 0 {
          assert s[1..][i - 1] == s[i] && s[1..][j - 1] == s[j];
        }
      }
    }
  }

  /** The first element of an ascending sequence is below all the others. */
  lemma HeadIsLeast(s: seq<string>, x: string)
    requires StrictlyAscending(s)
    requires x in s
    ensures s[0] == x || Less(s[0], x)
  {
    var j :| 0 <= j < |s| && s[j] == x;
    if j > 0 {
      assert Less(s[0], s[j]);
    }
  }

  /** Two strictly ascending sequences with the same elements are equal. */
  lemma {:induction false} AscendingUnique(a: seq<string>, b: seq<string>)
    requires StrictlyAscending(a) && StrictlyAscending(b)
    requires forall x :: x in a <==> x in b
    ensures a == b
    decreases |a|
  {
    if |a| > 0 {
      assert a[0] in b;
    }
    if |b| > 0 {
      assert b[0] in a;
    }
    if |a| > 0 {
      HeadIsLeast(a, b[0]);
      HeadIsLeast(b, a[0]);
      LessAsymmetric(a[0], b[0]);
      assert StrictlyAscending(a[1..]) by {
        forall i, j | 0 <= i < j < |a[1..]| ensures Less(a[1..][i], a[1..][j]) {
          assert a[1..][i] == a[i + 1] && a[1..][j] == a[j + 1];
        }
      }
      assert StrictlyAscending(b[1..]) by {
        forall i, j | 0 <= i < j < |b[1..]| ensures Less(b[1..][i], b[1..][j]) {
          assert b[1..][i] == b[i + 1] && b[1..][j] == b[j + 1];
        }
      }
      forall x
        ensures x in a[1..] <==> x in b[1..]
      {
        if x in a[1..] {
          var i :| 0 <= i < |a[1..]| && a[1..][i] == x;
          assert Less(a[0], a[i + 1]);
          LessIrreflexive(x);
          assert x in b && x != b[0];
          var j :| 0 <= j < |b| && b[j] == x;
          assert b[1..][j - 1] == x;
        }
        if x in b[1..] {
          var i :| 0 <= i < |b[1..]| && b[1..][i] == x;
          assert Less(b[0], b[i + 1]);
          LessIrreflexive(x);
          assert x in a && x != a[0];
          var j :| 0 <= j < |a| && a[j] == x;
          assert a[1..][j - 1] == x;
        }
      }
      AscendingUnique(a[1..], b[1..]);
      assert a == [a[0]] + a[1..] && b == [b[0]] + b[1..];
    }
  }
}
