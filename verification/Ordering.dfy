/** Finite sets of ids read in ascending order, as SQL's ORDER BY returns them. */
module Ordering {
  import Totals

  ghost predicate IsLeast(s: set<int>, m: int) {
    m in s && forall x :: x in s ==> m <= x
  }

  lemma {:induction false} LeastExists(s: set<int>)
    requires |s| > 0
    ensures exists m :: IsLeast(s, m)
    decreases |s|
  {
    var y := Totals.SomeMember(s);
    var rest := s - {y};
    assert forall x :: x in s ==> x == y || x in rest;
    if |rest| == 0 {
      assert IsLeast(s, y);
    } else {
      LeastExists(rest);
      var m :| IsLeast(rest, m);
      if y < m {
        assert IsLeast(s, y);
      } else {
        assert IsLeast(s, m);
      }
    }
  }

  function Least(s: set<int>): (m: int)
    requires |s| > 0
    ensures IsLeast(s, m)
  {
    LeastExists(s);
    var m :| m in s && forall x :: x in s ==> m <= x;
    m
  }

  predicate Increasing(ids: seq<int>) {
    forall i, j :: 0 <= i < j < |ids| ==> ids[i] < ids[j]
  }

  lemma Prepend(s: set<int>, m: int, rest: seq<int>)
    requires forall x :: x in rest <==> x in s && x != m
    requires m in s && Increasing(rest)
    requires forall x :: x in s ==> m <= x
    ensures Increasing([m] + rest)
    ensures forall x :: x in [m] + rest <==> x in s
  {
    var ids := [m] + rest;
    forall i, j | 0 <= i < j < |ids|
      ensures ids[i] < ids[j]
    {
      assert ids[j] == rest[j - 1] && rest[j - 1] in rest;
    }
  }

  function Ascending(s: set<int>): (ids: seq<int>)
    ensures forall x :: x in ids <==> x in s
    ensures |ids| == |s|
    ensures Increasing(ids)
    decreases |s|
  {
    if |s| == 0 then []
    else
      var m := Least(s);
      var rest := Ascending(s - {m});
      Prepend(s, m, rest);
      [m] + rest
  }

  /** Whatever an increasing sequence holds beyond its first `n` elements lies above them. */
  lemma PrefixIsLower(ids: seq<int>, n: nat, x: int)
    requires Increasing(ids) && 0 < n <= |ids|
    requires x in ids && x !in ids[..n]
    ensures x > ids[n - 1]
  {
    var i :| 0 <= i < |ids| && ids[i] == x;
    assert forall j | 0 <= j < n :: ids[..n][j] == ids[j] && ids[..n][j] in ids[..n];
  }

  lemma UpToLastIsInPrefix(ids: seq<int>, n: nat, x: int)
    requires Increasing(ids) && 0 < n <= |ids|
    requires x in ids && x <= ids[n - 1]
    ensures x in ids[..n]
  {
    var i :| 0 <= i < |ids| && ids[i] == x;
    assert ids[..n][i] == x;
  }

  /** A total accumulated over rows in id order. */
  function SumInOrder(ids: seq<int>, values: map<int, int>): int
    requires forall x :: x in ids ==> x in values
  {
    if ids == [] then 0
    else
      var h, rest := ids[0], ids[1..];
      assert h in ids && ids == [h] + rest;
      values[h] + SumInOrder(rest, values)
  }

  lemma {:induction false} SumInOrderIsSum(ids: seq<int>, values: map<int, int>, part: map<int, int>)
    requires Increasing(ids)
    requires forall x :: x in part <==> x in ids
    requires forall x :: x in part ==> x in values && values[x] == part[x]
    ensures SumInOrder(ids, values) == Totals.Sum(part)
    decreases |ids|
  {
    if ids == [] {
      assert forall x :: x !in part;
      assert part == map[];
    } else {
      var h, rest := ids[0], ids[1..];
      assert h in ids;
      assert forall x :: x in rest <==> x in ids && x != h by {
        assert ids == [h] + rest;
      }
      SumInOrderIsSum(rest, values, part - {h});
      Totals.SumRemove(part, h);
    }
  }
}
