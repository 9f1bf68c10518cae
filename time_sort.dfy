/**
 * `events.sort(key=lambda x: x['time'])`: Python's list sort is stable and
 * compares keys with `<` only, so the sorted bucket is the one an insertion
 * sort produces when it moves a record before its predecessor only while
 * the record's time is strictly smaller.
 */
module TimeSort {
  import opened TextOrder
  import opened Events

  /** Places `e` after every trailing record of `s` whose time is not later than its own. */
  function Insert(s: seq<Event>, e: Event): (r: seq<Event>)
    ensures |r| == |s| + 1
    decreases |s|
  {
    if s == [] || !StrLt(e.time, s[|s| - 1].time) then s + [e]
    else Insert(s[..|s| - 1], e) + [s[|s| - 1]]
  }

  /** The bucket after the stable sort on the `time` key. */
  function SortByTime(s: seq<Event>): (r: seq<Event>)
    ensures |r| == |s|
  {
    if s == [] then [] else Insert(SortByTime(s[..|s| - 1]), s[|s| - 1])
  }

  lemma {:induction false} InsertPermutes(s: seq<Event>, e: Event)
    ensures multiset(Insert(s, e)) == multiset(s) + multiset{e}
    decreases |s|
  {
    if s != [] && StrLt(e.time, s[|s| - 1].time) {
      InsertPermutes(s[..|s| - 1], e);
      assert s == s[..|s| - 1] + [s[|s| - 1]];
    }
  }

  /** The sorted bucket holds exactly the records of the bucket. */
  lemma {:induction false} SortByTimePermutes(s: seq<Event>)
    ensures multiset(SortByTime(s)) == multiset(s)
  {
    if s != [] {
      SortByTimePermutes(s[..|s| - 1]);
      InsertPermutes(SortByTime(s[..|s| - 1]), s[|s| - 1]);
      assert s == s[..|s| - 1] + [s[|s| - 1]];
    }
  }

  ghost predicate SortedByTime(s: seq<Event>)
  {
    forall i, j :: 0 <= i < j < |s| ==> StrLe(s[i].time, s[j].time)
  }

  /** The records of `s` whose time is exactly `t`, in their order in `s`. */
  function WithTime(s: seq<Event>, t: string): (r: seq<Event>)
    ensures |r| <= |s|
  {
    if s == [] then []
    else WithTime(s[..|s| - 1], t) + (if s[|s| - 1].time == t then [s[|s| - 1]] else [])
  }

  lemma {:induction false} WithTimeConcat(a: seq<Event>, b: seq<Event>, t: string)
    ensures WithTime(a + b, t) == WithTime(a, t) + WithTime(b, t)
    decreases |b|
  {
    if b == [] {
      assert a + b == a;
    } else {
      assert (a + b)[..|a + b| - 1] == a + b[..|b| - 1];
      WithTimeConcat(a, b[..|b| - 1], t);
    }
  }

  lemma {:induction false} InsertSorted(s: seq<Event>, e: Event)
    requires SortedByTime(s)
    ensures SortedByTime(Insert(s, e))
    decreases |s|
  {
    if s == [] {
      return;
    }
    var init, last := s[..|s| - 1], s[|s| - 1];
    if !StrLt(e.time, last.time) {
      StrLtIsNotReverseLe(e.time, last.time);
      forall i | 0 <= i < |s|
        ensures StrLe(s[i].time, e.time)
      {
        if i < |s| - 1 {
          StrLeTransitive(s[i].time, last.time, e.time);
        }
      }
    } else {
      InsertSorted(init, e);
      var r := Insert(init, e);
      InsertPermutes(init, e);
      forall x | x in r
        ensures StrLe(x.time, last.time)
      {
        assert x in multiset(r);
        if x != e {
          assert x in multiset(init);
          var i :| 0 <= i < |init| && init[i] == x;
        }
      }
      forall i, j | 0 <= i < j < |r| + 1
        ensures StrLe((r + [last])[i].time, (r + [last])[j].time)
      {
        if j == |r| {
          assert (r + [last])[i] in r;
        }
      }
    }
  }

  /** The sorted bucket is in ascending `time` order. */
  lemma {:induction false} SortByTimeSorted(s: seq<Event>)
    ensures SortedByTime(SortByTime(s))
  {
    if s != [] {
      SortByTimeSorted(s[..|s| - 1]);
      InsertSorted(SortByTime(s[..|s| - 1]), s[|s| - 1]);
    }
  }

  lemma WithTimeSingle(x: Event, t: string)
    ensures WithTime([x], t) == if x.time == t then [x] else []
  {
  }

  lemma {:induction false} InsertStable(s: seq<Event>, e: Event, t: string)
    ensures WithTime(Insert(s, e), t) == WithTime(s, t) + WithTime([e], t)
    decreases |s|
  {
    if s == [] || !StrLt(e.time, s[|s| - 1].time) {
      WithTimeConcat(s, [e], t);
    } else {
      var init, last := s[..|s| - 1], s[|s| - 1];
      var r := Insert(init, e);
      assert Insert(s, e) == r + [last];
      InsertStable(init, e, t);
      WithTimeConcat(r, [last], t);
      assert s == init + [last];
      WithTimeConcat(init, [last], t);
      WithTimeSingle(e, t);
      WithTimeSingle(last, t);
      SwapIfOneEmpty(WithTime(init, t), WithTime([e], t), WithTime([last], t));
    }
  }

  lemma SwapIfOneEmpty(w: seq<Event>, x: seq<Event>, y: seq<Event>)
    requires x == [] || y == []
    ensures w + x + y == w + y + x
  {
  }

  /** Stability: records with equal times keep their relative order. */
  lemma {:induction false} SortByTimeStable(s: seq<Event>, t: string)
    ensures WithTime(SortByTime(s), t) == WithTime(s, t)
  {
    if s != [] {
      var init, last := s[..|s| - 1], s[|s| - 1];
      var sortedInit := SortByTime(init);
      assert SortByTime(s) == Insert(sortedInit, last);
      SortByTimeStable(init, t);
      InsertStable(sortedInit, last, t);
      assert s == init + [last];
      WithTimeConcat(init, [last], t);
    }
  }

  /** A bucket already in `time` order comes back unchanged. */
  lemma {:induction false} SortByTimeKeepsSorted(s: seq<Event>)
    requires SortedByTime(s)
    ensures SortByTime(s) == s
  {
    if s != [] {
      var init, last := s[..|s| - 1], s[|s| - 1];
      SortByTimeKeepsSorted(init);
      if |init| > 0 && StrLt(last.time, init[|init| - 1].time) {
        StrLeAntisymmetric(last.time, init[|init| - 1].time);
        assert false;
      }
      assert s == init + [last];
    }
  }

  /**
   * Where the sort puts `e`: after the longest prefix of `sorted` whose last
   * record is not later than `e`, when every record after it is strictly later.
   */
  lemma {:induction false} InsertAt(sorted: seq<Event>, j: int, e: Event)
    requires 0 <= j <= |sorted|
    requires j == 0 || !StrLt(e.time, sorted[j - 1].time)
    requires forall k :: j <= k < |sorted| ==> StrLt(e.time, sorted[k].time)
    ensures Insert(sorted, e) == sorted[..j] + [e] + sorted[j..]
    decreases |sorted|
  {
    if j == |sorted| {
      assert sorted[..j] == sorted && sorted[j..] == [];
    } else {
      var init := sorted[..|sorted| - 1];
      assert init[..j] == sorted[..j];
      InsertAt(init, j, e);
      assert sorted[j..] == init[j..] + [sorted[|sorted| - 1]];
    }
  }

  /** One step of the sort: moves `a[i]` back past the later-timed records before it. */
  method InsertInPlace(a: array<Event>, i: int)
    requires 0 <= i < a.Length
    modifies a
    ensures a[..i + 1] == Insert(old(a[..i]), old(a[i]))
    ensures a[i + 1..] == old(a[i + 1..])
  {
    var e := a[i];
    ghost var sorted := a[..i];
    var j := i;
    while j > 0 && StrLt(e.time, a[j - 1].time)
      invariant 0 <= j <= i
      invariant forall k :: 0 <= k < j ==> a[k] == sorted[k]
      invariant forall k :: j < k <= i ==> a[k] == sorted[k - 1]
      invariant forall k :: i < k < a.Length ==> a[k] == old(a[k])
      invariant forall k :: j <= k < i ==> StrLt(e.time, sorted[k].time)
    {
      a[j] := a[j - 1];
      j := j - 1;
    }
    a[j] := e;
    InsertAt(sorted, j, e);
    assert a[..i + 1] == sorted[..j] + [e] + sorted[j..];
  }

  /** `list.sort` on the bucket, in place. */
  method SortInPlace(a: array<Event>)
    modifies a
    ensures a[..] == SortByTime(old(a[..]))
  {
    ghost var input := a[..];
    var i := 0;
    while i < a.Length
      invariant 0 <= i <= a.Length
      invariant a[..i] == SortByTime(input[..i])
      invariant a[i..] == input[i..]
    {
      assert input[..i + 1][..i] == input[..i];
      assert a[i] == input[i];
      InsertInPlace(a, i);
      i := i + 1;
    }
    assert input[..a.Length] == input;
  }
}
