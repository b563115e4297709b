/** The interval sweep of ReadinessReportClient in dp4_redis.py. */
module RangeCoverage {
  datatype Interval = Interval(startTs: int, endTs: int)

  /** Some interval contains t; an interval whose start is after its end contains nothing. */
  ghost predicate Covered(intervals: seq<Interval>, t: int) {
    exists i :: i in intervals && i.startTs <= t <= i.endTs
  }

  /** Some interval reaches over the whole stretch between lo and hi. */
  ghost predicate Spanned(intervals: seq<Interval>, lo: int, hi: int) {
    exists i :: i in intervals && i.startTs <= lo && hi <= i.endTs
  }

  /**
   * The verdict the sweep should reach, for every list and every pair of bounds. A range that runs
   * forwards is complete when each of its seconds is covered. A range that runs backwards is complete
   * when one interval spans it from end to end.
   */
  ghost predicate Complete(intervals: seq<Interval>, epochStart: int, epochEnd: int) {
    if epochStart <= epochEnd then
      forall t :: epochStart <= t < epochEnd ==> Covered(intervals, t)
    else
      Spanned(intervals, epochEnd, epochStart)
  }

  predicate SortedByStart(s: seq<Interval>) {
    forall i, j :: 0 <= i < j < |s| ==> s[i].startTs <= s[j].startTs
  }

  function Insert(x: Interval, s: seq<Interval>): (r: seq<Interval>)
    requires SortedByStart(s)
    ensures SortedByStart(r)
    ensures forall y :: y in r <==> y == x || y in s
  {
    if s == [] || x.startTs <= s[0].startTs then
      [x] + s
    else
      var rest := Insert(x, s[1..]);
      HeadStaysFirst(x, s, rest);
      [s[0]] + rest
  }

  lemma HeadStaysFirst(x: Interval, s: seq<Interval>, rest: seq<Interval>)
    requires s != [] && SortedByStart(s) && s[0].startTs < x.startTs
    requires SortedByStart(rest) && forall y :: y in rest ==> y == x || y in s[1..]
    ensures SortedByStart([s[0]] + rest)
  {
    forall j | 0 <= j < |rest| ensures s[0].startTs <= rest[j].startTs {
      if rest[j] != x {
        assert rest[j] in s[1..];
        var k :| 0 <= k < |s[1..]| && s[1..][k] == rest[j];
        assert s[k + 1] == rest[j];
      }
    }
  }

  /** Python's sorted(..., key=start_ts). */
  function SortByStart(s: seq<Interval>): (r: seq<Interval>)
    ensures SortedByStart(r)
    ensures forall y :: y in r <==> y in s
  {
    if s == [] then [] else Insert(s[0], SortByStart(s[1..]))
  }

  /** What the loop knows once it has looked at the first n intervals. */
  ghost predicate Swept(s: seq<Interval>, n: nat, lo: int, hi: int, remaining: int)
    requires n <= |s|
  {
    if lo <= hi then
      && lo <= remaining <= hi
      && (forall t :: lo <= t < remaining ==> Covered(s, t))
      && (remaining < hi ==> forall i :: 0 <= i < n && s[i].startTs <= s[i].endTs ==> s[i].endTs < remaining)
    else
      if remaining == hi then Spanned(s, hi, lo)
      else remaining == lo && forall i :: 0 <= i < n ==> !(s[i].startTs <= hi && lo <= s[i].endTs)
  }

  function Advance(i: Interval, remaining: int, hi: int): int {
    var past := if remaining > i.endTs + 1 then remaining else i.endTs + 1;
    if past < hi then past else hi
  }

  lemma SweepOne(s: seq<Interval>, n: nat, lo: int, hi: int, remaining: int)
    requires n < |s| && Swept(s, n, lo, hi, remaining)
    requires s[n].startTs <= remaining && s[n].startTs <= hi && s[n].endTs >= remaining
    ensures Swept(s, n + 1, lo, hi, Advance(s[n], remaining, hi))
  {
    var next := Advance(s[n], remaining, hi);
    if lo <= hi {
      forall t | lo <= t < next ensures Covered(s, t) {
        if t >= remaining {
          assert s[n] in s;
        }
      }
    } else {
      assert next == hi;
      if remaining == lo {
        assert s[n] in s;
      }
    }
  }

  lemma SweepStops(s: seq<Interval>, n: nat, lo: int, hi: int, remaining: int)
    requires SortedByStart(s) && n <= |s| && Swept(s, n, lo, hi, remaining)
    requires n < |s| ==> s[n].startTs > remaining || s[n].startTs > hi
    ensures remaining == hi <==> Complete(s, lo, hi)
  {
    if lo <= hi {
      if remaining < hi {
        assert !Covered(s, remaining);
      }
    } else if remaining == lo {
      forall i | i in s ensures !(i.startTs <= hi && lo <= i.endTs) {
        var j :| 0 <= j < |s| && s[j] == i;
        if n < j {
          assert s[n].startTs <= s[j].startTs;
        }
      }
    }
  }

  method IsRangeComplete(available: seq<Interval>, epochStart: int, epochEnd: int) returns (complete: bool)
    ensures complete <==> Complete(available, epochStart, epochEnd)
  {
    var byStart := SortByStart(available);
    var remainingStart, remainingEnd := epochStart, epochEnd;
    var n := 0;
    while n < |byStart|
      invariant 0 <= n <= |byStart|
      invariant Swept(byStart, n, epochStart, epochEnd, remainingStart)
    {
      var interval := byStart[n];
      if interval.startTs > interval.endTs {
        n := n + 1;
        continue;
      }
      if interval.startTs > remainingStart {
        break;
      }
      if interval.startTs <= remainingEnd && interval.endTs >= remainingStart {
        SweepOne(byStart, n, epochStart, epochEnd, remainingStart);
        remainingStart := Advance(interval, remainingStart, remainingEnd);
      } else if interval.startTs > remainingEnd && interval.endTs > remainingEnd {
        break;
      }
      n := n + 1;
    }
    complete := remainingStart == remainingEnd;
    SweepStops(byStart, n, epochStart, epochEnd, remainingStart);
    CompleteGrows(byStart, available, epochStart, epochEnd);
    CompleteGrows(available, byStart, epochStart, epochEnd);
  }

  /** More intervals, in any order, never turn a complete range into an incomplete one. */
  lemma CompleteGrows(some: seq<Interval>, more: seq<Interval>, epochStart: int, epochEnd: int)
    requires forall i :: i in some ==> i in more
    ensures Complete(some, epochStart, epochEnd) ==> Complete(more, epochStart, epochEnd)
  {
    forall t | Covered(some, t) ensures Covered(more, t) {
      var i :| i in some && i.startTs <= t <= i.endTs;
      assert i in more;
    }
  }
}
