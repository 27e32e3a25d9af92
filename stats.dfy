/**
  The daily aggregator `Analysis`: over one day's canonical records it stamps
  every record with the key `hour` (in place, keeping a value already there)
  and computes the summary row: the report date, the number of attempts, the
  earliest and latest attempt times, the most common hour with its count, the
  number of correct attempts and the number of distinct users.
*/
module Stats {
  import opened Wrappers
  import opened DateTimes
  import opened Values

  const HourKey := "hour"

  /** `user.get('hour', user['created_at'].hour)` */
  function HourOf(a: Attempt): int {
    if Get(a.extra, HourKey).Some? then Get(a.extra, HourKey).value else a.createdAt.hour
  }

  /** `user['hour'] = user.get('hour', user['created_at'].hour)` */
  function WithHour(a: Attempt): Attempt {
    a.(extra := SetDefault(a.extra, HourKey, a.createdAt.hour))
  }

  /** Stamping changes nothing but `hour`, stores the hour the record reports, and a second
      stamp changes nothing. */
  lemma WithHourGet(a: Attempt)
    ensures WithHour(a).(extra := a.extra) == a
    ensures Get(WithHour(a).extra, HourKey) == Some(HourOf(a))
    ensures HourOf(WithHour(a)) == HourOf(a)
    ensures WithHour(WithHour(a)) == WithHour(a)
  {
    SetDefaultGet(a.extra, HourKey, a.createdAt.hour);
  }

  /** The records after the first `n` have been stamped. */
  function StampedUpTo(s: seq<Attempt>, n: nat): (r: seq<Attempt>)
    requires n <= |s|
    ensures |r| == |s|
  {
    seq(|s|, k requires 0 <= k < |s| => if k < n then WithHour(s[k]) else s[k])
  }

  /** The records after the stamping loop. */
  function Stamped(s: seq<Attempt>): (r: seq<Attempt>)
    ensures |r| == |s|
  {
    StampedUpTo(s, |s|)
  }

  /** The list `hours` the loop builds. */
  function Hours(s: seq<Attempt>): (hs: seq<int>)
    ensures |hs| == |s|
    ensures forall k :: 0 <= k < |s| ==> hs[k] == HourOf(s[k])
  {
    seq(|s|, k requires 0 <= k < |s| => HourOf(s[k]))
  }

  function Times(s: seq<Attempt>): (ts: seq<PyDateTime>)
    ensures |ts| == |s|
  {
    seq(|s|, k requires 0 <= k < |s| => s[k].createdAt)
  }

  /** `set([user['user_id'] for user in data])` */
  function Users(s: seq<Attempt>): set<string> {
    set k | 0 <= k < |s| :: s[k].userId
  }

  /** `list(filter(lambda x: x['is_correct'] == 1, data))`: the records whose flag equals 1,
      in order, each as often as it occurs. */
  function Correct(s: seq<Attempt>): (r: seq<Attempt>)
    ensures |r| <= |s|
    ensures forall i :: 0 <= i < |r| ==> EqualsOne(r[i].isCorrect)
  {
    if s == [] then []
    else (if EqualsOne(s[0].isCorrect) then [s[0]] else []) + Correct(s[1..])
  }

  /** The filter keeps every occurrence of each record whose flag equals 1, and nothing else. */
  lemma {:induction false} CorrectOccurrences(s: seq<Attempt>, a: Attempt)
    ensures multiset(Correct(s))[a] == if EqualsOne(a.isCorrect) then multiset(s)[a] else 0
    decreases |s|
  {
    if s != [] {
      CorrectOccurrences(s[1..], a);
      assert s == [s[0]] + s[1..];
      assert multiset(s) == multiset([s[0]]) + multiset(s[1..]);
      var head := if EqualsOne(s[0].isCorrect) then [s[0]] else [];
      assert multiset(Correct(s)) == multiset(head) + multiset(Correct(s[1..]));
    }
  }

  // ---------------------------------------------------------------------------
  // `min`, `max` and `Counter.most_common(1)`

  /** `min(data, key=created_at)` among the first `n`: the first record no other precedes
      (Python's `min` replaces its candidate only on a strictly smaller key). */
  function FirstMin(ts: seq<DateTime>, n: nat): (i: nat)
    requires 0 < n <= |ts|
    ensures i < n
    ensures forall j :: 0 <= j < n ==> AtMost(ts[i], ts[j])
    ensures forall j :: 0 <= j < i ==> Before(ts[i], ts[j])
  {
    if n == 1 then 0
    else
      var i := FirstMin(ts, n - 1);
      if Before(ts[n - 1], ts[i]) then n - 1 else i
  }

  /** `max(data, key=created_at)` among the first `n`: the first record no other follows. */
  function FirstMax(ts: seq<DateTime>, n: nat): (i: nat)
    requires 0 < n <= |ts|
    ensures i < n
    ensures forall j :: 0 <= j < n ==> AtMost(ts[j], ts[i])
    ensures forall j :: 0 <= j < i ==> Before(ts[j], ts[i])
  {
    if n == 1 then 0
    else
      var i := FirstMax(ts, n - 1);
      if Before(ts[i], ts[n - 1]) then n - 1 else i
  }

  /** `Counter(hours)[h]` */
  function Count(hs: seq<int>, h: int): (c: nat)
    ensures c <= |hs|
    ensures c > 0 <==> h in hs
  {
    multiset(hs)[h]
  }

  /** The first position, among the first `n`, whose hour is counted most often. */
  function FirstMostCounted(hs: seq<int>, n: nat): (i: nat)
    requires 0 < n <= |hs|
    ensures i < n
    ensures forall j :: 0 <= j < n ==> Count(hs, hs[j]) <= Count(hs, hs[i])
    ensures forall j :: 0 <= j < i ==> Count(hs, hs[j]) < Count(hs, hs[i])
  {
    if n == 1 then 0
    else
      var i := FirstMostCounted(hs, n - 1);
      if Count(hs, hs[n - 1]) > Count(hs, hs[i]) then n - 1 else i
  }

  /** `Counter(hours).most_common(1)[0]`: an hour with the largest count and that count; the
      counter lists hours in the order they were first seen and keeps the first of those
      with the largest count, so whenever an hour with that count occurs, the chosen hour
      has occurred already. */
  function MostCommon(hs: seq<int>): (r: (int, nat))
    requires |hs| > 0
    ensures 0 < r.1 == Count(hs, r.0)
    ensures forall h :: Count(hs, h) <= r.1
    ensures forall j :: 0 <= j < |hs| && Count(hs, hs[j]) == r.1 ==> r.0 in hs[..j + 1]
  {
    var i := FirstMostCounted(hs, |hs|);
    assert hs[i] in multiset(hs);
    forall h | Count(hs, h) > 0 ensures Count(hs, h) <= Count(hs, hs[i]) {
      assert h in hs;
      var j :| 0 <= j < |hs| && hs[j] == h;
    }
    forall j | 0 <= j < |hs| && Count(hs, hs[j]) == Count(hs, hs[i]) ensures hs[i] in hs[..j + 1] {
      assert hs[..j + 1][i] == hs[i];
    }
    (hs[i], Count(hs, hs[i]))
  }

  // ---------------------------------------------------------------------------
  // The summary

  /** The dictionary `result` of the aggregator. */
  datatype Summary = Summary(
    date: Date,
    cntAttempts: nat,
    minTime: string,
    maxTime: string,
    mostPopularHour: (int, nat),
    cntCorrect: nat,
    cntUsers: nat)

  /** The summary of a day's records as they were before stamping; `None` is the empty
      dictionary returned for no records. */
  function Summarize(s: seq<Attempt>): (r: Option<Summary>)
    ensures r.None? <==> s == []
  {
    if s == [] then None
    else
      var ts := Times(s);
      Some(Summary(
        DateOf(s[0].createdAt),
        |s|,
        FmtSeconds(ts[FirstMin(ts, |ts|)]),
        FmtSeconds(ts[FirstMax(ts, |ts|)]),
        MostCommon(Hours(s)),
        |Correct(s)|,
        |Users(s)|))
  }

  /** Stamping leaves the times, the users, the flags and the hours alone, and shows in the
      list of correct records, which holds the same records. */
  lemma StampedKeeps(s: seq<Attempt>)
    ensures Times(Stamped(s)) == Times(s)
    ensures Users(Stamped(s)) == Users(s)
    ensures Hours(Stamped(s)) == Hours(s)
    ensures Correct(Stamped(s)) == Stamped(Correct(s))
  {
    forall k | 0 <= k < |s| ensures Stamped(s)[k].(extra := s[k].extra) == s[k]
      && HourOf(Stamped(s)[k]) == HourOf(s[k])
    {
      WithHourGet(s[k]);
    }
    assert Times(Stamped(s)) == Times(s);
    assert Hours(Stamped(s)) == Hours(s);
    forall u | u in Users(s) ensures u in Users(Stamped(s)) {
      var k :| 0 <= k < |s| && s[k].userId == u;
      assert Stamped(s)[k].userId == u;
    }
    CorrectStamped(s);
  }

  lemma {:induction false} CorrectStamped(s: seq<Attempt>)
    ensures Correct(Stamped(s)) == Stamped(Correct(s))
    decreases |s|
  {
    if s != [] {
      assert Stamped(s)[1..] == Stamped(s[1..]);
      WithHourGet(s[0]);
      CorrectStamped(s[1..]);
      var head := if EqualsOne(s[0].isCorrect) then [s[0]] else [];
      assert Stamped(head + Correct(s[1..])) == Stamped(head) + Stamped(Correct(s[1..]));
    }
  }

  /** A second run of the aggregator over the stamped records changes no record and reports
      the same summary. */
  lemma SecondRun(s: seq<Attempt>)
    ensures Stamped(Stamped(s)) == Stamped(s)
    ensures Summarize(Stamped(s)) == Summarize(s)
  {
    forall k | 0 <= k < |s| ensures Stamped(Stamped(s))[k] == Stamped(s)[k] {
      WithHourGet(s[k]);
    }
    StampedKeeps(s);
  }

  /** There are at least one and at most as many users as attempts. */
  lemma {:induction false} UsersBound(s: seq<Attempt>)
    ensures |Users(s)| <= |s|
    ensures s != [] ==> |Users(s)| >= 1
    decreases |s|
  {
    if s != [] {
      var n := |s| - 1;
      assert Users(s) == Users(s[..n]) + {s[n].userId} by {
        forall u | u in Users(s) ensures u in Users(s[..n]) + {s[n].userId} {
          var k :| 0 <= k < |s| && s[k].userId == u;
          if k < n {
            assert s[..n][k] == s[k];
          }
        }
        forall u | u in Users(s[..n]) ensures u in Users(s) {
          var k :| 0 <= k < n && s[..n][k].userId == u;
          assert s[k].userId == u;
        }
      }
      UsersBound(s[..n]);
      assert s[n].userId in Users(s);
    }
  }

  /** For a non-empty day the report date is the first record's, every attempt is counted,
      no more attempts are correct than there are, and the users number between one and
      the attempts. */
  lemma SummaryCounts(s: seq<Attempt>)
    requires s != []
    ensures var r := Summarize(s).value;
      && r.date == DateOf(s[0].createdAt)
      && r.cntAttempts == |s|
      && r.cntCorrect <= r.cntAttempts
      && 1 <= r.cntUsers <= r.cntAttempts
  {
    UsersBound(s);
  }

  /** The earliest and latest times reported are those of records that no record precedes
      and no record follows, so the first is no later than the second. */
  lemma SummaryTimes(s: seq<Attempt>)
    requires s != []
    ensures exists i, j :: (
      && 0 <= i < |s| && 0 <= j < |s|
      && Summarize(s).value.minTime == FmtSeconds(s[i].createdAt)
      && Summarize(s).value.maxTime == FmtSeconds(s[j].createdAt)
      && AtMost(s[i].createdAt, s[j].createdAt)
      && (forall k :: 0 <= k < |s| ==>
            AtMost(s[i].createdAt, s[k].createdAt) && AtMost(s[k].createdAt, s[j].createdAt)))
  {
    var ts := Times(s);
    var i, j := FirstMin(ts, |ts|), FirstMax(ts, |ts|);
    forall k | 0 <= k < |s|
      ensures AtMost(s[i].createdAt, s[k].createdAt) && AtMost(s[k].createdAt, s[j].createdAt)
    {
      assert ts[k] == s[k].createdAt;
    }
    assert AtMost(ts[i], ts[j]);
  }

  /** The hour reported is counted as often as it says, and no record's hour more often. */
  lemma SummaryHour(s: seq<Attempt>)
    requires s != []
    ensures var (h, c) := Summarize(s).value.mostPopularHour;
      && c == Count(Hours(s), h) > 0
      && (forall k :: 0 <= k < |s| ==> Count(Hours(s), HourOf(s[k])) <= c)
  {
    var hs := Hours(s);
    forall k | 0 <= k < |s| ensures Count(hs, HourOf(s[k])) <= MostCommon(hs).1 {
      assert hs[k] == HourOf(s[k]);
    }
  }

  /** The stamped records count the same hours and give the same summary. */
  lemma StampedSummary(s: seq<Attempt>, stamped: seq<Attempt>)
    requires stamped == Stamped(s)
    ensures Hours(stamped) == Hours(s) && Summarize(stamped) == Summarize(s)
  {
    StampedKeeps(s);
    SecondRun(s);
  }

  // ---------------------------------------------------------------------------
  // Line 307 as written

  /** The aggregator as written: the users are collected from the module-level `res`, the
      batch the driver happened to build, rather than from the records the aggregator holds. */
  function SummarizeAsWritten(s: seq<Attempt>, res: seq<Attempt>): (r: Option<Summary>)
    ensures r.None? <==> s == []
  {
    if s == [] then None else Some(Summarize(s).value.(cntUsers := |Users(res)|))
  }

  /** At the driver's one call site `res` is the list the aggregator holds, already stamped
      by the time line 307 runs, so the written code reports the intended count there. */
  lemma AsWrittenAtCallSite(s: seq<Attempt>)
    ensures SummarizeAsWritten(s, Stamped(s)) == Summarize(s)
  {
    StampedKeeps(s);
  }

  /** Anywhere else it does not: two attempts by two users, with `res` holding one of them,
      are reported as coming from one user. */
  lemma AsWrittenMiscounts()
    ensures var t: PyDateTime := DateTime(2023, 4, 1, 0, 0, 57, 860798);
      var a := Attempt("1", "key", None, None, Int(1), "submission", t, []);
      var b := a.(userId := "2");
      && SummarizeAsWritten([a, b], [a]).value.cntUsers == 1
      && |Users([a, b])| == 2
      && Summarize([a, b]).value.cntUsers == 2
  {
    var t: PyDateTime := DateTime(2023, 4, 1, 0, 0, 57, 860798);
    var a := Attempt("1", "key", None, None, Int(1), "submission", t, []);
    var b := a.(userId := "2");
    assert Users([a]) == {"1"} by {
      assert [a][0].userId == "1";
    }
    assert Users([a, b]) == {"1", "2"} by {
      assert [a, b][0].userId == "1" && [a, b][1].userId == "2";
    }
  }

  // ---------------------------------------------------------------------------
  // The class

  class Analysis {
    const data: array<Attempt>

    constructor (data: array<Attempt>)
      ensures this.data == data
    {
      this.data := data;
    }

    /** The loop of lines 283-286: stamps every record with `hour` in place and collects
        the stamped hours, in order, for `Counter`. */
    method StampHours() returns (hours: seq<int>)
      modifies data
      ensures data[..] == Stamped(old(data[..]))
      ensures hours == Hours(old(data[..]))
    {
      ghost var original := data[..];
      hours := [];
      var i := 0;
      while i < data.Length
        invariant 0 <= i <= data.Length
        invariant data[..] == StampedUpTo(original, i)
        invariant hours == Hours(original)[..i]
      {
        data[i] := WithHour(data[i]);
        WithHourGet(original[i]);
        hours := hours + [Get(data[i].extra, HourKey).value];
        assert Hours(original)[..i + 1] == Hours(original)[..i] + [HourOf(original[i])];
        assert data[..] == StampedUpTo(original, i + 1);
        i := i + 1;
      }
      assert Hours(original)[..i] == Hours(original);
    }

    /** `__calculation_cnt_attempts`: stamps every record with `hour` in place and returns
        the summary of the records as they arrived; no records give the empty result. */
    method CalculationCntAttempts() returns (r: Option<Summary>)
      modifies data
      ensures data[..] == Stamped(old(data[..]))
      ensures r == Summarize(old(data[..]))
    {
      if data.Length == 0 {
        return None;
      }
      ghost var original := data[..];
      var hours := StampHours();
      StampedSummary(original, data[..]);
      // `Counter` is given the hours the stamped records hold
      assert hours == Hours(data[..]);
      r := Summarize(data[..]);
    }
  }
}
