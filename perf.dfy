/**
 * `PerformanceMonitor` (src/core/PerformanceMonitor.ts): a bounded log of
 * metrics that drops its oldest entry on overflow, with filtering by type
 * and the sums behind the average and the success rate. Sampling is a
 * boolean input; the clock reading is a parameter.
 */
module Perf {
  import opened Wrappers

  datatype MetricType = Login | Logout | Refresh | ApiCall

  /** `PerformanceMetrics`, without the free-form `metadata`. */
  datatype Metric = Metric(timestamp: int, kind: MetricType, duration: int, success: bool, errorCode: Option<string>)

  const DefaultMaxEvents: nat := 100

  /** The events of one type, in log order. */
  function ByType(s: seq<Metric>, t: MetricType): seq<Metric>
  {
    if s == [] then []
    else ByType(s[..|s| - 1], t) + (if s[|s| - 1].kind == t then [s[|s| - 1]] else [])
  }

  lemma {:induction false} ByTypeMembers(s: seq<Metric>, t: MetricType)
    ensures forall m :: m in ByType(s, t) <==> m in s && m.kind == t
    ensures |ByType(s, t)| <= |s|
  {
    if s != [] {
      ByTypeMembers(s[..|s| - 1], t);
      assert s == s[..|s| - 1] + [s[|s| - 1]];
    }
  }

  /** Filtering distributes over concatenation, so it keeps the log's order. */
  lemma {:induction false} ByTypeAppend(a: seq<Metric>, b: seq<Metric>, t: MetricType)
    ensures ByType(a + b, t) == ByType(a, t) + ByType(b, t)
  {
    if b == [] {
      assert a + b == a;
    } else {
      ByTypeAppend(a, b[..|b| - 1], t);
      assert (a + b)[..|a + b| - 1] == a + b[..|b| - 1];
    }
  }

  /** Filtering twice by the same type filters once. */
  lemma {:induction false} ByTypeIdempotent(s: seq<Metric>, t: MetricType)
    ensures ByType(ByType(s, t), t) == ByType(s, t)
  {
    if s != [] {
      var init := s[..|s| - 1];
      ByTypeIdempotent(init, t);
      if s[|s| - 1].kind == t {
        var x := s[|s| - 1];
        assert ByType(s, t) == ByType(init, t) + [x];
        ByTypeAppend(ByType(init, t), [x], t);
        assert [x][..0] == [];
        assert ByType([x], t) == [x];
      } else {
        assert ByType(s, t) == ByType(init, t) + [];
        assert ByType(s, t) == ByType(init, t);
      }
    }
  }

  /** Every event has exactly one of the four types. */
  lemma {:induction false} ByTypePartition(s: seq<Metric>)
    ensures |ByType(s, Login)| + |ByType(s, Logout)| + |ByType(s, Refresh)| + |ByType(s, ApiCall)| == |s|
  {
    if s != [] {
      ByTypePartition(s[..|s| - 1]);
    }
  }

  /** The selection behind the average and the rate: the whole log when no type is given. */
  function Select(s: seq<Metric>, t: Option<MetricType>): seq<Metric>
  {
    if t.None? then s else ByType(s, t.value)
  }

  lemma SelectBounded(s: seq<Metric>, t: Option<MetricType>)
    ensures |Select(s, t)| <= |s|
  {
    if t.Some? {
      ByTypeMembers(s, t.value);
    }
  }

  function TotalDuration(s: seq<Metric>): int
  {
    if s == [] then 0 else TotalDuration(s[..|s| - 1]) + s[|s| - 1].duration
  }

  lemma {:induction false} TotalDurationAppend(a: seq<Metric>, b: seq<Metric>)
    ensures TotalDuration(a + b) == TotalDuration(a) + TotalDuration(b)
  {
    if b == [] {
      assert a + b == a;
    } else {
      TotalDurationAppend(a, b[..|b| - 1]);
      assert (a + b)[..|a + b| - 1] == a + b[..|b| - 1];
    }
  }

  /** The number of successful events, never more than the events themselves. */
  function SuccessCount(s: seq<Metric>): (n: nat)
    ensures n <= |s|
    ensures n == |s| <==> forall i | 0 <= i < |s| :: s[i].success
  {
    if s == [] then 0
    else
      var init := s[..|s| - 1];
      var n := SuccessCount(init) + (if s[|s| - 1].success then 1 else 0);
      assert forall i | 0 <= i < |init| :: init[i] == s[i];
      n
  }

  /**
   * The log after pushing `m` and, when that makes it longer than `max`,
   * shifting the oldest event out.
   */
  function Push(s: seq<Metric>, m: Metric, max: nat): (r: seq<Metric>)
    ensures |r| == if |s| + 1 > max then |s| else |s| + 1
    ensures r == (s + [m])[|s| + 1 - |r|..]
  {
    var e := s + [m];
    if |e| > max then e[1..] else e
  }

  /** A log within its bound stays within it, and its newest event is the one pushed. */
  lemma PushBounded(s: seq<Metric>, m: Metric, max: nat)
    requires |s| <= max
    ensures |Push(s, m, max)| <= max
    ensures max > 0 ==> Push(s, m, max)[|Push(s, m, max)| - 1] == m
    ensures |s| < max ==> Push(s, m, max) == s + [m]
    ensures |s| == max > 0 ==> Push(s, m, max) == s[1..] + [m]
  {
    var r := Push(s, m, max);
    if |s| == max > 0 {
      assert (s + [m])[1..] == s[1..] + [m];
    }
  }

  /** The average's two parts: `total / count`, with 0 for an empty selection. */
  datatype Ratio = Ratio(numerator: int, denominator: nat)

  class PerformanceMonitor {
    var events: seq<Metric>
    var isEnabled: bool
    const maxEvents: nat

    ghost predicate Valid()
      reads this
    {
      |events| <= maxEvents
    }

    constructor(enabled: bool, maxEvents: Option<nat>)
      ensures Valid() && events == [] && isEnabled == enabled
      ensures this.maxEvents == if maxEvents.Some? then maxEvents.value else DefaultMaxEvents
    {
      events := [];
      isEnabled := enabled;
      this.maxEvents := if maxEvents.Some? then maxEvents.value else DefaultMaxEvents;
    }

    /**
     * `record`: nothing when disabled or not sampled; otherwise the metric,
     * stamped with `now`, is pushed and the oldest event dropped on overflow.
     */
    method Record(kind: MetricType, duration: int, success: bool, errorCode: Option<string>, now: int, sampled: bool)
      requires Valid()
      modifies this
      ensures Valid() && isEnabled == old(isEnabled)
      ensures !isEnabled || !sampled ==> events == old(events)
      ensures isEnabled && sampled ==>
        events == Push(old(events), Metric(now, kind, duration, success, errorCode), maxEvents)
    {
      if !isEnabled || !sampled {
        return;
      }
      var metric := Metric(now, kind, duration, success, errorCode);
      events := events + [metric];
      if |events| > maxEvents {
        events := events[1..];
      }
    }

    /** `getMetrics`: every logged event, oldest first. */
    function GetMetrics(): (r: seq<Metric>)
      reads this
      requires Valid()
      ensures |r| == |events| <= maxEvents
      ensures forall i | 0 <= i < |r| :: r[i] == events[i]
    {
      events
    }

    /** `getMetricsByType`: exactly the events of type `t`, in log order. */
    function GetMetricsByType(t: MetricType): (r: seq<Metric>)
      reads this
      ensures forall m :: m in r <==> m in events && m.kind == t
      ensures |r| <= |events|
    {
      ByTypeMembers(events, t);
      ByType(events, t)
    }

    /** `getAverageResponseTime`, as the sum and the count of the selection. */
    function GetAverageResponseTime(t: Option<MetricType>): (r: Ratio)
      reads this
      ensures r.denominator == |Select(events, t)| <= |events|
      ensures r.denominator == 0 ==> r.numerator == 0
      ensures r.denominator > 0 ==> r.numerator == TotalDuration(Select(events, t))
    {
      var metrics := Select(events, t);
      SelectBounded(events, t);
      if |metrics| == 0 then Ratio(0, 0) else Ratio(TotalDuration(metrics), |metrics|)
    }

    /** `getSuccessRate`, as the successes and the count of the selection. */
    function GetSuccessRate(t: Option<MetricType>): (r: Ratio)
      reads this
      ensures r.denominator == |Select(events, t)| <= |events|
      ensures 0 <= r.numerator <= r.denominator
      ensures r.denominator > 0 ==> r.numerator == SuccessCount(Select(events, t))
    {
      var metrics := Select(events, t);
      SelectBounded(events, t);
      if |metrics| == 0 then Ratio(0, 0) else Ratio(SuccessCount(metrics), |metrics|)
    }

    /** `clear`: the log is emptied; the flag stays. */
    method Clear()
      modifies this
      ensures events == [] && isEnabled == old(isEnabled)
      ensures Valid()
    {
      events := [];
    }

    /** `setEnabled`: only the flag changes. */
    method SetEnabled(enabled: bool)
      modifies this
      ensures isEnabled == enabled && events == old(events)
    {
      isEnabled := enabled;
    }
  }
}
