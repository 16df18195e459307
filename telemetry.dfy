/** The GPU telemetry feed shared by the two dashboards: what one poll of the statistics endpoint
    returns, the bounded rolling windows the samples go into, and the time label of a sample. */
module Telemetry {
  import opened Text

  /** One statistics sample as the endpoint reports it. */
  datatype GpuStats = GpuStats(
    utilization: real, memoryUsed: real, memoryTotal: real, temperature: real,
    powerUsage: real, powerLimit: real, fanSpeed: real)

  /** One poll: the fetch or the JSON parse threw, or a body arrived whose `error` field is
      truthy or not. */
  datatype StatsReply = PollFailed | StatsBody(hasError: bool, stats: GpuStats)
  {
    predicate IsSample() {
      StatsBody? && !hasError
    }
  }

  /** The newest `k` elements of `s` (all of them when there are fewer), in their order. */
  function Newest<T>(s: seq<T>, k: nat): (r: seq<T>)
    ensures |r| == if |s| <= k then |s| else k
  {
    if |s| <= k then s else s[|s| - k..]
  }

  /** The window is a contiguous suffix: the kept elements stay in their relative order. */
  lemma NewestIsSuffix<T>(s: seq<T>, k: nat)
    ensures Newest(s, k) == s[|s| - |Newest(s, k)|..]
  {
  }

  /** `s.slice(-n)`: for n > 0 the newest n elements; `slice(-0)` is `slice(0)`, all of them. */
  function SliceLast<T>(s: seq<T>, n: nat): (r: seq<T>)
    ensures n > 0 ==> r == Newest(s, n)
    ensures n == 0 ==> r == s
  {
    if n == 0 then s else if |s| <= n then s else s[|s| - n..]
  }

  /** `[...window, x].slice(-cap)`: append the new value, keep the newest `cap`. */
  function Push<T>(window: seq<T>, x: T, cap: nat): seq<T>
    requires cap > 0
  {
    SliceLast(window + [x], cap)
  }

  /** A push keeps at most `cap` values, the new one last, after the newest `cap - 1` old ones. */
  lemma PushShape<T>(window: seq<T>, x: T, cap: nat)
    requires cap > 0
    ensures var r := Push(window, x, cap);
      && |r| == (if |window| < cap then |window| + 1 else cap)
      && r[|r| - 1] == x
      && r == Newest(window, cap - 1) + [x]
  {
    var w := window + [x];
    if |w| > cap {
      assert w[|w| - cap..] == window[|window| - (cap - 1)..] + [x];
    }
  }

  /** The window after a run of pushes, oldest sample first. */
  function Feed<T>(window: seq<T>, xs: seq<T>, cap: nat): seq<T>
    requires cap > 0
    decreases |xs|
  {
    if xs == [] then window else Feed(Push(window, xs[0], cap), xs[1..], cap)
  }

  /** Whatever the run of pushes, a window that starts within its cap holds exactly the newest
      `cap` of everything seen, in arrival order. */
  lemma {:induction false} FeedKeepsNewest<T>(window: seq<T>, xs: seq<T>, cap: nat)
    requires 0 < cap && |window| <= cap
    ensures Feed(window, xs, cap) == Newest(window + xs, cap)
    decreases |xs|
  {
    if xs == [] {
      assert window + xs == window;
    } else {
      FeedKeepsNewest(Push(window, xs[0], cap), xs[1..], cap);
      assert window + xs == (window + [xs[0]]) + xs[1..];
      FeedNewestSuffix(window + [xs[0]], xs[1..], cap);
    }
  }

  lemma {:induction false} FeedNewestSuffix<T>(s: seq<T>, xs: seq<T>, cap: nat)
    requires cap > 0
    ensures Newest(Newest(s, cap) + xs, cap) == Newest(s + xs, cap)
  {
    var t := Newest(s, cap);
    if |s| > cap {
      var n := |s + xs|;
      if |xs| >= cap {
        assert (t + xs)[|t + xs| - cap..] == xs[|xs| - cap..] == (s + xs)[n - cap..];
      } else {
        assert (t + xs)[|t + xs| - cap..] == (s + xs)[n - cap..];
      }
    }
  }

  /** Pushing onto the newest `cap` of a history gives the newest `cap` of the longer history. */
  lemma PushKeepsNewest<T>(history: seq<T>, x: T, cap: nat)
    requires cap > 0
    ensures Push(Newest(history, cap), x, cap) == Newest(history + [x], cap)
  {
    FeedNewestSuffix(history, [x], cap);
  }

  /** The time label's `replace` of the pattern "start, then any non-digits" by nothing: the
      longest run of non-digits at the front is removed. */
  function StripLeadingNonDigits(timeLabel: string): (r: string)
    ensures |r| <= |timeLabel| && r == timeLabel[|timeLabel| - |r|..]
    ensures r == [] || IsDigit(r[0])
    ensures forall k :: 0 <= k < |timeLabel| - |r| ==> !IsDigit(timeLabel[k])
    decreases |timeLabel|
  {
    if timeLabel == [] || IsDigit(timeLabel[0]) then timeLabel else StripLeadingNonDigits(timeLabel[1..])
  }

  /** Stripping twice strips nothing more. */
  lemma StripIdempotent(timeLabel: string)
    ensures StripLeadingNonDigits(StripLeadingNonDigits(timeLabel)) == StripLeadingNonDigits(timeLabel)
  {
  }
}
