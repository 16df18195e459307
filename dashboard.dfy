/** The GPU dashboard: the latest sample and a thirty-entry history of timestamped samples. */
module GpuDashboard {
  import opened Http
  import opened Telemetry

  /** The history keeps thirty entries (the comment beside it says fifty; the code says thirty). */
  const HistorySize: nat := 30

  /** `{ ...data, timestamp: Date.now() }`. */
  datatype Stamped = Stamped(stats: GpuStats, timestamp: int)

  /** The sample of the newest entry, if any. */
  function LatestSample(entries: seq<Stamped>): (latest: Option<GpuStats>)
    ensures latest.None? <==> entries == []
  {
    if entries == [] then None else Some(entries[|entries| - 1].stats)
  }

  lemma LatestOfAppended(entries: seq<Stamped>, entry: Stamped)
    ensures LatestSample(entries + [entry]) == Some(entry.stats)
  {
  }

  class Dashboard {
    var gpuData: Option<GpuStats>
    var historicalData: seq<Stamped>

    /** Every accepted sample with its timestamp, in arrival order. */
    ghost var received: seq<Stamped>

    /** The history is the newest thirty entries received, and `gpuData` is the sample of the
        newest one; before the first sample both are empty. */
    ghost predicate Valid()
      reads this
    {
      && historicalData == Newest(received, HistorySize)
      && gpuData == LatestSample(received)
    }

    constructor()
      ensures Valid() && gpuData.None? && historicalData == [] && received == []
    {
      gpuData, historicalData, received := None, [], [];
      new;
      assert Newest(received, HistorySize) == [];
    }

    /** The loading view is shown exactly while no sample has been received. */
    function ShowsLoading(): (loading: bool)
      reads this
      requires Valid()
      ensures loading <==> received == []
      ensures loading <==> historicalData == []
    {
      gpuData.None?
    }

    /** One poll settles. A good sample becomes `gpuData` and, stamped with `now`, the newest
        history entry; an `error` payload or a throw changes neither. */
    method OnPoll(reply: StatsReply, now: int)
      requires Valid()
      modifies this`gpuData, this`historicalData, this`received
      ensures Valid()
      ensures reply.IsSample() ==>
        && gpuData == Some(reply.stats)
        && historicalData == Push(old(historicalData), Stamped(reply.stats, now), HistorySize)
        && received == old(received) + [Stamped(reply.stats, now)]
      ensures !reply.IsSample() ==>
        gpuData == old(gpuData) && historicalData == old(historicalData) && received == old(received)
    {
      if reply.IsSample() {
        var entry := Stamped(reply.stats, now);
        var newReceived := received + [entry];
        var newHistory := Push(historicalData, entry, HistorySize);
        PushKeepsNewest(received, entry, HistorySize);
        LatestOfAppended(received, entry);
        assert newHistory == Newest(newReceived, HistorySize);
        assert Some(reply.stats) == LatestSample(newReceived);
        gpuData, historicalData, received := Some(reply.stats), newHistory, newReceived;
      }
    }

    /** After any poll the history is at most thirty entries long and, once non-empty, ends with
        the current sample. */
    lemma HistoryShape()
      requires Valid()
      ensures |historicalData| <= HistorySize
      ensures historicalData != [] ==> gpuData == Some(historicalData[|historicalData| - 1].stats)
    {
      if received != [] {
        assert historicalData[|historicalData| - 1] == received[|received| - 1];
      }
    }
  }
}
