/** The floating GPU chart window: three aligned ten-slot windows (temperature, utilization and the
    time axis) fed by polling, and the visibility and minimize flags. */
module Chart {
  import opened Telemetry

  const WindowSize: nat := 10

  class DynamicChart {
    var temperatureData: seq<real>
    var utilizationData: seq<real>
    var categories: seq<string>
    var isVisible: bool
    var isMinimized: bool

    /** Every accepted sample in arrival order, field by field, and its stripped time label. */
    ghost var temperatures: seq<real>
    ghost var utilizations: seq<real>
    ghost var labels: seq<string>

    /** Each window is the newest ten of its history, and the three histories grow together, so the
        windows have equal length and aligned indices. */
    ghost predicate Valid()
      reads this
    {
      && |temperatures| == |utilizations| == |labels|
      && temperatureData == Newest(temperatures, WindowSize)
      && utilizationData == Newest(utilizations, WindowSize)
      && categories == Newest(labels, WindowSize)
    }

    constructor()
      ensures Valid()
      ensures temperatureData == [] && utilizationData == [] && categories == []
      ensures isVisible && !isMinimized
    {
      temperatureData, utilizationData, categories := [], [], [];
      temperatures, utilizations, labels := [], [], [];
      isVisible, isMinimized := true, false;
      new;
      assert Newest(temperatures, WindowSize) == [];
      assert Newest(utilizations, WindowSize) == [];
      assert Newest(labels, WindowSize) == [];
    }

    /** The three windows always have the same length, at most ten. */
    lemma WindowsAligned()
      requires Valid()
      ensures |temperatureData| == |utilizationData| == |categories| <= WindowSize
    {
    }

    method ToggleVisibility()
      modifies this`isVisible
      ensures isVisible == !old(isVisible)
    {
      isVisible := !isVisible;
    }

    method ToggleMinimize()
      modifies this`isMinimized
      ensures isMinimized == !old(isMinimized)
    {
      isMinimized := !isMinimized;
    }

    /** One poll of the statistics endpoint settles. A good sample pushes its temperature, its
        utilization and the stripped local time label into the three windows; an `error` payload
        or a throw changes nothing. */
    method OnPoll(reply: StatsReply, localeTime: string)
      requires Valid()
      modifies this`temperatureData, this`utilizationData, this`categories
      modifies this`temperatures, this`utilizations, this`labels
      ensures Valid()
      ensures reply.IsSample() ==>
        && temperatureData == Push(old(temperatureData), reply.stats.temperature, WindowSize)
        && utilizationData == Push(old(utilizationData), reply.stats.utilization, WindowSize)
        && categories == Push(old(categories), StripLeadingNonDigits(localeTime), WindowSize)
        && temperatures == old(temperatures) + [reply.stats.temperature]
        && utilizations == old(utilizations) + [reply.stats.utilization]
        && labels == old(labels) + [StripLeadingNonDigits(localeTime)]
      ensures !reply.IsSample() ==>
        && temperatureData == old(temperatureData)
        && utilizationData == old(utilizationData)
        && categories == old(categories)
        && temperatures == old(temperatures)
        && utilizations == old(utilizations)
        && labels == old(labels)
    {
      if reply.IsSample() {
        var newTime := StripLeadingNonDigits(localeTime);
        var t, u := reply.stats.temperature, reply.stats.utilization;
        PushKeepsNewest(temperatures, t, WindowSize);
        PushKeepsNewest(utilizations, u, WindowSize);
        PushKeepsNewest(labels, newTime, WindowSize);
        var newCategories := Push(categories, newTime, WindowSize);
        var newTemperatures := Push(temperatureData, t, WindowSize);
        var newUtilizations := Push(utilizationData, u, WindowSize);
        categories, temperatureData, utilizationData := newCategories, newTemperatures, newUtilizations;
        temperatures, utilizations, labels := temperatures + [t], utilizations + [u], labels + [newTime];
      }
    }
  }
}
