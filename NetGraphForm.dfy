/**
 * The sampler of the meter's main window. On every tick it reads the
 * cumulative byte counters of the selected adapter, turns them into the
 * traffic of the last interval (relative to the previous reading), appends
 * that to the graph's history and recomputes the raw and averaged figures.
 *
 * The selected adapter and its counter query are one parameter per tick:
 * None when no adapter is selected, Some(statistics) when one is.
 */
module NetGraphSampler {
  import opened Enumerable

  /** Downstream and upstream byte counts: absolute, or over one interval. */
  datatype Sample = Sample(downstream: int, upstream: int) {
    /** The larger of the two directions. */
    function Max(): int
    {
      if downstream >= upstream then downstream else upstream
    }

    /** Field-wise difference. */
    function Minus(other: Sample): Sample
    {
      Sample(downstream - other.downstream, upstream - other.upstream)
    }
  }

  const Zero := Sample(0, 0)

  /** The two counters of an adapter's IP statistics the meter reads. */
  datatype IPInterfaceStatistics = IPInterfaceStatistics(bytesReceived: int, bytesSent: int)

  /** An absolute sample: received bytes are downstream, sent bytes upstream. */
  function CreateAbsoluteSample(stats: IPInterfaceStatistics): Sample
  {
    Sample(stats.bytesReceived, stats.bytesSent)
  }

  /** What one CreateRelativeSample call yields: the sample and the new LastSample. */
  datatype Relative = Relative(sample: Sample, lastSample: Option<Sample>)

  /**
   * The relative sample for one tick, given the adapter's statistics (None:
   * no adapter selected) and the LastSample held before the tick.
   */
  function RelativeSample(nic: Option<IPInterfaceStatistics>, lastSample: Option<Sample>): (r: Relative)
    // no adapter: a zero sample, LastSample untouched
    ensures nic.None? ==> r.sample == Zero && r.lastSample == lastSample
    // an adapter: LastSample becomes its current reading, whichever sample is emitted
    ensures nic.Some? ==> r.lastSample == Some(Sample(nic.value.bytesReceived, nic.value.bytesSent))
    // no usable prior reading: a zero sample whatever the current counters are
    ensures lastSample.None? || lastSample.value.Max() <= 0 ==> r.sample == Zero
    // a prior reading with a positive counter: the traffic since that reading
    ensures nic.Some? && lastSample.Some? && lastSample.value.Max() > 0 ==>
              r.sample.downstream == nic.value.bytesReceived - lastSample.value.downstream &&
              r.sample.upstream == nic.value.bytesSent - lastSample.value.upstream
  {
    match nic
    case None => Relative(Zero, lastSample)
    case Some(stats) =>
      var current := CreateAbsoluteSample(stats);
      if lastSample.Some? && lastSample.value.Max() > 0
      then Relative(current.Minus(lastSample.value), Some(current))
      else Relative(Zero, Some(current))
  }

  /** The sampler's state: LastSample and the graph's history, newest first. */
  datatype Sampler = Sampler(lastSample: Option<Sample>, history: seq<Sample>)

  /** One call of SampleAdapter, on values. */
  function Tick(s: Sampler, nic: Option<IPInterfaceStatistics>): Sampler
  {
    var r := RelativeSample(nic, s.lastSample);
    Sampler(r.lastSample, [r.sample] + s.history)
  }

  /** The state after one tick per element of `ticks`, from the form's initial state. */
  function Run(ticks: seq<Option<IPInterfaceStatistics>>): Sampler
    decreases |ticks|
  {
    if |ticks| == 0 then Sampler(None, [])
    else Tick(Run(ticks[..|ticks| - 1]), ticks[|ticks| - 1])
  }

  /** The absolute reading of the latest tick that had an adapter, if any. */
  function LatestReading(ticks: seq<Option<IPInterfaceStatistics>>): Option<Sample>
    decreases |ticks|
  {
    if |ticks| == 0 then None
    else match ticks[|ticks| - 1]
      case Some(stats) => Some(CreateAbsoluteSample(stats))
      case None => LatestReading(ticks[..|ticks| - 1])
  }

  /** The newest sample: GetSamples().First(). */
  function Raw(history: seq<Sample>): Sample
    requires |history| > 0
  {
    history[0]
  }

  function Downstreams(samples: seq<Sample>): seq<int>
  {
    seq(|samples|, i requires 0 <= i < |samples| => samples[i].downstream)
  }

  function Upstreams(samples: seq<Sample>): seq<int>
  {
    seq(|samples|, i requires 0 <= i < |samples| => samples[i].upstream)
  }

  /** The averaged sample: per direction, the mean of the 10 newest samples cast to long. */
  function Smoothed(history: seq<Sample>): Sample
    requires |history| > 0
  {
    var window := Take(history, 10);
    Sample(Average(Downstreams(window)), Average(Upstreams(window)))
  }

  /** LastSample is the reading of the latest tick with an adapter; nothing else resets it. */
  lemma {:induction false} RunLastSample(ticks: seq<Option<IPInterfaceStatistics>>)
    ensures Run(ticks).lastSample == LatestReading(ticks)
  {
    if |ticks| > 0 {
      RunLastSample(ticks[..|ticks| - 1]);
    }
  }

  /** Every tick adds exactly one sample to the history. */
  lemma {:induction false} RunHistoryLength(ticks: seq<Option<IPInterfaceStatistics>>)
    ensures |Run(ticks).history| == |ticks|
  {
    if |ticks| > 0 {
      RunHistoryLength(ticks[..|ticks| - 1]);
    }
  }

  /**
   * The sample tick k added (at index |ticks| - 1 - k, newest first) is the
   * relative sample of that tick's reading against the latest earlier reading.
   */
  lemma {:induction false} RunHistoryAt(ticks: seq<Option<IPInterfaceStatistics>>, k: nat)
    requires k < |ticks|
    ensures |Run(ticks).history| == |ticks|
    ensures Run(ticks).history[|ticks| - 1 - k] == RelativeSample(ticks[k], LatestReading(ticks[..k])).sample
  {
    var n := |ticks|;
    var prefix := ticks[..n - 1];
    RunHistoryLength(ticks);
    RunHistoryLength(prefix);
    if k == n - 1 {
      RunLastSample(prefix);
    } else {
      RunHistoryAt(prefix, k);
      assert prefix[..k] == ticks[..k];
    }
  }

  /** The form's first tick finds no LastSample, so the oldest sample is always zero. */
  lemma {:induction false} FirstSampleIsZero(ticks: seq<Option<IPInterfaceStatistics>>)
    requires |ticks| > 0
    ensures |Run(ticks).history| == |ticks| && Run(ticks).history[|ticks| - 1] == Zero
  {
    RunHistoryAt(ticks, 0);
  }

  /**
   * Counters (1000, 500) then (1500, 700) give the interval (500, 200); a
   * reset to (0, 0) is diffed (a negative interval) and, the prior reading
   * being zero, the next reading (50, 10) gives a zero sample.
   */
  lemma ResetScenario()
    ensures Run([Some(IPInterfaceStatistics(1000, 500)), Some(IPInterfaceStatistics(1500, 700)),
                 Some(IPInterfaceStatistics(0, 0)), Some(IPInterfaceStatistics(50, 10))]).history
            == [Zero, Sample(-1500, -700), Sample(500, 200), Zero]
  {
    var ticks := [Some(IPInterfaceStatistics(1000, 500)), Some(IPInterfaceStatistics(1500, 700)),
                  Some(IPInterfaceStatistics(0, 0)), Some(IPInterfaceStatistics(50, 10))];
    assert ticks[..1][..0] == [];
    assert Run(ticks[..1]) == Sampler(Some(Sample(1000, 500)), [Zero]);
    assert ticks[..2][..1] == ticks[..1];
    assert Run(ticks[..2]) == Sampler(Some(Sample(1500, 700)), [Sample(500, 200), Zero]);
    assert ticks[..3][..2] == ticks[..2];
    assert Run(ticks[..3]) == Sampler(Some(Zero), [Sample(-1500, -700), Sample(500, 200), Zero]);
    assert ticks[..3] == ticks[..|ticks| - 1];
  }

  /** When every windowed sample lies in [lo, hi] in both directions, so do both averages. */
  lemma SmoothedBounds(history: seq<Sample>, lo: int, hi: int)
    requires |history| > 0
    requires forall i :: 0 <= i < |history| && i < 10 ==>
               lo <= history[i].downstream <= hi && lo <= history[i].upstream <= hi
    ensures lo <= Smoothed(history).downstream <= hi
    ensures lo <= Smoothed(history).upstream <= hi
  {
    var window := Take(history, 10);
    assert forall i :: 0 <= i < |window| ==> window[i] == history[i];
    AverageBounds(Downstreams(window), lo, hi);
    AverageBounds(Upstreams(window), lo, hi);
  }

  /** The main window's sampling state. */
  class NetGraphForm {
    /** Latest absolute sample taken from the current adapter. */
    var lastSample: Option<Sample>
    /** The graph's samples, newest first. */
    var history: seq<Sample>
    /** The four figures shown: raw and averaged, downstream and upstream. */
    var dlRaw: int
    var ulRaw: int
    var dlAvg: int
    var ulAvg: int
    /** The adapter statistics of every tick so far, oldest first. */
    ghost var ticks: seq<Option<IPInterfaceStatistics>>

    /** The state is what the ticks so far produce. */
    ghost predicate Consistent()
      reads this
    {
      Sampler(lastSample, history) == Run(ticks)
    }

    /** Consistent, at least one tick taken, and the figures show the history. */
    ghost predicate Valid()
      reads this
    {
      && Consistent()
      && |ticks| > 0
      && |history| > 0
      && dlRaw == Raw(history).downstream && ulRaw == Raw(history).upstream
      && dlAvg == Smoothed(history).downstream && ulAvg == Smoothed(history).upstream
    }

    /** The form starts without LastSample and ticks once, since the timer does not fire at start-up. */
    constructor (nic: Option<IPInterfaceStatistics>)
      ensures Valid()
      ensures ticks == [nic]
      ensures history == [Zero]
      ensures lastSample == RelativeSample(nic, None).lastSample
      ensures dlRaw == 0 && ulRaw == 0 && dlAvg == 0 && ulAvg == 0
    {
      lastSample := None;
      history := [];
      ticks := [];
      dlRaw, ulRaw, dlAvg, ulAvg := 0, 0, 0, 0;
      new;
      assert Consistent() by {
        assert Run([]) == Sampler(None, []);
      }
      SampleAdapter(nic);
      assert history == [Zero];
      SmoothedBounds(history, 0, 0);
      assert dlAvg == 0 && ulAvg == 0;
      assert dlRaw == 0 && ulRaw == 0;
    }

    /** One timer tick: add a relative sample to the graph, then refresh the figures. */
    method SampleAdapter(nic: Option<IPInterfaceStatistics>)
      requires Consistent()
      modifies this
      ensures Valid()
      ensures ticks == old(ticks) + [nic]
      ensures lastSample == RelativeSample(nic, old(lastSample)).lastSample
      ensures history == [RelativeSample(nic, old(lastSample)).sample] + old(history)
      ensures history[|history| - 1] == Zero
    {
      var sample := CreateRelativeSample(nic);
      AddSample(sample);
      ticks := ticks + [nic];
      assert ticks[..|ticks| - 1] == old(ticks);
      FirstSampleIsZero(ticks);
      UpdateStats();
    }

    /** The graph's AddSample: the new sample becomes the newest. */
    method AddSample(sample: Sample)
      modifies this`history
      ensures history == [sample] + old(history)
    {
      history := [sample] + history;
    }

    method CreateRelativeSample(nic: Option<IPInterfaceStatistics>) returns (sample: Sample)
      modifies this`lastSample
      ensures Relative(sample, lastSample) == RelativeSample(nic, old(lastSample))
    {
      if nic.Some? {
        var previous := lastSample;
        var current := CreateAbsoluteSample(nic.value);
        lastSample := Some(current);
        // A zero prior reading would give a spike off the scale: do not diff it.
        if previous.Some? && previous.value.Max() > 0 {
          return current.Minus(previous.value);
        }
      }
      return Zero;
    }

    /** Show the newest sample as the raw figures and the 10-sample mean as the averages. */
    method UpdateStats()
      requires |history| > 0
      modifies this`dlRaw, this`ulRaw, this`dlAvg, this`ulAvg
      ensures dlRaw == Raw(history).downstream && ulRaw == Raw(history).upstream
      ensures dlAvg == Smoothed(history).downstream && ulAvg == Smoothed(history).upstream
    {
      var latest := history[0];
      dlRaw := latest.downstream;
      ulRaw := latest.upstream;
      var window := Take(history, 10);
      dlAvg := Average(Downstreams(window));
      ulAvg := Average(Upstreams(window));
    }
  }
}
