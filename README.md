# UpDown Meter: sampler and adapter registry

A model of the core of UpDown Meter, a desktop widget that graphs the network
traffic of one selected adapter. On each timer tick the main window
(`NetGraphForm`) reads the adapter's cumulative byte counters, turns them into
the traffic of the last interval by diffing against the previous reading
(`LastSample`), appends that relative sample to the graph's history and shows
two figures per direction: the newest sample (raw) and the mean of the ten
newest samples (averaged). The adapter registry (`NetworkInterfaces`) lists
the adapters whose link is up and looks one up by identifier.

Files:

- `Enumerable.dfy` (module `Enumerable`): the LINQ operators the core uses
  (`Where`, `FirstOrDefault`, `Take`, an exact `Average` followed by a cast
  that truncates toward zero) and the lemmas about them.
- `NetworkInterfaces.dfy` (module `NetworkInterfaces`): `FetchOperational`
  and `Fetch` as pure functions over the operating system's enumeration,
  which is a parameter.
- `NetGraphForm.dfy` (module `NetGraphSampler`): the `Sample` value, the per-tick
  decision `RelativeSample` as a function, the state machine on values
  (`Tick`, `Run`) with its trace lemmas, and the class `NetGraphForm`, whose
  fields `lastSample`, `history` (newest first) and the four displayed figures
  are updated in place by `SampleAdapter`, `CreateRelativeSample`, `AddSample`
  and `UpdateStats`. A ghost field `ticks` records every tick's input, and
  `Valid()` ties the fields to `Run(ticks)`, so the trace lemmas apply to the
  object.

Each tick's input is one parameter of type `Option<IPInterfaceStatistics>`:
`None` when no adapter is selected (`Options.NetworkInterface` is null),
`Some(stats)` with the adapter's `BytesReceived` and `BytesSent` otherwise.

`Sample` and the graph control are defined elsewhere in the program and are
not modelled as written; `Sample` is modelled as `Sample(downstream, upstream)` with field-wise
subtraction and `Max` the larger of the two fields, and the graph as a
history that `AddSample` extends at the front and whose first element is the
newest (`GetSamples()` enumerates newest first). The history keeps every
sample ever added; any capacity limit of the real control is not modelled.

The model follows the code's exact conditions:
the guard at `Source/Forms/NetGraphForm.cs:66` tests `lastSample?.Max > 0`,
where `lastSample` is the local copy of the previous `LastSample`, taken at
line 61 before line 62 overwrites the property with the current reading. It
tests that `Max` is positive, not that "the prior sample is non-zero", so a prior reading whose larger field is
not positive gives a zero sample; and the code does not clamp, so the tick on
which counters drop (an adapter switch or reset) emits a negative interval.
`NetGraphSampler.ResetScenario` shows both on the four-tick example
(1000, 500), (1500, 700), (0, 0), (50, 10).

## Model

| member | source | states |
|---|---|---|
| `NetworkInterfaces.FetchOperational` | Source/NetworkInterfaces.cs:12-14 | every adapter returned has status Up, and an adapter is returned iff it is in the enumeration with status Up |
| `NetworkInterfaces.FetchOperationalIsUpSubset` | Source/NetworkInterfaces.cs:13 | the result holds each Up adapter exactly as often as the enumeration does and nothing else, and is a subsequence of the enumeration (order preserved) |
| `NetworkInterfaces.Fetch` | Source/NetworkInterfaces.cs:16-18 | a non-null result has the requested id and is in the enumeration; the result is null iff no adapter in the enumeration has that id (no error case) |
| `NetworkInterfaces.FetchReturnsFirstMatch` | Source/NetworkInterfaces.cs:17 | when adapter i is the first with the id, Fetch returns exactly that adapter, whatever later adapters share the id |
| `Enumerable.Where` | Source/NetworkInterfaces.cs:13 | every kept element satisfies the predicate, and an element is kept iff it is in the input and satisfies it |
| `Enumerable.Take` | Source/Forms/NetGraphForm.cs:83 | a prefix of the history of length min(n, size) |
| `Enumerable.TruncatingDivide` | Source/Forms/NetGraphForm.cs:84-85 | the quotient truncated toward zero: for a non-negative sum q*n <= a < q*n + n, for a negative sum q*n - n < a <= q*n, and the quotient has the sum's sign |
| `Enumerable.AverageBounds` | Source/Forms/NetGraphForm.cs:84-85 | the truncated mean of values that all lie in [lo, hi] lies in [lo, hi] |
| `NetGraphSampler.RelativeSample` | Source/Forms/NetGraphForm.cs:56-76 | no adapter: zero sample and LastSample unchanged; an adapter: LastSample becomes its reading (BytesReceived downstream, BytesSent upstream) on both paths; no prior reading or a prior with Max not positive: zero sample whatever the reading; a prior with Max > 0: current minus prior, field by field |
| `NetGraphSampler.RunLastSample` | Source/Forms/NetGraphForm.cs:29 | after any sequence of ticks LastSample is the reading of the latest tick that had an adapter, or unset if none had |
| `NetGraphSampler.RunHistoryLength` | Source/Forms/NetGraphForm.cs:50-54 | each tick adds exactly one sample to the history |
| `NetGraphSampler.RunHistoryAt` | Source/Forms/NetGraphForm.cs:50-72 | the sample added by tick k is that tick's reading diffed against the latest earlier reading, under the zero guard |
| `NetGraphSampler.FirstSampleIsZero` | Source/Forms/NetGraphForm.cs:29-39 | LastSample starts unset, so the first sample ever emitted, the last of the full newest-first sequence of emitted samples, is always (0, 0) |
| `NetGraphSampler.ResetScenario` | Source/Forms/NetGraphForm.cs:56-72 | readings (1000, 500), (1500, 700), (0, 0), (50, 10) give samples (0, 0), (500, 200), (-1500, -700), (0, 0) |
| `NetGraphSampler.SmoothedBounds` | Source/Forms/NetGraphForm.cs:83-85 | both averaged figures lie within any bounds that hold for the ten newest samples |
| `NetGraphSampler.NetGraphForm.constructor` | Source/Forms/NetGraphForm.cs:31-40 | the form starts with LastSample unset, ticks once, and then holds the history [(0, 0)] and four zero figures |
| `NetGraphSampler.NetGraphForm.SampleAdapter` | Source/Forms/NetGraphForm.cs:50-54 | the relative sample is prepended to the history, LastSample is updated as RelativeSample says, the first sample ever emitted (last in the history) is (0, 0), and the figures then show the new history (Valid) |
| `NetGraphSampler.NetGraphForm.CreateRelativeSample` | Source/Forms/NetGraphForm.cs:56-72 | returns the sample and leaves LastSample as RelativeSample specifies, touching nothing else |
| `NetGraphSampler.NetGraphForm.AddSample` | Source/Forms/NetGraphForm.cs:51 | the sample becomes the newest element of the history |
| `NetGraphSampler.NetGraphForm.UpdateStats` | Source/Forms/NetGraphForm.cs:78-86 | on a non-empty history the raw figures are the newest sample's fields and the averaged figures the truncated per-direction mean of the ten newest samples |

## Left out

- Window code: dragging, painting, the close and minimize buttons and the settings dialog (`Source/Forms/NetGraphForm.cs:94-128`) have no logic to state.
- Options: `Options.FromSettings` and `SyncOptionsWithGraph` (setting the graph's maximum speed from `NicSpeeds[nic.Id]`) are configuration whose types are not part of this model.
- The timer: a tick is an explicit call of `SampleAdapter`.
- Operating-system calls: `GetIPStatistics()` and `GetAllNetworkInterfaces()` are foreign; their results are parameters (the counter pair per tick, the adapter sequence).
- Graph rendering and its `MaximumSpeed` scaling: only the graph's history of samples is kept.
- NetGraphSampler.FirstSampleIsZero: the graph is modelled as keeping every sample, so the fact is about the full sequence of emitted samples; if the real control drops old samples, its oldest retained sample need not be (0, 0). A capacity limit does not affect the raw figures or the 10-sample average as long as the control keeps at least ten samples.
- NetGraphSampler.NetGraphForm.SampleAdapter: its "last element of the history is (0, 0)" clause rests on the same unbounded-history assumption.
- Label text: the figures are kept as integers, not as the strings `ToString()` produces.
- Enumerable.Average: the mean is computed exactly and truncated toward zero; the double-precision rounding of very large counters before the `(long)` cast is not modelled, nor is the `OverflowException` that LINQ's `Average` over `long` throws when its checked `long` sum of the window overflows.
- NetGraphSampler.RelativeSample: counters are unbounded integers; 64-bit overflow of `long` subtraction is not modelled.
- `NetworkInterface`: only the id and the operational status are modelled; the rated link speed belongs to the options, which are left out.
