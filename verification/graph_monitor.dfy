/** The sampling tick of the graph window (hello.cpp, `main`): take one
    reading, append its memory figure and its CPU figure to their histories.
    Event polling, drawing and the one-second sleep are not modelled. */
module GraphMonitor {
  import opened Wrappers
  import opened SystemUsage
  import RollingWindow

  /** Everything that survives from one tick to the next. A memory sample is
      `None` where the source would store a non-finite float. */
  datatype MonitorState = MonitorState(
    counters: CounterState,
    memoryHistory: seq<Option<real>>,
    cpuHistory: seq<real>)

  /** Zero counters and two histories of 100 zero samples. */
  function Start(): MonitorState {
    MonitorState(InitialCounters, RollingWindow.Filled(Some(0.0)), RollingWindow.Filled(0.0))
  }

  /** What one tick reads: the memory counter lines and the CPU ticks. */
  datatype TickInput = TickInput(meminfo: seq<string>, ticks: CpuTicks)

  /** One tick: each history gains this tick's sample at the back. */
  function Tick(s: MonitorState, input: TickInput): (r: MonitorState)
    ensures r.counters == CounterState(input.ticks.idle, TotalTicks(input.ticks))
    ensures |s.memoryHistory| == RollingWindow.Capacity ==>
      |r.memoryHistory| == RollingWindow.Capacity &&
      r.memoryHistory[..RollingWindow.Capacity - 1] == s.memoryHistory[1..] &&
      r.memoryHistory[RollingWindow.Capacity - 1]
        == GetSystemUsage(s.counters, input.meminfo, input.ticks).memory
    ensures |s.cpuHistory| == RollingWindow.Capacity ==>
      |r.cpuHistory| == RollingWindow.Capacity &&
      r.cpuHistory[..RollingWindow.Capacity - 1] == s.cpuHistory[1..] &&
      r.cpuHistory[RollingWindow.Capacity - 1]
        == GetSystemUsage(s.counters, input.meminfo, input.ticks).cpu
  {
    var u := GetSystemUsage(s.counters, input.meminfo, input.ticks);
    MonitorState(u.next, RollingWindow.Push(s.memoryHistory, u.memory), RollingWindow.Push(s.cpuHistory, u.cpu))
  }

  function Run(s: MonitorState, inputs: seq<TickInput>): MonitorState
    decreases |inputs|
  {
    if inputs == [] then s else Run(Tick(s, inputs[0]), inputs[1..])
  }

  /** The readings a run of ticks produces, the counter state threaded
      through them. */
  function Readings(prev: CounterState, inputs: seq<TickInput>): (us: seq<UsageSample>)
    ensures |us| == |inputs|
    decreases |inputs|
  {
    if inputs == [] then []
    else
      var u := GetSystemUsage(prev, inputs[0].meminfo, inputs[0].ticks);
      [u] + Readings(u.next, inputs[1..])
  }

  function MemorySeries(us: seq<UsageSample>): (ms: seq<Option<real>>)
    ensures |ms| == |us|
    ensures forall i :: 0 <= i < |us| ==> ms[i] == us[i].memory
  {
    if us == [] then [] else [us[0].memory] + MemorySeries(us[1..])
  }

  function CpuSeries(us: seq<UsageSample>): (cs: seq<real>)
    ensures |cs| == |us|
    ensures forall i :: 0 <= i < |us| ==> cs[i] == us[i].cpu
  {
    if us == [] then [] else [us[0].cpu] + CpuSeries(us[1..])
  }

  /** A run appends exactly its readings to each history, one per tick, and
      leaves the raw ticks of its last input as the counter state. */
  lemma {:induction false} RunAppendsReadings(s: MonitorState, inputs: seq<TickInput>)
    ensures var us := Readings(s.counters, inputs);
            && Run(s, inputs).memoryHistory == RollingWindow.PushAll(s.memoryHistory, MemorySeries(us))
            && Run(s, inputs).cpuHistory == RollingWindow.PushAll(s.cpuHistory, CpuSeries(us))
            && (inputs != [] ==>
                  Run(s, inputs).counters
                  == CounterState(inputs[|inputs| - 1].ticks.idle, TotalTicks(inputs[|inputs| - 1].ticks)))
    decreases |inputs|
  {
    if inputs != [] {
      var s' := Tick(s, inputs[0]);
      RunAppendsReadings(s', inputs[1..]);
      var us := Readings(s.counters, inputs);
      assert MemorySeries(us)[1..] == MemorySeries(us[1..]);
      assert CpuSeries(us)[1..] == CpuSeries(us[1..]);
    }
  }

  /** From start-up, after any number of ticks both histories hold exactly
      100 samples: the zeros not yet pushed out, then every reading so far. */
  lemma HistoriesAfterRun(inputs: seq<TickInput>)
    ensures var r := Run(Start(), inputs);
            var us := Readings(InitialCounters, inputs);
            && |r.memoryHistory| == RollingWindow.Capacity
            && |r.cpuHistory| == RollingWindow.Capacity
            && r.memoryHistory == (RollingWindow.Filled(Some(0.0)) + MemorySeries(us))[|inputs|..]
            && r.cpuHistory == (RollingWindow.Filled(0.0) + CpuSeries(us))[|inputs|..]
  {
    var us := Readings(InitialCounters, inputs);
    RunAppendsReadings(Start(), inputs);
    RollingWindow.PushAllFull(RollingWindow.Filled(Some(0.0)), MemorySeries(us));
    RollingWindow.PushAllFull(RollingWindow.Filled(0.0), CpuSeries(us));
  }
}
