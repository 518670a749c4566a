/** One reading of host memory occupancy and CPU load (hello.cpp,
    `getSystemUsage`). The counter files become parameters: the memory
    counter text as its lines, the CPU counters as four tick counts. The
    function-local static carry-over is an explicit `CounterState`. */
module SystemUsage {
  import opened Wrappers
  import Tokens
  import Numerals

  /** Raw idle and total ticks read by the previous call. */
  datatype CounterState = CounterState(prevIdle: int, prevTotal: int)

  /** Both counters start at zero when the process starts. */
  const InitialCounters: CounterState := CounterState(0, 0)

  /** Cumulative tick counters since boot, as the first CPU line lists them. */
  datatype CpuTicks = CpuTicks(user: int, nice: int, system: int, idle: int)

  function TotalTicks(t: CpuTicks): int {
    t.user + t.nice + t.system + t.idle
  }

  /** A CPU load figure together with the state the next call starts from. */
  datatype CpuSample = CpuSample(load: real, next: CounterState)

  /** The CPU half of `getSystemUsage`: load over the ticks elapsed since the
      previous call, or 0 when no ticks elapsed. No clamp is applied. */
  function SampleCpu(prev: CounterState, t: CpuTicks): (r: CpuSample)
    ensures r.next.prevTotal == TotalTicks(t)
    ensures r.next.prevIdle == t.idle
    ensures var totalDiff := TotalTicks(t) - prev.prevTotal;
            var idleDiff := t.idle - prev.prevIdle;
            && (totalDiff > 0 ==> r.load * totalDiff as real == 100.0 * (totalDiff - idleDiff) as real)
            && (totalDiff <= 0 ==> r.load == 0.0)
            && (0 <= idleDiff <= totalDiff && totalDiff > 0 ==> 0.0 <= r.load <= 100.0)
  {
    var total := TotalTicks(t);
    var totalDiff := total - prev.prevTotal;
    var idleDiff := t.idle - prev.prevIdle;
    var load := if totalDiff > 0 then 100.0 * (1.0 - idleDiff as real / totalDiff as real) else 0.0;
    CpuSample(load, CounterState(t.idle, total))
  }

  /** Percentage of memory in use. The source divides without a guard, so a
      zero total yields no finite figure; that case is `None` here. */
  function MemoryPercent(total: int, avail: int): (r: Option<real>)
    ensures r.None? <==> total == 0
    ensures r.Some? ==> r.value * total as real == 100.0 * (total - avail) as real
    ensures 0 < total && 0 <= avail <= total ==> r.Some? && 0.0 <= r.value <= 100.0
  {
    if total == 0 then None else Some(100.0 * (1.0 - avail as real / total as real))
  }

  /** The first token of a memory counter line, or "" for a blank line. */
  function KeyOf(line: string): string {
    var ws := Tokens.Words(line);
    if |ws| > 0 then ws[0] else ""
  }

  /** The second token read as an integer; a failed extraction gives 0. */
  function ValueOf(line: string): int {
    var ws := Tokens.Words(line);
    if |ws| > 1 then Numerals.ParseInt(ws[1]).GetOr(0) else 0
  }

  const TotalKey: string := "MemTotal:"
  const AvailableKey: string := "MemAvailable:"

  datatype MemCounters = MemCounters(total: int, avail: int)

  /** The line loop: a total line overwrites the total, the first
      available line sets the available figure and ends the scan. */
  function ScanFrom(lines: seq<string>, acc: MemCounters): MemCounters
    decreases |lines|
  {
    if lines == [] then acc
    else
      var key := KeyOf(lines[0]);
      var acc' := if key == TotalKey then acc.(total := ValueOf(lines[0])) else acc;
      if key == AvailableKey then acc'.(avail := ValueOf(lines[0]))
      else ScanFrom(lines[1..], acc')
  }

  /** Both figures start at 0 and stay 0 when their key never appears. */
  function ScanMeminfo(lines: seq<string>): MemCounters {
    ScanFrom(lines, MemCounters(0, 0))
  }

  /** Index of the first available-memory line, or `|lines|`. */
  function FirstAvailable(lines: seq<string>): (k: nat)
    ensures k <= |lines|
    ensures k < |lines| ==> KeyOf(lines[k]) == AvailableKey
    ensures forall i :: 0 <= i < k ==> KeyOf(lines[i]) != AvailableKey
  {
    if lines == [] then 0
    else if KeyOf(lines[0]) == AvailableKey then 0
    else 1 + FirstAvailable(lines[1..])
  }

  /** The value on the last total line of `lines`, or `d` if there is none. */
  function LastTotalOr(lines: seq<string>, d: int): int
    decreases |lines|
  {
    if lines == [] then d
    else if KeyOf(lines[|lines| - 1]) == TotalKey then ValueOf(lines[|lines| - 1])
    else LastTotalOr(lines[..|lines| - 1], d)
  }

  lemma {:induction false} LastTotalOrCons(l: string, rest: seq<string>, d: int)
    ensures LastTotalOr([l] + rest, d)
         == LastTotalOr(rest, if KeyOf(l) == TotalKey then ValueOf(l) else d)
    decreases |rest|
  {
    if rest != [] {
      var ls := [l] + rest;
      assert ls[|ls| - 1] == rest[|rest| - 1];
      assert ls[..|ls| - 1] == [l] + rest[..|rest| - 1];
      LastTotalOrCons(l, rest[..|rest| - 1], d);
    } else {
      assert [l] + rest == [l];
      assert [l][..0] == [];
    }
  }

  lemma {:induction false} ScanFromSpec(lines: seq<string>, acc: MemCounters)
    ensures var k := FirstAvailable(lines);
            && ScanFrom(lines, acc).avail == (if k < |lines| then ValueOf(lines[k]) else acc.avail)
            && ScanFrom(lines, acc).total == LastTotalOr(lines[..k], acc.total)
    decreases |lines|
  {
    if lines != [] {
      var l := lines[0];
      var acc' := if KeyOf(l) == TotalKey then acc.(total := ValueOf(l)) else acc;
      if KeyOf(l) == AvailableKey {
        assert lines[..0] == [];
      } else {
        ScanFromSpec(lines[1..], acc');
        var k := FirstAvailable(lines);
        assert lines[..k] == [l] + lines[1..][..k - 1];
        LastTotalOrCons(l, lines[1..][..k - 1], acc.total);
      }
    }
  }

  /** The scan reads the available figure from the first available-memory
      line (0 if there is none) and the total from the last total line before
      it (0 if there is none). */
  lemma ScanMeminfoSpec(lines: seq<string>)
    ensures var k := FirstAvailable(lines);
            && ScanMeminfo(lines).avail == (if k < |lines| then ValueOf(lines[k]) else 0)
            && ScanMeminfo(lines).total == LastTotalOr(lines[..k], 0)
  {
    ScanFromSpec(lines, MemCounters(0, 0));
  }

  lemma {:induction false} ScanFromStopsAtAvailable(lines: seq<string>, rest: seq<string>, acc: MemCounters)
    requires FirstAvailable(lines) < |lines|
    ensures ScanFrom(lines + rest, acc) == ScanFrom(lines, acc)
    decreases |lines|
  {
    assert (lines + rest)[0] == lines[0];
    if KeyOf(lines[0]) != AvailableKey {
      assert (lines + rest)[1..] == lines[1..] + rest;
      var acc' := if KeyOf(lines[0]) == TotalKey then acc.(total := ValueOf(lines[0])) else acc;
      ScanFromStopsAtAvailable(lines[1..], rest, acc');
    }
  }

  /** Lines after the first available-memory line are never consulted. */
  lemma ScanStopsAtAvailable(lines: seq<string>, rest: seq<string>)
    requires FirstAvailable(lines) < |lines|
    ensures ScanMeminfo(lines + rest) == ScanMeminfo(lines)
  {
    ScanFromStopsAtAvailable(lines, rest, MemCounters(0, 0));
  }

  /** What one call reports, and the counter state it leaves behind. */
  datatype UsageSample = UsageSample(memory: Option<real>, cpu: real, next: CounterState)

  /** One call: memory occupancy from the counter lines, CPU load from the
      ticks against the carried state, then the raw ticks become the state. */
  function GetSystemUsage(prev: CounterState, meminfo: seq<string>, t: CpuTicks): (r: UsageSample)
    ensures r.next == CounterState(t.idle, TotalTicks(t))
    ensures r.memory == MemoryPercent(ScanMeminfo(meminfo).total, ScanMeminfo(meminfo).avail)
    ensures r.cpu == SampleCpu(prev, t).load
  {
    var mem := ScanMeminfo(meminfo);
    var cpu := SampleCpu(prev, t);
    UsageSample(MemoryPercent(mem.total, mem.avail), cpu.load, cpu.next)
  }

  /** The first call measures against zero counters rather than reporting 0;
      a baseline of (10, 0, 0, 90) followed by (20, 0, 0, 170) is 90 elapsed
      ticks of which 80 idle, a load of 100/9. */
  lemma BaselineThenSecondSample()
    ensures SampleCpu(InitialCounters, CpuTicks(10, 0, 0, 90)).load == 10.0
    ensures SampleCpu(SampleCpu(InitialCounters, CpuTicks(10, 0, 0, 90)).next,
                      CpuTicks(20, 0, 0, 170)).load == 100.0 / 9.0
  {
    var baseline := SampleCpu(InitialCounters, CpuTicks(10, 0, 0, 90));
    assert baseline.next == CounterState(90, 100);
    var second := SampleCpu(baseline.next, CpuTicks(20, 0, 0, 170));
    assert second.load * 90.0 == 1000.0;
  }

  /** Ticks elapsed with the idle counter unchanged mean full load. */
  lemma IdleUnchangedIsFullLoad(prev: CounterState, t: CpuTicks)
    requires t.idle == prev.prevIdle
    requires TotalTicks(t) > prev.prevTotal
    ensures SampleCpu(prev, t).load == 100.0
  {
  }

  /** No clamp: an idle counter that went backwards yields a load above 100. */
  lemma LoadIsNotClamped()
    ensures SampleCpu(CounterState(50, 100), CpuTicks(200, 0, 0, 0)).load == 150.0
  {
  }
}
