/** The metrics collector's decisions: the status band of real readings, the clamping applied to
    what is pushed, the zero used when a Prometheus query yields nothing, and the simulated
    fallback. The HTTP queries and `Math.random` are inputs. */
module MetricsCollector {
  import opened Wrappers

  datatype Status = Nominal | Busy | Stress | GhostDetected

  datatype SystemMetrics = SystemMetrics(cpuLoad: real, dbConnections: real, memoryUsage: real, status: Status)

  /** `queryPrometheus`: the first result's value, or 0 when the query fails or has no result. */
  function QueryValue(result: Option<real>): real {
    result.GetOr(0.0)
  }

  /** The status of real readings: stress above 85% CPU or 90% memory, else busy above 60% CPU
      or 75% memory, else nominal. */
  function RealStatus(cpu: real, memory: real): Status {
    if cpu > 85.0 || memory > 90.0 then Stress
    else if cpu > 60.0 || memory > 75.0 then Busy
    else Nominal
  }

  lemma RealStatusBands(cpu: real, memory: real)
    ensures RealStatus(cpu, memory) == Stress <==> cpu > 85.0 || memory > 90.0
    ensures RealStatus(cpu, memory) == Busy <==> !(cpu > 85.0 || memory > 90.0) && (cpu > 60.0 || memory > 75.0)
    ensures RealStatus(cpu, memory) == Nominal <==> cpu <= 60.0 && memory <= 75.0
    ensures RealStatus(cpu, memory) != GhostDetected
  {
  }

  /** `Math.max(0, Math.min(100, x))` */
  function Percent(x: real): (r: real)
    ensures 0.0 <= r <= 100.0
    ensures 0.0 <= x <= 100.0 ==> r == x
  {
    if 100.0 < x then 100.0 else if x < 0.0 then 0.0 else x
  }

  /** `collectRealMetrics`: the status is taken from the raw readings, then CPU and memory are
      clamped to [0, 100] and connections to at least 0. */
  function CollectRealMetrics(cpu: Option<real>, connections: Option<real>, memory: Option<real>): (m: SystemMetrics)
    ensures 0.0 <= m.cpuLoad <= 100.0 && 0.0 <= m.memoryUsage <= 100.0 && m.dbConnections >= 0.0
    ensures m.status != GhostDetected
  {
    var c, d, mem := QueryValue(cpu), QueryValue(connections), QueryValue(memory);
    SystemMetrics(Percent(c), if d < 0.0 then 0.0 else d, Percent(mem), RealStatus(c, mem))
  }

  /** Clamping never moves a reading into another band, so the status of the raw readings is the
      status of the values pushed. */
  lemma ClampKeepsStatus(cpu: Option<real>, connections: Option<real>, memory: Option<real>)
    ensures var m := CollectRealMetrics(cpu, connections, memory);
            m.status == RealStatus(m.cpuLoad, m.memoryUsage)
  {
  }

  /** A missing reading counts as 0 and so never raises the status. */
  lemma MissingReadingsAreNominal(connections: Option<real>)
    ensures CollectRealMetrics(None, connections, None).status == Nominal
    ensures CollectRealMetrics(None, connections, None).cpuLoad == 0.0
  {
  }

  /** `getSimulatedMetrics`, given the three `Math.random()` draws. */
  function SimulatedMetrics(r1: real, r2: real, r3: real): SystemMetrics
    requires 0.0 <= r1 < 1.0 && 0.0 <= r2 < 1.0 && 0.0 <= r3 < 1.0
  {
    var cpu := (r1 * 60.0).Floor + 10;
    var connections := (r2 * 10.0).Floor + 2;
    var memory := (r3 * 50.0).Floor + 30;
    var status := if cpu > 80 then Stress else if cpu > 50 then Busy else Nominal;
    SystemMetrics(cpu as real, connections as real, memory as real, status)
  }

  /** The simulated readings are whole numbers with CPU in [10, 69], connections in [2, 11] and
      memory in [30, 79]; the status is busy exactly above 50% CPU and never stress, as the
      stress branch needs a CPU the draw cannot give. */
  lemma SimulatedRanges(r1: real, r2: real, r3: real)
    requires 0.0 <= r1 < 1.0 && 0.0 <= r2 < 1.0 && 0.0 <= r3 < 1.0
    ensures var m := SimulatedMetrics(r1, r2, r3);
            && m.cpuLoad.Floor as real == m.cpuLoad && 10.0 <= m.cpuLoad <= 69.0
            && m.dbConnections.Floor as real == m.dbConnections && 2.0 <= m.dbConnections <= 11.0
            && m.memoryUsage.Floor as real == m.memoryUsage && 30.0 <= m.memoryUsage <= 79.0
            && (m.status == Busy <==> m.cpuLoad > 50.0)
            && m.status != Stress && m.status != GhostDetected
  {
    FloorBelow(r1, 60);
    FloorBelow(r2, 10);
    FloorBelow(r3, 50);
  }

  /** `Math.floor(r * n)` for a draw r in [0, 1) lies in [0, n - 1]. */
  lemma FloorBelow(r: real, n: nat)
    requires 0.0 <= r < 1.0 && n > 0
    ensures 0 <= (r * n as real).Floor <= n - 1
  {
    assert 0.0 <= r * n as real < n as real;
  }
}
