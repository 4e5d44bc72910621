/** The system-status provider: the live metrics, the coarse health classification derived from
    them, the periodic tick that perturbs and clamps the metrics, and the bounded log buffer. */
module SystemStatus {
  import Lists

  datatype Health = Healthy | Degraded | Critical

  /** Severity order of the health levels. */
  function Rank(h: Health): nat {
    match h
    case Healthy => 0
    case Degraded => 1
    case Critical => 2
  }

  datatype Metrics = Metrics(cpu: real, memory: real, requestRate: real, activeConnections: int, errorRate: real)

  const DefaultMetrics := Metrics(25.0, 40.0, 120.0, 45, 0.5)

  /** `calculateSystemHealth`: the most severe rule that applies wins; bounds are inclusive. */
  function Classify(m: Metrics): Health {
    if m.cpu >= 90.0 || m.memory >= 90.0 || m.errorRate >= 10.0 then Critical
    else if m.cpu >= 70.0 || m.memory >= 75.0 || m.errorRate >= 5.0 then Degraded
    else Healthy
  }

  /** Health is critical exactly at or above one of the three critical bounds, degraded exactly
      when no critical bound but some degraded bound is reached, and healthy otherwise. */
  lemma ClassifyBands(m: Metrics)
    ensures Classify(m) == Critical <==> m.cpu >= 90.0 || m.memory >= 90.0 || m.errorRate >= 10.0
    ensures Classify(m) == Degraded <==>
      !(m.cpu >= 90.0 || m.memory >= 90.0 || m.errorRate >= 10.0)
      && (m.cpu >= 70.0 || m.memory >= 75.0 || m.errorRate >= 5.0)
    ensures Classify(m) == Healthy <==> m.cpu < 70.0 && m.memory < 75.0 && m.errorRate < 5.0
  {
  }

  /** Raising cpu, memory or error rate never makes the classification less severe. */
  lemma ClassifyMonotone(a: Metrics, b: Metrics)
    requires a.cpu <= b.cpu && a.memory <= b.memory && a.errorRate <= b.errorRate
    ensures Rank(Classify(a)) <= Rank(Classify(b))
  {
  }

  /** The metrics the provider starts with are healthy. */
  lemma DefaultMetricsHealthy()
    ensures Classify(DefaultMetrics) == Healthy
    ensures InRange(DefaultMetrics)
  {
  }

  /** `Math.max(lo, Math.min(hi, x))` */
  function Clamp(lo: real, hi: real, x: real): (r: real)
    requires lo <= hi
    ensures lo <= r <= hi
    ensures lo <= x <= hi ==> r == x
  {
    var capped := if x < hi then x else hi;
    if capped > lo then capped else lo
  }

  /** `Clamp` on whole numbers, for the connection count: Dafny orders `int` and `real` separately,
      so the same clamp is written once for each. */
  function ClampInt(lo: int, hi: int, x: int): (r: int)
    requires lo <= hi
    ensures lo <= r <= hi
    ensures lo <= x <= hi ==> r == x
  {
    var capped := if x < hi then x else hi;
    if capped > lo then capped else lo
  }

  /** The five random changes of one tick; the generator draws them from bounded ranges, but the
      clamping below holds whatever they are. */
  datatype Perturbation = Perturbation(cpu: real, memory: real, requestRate: real, connections: int, errorRate: real)

  /** The ranges every tick keeps the metrics in. */
  predicate InRange(m: Metrics) {
    && 5.0 <= m.cpu <= 95.0
    && 20.0 <= m.memory <= 90.0
    && 0.0 <= m.requestRate <= 1000.0
    && 0 <= m.activeConnections <= 500
    && 0.0 <= m.errorRate <= 15.0
  }

  /** The metrics after one tick: the previous value plus its change, clamped to its range. */
  function NextMetrics(prev: Metrics, d: Perturbation): (next: Metrics)
    ensures InRange(next)
  {
    Metrics(
      Clamp(5.0, 95.0, prev.cpu + d.cpu),
      Clamp(20.0, 90.0, prev.memory + d.memory),
      Clamp(0.0, 1000.0, prev.requestRate + d.requestRate),
      ClampInt(0, 500, prev.activeConnections + d.connections),
      Clamp(0.0, 15.0, prev.errorRate + d.errorRate))
  }

  /** A tick whose changes keep every metric inside its range moves each metric by exactly
      its change. */
  lemma NextMetricsExactInsideRange(prev: Metrics, d: Perturbation)
    requires InRange(Metrics(prev.cpu + d.cpu, prev.memory + d.memory, prev.requestRate + d.requestRate,
                             prev.activeConnections + d.connections, prev.errorRate + d.errorRate))
    ensures NextMetrics(prev, d) == Metrics(prev.cpu + d.cpu, prev.memory + d.memory, prev.requestRate + d.requestRate,
                                            prev.activeConnections + d.connections, prev.errorRate + d.errorRate)
  {
  }

  datatype Category = Auth | Api | Database | Security | System
  datatype Severity = Info | Warning | Error | CriticalSeverity

  /** A log entry as `addLog` receives it, before the id and timestamp are attached. */
  datatype LogDraft = LogDraft(category: Category, message: string, severity: Severity)

  /** Timestamps are milliseconds since the epoch; the id is the random string `addLog` draws. */
  datatype LogEntry = LogEntry(id: string, timestamp: int, category: Category, message: string, severity: Severity)

  function Stamp(d: LogDraft, id: string, now: int): LogEntry {
    LogEntry(id, now, d.category, d.message, d.severity)
  }

  const MaxLogs: nat := 50

  function InitialLogs(now: int): seq<LogEntry> {
    [ LogEntry("1", now, System, "System initialized successfully", Info),
      LogEntry("2", now - 5000, Security, "Ghost detection active - all clear", Info) ]
  }

  predicate CpuCrossed(prev: Metrics, next: Metrics) {
    next.cpu > 80.0 && prev.cpu <= 80.0
  }

  predicate ErrorRateCrossed(prev: Metrics, next: Metrics) {
    next.errorRate > 5.0 && prev.errorRate <= 5.0
  }

  /** The warning a tick logs when cpu crosses 80; `cpuText` is the one-decimal rendering of the new cpu. */
  function CpuWarning(cpuText: string): LogDraft {
    LogDraft(System, "High CPU usage detected: " + cpuText + "%", Warning)
  }

  /** The error a tick logs when the error rate crosses 5; `errorText` renders the new rate. */
  function ErrorRateAlert(errorText: string): LogDraft {
    LogDraft(Security, "Elevated error rate: " + errorText + "%", Error)
  }

  /** The entries one tick puts in front of the log, newest (first) to oldest. */
  function TickEntries(prev: Metrics, next: Metrics, now: int, warnId: string, errorId: string,
                       cpuText: string, errorText: string): seq<LogEntry>
  {
    (if ErrorRateCrossed(prev, next) then [Stamp(ErrorRateAlert(errorText), errorId, now)] else [])
    + (if CpuCrossed(prev, next) then [Stamp(CpuWarning(cpuText), warnId, now)] else [])
  }

  /** A tick logs a warning exactly when cpu crosses from at most 80 to above 80, and an error
      exactly when the error rate crosses from at most 5 to above 5; nothing else is logged. */
  lemma TickEntriesExactly(prev: Metrics, next: Metrics, now: int, warnId: string, errorId: string,
                           cpuText: string, errorText: string)
    ensures var es := TickEntries(prev, next, now, warnId, errorId, cpuText, errorText);
      && (exists i :: 0 <= i < |es| && es[i].severity == Warning) == CpuCrossed(prev, next)
      && (exists i :: 0 <= i < |es| && es[i].severity == Error) == ErrorRateCrossed(prev, next)
      && |es| == (if CpuCrossed(prev, next) then 1 else 0) + (if ErrorRateCrossed(prev, next) then 1 else 0)
  {
    var es := TickEntries(prev, next, now, warnId, errorId, cpuText, errorText);
    if CpuCrossed(prev, next) {
      assert es[|es| - 1].severity == Warning;
    }
    if ErrorRateCrossed(prev, next) {
      assert es[0].severity == Error;
    }
  }

  /** The provider's state: the metrics and the log list, both replaced through state setters. */
  class StatusProvider {
    var metrics: Metrics
    var logs: seq<LogEntry>

    ghost predicate Valid()
      reads this
    {
      InRange(metrics) && |logs| <= MaxLogs
    }

    /** The provider starts with the default metrics and exactly two log entries. */
    constructor (now: int)
      ensures Valid()
      ensures metrics == DefaultMetrics && logs == InitialLogs(now)
      ensures Classify(metrics) == Healthy && |logs| == 2
    {
      metrics := DefaultMetrics;
      logs := InitialLogs(now);
    }

    /** `systemHealth`, recomputed from the current metrics on every render. */
    function SystemHealth(): Health
      reads this
    {
      Classify(metrics)
    }

    /** `addLog`: the new entry goes first and the list is cut to 50 entries. */
    method AddLog(draft: LogDraft, id: string, now: int)
      modifies this`logs
      ensures logs == Lists.PushFrontCapped(Stamp(draft, id, now), old(logs), MaxLogs)
      ensures |logs| <= MaxLogs && logs[0] == Stamp(draft, id, now)
      ensures logs[1..] == old(logs)[..|logs| - 1]
    {
      Lists.PushFrontCappedShape(Stamp(draft, id, now), logs, MaxLogs);
      logs := Lists.PushFrontCapped(Stamp(draft, id, now), logs, MaxLogs);
    }

    /** One interval tick: clamp the perturbed metrics, then log the threshold crossings,
        the cpu warning before the error-rate alert (so the alert ends up first). */
    method Tick(d: Perturbation, now: int, warnId: string, errorId: string, cpuText: string, errorText: string)
      requires Valid()
      modifies this
      ensures Valid()
      ensures metrics == NextMetrics(old(metrics), d)
      ensures logs == Lists.Take(TickEntries(old(metrics), metrics, now, warnId, errorId, cpuText, errorText)
                                 + old(logs), MaxLogs)
    {
      var prev := metrics;
      var next := NextMetrics(prev, d);
      ghost var before := logs;
      if CpuCrossed(prev, next) {
        AddLog(CpuWarning(cpuText), warnId, now);
      }
      if ErrorRateCrossed(prev, next) {
        AddLog(ErrorRateAlert(errorText), errorId, now);
      }
      metrics := next;
      var w := Stamp(CpuWarning(cpuText), warnId, now);
      var e := Stamp(ErrorRateAlert(errorText), errorId, now);
      if CpuCrossed(prev, next) && ErrorRateCrossed(prev, next) {
        Lists.PushFrontCappedTwice(w, e, before, MaxLogs);
      } else if !CpuCrossed(prev, next) && !ErrorRateCrossed(prev, next) {
        assert before == before[..|before|];
      }
    }
  }
}
