/** The log dashboard: a window of at most 15 entries, filled either from the logs handed to it
    or by a simulated monitoring entry every ten seconds, plus the level colours and icons and
    the status cards. */
module LogDashboard {
  import opened Wrappers
  import Lists

  datatype Level = Info | Warning | Error | Success

  /** Timestamps are ISO strings, as rendered by `toISOString`. */
  datatype DashEntry = DashEntry(timestamp: string, level: Level, message: string, source: string)

  const WindowSize: nat := 15

  /** The simulated monitoring entry: a warning above 80% cpu, else info. `stamp` and `message`
      are the platform's rendering of the clock and of the metrics. */
  function SimulatedEntry(cpu: real, stamp: string, message: string): (e: DashEntry)
    ensures e.level == Warning <==> cpu > 80.0
    ensures e.level != Warning ==> e.level == Info
    ensures e.source == "monitoring"
  {
    DashEntry(stamp, if cpu > 80.0 then Warning else Info, message, "monitoring")
  }

  /** `getLevelColor`: 'info' takes the default branch. */
  function LevelColor(level: Level): string {
    match level
    case Error => "text-red-400"
    case Warning => "text-amber-400"
    case Success => "text-emerald-400"
    case _ => "text-cyan-400"
  }

  /** `getLevelIcon`: 'info' takes the default branch. */
  function LevelIcon(level: Level): string {
    match level
    case Error => "❌"
    case Warning => "⚠️"
    case Success => "✅"
    case _ => "📊"
  }

  /** Each level has its own colour and its own icon; 'info' is shown as cyan with the chart icon. */
  lemma LevelStylesDistinct(a: Level, b: Level)
    ensures LevelColor(a) == LevelColor(b) <==> a == b
    ensures LevelIcon(a) == LevelIcon(b) <==> a == b
    ensures LevelColor(Info) == "text-cyan-400" && LevelIcon(Info) == "📊"
  {
  }

  /** The status card: SECURED in green below a 5% error rate, otherwise ALERT in red. */
  function StatusCard(errorRate: real): (card: (string, string))
    ensures card.0 == "🛡️ SECURED" <==> errorRate < 5.0
  {
    if errorRate < 5.0 then ("🛡️ SECURED", "text-emerald-400") else ("⚠️ ALERT", "text-red-400")
  }

  /** The cpu card turns red above 80%, the same bound as the simulated warning. */
  function CpuCardColor(cpu: real): (color: string)
    ensures color == "text-red-400" <==> SimulatedEntry(cpu, "", "").level == Warning
  {
    if cpu > 80.0 then "text-red-400" else "text-cyan-400"
  }

  /** The dashboard's log list. */
  class LogWindow {
    var logs: seq<DashEntry>

    /** The list starts as the handed-in logs, or empty when none are handed in. */
    constructor (external: Option<seq<DashEntry>>)
      ensures logs == external.GetOr([])
    {
      logs := external.GetOr([]);
    }

    /** The update effect: non-empty handed-in logs are shown as their first 15 entries and the
        simulation stays off; otherwise the list is left alone and the simulation runs. */
    method Sync(external: Option<seq<DashEntry>>) returns (simulating: bool)
      modifies this
      ensures simulating <==> !(external.Some? && |external.value| > 0)
      ensures !simulating ==> logs == Lists.Take(external.value, WindowSize)
      ensures simulating ==> logs == old(logs)
    {
      if external.Some? && |external.value| > 0 {
        logs := Lists.Take(external.value, WindowSize);
        return false;
      }
      return true;
    }

    /** One simulation tick: the new entry goes first and the list is cut to 15 entries. */
    method SimulateTick(cpu: real, stamp: string, message: string)
      modifies this
      ensures logs == Lists.PushFrontCapped(SimulatedEntry(cpu, stamp, message), old(logs), WindowSize)
      ensures |logs| <= WindowSize && logs[0] == SimulatedEntry(cpu, stamp, message)
      ensures logs[1..] == old(logs)[..|logs| - 1]
    {
      var e := SimulatedEntry(cpu, stamp, message);
      Lists.PushFrontCappedShape(e, logs, WindowSize);
      logs := Lists.PushFrontCapped(e, logs, WindowSize);
    }
  }
}
