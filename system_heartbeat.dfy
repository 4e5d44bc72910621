/** The page-wide heartbeat glow: its pulse duration and colour from the load. */
module SystemHeartbeat {

  /** `intensity * 100`; the page passes `cpu / 100`. */
  function Load(intensity: real): real {
    intensity * 100.0
  }

  /** Seconds per pulse: 0.8 above 80, 1.5 above 50, 2.5 otherwise. */
  function PulseDuration(load: real): real {
    if load > 80.0 then 0.8 else if load > 50.0 then 1.5 else 2.5
  }

  function GlowColor(load: real): string {
    if load > 80.0 then "rgba(255, 0, 0, 0.12)"
    else if load > 50.0 then "rgba(255, 200, 0, 0.08)"
    else "rgba(0, 247, 255, 0.06)"
  }

  /** What the component renders: the pulse duration and the glow colour. */
  datatype Glow = Glow(duration: real, color: string)

  /** `SystemHeartbeat({ intensity })`: both read the load `intensity * 100`. */
  function HeartbeatOf(intensity: real): Glow {
    var load := Load(intensity);
    Glow(PulseDuration(load), GlowColor(load))
  }

  /** The page passes `cpu / 100`: the heartbeat is banded by the cpu itself, red and fastest
      strictly above 80, amber above 50, cyan otherwise. */
  lemma PageHeartbeat(cpu: real)
    ensures HeartbeatOf(cpu / 100.0) == Glow(PulseDuration(cpu), GlowColor(cpu))
    ensures HeartbeatOf(cpu / 100.0).duration == 0.8 <==> cpu > 80.0
    ensures HeartbeatOf(cpu / 100.0).color == "rgba(0, 247, 255, 0.06)" <==> cpu <= 50.0
  {
    assert Load(cpu / 100.0) == cpu;
  }

  datatype Band = High | Medium | Normal

  function BandOf(load: real): Band {
    if load > 80.0 then High else if load > 50.0 then Medium else Normal
  }

  /** The pulse gets faster (its duration never grows) as the load rises. */
  lemma PulseSpeedsUp(a: real, b: real)
    requires a <= b
    ensures PulseDuration(b) <= PulseDuration(a)
  {
  }

  /** Duration and colour use the same strict thresholds: each determines the band and the other. */
  lemma DurationAndColorCoincide(a: real, b: real)
    ensures PulseDuration(a) == PulseDuration(b) <==> BandOf(a) == BandOf(b)
    ensures GlowColor(a) == GlowColor(b) <==> BandOf(a) == BandOf(b)
    ensures PulseDuration(a) == 0.8 <==> a > 80.0
    ensures PulseDuration(a) == 1.5 <==> 50.0 < a <= 80.0
  {
  }
}
