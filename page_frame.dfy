/** The page's rendering of the safe-mode decision: the frame colour with safe mode taking
    precedence over health, the matching border glow and animation, the footer label and the
    banner. */
module PageFrame {
  import opened SystemStatus

  datatype FrameColor = IceBlue | Red | Orange | Metallic {
    /** The class-name suffix `frame-<name>`. */
    function Name(): string {
      match this
      case IceBlue => "ice-blue"
      case Red => "red"
      case Orange => "orange"
      case Metallic => "metallic"
    }
  }

  /** `getFrameColor` */
  function FrameColorOf(isSafeMode: bool, health: Health): FrameColor {
    if isSafeMode then IceBlue
    else if health == Critical then Red
    else if health == Degraded then Orange
    else Metallic
  }

  /** The frame is ice-blue exactly when safe mode is on; otherwise health picks red, orange or metallic. */
  lemma FrameColorPrecedence(isSafeMode: bool, health: Health)
    ensures FrameColorOf(isSafeMode, health) == IceBlue <==> isSafeMode
    ensures !isSafeMode && health == Critical ==> FrameColorOf(isSafeMode, health) == Red
    ensures !isSafeMode && health == Degraded ==> FrameColorOf(isSafeMode, health) == Orange
    ensures !isSafeMode && health == Healthy ==> FrameColorOf(isSafeMode, health) == Metallic
  {
  }

  datatype Glow = IceGlow | DangerGlow | GoldGlow
  datatype FrameAnimation = IcePulse | DangerPulse | MetallicShimmer

  /** The `boxShadow` choice of the frame style. */
  function BoxShadow(isSafeMode: bool, health: Health): Glow {
    if isSafeMode then IceGlow else if health == Critical then DangerGlow else GoldGlow
  }

  /** The `animation` choice of the frame style. */
  function AnimationOf(isSafeMode: bool, health: Health): FrameAnimation {
    if isSafeMode then IcePulse else if health == Critical then DangerPulse else MetallicShimmer
  }

  /** The border glow and the animation follow the frame colour's precedence: safe mode first,
      then critical health; degraded and healthy share the gold glow and the shimmer. */
  lemma GlowFollowsFrame(isSafeMode: bool, health: Health)
    ensures BoxShadow(isSafeMode, health) == IceGlow <==> FrameColorOf(isSafeMode, health) == IceBlue
    ensures BoxShadow(isSafeMode, health) == DangerGlow <==> FrameColorOf(isSafeMode, health) == Red
    ensures AnimationOf(isSafeMode, health) == IcePulse <==> FrameColorOf(isSafeMode, health) == IceBlue
    ensures AnimationOf(isSafeMode, health) == DangerPulse <==> FrameColorOf(isSafeMode, health) == Red
  {
  }

  /** The footer's "Frame:" label. */
  function FooterLabel(f: FrameColor): string {
    if f == Metallic then "GOLD/SILVER/PLATINUM"
    else if f == IceBlue then "ICE BLUE (SAFE MODE)"
    else if f == Red then "RED (CRITICAL)"
    else "ORANGE (DEGRADED)"
  }

  /** Distinct frame colours get distinct footer labels. */
  lemma FooterLabelOneToOne(f: FrameColor, g: FrameColor)
    ensures FooterLabel(f) == FooterLabel(g) <==> f == g
  {
  }

  /** The safe-mode banner is rendered exactly when safe mode is on. */
  predicate BannerShown(isSafeMode: bool) {
    isSafeMode
  }

  lemma BannerIffIceBlue(isSafeMode: bool, health: Health)
    ensures BannerShown(isSafeMode) <==> FrameColorOf(isSafeMode, health) == IceBlue
  {
  }
}
