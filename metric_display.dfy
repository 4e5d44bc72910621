/** One metric tile: its status colour, text colour, progress bar and over-threshold overlay. */
module MetricDisplay {

  datatype Band = Red | Yellow | Green

  /** The band a value falls in: red at or above the threshold, yellow from 70% of it, green below. */
  function BandOf(value: real, threshold: real): Band {
    if value >= threshold then Red
    else if value >= threshold * 0.7 then Yellow
    else Green
  }

  /** `getStatusColor`; `isInverted` picks between two equal expressions. */
  function StatusColor(value: real, threshold: real, isInverted: bool): string {
    var isOverThreshold := value >= threshold;
    var isCritical := if isInverted then isOverThreshold else isOverThreshold;
    if isCritical then "border-red-500 bg-red-500/10"
    else if value >= threshold * 0.7 then "border-yellow-500 bg-yellow-500/10"
    else "border-green-500 bg-green-500/10"
  }

  /** `getTextColor` */
  function TextColor(value: real, threshold: real, isInverted: bool): string {
    var isOverThreshold := value >= threshold;
    var isCritical := if isInverted then isOverThreshold else isOverThreshold;
    if isCritical then "text-red-400"
    else if value >= threshold * 0.7 then "text-yellow-400"
    else "text-green-400"
  }

  function StatusClass(b: Band): string {
    match b
    case Red => "border-red-500 bg-red-500/10"
    case Yellow => "border-yellow-500 bg-yellow-500/10"
    case Green => "border-green-500 bg-green-500/10"
  }

  function TextClass(b: Band): string {
    match b
    case Red => "text-red-400"
    case Yellow => "text-yellow-400"
    case Green => "text-green-400"
  }

  /** Both colour helpers choose the same band for the same value, that band is the value's
      band, and `isInverted` changes nothing. */
  lemma ColorsAgreeOnBand(value: real, threshold: real, isInverted: bool)
    ensures StatusColor(value, threshold, isInverted) == StatusClass(BandOf(value, threshold))
    ensures TextColor(value, threshold, isInverted) == TextClass(BandOf(value, threshold))
    ensures StatusColor(value, threshold, isInverted) == StatusColor(value, threshold, !isInverted)
    ensures TextColor(value, threshold, isInverted) == TextColor(value, threshold, !isInverted)
  {
  }

  /** The band is red iff value >= threshold, yellow iff 0.7 threshold <= value < threshold. */
  lemma BandExactly(value: real, threshold: real)
    ensures BandOf(value, threshold) == Red <==> value >= threshold
    ensures BandOf(value, threshold) == Yellow <==> threshold * 0.7 <= value < threshold
    ensures BandOf(value, threshold) == Green <==> value < threshold && value < threshold * 0.7
  {
  }

  /** `Math.min((value / threshold) * 100, 100)`; every tile on the page has a positive threshold. */
  function Percentage(value: real, threshold: real): (p: real)
    requires threshold > 0.0
    ensures p <= 100.0
    ensures p == 100.0 || p == value / threshold * 100.0
  {
    var raw := value / threshold * 100.0;
    if raw < 100.0 then raw else 100.0
  }

  /** The progress bar's colour from the percentage. */
  function ProgressBand(percentage: real): Band {
    if percentage >= 100.0 then Red else if percentage >= 70.0 then Yellow else Green
  }

  /** Multiplying by a positive factor keeps the order. */
  lemma ScalePreservesOrder(q: real, k: real, t: real)
    requires t > 0.0
    ensures q * t >= k * t <==> q >= k
  {
    if q >= k {
      assert (q - k) * t >= 0.0;
    } else {
      assert (k - q) * t > 0.0;
    }
  }

  /** With a positive threshold the progress bar shows the same band as the text. */
  lemma ProgressMatchesText(value: real, threshold: real)
    requires threshold > 0.0
    ensures ProgressBand(Percentage(value, threshold)) == BandOf(value, threshold)
  {
    var q := value / threshold;
    assert q * threshold == value;
    ScalePreservesOrder(q, 1.0, threshold);
    ScalePreservesOrder(q, 0.7, threshold);
    assert threshold * 0.7 == 0.7 * threshold;
    ScalePreservesOrder(q * 100.0, 100.0, 1.0);
  }

  /** The pulsing red overlay is rendered exactly when the value reaches the threshold. */
  predicate OverlayShown(value: real, threshold: real) {
    value >= threshold
  }

  lemma OverlayIffRed(value: real, threshold: real)
    ensures OverlayShown(value, threshold) <==> BandOf(value, threshold) == Red
  {
  }
}
