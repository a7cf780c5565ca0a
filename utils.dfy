/** The shared helpers of src/lib/utils.ts: the capped percentage, the three colour bands of a
    percentage, and the animation delay of the i-th item of a list. Class-name merging and
    number formatting are presentation and are not part of this model. */
module Utils {
  import opened Numeric

  /** `calcPercent`: 0 for a zero total, otherwise the rounded percentage capped at 100.
      Only the upper end is capped: a negative ratio gives a negative percentage. */
  function CalcPercent(value: real, total: real): (r: int)
    ensures total == 0.0 ==> r == 0
    ensures total != 0.0 ==> r <= 100
    ensures total != 0.0 ==> (r == 100 <==> Round(value / total * 100.0) >= 100)
    ensures total != 0.0 && r < 100 ==> r as real <= value / total * 100.0 + 0.5 < r as real + 1.0
  {
    if total == 0.0 then 0
    else
      var rounded := Round(value / total * 100.0);
      if rounded <= 100 then rounded else 100
  }

  /** The whole is 100%. */
  lemma CalcPercentOfWhole(total: real)
    requires total != 0.0
    ensures CalcPercent(total, total) == 100
  {
    assert total / total * 100.0 == 100.0;
    RoundOfInteger(100);
  }

  /** A part of a positive total is between 0 and 100%, and a larger part never shows less. */
  lemma CalcPercentOfPart(value: real, other: real, total: real)
    requires 0.0 <= value <= other && total > 0.0
    ensures 0 <= CalcPercent(value, total) <= CalcPercent(other, total) <= 100
  {
    assert value / total * 100.0 <= other / total * 100.0 by {
      assert value / total <= other / total;
    }
    RoundMonotone(0.0, value / total * 100.0);
    RoundMonotone(value / total * 100.0, other / total * 100.0);
  }

  /** A negative ratio is not clamped below: 1 of -4 is -25%. */
  lemma CalcPercentOfNegativeRatio()
    ensures CalcPercent(1.0, -4.0) == -25
  {
    assert 1.0 / -4.0 * 100.0 == -25.0;
    RoundOfInteger(-25);
  }

  /** The three bands of a percentage. */
  datatype Band = Green | Amber | Red

  function BandOf(percent: real): (b: Band)
    ensures b == Green <==> percent >= 80.0
    ensures b == Amber <==> 50.0 <= percent < 80.0
    ensures b == Red <==> percent < 50.0
  {
    if percent >= 80.0 then Green else if percent >= 50.0 then Amber else Red
  }

  /** `getStatusColor`: the text class of a percentage. */
  function StatusColor(percent: real): string
  {
    if percent >= 80.0 then "text-dg-green-600"
    else if percent >= 50.0 then "text-dg-amber-600"
    else "text-red-500"
  }

  /** `getStatusBg`: the background class of a percentage. */
  function StatusBg(percent: real): string
  {
    if percent >= 80.0 then "bg-dg-green-500"
    else if percent >= 50.0 then "bg-dg-amber-500"
    else "bg-red-500"
  }

  function TextClass(b: Band): string
  {
    match b
    case Green => "text-dg-green-600"
    case Amber => "text-dg-amber-600"
    case Red => "text-red-500"
  }

  function BackgroundClass(b: Band): string
  {
    match b
    case Green => "bg-dg-green-500"
    case Amber => "bg-dg-amber-500"
    case Red => "bg-red-500"
  }

  /** The text and the background of a percentage always come from the same band, so two
      percentages get the same text class exactly when they get the same background. */
  lemma ColourAndBackgroundAgree(percent: real, other: real)
    ensures StatusColor(percent) == TextClass(BandOf(percent))
    ensures StatusBg(percent) == BackgroundClass(BandOf(percent))
    ensures StatusColor(percent) == StatusColor(other) <==> StatusBg(percent) == StatusBg(other)
  {
    var b, c := BandOf(percent), BandOf(other);
    if b != c {
      assert TextClass(b) != TextClass(c) by {
        assert TextClass(b)[5] != TextClass(c)[5] || TextClass(b)[8] != TextClass(c)[8];
      }
      assert BackgroundClass(b) != BackgroundClass(c) by {
        assert BackgroundClass(b)[3] != BackgroundClass(c)[3] || BackgroundClass(b)[6] != BackgroundClass(c)[6];
      }
    }
  }

  /** The band never improves as the percentage falls. */
  lemma BandMonotone(percent: real, other: real)
    requires percent <= other
    ensures BandOf(percent) == Green ==> BandOf(other) == Green
    ensures BandOf(other) == Red ==> BandOf(percent) == Red
  {
  }

  const DEFAULT_DELAY: real := 0.1

  /** `staggerDelay`: the i-th item waits i base delays. */
  function StaggerDelay(index: real, baseDelay: real := DEFAULT_DELAY): real
  {
    index * baseDelay
  }

  /** The first item starts at once, each next one one base delay later, and with a positive
      base the delays grow with the index. */
  lemma StaggerSpacing(index: real, later: real, baseDelay: real)
    ensures StaggerDelay(0.0) == 0.0 && StaggerDelay(0.0, baseDelay) == 0.0
    ensures StaggerDelay(index + 1.0, baseDelay) - StaggerDelay(index, baseDelay) == baseDelay
    ensures StaggerDelay(1.0) == DEFAULT_DELAY
    ensures baseDelay > 0.0 && index < later ==> StaggerDelay(index, baseDelay) < StaggerDelay(later, baseDelay)
  {
    if baseDelay > 0.0 && index < later {
      assert (later - index) * baseDelay > 0.0;
    }
  }
}
