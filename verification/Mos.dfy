/**
 The MOS score of a stream from its loss and round-trip time, over the reals: the simplified
 E-model with the conversion of Annex B of ITU-T G.107.
 */
module Mos {

  // Loss of quality through delay, rtt in milliseconds.
  function DelayImpairment(rtt: real): real {
    0.024 * rtt + if rtt > 177.3 then 0.11 * (rtt - 177.3) else 0.0
  }

  function LossImpairment(loss: real): real
    requires loss >= 0.0
  {
    95.0 * loss / (loss + 10.0)
  }

  function Rating(loss: real, rtt: real): real
    requires loss >= 0.0
  {
    94.2 - DelayImpairment(rtt) - LossImpairment(loss)
  }

  function Score(r: real): real {
    1.0 + 0.035 * r + r * (r - 60.0) * (100.0 - r) * 0.000007
  }

  function ComputeMos(loss: real, rtt: real): real
    requires loss >= 0.0
  {
    Score(Rating(loss, rtt))
  }

  lemma QuotientOrder(p: real, q: real, r: real, s: real)
    requires q > 0.0 && s > 0.0 && p * s <= r * q
    ensures p / q <= r / s
  {
    var x, y := p / q, r / s;
    assert p == x * q && r == y * s;
    assert (y - x) * (q * s) == r * q - p * s;
    Nonnegative(y - x, q * s);
  }

  lemma Nonnegative(d: real, m: real)
    requires m > 0.0 && d * m >= 0.0
    ensures d >= 0.0
  {
  }

  lemma ProductNonnegative(x: real, y: real)
    requires x >= 0.0 && y >= 0.0
    ensures x * y >= 0.0
  {
  }

  lemma LossMonotone(a: real, b: real)
    requires 0.0 <= a <= b
    ensures 0.0 <= LossImpairment(a) <= LossImpairment(b)
  {
    QuotientOrder(95.0 * a, a + 10.0, 95.0 * b, b + 10.0);
    QuotientOrder(0.0, 1.0, 95.0 * a, a + 10.0);
  }

  lemma DelayMonotone(a: real, b: real)
    requires a <= b
    ensures DelayImpairment(a) <= DelayImpairment(b)
  {
  }

  // The ratings of the working range.
  lemma RatingRange(loss: real, rtt: real)
    requires 0.0 <= loss <= 1.0 && 0.0 <= rtt <= 700.0
    ensures 10.0 <= Rating(loss, rtt) <= 94.2
  {
    LossMonotone(0.0, loss);
    LossMonotone(loss, 1.0);
    DelayMonotone(0.0, rtt);
    DelayMonotone(rtt, 700.0);
    assert LossImpairment(1.0) < 8.7 && LossImpairment(0.0) == 0.0;
  }

  lemma SquareBelowChord(r: real)
    requires 10.0 <= r <= 94.2
    ensures r * r <= 105.0 * r - 950.0
  {
    ProductNonnegative(r - 10.0, 95.0 - r);
    assert (r - 10.0) * (95.0 - r) == 105.0 * r - r * r - 950.0;
  }

  lemma ScoreMonotone(a: real, b: real)
    requires 10.0 <= a <= b <= 94.2
    ensures Score(a) <= Score(b)
  {
    SquareBelowChord(a);
    SquareBelowChord(b);
    ProductNonnegative(b - a, b - a);
    assert (b - a) * (b - a) == b * b - 2.0 * (a * b) + a * a;
    assert a * b <= (a * a + b * b) / 2.0;
    assert Slope(a, b) >= 0.0;
    ScoreDifference(a, b);
    ProductNonnegative(b - a, Slope(a, b));
  }

  lemma ScoreExpanded(r: real)
    ensures Score(r) == 1.0 + 0.000007 * (160.0 * (r * r) - r * r * r - 1000.0 * r)
  {
    assert r * (r - 60.0) == r * r - 60.0 * r;
    assert (r * r - 60.0 * r) * (100.0 - r) == 160.0 * (r * r) - r * r * r - 6000.0 * r;
  }

  // The factor of b - a in Score(b) - Score(a), but for scale.
  function Slope(a: real, b: real): real {
    160.0 * (a + b) - (a * a + a * b + b * b) - 1000.0
  }

  lemma ScoreDifference(a: real, b: real)
    ensures Score(b) - Score(a) == 0.000007 * ((b - a) * Slope(a, b))
  {
    ScoreExpanded(a);
    ScoreExpanded(b);
    assert (b - a) * (a + b) == b * b - a * a;
    assert (b - a) * (a * a + a * b + b * b) == b * b * b - a * a * a;
    var x, y := 160.0 * (a + b), a * a + a * b + b * b;
    assert (b - a) * (x - y - 1000.0) == (b - a) * x - (b - a) * y - 1000.0 * (b - a);
  }

  /** More loss or more delay never scores better, up to 700 ms of round trip. */
  lemma MosNeverImproves(loss1: real, rtt1: real, loss2: real, rtt2: real)
    requires 0.0 <= loss1 <= loss2 <= 1.0 && 0.0 <= rtt1 <= rtt2 <= 700.0
    ensures ComputeMos(loss2, rtt2) <= ComputeMos(loss1, rtt1)
  {
    RatingRange(loss1, rtt1);
    RatingRange(loss2, rtt2);
    LossMonotone(loss1, loss2);
    DelayMonotone(rtt1, rtt2);
    ScoreMonotone(Rating(loss2, rtt2), Rating(loss1, rtt1));
  }

  /** In that range the score is a valid one. */
  lemma MosInScale(loss: real, rtt: real)
    requires 0.0 <= loss <= 1.0 && 0.0 <= rtt <= 700.0
    ensures 1.0 <= ComputeMos(loss, rtt) <= 4.5
  {
    RatingRange(loss, rtt);
    ScoreMonotone(10.0, Rating(loss, rtt));
    ScoreMonotone(Rating(loss, rtt), 94.2);
  }

  /* ----- Off the scale ----- */

  // Minus the derivative of the score, but for scale.
  function Turning(r: real): real {
    3.0 * (r * r) - 320.0 * r + 1000.0
  }

  // Up to the lesser root of the derivative, about 3.22, a lower rating scores higher.
  predicate PastTurning(r: real) {
    r < 50.0 && Turning(r) >= 0.0
  }

  lemma RatingAtMost(loss: real, rtt: real)
    requires 0.0 <= loss && rtt >= 0.0
    ensures Rating(loss, rtt) <= 94.2
  {
    LossMonotone(0.0, loss);
  }

  lemma Positive(x: real, y: real)
    requires x > 0.0 && y > 0.0
    ensures x * y > 0.0
  {
  }

  lemma SlopeBefore(r: real, d: real)
    ensures Slope(r - d, r) == -Turning(r) - d * (160.0 - 3.0 * r + d)
  {
    var a := r - d;
    assert a * a == r * r - 2.0 * (d * r) + d * d;
    assert a * r == r * r - d * r;
    assert d * (160.0 - 3.0 * r + d) == 160.0 * d - 3.0 * (d * r) + d * d;
  }

  // Past the turning rating the score strictly falls as the rating rises.
  lemma ScoreFalls(a: real, b: real)
    requires a < b && PastTurning(b)
    ensures Score(a) > Score(b)
  {
    var d := b - a;
    SlopeBefore(b, d);
    Positive(d, 160.0 - 3.0 * b + d);
    ScoreDifference(a, b);
    hide Turning, Slope, Score;
    Positive(d, -Slope(a, b));
    assert d * -Slope(a, b) == -(d * Slope(a, b));
  }

  lemma TurningBelowZero(r: real)
    requires r <= 94.2 && !PastTurning(r)
    ensures Turning(r) < 0.0 && r >= 0.0
  {
    if r >= 50.0 {
      ProductNonnegative(r - 50.0, 94.2 - r);
      assert (r - 50.0) * (94.2 - r) == 144.2 * r - r * r - 4710.0;
    } else if r < 0.0 {
      ProductNonnegative(-r, -r);
    }
  }

  lemma Split(d: real, x: real, y: real)
    ensures d * (x + y) == d * x + d * y
  {
  }

  // Before it, a slightly lower rating scores less.
  lemma ScoreRises(r: real, d: real)
    requires r <= 94.2 && !PastTurning(r) && 0.0 < d <= 1.0 && d * 200.0 <= -Turning(r)
    ensures Score(r - d) < Score(r)
  {
    TurningBelowZero(r);
    hide *;
    var x, y := 160.0 - 3.0 * r + d, 40.0 + 3.0 * r - d;
    SlopeBefore(r, d);
    Positive(d, y);
    Split(d, x, y);
    assert Slope(r - d, r) >= d * y;
    ScoreDifference(r - d, r);
    Positive(d, Slope(r - d, r));
    assert r - (r - d) == d;
  }

  /** More delay, however much or little, strictly raises the score exactly from the turning rating
      on. */
  lemma DelayRaisesScoreExactly(loss: real, rtt: real)
    requires 0.0 <= loss && rtt >= 0.0
    ensures (forall later: real :: later > rtt ==> ComputeMos(loss, later) > ComputeMos(loss, rtt))
            <==> PastTurning(Rating(loss, rtt))
  {
    var r := Rating(loss, rtt);
    if PastTurning(r) {
      forall later: real | later > rtt ensures ComputeMos(loss, later) > ComputeMos(loss, rtt) {
        ScoreFalls(Rating(loss, later), r);
      }
    } else {
      RatingAtMost(loss, rtt);
      TurningBelowZero(r);
      var step := if -Turning(r) / 200.0 < 1.0 then -Turning(r) / 200.0 else 1.0;
      var d := r - Rating(loss, rtt + step);
      assert 0.0 < d <= step;
      hide Score, Turning;
      ScoreRises(r, d);
      assert ComputeMos(loss, rtt + step) < ComputeMos(loss, rtt);
    }
  }

  /** Nothing clamps the rating: a score is at least 1 exactly when the rating is not positive or no
      smaller than 80 - sqrt(5400), the lesser root of r*r - 160r + 1000. */
  lemma AtLeastOneExactly(loss: real, rtt: real)
    requires 0.0 <= loss && rtt >= 0.0
    ensures var r := Rating(loss, rtt);
            ComputeMos(loss, rtt) >= 1.0 <==> r <= 0.0 || r >= 80.0 || (80.0 - r) * (80.0 - r) <= 5400.0
  {
    var r := Rating(loss, rtt);
    var d := r * r - 160.0 * r + 1000.0;
    ScoreExpanded(r);
    RatingAtMost(loss, rtt);
    assert r * d == r * r * r - 160.0 * (r * r) + 1000.0 * r;
    assert Score(r) == 1.0 - 0.000007 * (r * d);
    assert (80.0 - r) * (80.0 - r) == d + 5400.0;
    if r >= 80.0 {
      ProductNonnegative(r - 80.0, 94.2 - r);
      assert (r - 80.0) * (94.2 - r) == 174.2 * r - r * r - 7536.0;
    }
    if r > 0.0 {
      if d > 0.0 { Positive(r, d); } else { ProductNonnegative(r, -d); }
    } else if r < 0.0 {
      ProductNonnegative(-r, -r);
      Positive(-r, d);
    }
  }

  /** Where the rating leaves the scale: above 4.5 below -46.9, below 1 between 0 and 6.51, and in the
      scale from 6.52 on and from -46.8 to 0. Between the bounds given there is one crossing, because
      the score is monotone there. */
  lemma ScaleThresholds(loss: real, rtt: real)
    requires 0.0 <= loss <= 1.0 && rtt >= 0.0
    ensures var r, mos := Rating(loss, rtt), ComputeMos(loss, rtt);
            && (r <= -46.9 ==> mos > 4.5)
            && (-46.8 <= r <= 0.0 ==> 1.0 <= mos <= 4.5)
            && (0.0 < r <= 6.51 ==> mos < 1.0)
            && (6.52 <= r ==> 1.0 <= mos <= 4.5)
  {
    var r := Rating(loss, rtt);
    RatingAtMost(loss, rtt);
    AtLeastOneExactly(loss, rtt);
    if r <= -46.9 {
      if r < -46.9 { ScoreFalls(r, -46.9); }
    } else if -46.8 <= r <= 0.0 {
      if -46.8 < r { ScoreFalls(-46.8, r); }
    } else if 0.0 < r <= 6.51 {
      ProductNonnegative(6.51 - r, 153.49 - r);
      assert (6.51 - r) * (153.49 - r) == r * r - 160.0 * r + 999.2199;
    } else if 6.52 <= r {
      ProductNonnegative(r - 6.52, 153.48 - r);
      assert (r - 6.52) * (153.48 - r) == 160.0 * r - r * r - 1000.6896;
      if r < 10.0 { AtMostMiddle(r); } else { ScoreMonotone(r, 94.2); }
    }
  }

  /** With no loss, in the round trip: in the scale up to 799.8 ms, below 1 from 800 to 848.5, in the scale
      again from 848.6 to 1197.7, and above 4.5 from 1198.6 on. */
  lemma DelayThresholds(rtt: real)
    requires rtt >= 0.0
    ensures var mos := ComputeMos(0.0, rtt);
            && (rtt <= 799.8 ==> 1.0 <= mos <= 4.5)
            && (800.0 <= rtt <= 848.5 ==> mos < 1.0)
            && (848.6 <= rtt <= 1197.7 ==> 1.0 <= mos <= 4.5)
            && (1198.6 <= rtt ==> mos > 4.5)
  {
    assert Rating(0.0, rtt) == 94.2 - DelayImpairment(rtt);
    assert rtt > 177.3 ==> DelayImpairment(rtt) == 0.134 * rtt - 19.503;
    hide ComputeMos;
    ScaleThresholds(0.0, rtt);
  }

  /** At 750 ms, in the loss: in the scale up to 75.6 per cent, below 1 from 75.8 on. */
  lemma LossThresholds(loss: real)
    requires 0.0 <= loss <= 1.0
    ensures loss <= 0.756 ==> 1.0 <= ComputeMos(loss, 750.0) <= 4.5
    ensures loss >= 0.758 ==> ComputeMos(loss, 750.0) < 1.0
  {
    assert DelayImpairment(750.0) == 80.997;
    assert LossImpairment(0.756) < 6.683 && LossImpairment(0.758) > 6.693 && LossImpairment(1.0) < 8.7;
    if loss <= 0.756 { LossMonotone(loss, 0.756); }
    if loss >= 0.758 { LossMonotone(0.758, loss); }
    LossMonotone(loss, 1.0);
    hide ComputeMos, LossImpairment, DelayImpairment;
    ScaleThresholds(loss, 750.0);
  }

  /** What a perfect stream and what total loss score. */
  lemma BestAndWorstLoss()
    ensures 4.427 < ComputeMos(0.0, 0.0) < 4.428 && 4.215 < ComputeMos(1.0, 0.0) < 4.216
  {
    assert LossImpairment(0.0) == 0.0 && LossImpairment(1.0) == 95.0 / 11.0;
  }

  lemma AtMostMiddle(r: real)
    requires 0.0 <= r <= 10.0
    ensures Score(r) <= 4.5
  {
    ScoreExpanded(r);
    ProductNonnegative(r, 10.0 - r);
    ProductNonnegative(r * r, r);
  }

  /** Two seconds of round trip score off the scale, better than a tenth of a second. */
  lemma LongDelayScoresOffScale()
    ensures ComputeMos(0.0, 2000.0) > 5.0 > ComputeMos(0.0, 100.0)
  {
    assert Rating(0.0, 2000.0) == 94.2 - 248.497;
    assert Rating(0.0, 100.0) == 91.8;
  }
}
