// How far apart a snake that runs straight lays the points of its body.
module Spacing {
  import opened Geometry
  import opened Movement
  import opened Numbers
  import opened Snakes
  import Steering

  // ---- When the body's points were reached ---------------------------------

  // The ticks at which the head stood at each point of the body, newest first,
  // after n ticks: recording leaves the head where it was, sliding takes it along.
  function Marks(since: real, d: real, n: nat): (marks: seq<nat>)
    ensures |marks| == Recorded(since, d, n) + 1 && marks[0] == n
  {
    if n == 0 then [0]
    else if Records(since, d, n - 1) then [n] + Marks(since, d, n - 1)
    else Marks(since, d, n - 1)[0 := n]
  }

  // The tick after the t-th records a point.
  predicate Records(since: real, d: real, t: nat) {
    Since(since, d, t) + d >= SEGMENT_SPACING
  }

  // Behind the head lie the places from which a point was recorded, in order.
  lemma {:induction false} MarkFacts(since: real, d: real, n: nat, i: nat)
    requires i < |Marks(since, d, n)|
    ensures var t := Marks(since, d, n)[i];
            && t <= n && (i > 0 ==> t < n && Records(since, d, t))
            && (i > 0 ==> Recorded(since, d, t) == Recorded(since, d, n) - i)
  {
    if n > 0 && i > 0 {
      hide Records, Since;
      if Records(since, d, n - 1) {
        MarkFacts(since, d, n - 1, i - 1);
        assert Marks(since, d, n)[i] == Marks(since, d, n - 1)[i - 1];
        RecordedNext(since, d, n - 1);
      } else {
        MarkFacts(since, d, n - 1, i);
        RecordedNext(since, d, n - 1);
      }
    }
  }

  lemma RecordedNext(since: real, d: real, n: nat)
    ensures Recorded(since, d, n + 1) == Recorded(since, d, n) + (if Records(since, d, n) then 1 else 0)
  {
  }

  // What lies between two points d times some ticks apart.
  function Stretch(ticks: int, d: real): real { ticks as real * d }

  // The gap between the i-th point behind the head and the next: the length of a
  // tick, times the ticks between the two recordings.
  function Gap(since: real, d: real, n: nat, i: nat): real
    requires i + 1 < |Marks(since, d, n)|
  {
    var a: int, b: int := Marks(since, d, n)[i], Marks(since, d, n)[i + 1];
    Stretch(a - b, d)
  }

  lemma TravelAt(since: real, d: real, t: nat)
    ensures Stretch(t, d) == Since(since, d, t) + Recorded(since, d, t) as real * SEGMENT_SPACING - since
  {
    TravelBalances(since, d, t);
    hide Since, Recorded;
  }

  lemma StretchSplits(a: int, b: int, d: real)
    ensures Stretch(a - b, d) == Stretch(a, d) - Stretch(b, d)
  {
  }

  // Points j further down lie j spacings behind, but for what was carried over.
  lemma GapsAdd(since: real, d: real, n: nat, i: nat, j: nat)
    requires 1 <= i <= j < |Marks(since, d, n)|
    ensures var a: int, b: int := Marks(since, d, n)[i], Marks(since, d, n)[j];
            && Records(since, d, a) && Records(since, d, b)
            && Stretch(a - b, d) == (j - i) as real * SEGMENT_SPACING + Since(since, d, a) - Since(since, d, b)
  {
    MarkFacts(since, d, n, i);
    MarkFacts(since, d, n, j);
    var a: int, b: int := Marks(since, d, n)[i], Marks(since, d, n)[j];
    TravelAt(since, d, a);
    TravelAt(since, d, b);
    StretchSplits(a, b, d);
    hide Since, Recorded, Stretch, Records;
    assert (Recorded(since, d, a) - Recorded(since, d, b)) as real == (j - i) as real;
  }

  // ---- When all gaps are equal ---------------------------------------------

  // Every gap between recorded points, in a run of any length, is g.
  ghost predicate AllGaps(since: real, d: real, g: real) {
    forall n: nat, i: nat :: 1 <= i && i + 1 < |Marks(since, d, n)| ==> Gap(since, d, n, i) == g
  }

  // A spacing is a whole number of ticks.
  predicate Measures(d: real)
    requires d > 0.0
  {
    SEGMENT_SPACING / d == (SEGMENT_SPACING / d).Floor as real
  }

  lemma MeasuresIff(d: real, k: int)
    requires d > 0.0
    ensures Stretch(k, d) == SEGMENT_SPACING ==> Measures(d)
    ensures Measures(d) ==> Stretch((SEGMENT_SPACING / d).Floor, d) == SEGMENT_SPACING
  {
    var q := SEGMENT_SPACING / d;
    assert q * d == SEGMENT_SPACING;
    if Stretch(k, d) == SEGMENT_SPACING {
      assert (q - k as real) * d == 0.0;
      assert q == k as real;
    }
  }

  // A tick no longer than a spacing leaves less than a spacing to carry.
  lemma CarriedBounds(since: real, d: real, t: nat)
    requires 0.0 <= since < SEGMENT_SPACING && 0.0 < d <= SEGMENT_SPACING && Records(since, d, t)
    ensures SEGMENT_SPACING - d <= Since(since, d, t) < SEGMENT_SPACING
  {
    KeepsUp(since, d, t);
    hide Since;
  }

  lemma WholeGap(since: real, d: real, n: nat, i: nat)
    requires 0.0 <= since < SEGMENT_SPACING && 0.0 < d <= SEGMENT_SPACING && Measures(d)
    requires 1 <= i && i + 1 < |Marks(since, d, n)|
    ensures Gap(since, d, n, i) == SEGMENT_SPACING
  {
    var a: int, b: int := Marks(since, d, n)[i], Marks(since, d, n)[i + 1];
    GapsAdd(since, d, n, i, i + 1);
    CarriedBounds(since, d, a);
    CarriedBounds(since, d, b);
    var m := (SEGMENT_SPACING / d).Floor;
    MeasuresIff(d, m);
    StretchSplits(a - b, m, d);
    hide Records, Since, Measures;
    assert -d < Stretch(a - b - m, d) < d;
    WithinOneTick(a - b - m, d);
  }

  lemma WithinOneTick(k: int, d: real)
    requires d > 0.0 && -d < Stretch(k, d) < d
    ensures k == 0
  {
    if k != 0 {
      NotNegative((if k > 0 then k - 1 else -1 - k) as real, d);
      assert false;
    }
  }

  // A longer tick records every time.
  lemma LongGap(since: real, d: real, n: nat, i: nat)
    requires 0.0 <= since && d >= SEGMENT_SPACING && 1 <= i && i + 1 < |Marks(since, d, n)|
    ensures Gap(since, d, n, i) == d
  {
    MarkFacts(since, d, n, i);
    MarkFacts(since, d, n, i + 1);
    FallsBehind(since, d, n);
    FallsBehind(since, d, Marks(since, d, n)[i]);
    FallsBehind(since, d, Marks(since, d, n)[i + 1]);
  }

  // Any number of points is recorded in time.
  lemma EnoughRecorded(since: real, d: real, count: nat) returns (n: nat)
    requires 0.0 <= since < SEGMENT_SPACING && d > 0.0
    ensures Recorded(since, d, n) >= count
  {
    if d >= SEGMENT_SPACING {
      n := count;
      FallsBehind(since, d, n);
    } else {
      n := Archimedes(d, Times(count + 1, SEGMENT_SPACING));
      KeepsUp(since, d, n);
      TravelBalances(since, d, n);
      hide Since, Recorded;
      assert Times(count + 1, SEGMENT_SPACING) == (count + 1) as real * SEGMENT_SPACING;
      assert Recorded(since, d, n) as real > count as real - 1.0;
    }
  }

  // Equal gaps add up.
  lemma {:induction false} EqualGapsAdd(since: real, d: real, g: real, n: nat, j: nat)
    requires AllGaps(since, d, g) && 1 <= j < |Marks(since, d, n)|
    ensures var a: int, b: int := Marks(since, d, n)[1], Marks(since, d, n)[j]; Stretch(a - b, d) == Times(j - 1, g)
  {
    var marks: seq<int> := Marks(since, d, n);
    if j > 1 {
      EqualGapsAdd(since, d, g, n, j - 1);
      assert Gap(since, d, n, j - 1) == g;
      StretchSplits(marks[1] - marks[j], marks[1] - marks[j - 1], d);
      OneMore(j - 1, g);
      hide Times, Stretch, AllGaps;
    }
  }

  // So gaps that are all alike under a short tick are a spacing each: any other
  // gap drifts away from the travel.
  lemma EqualGapsAreSpacings(since: real, d: real, g: real)
    requires 0.0 <= since < SEGMENT_SPACING && 0.0 < d < SEGMENT_SPACING && AllGaps(since, d, g)
    ensures g == SEGMENT_SPACING
  {
    if g != SEGMENT_SPACING {
      var drift := Abs(g - SEGMENT_SPACING);
      var count := Archimedes(drift, d);
      var n := EnoughRecorded(since, d, count + 1);
      var a: int, b: int := Marks(since, d, n)[1], Marks(since, d, n)[count + 1];
      EqualGapsAdd(since, d, g, n, count + 1);
      GapsAdd(since, d, n, 1, count + 1);
      CarriedBounds(since, d, a);
      CarriedBounds(since, d, b);
      hide AllGaps, Records, Since, Recorded, Marks, Stretch;
      assert Times(count, g) == Times(count, SEGMENT_SPACING) + Times(count, g - SEGMENT_SPACING) by {
        TimesAdds(count, SEGMENT_SPACING, g - SEGMENT_SPACING);
        assert SEGMENT_SPACING + (g - SEGMENT_SPACING) == g;
      }
      TimesAbs(count, g - SEGMENT_SPACING);
      hide Times;
      assert false;
    }
  }

  lemma TimesAbs(n: nat, x: real)
    ensures Times(n, Abs(x)) == Abs(Times(n, x))
  {
    if x < 0.0 { NotNegative(n as real, -x); assert n as real * -x == -(n as real * x); } else { NotNegative(n as real, x); }
  }

  lemma SomeGap(since: real, d: real, g: real) returns (k: int)
    requires 0.0 <= since < SEGMENT_SPACING && d > 0.0 && AllGaps(since, d, g)
    ensures Stretch(k, d) == g
  {
    var n := EnoughRecorded(since, d, 2);
    var marks: seq<int> := Marks(since, d, n);
    k := marks[1] - marks[2];
    assert Gap(since, d, n, 1) == g;
  }

  // However much is carried over, the body's points lie equally far apart exactly
  // when a tick covers a spacing or more, or a spacing is a whole number of ticks.
  lemma EvenSpacingIff(since: real, d: real)
    requires 0.0 <= since < SEGMENT_SPACING && d > 0.0
    ensures (exists g :: AllGaps(since, d, g)) <==> d >= SEGMENT_SPACING || Measures(d)
  {
    hide Gap, Measures;
    if d >= SEGMENT_SPACING {
      assert AllGaps(since, d, d) by {
        forall n: nat, i: nat | 1 <= i && i + 1 < |Marks(since, d, n)| ensures Gap(since, d, n, i) == d { LongGap(since, d, n, i); }
      }
    } else {
      SpacingKeptIff(since, d);
      if g :| AllGaps(since, d, g) { EqualGapsAreSpacings(since, d, g); }
    }
  }

  // They lie a spacing apart exactly when a spacing is a whole number of ticks.
  lemma SpacingKeptIff(since: real, d: real)
    requires 0.0 <= since < SEGMENT_SPACING && d > 0.0
    ensures AllGaps(since, d, SEGMENT_SPACING) <==> Measures(d)
  {
    hide Gap;
    if Measures(d) {
      assert d <= SEGMENT_SPACING by { MeasuresIff(d, 0); AtLeastOnce(d); }
      forall n: nat, i: nat | 1 <= i && i + 1 < |Marks(since, d, n)| ensures Gap(since, d, n, i) == SEGMENT_SPACING {
        WholeGap(since, d, n, i);
      }
    }
    if AllGaps(since, d, SEGMENT_SPACING) {
      var k := SomeGap(since, d, SEGMENT_SPACING);
      MeasuresIff(d, k);
    }
  }

  lemma AtLeastOnce(d: real)
    requires d > 0.0 && Measures(d)
    ensures d <= SEGMENT_SPACING
  {
    var q := SEGMENT_SPACING / d;
    assert q * d == SEGMENT_SPACING;
    if d > SEGMENT_SPACING {
      assert false;
    }
  }

  // ---- At a tick rate ------------------------------------------------------

  // A cruising snake's points lie equally far apart up to 18 ticks a second and at
  // multiples of 55, a boosting one's up to 34 and at multiples of 209; a spacing
  // apart they lie at the multiples alone.
  lemma TickRatesSpaceEvenly(s: Snake, rate: int, since: real)
    requires rate >= 1 && 0.0 <= since < SEGMENT_SPACING
    ensures var d, top, period := Distance(s, DtSeconds(rate)), if CanBoost(s) then 34 else 18, if CanBoost(s) then 209 else 55;
            && ((exists g :: AllGaps(since, d, g)) <==> rate <= top || rate % period == 0)
            && (AllGaps(since, d, SEGMENT_SPACING) <==> rate % period == 0)
  {
    var d := Distance(s, DtSeconds(rate));
    assert d * rate as real == Speed(s) by { assert d == Speed(s) / rate as real; }
    hide AllGaps;
    if d <= 0.0 { NotNegative(-d, rate as real); assert false; }
    EvenSpacingIff(since, d);
    SpacingKeptIff(since, d);
    RateMeasures(d, rate, CanBoost(s));
    hide *;
  }

  lemma RateMeasures(d: real, rate: int, boosting: bool)
    requires rate >= 1 && d > 0.0 && d * rate as real == (if boosting then 418.0 else 220.0)
    ensures Measures(d) <==> rate % (if boosting then 209 else 55) == 0
    ensures d >= SEGMENT_SPACING <==> rate <= (if boosting then 34 else 18)
  {
    var r, q := rate as real, SEGMENT_SPACING / d;
    var speed := if boosting then 418.0 else 220.0;
    TicksASpacing(d, r, q, speed);
    if boosting { WholeWhenBoosting(q, rate); } else { WholeWhenCruising(q, rate); }
    TickAtLeastIff(d, r, speed);
  }

  lemma TicksASpacing(d: real, r: real, q: real, speed: real)
    requires d > 0.0 && q == SEGMENT_SPACING / d && d * r == speed
    ensures q * speed == SEGMENT_SPACING * r
  {
    assert q * d == SEGMENT_SPACING;
    assert q * (d * r) == (q * d) * r;
  }

  lemma WholeWhenCruising(q: real, rate: int)
    requires q * 220.0 == SEGMENT_SPACING * rate as real
    ensures q == q.Floor as real <==> rate % 55 == 0
  {
    if q == q.Floor as real { assert q.Floor * 55 == 3 * rate; }
    if rate % 55 == 0 { assert q == (3 * (rate / 55)) as real; }
  }

  lemma WholeWhenBoosting(q: real, rate: int)
    requires q * 418.0 == SEGMENT_SPACING * rate as real
    ensures q == q.Floor as real <==> rate % 209 == 0
  {
    if q == q.Floor as real { assert q.Floor * 209 == 6 * rate; }
    if rate % 209 == 0 { assert q == (6 * (rate / 209)) as real; }
  }

  lemma TickAtLeastIff(d: real, r: real, speed: real)
    requires d > 0.0 && r > 0.0 && d * r == speed
    ensures d >= SEGMENT_SPACING <==> speed >= SEGMENT_SPACING * r
  {
    if d < SEGMENT_SPACING { ProductsGrow(d, SEGMENT_SPACING, r); }
    if d > SEGMENT_SPACING { ProductsGrow(SEGMENT_SPACING, d, r); }
  }

  // ---- The body ------------------------------------------------------------

  // n ticks of a snake that gets no further input.
  ghost function Straight(s: Snake, dt: real, sqrt: real -> real, cos: real -> real, sin: real -> real, n: nat): (m: Snake)
    requires Fit(s, sqrt)
    ensures Fit(m, sqrt)
  {
    if n == 0 then s
    else
      var before := Straight(s, dt, sqrt, cos, sin, n - 1);
      MovedKeeps(before, dt, sqrt, cos, sin);
      Moved(before, dt, sqrt, cos, sin)
  }

  lemma StraightNext(s: Snake, dt: real, sqrt: real -> real, cos: real -> real, sin: real -> real, n: nat)
    requires Fit(s, sqrt)
    ensures Straight(s, dt, sqrt, cos, sin, 0) == s
    ensures n > 0 ==> Straight(s, dt, sqrt, cos, sin, n) == Moved(Straight(s, dt, sqrt, cos, sin, n - 1), dt, sqrt, cos, sin)
  {
    hide Moved, Fit;
  }

  // It faces where it is steered and does not change speed.
  ghost predicate RunsStraight(s: Snake, dt: real, sqrt: real -> real, cos: real -> real, sin: real -> real, n: nat)
    requires Fit(s, sqrt)
  {
    && s.angle == s.targetAngle && dt > 0.0
    && forall k :: 0 <= k < n ==> CanBoost(Straight(s, dt, sqrt, cos, sin, k)) == CanBoost(s)
  }

  // The place on its way so many ticks on.
  function Reached(s: Snake, d: real, cos: real -> real, sin: real -> real, k: int): Point
    requires |s.spine| >= 1
  {
    Point(Head(s).x + Stretch(k, d) * cos(s.angle), Head(s).y + Stretch(k, d) * sin(s.angle))
  }

  // The body after n ticks: the points reached at its marks.
  ghost predicate LiesAt(m: Snake, s: Snake, d: real, cos: real -> real, sin: real -> real, marks: seq<nat>)
    requires |s.spine| >= 1
  {
    forall i :: 0 <= i < |m.spine| && i < |marks| ==> m.spine[i] == Reached(s, d, cos, sin, marks[i])
  }

  lemma {:induction false} StraightBody(s: Snake, dt: real, sqrt: real -> real, cos: real -> real, sin: real -> real, n: nat)
    requires Fit(s, sqrt) && RunsStraight(s, dt, sqrt, cos, sin, n)
    ensures var m, d := Straight(s, dt, sqrt, cos, sin, n), Distance(s, dt);
            && m.angle == s.angle == m.targetAngle && m.sinceLastPoint == Since(s.sinceLastPoint, d, n)
            && LiesAt(m, s, d, cos, sin, Marks(s.sinceLastPoint, d, n))
            && (!CanBoost(s) ==> m.mass == s.mass && |m.spine| >= |s.spine|)
  {
    var d := Distance(s, dt);
    StraightNext(s, dt, sqrt, cos, sin, n);
    if n == 0 {
      assert Reached(s, d, cos, sin, 0) == Head(s);
    } else {
      var before := Straight(s, dt, sqrt, cos, sin, n - 1);
      StraightBody(s, dt, sqrt, cos, sin, n - 1);
      assert CanBoost(before) == CanBoost(s) && dt > 0.0;
      hide *;
      StraightTick(before, s, dt, sqrt, cos, sin, n - 1);
    }
  }

  lemma StraightTick(m: Snake, s: Snake, dt: real, sqrt: real -> real, cos: real -> real, sin: real -> real, n: nat)
    requires Fit(s, sqrt) && Fit(m, sqrt) && CanBoost(m) == CanBoost(s) && dt > 0.0
    requires m.angle == s.angle == m.targetAngle
    requires var d := Distance(s, dt);
             m.sinceLastPoint == Since(s.sinceLastPoint, d, n) && LiesAt(m, s, d, cos, sin, Marks(s.sinceLastPoint, d, n))
    ensures var next, d := Moved(m, dt, sqrt, cos, sin), Distance(s, dt);
            && next.angle == s.angle == next.targetAngle && next.sinceLastPoint == Since(s.sinceLastPoint, d, n + 1)
            && LiesAt(next, s, d, cos, sin, Marks(s.sinceLastPoint, d, n + 1))
            && (!CanBoost(s) ==> next.mass == m.mass && |next.spine| >= |m.spine|)
  {
    var d := Distance(s, dt);
    hide LengthForMass, RadiusForMass, ScoreForMass, Burnt, Turned, Laid, Moved;
    MovedFacing(m, dt, sqrt, cos, sin);
    BurntKeepsHead(m, dt, sqrt);
    BurntPrefix(m, dt, sqrt);
    NextReached(s, d, cos, sin, n);
    var burnt := Burnt(m, dt, sqrt);
    assert Head(burnt) == Head(m) == Reached(s, d, cos, sin, n);
    var next := Ahead(burnt, d, cos, sin);
    assert next == Reached(s, d, cos, sin, n + 1);
    hide Ahead, Distance, Reached, Fit, CanBoost;
    LaidAt(burnt, m, s, next, d, cos, sin, n);
  }

  // A snake that faces its target need not turn.
  lemma MovedFacing(m: Snake, dt: real, sqrt: real -> real, cos: real -> real, sin: real -> real)
    requires m.angle == m.targetAngle && dt > 0.0 && |m.spine| >= 1
    ensures |Burnt(m, dt, sqrt).spine| >= 1
    ensures var burnt, d := Burnt(m, dt, sqrt), Distance(m, dt);
            Moved(m, dt, sqrt, cos, sin) == Laid(burnt, Ahead(burnt, d, cos, sin), d)
  {
    AlreadyFacing(m, dt);
    BurntKeepsHead(m, dt, sqrt);
    hide Burnt, Laid, Ahead, Turned;
  }

  lemma AlreadyFacing(m: Snake, dt: real)
    requires m.angle == m.targetAngle && dt > 0.0
    ensures Turned(m, dt) == m
  {
    assert Steering.AngleDelta(m.angle, m.angle) == 0.0;
  }

  lemma BurntPrefix(m: Snake, dt: real, sqrt: real -> real)
    requires Fit(m, sqrt)
    ensures var b := Burnt(m, dt, sqrt);
            && 1 <= |b.spine| <= LengthForMass(b.mass) <= 400 && b.spine <= m.spine
            && b.angle == m.angle && b.targetAngle == m.targetAngle && b.sinceLastPoint == m.sinceLastPoint
            && (!CanBoost(m) ==> b == m)
  {
    BurntKeeps(m, dt, sqrt);
    LengthBounds(Burnt(m, dt, sqrt).mass);
    if CanBoost(m) {
      var debt := m.boostDebt + BOOST_MASS_DRAIN_PER_SECOND * dt;
      if debt >= 1.0 { SetMassFits(m.(boostDebt := debt - debt.Floor as real), m.mass - debt.Floor as real, sqrt); }
    }
  }

  lemma NextReached(s: Snake, d: real, cos: real -> real, sin: real -> real, n: nat)
    requires |s.spine| >= 1
    ensures var here := Reached(s, d, cos, sin, n);
            Point(here.x + cos(s.angle) * d, here.y + sin(s.angle) * d) == Reached(s, d, cos, sin, n + 1)
  {
    hide Stretch;
    StretchNext(n, d);
    var c, z, way, longer := cos(s.angle), sin(s.angle), Stretch(n, d), Stretch(n + 1, d);
    StepAlong(way, d, longer, c);
    StepAlong(way, d, longer, z);
    assert Reached(s, d, cos, sin, n) == Point(Head(s).x + way * c, Head(s).y + way * z);
    assert Reached(s, d, cos, sin, n + 1) == Point(Head(s).x + longer * c, Head(s).y + longer * z);
  }

  lemma StretchNext(n: nat, d: real)
    ensures Stretch(n + 1, d) == Stretch(n, d) + d
  {
  }

  lemma StepAlong(way: real, d: real, longer: real, slope: real)
    requires longer == way + d
    ensures way * slope + slope * d == longer * slope
  {
  }

  lemma LaidAt(burnt: Snake, m: Snake, s: Snake, next: Point, d: real, cos: real -> real, sin: real -> real, n: nat)
    requires |s.spine| >= 1 && 1 <= |burnt.spine| <= LengthForMass(burnt.mass) <= 400 && burnt.spine <= m.spine
    requires burnt.sinceLastPoint == Since(s.sinceLastPoint, d, n) && next == Reached(s, d, cos, sin, n + 1)
    requires LiesAt(m, s, d, cos, sin, Marks(s.sinceLastPoint, d, n))
    ensures var l := Laid(burnt, next, d);
            && l.sinceLastPoint == Since(s.sinceLastPoint, d, n + 1) && l.mass == burnt.mass && |l.spine| >= |burnt.spine|
            && l.angle == burnt.angle && l.targetAngle == burnt.targetAngle
            && LiesAt(l, s, d, cos, sin, Marks(s.sinceLastPoint, d, n + 1))
  {
    hide Reached, LengthForMass;
  }

  // The points recorded on the way lie as far apart as the gaps of the account say.
  lemma GapsOnBody(s: Snake, dt: real, sqrt: real -> real, cos: real -> real, sin: real -> real, n: nat, i: nat)
    requires Fit(s, sqrt) && RunsStraight(s, dt, sqrt, cos, sin, n) && OnCircle(cos, sin)
    requires var m, d := Straight(s, dt, sqrt, cos, sin, n), Distance(s, dt);
             i + 1 < |m.spine| && i + 1 < |Marks(s.sinceLastPoint, d, n)|
    ensures var m, d := Straight(s, dt, sqrt, cos, sin, n), Distance(s, dt);
            Apart(m.spine[i], m.spine[i + 1], Gap(s.sinceLastPoint, d, n, i))
  {
    StraightBody(s, dt, sqrt, cos, sin, n);
    var d := Distance(s, dt);
    var marks: seq<int> := Marks(s.sinceLastPoint, d, n);
    MarksDescend(s.sinceLastPoint, d, n, i);
    hide Straight, RunsStraight, Marks;
    ReachedApart(s, d, cos, sin, marks[i], marks[i + 1]);
  }

  lemma {:induction false} MarksDescend(since: real, d: real, n: nat, i: nat)
    requires i + 1 < |Marks(since, d, n)|
    ensures Marks(since, d, n)[i] > Marks(since, d, n)[i + 1]
  {
    if Records(since, d, n - 1) {
      if i > 0 { MarksDescend(since, d, n - 1, i - 1); }
    } else {
      MarksDescend(since, d, n - 1, i);
    }
  }

  // Two points this far apart, by squares.
  predicate Apart(p: Point, q: Point, distance: real) {
    distance >= 0.0 && Square(p.x - q.x) + Square(p.y - q.y) == Square(distance)
  }

  lemma ReachedApart(s: Snake, d: real, cos: real -> real, sin: real -> real, a: int, b: int)
    requires |s.spine| >= 1 && OnCircle(cos, sin) && a >= b && d >= 0.0
    ensures Apart(Reached(s, d, cos, sin, a), Reached(s, d, cos, sin, b), Stretch(a - b, d))
  {
    var c, z, g := cos(s.angle), sin(s.angle), Stretch(a - b, d);
    StretchSplits(a, b, d);
    NotNegative((a - b) as real, d);
    var p, q := Reached(s, d, cos, sin, a), Reached(s, d, cos, sin, b);
    assert Square(c) + Square(z) == 1.0;
    assert p.x - q.x == g * c && p.y - q.y == g * z by { hide Stretch; }
    SquareOfProduct(g, c);
    SquareOfProduct(g, z);
    hide Square, Stretch, Reached;
    assert Square(g) * Square(c) + Square(g) * Square(z) == Square(g) * (Square(c) + Square(z));
  }

  // ---- Cruising at the default rate ----------------------------------------

  // At 30 ticks a second five ticks of any cruising snake with nothing carried over
  // lay points 22/3 and 44/3 apart.
  lemma CruisingLaysUnevenly(s: Snake, sqrt: real -> real, cos: real -> real, sin: real -> real)
    requires Fit(s, sqrt) && |s.spine| >= 4 && !s.boosting && s.angle == s.targetAngle && s.sinceLastPoint == 0.0
    requires OnCircle(cos, sin)
    ensures var m := Straight(s, DtSeconds(30), sqrt, cos, sin, 5);
            |m.spine| >= 4 && Apart(m.spine[1], m.spine[2], 22.0 / 3.0) && Apart(m.spine[2], m.spine[3], 44.0 / 3.0)
  {
    var dt := DtSeconds(30);
    var d := Distance(s, dt);
    assert d == 22.0 / 3.0;
    NeverBoosts(s, dt, sqrt, cos, sin, 5);
    StraightBody(s, dt, sqrt, cos, sin, 5);
    FiveTicks(d);
    GapsOnBody(s, dt, sqrt, cos, sin, 5, 1);
    GapsOnBody(s, dt, sqrt, cos, sin, 5, 2);
  }

  lemma {:induction false} NeverBoosts(s: Snake, dt: real, sqrt: real -> real, cos: real -> real, sin: real -> real, n: nat)
    requires Fit(s, sqrt) && !s.boosting && s.angle == s.targetAngle && dt > 0.0
    ensures RunsStraight(s, dt, sqrt, cos, sin, n) && !Straight(s, dt, sqrt, cos, sin, n).boosting
  {
    hide Moved, Fit, Straight;
    StraightNext(s, dt, sqrt, cos, sin, n);
    if n > 0 {
      NeverBoosts(s, dt, sqrt, cos, sin, n - 1);
      MovedKeeps(Straight(s, dt, sqrt, cos, sin, n - 1), dt, sqrt, cos, sin);
    }
  }

  lemma FiveTicks(d: real)
    requires d == 22.0 / 3.0
    ensures Marks(0.0, d, 5) == [5, 4, 3, 1]
    ensures Gap(0.0, d, 5, 1) == d && Gap(0.0, d, 5, 2) == 2.0 * d
  {
    assert Since(0.0, d, 0) == 0.0 && Since(0.0, d, 1) == d && Since(0.0, d, 2) == 2.0 * d - 12.0;
    assert Since(0.0, d, 3) == 3.0 * d - 12.0 && Since(0.0, d, 4) == 4.0 * d - 24.0;
    assert Marks(0.0, d, 1) == [1] && Marks(0.0, d, 2) == [2, 1] && Marks(0.0, d, 3) == [3, 1];
    assert Marks(0.0, d, 4) == [4, 3, 1];
  }
}
