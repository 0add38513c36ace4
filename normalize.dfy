/** The criterion normaliser: the global min/max scan over all cars and the
    benefit and cost transforms that map a raw value onto a comparable scale. */
module Normalize {
  import opened Cars

  /** PHP_FLOAT_MIN, the smallest positive normal double: the seed of every max. */
  const FloatMin: real := 2.2250738585072014e-308
  /** PHP_FLOAT_MAX, the largest finite double: the seed of every min. */
  const FloatMax: real := 1.7976931348623157e308

  /** The max and min of one criterion, as the scan keeps them. */
  datatype Span = Span(max: real, min: real)

  function Max(a: real, b: real): real { if a < b then b else a }
  function Min(a: real, b: real): real { if b < a then b else a }

  /** The max the scan reaches for criterion c after the cars of data, in order. */
  function MaxOf(data: seq<Car>, c: Criterion): real {
    if data == [] then FloatMin else Max(MaxOf(data[..|data| - 1], c), c.Raw(data[|data| - 1]))
  }

  /** The min the scan reaches for criterion c after the cars of data, in order. */
  function MinOf(data: seq<Car>, c: Criterion): real {
    if data == [] then FloatMax else Min(MinOf(data[..|data| - 1], c), c.Raw(data[|data| - 1]))
  }

  /** The spans of all five criteria over data. */
  function Spans(data: seq<Car>): (spans: map<Criterion, Span>)
    ensures forall c: Criterion :: c in spans && spans[c] == Span(MaxOf(data, c), MinOf(data, c))
  {
    CriteriaEnumerated();
    map c | c in Criteria :: Span(MaxOf(data, c), MinOf(data, c))
  }

  /** Benefit transform: raw / max when max is positive, else 0. */
  function BenefitNorm(raw: real, max: real): (r: real)
    ensures max > 0.0 ==> r * max == raw
    ensures max <= 0.0 ==> r == 0.0
  {
    if max > 0.0 then raw / max else 0.0
  }

  /** Cost transform: min / raw when raw is positive, else 0. */
  function CostNorm(raw: real, min: real): (r: real)
    ensures raw > 0.0 ==> r * raw == min
    ensures raw <= 0.0 ==> r == 0.0
  {
    if raw > 0.0 then min / raw else 0.0
  }

  /** A car with its five normalised criteria. */
  datatype NormCar = NormCar(
    car: Car,
    engineSizeNorm: real,
    mileageNorm: real,
    doorsNorm: real,
    ownerCountNorm: real,
    priceNorm: real
  )
  {
    function Norm(c: Criterion): real {
      match c
      case EngineSize => engineSizeNorm
      case Mileage => mileageNorm
      case Doors => doorsNorm
      case OwnerCount => ownerCountNorm
      case Price => priceNorm
    }
  }

  /** The transform of one criterion of one car against the spans. */
  function NormOf(car: Car, c: Criterion, spans: map<Criterion, Span>): real
    requires c in spans
  {
    if c.IsBenefit() then BenefitNorm(c.Raw(car), spans[c].max) else CostNorm(c.Raw(car), spans[c].min)
  }

  /** One car normalised against the spans: Doors by the benefit transform, the
      other four by the cost transform; the car itself is carried unchanged. */
  function NormalizeCar(car: Car, spans: map<Criterion, Span>): (n: NormCar)
    requires forall c: Criterion :: c in spans
    ensures n.car == car
    ensures forall c: Criterion :: n.Norm(c) == NormOf(car, c, spans)
  {
    NormCar(car,
      CostNorm(car.engineSize, spans[EngineSize].min),
      CostNorm(car.mileage, spans[Mileage].min),
      BenefitNorm(car.doors as real, spans[Doors].max),
      CostNorm(car.ownerCount as real, spans[OwnerCount].min),
      CostNorm(car.price, spans[Price].min))
  }

  /** normalizeData as a value: every car, in order, normalised against the spans
      of the whole data. */
  function NormalizeAll(data: seq<Car>): (ns: seq<NormCar>)
    ensures |ns| == |data|
    ensures forall i :: 0 <= i < |data| ==> ns[i].car == data[i]
  {
    seq(|data|, i requires 0 <= i < |data| => NormalizeCar(data[i], Spans(data)))
  }

  /** After the scan, every car's raw value lies between the min and the max, the
      max is at least the positive seed and the min at most its seed. */
  lemma {:induction false} ScanBounds(data: seq<Car>, c: Criterion)
    ensures forall i :: 0 <= i < |data| ==> MinOf(data, c) <= c.Raw(data[i]) <= MaxOf(data, c)
    ensures MaxOf(data, c) >= FloatMin && MinOf(data, c) <= FloatMax
  {
    if data != [] {
      var p := data[..|data| - 1];
      ScanBounds(p, c);
      forall i | 0 <= i < |p| ensures MinOf(data, c) <= c.Raw(data[i]) <= MaxOf(data, c) {
        assert p[i] == data[i];
      }
    }
  }

  /** On non-empty data whose values are finite doubles, the min is some car's
      value; the max is some car's value unless it is still the seed FloatMin. */
  lemma {:induction false} ScanAttained(data: seq<Car>, c: Criterion)
    requires |data| > 0
    requires forall i :: 0 <= i < |data| ==> c.Raw(data[i]) <= FloatMax
    ensures exists i :: 0 <= i < |data| && c.Raw(data[i]) == MinOf(data, c)
    ensures MaxOf(data, c) == FloatMin || exists i :: 0 <= i < |data| && c.Raw(data[i]) == MaxOf(data, c)
  {
    var p, last := data[..|data| - 1], |data| - 1;
    if p == [] {
      assert c.Raw(data[last]) == MinOf(data, c);
    } else {
      assert forall i :: 0 <= i < |p| ==> p[i] == data[i];
      ScanAttained(p, c);
      var j :| 0 <= j < |p| && c.Raw(p[j]) == MinOf(p, c);
      if MinOf(data, c) == MinOf(p, c) {
        assert c.Raw(data[j]) == MinOf(data, c);
      } else {
        assert c.Raw(data[last]) == MinOf(data, c);
      }
      if MaxOf(data, c) != FloatMin && MaxOf(data, c) == MaxOf(p, c) {
        var k :| 0 <= k < |p| && c.Raw(p[k]) == MaxOf(p, c);
        assert c.Raw(data[k]) == MaxOf(data, c);
      }
    }
  }

  /** Non-negative values give a non-negative min. */
  lemma {:induction false} MinNonNegative(data: seq<Car>, c: Criterion)
    requires forall i :: 0 <= i < |data| ==> c.Raw(data[i]) >= 0.0
    ensures MinOf(data, c) >= 0.0
  {
    if data != [] {
      var p := data[..|data| - 1];
      assert forall i :: 0 <= i < |p| ==> p[i] == data[i];
      MinNonNegative(p, c);
    }
  }

  /** The benefit transform: 0 for a zero raw value or a non-positive max, exactly
      1 at the max, within [0, 1] between 0 and the max, and never smaller for a
      larger raw value. */
  lemma BenefitNormProperties(raw: real, raw2: real, max: real)
    ensures raw == 0.0 || max <= 0.0 ==> BenefitNorm(raw, max) == 0.0
    ensures raw == max > 0.0 ==> BenefitNorm(raw, max) == 1.0
    ensures 0.0 <= raw <= max ==> 0.0 <= BenefitNorm(raw, max) <= 1.0
    ensures 0.0 < raw && 0.0 < max ==> BenefitNorm(raw, max) > 0.0
    ensures raw <= raw2 ==> BenefitNorm(raw, max) <= BenefitNorm(raw2, max)
  {
    if 0.0 <= raw <= max && max > 0.0 {
      QuotientInUnit(raw, max);
    }
    if raw <= raw2 && max > 0.0 {
      assert raw / max <= raw2 / max;
    }
  }

  /** The cost transform: exactly 0 for a zero raw value, exactly 1 at a positive
      min, within [0, 1] from the min up, positive when min and raw are, and never
      larger for a larger positive raw value. */
  lemma CostNormProperties(raw: real, raw2: real, min: real)
    ensures raw == 0.0 ==> CostNorm(raw, min) == 0.0
    ensures raw == min > 0.0 ==> CostNorm(raw, min) == 1.0
    ensures 0.0 <= min <= raw ==> 0.0 <= CostNorm(raw, min) <= 1.0
    ensures 0.0 < min && 0.0 < raw ==> CostNorm(raw, min) > 0.0
    ensures 0.0 <= min && 0.0 < raw <= raw2 ==> CostNorm(raw2, min) <= CostNorm(raw, min)
  {
    if 0.0 <= min <= raw && raw > 0.0 {
      QuotientInUnit(min, raw);
    }
    if 0.0 <= min && 0.0 < raw <= raw2 {
      QuotientAntitone(min, raw, raw2);
    }
  }

  lemma QuotientInUnit(a: real, b: real)
    requires 0.0 <= a <= b && b > 0.0
    ensures 0.0 <= a / b <= 1.0
  {
    var q := a / b;
    assert q * b == a;
  }

  lemma QuotientAntitone(m: real, r1: real, r2: real)
    requires 0.0 <= m && 0.0 < r1 <= r2
    ensures m / r2 <= m / r1
  {
    var q1, q2 := m / r1, m / r2;
    assert q1 * r1 == m && q2 * r2 == m;
    assert q2 >= 0.0;
    assert q2 * r1 <= q2 * r2;
  }

  /** A raw value of 0 is normalised to 0, which is the worst and not the best
      cost: a cheaper car can score lower on a cost criterion. */
  lemma ZeroCostIsWorst(min: real, raw: real)
    requires 0.0 < min <= raw
    ensures CostNorm(0.0, min) < CostNorm(raw, min)
  {
    CostNormProperties(raw, raw, min);
  }

  /** Over a whole data set of non-negative values: every normalised value lies in
      [0, 1]; a zero raw value gives 0; a car at a positive best value (the max of
      Doors, the min of a cost criterion) gives exactly 1. */
  lemma NormalizedRange(data: seq<Car>, i: int, c: Criterion)
    requires 0 <= i < |data|
    requires forall j :: 0 <= j < |data| ==> c.Raw(data[j]) >= 0.0
    ensures 0.0 <= NormalizeAll(data)[i].Norm(c) <= 1.0
    ensures c.Raw(data[i]) == 0.0 ==> NormalizeAll(data)[i].Norm(c) == 0.0
    ensures c.IsBenefit() && c.Raw(data[i]) == MaxOf(data, c) ==> NormalizeAll(data)[i].Norm(c) == 1.0
    ensures !c.IsBenefit() && c.Raw(data[i]) == MinOf(data, c) > 0.0 ==> NormalizeAll(data)[i].Norm(c) == 1.0
  {
    var raw := c.Raw(data[i]);
    ScanBounds(data, c);
    MinNonNegative(data, c);
    assert NormalizeAll(data)[i].Norm(c) == NormOf(data[i], c, Spans(data));
    if c.IsBenefit() {
      BenefitNormProperties(raw, raw, MaxOf(data, c));
    } else {
      CostNormProperties(raw, raw, MinOf(data, c));
    }
  }

  /** A value every car reaches and the seed does not exceed bounds the min from below. */
  lemma {:induction false} MinOfAtLeast(data: seq<Car>, c: Criterion, x: real)
    requires x <= FloatMax
    requires forall j :: 0 <= j < |data| ==> c.Raw(data[j]) >= x
    ensures MinOf(data, c) >= x
  {
    if data != [] {
      var p := data[..|data| - 1];
      assert forall j :: 0 <= j < |p| ==> p[j] == data[j];
      MinOfAtLeast(p, c, x);
    }
  }

  /** A value no car exceeds and the seed does not exceed bounds the max from above. */
  lemma {:induction false} MaxOfAtMost(data: seq<Car>, c: Criterion, x: real)
    requires FloatMin <= x
    requires forall j :: 0 <= j < |data| ==> c.Raw(data[j]) <= x
    ensures MaxOf(data, c) <= x
  {
    if data != [] {
      var p := data[..|data| - 1];
      assert forall j :: 0 <= j < |p| ==> p[j] == data[j];
      MaxOfAtMost(p, c, x);
    }
  }

  /** The cost transform after one value drops from v to v' while the min moves
      from m to some m' between Min(m, v') and v'. */
  lemma CostStep(v: real, v': real, m: real, m': real)
    requires 0.0 < v' <= v && 0.0 <= m <= v
    requires Min(m, v') <= m' <= v'
    ensures CostNorm(v, m) <= CostNorm(v', m')
  {
    if m <= v' {
      QuotientAntitone(m, v', v);
      assert m / v' <= m' / v';
    } else {
      assert m' == v';
      assert m' / v' == 1.0;
      QuotientInUnit(m, v);
    }
  }

  /** The benefit transform after one value rises from v to v' while the max
      moves from mx to some mx' between v' and Max(mx, v'). */
  lemma BenefitStep(v: real, v': real, mx: real, mx': real)
    requires 0.0 <= v <= v' && v <= mx && 0.0 < mx
    requires 0.0 < mx' && v' <= mx' <= Max(mx, v')
    ensures BenefitNorm(v, mx) <= BenefitNorm(v', mx')
  {
    if v' <= mx {
      QuotientAntitone(v', mx', mx);
      BenefitNormProperties(v, v', mx);
    } else {
      assert mx' == v';
      assert v' / mx' == 1.0;
      QuotientInUnit(v, mx);
    }
  }

  /** Over the whole data, with the other cars' values fixed: lowering one car's
      positive cost value never lowers its norm, although the min moves with it. */
  lemma CostMonotoneInData(data: seq<Car>, data': seq<Car>, i: int, c: Criterion)
    requires !c.IsBenefit()
    requires |data'| == |data| && 0 <= i < |data|
    requires forall j :: 0 <= j < |data| && j != i ==> c.Raw(data'[j]) == c.Raw(data[j])
    requires forall j :: 0 <= j < |data| ==> c.Raw(data[j]) >= 0.0
    requires 0.0 < c.Raw(data'[i]) <= c.Raw(data[i])
    ensures NormalizeAll(data)[i].Norm(c) <= NormalizeAll(data')[i].Norm(c)
  {
    var v, v' := c.Raw(data[i]), c.Raw(data'[i]);
    var m, m' := MinOf(data, c), MinOf(data', c);
    ScanBounds(data, c);
    ScanBounds(data', c);
    MinNonNegative(data, c);
    forall j | 0 <= j < |data'| ensures c.Raw(data'[j]) >= Min(m, v') {
      if j != i {
        assert c.Raw(data[j]) >= m;
      }
    }
    MinOfAtLeast(data', c, Min(m, v'));
    CostStep(v, v', m, m');
    assert NormalizeAll(data)[i].Norm(c) == CostNorm(v, m);
    assert NormalizeAll(data')[i].Norm(c) == CostNorm(v', m');
  }

  /** Over the whole data, with the other cars' values fixed: raising one car's
      non-negative benefit value never lowers its norm, although the max moves
      with it. */
  lemma BenefitMonotoneInData(data: seq<Car>, data': seq<Car>, i: int, c: Criterion)
    requires c.IsBenefit()
    requires |data'| == |data| && 0 <= i < |data|
    requires forall j :: 0 <= j < |data| && j != i ==> c.Raw(data'[j]) == c.Raw(data[j])
    requires 0.0 <= c.Raw(data[i]) <= c.Raw(data'[i])
    ensures NormalizeAll(data)[i].Norm(c) <= NormalizeAll(data')[i].Norm(c)
  {
    var v, v' := c.Raw(data[i]), c.Raw(data'[i]);
    var mx, mx' := MaxOf(data, c), MaxOf(data', c);
    ScanBounds(data, c);
    ScanBounds(data', c);
    forall j | 0 <= j < |data'| ensures c.Raw(data'[j]) <= Max(mx, v') {
      if j != i {
        assert c.Raw(data[j]) <= mx;
      }
    }
    MaxOfAtMost(data', c, Max(mx, v'));
    BenefitStep(v, v', mx, mx');
    assert NormalizeAll(data)[i].Norm(c) == BenefitNorm(v, mx);
    assert NormalizeAll(data')[i].Norm(c) == BenefitNorm(v', mx');
  }

  /** One car with a cost value of 0 (a missing or malformed cell reads as 0)
      pulls the min to 0, so every car's norm for that criterion is 0. */
  lemma ZeroCostZeroesAll(data: seq<Car>, k: int, c: Criterion)
    requires !c.IsBenefit()
    requires 0 <= k < |data| && c.Raw(data[k]) == 0.0
    requires forall j :: 0 <= j < |data| ==> c.Raw(data[j]) >= 0.0
    ensures MinOf(data, c) == 0.0
    ensures forall i :: 0 <= i < |data| ==> NormalizeAll(data)[i].Norm(c) == 0.0
  {
    ScanBounds(data, c);
    MinNonNegative(data, c);
    forall i | 0 <= i < |data| ensures NormalizeAll(data)[i].Norm(c) == 0.0 {
      assert NormalizeAll(data)[i].Norm(c) == CostNorm(c.Raw(data[i]), 0.0);
    }
  }
}
