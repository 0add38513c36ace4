/** The SAW decision-support object: it holds the cars and the weights it was
    built with, and ranks the cars by their preference scores. */
module Engine {
  import opened Cars
  import opened Weights
  import opened Normalize
  import opened Ranking

  /** The ranking the engine produces, as a value: normalise the cars, score them
      against the weights, sort by descending score. */
  function Rank(data: seq<Car>, w: map<string, real>): seq<Scored> {
    SortDesc(ScoreAll(NormalizeAll(data), w))
  }

  /** The ranking holds every car exactly once, paired with its own score; scores
      never increase down the list; equal scores keep the input order; no cars
      give an empty ranking. */
  lemma RankProperties(data: seq<Car>, w: map<string, real>)
    ensures |Rank(data, w)| == |data|
    ensures data == [] ==> Rank(data, w) == []
    ensures multiset(Rank(data, w)) == multiset(ScoreAll(NormalizeAll(data), w))
    ensures forall i :: 0 <= i < |Rank(data, w)| - 1 ==> Rank(data, w)[i].score >= Rank(data, w)[i + 1].score
    ensures forall v :: WithScore(Rank(data, w), v) == WithScore(ScoreAll(NormalizeAll(data), w), v)
    ensures forall e :: e in Rank(data, w) ==>
              exists j :: 0 <= j < |data| && e == Scored(data[j], Score(NormalizeAll(data)[j], w))
  {
    var scored := ScoreAll(NormalizeAll(data), w);
    SortDescSortsAndPermutes(scored);
    forall v ensures WithScore(Rank(data, w), v) == WithScore(scored, v) {
      SortDescStable(scored, v);
    }
    forall e | e in Rank(data, w)
      ensures exists j :: 0 <= j < |data| && e == Scored(data[j], Score(NormalizeAll(data)[j], w))
    {
      assert e in multiset(scored);
      var j :| 0 <= j < |scored| && scored[j] == e;
    }
  }

  /** With non-negative criteria and non-negative weights, every score lies
      between 0 and the sum of the five criteria's weights. */
  lemma RankScoresBounded(data: seq<Car>, w: map<string, real>)
    requires forall i, c: Criterion :: 0 <= i < |data| ==> c.Raw(data[i]) >= 0.0
    requires forall c: Criterion :: Weight(w, c.Name()) >= 0.0
    ensures forall e :: e in Rank(data, w) ==> 0.0 <= e.score <= SumAt(CriteriaNames, w)
  {
    RankProperties(data, w);
    var ns := NormalizeAll(data);
    forall j | 0 <= j < |data| ensures 0.0 <= Score(ns[j], w) <= SumAt(CriteriaNames, w) {
      forall c: Criterion ensures 0.0 <= ns[j].Norm(c) <= 1.0 {
        NormalizedRange(data, j, c);
      }
      ScoreBounds(ns[j], w);
    }
  }

  /** Two cars under the default weights. The second is smaller, has run less
      and is cheaper, but has two doors to the first's four; its norms are
      (1, 1, 0.5, 1, 1) against (0.75, 0.6, 1, 1, 0.75), so it scores 9.5 against
      7.95 and ranks first. */
  lemma TwoCarScenario(first: Car, second: Car)
    requires first.engineSize == 2.0 && first.mileage == 50000.0 && first.doors == 4
    requires first.ownerCount == 1 && first.price == 20000.0
    requires second.engineSize == 1.5 && second.mileage == 30000.0 && second.doors == 2
    requires second.ownerCount == 1 && second.price == 15000.0
    ensures Rank([first, second], DefaultWeights) == [Scored(second, 9.5), Scored(first, 7.95)]
  {
    TwoCarNorms(first, second);
    var s1, s2 := Scored(first, 7.95), Scored(second, 9.5);
    var scored := ScoreAll(NormalizeAll([first, second]), DefaultWeights);
    assert Score(NormCar(first, 0.75, 0.6, 1.0, 1.0, 0.75), DefaultWeights) == 7.95;
    assert Score(NormCar(second, 1.0, 1.0, 0.5, 1.0, 1.0), DefaultWeights) == 9.5;
    assert scored == [s1, s2];
    assert scored[..1] == [s1] && scored[..1][..0] == [];
    assert SortDesc(scored[..1]) == [s1];
    assert [s1][..0] == [];
    assert Insert([s1], s2) == [s2, s1];
  }

  lemma TwoCarNorms(first: Car, second: Car)
    requires first.engineSize == 2.0 && first.mileage == 50000.0 && first.doors == 4
    requires first.ownerCount == 1 && first.price == 20000.0
    requires second.engineSize == 1.5 && second.mileage == 30000.0 && second.doors == 2
    requires second.ownerCount == 1 && second.price == 15000.0
    ensures NormalizeAll([first, second]) ==
              [NormCar(first, 0.75, 0.6, 1.0, 1.0, 0.75), NormCar(second, 1.0, 1.0, 0.5, 1.0, 1.0)]
  {
    var data := [first, second];
    PairSpan(first, second, EngineSize);
    PairSpan(first, second, Mileage);
    PairSpan(first, second, Doors);
    PairSpan(first, second, OwnerCount);
    PairSpan(first, second, Price);
    var spans := Spans(data);
    var ns := NormalizeAll(data);
    assert ns[0] == NormalizeCar(first, spans);
    assert ns[1] == NormalizeCar(second, spans);
  }

  /** The scan over two cars, unfolded. */
  lemma PairSpan(a: Car, b: Car, c: Criterion)
    ensures MinOf([a, b], c) == Min(Min(FloatMax, c.Raw(a)), c.Raw(b))
    ensures MaxOf([a, b], c) == Max(Max(FloatMin, c.Raw(a)), c.Raw(b))
  {
    assert [a][..0] == [];
    assert MinOf([a], c) == Min(FloatMax, c.Raw(a)) && MaxOf([a], c) == Max(FloatMin, c.Raw(a));
    assert [a, b][..1] == [a];
  }

  /** The scan over all cars: every max starts at PHP_FLOAT_MIN and every min at
      PHP_FLOAT_MAX, and each car updates the five spans in turn. */
  method ScanMinMax(data: seq<Car>) returns (spans: map<Criterion, Span>)
    ensures spans == Spans(data)
  {
    spans := map[
      EngineSize := Span(FloatMin, FloatMax), Mileage := Span(FloatMin, FloatMax),
      Doors := Span(FloatMin, FloatMax), OwnerCount := Span(FloatMin, FloatMax),
      Price := Span(FloatMin, FloatMax)];
    assert data[..0] == [];
    assert forall c: Criterion :: c in spans by {
      forall c: Criterion ensures c in spans {
        match c
        case EngineSize =>
        case Mileage =>
        case Doors =>
        case OwnerCount =>
        case Price =>
      }
    }
    for i := 0 to |data|
      invariant forall c: Criterion :: c in spans && spans[c] == Span(MaxOf(data[..i], c), MinOf(data[..i], c))
    {
      assert data[..i + 1][..i] == data[..i];
      spans := UpdateSpans(spans, data[i]);
    }
    assert data[..|data|] == data;
  }

  /** The inner loop of the scan: each criterion's max and min take in one car's value. */
  method UpdateSpans(spans: map<Criterion, Span>, car: Car) returns (updated: map<Criterion, Span>)
    requires forall c: Criterion :: c in spans
    ensures forall c: Criterion :: c in updated &&
              updated[c] == Span(Max(spans[c].max, c.Raw(car)), Min(spans[c].min, c.Raw(car)))
  {
    CriteriaEnumerated();
    updated := spans;
    for k := 0 to |Criteria|
      invariant forall c: Criterion :: c in updated
      invariant forall m :: 0 <= m < k ==>
                  updated[Criteria[m]] == Span(Max(spans[Criteria[m]].max, Criteria[m].Raw(car)),
                                               Min(spans[Criteria[m]].min, Criteria[m].Raw(car)))
      invariant forall m :: k <= m < |Criteria| ==> updated[Criteria[m]] == spans[Criteria[m]]
    {
      var c := Criteria[k];
      updated := updated[c := Span(Max(updated[c].max, c.Raw(car)), Min(updated[c].min, c.Raw(car)))];
    }
    forall c: Criterion
      ensures updated[c] == Span(Max(spans[c].max, c.Raw(car)), Min(spans[c].min, c.Raw(car)))
    {
      assert c in Criteria;
      var m :| 0 <= m < |Criteria| && Criteria[m] == c;
    }
  }

  class SawDecisionSupport {
    /** The cars read from the rows, in row order ($data). */
    var data: seq<Car>
    /** The weights in force ($bobot). */
    var weights: map<string, real>

    /** Reads the rows and settles the weights: the defaults when the user gave
        none, each user weight divided by their sum when that sum is positive,
        the defaults again otherwise. */
    constructor (rows: seq<Row>, userWeights: Entries)
      ensures |data| == |rows| && forall i :: 0 <= i < |rows| ==> data[i] == ToCar(rows[i])
      ensures weights == NormalizeWeights(userWeights)
    {
      var cars := ReadCSV(rows);
      data := cars;
      if |userWeights| == 0 {
        weights := DefaultWeights;
      } else {
        var total := Total(userWeights);
        if total > 0.0 {
          var w: map<string, real> := map[];
          for i := 0 to |userWeights|
            invariant w == Scaled(userWeights[..i], total)
          {
            assert userWeights[..i + 1][..i] == userWeights[..i];
            var (criterion, weight) := userWeights[i];
            w := w[criterion := weight / total];
          }
          assert userWeights[..|userWeights|] == userWeights;
          weights := w;
        } else {
          weights := DefaultWeights;
        }
      }
    }

    /** normalizeData: the min and max of every criterion over all cars, then
        every car normalised against them. */
    method NormalizeData() returns (normalized: seq<NormCar>)
      ensures normalized == NormalizeAll(data)
    {
      var spans := ScanMinMax(data);
      normalized := [];
      for i := 0 to |data|
        invariant |normalized| == i
        invariant forall j :: 0 <= j < i ==> normalized[j] == NormalizeCar(data[j], spans)
      {
        normalized := normalized + [NormalizeCar(data[i], spans)];
      }
    }

    /** calculatePreference: every car paired with its weighted score, sorted by
        descending score; equal scores keep the input order. */
    method CalculatePreference() returns (preferences: seq<Scored>)
      ensures preferences == Rank(data, weights)
      ensures |preferences| == |data|
      ensures multiset(preferences) == multiset(ScoreAll(NormalizeAll(data), weights))
      ensures forall i :: 0 <= i < |preferences| - 1 ==> preferences[i].score >= preferences[i + 1].score
    {
      var normalized := NormalizeData();
      var a := new Scored[|normalized|];
      for i := 0 to |normalized|
        invariant forall j :: 0 <= j < i ==> a[j] == Scored(data[j], Score(normalized[j], weights))
      {
        a[i] := Scored(data[i], Score(normalized[i], weights));
      }
      assert a[..] == ScoreAll(normalized, weights);
      SortByScore(a);
      preferences := a[..];
      RankProperties(data, weights);
    }
  }
}
