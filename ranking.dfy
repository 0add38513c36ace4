/** The preference aggregator and the ranker: the weighted sum of a car's
    normalised criteria, and the stable descending sort of the scored cars. */
module Ranking {
  import opened Cars
  import opened Weights
  import opened Normalize

  /** One entry of the result: the original car and its preference score. */
  datatype Scored = Scored(car: Car, score: real)

  /** The preference score: each normalised criterion times its weight, summed;
      a weight missing from w counts as 0; nothing is clamped. */
  function Score(n: NormCar, w: map<string, real>): real {
    n.engineSizeNorm * Weight(w, EngineSize.Name())
    + n.mileageNorm * Weight(w, Mileage.Name())
    + n.doorsNorm * Weight(w, Doors.Name())
    + n.ownerCountNorm * Weight(w, OwnerCount.Name())
    + n.priceNorm * Weight(w, Price.Name())
  }

  /** The score criterion by criterion. */
  lemma ScoreByCriterion(n: NormCar, w: map<string, real>)
    ensures Score(n, w) == n.Norm(EngineSize) * Weight(w, EngineSize.Name())
      + n.Norm(Mileage) * Weight(w, Mileage.Name()) + n.Norm(Doors) * Weight(w, Doors.Name())
      + n.Norm(OwnerCount) * Weight(w, OwnerCount.Name()) + n.Norm(Price) * Weight(w, Price.Name())
  {
  }

  /** Norms in [0, 1] and non-negative weights give a score between 0 and the sum
      of the five criteria's weights: up to 10 under the defaults, up to 1 under
      normalised user weights. */
  lemma ScoreBounds(n: NormCar, w: map<string, real>)
    requires forall c: Criterion :: 0.0 <= n.Norm(c) <= 1.0
    requires forall c: Criterion :: Weight(w, c.Name()) >= 0.0
    ensures 0.0 <= Score(n, w) <= SumAt(CriteriaNames, w)
  {
    SumOverCriteria(w);
    ScoreByCriterion(n, w);
    assert 0.0 <= n.Norm(EngineSize) <= 1.0 && Weight(w, EngineSize.Name()) >= 0.0;
    assert 0.0 <= n.Norm(Mileage) <= 1.0 && Weight(w, Mileage.Name()) >= 0.0;
    assert 0.0 <= n.Norm(Doors) <= 1.0 && Weight(w, Doors.Name()) >= 0.0;
    assert 0.0 <= n.Norm(OwnerCount) <= 1.0 && Weight(w, OwnerCount.Name()) >= 0.0;
    assert 0.0 <= n.Norm(Price) <= 1.0 && Weight(w, Price.Name()) >= 0.0;
    WeightedSumInRange(n.Norm(EngineSize), n.Norm(Mileage), n.Norm(Doors), n.Norm(OwnerCount), n.Norm(Price),
      Weight(w, EngineSize.Name()), Weight(w, Mileage.Name()), Weight(w, Doors.Name()),
      Weight(w, OwnerCount.Name()), Weight(w, Price.Name()));
  }

  /** Five factors in [0, 1] against five non-negative weights. */
  lemma WeightedSumInRange(x1: real, x2: real, x3: real, x4: real, x5: real,
                           y1: real, y2: real, y3: real, y4: real, y5: real)
    requires 0.0 <= x1 <= 1.0 && 0.0 <= x2 <= 1.0 && 0.0 <= x3 <= 1.0 && 0.0 <= x4 <= 1.0 && 0.0 <= x5 <= 1.0
    requires 0.0 <= y1 && 0.0 <= y2 && 0.0 <= y3 && 0.0 <= y4 && 0.0 <= y5
    ensures 0.0 <= x1 * y1 + x2 * y2 + x3 * y3 + x4 * y4 + x5 * y5 <= y1 + y2 + y3 + y4 + y5
  {
    var p1, p2, p3, p4, p5 := x1 * y1, x2 * y2, x3 * y3, x4 * y4, x5 * y5;
    ProductInUnit(x1, y1);
    ProductInUnit(x2, y2);
    ProductInUnit(x3, y3);
    ProductInUnit(x4, y4);
    ProductInUnit(x5, y5);
    assert p1 <= y1 && p2 <= y2 && p3 <= y3 && p4 <= y4 && p5 <= y5;
    assert 0.0 <= p1 && 0.0 <= p2 && 0.0 <= p3 && 0.0 <= p4 && 0.0 <= p5;
  }

  lemma ProductInUnit(x: real, y: real)
    requires 0.0 <= x <= 1.0 && 0.0 <= y
    ensures 0.0 <= x * y <= y
  {
    assert x * y <= 1.0 * y;
  }

  /** A criterion whose weight is missing does not influence the score. */
  lemma MissingWeightIgnored(n: NormCar, n': NormCar, w: map<string, real>, c: Criterion)
    requires c.Name() !in w
    requires forall d: Criterion :: d != c ==> n.Norm(d) == n'.Norm(d)
    ensures Score(n, w) == Score(n', w)
  {
    ScoreByCriterion(n, w);
    ScoreByCriterion(n', w);
    assert Weight(w, c.Name()) == 0.0;
  }

  /** With non-negative weights, a car at least as good on every criterion scores
      at least as high. */
  lemma ScoreMonotone(n: NormCar, n': NormCar, w: map<string, real>)
    requires forall c: Criterion :: Weight(w, c.Name()) >= 0.0
    requires forall c: Criterion :: n.Norm(c) <= n'.Norm(c)
    ensures Score(n, w) <= Score(n', w)
  {
    ScoreByCriterion(n, w);
    ScoreByCriterion(n', w);
    ProductMonotone(n.Norm(EngineSize), n'.Norm(EngineSize), Weight(w, EngineSize.Name()));
    ProductMonotone(n.Norm(Mileage), n'.Norm(Mileage), Weight(w, Mileage.Name()));
    ProductMonotone(n.Norm(Doors), n'.Norm(Doors), Weight(w, Doors.Name()));
    ProductMonotone(n.Norm(OwnerCount), n'.Norm(OwnerCount), Weight(w, OwnerCount.Name()));
    ProductMonotone(n.Norm(Price), n'.Norm(Price), Weight(w, Price.Name()));
  }

  lemma ProductMonotone(x: real, x': real, y: real)
    requires x <= x' && 0.0 <= y
    ensures x * y <= x' * y
  {
  }

  /** Every normalised car paired with its score, in input order. */
  function ScoreAll(ns: seq<NormCar>, w: map<string, real>): (ss: seq<Scored>)
    ensures |ss| == |ns|
    ensures forall i :: 0 <= i < |ns| ==> ss[i].car == ns[i].car
  {
    seq(|ns|, i requires 0 <= i < |ns| => Scored(ns[i].car, Score(ns[i], w)))
  }

  /** Scores never increase from one entry to any later one. */
  ghost predicate SortedDesc(s: seq<Scored>) {
    forall i, j :: 0 <= i < j < |s| ==> s[i].score >= s[j].score
  }

  /** The entries of s whose score is v, in order. */
  function WithScore(s: seq<Scored>, v: real): seq<Scored> {
    if s == [] then []
    else WithScore(s[..|s| - 1], v) + (if s[|s| - 1].score == v then [s[|s| - 1]] else [])
  }

  /** One step of a stable descending insertion sort: x goes after every entry,
      scanning from the back, whose score is at least x's. */
  function Insert(r: seq<Scored>, x: Scored): seq<Scored> {
    if r == [] || r[|r| - 1].score >= x.score then r + [x]
    else Insert(r[..|r| - 1], x) + [r[|r| - 1]]
  }

  /** usort with the comparator b <=> a: the entries by descending score, equal
      scores in input order. */
  function SortDesc(s: seq<Scored>): seq<Scored> {
    if s == [] then [] else Insert(SortDesc(s[..|s| - 1]), s[|s| - 1])
  }

  lemma {:induction false} InsertPermutes(r: seq<Scored>, x: Scored)
    ensures multiset(Insert(r, x)) == multiset(r) + multiset{x}
  {
    if r != [] && r[|r| - 1].score < x.score {
      var p := r[..|r| - 1];
      InsertPermutes(p, x);
      assert r == p + [r[|r| - 1]];
    }
  }

  lemma {:induction false} InsertSorted(r: seq<Scored>, x: Scored)
    requires SortedDesc(r)
    ensures SortedDesc(Insert(r, x))
    ensures |Insert(r, x)| == |r| + 1
    ensures Insert(r, x)[0].score >= x.score || (r != [] && Insert(r, x)[0] == r[0])
  {
    if r != [] && r[|r| - 1].score < x.score {
      var p, last := r[..|r| - 1], r[|r| - 1];
      InsertSorted(p, x);
      var q := Insert(p, x);
      InsertPermutes(p, x);
      forall k | 0 <= k < |q| ensures q[k].score >= last.score {
        assert q[k] in multiset(q);
        if q[k] != x {
          assert q[k] in multiset(p);
          var m :| 0 <= m < |p| && p[m] == q[k];
          assert p[m] == r[m];
        }
      }
    }
  }

  lemma {:induction false} InsertKeepsOrderOfEquals(r: seq<Scored>, x: Scored, v: real)
    ensures WithScore(Insert(r, x), v) == WithScore(r, v) + (if x.score == v then [x] else [])
  {
    if r == [] || r[|r| - 1].score >= x.score {
      WithScoreSnoc(r, x, v);
    } else {
      var p, last := r[..|r| - 1], r[|r| - 1];
      InsertKeepsOrderOfEquals(p, x, v);
      var q := Insert(p, x);
      WithScoreSnoc(q, last, v);
      assert r == p + [last];
      WithScoreSnoc(p, last, v);
    }
  }

  /** The sort returns the same entries, sorted by descending score. */
  lemma {:induction false} SortDescSortsAndPermutes(s: seq<Scored>)
    ensures |SortDesc(s)| == |s|
    ensures multiset(SortDesc(s)) == multiset(s)
    ensures SortedDesc(SortDesc(s))
  {
    if s != [] {
      var p := s[..|s| - 1];
      SortDescSortsAndPermutes(p);
      InsertSorted(SortDesc(p), s[|s| - 1]);
      InsertPermutes(SortDesc(p), s[|s| - 1]);
      assert s == p + [s[|s| - 1]];
    }
  }

  /** The sort is stable: for each score value, the entries with that score keep
      their relative input order. */
  lemma {:induction false} SortDescStable(s: seq<Scored>, v: real)
    ensures WithScore(SortDesc(s), v) == WithScore(s, v)
  {
    if s != [] {
      var p := s[..|s| - 1];
      SortDescStable(p, v);
      InsertKeepsOrderOfEquals(SortDesc(p), s[|s| - 1], v);
    }
  }

  /** An entry is in s exactly when it is among the entries of s with its own score. */
  lemma {:induction false} WithScoreMember(s: seq<Scored>, e: Scored)
    ensures e in s <==> e in WithScore(s, e.score)
  {
    if s != [] {
      var p := s[..|s| - 1];
      WithScoreMember(p, e);
      assert s == p + [s[|s| - 1]];
    }
  }

  /** A non-empty sequence has an entry with the score of its last entry. */
  lemma LastScorePresent(s: seq<Scored>)
    requires s != []
    ensures WithScore(s, s[|s| - 1].score) != []
  {
  }

  /** In a descending sequence, every entry scores at least as much as the last. */
  lemma LastIsLowest(s: seq<Scored>, e: Scored)
    requires SortedDesc(s) && e in s
    ensures e.score >= s[|s| - 1].score
  {
    var k :| 0 <= k < |s| && s[k] == e;
  }

  /** Two descending sequences that agree on the entries with the score of either
      one's last entry end in the same entry, since each one's last entry scores
      lowest in both. */
  lemma LastsAgree(t: seq<Scored>, u: seq<Scored>)
    requires t != [] && u != []
    requires SortedDesc(t) && SortedDesc(u)
    requires WithScore(t, t[|t| - 1].score) == WithScore(u, t[|t| - 1].score)
    requires WithScore(t, u[|u| - 1].score) == WithScore(u, u[|u| - 1].score)
    ensures t[|t| - 1] == u[|u| - 1]
  {
    var lt, lu := t[|t| - 1], u[|u| - 1];
    WithScoreMember(t, lt);
    WithScoreMember(u, lt);
    LastIsLowest(u, lt);
    WithScoreMember(u, lu);
    WithScoreMember(t, lu);
    LastIsLowest(t, lu);
    var a, b := WithScore(t, lt.score), WithScore(u, lt.score);
    assert a[|a| - 1] == lt;
    assert b[|b| - 1] == lu;
  }

  /** Appending x appends it to the entries with x's score and to no others. */
  lemma WithScoreSnoc(s: seq<Scored>, x: Scored, v: real)
    ensures WithScore(s + [x], v) == WithScore(s, v) + (if x.score == v then [x] else [])
  {
    assert (s + [x])[..|s|] == s;
  }

  /** Dropping the same last entry from both keeps the entries per score equal. */
  lemma DropLastAgrees(t: seq<Scored>, u: seq<Scored>, x: Scored)
    requires forall v :: WithScore(t + [x], v) == WithScore(u + [x], v)
    ensures forall v :: WithScore(t, v) == WithScore(u, v)
  {
    forall v ensures WithScore(t, v) == WithScore(u, v) {
      WithScoreSnoc(t, x, v);
      WithScoreSnoc(u, x, v);
      var a, b := WithScore(t, v), WithScore(u, v);
      assert WithScore(t + [x], v) == WithScore(u + [x], v);
      if x.score == v {
        assert a + [x] == b + [x] && |a| == |b|;
        assert a == (a + [x])[..|a|];
        assert b == (b + [x])[..|b|];
      } else {
        assert a + [] == a && b + [] == b;
      }
    }
  }

  /** Dropping the last entry of a descending sequence leaves it descending. */
  lemma SortedDropLast(t: seq<Scored>)
    requires t != [] && SortedDesc(t)
    ensures SortedDesc(t[..|t| - 1])
  {
  }

  /** Sequences with the same entries per score are empty together. */
  lemma EmptyTogether(t: seq<Scored>, u: seq<Scored>)
    requires forall v :: WithScore(t, v) == WithScore(u, v)
    ensures t == [] <==> u == []
  {
    if t != [] {
      LastScorePresent(t);
    }
    if u != [] {
      LastScorePresent(u);
    }
  }

  /** Two descending sequences that hold, for every score, the same entries with
      that score in the same order, are equal. */
  lemma {:induction false} SortedStableUnique(t: seq<Scored>, u: seq<Scored>)
    requires SortedDesc(t) && SortedDesc(u)
    requires forall v :: WithScore(t, v) == WithScore(u, v)
    ensures t == u
    decreases |t| + |u|
  {
    EmptyTogether(t, u);
    if t != [] {
      var t', u', x := t[..|t| - 1], u[..|u| - 1], t[|t| - 1];
      LastsAgree(t, u);
      assert t == t' + [x] && u == u' + [x];
      DropLastAgrees(t', u', x);
      SortedDropLast(t);
      SortedDropLast(u);
      SortedStableUnique(t', u');
    }
  }

  /** Any stable descending sort gives what SortDesc gives: the entries sorted by
      descending score with equal scores in input order determine the result. */
  lemma StableSortIsSortDesc(s: seq<Scored>, t: seq<Scored>)
    requires SortedDesc(t)
    requires forall v :: WithScore(t, v) == WithScore(s, v)
    ensures t == SortDesc(s)
  {
    SortDescSortsAndPermutes(s);
    forall v ensures WithScore(t, v) == WithScore(SortDesc(s), v) {
      SortDescStable(s, v);
    }
    SortedStableUnique(t, SortDesc(s));
  }

  /** One step of the in-place scan: with x after prev[..j] and prev[j - 1] scoring
      less than x, x moves one place further forward. */
  lemma InsertShift(prev: seq<Scored>, j: int, x: Scored)
    requires 0 < j <= |prev| && prev[j - 1].score < x.score
    ensures Insert(prev[..j], x) + prev[j..] == Insert(prev[..j - 1], x) + prev[j - 1..]
  {
    assert prev[..j][..j - 1] == prev[..j - 1];
    assert [prev[j - 1]] + prev[j..] == prev[j - 1..];
  }

  /** usort on the preferences array, in place: a stable insertion sort by
      descending score. */
  method SortByScore(a: array<Scored>)
    modifies a
    ensures a[..] == SortDesc(old(a[..]))
  {
    ghost var input := a[..];
    var i := 0;
    while i < a.Length
      invariant 0 <= i <= a.Length
      invariant a[..i] == SortDesc(input[..i])
      invariant a[i..] == input[i..]
    {
      assert input[..i + 1][..i] == input[..i] && input[i] == a[i];
      ghost var before := a[..];
      assert before[i + 1..] == before[i..][1..] == input[i..][1..] == input[i + 1..];
      InsertInPlace(a, i);
      assert a[..i + 1] == SortDesc(input[..i + 1]);
      i := i + 1;
    }
    assert input[..a.Length] == input;
  }

  /** Copying prev[j - 1] into the hole at j moves the hole one place forward. */
  lemma HoleShift(prev: seq<Scored>, rest: seq<Scored>, j: int, y: Scored)
    requires 0 < j <= |prev|
    ensures (prev[..j] + [y] + prev[j..] + rest)[j := prev[j - 1]]
            == prev[..j - 1] + [prev[j - 1]] + prev[j - 1..] + rest
  {
    assert prev[..j] == prev[..j - 1] + [prev[j - 1]];
    assert prev[j - 1..] == [prev[j - 1]] + prev[j..];
  }

  /** Filling the hole at j with x leaves Insert's result ahead of rest. */
  lemma HoleFill(prev: seq<Scored>, rest: seq<Scored>, j: int, y: Scored, x: Scored)
    requires 0 <= j <= |prev|
    ensures (prev[..j] + [y] + prev[j..] + rest)[j := x] == prev[..j] + [x] + prev[j..] + rest
    ensures (prev[..j] + [x] + prev[j..] + rest)[..|prev| + 1] == prev[..j] + [x] + prev[j..]
  {
  }

  /** Inserts a[i] into the sorted prefix a[..i], shifting the entries that score
      less than it one place back. */
  method InsertInPlace(a: array<Scored>, i: int)
    requires 0 <= i < a.Length
    modifies a
    ensures a[..i + 1] == Insert(old(a[..i]), old(a[i]))
    ensures a[i + 1..] == old(a[i + 1..])
  {
    var x := a[i];
    ghost var prev := a[..i];
    ghost var rest := a[i + 1..];
    assert a[..] == prev + [x] + rest;
    assert prev[..i] == prev && prev[i..] == [];
    var j := i;
    while j > 0 && a[j - 1].score < x.score
      invariant 0 <= j <= i
      invariant a[..] == prev[..j] + [a[j]] + prev[j..] + rest
      invariant Insert(prev, x) == Insert(prev[..j], x) + prev[j..]
    {
      InsertShift(prev, j, x);
      HoleShift(prev, rest, j, a[j]);
      assert a[j - 1] == prev[j - 1];
      ghost var before := a[..];
      a[j] := a[j - 1];
      assert a[..] == before[j := prev[j - 1]];
      j := j - 1;
    }
    HoleFill(prev, rest, j, a[j], x);
    ghost var before := a[..];
    a[j] := x;
    assert a[..] == before[j := x];
  }
}
