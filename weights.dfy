/** The weight normaliser: the fixed default weights, and the weights the engine
    derives from the weights a user enters (an ordered array of key => number). */
module Weights {
  import opened Cars

  /** The user's weights as an ordered array of (criterion key, weight) pairs. */
  type Entries = seq<(string, real)>

  /** The defaults. They sum to 10 and are used as they are, not divided by 10. */
  const DefaultWeights: map<string, real> :=
    map[EngineSize.Name() := 2.0, Mileage.Name() := 2.0, Doors.Name() := 1.0,
        OwnerCount.Name() := 2.0, Price.Name() := 3.0]

  /** Reading a weight: a key that is absent reads as 0. */
  function Weight(w: map<string, real>, key: string): real {
    if key in w then w[key] else 0.0
  }

  /** The sum of the weights read under the keys ks, in order. */
  function SumAt(ks: seq<string>, w: map<string, real>): real {
    if ks == [] then 0.0 else SumAt(ks[..|ks| - 1], w) + Weight(w, ks[|ks| - 1])
  }

  /** The keys of the user's array, in order. */
  function KeysOf(u: Entries): (ks: seq<string>)
    ensures |ks| == |u|
    ensures forall i :: 0 <= i < |u| ==> ks[i] == u[i].0
  {
    if u == [] then [] else KeysOf(u[..|u| - 1]) + [u[|u| - 1].0]
  }

  /** The set of the user's keys. */
  ghost function KeySet(u: Entries): set<string> {
    set i | 0 <= i < |u| :: u[i].0
  }

  /** A PHP array never holds a key twice. */
  ghost predicate DistinctKeys(u: Entries) {
    forall i, j :: 0 <= i < j < |u| ==> u[i].0 != u[j].0
  }

  /** array_sum of the user's weights. */
  function Total(u: Entries): real {
    if u == [] then 0.0 else Total(u[..|u| - 1]) + u[|u| - 1].1
  }

  /** What the foreach loop leaves after storing weight / total under each key in order. */
  function Scaled(u: Entries, total: real): map<string, real>
    requires total > 0.0
  {
    if u == [] then map[] else Scaled(u[..|u| - 1], total)[u[|u| - 1].0 := u[|u| - 1].1 / total]
  }

  /** The weights the engine ranks with: the defaults when the user gave none or
      when the user's weights do not sum to a positive number, else each user
      weight divided by their sum. */
  function NormalizeWeights(u: Entries): (w: map<string, real>)
    ensures u == [] ==> w == DefaultWeights
    ensures Total(u) <= 0.0 ==> w == DefaultWeights
    ensures u != [] && Total(u) > 0.0 ==> w.Keys == KeySet(u)
  {
    if u == [] then DefaultWeights
    else if Total(u) > 0.0 then ScaledKeys(u, Total(u)); Scaled(u, Total(u))
    else DefaultWeights
  }

  /** The loop stores exactly the user's keys. */
  lemma {:induction false} ScaledKeys(u: Entries, total: real)
    requires total > 0.0
    ensures Scaled(u, total).Keys == KeySet(u)
  {
    if u != [] {
      var p := u[..|u| - 1];
      ScaledKeys(p, total);
      var s := KeySet(u);
      var sp := KeySet(p);
      assert s == sp + {u[|u| - 1].0} by {
        forall k | k in s ensures k in sp + {u[|u| - 1].0} {
          var i :| 0 <= i < |u| && u[i].0 == k;
          if i < |p| { assert p[i] == u[i]; }
        }
        forall k | k in sp ensures k in s {
          var i :| 0 <= i < |p| && p[i].0 == k;
          assert u[i] == p[i];
        }
      }
    }
  }

  /** With distinct keys, each key holds its own weight divided by the total. */
  lemma {:induction false} ScaledAt(u: Entries, total: real, i: int)
    requires total > 0.0 && DistinctKeys(u) && 0 <= i < |u|
    ensures u[i].0 in Scaled(u, total) && Scaled(u, total)[u[i].0] == u[i].1 / total
  {
    var p := u[..|u| - 1];
    if i < |u| - 1 {
      assert p[i] == u[i];
      ScaledAt(p, total, i);
    }
  }

  /** Storing under a key that ks does not mention leaves the sum over ks alone. */
  lemma {:induction false} SumAtUpdate(ks: seq<string>, w: map<string, real>, k: string, v: real)
    requires k !in ks
    ensures SumAt(ks, w[k := v]) == SumAt(ks, w)
  {
    if ks != [] {
      SumAtUpdate(ks[..|ks| - 1], w, k, v);
    }
  }

  /** Read back under the user's keys, the stored weights add up to total(u) / total. */
  lemma {:induction false} SumScaled(u: Entries, total: real)
    requires total > 0.0 && DistinctKeys(u)
    ensures SumAt(KeysOf(u), Scaled(u, total)) == Total(u) / total
  {
    if u != [] {
      var p, k, x := u[..|u| - 1], u[|u| - 1].0, u[|u| - 1].1;
      var ks, kp := KeysOf(u), KeysOf(p);
      var before := Scaled(p, total);
      assert ks[..|ks| - 1] == kp;
      assert k !in kp by {
        forall i | 0 <= i < |p| ensures kp[i] != k { assert p[i] == u[i]; }
      }
      assert Scaled(u, total) == before[k := x / total];
      SumScaled(p, total);
      SumAtUpdate(kp, before, k, x / total);
      assert SumAt(ks, Scaled(u, total)) == Total(p) / total + x / total;
      assert Total(u) == Total(p) + x;
      assert Total(p) / total + x / total == (Total(p) + x) / total;
    }
  }

  /** Non-empty user weights with a positive sum are renormalised: same keys, each
      weight divided by the sum, and the stored weights sum to exactly 1. */
  lemma PositiveTotalNormalizes(u: Entries)
    requires DistinctKeys(u) && Total(u) > 0.0
    ensures NormalizeWeights(u).Keys == KeySet(u)
    ensures forall i :: 0 <= i < |u| ==> Weight(NormalizeWeights(u), u[i].0) == u[i].1 / Total(u)
    ensures SumAt(KeysOf(u), NormalizeWeights(u)) == 1.0
  {
    NormalizedValues(u);
    NormalizedSumIsOne(u);
  }

  lemma NormalizedValues(u: Entries)
    requires DistinctKeys(u) && Total(u) > 0.0
    ensures forall i :: 0 <= i < |u| ==> Weight(NormalizeWeights(u), u[i].0) == u[i].1 / Total(u)
  {
    var t := Total(u);
    assert NormalizeWeights(u) == Scaled(u, t);
    ScaledValues(u, t);
  }

  lemma NormalizedSumIsOne(u: Entries)
    requires DistinctKeys(u) && Total(u) > 0.0
    ensures SumAt(KeysOf(u), NormalizeWeights(u)) == 1.0
  {
    var t := Total(u);
    assert NormalizeWeights(u) == Scaled(u, t);
    SumScaled(u, t);
    DivSelf(t);
  }

  lemma DivSelf(t: real)
    requires t > 0.0
    ensures t / t == 1.0
  {
  }

  lemma ScaledValues(u: Entries, total: real)
    requires total > 0.0 && DistinctKeys(u)
    ensures forall i :: 0 <= i < |u| ==> Weight(Scaled(u, total), u[i].0) == u[i].1 / total
  {
    forall i | 0 <= i < |u| ensures Weight(Scaled(u, total), u[i].0) == u[i].1 / total {
      ScaledAt(u, total, i);
    }
  }

  /** Non-negative user weights with a positive sum become weights in [0, 1];
      a negative weight keeps its sign. */
  lemma NormalizedWeightRange(u: Entries, i: int)
    requires DistinctKeys(u) && Total(u) > 0.0 && 0 <= i < |u|
    ensures u[i].1 < 0.0 ==> Weight(NormalizeWeights(u), u[i].0) < 0.0
    ensures (forall j :: 0 <= j < |u| ==> u[j].1 >= 0.0) ==>
              0.0 <= Weight(NormalizeWeights(u), u[i].0) <= 1.0
  {
    var v, t := u[i].1, Total(u);
    NormalizedValues(u);
    assert Weight(NormalizeWeights(u), u[i].0) == v / t;
    if forall j :: 0 <= j < |u| ==> u[j].1 >= 0.0 {
      TotalBoundsEach(u, i);
    }
    DivBounds(v, t);
  }

  lemma DivBounds(v: real, t: real)
    requires t > 0.0
    ensures v < 0.0 ==> v / t < 0.0
    ensures 0.0 <= v <= t ==> 0.0 <= v / t <= 1.0
  {
    if 0.0 <= v <= t { assert v / t <= t / t; }
  }

  /** With non-negative weights, each single weight is at most their sum. */
  lemma {:induction false} TotalBoundsEach(u: Entries, i: int)
    requires 0 <= i < |u|
    requires forall j :: 0 <= j < |u| ==> u[j].1 >= 0.0
    ensures 0.0 <= u[i].1 <= Total(u)
  {
    var p := u[..|u| - 1];
    TotalNonNegative(p);
    if i < |u| - 1 {
      assert p[i] == u[i];
      TotalBoundsEach(p, i);
    }
  }

  lemma {:induction false} TotalNonNegative(u: Entries)
    requires forall j :: 0 <= j < |u| ==> u[j].1 >= 0.0
    ensures Total(u) >= 0.0
  {
    if u != [] {
      var p := u[..|u| - 1];
      assert forall j :: 0 <= j < |p| ==> p[j] == u[j];
      TotalNonNegative(p);
    }
  }

  /** The keys of the five criteria, in scan order. */
  const CriteriaNames: seq<string> := seq(|Criteria|, i requires 0 <= i < |Criteria| => Criteria[i].Name())

  /** Summing over the five criteria's keys adds their five weights. */
  lemma SumOverCriteria(w: map<string, real>)
    ensures SumAt(CriteriaNames, w) == Weight(w, EngineSize.Name()) + Weight(w, Mileage.Name())
      + Weight(w, Doors.Name()) + Weight(w, OwnerCount.Name()) + Weight(w, Price.Name())
  {
    var names := CriteriaNames;
    assert SumAt(names[..1], w) == Weight(w, EngineSize.Name()) by { assert names[..1][..0] == []; }
    assert SumAt(names[..2], w) == Weight(w, EngineSize.Name()) + Weight(w, Mileage.Name()) by {
      assert names[..2][..1] == names[..1];
    }
    assert SumAt(names[..3], w) == Weight(w, EngineSize.Name()) + Weight(w, Mileage.Name())
      + Weight(w, Doors.Name()) by {
      assert names[..3][..2] == names[..2];
    }
    assert SumAt(names[..4], w) == Weight(w, EngineSize.Name()) + Weight(w, Mileage.Name())
      + Weight(w, Doors.Name()) + Weight(w, OwnerCount.Name()) by {
      assert names[..4][..3] == names[..3];
    }
    assert names[..5] == names;
  }

  /** The defaults are not normalised: over the five criteria they sum to 10. */
  lemma DefaultWeightsSumToTen()
    ensures SumAt(CriteriaNames, DefaultWeights) == 10.0
    ensures forall c: Criterion :: Weight(DefaultWeights, c.Name()) > 0.0
  {
    SumOverCriteria(DefaultWeights);
  }

  /** Weights that are all zero or negative sum to at most 0. */
  lemma {:induction false} TotalNonPositive(u: Entries)
    requires forall j :: 0 <= j < |u| ==> u[j].1 <= 0.0
    ensures Total(u) <= 0.0
  {
    if u != [] {
      var p := u[..|u| - 1];
      assert forall j :: 0 <= j < |p| ==> p[j] == u[j];
      TotalNonPositive(p);
    }
  }

  /** A form whose weights are all zero (or negative) falls back to the defaults. */
  lemma NonPositiveFallsBack(u: Entries)
    requires forall j :: 0 <= j < |u| ==> u[j].1 <= 0.0
    ensures NormalizeWeights(u) == DefaultWeights
  {
    TotalNonPositive(u);
  }
}
