/** The accuracy count of `do_cross_validation`: how many of the `l`
    instances the cross-validated models label correctly. */
module CrossValidation {

  /** The number of positions where the predicted label equals the true one. */
  function Hits(target: seq<int>, y: seq<int>): (n: nat)
    requires |target| == |y|
    ensures n <= |target|
  {
    if |target| == 0 then 0
    else Hits(target[..|target| - 1], y[..|y| - 1])
         + (if target[|target| - 1] == y[|y| - 1] then 1 else 0)
  }

  /** The positions where the prediction is right. */
  function Matches(target: seq<int>, y: seq<int>): set<nat>
    requires |target| == |y|
  {
    set i: nat | i < |target| && target[i] == y[i]
  }

  /** The count is the size of the set of correctly predicted positions. */
  lemma {:induction false} HitsCountsMatches(target: seq<int>, y: seq<int>)
    requires |target| == |y|
    ensures Hits(target, y) == |Matches(target, y)|
  {
    if |target| > 0 {
      var m := |target| - 1;
      var t', y' := target[..m], y[..m];
      HitsCountsMatches(t', y');
      var before := Matches(t', y');
      assert m !in before;
      if target[m] == y[m] {
        assert Matches(target, y) == before + {m};
      } else {
        assert Matches(target, y) == before;
      }
    }
  }

  /** Every instance is predicted correctly exactly when the count is `l`. */
  lemma {:induction false} AllHitIff(target: seq<int>, y: seq<int>)
    requires |target| == |y|
    ensures Hits(target, y) == |target| <==> forall i :: 0 <= i < |target| ==> target[i] == y[i]
  {
    if |target| > 0 {
      var m := |target| - 1;
      AllHitIff(target[..m], y[..m]);
      assert forall i :: 0 <= i < m ==> target[..m][i] == target[i] && y[..m][i] == y[i];
    }
  }

  /** No instance is predicted correctly exactly when the count is 0. */
  lemma {:induction false} NoneHitIff(target: seq<int>, y: seq<int>)
    requires |target| == |y|
    ensures Hits(target, y) == 0 <==> forall i :: 0 <= i < |target| ==> target[i] != y[i]
  {
    if |target| > 0 {
      var m := |target| - 1;
      NoneHitIff(target[..m], y[..m]);
      assert forall i :: 0 <= i < m ==> target[..m][i] == target[i] && y[..m][i] == y[i];
    }
  }

  /** The counting loop over the `prob.l` predictions filled in by
      liblinear's `cross_validation`. */
  method TotalCorrect(target: array<int>, y: array<int>) returns (totalCorrect: int)
    requires target.Length == y.Length
    ensures totalCorrect == Hits(target[..], y[..])
    ensures 0 <= totalCorrect <= target.Length
  {
    totalCorrect := 0;
    var i := 0;
    while i < target.Length
      invariant 0 <= i <= target.Length
      invariant totalCorrect == Hits(target[..i], y[..i])
    {
      assert target[..i + 1][..i] == target[..i] && y[..i + 1][..i] == y[..i];
      if target[i] == y[i] {
        totalCorrect := totalCorrect + 1;
      }
      i := i + 1;
    }
    assert target[..i] == target[..] && y[..i] == y[..];
  }
}
