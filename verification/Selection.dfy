/** Parts of a sequence that keep its order, by the places they are taken from. */
module Selection {

  ghost predicate IsIncreasing(at: seq<nat>) {
    forall i, j :: 0 <= i < j < |at| ==> at[i] < at[j]
  }

  /** `picked` is what stands at the places `at`, in order. */
  ghost predicate AreAt<T>(from: seq<T>, picked: seq<T>, at: seq<nat>) {
    && |at| == |picked| && IsIncreasing(at)
    && forall i :: 0 <= i < |at| ==> at[i] < |from| && picked[i] == from[at[i]]
  }

  function Shifted(at: seq<nat>): (up: seq<nat>)
    ensures |up| == |at| && forall i :: 0 <= i < |at| ==> up[i] == at[i] + 1
  {
    seq(|at|, i requires 0 <= i < |at| => at[i] + 1)
  }

  lemma AtBelow<T>(from: seq<T>, picked: seq<T>, at: seq<nat>)
    requires from != [] && AreAt(from[1..], picked, at)
    ensures AreAt(from, picked, Shifted(at)) && AreAt(from, [from[0]] + picked, [0] + Shifted(at))
  {
    assert forall i :: 0 <= i < |at| ==> from[at[i] + 1] == from[1..][at[i]];
  }

  lemma ShiftedIn(below: seq<nat>, k: nat)
    ensures k in below <==> k + 1 in Shifted(below)
  {
    var up := Shifted(below);
    if k in below {
      var i :| 0 <= i < |below| && below[i] == k;
      assert up[i] == k + 1;
    }
    if k + 1 in up {
      var i :| 0 <= i < |up| && up[i] == k + 1;
      assert below[i] == k;
    }
  }

  lemma PlacesAre(below: seq<nat>, first: bool, k: nat)
    ensures k in (if first then [0] + Shifted(below) else Shifted(below)) <==> if k == 0 then first else k - 1 in below
  {
    if k > 0 { ShiftedIn(below, k - 1); }
    var up := Shifted(below);
    assert k in [0] + up <==> k == 0 || k in up;
  }
}
