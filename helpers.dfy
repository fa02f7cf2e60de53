/** The dynamics bucket of a note-on velocity. */
module Helpers {

  /** The velocities at which the next bucket begins. */
  const Thresholds: seq<int> := [40, 70, 100]

  /** The bucket labels, softest first. */
  const Labels: seq<string> := ["pp", "mf", "f", "ff"]

  /** `velocity_to_dynamics`: a total threshold function from velocity to a label. */
  function VelocityToDynamics(velocity: int): string {
    if velocity < 40 then "pp"
    else if velocity < 70 then "mf"
    else if velocity < 100 then "f"
    else "ff"
  }

  /** Every velocity gets exactly one of the four labels, each on its own half-open range. */
  lemma DynamicsBuckets(velocity: int)
    ensures VelocityToDynamics(velocity) in Labels
    ensures VelocityToDynamics(velocity) == "pp" <==> velocity < 40
    ensures VelocityToDynamics(velocity) == "mf" <==> 40 <= velocity < 70
    ensures VelocityToDynamics(velocity) == "f" <==> 70 <= velocity < 100
    ensures VelocityToDynamics(velocity) == "ff" <==> 100 <= velocity
  {
  }

  /** How many of `thresholds` the velocity reaches. */
  function Reached(thresholds: seq<int>, velocity: int): (n: nat)
    ensures n <= |thresholds|
  {
    if thresholds == [] then 0
    else (if thresholds[0] <= velocity then 1 else 0) + Reached(thresholds[1..], velocity)
  }

  /** The position of a label in `Labels`, softest 0. */
  function Rank(bucket: string): (r: nat)
    requires bucket in Labels
    ensures r < |Labels| && Labels[r] == bucket
  {
    if bucket == "pp" then 0 else if bucket == "mf" then 1 else if bucket == "f" then 2 else 3
  }

  /** The bucket is the label indexed by the number of thresholds reached. */
  lemma DynamicsByThresholds(velocity: int)
    ensures VelocityToDynamics(velocity) == Labels[Reached(Thresholds, velocity)]
  {
    assert Thresholds[1..] == [70, 100] && [70, 100][1..] == [100] && [100][1..] == [];
    var lastOne := if 100 <= velocity then 1 else 0;
    assert Reached([100], velocity) == lastOne;
    assert Reached([70, 100], velocity) == (if 70 <= velocity then 1 else 0) + lastOne;
  }

  /** Reaching thresholds is monotone in the velocity. */
  lemma {:induction false} ReachedMonotone(thresholds: seq<int>, v: int, w: int)
    requires v <= w
    ensures Reached(thresholds, v) <= Reached(thresholds, w)
  {
    if thresholds != [] {
      ReachedMonotone(thresholds[1..], v, w);
    }
  }

  /** A louder note never gets a softer bucket. */
  lemma DynamicsMonotone(v: int, w: int)
    requires v <= w
    ensures Rank(VelocityToDynamics(v)) <= Rank(VelocityToDynamics(w))
  {
    DynamicsByThresholds(v);
    DynamicsByThresholds(w);
    ReachedMonotone(Thresholds, v, w);
    assert Rank(Labels[Reached(Thresholds, v)]) == Reached(Thresholds, v);
    assert Rank(Labels[Reached(Thresholds, w)]) == Reached(Thresholds, w);
  }

  /** The boundary velocities on either side of each threshold. */
  lemma DynamicsBoundaries()
    ensures VelocityToDynamics(39) == "pp" && VelocityToDynamics(40) == "mf"
    ensures VelocityToDynamics(69) == "mf" && VelocityToDynamics(70) == "f"
    ensures VelocityToDynamics(99) == "f" && VelocityToDynamics(100) == "ff"
  {
  }

}
