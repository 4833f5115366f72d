/**
  * Hand observations and the choice of the best gesture among the estimator's
  * candidates.
  *
  * The gesture estimator returns a list of `{name, score}` records. The component
  * keeps one of them with a left fold whose step keeps the accumulator only when
  * it scores strictly higher than the current element, so on a tie the later
  * element wins. The selected gesture is therefore the LAST element of maximal
  * score, which `LastMaxIndex` defines independently by a right-to-left scan.
  */
module Gestures {

  /** One keypoint produced by the hand-landmark detector. */
  datatype Landmark = Landmark(x: real, y: real, z: real)

  /** One detected hand; only its landmarks reach the estimator. */
  datatype Hand = Hand(landmarks: seq<Landmark>)

  /** A candidate letter and its confidence, as the estimator reports it. */
  datatype Gesture = Gesture(name: string, score: real)

  /** The confidence threshold the component passes to the estimator. */
  const MinConfidence: real := 6.5

  /** The reducer's step: keep `prev` only when it scores strictly higher. */
  function Keep(prev: Gesture, current: Gesture): Gesture {
    if prev.score > current.score then prev else current
  }

  /** `gs.reduce(Keep, acc)`: a left fold starting from `acc`. */
  function Fold(acc: Gesture, gs: seq<Gesture>): (r: Gesture)
    ensures r == acc || r in gs
    ensures acc.score <= r.score
    ensures forall g :: g in gs ==> g.score <= r.score
    decreases |gs|
  {
    if gs == [] then acc else Fold(Keep(acc, gs[0]), gs[1..])
  }

  /** `i` is the index of the last element of `gs` whose score is maximal. */
  ghost predicate IsLastMax(gs: seq<Gesture>, i: int) {
    0 <= i < |gs| &&
    (forall j :: 0 <= j < |gs| ==> gs[j].score <= gs[i].score) &&
    (forall j :: i < j < |gs| ==> gs[j].score < gs[i].score)
  }

  /**
    * Reference definition of the winner's position, scanning from the right:
    * the head wins only if it beats the best of the tail strictly.
    */
  function LastMaxIndex(gs: seq<Gesture>): (i: nat)
    requires |gs| > 0
    ensures IsLastMax(gs, i)
    decreases |gs|
  {
    if |gs| == 1 then 0
    else
      var k := 1 + LastMaxIndex(gs[1..]);
      if gs[0].score > gs[k].score then 0 else k
  }

  /** At most one index is the last maximal one. */
  lemma LastMaxUnique(gs: seq<Gesture>, i: int, j: int)
    requires IsLastMax(gs, i) && IsLastMax(gs, j)
    ensures i == j
  {
    assert gs[i].score == gs[j].score;
  }

  /** The fold from any accumulator ends on the accumulator or the last maximum. */
  lemma {:induction false} FoldPicksLastMax(acc: Gesture, gs: seq<Gesture>)
    requires |gs| > 0
    ensures Fold(acc, gs) ==
            if acc.score > gs[LastMaxIndex(gs)].score then acc else gs[LastMaxIndex(gs)]
    decreases |gs|
  {
    if |gs| > 1 {
      FoldPicksLastMax(Keep(acc, gs[0]), gs[1..]);
    }
  }

  /**
    * The component's selection: `gestures.reduce(Keep, gestures[0])`. The winner
    * is an element of the list, scores at least as much as every element, and is
    * the last element of maximal score.
    */
  function SelectBest(gs: seq<Gesture>): (r: Gesture)
    requires |gs| > 0
    ensures r in gs
    ensures forall g :: g in gs ==> g.score <= r.score
    ensures r == gs[LastMaxIndex(gs)]
  {
    FoldPicksLastMax(gs[0], gs);
    Fold(gs[0], gs)
  }

  /** When two elements share the maximal score, the selection is never before the later one. */
  lemma TieGoesToLater(gs: seq<Gesture>, i: int, j: int)
    requires 0 <= i < j < |gs|
    requires gs[i].score == gs[j].score
    requires forall k :: 0 <= k < |gs| ==> gs[k].score <= gs[j].score
    ensures j <= LastMaxIndex(gs)
    ensures SelectBest(gs).score == gs[j].score
  {
  }

  /** An illustration of `TieGoesToLater`: a tie between two letters is won by the one listed second. */
  lemma TieExample()
    ensures SelectBest([Gesture("A", 7.0), Gesture("B", 7.0)]) == Gesture("B", 7.0)
  {
  }
}
