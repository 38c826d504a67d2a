/** `src/components/WorkoutDayCard.tsx`: a workout day's card with its
    exercise count and, when there are any, its anchor count. */
module WorkoutDayCard {
  import opened Types
  import opened Seqs
  import ExerciseList

  datatype Counts = Counts(anchors: nat, total: nat)

  /** The positions of the anchor exercises. */
  ghost function AnchorPositions(exercises: seq<Exercise>): set<int> {
    set i | 0 <= i < |exercises| && exercises[i].isAnchor
  }

  /** `exercises.filter(e => e.isAnchor).length` and `exercises.length`: the
      anchor count is the number of anchor positions. */
  function CardCounts(exercises: seq<Exercise>): (c: Counts)
    ensures c.total == |exercises| && c.anchors <= c.total
    ensures c.anchors == |AnchorPositions(exercises)|
    ensures c.anchors == c.total <==> forall i :: 0 <= i < |exercises| ==> exercises[i].isAnchor
  {
    var anchors := Filter(exercises, ExerciseList.Anchored());
    FilterKeepsAll(exercises, ExerciseList.Anchored());
    FilterLength(exercises, ExerciseList.Anchored(), |exercises|);
    assert exercises[..|exercises|] == exercises;
    assert Positions(exercises, ExerciseList.Anchored(), |exercises|) == AnchorPositions(exercises);
    Counts(|anchors|, |exercises|)
  }

  /** "N anchors" shows when the count is positive. */
  function AnchorLabelShown(c: Counts): bool {
    c.anchors > 0
  }

  /** The anchor label shows exactly when some exercise of the day is an
      anchor. */
  lemma {:induction false} AnchorLabelIffAnchor(exercises: seq<Exercise>)
    ensures AnchorLabelShown(CardCounts(exercises)) <==> exists e :: e in exercises && e.isAnchor
  {
    var anchors := Filter(exercises, ExerciseList.Anchored());
    FilterMembers(exercises, ExerciseList.Anchored());
    if |anchors| > 0 {
      assert anchors[0] in anchors;
    }
  }
}
