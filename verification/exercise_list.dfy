/** `src/components/ExerciseList.tsx`: a workout day's exercises sorted by
    `sortOrder` and split into an anchor section and an accessory section,
    each shown only when it has exercises. */
module ExerciseList {
  import opened Types
  import opened Seqs

  /** The comparator's key: `(a, b) => a.sortOrder - b.sortOrder`. */
  function ExerciseOrder(e: Exercise): int {
    e.sortOrder
  }

  function Anchored(): Exercise -> bool {
    (e: Exercise) => e.isAnchor
  }

  function Accessory(): Exercise -> bool {
    (e: Exercise) => !e.isAnchor
  }

  datatype Sections = Sections(anchors: seq<Exercise>, accessories: seq<Exercise>)

  /** The two sections, each in sort order. Together they hold every
      exercise exactly as often as the input does. */
  function ListSections(exercises: seq<Exercise>): (r: Sections)
    ensures forall i :: 0 <= i < |r.anchors| ==> r.anchors[i].isAnchor
    ensures forall i :: 0 <= i < |r.accessories| ==> !r.accessories[i].isAnchor
    ensures SortedBy(r.anchors, ExerciseOrder) && SortedBy(r.accessories, ExerciseOrder)
    ensures multiset(r.anchors) + multiset(r.accessories) == multiset(exercises)
  {
    var sorted := SortBy(exercises, ExerciseOrder);
    FilterSorted(sorted, Anchored(), ExerciseOrder);
    FilterSorted(sorted, Accessory(), ExerciseOrder);
    FilterCount(sorted, Anchored());
    FilterCount(sorted, Accessory());
    Sections(Filter(sorted, Anchored()), Filter(sorted, Accessory()))
  }

  /** The sections split the list: their lengths add up to the input's. */
  lemma SectionsPartition(exercises: seq<Exercise>)
    ensures |ListSections(exercises).anchors| + |ListSections(exercises).accessories| == |exercises|
  {
    var r := ListSections(exercises);
    assert |multiset(r.anchors) + multiset(r.accessories)| == |multiset(exercises)|;
  }

  /** Anchors with equal `sortOrder` keep their input order within their
      section: the sort is stable. */
  lemma {:induction false} SectionTies(exercises: seq<Exercise>, k: int)
    ensures Filter(ListSections(exercises).anchors, HasKey(ExerciseOrder, k))
            == Filter(exercises, Both(HasKey(ExerciseOrder, k), Anchored()))
  {
    var key := HasKey(ExerciseOrder, k);
    var sorted := SortBy(exercises, ExerciseOrder);
    FilterFilter(sorted, Anchored(), key);
    FilterFilter(sorted, key, Anchored());
    FilterExt(sorted, Both(Anchored(), key), Both(key, Anchored()));
    FilterFilter(exercises, key, Anchored());
  }

  /** The same for the accessory section. */
  lemma {:induction false} AccessoryTies(exercises: seq<Exercise>, k: int)
    ensures Filter(ListSections(exercises).accessories, HasKey(ExerciseOrder, k))
            == Filter(exercises, Both(HasKey(ExerciseOrder, k), Accessory()))
  {
    var key := HasKey(ExerciseOrder, k);
    var sorted := SortBy(exercises, ExerciseOrder);
    FilterFilter(sorted, Accessory(), key);
    FilterFilter(sorted, key, Accessory());
    FilterExt(sorted, Both(Accessory(), key), Both(key, Accessory()));
    FilterFilter(exercises, key, Accessory());
  }

  /** A section's header shows when it has an exercise. */
  function Shown(section: seq<Exercise>): bool {
    |section| > 0
  }

  /** The anchor section shows exactly when some exercise is an anchor, the
      accessory section exactly when some is not. */
  lemma {:induction false} SectionsShown(exercises: seq<Exercise>)
    ensures Shown(ListSections(exercises).anchors) <==> exists e :: e in exercises && e.isAnchor
    ensures Shown(ListSections(exercises).accessories) <==> exists e :: e in exercises && !e.isAnchor
  {
    var r := ListSections(exercises);
    var sorted := SortBy(exercises, ExerciseOrder);
    FilterMembers(sorted, Anchored());
    FilterMembers(sorted, Accessory());
    assert forall e :: e in sorted <==> e in exercises by {
      forall e ensures e in sorted <==> e in exercises {
        assert e in sorted <==> multiset(sorted)[e] > 0;
      }
    }
    if Shown(r.anchors) {
      assert r.anchors[0] in r.anchors;
    }
    if Shown(r.accessories) {
      assert r.accessories[0] in r.accessories;
    }
  }
}
