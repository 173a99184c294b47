/**
  `mergeLessons` (src/merge.ts) as the source runs it: the grouping loop fills
  a map of groups, each group is sorted and walked with a running `current`
  lesson, and the collected runs are sorted once more.
*/
module Merge {
  import opened Base
  import opened Types
  import opened LessonOrder
  import opened MergeSpec
  import MergeProperties

  method MergeLessons(lessons: seq<Lesson>, schoolStartTime: int, schoolEndTime: int)
    returns (merged: seq<Lesson>)
    ensures merged == Merged(lessons, schoolStartTime, schoolEndTime)
    ensures lessons == [] ==> merged == []
    ensures |merged| <= |lessons|
    ensures Sorted(ByDateStart, merged)
    ensures forall o :: o in merged ==> WithinDay(o, schoolStartTime, schoolEndTime)
  {
    if |lessons| == 0 {
      return [];
    }
    var clamped := Clamp(lessons, schoolStartTime, schoolEndTime);
    var keys, groups := GroupLessons(clamped);

    merged := [];
    for g := 0 to |keys|
      invariant merged == FuseAll(keys[..g], clamped)
    {
      var key := keys[g];
      assert keys[..g + 1][..g] == keys[..g];
      var runs := FuseSorted(Sort(ByStart, groups[key]));
      merged := merged + runs;
    }
    assert keys[..|keys|] == keys;

    MergeProperties.MergedSorted(lessons, schoolStartTime, schoolEndTime);
    MergeProperties.MergedNoGrowth(lessons, schoolStartTime, schoolEndTime);
    MergeProperties.MergedWithinSchoolDay(lessons, schoolStartTime, schoolEndTime);
    merged := Sort(ByDateStart, merged);
  }

  /**
    The grouping loop: `groups` maps every key seen to its lessons in input
    order, and `keys` lists the keys in the order the Map iterates them.
  */
  method GroupLessons(clamped: seq<Lesson>) returns (keys: seq<Key>, groups: map<Key, seq<Lesson>>)
    ensures keys == KeysInOrder(clamped)
    ensures forall k :: k in groups <==> k in keys
    ensures forall k :: k in groups ==> groups[k] == OfKey(clamped, k) && groups[k] != []
  {
    keys, groups := [], map[];
    for i := 0 to |clamped|
      invariant keys == KeysInOrder(clamped[..i])
      invariant forall k :: k in groups <==> k in keys
      invariant forall k :: k in groups ==> groups[k] == OfKey(clamped[..i], k)
    {
      var lesson := clamped[i];
      var key := KeyOf(lesson);
      assert clamped[..i + 1] == clamped[..i] + [lesson];
      if key !in groups {
        KeysInOrderMembers(clamped[..i], key);
        groups := groups[key := []];
        keys := keys + [key];
      }
      GroupsAppend(clamped[..i], lesson, groups);
      groups := groups[key := groups[key] + [lesson]];
    }
    assert clamped[..|clamped|] == clamped;
    forall k | k in groups ensures groups[k] != [] {
      KeysInOrderMembers(clamped, k);
    }
  }

  /** Appending a lesson to its own group keeps every group equal to its key's lessons. */
  lemma GroupsAppend(xs: seq<Lesson>, x: Lesson, groups: map<Key, seq<Lesson>>)
    requires KeyOf(x) in groups
    requires forall k :: k in groups ==> groups[k] == OfKey(xs, k)
    ensures var grown := groups[KeyOf(x) := groups[KeyOf(x)] + [x]];
      forall k :: k in grown ==> grown[k] == OfKey(xs + [x], k)
  {
    forall k | k in groups {
      OfKeySnoc(xs, x, k);
    }
  }

  /**
    The inner loop over one start-sorted group: extend the running lesson while
    the next one starts within LESSON_MERGE_GAP of its end, else close it.
  */
  method FuseSorted(group: seq<Lesson>) returns (runs: seq<Lesson>)
    requires group != []
    ensures runs == Fuse(group)
  {
    runs := [];
    var current := group[0];
    for j := 1 to |group|
      invariant runs + FuseRun(current, group[j..]) == Fuse(group)
    {
      var lesson := group[j];
      assert group[j..][0] == lesson && group[j..][1..] == group[j + 1..];
      if lesson.startTime <= current.endTime + LessonMergeGap {
        current := current.(endTime := Max(current.endTime, lesson.endTime));
      } else {
        runs := runs + [current];
        current := lesson;
      }
    }
    runs := runs + [current];
  }
}
