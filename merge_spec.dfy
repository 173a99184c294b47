/**
  What `mergeLessons` (src/merge.ts) computes, stated as functions: clamp every
  lesson to the school day, group by identity key in order of first appearance,
  sort each group by start time, fuse runs that touch within LESSON_MERGE_GAP,
  and sort the result by (date, start time).
*/
module MergeSpec {
  import opened Base
  import opened Types
  import opened LessonOrder

  /** LESSON_MERGE_GAP: a next lesson starting at most this long after the current end is fused. */
  const LessonMergeGap := 1

  // ---------------------------------------------------------------- clamp

  predicate WithinDay(l: Lesson, schoolStartTime: int, schoolEndTime: int)
  {
    schoolStartTime <= l.startTime < l.endTime <= schoolEndTime
  }

  /** A lesson cut to the school day, or None when no time of it is left. */
  function ClampLesson(l: Lesson, schoolStartTime: int, schoolEndTime: int): Option<Lesson>
  {
    var startTime := Max(l.startTime, schoolStartTime);
    var endTime := Min(l.endTime, schoolEndTime);
    if startTime >= endTime then None else Some(l.(startTime := startTime, endTime := endTime))
  }

  /** The map-then-filter stage: every lesson clamped, the empty ones dropped, order kept. */
  function Clamp(lessons: seq<Lesson>, schoolStartTime: int, schoolEndTime: int): (r: seq<Lesson>)
    ensures |r| <= |lessons|
    ensures forall x :: x in r ==> WithinDay(x, schoolStartTime, schoolEndTime)
  {
    if lessons == [] then []
    else
      var head := match ClampLesson(lessons[0], schoolStartTime, schoolEndTime)
        case Some(c) => [c]
        case None => [];
      head + Clamp(lessons[1..], schoolStartTime, schoolEndTime)
  }

  /**
    Which lessons the clamp keeps: every input lesson with time left inside
    the school day survives, cut to it, and every kept lesson is such a cut.
  */
  lemma {:induction false} ClampContents(lessons: seq<Lesson>, schoolStartTime: int, schoolEndTime: int)
    ensures forall l :: l in lessons && ClampLesson(l, schoolStartTime, schoolEndTime).Some? ==>
      ClampLesson(l, schoolStartTime, schoolEndTime).value in Clamp(lessons, schoolStartTime, schoolEndTime)
    ensures forall x :: x in Clamp(lessons, schoolStartTime, schoolEndTime) ==>
      exists l :: l in lessons && ClampLesson(l, schoolStartTime, schoolEndTime) == Some(x)
  {
    if lessons != [] {
      var rest := Clamp(lessons[1..], schoolStartTime, schoolEndTime);
      var head := match ClampLesson(lessons[0], schoolStartTime, schoolEndTime)
        case Some(c) => [c]
        case None => [];
      assert Clamp(lessons, schoolStartTime, schoolEndTime) == head + rest;
      ClampContents(lessons[1..], schoolStartTime, schoolEndTime);
      forall l | l in lessons ensures l == lessons[0] || l in lessons[1..] {
        assert lessons == [lessons[0]] + lessons[1..];
      }
      forall x | x in head + rest
        ensures exists l :: l in lessons && ClampLesson(l, schoolStartTime, schoolEndTime) == Some(x)
      {
        if x in head {
          assert lessons[0] in lessons;
        } else {
          var l :| l in lessons[1..] && ClampLesson(l, schoolStartTime, schoolEndTime) == Some(x);
          assert l in lessons;
        }
      }
    }
  }

  /** Clamping keeps the order and the multiplicity of the lessons it keeps: it works lesson by lesson. */
  lemma {:induction false} ClampAppend(a: seq<Lesson>, b: seq<Lesson>, schoolStartTime: int, schoolEndTime: int)
    ensures Clamp(a + b, schoolStartTime, schoolEndTime)
         == Clamp(a, schoolStartTime, schoolEndTime) + Clamp(b, schoolStartTime, schoolEndTime)
  {
    if a == [] {
      assert a + b == b;
    } else {
      assert (a + b)[0] == a[0] && (a + b)[1..] == a[1..] + b;
      ClampAppend(a[1..], b, schoolStartTime, schoolEndTime);
    }
  }

  // ---------------------------------------------------------------- grouping

  predicate Distinct(ks: seq<Key>)
  {
    forall i, j :: 0 <= i < j < |ks| ==> ks[i] != ks[j]
  }

  /** The keys of `xs` in order of first appearance: the iteration order of the `groups` Map. */
  function KeysInOrder(xs: seq<Lesson>): (ks: seq<Key>)
    ensures Distinct(ks)
  {
    if xs == [] then []
    else
      var ks := KeysInOrder(xs[..|xs| - 1]);
      var k := KeyOf(xs[|xs| - 1]);
      if k in ks then ks else ks + [k]
  }

  /** The groups of the listed keys, one after another. */
  function ConcatOfKeys(ks: seq<Key>, xs: seq<Lesson>): seq<Lesson>
  {
    if ks == [] then [] else ConcatOfKeys(ks[..|ks| - 1], xs) + OfKey(xs, ks[|ks| - 1])
  }

  // ---------------------------------------------------------------- fusion

  /**
    The inner loop over a start-sorted group: `current` is the run being built,
    `rest` the lessons still to visit.
  */
  function FuseRun(current: Lesson, rest: seq<Lesson>): seq<Lesson>
    decreases |rest|
  {
    if rest == [] then [current]
    else if rest[0].startTime <= current.endTime + LessonMergeGap then
      FuseRun(current.(endTime := Max(current.endTime, rest[0].endTime)), rest[1..])
    else [current] + FuseRun(rest[0], rest[1..])
  }

  function Fuse(group: seq<Lesson>): seq<Lesson>
  {
    if group == [] then [] else FuseRun(group[0], group[1..])
  }

  /** One group sorted by start time and fused. */
  function FuseGroup(group: seq<Lesson>): seq<Lesson>
  {
    Fuse(Sort(ByStart, group))
  }

  /** The fused groups of the listed keys, in that order: the `merged` array before its final sort. */
  function FuseAll(ks: seq<Key>, xs: seq<Lesson>): seq<Lesson>
  {
    if ks == [] then [] else FuseAll(ks[..|ks| - 1], xs) + FuseGroup(OfKey(xs, ks[|ks| - 1]))
  }

  /** The result of `mergeLessons(lessons, schoolStartTime, schoolEndTime)`. */
  function Merged(lessons: seq<Lesson>, schoolStartTime: int, schoolEndTime: int): seq<Lesson>
  {
    if lessons == [] then []
    else
      var clamped := Clamp(lessons, schoolStartTime, schoolEndTime);
      Sort(ByDateStart, FuseAll(KeysInOrder(clamped), clamped))
  }

  // ---------------------------------------------------------------- facts the loops need

  /** A key has been seen exactly when its group is non-empty. */
  lemma {:induction false} KeysInOrderMembers(xs: seq<Lesson>, k: Key)
    ensures k in KeysInOrder(xs) <==> OfKey(xs, k) != []
  {
    if xs != [] {
      var init, last := xs[..|xs| - 1], xs[|xs| - 1];
      assert xs == init + [last];
      KeysInOrderMembers(init, k);
      OfKeyAppend(init, [last], k);
      OfKeyFrontSingle(last, k);
    }
  }

  lemma OfKeyFrontSingle(x: Lesson, k: Key)
    ensures OfKey([x], k) == if KeyOf(x) == k then [x] else []
  {
    assert [x][1..] == [];
  }

  /** The groups after one more lesson: only the group of its key grows, at the end. */
  lemma OfKeySnoc(xs: seq<Lesson>, x: Lesson, k: Key)
    ensures OfKey(xs + [x], k) == OfKey(xs, k) + (if KeyOf(x) == k then [x] else [])
  {
    OfKeyAppend(xs, [x], k);
    OfKeyFrontSingle(x, k);
  }
}
