/**
  What the merger guarantees, proved about `MergeSpec.Merged`: every lesson
  lies inside the school day, the result is sorted by (date, start), nothing
  is invented (each output lesson is a clamped input with its end moved to the
  end of a later lesson of the same key), every clamped input is covered,
  lessons of one key end up separated by more than LESSON_MERGE_GAP, the count
  never grows, degenerate bounds drop everything, and merging again changes
  nothing but the order of ties.
*/
module MergeProperties {
  import opened Base
  import opened Types
  import opened LessonOrder
  import opened MergeSpec

  /** `o` spans `x`: same key, and `x`'s interval lies within `o`'s. */
  predicate Covers(o: Lesson, x: Lesson)
  {
    KeyOf(o) == KeyOf(x) && o.startTime <= x.startTime && x.endTime <= o.endTime
  }

  /** Each later lesson starts more than LESSON_MERGE_GAP after every earlier one ends. */
  ghost predicate Separated(s: seq<Lesson>)
  {
    forall i, j :: 0 <= i < j < |s| ==> s[j].startTime > s[i].endTime + LessonMergeGap
  }

  /**
    `o` is `x` with its end taken from `y`, a lesson starting no earlier and
    ending no earlier than `x`: start time and all other fields come from `x`.
  */
  predicate FusedFrom(o: Lesson, x: Lesson, y: Lesson)
  {
    o == x.(endTime := y.endTime) && x.startTime <= y.startTime && x.endTime <= y.endTime
  }

  ghost predicate FusedIn(o: Lesson, g: seq<Lesson>)
  {
    exists x, y :: x in g && y in g && FusedFrom(o, x, y)
  }

  /** `o` was fused from lessons `x` and `y` of `c` that share one key. */
  ghost predicate Provenance(o: Lesson, c: seq<Lesson>)
  {
    exists x, y :: x in c && y in c && KeyOf(x) == KeyOf(y) && FusedFrom(o, x, y)
  }

  /** What the inner loop relies on: the rest is start-sorted and starts no earlier than `current`. */
  ghost predicate RunReady(current: Lesson, rest: seq<Lesson>)
  {
    Sorted(ByStart, rest) && forall r :: r in rest ==> current.startTime <= r.startTime
  }

  // ---------------------------------------------------------------- one run

  lemma ReadyStep(current: Lesson, rest: seq<Lesson>)
    requires rest != [] && RunReady(current, rest)
    ensures Sorted(ByStart, rest[1..])
    ensures forall r :: r in rest[1..] ==> rest[0].startTime <= r.startTime
    ensures forall r :: r in rest[1..] ==> current.startTime <= r.startTime
  {
    SortedTail(ByStart, rest);
    forall r | r in rest[1..] ensures current.startTime <= r.startTime {
      assert r in rest;
    }
  }

  lemma {:induction false} FuseRunLength(current: Lesson, rest: seq<Lesson>)
    ensures 1 <= |FuseRun(current, rest)| <= 1 + |rest|
    decreases |rest|
  {
    if rest != [] {
      if rest[0].startTime <= current.endTime + LessonMergeGap {
        FuseRunLength(current.(endTime := Max(current.endTime, rest[0].endTime)), rest[1..]);
      } else {
        FuseRunLength(rest[0], rest[1..]);
      }
    }
  }

  /** The runs of a start-sorted group are separated, and none starts before `current`. */
  lemma {:induction false} FuseRunSeparated(current: Lesson, rest: seq<Lesson>)
    requires RunReady(current, rest)
    ensures Separated(FuseRun(current, rest))
    ensures forall o :: o in FuseRun(current, rest) ==> current.startTime <= o.startTime
    decreases |rest|
  {
    if rest != [] {
      ReadyStep(current, rest);
      if rest[0].startTime <= current.endTime + LessonMergeGap {
        FuseRunSeparated(current.(endTime := Max(current.endTime, rest[0].endTime)), rest[1..]);
      } else {
        var tail := FuseRun(rest[0], rest[1..]);
        FuseRunSeparated(rest[0], rest[1..]);
        assert FuseRun(current, rest) == [current] + tail;
        SeparatedCons(current, tail, rest[0].startTime);
      }
    }
  }

  /** A lesson ending more than the gap before a separated tail starts keeps it separated. */
  lemma SeparatedCons(current: Lesson, tail: seq<Lesson>, first: int)
    requires Separated(tail) && forall o :: o in tail ==> first <= o.startTime
    requires current.endTime + LessonMergeGap < first && current.startTime <= first
    ensures Separated([current] + tail)
    ensures forall o :: o in [current] + tail ==> current.startTime <= o.startTime
  {
    var s := [current] + tail;
    forall i, j | 0 <= i < j < |s| ensures s[j].startTime > s[i].endTime + LessonMergeGap {
      assert s[j] == tail[j - 1] && tail[j - 1] in tail;
      if i > 0 {
        assert s[i] == tail[i - 1];
      }
    }
  }

  /** Every lesson of the group lies within some run; the first run starts with `current`. */
  lemma {:induction false} FuseRunCovers(current: Lesson, rest: seq<Lesson>)
    requires RunReady(current, rest)
    requires forall r :: r in rest ==> KeyOf(r) == KeyOf(current)
    ensures exists o :: o in FuseRun(current, rest) && Covers(o, current)
    ensures forall z :: z in rest ==> exists o :: o in FuseRun(current, rest) && Covers(o, z)
    decreases |rest|
  {
    if rest == [] {
      assert current in FuseRun(current, rest) && Covers(current, current);
    } else {
      ReadyStep(current, rest);
      var r0 := rest[0];
      if r0.startTime <= current.endTime + LessonMergeGap {
        var next := current.(endTime := Max(current.endTime, r0.endTime));
        forall r | r in rest[1..] ensures KeyOf(r) == KeyOf(next) {
          assert r in rest;
        }
        FuseRunCovers(next, rest[1..]);
        var o :| o in FuseRun(next, rest[1..]) && Covers(o, next);
        assert Covers(o, current) && Covers(o, r0);
        forall z | z in rest ensures exists o :: o in FuseRun(current, rest) && Covers(o, z) {
          if z != r0 {
            assert z in rest[1..];
          }
        }
      } else {
        var tail := FuseRun(r0, rest[1..]);
        assert FuseRun(current, rest) == [current] + tail;
        forall r | r in rest[1..] ensures KeyOf(r) == KeyOf(r0) {
          assert r in rest;
        }
        FuseRunCovers(r0, rest[1..]);
        assert current in FuseRun(current, rest) && Covers(current, current);
        forall z | z in rest ensures exists o :: o in FuseRun(current, rest) && Covers(o, z) {
          if z != r0 {
            assert z in rest[1..];
          }
          var o :| o in tail && Covers(o, z);
          assert o in FuseRun(current, rest);
        }
      }
    }
  }

  /** Every run is `current` or a lesson of `g`, with its end moved to a later-ending lesson of `g`. */
  lemma {:induction false} FuseRunOrigin(current: Lesson, rest: seq<Lesson>, g: seq<Lesson>)
    requires RunReady(current, rest)
    requires FusedIn(current, g)
    requires forall r :: r in rest ==> r in g
    ensures forall o :: o in FuseRun(current, rest) ==> FusedIn(o, g)
    decreases |rest|
  {
    if rest != [] {
      ReadyStep(current, rest);
      var r0 := rest[0];
      var x, y :| x in g && y in g && FusedFrom(current, x, y);
      forall r | r in rest[1..] ensures r in g {
        assert r in rest;
      }
      if r0.startTime <= current.endTime + LessonMergeGap {
        var next := current.(endTime := Max(current.endTime, r0.endTime));
        if r0.endTime > current.endTime {
          assert FusedFrom(next, x, r0);
        } else {
          assert FusedFrom(next, x, y);
        }
        FuseRunOrigin(next, rest[1..], g);
      } else {
        assert FusedFrom(r0, r0, r0);
        FuseRunOrigin(r0, rest[1..], g);
        assert FuseRun(current, rest) == [current] + FuseRun(r0, rest[1..]);
      }
    }
  }

  lemma SeparatedTail(s: seq<Lesson>)
    requires s != [] && Separated(s)
    ensures Separated(s[1..])
  {
    forall i, j | 0 <= i < j < |s[1..]|
      ensures s[1..][j].startTime > s[1..][i].endTime + LessonMergeGap
    {
      assert s[1..][i] == s[i + 1] && s[1..][j] == s[j + 1];
    }
  }

  /** On separated lessons the inner loop fuses nothing. */
  lemma {:induction false} FuseRunOfSeparated(current: Lesson, rest: seq<Lesson>)
    requires Separated([current] + rest)
    ensures FuseRun(current, rest) == [current] + rest
    decreases |rest|
  {
    if rest != [] {
      var s := [current] + rest;
      assert s[0] == current && s[1] == rest[0];
      SeparatedTail(s);
      assert s[1..] == [rest[0]] + rest[1..];
      FuseRunOfSeparated(rest[0], rest[1..]);
    }
  }

  lemma FuseOfSeparated(g: seq<Lesson>)
    requires Separated(g)
    ensures Fuse(g) == g
  {
    if g != [] {
      assert g == [g[0]] + g[1..];
      FuseRunOfSeparated(g[0], g[1..]);
    }
  }

  /** Separated lessons of one day that do not end before they start are in start order. */
  lemma SeparatedSorted(s: seq<Lesson>, k: Key)
    requires Separated(s)
    requires forall o :: o in s ==> KeyOf(o) == k && o.startTime < o.endTime
    ensures Sorted(ByStart, s) && Sorted(ByDateStart, s)
  {
    forall i, j | 0 <= i < j < |s| ensures Le(ByStart, s[i], s[j]) && Le(ByDateStart, s[i], s[j]) {
      assert s[i] in s && s[j] in s;
    }
  }

  // ---------------------------------------------------------------- one group

  /** The start-sorted group of key `k`: the same lessons, ready for the inner loop. */
  lemma SortedGroup(c: seq<Lesson>, k: Key)
    ensures var s := Sort(ByStart, OfKey(c, k));
      |s| == |OfKey(c, k)| &&
      (forall z :: z in s <==> z in OfKey(c, k)) &&
      (forall z :: z in s ==> z in c && KeyOf(z) == k) &&
      (s != [] ==> RunReady(s[0], s[1..]) && s == [s[0]] + s[1..])
  {
    var gr := OfKey(c, k);
    var s := Sort(ByStart, gr);
    assert |s| == |multiset(s)| == |multiset(gr)| == |gr|;
    forall z ensures z in s <==> z in gr {
      assert z in s <==> z in multiset(s);
      assert z in gr <==> z in multiset(gr);
    }
    if s != [] {
      SortSorted(ByStart, gr);
      SortedTail(ByStart, s);
      assert s == [s[0]] + s[1..];
    }
  }

  /** What fusing the group of key `k` yields. */
  lemma FuseGroupFacts(c: seq<Lesson>, k: Key)
    ensures Separated(FuseGroup(OfKey(c, k)))
    ensures |FuseGroup(OfKey(c, k))| <= |OfKey(c, k)|
    ensures forall o :: o in FuseGroup(OfKey(c, k)) ==> KeyOf(o) == k && Provenance(o, c)
    ensures forall x :: x in OfKey(c, k) ==> exists o :: o in FuseGroup(OfKey(c, k)) && Covers(o, x)
  {
    FuseGroupShape(c, k);
    FuseGroupProvenance(c, k);
    FuseGroupCovers(c, k);
  }

  lemma FuseGroupShape(c: seq<Lesson>, k: Key)
    ensures Separated(FuseGroup(OfKey(c, k)))
    ensures |FuseGroup(OfKey(c, k))| <= |OfKey(c, k)|
  {
    var s := Sort(ByStart, OfKey(c, k));
    SortedGroup(c, k);
    if s != [] {
      FuseRunSeparated(s[0], s[1..]);
      FuseRunLength(s[0], s[1..]);
    }
  }

  lemma FuseGroupProvenance(c: seq<Lesson>, k: Key)
    ensures forall o :: o in FuseGroup(OfKey(c, k)) ==> KeyOf(o) == k && Provenance(o, c)
  {
    var s := Sort(ByStart, OfKey(c, k));
    SortedGroup(c, k);
    if s != [] {
      assert FusedFrom(s[0], s[0], s[0]);
      assert s[0] in s;
      FuseRunOrigin(s[0], s[1..], s);
      forall o | o in FuseGroup(OfKey(c, k)) ensures KeyOf(o) == k && Provenance(o, c) {
        var x, y :| x in s && y in s && FusedFrom(o, x, y);
        assert KeyOf(o) == KeyOf(x);
      }
    }
  }

  lemma FuseGroupCovers(c: seq<Lesson>, k: Key)
    ensures forall x :: x in OfKey(c, k) ==> exists o :: o in FuseGroup(OfKey(c, k)) && Covers(o, x)
  {
    var s := Sort(ByStart, OfKey(c, k));
    SortedGroup(c, k);
    if s != [] {
      assert s[0] in s;
      FuseRunCovers(s[0], s[1..]);
      forall x | x in OfKey(c, k) ensures exists o :: o in FuseGroup(OfKey(c, k)) && Covers(o, x) {
        if x != s[0] {
          assert x in s[1..];
        }
      }
    }
  }

  // ---------------------------------------------------------------- all groups

  lemma {:induction false} FuseAllProvenance(ks: seq<Key>, c: seq<Lesson>)
    ensures forall o :: o in FuseAll(ks, c) ==> Provenance(o, c)
  {
    if ks != [] {
      FuseAllProvenance(ks[..|ks| - 1], c);
      FuseGroupFacts(c, ks[|ks| - 1]);
    }
  }

  lemma {:induction false} FuseAllContains(ks: seq<Key>, c: seq<Lesson>, i: nat)
    requires i < |ks|
    ensures forall o :: o in FuseGroup(OfKey(c, ks[i])) ==> o in FuseAll(ks, c)
  {
    var init := ks[..|ks| - 1];
    if i < |ks| - 1 {
      assert init[i] == ks[i];
      FuseAllContains(init, c, i);
    }
  }

  lemma {:induction false} FuseAllLength(ks: seq<Key>, c: seq<Lesson>)
    ensures |FuseAll(ks, c)| <= |ConcatOfKeys(ks, c)|
  {
    if ks != [] {
      FuseAllLength(ks[..|ks| - 1], c);
      FuseGroupFacts(c, ks[|ks| - 1]);
    }
  }

  /** Keeping one key of the collected runs gives that key's fused group, or nothing. */
  lemma {:induction false} FuseAllOfKey(ks: seq<Key>, c: seq<Lesson>, k: Key)
    requires Distinct(ks)
    ensures OfKey(FuseAll(ks, c), k) == if k in ks then FuseGroup(OfKey(c, k)) else []
  {
    if ks != [] {
      var init, last := ks[..|ks| - 1], ks[|ks| - 1];
      assert ks == init + [last];
      assert Distinct(init);
      FuseAllOfKey(init, c, k);
      var group := FuseGroup(OfKey(c, last));
      OfKeyAppend(FuseAll(init, c), group, k);
      FuseGroupFacts(c, last);
      if last == k {
        OfKeyUniform(group, k);
        assert k !in init;
      } else {
        OfKeyForeign(group, k);
      }
    }
  }

  lemma {:induction false} FuseAllIsConcat(ks: seq<Key>, c: seq<Lesson>)
    requires forall i :: 0 <= i < |ks| ==> FuseGroup(OfKey(c, ks[i])) == OfKey(c, ks[i])
    ensures FuseAll(ks, c) == ConcatOfKeys(ks, c)
  {
    if ks != [] {
      var init := ks[..|ks| - 1];
      forall i | 0 <= i < |init| ensures FuseGroup(OfKey(c, init[i])) == OfKey(c, init[i]) {
        assert init[i] == ks[i];
      }
      FuseAllIsConcat(init, c);
    }
  }

  lemma {:induction false} ConcatOfKeysSnoc(ks: seq<Key>, c: seq<Lesson>, x: Lesson)
    requires Distinct(ks)
    ensures multiset(ConcatOfKeys(ks, c + [x]))
         == multiset(ConcatOfKeys(ks, c)) + (if KeyOf(x) in ks then multiset{x} else multiset{})
  {
    if ks != [] {
      var init, last := ks[..|ks| - 1], ks[|ks| - 1];
      assert ks == init + [last];
      assert Distinct(init);
      ConcatOfKeysSnoc(init, c, x);
      OfKeySnoc(c, x, last);
      var kx := KeyOf(x);
      assert kx in ks <==> kx in init || kx == last;
      assert kx == last ==> kx !in init;
      var a: multiset<Lesson> := if kx in init then multiset{x} else multiset{};
      var b: multiset<Lesson> := if kx == last then multiset{x} else multiset{};
      var sx: multiset<Lesson> := if kx in ks then multiset{x} else multiset{};
      assert a + b == sx;
      var before, group := ConcatOfKeys(init, c), OfKey(c, last);
      assert ConcatOfKeys(ks, c + [x]) == ConcatOfKeys(init, c + [x]) + OfKey(c + [x], last);
      assert ConcatOfKeys(ks, c) == before + group;
      assert multiset(OfKey(c + [x], last)) == multiset(group) + b;
      Regroup(multiset(ConcatOfKeys(init, c + [x])), multiset(OfKey(c + [x], last)),
              multiset(before), multiset(group), a, b, sx);
    }
  }

  lemma Regroup(p: multiset<Lesson>, q: multiset<Lesson>, p0: multiset<Lesson>, q0: multiset<Lesson>,
                a: multiset<Lesson>, b: multiset<Lesson>, sx: multiset<Lesson>)
    requires p == p0 + a && q == q0 + b && a + b == sx
    ensures p + q == (p0 + q0) + sx
  {
  }

  /** The groups together hold every lesson exactly once. */
  lemma {:induction false} ConcatOfKeysPartition(c: seq<Lesson>)
    ensures multiset(ConcatOfKeys(KeysInOrder(c), c)) == multiset(c)
  {
    if c != [] {
      var init, x := c[..|c| - 1], c[|c| - 1];
      assert c == init + [x];
      var ks := KeysInOrder(init);
      ConcatOfKeysPartition(init);
      ConcatOfKeysSnoc(ks, init, x);
      if KeyOf(x) !in ks {
        var kx := KeyOf(x);
        assert KeysInOrder(c) == ks + [kx];
        assert (ks + [kx])[..|ks|] == ks;
        KeysInOrderMembers(init, kx);
        OfKeySnoc(init, x, kx);
        assert OfKey(c, kx) == [x];
      }
    }
  }

  // ---------------------------------------------------------------- clamp

  lemma {:induction false} ClampOfWithinDay(s: seq<Lesson>, schoolStartTime: int, schoolEndTime: int)
    requires forall x :: x in s ==> WithinDay(x, schoolStartTime, schoolEndTime)
    ensures Clamp(s, schoolStartTime, schoolEndTime) == s
  {
    if s != [] {
      assert s[0] in s;
      assert ClampLesson(s[0], schoolStartTime, schoolEndTime) == Some(s[0]);
      forall x | x in s[1..] ensures WithinDay(x, schoolStartTime, schoolEndTime) {
        assert x in s;
      }
      ClampOfWithinDay(s[1..], schoolStartTime, schoolEndTime);
      assert s == [s[0]] + s[1..];
    }
  }

  lemma ProvenanceWithinDay(o: Lesson, c: seq<Lesson>, schoolStartTime: int, schoolEndTime: int)
    requires Provenance(o, c)
    requires forall z :: z in c ==> WithinDay(z, schoolStartTime, schoolEndTime)
    ensures WithinDay(o, schoolStartTime, schoolEndTime)
  {
    var x, y :| x in c && y in c && KeyOf(x) == KeyOf(y) && FusedFrom(o, x, y);
  }

  // ---------------------------------------------------------------- the merger

  /** Every output lesson is fused from clamped input lessons of one key. */
  lemma MergedProvenance(lessons: seq<Lesson>, schoolStartTime: int, schoolEndTime: int)
    ensures forall o :: o in Merged(lessons, schoolStartTime, schoolEndTime) ==>
      Provenance(o, Clamp(lessons, schoolStartTime, schoolEndTime))
  {
    if lessons != [] {
      var c := Clamp(lessons, schoolStartTime, schoolEndTime);
      var all := FuseAll(KeysInOrder(c), c);
      FuseAllProvenance(KeysInOrder(c), c);
      forall o | o in Merged(lessons, schoolStartTime, schoolEndTime) ensures o in all {
        assert o in multiset(Sort(ByDateStart, all));
      }
    }
  }

  /** Every output lesson lies within the school day and ends after it starts. */
  lemma MergedWithinSchoolDay(lessons: seq<Lesson>, schoolStartTime: int, schoolEndTime: int)
    ensures forall o :: o in Merged(lessons, schoolStartTime, schoolEndTime) ==>
      WithinDay(o, schoolStartTime, schoolEndTime)
  {
    MergedProvenance(lessons, schoolStartTime, schoolEndTime);
    var c := Clamp(lessons, schoolStartTime, schoolEndTime);
    forall o | o in Merged(lessons, schoolStartTime, schoolEndTime)
      ensures WithinDay(o, schoolStartTime, schoolEndTime)
    {
      ProvenanceWithinDay(o, c, schoolStartTime, schoolEndTime);
    }
  }

  /** The output is sorted by (date, start time). */
  lemma MergedSorted(lessons: seq<Lesson>, schoolStartTime: int, schoolEndTime: int)
    ensures Sorted(ByDateStart, Merged(lessons, schoolStartTime, schoolEndTime))
  {
    if lessons != [] {
      var c := Clamp(lessons, schoolStartTime, schoolEndTime);
      SortSorted(ByDateStart, FuseAll(KeysInOrder(c), c));
    }
  }

  /** The output has no more lessons than the input. */
  lemma MergedNoGrowth(lessons: seq<Lesson>, schoolStartTime: int, schoolEndTime: int)
    ensures |Merged(lessons, schoolStartTime, schoolEndTime)| <= |lessons|
  {
    if lessons != [] {
      var c := Clamp(lessons, schoolStartTime, schoolEndTime);
      var all := FuseAll(KeysInOrder(c), c);
      FuseAllLength(KeysInOrder(c), c);
      ConcatOfKeysPartition(c);
      var merged := Sort(ByDateStart, all);
      assert |merged| == |multiset(merged)| == |multiset(all)| == |all|;
      assert |ConcatOfKeys(KeysInOrder(c), c)| == |multiset(c)| == |c|;
    }
  }

  /** Every clamped input lesson lies within an output lesson of its key. */
  lemma MergedCoversInput(lessons: seq<Lesson>, schoolStartTime: int, schoolEndTime: int)
    ensures forall x :: x in Clamp(lessons, schoolStartTime, schoolEndTime) ==>
      exists o :: o in Merged(lessons, schoolStartTime, schoolEndTime) && Covers(o, x)
  {
    var c := Clamp(lessons, schoolStartTime, schoolEndTime);
    var ks := KeysInOrder(c);
    forall x | x in c
      ensures exists o :: o in Merged(lessons, schoolStartTime, schoolEndTime) && Covers(o, x)
    {
      var k := KeyOf(x);
      OfKeyContains(c, x);
      KeysInOrderMembers(c, k);
      var i :| 0 <= i < |ks| && ks[i] == k;
      FuseGroupFacts(c, k);
      var o :| o in FuseGroup(OfKey(c, k)) && Covers(o, x);
      FuseAllContains(ks, c, i);
      assert o in multiset(Sort(ByDateStart, FuseAll(ks, c)));
    }
  }

  /**
    The output lessons of any one key are exactly that key's clamped lessons,
    sorted by start time and fused, in that order.
  */
  lemma MergedPerKey(lessons: seq<Lesson>, schoolStartTime: int, schoolEndTime: int, k: Key)
    ensures OfKey(Merged(lessons, schoolStartTime, schoolEndTime), k)
         == FuseGroup(OfKey(Clamp(lessons, schoolStartTime, schoolEndTime), k))
  {
    var c := Clamp(lessons, schoolStartTime, schoolEndTime);
    var ks := KeysInOrder(c);
    KeysInOrderMembers(c, k);
    if lessons != [] {
      var all := FuseAll(ks, c);
      SortOfKey(ByDateStart, all, k);
      FuseAllOfKey(ks, c, k);
      if k in ks {
        var group := FuseGroup(OfKey(c, k));
        FuseGroupFacts(c, k);
        forall o | o in group ensures KeyOf(o) == k && o.startTime < o.endTime {
          ProvenanceWithinDay(o, c, schoolStartTime, schoolEndTime);
        }
        SeparatedSorted(group, k);
        SortOfSorted(ByDateStart, group);
      }
    }
  }

  /** Lessons of one key are never touching or overlapping in the output. */
  lemma MergedSeparated(lessons: seq<Lesson>, schoolStartTime: int, schoolEndTime: int, k: Key)
    ensures Separated(OfKey(Merged(lessons, schoolStartTime, schoolEndTime), k))
  {
    MergedPerKey(lessons, schoolStartTime, schoolEndTime, k);
    FuseGroupFacts(Clamp(lessons, schoolStartTime, schoolEndTime), k);
  }

  /** With a school day that ends no later than it starts, every lesson is dropped. */
  lemma MergedDegenerateBounds(lessons: seq<Lesson>, schoolStartTime: int, schoolEndTime: int)
    requires schoolStartTime >= schoolEndTime
    ensures Merged(lessons, schoolStartTime, schoolEndTime) == []
  {
    ClampEmpty(lessons, schoolStartTime, schoolEndTime);
  }

  lemma {:induction false} ClampEmpty(lessons: seq<Lesson>, schoolStartTime: int, schoolEndTime: int)
    requires schoolStartTime >= schoolEndTime
    ensures Clamp(lessons, schoolStartTime, schoolEndTime) == []
  {
    if lessons != [] {
      ClampEmpty(lessons[1..], schoolStartTime, schoolEndTime);
    }
  }

  /**
    Merging the output again with the same bounds returns the same lessons;
    only the order of lessons with equal (date, start time) may change.
  */
  lemma MergedIdempotent(lessons: seq<Lesson>, schoolStartTime: int, schoolEndTime: int)
    ensures var out := Merged(lessons, schoolStartTime, schoolEndTime);
      multiset(Merged(out, schoolStartTime, schoolEndTime)) == multiset(out)
  {
    var c := Clamp(lessons, schoolStartTime, schoolEndTime);
    var out := Merged(lessons, schoolStartTime, schoolEndTime);
    if out != [] {
      MergedWithinSchoolDay(lessons, schoolStartTime, schoolEndTime);
      ClampOfWithinDay(out, schoolStartTime, schoolEndTime);
      var ks := KeysInOrder(out);
      forall i | 0 <= i < |ks| ensures FuseGroup(OfKey(out, ks[i])) == OfKey(out, ks[i]) {
        var k := ks[i];
        MergedPerKey(lessons, schoolStartTime, schoolEndTime, k);
        var group := FuseGroup(OfKey(c, k));
        FuseGroupFacts(c, k);
        forall o | o in group ensures KeyOf(o) == k && o.startTime < o.endTime {
          ProvenanceWithinDay(o, c, schoolStartTime, schoolEndTime);
        }
        SeparatedSorted(group, k);
        SortOfSorted(ByStart, group);
        FuseOfSeparated(group);
      }
      FuseAllIsConcat(ks, out);
      ConcatOfKeysPartition(out);
    }
  }
}
