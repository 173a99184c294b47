/**
  Orders on lessons, the grouping key of the merger, and the stable sort that
  `Array.prototype.sort` performs with the merger's comparators.
*/
module LessonOrder {
  import opened Types

  /**
    The identity key of a lesson: day, subject, teachers, room and classes.
    The source joins these into one string (lists comma-joined, the date by
    `toDateString()`); as long as no name contains a comma or the separator,
    two keys are equal exactly when the tuples are.
  */
  datatype Key = Key(date: Date, subject: string, teacher: seq<string>, room: string, schoolClass: seq<string>)

  function KeyOf(l: Lesson): Key
  {
    Key(l.date, l.subject, l.teacher, l.room, l.schoolClass)
  }

  /** The lessons of `xs` with key `k`, in their order in `xs`. */
  function OfKey(xs: seq<Lesson>, k: Key): (r: seq<Lesson>)
    ensures |r| <= |xs|
    ensures forall z :: z in r ==> z in xs && KeyOf(z) == k
  {
    if xs == [] then []
    else (if KeyOf(xs[0]) == k then [xs[0]] else []) + OfKey(xs[1..], k)
  }

  lemma {:induction false} OfKeyAppend(xs: seq<Lesson>, ys: seq<Lesson>, k: Key)
    ensures OfKey(xs + ys, k) == OfKey(xs, k) + OfKey(ys, k)
  {
    if xs != [] {
      var head := if KeyOf(xs[0]) == k then [xs[0]] else [];
      assert (xs + ys)[0] == xs[0] && (xs + ys)[1..] == xs[1..] + ys;
      assert OfKey(xs + ys, k) == head + OfKey(xs[1..] + ys, k);
      OfKeyAppend(xs[1..], ys, k);
      assert head + (OfKey(xs[1..], k) + OfKey(ys, k)) == (head + OfKey(xs[1..], k)) + OfKey(ys, k);
    } else {
      assert xs + ys == ys;
    }
  }

  lemma {:induction false} OfKeyContains(xs: seq<Lesson>, x: Lesson)
    requires x in xs
    ensures x in OfKey(xs, KeyOf(x))
  {
    if xs[0] != x {
      OfKeyContains(xs[1..], x);
    }
  }

  lemma {:induction false} OfKeyUniform(xs: seq<Lesson>, k: Key)
    requires forall z :: z in xs ==> KeyOf(z) == k
    ensures OfKey(xs, k) == xs
  {
    if xs != [] {
      OfKeyUniform(xs[1..], k);
    }
  }

  lemma {:induction false} OfKeyForeign(xs: seq<Lesson>, k: Key)
    requires forall z :: z in xs ==> KeyOf(z) != k
    ensures OfKey(xs, k) == []
  {
    if xs != [] {
      OfKeyForeign(xs[1..], k);
    }
  }

  // ---------------------------------------------------------------- orders

  /** The two comparators of the merger: by start time, and by (date, start time). */
  datatype Order = ByStart | ByDateStart

  /** Lexicographic order on dates, which is the order of their `getTime()` values. */
  predicate DateBefore(a: Date, b: Date)
  {
    a.year < b.year ||
    (a.year == b.year && (a.month < b.month || (a.month == b.month && a.day < b.day)))
  }

  /** `compare(a, b) <= 0` for the comparator named by `o`. */
  predicate Le(o: Order, a: Lesson, b: Lesson)
  {
    match o
    case ByStart => a.startTime <= b.startTime
    case ByDateStart =>
      DateBefore(a.date, b.date) || (a.date == b.date && a.startTime <= b.startTime)
  }

  lemma LeTotal(o: Order, a: Lesson, b: Lesson)
    ensures Le(o, a, b) || Le(o, b, a)
  {
  }

  lemma LeTransitive(o: Order, a: Lesson, b: Lesson, c: Lesson)
    requires Le(o, a, b) && Le(o, b, c)
    ensures Le(o, a, c)
  {
  }

  ghost predicate Sorted(o: Order, s: seq<Lesson>)
  {
    forall i, j :: 0 <= i < j < |s| ==> Le(o, s[i], s[j])
  }

  lemma SortedCons(o: Order, a: Lesson, s: seq<Lesson>)
    requires Sorted(o, s)
    requires forall z :: z in s ==> Le(o, a, z)
    ensures Sorted(o, [a] + s)
  {
    var t := [a] + s;
    forall i, j | 0 <= i < j < |t| ensures Le(o, t[i], t[j]) {
      if i > 0 {
        assert t[i] == s[i - 1] && t[j] == s[j - 1];
      } else {
        assert t[j] == s[j - 1];
        assert s[j - 1] in s;
      }
    }
  }

  // ---------------------------------------------------------------- stable sort

  /** Inserts `x` in front of the first element it does not exceed. */
  function Insert(o: Order, x: Lesson, ys: seq<Lesson>): (r: seq<Lesson>)
    ensures multiset(r) == multiset(ys) + multiset{x}
  {
    if ys == [] then [x]
    else if Le(o, x, ys[0]) then [x] + ys
    else
      assert ys == [ys[0]] + ys[1..];
      [ys[0]] + Insert(o, x, ys[1..])
  }

  /**
    `xs.sort(compare)`: a stable sort (as ECMAScript requires since 2019). Each
    element is inserted in front of the equal elements that follow it in `xs`,
    so equal elements keep their relative order.
  */
  function Sort(o: Order, xs: seq<Lesson>): (r: seq<Lesson>)
    ensures multiset(r) == multiset(xs)
  {
    if xs == [] then []
    else
      assert xs == [xs[0]] + xs[1..];
      Insert(o, xs[0], Sort(o, xs[1..]))
  }

  lemma {:induction false} InsertSorted(o: Order, x: Lesson, ys: seq<Lesson>)
    requires Sorted(o, ys)
    ensures Sorted(o, Insert(o, x, ys))
  {
    if ys == [] {
    } else if Le(o, x, ys[0]) {
      forall z | z in ys ensures Le(o, x, z) {
        var j :| 0 <= j < |ys| && ys[j] == z;
        if j > 0 { LeTransitive(o, x, ys[0], z); }
      }
      SortedCons(o, x, ys);
    } else {
      var rest := Insert(o, x, ys[1..]);
      assert Sorted(o, ys[1..]) by {
        forall i, j | 0 <= i < j < |ys[1..]| ensures Le(o, ys[1..][i], ys[1..][j]) {
          assert ys[1..][i] == ys[i + 1] && ys[1..][j] == ys[j + 1];
        }
      }
      InsertSorted(o, x, ys[1..]);
      forall z | z in rest ensures Le(o, ys[0], z) {
        assert z in multiset(rest);
        if z != x {
          assert z in multiset(ys[1..]);
          var j :| 0 <= j < |ys[1..]| && ys[1..][j] == z;
          assert ys[j + 1] == z;
        } else {
          LeTotal(o, x, ys[0]);
        }
      }
      SortedCons(o, ys[0], rest);
    }
  }

  /** The result of `Sort` is sorted. */
  lemma {:induction false} SortSorted(o: Order, xs: seq<Lesson>)
    ensures Sorted(o, Sort(o, xs))
  {
    if xs != [] {
      SortSorted(o, xs[1..]);
      InsertSorted(o, xs[0], Sort(o, xs[1..]));
    }
  }

  lemma SortedTail(o: Order, s: seq<Lesson>)
    requires s != [] && Sorted(o, s)
    ensures Sorted(o, s[1..])
    ensures forall z :: z in s[1..] ==> Le(o, s[0], z)
  {
    forall i, j | 0 <= i < j < |s[1..]| ensures Le(o, s[1..][i], s[1..][j]) {
      assert s[1..][i] == s[i + 1] && s[1..][j] == s[j + 1];
    }
    forall z | z in s[1..] ensures Le(o, s[0], z) {
      var j :| 0 <= j < |s[1..]| && s[1..][j] == z;
      assert s[j + 1] == z;
    }
  }

  /** Sorting an already sorted sequence changes nothing. */
  lemma {:induction false} SortOfSorted(o: Order, xs: seq<Lesson>)
    requires Sorted(o, xs)
    ensures Sort(o, xs) == xs
  {
    if xs != [] {
      SortedTail(o, xs);
      SortOfSorted(o, xs[1..]);
      if |xs| > 1 {
        assert xs[1..][0] in xs[1..];
      }
      assert xs == [xs[0]] + xs[1..];
    }
  }

  /**
    Inserting into a sorted sequence and then keeping one key is the same as
    keeping the key and then inserting: the insertion point does not move
    relative to the kept elements.
  */
  lemma {:induction false} InsertOfKey(o: Order, x: Lesson, ys: seq<Lesson>, k: Key)
    requires Sorted(o, ys)
    ensures OfKey(Insert(o, x, ys), k)
         == if KeyOf(x) == k then Insert(o, x, OfKey(ys, k)) else OfKey(ys, k)
  {
    if ys != [] {
      var y := ys[0];
      var f := OfKey(ys, k);
      assert ys == [y] + ys[1..];
      if Le(o, x, y) {
        OfKeyFront(x, ys, k);
        if KeyOf(x) == k {
          PrecedesGroup(o, x, ys, k);
        }
      } else {
        SortedTail(o, ys);
        InsertOfKey(o, x, ys[1..], k);
        InsertOfKeyPast(o, x, ys, k);
      }
    }
  }

  /** What precedes a sorted list precedes each of its groups. */
  lemma PrecedesGroup(o: Order, x: Lesson, ys: seq<Lesson>, k: Key)
    requires Sorted(o, ys) && ys != [] && Le(o, x, ys[0])
    ensures OfKey(ys, k) == [] || Le(o, x, OfKey(ys, k)[0])
  {
    var f := OfKey(ys, k);
    if f != [] {
      assert f[0] in f;
      var j :| 0 <= j < |ys| && ys[j] == f[0];
      if j > 0 { LeTransitive(o, x, ys[0], f[0]); }
    }
  }

  lemma OfKeyFront(x: Lesson, ys: seq<Lesson>, k: Key)
    ensures OfKey([x] + ys, k) == (if KeyOf(x) == k then [x] else []) + OfKey(ys, k)
  {
    assert ([x] + ys)[1..] == ys;
  }

  /** The step of InsertOfKey where `x` moves past the first element. */
  lemma InsertOfKeyPast(o: Order, x: Lesson, ys: seq<Lesson>, k: Key)
    requires ys != [] && !Le(o, x, ys[0])
    requires OfKey(Insert(o, x, ys[1..]), k)
          == if KeyOf(x) == k then Insert(o, x, OfKey(ys[1..], k)) else OfKey(ys[1..], k)
    ensures OfKey(Insert(o, x, ys), k)
         == if KeyOf(x) == k then Insert(o, x, OfKey(ys, k)) else OfKey(ys, k)
  {
    var y, rest, f := ys[0], Insert(o, x, ys[1..]), OfKey(ys[1..], k);
    var g := OfKey(rest, k);
    assert Insert(o, x, ys) == [y] + rest;
    OfKeyFront(y, rest, k);
    assert ys == [y] + ys[1..];
    OfKeyFront(y, ys[1..], k);
    if KeyOf(x) == k {
      assert g == Insert(o, x, f);
      if KeyOf(y) == k {
        InsertPastHead(o, x, y, f);
        assert OfKey(Insert(o, x, ys), k) == [y] + g;
      } else {
        assert OfKey(Insert(o, x, ys), k) == g;
        assert OfKey(ys, k) == f;
      }
    } else {
      assert g == f;
    }
  }

  lemma InsertPastHead(o: Order, x: Lesson, y: Lesson, f: seq<Lesson>)
    requires !Le(o, x, y)
    ensures Insert(o, x, [y] + f) == [y] + Insert(o, x, f)
  {
    assert ([y] + f)[0] == y && ([y] + f)[1..] == f;
  }

  /** Keeping one key commutes with the stable sort. */
  lemma {:induction false} SortOfKey(o: Order, xs: seq<Lesson>, k: Key)
    ensures OfKey(Sort(o, xs), k) == Sort(o, OfKey(xs, k))
  {
    if xs != [] {
      var x, tail := xs[0], xs[1..];
      SortOfKey(o, tail, k);
      SortSorted(o, tail);
      InsertOfKey(o, x, Sort(o, tail), k);
      var f := OfKey(tail, k);
      assert xs == [x] + tail;
      OfKeyFront(x, tail, k);
      if KeyOf(x) == k {
        assert ([x] + f)[0] == x && ([x] + f)[1..] == f;
        calc {
          OfKey(Sort(o, xs), k);
          OfKey(Insert(o, x, Sort(o, tail)), k);
          Insert(o, x, OfKey(Sort(o, tail), k));
          Insert(o, x, Sort(o, f));
          Sort(o, [x] + f);
          { assert OfKey(xs, k) == [x] + f; }
          Sort(o, OfKey(xs, k));
        }
      } else {
        calc {
          OfKey(Sort(o, xs), k);
          OfKey(Insert(o, x, Sort(o, tail)), k);
          OfKey(Sort(o, tail), k);
          Sort(o, f);
          { assert OfKey(xs, k) == f; }
          Sort(o, OfKey(xs, k));
        }
      }
    }
  }
}
