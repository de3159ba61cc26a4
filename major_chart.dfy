/**
 * The "Student Count by Major" chart of the mentor dashboard: one bar per
 * major, in the order majors first occur in the student list, counting the
 * students with that major; a missing or empty major counts as "Unknown".
 */
module MajorChart {
  import opened JsValues
  import opened Slots
  import opened MentorSchedule

  /** One bar of the chart: `{ major, count }`. */
  datatype MajorCount = MajorCount(major: string, count: nat)

  /** `student.major || "Unknown"` */
  function MajorOf(st: Student): string {
    OrElse(st.major, "Unknown")
  }

  /** Each student's bar key, in list order. */
  function Majors(students: seq<Student>): (ms: seq<string>)
    ensures |ms| == |students|
    ensures forall i :: 0 <= i < |students| ==> ms[i] == MajorOf(students[i])
  {
    if students == [] then [] else Majors(students[..|students| - 1]) + [MajorOf(students[|students| - 1])]
  }

  /** The distinct elements of `xs`, each where it first occurs. */
  function FirstOccurrences(xs: seq<string>): seq<string> {
    if xs == [] then []
    else
      var f := FirstOccurrences(xs[..|xs| - 1]);
      if xs[|xs| - 1] in f then f else f + [xs[|xs| - 1]]
  }

  /** How often `m` occurs in `xs`. */
  function Occurrences(xs: seq<string>, m: string): nat {
    if xs == [] then 0
    else Occurrences(xs[..|xs| - 1], m) + (if xs[|xs| - 1] == m then 1 else 0)
  }

  /** The bars' majors, in bar order. */
  function Keys(acc: seq<MajorCount>): (ks: seq<string>)
    ensures |ks| == |acc|
    ensures forall i :: 0 <= i < |acc| ==> ks[i] == acc[i].major
  {
    if acc == [] then [] else Keys(acc[..|acc| - 1]) + [acc[|acc| - 1].major]
  }

  /** The sum of the bars' counts. */
  function TotalCount(acc: seq<MajorCount>): nat {
    if acc == [] then 0 else TotalCount(acc[..|acc| - 1]) + acc[|acc| - 1].count
  }

  /** `acc.find(item => item.major === major)`, as an index, or -1. */
  function FindMajor(acc: seq<MajorCount>, m: string): (k: int)
    ensures -1 <= k < |acc|
    ensures k == -1 <==> forall j :: 0 <= j < |acc| ==> acc[j].major != m
    ensures k >= 0 ==> acc[k].major == m
  {
    if acc == [] then -1
    else if acc[0].major == m then 0
    else
      var k := FindMajor(acc[1..], m);
      if k == -1 then -1 else k + 1
  }

  predicate DistinctMajors(xs: seq<string>) {
    forall i, j :: 0 <= i < j < |xs| ==> xs[i] != xs[j]
  }

  /**
   * The first occurrences are distinct, hold exactly the elements of `xs`,
   * and are in the order of their first positions in `xs`.
   */
  lemma {:induction false} FirstOccurrencesSpec(xs: seq<string>)
    ensures DistinctMajors(FirstOccurrences(xs))
    ensures forall m :: m in FirstOccurrences(xs) <==> m in xs
    ensures forall i, j :: 0 <= i < j < |FirstOccurrences(xs)| ==>
      IndexOf(xs, FirstOccurrences(xs)[i]) < IndexOf(xs, FirstOccurrences(xs)[j])
  {
    if xs != [] {
      var init, x := xs[..|xs| - 1], xs[|xs| - 1];
      assert xs == init + [x];
      FirstOccurrencesSpec(init);
      var f := FirstOccurrences(init);
      forall m | m in init ensures IndexOf(xs, m) == IndexOf(init, m) {
        IndexOfAppend(init, x, m);
      }
      if x !in f {
        IndexOfAppend(init, x, x);
        var r := f + [x];
        forall i, j | 0 <= i < j < |r| ensures IndexOf(xs, r[i]) < IndexOf(xs, r[j]) {
          assert r[i] == f[i] && r[i] in init;
          if j < |f| {
            assert r[j] == f[j] && r[j] in init;
          }
        }
      } else {
        forall i, j | 0 <= i < j < |f| ensures IndexOf(xs, f[i]) < IndexOf(xs, f[j]) {
          assert f[i] in init && f[j] in init;
        }
      }
    }
  }

  lemma FirstOccurrencesBasics(xs: seq<string>)
    ensures DistinctMajors(FirstOccurrences(xs))
    ensures forall m :: m in FirstOccurrences(xs) <==> m in xs
  {
    FirstOccurrencesSpec(xs);
  }

  lemma {:induction false} IndexOfAppend(xs: seq<string>, x: string, m: string)
    requires m in xs || m == x
    ensures IndexOf(xs + [x], m) == if m in xs then IndexOf(xs, m) else |xs|
  {
    if xs != [] {
      assert (xs + [x])[1..] == xs[1..] + [x];
      if xs[0] != m {
        IndexOfAppend(xs[1..], x, m);
      }
    }
  }

  lemma {:induction false} KeysUpdate(acc: seq<MajorCount>, j: int, c: nat)
    requires 0 <= j < |acc|
    ensures Keys(acc[j := MajorCount(acc[j].major, c)]) == Keys(acc)
    ensures TotalCount(acc[j := MajorCount(acc[j].major, c)]) == TotalCount(acc) - acc[j].count + c
  {
    var init := acc[..|acc| - 1];
    var u := acc[j := MajorCount(acc[j].major, c)];
    if j == |acc| - 1 {
      assert u[..|u| - 1] == init;
    } else {
      assert u[..|u| - 1] == init[j := MajorCount(init[j].major, c)];
      KeysUpdate(init, j, c);
    }
  }

  lemma TotalCountAppend(acc: seq<MajorCount>, e: MajorCount)
    ensures TotalCount(acc + [e]) == TotalCount(acc) + e.count
  {
    assert (acc + [e])[..|acc|] == acc;
  }

  lemma MajorsAppend(students: seq<Student>, i: int)
    requires 0 <= i < |students|
    ensures Majors(students[..i + 1]) == Majors(students[..i]) + [MajorOf(students[i])]
  {
    assert students[..i + 1][..i] == students[..i];
  }

  /** `acc` is the chart of the majors `ms`: first-occurrence keys, each with its number of occurrences. */
  predicate Tallies(acc: seq<MajorCount>, ms: seq<string>) {
    && Keys(acc) == FirstOccurrences(ms)
    && forall k :: 0 <= k < |acc| ==> acc[k].count == Occurrences(ms, acc[k].major)
  }

  lemma OccurrencesAppend(ms: seq<string>, m: string, y: string)
    ensures Occurrences(ms + [m], y) == Occurrences(ms, y) + (if m == y then 1 else 0)
  {
    assert (ms + [m])[..|ms|] == ms;
  }

  lemma TallyBump(acc: seq<MajorCount>, ms: seq<string>, m: string)
    requires Tallies(acc, ms) && DistinctMajors(FirstOccurrences(ms))
    requires FindMajor(acc, m) >= 0
    ensures var j := FindMajor(acc, m);
      Tallies(acc[j := MajorCount(m, acc[j].count + 1)], ms + [m])
    ensures var j := FindMajor(acc, m);
      TotalCount(acc[j := MajorCount(m, acc[j].count + 1)]) == TotalCount(acc) + 1
  {
    var j := FindMajor(acc, m);
    var r := acc[j := MajorCount(m, acc[j].count + 1)];
    KeysUpdate(acc, j, acc[j].count + 1);
    assert Keys(r) == FirstOccurrences(ms + [m]) by {
      assert (ms + [m])[..|ms|] == ms;
      assert m in FirstOccurrences(ms) by {
        assert Keys(acc)[j] == m;
      }
    }
    forall k | 0 <= k < |r| ensures r[k].count == Occurrences(ms + [m], r[k].major) {
      OccurrencesAppend(ms, m, r[k].major);
      if k != j {
        assert Keys(acc)[k] != Keys(acc)[j];
      }
    }
  }

  lemma TallyPush(acc: seq<MajorCount>, ms: seq<string>, m: string)
    requires Tallies(acc, ms)
    requires forall y :: y in FirstOccurrences(ms) <==> y in ms
    requires FindMajor(acc, m) == -1
    ensures Tallies(acc + [MajorCount(m, 1)], ms + [m])
    ensures TotalCount(acc + [MajorCount(m, 1)]) == TotalCount(acc) + 1
  {
    var r := acc + [MajorCount(m, 1)];
    TotalCountAppend(acc, MajorCount(m, 1));
    assert m !in Keys(acc);
    assert m !in ms;
    assert Keys(r) == FirstOccurrences(ms + [m]) by {
      assert (ms + [m])[..|ms|] == ms;
      assert r[..|acc|] == acc;
    }
    forall k | 0 <= k < |r| ensures r[k].count == Occurrences(ms + [m], r[k].major) {
      OccurrencesAppend(ms, m, r[k].major);
      if k < |acc| {
        assert r[k] == acc[k];
        assert acc[k].major in Keys(acc);
      } else {
        OccurrencesAbsent(ms, m);
      }
    }
  }

  /** One step of the reduce: bump the major's bar if there is one, else push a new bar. */
  function Counted(acc: seq<MajorCount>, m: string): seq<MajorCount> {
    var j := FindMajor(acc, m);
    if j >= 0 then acc[j := MajorCount(m, acc[j].count + 1)] else acc + [MajorCount(m, 1)]
  }

  lemma TallyStep(students: seq<Student>, i: int, acc: seq<MajorCount>)
    requires 0 <= i < |students|
    requires Tallies(acc, Majors(students[..i]))
    ensures Tallies(Counted(acc, MajorOf(students[i])), Majors(students[..i + 1]))
    ensures TotalCount(Counted(acc, MajorOf(students[i]))) == TotalCount(acc) + 1
  {
    var ms := Majors(students[..i]);
    MajorsAppend(students, i);
    FirstOccurrencesBasics(ms);
    if FindMajor(acc, MajorOf(students[i])) >= 0 {
      TallyBump(acc, ms, MajorOf(students[i]));
    } else {
      TallyPush(acc, ms, MajorOf(students[i]));
    }
  }

  lemma {:induction false} OccurrencesAbsent(xs: seq<string>, m: string)
    requires m !in xs
    ensures Occurrences(xs, m) == 0
  {
    if xs != [] {
      var init := xs[..|xs| - 1];
      assert forall y :: y in init ==> y in xs;
      OccurrencesAbsent(init, m);
    }
  }

  /**
   * The `studentByMajorData` reduce. Its bars are the distinct majors in
   * first-occurrence order, each bar counts exactly the students with that
   * major, and the counts add up to the number of students.
   */
  method StudentsByMajor(students: seq<Student>) returns (acc: seq<MajorCount>)
    ensures Keys(acc) == FirstOccurrences(Majors(students))
    ensures DistinctMajors(Keys(acc))
    ensures forall st :: st in students ==> MajorOf(st) in Keys(acc)
    ensures forall k :: 0 <= k < |acc| ==> acc[k].count == Occurrences(Majors(students), acc[k].major) && acc[k].count > 0
    ensures TotalCount(acc) == |students|
  {
    acc := [];
    var i := 0;
    while i < |students|
      invariant 0 <= i <= |students|
      invariant Tallies(acc, Majors(students[..i]))
      invariant TotalCount(acc) == i
    {
      var major := MajorOf(students[i]);
      TallyStep(students, i, acc);
      ghost var next := Counted(acc, major);
      var j := FindMajor(acc, major);
      if j >= 0 {
        // `existing.count++`
        acc := acc[j := MajorCount(major, acc[j].count + 1)];
      } else {
        // `acc.push({ major, count: 1 })`
        acc := acc + [MajorCount(major, 1)];
      }
      assert acc == next;
      i := i + 1;
    }
    assert students[..i] == students;
    ChartFacts(students, acc);
  }

  lemma ChartFacts(students: seq<Student>, acc: seq<MajorCount>)
    requires Tallies(acc, Majors(students))
    ensures DistinctMajors(Keys(acc))
    ensures forall st :: st in students ==> MajorOf(st) in Keys(acc)
    ensures forall k :: 0 <= k < |acc| ==> acc[k].count > 0
  {
    var ms := Majors(students);
    FirstOccurrencesSpec(ms);
    forall st | st in students ensures MajorOf(st) in Keys(acc) {
      var k :| 0 <= k < |students| && students[k] == st;
      assert ms[k] == MajorOf(st);
    }
    forall k | 0 <= k < |acc| ensures acc[k].count > 0 {
      assert acc[k].major == Keys(acc)[k];
      OccurrencesPositive(ms, acc[k].major);
    }
  }

  lemma {:induction false} OccurrencesPositive(xs: seq<string>, m: string)
    requires m in xs
    ensures Occurrences(xs, m) > 0
  {
    var init := xs[..|xs| - 1];
    if xs[|xs| - 1] != m {
      assert xs == init + [xs[|xs| - 1]];
      OccurrencesPositive(init, m);
    }
  }
}
