/**
 * A mentor's weekly schedule slot as both dashboards receive it from the
 * backend, the fixed Monday-to-Sunday day list, and the reading of a
 * `start_time` string as minutes since midnight.
 */
module Slots {
  import opened JsValues
  import opened JsStrings

  /** The `booked_by` object some schedule replies attach to a booked slot. */
  datatype Person = Person(fullName: Option<string>, name: Option<string>)

  /**
   * A schedule slot. `studentId` is the `studentid` field the student view
   * reads; `bookedByStudentId` and `bookedBy` are the fields the mentor view
   * reads. Status is kept as the raw string: the views test it against
   * "free", "available", "booked" and "class" and must cope with anything else.
   */
  datatype Slot = Slot(
    id: int,
    day: string,
    startTime: string,
    endTime: string,
    status: string,
    studentId: Option<int>,
    bookedByStudentId: Option<int>,
    bookedBy: Option<Person>)

  /** The day order both dashboards use. */
  const Days: seq<string> := ["Monday", "Tuesday", "Wednesday", "Thursday", "Friday", "Saturday", "Sunday"]

  /** `Days.indexOf(day)`: the first position of `day`, or -1. */
  function DayIndex(day: string): (k: int)
    ensures -1 <= k < |Days|
    ensures k == -1 <==> day !in Days
    ensures k >= 0 ==> Days[k] == day
  {
    IndexOf(Days, day)
  }

  function IndexOf(s: seq<string>, x: string): (k: int)
    ensures -1 <= k < |s|
    ensures k == -1 <==> x !in s
    ensures k >= 0 ==> s[k] == x && forall j :: 0 <= j < k ==> s[j] != x
  {
    if s == [] then -1
    else if s[0] == x then 0
    else
      var k := IndexOf(s[1..], x);
      if k == -1 then -1 else k + 1
  }

  /** A JavaScript number, as far as the comparators need one: an integer or NaN. */
  datatype Num = Finite(n: int) | NaN

  /**
   * `Number(piece)` for the pieces of a time string. A string of decimal
   * digits (the empty string included, which is 0) has its decimal value;
   * any other piece is taken to be NaN.
   */
  function NumberOf(piece: string): Num {
    if AllDigits(piece) then Finite(DigitsValue(piece)) else NaN
  }

  /** `t.split(":").map(Number)` then `hours * 60 + minutes`; a missing minutes part is NaN. */
  function StartMinutes(t: string): Num {
    var parts := Split(t, ':');
    if |parts| < 2 then NaN
    else
      match (NumberOf(parts[0]), NumberOf(parts[1]))
      case (Finite(h), Finite(m)) => Finite(h * 60 + m)
      case _ => NaN
  }

  /** A zero-padded "HH:MM" time with minutes below 60, as `<input type="time">` produces. */
  predicate IsClockTime(t: string) {
    && |t| == 5
    && '0' <= t[0] <= '9' && '0' <= t[1] <= '9'
    && t[2] == ':'
    && '0' <= t[3] <= '5' && '0' <= t[4] <= '9'
  }

  function DigitValue(c: char): int {
    c as int - '0' as int
  }

  /** A clock time reads as its hours times 60 plus its minutes. */
  lemma ClockTimeMinutes(t: string)
    requires IsClockTime(t)
    ensures StartMinutes(t) == Finite((DigitValue(t[0]) * 10 + DigitValue(t[1])) * 60 + DigitValue(t[3]) * 10 + DigitValue(t[4]))
  {
    var hh, mm := t[..2], t[3..];
    assert t == hh + [':'] + mm;
    SplitConcat(hh, mm, ':');
    SplitFree(hh, ':');
    SplitFree(mm, ':');
    assert Split(t, ':') == [hh, mm];
    assert hh[..1] == [t[0]] && mm[..1] == [t[3]];
    assert [t[0]][..0] == [] && [t[3]][..0] == [];
    assert DigitsValue(hh[..1]) == DigitValue(t[0]);
    assert DigitsValue(mm[..1]) == DigitValue(t[3]);
    assert DigitsValue(hh) == DigitValue(t[0]) * 10 + DigitValue(t[1]);
    assert DigitsValue(mm) == DigitValue(t[3]) * 10 + DigitValue(t[4]);
  }

  /**
   * For clock times, comparing the strings character by character (the
   * mentor view's `localeCompare`) orders them exactly as comparing their
   * minutes (the student view's comparator) does.
   */
  lemma ClockTimeOrder(a: string, b: string)
    requires IsClockTime(a) && IsClockTime(b)
    ensures StartMinutes(a).Finite? && StartMinutes(b).Finite?
    ensures LocaleLe(a, b) <==> StartMinutes(a).n <= StartMinutes(b).n
  {
    ClockTimeMinutes(a);
    ClockTimeMinutes(b);
    FiveCharOrder(a, b);
  }

  lemma FiveCharOrder(a: string, b: string)
    requires |a| == 5 && |b| == 5
    ensures LocaleLe(a, b) <==>
      (a[0] < b[0] || (a[0] == b[0] && (a[1] < b[1] || (a[1] == b[1] && (a[2] < b[2] || (a[2] == b[2] &&
      (a[3] < b[3] || (a[3] == b[3] && a[4] <= b[4]))))))))
  {
    var a1, b1 := a[1..], b[1..];
    var a2, b2 := a1[1..], b1[1..];
    var a3, b3 := a2[1..], b2[1..];
    var a4, b4 := a3[1..], b3[1..];
    assert a4[1..] == [] && b4[1..] == [];
    assert LocaleLe(a4, b4) <==> a[4] <= b[4];
    assert LocaleLe(a3, b3) <==> a[3] < b[3] || (a[3] == b[3] && LocaleLe(a4, b4));
    assert LocaleLe(a2, b2) <==> a[2] < b[2] || (a[2] == b[2] && LocaleLe(a3, b3));
    assert LocaleLe(a1, b1) <==> a[1] < b[1] || (a[1] == b[1] && LocaleLe(a2, b2));
  }
}
