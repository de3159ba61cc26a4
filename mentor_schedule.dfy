/**
 * The mentor's schedule management: detecting bookings that appeared
 * since the last fetch, the snapshot a fetch leaves behind, grouping the
 * schedule by day and ordering each day's rows, the active-booking count,
 * the status label of a row and the announcement form's check.
 */
module MentorSchedule {
  import opened JsValues
  import opened JsStrings
  import opened Slots
  import opened Sorting

  /** A student of the mentor, as the list endpoint returns it. */
  datatype Student = Student(id: int, fullName: string, major: Option<string>)

  // ---------------------------------------------------------------------------
  // Looking slots and students up by id
  // ---------------------------------------------------------------------------

  /** The index of the first slot with `id`, or -1. */
  function FirstSlotIndex(s: seq<Slot>, id: int): (k: int)
    ensures -1 <= k < |s|
    ensures k == -1 <==> forall j :: 0 <= j < |s| ==> s[j].id != id
    ensures k >= 0 ==> s[k].id == id && forall j :: 0 <= j < k ==> s[j].id != id
  {
    if s == [] then -1
    else if s[0].id == id then 0
    else
      var k := FirstSlotIndex(s[1..], id);
      if k == -1 then -1 else k + 1
  }

  /** `s.find(x => x.id === id)` */
  function FindById(s: seq<Slot>, id: int): (r: Option<Slot>)
    ensures r.None? <==> forall j :: 0 <= j < |s| ==> s[j].id != id
    ensures r.Some? ==> r.value.id == id && r.value in s
    ensures r.Some? ==> exists k :: 0 <= k < |s| && r.value == s[k] && forall j :: 0 <= j < k ==> s[j].id != id
  {
    var k := FirstSlotIndex(s, id);
    if k == -1 then None else Some(s[k])
  }

  /**
   * `getStudentNameById(id)`: the name of the first student with that id,
   * or "Unknown Student".
   */
  function StudentNameById(students: seq<Student>, id: int): (name: string)
    ensures (forall j :: 0 <= j < |students| ==> students[j].id != id) ==> name == "Unknown Student"
    ensures forall k :: (0 <= k < |students| && students[k].id == id &&
      forall j :: 0 <= j < k ==> students[j].id != id) ==> name == students[k].fullName
  {
    if students == [] then "Unknown Student"
    else if students[0].id == id then students[0].fullName
    else
      var name := StudentNameById(students[1..], id);
      assert forall k :: 1 <= k < |students| ==> students[k] == students[1..][k - 1];
      name
  }

  // ---------------------------------------------------------------------------
  // New-booking notices
  // ---------------------------------------------------------------------------

  /**
   * A fetched slot is a new booking when the previous snapshot held a slot
   * with its id (the first such) that was not booked, and it is booked now.
   */
  predicate IsNewBooking(prev: seq<Slot>, x: Slot) {
    var p := FindById(prev, x.id);
    p.Some? && p.value.status != "booked" && x.status == "booked"
  }

  /** The fetched slots that raise a notice, in fetch order. */
  function NewBookings(prev: seq<Slot>, next: seq<Slot>): seq<Slot> {
    if next == [] then []
    else
      var last := next[|next| - 1];
      NewBookings(prev, next[..|next| - 1]) + (if IsNewBooking(prev, last) then [last] else [])
  }

  /** The name the notice shows: the student's name by id, else `booked_by.full_name`, else "A Student". */
  function NoticeName(slot: Slot, students: seq<Student>): string {
    if TruthyId(slot.bookedByStudentId) then StudentNameById(students, slot.bookedByStudentId.value)
    else OrElse(if slot.bookedBy.Some? then slot.bookedBy.value.fullName else None, "A Student")
  }

  function NoticeText(slot: Slot, students: seq<Student>): string {
    "\U{1F4CC} New booking: " + NoticeName(slot, students) + " booked " +
    slot.day + " " + slot.startTime + " - " + slot.endTime
  }

  /** The info toasts one successful fetch raises, in fetch order. */
  function BookingNotices(prev: seq<Slot>, next: seq<Slot>, students: seq<Student>): seq<Toast> {
    if next == [] then []
    else
      var last := next[|next| - 1];
      BookingNotices(prev, next[..|next| - 1], students) +
      (if IsNewBooking(prev, last) then [InfoToast(NoticeText(last, students))] else [])
  }

  lemma BookingNoticesSnoc(prev: seq<Slot>, next: seq<Slot>, i: int, students: seq<Student>)
    requires 0 <= i < |next|
    ensures BookingNotices(prev, next[..i + 1], students) == BookingNotices(prev, next[..i], students) +
      (if IsNewBooking(prev, next[i]) then [InfoToast(NoticeText(next[i], students))] else [])
  {
    assert next[..i + 1][..i] == next[..i];
  }

  /** Exactly the new bookings are announced, one notice each, in fetch order. */
  lemma {:induction false} BookingNoticesAreNewBookings(prev: seq<Slot>, next: seq<Slot>, students: seq<Student>)
    ensures |BookingNotices(prev, next, students)| == |NewBookings(prev, next)|
    ensures forall i :: 0 <= i < |NewBookings(prev, next)| ==>
      BookingNotices(prev, next, students)[i] == InfoToast(NoticeText(NewBookings(prev, next)[i], students))
  {
    if next != [] {
      BookingNoticesAreNewBookings(prev, next[..|next| - 1], students);
    }
  }

  /** A slot is among the new bookings iff it was fetched and it is a new booking. */
  lemma {:induction false} NewBookingsMembers(prev: seq<Slot>, next: seq<Slot>, x: Slot)
    ensures x in NewBookings(prev, next) <==> x in next && IsNewBooking(prev, x)
  {
    if next != [] {
      var init := next[..|next| - 1];
      NewBookingsMembers(prev, init, x);
      assert next == init + [next[|next| - 1]];
    }
  }

  /**
   * The notice condition spelled out: some slot of the previous snapshot
   * has the id, the first such is not booked, and the fetched slot is. A
   * slot whose id the snapshot lacks never raises one.
   */
  lemma NewBookingIff(prev: seq<Slot>, x: Slot)
    ensures IsNewBooking(prev, x) <==>
      exists k :: 0 <= k < |prev| && prev[k].id == x.id && (forall j :: 0 <= j < k ==> prev[j].id != x.id) &&
        prev[k].status != "booked" && x.status == "booked"
    ensures (forall j :: 0 <= j < |prev| ==> prev[j].id != x.id) ==> !IsNewBooking(prev, x)
  {
    var k := FirstSlotIndex(prev, x.id);
    if IsNewBooking(prev, x) {
      assert prev[k].id == x.id;
    }
  }

  predicate UniqueIds(s: seq<Slot>) {
    forall i, j :: 0 <= i < j < |s| ==> s[i].id != s[j].id
  }

  /**
   * A regular refresh that finds the schedule unchanged raises no notice:
   * once a fetch has stored the snapshot, fetching the same slots again
   * announces nothing (slot ids being unique).
   */
  lemma {:induction false} RefetchIsQuiet(s: seq<Slot>, next: seq<Slot>)
    requires UniqueIds(s)
    requires forall x :: x in next ==> x in s
    ensures NewBookings(s, next) == []
  {
    if next != [] {
      var init := next[..|next| - 1];
      var last := next[|next| - 1];
      assert forall x :: x in init ==> x in next;
      RefetchIsQuiet(s, init);
      assert last in next;
      var k :| 0 <= k < |s| && s[k] == last;
      assert FirstSlotIndex(s, last.id) == k;
    }
  }

  /** `schedule.filter(s => s.status === 'booked').length` */
  function ActiveBookings(s: seq<Slot>): (n: nat)
    ensures n <= |s|
    ensures n == 0 <==> forall i :: 0 <= i < |s| ==> s[i].status != "booked"
  {
    if s == [] then 0
    else ActiveBookings(s[..|s| - 1]) + (if s[|s| - 1].status == "booked" then 1 else 0)
  }

  /** Every new booking is booked, so a fetch never announces more bookings than the dashboard then counts. */
  lemma {:induction false} NoticesWithinActiveBookings(prev: seq<Slot>, next: seq<Slot>)
    ensures |NewBookings(prev, next)| <= ActiveBookings(next)
  {
    if next != [] {
      NoticesWithinActiveBookings(prev, next[..|next| - 1]);
    }
  }

  // ---------------------------------------------------------------------------
  // The dashboard's schedule state
  // ---------------------------------------------------------------------------

  /** The body of the schedule reply: `{ schedule }` on success, `{ error }` otherwise. */
  datatype ScheduleBody = ScheduleBody(schedule: Option<seq<Slot>>, error: Option<string>)

  /**
   * The toasts of a failed `fetchSchedule()`: the expiry notice (only the
   * first time) when there is no token or the reply is 401/403, the network
   * message when the request throws, and the server's error or the default
   * on any other non-2xx reply.
   */
  function FetchFailureToasts(token: Option<string>, reply: Reply<ScheduleBody>, shown: bool): (t: seq<Toast>)
    ensures |t| <= 1
    ensures t == [] <==>
      ((shown && (!Truthy(token) || (reply.Response? && IsAuthFailure(reply.status))))
       || (Truthy(token) && reply.Response? && !IsAuthFailure(reply.status) && IsOk(reply.status)))
  {
    if !Truthy(token) || (reply.Response? && IsAuthFailure(reply.status)) then
      (if shown then [] else [SessionExpiredToast])
    else if reply.Thrown? then [ErrorToast("Network error while fetching schedule")]
    else if !IsOk(reply.status) then [ErrorToast(OrElse(reply.body.error, "Failed to fetch schedule"))]
    else []
  }

  class MentorDashboard {
    var token: Option<string>
    var students: seq<Student>
    /** The schedule state the view renders. */
    var schedule: seq<Slot>
    /** `prevScheduleRef.current`: the schedule of the last successful fetch. */
    var prevSchedule: seq<Slot>
    /** This file's own module-level `tokenErrorDisplayed` flag. */
    var tokenErrorDisplayed: bool
    var toasts: seq<Toast>

    ghost predicate Valid()
      reads this
    {
      ExpiryNotices(toasts) == (if tokenErrorDisplayed then 1 else 0)
    }

    constructor (token: Option<string>, students: seq<Student>)
      ensures Valid()
      ensures this.token == token && this.students == students
      ensures schedule == [] && prevSchedule == [] && !tokenErrorDisplayed && toasts == []
    {
      this.token := token;
      this.students := students;
      schedule := [];
      prevSchedule := [];
      tokenErrorDisplayed := false;
      toasts := [];
    }

    method Notify(t: Toast)
      modifies this`toasts
      ensures toasts == old(toasts) + [t]
      ensures ExpiryNotices(toasts) == old(ExpiryNotices(toasts)) + (if t == SessionExpiredToast then 1 else 0)
    {
      toasts := toasts + [t];
      assert toasts[..|toasts| - 1] == old(toasts);
    }

    method HandleAuthError()
      requires Valid()
      modifies this`tokenErrorDisplayed, this`toasts
      ensures Valid() && tokenErrorDisplayed
      ensures toasts == old(toasts) + (if old(tokenErrorDisplayed) then [] else [SessionExpiredToast])
    {
      if !tokenErrorDisplayed {
        tokenErrorDisplayed := true;
        Notify(SessionExpiredToast);
      }
    }

    /**
     * `fetchSchedule()`, given the reply. On success every new booking is
     * announced, in fetch order, and then both the snapshot and the shown
     * schedule become the fetched list (a missing list is empty). Otherwise
     * neither changes.
     */
    method FetchSchedule(reply: Reply<ScheduleBody>)
      requires Valid()
      modifies this`tokenErrorDisplayed, this`toasts, this`schedule, this`prevSchedule
      ensures Valid()
      ensures var ok := Truthy(token) && reply.Response? && !IsAuthFailure(reply.status) && IsOk(reply.status);
        && (ok ==>
              var next := reply.body.schedule.GetOr([]);
              && prevSchedule == next && schedule == next
              && toasts == old(toasts) + BookingNotices(old(prevSchedule), next, students))
        && (!ok ==>
              && prevSchedule == old(prevSchedule) && schedule == old(schedule)
              && toasts == old(toasts) + FetchFailureToasts(token, reply, old(tokenErrorDisplayed)))
      ensures tokenErrorDisplayed == (old(tokenErrorDisplayed) || !Truthy(token) || (reply.Response? && IsAuthFailure(reply.status)))
    {
      if !Truthy(token) {
        HandleAuthError();
        return;
      }
      if reply.Thrown? {
        Notify(ErrorToast("Network error while fetching schedule"));
        return;
      }
      if IsAuthFailure(reply.status) {
        HandleAuthError();
        return;
      }
      if !IsOk(reply.status) {
        Notify(ErrorToast(OrElse(reply.body.error, "Failed to fetch schedule")));
        return;
      }
      var next := reply.body.schedule.GetOr([]);
      AnnounceNewBookings(next);
      prevSchedule := next;
      schedule := next;
    }

    /** The `forEach` of a successful fetch: one info toast per new booking, against the current snapshot. */
    method AnnounceNewBookings(next: seq<Slot>)
      requires Valid()
      modifies this`toasts
      ensures Valid()
      ensures toasts == old(toasts) + BookingNotices(prevSchedule, next, students)
    {
      var i := 0;
      while i < |next|
        invariant 0 <= i <= |next|
        invariant Valid()
        invariant toasts == old(toasts) + BookingNotices(prevSchedule, next[..i], students)
      {
        var slot := next[i];
        var prevSlot := FindById(prevSchedule, slot.id);
        BookingNoticesSnoc(prevSchedule, next, i, students);
        ghost var added := if IsNewBooking(prevSchedule, slot) then [InfoToast(NoticeText(slot, students))] else [];
        ghost var before := toasts;
        if prevSlot.Some? && prevSlot.value.status != "booked" && slot.status == "booked" {
          Notify(InfoToast(NoticeText(slot, students)));
        }
        assert toasts == before + added;
        i := i + 1;
      }
      assert next[..i] == next;
    }
  }

  // ---------------------------------------------------------------------------
  // The weekly overview
  // ---------------------------------------------------------------------------

  /** The slots of `s` on `day`, in schedule order. */
  function SlotsOn(s: seq<Slot>, day: string): (r: seq<Slot>)
    ensures |r| <= |s|
    ensures forall x :: x in r ==> x in s && x.day == day
  {
    if s == [] then []
    else SlotsOn(s[..|s| - 1], day) + (if s[|s| - 1].day == day then [s[|s| - 1]] else [])
  }

  /** `groups` holds one bucket per day of `t` that has slots: that day's slots, in order. */
  ghost predicate Grouped(groups: map<string, seq<Slot>>, t: seq<Slot>) {
    && (forall d :: d in groups <==> SlotsOn(t, d) != [])
    && (forall d :: d in groups ==> groups[d] == SlotsOn(t, d))
  }

  /** `if (!acc[x.day]) acc[x.day] = []; acc[x.day].push(x)` keeps the grouping in step with the slots seen. */
  lemma GroupStep(groups: map<string, seq<Slot>>, t: seq<Slot>, x: Slot)
    requires Grouped(groups, t)
    ensures Grouped(groups[x.day := (if x.day in groups then groups[x.day] else []) + [x]], t + [x])
  {
    assert (t + [x])[..|t|] == t;
    forall d ensures SlotsOn(t + [x], d) == SlotsOn(t, d) + (if x.day == d then [x] else []) {
    }
  }

  /** The `groupedSchedule` reduce: one bucket per day that has slots, each filled in schedule order. */
  method GroupByDay(s: seq<Slot>) returns (groups: map<string, seq<Slot>>)
    ensures forall d :: d in groups <==> SlotsOn(s, d) != []
    ensures forall d :: d in groups ==> groups[d] == SlotsOn(s, d)
  {
    groups := map[];
    var i := 0;
    while i < |s|
      invariant 0 <= i <= |s|
      invariant Grouped(groups, s[..i])
    {
      var slot := s[i];
      var bucket := if slot.day in groups then groups[slot.day] else [];
      GroupStep(groups, s[..i], slot);
      assert s[..i + 1] == s[..i] + [slot];
      groups := groups[slot.day := bucket + [slot]];
      i := i + 1;
    }
    assert s[..i] == s;
  }

  /** Each slot lands in its own day's bucket as often as it occurs in the schedule, and in no other bucket. */
  lemma {:induction false} SlotsOnCount(s: seq<Slot>, day: string, x: Slot)
    ensures multiset(SlotsOn(s, day))[x] == if x.day == day then multiset(s)[x] else 0
  {
    if s != [] {
      var init := s[..|s| - 1];
      SlotsOnCount(init, day, x);
      assert s == init + [s[|s| - 1]];
    }
  }

  /** The total size of the buckets of `days`. */
  function BucketSizes(s: seq<Slot>, days: seq<string>): nat {
    if days == [] then 0 else |SlotsOn(s, days[0])| + BucketSizes(s, days[1..])
  }

  /** The slots whose day is among `days`, counted. */
  function CountOnDays(s: seq<Slot>, days: seq<string>): nat {
    if s == [] then 0
    else CountOnDays(s[..|s| - 1], days) + (if s[|s| - 1].day in days then 1 else 0)
  }

  predicate Distinct(days: seq<string>) {
    forall i, j :: 0 <= i < j < |days| ==> days[i] != days[j]
  }

  lemma {:induction false} BucketSizesSnoc(s: seq<Slot>, x: Slot, days: seq<string>)
    requires Distinct(days)
    ensures BucketSizes(s + [x], days) == BucketSizes(s, days) + (if x.day in days then 1 else 0)
  {
    if days != [] {
      assert (s + [x])[..|s + [x]| - 1] == s;
      BucketSizesSnoc(s, x, days[1..]);
      assert x.day in days <==> x.day == days[0] || x.day in days[1..];
      assert x.day == days[0] ==> x.day !in days[1..];
    }
  }

  /**
   * Over distinct days, the bucket sizes add up to the number of slots on
   * those days; over the distinct days of the schedule, to its length.
   */
  lemma {:induction false} BucketSizesSum(s: seq<Slot>, days: seq<string>)
    requires Distinct(days)
    ensures BucketSizes(s, days) == CountOnDays(s, days)
    ensures (forall x :: x in s ==> x.day in days) ==> BucketSizes(s, days) == |s|
  {
    if s == [] {
      BucketSizesEmpty(days);
    } else {
      var init := s[..|s| - 1];
      BucketSizesSum(init, days);
      BucketSizesSnoc(init, s[|s| - 1], days);
      assert init + [s[|s| - 1]] == s;
      assert forall x :: x in init ==> x in s;
    }
  }

  lemma {:induction false} BucketSizesEmpty(days: seq<string>)
    ensures BucketSizes([], days) == 0
  {
    if days != [] {
      BucketSizesEmpty(days[1..]);
    }
  }

  /** `a.start_time.localeCompare(b.start_time) <= 0` */
  predicate StartLe(a: Slot, b: Slot) {
    LocaleLe(a.startTime, b.startTime)
  }

  /**
   * What the overview renders: for each weekday in order that has slots,
   * its bucket sorted by start time. Slots whose day is not a weekday name
   * are grouped but never shown.
   */
  function WeeklyOverview(s: seq<Slot>): seq<(string, seq<Slot>)> {
    DaysOverview(s, Days)
  }

  function DaysOverview(s: seq<Slot>, days: seq<string>): seq<(string, seq<Slot>)> {
    if days == [] then []
    else (if SlotsOn(s, days[0]) == [] then [] else [(days[0], DayRows(s, days[0]))]) + DaysOverview(s, days[1..])
  }

  /** `slots.sort((a, b) => a.start_time.localeCompare(b.start_time))` for the bucket of `day`. */
  function DayRows(s: seq<Slot>, day: string): seq<Slot> {
    SortBy(SlotsOn(s, day), StartLe)
  }

  lemma StartLePreorder(u: seq<Slot>)
    ensures PreorderOn(StartLe, u)
  {
    forall a, b | a in u && b in u ensures StartLe(a, b) || StartLe(b, a) {
      LocaleLeTotal(a.startTime, b.startTime);
    }
    forall a, b, c | a in u && b in u && c in u && StartLe(a, b) && StartLe(b, c) ensures StartLe(a, c) {
      LocaleLeTransitive(a.startTime, b.startTime, c.startTime);
    }
  }

  /** Every shown day is one of `days`, has slots, and holds that day's bucket sorted by start time. */
  lemma {:induction false} DaysOverviewEntry(s: seq<Slot>, days: seq<string>, k: int)
    requires 0 <= k < |DaysOverview(s, days)|
    ensures var e := DaysOverview(s, days)[k];
      e.0 in days && SlotsOn(s, e.0) != [] && e.1 == DayRows(s, e.0)
  {
    var rest := DaysOverview(s, days[1..]);
    if SlotsOn(s, days[0]) == [] {
      assert DaysOverview(s, days) == [] + rest;
      DaysOverviewEntry(s, days[1..], k);
      assert rest[k].0 in days[1..];
    } else if k > 0 {
      assert DaysOverview(s, days) == [(days[0], DayRows(s, days[0]))] + rest;
      assert DaysOverview(s, days)[k] == rest[k - 1];
      DaysOverviewEntry(s, days[1..], k - 1);
      assert rest[k - 1].0 in days[1..];
    } else {
      assert DaysOverview(s, days) == [(days[0], DayRows(s, days[0]))] + rest;
    }
  }

  /** Every day of `days` that has slots is shown. */
  lemma {:induction false} DaysOverviewComplete(s: seq<Slot>, days: seq<string>, d: string)
    requires d in days && SlotsOn(s, d) != []
    ensures exists k :: 0 <= k < |DaysOverview(s, days)| && DaysOverview(s, days)[k].0 == d
  {
    var head: seq<(string, seq<Slot>)> := if SlotsOn(s, days[0]) == [] then [] else [(days[0], DayRows(s, days[0]))];
    var rest := DaysOverview(s, days[1..]);
    assert DaysOverview(s, days) == head + rest;
    if d == days[0] {
      assert (head + rest)[0].0 == d;
    } else {
      DaysOverviewComplete(s, days[1..], d);
      var k :| 0 <= k < |rest| && rest[k].0 == d;
      assert (head + rest)[k + |head|].0 == d;
    }
  }

  /** The positions in `days`, from `p` on, of the days that have slots, in order. */
  function ShownFrom(s: seq<Slot>, days: seq<string>, p: nat): seq<nat>
    decreases |days| - p
  {
    if p >= |days| then []
    else (if SlotsOn(s, days[p]) == [] then [] else [p]) + ShownFrom(s, days, p + 1)
  }

  /** The shown positions lie in `days` from `p` on and strictly increase. */
  lemma {:induction false} ShownFromIncreasing(s: seq<Slot>, days: seq<string>, p: nat)
    ensures forall a :: 0 <= a < |ShownFrom(s, days, p)| ==> p <= ShownFrom(s, days, p)[a] < |days|
    ensures forall a, b :: 0 <= a < b < |ShownFrom(s, days, p)| ==> ShownFrom(s, days, p)[a] < ShownFrom(s, days, p)[b]
    decreases |days| - p
  {
    if p < |days| {
      var rest := ShownFrom(s, days, p + 1);
      ShownFromIncreasing(s, days, p + 1);
      if SlotsOn(s, days[p]) != [] {
        var r := ShownFrom(s, days, p);
        assert r == [p] + rest;
        forall a | 0 <= a < |r| ensures p <= r[a] < |days| {
          ConsEntry(p, rest, a);
        }
        forall a, b | 0 <= a < b < |r| ensures r[a] < r[b] {
          ConsEntry(p, rest, a);
          ConsEntry(p, rest, b);
        }
      }
    }
  }

  /** The days `DaysOverview` shows, in its order. */
  function ShownDays(s: seq<Slot>, days: seq<string>): seq<string> {
    if days == [] then []
    else (if SlotsOn(s, days[0]) == [] then [] else [days[0]]) + ShownDays(s, days[1..])
  }

  /** The shown days of `days[p..]` are the days at the shown positions. */
  lemma {:induction false} ShownDaysAtPositions(s: seq<Slot>, days: seq<string>, p: nat)
    requires p <= |days|
    ensures |ShownDays(s, days[p..])| == |ShownFrom(s, days, p)|
    ensures forall k :: 0 <= k < |ShownFrom(s, days, p)| ==>
      ShownFrom(s, days, p)[k] < |days| && ShownDays(s, days[p..])[k] == days[ShownFrom(s, days, p)[k]]
    decreases |days| - p
  {
    ShownFromIncreasing(s, days, p);
    var t := days[p..];
    if p < |days| {
      assert t[0] == days[p] && t[1..] == days[p + 1..];
      ShownDaysAtPositions(s, days, p + 1);
      var rest := ShownFrom(s, days, p + 1);
      var shown := ShownDays(s, days[p + 1..]);
      if SlotsOn(s, days[p]) == [] {
        assert ShownDays(s, t) == shown;
        assert ShownFrom(s, days, p) == rest;
      } else {
        assert ShownDays(s, t) == [days[p]] + shown;
        assert ShownFrom(s, days, p) == [p] + rest;
        forall k | 0 <= k < |[p] + rest|
          ensures ([days[p]] + shown)[k] == days[([p] + rest)[k]]
        {
          ConsEntry(p, rest, k);
          ConsEntry(days[p], shown, k);
        }
      }
    } else {
      assert t == [];
    }
  }

  /** Entry `k` of the overview is shown for the `k`-th shown day. */
  lemma {:induction false} OverviewShowsShownDays(s: seq<Slot>, days: seq<string>)
    ensures |DaysOverview(s, days)| == |ShownDays(s, days)|
    ensures forall k :: 0 <= k < |ShownDays(s, days)| ==> DaysOverview(s, days)[k].0 == ShownDays(s, days)[k]
  {
    if days != [] {
      var rest := DaysOverview(s, days[1..]);
      var shown := ShownDays(s, days[1..]);
      OverviewShowsShownDays(s, days[1..]);
      if SlotsOn(s, days[0]) == [] {
        OverviewSkip(s, days);
        assert ShownDays(s, days) == shown;
      } else {
        OverviewKeep(s, days);
        var h := (days[0], DayRows(s, days[0]));
        assert ShownDays(s, days) == [days[0]] + shown;
        forall k | 0 <= k < |ShownDays(s, days)|
          ensures DaysOverview(s, days)[k].0 == ShownDays(s, days)[k]
        {
          ConsEntry(h, rest, k);
          ConsEntry(days[0], shown, k);
        }
      }
    }
  }

  /**
   * Mapping over `days` shows the days at strictly increasing positions of
   * `days`: the overview follows the order of the list it maps over.
   */
  lemma DaysOverviewPositions(s: seq<Slot>, days: seq<string>)
    ensures |DaysOverview(s, days)| == |ShownFrom(s, days, 0)|
    ensures forall k :: 0 <= k < |DaysOverview(s, days)| ==>
      ShownFrom(s, days, 0)[k] < |days| && DaysOverview(s, days)[k].0 == days[ShownFrom(s, days, 0)[k]]
    ensures forall a, b :: 0 <= a < b < |ShownFrom(s, days, 0)| ==> ShownFrom(s, days, 0)[a] < ShownFrom(s, days, 0)[b]
  {
    OverviewShowsShownDays(s, days);
    assert days[0..] == days;
    ShownDaysAtPositions(s, days, 0);
    ShownFromIncreasing(s, days, 0);
  }

  /** A first day without slots is not shown. */
  lemma OverviewSkip(s: seq<Slot>, days: seq<string>)
    requires days != [] && SlotsOn(s, days[0]) == []
    ensures DaysOverview(s, days) == DaysOverview(s, days[1..])
  {
  }

  /** A first day with slots is shown first. */
  lemma OverviewKeep(s: seq<Slot>, days: seq<string>)
    requires days != [] && SlotsOn(s, days[0]) != []
    ensures DaysOverview(s, days) == [(days[0], DayRows(s, days[0]))] + DaysOverview(s, days[1..])
  {
  }

  /** Entry `i` of `[h] + rest` is `h` or entry `i - 1` of `rest`. */
  lemma ConsEntry<T>(h: T, rest: seq<T>, i: int)
    requires 0 <= i < |[h] + rest|
    ensures i == 0 ==> ([h] + rest)[i] == h
    ensures i > 0 ==> ([h] + rest)[i] == rest[i - 1]
  {
  }

  /** `a` starts no later than `b`, both start times reading as minutes. */
  predicate StartsNoLater(a: Slot, b: Slot) {
    match (StartMinutes(a.startTime), StartMinutes(b.startTime))
    case (Finite(m), Finite(n)) => m <= n
    case _ => false
  }

  /** Rows sorted by start time as strings are in chronological order when every start is a clock time. */
  lemma SortedRowsChronological(rows: seq<Slot>)
    requires SortedBy(rows, StartLe)
    requires forall x :: x in rows ==> IsClockTime(x.startTime)
    ensures forall i, j :: 0 <= i < j < |rows| ==> StartsNoLater(rows[i], rows[j])
  {
    forall i, j | 0 <= i < j < |rows| ensures StartsNoLater(rows[i], rows[j]) {
      assert rows[i] in rows && rows[j] in rows;
      ClockTimeOrder(rows[i].startTime, rows[j].startTime);
    }
  }

  /**
   * The overview shows each weekday that has slots, and only those, once
   * each and in Monday-to-Sunday order; each
   * shown day holds exactly that day's slots, sorted by start time as
   * strings, which for zero-padded clock times is chronological order.
   */
  lemma WeeklyOverviewSpec(s: seq<Slot>)
    ensures forall k :: 0 <= k < |WeeklyOverview(s)| ==>
      var (d, rows) := WeeklyOverview(s)[k];
      && d in Days && rows != []
      && multiset(rows) == multiset(SlotsOn(s, d))
      && SortedBy(rows, StartLe)
      && ((forall x :: x in rows ==> IsClockTime(x.startTime)) ==>
            forall i, j :: 0 <= i < j < |rows| ==> StartsNoLater(rows[i], rows[j]))
    ensures forall d :: d in Days && SlotsOn(s, d) != [] ==>
      exists k :: 0 <= k < |WeeklyOverview(s)| && WeeklyOverview(s)[k].0 == d
    ensures forall i, j :: 0 <= i < j < |WeeklyOverview(s)| ==>
      DayIndex(WeeklyOverview(s)[i].0) < DayIndex(WeeklyOverview(s)[j].0)
  {
    var o := WeeklyOverview(s);
    forall k | 0 <= k < |o|
      ensures var (d, rows) := o[k];
        && d in Days && rows != []
        && multiset(rows) == multiset(SlotsOn(s, d))
        && SortedBy(rows, StartLe)
        && ((forall x :: x in rows ==> IsClockTime(x.startTime)) ==>
              forall i, j :: 0 <= i < j < |rows| ==> StartsNoLater(rows[i], rows[j]))
    {
      DaysOverviewEntry(s, Days, k);
      var d, rows := o[k].0, o[k].1;
      var bucket := SlotsOn(s, d);
      StartLePreorder(bucket);
      SortBySorted(bucket, StartLe, bucket);
      if forall x :: x in rows ==> IsClockTime(x.startTime) {
        SortedRowsChronological(rows);
      }
    }
    forall d | d in Days && SlotsOn(s, d) != []
      ensures exists k :: 0 <= k < |o| && o[k].0 == d
    {
      DaysOverviewComplete(s, Days, d);
    }
    WeeklyOverviewInDayOrder(s);
  }

  /** The overview lists its days in Monday-to-Sunday order. */
  lemma WeeklyOverviewInDayOrder(s: seq<Slot>)
    ensures forall i, j :: 0 <= i < j < |WeeklyOverview(s)| ==>
      DayIndex(WeeklyOverview(s)[i].0) < DayIndex(WeeklyOverview(s)[j].0)
  {
    var o := WeeklyOverview(s);
    var r := ShownFrom(s, Days, 0);
    DaysOverviewPositions(s, Days);
    forall i, j | 0 <= i < j < |o|
      ensures DayIndex(o[i].0) < DayIndex(o[j].0)
    {
      DayIndexOfDay(r[i]);
      DayIndexOfDay(r[j]);
    }
  }

  /** The weekday names are distinct, so each one's index is its position. */
  lemma DayIndexOfDay(q: int)
    requires 0 <= q < |Days|
    ensures DayIndex(Days[q]) == q
  {
    var k := DayIndex(Days[q]);
    assert Days[q] in Days;
    if k < q {
      DaysDistinct(k, q);
    }
  }

  lemma DaysDistinct(a: int, b: int)
    requires 0 <= a < b < |Days|
    ensures Days[a] != Days[b]
  {
    assert |Days[a]| != |Days[b]| || Days[a][0] != Days[b][0];
  }

  // ---------------------------------------------------------------------------
  // A row's status label, and the announcement form
  // ---------------------------------------------------------------------------

  /** The name a booked row shows: by id, else `booked_by.full_name`, else `booked_by.name`, else "A Student". */
  function BookedName(slot: Slot, students: seq<Student>): string {
    if TruthyId(slot.bookedByStudentId) then StudentNameById(students, slot.bookedByStudentId.value)
    else
      var person := slot.bookedBy;
      OrElse(if person.Some? then person.value.fullName else None,
        OrElse(if person.Some? then person.value.name else None, "A Student"))
  }

  /** `getStatusLabel()`, as the text it renders. */
  function StatusLabel(slot: Slot, students: seq<Student>): (text: string)
    ensures slot.status == "free" ==> text == "Free Slot"
    ensures slot.status == "class" ==> text == "Class"
    ensures slot.status == "booked" ==> text == "Booked by **" + BookedName(slot, students) + "**"
    ensures slot.status != "free" && slot.status != "class" && slot.status != "booked" ==> text == slot.status
  {
    if slot.status == "free" then "Free Slot"
    else if slot.status == "class" then "Class"
    else if slot.status == "booked" then "Booked by **" + BookedName(slot, students) + "**"
    else slot.status
  }

  /**
   * The notice and the row label name the same student, except when the
   * slot carries no student id and its `booked_by` has a `name` but no
   * `full_name`: the notice then says "A Student".
   */
  lemma NoticeAndLabelNames(slot: Slot, students: seq<Student>)
    ensures NoticeName(slot, students) == BookedName(slot, students) <==>
      TruthyId(slot.bookedByStudentId) || slot.bookedBy.None? || Truthy(slot.bookedBy.value.fullName) ||
      OrElse(slot.bookedBy.value.name, "A Student") == "A Student"
  {
  }

  datatype Announcement = Announcement(title: string, content: string)

  /** `handleAddAnnouncement` up to the request: a login is needed without a token; an empty field is refused. */
  function AnnouncementGate(token: Option<string>, a: Announcement): (g: Submission<Announcement>)
    ensures g.NeedsLogin? <==> !Truthy(token)
    ensures g.Refused? <==> Truthy(token) && (a.title == "" || a.content == "")
    ensures g.Refused? ==> g.message == "Both title and content are required"
    ensures g.Sent? <==> Truthy(token) && a.title != "" && a.content != ""
    ensures g.Sent? ==> g.payload == a
  {
    if !Truthy(token) then NeedsLogin
    else if a.title == "" || a.content == "" then Refused("Both title and content are required")
    else Sent(a)
  }
}
