/**
 * The student's booking view of a mentor's schedule: how each slot is
 * classified and which action it offers, the order slots are shown in, the
 * local updates after a successful book or cancel, the once-only
 * session-expired notice, and the profile and password forms' checks.
 */
module StudentSchedule {
  import opened JsValues
  import opened JsStrings
  import opened Slots
  import opened Sorting
  import opened CommaList

  // ---------------------------------------------------------------------------
  // Classification
  // ---------------------------------------------------------------------------

  datatype Category = Available | BookedByMe | BookedByOther | ClassSlot | Unavailable

  /** The button a slot card offers; both carry the slot's own id. */
  datatype Action = BookSlot(slotId: int) | CancelSlot(slotId: int) | NoAction

  /** What the card of one slot shows: its category, status text, action, and the text under it. */
  datatype SlotCard = SlotCard(category: Category, statusText: string, action: Action, caption: string)

  /** The card for `slot` when the signed-in student's id is `me`. */
  function Classify(slot: Slot, me: Option<int>): (card: SlotCard)
    ensures card.category == Available <==> slot.status == "free" || slot.status == "available"
    ensures card.category == BookedByMe <==> slot.status == "booked" && slot.studentId == me
    ensures card.category == BookedByOther <==> slot.status == "booked" && slot.studentId != me
    ensures card.category == ClassSlot <==> slot.status == "class"
    ensures card.category == Unavailable <==>
      slot.status != "free" && slot.status != "available" && slot.status != "booked" && slot.status != "class"
    ensures card.action == BookSlot(slot.id) <==> card.category == Available
    ensures card.action == CancelSlot(slot.id) <==> card.category == BookedByMe
    ensures card.action.NoAction? <==> card.category != Available && card.category != BookedByMe
    ensures card.caption == "Cancel Booking" <==> card.category == BookedByMe
  {
    var isFree := slot.status == "free" || slot.status == "available";
    var bookedByMe := slot.status == "booked" && slot.studentId == me;
    var bookedByOther := slot.status == "booked" && slot.studentId != me;
    var isClass := slot.status == "class";
    var (category, statusText, action) :=
      if isFree then (Available, "AVAILABLE", BookSlot(slot.id))
      else if bookedByMe then (BookedByMe, "BOOKED BY YOU", CancelSlot(slot.id))
      else if bookedByOther then (BookedByOther, "BOOKED", NoAction)
      else if isClass then (ClassSlot, "CLASS", NoAction)
      else (Unavailable, "UNAVAILABLE", NoAction);
    var caption :=
      if !action.NoAction? then (if bookedByMe then "Cancel Booking" else "Book Slot")
      else if bookedByOther then "Unavailable for booking."
      else "Slot Reserved.";
    SlotCard(category, statusText, action, caption)
  }

  // ---------------------------------------------------------------------------
  // Display order
  // ---------------------------------------------------------------------------

  /** `a.minutes - b.minutes`, where NaN on either side gives NaN. */
  function Minus(a: Num, b: Num): Num {
    if a.Finite? && b.Finite? then Finite(a.n - b.n) else NaN
  }

  /** The comparator of the booking view: day index first, then start time in minutes. */
  function CompareSlots(a: Slot, b: Slot): Num {
    var dayComparison := DayIndex(a.day) - DayIndex(b.day);
    if dayComparison != 0 then Finite(dayComparison)
    else Minus(StartMinutes(a.startTime), StartMinutes(b.startTime))
  }

  /** `CompareSlots(a, b) <= 0` as the sort reads it: a NaN result counts as 0. */
  predicate SlotLe(a: Slot, b: Slot) {
    match CompareSlots(a, b)
    case Finite(v) => v <= 0
    case NaN => true
  }

  /** `[...schedule].sort(CompareSlots)` */
  function SortedSchedule(schedule: seq<Slot>): seq<Slot> {
    SortBy(schedule, SlotLe)
  }

  /** A slot whose start time reads as a number of minutes. */
  predicate HasStartMinutes(s: Slot) {
    StartMinutes(s.startTime).Finite?
  }

  /** The order the view promises: earlier weekday first, then earlier start. */
  predicate ShownBefore(a: Slot, b: Slot)
    requires HasStartMinutes(a) && HasStartMinutes(b)
  {
    DayIndex(a.day) < DayIndex(b.day) ||
    (DayIndex(a.day) == DayIndex(b.day) && StartMinutes(a.startTime).n <= StartMinutes(b.startTime).n)
  }

  /** On slots whose start times read as numbers, the comparator is exactly that order. */
  lemma SlotLeIsShownBefore(a: Slot, b: Slot)
    requires HasStartMinutes(a) && HasStartMinutes(b)
    ensures SlotLe(a, b) <==> ShownBefore(a, b)
  {
  }

  lemma SlotLePreorder(u: seq<Slot>)
    requires forall s :: s in u ==> HasStartMinutes(s)
    ensures PreorderOn(SlotLe, u)
  {
    forall a, b | a in u && b in u ensures SlotLe(a, b) || SlotLe(b, a) {
      SlotLeIsShownBefore(a, b);
      SlotLeIsShownBefore(b, a);
    }
    forall a, b, c | a in u && b in u && c in u && SlotLe(a, b) && SlotLe(b, c) ensures SlotLe(a, c) {
      SlotLeIsShownBefore(a, b);
      SlotLeIsShownBefore(b, c);
      SlotLeIsShownBefore(a, c);
    }
  }

  /**
   * The sorted schedule holds exactly the slots of the schedule. When every
   * start time reads as minutes it is ordered by weekday (a day missing from
   * the list has index -1 and comes first) and then start time, and slots
   * that compare equal keep their order.
   */
  lemma {:induction false} SortedScheduleSpec(schedule: seq<Slot>)
    ensures multiset(SortedSchedule(schedule)) == multiset(schedule)
    ensures (forall s :: s in schedule ==> HasStartMinutes(s)) ==>
      var r := SortedSchedule(schedule);
      && (forall s :: s in r ==> HasStartMinutes(s))
      && (forall i, j :: 0 <= i < j < |r| ==> ShownBefore(r[i], r[j]))
      && (forall p :: p in schedule ==> Peers(r, p, SlotLe) == Peers(schedule, p, SlotLe))
  {
    var r := SortedSchedule(schedule);
    if forall s :: s in schedule ==> HasStartMinutes(s) {
      SlotLePreorder(schedule);
      SortBySorted(schedule, SlotLe, schedule);
      forall s | s in r ensures s in schedule {
        assert s in multiset(r);
      }
      forall i, j | 0 <= i < j < |r| ensures ShownBefore(r[i], r[j]) {
        assert r[i] in r && r[j] in r;
        SlotLeIsShownBefore(r[i], r[j]);
      }
      forall p | p in schedule ensures Peers(r, p, SlotLe) == Peers(schedule, p, SlotLe) {
        SortByStable(schedule, p, SlotLe, schedule);
      }
    }
  }

  // ---------------------------------------------------------------------------
  // Local updates after a successful book or cancel
  // ---------------------------------------------------------------------------

  /** The schedule after booking `scheduleId` for the student `me`: `prev.map(...)`. */
  function WithBooking(schedule: seq<Slot>, scheduleId: int, me: Option<int>): seq<Slot> {
    seq(|schedule|, i requires 0 <= i < |schedule| =>
      if schedule[i].id == scheduleId then schedule[i].(status := "booked", studentId := me) else schedule[i])
  }

  /** The schedule after cancelling `scheduleId`. */
  function WithCancellation(schedule: seq<Slot>, scheduleId: int): seq<Slot> {
    seq(|schedule|, i requires 0 <= i < |schedule| =>
      if schedule[i].id == scheduleId then schedule[i].(status := "free", studentId := None) else schedule[i])
  }

  /**
   * A booking keeps the list length and every slot with another id; each
   * slot with the booked id becomes "booked" by `me` and keeps its other fields.
   */
  lemma BookingChangesOnlyThatSlot(schedule: seq<Slot>, scheduleId: int, me: Option<int>)
    ensures var r := WithBooking(schedule, scheduleId, me);
      && |r| == |schedule|
      && (forall i :: 0 <= i < |r| && schedule[i].id != scheduleId ==> r[i] == schedule[i])
      && (forall i :: 0 <= i < |r| && schedule[i].id == scheduleId ==>
            r[i].status == "booked" && r[i].studentId == me &&
            r[i].(status := schedule[i].status, studentId := schedule[i].studentId) == schedule[i])
  {
  }

  /** A cancellation frees every slot with the cancelled id and leaves all others alone. */
  lemma CancellationChangesOnlyThatSlot(schedule: seq<Slot>, scheduleId: int)
    ensures var r := WithCancellation(schedule, scheduleId);
      && |r| == |schedule|
      && (forall i :: 0 <= i < |r| && schedule[i].id != scheduleId ==> r[i] == schedule[i])
      && (forall i :: 0 <= i < |r| && schedule[i].id == scheduleId ==>
            r[i].status == "free" && r[i].studentId.None? &&
            r[i].(status := schedule[i].status, studentId := schedule[i].studentId) == schedule[i])
  {
  }

  /**
   * The card a student books from turns into a cancel card for the same
   * student, and the cancel card turns back into a bookable one.
   */
  lemma BookThenCancelCards(schedule: seq<Slot>, i: int, me: Option<int>)
    requires 0 <= i < |schedule|
    requires Classify(schedule[i], me).action == BookSlot(schedule[i].id)
    ensures var booked := WithBooking(schedule, schedule[i].id, me);
      && Classify(booked[i], me).category == BookedByMe
      && Classify(booked[i], me).action == CancelSlot(schedule[i].id)
      && var freed := WithCancellation(booked, schedule[i].id);
         Classify(freed[i], me).category == Available &&
         Classify(freed[i], me).action == BookSlot(schedule[i].id)
  {
  }

  /** Booking twice is booking once. */
  lemma BookingIdempotent(schedule: seq<Slot>, scheduleId: int, me: Option<int>)
    ensures WithBooking(WithBooking(schedule, scheduleId, me), scheduleId, me) == WithBooking(schedule, scheduleId, me)
  {
  }

  /** Cancelling after booking is cancelling: the booking leaves no trace. */
  lemma CancelUndoesBooking(schedule: seq<Slot>, scheduleId: int, me: Option<int>)
    ensures WithCancellation(WithBooking(schedule, scheduleId, me), scheduleId) == WithCancellation(schedule, scheduleId)
  {
  }

  /** A booked id that no slot carries changes nothing. */
  lemma BookingUnknownId(schedule: seq<Slot>, scheduleId: int, me: Option<int>)
    requires forall i :: 0 <= i < |schedule| ==> schedule[i].id != scheduleId
    ensures WithBooking(schedule, scheduleId, me) == schedule
    ensures WithCancellation(schedule, scheduleId) == schedule
  {
  }

  // ---------------------------------------------------------------------------
  // The student id carried by the session token
  // ---------------------------------------------------------------------------

  /**
   * `getStudentId()`: null without a token or when the token does not have
   * three dot-separated parts; otherwise the id that decoding the middle part
   * yields, which is an input here (`decodedId`, null when decoding throws).
   */
  function StudentId(token: Option<string>, decodedId: Option<int>): (id: Option<int>)
    ensures id.Some? ==> Truthy(token) && CountChar(token.value, '.') == 2 && id == decodedId
    ensures Truthy(token) && CountChar(token.value, '.') == 2 ==> id == decodedId
  {
    if !Truthy(token) then None
    else
      SplitCount(token.value, '.');
      if |Split(token.value, '.')| != 3 then None
      else decodedId
  }

  // ---------------------------------------------------------------------------
  // Profile and password forms
  // ---------------------------------------------------------------------------

  /** The profile as the backend returns it; missing fields are null. */
  datatype Profile = Profile(
    fullName: Option<string>, email: Option<string>, contactNumber: Option<string>,
    address: Option<string>, dob: Option<string>, stream: Option<string>, major: Option<string>,
    skills: Option<seq<string>>, interests: Option<seq<string>>, image: Option<string>)

  /** The profile form's text fields. */
  datatype ProfileForm = ProfileForm(
    fullName: string, email: string, contactNumber: string, address: string, dob: string,
    stream: string, major: string, skills: string, interests: string, image: string)

  /** The body of the profile update: the form, with the two list fields parsed. */
  datatype ProfileUpdate = ProfileUpdate(
    fullName: string, email: string, contactNumber: string, address: string, dob: string,
    stream: string, major: string, skills: seq<string>, interests: seq<string>, image: string)

  /** `list?.join(", ") || ""` */
  function ListText(list: Option<seq<string>>): string {
    OrElse(if list.Some? then Some(Join(list.value, ", ")) else None, "")
  }

  /** The form filled from a freshly fetched profile. */
  function FormOf(p: Profile): ProfileForm {
    ProfileForm(
      OrElse(p.fullName, ""), OrElse(p.email, ""), OrElse(p.contactNumber, ""),
      OrElse(p.address, ""), OrElse(p.dob, ""), OrElse(p.stream, ""), OrElse(p.major, ""),
      ListText(p.skills), ListText(p.interests), OrElse(p.image, ""))
  }

  /** The body `updateProfile` sends. */
  function UpdateOf(f: ProfileForm): ProfileUpdate {
    ProfileUpdate(
      f.fullName, f.email, f.contactNumber, f.address, f.dob, f.stream, f.major,
      ParseList(f.skills), ParseList(f.interests), f.image)
  }

  /** A list whose items a parse could have produced. */
  predicate ParseShaped(items: seq<string>) {
    forall i :: 0 <= i < |items| ==> items[i] != "" && IsTrimmed(items[i]) && ',' !in items[i]
  }

  /**
   * Saving the profile form without editing it sends back the lists that
   * were fetched (a missing list as the empty list), provided their items
   * are non-empty, trimmed and comma-free. Every list sent is of that shape.
   */
  lemma ProfileListsRoundTrip(p: Profile)
    requires p.skills.Some? ==> ParseShaped(p.skills.value)
    requires p.interests.Some? ==> ParseShaped(p.interests.value)
    ensures UpdateOf(FormOf(p)).skills == p.skills.GetOr([])
    ensures UpdateOf(FormOf(p)).interests == p.interests.GetOr([])
    ensures ParseShaped(UpdateOf(FormOf(p)).skills) && ParseShaped(UpdateOf(FormOf(p)).interests)
  {
    var f := FormOf(p);
    assert f.skills == ListText(p.skills) && f.interests == ListText(p.interests);
    ListRoundTrip(p.skills);
    ListRoundTrip(p.interests);
    assert UpdateOf(f).skills == ParseList(f.skills);
    assert UpdateOf(f).interests == ParseList(f.interests);
  }

  lemma ListRoundTrip(list: Option<seq<string>>)
    requires list.Some? ==> ParseShaped(list.value)
    ensures ParseList(ListText(list)) == list.GetOr([])
  {
    if list.Some? {
      var text := Join(list.value, ", ");
      ParseJoin(list.value);
      assert ListText(list) == text;
    } else {
      ParseSingle("");
    }
  }

  datatype PasswordChange = PasswordChange(oldPassword: string, newPassword: string, confirmPassword: string)

  /** `changePassword` up to the request: a login is needed without a token, and a mismatch is refused. */
  function ChangePasswordGate(token: Option<string>, data: PasswordChange): (g: Submission<PasswordChange>)
    ensures g.NeedsLogin? <==> !Truthy(token)
    ensures g.Refused? <==> Truthy(token) && data.newPassword != data.confirmPassword
    ensures g.Sent? <==> Truthy(token) && data.newPassword == data.confirmPassword
    ensures g.Sent? ==> g.payload == data
  {
    if !Truthy(token) then NeedsLogin
    else if data.newPassword != data.confirmPassword then Refused("New password and confirm password do not match")
    else Sent(data)
  }

  // ---------------------------------------------------------------------------
  // The dashboard's schedule state and the once-only expiry notice
  // ---------------------------------------------------------------------------

  const BookingFailed := "Booking failed"
  const BookingThrew := "Something went wrong while booking the slot"
  const CancelFailed := "Cancellation failed"
  const CancelThrew := "Something went wrong while cancelling the slot"

  /** The request for `scheduleId` came back 2xx (and a token was there to send it). */
  predicate Succeeded(token: Option<string>, reply: Reply<ErrorBody>) {
    Truthy(token) && reply.Response? && !IsAuthFailure(reply.status) && IsOk(reply.status)
  }

  /** The handler ends in `handleAuthError`: no token, or a 401/403. */
  predicate AuthFailed(token: Option<string>, reply: Reply<ErrorBody>) {
    !Truthy(token) || (reply.Response? && IsAuthFailure(reply.status))
  }

  /** The toasts a book or cancel handler shows, apart from the expiry notice. */
  function OutcomeToasts(token: Option<string>, reply: Reply<ErrorBody>, success: string, failed: string, threw: string): seq<Toast> {
    if AuthFailed(token, reply) then []
    else if reply.Thrown? then [ErrorToast(threw)]
    else if !IsOk(reply.status) then [ErrorToast(OrElse(reply.body.error, failed))]
    else [SuccessToast(success)]
  }

  class StudentDashboard {
    /** `localStorage.getItem("token")`, read when the component renders. */
    var token: Option<string>
    /** The `id` inside the token's payload, or null when decoding throws. */
    var decodedId: Option<int>
    /** The open mentor's schedule, in the order the backend sent it. */
    var schedule: seq<Slot>
    /** The module-level `tokenErrorDisplayed` flag. */
    var tokenErrorDisplayed: bool
    /** Every toast shown so far. */
    var toasts: seq<Toast>
    var storage: map<string, string>
    var location: Option<string>

    /** The expiry notice has been shown exactly when the flag is set, and at most once. */
    ghost predicate Valid()
      reads this
    {
      ExpiryNotices(toasts) == (if tokenErrorDisplayed then 1 else 0)
    }

    constructor (storage: map<string, string>, decodedId: Option<int>)
      ensures Valid()
      ensures this.storage == storage && token == GetItem(storage, "token") && this.decodedId == decodedId
      ensures schedule == [] && !tokenErrorDisplayed && toasts == [] && location.None?
    {
      this.storage := storage;
      token := GetItem(storage, "token");
      this.decodedId := decodedId;
      schedule := [];
      tokenErrorDisplayed := false;
      toasts := [];
      location := None;
    }

    /** Show the session-expired notice unless it has already been shown. */
    method HandleAuthError()
      requires Valid()
      modifies this`tokenErrorDisplayed, this`toasts
      ensures Valid()
      ensures tokenErrorDisplayed
      ensures toasts == old(toasts) + (if old(tokenErrorDisplayed) then [] else [SessionExpiredToast])
      ensures ExpiryNotices(toasts) == 1
    {
      if !tokenErrorDisplayed {
        tokenErrorDisplayed := true;
        Notify(SessionExpiredToast);
      }
    }

    /** The expiry notice's `onClose`: clear storage and go to the login page. */
    method CloseExpiryNotice()
      requires tokenErrorDisplayed
      modifies this`storage, this`location
      ensures storage == map[] && location == Some("/login")
    {
      storage := map[];
      location := Some("/login");
    }

    method Notify(t: Toast)
      modifies this`toasts
      ensures toasts == old(toasts) + [t]
      ensures ExpiryNotices(toasts) == old(ExpiryNotices(toasts)) + (if t == SessionExpiredToast then 1 else 0)
    {
      toasts := toasts + [t];
      assert toasts[..|toasts| - 1] == old(toasts);
    }

    /** Show the toast of a book or cancel outcome, or the expiry notice. */
    method Report(reply: Reply<ErrorBody>, success: string, failed: string, threw: string)
      requires Valid()
      modifies this`tokenErrorDisplayed, this`toasts
      ensures Valid()
      ensures tokenErrorDisplayed == (old(tokenErrorDisplayed) || AuthFailed(token, reply))
      ensures toasts == old(toasts) + OutcomeToasts(token, reply, success, failed, threw) +
        (if AuthFailed(token, reply) && !old(tokenErrorDisplayed) then [SessionExpiredToast] else [])
    {
      if AuthFailed(token, reply) {
        HandleAuthError();
      } else if reply.Thrown? {
        Notify(ErrorToast(threw));
      } else if !IsOk(reply.status) {
        Notify(ErrorToast(OrElse(reply.body.error, failed)));
      } else {
        Notify(SuccessToast(success));
      }
    }

    /** `handleBookSlot(scheduleId)`, given the reply of the book request. */
    method HandleBookSlot(scheduleId: int, reply: Reply<ErrorBody>)
      requires Valid()
      modifies this`tokenErrorDisplayed, this`toasts, this`schedule
      ensures Valid()
      ensures schedule == if Succeeded(token, reply)
        then WithBooking(old(schedule), scheduleId, StudentId(token, decodedId))
        else old(schedule)
      ensures tokenErrorDisplayed == (old(tokenErrorDisplayed) || AuthFailed(token, reply))
      ensures toasts == old(toasts) + OutcomeToasts(token, reply, "Slot booked successfully!", BookingFailed, BookingThrew) +
        (if AuthFailed(token, reply) && !old(tokenErrorDisplayed) then [SessionExpiredToast] else [])
    {
      Report(reply, "Slot booked successfully!", BookingFailed, BookingThrew);
      if Succeeded(token, reply) {
        schedule := WithBooking(schedule, scheduleId, StudentId(token, decodedId));
      }
    }

    /** `handleCancelSlot(scheduleId)`, given the reply of the cancel request. */
    method HandleCancelSlot(scheduleId: int, reply: Reply<ErrorBody>)
      requires Valid()
      modifies this`tokenErrorDisplayed, this`toasts, this`schedule
      ensures Valid()
      ensures schedule == if Succeeded(token, reply)
        then WithCancellation(old(schedule), scheduleId)
        else old(schedule)
      ensures tokenErrorDisplayed == (old(tokenErrorDisplayed) || AuthFailed(token, reply))
      ensures toasts == old(toasts) + OutcomeToasts(token, reply, "Slot cancelled successfully!", CancelFailed, CancelThrew) +
        (if AuthFailed(token, reply) && !old(tokenErrorDisplayed) then [SessionExpiredToast] else [])
    {
      Report(reply, "Slot cancelled successfully!", CancelFailed, CancelThrew);
      if Succeeded(token, reply) {
        schedule := WithCancellation(schedule, scheduleId);
      }
    }
  }

  /**
   * However many requests fail with an expired session, one after the
   * other, the expiry notice is shown once.
   */
  method ExpiredSessionNotifiesOnce(d: StudentDashboard, ids: seq<int>)
    requires d.Valid()
    modifies d
    ensures d.Valid()
    ensures ExpiryNotices(d.toasts) <= 1
    ensures ids != [] ==> d.tokenErrorDisplayed && ExpiryNotices(d.toasts) == 1
    ensures d.schedule == old(d.schedule)
  {
    var i := 0;
    while i < |ids|
      invariant 0 <= i <= |ids|
      invariant d.Valid()
      invariant i > 0 ==> d.tokenErrorDisplayed
      invariant d.schedule == old(d.schedule)
    {
      d.HandleBookSlot(ids[i], Response(401, ErrorBody(None)));
      i := i + 1;
    }
  }
}
