# MentorConnect front end: the client-side decision logic, in Dafny

MentorConnect is a mentoring platform. Students book slots from a mentor's
weekly schedule. Mentors manage that schedule, see new bookings, and read
a chart of their students by major. Under the React rendering sits a layer
of decisions, and this project models that layer and proves what it
promises:

- **Booking view.** Each slot is classified into a card: available,
  booked by me, booked by another student, class, or unavailable. Each
  card offers one action: book, cancel or nothing. The schedule is shown
  sorted by weekday and start time. A successful book or cancel rewrites
  only the matching slot. The session-expired notice is shown at most
  once, however many requests fail.
- **Mentor dashboard.**
  - A fetch compares the last snapshot with the fetched schedule and
    announces the slots that became booked. It then stores the fetched
    schedule as the new snapshot.
  - Slots are grouped into weekday buckets, and each bucket is sorted by
    start time.
  - The chart counts students per major.
  - The dashboard counts active bookings.
  - A row's status label names the student who booked it.
  - An announcement with an empty field is refused.
  - Each schedule row has an editor. It opens only for slots that are
    not booked, and its select offers only "class" and "free".
- **Signup.**
  - The password strength meter scores four criteria.
  - A weak password blocks submission.
  - Each field update changes only its own field.
  - The request depends on the role. Its comma-separated list fields are
    parsed by split, trim and drop-empty.
- **Login and routing.**
  - Login picks the payload, endpoint and redirect from the role, and
    stores the session on success.
  - The route guard admits a dashboard only with a stored token and the
    matching stored role.

Modules follow the program:
- `JsValues` and `JsStrings` model the few runtime values and string
  operations the code relies on: null, truthiness, `||`, `split`, `join`,
  `trim`, `localeCompare` and replies.
- `CommaList` models list parsing.
- `Sorting` models the comparator sort.
- `Slots` models the schedule slot and time strings.
- `StudentSchedule` models StudentDashboard.jsx.
- `MentorSchedule`, `MajorChart` and `SlotRow` model MentorDashboard.jsx.
- `Signup`, `Login` and `Routing` model Signup.jsx, Login.jsx and App.jsx.

State that the source keeps and updates is modelled as a `class`:
- the student dashboard's schedule, flag and toasts;
- the mentor dashboard's schedule and `prevScheduleRef` snapshot;
- an editable slot row's draft;
- the signup and login forms.

Each method of these classes states its whole new state. The loops the source
runs (the `forEach` over a fetched schedule and the two `reduce`s) are methods
with loop invariants, proved against recursive specification functions.
`checkStrength` is straight-line code: four `if`s that bump a counter, then
the label. It is a method proved equal to the label of the score.

A `fetch` and its `res.json()` are one input, a `Reply`. It is either a
response with its status and decoded body, or an exception. Toasts are
an append-only log. `localStorage` is a `map<string, string>`, and
`window.location` is an optional path.

## Model

| member | source | states |
|---|---|---|
| StudentSchedule.Classify | frontend/src/pages/StudentDashboard.jsx:460-508 | Each card category holds exactly when its status condition holds ("free"/"available", booked with my id, booked with another id, "class", anything else). The book action, with the slot's own id, is offered iff the card is Available. The cancel action iff BookedByMe. No action otherwise. The caption is "Cancel Booking" iff BookedByMe. |
| StudentSchedule.SlotLeIsShownBefore | frontend/src/pages/StudentDashboard.jsx:434-442 | When both start times read as minutes, the comparator's "not after" is exactly: earlier weekday index, or the same index and a start no later. |
| StudentSchedule.SlotLePreorder | frontend/src/pages/StudentDashboard.jsx:434-442 | On slots whose start times parse, the comparator is total and transitive. |
| StudentSchedule.SortedScheduleSpec | frontend/src/pages/StudentDashboard.jsx:434-442 | The sorted copy is a permutation of the schedule. When every start time parses, it is ordered by weekday index (a day not in the list has -1 and comes first) and then by start minutes, and slots that compare equal keep their relative order. |
| StudentSchedule.BookingChangesOnlyThatSlot | frontend/src/pages/StudentDashboard.jsx:252-258 | A booking keeps the length and every slot with another id. A slot with the booked id becomes "booked" with the current student id, and keeps all its other fields. |
| StudentSchedule.CancellationChangesOnlyThatSlot | frontend/src/pages/StudentDashboard.jsx:285-289 | A cancellation sets the matching slot to "free" with a null student id, and nothing else changes. |
| StudentSchedule.BookThenCancelCards | frontend/src/pages/StudentDashboard.jsx:470-479 | Booking a bookable card turns it into a cancel card for the same id. Cancelling that turns it back into a bookable card. |
| StudentSchedule.BookingIdempotent | frontend/src/pages/StudentDashboard.jsx:252-258 | Applying the booking update twice equals applying it once. |
| StudentSchedule.CancelUndoesBooking | frontend/src/pages/StudentDashboard.jsx:285-289 | Cancelling after booking equals cancelling alone. |
| StudentSchedule.BookingUnknownId | frontend/src/pages/StudentDashboard.jsx:252-258 | An id no slot carries leaves the schedule unchanged under both updates. |
| StudentSchedule.StudentId | frontend/src/pages/StudentDashboard.jsx:95-106 | An id is returned only for a non-empty token with exactly three dot-separated parts, and it is then the decoded id. |
| StudentSchedule.ProfileListsRoundTrip | frontend/src/pages/StudentDashboard.jsx:325-336 | Saving the profile form unedited sends back the fetched skills and interests (a missing list as empty), when their items are parse-shaped. Every list sent is parse-shaped. |
| StudentSchedule.ListRoundTrip | frontend/src/pages/StudentDashboard.jsx:333-334 | Parsing `list?.join(", ") \|\| ""` gives back the list, or the empty list when there was none. |
| StudentSchedule.ChangePasswordGate | frontend/src/pages/StudentDashboard.jsx:400-405 | Without a token a login is needed. With one, a mismatched confirmation is refused and a matching one sends the password data as it is. |
| StudentSchedule.StudentDashboard.constructor | frontend/src/pages/StudentDashboard.jsx:80 | The token is the stored "token" item. The flag is false and the log is empty. |
| StudentSchedule.StudentDashboard.HandleAuthError | frontend/src/pages/StudentDashboard.jsx:82-93 | Sets the flag. It adds the expiry notice only if the flag was clear, so the log holds exactly one expiry notice afterwards. |
| StudentSchedule.StudentDashboard.CloseExpiryNotice | frontend/src/pages/StudentDashboard.jsx:87-90 | Closing the notice clears storage and moves to "/login". |
| StudentSchedule.StudentDashboard.Report | frontend/src/pages/StudentDashboard.jsx:242-261 | Adds to the log exactly the outcome toast (server error or its default, network error, or success), and the expiry notice on an auth failure when not yet shown. |
| StudentSchedule.StudentDashboard.HandleBookSlot | frontend/src/pages/StudentDashboard.jsx:230-262 | Only a 2xx reply with a token changes the schedule, into WithBooking with the id from the token. No token, 401/403, non-2xx and an exception leave it unchanged. The flag and log change as Report says. |
| StudentSchedule.StudentDashboard.HandleCancelSlot | frontend/src/pages/StudentDashboard.jsx:264-293 | Only a 2xx reply with a token changes the schedule, into WithCancellation. Every failure leaves it unchanged. |
| StudentSchedule.ExpiredSessionNotifiesOnce | frontend/src/pages/StudentDashboard.jsx:82-93 | Any number of bookings that get 401 in a row show the expiry notice at most once, and exactly once if there was at least one. The schedule does not change. |
| MentorSchedule.FirstSlotIndex | frontend/src/pages/MentorDashboard.jsx:281 | `find` by id: -1 iff no slot has the id, else the first index with it. |
| MentorSchedule.FindById | frontend/src/pages/MentorDashboard.jsx:281 | null iff no slot has the id, else the first slot of the list with that id. |
| MentorSchedule.StudentNameById | frontend/src/pages/MentorDashboard.jsx:243-246 | The full name of the first student with that id, or "Unknown Student" when none has it. |
| MentorSchedule.BookingNoticesAreNewBookings | frontend/src/pages/MentorDashboard.jsx:280-288 | A fetch raises one info toast per new booking, in fetch order, with the notice text of that slot. |
| MentorSchedule.NewBookingsMembers | frontend/src/pages/MentorDashboard.jsx:280-288 | A slot is announced iff it was fetched and is a new booking. |
| MentorSchedule.NewBookingIff | frontend/src/pages/MentorDashboard.jsx:281-282 | A new booking means: the first snapshot slot with the id is not "booked" and the fetched slot is "booked". An id missing from the snapshot never triggers a notice. |
| MentorSchedule.RefetchIsQuiet | frontend/src/pages/MentorDashboard.jsx:280-290 | With unique ids, fetching slots that are already in the snapshot announces nothing. |
| MentorSchedule.ActiveBookings | frontend/src/pages/MentorDashboard.jsx:618 | At most the schedule length, and zero iff no slot is "booked". |
| MentorSchedule.NoticesWithinActiveBookings | frontend/src/pages/MentorDashboard.jsx:282-286 | A fetch never announces more bookings than the active-bookings count of the fetched schedule. |
| MentorSchedule.MentorDashboard.constructor | frontend/src/pages/MentorDashboard.jsx:197-198 | Schedule and snapshot start empty, the flag clear and the log empty. |
| MentorSchedule.MentorDashboard.HandleAuthError | frontend/src/pages/MentorDashboard.jsx:230-241 | This file's own flag: set it, and add the notice only if it was clear. |
| MentorSchedule.MentorDashboard.FetchSchedule | frontend/src/pages/MentorDashboard.jsx:268-296 | On a 2xx reply with a token, the new bookings against the old snapshot are announced. Then snapshot and schedule both become the fetched list (missing as empty). Otherwise both are unchanged, and the log gains exactly FetchFailureToasts: the expiry notice (first time only) on no token or a 401/403, "Network error while fetching schedule" on an exception, and the server's error or "Failed to fetch schedule" on another non-2xx reply. The flag is set exactly on no token or a 401/403. |
| MentorSchedule.FetchFailureToasts | frontend/src/pages/MentorDashboard.jsx:269-295 | At most one toast. None exactly on a 2xx reply with a token, or on an auth failure when the notice was already shown. |
| MentorSchedule.MentorDashboard.AnnounceNewBookings | frontend/src/pages/MentorDashboard.jsx:280-288 | The `forEach` adds exactly BookingNotices(snapshot, fetched) to the log. |
| MentorSchedule.SlotsOn | frontend/src/pages/MentorDashboard.jsx:651-655 | A day's bucket holds only slots of the schedule with that day. |
| MentorSchedule.GroupByDay | frontend/src/pages/MentorDashboard.jsx:651-655 | The reduce's object has a key exactly for each day that has slots, and each bucket is that day's slots in schedule order. |
| MentorSchedule.SlotsOnCount | frontend/src/pages/MentorDashboard.jsx:651-655 | Each slot occurs in its own day's bucket as often as in the schedule, and in no other bucket. |
| MentorSchedule.BucketSizesSum | frontend/src/pages/MentorDashboard.jsx:651-655 | Over distinct days, bucket sizes sum to the number of slots on those days. Over days covering the schedule, they sum to its length. |
| MentorSchedule.StartLePreorder | frontend/src/pages/MentorDashboard.jsx:771 | Comparing start times with `localeCompare` is total and transitive. |
| MentorSchedule.DaysOverviewEntry | frontend/src/pages/MentorDashboard.jsx:749-771 | Every day shown is in the day list, has slots, and shows that bucket sorted by start time. |
| MentorSchedule.DaysOverviewComplete | frontend/src/pages/MentorDashboard.jsx:749-751 | Every listed day that has slots is shown. |
| MentorSchedule.SortedRowsChronological | frontend/src/pages/MentorDashboard.jsx:771 | Rows sorted as strings are in chronological order when every start is a zero-padded "HH:MM". |
| MentorSchedule.WeeklyOverviewSpec | frontend/src/pages/MentorDashboard.jsx:749-781 | The overview shows exactly the weekdays that have slots, each once and in Monday-to-Sunday order. Each shows a permutation of that day's slots, sorted by start string, which for clock times is chronological. |
| MentorSchedule.DaysOverviewPositions | frontend/src/pages/MentorDashboard.jsx:749-751 | The k-th day shown is the day at the k-th position of the mapped list whose bucket has slots, and those positions strictly increase, so the shown days keep the list's order. |
| MentorSchedule.ShownFromIncreasing | frontend/src/pages/MentorDashboard.jsx:749-751 | The positions from p on whose day has slots lie within the list and strictly increase. |
| MentorSchedule.ShownDaysAtPositions | frontend/src/pages/MentorDashboard.jsx:749-751 | The days kept from the list are the list's entries at those positions, one for one. |
| MentorSchedule.WeeklyOverviewInDayOrder | frontend/src/pages/MentorDashboard.jsx:749-751 | The shown days have strictly increasing weekday indices, so none is shown twice. |
| MentorSchedule.StatusLabel | frontend/src/pages/MentorDashboard.jsx:85-104 | "Free Slot", "Class", "Booked by **name**" with the booked name, or the raw status otherwise. |
| MentorSchedule.NoticeAndLabelNames | frontend/src/pages/MentorDashboard.jsx:93-95 | The notice and the label name the same student, except for a `booked_by` with a `name` and no `full_name`. |
| MentorSchedule.AnnouncementGate | frontend/src/pages/MentorDashboard.jsx:363-369 | A login is needed without a token. With one, an empty title or content is refused with "Both title and content are required", and otherwise the announcement is sent as typed. |
| MajorChart.FindMajor | frontend/src/pages/MentorDashboard.jsx:583 | -1 iff no bar has the major, else the index of a bar with it. |
| MajorChart.FirstOccurrencesSpec | frontend/src/pages/MentorDashboard.jsx:581-587 | The bar keys are distinct, are exactly the majors present, and are ordered by first occurrence. |
| MajorChart.TallyBump | frontend/src/pages/MentorDashboard.jsx:584 | `existing.count++` keeps the chart a tally of the students seen, one more in total. |
| MajorChart.TallyPush | frontend/src/pages/MentorDashboard.jsx:585 | Pushing `{ major, count: 1 }` for an unseen major keeps the chart a tally, one more in total. |
| MajorChart.TallyStep | frontend/src/pages/MentorDashboard.jsx:582-586 | One reduce step keeps the chart a tally of the students seen, one more in total. |
| MajorChart.StudentsByMajor | frontend/src/pages/MentorDashboard.jsx:581-587 | The bars are the distinct majors (missing or empty as "Unknown") in first-occurrence order. Every student's major has a bar. Each count is that major's number of students and is positive. The counts sum to the number of students. |
| MajorChart.ChartFacts | frontend/src/pages/MentorDashboard.jsx:581-587 | A tally has distinct keys, covers every student, and has only positive counts. |
| SlotRow.SelectableStatuses | frontend/src/pages/MentorDashboard.jsx:148-150 | The edit select lets the mentor pick a status iff it is "class" or "free". |
| SlotRow.EmptyNewSlot | frontend/src/pages/MentorDashboard.jsx:202-207 | The add form starts with empty fields and status "free". |
| SlotRow.AddFormOptions | frontend/src/pages/MentorDashboard.jsx:729-732 | The add form's default is its first option, and its options are exactly the statuses the edit select allows, so "booked" is not one of them. |
| SlotRow.EditableSlotRow.constructor | frontend/src/pages/MentorDashboard.jsx:49-54 | The row mounts closed, with the draft copied from the slot. |
| SlotRow.EditableSlotRow.Rerender | frontend/src/pages/MentorDashboard.jsx:773-780 | A re-render with the same key changes the prop and no state. |
| SlotRow.EditableSlotRow.ClickEditAsWritten | frontend/src/pages/MentorDashboard.jsx:174-180 | Edit opens the editor only when the slot is not booked, and leaves the draft alone (as written). |
| SlotRow.EditableSlotRow.ClickEdit | frontend/src/pages/MentorDashboard.jsx:174-180 | Edit opens only when the slot is not booked, and then starts the draft from the current slot (corrected). |
| SlotRow.EditableSlotRow.PickStatus | frontend/src/pages/MentorDashboard.jsx:141-151 | Only an enabled option changes the draft's status, and only while editing. |
| SlotRow.EditableSlotRow.ChangeStart | frontend/src/pages/MentorDashboard.jsx:112-116 | While editing, the draft's start takes the input. |
| SlotRow.EditableSlotRow.ChangeEnd | frontend/src/pages/MentorDashboard.jsx:126-131 | While editing, the draft's end takes the input. |
| SlotRow.EditableSlotRow.CancelEdit | frontend/src/pages/MentorDashboard.jsx:166-170 | Cancel closes the editor. |
| SlotRow.EditableSlotRow.Save | frontend/src/pages/MentorDashboard.jsx:56-83 | With a token the draft is sent as the PUT body, and only a 2xx reply closes the editor. Without a token nothing is sent. |
| SlotRow.EditableSlotRow.Handle | frontend/src/pages/MentorDashboard.jsx:106-184 | Each render or user event changes the row as its handler says, and nothing else; a save closes the editor exactly on a 2xx reply with a token. |
| SlotRow.StaleDraftSavesBooked | frontend/src/pages/MentorDashboard.jsx:48-54 | As written: a row mounted on a booked slot that is later freed sends status "booked" when Edit and Save are clicked. |
| SlotRow.RowNeverSendsBooked | frontend/src/pages/MentorDashboard.jsx:140-180 | With the corrected Edit, no sequence of renders and events from any mounted slot sends a body with status "booked". |
| Signup.Score | frontend/src/components/Signup.jsx:52-56 | The number of criteria met is at most 4. |
| Signup.StrengthLabel | frontend/src/components/Signup.jsx:57-59 | "Weak" iff the score is at most 1, "Medium" iff it is 2, "Strong" iff at least 3. |
| Signup.CheckStrength | frontend/src/components/Signup.jsx:51-60 | The four counter increments and the final choice return the label of the score, always one of the three labels. |
| Signup.ScoreMonotone | frontend/src/components/Signup.jsx:53-56 | Appending characters never lowers the score. |
| Signup.LabelMonotone | frontend/src/components/Signup.jsx:51-60 | Appending characters never weakens the label. |
| Signup.Utf16LengthBmp | frontend/src/components/Signup.jsx:53 | Without characters outside the BMP, `length` is the character count. |
| Signup.WeakExample | frontend/src/components/Signup.jsx:51-60 | "password" is "Weak". |
| Signup.StrongExample | frontend/src/components/Signup.jsx:51-60 | "Passwor1" (length, upper case, digit, no symbol) is "Strong". |
| Signup.MediumExample | frontend/src/components/Signup.jsx:51-60 | "Ab1" is "Medium". |
| Signup.BuildSignupRequest | frontend/src/components/Signup.jsx:87-113 | A student goes to "/signup/student" with the base fields, enrollment number, stream, major and parsed skills and interests. Anyone else goes to "/signup/mentor" with the base fields, mentor id, department, designation and parsed research areas. |
| Signup.SignupListsClean | frontend/src/components/Signup.jsx:102-111 | Every list a request carries holds only non-empty, trimmed items. |
| Signup.SubmitToast | frontend/src/components/Signup.jsx:122-133 | "Signup successful! Redirecting to login..." iff a 2xx reply. "Network error. Please try again." on an exception. On any other reply, the server's non-empty `error`, or else "Signup failed. Check your data.". |
| Signup.SignupForm.constructor | frontend/src/components/Signup.jsx:41-49 | Role "student", every form key present and empty, no strength yet. |
| Signup.SignupForm.SetUserType | frontend/src/components/Signup.jsx:147-159 | The role buttons set the role. |
| Signup.SignupForm.HandleChange | frontend/src/components/Signup.jsx:62-73 | Only the password recomputes the strength. A chosen file sets "image", anything else sets the field `id`, and every other field keeps its value. |
| Signup.SignupForm.HandleSubmit | frontend/src/components/Signup.jsx:76-133 | A "Weak" meter sends nothing and shows the weak-password toast. Otherwise the role's request is sent, and only a 2xx reply schedules the move to "/login". |
| Signup.TypedPasswordGate | frontend/src/components/Signup.jsx:65-85 | Once a password is typed, submission goes ahead iff it meets at least two criteria. |
| Login.LoginPayloadFor | frontend/src/components/Login.jsx:51-54 | {enrollment_number, password} iff the role is "student", else {mentor_id, password}, with the typed values. |
| Login.LoginPath | frontend/src/components/Login.jsx:56-59 | "/login/student" iff the role is "student", else "/login/mentor". |
| Login.RedirectTarget | frontend/src/components/Login.jsx:75-78 | "/student-dashboard" iff the role is "student", else "/mentor-dashboard". |
| Login.StoredToken | frontend/src/components/Login.jsx:72 | The reply's token, or "undefined" when the reply has none. |
| Login.SessionAfterLogin | frontend/src/components/Login.jsx:72-73 | Storage gains "token" and "role", equal to the stored token and the role, and keeps every other key. |
| Login.LoginForm.constructor | frontend/src/components/Login.jsx:43-45 | Role "student" and empty inputs. |
| Login.LoginForm.SetUserType | frontend/src/components/Login.jsx:106-118 | The role buttons set the role. |
| Login.LoginForm.SetCredentials | frontend/src/components/Login.jsx:142-158 | The inputs set the login id and password. |
| Login.LoginForm.HandleLogin | frontend/src/components/Login.jsx:48-85 | The role's endpoint and payload are used. A 2xx reply stores the session, moves to the role's dashboard and welcomes the user. Anything else writes nothing, does not move, and shows the error or network toast. |
| Routing.RouteKeyIdempotent | frontend/src/App.jsx:26-51 | The route key (ASCII lower case, trailing slashes dropped, slashes alone as "/") of a route key is itself. |
| Routing.ResolveByKey | frontend/src/App.jsx:26-51 | A path shows the same thing as its route key. |
| Routing.PublicRouteKeys | frontend/src/App.jsx:29-32 | Each public route's own path is its route key. |
| Routing.DashboardRouteKeys | frontend/src/App.jsx:35-51 | Each dashboard route's own path is its route key. |
| Routing.CaseAndSlashReachTheGuard | frontend/src/App.jsx:35-42 | "/Student-Dashboard/" reaches the student dashboard behind the same guard. |
| Routing.ProtectedRoute | frontend/src/App.jsx:10-23 | No token means no admission. A required role that differs from the stored one means no admission. A token with no role required, or a matching role, admits. |
| Routing.NoTokenRedirects | frontend/src/App.jsx:14-16 | Without a token both dashboards redirect to the login page. |
| Routing.DashboardAdmission | frontend/src/App.jsx:35-51 | Each dashboard renders iff a token is stored and the stored role is its role, and redirects otherwise. |
| Routing.AtMostOneDashboard | frontend/src/App.jsx:35-51 | One stored session opens at most one dashboard. |
| Routing.PublicRoutesUnguarded | frontend/src/App.jsx:29-32 | "/", "/home", "/login" and "/signup" render without looking at storage. |
| Routing.LoginOpensItsDashboard | frontend/src/components/Login.jsx:70-78 | After a successful login the guard admits the dashboard Login redirects to, iff the role is one of the two and the stored token is non-empty. |
| CommaList.ParseList | frontend/src/components/Signup.jsx:102-103 | Every parsed item is non-empty, trimmed and comma-free. |
| CommaList.TrimAll | frontend/src/components/Signup.jsx:102 | Each item is the trim of its piece. |
| CommaList.DropEmpty | frontend/src/components/Signup.jsx:102 | Keeps only non-empty items, all from the input, and changes nothing when none is empty. |
| CommaList.ParseConcat | frontend/src/components/Signup.jsx:111 | Items keep input order: the list of "a,b" is the list of a followed by the list of b. |
| CommaList.ParseSingle | frontend/src/pages/StudentDashboard.jsx:383-384 | A comma-free text parses to nothing when blank, else to its trim. |
| CommaList.ParseJoin | frontend/src/pages/StudentDashboard.jsx:383-384 | Parsing `items.join(", ")` gives back parse-shaped items. |
| JsStrings.Split | frontend/src/components/Signup.jsx:102 | At least one piece, none containing the separator. |
| JsStrings.SplitCount | frontend/src/pages/StudentDashboard.jsx:98-99 | A split yields one more piece than there are separators. |
| JsStrings.JoinSplit | frontend/src/components/Signup.jsx:102 | Joining a split's pieces with the separator gives back the string. |
| JsStrings.SplitJoin | frontend/src/pages/StudentDashboard.jsx:333-334 | Splitting separator-free pieces after joining them gives back the pieces. |
| JsStrings.Trim | frontend/src/components/Signup.jsx:102 | The result is trimmed. It is empty iff the input is all whitespace. It is the identity on trimmed input, and keeps only characters of the input. |
| JsStrings.LocaleLeTotal | frontend/src/pages/MentorDashboard.jsx:771 | Any two strings compare one way or the other. |
| JsStrings.LocaleLeTransitive | frontend/src/pages/MentorDashboard.jsx:771 | The string order is transitive. |
| Slots.DayIndex | frontend/src/pages/StudentDashboard.jsx:435-436 | -1 iff the day is not a weekday name, else its position in Monday..Sunday. |
| Slots.IndexOf | frontend/src/pages/StudentDashboard.jsx:436 | `indexOf`: -1 iff absent, else the first position. |
| Slots.ClockTimeMinutes | frontend/src/pages/StudentDashboard.jsx:439-441 | A zero-padded "HH:MM" reads as hours times 60 plus minutes. |
| Slots.ClockTimeOrder | frontend/src/pages/MentorDashboard.jsx:771 | For clock times, string order equals minute order. So the two dashboards, which compare start times differently, agree. |
| Sorting.SortBy | frontend/src/pages/StudentDashboard.jsx:434 | The sort is a permutation of its input. |
| Sorting.SortBySorted | frontend/src/pages/MentorDashboard.jsx:771 | Under a total, transitive comparator the result is sorted. |
| Sorting.SortByStable | frontend/src/pages/StudentDashboard.jsx:434-442 | Elements that compare equal keep their input order. |

## Left out

- HTTP, JSON decoding and the backend are not modelled. Each reply is an input: a status with a decoded body, or an exception.
- The order of asynchronous completions is not modelled. Each handler runs to completion on the reply it is given.
- Toasts are an append-only log of kind and text. Their positions, timers and the two-and-a-half-second redirect delay after signup are left out.
- `URL.createObjectURL` is an input (`fileUrl`).
- The JWT payload decoding in `getStudentId` (`atob`, `JSON.parse`) is an input (`decodedId`, null when decoding throws). Only the token and three-part checks are modelled.
- The `setInterval` polling is not modelled. Neither are the data fetchers other than the mentor's schedule fetch: profile, courses, grades, attendance, announcements, mentors, recommendations, student details, and the mentor's `students` and `subjects` fetches.
- MentorSchedule.MentorDashboard: `students` is an input fixed for the dashboard's lifetime, given to the constructor, as `fileUrl` and `decodedId` are inputs. In the source it starts as `[]` and is replaced when `fetchData("students", setStudents)` completes, so a schedule fetch that lands before it names the student "Unknown Student"; that ordering is not modelled.
- Signup.SignupForm.HandleSubmit and Login.LoginForm.HandleLogin: the browser's validation of `required` inputs is not modelled. The handlers are modelled as if called directly, so paths the page cannot reach with an empty required field (such as a signup sent with no password typed, meter still empty) are included.
- The averages (grade, attendance, score) are floating point (`parseFloat`, `toFixed`) and are left out.
- Rendering, CSS class choice, charts, sidebar and window size are left out, and so is frontend/src/pages/Home.jsx, which is static.
- `API_BASE_URL` is not modelled. Request targets are the paths after it.
- The add-slot request, the announcement request and the profile and password requests are modelled only up to the decision before the request: the default form and the gates. Their replies' toasts are not modelled.
- The mentor dashboard's own password-match gate (its message differs) and its `research_areas` parse are not modelled. They are the same decisions as the student's `ChangePasswordGate` and `CommaList.ParseList`.
- StudentSchedule.SortedScheduleSpec: `Number` is modelled for digit strings only (the empty piece is 0), and every other piece reads as NaN. JavaScript also accepts surrounding whitespace, signs and decimals (`Number(" 9")` is 9). So order is promised only when every start time is digits, a colon and digits. A NaN comparison counts as "equal", as ECMAScript's SortCompare does.
- JsStrings.LocaleLeTotal: `localeCompare` is modelled as code-point order. Locale collation is not.
- StudentSchedule.Classify: the slot's `studentid` and the id from the token are each modelled as an integer or null. JavaScript's `undefined` is folded into null, and an id that is a string (or any other non-number) has no counterpart in the model. With `===`, a slot with no `studentid` compared with a null id is "booked by another" in JavaScript but "booked by me" here. An id of 5 compared with "5" is also unequal in JavaScript. The model assumes the backend sends numeric ids, or null.
- StudentSchedule.StudentDashboard.constructor: `tokenErrorDisplayed` is a module-level `let` in both dashboards, so it survives a remount within one page load. The constructors clear it, so a notice in an earlier mount is not remembered. The same holds for MentorSchedule.MentorDashboard.constructor.
- Routing.RouteKey: route matching is modelled as ignoring ASCII case and trailing slashes. Case folding of non-ASCII letters, percent-decoding and the router's other normalisation are not modelled.
- Signup.Score: string characters are Unicode scalar values. `length` counts UTF-16 code units explicitly (two for a character outside the BMP). Lone surrogates are not representable.
- MentorSchedule.GroupByDay: a day string that names an `Object.prototype` member cannot occur in the model's map. In JavaScript such a day (for example "constructor") would make `acc[slot.day]` truthy from the start.
- MentorSchedule.StudentNameById: a student without `full_name` would make the JavaScript return `undefined`. Names are modelled as strings that are always present.
- Login.StoredToken: a JSON `null` token would be stored as "null". The model has only a present or missing token, and a missing one stores "undefined".
- SlotRow.EditableSlotRow.Save: the auth-failure toast and the success and error toasts of the row, and the parent's refetch after a successful save, are not modelled. Save states the request body and the editor state.
- SlotRow.EditableSlotRow.PickStatus: a browser refuses to select a disabled `<option>`. The model encodes that as "only an enabled option changes the draft".

## Findings

| source | as written | input that shows it | evidently intended | confidence | as-written member | corrected member |
|---|---|---|---|---|---|---|
| frontend/src/pages/MentorDashboard.jsx:48-54 | `editSlot` is copied from the `slot` prop once, when the row mounts. Rows are keyed by slot id (line 774), so a refetch keeps the old draft, and the Edit button (lines 174-180) only sets `isEditing`. | Mount the row while slot 1 is "booked". The student cancels, and a refetch shows it "free", which enables Edit. Then click Edit and Save without changes: the PUT body carries status "booked" for a slot nobody holds. | Opening the editor starts the draft from the current slot, so a save can never send the disabled "booked" status. | not executed | SlotRow.StaleDraftSavesBooked | SlotRow.RowNeverSendsBooked (with SlotRow.EditableSlotRow.ClickEdit) |
