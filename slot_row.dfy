/**
 * One editable row of the mentor's weekly schedule: the Edit button that
 * booked slots disable, the draft (`editSlot`) the row's inputs change, the
 * status options of the edit select, and the PUT body that Save sends.
 * The add-slot form's default status belongs here too.
 */
module SlotRow {
  import opened JsValues
  import opened Slots

  /** The row's draft: `editSlot`. */
  datatype Draft = Draft(startTime: string, endTime: string, status: string)

  /** The draft a slot starts with: its own times and status. */
  function DraftOf(slot: Slot): Draft {
    Draft(slot.startTime, slot.endTime, slot.status)
  }

  /** The Edit button is enabled unless the slot is booked. */
  predicate EditEnabled(slot: Slot) {
    slot.status != "booked"
  }

  /** An `<option>` of a status select. */
  datatype StatusOption = StatusOption(value: string, caption: string, enabled: bool)

  /** The edit select: Class, Free Slot, and a disabled Booked. */
  const EditStatusOptions: seq<StatusOption> :=
    [StatusOption("class", "Class", true), StatusOption("free", "Free Slot", true), StatusOption("booked", "Booked", false)]

  /** A status the mentor can pick in the edit select. */
  predicate Selectable(v: string) {
    exists i :: 0 <= i < |EditStatusOptions| && EditStatusOptions[i].enabled && EditStatusOptions[i].value == v
  }

  /** Only "class" and "free" can be picked; "booked" is shown but cannot be. */
  lemma SelectableStatuses(v: string)
    ensures Selectable(v) <==> v == "class" || v == "free"
  {
    if v == "class" {
      assert EditStatusOptions[0].enabled && EditStatusOptions[0].value == v;
    } else if v == "free" {
      assert EditStatusOptions[1].enabled && EditStatusOptions[1].value == v;
    }
  }

  /** The add-slot form (`newSlot`). */
  datatype NewSlotForm = NewSlotForm(day: string, startTime: string, endTime: string, status: string)

  /** The add-slot form as it starts and as a successful add resets it. */
  function EmptyNewSlot(): (f: NewSlotForm)
    ensures f.status == "free" && f.day == "" && f.startTime == "" && f.endTime == ""
  {
    NewSlotForm("", "", "", "free")
  }

  /** The add form's status select offers "free" (the default) and "class". */
  const AddStatusOptions: seq<string> := ["free", "class"]

  /**
   * The add form starts on its first option, and offers exactly the
   * statuses the edit select lets the mentor pick: neither can set "booked".
   */
  lemma AddFormOptions(v: string)
    ensures EmptyNewSlot().status == AddStatusOptions[0]
    ensures v in AddStatusOptions <==> Selectable(v)
    ensures "booked" !in AddStatusOptions
  {
    SelectableStatuses(v);
  }

  /** What happens to a row: a re-render with the current slot, or a user action. */
  datatype RowEvent =
    | Rerendered(slot: Slot)
    | EditClicked
    | StatusPicked(value: string)
    | StartChanged(time: string)
    | EndChanged(time: string)
    | SaveClicked(reply: Reply<ErrorBody>)
    | CancelClicked

  class EditableSlotRow {
    /** The `slot` prop of the latest render. */
    var slot: Slot
    var token: Option<string>
    var isEditing: bool
    /** `editSlot` */
    var editSlot: Draft
    /** The bodies of every PUT request the row has sent. */
    var sent: seq<Draft>

    /** Mounting: `useState` copies the slot into the draft once. */
    constructor (slot: Slot, token: Option<string>)
      ensures this.slot == slot && this.token == token
      ensures !isEditing && editSlot == DraftOf(slot) && sent == []
    {
      this.slot := slot;
      this.token := token;
      isEditing := false;
      editSlot := DraftOf(slot);
      sent := [];
    }

    /** A re-render with the same key: the prop changes, the state (and so the draft) does not. */
    method Rerender(slot: Slot)
      modifies this`slot
      ensures this.slot == slot
    {
      this.slot := slot;
    }

    /** The Edit button exactly as written: it only opens the editor, over the draft from mount. */
    method ClickEditAsWritten()
      modifies this`isEditing
      ensures isEditing == (old(isEditing) || EditEnabled(slot))
    {
      if !isEditing && EditEnabled(slot) {
        isEditing := true;
      }
    }

    /** The Edit button as evidently intended: open the editor over a draft of the current slot. */
    method ClickEdit()
      modifies this`isEditing, this`editSlot
      ensures isEditing == (old(isEditing) || EditEnabled(slot))
      ensures editSlot == if !old(isEditing) && EditEnabled(slot) then DraftOf(slot) else old(editSlot)
    {
      if !isEditing && EditEnabled(slot) {
        isEditing := true;
        editSlot := DraftOf(slot);
      }
    }

    /** The status select: only an enabled option can be chosen, and only while editing. */
    method PickStatus(v: string)
      modifies this`editSlot
      ensures editSlot == if isEditing && Selectable(v) then old(editSlot).(status := v) else old(editSlot)
    {
      if isEditing && Selectable(v) {
        editSlot := editSlot.(status := v);
      }
    }

    method ChangeStart(t: string)
      modifies this`editSlot
      ensures editSlot == if isEditing then old(editSlot).(startTime := t) else old(editSlot)
    {
      if isEditing {
        editSlot := editSlot.(startTime := t);
      }
    }

    method ChangeEnd(t: string)
      modifies this`editSlot
      ensures editSlot == if isEditing then old(editSlot).(endTime := t) else old(editSlot)
    {
      if isEditing {
        editSlot := editSlot.(endTime := t);
      }
    }

    method CancelEdit()
      modifies this`isEditing
      ensures !isEditing
    {
      isEditing := false;
    }

    /**
     * `handleSave`, given the reply: with a token, the draft is sent as
     * the PUT body, and a 2xx reply closes the editor (the parent then
     * refetches). Without a token nothing is sent.
     */
    method Save(reply: Reply<ErrorBody>) returns (body: Option<Draft>)
      modifies this`isEditing, this`sent
      ensures body == if old(isEditing) && Truthy(token) then Some(editSlot) else None
      ensures sent == old(sent) + (if body.Some? then [body.value] else [])
      ensures isEditing == (old(isEditing) &&
        !(body.Some? && reply.Response? && !IsAuthFailure(reply.status) && IsOk(reply.status)))
    {
      if !isEditing || !Truthy(token) {
        return None;
      }
      body := Some(editSlot);
      sent := sent + [editSlot];
      if reply.Response? && !IsAuthFailure(reply.status) && IsOk(reply.status) {
        isEditing := false;
      }
    }

    /** Apply one event, with the Edit button as evidently intended. */
    method Handle(e: RowEvent)
      modifies this`slot, this`isEditing, this`editSlot, this`sent
      ensures token == old(token)
      ensures match e
        case Rerendered(s) => slot == s && isEditing == old(isEditing) && editSlot == old(editSlot) && sent == old(sent)
        case EditClicked =>
          slot == old(slot) && sent == old(sent) && isEditing == (old(isEditing) || EditEnabled(slot)) &&
          editSlot == (if !old(isEditing) && EditEnabled(slot) then DraftOf(slot) else old(editSlot))
        case StatusPicked(v) =>
          slot == old(slot) && sent == old(sent) && isEditing == old(isEditing) &&
          editSlot == (if isEditing && Selectable(v) then old(editSlot).(status := v) else old(editSlot))
        case StartChanged(t) =>
          slot == old(slot) && sent == old(sent) && isEditing == old(isEditing) &&
          editSlot == (if isEditing then old(editSlot).(startTime := t) else old(editSlot))
        case EndChanged(t) =>
          slot == old(slot) && sent == old(sent) && isEditing == old(isEditing) &&
          editSlot == (if isEditing then old(editSlot).(endTime := t) else old(editSlot))
        case SaveClicked(reply) =>
          slot == old(slot) && editSlot == old(editSlot) &&
          sent == old(sent) + (if old(isEditing) && Truthy(token) then [editSlot] else []) &&
          isEditing == (old(isEditing) &&
            !(Truthy(token) && reply.Response? && !IsAuthFailure(reply.status) && IsOk(reply.status)))
        case CancelClicked =>
          slot == old(slot) && sent == old(sent) && editSlot == old(editSlot) && !isEditing
    {
      match e
      case Rerendered(s) => Rerender(s);
      case EditClicked => ClickEdit();
      case StatusPicked(v) => PickStatus(v);
      case StartChanged(t) => ChangeStart(t);
      case EndChanged(t) => ChangeEnd(t);
      case SaveClicked(reply) => var _ := Save(reply);
      case CancelClicked => CancelEdit();
    }
  }

  /**
   * As written, a row mounted while its slot was booked keeps "booked" in
   * its draft. Once the student cancels and the schedule is refreshed, Edit
   * is enabled, and Save with no change at all sends status "booked" for a
   * slot nobody holds.
   */
  method StaleDraftSavesBooked() returns (body: Option<Draft>)
    ensures body == Some(Draft("10:00", "11:00", "booked"))
  {
    var booked := Slot(1, "Monday", "10:00", "11:00", "booked", None, Some(7), None);
    var row := new EditableSlotRow(booked, Some("session"));
    row.Rerender(booked.(status := "free", bookedByStudentId := None));
    row.ClickEditAsWritten();
    body := row.Save(Response(200, ErrorBody(None)));
  }

  /**
   * With the Edit button resyncing the draft, no sequence of renders and
   * user actions, from any mounted slot, ever sends a body with status
   * "booked": the editor only opens over a slot that is not booked, and the
   * select only offers "class" and "free".
   */
  method RowNeverSendsBooked(mounted: Slot, token: Option<string>, events: seq<RowEvent>) returns (sent: seq<Draft>)
    ensures forall d :: d in sent ==> d.status != "booked"
  {
    var row := new EditableSlotRow(mounted, token);
    var i := 0;
    while i < |events|
      invariant 0 <= i <= |events|
      invariant row.isEditing ==> row.editSlot.status != "booked"
      invariant forall d :: d in row.sent ==> d.status != "booked"
    {
      if events[i].StatusPicked? {
        SelectableStatuses(events[i].value);
      }
      row.Handle(events[i]);
      i := i + 1;
    }
    sent := row.sent;
  }
}
