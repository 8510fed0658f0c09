/**
 * The create/edit dialog (src/components/ApiKeyModal.js): its form fields and
 * the backdrop flag that makes a click close the dialog only when the press
 * and the release both land on the backdrop itself. The parent's `onClose`
 * and `onSubmit` callbacks are modelled by what the handlers return.
 */
module ApiKeyModal {

  /** The four text fields of the form. */
  datatype FormData = FormData(name: string, description: string, permissions: string, usageLimit: string)

  /** The form a dialog opens with when no other is given. */
  const DefaultFormData: FormData := FormData("", "", "read", "1000")

  datatype Field = NameField | DescriptionField | PermissionsField | UsageLimitField

  /** `{ ...formData, [field]: value }`. */
  function WithField(f: FormData, field: Field, value: string): (r: FormData)
    ensures field == NameField ==> r == f.(name := value)
    ensures field == DescriptionField ==> r == f.(description := value)
    ensures field == PermissionsField ==> r == f.(permissions := value)
    ensures field == UsageLimitField ==> r == f.(usageLimit := value)
  {
    match field
    case NameField => f.(name := value)
    case DescriptionField => f.(description := value)
    case PermissionsField => f.(permissions := value)
    case UsageLimitField => f.(usageLimit := value)
  }

  // ----------------------------------------------------- backdrop gestures

  /** A mouse event seen by the backdrop; `onBackdrop` is `e.target === e.currentTarget`. */
  datatype Event = MouseDown(onBackdrop: bool) | MouseUp(onBackdrop: bool) | MouseLeave

  /** The flag `isMouseDownOnBackdrop` after one event. */
  function Next(armed: bool, e: Event): bool
  {
    match e
    case MouseDown(onBackdrop) => armed || onBackdrop
    case MouseUp(_) => false
    case MouseLeave => false
  }

  /** The flag after a sequence of events, starting from the initial `false`. */
  function ArmedAfter(events: seq<Event>): bool
  {
    if events == [] then false else Next(ArmedAfter(events[..|events| - 1]), events[|events| - 1])
  }

  /** A backdrop press that no release or leave has followed. */
  predicate PendingPress(events: seq<Event>, i: int)
  {
    && 0 <= i < |events| && events[i] == MouseDown(true)
    && forall j :: i < j < |events| ==> events[j].MouseDown?
  }

  /**
   * The flag is set exactly when some press on the backdrop has been followed
   * by nothing but further presses.
   */
  lemma {:induction false} ArmedAfterIff(events: seq<Event>)
    ensures ArmedAfter(events) <==> exists i :: PendingPress(events, i)
  {
    if events != [] {
      var front, last := events[..|events| - 1], events[|events| - 1];
      ArmedAfterIff(front);
      if ArmedAfter(events) {
        if last == MouseDown(true) {
          assert PendingPress(events, |events| - 1);
        } else {
          assert last.MouseDown? && ArmedAfter(front);
          var i :| PendingPress(front, i);
          assert PendingPress(events, i);
        }
      }
      if exists i :: PendingPress(events, i) {
        var i :| PendingPress(events, i);
        assert last.MouseDown?;
        if i < |events| - 1 {
          assert PendingPress(front, i);
        }
      }
    }
  }

  class ModalState {
    var formData: FormData
    var isMouseDownOnBackdrop: bool
    /** The `initialFormData` prop the dialog was last given. */
    var initialFormData: FormData
    /** The backdrop events seen so far. */
    ghost var history: seq<Event>

    ghost predicate Valid()
      reads this
    {
      isMouseDownOnBackdrop == ArmedAfter(history)
    }

    /** The dialog as first rendered with the given prop. */
    constructor (initial: FormData)
      ensures Valid() && history == []
      ensures formData == initial && initialFormData == initial && !isMouseDownOnBackdrop
    {
      formData, initialFormData, isMouseDownOnBackdrop := initial, initial, false;
      history := [];
    }

    /** The effect that copies a new `initialFormData` prop into the form. */
    method SyncInitialFormData(initial: FormData)
      modifies this
      ensures formData == initial && initialFormData == initial
      ensures isMouseDownOnBackdrop == old(isMouseDownOnBackdrop) && history == old(history)
    {
      initialFormData, formData := initial, initial;
    }

    /** A field's `onChange`: only that field takes the typed value. */
    method Edit(field: Field, value: string)
      modifies this
      ensures formData == WithField(old(formData), field, value)
      ensures initialFormData == old(initialFormData)
      ensures isMouseDownOnBackdrop == old(isMouseDownOnBackdrop) && history == old(history)
    {
      formData := WithField(formData, field, value);
    }

    /** `handleSubmit(e)`: the form as it stands goes to `onSubmit`, untouched. */
    method HandleSubmit() returns (submitted: FormData)
      ensures submitted == formData
    {
      submitted := formData;
    }

    /** `handleClose()`: the form returns to its initial data before `onClose` runs. */
    method HandleClose()
      modifies this
      ensures formData == initialFormData && initialFormData == old(initialFormData)
      ensures isMouseDownOnBackdrop == old(isMouseDownOnBackdrop) && history == old(history)
    {
      formData := initialFormData;
    }

    /** `handleBackdropMouseDown(e)`: a press on the dialog's content leaves the flag alone. */
    method HandleBackdropMouseDown(onBackdrop: bool)
      requires Valid()
      modifies this
      ensures Valid() && history == old(history) + [MouseDown(onBackdrop)]
      ensures isMouseDownOnBackdrop == (old(isMouseDownOnBackdrop) || onBackdrop)
      ensures formData == old(formData) && initialFormData == old(initialFormData)
    {
      if onBackdrop {
        isMouseDownOnBackdrop := true;
      }
      history := history + [MouseDown(onBackdrop)];
    }

    /**
     * `handleBackdropMouseUp(e)`: closes (and reports `onClose`) only when the
     * release is on the backdrop and a backdrop press is pending; the flag is
     * cleared in every case.
     */
    method HandleBackdropMouseUp(onBackdrop: bool) returns (closed: bool)
      requires Valid()
      modifies this
      ensures Valid() && history == old(history) + [MouseUp(onBackdrop)]
      ensures closed <==> onBackdrop && exists i :: PendingPress(old(history), i)
      ensures !isMouseDownOnBackdrop
      ensures closed ==> formData == initialFormData
      ensures !closed ==> formData == old(formData)
      ensures initialFormData == old(initialFormData)
    {
      ArmedAfterIff(history);
      closed := isMouseDownOnBackdrop && onBackdrop;
      if closed {
        formData := initialFormData;
      }
      isMouseDownOnBackdrop := false;
      history := history + [MouseUp(onBackdrop)];
    }

    /** `handleBackdropMouseLeave()`: a press that leaves the backdrop can no longer close it. */
    method HandleBackdropMouseLeave()
      requires Valid()
      modifies this
      ensures Valid() && history == old(history) + [MouseLeave]
      ensures !isMouseDownOnBackdrop
      ensures formData == old(formData) && initialFormData == old(initialFormData)
    {
      isMouseDownOnBackdrop := false;
      history := history + [MouseLeave];
    }
  }
}
