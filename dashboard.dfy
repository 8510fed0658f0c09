/**
 * The API-key dashboard page (src/app/dashboards/page.js): which dialog is open
 * (`showCreateForm`, `editingKey`), the form the dialog starts from, and the
 * submit handler that routes the form to the key list's create or update and
 * the resulting notice to the toast.
 */
module Dashboard {

  import opened Store
  import opened JsNumbers
  import opened ApiKeys
  import opened KeyGenerator
  import opened ApiKeyModal
  import opened ApiKeysHook
  import opened Notifications

  /** `getInitialFormData()`: the defaults, or the edited key's values as text. */
  function GetInitialFormData(editingKey: Option<ApiKeyRecord>): (f: FormData)
    ensures editingKey.None? ==> f == DefaultFormData
    ensures editingKey.Some? ==>
              && f.name == editingKey.value.name
              && f.permissions == editingKey.value.permissions
              && f.description == (if Truthy(editingKey.value.description) then editingKey.value.description.value else "")
    ensures editingKey.Some? && editingKey.value.usageLimit.None? ==> f.usageLimit == "1000"
    ensures editingKey.Some? && editingKey.value.usageLimit.Some? ==>
              ParseInt(f.usageLimit) == Int(editingKey.value.usageLimit.value)
  {
    match editingKey
    case None => DefaultFormData
    case Some(k) =>
      var limit :=
        if k.usageLimit.Some? then ParseIntToString(k.usageLimit.value); IntToString(k.usageLimit.value)
        else "1000";
      FormData(k.name, OrElse(k.description, ""), k.permissions, limit)
  }

  /** The form as the key store receives it: every field present, as text. */
  function FormInput(f: FormData): KeyInput
  {
    KeyInput(Some(f.name), Some(f.description), Some(f.permissions), Some(f.usageLimit))
  }

  /** The default limit text parses back to the default limit. */
  lemma DefaultLimitText()
    ensures UsageLimit(Some(DefaultFormData.usageLimit)) == DefaultUsageLimit
  {
    UsageLimitRoundTrip(1000);
    assert DecimalDigit(0) == '0' && DecimalDigit(1) == '1';
    assert ToDecimal(1) == "1";
    assert ToDecimal(10) == "10" by { assert 10 / 10 == 1 && 10 % 10 == 0; }
    assert ToDecimal(100) == "100" by { assert 100 / 10 == 10 && 100 % 10 == 0; }
    assert ToDecimal(1000) == "1000" by { assert 1000 / 10 == 100 && 1000 % 10 == 0; }
    assert IntToString(1000) == "1000";
  }

  /** The limit the edit form's text is saved as. */
  lemma {:induction false} EditFormLimit(k: ApiKeyRecord)
    ensures UsageLimit(Some(GetInitialFormData(Some(k)).usageLimit)) ==
            if k.usageLimit.None? || k.usageLimit == Some(0) then DefaultUsageLimit else k.usageLimit.value
  {
    if k.usageLimit.Some? {
      UsageLimitRoundTrip(k.usageLimit.value);
    } else {
      DefaultLimitText();
    }
  }

  /**
   * Saving the edit form unchanged rewrites the row as it was, except that a
   * null description becomes "" and a null or zero limit becomes 1000.
   */
  lemma {:induction false} UnchangedEditForm(k: ApiKeyRecord)
    ensures Edited(k, FormInput(GetInitialFormData(Some(k)))) ==
            k.(description := Some(OrElse(k.description, "")),
               usageLimit := Some(if k.usageLimit.None? || k.usageLimit == Some(0) then DefaultUsageLimit
                                  else k.usageLimit.value))
  {
    var f := GetInitialFormData(Some(k));
    EditFormLimit(k);
    assert f.description == OrElse(k.description, "");
  }

  /** The page's own state. */
  class DashboardPage {
    var showCreateForm: bool
    var editingKey: Option<ApiKeyRecord>

    /** No dialog is open at first. */
    constructor ()
      ensures !showCreateForm && editingKey.None?
    {
      showCreateForm, editingKey := false, None;
    }

    /** The dialog's `isOpen`: creating or editing. */
    predicate IsModalOpen()
      reads this
    {
      showCreateForm || editingKey.Some?
    }

    /** The "+" button: the dialog opens for a new key. */
    method OpenCreateForm()
      modifies this
      ensures showCreateForm && editingKey.None?
    {
      showCreateForm := true;
      editingKey := None;
    }

    /** `startEdit(key)`: the dialog opens on that key and not for a new one. */
    method StartEdit(key: ApiKeyRecord)
      modifies this
      ensures editingKey == Some(key) && !showCreateForm && IsModalOpen()
    {
      editingKey := Some(key);
      showCreateForm := false;
    }

    /** `handleModalClose()`: neither creating nor editing. */
    method HandleModalClose()
      modifies this
      ensures !showCreateForm && editingKey.None? && !IsModalOpen()
    {
      showCreateForm := false;
      editingKey := None;
    }

    /**
     * `handleFormSubmit(formData)`: updates the edited key or creates a new one;
     * on success the dialog's reason to be open is cleared and the hook's notice
     * is shown as a "success" toast, on failure the dialog stays as it was.
     */
    method HandleFormSubmit(keys: KeysHook, toasts: NotificationsHook, table: KeyTable, formData: FormData,
                            draw: seq<nat>, now: int, fault: Option<StoreMessage>)
      returns (out: Outcome)
      requires table.Valid() && IsRandomDraw(draw)
      modifies this, keys, toasts, table
      ensures table.Valid() && keys.loading == old(keys.loading)
      ensures old(editingKey).Some? ==>
                var s := UpdateStep(old(table.rows), old(editingKey).value.id, FormInput(formData), fault);
                && table.rows == s.rows && (out.success <==> s.result.Ok?)
                && editingKey == (if out.success then None else old(editingKey))
                && showCreateForm == old(showCreateForm)
                && (out.success ==> toasts.toastMessage == Named(s.result.value.name) + " updated successfully")
                && (s.result.Ok? ==>
                      keys.apiKeys == Replaced(old(keys.apiKeys), old(editingKey).value.id, s.result.value)
                      && keys.error.None?)
                && (s.result.Err? ==> keys.apiKeys == old(keys.apiKeys) && keys.error == Some(s.result.error))
      ensures old(editingKey).None? ==>
                var s := CreateStep(old(table.rows), old(table.nextId), FormInput(formData), None, KeyFor(draw), now, fault);
                && table.rows == s.rows && (out.success <==> s.result.Ok?)
                && showCreateForm == (if out.success then false else old(showCreateForm))
                && editingKey == old(editingKey)
                && (out.success ==> toasts.toastMessage == Named(s.result.value.name) + " created successfully")
                && (s.result.Ok? ==> keys.apiKeys == [s.result.value] + old(keys.apiKeys) && keys.error.None?)
                && (s.result.Err? ==> keys.apiKeys == old(keys.apiKeys) && keys.error == Some(s.result.error))
      ensures out.success ==> toasts.showToast && toasts.toastType == DefaultKind
      ensures !out.success ==>
                && toasts.showToast == old(toasts.showToast)
                && toasts.toastMessage == old(toasts.toastMessage)
                && toasts.toastType == old(toasts.toastType)
    {
      var notice: Option<Notice>;
      if editingKey.Some? {
        out, notice := keys.HandleUpdate(table, editingKey.value.id, FormInput(formData), fault);
        if out.success {
          editingKey := None;
        }
      } else {
        out, notice := keys.HandleCreate(table, FormInput(formData), draw, now, fault);
        if out.success {
          showCreateForm := false;
        }
      }
      if notice.Some? {
        toasts.ShowToastNotification(notice.value.message, notice.value.kind);
      }
    }
  }
}
