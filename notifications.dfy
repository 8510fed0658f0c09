/**
 * The toast state of the dashboard (src/hooks/useNotifications.js): whether the
 * toast shows, its message and its type.
 */
module Notifications {

  import opened Store

  const DefaultKind: string := "success"

  class NotificationsHook {
    var showToast: bool
    var toastMessage: string
    var toastType: string

    /** Hidden, with an empty message and the default type. */
    constructor ()
      ensures !showToast && toastMessage == "" && toastType == DefaultKind
    {
      showToast, toastMessage, toastType := false, "", DefaultKind;
    }

    /**
     * `showToastNotification(message, type)`; an omitted type is "success". The
     * new state does not depend on the old one, so of two shows the last wins.
     */
    method ShowToastNotification(message: string, kind: Option<string>)
      modifies this
      ensures showToast && toastMessage == message
      ensures toastType == if kind.Some? then kind.value else DefaultKind
    {
      toastMessage := message;
      toastType := if kind.Some? then kind.value else DefaultKind;
      showToast := true;
    }

    /** `handleNotificationClose()`: hides the toast and keeps its message and type. */
    method HandleNotificationClose()
      modifies this
      ensures !showToast
      ensures toastMessage == old(toastMessage) && toastType == old(toastType)
    {
      showToast := false;
    }
  }
}
