/**
 * The `useConfirmDialog` hook: a single piece of state, either no dialog or
 * an open dialog record, overwritten by `showConfirm`, by the wrapped
 * confirm callback and by `closeDialog`. Callbacks are named by an
 * `Action`, and running one appends it to `ran`.
 */
module ConfirmDialog {
  import opened Wrappers

  datatype Color = Blue | Red | Green

  function ColorName(c: Color): string {
    match c
    case Blue => "blue"
    case Red => "red"
    case Green => "green"
  }

  /** A caller-supplied callback, identified by name. */
  type Action = nat

  datatype DialogOptions = DialogOptions(
    title: Option<string>,
    confirmText: Option<string>,
    cancelText: Option<string>,
    confirmColor: Option<Color>)

  const DefaultTitle: string := "Confirm"
  const DefaultConfirmText: string := "OK"
  const DefaultCancelText: string := "Cancel"
  const DefaultColor: Color := Blue

  /** An open dialog; `onConfirm` is the caller's callback that the wrapped confirm runs. */
  datatype Dialog = Dialog(
    isOpen: bool,
    title: string,
    message: string,
    confirmText: string,
    cancelText: string,
    confirmColor: Color,
    onConfirm: Action)

  /** No options at all: `options?.x` is undefined for every field, as for a record with every field absent. */
  const NoOptions := DialogOptions(None, None, None, None)

  /** `given || fallback` for a text value: an absent or empty value falls back. */
  function Or(given: Option<string>, fallback: string): (s: string)
    requires fallback != ""
    ensures s != ""
    ensures given.Some? && given.value != "" ==> s == given.value
    ensures given.None? || given.value == "" ==> s == fallback
  {
    if given.Some? && given.value != "" then given.value else fallback
  }

  /** The record `showConfirm` stores: open, with the given message and callback, every missing label defaulted. */
  function Opened(message: string, onConfirm: Action, options: Option<DialogOptions>): (d: Dialog)
    ensures d.isOpen && d.message == message && d.onConfirm == onConfirm
    ensures d.title != "" && d.confirmText != "" && d.cancelText != ""
    ensures options.None? ==>
              d.title == DefaultTitle && d.confirmText == DefaultConfirmText
              && d.cancelText == DefaultCancelText && d.confirmColor == DefaultColor
    ensures options.Some? ==>
              && (options.value.title.Some? && options.value.title.value != "" ==> d.title == options.value.title.value)
              && (options.value.title.None? || options.value.title.value == "" ==> d.title == DefaultTitle)
              && (options.value.confirmText.Some? && options.value.confirmText.value != ""
                  ==> d.confirmText == options.value.confirmText.value)
              && (options.value.confirmText.None? || options.value.confirmText.value == ""
                  ==> d.confirmText == DefaultConfirmText)
              && (options.value.cancelText.Some? && options.value.cancelText.value != ""
                  ==> d.cancelText == options.value.cancelText.value)
              && (options.value.cancelText.None? || options.value.cancelText.value == ""
                  ==> d.cancelText == DefaultCancelText)
              && (options.value.confirmColor.Some? ==> d.confirmColor == options.value.confirmColor.value)
              && (options.value.confirmColor.None? ==> d.confirmColor == DefaultColor)
  {
    var o := options.GetOr(NoOptions);
    Dialog(
      true,
      Or(o.title, DefaultTitle),
      message,
      Or(o.confirmText, DefaultConfirmText),
      Or(o.cancelText, DefaultCancelText),
      o.confirmColor.GetOr(DefaultColor),
      onConfirm)
  }

  /** Options whose fields are all absent or empty give the same dialog as no options at all. */
  lemma EmptyOptionsAreDefaults(message: string, onConfirm: Action, options: DialogOptions)
    requires options.title.None? || options.title == Some("")
    requires options.confirmText.None? || options.confirmText == Some("")
    requires options.cancelText.None? || options.cancelText == Some("")
    requires options.confirmColor.None?
    ensures Opened(message, onConfirm, Some(options)) == Opened(message, onConfirm, None)
  {
  }

  class ConfirmDialogState {
    /** `null` is `None`. */
    var dialog: Option<Dialog>
    /** The caller callbacks run so far, oldest first. */
    var ran: seq<Action>

    /** The hook's initial state: no dialog, nothing run. */
    constructor ()
      ensures dialog.None? && ran == []
    {
      dialog := None;
      ran := [];
    }

    /** `showConfirm`: whatever dialog was open is replaced by the new one; no callback runs. */
    method ShowConfirm(message: string, onConfirm: Action, options: Option<DialogOptions>)
      modifies this
      ensures dialog == Some(Opened(message, onConfirm, options))
      ensures ran == old(ran)
    {
      dialog := Some(Opened(message, onConfirm, options));
    }

    /**
     * The wrapped callback stored in `d`: it runs the caller's callback once,
     * then sets the state to no dialog (whichever dialog is showing by then).
     */
    method Confirm(d: Dialog)
      modifies this
      ensures ran == old(ran) + [d.onConfirm]
      ensures dialog.None?
    {
      ran := ran + [d.onConfirm];
      dialog := None;
    }

    /** `closeDialog`: no dialog, and no callback runs. */
    method CloseDialog()
      modifies this
      ensures dialog.None?
      ensures ran == old(ran)
    {
      dialog := None;
    }
  }

  /** Open then confirm: exactly the given callback runs, once, and the dialog is gone. */
  method ConfirmRunsCallbackOnce(a: Action, options: Option<DialogOptions>) returns (ran: seq<Action>, open: bool)
    ensures ran == [a] && !open
  {
    var s := new ConfirmDialogState();
    s.ShowConfirm("Delete this course?", a, options);
    s.Confirm(s.dialog.value);
    ran, open := s.ran, s.dialog.Some?;
  }

  /** Open then cancel: nothing runs and the dialog is gone. */
  method CancelRunsNothing(a: Action, options: Option<DialogOptions>) returns (ran: seq<Action>, open: bool)
    ensures ran == [] && !open
  {
    var s := new ConfirmDialogState();
    s.ShowConfirm("Delete this course?", a, options);
    s.CloseDialog();
    ran, open := s.ran, s.dialog.Some?;
  }

  /** A second `showConfirm` replaces the first: confirming runs only the second callback. */
  method SecondShowReplacesFirst(a: Action, b: Action) returns (ran: seq<Action>, shown: Dialog)
    ensures shown == Opened("second", b, None)
    ensures ran == [b]
  {
    var s := new ConfirmDialogState();
    s.ShowConfirm("first", a, None);
    s.ShowConfirm("second", b, None);
    shown := s.dialog.value;
    s.Confirm(shown);
    ran := s.ran;
  }
}
