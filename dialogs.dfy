/**
 * The message dialog (`_showDialog`): the requested type picks the GTK
 * message type and the set of buttons; the text defaults to empty.
 */
module Dialogs {
  import opened Wrappers

  datatype MessageType = InfoMessage | WarningMessage | QuestionMessage | ErrorMessage | OtherMessage

  datatype ButtonsType = OkButton | OkCancelButtons | YesNoButtons | NoButtons

  /** The dialog types the application asks for: the confirmation question, and the flatpak failure. */
  const UsedTypes: set<string> := {"question", "error"}

  /**
   * The `switch (modal.type)` as written: "info", "warning" and "question"
   * have their own cases, and everything else, "error" included, gets a
   * dialog of type OTHER with no buttons at all.
   */
  function DialogKind(kind: Option<string>): (r: (MessageType, ButtonsType))
    ensures r.1 == YesNoButtons <==> kind == Some("question")
    ensures r.1 == NoButtons <==> r.0 == OtherMessage
    ensures r.0 == OtherMessage <==> !(kind.Some? && kind.value in {"info", "warning", "question"})
    ensures r.0 != ErrorMessage
    ensures kind == Some("info") ==> r == (InfoMessage, OkButton)
    ensures kind == Some("warning") ==> r == (WarningMessage, OkCancelButtons)
    ensures kind == Some("question") ==> r == (QuestionMessage, YesNoButtons)
  {
    match kind
    case Some("info") => (InfoMessage, OkButton)
    case Some("warning") => (WarningMessage, OkCancelButtons)
    case Some("question") => (QuestionMessage, YesNoButtons)
    case _ => (OtherMessage, NoButtons)
  }

  /** The failure dialog of the flatpak toggle, as written, has no button to dismiss it. */
  lemma ErrorDialogHasNoButtons(kind: Option<string>)
    requires kind == Some("error")
    ensures DialogKind(kind) == (OtherMessage, NoButtons)
    ensures exists t :: t in UsedTypes && DialogKind(Some(t)).1 == NoButtons
  {
    assert DialogKind(Some("error")).1 == NoButtons;
  }

  /** The evidently intended mapping: "error" gets an error dialog with an OK button. */
  function IntendedDialogKind(kind: Option<string>): (r: (MessageType, ButtonsType))
    ensures kind != Some("error") ==> r == DialogKind(kind)
    ensures kind == Some("error") ==> r == (ErrorMessage, OkButton)
  {
    if kind == Some("error") then (ErrorMessage, OkButton) else DialogKind(kind)
  }

  /** With the intended mapping, every dialog the application opens has a button to answer or dismiss it. */
  lemma UsedDialogsHaveButtons(t: string)
    requires t in UsedTypes
    ensures IntendedDialogKind(Some(t)).1 != NoButtons
    ensures IntendedDialogKind(Some(t)).0 != OtherMessage
  {
  }

  /** `modal.text || ""`. */
  function DialogText(text: Option<string>): (r: string)
    ensures text.Some? ==> r == text.value
    ensures text.None? ==> r == ""
  {
    if text.Some? && text.value != "" then text.value else ""
  }
}
