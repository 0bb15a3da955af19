/**
 * The flatpak toggle (`_setFlatpakButtonState`, `_handleFlatpakTask`): a
 * probe decides whether the button offers "Install" or "Uninstall"; a click
 * runs the matching command directly through the spawner (not the scanner,
 * not the queue) and, on success, flips the label.
 */
module Flatpak {
  import opened Wrappers
  import opened Text
  import opened Dialogs

  const Install := "Install"
  const Uninstall := "Uninstall"

  /** The button, its sensitivity and the spinner beside it. */
  datatype FlatpakButton = FlatpakButton(text: string, sensitive: bool, spinning: bool)

  /**
   * The words of the probe command for the app. It reads as a shell
   * pipeline, but the spawner runs no shell: the string is cut into an
   * argument vector and the first word is executed with the rest as its
   * arguments.
   */
  function ProbeWords(appId: string): seq<string> {
    ["flatpak", "list", "--app", "--columns=application", "|", "grep", "-q", appId]
  }

  /** The command string the probe hands to the spawner: its words, one space apart. */
  function ProbeCommand(appId: string): string {
    Join(ProbeWords(appId), ' ')
  }

  /**
   * Cut at its spaces, the probe string falls apart into the words above:
   * the `|`, `grep`, `-q` and the app id sit among the arguments of
   * `flatpak`, not in a second command. The argument parser also gives
   * meaning to quotes, backslashes and a leading `#`; for an app id that
   * holds none of these, its cut agrees with this one.
   */
  lemma ProbeArguments(appId: string)
    requires forall k :: 0 <= k < |appId| ==> !IsSpace(appId[k])
    ensures Split(ProbeCommand(appId), ' ')
            == ["flatpak", "list", "--app", "--columns=application", "|", "grep", "-q", appId]
  {
    assert forall k :: 0 <= k < |appId| ==> appId[k] != ' ';
    JoinSplit(ProbeWords(appId), ' ');
  }

  /**
   * The probe's completion: status 0 offers "Uninstall", anything else
   * "Install". What the status says about the app is up to `flatpak`.
   */
  function OnProbeExit(b: FlatpakButton, status: int): (b': FlatpakButton)
    ensures b'.text == Uninstall <==> status == 0
    ensures b'.text == Install <==> status != 0
    ensures b'.sensitive && !b'.spinning
  {
    FlatpakButton(if status == 0 then Uninstall else Install, true, false)
  }

  /** The label after a successful task: "Install" becomes "Uninstall"; anything else becomes "Install". */
  function Toggle(caption: string): (r: string)
    ensures r == Uninstall <==> caption == Install
    ensures r == Install <==> caption != Install
  {
    if caption == Install then Uninstall else Install
  }

  /** On a click: the spinner starts and the button is made insensitive. */
  function BeginTask(b: FlatpakButton): FlatpakButton
  {
    b.(sensitive := false, spinning := true)
  }

  /** The command a click runs: install when the button says "Install", uninstall otherwise. */
  function TaskCommand(caption: string, appId: string): string
  {
    if caption == Install then "flatpak install --user -y " + appId else "flatpak uninstall --user -y " + appId
  }

  /** What the task's completion leaves: a success notification, or a failure dialog. */
  datatype Outcome =
    | Succeeded(button: FlatpakButton, summary: string, body: string)
    | Failed(button: FlatpakButton, kind: string, text: string)

  /**
   * The task's completion: the spinner stops and the button becomes sensitive
   * again; on status 0 the label flips and the notification names what was
   * done (judged from the new label); otherwise an "error" dialog names what
   * was attempted (judged from the unchanged label).
   */
  function OnTaskExit(b: FlatpakButton, pluginLabel: string, appId: string, status: int): (o: Outcome)
    ensures o.button.sensitive && !o.button.spinning
    ensures o.Succeeded? <==> status == 0
    ensures o.Succeeded? ==> o.button.text == Toggle(b.text) && o.summary == "Task completed!"
    ensures o.Failed? ==> o.button.text == b.text && o.kind == "error"
  {
    if status == 0 then
      var caption := Toggle(b.text);
      Succeeded(FlatpakButton(caption, true, false), "Task completed!",
                pluginLabel + (if caption == Uninstall then " (installed) successfully." else " (uninstalled) successfully."))
    else
      Failed(FlatpakButton(b.text, true, false), "error",
             (if b.text == Install then "Failed to install " else "Failed to uninstall ") + appId)
  }

  /** The labels the probe sets are exchanged by each successful task. */
  lemma ToggleInvolutive(caption: string)
    requires caption == Install || caption == Uninstall
    ensures Toggle(Toggle(caption)) == caption
    ensures Toggle(caption) != caption
  {
  }

  /** The two commands differ: a click runs the install command exactly when the button says "Install". */
  lemma InstallCommandIffInstallLabel(caption: string, appId: string)
    ensures TaskCommand(caption, appId) == "flatpak install --user -y " + appId <==> caption == Install
  {
    if caption != Install {
      assert |TaskCommand(caption, appId)| == |"flatpak install --user -y " + appId| + 2;
    }
  }

  /** The success notification says "installed" exactly when the install command ran. */
  lemma SuccessNamesTheCommand(b: FlatpakButton, pluginLabel: string, appId: string)
    ensures var o := OnTaskExit(BeginTask(b), pluginLabel, appId, 0);
      o.body == pluginLabel + " (installed) successfully."
      <==> TaskCommand(b.text, appId) == "flatpak install --user -y " + appId
  {
    InstallCommandIffInstallLabel(b.text, appId);
    var o := OnTaskExit(BeginTask(b), pluginLabel, appId, 0);
    if b.text != Install {
      assert |o.body| == |pluginLabel + " (installed) successfully."| + 2;
    }
  }

  /** After a successful task the button offers the reverse of the command that ran. */
  lemma SuccessOffersTheReverse(b: FlatpakButton, pluginLabel: string, appId: string)
    ensures OnTaskExit(BeginTask(b), pluginLabel, appId, 0).button.text == Uninstall
            <==> TaskCommand(b.text, appId) == "flatpak install --user -y " + appId
  {
    InstallCommandIffInstallLabel(b.text, appId);
  }

  /** A failure dialog names the operation that was attempted. */
  lemma FailureNamesTheCommand(b: FlatpakButton, pluginLabel: string, appId: string, status: int)
    requires status != 0
    ensures OnTaskExit(BeginTask(b), pluginLabel, appId, status).text == "Failed to install " + appId
            <==> TaskCommand(b.text, appId) == "flatpak install --user -y " + appId
  {
    InstallCommandIffInstallLabel(b.text, appId);
    var o := OnTaskExit(BeginTask(b), pluginLabel, appId, status);
    if b.text != Install {
      assert |o.text| == |"Failed to install " + appId| + 2;
    }
  }

  /** Right after the probe, a click runs the uninstall command exactly when the probe exited with status 0, and the install command otherwise. */
  lemma ClickAfterProbe(b: FlatpakButton, appId: string, status: int)
    ensures TaskCommand(OnProbeExit(b, status).text, appId)
            == if status == 0 then "flatpak uninstall --user -y " + appId else "flatpak install --user -y " + appId
  {
  }

  /**
   * The failure dialog asks for the type "error": as written it gets no
   * button; with the intended mapping it is an error dialog with OK.
   */
  lemma FailureDialog(b: FlatpakButton, pluginLabel: string, appId: string, status: int)
    requires status != 0
    ensures var o := OnTaskExit(b, pluginLabel, appId, status);
      && DialogKind(Some(o.kind)) == (OtherMessage, NoButtons)
      && IntendedDialogKind(Some(o.kind)) == (ErrorMessage, OkButton)
  {
    ErrorDialogHasNoButtons(Some("error"));
  }
}
