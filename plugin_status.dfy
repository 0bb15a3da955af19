/**
 * The plugin status resolver (`_getPluginStatus`) and the action button it
 * drives (`_setButtonState`): an optional status probe, run through the task
 * gate and the spawner but not the queue, decides whether the button offers
 * the forward action (`exec`) or its reverse (`undo`).
 */
module PluginStatus {
  import opened Wrappers
  import opened Exec
  import opened Plugins
  import opened Scanner
  import opened TaskGate

  /** What `_getPluginStatus` does when called. */
  datatype StatusStep =
    | NoCallback                                  // the callback is not a function: nothing at all
    | Probe(command: string)                      // the status command is handed to the gate
    | Resolved(action: Option<Action>, status: int)  // the callback receives this action and status

  /** `_getPluginStatus(plugin, callback)`, up to the point where it waits for the probe. */
  function GetPluginStatus(scripts: Scripts, callbackIsFunction: bool): (step: StatusStep)
    ensures step.NoCallback? <==> !callbackIsFunction
    ensures step.Probe? <==> callbackIsFunction && scripts.status.Some? && HasCommand(scripts.status.value)
    ensures step.Probe? ==> Some(step.command) == scripts.status.value.command
    ensures step.Resolved? ==> step == Resolved(scripts.exec, 1)
  {
    if !callbackIsFunction then NoCallback
    else if scripts.status.Some? && HasCommand(scripts.status.value) then Probe(scripts.status.value.command.value)
    else Resolved(scripts.exec, 1)
  }

  /** The probe's completion: exit status 0 means the forward effect is already in place. */
  function OnProbeExit(scripts: Scripts, status: int): (step: StatusStep)
    ensures step.Resolved? && step.status == status
    ensures status == 0 ==> step.action == scripts.undo
    ensures status != 0 ==> step.action == scripts.exec
  {
    if status == 0 then Resolved(scripts.undo, status) else Resolved(scripts.exec, status)
  }

  /**
   * The whole resolution, with the probe's outcome as input: the user's answer
   * if the gate asks, how the spawn went and the exit status. `None` when the
   * callback is never called (no callback, or the spawner never reports back).
   */
  function Resolve(malicious: Option<seq<Rule>>, files: Files, plugin: Plugin, callbackIsFunction: bool,
                   response: Response, attempt: SpawnAttempt, exitStatus: int): Option<StatusStep>
  {
    match GetPluginStatus(plugin.scripts, callbackIsFunction)
    case NoCallback => None
    case Resolved(_, _) => Some(Resolved(plugin.scripts.exec, 1))
    case Probe(command) =>
      match RunPluginCommand(malicious, files, plugin, command, response).action
      case CallBack(r) => Some(OnProbeExit(plugin.scripts, r.status))
      case CallRunner(_, cmd) =>
        match ExecuteCommand(cmd, attempt, exitStatus)
        case None => None
        case Some(r) => Some(OnProbeExit(plugin.scripts, r.status))
  }

  /**
   * The resolver only ever offers `undo` for a probe that ran and exited 0;
   * everything else (no probe, a declined probe, a probe that failed to
   * start, a non-zero exit) offers `exec`.
   */
  lemma UndoOnlyAfterSuccessfulProbe(malicious: Option<seq<Rule>>, files: Files, plugin: Plugin,
                                     callbackIsFunction: bool, response: Response, attempt: SpawnAttempt,
                                     exitStatus: int)
    ensures var r := Resolve(malicious, files, plugin, callbackIsFunction, response, attempt, exitStatus);
      && (r.None? <==> !callbackIsFunction
                       || (GetPluginStatus(plugin.scripts, true).Probe? && attempt == Started(None)
                           && RunPluginCommand(malicious, files, plugin, GetPluginStatus(plugin.scripts, true).command,
                                               response).action.CallRunner?))
      && (r.Some? ==> r.value.Resolved?)
      && (r.Some? && r.value.status == 0 ==>
            && r.value.action == plugin.scripts.undo
            && GetPluginStatus(plugin.scripts, true).Probe?
            && attempt.Started? && attempt.pid.Some? && exitStatus == 0)
      && (r.Some? && r.value.status != 0 ==> r.value.action == plugin.scripts.exec)
  {
    var step := GetPluginStatus(plugin.scripts, callbackIsFunction);
    if step.Probe? {
      var g := RunPluginCommand(malicious, files, plugin, step.command, response);
      if g.action.CallRunner? {
        var e := ExecuteCommand(g.action.cmd, attempt, exitStatus);
        assert e.Some? ==> (e.value.status == 0 ==> attempt.Started? && attempt.pid.Some? && exitStatus == 0);
      }
    }
  }

  /** A plugin without a status command always offers `exec`, with status 1. */
  lemma NoProbeOffersExec(malicious: Option<seq<Rule>>, files: Files, plugin: Plugin, response: Response,
                          attempt: SpawnAttempt, exitStatus: int)
    requires plugin.scripts.status.None? || !HasCommand(plugin.scripts.status.value)
    ensures Resolve(malicious, files, plugin, true, response, attempt, exitStatus) == Some(Resolved(plugin.scripts.exec, 1))
  {
  }

  // ------------------------------------------------ the action button

  const Destructive := "destructive-action"
  const Suggested := "suggested-action"

  /** The parts of the button the engine sets: its text, its style classes, whether it can be pressed. */
  datatype Button = Button(text: string, classes: set<string>, sensitive: bool)

  /**
   * `_setButtonState`'s callback: the action's label, the destructive style
   * for status 0 and the suggested one otherwise (added, never removed), and
   * sensitivity exactly when the action has a command. A missing action makes
   * the callback throw before it touches the button.
   */
  function SetButtonState(b: Button, action: Option<Action>, status: int): (b': Button)
    ensures action.None? ==> b' == b
    ensures action.Some? ==> b'.text == action.value.caption && b'.sensitive == HasCommand(action.value)
    ensures action.Some? ==> b'.classes == b.classes + {if status == 0 then Destructive else Suggested}
  {
    match action
    case None => b
    case Some(a) => Button(a.caption, b.classes + {if status == 0 then Destructive else Suggested}, HasCommand(a))
  }

  /** `_handleTask` on a click: "Working...", both style classes removed, insensitive. */
  function BeginTask(b: Button): (b': Button)
    ensures Destructive !in b'.classes && Suggested !in b'.classes && !b'.sensitive
    ensures b'.classes == b.classes - {Destructive, Suggested}
    ensures b'.text == "Working..."
  {
    Button("Working...", b.classes - {Destructive, Suggested}, false)
  }

  /** After a task, the refreshed button carries exactly one of the two styles, chosen by the status. */
  lemma RefreshShowsOneStyle(b: Button, action: Action, status: int)
    ensures var b' := SetButtonState(BeginTask(b), Some(action), status);
      && (Destructive in b'.classes <==> status == 0)
      && (Suggested in b'.classes <==> status != 0)
  {
    assert Destructive != Suggested;
  }

  /**
   * Setting the state twice without a task in between can leave both styles
   * on the button: the classes are only ever added.
   */
  lemma RepeatedRefreshKeepsBothStyles(b: Button, action: Action)
    ensures var b' := SetButtonState(SetButtonState(b, Some(action), 0), Some(action), 1);
      Destructive in b'.classes && Suggested in b'.classes
  {
  }
}
