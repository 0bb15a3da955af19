/**
 * The parsed plugin descriptor the engine consumes. Loading it from the
 * plugin's manifest is outside the model.
 */
module Plugins {
  import opened Wrappers

  /** A named action script: its label (the button text) and the shell command it runs. */
  datatype Action = Action(caption: string, command: Option<string>)

  /** `plugin.scripts`: the forward action, its reverse, and the optional status probe. */
  datatype Scripts = Scripts(exec: Option<Action>, undo: Option<Action>, status: Option<Action>)

  datatype Plugin = Plugin(
    name: string,          // the plugin's label
    category: string,
    path: string,          // the plugin's directory; commands run there
    scripts: Scripts)

  /** JavaScript truthiness of `action.command`: present and not the empty string. */
  predicate HasCommand(a: Action) {
    a.command.Some? && a.command.value != ""
  }
}
