/**
 * The spawner as the engine sees it: a command goes in, and later (or never)
 * the completion callback receives `(pid, status, error)`. Argument parsing,
 * the PATH augmentation and the operating system are outside the model; the
 * outcome of an attempt to start a process is an input.
 */
module Exec {
  import opened Wrappers

  /** The callback's arguments: `error` is the message of the Error object, when there is one. */
  datatype ExecResult = ExecResult(pid: Option<int>, status: int, error: Option<string>)

  /** `cb(null, 1)`: what the confirmation gate reports when the user does not say yes. */
  const Declined := ExecResult(None, 1, None)

  /** Every result the engine can produce carries status 1 whenever it carries an error. */
  predicate WellFormed(r: ExecResult) {
    r.error.Some? ==> r.status == 1
  }

  /** How far `_executeCommand` got in starting the process. */
  datatype SpawnAttempt =
    | Unparsable                     // shell_parse_argv returned false, as the code expects
    | SpawnThrew(message: string)    // spawn_async threw
    | NotStarted(pid: Option<int>)   // spawn_async returned ok === false
    | Started(pid: Option<int>)      // spawned; the pid may or may not be a number

  /**
   * The arguments `_executeCommand` passes to its callback, given how the start
   * went and, for a started process, the exit status the child watch reports;
   * None when the callback never fires (a started process whose pid is not a number).
   */
  function ExecuteCommand(command: string, attempt: SpawnAttempt, exitStatus: int): (r: Option<ExecResult>)
    ensures r.None? <==> attempt == Started(None)
    ensures r.Some? ==> WellFormed(r.value)
    ensures r.Some? && r.value.error.None? <==> attempt.Started? && attempt.pid.Some?
    ensures r.Some? && attempt.Started? ==> r.value == ExecResult(attempt.pid, exitStatus, None)
    ensures r.Some? && !attempt.Started? ==> r.value.status == 1
  {
    match attempt
    case Unparsable => Some(ExecResult(None, 1, Some("Failed to parse command: " + command)))
    case SpawnThrew(message) => Some(ExecResult(None, 1, Some(message)))
    case NotStarted(pid) => Some(ExecResult(pid, 1, Some("Failed to spawn process")))
    case Started(pid) => if pid.Some? then Some(ExecResult(pid, exitStatus, None)) else None
  }
}
