/**
 * The task gate (`_runPluginCommand`): every plugin command is scanned first;
 * a clean command goes straight to the injected runner, a suspicious one is
 * put to the user, and only an explicit "yes" lets the original command run.
 */
module TaskGate {
  import opened Wrappers
  import opened Text
  import opened Exec
  import opened Plugins
  import opened Scanner

  /** How the confirmation dialog was answered; only `Yes` is distinguished. */
  datatype Response = Yes | No | DeleteEvent

  /** The confirmation text's three inputs: the plugin, the offending statement, what it might do. */
  datatype Question = Question(pluginLabel: string, statement: string, description: string)

  /** What the gate finally does: hand the command to the runner, or call the callback itself. */
  datatype GateAction = CallRunner(wd: string, cmd: string) | CallBack(result: ExecResult)

  datatype GateOutcome = GateOutcome(question: Option<Question>, action: GateAction)

  /**
   * `_runPluginCommand(plugin, cmd, cb, runner)`, with the user's answer as an
   * input (it is consulted only when a question is asked).
   */
  function RunPluginCommand(malicious: Option<seq<Rule>>, files: Files, plugin: Plugin, cmd: string,
                            response: Response): (g: GateOutcome)
    ensures var scan := Scan(malicious, plugin.path, cmd, files);
      && (g.question.Some? <==> scan.Malicious?)
      && (g.question.Some? ==> g.question.value == Question(plugin.name, scan.statement, scan.description))
      && (g.action == CallRunner(plugin.path, cmd) <==> scan.Clean? || response == Yes)
      && (!g.action.CallRunner? ==> g.action == CallBack(Declined))
  {
    match Scan(malicious, plugin.path, cmd, files)
    case Clean => GateOutcome(None, CallRunner(plugin.path, cmd))
    case Malicious(statement, description) =>
      var q := Question(plugin.name, statement, description);
      if response == Yes then GateOutcome(Some(q), CallRunner(plugin.path, cmd))
      else GateOutcome(Some(q), CallBack(Declined))
  }

  /** Without rules (absent or empty) every command runs at once, unasked. */
  lemma NoRulesRunsImmediately(malicious: Option<seq<Rule>>, files: Files, plugin: Plugin, cmd: string,
                               response: Response)
    requires malicious.None? || malicious.value == []
    ensures RunPluginCommand(malicious, files, plugin, cmd, response) == GateOutcome(None, CallRunner(plugin.path, cmd))
  {
    ScanReportsFirstHit(malicious, plugin.path, cmd, files);
  }

  /**
   * A command is run unasked exactly when no compiled variation of any rule
   * accepts any candidate; otherwise the runner is called only on `Yes`, and
   * never with anything but the original command.
   */
  lemma RunnerNeedsCleanScanOrConsent(malicious: Option<seq<Rule>>, files: Files, plugin: Plugin, cmd: string,
                                      response: Response)
    ensures var g := RunPluginCommand(malicious, files, plugin, cmd, response);
      var rules, cands := RuleSet(malicious), Candidates(plugin.path, cmd, files);
      && (g.question.None? <==> forall ri, vi, ci :: !Hit(rules, cands, ri, vi, ci))
      && (g.action.CallRunner? ==> g.action == CallRunner(plugin.path, cmd))
      && (g.action.CallRunner? && g.question.Some? ==> response == Yes)
  {
    ScanReportsFirstHit(malicious, plugin.path, cmd, files);
  }

  /**
   * A worked case: the command `echo start; danger.sh` references the script
   * `danger.sh`, whose one line is `shutdown -h now`.
   */
  lemma DangerScriptReference(s: string)
    requires s == "echo start; danger.sh"
    ensures ScriptMatch(s) == ["danger.sh", "sh"]
  {
    DangerScriptMatchedAt(s);
    ScriptMatchIs(s, 12, 18, "sh");
    DangerScriptName(s);
  }

  /** The match starts after the last space and its dot is the only one. */
  lemma DangerScriptMatchedAt(s: string)
    requires s == "echo start; danger.sh"
    ensures LeftmostGreedy(s, 12, 18) && ExtensionAt(s, 18) == Some("sh")
  {
    assert forall j :: 0 <= j < |s| && s[j] == '.' ==> j == 18;
    assert ExtensionAt(s, 18) == Some("sh");
    assert MatchesAt(s, 12, 18);
    forall i', k' | 0 <= i' < 12 ensures !MatchesAt(s, i', k') {
      if ExtensionAt(s, k').Some? {
        assert k' == 18 && IsSpace(s[11]);
      }
    }
  }

  lemma DangerScriptName(s: string)
    requires s == "echo start; danger.sh"
    ensures s[12..21] == "danger.sh"
  {
  }

  /**
   * A plugin whose command references a script holding one dangerous line
   * (such as `shutdown -h now`), under a rule whose pattern accepts that line
   * and nothing else, must ask before anything runs; the question names the
   * line and the rule's description, and unless the answer is yes the runner
   * is never called and the callback reports status 1.
   */
  lemma ConfirmationBeforeDangerousScript(plugin: Plugin, command: string, line: string, description: string,
                                          m: Matcher, response: Response)
    requires ScriptMatch(command) != []
    requires |line| > 1 && line[0] != '#' && !IsSpace(line[0]) && !IsSpace(line[|line| - 1]) && '\n' !in line
    requires forall c :: m(c) ==> c == line
    requires m(line)
    ensures var files := map[plugin.path + "/" + ScriptMatch(command)[0] := Some(line)];
      var g := RunPluginCommand(Some([Rule(description, Some([Some(m)]))]), files, plugin, command, response);
      && g.question == Some(Question(plugin.name, line, description))
      && (response != Yes ==> g.action == CallBack(Declined))
  {
    var files := map[plugin.path + "/" + ScriptMatch(command)[0] := Some(line)];
    assert Split(line, '\n') == [line];
    TrimUnchanged(line);
    ScriptLineIsReported(plugin.path, command, files, line, description, m);
  }
}
