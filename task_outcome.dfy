/**
 * What `_handleTask` does when a queued task completes: it classifies the
 * outcome into a notification (summary, body, urgency, and an id that is
 * stable per plugin), then either closes the hidden window when nothing is
 * left to run, or stops the spinner, labels the button and schedules a
 * status refresh.
 */
module TaskOutcome {
  import opened Text
  import opened Exec
  import opened Plugins
  import opened CommandQueue
  import opened PluginStatus

  // ------------------------------------------------ _hashString

  function Sum(units: seq<nat>): nat {
    if units == [] then 0 else Sum(units[..|units| - 1]) + units[|units| - 1]
  }

  /** The sum of the UTF-16 code units of `s`. */
  function Hash(s: string): nat {
    Sum(Utf16(s))
  }

  /** `_hashString(str)`: adds up `str.charCodeAt(i)` for every `i < str.length`. */
  method HashString(str: string) returns (hash: nat)
    ensures hash == Hash(str)
  {
    var units := Utf16(str);
    hash := 0;
    for i := 0 to |units|
      invariant hash == Sum(units[..i])
    {
      assert units[..i + 1][..i] == units[..i];
      hash := hash + units[i];
    }
    assert units[..|units|] == units;
  }

  lemma {:induction false} SumConcat(a: seq<nat>, b: seq<nat>)
    ensures Sum(a + b) == Sum(a) + Sum(b)
    decreases |b|
  {
    if b == [] {
      assert a + b == a;
    } else {
      assert (a + b)[..|a + b| - 1] == a + b[..|b| - 1];
      SumConcat(a, b[..|b| - 1]);
    }
  }

  lemma {:induction false} SumBound(units: seq<nat>, bound: nat)
    requires forall k :: 0 <= k < |units| ==> units[k] <= bound
    ensures Sum(units) <= bound * |units|
  {
    if units != [] {
      SumBound(units[..|units| - 1], bound);
    }
  }

  /** The hash of a concatenation is the sum of the hashes; the empty string hashes to 0. */
  lemma HashAdditive(a: string, b: string)
    ensures Hash(a + b) == Hash(a) + Hash(b)
    ensures Hash([]) == 0
  {
    Utf16Concat(a, b);
    SumConcat(Utf16(a), Utf16(b));
  }

  /** Every code unit is below 65536, so the hash is at most 65535 per unit of `str.length`. */
  lemma HashBound(s: string)
    ensures Hash(s) <= 0xFFFF * JsLength(s)
  {
    Utf16Bound(s);
    SumBound(Utf16(s), 0xFFFF);
  }

  lemma {:induction false} Utf16Bound(s: string)
    ensures |Utf16(s)| == JsLength(s)
    ensures forall k :: 0 <= k < |Utf16(s)| ==> Utf16(s)[k] < 0x1_0000
  {
    if s != [] {
      Utf16Bound(s[1..]);
    }
  }

  /** The notification id: the same for every run of the same plugin. */
  function NotificationId(plugin: Plugin): nat {
    Hash(plugin.category + plugin.name)
  }

  /** The id adds the hashes of the category and the label. */
  lemma NotificationIdSum(plugin: Plugin)
    ensures NotificationId(plugin) == Hash(plugin.category) + Hash(plugin.name)
  {
    HashAdditive(plugin.category, plugin.name);
  }

  // ------------------------------------------------ the notification

  datatype Urgency = Normal | Critical

  datatype Notification = Notification(summary: string, body: string, urgency: Urgency, id: nat)

  /**
   * The notification for a completed task: an error takes precedence over the
   * status; status 0 without an error is the only success.
   */
  function Notify(plugin: Plugin, action: Action, r: ExecResult): (n: Notification)
    ensures n.id == NotificationId(plugin)
    ensures n.urgency == Normal <==> r.error.None? && r.status == 0
    ensures n.summary == (if n.urgency == Normal then "Task completed!" else "Task failed!")
    ensures var prefix := plugin.name + " (" + action.caption + ")";
      && |prefix| <= |n.body| && n.body[..|prefix|] == prefix
      && (r.error.Some? ==> n.body[|prefix|..] == " failed with error: " + r.error.value)
      && (r.error.None? && r.status == 0 ==> n.body[|prefix|..] == " successfully completed.")
      && (r.error.None? && r.status != 0 ==> n.body[|prefix|..] == " failed with exit code " + IntToString(r.status))
  {
    var prefix := plugin.name + " (" + action.caption + ")";
    var id := NotificationId(plugin);
    if r.error.Some? then
      Notification("Task failed!", prefix + " failed with error: " + r.error.value, Critical, id)
    else if r.status == 0 then
      Notification("Task completed!", prefix + " successfully completed.", Normal, id)
    else
      Notification("Task failed!", prefix + " failed with exit code " + IntToString(r.status), Critical, id)
  }

  /** The exit-code message shows the status, which can be read back from it. */
  lemma ExitCodeIsReadable(plugin: Plugin, action: Action, r: ExecResult)
    requires r.error.None? && r.status > 0
    ensures var n := Notify(plugin, action, r);
      var prefix := plugin.name + " (" + action.caption + ")" + " failed with exit code ";
      && |prefix| <= |n.body| && n.body[..|prefix|] == prefix
      && var digits := n.body[|prefix|..];
      && (forall k :: 0 <= k < |digits| ==> '0' <= digits[k] <= '9')
      && DigitsValue(digits) == r.status
  {
    var n := Notify(plugin, action, r);
    var caption := plugin.name + " (" + action.caption + ")";
    var tail := " failed with exit code ";
    var digits := NatToString(r.status);
    assert n.body[|caption|..] == tail + digits;
    assert n.body == caption + tail + digits by {
      assert n.body == n.body[..|caption|] + n.body[|caption|..];
    }
    assert n.body[|caption + tail|..] == digits;
    DecimalRoundTrip(r.status);
  }

  // ------------------------------------------------ after the notification

  /** The window is closed instead when it is hidden and nothing is queued. */
  predicate CloseInstead(windowVisible: bool, queueLength: nat) {
    !windowVisible && queueLength == 0
  }

  /** What the rest of the completion handler leaves behind. */
  datatype Settled =
    | CloseWindow
    | Settle(button: Button, spinning: bool, refreshScheduled: bool)

  /**
   * The completion handler after the notification: close the hidden window
   * when the queue is empty; otherwise stop the spinner, show "Finished!" for
   * status 0 or "Error!" for anything else, and schedule the status refresh.
   */
  function AfterNotification(windowVisible: bool, queueLength: nat, b: Button, r: ExecResult): (s: Settled)
    ensures s.CloseWindow? <==> CloseInstead(windowVisible, queueLength)
    ensures s.Settle? ==> !s.spinning && s.refreshScheduled
    ensures s.Settle? ==> s.button == b.(text := if r.status == 0 then "Finished!" else "Error!")
  {
    if CloseInstead(windowVisible, queueLength) then CloseWindow
    else Settle(b.(text := if r.status == 0 then "Finished!" else "Error!"), false, true)
  }

  /** For a well-formed result, the button says "Finished!" exactly when the notification says "Task completed!". */
  lemma LabelAgreesWithSummary(plugin: Plugin, action: Action, r: ExecResult, b: Button)
    requires WellFormed(r)
    ensures var s := AfterNotification(true, 0, b, r);
      s.Settle? && (s.button.text == "Finished!" <==> Notify(plugin, action, r).summary == "Task completed!")
  {
  }

  /**
   * The queue length the callback sees is the number of requests still
   * waiting after its own; so the window is closed exactly when it is hidden
   * and the exit left the queue empty: only after the last queued task.
   */
  lemma ClosesOnlyAfterLastTask(s: QueueState, result: ExecResult, windowVisible: bool)
    requires Valid(s) && s.pending != []
    ensures |s.running| == 1
    ensures var s' := ExitStep(s, 0, result, []);
      exists e :: e in s'.log && e == Called(s.pending[0], result, |s.pending| - 1)
                && (CloseInstead(windowVisible, e.queueLength) <==> !windowVisible && s'.pending == [])
  {
    ExitKeepsValid(s, result);
    var s' := ExitStep(s, 0, result, []);
    var e := Called(s.pending[0], result, |s.pending| - 1);
    assert s'.log[|s.log|] == e;
  }
}
