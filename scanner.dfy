/**
 * The malicious-command scanner (`_scanMaliciousCommand`): the command is cut
 * into candidate statements (its `;`-separated parts, the whole command, and
 * the lines of the first shell script it names), the candidates are trimmed,
 * filtered and de-duplicated, and the first candidate that a rule's variation
 * matches is reported, searching rule by rule, variation by variation,
 * candidate by candidate.
 *
 * Regular expressions are opaque: a variation is a matcher (what `test`
 * answers) or None when `new RegExp` throws. Plugin files are a map from path
 * to contents: a missing key is a file that does not exist, None a file that
 * cannot be opened for reading and writing.
 */
module Scanner {
  import opened Wrappers
  import opened Text

  /** A compiled regular expression, seen only through `test`. */
  type Matcher = string -> bool

  /** An entry of the `malicious` configuration; `variations` is None when it is not an array. */
  datatype Rule = Rule(description: string, variations: Option<seq<Option<Matcher>>>)

  /** What the scanner can read below a plugin's directory. */
  type Files = map<string, Option<string>>

  /** `[false, null, null]` or `[true, statement, description]`. */
  datatype ScanResult = Clean | Malicious(statement: string, description: string)

  // ------------------------------------------------ script references: /\S+\.(sh|bash)/

  /** The group `(sh|bash)` matches after a dot at `k`, trying `sh` first. */
  function ExtensionAt(s: string, k: int): (ext: Option<string>)
    ensures ext.Some? ==> 0 <= k < |s| && s[k] == '.' && (ext.value == "sh" || ext.value == "bash")
    ensures ext.Some? ==> k + 1 + |ext.value| <= |s| && s[k + 1..k + 1 + |ext.value|] == ext.value
    ensures ext.Some? <==> 0 <= k < |s| && s[k] == '.' && ("sh" <= s[k + 1..] || "bash" <= s[k + 1..])
  {
    if 0 <= k < |s| && s[k] == '.' then
      if k + 3 <= |s| && s[k + 1..k + 3] == "sh" then Some("sh")
      else if k + 5 <= |s| && s[k + 1..k + 5] == "bash" then Some("bash")
      else None
    else None
  }

  predicate NoSpaceBetween(s: string, i: int, k: int)
    requires 0 <= i <= k <= |s|
  {
    forall j :: i <= j < k ==> !IsSpace(s[j])
  }

  /** The pattern matches from `i`, its `\S+` covering `s[i..k]` and its dot at `k`. */
  predicate MatchesAt(s: string, i: int, k: int) {
    0 <= i < k <= |s| && NoSpaceBetween(s, i, k) && ExtensionAt(s, k).Some?
  }

  /** Where the run of non-space characters that starts at `i` ends. */
  function RunEnd(s: string, i: nat): (e: nat)
    requires i <= |s|
    ensures i <= e <= |s| && NoSpaceBetween(s, i, e)
    ensures e == |s| || IsSpace(s[e])
    ensures forall k :: e < k <= |s| ==> !NoSpaceBetween(s, i, k)
    decreases |s| - i
  {
    if i == |s| || IsSpace(s[i]) then
      assert forall k :: i < k <= |s| ==> !NoSpaceBetween(s, i, k) by {
        forall k | i < k <= |s| ensures !NoSpaceBetween(s, i, k) {
          assert !(i <= i < k ==> !IsSpace(s[i]));
        }
      }
      i
    else
      var e := RunEnd(s, i + 1);
      assert forall k :: e < k <= |s| ==> !NoSpaceBetween(s, i, k) by {
        forall k | e < k <= |s| ensures !NoSpaceBetween(s, i, k) {
          assert !NoSpaceBetween(s, i + 1, k);
        }
      }
      e
  }

  /** The backtracking of the greedy `\S+`: the last dot in `(i, k]` that an extension follows. */
  function Backtrack(s: string, i: nat, k: int): (r: Option<nat>)
    ensures r.Some? ==> i < r.value <= k && ExtensionAt(s, r.value).Some?
    ensures forall k' :: (if r.Some? then r.value else i) < k' <= k ==> ExtensionAt(s, k').None?
    decreases k - i
  {
    if k <= i then None
    else if ExtensionAt(s, k).Some? then Some(k)
    else Backtrack(s, i, k - 1)
  }

  /** The leftmost start at or after `i` from which the pattern matches, with its (greedy) dot position. */
  function FindFrom(s: string, i: nat): (r: Option<(nat, nat)>)
    ensures r.Some? ==> i <= r.value.0 && MatchesAt(s, r.value.0, r.value.1)
    ensures r.Some? ==> forall k' :: r.value.1 < k' ==> !MatchesAt(s, r.value.0, k')
    ensures forall i', k' :: i <= i' && (r.None? || i' < r.value.0) ==> !MatchesAt(s, i', k')
    decreases |s| - i
  {
    if i >= |s| then None
    else
      var e := RunEnd(s, i);
      match Backtrack(s, i, e - 1)
      case Some(k) => Some((i, k))
      case None => FindFrom(s, i + 1)
  }

  /**
   * `command.match(/\S+\.(sh|bash)/)`: without the `g` flag the result is the
   * first match and its group, or nothing at all.
   */
  function ScriptMatch(s: string): (refs: seq<string>)
    ensures refs == [] <==> forall i, k :: !MatchesAt(s, i, k)
    ensures refs != [] ==> |refs| == 2 && (refs[1] == "sh" || refs[1] == "bash")
    ensures refs != [] ==> exists i, k :: && LeftmostGreedy(s, i, k) && ExtensionAt(s, k) == Some(refs[1])
                                         && refs[0] == s[i..k + 1 + |refs[1]|]
  {
    match FindFrom(s, 0)
    case None => []
    case Some((i, k)) =>
      var ext := ExtensionAt(s, k).value;
      assert LeftmostGreedy(s, i, k);
      [s[i..k + 1 + |ext|], ext]
  }

  /**
   * The match the regular expression engine reports: the leftmost start from
   * which the pattern matches and, from there, the greedy `\S+` that reaches
   * the last possible dot.
   */
  ghost predicate LeftmostGreedy(s: string, i: int, k: int) {
    && MatchesAt(s, i, k)
    && (forall i', k' :: 0 <= i' < i ==> !MatchesAt(s, i', k'))
    && (forall k' :: k < k' ==> !MatchesAt(s, i, k'))
  }

  /** The engine's match is determined: there is at most one leftmost-greedy match. */
  lemma LeftmostGreedyUnique(s: string, i: int, k: int, i': int, k': int)
    requires LeftmostGreedy(s, i, k) && LeftmostGreedy(s, i', k')
    ensures i == i' && k == k'
  {
  }

  /** Given the leftmost-greedy match, `match` reports exactly it and its group. */
  lemma ScriptMatchIs(s: string, i: int, k: int, ext: string)
    requires LeftmostGreedy(s, i, k) && ExtensionAt(s, k) == Some(ext)
    ensures ScriptMatch(s) == [s[i..k + 1 + |ext|], ext]
  {
    assert MatchesAt(s, i, k);
    var r := FindFrom(s, 0);
    assert r.Some?;
    var (i', k') := r.value;
    FoundIsLeftmostGreedy(s, i', k');
    LeftmostGreedyUnique(s, i, k, i', k');
    ScriptMatchOfFound(s, i', k');
  }

  lemma FoundIsLeftmostGreedy(s: string, i: nat, k: nat)
    requires FindFrom(s, 0) == Some((i, k))
    ensures LeftmostGreedy(s, i, k)
  {
  }

  lemma ScriptMatchOfFound(s: string, i: nat, k: nat)
    requires FindFrom(s, 0) == Some((i, k))
    ensures ExtensionAt(s, k).Some?
    ensures ScriptMatch(s) == [s[i..k + 1 + |ExtensionAt(s, k).value|], ExtensionAt(s, k).value]
  {
  }

  // ------------------------------------------------ candidate statements

  /** The lines of every referenced script that exists and reads, in reference order. */
  function ScriptLines(pluginPath: string, refs: seq<string>, files: Files): seq<string> {
    if refs == [] then []
    else
      var earlier := ScriptLines(pluginPath, refs[..|refs| - 1], files);
      var path := pluginPath + "/" + refs[|refs| - 1];
      if path in files && files[path].Some? then earlier + Split(files[path].value, '\n') else earlier
  }

  /** `parts` before normalisation: the `;`-separated parts, the whole command, then script lines. */
  function RawCandidates(pluginPath: string, command: string, files: Files): seq<string> {
    Split(command, ';') + [command] + ScriptLines(pluginPath, ScriptMatch(command), files)
  }

  /** `/^[^#]/.test(p) && p.length > 1`. */
  predicate Survives(p: string) {
    |p| > 0 && p[0] != '#' && JsLength(p) > 1
  }

  function Trimmed(parts: seq<string>): (t: seq<string>)
    ensures |t| == |parts| && forall k :: 0 <= k < |t| ==> t[k] == Trim(parts[k])
  {
    seq(|parts|, k requires 0 <= k < |parts| => Trim(parts[k]))
  }

  /** `s.indexOf(x)`. */
  function IndexOf(t: seq<string>, x: string): (r: int)
    ensures -1 <= r < |t|
    ensures r == -1 <==> x !in t
    ensures r >= 0 ==> t[r] == x && forall j :: 0 <= j < r ==> t[j] != x
  {
    if t == [] then -1
    else if t[0] == x then 0
    else
      var r := IndexOf(t[1..], x);
      assert t == [t[0]] + t[1..];
      if r == -1 then -1 else r + 1
  }

  /** The filter over the trimmed parts, from position `i` on. */
  function Survivors(t: seq<string>, i: nat): seq<string>
    decreases |t| - i
  {
    if i >= |t| then []
    else (if Survives(t[i]) && IndexOf(t, t[i]) == i then [t[i]] else []) + Survivors(t, i + 1)
  }

  function Normalize(parts: seq<string>): seq<string> {
    Survivors(Trimmed(parts), 0)
  }

  function Candidates(pluginPath: string, command: string, files: Files): seq<string> {
    Normalize(RawCandidates(pluginPath, command, files))
  }

  /** Every survivor first occurs at or after `i` and passes the filter. */
  ghost predicate FromAndSurviving(t: seq<string>, r: seq<string>, i: int) {
    forall a :: 0 <= a < |r| ==> i <= IndexOf(t, r[a]) && Survives(r[a])
  }

  /** The survivors appear in the order of their first occurrences. */
  ghost predicate InFirstOccurrenceOrder(t: seq<string>, r: seq<string>) {
    forall a, b :: 0 <= a < b < |r| ==> IndexOf(t, r[a]) < IndexOf(t, r[b])
  }

  lemma {:induction false} SurvivorsFrom(t: seq<string>, i: nat)
    ensures FromAndSurviving(t, Survivors(t, i), i)
    decreases |t| - i
  {
    if i < |t| {
      SurvivorsFrom(t, i + 1);
      var rest := Survivors(t, i + 1);
      var r := Survivors(t, i);
      if Survives(t[i]) && IndexOf(t, t[i]) == i {
        assert r == [t[i]] + rest;
        forall a | 0 <= a < |r| ensures i <= IndexOf(t, r[a]) && Survives(r[a]) {
          if a > 0 { assert r[a] == rest[a - 1]; }
        }
      } else {
        assert r == rest;
      }
    }
  }

  lemma {:induction false} SurvivorsOrdered(t: seq<string>, i: nat)
    ensures InFirstOccurrenceOrder(t, Survivors(t, i))
    decreases |t| - i
  {
    if i < |t| {
      SurvivorsOrdered(t, i + 1);
      SurvivorsFrom(t, i + 1);
      var rest := Survivors(t, i + 1);
      if Survives(t[i]) && IndexOf(t, t[i]) == i {
        assert Survivors(t, i) == [t[i]] + rest;
        ConsOrdered(t, t[i], rest, i);
      } else {
        assert Survivors(t, i) == rest;
      }
    }
  }

  lemma ConsOrdered(t: seq<string>, x: string, rest: seq<string>, i: nat)
    requires IndexOf(t, x) == i
    requires forall a :: 0 <= a < |rest| ==> i < IndexOf(t, rest[a])
    requires InFirstOccurrenceOrder(t, rest)
    ensures InFirstOccurrenceOrder(t, [x] + rest)
  {
    ConsIncreasing(s => IndexOf(t, s), x, rest, i);
  }

  /** Putting an element of position `i` before elements of later, increasing positions keeps the positions increasing. */
  lemma ConsIncreasing(pos: string -> int, x: string, rest: seq<string>, i: int)
    requires pos(x) == i
    requires forall a :: 0 <= a < |rest| ==> i < pos(rest[a])
    requires forall a, b :: 0 <= a < b < |rest| ==> pos(rest[a]) < pos(rest[b])
    ensures forall a, b :: 0 <= a < b < |[x] + rest| ==> pos(([x] + rest)[a]) < pos(([x] + rest)[b])
  {
    var r := [x] + rest;
    forall a, b | 0 <= a < b < |r| ensures pos(r[a]) < pos(r[b]) {
      assert r[b] == rest[b - 1];
      if a == 0 {
        assert r[a] == x;
      } else {
        assert r[a] == rest[a - 1];
      }
    }
  }

  lemma {:induction false} SurvivorsHas(t: seq<string>, i: nat, j: nat)
    requires i <= j < |t| && Survives(t[j]) && IndexOf(t, t[j]) == j
    ensures t[j] in Survivors(t, i)
    decreases j - i
  {
    var head := if Survives(t[i]) && IndexOf(t, t[i]) == i then [t[i]] else [];
    assert Survivors(t, i) == head + Survivors(t, i + 1);
    if j == i {
      assert Survivors(t, i)[0] == t[j];
    } else {
      SurvivorsHas(t, i + 1, j);
    }
  }

  lemma SurvivorsComplete(t: seq<string>, i: nat)
    ensures forall j :: i <= j < |t| && Survives(t[j]) && IndexOf(t, t[j]) == j ==> t[j] in Survivors(t, i)
  {
    forall j | i <= j < |t| && Survives(t[j]) && IndexOf(t, t[j]) == j ensures t[j] in Survivors(t, i) {
      SurvivorsHas(t, i, j);
    }
  }

  /**
   * The candidates are exactly the trimmed parts that survive the filter,
   * each once, in the order of their first occurrence.
   */
  lemma NormalizeSpec(parts: seq<string>)
    ensures var t, r := Trimmed(parts), Normalize(parts);
      && (forall x :: x in r <==> x in t && Survives(x))
      && (forall a, b :: 0 <= a < b < |r| ==> IndexOf(t, r[a]) < IndexOf(t, r[b]))
      && (forall a, b :: 0 <= a < b < |r| ==> r[a] != r[b])
  {
    var t, r := Trimmed(parts), Normalize(parts);
    SurvivorsFrom(t, 0);
    SurvivorsOrdered(t, 0);
    SurvivorsComplete(t, 0);
    forall x | x in t && Survives(x) ensures x in r {
      var j := IndexOf(t, x);
      assert t[j] == x;
    }
    forall x | x in r ensures x in t && Survives(x) {
      var a :| 0 <= a < |r| && r[a] == x;
      assert 0 <= IndexOf(t, r[a]);
    }
    forall a, b | 0 <= a < b < |r| ensures r[a] != r[b] {
      assert IndexOf(t, r[a]) < IndexOf(t, r[b]);
    }
  }

  /** Every `;`-part and the whole command, once trimmed, is a candidate unless the filter drops it. */
  lemma CommandPartsAreCandidates(pluginPath: string, command: string, files: Files)
    ensures forall k :: 0 <= k < |Split(command, ';')| && Survives(Trim(Split(command, ';')[k])) ==>
              Trim(Split(command, ';')[k]) in Candidates(pluginPath, command, files)
    ensures Survives(Trim(command)) ==> Trim(command) in Candidates(pluginPath, command, files)
  {
    var raw := RawCandidates(pluginPath, command, files);
    var parts := Split(command, ';');
    forall k | 0 <= k < |parts| && Survives(Trim(parts[k]))
      ensures Trim(parts[k]) in Candidates(pluginPath, command, files)
    {
      assert raw[k] == parts[k];
      NormalizeKeeps(raw, k);
    }
    assert raw[|parts|] == command;
    if Survives(Trim(command)) {
      NormalizeKeeps(raw, |parts|);
    }
  }

  /** The paths the scanner looks at: the match and its group, below the plugin's directory. */
  function ScriptPaths(pluginPath: string, command: string): set<string> {
    set r | r in ScriptMatch(command) :: pluginPath + "/" + r
  }

  lemma {:induction false} ScriptLinesFrame(pluginPath: string, refs: seq<string>, f1: Files, f2: Files)
    requires forall r :: r in refs ==> var p := pluginPath + "/" + r; (p in f1 <==> p in f2) && (p in f1 ==> f1[p] == f2[p])
    ensures ScriptLines(pluginPath, refs, f1) == ScriptLines(pluginPath, refs, f2)
  {
    if refs != [] {
      ScriptLinesFrame(pluginPath, refs[..|refs| - 1], f1, f2);
      assert refs[|refs| - 1] in refs;
    }
  }

  /** A part whose trimmed text survives the filter is among the candidates. */
  lemma NormalizeKeeps(raw: seq<string>, idx: int)
    requires 0 <= idx < |raw| && Survives(Trim(raw[idx]))
    ensures Trim(raw[idx]) in Normalize(raw)
  {
    NormalizeSpec(raw);
    assert Trimmed(raw)[idx] == Trim(raw[idx]);
  }

  /** The lines of the first `n` references come first among the lines of all of them. */
  lemma {:induction false} ScriptLinesPrefix(pluginPath: string, refs: seq<string>, files: Files, n: nat)
    requires n <= |refs|
    ensures |ScriptLines(pluginPath, refs[..n], files)| <= |ScriptLines(pluginPath, refs, files)|
    ensures ScriptLines(pluginPath, refs, files)[..|ScriptLines(pluginPath, refs[..n], files)|]
            == ScriptLines(pluginPath, refs[..n], files)
  {
    if n < |refs| {
      ScriptLinesPrefix(pluginPath, refs[..|refs| - 1], files, n);
      assert refs[..|refs| - 1][..n] == refs[..n];
    } else {
      assert refs[..n] == refs;
    }
  }

  /** The lines of the first referenced script come first among the script lines. */
  lemma FirstScriptLines(pluginPath: string, refs: seq<string>, files: Files)
    requires refs != []
    requires var p := pluginPath + "/" + refs[0]; p in files && files[p].Some?
    ensures var lines := Split(files[pluginPath + "/" + refs[0]].value, '\n');
      |lines| <= |ScriptLines(pluginPath, refs, files)| && ScriptLines(pluginPath, refs, files)[..|lines|] == lines
  {
    assert refs[..1][..0] == [];
    assert ScriptLines(pluginPath, refs[..1], files) == Split(files[pluginPath + "/" + refs[0]].value, '\n');
    ScriptLinesPrefix(pluginPath, refs, files, 1);
  }

  /** Every script line is one of the raw candidates, after the parts and the whole command. */
  lemma ScriptLineIsRaw(pluginPath: string, command: string, files: Files, j: nat)
    requires j < |ScriptLines(pluginPath, ScriptMatch(command), files)|
    ensures var raw := RawCandidates(pluginPath, command, files);
      |Split(command, ';')| + 1 + j < |raw|
      && raw[|Split(command, ';')| + 1 + j] == ScriptLines(pluginPath, ScriptMatch(command), files)[j]
  {
  }

  /**
   * A line of the first referenced script is a candidate when the file exists,
   * reads, and the trimmed line survives the filter.
   */
  lemma ReferencedScriptLineIsCandidate(pluginPath: string, command: string, files: Files, line: string)
    requires ScriptMatch(command) != []
    requires var p := pluginPath + "/" + ScriptMatch(command)[0];
      p in files && files[p].Some? && line in Split(files[p].value, '\n')
    requires Survives(Trim(line))
    ensures Trim(line) in Candidates(pluginPath, command, files)
  {
    var refs := ScriptMatch(command);
    var lines := Split(files[pluginPath + "/" + refs[0]].value, '\n');
    FirstScriptLines(pluginPath, refs, files);
    var j :| 0 <= j < |lines| && lines[j] == line;
    assert ScriptLines(pluginPath, refs, files)[j] == line;
    ScriptLineIsRaw(pluginPath, command, files, j);
    NormalizeKeeps(RawCandidates(pluginPath, command, files), |Split(command, ';')| + 1 + j);
  }

  /**
   * The second lookup: a line of the script named by the group ("sh" or
   * "bash", below the plugin's directory) is a candidate when that file
   * exists, reads, and the trimmed line survives the filter.
   */
  lemma GroupScriptLineIsCandidate(pluginPath: string, command: string, files: Files, line: string)
    requires ScriptMatch(command) != []
    requires var p := pluginPath + "/" + ScriptMatch(command)[1];
      p in files && files[p].Some? && line in Split(files[p].value, '\n')
    requires Survives(Trim(line))
    ensures Trim(line) in Candidates(pluginPath, command, files)
  {
    var refs := ScriptMatch(command);
    var lines := Split(files[pluginPath + "/" + refs[1]].value, '\n');
    var first := ScriptLines(pluginPath, refs[..1], files);
    assert refs[..|refs| - 1] == refs[..1];
    assert ScriptLines(pluginPath, refs, files) == first + lines;
    var j :| 0 <= j < |lines| && lines[j] == line;
    assert ScriptLines(pluginPath, refs, files)[|first| + j] == line;
    ScriptLineIsRaw(pluginPath, command, files, |first| + j);
    NormalizeKeeps(RawCandidates(pluginPath, command, files), |Split(command, ';')| + 1 + |first| + j);
  }

  /** The scan reads no file but the two the script reference names. */
  lemma ScanReadsOnlyReferencedScripts(pluginPath: string, command: string, f1: Files, f2: Files)
    requires forall p :: p in ScriptPaths(pluginPath, command) ==> (p in f1 <==> p in f2) && (p in f1 ==> f1[p] == f2[p])
    ensures Candidates(pluginPath, command, f1) == Candidates(pluginPath, command, f2)
  {
    var refs := ScriptMatch(command);
    forall r | r in refs ensures var p := pluginPath + "/" + r; (p in f1 <==> p in f2) && (p in f1 ==> f1[p] == f2[p]) {
      assert pluginPath + "/" + r in ScriptPaths(pluginPath, command);
    }
    ScriptLinesFrame(pluginPath, refs, f1, f2);
  }

  // ------------------------------------------------ matching rules against candidates

  function RuleSet(malicious: Option<seq<Rule>>): seq<Rule> {
    malicious.GetOr([])
  }

  /** The first candidate from position `c` on that `m` accepts. */
  function FirstMatchFrom(m: Matcher, cands: seq<string>, c: nat): Option<string>
    decreases |cands| - c
  {
    if c >= |cands| then None
    else if m(cands[c]) then Some(cands[c])
    else FirstMatchFrom(m, cands, c + 1)
  }

  /** The first hit of the variations from position `v` on; variations that do not compile are skipped. */
  function VariationsFrom(vs: seq<Option<Matcher>>, cands: seq<string>, v: nat): Option<string>
    decreases |vs| - v
  {
    if v >= |vs| then None
    else match vs[v]
      case None => VariationsFrom(vs, cands, v + 1)
      case Some(m) =>
        var hit := FirstMatchFrom(m, cands, 0);
        if hit.Some? then hit else VariationsFrom(vs, cands, v + 1)
  }

  function RuleHit(rule: Rule, cands: seq<string>): Option<string> {
    match rule.variations
    case None => None
    case Some(vs) => VariationsFrom(vs, cands, 0)
  }

  /** The first rule from position `r` on that one of the candidates triggers. */
  function FirstHitFrom(rules: seq<Rule>, cands: seq<string>, r: nat): ScanResult
    decreases |rules| - r
  {
    if r >= |rules| then Clean
    else
      var hit := RuleHit(rules[r], cands);
      if hit.Some? then Malicious(hit.value, rules[r].description) else FirstHitFrom(rules, cands, r + 1)
  }

  /** The model of `_scanMaliciousCommand(plugin, command)` with `this._config.malicious`. */
  function Scan(malicious: Option<seq<Rule>>, pluginPath: string, command: string, files: Files): ScanResult {
    FirstHitFrom(RuleSet(malicious), Candidates(pluginPath, command, files), 0)
  }

  /** Variation `vi` of rule `ri` compiles and accepts candidate `ci`. */
  predicate Hit(rules: seq<Rule>, cands: seq<string>, ri: int, vi: int, ci: int) {
    && 0 <= ri < |rules| && rules[ri].variations.Some?
    && 0 <= vi < |rules[ri].variations.value| && rules[ri].variations.value[vi].Some?
    && 0 <= ci < |cands| && rules[ri].variations.value[vi].value(cands[ci])
  }

  /** Search order: rule first, then variation, then candidate. */
  predicate Before(ri: int, vi: int, ci: int, rj: int, vj: int, cj: int) {
    ri < rj || (ri == rj && (vi < vj || (vi == vj && ci < cj)))
  }

  lemma {:induction false} FirstMatchFromSpec(m: Matcher, cands: seq<string>, c: nat)
    ensures FirstMatchFrom(m, cands, c).None? <==> forall ci :: c <= ci < |cands| ==> !m(cands[ci])
    ensures FirstMatchFrom(m, cands, c).Some? ==>
      exists ci :: c <= ci < |cands| && m(cands[ci]) && FirstMatchFrom(m, cands, c).value == cands[ci]
                   && forall cj :: c <= cj < ci ==> !m(cands[cj])
    decreases |cands| - c
  {
    if c < |cands| && !m(cands[c]) {
      FirstMatchFromSpec(m, cands, c + 1);
    }
  }

  predicate VarHit(vs: seq<Option<Matcher>>, cands: seq<string>, vi: int, ci: int) {
    0 <= vi < |vs| && vs[vi].Some? && 0 <= ci < |cands| && vs[vi].value(cands[ci])
  }

  lemma {:induction false} VariationsFromSpec(vs: seq<Option<Matcher>>, cands: seq<string>, v: nat)
    ensures VariationsFrom(vs, cands, v).None? <==> forall vi, ci :: v <= vi ==> !VarHit(vs, cands, vi, ci)
    ensures VariationsFrom(vs, cands, v).Some? ==>
      exists vi, ci :: v <= vi && VarHit(vs, cands, vi, ci) && VariationsFrom(vs, cands, v).value == cands[ci]
                       && forall vj, cj :: v <= vj && (vj < vi || (vj == vi && cj < ci)) ==> !VarHit(vs, cands, vj, cj)
    decreases |vs| - v
  {
    if v < |vs| {
      VariationsFromSpec(vs, cands, v + 1);
      match vs[v]
      case None =>
      case Some(m) =>
        FirstMatchFromSpec(m, cands, 0);
        if FirstMatchFrom(m, cands, 0).Some? {
          var ci :| 0 <= ci < |cands| && m(cands[ci]) && FirstMatchFrom(m, cands, 0).value == cands[ci]
                    && forall cj :: 0 <= cj < ci ==> !m(cands[cj]);
          assert VarHit(vs, cands, v, ci);
        }
    }
  }

  lemma {:induction false} FirstHitFromSpec(rules: seq<Rule>, cands: seq<string>, r: nat)
    ensures FirstHitFrom(rules, cands, r).Clean? <==> forall ri, vi, ci :: r <= ri ==> !Hit(rules, cands, ri, vi, ci)
    ensures FirstHitFrom(rules, cands, r).Malicious? ==>
      exists ri, vi, ci :: && r <= ri && Hit(rules, cands, ri, vi, ci)
                           && FirstHitFrom(rules, cands, r) == Malicious(cands[ci], rules[ri].description)
                           && forall rj, vj, cj :: r <= rj && Before(rj, vj, cj, ri, vi, ci) ==> !Hit(rules, cands, rj, vj, cj)
    decreases |rules| - r
  {
    if r < |rules| {
      FirstHitFromSpec(rules, cands, r + 1);
      var rule := rules[r];
      match rule.variations
      case None =>
      case Some(vs) =>
        VariationsFromSpec(vs, cands, 0);
        if VariationsFrom(vs, cands, 0).Some? {
          var vi, ci :| 0 <= vi && VarHit(vs, cands, vi, ci) && VariationsFrom(vs, cands, 0).value == cands[ci]
                        && forall vj, cj :: 0 <= vj && (vj < vi || (vj == vi && cj < ci)) ==> !VarHit(vs, cands, vj, cj);
          assert Hit(rules, cands, r, vi, ci);
          forall rj, vj, cj | r <= rj && Before(rj, vj, cj, r, vi, ci) ensures !Hit(rules, cands, rj, vj, cj) {
            if rj == r && Hit(rules, cands, rj, vj, cj) {
              assert VarHit(vs, cands, vj, cj);
            }
          }
        } else {
          forall vi, ci ensures !Hit(rules, cands, r, vi, ci) {
            if Hit(rules, cands, r, vi, ci) { assert VarHit(vs, cands, vi, ci); }
          }
        }
    }
  }

  /**
   * The scan reports the first hit in search order: rule, then variation,
   * then candidate; it is clean exactly when no compiled variation of any
   * rule accepts any candidate.
   */
  lemma ScanReportsFirstHit(malicious: Option<seq<Rule>>, pluginPath: string, command: string, files: Files)
    ensures var rules, cands := RuleSet(malicious), Candidates(pluginPath, command, files);
      && (Scan(malicious, pluginPath, command, files).Clean? <==> forall ri, vi, ci :: !Hit(rules, cands, ri, vi, ci))
      && (Scan(malicious, pluginPath, command, files).Malicious? ==>
           exists ri, vi, ci :: && Hit(rules, cands, ri, vi, ci)
                                && Scan(malicious, pluginPath, command, files) == Malicious(cands[ci], rules[ri].description)
                                && forall rj, vj, cj :: Before(rj, vj, cj, ri, vi, ci) ==> !Hit(rules, cands, rj, vj, cj))
  {
    var rules, cands := RuleSet(malicious), Candidates(pluginPath, command, files);
    FirstHitFromSpec(rules, cands, 0);
    forall ri, vi, ci | Hit(rules, cands, ri, vi, ci) ensures 0 <= ri { }
  }

  /**
   * A rule whose one compiled variation accepts a line of the referenced script,
   * and nothing else among the candidates, is reported with that line, although
   * the line is not in the command.
   */
  lemma ScriptLineIsReported(pluginPath: string, command: string, files: Files, line: string,
                             description: string, m: Matcher)
    requires ScriptMatch(command) != []
    requires var p := pluginPath + "/" + ScriptMatch(command)[0];
      p in files && files[p].Some? && line in Split(files[p].value, '\n')
    requires Survives(Trim(line)) && m(Trim(line))
    requires forall c :: c in Candidates(pluginPath, command, files) && c != Trim(line) ==> !m(c)
    ensures Scan(Some([Rule(description, Some([Some(m)]))]), pluginPath, command, files) == Malicious(Trim(line), description)
  {
    var malicious := Some([Rule(description, Some([Some(m)]))]);
    var cands := Candidates(pluginPath, command, files);
    ReferencedScriptLineIsCandidate(pluginPath, command, files, line);
    var ci :| 0 <= ci < |cands| && cands[ci] == Trim(line);
    assert Hit(RuleSet(malicious), cands, 0, 0, ci);
    ScanReportsFirstHit(malicious, pluginPath, command, files);
  }

  // ------------------------------------------------ the scanner itself

  /** `_scanMaliciousCommand`: build the candidates, then search the rules. */
  method ScanMaliciousCommand(malicious: Option<seq<Rule>>, pluginPath: string, command: string, files: Files)
    returns (r: ScanResult)
    ensures r == Scan(malicious, pluginPath, command, files)
  {
    var mal := if malicious.Some? then malicious.value else [];
    var parts := CollectCandidates(pluginPath, command, files);
    r := SearchRules(mal, parts);
  }

  /** The first half of the scan: the parts, the whole command, the script lines, normalised. */
  method CollectCandidates(pluginPath: string, command: string, files: Files) returns (parts: seq<string>)
    ensures parts == Candidates(pluginPath, command, files)
  {
    parts := Split(command, ';');
    parts := parts + [command];
    var scripts := ScriptMatch(command);
    parts := PushScriptLines(parts, pluginPath, scripts, files);
    parts := Normalize(parts);
  }

  /** Each referenced script that exists and reads contributes its lines, in reference order. */
  method PushScriptLines(parts0: seq<string>, pluginPath: string, scripts: seq<string>, files: Files)
    returns (parts: seq<string>)
    ensures parts == parts0 + ScriptLines(pluginPath, scripts, files)
  {
    parts := parts0;
    for n := 0 to |scripts|
      invariant parts == parts0 + ScriptLines(pluginPath, scripts[..n], files)
    {
      assert scripts[..n + 1][..n] == scripts[..n];
      var file := pluginPath + "/" + scripts[n];
      if file in files {
        match files[file]
        case None =>
          // reading failed: the script is skipped
        case Some(content) =>
          parts := parts + Split(content, '\n');
      }
    }
    assert scripts[..|scripts|] == scripts;
  }

  /** The second half: rule by rule, variation by variation, candidate by candidate. */
  method SearchRules(mal: seq<Rule>, parts: seq<string>) returns (r: ScanResult)
    ensures r == FirstHitFrom(mal, parts, 0)
  {
    for ri := 0 to |mal|
      invariant FirstHitFrom(mal, parts, 0) == FirstHitFrom(mal, parts, ri)
    {
      var item := mal[ri];
      if item.variations.Some? {
        var vs := item.variations.value;
        for vi := 0 to |vs|
          invariant VariationsFrom(vs, parts, 0) == VariationsFrom(vs, parts, vi)
        {
          if vs[vi].None? {
            // the pattern does not compile: skip it
            continue;
          }
          var reg := vs[vi].value;
          for ci := 0 to |parts|
            invariant FirstMatchFrom(reg, parts, 0) == FirstMatchFrom(reg, parts, ci)
          {
            if reg(parts[ci]) {
              r := Malicious(parts[ci], item.description);
              return;
            }
          }
        }
      }
    }
    r := Clean;
  }
}
