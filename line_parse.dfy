/**
 * The script sanitizer `lineParse`: turns the text of a deploy request's
 * `orgInit.sh` into the ordered commands to execute, or a single error that
 * rejects the whole script.
 */
module LineParsing {
  import opened Wrappers
  import opened Text

  /**
   * What the observable behaviour leaves open, as parameters: the full set of
   * shell metacharacters refused from untrusted scripts, and whether an `sfdx`
   * command that already asks for `--json` is left alone (`jsonOnce`) or gets
   * the flag a second time.
   */
  datatype Policy = Policy(metacharacters: set<char>, jsonOnce: bool)

  /** Redirection and chaining characters: `>`, `|`, `;`, `&` and the backtick. */
  const DefaultPolicy := Policy({'>', '|', ';', '&', '`'}, true)

  const JsonFlag: string := " --json"

  const MetacharacterError: string :=
    "ERROR: Commands with metacharacters cannot be executed.  Put each command on a separate line.  Your command: "
  const UserFlagError: string :=
    "ERROR: Commands can't contain -u...you can only execute commands against the default project the deployer creates--this is a multitenant sfdx deployer.  Your command: "
  const NotSfdxError: string :=
    "ERROR: Commands must start with sfdx or be comments (security, yo!).  Your command: "

  /** A trimmed line that is neither blank nor a `#` comment. */
  predicate IsCommand(line: string) {
    line != [] && line[0] != '#'
  }

  /** The trimmed lines of a script that are commands, in source order. */
  function CommandLines(lines: seq<string>): (r: seq<string>)
    ensures |r| <= |lines|
    ensures forall k :: 0 <= k < |r| ==> IsCommand(r[k]) && Trimmed(r[k])
  {
    if lines == [] then []
    else
      var t := Trim(lines[0]);
      (if IsCommand(t) then [t] else []) + CommandLines(lines[1..])
  }

  /** The first whitespace-separated token of a trimmed line is `sfdx`. */
  predicate IsSfdx(line: string) {
    |line| >= 4 && line[..4] == "sfdx" && (|line| == 4 || IsSpace(line[4]))
  }

  predicate HasMetacharacter(p: Policy, line: string) {
    exists i | 0 <= i < |line| :: line[i] in p.metacharacters
  }

  /** `word` occurs in `line` at index `i` as a whole whitespace-separated token. */
  predicate TokenAt(line: string, word: string, i: int) {
    && 0 <= i && i + |word| <= |line|
    && line[i..i + |word|] == word
    && (i == 0 || IsSpace(line[i - 1]))
    && (i + |word| == |line| || IsSpace(line[i + |word|]))
  }

  predicate HasToken(line: string, word: string) {
    exists i | 0 <= i <= |line| :: TokenAt(line, word, i)
  }

  /** The line selects a target identity of its own with `-u`. */
  predicate HasUserFlag(line: string) {
    HasToken(line, "-u")
  }

  predicate RequestsJson(line: string) {
    HasToken(line, "--json")
  }

  /** What the policy admits from an untrusted script. */
  predicate Admissible(p: Policy, line: string) {
    IsSfdx(line) && !HasMetacharacter(p, line) && !HasUserFlag(line)
  }

  /** A command as it is handed on: `sfdx` commands are made to answer in JSON. */
  function WithJson(p: Policy, line: string): (r: string)
    ensures r == line || r == line + JsonFlag
    ensures IsSfdx(line) ==> RequestsJson(r)
    ensures IsSfdx(line) && !p.jsonOnce ==> r == line + JsonFlag
    ensures !IsSfdx(line) ==> r == line
    ensures p.jsonOnce && RequestsJson(line) ==> r == line
  {
    if IsSfdx(line) && !(p.jsonOnce && RequestsJson(line)) then
      var r := line + JsonFlag;
      assert r[|line| + 1..|line| + 7] == "--json";
      assert TokenAt(r, "--json", |line| + 1);
      r
    else line
  }

  /**
   * Why an untrusted command is refused, if it is: metacharacters are checked
   * first, then the `-u` flag, then that the command is an `sfdx` command.
   */
  function Rejection(p: Policy, line: string): (r: Option<string>)
    ensures r == None <==> Admissible(p, line)
    ensures HasMetacharacter(p, line) ==> r == Some(MetacharacterError + line)
    ensures !HasMetacharacter(p, line) && HasUserFlag(line) ==> r == Some(UserFlagError + line)
    ensures !HasMetacharacter(p, line) && !HasUserFlag(line) && !IsSfdx(line) ==> r == Some(NotSfdxError + line)
  {
    if HasMetacharacter(p, line) then Some(MetacharacterError + line)
    else if HasUserFlag(line) then Some(UserFlagError + line)
    else if !IsSfdx(line) then Some(NotSfdxError + line)
    else None
  }

  /**
   * The commands in order, each given its JSON flag; for an untrusted script,
   * the error of the first refused command instead, and no commands at all.
   */
  function Process(p: Policy, whitelisted: bool, commands: seq<string>): (r: Result<seq<string>, string>)
    ensures r.Ok? ==> |r.value| == |commands|
    ensures r.Ok? ==> forall k :: 0 <= k < |commands| ==> r.value[k] == WithJson(p, commands[k])
    ensures r.Ok? && !whitelisted ==> forall k :: 0 <= k < |commands| ==> Admissible(p, commands[k])
  {
    if commands == [] then Ok([])
    else
      var rejection := if whitelisted then None else Rejection(p, commands[0]);
      if rejection.Some? then Err(rejection.value)
      else
        match Process(p, whitelisted, commands[1..])
        case Ok(rest) => Ok([WithJson(p, commands[0])] + rest)
        case Err(e) => Err(e)
  }

  /** `lineParse`: the script text of a deploy request, and whether it is whitelisted. */
  function LineParse(p: Policy, script: string, whitelisted: bool): (r: Result<seq<string>, string>)
    ensures whitelisted ==> r.Ok?
    ensures r.Ok? ==> |r.value| == |CommandLines(SplitLines(script))|
  {
    var commands := CommandLines(SplitLines(script));
    if whitelisted then
      WhitelistedAccepted(p, commands);
      Process(p, whitelisted, commands)
    else Process(p, whitelisted, commands)
  }

  // ---------------------------------------------------------------------------
  // Blank lines and comments

  lemma {:induction false} CommandLinesAppend(a: seq<string>, b: seq<string>)
    ensures CommandLines(a + b) == CommandLines(a) + CommandLines(b)
  {
    if a == [] {
      assert a + b == b;
    } else {
      var t := Trim(a[0]);
      var head := if IsCommand(t) then [t] else [];
      assert (a + b)[0] == a[0];
      assert (a + b)[1..] == a[1..] + b;
      CommandLinesAppend(a[1..], b);
      calc {
        CommandLines(a + b);
        head + CommandLines(a[1..] + b);
        head + (CommandLines(a[1..]) + CommandLines(b));
        (head + CommandLines(a[1..])) + CommandLines(b);
      }
    }
  }

  /** Every command line of the script survives, trimmed. */
  lemma {:induction false} CommandLinesComplete(lines: seq<string>, i: nat)
    requires i < |lines| && IsCommand(Trim(lines[i]))
    ensures Trim(lines[i]) in CommandLines(lines)
  {
    if i > 0 {
      CommandLinesComplete(lines[1..], i - 1);
    }
  }

  /** A blank or comment line anywhere in a script changes nothing. */
  lemma NonCommandIgnored(before: seq<string>, line: string, after: seq<string>)
    requires !IsCommand(Trim(line))
    ensures CommandLines(before + [line] + after) == CommandLines(before + after)
  {
    var withLine := before + [line];
    CommandLinesAppend(withLine, after);
    CommandLinesAppend(before, [line]);
    CommandLinesAppend(before, after);
    assert [line][1..] == [];
    assert CommandLines([line]) == [];
    assert CommandLines(withLine) == CommandLines(before);
  }

  /** The same, for the script as text written line by line. */
  lemma ScriptNonCommandIgnored(p: Policy, whitelisted: bool, before: seq<string>, line: string, after: seq<string>)
    requires !IsCommand(Trim(line)) && |before + after| > 0
    requires LinesNoBreak(before) && NoBreak(line) && LinesNoBreak(after)
    ensures LineParse(p, JoinLines(before + [line] + after), whitelisted)
         == LineParse(p, JoinLines(before + after), whitelisted)
  {
    LinesNoBreakAppend(before, [line]);
    LinesNoBreakAppend(before + [line], after);
    LinesNoBreakAppend(before, after);
    SplitJoin(before + [line] + after);
    SplitJoin(before + after);
    NonCommandIgnored(before, line, after);
  }

  lemma WithJsonKeepsCommand(p: Policy, line: string)
    requires IsCommand(line) && Trimmed(line)
    ensures IsCommand(WithJson(p, line)) && Trimmed(WithJson(p, line))
  {
    var r := WithJson(p, line);
    if r != line {
      assert r[|r| - 1] == 'n';
    }
  }

  /** Blank lines and comments never reach the output, and every command is trimmed. */
  lemma {:induction false} OutputIsCommands(p: Policy, script: string, whitelisted: bool)
    ensures var r := LineParse(p, script, whitelisted);
      r.Ok? ==> forall k :: 0 <= k < |r.value| ==> IsCommand(r.value[k]) && Trimmed(r.value[k])
  {
    var commands := CommandLines(SplitLines(script));
    var r := LineParse(p, script, whitelisted);
    if r.Ok? {
      forall k | 0 <= k < |r.value| ensures IsCommand(r.value[k]) && Trimmed(r.value[k]) {
        WithJsonKeepsCommand(p, commands[k]);
      }
    }
  }

  // ---------------------------------------------------------------------------
  // Trust levels

  /** A whitelisted script is never refused: every command is kept, in order. */
  lemma {:induction false} WhitelistedAccepted(p: Policy, commands: seq<string>)
    ensures Process(p, true, commands).Ok?
  {
    if commands != [] {
      WhitelistedAccepted(p, commands[1..]);
    }
  }

  /** The number of commands of a whitelisted script is its number of command lines. */
  lemma WhitelistedLength(p: Policy, script: string)
    ensures LineParse(p, script, true).Ok?
    ensures |LineParse(p, script, true).value| == |CommandLines(SplitLines(script))|
  {
    WhitelistedAccepted(p, CommandLines(SplitLines(script)));
  }

  /** An untrusted script is accepted exactly when each of its commands is admissible. */
  lemma {:induction false} UntrustedAcceptedIff(p: Policy, commands: seq<string>)
    ensures Process(p, false, commands).Ok? <==> forall k :: 0 <= k < |commands| ==> Admissible(p, commands[k])
  {
    if commands != [] {
      UntrustedAcceptedIff(p, commands[1..]);
      if forall k :: 0 <= k < |commands| ==> Admissible(p, commands[k]) {
        assert forall k :: 0 <= k < |commands| - 1 ==> Admissible(p, commands[1..][k]);
      }
    }
  }

  /** The first refused command decides the error; later commands are not looked at. */
  lemma {:induction false} FirstRefusalWins(p: Policy, commands: seq<string>, i: nat)
    requires i < |commands|
    requires forall k :: 0 <= k < i ==> Admissible(p, commands[k])
    requires !Admissible(p, commands[i])
    ensures Process(p, false, commands) == Err(Rejection(p, commands[i]).value)
  {
    if i > 0 {
      assert Admissible(p, commands[0]);
      FirstRefusalWins(p, commands[1..], i - 1);
    }
  }

  /** Every error names a refused command all of whose predecessors were admissible. */
  lemma {:induction false} ErrorNamesFirstRefusal(p: Policy, commands: seq<string>)
    requires Process(p, false, commands).Err?
    ensures exists i :: (0 <= i < |commands|
      && (forall k :: 0 <= k < i ==> Admissible(p, commands[k]))
      && Rejection(p, commands[i]) == Some(Process(p, false, commands).error))
  {
    if Admissible(p, commands[0]) {
      ErrorNamesFirstRefusal(p, commands[1..]);
      var i :| 0 <= i < |commands| - 1
        && (forall k :: 0 <= k < i ==> Admissible(p, commands[1..][k]))
        && Rejection(p, commands[1..][i]) == Some(Process(p, false, commands[1..]).error);
      assert forall k :: 0 < k < i + 1 ==> Admissible(p, commands[k]) by {
        forall k | 0 < k < i + 1 ensures Admissible(p, commands[k]) {
          assert commands[k] == commands[1..][k - 1];
        }
      }
    } else {
      assert Rejection(p, commands[0]) == Some(Process(p, false, commands).error);
    }
  }

  lemma TokenAfterPrefix(line: string, word: string, i: int)
    requires TokenAt(line + JsonFlag, word, i) && i + |word| <= |line|
    requires |word| > 0 && !IsSpace(word[|word| - 1])
    ensures TokenAt(line, word, i)
  {
    var s := line + JsonFlag;
    assert s[i..i + |word|] == line[i..i + |word|];
    if i + |word| == |line| {
      assert s[i + |word|] == ' ';
    }
  }

  /** Appending the JSON flag never creates a `-u` token. */
  lemma WithJsonNoUserFlag(line: string)
    requires !HasUserFlag(line) && (line == [] || !IsSpace(line[|line| - 1]))
    ensures !HasUserFlag(line + JsonFlag)
  {
    var s := line + JsonFlag;
    if HasUserFlag(s) {
      var i :| 0 <= i <= |s| && TokenAt(s, "-u", i);
      if i + 2 <= |line| {
        TokenAfterPrefix(line, "-u", i);
      }
    }
  }

  /** An admissible command keeps its safety once the JSON flag is appended. */
  lemma WithJsonAdmissible(p: Policy, line: string)
    requires forall c :: c in JsonFlag ==> c !in p.metacharacters
    requires Admissible(p, line) && Trimmed(line)
    ensures var out := WithJson(p, line);
      IsSfdx(out) && RequestsJson(out) && !HasMetacharacter(p, out) && !HasUserFlag(out)
  {
    var out := WithJson(p, line);
    if out != line {
      assert out[..4] == line[..4];
      if |line| > 4 { assert out[4] == line[4]; } else { assert out[4] == ' '; }
      WithJsonNoUserFlag(line);
    }
  }

  /**
   * The security property of the untrusted path: every command an untrusted
   * script yields is an `sfdx` command answering in JSON, with no
   * metacharacter and no `-u`.
   */
  lemma {:induction false} UntrustedOutputSafe(p: Policy, script: string)
    requires forall c :: c in JsonFlag ==> c !in p.metacharacters
    ensures var r := LineParse(p, script, false);
      r.Ok? ==> forall k :: 0 <= k < |r.value| ==>
        IsSfdx(r.value[k]) && RequestsJson(r.value[k])
        && !HasMetacharacter(p, r.value[k]) && !HasUserFlag(r.value[k])
  {
    var commands := CommandLines(SplitLines(script));
    var r := LineParse(p, script, false);
    if r.Ok? {
      forall k | 0 <= k < |r.value|
        ensures IsSfdx(r.value[k]) && RequestsJson(r.value[k])
        ensures !HasMetacharacter(p, r.value[k]) && !HasUserFlag(r.value[k])
      {
        WithJsonAdmissible(p, commands[k]);
      }
    }
  }

  /** With `jsonOnce`, handing a command on twice is the same as once. */
  lemma WithJsonIdempotent(p: Policy, line: string)
    requires p.jsonOnce
    ensures WithJson(p, WithJson(p, line)) == WithJson(p, line)
  {
    var r := WithJson(p, line);
    if r != line {
      assert r[..4] == line[..4];
      if |line| > 4 { assert r[4] == line[4]; } else { assert r[4] == ' '; }
    }
  }
}
