/**
 * The unit tests of `lineParse` (test/unitTests/lineParse.test.ts), one lemma
 * per test. The whitelisted tests hold for every policy; the others for every
 * policy in which `>` is a metacharacter and no character of an accepted line,
 * or of a line refused for another reason, is one.
 */
module LineParseCases {
  import opened Wrappers
  import opened Text
  import opened LineParsing

  /**
   * The characters the tests show are not metacharacters, under the model's
   * check order: every character of a non-whitelisted line that is accepted
   * (lineParse.test.ts:149-150) or refused for a reason the model checks
   * after metacharacters (:131, :140).
   */
  const SeenPlainChars: set<char> := {
    'a', 'c', 'd', 'e', 'f', 'g', 'h', 'k', 'l', 'n', 'o', 'p', 'r', 's', 'u', 'w', 'x', 'y',
    ' ', '"', ':', '-'
  }

  predicate SeenPlain(c: char) {
    c in SeenPlainChars
  }

  /** The policies the tests admit: `>` is a metacharacter and no character seen in a plain line is one. */
  predicate PinnedPolicy(p: Policy) {
    && '>' in p.metacharacters
    && forall c :: c in p.metacharacters ==> !SeenPlain(c)
  }

  /** Indentation of the template-literal lines in the tests. */
  const Indent: string := "      "

  const Echo: string := "echo \"hello world\""
  const EchoComment: string := "# says hello world"

  lemma IndentedTrim(core: string)
    requires Trimmed(core)
    ensures Trim(Indent + core) == core
  {
    TrimPadded(Indent, core, []);
    assert Indent + core + [] == Indent + core;
  }

  /** A line made of characters the tests show are plain holds no metacharacter. */
  lemma PlainLine(p: Policy, line: string)
    requires PinnedPolicy(p)
    requires forall i :: 0 <= i < |line| ==> SeenPlain(line[i])
    ensures !HasMetacharacter(p, line)
  {
  }

  /** A line without a dash holds neither `-u` nor `--json`. */
  lemma NoDash(line: string, word: string)
    requires |word| > 0 && word[0] == '-'
    requires forall i :: 0 <= i < |line| ==> line[i] != '-'
    ensures !HasToken(line, word)
  {
  }

  lemma EchoIsPlain(p: Policy)
    ensures !IsSfdx(Echo) && WithJson(p, Echo) == Echo && Trimmed(Echo) && IsCommand(Echo)
  {
    assert Echo[..4] == "echo";
  }

  /** A script written line by line is parsed from its command lines. */
  lemma ParseLines(p: Policy, lines: seq<string>, whitelisted: bool)
    requires |lines| > 0 && LinesNoBreak(lines)
    ensures LineParse(p, JoinLines(lines), whitelisted) == Process(p, whitelisted, CommandLines(lines))
  {
    SplitJoin(lines);
  }

  lemma JoinTwo(a: string, b: string)
    ensures JoinLines([a, b]) == a + "\n" + b
  {
    assert [a, b][1..] == [b];
  }

  lemma JoinThree(a: string, b: string, c: string)
    ensures JoinLines([a, b, c]) == a + "\n" + b + "\n" + c
  {
    assert [a, b, c][1..] == [b, c];
    JoinTwo(b, c);
    assert a + "\n" + (b + "\n" + c) == a + "\n" + b + "\n" + c;
  }

  /** The scripts of the tests that open with an empty line, as written line by line. */
  lemma JoinIndented(second: string, third: string)
    ensures JoinLines(["", Indent + second, Indent + third]) == "\n" + (Indent + second) + "\n" + (Indent + third)
  {
    JoinThree("", Indent + second, Indent + third);
    assert "" + "\n" == "\n";
  }

  lemma JoinFour(a: string, b: string, c: string, d: string)
    ensures JoinLines([a, b, c, d]) == a + "\n" + b + "\n" + c + "\n" + d
  {
    assert [a, b, c, d][1..] == [b, c, d];
    JoinThree(b, c, d);
    assert a + "\n" + (b + "\n" + c + "\n" + d) == a + "\n" + b + "\n" + c + "\n" + d;
  }

  lemma CommandLinesCons(line: string, rest: seq<string>)
    ensures CommandLines([line] + rest)
         == (if IsCommand(Trim(line)) then [Trim(line)] else []) + CommandLines(rest)
  {
    assert ([line] + rest)[1..] == rest;
  }

  lemma ProcessOne(p: Policy, whitelisted: bool, line: string)
    ensures Process(p, whitelisted, [line])
         == if !whitelisted && !Admissible(p, line) then Err(Rejection(p, line).value)
            else Ok([WithJson(p, line)])
  {
    assert [line][1..] == [];
    assert [WithJson(p, line)] + [] == [WithJson(p, line)];
  }

  // lineParse.test.ts:50-58
  lemma ReturnsBasicOneUntouched(p: Policy)
    ensures LineParse(p, Echo, true) == Ok([Echo])
  {
    SplitJoin([Echo]);
    assert SplitLines(Echo) == [Echo];
    EchoIsPlain(p);
    assert Trim(Echo) == Echo;
    assert [Echo][1..] == [];
    assert CommandLines([Echo]) == [Echo];
    assert Process(p, true, [Echo]) == Ok([WithJson(p, Echo)] + []);
  }

  lemma CommandLinesIndented(core: string, rest: seq<string>)
    requires Trimmed(core)
    ensures CommandLines([Indent + core] + rest) == (if IsCommand(core) then [core] else []) + CommandLines(rest)
  {
    IndentedTrim(core);
    CommandLinesCons(Indent + core, rest);
  }

  lemma CommandLinesThree(first: string, second: string, third: string)
    requires !IsCommand(Trim(first)) && Trimmed(second) && Trimmed(third)
    ensures CommandLines([first, Indent + second, Indent + third])
         == (if IsCommand(second) then [second] else []) + (if IsCommand(third) then [third] else [])
  {
    var a, b := Indent + second, Indent + third;
    var last := if IsCommand(third) then [third] else [];
    CommandLinesIndented(third, []);
    assert [b] + [] == [b] && last + [] == last;
    CommandLinesIndented(second, [b]);
    assert [a] + [b] == [a, b];
    CommandLinesCons(first, [a, b]);
    assert [first] + [a, b] == [first, a, b];
  }

  lemma IndentedNoBreak(first: string, second: string, third: string)
    requires NoBreak(first) && NoBreak(second) && NoBreak(third)
    ensures LinesNoBreak([first, Indent + second, Indent + third])
  {
    var lines := [first, Indent + second, Indent + third];
    assert NoBreak(Indent);
    NoBreakAppend(Indent, second);
    NoBreakAppend(Indent, third);
    forall k | 0 <= k < 3 ensures NoBreak(lines[k]) {
      if k == 0 { assert lines[k] == first; }
      else if k == 1 { assert lines[k] == Indent + second; }
      else { assert lines[k] == Indent + third; }
    }
  }

  /** Parsing a script of three lines whose last two are indented as in the tests. */
  lemma ThreeLines(p: Policy, whitelisted: bool, first: string, second: string, third: string)
    requires NoBreak(first) && NoBreak(second) && NoBreak(third)
    requires !IsCommand(Trim(first)) && Trimmed(second) && Trimmed(third)
    ensures LineParse(p, JoinLines([first, Indent + second, Indent + third]), whitelisted)
         == Process(p, whitelisted, (if IsCommand(second) then [second] else []) + (if IsCommand(third) then [third] else []))
  {
    IndentedNoBreak(first, second, third);
    ParseLines(p, [first, Indent + second, Indent + third], whitelisted);
    CommandLinesThree(first, second, third);
  }

  lemma ProcessTwo(p: Policy, whitelisted: bool, first: string, second: string)
    requires whitelisted || (Admissible(p, first) && Admissible(p, second))
    ensures Process(p, whitelisted, [first, second]) == Ok([WithJson(p, first), WithJson(p, second)])
  {
    assert [first, second][1..] == [second];
    ProcessOne(p, whitelisted, second);
    assert [first, second] == [first] + [second];
    assert [WithJson(p, first)] + [WithJson(p, second)] == [WithJson(p, first), WithJson(p, second)];
  }

  /** test/unitTests/lineParse.test.ts:62-64, in the test's indentation. */
  const CommentScript: string := "\n" + (Indent + Echo) + "\n" + (Indent + EchoComment)

  // lineParse.test.ts:60-70
  lemma RemovesComments(p: Policy)
    ensures LineParse(p, CommentScript, true) == Ok([Echo])
  {
    EchoIsPlain(p);
    JoinIndented(Echo, EchoComment);
    ThreeLines(p, true, "", Echo, EchoComment);
    assert ([Echo] + []) == [Echo];
    ProcessOne(p, true, Echo);
  }

  /** test/unitTests/lineParse.test.ts:74-77: two empty lines before an indented comment. */
  const EmptyLinesScript: string := Echo + "\n" + "" + "\n" + "" + "\n" + (Indent + EchoComment)

  /** A command, two empty lines and an indented comment, as the empty-lines test writes them. */
  lemma CommandThenBlanks(p: Policy, whitelisted: bool, first: string, last: string)
    requires NoBreak(first) && Trimmed(first) && IsCommand(first)
    requires NoBreak(last) && Trimmed(last) && !IsCommand(last)
    ensures LineParse(p, first + "\n" + "" + "\n" + "" + "\n" + (Indent + last), whitelisted)
         == Process(p, whitelisted, [first])
  {
    var lines := [first, "", "", Indent + last];
    JoinFour(lines[0], lines[1], lines[2], lines[3]);
    assert LinesNoBreak(lines) by {
      assert NoBreak(Indent);
      NoBreakAppend(Indent, last);
    }
    ParseLines(p, lines, whitelisted);
    assert CommandLines(lines) == [first] by {
      IndentedTrim(last);
      TrimPadded([], first, []);
      assert [] + first + [] == first;
      assert Trim("") == "";
      CommandLinesCons(lines[3], []);
      CommandLinesCons(lines[2], lines[3..]);
      CommandLinesCons(lines[1], lines[2..]);
      CommandLinesCons(lines[0], lines[1..]);
    }
  }

  lemma EchoLines()
    ensures NoBreak(Echo) && NoBreak(EchoComment)
    ensures Trimmed(EchoComment) && !IsCommand(EchoComment)
  {
    assert EchoComment[0] == '#' && EchoComment[|EchoComment| - 1] == 'd';
  }

  // lineParse.test.ts:72-83
  lemma RemovesEmptyLines(p: Policy)
    ensures LineParse(p, EmptyLinesScript, true) == Ok([Echo])
  {
    EchoIsPlain(p);
    EchoLines();
    CommandThenBlanks(p, true, Echo, EchoComment);
    ProcessOne(p, true, Echo);
  }

  /** A script of an empty line and two indented commands, as three of the tests write it. */
  lemma IndentedPair(p: Policy, whitelisted: bool, second: string, third: string)
    requires NoBreak(second) && NoBreak(third)
    requires Trimmed(second) && Trimmed(third) && IsCommand(second) && IsCommand(third)
    requires whitelisted || (Admissible(p, second) && Admissible(p, third))
    ensures LineParse(p, "\n" + (Indent + second) + "\n" + (Indent + third), whitelisted)
         == Ok([WithJson(p, second), WithJson(p, third)])
  {
    var script := "\n" + (Indent + second) + "\n" + (Indent + third);
    assert LineParse(p, script, whitelisted) == Process(p, whitelisted, [second, third]) by {
      JoinIndented(second, third);
      assert Trim("") == "";
      ThreeLines(p, whitelisted, "", second, third);
      assert [second] + [third] == [second, third];
    }
    ProcessTwo(p, whitelisted, second, third);
  }

  const Open: string := "sfdx force:org:open"

  /** An `sfdx` command spelled with plain characters and no dash. */
  predicate PlainSfdxLine(line: string) {
    && IsSfdx(line) && NoBreak(line) && Trimmed(line) && IsCommand(line)
    && forall i :: 0 <= i < |line| ==> SeenPlain(line[i]) && line[i] != '-'
  }

  lemma OpenIsPlain()
    ensures PlainSfdxLine(Open)
  {
    assert Open[..4] == "sfdx";
    assert Open[0] == 's' && Open[|Open| - 1] == 'n';
  }

  /** test/unitTests/lineParse.test.ts:87-89. */
  const SfdxScript: string := "\n" + (Indent + Echo) + "\n" + (Indent + Open)

  // lineParse.test.ts:85-96
  lemma AddsJsonToSfdxCommands(p: Policy)
    ensures LineParse(p, SfdxScript, true) == Ok([Echo, "sfdx force:org:open --json"])
  {
    EchoIsPlain(p);
    EchoLines();
    OpenIsPlain();
    SfdxGetsJson(p, Open);
    IndentedPair(p, true, Echo, Open);
    JsonSpelledOut();
  }

  const Something: string := "something force:org:open"

  lemma SomethingFacts(p: Policy)
    ensures NoBreak(Something) && Trimmed(Something) && IsCommand(Something)
    ensures WithJson(p, Something) == Something
  {
    assert Something[..4] == "some";
    assert Something[0] == 's' && Something[|Something| - 1] == 'n';
  }

  /** test/unitTests/lineParse.test.ts:100-102. */
  const NonSfdxScript: string := "\n" + (Indent + Echo) + "\n" + (Indent + Something)

  // lineParse.test.ts:98-109
  lemma LeavesNonSfdxCommandsUntouched(p: Policy)
    ensures LineParse(p, NonSfdxScript, true) == Ok([Echo, Something])
  {
    EchoIsPlain(p);
    EchoLines();
    SomethingFacts(p);
    IndentedPair(p, true, Echo, Something);
  }

  /** A one-line script holding a trimmed command is parsed from that command alone. */
  lemma ParseOneLine(p: Policy, line: string, whitelisted: bool)
    requires NoBreak(line) && Trimmed(line) && IsCommand(line)
    ensures LineParse(p, line, whitelisted) == Process(p, whitelisted, [line])
  {
    assert SplitLines(line) == [line];
    assert CommandLines([line]) == [line] by {
      TrimPadded([], line, []);
      assert [] + line + [] == line;
      CommandLinesCons(line, []);
      assert [line] + [] == [line];
    }
  }

  /** test/unitTests/lineParse.test.ts:122. */
  const Redirect: string := "cat ../tmp > somewhereElse"

  lemma RedirectRefusal(p: Policy)
    requires PinnedPolicy(p)
    ensures NoBreak(Redirect) && Trimmed(Redirect) && IsCommand(Redirect)
    ensures Rejection(p, Redirect) == Some(MetacharacterError + Redirect)
  {
    assert Redirect[0] == 'c' && Redirect[|Redirect| - 1] == 'e';
    assert Redirect[11] == '>';
  }

  // lineParse.test.ts:121-127
  lemma RefusesMetacharacters(p: Policy)
    requires PinnedPolicy(p)
    ensures LineParse(p, Redirect, false) == Err(MetacharacterError + Redirect)
  {
    RedirectRefusal(p);
    ParseOneLine(p, Redirect, false);
    ProcessOne(p, false, Redirect);
  }

  /** test/unitTests/lineParse.test.ts:131. */
  const Sneaky: string := "sfdx force:org:open -u sneaky"

  lemma SneakyLine()
    ensures NoBreak(Sneaky) && Trimmed(Sneaky) && IsCommand(Sneaky)
    ensures forall i :: 0 <= i < |Sneaky| ==> SeenPlain(Sneaky[i])
    ensures TokenAt(Sneaky, "-u", 20)
  {
    assert Sneaky[0] == 's' && Sneaky[|Sneaky| - 1] == 'y';
    assert Sneaky[20..22] == "-u";
  }

  lemma SneakyRefusal(p: Policy)
    requires PinnedPolicy(p)
    ensures NoBreak(Sneaky) && Trimmed(Sneaky) && IsCommand(Sneaky)
    ensures Rejection(p, Sneaky) == Some(UserFlagError + Sneaky)
  {
    SneakyLine();
    PlainLine(p, Sneaky);
  }

  // lineParse.test.ts:129-136
  lemma RefusesUserFlag(p: Policy)
    requires PinnedPolicy(p)
    ensures LineParse(p, Sneaky, false) == Err(UserFlagError + Sneaky)
  {
    SneakyRefusal(p);
    ParseOneLine(p, Sneaky, false);
    ProcessOne(p, false, Sneaky);
  }

  lemma EchoRefusal(p: Policy)
    requires PinnedPolicy(p)
    ensures Rejection(p, Echo) == Some(NotSfdxError + Echo)
  {
    EchoIsPlain(p);
    PlainLine(p, Echo);
    NoDash(Echo, "-u");
  }

  // lineParse.test.ts:138-145
  lemma RefusesNonSfdxCommands(p: Policy)
    requires PinnedPolicy(p)
    ensures LineParse(p, Echo, false) == Err(NotSfdxError + Echo)
  {
    ParseLines(p, [Echo], false);
    EchoIsPlain(p);
    CommandLinesCons(Echo, []);
    EchoRefusal(p);
    ProcessOne(p, false, Echo);
  }

  /** An `sfdx` command without a dash gains the JSON flag, under every policy. */
  lemma SfdxGetsJson(p: Policy, line: string)
    requires PlainSfdxLine(line)
    ensures WithJson(p, line) == line + JsonFlag
  {
    NoDash(line, "--json");
  }

  /** An `sfdx` command of plain characters without dashes passes and gains the JSON flag. */
  lemma PlainSfdx(p: Policy, line: string)
    requires PinnedPolicy(p) && PlainSfdxLine(line)
    ensures Admissible(p, line) && WithJson(p, line) == line + JsonFlag
  {
    PlainLine(p, line);
    NoDash(line, "-u");
    SfdxGetsJson(p, line);
  }

  const Push: string := "sfdx force:source:push"

  /** test/unitTests/lineParse.test.ts:149-150. */
  const UntrustedScript: string := Push + "\n" + (Indent + Open)

  lemma UntrustedScriptCommands()
    ensures CommandLines(SplitLines(UntrustedScript)) == [Push, Open]
  {
    var lines := [Push, Indent + Open];
    PushIsPlain();
    OpenIsPlain();
    assert NoBreak(Indent);
    NoBreakAppend(Indent, Open);
    assert LinesNoBreak(lines) by {
      forall k | 0 <= k < 2 ensures NoBreak(lines[k]) {
        if k == 1 { assert lines[k] == Indent + Open; }
      }
    }
    JoinTwo(lines[0], lines[1]);
    SplitJoin(lines);
    TrimPadded([], Push, []);
    assert [] + Push + [] == Push;
    IndentedTrim(Open);
    CommandLinesCons(lines[1], []);
    CommandLinesCons(lines[0], lines[1..]);
  }

  lemma PushIsPlain()
    ensures PlainSfdxLine(Push)
  {
    assert Push[..4] == "sfdx";
    assert Push[0] == 's' && Push[|Push| - 1] == 'h';
  }

  lemma JsonSpelledOut()
    ensures Push + JsonFlag == "sfdx force:source:push --json"
    ensures Open + JsonFlag == "sfdx force:org:open --json"
  {
  }

  // lineParse.test.ts:147-157
  lemma UntrustedSfdxCommandsGetJson(p: Policy)
    requires PinnedPolicy(p)
    ensures LineParse(p, UntrustedScript, false)
         == Ok(["sfdx force:source:push --json", "sfdx force:org:open --json"])
  {
    UntrustedScriptCommands();
    PushIsPlain();
    OpenIsPlain();
    PlainSfdx(p, Push);
    PlainSfdx(p, Open);
    ProcessTwo(p, false, Push, Open);
    JsonSpelledOut();
  }

  /** The default policy is one of those the tests admit. */
  lemma DefaultPolicyPinned()
    ensures PinnedPolicy(DefaultPolicy)
  {
  }
}
