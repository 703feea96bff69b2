/**
 * The string primitives the sanitizer is built on: JavaScript's
 * `String.prototype.trim`, and line splitting as Node's `readline` is taken
 * to do it (the readline code itself is not part of this model).
 */
module Text {

  /** ECMAScript WhiteSpace and LineTerminator code points: what `trim()` removes. */
  predicate IsSpace(c: char) {
    || c == '\t' || c == '\n' || c == '\U{B}' || c == '\U{C}' || c == '\r' || c == ' '
    || c == '\U{A0}' || c == '\U{1680}' || ('\U{2000}' <= c <= '\U{200A}')
    || c == '\U{2028}' || c == '\U{2029}' || c == '\U{202F}' || c == '\U{205F}'
    || c == '\U{3000}' || c == '\U{FEFF}'
  }

  /** A line is taken to end at `\n`, `\r\n` or a lone `\r`, as in `readline`. */
  predicate IsBreak(c: char) {
    c == '\n' || c == '\r'
  }

  predicate AllSpace(s: string) {
    forall i :: 0 <= i < |s| ==> IsSpace(s[i])
  }

  /** Neither begins nor ends with white space. */
  predicate Trimmed(s: string) {
    s == [] || (!IsSpace(s[0]) && !IsSpace(s[|s| - 1]))
  }

  predicate NoBreak(s: string) {
    forall i :: 0 <= i < |s| ==> !IsBreak(s[i])
  }

  function TrimStart(s: string): (r: string)
    ensures |r| <= |s|
    ensures r == [] || !IsSpace(r[0])
  {
    if s != [] && IsSpace(s[0]) then TrimStart(s[1..]) else s
  }

  function TrimEnd(s: string): (r: string)
    ensures |r| <= |s|
    ensures r != [] ==> r[0] == s[0]
    ensures r == [] || !IsSpace(r[|r| - 1])
  {
    if s != [] && IsSpace(s[|s| - 1]) then TrimEnd(s[..|s| - 1]) else s
  }

  /** `s.trim()`: the longest infix of `s` without white space at either end. */
  function Trim(s: string): (r: string)
    ensures Trimmed(r)
    ensures |r| <= |s|
  {
    TrimEnd(TrimStart(s))
  }

  lemma {:induction false} TrimStartPadded(front: string, rest: string)
    requires AllSpace(front)
    requires rest == [] || !IsSpace(rest[0])
    ensures TrimStart(front + rest) == rest
  {
    if front != [] {
      assert (front + rest)[1..] == front[1..] + rest;
      TrimStartPadded(front[1..], rest);
    }
  }

  lemma {:induction false} TrimEndPadded(rest: string, back: string)
    requires AllSpace(back)
    requires rest == [] || !IsSpace(rest[|rest| - 1])
    ensures TrimEnd(rest + back) == rest
  {
    if back != [] {
      var last := |back| - 1;
      assert (rest + back)[..|rest + back| - 1] == rest + back[..last];
      TrimEndPadded(rest, back[..last]);
    }
  }

  /** Trimming recovers the core of a string padded with white space on both sides. */
  lemma TrimPadded(front: string, core: string, back: string)
    requires AllSpace(front) && AllSpace(back) && Trimmed(core)
    ensures Trim(front + core + back) == core
  {
    if core == [] {
      assert front + core + back == front + back;
      TrimStartPadded(front + back, []);
      assert front + back + [] == front + back;
      TrimEndPadded([], []);
    } else {
      assert front + core + back == front + (core + back);
      TrimStartPadded(front, core + back);
      TrimEndPadded(core, back);
    }
  }

  /** `TrimStart` drops white space only, and only from the front. */
  lemma {:induction false} TrimStartDropsSpace(s: string)
    ensures var r := TrimStart(s); r == s[|s| - |r|..] && AllSpace(s[..|s| - |r|])
  {
    if s != [] && IsSpace(s[0]) {
      TrimStartDropsSpace(s[1..]);
      var r := TrimStart(s);
      assert s[1..][..|s| - 1 - |r|] == s[1..|s| - |r|];
    }
  }

  /** `TrimEnd` drops white space only, and only from the back. */
  lemma {:induction false} TrimEndDropsSpace(s: string)
    ensures var r := TrimEnd(s); r == s[..|r|] && AllSpace(s[|r|..])
  {
    if s != [] && IsSpace(s[|s| - 1]) {
      TrimEndDropsSpace(s[..|s| - 1]);
    }
  }

  /** `trim()` removes white space only, and only at the two ends. */
  lemma TrimDropsSpace(s: string)
    ensures var r := Trim(s);
      exists i :: 0 <= i <= |s| - |r| && r == s[i..i + |r|] && AllSpace(s[..i]) && AllSpace(s[i + |r|..])
  {
    var m := TrimStart(s);
    var r := TrimEnd(m);
    var i := |s| - |m|;
    TrimStartDropsSpace(s);
    TrimEndDropsSpace(m);
    assert r == s[i..i + |r|] by {
      assert s[i..i + |r|] == m[..|r|];
    }
    assert AllSpace(s[i + |r|..]) by {
      assert s[i + |r|..] == m[|r|..];
    }
    assert 0 <= i <= |s| - |r| && r == s[i..i + |r|] && AllSpace(s[..i]) && AllSpace(s[i + |r|..]);
  }

  /** `trim()` is idempotent. */
  lemma TrimIdempotent(s: string)
    ensures Trim(Trim(s)) == Trim(s)
  {
    TrimPadded([], Trim(s), []);
    assert [] + Trim(s) + [] == Trim(s);
  }

  /** Index of the first line break of `s`. */
  function BreakIndex(s: string): (i: nat)
    requires exists k :: 0 <= k < |s| && IsBreak(s[k])
    ensures i < |s| && IsBreak(s[i]) && NoBreak(s[..i])
  {
    if IsBreak(s[0]) then 0 else 1 + BreakIndex(s[1..])
  }

  /**
   * The lines of `s` as `readline` is taken to report them, in order, each
   * without its line break.
   * A `\r\n` pair yields one extra empty line, which the sanitizer drops like
   * every other blank line.
   */
  function SplitLines(s: string): (r: seq<string>)
    ensures |r| > 0
    ensures LinesNoBreak(r)
    decreases |s|
  {
    if NoBreak(s) then [s]
    else
      var i := BreakIndex(s);
      [s[..i]] + SplitLines(s[i + 1..])
  }

  lemma NoBreakAppend(a: string, b: string)
    requires NoBreak(a) && NoBreak(b)
    ensures NoBreak(a + b)
  {
    forall k | 0 <= k < |a + b| ensures !IsBreak((a + b)[k]) {
      if k >= |a| { assert (a + b)[k] == b[k - |a|]; }
    }
  }

  predicate LinesNoBreak(lines: seq<string>) {
    forall k :: 0 <= k < |lines| ==> NoBreak(lines[k])
  }

  lemma LinesNoBreakAppend(a: seq<string>, b: seq<string>)
    requires LinesNoBreak(a) && LinesNoBreak(b)
    ensures LinesNoBreak(a + b)
  {
    forall k | 0 <= k < |a + b| ensures NoBreak((a + b)[k]) {
      if k >= |a| { assert (a + b)[k] == b[k - |a|]; }
    }
  }

  /** Lines joined by `\n`, as a script file holds them. */
  function JoinLines(lines: seq<string>): string
    requires |lines| > 0
  {
    if |lines| == 1 then lines[0] else lines[0] + "\n" + JoinLines(lines[1..])
  }

  /** Splitting a file written line by line gives back those lines. */
  lemma {:induction false} SplitJoin(lines: seq<string>)
    requires |lines| > 0
    requires LinesNoBreak(lines)
    ensures SplitLines(JoinLines(lines)) == lines
  {
    var s := JoinLines(lines);
    if |lines| > 1 {
      var head := lines[0];
      var rest := JoinLines(lines[1..]);
      assert s == head + "\n" + rest;
      assert s[|head|] == '\n';
      assert !NoBreak(s);
      var i := BreakIndex(s);
      assert i == |head|;
      assert s[..i] == head;
      assert s[i + 1..] == rest;
      SplitJoin(lines[1..]);
    }
  }

  /** Joining the lines of a file written with `\n` breaks only gives back the file. */
  lemma {:induction false} JoinSplit(s: string)
    requires forall k :: 0 <= k < |s| ==> s[k] != '\r'
    ensures JoinLines(SplitLines(s)) == s
    decreases |s|
  {
    if !NoBreak(s) {
      var i := BreakIndex(s);
      assert s[i] == '\n';
      JoinSplit(s[i + 1..]);
      assert s == s[..i] + "\n" + s[i + 1..];
    }
  }
}
