/** The rewriter of environment texts in scripts/dokploy_redeploy.py: one `NAME=value` line set, the others kept. */
module EnvText {
  import opened Prelude

  // ---- lines, as Python's `str.splitlines` sees them

  predicate IsBreak(c: char) {
    '\n' <= c <= '\r' || '\U{1C}' <= c <= '\U{1E}' || c == '\U{85}' || c == '\U{2028}' || c == '\U{2029}'
  }

  ghost predicate BreakFree(s: string) {
    forall i :: 0 <= i < |s| ==> !IsBreak(s[i])
  }

  /** The index of the first line break, or the length. */
  function FirstBreak(s: string): (i: nat)
    ensures i <= |s| && BreakFree(s[..i])
    ensures i < |s| ==> IsBreak(s[i])
  {
    if s == "" || IsBreak(s[0]) then 0
    else
      var i := 1 + FirstBreak(s[1..]);
      assert s[..i] == [s[0]] + s[1..][..i - 1];
      i
  }

  /** A carriage return and the line feed after it are one break. */
  function BreakWidth(s: string, i: nat): (w: nat)
    requires i < |s|
    ensures 1 <= w <= |s| - i
  {
    if s[i] == '\r' && i + 1 < |s| && s[i + 1] == '\n' then 2 else 1
  }

  function SplitLines(s: string): seq<string>
    decreases |s|
  {
    if s == "" then []
    else
      var i := FirstBreak(s);
      if i == |s| then [s] else [s[..i]] + SplitLines(s[i + BreakWidth(s, i)..])
  }

  function Join(lines: seq<string>): string {
    if lines == [] then "" else if |lines| == 1 then lines[0] else lines[0] + "\n" + Join(lines[1..])
  }

  // ---- one line

  /** What precedes the first `=`, or the whole line. */
  function BeforeEquals(line: string): (k: string)
    ensures k <= line && '=' !in k
    ensures '=' in line ==> |k| < |line| && line[|k|] == '='
    ensures '=' !in line ==> k == line
  {
    if line == "" || line[0] == '=' then "" else [line[0]] + BeforeEquals(line[1..])
  }

  function LStrip(s: string): string {
    if s != "" && IsSpace(s[0]) then LStrip(s[1..]) else s
  }

  function Strip(s: string): string {
    RStrip(LStrip(s))
  }

  /** The name a line sets. */
  function KeyOf(line: string): string {
    Strip(BeforeEquals(line))
  }

  /** What a line sets its name to. */
  function ValueOf(line: string): Option<string> {
    if '=' in line then Some(line[|BeforeEquals(line)| + 1..]) else None
  }

  // ---- the rewriter

  function SetsOther(name: string): string -> bool {
    (line: string) => KeyOf(line) != name
  }

  function Sets(name: string): string -> bool {
    (line: string) => KeyOf(line) == name
  }

  function MergeEnvVar(env: string, name: string, value: string): string {
    Join(Filter(SetsOther(name), SplitLines(env)) + [name + "=" + value]) + "\n"
  }

  /** A name that a line `name=value` reads back as itself. */
  predicate PlainName(name: string) {
    '=' !in name && Strip(name) == name
  }

  // ---- splitting and joining

  ghost predicate AllBreakFree(lines: seq<string>) {
    forall i :: 0 <= i < |lines| ==> BreakFree(lines[i])
  }

  lemma {:induction false} SplitLinesAreBreakFree(s: string)
    ensures AllBreakFree(SplitLines(s))
    decreases |s|
  {
    if s != "" {
      var i := FirstBreak(s);
      assert i == |s| ==> s[..i] == s;
      if i < |s| {
        SplitLinesAreBreakFree(s[i + BreakWidth(s, i)..]);
      }
    }
  }

  lemma {:induction false} FirstBreakIs(line: string, rest: string)
    requires BreakFree(line)
    ensures FirstBreak(line + "\n" + rest) == |line|
  {
    var s := line + "\n" + rest;
    if line == "" {
      assert s[0] == '\n';
    } else {
      FirstBreakIs(line[1..], rest);
      assert s[0] == line[0] && s[1..] == line[1..] + "\n" + rest;
    }
  }

  /** Splitting gives back the lines that were joined. */
  lemma {:induction false} SplitOfJoin(lines: seq<string>)
    requires lines != [] && AllBreakFree(lines)
    ensures SplitLines(Join(lines) + "\n") == lines
  {
    var line := lines[0];
    var rest := if |lines| == 1 then "" else Join(lines[1..]) + "\n";
    var s := Join(lines) + "\n";
    assert s == line + "\n" + rest;
    FirstBreakIs(line, rest);
    assert s[|line|] == '\n' && s[..|line|] == line;
    assert s[|line| + 1..] == rest;
    if |lines| > 1 {
      SplitOfJoin(lines[1..]);
    }
  }

  // ---- what the rewriter promises

  /** The lines of the result: those of the text that set another name, in their order, and the new one. */
  lemma {:induction false} MergedLines(env: string, name: string, value: string)
    requires BreakFree(name) && BreakFree(value)
    ensures SplitLines(MergeEnvVar(env, name, value)) == Filter(SetsOther(name), SplitLines(env)) + [name + "=" + value]
  {
    SplitLinesAreBreakFree(env);
    var kept := Filter(SetsOther(name), SplitLines(env));
    var lines := kept + [name + "=" + value];
    forall i | 0 <= i < |lines|
      ensures BreakFree(lines[i])
    {
      if i < |kept| {
        assert kept[i] in SplitLines(env);
      }
    }
    SplitOfJoin(lines);
  }

  lemma {:induction false} StripKeeps(s: string, c: char)
    requires c !in s
    ensures c !in Strip(s)
  {
    LStripKeeps(s, c);
  }

  lemma {:induction false} LStripKeeps(s: string, c: char)
    requires c !in s
    ensures c !in LStrip(s)
  {
    if s != "" && IsSpace(s[0]) {
      LStripKeeps(s[1..], c);
    }
  }

  lemma {:induction false} BeforeEqualsOf(name: string, value: string)
    ensures BeforeEquals(name + "=" + value) == BeforeEquals(name)
  {
    var line := name + "=" + value;
    if name == "" {
      assert line[0] == '=';
    } else if name[0] != '=' {
      assert line[0] == name[0] && line[1..] == name[1..] + "=" + value;
      BeforeEqualsOf(name[1..], value);
    }
  }

  /** The new line sets the name it was given exactly when that name is plain, and then to the given value. */
  lemma {:induction false} NewLineReadsBack(name: string, value: string)
    ensures KeyOf(name + "=" + value) == name <==> PlainName(name)
    ensures PlainName(name) ==> ValueOf(name + "=" + value) == Some(value)
  {
    var line := name + "=" + value;
    BeforeEqualsOf(name, value);
    StripKeeps(BeforeEquals(name), '=');
    if '=' !in name {
      assert BeforeEquals(line) == name;
      assert line[|name|] == '=';
      assert line[|name| + 1..] == value;
    }
  }

  lemma {:induction false} OthersSetNothing(name: string, lines: seq<string>)
    ensures Filter(Sets(name), Filter(SetsOther(name), lines)) == []
  {
    if lines != [] {
      OthersSetNothing(name, lines[1..]);
    }
  }

  lemma {:induction false} OthersAreOthers(name: string, other: string, lines: seq<string>)
    requires other != name
    ensures Filter(Sets(other), Filter(SetsOther(name), lines)) == Filter(Sets(other), lines)
  {
    if lines != [] {
      OthersAreOthers(name, other, lines[1..]);
    }
  }

  lemma {:induction false} FilterTwice(name: string, lines: seq<string>)
    ensures Filter(SetsOther(name), Filter(SetsOther(name), lines)) == Filter(SetsOther(name), lines)
  {
    if lines != [] {
      FilterTwice(name, lines[1..]);
    }
  }

  /** Afterwards exactly one line sets the name, and to the value, exactly when the name is plain; else none does. */
  lemma {:induction false} SetsExactlyOnce(env: string, name: string, value: string)
    requires BreakFree(name) && BreakFree(value)
    ensures var after := Filter(Sets(name), SplitLines(MergeEnvVar(env, name, value)));
            if PlainName(name) then after == [name + "=" + value] && ValueOf(after[0]) == Some(value) else after == []
  {
    var line := name + "=" + value;
    MergedLines(env, name, value);
    FilterConcat(Sets(name), Filter(SetsOther(name), SplitLines(env)), [line]);
    OthersSetNothing(name, SplitLines(env));
    NewLineReadsBack(name, value);
  }

  /** Every other name is set by the same lines as before, in the same order. */
  lemma {:induction false} OtherNamesReadTheSame(env: string, name: string, value: string, other: string)
    requires BreakFree(name) && BreakFree(value) && other != name && PlainName(name)
    ensures Filter(Sets(other), SplitLines(MergeEnvVar(env, name, value))) == Filter(Sets(other), SplitLines(env))
  {
    MergedLines(env, name, value);
    FilterConcat(Sets(other), Filter(SetsOther(name), SplitLines(env)), [name + "=" + value]);
    OthersAreOthers(name, other, SplitLines(env));
    NewLineReadsBack(name, value);
  }

  /** A later value replaces an earlier one without a trace. */
  lemma {:induction false} LastValueWins(env: string, name: string, first: string, second: string)
    requires BreakFree(name) && BreakFree(first) && PlainName(name)
    ensures MergeEnvVar(MergeEnvVar(env, name, first), name, second) == MergeEnvVar(env, name, second)
  {
    MergedLines(env, name, first);
    FilterConcat(SetsOther(name), Filter(SetsOther(name), SplitLines(env)), [name + "=" + first]);
    FilterTwice(name, SplitLines(env));
    NewLineReadsBack(name, first);
    var kept := Filter(SetsOther(name), SplitLines(env));
    assert Filter(SetsOther(name), [name + "=" + first]) == [];
    assert kept + [] == kept;
  }

  /** The rewriter is idempotent exactly on plain names: any other name gains one more line every time. */
  lemma {:induction false} IdempotentExactly(env: string, name: string, value: string)
    requires BreakFree(name) && BreakFree(value)
    ensures MergeEnvVar(MergeEnvVar(env, name, value), name, value) == MergeEnvVar(env, name, value) <==>
      PlainName(name)
  {
    if PlainName(name) {
      LastValueWins(env, name, value, value);
    } else {
      var line := name + "=" + value;
      var kept := Filter(SetsOther(name), SplitLines(env));
      MergedLines(env, name, value);
      MergedLines(MergeEnvVar(env, name, value), name, value);
      FilterConcat(SetsOther(name), kept, [line]);
      FilterTwice(name, SplitLines(env));
      NewLineReadsBack(name, value);
      assert Filter(SetsOther(name), [line]) == [line];
      assert |SplitLines(MergeEnvVar(MergeEnvVar(env, name, value), name, value))| == |kept| + 2;
    }
  }
}
