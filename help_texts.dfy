/** The help texts (roboclic.py:27-30 and 302-304): each line of the help
    file is a command name, a space, and that command's explanation. The
    lines are what iterating over the open file yields, each still ending in
    its `\n` (all but possibly the last), so every explanation and every
    `help NAME` reply keeps that newline, and a blank line `"\n"` has no
    space and stops the loading. */
module HelpTexts {
  import opened Wrappers

  /** Index of the first space in `line`, if any. */
  function FirstSpace(line: string): (o: Option<nat>)
    ensures o.Some? ==> o.value < |line| && line[o.value] == ' ' && ' ' !in line[..o.value]
    ensures o.None? ==> ' ' !in line
  {
    if line == [] then None
    else if line[0] == ' ' then Some(0)
    else match FirstSpace(line[1..])
      case None => None
      case Some(i) =>
        assert line[..i + 1] == [line[0]] + line[1..][..i];
        Some(i + 1)
  }

  /** `line.split(' ', 1)` unpacked into two names; `None` when the line has
      no space (the unpacking raises ValueError). */
  function SplitCommand(line: string): (o: Option<(string, string)>)
    ensures o.None? <==> ' ' !in line
    ensures o.Some? ==> ' ' !in o.value.0 && o.value.0 + " " + o.value.1 == line
  {
    match FirstSpace(line)
    case None => None
    case Some(i) =>
      assert line == line[..i] + " " + line[i + 1..];
      Some((line[..i], line[i + 1..]))
  }

  lemma {:induction false} FirstSpaceAfter(name: string, text: string)
    requires ' ' !in name
    ensures FirstSpace(name + " " + text) == Some(|name|)
  {
    if name != [] {
      FirstSpaceAfter(name[1..], text);
      assert (name + " " + text)[1..] == name[1..] + " " + text;
    }
  }

  /** Splitting a command line gives back its name and text. */
  lemma SplitCommandJoin(name: string, text: string)
    requires ' ' !in name
    ensures SplitCommand(name + " " + text) == Some((name, text))
  {
    var line := name + " " + text;
    FirstSpaceAfter(name, text);
    assert line[..|name|] == name && line[|name| + 1..] == text;
  }

  datatype LoadError = NoSpace(lineNo: nat)  // the line that made module loading fail

  /** `EXPLANATIONS` after the loop has read `lines` (the file's lines with
      their line endings); the first line without a space stops the loading. */
  function Explanations(lines: seq<string>): (r: Result<map<string, string>, LoadError>)
    ensures r.Err? ==> r.error.lineNo < |lines| && SplitCommand(lines[r.error.lineNo]).None?
  {
    if lines == [] then Ok(map[])
    else match Explanations(lines[..|lines| - 1])
      case Err(e) => Err(e)
      case Ok(m) =>
        match SplitCommand(lines[|lines| - 1])
        case None => Err(NoSpace(|lines| - 1))
        case Some((name, text)) => Ok(m[name := text])
  }

  /** The loop of roboclic.py:27-30 over the lines of the help file. */
  method LoadExplanations(lines: seq<string>) returns (r: Result<map<string, string>, LoadError>)
    ensures r == Explanations(lines)
  {
    var m: map<string, string> := map[];
    var i := 0;
    while i < |lines|
      invariant 0 <= i <= |lines|
      invariant Explanations(lines[..i]) == Ok(m)
    {
      assert lines[..i + 1][..i] == lines[..i];
      var split := SplitCommand(lines[i]);
      if split.None? {
        LoadPrefixErr(lines, i + 1);
        return Err(NoSpace(i));
      }
      var (name, text) := split.value;
      m := m[name := text];
      i := i + 1;
    }
    assert lines[..i] == lines;
    r := Ok(m);
  }

  lemma {:induction false} LoadPrefixErr(lines: seq<string>, k: nat)
    requires k <= |lines| && Explanations(lines[..k]).Err?
    ensures Explanations(lines) == Explanations(lines[..k])
    decreases |lines| - k
  {
    if k < |lines| {
      assert lines[..k + 1][..k] == lines[..k];
      LoadPrefixErr(lines, k + 1);
    } else {
      assert lines[..k] == lines;
    }
  }

  /** Loading fails exactly at the first line without a space. */
  lemma {:induction false} ExplanationsErr(lines: seq<string>)
    ensures Explanations(lines).Err? <==> exists i :: 0 <= i < |lines| && ' ' !in lines[i]
    ensures Explanations(lines).Err? ==>
      var k := Explanations(lines).error.lineNo;
      k < |lines| && ' ' !in lines[k] && forall j :: 0 <= j < k ==> ' ' in lines[j]
  {
    if lines != [] {
      var init := lines[..|lines| - 1];
      ExplanationsErr(init);
      assert forall j :: 0 <= j < |init| ==> init[j] == lines[j];
    }
  }

  /** `line` is a help line for the command `name`. */
  predicate Gives(line: string, name: string) {
    SplitCommand(line).Some? && SplitCommand(line).value.0 == name
  }

  /** A command has an explanation exactly when some line names it. */
  lemma {:induction false} ExplanationsKeys(lines: seq<string>, name: string)
    requires Explanations(lines).Ok?
    ensures name in Explanations(lines).value <==> exists i :: 0 <= i < |lines| && Gives(lines[i], name)
  {
    if lines != [] {
      var init := lines[..|lines| - 1];
      ExplanationsKeys(init, name);
      assert forall j :: 0 <= j < |init| ==> init[j] == lines[j];
      if Gives(lines[|lines| - 1], name) {
      } else if exists i :: 0 <= i < |lines| && Gives(lines[i], name) {
        var i :| 0 <= i < |lines| && Gives(lines[i], name);
        assert Gives(init[i], name);
      }
    }
  }

  /** Each command gets the text of the LAST line naming it. */
  lemma {:induction false} ExplanationsLastWins(lines: seq<string>, i: nat)
    requires Explanations(lines).Ok? && i < |lines| && SplitCommand(lines[i]).Some?
    requires forall j :: i < j < |lines| ==> !Gives(lines[j], SplitCommand(lines[i]).value.0)
    ensures var (name, text) := SplitCommand(lines[i]).value;
      name in Explanations(lines).value && Explanations(lines).value[name] == text
  {
    var init := lines[..|lines| - 1];
    assert forall j :: 0 <= j < |init| ==> init[j] == lines[j];
    if i < |lines| - 1 {
      ExplanationsLastWins(init, i);
    }
  }

  /** `help NAME`: the explanation loaded for NAME, or `Not a command`. */
  function HelpFor(explanations: map<string, string>, name: string): (r: string)
    ensures name in explanations ==> r == explanations[name]
    ensures name !in explanations ==> r == "Not a command"
  {
    if name in explanations then explanations[name] else "Not a command"
  }

  /** `help NAME` against the loaded file: the text of the last line naming
      the command, or `Not a command` when no line names it. */
  lemma HelpAfterLoad(lines: seq<string>, name: string, i: nat)
    requires Explanations(lines).Ok? && i < |lines|
    ensures (forall j :: 0 <= j < |lines| ==> !Gives(lines[j], name)) ==>
      HelpFor(Explanations(lines).value, name) == "Not a command"
    ensures Gives(lines[i], name) && (forall j :: i < j < |lines| ==> !Gives(lines[j], name)) ==>
      HelpFor(Explanations(lines).value, name) == SplitCommand(lines[i]).value.1
  {
    ExplanationsKeys(lines, name);
    if Gives(lines[i], name) && (forall j :: i < j < |lines| ==> !Gives(lines[j], name)) {
      ExplanationsLastWins(lines, i);
    }
  }
}
