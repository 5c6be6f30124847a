/**
 * The editor commands of src/commands.ts: the run/debug commands build a
 * `RunOption` from the current file and cursor, and RenameStep collects the
 * step under the cursor, with its continuation lines, as the current name.
 */
module Commands {
  import opened Options
  import opened Text
  import opened Util
  import opened Run

  const FILE_URI_ROOT: string := "file:///"

  /** `getCurrentFileName`: a leading `file:///` becomes `/`; anything else is left alone. */
  function CurrentFileName(uri: string): (path: string)
    ensures StartsWith(uri, FILE_URI_ROOT) ==> "file://" + path == uri && path[0] == '/'
    ensures !StartsWith(uri, FILE_URI_ROOT) ==> path == uri
  {
    if StartsWith(uri, FILE_URI_ROOT) then
      assert uri == "file://" + ("/" + uri[8..]);
      "/" + uri[8..]
    else uri
  }

  /** For a `file:///` uri the file name and the workspace-folder path agree. */
  lemma CurrentFileNameAsFolderPath(uri: string, cwd: string)
    requires StartsWith(uri, FILE_URI_ROOT)
    ensures CurrentFileName(uri) == WorkspaceFolderPath(Some(uri), cwd)
  {
    assert StartsWith(uri, FILE_SCHEME) by {
      assert uri[..7] == uri[..8][..7];
    }
    assert uri[7..] == "/" + uri[8..];
  }

  // ------------------------------------------------------------ run commands

  datatype RunCommand = RunScenarioOnCursor | RunSpec | DebugScenarioOnCursor | DebugSpec {
    predicate OnCursor() {
      this == RunScenarioOnCursor || this == DebugScenarioOnCursor
    }
    predicate Debugs() {
      this == DebugScenarioOnCursor || this == DebugSpec
    }
  }

  /** The option record each run/debug command passes to `run`. */
  function CommandOption(cmd: RunCommand, uri: string, cursorLine: int): (o: RunOption) {
    match cmd
    case RunScenarioOnCursor => RunOption(Some(CurrentFileName(uri)), Some(cursorLine), None)
    case RunSpec => RunOption(Some(CurrentFileName(uri)), None, None)
    case DebugScenarioOnCursor => RunOption(Some(CurrentFileName(uri)), Some(cursorLine), Some(true))
    case DebugSpec => RunOption(Some(CurrentFileName(uri)), None, Some(true))
  }

  /**
   * The on-cursor commands pass the cursor line, the Spec commands none;
   * only the Debug commands ask for debugging; all name the current file.
   * So the argument vector gets `--hide-suggestion` exactly for the Debug
   * commands, and a `:line` suffix exactly for on-cursor commands away
   * from line 0 of a non-empty file name.
   */
  lemma CommandOptionMapping(cmd: RunCommand, uri: string, cursorLine: int)
    ensures var o := CommandOption(cmd, uri, cursorLine);
      && o.specFile == Some(CurrentFileName(uri))
      && (cmd.OnCursor() ==> o.line == Some(cursorLine))
      && (!cmd.OnCursor() ==> o.line.None?)
      && (IsDebug(o) <==> cmd.Debugs())
      && (HasLine(o) <==> cmd.OnCursor() && cursorLine != 0)
      && (HasTarget(o) <==> uri != "")
  {
    var o := CommandOption(cmd, uri, cursorLine);
    if StartsWith(uri, FILE_URI_ROOT) {
      assert CurrentFileName(uri)[0] == '/';
    }
  }

  // ------------------------------------------------------------ rename step

  /** `workspace.getLine`: past the end of the document a line reads as empty. */
  function LineAt(doc: seq<string>, n: nat): string {
    if n < |doc| then doc[n] else ""
  }

  /** A character `.` refuses to match in a JavaScript regular expression. */
  predicate IsLineTerminator(c: char) {
    c == '\n' || c == '\r' || c == '\U{2028}' || c == '\U{2029}'
  }

  /** `/^(?:[*])([^*].*)$/`: a `*`, then a character other than `*`, then no line terminator. */
  predicate IsStepStart(line: string) {
    && |line| >= 2 && line[0] == '*' && line[1] != '*'
    && forall k :: 2 <= k < |line| ==> !IsLineTerminator(line[k])
  }

  /** The first character of `s` that is not whitespace, if any. */
  function FirstNonSpace(s: string): (c: Option<char>)
    ensures c.Some? ==> !IsWhitespace(c.value)
  {
    if s == [] then None
    else if IsWhitespace(s[0]) then FirstNonSpace(s[1..])
    else Some(s[0])
  }

  /** The first non-whitespace character is what trimming leaves in front. */
  lemma {:induction false} FirstNonSpaceTrim(s: string)
    ensures FirstNonSpace(s).None? <==> Trim(s) == []
    ensures Trim(s) != [] ==> FirstNonSpace(s).value == Trim(s)[0]
    decreases |s|
  {
    if s != [] && IsWhitespace(s[0]) {
      FirstNonSpaceTrim(s[1..]);
    } else if s != [] && IsWhitespace(s[|s| - 1]) {
      var p := s[..|s| - 1];
      FirstNonSpaceTrim(p);
      assert p[0] == s[0];
    }
  }

  /** A line that ends the step: blank, or trimmed starting with `#`, `*` or `|`. */
  predicate EndsStep(line: string) {
    match FirstNonSpace(line)
    case None => true
    case Some(c) => c == '#' || c == '*' || c == '|'
  }

  /** Reading past the end of the document gives a blank line, which ends any step. */
  lemma PastEndEndsStep(doc: seq<string>, n: nat)
    requires n >= |doc|
    ensures EndsStep(LineAt(doc, n))
  {
    assert LineAt(doc, n) == "";
  }

  /** The lines from `n` on up to the first that ends the step. */
  function Continuation(doc: seq<string>, n: nat): (run: seq<string>)
    decreases |doc| - n
  {
    if EndsStep(LineAt(doc, n)) then []
    else
      assert n < |doc| by {
        if n >= |doc| {
          PastEndEndsStep(doc, n);
        }
      }
      [doc[n]] + Continuation(doc, n + 1)
  }

  lemma ContinuationUnfold(doc: seq<string>, n: nat)
    requires !EndsStep(LineAt(doc, n))
    ensures n < |doc| && Continuation(doc, n) == [doc[n]] + Continuation(doc, n + 1)
  {
    if n >= |doc| {
      PastEndEndsStep(doc, n);
    }
  }

  lemma ContinuationEnd(doc: seq<string>, n: nat)
    requires EndsStep(LineAt(doc, n))
    ensures Continuation(doc, n) == []
  {
  }

  lemma ContinuationNext(doc: seq<string>, n: nat, prefix: seq<string>)
    requires !EndsStep(LineAt(doc, n))
    ensures n < |doc|
    ensures (prefix + [LineAt(doc, n)]) + Continuation(doc, n + 1) == prefix + Continuation(doc, n)
  {
    ContinuationUnfold(doc, n);
  }

  /** The continuation is exactly the contiguous run of non-ending lines after the cursor. */
  lemma {:induction false} ContinuationSpec(doc: seq<string>, n: nat)
    ensures IsRunFrom(doc, n, Continuation(doc, n))
    decreases |doc| - n
  {
    if !EndsStep(LineAt(doc, n)) {
      ContinuationUnfold(doc, n);
      ContinuationSpec(doc, n + 1);
      RunCons(doc, n, Continuation(doc, n + 1));
    }
  }

  /**
   * `run` is the lines of `doc` from `n` on, none of which ends the step,
   * and the line after them ends it.
   */
  predicate IsRunFrom(doc: seq<string>, n: nat, run: seq<string>) {
    && (|run| > 0 ==> n + |run| <= |doc|)
    && (forall k :: 0 <= k < |run| ==> n + k < |doc| && run[k] == doc[n + k] && !EndsStep(run[k]))
    && EndsStep(LineAt(doc, n + |run|))
  }

  lemma RunCons(doc: seq<string>, n: nat, rest: seq<string>)
    requires n < |doc| && !EndsStep(doc[n]) && IsRunFrom(doc, n + 1, rest)
    ensures IsRunFrom(doc, n, [doc[n]] + rest)
  {
    var run := [doc[n]] + rest;
    forall k | 0 <= k < |run| ensures n + k < |doc| && run[k] == doc[n + k] && !EndsStep(run[k]) {
      if k > 0 {
        assert run[k] == rest[k - 1];
      }
    }
    assert n + |run| == n + 1 + |rest|;
  }

  /**
   * The loop's test on the next line: its trimmed text, trimmed again, is
   * empty or starts with `#`, `*` or `|`. That is exactly `EndsStep`.
   */
  method TestStepEnd(nline: string) returns (ends: bool)
    ensures ends <==> EndsStep(nline)
  {
    var trimmed := Trim(nline);
    TrimTwice(nline);
    FirstNonSpaceTrim(nline);
    ends := |Trim(trimmed)| == 0 || trimmed[0] in ['#', '*', '|'];
    if trimmed != [] {
      assert FirstNonSpace(nline) == Some(trimmed[0]);
    }
  }

  /**
   * The scan of RenameStep: nothing unless the cursor line starts a step;
   * otherwise the trimmed cursor line, then the following lines, untrimmed,
   * up to the first line that ends the step.
   */
  method ScanStep(doc: seq<string>, cursor: nat) returns (isStep: bool, lines: seq<string>)
    ensures isStep == IsStepStart(LineAt(doc, cursor))
    ensures !isStep ==> lines == []
    ensures isStep ==> lines == [Trim(LineAt(doc, cursor))] + Continuation(doc, cursor + 1)
  {
    var line := LineAt(doc, cursor);
    if !IsStepStart(line) {
      return false, [];
    }
    isStep := true;
    lines := [Trim(line)];
    ghost var full := [Trim(line)] + Continuation(doc, cursor + 1);
    var pos := cursor;
    while true
      invariant cursor <= pos
      invariant lines + Continuation(doc, pos + 1) == full
      decreases |doc| - pos
    {
      var nline := LineAt(doc, pos + 1);
      var ends := TestStepEnd(nline);
      if ends {
        ContinuationEnd(doc, pos + 1);
        assert lines + [] == lines;
        break;
      }
      ContinuationNext(doc, pos + 1, lines);
      lines := lines + [nline];
      pos := pos + 1;
    }
  }

  /** What RenameStep ends with. */
  datatype RenameOutcome =
    | NotAStep                                        // the cursor line is not a step: nothing happens
    | Prompted(current: string, action: RenameAction) // the name prompt was shown with `current`

  datatype RenameAction = Canceled(warning: string) | Unchanged | Rename(newName: string)

  const EMPTY_NAME_WARNING: string := "Empty name, canceled"

  /**
   * The decision on the user's reply: an empty reply cancels with a
   * warning, a reply equal to the current name does nothing, any other
   * reply asks the language server to rename.
   */
  function Decide(current: string, reply: string): (a: RenameAction)
    ensures a.Rename? <==> reply != "" && reply != current
    ensures a.Rename? ==> a.newName == reply
    ensures a.Canceled? <==> reply == ""
    ensures a.Canceled? ==> a.warning == EMPTY_NAME_WARNING
  {
    if reply == "" then Canceled(EMPTY_NAME_WARNING)
    else if reply != current then Rename(reply)
    else Unchanged
  }

  /**
   * RenameStep: the current name is the collected step lines joined with
   * single spaces; `reply` is what the user enters at the prompt.
   */
  method RenameStep(doc: seq<string>, cursor: nat, reply: string) returns (o: RenameOutcome)
    ensures !IsStepStart(LineAt(doc, cursor)) <==> o == NotAStep
    ensures o.Prompted? ==>
              o.current == Join([Trim(LineAt(doc, cursor))] + Continuation(doc, cursor + 1), " ")
              && o.action == Decide(o.current, reply)
  {
    var isStep, lines := ScanStep(doc, cursor);
    if !isStep {
      return NotAStep;
    }
    var current := Join(lines, " ");
    o := Prompted(current, Decide(current, reply));
  }
}
