/**
 * The run/stop machinery of src/run.ts: `GaugeRunner` keeps at most one
 * `gauge` process in its `proc` slot; the process's stdout handler feeds a
 * line reassembler and launches the debugger on the sentinel line; its exit
 * handler reports the exit code, frees the slot and stops the scroller.
 */
module Run {
  import opened Options
  import opened Text
  import opened Host
  import opened Util
  import opened Reassembler
  import opened Scroll

  /** `RunOption`: every field may be left `undefined`. */
  datatype RunOption = RunOption(specFile: Option<string>, line: Option<int>, debug: Option<bool>)

  /** The JavaScript truthiness tests `run` applies to the options. */
  predicate HasTarget(o: RunOption) {
    o.specFile.Some? && o.specFile.value != ""
  }

  predicate HasLine(o: RunOption) {
    o.line.Some? && o.line.value != 0
  }

  predicate IsDebug(o: RunOption) {
    o.debug == Some(true)
  }

  /** `!this.proc.pid` fails for a missing pid and for the pid 0 alike. */
  predicate Spawned(pid: Option<nat>) {
    pid.Some? && pid.value > 0
  }

  /** The host configuration `run` reads (defaults: verbose off, auto-scroll on). */
  datatype Config = Config(verbose: bool, autoScrollOutputWindow: bool)

  /** What the spawned process inherits from the editor: its environment and its workspace. */
  datatype Workspace = Workspace(env: map<string, string>, folder: Option<string>, cwd: string)

  datatype Level = Error | Warning | Info
  datatype Message = Message(text: string, level: Level)

  /** One call of `spawn`. */
  datatype Spawn = Spawn(command: string, args: seq<string>, cwd: string, env: map<string, string>)

  const BUSY_MESSAGE: string := "Gauge is running."
  const SENTINEL: string := "Runner Ready for Debugging"

  /** The spec file, followed by `:line` when a non-zero line is given. */
  function Target(o: RunOption): string
    requires HasTarget(o)
  {
    o.specFile.value + (if HasLine(o) then ":" + IntToString(o.line.value) else "")
  }

  /** The arguments of `gauge`, as `run` pushes them. */
  function ArgVector(verbose: bool, o: RunOption): seq<string> {
    ["run", "--simple-console"]
    + (if verbose then ["--verbose"] else [])
    + (if IsDebug(o) then ["--hide-suggestion"] else [])
    + (if HasTarget(o) then [Target(o)] else [])
  }

  function Flag(b: bool): nat {
    if b then 1 else 0
  }

  /**
   * The layout of the argument vector: `run --simple-console`, then
   * `--verbose` iff verbose, then `--hide-suggestion` iff debugging, then
   * the target iff a spec file is given, in that order and nothing else.
   */
  lemma ArgVectorLayout(verbose: bool, o: RunOption)
    ensures var args := ArgVector(verbose, o);
      && |args| == 2 + Flag(verbose) + Flag(IsDebug(o)) + Flag(HasTarget(o))
      && args[0] == "run" && args[1] == "--simple-console"
      && (verbose ==> args[2] == "--verbose")
      && (IsDebug(o) ==> args[2 + Flag(verbose)] == "--hide-suggestion")
      && (HasTarget(o) ==> args[|args| - 1] == Target(o))
      && (!HasTarget(o) ==> forall k :: 2 <= k < |args| ==> args[k] in {"--verbose", "--hide-suggestion"})
  {
  }

  /**
   * The target names the spec file, and the line when there is one: the
   * suffix after the file is `:` and the line's decimal notation, which
   * holds no `:` and reads back as the line.
   */
  lemma TargetRoundTrip(o: RunOption)
    requires HasTarget(o)
    ensures var t := Target(o); var f := o.specFile.value;
      && t[..|f|] == f
      && (!HasLine(o) ==> t == f)
      && (HasLine(o) ==> |t| > |f| + 1 && t[|f|] == ':' && ':' !in t[|f| + 1..]
                         && ParseInt(t[|f| + 1..]) == o.line.value)
  {
    var t := Target(o);
    var f := o.specFile.value;
    if HasLine(o) {
      var digits := IntToString(o.line.value);
      assert t == f + ":" + digits;
      assert t[|f| + 1..] == digits;
      ParseIntToString(o.line.value);
    } else {
      assert t == f + "";
    }
  }

  // ------------------------------------------------------------ sentinel

  /** `s.split(sep)` for a one-character separator. */
  function SplitOn(s: string, sep: char): (parts: seq<string>)
    ensures |parts| >= 1
    decreases |s|
  {
    if s == [] then [""]
    else if s[0] == sep then [""] + SplitOn(s[1..], sep)
    else var rest := SplitOn(s[1..], sep); [[s[0]] + rest[0]] + rest[1..]
  }

  function CountEqual(xs: seq<string>, s: string): nat {
    if xs == [] then 0 else CountEqual(xs[..|xs| - 1], s) + (if xs[|xs| - 1] == s then 1 else 0)
  }

  /** Debugger launches the callback makes for one emitted line: one per `\n`-piece equal to the sentinel. */
  function LaunchesFor(lineText: string): nat {
    CountEqual(SplitOn(lineText, '\n'), SENTINEL)
  }

  function Launches(lines: seq<string>): nat {
    if lines == [] then 0 else Launches(lines[..|lines| - 1]) + LaunchesFor(lines[|lines| - 1])
  }

  lemma {:induction false} SplitOnNoSep(x: string, sep: char)
    requires sep !in x
    ensures SplitOn(x, sep) == [x]
    decreases |x|
  {
    if x != [] {
      assert sep !in x[1..];
      SplitOnNoSep(x[1..], sep);
      assert [x[0]] + x[1..] == x;
    }
  }

  lemma {:induction false} SplitOnTerminated(x: string, sep: char)
    requires sep !in x
    ensures SplitOn(x + [sep], sep) == [x, ""]
    decreases |x|
  {
    var s := x + [sep];
    if x == [] {
      assert s[1..] == [];
    } else {
      assert s[0] == x[0] && s[1..] == x[1..] + [sep];
      assert sep !in x[1..];
      SplitOnTerminated(x[1..], sep);
      assert [x[0]] + x[1..] == x;
    }
  }

  /** A reassembled line launches the debugger once if it is the sentinel, and not otherwise. */
  lemma LaunchesForLine(x: string)
    requires '\n' !in x
    ensures LaunchesFor(x + "\n") == if x == SENTINEL then 1 else 0
  {
    SplitOnTerminated(x, '\n');
    var parts: seq<string> := [x, ""];
    assert parts[..1] == [x] && [x][..0] == [];
    assert SENTINEL != "" by {
      assert |SENTINEL| == 26;
    }
    assert CountEqual(parts, SENTINEL) == CountEqual([x], SENTINEL);
    assert CountEqual([x], SENTINEL) == if x == SENTINEL then 1 else 0;
  }

  lemma {:induction false} LaunchesAppend(a: seq<string>, b: seq<string>)
    ensures Launches(a + b) == Launches(a) + Launches(b)
    decreases |b|
  {
    if b == [] {
      assert a + b == a;
    } else {
      assert (a + b)[..|a + b| - 1] == a + b[..|b| - 1];
      LaunchesAppend(a, b[..|b| - 1]);
    }
  }

  /** A chunk holding one whole line, fed with nothing pending, emits that line. */
  lemma EmittedOneLine(x: string)
    requires '\n' !in x && !EndsInCR(x)
    ensures Emitted("", x + "\n") == [x + "\n"]
  {
    SplitTerminated(x);
    var g := Prepend("", [x, ""]);
    assert g == [x, ""] by {
      assert "" + x == x;
    }
    assert g[..1] == [x];
  }

  /**
   * The sentinel split anywhere between two chunks is still recognised, once:
   * the two chunks emit exactly the sentinel line and one launch.
   */
  lemma SentinelAcrossChunks(k: nat)
    requires k <= |SENTINEL|
    ensures var c1, c2 := SENTINEL[..k], SENTINEL[k..] + "\n";
      && Emitted("", c1) + Emitted(Pending("", c1), c2) == [SENTINEL + "\n"]
      && Launches(Emitted("", c1)) + Launches(Emitted(Pending("", c1), c2)) == 1
  {
    SentinelPlain();
    LineAcrossChunks(SENTINEL, k);
    var c1, c2 := SENTINEL[..k], SENTINEL[k..] + "\n";
    LaunchesAppend(Emitted("", c1), Emitted(Pending("", c1), c2));
    OneLaunch();
  }

  /**
   * A CRLF-terminated sentinel whose `\r` and `\n` arrive in different
   * chunks is never recognised: the first chunk emits nothing, the second
   * emits the sentinel with `\r\n` attached, and that line, split on `\n`,
   * holds no piece equal to the sentinel.
   */
  lemma SentinelSplitAfterCR()
    ensures Emitted("", SENTINEL + "\r") == [] && Pending("", SENTINEL + "\r") == SENTINEL + "\r"
    ensures Emitted(SENTINEL + "\r", "\n") == [SENTINEL + "\r\n"]
    ensures LaunchesFor(SENTINEL + "\r\n") == 0
  {
    SentinelPlain();
    var c1 := SENTINEL + "\r";
    assert '\n' !in c1;
    BreakFreeChunk("", c1);
    assert "" + c1 == c1;
    SplitBreaksNewline("\n");
    assert "\n"[1..] == [];
    var g := Prepend(c1, SplitBreaks("\n"));
    assert g == [c1 + "", ""];
    assert c1 + "" == c1;
    assert g[..1] == [c1];
    assert c1 + "\n" == SENTINEL + "\r\n";
    SplitOnTerminated(c1, '\n');
    var parts: seq<string> := [c1, ""];
    assert parts[..1] == [c1] && [c1][..0] == [];
    assert |c1| != |SENTINEL| && |SENTINEL| != 0;
    assert CountEqual(parts, SENTINEL) == CountEqual([c1], SENTINEL);
  }

  /** Any line without `\r` split at any point between two chunks is emitted whole. */
  lemma LineAcrossChunks(x: string, k: nat)
    requires '\n' !in x && '\r' !in x && k <= |x|
    ensures Emitted("", x[..k]) + Emitted(Pending("", x[..k]), x[k..] + "\n") == [x + "\n"]
  {
    var c1, c2 := x[..k], x[k..] + "\n";
    assert !EndsInCR(c1) by {
      if k > 0 {
        assert c1[k - 1] == x[k - 1];
      }
    }
    assert !EndsInCR(x) by {
      if x != [] {
        assert x[|x| - 1] in x;
      }
    }
    SplitIndependence("", c1, c2);
    assert c1 + c2 == x + "\n";
    EmittedOneLine(x);
  }

  /** The sentinel holds no line break. */
  lemma SentinelPlain()
    ensures '\n' !in SENTINEL && '\r' !in SENTINEL && !EndsInCR(SENTINEL)
  {
    assert forall i :: 0 <= i < |SENTINEL| ==> SENTINEL[i] != '\n' && SENTINEL[i] != '\r';
  }

  /** The sentinel line, reassembled, launches the debugger once. */
  lemma OneLaunch()
    ensures Launches([SENTINEL + "\n"]) == 1
  {
    SentinelPlain();
    LaunchesForLine(SENTINEL);
    assert [SENTINEL + "\n"][..0] == [];
  }

  // ------------------------------------------------------------ runner

  class GaugeRunner {
    const channel: OutputChannel
    var proc: Process?
    /** Messages shown to the user, in order. */
    var messages: seq<Message>
    /** Every `spawn` call, in order. */
    var spawns: seq<Spawn>
    /** Calls of `vimspector#Launch`. */
    var launches: nat

    constructor (channel: OutputChannel)
      ensures this.channel == channel && proc == null
      ensures messages == [] && spawns == [] && launches == 0
    {
      this.channel := channel;
      proc := null;
      messages := [];
      spawns := [];
      launches := 0;
    }

    /** The pushes with which `run` builds the argument vector of `gauge`. */
    static method BuildArgs(verbose: bool, opt: RunOption) returns (args: seq<string>)
      ensures args == ArgVector(verbose, opt)
    {
      args := ["run", "--simple-console"];
      if verbose {
        args := args + ["--verbose"];
      }
      if IsDebug(opt) {
        args := args + ["--hide-suggestion"];
      }
      if HasTarget(opt) {
        args := args + [Target(opt)];
      }
    }

    /** `createEnv`: the inherited environment, with `DEBUGGING` set when debugging. */
    static method CreateEnv(inherited: map<string, string>, debug: bool) returns (env: map<string, string>)
      ensures debug ==> "DEBUGGING" in env && env["DEBUGGING"] == "true"
      ensures !debug ==> env == inherited
      ensures forall k :: k != "DEBUGGING" ==> (k in env <==> k in inherited)
      ensures forall k :: k in env && k != "DEBUGGING" ==> env[k] == inherited[k]
    {
      env := inherited;
      if debug {
        env := env["DEBUGGING" := "true"];
      }
    }

    /**
     * `run`: refused while a process holds the slot; otherwise builds the
     * arguments and spawns `gauge`. Only a spawn that yields a pid fills the
     * slot, clears and shows the channel, and starts an auto-scroller (when
     * configured, and not when debugging). `pid` is the spawn's outcome;
     * a missing pid and the pid 0 are both falsy, so both count as failure.
     */
    method Run(opt: RunOption, config: Config, ws: Workspace, pid: Option<nat>) returns (p: Process?)
      modifies this, channel
      ensures old(proc) != null ==>
                && p == null && proc == old(proc)
                && messages == old(messages) + [Message(BUSY_MESSAGE, Error)]
                && spawns == old(spawns) && launches == old(launches)
                && channel.content == old(channel.content) && channel.visible == old(channel.visible)
      ensures old(proc) == null ==>
                && messages == old(messages) && launches == old(launches)
                && spawns == old(spawns) + [Spawn("gauge", ArgVector(config.verbose, opt),
                                                  WorkspaceFolderPath(ws.folder, ws.cwd),
                                                  if IsDebug(opt) then ws.env["DEBUGGING" := "true"] else ws.env)]
      ensures old(proc) == null && !Spawned(pid) ==>
                && p == null && proc == null
                && channel.content == old(channel.content) && channel.visible == old(channel.visible)
      ensures old(proc) == null && Spawned(pid) ==>
                && p != null && fresh(p) && proc == p
                && p.pid == pid.value && p.runner == this && !p.killed
                && fresh(p.reassembler) && p.reassembler.Valid() && p.reassembler.acc == ""
                && p.reassembler.fed == "" && p.reassembler.emitted == [] && p.reassembler.seamless
                && channel.content == "" && channel.visible
                && (p.scroll != null <==> config.autoScrollOutputWindow && !IsDebug(opt))
                && (p.scroll != null ==>
                      fresh(p.scroll) && p.scroll.channel == channel
                      && p.scroll.to == Ticking && p.scroll.finalScrolls == 0)
    {
      if proc != null {
        messages := messages + [Message(BUSY_MESSAGE, Error)];
        return null;
      }

      var args := BuildArgs(config.verbose, opt);
      var env := CreateEnv(ws.env, IsDebug(opt));
      assert env == if IsDebug(opt) then ws.env["DEBUGGING" := "true"] else ws.env;
      spawns := spawns + [Spawn("gauge", args, WorkspaceFolderPath(ws.folder, ws.cwd), env)];
      if !Spawned(pid) {
        proc := null;
        return null;
      }

      channel.Clear();
      channel.Show();

      var scroll: AutoScroll? := null;
      if config.autoScrollOutputWindow && !IsDebug(opt) {
        scroll := new AutoScroll(channel);
        scroll.Start();
      }
      p := new Process(pid.value, this, scroll);
      proc := p;
    }

    /** `stop`: kills the process in the slot and frees the slot; idle, does nothing. */
    method Stop()
      modifies this, proc
      ensures proc == null
      ensures old(proc) != null ==> old(proc).killed
      ensures messages == old(messages) && spawns == old(spawns) && launches == old(launches)
    {
      if proc != null {
        proc.Kill();
        proc := null;
      }
    }
  }

  /** `stop` twice in a row does what `stop` once does: the second finds the slot empty. */
  method StopTwice(r: GaugeRunner)
    modifies r, r.proc
    ensures r.proc == null
    ensures old(r.proc) != null ==> old(r.proc).killed
    ensures r.messages == old(r.messages) && r.spawns == old(r.spawns) && r.launches == old(r.launches)
  {
    r.Stop();
    r.Stop();
  }

  /**
   * The exit handler checks no ownership: when a stopped process exits
   * after the next run has started, its exit frees the slot although the
   * newer process still runs, and a further `run` is no longer refused.
   */
  method StaleExitFreesSlot(r: GaugeRunner, first: Process, opt: RunOption, config: Config, ws: Workspace, pid: nat)
      returns (second: Process?)
    requires r.proc == first && first.runner == r && pid > 0
    modifies r, r.channel, first, first.scroll
    ensures second != null && !second.killed && first.killed
    ensures r.proc == null
  {
    r.Stop();
    second := r.Run(opt, config, ws, Some(pid));
    first.OnExit(None);
  }

  /**
   * A spawned `gauge` process together with the handlers `run` attaches to
   * it: the reassembler and the scroller they capture are fields here.
   */
  class Process {
    const pid: nat
    const runner: GaugeRunner
    const reassembler: LineReassembler
    const scroll: AutoScroll?
    var killed: bool

    constructor (pid: nat, runner: GaugeRunner, scroll: AutoScroll?)
      ensures this.pid == pid && this.runner == runner && this.scroll == scroll && !killed
      ensures fresh(reassembler) && reassembler.Valid() && reassembler.acc == ""
      ensures reassembler.fed == "" && reassembler.emitted == [] && reassembler.seamless
    {
      this.pid := pid;
      this.runner := runner;
      this.scroll := scroll;
      reassembler := new LineReassembler();
      killed := false;
    }

    method Kill()
      modifies this
      ensures killed
    {
      killed := true;
    }

    /**
     * The stdout handler: every complete line goes to the channel, and each
     * line equal to the sentinel launches the debugger.
     */
    method OnStdout(chunk: string)
      requires reassembler.Valid()
      modifies reassembler, runner, runner.channel
      ensures reassembler.Valid()
      ensures reassembler.acc == Pending(old(reassembler.acc), chunk)
      ensures reassembler.fed == old(reassembler.fed) + chunk
      ensures reassembler.emitted == old(reassembler.emitted) + Emitted(old(reassembler.acc), chunk)
      ensures reassembler.seamless == (old(reassembler.seamless) && !EndsInCR(old(reassembler.fed)))
      ensures runner.channel.content == old(runner.channel.content) + Concat(Emitted(old(reassembler.acc), chunk))
      ensures runner.channel.visible == old(runner.channel.visible)
      ensures runner.launches == old(runner.launches) + Launches(Emitted(old(reassembler.acc), chunk))
      ensures runner.proc == old(runner.proc) && runner.messages == old(runner.messages)
      ensures runner.spawns == old(runner.spawns)
    {
      var lines := reassembler.Feed(chunk);
      for i := 0 to |lines|
        invariant runner.channel.content == old(runner.channel.content) + Concat(lines[..i])
        invariant runner.channel.visible == old(runner.channel.visible)
        invariant runner.launches == old(runner.launches) + Launches(lines[..i])
        invariant runner.proc == old(runner.proc) && runner.messages == old(runner.messages)
        invariant runner.spawns == old(runner.spawns)
        modifies runner, runner.channel
      {
        OnLine(lines[i]);
        assert lines[..i + 1][..i] == lines[..i];
        Assoc(old(runner.channel.content), Concat(lines[..i]), lines[i]);
      }
      assert lines[..|lines|] == lines;
    }

    /**
     * The callback the reassembler calls with each line: append it to the
     * channel, then launch the debugger for every `\n`-separated piece of
     * it that is the sentinel.
     */
    method OnLine(lineText: string)
      modifies runner, runner.channel
      ensures runner.channel.content == old(runner.channel.content) + lineText
      ensures runner.channel.visible == old(runner.channel.visible)
      ensures runner.launches == old(runner.launches) + LaunchesFor(lineText)
      ensures runner.proc == old(runner.proc) && runner.messages == old(runner.messages)
      ensures runner.spawns == old(runner.spawns)
    {
      runner.channel.Append(lineText);
      var parts := SplitOn(lineText, '\n');
      for j := 0 to |parts|
        invariant runner.launches == old(runner.launches) + CountEqual(parts[..j], SENTINEL)
        invariant runner.channel.content == old(runner.channel.content) + lineText
        invariant runner.channel.visible == old(runner.channel.visible)
        invariant runner.proc == old(runner.proc) && runner.messages == old(runner.messages)
        invariant runner.spawns == old(runner.spawns)
        modifies runner
      {
        assert parts[..j + 1][..j] == parts[..j];
        if parts[j] == SENTINEL {
          runner.launches := runner.launches + 1;
        }
      }
      assert parts[..|parts|] == parts;
    }

    /**
     * The exit handler: appends `Exited: <code>` (`null` after a signal),
     * frees the runner's slot whatever process holds it, and stops the
     * scroller this run started.
     */
    method OnExit(code: Option<int>)
      modifies runner, runner.channel, scroll
      ensures runner.channel.content == old(runner.channel.content) + ("Exited: " + CodeText(code)) + "\n"
      ensures runner.channel.visible == old(runner.channel.visible)
      ensures runner.proc == null
      ensures runner.messages == old(runner.messages) && runner.spawns == old(runner.spawns)
      ensures runner.launches == old(runner.launches)
      ensures scroll != null ==>
                scroll.to == Idle
                && scroll.finalScrolls == old(scroll.finalScrolls) + (if old(scroll.to) == Ticking then 1 else 0)
    {
      runner.channel.AppendLine("Exited: " + CodeText(code));
      runner.proc := null;
      if scroll != null {
        scroll.Stop();
      }
    }
  }

  /** `${code}` for the exit code, which is `null` when a signal ended the process. */
  function CodeText(code: Option<int>): string {
    match code
    case None => "null"
    case Some(n) => IntToString(n)
  }
}
