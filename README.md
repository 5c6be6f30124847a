# coc-gauge run/stop core in Dafny

This is a model of the run/stop machinery of coc-gauge, the extension for coc.nvim (Vim/Neovim) that runs Gauge specifications. It covers four parts:

- `GaugeRunner` (src/run.ts):
  - keeps at most one `gauge` process in its `proc` slot;
  - builds the argument vector and environment;
  - reassembles the process's stdout chunks into lines;
  - launches the debugger when the `Runner Ready for Debugging` line appears;
  - reports the exit code when the process ends.
- `AutoScroll` (src/autoScroll.ts): the Idle/Ticking timer bookkeeping and the window search of one scroll, with the window and buffer saved and restored around it.
- The editor commands (src/commands.ts): the run/debug option records and the RenameStep scan, which collects a Gauge step and its continuation lines.
- The path and channel-name helpers of src/util.ts.

Modules, one per concern:

| file | module | contents |
|---|---|---|
| `text.dfy` | `Options`, `Text` | `Option`; the JavaScript string built-ins the core relies on: `trim` (ECMAScript white space), `join`, integer `toString` with a parser for it |
| `host.dfy` | `Host` | the editor as the core sees it: an output channel (`content`, `visible`) and an editor with a window list of buffer ids, a current window and buffer, and a log of switch/scroll operations |
| `util.dfy` | `Util` | `getWorkspaceFolderPath`, `outputChannelName` |
| `reassembler.dfy` | `Reassembler` | `filterStdoutDataDumpsToTextLines` as a `LineReassembler` class with an `acc` field |
| `autoscroll.dfy` | `Scroll` | `AutoScroll` with its `to` field, a counter of the final scrolls `stop` schedules, and `scrollInner` |
| `run.dfy` | `Run` | `GaugeRunner`; `Process`, which holds the stdout and exit handlers a run attaches to a spawned process, with the reassembler and scroller they capture as fields |
| `commands.dfy` | `Commands` | the run/debug option records, `getCurrentFileName`, the RenameStep scan and decision |

Inputs the source reads from the host become parameters:
- the configuration (`Config`);
- the inherited environment, workspace folder and cwd (`Workspace`);
- the spawn outcome (`pid: Option<nat>`);
- the document lines;
- the user's reply to the name prompt.

Effects on the outside world are recorded in fields:
- messages shown;
- `spawn` calls;
- debugger launches;
- final scrolls scheduled;
- editor operations.

The reassembler specification is stated in two functions. `Emitted(acc, chunk)` is the list of lines a chunk emits, given what is pending, and `Pending(acc, chunk)` is what stays pending. Both are computed from `SplitBreaks`, a recursive definition of `split(/\r?\n/)`.

## Model

| member | source | states |
|---|---|---|
| `Text.Trim` | src/commands.ts:73 | `trim` leaves an empty string exactly when the input is all white space; otherwise the result starts and ends with a non-white-space character |
| `Text.TrimSlice` | src/commands.ts:73 | what `trim` keeps is one slice of the input, with only white space in front of it and after it |
| `Text.TrimTwice` | src/commands.ts:74 | trimming a trimmed string changes nothing, so the second `trim` in the loop test is redundant |
| `Text.IntToString` | src/run.ts:31 | `line.toString()` is non-empty, made of decimal digits and an optional leading `-` |
| `Text.ParseIntToString` | src/run.ts:31 | the decimal notation of a line number reads back as that number |
| `Text.JoinCount` | src/commands.ts:83 | the spaces of the space-joined name are the collected lines' own spaces plus one per seam |
| `Text.JoinAppend` | src/commands.ts:83 | joining two non-empty lists puts exactly one separator between the join of the first and the join of the second |
| `Util.WorkspaceFolderPath` | src/util.ts:3-4 | no folder gives the cwd; a `file://` uri loses exactly those 7 characters; any other uri is returned unchanged |
| `Util.OutputChannelName` | src/util.ts:6 | the channel uri is `output:///` followed by the name |
| `Util.OutputChannelNameInjective` | src/util.ts:6 | distinct channel names give distinct uris |
| `Util.FolderPathOfFileUri` | src/util.ts:4 | a folder `file:///a` gives the path `/a` |
| `Reassembler.SplitBreaks` | src/run.ts:99 | `split(/\r?\n/)` gives at least one fragment, and no fragment holds a `\n` |
| `Reassembler.SplitCount` | src/run.ts:99 | a chunk splits into one more fragment than it has `\n` characters |
| `Reassembler.SplitNoBreak` | src/run.ts:99 | a chunk without `\n` splits into itself alone |
| `Reassembler.SplitTerminated` | src/run.ts:99 | a line without `\n`, not ending in `\r`, followed by `\n` splits into the line and an empty remainder |
| `Reassembler.SplitAppend` | src/run.ts:99 | splitting a concatenation glues the last fragment of the first part to the first of the second, unless the first part ends in `\r` |
| `Reassembler.Terminate` | src/run.ts:106 | every complete fragment is passed on with one `\n` appended |
| `Reassembler.EmittedCount` | src/run.ts:99-106 | a chunk emits exactly one line per line break it contains |
| `Reassembler.EmittedShape` | src/run.ts:99-106 | every emitted line ends in its single `\n`, and what stays pending holds no `\n` |
| `Reassembler.EmptyChunk` | src/run.ts:100-105 | an empty chunk emits nothing and leaves `acc` unchanged |
| `Reassembler.BreakFreeChunk` | src/run.ts:100-105 | a chunk with no line break emits nothing and is appended whole to `acc` |
| `Reassembler.ConcatChunk` | src/run.ts:96-108 | with no `\r`, the emitted lines followed by the new `acc` spell out the old `acc` followed by the chunk, in order |
| `Reassembler.PrependConcat` | src/run.ts:100-105 | putting the pending `acc` in front of the first fragment puts it in front of the whole reassembled text |
| `Reassembler.SplitIndependence` | src/run.ts:96-108 | feeding `c1` then `c2` emits the same lines and leaves the same `acc` as feeding `c1 + c2`, when `c1` does not end in `\r` |
| `Reassembler.CRLFSeam` | src/run.ts:99 | a `\r\n` split between two chunks is emitted as a line `\r\n`, while the same bytes in one chunk give the empty line `\n` |
| `Reassembler.FeedKeepsConsistent` | src/run.ts:96-108 | one feed keeps `acc` free of `\n`; with no `\r` fed, everything emitted followed by `acc` equals everything fed; while no fed chunk ended in `\r`, the emitted lines and `acc` equal those of feeding all chunks at once |
| `Reassembler.LineReassembler.constructor` | src/run.ts:97 | a new reassembler has nothing pending |
| `Reassembler.PrependParts` | src/run.ts:101-105 | both branches of the handler, `acc` into the first complete fragment or into the last fragment, amount to putting `acc` in front of the fragments |
| `Reassembler.LineReassembler.Feed` | src/run.ts:98-107 | returns `Emitted(acc, chunk)`, sets `acc` to `Pending(acc, chunk)` and keeps the invariant above over everything fed so far |
| `Scroll.FirstIndex` | src/autoScroll.ts:37-39 | the index found shows the buffer and no earlier window does; none is found only when no window shows it |
| `Scroll.FirstIndexAt` | src/autoScroll.ts:37-39 | a window showing the buffer with none before it is the one found |
| `Scroll.FirstIndexNone` | src/autoScroll.ts:37-39 | when no window shows the buffer, none is found |
| `Scroll.AutoScroll.constructor` | src/autoScroll.ts:9 | a new scroller is idle and has scheduled nothing |
| `Scroll.AutoScroll.Start` | src/autoScroll.ts:11-14 | `start` always ends with a ticking timer; started while ticking, it schedules one final scroll through its `stop` |
| `Scroll.AutoScroll.Stop` | src/autoScroll.ts:16-22 | `stop` ends idle; it schedules exactly one final scroll when a timer was set and none otherwise |
| `Scroll.StopTwice` | src/autoScroll.ts:16-22 | `stop`; `stop` schedules no more final scrolls than one `stop` |
| `Scroll.AutoScroll.ScrollInner` | src/autoScroll.ts:29-48 | no channel document means no editor operation; otherwise switch to the first window showing the channel buffer, set the buffer, scroll to the end, switch back. Windows, current window and current buffer end as they started |
| `Run.ArgVectorLayout` | src/run.ts:23-32 | arguments are `run`, `--simple-console`, then `--verbose` iff verbose, `--hide-suggestion` iff debugging, and the target iff the spec file is non-empty, in that order |
| `Run.GaugeRunner.BuildArgs` | src/run.ts:23-32 | the pushes of `run` produce `ArgVector`, the layout `Run.ArgVectorLayout` states |
| `Run.TargetRoundTrip` | src/run.ts:31 | the target is the spec file alone when the line is absent or 0, else the file, `:` and the line's digits, which read back as the line |
| `Run.LaunchesForLine` | src/run.ts:61-64 | a reassembled line launches the debugger once if it is the sentinel and not otherwise |
| `Run.EmittedOneLine` | src/run.ts:99-106 | a whole line fed with nothing pending is emitted as that line |
| `Run.LineAcrossChunks` | src/run.ts:96-108 | any line without `\r` or `\n`, split at any point between two chunks and terminated, is emitted whole and once |
| `Run.SentinelAcrossChunks` | src/run.ts:59-66 | the sentinel split at any point between two chunks is emitted as one line and launches the debugger exactly once |
| `Run.SentinelSplitAfterCR` | src/run.ts:59-66 | a CRLF-terminated sentinel whose `\r` ends one chunk and whose `\n` starts the next is emitted as the line sentinel + `\r\n`, whose `\n`-pieces include no sentinel, so the debugger is not launched |
| `Run.GaugeRunner.constructor` | src/run.ts:15 | a new runner holds no process |
| `Run.GaugeRunner.CreateEnv` | src/run.ts:87-93 | the environment is the inherited one, with `DEBUGGING` set to `true` exactly when debugging, and no other key changed |
| `Run.GaugeRunner.Run` | src/run.ts:17-78 | busy: only the error message `Gauge is running.` is added. Otherwise one `gauge` spawn with the argument vector, the workspace path and the environment. Without a pid, or with the pid 0, the slot stays empty and the channel untouched. With a positive pid the slot holds a new process whose reassembler has nothing pending and has been fed nothing, the channel is cleared and shown, and a started scroller exists iff auto-scroll is configured and debugging is off |
| `Run.GaugeRunner.Stop` | src/run.ts:80-85 | `stop` kills the held process and frees the slot; with the slot empty it changes nothing |
| `Run.StopTwice` | src/run.ts:80-85 | `stop` twice leaves the same state as `stop` once |
| `Run.Process.OnStdout` | src/run.ts:57-67 | the chunk is fed to the run's reassembler, whose history grows by the chunk and the lines it emits; the channel receives those lines, verbatim and in order, and its visibility is unchanged; the debugger is launched once per emitted sentinel line; the slot is left alone |
| `Run.Process.OnLine` | src/run.ts:59-66 | the callback appends the line to the channel verbatim, leaves its visibility unchanged, and launches the debugger once per `\n`-separated piece equal to the sentinel |
| `Run.Process.OnExit` | src/run.ts:71-77 | the channel receives `Exited: <code>` and a newline (`null` for a signal) and its visibility is unchanged, the slot is freed whichever process holds it, and the run's scroller is stopped |
| `Run.StaleExitFreesSlot` | src/run.ts:71-77 | after `stop` and a new `run` that gets a positive pid, the exit of the stopped process frees the slot while the new process still runs |
| `Commands.CurrentFileName` | src/commands.ts:4 | a leading `file:///` becomes `/`; any other string is unchanged |
| `Commands.CurrentFileNameAsFolderPath` | src/commands.ts:4 | for a `file:///` uri the file name agrees with the workspace-folder path of that uri |
| `Commands.CommandOptionMapping` | src/commands.ts:15-46 | every run/debug command names the current file. Only the on-cursor commands pass the cursor line, and only the Debug commands set `debug`. So `--hide-suggestion` appears exactly for Debug commands, and a `:line` suffix exactly for on-cursor commands away from line 0 of a non-empty file name |
| `Commands.FirstNonSpaceTrim` | src/commands.ts:73 | trimming leaves nothing exactly when there is no non-white-space character, and otherwise starts with the first one |
| `Commands.TestStepEnd` | src/commands.ts:73-74 | the loop test on the next line holds exactly when that line ends the step: blank, or its first non-white-space character is `#`, `*` or `\|` |
| `Commands.ContinuationSpec` | src/commands.ts:69-80 | the collected continuation lines are exactly the contiguous lines after the cursor, untrimmed, that do not end the step, and the line after them ends it |
| `Commands.RunCons` | src/commands.ts:78-79 | a line that does not end the step, put in front of such a run, gives the run one line earlier |
| `Commands.ScanStep` | src/commands.ts:64-80 | nothing is collected unless the cursor line is `*` then a non-`*` character with no line terminator; otherwise the trimmed cursor line followed by the continuation lines |
| `Commands.Decide` | src/commands.ts:86-92 | an empty reply cancels with `Empty name, canceled`; a rename is requested iff the reply is non-empty and differs from the current name, and then with the reply |
| `Commands.RenameStep` | src/commands.ts:62-93 | no prompt unless the cursor line starts a step; otherwise the current name is the collected lines joined with single spaces, and the outcome is the decision on the reply |

## Left out

- src/index.ts: not part of this model. It holds activation and registration, plus older inline copies of `run` and RenameStep that the command classes supersede.
- src/referenceProvider.ts: not part of this model. It makes two language-server requests.
- src/config.ts: not part of this model. Of its three settings, `run` reads two, `verbose` (default off) and `autoScrollOutputWindow` (default on); these are the `Config` parameter of `Run`. `enable` is not read by the core.
- `spawn`, `kill` and `Object.create(process.env)`:
  - a spawn is recorded as a `Spawn` value and its outcome is the `pid` parameter;
  - `kill` sets a `killed` flag;
  - the environment is a map of strings.
- Run.GaugeRunner.Run: `DEBUGGING` is set to the boolean `true`, which becomes the string `"true"` in the child's environment. The model writes the string.
- The stderr handler appends `e.message` of a data chunk rather than the chunk (src/run.ts:68-70). Nothing is claimed about it.
- A spawn without a pid later emits an `error` event with the message `Failed to run gauge: …` (src/run.ts:39-41). That event is asynchronous and its text comes from the operating system, so it is not modelled; the slot staying empty is.
- The 300 ms `setInterval`/`setTimeout` timers and the promise `lock` (src/autoScroll.ts:4, 24-27) are asynchronous interleavings. A scheduled final scroll is a counter, and one scroll is a call of `ScrollInner`, taken whole.
- The `lock` is meant to serialise scrolls, but it does not. Several ticks waiting on the same promise each assign `lock = this.scrollInner()` once it settles, so their `scrollInner` calls can interleave (src/autoScroll.ts:24-27). The model does not capture that interleaving.
- Scroll.AutoScroll.ScrollInner: the nvim calls are abstracted as a window list of buffer ids plus a current window and buffer; `normal G` is the `ScrollToEnd` operation.
- The `input` prompt, `vimspector#Launch`, `CocAction('rename')` and the shown messages are recorded as values or counters; their effects are outside the model.
- The `normal! :<C-u>` that leaves visual mode before the rename prompt (src/commands.ts:85) is not modelled. No member records it.
- Reassembler.LineReassembler.Feed, Reassembler.SplitIndependence: chunks are taken as already-decoded text. The stdout handler decodes each Buffer on its own with `data.toString()` (src/run.ts:99), as UTF-8. A chunk boundary inside a multi-byte character decodes to U+FFFD on each side of it. So independence of chunk boundaries holds only at character boundaries. Line counts and sentinel detection are unaffected, because `\n`, `\r` and the sentinel's characters are all ASCII.
- `workspace.getLine` past the end of the document is taken to read `""`, which ends the scan.
- Text.IntToString: JavaScript prints very large numbers in exponent form. The model prints every integer in plain decimal notation.
- A line is a mathematical integer. The cursor line is passed as the editor reports it (0-based), with no conversion.

Behaviour the model keeps as the code has it:
- The exit of a stopped process frees the slot even when the next run already holds it (src/run.ts:73, `Run.StaleExitFreesSlot`).
- A `\r\n` split between two chunks is not one break (src/run.ts:99, `Reassembler.CRLFSeam`). Reassembly is independent of chunk boundaries only at boundaries that do not fall after a `\r` (`Reassembler.SplitIndependence`).
- A CRLF-terminated sentinel split between its `\r` and `\n` does not launch the debugger (src/run.ts:61-62, `Run.SentinelSplitAfterCR`).
- The cursor line is passed to `gauge` as the editor reports it, 0-based (src/commands.ts:17, 36).
- Nothing flushes the pending partial line when the process exits (src/run.ts:71-77).
