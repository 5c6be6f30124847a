/**
 * The auto-scroller of src/autoScroll.ts: a periodic timer that moves the
 * cursor of the window showing the output channel to its last line, with
 * one final scroll scheduled whenever the timer is stopped.
 */
module Scroll {
  import opened Options
  import opened Host
  import opened Util

  /** The `to` field: no interval timer, or one that ticks every 300 ms. */
  datatype Timer = Idle | Ticking

  /** The first window showing buffer `b`, if any. */
  function FirstIndex(windows: seq<nat>, b: nat): (r: Option<nat>)
    ensures r.Some? ==> r.value < |windows| && windows[r.value] == b
    ensures r.Some? ==> forall j :: 0 <= j < r.value ==> windows[j] != b
    ensures r.None? ==> b !in windows
  {
    if windows == [] then None
    else if windows[0] == b then Some(0)
    else match FirstIndex(windows[1..], b)
      case None => None
      case Some(i) => Some(i + 1)
  }

  /** The first window showing `b` is found. */
  lemma FirstIndexAt(windows: seq<nat>, b: nat, i: nat)
    requires i < |windows| && windows[i] == b
    requires forall j :: 0 <= j < i ==> windows[j] != b
    ensures FirstIndex(windows, b) == Some(i)
  {
    var r := FirstIndex(windows, b);
    assert r.Some?;
    assert !(r.value < i) && !(i < r.value);
  }

  /** No window shows `b`: nothing is found. */
  lemma FirstIndexNone(windows: seq<nat>, b: nat)
    requires forall j :: 0 <= j < |windows| ==> windows[j] != b
    ensures FirstIndex(windows, b) == None
  {
  }

  /**
   * The window `scrollInner` acts on: the first one showing the buffer of
   * the channel's document, when that document exists.
   */
  function ScrollTarget(windows: seq<nat>, docs: map<string, nat>, channelName: string): Option<nat> {
    var uri := OutputChannelName(channelName);
    if uri in docs then FirstIndex(windows, docs[uri]) else None
  }

  /** What `scrollInner` asks of the editor: switch, scroll, switch back. */
  function ScrollOps(target: Option<nat>, chBuf: nat, savedWin: nat, savedBuf: nat): seq<EditorOp> {
    match target
    case None => []
    case Some(w) =>
      [EditorOp.SetWindow(w), EditorOp.SetBuffer(chBuf), EditorOp.ScrollToEnd,
       EditorOp.SetWindow(savedWin), EditorOp.SetBuffer(savedBuf)]
  }

  class AutoScroll {
    const channel: OutputChannel
    var to: Timer
    /** Final scrolls scheduled with `setTimeout` by `Stop`, counted. */
    var finalScrolls: nat

    constructor (channel: OutputChannel)
      ensures this.channel == channel && to == Idle && finalScrolls == 0
    {
      this.channel := channel;
      to := Idle;
      finalScrolls := 0;
    }

    /** Stops any running timer (scheduling its final scroll) and starts a new one. */
    method Start()
      modifies this
      ensures to == Ticking
      ensures finalScrolls == old(finalScrolls) + (if old(to) == Ticking then 1 else 0)
    {
      Stop();
      to := Ticking;
    }

    /** Clears a running timer and schedules exactly one final scroll; idle, does nothing. */
    method Stop()
      modifies this
      ensures to == Idle
      ensures finalScrolls == old(finalScrolls) + (if old(to) == Ticking then 1 else 0)
    {
      if to == Ticking {
        to := Idle;
        finalScrolls := finalScrolls + 1;
      }
    }

    /**
     * One scroll: on the first window of the tab page showing the channel's
     * buffer, move to the last line, then give the focus back to the window
     * and buffer that had it.
     */
    method ScrollInner(editor: Editor, docs: map<string, nat>)
      requires editor.Valid()
      modifies editor
      ensures editor.Valid()
      ensures editor.windows == old(editor.windows)
      ensures editor.curWin == old(editor.curWin) && editor.curBuf == old(editor.curBuf)
      ensures var uri := OutputChannelName(channel.name);
              editor.ops == old(editor.ops) +
                ScrollOps(ScrollTarget(old(editor.windows), docs, channel.name),
                          if uri in docs then docs[uri] else 0,
                          old(editor.curWin), old(editor.curBuf))
    {
      var uri := OutputChannelName(channel.name);
      if uri !in docs {
        return;
      }
      var chBuf := docs[uri];
      var curBuf := editor.curBuf;
      var curWin := editor.curWin;
      var windows := editor.windows;
      var i := 0;
      while i < |windows|
        invariant 0 <= i <= |windows|
        invariant forall j :: 0 <= j < i ==> windows[j] != chBuf
        invariant editor.Valid() && editor.windows == windows
        invariant editor.curWin == curWin && editor.curBuf == curBuf
        invariant editor.ops == old(editor.ops)
      {
        var b := windows[i];
        if b != chBuf {
          i := i + 1;
          continue;
        }
        ghost var ops0 := editor.ops;
        editor.SetWindow(i);
        editor.SetBuffer(chBuf);
        editor.ScrollToEnd();
        editor.SetWindow(curWin);
        editor.SetBuffer(curBuf);
        assert editor.ops == ops0 + ScrollOps(Some(i), chBuf, curWin, curBuf);
        FirstIndexAt(windows, chBuf, i);
        return;
      }
      FirstIndexNone(windows, chBuf);
    }
  }

  /** `stop` twice in a row schedules no more final scrolls than `stop` once. */
  method StopTwice(s: AutoScroll)
    modifies s
    ensures s.to == Idle
    ensures s.finalScrolls == old(s.finalScrolls) + (if old(s.to) == Ticking then 1 else 0)
  {
    s.Stop();
    s.Stop();
  }
}
