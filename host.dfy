/**
 * The parts of the host editor the core talks to, reduced to the state
 * they touch: an output channel (a named, append-only log buffer that can
 * be cleared and shown) and the editor's windows of the current tab page.
 */
module Host {

  class OutputChannel {
    const name: string
    var content: string
    var visible: bool

    constructor (name: string)
      ensures this.name == name && content == "" && !visible
    {
      this.name := name;
      content := "";
      visible := false;
    }

    method Append(text: string)
      modifies this
      ensures content == old(content) + text && visible == old(visible)
    {
      content := content + text;
    }

    method AppendLine(text: string)
      modifies this
      ensures content == old(content) + text + "\n" && visible == old(visible)
    {
      content := content + text + "\n";
    }

    method Clear()
      modifies this
      ensures content == "" && visible == old(visible)
    {
      content := "";
    }

    /** `show(true)`: reveal the channel without taking the focus. */
    method Show()
      modifies this
      ensures visible && content == old(content)
    {
      visible := true;
    }
  }

  /** What the editor was asked to do, in order. */
  datatype EditorOp = SetWindow(win: nat) | SetBuffer(buf: nat) | ScrollToEnd

  /**
   * The windows of the current tab page, each given by the id of the buffer
   * it shows; a window is named by its position. The current buffer is
   * always the buffer of the current window.
   */
  class Editor {
    var windows: seq<nat>
    var curWin: nat
    var curBuf: nat
    var ops: seq<EditorOp>

    ghost predicate Valid()
      reads this
    {
      curWin < |windows| && windows[curWin] == curBuf
    }

    constructor (windows: seq<nat>, curWin: nat)
      requires curWin < |windows|
      ensures Valid() && this.windows == windows && this.curWin == curWin && ops == []
    {
      this.windows := windows;
      this.curWin := curWin;
      curBuf := windows[curWin];
      ops := [];
    }

    /** `nvim.setWindow(w)`: the current buffer follows the window. */
    method SetWindow(w: nat)
      requires Valid() && w < |windows|
      modifies this
      ensures Valid() && windows == old(windows) && curWin == w
      ensures ops == old(ops) + [EditorOp.SetWindow(w)]
    {
      curWin := w;
      curBuf := windows[w];
      ops := ops + [EditorOp.SetWindow(w)];
    }

    /** `nvim.setBuffer(b)`: the current window shows `b` from now on. */
    method SetBuffer(b: nat)
      requires Valid()
      modifies this
      ensures Valid() && curWin == old(curWin) && curBuf == b
      ensures windows == old(windows)[curWin := b]
      ensures ops == old(ops) + [EditorOp.SetBuffer(b)]
    {
      windows := windows[curWin := b];
      curBuf := b;
      ops := ops + [EditorOp.SetBuffer(b)];
    }

    /** `normal G`: move the cursor of the current window to the last line. */
    method ScrollToEnd()
      requires Valid()
      modifies this
      ensures Valid() && windows == old(windows) && curWin == old(curWin) && curBuf == old(curBuf)
      ensures ops == old(ops) + [EditorOp.ScrollToEnd]
    {
      ops := ops + [EditorOp.ScrollToEnd];
    }
  }
}
