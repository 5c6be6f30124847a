/**
 * The stdout line reassembler of src/run.ts (`filterStdoutDataDumpsToTextLines`):
 * every chunk is split on `\r?\n`, the pending partial line is put in front
 * of the first fragment, every fragment but the last is emitted with a `\n`
 * appended, and the last fragment becomes the new pending partial line.
 */
module Reassembler {
  import opened Text

  predicate EndsInCR(s: string) {
    |s| > 0 && s[|s| - 1] == '\r'
  }

  /**
   * `s.split(/\r?\n/)`: the fragments between the line breaks, a break
   * being `\r\n` or a lone `\n`. No fragment holds a `\n`.
   */
  function SplitBreaks(s: string): (frags: seq<string>)
    ensures |frags| >= 1
    ensures forall i :: 0 <= i < |frags| ==> '\n' !in frags[i]
    decreases |s|
  {
    if s == [] then [""]
    else if s[0] == '\n' then [""] + SplitBreaks(s[1..])
    else if |s| >= 2 && s[0] == '\r' && s[1] == '\n' then [""] + SplitBreaks(s[2..])
    else
      var rest := SplitBreaks(s[1..]);
      [[s[0]] + rest[0]] + rest[1..]
  }

  /** The pending partial line put in front of the first fragment. */
  function Prepend(acc: string, frags: seq<string>): (g: seq<string>)
    requires |frags| >= 1
  {
    [acc + frags[0]] + frags[1..]
  }

  /** Each line with the `\n` the reassembler appends to it. */
  function Terminate(lines: seq<string>): (r: seq<string>)
    ensures |r| == |lines|
  {
    seq(|lines|, i requires 0 <= i < |lines| => lines[i] + "\n")
  }

  /** The lines one chunk makes the reassembler emit, given the pending partial line `acc`. */
  function Emitted(acc: string, chunk: string): seq<string> {
    var g := Prepend(acc, SplitBreaks(chunk));
    Terminate(g[..|g| - 1])
  }

  /** The pending partial line after one chunk. */
  function Pending(acc: string, chunk: string): string {
    var g := Prepend(acc, SplitBreaks(chunk));
    g[|g| - 1]
  }

  // ------------------------------------------------------------ splitting

  /** One fragment more than there are `\n` characters: `\r\n` and `\n` each count once. */
  lemma {:induction false} SplitCount(s: string)
    ensures |SplitBreaks(s)| == CountChar(s, '\n') + 1
    decreases |s|
  {
    if s == [] {
    } else if s[0] == '\n' {
      SplitCount(s[1..]);
    } else if |s| >= 2 && s[0] == '\r' && s[1] == '\n' {
      SplitCount(s[2..]);
      assert s[1..][1..] == s[2..];
    } else {
      SplitCount(s[1..]);
    }
  }

  /** A string with no `\n` is one fragment, itself. */
  lemma {:induction false} SplitNoBreak(s: string)
    requires '\n' !in s
    ensures SplitBreaks(s) == [s]
    decreases |s|
  {
    if s != [] {
      assert '\n' !in s[1..];
      SplitNoBreak(s[1..]);
      assert [s[0]] + s[1..] == s;
    }
  }

  /** Joins the last fragment of `a` with the first of `b`. */
  function Glue(a: seq<string>, b: seq<string>): seq<string>
    requires |a| >= 1 && |b| >= 1
  {
    a[..|a| - 1] + [a[|a| - 1] + b[0]] + b[1..]
  }

  lemma GlueCons(c: char, x: seq<string>, b: seq<string>)
    requires |x| >= 1 && |b| >= 1
    ensures Glue([[c] + x[0]] + x[1..], b) == [[c] + Glue(x, b)[0]] + Glue(x, b)[1..]
  {
    var a := [[c] + x[0]] + x[1..];
    var g := Glue(x, b);
    if |x| == 1 {
      assert a == [[c] + x[0]];
      assert g == [x[0] + b[0]] + b[1..];
      assert g[0] == x[0] + b[0] && g[1..] == b[1..];
      assert [c] + x[0] + b[0] == [c] + (x[0] + b[0]);
      assert Glue(a, b) == [[c] + x[0] + b[0]] + b[1..];
    } else {
      assert g[0] == x[0];
      assert g[1..] == x[1..|x| - 1] + [x[|x| - 1] + b[0]] + b[1..];
      assert a[..|a| - 1] == [[c] + x[0]] + x[1..|x| - 1];
    }
  }

  lemma GlueUnit(b: seq<string>)
    requires |b| >= 1
    ensures Glue([""], b) == b
  {
    assert "" + b[0] == b[0];
    assert [b[0]] + b[1..] == b;
  }

  lemma GlueEmptyFirst(x: seq<string>, b: seq<string>)
    requires |x| >= 1 && |b| >= 1
    ensures Glue([""] + x, b) == [""] + Glue(x, b)
  {
    assert ([""] + x)[..|x|] == [""] + x[..|x| - 1];
  }

  /**
   * Splitting a concatenation splits each part and joins the fragments at
   * the seam, unless the seam cuts a `\r\n` in two.
   */
  lemma {:induction false} SplitAppend(c1: string, c2: string)
    requires !EndsInCR(c1)
    ensures SplitBreaks(c1 + c2) == Glue(SplitBreaks(c1), SplitBreaks(c2))
    decreases |c1|
  {
    var s := c1 + c2;
    var s2 := SplitBreaks(c2);
    if c1 == [] {
      assert s == c2;
      GlueUnit(s2);
    } else if c1[0] == '\n' {
      SplitAppendNewline(c1, c2);
    } else if |c1| >= 2 && c1[0] == '\r' && c1[1] == '\n' {
      SplitAppendCRLF(c1, c2);
    } else {
      SplitAppendPlain(c1, c2);
    }
  }

  lemma {:induction false} SplitAppendNewline(c1: string, c2: string)
    requires !EndsInCR(c1) && |c1| >= 1 && c1[0] == '\n'
    ensures SplitBreaks(c1 + c2) == Glue(SplitBreaks(c1), SplitBreaks(c2))
    decreases |c1|, 0
  {
    var s := c1 + c2;
    assert s[0] == '\n' && s[1..] == c1[1..] + c2;
    SplitAppend(c1[1..], c2);
    assert SplitBreaks(s) == [""] + SplitBreaks(c1[1..] + c2);
    assert SplitBreaks(c1) == [""] + SplitBreaks(c1[1..]);
    GlueEmptyFirst(SplitBreaks(c1[1..]), SplitBreaks(c2));
  }

  lemma {:induction false} SplitAppendCRLF(c1: string, c2: string)
    requires !EndsInCR(c1) && |c1| >= 2 && c1[0] == '\r' && c1[1] == '\n'
    ensures SplitBreaks(c1 + c2) == Glue(SplitBreaks(c1), SplitBreaks(c2))
    decreases |c1|, 0
  {
    var s := c1 + c2;
    assert s[0] == '\r' && s[1] == '\n' && s[2..] == c1[2..] + c2;
    SplitAppend(c1[2..], c2);
    assert SplitBreaks(s) == [""] + SplitBreaks(c1[2..] + c2);
    assert SplitBreaks(c1) == [""] + SplitBreaks(c1[2..]);
    GlueEmptyFirst(SplitBreaks(c1[2..]), SplitBreaks(c2));
  }

  lemma {:induction false} SplitAppendPlain(c1: string, c2: string)
    requires !EndsInCR(c1) && |c1| >= 1 && c1[0] != '\n'
    requires !(|c1| >= 2 && c1[0] == '\r' && c1[1] == '\n')
    ensures SplitBreaks(c1 + c2) == Glue(SplitBreaks(c1), SplitBreaks(c2))
    decreases |c1|, 0
  {
    var s := c1 + c2;
    assert s[0] == c1[0] && s[1..] == c1[1..] + c2;
    assert c1[0] == '\r' ==> |c1| >= 2 && s[1] == c1[1];
    assert !(|s| >= 2 && s[0] == '\r' && s[1] == '\n');
    SplitAppend(c1[1..], c2);
    var x := SplitBreaks(c1[1..]);
    assert SplitBreaks(s) == [[c1[0]] + SplitBreaks(s[1..])[0]] + SplitBreaks(s[1..])[1..];
    assert SplitBreaks(c1) == [[c1[0]] + x[0]] + x[1..];
    GlueCons(c1[0], x, SplitBreaks(c2));
  }

  /** With no `\r` in the input, the fragments and the breaks give back the input. */
  lemma {:induction false} SplitConcat(s: string)
    requires '\r' !in s
    ensures var f := SplitBreaks(s); Concat(Terminate(f[..|f| - 1])) + f[|f| - 1] == s
    decreases |s|
  {
    if s != [] {
      var c, rest := s[0], s[1..];
      NoCRTail(s);
      SplitConcat(rest);
      var t := SplitBreaks(rest);
      if c == '\n' {
        SplitBreaksNewline(s);
        BreakStep(t, rest);
        assert "\n" + rest == s;
      } else {
        SplitBreaksPlain(s);
        CharStep(c, t, rest);
        assert [c] + rest == s;
      }
    }
  }

  lemma NoCRTail(s: string)
    requires s != [] && '\r' !in s
    ensures s[0] != '\r' && '\r' !in s[1..]
  {
    assert forall k :: 0 <= k < |s| - 1 ==> s[1..][k] == s[k + 1];
  }

  lemma SplitBreaksNewline(s: string)
    requires s != [] && s[0] == '\n'
    ensures SplitBreaks(s) == [""] + SplitBreaks(s[1..])
  {
  }

  lemma SplitBreaksPlain(s: string)
    requires s != [] && s[0] != '\n' && s[0] != '\r'
    ensures SplitBreaks(s) == [[s[0]] + SplitBreaks(s[1..])[0]] + SplitBreaks(s[1..])[1..]
  {
  }

  /** A line with its terminating `\n` splits into the line and an empty remainder. */
  lemma {:induction false} SplitTerminated(x: string)
    requires '\n' !in x && !EndsInCR(x)
    ensures SplitBreaks(x + "\n") == [x, ""]
    decreases |x|
  {
    var s := x + "\n";
    if x == [] {
      assert s == "\n";
      SplitBreaksNewline(s);
      assert s[1..] == [];
    } else {
      var tail := x[1..];
      assert s[1..] == tail + "\n";
      assert '\n' !in tail && !EndsInCR(tail) by {
        assert forall k :: 0 <= k < |tail| ==> tail[k] == x[k + 1];
      }
      SplitTerminated(tail);
      assert !(|s| >= 2 && s[0] == '\r' && s[1] == '\n') by {
        if |x| == 1 {
          assert x[|x| - 1] == s[0];
        } else {
          assert s[1] == x[1];
        }
      }
      assert s[0] == x[0] && x[0] != '\n';
      assert SplitBreaks(s) == [[x[0]] + tail, ""];
      assert [x[0]] + tail == x;
    }
  }

  /** A `\n` in front of the input puts an empty line in front of the fragments. */
  lemma BreakStep(t: seq<string>, rest: string)
    requires |t| >= 1 && Concat(Terminate(t[..|t| - 1])) + t[|t| - 1] == rest
    ensures var f := [""] + t; Concat(Terminate(f[..|f| - 1])) + f[|f| - 1] == "\n" + rest
  {
    var f := [""] + t;
    assert f[..|f| - 1] == [""] + t[..|t| - 1];
    PrefixLine("", t[..|t| - 1]);
  }

  /** Any other character in front of the input goes in front of the first fragment. */
  lemma CharStep(c: char, t: seq<string>, rest: string)
    requires |t| >= 1 && Concat(Terminate(t[..|t| - 1])) + t[|t| - 1] == rest
    ensures var f := [[c] + t[0]] + t[1..]; Concat(Terminate(f[..|f| - 1])) + f[|f| - 1] == [c] + rest
  {
    var f := [[c] + t[0]] + t[1..];
    if |t| == 1 {
      assert f[..|f| - 1] == [];
      assert Concat(Terminate([])) == "";
    } else {
      var tl := t[..|t| - 1];
      assert f[..|f| - 1] == [[c] + t[0]] + tl[1..];
      assert tl == [t[0]] + tl[1..];
      ConsFirstConcat(c, t[0], tl[1..]);
      assert f[|f| - 1] == t[|t| - 1];
    }
  }

  lemma PrefixLine(x: string, tl: seq<string>)
    ensures Concat(Terminate([x] + tl)) == x + "\n" + Concat(Terminate(tl))
  {
    assert Terminate([x] + tl) == [x + "\n"] + Terminate(tl);
    ConcatAppend([x + "\n"], Terminate(tl));
    assert Concat([x + "\n"]) == Concat([]) + (x + "\n");
  }

  lemma ConsFirstConcat(c: char, x: string, rest: seq<string>)
    ensures Concat(Terminate([[c] + x] + rest)) == [c] + Concat(Terminate([x] + rest))
  {
    PrefixLine([c] + x, rest);
    PrefixLine(x, rest);
  }

  // ------------------------------------------------------------ one chunk

  lemma TerminateAppend(a: seq<string>, b: seq<string>)
    ensures Terminate(a + b) == Terminate(a) + Terminate(b)
  {
  }

  /** A chunk emits exactly one line per line break (`\n` or `\r\n`) it contains. */
  lemma EmittedCount(acc: string, chunk: string)
    ensures |Emitted(acc, chunk)| == CountChar(chunk, '\n')
  {
    SplitCount(chunk);
  }

  /**
   * Every emitted line ends in a single `\n` and holds no other; the pending
   * partial line never holds a `\n`.
   */
  lemma EmittedShape(acc: string, chunk: string)
    requires '\n' !in acc
    ensures forall i :: 0 <= i < |Emitted(acc, chunk)| ==>
              var l := Emitted(acc, chunk)[i];
              |l| >= 1 && l[|l| - 1] == '\n' && '\n' !in l[..|l| - 1]
    ensures '\n' !in Pending(acc, chunk)
  {
    var f := SplitBreaks(chunk);
    var g := Prepend(acc, f);
    assert '\n' !in g[0] by {
      assert g[0] == acc + f[0];
    }
    assert forall i :: 1 <= i < |g| ==> g[i] == f[i];
    forall i | 0 <= i < |Emitted(acc, chunk)|
      ensures var l := Emitted(acc, chunk)[i];
              |l| >= 1 && l[|l| - 1] == '\n' && '\n' !in l[..|l| - 1]
    {
      var l := Emitted(acc, chunk)[i];
      assert l == g[i] + "\n";
      assert l[..|l| - 1] == g[i];
    }
  }

  /** An empty chunk emits nothing and leaves the pending partial line as it was. */
  lemma EmptyChunk(acc: string)
    ensures Emitted(acc, "") == [] && Pending(acc, "") == acc
  {
    assert acc + "" == acc;
  }

  /** A chunk without a line break emits nothing and is appended whole to the pending line. */
  lemma BreakFreeChunk(acc: string, chunk: string)
    requires '\n' !in chunk
    ensures Emitted(acc, chunk) == [] && Pending(acc, chunk) == acc + chunk
  {
    SplitNoBreak(chunk);
  }

  /**
   * For a chunk without `\r`, the emitted lines followed by the new pending
   * line spell out the old pending line followed by the chunk.
   */
  lemma ConcatChunk(acc: string, chunk: string)
    requires '\r' !in chunk
    ensures Concat(Emitted(acc, chunk)) + Pending(acc, chunk) == acc + chunk
  {
    SplitConcat(chunk);
    PrependConcat(acc, SplitBreaks(chunk));
  }

  /** Putting `acc` in front of the first fragment puts it in front of the whole text. */
  lemma PrependConcat(acc: string, f: seq<string>)
    requires |f| >= 1
    ensures var g := Prepend(acc, f);
      Concat(Terminate(g[..|g| - 1])) + g[|g| - 1] == acc + (Concat(Terminate(f[..|f| - 1])) + f[|f| - 1])
  {
    var g := Prepend(acc, f);
    if |f| == 1 {
      assert g[..|g| - 1] == [] && f[..|f| - 1] == [];
      assert Concat(Terminate([])) == "";
      assert g[|g| - 1] == acc + f[0];
    } else {
      var mid := f[1..|f| - 1];
      var c := Concat(Terminate(mid));
      var last := f[|f| - 1];
      assert g[..|g| - 1] == [acc + f[0]] + mid;
      assert f[..|f| - 1] == [f[0]] + mid;
      assert g[|g| - 1] == last;
      PrefixLine(acc + f[0], mid);
      PrefixLine(f[0], mid);
      calc {
        ((acc + f[0]) + "\n" + c) + last;
        { Assoc(acc, f[0], "\n"); }
        (acc + (f[0] + "\n") + c) + last;
        { Assoc(acc, f[0] + "\n", c); }
        (acc + (f[0] + "\n" + c)) + last;
        { Assoc(acc, f[0] + "\n" + c, last); }
        acc + ((f[0] + "\n" + c) + last);
      }
    }
  }

  // ------------------------------------------------------------ two chunks

  lemma PrependGlue(acc: string, f1: seq<string>, f2: seq<string>)
    requires |f1| >= 1 && |f2| >= 1
    ensures var g1 := Prepend(acc, f1);
            Prepend(acc, Glue(f1, f2)) == g1[..|g1| - 1] + Prepend(g1[|g1| - 1], f2)
  {
    var g1 := Prepend(acc, f1);
    if |f1| == 1 {
      assert g1 == [acc + f1[0]];
      assert g1[..|g1| - 1] == [];
      var gl := Glue(f1, f2);
      assert gl == [f1[0] + f2[0]] + f2[1..];
      assert gl[0] == f1[0] + f2[0] && gl[1..] == f2[1..];
      assert acc + (f1[0] + f2[0]) == (acc + f1[0]) + f2[0];
    } else {
      assert Glue(f1, f2)[0] == f1[0];
      assert Glue(f1, f2)[1..] == f1[1..|f1| - 1] + [f1[|f1| - 1] + f2[0]] + f2[1..];
      assert g1[..|g1| - 1] == [acc + f1[0]] + f1[1..|f1| - 1];
    }
  }

  /**
   * Feeding `c1` and then `c2` emits the same lines, and leaves the same
   * pending line, as feeding `c1 + c2` at once, unless `c1` ends in `\r`.
   */
  lemma SplitIndependence(acc: string, c1: string, c2: string)
    requires !EndsInCR(c1)
    ensures Emitted(acc, c1) + Emitted(Pending(acc, c1), c2) == Emitted(acc, c1 + c2)
    ensures Pending(Pending(acc, c1), c2) == Pending(acc, c1 + c2)
  {
    var f1, f2 := SplitBreaks(c1), SplitBreaks(c2);
    SplitAppend(c1, c2);
    PrependGlue(acc, f1, f2);
    var g1 := Prepend(acc, f1);
    var g2 := Prepend(g1[|g1| - 1], f2);
    var g := g1[..|g1| - 1] + g2;
    assert g[..|g| - 1] == g1[..|g1| - 1] + g2[..|g2| - 1];
    TerminateAppend(g1[..|g1| - 1], g2[..|g2| - 1]);
  }

  /** The seam inside a `\r\n` is the one place where splitting a chunk changes the output. */
  lemma CRLFSeam()
    ensures Emitted("", "\r") + Emitted(Pending("", "\r"), "\n") == ["\r\n"]
    ensures Emitted("", "\r\n") == ["\n"]
  {
    assert SplitBreaks("") == [""];
    assert SplitBreaks("\r") == ["\r"] by {
      var s := "\r";
      assert |s| == 1 && s[1..] == "";
      assert [s[0]] + "" == "\r";
    }
    assert SplitBreaks("\n") == ["", ""] by {
      var s := "\n";
      assert s[1..] == "";
    }
    assert SplitBreaks("\r\n") == ["", ""] by {
      var s := "\r\n";
      assert s[2..] == "";
    }
    var two: seq<string> := ["", ""];
    assert two[1..] == [""] && two[0] == "" + "";
    var cr: seq<string> := ["\r"];
    assert cr[1..] == [] && "" + "\r" == "\r";
    assert Prepend("", cr) == cr;
    assert Pending("", "\r") == "\r";
    assert Emitted("", "\r") == [];
    assert Prepend("\r", two) == ["\r", ""];
    assert "\r" + "\n" == "\r\n";
    assert Terminate(["\r"])[0] == "\r\n";
    assert Emitted("\r", "\n") == ["\r\n"];
    assert Prepend("", two) == two;
    assert "" + "\n" == "\n";
    assert Terminate([""])[0] == "\n";
  }

  // ------------------------------------------------------------ the object

  /**
   * The reassembler's invariant over its pending line `acc`, everything
   * `fed` to it, everything it `emitted`, and whether every chunk boundary
   * so far fell outside a `\r\n` (`seamless`).
   */
  ghost predicate Consistent(acc: string, fed: string, emitted: seq<string>, seamless: bool) {
    && '\n' !in acc
    && ('\r' !in fed ==> Concat(emitted) + acc == fed)
    && (seamless ==> emitted == Emitted("", fed) && acc == Pending("", fed))
  }

  lemma NoCRAppend(a: string, b: string)
    requires '\r' !in a + b
    ensures '\r' !in a && '\r' !in b
  {
    assert forall k :: 0 <= k < |a| ==> (a + b)[k] == a[k];
    assert forall k :: 0 <= k < |b| ==> (a + b)[|a| + k] == b[k];
  }

  lemma ConcatKept(acc: string, fed: string, emitted: seq<string>, chunk: string)
    requires '\r' !in fed + chunk
    requires Concat(emitted) + acc == fed
    ensures Concat(emitted + Emitted(acc, chunk)) + Pending(acc, chunk) == fed + chunk
  {
    NoCRAppend(fed, chunk);
    ConcatChunk(acc, chunk);
    ConcatAppend(emitted, Emitted(acc, chunk));
    Regroup(Concat(emitted), acc, Concat(Emitted(acc, chunk)), Pending(acc, chunk), chunk);
  }

  lemma Regroup(e: string, acc: string, l: string, rest: string, chunk: string)
    requires l + rest == acc + chunk
    ensures (e + l) + rest == (e + acc) + chunk
  {
    calc {
      (e + l) + rest;
      e + (l + rest);
      e + (acc + chunk);
      (e + acc) + chunk;
    }
  }

  /** One chunk keeps the invariant: the concatenation property and split independence, step by step. */
  lemma FeedKeepsConsistent(acc: string, fed: string, emitted: seq<string>, seamless: bool, chunk: string)
    requires Consistent(acc, fed, emitted, seamless)
    ensures Consistent(Pending(acc, chunk), fed + chunk, emitted + Emitted(acc, chunk),
                       seamless && !EndsInCR(fed))
  {
    EmittedShape(acc, chunk);
    if '\r' !in fed + chunk {
      ConcatKept(acc, fed, emitted, chunk);
    }
    if seamless && !EndsInCR(fed) {
      SplitIndependence("", fed, chunk);
    }
  }

  /**
   * The two ways `Feed` puts the pending line in front: into the first
   * complete fragment when there is one, else into the last fragment.
   * Either way the result is `Prepend`.
   */
  lemma PrependParts(acc: string, splitted: seq<string>)
    requires |splitted| >= 1
    ensures var complete, last, g := splitted[..|splitted| - 1], splitted[|splitted| - 1], Prepend(acc, splitted);
      && (|complete| > 0 ==> complete[0 := acc + complete[0]] == g[..|g| - 1] && "" + last == g[|g| - 1])
      && (|complete| == 0 ==> complete == g[..|g| - 1] && acc + last == g[|g| - 1])
  {
    var complete, last, g := splitted[..|splitted| - 1], splitted[|splitted| - 1], Prepend(acc, splitted);
    if |complete| > 0 {
      assert "" + last == last;
    }
  }

  /**
   * The closure state: the pending partial line `acc`. The ghost fields
   * record everything fed and emitted so far, and whether every chunk
   * boundary so far fell outside a `\r\n`.
   */
  class LineReassembler {
    var acc: string
    ghost var fed: string
    ghost var emitted: seq<string>
    ghost var seamless: bool

    ghost predicate Valid()
      reads this
    {
      Consistent(acc, fed, emitted, seamless)
    }

    constructor ()
      ensures Valid() && acc == "" && fed == "" && emitted == [] && seamless
    {
      acc := "";
      fed := "";
      emitted := [];
      seamless := true;
      EmptyChunk("");
    }

    /** The handler of one stdout chunk; returns the complete lines, in order. */
    method Feed(chunk: string) returns (lines: seq<string>)
      requires Valid()
      modifies this
      ensures Valid()
      ensures lines == Emitted(old(acc), chunk) && acc == Pending(old(acc), chunk)
      ensures fed == old(fed) + chunk && emitted == old(emitted) + lines
      ensures seamless == (old(seamless) && !EndsInCR(old(fed)))
    {
      FeedKeepsConsistent(acc, fed, emitted, seamless, chunk);
      ghost var acc0 := acc;
      var splitted := SplitBreaks(chunk);
      PrependParts(acc0, splitted);
      var complete := splitted[..|splitted| - 1];
      if |complete| > 0 {
        complete := complete[0 := acc + complete[0]];
        acc := "";
      }
      acc := acc + splitted[|splitted| - 1];

      lines := [];
      for i := 0 to |complete|
        invariant lines == Terminate(complete[..i])
        modifies {}
      {
        assert complete[..i + 1] == complete[..i] + [complete[i]];
        TerminateAppend(complete[..i], [complete[i]]);
        lines := lines + [complete[i] + "\n"];
      }
      assert complete[..|complete|] == complete;
      fed := fed + chunk;
      emitted := emitted + lines;
      seamless := seamless && !EndsInCR(old(fed));
    }
  }
}
