/** Option, the usual stand-in for a JavaScript value that may be `undefined`. */
module Options {
  datatype Option<+T> = None | Some(value: T)
}

/**
 * The JavaScript string built-ins the core relies on: concatenation of
 * emitted lines, `Array.prototype.join`, `Number.prototype.toString` on
 * integers and `String.prototype.trim`.
 */
module Text {

  predicate StartsWith(s: string, prefix: string) {
    |prefix| <= |s| && s[..|prefix|] == prefix
  }

  /** All the strings of `xs`, one after the other. */
  function Concat(xs: seq<string>): string {
    if xs == [] then "" else Concat(xs[..|xs| - 1]) + xs[|xs| - 1]
  }

  lemma {:induction false} ConcatAppend(a: seq<string>, b: seq<string>)
    ensures Concat(a + b) == Concat(a) + Concat(b)
    decreases |b|
  {
    if b == [] {
      assert a + b == a;
    } else {
      assert (a + b)[..|a + b| - 1] == a + b[..|b| - 1];
      ConcatAppend(a, b[..|b| - 1]);
    }
  }

  lemma Assoc(a: string, b: string, c: string)
    ensures (a + b) + c == a + (b + c)
  {
  }

  /** Number of occurrences of `c` in `s`. */
  function CountChar(s: string, c: char): nat {
    if s == [] then 0 else (if s[0] == c then 1 else 0) + CountChar(s[1..], c)
  }

  /** `xs.join(sep)`. */
  function Join(xs: seq<string>, sep: string): string {
    if |xs| == 0 then ""
    else if |xs| == 1 then xs[0]
    else Join(xs[..|xs| - 1], sep) + sep + xs[|xs| - 1]
  }

  /** Joining splits at any seam between two non-empty parts: one separator goes between their joins. */
  lemma {:induction false} JoinAppend(a: seq<string>, b: seq<string>, sep: string)
    requires |a| >= 1 && |b| >= 1
    ensures Join(a + b, sep) == Join(a, sep) + sep + Join(b, sep)
    decreases |b|
  {
    var ab := a + b;
    if |b| == 1 {
      assert ab[..|ab| - 1] == a;
    } else {
      var init := b[..|b| - 1];
      var last := b[|b| - 1];
      assert ab[..|ab| - 1] == a + init;
      JoinAppend(a, init, sep);
      calc {
        Join(ab, sep);
        Join(a + init, sep) + sep + last;
        (Join(a, sep) + sep + Join(init, sep)) + sep + last;
        { Assoc(Join(a, sep) + sep, Join(init, sep), sep + last); }
        Join(a, sep) + sep + (Join(init, sep) + sep + last);
        Join(a, sep) + sep + Join(b, sep);
      }
    }
  }

  /** The spaces of a space-joined list are the spaces of its elements plus the |xs| - 1 separators. */
  lemma {:induction false} JoinCount(xs: seq<string>)
    requires |xs| >= 1
    ensures CountChar(Join(xs, " "), ' ') == CountSpaces(xs) + |xs| - 1
    decreases |xs|
  {
    if |xs| > 1 {
      var init := xs[..|xs| - 1];
      JoinCount(init);
      CountCharAppend(Join(init, " "), " ", ' ');
      CountCharAppend(Join(init, " ") + " ", xs[|xs| - 1], ' ');
      assert CountSpaces(xs) == CountSpaces(init) + CountChar(xs[|xs| - 1], ' ') by {
        assert xs == init + [xs[|xs| - 1]];
        CountSpacesAppend(init, [xs[|xs| - 1]]);
      }
    } else {
      assert CountSpaces(xs) == CountChar(xs[0], ' ') + CountSpaces([]) by {
        assert xs == [xs[0]] + [];
      }
    }
  }

  function CountSpaces(xs: seq<string>): nat {
    if xs == [] then 0 else CountChar(xs[0], ' ') + CountSpaces(xs[1..])
  }

  lemma {:induction false} CountSpacesAppend(a: seq<string>, b: seq<string>)
    ensures CountSpaces(a + b) == CountSpaces(a) + CountSpaces(b)
    decreases |a|
  {
    if a == [] {
      assert a + b == b;
    } else {
      assert (a + b)[1..] == a[1..] + b;
      CountSpacesAppend(a[1..], b);
    }
  }

  lemma {:induction false} CountCharAppend(s: string, t: string, c: char)
    ensures CountChar(s + t, c) == CountChar(s, c) + CountChar(t, c)
    decreases |s|
  {
    if s == [] {
      assert s + t == t;
    } else {
      assert (s + t)[1..] == s[1..] + t;
      CountCharAppend(s[1..], t, c);
    }
  }

  // ---------------------------------------------------------------- numbers

  predicate IsDigit(c: char) {
    '0' <= c <= '9'
  }

  function DigitChar(d: nat): (c: char)
    requires d < 10
    ensures IsDigit(c) && DigitValue(c) == d
  {
    ('0' as int + d) as char
  }

  function DigitValue(c: char): nat {
    if IsDigit(c) then c as int - '0' as int else 0
  }

  /** Decimal notation of a natural number, most significant digit first. */
  function NatToString(n: nat): (s: string)
    ensures |s| >= 1
    ensures forall k :: 0 <= k < |s| ==> IsDigit(s[k])
    decreases n
  {
    if n < 10 then [DigitChar(n)] else NatToString(n / 10) + [DigitChar(n % 10)]
  }

  /** Reads back a string of decimal digits. */
  function ParseNat(s: string): nat {
    if s == [] then 0 else ParseNat(s[..|s| - 1]) * 10 + DigitValue(s[|s| - 1])
  }

  lemma {:induction false} ParseNatToString(n: nat)
    ensures ParseNat(NatToString(n)) == n
    decreases n
  {
    if n >= 10 {
      var s := NatToString(n);
      assert s[..|s| - 1] == NatToString(n / 10);
      ParseNatToString(n / 10);
    }
  }

  /** `n.toString()` for an integer-valued number (below 1e21 in magnitude). */
  function IntToString(n: int): (s: string)
    ensures |s| >= 1
    ensures forall k :: 0 <= k < |s| ==> IsDigit(s[k]) || (k == 0 && s[k] == '-')
  {
    if n < 0 then "-" + NatToString(-n) else NatToString(n)
  }

  function ParseInt(s: string): int {
    if |s| > 0 && s[0] == '-' then -(ParseNat(s[1..]) as int) else ParseNat(s)
  }

  /** The decimal notation determines the number: reading it back gives `n`. */
  lemma ParseIntToString(n: int)
    ensures ParseInt(IntToString(n)) == n
  {
    if n < 0 {
      ParseNatToString(-n);
      assert IntToString(n)[1..] == NatToString(-n);
    } else {
      ParseNatToString(n);
    }
  }

  // ---------------------------------------------------------------- trim

  /**
   * The characters `String.prototype.trim` removes: the ECMAScript
   * WhiteSpace (TAB, VT, FF, ZWNBSP and every space separator) and
   * LineTerminator (LF, CR, LS, PS) code points.
   */
  predicate IsWhitespace(c: char) {
    c == '\t' || c == '\n' || c == '\U{000B}' || c == '\U{000C}' || c == '\r' || c == ' '
    || c == '\U{00A0}' || c == '\U{1680}' || ('\U{2000}' <= c <= '\U{200A}')
    || c == '\U{2028}' || c == '\U{2029}' || c == '\U{202F}' || c == '\U{205F}'
    || c == '\U{3000}' || c == '\U{FEFF}'
  }

  /**
   * `s.trim()`: white space dropped from both ends. The result is empty
   * exactly when `s` is all white space, and otherwise starts and ends
   * with a character that is not.
   */
  function Trim(s: string): (r: string)
    ensures |r| <= |s|
    ensures |r| == 0 <==> forall k :: 0 <= k < |s| ==> IsWhitespace(s[k])
    ensures r != [] ==> !IsWhitespace(r[0]) && !IsWhitespace(r[|r| - 1])
    decreases |s|
  {
    if s != [] && IsWhitespace(s[0]) then
      assert forall k :: 1 <= k < |s| ==> s[k] == s[1..][k - 1];
      Trim(s[1..])
    else if s != [] && IsWhitespace(s[|s| - 1]) then
      assert forall k :: 0 <= k < |s| - 1 ==> s[k] == s[..|s| - 1][k];
      Trim(s[..|s| - 1])
    else s
  }

  /**
   * What `Trim` keeps is one slice of `s`, found at `start`: everything in
   * front of it and everything after it is white space.
   */
  lemma {:induction false} TrimSlice(s: string) returns (start: nat)
    ensures IsTrimSlice(s, start)
    decreases |s|
  {
    if s != [] && IsWhitespace(s[0]) {
      var i := TrimSlice(s[1..]);
      start := i + 1;
      SliceAfterSpace(s, i);
    } else if s != [] && IsWhitespace(s[|s| - 1]) {
      start := TrimSlice(s[..|s| - 1]);
      SliceBeforeSpace(s, start);
    } else {
      start := 0;
      assert s[0..|s|] == s;
    }
  }

  /** `Trim(s)` is the slice of `s` at `start`, with only white space around it. */
  predicate IsTrimSlice(s: string, start: nat) {
    && start + |Trim(s)| <= |s| && Trim(s) == s[start..start + |Trim(s)|]
    && (forall k :: 0 <= k < start ==> IsWhitespace(s[k]))
    && (forall k :: start + |Trim(s)| <= k < |s| ==> IsWhitespace(s[k]))
  }

  lemma SliceAfterSpace(s: string, i: nat)
    requires s != [] && IsWhitespace(s[0]) && IsTrimSlice(s[1..], i)
    ensures IsTrimSlice(s, i + 1)
  {
    var t, tail := Trim(s), s[1..];
    assert t == Trim(tail);
    assert tail[i..i + |t|] == s[i + 1..i + 1 + |t|];
    forall k | 0 <= k < i + 1 ensures IsWhitespace(s[k]) {
      if k > 0 {
        assert s[k] == tail[k - 1];
      }
    }
    forall k | i + 1 + |t| <= k < |s| ensures IsWhitespace(s[k]) {
      assert s[k] == tail[k - 1];
    }
  }

  lemma SliceBeforeSpace(s: string, start: nat)
    requires s != [] && !IsWhitespace(s[0]) && IsWhitespace(s[|s| - 1])
    requires IsTrimSlice(s[..|s| - 1], start)
    ensures IsTrimSlice(s, start)
  {
    var t, front := Trim(s), s[..|s| - 1];
    assert t == Trim(front);
    assert front[start..start + |t|] == s[start..start + |t|];
    assert front[0] == s[0];
    forall k | start + |t| <= k < |s| ensures IsWhitespace(s[k]) {
      if k < |s| - 1 {
        assert s[k] == front[k];
      }
    }
  }

  /** Trimming twice removes nothing more. */
  lemma TrimTwice(s: string)
    ensures Trim(Trim(s)) == Trim(s)
  {
  }
}
