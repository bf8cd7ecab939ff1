/**
 * The character framing both firmwares run on their serial input
 * (uart_task in src/uart_cmd.c and loop() in src/main_arduino.cpp): bytes
 * go into a 64-byte line buffer, and the buffered line is handed on at a
 * CR or LF, or when 63 characters are already waiting.
 */
module Framing {
  import opened Wrappers

  /** CMD_LINE_MAX: the line buffer holds 63 characters and the NUL. */
  const CMD_LINE_MAX: nat := 64

  predicate IsBreak(c: char) {
    c == '\n' || c == '\r'
  }

  /** One character: the line handed on (if any) and what stays buffered. */
  datatype Step = Step(flushed: Option<string>, pending: string)

  /** The body of the framing loop for one character c with pending buffered. */
  function StepChar(pending: string, c: char): Step {
    if IsBreak(c) || |pending| >= CMD_LINE_MAX - 1 then
      Step(if |pending| > 0 then Some(pending) else None, if IsBreak(c) then [] else [c])
    else
      Step(None, pending + [c])
  }

  /** The lines handed on while a whole input is framed, and the final buffer. */
  datatype Framed = Framed(lines: seq<string>, pending: string)

  function Flushed(s: Step): seq<string> {
    if s.flushed.Some? then [s.flushed.value] else []
  }

  /** Framing an input, one character after another from the left. */
  function Frame(pending: string, input: string): Framed
    decreases |input|
  {
    if input == [] then Framed([], pending)
    else
      var f := Frame(pending, input[..|input| - 1]);
      var s := StepChar(f.pending, input[|input| - 1]);
      Framed(f.lines + Flushed(s), s.pending)
  }

  /** A buffer the loop can be in: at most 63 characters and no line break. */
  predicate PendingOk(p: string) {
    |p| <= CMD_LINE_MAX - 1 && forall k | 0 <= k < |p| :: !IsBreak(p[k])
  }

  /** A line handed on: not empty, at most 63 characters, no CR or LF. */
  predicate LineOk(l: string) {
    0 < |l| && PendingOk(l)
  }

  predicate AllLinesOk(ls: seq<string>) {
    forall i | 0 <= i < |ls| :: LineOk(ls[i])
  }

  /** One step keeps the buffer legal and hands on only legal lines. */
  lemma StepOk(pending: string, c: char)
    requires PendingOk(pending)
    ensures PendingOk(StepChar(pending, c).pending)
    ensures AllLinesOk(Flushed(StepChar(pending, c)))
  {
  }

  /** line_len never exceeds 63, and every line handed on is non-empty, short and free of CR and LF. */
  lemma {:induction false} FrameOk(pending: string, input: string)
    requires PendingOk(pending)
    ensures PendingOk(Frame(pending, input).pending)
    ensures AllLinesOk(Frame(pending, input).lines)
    decreases |input|
  {
    if input != [] {
      var f := Frame(pending, input[..|input| - 1]);
      FrameOk(pending, input[..|input| - 1]);
      StepOk(f.pending, input[|input| - 1]);
    }
  }

  /** When 63 characters wait, the next ordinary character starts a new line. */
  lemma FullBufferSplits(pending: string, c: char)
    requires |pending| == CMD_LINE_MAX - 1 && !IsBreak(c)
    ensures StepChar(pending, c) == Step(Some(pending), [c])
  {
  }

  /** The lines one after another. */
  function Concat(ls: seq<string>): string {
    if ls == [] then [] else Concat(ls[..|ls| - 1]) + ls[|ls| - 1]
  }

  /** The input without its CR and LF characters. */
  function Unbroken(input: string): (r: string)
    ensures |r| <= |input|
  {
    if input == [] then []
    else Unbroken(input[..|input| - 1]) + (if IsBreak(input[|input| - 1]) then [] else [input[|input| - 1]])
  }

  /** One step moves characters from the buffer into a line but loses none. */
  lemma StepContent(pending: string, c: char)
    ensures Concat(Flushed(StepChar(pending, c))) + StepChar(pending, c).pending
            == pending + (if IsBreak(c) then [] else [c])
  {
    var s := StepChar(pending, c);
    if s.flushed.Some? {
      assert Flushed(s)[..0] == [];
      assert Concat(Flushed(s)) == s.flushed.value;
    } else {
      assert Flushed(s) == [];
    }
  }

  lemma {:induction false} ConcatAppend(ls: seq<string>, ms: seq<string>)
    ensures Concat(ls + ms) == Concat(ls) + Concat(ms)
    decreases |ms|
  {
    if ms == [] {
      assert ls + ms == ls;
    } else {
      var init := ms[..|ms| - 1];
      var last := ms[|ms| - 1];
      var all := ls + ms;
      assert all[..|all| - 1] == ls + init && all[|all| - 1] == last;
      ConcatAppend(ls, init);
      CharsAssoc(Concat(ls), Concat(init), last);
    }
  }

  /** Frame on the first i + 1 characters of an input is one step after the first i. */
  lemma FrameIndexStep(pending: string, input: string, i: nat)
    requires i < |input|
    ensures var f := Frame(pending, input[..i]);
            var st := StepChar(f.pending, input[i]);
            Frame(pending, input[..i + 1]) == Framed(f.lines + Flushed(st), st.pending)
  {
    assert input[..i + 1][..i] == input[..i];
  }

  /** The content of one more character, given the content so far. */
  lemma FrameContentStep(pending: string, input: string)
    requires input != []
    requires var f := Frame(pending, input[..|input| - 1]);
             Concat(f.lines) + f.pending == pending + Unbroken(input[..|input| - 1])
    ensures Concat(Frame(pending, input).lines) + Frame(pending, input).pending == pending + Unbroken(input)
  {
    var init := input[..|input| - 1];
    var c := input[|input| - 1];
    var f := Frame(pending, init);
    var s := StepChar(f.pending, c);
    assert Frame(pending, input) == Framed(f.lines + Flushed(s), s.pending);
    StepContent(f.pending, c);
    ConcatAppend(f.lines, Flushed(s));
    var tail := if IsBreak(c) then [] else [c];
    assert Unbroken(input) == Unbroken(init) + tail;
    Regroup(Concat(f.lines), Concat(Flushed(s)), s.pending, f.pending, tail, pending + Unbroken(init));
  }

  /**
   * Framing keeps the content: the lines handed on, followed by what is
   * still buffered, are the old buffer and the input without CR and LF.
   */
  lemma {:induction false} FrameContent(pending: string, input: string)
    ensures Concat(Frame(pending, input).lines) + Frame(pending, input).pending == pending + Unbroken(input)
    decreases |input|
  {
    if input == [] {
      assert pending + Unbroken(input) == pending;
    } else {
      FrameContent(pending, input[..|input| - 1]);
      FrameContentStep(pending, input);
    }
  }

  lemma Regroup(a: string, b: string, c: string, p: string, t: string, x: string)
    requires a + p == x && b + c == p + t
    ensures a + b + c == x + t
  {
    calc {
      a + b + c;
      a + (b + c);
      a + (p + t);
      (a + p) + t;
    }
  }

  lemma LinesAssoc(x: seq<string>, y: seq<string>, z: seq<string>)
    ensures x + y + z == x + (y + z)
  {
  }

  lemma CharsAssoc(x: string, y: string, z: string)
    ensures x + y + z == x + (y + z)
  {
  }

  /** One more character after a split input. */
  lemma FrameAppendStep(pending: string, a: string, b: string)
    requires b != []
    requires var b' := b[..|b| - 1];
             Frame(pending, a + b') ==
             Framed(Frame(pending, a).lines + Frame(Frame(pending, a).pending, b').lines,
                    Frame(Frame(pending, a).pending, b').pending)
    ensures Frame(pending, a + b) ==
            Framed(Frame(pending, a).lines + Frame(Frame(pending, a).pending, b).lines,
                   Frame(Frame(pending, a).pending, b).pending)
  {
    var b' := b[..|b| - 1];
    var c := b[|b| - 1];
    var ab := a + b;
    assert ab[..|ab| - 1] == a + b' && ab[|ab| - 1] == c;
    var fa := Frame(pending, a);
    var fb := Frame(fa.pending, b');
    var st := StepChar(fb.pending, c);
    assert Frame(pending, ab) == Framed(Frame(pending, a + b').lines + Flushed(st), st.pending);
    assert Frame(fa.pending, b) == Framed(fb.lines + Flushed(st), st.pending);
    LinesAssoc(fa.lines, fb.lines, Flushed(st));
  }

  /** Framing two inputs one after the other is framing their concatenation. */
  lemma {:induction false} FrameAppend(pending: string, a: string, b: string)
    ensures Frame(pending, a + b) ==
            Framed(Frame(pending, a).lines + Frame(Frame(pending, a).pending, b).lines,
                   Frame(Frame(pending, a).pending, b).pending)
    decreases |b|
  {
    if b == [] {
      assert a + b == a;
      assert Frame(pending, a).lines + [] == Frame(pending, a).lines;
    } else {
      FrameAppend(pending, a, b[..|b| - 1]);
      FrameAppendStep(pending, a, b);
    }
  }

  /**
   * A command line of at most 63 characters sent with a line ending
   * arrives as exactly that line, whatever ended the previous one.
   */
  lemma FrameOneLine(l: string, brk: char)
    requires LineOk(l) && IsBreak(brk)
    ensures Frame([], l + [brk]) == Framed([l], [])
  {
    var line := l + [brk];
    assert line[..|line| - 1] == l && line[|line| - 1] == brk;
    FrameNoBreak([], l);
    assert [] + l == l;
    assert StepChar(l, brk) == Step(Some(l), []);
  }

  /** Characters without a line break, while they fit, are just buffered. */
  lemma {:induction false} FrameNoBreak(pending: string, input: string)
    requires |pending| + |input| <= CMD_LINE_MAX - 1
    requires forall k | 0 <= k < |input| :: !IsBreak(input[k])
    ensures Frame(pending, input) == Framed([], pending + input)
    decreases |input|
  {
    if input != [] {
      var init := input[..|input| - 1];
      FrameNoBreak(pending, init);
      assert pending + init + [input[|input| - 1]] == pending + input;
    } else {
      assert pending + input == pending;
    }
  }
}
