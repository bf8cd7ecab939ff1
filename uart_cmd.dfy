/**
 * The ESP-IDF command task (src/uart_cmd.c): process_line trims a line in
 * place and dispatches it to the generator with an exact reply, and
 * uart_task frames the received bytes into lines. The UART driver is
 * replaced by the input chunks and by the sequence of strings written.
 */
module UartCmd {
  import opened Wrappers
  import opened Numerals
  import opened CText
  import opened Generator
  import opened Framing
  import opened Replies

  /** The generator state after a line, and the reply sent (None: nothing is sent). */
  datatype Reaction = Reaction(state: GenState, reply: Option<string>)

  /** A FREQ line with value val: range check, then the setter and its result. */
  function FreqReaction(g: GenState, setFreqStatus: U32 -> int, val: nat): (r: Reaction)
    requires val <= ULONG_MAX
    ensures r.reply == Some(ERR_FREQ_RANGE) <==> val == 0 || val > MAX_FREQ_HZ
    ensures r.reply == Some(OkFreq(val)) <==> g.initialized && 0 < val <= MAX_FREQ_HZ && setFreqStatus(val) == ESP_OK
    ensures r.reply == Some(ERR_FREQ) <==> 0 < val <= MAX_FREQ_HZ && !(g.initialized && setFreqStatus(val) == ESP_OK)
    ensures r.state == if r.reply == Some(OkFreq(val)) then g.(freqHz := val) else g
  {
    SetterRepliesDiffer(val);
    if val == 0 || val > 40_000_000 then Reaction(g, Some(ERR_FREQ_RANGE))
    else
      var o := SetFreqResult(g, val, setFreqStatus(val));
      if o.rc == ESP_OK then Reaction(o.state, Some(OkFreq(val))) else Reaction(o.state, Some(ERR_FREQ))
  }

  /** A DUTY line with value val: range check, then the setter and its result. */
  function DutyReaction(g: GenState, val: nat): (r: Reaction)
    requires val <= ULONG_MAX
    ensures r.reply == Some(ERR_DUTY_RANGE) <==> val > 100
    ensures r.reply == Some(OkDuty(val)) <==> g.initialized && val <= 100
    ensures r.reply == Some(ERR_DUTY) <==> !g.initialized && val <= 100
    ensures r.state == if r.reply == Some(OkDuty(val)) then Applied(g.(dutyPercent := val)) else g
  {
    SetterRepliesDiffer(val);
    if val > 100 then Reaction(g, Some(ERR_DUTY_RANGE))
    else
      var o := SetDutyResult(g, val);
      if o.rc == ESP_OK then Reaction(o.state, Some(OkDuty(val))) else Reaction(o.state, Some(ERR_DUTY))
  }

  /**
   * The dispatch on a trimmed, non-empty line: every line gets a reply, and
   * only ON, START, OFF, STOP, FREQ and DUTY lines can touch the generator.
   */
  function Dispatch(g: GenState, setFreqStatus: U32 -> int, t: string): (r: Reaction)
    ensures r.reply.Some?
    ensures r.state != g ==> t == "ON" || t == "START" || t == "OFF" || t == "STOP" || "FREQ " <= t || "DUTY " <= t
  {
    if t == "?" || t == "STATUS" then Reaction(g, Some(StatusReply(g.freqHz, g.dutyPercent, g.running)))
    else if t == "ON" || t == "START" then Reaction(Started(g), Some(OK_ON))
    else if t == "OFF" || t == "STOP" then Reaction(Stopped(g), Some(OK_OFF))
    else if "FREQ " <= t then FreqReaction(g, setFreqStatus, StrToUL(t[5..]).value)
    else if "DUTY " <= t then DutyReaction(g, StrToUL(t[5..]).value)
    else if t == "HELP" then Reaction(g, Some(ESP_HELP))
    else Reaction(g, Some(ERR_UNKNOWN))
  }

  /**
   * process_line on the C string a line buffer holds: a line that trims to
   * nothing gets no reply and changes nothing; any other line gets exactly one reply.
   */
  function Respond(g: GenState, setFreqStatus: U32 -> int, line: string): (r: Reaction)
    ensures r.reply.None? <==> Trimmed(CStr(line)) == []
    ensures r.reply.None? ==> r.state == g
  {
    var t := Trimmed(CStr(line));
    if t == [] then Reaction(g, None) else Dispatch(g, setFreqStatus, t)
  }

  function Sent(r: Option<string>): seq<string> {
    if r.Some? then [r.value] else []
  }

  /** The generator state and everything written so far. */
  datatype Session = Session(state: GenState, sent: seq<string>)

  /** process_line on one more line: the generator moves on and the reply, if any, is written. */
  function Advance(s: Session, setFreqStatus: U32 -> int, line: string): (r: Session)
    ensures |s.sent| <= |r.sent| <= |s.sent| + 1 && r.sent[..|s.sent|] == s.sent
    ensures |r.sent| == |s.sent| ==> r == s
  {
    var r := Respond(s.state, setFreqStatus, line);
    Session(r.state, s.sent + Sent(r.reply))
  }

  /** process_line on each of the lines, in order. */
  function Run(s: Session, setFreqStatus: U32 -> int, lines: seq<string>): (r: Session)
    ensures |s.sent| <= |r.sent| <= |s.sent| + |lines| && r.sent[..|s.sent|] == s.sent
  {
    if lines == [] then s
    else Advance(Run(s, setFreqStatus, lines[..|lines| - 1]), setFreqStatus, lines[|lines| - 1])
  }

  /** Advance once the trimmed text t of the line is known: nothing for a blank line, else its dispatch. */
  lemma AdvanceTrimmed(s: Session, setFreqStatus: U32 -> int, line: string, t: string)
    requires Trimmed(CStr(line)) == t
    ensures t == [] ==> Advance(s, setFreqStatus, line) == s
    ensures t != [] ==> var r := Dispatch(s.state, setFreqStatus, t);
                        Advance(s, setFreqStatus, line) == Session(r.state, s.sent + Sent(r.reply))
  {
    var r := Respond(s.state, setFreqStatus, line);
    if t == [] {
      assert r == Reaction(s.state, None);
      assert s.sent + [] == s.sent;
    } else {
      assert r == Dispatch(s.state, setFreqStatus, t);
    }
  }

  /** Running two batches of lines one after the other is running them together. */
  lemma {:induction false} RunAppend(s: Session, setFreqStatus: U32 -> int, xs: seq<string>, ys: seq<string>)
    ensures Run(s, setFreqStatus, xs + ys) == Run(Run(s, setFreqStatus, xs), setFreqStatus, ys)
    decreases |ys|
  {
    if ys == [] {
      assert xs + ys == xs;
    } else {
      var ys' := ys[..|ys| - 1];
      RunAppend(s, setFreqStatus, xs, ys');
      assert (xs + ys)[..|xs + ys| - 1] == xs + ys';
      assert (xs + ys)[|xs + ys| - 1] == ys[|ys| - 1];
    }
  }

  /** What is written only grows: each line adds at most one reply at the end. */
  lemma {:induction false} RunExtends(s: Session, setFreqStatus: U32 -> int, lines: seq<string>)
    ensures s.sent <= Run(s, setFreqStatus, lines).sent
    ensures |Run(s, setFreqStatus, lines).sent| <= |s.sent| + |lines|
    decreases |lines|
  {
    if lines != [] {
      RunExtends(s, setFreqStatus, lines[..|lines| - 1]);
    }
  }

  lemma RunSnoc(s: Session, setFreqStatus: U32 -> int, lines: seq<string>, l: string)
    ensures Run(s, setFreqStatus, lines + [l]) == Advance(Run(s, setFreqStatus, lines), setFreqStatus, l)
  {
    assert (lines + [l])[..|lines|] == lines;
  }

  /** The invariant of the framing loop carried over the character at index i of the input. */
  lemma FrameRunStep(s0: Session, setFreqStatus: U32 -> int, p0: string, input: string, i: nat,
                     before: Session, after: Session, pendingAfter: string)
    requires i < |input|
    requires before == Run(s0, setFreqStatus, Frame(p0, input[..i]).lines)
    requires var pending := Frame(p0, input[..i]).pending;
             var st := StepChar(pending, input[i]);
             pendingAfter == st.pending &&
             after == if st.flushed.Some? then Advance(before, setFreqStatus, pending) else before
    ensures pendingAfter == Frame(p0, input[..i + 1]).pending
    ensures after == Run(s0, setFreqStatus, Frame(p0, input[..i + 1]).lines)
  {
    var f := Frame(p0, input[..i]);
    var st := StepChar(f.pending, input[i]);
    FrameIndexStep(p0, input, i);
    if st.flushed.Some? {
      RunSnoc(s0, setFreqStatus, f.lines, st.flushed.value);
    } else {
      assert f.lines + Flushed(st) == f.lines;
    }
  }

  /** Leading spaces and trailing CR, LF and spaces around a command do not matter. */
  lemma RespondPadded(g: GenState, setFreqStatus: U32 -> int, lead: string, core: string, trail: string)
    requires forall i | 0 <= i < |lead| :: lead[i] == ' '
    requires forall i | 0 <= i < |trail| :: IsTrailingJunk(trail[i])
    requires core != [] && core[0] != ' ' && !IsTrailingJunk(core[|core| - 1])
    requires '\0' !in core
    ensures Respond(g, setFreqStatus, lead + core + trail) == Dispatch(g, setFreqStatus, core)
  {
    var line := lead + core + trail;
    forall k | 0 <= k < |line|
      ensures line[k] != '\0'
    {
      if k < |lead| {
        assert line[k] == lead[k];
      } else if k < |lead| + |core| {
        assert line[k] == core[k - |lead|];
      } else {
        assert line[k] == trail[k - |lead| - |core|];
      }
    }
    CStrIs(line, |line|);
    assert line[..|line|] == line;
    TrimmedPadded(lead, core, trail);
  }

  /** A command followed only by CR, LF and spaces is dispatched as the command itself. */
  lemma RespondTrail(g: GenState, setFreqStatus: U32 -> int, core: string, trail: string)
    requires forall i | 0 <= i < |trail| :: IsTrailingJunk(trail[i])
    requires core != [] && core[0] != ' ' && !IsTrailingJunk(core[|core| - 1])
    requires '\0' !in core
    ensures Respond(g, setFreqStatus, core + trail) == Dispatch(g, setFreqStatus, core)
  {
    var line := core + trail;
    forall k | 0 <= k < |line|
      ensures line[k] != '\0'
    {
      if k < |core| {
        assert line[k] == core[k];
      } else {
        assert line[k] == trail[k - |core|];
      }
    }
    CStrIs(line, |line|);
    assert line[..|line|] == line;
    TrimmedTrail(core, trail);
  }

  /** The exact keyword map. */
  lemma DispatchKeywords(g: GenState, setFreqStatus: U32 -> int)
    ensures Dispatch(g, setFreqStatus, "?") == Reaction(g, Some(StatusReply(g.freqHz, g.dutyPercent, g.running)))
    ensures Dispatch(g, setFreqStatus, "STATUS") == Dispatch(g, setFreqStatus, "?")
    ensures Dispatch(g, setFreqStatus, "ON") == Reaction(Started(g), Some(OK_ON))
    ensures Dispatch(g, setFreqStatus, "START") == Dispatch(g, setFreqStatus, "ON")
    ensures Dispatch(g, setFreqStatus, "OFF") == Reaction(Stopped(g), Some(OK_OFF))
    ensures Dispatch(g, setFreqStatus, "STOP") == Dispatch(g, setFreqStatus, "OFF")
    ensures Dispatch(g, setFreqStatus, "HELP") == Reaction(g, Some(ESP_HELP))
  {
  }

  /** The identification request of the other firmware, and a bare FREQ, are unknown here. */
  lemma DispatchUnknown(g: GenState, setFreqStatus: U32 -> int)
    ensures Dispatch(g, setFreqStatus, "VER?") == Reaction(g, Some(ERR_UNKNOWN))
    ensures Dispatch(g, setFreqStatus, "ID?") == Reaction(g, Some(ERR_UNKNOWN))
    ensures Dispatch(g, setFreqStatus, "FREQ") == Reaction(g, Some(ERR_UNKNOWN))
  {
  }

  /** A line starting with "FREQ " is judged by the number strtoul reads from the rest. */
  lemma DispatchFreqArg(g: GenState, setFreqStatus: U32 -> int, arg: string)
    ensures Dispatch(g, setFreqStatus, "FREQ " + arg) == FreqReaction(g, setFreqStatus, StrToUL(arg).value)
  {
    var t := "FREQ " + arg;
    assert t[0] == 'F' && "FREQ " <= t && t[5..] == arg;
    assert t != "?" && t != "STATUS" && t != "ON" && t != "START" && t != "OFF" && t != "STOP";
  }

  /** A line starting with "DUTY " likewise. */
  lemma DispatchDutyArg(g: GenState, setFreqStatus: U32 -> int, arg: string)
    ensures Dispatch(g, setFreqStatus, "DUTY " + arg) == DutyReaction(g, StrToUL(arg).value)
  {
    var t := "DUTY " + arg;
    assert t[0] == 'D' && "DUTY " <= t && t[5..] == arg;
    assert t != "?" && t != "STATUS" && t != "ON" && t != "START" && t != "OFF" && t != "STOP" && !("FREQ " <= t);
  }

  /**
   * "FREQ " and a decimal numeral: the saturated value decides, and
   * whatever follows the numeral is never looked at.
   */
  lemma DispatchFreq(g: GenState, setFreqStatus: U32 -> int, n: nat, rest: string)
    requires rest == [] || (!IsDecDigit(rest[0]) && rest[0] != 'x' && rest[0] != 'X')
    ensures Dispatch(g, setFreqStatus, "FREQ " + (Dec(n) + rest))
            == FreqReaction(g, setFreqStatus, if n <= ULONG_MAX then n else ULONG_MAX)
  {
    DispatchFreqArg(g, setFreqStatus, Dec(n) + rest);
    DecValue(n, rest);
  }

  /** "DUTY " and a decimal numeral, likewise. */
  lemma DispatchDuty(g: GenState, setFreqStatus: U32 -> int, n: nat, rest: string)
    requires rest == [] || (!IsDecDigit(rest[0]) && rest[0] != 'x' && rest[0] != 'X')
    ensures Dispatch(g, setFreqStatus, "DUTY " + (Dec(n) + rest))
            == DutyReaction(g, if n <= ULONG_MAX then n else ULONG_MAX)
  {
    DispatchDutyArg(g, setFreqStatus, Dec(n) + rest);
    DecValue(n, rest);
  }

  /** Trailing spaces are trimmed on this firmware: "ON " switches the output on. */
  lemma TrailingSpaceOn(g: GenState, setFreqStatus: U32 -> int, trail: string)
    requires forall i | 0 <= i < |trail| :: IsTrailingJunk(trail[i])
    ensures Respond(g, setFreqStatus, "ON" + trail) == Reaction(Started(g), Some(OK_ON))
  {
    RespondTrail(g, setFreqStatus, "ON", trail);
    DispatchKeywords(g, setFreqStatus);
  }

  lemma FreqReactionValid(g: GenState, setFreqStatus: U32 -> int, v: nat)
    requires Valid(g) && v <= ULONG_MAX
    ensures Valid(FreqReaction(g, setFreqStatus, v).state)
  {
    if 0 < v <= MAX_FREQ_HZ {
      ValidKept(g, 0, 0, v, setFreqStatus(v), 0);
    }
  }

  lemma DutyReactionValid(g: GenState, v: nat)
    requires Valid(g) && v <= ULONG_MAX
    ensures Valid(DutyReaction(g, v).state)
  {
    if v <= 100 {
      ValidKept(g, 0, 0, 1, 0, v);
    }
  }

  /** Whatever line arrives, the generator stays valid. */
  lemma DispatchValid(g: GenState, setFreqStatus: U32 -> int, t: string)
    requires Valid(g)
    ensures Valid(Dispatch(g, setFreqStatus, t).state)
  {
    if t == "?" || t == "STATUS" || t == "ON" || t == "START" || t == "OFF" || t == "STOP" {
      ValidKept(g, 0, 0, 1, 0, 0);
    } else if "FREQ " <= t {
      FreqReactionValid(g, setFreqStatus, StrToUL(t[5..]).value);
    } else if "DUTY " <= t {
      DutyReactionValid(g, StrToUL(t[5..]).value);
    }
  }

  /** A whole session keeps the generator valid. */
  lemma {:induction false} RunValid(s: Session, setFreqStatus: U32 -> int, lines: seq<string>)
    requires Valid(s.state)
    ensures Valid(Run(s, setFreqStatus, lines).state)
    decreases |lines|
  {
    if lines != [] {
      var s' := Run(s, setFreqStatus, lines[..|lines| - 1]);
      RunValid(s, setFreqStatus, lines[..|lines| - 1]);
      DispatchValid(s'.state, setFreqStatus, Trimmed(CStr(lines[|lines| - 1])));
    }
  }

  /** The trailing loop of process_line: line[--n] = '\0' while the last character is CR, LF or a space. */
  method TruncateTrailing(a: array<char>, n0: nat) returns (n: nat)
    requires n0 < a.Length && a[n0] == '\0'
    requires forall k | 0 <= k < n0 :: a[k] != '\0'
    modifies a
    ensures n <= n0 && a[..n] == TrimTrailing(old(a[..n0])) && a[n] == '\0'
    ensures forall k | 0 <= k < n :: a[k] != '\0'
  {
    ghost var c := a[..n0];
    n := n0;
    while n > 0 && IsTrailingJunk(a[n - 1])
      invariant n <= n0 && a[..n] == c[..n] && a[n] == '\0'
      invariant TrimTrailing(c[..n]) == TrimTrailing(c)
    {
      assert c[..n][..n - 1] == c[..n - 1];
      n := n - 1;
      a[n] := '\0';
    }
  }

  /** uart_task's state: the line buffer and its length, the generator, and what was written. */
  class UartTask {
    const gen: PwmGenerator
    const line: array<char>
    var lineLen: nat
    var sent: seq<string>

    predicate Valid()
      reads this
    {
      line.Length == CMD_LINE_MAX && lineLen <= CMD_LINE_MAX - 1
    }

    /** The generator and what was written. */
    function Current(): Session
      reads this, gen
    {
      Session(gen.State(), sent)
    }

    /** The characters buffered so far. */
    function Pending(): string
      reads this, line
      requires Valid()
    {
      line[..lineLen]
    }

    /** The task starts with an empty line and greets. */
    constructor (gen: PwmGenerator)
      ensures Valid() && fresh(line) && this.gen == gen
      ensures lineLen == 0 && sent == [ESP_BANNER]
    {
      this.gen := gen;
      line := new char[CMD_LINE_MAX];
      lineLen := 0;
      sent := [ESP_BANNER];
    }

    /** The FREQ branch of process_line. */
    method FreqCommand(val: nat)
      requires val <= ULONG_MAX
      modifies this`sent, gen
      ensures var r := FreqReaction(old(gen.State()), gen.setFreqStatus, val);
        gen.State() == r.state && sent == old(sent) + Sent(r.reply)
    {
      if val == 0 || val > 40_000_000 {
        sent := sent + [ERR_FREQ_RANGE];
        return;
      }
      var r := gen.SetFreqHz(val);
      if r == ESP_OK {
        sent := sent + [OkFreq(val)];
      } else {
        sent := sent + [ERR_FREQ];
      }
    }

    /** The DUTY branch of process_line. */
    method DutyCommand(val: nat)
      requires val <= ULONG_MAX
      modifies this`sent, gen
      ensures var r := DutyReaction(old(gen.State()), val);
        gen.State() == r.state && sent == old(sent) + Sent(r.reply)
    {
      if val > 100 {
        sent := sent + [ERR_DUTY_RANGE];
        return;
      }
      var r := gen.SetDutyPercent(val);
      if r == ESP_OK {
        sent := sent + [OkDuty(val)];
      } else {
        sent := sent + [ERR_DUTY];
      }
    }

    /** The dispatch of process_line on the trimmed text t. */
    method DispatchLine(t: string)
      modifies this`sent, gen
      ensures var r := Dispatch(old(gen.State()), gen.setFreqStatus, t);
        gen.State() == r.state && sent == old(sent) + Sent(r.reply)
    {
      if t == "?" || t == "STATUS" {
        var f := gen.GetFreqHz();
        var d := gen.GetDutyPercent();
        var on := gen.IsRunning();
        sent := sent + [StatusReply(f, d, on)];
      } else if t == "ON" || t == "START" {
        gen.Start();
        sent := sent + [OK_ON];
      } else if t == "OFF" || t == "STOP" {
        gen.Stop();
        sent := sent + [OK_OFF];
      } else if "FREQ " <= t {
        FreqCommand(StrToUL(t[5..]).value);
      } else if "DUTY " <= t {
        DutyCommand(StrToUL(t[5..]).value);
      } else if t == "HELP" {
        sent := sent + [ESP_HELP];
      } else {
        sent := sent + [ERR_UNKNOWN];
      }
    }

    /** The trim at the start of process_line: trailing CR, LF and spaces become NULs. */
    method TrimLine() returns (p: nat, n: nat)
      requires Valid() && line[lineLen] == '\0'
      modifies line
      ensures p <= n <= lineLen && line[p..n] == Trimmed(CStr(old(line[..lineLen]))) && line[n] == '\0'
      ensures forall k | p <= k < n :: line[k] != '\0'
    {
      n := StrLen(line, 0, lineLen);
      CStrIs(line[..lineLen], n);
      assert line[..lineLen][..n] == line[..n];
      n := TruncateTrailing(line, n);
      p := LeadingEnd(line, n);
    }

    /** process_line(line), with the line NUL-terminated at lineLen. */
    method ProcessLine()
      requires Valid() && line[lineLen] == '\0'
      modifies this`sent, line, gen
      ensures Current() == Advance(old(Current()), gen.setFreqStatus, old(line[..lineLen]))
    {
      ghost var s0 := Current();
      ghost var sfs := gen.setFreqStatus;
      ghost var l := line[..lineLen];
      var p, n := TrimLine();
      assert Current() == s0;
      if line[p] == '\0' {
        assert p == n;
        AdvanceTrimmed(s0, sfs, l, line[p..n]);
        return;
      }
      assert p < n;
      var t := line[p..n];
      AdvanceTrimmed(s0, sfs, l, t);
      DispatchLine(t);
    }

    /** The end of a line in uart_task: the buffer, if not empty, is processed and emptied. */
    method EndLine()
      requires Valid()
      modifies this`lineLen, this`sent, line, gen
      ensures Valid() && lineLen == 0
      ensures Current() == if old(lineLen) > 0 then Advance(old(Current()), gen.setFreqStatus, old(Pending())) else old(Current())
    {
      line[lineLen] := '\0';
      if lineLen > 0 {
        ProcessLine();
      }
      lineLen := 0;
    }

    /** line[line_len++] = c: one more character buffered. */
    method Append(c: char)
      requires Valid() && lineLen < CMD_LINE_MAX - 1
      modifies this`lineLen, line
      ensures Valid() && Pending() == old(Pending()) + [c]
    {
      line[lineLen] := c;
      lineLen := lineLen + 1;
    }

    /** The body of the inner loop of uart_task for one received character c. */
    method ReceiveChar(c: char)
      requires Valid()
      modifies this`lineLen, this`sent, line, gen
      ensures Valid()
      ensures var st := StepChar(old(Pending()), c);
              Pending() == st.pending &&
              Current() == if st.flushed.Some? then Advance(old(Current()), gen.setFreqStatus, old(Pending())) else old(Current())
    {
      if c == '\n' || c == '\r' || lineLen >= CMD_LINE_MAX - 1 {
        EndLine();
        if c != '\n' && c != '\r' {
          Append(c);
          assert Pending() == [] + [c];
        }
      } else {
        Append(c);
      }
    }

    /**
     * The inner loop of uart_task over one chunk of received bytes: the
     * lines it completes are processed in order, and the rest stays buffered.
     */
    method Receive(chunk: string)
      requires Valid()
      modifies this`lineLen, this`sent, line, gen
      ensures Valid()
      ensures var f := Frame(old(Pending()), chunk);
              Pending() == f.pending && Current() == Run(old(Current()), gen.setFreqStatus, f.lines)
    {
      ghost var p0 := Pending();
      ghost var s0 := Current();
      assert chunk[..0] == [];
      for i := 0 to |chunk|
        invariant Valid()
        invariant var f := Frame(p0, chunk[..i]);
                  Pending() == f.pending && Current() == Run(s0, gen.setFreqStatus, f.lines)
      {
        ghost var before := Current();
        ReceiveChar(chunk[i]);
        FrameRunStep(s0, gen.setFreqStatus, p0, chunk, i, before, Current(), Pending());
      }
      assert chunk[..|chunk|] == chunk;
    }
  }
}
