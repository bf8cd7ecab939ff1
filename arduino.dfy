/**
 * The Arduino firmware (src/main_arduino.cpp): the statics s_freq,
 * s_dutyPercent and s_running, the LEDC channel they drive, processLine's
 * dispatch with its exact replies, and the framing loop in loop(). Unlike
 * the ESP-IDF task it only skips leading spaces, it answers an
 * identification request, and it has no generator module in between: the
 * statics are written directly and the output follows them at once.
 */
module Arduino {
  import opened Wrappers
  import opened Numerals
  import opened CText
  import opened Pwm
  import opened Framing
  import opened Replies

  const FREQ_MIN: U32 := 1
  const FREQ_MAX: U32 := 40_000_000

  /**
   * The statics, with the duty last written by ledcWrite and the frequency
   * last given to ledcSetup.
   */
  datatype ArdState = ArdState(freq: U32, dutyPercent: U8, running: bool, ledcDuty: nat, ledcFreq: U32)

  /** The statics' initialisers after setup(): the timer set to 1000 Hz and the channel at 0. */
  const BOOTED: ArdState := ArdState(1000, 50, false, 0, 1000)

  /**
   * What the firmware keeps true: a legal frequency that the timer runs at,
   * a legal duty, and a channel that shows the duty when running and 0 when
   * stopped.
   */
  predicate Valid(a: ArdState) {
    && FREQ_MIN <= a.freq <= FREQ_MAX
    && a.dutyPercent <= 100
    && a.ledcFreq == a.freq
    && a.ledcDuty == (if a.running then DutyToLedc(a.dutyPercent) else 0)
  }

  /** applyOutput: 0 when stopped, the converted duty when running; nothing else changes. */
  function Applied(a: ArdState): (r: ArdState)
    ensures r.(ledcDuty := a.ledcDuty) == a
    ensures r.ledcDuty <= LEDC_MAX_DUTY
    ensures r.ledcDuty == 0 <==> !a.running || DutyToLedc(a.dutyPercent) == 0
    ensures a.running ==> r.ledcDuty == DutyToLedc(a.dutyPercent)
  {
    if !a.running then a.(ledcDuty := 0)
    else a.(ledcDuty := DutyToLedc(a.dutyPercent))
  }

  /** The state after one line, and the reply sent (None: nothing is sent). */
  datatype Handled = Handled(state: ArdState, reply: Option<string>)

  /**
   * "FREQ v": a value outside 1..40000000 is refused and nothing changes;
   * otherwise the frequency is stored, the timer is set up again and the
   * output refreshed.
   */
  function FreqCommand(a: ArdState, v: nat): (r: Handled)
    ensures v < FREQ_MIN || v > FREQ_MAX ==> r == Handled(a, Some(ERR_FREQ_RANGE))
    ensures FREQ_MIN <= v <= FREQ_MAX ==>
              r.reply == Some(OkFreq(v)) && r.state.freq == v && r.state.ledcFreq == v &&
              r.state.dutyPercent == a.dutyPercent && r.state.running == a.running &&
              r.state.ledcDuty == (if a.running then DutyToLedc(a.dutyPercent) else 0)
  {
    if v < FREQ_MIN || v > FREQ_MAX then Handled(a, Some(ERR_FREQ_RANGE))
    else Handled(Applied(a.(freq := v, ledcFreq := v)), Some(OkFreq(v)))
  }

  /** "DUTY v": a value above 100 is refused and nothing changes; otherwise it is stored and applied. */
  function DutyCommand(a: ArdState, v: nat): (r: Handled)
    ensures v > 100 ==> r == Handled(a, Some(ERR_DUTY_RANGE))
    ensures v <= 100 ==>
              r.reply == Some(OkDuty(v)) && r.state.dutyPercent == v &&
              r.state.freq == a.freq && r.state.running == a.running &&
              r.state.ledcDuty == (if a.running then DutyToLedc(v) else 0) &&
              r.state.ledcFreq == a.ledcFreq
  {
    if v > 100 then Handled(a, Some(ERR_DUTY_RANGE))
    else Handled(Applied(a.(dutyPercent := v)), Some(OkDuty(v)))
  }

  /**
   * The dispatch of processLine on the text after the leading spaces: every
   * line gets a reply, and only ON, START, OFF, STOP, FREQ and DUTY lines
   * change anything.
   */
  function Dispatch(a: ArdState, t: string): (r: Handled)
    ensures r.reply.Some?
    ensures r.state != a ==> t == "ON" || t == "START" || t == "OFF" || t == "STOP" || "FREQ " <= t || "DUTY " <= t
  {
    if t == "VER?" || t == "ID?" then Handled(a, Some(FIRMWARE_ID + "," + FIRMWARE_VER + "\r\n"))
    else if t == "?" || t == "STATUS" then Handled(a, Some(StatusReply(a.freq, a.dutyPercent, a.running)))
    else if t == "ON" || t == "START" then Handled(Applied(a.(running := true)), Some(OK_ON))
    else if t == "OFF" || t == "STOP" then Handled(Applied(a.(running := false)), Some(OK_OFF))
    else if "FREQ " <= t then FreqCommand(a, StrToUL(t[5..]).value)
    else if "DUTY " <= t then DutyCommand(a, StrToUL(t[5..]).value)
    else if t == "HELP" then Handled(a, Some(ARDUINO_HELP))
    else Handled(a, Some(ERR_UNKNOWN))
  }

  /** processLine on the C string a line buffer holds. */
  function Respond(a: ArdState, line: string): (r: Handled)
    ensures r.reply.None? <==> SkipSpaces(CStr(line)) == []
    ensures r.reply.None? ==> r.state == a
  {
    var t := SkipSpaces(CStr(line));
    if t == [] then Handled(a, None) else Dispatch(a, t)
  }

  function Sent(r: Option<string>): seq<string> {
    if r.Some? then [r.value] else []
  }

  /** The statics and everything written so far. */
  datatype Session = Session(state: ArdState, sent: seq<string>)

  /** processLine on one more line. */
  function Advance(s: Session, line: string): (r: Session)
    ensures |s.sent| <= |r.sent| <= |s.sent| + 1 && r.sent[..|s.sent|] == s.sent
    ensures |r.sent| == |s.sent| ==> r == s
  {
    var r := Respond(s.state, line);
    Session(r.state, s.sent + Sent(r.reply))
  }

  /** processLine on each of the lines, in order. */
  function Run(s: Session, lines: seq<string>): (r: Session)
    ensures |s.sent| <= |r.sent| <= |s.sent| + |lines| && r.sent[..|s.sent|] == s.sent
  {
    if lines == [] then s
    else Advance(Run(s, lines[..|lines| - 1]), lines[|lines| - 1])
  }

  lemma RunSnoc(s: Session, lines: seq<string>, l: string)
    ensures Run(s, lines + [l]) == Advance(Run(s, lines), l)
  {
    assert (lines + [l])[..|lines|] == lines;
  }

  /** The invariant of the framing loop carried over the character at index i of the input. */
  lemma FrameRunStep(s0: Session, p0: string, input: string, i: nat,
                     before: Session, after: Session, pendingAfter: string)
    requires i < |input|
    requires before == Run(s0, Frame(p0, input[..i]).lines)
    requires var pending := Frame(p0, input[..i]).pending;
             var st := StepChar(pending, input[i]);
             pendingAfter == st.pending &&
             after == if st.flushed.Some? then Advance(before, pending) else before
    ensures pendingAfter == Frame(p0, input[..i + 1]).pending
    ensures after == Run(s0, Frame(p0, input[..i + 1]).lines)
  {
    var f := Frame(p0, input[..i]);
    var st := StepChar(f.pending, input[i]);
    FrameIndexStep(p0, input, i);
    if st.flushed.Some? {
      RunSnoc(s0, f.lines, st.flushed.value);
    } else {
      assert f.lines + Flushed(st) == f.lines;
    }
  }

  /** The statics start out valid. */
  lemma BootedValid()
    ensures Valid(BOOTED)
  {
  }

  /** Every line keeps the statics valid: s_freq in range, s_dutyPercent <= 100, the channel in step. */
  lemma DispatchValid(a: ArdState, t: string)
    requires Valid(a)
    ensures Valid(Dispatch(a, t).state)
  {
  }

  /** A whole session keeps the statics valid. */
  lemma {:induction false} RunValid(s: Session, lines: seq<string>)
    requires Valid(s.state)
    ensures Valid(Run(s, lines).state)
    decreases |lines|
  {
    if lines != [] {
      var s' := Run(s, lines[..|lines| - 1]);
      RunValid(s, lines[..|lines| - 1]);
      DispatchValid(s'.state, SkipSpaces(CStr(lines[|lines| - 1])));
    }
  }

  /** A line of spaces gets no reply and changes nothing; any other line gets exactly one reply. */
  lemma RespondSilent(a: ArdState, line: string)
    ensures Respond(a, line).reply == None <==> forall i | 0 <= i < |CStr(line)| :: CStr(line)[i] == ' '
    ensures Respond(a, line).reply == None ==> Respond(a, line).state == a
  {
    var c := CStr(line);
    if SkipSpaces(c) != [] {
      var t := SkipSpaces(c);
      assert c[|c| - |t|] == t[0] != ' ';
    }
  }

  /** The exact keyword map. */
  lemma DispatchKeywords(a: ArdState)
    ensures Dispatch(a, "VER?") == Handled(a, Some(ID_REPLY)) && Dispatch(a, "ID?") == Dispatch(a, "VER?")
    ensures Dispatch(a, "?") == Handled(a, Some(StatusReply(a.freq, a.dutyPercent, a.running)))
    ensures Dispatch(a, "STATUS") == Dispatch(a, "?")
    ensures Dispatch(a, "HELP") == Handled(a, Some(ARDUINO_HELP))
  {
  }

  /** ON and START switch the output on, OFF and STOP switch it off; the rest stays. */
  lemma DispatchOnOff(a: ArdState)
    ensures Dispatch(a, "ON") == Handled(Applied(a.(running := true)), Some(OK_ON))
    ensures Dispatch(a, "START") == Dispatch(a, "ON")
    ensures Dispatch(a, "OFF") == Handled(a.(running := false, ledcDuty := 0), Some(OK_OFF))
    ensures Dispatch(a, "STOP") == Dispatch(a, "OFF")
  {
  }

  /** Leading spaces before a command do not matter. */
  lemma RespondLeadingSpaces(a: ArdState, lead: string, core: string)
    requires forall i | 0 <= i < |lead| :: lead[i] == ' '
    requires core != [] && core[0] != ' ' && '\0' !in core
    ensures Respond(a, lead + core) == Dispatch(a, core)
  {
    var line := lead + core;
    forall k | 0 <= k < |line|
      ensures line[k] != '\0'
    {
      if k < |lead| {
        assert line[k] == lead[k];
      } else {
        assert line[k] == core[k - |lead|];
      }
    }
    CStrIs(line, |line|);
    assert line[..|line|] == line;
    SkipSpacesLead(lead, core);
  }

  /** A line without NUL that does not start with a space is dispatched as it is. */
  lemma RespondCommand(a: ArdState, core: string)
    requires core != [] && core[0] != ' ' && '\0' !in core
    ensures Respond(a, core) == Dispatch(a, core)
  {
    CStrIs(core, |core|);
    assert core[..|core|] == core;
    assert SkipSpaces(core) == core;
  }

  /** Trailing spaces are not trimmed: "ON " is an unknown command and leaves the output as it was. */
  lemma TrailingSpaceUnknown(a: ArdState)
    ensures Respond(a, "ON ") == Handled(a, Some(ERR_UNKNOWN))
  {
    RespondCommand(a, "ON ");
  }

  /** A line starting with "FREQ " is judged by the number strtoul reads from the rest. */
  lemma DispatchFreqArg(a: ArdState, arg: string)
    ensures Dispatch(a, "FREQ " + arg) == FreqCommand(a, StrToUL(arg).value)
  {
    var t := "FREQ " + arg;
    assert t[0] == 'F' && "FREQ " <= t && t[5..] == arg;
  }

  /** A line starting with "DUTY " likewise. */
  lemma DispatchDutyArg(a: ArdState, arg: string)
    ensures Dispatch(a, "DUTY " + arg) == DutyCommand(a, StrToUL(arg).value)
  {
    var t := "DUTY " + arg;
    assert t[0] == 'D' && "DUTY " <= t && t[5..] == arg;
  }

  /**
   * "FREQ " and a decimal numeral: the saturated value decides, and
   * whatever follows the numeral is never looked at.
   */
  lemma DispatchFreq(a: ArdState, n: nat, rest: string)
    requires rest == [] || (!IsDecDigit(rest[0]) && rest[0] != 'x' && rest[0] != 'X')
    ensures Dispatch(a, "FREQ " + (Dec(n) + rest)) == FreqCommand(a, if n <= ULONG_MAX then n else ULONG_MAX)
  {
    DispatchFreqArg(a, Dec(n) + rest);
    DecValue(n, rest);
  }

  /** "DUTY " and a decimal numeral, likewise. */
  lemma DispatchDuty(a: ArdState, n: nat, rest: string)
    requires rest == [] || (!IsDecDigit(rest[0]) && rest[0] != 'x' && rest[0] != 'X')
    ensures Dispatch(a, "DUTY " + (Dec(n) + rest)) == DutyCommand(a, if n <= ULONG_MAX then n else ULONG_MAX)
  {
    DispatchDutyArg(a, Dec(n) + rest);
    DecValue(n, rest);
  }

  /**
   * In a buffer whose C string is s[..len], leading spaces up to p and no
   * NUL from p up to a NUL at p + n: the command processLine compares is
   * s[p..p + n].
   */
  lemma CommandBounds(s: string, len: nat, p: nat, n: nat)
    requires len < |s| && s[len] == '\0' && p + n <= len
    requires forall k | 0 <= k < p :: s[k] == ' '
    requires s[p] != ' '
    requires forall k | p <= k < p + n :: s[k] != '\0'
    requires s[p + n] == '\0'
    ensures s[p..p + n] == SkipSpaces(CStr(s[..len]))
    ensures s[p] == '\0' <==> n == 0
  {
    var c := s[..len];
    forall k | 0 <= k < p + n
      ensures c[k] != '\0'
    {
      if k < p {
        assert c[k] == ' ';
      }
    }
    CStrIs(c, p + n);
    assert c[..p + n] == c[..p] + s[p..p + n];
    SkipSpacesLead(c[..p], s[p..p + n]);
  }

  /** The statics of main_arduino.cpp, the LEDC channel, the line buffer and what was printed. */
  class ArduinoFirmware {
    var freq: U32
    var dutyPercent: U8
    var running: bool
    var ledcDuty: nat
    var ledcFreq: U32
    const line: array<char>
    var lineLen: nat
    var sent: seq<string>

    predicate Buffered()
      reads this
    {
      line.Length == CMD_LINE_MAX && lineLen <= CMD_LINE_MAX - 1
    }

    function State(): ArdState
      reads this
    {
      ArdState(freq, dutyPercent, running, ledcDuty, ledcFreq)
    }

    function Current(): Session
      reads this
    {
      Session(State(), sent)
    }

    /** The characters buffered so far. */
    function Pending(): string
      reads this, line
      requires Buffered()
    {
      line[..lineLen]
    }

    /** The static initialisers, then setup(): timer at s_freq, channel at 0, empty line, greeting. */
    constructor ()
      ensures Buffered() && fresh(line)
      ensures State() == BOOTED && lineLen == 0 && sent == [ARDUINO_BANNER]
    {
      freq := 1000;
      dutyPercent := 50;
      running := false;
      line := new char[CMD_LINE_MAX];
      lineLen := 0;
      ledcFreq := freq;
      ledcDuty := 0;
      sent := [ARDUINO_BANNER];
    }

    method ApplyOutput()
      modifies this`ledcDuty
      ensures State() == Applied(old(State()))
    {
      if !running {
        ledcDuty := 0;
        return;
      }
      var d := dutyPercent * (LEDC_MAX_DUTY + 1) / 100;
      if d > LEDC_MAX_DUTY {
        d := LEDC_MAX_DUTY;
      }
      ledcDuty := d;
    }

    /** The FREQ branch of processLine. */
    method Freq(v: nat)
      requires v <= ULONG_MAX
      modifies this`freq, this`ledcFreq, this`ledcDuty, this`sent
      ensures var r := FreqCommand(old(State()), v);
        State() == r.state && sent == old(sent) + Sent(r.reply)
    {
      if v < FREQ_MIN || v > FREQ_MAX {
        sent := sent + [ERR_FREQ_RANGE];
        return;
      }
      freq := v;
      ledcFreq := freq;
      ApplyOutput();
      sent := sent + ["OK FREQ " + Dec(v) + "\r\n"];
    }

    /** The DUTY branch of processLine. */
    method Duty(v: nat)
      requires v <= ULONG_MAX
      modifies this`dutyPercent, this`ledcDuty, this`sent
      ensures var r := DutyCommand(old(State()), v);
        State() == r.state && sent == old(sent) + Sent(r.reply)
    {
      if v > 100 {
        sent := sent + [ERR_DUTY_RANGE];
        return;
      }
      dutyPercent := v;
      ApplyOutput();
      sent := sent + ["OK DUTY " + Dec(v) + "\r\n"];
    }

    /** The comparisons of processLine on the text t after the leading spaces. */
    method DispatchLine(t: string)
      modifies this`freq, this`dutyPercent, this`running, this`ledcDuty, this`ledcFreq, this`sent
      ensures var r := Dispatch(old(State()), t);
        State() == r.state && sent == old(sent) + Sent(r.reply)
    {
      if t == "VER?" || t == "ID?" {
        sent := sent + [FIRMWARE_ID + "," + FIRMWARE_VER + "\r\n"];
      } else if t == "?" || t == "STATUS" {
        sent := sent + [StatusReply(freq, dutyPercent, running)];
      } else if t == "ON" || t == "START" {
        running := true;
        ApplyOutput();
        sent := sent + [OK_ON];
      } else if t == "OFF" || t == "STOP" {
        running := false;
        ApplyOutput();
        sent := sent + [OK_OFF];
      } else if "FREQ " <= t {
        Freq(StrToUL(t[5..]).value);
      } else if "DUTY " <= t {
        Duty(StrToUL(t[5..]).value);
      } else if t == "HELP" {
        sent := sent + [ARDUINO_HELP];
      } else {
        sent := sent + [ERR_UNKNOWN];
      }
    }

    /** while (*p == ' ') p++ over the C string in the line buffer. */
    method SkipLeading() returns (p: nat)
      requires Buffered() && line[lineLen] == '\0'
      ensures p <= lineLen && line[p] != ' '
      ensures forall k | 0 <= k < p :: line[k] == ' '
    {
      p := 0;
      while line[p] == ' '
        invariant p <= lineLen
        invariant forall k | 0 <= k < p :: line[k] == ' '
        decreases lineLen - p
      {
        p := p + 1;
      }
    }

    /** processLine(s_line), with the line NUL-terminated at s_lineLen. */
    method ProcessLine()
      requires Buffered() && line[lineLen] == '\0'
      modifies this`freq, this`dutyPercent, this`running, this`ledcDuty, this`ledcFreq, this`sent
      ensures Current() == Advance(old(Current()), old(line[..lineLen]))
    {
      var p := SkipLeading();
      var n := StrLen(line, p, lineLen);
      ghost var buf := line[..lineLen + 1];
      assert buf[..lineLen] == line[..lineLen] && buf[p..p + n] == line[p..p + n];
      CommandBounds(buf, lineLen, p, n);
      if line[p] == '\0' {
        return;
      }
      DispatchLine(line[p..p + n]);
    }

    /** The end of a line in loop(): the buffer, if not empty, is processed and emptied. */
    method EndLine()
      requires Buffered()
      modifies this, line
      ensures Buffered() && lineLen == 0
      ensures Current() == if old(lineLen) > 0 then Advance(old(Current()), old(Pending())) else old(Current())
    {
      line[lineLen] := '\0';
      if lineLen > 0 {
        ProcessLine();
      }
      lineLen := 0;
    }

    /** s_line[s_lineLen++] = c: one more character buffered. */
    method Append(c: char)
      requires Buffered() && lineLen < CMD_LINE_MAX - 1
      modifies this`lineLen, line
      ensures Buffered() && Pending() == old(Pending()) + [c]
    {
      line[lineLen] := c;
      lineLen := lineLen + 1;
    }

    /** The body of loop()'s while loop for one character c read from Serial. */
    method ReceiveChar(c: char)
      requires Buffered()
      modifies this, line
      ensures Buffered()
      ensures var st := StepChar(old(Pending()), c);
              Pending() == st.pending &&
              Current() == if st.flushed.Some? then Advance(old(Current()), old(Pending())) else old(Current())
    {
      if c == '\n' || c == '\r' || lineLen >= CMD_LINE_MAX - 1 {
        EndLine();
        if c != '\n' && c != '\r' {
          Append(c);
          assert Pending() == [] + [c];
        }
      } else {
        Append(c);
      }
    }

    /**
     * One call of loop() with the characters Serial has available: the
     * lines they complete are processed in order, and the rest stays buffered.
     */
    method Loop(available: string)
      requires Buffered()
      modifies this, line
      ensures Buffered()
      ensures var f := Frame(old(Pending()), available);
              Pending() == f.pending && Current() == Run(old(Current()), f.lines)
    {
      ghost var p0 := Pending();
      ghost var s0 := Current();
      assert available[..0] == [];
      for i := 0 to |available|
        invariant Buffered()
        invariant var f := Frame(p0, available[..i]);
                  Pending() == f.pending && Current() == Run(s0, f.lines)
      {
        ghost var before := Current();
        ReceiveChar(available[i]);
        FrameRunStep(s0, p0, available, i, before, Current(), Pending());
      }
      assert available[..|available|] == available;
    }
  }
}
