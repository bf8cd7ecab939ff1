/**
 * The contracts between the host (gui/protocol.py) and the two firmwares:
 * what a firmware writes is read back correctly by the host, and what the
 * host builds and sends (gui/generator_gui.py appends a single "\n") is
 * framed into one line and executed as the command it names.
 */
module Interop {
  import opened Wrappers
  import opened Numerals
  import opened CText
  import opened Replies
  import opened Framing
  import opened Protocol
  import CmdParse
  import Generator
  import UartCmd
  import Arduino

  // ------------------------------------------------------- status replies

  /** The firmwares' status reply is the host's status report and CR LF. */
  lemma StatusReplyText(freq: nat, duty: nat, on: bool)
    ensures StatusReply(freq, duty, on) == StatusReport(freq, duty, on) + "\r\n"
  {
    assert OnOff(on) == Word(on);
  }

  /** parse_status_line recovers exactly the values a status reply was printed from. */
  lemma StatusReplyParsed(freq: nat, duty: nat, on: bool)
    ensures ParseStatusLine(StatusReply(freq, duty, on)) == Some(Status(freq, duty, on))
  {
    var x := StatusReport(freq, duty, on);
    StatusReplyText(freq, duty, on);
    StatusReportEnds(freq, duty, on);
    StripReply(x);
    StatusReportMatches(freq, duty, on);
  }

  /** "?" to the ESP-IDF firmware: nothing changes and the host reads back the generator's settings. */
  lemma EspStatusRoundTrip(g: Generator.GenState, setFreqStatus: U32 -> int, t: string)
    requires t == "?" || t == "STATUS"
    ensures var r := UartCmd.Dispatch(g, setFreqStatus, t);
            r.state == g && r.reply.Some? &&
            ParseStatusLine(r.reply.value) == Some(Status(g.freqHz, g.dutyPercent, g.running))
  {
    UartCmd.DispatchKeywords(g, setFreqStatus);
    StatusReplyParsed(g.freqHz, g.dutyPercent, g.running);
  }

  /** "?" to the Arduino firmware, likewise with s_freq, s_dutyPercent and s_running. */
  lemma ArduinoStatusRoundTrip(a: Arduino.ArdState, t: string)
    requires t == "?" || t == "STATUS"
    ensures var r := Arduino.Dispatch(a, t);
            r.state == a && r.reply.Some? &&
            ParseStatusLine(r.reply.value) == Some(Status(a.freq, a.dutyPercent, a.running))
  {
    Arduino.DispatchKeywords(a);
    StatusReplyParsed(a.freq, a.dutyPercent, a.running);
  }

  // ------------------------------------------------------- identification

  /** The identification reply carries the signature the host looks for. */
  lemma IdReplyRecognised()
    ensures IsOurGeneratorResponse(ID_REPLY)
  {
    StartsAtIndex(ID_REPLY, 0, DEVICE_ID_PREFIX);
    assert StartsAt(ID_REPLY, 0, DEVICE_ID_PREFIX);
  }

  /** "VER?" and "ID?" to the Arduino firmware are recognised by the host and change nothing. */
  lemma ArduinoIdentifies(a: Arduino.ArdState, t: string)
    requires t == "VER?" || t == "ID?"
    ensures var r := Arduino.Dispatch(a, t);
            r.state == a && r.reply.Some? && IsOurGeneratorResponse(r.reply.value)
  {
    Arduino.DispatchKeywords(a);
    IdReplyRecognised();
  }

  /** The unknown-command reply holds no 'U', so it never carries the signature. */
  lemma UnknownNotRecognised()
    ensures !IsOurGeneratorResponse(ERR_UNKNOWN)
  {
    forall i: nat | StartsAt(ERR_UNKNOWN, i, DEVICE_ID_PREFIX)
      ensures false
    {
      StartsAtChar(ERR_UNKNOWN, i, DEVICE_ID_PREFIX, 0);
    }
  }

  /** "VER?" to the ESP-IDF firmware is an unknown command, so the host does not recognise that firmware. */
  lemma EspNotIdentified(g: Generator.GenState, setFreqStatus: U32 -> int)
    ensures var r := UartCmd.Dispatch(g, setFreqStatus, "VER?");
            r.state == g && r.reply == Some(ERR_UNKNOWN) && !IsOurGeneratorResponse(r.reply.value)
  {
    UartCmd.DispatchUnknown(g, setFreqStatus);
    UnknownNotRecognised();
  }

  // ------------------------------------------------------ reply classes

  /** A reply made of a prefix, a word that does not end in white space, and CR LF strips to its first line. */
  lemma StripReply(core: string)
    requires core != [] && !IsPySpace(core[0]) && !IsPySpace(core[|core| - 1])
    ensures Strip(core + "\r\n") == core
  {
    assert AllPySpace("\r\n") by {
      assert IsPySpace('\r') && IsPySpace('\n');
    }
    StripTrail(core, "\r\n");
  }

  /** Exactly one of the two classifiers accepts a line. */
  predicate Classified(reply: string) {
    IsOkResponse(reply) != IsErrResponse(reply)
  }

  /** A reply whose first line starts with "OK " is an acknowledgement and nothing else. */
  lemma OkLine(reply: string, core: string)
    requires reply == core + "\r\n"
    requires |core| >= 3 && core[..3] == "OK " && !IsPySpace(core[|core| - 1])
    ensures IsOkResponse(reply) && Classified(reply)
  {
    StripReply(core);
    StartsAtIndex(core, 0, "OK ");
    OkErrExclusive(reply);
  }

  /** A reply whose first line starts with "ERR " is a refusal and nothing else. */
  lemma ErrLine(reply: string, core: string)
    requires reply == core + "\r\n"
    requires |core| >= 4 && core[..4] == "ERR " && !IsPySpace(core[|core| - 1])
    ensures IsErrResponse(reply) && Classified(reply)
  {
    StripReply(core);
    StartsAtIndex(core, 0, "ERR ");
    OkErrExclusive(reply);
  }

  lemma OkOnClassified()
    ensures IsOkResponse(OK_ON) && Classified(OK_ON)
  {
    OkLine(OK_ON, "OK ON");
  }

  lemma OkOffClassified()
    ensures IsOkResponse(OK_OFF) && Classified(OK_OFF)
  {
    OkLine(OK_OFF, "OK OFF");
  }

  lemma ErrFreqRangeClassified()
    ensures IsErrResponse(ERR_FREQ_RANGE) && Classified(ERR_FREQ_RANGE)
  {
    ErrLine(ERR_FREQ_RANGE, "ERR FREQ range 1..40000000");
  }

  lemma ErrFreqClassified()
    ensures IsErrResponse(ERR_FREQ) && Classified(ERR_FREQ)
  {
    ErrLine(ERR_FREQ, "ERR FREQ");
  }

  lemma ErrDutyRangeClassified()
    ensures IsErrResponse(ERR_DUTY_RANGE) && Classified(ERR_DUTY_RANGE)
  {
    ErrLine(ERR_DUTY_RANGE, "ERR DUTY 0..100");
  }

  lemma ErrDutyClassified()
    ensures IsErrResponse(ERR_DUTY) && Classified(ERR_DUTY)
  {
    ErrLine(ERR_DUTY, "ERR DUTY");
  }

  lemma ErrUnknownClassified()
    ensures IsErrResponse(ERR_UNKNOWN) && Classified(ERR_UNKNOWN)
  {
    ErrLine(ERR_UNKNOWN, "ERR unknown command (HELP)");
  }

  /** The acknowledgements of FREQ and DUTY are OK responses, whatever the value. */
  lemma OkValues(v: nat)
    ensures IsOkResponse(OkFreq(v)) && Classified(OkFreq(v))
    ensures IsOkResponse(OkDuty(v)) && Classified(OkDuty(v))
  {
    var d := Dec(v);
    assert !IsPySpace(d[|d| - 1]) by {
      assert IsDigitIn(d[|d| - 1], 10);
    }
    OkLine(OkFreq(v), "OK FREQ " + d);
    OkLine(OkDuty(v), "OK DUTY " + d);
  }

  lemma EspFreqClassified(g: Generator.GenState, setFreqStatus: U32 -> int, v: nat)
    requires v <= ULONG_MAX
    ensures Classified(UartCmd.FreqReaction(g, setFreqStatus, v).reply.value)
  {
    if v == 0 || v > Generator.MAX_FREQ_HZ {
      ErrFreqRangeClassified();
    } else if Generator.SetFreqResult(g, v, setFreqStatus(v)).rc == Generator.ESP_OK {
      OkValues(v);
    } else {
      ErrFreqClassified();
    }
  }

  lemma EspDutyClassified(g: Generator.GenState, v: nat)
    requires v <= ULONG_MAX
    ensures Classified(UartCmd.DutyReaction(g, v).reply.value)
  {
    if v > 100 {
      ErrDutyRangeClassified();
    } else if Generator.SetDutyResult(g, v).rc == Generator.ESP_OK {
      OkValues(v);
    } else {
      ErrDutyClassified();
    }
  }

  /**
   * Every reply of the ESP-IDF firmware other than the status line and
   * the help text is accepted by exactly one of is_ok_response and
   * is_err_response.
   */
  lemma EspRepliesClassified(g: Generator.GenState, setFreqStatus: U32 -> int, t: string)
    requires !(t == "?" || t == "STATUS" || t == "HELP")
    ensures Classified(UartCmd.Dispatch(g, setFreqStatus, t).reply.value)
  {
    if t == "ON" || t == "START" {
      OkOnClassified();
    } else if t == "OFF" || t == "STOP" {
      OkOffClassified();
    } else if "FREQ " <= t {
      EspFreqClassified(g, setFreqStatus, StrToUL(t[5..]).value);
    } else if "DUTY " <= t {
      EspDutyClassified(g, StrToUL(t[5..]).value);
    } else {
      ErrUnknownClassified();
    }
  }

  lemma ArduinoFreqClassified(a: Arduino.ArdState, v: nat)
    ensures Classified(Arduino.FreqCommand(a, v).reply.value)
  {
    if v < Arduino.FREQ_MIN || v > Arduino.FREQ_MAX {
      ErrFreqRangeClassified();
    } else {
      OkValues(v);
    }
  }

  lemma ArduinoDutyClassified(a: Arduino.ArdState, v: nat)
    ensures Classified(Arduino.DutyCommand(a, v).reply.value)
  {
    if v > 100 {
      ErrDutyRangeClassified();
    } else {
      OkValues(v);
    }
  }

  /** The same for the Arduino firmware, whose identification reply is neither. */
  lemma ArduinoRepliesClassified(a: Arduino.ArdState, t: string)
    requires !(t == "?" || t == "STATUS" || t == "HELP" || t == "VER?" || t == "ID?")
    ensures Classified(Arduino.Dispatch(a, t).reply.value)
  {
    if t == "ON" || t == "START" {
      OkOnClassified();
    } else if t == "OFF" || t == "STOP" {
      OkOffClassified();
    } else if "FREQ " <= t {
      ArduinoFreqClassified(a, StrToUL(t[5..]).value);
    } else if "DUTY " <= t {
      ArduinoDutyClassified(a, StrToUL(t[5..]).value);
    } else {
      ErrUnknownClassified();
    }
  }

  // ------------------------------------------------- commands from the host

  /**
   * What the host can put on the wire before its "\n": a stripped command
   * of at most 63 characters without NUL, CR or LF.
   */
  predicate Sendable(cmd: string) {
    LineOk(cmd) && cmd[0] != ' ' && !IsTrailingJunk(cmd[|cmd| - 1]) &&
    forall k | 0 <= k < |cmd| :: cmd[k] != '\0'
  }

  /** The commands the host builds for a FREQ or DUTY value are sendable. */
  lemma NumberCommandSendable(word: string, n: nat)
    requires word == "FREQ " || word == "DUTY "
    requires n <= 40_000_000
    ensures Sendable(word + Dec(n))
  {
    DecLength(n, 8);
    var cmd := word + Dec(n);
    forall k | 0 <= k < |cmd|
      ensures !CmdParse.IsStop(cmd[k])
    {
      if k >= 5 {
        assert cmd[k] == Dec(n)[k - 5];
        assert IsDigitIn(Dec(n)[k - 5], 10);
      }
    }
    assert IsDigitIn(cmd[|cmd| - 1], 10) by {
      assert cmd[|cmd| - 1] == Dec(n)[|Dec(n)| - 1];
    }
  }

  lemma SendableStopFree(cmd: string)
    requires Sendable(cmd)
    ensures forall k | 0 <= k < |cmd| :: !CmdParse.IsStop(cmd[k])
  {
    forall k | 0 <= k < |cmd|
      ensures !CmdParse.IsStop(cmd[k])
    {
      assert !IsBreak(cmd[k]);
    }
  }

  lemma ParseThenNewline(cmd: string)
    requires forall k | 0 <= k < |cmd| :: !CmdParse.IsStop(cmd[k])
    requires cmd != [] && cmd[0] != ' ' && !IsTrailingJunk(cmd[|cmd| - 1]) && |cmd| <= CMD_LINE_MAX - 1
    ensures CmdParse.ParseCommand(cmd + "\n") == CmdParse.Classify(cmd)
  {
    CmdParse.ParseTrail(cmd, "\n");
  }

  /** cmd_parse reads a sendable command followed by "\n" as the command alone. */
  lemma ParseSent(cmd: string)
    requires Sendable(cmd)
    ensures CmdParse.ParseCommand(cmd + "\n") == CmdParse.Classify(cmd)
  {
    SendableStopFree(cmd);
    ParseThenNewline(cmd);
  }

  /** A FREQ command built by the host is accepted by cmd_parse with the same frequency. */
  lemma HostFreqParsed(hz: int)
    requires BuildFreqCmd(hz).Success?
    ensures CmdParse.ParseCommand(BuildFreqCmd(hz).value + "\n") == CmdParse.Accepted(CmdParse.Freq(hz))
  {
    NumberCommandSendable("FREQ ", hz);
    ParseSent(BuildFreqCmd(hz).value);
    CmdParse.FreqDecimal(hz);
  }

  /** A DUTY command built by the host is accepted by cmd_parse with the same percentage. */
  lemma HostDutyParsed(percent: int)
    requires BuildDutyCmd(percent).Success?
    ensures CmdParse.ParseCommand(BuildDutyCmd(percent).value + "\n") == CmdParse.Accepted(CmdParse.Duty(percent))
  {
    NumberCommandSendable("DUTY ", percent);
    ParseSent(BuildDutyCmd(percent).value);
    CmdParse.DutyDecimal(percent);
  }

  /** The host's ON command is cmd_parse's ON keyword. */
  lemma HostOnParsed()
    ensures CmdParse.ParseCommand(BuildOnCmd() + "\n") == CmdParse.Accepted(CmdParse.On)
  {
    ParseThenNewline("ON");
    CmdParse.Keywords();
  }

  /** The host's OFF command is cmd_parse's OFF keyword. */
  lemma HostOffParsed()
    ensures CmdParse.ParseCommand(BuildOffCmd() + "\n") == CmdParse.Accepted(CmdParse.Off)
  {
    ParseThenNewline("OFF");
    CmdParse.Keywords();
  }

  /** The host's status query is cmd_parse's status keyword. */
  lemma HostStatusParsed()
    ensures CmdParse.ParseCommand(BuildStatusCmd() + "\n") == CmdParse.Accepted(CmdParse.Status)
  {
    ParseThenNewline("?");
    CmdParse.Keywords();
  }

  /** The host's identification request is not a command cmd_parse knows. */
  lemma HostIdUnknown()
    ensures CmdParse.ParseCommand(BuildIdCmd() + "\n") == CmdParse.Unknown
  {
    var t := "VER?";
    assert t[0] == 'V' && CmdParse.Keyword(t) == None && !("FREQ " <= t) && !("DUTY " <= t);
    ParseThenNewline(t);
  }

  /** One sendable command and "\n" reach the ESP-IDF firmware's process_line as exactly that line. */
  lemma EspRunsSent(s: UartCmd.Session, setFreqStatus: U32 -> int, cmd: string)
    requires Sendable(cmd)
    ensures var r := UartCmd.Dispatch(s.state, setFreqStatus, cmd);
            UartCmd.Run(s, setFreqStatus, Frame([], cmd + "\n").lines) ==
            UartCmd.Session(r.state, s.sent + [r.reply.value])
  {
    FrameOneLine(cmd, '\n');
    assert [cmd][..0] == [];
    UartCmd.RespondTrail(s.state, setFreqStatus, cmd, []);
    assert cmd + [] == cmd;
  }

  /** The text of a built FREQ command, in the shape the dispatchers' lemmas take. */
  lemma BuiltFreqDispatched(hz: int)
    requires BuildFreqCmd(hz).Success?
    ensures hz >= 0 && BuildFreqCmd(hz).value == "FREQ " + (Dec(hz) + [])
  {
    assert Dec(hz) + [] == Dec(hz);
  }

  /** The text of a built DUTY command, likewise. */
  lemma BuiltDutyDispatched(percent: int)
    requires BuildDutyCmd(percent).Success?
    ensures percent >= 0 && BuildDutyCmd(percent).value == "DUTY " + (Dec(percent) + [])
  {
    assert Dec(percent) + [] == Dec(percent);
  }

  /**
   * The host's FREQ command makes the ESP-IDF firmware call
   * generator_set_freq with the same frequency and write its one reply.
   */
  lemma EspExecutesFreq(s: UartCmd.Session, setFreqStatus: U32 -> int, hz: int)
    requires BuildFreqCmd(hz).Success?
    ensures var r := UartCmd.FreqReaction(s.state, setFreqStatus, hz);
            UartCmd.Run(s, setFreqStatus, Frame([], BuildFreqCmd(hz).value + "\n").lines) ==
            UartCmd.Session(r.state, s.sent + [r.reply.value])
  {
    NumberCommandSendable("FREQ ", hz);
    EspRunsSent(s, setFreqStatus, BuildFreqCmd(hz).value);
    BuiltFreqDispatched(hz);
    UartCmd.DispatchFreq(s.state, setFreqStatus, hz, []);
  }

  /** The host's DUTY command makes the ESP-IDF firmware call generator_set_duty with the same percentage. */
  lemma EspExecutesDuty(s: UartCmd.Session, setFreqStatus: U32 -> int, percent: int)
    requires BuildDutyCmd(percent).Success?
    ensures var r := UartCmd.DutyReaction(s.state, percent);
            UartCmd.Run(s, setFreqStatus, Frame([], BuildDutyCmd(percent).value + "\n").lines) ==
            UartCmd.Session(r.state, s.sent + [r.reply.value])
  {
    NumberCommandSendable("DUTY ", percent);
    EspRunsSent(s, setFreqStatus, BuildDutyCmd(percent).value);
    BuiltDutyDispatched(percent);
    UartCmd.DispatchDuty(s.state, setFreqStatus, percent, []);
  }

  /** The host's status query leaves the ESP-IDF generator alone and reads back its settings. */
  lemma EspAnswersStatus(s: UartCmd.Session, setFreqStatus: U32 -> int)
    ensures var s' := UartCmd.Run(s, setFreqStatus, Frame([], BuildStatusCmd() + "\n").lines);
            s'.state == s.state && |s'.sent| == |s.sent| + 1 && s'.sent[..|s.sent|] == s.sent &&
            ParseStatusLine(s'.sent[|s.sent|]) == Some(Status(s.state.freqHz, s.state.dutyPercent, s.state.running))
  {
    EspRunsSent(s, setFreqStatus, "?");
    EspStatusRoundTrip(s.state, setFreqStatus, "?");
  }

  /** The host's ON starts the ESP-IDF generator and gets its OK reply. */
  lemma EspExecutesOn(s: UartCmd.Session, setFreqStatus: U32 -> int)
    ensures UartCmd.Run(s, setFreqStatus, Frame([], BuildOnCmd() + "\n").lines) ==
            UartCmd.Session(Generator.Started(s.state), s.sent + [OK_ON])
  {
    EspRunsSent(s, setFreqStatus, "ON");
    UartCmd.DispatchKeywords(s.state, setFreqStatus);
  }

  /** The host's OFF stops it, likewise. */
  lemma EspExecutesOff(s: UartCmd.Session, setFreqStatus: U32 -> int)
    ensures UartCmd.Run(s, setFreqStatus, Frame([], BuildOffCmd() + "\n").lines) ==
            UartCmd.Session(Generator.Stopped(s.state), s.sent + [OK_OFF])
  {
    EspRunsSent(s, setFreqStatus, "OFF");
    UartCmd.DispatchKeywords(s.state, setFreqStatus);
  }

  /** One sendable command and "\n" reach the Arduino firmware's processLine as exactly that line. */
  lemma ArduinoRunsSent(s: Arduino.Session, cmd: string)
    requires Sendable(cmd)
    ensures var r := Arduino.Dispatch(s.state, cmd);
            Arduino.Run(s, Frame([], cmd + "\n").lines) == Arduino.Session(r.state, s.sent + [r.reply.value])
  {
    FrameOneLine(cmd, '\n');
    assert [cmd][..0] == [];
    assert '\0' !in cmd by {
      forall k | 0 <= k < |cmd|
        ensures cmd[k] != '\0'
      {
      }
    }
    Arduino.RespondCommand(s.state, cmd);
  }

  /** The host's FREQ command sets the Arduino firmware's frequency to the same value. */
  lemma ArduinoExecutesFreq(s: Arduino.Session, hz: int)
    requires BuildFreqCmd(hz).Success?
    ensures var r := Arduino.FreqCommand(s.state, hz);
            Arduino.Run(s, Frame([], BuildFreqCmd(hz).value + "\n").lines) ==
            Arduino.Session(r.state, s.sent + [OkFreq(hz)])
  {
    NumberCommandSendable("FREQ ", hz);
    ArduinoRunsSent(s, BuildFreqCmd(hz).value);
    BuiltFreqDispatched(hz);
    Arduino.DispatchFreq(s.state, hz, []);
  }

  /** The host's DUTY command sets the Arduino firmware's duty to the same percentage. */
  lemma ArduinoExecutesDuty(s: Arduino.Session, percent: int)
    requires BuildDutyCmd(percent).Success?
    ensures var r := Arduino.DutyCommand(s.state, percent);
            Arduino.Run(s, Frame([], BuildDutyCmd(percent).value + "\n").lines) ==
            Arduino.Session(r.state, s.sent + [OkDuty(percent)])
  {
    NumberCommandSendable("DUTY ", percent);
    ArduinoRunsSent(s, BuildDutyCmd(percent).value);
    BuiltDutyDispatched(percent);
    Arduino.DispatchDuty(s.state, percent, []);
  }

  /** The host's identification request to the Arduino firmware is answered with a recognised reply. */
  lemma ArduinoAnswersId(s: Arduino.Session)
    ensures var s' := Arduino.Run(s, Frame([], BuildIdCmd() + "\n").lines);
            s'.state == s.state && |s'.sent| == |s.sent| + 1 && s'.sent[..|s.sent|] == s.sent &&
            IsOurGeneratorResponse(s'.sent[|s.sent|])
  {
    ArduinoRunsSent(s, "VER?");
    ArduinoIdentifies(s.state, "VER?");
  }

  /** The host's status query, sent to the Arduino firmware, reads back the statics and changes nothing. */
  lemma ArduinoAnswersStatus(s: Arduino.Session)
    ensures var s' := Arduino.Run(s, Frame([], BuildStatusCmd() + "\n").lines);
            s'.state == s.state && |s'.sent| == |s.sent| + 1 && s'.sent[..|s.sent|] == s.sent &&
            ParseStatusLine(s'.sent[|s.sent|]) == Some(Status(s.state.freq, s.state.dutyPercent, s.state.running))
  {
    ArduinoRunsSent(s, "?");
    ArduinoStatusRoundTrip(s.state, "?");
  }

  /** The host's ON switches the Arduino output on and gets its OK reply. */
  lemma ArduinoExecutesOn(s: Arduino.Session)
    ensures Arduino.Run(s, Frame([], BuildOnCmd() + "\n").lines) ==
            Arduino.Session(Arduino.Applied(s.state.(running := true)), s.sent + [OK_ON])
  {
    ArduinoRunsSent(s, "ON");
    Arduino.DispatchOnOff(s.state);
  }

  /** The host's OFF switches it off, likewise. */
  lemma ArduinoExecutesOff(s: Arduino.Session)
    ensures Arduino.Run(s, Frame([], BuildOffCmd() + "\n").lines) ==
            Arduino.Session(s.state.(running := false, ledcDuty := 0), s.sent + [OK_OFF])
  {
    ArduinoRunsSent(s, "OFF");
    Arduino.DispatchOnOff(s.state);
  }

  /** The same request to the ESP-IDF firmware gets the unknown-command reply, which is not recognised. */
  lemma EspRefusesId(s: UartCmd.Session, setFreqStatus: U32 -> int)
    ensures var s' := UartCmd.Run(s, setFreqStatus, Frame([], BuildIdCmd() + "\n").lines);
            s'.state == s.state && s'.sent == s.sent + [ERR_UNKNOWN] && !IsOurGeneratorResponse(ERR_UNKNOWN)
  {
    EspRunsSent(s, setFreqStatus, "VER?");
    EspNotIdentified(s.state, setFreqStatus);
  }
}
