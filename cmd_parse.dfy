/**
 * The host-testable firmware command parser (src/cmd_parse.c): a bounded
 * copy of the line into a 64-byte buffer, the in-place trim, and the
 * classification against the exact keywords and the two numeric commands.
 */
module CmdParse {
  import opened Wrappers
  import opened Numerals
  import opened CText

  const CMD_FREQ_MIN: nat := 1
  const CMD_FREQ_MAX: nat := 40_000_000
  const CMD_DUTY_MAX: nat := 100

  /** Size of the local line buffer; at most one less is copied, leaving room for the NUL. */
  const BUF_SIZE: nat := 64

  /** cmd_type_t. */
  datatype CmdType = CmdNone | CmdFreq | CmdDuty | CmdOn | CmdOff | CmdStatus | CmdHelp

  /** What a recognised line asks for. */
  datatype Command = NoCommand | Freq(hz: nat) | Duty(percent: nat) | On | Off | Status | Help

  /** The three outcomes cmd_parse reports. */
  datatype Verdict = Accepted(cmd: Command) | Unknown | OutOfRange

  function Kind(c: Command): CmdType {
    match c
    case NoCommand => CmdNone
    case Freq(_) => CmdFreq
    case Duty(_) => CmdDuty
    case On => CmdOn
    case Off => CmdOff
    case Status => CmdStatus
    case Help => CmdHelp
  }

  /** The return code: 0 recognised, -1 unknown command, -2 value out of range. */
  function Code(v: Verdict): (rc: int)
    ensures rc == 0 <==> v.Accepted?
    ensures rc == -1 <==> v.Unknown?
    ensures rc == -2 <==> v.OutOfRange?
  {
    match v
    case Accepted(_) => 0
    case Unknown => -1
    case OutOfRange => -2
  }

  /** The characters that end the copy: NUL, CR and LF. */
  predicate IsStop(c: char) {
    c == '\0' || c == '\r' || c == '\n'
  }

  /**
   * The longest prefix of the line that has at most room characters and
   * no NUL, CR or LF (the end of the sequence acts as the terminating NUL).
   */
  function PrefixUpTo(line: string, room: nat): (r: string)
    ensures |r| <= room && r <= line
    ensures forall k | 0 <= k < |r| :: !IsStop(r[k])
    ensures |r| == room || |r| == |line| || IsStop(line[|r|])
  {
    if room == 0 || line == [] || IsStop(line[0]) then []
    else [line[0]] + PrefixUpTo(line[1..], room - 1)
  }

  /** The part of the line cmd_parse looks at: up to the first CR or LF, at most 63 characters. */
  function Examined(line: string): string {
    PrefixUpTo(line, BUF_SIZE - 1)
  }

  /** Examined is the one prefix with those three properties. */
  lemma ExaminedIs(line: string, p: string)
    requires |p| <= BUF_SIZE - 1 && p <= line
    requires forall k | 0 <= k < |p| :: !IsStop(p[k])
    requires |p| == BUF_SIZE - 1 || |p| == |line| || IsStop(line[|p|])
    ensures Examined(line) == p
  {
  }

  /** A line that starts with a stop-free text of at most 63 characters is examined at least that far. */
  lemma ExaminedCovers(line: string, p: string)
    requires |p| <= BUF_SIZE - 1 && p <= line
    requires forall k | 0 <= k < |p| :: !IsStop(p[k])
    ensures p <= Examined(line)
  {
  }

  /** Index just past the spaces at and after i (the loop over the end pointer). */
  function SpacesEnd(s: string, i: nat): (j: nat)
    requires i <= |s|
    ensures i <= j <= |s|
    ensures forall k | i <= k < j :: s[k] == ' '
    ensures j == |s| || s[j] != ' '
    decreases |s| - i
  {
    if i < |s| && s[i] == ' ' then SpacesEnd(s, i + 1) else i
  }

  /** The number after "FREQ " or "DUTY ": strtoul, then nothing but spaces may follow. */
  function Argument(arg: string): (r: Option<nat>)
    ensures r.Some? <==> forall k | StrToUL(arg).end <= k < |arg| :: arg[k] == ' '
    ensures r.Some? ==> r.value == StrToUL(arg).value <= ULONG_MAX
  {
    var c := StrToUL(arg);
    if SpacesEnd(arg, c.end) == |arg| then Some(c.value) else None
  }

  /** The exact keywords and what each stands for. */
  function Keyword(t: string): (r: Option<Command>)
    ensures r.Some? <==> t == "?" || t == "STATUS" || t == "ON" || t == "START" || t == "OFF" || t == "STOP" || t == "HELP"
    ensures r == Some(Status) <==> t == "?" || t == "STATUS"
    ensures r == Some(On) <==> t == "ON" || t == "START"
    ensures r == Some(Off) <==> t == "OFF" || t == "STOP"
  {
    if t == "?" || t == "STATUS" then Some(Status)
    else if t == "ON" || t == "START" then Some(On)
    else if t == "OFF" || t == "STOP" then Some(Off)
    else if t == "HELP" then Some(Help)
    else None
  }

  /** FREQ: a number in 1..40000000 is accepted, any other number is out of range. */
  function FreqVerdict(a: Option<nat>): (v: Verdict)
    ensures v.Accepted? ==> v.cmd.Freq? && CMD_FREQ_MIN <= v.cmd.hz <= CMD_FREQ_MAX
  {
    match a
    case None => Unknown
    case Some(n) => if n < CMD_FREQ_MIN || n > CMD_FREQ_MAX then OutOfRange else Accepted(Freq(n))
  }

  /** DUTY: a number up to 100 is accepted, a larger one is out of range. */
  function DutyVerdict(a: Option<nat>): (v: Verdict)
    ensures v.Accepted? ==> v.cmd.Duty? && v.cmd.percent <= CMD_DUTY_MAX
  {
    match a
    case None => Unknown
    case Some(n) => if n > CMD_DUTY_MAX then OutOfRange else Accepted(Duty(n))
  }

  /**
   * The keyword and number dispatch over the trimmed text (which holds no
   * NUL, so strcmp and strncmp are equality and prefix tests).
   */
  function Classify(t: string): (v: Verdict)
    ensures v == Accepted(NoCommand) <==> t == []
    ensures v.Accepted? && v.cmd.Freq? ==> CMD_FREQ_MIN <= v.cmd.hz <= CMD_FREQ_MAX
    ensures v.Accepted? && v.cmd.Duty? ==> v.cmd.percent <= CMD_DUTY_MAX
    ensures v.OutOfRange? ==> "FREQ " <= t || "DUTY " <= t
  {
    if t == [] then Accepted(NoCommand)
    else match Keyword(t)
      case Some(c) => Accepted(c)
      case None =>
        if "FREQ " <= t then FreqVerdict(Argument(t[5..]))
        else if "DUTY " <= t then DutyVerdict(Argument(t[5..]))
        else Unknown
  }

  /** What cmd_parse decides for a (non-NULL) line. */
  function ParseCommand(line: string): Verdict {
    Classify(Trimmed(Examined(line)))
  }

  /** The copy loop: characters up to NUL, CR or LF, at most 63 of them, then a NUL. */
  method CopyLine(line: string) returns (buf: array<char>, len: nat)
    ensures fresh(buf) && buf.Length == BUF_SIZE
    ensures len <= BUF_SIZE - 1 && buf[..len] == Examined(line) && buf[len] == '\0'
  {
    buf := new char[BUF_SIZE];
    len := 0;
    while len < |line| && line[len] != '\0' && len < BUF_SIZE - 1 && line[len] != '\r' && line[len] != '\n'
      invariant len <= |line| && len <= BUF_SIZE - 1
      invariant buf[..len] == line[..len]
      invariant forall k | 0 <= k < len :: !IsStop(line[k])
    {
      buf[len] := line[len];
      len := len + 1;
    }
    buf[len] := '\0';
    ExaminedIs(line, line[..len]);
  }

  /** The first loop of trim: the length without the trailing CR, LF and spaces. */
  method TrailingEnd(buf: array<char>, len: nat) returns (n: nat)
    requires len <= buf.Length
    ensures n <= len && buf[..n] == TrimTrailing(buf[..len])
  {
    n := len;
    while n > 0 && IsTrailingJunk(buf[n - 1])
      invariant n <= len
      invariant TrimTrailing(buf[..n]) == TrimTrailing(buf[..len])
    {
      assert buf[..n][..n - 1] == buf[..n - 1];
      n := n - 1;
    }
  }

  /** memmove(buf, p, strlen(p) + 1): the string at p, with its NUL, moves to the front. */
  method ShiftToFront(buf: array<char>, p: nat, ghost n: nat) returns (m: nat)
    requires p <= n < buf.Length && buf[n] == '\0'
    requires forall k | p <= k < n :: buf[k] != '\0'
    modifies buf
    ensures m == n - p && buf[..m] == old(buf[p..n]) && buf[m] == '\0'
  {
    m := StrLen(buf, p, n);
    assert m == n - p;
    ghost var moved := buf[p..p + m + 1];
    MoveDown(buf, p, m + 1);
    assert buf[..m + 1] == moved;
    assert buf[..m] == moved[..m];
  }

  /**
   * trim: drop trailing CR, LF and spaces, terminate, skip leading spaces
   * and move the rest to the front of the buffer.
   */
  method Trim(buf: array<char>, len: nat) returns (n: nat)
    requires len < buf.Length
    requires forall k | 0 <= k < len :: buf[k] != '\0'
    modifies buf
    ensures n <= len && buf[..n] == Trimmed(old(buf[..len])) && buf[n] == '\0'
  {
    ghost var s0 := buf[..len];
    n := TrailingEnd(buf, len);
    ghost var tt := buf[..n];
    assert forall k | 0 <= k < n :: buf[k] != '\0';
    buf[n] := '\0';
    assert buf[..n] == tt;
    var p := LeadingEnd(buf, n);
    ghost var r := buf[p..n];
    assert r == Trimmed(s0);
    if p != 0 {
      n := ShiftToFront(buf, p, n);
    } else {
      assert buf[..n] == r;
    }
  }

  /** cmd_result_t, filled in through the out pointer. */
  class CmdResult {
    var kind: CmdType
    var freq: U32
    var duty: U8

    constructor (kind: CmdType, freq: U32, duty: U8)
      ensures this.kind == kind && this.freq == freq && this.duty == duty
    {
      this.kind := kind;
      this.freq := freq;
      this.duty := duty;
    }
  }

  /** The record after a successful parse: the type, and the field the command carries. */
  predicate Stored(out: CmdResult, cmd: Command, oldFreq: U32, oldDuty: U8)
    reads out
  {
    && out.kind == Kind(cmd)
    && out.freq == (if cmd.Freq? then cmd.hz else oldFreq)
    && out.duty == (if cmd.Duty? then cmd.percent else oldDuty)
  }

  /** The writes through out: the type always, freq or duty only for FREQ and DUTY. */
  method Store(out: CmdResult, cmd: Command)
    requires cmd.Freq? ==> cmd.hz <= CMD_FREQ_MAX
    requires cmd.Duty? ==> cmd.percent <= CMD_DUTY_MAX
    modifies out
    ensures Stored(out, cmd, old(out.freq), old(out.duty))
  {
    out.kind := Kind(cmd);
    if cmd.Freq? {
      out.freq := cmd.hz;
    } else if cmd.Duty? {
      out.duty := cmd.percent;
    }
  }

  /**
   * cmd_parse(line, out); None stands for a NULL line. On success the
   * type and, for FREQ and DUTY, the matching field are written; on any
   * other result the record is left alone.
   */
  method Parse(line: Option<string>, out: CmdResult?) returns (rc: int)
    modifies out
    ensures rc == 0 || rc == -1 || rc == -2
    ensures line.None? || out == null ==> rc == -1
    ensures line.Some? && out != null ==> rc == Code(ParseCommand(line.value))
    ensures rc != 0 && out != null ==> unchanged(out)
    ensures rc == 0 ==> out != null && line.Some? && Stored(out, ParseCommand(line.value).cmd, old(out.freq), old(out.duty))
  {
    if line.None? || out == null {
      return -1;
    }
    var buf, len := CopyLine(line.value);
    len := Trim(buf, len);
    var v := Classify(buf[..len]);
    assert v == ParseCommand(line.value);
    rc := Code(v);
    if v.Accepted? {
      Store(out, v.cmd);
    }
  }

  /** A command padded by leading spaces and trailing CR, LF and spaces is classified as itself. */
  lemma ParsePadded(lead: string, core: string, trail: string)
    requires forall i | 0 <= i < |lead| :: lead[i] == ' '
    requires forall i | 0 <= i < |trail| :: IsTrailingJunk(trail[i])
    requires core != [] && core[0] != ' ' && !IsTrailingJunk(core[|core| - 1])
    requires forall k | 0 <= k < |core| :: !IsStop(core[k])
    requires |lead| + |core| <= BUF_SIZE - 1
    ensures ParseCommand(lead + core + trail) == Classify(core)
  {
    var line := lead + core + trail;
    var p := lead + core;
    assert p <= line;
    ExaminedCovers(line, p);
    var e := Examined(line);
    var j := |e| - |p|;
    assert e == p + trail[..j];
    TrimmedPadded(lead, core, trail[..j]);
  }

  /** A command followed by trailing CR, LF and spaces only is classified as itself. */
  lemma ParseTrail(core: string, trail: string)
    requires forall i | 0 <= i < |trail| :: IsTrailingJunk(trail[i])
    requires core != [] && core[0] != ' ' && !IsTrailingJunk(core[|core| - 1])
    requires forall k | 0 <= k < |core| :: !IsStop(core[k])
    requires |core| <= BUF_SIZE - 1
    ensures ParseCommand(core + trail) == Classify(core)
  {
    var line := core + trail;
    assert core <= line;
    ExaminedCovers(line, core);
    var e := Examined(line);
    var j := |e| - |core|;
    assert e == core + trail[..j];
    TrimmedTrail(core, trail[..j]);
  }

  /** A line holding only spaces, CR and LF is no command; this is the only way to get CMD_NONE. */
  lemma BlankLine(line: string)
    ensures ParseCommand(line) == Accepted(NoCommand) <==>
            forall i | 0 <= i < |Examined(line)| :: IsTrailingJunk(Examined(line)[i])
  {
    TrimmedBlank(Examined(line));
  }

  /** The blank lines of the unit tests: "" and "  \r\n". */
  lemma BlankExamples()
    ensures ParseCommand("") == Accepted(NoCommand)
    ensures ParseCommand("  \r\n") == Accepted(NoCommand)
  {
    BlankLine("");
    var s := "  \r\n";
    ExaminedIs(s, "  ");
    BlankLine(s);
  }

  /** The exact keyword map. */
  lemma Keywords()
    ensures Classify("?") == Accepted(Status) && Classify("STATUS") == Accepted(Status)
    ensures Classify("ON") == Accepted(On) && Classify("START") == Accepted(On)
    ensures Classify("OFF") == Accepted(Off) && Classify("STOP") == Accepted(Off)
    ensures Classify("HELP") == Accepted(Help)
  {
  }

  /** "  ?  " is a status request. */
  lemma PaddedStatus()
    ensures ParseCommand("  ?  ") == Accepted(Status)
  {
    assert "  " + "?" + "  " == "  ?  ";
    ParsePadded("  ", "?", "  ");
    Keywords();
  }

  /** A decimal numeral converts to its value, saturated at ULONG_MAX, with nothing left over. */
  lemma ArgumentDec(n: nat)
    ensures Argument(Dec(n)) == Some(if n <= ULONG_MAX then n else ULONG_MAX)
  {
    assert Dec(n)[0..|Dec(n)|] == Dec(n);
    StrToULAt(Dec(n), 0, n);
  }

  /** A space and then anything but a space after the numeral: the end check rejects the argument. */
  lemma ArgumentRejects(arg: string, e: nat)
    requires StrToUL(arg).end == e && e + 1 < |arg|
    requires arg[e] == ' ' && arg[e + 1] != ' '
    ensures Argument(arg) == None
  {
    assert SpacesEnd(arg, e) == SpacesEnd(arg, e + 1) == e + 1;
  }

  /** strtoul stops at the space after a decimal numeral. */
  lemma DecThenSpace(n: nat, w: string)
    ensures StrToUL(Dec(n) + " " + w).end == |Dec(n)|
  {
    var d := Dec(n);
    var s := d + " " + w;
    assert s[0..|d|] == d && s[|d|] == ' ';
    StrToULAt(s, 0, n);
  }

  /** A numeral followed by a space and another word is rejected. */
  lemma ArgumentTrailingWord(n: nat, w: string)
    requires w != [] && w[0] != ' '
    ensures Argument(Dec(n) + " " + w) == None
  {
    DecThenSpace(n, w);
    var d := Dec(n);
    var arg := d + " " + w;
    assert arg[|d|] == ' ' && arg[|d| + 1] == w[0];
    ArgumentRejects(arg, |d|);
  }

  /** A numeral followed at once by anything but a space, a digit or x is rejected, as "1000Hz" is. */
  lemma ArgumentJunk(n: nat, rest: string)
    requires rest != [] && rest[0] != ' ' && !IsDecDigit(rest[0]) && rest[0] != 'x' && rest[0] != 'X'
    ensures Argument(Dec(n) + rest) == None
  {
    var d := Dec(n);
    var arg := d + rest;
    assert arg[0..|d|] == d && arg[|d|] == rest[0];
    StrToULAt(arg, 0, n);
  }

  /** A line starting with "FREQ " is judged by its argument alone. */
  lemma ClassifyFreq(arg: string)
    ensures Classify("FREQ " + arg) == FreqVerdict(Argument(arg))
  {
    var t := "FREQ " + arg;
    assert t[0] == 'F' && "FREQ " <= t && t[5..] == arg;
  }

  /** A line starting with "DUTY " is judged by its argument alone. */
  lemma ClassifyDuty(arg: string)
    ensures Classify("DUTY " + arg) == DutyVerdict(Argument(arg))
  {
    var t := "DUTY " + arg;
    assert t[0] == 'D' && "DUTY " <= t && t[5..] == arg;
  }

  /** "FREQ n" is accepted exactly when 1 <= n <= 40000000; any other n is out of range. */
  lemma FreqDecimal(n: nat)
    ensures Classify("FREQ " + Dec(n)) ==
            if CMD_FREQ_MIN <= n <= CMD_FREQ_MAX then Accepted(Freq(n)) else OutOfRange
  {
    ClassifyFreq(Dec(n));
    ArgumentDec(n);
  }

  /** "DUTY n" is accepted exactly when n <= 100; any larger n is out of range. */
  lemma DutyDecimal(n: nat)
    ensures Classify("DUTY " + Dec(n)) ==
            if n <= CMD_DUTY_MAX then Accepted(Duty(n)) else OutOfRange
  {
    ClassifyDuty(Dec(n));
    ArgumentDec(n);
  }

  /** Text after the number makes the line an unknown command, as in "FREQ 1000 2000". */
  lemma FreqTrailingWord(n: nat, w: string)
    requires w != [] && w[0] != ' '
    ensures Classify("FREQ " + (Dec(n) + " " + w)) == Unknown
  {
    ClassifyFreq(Dec(n) + " " + w);
    ArgumentTrailingWord(n, w);
  }

  /** A unit or other text glued to the number makes the line unknown, as in "FREQ 1000Hz". */
  lemma FreqJunk(n: nat, rest: string)
    requires rest != [] && rest[0] != ' ' && !IsDecDigit(rest[0]) && rest[0] != 'x' && rest[0] != 'X'
    ensures Classify("FREQ " + (Dec(n) + rest)) == Unknown
  {
    ClassifyFreq(Dec(n) + rest);
    ArgumentJunk(n, rest);
  }

  /** The same for DUTY. */
  lemma DutyTrailingWord(n: nat, w: string)
    requires w != [] && w[0] != ' '
    ensures Classify("DUTY " + (Dec(n) + " " + w)) == Unknown
  {
    ClassifyDuty(Dec(n) + " " + w);
    ArgumentTrailingWord(n, w);
  }

  /** The keywords without their argument, and unknown words, are unknown commands. */
  lemma BareWords()
    ensures Classify("FREQ") == Unknown && Classify("DUTY") == Unknown
    ensures Classify("UNKNOWN") == Unknown
  {
  }

  /** strtoul accepts a sign: "-v" wraps to 2^32 - v in a 32-bit unsigned long. */
  lemma ArgumentNegative(v: nat)
    requires 0 < v <= ULONG_MAX
    ensures Argument("-" + Dec(v)) == Some(ULONG_MAX + 1 - v)
  {
    StrToULNegative(v);
  }

  /** The parser range-checks the wrapped value. */
  lemma FreqNegative(v: nat)
    requires 0 < v <= ULONG_MAX
    ensures Classify("FREQ " + ("-" + Dec(v))) == FreqVerdict(Some(ULONG_MAX + 1 - v))
  {
    ClassifyFreq("-" + Dec(v));
    ArgumentNegative(v);
  }

  /** So "FREQ -4294967295" is accepted as 1 Hz. */
  lemma FreqMinusUlongMax()
    ensures Classify("FREQ " + ("-" + Dec(ULONG_MAX))) == Accepted(Freq(1))
  {
    FreqNegative(ULONG_MAX);
  }
}
