/**
 * The host side of the line protocol (gui/protocol.py): range-checked
 * command builders, the status-line parser and the reply classifiers.
 * Everything here is a pure function of its arguments.
 */
module Protocol {
  import opened Wrappers
  import opened Numerals

  const FREQ_MIN: int := 1
  const FREQ_MAX: int := 40_000_000
  const DUTY_MIN: int := 0
  const DUTY_MAX: int := 100

  /** The signature a compliant device puts in its identity reply. */
  const DEVICE_ID_PREFIX: string := "UART-GEN"

  /** The exception the builders raise for an out-of-range argument. */
  datatype Error = ValueError

  datatype Result<T> = Success(value: T) | Failure(error: Error)

  /** w occurs in s at index i. */
  predicate StartsAt(s: string, i: nat, w: string) {
    i + |w| <= |s| && AgreeFrom(s, i, w, 0)
  }

  /** s and w agree from position k of w on, w placed at index i of s; compared one character at a time. */
  predicate AgreeFrom(s: string, i: nat, w: string, k: nat)
    requires i + |w| <= |s|
    decreases |w| - k
  {
    k >= |w| || (s[i + k] == w[k] && AgreeFrom(s, i, w, k + 1))
  }

  lemma {:induction false} AgreeFromIndex(s: string, i: nat, w: string, k: nat)
    requires i + |w| <= |s|
    ensures AgreeFrom(s, i, w, k) <==> forall j | k <= j < |w| :: s[i + j] == w[j]
    decreases |w| - k
  {
    if k < |w| {
      AgreeFromIndex(s, i, w, k + 1);
    }
  }

  /** StartsAt compares s[i..i + |w|] with w position by position. */
  lemma StartsAtIndex(s: string, i: nat, w: string)
    ensures StartsAt(s, i, w) <==> i + |w| <= |s| && forall k | 0 <= k < |w| :: s[i + k] == w[k]
  {
    if i + |w| <= |s| {
      AgreeFromIndex(s, i, w, 0);
    }
  }

  // ---------------------------------------------------------------- builders

  /** "FREQ <hz>" for 1 <= hz <= 40000000; ValueError otherwise. */
  function BuildFreqCmd(hz: int): (r: Result<string>)
    ensures r.Success? <==> FREQ_MIN <= hz <= FREQ_MAX
    ensures r.Success? ==> StartsAt(r.value, 0, "FREQ ") && |r.value| > 5
    ensures r.Success? ==> AllDigitsIn(r.value[5..], 10) && ValueIn(r.value[5..], 10) == hz
    ensures r.Success? ==> r.value[5] != '0'
  {
    if !(FREQ_MIN <= hz <= FREQ_MAX) then Failure(ValueError) else Success("FREQ " + Dec(hz))
  }

  /** "DUTY <percent>" for 0 <= percent <= 100; ValueError otherwise. */
  function BuildDutyCmd(percent: int): (r: Result<string>)
    ensures r.Success? <==> DUTY_MIN <= percent <= DUTY_MAX
    ensures r.Success? ==> StartsAt(r.value, 0, "DUTY ") && |r.value| > 5
    ensures r.Success? ==> AllDigitsIn(r.value[5..], 10) && ValueIn(r.value[5..], 10) == percent
    ensures r.Success? && r.value[5] == '0' ==> |r.value| == 6
  {
    if !(DUTY_MIN <= percent <= DUTY_MAX) then Failure(ValueError) else Success("DUTY " + Dec(percent))
  }

  function BuildOnCmd(): string { "ON" }
  function BuildOffCmd(): string { "OFF" }
  function BuildStatusCmd(): string { "?" }
  function BuildIdCmd(): string { "VER?" }

  // ------------------------------------------------------- device signature

  /** Python's `pat in text`: try each start from i on, left to right. */
  predicate ContainsFrom(text: string, pat: string, i: nat)
    decreases |text| - i
  {
    i + |pat| <= |text| && (StartsAt(text, i, pat) || ContainsFrom(text, pat, i + 1))
  }

  /** The scan finds pat exactly when pat occurs somewhere at or after i. */
  lemma {:induction false} ContainsFromIff(text: string, pat: string, i: nat)
    ensures ContainsFrom(text, pat, i) <==> exists j: nat :: i <= j && StartsAt(text, j, pat)
    decreases |text| - i
  {
    if i + |pat| <= |text| {
      ContainsFromIff(text, pat, i + 1);
      if exists j: nat :: i <= j && StartsAt(text, j, pat) {
        var j: nat :| i <= j && StartsAt(text, j, pat);
        if j > i {
          assert i + 1 <= j;
        }
      }
    }
  }

  /** True iff "UART-GEN" occurs anywhere in the received text. */
  predicate IsOurGeneratorResponse(receivedText: string)
    ensures IsOurGeneratorResponse(receivedText) <==> exists i: nat :: StartsAt(receivedText, i, DEVICE_ID_PREFIX)
  {
    ContainsFromIff(receivedText, DEVICE_ID_PREFIX, 0);
    ContainsFrom(receivedText, DEVICE_ID_PREFIX, 0)
  }

  // ----------------------------------------------------------- white space

  /** Python's str.isspace() on one character: its 29 white-space code points. */
  predicate IsPySpace(c: char) {
    var n := c as int;
    || 9 <= n <= 13 || 28 <= n <= 32 || n == 0x85 || n == 0xA0 || n == 0x1680
    || 0x2000 <= n <= 0x200A || n == 0x2028 || n == 0x2029 || n == 0x202F || n == 0x205F || n == 0x3000
  }

  predicate AllPySpace(s: string) {
    forall i | 0 <= i < |s| :: IsPySpace(s[i])
  }

  /** s.rstrip() */
  function StripEnd(s: string): (r: string)
    ensures r <= s
    ensures r == [] || !IsPySpace(r[|r| - 1])
    ensures forall i | |r| <= i < |s| :: IsPySpace(s[i])
  {
    if s == [] || !IsPySpace(s[|s| - 1]) then s else StripEnd(s[..|s| - 1])
  }

  /** s.lstrip() */
  function StripStart(s: string): (r: string)
    ensures |r| <= |s| && r == s[|s| - |r|..]
    ensures r == [] || !IsPySpace(r[0])
    ensures forall i | 0 <= i < |s| - |r| :: IsPySpace(s[i])
  {
    if s != [] && IsPySpace(s[0]) then StripStart(s[1..]) else s
  }

  /** s.strip() */
  function Strip(s: string): (r: string)
    ensures r == [] || (!IsPySpace(r[0]) && !IsPySpace(r[|r| - 1]))
  {
    StripStart(StripEnd(s))
  }

  /** Stripping removes exactly the white space around a core that neither starts nor ends with white space. */
  lemma StripPadded(lead: string, core: string, trail: string)
    requires AllPySpace(lead) && AllPySpace(trail)
    requires core != [] && !IsPySpace(core[0]) && !IsPySpace(core[|core| - 1])
    ensures Strip(lead + core + trail) == core
  {
    var x := lead + core;
    var s := x + trail;
    var e := StripEnd(s);
    assert s[|x| - 1] == core[|core| - 1];
    assert |e| == |x|;
    assert e == x;
    var r := StripStart(x);
    assert x[|lead|] == core[0];
    assert |r| == |core|;
    assert r == x[|lead|..] == core;
  }

  /** Stripping a core followed only by white space gives the core back. */
  lemma StripTrail(core: string, trail: string)
    requires AllPySpace(trail)
    requires core != [] && !IsPySpace(core[0]) && !IsPySpace(core[|core| - 1])
    ensures Strip(core + trail) == core
  {
    var s := core + trail;
    var e := StripEnd(s);
    assert s[|core| - 1] == core[|core| - 1];
    assert |e| == |core|;
    assert e == core;
    var r := StripStart(core);
    assert |r| == |core|;
  }

  // ----------------------------------------------------------- status line

  /** The record parse_status_line returns: {'freq': ..., 'duty': ..., 'on': ...}. */
  datatype Status = Status(freq: nat, duty: nat, on: bool)

  function Word(on: bool): string {
    if on then "ON" else "OFF"
  }

  /** What `DUTY=(\d+)\s+(ON|OFF)` matched: the digits, the white space after them and the word. */
  datatype Tail = Tail(dutyDigits: string, gap: string, on: bool)

  /** What STATUS_RE matched: the frequency digits, the white space after them and the rest. */
  datatype StatusText = StatusText(freqDigits: string, gap: string, tail: Tail)

  function TailText(t: Tail): string {
    "DUTY=" + t.dutyDigits + t.gap + Word(t.on)
  }

  function Text(m: StatusText): string {
    "FREQ=" + m.freqDigits + m.gap + TailText(m.tail)
  }

  /** The pieces obey the pattern: non-empty digit runs and non-empty white-space gaps. */
  ghost predicate TailWellFormed(t: Tail) {
    && |t.dutyDigits| > 0 && AllDigitsIn(t.dutyDigits, 10)
    && |t.gap| > 0 && AllPySpace(t.gap)
  }

  ghost predicate WellFormed(m: StatusText) {
    && |m.freqDigits| > 0 && AllDigitsIn(m.freqDigits, 10)
    && |m.gap| > 0 && AllPySpace(m.gap)
    && TailWellFormed(m.tail)
  }

  /** The record Python builds from the groups: int() of each digit run, and group 3 == "ON". */
  function Meaning(m: StatusText): Status {
    Status(ValueIn(m.freqDigits, 10), ValueIn(m.tail.dutyDigits, 10), m.tail.on)
  }

  /** Index just past the run of white space that starts at i. */
  function SpaceEnd(s: string, i: nat): (j: nat)
    requires i <= |s|
    ensures i <= j <= |s|
    decreases |s| - i
  {
    if i < |s| && IsPySpace(s[i]) then SpaceEnd(s, i + 1) else i
  }

  /** `DUTY=(\d+)\s+(ON|OFF)` tried at index c. */
  function MatchTail(s: string, c: nat): Option<Tail>
    requires c <= |s|
  {
    if !StartsAt(s, c, "DUTY=") then None
    else
      var e := c + 5;
      var f := DigitsEnd(s, e, 10);
      var g := SpaceEnd(s, f);
      if f == e || g == f then None
      else if StartsAt(s, g, "ON") then Some(Tail(s[e..f], s[f..g], true))
      else if StartsAt(s, g, "OFF") then Some(Tail(s[e..f], s[f..g], false))
      else None
  }

  /**
   * STATUS_RE tried at index i. The digit and white-space runs are taken
   * whole: a digit run must be followed by white space and a white-space
   * run by a letter, so backtracking could not find another match here.
   */
  function MatchAt(s: string, i: nat): Option<StatusText>
    requires i <= |s|
  {
    if !StartsAt(s, i, "FREQ=") then None
    else
      var a := i + 5;
      var b := DigitsEnd(s, a, 10);
      var c := SpaceEnd(s, b);
      if b == a || c == b then None
      else
        match MatchTail(s, c)
        case None => None
        case Some(t) => Some(StatusText(s[a..b], s[b..c], t))
  }

  /** No match of STATUS_RE starts at an index in [i, j). */
  ghost predicate NoMatchBefore(s: string, i: nat, j: nat)
    requires j <= |s|
  {
    forall k | i <= k < j :: MatchAt(s, k).None?
  }

  /** re.search from index i: try each start in turn and keep the first match. */
  function SearchFrom(s: string, i: nat): Option<StatusText>
    requires i <= |s|
    decreases |s| - i
  {
    var m := MatchAt(s, i);
    if m.Some? then m
    else if i == |s| then None
    else SearchFrom(s, i + 1)
  }

  /** parse_status_line: strip, search for STATUS_RE anywhere in the line, convert the groups. */
  function ParseStatusLine(line: string): Option<Status> {
    match SearchFrom(Strip(line), 0)
    case None => None
    case Some(m) => Some(Meaning(m))
  }

  // ------------------------------------------- facts about words in a text

  lemma Assoc(a: string, b: string, c: string)
    ensures a + (b + c) == a + b + c
  {
  }

  /** A concatenation occurs at i exactly when its two halves occur one after the other. */
  lemma StartsAtAppend(s: string, i: nat, a: string, b: string)
    ensures StartsAt(s, i, a + b) <==> StartsAt(s, i, a) && StartsAt(s, i + |a|, b)
  {
    StartsAtIndex(s, i, a + b);
    StartsAtIndex(s, i, a);
    StartsAtIndex(s, i + |a|, b);
    if StartsAt(s, i, a) && StartsAt(s, i + |a|, b) {
      forall k | 0 <= k < |a + b| ensures s[i + k] == (a + b)[k] {
        if k >= |a| {
          assert s[i + |a| + (k - |a|)] == b[k - |a|];
        }
      }
    }
    if StartsAt(s, i, a + b) {
      forall k | 0 <= k < |a| ensures s[i + k] == a[k] {
        assert s[i + k] == (a + b)[k];
      }
      forall k | 0 <= k < |b| ensures s[i + |a| + k] == b[k] {
        assert s[i + (|a| + k)] == (a + b)[|a| + k];
      }
    }
  }

  lemma StartsAtChar(s: string, i: nat, w: string, k: nat)
    requires StartsAt(s, i, w) && k < |w|
    ensures s[i + k] == w[k]
  {
    StartsAtIndex(s, i, w);
  }

  /** A slice occurs where it was cut from. */
  lemma StartsAtSlice(s: string, i: nat, j: nat)
    requires i <= j <= |s|
    ensures StartsAt(s, i, s[i..j])
  {
    StartsAtIndex(s, i, s[i..j]);
  }

  /** The word at i is the slice of the same length there. */
  lemma StartsAtIsSlice(s: string, i: nat, w: string)
    requires StartsAt(s, i, w)
    ensures s[i..i + |w|] == w
  {
    StartsAtIndex(s, i, w);
  }

  /** Two words that differ at position k cannot both occur at i. */
  lemma StartsAtDiffer(s: string, i: nat, a: string, b: string, k: nat)
    requires StartsAt(s, i, a) && k < |a| && k < |b| && a[k] != b[k]
    ensures !StartsAt(s, i, b)
  {
    StartsAtChar(s, i, a, k);
    StartsAtIndex(s, i, b);
  }

  /** A white-space character is not a decimal digit. */
  lemma SpaceNotDigit(c: char)
    requires IsPySpace(c)
    ensures !IsDigitIn(c, 10)
  {
  }

  lemma SpaceEndIs(s: string, i: nat, j: nat)
    requires i <= j <= |s|
    requires forall k | i <= k < j :: IsPySpace(s[k])
    requires j == |s| || !IsPySpace(s[j])
    ensures SpaceEnd(s, i) == j
    decreases j - i
  {
    if i < j {
      SpaceEndIs(s, i + 1, j);
    }
  }

  /** SpaceEnd stops after white space only. */
  lemma SpaceEndRun(s: string, i: nat)
    requires i <= |s|
    ensures forall k | i <= k < SpaceEnd(s, i) :: IsPySpace(s[k])
    decreases |s| - i
  {
    if i < |s| && IsPySpace(s[i]) {
      SpaceEndRun(s, i + 1);
    }
  }

  /** A text of four pieces occurs at i exactly when the pieces occur one after the other. */
  lemma StartsAtFour(s: string, i: nat, a: string, b: string, c: string, d: string)
    ensures StartsAt(s, i, a + b + c + d) <==>
      StartsAt(s, i, a) && StartsAt(s, i + |a|, b) && StartsAt(s, i + |a| + |b|, c) && StartsAt(s, i + |a| + |b| + |c|, d)
  {
    StartsAtAppend(s, i, a + b + c, d);
    StartsAtAppend(s, i, a + b, c);
    StartsAtAppend(s, i, a, b);
  }

  /** A non-empty digit string followed by white space is exactly the digit run DigitsEnd finds. */
  lemma DigitRunAt(s: string, i: nat, d: string, g: string)
    requires StartsAt(s, i, d) && |d| > 0 && AllDigitsIn(d, 10)
    requires StartsAt(s, i + |d|, g) && |g| > 0 && IsPySpace(g[0])
    ensures DigitsEnd(s, i, 10) == i + |d|
  {
    forall k | i <= k < i + |d| ensures IsDigitIn(s[k], 10) {
      StartsAtChar(s, i, d, k - i);
    }
    StartsAtChar(s, i + |d|, g, 0);
    SpaceNotDigit(s[i + |d|]);
    DigitsEndIs(s, i, 10, i + |d|);
  }

  /** A white-space string followed by a capital letter is exactly the white-space run SpaceEnd finds. */
  lemma SpaceRunAt(s: string, i: nat, g: string, w: string)
    requires StartsAt(s, i, g) && AllPySpace(g)
    requires StartsAt(s, i + |g|, w) && |w| > 0 && 'A' <= w[0] <= 'Z'
    ensures SpaceEnd(s, i) == i + |g|
  {
    forall k | i <= k < i + |g| ensures IsPySpace(s[k]) {
      StartsAtChar(s, i, g, k - i);
    }
    StartsAtChar(s, i + |g|, w, 0);
    SpaceEndIs(s, i, i + |g|);
  }

  // ------------------------------------- STATUS_RE against its reference text

  /** MatchTail, once its runs are known to end where the pieces of t end, returns t. */
  lemma MatchTailFound(s: string, c: nat, t: Tail)
    requires |t.dutyDigits| > 0 && |t.gap| > 0
    requires StartsAt(s, c, "DUTY=") && StartsAt(s, c + 5, t.dutyDigits)
    requires StartsAt(s, c + 5 + |t.dutyDigits|, t.gap) && StartsAt(s, c + 5 + |t.dutyDigits| + |t.gap|, Word(t.on))
    requires DigitsEnd(s, c + 5, 10) == c + 5 + |t.dutyDigits|
    requires SpaceEnd(s, c + 5 + |t.dutyDigits|) == c + 5 + |t.dutyDigits| + |t.gap|
    ensures MatchTail(s, c) == Some(t)
  {
    StartsAtIsSlice(s, c + 5, t.dutyDigits);
    StartsAtIsSlice(s, c + 5 + |t.dutyDigits|, t.gap);
    if !t.on {
      StartsAtDiffer(s, c + 5 + |t.dutyDigits| + |t.gap|, Word(t.on), "ON", 1);
    }
  }

  lemma MatchTailComplete(s: string, c: nat, t: Tail)
    requires TailWellFormed(t) && StartsAt(s, c, TailText(t))
    ensures MatchTail(s, c) == Some(t)
  {
    var e := c + 5;
    var f := e + |t.dutyDigits|;
    StartsAtFour(s, c, "DUTY=", t.dutyDigits, t.gap, Word(t.on));
    DigitRunAt(s, e, t.dutyDigits, t.gap);
    SpaceRunAt(s, f, t.gap, Word(t.on));
    MatchTailFound(s, c, t);
  }

  /** MatchAt, once its runs are known to end where the pieces of m end, returns m. */
  lemma MatchAtFound(s: string, i: nat, m: StatusText)
    requires |m.freqDigits| > 0 && |m.gap| > 0
    requires StartsAt(s, i, "FREQ=") && StartsAt(s, i + 5, m.freqDigits) && StartsAt(s, i + 5 + |m.freqDigits|, m.gap)
    requires i + 5 + |m.freqDigits| + |m.gap| <= |s| && MatchTail(s, i + 5 + |m.freqDigits| + |m.gap|) == Some(m.tail)
    requires DigitsEnd(s, i + 5, 10) == i + 5 + |m.freqDigits|
    requires SpaceEnd(s, i + 5 + |m.freqDigits|) == i + 5 + |m.freqDigits| + |m.gap|
    ensures MatchAt(s, i) == Some(m)
  {
    StartsAtIsSlice(s, i + 5, m.freqDigits);
    StartsAtIsSlice(s, i + 5 + |m.freqDigits|, m.gap);
  }

  /** Wherever the text spells STATUS_RE, MatchAt finds exactly those groups. */
  lemma MatchAtComplete(s: string, i: nat, m: StatusText)
    requires WellFormed(m) && StartsAt(s, i, Text(m))
    ensures MatchAt(s, i) == Some(m)
  {
    var a := i + 5;
    var b := a + |m.freqDigits|;
    var c := b + |m.gap|;
    var tail := TailText(m.tail);
    StartsAtFour(s, i, "FREQ=", m.freqDigits, m.gap, tail);
    assert tail[0] == 'D';
    DigitRunAt(s, a, m.freqDigits, m.gap);
    SpaceRunAt(s, b, m.gap, tail);
    MatchTailComplete(s, c, m.tail);
    MatchAtFound(s, i, m);
  }

  lemma MatchTailSound(s: string, c: nat)
    requires c <= |s| && MatchTail(s, c).Some?
    ensures TailWellFormed(MatchTail(s, c).value) && StartsAt(s, c, TailText(MatchTail(s, c).value))
  {
    var t := MatchTail(s, c).value;
    var e := c + 5;
    var f := DigitsEnd(s, e, 10);
    DigitsEndRun(s, e, 10);
    SpaceEndRun(s, f);
    var g := SpaceEnd(s, f);
    assert t.dutyDigits == s[e..f] && t.gap == s[f..g] && StartsAt(s, g, Word(t.on));
    StartsAtSlice(s, e, f);
    StartsAtSlice(s, f, g);
    StartsAtFour(s, c, "DUTY=", t.dutyDigits, t.gap, Word(t.on));
  }

  /** Whatever MatchAt finds is spelled out in the text at that index. */
  lemma MatchAtSound(s: string, i: nat)
    requires i <= |s| && MatchAt(s, i).Some?
    ensures WellFormed(MatchAt(s, i).value) && StartsAt(s, i, Text(MatchAt(s, i).value))
  {
    var m := MatchAt(s, i).value;
    var a := i + 5;
    var b := DigitsEnd(s, a, 10);
    DigitsEndRun(s, a, 10);
    SpaceEndRun(s, b);
    var c := SpaceEnd(s, b);
    MatchTailSound(s, c);
    assert m.freqDigits == s[a..b] && m.gap == s[b..c] && MatchTail(s, c) == Some(m.tail);
    StartsAtSlice(s, a, b);
    StartsAtSlice(s, b, c);
    StartsAtFour(s, i, "FREQ=", m.freqDigits, m.gap, TailText(m.tail));
  }

  /** MatchAt returns m exactly when the text at i spells m. */
  lemma MatchAtIff(s: string, i: nat, m: StatusText)
    requires i <= |s|
    ensures MatchAt(s, i) == Some(m) <==> WellFormed(m) && StartsAt(s, i, Text(m))
  {
    if MatchAt(s, i) == Some(m) {
      MatchAtSound(s, i);
    }
    if WellFormed(m) && StartsAt(s, i, Text(m)) {
      MatchAtComplete(s, i, m);
    }
  }

  /** What the search returns is the match at some start j, and no match starts before j. */
  lemma {:induction false} SearchFromLeftmost(s: string, i: nat) returns (j: nat)
    requires i <= |s| && SearchFrom(s, i).Some?
    ensures i <= j <= |s| && SearchFrom(s, i) == MatchAt(s, j) && NoMatchBefore(s, i, j)
    decreases |s| - i
  {
    if MatchAt(s, i).Some? {
      j := i;
    } else {
      assert i < |s| && SearchFrom(s, i) == SearchFrom(s, i + 1);
      j := SearchFromLeftmost(s, i + 1);
      NoMatchExtend(s, i, j);
    }
  }

  lemma NoMatchExtend(s: string, i: nat, j: nat)
    requires i < j <= |s| && MatchAt(s, i).None? && NoMatchBefore(s, i + 1, j)
    ensures NoMatchBefore(s, i, j)
  {
  }

  /** The search succeeds whenever a match starts at or after i. */
  lemma {:induction false} SearchFromFinds(s: string, i: nat, k: nat)
    requires i <= k <= |s| && MatchAt(s, k).Some?
    ensures SearchFrom(s, i).Some?
    decreases k - i
  {
    if MatchAt(s, i).None? {
      SearchFromFinds(s, i + 1, k);
    }
  }

  /** Before a start where no match begins, the text spells STATUS_RE nowhere. */
  lemma NoTextBefore(s: string, j: nat)
    requires j <= |s| && NoMatchBefore(s, 0, j)
    ensures forall k: nat, m: StatusText | k < j && WellFormed(m) :: !StartsAt(s, k, Text(m))
  {
    forall k: nat, m: StatusText | k < j && WellFormed(m) ensures !StartsAt(s, k, Text(m)) {
      if StartsAt(s, k, Text(m)) {
        MatchAtComplete(s, k, m);
      }
    }
  }

  /**
   * parse_status_line returns a record only where the stripped line spells
   * STATUS_RE, with the fields of the leftmost such place.
   */
  lemma ParseStatusLineSound(line: string) returns (i: nat, m: StatusText)
    requires ParseStatusLine(line).Some?
    ensures WellFormed(m) && StartsAt(Strip(line), i, Text(m))
    ensures ParseStatusLine(line) == Some(Meaning(m))
    ensures forall k: nat, m': StatusText | k < i && WellFormed(m') :: !StartsAt(Strip(line), k, Text(m'))
  {
    var s := Strip(line);
    i := SearchFromLeftmost(s, 0);
    m := MatchAt(s, i).value;
    MatchAtSound(s, i);
    NoTextBefore(s, i);
  }

  /** Wherever the stripped line spells STATUS_RE, parse_status_line returns a record. */
  lemma ParseStatusLineComplete(line: string, i: nat, m: StatusText)
    requires WellFormed(m) && StartsAt(Strip(line), i, Text(m))
    ensures ParseStatusLine(line).Some?
  {
    MatchAtComplete(Strip(line), i, m);
    SearchFromFinds(Strip(line), 0, i);
  }

  /** Every spelling of STATUS_RE contains "DUTY=". */
  lemma TextHasDuty(s: string, i: nat, m: StatusText)
    requires StartsAt(s, i, Text(m))
    ensures StartsAt(s, i + 5 + |m.freqDigits| + |m.gap|, "DUTY=")
  {
    var t := m.tail;
    StartsAtFour(s, i, "FREQ=", m.freqDigits, m.gap, TailText(t));
    StartsAtFour(s, i + 5 + |m.freqDigits| + |m.gap|, "DUTY=", t.dutyDigits, t.gap, Word(t.on));
  }

  /** A line without "DUTY=" is never a status line ("FREQ=100", "OK FREQ 1000", ""). */
  lemma NoDutyNoStatus(line: string)
    requires forall k: nat :: !StartsAt(Strip(line), k, "DUTY=")
    ensures ParseStatusLine(line).None?
  {
    if ParseStatusLine(line).Some? {
      var i, m := ParseStatusLineSound(line);
      TextHasDuty(Strip(line), i, m);
    }
  }

  /**
   * The status report both firmwares print for "?" (before the line end):
   * "FREQ=%lu DUTY=%u %s" with "ON" or "OFF".
   */
  function StatusReport(freq: nat, duty: nat, on: bool): string {
    "FREQ=" + Dec(freq) + " DUTY=" + Dec(duty) + " " + Word(on)
  }

  /** A status report spells STATUS_RE with single-space gaps. */
  lemma StatusReportText(freq: nat, duty: nat, on: bool)
    ensures Text(StatusText(Dec(freq), " ", Tail(Dec(duty), " ", on))) == StatusReport(freq, duty, on)
  {
    var p, d, w := "FREQ=" + Dec(freq), Dec(duty), Word(on);
    Assoc(p + " ", "DUTY=" + d + " ", w);
    Assoc(p + " ", "DUTY=" + d, " ");
    Assoc(p + " ", "DUTY=", d);
    Assoc(p, " ", "DUTY=");
    assert " " + "DUTY=" == " DUTY=";
  }

  /** MatchAt reads the report's own fields back from its start. */
  lemma StatusReportMatches(freq: nat, duty: nat, on: bool)
    ensures MatchAt(StatusReport(freq, duty, on), 0) == Some(StatusText(Dec(freq), " ", Tail(Dec(duty), " ", on)))
  {
    var core := StatusReport(freq, duty, on);
    var m := StatusText(Dec(freq), " ", Tail(Dec(duty), " ", on));
    StatusReportText(freq, duty, on);
    StartsAtIndex(core, 0, core);
    MatchAtComplete(core, 0, m);
  }

  /** The report begins with 'F' and ends with 'N' or 'F', so stripping leaves it whole. */
  lemma StatusReportEnds(freq: nat, duty: nat, on: bool)
    ensures var r := StatusReport(freq, duty, on); r != [] && !IsPySpace(r[0]) && !IsPySpace(r[|r| - 1])
  {
    var r := StatusReport(freq, duty, on);
    var w := Word(on);
    assert r[0] == 'F';
    assert r[|r| - 1] == w[|w| - 1];
  }

  /** The status report, with any white space around it, parses back to its fields. */
  lemma StatusLineRoundTrip(lead: string, freq: nat, duty: nat, on: bool, trail: string)
    requires AllPySpace(lead) && AllPySpace(trail)
    ensures ParseStatusLine(lead + StatusReport(freq, duty, on) + trail) == Some(Status(freq, duty, on))
  {
    StatusReportEnds(freq, duty, on);
    StripPadded(lead, StatusReport(freq, duty, on), trail);
    StatusReportMatches(freq, duty, on);
  }

  // ---------------------------------------------------- reply classifiers

  predicate IsOkResponse(line: string) {
    StartsAt(Strip(line), 0, "OK ")
  }

  predicate IsErrResponse(line: string) {
    StartsAt(Strip(line), 0, "ERR ")
  }

  /** A line is never both an acknowledgement and an error. */
  lemma OkErrExclusive(line: string)
    ensures !(IsOkResponse(line) && IsErrResponse(line))
  {
    if IsErrResponse(line) {
      StartsAtDiffer(Strip(line), 0, "ERR ", "OK ", 0);
    }
  }
}
