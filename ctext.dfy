/**
 * The C text conventions both firmwares rely on: NUL-terminated strings,
 * isspace() in the C locale, the shared line trim (trailing CR, LF and
 * spaces, then leading spaces) and strtoul() with base 0.
 */
module CText {
  import opened Numerals

  /** isspace() in the C locale: space, \t, \n, \v, \f and \r. */
  predicate IsCSpace(c: char) {
    c == ' ' || '\t' <= c <= '\r'
  }

  /** The C string a character buffer holds: everything before the first NUL. */
  function CStr(s: string): (r: string)
    ensures r <= s && '\0' !in r
    ensures |r| < |s| ==> s[|r|] == '\0'
  {
    if s == [] || s[0] == '\0' then [] else [s[0]] + CStr(s[1..])
  }

  /** Characters the firmwares strip from the end of a command line. */
  predicate IsTrailingJunk(c: char) {
    c == '\r' || c == '\n' || c == ' '
  }

  /** The line without its trailing run of CR, LF and spaces. */
  function TrimTrailing(s: string): (r: string)
    ensures r <= s
    ensures r == [] || !IsTrailingJunk(r[|r| - 1])
    ensures forall i | |r| <= i < |s| :: IsTrailingJunk(s[i])
  {
    if s == [] || !IsTrailingJunk(s[|s| - 1]) then s else TrimTrailing(s[..|s| - 1])
  }

  /** The line without its leading run of spaces (only ' ', not tabs). */
  function SkipSpaces(s: string): (r: string)
    ensures |r| <= |s| && r == s[|s| - |r|..]
    ensures r == [] || r[0] != ' '
    ensures forall i | 0 <= i < |s| - |r| :: s[i] == ' '
  {
    if s != [] && s[0] == ' ' then SkipSpaces(s[1..]) else s
  }

  /** The command text both firmwares compare against their keywords. */
  function Trimmed(s: string): (r: string)
    ensures |r| <= |s|
    ensures r == [] || (r[0] != ' ' && !IsTrailingJunk(r[|r| - 1]))
  {
    SkipSpaces(TrimTrailing(s))
  }

  /** Trailing CR, LF and spaces are all removed, whatever precedes them. */
  lemma {:induction false} TrimTrailingJunk(x: string, trail: string)
    requires forall i | 0 <= i < |trail| :: IsTrailingJunk(trail[i])
    ensures TrimTrailing(x + trail) == TrimTrailing(x)
    decreases |trail|
  {
    if trail == [] {
      assert x + trail == x;
    } else {
      var u := trail[..|trail| - 1];
      assert (x + trail)[..|x + trail| - 1] == x + u;
      TrimTrailingJunk(x, u);
    }
  }

  /** A run of leading spaces is removed up to the first other character. */
  lemma {:induction false} SkipSpacesLead(lead: string, core: string)
    requires forall i | 0 <= i < |lead| :: lead[i] == ' '
    requires core == [] || core[0] != ' '
    ensures SkipSpaces(lead + core) == core
    decreases |lead|
  {
    if lead == [] {
      assert lead + core == core;
    } else {
      assert (lead + core)[1..] == lead[1..] + core;
      SkipSpacesLead(lead[1..], core);
    }
  }

  /** Trimming a command surrounded by leading spaces and trailing CR, LF and spaces gives the command. */
  lemma TrimmedPadded(lead: string, core: string, trail: string)
    requires forall i | 0 <= i < |lead| :: lead[i] == ' '
    requires forall i | 0 <= i < |trail| :: IsTrailingJunk(trail[i])
    requires core != [] && core[0] != ' ' && !IsTrailingJunk(core[|core| - 1])
    ensures Trimmed(lead + core + trail) == core
  {
    TrimTrailingJunk(lead + core, trail);
    assert (lead + core)[|lead + core| - 1] == core[|core| - 1];
    SkipSpacesLead(lead, core);
  }

  /** A command that neither starts with a space nor ends in CR, LF or a space is its own trim. */
  lemma TrimmedCore(core: string)
    requires core != [] && core[0] != ' ' && !IsTrailingJunk(core[|core| - 1])
    ensures Trimmed(core) == core
  {
    assert TrimTrailing(core) == core;
  }

  /** Trimming such a command followed by CR, LF and spaces gives the command. */
  lemma TrimmedTrail(core: string, trail: string)
    requires forall i | 0 <= i < |trail| :: IsTrailingJunk(trail[i])
    requires core != [] && core[0] != ' ' && !IsTrailingJunk(core[|core| - 1])
    ensures Trimmed(core + trail) == core
  {
    TrimTrailingJunk(core, trail);
    TrimmedCore(core);
  }

  /** A line trims to nothing exactly when it holds only CR, LF and spaces. */
  lemma TrimmedBlank(s: string)
    ensures Trimmed(s) == [] <==> forall i | 0 <= i < |s| :: IsTrailingJunk(s[i])
  {
    if forall i | 0 <= i < |s| :: IsTrailingJunk(s[i]) {
      TrimTrailingJunk([], s);
      assert [] + s == s;
    }
  }

  /** Index of the first character at or after i that is not white space. */
  function SkipCSpace(s: string, i: nat): (j: nat)
    requires i <= |s|
    ensures i <= j <= |s|
    ensures forall k | i <= k < j :: IsCSpace(s[k])
    ensures j == |s| || !IsCSpace(s[j])
    decreases |s| - i
  {
    if i < |s| && IsCSpace(s[i]) then SkipCSpace(s, i + 1) else i
  }

  /** What strtoul returns and how far its end pointer gets (an offset into the argument). */
  datatype Conversion = Conversion(value: nat, end: nat)

  /** Where the digits of strtoul's subject sequence start, in which base, and whether a '-' came first. */
  datatype Subject = Subject(neg: bool, base: nat, start: nat)

  /**
   * Base 0: after white space and an optional sign, "0x"/"0X" followed by a
   * hex digit selects base 16, a leading '0' base 8, anything else base 10.
   */
  function ScanSubject(s: string): (sub: Subject)
    ensures sub.start <= |s|
    ensures sub.base == 8 || sub.base == 10 || sub.base == 16
    ensures sub.base == 16 ==> sub.start >= 2 && s[sub.start - 2] == '0'
    ensures sub.base == 8 ==> sub.start < |s| && s[sub.start] == '0'
  {
    var i := SkipCSpace(s, 0);
    var neg := i < |s| && s[i] == '-';
    var j := if i < |s| && (s[i] == '+' || s[i] == '-') then i + 1 else i;
    if j + 2 < |s| && s[j] == '0' && (s[j + 1] == 'x' || s[j + 1] == 'X') && IsDigitIn(s[j + 2], 16) then
      Subject(neg, 16, j + 2)
    else if j < |s| && s[j] == '0' then Subject(neg, 8, j)
    else Subject(neg, 10, j)
  }

  /** The unsigned long a magnitude becomes: saturated, then negated modulo ULONG_MAX + 1 after a '-'. */
  function Wrap(v: nat, neg: bool): (r: nat)
    ensures r <= ULONG_MAX
    ensures !neg ==> r == if v <= ULONG_MAX then v else ULONG_MAX
  {
    if v > ULONG_MAX then ULONG_MAX else if neg && v > 0 then ULONG_MAX + 1 - v else v
  }

  /**
   * strtoul(s, &end, 0). With no digits the result is 0 and the end pointer
   * is the argument itself; otherwise the end pointer is just past the last
   * digit of the subject sequence.
   */
  function StrToUL(s: string): (r: Conversion)
    ensures r.end <= |s| && r.value <= ULONG_MAX
    ensures r.end == 0 ==> r.value == 0
    ensures r.end > 0 ==> IsDigitIn(s[r.end - 1], 16)
  {
    var sub := ScanSubject(s);
    var e := DigitsEnd(s, sub.start, sub.base);
    DigitsEndRun(s, sub.start, sub.base);
    if e == sub.start then Conversion(0, 0)
    else Conversion(Wrap(ValueIn(s[sub.start..e], sub.base), sub.neg), e)
  }

  lemma SkipCSpaceIs(s: string, i: nat, j: nat)
    requires i <= j <= |s|
    requires forall k | i <= k < j :: IsCSpace(s[k])
    requires j == |s| || !IsCSpace(s[j])
    ensures SkipCSpace(s, i) == j
  {
  }

  /**
   * A "0" at index j after white space is read in base 8, which gives the
   * same value; an 'x' after it without a hex digit following is not part
   * of the numeral.
   */
  lemma StrToULZero(s: string, j: nat)
    requires j < |s| && s[j] == '0'
    requires forall k | 0 <= k < j :: IsCSpace(s[k])
    requires j + 1 == |s| || !IsDigitIn(s[j + 1], 8)
    requires j + 2 < |s| && (s[j + 1] == 'x' || s[j + 1] == 'X') ==> !IsDigitIn(s[j + 2], 16)
    ensures StrToUL(s) == Conversion(0, j + 1)
  {
    SkipCSpaceIs(s, 0, j);
    assert ScanSubject(s) == Subject(false, 8, j);
    DigitsEndIs(s, j, 8, j + 1);
    assert s[j..j + 1] == "0";
    assert ValueIn("0", 8) == 0;
  }

  /**
   * A decimal numeral at index j of s, after nothing but white space and
   * before anything but a digit or an x, converts to its value (saturated
   * at ULONG_MAX), and the end pointer stops right after it. "0" is read in
   * base 8, which gives the same value.
   */
  lemma StrToULAt(s: string, j: nat, n: nat)
    requires j + |Dec(n)| <= |s| && s[j..j + |Dec(n)|] == Dec(n)
    requires forall k | 0 <= k < j :: IsCSpace(s[k])
    requires j + |Dec(n)| == |s| ||
             (!IsDecDigit(s[j + |Dec(n)|]) && s[j + |Dec(n)|] != 'x' && s[j + |Dec(n)|] != 'X')
    ensures StrToUL(s) == Conversion(if n <= ULONG_MAX then n else ULONG_MAX, j + |Dec(n)|)
  {
    if n == 0 {
      assert s[j] == Dec(0)[0] == '0';
      StrToULZero(s, j);
    } else {
      StrToULNonZero(s, j, n);
    }
  }

  /** The case of a numeral without a leading zero, read in base 10. */
  lemma StrToULNonZero(s: string, j: nat, n: nat)
    requires n > 0
    requires j + |Dec(n)| <= |s| && s[j..j + |Dec(n)|] == Dec(n)
    requires forall k | 0 <= k < j :: IsCSpace(s[k])
    requires j + |Dec(n)| == |s| || !IsDecDigit(s[j + |Dec(n)|])
    ensures StrToUL(s) == Conversion(if n <= ULONG_MAX then n else ULONG_MAX, j + |Dec(n)|)
  {
    var d := Dec(n);
    var e := j + |d|;
    assert s[j] == d[0] && IsDigitIn(d[0], 10);
    SkipCSpaceIs(s, 0, j);
    assert ScanSubject(s) == Subject(false, 10, j);
    forall k | j <= k < e
      ensures IsDigitIn(s[k], 10)
    {
      assert s[k] == d[k - j];
    }
    DigitsEndIs(s, j, 10, e);
  }

  /** The same with the white space and the rest named. */
  lemma StrToULDecimal(ws: string, n: nat, rest: string)
    requires forall i | 0 <= i < |ws| :: IsCSpace(ws[i])
    requires rest == [] || (!IsDecDigit(rest[0]) && rest[0] != 'x' && rest[0] != 'X')
    ensures StrToUL(ws + Dec(n) + rest) == Conversion(if n <= ULONG_MAX then n else ULONG_MAX, |ws| + |Dec(n)|)
  {
    var s := ws + Dec(n) + rest;
    assert s[|ws|..|ws| + |Dec(n)|] == Dec(n);
    assert |ws| + |Dec(n)| < |s| ==> s[|ws| + |Dec(n)|] == rest[0];
    StrToULAt(s, |ws|, n);
  }

  /** A decimal numeral followed by anything but a digit or x reads as its saturated value. */
  lemma DecValue(n: nat, rest: string)
    requires rest == [] || (!IsDecDigit(rest[0]) && rest[0] != 'x' && rest[0] != 'X')
    ensures StrToUL(Dec(n) + rest).value == if n <= ULONG_MAX then n else ULONG_MAX
  {
    var s := Dec(n) + rest;
    assert s[0..|Dec(n)|] == Dec(n);
    assert |Dec(n)| < |s| ==> s[|Dec(n)|] == rest[0];
    StrToULAt(s, 0, n);
  }

  /** A '-' before a decimal numeral wraps the value modulo ULONG_MAX + 1. */
  lemma StrToULNegative(v: nat)
    requires 0 < v <= ULONG_MAX
    ensures StrToUL("-" + Dec(v)) == Conversion(ULONG_MAX + 1 - v, 1 + |Dec(v)|)
  {
    var d := Dec(v);
    var s := "-" + d;
    assert s[1..] == d;
    SkipCSpaceIs(s, 0, 0);
    assert ScanSubject(s) == Subject(true, 10, 1);
    DigitsEndIs(s, 1, 10, |s|);
    assert s[1..|s|] == d;
  }

  /** Without a digit after the white space and the sign nothing is converted. */
  lemma StrToULNoDigits(ws: string, sign: string, rest: string)
    requires forall i | 0 <= i < |ws| :: IsCSpace(ws[i])
    requires sign == "" || sign == "+" || sign == "-"
    requires rest == [] || !IsDecDigit(rest[0])
    requires sign == "" && rest != [] ==> !IsCSpace(rest[0]) && rest[0] != '+' && rest[0] != '-'
    ensures StrToUL(ws + sign + rest) == Conversion(0, 0)
  {
    var s := ws + sign + rest;
    var j := |ws|;
    if sign == "" {
      assert s == ws + rest;
      SkipCSpaceIs(s, 0, j);
    } else {
      assert s[j] == sign[0];
      SkipCSpaceIs(s, 0, j);
    }
    DigitsEndIs(s, |ws| + |sign|, 10, |ws| + |sign|);
  }

  /** "0x" followed by a hex digit selects base 16. */
  lemma StrToULHex()
    ensures StrToUL("0x1F") == Conversion(31, 4)
  {
    var hex := "0x1F";
    SkipCSpaceIs(hex, 0, 0);
    assert ScanSubject(hex) == Subject(false, 16, 2);
    DigitsEndIs(hex, 2, 16, 4);
    assert hex[2..4] == "1F" && "1F"[..1] == "1" && "1"[..0] == "";
    assert ValueIn("1F", 16) == 31;
  }

  /** A leading zero selects base 8. */
  lemma StrToULOctal()
    ensures StrToUL("010") == Conversion(8, 3)
  {
    var oct := "010";
    SkipCSpaceIs(oct, 0, 0);
    assert ScanSubject(oct) == Subject(false, 8, 0);
    DigitsEndIs(oct, 0, 8, 3);
    assert oct[0..3] == oct && oct[..2] == "01" && "01"[..1] == "0" && "0"[..0] == "";
    assert ValueIn("01", 8) == 1;
  }

  /** "0x" without a hex digit after it is just the octal numeral "0"; in base 8 a '9' ends the numeral. */
  lemma StrToULBareZero()
    ensures StrToUL("0x") == Conversion(0, 1)
    ensures StrToUL("09") == Conversion(0, 1)
  {
    StrToULZero("0x", 0);
    StrToULZero("09", 0);
  }

  /** A '+' sign is accepted and changes nothing. */
  lemma StrToULPlus()
    ensures StrToUL("+7") == Conversion(7, 2)
  {
    var s := "+7";
    SkipCSpaceIs(s, 0, 0);
    assert ScanSubject(s) == Subject(false, 10, 1);
    DigitsEndIs(s, 1, 10, 2);
    assert s[1..2] == "7" && "7"[..0] == "";
  }

  /** strlen from index from, where a NUL is known to sit at or before end. */
  method StrLen(a: array<char>, from: nat, ghost end: nat) returns (n: nat)
    requires from <= end < a.Length && a[end] == '\0'
    ensures from + n <= end && a[from + n] == '\0'
    ensures forall k | from <= k < from + n :: a[k] != '\0'
  {
    n := 0;
    while a[from + n] != '\0'
      invariant from + n <= end
      invariant forall k | from <= k < from + n :: a[k] != '\0'
      decreases end - (from + n)
    {
      n := n + 1;
    }
  }

  /** memmove(a, a + from, count) for a move towards the start of the buffer. */
  method MoveDown(a: array<char>, from: nat, count: nat)
    requires from + count <= a.Length
    modifies a
    ensures a[..count] == old(a[from..from + count])
    ensures a[count..] == old(a[count..])
  {
    var i := 0;
    while i < count
      invariant i <= count
      invariant forall k | 0 <= k < i :: a[k] == old(a[from + k])
      invariant forall k | i <= k < a.Length :: a[k] == old(a[k])
    {
      a[i] := a[from + i];
      i := i + 1;
    }
  }

  /** while (*p == ' ') p++ over a C string that ends at n: the index of the first non-space. */
  method LeadingEnd(buf: array<char>, n: nat) returns (p: nat)
    requires n < buf.Length && buf[n] == '\0'
    ensures p <= n && buf[p..n] == SkipSpaces(buf[..n])
  {
    ghost var t := buf[..n];
    p := 0;
    while buf[p] == ' '
      invariant p <= n
      invariant SkipSpaces(t[p..]) == SkipSpaces(t)
      decreases n - p
    {
      assert t[p..][1..] == t[p + 1..];
      p := p + 1;
    }
    assert t[p..] == buf[p..n];
  }

  /** The C string in a buffer ends at the first NUL. */
  lemma CStrIs(s: string, n: nat)
    requires n <= |s| && forall k | 0 <= k < n :: s[k] != '\0'
    requires n == |s| || s[n] == '\0'
    ensures CStr(s) == s[..n]
  {
    var r := CStr(s);
    assert |r| == n;
  }
}
