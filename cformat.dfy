// The pieces of the C library the handler relies on: the C-string view of a
// character buffer (what strcmp and sscanf read), printf's "%d" and sscanf's
// "%d" conversion.

module CFormat {

  datatype Option<T> = None | Some(value: T)

  /** The C-string view of a buffer: every character before the first NUL. */
  function CStr(s: string): (r: string)
    ensures r <= s
    ensures '\0' !in r
    ensures |r| < |s| ==> s[|r|] == '\0'
  {
    if s == [] || s[0] == '\0' then [] else [s[0]] + CStr(s[1..])
  }

  /** isspace in the C locale: space, \t, \n, \v, \f and \r. */
  predicate IsSpace(c: char)
  {
    c == ' ' || c == '\t' || c == '\n' || c == 11 as char || c == 12 as char || c == '\r'
  }

  predicate IsDigit(c: char)
  {
    '0' <= c <= '9'
  }

  predicate AllDigits(s: string)
  {
    forall i :: 0 <= i < |s| ==> IsDigit(s[i])
  }

  function DigitValue(c: char): (d: nat)
    requires IsDigit(c)
    ensures d < 10
  {
    (c as int) - ('0' as int)
  }

  function DigitChar(d: nat): (c: char)
    requires d < 10
    ensures IsDigit(c) && DigitValue(c) == d
  {
    (('0' as int) + d) as char
  }

  // ---------------------------------------------------------------------
  // printf("%d")

  /** The decimal digits of n, most significant first, without leading zeros. */
  function NatDigits(n: nat): string
    decreases n
  {
    if n < 10 then [DigitChar(n)] else NatDigits(n / 10) + [DigitChar(n % 10)]
  }

  /** printf's "%d": an optional minus sign followed by the digits of |n|. */
  function FormatInt(n: int): (s: string)
    ensures s != [] && (s[0] == '-' <==> n < 0)
    ensures var d := if n < 0 then s[1..] else s;
      d != [] && AllDigits(d) && (|d| > 1 ==> d[0] != '0')
  {
    var m: nat := if n < 0 then -n else n;
    NatDigitsWellFormed(m);
    if n < 0 then
      assert ("-" + NatDigits(m))[1..] == NatDigits(m);
      "-" + NatDigits(m)
    else NatDigits(m)
  }

  // ---------------------------------------------------------------------
  // sscanf("%d")

  /** Drops the leading white space that "%d" skips. */
  function SkipSpace(s: string): string
  {
    if s != [] && IsSpace(s[0]) then SkipSpace(s[1..]) else s
  }

  /** The length of the run of decimal digits at the start of s. */
  function DigitRun(s: string): nat
  {
    if s != [] && IsDigit(s[0]) then 1 + DigitRun(s[1..]) else 0
  }

  /** The value of a string of decimal digits, read most significant first. */
  function DecimalValue(s: string): nat
    requires AllDigits(s)
  {
    if s == [] then 0 else DecimalValue(s[..|s| - 1]) * 10 + DigitValue(s[|s| - 1])
  }

  /**
   * sscanf's "%d" conversion: skip white space, accept one optional sign,
   * then the longest run of decimal digits; text after the digits is left
   * alone. None when no digit follows (the conversion fails).
   */
  function ScanInt(s: string): (r: Option<int>)
    ensures r.Some? ==> s != [] && var t := SkipSpace(s); t != [] && (r.value < 0 ==> t[0] == '-')
  {
    var t := SkipSpace(s);
    var negative := t != [] && t[0] == '-';
    var u := if t != [] && (t[0] == '-' || t[0] == '+') then t[1..] else t;
    var k := DigitRun(u);
    DigitRunIsMaximal(u);
    var magnitude: int := if k == 0 then 0 else DecimalValue(u[..k]);
    if k == 0 then None else Some(if negative then -magnitude else magnitude)
  }

  // ---------------------------------------------------------------------
  // Properties

  /** A buffer without NUL is its own C string. */
  lemma {:induction false} CStrWithoutNul(s: string)
    requires '\0' !in s
    ensures CStr(s) == s
  {
    if s != [] {
      NulNotInTail(s);
      CStrWithoutNul(s[1..]);
      assert [s[0]] + s[1..] == s;
    }
  }

  /** strcmp and sscanf read through a NUL-free prefix into what follows it. */
  lemma {:induction false} CStrAfterPrefix(x: string, y: string)
    requires '\0' !in x
    ensures CStr(x + y) == x + CStr(y)
  {
    if x == [] {
      assert x + y == y;
    } else {
      var tail := x[1..];
      NulNotInTail(x);
      calc {
        CStr(x + y);
      == { assert x + y == [x[0]] + (tail + y); }
        CStr([x[0]] + (tail + y));
      == { CStrCons(x[0], tail + y); }
        [x[0]] + CStr(tail + y);
      == { CStrAfterPrefix(tail, y); }
        [x[0]] + (tail + CStr(y));
      == { assert x == [x[0]] + tail; }
        x + CStr(y);
      }
    }
  }

  /** A NUL-free sequence has a NUL-free tail. */
  lemma NulNotInTail(s: string)
    requires s != [] && '\0' !in s
    ensures '\0' !in s[1..]
  {
    forall i | 0 <= i < |s[1..]| ensures s[1..][i] != '\0' {
      assert s[1..][i] == s[i + 1];
    }
  }

  /** A character before the first NUL is part of the C string. */
  lemma CStrCons(c: char, s: string)
    requires c != '\0'
    ensures CStr([c] + s) == [c] + CStr(s)
  {
    assert ([c] + s)[1..] == s;
  }

  /** Leading white space does not change what "%d" reads. */
  lemma {:induction false} ScanIntSkipsBlanks(ws: string, s: string)
    requires forall i :: 0 <= i < |ws| ==> IsSpace(ws[i])
    ensures ScanInt(ws + s) == ScanInt(s)
  {
    SkipSpaceOverBlanks(ws, s);
  }

  /** White space in front of s is skipped entirely. */
  lemma {:induction false} SkipSpaceOverBlanks(ws: string, s: string)
    requires forall i :: 0 <= i < |ws| ==> IsSpace(ws[i])
    ensures SkipSpace(ws + s) == SkipSpace(s)
  {
    if ws == [] {
      assert ws + s == s;
    } else {
      assert (ws + s)[0] == ws[0];
      assert (ws + s)[1..] == ws[1..] + s;
      SkipSpaceOverBlanks(ws[1..], s);
    }
  }

  /** printf's digits are decimal digits, at least one, and without a leading zero. */
  lemma {:induction false} NatDigitsWellFormed(n: nat)
    ensures |NatDigits(n)| > 0 && AllDigits(NatDigits(n))
    ensures |NatDigits(n)| > 1 ==> NatDigits(n)[0] != '0'
    decreases n
  {
    if n >= 10 {
      NatDigitsWellFormed(n / 10);
    }
  }

  /** SkipSpace removes exactly the leading run of white space. */
  lemma {:induction false} SkipSpaceRemovesLeadingSpace(s: string)
    ensures |SkipSpace(s)| <= |s| && SkipSpace(s) == s[|s| - |SkipSpace(s)|..]
    ensures forall i :: 0 <= i < |s| - |SkipSpace(s)| ==> IsSpace(s[i])
    ensures SkipSpace(s) == [] || !IsSpace(SkipSpace(s)[0])
  {
    if s != [] && IsSpace(s[0]) {
      var t := s[1..];
      SkipSpaceRemovesLeadingSpace(t);
      var r := SkipSpace(t);
      assert SkipSpace(s) == r;
      assert t[|t| - |r|..] == s[|s| - |r|..];
      forall i | 0 <= i < |s| - |r|
        ensures IsSpace(s[i])
      {
        if i > 0 {
          assert s[i] == t[i - 1];
        }
      }
    }
  }

  /** DigitRun measures the longest prefix of digits. */
  lemma {:induction false} DigitRunIsMaximal(s: string)
    ensures DigitRun(s) <= |s| && AllDigits(s[..DigitRun(s)])
    ensures DigitRun(s) < |s| ==> !IsDigit(s[DigitRun(s)])
  {
    if s != [] && IsDigit(s[0]) {
      DigitRunIsMaximal(s[1..]);
      assert s[..DigitRun(s)] == [s[0]] + s[1..][..DigitRun(s[1..])];
    }
  }

  /** Reading printf's digits of n as a decimal gives n back. */
  lemma {:induction false} DecimalValueOfNatDigits(n: nat)
    ensures AllDigits(NatDigits(n)) && DecimalValue(NatDigits(n)) == n
    decreases n
  {
    var s := NatDigits(n);
    NatDigitsWellFormed(n);
    if n >= 10 {
      NatDigitsWellFormed(n / 10);
      DecimalValueOfNatDigits(n / 10);
      assert s[..|s| - 1] == NatDigits(n / 10);
    }
  }

  /** The digit run of digits followed by a non-digit is exactly the digits. */
  lemma {:induction false} DigitRunStopsAtNonDigit(s: string, tail: string)
    requires AllDigits(s)
    requires tail == [] || !IsDigit(tail[0])
    ensures DigitRun(s + tail) == |s|
    decreases |s|
  {
    if s != [] {
      assert (s + tail)[1..] == s[1..] + tail;
      DigitRunStopsAtNonDigit(s[1..], tail);
    } else {
      assert s + tail == tail;
    }
  }

  /** "%d" on text that starts with a digit: the value of the leading digit run. */
  lemma ScanUnsigned(u: string, d: string)
    requires AllDigits(d) && d != [] && d <= u && DigitRun(u) == |d|
    ensures ScanInt(u) == Some(DecimalValue(d))
  {
    assert !IsSpace(u[0]);
    assert SkipSpace(u) == u;
    assert u[..|d|] == d;
  }

  /** "%d" on a minus sign followed by a digit: the negated value of the digit run. */
  lemma ScanNegative(u: string, d: string)
    requires AllDigits(d) && d != [] && d <= u && DigitRun(u) == |d|
    ensures ScanInt(['-'] + u) == Some(0 - DecimalValue(d) as int)
  {
    var s := ['-'] + u;
    assert !IsSpace(s[0]);
    assert SkipSpace(s) == s;
    assert s[1..] == u;
    assert u[..|d|] == d;
  }

  /** "%d" on a plus sign followed by a digit: the value of the digit run. */
  lemma ScanPositive(u: string, d: string)
    requires AllDigits(d) && d != [] && d <= u && DigitRun(u) == |d|
    ensures ScanInt(['+'] + u) == Some(DecimalValue(d) as int)
  {
    var s := ['+'] + u;
    assert !IsSpace(s[0]);
    assert SkipSpace(s) == s;
    assert s[1..] == u;
    assert u[..|d|] == d;
  }

  /**
   * "%d" on white space, an optional sign and a run of digits that nothing
   * continues: the signed value of the digits, whatever their leading zeros.
   */
  lemma ScanSignedDecimal(ws: string, sign: string, d: string, tail: string)
    requires forall i :: 0 <= i < |ws| ==> IsSpace(ws[i])
    requires sign == "" || sign == "+" || sign == "-"
    requires d != [] && AllDigits(d)
    requires tail == [] || !IsDigit(tail[0])
    ensures ScanInt(ws + sign + d + tail)
         == Some(if sign == "-" then 0 - DecimalValue(d) as int else DecimalValue(d) as int)
  {
    assert ws + sign + d + tail == ws + (sign + (d + tail));
    ScanIntSkipsBlanks(ws, sign + (d + tail));
    DigitRunStopsAtNonDigit(d, tail);
    if sign == "" {
      assert sign + (d + tail) == d + tail;
      ScanUnsigned(d + tail, d);
    } else if sign == "+" {
      assert sign + (d + tail) == ['+'] + (d + tail);
      ScanPositive(d + tail, d);
    } else {
      assert sign + (d + tail) == ['-'] + (d + tail);
      ScanNegative(d + tail, d);
    }
  }

  /**
   * The text "%d" accepts with value v: white space, an optional sign, a
   * non-empty run of digits and a tail that does not continue the run.
   */
  predicate SignedDecimal(s: string, v: int, ws: string, sign: string, d: string, tail: string)
  {
    s == ws + sign + d + tail
    && (forall i :: 0 <= i < |ws| ==> IsSpace(ws[i]))
    && (sign == "" || sign == "+" || sign == "-")
    && d != [] && AllDigits(d)
    && (tail == [] || !IsDigit(tail[0]))
    && v == (if sign == "-" then 0 - DecimalValue(d) as int else DecimalValue(d) as int)
  }

  /** Cuts the sign if any, the digit run (possibly empty) and what follows it off t. */
  lemma CutNumber(t: string) returns (sign: string, d: string, tail: string)
    ensures t == sign + d + tail
    ensures sign == "" || sign == "+" || sign == "-"
    ensures sign == "" ==> t == [] || (t[0] != '+' && t[0] != '-')
    ensures AllDigits(d)
    ensures tail == [] || !IsDigit(tail[0])
  {
    sign := if t != [] && (t[0] == '-' || t[0] == '+') then [t[0]] else [];
    var u := t[|sign|..];
    var k := DigitRun(u);
    DigitRunIsMaximal(u);
    d := u[..k];
    tail := u[k..];
    if tail != [] {
      assert tail[0] == u[k];
    }
    SplitAt(t, |sign|);
    SplitAt(u, k);
    assert t == sign + (d + tail);
  }

  /**
   * Cuts s where "%d" reads it: the leading white space, the sign if any,
   * the digit run (possibly empty) and what follows it.
   */
  lemma CutForScan(s: string) returns (ws: string, sign: string, d: string, tail: string)
    ensures s == ws + sign + d + tail
    ensures forall i :: 0 <= i < |ws| ==> IsSpace(ws[i])
    ensures sign == "" || sign == "+" || sign == "-"
    ensures sign + d + tail == [] || !IsSpace((sign + d + tail)[0])
    ensures sign == "" ==> d + tail == [] || ((d + tail)[0] != '+' && (d + tail)[0] != '-')
    ensures AllDigits(d)
    ensures tail == [] || !IsDigit(tail[0])
  {
    var t := SkipSpace(s);
    SkipSpaceRemovesLeadingSpace(s);
    ws := s[..|s| - |t|];
    SplitAt(s, |s| - |t|);
    sign, d, tail := CutNumber(t);
    JoinFour(s, ws, t, sign, d, tail);
  }

  /** A sequence is its prefix followed by its suffix. */
  lemma SplitAt(x: string, k: nat)
    requires k <= |x|
    ensures x == x[..k] + x[k..]
  {
  }

  /** Reassociates the parts CutForScan cuts s into. */
  lemma JoinFour(s: string, ws: string, t: string, sign: string, d: string, tail: string)
    requires s == ws + t && t == sign + d + tail
    ensures s == ws + sign + d + tail && sign + d + tail == t
  {
  }

  /** Whatever "%d" accepts has that shape: the converse of ScanSignedDecimal. */
  lemma ScanIntShape(s: string)
    requires ScanInt(s).Some?
    ensures exists ws, sign, d, tail :: SignedDecimal(s, ScanInt(s).value, ws, sign, d, tail)
  {
    var ws, sign, d, tail := CutForScan(s);
    if d == [] {
      assert sign + d + tail == sign + tail;
      assert s == ws + (sign + tail);
      ScanIntNeedsLeadingDigit(ws, sign + tail);
      assert false;
    }
    ScanSignedDecimal(ws, sign, d, tail);
    assert SignedDecimal(s, ScanInt(s).value, ws, sign, d, tail);
  }

  /** "%d" succeeds with v exactly on text of that shape. */
  lemma ScanIntIff(s: string, v: int)
    ensures ScanInt(s) == Some(v) <==> exists ws, sign, d, tail :: SignedDecimal(s, v, ws, sign, d, tail)
  {
    if ScanInt(s) == Some(v) {
      ScanIntShape(s);
    }
    if exists ws, sign, d, tail :: SignedDecimal(s, v, ws, sign, d, tail) {
      var ws, sign, d, tail :| SignedDecimal(s, v, ws, sign, d, tail);
      ScanSignedDecimal(ws, sign, d, tail);
    }
  }

  /** After the white space and an optional sign "%d" needs a digit, or it fails. */
  lemma ScanIntNeedsLeadingDigit(ws: string, s: string)
    requires forall i :: 0 <= i < |ws| ==> IsSpace(ws[i])
    requires s == [] || !IsSpace(s[0])
    requires var u := if s != [] && (s[0] == '-' || s[0] == '+') then s[1..] else s;
      u == [] || !IsDigit(u[0])
    ensures ScanInt(ws + s) == None
  {
    ScanIntSkipsBlanks(ws, s);
    assert SkipSpace(s) == s;
  }

  /** Reading back what printf("%d") wrote: sscanf("%d") recovers n and stops where the number ends. */
  lemma ScanFormatInt(n: int, tail: string)
    requires tail == [] || !IsDigit(tail[0])
    ensures ScanInt(FormatInt(n) + tail) == Some(n)
  {
    var m: nat := if n < 0 then -n else n;
    var d := NatDigits(m);
    NatDigitsWellFormed(m);
    DigitRunStopsAtNonDigit(d, tail);
    DecimalValueOfNatDigits(m);
    if n < 0 {
      assert FormatInt(n) + tail == ['-'] + (d + tail);
      ScanNegative(d + tail, d);
    } else {
      ScanUnsigned(d + tail, d);
    }
  }

  /** "%d" reads back a printed number after any white space. */
  lemma ScanBlanksThenFormatInt(ws: string, n: int, tail: string)
    requires forall i :: 0 <= i < |ws| ==> IsSpace(ws[i])
    requires tail == [] || !IsDigit(tail[0])
    ensures ScanInt(ws + FormatInt(n) + tail) == Some(n)
  {
    assert ws + FormatInt(n) + tail == ws + (FormatInt(n) + tail);
    ScanIntSkipsBlanks(ws, FormatInt(n) + tail);
    ScanFormatInt(n, tail);
  }

  /** Without any decimal digit the "%d" conversion fails. */
  lemma {:induction false} ScanIntNeedsDigit(s: string)
    requires forall i :: 0 <= i < |s| ==> !IsDigit(s[i])
    ensures ScanInt(s) == None
  {
    var t := SkipSpace(s);
    SkipSpaceRemovesLeadingSpace(s);
    var u := if t != [] && (t[0] == '-' || t[0] == '+') then t[1..] else t;
    assert u == [] || !IsDigit(u[0]) by {
      if u != [] {
        assert u[0] == s[|s| - |u|];
      }
    }
  }

  /** A printed number never contains the characters that end a line or a C string. */
  lemma FormatIntIsPrintable(n: int)
    ensures forall i :: 0 <= i < |FormatInt(n)| ==> FormatInt(n)[i] !in "\r\n\0"
  {
    var s := FormatInt(n);
    NatDigitsWellFormed(if n < 0 then -n else n);
    forall i | 0 <= i < |s| ensures s[i] !in "\r\n\0" {
      if n < 0 {
        assert s[i] == '-' || IsDigit(s[i]);
      } else {
        assert IsDigit(s[i]);
      }
    }
  }
}
