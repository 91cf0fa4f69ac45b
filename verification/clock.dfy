/**
 * The client's countdown formatter, `fmtTime` in static/main.js: a number of
 * seconds shown as zero-padded minutes, a colon, and two-digit seconds.
 */
module Clock {
  import opened Wrappers

  const TWO_31: int := 0x8000_0000
  const TWO_32: int := 0x1_0000_0000

  /** JavaScript's `x | 0` on an integral number: wrap into the signed 32-bit range. */
  function ToInt32(x: int): (r: int)
    ensures -TWO_31 <= r < TWO_31
    ensures (x - r) % TWO_32 == 0
    ensures -TWO_31 <= x < TWO_31 ==> r == x
  {
    (x + TWO_31) % TWO_32 - TWO_31
  }

  /** `Math.max(0, sec | 0)`: the second count that is actually displayed. */
  function Displayed(sec: int): (t: nat)
    ensures t < TWO_31
    ensures 0 <= sec < TWO_31 ==> t == sec
    ensures -TWO_31 <= sec <= 0 ==> t == 0
  {
    var w := ToInt32(sec);
    if w > 0 then w else 0
  }

  predicate IsDigit(c: char)
  {
    '0' <= c <= '9'
  }

  predicate AllDigits(s: string)
  {
    forall i :: 0 <= i < |s| ==> IsDigit(s[i])
  }

  function DigitChar(d: nat): (c: char)
    requires d < 10
    ensures IsDigit(c) && DigitValue(c) == d
  {
    ('0' as int + d) as char
  }

  function DigitValue(c: char): (d: nat)
    requires IsDigit(c)
    ensures d < 10
  {
    c as int - '0' as int
  }

  /** `String(n)` for a non-negative integer: its decimal digits, with no leading zero. */
  function Decimal(n: nat): (r: string)
    ensures |r| >= 1 && AllDigits(r)
    ensures |r| > 1 ==> r[0] != '0'
    ensures |r| == 1 <==> n < 10
    ensures n < 100 ==> |r| <= 2
  {
    if n < 10 then [DigitChar(n)] else Decimal(n / 10) + [DigitChar(n % 10)]
  }

  /** The number a string of decimal digits denotes (leading zeros allowed). */
  function Value(s: string): (v: nat)
    requires AllDigits(s)
  {
    if s == [] then 0 else Value(s[..|s| - 1]) * 10 + DigitValue(s[|s| - 1])
  }

  /** Reading `String(n)` back gives `n`. */
  lemma {:induction false} ValueOfDecimal(n: nat)
    ensures Value(Decimal(n)) == n
  {
    if n >= 10 {
      var d := Decimal(n);
      assert d[..|d| - 1] == Decimal(n / 10);
      ValueOfDecimal(n / 10);
    }
  }

  /** A leading zero does not change the value. */
  lemma {:induction false} ValueLeadingZero(s: string)
    requires AllDigits(s)
    ensures AllDigits(['0'] + s) && Value(['0'] + s) == Value(s)
  {
    if s != [] {
      var z := ['0'] + s;
      assert z[..|z| - 1] == ['0'] + s[..|s| - 1];
      ValueLeadingZero(s[..|s| - 1]);
    }
  }

  /**
   * `s.padStart(2, "0")`: `s` itself when it has two or more characters, otherwise
   * `s` behind enough zeros to make two.
   */
  function PadStart2(s: string): (r: string)
    ensures |r| == if |s| >= 2 then |s| else 2
    ensures |s| >= 2 ==> r == s
  {
    if |s| >= 2 then s else if |s| == 1 then ['0'] + s else "00"
  }

  /** Padding a digit string keeps it a digit string of the same value. */
  lemma {:induction false} PadStart2Value(s: string)
    requires AllDigits(s)
    ensures AllDigits(PadStart2(s)) && Value(PadStart2(s)) == Value(s)
  {
    if |s| == 1 {
      ValueLeadingZero(s);
    } else if |s| == 0 {
      ValueLeadingZero(s);
      ValueLeadingZero(['0'] + s);
      assert PadStart2(s) == ['0'] + (['0'] + s);
    }
  }

  /** Padded minutes `q`, a colon, padded seconds `s`. */
  function Fields(q: nat, s: nat): string
  {
    PadStart2(Decimal(q)) + ":" + PadStart2(Decimal(s))
  }

  /** The text shown for a displayed count `t`. */
  function ClockText(t: nat): string
  {
    Fields(t / 60, t % 60)
  }

  /** `fmtTime(sec)`: the clock text of the clamped count. */
  function FmtTime(sec: int): (r: string)
    ensures |r| >= 5 && r[|r| - 3] == ':'
  {
    ClockTextShape(Displayed(sec));
    ClockText(Displayed(sec))
  }

  /** Joining two fields with a colon: each field can be cut back out. */
  lemma JoinFields(mm: string, ss: string)
    requires |mm| >= 2 && |ss| == 2
    ensures var r := mm + ":" + ss;
      |r| >= 5 && r[|r| - 3] == ':' && r[..|r| - 3] == mm && r[|r| - 2..] == ss
  {
    var r := mm + ":" + ss;
    assert r[..|r| - 3] == mm;
    assert r[|r| - 2..] == ss;
  }

  /** A padded decimal field: at least two digits, exactly two below 100, denoting `n`. */
  lemma PaddedDecimal(n: nat)
    ensures |PadStart2(Decimal(n))| >= 2 && AllDigits(PadStart2(Decimal(n)))
    ensures Value(PadStart2(Decimal(n))) == n
    ensures n < 100 ==> |PadStart2(Decimal(n))| == 2
  {
    PadStart2Value(Decimal(n));
    ValueOfDecimal(n);
  }

  /** The two fields of the text, and what they denote. */
  lemma FieldsShape(q: nat, s: nat)
    requires s < 100
    ensures var r := Fields(q, s);
      && |r| >= 5 && r[|r| - 3] == ':'
      && r[..|r| - 3] == PadStart2(Decimal(q))
      && r[|r| - 2..] == PadStart2(Decimal(s))
      && |r[|r| - 2..]| == 2
      && AllDigits(r[..|r| - 3]) && AllDigits(r[|r| - 2..])
      && Value(r[..|r| - 3]) == q
      && Value(r[|r| - 2..]) == s
  {
    PaddedDecimal(q);
    PaddedDecimal(s);
    JoinFields(PadStart2(Decimal(q)), PadStart2(Decimal(s)));
  }

  /** The two fields of the clock text denote the minutes and the seconds of `t`. */
  lemma {:induction false} ClockTextShape(t: nat)
    ensures var r := ClockText(t);
      && |r| >= 5 && r[|r| - 3] == ':'
      && r[..|r| - 3] == PadStart2(Decimal(t / 60))
      && r[|r| - 2..] == PadStart2(Decimal(t % 60))
      && |r[|r| - 2..]| == 2
      && AllDigits(r[..|r| - 3]) && AllDigits(r[|r| - 2..])
      && Value(r[..|r| - 3]) == t / 60
      && Value(r[|r| - 2..]) == t % 60
  {
    FieldsShape(t / 60, t % 60);
  }

  /** The minutes field of a formatted time: everything before the colon. */
  function MinutesField(r: string): string
    requires |r| >= 3
  {
    r[..|r| - 3]
  }

  /** The seconds field of a formatted time: the two characters after the colon. */
  function SecondsField(r: string): string
    requires |r| >= 3
  {
    r[|r| - 2..]
  }

  /** The seconds field is exactly two digits, 00 to 59, and denotes the displayed count modulo 60. */
  lemma {:induction false} FmtTimeSeconds(sec: int)
    ensures |SecondsField(FmtTime(sec))| == 2 && AllDigits(SecondsField(FmtTime(sec)))
    ensures Value(SecondsField(FmtTime(sec))) == Displayed(sec) % 60 < 60
  {
    ClockTextShape(Displayed(sec));
  }

  /**
   * The minutes field has at least two digits, carries no zero beyond what the
   * padding to two adds, and denotes the displayed count divided by 60, rounded down.
   */
  lemma {:induction false} FmtTimeMinutes(sec: int)
    ensures |MinutesField(FmtTime(sec))| >= 2 && AllDigits(MinutesField(FmtTime(sec)))
    ensures |MinutesField(FmtTime(sec))| > 2 ==> MinutesField(FmtTime(sec))[0] != '0'
    ensures Value(MinutesField(FmtTime(sec))) == Displayed(sec) / 60
  {
    var t := Displayed(sec);
    var r := FmtTime(sec);
    assert r == ClockText(t);
    ClockTextShape(t);
    var m := Decimal(t / 60);
    assert MinutesField(r) == PadStart2(m);
    if |m| >= 2 {
      assert PadStart2(m) == m;
    }
  }

  /** A negative count (within the 32-bit range) is shown as zero. */
  lemma NegativeShowsZero(sec: int)
    requires -TWO_31 <= sec <= 0
    ensures FmtTime(sec) == "00:00"
  {
    assert Decimal(0) == "0";
    assert PadStart2("0") == "00";
  }

  /** Reads a clock string back to a second count: digits, a colon, two digits below 60. */
  function ParseClock(r: string): Option<nat>
  {
    if |r| >= 5 && r[|r| - 3] == ':' && AllDigits(MinutesField(r)) && AllDigits(SecondsField(r))
       && Value(SecondsField(r)) < 60
    then Some(Value(MinutesField(r)) * 60 + Value(SecondsField(r)))
    else None
  }

  /** Reading the formatted time back gives the displayed count, which is `sec` itself for any non-negative 32-bit `sec`. */
  lemma {:induction false} FmtTimeRoundTrip(sec: int)
    ensures ParseClock(FmtTime(sec)) == Some(Displayed(sec))
    ensures 0 <= sec < TWO_31 ==> ParseClock(FmtTime(sec)) == Some(sec)
  {
    FmtTimeSeconds(sec);
    FmtTimeMinutes(sec);
  }

  /** Below 100 minutes the display is exactly `MM:SS`, five characters. */
  lemma {:induction false} FmtTimeFiveChars(sec: int)
    requires 0 <= sec < 6000
    ensures |FmtTime(sec)| == 5
  {
    var t := Displayed(sec);
    assert t == sec;
    var q := t / 60;
    assert q < 100;
    var m := Decimal(q);
    assert |PadStart2(m)| == 2;
    ClockTextShape(t);
  }
}
