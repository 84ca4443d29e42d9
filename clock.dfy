/** The clock face of the brewing timer: `timeLeft` seconds shown as `m:ss`,
    whole minutes, a colon and the seconds left-padded to two digits with '0'. */
module Clock {
  import opened Options

  predicate IsDigit(c: char) { '0' <= c <= '9' }

  predicate IsDigits(s: string) { forall i :: 0 <= i < |s| ==> IsDigit(s[i]) }

  /** A decimal numeral as `String(n)` writes it: no leading zero unless the number is 0. */
  predicate IsCanonical(s: string) {
    IsDigits(s) && |s| >= 1 && (s[0] == '0' ==> |s| == 1)
  }

  function DigitChar(d: nat): char
    requires d < 10
  {
    (d + '0' as int) as char
  }

  /** The value of a digit character (0 for any other character). */
  function DigitValue(c: char): nat {
    if IsDigit(c) then c as int - '0' as int else 0
  }

  /** `String(n)` for a non-negative integer below 10^21; from 10^21 on JavaScript
      switches to exponent notation, which this function does not model. */
  function Decimal(n: nat): string {
    if n < 10 then [DigitChar(n)] else Decimal(n / 10) + [DigitChar(n % 10)]
  }

  /** The value of a numeral, most significant digit first. */
  function Value(s: string): nat {
    if s == [] then 0 else Value(s[..|s| - 1]) * 10 + DigitValue(s[|s| - 1])
  }

  /** `s.padStart(width, fill)` for a single fill character:
      the fill is repeated on the left until the string is `width` long. */
  function PadStart(s: string, width: nat, fill: char): string
    decreases width - |s|
  {
    if |s| >= width then s else PadStart([fill] + s, width, fill)
  }

  /** The clock face of `t` seconds: `Math.floor(t / 60)`, ':' and
      `String(t % 60).padStart(2, '0')`; it agrees with JavaScript for `t` below 2^53,
      the integers a double holds exactly. */
  function Format(t: nat): string {
    Decimal(t / 60) + ":" + PadStart(Decimal(t % 60), 2, '0')
  }

  /** Reads a clock face back: canonical minutes, ':' and two digits worth less than 60. */
  function Parse(s: string): (r: Option<nat>)
    ensures r.Some? ==> |s| >= 4 && s[|s| - 3] == ':'
  {
    if |s| >= 4 && s[|s| - 3] == ':' && IsCanonical(s[..|s| - 3]) && IsDigits(s[|s| - 2..])
       && Value(s[|s| - 2..]) < 60
    then Some(Value(s[..|s| - 3]) * 60 + Value(s[|s| - 2..]))
    else None
  }

  // ---------------------------------------------------------------- numerals

  lemma DigitRoundTrip(c: char)
    requires IsDigit(c)
    ensures DigitValue(c) < 10 && DigitChar(DigitValue(c)) == c
  {
  }

  /** `String(n)` is a canonical numeral of value `n`, a single digit exactly below 10. */
  lemma {:induction false} DecimalIsNumeral(n: nat)
    ensures IsCanonical(Decimal(n)) && Value(Decimal(n)) == n
    ensures n < 10 <==> |Decimal(n)| == 1
    decreases n
  {
    if n >= 10 {
      DecimalIsNumeral(n / 10);
      var p, s := Decimal(n / 10), Decimal(n);
      assert s == p + [DigitChar(n % 10)];
      assert s[..|s| - 1] == p;
    }
  }

  /** A numeral that does not start with '0' denotes a positive number. */
  lemma {:induction false} ValuePositive(s: string)
    requires IsDigits(s) && |s| >= 1 && s[0] != '0'
    ensures Value(s) >= 1
    decreases |s|
  {
    if |s| > 1 {
      ValuePositive(s[..|s| - 1]);
    }
  }

  /** `String` inverts `Value` on canonical numerals. */
  lemma {:induction false} DecimalOfValue(s: string)
    requires IsCanonical(s)
    ensures Decimal(Value(s)) == s
    decreases |s|
  {
    var p, c := s[..|s| - 1], s[|s| - 1];
    if |s| > 1 {
      ValuePositive(p);
      DecimalOfValue(p);
      DigitRoundTrip(c);
      assert Value(s) == Value(p) * 10 + DigitValue(c);
      assert s == p + [c];
    } else {
      DigitRoundTrip(c);
    }
  }

  /** The seconds of the face, for `sec < 60`: always exactly two digits. */
  lemma PaddedSeconds(sec: nat)
    requires sec < 60
    ensures PadStart(Decimal(sec), 2, '0') == [DigitChar(sec / 10), DigitChar(sec % 10)]
  {
    if sec < 10 {
      assert PadStart([DigitChar(sec)], 2, '0') == PadStart(['0', DigitChar(sec)], 2, '0');
    } else {
      assert Decimal(sec / 10) == [DigitChar(sec / 10)];
    }
  }

  /** The value of two digits. */
  lemma TwoDigits(hi: nat, lo: nat)
    requires hi < 10 && lo < 10
    ensures IsDigits([DigitChar(hi), DigitChar(lo)])
    ensures Value([DigitChar(hi), DigitChar(lo)]) == hi * 10 + lo
  {
    var s := [DigitChar(hi), DigitChar(lo)];
    assert s[..1] == [DigitChar(hi)] && s[..1][..0] == [];
    assert DigitValue(DigitChar(hi)) == hi && DigitValue(DigitChar(lo)) == lo;
    assert Value(s[..1]) == hi;
  }

  /** The pieces of `minutes + ":" + seconds` are recovered by slicing around the colon. */
  lemma Pieces(minutes: string, seconds: string)
    requires |seconds| == 2
    ensures |minutes + ":" + seconds| == |minutes| + 3
    ensures (minutes + ":" + seconds)[|minutes| + 3 - 3] == ':'
    ensures (minutes + ":" + seconds)[..|minutes| + 3 - 3] == minutes
    ensures (minutes + ":" + seconds)[|minutes| + 3 - 2..] == seconds
  {
  }

  // ------------------------------------------------------------ clock faces

  /** The face of `m` minutes and `sec < 60` seconds: canonical minutes worth `m`,
      ':' and two digits worth `sec`. */
  lemma FaceDigits(m: nat, sec: nat)
    requires sec < 60
    ensures var r := Decimal(m) + ":" + PadStart(Decimal(sec), 2, '0');
      && |r| >= 4 && r[|r| - 3] == ':'
      && IsCanonical(r[..|r| - 3]) && IsDigits(r[|r| - 2..])
      && Value(r[..|r| - 3]) == m && Value(r[|r| - 2..]) == sec
  {
    var seconds := PadStart(Decimal(sec), 2, '0');
    DecimalIsNumeral(m);
    PaddedSeconds(sec);
    TwoDigits(sec / 10, sec % 10);
    Pieces(Decimal(m), seconds);
  }

  /** The clock face of `t` seconds: canonical minutes, ':' and exactly two digits of
      seconds, worth `t % 60 < 60`, with `minutes * 60 + seconds == t`. */
  lemma FormatDigits(t: nat)
    ensures var r := Format(t);
      && |r| >= 4 && r[|r| - 3] == ':'
      && IsCanonical(r[..|r| - 3]) && IsDigits(r[|r| - 2..])
      && Value(r[|r| - 2..]) == t % 60 < 60
      && Value(r[..|r| - 3]) * 60 + Value(r[|r| - 2..]) == t
  {
    var m, sec := t / 60, t % 60;
    assert m * 60 + sec == t && sec < 60;
    FaceDigits(m, sec);
  }

  /** Parsing a clock face recovers the number of seconds. */
  lemma ParseFormat(t: nat)
    ensures Parse(Format(t)) == Some(t)
  {
    FormatDigits(t);
  }

  /** Two digits are the zero-padded numeral of their own value. */
  lemma PaddedOfValue(seconds: string)
    requires IsDigits(seconds) && |seconds| == 2 && Value(seconds) < 60
    ensures PadStart(Decimal(Value(seconds)), 2, '0') == seconds
  {
    var hi, lo := DigitValue(seconds[0]), DigitValue(seconds[1]);
    DigitRoundTrip(seconds[0]);
    DigitRoundTrip(seconds[1]);
    assert seconds == [DigitChar(hi), DigitChar(lo)];
    TwoDigits(hi, lo);
    PaddedSeconds(Value(seconds));
  }

  /** Every string the parser accepts is the clock face of the number it reads. */
  lemma FormatParse(s: string)
    requires Parse(s).Some?
    ensures Format(Parse(s).value) == s
  {
    var minutes, seconds := s[..|s| - 3], s[|s| - 2..];
    var m, sec := Value(minutes), Value(seconds);
    var t := m * 60 + sec;
    assert Parse(s).value == t;
    assert t / 60 == m && t % 60 == sec;
    DecimalOfValue(minutes);
    PaddedOfValue(seconds);
    assert s == minutes + ":" + seconds;
  }

  /** Different numbers of seconds never show the same clock face. */
  lemma FormatInjective(t: nat, u: nat)
    requires Format(t) == Format(u)
    ensures t == u
  {
    ParseFormat(t);
    ParseFormat(u);
  }

  /** Faces worked out digit by digit: 0, 45, 90 and 180 seconds. */
  lemma FaceExamples()
    ensures Format(0) == "0:00" && Format(45) == "0:45"
    ensures Format(90) == "1:30" && Format(180) == "3:00"
  {
    assert Format(0) == "0:00" by { PaddedSeconds(0); }
    assert Format(45) == "0:45" by { PaddedSeconds(45); }
    assert Format(90) == "1:30" by { PaddedSeconds(30); }
    assert Format(180) == "3:00" by { PaddedSeconds(0); }
  }
}
