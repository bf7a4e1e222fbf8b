/** How a key path given as text becomes segments, and how a segment is read
    as an array index. */
module DotPath {
  import opened Wrappers

  /** Largest value of Rust's `usize` on a 64-bit target. */
  const USIZE_MAX: nat := 0xFFFF_FFFF_FFFF_FFFF

  // ---------------------------------------------------------------------------
  // Splitting on '.'
  // ---------------------------------------------------------------------------

  /** Glues pieces back together with a '.' between each neighbouring pair. */
  function Join(parts: seq<string>): string
    requires |parts| >= 1
  {
    if |parts| == 1 then parts[0] else parts[0] + "." + Join(parts[1..])
  }

  /** `str::split('.')`: the pieces between the dots, in order. Every dot
      separates two pieces, so the empty string is one empty piece and a
      leading, trailing or doubled dot yields an empty piece. */
  function Split(s: string): (parts: seq<string>)
    ensures |parts| >= 1
    ensures forall i :: 0 <= i < |parts| ==> '.' !in parts[i]
  {
    if |s| == 0 then [""]
    else
      var rest := Split(s[1..]);
      if s[0] == '.' then [""] + rest
      else [[s[0]] + rest[0]] + rest[1..]
  }

  /** Nothing is lost by splitting: the pieces rebuild the text. */
  lemma {:induction false} JoinSplit(s: string)
    ensures Join(Split(s)) == s
  {
    if |s| == 0 {
    } else {
      var rest := Split(s[1..]);
      JoinSplit(s[1..]);
      if s[0] == '.' {
        assert Split(s) == [""] + rest;
        assert ([""] + rest)[1..] == rest;
      } else {
        var parts := [[s[0]] + rest[0]] + rest[1..];
        assert Split(s) == parts;
        if |rest| == 1 {
          assert s == [s[0]] + s[1..];
        } else {
          assert parts[1..] == rest[1..];
          assert Join(rest) == rest[0] + "." + Join(rest[1..]);
          assert s == [s[0]] + s[1..];
        }
      }
    }
  }

  /** Splitting recovers any dot-free pieces that were joined, so `Split` is
      exactly the inverse of `Join` on pieces free of dots. */
  lemma {:induction false} SplitJoin(parts: seq<string>)
    requires |parts| >= 1
    requires forall i :: 0 <= i < |parts| ==> '.' !in parts[i]
    ensures Split(Join(parts)) == parts
  {
    if |parts| == 1 {
      SplitDotFree(parts[0]);
    } else {
      var tail := parts[1..];
      SplitJoin(tail);
      assert Join(parts) == parts[0] + ("." + Join(tail));
      SplitPrefix(parts[0], "." + Join(tail));
      assert ("." + Join(tail))[1..] == Join(tail);
      assert parts == [parts[0]] + tail;
    }
  }

  /** A dot-free text splits into itself. */
  lemma {:induction false} SplitDotFree(w: string)
    requires '.' !in w
    ensures Split(w) == [w]
  {
    if |w| > 0 {
      assert '.' !in w[1..] by {
        forall i | 0 <= i < |w[1..]| ensures w[1..][i] != '.' {
          assert w[1..][i] == w[i + 1];
        }
      }
      SplitDotFree(w[1..]);
      assert [w[0]] + w[1..] == w;
    }
  }

  /** A dot-free prefix glues onto the first piece of what follows it. */
  lemma {:induction false} SplitPrefix(w: string, t: string)
    requires '.' !in w
    requires |t| > 0 && t[0] == '.'
    ensures Split(w + t) == [w] + Split(t[1..])
  {
    if |w| == 0 {
      assert w + t == t;
    } else {
      assert '.' !in w[1..] by {
        forall i | 0 <= i < |w[1..]| ensures w[1..][i] != '.' {
          assert w[1..][i] == w[i + 1];
        }
      }
      SplitPrefix(w[1..], t);
      assert (w + t)[1..] == w[1..] + t;
      assert (w + t)[0] == w[0];
      assert [w[0]] + w[1..] == w;
    }
  }

  // ---------------------------------------------------------------------------
  // `str::parse::<usize>()`
  // ---------------------------------------------------------------------------

  predicate IsDigit(c: char) {
    '0' <= c <= '9'
  }

  predicate AllDigits(d: string) {
    forall i :: 0 <= i < |d| ==> IsDigit(d[i])
  }

  function DigitValue(c: char): nat
    requires IsDigit(c)
  {
    c as int - '0' as int
  }

  function DigitChar(k: nat): char
    requires k < 10
  {
    ('0' as int + k) as char
  }

  /** The number a string of decimal digits denotes (most significant first). */
  function DecimalValue(d: string): nat
    requires AllDigits(d)
  {
    if |d| == 0 then 0 else DecimalValue(d[..|d| - 1]) * 10 + DigitValue(d[|d| - 1])
  }

  /** The digits left once one optional leading '+' is dropped. */
  function Unsigned(seg: string): string {
    if |seg| > 0 && seg[0] == '+' then seg[1..] else seg
  }

  /** Rust's `usize::from_str` on a 64-bit target: ASCII decimal digits with
      at most one leading '+', at least one digit, value at most `USIZE_MAX`.
      The library stops at the first digit that overflows; since a longer
      digit string never denotes less, the verdict is the same as checking
      the whole value against the bound. */
  function ParseUsize(seg: string): Option<nat> {
    var d := Unsigned(seg);
    if |d| > 0 && AllDigits(d) && DecimalValue(d) <= USIZE_MAX then Some(DecimalValue(d)) else None
  }

  /** The canonical decimal rendering of a number (no sign, no leading zero). */
  function Decimal(n: nat): string
  {
    if n < 10 then [DigitChar(n)] else Decimal(n / 10) + [DigitChar(n % 10)]
  }

  function Zeros(z: nat): string {
    seq(z, _ => '0')
  }

  lemma {:induction false} DecimalIsDigits(n: nat)
    ensures |Decimal(n)| > 0
    ensures AllDigits(Decimal(n))
    ensures DecimalValue(Decimal(n)) == n
  {
    if n >= 10 {
      DecimalIsDigits(n / 10);
      var d := Decimal(n);
      assert d[..|d| - 1] == Decimal(n / 10);
    }
  }

  /** Leading zeros add nothing to the value. */
  lemma {:induction false} ZerosAddNothing(z: nat, d: string)
    requires AllDigits(d)
    ensures AllDigits(Zeros(z) + d)
    ensures DecimalValue(Zeros(z) + d) == DecimalValue(d)
  {
    var e := Zeros(z) + d;
    assert AllDigits(e) by {
      forall i | 0 <= i < |e| ensures IsDigit(e[i]) {
        if i < z { assert e[i] == '0'; } else { assert e[i] == d[i - z]; }
      }
    }
    if |d| == 0 {
      assert e == Zeros(z);
      ZerosAreZero(z);
    } else {
      ZerosAddNothing(z, d[..|d| - 1]);
      assert e[..|e| - 1] == Zeros(z) + d[..|d| - 1];
    }
  }

  lemma {:induction false} ZerosAreZero(z: nat)
    ensures AllDigits(Zeros(z))
    ensures DecimalValue(Zeros(z)) == 0
  {
    if z > 0 {
      ZerosAreZero(z - 1);
      assert Zeros(z)[..z - 1] == Zeros(z - 1);
    }
  }

  /** A digit string that does not start with '0' denotes a positive number. */
  lemma {:induction false} NoLeadingZeroIsPositive(d: string)
    requires |d| > 0 && AllDigits(d) && d[0] != '0'
    ensures DecimalValue(d) > 0
  {
    if |d| > 1 {
      NoLeadingZeroIsPositive(d[..|d| - 1]);
    }
  }

  /** A digit string that does not start with '0' is the canonical rendering
      of its value. */
  lemma {:induction false} NoLeadingZeroIsCanonical(d: string)
    requires |d| > 0 && AllDigits(d) && d[0] != '0'
    ensures Decimal(DecimalValue(d)) == d
  {
    var n := DecimalValue(d);
    if |d| == 1 {
      assert d[..0] == "";
      assert DecimalValue(d[..0]) == 0;
      assert n == DigitValue(d[0]);
    } else {
      var front := d[..|d| - 1];
      var last := d[|d| - 1];
      NoLeadingZeroIsPositive(front);
      NoLeadingZeroIsCanonical(front);
      assert n == DecimalValue(front) * 10 + DigitValue(last);
      assert n / 10 == DecimalValue(front);
      assert n % 10 == DigitValue(last);
      assert d == front + [last];
    }
  }

  /** Every non-empty digit string is zeros followed by the canonical
      rendering of its value. */
  lemma {:induction false} DigitsAreZerosThenDecimal(d: string)
    requires |d| > 0 && AllDigits(d)
    ensures |Decimal(DecimalValue(d))| <= |d|
    ensures d == Zeros(|d| - |Decimal(DecimalValue(d))|) + Decimal(DecimalValue(d))
  {
    if d[0] != '0' {
      NoLeadingZeroIsCanonical(d);
      assert Zeros(0) + d == d;
    } else if |d| == 1 {
      assert d == "0" == Decimal(0);
      assert Zeros(0) + d == d;
    } else {
      var rest := d[1..];
      assert AllDigits(rest) by {
        forall i | 0 <= i < |rest| ensures IsDigit(rest[i]) { assert rest[i] == d[i + 1]; }
      }
      DigitsAreZerosThenDecimal(rest);
      ZerosAddNothing(1, rest);
      assert d == Zeros(1) + rest;
      var n := DecimalValue(rest);
      var k := |rest| - |Decimal(n)|;
      assert Zeros(1) + Zeros(k) == Zeros(k + 1);
      assert d == Zeros(k + 1) + Decimal(n);
    }
  }

  /** Completeness: an optional '+', any number of leading zeros and the digits
      of a value that fits in `usize` parse to that value. */
  lemma {:induction false} ParseUsizeAccepts(sign: string, z: nat, n: nat)
    requires sign == "" || sign == "+"
    requires n <= USIZE_MAX
    ensures ParseUsize(sign + Zeros(z) + Decimal(n)) == Some(n)
  {
    DecimalIsDigits(n);
    ZerosAddNothing(z, Decimal(n));
    var d := Zeros(z) + Decimal(n);
    assert sign + Zeros(z) + Decimal(n) == sign + d;
    assert IsDigit(d[0]);
    assert Unsigned(sign + d) == d by {
      if sign == "+" { assert (sign + d)[1..] == d; } else { assert sign + d == d; }
    }
  }

  /** Soundness: whatever parses is an optional '+', leading zeros and the
      canonical digits of the parsed value, which fits in `usize`. In
      particular the empty string, a lone '+', a '-' sign and anything
      with a non-digit are rejected. */
  lemma {:induction false} ParseUsizeSound(seg: string)
    requires ParseUsize(seg).Some?
    ensures seg == Unsigned(seg) || seg == "+" + Unsigned(seg)
    ensures ParseUsize(seg).value <= USIZE_MAX
    ensures |Decimal(ParseUsize(seg).value)| <= |Unsigned(seg)|
    ensures Unsigned(seg) == Zeros(|Unsigned(seg)| - |Decimal(ParseUsize(seg).value)|) + Decimal(ParseUsize(seg).value)
  {
    var d := Unsigned(seg);
    if |seg| > 0 && seg[0] == '+' {
      assert seg == "+" + d;
    }
    DigitsAreZerosThenDecimal(d);
  }

  /** Numbers beyond `usize` are rejected however they are written. */
  lemma {:induction false} ParseUsizeRejectsOverflow(sign: string, z: nat, n: nat)
    requires sign == "" || sign == "+"
    requires n > USIZE_MAX
    ensures ParseUsize(sign + Zeros(z) + Decimal(n)) == None
  {
    DecimalIsDigits(n);
    ZerosAddNothing(z, Decimal(n));
    var d := Zeros(z) + Decimal(n);
    assert sign + Zeros(z) + Decimal(n) == sign + d;
    assert IsDigit(d[0]);
    assert Unsigned(sign + d) == d by {
      if sign == "+" { assert (sign + d)[1..] == d; } else { assert sign + d == d; }
    }
  }
}
