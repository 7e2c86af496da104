/**
 * Stored timestamps. SQLite compares them as text. Two formats are in use: RFC 3339 with exactly nine
 * fraction digits (internal/state/availability_recovery.go) and Go's RFC3339Nano, which drops trailing zeros
 * and an empty fraction. An instant is a number of nanoseconds; the text up to the second has a fixed width
 * and orders like the seconds (section 5.1 of RFC 3339), so only what follows it is spelled out.
 */
module Timestamps {
  import opened TextOrder

  const NANOS_PER_SECOND := 1000000000
  const HOUR := 3600 * NANOS_PER_SECOND
  const DAY := 24 * HOUR

  datatype Text = Text(second: int, tail: string)

  predicate TextLess(a: Text, b: Text) {
    a.second < b.second || (a.second == b.second && Less(a.tail, b.tail))
  }

  function Second(instant: int): int {
    instant / NANOS_PER_SECOND
  }

  function Digit(d: int): char
    requires 0 <= d < 10
  {
    ('0' as int + d) as char
  }

  /** The last `width` decimal digits of `n`. */
  function Digits(n: nat, width: nat): string {
    if width == 0 then "" else Digits(n / 10, width - 1) + [Digit(n % 10)]
  }

  function Fraction(instant: int): string {
    Digits(instant % NANOS_PER_SECOND, 9)
  }

  /** Without trailing zeros. */
  function Trim(digits: string): string {
    if digits == "" then ""
    else
      var rest := Trim(digits[1..]);
      if rest == "" && digits[0] == '0' then "" else [digits[0]] + rest
  }

  function FixedText(instant: int): Text {
    Text(Second(instant), "." + Fraction(instant) + "Z")
  }

  function NanoText(instant: int): Text {
    var digits := Trim(Fraction(instant));
    Text(Second(instant), if digits == "" then "Z" else "." + digits + "Z")
  }

  function Pow10(n: nat): nat {
    if n == 0 then 1 else 10 * Pow10(n - 1)
  }

  // ----- the fixed-width format -----

  lemma {:induction false} DigitsOrder(a: nat, b: nat, width: nat)
    requires a < Pow10(width) && b < Pow10(width)
    ensures |Digits(a, width)| == |Digits(b, width)| == width
    ensures Less(Digits(a, width), Digits(b, width)) <==> a < b
    ensures Digits(a, width) == Digits(b, width) <==> a == b
  {
    if width > 0 {
      DigitsOrder(a / 10, b / 10, width - 1);
      var x, y := Digits(a / 10, width - 1), Digits(b / 10, width - 1);
      LessConcat(x, y, [Digit(a % 10)], [Digit(b % 10)]);
      assert Digits(a, width)[..width - 1] == x && Digits(b, width)[..width - 1] == y;
      assert Digits(a, width)[width - 1] == Digit(a % 10) && Digits(b, width)[width - 1] == Digit(b % 10);
    }
  }

  lemma FractionOrder(a: int, b: int)
    ensures |Fraction(a)| == |Fraction(b)| == 9
    ensures Less(Fraction(a), Fraction(b)) <==> a % NANOS_PER_SECOND < b % NANOS_PER_SECOND
  {
    assert Pow10(9) == NANOS_PER_SECOND by {
      assert Pow10(3) == 1000 && Pow10(6) == 1000 * Pow10(3) && Pow10(9) == 1000 * Pow10(6);
    }
    DigitsOrder(a % NANOS_PER_SECOND, b % NANOS_PER_SECOND, 9);
  }

  /** Nine-digit timestamps order like the instants they stand for. */
  lemma FixedTextIsChronological(a: int, b: int)
    ensures TextLess(FixedText(a), FixedText(b)) <==> a < b
  {
    FractionOrder(a, b);
    LessConcat("." + Fraction(a), "." + Fraction(b), "Z", "Z");
    LessConcat(".", ".", Fraction(a), Fraction(b));
    assert !Less("Z", "Z") && !Less(".", ".");
  }

  // ----- the trimmed format -----

  ghost predicate AreDigits(s: string) {
    forall k :: 0 <= k < |s| ==> '0' <= s[k] <= '9'
  }

  lemma {:induction false} DigitsAreDigits(n: nat, width: nat)
    ensures AreDigits(Digits(n, width))
  {
    if width > 0 {
      DigitsAreDigits(n / 10, width - 1);
    }
  }

  /** Of two fractions of equal width, the larger one has something left after trimming. */
  lemma {:induction false} LargerIsNotZero(x: string, y: string)
    requires |x| == |y| && AreDigits(x) && AreDigits(y) && Less(x, y)
    ensures Trim(y) != ""
  {
    if x[0] == y[0] {
      LargerIsNotZero(x[1..], y[1..]);
    }
  }

  lemma {:induction false} TrimmedOrder(x: string, y: string)
    requires |x| == |y| && AreDigits(x) && AreDigits(y) && Less(x, y)
    ensures Less(Trim(x) + "Z", Trim(y) + "Z") <==> !(Trim(x) <= Trim(y))
    ensures Less(Trim(y) + "Z", Trim(x) + "Z") <==> Trim(x) <= Trim(y)
    ensures !(Trim(y) <= Trim(x))
  {
    LargerIsNotZero(x, y);
    var p, q := Trim(x), Trim(y);
    assert (p + "Z")[0] == if p == "" then 'Z' else p[0];
    assert (q + "Z")[0] == q[0] && '0' <= q[0] <= '9' by { TrimHead(y); }
    if p != "" {
      TrimHead(x);
      assert (p + "Z")[1..] == p[1..] + "Z" && (q + "Z")[1..] == q[1..] + "Z";
      if x[0] == y[0] {
        LargerIsNotZero(x[1..], y[1..]);
        TrimmedOrder(x[1..], y[1..]);
        assert (p <= q <==> p[1..] <= q[1..]) && (q <= p <==> q[1..] <= p[1..]) by {
          assert p == [p[0]] + p[1..] && q == [q[0]] + q[1..];
        }
      }
    }
  }

  lemma TrimHead(x: string)
    requires Trim(x) != ""
    ensures x != "" && Trim(x)[0] == x[0] && Trim(x)[1..] == Trim(x[1..])
  {
  }

  /** Both instants lie in the same second, and one trimmed fraction is a proper prefix of the other. */
  ghost predicate Misordered(a: int, b: int) {
    a != b && Second(a) == Second(b)
    && (Trim(Fraction(a)) <= Trim(Fraction(b)) || Trim(Fraction(b)) <= Trim(Fraction(a)))
  }

  /** Exactly the misordered pairs are out of order as RFC3339Nano text, and these are reversed. */
  lemma NanoTextOrder(a: int, b: int)
    requires a < b
    ensures TextLess(NanoText(a), NanoText(b)) <==> !Misordered(a, b)
    ensures TextLess(NanoText(b), NanoText(a)) <==> Misordered(a, b)
  {
    if Second(a) == Second(b) {
      FractionOrder(a, b);
      DigitsAreDigits(a % NANOS_PER_SECOND, 9);
      DigitsAreDigits(b % NANOS_PER_SECOND, 9);
      var p, q := Trim(Fraction(a)), Trim(Fraction(b));
      LargerIsNotZero(Fraction(a), Fraction(b));
      TrimmedOrder(Fraction(a), Fraction(b));
      if p != "" {
        LessConcat(".", ".", p + "Z", q + "Z");
        LessConcat(".", ".", q + "Z", p + "Z");
        assert "." + p + "Z" == "." + (p + "Z") && "." + q + "Z" == "." + (q + "Z");
        assert !Less(".", ".");
      }
    }
  }

  /** Text comparison with a cutoff agrees with time, unless instant and cutoff are misordered. */
  lemma CutoffIsChronological(a: int, since: int)
    ensures (TextLess(NanoText(a), NanoText(since)) <==> a < since) <==> !Misordered(a, since)
  {
    if a < since {
      NanoTextOrder(a, since);
    } else if since < a {
      NanoTextOrder(since, a);
    } else {
      LessIrreflexive(NanoText(a).tail);
    }
  }

  lemma {:induction false} ZeroDigits(width: nat)
    ensures Trim(Digits(0, width)) == "" && |Digits(0, width)| == width
    ensures forall k :: 0 <= k < width ==> Digits(0, width)[k] == '0'
  {
    if width > 0 {
      ZeroDigits(width - 1);
      AllZeros(Digits(0, width));
    }
  }

  lemma {:induction false} AllZeros(s: string)
    requires forall k :: 0 <= k < |s| ==> s[k] == '0'
    ensures Trim(s) == ""
  {
    if s != "" {
      AllZeros(s[1..]);
    }
  }

  predicate Whole(instant: int) {
    instant % NANOS_PER_SECOND == 0
  }

  lemma WholeSecondsAreOrdered(a: int, b: int)
    requires Whole(a) && Whole(b)
    ensures !Misordered(a, b)
  {
  }

  /** Between whole seconds RFC3339Nano text is chronological. */
  lemma WholeSecondsAreChronological(a: int, b: int)
    requires Whole(a) && Whole(b)
    ensures TextLess(NanoText(a), NanoText(b)) <==> a < b
  {
    ZeroDigits(9);
    assert !Less("Z", "Z");
  }

  /** Half a second later sorts before: the order inside one second is not chronological. */
  lemma NanoTextIsNotChronological()
    ensures exists a, b :: a < b && !TextLess(NanoText(a), NanoText(b)) && TextLess(NanoText(b), NanoText(a))
  {
    var a, b := 0, 500000000;
    ZeroDigits(9);
    NanoTextOrder(a, b);
    FractionOrder(a, b);
    DigitsAreDigits(b, 9);
    LargerIsNotZero(Fraction(a), Fraction(b));
    assert NanoText(a).tail == "Z" && NanoText(b).tail[0] == '.';
  }

  /** Comparing the two formats with each other is accurate to the second. */
  lemma MixedTextOrder(a: int, b: int)
    ensures TextLess(FixedText(a), NanoText(b)) ==> Second(a) <= Second(b)
    ensures Second(a) < Second(b) ==> TextLess(FixedText(a), NanoText(b))
    ensures Whole(a) && Whole(b) ==> (TextLess(FixedText(a), NanoText(b)) <==> a <= b)
  {
    if Whole(a) && Whole(b) {
      ZeroDigits(9);
      assert FixedText(a).tail[0] == '.' && NanoText(b).tail == "Z";
    }
  }
}
