/**
 * The one time format the marshaller uses for generated archive names,
 * Time#strftime('%Y-%m-%d@%H%M%S'), as a formatter over the clock's
 * integer fields, and the property the format is chosen for: formatted
 * times compare, as strings, in the order of the times themselves.
 */
module Strftime {

  /** The calendar fields of a Ruby Time that the format prints. */
  datatype Clock = Clock(year: nat, month: nat, day: nat, hour: nat, minute: nat, second: nat)

  /** The ranges a Ruby Time keeps its fields in (60 is a leap second). */
  predicate ValidClock(t: Clock)
  {
    1 <= t.month <= 12 && 1 <= t.day <= 31 && t.hour < 24 && t.minute < 60 && t.second <= 60
  }

  /**
   * `t1` is an earlier wall-clock time than `t2`: field by field, most
   * significant first. Ruby's Time.now is local time, so around a
   * daylight-saving fall-back this need not be the order of the instants.
   */
  predicate Before(t1: Clock, t2: Clock)
  {
    t1.year < t2.year || (t1.year == t2.year &&
    (t1.month < t2.month || (t1.month == t2.month &&
    (t1.day < t2.day || (t1.day == t2.day &&
    (t1.hour < t2.hour || (t1.hour == t2.hour &&
    (t1.minute < t2.minute || (t1.minute == t2.minute &&
    t1.second < t2.second)))))))))
  }

  /** Ruby's String#<, byte by byte; a proper prefix is smaller. */
  predicate LexLess(a: string, b: string)
  {
    if a == [] then b != []
    else if b == [] then false
    else a[0] < b[0] || (a[0] == b[0] && LexLess(a[1..], b[1..]))
  }

  function Pow10(w: nat): (p: nat)
    ensures p >= 1
  {
    if w == 0 then 1 else 10 * Pow10(w - 1)
  }

  function DigitChar(d: nat): (c: char)
    requires d < 10
    ensures '0' <= c <= '9'
  {
    ('0' as int + d) as char
  }

  /** The last `w` decimal digits of `n`, zero-padded on the left. */
  function Digits(n: nat, w: nat): (s: string)
    ensures |s| == w
  {
    if w == 0 then [] else Digits(n / 10, w - 1) + [DigitChar(n % 10)]
  }

  /** `n` in decimal, without padding. */
  function Decimal(n: nat): (s: string)
    ensures |s| >= 1
  {
    if n < 10 then [DigitChar(n)] else Decimal(n / 10) + [DigitChar(n % 10)]
  }

  /** %Y: the year, zero-padded to at least four digits. */
  function Year(y: nat): (s: string)
    ensures y < 10000 ==> |s| == 4
  {
    if y < 10000 then Digits(y, 4) else Decimal(y)
  }

  /** Time#strftime('%Y-%m-%d@%H%M%S'). */
  function Format(t: Clock): (s: string)
    requires ValidClock(t)
    ensures t.year < 10000 ==> |s| == 17 && s[4] == '-' && s[7] == '-' && s[10] == '@'
  {
    Year(t.year) + ("-" + (Digits(t.month, 2) + ("-" + (Digits(t.day, 2) + ("@" +
      (Digits(t.hour, 2) + (Digits(t.minute, 2) + Digits(t.second, 2))))))))
  }

  lemma {:induction false} LexLessIrreflexive(a: string)
    ensures !LexLess(a, a)
  {
    if a != [] {
      LexLessIrreflexive(a[1..]);
    }
  }

  /**
   * Comparing two strings that start with pieces of the same length
   * compares those pieces first, and the rest only when they are equal.
   */
  lemma {:induction false} LexLessAppend(a1: string, b1: string, a2: string, b2: string)
    requires |a1| == |a2|
    ensures LexLess(a1 + b1, a2 + b2) <==> LexLess(a1, a2) || (a1 == a2 && LexLess(b1, b2))
  {
    if a1 == [] {
      assert a1 + b1 == b1 && a2 + b2 == b2;
    } else {
      assert (a1 + b1)[1..] == a1[1..] + b1;
      assert (a2 + b2)[1..] == a2[1..] + b2;
      assert a1 == [a1[0]] + a1[1..] && a2 == [a2[0]] + a2[1..];
      LexLessAppend(a1[1..], b1, a2[1..], b2);
    }
  }

  /** Zero-padded numbers of one width compare as strings as they do as numbers. */
  lemma {:induction false} DigitsOrder(n: nat, m: nat, w: nat)
    requires n < Pow10(w) && m < Pow10(w)
    ensures LexLess(Digits(n, w), Digits(m, w)) <==> n < m
    ensures Digits(n, w) == Digits(m, w) <==> n == m
  {
    if w == 0 {
      LexLessIrreflexive([]);
    } else {
      var p := Pow10(w - 1);
      assert n / 10 < p && m / 10 < p;
      DigitsOrder(n / 10, m / 10, w - 1);
      var a, b := Digits(n / 10, w - 1), Digits(m / 10, w - 1);
      var x, y := DigitChar(n % 10), DigitChar(m % 10);
      LexLessAppend(a, [x], b, [y]);
      assert LexLess([x], [y]) <==> x < y by {
        assert [x][1..] == [] && [y][1..] == [];
        LexLessIrreflexive([]);
      }
      assert a + [x] == b + [y] <==> a == b && x == y by {
        if a + [x] == b + [y] {
          assert (a + [x])[..w - 1] == a && (b + [y])[..w - 1] == b;
          assert (a + [x])[w - 1] == x && (b + [y])[w - 1] == y;
        }
      }
      assert n == 10 * (n / 10) + n % 10 && m == 10 * (m / 10) + m % 10;
    }
  }

  /** A fixed-width field followed by the rest of a formatted time. */
  lemma FieldThenRest(n: nat, m: nat, w: nat, r1: string, r2: string)
    requires n < Pow10(w) && m < Pow10(w)
    ensures LexLess(Digits(n, w) + r1, Digits(m, w) + r2) <==> n < m || (n == m && LexLess(r1, r2))
    ensures Digits(n, w) + r1 == Digits(m, w) + r2 <==> n == m && r1 == r2
  {
    DigitsOrder(n, m, w);
    LexLessAppend(Digits(n, w), r1, Digits(m, w), r2);
    if Digits(n, w) + r1 == Digits(m, w) + r2 {
      assert (Digits(n, w) + r1)[..w] == Digits(n, w);
      assert (Digits(m, w) + r2)[..w] == Digits(m, w);
      assert (Digits(n, w) + r1)[w..] == r1 && (Digits(m, w) + r2)[w..] == r2;
    }
  }

  /** A separator character followed by the rest of a formatted time. */
  lemma SeparatorThenRest(sep: string, r1: string, r2: string)
    ensures LexLess(sep + r1, sep + r2) <==> LexLess(r1, r2)
    ensures sep + r1 == sep + r2 <==> r1 == r2
  {
    LexLessIrreflexive(sep);
    LexLessAppend(sep, r1, sep, r2);
    if sep + r1 == sep + r2 {
      assert (sep + r1)[|sep|..] == r1 && (sep + r2)[|sep|..] == r2;
    }
  }

  /**
   * Generated timestamps sort as the wall-clock times they stand for: for
   * years of at most four digits, one formatted time is smaller than
   * another exactly when its fields are earlier, and two are equal exactly
   * when the fields are.
   */
  lemma FormatOrder(t1: Clock, t2: Clock)
    requires ValidClock(t1) && ValidClock(t2) && t1.year < 10000 && t2.year < 10000
    ensures LexLess(Format(t1), Format(t2)) <==> Before(t1, t2)
    ensures Format(t1) == Format(t2) <==> t1 == t2
  {
    assert Pow10(2) == 100 && Pow10(4) == 10000 by {
      assert Pow10(1) == 10;
      assert Pow10(3) == 1000;
    }
    var s1, s2 := Digits(t1.second, 2), Digits(t2.second, 2);
    DigitsOrder(t1.second, t2.second, 2);
    var mi1, mi2 := Digits(t1.minute, 2) + s1, Digits(t2.minute, 2) + s2;
    FieldThenRest(t1.minute, t2.minute, 2, s1, s2);
    var h1, h2 := Digits(t1.hour, 2) + mi1, Digits(t2.hour, 2) + mi2;
    FieldThenRest(t1.hour, t2.hour, 2, mi1, mi2);
    var hs1, hs2 := "@" + h1, "@" + h2;
    SeparatorThenRest("@", h1, h2);
    var d1, d2 := Digits(t1.day, 2) + hs1, Digits(t2.day, 2) + hs2;
    FieldThenRest(t1.day, t2.day, 2, hs1, hs2);
    var ds1, ds2 := "-" + d1, "-" + d2;
    SeparatorThenRest("-", d1, d2);
    var mo1, mo2 := Digits(t1.month, 2) + ds1, Digits(t2.month, 2) + ds2;
    FieldThenRest(t1.month, t2.month, 2, ds1, ds2);
    var ms1, ms2 := "-" + mo1, "-" + mo2;
    SeparatorThenRest("-", mo1, mo2);
    FieldThenRest(t1.year, t2.year, 4, ms1, ms2);
    assert Format(t1) == Digits(t1.year, 4) + ms1;
    assert Format(t2) == Digits(t2.year, 4) + ms2;
  }
}
