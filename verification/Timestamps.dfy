/** Spool file names: a fixed-width UTC timestamp, a random suffix and the .json extension. */
module Timestamps {
  import opened Strings

  /** A UTC civil time, to the second. */
  datatype Civil = Civil(year: nat, month: nat, day: nat, hour: nat, minute: nat, second: nat)

  /** Every field but the year prints at its fixed width; years up to five digits. */
  predicate Printable(t: Civil) {
    t.year < 100000 && t.month < 100 && t.day < 100 && t.hour < 100 && t.minute < 100 && t.second < 100
  }

  predicate Before(a: Civil, b: Civil) {
    a.year < b.year || (a.year == b.year && (
    a.month < b.month || (a.month == b.month && (
    a.day < b.day || (a.day == b.day && (
    a.hour < b.hour || (a.hour == b.hour && (
    a.minute < b.minute || (a.minute == b.minute &&
    a.second < b.second)))))))))
  }

  function Pow10(w: nat): (p: nat)
    ensures p > 0
  {
    if w == 0 then 1 else 10 * Pow10(w - 1)
  }

  /** n printed in w decimal digits, with leading zeros. */
  function Digits(n: nat, w: nat): (s: string)
    ensures |s| == w
  {
    if w == 0 then "" else Digits(n / 10, w - 1) + [(48 + n % 10) as char]
  }

  lemma {:induction false} DigitsOrdered(n: nat, m: nat, w: nat)
    requires n < m < Pow10(w)
    ensures Less(Digits(n, w), Digits(m, w))
  {
    var a, b := [(48 + n % 10) as char], [(48 + m % 10) as char];
    if n / 10 == m / 10 {
      CommonPrefix(Digits(n / 10, w - 1), a, b);
    } else {
      DigitsOrdered(n / 10, m / 10, w - 1);
      EqualLength(Digits(n / 10, w - 1), Digits(m / 10, w - 1), a, b);
    }
  }

  /** A fixed-width field decides the order unless it is equal on both sides. */
  lemma FieldOrder(n: nat, m: nat, w: nat, s: string, t: string)
    requires n < Pow10(w) && m < Pow10(w)
    ensures Less(Digits(n, w) + s, Digits(m, w) + t) <==> n < m || (n == m && Less(s, t))
  {
    if n == m {
      CommonPrefix(Digits(n, w), s, t);
    } else if n < m {
      DigitsOrdered(n, m, w);
      EqualLength(Digits(n, w), Digits(m, w), s, t);
    } else {
      DigitsOrdered(m, n, w);
      EqualLength(Digits(m, w), Digits(n, w), t, s);
      Asymmetric(Digits(m, w) + t, Digits(n, w) + s);
    }
  }

  function TimePart(t: Civil): string {
    Digits(t.hour, 2) + (Digits(t.minute, 2) + (Digits(t.second, 2) + "Z"))
  }

  /** A year of five digits prints wider than the layout's four. */
  function YearWidth(y: nat): nat {
    if y < 10000 then 4 else 5
  }

  /** The layout 20060102T150405Z. */
  function Stamp(t: Civil): string {
    Digits(t.year, YearWidth(t.year)) + (Digits(t.month, 2) + (Digits(t.day, 2) + ("T" + TimePart(t))))
  }

  function FileName(t: Civil, suffix: string): string {
    Stamp(t) + ("_" + suffix + ".json")
  }

  lemma TimePartOrder(a: Civil, b: Civil, s: string, t: string)
    requires Printable(a) && Printable(b)
    ensures Less(TimePart(a) + s, TimePart(b) + t) <==>
            a.hour < b.hour || (a.hour == b.hour && (
            a.minute < b.minute || (a.minute == b.minute && (
            a.second < b.second || (a.second == b.second && Less(s, t))))))
  {
    assert Pow10(2) == 100;
    var sa, sb := Digits(a.second, 2) + ("Z" + s), Digits(b.second, 2) + ("Z" + t);
    var ma, mb := Digits(a.minute, 2) + sa, Digits(b.minute, 2) + sb;
    assert TimePart(a) + s == Digits(a.hour, 2) + ma;
    assert TimePart(b) + t == Digits(b.hour, 2) + mb;
    FieldOrder(a.hour, b.hour, 2, ma, mb);
    FieldOrder(a.minute, b.minute, 2, sa, sb);
    FieldOrder(a.second, b.second, 2, "Z" + s, "Z" + t);
    CommonPrefix("Z", s, t);
  }

  /** What follows the year in a file name. */
  function AfterYear(t: Civil, suffix: string): string {
    Digits(t.month, 2) + (Digits(t.day, 2) + ("T" + (TimePart(t) + ("_" + suffix + ".json"))))
  }

  lemma FileNameParts(t: Civil, suffix: string)
    ensures FileName(t, suffix) == Digits(t.year, YearWidth(t.year)) + AfterYear(t, suffix)
  {
  }

  lemma AfterYearOrder(a: Civil, b: Civil, s: string, t: string)
    requires Printable(a) && Printable(b)
    ensures Less(AfterYear(a, s), AfterYear(b, t)) <==>
            Before(a.(year := 0), b.(year := 0))
              || (a.(year := 0) == b.(year := 0) && Less("_" + s + ".json", "_" + t + ".json"))
  {
    assert Pow10(2) == 100;
    var x, y := "_" + s + ".json", "_" + t + ".json";
    var ta, tb := "T" + (TimePart(a) + x), "T" + (TimePart(b) + y);
    FieldOrder(a.month, b.month, 2, Digits(a.day, 2) + ta, Digits(b.day, 2) + tb);
    FieldOrder(a.day, b.day, 2, ta, tb);
    CommonPrefix("T", TimePart(a) + x, TimePart(b) + y);
    TimePartOrder(a, b, x, y);
  }

  /** Among years of one width file names sort in time order; within one second the random suffix decides. */
  lemma NamesSortInTimeOrder(a: Civil, b: Civil, s: string, t: string)
    requires Printable(a) && Printable(b) && YearWidth(a.year) == YearWidth(b.year)
    ensures Less(FileName(a, s), FileName(b, t)) <==>
            Before(a, b) || (a == b && Less("_" + s + ".json", "_" + t + ".json"))
  {
    hide FileName, AfterYear;
    assert Pow10(4) == 10000 && Pow10(5) == 100000 by { assert Pow10(3) == 1000 && Pow10(2) == 100; }
    FileNameParts(a, s);
    FileNameParts(b, t);
    FieldOrder(a.year, b.year, YearWidth(a.year), AfterYear(a, s), AfterYear(b, t));
    AfterYearOrder(a, b, s, t);
  }

  /** The date as its digits read. */
  function DateNumber(t: Civil): nat {
    (t.year * 100 + t.month) * 100 + t.day
  }

  /** Two fields beside each other read as one. */
  lemma DigitsJoin(n: nat, m: nat, w: nat)
    requires m < 100
    ensures Digits(n, w) + Digits(m, 2) == Digits(n * 100 + m, w + 2)
  {
    var k := n * 100 + m;
    assert k / 10 == n * 10 + m / 10 && k / 10 / 10 == n && k % 10 == m % 10;
    assert Digits(k / 10, w + 1) == Digits(n, w) + [(48 + m / 10) as char];
    assert Digits(m / 10, 1) == [(48 + m / 10) as char] by { assert Digits(m / 10 / 10, 0) == ""; }
  }

  lemma NameStartsWithDate(t: Civil, suffix: string)
    requires Printable(t)
    ensures FileName(t, suffix) ==
            Digits(DateNumber(t), YearWidth(t.year) + 4) + ("T" + (TimePart(t) + ("_" + suffix + ".json")))
  {
    hide TimePart;
    var w := YearWidth(t.year);
    DigitsJoin(t.year, t.month, w);
    DigitsJoin(t.year * 100 + t.month, t.day, w + 2);
    var rest := "T" + (TimePart(t) + ("_" + suffix + ".json"));
    assert FileName(t, suffix) == ((Digits(t.year, w) + Digits(t.month, 2)) + Digits(t.day, 2)) + rest;
  }

  lemma DateFits(t: Civil)
    requires Printable(t)
    ensures DateNumber(t) < Pow10(YearWidth(t.year) + 4)
  {
    assert Pow10(8) == 100000000 && Pow10(9) == 1000000000 by {
      assert Pow10(4) == 10000 by { assert Pow10(2) == 100; }
      assert Pow10(6) == 1000000;
    }
  }

  /**
   * Across the two widths the earlier file sorts first exactly if its eight date digits are below the later file's
   * first eight.
   */
  lemma FiveDigitYears(a: Civil, b: Civil, s: string, t: string)
    requires Printable(a) && Printable(b) && a.year < 10000 <= b.year
    ensures Before(a, b) && (Less(FileName(a, s), FileName(b, t)) <==> DateNumber(a) < DateNumber(b) / 10)
  {
    var after, later := TimePart(a) + ("_" + s + ".json"), "T" + (TimePart(b) + ("_" + t + ".json"));
    hide FileName, TimePart, DateNumber;
    NameStartsWithDate(a, s);
    NameStartsWithDate(b, t);
    DateFits(a);
    DateFits(b);
    var n := DateNumber(b);
    var last := [(48 + n % 10) as char];
    assert Digits(n, 9) + later == Digits(n / 10, 8) + (last + later);
    FieldOrder(DateNumber(a), n / 10, 8, "T" + after, last + later);
    assert !Less("T" + after, last + later);
  }

  /** So the last file of year 9999 sorts after the first of year 10000. */
  lemma YearTenThousandSortsFirst(s: string, t: string)
    ensures var a, b := Civil(9999, 12, 31, 23, 59, 59), Civil(10000, 1, 1, 0, 0, 0);
            Before(a, b) && Less(FileName(b, t), FileName(a, s))
  {
    var a, b := Civil(9999, 12, 31, 23, 59, 59), Civil(10000, 1, 1, 0, 0, 0);
    hide FileName;
    FiveDigitYears(a, b, s, t);
    assert FileName(a, s)[0] == '9' && FileName(b, t)[0] == '1';
    Connected(FileName(a, s), FileName(b, t));
  }
}
