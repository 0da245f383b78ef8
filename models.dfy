/**
 * The value records shared by the whole program (pkg/models/model.go):
 * a calendar `Date`, a stored `Purchase`, and the `Date` helpers used to
 * label months and to step from one month to the next.
 */
module Models {

  import opened Wrappers
  import opened Text

  /**
   * A calendar date. `month` is Go's `time.Month`, an integer that is
   * 1..12 for real months; `monthNum` is the plain-int copy the program
   * keeps beside it. `day` 0 is how the program denotes "the whole month".
   */
  datatype Date = Date(year: int, month: int, monthNum: int, day: int)

  /** One card purchase; `nok` is the amount in whole kroner. */
  datatype Purchase = Purchase(
    date: Date,
    id: string,
    nok: int,
    account: string,
    category: string,
    location: string,
    vendor: string)

  const MonthNames: seq<string> := [
    "January", "February", "March", "April", "May", "June",
    "July", "August", "September", "October", "November", "December"]

  /**
   * `time.Month.String`: the English name of months 1..12, and
   * `%!Month(<n>)` otherwise, where `n` is the month converted to uint64.
   */
  function MonthName(m: int): string
  {
    if 1 <= m <= 12 then MonthNames[m - 1]
    else "%!Month(" + NatString(m % 0x1_0000_0000_0000_0000) + ")"
  }

  /** `Date.String`: "February 2024" for a whole month, "5 February, 2024" for a day. */
  function DateString(d: Date): string
  {
    if d.day == 0 then MonthName(d.month) + " " + PadInt(d.year, 4)
    else IntString(d.day) + " " + MonthName(d.month) + ", " + PadInt(d.year, 4)
  }

  /** `Date.Stamp`: the `YYYY-MM-DD` text the store puts in its SQL. */
  function Stamp(d: Date): string
  {
    PadInt(d.year, 4) + "-" + PadInt(d.month, 2) + "-" + PadInt(d.day, 2)
  }

  /** `Date.AddMonth`: the same day one month later. */
  function AddMonth(d: Date): (r: Date)
    ensures r.day == d.day && r.monthNum == r.month
    ensures 1 <= d.month <= 12 ==> 1 <= r.month <= 12
  {
    if d.month == 12 then Date(d.year + 1, 1, 1, d.day)
    else Date(d.year, d.month + 1, d.month + 1, d.day)
  }

  /** `Date.SubMonth`: the same day one month earlier. */
  function SubMonth(d: Date): (r: Date)
    ensures r.day == d.day && r.monthNum == r.month
    ensures 1 <= d.month <= 12 ==> 1 <= r.month <= 12
  {
    if d.month == 1 then Date(d.year - 1, 12, 12, d.day)
    else Date(d.year, d.month - 1, d.month - 1, d.day)
  }

  /** A well-formed month: a real month whose plain-int copy agrees. */
  predicate WellFormed(d: Date)
  {
    1 <= d.month <= 12 && d.monthNum == d.month
  }

  /** The number of months from January of year 0 to the month of `d`. */
  function MonthIndex(d: Date): int
  {
    d.year * 12 + (d.month - 1)
  }

  /** Reads `YYYY-MM-DD` (each part a run of digits) back into its three numbers. */
  function ParseStamp(s: string): Option<(nat, nat, nat)>
  {
    match ReadNat(s)
    case None => None
    case Some((y, r1)) =>
      if |r1| == 0 || r1[0] != '-' then None
      else
        match ReadNat(r1[1..])
        case None => None
        case Some((m, r2)) =>
          if |r2| == 0 || r2[0] != '-' then None
          else
            match ReadNat(r2[1..])
            case None => None
            case Some((dd, r3)) => if r3 == [] then Some((y, m, dd)) else None
  }

  // ---------------------------------------------------------------------
  // Lemmas

  /** `AddMonth` moves to the next month in the calendar, wrapping December to January. */
  lemma AddMonthIsNextMonth(d: Date)
    requires 1 <= d.month <= 12
    ensures MonthIndex(AddMonth(d)) == MonthIndex(d) + 1
    ensures d.month == 12 <==> AddMonth(d).year == d.year + 1
    ensures d.month != 12 <==> AddMonth(d).year == d.year
  {
  }

  /** `SubMonth` moves to the previous month, wrapping January to December. */
  lemma SubMonthIsPreviousMonth(d: Date)
    requires 1 <= d.month <= 12
    ensures MonthIndex(SubMonth(d)) == MonthIndex(d) - 1
    ensures d.month == 1 <==> SubMonth(d).year == d.year - 1
    ensures d.month != 1 <==> SubMonth(d).year == d.year
  {
  }

  /** Stepping forward and back are inverse on well-formed dates. */
  lemma AddSubInverse(d: Date)
    requires WellFormed(d)
    ensures SubMonth(AddMonth(d)) == d
    ensures AddMonth(SubMonth(d)) == d
  {
  }

  /** A stamp of a four-digit year, two-digit month and two-digit day is ten characters long. */
  lemma StampLength(d: Date)
    requires 0 <= d.year <= 9999 && 0 <= d.month <= 99 && 0 <= d.day <= 99
    ensures |Stamp(d)| == 10
  {
    PadNatFacts(d.year, 4);
    PadNatFacts(d.month, 2);
    PadNatFacts(d.day, 2);
  }

  /** A stamp holds only digits and '-' (the separators, and the sign of a negative part): never a quote. */
  lemma StampHasNoQuote(d: Date)
    ensures '\'' !in Stamp(d)
  {
    var a, b, c := PadInt(d.year, 4), PadInt(d.month, 2), PadInt(d.day, 2);
    NoQuoteInPadInt(d.year, 4);
    NoQuoteInPadInt(d.month, 2);
    NoQuoteInPadInt(d.day, 2);
    var s := Stamp(d);
    assert s == a + "-" + b + "-" + c;
    forall i | 0 <= i < |s| ensures s[i] != '\'' {
      if i < |a| { assert s[i] == a[i]; }
      else if i == |a| { }
      else if i < |a| + 1 + |b| { assert s[i] == b[i - |a| - 1]; }
      else if i == |a| + 1 + |b| { }
      else { assert s[i] == c[i - |a| - |b| - 2]; }
    }
  }

  lemma NoQuoteInPadInt(n: int, w: nat)
    ensures '\'' !in PadInt(n, w)
  {
    var m: nat := if n < 0 then -n else n;
    var p := PadNat(m, if n < 0 then (if w > 0 then w - 1 else 0) else w);
    PadNatDigits(m, if n < 0 then (if w > 0 then w - 1 else 0) else w);
    assert forall i :: 0 <= i < |p| ==> p[i] != '\'';
    if n < 0 {
      assert PadInt(n, w) == "-" + p;
      assert forall i :: 0 < i < |"-" + p| ==> ("-" + p)[i] == p[i - 1];
    }
  }

  /** Reading a stamp back gives the year, month and day it was made from. */
  lemma StampRoundTrip(d: Date)
    requires d.year >= 0 && d.month >= 0 && d.day >= 0
    ensures ParseStamp(Stamp(d)) == Some((d.year, d.month, d.day))
  {
    var a, b, c := PadNat(d.year, 4), PadNat(d.month, 2), PadNat(d.day, 2);
    PadNatDigits(d.year, 4);
    PadNatDigits(d.month, 2);
    PadNatDigits(d.day, 2);
    var r2 := "-" + c;
    var r1 := "-" + (b + r2);
    assert Stamp(d) == (((a + "-") + b) + "-") + c;
    AppendAssoc((a + "-") + b, "-", c);
    AppendAssoc(a + "-", b, r2);
    AppendAssoc(a, "-", b + r2);
    ReadNatOf(a, r1);
    DropPrefix("-", b + r2);
    ReadNatOf(b, r2);
    DropPrefix("-", c);
    assert c + [] == c;
    ReadNatOf(c, []);
    ParseStampOf(a + r1, d.year, r1, b + r2, d.month, r2, c, d.day);
  }

  lemma ParseStampOf(s: string, y: nat, r1: string, t1: string, m: nat, r2: string, t2: string, dd: nat)
    requires ReadNat(s) == Some((y, r1)) && r1 == "-" + t1 && r1[1..] == t1
    requires ReadNat(t1) == Some((m, r2)) && r2 == "-" + t2 && r2[1..] == t2
    requires ReadNat(t2) == Some((dd, []))
    ensures ParseStamp(s) == Some((y, m, dd))
  {
  }

  /** The names of months 1..12 are pairwise distinct. */
  lemma MonthNamesDistinct(m1: int, m2: int)
    requires 1 <= m1 <= 12 && 1 <= m2 <= 12
    requires MonthName(m1) == MonthName(m2)
    ensures m1 == m2
  {
  }

  /** A month heading ("February 2024") names exactly one month of a four-digit year. */
  lemma MonthHeadingInjective(a: Date, b: Date)
    requires a.day == 0 && b.day == 0
    requires 1 <= a.month <= 12 && 1 <= b.month <= 12
    requires 0 <= a.year <= 9999 && 0 <= b.year <= 9999
    requires DateString(a) == DateString(b)
    ensures a.year == b.year && a.month == b.month
  {
    var ya, yb := PadNat(a.year, 4), PadNat(b.year, 4);
    PadNatFacts(a.year, 4);
    PadNatFacts(b.year, 4);
    var s := DateString(a);
    var na, nb := MonthName(a.month), MonthName(b.month);
    assert s == na + " " + ya;
    assert s == nb + " " + yb;
    assert s[|s| - 4..] == ya;
    assert s[|s| - 4..] == yb;
    assert s[..|s| - 5] == na;
    assert s[..|s| - 5] == nb;
    MonthNamesDistinct(a.month, b.month);
  }
}
