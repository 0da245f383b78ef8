/**
 * The spending report of pkg/notifications (notification.go): the notify
 * hour check, when the next report is due, the month total, the per
 * category totals, and the text of the report.
 *
 * Time is an integer count of nanoseconds on a local clock without
 * daylight-saving changes, counted from a midnight, so every day is
 * exactly 24 hours long. The Pushover request and the waiting are not
 * modelled; what the send call answered is an input.
 */
module Notifications {

  import opened Wrappers
  import opened Models
  import opened Text
  import opened Storage

  // ---------------------------------------------------------------------
  // Configuration

  /** The notifier's settings that the report logic reads. */
  datatype Notifier = Notifier(categories: seq<string>, notifyHour: int)

  /** The fatal message of an out-of-range hour; the format's `%d` has no argument. */
  const HourError := "notify hour %!d(MISSING) inavlid - must be between 0 and 23"

  /** `NewNotifier`: the notify hour must be a clock hour; otherwise the program exits with `HourError`. */
  function NewNotifier(categories: seq<string>, notifyHour: int): (r: Result<Notifier, string>)
    ensures r.Ok? <==> 0 <= notifyHour <= 23
    ensures r.Ok? ==> r.value.categories == categories && r.value.notifyHour == notifyHour
    ensures r.Err? ==> r.error == HourError
  {
    if notifyHour < 0 || notifyHour > 23 then Err(HourError)
    else Ok(Notifier(categories, notifyHour))
  }

  // ---------------------------------------------------------------------
  // When the report is due

  const Second: int := 1_000_000_000
  const Hour: int := 3600 * Second
  const Day: int := 24 * Hour

  /** The midnight that starts the day of `now`. */
  function Midnight(now: int): int
  {
    now - now % Day
  }

  /**
   * The loop of `Run`: today at `hour`:00:00, or the same time tomorrow
   * when `now` is already past it.
   */
  function NotifyTime(now: int, hour: int): int
  {
    var today := Midnight(now) + hour * Hour;
    if now > today then today + Day else today
  }

  /** An instant splits into whole days and a time of day. */
  lemma DayParts(k: int, r: int)
    requires 0 <= r < Day
    ensures (k * Day + r) % Day == r && Midnight(k * Day + r) == k * Day
  {
    var x := k * Day + r;
    var q := x / Day;
    assert x == q * Day + x % Day;
    assert (q - k) * Day == r - x % Day;
  }

  /** The report is due within the next 24 hours, at the configured hour. */
  lemma NotifyTimeWithinDay(now: int, hour: int)
    requires 0 <= hour <= 23
    ensures now <= NotifyTime(now, hour) < now + Day
    ensures NotifyTime(now, hour) % Day == hour * Hour
  {
    var k := now / Day;
    DayParts(k, now % Day);
    DayParts(k, hour * Hour);
    DayParts(k + 1, hour * Hour);
    assert (k + 1) * Day == k * Day + Day;
  }

  /** ... and it is the first such instant from `now` on. */
  lemma NotifyTimeIsNext(now: int, hour: int, u: int)
    requires 0 <= hour <= 23
    requires now <= u && u % Day == hour * Hour
    ensures NotifyTime(now, hour) <= u
  {
    NotifyTimeWithinDay(now, hour);
    var t := NotifyTime(now, hour);
    DayParts(t / Day, hour * Hour);
    DayParts(u / Day, hour * Hour);
    assert t - u == (t / Day - u / Day) * Day;
  }

  /** With the hour at 8: at 07:00 the report is due at 08:00 the same day, at 08:00 right away, at 09:00 the next day. */
  lemma NotifyTimeExamples(days: int)
    ensures NotifyTime(days * Day + 7 * Hour, 8) == days * Day + 8 * Hour
    ensures NotifyTime(days * Day + 8 * Hour, 8) == days * Day + 8 * Hour
    ensures NotifyTime(days * Day + 9 * Hour, 8) == (days + 1) * Day + 8 * Hour
  {
    DayParts(days, 7 * Hour);
    DayParts(days, 8 * Hour);
    DayParts(days, 9 * Hour);
  }

  // ---------------------------------------------------------------------
  // Totals

  /** The NOK of all purchases. */
  function Sum(ps: seq<Purchase>): int
    decreases |ps|
  {
    if ps == [] then 0 else Sum(ps[..|ps| - 1]) + ps[|ps| - 1].nok
  }

  /** The NOK of the purchases of category `c`. */
  function CategorySum(c: string, ps: seq<Purchase>): int
    decreases |ps|
  {
    if ps == [] then 0
    else
      var last := ps[|ps| - 1];
      CategorySum(c, ps[..|ps| - 1]) + (if last.category == c then last.nok else 0)
  }

  /** One total per configured category. */
  function Totals(categories: seq<string>, ps: seq<Purchase>): map<string, int>
  {
    map c | c in categories :: CategorySum(c, ps)
  }

  /** The total loop of `report`. */
  method MonthTotal(ps: seq<Purchase>) returns (total: int)
    ensures total == Sum(ps)
  {
    total := 0;
    for i := 0 to |ps|
      invariant total == Sum(ps[..i])
    {
      assert ps[..i + 1][..i] == ps[..i];
      total := total + ps[i].nok;
    }
    assert ps[..|ps|] == ps;
  }

  /**
   * `categoryTotals`: a zero for every configured category, then each
   * purchase of a configured category added to its total; other purchases
   * are skipped.
   */
  method CategoryTotals(categories: seq<string>, ps: seq<Purchase>) returns (results: map<string, int>)
    ensures results.Keys == set c | c in categories
    ensures forall c :: c in results ==> results[c] == CategorySum(c, ps)
  {
    results := map[];
    for i := 0 to |categories|
      invariant results.Keys == set c | c in categories[..i]
      invariant forall c :: c in results ==> results[c] == 0
    {
      assert categories[..i + 1] == categories[..i] + [categories[i]];
      results := results[categories[i] := 0];
    }
    assert categories[..|categories|] == categories;
    ghost var keys := results.Keys;
    for j := 0 to |ps|
      invariant results.Keys == keys
      invariant forall c :: c in results ==> results[c] == CategorySum(c, ps[..j])
    {
      assert ps[..j + 1][..j] == ps[..j];
      var p := ps[j];
      if p.category !in results {
        continue;
      }
      results := results[p.category := results[p.category] + p.nok];
    }
    assert ps[..|ps|] == ps;
  }

  // ---------------------------------------------------------------------
  // Key order: text/template ranges over a map in sorted key order

  /** `a` sorts before or equal to `b`, comparing character by character. */
  predicate Precedes(a: string, b: string)
    decreases |a|
  {
    if a == [] then true
    else if b == [] then false
    else if a[0] != b[0] then a[0] < b[0]
    else Precedes(a[1..], b[1..])
  }

  predicate IsLeast(m: string, s: set<string>)
  {
    m in s && forall x :: x in s ==> Precedes(m, x)
  }

  predicate Increasing(r: seq<string>)
  {
    forall i, j :: 0 <= i < j < |r| ==> Precedes(r[i], r[j]) && r[i] != r[j]
  }

  /** The keys of a map in the order the template visits them. */
  function SortedKeys(s: set<string>): (r: seq<string>)
    ensures |r| == |s| && Increasing(r)
    ensures forall k :: k in s <==> k in r
    decreases |s|
  {
    if s == {} then []
    else
      LeastExists(s);
      PrecedesAntisymmetric();
      var m :| m in s && IsLeast(m, s);
      var rest := SortedKeys(s - {m});
      LeastFirst(m, s, rest);
      [m] + rest
  }

  /** The least key followed by the others in order is the keys in order. */
  lemma LeastFirst(m: string, s: set<string>, rest: seq<string>)
    requires IsLeast(m, s) && Increasing(rest) && |rest| == |s - {m}|
    requires forall k :: k in s - {m} <==> k in rest
    ensures |[m] + rest| == |s| && Increasing([m] + rest)
    ensures forall k :: k in s <==> k in [m] + rest
  {
    var r := [m] + rest;
    assert |s - {m}| == |s| - 1;
    forall i, j | 0 <= i < j < |r| ensures Precedes(r[i], r[j]) && r[i] != r[j] {
      if i == 0 {
        assert r[j] == rest[j - 1] && r[j] in s - {m};
      } else {
        assert r[i] == rest[i - 1] && r[j] == rest[j - 1];
      }
    }
  }

  // ---------------------------------------------------------------------
  // The report text

  const Categories := "spending in categories:"

  function Heading(month: int, total: int): string
  {
    "Spending so far in " + MonthName(month) + ": " + IntString(total) + " NOK"
  }

  function CategoryLine(k: string, v: int): string
  {
    k + ": " + IntString(v) + " NOK"
  }

  /** The range part of the template: each line after a newline (the newline that follows it is trimmed). */
  function NewlineEach(lines: seq<string>): string
  {
    if lines == [] then "" else "\n" + lines[0] + NewlineEach(lines[1..])
  }

  /**
   * `templateReport`'s output. The template is a constant and the output
   * goes to a memory buffer, so neither of its error returns can happen.
   */
  function TemplateReport(month: int, total: int, m: map<string, int>): string
  {
    Heading(month, total) + "\n" + Categories + NewlineEach(CategoryLines(SortedKeys(m.Keys), m))
  }

  function CategoryLines(keys: seq<string>, m: map<string, int>): seq<string>
    requires forall i :: 0 <= i < |keys| ==> keys[i] in m
  {
    seq(|keys|, i requires 0 <= i < |keys| => CategoryLine(keys[i], m[keys[i]]))
  }

  /** The report's lines: the heading, the categories title, then a line per key in sorted order. */
  function ReportLines(month: int, total: int, m: map<string, int>): seq<string>
  {
    [Heading(month, total), Categories] + CategoryLines(SortedKeys(m.Keys), m)
  }

  /** Cutting a text at its newlines. */
  function Lines(s: string): (r: seq<string>)
    ensures |r| >= 1
    decreases |s|
  {
    if s == [] then [""]
    else
      var rest := Lines(s[1..]);
      if s[0] == '\n' then [""] + rest else [[s[0]] + rest[0]] + rest[1..]
  }

  /** `report`: the month's purchases, their totals, the text, and the send. */
  method Report(store: Store, today: Date, n: Notifier, db: Outcome<string>, send: Outcome<string>)
    returns (r: Outcome<string>, message: Option<string>, ghost rows: seq<Purchase>)
    ensures db.Fail? ==> r == Fail("getting purchases from storage: " + db.error) && message == None
    ensures db.Pass? ==> Lists(rows, store.table, MonthIds(store.table, today), true)
    ensures db.Pass? ==> message == Some(TemplateReport(today.month, Sum(rows), Totals(n.categories, rows)))
    ensures db.Pass? && send.Fail? ==> r == Fail("sending message: " + send.error)
    ensures db.Pass? && send.Pass? ==> r == Pass
  {
    var purchases := store.GetPurchases(today, db);
    if purchases.Err? {
      var err := if purchases.error.DbError? then purchases.error.msg else "";
      return Fail("getting purchases from storage: " + err), None, [];
    }
    var ps := purchases.value;
    rows := ps;
    var total := MonthTotal(ps);
    var totals := CategoryTotals(n.categories, ps);
    assert totals == Totals(n.categories, ps);
    var msg := TemplateReport(today.month, total, totals);
    message := Some(msg);
    if send.Fail? {
      return Fail("sending message: " + send.error), message, rows;
    }
    r := Pass;
  }

  // ---------------------------------------------------------------------
  // Lemmas: order

  lemma {:induction false} PrecedesTotal(a: string, b: string)
    ensures Precedes(a, b) || Precedes(b, a)
    decreases |a|
  {
    if a != [] && b != [] && a[0] == b[0] {
      PrecedesTotal(a[1..], b[1..]);
    }
  }

  lemma {:induction false} PrecedesAntisym(a: string, b: string)
    requires Precedes(a, b) && Precedes(b, a)
    ensures a == b
    decreases |a|
  {
    if a != [] {
      PrecedesAntisym(a[1..], b[1..]);
      assert a == [a[0]] + a[1..] && b == [b[0]] + b[1..];
    }
  }

  lemma PrecedesAntisymmetric()
    ensures forall a, b :: Precedes(a, b) && Precedes(b, a) ==> a == b
  {
    forall a, b | Precedes(a, b) && Precedes(b, a) ensures a == b {
      PrecedesAntisym(a, b);
    }
  }

  lemma {:induction false} PrecedesTrans(a: string, b: string, c: string)
    requires Precedes(a, b) && Precedes(b, c)
    ensures Precedes(a, c)
    decreases |a|
  {
    if a != [] && a[0] == b[0] && b[0] == c[0] {
      PrecedesTrans(a[1..], b[1..], c[1..]);
    }
  }

  lemma {:induction false} LeastExists(s: set<string>)
    requires s != {}
    ensures exists m :: IsLeast(m, s)
    decreases |s|
  {
    var x :| x in s;
    if s == {x} {
      assert Precedes(x, x) by { PrecedesRefl(x); }
      assert IsLeast(x, s);
    } else {
      var s' := s - {x};
      LeastExists(s');
      var m' :| IsLeast(m', s');
      PrecedesTotal(x, m');
      if Precedes(x, m') {
        forall y | y in s ensures Precedes(x, y) {
          if y == x { PrecedesRefl(x); } else { PrecedesTrans(x, m', y); }
        }
        assert IsLeast(x, s);
      } else {
        assert IsLeast(m', s);
      }
    }
  }

  lemma {:induction false} PrecedesRefl(a: string)
    ensures Precedes(a, a)
    decreases |a|
  {
    if a != [] {
      PrecedesRefl(a[1..]);
    }
  }

  // ---------------------------------------------------------------------
  // Lemmas: totals

  lemma {:induction false} SumAppend(a: seq<Purchase>, b: seq<Purchase>)
    ensures Sum(a + b) == Sum(a) + Sum(b)
    decreases |b|
  {
    if b == [] {
      assert a + b == a;
    } else {
      var b' := b[..|b| - 1];
      assert (a + b)[..|a + b| - 1] == a + b';
      assert (a + b)[|a + b| - 1] == b[|b| - 1];
      SumAppend(a, b');
    }
  }

  /** The month total does not depend on the order of the purchases. */
  lemma {:induction false} SumPermutation(a: seq<Purchase>, b: seq<Purchase>)
    requires multiset(a) == multiset(b)
    ensures Sum(a) == Sum(b)
    decreases |a|
  {
    if a == [] {
      assert |b| == |multiset(b)| == 0;
    } else {
      var n := |a| - 1;
      var x := a[n];
      assert x in multiset(a);
      var k :| 0 <= k < |b| && b[k] == x;
      var b' := b[..k] + b[k + 1..];
      MultisetRemove(a, n);
      MultisetRemove(b, k);
      assert a[..n] + a[n + 1..] == a[..n];
      SumPermutation(a[..n], b');
      SumRemove(b, k);
    }
  }

  lemma MultisetRemove(b: seq<Purchase>, k: nat)
    requires k < |b|
    ensures multiset(b[..k] + b[k + 1..]) == multiset(b) - multiset{b[k]}
  {
    SplitAt(b, k);
  }

  lemma SplitAt<T>(b: seq<T>, k: nat)
    requires k < |b|
    ensures b == b[..k] + [b[k]] + b[k + 1..]
  {
  }

  /** Taking one purchase out of a list takes its NOK out of the sum. */
  lemma SumRemove(b: seq<Purchase>, k: nat)
    requires k < |b|
    ensures Sum(b) == Sum(b[..k] + b[k + 1..]) + b[k].nok
  {
    var x, l, r := b[k], b[..k], b[k + 1..];
    SplitAt(b, k);
    SumAppend(l + [x], r);
    SumAppend(l, [x]);
    SumAppend(l, r);
    SumOne(x);
  }

  lemma SumOne(x: Purchase)
    ensures Sum([x]) == x.nok
  {
    assert [x][..0] == [];
  }

  /** The purchases of category `c`, in order. */
  function OfCategory(c: string, ps: seq<Purchase>): seq<Purchase>
    decreases |ps|
  {
    if ps == [] then []
    else
      var init := OfCategory(c, ps[..|ps| - 1]);
      if ps[|ps| - 1].category == c then init + [ps[|ps| - 1]] else init
  }

  /** A category's total is the month total of that category's purchases. */
  lemma {:induction false} CategorySumOfCategory(c: string, ps: seq<Purchase>)
    ensures CategorySum(c, ps) == Sum(OfCategory(c, ps))
    ensures forall p :: multiset(OfCategory(c, ps))[p] == (if p.category == c then multiset(ps)[p] else 0)
    decreases |ps|
  {
    if ps != [] {
      var n := |ps| - 1;
      CategorySumOfCategory(c, ps[..n]);
      assert ps == ps[..n] + [ps[n]];
      var init := OfCategory(c, ps[..n]);
      if ps[n].category == c {
        SumAppend(init, [ps[n]]);
        assert Sum([ps[n]]) == ps[n].nok by { assert [ps[n]][..0] == []; }
      }
    }
  }

  /** A category's total does not depend on the order of the purchases either. */
  lemma CategorySumPermutation(c: string, a: seq<Purchase>, b: seq<Purchase>)
    requires multiset(a) == multiset(b)
    ensures CategorySum(c, a) == CategorySum(c, b)
  {
    CategorySumOfCategory(c, a);
    CategorySumOfCategory(c, b);
    assert multiset(OfCategory(c, a)) == multiset(OfCategory(c, b));
    SumPermutation(OfCategory(c, a), OfCategory(c, b));
  }

  /** A purchase of a category that is not configured changes no total. */
  lemma UnconfiguredIgnored(categories: seq<string>, ps: seq<Purchase>, p: Purchase)
    requires p.category !in categories
    ensures Totals(categories, ps + [p]) == Totals(categories, ps)
  {
    var qs := ps + [p];
    assert qs[..|ps|] == ps && qs[|ps|] == p;
    forall c | c in categories ensures CategorySum(c, qs) == CategorySum(c, ps) {
    }
  }

  /** A purchase of a configured category adds its NOK to that category's total and to no other. */
  lemma ConfiguredAdds(categories: seq<string>, ps: seq<Purchase>, p: Purchase)
    requires p.category in categories
    ensures Totals(categories, ps + [p]).Keys == Totals(categories, ps).Keys
    ensures forall c :: c in categories ==>
      Totals(categories, ps + [p])[c] == Totals(categories, ps)[c] + (if c == p.category then p.nok else 0)
  {
    var qs := ps + [p];
    assert qs[..|ps|] == ps && qs[|ps|] == p;
  }

  /** Purchases listed without repeating an id appear once each. */
  lemma {:induction false} DistinctOnce(ps: seq<Purchase>)
    requires forall i, j :: 0 <= i < j < |ps| ==> ps[i].id != ps[j].id
    ensures forall p :: multiset(ps)[p] == if p in ps then 1 else 0
    decreases |ps|
  {
    if ps != [] {
      var n := |ps| - 1;
      DistinctOnce(ps[..n]);
      assert ps == ps[..n] + [ps[n]];
      assert ps[n] !in ps[..n] by {
        forall i | 0 <= i < n ensures ps[..n][i] != ps[n] {
          assert ps[..n][i].id == ps[i].id != ps[n].id;
        }
      }
    }
  }

  /** A purchase in one listing of the rows is in any other listing of them. */
  lemma ListedInBoth(a: seq<Purchase>, b: seq<Purchase>, t: Table, ids: set<string>, withMonthNum: bool, p: Purchase)
    requires Lists(a, t, ids, withMonthNum) && Lists(b, t, ids, withMonthNum)
    requires p in a
    ensures p in b
  {
    var i :| 0 <= i < |a| && a[i] == p;
    assert p.id in ids;
    var j :| 0 <= j < |b| && b[j].id == p.id;
    assert b[j] == FromRow(p.id, t[p.id], withMonthNum) == p;
  }

  /** Two listings of the same rows hold the same purchases, whatever their order. */
  lemma ListingsAgree(a: seq<Purchase>, b: seq<Purchase>, t: Table, ids: set<string>, withMonthNum: bool)
    requires Lists(a, t, ids, withMonthNum) && Lists(b, t, ids, withMonthNum)
    ensures multiset(a) == multiset(b)
  {
    DistinctOnce(a);
    DistinctOnce(b);
    forall p ensures multiset(a)[p] == multiset(b)[p] {
      if p in a {
        ListedInBoth(a, b, t, ids, withMonthNum, p);
      }
      if p in b {
        ListedInBoth(b, a, t, ids, withMonthNum, p);
      }
    }
  }

  /** The report does not depend on the order in which the database returns the month's rows. */
  lemma ReportIndependentOfOrder(
    a: seq<Purchase>, b: seq<Purchase>, t: Table, month: Date, categories: seq<string>)
    requires Lists(a, t, MonthIds(t, month), true) && Lists(b, t, MonthIds(t, month), true)
    ensures TemplateReport(month.month, Sum(a), Totals(categories, a))
         == TemplateReport(month.month, Sum(b), Totals(categories, b))
  {
    ListingsAgree(a, b, t, MonthIds(t, month), true);
    SumPermutation(a, b);
    forall c | c in categories ensures CategorySum(c, a) == CategorySum(c, b) {
      CategorySumPermutation(c, a, b);
    }
    assert Totals(categories, a) == Totals(categories, b);
  }

  // ---------------------------------------------------------------------
  // Lemmas: layout

  predicate OneLine(s: string)
  {
    '\n' !in s
  }

  lemma {:induction false} LinesCons(a: string, rest: string)
    requires OneLine(a)
    ensures Lines(a + "\n" + rest) == [a] + Lines(rest)
    decreases |a|
  {
    var s := a + "\n" + rest;
    if a == [] {
      assert s == "\n" + rest && s[1..] == rest;
    } else {
      assert s[1..] == a[1..] + "\n" + rest;
      LinesCons(a[1..], rest);
      assert [a[0]] + a[1..] == a;
    }
  }

  lemma {:induction false} LinesOne(a: string)
    requires OneLine(a)
    ensures Lines(a) == [a]
    decreases |a|
  {
    if a != [] {
      LinesOne(a[1..]);
      assert [a[0]] + a[1..] == a;
    }
  }

  /** Lines joined with newlines are cut back into the same lines. */
  lemma {:induction false} LinesJoin(ss: seq<string>)
    requires |ss| >= 1 && forall i :: 0 <= i < |ss| ==> OneLine(ss[i])
    ensures Lines(Join(ss, "\n")) == ss
    decreases |ss|
  {
    if |ss| == 1 {
      LinesOne(ss[0]);
    } else {
      LinesJoin(ss[1..]);
      LinesCons(ss[0], Join(ss[1..], "\n"));
      assert [ss[0]] + ss[1..] == ss;
    }
  }

  lemma JoinStep(x: string, ss: seq<string>, sep: string)
    requires |ss| >= 1
    ensures Join([x] + ss, sep) == x + sep + Join(ss, sep)
  {
    assert ([x] + ss)[1..] == ss;
  }

  lemma {:induction false} NewlineEachJoin(x: string, lines: seq<string>)
    ensures x + NewlineEach(lines) == Join([x] + lines, "\n")
    decreases |lines|
  {
    if lines == [] {
      assert [x] + lines == [x];
    } else {
      var r' := NewlineEach(lines[1..]);
      NewlineEachJoin(lines[0], lines[1..]);
      assert [lines[0]] + lines[1..] == lines;
      JoinStep(x, lines, "\n");
      assert x + ("\n" + lines[0] + r') == x + "\n" + (lines[0] + r');
    }
  }

  lemma IntStringOneLine(n: int)
    ensures OneLine(IntString(n))
  {
    var digits := NatString(if n < 0 then -n else n);
    assert AllDigits(digits);
    assert IntString(n) == (if n < 0 then "-" else "") + digits;
  }

  lemma MonthNameOneLine(m: int)
    ensures OneLine(MonthName(m))
  {
    if !(1 <= m <= 12) {
      var digits := NatString(m % 0x1_0000_0000_0000_0000);
      assert AllDigits(digits);
    }
  }

  lemma HeadJoin(head: string, lines: seq<string>)
    ensures head + "\n" + Categories + NewlineEach(lines) == Join([head, Categories] + lines, "\n")
  {
    var tail := [Categories] + lines;
    NewlineEachJoin(Categories, lines);
    JoinStep(head, tail, "\n");
    assert [head, Categories] + lines == [head] + tail;
    assert head + "\n" + Categories + NewlineEach(lines) == head + "\n" + (Categories + NewlineEach(lines));
  }

  lemma TemplateReportIsJoin(month: int, total: int, m: map<string, int>)
    ensures TemplateReport(month, total, m) == Join(ReportLines(month, total, m), "\n")
  {
    HeadJoin(Heading(month, total), CategoryLines(SortedKeys(m.Keys), m));
  }

  lemma CategoryLinesOneLine(keys: seq<string>, m: map<string, int>)
    requires forall i :: 0 <= i < |keys| ==> keys[i] in m && OneLine(keys[i])
    ensures forall i :: 0 <= i < |keys| ==> OneLine(CategoryLines(keys, m)[i])
  {
    forall i | 0 <= i < |keys| ensures OneLine(CategoryLines(keys, m)[i]) {
      var k := keys[i];
      IntStringOneLine(m[k]);
      var line := k + ": " + IntString(m[k]) + " NOK";
      assert CategoryLines(keys, m)[i] == line;
      assert forall c :: c in line ==> c in k || c in ": " || c in IntString(m[k]) || c in " NOK";
    }
  }

  lemma HeadingOneLine(month: int, total: int)
    ensures OneLine(Heading(month, total))
  {
    IntStringOneLine(total);
    MonthNameOneLine(month);
    var h := "Spending so far in " + MonthName(month) + ": " + IntString(total) + " NOK";
    assert forall c :: c in h ==> c in "Spending so far in " || c in MonthName(month) || c in ": " || c in IntString(total) || c in " NOK";
  }

  lemma ReportLinesOneLine(month: int, total: int, m: map<string, int>)
    requires forall k :: k in m ==> OneLine(k)
    ensures forall i :: 0 <= i < |ReportLines(month, total, m)| ==> OneLine(ReportLines(month, total, m)[i])
  {
    var keys := SortedKeys(m.Keys);
    CategoryLinesOneLine(keys, m);
    HeadingOneLine(month, total);
    assert OneLine(Categories);
    PrependOneLine(Heading(month, total), Categories, CategoryLines(keys, m));
  }

  lemma PrependOneLine(h: string, c: string, cl: seq<string>)
    requires OneLine(h) && OneLine(c) && forall i :: 0 <= i < |cl| ==> OneLine(cl[i])
    ensures forall i :: 0 <= i < |[h, c] + cl| ==> OneLine(([h, c] + cl)[i])
  {
    var lines := [h, c] + cl;
    forall i | 0 <= i < |lines| ensures OneLine(lines[i]) {
      if i >= 2 {
        assert lines[i] == cl[i - 2];
      }
    }
  }

  /**
   * The layout of the report: cut at its newlines it is the heading with
   * the month and the total, the categories title, and one `<k>: <v> NOK`
   * line per category in sorted key order (when no category holds a
   * newline).
   */
  lemma TemplateReportLayout(month: int, total: int, m: map<string, int>)
    requires forall k :: k in m ==> OneLine(k)
    ensures Lines(TemplateReport(month, total, m)) == ReportLines(month, total, m)
  {
    TemplateReportIsJoin(month, total, m);
    ReportLinesOneLine(month, total, m);
    LinesJoin(ReportLines(month, total, m));
  }
}
