/**
 * The text of the bulk insert that the store sends to the database: the
 * quote-doubling `sanitize` helper and the VALUES list, in the form of
 * pkg/storage/purchase.go (fields sanitized, tuples separated by ",\n")
 * and of the older storage.go (fields verbatim, tuples separated by ", ").
 *
 * A reader for the VALUES text, following SQL's rule that `''` inside a
 * quoted literal stands for one quote, shows what the database gets out of
 * that text: with sanitizing, exactly the columns of every purchase in
 * order; without it, two different purchases can produce the same text.
 */
module SqlText {

  import opened Wrappers
  import opened Text
  import opened Models

  function QuoteCount(s: string): nat
  {
    if s == [] then 0 else (if s[0] == '\'' then 1 else 0) + QuoteCount(s[1..])
  }

  /** `sanitize`: `strings.Replace(s, "'", "''", -1)`. */
  function Sanitize(s: string): (r: string)
    ensures |r| == |s| + QuoteCount(s)
  {
    if s == [] then [] else (if s[0] == '\'' then "''" else [s[0]]) + Sanitize(s[1..])
  }

  /** Collapses every `''` to `'`, reading from the left. */
  function Collapse(s: string): string
    decreases |s|
  {
    if s == [] then []
    else if |s| >= 2 && s[0] == '\'' && s[1] == '\'' then "'" + Collapse(s[2..])
    else [s[0]] + Collapse(s[1..])
  }

  /** One value of a VALUES tuple: interpolated as `'%s'` or as `%d`. */
  datatype Field = Quoted(text: string) | Number(n: int)

  function FieldText(f: Field): string
  {
    match f
    case Quoted(t) => "'" + t + "'"
    case Number(n) => IntString(n)
  }

  /** The fields separated by ", ", as the tuple format string lays them out. */
  function FieldsText(fs: seq<Field>): string
  {
    if fs == [] then ""
    else if |fs| == 1 then FieldText(fs[0])
    else FieldText(fs[0]) + ", " + FieldsText(fs[1..])
  }

  function TupleText(fs: seq<Field>): string
  {
    "(" + FieldsText(fs) + ")"
  }

  /** The seven columns of a purchase in table order, with their values as they are. */
  function Columns(p: Purchase): seq<Field>
  {
    [Quoted(p.id), Quoted(Stamp(p.date)), Number(p.nok), Quoted(p.account),
     Quoted(p.category), Quoted(p.location), Quoted(p.vendor)]
  }

  /** The columns as pkg/storage/purchase.go interpolates them: strings sanitized, the stamp as is. */
  function SanitizedColumns(p: Purchase): seq<Field>
  {
    [Quoted(Sanitize(p.id)), Quoted(Stamp(p.date)), Number(p.nok), Quoted(Sanitize(p.account)),
     Quoted(Sanitize(p.category)), Quoted(Sanitize(p.location)), Quoted(Sanitize(p.vendor))]
  }

  function SanitizedTuples(px: seq<Purchase>): seq<string>
  {
    seq(|px|, i requires 0 <= i < |px| => TupleText(SanitizedColumns(px[i])))
  }

  function VerbatimTuples(px: seq<Purchase>): seq<string>
  {
    seq(|px|, i requires 0 <= i < |px| => TupleText(Columns(px[i])))
  }

  const Separator := ",\n"
  const LegacySeparator := ", "

  /** The VALUES list of pkg/storage/purchase.go. */
  function ValuesList(px: seq<Purchase>): string
  {
    Join(SanitizedTuples(px), Separator)
  }

  /** The VALUES list of the older storage.go. */
  function LegacyValuesList(px: seq<Purchase>): string
  {
    Join(VerbatimTuples(px), LegacySeparator)
  }

  const InsertHead := "INSERT INTO purchases(id, date, nok, account, category, location, vendor) VALUES "
  const InsertTail := " ON CONFLICT (id) DO NOTHING"

  function InsertStatement(px: seq<Purchase>): string
  {
    InsertHead + ValuesList(px) + InsertTail
  }

  function LegacyInsertStatement(px: seq<Purchase>): string
  {
    InsertHead + LegacyValuesList(px) + InsertTail
  }

  /**
   * The loop of pkg/storage/purchase.go's AddPurchases: every tuple followed
   * by ",\n", then `strings.TrimRight(vals, ",\n")`.
   */
  method BuildValues(px: seq<Purchase>) returns (vals: string)
    ensures vals == ValuesList(px)
  {
    ghost var ts := SanitizedTuples(px);
    var acc := "";
    for i := 0 to |px|
      invariant acc == Terminated(ts[..i], Separator)
    {
      var tuple := TupleText(SanitizedColumns(px[i]));
      assert tuple == ts[i];
      TerminatedStep(ts, i, Separator);
      acc := acc + tuple + Separator;
    }
    vals := TrimRight(acc, {',', '\n'});
    assert ts[..|px|] == ts;
    TuplesEndWithParen(ts, px, true);
    TrimTerminated(ts, Separator, {',', '\n'});
  }

  /** The loop of storage.go's AddPurchases: every tuple followed by ", ", then `strings.TrimRight(vals, ", ")`. */
  method BuildLegacyValues(px: seq<Purchase>) returns (vals: string)
    ensures vals == LegacyValuesList(px)
  {
    ghost var ts := VerbatimTuples(px);
    var acc := "";
    for i := 0 to |px|
      invariant acc == Terminated(ts[..i], LegacySeparator)
    {
      var tuple := TupleText(Columns(px[i]));
      assert tuple == ts[i];
      TerminatedStep(ts, i, LegacySeparator);
      acc := acc + tuple + LegacySeparator;
    }
    vals := TrimRight(acc, {',', ' '});
    assert ts[..|px|] == ts;
    TuplesEndWithParen(ts, px, false);
    TrimTerminated(ts, LegacySeparator, {',', ' '});
  }

  // ---------------------------------------------------------------------
  // Reading the VALUES text back

  /** The rest of a quoted literal: up to the first `'` not doubled, with each `''` read as `'`. */
  function ReadQuotedBody(s: string): (r: Option<(string, string)>)
    ensures r.Some? ==> |r.value.1| < |s|
    decreases |s|
  {
    if s == [] then None
    else if s[0] == '\'' then
      if |s| >= 2 && s[1] == '\'' then
        match ReadQuotedBody(s[2..])
        case None => None
        case Some((t, rest)) => Some(("'" + t, rest))
      else Some(([], s[1..]))
    else
      match ReadQuotedBody(s[1..])
      case None => None
      case Some((t, rest)) => Some(([s[0]] + t, rest))
  }

  function ReadField(s: string): (r: Option<(Field, string)>)
    ensures r.Some? ==> |r.value.1| < |s|
  {
    if |s| > 0 && s[0] == '\'' then
      match ReadQuotedBody(s[1..])
      case None => None
      case Some((t, rest)) => Some((Quoted(t), rest))
    else
      match ReadInt(s)
      case None => None
      case Some((n, rest)) => Some((Number(n), rest))
  }

  /** Reads `n` fields separated by ", ". */
  function ReadFields(s: string, n: nat): (r: Option<(seq<Field>, string)>)
    requires n >= 1
    ensures r.Some? ==> |r.value.0| == n && |r.value.1| < |s|
    decreases n
  {
    match ReadField(s)
    case None => None
    case Some((f, rest)) =>
      if n == 1 then Some(([f], rest))
      else if |rest| >= 2 && rest[..2] == ", " then
        match ReadFields(rest[2..], n - 1)
        case None => None
        case Some((fs, rest')) => Some(([f] + fs, rest'))
      else None
  }

  const ColumnCount := 7

  function ReadTuple(s: string): (r: Option<(seq<Field>, string)>)
    ensures r.Some? ==> |r.value.1| < |s|
  {
    if |s| > 0 && s[0] == '(' then
      match ReadFields(s[1..], ColumnCount)
      case None => None
      case Some((fs, rest)) =>
        if |rest| > 0 && rest[0] == ')' then Some((fs, rest[1..])) else None
    else None
  }

  /** Reads tuples separated by `sep` up to the end of the text. */
  function ReadValues(s: string, sep: string): Option<seq<seq<Field>>>
    decreases |s|
  {
    match ReadTuple(s)
    case None => None
    case Some((fs, rest)) =>
      if rest == [] then Some([fs])
      else if |sep| <= |rest| && rest[..|sep|] == sep then
        match ReadValues(rest[|sep|..], sep)
        case None => None
        case Some(ts) => Some([fs] + ts)
      else None
  }

  function AllColumns(px: seq<Purchase>): seq<seq<Field>>
  {
    seq(|px|, i requires 0 <= i < |px| => Columns(px[i]))
  }

  predicate NoQuote(s: string) { '\'' !in s }

  /** The string columns of a purchase hold no quote; with that, storage.go's text reads back correctly. */
  predicate QuoteFree(p: Purchase)
  {
    NoQuote(p.id) && NoQuote(p.account) && NoQuote(p.category) && NoQuote(p.location) && NoQuote(p.vendor)
  }

  // ---------------------------------------------------------------------
  // Lemmas

  /** Collapsing the doubled quotes of a sanitized string gives the string back. */
  lemma {:induction false} CollapseSanitize(s: string)
    ensures Collapse(Sanitize(s)) == s
  {
    if s != [] {
      CollapseSanitize(s[1..]);
      var t := Sanitize(s[1..]);
      if s[0] == '\'' {
        assert Sanitize(s) == "''" + t;
        assert ("''" + t)[2..] == t;
      } else {
        assert Sanitize(s) == [s[0]] + t;
        assert ([s[0]] + t)[1..] == t;
      }
    }
  }

  /** Sanitizing a string without quotes leaves it as it is. */
  lemma {:induction false} SanitizeQuoteFree(s: string)
    requires NoQuote(s)
    ensures Sanitize(s) == s
  {
    if s != [] {
      assert s[0] in s;
      assert forall c :: c in s[1..] ==> c in s;
      SanitizeQuoteFree(s[1..]);
    }
  }

  /** After sanitizing, every quote stands in a pair. */
  lemma {:induction false} QuotedRoundTrip(t: string, rest: string)
    requires rest == [] || rest[0] != '\''
    ensures ReadQuotedBody(Sanitize(t) + "'" + rest) == Some((t, rest))
  {
    var s := Sanitize(t) + "'" + rest;
    if t == [] {
      assert Sanitize(t) + "'" == "'";
      DropPrefix("'", rest);
    } else {
      var x := Sanitize(t[1..]);
      var u := x + "'" + rest;
      var lead := if t[0] == '\'' then "''" else [t[0]];
      assert Sanitize(t) == lead + x;
      AppendAssoc(lead, x, "'");
      AppendAssoc(lead, x + "'", rest);
      assert s == lead + u;
      DropPrefix(lead, u);
      QuotedRoundTrip(t[1..], rest);
      assert [t[0]] + t[1..] == t;
    }
  }

  function Escape(f: Field): Field
  {
    match f
    case Quoted(t) => Quoted(Sanitize(t))
    case Number(n) => Number(n)
  }

  function EscapeAll(fs: seq<Field>): seq<Field>
  {
    seq(|fs|, i requires 0 <= i < |fs| => Escape(fs[i]))
  }

  /** A character that may follow a field: the comma before the next one, or the closing parenthesis. */
  predicate FieldEnd(rest: string)
  {
    |rest| > 0 && (rest[0] == ',' || rest[0] == ')')
  }

  lemma FieldRoundTrip(f: Field, rest: string)
    requires FieldEnd(rest)
    ensures ReadField(FieldText(Escape(f)) + rest) == Some((f, rest))
  {
    match f
    case Quoted(t) =>
      var x := Sanitize(t);
      var s := FieldText(Escape(f)) + rest;
      AppendAssoc("'", x, "'");
      AppendAssoc("'", x + "'", rest);
      assert s == "'" + (x + "'" + rest);
      DropPrefix("'", x + "'" + rest);
      QuotedRoundTrip(t, rest);
    case Number(n) =>
      IntStringRoundTrip(n, rest);
      var s := IntString(n) + rest;
      assert s[0] != '\'' by {
        if n < 0 { assert s[0] == '-'; } else { assert s[0] == NatString(n)[0]; }
      }
  }

  lemma {:induction false} FieldsRoundTrip(fs: seq<Field>, rest: string)
    requires |fs| >= 1
    requires |rest| > 0 && rest[0] == ')'
    ensures ReadFields(FieldsText(EscapeAll(fs)) + rest, |fs|) == Some((fs, rest))
  {
    var es := EscapeAll(fs);
    var s := FieldsText(es) + rest;
    var head := FieldText(Escape(fs[0]));
    if |fs| == 1 {
      assert FieldsText(es) == head;
      FieldRoundTrip(fs[0], rest);
      ReadFieldsOne(s, fs[0], rest);
      assert [fs[0]] == fs;
    } else {
      var es' := EscapeAll(fs[1..]);
      EscapeAllTail(fs);
      var tail := FieldsText(es') + rest;
      FieldsRoundTrip(fs[1..], rest);
      var after := ", " + tail;
      FieldsTextCons(es, rest, head, after, tail);
      FieldRoundTrip(fs[0], after);
      ReadFieldsStep(s, fs, head, after, tail, rest);
    }
  }

  lemma EscapeAllTail(fs: seq<Field>)
    requires |fs| >= 1
    ensures EscapeAll(fs)[0] == Escape(fs[0]) && EscapeAll(fs)[1..] == EscapeAll(fs[1..])
  {
  }

  lemma ReadFieldsOne(s: string, f: Field, rest: string)
    requires ReadField(s) == Some((f, rest))
    ensures ReadFields(s, 1) == Some(([f], rest))
  {
  }

  lemma ReadFieldsStep(s: string, fs: seq<Field>, head: string, after: string, tail: string, rest: string)
    requires |fs| >= 2 && s == head + after
    requires ReadField(head + after) == Some((fs[0], after)) && after == ", " + tail
    requires ReadFields(tail, |fs[1..]|) == Some((fs[1..], rest))
    ensures ReadFields(s, |fs|) == Some((fs, rest))
  {
    ReadFieldsCons(s, |fs|, fs[0], after, tail, fs[1..], rest);
    assert [fs[0]] + fs[1..] == fs;
  }

  lemma ReadFieldsCons(s: string, n: nat, f: Field, after: string, tail: string, fs: seq<Field>, rest: string)
    requires n >= 2
    requires ReadField(s) == Some((f, after)) && after == ", " + tail
    requires ReadFields(tail, n - 1) == Some((fs, rest))
    ensures ReadFields(s, n) == Some(([f] + fs, rest))
  {
    assert after[..2] == ", " && after[2..] == tail;
  }

  lemma FieldsTextCons(es: seq<Field>, rest: string, head: string, after: string, tail: string)
    requires |es| >= 2 && head == FieldText(es[0])
    requires tail == FieldsText(es[1..]) + rest && after == ", " + tail
    ensures FieldsText(es) + rest == head + after
  {
    var t := FieldsText(es[1..]);
    assert FieldsText(es) == (head + ", ") + t;
    AppendAssoc(head + ", ", t, rest);
    AppendAssoc(head, ", ", t + rest);
  }

  lemma TupleRoundTrip(fs: seq<Field>, rest: string)
    requires |fs| == ColumnCount
    ensures ReadTuple(TupleText(EscapeAll(fs)) + rest) == Some((fs, rest))
  {
    var f := FieldsText(EscapeAll(fs));
    var s := TupleText(EscapeAll(fs)) + rest;
    var inner := f + (")" + rest);
    AppendAssoc("(" + f, ")", rest);
    AppendAssoc("(", f, ")" + rest);
    assert s == "(" + inner;
    DropPrefix("(", inner);
    FieldsRoundTrip(fs, ")" + rest);
    DropPrefix(")", rest);
  }

  /** pkg/storage/purchase.go's columns are the escaped columns (a stamp has no quote to double). */
  lemma SanitizedColumnsEscape(p: Purchase)
    ensures SanitizedColumns(p) == EscapeAll(Columns(p))
  {
    var stamp := Quoted(Stamp(p.date));
    EscapeSeven(Quoted(p.id), stamp, Number(p.nok), Quoted(p.account),
                Quoted(p.category), Quoted(p.location), Quoted(p.vendor));
    StampHasNoQuote(p.date);
    EscapeKeeps(stamp);
  }

  lemma EscapeSeven(a: Field, b: Field, c: Field, d: Field, e: Field, f: Field, g: Field)
    ensures EscapeAll([a, b, c, d, e, f, g]) == [Escape(a), Escape(b), Escape(c), Escape(d), Escape(e), Escape(f), Escape(g)]
  {
  }

  lemma EscapeKeeps(f: Field)
    requires f.Quoted? ==> NoQuote(f.text)
    ensures Escape(f) == f
  {
    if f.Quoted? {
      SanitizeQuoteFree(f.text);
    }
  }

  /** Without quotes in its strings, a purchase's verbatim columns are its sanitized columns. */
  lemma VerbatimColumnsEscape(p: Purchase)
    requires QuoteFree(p)
    ensures Columns(p) == EscapeAll(Columns(p))
  {
    var stamp := Quoted(Stamp(p.date));
    EscapeSeven(Quoted(p.id), stamp, Number(p.nok), Quoted(p.account),
                Quoted(p.category), Quoted(p.location), Quoted(p.vendor));
    StampHasNoQuote(p.date);
    EscapeKeeps(stamp);
    SanitizeQuoteFree(p.id);
    SanitizeQuoteFree(p.account);
    SanitizeQuoteFree(p.category);
    SanitizeQuoteFree(p.location);
    SanitizeQuoteFree(p.vendor);
  }

  /** Any list of escaped tuples joined by any separator reads back as the columns. */
  lemma {:induction false} JoinedTuplesRoundTrip(px: seq<Purchase>, sep: string)
    requires |px| >= 1
    ensures ReadValues(Join(SanitizedTuples(px), sep), sep) == Some(AllColumns(px))
  {
    var ts := SanitizedTuples(px);
    var cols := Columns(px[0]);
    var t0 := TupleText(EscapeAll(cols));
    FirstTuple(px, ts, t0);
    if |px| == 1 {
      TupleRoundTrip(cols, "");
      ReadValuesLast(t0, sep, cols);
      JoinOne(ts, sep);
      assert AllColumns(px) == [cols];
    } else {
      var ts' := SanitizedTuples(px[1..]);
      var tail := Join(ts', sep);
      var rest := sep + tail;
      TailTuples(px, ts, ts');
      JoinCons(ts, sep, t0, ts', rest);
      TupleRoundTrip(cols, rest);
      JoinedNonEmpty(px[1..], ts', sep);
      JoinedTuplesRoundTrip(px[1..], sep);
      ReadValuesStep(t0 + rest, sep, cols, rest, tail, AllColumns(px[1..]));
      AllColumnsCons(px);
    }
  }

  lemma FirstTuple(px: seq<Purchase>, ts: seq<string>, t0: string)
    requires |px| >= 1 && ts == SanitizedTuples(px) && t0 == TupleText(EscapeAll(Columns(px[0])))
    ensures |ts| == |px| && ts[0] == t0
  {
    SanitizedColumnsEscape(px[0]);
  }

  lemma TailTuples(px: seq<Purchase>, ts: seq<string>, ts': seq<string>)
    requires |px| >= 1 && ts == SanitizedTuples(px) && ts' == SanitizedTuples(px[1..])
    ensures ts[1..] == ts'
  {
    forall i | 0 <= i < |ts'| ensures ts[1..][i] == ts'[i] {
      TailTupleAt(px, i);
    }
  }

  lemma TailTupleAt(px: seq<Purchase>, i: nat)
    requires i + 1 < |px|
    ensures SanitizedTuples(px)[i + 1] == SanitizedTuples(px[1..])[i]
  {
    assert px[1..][i] == px[i + 1];
  }

  lemma JoinOne(ts: seq<string>, sep: string)
    requires |ts| == 1
    ensures Join(ts, sep) == ts[0]
  {
  }

  lemma JoinCons(ts: seq<string>, sep: string, t0: string, ts': seq<string>, rest: string)
    requires |ts| >= 2 && ts[0] == t0 && ts[1..] == ts' && rest == sep + Join(ts', sep)
    ensures Join(ts, sep) == t0 + rest
  {
  }

  lemma JoinedNonEmpty(px: seq<Purchase>, ts: seq<string>, sep: string)
    requires |px| >= 1 && ts == SanitizedTuples(px)
    ensures Join(ts, sep) != []
  {
    assert ts[0] == TupleText(SanitizedColumns(px[0]));
    JoinStartsWithParen(ts, sep);
  }

  lemma AllColumnsCons(px: seq<Purchase>)
    requires |px| >= 1
    ensures AllColumns(px) == [Columns(px[0])] + AllColumns(px[1..])
  {
    var a, b := AllColumns(px), [Columns(px[0])] + AllColumns(px[1..]);
    forall i | 0 <= i < |a| ensures a[i] == b[i] {
      if i > 0 {
        assert px[1..][i - 1] == px[i];
      }
    }
  }

  lemma ReadValuesLast(s: string, sep: string, fs: seq<Field>)
    requires ReadTuple(s + "") == Some((fs, ""))
    ensures ReadValues(s, sep) == Some([fs])
  {
    assert s + "" == s;
  }

  lemma ReadValuesStep(s: string, sep: string, fs: seq<Field>, rest: string, tail: string, ts: seq<seq<Field>>)
    requires ReadTuple(s) == Some((fs, rest))
    requires rest == sep + tail && tail != []
    requires ReadValues(tail, sep) == Some(ts)
    ensures ReadValues(s, sep) == Some([fs] + ts)
  {
    assert rest[..|sep|] == sep && rest[|sep|..] == tail;
  }

  lemma JoinStartsWithParen(ts: seq<string>, sep: string)
    requires |ts| >= 1 && |ts[0]| >= 1
    ensures |Join(ts, sep)| >= 1
  {
  }

  /**
   * pkg/storage/purchase.go: the VALUES text names exactly the purchases of
   * the batch, one tuple each and in order, whatever quotes their strings hold.
   */
  lemma ValuesRoundTrip(px: seq<Purchase>)
    requires |px| >= 1
    ensures ReadValues(ValuesList(px), Separator) == Some(AllColumns(px))
  {
    JoinedTuplesRoundTrip(px, Separator);
  }

  /** The older storage.go: its VALUES text reads back correctly when no string holds a quote. */
  lemma LegacyValuesRoundTrip(px: seq<Purchase>)
    requires |px| >= 1
    requires forall i :: 0 <= i < |px| ==> QuoteFree(px[i])
    ensures ReadValues(LegacyValuesList(px), LegacySeparator) == Some(AllColumns(px))
  {
    forall i | 0 <= i < |px| ensures VerbatimTuples(px)[i] == SanitizedTuples(px)[i] {
      VerbatimColumnsEscape(px[i]);
      SanitizedColumnsEscape(px[i]);
    }
    assert VerbatimTuples(px) == SanitizedTuples(px);
    JoinedTuplesRoundTrip(px, LegacySeparator);
  }

  /** Two purchases with the same sanitized tuple have the same columns. */
  lemma SanitizedTupleInjective(p: Purchase, q: Purchase)
    requires TupleText(SanitizedColumns(p)) == TupleText(SanitizedColumns(q))
    ensures Columns(p) == Columns(q)
  {
    SanitizedColumnsEscape(p);
    SanitizedColumnsEscape(q);
    TupleRoundTrip(Columns(p), "");
    TupleRoundTrip(Columns(q), "");
    assert TupleText(SanitizedColumns(p)) + "" == TupleText(SanitizedColumns(p));
    assert TupleText(SanitizedColumns(q)) + "" == TupleText(SanitizedColumns(q));
  }

  /**
   * The older storage.go interpolates strings unescaped: a purchase whose
   * location is `x', 'y` and vendor `z` and one whose location is `x` and
   * vendor `y', 'z` produce the same tuple text.
   */
  lemma LegacyTupleAmbiguous(d: Date, id: string, nok: int, account: string, category: string)
    ensures
      var p := Purchase(d, id, nok, account, category, "x', 'y", "z");
      var q := Purchase(d, id, nok, account, category, "x", "y', 'z");
      Columns(p) != Columns(q) && TupleText(Columns(p)) == TupleText(Columns(q))
  {
    var p := Purchase(d, id, nok, account, category, "x', 'y", "z");
    var q := Purchase(d, id, nok, account, category, "x", "y', 'z");
    assert Columns(p)[5] != Columns(q)[5];
    var head := FieldsText(Columns(p)[..5]);
    assert Columns(p)[5..] == [Quoted("x', 'y"), Quoted("z")];
    assert Columns(q)[5..] == [Quoted("x"), Quoted("y', 'z")];
    FieldsTextSplit(Columns(p), 5);
    FieldsTextSplit(Columns(q), 5);
    assert Columns(p)[..5] == Columns(q)[..5];
    AmbiguousPair();
  }

  /** The two last fields of the ambiguous purchases render as the same text. */
  lemma AmbiguousPair()
    ensures FieldsText([Quoted("x', 'y"), Quoted("z")]) == FieldsText([Quoted("x"), Quoted("y', 'z")])
  {
    assert FieldsText([Quoted("x', 'y"), Quoted("z")]) == "'x', 'y', 'z'";
    assert FieldsText([Quoted("x"), Quoted("y', 'z")]) == "'x', 'y', 'z'";
  }

  lemma {:induction false} FieldsTextSplit(fs: seq<Field>, k: nat)
    requires 1 <= k < |fs|
    ensures FieldsText(fs) == FieldsText(fs[..k]) + ", " + FieldsText(fs[k..])
  {
    if k > 1 {
      FieldsTextSplit(fs[1..], k - 1);
      assert fs[1..][..k - 1] == fs[..k][1..];
      assert fs[1..][k - 1..] == fs[k..];
    } else {
      assert fs[..1] == [fs[0]];
      assert fs[1..] == fs[k..];
    }
  }

  lemma TerminatedStep(ts: seq<string>, i: nat, sep: string)
    requires i < |ts|
    ensures Terminated(ts[..i + 1], sep) == Terminated(ts[..i], sep) + ts[i] + sep
  {
    assert ts[..i + 1] == ts[..i] + [ts[i]];
    TerminatedSnoc(ts[..i], ts[i], sep);
  }

  lemma TuplesEndWithParen(ts: seq<string>, px: seq<Purchase>, sanitized: bool)
    requires ts == if sanitized then SanitizedTuples(px) else VerbatimTuples(px)
    ensures forall i :: 0 <= i < |ts| ==> |ts[i]| >= 1 && ts[i][|ts[i]| - 1] == ')'
  {
    forall i | 0 <= i < |ts| ensures |ts[i]| >= 1 && ts[i][|ts[i]| - 1] == ')' {
      var fs := if sanitized then SanitizedColumns(px[i]) else Columns(px[i]);
      assert ts[i] == TupleText(fs);
      TupleEndsWithParen(fs);
    }
  }

  lemma TupleEndsWithParen(fs: seq<Field>)
    ensures var t := TupleText(fs); |t| >= 1 && t[|t| - 1] == ')'
  {
  }

  /** The last character of a join is the last character of its last part. */
  lemma {:induction false} JoinEndsLikeLast(ts: seq<string>, sep: string)
    requires |ts| >= 1 && |ts[|ts| - 1]| >= 1
    ensures var j := Join(ts, sep); |j| >= 1 && j[|j| - 1] == ts[|ts| - 1][|ts[|ts| - 1]| - 1]
  {
    if |ts| > 1 {
      JoinEndsLikeLast(ts[1..], sep);
    }
  }

  /** Trimming the cut set off the accumulated text leaves the joined tuples. */
  lemma TrimTerminated(ts: seq<string>, sep: string, cut: set<char>)
    requires forall i :: 0 <= i < |sep| ==> sep[i] in cut
    requires forall i :: 0 <= i < |ts| ==> |ts[i]| >= 1 && ts[i][|ts[i]| - 1] == ')'
    requires ')' !in cut
    ensures TrimRight(Terminated(ts, sep), cut) == Join(ts, sep)
  {
    if ts != [] {
      TerminatedJoin(ts, sep);
      JoinEndsLikeLast(ts, sep);
      TrimRightSuffix(Join(ts, sep), sep, cut);
    }
  }
}
