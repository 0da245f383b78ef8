/**
 * The Postgres-backed purchase store of pkg/storage (purchase.go), with the
 * `purchases` table modelled as a map from the primary key `id` to the
 * row's other columns.
 *
 * Whether the database runs a statement is not computed here: the `db`
 * parameter is its answer, `Pass` or `Fail` with the driver's error text
 * (it stands for connectivity and for anything the database may reject).
 * Given that answer, each operation's effect on the table and its result
 * are stated exactly.
 */
module Storage {

  import opened Wrappers
  import opened Models
  import SqlText

  datatype StoreError =
    | NoPurchases           // "no purchases provided": the batch was empty
    | DbError(msg: string)  // the database's own error, possibly wrapped
    | NoRows                // sql.ErrNoRows: no row has the id asked for
    | NotFound              // storage.ErrNotFound: the delete removed nothing

  /** The non-key columns of the `purchases` table; the `date` column keeps year, month and day. */
  datatype Row = Row(
    year: int, month: int, day: int,
    nok: int, account: string, category: string, location: string, vendor: string)

  type Table = map<string, Row>

  /** The row the database stores for a purchase. */
  function ToRow(p: Purchase): Row
  {
    Row(p.date.year, p.date.month, p.date.day, p.nok, p.account, p.category, p.location, p.vendor)
  }

  /**
   * A row read back: pkg/storage rebuilds the date with `MonthNum == Month`
   * (`withMonthNum`), the older storage.go leaves `MonthNum` zero.
   */
  function FromRow(id: string, r: Row, withMonthNum: bool): Purchase
  {
    var monthNum := if withMonthNum then r.month else 0;
    Purchase(Date(r.year, r.month, monthNum, r.day), id, r.nok, r.account, r.category, r.location, r.vendor)
  }

  function Ids(px: seq<Purchase>): set<string>
  {
    set p | p in px :: p.id
  }

  /**
   * The table after `INSERT ... ON CONFLICT (id) DO NOTHING` of the batch:
   * the purchases taken in order, each one added only when its id is not
   * yet in the table (so an earlier duplicate in the same batch wins).
   */
  function Insert(t: Table, px: seq<Purchase>): Table
    decreases |px|
  {
    if px == [] then t
    else
      var t' := Insert(t, px[..|px| - 1]);
      var p := px[|px| - 1];
      if p.id in t' then t' else t'[p.id := ToRow(p)]
  }

  /** The row's date is earlier than `d` (the SQL comparison of two dates). */
  predicate Earlier(r: Row, d: Date)
  {
    r.year < d.year || (r.year == d.year && (r.month < d.month || (r.month == d.month && r.day < d.day)))
  }

  /** GetPurchases' WHERE clause: `date >= <first of the month> AND date < <first of the next month>`. */
  predicate InMonth(r: Row, month: Date)
  {
    var first := month.(day := 1);
    !Earlier(r, first) && Earlier(r, AddMonth(first))
  }

  function MonthIds(t: Table, month: Date): set<string>
  {
    set id | id in t && InMonth(t[id], month)
  }

  /**
   * `ps` lists the rows `ids` of `t`, each once, in some order (the order
   * in which the database returns rows is not specified).
   */
  ghost predicate Lists(ps: seq<Purchase>, t: Table, ids: set<string>, withMonthNum: bool)
  {
    && (forall i :: 0 <= i < |ps| ==>
          ps[i].id in ids && ps[i].id in t && ps[i] == FromRow(ps[i].id, t[ps[i].id], withMonthNum))
    && (forall i, j :: 0 <= i < j < |ps| ==> ps[i].id != ps[j].id)
    && (forall id :: id in ids ==> exists i :: 0 <= i < |ps| && ps[i].id == id)
  }

  /**
   * The `rows.Next()` loop of GetPurchases: each row the query selects is
   * scanned into a purchase and appended, in the order the database
   * returns them (any order).
   */
  method ScanRows(t: Table, ids: set<string>, withMonthNum: bool) returns (ps: seq<Purchase>)
    requires ids <= t.Keys
    ensures Lists(ps, t, ids, withMonthNum)
  {
    ps := [];
    var remaining := ids;
    while remaining != {}
      invariant remaining <= ids
      invariant Lists(ps, t, ids - remaining, withMonthNum)
      invariant forall i :: 0 <= i < |ps| ==> ps[i].id !in remaining
      decreases remaining
    {
      var id :| id in remaining;
      var p := FromRow(id, t[id], withMonthNum);
      ListsSnoc(ps, t, ids - remaining, p, withMonthNum);
      assert ids - (remaining - {id}) == (ids - remaining) + {p.id};
      ps := ps + [p];
      remaining := remaining - {id};
    }
    assert ids - remaining == ids;
  }

  class Store {
    var table: Table

    /** `NewStorage`: `CREATE TABLE IF NOT EXISTS` keeps the rows already there. */
    constructor (existing: Table)
      ensures table == existing
    {
      table := existing;
    }

    /** `AddPurchases`: insert-or-skip of a non-empty batch in one statement. */
    method AddPurchases(px: seq<Purchase>, db: Outcome<string>) returns (r: Outcome<StoreError>, stmt: string)
      modifies this
      ensures px == [] ==> r == Fail(NoPurchases) && stmt == [] && table == old(table)
      ensures px != [] ==> stmt == SqlText.InsertStatement(px)
      ensures px != [] && db.Fail? ==> r == Fail(InsertError(db.error)) && table == old(table)
      ensures px != [] && db.Pass? ==> r == Pass && table == Insert(old(table), px)
    {
      if |px| < 1 {
        return Fail(NoPurchases), [];
      }
      var vals := SqlText.BuildValues(px);
      stmt := SqlText.InsertHead + vals + SqlText.InsertTail;
      if db.Fail? {
        return Fail(InsertError(db.error)), stmt;
      }
      table := Insert(table, px);
      r := Pass;
    }

    /** `GetPurchases`: the rows of the month of `month`, whatever its day. */
    method GetPurchases(month: Date, db: Outcome<string>) returns (r: Result<seq<Purchase>, StoreError>)
      ensures db.Fail? ==> r == Err(DbError(db.error))
      ensures db.Pass? ==> r.Ok? && Lists(r.value, table, MonthIds(table, month), true)
    {
      if db.Fail? {
        return Err(DbError(db.error));
      }
      var first := month.(day := 1);
      var res := ScanRows(table, MonthIds(table, first), true);
      assert MonthIds(table, first) == MonthIds(table, month);
      r := Ok(res);
    }

    /** `GetPurchase`: the row with the id, or sql.ErrNoRows. */
    method GetPurchase(id: string, db: Outcome<string>) returns (r: Result<Purchase, StoreError>)
      ensures db.Fail? ==> r == Err(DbError(db.error))
      ensures db.Pass? && id in table ==> r == Ok(FromRow(id, table[id], true))
      ensures db.Pass? && id !in table ==> r == Err(NoRows)
    {
      if db.Fail? {
        return Err(DbError(db.error));
      }
      if id in table {
        r := Ok(FromRow(id, table[id], true));
      } else {
        r := Err(NoRows);
      }
    }

    /** `DeletePurchase`: removes the row, or reports ErrNotFound when no row was affected. */
    method DeletePurchase(id: string) returns (r: Outcome<StoreError>)
      modifies this
      ensures id in old(table) ==> r == Pass && table == old(table) - {id}
      ensures id !in old(table) ==> r == Fail(NotFound) && table == old(table)
    {
      var changedRows := if id in table then 1 else 0;
      table := table - {id};
      if changedRows < 1 {
        return Fail(NotFound);
      }
      r := Pass;
    }
  }

  /** The template AddPurchases names in its error, with `%s` where the VALUES list goes. */
  const InsertTemplate := SqlText.InsertHead + "%s" + SqlText.InsertTail

  /** AddPurchases' error: the driver's error wrapped with the template, not the statement run. */
  function InsertError(e: string): StoreError
  {
    DbError("got error " + e + " while executing " + InsertTemplate)
  }

  // ---------------------------------------------------------------------
  // Lemmas

  lemma ListsSnoc(ps: seq<Purchase>, t: Table, ids: set<string>, p: Purchase, withMonthNum: bool)
    requires Lists(ps, t, ids, withMonthNum)
    requires p.id in t && p == FromRow(p.id, t[p.id], withMonthNum)
    requires forall i :: 0 <= i < |ps| ==> ps[i].id != p.id
    ensures Lists(ps + [p], t, ids + {p.id}, withMonthNum)
  {
    var qs := ps + [p];
    forall id | id in ids + {p.id} ensures exists i :: 0 <= i < |qs| && qs[i].id == id {
      if id == p.id {
        assert qs[|ps|].id == id;
      } else {
        var i :| 0 <= i < |ps| && ps[i].id == id;
        assert qs[i].id == id;
      }
    }
  }

  /**
   * Reading a stored purchase back through pkg/storage gives the purchase
   * when its MonthNum agrees with its Month; either reader keeps the id and
   * every stored column.
   */
  lemma RowRoundTrip(p: Purchase, id: string, r: Row, withMonthNum: bool)
    ensures p.date.monthNum == p.date.month ==> FromRow(p.id, ToRow(p), true) == p
    ensures FromRow(id, r, withMonthNum).id == id && ToRow(FromRow(id, r, withMonthNum)) == r
  {
  }

  /** The ids in the table after an insert: the old ones and those of the batch, and no others. */
  lemma {:induction false} InsertKeys(t: Table, px: seq<Purchase>)
    ensures Insert(t, px).Keys == t.Keys + Ids(px)
  {
    if px != [] {
      var init := px[..|px| - 1];
      InsertKeys(t, init);
      assert px == init + [px[|px| - 1]];
      assert Ids(px) == Ids(init) + {px[|px| - 1].id};
    }
  }

  /** A row already in the table is never overwritten. */
  lemma {:induction false} InsertKeepsExisting(t: Table, px: seq<Purchase>)
    ensures forall id :: id in t ==> id in Insert(t, px) && Insert(t, px)[id] == t[id]
  {
    if px != [] {
      InsertKeepsExisting(t, px[..|px| - 1]);
    }
  }

  /** A new id gets the row of the first purchase of the batch that carries it. */
  lemma {:induction false} InsertFirstWins(t: Table, px: seq<Purchase>, i: nat)
    requires i < |px| && px[i].id !in t
    requires forall j :: 0 <= j < i ==> px[j].id != px[i].id
    ensures px[i].id in Insert(t, px) && Insert(t, px)[px[i].id] == ToRow(px[i])
  {
    var init := px[..|px| - 1];
    if i == |px| - 1 {
      InsertKeys(t, init);
      assert px[i].id !in Ids(init) by {
        forall p | p in init ensures p.id != px[i].id {
          var j :| 0 <= j < |init| && init[j] == p;
          assert px[j] == p;
        }
      }
    } else {
      assert init[i] == px[i];
      InsertFirstWins(t, init, i);
    }
  }

  /** Inserting two batches one after the other is inserting their concatenation. */
  lemma {:induction false} InsertAppend(t: Table, a: seq<Purchase>, b: seq<Purchase>)
    ensures Insert(t, a + b) == Insert(Insert(t, a), b)
    decreases |b|
  {
    if b == [] {
      assert a + b == a;
    } else {
      var b' := b[..|b| - 1];
      assert (a + b)[..|a + b| - 1] == a + b';
      assert (a + b)[|a + b| - 1] == b[|b| - 1];
      InsertAppend(t, a, b');
    }
  }

  /** A batch whose ids are all present changes nothing. */
  lemma {:induction false} InsertPresent(t: Table, px: seq<Purchase>)
    requires Ids(px) <= t.Keys
    ensures Insert(t, px) == t
  {
    if px != [] {
      var init := px[..|px| - 1];
      assert Ids(init) <= Ids(px);
      InsertPresent(t, init);
      assert px[|px| - 1] in px;
    }
  }

  /** Storing the same batch twice leaves the table as storing it once. */
  lemma InsertIdempotent(t: Table, px: seq<Purchase>)
    ensures Insert(Insert(t, px), px) == Insert(t, px)
  {
    InsertKeys(t, px);
    InsertPresent(Insert(t, px), px);
  }

  /**
   * For stored dates (a real month, a day from 1) the half-open range of
   * GetPurchases selects exactly the calendar month asked for.
   */
  lemma InMonthIsCalendarMonth(r: Row, month: Date)
    requires 1 <= month.month <= 12
    requires 1 <= r.month <= 12 && r.day >= 1
    ensures InMonth(r, month) <==> r.year == month.year && r.month == month.month
  {
  }

  /** The day of the month argument does not matter. */
  lemma MonthIdsIgnoresDay(t: Table, month: Date, day: int)
    ensures MonthIds(t, month) == MonthIds(t, month.(day := day))
  {
  }
}
