/**
 * The older purchase store at the repository root (storage.go). It runs
 * the same statements as pkg/storage, with three differences: the values
 * are interpolated unescaped, the VALUES tuples are separated by `", "`,
 * and rows read back leave the date's MonthNum zero. It has no delete.
 * Its `models` import is taken to be pkg/models (the same `Date`, `Stamp`
 * and `AddMonth`).
 */
module LegacyStorage {

  import opened Wrappers
  import opened Models
  import SqlText
  import opened Storage

  class LegacyStore {
    var table: Table

    /** `NewStorage`: `CREATE TABLE IF NOT EXISTS` keeps the rows already there. */
    constructor (existing: Table)
      ensures table == existing
    {
      table := existing;
    }

    /**
     * `AddPurchases`. When no field of the batch holds a quote the
     * statement spells the batch (`SqlText.LegacyValuesRoundTrip`) and the
     * effect is insert-or-skip; with a
     * quote the text no longer does (`SqlText.LegacyTupleAmbiguous`), and
     * what the database then makes of it is left open.
     */
    method AddPurchases(px: seq<Purchase>, db: Outcome<string>) returns (r: Outcome<StoreError>, stmt: string)
      modifies this
      ensures px == [] ==> r == Fail(NoPurchases) && stmt == [] && table == old(table)
      ensures px != [] ==> stmt == SqlText.LegacyInsertStatement(px)
      ensures px != [] && db.Fail? ==> r == Fail(DbError(db.error)) && table == old(table)
      ensures px != [] && db.Pass? && (forall i :: 0 <= i < |px| ==> SqlText.QuoteFree(px[i])) ==>
                r == Pass && table == Insert(old(table), px)
    {
      if |px| < 1 {
        return Fail(NoPurchases), [];
      }
      var vals := SqlText.BuildLegacyValues(px);
      stmt := SqlText.InsertHead + vals + SqlText.InsertTail;
      if db.Fail? {
        return Fail(DbError(db.error)), stmt;
      }
      if forall i | 0 <= i < |px| :: SqlText.QuoteFree(px[i]) {
        table := Insert(table, px);
        r := Pass;
      } else {
        table := *;
        r := *;
      }
    }

    /** `GetPurchases`: the rows of the month of `month`, read back with MonthNum zero. */
    method GetPurchases(month: Date, db: Outcome<string>) returns (r: Result<seq<Purchase>, StoreError>)
      ensures db.Fail? ==> r == Err(DbError(db.error))
      ensures db.Pass? ==> r.Ok? && Lists(r.value, table, MonthIds(table, month), false)
    {
      if db.Fail? {
        return Err(DbError(db.error));
      }
      var first := month.(day := 1);
      var res := ScanRows(table, MonthIds(table, first), false);
      assert MonthIds(table, first) == MonthIds(table, month);
      r := Ok(res);
    }

    /** `GetPurchase`: the row with the id (MonthNum zero), or sql.ErrNoRows. */
    method GetPurchase(id: string, db: Outcome<string>) returns (r: Result<Purchase, StoreError>)
      ensures db.Fail? ==> r == Err(DbError(db.error))
      ensures db.Pass? && id in table ==> r == Ok(FromRow(id, table[id], false))
      ensures db.Pass? && id !in table ==> r == Err(NoRows)
    {
      if db.Fail? {
        return Err(DbError(db.error));
      }
      if id in table {
        r := Ok(FromRow(id, table[id], false));
      } else {
        r := Err(NoRows);
      }
    }
  }
}
