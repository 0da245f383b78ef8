/**
 * One sync cycle of the bank client (`Client.Purchases` in
 * pkg/client/client.go): list the accounts, and for each one fetch its card
 * purchases and store them, logging and skipping an account whose fetch or
 * store fails.
 *
 * The bank and the database are inputs: `listing` is what listing the
 * accounts gave, `replies(i)` is the bank's reply for the i-th account's
 * transactions and `answers(i)` is the database's answer to that account's
 * insert. The log is returned as a sequence of entries.
 */
module Sync {

  import opened Wrappers
  import opened Models
  import opened Transactions
  import opened Storage

  /** `account`, with the fields the cycle reads. */
  datatype Account = Account(id: string, number: string, name: string, accountType: string)

  datatype LogLine =
    | FetchFailed(account: string, reason: string)    // "getting transactions from account ..."
    | StoreFailed(account: string, error: StoreError) // "storing purchases from account ..."
    | Stored(count: nat, account: string)             // "loaded %d purchases from %s"

  /** `convertToPurchases`: the purchases of an account's card transactions, in order. */
  method ConvertToPurchases(cx: seq<CardDetails>, acct: string) returns (res: seq<Purchase>)
    ensures |res| == |cx|
    ensures forall i :: 0 <= i < |cx| ==> res[i] == ToPurchase(cx[i], acct)
  {
    res := [];
    for i := 0 to |cx|
      invariant |res| == i
      invariant forall k :: 0 <= k < i ==> res[k] == ToPurchase(cx[k], acct)
    {
      var d := cx[i].purchaseDate;
      var p := Purchase(Date(d.year, d.month, d.month, d.day), cx[i].transactionId, 0,
                        acct, cx[i].categoryDesc, cx[i].city, cx[i].merchant);
      var nok := cx[i].currencyAmount;
      if cx[i].currencyRate != 0.0 {
        nok := nok * cx[i].currencyRate;
      }
      p := p.(nok := Trunc(nok));
      res := res + [p];
    }
  }

  function Converted(cx: seq<CardDetails>, acct: string): seq<Purchase>
  {
    seq(|cx|, i requires 0 <= i < |cx| => ToPurchase(cx[i], acct))
  }

  /** The i-th account's batch reaches the database and the database runs it. */
  predicate Stores(replies: nat -> Reply, answers: nat -> Outcome<string>, i: nat)
  {
    var f := Fetched(replies(i));
    f.Ok? && |f.value| >= 1 && answers(i).Pass?
  }

  /** The table and the log entries after the account at index `i`. */
  function AccountStep(t: Table, a: Account, i: nat, replies: nat -> Reply, answers: nat -> Outcome<string>)
    : (Table, seq<LogLine>)
  {
    match Fetched(replies(i))
    case Err(e) => (t, [FetchFailed(a.name, e)])
    case Ok(cx) =>
      if |cx| < 1 then (t, [])
      else
        match answers(i)
        case Fail(e) => (t, [StoreFailed(a.name, InsertError(e))])
        case Pass => (Insert(t, Converted(cx, a.name)), [Stored(|cx|, a.name)])
  }

  /** The accounts taken in the order listed, each one's step on the table left by the ones before. */
  function Cycle(t: Table, accounts: seq<Account>, replies: nat -> Reply, answers: nat -> Outcome<string>)
    : (Table, seq<LogLine>)
    decreases |accounts|
  {
    if accounts == [] then (t, [])
    else
      var n := |accounts| - 1;
      var before := Cycle(t, accounts[..n], replies, answers);
      var step := AccountStep(before.0, accounts[n], n, replies, answers);
      (step.0, before.1 + step.1)
  }

  /** `Client.Purchases`. */
  method Purchases(
    store: Store, listing: Result<seq<Account>, string>,
    replies: nat -> Reply, answers: nat -> Outcome<string>)
    returns (r: Outcome<string>, log: seq<LogLine>)
    modifies store
    ensures listing.Err? ==> r == Fail("getting accounts: " + listing.error) && log == []
    ensures listing.Err? ==> store.table == old(store.table)
    ensures listing.Ok? ==> r == Pass && (store.table, log) == Cycle(old(store.table), listing.value, replies, answers)
  {
    if listing.Err? {
      return Fail("getting accounts: " + listing.error), [];
    }
    var accounts := listing.value;
    log := [];
    for i := 0 to |accounts|
      invariant (store.table, log) == Cycle(old(store.table), accounts[..i], replies, answers)
    {
      CycleSnoc(old(store.table), accounts, i, replies, answers);
      ghost var step := AccountStep(store.table, accounts[i], i, replies, answers);
      ghost var logBefore := log;
      var acct := accounts[i];
      var trans := FetchCards(replies(i));
      if trans.Err? {
        log := log + [FetchFailed(acct.name, trans.error)];
        assert (store.table, log) == (step.0, logBefore + step.1);
        continue;
      }
      if |trans.value| < 1 {
        assert step.1 == [] && logBefore + [] == logBefore;
        continue;
      }
      var px := ConvertToPurchases(trans.value, acct.name);
      assert px == Converted(trans.value, acct.name);
      var res, _ := store.AddPurchases(px, answers(i));
      assert store.table == step.0;
      if res.Fail? {
        log := log + [StoreFailed(acct.name, res.error)];
        assert (store.table, log) == (step.0, logBefore + step.1);
        continue;
      }
      log := log + [Stored(|trans.value|, acct.name)];
      assert (store.table, log) == (step.0, logBefore + step.1);
    }
    assert accounts[..|accounts|] == accounts;
    r := Pass;
  }

  // ---------------------------------------------------------------------
  // Lemmas

  /** One more account: its step applied to what the accounts before it left. */
  lemma CycleSnoc(t: Table, accounts: seq<Account>, i: nat, replies: nat -> Reply, answers: nat -> Outcome<string>)
    requires i < |accounts|
    ensures var before := Cycle(t, accounts[..i], replies, answers);
      var step := AccountStep(before.0, accounts[i], i, replies, answers);
      Cycle(t, accounts[..i + 1], replies, answers) == (step.0, before.1 + step.1)
  {
    assert accounts[..i + 1][..i] == accounts[..i];
  }

  /** No entry of the log reports the store's "no purchases provided" error. */
  predicate NoEmptyBatchError(log: seq<LogLine>)
  {
    forall k :: 0 <= k < |log| ==> !(log[k].StoreFailed? && log[k].error == NoPurchases)
  }

  /** The cycle never hands the store an empty batch, so "no purchases provided" is never logged. */
  lemma {:induction false} CycleNeverEmptyBatch(
    t: Table, accounts: seq<Account>, replies: nat -> Reply, answers: nat -> Outcome<string>)
    ensures NoEmptyBatchError(Cycle(t, accounts, replies, answers).1)
    decreases |accounts|
  {
    if accounts != [] {
      var n := |accounts| - 1;
      CycleNeverEmptyBatch(t, accounts[..n], replies, answers);
      var before := Cycle(t, accounts[..n], replies, answers);
      var step := AccountStep(before.0, accounts[n], n, replies, answers).1;
      assert NoEmptyBatchError(step);
      var log := before.1 + step;
      forall k | 0 <= k < |log| ensures !(log[k].StoreFailed? && log[k].error == NoPurchases) {
        if k >= |before.1| {
          assert log[k] == step[k - |before.1|];
        } else {
          assert log[k] == before.1[k];
        }
      }
    }
  }

  /** Each account adds at most one log entry. */
  lemma {:induction false} CycleLogLength(
    t: Table, accounts: seq<Account>, replies: nat -> Reply, answers: nat -> Outcome<string>)
    ensures |Cycle(t, accounts, replies, answers).1| <= |accounts|
    decreases |accounts|
  {
    if accounts != [] {
      CycleLogLength(t, accounts[..|accounts| - 1], replies, answers);
    }
  }

  /** Rows already stored are never changed by a cycle. */
  lemma {:induction false} CycleKeepsRows(
    t: Table, accounts: seq<Account>, replies: nat -> Reply, answers: nat -> Outcome<string>)
    ensures var t' := Cycle(t, accounts, replies, answers).0;
      forall id :: id in t ==> id in t' && t'[id] == t[id]
    decreases |accounts|
  {
    if accounts != [] {
      var n := |accounts| - 1;
      CycleKeepsRows(t, accounts[..n], replies, answers);
      var before := Cycle(t, accounts[..n], replies, answers).0;
      var f := Fetched(replies(n));
      if f.Ok? && |f.value| >= 1 && answers(n).Pass? {
        InsertKeepsExisting(before, Converted(f.value, accounts[n].name));
      }
    }
  }

  /**
   * An account whose fetch fails, whose listing has no card purchases, or
   * whose insert fails leaves the table as it was, and the cycle goes on
   * with the next account.
   */
  lemma SkippedAccountKeepsTable(
    t: Table, accounts: seq<Account>, replies: nat -> Reply, answers: nat -> Outcome<string>)
    requires accounts != [] && !Stores(replies, answers, |accounts| - 1)
    ensures Cycle(t, accounts, replies, answers).0 == Cycle(t, accounts[..|accounts| - 1], replies, answers).0
  {
  }

  /** Every purchase of an account whose batch was stored is in the table at the end of the cycle. */
  lemma CycleStoresAccount(
    t: Table, accounts: seq<Account>, replies: nat -> Reply, answers: nat -> Outcome<string>, i: nat)
    requires i < |accounts| && Stores(replies, answers, i)
    ensures forall cd :: cd in Fetched(replies(i)).value ==>
              cd.transactionId in Cycle(t, accounts, replies, answers).0
  {
    var cx := Fetched(replies(i)).value;
    var px := Converted(cx, accounts[i].name);
    var before := Cycle(t, accounts[..i], replies, answers).0;
    assert accounts[..i + 1][..i] == accounts[..i];
    InsertKeys(before, px);
    forall cd | cd in cx ensures cd.transactionId in Ids(px) {
      var k :| 0 <= k < |cx| && cx[k] == cd;
      assert px[k] in px;
    }
    CycleGrows(t, accounts, replies, answers, i + 1);
  }

  /** A longer run of the cycle only adds ids to the table. */
  lemma {:induction false} CycleGrows(
    t: Table, accounts: seq<Account>, replies: nat -> Reply, answers: nat -> Outcome<string>, k: nat)
    requires k <= |accounts|
    ensures Cycle(t, accounts[..k], replies, answers).0.Keys <= Cycle(t, accounts, replies, answers).0.Keys
    decreases |accounts| - k
  {
    if k == |accounts| {
      assert accounts[..k] == accounts;
    } else {
      var n := |accounts| - 1;
      var init := accounts[..n];
      assert init[..k] == accounts[..k];
      CycleGrows(t, init, replies, answers, k);
      var before := Cycle(t, init, replies, answers).0;
      var f := Fetched(replies(n));
      if f.Ok? && |f.value| >= 1 && answers(n).Pass? {
        InsertKeys(before, Converted(f.value, accounts[n].name));
      }
    }
  }
}
