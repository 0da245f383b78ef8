/**
 * The transaction side of the bank client (pkg/client/transaction.go):
 * which transactions of an account's listing are card purchases, and how
 * a card purchase becomes a `Purchase`.
 *
 * The HTTP call and the JSON decoding are not modelled: a `Reply` is what
 * they produce, either an error or the decoded listing. Amounts are exact
 * reals; the float64 rounding of the source is not modelled, its
 * truncation toward zero is.
 */
module Transactions {

  import opened Wrappers
  import opened Models

  /** The calendar date of a `time.Time`, in its own zone. */
  datatype Instant = Instant(year: int, month: int, day: int)

  /** `cardDetails`: the card part of a transaction. */
  datatype CardDetails = CardDetails(
    transactionId: string,
    cardNumber: string,
    currencyAmount: real,
    currencyRate: real,
    categoryCode: string,
    categoryDesc: string,
    city: string,
    merchant: string,
    originalCurrency: string,
    purchaseDate: Instant)

  /** `transaction`, with the fields that matter here; `cardDetails` is nil for non-card items. */
  datatype Transaction = Transaction(
    accountingDate: Instant,
    interestDate: Instant,
    amount: real,
    text: string,
    transactionType: string,
    isReservation: bool,
    cardDetails: Option<CardDetails>)

  /** The decoded response body: `availableItems` may be missing (a nil `*int`). */
  datatype Page = Page(availableItems: Option<int>, items: seq<Transaction>)

  /** What the call and the decoding give back. */
  datatype Reply =
    | CallFailed(err: string)     // callAPI's error, already wrapped by it
    | Undecodable(err: string)    // the JSON decoder's error
    | Decoded(page: Page)

  /** Go's `int(x)` on a float: truncation toward zero. */
  function Trunc(x: real): int
  {
    if x >= 0.0 then x.Floor else -((-x).Floor)
  }

  /** The amount in NOK before truncation: the rate is applied only when it is non-zero. */
  function Amount(cd: CardDetails): real
  {
    if cd.currencyRate != 0.0 then cd.currencyAmount * cd.currencyRate else cd.currencyAmount
  }

  function Nok(cd: CardDetails): int
  {
    Trunc(Amount(cd))
  }

  /** `cardDetails.purchase`: the purchase recorded for a card transaction of account `acct`. */
  function ToPurchase(cd: CardDetails, acct: string): Purchase
  {
    var d := cd.purchaseDate;
    Purchase(Date(d.year, d.month, d.month, d.day), cd.transactionId, Nok(cd),
             acct, cd.categoryDesc, cd.city, cd.merchant)
  }

  /** The card details of the items that have them, in item order. */
  function Cards(items: seq<Transaction>): seq<CardDetails>
    decreases |items|
  {
    if items == [] then []
    else
      var init := Cards(items[..|items| - 1]);
      match items[|items| - 1].cardDetails
      case Some(cd) => init + [cd]
      case None => init
  }

  const MissingAvailableItems := "missing field \"availableItems\" in response data"

  /**
   * What `transactions` gives for a reply: the call's error unchanged, the
   * decoder's error wrapped, an error for a missing `availableItems`, and
   * otherwise the card details of the items.
   */
  function Fetched(reply: Reply): Result<seq<CardDetails>, string>
  {
    match reply
    case CallFailed(err) => Err(err)
    case Undecodable(err) => Err("unmarshaling json: " + err)
    case Decoded(data) =>
      if data.availableItems.None? then Err(MissingAvailableItems) else Ok(Cards(data.items))
  }

  /** `transactions`: the card details of an account's listing, or the error that stopped it. */
  method FetchCards(reply: Reply) returns (r: Result<seq<CardDetails>, string>)
    ensures r == Fetched(reply)
  {
    match reply
    case CallFailed(err) =>
      return Err(err);
    case Undecodable(err) =>
      return Err("unmarshaling json: " + err);
    case Decoded(data) =>
      if data.availableItems.None? {
        return Err(MissingAvailableItems);
      }
      var res: seq<CardDetails> := [];
      for i := 0 to |data.items|
        invariant res == Cards(data.items[..i])
      {
        assert data.items[..i + 1][..i] == data.items[..i];
        if data.items[i].cardDetails.Some? {
          res := res + [data.items[i].cardDetails.value];
        }
      }
      assert data.items[..|data.items|] == data.items;
      r := Ok(res);
  }

  // ---------------------------------------------------------------------
  // Lemmas

  /**
   * A listing yields card details exactly when it was decoded and has
   * `availableItems`; an API error comes back unchanged.
   */
  lemma FetchedCases(reply: Reply)
    ensures Fetched(reply).Ok? <==> reply.Decoded? && reply.page.availableItems.Some?
    ensures Fetched(reply).Ok? ==> Fetched(reply).value == Cards(reply.page.items)
    ensures reply.CallFailed? ==> Fetched(reply) == Err(reply.err)
  {
  }

  /** Truncation toward zero: within one of the value, never farther from zero. */
  lemma TruncBounds(x: real)
    ensures x >= 0.0 ==> 0 <= Trunc(x) && Trunc(x) as real <= x < Trunc(x) as real + 1.0
    ensures x < 0.0 ==> Trunc(x) <= 0 && Trunc(x) as real - 1.0 < x <= Trunc(x) as real
  {
  }

  /** With no rate the amount is taken as it is; otherwise it is converted by the rate. */
  lemma AmountRate(cd: CardDetails)
    ensures cd.currencyRate == 0.0 ==> Nok(cd) == Trunc(cd.currencyAmount)
    ensures cd.currencyRate != 0.0 ==> Nok(cd) == Trunc(cd.currencyAmount * cd.currencyRate)
  {
  }

  lemma NokExamples(cd: CardDetails)
    ensures Nok(cd.(currencyAmount := 100.0, currencyRate := 0.0)) == 100
    ensures Nok(cd.(currencyAmount := 12.5, currencyRate := 10.0)) == 125
    ensures Nok(cd.(currencyAmount := 19.99, currencyRate := 0.0)) == 19
    ensures Nok(cd.(currencyAmount := -19.99, currencyRate := 0.0)) == -19
  {
    TruncBounds(19.99);
    TruncBounds(-19.99);
  }

  /**
   * The purchase copies the card's id, category, city and merchant, the
   * given account, and the purchase date (not the accounting date), whose
   * MonthNum agrees with its Month.
   */
  lemma ToPurchaseFields(cd: CardDetails, acct: string)
    ensures var p := ToPurchase(cd, acct);
      && p.id == cd.transactionId && p.account == acct
      && p.category == cd.categoryDesc && p.location == cd.city && p.vendor == cd.merchant
      && p.date.year == cd.purchaseDate.year && p.date.month == cd.purchaseDate.month
      && p.date.day == cd.purchaseDate.day && p.date.monthNum == p.date.month
  {
  }

  /** Keeping card purchases distributes over concatenation, so item order is kept. */
  lemma {:induction false} CardsAppend(a: seq<Transaction>, b: seq<Transaction>)
    ensures Cards(a + b) == Cards(a) + Cards(b)
    decreases |b|
  {
    if b == [] {
      assert a + b == a;
    } else {
      var b' := b[..|b| - 1];
      assert (a + b)[..|a + b| - 1] == a + b';
      assert (a + b)[|a + b| - 1] == b[|b| - 1];
      CardsAppend(a, b');
    }
  }

  /** Card details are kept exactly for the items that carry them. */
  lemma {:induction false} CardsMembers(items: seq<Transaction>, cd: CardDetails)
    ensures cd in Cards(items) <==> exists i :: 0 <= i < |items| && items[i].cardDetails == Some(cd)
    decreases |items|
  {
    if items != [] {
      var init := items[..|items| - 1];
      CardsMembers(init, cd);
      if exists i :: 0 <= i < |items| && items[i].cardDetails == Some(cd) {
        var i :| 0 <= i < |items| && items[i].cardDetails == Some(cd);
        if i < |init| {
          assert init[i] == items[i];
        }
      }
      if exists i :: 0 <= i < |init| && init[i].cardDetails == Some(cd) {
        var i :| 0 <= i < |init| && init[i].cardDetails == Some(cd);
        assert items[i] == init[i];
      }
    }
  }

  /** One card purchase per carded item: at most the number of items, all of them when all carry one. */
  lemma {:induction false} CardsCount(items: seq<Transaction>)
    ensures |Cards(items)| <= |items|
    ensures (forall i :: 0 <= i < |items| ==> items[i].cardDetails.Some?) ==>
              Cards(items) == seq(|items|, i requires 0 <= i < |items| => items[i].cardDetails.value)
    ensures (forall i :: 0 <= i < |items| ==> items[i].cardDetails.None?) ==> Cards(items) == []
    decreases |items|
  {
    if items != [] {
      var init := items[..|items| - 1];
      CardsCount(init);
      if forall i :: 0 <= i < |items| ==> items[i].cardDetails.Some? {
        assert forall i :: 0 <= i < |init| ==> init[i] == items[i];
      }
      if forall i :: 0 <= i < |items| ==> items[i].cardDetails.None? {
        assert forall i :: 0 <= i < |init| ==> init[i] == items[i];
      }
    }
  }
}
