/**
 * Exchange requests (backend/internal/services/transaction_service.go): fail-fast validation,
 * the fee and estimated-output formulas, and the insertion of a pending record.
 *
 * Each price lookup of the estimate resolves prices afresh, so the two lookups are given
 * their own outcome of `GetPrices`.
 */
module Ledger {
  import opened Wrappers
  import Hex
  import opened Models
  import opened Store
  import Bitcoin
  import Prices

  /** The output currencies an exchange may be requested in. */
  const SupportedCurrencies: seq<string> := ["BTC", "ETH", "USDT", "USDC", "ADA", "SOL", "MATIC"]

  /** `isSupportedCurrency`: a linear search of the supported list. */
  predicate IsSupportedCurrency(currency: string): (b: bool)
    ensures b <==> currency in Prices.Symbols
  {
    exists k :: 0 <= k < |SupportedCurrencies| && SupportedCurrencies[k] == currency
  }

  /**
   * The supported list, the quoted price symbols and the currencies the address validator
   * knows are the same seven symbols.
   */
  lemma SupportedEverywhere(currency: string)
    ensures IsSupportedCurrency(currency) <==> Bitcoin.IsValidatorCurrency(currency)
  {
  }

  const MaxOutputAddresses: nat := 7

  /** Why a request was refused; positions are 1-based. */
  datatype ValidationError =
    | UnsupportedCurrency(currency: string)
    | NoOutputAddresses
    | TooManyOutputAddresses
    | EmptyAddress(position: nat)
    | InvalidAddress(position: nat, currency: string)
    | InvalidPercentage(position: nat, percentage: real)
    | BadAllocation(total: real)

  /** The checks on one output entry, in the order they are made. */
  function EntryError(entry: OutputAddress, position: nat, currency: string): (e: Option<ValidationError>)
    ensures e.None? <==>
      entry.address != "" && Bitcoin.ValidateAddress(entry.address, currency) && 0.0 < entry.percentage <= 100.0
  {
    if entry.address == "" then Some(EmptyAddress(position))
    else if !Bitcoin.ValidateAddress(entry.address, currency) then Some(InvalidAddress(position, currency))
    else if entry.percentage <= 0.0 || entry.percentage > 100.0 then Some(InvalidPercentage(position, entry.percentage))
    else None
  }

  /** Index (0-based) of the first entry from `from` on that fails its checks. */
  function FirstInvalidEntry(entries: seq<OutputAddress>, currency: string, from: nat): (r: Option<nat>)
    requires from <= |entries|
    ensures r.Some? ==> from <= r.value < |entries| && EntryError(entries[r.value], r.value + 1, currency).Some?
    ensures r.Some? ==> forall j :: from <= j < r.value ==> EntryError(entries[j], j + 1, currency).None?
    ensures r.None? <==> forall j :: from <= j < |entries| ==> EntryError(entries[j], j + 1, currency).None?
    decreases |entries| - from
  {
    if from == |entries| then None
    else if EntryError(entries[from], from + 1, currency).Some? then Some(from)
    else FirstInvalidEntry(entries, currency, from + 1)
  }

  /** `validateOutputAddresses`: 1 to 7 entries, then each entry in order; the first failure is reported. */
  function ValidateOutputAddresses(entries: seq<OutputAddress>, currency: string): (e: Option<ValidationError>)
    ensures |entries| == 0 ==> e == Some(NoOutputAddresses)
    ensures |entries| > MaxOutputAddresses ==> e == Some(TooManyOutputAddresses)
    ensures 1 <= |entries| <= MaxOutputAddresses && e.Some? ==>
      exists k :: 0 <= k < |entries| && e == EntryError(entries[k], k + 1, currency)
                  && forall j :: 0 <= j < k ==> EntryError(entries[j], j + 1, currency).None?
  {
    if |entries| == 0 then Some(NoOutputAddresses)
    else if |entries| > MaxOutputAddresses then Some(TooManyOutputAddresses)
    else match FirstInvalidEntry(entries, currency, 0)
      case None => None
      case Some(k) => EntryError(entries[k], k + 1, currency)
  }

  /** The address list is accepted exactly when it has 1 to 7 entries and every entry passes. */
  lemma OutputAddressesAccepted(entries: seq<OutputAddress>, currency: string)
    ensures ValidateOutputAddresses(entries, currency).None? <==>
      && 1 <= |entries| <= MaxOutputAddresses
      && forall k :: 0 <= k < |entries| ==>
           entries[k].address != "" && Bitcoin.ValidateAddress(entries[k].address, currency)
           && 0.0 < entries[k].percentage <= 100.0
  {
    if 1 <= |entries| <= MaxOutputAddresses {
      var r := FirstInvalidEntry(entries, currency, 0);
      if r.Some? {
        assert EntryError(entries[r.value], r.value + 1, currency).Some?;
      }
    }
  }

  /** The sum of the percentages, accumulated front to back. */
  function PercentageTotal(entries: seq<OutputAddress>): real {
    if entries == [] then 0.0
    else PercentageTotal(entries[..|entries| - 1]) + entries[|entries| - 1].percentage
  }

  lemma {:induction false} PercentageTotalAppend(a: seq<OutputAddress>, b: seq<OutputAddress>)
    ensures PercentageTotal(a + b) == PercentageTotal(a) + PercentageTotal(b)
    decreases |b|
  {
    if b == [] {
      assert a + b == a;
    } else {
      var b' := b[..|b| - 1];
      assert (a + b)[..|a + b| - 1] == a + b';
      PercentageTotalAppend(a, b');
    }
  }

  /** Entries that each pass their percentage check have a total between 0 and 100 per entry. */
  lemma {:induction false} PercentageTotalBounds(entries: seq<OutputAddress>)
    requires forall k :: 0 <= k < |entries| ==> 0.0 < entries[k].percentage <= 100.0
    ensures 0.0 <= PercentageTotal(entries) <= 100.0 * |entries| as real
    ensures entries != [] ==> 0.0 < PercentageTotal(entries)
  {
    if entries != [] {
      PercentageTotalBounds(entries[..|entries| - 1]);
    }
  }

  /** `validatePercentageAllocation`: the total must lie within [99.9, 100.1]. */
  method ValidatePercentageAllocation(entries: seq<OutputAddress>) returns (e: Option<ValidationError>)
    ensures e.None? <==> 99.9 <= PercentageTotal(entries) <= 100.1
    ensures e.Some? ==> e.value == BadAllocation(PercentageTotal(entries))
  {
    var total := 0.0;
    var i := 0;
    while i < |entries|
      invariant 0 <= i <= |entries|
      invariant total == PercentageTotal(entries[..i])
    {
      assert entries[..i + 1][..i] == entries[..i];
      total := total + entries[i].percentage;
      i := i + 1;
    }
    assert entries[..i] == entries;
    if total < 99.9 || total > 100.1 {
      return Some(BadAllocation(total));
    }
    return None;
  }

  /** The body of a create request. */
  datatype CreateTransactionRequest = CreateTransactionRequest(
    btcAmount: real,
    outputCurrency: string,
    outputAddresses: seq<OutputAddress>)

  /** The three validation stages of `CreateTransaction`, stopping at the first failure. */
  function ValidateRequest(req: CreateTransactionRequest): (e: Option<ValidationError>)
    ensures !IsSupportedCurrency(req.outputCurrency) ==> e == Some(UnsupportedCurrency(req.outputCurrency))
    ensures IsSupportedCurrency(req.outputCurrency) && ValidateOutputAddresses(req.outputAddresses, req.outputCurrency).Some? ==>
      e == ValidateOutputAddresses(req.outputAddresses, req.outputCurrency)
  {
    if !IsSupportedCurrency(req.outputCurrency) then Some(UnsupportedCurrency(req.outputCurrency))
    else if ValidateOutputAddresses(req.outputAddresses, req.outputCurrency).Some? then
      ValidateOutputAddresses(req.outputAddresses, req.outputCurrency)
    else if PercentageTotal(req.outputAddresses) < 99.9 || PercentageTotal(req.outputAddresses) > 100.1 then
      Some(BadAllocation(PercentageTotal(req.outputAddresses)))
    else None
  }

  /** A request passes validation exactly when all of its constraints hold together. */
  lemma ValidateRequestCharacterisation(req: CreateTransactionRequest)
    ensures ValidateRequest(req).None? <==>
      && IsSupportedCurrency(req.outputCurrency)
      && 1 <= |req.outputAddresses| <= MaxOutputAddresses
      && (forall k :: 0 <= k < |req.outputAddresses| ==>
            req.outputAddresses[k].address != ""
            && Bitcoin.ValidateAddress(req.outputAddresses[k].address, req.outputCurrency)
            && 0.0 < req.outputAddresses[k].percentage <= 100.0)
      && 99.9 <= PercentageTotal(req.outputAddresses) <= 100.1
  {
    OutputAddressesAccepted(req.outputAddresses, req.outputCurrency);
  }

  /** The fee rate: 0.2% on BTC output, 0.5% otherwise (shared with settlement). */
  function FeeRate(currency: string): real {
    if currency == "BTC" then 0.002 else 0.005
  }

  /** `calculateFee`: the fee in BTC. */
  function CalculateFee(btcAmount: real, currency: string): (fee: real)
    ensures currency == "BTC" ==> fee == btcAmount * 0.002
    ensures currency != "BTC" ==> fee == btcAmount * 0.005
  {
    btcAmount * FeeRate(currency)
  }

  /** The fee is a non-negative fraction of a non-negative amount, and smaller on BTC output. */
  lemma FeeBounds(btcAmount: real, currency: string)
    requires btcAmount >= 0.0
    ensures 0.0 <= CalculateFee(btcAmount, currency) <= btcAmount * 0.005
    ensures btcAmount > 0.0 ==> CalculateFee(btcAmount, "BTC") < CalculateFee(btcAmount, currency) || currency == "BTC"
  {
  }

  /**
   * `calculateEstimatedOutput`: BTC output is quoted as the amount itself; otherwise the
   * converted amount less the converted fee. A conversion error is passed on, the amount's first.
   */
  function CalculateEstimatedOutput(btcAmount: real, outputCurrency: string,
                                    pricesAtAmount: Result<map<string, real>, string>,
                                    pricesAtFee: Result<map<string, real>, string>): (r: Result<real, string>)
    requires Prices.NonZeroPrice(pricesAtAmount, outputCurrency) && Prices.NonZeroPrice(pricesAtFee, outputCurrency)
    ensures outputCurrency == "BTC" ==> r == Ok(btcAmount)
    ensures outputCurrency != "BTC" ==>
      var gross := Prices.CalculateExchangeRate(pricesAtAmount, "BTC", outputCurrency, btcAmount);
      var fee := Prices.CalculateExchangeRate(pricesAtFee, "BTC", outputCurrency, CalculateFee(btcAmount, outputCurrency));
      && (gross.Err? ==> r == Err(gross.error))
      && (gross.Ok? && fee.Err? ==> r == Err(fee.error))
      && (r.Ok? <==> gross.Ok? && fee.Ok?)
      && (r.Ok? ==> r.value == gross.value - fee.value)
  {
    if outputCurrency == "BTC" then Ok(btcAmount)
    else
      var gross :- Prices.CalculateExchangeRate(pricesAtAmount, "BTC", outputCurrency, btcAmount);
      var fee :- Prices.CalculateExchangeRate(pricesAtFee, "BTC", outputCurrency, CalculateFee(btcAmount, outputCurrency));
      Ok(gross - fee)
  }

  /**
   * With one price snapshot for both lookups, a non-BTC estimate is the converted amount net
   * of the fee rate.
   */
  lemma EstimateIsNetOfFee(btcAmount: real, outputCurrency: string, prices: map<string, real>)
    requires outputCurrency != "BTC"
    requires "BTC" in prices && outputCurrency in prices && prices[outputCurrency] != 0.0
    ensures CalculateEstimatedOutput(btcAmount, outputCurrency, Ok(prices), Ok(prices)).Ok?
    ensures CalculateEstimatedOutput(btcAmount, outputCurrency, Ok(prices), Ok(prices)).value
         == btcAmount * (1.0 - FeeRate(outputCurrency)) * prices["BTC"] / prices[outputCurrency]
  {
    var p, q := prices["BTC"], prices[outputCurrency];
    var fee := CalculateFee(btcAmount, outputCurrency);
    var gross := Prices.CalculateExchangeRate(Ok(prices), "BTC", outputCurrency, btcAmount).value;
    var feeOut := Prices.CalculateExchangeRate(Ok(prices), "BTC", outputCurrency, fee).value;
    assert gross == btcAmount * p / q;
    assert feeOut == fee * p / q;
    assert gross - feeOut == (btcAmount - fee) * p / q;
  }

  /** A BTC estimate is the full amount: the 0.2% fee is not taken off. */
  lemma BtcEstimateOmitsFee(btcAmount: real, pricesAtAmount: Result<map<string, real>, string>,
                            pricesAtFee: Result<map<string, real>, string>)
    requires btcAmount > 0.0
    requires Prices.NonZeroPrice(pricesAtAmount, "BTC") && Prices.NonZeroPrice(pricesAtFee, "BTC")
    ensures CalculateEstimatedOutput(btcAmount, "BTC", pricesAtAmount, pricesAtFee).value
          > btcAmount - CalculateFee(btcAmount, "BTC")
  {
  }

  /** Why `CreateTransaction` failed. */
  datatype CreateError =
    | InvalidRequest(reason: ValidationError)
    | AddressGenerationFailed(message: string)
    | EstimateFailed(message: string)
    | InsertFailed(message: string)

  /**
   * `CreateTransaction`: validation, then a fresh deposit address, then the estimate and the
   * fee, then the insert of a "pending" row. `digest` is the hash of the random bytes behind
   * the deposit address (or the failure to read them), `newId` the generated id, and
   * `createError` a failure of the insert. `drewAddress` records whether a deposit address
   * was generated.
   */
  method CreateTransaction(db: Database, req: CreateTransactionRequest, digest: Result<seq<Hex.Byte>, string>,
                           pricesAtAmount: Result<map<string, real>, string>,
                           pricesAtFee: Result<map<string, real>, string>,
                           newId: Uuid, createError: Option<string>, now: Time)
    returns (r: Result<Transaction, CreateError>, ghost drewAddress: bool)
    requires db.Valid()
    requires digest.Ok? ==> |digest.value| == 32
    requires newId != NilUuid
    requires Prices.NonZeroPrice(pricesAtAmount, req.outputCurrency) && Prices.NonZeroPrice(pricesAtFee, req.outputCurrency)
    modifies db`transactions
    ensures db.Valid()
    ensures ValidateRequest(req).Some? ==> r == Err(InvalidRequest(ValidateRequest(req).value))
    ensures drewAddress <==> ValidateRequest(req).None?
    ensures ValidateRequest(req).None? && digest.Err? ==>
      r == Err(AddressGenerationFailed(Bitcoin.GenerateAddress(false, digest).error))
    ensures ValidateRequest(req).None? && digest.Ok? ==>
      var estimate := CalculateEstimatedOutput(req.btcAmount, req.outputCurrency, pricesAtAmount, pricesAtFee);
      && (estimate.Err? ==> r == Err(EstimateFailed(estimate.error)))
      && (estimate.Ok? && createError.Some? ==> r == Err(InsertFailed(createError.value)))
      && (estimate.Ok? && createError.None? && newId in old(db.transactions) ==> r == Err(InsertFailed(DuplicateKey)))
      && (estimate.Ok? && createError.None? && newId !in old(db.transactions) ==>
            r == Ok(Transaction(newId, req.btcAmount, req.outputCurrency, req.outputAddresses,
                                Bitcoin.GenerateAddress(false, digest).value, StatusPending,
                                CalculateFee(req.btcAmount, req.outputCurrency), estimate.value, None, now, now)))
    ensures r.Ok? ==> db.transactions == old(db.transactions)[r.value.id := r.value]
    ensures r.Err? ==> db.transactions == old(db.transactions)
    ensures r.Ok? ==> r.value.status == StatusPending && Bitcoin.ValidateBitcoinAddress(r.value.paymentAddress)
  {
    drewAddress := false;
    if !IsSupportedCurrency(req.outputCurrency) {
      return Err(InvalidRequest(UnsupportedCurrency(req.outputCurrency))), drewAddress;
    }
    var addressError := ValidateOutputAddresses(req.outputAddresses, req.outputCurrency);
    if addressError.Some? {
      return Err(InvalidRequest(addressError.value)), drewAddress;
    }
    var allocationError := ValidatePercentageAllocation(req.outputAddresses);
    if allocationError.Some? {
      return Err(InvalidRequest(allocationError.value)), drewAddress;
    }

    drewAddress := true;
    var paymentAddress := Bitcoin.GenerateAddress(false, digest);
    if paymentAddress.Err? {
      return Err(AddressGenerationFailed(paymentAddress.error)), drewAddress;
    }
    var estimate := CalculateEstimatedOutput(req.btcAmount, req.outputCurrency, pricesAtAmount, pricesAtFee);
    if estimate.Err? {
      return Err(EstimateFailed(estimate.error)), drewAddress;
    }
    var fee := CalculateFee(req.btcAmount, req.outputCurrency);

    var transaction := Transaction(newId, req.btcAmount, req.outputCurrency, req.outputAddresses,
                                   paymentAddress.value, StatusPending, fee, estimate.value, None, now, now);
    transaction := BeforeCreate(transaction, newId);
    if createError.Some? {
      return Err(InsertFailed(createError.value)), drewAddress;
    }
    if transaction.id in db.transactions {
      return Err(InsertFailed(DuplicateKey)), drewAddress;
    }
    db.transactions := db.transactions[transaction.id := transaction];
    return Ok(transaction), drewAddress;
  }

  /** `GetTransaction`: the row with the id; `queryError` is a failure of the query itself. */
  function GetTransaction(transactions: map<Uuid, Transaction>, id: Uuid, queryError: Option<string>): (r: Result<Transaction, string>)
    ensures queryError.Some? ==> r == Err("failed to get transaction: " + queryError.value)
    ensures queryError.None? ==> (r.Ok? <==> id in transactions)
    ensures r.Ok? ==> r.value == transactions[id]
    ensures queryError.None? && r.Err? ==> r.error == "transaction not found"
  {
    if queryError.Some? then Err("failed to get transaction: " + queryError.value)
    else if id !in transactions then Err("transaction not found")
    else Ok(transactions[id])
  }

  /** A created record is found by its id, and other ids see what they saw before. */
  lemma CreatedIsFound(transactions: map<Uuid, Transaction>, t: Transaction, other: Uuid)
    requires other != t.id
    ensures GetTransaction(transactions[t.id := t], t.id, None) == Ok(t)
    ensures GetTransaction(transactions[t.id := t], other, None) == GetTransaction(transactions, other, None)
  {
  }
}
