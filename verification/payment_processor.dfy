/**
 * Settlement (backend/internal/services/payment_processor.go): polling the explorer for a
 * transaction's deposit, recording the payment, pricing the output and moving the record
 * through waiting, processing and a terminal status.
 *
 * Time is explicit: the ticker's polls are a finite sequence, each carrying the two
 * explorer responses and the clock reading; the 30-minute deadline fires after the last.
 */
module Settlement {
  import opened Wrappers
  import opened Models
  import opened Store
  import Prices
  import Ledger
  import PaymentMonitor

  /** `calculateFinalOutput`: the amount converted at settlement prices, less the fee rate. */
  function CalculateFinalOutput(resolved: Result<map<string, real>, string>, t: Transaction): (r: Result<real, string>)
    requires Prices.NonZeroPrice(resolved, t.outputCurrency)
    ensures var gross := Prices.CalculateExchangeRate(resolved, "BTC", t.outputCurrency, t.btcAmount);
      && (gross.Err? ==> r == Err("failed to calculate exchange rate: " + gross.error))
      && (gross.Ok? ==> r.Ok? && r.value == gross.value * (1.0 - Ledger.FeeRate(t.outputCurrency)))
  {
    var gross := Prices.CalculateExchangeRate(resolved, "BTC", t.outputCurrency, t.btcAmount);
    if gross.Err? then Err("failed to calculate exchange rate: " + gross.error)
    else Ok(gross.value * (1.0 - Ledger.FeeRate(t.outputCurrency)))
  }

  /** For non-BTC output, settling at the quoting prices pays out exactly the estimate. */
  lemma FinalOutputMatchesEstimate(t: Transaction, prices: map<string, real>)
    requires t.outputCurrency != "BTC"
    requires "BTC" in prices && t.outputCurrency in prices && prices[t.outputCurrency] != 0.0
    ensures CalculateFinalOutput(Ok(prices), t).Ok?
    ensures CalculateFinalOutput(Ok(prices), t).value
         == Ledger.CalculateEstimatedOutput(t.btcAmount, t.outputCurrency, Ok(prices), Ok(prices)).value
  {
    Ledger.EstimateIsNetOfFee(t.btcAmount, t.outputCurrency, prices);
    var p, q := prices["BTC"], prices[t.outputCurrency];
    var gross := Prices.CalculateExchangeRate(Ok(prices), "BTC", t.outputCurrency, t.btcAmount).value;
    assert gross == t.btcAmount * p / q;
    assert gross * (1.0 - Ledger.FeeRate(t.outputCurrency)) == t.btcAmount * (1.0 - Ledger.FeeRate(t.outputCurrency)) * p / q;
  }

  /** For BTC output the payout is 0.2% below the quoted estimate, which left the fee out. */
  lemma BtcFinalOutputBelowEstimate(t: Transaction, prices: map<string, real>)
    requires t.outputCurrency == "BTC" && t.btcAmount > 0.0
    requires "BTC" in prices && prices["BTC"] != 0.0
    ensures CalculateFinalOutput(Ok(prices), t).Ok?
    ensures CalculateFinalOutput(Ok(prices), t).value == t.btcAmount * 0.998
    ensures CalculateFinalOutput(Ok(prices), t).value
          < Ledger.CalculateEstimatedOutput(t.btcAmount, t.outputCurrency, Ok(prices), Ok(prices)).value
  {
    Prices.RateIdentity(prices, "BTC", t.btcAmount);
  }

  /** The payment record `storePaymentInfo` writes for a payment status. */
  function PaymentRecord(id: Uuid, transactionId: Uuid, status: PaymentMonitor.PaymentStatus, detectedAt: Time): (p: Payment)
    ensures p.amountBtc * 100_000_000.0 == status.totalReceived as real
  {
    Payment(id, transactionId, status.address, status.totalReceived,
            PaymentMonitor.SatoshisToBTC(status.totalReceived), status.paymentTxid,
            status.confirmations, status.status, detectedAt)
  }

  /** Some payment row has this primary key. */
  predicate PaymentIdTaken(payments: seq<Payment>, id: Uuid) {
    exists i :: 0 <= i < |payments| && payments[i].id == id
  }

  /**
   * `storePaymentInfo`: inserts one payment record. `newId` is the generated id and
   * `createError` a failure of the insert.
   */
  method StorePaymentInfo(db: Database, transactionId: Uuid, status: PaymentMonitor.PaymentStatus,
                          newId: Uuid, createError: Option<string>, now: Time) returns (err: Option<string>)
    requires db.Valid()
    modifies db`payments
    ensures db.Valid()
    ensures createError.Some? ==> err == Some("failed to create payment record: " + createError.value)
    ensures createError.None? && PaymentIdTaken(old(db.payments), newId) ==>
      err == Some("failed to create payment record: " + DuplicateKey)
    ensures err.None? <==> createError.None? && !PaymentIdTaken(old(db.payments), newId)
    ensures err.None? ==> db.payments == old(db.payments) + [PaymentRecord(newId, transactionId, status, now)]
    ensures err.Some? ==> db.payments == old(db.payments)
  {
    if createError.Some? {
      return Some("failed to create payment record: " + createError.value);
    }
    if PaymentIdTaken(db.payments, newId) {
      return Some("failed to create payment record: " + DuplicateKey);
    }
    db.payments := db.payments + [PaymentRecord(newId, transactionId, status, now)];
    return None;
  }

  /**
   * `processExchange`: prices the output and stores it in `final_output`. A failure to
   * store (`writeError`) is only logged; a pricing failure is returned.
   */
  method ProcessExchange(db: Database, id: Uuid, t: Transaction, resolved: Result<map<string, real>, string>,
                         writeError: Option<string>, now: Time) returns (err: Option<string>)
    requires db.Valid()
    requires Prices.NonZeroPrice(resolved, t.outputCurrency)
    modifies db`transactions
    ensures db.Valid()
    ensures var out := CalculateFinalOutput(resolved, t);
      && (out.Err? ==> err == Some("failed to calculate final output: " + out.error))
      && (out.Ok? ==> err.None?)
      && (out.Ok? && writeError.None? && id in old(db.transactions) ==>
            db.transactions == old(db.transactions)[id := old(db.transactions)[id].(finalOutput := Some(out.value), updatedAt := now)])
      && (out.Err? || writeError.Some? || id !in old(db.transactions) ==> db.transactions == old(db.transactions))
  {
    var out := CalculateFinalOutput(resolved, t);
    if out.Err? {
      return Some("failed to calculate final output: " + out.error);
    }
    if writeError.None? && id in db.transactions {
      db.transactions := db.transactions[id := db.transactions[id].(finalOutput := Some(out.value), updatedAt := now)];
    }
    return None;
  }

  /** One tick of the ticker: the clock reading and the explorer's two responses. */
  datatype Poll = Poll(at: Time, info: Result<PaymentMonitor.AddressInfo, string>, txs: Result<seq<PaymentMonitor.Tx>, string>)

  /** The status `CheckPayment` reports for a poll, or `None` when the check fails. */
  function PollOutcome(poll: Poll, address: string, expected: int): (r: Option<string>)
    ensures r.None? <==> poll.info.Err? || poll.txs.Err?
    ensures r == Some("confirmed") <==>
              poll.info.Ok? && poll.txs.Ok?
              && poll.info.value.chainStats.fundedTxoSum - poll.info.value.chainStats.spentTxoSum >= expected
    ensures r == Some("unconfirmed") <==>
              poll.info.Ok? && poll.txs.Ok?
              && poll.info.value.chainStats.fundedTxoSum - poll.info.value.chainStats.spentTxoSum < expected
              <= poll.info.value.mempoolStats.fundedTxoSum - poll.info.value.mempoolStats.spentTxoSum
  {
    if poll.info.Err? || poll.txs.Err? then None
    else
      var balances := PaymentMonitor.DeriveBalances(poll.info.value);
      Some(PaymentMonitor.Classify(balances.confirmedBalance, balances.unconfirmedBalance, expected))
  }

  /** The first poll that reports the payment confirmed. */
  function FirstConfirmed(polls: seq<Poll>, address: string, expected: int, from: nat): (r: Option<nat>)
    requires from <= |polls|
    ensures r.Some? ==> from <= r.value < |polls| && PollOutcome(polls[r.value], address, expected) == Some("confirmed")
    ensures r.Some? ==> forall j :: from <= j < r.value ==> PollOutcome(polls[j], address, expected) != Some("confirmed")
    ensures r.None? <==> forall j :: from <= j < |polls| ==> PollOutcome(polls[j], address, expected) != Some("confirmed")
    decreases |polls| - from
  {
    if from == |polls| then None
    else if PollOutcome(polls[from], address, expected) == Some("confirmed") then Some(from)
    else FirstConfirmed(polls, address, expected, from + 1)
  }

  function StatusRank(status: string): nat {
    if status == StatusWaiting then 0 else if status == StatusProcessing then 1 else 2
  }

  predicate IsTerminal(status: string) {
    status == StatusCompleted || status == StatusFailed || status == StatusExpired
  }

  /** A run's status writes: "waiting", then any number of "processing", then one terminal status. */
  predicate Lifecycle(writes: seq<string>) {
    && |writes| >= 2
    && writes[0] == StatusWaiting
    && IsTerminal(writes[|writes| - 1])
    && forall i :: 0 < i < |writes| - 1 ==> writes[i] == StatusProcessing
  }

  /** Along a run, the status never moves backwards, and only the last write is terminal. */
  lemma LifecycleMonotone(writes: seq<string>)
    requires Lifecycle(writes)
    ensures forall i, j :: 0 <= i <= j < |writes| ==> StatusRank(writes[i]) <= StatusRank(writes[j])
    ensures forall i :: 0 <= i < |writes| - 1 ==> !IsTerminal(writes[i])
  {
  }

  /** The payment status `CheckPayment` reports for a poll that finds the payment confirmed. */
  function ConfirmedStatus(poll: Poll, address: string, expected: int): PaymentMonitor.PaymentStatus
    requires poll.info.Ok? && poll.txs.Ok?
  {
    var balances := PaymentMonitor.DeriveBalances(poll.info.value);
    PaymentMonitor.PaymentStatus(
      address, expected, balances.totalReceived, balances.confirmedBalance, balances.unconfirmedBalance,
      "confirmed", 1, PaymentMonitor.MatchedTxid(poll.txs.value, address, expected, true), poll.txs.value)
  }

  /**
   * The outcome of the confirmed branch for the loaded row `t`: the payment record is added
   * unless its insert fails; the exchange result is priced from `t`; the stored row (`txBefore[id]`)
   * ends "completed" with the settled output (kept as it was when that write fails), or
   * "failed" when pricing fails. `writes` are the status values written.
   */
  ghost predicate SettleOutcome(
    t: Transaction, id: Uuid, status: PaymentMonitor.PaymentStatus, at: Time,
    settlementPrices: Result<map<string, real>, string>,
    newPaymentId: Uuid, paymentInsertError: Option<string>, finalOutputWriteError: Option<string>,
    txBefore: map<Uuid, Transaction>, paymentsBefore: seq<Payment>,
    txAfter: map<Uuid, Transaction>, paymentsAfter: seq<Payment>,
    err: Option<string>, writes: seq<string>)
    requires id in txBefore
    requires Prices.NonZeroPrice(settlementPrices, t.outputCurrency)
  {
    var out := CalculateFinalOutput(settlementPrices, t);
    var row := txBefore[id];
    && paymentsAfter == (if paymentInsertError.None? && !PaymentIdTaken(paymentsBefore, newPaymentId)
                         then paymentsBefore + [PaymentRecord(newPaymentId, id, status, at)]
                         else paymentsBefore)
    && (out.Err? ==>
          && err == Some("failed to calculate final output: " + out.error)
          && writes == [StatusProcessing, StatusFailed]
          && txAfter == txBefore[id := row.(status := StatusFailed, updatedAt := at)])
    && (out.Ok? ==>
          && err.None?
          && writes == [StatusProcessing, StatusCompleted]
          && txAfter == txBefore[id := row.(status := StatusCompleted, updatedAt := at,
               finalOutput := if finalOutputWriteError.None? then Some(out.value) else row.finalOutput)])
  }

  /**
   * The end of the confirmed branch: the exchange, then "completed", or "failed" when the
   * exchange fails; `last` is the status written.
   */
  method FinishExchange(db: Database, id: Uuid, t: Transaction, settlementPrices: Result<map<string, real>, string>,
                        finalOutputWriteError: Option<string>, at: Time)
    returns (err: Option<string>, last: string)
    requires db.Valid() && id in db.transactions
    requires Prices.NonZeroPrice(settlementPrices, t.outputCurrency)
    modifies db`transactions
    ensures db.Valid()
    ensures var out := CalculateFinalOutput(settlementPrices, t);
      var row := old(db.transactions)[id];
      && (out.Err? ==>
            && err == Some("failed to calculate final output: " + out.error)
            && last == StatusFailed
            && db.transactions == old(db.transactions)[id := row.(status := StatusFailed, updatedAt := at)])
      && (out.Ok? ==>
            && err.None?
            && last == StatusCompleted
            && db.transactions == old(db.transactions)[id := row.(status := StatusCompleted, updatedAt := at,
                 finalOutput := if finalOutputWriteError.None? then Some(out.value) else row.finalOutput)])
  {
    var exchangeErr := ProcessExchange(db, id, t, settlementPrices, finalOutputWriteError, at);
    if exchangeErr.Some? {
      var failedErr := db.UpdateStatus(id, StatusFailed, None, at);
      return exchangeErr, StatusFailed;
    }
    var completedErr := db.UpdateStatus(id, StatusCompleted, None, at);
    return None, StatusCompleted;
  }

  /** `SettleOutcome` from the effects of its steps: the "processing" write, the payment insert and the exchange. */
  lemma SettleSteps(
    t: Transaction, id: Uuid, status: PaymentMonitor.PaymentStatus, at: Time,
    settlementPrices: Result<map<string, real>, string>,
    newPaymentId: Uuid, paymentInsertError: Option<string>, finalOutputWriteError: Option<string>,
    txBefore: map<Uuid, Transaction>, paymentsBefore: seq<Payment>, processing: map<Uuid, Transaction>,
    txAfter: map<Uuid, Transaction>, paymentsAfter: seq<Payment>, err: Option<string>, last: string)
    requires id in txBefore
    requires Prices.NonZeroPrice(settlementPrices, t.outputCurrency)
    requires processing == txBefore[id := txBefore[id].(status := StatusProcessing, updatedAt := at)]
    requires paymentsAfter == (if paymentInsertError.None? && !PaymentIdTaken(paymentsBefore, newPaymentId)
                               then paymentsBefore + [PaymentRecord(newPaymentId, id, status, at)]
                               else paymentsBefore)
    requires var out := CalculateFinalOutput(settlementPrices, t);
      var row := processing[id];
      && (out.Err? ==>
            && err == Some("failed to calculate final output: " + out.error)
            && last == StatusFailed
            && txAfter == processing[id := row.(status := StatusFailed, updatedAt := at)])
      && (out.Ok? ==>
            && err.None?
            && last == StatusCompleted
            && txAfter == processing[id := row.(status := StatusCompleted, updatedAt := at,
                 finalOutput := if finalOutputWriteError.None? then Some(out.value) else row.finalOutput)])
    ensures SettleOutcome(t, id, status, at, settlementPrices, newPaymentId, paymentInsertError, finalOutputWriteError,
                          txBefore, paymentsBefore, txAfter, paymentsAfter, err, [StatusProcessing, last])
  {
  }

  /**
   * The confirmed branch of the polling loop: "processing", the payment record, the exchange,
   * then "completed", or "failed" when the exchange fails. `writes` are the status values written.
   */
  method Settle(db: Database, id: Uuid, t: Transaction, status: PaymentMonitor.PaymentStatus, at: Time,
                settlementPrices: Result<map<string, real>, string>,
                newPaymentId: Uuid, paymentInsertError: Option<string>, finalOutputWriteError: Option<string>)
    returns (err: Option<string>, ghost writes: seq<string>)
    requires db.Valid() && id in db.transactions
    requires Prices.NonZeroPrice(settlementPrices, t.outputCurrency)
    modifies db`transactions, db`payments
    ensures db.Valid()
    ensures SettleOutcome(t, id, status, at, settlementPrices, newPaymentId, paymentInsertError, finalOutputWriteError,
                          old(db.transactions), old(db.payments), db.transactions, db.payments, err, writes)
  {
    var processingErr := db.UpdateStatus(id, StatusProcessing, None, at);
    var paymentErr := StorePaymentInfo(db, id, status, newPaymentId, paymentInsertError, at);
    ghost var processing := db.transactions;
    var last;
    err, last := FinishExchange(db, id, t, settlementPrices, finalOutputWriteError, at);
    writes := [StatusProcessing, last];
    SettleSteps(t, id, status, at, settlementPrices, newPaymentId, paymentInsertError, finalOutputWriteError,
                old(db.transactions), old(db.payments), processing, db.transactions, db.payments, err, last);
  }

  /** The poll at which the payment was seen confirmed, and the status reported there. */
  datatype Confirmation = Confirmation(index: nat, status: PaymentMonitor.PaymentStatus)

  /**
   * One tick of the polling loop: the payment check, reporting a confirmed status, and the
   * "processing" write an "unconfirmed" check makes when the loaded row `t` is not "processing".
   */
  method ObservePoll(db: Database, id: Uuid, t: Transaction, expected: int, poll: Poll)
    returns (confirmed: Option<PaymentMonitor.PaymentStatus>, ghost wrote: bool)
    requires db.Valid() && id in db.transactions
    modifies db`transactions
    ensures db.Valid() && id in db.transactions
    ensures confirmed.Some? <==> PollOutcome(poll, t.paymentAddress, expected) == Some("confirmed")
    ensures confirmed.Some? ==>
      poll.info.Ok? && poll.txs.Ok? && confirmed.value == ConfirmedStatus(poll, t.paymentAddress, expected)
    ensures wrote <==> PollOutcome(poll, t.paymentAddress, expected) == Some("unconfirmed") && t.status != StatusProcessing
    ensures wrote ==>
      db.transactions == old(db.transactions)[id := old(db.transactions)[id].(status := StatusProcessing, updatedAt := poll.at)]
    ensures !wrote ==> db.transactions == old(db.transactions)
  {
    wrote := false;
    var check := PaymentMonitor.CheckPayment(t.paymentAddress, expected, poll.info, poll.txs);
    if check.Ok? {
      var status := check.value;
      if status.status == "confirmed" {
        return Some(status), wrote;
      } else if status.status == "unconfirmed" {
        if t.status != StatusProcessing {
          var processingErr := db.UpdateStatus(id, StatusProcessing, None, poll.at);
          wrote := true;
        }
      }
    }
    return None, wrote;
  }

  /**
   * The polling loop up to the first confirmed poll: failed and "pending" checks change
   * nothing; an "unconfirmed" one writes "processing" whenever the loaded row `t` is not
   * "processing". `writes` are the status values written.
   */
  method WatchPolls(db: Database, id: Uuid, t: Transaction, expected: int, polls: seq<Poll>)
    returns (found: Option<Confirmation>, ghost writes: seq<string>)
    requires db.Valid() && id in db.transactions
    modifies db`transactions
    ensures db.Valid() && id in db.transactions
    ensures found.None? <==> FirstConfirmed(polls, t.paymentAddress, expected, 0).None?
    ensures found.Some? ==>
      && FirstConfirmed(polls, t.paymentAddress, expected, 0) == Some(found.value.index)
      && found.value.status == ConfirmedStatus(polls[found.value.index], t.paymentAddress, expected)
    ensures forall j :: 0 <= j < |writes| ==> writes[j] == StatusProcessing
    ensures db.transactions == old(db.transactions)[id := db.transactions[id]]
    ensures var row := old(db.transactions)[id];
      db.transactions[id] == row.(status := db.transactions[id].status, updatedAt := db.transactions[id].updatedAt)
    ensures db.transactions[id].status == if writes == [] then old(db.transactions)[id].status else StatusProcessing
  {
    writes := [];
    ghost var row := db.transactions[id];
    var i := 0;
    while i < |polls|
      invariant 0 <= i <= |polls|
      invariant db.Valid() && id in db.transactions
      invariant forall j :: 0 <= j < |writes| ==> writes[j] == StatusProcessing
      invariant db.transactions == old(db.transactions)[id := db.transactions[id]]
      invariant db.transactions[id] == row.(status := db.transactions[id].status, updatedAt := db.transactions[id].updatedAt)
      invariant db.transactions[id].status == if writes == [] then row.status else StatusProcessing
      invariant forall j :: 0 <= j < i ==> PollOutcome(polls[j], t.paymentAddress, expected) != Some("confirmed")
    {
      var confirmed, wrote := ObservePoll(db, id, t, expected, polls[i]);
      if confirmed.Some? {
        assert FirstConfirmed(polls, t.paymentAddress, expected, 0) == Some(i);
        return Some(Confirmation(i, confirmed.value)), writes;
      }
      if wrote {
        writes := writes + [StatusProcessing];
      }
      i := i + 1;
    }
    return None, writes;
  }

  /**
   * How a run that got past the "waiting" write ends, for the loaded row `row`: the status
   * writes follow the lifecycle, only that row and the payments table change, and
   *  - with no confirmed poll the row ends "expired" at the deadline, with "payment timeout";
   *  - otherwise, at the first confirmed poll, one payment record is added (unless its insert
   *    fails) and the row ends "completed" with the settled output, or "failed" when pricing fails.
   */
  ghost predicate RunOutcome(
    row: Transaction, id: Uuid, polls: seq<Poll>, deadline: Time,
    settlementPrices: Result<map<string, real>, string>,
    newPaymentId: Uuid, paymentInsertError: Option<string>, finalOutputWriteError: Option<string>,
    txBefore: map<Uuid, Transaction>, paymentsBefore: seq<Payment>,
    txAfter: map<Uuid, Transaction>, paymentsAfter: seq<Payment>,
    err: Option<string>, writes: seq<string>)
    requires Prices.NonZeroPrice(settlementPrices, row.outputCurrency)
  {
    var expected := PaymentMonitor.BTCToSatoshis(row.btcAmount);
    var k := FirstConfirmed(polls, row.paymentAddress, expected, 0);
    && Lifecycle(writes)
    && id in txAfter
    && txAfter == txBefore[id := txAfter[id]]
    && txAfter[id].status == writes[|writes| - 1]
    && (k.None? ==>
          && err == Some("payment timeout")
          && txAfter[id] == row.(status := StatusExpired, updatedAt := deadline)
          && paymentsAfter == paymentsBefore)
    && (k.Some? ==>
          var poll := polls[k.value];
          var out := CalculateFinalOutput(settlementPrices, row);
          && paymentsAfter == (if paymentInsertError.None? && !PaymentIdTaken(paymentsBefore, newPaymentId)
                               then paymentsBefore + [PaymentRecord(newPaymentId, id, ConfirmedStatus(poll, row.paymentAddress, expected), poll.at)]
                               else paymentsBefore)
          && (out.Err? ==>
                && err == Some("failed to calculate final output: " + out.error)
                && txAfter[id] == row.(status := StatusFailed, updatedAt := poll.at))
          && (out.Ok? ==>
                && err.None?
                && txAfter[id] == row.(status := StatusCompleted, updatedAt := poll.at,
                     finalOutput := if finalOutputWriteError.None? then Some(out.value) else row.finalOutput)))
  }

  /** A run's writes: "waiting", the "processing" writes of the polling loop, then the settlement or expiry. */
  lemma RunLifecycle(watched: seq<string>, tail: seq<string>)
    requires forall j :: 0 <= j < |watched| ==> watched[j] == StatusProcessing
    requires tail == [StatusExpired] || tail == [StatusProcessing, StatusFailed] || tail == [StatusProcessing, StatusCompleted]
    ensures Lifecycle([StatusWaiting] + (watched + tail))
    ensures ([StatusWaiting] + (watched + tail))[|watched| + |tail|] == tail[|tail| - 1]
  {
    var w := [StatusWaiting] + (watched + tail);
    assert forall i :: 0 < i <= |watched| ==> w[i] == watched[i - 1];
  }

  /** A run with no confirmed poll ends "expired" at the deadline. */
  lemma ExpiredRun(
    row: Transaction, id: Uuid, polls: seq<Poll>, deadline: Time,
    settlementPrices: Result<map<string, real>, string>,
    newPaymentId: Uuid, paymentInsertError: Option<string>, finalOutputWriteError: Option<string>,
    txBefore: map<Uuid, Transaction>, payments: seq<Payment>, watched: seq<string>)
    requires Prices.NonZeroPrice(settlementPrices, row.outputCurrency)
    requires id in txBefore
    requires FirstConfirmed(polls, row.paymentAddress, PaymentMonitor.BTCToSatoshis(row.btcAmount), 0).None?
    requires forall j :: 0 <= j < |watched| ==> watched[j] == StatusProcessing
    ensures RunOutcome(row, id, polls, deadline, settlementPrices, newPaymentId, paymentInsertError, finalOutputWriteError,
                       txBefore, payments, txBefore[id := row.(status := StatusExpired, updatedAt := deadline)], payments,
                       Some("payment timeout"), [StatusWaiting] + (watched + [StatusExpired]))
  {
    RunLifecycle(watched, [StatusExpired]);
  }

  /** A run settled at its first confirmed poll `index`, from the row `settling` left by the polling loop. */
  lemma SettledRun(
    row: Transaction, id: Uuid, polls: seq<Poll>, deadline: Time,
    settlementPrices: Result<map<string, real>, string>,
    newPaymentId: Uuid, paymentInsertError: Option<string>, finalOutputWriteError: Option<string>,
    txBefore: map<Uuid, Transaction>, paymentsBefore: seq<Payment>,
    txAfter: map<Uuid, Transaction>, paymentsAfter: seq<Payment>,
    err: Option<string>, watched: seq<string>, settled: seq<string>, index: nat, settling: Transaction)
    requires Prices.NonZeroPrice(settlementPrices, row.outputCurrency)
    requires id in txBefore
    requires FirstConfirmed(polls, row.paymentAddress, PaymentMonitor.BTCToSatoshis(row.btcAmount), 0) == Some(index)
    requires forall j :: 0 <= j < |watched| ==> watched[j] == StatusProcessing
    requires settling == row.(status := settling.status, updatedAt := settling.updatedAt)
    requires SettleOutcome(row, id, ConfirmedStatus(polls[index], row.paymentAddress, PaymentMonitor.BTCToSatoshis(row.btcAmount)),
                           polls[index].at, settlementPrices, newPaymentId, paymentInsertError, finalOutputWriteError,
                           txBefore[id := settling], paymentsBefore, txAfter, paymentsAfter, err, settled)
    ensures RunOutcome(row, id, polls, deadline, settlementPrices, newPaymentId, paymentInsertError, finalOutputWriteError,
                       txBefore, paymentsBefore, txAfter, paymentsAfter, err, [StatusWaiting] + (watched + settled))
  {
    RunLifecycle(watched, settled);
  }

  /** The run after the "waiting" write: watch the polls, then settle or expire. */
  method Monitor(db: Database, id: Uuid, row: Transaction, polls: seq<Poll>, deadline: Time,
                 settlementPrices: Result<map<string, real>, string>,
                 newPaymentId: Uuid, paymentInsertError: Option<string>, finalOutputWriteError: Option<string>,
                 ghost txBefore: map<Uuid, Transaction>, ghost start: Time)
    returns (err: Option<string>, ghost writes: seq<string>)
    requires db.Valid()
    requires Prices.NonZeroPrice(settlementPrices, row.outputCurrency)
    requires id in txBefore && db.transactions == txBefore[id := row.(status := StatusWaiting, updatedAt := start)]
    modifies db`transactions, db`payments
    ensures db.Valid()
    ensures RunOutcome(row, id, polls, deadline, settlementPrices, newPaymentId, paymentInsertError, finalOutputWriteError,
                       txBefore, old(db.payments), db.transactions, db.payments, err, [StatusWaiting] + writes)
  {
    var expected := PaymentMonitor.BTCToSatoshis(row.btcAmount);
    ghost var watched;
    var found;
    ghost var paymentsBefore := db.payments;
    found, watched := WatchPolls(db, id, row, expected, polls);
    ghost var settling := db.transactions[id];
    assert db.transactions == txBefore[id := settling];
    if found.Some? {
      ghost var settled;
      err, settled := Settle(db, id, row, found.value.status, polls[found.value.index].at, settlementPrices,
                             newPaymentId, paymentInsertError, finalOutputWriteError);
      writes := watched + settled;
      SettledRun(row, id, polls, deadline, settlementPrices, newPaymentId, paymentInsertError, finalOutputWriteError,
                 txBefore, paymentsBefore, db.transactions, db.payments, err, watched, settled, found.value.index, settling);
    } else {
      var expiredErr := db.UpdateStatus(id, StatusExpired, None, deadline);
      writes := watched + [StatusExpired];
      err := Some("payment timeout");
      ExpiredRun(row, id, polls, deadline, settlementPrices, newPaymentId, paymentInsertError, finalOutputWriteError,
                 txBefore, paymentsBefore, watched);
    }
  }

  /**
   * `ProcessTransaction`. Loads the row and marks it "waiting", then runs `Monitor`.
   *
   * Environment inputs: `loadError` (a failure of the load), `waitingWriteError` (a failure of
   * the first status write; later status writes are taken to succeed), the polls and the
   * deadline, `settlementPrices` (the price resolution at settlement),
   * `newPaymentId`/`paymentInsertError` (the payment insert) and `finalOutputWriteError` (the
   * `final_output` write). `writes` is the sequence of status values written.
   */
  method ProcessTransaction(db: Database, id: Uuid, loadError: Option<string>, waitingWriteError: Option<string>,
                            start: Time, polls: seq<Poll>, deadline: Time,
                            settlementPrices: Result<map<string, real>, string>,
                            newPaymentId: Uuid, paymentInsertError: Option<string>,
                            finalOutputWriteError: Option<string>)
    returns (err: Option<string>, ghost writes: seq<string>)
    requires db.Valid()
    requires id in db.transactions ==> Prices.NonZeroPrice(settlementPrices, db.transactions[id].outputCurrency)
    modifies db`transactions, db`payments
    ensures db.Valid()
    ensures loadError.Some? ==> err == Some("failed to get transaction: " + loadError.value)
    ensures loadError.None? && id !in old(db.transactions) ==> err == Some("failed to get transaction: record not found")
    ensures loadError.None? && id in old(db.transactions) && waitingWriteError.Some? ==>
      err == Some("failed to update transaction status: " + ("failed to update transaction status: " + waitingWriteError.value))
    ensures loadError.Some? || id !in old(db.transactions) || waitingWriteError.Some? ==>
      && writes == []
      && db.transactions == old(db.transactions)
      && db.payments == old(db.payments)
    ensures loadError.None? && id in old(db.transactions) && waitingWriteError.None? ==>
      RunOutcome(old(db.transactions)[id], id, polls, deadline, settlementPrices,
                 newPaymentId, paymentInsertError, finalOutputWriteError,
                 old(db.transactions), old(db.payments), db.transactions, db.payments, err, writes)
  {
    writes := [];
    if loadError.Some? {
      return Some("failed to get transaction: " + loadError.value), writes;
    }
    if id !in db.transactions {
      return Some("failed to get transaction: record not found"), writes;
    }
    var transaction := db.transactions[id];

    var waitingErr := db.UpdateStatus(id, StatusWaiting, waitingWriteError, start);
    if waitingErr.Some? {
      return Some("failed to update transaction status: " + waitingErr.value), writes;
    }
    ghost var monitored;
    err, monitored := Monitor(db, id, transaction, polls, deadline, settlementPrices,
                              newPaymentId, paymentInsertError, finalOutputWriteError, old(db.transactions), start);
    writes := [StatusWaiting] + monitored;
  }
}
