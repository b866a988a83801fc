/**
 * Payment detection against the block explorer (backend/pkg/crypto/payment_monitor.go).
 *
 * The two explorer requests (address statistics and transaction list) are inputs: each is
 * either the decoded JSON or the error the HTTP/JSON layer produced. Amounts are satoshis.
 */
module PaymentMonitor {
  import opened Wrappers
  import Hex

  /** Funding/spending statistics of one address, for the chain or for the mempool. */
  datatype Stats = Stats(fundedTxoCount: int, fundedTxoSum: int, spentTxoCount: int, spentTxoSum: int, txCount: int)

  datatype AddressInfo = AddressInfo(
    address: string,
    chainStats: Stats,
    mempoolStats: Stats,
    totalReceived: int,
    confirmedBalance: int,
    unconfirmedBalance: int)

  datatype Vout = Vout(scriptPubKey: string, scriptPubKeyAddress: string, value: int)

  datatype Vin = Vin(txid: string, vout: int, prevout: Vout)

  datatype TxStatus = TxStatus(confirmed: bool, blockHeight: int, blockHash: string, blockTime: int)

  datatype Tx = Tx(txid: string, vin: seq<Vin>, vout: seq<Vout>, status: TxStatus, fee: int)

  datatype PaymentStatus = PaymentStatus(
    address: string,
    expectedAmount: int,
    totalReceived: int,
    confirmedBalance: int,
    unconfirmedBalance: int,
    status: string,
    confirmations: int,
    paymentTxid: string,
    transactions: seq<Tx>)

  /**
   * The balance derivation of `GetAddressInfo`, applied to the decoded response: everything
   * ever sent to the address, the confirmed balance, and the mempool balance.
   */
  function DeriveBalances(info: AddressInfo): (d: AddressInfo)
    ensures d.address == info.address
    ensures d.chainStats == info.chainStats && d.mempoolStats == info.mempoolStats
    ensures d.totalReceived == info.chainStats.fundedTxoSum + info.mempoolStats.fundedTxoSum
    ensures d.confirmedBalance == info.chainStats.fundedTxoSum - info.chainStats.spentTxoSum
    ensures d.unconfirmedBalance == info.mempoolStats.fundedTxoSum - info.mempoolStats.spentTxoSum
  {
    info.(
      totalReceived := info.chainStats.fundedTxoSum + info.mempoolStats.fundedTxoSum,
      confirmedBalance := info.chainStats.fundedTxoSum - info.chainStats.spentTxoSum,
      unconfirmedBalance := info.mempoolStats.fundedTxoSum - info.mempoolStats.spentTxoSum)
  }

  /** When nothing was ever spent, the two balances add up to what was received. */
  lemma BalancesPartitionReceived(info: AddressInfo)
    requires info.chainStats.spentTxoSum == 0 && info.mempoolStats.spentTxoSum == 0
    ensures DeriveBalances(info).confirmedBalance + DeriveBalances(info).unconfirmedBalance
            == DeriveBalances(info).totalReceived
  {
  }

  /** `GetAddressInfo` after the HTTP request: a failed request stays failed, a decoded one gets its balances. */
  function GetAddressInfo(response: Result<AddressInfo, string>): (r: Result<AddressInfo, string>)
    ensures r.Ok? <==> response.Ok?
    ensures r.Ok? ==> r.value == DeriveBalances(response.value)
  {
    match response
    case Err(e) => Err(e)
    case Ok(info) => Ok(DeriveBalances(info))
  }

  /** `tx` has an output to `address` worth at least `expected`. */
  predicate PaysAtLeast(tx: Tx, address: string, expected: int) {
    exists k :: 0 <= k < |tx.vout| && tx.vout[k].scriptPubKeyAddress == address && tx.vout[k].value >= expected
  }

  /** `tx` is a candidate payment in the branch that looks at `confirmed` transactions. */
  predicate Qualifies(tx: Tx, address: string, expected: int, confirmed: bool) {
    tx.status.confirmed == confirmed && PaysAtLeast(tx, address, expected)
  }

  /** Index of the last qualifying transaction in list order, if any. */
  function LastQualifying(txs: seq<Tx>, address: string, expected: int, confirmed: bool): (r: Option<nat>)
    ensures r.Some? ==> r.value < |txs| && Qualifies(txs[r.value], address, expected, confirmed)
    ensures r.Some? ==> forall j :: r.value < j < |txs| ==> !Qualifies(txs[j], address, expected, confirmed)
    ensures r.None? ==> forall j :: 0 <= j < |txs| ==> !Qualifies(txs[j], address, expected, confirmed)
  {
    if txs == [] then None
    else if Qualifies(txs[|txs| - 1], address, expected, confirmed) then Some(|txs| - 1)
    else
      var r := LastQualifying(txs[..|txs| - 1], address, expected, confirmed);
      assert forall j :: 0 <= j < |txs| - 1 ==> txs[..|txs| - 1][j] == txs[j];
      r
  }

  /** The txid `CheckPayment` reports: that of the last qualifying transaction, or "". */
  function MatchedTxid(txs: seq<Tx>, address: string, expected: int, confirmed: bool): (txid: string)
    ensures (forall j :: 0 <= j < |txs| ==> !Qualifies(txs[j], address, expected, confirmed)) ==> txid == ""
    ensures forall k :: 0 <= k < |txs| && Qualifies(txs[k], address, expected, confirmed)
                        && (forall j :: k < j < |txs| ==> !Qualifies(txs[j], address, expected, confirmed))
                        ==> txid == txs[k].txid
  {
    match LastQualifying(txs, address, expected, confirmed)
    case None => ""
    case Some(k) => txs[k].txid
  }

  /**
   * The classification `CheckPayment` makes from the derived balances: the confirmed balance
   * alone decides "confirmed"; otherwise the mempool balance alone decides "unconfirmed".
   */
  function Classify(confirmedBalance: int, unconfirmedBalance: int, expectedAmount: int): (status: string)
    ensures status == "confirmed" <==> confirmedBalance >= expectedAmount
    ensures status == "unconfirmed" <==> confirmedBalance < expectedAmount <= unconfirmedBalance
    ensures status == "pending" <==> confirmedBalance < expectedAmount && unconfirmedBalance < expectedAmount
  {
    if confirmedBalance >= expectedAmount then "confirmed"
    else if unconfirmedBalance >= expectedAmount then "unconfirmed"
    else "pending"
  }

  /**
   * The transaction-matching loops of `CheckPayment`: every qualifying transaction overwrites
   * the txid, and the `break` leaves only the inner loop over outputs, so the last one wins.
   */
  method FindPaymentTxid(txs: seq<Tx>, address: string, expected: int, confirmed: bool) returns (txid: string)
    ensures txid == MatchedTxid(txs, address, expected, confirmed)
  {
    txid := "";
    var i := 0;
    while i < |txs|
      invariant 0 <= i <= |txs|
      invariant txid == MatchedTxid(txs[..i], address, expected, confirmed)
    {
      var tx := txs[i];
      var before := txid;
      if tx.status.confirmed == confirmed {
        var j := 0;
        while j < |tx.vout|
          invariant 0 <= j <= |tx.vout|
          invariant txid == before
          invariant forall k :: 0 <= k < j ==> !(tx.vout[k].scriptPubKeyAddress == address && tx.vout[k].value >= expected)
        {
          if tx.vout[j].scriptPubKeyAddress == address && tx.vout[j].value >= expected {
            txid := tx.txid;
            break;
          }
          j := j + 1;
        }
      }
      assert txs[..i + 1][..i] == txs[..i];
      assert txs[..i + 1][i] == tx;
      assert txid == (if Qualifies(tx, address, expected, confirmed) then tx.txid else before);
      i := i + 1;
    }
    assert txs[..|txs|] == txs;
  }

  /**
   * `BlockchainExplorer.CheckPayment`: fails when either explorer request failed; otherwise
   * classifies the payment. "confirmed" needs the confirmed balance to cover the amount;
   * "unconfirmed" needs the mempool balance alone to cover it (confirmed and mempool funds
   * are not added up); anything else is "pending".
   */
  method CheckPayment(
    address: string,
    expectedAmount: int,
    infoResponse: Result<AddressInfo, string>,
    txsResponse: Result<seq<Tx>, string>)
    returns (r: Result<PaymentStatus, string>)
    ensures infoResponse.Err? ==> r == Err("failed to get address info: " + infoResponse.error)
    ensures infoResponse.Ok? && txsResponse.Err? ==> r == Err("failed to get transactions: " + txsResponse.error)
    ensures r.Ok? <==> infoResponse.Ok? && txsResponse.Ok?
    ensures r.Ok? ==>
      var info := DeriveBalances(infoResponse.value);
      var st := r.value;
      && st.address == address
      && st.expectedAmount == expectedAmount
      && st.totalReceived == info.totalReceived
      && st.confirmedBalance == info.confirmedBalance
      && st.unconfirmedBalance == info.unconfirmedBalance
      && st.transactions == txsResponse.value
      && st.status == Classify(info.confirmedBalance, info.unconfirmedBalance, expectedAmount)
      && st.confirmations == (if st.status == "confirmed" then 1 else 0)
      && st.paymentTxid == (if st.status == "pending" then ""
                            else MatchedTxid(txsResponse.value, address, expectedAmount, st.status == "confirmed"))
  {
    var infoResult := GetAddressInfo(infoResponse);
    if infoResult.Err? {
      return Err("failed to get address info: " + infoResult.error);
    }
    var info := infoResult.value;
    if txsResponse.Err? {
      return Err("failed to get transactions: " + txsResponse.error);
    }
    var transactions := txsResponse.value;

    var status := PaymentStatus(address, expectedAmount, info.totalReceived, info.confirmedBalance,
                                info.unconfirmedBalance, "", 0, "", transactions);
    if info.confirmedBalance >= expectedAmount {
      var txid := FindPaymentTxid(transactions, address, expectedAmount, true);
      status := status.(status := "confirmed", confirmations := 1, paymentTxid := txid);
    } else if info.unconfirmedBalance >= expectedAmount {
      var txid := FindPaymentTxid(transactions, address, expectedAmount, false);
      status := status.(status := "unconfirmed", confirmations := 0, paymentTxid := txid);
    } else {
      status := status.(status := "pending", confirmations := 0);
    }
    return Ok(status);
  }

  /** Rank of a payment classification: pending < unconfirmed < confirmed. */
  function Rank(status: string): nat {
    if status == "confirmed" then 2 else if status == "unconfirmed" then 1 else 0
  }

  /**
   * While neither balance covers the amount on its own the payment stays "pending", even when
   * the two together would cover it.
   */
  lemma PartialBalancesStayPending(confirmed: int, unconfirmed: int, expected: int)
    requires confirmed < expected && unconfirmed < expected
    ensures Classify(confirmed, unconfirmed, expected) == "pending"
  {
  }

  /** For instance 60 000 confirmed and 50 000 in the mempool against 100 000 expected. */
  lemma SplitDepositStaysPending()
    ensures 60_000 + 50_000 >= 100_000 && Classify(60_000, 50_000, 100_000) == "pending"
  {
    PartialBalancesStayPending(60_000, 50_000, 100_000);
  }

  /** More confirmed or more mempool funds never lower the classification; a larger amount never raises it. */
  lemma ClassifyMonotone(confirmed: int, unconfirmed: int, expected: int, confirmed': int, unconfirmed': int, expected': int)
    requires confirmed <= confirmed' && unconfirmed <= unconfirmed' && expected' <= expected
    ensures Rank(Classify(confirmed, unconfirmed, expected)) <= Rank(Classify(confirmed', unconfirmed', expected'))
  {
  }

  /** When two transactions both qualify, the second one's txid is reported, whatever the amount and state. */
  lemma LastMatchWins(address: string, expected: int, confirmed: bool, first: Tx, second: Tx)
    requires Qualifies(first, address, expected, confirmed) && Qualifies(second, address, expected, confirmed)
    ensures MatchedTxid([first, second], address, expected, confirmed) == second.txid
  {
  }

  /** `SatoshisToBTC`: exact division by 10^8 (float64 rounding is not modelled). */
  function SatoshisToBTC(satoshis: int): (btc: real)
    ensures btc * 100_000_000.0 == satoshis as real
  {
    satoshis as real / 100_000_000.0
  }

  /** Go's float-to-int conversion: truncation toward zero. */
  function TruncateToInt(x: real): (n: int)
    ensures x >= 0.0 ==> n as real <= x < n as real + 1.0
    ensures x < 0.0 ==> n as real - 1.0 < x <= n as real
  {
    if x >= 0.0 then x.Floor else -((-x).Floor)
  }

  /** `BTCToSatoshis`: the amount in satoshis, truncated toward zero. */
  function BTCToSatoshis(btc: real): (satoshis: int)
    ensures btc >= 0.0 ==> 0 <= satoshis && satoshis as real <= btc * 100_000_000.0 < satoshis as real + 1.0
  {
    TruncateToInt(btc * 100_000_000.0)
  }

  /** Whole satoshi amounts survive the trip through BTC. */
  lemma SatoshisRoundTrip(satoshis: int)
    ensures BTCToSatoshis(SatoshisToBTC(satoshis)) == satoshis
  {
    assert SatoshisToBTC(satoshis) * 100_000_000.0 == satoshis as real;
  }

  /** Converting to satoshis and back loses less than one satoshi and never adds value. */
  lemma BtcRoundTripLoss(btc: real)
    requires btc >= 0.0
    ensures btc - 0.000_000_01 < SatoshisToBTC(BTCToSatoshis(btc)) <= btc
  {
    var s := BTCToSatoshis(btc);
    assert SatoshisToBTC(s) * 100_000_000.0 == s as real;
  }

  /** The deposit-key map of `WalletManager`: address to private key. */
  type PrivateKey = seq<Hex.Byte>

  class WalletManager {
    const testnet: bool
    /**
     * P2PKH address of a key on this manager's network, or the failure of address encoding
     * (key hashing and base58 are not modelled).
     */
    const deriveAddress: PrivateKey -> Result<string, string>
    var addresses: map<string, PrivateKey>

    /** Every stored key is filed under the address it derives. */
    ghost predicate Valid()
      reads this
    {
      forall a :: a in addresses ==> deriveAddress(addresses[a]) == Ok(a)
    }

    constructor(testnet: bool, deriveAddress: PrivateKey -> Result<string, string>)
      ensures Valid()
      ensures this.testnet == testnet && this.deriveAddress == deriveAddress && addresses == map[]
    {
      this.testnet := testnet;
      this.deriveAddress := deriveAddress;
      addresses := map[];
    }

    /**
     * `GenerateAddressWithKey`: `key` is the fresh key pair or the failure of key generation.
     * The key is filed under its address; other entries are untouched.
     */
    method GenerateAddressWithKey(key: Result<PrivateKey, string>) returns (r: Result<string, string>)
      requires Valid()
      modifies this`addresses
      ensures Valid()
      ensures key.Err? ==> r == Err("failed to generate private key: " + key.error)
      ensures key.Ok? && deriveAddress(key.value).Err? ==>
                r == Err("failed to create address: " + deriveAddress(key.value).error)
      ensures r.Ok? <==> key.Ok? && deriveAddress(key.value).Ok?
      ensures r.Ok? ==> deriveAddress(key.value) == r && addresses == old(addresses)[r.value := key.value]
      ensures r.Err? ==> addresses == old(addresses)
    {
      if key.Err? {
        return Err("failed to generate private key: " + key.error);
      }
      var address := deriveAddress(key.value);
      if address.Err? {
        return Err("failed to create address: " + address.error);
      }
      addresses := addresses[address.value := key.value];
      return Ok(address.value);
    }

    /** `GetPrivateKey`: the stored key, which derives the address asked for, or "not found". */
    method GetPrivateKey(address: string) returns (r: Result<PrivateKey, string>)
      requires Valid()
      ensures r.Ok? <==> address in addresses
      ensures r.Ok? ==> r.value == addresses[address] && deriveAddress(r.value) == Ok(address)
      ensures r.Err? ==> r.error == "private key not found for address: " + address
    {
      if address !in addresses {
        return Err("private key not found for address: " + address);
      }
      return Ok(addresses[address]);
    }
  }
}
