/**
 * The relational store the services share through gorm: one field per table.
 * Rows of the transaction and price tables are keyed by their primary key; payments and
 * wallets are kept in insertion order.
 */
module Store {
  import opened Wrappers
  import opened Models

  /** The message Postgres gives for a primary-key collision. */
  const DuplicateKey: string := "duplicate key value violates unique constraint"

  class Database {
    var transactions: map<Uuid, Transaction>
    var payments: seq<Payment>
    var wallets: seq<Wallet>
    var priceRows: map<string, PriceCache>

    /** Each keyed row is stored under its own primary key; primary keys are unique. */
    ghost predicate Valid()
      reads this
    {
      && (forall id :: id in transactions ==> transactions[id].id == id)
      && (forall c :: c in priceRows ==> priceRows[c].currency == c)
      && (forall i, j :: 0 <= i < j < |payments| ==> payments[i].id != payments[j].id)
      && (forall i, j :: 0 <= i < j < |wallets| ==> wallets[i].id != wallets[j].id)
    }

    constructor()
      ensures Valid()
      ensures transactions == map[] && payments == [] && wallets == [] && priceRows == map[]
    {
      transactions := map[];
      payments := [];
      wallets := [];
      priceRows := map[];
    }

    /**
     * Sets the status of one transaction row, refreshing `updated_at`. `updateError` is a
     * failure of the statement; a statement that matches no row reports "transaction not found".
     */
    method UpdateStatus(id: Uuid, status: string, updateError: Option<string>, now: Time) returns (err: Option<string>)
      requires Valid()
      modifies this`transactions
      ensures Valid()
      ensures updateError.Some? ==>
        err == Some("failed to update transaction status: " + updateError.value) && transactions == old(transactions)
      ensures updateError.None? && id !in old(transactions) ==>
        err == Some("transaction not found") && transactions == old(transactions)
      ensures updateError.None? && id in old(transactions) ==>
        && err.None?
        && transactions == old(transactions)[id := old(transactions)[id].(status := status, updatedAt := now)]
    {
      if updateError.Some? {
        return Some("failed to update transaction status: " + updateError.value);
      }
      if id !in transactions {
        return Some("transaction not found");
      }
      transactions := transactions[id := transactions[id].(status := status, updatedAt := now)];
      return None;
    }
  }
}
