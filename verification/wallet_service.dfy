/**
 * The key vault (backend/internal/services/wallet_service.go): deposit-address private keys
 * sealed with AES-GCM, hex-encoded, and kept in the `wallets` table with an `is_active` flag.
 *
 * The cipher is abstract: the key derived from the master secret, and the AES-GCM instance
 * built from it, are a `Result<Aead, string>` (the error covers a cipher that cannot be
 * built). Fresh nonces and row ids, and database failures, are inputs.
 */
module Wallets {
  import opened Wrappers
  import opened Models
  import opened Store
  import Hex

  type Bytes = seq<Hex.Byte>

  /** An authenticated cipher with a fixed nonce size (the AES-GCM interface). */
  datatype Aead = Aead(
    nonceSize: nat,
    seal: (Bytes, Bytes) -> Bytes,
    open: (Bytes, Bytes) -> Result<Bytes, string>)

  /** Opening what was sealed under a well-sized nonce gives the plaintext back (NIST SP 800-38D). */
  ghost predicate Correct(c: Aead) {
    forall nonce: Bytes, plaintext: Bytes ::
      |nonce| == c.nonceSize ==> c.open(nonce, c.seal(nonce, plaintext)) == Ok(plaintext)
  }

  /** `encrypt`: a fresh nonce followed by the sealed data. `nonce` is the read from the random source. */
  function Encrypt(gcm: Result<Aead, string>, data: Bytes, nonce: Result<Bytes, string>): (r: Result<Bytes, string>)
    requires gcm.Ok? && nonce.Ok? ==> |nonce.value| == gcm.value.nonceSize
    ensures r.Ok? <==> gcm.Ok? && nonce.Ok?
    ensures gcm.Err? ==> r == Err(gcm.error)
    ensures gcm.Ok? && nonce.Err? ==> r == Err(nonce.error)
    ensures r.Ok? ==> var n := gcm.value.nonceSize;
      && |r.value| >= n
      && r.value[..n] == nonce.value
      && r.value[n..] == gcm.value.seal(nonce.value, data)
  {
    match gcm
    case Err(e) => Err(e)
    case Ok(c) =>
      match nonce
      case Err(e) => Err(e)
      case Ok(n) =>
        var sealed := n + c.seal(n, data);
        assert sealed[..|n|] == n && sealed[|n|..] == c.seal(n, data);
        Ok(sealed)
  }

  /** `decrypt`: splits off the nonce and opens the rest; input shorter than a nonce is refused. */
  function Decrypt(gcm: Result<Aead, string>, data: Bytes): (r: Result<Bytes, string>)
    ensures gcm.Err? ==> r == Err(gcm.error)
    ensures gcm.Ok? && |data| < gcm.value.nonceSize ==> r == Err("ciphertext too short")
    ensures gcm.Ok? && |data| >= gcm.value.nonceSize ==>
      r == gcm.value.open(data[..gcm.value.nonceSize], data[gcm.value.nonceSize..])
  {
    match gcm
    case Err(e) => Err(e)
    case Ok(c) =>
      if |data| < c.nonceSize then Err("ciphertext too short")
      else c.open(data[..c.nonceSize], data[c.nonceSize..])
  }

  /** With a correct cipher, decryption undoes encryption. */
  lemma DecryptEncrypt(c: Aead, data: Bytes, nonce: Bytes)
    requires Correct(c) && |nonce| == c.nonceSize
    ensures Decrypt(Ok(c), Encrypt(Ok(c), data, Ok(nonce)).value) == Ok(data)
  {
    var sealed := Encrypt(Ok(c), data, Ok(nonce)).value;
    assert sealed[..c.nonceSize] == nonce;
    assert c.open(nonce, c.seal(nonce, data)) == Ok(data);
  }

  // ---------------------------------------------------------------- the wallets table

  /** The row filters the vault queries with. */
  datatype Filter = ActiveAddress(address: string) | ActiveTransaction(transactionId: Uuid)

  predicate Matches(w: Wallet, f: Filter) {
    w.isActive &&
    match f
    case ActiveAddress(a) => w.address == a
    case ActiveTransaction(t) => w.transactionId == Some(t)
  }

  /** gorm's `First`: the matching row with the least primary key. */
  function FirstMatching(wallets: seq<Wallet>, f: Filter): (r: Option<Wallet>)
    ensures r.Some? ==> r.value in wallets && Matches(r.value, f)
    ensures r.Some? ==> forall w :: w in wallets && Matches(w, f) ==> r.value.id <= w.id
    ensures r.None? <==> forall w :: w in wallets ==> !Matches(w, f)
  {
    if wallets == [] then None
    else
      var init, last := wallets[..|wallets| - 1], wallets[|wallets| - 1];
      assert wallets == init + [last];
      var best := FirstMatching(init, f);
      if !Matches(last, f) then best
      else if best.Some? && best.value.id <= last.id then best
      else Some(last)
  }

  /** `GetPrivateKey`, given the table and the outcome of the query (`queryError`). */
  function GetPrivateKey(wallets: seq<Wallet>, gcm: Result<Aead, string>, address: string,
                         queryError: Option<string>): (r: Result<Bytes, string>)
    ensures queryError.Some? ==> r == Err("failed to get wallet: " + queryError.value)
    ensures queryError.None? && FirstMatching(wallets, ActiveAddress(address)).None? ==>
      r == Err("private key not found for address: " + address)
    ensures queryError.None? && FirstMatching(wallets, ActiveAddress(address)).Some? ==>
      var sealed := Hex.Decode(FirstMatching(wallets, ActiveAddress(address)).value.encryptedPrivKey);
      && (sealed.Err? ==> r == Err("failed to decode encrypted key: " + Hex.ErrorText(sealed.error)))
      && (sealed.Ok? && Decrypt(gcm, sealed.value).Err? ==>
            r == Err("failed to decrypt private key: " + Decrypt(gcm, sealed.value).error))
      && (sealed.Ok? && Decrypt(gcm, sealed.value).Ok? ==> r == Decrypt(gcm, sealed.value))
    ensures r.Ok? ==> exists w :: w in wallets && w.isActive && w.address == address
  {
    if queryError.Some? then Err("failed to get wallet: " + queryError.value)
    else match FirstMatching(wallets, ActiveAddress(address))
      case None => Err("private key not found for address: " + address)
      case Some(w) =>
        match Hex.Decode(w.encryptedPrivKey)
        case Err(e) => Err("failed to decode encrypted key: " + Hex.ErrorText(e))
        case Ok(sealed) =>
          match Decrypt(gcm, sealed)
          case Err(e) => Err("failed to decrypt private key: " + e)
          case Ok(key) => Ok(key)
  }

  /** `GetWalletByTransaction`: the active row recorded for the transaction. */
  function GetWalletByTransaction(wallets: seq<Wallet>, transactionId: Uuid, queryError: Option<string>): (r: Result<Wallet, string>)
    ensures queryError.Some? ==> r == Err("failed to get wallet: " + queryError.value)
    ensures queryError.None? ==> (r.Ok? <==> exists w :: w in wallets && w.isActive && w.transactionId == Some(transactionId))
    ensures r.Ok? ==> r.value in wallets && r.value.isActive && r.value.transactionId == Some(transactionId)
    ensures queryError.None? && r.Err? ==> r.error == "wallet not found for transaction: " + UuidText(transactionId)
  {
    if queryError.Some? then Err("failed to get wallet: " + queryError.value)
    else match FirstMatching(wallets, ActiveTransaction(transactionId))
      case None => Err("wallet not found for transaction: " + UuidText(transactionId))
      case Some(w) =>
        assert Matches(w, ActiveTransaction(transactionId));
        Ok(w)
  }

  /** The active rows, in table order. */
  function ActiveRows(wallets: seq<Wallet>): (r: seq<Wallet>)
    ensures forall w :: w in r <==> w in wallets && w.isActive
    ensures |r| <= |wallets|
  {
    if wallets == [] then []
    else
      var rest := ActiveRows(wallets[1..]);
      assert forall w :: w in wallets <==> w == wallets[0] || w in wallets[1..];
      if wallets[0].isActive then [wallets[0]] + rest else rest
  }

  /** `ListActiveWallets`. */
  function ListActiveWallets(wallets: seq<Wallet>, queryError: Option<string>): (r: Result<seq<Wallet>, string>)
    ensures queryError.Some? ==> r == Err("failed to list wallets: " + queryError.value)
    ensures queryError.None? ==> r.Ok? && forall w :: w in r.value <==> w in wallets && w.isActive
  {
    if queryError.Some? then Err("failed to list wallets: " + queryError.value)
    else Ok(ActiveRows(wallets))
  }

  /** Some row, active or not, has this address. */
  predicate HasAddress(wallets: seq<Wallet>, address: string) {
    exists i :: 0 <= i < |wallets| && wallets[i].address == address
  }

  /** Some row has this primary key. */
  predicate IdTaken(wallets: seq<Wallet>, id: Uuid) {
    exists i :: 0 <= i < |wallets| && wallets[i].id == id
  }

  /** The table after every row with `address` has been switched off. */
  function Deactivated(wallets: seq<Wallet>, address: string): (r: seq<Wallet>)
    ensures |r| == |wallets|
  {
    seq(|wallets|, i requires 0 <= i < |wallets| =>
      if wallets[i].address == address then wallets[i].(isActive := false) else wallets[i])
  }

  /**
   * `StorePrivateKey`: seals the serialised key and inserts one active row for the address,
   * recording the transaction. `nonce` is the random nonce read, `newId` the generated row id
   * and `createError` a failure of the insert.
   */
  method StorePrivateKey(db: Database, gcm: Result<Aead, string>, address: string, privateKey: Bytes,
                         transactionId: Uuid, nonce: Result<Bytes, string>, newId: Uuid, createError: Option<string>)
    returns (err: Option<string>)
    requires db.Valid()
    requires gcm.Ok? && nonce.Ok? ==> |nonce.value| == gcm.value.nonceSize
    modifies db`wallets
    ensures db.Valid()
    ensures var sealed := Encrypt(gcm, privateKey, nonce);
      && (sealed.Err? ==> err == Some("failed to encrypt private key: " + sealed.error))
      && (sealed.Ok? && createError.Some? ==> err == Some("failed to store wallet: " + createError.value))
      && (sealed.Ok? && createError.None? && IdTaken(old(db.wallets), newId) ==>
            err == Some("failed to store wallet: " + DuplicateKey))
      && (err.None? <==> sealed.Ok? && createError.None? && !IdTaken(old(db.wallets), newId))
      && (err.None? ==> db.wallets == old(db.wallets) + [Wallet(newId, address, Hex.Encode(sealed.value), Some(transactionId), true)])
      && (err.Some? ==> db.wallets == old(db.wallets))
  {
    var sealed := Encrypt(gcm, privateKey, nonce);
    if sealed.Err? {
      return Some("failed to encrypt private key: " + sealed.error);
    }
    var wallet := Wallet(newId, address, Hex.Encode(sealed.value), Some(transactionId), true);
    if createError.Some? {
      return Some("failed to store wallet: " + createError.value);
    }
    if IdTaken(db.wallets, newId) {
      return Some("failed to store wallet: " + DuplicateKey);
    }
    db.wallets := db.wallets + [wallet];
    return None;
  }

  /**
   * `DeactivateWallet`: clears `is_active` on every row with the address. The update counts the
   * rows it matched, so an address with only inactive rows still succeeds; an address with no
   * row is "wallet not found". `updateError` is a failure of the update statement.
   */
  method DeactivateWallet(db: Database, address: string, updateError: Option<string>) returns (err: Option<string>)
    requires db.Valid()
    modifies db`wallets
    ensures db.Valid()
    ensures updateError.Some? ==> err == Some("failed to deactivate wallet: " + updateError.value) && db.wallets == old(db.wallets)
    ensures updateError.None? ==> db.wallets == Deactivated(old(db.wallets), address)
    ensures updateError.None? ==> (err.None? <==> HasAddress(old(db.wallets), address))
    ensures updateError.None? && err.Some? ==> err.value == "wallet not found"
  {
    if updateError.Some? {
      return Some("failed to deactivate wallet: " + updateError.value);
    }
    var affected := 0;
    var i := 0;
    while i < |db.wallets|
      invariant 0 <= i <= |db.wallets| == |old(db.wallets)|
      invariant forall k :: 0 <= k < i ==> db.wallets[k] == Deactivated(old(db.wallets), address)[k]
      invariant forall k :: i <= k < |db.wallets| ==> db.wallets[k] == old(db.wallets)[k]
      invariant affected == 0 <==> forall k :: 0 <= k < i ==> old(db.wallets)[k].address != address
    {
      if db.wallets[i].address == address {
        db.wallets := db.wallets[i := db.wallets[i].(isActive := false)];
        affected := affected + 1;
      }
      i := i + 1;
    }
    assert db.wallets == Deactivated(old(db.wallets), address);
    if affected == 0 {
      return Some("wallet not found");
    }
    return None;
  }

  /**
   * A key stored for an address that had no active row is what `GetPrivateKey` returns
   * afterwards, provided the cipher is correct.
   */
  lemma StoreThenGet(wallets: seq<Wallet>, c: Aead, address: string, privateKey: Bytes,
                     transactionId: Uuid, nonce: Bytes, newId: Uuid)
    requires Correct(c) && |nonce| == c.nonceSize
    requires forall w :: w in wallets ==> !Matches(w, ActiveAddress(address))
    ensures var row := Wallet(newId, address, Hex.Encode(Encrypt(Ok(c), privateKey, Ok(nonce)).value), Some(transactionId), true);
      GetPrivateKey(wallets + [row], Ok(c), address, None) == Ok(privateKey)
  {
    var sealed := Encrypt(Ok(c), privateKey, Ok(nonce)).value;
    var row := Wallet(newId, address, Hex.Encode(sealed), Some(transactionId), true);
    var after := wallets + [row];
    assert row in after && Matches(row, ActiveAddress(address));
    assert forall w :: w in after ==> w in wallets || w == row;
    assert FirstMatching(after, ActiveAddress(address)) == Some(row);
    Hex.DecodeEncode(sealed);
    DecryptEncrypt(c, privateKey, nonce);
  }

  /** After deactivation no key is served for the address. */
  lemma DeactivateThenGet(wallets: seq<Wallet>, gcm: Result<Aead, string>, address: string)
    ensures GetPrivateKey(Deactivated(wallets, address), gcm, address, None)
         == Err("private key not found for address: " + address)
  {
    var after := Deactivated(wallets, address);
    forall w | w in after
      ensures !Matches(w, ActiveAddress(address))
    {
      var i :| 0 <= i < |after| && after[i] == w;
    }
  }

  /** Deactivation leaves the lookups of other addresses as they were. */
  lemma {:induction false} DeactivateLeavesOthers(wallets: seq<Wallet>, address: string, other: string)
    requires other != address
    ensures FirstMatching(Deactivated(wallets, address), ActiveAddress(other))
         == FirstMatching(wallets, ActiveAddress(other))
    decreases |wallets|
  {
    if wallets != [] {
      var init := wallets[..|wallets| - 1];
      var after := Deactivated(wallets, address);
      assert after[..|after| - 1] == Deactivated(init, address);
      DeactivateLeavesOthers(init, address, other);
    }
  }
}
