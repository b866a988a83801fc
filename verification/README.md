# hellomix exchange pipeline in Dafny

A verified model of the exchange-request pipeline of the hellomix Go backend. A customer asks
to swap a BTC amount into one of seven currencies, split across 1 to 7 destination addresses.
The backend validates the request and prices it. It then hands out a deposit address and stores
a `pending` record. It polls a block explorer until the deposit is confirmed or a deadline
passes. Finally it records the payment and re-prices the output at settlement.

One Dafny module per Go file of the core:

| module | Go file | form |
|---|---|---|
| `Bitcoin` | backend/pkg/crypto/bitcoin.go | functions over `string`, with exact characterisations of each per-chain validator |
| `PaymentMonitor` | backend/pkg/crypto/payment_monitor.go | balance arithmetic and classification as functions; the txid-matching loops as a method; `WalletManager` as a class over an address-to-key map |
| `Ledger` | backend/internal/services/transaction_service.go | validation, fee and estimate as functions; the percentage loop and the insert as methods |
| `Settlement` | backend/internal/services/payment_processor.go | the polling loop, status writes and payment insert as methods on the store |
| `Prices` | backend/internal/services/price_service.go | the cache, upstream and database readers as loops proved against specification functions; `GetPrices` as a method that writes the cache and the database |
| `Wallets` | backend/internal/services/wallet_service.go | the nonce framing as functions over an abstract AEAD; insertion and deactivation as methods on the wallets table |
| `Models` | backend/internal/models/models.go | the records, the status constants, `Scan`/`Value` over a JSON tree, `BeforeCreate` |

Three supporting modules are not in that table:

- `Wrappers` holds `Option` and `Result`.
- `Hex` models Go's `encoding/hex` and proves both round trips.
- `Store` is the shared relational store: a `Database` class with one field per table (`transactions`, `payments`, `wallets`, `priceRows`) and the status-update statement.

The outside world is supplied as parameters, each one being what the code would receive:

- explorer responses
- the decoded CoinGecko reply
- cache and database failures
- fresh ids, nonces and digests
- clock readings

Money and percentages are exact `real`s; satoshis are `int`.

How the model reads the code where the obvious reading differs:

- **Matched txid.** `CheckPayment` reports the txid of the LAST qualifying transaction in list order. Its `break` leaves only the loop over outputs (`PaymentMonitor.LastMatchWins`).
- **"unconfirmed".** The classification compares the mempool balance ALONE with the expected amount. Confirmed and mempool funds are never added up (`PaymentMonitor.PartialBalancesStayPending`).
- **BTC estimate.** For BTC output the estimate is the full amount with no fee taken off. The settled output is 0.2% lower (`Ledger.BtcEstimateOmitsFee`, `Settlement.BtcFinalOutputBelowEstimate`).
- **"unconfirmed" writes.** An "unconfirmed" poll writes "processing" whenever the status of the row as loaded at the start is not "processing". That status is never refreshed, so the write repeats on every such poll (`Settlement.ObservePoll`).
- **gorm writes refresh `updated_at`.** gorm's `Update` and `Updates` also set `updated_at` on a model with that field. So `UpdateTransactionStatus` (transaction_service.go) refreshes it too, and `Store.Database.UpdateStatus` models both status-update functions. gorm counts matched rows, so a row already holding the status still counts as found.
- **Row lookups.** gorm's `First` returns the matching row with the least primary key (`Wallets.FirstMatching`).
- **Record types not declared in models.go.** `Payment`, `Wallet` and the `final_output` column do not appear there. Their fields are taken from the writes in payment_processor.go:182-192, wallet_service.go:97-103 and payment_processor.go:144-146.
- **Receiver mutation.** `Scan` and `BeforeCreate` mutate their receiver. They are modelled as functions that return the receiver's new value.
- **Uuid text.** Ids are naturals, with 0 playing `uuid.Nil`. Their text form in error messages is decimal, standing in for the canonical uuid text.
- **Float conversions.** Go's float-to-int conversion truncates toward zero (`PaymentMonitor.TruncateToInt`).

## Model

| member | source | states |
|---|---|---|
| Hex.Encode | backend/pkg/crypto/bitcoin.go:41 | hex encoding gives two lower-case hex digits per byte |
| Hex.Decode | backend/internal/services/wallet_service.go:124-127 | a decoded string has two characters per byte |
| Hex.DecodeSucceeds | backend/internal/services/wallet_service.go:124-127 | decoding succeeds iff the text has even length and only hex digits of either case; only such a text of odd length gives "encoding/hex: odd length hex string" |
| Hex.DecodeReportsFirstBadDigit | backend/internal/services/wallet_service.go:124-127 | every other failure is "encoding/hex: invalid byte" naming the first UTF-8 byte of the first character that is not a hex digit |
| Hex.InvalidDigitReported | backend/internal/services/wallet_service.go:124-127 | "0g" and "ab?" fail on the bad character; "abc" fails on its length |
| Hex.DecodeEncode | backend/internal/services/wallet_service.go:124-127 | decoding the hex text of any byte string gives that byte string back |
| Hex.EncodeDecode | backend/internal/services/wallet_service.go:124-127 | every even-length lower-case hex string decodes, and re-encoding gives the same text |
| Bitcoin.AsciiUtf8Len | backend/pkg/crypto/bitcoin.go:83 | for ASCII text Go's `len` (UTF-8 bytes) equals the character count |
| Bitcoin.AllSatisfy | backend/pkg/crypto/bitcoin.go:105-111 | the early-return character loop is true exactly when every character passes |
| Bitcoin.CharRange | backend/pkg/crypto/bitcoin.go:145 | a run of the alphabet holds exactly the characters between its bounds |
| Bitcoin.Base58AlphabetShape | backend/pkg/crypto/bitcoin.go:145 | the Solana alphabet has 58 characters: the digits 1-9 and the letters without I, O and l |
| Bitcoin.ValidateAddress | backend/pkg/crypto/bitcoin.go:66-79 | acceptance implies one of the seven known symbols; each symbol is dispatched to its chain's validator |
| Bitcoin.ValidateBitcoinAddress | backend/pkg/crypto/bitcoin.go:82-91 | an accepted address is 26..35 bytes long and starts with 1, 3, bc1, tb1, m or 2 |
| Bitcoin.ServiceValidateAddress | backend/pkg/crypto/bitcoin.go:46-55 | the same consequences of acceptance for `BitcoinService.ValidateAddress`: 26..35 bytes and one of the prefixes 1, 3, bc1, tb1, m, 2 |
| Bitcoin.ServiceAgreesWithValidator | backend/pkg/crypto/bitcoin.go:46-55 | `BitcoinService.ValidateAddress` and the BTC validator agree on every input |
| Bitcoin.BitcoinAsciiCharacterisation | backend/pkg/crypto/bitcoin.go:82-91 | an ASCII address is valid BTC iff it has 26..35 characters and starts with 1, 3, bc1, tb1, m or 2 |
| Bitcoin.BitcoinExamples | backend/cmd/test/main.go:32-45 | the genesis address is accepted as BTC and "invalid_address" is rejected |
| Bitcoin.LegacyAddressAccepted | backend/pkg/crypto/bitcoin.go:82-91 | any ASCII string of 26..35 characters starting with "1" is accepted |
| Bitcoin.GenesisAccepted | backend/cmd/test/main.go:34 | the genesis address passes the BTC rule |
| Bitcoin.InvalidAddressRejected | backend/cmd/test/main.go:35 | "invalid_address" fails the BTC rule |
| Bitcoin.ValidateEthereumAddress | backend/pkg/crypto/bitcoin.go:94-114 | an accepted address is 42 bytes long, starts with "0x", and every later character is a hex digit |
| Bitcoin.EthereumCharacterisation | backend/pkg/crypto/bitcoin.go:94-114 | an ETH/USDT/USDC/MATIC address is valid iff it has 42 characters, starts with "0x", and the other 40 are hex digits of either case |
| Bitcoin.CardanoCharacterisation | backend/pkg/crypto/bitcoin.go:117-135 | an ADA address is valid iff it is 50..120 bytes and starts with addr, Ae or Dd |
| Bitcoin.ValidateCardanoAddress | backend/pkg/crypto/bitcoin.go:117-135 | acceptance implies the length window and one of the three prefixes |
| Bitcoin.ValidateSolanaAddress | backend/pkg/crypto/bitcoin.go:138-160 | an accepted address is 32..44 bytes long and every character is in the base58 alphabet |
| Bitcoin.SolanaCharacterisation | backend/pkg/crypto/bitcoin.go:138-160 | a SOL address is valid iff it has 32..44 characters, all in the base58 alphabet |
| Bitcoin.GenerateAddress | backend/pkg/crypto/bitcoin.go:24-43 | a random-source failure is reported; otherwise the address is "1" (mainnet) or "m" (testnet) plus 32 lower-case hex digits that decode to the first 16 digest bytes, 33 characters in all, and it passes BTC validation |
| PaymentMonitor.DeriveBalances | backend/pkg/crypto/payment_monitor.go:181-183 | total received is chain funded plus mempool funded; confirmed balance is chain funded minus chain spent; unconfirmed balance is mempool funded minus mempool spent; the statistics are kept |
| PaymentMonitor.BalancesPartitionReceived | backend/pkg/crypto/payment_monitor.go:181-183 | with nothing spent, the confirmed and unconfirmed balances add up to the total received |
| PaymentMonitor.GetAddressInfo | backend/pkg/crypto/payment_monitor.go:152-186 | a failed request stays an error; a decoded one carries the derived balances |
| PaymentMonitor.LastQualifying | backend/pkg/crypto/payment_monitor.go:247-262 | the index found qualifies and no later transaction does; none is found only when no transaction qualifies |
| PaymentMonitor.MatchedTxid | backend/pkg/crypto/payment_monitor.go:247-262 | the txid is that of a qualifying transaction with no qualifying one after it, and "" when none qualifies |
| PaymentMonitor.Classify | backend/pkg/crypto/payment_monitor.go:242-281 | "confirmed" iff the confirmed balance covers the amount; "unconfirmed" iff it does not but the mempool balance alone does; "pending" iff neither |
| PaymentMonitor.FindPaymentTxid | backend/pkg/crypto/payment_monitor.go:247-262 | the nested loops yield the txid of the last qualifying transaction, or "" |
| PaymentMonitor.CheckPayment | backend/pkg/crypto/payment_monitor.go:221-284 | an explorer failure gives the matching error and no status; otherwise the address, amount, balances and transaction list are echoed, the status is the classification, confirmations are 1 only when confirmed, and the txid is the last match (empty when pending) |
| PaymentMonitor.PartialBalancesStayPending | backend/pkg/crypto/payment_monitor.go:263-281 | while neither the confirmed nor the mempool balance covers the amount on its own, the payment is "pending", whatever their sum |
| PaymentMonitor.SplitDepositStaysPending | backend/pkg/crypto/payment_monitor.go:263-281 | 60 000 confirmed plus 50 000 in the mempool against 100 000 expected is "pending" |
| PaymentMonitor.ClassifyMonotone | backend/pkg/crypto/payment_monitor.go:242-281 | more funds never lower the classification and a larger amount never raises it |
| PaymentMonitor.LastMatchWins | backend/pkg/crypto/payment_monitor.go:247-262 | with two qualifying transactions the second one's txid is reported, for any amount and either confirmation state |
| PaymentMonitor.SatoshisToBTC | backend/pkg/crypto/payment_monitor.go:324-326 | the BTC amount times 10^8 is the satoshi amount |
| PaymentMonitor.TruncateToInt | backend/pkg/crypto/payment_monitor.go:330 | the conversion truncates toward zero |
| PaymentMonitor.BTCToSatoshis | backend/pkg/crypto/payment_monitor.go:329-331 | a non-negative amount gives the whole satoshis not exceeding it |
| PaymentMonitor.SatoshisRoundTrip | backend/pkg/crypto/payment_monitor.go:324-331 | satoshis to BTC and back is the identity |
| PaymentMonitor.BtcRoundTripLoss | backend/pkg/crypto/payment_monitor.go:324-331 | BTC to satoshis and back loses less than one satoshi and never adds value |
| PaymentMonitor.WalletManager.constructor | backend/pkg/crypto/payment_monitor.go:26-40 | a new manager has an empty address map on the chosen network |
| PaymentMonitor.WalletManager.GenerateAddressWithKey | backend/pkg/crypto/payment_monitor.go:43-65 | key-generation and address-encoding failures give their errors and leave the map unchanged; otherwise the key is filed under its derived address and nothing else changes |
| PaymentMonitor.WalletManager.GetPrivateKey | backend/pkg/crypto/payment_monitor.go:68-74 | the stored key is returned iff the address is in the map, and it derives that address; otherwise "private key not found for address" |
| Models.UuidText | backend/internal/services/wallet_service.go:145 | an id's text is a non-empty run of digits |
| Models.StatusesDistinct | backend/internal/models/models.go:78-85 | the six status constants are pairwise distinct |
| Models.MarshalOutputAddresses | backend/internal/models/models.go:55 | the JSON array holds one encoded object per entry, in order |
| Models.Value | backend/internal/models/models.go:51-56 | the stored value is SQL NULL exactly for the empty list; otherwise it is bytes |
| Models.ObjectAddress | backend/internal/models/models.go:47 | an element's address is the last string assigned to it by a key equal to "address" up to case folding, or the value its slot already held |
| Models.ObjectPercentage | backend/internal/models/models.go:47 | the same for the percentage and numbers |
| Models.ObjectError | backend/internal/models/models.go:47 | an object decodes without error iff no member gives a field a JSON kind its Go type cannot hold; otherwise the first such member's type error is reported |
| Models.DecodeElement | backend/internal/models/models.go:47 | `null` and non-object elements leave their slot as it was; `null` is no error and any other non-object kind is one |
| Models.DecodeItems | backend/internal/models/models.go:47 | the result has one element per array item, each decoded into its slot (the receiver's element, or the zero value past its end) whatever errors the other items raise |
| Models.ItemsError | backend/internal/models/models.go:47 | an array decodes without error iff every item does; otherwise the first failing item's error is reported |
| Models.UnmarshalOutputAddresses | backend/internal/models/models.go:47 | `null` empties the list; an array gives one element per item; any other kind is a type error that leaves the list as it was |
| Models.Scan | backend/internal/models/models.go:36-48 | NULL gives the empty list with no error; a non-byte value is ignored; bytes that are not JSON give the syntax error and leave the receiver unchanged; JSON is decoded into the receiver, keeping what was decoded when a type error is reported |
| Models.FieldNames | backend/internal/models/models.go:28-29 | each JSON field name selects its own field and not the other |
| Models.DecodeMarshalled | backend/internal/models/models.go:47-55 | an element's JSON decodes back to it with no error, whatever its slot held |
| Models.UnmarshalMarshalItems | backend/internal/models/models.go:47-55 | decoding the JSON of any list into any receiver gives the list back with no error |
| Models.ScanValueRoundTrip | backend/internal/models/models.go:36-56 | scanning what `Value` stored gives the same list, the empty one included, with no error, whatever the receiver held |
| Models.MistypedFieldKeepsTheRest | backend/internal/models/models.go:47 | `[{"address":5,"percentage":10}]` scanned into an empty list gives one element with percentage 10 and an empty address, together with the type error for the address |
| Models.KeysMatchWhateverTheirCase | backend/internal/models/models.go:47 | `{"ADDRESS":"x","Percentage":1}` fills both fields with no error |
| Models.BeforeCreate | backend/internal/models/models.go:88-93 | a record with a nil id gets the fresh id; any other record is unchanged; the result never has a nil id |
| Store.Database.constructor | backend/internal/models/models.go:13-24 | a new store is empty and well formed |
| Store.Database.UpdateStatus | backend/internal/services/payment_processor.go:203-221 | a statement failure is reported and changes nothing; an unknown id gives "transaction not found" and changes nothing; otherwise only that row's status and updated_at change |
| Ledger.IsSupportedCurrency | backend/internal/services/transaction_service.go:129-137 | a currency is supported exactly when it is one of the seven symbols the price service quotes |
| Ledger.SupportedEverywhere | backend/internal/services/transaction_service.go:129-137 | the supported currencies are exactly the address validator's symbols |
| Ledger.EntryError | backend/internal/services/transaction_service.go:150-161 | an entry passes iff its address is non-empty and valid for the currency and its percentage is in (0, 100] |
| Ledger.FirstInvalidEntry | backend/internal/services/transaction_service.go:150-161 | the index found is the first failing entry; none is found iff every entry passes |
| Ledger.ValidateOutputAddresses | backend/internal/services/transaction_service.go:140-164 | an empty list and more than 7 entries are refused; otherwise the error reported is that of the first failing entry, with its 1-based position |
| Ledger.OutputAddressesAccepted | backend/internal/services/transaction_service.go:140-164 | the list is accepted iff it has 1..7 entries and every entry passes |
| Ledger.PercentageTotalAppend | backend/internal/services/transaction_service.go:168-171 | the total of two lists joined is the sum of their totals |
| Ledger.PercentageTotalBounds | backend/internal/services/transaction_service.go:168-171 | entries with percentages in (0, 100] have a positive total of at most 100 per entry |
| Ledger.ValidatePercentageAllocation | backend/internal/services/transaction_service.go:167-178 | succeeds iff the sum of the percentages is in [99.9, 100.1]; otherwise the error carries the sum |
| Ledger.ValidateRequest | backend/internal/services/transaction_service.go:43-56 | an unsupported currency is reported first, then an address-list error |
| Ledger.ValidateRequestCharacterisation | backend/internal/services/transaction_service.go:43-56 | a request passes iff the currency is supported, the list has 1..7 valid entries and the percentages sum to [99.9, 100.1] |
| Ledger.CalculateFee | backend/internal/services/transaction_service.go:205-213 | the fee is 0.2% of the amount for BTC and 0.5% otherwise |
| Ledger.FeeBounds | backend/internal/services/transaction_service.go:205-213 | the fee of a non-negative amount is between 0 and 0.5% of it, and strictly lower for BTC than for any other currency |
| Ledger.CalculateEstimatedOutput | backend/internal/services/transaction_service.go:181-202 | BTC output is the amount unchanged; otherwise an error in either conversion is passed on, the amount's first, and success gives the converted amount minus the converted fee |
| Ledger.EstimateIsNetOfFee | backend/internal/services/transaction_service.go:181-202 | at one price snapshot a non-BTC estimate is amount × (1 − fee rate) × price(BTC) / price(currency) |
| Ledger.BtcEstimateOmitsFee | backend/internal/services/transaction_service.go:182-184 | a BTC estimate exceeds the amount net of its fee |
| Ledger.CreateTransaction | backend/internal/services/transaction_service.go:42-95 | validation runs before any address is drawn and a refusal inserts nothing; address, estimate and insert failures are reported in that order and insert nothing; success inserts exactly one "pending" row with the generated address, the fee and the estimate, and its address passes BTC validation |
| Ledger.GetTransaction | backend/internal/services/transaction_service.go:98-108 | the row is returned iff the id is stored; otherwise "transaction not found", or the query error |
| Ledger.CreatedIsFound | backend/internal/services/transaction_service.go:74-108 | a created row is found by its id, and other ids see what they saw before |
| Settlement.CalculateFinalOutput | backend/internal/services/payment_processor.go:162-177 | a conversion error is passed on; otherwise the result is the BTC amount converted at settlement prices times (1 − fee rate) |
| Settlement.FinalOutputMatchesEstimate | backend/internal/services/payment_processor.go:162-177 | for non-BTC output at the quoting prices the settled output equals the estimate |
| Settlement.BtcFinalOutputBelowEstimate | backend/internal/services/payment_processor.go:170-175 | for BTC output the payout is 0.998 of the amount, below the estimate |
| Settlement.PaymentRecord | backend/internal/services/payment_processor.go:182-192 | the recorded BTC amount is the received satoshis divided by 10^8 |
| Settlement.StorePaymentInfo | backend/internal/services/payment_processor.go:180-200 | an insert failure is reported and adds nothing; otherwise exactly one record of the payment status is appended |
| Settlement.ProcessExchange | backend/internal/services/payment_processor.go:128-159 | a pricing failure is returned and writes nothing to the transactions table; otherwise it succeeds, and final_output is written unless that write fails, which is only logged |
| Settlement.PollOutcome | backend/internal/services/payment_processor.go:71-80 | a failed explorer request gives no status; otherwise "confirmed" iff chain funded minus chain spent covers the amount, and "unconfirmed" iff it does not but mempool funded minus mempool spent does |
| Settlement.FirstConfirmed | backend/internal/services/payment_processor.go:62-107 | the poll found is the first whose check reports "confirmed" |
| Settlement.LifecycleMonotone | backend/internal/services/payment_processor.go:45-116 | along a run's status writes the status never moves back and only the last write is terminal |
| Settlement.FinishExchange | backend/internal/services/payment_processor.go:95-104 | a pricing failure sets "failed"; otherwise "completed" with the settled output |
| Settlement.SettleSteps | backend/internal/services/payment_processor.go:82-107 | the processing write, the payment insert and the exchange together give the confirmed branch's outcome |
| Settlement.Settle | backend/internal/services/payment_processor.go:82-107 | writes "processing", adds one payment record unless its insert fails, then ends "completed" with the settled output or "failed" with the pricing error |
| Settlement.ObservePoll | backend/internal/services/payment_processor.go:70-122 | a confirmed check reports its status; an unconfirmed one writes "processing" iff the loaded status is not "processing"; failed and pending checks change nothing |
| Settlement.WatchPolls | backend/internal/services/payment_processor.go:62-122 | stops at the first confirmed poll; before it only "processing" is written, and only to that row's status and updated_at |
| Settlement.RunLifecycle | backend/internal/services/payment_processor.go:45-116 | waiting, then processing writes, then expiry or settlement is a well-formed lifecycle ending in its last write |
| Settlement.ExpiredRun | backend/internal/services/payment_processor.go:64-68 | with no confirmed poll the row ends "expired" at the deadline, "payment timeout" is returned and no payment is recorded |
| Settlement.SettledRun | backend/internal/services/payment_processor.go:82-107 | settlement at the first confirmed poll yields the run outcome |
| Settlement.Monitor | backend/internal/services/payment_processor.go:50-124 | the run after "waiting" ends expired with "payment timeout", or settles at the first confirmed poll with at most one payment record |
| Settlement.ProcessTransaction | backend/internal/services/payment_processor.go:35-125 | a load failure or missing row, and a failed "waiting" write, return errors before any polling and change nothing; otherwise the status writes follow waiting → processing* → completed, failed or expired, only that row and the payments table change among the transaction and payment tables, and the run ends expired with "payment timeout" or settles at the first confirmed poll with at most one payment record |
| Prices.IdTableShape | backend/internal/services/price_service.go:110-118 | the id table names each of the seven symbols exactly once |
| Prices.CacheKey | backend/internal/services/price_service.go:137 | a symbol's key is "price:" followed by the symbol |
| Prices.CacheKeyInjective | backend/internal/services/price_service.go:137 | distinct symbols have distinct keys |
| Prices.ReadCache | backend/internal/services/price_service.go:132-152 | the read succeeds iff all keys are present; a missing key is "redis: nil"; the result holds exactly the symbols whose entry decodes, with their prices |
| Prices.GetPricesFromCache | backend/internal/services/price_service.go:132-152 | the loop over the seven symbols computes the cache read |
| Prices.CacheWritesStep | backend/internal/services/price_service.go:158-162 | queueing one more symbol adds exactly its key |
| Prices.CachePrices | backend/internal/services/price_service.go:155-166 | a successful pipeline writes one entry per price and nothing else; a failed one writes nothing |
| Prices.CachedPricesReadBack | backend/internal/services/price_service.go:132-166 | after a full set of seven prices is cached, reading the cache gives exactly those prices |
| Prices.PartialCacheMisses | backend/internal/services/price_service.go:132-166 | caching a set that lacks a symbol not cached before leaves the next read failing |
| Prices.QuotedStep | backend/internal/services/price_service.go:120-126 | filtering one more id adds at most its own symbol |
| Prices.UpstreamStep | backend/internal/services/price_service.go:120-126 | the same, for the fixed id table |
| Prices.UpstreamCharacterisation | backend/internal/services/price_service.go:108-128 | the upstream map holds only the seven symbols; a symbol is present iff its id has a "usd" quote, with that price |
| Prices.FetchPricesFromAPI | backend/internal/services/price_service.go:74-129 | a failed request is passed on; otherwise the loop yields the filtered upstream map |
| Prices.UnionUpdate | backend/internal/services/price_service.go:171-181 | writing a row after merging equals merging after writing it |
| Prices.UpsertsStep | backend/internal/services/price_service.go:171-181 | saving one more symbol adds or replaces its row |
| Prices.StorePricesInDB | backend/internal/services/price_service.go:169-184 | always succeeds; every symbol whose save does not fail gets its row keyed by currency |
| Prices.SnapshotShape | backend/internal/services/price_service.go:187-199 | the fallback has one entry per stored row; an empty table gives an empty map |
| Prices.StoredPricesReadBack | backend/internal/services/price_service.go:169-199 | after a fully successful save the fallback serves the saved prices |
| Prices.GetPricesFromDB | backend/internal/services/price_service.go:187-199 | a scan failure is reported; otherwise the loop yields one entry per row |
| Prices.Resolve | backend/internal/services/price_service.go:43-71 | a non-empty cache read is returned as it is; otherwise the upstream map; otherwise the database error, or the snapshot of the rows; resolution fails only when all three tiers fail |
| Prices.GetPrices | backend/internal/services/price_service.go:43-71 | a non-empty cache read is returned and touches nothing; otherwise an upstream answer is written to the cache and the database and returned; otherwise the database snapshot is returned and nothing is written |
| Prices.GetPrice | backend/internal/services/price_service.go:202-214 | a resolution error is passed on; the price is returned iff the symbol is present, otherwise "price not found for currency" |
| Prices.CalculateExchangeRate | backend/internal/services/price_service.go:217-238 | errors name the source symbol first, then the target; on success result × price(to) = amount × price(from) |
| Prices.RateAgreesWithGetPrice | backend/internal/services/price_service.go:202-238 | the conversion is the quotient of the two `GetPrice` lookups, with the same errors in the same order |
| Prices.RateIdentity | backend/internal/services/price_service.go:217-238 | converting a currency into itself returns the amount |
| Prices.RateComposes | backend/internal/services/price_service.go:217-238 | converting through an intermediate currency equals converting directly |
| Prices.RateRoundTrip | backend/internal/services/price_service.go:217-238 | converting there and back returns the amount |
| Wallets.Encrypt | backend/internal/services/wallet_service.go:39-57 | cipher and random-source failures are passed on; otherwise the output is the nonce followed by the sealed data |
| Wallets.Decrypt | backend/internal/services/wallet_service.go:60-83 | input shorter than a nonce is "ciphertext too short"; otherwise the first nonce-size bytes are the nonce and the rest is opened |
| Wallets.DecryptEncrypt | backend/internal/services/wallet_service.go:50-82 | with a correct cipher, decrypting an encryption gives the plaintext back |
| Wallets.FirstMatching | backend/internal/services/wallet_service.go:116 | the row found matches the filter (active, right address or transaction) and has the least id among matching rows; none iff no row matches |
| Wallets.GetPrivateKey | backend/internal/services/wallet_service.go:114-138 | a query failure is reported; with no active row for the address, "private key not found for address"; otherwise the least-id active row's hex is decoded and decrypted, a decoding failure is "failed to decode encrypted key" with the hex error, a decryption failure "failed to decrypt private key", and success serves the decrypted bytes; a key is only served from an active row with that address |
| Wallets.GetWalletByTransaction | backend/internal/services/wallet_service.go:141-151 | a row is returned iff an active row records the transaction, and it is such a row; otherwise "wallet not found for transaction" |
| Wallets.ActiveRows | backend/internal/services/wallet_service.go:156 | exactly the active rows are kept |
| Wallets.ListActiveWallets | backend/internal/services/wallet_service.go:154-161 | a query failure is reported; otherwise the result holds exactly the active rows |
| Wallets.StorePrivateKey | backend/internal/services/wallet_service.go:86-111 | an encryption or insert failure is reported and inserts nothing; otherwise exactly one active row is appended with the address, the hex of nonce ‖ sealed key and the transaction id |
| Wallets.DeactivateWallet | backend/internal/services/wallet_service.go:164-179 | a statement failure changes nothing; otherwise every row with the address becomes inactive, and "wallet not found" is reported iff no row had the address |
| Wallets.StoreThenGet | backend/internal/services/wallet_service.go:86-138 | a key stored for an address with no active row is what `GetPrivateKey` returns afterwards |
| Wallets.DeactivateThenGet | backend/internal/services/wallet_service.go:114-179 | after deactivation no key is served for the address |
| Wallets.DeactivateLeavesOthers | backend/internal/services/wallet_service.go:164-167 | deactivation leaves lookups of every other address unchanged |

## Left out

- **HTTP and JSON bytes.** The explorer calls (payment_monitor.go:152-218), the CoinGecko request (price_service.go:74-107) and the Redis and SQL wire formats are left out. They appear as their decoded results or errors. JSON appears as a parsed tree, and a byte string that is not JSON as `Bytes(Err(e))`, carrying the syntax error text `encoding/json` reports.
- **Floating point.** `float64` rounding and `int64` overflow are not modelled. Amounts, prices and percentages are exact reals and satoshis are unbounded integers.
- **Concurrency and timing.** Goroutines, the ticker, `context.WithTimeout`, `StartPaymentMonitoring`, `processTransactionAsync` and the Redis TTL are left out. The 30-minute deadline is an event that fires after the given finite sequence of polls.
- **Thin wrappers.** `MonitorPayment` and `GeneratePaymentAddress` only delegate, so the model calls `CheckPayment` and the generator directly.
- **Other services.** `GetPaymentStatus` (payment_processor.go:234-244) and `GetTransactionHistory` (transaction_service.go:244-257) are lookups outside the pipeline. The HTTP handlers, gin binding tags, middleware, configuration and database setup are not part of this model.
- **Error text.** Validation errors are a `ValidationError` datatype rather than the `%.2f`-formatted message text. `%w` wrapping is string concatenation. The JSON syntax-error text is an input rather than computed from the bytes.
- Models.Scan: slots past the receiver's length start from the zero value. Go may instead hand the decoder whatever the slice's spare capacity still holds. A JSON number too large for a `float64` is not a type error here (see "Floating point").
- **Cryptography.** Key generation, `PubKey`/Hash160/base58 address encoding, SHA-256, `crypto/rand` and `btcec.PrivKeyFromBytes` are opaque. They are supplied as the digest, the key, the nonce and the `deriveAddress` function. AES-GCM is an abstract `Aead`, and its correctness is the hypothesis `Wallets.Correct`.
- **Key parsing.** `Wallets.GetPrivateKey` returns the decrypted key bytes. Parsing them with `PrivKeyFromBytes` cannot fail in the source, so that step is left out.
- Settlement.ProcessTransaction: status writes after the "waiting" write are taken to succeed. The source only logs or ignores their errors, and a failed write would leave the row's status as it was. Settlement pricing takes the outcome of `GetPrices` as an input, so the Redis `price:*` writes and `price_caches` upserts that `GetPrices` makes on a cache miss (price_service.go:61-68) are not part of its frame.
- Settlement.ProcessExchange: pricing takes the outcome of `GetPrices` as an input (payment_processor.go:164). The Redis and `price_caches` writes that `GetPrices` makes on a cache miss are not modelled here; `Prices.GetPrices` models them on its own.
- Prices.CachePrices: a pipeline whose `Exec` fails is taken to have written nothing. Redis may in fact have applied some of the queued SETs.
- Prices.CalculateExchangeRate: requires a non-zero target price, so the IEEE infinity or NaN of a division by zero is not modelled. Ledger.CalculateEstimatedOutput, Ledger.CreateTransaction, Settlement.CalculateFinalOutput and Settlement.ProcessTransaction carry the same requirement.
- Ledger.CreateTransaction: requires a non-nil generated id, since `uuid.New` never returns `uuid.Nil`. Its two price lookups (transaction_service.go:187 and 196) take the outcome of `GetPrices` as inputs, so the Redis and `price_caches` writes that `GetPrices` makes on a cache miss are not part of its frame.
- Bitcoin.GenerateAddress: requires a 32-byte digest (a SHA-256 sum), which the source always has.
- **Cache expiry.** `RedisCache` holds no expiry times, so cached prices never lapse.
- **Map iteration order.** The loops over Go maps (`fetchPricesFromAPI`, `storePricesInDB`, `getPricesFromDB`, `cachePrices`) pick elements in an unspecified order, as Go's `range` over a map does. Their results are proved independent of that order.
