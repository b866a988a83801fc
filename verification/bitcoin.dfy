/**
 * Destination-address validation and the demo deposit-address generator
 * (backend/pkg/crypto/bitcoin.go).
 *
 * Go's `len` on a string counts UTF-8 bytes, while its `range` loop walks code points;
 * the model keeps both views: `Utf8Len` is the byte count, indexing is per code point.
 * All the prefixes tested are ASCII, so a byte prefix and a code-point prefix coincide.
 */
module Bitcoin {
  import opened Wrappers
  import Hex

  /** Number of bytes the UTF-8 encoding of `c` takes. */
  function CharUtf8Len(c: char): nat {
    if c as int < 0x80 then 1
    else if c as int < 0x800 then 2
    else if c as int < 0x1_0000 then 3
    else 4
  }

  /** Go's `len(s)`: the length of the UTF-8 encoding of `s`. */
  function Utf8Len(s: string): (n: nat)
    ensures n >= |s|
  {
    if s == [] then 0 else CharUtf8Len(s[0]) + Utf8Len(s[1..])
  }

  predicate IsAscii(s: string) {
    forall i :: 0 <= i < |s| ==> s[i] as int < 0x80
  }

  /** For ASCII text the byte count is the character count. */
  lemma {:induction false} AsciiUtf8Len(s: string)
    requires IsAscii(s)
    ensures Utf8Len(s) == |s|
  {
    if s != [] {
      assert IsAscii(s[1..]) by {
        forall i | 0 <= i < |s[1..]| ensures s[1..][i] as int < 0x80 {
          assert s[1..][i] == s[i + 1];
        }
      }
      AsciiUtf8Len(s[1..]);
    }
  }

  /** `strings.HasPrefix`. */
  predicate HasPrefix(s: string, prefix: string) {
    |prefix| <= |s| && s[..|prefix|] == prefix
  }

  /**
   * The early-return character loops of the validators: true when no character fails `p`.
   */
  function AllSatisfy(s: string, p: char -> bool): (ok: bool)
    ensures ok <==> forall i :: 0 <= i < |s| ==> p(s[i])
  {
    if s == [] then true
    else if !p(s[0]) then false
    else
      assert forall i :: 0 < i < |s| ==> s[i] == s[1..][i - 1];
      AllSatisfy(s[1..], p)
  }

  /** The characters `lo`..`hi` in code-point order. */
  function CharRange(lo: char, hi: char): (s: string)
    requires lo <= hi < 0x80 as char
    ensures |s| == hi as int - lo as int + 1
    ensures forall i :: 0 <= i < |s| ==> s[i] as int == lo as int + i
    ensures forall c :: c in s <==> lo <= c <= hi
  {
    var n := hi as int - lo as int + 1;
    var s := seq(n, i requires 0 <= i < n => (lo as int + i) as char);
    CharRangeMembers(lo, hi, s);
    s
  }

  lemma CharRangeMembers(lo: char, hi: char, s: string)
    requires lo <= hi
    requires |s| == hi as int - lo as int + 1
    requires forall i :: 0 <= i < |s| ==> s[i] as int == lo as int + i
    ensures forall c :: c in s <==> lo <= c <= hi
  {
    forall c | lo <= c <= hi ensures c in s {
      assert s[c as int - lo as int] == c;
    }
  }

  /**
   * The base58 alphabet of the Solana check,
   * "123456789ABCDEFGHJKLMNPQRSTUVWXYZabcdefghijkmnopqrstuvwxyz", spelled as its six runs.
   */
  const Base58Alphabet: string :=
    CharRange('1', '9') + CharRange('A', 'H') + CharRange('J', 'N') +
    CharRange('P', 'Z') + CharRange('a', 'k') + CharRange('m', 'z')

  predicate IsBase58Char(c: char) {
    c in Base58Alphabet
  }

  /** 58 characters: digits without 0, letters without O, I and l. */
  lemma Base58AlphabetShape()
    ensures |Base58Alphabet| == 58
    ensures forall c :: c in Base58Alphabet <==>
      ('1' <= c <= '9') || ('A' <= c <= 'Z' && c != 'I' && c != 'O') || ('a' <= c <= 'z' && c != 'l')
    ensures '0' !in Base58Alphabet && 'O' !in Base58Alphabet
    ensures 'I' !in Base58Alphabet && 'l' !in Base58Alphabet
  {
  }

  /** The symbols the `switch` of `AddressValidator.ValidateAddress` knows. */
  predicate IsValidatorCurrency(currency: string) {
    currency in {"BTC", "ETH", "USDT", "USDC", "MATIC", "ADA", "SOL"}
  }

  /** `AddressValidator.ValidateAddress`: dispatch on the currency symbol. */
  function ValidateAddress(address: string, currency: string): (ok: bool)
    ensures ok ==> IsValidatorCurrency(currency)
    ensures currency == "BTC" ==> ok == ValidateBitcoinAddress(address)
    ensures currency in {"ETH", "USDT", "USDC", "MATIC"} ==> ok == ValidateEthereumAddress(address)
    ensures currency == "ADA" ==> ok == ValidateCardanoAddress(address)
    ensures currency == "SOL" ==> ok == ValidateSolanaAddress(address)
  {
    match currency
    case "BTC" => ValidateBitcoinAddress(address)
    case "ETH" => ValidateEthereumAddress(address)
    case "USDT" => ValidateEthereumAddress(address)
    case "USDC" => ValidateEthereumAddress(address)
    case "MATIC" => ValidateEthereumAddress(address)
    case "ADA" => ValidateCardanoAddress(address)
    case "SOL" => ValidateSolanaAddress(address)
    case _ => false
  }

  predicate HasBitcoinPrefix(address: string) {
    HasPrefix(address, "1") || HasPrefix(address, "3") ||
    HasPrefix(address, "bc1") || HasPrefix(address, "tb1") ||
    HasPrefix(address, "m") || HasPrefix(address, "2")
  }

  /** Every Bitcoin prefix fixes the first character: 1, 3, b, t, m or 2. */
  lemma BitcoinPrefixHead(address: string)
    requires HasBitcoinPrefix(address)
    ensures |address| > 0 && address[0] in "13btm2"
  {
    assert address[0] == address[..1][0];
  }

  /** `AddressValidator.validateBitcoinAddress`: a byte-length window and a prefix list. */
  function ValidateBitcoinAddress(address: string): (ok: bool)
    ensures ok ==> 26 <= Utf8Len(address) <= 35 && HasBitcoinPrefix(address)
    ensures ok ==> |address| > 0 && address[0] in "13btm2"
  {
    if Utf8Len(address) < 26 || Utf8Len(address) > 35 then false
    else if !HasBitcoinPrefix(address) then false
    else
      BitcoinPrefixHead(address);
      true
  }

  /** `BitcoinService.ValidateAddress`: the same test, written a second time in the source. */
  function ServiceValidateAddress(address: string): (ok: bool)
    ensures ok ==> 26 <= Utf8Len(address) <= 35 && HasBitcoinPrefix(address)
    ensures ok ==> |address| > 0 && address[0] in "13btm2"
  {
    if Utf8Len(address) < 26 || Utf8Len(address) > 35 then false
    else if !HasBitcoinPrefix(address) then false
    else
      BitcoinPrefixHead(address);
      true
  }

  /** The two Bitcoin checks of bitcoin.go agree on every input. */
  lemma ServiceAgreesWithValidator(address: string)
    ensures ServiceValidateAddress(address) == ValidateBitcoinAddress(address)
    ensures ServiceValidateAddress(address) == ValidateAddress(address, "BTC")
  {
  }

  /** For ASCII input the Bitcoin rule reads in characters: 26..35 of them and a known prefix. */
  lemma BitcoinAsciiCharacterisation(address: string)
    requires IsAscii(address)
    ensures ValidateBitcoinAddress(address) <==> 26 <= |address| <= 35 && HasBitcoinPrefix(address)
  {
    AsciiUtf8Len(address);
  }

  /** The examples of backend/cmd/test/main.go: the genesis address passes, "invalid_address" does not. */
  lemma BitcoinExamples()
    ensures ValidateAddress("1A1zP1eP5QGefi2DMPTfTL5SLmv7DivfNa", "BTC")
    ensures !ValidateAddress("invalid_address", "BTC")
  {
    GenesisAccepted();
    InvalidAddressRejected();
  }

  lemma GenesisAccepted()
    ensures ValidateBitcoinAddress("1A1zP1eP5QGefi2DMPTfTL5SLmv7DivfNa")
  {
    var genesis := "1A1zP1eP5QGefi2DMPTfTL5SLmv7DivfNa";
    assert forall i :: 0 <= i < |genesis| ==> genesis[i] as int < 0x80;
    LegacyAddressAccepted(genesis);
  }

  /** An ASCII string of 26..35 characters that starts with "1" passes the Bitcoin rule. */
  lemma LegacyAddressAccepted(s: string)
    requires IsAscii(s) && 26 <= |s| <= 35 && s[0] == '1'
    ensures ValidateBitcoinAddress(s)
  {
    assert s[..1] == "1";
    BitcoinAsciiCharacterisation(s);
  }

  lemma InvalidAddressRejected()
    ensures !ValidateBitcoinAddress("invalid_address")
  {
    var bad := "invalid_address";
    assert forall i :: 0 <= i < |bad| ==> bad[i] as int < 0x80;
    AsciiUtf8Len(bad);
  }

  /** `AddressValidator.validateEthereumAddress`: 42 bytes, "0x", then a hex loop. */
  function ValidateEthereumAddress(address: string): (ok: bool)
    ensures ok ==> Utf8Len(address) == 42 && HasPrefix(address, "0x")
    ensures ok ==> forall i :: 2 <= i < |address| ==> Hex.IsHexChar(address[i])
  {
    if Utf8Len(address) != 42 then false
    else if !HasPrefix(address, "0x") then false
    else
      assert forall i :: 2 <= i < |address| ==> address[i] == address[2..][i - 2];
      AllSatisfy(address[2..], Hex.IsHexChar)
  }

  /** A string whose characters all satisfy an ASCII-only test is ASCII. */
  lemma AsciiWhenAll(s: string, from: nat, p: char -> bool)
    requires from <= |s|
    requires forall i :: 0 <= i < from ==> s[i] as int < 0x80
    requires forall i :: from <= i < |s| ==> p(s[i])
    requires forall c :: p(c) ==> c as int < 0x80
    ensures IsAscii(s) && Utf8Len(s) == |s|
  {
    AsciiUtf8Len(s);
  }

  /**
   * An Ethereum-style address (ETH, USDT, USDC, MATIC) is accepted exactly when it has 42
   * characters, starts with "0x" and the other 40 are hex digits of either case.
   */
  lemma EthereumCharacterisation(address: string)
    ensures ValidateEthereumAddress(address) <==>
      |address| == 42 && address[..2] == "0x" && forall i :: 2 <= i < 42 ==> Hex.IsHexChar(address[i])
  {
    if |address| >= 2 && address[..2] == "0x" && forall i :: 2 <= i < |address| ==> Hex.IsHexChar(address[i]) {
      assert address[0] == '0' && address[1] == 'x';
      AsciiWhenAll(address, 2, Hex.IsHexChar);
    }
    if ValidateEthereumAddress(address) {
      var tail := address[2..];
      assert forall i :: 2 <= i < |address| ==> address[i] == tail[i - 2];
    }
  }

  /** `AddressValidator.validateCardanoAddress`: 50..120 bytes, then "addr", "Ae" or "Dd". */
  function ValidateCardanoAddress(address: string): (ok: bool)
    ensures ok ==> 50 <= Utf8Len(address) <= 120
    ensures ok ==> HasPrefix(address, "addr") || HasPrefix(address, "Ae") || HasPrefix(address, "Dd")
  {
    if Utf8Len(address) < 50 || Utf8Len(address) > 120 then false
    else if Utf8Len(address) >= 4 && HasPrefix(address, "addr") then true
    else if Utf8Len(address) >= 2 && (HasPrefix(address, "Ae") || HasPrefix(address, "Dd")) then true
    else false
  }

  /** The Cardano rule is exactly the window and the prefix test (the inner length guards never fire). */
  lemma CardanoCharacterisation(address: string)
    ensures ValidateCardanoAddress(address) <==>
      50 <= Utf8Len(address) <= 120 &&
      (HasPrefix(address, "addr") || HasPrefix(address, "Ae") || HasPrefix(address, "Dd"))
  {
  }

  /** `AddressValidator.validateSolanaAddress`: 32..44 bytes, every character in the base58 alphabet. */
  function ValidateSolanaAddress(address: string): (ok: bool)
    ensures ok ==> 32 <= Utf8Len(address) <= 44
    ensures ok ==> forall i :: 0 <= i < |address| ==> address[i] in Base58Alphabet
  {
    if Utf8Len(address) < 32 || Utf8Len(address) > 44 then false
    else AllSatisfy(address, IsBase58Char)
  }

  /** A Solana address is accepted exactly when it has 32..44 characters, all of them base58. */
  lemma SolanaCharacterisation(address: string)
    ensures ValidateSolanaAddress(address) <==>
      32 <= |address| <= 44 && forall i :: 0 <= i < |address| ==> address[i] in Base58Alphabet
  {
    if forall i :: 0 <= i < |address| ==> address[i] in Base58Alphabet {
      Base58AlphabetShape();
      AsciiWhenAll(address, 0, IsBase58Char);
    }
  }

  /**
   * `BitcoinService.GenerateAddress`: "1" (mainnet) or "m" (testnet) followed by the hex of the
   * first 16 bytes of a SHA-256 digest of fresh random bytes. `digest` stands for that digest,
   * or for the failure of the random source.
   */
  function GenerateAddress(testnet: bool, digest: Result<seq<Hex.Byte>, string>): (r: Result<string, string>)
    requires digest.Ok? ==> |digest.value| == 32
    ensures r.Ok? <==> digest.Ok?
    ensures digest.Err? ==> r == Err("failed to generate random bytes: " + digest.error)
    ensures r.Ok? ==> |r.value| == 33 && r.value[0] == (if testnet then 'm' else '1')
    ensures r.Ok? ==> forall i :: 1 <= i < 33 ==> Hex.IsLowerHexChar(r.value[i])
    ensures r.Ok? ==> Hex.Decode(r.value[1..]) == Ok(digest.value[..16])
    ensures r.Ok? ==> ValidateBitcoinAddress(r.value)
  {
    match digest
    case Err(e) => Err("failed to generate random bytes: " + e)
    case Ok(hash) =>
      var prefix := if testnet then "m" else "1";
      var encoded := Hex.Encode(hash[..16]);
      var address := prefix + encoded;
      assert address[1..] == encoded;
      Hex.DecodeEncode(hash[..16]);
      assert forall i :: 1 <= i < 33 ==> address[i] == encoded[i - 1];
      assert IsAscii(address);
      AsciiUtf8Len(address);
      assert HasPrefix(address, prefix);
      Ok(address)
  }
}
