/**
 * The persisted records and their conventions (backend/internal/models/models.go).
 *
 * `Payment` and `Wallet` are used by the payment processor and the key vault but are not
 * declared in models.go; their fields here are the ones those services write. The
 * transaction row also carries the `final_output` column that the payment processor updates.
 */
module Models {
  import opened Wrappers

  /** `uuid.UUID`; the number 0 plays `uuid.Nil`. */
  type Uuid = nat

  const NilUuid: Uuid := 0

  /** Text form of an id in error messages (decimal digits stand in for the canonical uuid form). */
  function UuidText(id: Uuid): (s: string)
    ensures |s| > 0 && forall i :: 0 <= i < |s| ==> '0' <= s[i] <= '9'
  {
    var digit := ['0' + (id % 10) as char];
    if id < 10 then digit else UuidText(id / 10) + digit
  }

  /** A wall-clock reading (`time.Now()`), supplied by the caller. */
  type Time = nat

  const StatusPending: string := "pending"
  const StatusWaiting: string := "waiting"
  const StatusProcessing: string := "processing"
  const StatusCompleted: string := "completed"
  const StatusFailed: string := "failed"
  const StatusExpired: string := "expired"

  const AllStatuses: seq<string> :=
    [StatusPending, StatusWaiting, StatusProcessing, StatusCompleted, StatusFailed, StatusExpired]

  /** The six lifecycle statuses are pairwise distinct. */
  lemma StatusesDistinct()
    ensures |AllStatuses| == 6
    ensures forall i, j :: 0 <= i < j < |AllStatuses| ==> AllStatuses[i] != AllStatuses[j]
  {
  }

  /** A destination address and the share of the output it receives. */
  datatype OutputAddress = OutputAddress(address: string, percentage: real)

  /** One exchange request (`models.Transaction`). */
  datatype Transaction = Transaction(
    id: Uuid,
    btcAmount: real,
    outputCurrency: string,
    outputAddresses: seq<OutputAddress>,
    paymentAddress: string,
    status: string,
    fee: real,
    estimatedOutput: real,
    finalOutput: Option<real>,
    createdAt: Time,
    updatedAt: Time)

  /** An observed payment to a deposit address (`models.Payment`). */
  datatype Payment = Payment(
    id: Uuid,
    transactionId: Uuid,
    address: string,
    amountSats: int,
    amountBtc: real,
    txid: string,
    confirmations: int,
    status: string,
    detectedAt: Time)

  /** A stored deposit key (`models.Wallet`); `encryptedPrivKey` is hex text. */
  datatype Wallet = Wallet(
    id: Uuid,
    address: string,
    encryptedPrivKey: string,
    transactionId: Option<Uuid>,
    isActive: bool)

  /** Last known USD price of one symbol (`models.PriceCache`). */
  datatype PriceCache = PriceCache(currency: string, priceUsd: real, lastUpdated: Time)

  /** A JSON document, after parsing; an object's members keep their order in the text. */
  datatype Json =
    | JNull
    | JBool(b: bool)
    | JNumber(n: real)
    | JString(s: string)
    | JArray(items: seq<Json>)
    | JObject(members: seq<Member>)

  datatype Member = Member(key: string, value: Json)

  /**
   * What the SQL driver hands to `Scan` or receives from `Value`: SQL NULL, a byte slice (as
   * `encoding/json` parses it: the document, or the syntax error it reports), or a value of
   * some other Go type.
   */
  datatype DbValue = NullValue | Bytes(parsed: Result<Json, string>) | OtherValue

  /** `json.Marshal` of one element: its two fields, in declaration order. */
  function MarshalOutputAddress(a: OutputAddress): Json {
    JObject([Member("address", JString(a.address)), Member("percentage", JNumber(a.percentage))])
  }

  function MarshalOutputAddresses(xs: seq<OutputAddress>): (j: Json)
    ensures j.JArray? && |j.items| == |xs|
    ensures forall i :: 0 <= i < |xs| ==> j.items[i] == MarshalOutputAddress(xs[i])
  {
    JArray(seq(|xs|, i requires 0 <= i < |xs| => MarshalOutputAddress(xs[i])))
  }

  /** `OutputAddresses.Value`: an empty list is stored as SQL NULL, any other as its JSON. */
  function Value(xs: seq<OutputAddress>): (v: DbValue)
    ensures v == NullValue <==> xs == []
    ensures v != OtherValue
  {
    if |xs| == 0 then NullValue else Bytes(Ok(MarshalOutputAddresses(xs)))
  }

  /** A value decoded in place, and the first type error met while decoding it. */
  datatype Decoded<T> = Decoded(value: T, err: Option<string>)

  /** The JSON kind named in a type error. */
  function KindName(j: Json): string {
    match j
    case JNull => "null"
    case JBool(_) => "bool"
    case JNumber(_) => "number"
    case JString(_) => "string"
    case JArray(_) => "array"
    case JObject(_) => "object"
  }

  /** The text of `json.UnmarshalTypeError`: the JSON kind met and the Go target it cannot fill. */
  function TypeError(kind: string, target: string): string {
    "json: cannot unmarshal " + kind + " into " + target
  }

  /**
   * Case folding of struct keys: ASCII letters fold to upper case, and so do the four
   * non-ASCII letters whose fold is an ASCII letter (long s, Kelvin sign, dotted and dotless
   * i). Every other character folds to a non-ASCII one, so it never matches a field name
   * here; it is kept as it is.
   */
  function FoldChar(c: char): char {
    if 'a' <= c <= 'z' then (c as int - 32) as char
    else if c as int == 0x17F then 'S'
    else if c as int == 0x212A then 'K'
    else if c as int == 0x130 || c as int == 0x131 then 'I'
    else c
  }

  function Fold(s: string): (f: string)
    ensures |f| == |s|
  {
    seq(|s|, i requires 0 <= i < |s| => FoldChar(s[i]))
  }

  /** A JSON key selects a struct field when the two are equal up to case folding. */
  predicate Names(key: string, field: string) {
    Fold(key) == Fold(field)
  }

  /** The member assigns the `address` field. */
  predicate SetsAddress(m: Member) {
    Names(m.key, "address") && m.value.JString?
  }

  /** The member assigns the `percentage` field. */
  predicate SetsPercentage(m: Member) {
    Names(m.key, "percentage") && m.value.JNumber?
  }

  /** The type error a member raises: a field given a JSON kind its Go type cannot hold. */
  function MemberError(m: Member): Option<string> {
    if Names(m.key, "address") && !m.value.JNull? && !m.value.JString? then
      Some(TypeError(KindName(m.value), "Go struct field OutputAddress.address of type string"))
    else if Names(m.key, "percentage") && !m.value.JNull? && !m.value.JNumber? then
      Some(TypeError(KindName(m.value), "Go struct field OutputAddress.percentage of type float64"))
    else None
  }

  /** One member applied to the element: unknown keys, nulls and mistyped values change nothing. */
  function ApplyMember(e: OutputAddress, m: Member): OutputAddress {
    if SetsAddress(m) then e.(address := m.value.s)
    else if SetsPercentage(m) then e.(percentage := m.value.n)
    else e
  }

  /**
   * Decoding an object into the element `start`, member by member in document order; the
   * first type error is the one reported, and the members after it are still decoded.
   */
  function DecodeObject(start: OutputAddress, members: seq<Member>): (r: Decoded<OutputAddress>)
    ensures members == [] ==> r == Decoded(start, None)
  {
    if members == [] then Decoded(start, None)
    else
      var prev := DecodeObject(start, members[..|members| - 1]);
      var last := members[|members| - 1];
      Decoded(ApplyMember(prev.value, last), if prev.err.Some? then prev.err else MemberError(last))
  }

  /** The address ends up with the last string an object assigns to it, or keeps its old value. */
  lemma {:induction false} ObjectAddress(start: OutputAddress, members: seq<Member>)
    ensures (forall k :: 0 <= k < |members| ==> !SetsAddress(members[k]))
            ==> DecodeObject(start, members).value.address == start.address
    ensures forall k :: 0 <= k < |members| && SetsAddress(members[k])
                        && (forall j :: k < j < |members| ==> !SetsAddress(members[j]))
                        ==> DecodeObject(start, members).value.address == members[k].value.s
  {
    if members != [] {
      var n := |members| - 1;
      var init, last := members[..n], members[n];
      assert forall k :: 0 <= k < n ==> init[k] == members[k];
      ObjectAddress(start, init);
      var prev := DecodeObject(start, init);
      assert DecodeObject(start, members).value == ApplyMember(prev.value, last);
      if !SetsAddress(last) {
        assert DecodeObject(start, members).value.address == prev.value.address;
        forall k | 0 <= k < |members| && SetsAddress(members[k]) && (forall j :: k < j < |members| ==> !SetsAddress(members[j]))
          ensures DecodeObject(start, members).value.address == members[k].value.s
        {
          assert k < n && init[k] == members[k];
        }
      }
    }
  }

  /** The percentage ends up with the last number an object assigns to it, or keeps its old value. */
  lemma {:induction false} ObjectPercentage(start: OutputAddress, members: seq<Member>)
    ensures (forall k :: 0 <= k < |members| ==> !SetsPercentage(members[k]))
            ==> DecodeObject(start, members).value.percentage == start.percentage
    ensures forall k :: 0 <= k < |members| && SetsPercentage(members[k])
                        && (forall j :: k < j < |members| ==> !SetsPercentage(members[j]))
                        ==> DecodeObject(start, members).value.percentage == members[k].value.n
  {
    if members != [] {
      var n := |members| - 1;
      var init, last := members[..n], members[n];
      assert forall k :: 0 <= k < n ==> init[k] == members[k];
      ObjectPercentage(start, init);
      var prev := DecodeObject(start, init);
      assert DecodeObject(start, members).value == ApplyMember(prev.value, last);
      if !SetsPercentage(last) {
        assert DecodeObject(start, members).value.percentage == prev.value.percentage;
        forall k | 0 <= k < |members| && SetsPercentage(members[k]) && (forall j :: k < j < |members| ==> !SetsPercentage(members[j]))
          ensures DecodeObject(start, members).value.percentage == members[k].value.n
        {
          assert k < n && init[k] == members[k];
        }
      }
    }
  }

  /** An object decodes without error exactly when no member is mistyped, and the error reported is the first one's. */
  lemma {:induction false} ObjectError(start: OutputAddress, members: seq<Member>)
    ensures DecodeObject(start, members).err.None? <==> forall k :: 0 <= k < |members| ==> MemberError(members[k]).None?
    ensures DecodeObject(start, members).err.Some? ==>
              exists k :: 0 <= k < |members| && DecodeObject(start, members).err == MemberError(members[k])
                          && forall j :: 0 <= j < k ==> MemberError(members[j]).None?
  {
    if members != [] {
      var n := |members| - 1;
      var init := members[..n];
      assert forall k :: 0 <= k < n ==> init[k] == members[k];
      ObjectError(start, init);
    }
  }

  /**
   * Decoding one array element into the element already in its slot: `null` changes nothing,
   * an object is decoded member by member, any other kind is a type error.
   */
  function DecodeElement(start: OutputAddress, j: Json): (r: Decoded<OutputAddress>)
    ensures !j.JObject? ==> r.value == start
    ensures j.JNull? ==> r.err.None?
    ensures !j.JNull? && !j.JObject? ==> r.err.Some?
  {
    match j
    case JNull => Decoded(start, None)
    case JObject(members) => DecodeObject(start, members)
    case _ => Decoded(start, Some(TypeError(KindName(j), "Go value of type models.OutputAddress")))
  }

  /** The element slot `i` holds before decoding: the receiver's own element, else the zero value. */
  function Slot(receiver: seq<OutputAddress>, i: nat): OutputAddress {
    if i < |receiver| then receiver[i] else OutputAddress("", 0.0)
  }

  /**
   * Decoding an array into the receiver slice: the result has one element per item, each
   * decoded into its slot whatever errors the other items raise.
   */
  function DecodeItems(receiver: seq<OutputAddress>, items: seq<Json>): (r: Decoded<seq<OutputAddress>>)
    ensures |r.value| == |items|
    ensures forall i :: 0 <= i < |items| ==> r.value[i] == DecodeElement(Slot(receiver, i), items[i]).value
  {
    if items == [] then Decoded([], None)
    else
      var n := |items| - 1;
      var prev := DecodeItems(receiver, items[..n]);
      var e := DecodeElement(Slot(receiver, n), items[n]);
      Decoded(prev.value + [e.value], if prev.err.Some? then prev.err else e.err)
  }

  /** An array decodes without error exactly when every item does, and the error reported is the first item's. */
  lemma {:induction false} ItemsError(receiver: seq<OutputAddress>, items: seq<Json>)
    ensures DecodeItems(receiver, items).err.None? <==>
              forall i :: 0 <= i < |items| ==> DecodeElement(Slot(receiver, i), items[i]).err.None?
    ensures DecodeItems(receiver, items).err.Some? ==>
              exists i :: 0 <= i < |items| && DecodeItems(receiver, items).err == DecodeElement(Slot(receiver, i), items[i]).err
                          && forall j :: 0 <= j < i ==> DecodeElement(Slot(receiver, j), items[j]).err.None?
  {
    if items != [] {
      var n := |items| - 1;
      var init := items[..n];
      assert forall i :: 0 <= i < n ==> init[i] == items[i];
      ItemsError(receiver, init);
    }
  }

  /**
   * `json.Unmarshal` into an `OutputAddresses`: `null` empties it, an array is decoded into it,
   * any other kind is a type error that leaves it as it was.
   */
  function UnmarshalOutputAddresses(receiver: seq<OutputAddress>, j: Json): (r: Decoded<seq<OutputAddress>>)
    ensures j.JNull? ==> r == Decoded([], None)
    ensures j.JArray? ==> |r.value| == |j.items|
    ensures !j.JNull? && !j.JArray? ==> r.value == receiver && r.err.Some?
  {
    match j
    case JNull => Decoded([], None)
    case JArray(items) => DecodeItems(receiver, items)
    case _ => Decoded(receiver, Some(TypeError(KindName(j), "Go value of type models.OutputAddresses")))
  }

  /**
   * `OutputAddresses.Scan`: SQL NULL gives the empty list; a value that is not a byte slice
   * is silently ignored; bytes that are not JSON leave the receiver as it was; JSON is
   * decoded into the receiver, and a type error keeps what was decoded.
   */
  function Scan(receiver: seq<OutputAddress>, value: DbValue): (r: Decoded<seq<OutputAddress>>)
    ensures value == NullValue ==> r == Decoded([], None)
    ensures value == OtherValue ==> r == Decoded(receiver, None)
    ensures value.Bytes? && value.parsed.Err? ==> r == Decoded(receiver, Some(value.parsed.error))
    ensures value.Bytes? && value.parsed.Ok? ==> r == UnmarshalOutputAddresses(receiver, value.parsed.value)
  {
    match value
    case NullValue => Decoded([], None)
    case OtherValue => Decoded(receiver, None)
    case Bytes(Err(e)) => Decoded(receiver, Some(e))
    case Bytes(Ok(j)) => UnmarshalOutputAddresses(receiver, j)
  }

  /** The two field names select different fields, each matched by itself. */
  lemma FieldNames()
    ensures Names("address", "address") && Names("percentage", "percentage")
    ensures !Names("address", "percentage") && !Names("percentage", "address")
  {
    assert |Fold("address")| != |Fold("percentage")|;
  }

  /** An element's JSON decodes back to that element, whatever its slot held before. */
  lemma DecodeMarshalled(start: OutputAddress, a: OutputAddress)
    ensures DecodeElement(start, MarshalOutputAddress(a)) == Decoded(a, None)
  {
    FieldNames();
    var ms := MarshalOutputAddress(a).members;
    assert ms[..1] == [ms[0]] && ms[..1][..0] == [];
    assert DecodeObject(start, ms[..1]) == Decoded(start.(address := a.address), None);
  }

  lemma UnmarshalMarshalItems(receiver: seq<OutputAddress>, xs: seq<OutputAddress>)
    ensures DecodeItems(receiver, MarshalOutputAddresses(xs).items) == Decoded(xs, None)
  {
    var items := MarshalOutputAddresses(xs).items;
    forall i | 0 <= i < |xs|
      ensures DecodeElement(Slot(receiver, i), items[i]) == Decoded(xs[i], None)
    {
      DecodeMarshalled(Slot(receiver, i), xs[i]);
    }
    ItemsError(receiver, items);
    assert DecodeItems(receiver, items).value == xs;
  }

  /** Reading back what `Value` stored gives the same list, the empty one included, whatever the receiver held. */
  lemma ScanValueRoundTrip(xs: seq<OutputAddress>, receiver: seq<OutputAddress>)
    ensures Scan(receiver, Value(xs)) == Decoded(xs, None)
  {
    if xs != [] {
      UnmarshalMarshalItems(receiver, xs);
    }
  }

  /**
   * A mistyped field does not stop the decoding: `[{"address":5,"percentage":10}]` read into
   * an empty list gives one element with the percentage set and the address left empty,
   * together with the type error.
   */
  lemma MistypedFieldKeepsTheRest()
    ensures Scan([], Bytes(Ok(JArray([JObject([Member("address", JNumber(5.0)), Member("percentage", JNumber(10.0))])]))))
            == Decoded([OutputAddress("", 10.0)],
                       Some(TypeError("number", "Go struct field OutputAddress.address of type string")))
  {
    FieldNames();
    var ms := [Member("address", JNumber(5.0)), Member("percentage", JNumber(10.0))];
    var items := [JObject(ms)];
    assert ms[..1][..0] == [] && items[..0] == [] && ms[..1] == [ms[0]];
    assert KindName(ms[0].value) == "number";
    assert DecodeObject(OutputAddress("", 0.0), ms[..1]) == Decoded(OutputAddress("", 0.0), MemberError(ms[0]));
    assert DecodeObject(OutputAddress("", 0.0), ms) == Decoded(OutputAddress("", 10.0), MemberError(ms[0]));
    assert DecodeElement(Slot([], 0), items[0]) == DecodeObject(OutputAddress("", 0.0), ms);
    assert DecodeItems([], items[..0]) == Decoded([], None);
    var d := DecodeItems([], items);
    assert d.value == [] + [OutputAddress("", 10.0)] == [OutputAddress("", 10.0)];
    assert d.err == DecodeObject(OutputAddress("", 0.0), ms).err;
    assert DecodeItems([], items) == Decoded([OutputAddress("", 10.0)], MemberError(ms[0]));
  }

  /** Keys match their field whatever their case: `{"ADDRESS":"x","Percentage":1}` fills both fields. */
  lemma KeysMatchWhateverTheirCase(start: OutputAddress)
    ensures DecodeObject(start, [Member("ADDRESS", JString("x")), Member("Percentage", JNumber(1.0))])
            == Decoded(OutputAddress("x", 1.0), None)
  {
    assert Fold("ADDRESS") == Fold("address");
    assert Fold("Percentage") == Fold("percentage");
    FieldNames();
    var ms := [Member("ADDRESS", JString("x")), Member("Percentage", JNumber(1.0))];
    assert ms[..1][..0] == [];
  }

  /**
   * `Transaction.BeforeCreate`: a record without an id gets the fresh one (`uuid.New()`,
   * never Nil); a record that has one is left as it is.
   */
  function BeforeCreate(t: Transaction, freshId: Uuid): (r: Transaction)
    requires freshId != NilUuid
    ensures r.id != NilUuid
    ensures t.id != NilUuid ==> r == t
    ensures t.id == NilUuid ==> r == t.(id := freshId)
  {
    if t.id == NilUuid then t.(id := freshId) else t
  }
}
