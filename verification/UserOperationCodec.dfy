/**
 A UserOperation and its JSON form: the constructor with its checks, and the printer.
 */
module UserOperationCodec {
  import opened Basics
  import opened Hex

  datatype UserOperation = UserOperation(
    sender: Address,
    nonce: nat,
    initCode: seq<byte>,
    callData: seq<byte>,
    callGasLimit: nat,
    verificationGasLimit: nat,
    preVerificationGas: nat,
    maxFeePerGas: nat,
    maxPriorityFeePerGas: nat,
    paymasterAndData: seq<byte>,
    signature: seq<byte>,
    factory: Option<Address>,
    paymaster: Option<Address>)

  /** Names in the JSON object; `Other` is any name that is not a field. */
  datatype Field =
    | Sender | Nonce | InitCode | CallData | CallGasLimit | VerificationGasLimit | PreVerificationGas
    | MaxFeePerGas | MaxPriorityFeePerGas | PaymasterAndData | Signature
    | Other(name: string)

  /** `NotText` is any JSON value that is neither null nor a string. */
  datatype Json = Null | Text(text: string) | NotText

  type JsonObject = map<Field, Json>

  datatype Result<+T> = Ok(value: T) | InvalidFields {
    predicate IsFailure() { InvalidFields? }

    function PropagateFailure<U>(): Result<U>
      requires InvalidFields?
    {
      InvalidFields
    }

    function Extract(): T
      requires Ok?
    {
      value
    }
  }

  const CALL_FIELDS: set<Field> := {Sender, Nonce, InitCode, CallData}
  const LIMIT_FIELDS: set<Field> := {CallGasLimit, VerificationGasLimit, PreVerificationGas}
  const PRICE_FIELDS: set<Field> := {MaxFeePerGas, MaxPriorityFeePerGas, PaymasterAndData, Signature}
  const FIELDS: set<Field> := CALL_FIELDS + LIMIT_FIELDS + PRICE_FIELDS

  predicate IsAddressChar(c: char) { IsDigit(c) || c == ',' }

  /** The pattern `^0x[0-9,a-f,A-F]{40}$`: the class contains the comma, and the dollar sign also
      matches before a final line feed. */
  predicate IsAddress(s: string) {
    && (|s| == 42 || (|s| == 43 && s[42] == '\n'))
    && s[0] == '0' && s[1] == 'x'
    && forall i :: 2 <= i < 42 ==> IsAddressChar(s[i])
  }

  function VerifyAddress(v: Json): Result<Address> {
    if v.Text? && IsAddress(v.text) then Ok(v.text) else InvalidFields
  }

  function VerifyUint(v: Json): Result<nat> {
    if v == Null || v == Text("0x") then Ok(0)
    else if v.Text? && "0x" <= v.text then
      match ParseInt(v.text[2..])
      case Some(n) => Ok(n)
      case None => InvalidFields
    else InvalidFields
  }

  function VerifyBytes(v: Json): Result<seq<byte>> {
    if v == Null then Ok([])
    else if v.Text? && "0x" <= v.text then
      match FromHex(v.text[2..])
      case Some(b) => Ok(b)
      case None => InvalidFields
    else InvalidFields
  }

  /** The address in front of init code or paymaster data, when there is anything behind it. */
  function EntityOf(data: seq<byte>): Option<Address> {
    if |data| > 20 then Some("0x" + BytesToHex(data[..20])) else None
  }

  function Construct(j: JsonObject): Result<UserOperation> {
    if |j| != 11 || !(FIELDS <= j.Keys) then InvalidFields
    else
      var sender :- VerifyAddress(j[Sender]);
      var nonce :- VerifyUint(j[Nonce]);
      var initCode :- VerifyBytes(j[InitCode]);
      var callData :- VerifyBytes(j[CallData]);
      var callGasLimit :- VerifyUint(j[CallGasLimit]);
      var verificationGasLimit :- VerifyUint(j[VerificationGasLimit]);
      var preVerificationGas :- VerifyUint(j[PreVerificationGas]);
      var maxFeePerGas :- VerifyUint(j[MaxFeePerGas]);
      var maxPriorityFeePerGas :- VerifyUint(j[MaxPriorityFeePerGas]);
      var paymasterAndData :- VerifyBytes(j[PaymasterAndData]);
      var signature :- VerifyBytes(j[Signature]);
      Ok(UserOperation(sender, nonce, initCode, callData, callGasLimit, verificationGasLimit, preVerificationGas,
                       maxFeePerGas, maxPriorityFeePerGas, paymasterAndData, signature,
                       EntityOf(initCode), EntityOf(paymasterAndData)))
  }

  function PrintUint(n: nat): Json { Text("0x" + ToHex(n)) }

  function PrintBytes(b: seq<byte>): Json { Text("0x" + BytesToHex(b)) }

  function PrintField(op: UserOperation, f: Field): Json {
    match f
    case Sender => Text(op.sender)
    case Nonce => PrintUint(op.nonce)
    case InitCode => PrintBytes(op.initCode)
    case CallData => PrintBytes(op.callData)
    case CallGasLimit => PrintUint(op.callGasLimit)
    case VerificationGasLimit => PrintUint(op.verificationGasLimit)
    case PreVerificationGas => PrintUint(op.preVerificationGas)
    case MaxFeePerGas => PrintUint(op.maxFeePerGas)
    case MaxPriorityFeePerGas => PrintUint(op.maxPriorityFeePerGas)
    case PaymasterAndData => PrintBytes(op.paymasterAndData)
    case Signature => PrintBytes(op.signature)
    case Other(_) => Null
  }

  function Print(op: UserOperation): JsonObject {
    map f | f in FIELDS :: PrintField(op, f)
  }

  predicate WellFormed(op: UserOperation) {
    IsAddress(op.sender) && op.factory == EntityOf(op.initCode) && op.paymaster == EntityOf(op.paymasterAndData)
  }

  lemma UintRoundTrip(n: nat)
    ensures VerifyUint(PrintUint(n)) == Ok(n)
  {
    ParseIntOfToHex(n);
    assert ("0x" + ToHex(n))[2..] == ToHex(n);
  }

  lemma BytesRoundTrip(b: seq<byte>)
    ensures VerifyBytes(PrintBytes(b)) == Ok(b)
  {
    FromHexOfBytes(b);
    assert ("0x" + BytesToHex(b))[2..] == BytesToHex(b);
  }

  lemma ElevenFields()
    ensures |FIELDS| == 11
  {
    assert |CALL_FIELDS| == 4 && |LIMIT_FIELDS| == 3 && |PRICE_FIELDS| == 4;
    assert CALL_FIELDS !! LIMIT_FIELDS && (CALL_FIELDS + LIMIT_FIELDS) !! PRICE_FIELDS;
  }

  lemma PrintedFields(op: UserOperation)
    ensures Print(op).Keys == FIELDS && |Print(op)| == 11
  {
    ElevenFields();
    assert |Print(op)| == |Print(op).Keys|;
  }

  // The three groups of fields, each read back as the operation has them

  predicate ReadsCall(j: JsonObject, op: UserOperation)
    requires CALL_FIELDS <= j.Keys
  {
    && VerifyAddress(j[Sender]) == Ok(op.sender) && VerifyUint(j[Nonce]) == Ok(op.nonce)
    && VerifyBytes(j[InitCode]) == Ok(op.initCode) && VerifyBytes(j[CallData]) == Ok(op.callData)
  }

  predicate ReadsLimits(j: JsonObject, op: UserOperation)
    requires LIMIT_FIELDS <= j.Keys
  {
    && VerifyUint(j[CallGasLimit]) == Ok(op.callGasLimit)
    && VerifyUint(j[VerificationGasLimit]) == Ok(op.verificationGasLimit)
    && VerifyUint(j[PreVerificationGas]) == Ok(op.preVerificationGas)
  }

  predicate ReadsPrices(j: JsonObject, op: UserOperation)
    requires PRICE_FIELDS <= j.Keys
  {
    && VerifyUint(j[MaxFeePerGas]) == Ok(op.maxFeePerGas)
    && VerifyUint(j[MaxPriorityFeePerGas]) == Ok(op.maxPriorityFeePerGas)
    && VerifyBytes(j[PaymasterAndData]) == Ok(op.paymasterAndData)
    && VerifyBytes(j[Signature]) == Ok(op.signature)
  }

  lemma PrintedCall(op: UserOperation)
    requires IsAddress(op.sender)
    ensures ReadsCall(Print(op), op)
  {
    UintRoundTrip(op.nonce);
    BytesRoundTrip(op.initCode);
    BytesRoundTrip(op.callData);
  }

  lemma PrintedLimits(op: UserOperation)
    ensures ReadsLimits(Print(op), op)
  {
    var j := Print(op);
    assert j[CallGasLimit] == PrintUint(op.callGasLimit);
    assert j[VerificationGasLimit] == PrintUint(op.verificationGasLimit);
    assert j[PreVerificationGas] == PrintUint(op.preVerificationGas);
    UintRoundTrip(op.callGasLimit);
    UintRoundTrip(op.verificationGasLimit);
    UintRoundTrip(op.preVerificationGas);
  }

  lemma PrintedPrices(op: UserOperation)
    ensures ReadsPrices(Print(op), op)
  {
    var j := Print(op);
    assert j[MaxFeePerGas] == PrintUint(op.maxFeePerGas)
           && j[MaxPriorityFeePerGas] == PrintUint(op.maxPriorityFeePerGas);
    assert j[PaymasterAndData] == PrintBytes(op.paymasterAndData) && j[Signature] == PrintBytes(op.signature);
    UintRoundTrip(op.maxFeePerGas);
    UintRoundTrip(op.maxPriorityFeePerGas);
    BytesRoundTrip(op.paymasterAndData);
    BytesRoundTrip(op.signature);
  }

  lemma ConstructReads(j: JsonObject, op: UserOperation)
    requires |j| == 11 && FIELDS <= j.Keys && WellFormed(op)
    requires ReadsCall(j, op) && ReadsLimits(j, op) && ReadsPrices(j, op)
    ensures Construct(j) == Ok(op)
  {
  }

  /** Constructing from the printed form gives back the operation, with all derived parts. */
  lemma RoundTrip(op: UserOperation)
    requires WellFormed(op)
    ensures Construct(Print(op)) == Ok(op)
  {
    PrintedFields(op);
    PrintedCall(op);
    PrintedLimits(op);
    PrintedPrices(op);
    ConstructReads(Print(op), op);
  }

  /** Whatever the constructor accepts is well formed, so printing normalises a request: the
      printed form of an accepted object is accepted and stands for the same operation. */
  lemma PrintNormalises(j: JsonObject)
    requires Construct(j).Ok?
    ensures WellFormed(Construct(j).value)
    ensures Construct(Print(Construct(j).value)) == Construct(j)
  {
    RoundTrip(Construct(j).value);
  }

  // What the texts mean

  /** Null and a bare prefix are zero; digits behind the prefix are the number they stand for. */
  ghost predicate MeansUint(v: Json, n: nat) {
    && (v == Null || v == Text("0x") ==> n == 0)
    && (forall d :: d != "" && AllDigits(d) && v == Text("0x" + d) ==> n == Value(d))
  }

  /** Null is no bytes; otherwise the digits behind the prefix are those of the bytes. */
  ghost predicate MeansBytes(v: Json, b: seq<byte>) {
    && (v == Null ==> b == [])
    && (v != Null ==> v.Text? && "0x" <= v.text && BytesToHex(b) == Spelled(v.text[2..]))
  }

  lemma UintMeant(v: Json)
    requires VerifyUint(v).Ok?
    ensures MeansUint(v, VerifyUint(v).value)
  {
    forall d | d != "" && AllDigits(d) && v == Text("0x" + d) ensures VerifyUint(v).value == Value(d) {
      assert ("0x" + d)[2..] == d && IsDigit(d[|d| - 1]);
      NumeralOfDigits(d);
    }
  }

  lemma BytesMeant(v: Json)
    requires VerifyBytes(v).Ok?
    ensures MeansBytes(v, VerifyBytes(v).value)
  {
    if v.Text? {
      BytesOfText(v.text[2..]);
    }
  }

  /** Each field of an accepted operation is what the text under its own name means. */
  lemma FieldsAreMeant(j: JsonObject)
    requires Construct(j).Ok?
    ensures FIELDS <= j.Keys
    ensures var op := Construct(j).value;
            && j[Sender] == Text(op.sender) && MeansUint(j[Nonce], op.nonce)
            && MeansBytes(j[InitCode], op.initCode) && MeansBytes(j[CallData], op.callData)
            && MeansUint(j[CallGasLimit], op.callGasLimit)
            && MeansUint(j[VerificationGasLimit], op.verificationGasLimit)
            && MeansUint(j[PreVerificationGas], op.preVerificationGas)
            && MeansUint(j[MaxFeePerGas], op.maxFeePerGas)
            && MeansUint(j[MaxPriorityFeePerGas], op.maxPriorityFeePerGas)
            && MeansBytes(j[PaymasterAndData], op.paymasterAndData) && MeansBytes(j[Signature], op.signature)
  {
    UintMeant(j[Nonce]);
    UintMeant(j[CallGasLimit]);
    UintMeant(j[VerificationGasLimit]);
    UintMeant(j[PreVerificationGas]);
    UintMeant(j[MaxFeePerGas]);
    UintMeant(j[MaxPriorityFeePerGas]);
    BytesMeant(j[InitCode]);
    BytesMeant(j[CallData]);
    BytesMeant(j[PaymasterAndData]);
    BytesMeant(j[Signature]);
  }

  /** The entity in a text: the first forty digits in lower case, if there are more than forty. */
  ghost predicate Names(v: Json, entity: Option<Address>) {
    && (v == Null ==> entity == None)
    && (v.Text? ==> |v.text| >= 2 && NamesIn(Spelled(v.text[2..]), entity))
    && (forall d :: AllDigits(d) && v == Text("0x" + d) ==>
          entity == if |d| > 40 then Some("0x" + LowerCase(d[..40])) else None)
  }

  ghost predicate NamesIn(d: string, entity: Option<Address>) {
    entity == if |d| > 40 then Some("0x" + d[..40]) else None
  }

  lemma EntityMeant(v: Json)
    requires VerifyBytes(v).Ok?
    ensures Names(v, EntityOf(VerifyBytes(v).value))
  {
    var b := VerifyBytes(v).value;
    if v.Text? {
      var d := Spelled(v.text[2..]);
      BytesOfText(v.text[2..]);
      if |b| > 20 {
        FrontOfBytes(b, 20);
      }
      assert NamesIn(d, EntityOf(b));
      forall e | AllDigits(e) && v == Text("0x" + e)
        ensures EntityOf(b) == if |e| > 40 then Some("0x" + LowerCase(e[..40])) else None
      {
        assert ("0x" + e)[2..] == e;
        SpelledDigits(e);
        if |e| > 40 {
          assert LowerCase(e)[..40] == LowerCase(e[..40]);
        }
      }
    }
  }

  lemma ConstructNames(j: JsonObject)
    requires Construct(j).Ok?
    ensures FIELDS <= j.Keys && VerifyBytes(j[InitCode]).Ok? && VerifyBytes(j[PaymasterAndData]).Ok?
    ensures Construct(j).value.factory == EntityOf(VerifyBytes(j[InitCode]).value)
    ensures Construct(j).value.paymaster == EntityOf(VerifyBytes(j[PaymasterAndData]).value)
  {
  }

  /** Factory and paymaster, from the texts: the address in front of the init code and of the paymaster's
      data, if there is anything behind it. */
  lemma EntitiesAreMeant(j: JsonObject)
    requires Construct(j).Ok?
    ensures FIELDS <= j.Keys
    ensures Names(j[InitCode], Construct(j).value.factory)
    ensures Names(j[PaymasterAndData], Construct(j).value.paymaster)
  {
    ConstructNames(j);
    EntityMeant(j[InitCode]);
    EntityMeant(j[PaymasterAndData]);
  }

  /** Exactly the eleven fields are accepted: a missing or an extra name is refused. */
  lemma ExactlyTheFields(j: JsonObject)
    requires Construct(j).Ok?
    ensures j.Keys == FIELDS
  {
    ElevenFields();
    SameSize(FIELDS, j.Keys);
  }

  ghost predicate IsAddressText(s: string) {
    && (|s| == 42 || (|s| == 43 && s[42] == '\n')) && s[..2] == "0x"
    && forall i :: 2 <= i < 42 ==> '0' <= s[i] <= '9' || 'a' <= s[i] <= 'f' || 'A' <= s[i] <= 'F' || s[i] == ','
  }

  /** Null, a bare prefix, or the prefix and a numeral. */
  ghost predicate IsUintText(v: Json) {
    v == Null || (v.Text? && "0x" <= v.text && (v.text == "0x" || ParseInt(v.text[2..]).Some?))
  }

  /** Null, or the prefix and pairs of digits. */
  ghost predicate IsBytesText(v: Json) { v == Null || (v.Text? && "0x" <= v.text && FromHex(v.text[2..]).Some?) }

  lemma AddressTexts(s: string)
    ensures IsAddress(s) <==> IsAddressText(s)
  {
    if |s| == 42 || |s| == 43 {
      assert s[..2] == [s[0], s[1]];
    }
  }

  lemma ReadsExactly(j: JsonObject)
    requires |j| == 11 && FIELDS <= j.Keys
    ensures Construct(j).Ok? <==>
              && VerifyAddress(j[Sender]).Ok?
              && VerifyUint(j[Nonce]).Ok? && VerifyUint(j[CallGasLimit]).Ok? && VerifyUint(j[VerificationGasLimit]).Ok?
              && VerifyUint(j[PreVerificationGas]).Ok? && VerifyUint(j[MaxFeePerGas]).Ok?
              && VerifyUint(j[MaxPriorityFeePerGas]).Ok?
              && VerifyBytes(j[InitCode]).Ok? && VerifyBytes(j[CallData]).Ok?
              && VerifyBytes(j[PaymasterAndData]).Ok? && VerifyBytes(j[Signature]).Ok?
  {
  }

  /** An object is accepted if and only if it has exactly the eleven names and each text is of its kind. */
  lemma AcceptedExactly(j: JsonObject)
    ensures Construct(j).Ok? <==>
              && j.Keys == FIELDS
              && j[Sender].Text? && IsAddressText(j[Sender].text)
              && IsUintText(j[Nonce]) && IsUintText(j[CallGasLimit]) && IsUintText(j[VerificationGasLimit])
              && IsUintText(j[PreVerificationGas]) && IsUintText(j[MaxFeePerGas])
              && IsUintText(j[MaxPriorityFeePerGas])
              && IsBytesText(j[InitCode]) && IsBytesText(j[CallData])
              && IsBytesText(j[PaymasterAndData]) && IsBytesText(j[Signature])
  {
    ElevenFields();
    assert |j| == |j.Keys|;
    if |j| == 11 && FIELDS <= j.Keys {
      SameSize(FIELDS, j.Keys);
      ReadsExactly(j);
      if j[Sender].Text? {
        AddressTexts(j[Sender].text);
      }
    }
  }

  lemma SameSize(a: set<Field>, b: set<Field>)
    requires a <= b && |a| == |b|
    ensures a == b
  {
    if x :| x in b && x !in a {
      assert a <= b - {x};
      SubsetSize(a, b - {x});
    }
  }

  lemma {:induction false} SubsetSize(a: set<Field>, b: set<Field>)
    requires a <= b
    ensures |a| <= |b|
  {
    if x :| x in a {
      SubsetSize(a - {x}, b - {x});
    }
  }
}
