/**
 Pre-verification gas: the call data cost of the packed operation, the estimate handed to users
 and the check at submission.
 */
module PreVerificationGas {
  import opened Hex
  import opened AbiPacking
  import opened UserOperationCodec

  const FIXED: nat := 21000
  const PER_USER_OPERATION: nat := 18300
  const PER_WORD: nat := 4
  const ZERO_BYTE: nat := 4
  const NON_ZERO_BYTE: nat := 16
  const STAND_IN_PRE_VERIFICATION_GAS: nat := 21000
  const SIGNATURE_SIZE: nat := 65

  function DummySignature(): (s: seq<byte>)
    ensures |s| == SIGNATURE_SIZE
  {
    seq(SIGNATURE_SIZE, _ => 1)
  }

  /** The number an address stands for. */
  function AddressNumber(a: string): nat {
    if |a| >= 42 && AllDigits(a[2..42]) then Value(a[2..42]) else 0
  }

  /** `to_list` */
  function Arguments(op: UserOperation): (args: seq<Argument>)
    ensures |args| == 11
  {
    [Word(AddressNumber(op.sender)), Word(op.nonce), Bytes(op.initCode), Bytes(op.callData),
     Word(op.callGasLimit), Word(op.verificationGasLimit), Word(op.preVerificationGas),
     Word(op.maxFeePerGas), Word(op.maxPriorityFeePerGas), Bytes(op.paymasterAndData), Bytes(op.signature)]
  }

  function CountZero(b: seq<byte>): (n: nat)
    ensures n <= |b|
  {
    if b == [] then 0 else (if b[0] == 0 then 1 else 0) + CountZero(b[1..])
  }

  function CallDataCost(b: seq<byte>): nat {
    CountZero(b) * ZERO_BYTE + (|b| - CountZero(b)) * NON_ZERO_BYTE
  }

  function CeilDiv(n: nat, d: nat): nat
    requires d > 0
  {
    (n + d - 1) / d
  }

  function BasePreVerificationGas(op: UserOperation): nat {
    var args := Arguments(op)[6 := Word(STAND_IN_PRE_VERIFICATION_GAS)];
    var signed := if |op.signature| < SIGNATURE_SIZE then args[10 := Bytes(DummySignature())] else args;
    var packed := Encode(signed);
    CallDataCost(packed) + FIXED + PER_USER_OPERATION + PER_WORD * CeilDiv(|packed| + 31, 32)
  }

  /** With the default coefficient of 100 percent and nothing added, and no L1 part. */
  function GetPreVerificationGas(op: UserOperation): nat {
    CeilDiv(BasePreVerificationGas(op) * 100, 100)
  }

  datatype Verdict = Passed | PreVerificationGasTooLow(minimum: nat) | VerificationGasTooHigh(maximum: nat)

  function Verify(op: UserOperation, maxVerificationGas: nat): Verdict {
    var expected := GetPreVerificationGas(op);
    if op.preVerificationGas < expected then PreVerificationGasTooLow(expected)
    else if op.verificationGasLimit > maxVerificationGas then VerificationGasTooHigh(maxVerificationGas)
    else Passed
  }

  // What the signature contributes

  /** The signature that is priced: a short one is replaced by 65 non-zero bytes. */
  function Priced(signature: seq<byte>): seq<byte> {
    if |signature| < SIGNATURE_SIZE then DummySignature() else signature
  }

  function SignatureGas(signature: seq<byte>): nat {
    CallDataCost(Tail(Bytes(signature))) + PER_WORD * TailWords(Bytes(signature))
  }

  lemma {:induction false} CountZeroConcat(a: seq<byte>, b: seq<byte>)
    ensures CountZero(a + b) == CountZero(a) + CountZero(b)
  {
    if a == [] {
      assert a + b == b;
    } else {
      CountZeroConcat(a[1..], b);
      assert (a + b)[1..] == a[1..] + b;
    }
  }

  lemma CostConcat(a: seq<byte>, b: seq<byte>)
    ensures CallDataCost(a + b) == CallDataCost(a) + CallDataCost(b)
  {
    CountZeroConcat(a, b);
  }

  /** The arguments before the signature, with the stand-in for the pre-verification gas. */
  function Unsigned(op: UserOperation): (args: seq<Argument>)
    ensures |args| == 10
  {
    [Word(AddressNumber(op.sender)), Word(op.nonce), Bytes(op.initCode), Bytes(op.callData),
     Word(op.callGasLimit), Word(op.verificationGasLimit), Word(STAND_IN_PRE_VERIFICATION_GAS),
     Word(op.maxFeePerGas), Word(op.maxPriorityFeePerGas), Bytes(op.paymasterAndData)]
  }

  ghost function FrontGas(args: seq<Argument>): nat {
    CallDataCost(Front(args)) + FIXED + PER_USER_OPERATION + PER_WORD * (|args| + 2 + AllTailWords(args))
  }

  lemma PackedIs(op: UserOperation)
    ensures var args := Arguments(op)[6 := Word(STAND_IN_PRE_VERIFICATION_GAS)];
            var signed := if |op.signature| < SIGNATURE_SIZE then args[10 := Bytes(DummySignature())] else args;
            signed == Unsigned(op) + [Bytes(Priced(op.signature))]
  {
  }

  /** The formula is a sum of a part for the signature and a part for everything else. */
  lemma GasSplits(op: UserOperation)
    ensures GetPreVerificationGas(op) == FrontGas(Unsigned(op)) + SignatureGas(Priced(op.signature))
  {
    PackedIs(op);
    EncodedGas(Unsigned(op), Priced(op.signature));
    var packed := Encode(Unsigned(op) + [Bytes(Priced(op.signature))]);
    assert BasePreVerificationGas(op)
        == CallDataCost(packed) + FIXED + PER_USER_OPERATION + PER_WORD * CeilDiv(|packed| + 31, 32);
    Percent(BasePreVerificationGas(op));
  }

  ghost function ZeroIndices(b: seq<byte>): set<int> { set i | 0 <= i < |b| && b[i] == 0 }

  lemma {:induction false} CountZeroIs(b: seq<byte>)
    ensures CountZero(b) == |ZeroIndices(b)|
  {
    if b != [] {
      var n := |b| - 1;
      CountZeroIs(b[..n]);
      CountZeroConcat(b[..n], [b[n]]);
      assert b == b[..n] + [b[n]];
      assert ZeroIndices(b) == ZeroIndices(b[..n]) + if b[n] == 0 then {n} else {};
    }
  }

  /** The formula in numbers: 4 for each zero byte of the packed operation, 16 for each other byte, 39300,
      and 4 for each word, counted one too many unless the length is a multiple of 32 plus one. The
      operation is packed with 21000 for its pre-verification gas and at least 65 bytes of signature. */
  lemma GasFormula(op: UserOperation)
    ensures var packed := Encode(
                            [Word(AddressNumber(op.sender)), Word(op.nonce), Bytes(op.initCode), Bytes(op.callData),
                             Word(op.callGasLimit), Word(op.verificationGasLimit), Word(21000),
                             Word(op.maxFeePerGas), Word(op.maxPriorityFeePerGas), Bytes(op.paymasterAndData),
                             Bytes(if |op.signature| < 65 then seq(65, _ => 1) else op.signature)]);
            var zeros := |set i | 0 <= i < |packed| && packed[i] == 0|;
            GetPreVerificationGas(op) == 4 * zeros + 16 * (|packed| - zeros) + 39300 + 4 * ((|packed| + 62) / 32)
  {
    PackedIs(op);
    var packed := Encode(Unsigned(op) + [Bytes(Priced(op.signature))]);
    CountZeroIs(packed);
    Percent(BasePreVerificationGas(op));
    assert Unsigned(op) + [Bytes(Priced(op.signature))] ==
      [Word(AddressNumber(op.sender)), Word(op.nonce), Bytes(op.initCode), Bytes(op.callData),
       Word(op.callGasLimit), Word(op.verificationGasLimit), Word(21000),
       Word(op.maxFeePerGas), Word(op.maxPriorityFeePerGas), Bytes(op.paymasterAndData),
       Bytes(if |op.signature| < 65 then seq(65, _ => 1) else op.signature)] by {
      assert DummySignature() == seq(65, _ => 1);
    }
    assert ZeroIndices(packed) == set i | 0 <= i < |packed| && packed[i] == 0;
  }

  lemma Percent(n: nat)
    ensures CeilDiv(n * 100, 100) == n
  {
  }

  lemma EncodedGas(args: seq<Argument>, signature: seq<byte>)
    ensures var packed := Encode(args + [Bytes(signature)]);
            CallDataCost(packed) + FIXED + PER_USER_OPERATION + PER_WORD * CeilDiv(|packed| + 31, 32)
            == FrontGas(args) + SignatureGas(signature)
  {
    var tail := Tail(Bytes(signature));
    EncodeLast(args, signature);
    CostConcat(Front(args), tail);
    TailsInWords(args);
    TailInWords(Bytes(signature));
    WordCount(|args| + 1 + AllTailWords(args), TailWords(Bytes(signature)));
  }

  lemma WordCount(a: nat, b: nat)
    ensures CeilDiv(32 * a + 32 * b + 31, 32) == a + b + 1
  {
  }

  lemma {:induction false} NoZeros(b: seq<byte>)
    requires forall i :: 0 <= i < |b| ==> b[i] != 0
    ensures CountZero(b) == 0
  {
    if b != [] {
      NoZeros(b[1..]);
    }
  }

  /** The tail of a signature of 65 to 95 bytes. */
  lemma SignatureCost(signature: seq<byte>)
    requires 65 <= |signature| < 96
    ensures SignatureGas(signature)
            == CallDataCost(Slot(|signature|)) + CallDataCost(signature) + 4 * (96 - |signature|) + PER_WORD * 4
  {
    var zeros := Zeros(96 - |signature|);
    PaddedShort(signature);
    CostConcat(Slot(|signature|), signature + zeros);
    CostConcat(signature, zeros);
    AllZeros(96 - |signature|);
  }

  lemma PaddedShort(data: seq<byte>)
    requires 65 <= |data| < 96
    ensures Padded(data) == data + Zeros(96 - |data|) && Words(|data|) == 3
  {
    var rest := data[32..][32..];
    assert Padded(data) == data[..32] + (data[32..][..32] + Padded(rest));
    assert Padded(rest) == rest + Zeros(32 - |rest|);
    assert data == data[..32] + (data[32..][..32] + rest);
    assert Words(|data|) == 1 + Words(|data| - 32);
  }

  lemma CostAtMost(b: seq<byte>)
    ensures CallDataCost(b) <= 16 * |b|
    ensures (forall i :: 0 <= i < |b| ==> b[i] != 0) ==> CallDataCost(b) == 16 * |b|
  {
    if forall i :: 0 <= i < |b| ==> b[i] != 0 {
      NoZeros(b);
    }
  }

  /** Without zeros a signature is the dearest of its size. */
  lemma NonZeroIsDearest(s: seq<byte>, t: seq<byte>)
    requires 65 <= |s| == |t| < 96 && forall i :: 0 <= i < |t| ==> t[i] != 0
    ensures SignatureGas(s) <= SignatureGas(t)
  {
    SignatureCost(s);
    SignatureCost(t);
    CostAtMost(s);
    CostAtMost(t);
  }

  /** Among signatures of at most 65 bytes none is dearer than the dummy. */
  lemma DummyIsDearest(signature: seq<byte>)
    requires |signature| <= SIGNATURE_SIZE
    ensures SignatureGas(Priced(signature)) <= SignatureGas(DummySignature())
  {
    if |signature| == SIGNATURE_SIZE {
      NonZeroIsDearest(signature, DummySignature());
    }
  }

  // Estimation

  /** The operation object that an estimate works on and overwrites. */
  class Target {
    var op: UserOperation

    constructor (op: UserOperation)
      ensures this.op == op
    {
      this.op := op;
    }
  }

  /** What the node's simulation found, given the limits it was asked with. */
  type Simulation = UserOperation -> (nat, nat)

  datatype Estimate = Estimate(callGasLimit: nat, preVerificationGas: nat, verificationGasLimit: nat)

  /** What the simulation is run on. */
  function Simulated(op: UserOperation, maxVerificationGas: nat): UserOperation {
    if op.verificationGasLimit == 0 then op.(verificationGasLimit := maxVerificationGas) else op
  }

  /** A limit the caller gave is returned as it was; a zero is replaced by the estimate, and the
      pre-verification gas is computed for the operation with the returned limits. */
  ghost function EstimateOf(op: UserOperation, maxVerificationGas: nat, simulate: Simulation): Estimate {
    var (call, verification) := simulate(Simulated(op, maxVerificationGas));
    var callGasLimit := if op.callGasLimit == 0 then call else op.callGasLimit;
    var verificationGasLimit := if op.verificationGasLimit == 0 then verification else op.verificationGasLimit;
    var limited := op.(callGasLimit := callGasLimit, verificationGasLimit := verificationGasLimit);
    Estimate(callGasLimit,
             if op.preVerificationGas == 0 then GetPreVerificationGas(limited) else op.preVerificationGas,
             verificationGasLimit)
  }

  method EstimateGas(target: Target, maxVerificationGas: nat, simulate: Simulation) returns (estimate: Estimate)
    modifies target
    ensures estimate == EstimateOf(old(target.op), maxVerificationGas, simulate)
    ensures var given := old(target.op);
            var asked :=
              if given.verificationGasLimit == 0 then given.(verificationGasLimit := maxVerificationGas) else given;
            var (call, verification) := (estimate.callGasLimit, estimate.verificationGasLimit);
            && call == (if given.callGasLimit == 0 then simulate(asked).0 else given.callGasLimit)
            && verification
               == (if given.verificationGasLimit == 0 then simulate(asked).1 else given.verificationGasLimit)
            && (given.preVerificationGas != 0 ==> estimate.preVerificationGas == given.preVerificationGas)
            && (given.preVerificationGas == 0 ==>
                  estimate.preVerificationGas
                  == GetPreVerificationGas(given.(callGasLimit := call, verificationGasLimit := verification)))
    ensures old(target.op).preVerificationGas == 0 ==>
              target.op == old(target.op).(callGasLimit := estimate.callGasLimit,
                                           verificationGasLimit := estimate.verificationGasLimit)
    ensures old(target.op).preVerificationGas != 0 ==>
              target.op == Simulated(old(target.op), maxVerificationGas)
  {
    var inputPreVerificationGas := target.op.preVerificationGas;
    var inputVerificationGasLimit := target.op.verificationGasLimit;
    var inputCallGasLimit := target.op.callGasLimit;
    if target.op.verificationGasLimit == 0 {
      target.op := target.op.(verificationGasLimit := maxVerificationGas);
    }
    var (estimatedCallGasLimit, estimatedVerificationGasLimit) := simulate(target.op);
    var verificationGasLimit :=
      if inputVerificationGasLimit == 0 then estimatedVerificationGasLimit else inputVerificationGasLimit;
    var callGasLimit := if inputCallGasLimit == 0 then estimatedCallGasLimit else inputCallGasLimit;
    var preVerificationGas;
    if inputPreVerificationGas == 0 {
      target.op := target.op.(callGasLimit := callGasLimit);
      target.op := target.op.(verificationGasLimit := verificationGasLimit);
      preVerificationGas := GetPreVerificationGas(target.op);
    } else {
      preVerificationGas := target.op.preVerificationGas;
    }
    return Estimate(callGasLimit, preVerificationGas, verificationGasLimit);
  }

  /** The operation as it is submitted after an estimate, with a new signature. */
  function Submitted(op: UserOperation, e: Estimate, signature: seq<byte>): UserOperation {
    op.(callGasLimit := e.callGasLimit, preVerificationGas := e.preVerificationGas,
        verificationGasLimit := e.verificationGasLimit, signature := signature)
  }

  /** Submitting with the three returned values passes the pre-verification gas check exactly when
      the new signature, as priced, is no dearer than the one the estimate was made with. */
  lemma EstimateThenSubmit(
    op: UserOperation, maxVerificationGas: nat, simulate: Simulation, signature: seq<byte>)
    requires op.preVerificationGas == 0
    ensures var e := EstimateOf(op, maxVerificationGas, simulate);
            Verify(Submitted(op, e, signature), maxVerificationGas).PreVerificationGasTooLow? <==>
            SignatureGas(Priced(signature)) > SignatureGas(Priced(op.signature))
  {
    var e := EstimateOf(op, maxVerificationGas, simulate);
    GasSplits(op.(callGasLimit := e.callGasLimit, verificationGasLimit := e.verificationGasLimit));
    GasSplits(Submitted(op, e, signature));
  }

  /** The promise of the estimate: made without a signature (or with a short one) it covers every
      signature of at most 65 bytes; the submission then passes unless the verification gas limit
      itself is above the maximum. */
  lemma EstimateCoversSignature(
    op: UserOperation, maxVerificationGas: nat, simulate: Simulation, signature: seq<byte>)
    requires op.preVerificationGas == 0 && |op.signature| < SIGNATURE_SIZE && |signature| <= SIGNATURE_SIZE
    ensures var e := EstimateOf(op, maxVerificationGas, simulate);
            Verify(Submitted(op, e, signature), maxVerificationGas)
            == if e.verificationGasLimit > maxVerificationGas then VerificationGasTooHigh(maxVerificationGas)
               else Passed
  {
    EstimateThenSubmit(op, maxVerificationGas, simulate, signature);
    DummyIsDearest(signature);
  }

  /** Beyond 65 bytes the promise ends: without zeros, 66 bytes are dearer than 65. */
  lemma LongerSignatureIsDearer(s: seq<byte>, t: seq<byte>)
    requires |s| == 65 && |t| == 66 && forall i :: 0 <= i < |t| ==> t[i] != 0
    ensures SignatureGas(t) > SignatureGas(s)
  {
    SignatureCost(s);
    SignatureCost(t);
    CostAtMost(s);
    CostAtMost(t);
    SlotOfSmall(65);
    SlotOfSmall(66);
  }

  lemma {:induction false} AllZeros(n: nat)
    ensures CountZero(Zeros(n)) == n
  {
    if n > 0 {
      AllZeros(n - 1);
      assert Zeros(n)[1..] == Zeros(n - 1);
    }
  }

  lemma {:induction false} ByteOfZero(j: nat)
    ensures ByteAt(0, j) == 0
  {
    if j > 0 {
      ByteOfZero(j - 1);
    }
  }

  lemma SlotOfSmall(n: nat)
    requires 0 < n < 256
    ensures CountZero(Slot(n)) == 31
  {
    var front := Slot(n)[..31];
    forall i | 0 <= i < 31 ensures front[i] == 0 {
      assert front[i] == ByteAt(n, 31 - i) == ByteAt(n / 256, 30 - i);
      ByteOfZero(30 - i);
    }
    assert front == Zeros(31) && Slot(n)[31] == ByteAt(n, 0);
    assert Slot(n) == Zeros(31) + [n];
    CountZeroConcat(Zeros(31), [n]);
    AllZeros(31);
  }
}
