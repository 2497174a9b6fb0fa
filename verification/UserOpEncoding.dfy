/** Packing user operations and validity windows into the byte strings of the EntryPoint, and back. */
module UserOpEncoding {
  import opened Basics
  import opened ByteStrings
  import opened UserOperations

  datatype EncodingError = OutOfRange | PaymasterWithoutGasLimits | InvalidPaymasterAndData

  // ---- Two 128-bit halves of one word ----

  const WORD_BYTES: nat := 32

  /** Shifts the high half up, adds the low one, and pads to a word; fails when that needs more than a word. */
  function PackUint(high: nat, low: nat): Result<Bytes, EncodingError> {
    var n := high * TWO_128 + low;
    if n < TWO_256 then Ok(ToBytes(n, WORD_BYTES)) else Err(OutOfRange)
  }

  function UnpackUint(packed: Bytes): (nat, nat) {
    var n := FromBytes(packed);
    (n / TWO_128, n % TWO_128)
  }

  /** Halves that pack survive the round trip exactly when the low one fits its half. */
  lemma UnpackPackUint(high: nat, low: nat)
    requires PackUint(high, low).Ok?
    ensures UnpackUint(PackUint(high, low).value) == (high, low) <==> low < TWO_128
  {
    Powers();
    FromToBytes(high * TWO_128 + low, WORD_BYTES);
  }

  lemma PackUintFits(high: nat, low: nat)
    requires high < TWO_128 && low < TWO_128
    ensures PackUint(high, low).Ok? && UnpackUint(PackUint(high, low).value) == (high, low)
  {
    UnpackPackUint(high, low);
  }

  lemma PackUnpackUint(packed: Bytes)
    requires |packed| == WORD_BYTES
    ensures PackUint(UnpackUint(packed).0, UnpackUint(packed).1) == Ok(packed)
  {
    Powers();
    FromBytesBound(packed);
    ToFromBytes(packed);
  }

  // ---- Packed user operations ----

  datatype PackedUserOperation = PackedUserOperation(
    sender: Address,
    nonce: nat,
    initCode: Bytes,
    callData: Bytes,
    accountGasLimits: Bytes,
    preVerificationGas: nat,
    gasFees: Bytes,
    paymasterAndData: Bytes,
    signature: Bytes)

  function OrEmpty(b: Option<Bytes>): Bytes {
    match b
    case None => []
    case Some(v) => v
  }

  function PackPaymasterData(paymaster: Address, verificationGas: nat, postOpGas: nat,
                             data: Option<Bytes>): Result<Bytes, EncodingError> {
    match PackUint(verificationGas, postOpGas)
    case Err(e) => Err(e)
    case Ok(limits) => Ok(paymaster + limits + OrEmpty(data))
  }

  function PaymasterAndData(op: UserOperation): Result<Bytes, EncodingError> {
    if op.paymaster.None? then Ok([])
    else if op.paymasterVerificationGasLimit.None? || op.paymasterPostOpGasLimit.None? then
      Err(PaymasterWithoutGasLimits)
    else PackPaymasterData(op.paymaster.value, op.paymasterVerificationGasLimit.value,
                        op.paymasterPostOpGasLimit.value, op.paymasterData)
  }

  /** The EIP-7702 marker is padded on the right to the length of an address. */
  function InitCode(op: UserOperation): Bytes {
    if op.factory.None? then []
    else if op.factory.value == EIP_7702_MARKER then
      EIP_7702_MARKER + Zeros(ADDRESS_LENGTH - 2) + OrEmpty(op.factoryData)
    else op.factory.value + OrEmpty(op.factoryData)
  }

  function PackUserOp(op: UserOperation): Result<PackedUserOperation, EncodingError> {
    match PaymasterAndData(op)
    case Err(e) => Err(e)
    case Ok(paymasterAndData) =>
      match (PackUint(op.verificationGasLimit, op.callGasLimit), PackUint(op.maxPriorityFeePerGas, op.maxFeePerGas))
      case (Ok(gasLimits), Ok(fees)) =>
        Ok(PackedUserOperation(op.sender, op.nonce, InitCode(op), op.callData, gasLimits, op.preVerificationGas, fees,
                               paymasterAndData, op.signature))
      case _ => Err(OutOfRange)
  }

  function UpTo(b: Bytes, n: nat): Bytes {
    if |b| <= n then b else b[..n]
  }

  function From(b: Bytes, n: nat): Bytes {
    if |b| <= n then [] else b[n..]
  }

  datatype PaymasterFields = PaymasterFields(paymaster: Address, verificationGas: nat, postOpGas: nat, data: Bytes)

  function UnpackPaymasterAndData(b: Bytes): Result<Option<PaymasterFields>, EncodingError> {
    if b == [] then Ok(None)
    else if |b| < ADDRESS_LENGTH + WORD_BYTES then Err(InvalidPaymasterAndData)
    else
      var (verificationGas, postOpGas) := UnpackUint(b[ADDRESS_LENGTH..ADDRESS_LENGTH + WORD_BYTES]);
      Ok(Some(PaymasterFields(b[..ADDRESS_LENGTH], verificationGas, postOpGas, b[ADDRESS_LENGTH + WORD_BYTES..])))
  }

  function UnpackUserOp(p: PackedUserOperation): Result<UserOperation, EncodingError> {
    match UnpackPaymasterAndData(p.paymasterAndData)
    case Err(e) => Err(e)
    case Ok(pm) =>
      var (verificationGasLimit, callGasLimit) := UnpackUint(p.accountGasLimits);
      var (maxPriorityFeePerGas, maxFeePerGas) := UnpackUint(p.gasFees);
      var deploys := p.initCode != [];
      Ok(UserOperation(
           p.sender, p.nonce, 0,
           if deploys then Some(UpTo(p.initCode, ADDRESS_LENGTH)) else None,
           if deploys then Some(From(p.initCode, ADDRESS_LENGTH)) else None,
           p.callData, callGasLimit, verificationGasLimit, p.preVerificationGas, maxFeePerGas, maxPriorityFeePerGas,
           if pm.None? then None else Some(pm.value.paymaster),
           if pm.None? then None else Some(pm.value.verificationGas),
           if pm.None? then None else Some(pm.value.postOpGas),
           if pm.None? then None else Some(pm.value.data),
           p.signature, []))
  }

  // ---- Round trips ----

  predicate Fits(n: nat) {
    n < TWO_128
  }

  /** 128-bit gas and fee fields, whole addresses, and gas limits with a paymaster. */
  predicate Packable(op: UserOperation) {
    && Fits(op.verificationGasLimit) && Fits(op.callGasLimit) && Fits(op.maxPriorityFeePerGas) && Fits(op.maxFeePerGas)
    && (op.factory.Some? ==> IsAddress(op.factory.value))
    && (op.paymaster.Some? ==>
          && IsAddress(op.paymaster.value)
          && op.paymasterVerificationGasLimit.Some? && Fits(op.paymasterVerificationGasLimit.value)
          && op.paymasterPostOpGasLimit.Some? && Fits(op.paymasterPostOpGasLimit.value))
  }

  /** Absent data becomes empty, data without its address disappears, and authorizations are not packed. */
  function Canonical(op: UserOperation): UserOperation {
    var op1 := op.(nonceKey := 0, authorizations := [],
                   factoryData := if op.factory.None? then None else Some(OrEmpty(op.factoryData)));
    if op.paymaster.None? then
      op1.(paymasterVerificationGasLimit := None, paymasterPostOpGasLimit := None, paymasterData := None)
    else op1.(paymasterData := Some(OrEmpty(op.paymasterData)))
  }

  lemma UnpackPackPaymaster(op: UserOperation)
    requires Packable(op)
    ensures PaymasterAndData(op).Ok?
    ensures UnpackPaymasterAndData(PaymasterAndData(op).value) == Ok(
              if op.paymaster.None? then None
              else Some(PaymasterFields(op.paymaster.value, op.paymasterVerificationGasLimit.value,
                                        op.paymasterPostOpGasLimit.value, OrEmpty(op.paymasterData))))
  {
    if op.paymaster.Some? {
      var high, low := op.paymasterVerificationGasLimit.value, op.paymasterPostOpGasLimit.value;
      PackUintFits(high, low);
      var limits := PackUint(high, low).value;
      var b := PaymasterAndData(op).value;
      assert b[..ADDRESS_LENGTH] == op.paymaster.value;
      assert b[ADDRESS_LENGTH..ADDRESS_LENGTH + WORD_BYTES] == limits;
      assert b[ADDRESS_LENGTH + WORD_BYTES..] == OrEmpty(op.paymasterData);
    }
  }

  /** Unpacking a packed operation returns it in canonical form. */
  lemma UnpackPackUserOp(op: UserOperation)
    requires Packable(op)
    ensures PackUserOp(op).Ok? && UnpackUserOp(PackUserOp(op).value) == Ok(Canonical(op))
  {
    UnpackPackPaymaster(op);
    PackUintFits(op.verificationGasLimit, op.callGasLimit);
    PackUintFits(op.maxPriorityFeePerGas, op.maxFeePerGas);
    if op.factory.Some? {
      var code := InitCode(op);
      assert code == op.factory.value + OrEmpty(op.factoryData);
      assert UpTo(code, ADDRESS_LENGTH) == op.factory.value && From(code, ADDRESS_LENGTH) == OrEmpty(op.factoryData);
    }
  }

  /** The marker factory packs, but comes back as the padded address: the one exception. */
  lemma MarkerFactoryChanges(op: UserOperation)
    requires op.factory == Some(EIP_7702_MARKER) && Packable(op.(factory := None))
    ensures PackUserOp(op).Ok? && UnpackUserOp(PackUserOp(op).value)
         == Ok(Canonical(op).(factory := Some(EIP_7702_MARKER + Zeros(ADDRESS_LENGTH - 2))))
  {
    var op' := op.(factory := None);
    UnpackPackPaymaster(op');
    assert PaymasterAndData(op) == PaymasterAndData(op');
    PackUintFits(op.verificationGasLimit, op.callGasLimit);
    PackUintFits(op.maxPriorityFeePerGas, op.maxFeePerGas);
    var code, padded := InitCode(op), EIP_7702_MARKER + Zeros(ADDRESS_LENGTH - 2);
    assert code == padded + OrEmpty(op.factoryData);
    assert UpTo(code, ADDRESS_LENGTH) == padded && From(code, ADDRESS_LENGTH) == OrEmpty(op.factoryData);
  }

  predicate WellFormedPacked(p: PackedUserOperation) {
    && |p.accountGasLimits| == WORD_BYTES && |p.gasFees| == WORD_BYTES
    && (p.initCode == [] || ADDRESS_LENGTH <= |p.initCode|)
    && (p.paymasterAndData == [] || ADDRESS_LENGTH + WORD_BYTES <= |p.paymasterAndData|)
  }

  /** Packing an unpacked well-formed operation is the identity. */
  lemma PackUnpackUserOp(p: PackedUserOperation)
    requires WellFormedPacked(p)
    ensures UnpackUserOp(p).Ok? && PackUserOp(UnpackUserOp(p).value) == Ok(p)
  {
    PackUnpackUint(p.accountGasLimits);
    PackUnpackUint(p.gasFees);
    var op := UnpackUserOp(p).value;
    if p.paymasterAndData != [] {
      var b := p.paymasterAndData;
      var limits := b[ADDRESS_LENGTH..ADDRESS_LENGTH + WORD_BYTES];
      PackUnpackUint(limits);
      assert b == b[..ADDRESS_LENGTH] + limits + b[ADDRESS_LENGTH + WORD_BYTES..];
    }
    if p.initCode != [] {
      assert |op.factory.value| == ADDRESS_LENGTH;
      assert p.initCode == op.factory.value + op.factoryData.value;
    }
  }

  // ---- Validity windows ----

  const TIME_BYTES: nat := 6
  const MAX_UINT48: nat := 0xFFFF_FFFF_FFFF

  datatype ValidationData = ValidationData(aggregator: Address, validAfter: nat, validUntil: nat)

  /** Slices of the padded word: validAfter, validUntil and the aggregator; a zero validUntil means no end. */
  function ParseValidationData(n: nat): Result<ValidationData, EncodingError> {
    if TWO_256 <= n then Err(OutOfRange)
    else
      var data := ToBytes(n, WORD_BYTES);
      var validUntil := FromBytes(data[TIME_BYTES..2 * TIME_BYTES]);
      Ok(ValidationData(
           data[2 * TIME_BYTES..],
           FromBytes(data[..TIME_BYTES]),
           if validUntil == 0 then MAX_UINT48 else validUntil))
  }

  function PackValidationData(v: ValidationData): nat {
    (v.validAfter * TWO_48 + v.validUntil) * TWO_160 + FromBytes(v.aggregator)
  }

  lemma WordOfParts(a: Bytes, u: Bytes, g: Bytes)
    requires |a| == TIME_BYTES && |u| == TIME_BYTES && |g| == ADDRESS_LENGTH
    ensures FromBytes(a + u + g) == PackValidationData(ValidationData(g, FromBytes(a), FromBytes(u)))
  {
    Powers();
    FromBytesConcat(a + u, g);
    FromBytesConcat(a, u);
  }

  /** Parsing inverts packing for every 48-bit window and whole aggregator address, with zero read as no end. */
  lemma ParsePackValidationData(v: ValidationData)
    requires |v.aggregator| == ADDRESS_LENGTH
    requires v.validAfter < TWO_48 && v.validUntil < TWO_48
    ensures ParseValidationData(PackValidationData(v))
         == Ok(if v.validUntil == 0 then v.(validUntil := MAX_UINT48) else v)
  {
    Powers();
    var a, u := ToBytes(v.validAfter, TIME_BYTES), ToBytes(v.validUntil, TIME_BYTES);
    FromToBytes(v.validAfter, TIME_BYTES);
    FromToBytes(v.validUntil, TIME_BYTES);
    var w := a + u + v.aggregator;
    WordOfParts(a, u, v.aggregator);
    FromBytesBound(w);
    ToFromBytes(w);
    assert w[..TIME_BYTES] == a && w[TIME_BYTES..2 * TIME_BYTES] == u && w[2 * TIME_BYTES..] == v.aggregator;
  }

  /** Packing inverts parsing exactly on the words whose validUntil is not encoded as zero. */
  lemma PackParseValidationData(n: nat)
    requires n < TWO_256
    ensures PackValidationData(ParseValidationData(n).value) == n
       <==> FromBytes(ToBytes(n, WORD_BYTES)[TIME_BYTES..2 * TIME_BYTES]) != 0
  {
    Powers();
    var data := ToBytes(n, WORD_BYTES);
    FromToBytes(n, WORD_BYTES);
    var a, u, g := data[..TIME_BYTES], data[TIME_BYTES..2 * TIME_BYTES], data[2 * TIME_BYTES..];
    assert data == a + u + g;
    WordOfParts(a, u, g);
  }

  // ---- Where the fields lie ----

  /** The high half fills the first 16 bytes of the word and the low half the rest. */
  lemma HalvesLie(high: nat, low: nat)
    requires high < TWO_128 && low < TWO_128
    ensures var b := PackUint(high, low);
            b.Ok? && |b.value| == WORD_BYTES && FromBytes(b.value[..16]) == high && FromBytes(b.value[16..]) == low
  {
    PackUintFits(high, low);
    var b := PackUint(high, low).value;
    var first, second := b[..16], b[16..];
    FromToBytes(high * TWO_128 + low, WORD_BYTES) by { Powers(); }
    assert FromBytes(b) == high * TWO_128 + low;
    hide PackUint, FromBytes, Pow256;
    assert b == first + second;
    FromBytesConcat(first, second);
    FromBytesBound(second);
    HalfPower();
    SameHalves(FromBytes(first), FromBytes(second), high, low);
  }

  lemma HalfPower()
    ensures Pow256(16) == TWO_128
  {
    assert Pow256(8) == 0x1_0000_0000_0000_0000;
    assert Pow256(12) == 0x1_0000_0000_0000_0000_0000_0000;
  }

  lemma SameHalves(a: nat, b: nat, high: nat, low: nat)
    requires a * TWO_128 + b == high * TWO_128 + low && b < TWO_128 && low < TWO_128
    ensures a == high && b == low
  {
  }

  /** Each field of an operation whose gas fields fit their halves is found at its place in the packed form. */
  lemma FieldsLie(op: UserOperation)
    requires PackUserOp(op).Ok?
    requires op.verificationGasLimit < TWO_128 && op.callGasLimit < TWO_128
    requires op.maxPriorityFeePerGas < TWO_128 && op.maxFeePerGas < TWO_128
    ensures var p := PackUserOp(op).value;
            && p.sender == op.sender && p.nonce == op.nonce && p.callData == op.callData
            && p.preVerificationGas == op.preVerificationGas && p.signature == op.signature
            && FromBytes(p.accountGasLimits[..16]) == op.verificationGasLimit
            && FromBytes(p.accountGasLimits[16..]) == op.callGasLimit
            && FromBytes(p.gasFees[..16]) == op.maxPriorityFeePerGas
            && FromBytes(p.gasFees[16..]) == op.maxFeePerGas
  {
    HalvesLie(op.verificationGasLimit, op.callGasLimit);
    HalvesLie(op.maxPriorityFeePerGas, op.maxFeePerGas);
    hide PackUint, FromBytes;
  }

  /** The paymaster comes first, its two gas limits take a word after it, and its data is the rest. */
  lemma PaymasterLies(op: UserOperation)
    requires PackUserOp(op).Ok? && op.paymaster.Some? && IsAddress(op.paymaster.value)
    ensures op.paymasterVerificationGasLimit.Some? && op.paymasterPostOpGasLimit.Some?
    ensures op.paymasterVerificationGasLimit.value < TWO_128 && op.paymasterPostOpGasLimit.value < TWO_128 ==>
              var b := PackUserOp(op).value.paymasterAndData;
              && 52 <= |b| && b[..20] == op.paymaster.value
              && FromBytes(b[20..36]) == op.paymasterVerificationGasLimit.value
              && FromBytes(b[36..52]) == op.paymasterPostOpGasLimit.value
              && b[52..] == (if op.paymasterData.Some? then op.paymasterData.value else [])
  {
    var verification, postOp := op.paymasterVerificationGasLimit.value, op.paymasterPostOpGasLimit.value;
    if verification < TWO_128 && postOp < TWO_128 {
      HalvesLie(verification, postOp);
      var limits, b := PackUint(verification, postOp).value, PackUserOp(op).value.paymasterAndData;
      assert b == op.paymaster.value + limits + OrEmpty(op.paymasterData);
      hide PackUint, FromBytes;
      assert b[20..36] == limits[..16] && b[36..52] == limits[16..] && b[52..] == OrEmpty(op.paymasterData);
    }
  }

  /** The factory fills the first 20 bytes of the init code, the EIP-7702 marker with zeros after it. */
  lemma FactoryLies(op: UserOperation)
    requires PackUserOp(op).Ok? && op.factory.Some?
    ensures var b := PackUserOp(op).value.initCode;
            && (IsAddress(op.factory.value) ==> 20 <= |b| && b[..20] == op.factory.value)
            && (op.factory.value == [0x77, 0x02] ==>
                  20 <= |b| && b[..2] == op.factory.value && forall i | 2 <= i < 20 :: b[i] == 0)
            && (IsAddress(op.factory.value) || op.factory.value == [0x77, 0x02] ==>
                  b[20..] == if op.factoryData.Some? then op.factoryData.value else [])
  {
    var b := PackUserOp(op).value.initCode;
    assert b == InitCode(op);
    ZerosAreZero(18);
  }

  lemma {:induction false} ZerosAreZero(n: nat)
    ensures forall i | 0 <= i < n :: Zeros(n)[i] == 0
  {
    if n != 0 {
      ZerosAreZero(n - 1);
    }
  }
}
