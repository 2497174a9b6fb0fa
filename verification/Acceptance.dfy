/** The checks that accept an operation after its simulation: validity windows and pre-verification gas. */
module Acceptance {
  import opened Basics
  import opened ByteStrings
  import opened UserOperations
  import opened UserOpEncoding

  // ---- Validity windows ----

  const VALID_UNTIL_FUTURE_SECONDS: nat := 30

  datatype TimeError = InFuture | AlreadyExpired | ExpiresTooSoon

  datatype Window = Window(validAfter: nat, validUntil: nat)

  const NO_PAYMASTER_WINDOW := Window(0, MAX_UINT48)

  function WindowOf(v: ValidationData): Window {
    Window(v.validAfter, v.validUntil)
  }

  /** The window of a traced validation: the intersection of the account's and the paymaster's. */
  function ResultWindow(account: ValidationData, paymaster: Option<ValidationData>): Window {
    var pm := if paymaster.None? then NO_PAYMASTER_WINDOW else WindowOf(paymaster.value);
    Window(Max(account.validAfter, pm.validAfter), Min(account.validUntil, pm.validUntil))
  }

  /** A zero validUntil switches the two upper checks off. */
  function CheckTime(w: Window, now: nat): Result<(), TimeError> {
    if now < w.validAfter then Err(InFuture)
    else if w.validUntil != 0 && w.validUntil < now then Err(AlreadyExpired)
    else if w.validUntil != 0 && w.validUntil <= now + VALID_UNTIL_FUTURE_SECONDS then Err(ExpiresTooSoon)
    else Ok(())
  }

  function MergeValidationData(account: ValidationData, paymaster: ValidationData, sigFailed: Address): ValidationData {
    ValidationData(
      if paymaster.aggregator != ADDRESS_ZERO then sigFailed else account.aggregator,
      Max(account.validAfter, paymaster.validAfter),
      Min(account.validUntil, paymaster.validUntil))
  }

  /** The encoded window contains now and lasts beyond the margin; an encoded zero has no end. */
  predicate WindowOpen(n: nat, now: nat) {
    var data := ToBytes(n, WORD_BYTES);
    var validUntil := FromBytes(data[TIME_BYTES..2 * TIME_BYTES]);
    FromBytes(data[..TIME_BYTES]) <= now && (validUntil == 0 || now + VALID_UNTIL_FUTURE_SECONDS < validUntil)
  }

  /**
   * A traced operation passes the time checks exactly when the encoded windows of the account and of the paymaster,
   * if any, are both open, up to the end of the 48-bit clock.
   */
  lemma TimeAcceptedIff(account: nat, paymaster: Option<nat>, now: nat)
    requires account < TWO_256 && (paymaster.Some? ==> paymaster.value < TWO_256)
    ensures var pm := if paymaster.None? then None else Some(ParseValidationData(paymaster.value).value);
            CheckTime(ResultWindow(ParseValidationData(account).value, pm), now).Ok? == (
              && now + VALID_UNTIL_FUTURE_SECONDS < MAX_UINT48
              && WindowOpen(account, now) && (paymaster.Some? ==> WindowOpen(paymaster.value, now)))
  {
    UntilBound(account);
    if paymaster.Some? {
      UntilBound(paymaster.value);
    }
  }

  lemma UntilBound(n: nat)
    ensures FromBytes(ToBytes(n, WORD_BYTES)[TIME_BYTES..2 * TIME_BYTES]) <= MAX_UINT48
  {
    Powers();
    FromBytesBound(ToBytes(n, WORD_BYTES)[TIME_BYTES..2 * TIME_BYTES]);
  }

  /** The window of the traced result is the one the on-chain style merge computes. */
  lemma ResultWindowIsMerge(account: nat, paymaster: nat, sigFailed: Address)
    requires account < TWO_256 && paymaster < TWO_256
    ensures var a, p := ParseValidationData(account).value, ParseValidationData(paymaster).value;
            && ResultWindow(a, Some(p)) == WindowOf(MergeValidationData(a, p, sigFailed))
            && (forall now: nat :: CheckTime(ResultWindow(a, Some(p)), now).Ok? <==>
                  CheckTime(WindowOf(a), now).Ok? && CheckTime(WindowOf(p), now).Ok?)
  {
  }

  // ---- Pre-verification gas ----

  datatype GasConfig = GasConfig(
    transactionGasStipend: real,
    fixedGasOverhead: real,
    perUserOpGasOverhead: real,
    perUserOpWordGasOverhead: real,
    executeUserOpGasOverhead: real,
    executeUserOpPerWordGasOverhead: real,
    standardTokenGasCost: real,
    useEip7623: bool,
    floorPerTokenGasCost: real,
    tokensPerNonzeroByte: nat,
    eip7702AuthGas: real,
    expectedBundleSize: real)

  datatype GasOptions = GasOptions(verificationGasUsed: Option<int>, totalGasUsed: Option<int>)

  const EXECUTE_USEROP_METHOD_SIG: Bytes := [0x8d, 0xd7, 0x71, 0x2f]

  /** Rounds half up. */
  function Round(x: real): int {
    (x + 0.5).Floor
  }

  /** One token for each zero byte; the weight of other bytes wraps at a byte, as the typed array does. */
  function CountTokens(c: GasConfig, bytes: Bytes): nat {
    if bytes == [] then 0
    else CountTokens(c, bytes[..|bytes| - 1]) + (if bytes[|bytes| - 1] == 0 then 1 else c.tokensPerNonzeroByte % 256)
  }

  function GasUsed(op: UserOperation, options: GasOptions): int {
    match options.totalGasUsed
    case Some(total) => total
    case None =>
      (op.callGasLimit + OrZero(op.paymasterPostOpGasLimit)) / 10
      + (match options.verificationGasUsed case None => 0 case Some(used) => used)
  }

  function RealMax(x: real, y: real): real {
    if x < y then y else x
  }

  function Eip7623TransactionGasCost(c: GasConfig, stipend: real, tokens: nat, execution: real): int {
    Round(stipend + RealMax(c.standardTokenGasCost * tokens as real + execution,
                            c.floorPerTokenGasCost * tokens as real))
  }

  /** The overhead of the operation itself: fixed, for its authorization, and for its call data. */
  function SpecificOverhead(c: GasConfig, op: UserOperation, encoded: Bytes): real {
    var words := (|encoded| as real + 31.0) / 32.0;
    var base := c.perUserOpGasOverhead + (if op.authorizations != [] then c.eip7702AuthGas else 0.0);
    if EXECUTE_USEROP_METHOD_SIG <= op.callData then
      base + (c.executeUserOpGasOverhead + c.executeUserOpPerWordGasOverhead * words)
    else
      base + ((|op.callData| + 31) / 32) as real * c.perUserOpWordGasOverhead
  }

  /** The required pre-verification gas; encoded is the ABI encoding of the packed operation, never empty. */
  function Required(c: GasConfig, op: UserOperation, encoded: Bytes, options: GasOptions): real
    requires c.expectedBundleSize != 0.0 && encoded != []
  {
    var tokens := CountTokens(c, encoded);
    var specific := SpecificOverhead(c, op, encoded);
    var share := c.fixedGasOverhead / c.expectedBundleSize;
    var stipend := c.transactionGasStipend / c.expectedBundleSize;
    if c.useEip7623 then
      var used := GasUsed(op, options);
      (Eip7623TransactionGasCost(c, stipend, tokens, share + specific + used as real) - used) as real
    else c.standardTokenGasCost * tokens as real + stipend + share + specific
  }

  predicate IsPreVerificationGasValid(c: GasConfig, op: UserOperation, encoded: Bytes, options: GasOptions)
    requires c.expectedBundleSize != 0.0 && encoded != []
  {
    Required(c, op, encoded, options) <= op.preVerificationGas as real
  }

  const MAX_VERIFICATION_GAS_USED: nat := 500_000

  /** The check on submission, before anything is simulated. */
  predicate Admitted(c: GasConfig, op: UserOperation, encoded: Bytes)
    requires c.expectedBundleSize != 0.0 && encoded != []
  {
    IsPreVerificationGasValid(c, op, encoded, GasOptions(Some(MAX_VERIFICATION_GAS_USED), None))
  }

  /** The check after simulation, with the verification gas it used. */
  predicate Revalidated(c: GasConfig, op: UserOperation, encoded: Bytes, preOpGas: nat)
    requires c.expectedBundleSize != 0.0 && encoded != []
  {
    IsPreVerificationGasValid(c, op, encoded, GasOptions(Some(preOpGas - op.preVerificationGas), None))
  }

  function ZeroBytes(bytes: Bytes): nat {
    if bytes == [] then 0 else ZeroBytes(bytes[..|bytes| - 1]) + (if bytes[|bytes| - 1] == 0 then 1 else 0)
  }

  lemma {:induction false} CountTokensMeaning(c: GasConfig, bytes: Bytes)
    ensures ZeroBytes(bytes) <= |bytes|
    ensures CountTokens(c, bytes) == ZeroBytes(bytes) + (|bytes| - ZeroBytes(bytes)) * (c.tokensPerNonzeroByte % 256)
  {
    if bytes != [] {
      var init, weight := bytes[..|bytes| - 1], c.tokensPerNonzeroByte % 256;
      CountTokensMeaning(c, init);
      assert (|init| + 1 - ZeroBytes(init)) * weight == (|init| - ZeroBytes(init)) * weight + weight;
    }
  }

  lemma RoundShift(x: real, n: int)
    ensures Round(x + n as real) == Round(x) + n
  {
  }

  lemma RoundMonotone(x: real, y: real)
    requires x <= y
    ensures Round(x) <= Round(y)
  {
  }

  /** The EIP-7623 requirement without the subtraction: the larger of the standard cost and what the floor leaves. */
  function Uncovered(c: GasConfig, op: UserOperation, encoded: Bytes, used: int): real
    requires c.expectedBundleSize != 0.0
  {
    var tokens := CountTokens(c, encoded) as real;
    var stipend, share := c.transactionGasStipend / c.expectedBundleSize, c.fixedGasOverhead / c.expectedBundleSize;
    stipend + RealMax(c.standardTokenGasCost * tokens + share + SpecificOverhead(c, op, encoded),
                      c.floorPerTokenGasCost * tokens - used as real)
  }

  /** What is added to the execution and subtracted from the result only lowers the floor. */
  lemma ShiftedCost(c: GasConfig, stipend: real, tokens: nat, overhead: real, used: int)
    ensures Eip7623TransactionGasCost(c, stipend, tokens, overhead + used as real) - used
         == Round(stipend + RealMax(c.standardTokenGasCost * tokens as real + overhead,
                                    c.floorPerTokenGasCost * tokens as real - used as real))
  {
    var standard, floor := c.standardTokenGasCost * tokens as real, c.floorPerTokenGasCost * tokens as real;
    assert stipend + RealMax(standard + (overhead + used as real), floor)
        == stipend + RealMax(standard + overhead, floor - used as real) + used as real;
    RoundShift(stipend + RealMax(standard + overhead, floor - used as real), used);
  }

  lemma RequiredIsUncovered(c: GasConfig, op: UserOperation, encoded: Bytes, options: GasOptions)
    requires c.expectedBundleSize != 0.0 && encoded != [] && c.useEip7623
    ensures Required(c, op, encoded, options) == Round(Uncovered(c, op, encoded, GasUsed(op, options))) as real
  {
    var used, tokens := GasUsed(op, options), CountTokens(c, encoded);
    var stipend := c.transactionGasStipend / c.expectedBundleSize;
    var overhead := c.fixedGasOverhead / c.expectedBundleSize + SpecificOverhead(c, op, encoded);
    ShiftedCost(c, stipend, tokens, overhead, used);
    assert Required(c, op, encoded, options)
        == (Eip7623TransactionGasCost(c, stipend, tokens, overhead + used as real) - used) as real
    by {
      hide Eip7623TransactionGasCost, SpecificOverhead, CountTokens, GasUsed;
    }
    assert Uncovered(c, op, encoded, used)
        == stipend + RealMax(c.standardTokenGasCost * tokens as real + overhead,
                            c.floorPerTokenGasCost * tokens as real - used as real)
    by {
      hide SpecificOverhead, CountTokens, GasUsed, RealMax;
    }
  }

  /** More gas used never raises the requirement. */
  lemma RequiredNonIncreasing(c: GasConfig, op: UserOperation, encoded: Bytes, less: GasOptions, more: GasOptions)
    requires c.expectedBundleSize != 0.0 && encoded != []
    requires GasUsed(op, less) <= GasUsed(op, more)
    ensures Required(c, op, encoded, more) <= Required(c, op, encoded, less)
  {
    if c.useEip7623 {
      RequiredIsUncovered(c, op, encoded, less);
      RequiredIsUncovered(c, op, encoded, more);
      RoundMonotone(Uncovered(c, op, encoded, GasUsed(op, more)), Uncovered(c, op, encoded, GasUsed(op, less)));
    }
  }

  /** It never falls below the rounded formula without EIP-7623. */
  lemma RequiredAboveStandard(c: GasConfig, op: UserOperation, encoded: Bytes, options: GasOptions)
    requires c.expectedBundleSize != 0.0 && encoded != [] && c.useEip7623
    ensures Round(Required(c.(useEip7623 := false), op, encoded, options)) as real <= Required(c, op, encoded, options)
  {
    StandardBelowUncovered(c, op, encoded, options);
    RequiredIsUncovered(c, op, encoded, options);
    RoundMonotone(Required(c.(useEip7623 := false), op, encoded, options),
                  Uncovered(c, op, encoded, GasUsed(op, options)));
  }

  lemma StandardBelowUncovered(c: GasConfig, op: UserOperation, encoded: Bytes, options: GasOptions)
    requires c.expectedBundleSize != 0.0 && encoded != []
    ensures Required(c.(useEip7623 := false), op, encoded, options) <= Uncovered(c, op, encoded, GasUsed(op, options))
  {
    var plain := c.(useEip7623 := false);
    SameTokens(c, plain, encoded);
    assert SpecificOverhead(plain, op, encoded) == SpecificOverhead(c, op, encoded);
    assert plain.standardTokenGasCost * CountTokens(plain, encoded) as real
         == c.standardTokenGasCost * CountTokens(c, encoded) as real;
    hide SpecificOverhead, CountTokens;
  }

  lemma {:induction false} SameTokens(c: GasConfig, c': GasConfig, bytes: Bytes)
    requires c.tokensPerNonzeroByte == c'.tokensPerNonzeroByte
    ensures CountTokens(c, bytes) == CountTokens(c', bytes)
  {
    if bytes != [] {
      SameTokens(c, c', bytes[..|bytes| - 1]);
    }
  }

  /** Together with the gas used it pays both the standard cost and the floor cost, up to rounding, and no more. */
  lemma RequiredCoversBothCosts(c: GasConfig, op: UserOperation, encoded: Bytes, options: GasOptions)
    requires c.expectedBundleSize != 0.0 && encoded != [] && c.useEip7623
    ensures var used := GasUsed(op, options) as real;
            var tokens := CountTokens(c, encoded) as real;
            var stipend := c.transactionGasStipend / c.expectedBundleSize;
            var standard := stipend + c.standardTokenGasCost * tokens + c.fixedGasOverhead / c.expectedBundleSize
                            + SpecificOverhead(c, op, encoded) + used;
            var floor := stipend + c.floorPerTokenGasCost * tokens;
            var paid := Required(c, op, encoded, options) + used;
            paid > standard - 0.5 && paid > floor - 0.5 && (paid <= standard + 0.5 || paid <= floor + 0.5)
  {
    hide Required, SpecificOverhead, CountTokens, GasUsed;
    RequiredIsUncovered(c, op, encoded, options);
  }

  /** For actual use within the bound, submission never rejects what the check after simulation would accept. */
  lemma AdmissionIsWeaker(c: GasConfig, op: UserOperation, encoded: Bytes, preOpGas: nat)
    requires c.expectedBundleSize != 0.0 && encoded != []
    requires preOpGas - op.preVerificationGas <= MAX_VERIFICATION_GAS_USED
    ensures Revalidated(c, op, encoded, preOpGas) ==> Admitted(c, op, encoded)
  {
    RequiredNonIncreasing(c, op, encoded, GasOptions(Some(preOpGas - op.preVerificationGas), None),
                          GasOptions(Some(MAX_VERIFICATION_GAS_USED), None));
  }

  // ---- The parts of the requirement ----

  /** Each refusal names what is wrong with the window; a window without an end neither expires nor runs short. */
  lemma TimeErrorIff(w: Window, now: nat)
    ensures var r := CheckTime(w, now);
            && (r == Err(InFuture) <==> now < w.validAfter)
            && (r == Err(AlreadyExpired) <==> w.validAfter <= now && 0 < w.validUntil < now)
            && (r == Err(ExpiresTooSoon) <==> w.validAfter <= now <= w.validUntil <= now + 30 && 0 < w.validUntil)
  {
  }

  /** An operation that is not executed through executeUserOp pays for each started word of its call data. */
  lemma PlainOverhead(c: GasConfig, op: UserOperation, encoded: Bytes, words: nat)
    requires !(EXECUTE_USEROP_METHOD_SIG <= op.callData) && 32 * words - 32 < |op.callData| <= 32 * words
    ensures SpecificOverhead(c, op, encoded)
         == c.perUserOpGasOverhead + (if op.authorizations == [] then 0.0 else c.eip7702AuthGas)
            + words as real * c.perUserOpWordGasOverhead
  {
    assert (|op.callData| + 31) / 32 == words;
  }

  /** One that is pays a fixed surcharge and for the length of the whole encoding, without rounding. */
  lemma ExecuteOverhead(c: GasConfig, op: UserOperation, encoded: Bytes)
    requires EXECUTE_USEROP_METHOD_SIG <= op.callData
    ensures var base := c.perUserOpGasOverhead + (if op.authorizations == [] then 0.0 else c.eip7702AuthGas);
            32.0 * (SpecificOverhead(c, op, encoded) - base - c.executeUserOpGasOverhead)
            == c.executeUserOpPerWordGasOverhead * (|encoded| + 31) as real
  {
    var words := (|encoded| as real + 31.0) / 32.0;
    assert 32.0 * words == |encoded| as real + 31.0;
    assert 32.0 * (c.executeUserOpPerWordGasOverhead * words) == c.executeUserOpPerWordGasOverhead * (32.0 * words);
  }

  /** Known to be paid is the total if it is given, else the verification and a tenth of the two execution limits. */
  lemma GasUsedIs(op: UserOperation, options: GasOptions)
    ensures options.totalGasUsed.Some? ==> GasUsed(op, options) == options.totalGasUsed.value
    ensures options.totalGasUsed.None? ==>
              var limits := op.callGasLimit + OrZero(op.paymasterPostOpGasLimit);
              var used := if options.verificationGasUsed.Some? then options.verificationGasUsed.value else 0;
              10 * (GasUsed(op, options) - used) <= limits < 10 * (GasUsed(op, options) - used) + 10
  {
  }

  /** Without EIP-7623 the operations of a bundle of the expected size share the bundle's fixed costs evenly. */
  lemma BundleShares(c: GasConfig, op: UserOperation, encoded: Bytes, options: GasOptions)
    requires c.expectedBundleSize != 0.0 && encoded != [] && !c.useEip7623
    ensures var own := c.standardTokenGasCost * CountTokens(c, encoded) as real + SpecificOverhead(c, op, encoded);
            c.expectedBundleSize * (Required(c, op, encoded, options) - own)
            == c.fixedGasOverhead + c.transactionGasStipend
  {
    hide SpecificOverhead, CountTokens;
    Shares(c.expectedBundleSize, c.fixedGasOverhead, c.transactionGasStipend,
           c.standardTokenGasCost * CountTokens(c, encoded) as real, SpecificOverhead(c, op, encoded));
  }

  lemma Shares(n: real, fixed: real, stipend: real, tokens: real, specific: real)
    requires n != 0.0
    ensures n * ((tokens + stipend / n + fixed / n + specific) - (tokens + specific)) == fixed + stipend
  {
    var x, y := fixed / n, stipend / n;
    assert n * x == fixed && n * y == stipend;
    assert (tokens + y + x + specific) - (tokens + specific) == y + x;
    assert n * (y + x) == n * y + n * x;
  }
}
