/** Call traces of a simulated validation, and the rule violations found in them. */
module CallTraces {
  import opened Basics
  import R = Reputation

  datatype FrameType = CALL | DELEGATECALL | CALLCODE | STATICCALL | CREATE | CREATE2

  datatype Entity = Account | Paymaster | Factory | SenderCreator | EntryPoint | NativeNonceManager | NoEntity

  /**
   * [OP-011] The opcodes no entity may use, by number: BLOCKHASH, COINBASE, TIMESTAMP, NUMBER, DIFFICULTY, GASLIMIT,
   * BASEFEE, BLOBHASH, BLOBBASEFEE, GAS, GASPRICE, ORIGIN, INVALID and SELFDESTRUCT.
   */
  predicate IsBannedOpcode(code: nat) {
    || 0x40 <= code <= 0x45 || 0x48 <= code <= 0x4A
    || code == 0x5A || code == 0x3A || code == 0x32 || code == 0xFE || code == 0xFF
  }

  /** [OP-080] The opcodes only a staked entity may use: BALANCE and SELFBALANCE. */
  predicate IsStakedOnlyOpcode(code: nat) {
    code == 0x31 || code == 0x47
  }

  /** The method a frame calls, as far as the known interfaces name it. */
  datatype Method =
    | DepositTo | Fallback | AcceptAccount | AcceptPaymaster | SigFailAccount | SigFailPaymaster
    | OtherMethod(name: string)

  /** The keys of the four access tables, in the order the tables list them. */
  datatype AccessedSlots = AccessedSlots(
    readKeys: seq<Word>, writeKeys: seq<Word>, transientReadKeys: seq<Word>, transientWriteKeys: seq<Word>)

  datatype CodeAccess = CodeAccess(address: Address, size: nat, opcode: nat)

  datatype Call = Call(
    frameType: FrameType,
    from: Address,
    to: Address,
    callee: Method,
    value: Option<nat>,
    outOfGas: bool,
    usedOpcodes: seq<nat>,
    codeAccesses: seq<CodeAccess>,
    extCodeAccesses: seq<Address>,
    slots: AccessedSlots,
    calls: seq<Call>)

  datatype Rule = OP011 | OP020 | OP041 | OP054 | OP061 | OP062 | EREP050 | STO010

  datatype OpcodeField = NoOpcode | OpcodeOf(code: nat) | FrameOf(frame: FrameType)

  datatype AddressName = Named(entity: Entity) | Plain(address: Address)

  /** The text of a violation, one constructor for each message template. */
  datatype Description =
    | UsesBannedOpcode(entity: Entity, opcode: OpcodeField)
    | RevertsOnOutOfGas(entity: Entity)
    | AccessesUndeployed(entity: Entity, address: Address, accessOpcode: nat)
    | IllegalEntryPointCall(callee: Method)
    | ExtCodeOfEntryPoint(entity: Entity)
    | CallWithValue
    | ForbiddenPrecompile(address: Address)
    | UnstakedUsesOpcode(entity: Entity, code: nat)
    | UnstakedPaymasterContext
    | UnstakedAccess(entity: Entity, target: AddressName, slot: Word)
    | ForbiddenAccess(entity: Entity, write: bool, transient: bool, target: AddressName, slot: Word)

  datatype Violation = Violation(
    rule: Rule,
    depth: nat,
    entity: Entity,
    address: Address,
    storageContext: Address,
    frameType: FrameType,
    opcode: OpcodeField,
    value: Option<nat>,
    description: Description)

  /** The stakes and the paymaster context the simulated validation reported. */
  datatype Stakes = Stakes(
    sender: R.StakeInfo,
    factory: Option<R.StakeInfo>,
    paymaster: Option<R.StakeInfo>,
    paymasterContext: Option<Bytes>)

  predicate IsStaked(info: Option<R.StakeInfo>) {
    info.Some? && 1 <= info.value.stake && 1 <= info.value.unstakeDelaySec
  }
}
