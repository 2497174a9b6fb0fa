/** The ERC-7562 rule checker: a walk over the call tree that threads mutable state. */
module RuleChecker {
  import opened Basics
  import opened ByteStrings
  import opened UserOperations
  import opened CallTraces
  import opened StorageMaps

  datatype System = System(
    entryPoint: Address,
    senderCreator: Address,
    nonceManager: Option<Address>,
    keccak256: Bytes -> Word)

  /** Everything that stays fixed during one walk. */
  datatype Run = Run(sys: System, op: UserOperation, stakes: Stakes, keccak: seq<Bytes>)

  datatype Who = Who(entity: Entity, address: Address)

  const NOBODY := Who(NoEntity, [])

  datatype Findings = Findings(violations: seq<Violation>, addresses: seq<Address>, storage: StorageMap)

  const NO_FINDINGS := Findings([], [], map[])

  datatype WalkState = WalkState(who: Who, found: Findings)

  datatype ParserError =
    | RuleViolated(violation: Violation) | UnknownEntity(address: Address) | NoEntityAddress | NoCalls

  datatype Outcome<S> = Returned(state: S) | Threw(error: ParserError, listed: seq<Violation>)

  datatype Check = Pass | Fail(error: ParserError) {
    predicate IsFailure() {
      Fail?
    }

    function PropagateFailure(): Check
      requires Fail?
    {
      this
    }
  }

  // ---- Who is running ----

  function EntityStaked(run: Run, e: Entity): bool {
    match e
    case Account => IsStaked(Some(run.stakes.sender))
    case Factory => IsStaked(run.stakes.factory)
    case Paymaster => IsStaked(run.stakes.paymaster)
    case _ => false
  }

  /** A frame entered from the zero address, the EntryPoint or the SenderCreator. */
  predicate Boundary(run: Run, call: Call) {
    call.from == ADDRESS_ZERO || call.from == run.sys.entryPoint || call.from == run.sys.senderCreator
  }

  predicate SelfCall(run: Run, call: Call) {
    call.to == run.sys.entryPoint && call.from == run.sys.entryPoint
  }

  function Classified(run: Run, call: Call): Option<Who> {
    if run.op.sender == call.to then Some(Who(Account, run.op.sender))
    else if call.from == run.sys.senderCreator && run.op.factory == Some(call.to) then Some(Who(Factory, call.to))
    else if run.op.paymaster == Some(call.to) then Some(Who(Paymaster, call.to))
    else if run.sys.entryPoint == call.to then Some(Who(EntryPoint, run.sys.entryPoint))
    else if run.sys.senderCreator == call.to then Some(Who(SenderCreator, run.sys.senderCreator))
    else if run.sys.nonceManager == Some(call.to) then Some(Who(NativeNonceManager, call.to))
    else None
  }

  /** The entity after entering a frame; None when the address is unknown. */
  function Entered(run: Run, call: Call, who: Who): Option<Who> {
    if Boundary(run, call) then Classified(run, call) else Some(who)
  }

  function NameOf(run: Run, a: Address): AddressName {
    if a == run.op.sender then Named(Account)
    else if run.op.factory == Some(a) then Named(Factory)
    else if run.op.paymaster == Some(a) then Named(Paymaster)
    else if run.sys.entryPoint == a then Named(EntryPoint)
    else if run.sys.senderCreator == a then Named(SenderCreator)
    else Plain(a)
  }

  // ---- Slots associated with an entity ----

  predicate StartsWith(b: Bytes, prefix: Bytes) {
    prefix <= b
  }

  predicate IsEntityAddress(op: UserOperation, a: Address) {
    op.sender == a || op.paymaster == Some(a) || op.factory == Some(a)
  }

  /** The hashes of the preimages that start with the padded address. */
  function HashesFrom(keccak256: Bytes -> Word, preimages: seq<Bytes>, a: Address): set<Word> {
    if preimages == [] then {}
    else
      HashesFrom(keccak256, preimages[..|preimages| - 1], a)
      + (if StartsWith(preimages[|preimages| - 1], ZeroPad(a, 32)) then {keccak256(preimages[|preimages| - 1])} else {})
  }

  /** keccak(A || ...) is associated with the entity A. */
  function EntitySlots(run: Run, a: Address): set<Word> {
    if IsEntityAddress(run.op, a) then HashesFrom(run.sys.keccak256, run.keccak, a) else {}
  }

  const STRUCT_SIZE: nat := 128

  ghost predicate Near(slot: Word, bases: set<Word>) {
    exists base <- bases :: base <= slot < base + STRUCT_SIZE
  }

  ghost predicate Associated(run: Run, slot: Word, a: Address) {
    slot == FromBytes(a) || Near(slot, EntitySlots(run, a))
  }

  // ---- The violations of one frame, rule by rule ----

  /** One frame, with the entity running it. */
  datatype Frame = Frame(run: Run, who: Who, call: Call, depth: nat, context: Address)

  function Report(f: Frame, rule: Rule, address: Address, opcode: OpcodeField, value: Option<nat>,
                  d: Description): Violation {
    Violation(rule, f.depth, f.who.entity, address, f.context, f.call.frameType, opcode, value, d)
  }

  function CallOpcode(f: Frame): OpcodeField {
    FrameOf(f.call.frameType)
  }

  function BannedOpcode(f: Frame, code: nat): seq<Violation> {
    if IsBannedOpcode(code) then
      [Report(f, OP011, f.call.to, OpcodeOf(code), Some(0), UsesBannedOpcode(f.who.entity, OpcodeOf(code)))]
    else []
  }

  function BannedOpcodes(f: Frame, codes: seq<nat>): seq<Violation> {
    if codes == [] then [] else BannedOpcode(f, codes[0]) + BannedOpcodes(f, codes[1..])
  }

  function Op011(f: Frame): seq<Violation> {
    if f.call.to == f.run.sys.entryPoint then [] else BannedOpcodes(f, f.call.usedOpcodes)
  }

  function Op020(f: Frame): seq<Violation> {
    if f.call.outOfGas then
      [Report(f, OP020, f.call.from, CallOpcode(f), Some(0), RevertsOnOutOfGas(f.who.entity))]
    else []
  }

  predicate CreateAllowed(f: Frame) {
    var op, e := f.run.op, f.who.entity;
    || (op.factory.Some? && f.call.frameType == CREATE && (e == Account || e == Factory) && f.call.from == op.sender)
    || ((f.call.from == op.sender || op.factory == Some(f.call.from)) && EntityStaked(f.run, Factory))
    || (e == Factory && f.call.to == op.sender)
  }

  function Op031(f: Frame): seq<Violation> {
    if (f.call.frameType == CREATE || f.call.frameType == CREATE2) && !CreateAllowed(f) then
      [Report(f, OP011, f.call.from, FrameOf(CREATE2), Some(0), UsesBannedOpcode(f.who.entity, FrameOf(CREATE2)))]
    else []
  }

  predicate IsPrecompiled(a: Address) {
    1 <= FromBytes(a) < 1000
  }

  predicate IsForbiddenPrecompiled(a: Address) {
    IsPrecompiled(a) && FromBytes(a) > 9
  }

  function Undeployed(f: Frame, x: CodeAccess): seq<Violation> {
    if !IsPrecompiled(x.address) && x.address != f.run.op.sender && x.address != f.run.sys.entryPoint && x.size <= 2
    then
      [Report(f, OP041, x.address, NoOpcode, None, AccessesUndeployed(f.who.entity, x.address, x.opcode))]
    else []
  }

  function UndeployedCode(f: Frame, accesses: seq<CodeAccess>): seq<Violation> {
    if accesses == [] then [] else Undeployed(f, accesses[0]) + UndeployedCode(f, accesses[1..])
  }

  predicate CallsEntryPoint(run: Run, call: Call) {
    call.to == run.sys.entryPoint && call.from != run.sys.entryPoint && call.from != ADDRESS_ZERO
  }

  function Op054(f: Frame): seq<Violation> {
    if CallsEntryPoint(f.run, f.call) && f.call.callee.OtherMethod? then
      [Report(f, OP054, f.call.from, CallOpcode(f), f.call.value, IllegalEntryPointCall(f.call.callee))]
    else []
  }

  function ExtCodeAccess(f: Frame, a: Address): seq<Violation> {
    if a == f.run.sys.entryPoint then
      [Report(f, OP054, f.call.to, NoOpcode, None, ExtCodeOfEntryPoint(f.who.entity))]
    else []
  }

  function ExtCode(f: Frame, addresses: seq<Address>): seq<Violation> {
    if addresses == [] then [] else ExtCodeAccess(f, addresses[0]) + ExtCode(f, addresses[1..])
  }

  function Op061(f: Frame): seq<Violation> {
    if !CallsEntryPoint(f.run, f.call) && OrZero(f.call.value) != 0 then
      [Report(f, OP061, f.call.from, CallOpcode(f), f.call.value, CallWithValue)]
    else []
  }

  function ForbiddenAt(f: Frame, x: CodeAccess): seq<Violation> {
    if IsForbiddenPrecompiled(x.address) then
      [Report(f, OP062, f.call.from, CallOpcode(f), f.call.value, ForbiddenPrecompile(x.address))]
    else []
  }

  function ForbiddenPrecompiles(f: Frame, accesses: seq<CodeAccess>): seq<Violation> {
    if accesses == [] then [] else ForbiddenAt(f, accesses[0]) + ForbiddenPrecompiles(f, accesses[1..])
  }

  function StakedOnlyOpcode(f: Frame, code: nat): seq<Violation> {
    if IsStakedOnlyOpcode(code) && !EntityStaked(f.run, f.who.entity) then
      [Report(f, OP011, f.call.from, OpcodeOf(code), Some(0), UnstakedUsesOpcode(f.who.entity, code))]
    else []
  }

  function StakedOnlyOpcodes(f: Frame, codes: seq<nat>): seq<Violation> {
    if codes == [] then [] else StakedOnlyOpcode(f, codes[0]) + StakedOnlyOpcodes(f, codes[1..])
  }

  function Erep050(f: Frame): seq<Violation> {
    if f.who.entity == Paymaster && !EntityStaked(f.run, Paymaster) && f.run.stakes.paymaster.Some?
       && f.run.stakes.paymasterContext.Some? && f.run.stakes.paymasterContext.value != [] then
      [Report(f, EREP050, f.call.from, NoOpcode, Some(0), UnstakedPaymasterContext)]
    else []
  }

  /** Code of the EntryPoint and of the nonce manager is exempt from the storage rules. */
  predicate SystemFrame(run: Run, call: Call) {
    call.to == run.sys.entryPoint || run.sys.nonceManager == Some(call.to)
  }

  function AllSlots(s: AccessedSlots): seq<Word> {
    s.writeKeys + s.readKeys + s.transientWriteKeys + s.transientReadKeys
  }

  ghost predicate IfEntityStaked(f: Frame, slot: Word) {
    || f.call.to == f.who.address
    || Associated(f.run, slot, f.who.address)
    || (slot !in f.call.slots.writeKeys && slot !in f.call.slots.transientWriteKeys)
  }

  ghost predicate IfFactoryStaked(f: Frame, slot: Word) {
    Associated(f.run, slot, f.run.op.sender) && f.run.op.factory.Some?
  }

  ghost predicate SlotAllowed(f: Frame, slot: Word) {
    || f.call.to == f.run.op.sender
    || (Associated(f.run, slot, f.run.op.sender) && f.run.op.factory.None?)
    || (IfFactoryStaked(f, slot) && EntityStaked(f.run, Factory))
    || (IfEntityStaked(f, slot) && EntityStaked(f.run, f.who.entity))
  }

  function DescribeSlot(entity: Entity, call: Call, target: AddressName, slot: Word, unstaked: bool): Description {
    var s := call.slots;
    if unstaked then UnstakedAccess(entity, target, slot)
    else
      ForbiddenAccess(entity, slot in s.writeKeys || slot in s.transientWriteKeys,
                      slot in s.transientReadKeys || slot in s.transientWriteKeys, target, slot)
  }

  ghost function SlotDescription(f: Frame, slot: Word): Description {
    DescribeSlot(f.who.entity, f.call, NameOf(f.run, f.call.to), slot,
                 (IfEntityStaked(f, slot) && !EntityStaked(f.run, f.who.entity))
                 || (IfFactoryStaked(f, slot) && !EntityStaked(f.run, Factory)))
  }

  /** At most one violation for each slot. */
  ghost function SlotReport(f: Frame, slot: Word): seq<Violation> {
    if SlotAllowed(f, slot) then [] else [Report(f, STO010, f.call.to, NoOpcode, None, SlotDescription(f, slot))]
  }

  ghost function SlotViolations(f: Frame, slots: seq<Word>): seq<Violation> {
    if slots == [] then [] else SlotReport(f, slots[0]) + SlotViolations(f, slots[1..])
  }

  /** The storage rules pad the entity's address; with no entity that fails on the first slot. */
  predicate StorageCrash(f: Frame) {
    !SystemFrame(f.run, f.call) && f.who.entity == NoEntity && AllSlots(f.call.slots) != []
  }

  ghost function StorageRules(f: Frame): seq<Violation> {
    if SystemFrame(f.run, f.call) || StorageCrash(f) then [] else SlotViolations(f, AllSlots(f.call.slots))
  }

  function OpcodeRules(f: Frame): seq<Violation> {
    Op011(f) + (Op020(f) + (Op031(f) + UndeployedCode(f, f.call.codeAccesses)))
  }

  function CallRules(f: Frame): seq<Violation> {
    Op054(f) + (ExtCode(f, f.call.extCodeAccesses) + (Op061(f) + ForbiddenPrecompiles(f, f.call.codeAccesses)))
  }

  ghost function EntityRules(f: Frame): seq<Violation> {
    StakedOnlyOpcodes(f, f.call.usedOpcodes) + (Erep050(f) + StorageRules(f))
  }

  /** All violations of a frame in the order the rules are checked. */
  ghost function FrameViolations(f: Frame): seq<Violation> {
    OpcodeRules(f) + (CallRules(f) + EntityRules(f))
  }

  // ---- The walk ----

  function Touched(storage: StorageMap, a: Address, slots: seq<Word>): StorageMap
    decreases slots
  {
    if slots == [] then storage
    else Touched(storage[a := Slots(SlotsAt(storage, a)[slots[0] := ""])], a, slots[1..])
  }

  function StorageAfter(run: Run, call: Call, storage: StorageMap): StorageMap {
    if SystemFrame(run, call) then storage else Touched(storage, call.to, AllSlots(call.slots))
  }

  ghost function FrameOutcome(f: Frame, bail: bool, found: Findings): Outcome<Findings> {
    var vs := FrameViolations(f);
    if bail && vs != [] then Threw(RuleViolated(vs[0]), found.violations + [vs[0]])
    else if StorageCrash(f) then Threw(NoEntityAddress, found.violations + vs)
    else
      Returned(Findings(found.violations + vs, found.addresses + [f.call.to],
                        StorageAfter(f.run, f.call, found.storage)))
  }

  function ChildContext(call: Call, context: Address): Address {
    if call.frameType == DELEGATECALL then context else call.to
  }

  ghost function Visit(run: Run, bail: bool, call: Call, depth: nat, context: Address, s: WalkState): Outcome<WalkState>
    decreases call, 1
  {
    if SelfCall(run, call) then Returned(s)
    else
      match Entered(run, call, s.who)
      case None => Threw(UnknownEntity(call.to), s.found.violations)
      case Some(who) =>
        match FrameOutcome(Frame(run, who, call, depth, context), bail, s.found)
        case Threw(e, vs) => Threw(e, vs)
        case Returned(found) => VisitAll(run, bail, call.calls, depth + 1, context, WalkState(who, found))
  }

  ghost function VisitAll(run: Run, bail: bool, calls: seq<Call>, depth: nat, context: Address,
                          s: WalkState): Outcome<WalkState>
    decreases calls, 0
  {
    if calls == [] then Returned(s)
    else
      match Visit(run, bail, calls[0], depth, ChildContext(calls[0], context), s)
      case Threw(e, vs) => Threw(e, vs)
      case Returned(s') => VisitAll(run, bail, calls[1..], depth, context, s')
  }

  ghost function ParseOutcome(run: Run, bail: bool, call: Call): Outcome<WalkState> {
    if call.calls == [] then Threw(NoCalls, [])
    else Visit(run, bail, call, 0, call.to, WalkState(NOBODY, NO_FINDINGS))
  }
}
