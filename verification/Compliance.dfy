/** What the rules ask of a frame, stated over the fields of the frame, and so which traces are accepted. */
module Compliance {
  import opened Basics
  import opened ByteStrings
  import opened CallTraces
  import opened RuleChecker
  import opened Attribution

  /** BLOCKHASH to GASLIMIT, BASEFEE, BLOBHASH, BLOBBASEFEE, GAS, GASPRICE, ORIGIN, INVALID, SELFDESTRUCT. */
  const BANNED: set<nat> :=
    {0x40, 0x41, 0x42, 0x43, 0x44, 0x45, 0x48, 0x49, 0x4A, 0x5A, 0x3A, 0x32, 0xFE, 0xFF}

  // ---- What the entity of a frame may do ----

  predicate Staked(run: Run, e: Entity) {
    || (e == Account && run.stakes.sender.stake > 0 && run.stakes.sender.unstakeDelaySec > 0)
    || (e == Factory && run.stakes.factory.Some?
        && run.stakes.factory.value.stake > 0 && run.stakes.factory.value.unstakeDelaySec > 0)
    || (e == Paymaster && run.stakes.paymaster.Some?
        && run.stakes.paymaster.value.stake > 0 && run.stakes.paymaster.value.unstakeDelaySec > 0)
  }

  /** A contract other than the EntryPoint calls the EntryPoint. */
  predicate IntoEntryPoint(f: Frame) {
    f.call.to == f.run.sys.entryPoint && f.call.from !in {f.run.sys.entryPoint, ADDRESS_ZERO}
  }

  predicate UsesBanned(f: Frame, code: nat) {
    f.call.to != f.run.sys.entryPoint && code in BANNED && code in f.call.usedOpcodes
  }

  /** A staked factory may create, and so may an account that has a staked factory. */
  predicate CreatesFreely(f: Frame) {
    var op, from := f.run.op, f.call.from;
    Staked(f.run, Factory) && (op.sender == from || op.factory == Some(from))
  }

  /** While the factory or the account runs, the account may use CREATE if it has a factory. */
  predicate CreatesFromAccount(f: Frame) {
    && f.call.frameType == CREATE && f.run.op.factory.Some?
    && f.run.op.sender == f.call.from && f.who.entity in {Factory, Account}
  }

  predicate CreatesAccount(f: Frame) {
    f.who.entity == Factory && f.run.op.sender == f.call.to
  }

  predicate CreatesUnlawfully(f: Frame) {
    && f.call.frameType in {CREATE, CREATE2}
    && !CreatesFreely(f) && !CreatesFromAccount(f) && !CreatesAccount(f)
  }

  /** Code no longer than a delegation prefix, at no precompile. */
  predicate ReachesNoCode(f: Frame, x: CodeAccess) {
    && x in f.call.codeAccesses && x.size < 3
    && x.address != f.run.op.sender && x.address != f.run.sys.entryPoint
    && (FromBytes(x.address) == 0 || FromBytes(x.address) >= 1000)
  }

  predicate ReachesPrecompile(f: Frame, x: CodeAccess) {
    x in f.call.codeAccesses && 10 <= FromBytes(x.address) <= 999
  }

  predicate SendsValue(f: Frame) {
    f.call.value.Some? && f.call.value.value > 0 && !IntoEntryPoint(f)
  }

  predicate ReadsBalance(f: Frame, code: nat) {
    code in f.call.usedOpcodes && code in {0x31, 0x47} && !Staked(f.run, f.who.entity)
  }

  predicate ReturnsContext(f: Frame) {
    && f.who.entity == Paymaster && f.run.stakes.paymaster.Some? && !Staked(f.run, Paymaster)
    && f.run.stakes.paymasterContext.Some? && |f.run.stakes.paymasterContext.value| > 0
  }

  // ---- Storage ----

  predicate Accesses(call: Call, slot: Word) {
    || slot in call.slots.readKeys || slot in call.slots.writeKeys
    || slot in call.slots.transientReadKeys || slot in call.slots.transientWriteKeys
  }

  predicate Writes(call: Call, slot: Word) {
    slot in call.slots.writeKeys || slot in call.slots.transientWriteKeys
  }

  predicate Transient(call: Call, slot: Word) {
    slot in call.slots.transientReadKeys || slot in call.slots.transientWriteKeys
  }

  /** The slot numbered like the address, or one of the 128 from a hash of data that starts with the address. */
  ghost predicate BelongsTo(run: Run, slot: Word, a: Address) {
    || slot == FromBytes(a)
    || (&& (a == run.op.sender || Some(a) == run.op.factory || Some(a) == run.op.paymaster)
        && exists data <- run.keccak ::
             ZeroPad(a, 32) <= data && run.sys.keccak256(data) <= slot <= run.sys.keccak256(data) + 127)
  }

  /** The frame runs neither the EntryPoint nor the nonce manager. */
  predicate OutsideSystem(f: Frame) {
    f.call.to != f.run.sys.entryPoint && Some(f.call.to) != f.run.sys.nonceManager
  }

  /** Lawful once the entity has a stake: its own storage, slots that belong to it, and whatever it only reads. */
  ghost predicate NeedsEntityStake(f: Frame, slot: Word) {
    f.who.address == f.call.to || BelongsTo(f.run, slot, f.who.address) || !Writes(f.call, slot)
  }

  /** Lawful once the factory has a stake: slots that belong to an account under creation. */
  ghost predicate NeedsFactoryStake(f: Frame, slot: Word) {
    f.run.op.factory.Some? && BelongsTo(f.run, slot, f.run.op.sender)
  }

  ghost predicate LawfulSlot(f: Frame, slot: Word) {
    || f.run.op.sender == f.call.to
    || (f.run.op.factory.None? && BelongsTo(f.run, slot, f.run.op.sender))
    || (NeedsFactoryStake(f, slot) && Staked(f.run, Factory))
    || (NeedsEntityStake(f, slot) && Staked(f.run, f.who.entity))
  }

  ghost predicate BreachesSlot(f: Frame, slot: Word) {
    f.who.entity != NoEntity && OutsideSystem(f) && Accesses(f.call, slot) && !LawfulSlot(f, slot)
  }

  /** Storage access with no entity to hold responsible, which no rule can judge. */
  ghost predicate Ownerless(f: Frame) {
    f.who.entity == NoEntity && OutsideSystem(f) && exists slot: Word :: Accesses(f.call, slot)
  }

  // ---- The rules ----

  ghost predicate Breaks(f: Frame, rule: Rule) {
    match rule
    case OP011 =>
      || (exists code <- f.call.usedOpcodes :: UsesBanned(f, code) || ReadsBalance(f, code))
      || CreatesUnlawfully(f)
    case OP020 => f.call.outOfGas
    case OP041 => exists x <- f.call.codeAccesses :: ReachesNoCode(f, x)
    case OP054 =>
      (IntoEntryPoint(f) && f.call.callee.OtherMethod?) || f.run.sys.entryPoint in f.call.extCodeAccesses
    case OP061 => SendsValue(f)
    case OP062 => exists x <- f.call.codeAccesses :: ReachesPrecompile(f, x)
    case EREP050 => ReturnsContext(f)
    case STO010 => exists slot: Word :: BreachesSlot(f, slot)
  }

  ghost predicate Compliant(f: Frame) {
    !Ownerless(f) && forall rule: Rule :: !Breaks(f, rule)
  }

  // ---- The reports ----

  predicate Names(run: Run, a: Address, name: AddressName) {
    var roles := [(Some(run.op.sender), Account), (run.op.factory, Factory), (run.op.paymaster, Paymaster),
                  (Some(run.sys.entryPoint), EntryPoint), (Some(run.sys.senderCreator), SenderCreator)];
    if forall role <- roles :: role.0 != Some(a) then name == Plain(a)
    else exists i | 0 <= i < |roles| ::
      && roles[i].0 == Some(a) && name == Named(roles[i].1)
      && forall j | 0 <= j < i :: roles[j].0 != Some(a)
  }

  predicate About(f: Frame, v: Violation, rule: Rule, address: Address) {
    && v.rule == rule && v.address == address && v.depth == f.depth && v.entity == f.who.entity
    && v.storageContext == f.context && v.frameType == f.call.frameType
  }

  predicate With(v: Violation, opcode: OpcodeField, value: Option<nat>) {
    v.opcode == opcode && v.value == value
  }

  /** Everything a report says is so, for each of the message templates. */
  ghost predicate Justified(f: Frame, v: Violation) {
    var e, kind := f.who.entity, FrameOf(f.call.frameType);
    match v.description
    case UsesBannedOpcode(e', OpcodeOf(code)) =>
      && e' == e && UsesBanned(f, code)
      && About(f, v, OP011, f.call.to) && With(v, OpcodeOf(code), Some(0))
    case UsesBannedOpcode(e', FrameOf(t)) =>
      && e' == e && t == CREATE2 && CreatesUnlawfully(f)
      && About(f, v, OP011, f.call.from) && With(v, FrameOf(CREATE2), Some(0))
    case UsesBannedOpcode(_, NoOpcode) => false
    case RevertsOnOutOfGas(e') =>
      e' == e && f.call.outOfGas && About(f, v, OP020, f.call.from) && With(v, kind, Some(0))
    case AccessesUndeployed(e', a, code) =>
      && e' == e && About(f, v, OP041, a) && With(v, NoOpcode, None)
      && exists x <- f.call.codeAccesses :: ReachesNoCode(f, x) && x.address == a && x.opcode == code
    case IllegalEntryPointCall(m) =>
      && m == f.call.callee && m.OtherMethod? && IntoEntryPoint(f)
      && About(f, v, OP054, f.call.from) && With(v, kind, f.call.value)
    case ExtCodeOfEntryPoint(e') =>
      && e' == e && f.run.sys.entryPoint in f.call.extCodeAccesses
      && About(f, v, OP054, f.call.to) && With(v, NoOpcode, None)
    case CallWithValue => SendsValue(f) && About(f, v, OP061, f.call.from) && With(v, kind, f.call.value)
    case ForbiddenPrecompile(a) =>
      && About(f, v, OP062, f.call.from) && With(v, kind, f.call.value)
      && exists x <- f.call.codeAccesses :: ReachesPrecompile(f, x) && x.address == a
    case UnstakedUsesOpcode(e', code) =>
      && e' == e && ReadsBalance(f, code) && About(f, v, OP011, f.call.from) && With(v, OpcodeOf(code), Some(0))
    case UnstakedPaymasterContext =>
      ReturnsContext(f) && About(f, v, EREP050, f.call.from) && With(v, NoOpcode, Some(0))
    case UnstakedAccess(e', name, slot) =>
      && e' == e && BreachesSlot(f, slot) && Names(f.run, f.call.to, name)
      && ((NeedsEntityStake(f, slot) && !Staked(f.run, e)) || NeedsFactoryStake(f, slot))
      && About(f, v, STO010, f.call.to) && With(v, NoOpcode, None)
    case ForbiddenAccess(e', write, transient, name, slot) =>
      && e' == e && BreachesSlot(f, slot) && Names(f.run, f.call.to, name)
      && !(NeedsEntityStake(f, slot) && !Staked(f.run, e)) && !NeedsFactoryStake(f, slot)
      && (write <==> Writes(f.call, slot)) && (transient <==> Transient(f.call, slot))
      && About(f, v, STO010, f.call.to) && With(v, NoOpcode, None)
  }

  // ---- Bridges to the checks ----

  lemma SameStakes(run: Run, e: Entity)
    ensures EntityStaked(run, e) <==> Staked(run, e)
  {
  }

  lemma SameOpcodes(code: nat)
    ensures IsBannedOpcode(code) <==> code in BANNED
    ensures IsStakedOnlyOpcode(code) <==> code in {0x31, 0x47}
  {
  }

  lemma {:induction false} HashMeaning(keccak256: Bytes -> Word, preimages: seq<Bytes>, a: Address, h: Word)
    ensures h in HashesFrom(keccak256, preimages, a)
       <==> exists data <- preimages :: ZeroPad(a, 32) <= data && keccak256(data) == h
  {
    if preimages != [] {
      var init, last := preimages[..|preimages| - 1], preimages[|preimages| - 1];
      HashMeaning(keccak256, init, a, h);
      assert preimages == init + [last];
      assert forall data :: data in preimages <==> data in init || data == last;
    }
  }

  lemma SlotsBelong(run: Run, slot: Word, a: Address)
    ensures Associated(run, slot, a) <==> BelongsTo(run, slot, a)
  {
    var bases := EntitySlots(run, a);
    if IsEntityAddress(run.op, a) {
      if Near(slot, bases) {
        var base :| base in bases && base <= slot < base + STRUCT_SIZE;
        HashMeaning(run.sys.keccak256, run.keccak, a, base);
      }
      forall data | data in run.keccak && ZeroPad(a, 32) <= data
        ensures run.sys.keccak256(data) in bases
      {
        HashMeaning(run.sys.keccak256, run.keccak, a, run.sys.keccak256(data));
      }
    }
  }

  lemma NamesAgree(run: Run, a: Address, name: AddressName)
    ensures Names(run, a, name) <==> NameOf(run, a) == name
  {
    var roles := [(Some(run.op.sender), Account), (run.op.factory, Factory), (run.op.paymaster, Paymaster),
                  (Some(run.sys.entryPoint), EntryPoint), (Some(run.sys.senderCreator), SenderCreator)];
    assert |roles| == 5 && roles[0].1 == Account && roles[1].1 == Factory && roles[2].1 == Paymaster;
    assert roles[3].1 == EntryPoint && roles[4].1 == SenderCreator;
  }

  lemma SlotsAccessed(call: Call, slot: Word)
    ensures slot in AllSlots(call.slots) <==> Accesses(call, slot)
  {
  }

  // ---- Membership in the lists the checks build ----

  lemma {:induction false} BannedOpcodesMembers(f: Frame, codes: seq<nat>, v: Violation)
    ensures v in BannedOpcodes(f, codes) <==> exists code <- codes :: v in BannedOpcode(f, code)
  {
    if codes != [] {
      BannedOpcodesMembers(f, codes[1..], v);
      assert codes == [codes[0]] + codes[1..];
    }
  }

  lemma {:induction false} StakedOnlyMembers(f: Frame, codes: seq<nat>, v: Violation)
    ensures v in StakedOnlyOpcodes(f, codes) <==> exists code <- codes :: v in StakedOnlyOpcode(f, code)
  {
    if codes != [] {
      StakedOnlyMembers(f, codes[1..], v);
      assert codes == [codes[0]] + codes[1..];
    }
  }

  lemma {:induction false} UndeployedMembers(f: Frame, xs: seq<CodeAccess>, v: Violation)
    ensures v in UndeployedCode(f, xs) <==> exists x <- xs :: v in Undeployed(f, x)
  {
    if xs != [] {
      UndeployedMembers(f, xs[1..], v);
      assert xs == [xs[0]] + xs[1..];
    }
  }

  lemma {:induction false} ForbiddenMembers(f: Frame, xs: seq<CodeAccess>, v: Violation)
    ensures v in ForbiddenPrecompiles(f, xs) <==> exists x <- xs :: v in ForbiddenAt(f, x)
  {
    if xs != [] {
      ForbiddenMembers(f, xs[1..], v);
      assert xs == [xs[0]] + xs[1..];
    }
  }

  lemma {:induction false} ExtCodeMembers(f: Frame, xs: seq<Address>, v: Violation)
    ensures v in ExtCode(f, xs) <==> exists x <- xs :: v in ExtCodeAccess(f, x)
  {
    if xs != [] {
      ExtCodeMembers(f, xs[1..], v);
      assert xs == [xs[0]] + xs[1..];
    }
  }

  lemma {:induction false} SlotMembers(f: Frame, slots: seq<Word>, v: Violation)
    ensures v in SlotViolations(f, slots) <==> exists slot <- slots :: v in SlotReport(f, slot)
  {
    hide SlotReport;
    if slots != [] {
      SlotMembers(f, slots[1..], v);
      assert slots == [slots[0]] + slots[1..];
    }
  }

  // ---- Rule by rule ----

  lemma BannedReports(f: Frame, v: Violation)
    ensures v in Op011(f) <==> v.description.UsesBannedOpcode? && v.description.opcode.OpcodeOf? && Justified(f, v)
  {
    BannedOpcodesMembers(f, f.call.usedOpcodes, v);
    forall code: nat
      ensures IsBannedOpcode(code) <==> code in BANNED
    {
      SameOpcodes(code);
    }
    hide IsBannedOpcode;
  }

  lemma OutOfGasReports(f: Frame, v: Violation)
    ensures v in Op020(f) <==> v.description.RevertsOnOutOfGas? && Justified(f, v)
  {
  }

  lemma CreateReports(f: Frame, v: Violation)
    ensures v in Op031(f) <==> v.description.UsesBannedOpcode? && v.description.opcode.FrameOf? && Justified(f, v)
  {
    SameStakes(f.run, Factory);
  }

  lemma UndeployedReports(f: Frame, v: Violation)
    ensures v in UndeployedCode(f, f.call.codeAccesses) <==> v.description.AccessesUndeployed? && Justified(f, v)
  {
    UndeployedMembers(f, f.call.codeAccesses, v);
  }

  lemma EntryPointReports(f: Frame, v: Violation)
    ensures v in Op054(f) <==> v.description.IllegalEntryPointCall? && Justified(f, v)
  {
  }

  lemma ExtCodeReports(f: Frame, v: Violation)
    ensures v in ExtCode(f, f.call.extCodeAccesses) <==> v.description.ExtCodeOfEntryPoint? && Justified(f, v)
  {
    ExtCodeMembers(f, f.call.extCodeAccesses, v);
  }

  lemma ValueReports(f: Frame, v: Violation)
    ensures v in Op061(f) <==> v.description.CallWithValue? && Justified(f, v)
  {
  }

  lemma PrecompileReports(f: Frame, v: Violation)
    ensures v in ForbiddenPrecompiles(f, f.call.codeAccesses) <==> v.description.ForbiddenPrecompile? && Justified(f, v)
  {
    ForbiddenMembers(f, f.call.codeAccesses, v);
  }

  lemma BalanceReports(f: Frame, v: Violation)
    ensures v in StakedOnlyOpcodes(f, f.call.usedOpcodes) <==> v.description.UnstakedUsesOpcode? && Justified(f, v)
  {
    StakedOnlyMembers(f, f.call.usedOpcodes, v);
    SameStakes(f.run, f.who.entity);
  }

  lemma ContextReports(f: Frame, v: Violation)
    ensures v in Erep050(f) <==> v.description.UnstakedPaymasterContext? && Justified(f, v)
  {
    SameStakes(f.run, Paymaster);
  }

  predicate IsSlotReport(v: Violation) {
    v.description.UnstakedAccess? || v.description.ForbiddenAccess?
  }

  lemma SlotsLawful(f: Frame, slot: Word)
    ensures SlotAllowed(f, slot) <==> LawfulSlot(f, slot)
    ensures IfEntityStaked(f, slot) <==> NeedsEntityStake(f, slot)
    ensures IfFactoryStaked(f, slot) <==> NeedsFactoryStake(f, slot)
  {
    SlotsBelong(f.run, slot, f.run.op.sender);
    SlotsBelong(f.run, slot, f.who.address);
    SameStakes(f.run, Factory);
    SameStakes(f.run, f.who.entity);
    hide Associated, BelongsTo, EntityStaked, Staked;
  }

  lemma OneSlotReport(f: Frame, slot: Word, v: Violation)
    requires f.who.entity != NoEntity && OutsideSystem(f) && Accesses(f.call, slot)
    ensures v in SlotReport(f, slot) <==> IsSlotReport(v) && v.description.slot == slot && Justified(f, v)
  {
    SlotsLawful(f, slot);
    SameStakes(f.run, Factory);
    SameStakes(f.run, f.who.entity);
    if IsSlotReport(v) {
      NamesAgree(f.run, f.call.to, v.description.target);
    }
    NamesAgree(f.run, f.call.to, NameOf(f.run, f.call.to));
    hide Names, NameOf, NeedsEntityStake, NeedsFactoryStake, IfEntityStaked, IfFactoryStaked, EntityStaked, Staked;
  }

  lemma StorageReports(f: Frame, v: Violation)
    ensures v in StorageRules(f) <==> IsSlotReport(v) && Justified(f, v)
  {
    var slots := AllSlots(f.call.slots);
    if !SystemFrame(f.run, f.call) && !StorageCrash(f) && slots != [] {
      SlotMembers(f, slots, v);
      forall slot: Word
        ensures slot in slots <==> Accesses(f.call, slot)
        ensures slot in slots ==>
                  (v in SlotReport(f, slot) <==> IsSlotReport(v) && v.description.slot == slot && Justified(f, v))
      {
        SlotsAccessed(f.call, slot);
        if slot in slots {
          OneSlotReport(f, slot, v);
        }
      }
      assert IsSlotReport(v) && Justified(f, v) ==> v.description.slot in slots;
    } else {
      assert v !in StorageRules(f);
      if IsSlotReport(v) && BreachesSlot(f, v.description.slot) {
        SlotsAccessed(f.call, v.description.slot);
        assert false;
      }
    }
  }

  /** The reports of a frame are exactly the ones that are so. */
  lemma ReportsAreJustified(f: Frame, v: Violation)
    ensures v in FrameViolations(f) <==> Justified(f, v)
  {
    hide Op011, Op020, Op031, UndeployedCode, Op054, ExtCode, Op061, ForbiddenPrecompiles, StakedOnlyOpcodes, Erep050,
      StorageRules;
    BannedReports(f, v);
    OutOfGasReports(f, v);
    CreateReports(f, v);
    UndeployedReports(f, v);
    EntryPointReports(f, v);
    ExtCodeReports(f, v);
    ValueReports(f, v);
    PrecompileReports(f, v);
    BalanceReports(f, v);
    ContextReports(f, v);
    StorageReports(f, v);
    assert Justified(f, v) && v.description.UsesBannedOpcode? ==> !v.description.opcode.NoOpcode?;
    hide Justified;
  }

  /** The place of a report's check among the checks of a frame. */
  function Turn(v: Violation): nat {
    match v.description
    case UsesBannedOpcode(_, opcode) => if opcode.FrameOf? then 2 else 0
    case RevertsOnOutOfGas(_) => 1
    case AccessesUndeployed(_, _, _) => 3
    case IllegalEntryPointCall(_) => 4
    case ExtCodeOfEntryPoint(_) => 5
    case CallWithValue => 6
    case ForbiddenPrecompile(_) => 7
    case UnstakedUsesOpcode(_, _) => 8
    case UnstakedPaymasterContext => 9
    case UnstakedAccess(_, _, _) => 10
    case ForbiddenAccess(_, _, _, _, _) => 10
  }

  ghost predicate InTurn(vs: seq<Violation>) {
    forall i, j | 0 <= i < j < |vs| :: Turn(vs[i]) <= Turn(vs[j])
  }

  ghost predicate AllAt(vs: seq<Violation>, n: nat) {
    forall v <- vs :: Turn(v) == n
  }

  ghost predicate After(vs: seq<Violation>, n: nat) {
    InTurn(vs) && forall v <- vs :: n < Turn(v)
  }

  lemma ThenLater(xs: seq<Violation>, ys: seq<Violation>, n: nat, m: nat)
    requires AllAt(xs, n) && After(ys, n) && m < n
    ensures After(xs + ys, m)
  {
  }

  lemma EachAtItsTurn(f: Frame)
    ensures AllAt(Op011(f), 0) && AllAt(Op020(f), 1) && AllAt(Op031(f), 2)
    ensures AllAt(UndeployedCode(f, f.call.codeAccesses), 3) && AllAt(Op054(f), 4)
    ensures AllAt(ExtCode(f, f.call.extCodeAccesses), 5) && AllAt(Op061(f), 6)
    ensures AllAt(ForbiddenPrecompiles(f, f.call.codeAccesses), 7)
    ensures AllAt(StakedOnlyOpcodes(f, f.call.usedOpcodes), 8) && AllAt(Erep050(f), 9) && AllAt(StorageRules(f), 10)
  {
    hide Op011, Op020, Op031, UndeployedCode, Op054, ExtCode, Op061, ForbiddenPrecompiles, StakedOnlyOpcodes, Erep050,
      StorageRules, Justified;
    forall v: Violation
      ensures v in Op011(f) ==> Turn(v) == 0
      ensures v in Op020(f) ==> Turn(v) == 1
      ensures v in Op031(f) ==> Turn(v) == 2
      ensures v in UndeployedCode(f, f.call.codeAccesses) ==> Turn(v) == 3
      ensures v in Op054(f) ==> Turn(v) == 4
      ensures v in ExtCode(f, f.call.extCodeAccesses) ==> Turn(v) == 5
      ensures v in Op061(f) ==> Turn(v) == 6
      ensures v in ForbiddenPrecompiles(f, f.call.codeAccesses) ==> Turn(v) == 7
      ensures v in StakedOnlyOpcodes(f, f.call.usedOpcodes) ==> Turn(v) == 8
      ensures v in Erep050(f) ==> Turn(v) == 9
      ensures v in StorageRules(f) ==> Turn(v) == 10
    {
      BannedReports(f, v);
      OutOfGasReports(f, v);
      CreateReports(f, v);
      UndeployedReports(f, v);
      EntryPointReports(f, v);
      ExtCodeReports(f, v);
      ValueReports(f, v);
      PrecompileReports(f, v);
      BalanceReports(f, v);
      ContextReports(f, v);
      StorageReports(f, v);
    }
  }

  /** The reports of a frame come check by check, so the first one is that of the first check that fails. */
  lemma ReportsComeInTurn(f: Frame)
    ensures InTurn(FrameViolations(f))
  {
    hide Op011, Op020, Op031, UndeployedCode, Op054, ExtCode, Op061, ForbiddenPrecompiles, StakedOnlyOpcodes, Erep050,
      StorageRules, After, AllAt;
    EachAtItsTurn(f);
    var slots, code, ext := StorageRules(f), UndeployedCode(f, f.call.codeAccesses), ExtCode(f, f.call.extCodeAccesses);
    TurnsOf(slots, 10, 9);
    ThenLater(Erep050(f), slots, 9, 8);
    ThenLater(StakedOnlyOpcodes(f, f.call.usedOpcodes), Erep050(f) + slots, 8, 7);
    var entity := EntityRules(f);
    var precompiles := ForbiddenPrecompiles(f, f.call.codeAccesses);
    ThenLater(precompiles, entity, 7, 6);
    ThenLater(Op061(f), precompiles + entity, 6, 5);
    ThenLater(ext, Op061(f) + (precompiles + entity), 5, 4);
    ThenLater(Op054(f), ext + (Op061(f) + (precompiles + entity)), 4, 3);
    var calls := CallRules(f) + entity;
    assert calls == Op054(f) + (ext + (Op061(f) + (precompiles + entity)));
    ThenLater(code, calls, 3, 2);
    ThenLater(Op031(f), code + calls, 2, 1);
    ThenLater(Op020(f), Op031(f) + (code + calls), 1, 0);
    FirstTurn(Op011(f), Op020(f) + (Op031(f) + (code + calls)));
    assert FrameViolations(f) == Op011(f) + (Op020(f) + (Op031(f) + (code + calls)));
  }

  lemma TurnsOf(xs: seq<Violation>, n: nat, m: nat)
    requires AllAt(xs, n) && m < n
    ensures After(xs, m)
  {
  }

  lemma FirstTurn(xs: seq<Violation>, ys: seq<Violation>)
    requires AllAt(xs, 0) && After(ys, 0)
    ensures InTurn(xs + ys)
  {
  }

  // ---- What compliance is ----

  lemma StorageReported(f: Frame)
    ensures (exists v <- FrameViolations(f) :: v.rule == STO010) <==> Breaks(f, STO010)
  {
    hide FrameViolations, LawfulSlot, NeedsEntityStake, NeedsFactoryStake, Names, NameOf, Staked;
    if slot: Word :| BreachesSlot(f, slot) {
      var v := SlotReportFor(f, slot);
      NamesAgree(f.run, f.call.to, NameOf(f.run, f.call.to));
      ReportsAreJustified(f, v);
    }
    forall v | v in FrameViolations(f) && v.rule == STO010
      ensures Breaks(f, STO010)
    {
      ReportsAreJustified(f, v);
    }
  }

  ghost function SlotReportFor(f: Frame, slot: Word): Violation {
    var name, e := NameOf(f.run, f.call.to), f.who.entity;
    Report(f, STO010, f.call.to, NoOpcode, None,
           if (NeedsEntityStake(f, slot) && !Staked(f.run, e)) || NeedsFactoryStake(f, slot)
           then UnstakedAccess(e, name, slot)
           else ForbiddenAccess(e, Writes(f.call, slot), Transient(f.call, slot), name, slot))
  }

  lemma OpcodesReported(f: Frame)
    ensures (exists v <- FrameViolations(f) :: v.rule == OP011) <==> Breaks(f, OP011)
  {
    hide FrameViolations, BreachesSlot, IntoEntryPoint, Names;
    var e := f.who.entity;
    if code :| code in f.call.usedOpcodes && UsesBanned(f, code) {
      ReportsAreJustified(f, Report(f, OP011, f.call.to, OpcodeOf(code), Some(0), UsesBannedOpcode(e, OpcodeOf(code))));
    }
    if code :| code in f.call.usedOpcodes && ReadsBalance(f, code) {
      ReportsAreJustified(f, Report(f, OP011, f.call.from, OpcodeOf(code), Some(0), UnstakedUsesOpcode(e, code)));
    }
    if CreatesUnlawfully(f) {
      var kind := FrameOf(CREATE2);
      ReportsAreJustified(f, Report(f, OP011, f.call.from, kind, Some(0), UsesBannedOpcode(e, kind)));
    }
    forall v | v in FrameViolations(f) && v.rule == OP011
      ensures Breaks(f, OP011)
    {
      ReportsAreJustified(f, v);
    }
  }

  lemma CodeReported(f: Frame)
    ensures (exists v <- FrameViolations(f) :: v.rule == OP041) <==> Breaks(f, OP041)
    ensures (exists v <- FrameViolations(f) :: v.rule == OP062) <==> Breaks(f, OP062)
  {
    hide FrameViolations, BreachesSlot, IntoEntryPoint, Names;
    var e, kind := f.who.entity, FrameOf(f.call.frameType);
    if x :| x in f.call.codeAccesses && ReachesNoCode(f, x) {
      ReportsAreJustified(f, Report(f, OP041, x.address, NoOpcode, None, AccessesUndeployed(e, x.address, x.opcode)));
    }
    if x :| x in f.call.codeAccesses && ReachesPrecompile(f, x) {
      ReportsAreJustified(f, Report(f, OP062, f.call.from, kind, f.call.value, ForbiddenPrecompile(x.address)));
    }
    forall v | v in FrameViolations(f) && (v.rule == OP041 || v.rule == OP062)
      ensures Breaks(f, v.rule)
    {
      ReportsAreJustified(f, v);
    }
  }

  lemma EntryPointUseReported(f: Frame)
    ensures (exists v <- FrameViolations(f) :: v.rule == OP054) <==> Breaks(f, OP054)
  {
    hide FrameViolations, BreachesSlot, IntoEntryPoint, Names;
    var kind, callee := FrameOf(f.call.frameType), f.call.callee;
    ReportsAreJustified(f, Report(f, OP054, f.call.from, kind, f.call.value, IllegalEntryPointCall(callee)));
    ReportsAreJustified(f, Report(f, OP054, f.call.to, NoOpcode, None, ExtCodeOfEntryPoint(f.who.entity)));
    forall v | v in FrameViolations(f) && v.rule == OP054
      ensures Breaks(f, OP054)
    {
      ReportsAreJustified(f, v);
    }
  }

  lemma PlainRulesReported(f: Frame)
    ensures (exists v <- FrameViolations(f) :: v.rule == OP020) <==> Breaks(f, OP020)
    ensures (exists v <- FrameViolations(f) :: v.rule == OP061) <==> Breaks(f, OP061)
    ensures (exists v <- FrameViolations(f) :: v.rule == EREP050) <==> Breaks(f, EREP050)
  {
    hide FrameViolations, BreachesSlot, IntoEntryPoint, Names;
    var kind := FrameOf(f.call.frameType);
    ReportsAreJustified(f, Report(f, OP020, f.call.from, kind, Some(0), RevertsOnOutOfGas(f.who.entity)));
    ReportsAreJustified(f, Report(f, OP061, f.call.from, kind, f.call.value, CallWithValue));
    ReportsAreJustified(f, Report(f, EREP050, f.call.from, NoOpcode, Some(0), UnstakedPaymasterContext));
    forall v | v in FrameViolations(f) && (v.rule == OP020 || v.rule == OP061 || v.rule == EREP050)
      ensures Breaks(f, v.rule)
    {
      ReportsAreJustified(f, v);
    }
  }

  /** A frame has a report of a rule exactly when it breaks the rule. */
  lemma ReportedIffBroken(f: Frame, rule: Rule)
    ensures (exists v <- FrameViolations(f) :: v.rule == rule) <==> Breaks(f, rule)
  {
    hide FrameViolations, Breaks;
    match rule
    case OP011 => OpcodesReported(f);
    case OP041 => CodeReported(f);
    case OP062 => CodeReported(f);
    case OP054 => EntryPointUseReported(f);
    case STO010 => StorageReported(f);
    case _ => PlainRulesReported(f);
  }

  lemma OwnerlessCrashes(f: Frame)
    ensures StorageCrash(f) <==> Ownerless(f)
  {
    var slots := AllSlots(f.call.slots);
    if slots != [] {
      SlotsAccessed(f.call, slots[0]);
    }
    if slot: Word :| Accesses(f.call, slot) {
      SlotsAccessed(f.call, slot);
    }
  }

  lemma CompliantIff(f: Frame)
    ensures FrameViolations(f) == [] && !StorageCrash(f) <==> Compliant(f)
  {
    hide FrameViolations, Breaks, StorageCrash, Ownerless;
    OwnerlessCrashes(f);
    forall rule: Rule
      ensures (exists v <- FrameViolations(f) :: v.rule == rule) <==> Breaks(f, rule)
    {
      ReportedIffBroken(f, rule);
    }
    if FrameViolations(f) != [] {
      assert FrameViolations(f)[0] in FrameViolations(f);
      assert Breaks(f, FrameViolations(f)[0].rule);
    }
  }

  // ---- Who holds a frame ----

  /** Entered from outside the code of an entity. */
  predicate Crosses(run: Run, call: Call) {
    call.from in {ADDRESS_ZERO, run.sys.entryPoint, run.sys.senderCreator}
  }

  predicate Plays(run: Run, call: Call, e: Entity) {
    match e
    case Account => call.to == run.op.sender
    case Factory => Some(call.to) == run.op.factory && call.from == run.sys.senderCreator
    case Paymaster => Some(call.to) == run.op.paymaster
    case EntryPoint => call.to == run.sys.entryPoint
    case SenderCreator => call.to == run.sys.senderCreator
    case NativeNonceManager => Some(call.to) == run.sys.nonceManager
    case NoEntity => false
  }

  /** The order in which a role is looked for when an address plays several. */
  const ROLES := [Account, Factory, Paymaster, EntryPoint, SenderCreator, NativeNonceManager]

  predicate FirstRole(run: Run, call: Call, who: Who) {
    && who.address == call.to && Plays(run, call, who.entity)
    && forall i, j | 0 <= i < j < |ROLES| && ROLES[j] == who.entity :: !Plays(run, call, ROLES[i])
  }

  /** Frame j is held by the entity of the last crossing up to it, or by nobody before the first. */
  predicate HeldBy(run: Run, frames: seq<Call>, j: nat, who: Who)
    requires j < |frames|
  {
    || (who == NOBODY && forall k | 0 <= k <= j :: !Crosses(run, frames[k]))
    || exists i | 0 <= i <= j ::
         Crosses(run, frames[i]) && FirstRole(run, frames[i], who) && forall k | i < k <= j :: !Crosses(run, frames[k])
  }

  lemma ClassifiedMeaning(run: Run, call: Call)
    ensures Classified(run, call).Some? <==> exists e: Entity :: Plays(run, call, e)
    ensures forall who: Who :: FirstRole(run, call, who) <==> Classified(run, call) == Some(who)
  {
    assert |ROLES| == 6 && ROLES[0] == Account && ROLES[1] == Factory && ROLES[2] == Paymaster;
    assert ROLES[3] == EntryPoint && ROLES[4] == SenderCreator && ROLES[5] == NativeNonceManager;
    if Classified(run, call).Some? {
      assert Plays(run, call, Classified(run, call).value.entity);
    }
  }

  lemma {:induction false} HeldByMeaning(run: Run, frames: seq<Call>, j: nat, who: Who)
    requires j < |frames| && AllKnown(run, frames)
    ensures HeldBy(run, frames, j, who) <==> EntityAfter(run, frames[..j + 1], NOBODY) == who
    decreases j
  {
    hide Classified, FirstRole;
    var upTo := frames[..j + 1];
    assert upTo[..j] == frames[..j] && upTo[j] == frames[j] && frames[j] in frames;
    ClassifiedMeaning(run, frames[j]);
    assert Crosses(run, frames[j]) <==> Boundary(run, frames[j]);
    hide Crosses, Boundary;
    if !Crosses(run, frames[j]) {
      if j == 0 {
        assert frames[..0] == [];
      } else {
        HeldByMeaning(run, frames, j - 1, who);
      }
    }
  }

  // ---- The frames of the walk are the frames of the tree ----

  /** The walk checks the visited frames in order, each under the entity of the last crossing. */
  ghost predicate Aligned(run: Run, frames: seq<Frame>, visited: seq<Call>, who: Who) {
    && |frames| == |visited|
    && forall j | 0 <= j < |frames| ::
         frames[j].run == run && frames[j].call == visited[j]
         && frames[j].who == EntityAfter(run, visited[..j + 1], who)
  }

  lemma AlignedConcat(run: Run, xs: seq<Frame>, ys: seq<Frame>, a: seq<Call>, b: seq<Call>, who: Who)
    requires Aligned(run, xs, a, who) && Aligned(run, ys, b, EntityAfter(run, a, who))
    ensures Aligned(run, xs + ys, a + b, who)
  {
    hide EntityAfter;
    forall j | 0 <= j < |xs + ys|
      ensures var f := (xs + ys)[j];
              f.run == run && f.call == (a + b)[j] && f.who == EntityAfter(run, (a + b)[..j + 1], who)
    {
      if j < |xs| {
        assert (xs + ys)[j] == xs[j] && (a + b)[j] == a[j];
        assert (a + b)[..j + 1] == a[..j + 1];
      } else {
        var n := j - |xs|;
        assert (xs + ys)[j] == ys[n] && (a + b)[j] == b[n];
        assert (a + b)[..j + 1] == a + b[..n + 1];
        EntityAfterConcat(run, a, b[..n + 1], who);
      }
    }
  }

  lemma {:induction false} HeldAligned(run: Run, call: Call, depth: nat, context: Address, who: Who)
    requires Held(run, call, depth, context, who).lost.None?
    ensures Aligned(run, Held(run, call, depth, context, who).frames, Visited(run, call), who)
    decreases call, 1
  {
    if !SelfCall(run, call) {
      var me := Entered(run, call, who).value;
      var below := HeldAll(run, call.calls, depth + 1, context, me).frames;
      HeldAllAligned(run, call.calls, depth + 1, context, me);
      assert [call][..0] == [] && [call][..1] == [call];
      assert EntityAfter(run, [call], who) == me;
      hide EntityAfter;
      AlignedConcat(run, [Frame(run, me, call, depth, context)], below, [call], VisitedAll(run, call.calls), who);
    }
  }

  lemma {:induction false} HeldAllAligned(run: Run, calls: seq<Call>, depth: nat, context: Address, who: Who)
    requires HeldAll(run, calls, depth, context, who).lost.None?
    ensures Aligned(run, HeldAll(run, calls, depth, context, who).frames, VisitedAll(run, calls), who)
    decreases calls, 0
  {
    hide EntityAfter;
    if calls != [] {
      var ctx := ChildContext(calls[0], context);
      var first := Held(run, calls[0], depth, ctx, who);
      HeldAligned(run, calls[0], depth, ctx, who);
      HeldIsLastBoundary(run, calls[0], depth, ctx, who);
      HeldAllAligned(run, calls[1..], depth, context, first.who);
      AlignedConcat(run, first.frames, HeldAll(run, calls[1..], depth, context, first.who).frames,
                    Visited(run, calls[0]), VisitedAll(run, calls[1..]), who);
    }
  }

  /** A frame is the root of the walk, or lies one level below the checked frame that called it. */
  ghost predicate Nested(f: Frame, frames: seq<Frame>) {
    exists p <- frames ::
      && f.call in p.call.calls && f.depth == p.depth + 1
      && f.context == (if f.call.frameType == DELEGATECALL then p.context else f.call.to)
  }

  lemma {:induction false} HeldNested(run: Run, call: Call, depth: nat, context: Address, who: Who)
    ensures forall f <- Held(run, call, depth, context, who).frames ::
              || (f.call == call && f.depth == depth && f.context == context)
              || Nested(f, Held(run, call, depth, context, who).frames)
    decreases call, 1
  {
    if !SelfCall(run, call) && Entered(run, call, who).Some? {
      var me := Entered(run, call, who).value;
      var root, frames := Frame(run, me, call, depth, context), Held(run, call, depth, context, who).frames;
      var below := HeldAll(run, call.calls, depth + 1, context, me).frames;
      HeldAllNested(run, call.calls, depth + 1, context, me);
      assert frames == [root] + below && root in frames;
      forall f | f in below
        ensures Nested(f, frames)
      {
        if Nested(f, below) {
          var p :| p in below && f.call in p.call.calls && f.depth == p.depth + 1
                   && f.context == (if f.call.frameType == DELEGATECALL then p.context else f.call.to);
          assert p in frames;
        }
      }
    }
  }

  lemma {:induction false} HeldAllNested(run: Run, calls: seq<Call>, depth: nat, context: Address, who: Who)
    ensures forall f <- HeldAll(run, calls, depth, context, who).frames ::
              || (f.call in calls && f.depth == depth && f.context == ChildContext(f.call, context))
              || Nested(f, HeldAll(run, calls, depth, context, who).frames)
    decreases calls, 0
  {
    if calls != [] {
      var ctx, all := ChildContext(calls[0], context), HeldAll(run, calls, depth, context, who).frames;
      var first := Held(run, calls[0], depth, ctx, who);
      var rest := HeldAll(run, calls[1..], depth, context, first.who).frames;
      HeldNested(run, calls[0], depth, ctx, who);
      HeldAllNested(run, calls[1..], depth, context, first.who);
      if first.lost.None? {
        assert all == first.frames + rest;
        NestedInMore(first.frames, rest);
      }
    }
  }

  lemma NestedInMore(xs: seq<Frame>, ys: seq<Frame>)
    ensures forall f: Frame | Nested(f, xs) || Nested(f, ys) :: Nested(f, xs + ys)
  {
    assert forall p: Frame :: p in xs + ys <==> p in xs || p in ys;
  }

  // ---- Which traces are accepted ----

  lemma {:induction false} StrictJudgement(frames: seq<Frame>, found: Findings)
    ensures JudgeFrames(frames, true, found).Returned? <==> forall f <- frames :: Compliant(f)
    decreases frames
  {
    hide FrameViolations, StorageCrash, Compliant;
    if frames != [] {
      var first := FrameOutcome(frames[0], true, found);
      CompliantIff(frames[0]);
      assert frames == [frames[0]] + frames[1..];
      if first.Returned? {
        StrictJudgement(frames[1..], first.state);
      }
    }
  }

  /**
   * A trace is accepted exactly when it calls anything at all, every frame entered from outside is of a known entity,
   * and every visited frame keeps all rules under the entity of the last frame entered from outside.
   */
  lemma AcceptedIff(run: Run, call: Call)
    ensures var visited := Visited(run, call);
            ParseOutcome(run, true, call).Returned? <==>
              && call.calls != []
              && (forall c <- visited :: Crosses(run, c) ==> exists e: Entity :: Plays(run, c, e))
              && forall j: nat, f: Frame |
                   j < |visited| && f.run == run && f.call == visited[j] && HeldBy(run, visited, j, f.who) ::
                   Compliant(f)
  {
    hide Compliant, Classified, Plays, HeldBy, EntityAfter;
    var visited, w := Visited(run, call), Held(run, call, 0, call.to, NOBODY);
    VisitJudgesHeld(run, true, call, 0, call.to, WalkState(NOBODY, NO_FINDINGS));
    HeldIsLastBoundary(run, call, 0, call.to, NOBODY);
    forall c | c in visited
      ensures Classified(run, c).Some? <==> exists e: Entity :: Plays(run, c, e)
    {
      ClassifiedMeaning(run, c);
    }
    StrictJudgement(w.frames, NO_FINDINGS);
    if w.lost.None? {
      HeldAligned(run, call, 0, call.to, NOBODY);
      AlignedCompliance(run, w.frames, visited);
    }
  }

  lemma SameRules(f: Frame, g: Frame)
    requires f.run == g.run && f.call == g.call && f.who == g.who
    ensures Compliant(f) <==> Compliant(g)
  {
    forall rule: Rule
      ensures Breaks(f, rule) <==> Breaks(g, rule)
    {
      SameBreach(f, g, rule);
    }
    hide Breaks;
  }

  lemma SameBreach(f: Frame, g: Frame, rule: Rule)
    requires f.run == g.run && f.call == g.call && f.who == g.who
    ensures Breaks(f, rule) <==> Breaks(g, rule)
  {
    assert forall x: CodeAccess :: ReachesNoCode(f, x) <==> ReachesNoCode(g, x);
    assert forall x: CodeAccess :: ReachesPrecompile(f, x) <==> ReachesPrecompile(g, x);
    assert forall slot: Word :: BreachesSlot(f, slot) <==> BreachesSlot(g, slot);
  }

  lemma AlignedCompliance(run: Run, frames: seq<Frame>, visited: seq<Call>)
    requires Aligned(run, frames, visited, NOBODY) && AllKnown(run, visited)
    ensures (forall f <- frames :: Compliant(f)) <==>
              forall j: nat, f: Frame |
                j < |visited| && f.run == run && f.call == visited[j] && HeldBy(run, visited, j, f.who) ::
                Compliant(f)
  {
    hide Compliant, HeldBy, EntityAfter, AllKnown;
    forall j: nat, f: Frame | j < |visited| && f.run == run && f.call == visited[j]
      ensures HeldBy(run, visited, j, f.who) <==> f.who == frames[j].who
      ensures f.who == frames[j].who ==> (Compliant(f) <==> Compliant(frames[j]))
    {
      HeldByMeaning(run, visited, j, f.who);
      if f.who == frames[j].who {
        SameRules(f, frames[j]);
      }
    }
    forall j | 0 <= j < |frames|
      ensures HeldBy(run, visited, j, frames[j].who)
    {
      HeldByMeaning(run, visited, j, frames[j].who);
    }
  }

  // ---- What the collecting walk lists ----

  lemma {:induction false} CollectingJudgement(frames: seq<Frame>, found: Findings)
    ensures var o := JudgeFrames(frames, false, found);
            && (o.Returned? <==> forall f <- frames :: !Ownerless(f))
            && (o.Returned? ==> forall v: Violation ::
                  v in o.state.violations <==> v in found.violations || exists f <- frames :: Justified(f, v))
    decreases frames
  {
    hide FrameViolations, StorageCrash, Ownerless, Justified;
    if frames != [] {
      var first := FrameOutcome(frames[0], false, found);
      OwnerlessCrashes(frames[0]);
      assert frames == [frames[0]] + frames[1..];
      if first.Returned? {
        forall v: Violation
          ensures v in FrameViolations(frames[0]) <==> Justified(frames[0], v)
        {
          ReportsAreJustified(frames[0], v);
        }
        CollectingJudgement(frames[1..], first.state);
      }
    }
  }

  /**
   * The collecting walk returns unless a frame is entered of an unknown entity, or storage is accessed under none;
   * it then lists exactly the reports that some checked frame justifies.
   */
  lemma CollectedReports(run: Run, call: Call)
    ensures var o, w := ParseOutcome(run, false, call), Held(run, call, 0, call.to, NOBODY);
            && (o.Returned? <==>
                  call.calls != [] && AllKnown(run, Visited(run, call)) && forall f <- w.frames :: !Ownerless(f))
            && (o.Returned? ==> forall v: Violation ::
                  v in o.state.found.violations <==> exists f <- w.frames :: Justified(f, v))
  {
    hide Ownerless, Justified;
    VisitJudgesHeld(run, false, call, 0, call.to, WalkState(NOBODY, NO_FINDINGS));
    HeldIsLastBoundary(run, call, 0, call.to, NOBODY);
    CollectingJudgement(Held(run, call, 0, call.to, NOBODY).frames, NO_FINDINGS);
  }
}
