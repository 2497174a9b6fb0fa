/** The step tracer: an automaton over EVM steps that splits the trace into levels and records storage accesses. */
module StepTracer {
  import opened Basics

  /** Opcodes the tracer tells apart; the rest carry the two facts about their names that matter. */
  datatype Op =
    | SLOAD | SSTORE | TLOAD | TSTORE
    | CALL | STATICCALL | CALLCODE | DELEGATECALL
    | GAS | LOG1
    | Other(name: string, mentionsCall: bool, unimportant: bool)

  /** One executed instruction, as reported just before it takes effect; stack lists the top first. */
  datatype LogStep = LogStep(op: Op, depth: nat, gas: int, cost: int, stack: seq<Word>, contract: Address)

  datatype Access = Access(
    preReads: map<Word, Word>,
    writes: map<Word, nat>,
    transientReads: map<Word, nat>,
    transientWrites: map<Word, nat>)

  const NO_ACCESS := Access(map[], map[], map[], map[])

  datatype Level = Level(target: Address, opcodes: map<Op, nat>, access: map<Address, Access>, outOfGas: bool)

  /** The values of all storage slots; slots never written hold zero. */
  type Storage = map<(Address, Word), Word>

  function Get(st: Storage, a: Address, slot: Word): Word {
    if (a, slot) in st then st[(a, slot)] else 0
  }

  datatype Config = Config(
    senderCreator: Address,
    stopCollectingTopic: Word,
    toAddress: Word -> Address)

  /** The fields of the tracer; the current level is the last one, and None stands for the empty last opcode. */
  datatype Tracer = Tracer(levels: seq<Level>, lastOp: Option<Op>, stopCollecting: bool)

  const NEW_TRACER := Tracer([], None, false)

  /** A step on a missing level is a type error that ends the trace. */
  datatype Outcome = Stepped(tracer: Tracer) | TypeError

  function Peek(stack: seq<Word>, i: nat): Word {
    if i < |stack| then stack[i] else 0
  }

  function Counted<K>(counts: map<K, nat>, key: K): map<K, nat> {
    counts[key := (if key in counts then counts[key] else 0) + 1]
  }

  function AccessOf(level: Level, a: Address): Access {
    if a in level.access then level.access[a] else NO_ACCESS
  }

  predicate MentionsCall(op: Op) {
    op == CALL || op == STATICCALL || op == CALLCODE || op == DELEGATECALL || (op.Other? && op.mentionsCall)
  }

  predicate StartsLevel(op: Op) {
    op == CALL || op == STATICCALL
  }

  // ---- The meaning of one step ----

  function Current(t: Tracer): Level
    requires t.levels != []
  {
    t.levels[|t.levels| - 1]
  }

  function WithCurrent(t: Tracer, level: Level): Tracer
    requires t.levels != []
  {
    t.(levels := t.levels[|t.levels| - 1 := level])
  }

  function NewLevel(c: Config, t: Tracer, log: LogStep): Tracer {
    t.(levels := t.levels + [Level(c.toAddress(Peek(log.stack, 1)), map[], map[], false)])
  }

  predicate RunsOut(log: LogStep) {
    log.gas < log.cost || (log.op == SSTORE && log.gas < 2300)
  }

  function Marked(t: Tracer, log: LogStep): Tracer {
    if RunsOut(log) && t.levels != [] then WithCurrent(t, Current(t).(outOfGas := true)) else t
  }

  predicate StrayPair(last: Option<Op>, op: Op) {
    last == Some(GAS) && !MentionsCall(op)
  }

  predicate Uncounted(op: Op) {
    op == GAS || (op.Other? && op.unimportant)
  }

  /** GAS counts only when the next opcode's name has no CALL in it; unimportant opcodes never count. */
  function CountedOpcodes(opcodes: map<Op, nat>, lastOp: Option<Op>, op: Op): map<Op, nat> {
    var withGas := if StrayPair(lastOp, op) then Counted(opcodes, GAS) else opcodes;
    if Uncounted(op) then withGas else Counted(withGas, op)
  }

  function Accessed(access: Access, op: Op, slot: Word, value: Word): Access {
    match op
    case SLOAD =>
      if slot in access.preReads || slot in access.writes then access
      else access.(preReads := access.preReads[slot := value])
    case SSTORE => access.(writes := Counted(access.writes, slot))
    case TLOAD => access.(transientReads := Counted(access.transientReads, slot))
    case TSTORE => access.(transientWrites := Counted(access.transientWrites, slot))
    case _ => access
  }

  predicate AccessesStorage(op: Op) {
    op == SLOAD || op == SSTORE || op == TLOAD || op == TSTORE
  }

  function AccessAfter(level: Level, log: LogStep, db: Storage): map<Address, Access> {
    if AccessesStorage(log.op) then
      var slot := Peek(log.stack, 0);
      level.access[log.contract := Accessed(AccessOf(level, log.contract), log.op, slot, Get(db, log.contract, slot))]
    else level.access
  }

  /** A step below depth one, on the current level. */
  function Recorded(level: Level, lastOp: Option<Op>, log: LogStep, db: Storage): Level {
    level.(opcodes := CountedOpcodes(level.opcodes, lastOp, log.op), access := AccessAfter(level, log, db))
  }

  function StepResult(c: Config, t: Tracer, log: LogStep, db: Storage): Outcome {
    if t.stopCollecting then Stepped(t)
    else if RunsOut(log) && t.levels == [] then TypeError
    else
      var t1 := Marked(t, log);
      var t2 := if t1.levels != [] && Current(t1).target == c.senderCreator && log.depth == 2 && StartsLevel(log.op)
                then NewLevel(c, t1, log) else t1;
      if log.depth == 1 then
        if StartsLevel(log.op) then Stepped(NewLevel(c, t2, log).(lastOp := None))
        else
          Stepped(t2.(lastOp := None, stopCollecting := log.op == LOG1 && Peek(log.stack, 2) == c.stopCollectingTopic))
      else if t2.levels == [] then
        // a step that counts nothing does not look at the level
        if StrayPair(t2.lastOp, log.op) || !Uncounted(log.op) then TypeError else Stepped(t2.(lastOp := Some(log.op)))
      else Stepped(WithCurrent(t2, Recorded(Current(t2), t2.lastOp, log, db)).(lastOp := Some(log.op)))
  }

  // ---- The tracer object ----

  class BundlerCollectorTracer {
    const config: Config
    var callsFromEntryPoint: seq<Level>
    var topLevelCallCounter: nat
    var lastOp: Option<Op>
    var stopCollecting: bool

    ghost predicate Valid()
      reads this
    {
      topLevelCallCounter == |callsFromEntryPoint|
    }

    function State(): Tracer
      reads this
    {
      Tracer(callsFromEntryPoint, lastOp, stopCollecting)
    }

    constructor (config: Config)
      ensures Valid() && State() == NEW_TRACER && this.config == config
    {
      this.config := config;
      callsFromEntryPoint, topLevelCallCounter, lastOp, stopCollecting := [], 0, None, false;
    }

    method UpdateCurrent(level: Level)
      requires Valid() && 0 < topLevelCallCounter
      modifies this`callsFromEntryPoint
      ensures Valid() && State() == WithCurrent(old(State()), level)
    {
      callsFromEntryPoint := callsFromEntryPoint[topLevelCallCounter - 1 := level];
    }

    method OpenLevel(log: LogStep)
      requires Valid()
      modifies this`callsFromEntryPoint, this`topLevelCallCounter
      ensures Valid() && State() == NewLevel(config, old(State()), log)
    {
      var target := config.toAddress(Peek(log.stack, 1));
      callsFromEntryPoint := callsFromEntryPoint + [Level(target, map[], map[], false)];
      topLevelCallCounter := topLevelCallCounter + 1;
    }

    /** Answers false when the step fails on a missing level. */
    method Step(log: LogStep, db: Storage) returns (ok: bool)
      requires Valid()
      modifies this
      ensures Valid()
      ensures match StepResult(config, old(State()), log, db)
              case Stepped(t) => ok && State() == t
              case TypeError => !ok
    {
      hide Recorded, RunsOut, Peek;
      if stopCollecting {
        return true;
      }
      ok := MarkOutOfGas(log);
      if !ok {
        return;
      }
      if topLevelCallCounter != 0 && callsFromEntryPoint[topLevelCallCounter - 1].target == config.senderCreator
         && log.depth == 2 {
        if log.op == CALL || log.op == STATICCALL {
          OpenLevel(log);
        }
      }
      if log.depth == 1 {
        if log.op == CALL || log.op == STATICCALL {
          OpenLevel(log);
        } else if log.op == LOG1 && Peek(log.stack, 2) == config.stopCollectingTopic {
          stopCollecting := true;
        }
        lastOp := None;
        return true;
      }
      if topLevelCallCounter == 0 {
        if StrayPair(lastOp, log.op) || !Uncounted(log.op) {
          return false;
        }
        lastOp := Some(log.op);
        return true;
      }
      RecordStep(log, db);
      return true;
    }

    /** Marks the current level when a step cannot be paid for; false when there is no level to mark. */
    method MarkOutOfGas(log: LogStep) returns (ok: bool)
      requires Valid()
      modifies this`callsFromEntryPoint
      ensures Valid() && ok == !(RunsOut(log) && old(callsFromEntryPoint) == [])
      ensures State() == Marked(old(State()), log)
    {
      if log.gas < log.cost || (log.op == SSTORE && log.gas < 2300) {
        if topLevelCallCounter == 0 {
          return false;
        }
        UpdateCurrent(callsFromEntryPoint[topLevelCallCounter - 1].(outOfGas := true));
      }
      return true;
    }

    /** Opcode counts and storage accesses of a step below depth one. */
    method RecordStep(log: LogStep, db: Storage)
      requires Valid() && 0 < topLevelCallCounter
      modifies this`callsFromEntryPoint, this`lastOp
      ensures Valid()
      ensures var recorded := Recorded(Current(old(State())), old(lastOp), log, db);
              State() == WithCurrent(old(State()), recorded).(lastOp := Some(log.op))
    {
      var level := callsFromEntryPoint[topLevelCallCounter - 1];
      var opcodes := level.opcodes;
      if StrayPair(lastOp, log.op) {
        opcodes := Counted(opcodes, GAS);
      }
      if !Uncounted(log.op) {
        opcodes := Counted(opcodes, log.op);
      }
      lastOp := Some(log.op);
      var access := RecordAccess(level, log, db);
      UpdateCurrent(level.(opcodes := opcodes, access := access));
    }

    /** The access tables after a step; only the four storage opcodes change them. */
    method RecordAccess(level: Level, log: LogStep, db: Storage) returns (table: map<Address, Access>)
      ensures table == AccessAfter(level, log, db)
    {
      table := level.access;
      if AccessesStorage(log.op) {
        var slot := Peek(log.stack, 0);
        var access := AccessOf(level, log.contract);
        if log.op == SLOAD {
          if slot !in access.preReads && slot !in access.writes {
            access := access.(preReads := access.preReads[slot := Get(db, log.contract, slot)]);
          }
        } else if log.op == SSTORE {
          access := access.(writes := Counted(access.writes, slot));
        } else if log.op == TLOAD {
          access := access.(transientReads := Counted(access.transientReads, slot));
        } else {
          access := access.(transientWrites := Counted(access.transientWrites, slot));
        }
        table := table[log.contract := access];
      }
    }
  }

  // ---- The machine that is traced ----

  /** A step with the value its SSTORE leaves (None when it fails), or a call frame opening or closing. */
  datatype Moment = Execute(log: LogStep, stored: Option<Word>) | EnterFrame | LeaveFrame(reverted: bool)

  /** Storage, with the snapshots of the frames opened since the level began. */
  datatype Machine = Machine(storage: Storage, snapshots: seq<Storage>)

  function Executed(m: Machine, log: LogStep, stored: Option<Word>): Machine {
    if log.op == SSTORE && stored.Some? then
      m.(storage := m.storage[(log.contract, Peek(log.stack, 0)) := stored.value])
    else m
  }

  /** Whether a moment belongs to the level: below depth one, opening no new level, closing no frame of the caller. */
  predicate Within(c: Config, t: Tracer, m: Machine, x: Moment) {
    match x
    case Execute(log, _) =>
      && 1 < log.depth
      && !(t.levels != [] && Current(t).target == c.senderCreator && log.depth == 2 && StartsLevel(log.op))
    case EnterFrame => true
    case LeaveFrame(_) => m.snapshots != []
  }

  /** A moment the machine can come to without the tracer failing on it. */
  predicate CanAdvance(c: Config, t: Tracer, m: Machine, x: Moment) {
    match x
    case Execute(log, _) => StepResult(c, t, log, m.storage).Stepped?
    case EnterFrame => true
    case LeaveFrame(_) => m.snapshots != []
  }

  /** One moment: the tracer sees the step before the machine executes it. */
  function Advance(c: Config, t: Tracer, m: Machine, x: Moment): (r: (Tracer, Machine))
    requires CanAdvance(c, t, m, x)
    ensures t.levels != [] ==> r.0.levels != []
  {
    match x
    case Execute(log, stored) => (StepResult(c, t, log, m.storage).tracer, Executed(m, log, stored))
    case EnterFrame => (t, m.(snapshots := m.snapshots + [m.storage]))
    case LeaveFrame(reverted) =>
      var last := |m.snapshots| - 1;
      (t, Machine(if reverted then m.snapshots[last] else m.storage, m.snapshots[..last]))
  }

  /** A run that stays within the level. */
  ghost predicate LevelRun(c: Config, t: Tracer, m: Machine, xs: seq<Moment>)
    requires t.levels != []
    decreases xs
  {
    xs != [] ==>
      && Within(c, t, m, xs[0]) && CanAdvance(c, t, m, xs[0])
      && LevelRun(c, Advance(c, t, m, xs[0]).0, Advance(c, t, m, xs[0]).1, xs[1..])
  }

  function AfterRun(c: Config, t: Tracer, m: Machine, xs: seq<Moment>): (r: Tracer)
    requires t.levels != [] && LevelRun(c, t, m, xs)
    ensures r.levels != []
    decreases xs
  {
    if xs == [] then t else AfterRun(c, Advance(c, t, m, xs[0]).0, Advance(c, t, m, xs[0]).1, xs[1..])
  }

  // ---- What a level's tables say about the trace ----

  predicate Touches(x: Moment, a: Address, slot: Word) {
    x.Execute? && 1 < x.log.depth && (x.log.op == SLOAD || x.log.op == SSTORE)
    && x.log.contract == a && Peek(x.log.stack, 0) == slot
  }

  /** The first SLOAD or SSTORE of a slot in the trace. */
  function FirstTouch(xs: seq<Moment>, a: Address, slot: Word): Option<Op> {
    if xs == [] then None
    else if Touches(xs[0], a, slot) then Some(xs[0].log.op)
    else FirstTouch(xs[1..], a, slot)
  }

  function Stores(xs: seq<Moment>, a: Address, slot: Word): nat {
    if xs == [] then 0
    else (if Touches(xs[0], a, slot) && xs[0].log.op == SSTORE then 1 else 0) + Stores(xs[1..], a, slot)
  }

  function WriteCount(level: Level, a: Address, slot: Word): nat {
    var w := AccessOf(level, a).writes;
    if slot in w then w[slot] else 0
  }

  predicate IsRead(level: Level, a: Address, slot: Word) {
    slot in AccessOf(level, a).preReads
  }

  predicate IsWritten(level: Level, a: Address, slot: Word) {
    slot in AccessOf(level, a).writes
  }

  /** A slot the level has not stored to still holds, everywhere it could be restored from, its initial value. */
  ghost predicate Unspoiled(t: Tracer, m: Machine, before: Storage, a: Address, slot: Word)
    requires t.levels != []
  {
    !IsWritten(Current(t), a, slot) ==>
      && Get(m.storage, a, slot) == Get(before, a, slot)
      && forall s <- m.snapshots :: Get(s, a, slot) == Get(before, a, slot)
  }

  /** Within a level a step changes the current level's opcode counts and access tables, and the last opcode. */
  lemma WithinStep(c: Config, t: Tracer, m: Machine, x: Moment)
    requires t.levels != [] && !t.stopCollecting && x.Execute? && Within(c, t, m, x)
    ensures var t' := Advance(c, t, m, x).0;
            && !t'.stopCollecting && t'.lastOp == Some(x.log.op)
            && Current(t').access == AccessAfter(Current(t), x.log, m.storage)
            && Current(t').opcodes == CountedOpcodes(Current(t).opcodes, t.lastOp, x.log.op)
  {
    var t1 := Marked(t, x.log);
    assert Current(t1).access == Current(t).access && Current(t1).opcodes == Current(t).opcodes;
    assert Current(t1).target == Current(t).target && |t1.levels| == |t.levels|;
    assert Current(WithCurrent(t1, Recorded(Current(t1), t1.lastOp, x.log, m.storage)))
        == Recorded(Current(t1), t1.lastOp, x.log, m.storage);
  }

  /** The tables of one contract after a step, for one slot. */
  lemma AccessFacts(level: Level, level': Level, log: LogStep, db: Storage, a: Address, slot: Word)
    requires level'.access == AccessAfter(level, log, db)
    ensures var hit := log.contract == a && Peek(log.stack, 0) == slot;
            && WriteCount(level', a, slot) == WriteCount(level, a, slot) + (if hit && log.op == SSTORE then 1 else 0)
            && (IsWritten(level', a, slot) <==> IsWritten(level, a, slot) || (hit && log.op == SSTORE))
            && (IsRead(level', a, slot) <==>
                  IsRead(level, a, slot) || (hit && log.op == SLOAD && !IsWritten(level, a, slot)))
            && (IsRead(level', a, slot) ==>
                  AccessOf(level', a).preReads[slot]
                  == if IsRead(level, a, slot) then AccessOf(level, a).preReads[slot] else Get(db, a, slot))
  {
  }

  /** One moment keeps unspoiled slots, and changes the tables as its opcode says. */
  lemma AdvanceFacts(c: Config, t: Tracer, m: Machine, x: Moment, before: Storage, a: Address, slot: Word)
    requires t.levels != [] && !t.stopCollecting && Within(c, t, m, x) && CanAdvance(c, t, m, x)
    requires Unspoiled(t, m, before, a, slot)
    ensures var (t', m') := Advance(c, t, m, x);
            && !t'.stopCollecting && Unspoiled(t', m', before, a, slot)
            && TablesMove(Current(t), Current(t'), x, before, a, slot)
  {
    hide StepResult, AccessAfter;
    if x.Execute? {
      WithinStep(c, t, m, x);
      AccessFacts(Current(t), Current(Advance(c, t, m, x).0), x.log, m.storage, a, slot);
    }
  }

  ghost predicate TablesMove(level: Level, level': Level, x: Moment, before: Storage, a: Address, slot: Word) {
    && WriteCount(level', a, slot)
       == WriteCount(level, a, slot) + (if Touches(x, a, slot) && x.log.op == SSTORE then 1 else 0)
    && (IsWritten(level', a, slot) <==> IsWritten(level, a, slot) || (Touches(x, a, slot) && x.log.op == SSTORE))
    && (IsRead(level', a, slot) <==>
          IsRead(level, a, slot) || (Touches(x, a, slot) && x.log.op == SLOAD && !IsWritten(level, a, slot)))
    && (IsRead(level', a, slot) ==>
          AccessOf(level', a).preReads[slot]
          == if IsRead(level, a, slot) then AccessOf(level, a).preReads[slot] else Get(before, a, slot))
  }

  lemma {:induction false} RunFacts(c: Config, t: Tracer, m: Machine, xs: seq<Moment>, before: Storage, a: Address,
                                    slot: Word)
    requires t.levels != [] && !t.stopCollecting && LevelRun(c, t, m, xs)
    requires Unspoiled(t, m, before, a, slot)
    requires IsRead(Current(t), a, slot) ==> AccessOf(Current(t), a).preReads[slot] == Get(before, a, slot)
    ensures var level, level' := Current(t), Current(AfterRun(c, t, m, xs));
            && (IsRead(level', a, slot) ==> AccessOf(level', a).preReads[slot] == Get(before, a, slot))
            && (IsRead(level', a, slot) <==>
                  IsRead(level, a, slot) || (!IsWritten(level, a, slot) && FirstTouch(xs, a, slot) == Some(SLOAD)))
            && WriteCount(level', a, slot) == WriteCount(level, a, slot) + Stores(xs, a, slot)
    decreases xs
  {
    if xs != [] {
      AdvanceFacts(c, t, m, xs[0], before, a, slot);
      var (t', m') := Advance(c, t, m, xs[0]);
      RunFacts(c, t', m', xs[1..], before, a, slot);
    }
  }

  /**
   * For any sequence of steps and frame reverts within one level: every value stored as read is the slot's value
   * when the level began, a slot is stored as read exactly when its first access was an SLOAD, and the write
   * counter is the number of SSTOREs.
   */
  lemma ReadsArePreState(c: Config, t: Tracer, before: Storage, xs: seq<Moment>, a: Address, slot: Word)
    requires t.levels != [] && !t.stopCollecting && Current(t).access == map[]
    requires LevelRun(c, t, Machine(before, []), xs)
    ensures var level := Current(AfterRun(c, t, Machine(before, []), xs));
            && (IsRead(level, a, slot) ==> AccessOf(level, a).preReads[slot] == Get(before, a, slot))
            && (IsRead(level, a, slot) <==> FirstTouch(xs, a, slot) == Some(SLOAD))
            && WriteCount(level, a, slot) == Stores(xs, a, slot)
  {
    RunFacts(c, t, Machine(before, []), xs, before, a, slot);
  }

  // ---- OP-012: GAS directly before a call ----

  /** The executed opcodes of a trace. */
  function Ops(xs: seq<Moment>): seq<Op> {
    if xs == [] then [] else (if xs[0].Execute? then [xs[0].log.op] else []) + Ops(xs[1..])
  }

  /** How often GAS is followed by an opcode that does not mention CALL. */
  function StrayGas(ops: seq<Op>): nat {
    if |ops| < 2 then 0
    else (if ops[0] == GAS && !MentionsCall(ops[1]) then 1 else 0) + StrayGas(ops[1..])
  }

  function GasCount(level: Level): nat {
    if GAS in level.opcodes then level.opcodes[GAS] else 0
  }

  function Preceding(t: Tracer): seq<Op> {
    if t.lastOp.Some? then [t.lastOp.value] else []
  }

  lemma GasAdvance(c: Config, t: Tracer, m: Machine, x: Moment)
    requires t.levels != [] && !t.stopCollecting && Within(c, t, m, x) && CanAdvance(c, t, m, x)
    ensures var t' := Advance(c, t, m, x).0;
            && !t'.stopCollecting && t'.lastOp == (if x.Execute? then Some(x.log.op) else t.lastOp)
            && GasCount(Current(t'))
               == GasCount(Current(t)) + (if x.Execute? && StrayPair(t.lastOp, x.log.op) then 1 else 0)
  {
    hide StepResult;
    if x.Execute? {
      WithinStep(c, t, m, x);
    }
  }

  lemma StrayGasStep(last: Option<Op>, op: Op, rest: seq<Op>)
    ensures var before := if last.Some? then [last.value] else [];
            StrayGas(before + ([op] + rest)) == (if StrayPair(last, op) then 1 else 0) + StrayGas([op] + rest)
  {
    if last.Some? {
      assert ([last.value] + ([op] + rest))[1..] == [op] + rest;
    } else {
      assert [] + ([op] + rest) == [op] + rest;
    }
  }

  /** The GAS counter of a level counts exactly the GAS opcodes that no call follows. */
  lemma {:induction false} GasCountIsStrayGas(c: Config, t: Tracer, m: Machine, xs: seq<Moment>)
    requires t.levels != [] && !t.stopCollecting && LevelRun(c, t, m, xs)
    ensures GasCount(Current(AfterRun(c, t, m, xs))) == GasCount(Current(t)) + StrayGas(Preceding(t) + Ops(xs))
    decreases xs
  {
    if xs != [] {
      var (t', m') := Advance(c, t, m, xs[0]);
      GasAdvance(c, t, m, xs[0]);
      GasCountIsStrayGas(c, t', m', xs[1..]);
      hide Advance, StrayGas, GasCount;
      if xs[0].Execute? {
        StrayGasStep(t.lastOp, xs[0].log.op, Ops(xs[1..]));
      } else {
        assert Ops(xs) == Ops(xs[1..]);
      }
    }
  }

  // ---- The other opcodes ----

  function CountOf(level: Level, op: Op): nat {
    if op in level.opcodes then level.opcodes[op] else 0
  }

  /** How many moments execute the opcode. */
  function Executions(xs: seq<Moment>, op: Op): nat {
    if xs == [] then 0 else (if xs[0].Execute? && xs[0].log.op == op then 1 else 0) + Executions(xs[1..], op)
  }

  predicate IsUnimportant(op: Op) {
    op.Other? && op.unimportant
  }

  /** Within a level every other opcode is counted once for each execution, and the unimportant ones never. */
  lemma {:induction false} CountIsExecutions(c: Config, t: Tracer, m: Machine, xs: seq<Moment>, op: Op)
    requires t.levels != [] && !t.stopCollecting && LevelRun(c, t, m, xs) && op != GAS
    ensures CountOf(Current(AfterRun(c, t, m, xs)), op)
         == CountOf(Current(t), op) + (if IsUnimportant(op) then 0 else Executions(xs, op))
    decreases xs
  {
    hide StepResult, CountOf;
    if xs != [] {
      CountAdvance(c, t, m, xs[0], op);
      var (t', m') := Advance(c, t, m, xs[0]);
      CountIsExecutions(c, t', m', xs[1..], op);
    }
  }

  lemma CountAdvance(c: Config, t: Tracer, m: Machine, x: Moment, op: Op)
    requires t.levels != [] && !t.stopCollecting && Within(c, t, m, x) && CanAdvance(c, t, m, x) && op != GAS
    ensures var t' := Advance(c, t, m, x).0;
            && !t'.stopCollecting
            && CountOf(Current(t'), op)
               == CountOf(Current(t), op) + (if x.Execute? && x.log.op == op && !IsUnimportant(op) then 1 else 0)
  {
    hide StepResult;
    if x.Execute? {
      WithinStep(c, t, m, x);
    }
  }
}
