/** Whole traces from a new tracer: targets, opcode and access counters, gas flags, and when collecting stops. */
module TraceCounts {
  import opened Basics
  import opened StepTracer
  import opened TracedLevels

  // ---- The steps of a stretch ----

  function Logs(xs: seq<Moment>): seq<LogStep> {
    if xs == [] then []
    else Logs(xs[..|xs| - 1]) + (if xs[|xs| - 1].Execute? then [xs[|xs| - 1].log] else [])
  }

  /** The call that opened the level, and the steps that followed. */
  function StepsOf(span: Span): seq<LogStep> {
    [span.opening] + Logs(span.moments)
  }

  /** How many steps below depth one execute the opcode. */
  function Times(logs: seq<LogStep>, op: Op): nat {
    if logs == [] then 0
    else
      var last := logs[|logs| - 1];
      Times(logs[..|logs| - 1], op) + (if 1 < last.depth && last.op == op then 1 else 0)
  }

  /** How many steps below depth one execute the opcode on a slot of a contract. */
  function TimesAt(logs: seq<LogStep>, op: Op, a: Address, slot: Word): nat {
    if logs == [] then 0
    else
      var last := logs[|logs| - 1];
      TimesAt(logs[..|logs| - 1], op, a, slot)
      + (if 1 < last.depth && last.op == op && last.contract == a && Peek(last.stack, 0) == slot then 1 else 0)
  }

  /** How many steps below depth one, no call of any kind, follow directly on a GAS below depth one. */
  function TimesStray(logs: seq<LogStep>): nat {
    if |logs| < 2 then 0
    else
      var last, previous := logs[|logs| - 1], logs[|logs| - 2];
      TimesStray(logs[..|logs| - 1])
      + (if 1 < last.depth && 1 < previous.depth && previous.op == GAS && !MentionsCall(last.op) then 1 else 0)
  }

  /** The step costs more gas than there is; an SSTORE needs at least 2300 whatever it costs. */
  predicate Exhausts(x: Moment) {
    x.Execute? && x.log.gas < if x.log.op == SSTORE then Max(2300, x.log.cost) else x.log.cost
  }

  function TransientReads(level: Level, a: Address, slot: Word): nat {
    var counts := AccessOf(level, a).transientReads;
    if slot in counts then counts[slot] else 0
  }

  function TransientWrites(level: Level, a: Address, slot: Word): nat {
    var counts := AccessOf(level, a).transientWrites;
    if slot in counts then counts[slot] else 0
  }

  // ---- What a level counts ----

  ghost predicate Tallies(c: Config, level: Level, span: Span, op: Op, a: Address, slot: Word) {
    && level.target == c.toAddress(Peek(span.opening.stack, 1))
    && (op != GAS && !IsUnimportant(op) ==> CountOf(level, op) == Times(StepsOf(span), op))
    && (IsUnimportant(op) ==> CountOf(level, op) == 0)
    && CountOf(level, GAS) == TimesStray(StepsOf(span))
    && TransientReads(level, a, slot) == TimesAt(StepsOf(span), TLOAD, a, slot)
    && TransientWrites(level, a, slot) == TimesAt(StepsOf(span), TSTORE, a, slot)
  }

  /** A level is marked when a step of its stretch, or the call that ends it, cannot be paid for. */
  ghost predicate Flagged(levels: seq<Level>, spans: seq<Span>, k: nat)
    requires k < |levels| == |spans|
  {
    levels[k].outOfGas <==>
      || (exists x <- spans[k].moments :: Exhausts(x))
      || (k + 1 < |spans| && RunsOut(spans[k + 1].opening))
  }

  /** The last opcode is that of the last step, if that was below depth one. */
  predicate Remembers(t: Tracer, span: Span) {
    var steps := StepsOf(span);
    var last := steps[|steps| - 1];
    t.lastOp == if 1 < last.depth then Some(last.op) else None
  }

  ghost predicate Counting(c: Config, sc: Scene, op: Op, a: Address, slot: Word) {
    && |sc.spans| == |sc.tracer.levels|
    && (forall k | 0 <= k < |sc.spans| ::
          StartsLevel(sc.spans[k].opening.op) && Tallies(c, sc.tracer.levels[k], sc.spans[k], op, a, slot))
    && (forall k | 0 <= k < |sc.spans| :: Flagged(sc.tracer.levels, sc.spans, k))
    && (sc.spans != [] && !sc.tracer.stopCollecting ==> Remembers(sc.tracer, sc.spans[|sc.spans| - 1]))
  }

  // ---- Growing a stretch ----

  function Longer(span: Span, x: Moment): Span {
    span.(moments := span.moments + [x])
  }

  lemma LongerSteps(span: Span, x: Moment)
    ensures StepsOf(Longer(span, x)) == if x.Execute? then StepsOf(span) + [x.log] else StepsOf(span)
  {
    var xs := span.moments;
    assert (xs + [x])[..|xs|] == xs && (xs + [x])[|xs|] == x;
  }

  lemma TimesNext(logs: seq<LogStep>, log: LogStep, op: Op, a: Address, slot: Word)
    requires logs != []
    ensures var last := logs[|logs| - 1];
            && Times(logs + [log], op) == Times(logs, op) + (if 1 < log.depth && log.op == op then 1 else 0)
            && TimesAt(logs + [log], op, a, slot)
               == TimesAt(logs, op, a, slot)
                + (if 1 < log.depth && log.op == op && log.contract == a && Peek(log.stack, 0) == slot then 1 else 0)
            && TimesStray(logs + [log])
               == TimesStray(logs)
                + (if 1 < log.depth && 1 < last.depth && last.op == GAS && !MentionsCall(log.op) then 1 else 0)
  {
    assert (logs + [log])[..|logs|] == logs;
  }

  lemma FlagNext(span: Span, x: Moment)
    ensures (exists y <- Longer(span, x).moments :: Exhausts(y)) <==>
              Exhausts(x) || exists y <- span.moments :: Exhausts(y)
  {
    assert forall y :: y in span.moments + [x] <==> y in span.moments || y == x;
  }

  // ---- What one step does to the levels ----

  /** Only the gas flag may change. */
  predicate SameCounts(level: Level, level': Level) {
    level' == level.(outOfGas := level'.outOfGas)
  }

  lemma MarkedLevels(t: Tracer, log: LogStep)
    ensures var t' := Marked(t, log);
            && t' == t.(levels := t'.levels) && |t'.levels| == |t.levels|
            && (forall k | 0 <= k < |t.levels| - 1 :: t'.levels[k] == t.levels[k])
            && (t.levels != [] ==>
                  SameCounts(Current(t), Current(t')) && Current(t').outOfGas == (Current(t).outOfGas || RunsOut(log)))
  {
  }

  ghost predicate Opens(t: Tracer, c: Config, log: LogStep) {
    && !t.stopCollecting && StartsLevel(log.op)
    && (log.depth == 1 || (log.depth == 2 && t.levels != [] && Current(t).target == c.senderCreator))
  }

  /**
   * A step on a collecting tracer opens a level exactly when it is a call at depth one, or one of the SenderCreator
   * at depth two; it fails exactly when there is no level to mark or to count on.
   */
  lemma OpensIff(c: Config, t: Tracer, log: LogStep, db: Storage)
    ensures var o := StepResult(c, t, log, db);
            && (o.TypeError? <==>
                  && !t.stopCollecting && t.levels == []
                  && (RunsOut(log) || (log.depth != 1 && (StrayPair(t.lastOp, log.op) || !Uncounted(log.op)))))
            && (o.Stepped? ==>
                  |o.tracer.levels| == |t.levels| + (if Opens(t, c, log) then 1 else 0))
            && (o.Stepped? ==>
                  (o.tracer.stopCollecting <==>
                     || t.stopCollecting
                     || (log.depth == 1 && log.op == LOG1 && Peek(log.stack, 2) == c.stopCollectingTopic)))
  {
    MarkedLevels(t, log);
    hide Marked, Recorded, RunsOut, Peek;
  }

  /** The level a call opens; below depth one the call counts itself there. */
  function NewOne(c: Config, log: LogStep): Level {
    Level(c.toAddress(Peek(log.stack, 1)), if log.depth == 1 then map[] else map[log.op := 1], map[], false)
  }

  lemma OpenedLevel(c: Config, t: Tracer, log: LogStep, db: Storage)
    requires Opens(t, c, log) && StepResult(c, t, log, db).Stepped?
    ensures var t', n := StepResult(c, t, log, db).tracer, |t.levels|;
            && |t'.levels| == n + 1 && !t'.stopCollecting
            && (forall k | 0 <= k < n - 1 :: t'.levels[k] == t.levels[k])
            && (n != 0 ==> SameCounts(t.levels[n - 1], t'.levels[n - 1])
                           && t'.levels[n - 1].outOfGas == (t.levels[n - 1].outOfGas || RunsOut(log)))
            && t'.levels[n] == NewOne(c, log)
            && t'.lastOp == (if log.depth == 1 then None else Some(log.op))
  {
    MarkedLevels(t, log);
    hide Marked, RunsOut, Peek;
  }

  /** A step that opens no level, on an open one. */
  lemma RecordedLevel(c: Config, t: Tracer, log: LogStep, db: Storage)
    requires !t.stopCollecting && !Opens(t, c, log) && t.levels != []
    ensures StepResult(c, t, log, db).Stepped?
    ensures var t', n := StepResult(c, t, log, db).tracer, |t.levels| - 1;
            && |t'.levels| == n + 1 && t'.lastOp == (if log.depth == 1 then None else Some(log.op))
            && (forall k | 0 <= k < n :: t'.levels[k] == t.levels[k])
            && t'.levels[n].target == t.levels[n].target
            && t'.levels[n].outOfGas == (t.levels[n].outOfGas || RunsOut(log))
            && if log.depth == 1 then
                 t'.levels[n].opcodes == t.levels[n].opcodes && t'.levels[n].access == t.levels[n].access
               else
                 && t'.levels[n].opcodes == CountedOpcodes(t.levels[n].opcodes, t.lastOp, log.op)
                 && t'.levels[n].access == AccessAfter(t.levels[n], log, db)
  {
    MarkedLevels(t, log);
    hide Marked, RunsOut, Peek, CountedOpcodes, Accessed;
  }

  // ---- What one step does to the counts ----

  lemma OpenedTallies(c: Config, level: Level, log: LogStep, storage: Storage, base: nat, op: Op, a: Address,
                      slot: Word)
    requires StartsLevel(log.op)
    requires level == NewOne(c, log) && 1 <= log.depth
    ensures Tallies(c, level, Span(log, storage, base, []), op, a, slot)
  {
    var steps := [log];
    assert steps == StepsOf(Span(log, storage, base, [])) && steps[..0] == [] && |steps| == 1;
    assert Times(steps, op) == (if 1 < log.depth && log.op == op then 1 else 0);
    assert TimesAt(steps, TLOAD, a, slot) == 0 && TimesAt(steps, TSTORE, a, slot) == 0;
  }

  lemma AccessCounts(level: Level, level': Level, log: LogStep, db: Storage, a: Address, slot: Word)
    requires level'.access == AccessAfter(level, log, db)
    ensures var hit := log.contract == a && Peek(log.stack, 0) == slot;
            && TransientReads(level', a, slot)
               == TransientReads(level, a, slot) + (if log.op == TLOAD && hit then 1 else 0)
            && TransientWrites(level', a, slot)
               == TransientWrites(level, a, slot) + (if log.op == TSTORE && hit then 1 else 0)
  {
  }

  lemma OpcodeCounts(level: Level, level': Level, last: Option<Op>, log: LogStep, op: Op)
    requires level'.opcodes == CountedOpcodes(level.opcodes, last, log.op)
    ensures CountOf(level', GAS) == CountOf(level, GAS) + (if StrayPair(last, log.op) then 1 else 0)
    ensures op != GAS ==>
              CountOf(level', op) == CountOf(level, op) + (if log.op == op && !IsUnimportant(op) then 1 else 0)
  {
  }

  lemma RecordedTallies(c: Config, t: Tracer, span: Span, log: LogStep, stored: Option<Word>, db: Storage, op: Op,
                        a: Address, slot: Word)
    requires !t.stopCollecting && !Opens(t, c, log) && t.levels != [] && 1 <= log.depth
    requires Tallies(c, Current(t), span, op, a, slot) && Remembers(t, span)
    ensures var t', span' := StepResult(c, t, log, db).tracer, Longer(span, Execute(log, stored));
            t'.levels != [] && Tallies(c, Current(t'), span', op, a, slot) && Remembers(t', span')
  {
    hide StepResult, Times, TimesAt, TimesStray, Peek, AccessOf, Opens, RunsOut, CountedOpcodes, AccessAfter, CountOf,
      TransientReads, TransientWrites, MentionsCall, StepsOf, Longer, SameCounts;
    RecordedLevel(c, t, log, db);
    var level, level' := Current(t), Current(StepResult(c, t, log, db).tracer);
    var logs := StepsOf(span);
    assert logs != [] by { StepsExist(span); }
    LongerSteps(span, Execute(log, stored));
    CountsAfter(t, level, level', log, db, op, a, slot);
    MoreOpcodes(level, level', logs, log, t.lastOp, op);
    MoreAccesses(level, level', logs, log, a, slot);
    SameOpening(span, Execute(log, stored));
  }

  lemma StepsExist(span: Span)
    ensures StepsOf(span) != []
  {
  }

  lemma SameOpening(span: Span, x: Moment)
    ensures Longer(span, x).opening == span.opening
  {
  }

  lemma CountsAfter(t: Tracer, level: Level, level': Level, log: LogStep, db: Storage, op: Op, a: Address, slot: Word)
    requires if log.depth == 1 then level'.opcodes == level.opcodes && level'.access == level.access
             else
               && level'.opcodes == CountedOpcodes(level.opcodes, t.lastOp, log.op)
               && level'.access == AccessAfter(level, log, db)
    requires 1 <= log.depth
    ensures CountOf(level', GAS)
         == CountOf(level, GAS) + (if 1 < log.depth && StrayPair(t.lastOp, log.op) then 1 else 0)
    ensures op != GAS ==>
              CountOf(level', op)
              == CountOf(level, op) + (if 1 < log.depth && log.op == op && !IsUnimportant(op) then 1 else 0)
    ensures var hit := 1 < log.depth && log.contract == a && Peek(log.stack, 0) == slot;
            && TransientReads(level', a, slot)
               == TransientReads(level, a, slot) + (if log.op == TLOAD && hit then 1 else 0)
            && TransientWrites(level', a, slot)
               == TransientWrites(level, a, slot) + (if log.op == TSTORE && hit then 1 else 0)
  {
    hide CountedOpcodes, AccessAfter, Peek, StrayPair;
    if 1 < log.depth {
      AccessCounts(level, level', log, db, a, slot);
      OpcodeCounts(level, level', t.lastOp, log, op);
      hide CountOf, TransientReads, TransientWrites;
    }
  }

  /** The opcode counters move with the steps. */
  lemma MoreOpcodes(level: Level, level': Level, logs: seq<LogStep>, log: LogStep, last: Option<Op>, op: Op)
    requires logs != [] && last == (if 1 < logs[|logs| - 1].depth then Some(logs[|logs| - 1].op) else None)
    requires op != GAS && !IsUnimportant(op) ==> CountOf(level, op) == Times(logs, op)
    requires IsUnimportant(op) ==> CountOf(level, op) == 0
    requires CountOf(level, GAS) == TimesStray(logs)
    requires CountOf(level', GAS) == CountOf(level, GAS) + (if 1 < log.depth && StrayPair(last, log.op) then 1 else 0)
    requires op != GAS ==>
               CountOf(level', op)
               == CountOf(level, op) + (if 1 < log.depth && log.op == op && !IsUnimportant(op) then 1 else 0)
    ensures op != GAS && !IsUnimportant(op) ==> CountOf(level', op) == Times(logs + [log], op)
    ensures IsUnimportant(op) ==> CountOf(level', op) == 0
    ensures CountOf(level', GAS) == TimesStray(logs + [log])
  {
    hide CountOf, MentionsCall;
    TimesNext(logs, log, op, [], 0);
    hide Times, TimesAt, TimesStray;
  }

  lemma MoreAccesses(level: Level, level': Level, logs: seq<LogStep>, log: LogStep, a: Address, slot: Word)
    requires logs != []
    requires TransientReads(level, a, slot) == TimesAt(logs, TLOAD, a, slot)
    requires TransientWrites(level, a, slot) == TimesAt(logs, TSTORE, a, slot)
    requires var hit := 1 < log.depth && log.contract == a && Peek(log.stack, 0) == slot;
             && TransientReads(level', a, slot)
                == TransientReads(level, a, slot) + (if log.op == TLOAD && hit then 1 else 0)
             && TransientWrites(level', a, slot)
                == TransientWrites(level, a, slot) + (if log.op == TSTORE && hit then 1 else 0)
    ensures TransientReads(level', a, slot) == TimesAt(logs + [log], TLOAD, a, slot)
    ensures TransientWrites(level', a, slot) == TimesAt(logs + [log], TSTORE, a, slot)
  {
    hide TransientReads, TransientWrites, Peek;
    TimesNext(logs, log, TLOAD, a, slot);
    TimesNext(logs, log, TSTORE, a, slot);
    hide Times, TimesAt, TimesStray;
  }

  lemma FrameTallies(c: Config, level: Level, span: Span, x: Moment, op: Op, a: Address, slot: Word)
    requires !x.Execute? && Tallies(c, level, span, op, a, slot)
    ensures Tallies(c, level, Longer(span, x), op, a, slot)
  {
    LongerSteps(span, x);
  }

  // ---- One moment ----

  /** Only the last stretch grows, and its level with it. */
  lemma LastGrows(c: Config, sc: Scene, sc': Scene, x: Moment, op: Op, a: Address, slot: Word)
    requires Counting(c, sc, op, a, slot) && sc.spans != [] && !sc.tracer.stopCollecting
    requires var n := |sc.spans| - 1;
             && |sc'.tracer.levels| == n + 1 && sc'.spans == sc.spans[n := Longer(sc.spans[n], x)]
             && (forall k | 0 <= k < n :: sc'.tracer.levels[k] == sc.tracer.levels[k])
             && sc'.tracer.levels[n].outOfGas == (sc.tracer.levels[n].outOfGas || Exhausts(x))
             && Tallies(c, sc'.tracer.levels[n], sc'.spans[n], op, a, slot) && Remembers(sc'.tracer, sc'.spans[n])
    ensures Counting(c, sc', op, a, slot)
  {
    hide Tallies, Remembers, Exhausts, RunsOut, Flagged, StepsOf;
    FlagsGrow(sc.tracer.levels, sc'.tracer.levels, sc.spans, sc'.spans, x);
    hide Longer;
  }

  lemma FlagsGrow(levels: seq<Level>, levels': seq<Level>, spans: seq<Span>, spans': seq<Span>, x: Moment)
    requires |levels| == |spans| == |levels'| && spans != []
    requires forall k | 0 <= k < |spans| :: Flagged(levels, spans, k)
    requires var n := |spans| - 1;
             && spans' == spans[n := Longer(spans[n], x)] && (forall k | 0 <= k < n :: levels'[k] == levels[k])
             && levels'[n].outOfGas == (levels[n].outOfGas || Exhausts(x))
    ensures forall k | 0 <= k < |spans| :: Flagged(levels', spans', k)
  {
    FlagNext(spans[|spans| - 1], x);
    hide Exhausts, RunsOut;
    forall k | 0 <= k < |spans|
      ensures Flagged(levels', spans', k)
    {
      assert Flagged(levels, spans, k);
    }
  }

  /** A level is added, and the one before it marked if the call cannot be paid for. */
  lemma OneMore(c: Config, sc: Scene, sc': Scene, span: Span, op: Op, a: Address, slot: Word)
    requires Counting(c, sc, op, a, slot) && span.moments == [] && StartsLevel(span.opening.op)
    requires var n := |sc.spans|;
             && |sc'.tracer.levels| == n + 1 && sc'.spans == sc.spans + [span]
             && (forall k | 0 <= k < n - 1 :: sc'.tracer.levels[k] == sc.tracer.levels[k])
             && (n != 0 ==>
                   && SameCounts(sc.tracer.levels[n - 1], sc'.tracer.levels[n - 1])
                   && sc'.tracer.levels[n - 1].outOfGas == (sc.tracer.levels[n - 1].outOfGas || RunsOut(span.opening)))
             && !sc'.tracer.levels[n].outOfGas
             && Tallies(c, sc'.tracer.levels[n], span, op, a, slot) && Remembers(sc'.tracer, span)
    ensures Counting(c, sc', op, a, slot)
  {
    hide Tallies, Remembers, RunsOut, SameCounts, Flagged;
    var n := |sc.spans|;
    if n != 0 {
      assert Tallies(c, sc.tracer.levels[n - 1], sc.spans[n - 1], op, a, slot);
      SameTallies(c, sc.tracer.levels[n - 1], sc'.tracer.levels[n - 1], sc.spans[n - 1], op, a, slot);
    }
    FlagsExtend(sc.tracer.levels, sc'.tracer.levels, sc.spans, span);
  }

  lemma FlagsExtend(levels: seq<Level>, levels': seq<Level>, spans: seq<Span>, span: Span)
    requires |levels| == |spans| && |levels'| == |spans| + 1 && span.moments == []
    requires forall k | 0 <= k < |spans| :: Flagged(levels, spans, k)
    requires var n := |spans|;
             && (forall k | 0 <= k < n - 1 :: levels'[k] == levels[k])
             && (n != 0 ==> levels'[n - 1].outOfGas == (levels[n - 1].outOfGas || RunsOut(span.opening)))
             && !levels'[n].outOfGas
    ensures forall k | 0 <= k <= |spans| :: Flagged(levels', spans + [span], k)
  {
    hide RunsOut;
    forall k | 0 <= k <= |spans|
      ensures Flagged(levels', spans + [span], k)
    {
      if k < |spans| {
        assert Flagged(levels, spans, k);
      }
    }
  }

  lemma SameTallies(c: Config, level: Level, level': Level, span: Span, op: Op, a: Address, slot: Word)
    requires SameCounts(level, level') && Tallies(c, level, span, op, a, slot)
    ensures Tallies(c, level', span, op, a, slot)
  {
  }

  lemma FrameCounts(c: Config, sc: Scene, x: Moment, op: Op, a: Address, slot: Word)
    requires Possible(c, sc, x) && Counting(c, sc, op, a, slot) && !x.Execute?
    ensures Counting(c, After(c, sc, x), op, a, slot)
  {
    hide Tallies, Flagged, Remembers;
    var sc' := After(c, sc, x);
    assert sc'.tracer == sc.tracer;
    if sc.tracer.stopCollecting || sc.spans == [] {
      assert sc'.spans == sc.spans;
    } else {
      var last := |sc.spans| - 1;
      FrameTallies(c, sc.tracer.levels[last], sc.spans[last], x, op, a, slot);
      assert Remembers(sc.tracer, Longer(sc.spans[last], x)) by {
        LongerSteps(sc.spans[last], x);
        SameMemory(sc.tracer, sc.spans[last], Longer(sc.spans[last], x));
      }
      LastGrows(c, sc, sc', x, op, a, slot);
    }
  }

  lemma SameMemory(t: Tracer, span: Span, span': Span)
    requires Remembers(t, span) && StepsOf(span') == StepsOf(span)
    ensures Remembers(t, span')
  {
  }

  lemma OpeningCounts(c: Config, sc: Scene, x: Moment, op: Op, a: Address, slot: Word)
    requires Possible(c, sc, x) && Counting(c, sc, op, a, slot) && x.Execute? && Opens(sc.tracer, c, x.log)
    ensures Counting(c, After(c, sc, x), op, a, slot)
  {
    hide StepResult, Tallies, Flagged, Remembers, RunsOut, Counting;
    var sc', n := After(c, sc, x), |sc.spans|;
    var span := Span(x.log, sc.machine.storage, |sc.machine.snapshots|, []);
    assert n == |sc.tracer.levels| by { SameLengths(c, sc, op, a, slot); }
    OpenedLevel(c, sc.tracer, x.log, sc.machine.storage);
    OpenedTallies(c, sc'.tracer.levels[n], x.log, sc.machine.storage, |sc.machine.snapshots|, op, a, slot);
    assert Remembers(sc'.tracer, span) by { FirstMemory(sc'.tracer, span); }
    OneMore(c, sc, sc', span, op, a, slot);
  }

  lemma SameLengths(c: Config, sc: Scene, op: Op, a: Address, slot: Word)
    requires Counting(c, sc, op, a, slot)
    ensures |sc.spans| == |sc.tracer.levels|
    ensures sc.spans != [] ==>
              Tallies(c, Current(sc.tracer), sc.spans[|sc.spans| - 1], op, a, slot)
    ensures sc.spans != [] && !sc.tracer.stopCollecting ==> Remembers(sc.tracer, sc.spans[|sc.spans| - 1])
  {
    hide Tallies, Flagged, Remembers;
  }

  lemma FirstMemory(t: Tracer, span: Span)
    requires span.moments == [] && t.lastOp == (if 1 < span.opening.depth then Some(span.opening.op) else None)
    ensures Remembers(t, span)
  {
    assert StepsOf(span) == [span.opening];
  }

  lemma RecordingCounts(c: Config, sc: Scene, x: Moment, op: Op, a: Address, slot: Word)
    requires Possible(c, sc, x) && Counting(c, sc, op, a, slot) && x.Execute?
    requires !sc.tracer.stopCollecting && !Opens(sc.tracer, c, x.log) && sc.tracer.levels != []
    ensures Counting(c, After(c, sc, x), op, a, slot)
  {
    hide StepResult, Tallies, Flagged, Remembers, RunsOut, Counting, Opens;
    SameLengths(c, sc, op, a, slot);
    var sc', n := After(c, sc, x), |sc.spans| - 1;
    RecordedLevel(c, sc.tracer, x.log, sc.machine.storage);
    RecordedTallies(c, sc.tracer, sc.spans[n], x.log, x.stored, sc.machine.storage, op, a, slot);
    ExhaustsIff(x);
    LastGrows(c, sc, sc', x, op, a, slot);
  }

  lemma ExhaustsIff(x: Moment)
    requires x.Execute?
    ensures Exhausts(x) <==> RunsOut(x.log)
  {
  }

  lemma AfterCounts(c: Config, sc: Scene, x: Moment, op: Op, a: Address, slot: Word)
    requires Possible(c, sc, x) && Counting(c, sc, op, a, slot)
    ensures Counting(c, After(c, sc, x), op, a, slot)
  {
    hide Counting;
    if !x.Execute? {
      FrameCounts(c, sc, x, op, a, slot);
    } else if sc.tracer.stopCollecting {
      StoppedCounts(c, sc, x, op, a, slot);
    } else if Opens(sc.tracer, c, x.log) {
      OpeningCounts(c, sc, x, op, a, slot);
    } else if sc.tracer.levels != [] {
      RecordingCounts(c, sc, x, op, a, slot);
    } else {
      LevellessCounts(c, sc, x, op, a, slot);
    }
  }

  lemma StoppedCounts(c: Config, sc: Scene, x: Moment, op: Op, a: Address, slot: Word)
    requires Possible(c, sc, x) && Counting(c, sc, op, a, slot) && x.Execute? && sc.tracer.stopCollecting
    ensures Counting(c, After(c, sc, x), op, a, slot)
  {
    hide Tallies, Flagged;
    assert After(c, sc, x).spans == sc.spans && After(c, sc, x).tracer == sc.tracer;
  }

  lemma LevellessCounts(c: Config, sc: Scene, x: Moment, op: Op, a: Address, slot: Word)
    requires Possible(c, sc, x) && Counting(c, sc, op, a, slot) && x.Execute?
    requires !sc.tracer.stopCollecting && !Opens(sc.tracer, c, x.log) && sc.tracer.levels == []
    ensures Counting(c, After(c, sc, x), op, a, slot)
  {
    OpensIff(c, sc.tracer, x.log, sc.machine.storage);
    hide StepResult, Tallies, Flagged;
  }

  // ---- Whole traces ----

  lemma {:induction false} PlayedCounts(c: Config, storage: Storage, xs: seq<Moment>, op: Op, a: Address, slot: Word)
    requires PossibleTrace(c, storage, xs)
    ensures Counting(c, Played(c, storage, xs), op, a, slot)
    decreases |xs|
  {
    hide After, Possible;
    if xs != [] {
      PlayedCounts(c, storage, xs[..|xs| - 1], op, a, slot);
      hide Counting;
      AfterCounts(c, Played(c, storage, xs[..|xs| - 1]), xs[|xs| - 1], op, a, slot);
    }
  }

  /**
   * Each level of a trace counts its own stretch: the call at n that opened it and the moments up to m. Its target is
   * the address called; an opcode's count is the number of steps below depth one that execute it, of GAS only those
   * that no call follows, and of the unimportant ones none; and transient accesses are counted
   * slot by slot.
   */
  lemma EveryLevelCounts(c: Config, storage: Storage, xs: seq<Moment>, k: nat, op: Op, a: Address, slot: Word)
      returns (n: nat, m: nat)
    requires PossibleTrace(c, storage, xs) && k < |Played(c, storage, xs).tracer.levels|
    ensures n < m <= |xs| && OpensAt(c, storage, xs, k, n) && EndsAt(c, storage, xs, k, m)
    ensures var level, steps := Played(c, storage, xs).tracer.levels[k], [xs[n].log] + Logs(xs[n + 1..m]);
            && level.target == c.toAddress(Peek(xs[n].log.stack, 1))
            && (op != GAS && !IsUnimportant(op) ==> CountOf(level, op) == Times(steps, op))
            && (IsUnimportant(op) ==> CountOf(level, op) == 0)
            && CountOf(level, GAS) == TimesStray(steps)
            && TransientReads(level, a, slot) == TimesAt(steps, TLOAD, a, slot)
            && TransientWrites(level, a, slot) == TimesAt(steps, TSTORE, a, slot)
  {
    hide Played, PossibleTrace;
    PlayedCounts(c, storage, xs, op, a, slot);
    n, m := SpanIsStretch(c, storage, xs, k);
    var sc := Played(c, storage, xs);
    assert Tallies(c, sc.tracer.levels[k], sc.spans[k], op, a, slot);
  }

  /** A level is marked when a step of its stretch, or the call at p that opens the next level, cannot be paid for. */
  lemma EveryLevelFlagged(c: Config, storage: Storage, xs: seq<Moment>, k: nat) returns (n: nat, m: nat, p: nat)
    requires PossibleTrace(c, storage, xs) && k < |Played(c, storage, xs).tracer.levels|
    ensures n < m <= |xs| && OpensAt(c, storage, xs, k, n) && EndsAt(c, storage, xs, k, m)
    ensures var levels := Played(c, storage, xs).tracer.levels;
            && (k + 1 < |levels| ==> OpensAt(c, storage, xs, k + 1, p))
            && (levels[k].outOfGas <==>
                  (exists x <- xs[n + 1..m] :: Exhausts(x)) || (k + 1 < |levels| && Exhausts(xs[p])))
  {
    hide Played, PossibleTrace;
    PlayedCounts(c, storage, xs, GAS, [], 0);
    n, m := SpanIsStretch(c, storage, xs, k);
    var sc := Played(c, storage, xs);
    assert Flagged(sc.tracer.levels, sc.spans, k);
    p := 0;
    if k + 1 < |sc.spans| {
      var end: nat;
      p, end := SpanIsStretch(c, storage, xs, k + 1);
    }
  }

  /** Collecting stops exactly at the first LOG1 of the EntryPoint with the agreed topic. */
  lemma {:induction false} StopsAtTopic(c: Config, storage: Storage, xs: seq<Moment>)
    requires PossibleTrace(c, storage, xs)
    ensures Played(c, storage, xs).tracer.stopCollecting <==>
              exists x <- xs ::
                x.Execute? && x.log.depth == 1 && x.log.op == LOG1 && Peek(x.log.stack, 2) == c.stopCollectingTopic
    decreases |xs|
  {
    hide StepResult, Peek;
    if xs != [] {
      var init, x := xs[..|xs| - 1], xs[|xs| - 1];
      var sc := Played(c, storage, init);
      StopsAtTopic(c, storage, init);
      assert xs == init + [x];
      assert forall y :: y in xs <==> y in init || y == x;
      if x.Execute? {
        OpensIff(c, sc.tracer, x.log, sc.machine.storage);
      }
    }
  }
}
