/** Whole traces from a new tracer: what each recorded level says about its own stretch of the trace. */
module TracedLevels {
  import opened Basics
  import opened StepTracer

  // ---- Playing a trace ----

  /** The part of a trace that belongs to a level: the call that opened it, storage and frames then, what followed. */
  datatype Span = Span(opening: LogStep, before: Storage, base: nat, moments: seq<Moment>)

  datatype Scene = Scene(tracer: Tracer, machine: Machine, spans: seq<Span>)

  predicate Fresh(spans: seq<Span>) {
    spans != [] && spans[|spans| - 1].moments == []
  }

  /**
   * What the EVM and the EntryPoint make possible: a step's depth counts the open frames, the code at depth one enters
   * a frame only right after the call that opens its level, and the tracer has not failed.
   */
  predicate Possible(c: Config, sc: Scene, x: Moment) {
    && CanAdvance(c, sc.tracer, sc.machine, x)
    && (x.Execute? ==> x.log.depth == |sc.machine.snapshots| + 1)
    && (x.EnterFrame? && sc.machine.snapshots == [] ==> Fresh(sc.spans))
  }

  /** A moment belongs to the level opened last, until the tracer stops collecting. */
  function After(c: Config, sc: Scene, x: Moment): Scene
    requires Possible(c, sc, x)
  {
    var (t', m') := Advance(c, sc.tracer, sc.machine, x);
    Scene(t', m',
          if |sc.tracer.levels| < |t'.levels| then
            sc.spans + [Span(x.log, sc.machine.storage, |sc.machine.snapshots|, [])]
          else if sc.tracer.stopCollecting || sc.spans == [] then sc.spans
          else
            var last := |sc.spans| - 1;
            sc.spans[last := sc.spans[last].(moments := sc.spans[last].moments + [x])])
  }

  predicate PossibleTrace(c: Config, storage: Storage, xs: seq<Moment>)
    decreases |xs|, 0
  {
    xs == [] ||
    (var init := xs[..|xs| - 1];
     PossibleTrace(c, storage, init) && Possible(c, Played(c, storage, init), xs[|xs| - 1]))
  }

  function Played(c: Config, storage: Storage, xs: seq<Moment>): Scene
    requires PossibleTrace(c, storage, xs)
    decreases |xs|, 1
  {
    if xs == [] then Scene(NEW_TRACER, Machine(storage, []), [])
    else After(c, Played(c, storage, xs[..|xs| - 1]), xs[|xs| - 1])
  }

  // ---- What a level says about its span ----

  /** Reads are pre-state values of slots first touched by an SLOAD, and the write counter counts the SSTOREs. */
  ghost predicate Says(level: Level, span: Span, a: Address, slot: Word) {
    && (IsRead(level, a, slot) ==> AccessOf(level, a).preReads[slot] == Get(span.before, a, slot))
    && (IsRead(level, a, slot) <==> FirstTouch(span.moments, a, slot) == Some(SLOAD))
    && (IsWritten(level, a, slot) <==> Stores(span.moments, a, slot) != 0)
    && WriteCount(level, a, slot) == Stores(span.moments, a, slot)
  }

  /** The machine as the level sees it: only the frames opened since it began. */
  function Since(m: Machine, base: nat): Machine
    requires base <= |m.snapshots|
  {
    m.(snapshots := m.snapshots[base..])
  }

  /** While frames are open, or nothing has happened yet, slots the last level has not stored to are unspoiled. */
  ghost predicate Live(sc: Scene, a: Address, slot: Word)
    requires sc.tracer.levels != [] && sc.spans != []
  {
    var span := sc.spans[|sc.spans| - 1];
    && span.base <= 1
    && (span.moments == [] ==> |sc.machine.snapshots| == span.base)
    && (sc.machine.snapshots != [] || span.moments == [] ==>
          Unspoiled(sc.tracer, Since(sc.machine, span.base), span.before, a, slot))
  }

  ghost predicate Faithful(sc: Scene, a: Address, slot: Word) {
    && |sc.spans| == |sc.tracer.levels|
    && (forall k | 0 <= k < |sc.spans| :: Says(sc.tracer.levels[k], sc.spans[k], a, slot))
    && (sc.spans != [] && !sc.tracer.stopCollecting ==> Live(sc, a, slot))
  }

  // ---- Reading a span from its end ----

  lemma {:induction false} FirstTouchNext(xs: seq<Moment>, x: Moment, a: Address, slot: Word)
    ensures FirstTouch(xs + [x], a, slot)
         == if FirstTouch(xs, a, slot).Some? then FirstTouch(xs, a, slot)
            else if Touches(x, a, slot) then Some(x.log.op) else None
    ensures Stores(xs + [x], a, slot)
         == Stores(xs, a, slot) + (if Touches(x, a, slot) && x.log.op == SSTORE then 1 else 0)
    ensures FirstTouch(xs, a, slot).None? ==> Stores(xs, a, slot) == 0
    ensures FirstTouch(xs, a, slot).Some? && FirstTouch(xs, a, slot) != Some(SLOAD) ==> Stores(xs, a, slot) != 0
    decreases xs
  {
    if xs == [] {
      assert xs + [x] == [x];
    } else {
      assert (xs + [x])[1..] == xs[1..] + [x] && (xs + [x])[0] == xs[0];
      FirstTouchNext(xs[1..], x, a, slot);
    }
  }

  /** A level whose tables moved as the moment says still says what its longer span is. */
  lemma SaysNext(level: Level, level': Level, span: Span, x: Moment, a: Address, slot: Word)
    requires Says(level, span, a, slot) && TablesMove(level, level', x, span.before, a, slot)
    ensures Says(level', span.(moments := span.moments + [x]), a, slot)
  {
    FirstTouchNext(span.moments, x, a, slot);
  }

  /** A moment that touches no slot of the level leaves its tables right. */
  lemma SaysUntouched(level: Level, level': Level, span: Span, x: Moment, a: Address, slot: Word)
    requires Says(level, span, a, slot) && level'.access == level.access && !Touches(x, a, slot)
    ensures Says(level', span.(moments := span.moments + [x]), a, slot)
    ensures Says(level', span, a, slot)
  {
    FirstTouchNext(span.moments, x, a, slot);
  }

  // ---- One moment ----

  /** A step at depth one opens a level or not, and marks the last one at most. */
  lemma OuterStep(c: Config, t: Tracer, m: Machine, x: Moment)
    requires x.Execute? && x.log.depth == 1 && !t.stopCollecting && CanAdvance(c, t, m, x)
    ensures var (t', m') := Advance(c, t, m, x);
            && OldLevelsKept(t, t')
            && if StartsLevel(x.log.op) then
                 |t'.levels| == |t.levels| + 1 && EmptyTables(t') && !t'.stopCollecting && m' == m
               else |t'.levels| == |t.levels|
  {
  }

  /** A step of the SenderCreator's frame that opens a level. */
  lemma CreatorStep(c: Config, t: Tracer, m: Machine, x: Moment)
    requires x.Execute? && 1 < x.log.depth && !t.stopCollecting && CanAdvance(c, t, m, x) && !Within(c, t, m, x)
    ensures var (t', m') := Advance(c, t, m, x);
            && x.log.depth == 2 && |t'.levels| == |t.levels| + 1 && EmptyTables(t') && OldLevelsKept(t, t')
            && !t'.stopCollecting && m' == m
  {
  }

  ghost predicate OldLevelsKept(t: Tracer, t': Tracer) {
    |t.levels| <= |t'.levels| && forall k | 0 <= k < |t.levels| :: t'.levels[k].access == t.levels[k].access
  }

  predicate EmptyTables(t: Tracer) {
    t.levels != [] && Current(t).access == map[]
  }

  /** A step below depth one before any level is open. */
  lemma LevellessStep(c: Config, t: Tracer, m: Machine, x: Moment)
    requires x.Execute? && 1 < x.log.depth && !t.stopCollecting && t.levels == [] && CanAdvance(c, t, m, x)
    ensures Advance(c, t, m, x).0.levels == []
  {
  }

  /** Within a level only its last table changes, and the number of levels does not. */
  lemma InnerStep(c: Config, t: Tracer, m: Machine, x: Moment)
    requires t.levels != [] && !t.stopCollecting && Within(c, t, m, x) && CanAdvance(c, t, m, x)
    ensures var t' := Advance(c, t, m, x).0;
            && |t'.levels| == |t.levels| && !t'.stopCollecting
            && forall k | 0 <= k < |t.levels| - 1 :: t'.levels[k] == t.levels[k]
  {
  }

  lemma OpeningKeeps(c: Config, sc: Scene, x: Moment, a: Address, slot: Word)
    requires Possible(c, sc, x) && Faithful(sc, a, slot) && |sc.machine.snapshots| <= 1
    requires var (t', m') := Advance(c, sc.tracer, sc.machine, x);
             && |t'.levels| == |sc.tracer.levels| + 1 && EmptyTables(t') && OldLevelsKept(sc.tracer, t')
             && m' == sc.machine
    ensures Faithful(After(c, sc, x), a, slot)
  {
    hide Advance, Possible;
    var sc' := After(c, sc, x);
    forall k | 0 <= k < |sc'.spans|
      ensures Says(sc'.tracer.levels[k], sc'.spans[k], a, slot)
    {
      if k < |sc.spans| {
        assert Says(sc.tracer.levels[k], sc.spans[k], a, slot);
        SaysUntouched(sc.tracer.levels[k], sc'.tracer.levels[k], sc.spans[k], EnterFrame, a, slot);
      }
    }
    assert sc'.machine.snapshots[|sc'.machine.snapshots|..] == [];
  }

  /** At depth one, without opening a level, the last level is over. */
  lemma OuterKeeps(c: Config, sc: Scene, x: Moment, a: Address, slot: Word)
    requires Possible(c, sc, x) && Faithful(sc, a, slot) && x.Execute? && x.log.depth == 1 && !sc.tracer.stopCollecting
    ensures Faithful(After(c, sc, x), a, slot)
  {
    OuterStep(c, sc.tracer, sc.machine, x);
    if StartsLevel(x.log.op) {
      OpeningKeeps(c, sc, x, a, slot);
    } else {
      KeptLevels(c, sc, x, a, slot);
    }
  }

  lemma KeptLevels(c: Config, sc: Scene, x: Moment, a: Address, slot: Word)
    requires Possible(c, sc, x) && Faithful(sc, a, slot) && !sc.tracer.stopCollecting && !Touches(x, a, slot)
    requires var (t', m') := Advance(c, sc.tracer, sc.machine, x);
             && |t'.levels| == |sc.tracer.levels| && OldLevelsKept(sc.tracer, t')
             && (|| sc.spans == [] || m'.snapshots == []
                 || (t' == sc.tracer && sc.spans != [] && StaysLive(sc, m', a, slot)))
    ensures Faithful(After(c, sc, x), a, slot)
  {
    hide Advance, Possible;
    var sc' := After(c, sc, x);
    forall k | 0 <= k < |sc'.spans|
      ensures Says(sc'.tracer.levels[k], sc'.spans[k], a, slot)
    {
      assert Says(sc.tracer.levels[k], sc.spans[k], a, slot);
      SaysUntouched(sc.tracer.levels[k], sc'.tracer.levels[k], sc.spans[k], x, a, slot);
    }
  }

  ghost predicate StaysLive(sc: Scene, m': Machine, a: Address, slot: Word)
    requires sc.tracer.levels != [] && sc.spans != []
  {
    var span := sc.spans[|sc.spans| - 1];
    span.base <= |m'.snapshots| && Unspoiled(sc.tracer, Since(m', span.base), span.before, a, slot)
  }

  lemma FrameKeeps(c: Config, sc: Scene, x: Moment, a: Address, slot: Word)
    requires Possible(c, sc, x) && Faithful(sc, a, slot) && !x.Execute? && !sc.tracer.stopCollecting
    ensures Faithful(After(c, sc, x), a, slot)
  {
    var m' := Advance(c, sc.tracer, sc.machine, x).1;
    if sc.spans != [] && m'.snapshots != [] {
      var base := sc.spans[|sc.spans| - 1].base;
      var m := sc.machine;
      if x.EnterFrame? {
        assert m'.snapshots[base..] == m.snapshots[base..] + [m.storage];
      } else {
        assert m'.snapshots[base..] == m.snapshots[base..][..|m.snapshots| - 1 - base];
        assert m.snapshots[|m.snapshots| - 1] == m.snapshots[base..][|m.snapshots| - 1 - base];
      }
      assert StaysLive(sc, m', a, slot);
    }
    KeptLevels(c, sc, x, a, slot);
  }

  lemma InnerKeeps(c: Config, sc: Scene, x: Moment, a: Address, slot: Word)
    requires Possible(c, sc, x) && Faithful(sc, a, slot) && x.Execute? && 1 < x.log.depth && !sc.tracer.stopCollecting
    requires sc.tracer.levels != [] && Within(c, sc.tracer, sc.machine, x)
    ensures Faithful(After(c, sc, x), a, slot)
  {
    hide StepResult, FirstTouch, Stores;
    var t, m := sc.tracer, sc.machine;
    var span := sc.spans[|sc.spans| - 1];
    var local := Since(m, span.base);
    InnerStep(c, t, m, x);
    AdvanceFacts(c, t, local, x, span.before, a, slot);
    var (t', m') := Advance(c, t, m, x);
    assert Advance(c, t, local, x) == (t', Since(m', span.base));
    assert Says(t.levels[|t.levels| - 1], span, a, slot);
    SaysNext(Current(t), Current(t'), span, x, a, slot);
    var sc' := After(c, sc, x);
    forall k | 0 <= k < |sc'.spans|
      ensures Says(sc'.tracer.levels[k], sc'.spans[k], a, slot)
    {
      assert Says(t.levels[k], sc.spans[k], a, slot);
    }
  }

  lemma AfterKeeps(c: Config, sc: Scene, x: Moment, a: Address, slot: Word)
    requires Possible(c, sc, x) && Faithful(sc, a, slot)
    ensures Faithful(After(c, sc, x), a, slot)
  {
    if sc.tracer.stopCollecting {
    } else if !x.Execute? {
      FrameKeeps(c, sc, x, a, slot);
    } else if x.log.depth == 1 {
      OuterKeeps(c, sc, x, a, slot);
    } else if !Within(c, sc.tracer, sc.machine, x) {
      CreatorStep(c, sc.tracer, sc.machine, x);
      OpeningKeeps(c, sc, x, a, slot);
    } else if sc.tracer.levels == [] {
      LevellessStep(c, sc.tracer, sc.machine, x);
    } else {
      InnerKeeps(c, sc, x, a, slot);
    }
  }

  // ---- Whole traces ----

  lemma {:induction false} PlayedFaithful(c: Config, storage: Storage, xs: seq<Moment>, a: Address, slot: Word)
    requires PossibleTrace(c, storage, xs)
    ensures Faithful(Played(c, storage, xs), a, slot)
    decreases |xs|
  {
    hide After, Possible;
    if xs != [] {
      PlayedFaithful(c, storage, xs[..|xs| - 1], a, slot);
      AfterKeeps(c, Played(c, storage, xs[..|xs| - 1]), xs[|xs| - 1], a, slot);
    }
  }

  lemma {:induction false} PossiblePrefix(c: Config, storage: Storage, xs: seq<Moment>, n: nat)
    requires PossibleTrace(c, storage, xs) && n <= |xs|
    ensures PossibleTrace(c, storage, xs[..n])
    decreases |xs|
  {
    if n < |xs| {
      PossiblePrefix(c, storage, xs[..|xs| - 1], n);
      assert xs[..|xs| - 1][..n] == xs[..n];
    } else {
      assert xs[..n] == xs;
    }
  }

  /** Position n opens level k: there are k levels before it and one more after it, and it is a call. */
  ghost predicate OpensAt(c: Config, storage: Storage, xs: seq<Moment>, k: nat, n: nat) {
    && n < |xs| && PossibleTrace(c, storage, xs[..n]) && PossibleTrace(c, storage, xs[..n + 1])
    && |Played(c, storage, xs[..n]).spans| == k && |Played(c, storage, xs[..n + 1]).spans| == k + 1
    && xs[n].Execute? && StartsLevel(xs[n].log.op)
  }

  /** Level k goes on until the next one is opened, the tracer has stopped, or the trace ends. */
  ghost predicate EndsAt(c: Config, storage: Storage, xs: seq<Moment>, k: nat, m: nat) {
    || m == |xs|
    || OpensAt(c, storage, xs, k + 1, m)
    || (m < |xs| && PossibleTrace(c, storage, xs[..m]) && Played(c, storage, xs[..m]).tracer.stopCollecting)
  }

  ghost predicate StretchAt(c: Config, storage: Storage, xs: seq<Moment>, k: nat, span: Span, n: nat, m: nat) {
    && n < m <= |xs| && OpensAt(c, storage, xs, k, n) && EndsAt(c, storage, xs, k, m)
    && (var sc := Played(c, storage, xs[..n]);
        span == Span(xs[n].log, sc.machine.storage, |sc.machine.snapshots|, xs[n + 1..m]))
  }

  lemma OpensAtLonger(c: Config, storage: Storage, xs: seq<Moment>, x: Moment, k: nat, n: nat)
    requires OpensAt(c, storage, xs, k, n)
    ensures OpensAt(c, storage, xs + [x], k, n) && (xs + [x])[..n] == xs[..n]
  {
    assert (xs + [x])[..n] == xs[..n] && (xs + [x])[..n + 1] == xs[..n + 1];
  }

  /** A longer trace leaves a finished stretch as it is. */
  lemma StretchKept(c: Config, storage: Storage, xs: seq<Moment>, x: Moment, k: nat, span: Span, n: nat, m: nat)
    requires StretchAt(c, storage, xs, k, span, n, m) && m < |xs|
    ensures StretchAt(c, storage, xs + [x], k, span, n, m)
  {
    hide Played, PossibleTrace;
    OpensAtLonger(c, storage, xs, x, k, n);
    if OpensAt(c, storage, xs, k + 1, m) {
      OpensAtLonger(c, storage, xs, x, k + 1, m);
    }
    assert (xs + [x])[..m] == xs[..m] && (xs + [x])[n + 1..m] == xs[n + 1..m];
  }

  lemma OpeningOnlyByCall(c: Config, t: Tracer, m: Machine, x: Moment)
    requires CanAdvance(c, t, m, x)
    ensures var t' := Advance(c, t, m, x).0;
            && |t'.levels| <= |t.levels| + 1
            && (|t.levels| < |t'.levels| ==> x.Execute? && StartsLevel(x.log.op) && !t.stopCollecting)
            && (t.stopCollecting ==> t'.stopCollecting)
  {
  }

  /** The stretch of the last level grows, unless the tracer has stopped or another level is opened. */
  lemma StretchNext(c: Config, storage: Storage, xs: seq<Moment>, x: Moment, k: nat, n: nat) returns (m: nat)
    requires PossibleTrace(c, storage, xs + [x]) && PossibleTrace(c, storage, xs)
         && k + 1 == |Played(c, storage, xs).spans|
    requires Possible(c, Played(c, storage, xs), x)
         && Played(c, storage, xs + [x]) == After(c, Played(c, storage, xs), x)
    requires StretchAt(c, storage, xs, k, Played(c, storage, xs).spans[k], n, |xs|)
    ensures StretchAt(c, storage, xs + [x], k, Played(c, storage, xs + [x]).spans[k], n, m)
    ensures m <= |xs| + 1
    ensures if m == |xs| + 1 then k + 1 == |Played(c, storage, xs + [x]).spans|
            else k + 1 < |Played(c, storage, xs + [x]).spans| || Played(c, storage, xs + [x]).tracer.stopCollecting
  {
    hide Played, PossibleTrace, Advance, CanAdvance;
    assert CanAdvance(c, Played(c, storage, xs).tracer, Played(c, storage, xs).machine, x) by {
      PossibleAdvances(c, Played(c, storage, xs), x);
    }
    var sc, longer := Played(c, storage, xs), xs + [x];
    OpensAtLonger(c, storage, xs, x, k, n);
    assert longer[..|xs|] == xs && longer[..|xs| + 1] == longer;
    OpeningOnlyByCall(c, sc.tracer, sc.machine, x);
    if After(c, sc, x).spans[k] == sc.spans[k] {
      m := |xs|;
      assert longer[n + 1..m] == xs[n + 1..m];
    } else {
      m := |xs| + 1;
      assert longer[n + 1..m] == xs[n + 1..|xs|] + [x];
    }
  }

  lemma {:induction false} SpanIsStretch(c: Config, storage: Storage, xs: seq<Moment>, k: nat) returns (n: nat, m: nat)
    requires PossibleTrace(c, storage, xs) && k < |Played(c, storage, xs).spans|
    ensures StretchAt(c, storage, xs, k, Played(c, storage, xs).spans[k], n, m) && m <= |xs|
    ensures if m == |xs| then k + 1 == |Played(c, storage, xs).spans|
            else k + 1 < |Played(c, storage, xs).spans| || Played(c, storage, xs).tracer.stopCollecting
    decreases |xs|
  {
    hide Advance, CanAdvance, StretchAt;
    var init, x := xs[..|xs| - 1], xs[|xs| - 1];
    var sc := Played(c, storage, init);
    assert xs == init + [x];
    assert CanAdvance(c, sc.tracer, sc.machine, x) by { PossibleAdvances(c, sc, x); }
    OpeningOnlyByCall(c, sc.tracer, sc.machine, x);
    if k == |sc.spans| {
      n, m := |init|, |xs|;
      NewStretch(c, storage, init, x);
    } else {
      n, m := SpanIsStretch(c, storage, init, k);
      if m < |init| {
        StretchKept(c, storage, init, x, k, sc.spans[k], n, m);
      } else {
        m := StretchNext(c, storage, init, x, k, n);
      }
    }
  }

  lemma NewStretch(c: Config, storage: Storage, xs: seq<Moment>, x: Moment)
    requires PossibleTrace(c, storage, xs + [x]) && PossibleTrace(c, storage, xs)
    requires Possible(c, Played(c, storage, xs), x)
         && Played(c, storage, xs + [x]) == After(c, Played(c, storage, xs), x)
    requires |Played(c, storage, xs).spans| < |Played(c, storage, xs + [x]).spans|
    ensures var k := |Played(c, storage, xs).spans|;
            StretchAt(c, storage, xs + [x], k, Played(c, storage, xs + [x]).spans[k], |xs|, |xs| + 1)
  {
    hide Played, PossibleTrace, Advance, CanAdvance;
    var sc, longer := Played(c, storage, xs), xs + [x];
    assert CanAdvance(c, sc.tracer, sc.machine, x) by { PossibleAdvances(c, sc, x); }
    OpeningOnlyByCall(c, sc.tracer, sc.machine, x);
    assert longer[..|xs|] == xs && longer[..|xs| + 1] == longer && longer[|xs| + 1..|xs| + 1] == [];
  }

  lemma PossibleAdvances(c: Config, sc: Scene, x: Moment)
    requires Possible(c, sc, x)
    ensures CanAdvance(c, sc.tracer, sc.machine, x)
  {
  }

  /** Every level has its stretch. */
  lemma LevelsCounted(c: Config, storage: Storage, xs: seq<Moment>)
    requires PossibleTrace(c, storage, xs)
    ensures |Played(c, storage, xs).spans| == |Played(c, storage, xs).tracer.levels|
  {
    PlayedFaithful(c, storage, xs, [], 0);
  }

  /**
   * For any trace of a new tracer, each recorded level belongs to the stretch of the trace from the call that opened
   * it until the next level was opened, the tracer stopped, or the trace ended. Every value the level stores as read
   * is the slot's value at that call, a slot is stored as read exactly when its first access in the stretch was an
   * SLOAD, and the write counter is the number of SSTOREs there.
   */
  lemma EveryLevelReadsPreState(c: Config, storage: Storage, xs: seq<Moment>, k: nat, a: Address, slot: Word)
      returns (n: nat, m: nat)
    requires PossibleTrace(c, storage, xs) && k < |Played(c, storage, xs).tracer.levels|
    ensures n < m <= |xs| && OpensAt(c, storage, xs, k, n) && EndsAt(c, storage, xs, k, m)
    ensures |Played(c, storage, xs[..n]).tracer.levels| == k && |Played(c, storage, xs[..n + 1]).tracer.levels| == k + 1
    ensures var level, body := Played(c, storage, xs).tracer.levels[k], xs[n + 1..m];
            && (IsRead(level, a, slot) ==>
                  AccessOf(level, a).preReads[slot] == Get(Played(c, storage, xs[..n]).machine.storage, a, slot))
            && (IsRead(level, a, slot) <==> FirstTouch(body, a, slot) == Some(SLOAD))
            && WriteCount(level, a, slot) == Stores(body, a, slot)
  {
    hide Played, PossibleTrace;
    PlayedFaithful(c, storage, xs, a, slot);
    n, m := SpanIsStretch(c, storage, xs, k);
    LevelsCounted(c, storage, xs[..n]);
    LevelsCounted(c, storage, xs[..n + 1]);
    assert Says(Played(c, storage, xs).tracer.levels[k], Played(c, storage, xs).spans[k], a, slot);
  }
}
