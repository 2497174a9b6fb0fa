/** Which entity the walk holds responsible for a frame, and which storage it records. */
module Attribution {
  import opened Basics
  import opened CallTraces
  import opened StorageMaps
  import opened RuleChecker

  // ---- The frames of a walk, each with the entity held when it is checked ----

  /** The checked frames in order, the entity held at the end, and the unknown address that stopped the walk. */
  datatype Walk = Walk(frames: seq<Frame>, who: Who, lost: Option<Address>)

  /** The walk of the mutable field: every frame finds the entity the frame before it left behind. */
  function Held(run: Run, call: Call, depth: nat, context: Address, who: Who): Walk
    decreases call, 1
  {
    if SelfCall(run, call) then Walk([], who, None)
    else
      match Entered(run, call, who)
      case None => Walk([], who, Some(call.to))
      case Some(me) =>
        var rest := HeldAll(run, call.calls, depth + 1, context, me);
        Walk([Frame(run, me, call, depth, context)] + rest.frames, rest.who, rest.lost)
  }

  function HeldAll(run: Run, calls: seq<Call>, depth: nat, context: Address, who: Who): Walk
    decreases calls, 0
  {
    if calls == [] then Walk([], who, None)
    else
      var first := Held(run, calls[0], depth, ChildContext(calls[0], context), who);
      if first.lost.Some? then first
      else
        var rest := HeldAll(run, calls[1..], depth, context, first.who);
        Walk(first.frames + rest.frames, rest.who, rest.lost)
  }

  /** The entities as the tree defines them: a frame that is no boundary frame has the entity of its parent. */
  function Inherited(run: Run, call: Call, depth: nat, context: Address, who: Who): Walk
    decreases call, 1
  {
    if SelfCall(run, call) then Walk([], who, None)
    else
      match Entered(run, call, who)
      case None => Walk([], who, Some(call.to))
      case Some(me) =>
        var rest := InheritedAll(run, call.calls, depth + 1, context, me);
        Walk([Frame(run, me, call, depth, context)] + rest.frames, who, rest.lost)
  }

  function InheritedAll(run: Run, calls: seq<Call>, depth: nat, context: Address, who: Who): Walk
    decreases calls, 0
  {
    if calls == [] then Walk([], who, None)
    else
      var first := Inherited(run, calls[0], depth, ChildContext(calls[0], context), who);
      if first.lost.Some? then first
      else
        var rest := InheritedAll(run, calls[1..], depth, context, who);
        Walk(first.frames + rest.frames, who, rest.lost)
  }

  // ---- The walk judges exactly the held frames ----

  ghost function JudgeFrames(frames: seq<Frame>, bail: bool, found: Findings): Outcome<Findings>
    decreases frames
  {
    if frames == [] then Returned(found)
    else
      match FrameOutcome(frames[0], bail, found)
      case Threw(e, vs) => Threw(e, vs)
      case Returned(found') => JudgeFrames(frames[1..], bail, found')
  }

  /** The frames are judged one after the other; a walk that got lost fails once they are through. */
  ghost function Judge(w: Walk, bail: bool, found: Findings): Outcome<WalkState> {
    match JudgeFrames(w.frames, bail, found)
    case Threw(e, vs) => Threw(e, vs)
    case Returned(found') =>
      if w.lost.Some? then Threw(UnknownEntity(w.lost.value), found'.violations)
      else Returned(WalkState(w.who, found'))
  }

  lemma {:induction false} JudgeConcat(xs: seq<Frame>, ys: seq<Frame>, bail: bool, found: Findings)
    ensures JudgeFrames(xs + ys, bail, found) ==
              match JudgeFrames(xs, bail, found)
              case Threw(e, vs) => Threw(e, vs)
              case Returned(found') => JudgeFrames(ys, bail, found')
    decreases xs
  {
    hide FrameOutcome;
    if xs == [] {
      assert xs + ys == ys;
    } else {
      assert (xs + ys)[0] == xs[0] && (xs + ys)[1..] == xs[1..] + ys;
      match FrameOutcome(xs[0], bail, found)
      case Threw(_, _) =>
      case Returned(found') => JudgeConcat(xs[1..], ys, bail, found');
    }
  }

  /** The recursive walk with its mutable field is the judgement of its held frames, one after the other. */
  lemma {:induction false} VisitJudgesHeld(run: Run, bail: bool, call: Call, depth: nat, context: Address, s: WalkState)
    ensures Visit(run, bail, call, depth, context, s) == Judge(Held(run, call, depth, context, s.who), bail, s.found)
    decreases call, 1
  {
    hide FrameOutcome;
    if !SelfCall(run, call) && Entered(run, call, s.who).Some? {
      var me := Entered(run, call, s.who).value;
      var f := Frame(run, me, call, depth, context);
      var rest := HeldAll(run, call.calls, depth + 1, context, me);
      assert ([f] + rest.frames)[1..] == rest.frames;
      match FrameOutcome(f, bail, s.found)
      case Threw(_, _) =>
      case Returned(found) =>
        VisitAllJudgesHeld(run, bail, call.calls, depth + 1, context, WalkState(me, found));
    }
  }

  lemma {:induction false} VisitAllJudgesHeld(run: Run, bail: bool, calls: seq<Call>, depth: nat, context: Address,
                                              s: WalkState)
    ensures VisitAll(run, bail, calls, depth, context, s)
         == Judge(HeldAll(run, calls, depth, context, s.who), bail, s.found)
    decreases calls, 0
  {
    hide FrameOutcome;
    if calls != [] {
      var ctx := ChildContext(calls[0], context);
      VisitJudgesHeld(run, bail, calls[0], depth, ctx, s);
      var first := Held(run, calls[0], depth, ctx, s.who);
      var rest := HeldAll(run, calls[1..], depth, context, first.who);
      JudgeConcat(first.frames, rest.frames, bail, s.found);
      var o := Visit(run, bail, calls[0], depth, ctx, s);
      if o.Returned? {
        VisitAllJudgesHeld(run, bail, calls[1..], depth, context, o.state);
      }
    }
  }

  // ---- When the held entities are the inherited ones ----

  /** The entity of the last boundary frame in the list; who when there is none. */
  function EntityAfter(run: Run, frames: seq<Call>, who: Who): Who {
    if frames == [] then who
    else
      var last := frames[|frames| - 1];
      if Boundary(run, last) && Classified(run, last).Some? then Classified(run, last).value
      else EntityAfter(run, frames[..|frames| - 1], who)
  }

  predicate AllKnown(run: Run, frames: seq<Call>) {
    forall f <- frames :: Boundary(run, f) ==> Classified(run, f).Some?
  }

  /**
   * Wherever a frame that is no boundary frame follows siblings, the last boundary frame among the siblings and below
   * them has the entity of the parent. Nothing is asked for after a frame that stops the walk.
   */
  predicate Undisturbed(run: Run, call: Call, who: Who)
    decreases call, 1
  {
    SelfCall(run, call) || Entered(run, call, who).None?
    || UndisturbedAll(run, [], call.calls, Entered(run, call, who).value)
  }

  predicate UndisturbedAll(run: Run, before: seq<Call>, calls: seq<Call>, me: Who)
    decreases calls, 0
  {
    calls == [] ||
    (&& (SelfCall(run, calls[0]) || Boundary(run, calls[0]) || EntityAfter(run, before, me) == me)
     && Undisturbed(run, calls[0], me)
     && (AllKnown(run, Visited(run, calls[0])) ==>
           UndisturbedAll(run, before + Visited(run, calls[0]), calls[1..], me)))
  }

  lemma {:induction false} EntityAfterConcat(run: Run, xs: seq<Call>, ys: seq<Call>, who: Who)
    ensures EntityAfter(run, xs + ys, who) == EntityAfter(run, ys, EntityAfter(run, xs, who))
  {
    if ys == [] {
      assert xs + ys == xs;
    } else {
      assert (xs + ys)[..|xs + ys| - 1] == xs + ys[..|ys| - 1];
      EntityAfterConcat(run, xs, ys[..|ys| - 1], who);
    }
  }

  lemma AllKnownConcat(run: Run, xs: seq<Call>, ys: seq<Call>)
    ensures AllKnown(run, xs + ys) <==> AllKnown(run, xs) && AllKnown(run, ys)
  {
    assert forall f :: f in xs + ys <==> f in xs || f in ys;
  }

  /** The field holds the entity of the last boundary frame entered, and the walk gets lost at an unknown one only. */
  lemma {:induction false} HeldIsLastBoundary(run: Run, call: Call, depth: nat, context: Address, who: Who)
    ensures var w := Held(run, call, depth, context, who);
            && (w.lost.None? <==> AllKnown(run, Visited(run, call)))
            && (w.lost.None? ==> w.who == EntityAfter(run, Visited(run, call), who))
    decreases call, 1
  {
    if !SelfCall(run, call) {
      var below := VisitedAll(run, call.calls);
      EntityAfterConcat(run, [call], below, who);
      AllKnownConcat(run, [call], below);
      assert [call][..0] == [];
      if Entered(run, call, who).Some? {
        HeldAllIsLastBoundary(run, call.calls, depth + 1, context, Entered(run, call, who).value);
      } else {
        assert call in Visited(run, call);
      }
    }
  }

  lemma {:induction false} HeldAllIsLastBoundary(run: Run, calls: seq<Call>, depth: nat, context: Address, who: Who)
    ensures var w := HeldAll(run, calls, depth, context, who);
            && (w.lost.None? <==> AllKnown(run, VisitedAll(run, calls)))
            && (w.lost.None? ==> w.who == EntityAfter(run, VisitedAll(run, calls), who))
    decreases calls, 0
  {
    if calls != [] {
      var ctx := ChildContext(calls[0], context);
      var first, rest := Visited(run, calls[0]), VisitedAll(run, calls[1..]);
      HeldIsLastBoundary(run, calls[0], depth, ctx, who);
      EntityAfterConcat(run, first, rest, who);
      AllKnownConcat(run, first, rest);
      HeldAllIsLastBoundary(run, calls[1..], depth, context, Held(run, calls[0], depth, ctx, who).who);
    }
  }

  /** Both walks check the same frames and get lost at the same address; only the entities can differ. */
  lemma {:induction false} SameShape(run: Run, call: Call, depth: nat, context: Address, held: Who, inherited: Who)
    ensures var w, l := Held(run, call, depth, context, held), Inherited(run, call, depth, context, inherited);
            |w.frames| == |l.frames| && w.lost == l.lost
    decreases call, 1
  {
    if !SelfCall(run, call) && Entered(run, call, held).Some? {
      SameShapeAll(run, call.calls, depth + 1, context, Entered(run, call, held).value,
                   Entered(run, call, inherited).value);
    }
  }

  lemma {:induction false} SameShapeAll(run: Run, calls: seq<Call>, depth: nat, context: Address, held: Who,
                                        inherited: Who)
    ensures var w, l := HeldAll(run, calls, depth, context, held), InheritedAll(run, calls, depth, context, inherited);
            |w.frames| == |l.frames| && w.lost == l.lost
    decreases calls, 0
  {
    if calls != [] {
      var ctx := ChildContext(calls[0], context);
      SameShape(run, calls[0], depth, ctx, held, inherited);
      SameShapeAll(run, calls[1..], depth, context, Held(run, calls[0], depth, ctx, held).who, inherited);
    }
  }

  /**
   * The field holds the inherited entity at every visited frame if and only if no frame is disturbed by the siblings
   * before it.
   */
  lemma {:induction false} HeldIsInheritedIff(run: Run, call: Call, depth: nat, context: Address, who: Who)
    ensures Held(run, call, depth, context, who).frames == Inherited(run, call, depth, context, who).frames
       <==> Undisturbed(run, call, who)
    decreases call, 1
  {
    if !SelfCall(run, call) && Entered(run, call, who).Some? {
      var me := Entered(run, call, who).value;
      HeldAllIsInheritedIff(run, [], call.calls, depth + 1, context, me, me);
      SplitEqual([Frame(run, me, call, depth, context)], [Frame(run, me, call, depth, context)],
                 HeldAll(run, call.calls, depth + 1, context, me).frames,
                 InheritedAll(run, call.calls, depth + 1, context, me).frames);
    }
  }

  lemma SplitEqual<T>(a: seq<T>, b: seq<T>, c: seq<T>, d: seq<T>)
    requires |a| == |b|
    ensures a + c == b + d <==> a == b && c == d
  {
    if a + c == b + d {
      assert (a + c)[..|a|] == a && (b + d)[..|b|] == b && (a + c)[|a|..] == c && (b + d)[|b|..] == d;
    }
  }

  /** One subtree, entered with an entity that need not be the parent's. */
  lemma {:induction false} HeldAsInheritedIff(run: Run, call: Call, depth: nat, context: Address, held: Who, me: Who)
    ensures Held(run, call, depth, context, held).frames == Inherited(run, call, depth, context, me).frames
       <==> (SelfCall(run, call) || Boundary(run, call) || held == me) && Undisturbed(run, call, me)
    decreases call, 2
  {
    if SelfCall(run, call) {
    } else if Boundary(run, call) || held == me {
      assert Entered(run, call, held) == Entered(run, call, me);
      assert Held(run, call, depth, context, held).frames == Held(run, call, depth, context, me).frames;
      HeldIsInheritedIff(run, call, depth, context, me);
    } else {
      assert Held(run, call, depth, context, held).frames[0].who == held;
      assert Inherited(run, call, depth, context, me).frames[0].who == me;
    }
  }

  lemma {:induction false} HeldAllIsInheritedIff(run: Run, before: seq<Call>, calls: seq<Call>, depth: nat,
                                                 context: Address,
                                                 held: Who, me: Who)
    requires held == EntityAfter(run, before, me)
    ensures HeldAll(run, calls, depth, context, held).frames == InheritedAll(run, calls, depth, context, me).frames
       <==> UndisturbedAll(run, before, calls, me)
    decreases calls, 0
  {
    if calls != [] {
      var ctx := ChildContext(calls[0], context);
      var first, lexical := Held(run, calls[0], depth, ctx, held), Inherited(run, calls[0], depth, ctx, me);
      HeldAsInheritedIff(run, calls[0], depth, ctx, held, me);
      SameShape(run, calls[0], depth, ctx, held, me);
      HeldIsLastBoundary(run, calls[0], depth, ctx, held);
      EntityAfterConcat(run, before, Visited(run, calls[0]), me);
      if first.lost.None? {
        HeldAllIsInheritedIff(run, before + Visited(run, calls[0]), calls[1..], depth, context, first.who, me);
        SplitEqual(first.frames, lexical.frames, HeldAll(run, calls[1..], depth, context, first.who).frames,
                   InheritedAll(run, calls[1..], depth, context, me).frames);
      }
    }
  }

  // ---- Well-nested traces ----

  /** No visited frame of the tree is a boundary frame. */
  ghost predicate Quiet(run: Run, call: Call) {
    SelfCall(run, call) || (!Boundary(run, call) && forall c <- call.calls :: Quiet(run, c))
  }

  predicate RunsSystemCode(who: Option<Who>) {
    who.Some? && (who.value.entity == EntryPoint || who.value.entity == SenderCreator)
  }

  /** Below system frames all calls are boundary calls; below an entity's own frame none is. */
  ghost predicate WellNested(run: Run, call: Call) {
    || SelfCall(run, call)
    || (&& Boundary(run, call)
        && if RunsSystemCode(Classified(run, call)) then forall c <- call.calls :: WellNested(run, c)
           else forall c <- call.calls :: Quiet(run, c))
  }

  /** A quiet tree leaves the entity as it found it, and all its frames are checked with that entity. */
  lemma {:induction false} QuietHeld(run: Run, call: Call, depth: nat, context: Address, who: Who)
    requires Quiet(run, call)
    ensures Held(run, call, depth, context, who) == Inherited(run, call, depth, context, who)
    ensures var w := Held(run, call, depth, context, who);
            w.who == who && w.lost.None? && forall f <- w.frames :: f.who == who
    decreases call, 1
  {
    if !SelfCall(run, call) {
      QuietHeldAll(run, call.calls, depth + 1, context, who);
    }
  }

  lemma {:induction false} QuietHeldAll(run: Run, calls: seq<Call>, depth: nat, context: Address, who: Who)
    requires forall c <- calls :: Quiet(run, c)
    ensures HeldAll(run, calls, depth, context, who) == InheritedAll(run, calls, depth, context, who)
    ensures var w := HeldAll(run, calls, depth, context, who);
            w.who == who && w.lost.None? && forall f <- w.frames :: f.who == who
    decreases calls, 0
  {
    if calls != [] {
      QuietHeld(run, calls[0], depth, ChildContext(calls[0], context), who);
      QuietHeldAll(run, calls[1..], depth, context, who);
    }
  }

  /**
   * On a well-nested trace the entity held in the mutable field at each visited frame is that of its nearest
   * boundary ancestor or itself, although the walk never restores the field, and whatever the field held at first.
   */
  lemma {:induction false} WellNestedVisit(run: Run, call: Call, depth: nat, context: Address, held: Who,
                                           inherited: Who)
    requires WellNested(run, call)
    ensures var w, l := Held(run, call, depth, context, held), Inherited(run, call, depth, context, inherited);
            w.frames == l.frames && w.lost == l.lost
    decreases call, 1
  {
    if !SelfCall(run, call) && Classified(run, call).Some? {
      var me := Classified(run, call).value;
      if RunsSystemCode(Some(me)) {
        WellNestedVisitAll(run, call.calls, depth + 1, context, me, me);
      } else {
        QuietHeldAll(run, call.calls, depth + 1, context, me);
      }
    }
  }

  lemma {:induction false} WellNestedVisitAll(run: Run, calls: seq<Call>, depth: nat, context: Address, held: Who,
                                              inherited: Who)
    requires forall c <- calls :: WellNested(run, c)
    ensures var w, l := HeldAll(run, calls, depth, context, held), InheritedAll(run, calls, depth, context, inherited);
            w.frames == l.frames && w.lost == l.lost
    decreases calls, 0
  {
    if calls != [] {
      var ctx := ChildContext(calls[0], context);
      WellNestedVisit(run, calls[0], depth, ctx, held, inherited);
      WellNestedVisitAll(run, calls[1..], depth, context, Held(run, calls[0], depth, ctx, held).who, inherited);
    }
  }

  /** So the findings on a well-nested trace are those of the inherited entities. */
  lemma WellNestedFindings(run: Run, bail: bool, call: Call)
    requires WellNested(run, call) && call.calls != []
    ensures var o := ParseOutcome(run, bail, call);
            var l := Judge(Inherited(run, call, 0, call.to, NOBODY), bail, NO_FINDINGS);
            if l.Threw? then o == l else o.Returned? && o.state.found == l.state.found
  {
    VisitJudgesHeld(run, bail, call, 0, call.to, WalkState(NOBODY, NO_FINDINGS));
    WellNestedVisit(run, call, 0, call.to, NOBODY, NOBODY);
  }

  // ---- Without nesting the entity leaks to later siblings ----

  function PlainCall(from: Address, to: Address, outOfGas: bool, calls: seq<Call>): Call {
    Call(CALL, from, to, Fallback, None, outOfGas, [], [], [], AccessedSlots([], [], [], []), calls)
  }

  /** The account calls the SenderCreator, which calls the paymaster; then the account calls out of gas. */
  function ReentrantCall(run: Run, paymaster: Address, other: Address): Call {
    var sender, creator := run.op.sender, run.sys.senderCreator;
    PlainCall(run.sys.entryPoint, sender, false,
              [PlainCall(sender, creator, false, [PlainCall(creator, paymaster, false, [])]),
               PlainCall(sender, other, true, [])])
  }

  /** The same, as the whole trace of a validation. */
  function ReentrantTrace(run: Run, paymaster: Address, other: Address): Call {
    PlainCall(ADDRESS_ZERO, run.sys.entryPoint, false, [ReentrantCall(run, paymaster, other)])
  }

  /**
   * After the account has reached the paymaster through the SenderCreator, the field still holds the paymaster: the
   * walk blames it for the account's next frame, where the nesting says the account. The trace is disturbed.
   */
  lemma EntityLeaksToSibling(run: Run, paymaster: Address, other: Address)
    requires run.op.paymaster == Some(paymaster) && run.op.factory != Some(paymaster) && EntityStaked(run, Paymaster)
    requires DistinctParties(run, paymaster, other)
    ensures var call := ReentrantTrace(run, paymaster, other);
            var walked := ParseOutcome(run, false, call);
            var nested := Judge(Inherited(run, call, 0, call.to, NOBODY), false, NO_FINDINGS);
            && !Undisturbed(run, call, NOBODY)
            && walked.Returned? && |walked.state.found.violations| == 1
            && walked.state.found.violations[0].entity == Paymaster
            && nested.Returned? && |nested.state.found.violations| == 1
            && nested.state.found.violations[0].entity == Account
  {
    hide FrameOutcome, JudgeFrames, Held, Inherited, Visit, Undisturbed, IsPlain;
    var call := ReentrantTrace(run, paymaster, other);
    var held, inherited := Held(run, call, 0, call.to, NOBODY), Inherited(run, call, 0, call.to, NOBODY);
    VisitJudgesHeld(run, false, call, 0, call.to, WalkState(NOBODY, NO_FINDINGS));
    LeakingFramesPlain(run, paymaster, other);
    JudgePlain(held.frames, 4);
    JudgePlain(inherited.frames, 4);
    HeldIsInheritedIff(run, call, 0, call.to, NOBODY);
  }

  lemma LeakingFramesPlain(run: Run, paymaster: Address, other: Address)
    requires run.op.paymaster == Some(paymaster) && run.op.factory != Some(paymaster) && EntityStaked(run, Paymaster)
    requires DistinctParties(run, paymaster, other)
    ensures var call := ReentrantTrace(run, paymaster, other);
            var held, inherited := Held(run, call, 0, call.to, NOBODY), Inherited(run, call, 0, call.to, NOBODY);
            && held.lost.None? && inherited.lost.None? && |held.frames| == 5 && |inherited.frames| == 5
            && (forall i | 0 <= i < 5 :: IsPlain(held.frames[i]) && (held.frames[i].call.outOfGas <==> i == 4))
            && (forall i | 0 <= i < 5 ::
                  IsPlain(inherited.frames[i]) && (inherited.frames[i].call.outOfGas <==> i == 4))
            && held.frames[4].who.entity == Paymaster && inherited.frames[4].who.entity == Account
  {
    hide Held, Inherited, Op020, EntityStaked;
    LeakingTop(run, paymaster, other);
    LeakingWalks(run, paymaster, other, Who(EntryPoint, run.sys.entryPoint));
  }

  /** The whole trace starts with the frame of the EntryPoint. */
  lemma LeakingTop(run: Run, paymaster: Address, other: Address)
    requires DistinctParties(run, paymaster, other) && run.op.paymaster == Some(paymaster)
    ensures var call, inner := ReentrantTrace(run, paymaster, other), ReentrantCall(run, paymaster, other);
            var system := Who(EntryPoint, run.sys.entryPoint);
            var top := Frame(run, system, call, 0, call.to);
            var held, inherited := Held(run, inner, 1, inner.to, system), Inherited(run, inner, 1, inner.to, system);
            && Held(run, call, 0, call.to, NOBODY) == Walk([top] + held.frames, held.who, held.lost)
            && Inherited(run, call, 0, call.to, NOBODY) == Walk([top] + inherited.frames, NOBODY, inherited.lost)
  {
    var call, inner := ReentrantTrace(run, paymaster, other), ReentrantCall(run, paymaster, other);
    var system := Who(EntryPoint, run.sys.entryPoint);
    SingleWalks(run, inner, 1, call.to, system);
    assert Entered(run, call, NOBODY) == Some(system);
  }

  predicate DistinctParties(run: Run, paymaster: Address, other: Address) {
    var sender, entryPoint, creator := run.op.sender, run.sys.entryPoint, run.sys.senderCreator;
    && sender != ADDRESS_ZERO && sender != entryPoint && sender != creator && sender != paymaster
    && entryPoint != creator && entryPoint != paymaster && entryPoint != other && entryPoint != ADDRESS_ZERO
    && creator != ADDRESS_ZERO
  }

  /** The frames of both walks over that call. */
  lemma LeakingWalks(run: Run, paymaster: Address, other: Address, who: Who)
    requires run.op.paymaster == Some(paymaster) && run.op.factory != Some(paymaster)
         && DistinctParties(run, paymaster, other)
    ensures var call, sender := ReentrantCall(run, paymaster, other), run.op.sender;
            var account, pm := Who(Account, sender), Who(Paymaster, paymaster);
            var first := [Frame(run, account, call, 1, sender),
                          Frame(run, account, call.calls[0], 2, run.sys.senderCreator),
                          Frame(run, pm, call.calls[0].calls[0], 3, paymaster)];
            && Held(run, call, 1, sender, who) == Walk(first + [Frame(run, pm, call.calls[1], 2, other)], pm, None)
            && Inherited(run, call, 1, sender, who)
               == Walk(first + [Frame(run, account, call.calls[1], 2, other)], who, None)
  {
    var call, sender := ReentrantCall(run, paymaster, other), run.op.sender;
    var account, pm := Who(Account, sender), Who(Paymaster, paymaster);
    var middle, bad := call.calls[0], call.calls[1];
    var inner := middle.calls[0];
    assert call.calls[1..] == [bad];
    LeafWalks(run, inner, 3, paymaster, account);
    LeafWalks(run, bad, 2, other, pm);
    LeafWalks(run, bad, 2, other, account);
    SingleWalks(run, inner, 3, run.sys.senderCreator, account);
    SingleWalks(run, bad, 2, sender, pm);
    SingleWalks(run, bad, 2, sender, account);
    var f1 := Frame(run, account, middle, 2, run.sys.senderCreator);
    var fi := Frame(run, pm, inner, 3, paymaster);
    assert Held(run, middle, 2, run.sys.senderCreator, account) == Walk([f1, fi], pm, None);
    assert Inherited(run, middle, 2, run.sys.senderCreator, account) == Walk([f1, fi], account, None);
  }

  lemma LeafWalks(run: Run, c: Call, depth: nat, context: Address, who: Who)
    requires c.calls == [] && !SelfCall(run, c) && Entered(run, c, who).Some?
    ensures var f := Frame(run, Entered(run, c, who).value, c, depth, context);
            && Held(run, c, depth, context, who) == Walk([f], f.who, None)
            && Inherited(run, c, depth, context, who) == Walk([f], who, None)
  {
  }

  lemma SingleWalks(run: Run, c: Call, depth: nat, context: Address, who: Who)
    ensures HeldAll(run, [c], depth, context, who) == Held(run, c, depth, ChildContext(c, context), who)
    ensures InheritedAll(run, [c], depth, context, who) == Inherited(run, c, depth, ChildContext(c, context), who)
  {
    SameShape(run, c, depth, ChildContext(c, context), who, who);
    assert [c][1..] == [];
  }

  /** Plain frames of which only the one at position n is out of gas give one violation, by that frame's entity. */
  lemma {:induction false} JudgePlain(frames: seq<Frame>, n: nat)
    requires n < |frames| && forall i | 0 <= i < |frames| :: IsPlain(frames[i]) && (frames[i].call.outOfGas <==> i == n)
    ensures var o := JudgeFrames(frames, false, NO_FINDINGS);
            o.Returned? && |o.state.violations| == 1 && o.state.violations[0].entity == frames[n].who.entity
  {
    JudgePlainFrom(frames, NO_FINDINGS);
    PlainViolations(frames, n);
  }

  predicate IsPlain(f: Frame) {
    && f.call == PlainCall(f.call.from, f.call.to, f.call.outOfGas, f.call.calls)
    && (f.who.entity == Paymaster ==> EntityStaked(f.run, Paymaster))
  }

  function PlainReports(frames: seq<Frame>): seq<Violation> {
    if frames == [] then [] else Op020(frames[0]) + PlainReports(frames[1..])
  }

  lemma {:induction false} PlainViolations(frames: seq<Frame>, n: nat)
    requires forall i | 0 <= i < |frames| :: frames[i].call.outOfGas <==> i == n
    ensures if n < |frames| then |PlainReports(frames)| == 1 && PlainReports(frames)[0].entity == frames[n].who.entity
            else PlainReports(frames) == []
  {
    if frames != [] {
      if n == 0 {
        PlainViolations(frames[1..], |frames|);
      } else {
        PlainViolations(frames[1..], n - 1);
      }
    }
  }

  lemma {:induction false} JudgePlainFrom(frames: seq<Frame>, found: Findings)
    requires forall i | 0 <= i < |frames| :: IsPlain(frames[i])
    ensures var o := JudgeFrames(frames, false, found);
            o.Returned? && o.state.violations == found.violations + PlainReports(frames)
    decreases frames
  {
    hide Op020, FrameOutcome;
    if frames != [] {
      PlainFrame(frames[0], found);
      JudgePlainFrom(frames[1..], FrameOutcome(frames[0], false, found).state);
    }
  }

  /** A plain call is judged by its gas alone, whoever runs it. */
  lemma PlainFrame(f: Frame, found: Findings)
    requires IsPlain(f)
    ensures FrameOutcome(f, false, found)
         == Returned(Findings(found.violations + Op020(f), found.addresses + [f.call.to], found.storage))
  {
    assert AllSlots(f.call.slots) == [];
    assert OpcodeRules(f) == Op020(f);
    assert CallRules(f) == [] && EntityRules(f) == [];
    assert FrameViolations(f) == Op020(f);
  }

  // ---- The storage map is the footprint of the visited frames ----

  function Visited(run: Run, call: Call): seq<Call>
    decreases call, 1
  {
    if SelfCall(run, call) then [] else [call] + VisitedAll(run, call.calls)
  }

  function VisitedAll(run: Run, calls: seq<Call>): seq<Call>
    decreases calls, 0
  {
    if calls == [] then [] else Visited(run, calls[0]) + VisitedAll(run, calls[1..])
  }

  function AfterFrames(run: Run, frames: seq<Call>, storage: StorageMap): StorageMap
    decreases frames
  {
    if frames == [] then storage else AfterFrames(run, frames[1..], StorageAfter(run, frames[0], storage))
  }

  function Targets(frames: seq<Call>): seq<Address> {
    if frames == [] then [] else [frames[0].to] + Targets(frames[1..])
  }

  lemma {:induction false} AfterFramesConcat(run: Run, xs: seq<Call>, ys: seq<Call>, storage: StorageMap)
    ensures AfterFrames(run, xs + ys, storage) == AfterFrames(run, ys, AfterFrames(run, xs, storage))
    ensures Targets(xs + ys) == Targets(xs) + Targets(ys)
    decreases xs
  {
    if xs == [] {
      assert xs + ys == ys;
    } else {
      assert (xs + ys)[1..] == xs[1..] + ys;
      AfterFramesConcat(run, xs[1..], ys, StorageAfter(run, xs[0], storage));
    }
  }

  ghost predicate Recorded(run: Run, o: Outcome<WalkState>, frames: seq<Call>, found: Findings) {
    o.Returned? ==>
      && o.state.found.storage == AfterFrames(run, frames, found.storage)
      && o.state.found.addresses == found.addresses + Targets(frames)
  }

  lemma FrameRecords(f: Frame, bail: bool, found: Findings)
    requires FrameOutcome(f, bail, found).Returned?
    ensures var found' := FrameOutcome(f, bail, found).state;
            && found'.storage == StorageAfter(f.run, f.call, found.storage)
            && found'.addresses == found.addresses + [f.call.to]
  {
  }

  lemma {:induction false} VisitRecords(run: Run, bail: bool, call: Call, depth: nat, context: Address, s: WalkState)
    ensures Recorded(run, Visit(run, bail, call, depth, context, s), Visited(run, call), s.found)
    decreases call, 1
  {
    hide FrameOutcome;
    if !SelfCall(run, call) && Entered(run, call, s.who).Some? {
      var who := Entered(run, call, s.who).value;
      var f := Frame(run, who, call, depth, context);
      var o := FrameOutcome(f, bail, s.found);
      if o.Returned? {
        FrameRecords(f, bail, s.found);
        VisitAllRecords(run, bail, call.calls, depth + 1, context, WalkState(who, o.state));
        FirstFrame(run, call, VisitedAll(run, call.calls), s.found.storage);
      }
    }
  }

  lemma FirstFrame(run: Run, call: Call, frames: seq<Call>, storage: StorageMap)
    ensures AfterFrames(run, [call] + frames, storage) == AfterFrames(run, frames, StorageAfter(run, call, storage))
    ensures Targets([call] + frames) == [call.to] + Targets(frames)
  {
    assert ([call] + frames)[1..] == frames;
  }

  lemma RecordedConcat(run: Run, first: Outcome<WalkState>, o: Outcome<WalkState>, xs: seq<Call>, ys: seq<Call>,
                       found: Findings)
    requires first.Returned? && Recorded(run, first, xs, found) && Recorded(run, o, ys, first.state.found)
    ensures Recorded(run, o, xs + ys, found)
  {
    hide AfterFrames, Targets;
    AfterFramesConcat(run, xs, ys, found.storage);
    assert (found.addresses + Targets(xs)) + Targets(ys) == found.addresses + (Targets(xs) + Targets(ys));
  }

  lemma {:induction false} VisitAllRecords(run: Run, bail: bool, calls: seq<Call>, depth: nat, context: Address,
                                           s: WalkState)
    ensures Recorded(run, VisitAll(run, bail, calls, depth, context, s), VisitedAll(run, calls), s.found)
    decreases calls, 0
  {
    hide Visit, Visited;
    if calls == [] {
      assert s.found.addresses + [] == s.found.addresses;
    } else {
      var ctx := ChildContext(calls[0], context);
      VisitRecords(run, bail, calls[0], depth, ctx, s);
      var o := Visit(run, bail, calls[0], depth, ctx, s);
      if o.Returned? {
        VisitAllRecords(run, bail, calls[1..], depth, context, o.state);
        hide Recorded;
        RecordedConcat(run, o, VisitAll(run, bail, calls[1..], depth, context, o.state), Visited(run, calls[0]),
                       VisitedAll(run, calls[1..]), s.found);
      } else {
        assert VisitAll(run, bail, calls, depth, context, s).Threw?;
      }
    }
  }

  predicate Holds(storage: StorageMap, a: Address, slot: Word) {
    a in storage && storage[a].Slots? && slot in storage[a].slots
  }

  /** Only slots are recorded, and an address only with at least one slot. */
  ghost predicate SlotsOnly(storage: StorageMap) {
    forall a <- storage :: storage[a].Slots? && storage[a].slots != map[]
  }

  predicate TouchesSlot(run: Run, frame: Call, a: Address, slot: Word) {
    !SystemFrame(run, frame) && frame.to == a && slot in AllSlots(frame.slots)
  }

  lemma {:induction false} TouchedHolds(storage: StorageMap, a: Address, slots: seq<Word>, b: Address, slot: Word)
    requires SlotsOnly(storage)
    ensures SlotsOnly(Touched(storage, a, slots))
    ensures Holds(Touched(storage, a, slots), b, slot) <==> Holds(storage, b, slot) || (a == b && slot in slots)
    decreases slots
  {
    if slots != [] {
      var storage' := storage[a := Slots(SlotsAt(storage, a)[slots[0] := ""])];
      assert slots[0] in storage'[a].slots;
      TouchedHolds(storage', a, slots[1..], b, slot);
    }
  }

  lemma {:induction false} AfterFramesHolds(run: Run, frames: seq<Call>, storage: StorageMap, a: Address, slot: Word)
    requires SlotsOnly(storage)
    ensures SlotsOnly(AfterFrames(run, frames, storage))
    ensures Holds(AfterFrames(run, frames, storage), a, slot)
       <==> Holds(storage, a, slot) || exists fr <- frames :: TouchesSlot(run, fr, a, slot)
    decreases frames
  {
    if frames != [] {
      var fr := frames[0];
      if !SystemFrame(run, fr) {
        TouchedHolds(storage, fr.to, AllSlots(fr.slots), a, slot);
      }
      AfterFramesHolds(run, frames[1..], StorageAfter(run, fr, storage), a, slot);
      assert forall x :: x in frames <==> x == fr || x in frames[1..];
      if TouchesSlot(run, fr, a, slot) {
        assert exists x <- frames :: TouchesSlot(run, x, a, slot);
      }
      if x :| x in frames[1..] && TouchesSlot(run, x, a, slot) {
        assert x in frames;
      }
    }
  }

  /** In either mode, the map returned holds exactly the slots that visited frames outside system code accessed. */
  lemma StorageMapIsFootprint(run: Run, bail: bool, call: Call, a: Address, slot: Word)
    requires ParseOutcome(run, bail, call).Returned?
    ensures var found := ParseOutcome(run, bail, call).state.found;
            && SlotsOnly(found.storage)
            && (Holds(found.storage, a, slot) <==> exists fr <- Visited(run, call) :: TouchesSlot(run, fr, a, slot))
            && found.addresses == Targets(Visited(run, call))
  {
    VisitRecords(run, bail, call, 0, call.to, WalkState(NOBODY, NO_FINDINGS));
    AfterFramesHolds(run, Visited(run, call), map[], a, slot);
  }
}
