/** Theorems about the rule checker: its two modes, the effect of stakes, attribution, and the storage map. */
module RuleCheckerTheorems {
  import opened Basics
  import opened CallTraces
  import opened RuleChecker
  import Erc7562Parser

  // ---- Strict mode refines collecting mode ----

  function Listed(o: Outcome<WalkState>): seq<Violation> {
    match o
    case Returned(s) => s.found.violations
    case Threw(_, listed) => listed
  }

  /** What strict mode makes of a collecting outcome: its first violation if it lists any, else the same outcome. */
  function Strictly(o: Outcome<WalkState>): Outcome<WalkState> {
    if Listed(o) == [] then o else Threw(RuleViolated(Listed(o)[0]), [Listed(o)[0]])
  }

  /** The list of violations only grows. */
  lemma {:induction false} VisitExtends(run: Run, call: Call, depth: nat, context: Address, s: WalkState)
    ensures s.found.violations <= Listed(Visit(run, false, call, depth, context, s))
    decreases call, 1
  {
    if !SelfCall(run, call) && Entered(run, call, s.who).Some? {
      var who := Entered(run, call, s.who).value;
      var o := FrameOutcome(Frame(run, who, call, depth, context), false, s.found);
      if o.Returned? {
        VisitAllExtends(run, call.calls, depth + 1, context, WalkState(who, o.state));
      }
    }
  }

  lemma {:induction false} VisitAllExtends(run: Run, calls: seq<Call>, depth: nat, context: Address, s: WalkState)
    ensures s.found.violations <= Listed(VisitAll(run, false, calls, depth, context, s))
    decreases calls, 0
  {
    if calls != [] {
      VisitExtends(run, calls[0], depth, ChildContext(calls[0], context), s);
      var o := Visit(run, false, calls[0], depth, ChildContext(calls[0], context), s);
      if o.Returned? {
        VisitAllExtends(run, calls[1..], depth, context, o.state);
      }
    }
  }

  lemma StrictFrame(f: Frame, found: Findings)
    requires found.violations == []
    ensures FrameOutcome(f, true, found) ==
              match FrameOutcome(f, false, found)
              case Returned(g) =>
                if g.violations == [] then Returned(g)
                else Threw(RuleViolated(g.violations[0]), [g.violations[0]])
              case Threw(e, vs) => if vs == [] then Threw(e, vs) else Threw(RuleViolated(vs[0]), [vs[0]])
  {
    assert found.violations + FrameViolations(f) == FrameViolations(f);
  }

  lemma {:induction false} StrictVisit(run: Run, call: Call, depth: nat, context: Address, s: WalkState)
    requires s.found.violations == []
    ensures Visit(run, true, call, depth, context, s) == Strictly(Visit(run, false, call, depth, context, s))
    decreases call, 1
  {
    if !SelfCall(run, call) && Entered(run, call, s.who).Some? {
      var who := Entered(run, call, s.who).value;
      var f := Frame(run, who, call, depth, context);
      StrictFrame(f, s.found);
      match FrameOutcome(f, false, s.found)
      case Threw(_, _) =>
      case Returned(found) =>
        var s' := WalkState(who, found);
        if found.violations == [] {
          StrictVisitAll(run, call.calls, depth + 1, context, s');
        } else {
          VisitAllExtends(run, call.calls, depth + 1, context, s');
        }
    }
  }

  lemma {:induction false} StrictVisitAll(run: Run, calls: seq<Call>, depth: nat, context: Address, s: WalkState)
    requires s.found.violations == []
    ensures VisitAll(run, true, calls, depth, context, s) == Strictly(VisitAll(run, false, calls, depth, context, s))
    decreases calls, 0
  {
    if calls != [] {
      var ctx := ChildContext(calls[0], context);
      StrictVisit(run, calls[0], depth, ctx, s);
      match Visit(run, false, calls[0], depth, ctx, s)
      case Threw(_, _) =>
      case Returned(s') =>
        if s'.found.violations == [] {
          StrictVisitAll(run, calls[1..], depth, context, s');
        } else {
          VisitAllExtends(run, calls[1..], depth, context, s');
        }
    }
  }

  /**
   * Over every call tree, strict mode throws exactly the first violation collecting mode lists before any other
   * error, and otherwise ends exactly as collecting mode does: the same addresses and storage map, or the same error.
   */
  lemma StrictRefinesCollecting(run: Run, call: Call)
    ensures ParseOutcome(run, true, call) == Strictly(ParseOutcome(run, false, call))
  {
    if call.calls != [] {
      StrictVisit(run, call, 0, call.to, WalkState(NOBODY, NO_FINDINGS));
    }
  }

  // ---- Reusing one parser object ----

  /** One use of a parser object: strictly, or collecting. */
  datatype Use = Use(strict: bool, run: Run, call: Call)

  /** The flag a parser object is left with: a strict use that throws never clears it. */
  ghost function FlagAfter(bail: bool, uses: seq<Use>): bool {
    if uses == [] then bail
    else
      var init, last := uses[..|uses| - 1], uses[|uses| - 1];
      if last.strict then ParseOutcome(last.run, true, last.call).Threw? else FlagAfter(bail, init)
  }

  /** What a use answers, given the flag it finds. */
  ghost function Answer(bail: bool, use: Use): Outcome<WalkState> {
    ParseOutcome(use.run, use.strict || bail, use.call)
  }

  lemma NextUse(bail: bool, uses: seq<Use>, n: nat)
    requires n < |uses|
    ensures FlagAfter(bail, uses[..n + 1])
         == if uses[n].strict then ParseOutcome(uses[n].run, true, uses[n].call).Threw? else FlagAfter(bail, uses[..n])
  {
    assert uses[..n + 1][..n] == uses[..n];
  }

  lemma NoUses(bail: bool, uses: seq<Use>)
    ensures FlagAfter(bail, uses[..0]) == bail
  {
  }

  /** Uses one parser object again and again; each use finds the flag the ones before it left. */
  method UseAll(parser: Erc7562Parser.ERC7562Parser, uses: seq<Use>) returns (answers: seq<Outcome<WalkState>>)
    requires forall u <- uses :: u.run.sys == parser.sys
    modifies parser
    ensures parser.bailOnViolation == FlagAfter(old(parser.bailOnViolation), uses)
    ensures |answers| == |uses|
    ensures forall i | 0 <= i < |uses| ::
      answers[i] == Answer(FlagAfter(old(parser.bailOnViolation), uses[..i]), uses[i])
  {
    hide ParseOutcome, Answer, FlagAfter;
    ghost var flag := parser.bailOnViolation;
    answers := [];
    NoUses(flag, uses);
    for n := 0 to |uses|
      invariant |answers| == n
      invariant parser.bailOnViolation == FlagAfter(flag, uses[..n])
      invariant forall i | 0 <= i < n :: answers[i] == Answer(FlagAfter(flag, uses[..i]), uses[i])
    {
      assert uses[n] in uses;
      var answer := UseOnce(parser, uses[n]);
      answers := answers + [answer];
      NextUse(flag, uses, n);
    }
    assert uses[..|uses|] == uses;
  }

  method UseOnce(parser: Erc7562Parser.ERC7562Parser, use: Use) returns (answer: Outcome<WalkState>)
    requires use.run.sys == parser.sys
    modifies parser
    ensures answer == Answer(old(parser.bailOnViolation), use)
    ensures parser.bailOnViolation
         == if use.strict then ParseOutcome(use.run, true, use.call).Threw? else old(parser.bailOnViolation)
  {
    hide ParseOutcome;
    if use.strict {
      answer := parser.RequireCompliance(use.run.op, use.call, use.run.keccak, use.run.stakes);
    } else {
      answer := parser.ParseResults(use.run.op, use.call, use.run.keccak, use.run.stakes);
    }
  }

  /** A strict use answers the same whatever happened to the object before. */
  lemma StrictIgnoresHistory(bail: bool, uses: seq<Use>, run: Run, call: Call)
    ensures Answer(FlagAfter(bail, uses), Use(true, run, call)) == Strictly(ParseOutcome(run, false, call))
  {
    StrictRefinesCollecting(run, call);
  }

  lemma {:induction false} CollectingNeverBails(run: Run, call: Call, depth: nat, context: Address, s: WalkState)
    ensures Visit(run, false, call, depth, context, s).Threw?
         ==> !Visit(run, false, call, depth, context, s).error.RuleViolated?
    decreases call, 1
  {
    if !SelfCall(run, call) && Entered(run, call, s.who).Some? {
      var who := Entered(run, call, s.who).value;
      var o := FrameOutcome(Frame(run, who, call, depth, context), false, s.found);
      if o.Returned? {
        CollectingAllNeverBails(run, call.calls, depth + 1, context, WalkState(who, o.state));
      }
    }
  }

  lemma {:induction false} CollectingAllNeverBails(run: Run, calls: seq<Call>, depth: nat, context: Address,
                                                   s: WalkState)
    ensures var o := VisitAll(run, false, calls, depth, context, s); o.Threw? ==> !o.error.RuleViolated?
    decreases calls, 0
  {
    if calls != [] {
      CollectingNeverBails(run, calls[0], depth, ChildContext(calls[0], context), s);
      var o := Visit(run, false, calls[0], depth, ChildContext(calls[0], context), s);
      if o.Returned? {
        CollectingAllNeverBails(run, calls[1..], depth, context, o.state);
      }
    }
  }

  /**
   * A collecting use does depend on the past: it still collects exactly when the object's last strict use did not
   * throw, or when there is nothing to collect anyway.
   */
  lemma CollectingDependsOnHistory(uses: seq<Use>, run: Run, call: Call)
    ensures Answer(FlagAfter(false, uses), Use(false, run, call)) == ParseOutcome(run, false, call)
       <==> !FlagAfter(false, uses) || Listed(ParseOutcome(run, false, call)) == []
  {
    StrictRefinesCollecting(run, call);
    if call.calls != [] {
      CollectingNeverBails(run, call, 0, call.to, WalkState(NOBODY, NO_FINDINGS));
    }
  }

  // ---- Stakes ----

  /** xs arises from ys by leaving elements out. */
  ghost predicate Subsequence<T(!new)>(xs: seq<T>, ys: seq<T>)
    decreases |ys|
  {
    || xs == []
    || (ys != [] && (Subsequence(xs, ys[1..]) || (xs[0] == ys[0] && Subsequence(xs[1..], ys[1..]))))
  }

  lemma {:induction false} SubsequenceConcat<T(!new)>(a: seq<T>, b: seq<T>, c: seq<T>, d: seq<T>)
    requires Subsequence(a, b) && Subsequence(c, d)
    ensures Subsequence(a + c, b + d)
    decreases |b|
  {
    if b == [] {
      assert a + c == c && b + d == d;
    } else {
      assert (b + d)[1..] == b[1..] + d;
      if Subsequence(a, b[1..]) {
        SubsequenceConcat(a, b[1..], c, d);
      } else if a == [] {
        assert Subsequence([], b[1..]);
      } else {
        SubsequenceConcat(a[1..], b[1..], c, d);
        assert (a + c)[1..] == a[1..] + c;
      }
    }
  }

  lemma {:induction false} SubsequenceRefl<T(!new)>(a: seq<T>)
    ensures Subsequence(a, a)
  {
    if a != [] {
      SubsequenceRefl(a[1..]);
    }
  }

  /** The same run, but with at least the stakes. */
  ghost predicate MoreStaked(run: Run, run': Run) {
    && run'.sys == run.sys && run'.op == run.op && run'.keccak == run.keccak
    && run'.stakes.paymaster.Some? == run.stakes.paymaster.Some?
    && run'.stakes.paymasterContext == run.stakes.paymasterContext
    && forall e: Entity :: EntityStaked(run, e) ==> EntityStaked(run', e)
  }

  /** The same frame under more stakes. */
  function Restaked(f: Frame, run': Run): Frame {
    f.(run := run')
  }

  lemma {:induction false} BannedOpcodesStakeFree(f: Frame, run': Run, codes: seq<nat>)
    requires MoreStaked(f.run, run')
    ensures BannedOpcodes(Restaked(f, run'), codes) == BannedOpcodes(f, codes)
  {
    if codes != [] {
      BannedOpcodesStakeFree(f, run', codes[1..]);
    }
  }

  lemma {:induction false} UndeployedCodeStakeFree(f: Frame, run': Run, xs: seq<CodeAccess>)
    requires MoreStaked(f.run, run')
    ensures UndeployedCode(Restaked(f, run'), xs) == UndeployedCode(f, xs)
    ensures ForbiddenPrecompiles(Restaked(f, run'), xs) == ForbiddenPrecompiles(f, xs)
  {
    if xs != [] {
      UndeployedCodeStakeFree(f, run', xs[1..]);
    }
  }

  lemma {:induction false} ExtCodeStakeFree(f: Frame, run': Run, xs: seq<Address>)
    requires MoreStaked(f.run, run')
    ensures ExtCode(Restaked(f, run'), xs) == ExtCode(f, xs)
  {
    if xs != [] {
      ExtCodeStakeFree(f, run', xs[1..]);
    }
  }

  lemma {:induction false} StakedOnlyMonotone(f: Frame, run': Run, codes: seq<nat>)
    requires MoreStaked(f.run, run')
    ensures Subsequence(StakedOnlyOpcodes(Restaked(f, run'), codes), StakedOnlyOpcodes(f, codes))
  {
    if codes != [] {
      StakedOnlyMonotone(f, run', codes[1..]);
      SubsequenceRefl(StakedOnlyOpcode(f, codes[0]));
      SubsequenceConcat(StakedOnlyOpcode(Restaked(f, run'), codes[0]), StakedOnlyOpcode(f, codes[0]),
                        StakedOnlyOpcodes(Restaked(f, run'), codes[1..]), StakedOnlyOpcodes(f, codes[1..]));
    }
  }

  /** A slot that stays forbidden keeps its description, including whether a stake would have helped. */
  lemma SlotReportMonotone(f: Frame, run': Run, slot: Word)
    requires MoreStaked(f.run, run')
    ensures SlotReport(Restaked(f, run'), slot) == [] || SlotReport(Restaked(f, run'), slot) == SlotReport(f, slot)
  {
    var f' := Restaked(f, run');
    assert IfEntityStaked(f', slot) == IfEntityStaked(f, slot);
    assert IfFactoryStaked(f', slot) == IfFactoryStaked(f, slot);
    assert SlotAllowed(f, slot) ==> SlotAllowed(f', slot);
  }

  lemma {:induction false} SlotViolationsMonotone(f: Frame, run': Run, slots: seq<Word>)
    requires MoreStaked(f.run, run')
    ensures Subsequence(SlotViolations(Restaked(f, run'), slots), SlotViolations(f, slots))
  {
    if slots != [] {
      SlotViolationsMonotone(f, run', slots[1..]);
      SlotReportMonotone(f, run', slots[0]);
      SubsequenceRefl(SlotReport(f, slots[0]));
      SubsequenceConcat(SlotReport(Restaked(f, run'), slots[0]), SlotReport(f, slots[0]),
                        SlotViolations(Restaked(f, run'), slots[1..]), SlotViolations(f, slots[1..]));
    }
  }

  lemma OpcodeRulesMonotone(f: Frame, run': Run)
    requires MoreStaked(f.run, run')
    ensures Subsequence(OpcodeRules(Restaked(f, run')), OpcodeRules(f))
  {
    var f' := Restaked(f, run');
    BannedOpcodesStakeFree(f, run', f.call.usedOpcodes);
    UndeployedCodeStakeFree(f, run', f.call.codeAccesses);
    var tail := UndeployedCode(f, f.call.codeAccesses);
    SubsequenceRefl(tail);
    SubsequenceRefl(Op031(f));
    SubsequenceConcat(Op031(f'), Op031(f), tail, tail);
    SubsequenceRefl(Op020(f));
    SubsequenceConcat(Op020(f'), Op020(f), Op031(f') + tail, Op031(f) + tail);
    SubsequenceRefl(Op011(f));
    SubsequenceConcat(Op011(f'), Op011(f), Op020(f') + (Op031(f') + tail), Op020(f) + (Op031(f) + tail));
  }

  lemma CallRulesStakeFree(f: Frame, run': Run)
    requires MoreStaked(f.run, run')
    ensures CallRules(Restaked(f, run')) == CallRules(f)
  {
    ExtCodeStakeFree(f, run', f.call.extCodeAccesses);
    UndeployedCodeStakeFree(f, run', f.call.codeAccesses);
  }

  lemma EntityRulesMonotone(f: Frame, run': Run)
    requires MoreStaked(f.run, run')
    ensures Subsequence(EntityRules(Restaked(f, run')), EntityRules(f))
  {
    var f' := Restaked(f, run');
    SlotViolationsMonotone(f, run', AllSlots(f.call.slots));
    SubsequenceRefl(Erep050(f));
    SubsequenceConcat(Erep050(f'), Erep050(f), StorageRules(f'), StorageRules(f));
    StakedOnlyMonotone(f, run', f.call.usedOpcodes);
    SubsequenceConcat(StakedOnlyOpcodes(f', f.call.usedOpcodes), StakedOnlyOpcodes(f, f.call.usedOpcodes),
                      Erep050(f') + StorageRules(f'), Erep050(f) + StorageRules(f));
  }

  lemma FrameViolationsMonotone(f: Frame, run': Run)
    requires MoreStaked(f.run, run')
    ensures Subsequence(FrameViolations(Restaked(f, run')), FrameViolations(f))
  {
    var f' := Restaked(f, run');
    OpcodeRulesMonotone(f, run');
    CallRulesStakeFree(f, run');
    EntityRulesMonotone(f, run');
    SubsequenceRefl(CallRules(f));
    SubsequenceConcat(CallRules(f'), CallRules(f), EntityRules(f'), EntityRules(f));
    SubsequenceConcat(OpcodeRules(f'), OpcodeRules(f), CallRules(f') + EntityRules(f'), CallRules(f) + EntityRules(f));
  }

  /** Everything but the violations agrees, and the violations are a subsequence. */
  ghost predicate FewerViolations(o': Outcome<WalkState>, o: Outcome<WalkState>) {
    match (o', o)
    case (Returned(s'), Returned(s)) => FewerFindings(s', s)
    case (Threw(e', vs'), Threw(e, vs)) => e' == e && Subsequence(vs', vs)
    case _ => false
  }

  ghost predicate FewerFindings(s': WalkState, s: WalkState) {
    && s'.who == s.who && s'.found.addresses == s.found.addresses && s'.found.storage == s.found.storage
    && Subsequence(s'.found.violations, s.found.violations)
  }

  lemma FrameMonotone(f: Frame, run': Run, found': Findings, found: Findings)
    requires MoreStaked(f.run, run') && Subsequence(found'.violations, found.violations)
    requires found'.addresses == found.addresses && found'.storage == found.storage
    ensures match (FrameOutcome(Restaked(f, run'), false, found'), FrameOutcome(f, false, found))
            case (Returned(g'), Returned(g)) =>
              g'.addresses == g.addresses && g'.storage == g.storage && Subsequence(g'.violations, g.violations)
            case (Threw(e', vs'), Threw(e, vs)) => e' == e && Subsequence(vs', vs)
            case _ => false
  {
    var vs', vs := FrameViolations(Restaked(f, run')), FrameViolations(f);
    FrameViolationsMonotone(f, run');
    SubsequenceConcat(found'.violations, found.violations, vs', vs);
  }

  lemma {:induction false} VisitMonotone(run: Run, run': Run, call: Call, depth: nat, context: Address,
                                         s': WalkState, s: WalkState)
    requires MoreStaked(run, run') && FewerFindings(s', s)
    ensures FewerViolations(Visit(run', false, call, depth, context, s'), Visit(run, false, call, depth, context, s))
    decreases call, 1
  {
    assert SelfCall(run', call) == SelfCall(run, call) && Entered(run', call, s'.who) == Entered(run, call, s.who);
    if !SelfCall(run, call) && Entered(run, call, s.who).Some? {
      var who := Entered(run, call, s.who).value;
      var f := Frame(run, who, call, depth, context);
      FrameMonotone(f, run', s'.found, s.found);
      var o' := FrameOutcome(Frame(run', who, call, depth, context), false, s'.found);
      var o := FrameOutcome(f, false, s.found);
      if o.Returned? {
        VisitAllMonotone(run, run', call.calls, depth + 1, context, WalkState(who, o'.state), WalkState(who, o.state));
      }
    }
  }

  lemma {:induction false} VisitAllMonotone(run: Run, run': Run, calls: seq<Call>, depth: nat, context: Address,
                                            s': WalkState, s: WalkState)
    requires MoreStaked(run, run') && FewerFindings(s', s)
    ensures FewerViolations(VisitAll(run', false, calls, depth, context, s'),
                        VisitAll(run, false, calls, depth, context, s))
    decreases calls, 0
  {
    if calls != [] {
      var ctx := ChildContext(calls[0], context);
      VisitMonotone(run, run', calls[0], depth, ctx, s', s);
      var o', o := Visit(run', false, calls[0], depth, ctx, s'), Visit(run, false, calls[0], depth, ctx, s);
      if o.Returned? {
        VisitAllMonotone(run, run', calls[1..], depth, context, o'.state, o.state);
      }
    }
  }

  /** Staking more entities only ever removes violations; addresses, storage map and errors stay the same. */
  lemma StakeMonotonicity(run: Run, run': Run, call: Call)
    requires MoreStaked(run, run')
    ensures FewerViolations(ParseOutcome(run', false, call), ParseOutcome(run, false, call))
  {
    if call.calls != [] {
      var s := WalkState(NOBODY, NO_FINDINGS);
      VisitMonotone(run, run', call, 0, call.to, s, s);
    }
  }

  /** So a compliant operation stays compliant, with the same findings. */
  lemma CompliantStaysCompliant(run: Run, run': Run, call: Call)
    requires MoreStaked(run, run')
    requires ParseOutcome(run, true, call).Returned?
    ensures ParseOutcome(run', true, call) == ParseOutcome(run, true, call)
  {
    StrictRefinesCollecting(run, call);
    StrictRefinesCollecting(run', call);
    StakeMonotonicity(run, run', call);
    assert ParseOutcome(run, false, call) == ParseOutcome(run, true, call);
    assert Listed(ParseOutcome(run, false, call)) == [];
  }
}
