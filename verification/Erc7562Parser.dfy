/** The parser object: its fields are reset by each walk, except the flag that decides whether violations throw. */
module Erc7562Parser {
  import opened Basics
  import opened ByteStrings
  import opened UserOperations
  import opened CallTraces
  import opened StorageMaps
  import opened RuleChecker
  import R = Reputation

  /** What a check answers when the rules list vs. */
  function Verdict(bail: bool, vs: seq<Violation>): Check {
    if bail && vs != [] then Fail(RuleViolated(vs[0])) else Pass
  }

  /** What a check adds to the list: in strict mode nothing after the first violation. */
  function Reported(bail: bool, vs: seq<Violation>): seq<Violation> {
    if bail && vs != [] then [vs[0]] else vs
  }

  /** What a check does to the list of violations when the rules list vs. */
  predicate Checked(bail: bool, before: seq<Violation>, r: Check, after: seq<Violation>, vs: seq<Violation>) {
    r == Verdict(bail, vs) && after == before + Reported(bail, vs)
  }

  /** What all checks of a frame do together. */
  ghost predicate Inspected(f: Frame, bail: bool, before: seq<Violation>, r: Check, after: seq<Violation>) {
    var verdict := Verdict(bail, FrameViolations(f));
    && Checked(bail, before, verdict, after, FrameViolations(f))
    && r == (if verdict.Pass? && StorageCrash(f) then Fail(NoEntityAddress) else verdict)
  }

  /** A check that throws makes every longer list throw the same. */
  lemma CheckedThrew(bail: bool, before: seq<Violation>, r: Check, after: seq<Violation>, xs: seq<Violation>,
                     ys: seq<Violation>)
    requires Checked(bail, before, r, after, xs) && r.Fail?
    ensures Checked(bail, before, r, after, xs + ys)
  {
  }

  /** Checking two lists in a row is checking their concatenation. */
  lemma CheckedBoth(bail: bool, before: seq<Violation>, mid: seq<Violation>, r: Check, after: seq<Violation>,
                    xs: seq<Violation>, ys: seq<Violation>)
    requires Checked(bail, before, Pass, mid, xs) && Checked(bail, mid, r, after, ys)
    ensures Checked(bail, before, r, after, xs + ys)
  {
    if bail {
      assert xs + ys == ys && mid == before;
    }
  }

  lemma InspectedFirst(f: Frame, bail: bool, vs0: seq<Violation>, r: Check, vs: seq<Violation>)
    requires Checked(bail, vs0, r, vs, OpcodeRules(f)) && r.Fail?
    ensures Inspected(f, bail, vs0, r, vs)
  {
    CheckedThrew(bail, vs0, r, vs, OpcodeRules(f), CallRules(f) + EntityRules(f));
  }

  lemma InspectedSecond(f: Frame, bail: bool, vs0: seq<Violation>, vs1: seq<Violation>, r: Check, vs: seq<Violation>)
    requires Checked(bail, vs0, Pass, vs1, OpcodeRules(f)) && Checked(bail, vs1, r, vs, CallRules(f)) && r.Fail?
    ensures Inspected(f, bail, vs0, r, vs)
  {
    CheckedThrew(bail, vs1, r, vs, CallRules(f), EntityRules(f));
    CheckedBoth(bail, vs0, vs1, r, vs, OpcodeRules(f), CallRules(f) + EntityRules(f));
  }

  lemma InspectedThird(f: Frame, bail: bool, vs0: seq<Violation>, vs1: seq<Violation>, vs2: seq<Violation>,
                       r: Check, vs: seq<Violation>)
    requires Checked(bail, vs0, Pass, vs1, OpcodeRules(f)) && Checked(bail, vs1, Pass, vs2, CallRules(f))
    requires Checked(bail, vs2, Verdict(bail, EntityRules(f)), vs, EntityRules(f))
    requires var verdict := Verdict(bail, EntityRules(f));
             r == if verdict.Pass? && StorageCrash(f) then Fail(NoEntityAddress) else verdict
    ensures Inspected(f, bail, vs0, r, vs)
  {
    var verdict := Verdict(bail, EntityRules(f));
    CheckedBoth(bail, vs1, vs2, verdict, vs, CallRules(f), EntityRules(f));
    CheckedBoth(bail, vs0, vs1, verdict, vs, OpcodeRules(f), CallRules(f) + EntityRules(f));
  }

  lemma InspectedOutcome(f: Frame, bail: bool, found: Findings, r: Check, vs: seq<Violation>)
    requires Inspected(f, bail, found.violations, r, vs)
    ensures FrameOutcome(f, bail, found) == match r
              case Fail(e) => Threw(e, vs)
              case Pass =>
                Returned(Findings(vs, found.addresses + [f.call.to], StorageAfter(f.run, f.call, found.storage)))
  {
  }

  /** One more item of a list: either it throws, or it is done. */
  lemma CheckedItem(bail: bool, before: seq<Violation>, mid: seq<Violation>, r: Check, after: seq<Violation>,
                    total: seq<Violation>, done: seq<Violation>, item: seq<Violation>, rest: seq<Violation>)
    requires total == done + (item + rest)
    requires Checked(bail, before, Pass, mid, done) && Checked(bail, mid, r, after, item)
    ensures r.Fail? ==> Checked(bail, before, r, after, total)
    ensures r.Pass? ==> Checked(bail, before, Pass, after, done + item) && total == (done + item) + rest
  {
    CheckedBoth(bail, before, mid, r, after, done, item);
    assert total == (done + item) + rest;
    if r.Fail? {
      CheckedThrew(bail, before, r, after, done + item, rest);
    }
  }

  class ERC7562Parser {
    const sys: System
    var keccak: seq<Bytes>
    var ruleViolations: seq<Violation>
    var currentEntity: Entity
    var currentEntityAddress: Address
    var stakeValidationResult: Stakes
    var contractAddresses: seq<Address>
    var storageMap: StorageMap
    var bailOnViolation: bool

    constructor (sys: System)
      ensures this.sys == sys && !bailOnViolation
    {
      this.sys := sys;
      keccak, ruleViolations, contractAddresses, storageMap := [], [], [], map[];
      currentEntity, currentEntityAddress := NoEntity, [];
      stakeValidationResult := Stakes(R.StakeInfo([], 0, 0), None, None, None);
      bailOnViolation := false;
    }

    function RunOf(op: UserOperation): Run
      reads this`keccak, this`stakeValidationResult
    {
      Run(sys, op, stakeValidationResult, keccak)
    }

    function CurrentWho(): Who
      reads this`currentEntity, this`currentEntityAddress
    {
      Who(currentEntity, currentEntityAddress)
    }

    function State(): WalkState
      reads this`currentEntity, this`currentEntityAddress, this`ruleViolations, this`contractAddresses, this`storageMap
    {
      WalkState(CurrentWho(), Findings(ruleViolations, contractAddresses, storageMap))
    }

    function FrameOfCall(op: UserOperation, call: Call, depth: nat, context: Address): Frame
      reads this`keccak, this`stakeValidationResult, this`currentEntity, this`currentEntityAddress
    {
      Frame(RunOf(op), CurrentWho(), call, depth, context)
    }

    /** Throws on the first violation, listing exactly that one. */
    method RequireCompliance(op: UserOperation, call: Call, preimages: seq<Bytes>, stakes: Stakes)
      returns (r: Outcome<WalkState>)
      modifies this
      ensures r == ParseOutcome(Run(sys, op, stakes, preimages), true, call)
      ensures bailOnViolation == r.Threw?
    {
      bailOnViolation := true;
      r := ParseResults(op, call, preimages, stakes);
      if r.Threw? {
        return;
      }
      bailOnViolation := false;
    }

    method ParseResults(op: UserOperation, call: Call, preimages: seq<Bytes>, stakes: Stakes)
      returns (r: Outcome<WalkState>)
      modifies this
      ensures r == ParseOutcome(Run(sys, op, stakes, preimages), bailOnViolation, call)
      ensures bailOnViolation == old(bailOnViolation)
    {
      Init(preimages);
      if |call.calls| < 1 {
        return Threw(NoCalls, []);
      }
      stakeValidationResult := stakes;
      var check := InnerStepRecursive(op, call, 0, call.to);
      match check
      case Fail(e) => r := Threw(e, ruleViolations);
      case Pass => r := Returned(State());
    }

    method Init(preimages: seq<Bytes>)
      modifies this
      ensures State() == WalkState(NOBODY, NO_FINDINGS) && keccak == preimages
      ensures bailOnViolation == old(bailOnViolation)
    {
      keccak := preimages;
      ruleViolations := [];
      currentEntity := NoEntity;
      currentEntityAddress := [];
      contractAddresses := [];
      storageMap := map[];
    }

    method ViolationDetected(v: Violation) returns (r: Check)
      modifies this`ruleViolations
      ensures Checked(bailOnViolation, old(ruleViolations), r, ruleViolations, [v])
    {
      ruleViolations := ruleViolations + [v];
      if bailOnViolation {
        return Fail(RuleViolated(v));
      }
      return Pass;
    }

    method DetectEntityChange(op: UserOperation, call: Call) returns (r: Check)
      modifies this`currentEntity, this`currentEntityAddress
      ensures match Entered(RunOf(op), call, old(CurrentWho()))
              case None => r == Fail(UnknownEntity(call.to))
              case Some(who) => r.Pass? && CurrentWho() == who
    {
      if call.from != ADDRESS_ZERO && call.from != sys.entryPoint && call.from != sys.senderCreator {
        return Pass;
      }
      if op.sender == call.to {
        currentEntity, currentEntityAddress := Account, op.sender;
      } else if call.from == sys.senderCreator && op.factory == Some(call.to) {
        currentEntity, currentEntityAddress := Factory, op.factory.value;
      } else if op.paymaster == Some(call.to) {
        currentEntity, currentEntityAddress := Paymaster, op.paymaster.value;
      } else if sys.entryPoint == call.to {
        currentEntity, currentEntityAddress := EntryPoint, sys.entryPoint;
      } else if sys.senderCreator == call.to {
        currentEntity, currentEntityAddress := SenderCreator, sys.senderCreator;
      } else if sys.nonceManager == Some(call.to) {
        currentEntity, currentEntityAddress := NativeNonceManager, sys.nonceManager.value;
      } else {
        return Fail(UnknownEntity(call.to));
      }
      return Pass;
    }

    method InnerStepRecursive(op: UserOperation, call: Call, depth: nat, context: Address) returns (r: Check)
      modifies this`ruleViolations, this`currentEntity, this`currentEntityAddress
      modifies this`contractAddresses, this`storageMap
      ensures Walked(Visit(RunOf(op), bailOnViolation, call, depth, context, old(State())), r)
      decreases call, 1
    {
      hide FrameOutcome, Inspected;
      if call.to == sys.entryPoint && call.from == sys.entryPoint {
        return Pass;
      }
      contractAddresses := contractAddresses + [call.to];
      :- DetectEntityChange(op, call);
      ghost var f, before := FrameOfCall(op, call, depth, context), old(State()).found;
      r := CheckFrame(op, call, depth, context);
      InspectedOutcome(f, bailOnViolation, before, r, ruleViolations);
      if r.Fail? {
        return;
      }
      r := StepIntoCalls(op, call, depth, context);
    }

    /** A DELEGATECALL child keeps the storage context of its parent. */
    method StepIntoCalls(op: UserOperation, call: Call, depth: nat, context: Address) returns (r: Check)
      modifies this`ruleViolations, this`currentEntity, this`currentEntityAddress
      modifies this`contractAddresses, this`storageMap
      ensures Walked(VisitAll(RunOf(op), bailOnViolation, call.calls, depth + 1, context, old(State())), r)
      decreases call, 0
    {
      for i := 0 to |call.calls|
        invariant VisitAll(RunOf(op), bailOnViolation, call.calls, depth + 1, context, old(State()))
               == VisitAll(RunOf(op), bailOnViolation, call.calls[i..], depth + 1, context, State())
      {
        var child := call.calls[i];
        ghost var rest := call.calls[i..];
        assert rest[0] == child && rest[1..] == call.calls[i + 1..];
        var newContext := child.to;
        if child.frameType == DELEGATECALL {
          newContext := context;
        }
        :- InnerStepRecursive(op, child, depth + 1, newContext);
      }
      return Pass;
    }

    /** The fields and the answer are those of the outcome; after a throw only the list of violations matters. */
    ghost predicate Walked(outcome: Outcome<WalkState>, r: Check)
      reads this`currentEntity, this`currentEntityAddress, this`ruleViolations, this`contractAddresses, this`storageMap
    {
      match outcome
      case Returned(s) => r.Pass? && State() == s
      case Threw(e, listed) => r == Fail(e) && ruleViolations == listed
    }

    /** The eleven rule checks of one frame, in order. */
    method CheckFrame(op: UserOperation, call: Call, depth: nat, context: Address) returns (r: Check)
      modifies this`ruleViolations, this`storageMap
      ensures Inspected(FrameOfCall(op, call, depth, context), bailOnViolation, old(ruleViolations), r, ruleViolations)
      ensures r.Pass? ==> storageMap == StorageAfter(RunOf(op), call, old(storageMap))
    {
      ghost var f, bail, vs0 := FrameOfCall(op, call, depth, context), bailOnViolation, ruleViolations;
      r := CheckOpcodeRules(op, call, depth, context);
      if r.Fail? {
        InspectedFirst(f, bail, vs0, r, ruleViolations);
        return;
      }
      ghost var vs1 := ruleViolations;
      r := CheckCallRules(op, call, depth, context);
      if r.Fail? {
        InspectedSecond(f, bail, vs0, vs1, r, ruleViolations);
        return;
      }
      ghost var vs2 := ruleViolations;
      r := CheckEntityRules(op, call, depth, context);
      InspectedThird(f, bail, vs0, vs1, vs2, r, ruleViolations);
    }

    /** Opcodes, out of gas, contract creation and undeployed code. */
    method CheckOpcodeRules(op: UserOperation, call: Call, depth: nat, context: Address) returns (r: Check)
      modifies this`ruleViolations
      ensures Checked(bailOnViolation, old(ruleViolations), r, ruleViolations,
                      OpcodeRules(FrameOfCall(op, call, depth, context)))
    {
      ghost var f, bail, vs0 := FrameOfCall(op, call, depth, context), bailOnViolation, ruleViolations;
      ghost var a, b, c, d := Op011(f), Op020(f), Op031(f), UndeployedCode(f, call.codeAccesses);
      r := CheckOp011(op, call, depth, context);
      if r.Fail? {
        CheckedThrew(bail, vs0, r, ruleViolations, a, b + (c + d));
        return;
      }
      ghost var vs1 := ruleViolations;
      r := CheckOp020(op, call, depth, context);
      if r.Fail? {
        CheckedThrew(bail, vs1, r, ruleViolations, b, c + d);
        CheckedBoth(bail, vs0, vs1, r, ruleViolations, a, b + (c + d));
        return;
      }
      ghost var vs2 := ruleViolations;
      r := CheckOp031(op, call, depth, context);
      if r.Fail? {
        CheckedThrew(bail, vs2, r, ruleViolations, c, d);
        CheckedBoth(bail, vs1, vs2, r, ruleViolations, b, c + d);
        CheckedBoth(bail, vs0, vs1, r, ruleViolations, a, b + (c + d));
        return;
      }
      ghost var vs3 := ruleViolations;
      r := CheckOp041(op, call, depth, context);
      CheckedBoth(bail, vs2, vs3, r, ruleViolations, c, d);
      CheckedBoth(bail, vs1, vs2, r, ruleViolations, b, c + d);
      CheckedBoth(bail, vs0, vs1, r, ruleViolations, a, b + (c + d));
    }

    /** Calls into the EntryPoint, calls with value and precompiles. */
    method CheckCallRules(op: UserOperation, call: Call, depth: nat, context: Address) returns (r: Check)
      modifies this`ruleViolations
      ensures Checked(bailOnViolation, old(ruleViolations), r, ruleViolations,
                      CallRules(FrameOfCall(op, call, depth, context)))
    {
      ghost var f, bail, vs0 := FrameOfCall(op, call, depth, context), bailOnViolation, ruleViolations;
      ghost var a, b, c := Op054(f), ExtCode(f, call.extCodeAccesses), Op061(f);
      ghost var d := ForbiddenPrecompiles(f, call.codeAccesses);
      r := CheckOp054(op, call, depth, context);
      if r.Fail? {
        CheckedThrew(bail, vs0, r, ruleViolations, a, b + (c + d));
        return;
      }
      ghost var vs1 := ruleViolations;
      r := CheckOp054ExtCode(op, call, depth, context);
      if r.Fail? {
        CheckedThrew(bail, vs1, r, ruleViolations, b, c + d);
        CheckedBoth(bail, vs0, vs1, r, ruleViolations, a, b + (c + d));
        return;
      }
      ghost var vs2 := ruleViolations;
      r := CheckOp061(op, call, depth, context);
      if r.Fail? {
        CheckedThrew(bail, vs2, r, ruleViolations, c, d);
        CheckedBoth(bail, vs1, vs2, r, ruleViolations, b, c + d);
        CheckedBoth(bail, vs0, vs1, r, ruleViolations, a, b + (c + d));
        return;
      }
      ghost var vs3 := ruleViolations;
      r := CheckOp062AllowedPrecompiles(op, call, depth, context);
      CheckedBoth(bail, vs2, vs3, r, ruleViolations, c, d);
      CheckedBoth(bail, vs1, vs2, r, ruleViolations, b, c + d);
      CheckedBoth(bail, vs0, vs1, r, ruleViolations, a, b + (c + d));
    }

    /** The rules that depend on the stake of the running entity. */
    method CheckEntityRules(op: UserOperation, call: Call, depth: nat, context: Address) returns (r: Check)
      modifies this`ruleViolations, this`storageMap
      ensures var f := FrameOfCall(op, call, depth, context);
              var verdict := Verdict(bailOnViolation, EntityRules(f));
              && Checked(bailOnViolation, old(ruleViolations), verdict, ruleViolations, EntityRules(f))
              && r == (if verdict.Pass? && StorageCrash(f) then Fail(NoEntityAddress) else verdict)
              && (r.Pass? ==> storageMap == StorageAfter(f.run, call, old(storageMap)))
    {
      ghost var f, bail, vs0 := FrameOfCall(op, call, depth, context), bailOnViolation, ruleViolations;
      ghost var a, b, c := StakedOnlyOpcodes(f, call.usedOpcodes), Erep050(f), StorageRules(f);
      r := CheckOp080(op, call, depth, context);
      if r.Fail? {
        CheckedThrew(bail, vs0, r, ruleViolations, a, b + c);
        return;
      }
      ghost var vs1 := ruleViolations;
      r := CheckErep050(op, call, depth, context);
      if r.Fail? {
        CheckedThrew(bail, vs1, r, ruleViolations, b, c);
        CheckedBoth(bail, vs0, vs1, r, ruleViolations, a, b + c);
        return;
      }
      ghost var vs2 := ruleViolations;
      r := CheckStorage(op, call, depth, context);
      ghost var verdict := Verdict(bail, c);
      CheckedBoth(bail, vs1, vs2, verdict, ruleViolations, b, c);
      CheckedBoth(bail, vs0, vs1, verdict, ruleViolations, a, b + c);
    }

    method CheckOp011(op: UserOperation, call: Call, depth: nat, context: Address) returns (r: Check)
      modifies this`ruleViolations
      ensures Checked(bailOnViolation, old(ruleViolations), r, ruleViolations,
                      Op011(FrameOfCall(op, call, depth, context)))
    {
      if call.to == sys.entryPoint {
        return Pass;
      }
      ghost var f, done := FrameOfCall(op, call, depth, context), [];
      for i := 0 to |call.usedOpcodes|
        invariant Checked(bailOnViolation, old(ruleViolations), Pass, ruleViolations, done)
        invariant BannedOpcodes(f, call.usedOpcodes) == done + BannedOpcodes(f, call.usedOpcodes[i..])
      {
        ghost var rest, listed := call.usedOpcodes[i..], ruleViolations;
        assert rest[1..] == call.usedOpcodes[i + 1..];
        var code := call.usedOpcodes[i];
        r := Pass;
        if IsBannedOpcode(code) {
          r := ViolationDetected(Violation(OP011, depth, currentEntity, call.to, context, call.frameType,
                                           OpcodeOf(code),
                                         Some(0), UsesBannedOpcode(currentEntity, OpcodeOf(code))));
        }
        CheckedItem(bailOnViolation, old(ruleViolations), listed, r, ruleViolations,
                    BannedOpcodes(f, call.usedOpcodes), done,
                    BannedOpcode(f, code), BannedOpcodes(f, rest[1..]));
        if r.Fail? {
          return;
        }
        done := done + BannedOpcode(f, code);
      }
      return Pass;
    }

    method CheckOp020(op: UserOperation, call: Call, depth: nat, context: Address) returns (r: Check)
      modifies this`ruleViolations
      ensures Checked(bailOnViolation, old(ruleViolations), r, ruleViolations,
                      Op020(FrameOfCall(op, call, depth, context)))
    {
      if call.outOfGas {
        :- ViolationDetected(Violation(OP020, depth, currentEntity, call.from, context, call.frameType,
                                       FrameOf(call.frameType),
                                       Some(0), RevertsOnOutOfGas(currentEntity)));
      }
      return Pass;
    }

    method CheckOp031(op: UserOperation, call: Call, depth: nat, context: Address) returns (r: Check)
      modifies this`ruleViolations
      ensures Checked(bailOnViolation, old(ruleViolations), r, ruleViolations,
                      Op031(FrameOfCall(op, call, depth, context)))
    {
      if call.frameType != CREATE && call.frameType != CREATE2 {
        return Pass;
      }
      var isFactoryStaked := EntityStaked(RunOf(op), Factory);
      var isAllowedCreateByOP032 := op.factory.Some? && call.frameType == CREATE
        && (currentEntity == Account || currentEntity == Factory) && call.from == op.sender;
      var isAllowedCreateByEREP060 := (call.from == op.sender || op.factory == Some(call.from)) && isFactoryStaked;
      var isAllowedCreateSenderByFactory := currentEntity == Factory && call.to == op.sender;
      if !(isAllowedCreateByOP032 || isAllowedCreateByEREP060 || isAllowedCreateSenderByFactory) {
        :- ViolationDetected(Violation(OP011, depth, currentEntity, call.from, context, call.frameType,
                                       FrameOf(CREATE2),
                                       Some(0), UsesBannedOpcode(currentEntity, FrameOf(CREATE2))));
      }
      return Pass;
    }

    method CheckOp041(op: UserOperation, call: Call, depth: nat, context: Address) returns (r: Check)
      modifies this`ruleViolations
      ensures Checked(bailOnViolation, old(ruleViolations), r, ruleViolations,
                      UndeployedCode(FrameOfCall(op, call, depth, context), call.codeAccesses))
    {
      ghost var f, done := FrameOfCall(op, call, depth, context), [];
      for i := 0 to |call.codeAccesses|
        invariant Checked(bailOnViolation, old(ruleViolations), Pass, ruleViolations, done)
        invariant UndeployedCode(f, call.codeAccesses) == done + UndeployedCode(f, call.codeAccesses[i..])
      {
        ghost var rest, listed := call.codeAccesses[i..], ruleViolations;
        assert rest[1..] == call.codeAccesses[i + 1..];
        var x := call.codeAccesses[i];
        r := Pass;
        if !IsPrecompiled(x.address) && x.address != op.sender && x.address != sys.entryPoint && x.size <= 2 {
          r := ViolationDetected(Violation(OP041, depth, currentEntity, x.address, context, call.frameType,
                                           NoOpcode, None,
                                         AccessesUndeployed(currentEntity, x.address, x.opcode)));
        }
        CheckedItem(bailOnViolation, old(ruleViolations), listed, r, ruleViolations,
                    UndeployedCode(f, call.codeAccesses), done,
                    Undeployed(f, x), UndeployedCode(f, rest[1..]));
        if r.Fail? {
          return;
        }
        done := done + Undeployed(f, x);
      }
      return Pass;
    }

    method CheckOp054(op: UserOperation, call: Call, depth: nat, context: Address) returns (r: Check)
      modifies this`ruleViolations
      ensures Checked(bailOnViolation, old(ruleViolations), r, ruleViolations,
                      Op054(FrameOfCall(op, call, depth, context)))
    {
      var isAllowedRIP7560 := call.callee == AcceptAccount || call.callee == AcceptPaymaster
        || call.callee == SigFailAccount || call.callee == SigFailPaymaster;
      var isAllowed := call.callee == DepositTo || call.callee == Fallback || isAllowedRIP7560;
      if CallsEntryPoint(RunOf(op), call) && !isAllowed {
        :- ViolationDetected(Violation(OP054, depth, currentEntity, call.from, context, call.frameType,
                                       FrameOf(call.frameType),
                                       call.value, IllegalEntryPointCall(call.callee)));
      }
      return Pass;
    }

    method CheckOp054ExtCode(op: UserOperation, call: Call, depth: nat, context: Address) returns (r: Check)
      modifies this`ruleViolations
      ensures Checked(bailOnViolation, old(ruleViolations), r, ruleViolations,
                      ExtCode(FrameOfCall(op, call, depth, context), call.extCodeAccesses))
    {
      ghost var f, done := FrameOfCall(op, call, depth, context), [];
      for i := 0 to |call.extCodeAccesses|
        invariant Checked(bailOnViolation, old(ruleViolations), Pass, ruleViolations, done)
        invariant ExtCode(f, call.extCodeAccesses) == done + ExtCode(f, call.extCodeAccesses[i..])
      {
        ghost var rest, listed := call.extCodeAccesses[i..], ruleViolations;
        assert rest[1..] == call.extCodeAccesses[i + 1..];
        var a := call.extCodeAccesses[i];
        r := Pass;
        if a == sys.entryPoint {
          r := ViolationDetected(Violation(OP054, depth, currentEntity, call.to, context, call.frameType,
                                           NoOpcode, None,
                                         ExtCodeOfEntryPoint(currentEntity)));
        }
        CheckedItem(bailOnViolation, old(ruleViolations), listed, r, ruleViolations, ExtCode(f, call.extCodeAccesses),
                    done,
                    ExtCodeAccess(f, a), ExtCode(f, rest[1..]));
        if r.Fail? {
          return;
        }
        done := done + ExtCodeAccess(f, a);
      }
      return Pass;
    }

    method CheckOp061(op: UserOperation, call: Call, depth: nat, context: Address) returns (r: Check)
      modifies this`ruleViolations
      ensures Checked(bailOnViolation, old(ruleViolations), r, ruleViolations,
                      Op061(FrameOfCall(op, call, depth, context)))
    {
      if !CallsEntryPoint(RunOf(op), call) && OrZero(call.value) != 0 {
        :- ViolationDetected(Violation(OP061, depth, currentEntity, call.from, context, call.frameType,
                                       FrameOf(call.frameType),
                                       call.value, CallWithValue));
      }
      return Pass;
    }

    method CheckOp062AllowedPrecompiles(op: UserOperation, call: Call, depth: nat, context: Address) returns (r: Check)
      modifies this`ruleViolations
      ensures Checked(bailOnViolation, old(ruleViolations), r, ruleViolations,
                      ForbiddenPrecompiles(FrameOfCall(op, call, depth, context), call.codeAccesses))
    {
      ghost var f, done := FrameOfCall(op, call, depth, context), [];
      for i := 0 to |call.codeAccesses|
        invariant Checked(bailOnViolation, old(ruleViolations), Pass, ruleViolations, done)
        invariant ForbiddenPrecompiles(f, call.codeAccesses) == done + ForbiddenPrecompiles(f, call.codeAccesses[i..])
      {
        ghost var rest, listed := call.codeAccesses[i..], ruleViolations;
        assert rest[1..] == call.codeAccesses[i + 1..];
        var x := call.codeAccesses[i];
        r := Pass;
        if IsForbiddenPrecompiled(x.address) {
          r := ViolationDetected(Violation(OP062, depth, currentEntity, call.from, context, call.frameType,
                                         FrameOf(call.frameType), call.value, ForbiddenPrecompile(x.address)));
        }
        CheckedItem(bailOnViolation, old(ruleViolations), listed, r, ruleViolations,
                    ForbiddenPrecompiles(f, call.codeAccesses), done,
                    ForbiddenAt(f, x), ForbiddenPrecompiles(f, rest[1..]));
        if r.Fail? {
          return;
        }
        done := done + ForbiddenAt(f, x);
      }
      return Pass;
    }

    method CheckOp080(op: UserOperation, call: Call, depth: nat, context: Address) returns (r: Check)
      modifies this`ruleViolations
      ensures Checked(bailOnViolation, old(ruleViolations), r, ruleViolations,
                      StakedOnlyOpcodes(FrameOfCall(op, call, depth, context), call.usedOpcodes))
    {
      var isEntityStaked := EntityStaked(RunOf(op), currentEntity);
      ghost var f, done := FrameOfCall(op, call, depth, context), [];
      for i := 0 to |call.usedOpcodes|
        invariant Checked(bailOnViolation, old(ruleViolations), Pass, ruleViolations, done)
        invariant StakedOnlyOpcodes(f, call.usedOpcodes) == done + StakedOnlyOpcodes(f, call.usedOpcodes[i..])
      {
        ghost var rest, listed := call.usedOpcodes[i..], ruleViolations;
        assert rest[1..] == call.usedOpcodes[i + 1..];
        var code := call.usedOpcodes[i];
        r := Pass;
        if IsStakedOnlyOpcode(code) && !isEntityStaked {
          r := ViolationDetected(Violation(OP011, depth, currentEntity, call.from, context, call.frameType,
                                           OpcodeOf(code),
                                         Some(0), UnstakedUsesOpcode(currentEntity, code)));
        }
        CheckedItem(bailOnViolation, old(ruleViolations), listed, r, ruleViolations,
                    StakedOnlyOpcodes(f, call.usedOpcodes), done,
                    StakedOnlyOpcode(f, code), StakedOnlyOpcodes(f, rest[1..]));
        if r.Fail? {
          return;
        }
        done := done + StakedOnlyOpcode(f, code);
      }
      return Pass;
    }

    method CheckErep050(op: UserOperation, call: Call, depth: nat, context: Address) returns (r: Check)
      modifies this`ruleViolations
      ensures Checked(bailOnViolation, old(ruleViolations), r, ruleViolations,
                      Erep050(FrameOfCall(op, call, depth, context)))
    {
      var isUnstakedPaymaster := currentEntity == Paymaster && !EntityStaked(RunOf(op), currentEntity);
      var s := stakeValidationResult;
      if isUnstakedPaymaster && s.paymaster.Some? && s.paymasterContext.Some? && s.paymasterContext.value != [] {
        :- ViolationDetected(Violation(EREP050, depth, currentEntity, call.from, context, call.frameType,
                                       NoOpcode, Some(0),
                                       UnstakedPaymasterContext));
      }
      return Pass;
    }

    /** The hashes associated with each entity of the operation; an entity without any has no key. */
    method ParseEntitySlots(op: UserOperation) returns (entitySlots: map<Address, set<Word>>)
      ensures forall a: Address :: SlotsOf(entitySlots, a) == EntitySlots(RunOf(op), a)
    {
      entitySlots := map[];
      for i := 0 to |keccak|
        invariant forall a: Address ::
          SlotsOf(entitySlots, a) == if IsEntityAddress(op, a) then HashesFrom(sys.keccak256, keccak[..i], a) else {}
      {
        assert keccak[..i + 1][..i] == keccak[..i];
        entitySlots := ParsePreimage(op, keccak[i], entitySlots);
      }
      assert keccak[..|keccak|] == keccak;
    }

    /** Files one preimage under every entity whose padded address it starts with. */
    method ParsePreimage(op: UserOperation, preimage: Bytes, entitySlots: map<Address, set<Word>>)
      returns (filed: map<Address, set<Word>>)
      ensures forall a: Address ::
        SlotsOf(filed, a) == SlotsOf(entitySlots, a)
          + (if IsEntityAddress(op, a) && StartsWith(preimage, ZeroPad(a, 32)) then {sys.keccak256(preimage)} else {})
    {
      filed := entitySlots;
      var entities := [Some(op.sender), op.paymaster, op.factory];
      for i := 0 to |entities|
        invariant forall a: Address ::
          SlotsOf(filed, a) == SlotsOf(entitySlots, a)
            + (if Some(a) in entities[..i] && StartsWith(preimage, ZeroPad(a, 32)) then {sys.keccak256(preimage)}
               else {})
      {
        assert entities[..i + 1] == entities[..i] + [entities[i]];
        if entities[i].None? {
          continue;
        }
        var a := entities[i].value;
        if StartsWith(preimage, ZeroPad(a, 32)) {
          filed := filed[a := SlotsOf(filed, a) + {sys.keccak256(preimage)}];
        }
      }
      assert entities[..|entities|] == entities;
    }

    static function SlotsOf(entitySlots: map<Address, set<Word>>, a: Address): set<Word> {
      if a in entitySlots then entitySlots[a] else {}
    }

    /** Scans the hashes of the entity for one that starts a structure containing the slot. */
    method AssociatedWith(slot: Word, a: Address, entitySlots: map<Address, set<Word>>) returns (r: bool)
      ensures r <==> slot == FromBytes(a) || Near(slot, SlotsOf(entitySlots, a))
    {
      if slot == FromBytes(a) {
        return true;
      }
      if a !in entitySlots {
        return false;
      }
      var pending := entitySlots[a];
      while pending != {}
        invariant pending <= entitySlots[a]
        invariant forall base <- entitySlots[a] :: base in pending || !(base <= slot < base + STRUCT_SIZE)
        decreases pending
      {
        var base :| base in pending;
        if base <= slot < base + STRUCT_SIZE {
          return true;
        }
        pending := pending - {base};
      }
      return false;
    }

    method CheckStorage(op: UserOperation, call: Call, depth: nat, context: Address) returns (r: Check)
      modifies this`ruleViolations, this`storageMap
      ensures var f := FrameOfCall(op, call, depth, context);
              var verdict := Verdict(bailOnViolation, StorageRules(f));
              && Checked(bailOnViolation, old(ruleViolations), verdict, ruleViolations, StorageRules(f))
              && r == (if verdict.Pass? && StorageCrash(f) then Fail(NoEntityAddress) else verdict)
              && (r.Pass? ==> storageMap == StorageAfter(f.run, call, old(storageMap)))
    {
      hide SlotReport, SlotViolations, Touched;
      if call.to == sys.entryPoint || sys.nonceManager == Some(call.to) {
        return Pass;
      }
      var s := call.slots;
      var allSlots := s.writeKeys + s.readKeys + s.transientWriteKeys + s.transientReadKeys;
      ghost var f := FrameOfCall(op, call, depth, context);
      if currentEntity == NoEntity && allSlots != [] {
        assert StorageCrash(f);
        return Fail(NoEntityAddress);
      }
      var entitySlots := ParseEntitySlots(op);
      assert StorageRules(f) == SlotViolations(f, allSlots) && !StorageCrash(f);
      r := CheckSlots(op, call, depth, context, entitySlots, allSlots);
    }

    /** Records every slot and checks it, up to the first violation that throws. */
    method CheckSlots(op: UserOperation, call: Call, depth: nat, context: Address,
                      entitySlots: map<Address, set<Word>>, allSlots: seq<Word>) returns (r: Check)
      requires forall a: Address :: SlotsOf(entitySlots, a) == EntitySlots(RunOf(op), a)
      modifies this`ruleViolations, this`storageMap
      ensures Checked(bailOnViolation, old(ruleViolations), r, ruleViolations,
                      SlotViolations(FrameOfCall(op, call, depth, context), allSlots))
      ensures r.Pass? ==> storageMap == Touched(old(storageMap), call.to, allSlots)
    {
      hide SlotReport;
      ghost var f, done := FrameOfCall(op, call, depth, context), [];
      assert allSlots[0..] == allSlots;
      for i := 0 to |allSlots|
        invariant Checked(bailOnViolation, old(ruleViolations), Pass, ruleViolations, done)
        invariant SlotViolations(f, allSlots) == done + SlotViolations(f, allSlots[i..])
        invariant Touched(storageMap, call.to, allSlots[i..]) == Touched(old(storageMap), call.to, allSlots)
      {
        ghost var rest, listed := allSlots[i..], ruleViolations;
        assert rest[0] == allSlots[i] && rest[1..] == allSlots[i + 1..];
        var slot := allSlots[i];
        storageMap := storageMap[call.to := Slots(SlotsAt(storageMap, call.to)[slot := ""])];
        r := CheckSlot(op, call, depth, context, entitySlots, slot);
        CheckedItem(bailOnViolation, old(ruleViolations), listed, r, ruleViolations, SlotViolations(f, allSlots), done,
                    SlotReport(f, slot), SlotViolations(f, rest[1..]));
        if r.Fail? {
          return;
        }
        done := done + SlotReport(f, slot);
      }
      return Pass;
    }

    /** The storage rules for one accessed slot. */
    method CheckSlot(op: UserOperation, call: Call, depth: nat, context: Address,
                     entitySlots: map<Address, set<Word>>, slot: Word) returns (r: Check)
      requires forall a: Address :: SlotsOf(entitySlots, a) == EntitySlots(RunOf(op), a)
      modifies this`ruleViolations
      ensures Checked(bailOnViolation, old(ruleViolations), r, ruleViolations,
                      SlotReport(FrameOfCall(op, call, depth, context), slot))
    {
      ghost var f := FrameOfCall(op, call, depth, context);
      var isEntityStaked := EntityStaked(RunOf(op), currentEntity);
      var isFactoryStaked := EntityStaked(RunOf(op), Factory);
      var ifEntityStaked, isSenderAssociated := RelateSlot(op, call, entitySlots, slot);
      assert ifEntityStaked == IfEntityStaked(f, slot);
      var isSenderCreation := op.factory.Some?;
      var ifFactoryStaked := isSenderAssociated && isSenderCreation;
      var allowed := call.to == op.sender || (isSenderAssociated && !isSenderCreation)
        || (ifFactoryStaked && isFactoryStaked) || (ifEntityStaked && isEntityStaked);
      if allowed {
        return Pass;
      }
      var unstaked := (ifEntityStaked && !isEntityStaked) || (ifFactoryStaked && !isFactoryStaked);
      var description := DescribeSlot(currentEntity, call, NameOf(RunOf(op), call.to), slot, unstaked);
      r := ViolationDetected(Violation(STO010, depth, currentEntity, call.to, context, call.frameType,
                                       NoOpcode, None, description));
    }

    /** Whether a stake of the running entity would allow the slot, and whether the slot belongs to the sender. */
    method RelateSlot(op: UserOperation, call: Call, entitySlots: map<Address, set<Word>>, slot: Word)
      returns (ifEntityStaked: bool, isSenderAssociated: bool)
      requires forall a: Address :: SlotsOf(entitySlots, a) == EntitySlots(RunOf(op), a)
      ensures ifEntityStaked <==>
                || call.to == currentEntityAddress
                || Associated(RunOf(op), slot, currentEntityAddress)
                || (slot !in call.slots.writeKeys && slot !in call.slots.transientWriteKeys)
      ensures isSenderAssociated <==> Associated(RunOf(op), slot, op.sender)
    {
      isSenderAssociated := AssociatedWith(slot, op.sender, entitySlots);
      var isEntityInternal := call.to == currentEntityAddress;
      var isEntityAssociated := AssociatedWith(slot, currentEntityAddress, entitySlots);
      var isReadOnly := slot !in call.slots.writeKeys && slot !in call.slots.transientWriteKeys;
      ifEntityStaked := isEntityInternal || isEntityAssociated || isReadOnly;
    }
  }
}
