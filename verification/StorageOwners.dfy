/** Whose storage the frames of a trace access, and which owners the storage map names. */
module StorageOwners {
  import opened Basics
  import opened ByteStrings
  import opened CallTraces
  import opened StorageMaps
  import opened RuleChecker
  import opened Attribution

  // ---- Whose storage a frame accesses ----

  /** A visited frame with the contract whose storage it accesses. */
  datatype OwnedFrame = OwnedFrame(call: Call, owner: Address)

  /** Delegated code runs on the storage of its caller. */
  function ChildOwner(call: Call, owner: Address): Address {
    if call.frameType == DELEGATECALL || call.frameType == CALLCODE then owner else call.to
  }

  function OwnedFrames(run: Run, call: Call, owner: Address): seq<OwnedFrame>
    decreases call, 1
  {
    if SelfCall(run, call) then [] else [OwnedFrame(call, owner)] + OwnedFramesAll(run, call.calls, owner)
  }

  function OwnedFramesAll(run: Run, calls: seq<Call>, owner: Address): seq<OwnedFrame>
    decreases calls, 0
  {
    if calls == [] then []
    else OwnedFrames(run, calls[0], ChildOwner(calls[0], owner)) + OwnedFramesAll(run, calls[1..], owner)
  }

  predicate Accesses(run: Run, f: OwnedFrame, a: Address, slot: Word) {
    !SystemFrame(run, f.call) && f.owner == a && slot in AllSlots(f.call.slots)
  }

  /** A frame outside system code that accesses storage. */
  predicate Touching(run: Run, call: Call) {
    !SystemFrame(run, call) && AllSlots(call.slots) != []
  }

  lemma {:induction false} OwnedFramesVisited(run: Run, call: Call, owner: Address)
    ensures forall f <- OwnedFrames(run, call, owner) :: f.call in Visited(run, call)
    decreases call, 1
  {
    if !SelfCall(run, call) {
      OwnedFramesAllVisited(run, call.calls, owner);
    }
  }

  lemma {:induction false} OwnedFramesAllVisited(run: Run, calls: seq<Call>, owner: Address)
    ensures forall f <- OwnedFramesAll(run, calls, owner) :: f.call in VisitedAll(run, calls)
    decreases calls, 0
  {
    if calls != [] {
      OwnedFramesVisited(run, calls[0], ChildOwner(calls[0], owner));
      OwnedFramesAllVisited(run, calls[1..], owner);
    }
  }

  /** A visited frame that runs the code of a accesses storage. */
  predicate TouchesItself(run: Run, call: Call, a: Address) {
    exists g <- Visited(run, call) :: Touching(run, g) && g.to == a
  }

  /** The storage map names exactly the addresses at which a visited frame outside system code accesses storage. */
  lemma NamedIffTouched(run: Run, bail: bool, call: Call, a: Address)
    requires ParseOutcome(run, bail, call).Returned?
    ensures a in ParseOutcome(run, bail, call).state.found.storage <==> TouchesItself(run, call, a)
  {
    var storage := ParseOutcome(run, bail, call).state.found.storage;
    StorageMapIsFootprint(run, bail, call, a, 0);
    if a in storage {
      var slot :| slot in storage[a].slots;
      StorageMapIsFootprint(run, bail, call, a, slot);
      var g :| g in Visited(run, call) && TouchesSlot(run, g, a, slot);
      assert Touching(run, g);
    }
    if g :| g in Visited(run, call) && Touching(run, g) && g.to == a {
      StorageMapIsFootprint(run, bail, call, a, AllSlots(g.slots)[0]);
      assert TouchesSlot(run, g, a, AllSlots(g.slots)[0]);
    }
  }

  /** The map names every contract other than the account whose storage the trace accesses. */
  predicate NamesOwners(run: Run, call: Call, storage: StorageMap) {
    forall f <- OwnedFrames(run, call, call.to) ::
      Touching(run, f.call) && f.owner != run.op.sender ==> f.owner in storage
  }

  /** Every such contract that delegates an access also runs code of its own that accesses storage. */
  predicate DelegatorsTouch(run: Run, call: Call) {
    forall f <- OwnedFrames(run, call, call.to) ::
      Touching(run, f.call) && f.owner != run.op.sender && f.owner != f.call.to ==> TouchesItself(run, call, f.owner)
  }

  /** Frames are recorded under the code they run, so owners are named exactly when no delegator stays in the dark. */
  lemma OwnersNamedIff(run: Run, bail: bool, call: Call)
    requires ParseOutcome(run, bail, call).Returned?
    ensures NamesOwners(run, call, ParseOutcome(run, bail, call).state.found.storage) <==> DelegatorsTouch(run, call)
  {
    hide ParseOutcome;
    OwnedFramesVisited(run, call, call.to);
    forall f | f in OwnedFrames(run, call, call.to) && Touching(run, f.call)
      ensures f.owner in ParseOutcome(run, bail, call).state.found.storage <==> TouchesItself(run, call, f.owner)
      ensures f.call in Visited(run, call)
    {
      NamedIffTouched(run, bail, call, f.owner);
    }
  }

  // ---- A delegator in the dark ----

  function DelegatedAccess(a: Address, clone: Address, implementation: Address): Call {
    var slots := AccessedSlots([FromBytes(a)], [FromBytes(a)], [], []);
    Call(DELEGATECALL, clone, implementation, Fallback, None, false, [], [], [], slots, [])
  }

  /** The account calls a clone, whose implementation reads and writes a slot associated with the account. */
  function CloneTrace(run: Run, clone: Address, implementation: Address): Call {
    var a := run.op.sender;
    PlainCall(ADDRESS_ZERO, run.sys.entryPoint, false,
              [PlainCall(run.sys.entryPoint, a, false,
                         [PlainCall(a, clone, false, [DelegatedAccess(a, clone, implementation)])])])
  }

  predicate CloneParties(run: Run, clone: Address, implementation: Address) {
    var a, entryPoint := run.op.sender, run.sys.entryPoint;
    && a != ADDRESS_ZERO && a != entryPoint && a != run.sys.senderCreator
    && entryPoint != ADDRESS_ZERO && run.op.factory.None? && run.op.paymaster.None?
    && clone != ADDRESS_ZERO && clone != entryPoint && clone != run.sys.senderCreator
    && implementation != entryPoint && run.sys.nonceManager != Some(implementation) && implementation != clone
  }

  /** The strict walk accepts the trace, and its storage map names the implementation but not the clone. */
  lemma CloneStaysInTheDark(run: Run, clone: Address, implementation: Address)
    requires CloneParties(run, clone, implementation)
    ensures var call, slot := CloneTrace(run, clone, implementation), FromBytes(run.op.sender);
            var o := ParseOutcome(run, true, call);
            var owned := OwnedFrame(DelegatedAccess(run.op.sender, clone, implementation), clone);
            && o.Returned? && o.state.found.storage == map[implementation := Slots(map[slot := ""])]
            && owned in OwnedFrames(run, call, call.to) && Accesses(run, owned, clone, slot)
  {
    hide FrameOutcome, JudgeFrames, Held, Visit, IsPlain, OwnedFrames;
    var call := CloneTrace(run, clone, implementation);
    CloneWalk(run, clone, implementation);
    VisitJudgesHeld(run, true, call, 0, call.to, WalkState(NOBODY, NO_FINDINGS));
    CloneJudged(Held(run, call, 0, call.to, NOBODY).frames, run.op.sender, clone, implementation);
    CloneOwned(run, clone, implementation);
  }

  lemma CloneWalk(run: Run, clone: Address, implementation: Address)
    requires CloneParties(run, clone, implementation)
    ensures var a, call := run.op.sender, CloneTrace(run, clone, implementation);
            var w := Held(run, call, 0, call.to, NOBODY);
            && w.lost.None? && |w.frames| == 4
            && (forall i | 0 <= i < 3 :: IsPlain(w.frames[i]) && !w.frames[i].call.outOfGas)
            && w.frames[3] == Frame(run, Who(Account, a), DelegatedAccess(a, clone, implementation), 3, clone)
  {
    var a, call := run.op.sender, CloneTrace(run, clone, implementation);
    var account, system := Who(Account, a), Who(EntryPoint, run.sys.entryPoint);
    var c1 := call.calls[0];
    var c2 := c1.calls[0];
    var c3 := c2.calls[0];
    LeafWalks(run, c3, 3, clone, account);
    SingleWalks(run, c3, 3, clone, account);
    SingleWalks(run, c2, 2, a, account);
    SingleWalks(run, c1, 1, run.sys.entryPoint, system);
    var f0, f1 := Frame(run, system, call, 0, run.sys.entryPoint), Frame(run, account, c1, 1, a);
    var f2, f3 := Frame(run, account, c2, 2, clone), Frame(run, account, c3, 3, clone);
    assert Held(run, c2, 2, clone, account).frames == [f2, f3];
    assert Held(run, c1, 1, a, system).frames == [f1, f2, f3];
    assert Held(run, call, 0, call.to, NOBODY) == Walk([f0, f1, f2, f3], account, None);
  }

  lemma CloneOwned(run: Run, clone: Address, implementation: Address)
    requires CloneParties(run, clone, implementation)
    ensures var call := CloneTrace(run, clone, implementation);
            OwnedFrame(DelegatedAccess(run.op.sender, clone, implementation), clone) in OwnedFrames(run, call, call.to)
  {
    var call := CloneTrace(run, clone, implementation);
    var c1 := call.calls[0];
    var c2 := c1.calls[0];
    var c3 := c2.calls[0];
    assert OwnedFrames(run, c3, clone)[0] == OwnedFrame(c3, clone);
    assert OwnedFramesAll(run, [c3], clone)[0] == OwnedFrame(c3, clone);
    assert OwnedFrames(run, c2, clone)[1] == OwnedFrame(c3, clone);
    assert OwnedFramesAll(run, [c2], c1.to)[1] == OwnedFrame(c3, clone);
    assert OwnedFrames(run, c1, c1.to)[2] == OwnedFrame(c3, clone);
    assert OwnedFramesAll(run, [c1], call.to)[2] == OwnedFrame(c3, clone);
    assert OwnedFrames(run, call, call.to)[3] == OwnedFrame(c3, clone);
  }

  /** Plain frames are judged without finding anything, and the delegated access is allowed to the account. */
  lemma CloneJudged(frames: seq<Frame>, a: Address, clone: Address, implementation: Address)
    requires |frames| == 4 && forall i | 0 <= i < 3 :: IsPlain(frames[i]) && !frames[i].call.outOfGas
    requires var f := frames[3];
             && f.call == DelegatedAccess(a, clone, implementation) && f.run.op.sender == a && f.run.op.factory.None?
             && f.who == Who(Account, a)
             && implementation != f.run.sys.entryPoint && f.run.sys.nonceManager != Some(implementation)
    ensures var o := JudgeFrames(frames, true, NO_FINDINGS);
            o.Returned? && o.state.storage == map[implementation := Slots(map[FromBytes(a) := ""])]
  {
    hide FrameOutcome;
    var x0 := PlainPasses(frames[0], NO_FINDINGS);
    var x1 := PlainPasses(frames[1], x0);
    var x2 := PlainPasses(frames[2], x1);
    var x3 := DelegatedPasses(frames[3], x2, a, clone, implementation);
    assert frames[3..][1..] == [] && frames[2..][1..] == frames[3..] && frames[1..][1..] == frames[2..];
    assert JudgeFrames(frames[3..], true, x2) == Returned(x3);
    assert JudgeFrames(frames[2..], true, x1) == Returned(x3);
    assert JudgeFrames(frames[1..], true, x0) == Returned(x3);
  }

  lemma PlainPasses(f: Frame, found: Findings) returns (found': Findings)
    requires IsPlain(f) && !f.call.outOfGas
    ensures FrameOutcome(f, true, found) == Returned(found') && found'.storage == found.storage
  {
    PlainFrame(f, found);
    found' := Findings(found.violations + [], found.addresses + [f.call.to], found.storage);
  }

  lemma TouchedTwice(a: Address, slot: Word)
    ensures Touched(map[], a, [slot, slot]) == map[a := Slots(map[slot := ""])]
  {
    var slots: SlotMap := map[slot := ""];
    var once: StorageMap := map[a := Slots(slots)];
    assert [slot, slot][1..] == [slot] && [slot][1..] == [];
    assert SlotsAt(once, a)[slot := ""] == slots;
    assert once[a := Slots(slots)] == once;
    assert Touched(once, a, [slot]) == Touched(once, a, []);
    assert SlotsAt(map[], a)[slot := ""] == slots;
  }

  lemma DelegatedPasses(f: Frame, found: Findings, a: Address, clone: Address, implementation: Address)
    returns (found': Findings)
    requires f.call == DelegatedAccess(a, clone, implementation) && f.run.op.sender == a && f.run.op.factory.None?
    requires f.who == Who(Account, a) && found.storage == map[]
    requires implementation != f.run.sys.entryPoint && f.run.sys.nonceManager != Some(implementation)
    ensures FrameOutcome(f, true, found) == Returned(found')
    ensures found'.storage == map[implementation := Slots(map[FromBytes(a) := ""])]
  {
    var slot := FromBytes(a);
    assert AllSlots(f.call.slots) == [slot, slot];
    assert SlotAllowed(f, slot);
    assert SlotViolations(f, [slot, slot]) == SlotViolations(f, [slot]) == [] by {
      assert [slot, slot][1..] == [slot] && [slot][1..] == [];
    }
    assert OpcodeRules(f) == [] && CallRules(f) == [];
    assert EntityRules(f) == [];
    assert FrameViolations(f) == [];
    TouchedTwice(implementation, slot);
    found' := FrameOutcome(f, true, found).state;
  }
}
