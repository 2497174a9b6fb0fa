/** The older storage-rule engine, and where it agrees with the per-slot rules of the rule checker. */
module LegacyStorageRules {
  import opened Basics
  import opened ByteStrings
  import opened UserOperations
  import opened CallTraces
  import opened RuleChecker
  import R = Reputation

  // ---- The tables the engine works on ----

  /** Stake information by address: the sender, then the factory, then the paymaster. */
  function StakeTable(run: Run): map<Address, Option<R.StakeInfo>> {
    var t := map[run.op.sender := Some(run.stakes.sender)];
    var t' := if run.op.factory.Some? then t[run.op.factory.value := run.stakes.factory] else t;
    if run.op.paymaster.Some? then t'[run.op.paymaster.value := run.stakes.paymaster] else t'
  }

  function StakeOf(run: Run, a: Address): Option<R.StakeInfo> {
    if a in StakeTable(run) then StakeTable(run)[a] else None
  }

  /** An address owns slots when some stake information carries it. */
  ghost predicate Known(run: Run, a: Address) {
    exists b <- StakeTable(run).Keys :: StakeTable(run)[b].Some? && StakeTable(run)[b].value.addr == a
  }

  ghost function LegacySlots(run: Run, a: Address): set<Word> {
    if Known(run, a) then HashesFrom(run.sys.keccak256, run.keccak, a) else {}
  }

  ghost predicate LegacyAssociated(run: Run, slot: Word, a: Address) {
    slot == FromBytes(a) || Near(slot, LegacySlots(run, a))
  }

  /** What the scan makes of one slot. */
  datatype SlotVerdict = Free | NeedsStake | Forbidden

  predicate LegacyCreation(run: Run) {
    run.op.factory.Some? && run.op.factory.value != ADDRESS_ZERO
  }

  ghost function LegacySlot(run: Run, entity: Address, addr: Address, s: AccessedSlots, slot: Word): SlotVerdict {
    if LegacyAssociated(run, slot, run.op.sender) then
      if LegacyCreation(run) && !(entity == run.op.sender && IsStaked(StakeOf(run, run.op.factory.value)))
      then NeedsStake
      else Free
    else if LegacyAssociated(run, slot, entity) then NeedsStake
    else if addr == entity then NeedsStake
    else if slot !in s.writeKeys && slot !in s.transientWriteKeys then NeedsStake
    else Forbidden
  }

  /** Accepted: exempt storage, or no forbidden slot, and a stake if any slot needs one. */
  ghost predicate LegacyAccepts(run: Run, entity: Address, addr: Address, s: AccessedSlots) {
    || addr == run.op.sender || addr == run.sys.entryPoint
    || (&& (forall slot <- AllSlots(s) :: LegacySlot(run, entity, addr, s, slot) != Forbidden)
        && ((exists slot <- AllSlots(s) :: LegacySlot(run, entity, addr, s, slot) == NeedsStake) ==>
              IsStaked(StakeOf(run, entity))))
  }

  // ---- The scan, with its deferred stake check ----

  class TracerResultParser {
    const run: Run

    constructor (run: Run)
      ensures this.run == run
    {
      this.run := run;
    }

    /** The slots each stake information owns; every known address has an entry. */
    method ParseEntitySlots() returns (entitySlots: map<Address, set<Word>>)
      ensures forall a: Address ::
        (a in entitySlots ==> Known(run, a)) && SlotsOf(entitySlots, a) == LegacySlots(run, a)
    {
      entitySlots := map[];
      var table := StakeTable(run);
      var pending := table.Keys;
      while pending != {}
        invariant pending <= table.Keys
        invariant forall a: Address :: a in entitySlots <==> KnownAmong(run, table.Keys - pending, a)
        invariant forall a: Address ::
          a in entitySlots ==> entitySlots[a] == HashesFrom(run.sys.keccak256, run.keccak, a)
        decreases pending
      {
        var b :| b in pending;
        ghost var before := table.Keys - pending;
        pending := pending - {b};
        assert table.Keys - pending == before + {b};
        if table[b].Some? {
          var a := table[b].value.addr;
          var hashes := Hashes(a);
          entitySlots := entitySlots[a := hashes];
        }
      }
      forall a: Address
        ensures Known(run, a) <==> KnownAmong(run, table.Keys, a)
      {
      }
    }

    method Hashes(a: Address) returns (hashes: set<Word>)
      ensures hashes == HashesFrom(run.sys.keccak256, run.keccak, a)
    {
      hashes := {};
      for i := 0 to |run.keccak|
        invariant hashes == HashesFrom(run.sys.keccak256, run.keccak[..i], a)
      {
        assert run.keccak[..i + 1][..i] == run.keccak[..i];
        if StartsWith(run.keccak[i], ZeroPad(a, 32)) {
          hashes := hashes + {run.sys.keccak256(run.keccak[i])};
        }
      }
      assert run.keccak[..|run.keccak|] == run.keccak;
    }

    method AssociatedWith(slot: Word, a: Address, entitySlots: map<Address, set<Word>>) returns (r: bool)
      ensures r <==> slot == FromBytes(a) || Near(slot, SlotsOf(entitySlots, a))
    {
      if slot == FromBytes(a) {
        return true;
      }
      if a !in entitySlots {
        return false;
      }
      var pending := entitySlots[a];
      while pending != {}
        invariant pending <= entitySlots[a]
        invariant forall base <- entitySlots[a] :: base in pending || !(base <= slot < base + STRUCT_SIZE)
        decreases pending
      {
        var base :| base in pending;
        if base <= slot < base + STRUCT_SIZE {
          return true;
        }
        pending := pending - {base};
      }
      return false;
    }

    /** Scans all slots of one contract; the stake of the entity is checked only at the end. */
    method CheckAccess(entity: Address, addr: Address, s: AccessedSlots, entitySlots: map<Address, set<Word>>)
      returns (accepted: bool)
      requires forall a: Address :: SlotsOf(entitySlots, a) == LegacySlots(run, a)
      ensures accepted <==> LegacyAccepts(run, entity, addr, s)
    {
      if addr == run.op.sender {
        return true;
      }
      if addr == run.sys.entryPoint {
        return true;
      }
      var requireStakeSlot: Option<Word> := None;
      var slots := s.writeKeys + s.readKeys + s.transientWriteKeys + s.transientReadKeys;
      for i := 0 to |slots|
        invariant forall k | 0 <= k < i :: LegacySlot(run, entity, addr, s, slots[k]) != Forbidden
        invariant requireStakeSlot.Some? <==>
          exists k :: 0 <= k < i && LegacySlot(run, entity, addr, s, slots[k]) == NeedsStake
      {
        var slot := slots[i];
        var senderAssociated := AssociatedWith(slot, run.op.sender, entitySlots);
        var entityAssociated := AssociatedWith(slot, entity, entitySlots);
        if senderAssociated {
          if LegacyCreation(run) {
            if !(entity == run.op.sender && IsStaked(StakeOf(run, run.op.factory.value))) {
              requireStakeSlot := Some(slot);
            }
          }
        } else if entityAssociated {
          requireStakeSlot := Some(slot);
        } else if addr == entity {
          requireStakeSlot := Some(slot);
        } else if slot !in s.writeKeys && slot !in s.transientWriteKeys {
          requireStakeSlot := Some(slot);
        } else {
          assert LegacySlot(run, entity, addr, s, slots[i]) == Forbidden && slots[i] in AllSlots(s);
          return false;
        }
      }
      assert slots == AllSlots(s);
      accepted := requireStakeSlot.None? || IsStaked(StakeOf(run, entity));
    }

    static function SlotsOf(entitySlots: map<Address, set<Word>>, a: Address): set<Word> {
      if a in entitySlots then entitySlots[a] else {}
    }
  }

  ghost predicate KnownAmong(run: Run, keys: set<Address>, a: Address) {
    exists b <- keys :: b in StakeTable(run) && StakeTable(run)[b].Some? && StakeTable(run)[b].value.addr == a
  }

  // ---- Agreement of the two engines ----

  /** The stake information comes from one table of deposits; the EIP-7702 marker has none. */
  ghost predicate Consistent(run: Run, deposits: Address -> R.StakeInfo) {
    && (forall a: Address :: deposits(a).addr == a)
    && run.stakes.sender == deposits(run.op.sender)
    && (run.op.factory.Some? ==>
          run.stakes.factory
          == if run.op.factory.value == EIP_7702_MARKER then None else Some(deposits(run.op.factory.value)))
    && (run.op.paymaster.Some? ==> run.stakes.paymaster == Some(deposits(run.op.paymaster.value)))
    && run.op.sender != EIP_7702_MARKER && run.op.paymaster != Some(EIP_7702_MARKER)
  }

  /** The entity an EntryPoint call can put in charge. */
  predicate ProperWho(run: Run, who: Who) {
    match who.entity
    case Account => who.address == run.op.sender
    case Factory =>
      run.op.factory == Some(who.address) && who.address != run.op.sender && who.address != EIP_7702_MARKER
    case Paymaster => run.op.paymaster == Some(who.address) && who.address != run.op.sender
    case _ => false
  }

  lemma SameStakes(run: Run, deposits: Address -> R.StakeInfo, who: Who)
    requires Consistent(run, deposits) && ProperWho(run, who)
    ensures IsStaked(StakeOf(run, who.address)) == EntityStaked(run, who.entity)
    ensures LegacySlots(run, who.address) == EntitySlots(run, who.address)
    ensures LegacySlots(run, run.op.sender) == EntitySlots(run, run.op.sender)
    ensures run.op.factory.Some? ==> IsStaked(StakeOf(run, run.op.factory.value)) == EntityStaked(run, Factory)
  {
    assert run.op.sender in StakeTable(run) && who.address in StakeTable(run);
    assert StakeTable(run)[who.address] == Some(deposits(who.address));
    assert StakeTable(run)[run.op.sender] == Some(deposits(run.op.sender));
  }

  predicate LegacyAllows(v: SlotVerdict, staked: bool) {
    v == Free || (v == NeedsStake && staked)
  }

  /** A sender-associated slot touched while the account is being created, by an entity other than the account. */
  ghost predicate ForeignDuringCreation(f: Frame, slot: Word) {
    f.run.op.factory.Some? && f.who.entity == Paymaster && Associated(f.run, slot, f.run.op.sender)
  }

  /**
   * The older engine goes by the contract whose storage is accessed, the newer by the code that runs. For the rules it
   * makes no difference as long as both are the account, both the EntryPoint, both the entity, or neither.
   */
  predicate SameStanding(f: Frame, owner: Address) {
    && (owner == f.run.op.sender <==> f.call.to == f.run.op.sender)
    && (owner == f.run.sys.entryPoint <==> f.call.to == f.run.sys.entryPoint)
    && (owner == f.who.address <==> f.call.to == f.who.address)
  }

  ghost predicate LegacyAllowsSlot(f: Frame, owner: Address, slot: Word) {
    LegacyAllows(LegacySlot(f.run, f.who.address, owner, f.call.slots, slot), EntityStaked(f.run, f.who.entity))
  }

  /**
   * Slot by slot the engines agree, except when the paymaster touches a sender-associated slot during creation: then
   * the older engine asks for the paymaster's stake, the newer for the factory's or the paymaster's own right.
   */
  lemma SlotAgreement(f: Frame, owner: Address, deposits: Address -> R.StakeInfo, slot: Word)
    requires Consistent(f.run, deposits) && ProperWho(f.run, f.who) && SameStanding(f, owner)
    requires !SystemFrame(f.run, f.call) && f.call.to != f.run.op.sender
    requires f.run.op.factory != Some(ADDRESS_ZERO)
    ensures var staked := EntityStaked(f.run, f.who.entity);
            if ForeignDuringCreation(f, slot) then
              && LegacyAllowsSlot(f, owner, slot) == staked
              && SlotAllowed(f, slot) == (EntityStaked(f.run, Factory) || (staked && IfEntityStaked(f, slot)))
            else
              && LegacyAllowsSlot(f, owner, slot) == SlotAllowed(f, slot)
              && (f.run.op.factory.Some? && f.who.entity == Paymaster ==>
                    SlotAllowed(f, slot) == (staked && IfEntityStaked(f, slot)))
  {
    SameStakes(f.run, deposits, f.who);
  }

  lemma {:induction false} NoSlotViolations(f: Frame, slots: seq<Word>)
    ensures SlotViolations(f, slots) == [] <==> forall slot <- slots :: SlotAllowed(f, slot)
  {
    if slots != [] {
      NoSlotViolations(f, slots[1..]);
      assert forall slot :: slot in slots <==> slot == slots[0] || slot in slots[1..];
    }
  }

  /** Both engines decide slot by slot, the older one only outside the account and the EntryPoint. */
  lemma EnginesAreSlotwise(f: Frame, owner: Address, deposits: Address -> R.StakeInfo)
    requires Consistent(f.run, deposits) && ProperWho(f.run, f.who) && !SystemFrame(f.run, f.call)
    ensures StorageRules(f) == [] <==> forall slot <- AllSlots(f.call.slots) :: SlotAllowed(f, slot)
    ensures LegacyAccepts(f.run, f.who.address, owner, f.call.slots)
       <==> || owner == f.run.op.sender || owner == f.run.sys.entryPoint
            || forall slot <- AllSlots(f.call.slots) :: LegacyAllowsSlot(f, owner, slot)
  {
    SameStakes(f.run, deposits, f.who);
    NoSlotViolations(f, AllSlots(f.call.slots));
    hide LegacySlot, SlotAllowed;
  }

  // ---- The exact condition ----

  /** No paymaster touches a sender-associated slot during creation, or stakes and other slots make up for it. */
  ghost predicate EnginesMeet(f: Frame) {
    var slots := AllSlots(f.call.slots);
    || f.call.to == f.run.op.sender
    || (forall slot <- slots :: !ForeignDuringCreation(f, slot))
    || if EntityStaked(f.run, Paymaster) then
         || EntityStaked(f.run, Factory)
         || (forall slot <- slots :: ForeignDuringCreation(f, slot) ==> IfEntityStaked(f, slot))
         || (exists slot <- slots :: !ForeignDuringCreation(f, slot) && !IfEntityStaked(f, slot))
       else
         !EntityStaked(f.run, Factory) || (exists slot <- slots :: !ForeignDuringCreation(f, slot))
  }

  /** Over all access sets outside system contracts: the engines accept the same exactly under that condition. */
  lemma EnginesAgreeIff(f: Frame, owner: Address, deposits: Address -> R.StakeInfo)
    requires Consistent(f.run, deposits) && ProperWho(f.run, f.who) && !SystemFrame(f.run, f.call)
    requires f.run.op.factory != Some(ADDRESS_ZERO) && SameStanding(f, owner)
    ensures (LegacyAccepts(f.run, f.who.address, owner, f.call.slots) <==> StorageRules(f) == []) <==> EnginesMeet(f)
  {
    EnginesAreSlotwise(f, owner, deposits);
    if f.call.to == f.run.op.sender {
      assert forall slot :: SlotAllowed(f, slot);
    } else {
      forall slot
        ensures var staked := EntityStaked(f.run, f.who.entity);
                if ForeignDuringCreation(f, slot) then
                  && LegacyAllowsSlot(f, owner, slot) == staked
                  && SlotAllowed(f, slot) == (EntityStaked(f.run, Factory) || (staked && IfEntityStaked(f, slot)))
                else
                  && LegacyAllowsSlot(f, owner, slot) == SlotAllowed(f, slot)
                  && (f.run.op.factory.Some? && f.who.entity == Paymaster ==>
                        SlotAllowed(f, slot) == (staked && IfEntityStaked(f, slot)))
      {
        SlotAgreement(f, owner, deposits, slot);
      }
      hide LegacyAccepts, StorageRules, LegacyAllowsSlot, SlotAllowed, IfEntityStaked, Associated;
    }
  }

  /** So they always agree when no paymaster touches a sender-associated slot during creation. */
  lemma EnginesAgree(f: Frame, owner: Address, deposits: Address -> R.StakeInfo)
    requires Consistent(f.run, deposits) && ProperWho(f.run, f.who) && !SystemFrame(f.run, f.call)
    requires f.run.op.factory != Some(ADDRESS_ZERO) && SameStanding(f, owner)
    requires forall slot <- AllSlots(f.call.slots) :: !ForeignDuringCreation(f, slot)
    ensures LegacyAccepts(f.run, f.who.address, owner, f.call.slots) <==> StorageRules(f) == []
  {
    EnginesAgreeIff(f, owner, deposits);
  }

  // ---- Proxies ----

  /** What the newer engine allows code that the account delegates to. */
  ghost predicate ProxySlotAllowed(f: Frame, slot: Word) {
    if Associated(f.run, slot, f.run.op.sender) then
      f.run.op.factory.None? || EntityStaked(f.run, Factory) || EntityStaked(f.run, Account)
    else
      EntityStaked(f.run, Account) && slot !in f.call.slots.writeKeys && slot !in f.call.slots.transientWriteKeys
  }

  /**
   * An account that delegates to an implementation: for the older engine the accesses are the account's own, the newer
   * judges them as accesses to the implementation. They agree exactly when that would be allowed, too.
   */
  lemma ProxyAccountIff(f: Frame, deposits: Address -> R.StakeInfo)
    requires Consistent(f.run, deposits) && f.who == Who(Account, f.run.op.sender) && !SystemFrame(f.run, f.call)
    requires f.call.to != f.run.op.sender
    ensures (LegacyAccepts(f.run, f.who.address, f.run.op.sender, f.call.slots) <==> StorageRules(f) == [])
       <==> forall slot <- AllSlots(f.call.slots) :: ProxySlotAllowed(f, slot)
  {
    EnginesAreSlotwise(f, f.run.op.sender, deposits);
    assert forall slot :: SlotAllowed(f, slot) == ProxySlotAllowed(f, slot);
  }

  /**
   * Likewise a factory or paymaster behind a proxy: the older engine asks for its stake only, the newer does not let
   * it write to what it takes for the implementation's storage.
   */
  lemma ProxyEntityIff(f: Frame, owner: Address, deposits: Address -> R.StakeInfo)
    requires Consistent(f.run, deposits) && ProperWho(f.run, f.who) && !SystemFrame(f.run, f.call)
    requires f.run.op.factory != Some(ADDRESS_ZERO) && f.who.entity != Account
    requires owner == f.who.address && owner != f.run.sys.entryPoint
    requires f.call.to != owner && f.call.to != f.run.op.sender
    requires forall slot <- AllSlots(f.call.slots) :: !ForeignDuringCreation(f, slot)
    ensures (LegacyAccepts(f.run, f.who.address, owner, f.call.slots) <==> StorageRules(f) == [])
       <==> !EntityStaked(f.run, f.who.entity)
            || forall slot <- AllSlots(f.call.slots) ::
                 Associated(f.run, slot, f.run.op.sender) || IfEntityStaked(f, slot)
  {
    EnginesAreSlotwise(f, owner, deposits);
    forall slot | slot in AllSlots(f.call.slots)
      ensures LegacyAllowsSlot(f, owner, slot) ==
                if Associated(f.run, slot, f.run.op.sender) then SlotAllowed(f, slot)
                else EntityStaked(f.run, f.who.entity)
      ensures SlotAllowed(f, slot) ==
                if Associated(f.run, slot, f.run.op.sender) then
                  f.run.op.factory.None? || EntityStaked(f.run, f.who.entity)
                else EntityStaked(f.run, f.who.entity) && IfEntityStaked(f, slot)
    {
      SameStakes(f.run, deposits, f.who);
    }
    hide LegacyAccepts, StorageRules, LegacyAllowsSlot, SlotAllowed, IfEntityStaked, Associated;
  }
}
