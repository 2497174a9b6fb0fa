/** What is admitted to the mempool, and what a submission leaves alone. */
module MempoolAdmission {
  import opened Basics
  import opened UserOperations
  import opened Mempool
  import opened MempoolInvariants
  import opened WorldEvents
  import R = Reputation

  // ---- Slots ----

  /** Below 2^64 the sequence number and the key can be read off the packed nonce. */
  lemma PackedNonceParts(op: UserOperation)
    requires op.nonce < 0x1_0000_0000_0000_0000
    ensures PackedNonce(op) % 0x1_0000_0000_0000_0000 == op.nonce
    ensures PackedNonce(op) / 0x1_0000_0000_0000_0000 == op.nonceKey
  {
  }

  /** The entry of a slot: the one its sender and packed nonce find. */
  function SlotEntry(entries: seq<MempoolEntry>, sender: Address, nonce: nat): Option<MempoolEntry> {
    if entries == [] then None
    else if entries[0].op.sender == sender && PackedNonce(entries[0].op) == nonce then Some(entries[0])
    else SlotEntry(entries[1..], sender, nonce)
  }

  lemma {:induction false} SlotEntryIsFirst(entries: seq<MempoolEntry>, sender: Address, nonce: nat, i: nat)
    requires i <= |entries|
    ensures match FirstMatchFrom(entries, ByOp(sender, nonce), i)
            case None => SlotEntry(entries[i..], sender, nonce) == None
            case Some(j) => SlotEntry(entries[i..], sender, nonce) == Some(entries[j])
    decreases |entries| - i
  {
    if i < |entries| {
      assert entries[i..][0] == entries[i] && entries[i..][1..] == entries[i + 1..];
      SlotEntryIsFirst(entries, sender, nonce, i + 1);
    }
  }

  lemma SlotEntryIs(entries: seq<MempoolEntry>, sender: Address, nonce: nat)
    ensures match FirstMatch(entries, ByOp(sender, nonce))
            case None => SlotEntry(entries, sender, nonce) == None
            case Some(j) => SlotEntry(entries, sender, nonce) == Some(entries[j])
  {
    SlotEntryIsFirst(entries, sender, nonce, 0);
    assert entries[0..] == entries;
  }

  /** In a list with unique slots the entry of a slot is the one with that slot. */
  lemma {:induction false} SlotEntryUnique(entries: seq<MempoolEntry>, sender: Address, nonce: nat)
    requires UniqueSlots(entries)
    ensures forall e <- entries :: e.op.sender == sender && PackedNonce(e.op) == nonce ==>
              SlotEntry(entries, sender, nonce) == Some(e)
    ensures SlotEntry(entries, sender, nonce).Some? ==>
              var e := SlotEntry(entries, sender, nonce).value;
              e in entries && e.op.sender == sender && PackedNonce(e.op) == nonce
  {
    if entries != [] {
      var first, rest := entries[0], entries[1..];
      assert forall i, j | 0 <= i < j < |rest| :: rest[i] == entries[i + 1] && rest[j] == entries[j + 1];
      SlotEntryUnique(rest, sender, nonce);
      assert forall e :: e in entries <==> e == first || e in rest;
      forall e | e in rest
        ensures RefOf(e.op) != RefOf(first.op)
      {
        var j :| 0 <= j < |rest| && rest[j] == e;
        assert entries[0] == first && entries[j + 1] == e;
      }
    }
  }

  lemma SlotEntryMembers(xs: seq<MempoolEntry>, ys: seq<MempoolEntry>, sender: Address, nonce: nat)
    requires UniqueSlots(xs) && UniqueSlots(ys)
    requires forall e: MempoolEntry | e.op.sender == sender && PackedNonce(e.op) == nonce :: e in xs <==> e in ys
    ensures SlotEntry(xs, sender, nonce) == SlotEntry(ys, sender, nonce)
  {
    SlotEntryUnique(xs, sender, nonce);
    SlotEntryUnique(ys, sender, nonce);
  }

  // ---- Replacement ----

  predicate PaysTenPercentMore(old_: UserOperation, new_: UserOperation) {
    && 1.1 * old_.maxPriorityFeePerGas as real <= new_.maxPriorityFeePerGas as real
    && 1.1 * old_.maxFeePerGas as real <= new_.maxFeePerGas as real
  }

  /**
   * An operation for an occupied slot is accepted exactly when both its fees are at least 1.1 times the old ones;
   * otherwise the error names the first fee that falls short.
   */
  lemma ReplacementIff(c: R.Config, w: World, skip: bool, op: UserOperation, hash: Hash, v: ValidationInfo)
    requires R.ValidConfig(c) && SlotEntry(w.pool.entries, op.sender, PackedNonce(op)).Some?
    ensures var old_ := SlotEntry(w.pool.entries, op.sender, PackedNonce(op)).value.op;
            var r := Submitted(c, w, skip, op, hash, v);
            && (r.Ok? <==> PaysTenPercentMore(old_, op))
            && (r.Err? ==>
                  r.error == if 1.1 * old_.maxPriorityFeePerGas as real <= op.maxPriorityFeePerGas as real
                             then MaxFeeTooLow else PriorityFeeTooLow)
  {
    hide SeenUpdate;
    SlotEntryIs(w.pool.entries, op.sender, PackedNonce(op));
  }

  // ---- A free slot ----

  /** Whether an address has the stake the configuration asks for, or is trusted without one. */
  predicate Backed(c: R.Config, rep: R.Entries, info: R.StakeInfo)
    requires R.ValidConfig(c)
  {
    || info.addr in c.whitelist
    || (&& R.StatusOf(c, rep, Some(info.addr)) != R.BANNED
        && c.minStake <= info.stake && c.minUnstakeDelay <= info.unstakeDelaySec)
  }

  /** One entity may have one more pending operation. */
  predicate EntityMayEnter(c: R.Config, w: World, title: R.Title, info: Option<R.StakeInfo>)
    requires R.ValidConfig(c)
  {
    info.Some? ==>
      var a := info.value.addr;
      var pending := if a in w.pool.counts then w.pool.counts[a] else 0;
      && R.StatusOf(c, w.rep, Some(a)) != R.BANNED
      && (R.StatusOf(c, w.rep, Some(a)) == R.THROTTLED ==> pending <= 4)
      && (pending < R.MaxMempoolOpsUnstaked(w.rep, title, a) || Backed(c, w.rep, info.value))
  }

  /** No other pending operation uses the sender as an entity, or the entities as senders. */
  predicate RolesFree(entries: seq<MempoolEntry>, op: UserOperation) {
    forall e <- entries ::
      && e.op.paymaster != Some(op.sender) && e.op.factory != Some(op.sender)
      && op.paymaster != Some(e.op.sender) && op.factory != Some(e.op.sender)
  }

  /** An operation for a free slot is admitted exactly when each entity may enter and the roles are free. */
  lemma AdmissionIff(c: R.Config, w: World, skip: bool, op: UserOperation, hash: Hash, v: ValidationInfo)
    requires R.ValidConfig(c) && SlotEntry(w.pool.entries, op.sender, PackedNonce(op)).None?
    ensures Submitted(c, w, skip, op, hash, v).Ok? <==>
              || skip
              || (&& EntityMayEnter(c, w, R.Account, Some(v.senderInfo))
                  && EntityMayEnter(c, w, R.Paymaster, v.paymasterInfo)
                  && EntityMayEnter(c, w, R.Deployer, v.factoryInfo)
                  && EntityMayEnter(c, w, R.Aggregator, v.aggregatorInfo)
                  && RolesFree(w.pool.entries, op))
  {
    hide SeenUpdate, R.StatusOf, R.MaxMempoolOpsUnstaked;
    SlotEntryIs(w.pool.entries, op.sender, PackedNonce(op));
    RoleCheckIff(w.pool.entries, op);
    EntityCheckIff(c, w, R.Account, Some(v.senderInfo));
    EntityCheckIff(c, w, R.Paymaster, v.paymasterInfo);
    EntityCheckIff(c, w, R.Deployer, v.factoryInfo);
    EntityCheckIff(c, w, R.Aggregator, v.aggregatorInfo);
    hide EntityCheck, RoleCheck, EntityMayEnter, RolesFree;
  }

  lemma EntityCheckIff(c: R.Config, w: World, title: R.Title, info: Option<R.StakeInfo>)
    requires R.ValidConfig(c)
    ensures EntityCheck(c, w, title, info).Pass? <==> EntityMayEnter(c, w, title, info)
  {
    hide R.StatusOf, R.MaxMempoolOpsUnstaked;
  }

  lemma RoleCheckIff(entries: seq<MempoolEntry>, op: UserOperation)
    ensures RoleCheck(entries, op).Pass? <==> RolesFree(entries, op)
  {
    EntityIff(entries, op.sender);
    hide Entities;
  }

  lemma EntityIff(entries: seq<MempoolEntry>, a: Address)
    ensures a in Entities(entries) <==> exists e <- entries :: e.op.paymaster == Some(a) || e.op.factory == Some(a)
  {
    forall e | e in entries && (e.op.paymaster == Some(a) || e.op.factory == Some(a))
      ensures a in Entities(entries)
    {
      assert a in EntitiesOf(e.op);
    }
  }

  // ---- What an accepted submission changes ----

  /** The slot then holds the submitted operation, and every other slot what it held before. */
  lemma SubmissionFillsSlot(c: R.Config, w: World, skip: bool, op: UserOperation, hash: Hash, v: ValidationInfo,
                            sender: Address, nonce: nat)
    requires R.ValidConfig(c) && UniqueSlots(w.pool.entries) && Submitted(c, w, skip, op, hash, v).Ok?
    ensures var w' := Submitted(c, w, skip, op, hash, v).value;
            var found := SlotEntry(w'.pool.entries, sender, nonce);
            if sender == op.sender && nonce == PackedNonce(op) then
              && found.Some? && found.value.op == op && found.value.hash == hash && found.value.skipValidation == skip
              && found.value.prefund == (if v.prefund.Some? then v.prefund.value else 0)
              && found.value.referencedContracts == v.referencedContracts
              && (found.value.aggregator.Some? <==> v.aggregatorInfo.Some?)
              && (v.aggregatorInfo.Some? ==> found.value.aggregator.value == v.aggregatorInfo.value.addr)
            else found == SlotEntry(w.pool.entries, sender, nonce)
  {
    var w' := Submitted(c, w, skip, op, hash, v).value;
    SubmittedKeepsUnique(c, w, skip, op, hash, v);
    SubmittedEntries(c, w, skip, op, hash, v);
    SlotEntryUnique(w'.pool.entries, op.sender, PackedNonce(op));
    if !(sender == op.sender && nonce == PackedNonce(op)) {
      hide Submitted, UniqueSlots;
      SlotEntryMembers(w.pool.entries, w'.pool.entries, sender, nonce);
    }
  }

  /**
   * An operation admitted to a free slot is counted as seen once for each of its roles of paymaster, factory and
   * aggregator, and for its sender if that has the stake asked for; nobody else's score moves.
   */
  lemma AdmissionSightings(c: R.Config, w: World, skip: bool, op: UserOperation, hash: Hash, v: ValidationInfo,
                           a: Address)
    requires R.ValidConfig(c) && SlotEntry(w.pool.entries, op.sender, PackedNonce(op)).None?
    requires Submitted(c, w, skip, op, hash, v).Ok?
    ensures var score, score' := R.Score(w.rep, a), R.Score(Submitted(c, w, skip, op, hash, v).value.rep, a);
            && score'.opsSeen
               == score.opsSeen
                + (if op.paymaster == Some(a) then 1 else 0) + (if op.factory == Some(a) then 1 else 0)
                + (if v.aggregatorInfo.Some? && v.aggregatorInfo.value.addr == a then 1 else 0)
                + (if op.sender == a && Backed(c, w.rep, v.senderInfo) then 1 else 0)
            && score'.opsIncluded == score.opsIncluded
  {
    hide SeenUpdate, R.StakeCheck, Backed, SlotEntry, R.Score;
    SlotEntryIs(w.pool.entries, op.sender, PackedNonce(op));
    StakeIsBacking(c, w.rep, v.senderInfo);
    assert Submitted(c, w, skip, op, hash, v).value.rep == SeenUpdate(c, w.rep, AggregatorOf(v), op, v.senderInfo, 1);
    SeenOnce(c, w.rep, AggregatorOf(v), op, v.senderInfo, a);
    hide Submitted;
  }

  lemma SeenOnce(c: R.Config, rep: R.Entries, aggregator: Option<Address>, op: UserOperation,
                 senderInfo: R.StakeInfo, a: Address)
    requires R.ValidConfig(c)
    ensures var score, score' := R.Score(rep, a), R.Score(SeenUpdate(c, rep, aggregator, op, senderInfo, 1), a);
            && score'.opsSeen
               == score.opsSeen
                + (if op.paymaster == Some(a) then 1 else 0) + (if op.factory == Some(a) then 1 else 0)
                + (if aggregator == Some(a) then 1 else 0)
                + (if op.sender == a && R.StakeCheck(c, rep, R.Account, senderInfo).Pass? then 1 else 0)
            && score'.opsIncluded == score.opsIncluded
  {
    hide R.StakeCheck;
  }

  lemma StakeIsBacking(c: R.Config, rep: R.Entries, info: R.StakeInfo)
    requires R.ValidConfig(c)
    ensures R.StakeCheck(c, rep, R.Account, info).Pass? <==> Backed(c, rep, info)
  {
    hide R.StatusOf;
  }

  lemma SubmittedEntries(c: R.Config, w: World, skip: bool, op: UserOperation, hash: Hash, v: ValidationInfo)
    requires R.ValidConfig(c) && Submitted(c, w, skip, op, hash, v).Ok?
    ensures var w' := Submitted(c, w, skip, op, hash, v).value;
            && EntryFor(skip, op, hash, v) in w'.pool.entries
            && forall e: MempoolEntry | RefOf(e.op) != RefOf(op) :: e in w.pool.entries <==> e in w'.pool.entries
  {
    hide SeenUpdate, ReplacementCheck, ReputationCheck, RoleCheck;
    var entry := EntryFor(skip, op, hash, v);
    match FirstMatch(w.pool.entries, RefOf(op))
    case None =>
    case Some(i) =>
      var entries := w.pool.entries[i := entry];
      assert entries[i] == entry && RefOf(w.pool.entries[i].op) == RefOf(op);
      forall e | e in w.pool.entries && RefOf(e.op) != RefOf(op)
        ensures e in entries
      {
        var j :| 0 <= j < |entries| && w.pool.entries[j] == e;
        assert entries[j] == e;
      }
  }

  // ---- Fees along runs ----

  predicate FeesRise(old_: UserOperation, new_: UserOperation) {
    old_.maxPriorityFeePerGas <= new_.maxPriorityFeePerGas && old_.maxFeePerGas <= new_.maxFeePerGas
  }

  lemma Shrunk(pool: Pool, pool': Pool, sender: Address, nonce: nat)
    requires UniqueSlots(pool.entries) && UniqueSlots(pool'.entries) && forall e <- pool'.entries :: e in pool.entries
    ensures var found, found' := SlotEntry(pool.entries, sender, nonce), SlotEntry(pool'.entries, sender, nonce);
            found'.None? || found' == found
  {
    SlotEntryUnique(pool.entries, sender, nonce);
    SlotEntryUnique(pool'.entries, sender, nonce);
  }

  lemma {:induction false} ScanShrinks(pool: Pool, a: Address, i: nat)
    requires i <= |pool.entries|
    ensures forall e <- BannedScan(pool, a, i).entries :: e in pool.entries
    decreases i
  {
    if i != 0 {
      var q := ByHash(pool.entries[i - 1].hash);
      ScanShrinks(if Names(pool.entries[i - 1].op, a) then Removed(pool, q) else pool, a, i - 1);
    }
  }

  /** In one event an occupied slot is emptied, stays as it is, or is taken over by an operation paying more. */
  lemma StepKeepsFees(c: R.Config, w: World, e: Event, sender: Address, nonce: nat)
    requires R.ValidConfig(c) && UniqueSlots(w.pool.entries) && SlotEntry(w.pool.entries, sender, nonce).Some?
    ensures var found := SlotEntry(Step(c, w, e).pool.entries, sender, nonce);
            found.Some? ==> FeesRise(SlotEntry(w.pool.entries, sender, nonce).value.op, found.value.op)
  {
    hide Submitted, Removed, WithoutBanned, UniqueSlots;
    StepKeeps(c, w, e);
    match e
    case Submit(skip, op, hash, info) =>
      if Submitted(c, w, skip, op, hash, info).Ok? {
        SubmissionFillsSlot(c, w, skip, op, hash, info, sender, nonce);
        if sender == op.sender && nonce == PackedNonce(op) {
          ReplacementIff(c, w, skip, op, hash, info);
        }
      }
    case Remove(q) =>
      RemovedMembers(w.pool, q);
      Shrunk(w.pool, Removed(w.pool, q), sender, nonce);
    case RemoveBanned(a) =>
      ScanShrinks(w.pool, a, |w.pool.entries|);
      assert forall x <- WithoutBanned(w.pool, a).entries :: x in w.pool.entries by { ScanIsWhole(w.pool, a); }
      Shrunk(w.pool, WithoutBanned(w.pool, a), sender, nonce);
    case _ =>
  }

  lemma RemovedMembers(pool: Pool, q: OpRef)
    ensures forall e <- Removed(pool, q).entries :: e in pool.entries
  {
  }

  lemma ScanIsWhole(pool: Pool, a: Address)
    ensures WithoutBanned(pool, a) == BannedScan(pool, a, |pool.entries|)
  {
  }

  /** The slot is occupied before and after each event. */
  ghost predicate StaysOccupied(c: R.Config, w: World, evs: seq<Event>, sender: Address, nonce: nat)
    requires R.ValidConfig(c)
    decreases evs
  {
    && SlotEntry(w.pool.entries, sender, nonce).Some?
    && (evs != [] ==> StaysOccupied(c, Step(c, w, evs[0]), evs[1..], sender, nonce))
  }

  /** As long as a slot stays occupied, the fees pending at it never fall. */
  lemma {:induction false} FeesNeverFall(c: R.Config, w: World, evs: seq<Event>, sender: Address, nonce: nat)
    requires R.ValidConfig(c) && UniqueSlots(w.pool.entries) && StaysOccupied(c, w, evs, sender, nonce)
    ensures var found := SlotEntry(Steps(c, w, evs).pool.entries, sender, nonce);
            found.Some? && FeesRise(SlotEntry(w.pool.entries, sender, nonce).value.op, found.value.op)
    decreases evs
  {
    hide Step, UniqueSlots;
    if evs != [] {
      StepKeeps(c, w, evs[0]);
      StepKeepsFees(c, w, evs[0], sender, nonce);
      FeesNeverFall(c, Step(c, w, evs[0]), evs[1..], sender, nonce);
    }
  }

  lemma RemovedKeepsOthers(pool: Pool, op: UserOperation)
    ensures var pool' := Removed(pool, RefOf(op));
            && (forall e <- pool'.entries :: e in pool.entries)
            && (forall e <- pool.entries :: RefOf(e.op) != RefOf(op) ==> e in pool'.entries)
            && (UniqueSlots(pool.entries) ==> forall e <- pool'.entries :: RefOf(e.op) != RefOf(op))
  {
    var found := FirstMatch(pool.entries, RefOf(op));
    if found.Some? {
      var i := found.value;
      forall e | e in pool.entries && RefOf(e.op) != RefOf(op)
        ensures e in RemoveAt(pool.entries, i)
      {
        var j :| 0 <= j < |pool.entries| && pool.entries[j] == e;
        assert if j < i then RemoveAt(pool.entries, i)[j] == e else RemoveAt(pool.entries, i)[j - 1] == e;
      }
      assert RefOf(pool.entries[i].op) == RefOf(op);
    } else {
      forall e | e in pool.entries
        ensures RefOf(e.op) != RefOf(op)
      {
        var j :| 0 <= j < |pool.entries| && pool.entries[j] == e;
        assert !Matches(pool.entries[j], RefOf(op));
      }
    }
  }

  /** Removing an operation empties its slot and no other. */
  lemma RemovalEmptiesSlot(pool: Pool, op: UserOperation, sender: Address, nonce: nat)
    requires UniqueSlots(pool.entries)
    ensures SlotEntry(Removed(pool, RefOf(op)).entries, sender, nonce)
         == if sender == op.sender && nonce == PackedNonce(op) then None else SlotEntry(pool.entries, sender, nonce)
  {
    hide Removed, PackedNonce;
    RemovedKeeps(pool, RefOf(op));
    RemovedKeepsOthers(pool, op);
    var pool' := Removed(pool, RefOf(op));
    hide UniqueSlots;
    SlotEntryUnique(pool'.entries, sender, nonce);
    if !(sender == op.sender && nonce == PackedNonce(op)) {
      SlotEntryMembers(pool.entries, pool'.entries, sender, nonce);
    }
  }
}
