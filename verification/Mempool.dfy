/** The mempool: pending operations, the count of roles each address plays, and the admission rules. */
module Mempool {
  import opened Basics
  import opened UserOperations
  import R = Reputation

  const THROTTLED_ENTITY_MEMPOOL_COUNT: nat := 4

  type Hash = Bytes

  datatype MempoolEntry = MempoolEntry(
    op: UserOperation,
    hash: Hash,
    prefund: nat,
    referencedContracts: seq<Address>,
    skipValidation: bool,
    aggregator: Option<Address>)

  /** What the first validation reports about an operation. */
  datatype ValidationInfo = ValidationInfo(
    prefund: Option<nat>,
    referencedContracts: seq<Address>,
    senderInfo: R.StakeInfo,
    paymasterInfo: Option<R.StakeInfo>,
    factoryInfo: Option<R.StakeInfo>,
    aggregatorInfo: Option<R.StakeInfo>)

  datatype Pool = Pool(entries: seq<MempoolEntry>, counts: map<Address, nat>)

  /** The state shared by everything that runs concurrently: the mempool and the reputation scores. */
  datatype World = World(pool: Pool, rep: R.Entries)

  /** Removal and lookup accept either an operation or a hash. */
  datatype OpRef = ByOp(sender: Address, nonce: nat) | ByHash(hash: Hash)

  datatype SubmitError =
    | ReputationProblem(error: R.ReputationError)
    | SenderIsEntity | PaymasterIsSender | FactoryIsSender
    | PriorityFeeTooLow | MaxFeeTooLow

  datatype Check = Pass | Fail(error: SubmitError) {
    predicate IsFailure() {
      Fail?
    }

    function PropagateFailure(): Check
      requires Fail?
    {
      this
    }
  }

  // ---- Lookup ----

  function RefOf(op: UserOperation): OpRef {
    ByOp(op.sender, PackedNonce(op))
  }

  predicate Matches(e: MempoolEntry, q: OpRef) {
    match q
    case ByOp(sender, nonce) => e.op.sender == sender && PackedNonce(e.op) == nonce
    case ByHash(hash) => e.hash == hash
  }

  function FirstMatchFrom(entries: seq<MempoolEntry>, q: OpRef, i: nat): (r: Option<nat>)
    requires i <= |entries|
    ensures r.None? ==> forall k | i <= k < |entries| :: !Matches(entries[k], q)
    ensures r.Some? ==> i <= r.value < |entries| && Matches(entries[r.value], q)
    ensures r.Some? ==> forall k | i <= k < r.value :: !Matches(entries[k], q)
    decreases |entries| - i
  {
    if i == |entries| then None
    else if Matches(entries[i], q) then Some(i)
    else FirstMatchFrom(entries, q, i + 1)
  }

  function FirstMatch(entries: seq<MempoolEntry>, q: OpRef): Option<nat> {
    FirstMatchFrom(entries, q, 0)
  }

  // ---- Role counts ----

  function EntryCount(counts: map<Address, nat>, a: Address): nat {
    if a in counts then counts[a] else 0
  }

  function Incremented(counts: map<Address, nat>, a: Option<Address>): map<Address, nat> {
    match a
    case None => counts
    case Some(addr) => counts[addr := EntryCount(counts, addr) + 1]
  }

  function Decremented(counts: map<Address, nat>, a: Option<Address>): map<Address, nat> {
    match a
    case None => counts
    case Some(addr) =>
      if addr !in counts then counts
      else if counts[addr] <= 1 then counts - {addr}
      else counts[addr := counts[addr] - 1]
  }

  function CountsWith(counts: map<Address, nat>, op: UserOperation): map<Address, nat> {
    Incremented(Incremented(Incremented(counts, Some(op.sender)), op.paymaster), op.factory)
  }

  function CountsWithout(counts: map<Address, nat>, op: UserOperation): map<Address, nat> {
    Decremented(Decremented(Decremented(counts, Some(op.sender)), op.paymaster), op.factory)
  }

  // ---- The meaning of each operation ----

  function Senders(entries: seq<MempoolEntry>): set<Address> {
    set e | e in entries :: e.op.sender
  }

  function EntitiesOf(op: UserOperation): set<Address> {
    (if op.paymaster.Some? then {op.paymaster.value} else {}) + (if op.factory.Some? then {op.factory.value} else {})
  }

  function Entities(entries: seq<MempoolEntry>): set<Address> {
    set e, a | e in entries && a in EntitiesOf(e.op) :: a
  }

  function Removed(pool: Pool, q: OpRef): Pool {
    match FirstMatch(pool.entries, q)
    case None => pool
    case Some(i) => Pool(RemoveAt(pool.entries, i), CountsWithout(pool.counts, pool.entries[i].op))
  }

  predicate Names(op: UserOperation, a: Address) {
    op.sender == a || op.paymaster == Some(a) || op.factory == Some(a)
  }

  /** The reverse scan below position i; each hit is removed through its hash. */
  function BannedScan(pool: Pool, a: Address, i: nat): Pool
    requires i <= |pool.entries|
    decreases i
  {
    if i == 0 then pool
    else if Names(pool.entries[i - 1].op, a) then
      BannedScan(Removed(pool, ByHash(pool.entries[i - 1].hash)), a, i - 1)
    else BannedScan(pool, a, i - 1)
  }

  function WithoutBanned(pool: Pool, a: Address): Pool {
    BannedScan(pool, a, |pool.entries|)
  }

  /** A replacement must pay at least 1.1 times the old fees. */
  function ReplacementCheck(old_: UserOperation, new_: UserOperation): Check {
    if 10 * new_.maxPriorityFeePerGas < 11 * old_.maxPriorityFeePerGas then Fail(PriorityFeeTooLow)
    else if 10 * new_.maxFeePerGas < 11 * old_.maxFeePerGas then Fail(MaxFeeTooLow)
    else Pass
  }

  function EntityCheck(c: R.Config, w: World, title: R.Title, info: Option<R.StakeInfo>): Check
    requires R.ValidConfig(c)
  {
    if info.None? then Pass
    else
      var addr := info.value.addr;
      var count := EntryCount(w.pool.counts, addr);
      var status := R.StatusOf(c, w.rep, Some(addr));
      if status == R.BANNED then Fail(ReputationProblem(R.IsBanned(title, addr)))
      else if count > THROTTLED_ENTITY_MEMPOOL_COUNT && status == R.THROTTLED then
        Fail(ReputationProblem(R.IsThrottled(title, addr)))
      else if count >= R.MaxMempoolOpsUnstaked(w.rep, title, addr) then
        match R.StakeCheck(c, w.rep, title, info.value)
        case Pass => Pass
        case Fail(e) => Fail(ReputationProblem(e))
      else Pass
  }

  function ReputationCheck(c: R.Config, w: World, v: ValidationInfo): Check
    requires R.ValidConfig(c)
  {
    var account := EntityCheck(c, w, R.Account, Some(v.senderInfo));
    var paymaster := EntityCheck(c, w, R.Paymaster, v.paymasterInfo);
    var deployer := EntityCheck(c, w, R.Deployer, v.factoryInfo);
    if account.Fail? then account
    else if paymaster.Fail? then paymaster
    else if deployer.Fail? then deployer
    else EntityCheck(c, w, R.Aggregator, v.aggregatorInfo)
  }

  function RoleCheck(entries: seq<MempoolEntry>, op: UserOperation): Check {
    if op.sender in Entities(entries) then Fail(SenderIsEntity)
    else if op.paymaster.Some? && op.paymaster.value in Senders(entries) then Fail(PaymasterIsSender)
    else if op.factory.Some? && op.factory.value in Senders(entries) then Fail(FactoryIsSender)
    else Pass
  }

  /** A qualifying sender is always counted upwards; the other roles move by val. */
  function SeenUpdate(c: R.Config, rep: R.Entries, aggregator: Option<Address>, op: UserOperation,
                      senderInfo: R.StakeInfo, val: int): R.Entries
    requires R.ValidConfig(c)
  {
    var rep1 := if R.StakeCheck(c, rep, R.Account, senderInfo).Pass? then R.AfterSeen(rep, Some(op.sender), 1) else rep;
    R.AfterSeen(R.AfterSeen(R.AfterSeen(rep1, aggregator, val), op.paymaster, val), op.factory, val)
  }

  function EntryFor(skip: bool, op: UserOperation, hash: Hash, v: ValidationInfo): MempoolEntry {
    MempoolEntry(op, hash, OrZero(v.prefund), v.referencedContracts, skip, AggregatorOf(v))
  }

  function AggregatorOf(v: ValidationInfo): Option<Address> {
    if v.aggregatorInfo.None? then None else Some(v.aggregatorInfo.value.addr)
  }

  function Submitted(c: R.Config, w: World, skip: bool, op: UserOperation, hash: Hash, v: ValidationInfo)
      : Result<World, SubmitError>
    requires R.ValidConfig(c)
  {
    var entry := EntryFor(skip, op, hash, v);
    match FirstMatch(w.pool.entries, RefOf(op))
    case Some(i) =>
      var replaced := w.pool.entries[i];
      (match ReplacementCheck(replaced.op, op)
       case Fail(e) => Err(e)
       case Pass =>
         var undone := SeenUpdate(c, w.rep, replaced.aggregator, replaced.op, v.senderInfo, -1);
         Ok(World(w.pool.(entries := w.pool.entries[i := entry]),
                  SeenUpdate(c, undone, entry.aggregator, op, v.senderInfo, 1))))
    case None =>
      var check := if skip then Pass
                   else if ReputationCheck(c, w, v).Fail? then ReputationCheck(c, w, v)
                   else RoleCheck(w.pool.entries, op);
      match check
      case Fail(e) => Err(e)
      case Pass =>
        Ok(World(Pool(w.pool.entries + [entry], CountsWith(w.pool.counts, op)),
                 SeenUpdate(c, w.rep, entry.aggregator, op, v.senderInfo, 1)))
  }

  // ---- Order of inclusion ----

  function Cost(e: MempoolEntry): nat {
    e.op.maxPriorityFeePerGas
  }

  /** Inserts e before everything at least as expensive. */
  function InsertByCost(e: MempoolEntry, s: seq<MempoolEntry>): seq<MempoolEntry> {
    if s == [] then [e]
    else if Cost(e) <= Cost(s[0]) then [e] + s
    else [s[0]] + InsertByCost(e, s[1..])
  }

  function SortByCost(s: seq<MempoolEntry>): seq<MempoolEntry> {
    if s == [] then [] else InsertByCost(s[0], SortByCost(s[1..]))
  }

  // ---- The manager itself ----

  class MempoolManager {
    const reputationManager: R.ReputationManager
    var mempool: seq<MempoolEntry>
    var entryCounts: map<Address, nat>

    ghost predicate Valid() {
      R.ValidConfig(reputationManager.config)
    }

    function CurrentPool(): Pool
      reads this`mempool, this`entryCounts
    {
      Pool(mempool, entryCounts)
    }

    function CurrentWorld(): World
      reads this`mempool, this`entryCounts, reputationManager`entries
    {
      World(CurrentPool(), reputationManager.entries)
    }

    constructor (reputationManager: R.ReputationManager)
      requires R.ValidConfig(reputationManager.config)
      ensures this.reputationManager == reputationManager && Valid()
      ensures CurrentPool() == Pool([], map[])
    {
      this.reputationManager := reputationManager;
      mempool, entryCounts := [], map[];
    }

    method IncrementEntryCount(a: Option<Address>)
      modifies this`entryCounts
      ensures entryCounts == Incremented(old(entryCounts), a)
    {
      if a.None? {
        return;
      }
      entryCounts := entryCounts[a.value := EntryCount(entryCounts, a.value) + 1];
    }

    method DecrementEntryCount(a: Option<Address>)
      modifies this`entryCounts
      ensures entryCounts == Decremented(old(entryCounts), a)
    {
      if a.None? || a.value !in entryCounts {
        return;
      }
      if entryCounts[a.value] <= 1 {
        entryCounts := entryCounts - {a.value};
      } else {
        entryCounts := entryCounts[a.value := entryCounts[a.value] - 1];
      }
    }

    method Find(q: OpRef) returns (index: int)
      ensures index == match FirstMatch(mempool, q) case None => -1 case Some(i) => i
    {
      index := 0;
      while index < |mempool|
        invariant 0 <= index <= |mempool|
        invariant FirstMatch(mempool, q) == FirstMatchFrom(mempool, q, index)
      {
        if Matches(mempool[index], q) {
          return;
        }
        index := index + 1;
      }
      index := -1;
    }

    method RemoveUserOp(q: OpRef)
      modifies this`mempool, this`entryCounts
      ensures CurrentPool() == Removed(old(CurrentPool()), q)
    {
      var index := Find(q);
      if index != -1 {
        var op := mempool[index].op;
        mempool := RemoveAt(mempool, index);
        DecrementEntryCount(Some(op.sender));
        DecrementEntryCount(op.paymaster);
        DecrementEntryCount(op.factory);
      }
    }

    method RemoveBannedAddr(a: Address)
      modifies this`mempool, this`entryCounts
      ensures CurrentPool() == WithoutBanned(old(CurrentPool()), a)
    {
      var i := |mempool|;
      while 0 < i
        invariant 0 <= i <= |mempool|
        invariant BannedScan(CurrentPool(), a, i) == WithoutBanned(old(CurrentPool()), a)
      {
        i := i - 1;
        if Names(mempool[i].op, a) {
          RemoveUserOp(ByHash(mempool[i].hash));
        }
      }
    }

    method UpdateSeenStatus(aggregator: Option<Address>, op: UserOperation, senderInfo: R.StakeInfo, val: int)
      requires Valid()
      modifies reputationManager`entries
      ensures reputationManager.entries
           == SeenUpdate(reputationManager.config, old(reputationManager.entries), aggregator, op, senderInfo, val)
    {
      var stake := reputationManager.CheckStake(R.Account, senderInfo);
      if stake.Pass? {
        reputationManager.UpdateSeenStatus(Some(op.sender), 1);
      }
      reputationManager.UpdateSeenStatus(aggregator, val);
      reputationManager.UpdateSeenStatus(op.paymaster, val);
      reputationManager.UpdateSeenStatus(op.factory, val);
    }

    method CheckReputationStatus(title: R.Title, info: Option<R.StakeInfo>) returns (r: Check)
      requires Valid()
      ensures r == EntityCheck(reputationManager.config, CurrentWorld(), title, info)
    {
      if info.None? {
        return Pass;
      }
      var maxAllowed := R.MaxMempoolOpsUnstaked(reputationManager.entries, title, info.value.addr);
      var banned := reputationManager.CheckBanned(title, info.value);
      if banned.Fail? {
        return Fail(ReputationProblem(banned.error));
      }
      var count := EntryCount(entryCounts, info.value.addr);
      if count > THROTTLED_ENTITY_MEMPOOL_COUNT {
        var throttled := reputationManager.CheckThrottled(title, info.value);
        if throttled.Fail? {
          return Fail(ReputationProblem(throttled.error));
        }
      }
      if count >= maxAllowed {
        var stake := reputationManager.CheckStake(title, info.value);
        if stake.Fail? {
          return Fail(ReputationProblem(stake.error));
        }
      }
      return Pass;
    }

    method CheckReputation(v: ValidationInfo) returns (r: Check)
      requires Valid()
      ensures r == ReputationCheck(reputationManager.config, CurrentWorld(), v)
    {
      var senderInfo := Some(v.senderInfo);
      :- CheckReputationStatus(R.Account, senderInfo);
      :- CheckReputationStatus(R.Paymaster, v.paymasterInfo);
      :- CheckReputationStatus(R.Deployer, v.factoryInfo);
      r := CheckReputationStatus(R.Aggregator, v.aggregatorInfo);
    }

    /** Adds an operation after its first validation, or replaces the one with the same sender and nonce. */
    method AddUserOp(skipValidation: bool, op: UserOperation, hash: Hash, v: ValidationInfo) returns (r: Check)
      requires Valid()
      modifies this`mempool, this`entryCounts, reputationManager`entries
      ensures match Submitted(reputationManager.config, old(CurrentWorld()), skipValidation, op, hash, v)
              case Ok(w) => r.Pass? && CurrentWorld() == w
              case Err(e) => r == Fail(e) && CurrentWorld() == old(CurrentWorld())
    {
      var entry := EntryFor(skipValidation, op, hash, v);
      var index := Find(RefOf(op));
      if index != -1 {
        var oldEntry := mempool[index];
        :- ReplacementCheck(oldEntry.op, op);
        mempool := mempool[index := entry];
        UpdateSeenStatus(oldEntry.aggregator, oldEntry.op, v.senderInfo, -1);
      } else {
        if !skipValidation {
          :- CheckReputation(v);
          :- RoleCheck(mempool, op);
        }
        IncrementEntryCount(Some(op.sender));
        IncrementEntryCount(op.paymaster);
        IncrementEntryCount(op.factory);
        mempool := mempool + [entry];
      }
      UpdateSeenStatus(entry.aggregator, op, v.senderInfo, 1);
      r := Pass;
    }

    function GetSortedForInclusion(): seq<MempoolEntry>
      reads this`mempool
    {
      SortByCost(mempool)
    }

    function GetKnownSenders(): set<Address>
      reads this`mempool
    {
      Senders(mempool)
    }
  }
}
