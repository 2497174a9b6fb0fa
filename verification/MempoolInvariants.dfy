/** What every run keeps true of the mempool, and what the order of inclusion is. */
module MempoolInvariants {
  import opened Basics
  import opened UserOperations
  import opened Mempool
  import opened WorldEvents
  import R = Reputation

  // ---- The three invariants ----

  /** At most one entry for each sender and packed nonce. */
  ghost predicate UniqueSlots(entries: seq<MempoolEntry>) {
    forall i, j | 0 <= i < j < |entries| :: RefOf(entries[i].op) != RefOf(entries[j].op)
  }

  function Roles(entries: seq<MempoolEntry>, a: Address): nat {
    if entries == [] then 0 else RoleCount(entries[0].op, a) + Roles(entries[1..], a)
  }

  /** The count of an address is the number of roles it plays, and is absent exactly when that is zero. */
  ghost predicate CountsMatch(pool: Pool) {
    forall a: Address :: CountMatches(pool, a)
  }

  ghost predicate CountMatches(pool: Pool, a: Address) {
    EntryCount(pool.counts, a) == Roles(pool.entries, a) && (a in pool.counts ==> pool.counts[a] != 0)
  }

  /** No sender is the paymaster or the factory of another pending operation. */
  ghost predicate RolesSeparated(entries: seq<MempoolEntry>) {
    forall i, j | 0 <= i < |entries| && 0 <= j < |entries| && i != j ::
      entries[i].op.sender !in EntitiesOf(entries[j].op)
  }

  /** The caller-visible condition on a replacement: the same paymaster and factory, in either position. */
  predicate SameEntities(x: UserOperation, y: UserOperation) {
    || (x.paymaster == y.paymaster && x.factory == y.factory)
    || (x.paymaster == y.factory && x.factory == y.paymaster)
  }

  /** An event is orderly when a replacement it performs keeps the paymaster and factory. */
  predicate Orderly(w: World, e: Event) {
    e.Submit? ==>
      match FirstMatch(w.pool.entries, RefOf(e.op))
      case None => true
      case Some(i) => SameEntities(w.pool.entries[i].op, e.op)
  }

  ghost predicate OrderlyRun(c: R.Config, w: World, evs: seq<Event>)
    requires R.ValidConfig(c)
    decreases evs
  {
    evs == [] || (Orderly(w, evs[0]) && OrderlyRun(c, Step(c, w, evs[0]), evs[1..]))
  }

  // ---- Role arithmetic ----

  lemma {:induction false} RolesConcat(s: seq<MempoolEntry>, t: seq<MempoolEntry>, a: Address)
    ensures Roles(s + t, a) == Roles(s, a) + Roles(t, a)
  {
    if s == [] {
      assert s + t == t;
    } else {
      assert (s + t)[1..] == s[1..] + t;
      RolesConcat(s[1..], t, a);
    }
  }

  lemma RolesAround(s: seq<MempoolEntry>, i: nat, a: Address)
    requires i < |s|
    ensures Roles(s, a) == Roles(s[..i], a) + RoleCount(s[i].op, a) + Roles(s[i + 1..], a)
  {
    assert s == s[..i] + ([s[i]] + s[i + 1..]);
    RolesConcat(s[..i], [s[i]] + s[i + 1..], a);
  }

  lemma RolesWithoutOne(s: seq<MempoolEntry>, i: nat, a: Address)
    requires i < |s|
    ensures Roles(RemoveAt(s, i), a) == Roles(s, a) - RoleCount(s[i].op, a)
  {
    RolesAround(s, i, a);
    RolesConcat(s[..i], s[i + 1..], a);
  }

  lemma RolesReplaced(s: seq<MempoolEntry>, i: nat, e: MempoolEntry, a: Address)
    requires i < |s|
    ensures Roles(s[i := e], a) == Roles(s, a) - RoleCount(s[i].op, a) + RoleCount(e.op, a)
  {
    RolesAround(s, i, a);
    RolesAround(s[i := e], i, a);
    assert s[i := e][..i] == s[..i] && s[i := e][i + 1..] == s[i + 1..];
  }

  lemma CountsWithEntry(pool: Pool, e: MempoolEntry)
    requires CountsMatch(pool)
    ensures CountsMatch(Pool(pool.entries + [e], CountsWith(pool.counts, e.op)))
  {
    var pool' := Pool(pool.entries + [e], CountsWith(pool.counts, e.op));
    forall a: Address
      ensures CountMatches(pool', a)
    {
      assert CountMatches(pool, a);
      RolesConcat(pool.entries, [e], a);
      assert Roles([e], a) == RoleCount(e.op, a);
    }
  }

  lemma CountsWithoutEntry(pool: Pool, i: nat)
    requires CountsMatch(pool) && i < |pool.entries|
    ensures CountsMatch(Pool(RemoveAt(pool.entries, i), CountsWithout(pool.counts, pool.entries[i].op)))
  {
    var pool' := Pool(RemoveAt(pool.entries, i), CountsWithout(pool.counts, pool.entries[i].op));
    forall a: Address
      ensures CountMatches(pool', a)
    {
      assert CountMatches(pool, a);
      RolesWithoutOne(pool.entries, i, a);
      RolesAround(pool.entries, i, a);
    }
  }

  lemma SameEntitiesIff(x: UserOperation, y: UserOperation)
    ensures SameEntities(x, y) <==> forall a: Address :: EntityRoleCount(x, a) == EntityRoleCount(y, a)
  {
    if forall a: Address :: EntityRoleCount(x, a) == EntityRoleCount(y, a) {
      if x.paymaster.Some? { assert EntityRoleCount(x, x.paymaster.value) == EntityRoleCount(y, x.paymaster.value); }
      if x.factory.Some? { assert EntityRoleCount(x, x.factory.value) == EntityRoleCount(y, x.factory.value); }
      if y.paymaster.Some? { assert EntityRoleCount(x, y.paymaster.value) == EntityRoleCount(y, y.paymaster.value); }
      if y.factory.Some? { assert EntityRoleCount(x, y.factory.value) == EntityRoleCount(y, y.factory.value); }
    }
  }

  /** A replacement leaves the counts as they are, so they stay right exactly when the entities stay the same. */
  lemma ReplacementKeepsCounts(c: R.Config, w: World, skip: bool, op: UserOperation, hash: Hash, v: ValidationInfo)
    requires R.ValidConfig(c) && CountsMatch(w.pool)
    requires FirstMatch(w.pool.entries, RefOf(op)).Some?
    requires Submitted(c, w, skip, op, hash, v).Ok?
    ensures CountsMatch(Submitted(c, w, skip, op, hash, v).value.pool)
        <==> SameEntities(w.pool.entries[FirstMatch(w.pool.entries, RefOf(op)).value].op, op)
  {
    var i := FirstMatch(w.pool.entries, RefOf(op)).value;
    var old_ := w.pool.entries[i].op;
    var pool' := Submitted(c, w, skip, op, hash, v).value.pool;
    forall a: Address
      ensures CountMatches(pool', a) <==> EntityRoleCount(old_, a) == EntityRoleCount(op, a)
    {
      assert CountMatches(w.pool, a);
      RolesReplaced(w.pool.entries, i, EntryFor(skip, op, hash, v), a);
    }
    SameEntitiesIff(old_, op);
    if CountsMatch(pool') {
      forall a: Address
        ensures EntityRoleCount(old_, a) == EntityRoleCount(op, a)
      {
        assert CountMatches(pool', a);
      }
    }
  }

  /** The roles an address plays in an entry besides sending it. */
  function SeenRoles(op: UserOperation, aggregator: Option<Address>, a: Address): nat {
    EntityRoleCount(op, a) + (if aggregator == Some(a) then 1 else 0)
  }

  lemma SeenUpdateScore(c: R.Config, rep: R.Entries, aggregator: Option<Address>, op: UserOperation,
                        senderInfo: R.StakeInfo, val: int, a: Address)
    requires R.ValidConfig(c) && -1 <= val <= 1
    ensures var up := if op.sender == a && R.StakeCheck(c, rep, R.Account, senderInfo).Pass? then 1 else 0;
            R.Score(SeenUpdate(c, rep, aggregator, op, senderInfo, val), a).opsSeen
            == Max(0, R.Score(rep, a).opsSeen + up + val * SeenRoles(op, aggregator, a))
  {
    hide R.StakeCheck;
  }

  /**
   * A replacement that names the same entities undoes their sightings before it counts them again, but the undoing
   * call counts the sender upwards too: a sender with stake is seen again, and twice unless the first sighting bans it.
   */
  lemma ReplacementSightings(c: R.Config, w: World, skip: bool, op: UserOperation, hash: Hash, v: ValidationInfo,
                             a: Address)
    requires R.ValidConfig(c) && FirstMatch(w.pool.entries, RefOf(op)).Some?
    requires Submitted(c, w, skip, op, hash, v).Ok?
    requires var e := w.pool.entries[FirstMatch(w.pool.entries, RefOf(op)).value];
             e.op.paymaster == op.paymaster && e.op.factory == op.factory && e.aggregator == AggregatorOf(v)
    requires v.senderInfo.addr == op.sender && SeenRoles(op, AggregatorOf(v), op.sender) == 0
    ensures var w' := Submitted(c, w, skip, op, hash, v).value;
            var before, after := R.Score(w.rep, a).opsSeen, R.Score(w'.rep, a).opsSeen;
            if a != op.sender then SeenRoles(op, AggregatorOf(v), a) <= before ==> after == before
            else if R.StakeCheck(c, w.rep, R.Account, v.senderInfo).Fail? then after == before
            else
              var seenOnce := R.AfterSeen(w.rep, Some(a), 1);
              after == before + (if R.StatusOf(c, seenOnce, Some(a)) == R.BANNED then 1 else 2)
  {
    var old_ := w.pool.entries[FirstMatch(w.pool.entries, RefOf(op)).value];
    var undone := SeenUpdate(c, w.rep, old_.aggregator, old_.op, v.senderInfo, -1);
    SeenUpdateScore(c, w.rep, old_.aggregator, old_.op, v.senderInfo, -1, a);
    SeenUpdateScore(c, undone, AggregatorOf(v), op, v.senderInfo, 1, a);
    if a == op.sender {
      SenderStatusAfter(c, w.rep, old_.aggregator, old_.op, v.senderInfo);
    }
  }

  /** The status of a sender that plays no other role depends on its own sighting alone. */
  lemma SenderStatusAfter(c: R.Config, rep: R.Entries, aggregator: Option<Address>, op: UserOperation,
                          senderInfo: R.StakeInfo)
    requires R.ValidConfig(c) && senderInfo.addr == op.sender && SeenRoles(op, aggregator, op.sender) == 0
    ensures var seenOnce := if R.StakeCheck(c, rep, R.Account, senderInfo).Pass?
                            then R.AfterSeen(rep, Some(op.sender), 1) else rep;
            R.StatusOf(c, SeenUpdate(c, rep, aggregator, op, senderInfo, -1), Some(op.sender))
            == R.StatusOf(c, seenOnce, Some(op.sender))
  {
    hide R.StakeCheck, R.EntryStatus;
  }

  // ---- Preservation ----

  lemma RemovedKeeps(pool: Pool, q: OpRef)
    ensures UniqueSlots(pool.entries) ==> UniqueSlots(Removed(pool, q).entries)
    ensures CountsMatch(pool) ==> CountsMatch(Removed(pool, q))
    ensures RolesSeparated(pool.entries) ==> RolesSeparated(Removed(pool, q).entries)
  {
    match FirstMatch(pool.entries, q)
    case None =>
    case Some(i) =>
      if CountsMatch(pool) {
        CountsWithoutEntry(pool, i);
      }
  }

  lemma {:induction false} BannedScanKeeps(pool: Pool, a: Address, i: nat)
    requires i <= |pool.entries|
    ensures UniqueSlots(pool.entries) ==> UniqueSlots(BannedScan(pool, a, i).entries)
    ensures CountsMatch(pool) ==> CountsMatch(BannedScan(pool, a, i))
    ensures RolesSeparated(pool.entries) ==> RolesSeparated(BannedScan(pool, a, i).entries)
    decreases i
  {
    hide UniqueSlots, CountsMatch, RolesSeparated, CountsWithout;
    if i != 0 {
      if Names(pool.entries[i - 1].op, a) {
        var q := ByHash(pool.entries[i - 1].hash);
        RemovedKeeps(pool, q);
        BannedScanKeeps(Removed(pool, q), a, i - 1);
      } else {
        BannedScanKeeps(pool, a, i - 1);
      }
    }
  }

  lemma SubmittedKeepsUnique(c: R.Config, w: World, skip: bool, op: UserOperation, hash: Hash, v: ValidationInfo)
    requires R.ValidConfig(c) && UniqueSlots(w.pool.entries)
    requires Submitted(c, w, skip, op, hash, v).Ok?
    ensures UniqueSlots(Submitted(c, w, skip, op, hash, v).value.pool.entries)
  {
    var entries := w.pool.entries;
    if FirstMatch(entries, RefOf(op)).None? {
      assert forall i | 0 <= i < |entries| :: !Matches(entries[i], RefOf(op));
    } else {
      var i := FirstMatch(entries, RefOf(op)).value;
      assert RefOf(entries[i].op) == RefOf(op);
    }
  }

  lemma SubmittedKeepsSeparated(c: R.Config, w: World, op: UserOperation, hash: Hash, v: ValidationInfo)
    requires R.ValidConfig(c) && RolesSeparated(w.pool.entries)
    requires Submitted(c, w, false, op, hash, v).Ok?
    requires Orderly(w, Submit(false, op, hash, v))
    ensures RolesSeparated(Submitted(c, w, false, op, hash, v).value.pool.entries)
  {
    var entries := w.pool.entries;
    match FirstMatch(entries, RefOf(op))
    case None =>
      forall i | 0 <= i < |entries|
        ensures entries[i].op.sender !in EntitiesOf(op) && op.sender !in EntitiesOf(entries[i].op)
      {
        assert entries[i] in entries;
        assert entries[i].op.sender in Senders(entries);
        assert EntitiesOf(entries[i].op) <= Entities(entries);
      }
    case Some(i) =>
      assert EntitiesOf(entries[i].op) == EntitiesOf(op) && entries[i].op.sender == op.sender;
  }

  lemma StepKeeps(c: R.Config, w: World, e: Event)
    requires R.ValidConfig(c)
    ensures UniqueSlots(w.pool.entries) ==> UniqueSlots(Step(c, w, e).pool.entries)
    ensures CountsMatch(w.pool) && Orderly(w, e) ==> CountsMatch(Step(c, w, e).pool)
    ensures RolesSeparated(w.pool.entries) && Orderly(w, e) && (e.Submit? ==> !e.skip)
            ==> RolesSeparated(Step(c, w, e).pool.entries)
  {
    match e
    case Submit(skip, op, hash, v) =>
      if Submitted(c, w, skip, op, hash, v).Ok? {
        if UniqueSlots(w.pool.entries) {
          SubmittedKeepsUnique(c, w, skip, op, hash, v);
        }
        if CountsMatch(w.pool) && Orderly(w, e) {
          if FirstMatch(w.pool.entries, RefOf(op)).Some? {
            ReplacementKeepsCounts(c, w, skip, op, hash, v);
          } else {
            CountsWithEntry(w.pool, EntryFor(skip, op, hash, v));
          }
        }
        if RolesSeparated(w.pool.entries) && Orderly(w, e) && !skip {
          SubmittedKeepsSeparated(c, w, op, hash, v);
        }
      }
    case Remove(q) => RemovedKeeps(w.pool, q);
    case RemoveBanned(a) => BannedScanKeeps(w.pool, a, |w.pool.entries|);
    case _ =>
  }

  // ---- Runs ----

  /** In every reachable state at most one entry exists for each sender and packed nonce. */
  lemma {:induction false} RunsKeepUniqueSlots(c: R.Config, w: World, evs: seq<Event>)
    requires R.ValidConfig(c) && UniqueSlots(w.pool.entries)
    ensures UniqueSlots(Steps(c, w, evs).pool.entries)
    decreases evs
  {
    if evs != [] {
      StepKeeps(c, w, evs[0]);
      RunsKeepUniqueSlots(c, Step(c, w, evs[0]), evs[1..]);
    }
  }

  /** Over orderly runs the counts are the role counts, absent exactly when zero. */
  lemma {:induction false} OrderlyRunsKeepCounts(c: R.Config, w: World, evs: seq<Event>)
    requires R.ValidConfig(c) && CountsMatch(w.pool) && OrderlyRun(c, w, evs)
    ensures CountsMatch(Steps(c, w, evs).pool)
    decreases evs
  {
    if evs != [] {
      StepKeeps(c, w, evs[0]);
      OrderlyRunsKeepCounts(c, Step(c, w, evs[0]), evs[1..]);
    }
  }

  /** Over orderly runs of validated submissions no sender is an entity of another pending operation. */
  lemma {:induction false} OrderlyRunsKeepRolesSeparated(c: R.Config, w: World, evs: seq<Event>)
    requires R.ValidConfig(c) && RolesSeparated(w.pool.entries) && OrderlyRun(c, w, evs)
    requires forall e <- evs :: e.Submit? ==> !e.skip
    ensures RolesSeparated(Steps(c, w, evs).pool.entries)
    decreases evs
  {
    if evs != [] {
      StepKeeps(c, w, evs[0]);
      OrderlyRunsKeepRolesSeparated(c, Step(c, w, evs[0]), evs[1..]);
    }
  }

  /** All three invariants, from the empty mempool. */
  lemma ReachableInvariants(c: R.Config, evs: seq<Event>, a: Address)
    requires R.ValidConfig(c)
    ensures UniqueSlots(Steps(c, EMPTY_WORLD, evs).pool.entries)
    ensures OrderlyRun(c, EMPTY_WORLD, evs) ==>
              var pool := Steps(c, EMPTY_WORLD, evs).pool;
              && (a in pool.counts <==> Roles(pool.entries, a) != 0)
              && (a in pool.counts ==> pool.counts[a] == Roles(pool.entries, a))
  {
    RunsKeepUniqueSlots(c, EMPTY_WORLD, evs);
    if OrderlyRun(c, EMPTY_WORLD, evs) {
      OrderlyRunsKeepCounts(c, EMPTY_WORLD, evs);
      assert CountMatches(Steps(c, EMPTY_WORLD, evs).pool, a);
    }
  }

  // ---- The ban scan ----

  /** Whatever the hashes are, no operation naming the address survives the scan. */
  lemma {:induction false} BannedScanClears(pool: Pool, a: Address, i: nat)
    requires i <= |pool.entries|
    requires forall k | i <= k < |pool.entries| :: !Names(pool.entries[k].op, a)
    ensures forall e <- BannedScan(pool, a, i).entries :: !Names(e.op, a)
    decreases i
  {
    if i != 0 {
      if Names(pool.entries[i - 1].op, a) {
        var q := ByHash(pool.entries[i - 1].hash);
        assert Matches(pool.entries[i - 1], q);
        BannedScanClears(Removed(pool, q), a, i - 1);
      } else {
        BannedScanClears(pool, a, i - 1);
      }
    }
  }

  function NotNaming(entries: seq<MempoolEntry>, a: Address): seq<MempoolEntry> {
    if entries == [] then []
    else
      var rest := NotNaming(entries[..|entries| - 1], a);
      if Names(entries[|entries| - 1].op, a) then rest else rest + [entries[|entries| - 1]]
  }

  ghost predicate UniqueHashes(entries: seq<MempoolEntry>) {
    forall i, j | 0 <= i < j < |entries| :: entries[i].hash != entries[j].hash
  }

  /** With distinct hashes exactly the operations naming the address go, and the rest keep their order. */
  lemma {:induction false} BannedScanExact(pool: Pool, a: Address, i: nat)
    requires i <= |pool.entries| && UniqueHashes(pool.entries)
    ensures BannedScan(pool, a, i).entries == NotNaming(pool.entries[..i], a) + pool.entries[i..]
    decreases i
  {
    if i != 0 {
      var entries := pool.entries;
      assert entries[..i][..i - 1] == entries[..i - 1];
      if Names(entries[i - 1].op, a) {
        var q := ByHash(entries[i - 1].hash);
        assert FirstMatch(entries, q) == Some(i - 1) by {
          assert Matches(entries[i - 1], q);
        }
        var pool' := Removed(pool, q);
        assert pool'.entries[..i - 1] == entries[..i - 1] && pool'.entries[i - 1..] == entries[i..];
        BannedScanExact(pool', a, i - 1);
      } else {
        BannedScanExact(pool, a, i - 1);
        assert entries[i - 1..] == [entries[i - 1]] + entries[i..];
      }
    }
  }

  // ---- The order of inclusion ----

  ghost predicate Ascending(s: seq<MempoolEntry>) {
    forall i, j | 0 <= i < j < |s| :: Cost(s[i]) <= Cost(s[j])
  }

  function OfCost(s: seq<MempoolEntry>, k: nat): seq<MempoolEntry> {
    if s == [] then []
    else (if Cost(s[0]) == k then [s[0]] else []) + OfCost(s[1..], k)
  }

  lemma {:induction false} InsertByCostMembers(e: MempoolEntry, s: seq<MempoolEntry>)
    ensures multiset(InsertByCost(e, s)) == multiset{e} + multiset(s)
  {
    if s != [] && Cost(s[0]) < Cost(e) {
      InsertByCostMembers(e, s[1..]);
      assert s == [s[0]] + s[1..];
    }
  }

  lemma {:induction false} InsertByCostAscends(e: MempoolEntry, s: seq<MempoolEntry>)
    requires Ascending(s)
    ensures Ascending(InsertByCost(e, s))
  {
    if s != [] && Cost(s[0]) < Cost(e) {
      InsertByCostAscends(e, s[1..]);
      var r := InsertByCost(e, s[1..]);
      InsertByCostMembers(e, s[1..]);
      forall i | 0 <= i < |r|
        ensures Cost(s[0]) <= Cost(r[i])
      {
        assert r[i] in multiset(r);
        assert r[i] == e || r[i] in s[1..];
      }
    }
  }

  lemma OfCostFirst(e: MempoolEntry, s: seq<MempoolEntry>, k: nat)
    ensures OfCost([e] + s, k) == if Cost(e) == k then [e] + OfCost(s, k) else OfCost(s, k)
  {
    assert ([e] + s)[1..] == s;
  }

  lemma {:induction false} InsertByCostStable(e: MempoolEntry, s: seq<MempoolEntry>, k: nat)
    ensures OfCost(InsertByCost(e, s), k) == if Cost(e) == k then [e] + OfCost(s, k) else OfCost(s, k)
  {
    hide OfCost;
    if s == [] || Cost(e) <= Cost(s[0]) {
      assert InsertByCost(e, s) == [e] + s;
      OfCostFirst(e, s, k);
    } else {
      assert s == [s[0]] + s[1..];
      InsertByCostStable(e, s[1..], k);
      OfCostFirst(s[0], InsertByCost(e, s[1..]), k);
      OfCostFirst(s[0], s[1..], k);
    }
  }

  /** The order of inclusion is ascending in the priority fee, a permutation, and stable. */
  lemma {:induction false} SortByCostSorts(s: seq<MempoolEntry>, k: nat)
    ensures Ascending(SortByCost(s))
    ensures multiset(SortByCost(s)) == multiset(s)
    ensures OfCost(SortByCost(s), k) == OfCost(s, k)
  {
    if s != [] {
      SortByCostSorts(s[1..], k);
      InsertByCostMembers(s[0], SortByCost(s[1..]));
      InsertByCostAscends(s[0], SortByCost(s[1..]));
      InsertByCostStable(s[0], SortByCost(s[1..]), k);
      assert s == [s[0]] + s[1..];
    }
  }

  lemma OfCostMember(s: seq<MempoolEntry>, k: nat)
    ensures OfCost(s, k) != [] ==> exists i :: 0 <= i < |s| && Cost(s[i]) == k
  {
    if s != [] && OfCost(s, k) != [] && Cost(s[0]) != k {
      OfCostMember(s[1..], k);
      var i :| 0 <= i < |s[1..]| && Cost(s[1..][i]) == k;
      assert Cost(s[i + 1]) == k;
    }
  }

  lemma TailsOfCost(s: seq<MempoolEntry>, t: seq<MempoolEntry>, k: nat)
    requires s != [] && t != [] && s[0] == t[0] && OfCost(s, k) == OfCost(t, k)
    ensures OfCost(s[1..], k) == OfCost(t[1..], k)
  {
    if Cost(s[0]) == k {
      assert OfCost(s[1..], k) == OfCost(s, k)[1..] && OfCost(t[1..], k) == OfCost(t, k)[1..];
    } else {
      assert OfCost(s[1..], k) == OfCost(s, k) && OfCost(t[1..], k) == OfCost(t, k);
    }
  }

  lemma HeadCost(s: seq<MempoolEntry>, t: seq<MempoolEntry>)
    requires Ascending(s) && t != [] && OfCost(s, Cost(t[0])) == OfCost(t, Cost(t[0]))
    ensures s != [] && Cost(s[0]) <= Cost(t[0])
  {
    assert OfCost(t, Cost(t[0])) != [];
    OfCostMember(s, Cost(t[0]));
  }

  /** Any stable ascending arrangement is this one, whatever sorting algorithm produced it. */
  lemma {:induction false} StableSortUnique(s: seq<MempoolEntry>, t: seq<MempoolEntry>)
    requires Ascending(s) && Ascending(t)
    requires forall k :: OfCost(s, k) == OfCost(t, k)
    ensures s == t
  {
    if s != [] {
      HeadCost(t, s);
      HeadCost(s, t);
      assert OfCost(s, Cost(s[0]))[0] == s[0] && OfCost(t, Cost(s[0]))[0] == t[0];
      forall k
        ensures OfCost(s[1..], k) == OfCost(t[1..], k)
      {
        TailsOfCost(s, t, k);
      }
      StableSortUnique(s[1..], t[1..]);
      assert s == [s[0]] + s[1..] && t == [t[0]] + t[1..];
    } else if t != [] {
      HeadCost(s, t);
    }
  }
}
