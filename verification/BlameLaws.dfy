/** Who pays for a failure: the state after a failed handleOps and after a failed second validation. */
module BlameLaws {
  import opened Basics
  import opened UserOperations
  import opened StorageMaps
  import opened Mempool
  import opened MempoolInvariants
  import opened MempoolAdmission
  import opened WorldEvents
  import opened Bundling
  import opened BundlingTheorems
  import opened BundleSafety
  import R = Reputation

  function AfterFailedHandleOps(c: R.Config, w: World, op: UserOperation, reason: Reason, accountStaked: bool,
                                factoryStaked: bool): World
    requires R.ValidConfig(c)
  {
    Steps(c, w, FailedHandleOpsEvents(op, EntityToBlame(op, reason, accountStaked, factoryStaked)))
  }

  function AfterFailedValidation(c: R.Config, w: World, op: UserOperation, reason: Reason, accountStaked: bool,
                                 factoryStaked: bool): World
    requires R.ValidConfig(c)
  {
    Steps(c, w, SecondFailureEvents(op, EntityToBlame(op, reason, accountStaked, factoryStaked)))
  }

  // ---- The state each failure must lead to ----

  /** The seen count of a once the sightings of its roles in op are undone. */
  function Undone(w: World, op: UserOperation, a: Address): nat {
    Max(0, R.Score(w.rep, a).opsSeen - RoleCount(op, a))
  }

  /** The operation itself is gone, and every pending operation for which keep holds is left. */
  ghost predicate PoolWithout(w: World, w': World, op: UserOperation, keep: UserOperation -> bool) {
    && (forall e <- w'.pool.entries :: e in w.pool.entries)
    && (UniqueSlots(w.pool.entries) ==> forall e <- w'.pool.entries :: RefOf(e.op) != RefOf(op))
    && (UniqueHashes(w.pool.entries) ==>
          forall e <- w.pool.entries :: RefOf(e.op) != RefOf(op) && keep(e.op) ==> e in w'.pool.entries)
  }

  /** The culprit is punished: nothing pending names it, and it is banned. All other roles are only undone. */
  ghost predicate Punished(c: R.Config, w: World, w': World, op: UserOperation, culprit: Address)
    requires R.ValidConfig(c)
  {
    && (forall e <- w'.pool.entries :: !Names(e.op, culprit))
    && (culprit !in c.whitelist && CrashBans(c.params) ==> R.StatusOf(c, w'.rep, Some(culprit)) == R.BANNED)
    && R.Score(w'.rep, culprit) == R.Entry(Undone(w, op, culprit) + R.BAN_OPS_SEEN_PENALTY, 0)
    && (forall a: Address | a != culprit ::
          R.Score(w'.rep, a) == R.Entry(Undone(w, op, a), R.Score(w.rep, a).opsIncluded))
    && PoolWithout(w, w', op, other => !Names(other, culprit))
  }

  ghost predicate NobodyPunished(w: World, w': World, op: UserOperation) {
    w'.rep == w.rep && PoolWithout(w, w', op, _ => true)
  }

  /** After a failed validation the sightings are undone, and the culprit, if any, is seen once more. */
  ghost predicate Reproved(w: World, w': World, op: UserOperation, culprit: Option<Address>) {
    && (forall a: Address ::
          R.Score(w'.rep, a)
          == R.Entry(Undone(w, op, a) + (if culprit == Some(a) then 1 else 0), R.Score(w.rep, a).opsIncluded))
    && PoolWithout(w, w', op, _ => true)
  }

  // ---- Removals ----

  lemma {:induction false} NotNamingMembers(entries: seq<MempoolEntry>, a: Address)
    ensures forall e :: e in MempoolInvariants.NotNaming(entries, a) <==> e in entries && !Names(e.op, a)
  {
    if entries != [] {
      var init := entries[..|entries| - 1];
      NotNamingMembers(init, a);
      assert entries == init + [entries[|entries| - 1]];
    }
  }

  /** The scan keeps what does not name the address, when hashes are unique. */
  lemma WithoutBannedKeepsOthers(pool: Pool, a: Address)
    ensures var pool' := WithoutBanned(pool, a);
            && (forall e <- pool'.entries :: e in pool.entries && !Names(e.op, a))
            && (UniqueHashes(pool.entries) ==> forall e <- pool.entries :: !Names(e.op, a) ==> e in pool'.entries)
            && (UniqueSlots(pool.entries) ==> UniqueSlots(pool'.entries))
  {
    BannedScanShrinks(pool, a, |pool.entries|);
    BannedScanClears(pool, a, |pool.entries|);
    BannedScanKeeps(pool, a, |pool.entries|);
    if UniqueHashes(pool.entries) {
      BannedScanExact(pool, a, |pool.entries|);
      NotNamingMembers(pool.entries, a);
      assert pool.entries[..|pool.entries|] == pool.entries;
    }
  }

  // ---- Scores ----

  function UndoingEvents(op: UserOperation): seq<Event> {
    [Seen(Some(op.sender), -1), Seen(op.paymaster, -1), Seen(op.factory, -1)]
  }

  lemma ThreeSteps(c: R.Config, w: World, a: Event, b: Event, d: Event)
    requires R.ValidConfig(c)
    ensures Steps(c, w, [a, b, d]) == Step(c, Step(c, Step(c, w, a), b), d)
  {
    assert [a, b, d][1..] == [b, d] && [b, d][1..] == [d] && [d][1..] == [];
    assert Steps(c, Step(c, w, a), [b, d]) == Steps(c, Step(c, Step(c, w, a), b), [d]);
    assert Steps(c, Step(c, Step(c, w, a), b), [d]) == Steps(c, Step(c, Step(c, Step(c, w, a), b), d), []);
  }

  lemma TwoSteps(c: R.Config, w: World, a: Event, b: Event)
    requires R.ValidConfig(c)
    ensures Steps(c, w, [a, b]) == Step(c, Step(c, w, a), b)
  {
    assert [a, b][1..] == [b] && [b][1..] == [];
    assert Steps(c, Step(c, w, a), [b]) == Steps(c, Step(c, Step(c, w, a), b), []);
  }

  lemma UndoingScores(c: R.Config, w: World, op: UserOperation, a: Address)
    requires R.ValidConfig(c)
    ensures var w' := Steps(c, w, UndoingEvents(op));
            w'.pool == w.pool && R.Score(w'.rep, a) == R.Entry(Undone(w, op, a), R.Score(w.rep, a).opsIncluded)
  {
    ThreeSteps(c, w, Seen(Some(op.sender), -1), Seen(op.paymaster, -1), Seen(op.factory, -1));
  }

  lemma UndoneScores(c: R.Config, w: World, op: UserOperation)
    requires R.ValidConfig(c)
    ensures Steps(c, w, UndoingEvents(op)).pool == w.pool
    ensures forall a: Address ::
      R.Score(Steps(c, w, UndoingEvents(op)).rep, a) == R.Entry(Undone(w, op, a), R.Score(w.rep, a).opsIncluded)
  {
    hide Steps, Undone;
    UndoingScores(c, w, op, op.sender);
    forall a: Address
      ensures R.Score(Steps(c, w, UndoingEvents(op)).rep, a) == R.Entry(Undone(w, op, a), R.Score(w.rep, a).opsIncluded)
    {
      UndoingScores(c, w, op, a);
    }
  }

  lemma PunishingForm(c: R.Config, w: World, op: UserOperation, culprit: Address)
    requires R.ValidConfig(c)
    ensures var w' := Steps(c, w, FailedHandleOpsEvents(op, Some(culprit)));
            && w'.pool == Removed(WithoutBanned(w.pool, culprit), RefOf(op))
            && w'.rep == R.AfterCrash(Steps(c, w, UndoingEvents(op)).rep, Some(culprit))
  {
    hide Removed, WithoutBanned, R.AfterCrash, Undone;
    var rest := [RemoveBanned(culprit), Crash(Some(culprit)), Remove(RefOf(op))];
    assert FailedHandleOpsEvents(op, Some(culprit)) == UndoingEvents(op) + rest;
    StepsConcat(c, w, UndoingEvents(op), rest);
    ThreeSteps(c, Steps(c, w, UndoingEvents(op)), rest[0], rest[1], rest[2]);
    UndoneScores(c, w, op);
  }

  lemma PunishedPool(w: World, w': World, op: UserOperation, culprit: Address)
    requires w'.pool == Removed(WithoutBanned(w.pool, culprit), RefOf(op))
    ensures PoolWithout(w, w', op, other => !Names(other, culprit))
  {
    WithoutBannedKeepsOthers(w.pool, culprit);
    RemovedKeepsOthers(WithoutBanned(w.pool, culprit), op);
    hide WithoutBanned, Removed, UniqueSlots, UniqueHashes, Names;
  }

  /** A failed handleOps with somebody to blame. */
  lemma BlamedIsPunished(c: R.Config, w: World, op: UserOperation, culprit: Address)
    requires R.ValidConfig(c)
    ensures Punished(c, w, Steps(c, w, FailedHandleOpsEvents(op, Some(culprit))), op, culprit)
  {
    hide Steps, Undone, WithoutBanned, Removed, R.StatusOf, CrashBans, PoolWithout, FailedHandleOpsEvents;
    PunishingForm(c, w, op, culprit);
    PunishedPool(w, Steps(c, w, FailedHandleOpsEvents(op, Some(culprit))), op, culprit);
    UndoneScores(c, w, op);
    BlameClearsAndBans(c, w, op, culprit);
  }

  lemma NobodyBlamed(c: R.Config, w: World, op: UserOperation)
    requires R.ValidConfig(c)
    ensures NobodyPunished(w, Steps(c, w, FailedHandleOpsEvents(op, None)), op)
  {
    assert FailedHandleOpsEvents(op, None) == [Remove(RefOf(op))];
    assert Steps(c, w, [Remove(RefOf(op))]) == Steps(c, Step(c, w, Remove(RefOf(op))), [Remove(RefOf(op))][1..]);
    RemovedKeepsOthers(w.pool, op);
  }

  lemma ReprovingForm(c: R.Config, w: World, op: UserOperation, culprit: Option<Address>)
    requires R.ValidConfig(c)
    ensures var w' := Steps(c, w, SecondFailureEvents(op, culprit));
            && w'.pool == Removed(w.pool, RefOf(op))
            && w'.rep == R.AfterSeen(Steps(c, w, UndoingEvents(op)).rep, culprit, 1)
  {
    hide Removed, R.AfterSeen, Undone;
    var rest := [Seen(culprit, 1), Remove(RefOf(op))];
    assert SecondFailureEvents(op, culprit) == UndoingEvents(op) + rest;
    StepsConcat(c, w, UndoingEvents(op), rest);
    TwoSteps(c, Steps(c, w, UndoingEvents(op)), rest[0], rest[1]);
    UndoneScores(c, w, op);
  }

  lemma BlamedIsReproved(c: R.Config, w: World, op: UserOperation, culprit: Option<Address>)
    requires R.ValidConfig(c)
    ensures Reproved(w, Steps(c, w, SecondFailureEvents(op, culprit)), op, culprit)
  {
    hide Steps, Undone, Removed, UniqueSlots, UniqueHashes, SecondFailureEvents;
    ReprovingForm(c, w, op, culprit);
    UndoneScores(c, w, op);
    RemovedKeepsOthers(w.pool, op);
  }

  // ---- Failed handleOps, by what failed ----

  /** AA3, the paymaster failed: the paymaster pays, or the account if it has a stake. */
  lemma PaymasterFailure(c: R.Config, w: World, op: UserOperation, accountStaked: bool, factoryStaked: bool)
    requires R.ValidConfig(c)
    ensures var w' := AfterFailedHandleOps(c, w, op, AA3, accountStaked, factoryStaked);
            && (accountStaked ==> Punished(c, w, w', op, op.sender))
            && (!accountStaked && op.paymaster.Some? ==> Punished(c, w, w', op, op.paymaster.value))
            && (!accountStaked && op.paymaster.None? ==> NobodyPunished(w, w', op))
  {
    var culprit := if accountStaked || op.paymaster.None? then op.sender else op.paymaster.value;
    BlamedIsPunished(c, w, op, culprit);
    NobodyBlamed(c, w, op);
    hide Punished, NobodyPunished, Steps, FailedHandleOpsEvents;
  }

  /** AA2, the account failed: the account pays, or its factory if that has a stake; never the paymaster. */
  lemma AccountFailure(c: R.Config, w: World, op: UserOperation, accountStaked: bool, factoryStaked: bool)
    requires R.ValidConfig(c)
    ensures var w' := AfterFailedHandleOps(c, w, op, AA2, accountStaked, factoryStaked);
            && (factoryStaked && op.factory.Some? ==> Punished(c, w, w', op, op.factory.value))
            && (!factoryStaked || op.factory.None? ==> Punished(c, w, w', op, op.sender))
  {
    BlamedIsPunished(c, w, op, if factoryStaked && op.factory.Some? then op.factory.value else op.sender);
    hide Punished, Steps, FailedHandleOpsEvents;
  }

  /** AA1, the creation failed: the factory pays; never the paymaster. */
  lemma CreationFailure(c: R.Config, w: World, op: UserOperation, accountStaked: bool, factoryStaked: bool)
    requires R.ValidConfig(c)
    ensures var w' := AfterFailedHandleOps(c, w, op, AA1, accountStaked, factoryStaked);
            && (op.factory.Some? ==> Punished(c, w, w', op, op.factory.value))
            && (op.factory.None? ==> NobodyPunished(w, w', op))
  {
    if op.factory.Some? {
      BlamedIsPunished(c, w, op, op.factory.value);
    }
    NobodyBlamed(c, w, op);
    hide Punished, NobodyPunished, Steps, FailedHandleOpsEvents;
  }

  lemma OtherFailure(c: R.Config, w: World, op: UserOperation, accountStaked: bool, factoryStaked: bool)
    requires R.ValidConfig(c)
    ensures NobodyPunished(w, AfterFailedHandleOps(c, w, op, OtherReason, accountStaked, factoryStaked), op)
  {
    NobodyBlamed(c, w, op);
  }

  // ---- Failed second validations, by what failed ----

  lemma ValidationFailure(c: R.Config, w: World, op: UserOperation, reason: Reason,
                          accountStaked: bool, factoryStaked: bool)
    requires R.ValidConfig(c)
    ensures var w' := AfterFailedValidation(c, w, op, reason, accountStaked, factoryStaked);
            && (reason == AA3 && accountStaked ==> Reproved(w, w', op, Some(op.sender)))
            && (reason == AA3 && !accountStaked ==> Reproved(w, w', op, op.paymaster))
            && (reason == AA2 && factoryStaked && op.factory.Some? ==> Reproved(w, w', op, op.factory))
            && (reason == AA2 && !(factoryStaked && op.factory.Some?) ==> Reproved(w, w', op, Some(op.sender)))
            && (reason == AA1 ==> Reproved(w, w', op, op.factory))
            && (reason == OtherReason ==> Reproved(w, w', op, None))
  {
    BlamedIsReproved(c, w, op, Some(op.sender));
    BlamedIsReproved(c, w, op, op.paymaster);
    BlamedIsReproved(c, w, op, op.factory);
    BlamedIsReproved(c, w, op, None);
    hide Reproved, Steps, SecondFailureEvents;
  }

  // ---- The turns of an attempt that pack nothing ----

  /** Entry i reaches its second validation at turn i. */
  predicate ReachesValidation(s: Setting, i: nat, p: Packing, w: World)
    requires ValidSetting(s) && i < |s.entries|
  {
    var op := s.entries[i].op;
    && (s.q.maxBundleSize != 0 ==> |s.entries| < s.q.maxBundleSize)
    && (s.q.minBaseFee != 0 ==> s.q.minBaseFee <= op.maxFeePerGas)
    && R.StatusOf(s.c.rep, w.rep, op.paymaster) == R.OK && R.StatusOf(s.c.rep, w.rep, op.factory) == R.OK
    && op.sender !in p.senders && !s.entries[i].skipValidation
  }

  /** A failed validation reproves and removes the operation, and the attempt goes on as before. */
  lemma FailedTurn(s: Setting, i: nat, p: Packing, w: World)
    requires ValidSetting(s) && i < |s.entries| && ReachesValidation(s, i, p, w) && s.env(i).verdict.FailedOp?
    ensures var t := Consider(s.c, s.q, s.known, |s.entries|, s.entries[i], i, s.env(i), p, w);
            var v, validated := s.env(i).verdict, Steps(s.c.rep, w, s.env(i).validating);
            && t.Next? && t.packing == p
            && Steps(s.c.rep, w, t.events)
               == AfterFailedValidation(s.c.rep, validated, s.entries[i].op, v.reason, v.accountStaked, v.factoryStaked)
  {
    var v, op := s.env(i).verdict, s.entries[i].op;
    StepsConcat(s.c.rep, w, s.env(i).validating,
                SecondFailureEvents(op, EntityToBlame(op, v.reason, v.accountStaked, v.factoryStaked)));
  }

  lemma OneRemoval(op: UserOperation)
    ensures FailedHandleOpsEvents(op, None) == [Remove(RefOf(op))]
  {
  }

  /** An operation whose paymaster or factory is banned is removed and nothing else. */
  lemma BannedTurn(s: Setting, i: nat, p: Packing, w: World)
    requires ValidSetting(s) && i < |s.entries| && (s.q.maxBundleSize != 0 ==> |s.entries| < s.q.maxBundleSize)
    requires s.q.minBaseFee != 0 ==> s.q.minBaseFee <= s.entries[i].op.maxFeePerGas
    requires var op := s.entries[i].op;
             R.StatusOf(s.c.rep, w.rep, op.paymaster) == R.BANNED || R.StatusOf(s.c.rep, w.rep, op.factory) == R.BANNED
    ensures var t := Consider(s.c, s.q, s.known, |s.entries|, s.entries[i], i, s.env(i), p, w);
            t.Next? && t.packing == p && NobodyPunished(w, Steps(s.c.rep, w, t.events), s.entries[i].op)
  {
    hide NobodyPunished, FailedHandleOpsEvents, R.StatusOf;
    NobodyBlamed(s.c.rep, w, s.entries[i].op);
    OneRemoval(s.entries[i].op);
  }

  /** After a validation error that is no FailedOp and not fatal the operation is removed and nothing else. */
  lemma UnexplainedTurn(s: Setting, i: nat, p: Packing, w: World)
    requires ValidSetting(s) && i < |s.entries| && ReachesValidation(s, i, p, w) && s.env(i).verdict == Unparsed(false)
    ensures var t := Consider(s.c, s.q, s.known, |s.entries|, s.entries[i], i, s.env(i), p, w);
            var validated := Steps(s.c.rep, w, s.env(i).validating);
            && t.Next? && t.packing == p
            && NobodyPunished(validated, Steps(s.c.rep, w, t.events), s.entries[i].op)
  {
    hide NobodyPunished, FailedHandleOpsEvents, R.StatusOf;
    var op, validated := s.entries[i].op, Steps(s.c.rep, w, s.env(i).validating);
    StepsConcat(s.c.rep, w, s.env(i).validating, [Remove(RefOf(op))]);
    NobodyBlamed(s.c.rep, validated, op);
    OneRemoval(op);
  }

  /**
   * Nothing is done to an operation that pays too little to be looked at, or whose paymaster and factory are not
   * banned and whose validation does not fail: all that happens in its turn is what others do meanwhile.
   */
  lemma QuietTurn(s: Setting, i: nat, p: Packing, w: World)
    requires ValidSetting(s) && i < |s.entries|
    requires var op := s.entries[i].op;
             || (s.q.minBaseFee != 0 && op.maxFeePerGas < s.q.minBaseFee)
             || (&& R.StatusOf(s.c.rep, w.rep, op.paymaster) != R.BANNED
                 && R.StatusOf(s.c.rep, w.rep, op.factory) != R.BANNED
                 && (s.entries[i].skipValidation || s.env(i).verdict.Valid?))
    ensures var t := Consider(s.c, s.q, s.known, |s.entries|, s.entries[i], i, s.env(i), p, w);
            var theirs := if s.entries[i].skipValidation then [] else s.env(i).validating;
            t.events == [] || t.events == theirs || t.events == theirs + s.env(i).settling
  {
    hide R.StatusOf, Merged, MergedAuthorizations;
  }
}
