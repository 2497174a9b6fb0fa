/** How many pending operations an unstaked sender can have. */
module MempoolQuota {
  import opened Basics
  import opened UserOperations
  import opened Mempool
  import opened WorldEvents
  import opened MempoolInvariants
  import R = Reputation

  function Sends(entries: seq<MempoolEntry>, a: Address): nat {
    if entries == [] then 0 else (if entries[0].op.sender == a then 1 else 0) + Sends(entries[1..], a)
  }

  lemma {:induction false} SendsConcat(s: seq<MempoolEntry>, t: seq<MempoolEntry>, a: Address)
    ensures Sends(s + t, a) == Sends(s, a) + Sends(t, a)
  {
    if s == [] {
      assert s + t == t;
    } else {
      assert (s + t)[1..] == s[1..] + t;
      SendsConcat(s[1..], t, a);
    }
  }

  lemma {:induction false} SendsAreRoles(s: seq<MempoolEntry>, a: Address)
    ensures Sends(s, a) <= Roles(s, a)
  {
    if s != [] {
      SendsAreRoles(s[1..], a);
    }
  }

  /** Taking one entry out, or another one of the same sender in its place. */
  lemma SendsAround(s: seq<MempoolEntry>, i: nat, e: MempoolEntry, a: Address)
    requires i < |s|
    ensures Sends(RemoveAt(s, i), a) <= Sends(s, a)
    ensures e.op.sender == s[i].op.sender ==> Sends(s[i := e], a) == Sends(s, a)
  {
    SendsConcat(s[..i], s[i + 1..], a);
    SendsConcat(s[..i], s[i..], a);
    SendsConcat(s[..i], [e] + s[i + 1..], a);
    assert s == s[..i] + s[i..] && s[i := e] == s[..i] + ([e] + s[i + 1..]);
    assert s[i..][1..] == s[i + 1..] && ([e] + s[i + 1..])[1..] == s[i + 1..];
  }

  lemma {:induction false} BannedScanSends(pool: Pool, b: Address, i: nat, a: Address)
    requires i <= |pool.entries|
    ensures Sends(BannedScan(pool, b, i).entries, a) <= Sends(pool.entries, a)
    decreases i
  {
    if i != 0 {
      var q := ByHash(pool.entries[i - 1].hash);
      RemovedSends(pool, q, a);
      BannedScanSends(if Names(pool.entries[i - 1].op, b) then Removed(pool, q) else pool, b, i - 1, a);
    }
  }

  lemma RemovedSends(pool: Pool, q: OpRef, a: Address)
    ensures Sends(Removed(pool, q).entries, a) <= Sends(pool.entries, a)
  {
    var found := FirstMatch(pool.entries, q);
    if found.Some? {
      SendsAround(pool.entries, found.value, pool.entries[found.value], a);
    }
  }

  /** A validated submission whose sender, if it is a, lacks the stake. */
  predicate Unstaked(c: R.Config, e: Event, a: Address) {
    e.Submit? ==>
      && !e.skip
      && (e.op.sender == a ==>
            var info := e.info.senderInfo;
            info.addr == a && (info.stake < c.minStake || info.unstakeDelaySec < c.minUnstakeDelay))
  }

  lemma SubmittedWithinQuota(c: R.Config, w: World, op: UserOperation, hash: Hash, v: ValidationInfo, a: Address)
    requires R.ValidConfig(c) && a !in c.whitelist && CountsMatch(w.pool)
    requires Unstaked(c, Submit(false, op, hash, v), a) && Sends(w.pool.entries, a) <= R.SAME_SENDER_MEMPOOL_COUNT
    ensures var r := Submitted(c, w, false, op, hash, v);
            r.Ok? ==> Sends(r.value.pool.entries, a) <= R.SAME_SENDER_MEMPOOL_COUNT
  {
    hide RoleCheck, ReplacementCheck, SeenUpdate, R.StatusOf;
    var entry := EntryFor(false, op, hash, v);
    var found := FirstMatch(w.pool.entries, RefOf(op));
    if found.Some? {
      SendsAround(w.pool.entries, found.value, entry, a);
    } else {
      SendsConcat(w.pool.entries, [entry], a);
      assert CountMatches(w.pool, a);
      SendsAreRoles(w.pool.entries, a);
    }
  }

  /**
   * [UREP-010] Over runs of validated submissions whose replacements keep the entities, a sender without stake never
   * has more than four pending operations.
   */
  lemma {:induction false} UnstakedSenderQuota(c: R.Config, w: World, evs: seq<Event>, a: Address)
    requires R.ValidConfig(c) && a !in c.whitelist
    requires CountsMatch(w.pool) && OrderlyRun(c, w, evs) && (forall e <- evs :: Unstaked(c, e, a))
    requires Sends(w.pool.entries, a) <= R.SAME_SENDER_MEMPOOL_COUNT
    ensures Sends(Steps(c, w, evs).pool.entries, a) <= R.SAME_SENDER_MEMPOOL_COUNT
    decreases evs
  {
    hide CountsMatch, Orderly, Unstaked;
    if evs != [] {
      assert evs[0] in evs;
      StepKeeps(c, w, evs[0]);
      StepWithinQuota(c, w, evs[0], a);
      UnstakedSenderQuota(c, Step(c, w, evs[0]), evs[1..], a);
    }
  }

  lemma StepWithinQuota(c: R.Config, w: World, e: Event, a: Address)
    requires R.ValidConfig(c) && a !in c.whitelist && CountsMatch(w.pool) && Unstaked(c, e, a)
    requires Sends(w.pool.entries, a) <= R.SAME_SENDER_MEMPOOL_COUNT
    ensures Sends(Step(c, w, e).pool.entries, a) <= R.SAME_SENDER_MEMPOOL_COUNT
  {
    match e
    case Submit(_, op, hash, v) => SubmittedWithinQuota(c, w, op, hash, v, a);
    case Remove(q) => RemovedSends(w.pool, q, a);
    case RemoveBanned(b) => BannedScanSends(w.pool, b, |w.pool.entries|, a);
    case _ =>
  }
}
