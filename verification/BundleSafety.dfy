/** Safety over whole runs: throttled and banned entities. */
module BundleSafety {
  import opened Basics
  import opened UserOperations
  import opened Mempool
  import opened MempoolInvariants
  import opened WorldEvents
  import opened Bundling
  import opened BundlingTheorems
  import R = Reputation

  // ---- Statuses along a run ----

  /** Before, between and after the events the status of a is one of the given ones. */
  ghost predicate StatusStays(c: R.Config, w: World, evs: seq<Event>, a: Address, allowed: set<R.Status>)
    requires R.ValidConfig(c)
    decreases evs
  {
    && R.StatusOf(c, w.rep, Some(a)) in allowed
    && (evs != [] ==> StatusStays(c, Step(c, w, evs[0]), evs[1..], a, allowed))
  }

  lemma {:induction false} StatusStaysSplit(c: R.Config, w: World, xs: seq<Event>, ys: seq<Event>, a: Address,
                                            allowed: set<R.Status>)
    requires R.ValidConfig(c) && StatusStays(c, w, xs + ys, a, allowed)
    ensures StatusStays(c, w, xs, a, allowed) && StatusStays(c, Steps(c, w, xs), ys, a, allowed)
    decreases xs
  {
    if xs == [] {
      assert xs + ys == ys;
    } else {
      assert (xs + ys)[1..] == xs[1..] + ys;
      StatusStaysSplit(c, Step(c, w, xs[0]), xs[1..], ys, a, allowed);
    }
  }

  // ---- Entities in bad standing are never served ----

  predicate ServedBy(op: UserOperation, a: Address) {
    op.paymaster == Some(a) || op.factory == Some(a)
  }

  ghost predicate NoneServedBy(entries: seq<MempoolEntry>, picked: seq<nat>, a: Address) {
    forall k | k in picked && k < |entries| :: !ServedBy(entries[k].op, a)
  }

  lemma TurnSkipsBadStanding(s: Setting, i: nat, p: Packing, w: World, a: Address)
    requires ValidSetting(s) && i < |s.entries| && ServedBy(s.entries[i].op, a)
    requires R.StatusOf(s.c.rep, w.rep, Some(a)) != R.OK
    ensures var t := Consider(s.c, s.q, s.known, |s.entries|, s.entries[i], i, s.env(i), p, w);
            t.Next? ==> t.packing == p
  {
  }

  lemma {:induction false} PackFromSkipsBadStanding(s: Setting, i: nat, p: Packing, w: World, a: Address)
    requires ValidSetting(s) && i <= |s.entries| && NoneServedBy(s.entries, p.picked, a)
    requires StatusStays(s.c.rep, w, PackFrom(s.c, s.q, s.known, s.entries, s.env, i, p, w).events, a,
                        {R.THROTTLED, R.BANNED})
    ensures var t := PackFrom(s.c, s.q, s.known, s.entries, s.env, i, p, w);
            t.Built? ==> NoneServedBy(s.entries, t.packing.picked, a)
    decreases |s.entries| - i
  {
    if i < |s.entries| {
      ConsiderMoves(s, i, p, w);
      match Consider(s.c, s.q, s.known, |s.entries|, s.entries[i], i, s.env(i), p, w)
      case Next(p', evs) =>
        var w' := Steps(s.c.rep, w, evs);
        var rest := PackFrom(s.c, s.q, s.known, s.entries, s.env, i + 1, p', w');
        StatusStaysSplit(s.c.rep, w, evs, rest.events, a, {R.THROTTLED, R.BANNED});
        if ServedBy(s.entries[i].op, a) {
          TurnSkipsBadStanding(s, i, p, w, a);
        } else {
          assert forall k :: k in p'.picked ==> k in p.picked || k == i;
        }
        PackFromSkipsBadStanding(s, i + 1, p', w', a);
      case _ =>
    }
  }

  /**
   * While an address is throttled or banned, no bundle contains an operation with it as paymaster or factory: the
   * allowance of a few operations for throttled entities is never reached.
   */
  lemma BadStandingNeverServed(c: Config, q: Limits, w: World, env: nat -> Await, a: Address)
    requires R.ValidConfig(c.rep) && Created(c, q, w, env).Built?
    requires StatusStays(c.rep, w, Created(c, q, w, env).events, a, {R.THROTTLED, R.BANNED})
    ensures NoneServedBy(SortByCost(w.pool.entries), Created(c, q, w, env).packing.picked, a)
  {
    PackFromSkipsBadStanding(SettingOf(c, q, w, env), 0, EMPTY_PACKING, w, a);
  }

  // ---- Banned senders stay out of the mempool ----

  ghost predicate NotSending(pool: Pool, a: Address) {
    forall e <- pool.entries :: e.op.sender != a
  }

  /** A submission that was validated, with the stake information of its own sender. */
  predicate Genuine(e: Event) {
    e.Submit? ==> !e.skip && e.info.senderInfo.addr == e.op.sender
  }

  lemma RemovedShrinks(pool: Pool, q: OpRef)
    ensures forall e <- Removed(pool, q).entries :: e in pool.entries
  {
  }

  lemma {:induction false} BannedScanShrinks(pool: Pool, a: Address, i: nat)
    requires i <= |pool.entries|
    ensures forall e <- BannedScan(pool, a, i).entries :: e in pool.entries
    decreases i
  {
    if i != 0 {
      var q := ByHash(pool.entries[i - 1].hash);
      RemovedShrinks(pool, q);
      BannedScanShrinks(if Names(pool.entries[i - 1].op, a) then Removed(pool, q) else pool, a, i - 1);
    }
  }

  /** Admission refuses a banned sender, and a replacement keeps the sender it replaces. */
  lemma StepKeepsSenderOut(c: R.Config, w: World, e: Event, a: Address)
    requires R.ValidConfig(c) && Genuine(e) && NotSending(w.pool, a)
    requires R.StatusOf(c, w.rep, Some(a)) == R.BANNED
    ensures NotSending(Step(c, w, e).pool, a)
  {
    match e
    case Submit(skip, op, hash, info) =>
      assert forall x | 0 <= x < |w.pool.entries| :: w.pool.entries[x].op.sender != a;
      if op.sender == a {
        assert FirstMatch(w.pool.entries, RefOf(op)).None?;
        assert ReputationCheck(c, w, info).Fail?;
      }
    case Remove(q) => RemovedShrinks(w.pool, q);
    case RemoveBanned(b) => BannedScanShrinks(w.pool, b, |w.pool.entries|);
    case _ =>
  }

  lemma {:induction false} RunKeepsSenderOut(c: R.Config, w: World, evs: seq<Event>, a: Address)
    requires R.ValidConfig(c) && NotSending(w.pool, a) && (forall e <- evs :: Genuine(e))
    requires StatusStays(c, w, evs, a, {R.BANNED})
    ensures NotSending(Steps(c, w, evs).pool, a)
    decreases evs
  {
    if evs != [] {
      StepKeepsSenderOut(c, w, evs[0], a);
      RunKeepsSenderOut(c, Step(c, w, evs[0]), evs[1..], a);
    }
  }

  /** No state holds an operation sent by a: not before, not after, and not between any two of the events. */
  ghost predicate NeverSending(c: R.Config, w: World, evs: seq<Event>, a: Address)
    requires R.ValidConfig(c)
  {
    forall n | 0 <= n <= |evs| :: NotSending(Steps(c, w, evs[..n]).pool, a)
  }

  lemma RunNeverSends(c: R.Config, w: World, evs: seq<Event>, a: Address)
    requires R.ValidConfig(c) && NotSending(w.pool, a) && (forall e <- evs :: Genuine(e))
    requires StatusStays(c, w, evs, a, {R.BANNED})
    ensures NeverSending(c, w, evs, a)
  {
    forall n | 0 <= n <= |evs|
      ensures NotSending(Steps(c, w, evs[..n]).pool, a)
    {
      assert evs == evs[..n] + evs[n..];
      StatusStaysSplit(c, w, evs[..n], evs[n..], a, {R.BANNED});
      RunKeepsSenderOut(c, w, evs[..n], a);
    }
  }

  // ---- Whole runs with bundles ----

  /** Either something happens to the shared state, or a bundle is attempted. */
  datatype Action = Happen(event: Event) | Bundle(limits: Limits, env: nat -> Await)

  ghost function ActionEvents(c: Config, w: World, act: Action): seq<Event>
    requires R.ValidConfig(c.rep)
  {
    match act
    case Happen(e) => [e]
    case Bundle(q, env) => Created(c, q, w, env).events
  }

  ghost function WorldAfter(c: Config, w: World, acts: seq<Action>): World
    requires R.ValidConfig(c.rep)
    decreases acts
  {
    if acts == [] then w else WorldAfter(c, Steps(c.rep, w, ActionEvents(c, w, acts[0])), acts[1..])
  }

  /** Throughout the run, also inside bundle attempts, a is banned and every submission is genuine. */
  ghost predicate BannedThroughout(c: Config, w: World, acts: seq<Action>, a: Address)
    requires R.ValidConfig(c.rep)
    decreases acts
  {
    acts != [] ==>
      var evs := ActionEvents(c, w, acts[0]);
      && StatusStays(c.rep, w, evs, a, {R.BANNED}) && (forall e <- evs :: Genuine(e))
      && BannedThroughout(c, Steps(c.rep, w, evs), acts[1..], a)
  }

  ghost predicate BundleFreeOf(c: Config, q: Limits, w: World, env: nat -> Await, a: Address)
    requires R.ValidConfig(c.rep)
  {
    Created(c, q, w, env).Built? ==>
      forall k <- Created(c, q, w, env).packing.picked ::
        var entries := SortByCost(w.pool.entries);
        k < |entries| && !Names(entries[k].op, a)
  }

  /**
   * No state of the run, also inside bundle attempts, holds an operation sent by a, and no bundle of the run names a
   * in any role.
   */
  ghost predicate FreeOf(c: Config, w: World, acts: seq<Action>, a: Address)
    requires R.ValidConfig(c.rep)
    decreases acts
  {
    && NotSending(w.pool, a)
    && (acts != [] ==>
          && NeverSending(c.rep, w, ActionEvents(c, w, acts[0]), a)
          && (acts[0].Bundle? ==> BundleFreeOf(c, acts[0].limits, w, acts[0].env, a))
          && FreeOf(c, Steps(c.rep, w, ActionEvents(c, w, acts[0])), acts[1..], a))
  }

  lemma {:induction false} StatusStaysWiden(c: R.Config, w: World, evs: seq<Event>, a: Address)
    requires R.ValidConfig(c) && StatusStays(c, w, evs, a, {R.BANNED})
    ensures StatusStays(c, w, evs, a, {R.THROTTLED, R.BANNED})
    decreases evs
  {
    if evs != [] {
      StatusStaysWiden(c, Step(c, w, evs[0]), evs[1..], a);
    }
  }

  lemma BannedBundleFree(c: Config, q: Limits, w: World, env: nat -> Await, a: Address)
    requires R.ValidConfig(c.rep) && NotSending(w.pool, a)
    requires StatusStays(c.rep, w, Created(c, q, w, env).events, a, {R.BANNED})
    ensures BundleFreeOf(c, q, w, env, a)
  {
    if Created(c, q, w, env).Built? {
      StatusStaysWiden(c.rep, w, Created(c, q, w, env).events, a);
      BadStandingNeverServed(c, q, w, env, a);
      var path := CreatedPath(c, q, w, env);
      PathPicks(SettingOf(c, q, w, env), path);
      SnapshotMembers(w.pool.entries);
      var s := SortByCost(w.pool.entries);
      forall k | k in Created(c, q, w, env).packing.picked
        ensures k < |s| && !Names(s[k].op, a)
      {
        assert s[k] in s;
      }
    }
  }

  lemma {:induction false} BannedRunFree(c: Config, w: World, acts: seq<Action>, a: Address)
    requires R.ValidConfig(c.rep) && NotSending(w.pool, a) && BannedThroughout(c, w, acts, a)
    ensures FreeOf(c, w, acts, a)
    decreases acts
  {
    if acts != [] {
      var evs := ActionEvents(c, w, acts[0]);
      RunNeverSends(c.rep, w, evs, a);
      assert evs[..|evs|] == evs;
      if acts[0].Bundle? {
        BannedBundleFree(c, acts[0].limits, w, acts[0].env, a);
      }
      BannedRunFree(c, Steps(c.rep, w, evs), acts[1..], a);
    }
  }

  /** Whether one crash bans an entity that is not whitelisted. */
  predicate CrashBans(p: R.Params)
    requires 0 < p.minInclusionDenominator
  {
    R.BAN_OPS_SEEN_PENALTY / p.minInclusionDenominator > Max(p.banSlack, p.throttlingSlack)
  }

  lemma CrashBansUnderBothParams()
    ensures CrashBans(R.BUNDLER_PARAMS) && CrashBans(R.NON_BUNDLER_PARAMS)
  {
  }

  /** Blaming an entity for a failed handleOps leaves no pending operation that names it, and bans it. */
  lemma BlameClearsAndBans(c: R.Config, w: World, op: UserOperation, a: Address)
    requires R.ValidConfig(c)
    ensures var w' := Steps(c, w, FailedHandleOpsEvents(op, Some(a)));
            && (forall e <- w'.pool.entries :: !Names(e.op, a))
            && (a !in c.whitelist && CrashBans(c.params) ==> R.StatusOf(c, w'.rep, Some(a)) == R.BANNED)
  {
    var seen := [Seen(Some(op.sender), -1), Seen(op.paymaster, -1), Seen(op.factory, -1)];
    var rest := [RemoveBanned(a), Crash(Some(a)), Remove(RefOf(op))];
    assert FailedHandleOpsEvents(op, Some(a)) == seen + rest;
    StepsConcat(c, w, seen, rest);
    var w1 := Steps(c, w, seen);
    var w2 := Step(c, w1, RemoveBanned(a));
    BannedScanClears(w1.pool, a, |w1.pool.entries|);
    var w3 := Step(c, w2, Crash(Some(a)));
    if a !in c.whitelist && CrashBans(c.params) {
      R.CrashedStaysBanned(c, w2.rep, a, []);
    }
    RemovedShrinks(w3.pool, RefOf(op));
    assert rest[1..] == [Crash(Some(a)), Remove(RefOf(op))] && rest[1..][1..] == [Remove(RefOf(op))];
    assert Steps(c, w3, [Remove(RefOf(op))]) == Step(c, w3, Remove(RefOf(op)));
    assert Steps(c, w1, rest) == Steps(c, w2, rest[1..]) == Steps(c, w3, rest[1..][1..]);
  }

  /**
   * Ban safety: after a failed handleOps blamed on a, for as long as a stays banned, no reachable mempool holds an
   * operation sent by a and no bundle started later contains an operation naming a.
   */
  lemma BanSafety(c: Config, w: World, op: UserOperation, a: Address, acts: seq<Action>)
    requires R.ValidConfig(c.rep)
    requires BannedThroughout(c, Steps(c.rep, w, FailedHandleOpsEvents(op, Some(a))), acts, a)
    ensures FreeOf(c, Steps(c.rep, w, FailedHandleOpsEvents(op, Some(a))), acts, a)
  {
    BlameClearsAndBans(c.rep, w, op, a);
    BannedRunFree(c, Steps(c.rep, w, FailedHandleOpsEvents(op, Some(a))), acts, a);
  }

  // ---- All roles ----

  ghost predicate NotNaming(pool: Pool, a: Address) {
    forall e <- pool.entries :: !Names(e.op, a)
  }

  /** A submission with the stake information of all its entities; the EIP-7702 marker is no entity. */
  predicate FullyGenuine(e: Event) {
    Genuine(e) &&
    (e.Submit? ==>
       && (e.op.paymaster.Some? ==>
             e.info.paymasterInfo.Some? && e.info.paymasterInfo.value.addr == e.op.paymaster.value)
       && (e.op.factory.Some? && e.op.factory.value != EIP_7702_MARKER ==>
             e.info.factoryInfo.Some? && e.info.factoryInfo.value.addr == e.op.factory.value))
  }

  /** A replacement that names a where the operation it replaces did not. */
  predicate Introduces(w: World, e: Event, a: Address) {
    e.Submit? && Names(e.op, a) &&
    match FirstMatch(w.pool.entries, RefOf(e.op))
    case None => false
    case Some(i) => !Names(w.pool.entries[i].op, a)
  }

  /** Replacements skip the reputation check: they are the only way for a banned address back into the mempool. */
  lemma StepNamesIff(c: R.Config, w: World, e: Event, a: Address)
    requires R.ValidConfig(c) && FullyGenuine(e) && NotNaming(w.pool, a) && a != EIP_7702_MARKER
    requires R.StatusOf(c, w.rep, Some(a)) == R.BANNED
    ensures NotNaming(Step(c, w, e).pool, a)
       <==> !(Introduces(w, e, a) && Submitted(c, w, false, e.op, e.hash, e.info).Ok?)
  {
    match e
    case Submit(_, op, hash, info) => SubmittedNamesIff(c, w, op, hash, info, a);
    case Remove(q) => RemovedShrinks(w.pool, q);
    case RemoveBanned(b) => BannedScanShrinks(w.pool, b, |w.pool.entries|);
    case _ =>
  }

  lemma SubmittedNamesIff(c: R.Config, w: World, op: UserOperation, hash: Hash, info: ValidationInfo, a: Address)
    requires R.ValidConfig(c) && FullyGenuine(Submit(false, op, hash, info)) && NotNaming(w.pool, a)
    requires a != EIP_7702_MARKER && R.StatusOf(c, w.rep, Some(a)) == R.BANNED
    ensures var e, r := Submit(false, op, hash, info), Submitted(c, w, false, op, hash, info);
            r.Ok? ==> (NotNaming(r.value.pool, a) <==> !Introduces(w, e, a))
  {
    hide SeenUpdate, RoleCheck, ReplacementCheck;
    var entry := EntryFor(false, op, hash, info);
    match FirstMatch(w.pool.entries, RefOf(op))
    case Some(i) =>
      var entries := w.pool.entries[i := entry];
      assert entries[i] == entry;
      assert forall x <- entries :: x == entry || x in w.pool.entries;
      assert !Names(w.pool.entries[i].op, a);
    case None =>
      if Names(op, a) {
        assert ReputationCheck(c, w, info).Fail?;
      }
  }

  /** No event of the run introduces a, and the submissions are fully genuine. */
  ghost predicate KeptOut(c: R.Config, w: World, evs: seq<Event>, a: Address)
    requires R.ValidConfig(c)
    decreases evs
  {
    evs != [] ==>
      FullyGenuine(evs[0]) && !Introduces(w, evs[0], a) && KeptOut(c, Step(c, w, evs[0]), evs[1..], a)
  }

  ghost predicate NeverNaming(c: R.Config, w: World, evs: seq<Event>, a: Address)
    requires R.ValidConfig(c)
  {
    forall n | 0 <= n <= |evs| :: NotNaming(Steps(c, w, evs[..n]).pool, a)
  }

  lemma {:induction false} RunKeepsNamesOut(c: R.Config, w: World, evs: seq<Event>, a: Address, n: nat)
    requires R.ValidConfig(c) && NotNaming(w.pool, a) && a != EIP_7702_MARKER && n <= |evs|
    requires StatusStays(c, w, evs, a, {R.BANNED}) && KeptOut(c, w, evs, a)
    ensures NotNaming(Steps(c, w, evs[..n]).pool, a)
    decreases n
  {
    hide Step, NotNaming, FullyGenuine, Introduces;
    if n != 0 {
      StepNamesIff(c, w, evs[0], a);
      RunKeepsNamesOut(c, Step(c, w, evs[0]), evs[1..], a, n - 1);
      assert evs[..n][1..] == evs[1..][..n - 1];
    }
  }

  ghost predicate KeptOutThroughout(c: Config, w: World, acts: seq<Action>, a: Address)
    requires R.ValidConfig(c.rep)
    decreases acts
  {
    acts != [] ==>
      var evs := ActionEvents(c, w, acts[0]);
      KeptOut(c.rep, w, evs, a) && KeptOutThroughout(c, Steps(c.rep, w, evs), acts[1..], a)
  }

  /** No state of the run, also inside bundle attempts, holds an operation naming a in any role. */
  ghost predicate NamedNowhere(c: Config, w: World, acts: seq<Action>, a: Address)
    requires R.ValidConfig(c.rep)
    decreases acts
  {
    && NotNaming(w.pool, a)
    && (acts != [] ==>
          var evs := ActionEvents(c, w, acts[0]);
          NeverNaming(c.rep, w, evs, a) && NamedNowhere(c, Steps(c.rep, w, evs), acts[1..], a))
  }

  lemma {:induction false} KeptOutRun(c: Config, w: World, acts: seq<Action>, a: Address)
    requires R.ValidConfig(c.rep) && NotNaming(w.pool, a) && a != EIP_7702_MARKER
    requires BannedThroughout(c, w, acts, a) && KeptOutThroughout(c, w, acts, a)
    ensures NamedNowhere(c, w, acts, a)
    decreases acts
  {
    hide NotNaming, KeptOut, Steps;
    if acts != [] {
      var evs := ActionEvents(c, w, acts[0]);
      forall n | 0 <= n <= |evs|
        ensures NotNaming(Steps(c.rep, w, evs[..n]).pool, a)
      {
        RunKeepsNamesOut(c.rep, w, evs, a, n);
      }
      assert evs[..|evs|] == evs;
      KeptOutRun(c, Steps(c.rep, w, evs), acts[1..], a);
    }
  }

  /**
   * Ban safety in all roles: when in addition no replacement introduces a, no reachable mempool holds an operation
   * that names a at all.
   */
  lemma BanSafetyInAllRoles(c: Config, w: World, op: UserOperation, a: Address, acts: seq<Action>)
    requires R.ValidConfig(c.rep) && a != EIP_7702_MARKER
    requires BannedThroughout(c, Steps(c.rep, w, FailedHandleOpsEvents(op, Some(a))), acts, a)
    requires KeptOutThroughout(c, Steps(c.rep, w, FailedHandleOpsEvents(op, Some(a))), acts, a)
    ensures NamedNowhere(c, Steps(c.rep, w, FailedHandleOpsEvents(op, Some(a))), acts, a)
  {
    BlameClearsAndBans(c.rep, w, op, a);
    KeptOutRun(c, Steps(c.rep, w, FailedHandleOpsEvents(op, Some(a))), acts, a);
  }
}
