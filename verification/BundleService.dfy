/** No operation is left out of a bundle without a reason of its own, whatever becomes of the others. */
module BundleService {
  import opened Basics
  import opened UserOperations
  import opened StorageMaps
  import opened Mempool
  import opened WorldEvents
  import opened Bundling
  import opened BundlingTheorems
  import opened BundleCompleteness
  import opened BundleSafety
  import R = Reputation

  /** The tuples of entry k let no signer delegate elsewhere than any tuple of the snapshot does. */
  ghost predicate TuplesFit(s: Setting, k: nat)
    requires k < |s.entries|
  {
    forall t, u | t in s.entries[k].op.authorizations && HasTuple(s, u) && s.c.signerOf(t) == s.c.signerOf(u) ::
      t.delegate == u.delegate
  }

  /** Nothing in entry k itself speaks against bundling it: a statement about this entry and its own validation. */
  ghost predicate Bundleable(s: Setting, k: nat)
    requires k < |s.entries|
  {
    var op, v := s.entries[k].op, VerdictAt(s, k);
    && (s.q.minBaseFee != 0 ==> s.q.minBaseFee <= op.maxFeePerGas)
    && v.Valid? && v.prefund.Some? && (forall a <- v.storageMap.Keys :: a == op.sender || a !in s.known)
    && TuplesFit(s, k)
  }

  /** Along the events the entity, if there is one, is in good standing. */
  ghost predicate GoodStanding(c: R.Config, w: World, evs: seq<Event>, entity: Option<Address>)
    requires R.ValidConfig(c)
  {
    entity.Some? ==> StatusStays(c, w, evs, entity.value, {R.OK})
  }

  /** The picked operations sent by a, at position k or before. */
  ghost predicate SenderServed(s: Setting, p: Packing, k: nat)
    requires k < |s.entries|
  {
    exists l <- p.picked :: l <= k && s.entries[l].op.sender == s.entries[k].op.sender
  }

  // ---- What any attempt has used up before turn i ----

  ghost predicate WithinMeans(s: Setting, i: nat, p: Packing)
    requires i <= |s.entries|
  {
    && p.totalGas <= GasUpTo(s, i)
    && (forall pm <- p.deposits.Keys :: PrefundUpTo(s, |s.entries|, pm) <= p.deposits[pm] + PrefundUpTo(s, i, pm))
    && (forall t <- p.auths :: HasTuple(s, t))
    && (forall l <- p.picked :: l < i)
    && (forall a <- p.senders :: exists l <- p.picked :: s.entries[l].op.sender == a)
  }

  lemma MergeMembers(s: Setting, more: seq<Authorization>, auths: seq<Authorization>)
    requires (forall t <- more :: HasTuple(s, t)) && (forall t <- auths :: HasTuple(s, t))
    ensures forall t <- MergedAuthorizations(s.c.signerOf, more, auths).1 :: HasTuple(s, t)
    decreases more
  {
    if more != [] {
      match FindSigner(s.c.signerOf, auths, s.c.signerOf(more[0]))
      case None => MergeMembers(s, more[1..], auths + [more[0]]);
      case Some(_) => MergeMembers(s, more[1..], auths);
    }
  }

  /** Merging tuples that fit succeeds. */
  lemma {:induction false} FittingMerge(s: Setting, k: nat, more: seq<Authorization>, auths: seq<Authorization>)
    requires k < |s.entries| && TuplesFit(s, k)
    requires (forall t <- more :: t in s.entries[k].op.authorizations) && (forall t <- auths :: HasTuple(s, t))
    ensures MergedAuthorizations(s.c.signerOf, more, auths).0
    decreases more
  {
    if more != [] {
      assert s.entries[k] in s.entries && more[0] in s.entries[k].op.authorizations && HasTuple(s, more[0]);
      match FindSigner(s.c.signerOf, auths, s.c.signerOf(more[0]))
      case None => FittingMerge(s, k, more[1..], auths + [more[0]]);
      case Some(j) =>
        assert auths[j] in auths;
        FittingMerge(s, k, more[1..], auths);
    }
  }

  lemma MovedDeposits(s: Setting, i: nat, p: Packing, p': Packing, pm: Address)
    requires Moved(s, i, p, p') && Ample(s) && WithinMeans(s, i, p) && pm in p'.deposits
    ensures PrefundUpTo(s, |s.entries|, pm) <= p'.deposits[pm] + PrefundUpTo(s, i + 1, pm)
  {
    SumsGrow(s, i, i + 1, pm);
    if pm !in p.deposits {
      assert PrefundUpTo(s, |s.entries|, pm) <= s.env(i).balance;
    }
  }

  lemma MovedMeans(s: Setting, i: nat, p: Packing, p': Packing)
    requires Moved(s, i, p, p') && Ample(s) && WithinMeans(s, i, p)
    ensures WithinMeans(s, i + 1, p') && p.picked <= p'.picked
  {
    hide Merged;
    SumsGrow(s, i, i + 1, []);
    assert s.entries[i] in s.entries;
    MergeMembers(s, s.entries[i].op.authorizations, p.auths);
    forall pm | pm in p'.deposits
      ensures PrefundUpTo(s, |s.entries|, pm) <= p'.deposits[pm] + PrefundUpTo(s, i + 1, pm)
    {
      MovedDeposits(s, i, p, p', pm);
    }
    MovedSenders(s, i, p, p');
  }

  lemma MovedSenders(s: Setting, i: nat, p: Packing, p': Packing)
    requires Moved(s, i, p, p') && i < |s.entries| && WithinMeans(s, i, p)
    ensures forall l <- p'.picked :: l < i + 1
    ensures forall a <- p'.senders :: exists l <- p'.picked :: s.entries[l].op.sender == a
  {
    hide Merged;
    forall a | a in p'.senders
      ensures exists l <- p'.picked :: s.entries[l].op.sender == a
    {
      if a in p.senders {
        var l :| l in p.picked && s.entries[l].op.sender == a;
        assert l in p'.picked;
      } else {
        assert i in p'.picked;
      }
    }
  }

  // ---- One turn ----

  /** With room for everything no turn ends the attempt, however it goes for its entry. */
  lemma TurnGoesOn(s: Setting, i: nat, p: Packing, w: World)
    requires ValidSetting(s) && Ample(s) && i < |s.entries| && WithinMeans(s, i, p)
    ensures !Consider(s.c, s.q, s.known, |s.entries|, s.entries[i], i, s.env(i), p, w).Stop?
  {
    hide Merged, MergedAuthorizations;
    SumsGrow(s, i + 1, |s.entries|, []);
  }

  lemma EnoughLeft(s: Setting, i: nat, p: Packing)
    requires Ample(s) && i < |s.entries| && WithinMeans(s, i, p) && Bundleable(s, i)
    requires s.entries[i].op.sender !in p.senders
    ensures MayJoin(s, i, p)
  {
    SumsGrow(s, i + 1, |s.entries|, []);
    var payer := s.entries[i].op.paymaster;
    if Chargeable(payer) {
      SumsGrow(s, i + 1, |s.entries|, payer.value);
      if payer.value !in p.deposits {
        assert PrefundUpTo(s, |s.entries|, payer.value) <= s.env(i).balance;
      }
    }
  }

  /** The pick of a bundleable entry whose entities are in good standing and whose sender has not been served. */
  lemma TurnServes(s: Setting, i: nat, p: Packing, w: World)
    requires ValidSetting(s) && Ample(s) && i < |s.entries| && WithinMeans(s, i, p) && Bundleable(s, i)
    requires R.StatusOf(s.c.rep, w.rep, s.entries[i].op.paymaster) == R.OK
    requires R.StatusOf(s.c.rep, w.rep, s.entries[i].op.factory) == R.OK
    ensures var t := Consider(s.c, s.q, s.known, |s.entries|, s.entries[i], i, s.env(i), p, w);
            t.Next? && SenderServed(s, t.packing, i)
  {
    hide Merged, MergedAuthorizations;
    var op := s.entries[i].op;
    if op.sender in p.senders {
      var l :| l in p.picked && s.entries[l].op.sender == op.sender;
    } else {
      EnoughLeft(s, i, p);
      FittingMerge(s, i, op.authorizations, p.auths);
      PackPicks(s, i, p, if s.entries[i].skipValidation then [] else s.env(i).validating);
    }
  }

  /** An entry that may join is picked unless its authorizations conflict, whatever happened while it was validated. */
  lemma PackPicks(s: Setting, i: nat, p: Packing, events: seq<Event>)
    requires i < |s.entries| && MayJoin(s, i, p)
    requires MergedAuthorizations(s.c.signerOf, s.entries[i].op.authorizations, p.auths).0
    ensures var t := Pack(s.c, s.q, s.known, s.entries[i].op, i, s.env(i), p, VerdictAt(s, i), events);
            t.Next? && t.packing.picked == p.picked + [i]
  {
    hide Merged, MergedAuthorizations;
  }

  // ---- Whole attempts ----

  lemma {:induction false} PicksRemain(s: Setting, i: nat, p: Packing, w: World, k: nat)
    requires ValidSetting(s) && i <= |s.entries| && k < |s.entries| && SenderServed(s, p, k)
    requires forall l <- p.picked :: l < |s.entries|
    ensures var t := PackFrom(s.c, s.q, s.known, s.entries, s.env, i, p, w);
            t.Built? ==> (forall l <- t.packing.picked :: l < |s.entries|) && SenderServed(s, t.packing, k)
    decreases |s.entries| - i
  {
    if i < |s.entries| {
      ConsiderMoves(s, i, p, w);
      match Consider(s.c, s.q, s.known, |s.entries|, s.entries[i], i, s.env(i), p, w)
      case Next(p', evs) =>
        var l :| l in p.picked && l <= k && s.entries[l].op.sender == s.entries[k].op.sender;
        assert l in p'.picked;
        PicksRemain(s, i + 1, p', Steps(s.c.rep, w, evs), k);
      case _ =>
    }
  }

  lemma {:induction false} PackFromServes(s: Setting, i: nat, p: Packing, w: World, k: nat)
    requires ValidSetting(s) && Ample(s) && i <= k < |s.entries| && WithinMeans(s, i, p) && Bundleable(s, k)
    requires var t := PackFrom(s.c, s.q, s.known, s.entries, s.env, i, p, w);
             && t.Built? && GoodStanding(s.c.rep, w, t.events, s.entries[k].op.paymaster)
             && GoodStanding(s.c.rep, w, t.events, s.entries[k].op.factory)
    ensures var t := PackFrom(s.c, s.q, s.known, s.entries, s.env, i, p, w);
            (forall l <- t.packing.picked :: l < |s.entries|) && SenderServed(s, t.packing, k)
    decreases k - i
  {
    hide Consider, Moved, WithinMeans, Ample, Bundleable, SenderServed;
    ConsiderMoves(s, i, p, w);
    TurnGoesOn(s, i, p, w);
    var turn := Consider(s.c, s.q, s.known, |s.entries|, s.entries[i], i, s.env(i), p, w);
    var p', w' := turn.packing, Steps(s.c.rep, w, turn.events);
    MovedMeans(s, i, p, p');
    if i == k {
      TurnServes(s, i, p, w);
      MeansBelow(s, i + 1, p');
      PicksRemain(s, i + 1, p', w', k);
    } else {
      var rest := PackFrom(s.c, s.q, s.known, s.entries, s.env, i + 1, p', w');
      LaterStanding(s.c.rep, w, turn.events, rest.events, s.entries[k].op.paymaster);
      LaterStanding(s.c.rep, w, turn.events, rest.events, s.entries[k].op.factory);
      PackFromServes(s, i + 1, p', w', k);
    }
  }

  lemma MeansBelow(s: Setting, i: nat, p: Packing)
    requires i <= |s.entries| && WithinMeans(s, i, p)
    ensures forall l <- p.picked :: l < |s.entries|
  {
  }

  lemma LaterStanding(c: R.Config, w: World, xs: seq<Event>, ys: seq<Event>, entity: Option<Address>)
    requires R.ValidConfig(c) && GoodStanding(c, w, xs + ys, entity)
    ensures GoodStanding(c, Steps(c, w, xs), ys, entity)
  {
    if entity.Some? {
      StatusStaysSplit(c, w, xs, ys, entity.value, {R.OK});
    }
  }

  /**
   * In any attempt that ends with a bundle, with room for the whole snapshot: an operation with nothing against itself,
   * whose paymaster and factory stay in good standing, is bundled, unless an earlier one of its sender is. That other
   * operations fail their validation, pay too little, are throttled, banned or removed, or conflict among themselves
   * makes no difference to it.
   */
  lemma NothingDroppedWithoutReason(c: Config, q: Limits, w: World, env: nat -> Await, k: nat)
    requires R.ValidConfig(c.rep) && Created(c, q, w, env).Built? && Ample(SettingOf(c, q, w, env))
    requires k < |SettingOf(c, q, w, env).entries| && Bundleable(SettingOf(c, q, w, env), k)
    requires var op := SettingOf(c, q, w, env).entries[k].op;
             && GoodStanding(c.rep, w, Created(c, q, w, env).events, op.paymaster)
             && GoodStanding(c.rep, w, Created(c, q, w, env).events, op.factory)
    ensures var s, p := SettingOf(c, q, w, env), Created(c, q, w, env).packing;
            k in p.picked
            || exists l <- p.picked :: l < k && s.entries[l].op.sender == s.entries[k].op.sender
  {
    hide Ample, Bundleable, GoodStanding, SortByCost, Consider, StatusStays;
    var s := SettingOf(c, q, w, env);
    NothingUsed(s);
    PackFromServes(s, 0, EMPTY_PACKING, w, k);
  }

  lemma NothingUsed(s: Setting)
    ensures WithinMeans(s, 0, EMPTY_PACKING)
  {
  }

  // ---- When an attempt throws ----

  /** The entry's validation fails fatally, or passes without the prefund its paymaster would owe. */
  predicate Breaking(s: Setting, k: nat)
    requires k < |s.entries|
  {
    && !s.entries[k].skipValidation
    && (s.env(k).verdict == Unparsed(true)
        || (s.env(k).verdict.Valid? && s.env(k).verdict.prefund.None? && Chargeable(s.entries[k].op.paymaster)))
  }

  lemma {:induction false} PackFromThrows(s: Setting, i: nat, p: Packing, w: World)
    requires ValidSetting(s) && i <= |s.entries|
    ensures PackFrom(s.c, s.q, s.known, s.entries, s.env, i, p, w).Threw? ==>
              exists k: nat :: i <= k < |s.entries| && Breaking(s, k)
    decreases |s.entries| - i
  {
    hide Steps, Merged, MergedAuthorizations;
    if i < |s.entries| {
      match Consider(s.c, s.q, s.known, |s.entries|, s.entries[i], i, s.env(i), p, w)
      case Next(p', evs) => PackFromThrows(s, i + 1, p', Steps(s.c.rep, w, evs));
      case Raise(_) => assert Breaking(s, i);
      case Stop(_) =>
    }
  }

  /** An attempt throws only because of an operation whose own validation is to blame. */
  lemma ThrowsOnlyForReason(c: Config, q: Limits, w: World, env: nat -> Await)
    requires R.ValidConfig(c.rep) && Created(c, q, w, env).Threw?
    ensures var s := SettingOf(c, q, w, env); exists k: nat :: k < |s.entries| && Breaking(s, k)
  {
    PackFromThrows(SettingOf(c, q, w, env), 0, EMPTY_PACKING, w);
  }
}
