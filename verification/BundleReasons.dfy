/** The reasons an attempt can have for leaving an operation out of its bundle, with no room taken for granted. */
module BundleReasons {
  import opened Basics
  import opened UserOperations
  import opened StorageMaps
  import opened Mempool
  import opened WorldEvents
  import opened Bundling
  import opened BundlingTheorems
  import opened BundleCompleteness
  import opened BundleSafety
  import opened BundleService
  import R = Reputation

  // ---- Reasons, in terms of the finished bundle ----

  ghost predicate ForeignStorage(s: Setting, k: nat)
    requires k < |s.entries| && VerdictAt(s, k).Valid?
  {
    exists a <- VerdictAt(s, k).storageMap.Keys :: a != s.entries[k].op.sender && a in s.known
  }

  /** A tuple of the entry delegates its signer elsewhere than a kept one does. */
  ghost predicate TupleConflict(s: Setting, k: nat, auths: seq<Authorization>)
    requires k < |s.entries|
  {
    exists t, u | t in s.entries[k].op.authorizations && u in auths ::
      s.c.signerOf(t) == s.c.signerOf(u) && t.delegate != u.delegate
  }

  /** What its paymaster has left does not pay for the entry. */
  ghost predicate Overdrawn(s: Setting, k: nat, deposits: map<Address, nat>)
    requires k < |s.entries|
  {
    var pm, v := s.entries[k].op.paymaster, VerdictAt(s, k);
    Chargeable(pm) && pm.value in deposits && v.Valid? && v.prefund.Some? && deposits[pm.value] < v.prefund.value
  }

  /** Entry j, at or before k and after all that is picked, would take the bundle over a gas cap. */
  ghost predicate CapReached(s: Setting, k: nat, picked: seq<nat>, totalGas: nat)
    requires k < |s.entries|
  {
    exists j: nat | j <= k && VerdictAt(s, j).Valid? ::
      (forall l <- picked :: l < j) && OverCap(s, totalGas + VerdictAt(s, j).preOpGas + s.entries[j].op.callGasLimit)
  }

  predicate OverCap(s: Setting, gas: nat) {
    s.c.maxBundleGas < gas || (s.q.maxBundleGas != 0 && s.q.maxBundleGas <= gas)
  }

  /** What speaks against the entry as soon as its turn is over, and forever after. */
  ghost predicate TurnedDown(s: Setting, k: nat, p: Packing)
    requires k < |s.entries|
  {
    || !PaysBaseFee(s, k)
    || (exists l <- p.picked :: l < k && s.entries[l].op.sender == s.entries[k].op.sender)
    || !VerdictAt(s, k).Valid?
    || ForeignStorage(s, k)
    || Overdrawn(s, k, p.deposits)
    || TupleConflict(s, k, p.auths)
  }

  /** What an entry can be left out for that is written in the finished bundle or in the entry. */
  ghost predicate Excused(s: Setting, k: nat, p: Packing)
    requires k < |s.entries|
  {
    TurnedDown(s, k, p) || CapReached(s, k, p.picked, p.totalGas)
  }

  // ---- What later turns keep ----

  /** Picks and tuples are only added, and deposits only go down. */
  ghost predicate Later(p: Packing, p': Packing) {
    && p.picked <= p'.picked && p.auths <= p'.auths
    && forall pm <- p.deposits.Keys :: pm in p'.deposits && p'.deposits[pm] <= p.deposits[pm]
  }

  lemma {:induction false} MergeGrows(signerOf: Authorization -> Address, more: seq<Authorization>,
                                      auths: seq<Authorization>)
    ensures auths <= MergedAuthorizations(signerOf, more, auths).1
    decreases more
  {
    if more != [] {
      match FindSigner(signerOf, auths, signerOf(more[0]))
      case None => MergeGrows(signerOf, more[1..], auths + [more[0]]);
      case Some(_) => MergeGrows(signerOf, more[1..], auths);
    }
  }

  lemma MovedLater(s: Setting, i: nat, p: Packing, p': Packing)
    requires Moved(s, i, p, p')
    ensures Later(p, p') && (forall l <- p'.picked :: l in p.picked || l == i)
    ensures forall a <- p'.senders :: a in p.senders || (i in p'.picked && s.entries[i].op.sender == a)
  {
    hide Merged, MergedAuthorizations;
    MergeGrows(s.c.signerOf, s.entries[i].op.authorizations, p.auths);
  }

  /** Every sender that counts as served has an operation picked, and only entries passed are picked. */
  ghost predicate Sound(s: Setting, i: nat, p: Packing) {
    && i <= |s.entries| && (forall l <- p.picked :: l < i)
    && forall a <- p.senders :: exists l <- p.picked :: s.entries[l].op.sender == a
  }

  lemma MovedSound(s: Setting, i: nat, p: Packing, p': Packing)
    requires Moved(s, i, p, p') && Sound(s, i, p)
    ensures Sound(s, i + 1, p')
  {
    MovedLater(s, i, p, p');
    hide Moved;
    forall a | a in p'.senders
      ensures exists l <- p'.picked :: s.entries[l].op.sender == a
    {
      if a in p.senders {
        var l :| l in p.picked && s.entries[l].op.sender == a;
        assert l in p'.picked;
      }
    }
  }

  lemma {:induction false} PackFromLater(s: Setting, i: nat, p: Packing, w: World)
    requires ValidSetting(s) && Sound(s, i, p)
    ensures var t := PackFrom(s.c, s.q, s.known, s.entries, s.env, i, p, w);
            t.Built? ==> Later(p, t.packing) && Sound(s, |s.entries|, t.packing)
    decreases |s.entries| - i
  {
    hide Consider, Moved;
    if i < |s.entries| {
      ConsiderMoves(s, i, p, w);
      match Consider(s.c, s.q, s.known, |s.entries|, s.entries[i], i, s.env(i), p, w)
      case Next(p', evs) =>
        MovedLater(s, i, p, p');
        MovedSound(s, i, p, p');
        PackFromLater(s, i + 1, p', Steps(s.c.rep, w, evs));
      case _ =>
    }
  }

  // ---- One turn ----

  predicate RoomInside(s: Setting) {
    s.q.maxBundleSize != 0 ==> |s.entries| < s.q.maxBundleSize
  }

  lemma RefusedConflicts(s: Setting, i: nat, auths: seq<Authorization>)
    requires i < |s.entries| && !MergedAuthorizations(s.c.signerOf, s.entries[i].op.authorizations, auths).0
    ensures TupleConflict(s, i, MergedAuthorizations(s.c.signerOf, s.entries[i].op.authorizations, auths).1)
  {
    var more := s.entries[i].op.authorizations;
    var n := RefusedMergeKeepsTuples(s.c.signerOf, more, auths);
    assert more[n] in more;
  }

  lemma PackTurn(s: Setting, i: nat, p: Packing, events: seq<Event>)
    requires i < |s.entries| && VerdictAt(s, i).Valid?
    ensures var t := Pack(s.c, s.q, s.known, s.entries[i].op, i, s.env(i), p, VerdictAt(s, i), events);
            && (t.Next? ==> i in t.packing.picked || TurnedDown(s, i, t.packing))
            && (t.Stop? ==> OverCap(s, p.totalGas + VerdictAt(s, i).preOpGas + s.entries[i].op.callGasLimit))
  {
    hide Merged, MergedAuthorizations, PaysBaseFee, TupleConflict;
    if !MergedAuthorizations(s.c.signerOf, s.entries[i].op.authorizations, p.auths).0 {
      RefusedConflicts(s, i, p.auths);
    }
  }

  lemma Turned(s: Setting, i: nat, p: Packing, w: World)
    requires ValidSetting(s) && i < |s.entries| && Sound(s, i, p) && RoomInside(s)
    ensures var op, t := s.entries[i].op, Consider(s.c, s.q, s.known, |s.entries|, s.entries[i], i, s.env(i), p, w);
            && (t.Next? && R.StatusOf(s.c.rep, w.rep, op.paymaster) == R.OK
                && R.StatusOf(s.c.rep, w.rep, op.factory) == R.OK ==>
                  i in t.packing.picked || TurnedDown(s, i, t.packing))
            && (t.Stop? ==>
                  && VerdictAt(s, i).Valid?
                  && OverCap(s, p.totalGas + VerdictAt(s, i).preOpGas + op.callGasLimit))
  {
    hide Pack, ForeignStorage, Overdrawn, TupleConflict, OverCap, R.StatusOf;
    if VerdictAt(s, i).Valid? {
      PackTurn(s, i, p, if s.entries[i].skipValidation then [] else s.env(i).validating);
    }
  }

  // ---- Whole attempts ----

  lemma StaysExcused(s: Setting, k: nat, p: Packing, p': Packing)
    requires k < |s.entries| && TurnedDown(s, k, p) && Later(p, p')
    ensures Excused(s, k, p')
  {
    hide CapReached;
  }

  lemma {:induction false} PackFromExcuses(s: Setting, i: nat, p: Packing, w: World, k: nat)
    requires ValidSetting(s) && i <= k < |s.entries| && Sound(s, i, p) && RoomInside(s)
    requires var t := PackFrom(s.c, s.q, s.known, s.entries, s.env, i, p, w);
             && t.Built? && GoodStanding(s.c.rep, w, t.events, s.entries[k].op.paymaster)
             && GoodStanding(s.c.rep, w, t.events, s.entries[k].op.factory)
    ensures var p := PackFrom(s.c, s.q, s.known, s.entries, s.env, i, p, w).packing;
            k in p.picked || Excused(s, k, p)
    decreases k - i
  {
    hide Consider, Moved, TurnedDown, OverCap;
    ConsiderMoves(s, i, p, w);
    Turned(s, i, p, w);
    var turn := Consider(s.c, s.q, s.known, |s.entries|, s.entries[i], i, s.env(i), p, w);
    match turn
    case Stop(_) =>
      hide Excused;
      assert CapReached(s, k, p.picked, p.totalGas);
      CapExcuses(s, k, p);
    case Next(p', evs) =>
      hide Excused, CapReached;
      var w' := Steps(s.c.rep, w, evs);
      MovedSound(s, i, p, p');
      PackFromLater(s, i + 1, p', w');
      var rest := PackFrom(s.c, s.q, s.known, s.entries, s.env, i + 1, p', w');
      if i == k {
        FirstStanding(s.c.rep, w, evs + rest.events, s.entries[k].op.paymaster);
        FirstStanding(s.c.rep, w, evs + rest.events, s.entries[k].op.factory);
        if TurnedDown(s, k, p') {
          StaysExcused(s, k, p', rest.packing);
        }
      } else {
        LaterStanding(s.c.rep, w, evs, rest.events, s.entries[k].op.paymaster);
        LaterStanding(s.c.rep, w, evs, rest.events, s.entries[k].op.factory);
        PackFromExcuses(s, i + 1, p', w', k);
      }
  }

  lemma CapExcuses(s: Setting, k: nat, p: Packing)
    requires k < |s.entries| && CapReached(s, k, p.picked, p.totalGas)
    ensures Excused(s, k, p)
  {
  }

  lemma FirstStanding(c: R.Config, w: World, evs: seq<Event>, entity: Option<Address>)
    requires R.ValidConfig(c) && GoodStanding(c, w, evs, entity)
    ensures R.StatusOf(c, w.rep, entity) == R.OK
  {
  }

  /**
   * Every operation of the snapshot is bundled, or the attempt can say why not: its fees are too low, an earlier
   * operation of its sender is bundled, it failed its validation, it reads the storage of another known sender, what
   * is left of its paymaster's deposit does not cover it, one of its tuples conflicts with a kept one, the bundle had
   * no gas left for it or for an operation before it, its paymaster or factory lost its standing, or the snapshot
   * exceeds the size limit.
   */
  lemma EveryDropHasAReason(c: Config, q: Limits, w: World, env: nat -> Await, k: nat)
    requires R.ValidConfig(c.rep) && Created(c, q, w, env).Built? && k < |SettingOf(c, q, w, env).entries|
    ensures var s, t := SettingOf(c, q, w, env), Created(c, q, w, env);
            || k in t.packing.picked || Excused(s, k, t.packing)
            || !GoodStanding(c.rep, w, t.events, s.entries[k].op.paymaster)
            || !GoodStanding(c.rep, w, t.events, s.entries[k].op.factory)
            || (q.maxBundleSize != 0 && q.maxBundleSize <= |s.entries|)
    ensures var s, t := SettingOf(c, q, w, env), Created(c, q, w, env);
            t.packing.totalGas == GasSum(s, t.packing.picked)
  {
    var path := CreatedPath(c, q, w, env);
    PathGas(SettingOf(c, q, w, env), path);
    hide Excused, GoodStanding, SortByCost, Consider, StatusStays;
    var s := SettingOf(c, q, w, env);
    if RoomInside(s) && GoodStanding(c.rep, w, Created(c, q, w, env).events, s.entries[k].op.paymaster)
       && GoodStanding(c.rep, w, Created(c, q, w, env).events, s.entries[k].op.factory) {
      PackFromExcuses(s, 0, EMPTY_PACKING, w, k);
    }
  }
}
