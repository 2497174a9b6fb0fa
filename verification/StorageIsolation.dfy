/** Storage isolation of bundled operations, from the bundle down to the call traces of their validations. */
module StorageIsolation {
  import opened Basics
  import opened ByteStrings
  import opened UserOperations
  import opened StorageMaps
  import opened Mempool
  import opened Bundling
  import opened BundlingTheorems
  import opened BundleCompleteness
  import R = Reputation
  import RC = RuleChecker
  import CT = CallTraces
  import SO = StorageOwners

  /** The trace a validation ran on. */
  datatype Trace = Trace(run: RC.Run, call: CT.Call)

  ghost function Found(t: Trace): StorageMap
    requires RC.ParseOutcome(t.run, true, t.call).Returned?
  {
    RC.ParseOutcome(t.run, true, t.call).state.found.storage
  }

  /** The storage map of a passed validation is the one the strict rule checker returned for its trace. */
  ghost predicate ValidatedBy(v: Verdict, t: Trace) {
    v.Valid? && RC.ParseOutcome(t.run, true, t.call).Returned? && v.storageMap == Found(t)
  }

  function FramesOf(t: Trace): seq<SO.OwnedFrame> {
    SO.OwnedFrames(t.run, t.call, t.call.to)
  }

  /**
   * For any mempool, validations and interference: no visited trace frame of a validated bundled operation, outside
   * system code, that accesses storage runs the code of the sender of another operation in the bundle. So none accesses
   * that sender's storage, neither by its code nor by code it delegates to, unless the sender delegates all of them.
   */
  lemma BundleIsolationEndToEnd(c: Config, q: Limits, w: World, env: nat -> Await, t: Trace,
                                k: nat, l: nat, f: SO.OwnedFrame, slot: Word)
    requires R.ValidConfig(c.rep) && Created(c, q, w, env).Built?
    requires k in Created(c, q, w, env).packing.picked && l in Created(c, q, w, env).packing.picked && k != l
    requires ValidatedBy(env(k).verdict, t) && f in FramesOf(t)
    ensures var entries := SortByCost(w.pool.entries);
            && k < |entries| && l < |entries|
            && (!entries[k].skipValidation && t.run.op == entries[k].op ==>
                  && !SO.TouchesItself(t.run, t.call, entries[l].op.sender)
                  && ((|| f.owner == f.call.to || SO.TouchesItself(t.run, t.call, f.owner)
                       || SO.DelegatorsTouch(t.run, t.call)) ==>
                        !SO.Accesses(t.run, f, entries[l].op.sender, slot)))
  {
    hide RC.ParseOutcome, SO.OwnedFrames, Created, SortByCost, SO.NamesOwners, SO.DelegatorsTouch, SO.TouchesItself;
    BundleIsolation(c, q, w, env, k, l);
    PickedSendersDiffer(c, q, w, env, k, l);
    var entries := SortByCost(w.pool.entries);
    if !entries[k].skipValidation && t.run.op == entries[k].op {
      UnnamedNotAccessed(t, f, entries[l].op.sender, slot);
    }
  }

  lemma PickedSendersDiffer(c: Config, q: Limits, w: World, env: nat -> Await, k: nat, l: nat)
    requires R.ValidConfig(c.rep) && Created(c, q, w, env).Built?
    requires k in Created(c, q, w, env).packing.picked && l in Created(c, q, w, env).packing.picked && k != l
    ensures var entries := SortByCost(w.pool.entries);
            k < |entries| && l < |entries| && entries[k].op.sender != entries[l].op.sender
  {
    hide Created, SortByCost, VerdictAt, Cost;
    var picked := Created(c, q, w, env).packing.picked;
    var x :| 0 <= x < |picked| && picked[x] == k;
    var y :| 0 <= y < |picked| && picked[y] == l;
    BundleIsSelection(c, q, w, env, x);
    BundleIsSelection(c, q, w, env, y);
  }

  /** What the storage map does not name, no frame accesses by its own code, nor by delegation if delegators touch. */
  lemma UnnamedNotAccessed(t: Trace, f: SO.OwnedFrame, a: Address, slot: Word)
    requires RC.ParseOutcome(t.run, true, t.call).Returned? && f in FramesOf(t)
    requires a !in Found(t) && a != t.run.op.sender
    ensures !SO.TouchesItself(t.run, t.call, a)
    ensures (f.owner == f.call.to || SO.TouchesItself(t.run, t.call, f.owner) || SO.DelegatorsTouch(t.run, t.call)) ==>
              !SO.Accesses(t.run, f, a, slot)
  {
    hide RC.ParseOutcome, SO.OwnedFrames;
    SO.OwnersNamedIff(t.run, true, t.call);
    SO.NamedIffTouched(t.run, true, t.call, a);
    SO.OwnedFramesVisited(t.run, t.call, t.call.to);
  }

  // ---- The condition cannot be dropped ----

  /** The operation's own tuples do not contradict each other; a single tuple never does. */
  predicate TuplesConsistent(c: Config, op: UserOperation) {
    forall t, u | t in op.authorizations && u in op.authorizations && c.signerOf(t) == c.signerOf(u) ::
      t.delegate == u.delegate
  }

  function PlainOp(sender: Address, priorityFee: nat): UserOperation {
    UserOperation(sender, 0, 0, None, None, [], 0, 0, 0, priorityFee, priorityFee, None, None, None, None, [], [])
  }

  /** The traced operation, and one sent by another contract. */
  function PairWorld(op: UserOperation, other: Address): World {
    var second := PlainOp(other, op.maxPriorityFeePerGas);
    World(Pool([MempoolEntry(op, [0], 0, [], false, None), MempoolEntry(second, [1], 0, [], false, None)],
               CountsWith(CountsWith(map[], op), second)),
          map[])
  }

  /** Both validations pass at no cost; the first reports the given storage map. */
  function PairEnv(storage: StorageMap): nat -> Await {
    i => Await([], Valid(0, Some(0), if i == 0 then storage else map[]), [], 0, "")
  }

  const NO_LIMITS := Limits(0, 0, 0)

  /**
   * For every accepted trace that accesses, by delegation, the storage of a contract the storage map does not name,
   * there is a bundle with its operation and one sent by that contract.
   */
  lemma UnnamedOwnerIsBundled(c: Config, t: Trace, f: SO.OwnedFrame, slot: Word)
    requires R.ValidConfig(c.rep) && c.rep.blackList == {} && t.run.op.callGasLimit <= c.maxBundleGas
    requires TuplesConsistent(c, t.run.op) && RC.ParseOutcome(t.run, true, t.call).Returned?
    requires f in FramesOf(t) && SO.Accesses(t.run, f, f.owner, slot)
    requires f.owner != t.run.op.sender && f.owner !in Found(t)
    ensures var w, env := PairWorld(t.run.op, f.owner), PairEnv(Found(t));
            var entries, attempt := SortByCost(w.pool.entries), Created(c, NO_LIMITS, w, env);
            && attempt.Built? && 0 in attempt.packing.picked && 1 in attempt.packing.picked
            && |entries| == 2 && entries[0].op == t.run.op && !entries[0].skipValidation
            && ValidatedBy(env(0).verdict, t)
            && SO.Accesses(t.run, f, entries[1].op.sender, slot)
  {
    hide RC.ParseOutcome, SO.OwnedFrames, Created;
    var w, env := PairWorld(t.run.op, f.owner), PairEnv(Found(t));
    PairSorted(t.run.op, f.owner);
    PairCalm(c, t.run.op, f.owner, Found(t));
    CalmBundleServesEverySender(c, NO_LIMITS, w, env, 0);
    CalmBundleServesEverySender(c, NO_LIMITS, w, env, 1);
  }

  lemma PairSorted(op: UserOperation, other: Address)
    ensures var entries := PairWorld(op, other).pool.entries;
            && SortByCost(entries) == entries
            && FirstOfSender(entries, 0) && (op.sender != other ==> FirstOfSender(entries, 1))
  {
    var entries := PairWorld(op, other).pool.entries;
    assert entries[1..] == [entries[1]] && [entries[1]][1..] == [];
    assert SortByCost([entries[1]]) == [entries[1]];
    assert InsertByCost(entries[0], [entries[1]]) == [entries[0]] + [entries[1]];
  }

  lemma PairCalm(c: Config, op: UserOperation, other: Address, storage: StorageMap)
    requires R.ValidConfig(c.rep) && c.rep.blackList == {} && op.callGasLimit <= c.maxBundleGas
         && TuplesConsistent(c, op)
    requires other !in storage
    ensures Calm(SettingOf(c, NO_LIMITS, PairWorld(op, other), PairEnv(storage)), PairWorld(op, other))
  {
    var w := PairWorld(op, other);
    var s := SettingOf(c, NO_LIMITS, w, PairEnv(storage));
    PairSorted(op, other);
    assert s.known == {op.sender, other} by {
      assert forall e <- w.pool.entries :: e == w.pool.entries[0] || e == w.pool.entries[1];
      assert w.pool.entries[0] in w.pool.entries && w.pool.entries[1] in w.pool.entries;
    }
    forall k: nat | k < |s.entries|
      ensures Healthy(s, w, k)
    {
    }
    assert s.entries[1].op.authorizations == [];
    assert forall t :: HasTuple(s, t) ==> t in op.authorizations;
    forall pm: Address
      ensures PrefundUpTo(s, |s.entries|, pm) == 0
    {
      assert PrefundUpTo(s, 1, pm) == 0;
    }
    assert GasUpTo(s, 1) == op.callGasLimit;
  }

  /** Such traces exist: a call to a clone whose implementation uses a slot associated with the account. */
  lemma CloneIsBundled(c: Config, run: RC.Run, clone: Address, implementation: Address)
    requires R.ValidConfig(c.rep) && c.rep.blackList == {} && SO.CloneParties(run, clone, implementation)
    requires TuplesConsistent(c, run.op) && run.op.callGasLimit <= c.maxBundleGas && clone != run.op.sender
    ensures var t := Trace(run, SO.CloneTrace(run, clone, implementation));
            var slot := FromBytes(run.op.sender);
            && RC.ParseOutcome(run, true, t.call).Returned? && !SO.DelegatorsTouch(run, t.call)
            && (var w, env := PairWorld(run.op, clone), PairEnv(Found(t));
                var entries, attempt := SortByCost(w.pool.entries), Created(c, NO_LIMITS, w, env);
                && attempt.Built? && 0 in attempt.packing.picked && 1 in attempt.packing.picked
                && |entries| == 2 && ValidatedBy(env(0).verdict, t)
                && exists f <- FramesOf(t) :: SO.Accesses(run, f, entries[1].op.sender, slot))
  {
    hide RC.ParseOutcome, SO.OwnedFrames, Created, SortByCost, PairWorld, PairEnv;
    SO.CloneStaysInTheDark(run, clone, implementation);
    var t := Trace(run, SO.CloneTrace(run, clone, implementation));
    var f := SO.OwnedFrame(SO.DelegatedAccess(run.op.sender, clone, implementation), clone);
    SO.OwnersNamedIff(run, true, t.call);
    UnnamedOwnerIsBundled(c, t, f, FromBytes(run.op.sender));
  }
}
