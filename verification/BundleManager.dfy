/** The object that packs bundles and deals with their failures, acting on the shared managers. */
module BundleManagement {
  import opened Basics
  import opened UserOperations
  import opened StorageMaps
  import opened Mempool
  import opened WorldEvents
  import opened Bundling
  import R = Reputation

  /** The list of EIP-7702 tuples of a bundle, shared by reference while it is packed. */
  class AuthorizationList {
    var items: seq<Authorization>

    constructor ()
      ensures items == []
    {
      items := [];
    }

    method Push(t: Authorization)
      modifies this
      ensures items == old(items) + [t]
    {
      items := items + [t];
    }
  }

  /** What happens to an entry before its second validation. */
  datatype Screening = Proceed | Skip | Leave

  class BundleManager {
    const mempoolManager: MempoolManager
    const reputationManager: R.ReputationManager
    const config: Config

    ghost predicate Valid() {
      && mempoolManager.reputationManager == reputationManager
      && config.rep == reputationManager.config && R.ValidConfig(config.rep)
    }

    constructor (mempoolManager: MempoolManager, config: Config)
      requires mempoolManager.reputationManager.config == config.rep && R.ValidConfig(config.rep)
      ensures Valid() && this.mempoolManager == mempoolManager && this.config == config
    {
      this.mempoolManager := mempoolManager;
      this.reputationManager := mempoolManager.reputationManager;
      this.config := config;
    }

    function CurrentWorld(): World
      reads mempoolManager`mempool, mempoolManager`entryCounts, mempoolManager.reputationManager`entries
    {
      mempoolManager.CurrentWorld()
    }

    /** The catch branch of sending a bundle, for a FailedOp naming one of its operations. */
    method HandleFailedHandleOps(op: UserOperation, reason: Reason, accountStaked: bool, factoryStaked: bool)
      requires Valid()
      modifies mempoolManager`mempool, mempoolManager`entryCounts, reputationManager`entries
      ensures CurrentWorld() == Steps(config.rep, old(CurrentWorld()),
                FailedHandleOpsEvents(op, EntityToBlame(op, reason, accountStaked, factoryStaked)))
    {
      hide EntityToBlame, WithoutBanned, Removed, R.AfterSeen, R.AfterCrash;
      var addr := EntityToBlame(op, reason, accountStaked, factoryStaked);
      ghost var w0 := CurrentWorld();
      if addr.Some? {
        reputationManager.UpdateSeenStatus(Some(op.sender), -1);
        ghost var w1 := CurrentWorld();
        reputationManager.UpdateSeenStatus(op.paymaster, -1);
        ghost var w2 := CurrentWorld();
        reputationManager.UpdateSeenStatus(op.factory, -1);
        ghost var w3 := CurrentWorld();
        mempoolManager.RemoveBannedAddr(addr.value);
        ghost var w4 := CurrentWorld();
        reputationManager.CrashedHandleOps(addr);
        FiveSteps(config.rep, w0, w1, w2, w3, w4, CurrentWorld(), Seen(Some(op.sender), -1), Seen(op.paymaster, -1),
                  Seen(op.factory, -1), RemoveBanned(addr.value), Crash(addr));
      }
      ghost var w5 := CurrentWorld();
      mempoolManager.RemoveUserOp(RefOf(op));
      LastStep(config.rep, w0, w5, CurrentWorld(),
               if addr.None? then [] else
               [Seen(Some(op.sender), -1), Seen(op.paymaster, -1), Seen(op.factory, -1), RemoveBanned(addr.value),
                Crash(addr)],
               Remove(RefOf(op)));
    }

    /** The catch branch of the second validation; answers whether the error is fatal and propagates. */
    method HandleSecondValidationException(op: UserOperation, verdict: Verdict) returns (fatal: bool)
      requires Valid() && !verdict.Valid?
      modifies mempoolManager`mempool, mempoolManager`entryCounts, reputationManager`entries
      ensures match verdict
              case Unparsed(f) =>
                && fatal == f
                && CurrentWorld() == Steps(config.rep, old(CurrentWorld()), if f then [] else [Remove(RefOf(op))])
              case FailedOp(reason, accountStaked, factoryStaked) =>
                !fatal && CurrentWorld() == Steps(config.rep, old(CurrentWorld()),
                  SecondFailureEvents(op, EntityToBlame(op, reason, accountStaked, factoryStaked)))
              case _ => true
    {
      ghost var w0 := CurrentWorld();
      fatal := false;
      match verdict
      case Unparsed(f) =>
        if f {
          return true;
        }
        mempoolManager.RemoveUserOp(RefOf(op));
        LastStep(config.rep, w0, w0, CurrentWorld(), [], Remove(RefOf(op)));
        assert [] + [Remove(RefOf(op))] == [Remove(RefOf(op))];
      case FailedOp(reason, accountStaked, factoryStaked) =>
        var addr := EntityToBlame(op, reason, accountStaked, factoryStaked);
        reputationManager.UpdateSeenStatus(Some(op.sender), -1);
        ghost var w1 := CurrentWorld();
        reputationManager.UpdateSeenStatus(op.paymaster, -1);
        ghost var w2 := CurrentWorld();
        reputationManager.UpdateSeenStatus(op.factory, -1);
        ghost var w3 := CurrentWorld();
        reputationManager.UpdateSeenStatus(addr, 1);
        ghost var w4 := CurrentWorld();
        mempoolManager.RemoveUserOp(RefOf(op));
        FiveSteps(config.rep, w0, w1, w2, w3, w4, CurrentWorld(), Seen(Some(op.sender), -1), Seen(op.paymaster, -1),
                  Seen(op.factory, -1), Seen(addr, 1), Remove(RefOf(op)));
    }

    /** Adds the tuples of the operation to the shared list; what was pushed before a conflict stays. */
    method MergeEip7702Authorizations(op: UserOperation, authList: AuthorizationList) returns (ok: bool)
      modifies authList
      ensures (ok, authList.items) == MergedAuthorizations(config.signerOf, op.authorizations, old(authList.items))
    {
      for i := 0 to |op.authorizations|
        invariant MergedAuthorizations(config.signerOf, op.authorizations[i..], authList.items)
               == MergedAuthorizations(config.signerOf, op.authorizations, old(authList.items))
      {
        ghost var rest := op.authorizations[i..];
        assert rest[0] == op.authorizations[i] && rest[1..] == op.authorizations[i + 1..];
        var t := op.authorizations[i];
        var existing := FindSigner(config.signerOf, authList.items, config.signerOf(t));
        if existing.None? {
          authList.Push(t);
        } else if authList.items[existing.value].delegate != t.delegate {
          return false;
        }
      }
      return true;
    }

    /** The checks of an entry that need no waiting. */
    method Screen(q: Limits, size: nat, entry: MempoolEntry, senders: set<Address>,
                  ghost known: set<Address>, ghost i: nat, ghost aw: Await, ghost p: Packing)
      returns (r: Screening, ghost evs: seq<Event>)
      requires Valid() && p.senders == senders
      modifies mempoolManager`mempool, mempoolManager`entryCounts
      ensures CurrentWorld() == Steps(config.rep, old(CurrentWorld()), evs) && (r == Proceed ==> evs == [])
      ensures Consider(config, q, known, size, entry, i, aw, p, old(CurrentWorld())) ==
                match r
                case Leave => Stop(evs)
                case Skip => Next(p, evs)
                case Proceed => Revalidated(config, q, known, entry, i, aw, p)
    {
      evs := [];
      var op := entry.op;
      if q.maxBundleSize != 0 && size >= q.maxBundleSize {
        return Leave, [];
      }
      if q.minBaseFee != 0 && op.maxFeePerGas < q.minBaseFee {
        return Skip, evs;
      }
      var paymasterStatus := reputationManager.GetStatus(op.paymaster);
      var factoryStatus := reputationManager.GetStatus(op.factory);
      if paymasterStatus == R.BANNED || factoryStatus == R.BANNED {
        ghost var w := CurrentWorld();
        mempoolManager.RemoveUserOp(RefOf(op));
        LastStep(config.rep, w, w, CurrentWorld(), [], Remove(RefOf(op)));
        evs := [] + [Remove(RefOf(op))];
        return Skip, evs;
      }
      if op.paymaster.Some? && paymasterStatus == R.THROTTLED {
        return Skip, evs;
      }
      if op.factory.Some? && factoryStatus == R.THROTTLED {
        return Skip, evs;
      }
      if op.sender in senders {
        return Skip, evs;
      }
      return Proceed, [];
    }

    /**
     * Packs a bundle from the sorted snapshot of the mempool. The shared state may change at every wait; env says
     * how, and what each wait answers.
     */
    method CreateBundle(q: Limits, env: nat -> Await)
      returns (ok: bool, bundle: seq<UserOperation>, authList: AuthorizationList, storageMap: StorageTable)
      requires Valid()
      modifies mempoolManager`mempool, mempoolManager`entryCounts, reputationManager`entries
      ensures var w0 := old(CurrentWorld());
              match Created(config, q, w0, env)
              case Built(p, events) =>
                && ok && bundle == OpsAt(SortByCost(w0.pool.entries), p.picked)
                && authList.items == p.auths && storageMap.Contents == p.storage
                && CurrentWorld() == Steps(config.rep, w0, events)
              case Threw(events) => !ok && CurrentWorld() == Steps(config.rep, w0, events)
    {
      hide Consider, PackFrom, Created, SortByCost, Senders, OpsAt;
      ghost var w0 := CurrentWorld();
      ghost var goal := Created(config, q, w0, env);
      var entries := mempoolManager.GetSortedForInclusion();
      var knownSenders := mempoolManager.GetKnownSenders();
      ok, bundle := true, [];
      authList := new AuthorizationList();
      storageMap := new StorageTable();
      var senders: set<Address>, deposits: map<Address, nat>, totalGas: nat := {}, map[], 0;
      ghost var p, w, events := EMPTY_PACKING, w0, [];
      FirstTurn(config, q, w0, env);
      OpsAtNone(entries);
      for i := 0 to |entries|
        invariant fresh(authList) && fresh(storageMap) && fresh(storageMap.Tables) && storageMap.Valid()
        invariant p == Packing(p.picked, authList.items, deposits, senders, storageMap.Contents, totalGas)
        invariant bundle == OpsAt(entries, p.picked)
        invariant w == CurrentWorld() && w == Steps(config.rep, w0, events)
        invariant goal == Preceded(events, PackFrom(config, q, knownSenders, entries, env, i, p, w))
      {
        var entry, aw := entries[i], env(i);
        ghost var turn := TakeTurn(config, q, knownSenders, entries, env, i, p, w0, w, events, goal);
        var taking;
        ghost var evs;
        taking, deposits, evs :=
          ConsiderEntry(q, knownSenders, |entries|, entry, i, aw, p, senders, deposits, totalGas, storageMap, authList);
        assert turn.events == evs;
        w, events := CurrentWorld(), events + evs;
        if taking.Broken? {
          ok := false;
          return;
        }
        if taking.Full? {
          return;
        }
        if taking.Joined? {
          senders := senders + {entry.op.sender};
          bundle := bundle + [entry.op];
          totalGas := totalGas + taking.gas;
          OpsAtNext(entries, p.picked, i);
        }
        p := turn.packing;
      }
      LastTurn(config, q, knownSenders, entries, env, p, w, events);
    }

    /** One turn of the loop, including what happens while it waits; everything but joining is done here. */
    method ConsiderEntry(q: Limits, known: set<Address>, size: nat, entry: MempoolEntry, i: nat, aw: Await,
                         ghost p: Packing,
                         senders: set<Address>, deposits: map<Address, nat>, totalGas: nat,
                         storageMap: StorageTable, authList: AuthorizationList)
      returns (r: Taking, deposits': map<Address, nat>, ghost evs: seq<Event>)
      requires Valid() && storageMap.Valid()
      requires p.senders == senders && p.deposits == deposits && p.totalGas == totalGas
      requires p.storage == storageMap.Contents && p.auths == authList.items
      modifies mempoolManager`mempool, mempoolManager`entryCounts, reputationManager`entries
      modifies storageMap, storageMap.Tables, authList
      ensures storageMap.Valid() && fresh(storageMap.Tables - old(storageMap.Tables))
      ensures CurrentWorld() == Steps(config.rep, old(CurrentWorld()), evs)
      ensures Consider(config, q, known, size, entry, i, aw, p, old(CurrentWorld()))
           == TurnOf(r, entry.op, i,
                     p.(deposits := deposits', storage := storageMap.Contents, auths := authList.items), evs)
      ensures r.Full? ==> deposits' == deposits && storageMap.Contents == p.storage && authList.items == p.auths
    {
      var screening;
      screening, evs := Screen(q, size, entry, senders, known, i, aw, p);
      deposits' := deposits;
      match screening
      case Leave => r := Full;
      case Skip => r := Dropped;
      case Proceed =>
        r, deposits', evs := Reconsider(q, known, entry, i, aw, p, deposits, totalGas, storageMap, authList);
    }

    /** The turn an entry's fate amounts to, given the packing apart from joining. */
    static function TurnOf(r: Taking, op: UserOperation, i: nat, p: Packing, evs: seq<Event>): Turn {
      match r
      case Full => Stop(evs)
      case Broken => Raise(evs)
      case Joined(gas) =>
        Next(p.(picked := p.picked + [i], senders := p.senders + {op.sender}, totalGas := p.totalGas + gas), evs)
      case _ => Next(p, evs)
    }

    /** A turn from the second validation on. */
    method Reconsider(q: Limits, known: set<Address>, entry: MempoolEntry, i: nat, aw: Await, ghost p: Packing,
                      deposits: map<Address, nat>, totalGas: nat, storageMap: StorageTable, authList: AuthorizationList)
      returns (r: Taking, deposits': map<Address, nat>, ghost evs: seq<Event>)
      requires Valid() && storageMap.Valid()
      requires p.deposits == deposits && p.totalGas == totalGas
      requires p.storage == storageMap.Contents && p.auths == authList.items
      modifies mempoolManager`mempool, mempoolManager`entryCounts, reputationManager`entries
      modifies storageMap, storageMap.Tables, authList
      ensures storageMap.Valid() && fresh(storageMap.Tables - old(storageMap.Tables))
      ensures CurrentWorld() == Steps(config.rep, old(CurrentWorld()), evs)
      ensures Revalidated(config, q, known, entry, i, aw, p)
           == TurnOf(r, entry.op, i,
                     p.(deposits := deposits', storage := storageMap.Contents, auths := authList.items), evs)
      ensures r.Full? ==> deposits' == deposits
      ensures r.Full? ==> storageMap.Contents == old(storageMap.Contents) && authList.items == old(authList.items)
    {
      hide Pack, Steps;
      ghost var w0 := CurrentWorld();
      var v, fatal;
      v, fatal, evs := Revalidate(entry, aw);
      if !v.Valid? {
        return if fatal then Broken else Dropped, deposits, evs;
      }
      r, deposits' := TakeIn(q, known, entry.op, i, aw, v, p, evs, deposits, totalGas, storageMap, authList);
      if r.Broken? || r.Dropped? || r.Joined? {
        PerformAll(mempoolManager, aw.settling);
        StepsConcat(config.rep, w0, evs, aw.settling);
        evs := evs + aw.settling;
      } else {
        assert evs + [] == evs;
      }
    }

    /** The second validation of an entry, with what happens meanwhile; debug entries skip it. */
    method Revalidate(entry: MempoolEntry, aw: Await) returns (v: Verdict, fatal: bool, ghost evs: seq<Event>)
      requires Valid()
      modifies mempoolManager`mempool, mempoolManager`entryCounts, reputationManager`entries
      ensures CurrentWorld() == Steps(config.rep, old(CurrentWorld()), evs)
      ensures if entry.skipValidation then v == EMPTY_RESULT && !fatal && evs == []
              else
                && v == aw.verdict
                && fatal == (v.Unparsed? && v.fatal)
                && evs == match v
                          case Valid(_, _, _) => aw.validating
                          case Unparsed(f) => if f then aw.validating else aw.validating + [Remove(RefOf(entry.op))]
                          case FailedOp(reason, accountStaked, factoryStaked) =>
                            aw.validating + SecondFailureEvents(entry.op,
                                                EntityToBlame(entry.op, reason, accountStaked, factoryStaked))
    {
      ghost var w0 := CurrentWorld();
      fatal := false;
      if entry.skipValidation {
        return EMPTY_RESULT, false, [];
      }
      PerformAll(mempoolManager, aw.validating);
      v, evs := aw.verdict, aw.validating;
      if !v.Valid? {
        fatal := HandleSecondValidationException(entry.op, v);
        ghost var handled :=
          match v
          case Unparsed(f) => if f then [] else [Remove(RefOf(entry.op))]
          case FailedOp(reason, accountStaked, factoryStaked) =>
            SecondFailureEvents(entry.op, EntityToBlame(entry.op, reason, accountStaked, factoryStaked))
          case _ => [];
        StepsConcat(config.rep, w0, aw.validating, handled);
        evs := if fatal then aw.validating else aw.validating + handled;
        assert aw.validating + [] == aw.validating;
      }
    }

    /**
     * From a passed validation to the bundle. Answers Leave when a gas limit is reached, Broken when the prefund is
     * missing, Foreign for an access to another sender's storage, and otherwise whether the operation joined.
     */
    method TakeIn(q: Limits, known: set<Address>, op: UserOperation, i: nat, aw: Await, v: Verdict, ghost p: Packing,
                  ghost events: seq<Event>, deposits: map<Address, nat>, totalGas: nat,
                  storageMap: StorageTable, authList: AuthorizationList)
      returns (r: Taking, deposits': map<Address, nat>)
      requires v.Valid? && storageMap.Valid()
      requires p.deposits == deposits && p.totalGas == totalGas
      requires p.storage == storageMap.Contents && p.auths == authList.items
      modifies storageMap, storageMap.Tables, authList
      ensures storageMap.Valid() && fresh(storageMap.Tables - old(storageMap.Tables))
      ensures Pack(config, q, known, op, i, aw, p, v, events)
           == TurnOf(r, op, i, p.(deposits := deposits', storage := storageMap.Contents, auths := authList.items),
                     events + (if r.Foreign? || r.Full? then [] else aw.settling))
      ensures r == Full ==> deposits' == deposits
      ensures r == Full ==> storageMap.Contents == old(storageMap.Contents) && authList.items == old(authList.items)
    {
      hide Merged, MergedAuthorizations;
      assert events + [] == events;
      deposits' := deposits;
      if exists a <- v.storageMap.Keys :: a != op.sender && a in known {
        return Foreign, deposits';
      }
      var newTotalGas := totalGas + v.preOpGas + op.callGasLimit;
      if newTotalGas > config.maxBundleGas {
        return Full, deposits';
      }
      if q.maxBundleGas != 0 && newTotalGas >= q.maxBundleGas {
        return Full, deposits';
      }
      var charging;
      charging, deposits' := Charge(op, aw, v, deposits);
      match charging {
        case Unpriced => return Broken, deposits';
        case TooPoor => return Dropped, deposits';
        case Paid =>
      }
      var mergeOk := MergeResult(op, aw, v, storageMap, authList);
      r := if mergeOk then Joined(v.preOpGas + op.callGasLimit) else Dropped;
    }

    /** Takes the prefund from what is left of the paymaster's balance, which is fetched at its first use. */
    method Charge(op: UserOperation, aw: Await, v: Verdict, deposits: map<Address, nat>)
      returns (r: Charging, deposits': map<Address, nat>)
      requires v.Valid?
      ensures !Chargeable(op.paymaster) ==> r == Paid && deposits' == deposits
      ensures Chargeable(op.paymaster) ==>
                var pm := op.paymaster.value;
                var deposit := if pm in deposits then deposits[pm] else aw.balance;
                if v.prefund.None? then r == Unpriced
                else if deposit < v.prefund.value then r == TooPoor && deposits' == deposits[pm := deposit]
                else r == Paid && deposits' == deposits[pm := deposit - v.prefund.value]
    {
      deposits' := deposits;
      if op.paymaster.Some? && IsAddress(op.paymaster.value) && op.paymaster.value != ADDRESS_ZERO {
        var paymaster := op.paymaster.value;
        if paymaster !in deposits' {
          deposits' := deposits'[paymaster := aw.balance];
        }
        if v.prefund.None? {
          return Unpriced, deposits';
        }
        if deposits'[paymaster] < v.prefund.value {
          return TooPoor, deposits';
        }
        deposits' := deposits'[paymaster := deposits'[paymaster] - v.prefund.value];
      }
      r := Paid;
    }

    /** The storage of the operation goes in first, then its authorizations. */
    method MergeResult(op: UserOperation, aw: Await, v: Verdict, storageMap: StorageTable, authList: AuthorizationList)
      returns (ok: bool)
      requires v.Valid? && storageMap.Valid()
      modifies storageMap, storageMap.Tables, authList
      ensures storageMap.Valid() && fresh(storageMap.Tables - old(storageMap.Tables))
      ensures (ok, authList.items) == MergedAuthorizations(config.signerOf, op.authorizations, old(authList.items))
      ensures var storage := if config.mergeToAccountRootHash && config.conditionalRpc && op.factory.None?
                             then old(storageMap.Contents)[op.sender := Root(aw.accountRoot)]
                             else old(storageMap.Contents);
              storageMap.Contents == Merged(storage, v.storageMap)
    {
      var validated := new StorageTable.Holding(v.storageMap);
      if config.mergeToAccountRootHash && config.conditionalRpc && op.factory.None? {
        storageMap.SetRoot(op.sender, aw.accountRoot);
      }
      MergeStorageMap(storageMap, validated);
      ok := MergeEip7702Authorizations(op, authList);
    }
  }

  datatype Charging = Unpriced | TooPoor | Paid

  /** What becomes of an entry: refused before or after waiting, out of gas, an error, or joined with its gas. */
  datatype Taking = Foreign | Full | Broken | Dropped | Joined(gas: nat)

  lemma LastStep(c: R.Config, w0: World, w1: World, w2: World, evs: seq<Event>, e: Event)
    requires R.ValidConfig(c) && w1 == Steps(c, w0, evs) && w2 == Step(c, w1, e)
    ensures w2 == Steps(c, w0, evs + [e])
  {
    StepsConcat(c, w0, evs, [e]);
    assert Steps(c, w1, [e]) == Steps(c, w2, [e][1..]);
  }

  lemma FiveSteps(c: R.Config, w0: World, w1: World, w2: World, w3: World, w4: World, w5: World,
                  a: Event, b: Event, d: Event, e: Event, f: Event)
    requires R.ValidConfig(c)
    requires w1 == Step(c, w0, a) && w2 == Step(c, w1, b) && w3 == Step(c, w2, d) && w4 == Step(c, w3, e)
         && w5 == Step(c, w4, f)
    ensures w5 == Steps(c, w0, [a, b, d, e, f])
  {
    assert [] + [a] == [a] && [a] + [b] == [a, b] && [a, b] + [d] == [a, b, d];
    assert [a, b, d] + [e] == [a, b, d, e] && [a, b, d, e] + [f] == [a, b, d, e, f];
    LastStep(c, w0, w0, w1, [], a);
    LastStep(c, w0, w1, w2, [a], b);
    LastStep(c, w0, w2, w3, [a, b], d);
    LastStep(c, w0, w3, w4, [a, b, d], e);
    LastStep(c, w0, w4, w5, [a, b, d, e], f);
  }
}
