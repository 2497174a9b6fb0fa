/** Everything that may happen to the shared state while the bundler waits, one event at a time. */
module WorldEvents {
  import opened Basics
  import opened UserOperations
  import opened Mempool
  import R = Reputation

  datatype Event =
    | Submit(skip: bool, op: UserOperation, hash: Hash, info: ValidationInfo)
    | Remove(ref: OpRef)
    | RemoveBanned(addr: Address)
    | Seen(who: Option<Address>, val: int)
    | Included(addr: Address)
    | Crash(who: Option<Address>)
    | Cron

  /** A refused submission leaves the state as it was. */
  function Step(c: R.Config, w: World, e: Event): World
    requires R.ValidConfig(c)
  {
    match e
    case Submit(skip, op, hash, info) =>
      (match Submitted(c, w, skip, op, hash, info)
       case Ok(w') => w'
       case Err(_) => w)
    case Remove(q) => w.(pool := Removed(w.pool, q))
    case RemoveBanned(a) => w.(pool := WithoutBanned(w.pool, a))
    case Seen(a, val) => w.(rep := R.AfterSeen(w.rep, a, val))
    case Included(a) => w.(rep := R.AfterIncluded(w.rep, a))
    case Crash(a) => w.(rep := R.AfterCrash(w.rep, a))
    case Cron => w.(rep := R.AfterCron(w.rep))
  }

  function Steps(c: R.Config, w: World, evs: seq<Event>): World
    requires R.ValidConfig(c)
    decreases evs
  {
    if evs == [] then w else Steps(c, Step(c, w, evs[0]), evs[1..])
  }

  lemma {:induction false} StepsConcat(c: R.Config, w: World, xs: seq<Event>, ys: seq<Event>)
    requires R.ValidConfig(c)
    ensures Steps(c, w, xs + ys) == Steps(c, Steps(c, w, xs), ys)
    decreases xs
  {
    if xs == [] {
      assert xs + ys == ys;
    } else {
      assert (xs + ys)[1..] == xs[1..] + ys;
      StepsConcat(c, Step(c, w, xs[0]), xs[1..], ys);
    }
  }

  const EMPTY_WORLD := World(Pool([], map[]), map[])

  /** Carries out one event through the methods of the two managers. */
  method Perform(mempoolManager: MempoolManager, e: Event)
    requires mempoolManager.Valid()
    modifies mempoolManager`mempool, mempoolManager`entryCounts, mempoolManager.reputationManager`entries
    ensures mempoolManager.CurrentWorld()
         == Step(mempoolManager.reputationManager.config, old(mempoolManager.CurrentWorld()), e)
  {
    var reputationManager := mempoolManager.reputationManager;
    match e
    case Submit(skip, op, hash, info) =>
      var _ := mempoolManager.AddUserOp(skip, op, hash, info);
    case Remove(q) => mempoolManager.RemoveUserOp(q);
    case RemoveBanned(a) => mempoolManager.RemoveBannedAddr(a);
    case Seen(a, val) => reputationManager.UpdateSeenStatus(a, val);
    case Included(a) => reputationManager.UpdateIncludedStatus(a);
    case Crash(a) => reputationManager.CrashedHandleOps(a);
    case Cron => reputationManager.HourlyCron();
  }

  method PerformAll(mempoolManager: MempoolManager, evs: seq<Event>)
    requires mempoolManager.Valid()
    modifies mempoolManager`mempool, mempoolManager`entryCounts, mempoolManager.reputationManager`entries
    ensures mempoolManager.CurrentWorld()
         == Steps(mempoolManager.reputationManager.config, old(mempoolManager.CurrentWorld()), evs)
  {
    ghost var c := mempoolManager.reputationManager.config;
    ghost var w0 := mempoolManager.CurrentWorld();
    for i := 0 to |evs|
      invariant Steps(c, mempoolManager.CurrentWorld(), evs[i..]) == Steps(c, w0, evs)
    {
      Perform(mempoolManager, evs[i]);
      assert evs[i..][1..] == evs[i + 1..];
    }
  }
}
