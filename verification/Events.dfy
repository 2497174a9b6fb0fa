/** Accounting of on-chain events: every EntryPoint log is turned once into removals and included counts. */
module ChainEvents {
  import opened Basics
  import opened UserOperations
  import opened Mempool
  import opened WorldEvents
  import R = Reputation

  const PAST_BLOCKS: nat := 1000

  /** The three logs that matter; any other log only moves the block cursor. */
  datatype Payload =
    | UserOperationEvent(userOpHash: Hash, sender: Bytes, paymaster: Bytes)
    | AccountDeployed(factory: Bytes)
    | SignatureAggregatorForUserOperations(aggregator: Bytes)
    | Other

  datatype Log = Log(block: nat, txHash: Bytes, payload: Payload)

  datatype QueryError = InvalidBlockRange | QueryFailed

  datatype Cursor = Cursor(lastBlock: Option<nat>, aggregator: Option<Bytes>, aggregatorTx: Option<Bytes>)

  const FRESH_CURSOR := Cursor(None, None, None)

  datatype State = State(world: World, cursor: Cursor)

  // ---- The meaning of each operation ----

  /** Data too short to be an address is not counted, longer data is cut. */
  function Countable(data: Bytes): Option<Address> {
    if |data| < ADDRESS_LENGTH then None else Some(data[..ADDRESS_LENGTH])
  }

  function WithIncluded(rep: R.Entries, data: Option<Bytes>): R.Entries {
    match (if data.None? then None else Countable(data.value))
    case None => rep
    case Some(a) => R.AfterIncluded(rep, a)
  }

  /** The aggregator is forgotten as soon as an operation of another transaction asks for it. */
  function CursorFor(cursor: Cursor, txHash: Bytes): Cursor {
    if cursor.aggregatorTx == Some(txHash) then cursor
    else cursor.(aggregator := None, aggregatorTx := Some(txHash))
  }

  function CursorAfter(cursor: Cursor, ev: Log): Cursor {
    (match ev.payload
     case UserOperationEvent(_, _, _) => CursorFor(cursor, ev.txHash)
     case SignatureAggregatorForUserOperations(a) => cursor.(aggregator := Some(a), aggregatorTx := Some(ev.txHash))
     case _ => cursor).(lastBlock := Some(ev.block + 1))
  }

  function WorldAfter(w: World, ev: Log, aggregator: Option<Bytes>): World {
    match ev.payload
    case UserOperationEvent(hash, sender, paymaster) =>
      World(Removed(w.pool, ByHash(hash)),
            WithIncluded(WithIncluded(WithIncluded(w.rep, Some(sender)), Some(paymaster)), aggregator))
    case AccountDeployed(factory) => w.(rep := WithIncluded(w.rep, Some(factory)))
    case _ => w
  }

  function Handled(s: State, ev: Log): State {
    State(WorldAfter(s.world, ev, CursorFor(s.cursor, ev.txHash).aggregator), CursorAfter(s.cursor, ev))
  }

  function HandledAll(s: State, evs: seq<Log>): State {
    if evs == [] then s else Handled(HandledAll(s, evs[..|evs| - 1]), evs[|evs| - 1])
  }

  function StartBlock(cursor: Cursor, height: nat): nat {
    match cursor.lastBlock
    case Some(n) => n
    case None => Max(1, height - PAST_BLOCKS)
  }

  function Polled(s: State, height: nat, answer: Result<seq<Log>, QueryError>): State {
    var started := s.(cursor := s.cursor.(lastBlock := Some(StartBlock(s.cursor, height))));
    match answer
    case Err(_) => started
    case Ok(evs) => HandledAll(started, evs)
  }

  // ---- The manager itself ----

  class EventsManager {
    const mempoolManager: MempoolManager
    const reputationManager: R.ReputationManager
    var lastBlock: Option<nat>
    var eventAggregator: Option<Bytes>
    var eventAggregatorTxHash: Option<Bytes>

    ghost predicate Valid() {
      mempoolManager.Valid() && mempoolManager.reputationManager == reputationManager
    }

    function CurrentCursor(): Cursor
      reads this`lastBlock, this`eventAggregator, this`eventAggregatorTxHash
    {
      Cursor(lastBlock, eventAggregator, eventAggregatorTxHash)
    }

    ghost function CurrentState(): State
      reads this, mempoolManager`mempool, mempoolManager`entryCounts, mempoolManager.reputationManager`entries
    {
      State(mempoolManager.CurrentWorld(), CurrentCursor())
    }

    constructor (mempoolManager: MempoolManager)
      requires mempoolManager.Valid()
      ensures Valid() && this.mempoolManager == mempoolManager
      ensures CurrentState() == State(mempoolManager.CurrentWorld(), FRESH_CURSOR)
    {
      this.mempoolManager, this.reputationManager := mempoolManager, mempoolManager.reputationManager;
      lastBlock, eventAggregator, eventAggregatorTxHash := None, None, None;
    }

    method GetEventAggregator(txHash: Bytes) returns (a: Option<Bytes>)
      modifies this`eventAggregator, this`eventAggregatorTxHash
      ensures CurrentCursor() == CursorFor(old(CurrentCursor()), txHash) && a == eventAggregator
    {
      if eventAggregatorTxHash != Some(txHash) {
        eventAggregator := None;
        eventAggregatorTxHash := Some(txHash);
      }
      a := eventAggregator;
    }

    method IncludedAddress(data: Option<Bytes>)
      modifies reputationManager`entries
      ensures reputationManager.entries == WithIncluded(old(reputationManager.entries), data)
    {
      if data.Some? && |data.value| >= ADDRESS_LENGTH {
        reputationManager.UpdateIncludedStatus(data.value[..ADDRESS_LENGTH]);
      }
    }

    method HandleEvent(ev: Log)
      requires Valid()
      modifies this, mempoolManager`mempool, mempoolManager`entryCounts, reputationManager`entries
      ensures CurrentState() == Handled(old(CurrentState()), ev)
    {
      match ev.payload {
        case UserOperationEvent(hash, sender, paymaster) =>
          mempoolManager.RemoveUserOp(ByHash(hash));
          IncludedAddress(Some(sender));
          IncludedAddress(Some(paymaster));
          var aggregator := GetEventAggregator(ev.txHash);
          IncludedAddress(aggregator);
        case AccountDeployed(factory) =>
          IncludedAddress(Some(factory));
        case SignatureAggregatorForUserOperations(aggregator) =>
          eventAggregator := Some(aggregator);
          eventAggregatorTxHash := Some(ev.txHash);
        case Other =>
      }
      lastBlock := Some(ev.block + 1);
    }

    /** The chain answers a query by its starting block; a range beyond its end is not an error. */
    method HandlePastEvents(height: nat, query: nat -> Result<seq<Log>, QueryError>) returns (r: Result<(), QueryError>)
      requires Valid()
      modifies this, mempoolManager`mempool, mempoolManager`entryCounts, reputationManager`entries
      ensures CurrentState() == Polled(old(CurrentState()), height, query(StartBlock(old(CurrentCursor()), height)))
      ensures r == match query(StartBlock(old(CurrentCursor()), height))
                   case Err(QueryFailed) => Err(QueryFailed)
                   case _ => Ok(())
    {
      if lastBlock.None? {
        lastBlock := Some(Max(1, height - PAST_BLOCKS));
      }
      ghost var started := CurrentState();
      var answer := query(lastBlock.value);
      match answer {
        case Err(e) =>
          return if e == InvalidBlockRange then Ok(()) else Err(e);
        case Ok(evs) =>
          for i := 0 to |evs|
            invariant CurrentState() == HandledAll(started, evs[..i])
          {
            HandleEvent(evs[i]);
            assert evs[..i + 1][..i] == evs[..i];
          }
          assert evs[..|evs|] == evs;
          return Ok(());
      }
    }
  }

  // ---- The chain ----

  datatype Chain = Chain(height: nat, logs: seq<Log>)

  /** Logs come in block order, none ahead of the given height. */
  predicate Ordered(logs: seq<Log>, height: nat) {
    logs == [] ||
    (var last := logs[|logs| - 1];
     1 <= last.block <= height && Ordered(logs[..|logs| - 1], last.block))
  }

  /** An append-only chain keeps its logs and adds new ones in new blocks. */
  ghost predicate Grows(old_: Chain, new_: Chain) {
    && Ordered(new_.logs, new_.height) && old_.height <= new_.height && old_.logs <= new_.logs
    && (forall i | |old_.logs| <= i < |new_.logs| :: old_.height < new_.logs[i].block)
  }

  /** The logs of the blocks from lo up to but excluding hi. */
  function Between(logs: seq<Log>, lo: nat, hi: nat): seq<Log> {
    if logs == [] then []
    else
      var last := logs[|logs| - 1];
      Between(logs[..|logs| - 1], lo, hi) + (if lo <= last.block < hi then [last] else [])
  }

  function Since(chain: Chain, lo: nat): seq<Log> {
    Between(chain.logs, lo, chain.height + 1)
  }

  // ---- Runs ----

  datatype Action =
    | Traffic(event: Event)
    | Grow(chain: Chain)
    | Poll(height: nat, failure: Option<QueryError>)

  /** The whole system, with the logs handled so far and the block the first poll started from. */
  datatype System = System(state: State, chain: Chain, handled: seq<Log>, start: Option<nat>)

  function Answer(chain: Chain, from: nat, failure: Option<QueryError>): Result<seq<Log>, QueryError> {
    match failure
    case None => Ok(Since(chain, from))
    case Some(e) => Err(e)
  }

  function Act(c: R.Config, s: System, a: Action): System
    requires R.ValidConfig(c)
  {
    match a
    case Traffic(e) => s.(state := s.state.(world := Step(c, s.state.world, e)))
    case Grow(chain) => s.(chain := chain)
    case Poll(height, failure) =>
      var from := StartBlock(s.state.cursor, height);
      var answer := Answer(s.chain, from, failure);
      System(Polled(s.state, height, answer), s.chain,
             s.handled + (if answer.Ok? then answer.value else []),
             if s.start.None? then Some(from) else s.start)
  }

  /**
   * The height a poll saw is not ahead of the chain it queries. Other traffic is anything but inclusions, crashes
   * and the cron, which change the included counts themselves.
   */
  ghost predicate Allowed(s: System, a: Action) {
    match a
    case Traffic(e) => !e.Included? && !e.Crash? && !e.Cron?
    case Grow(chain) => Grows(s.chain, chain)
    case Poll(height, _) => height <= s.chain.height
  }

  function Run(c: R.Config, s: System, actions: seq<Action>): System
    requires R.ValidConfig(c)
  {
    if actions == [] then s else Act(c, Run(c, s, actions[..|actions| - 1]), actions[|actions| - 1])
  }

  ghost predicate AllowedRun(c: R.Config, s: System, actions: seq<Action>)
    requires R.ValidConfig(c)
  {
    actions == [] ||
    (var before := actions[..|actions| - 1];
     AllowedRun(c, s, before) && Allowed(Run(c, s, before), actions[|actions| - 1]))
  }

  ghost predicate Initial(s: System) {
    s.state.cursor == FRESH_CURSOR && Ordered(s.chain.logs, s.chain.height) && s.handled == [] && s.start == None
  }

  // ---- Exactly once ----

  lemma {:induction false} BetweenAbove(logs: seq<Log>, height: nat, lo: nat, hi: nat)
    requires Ordered(logs, height) && height < lo
    ensures Between(logs, lo, hi) == []
  {
    if logs != [] {
      BetweenAbove(logs[..|logs| - 1], logs[|logs| - 1].block, lo, hi);
    }
  }

  lemma {:induction false} BetweenSplit(logs: seq<Log>, height: nat, lo: nat, mid: nat, hi: nat)
    requires Ordered(logs, height) && lo <= mid <= hi
    ensures Between(logs, lo, mid) + Between(logs, mid, hi) == Between(logs, lo, hi)
  {
    if logs != [] {
      var init, last := logs[..|logs| - 1], logs[|logs| - 1];
      BetweenSplit(init, last.block, lo, mid, hi);
      if last.block < mid {
        BetweenAbove(init, last.block, mid, hi);
      }
    }
  }

  lemma {:induction false} BetweenMembers(logs: seq<Log>, lo: nat, hi: nat)
    ensures forall ev <- Between(logs, lo, hi) :: ev in logs && lo <= ev.block < hi
  {
    if logs != [] {
      BetweenMembers(logs[..|logs| - 1], lo, hi);
    }
  }

  lemma BetweenNone(logs: seq<Log>, lo: nat)
    ensures Between(logs, lo, lo) == []
  {
    BetweenMembers(logs, lo, lo);
  }

  /** Blocks that the old chain had already reached hold the same logs in the new one. */
  lemma {:induction false} GrowthKeeps(old_: Chain, logs: seq<Log>, lo: nat, hi: nat)
    requires old_.logs <= logs && hi <= old_.height + 1
    requires forall i | |old_.logs| <= i < |logs| :: old_.height < logs[i].block
    ensures Between(logs, lo, hi) == Between(old_.logs, lo, hi)
  {
    if logs == old_.logs {
    } else {
      GrowthKeeps(old_, logs[..|logs| - 1], lo, hi);
    }
  }

  /** What has been handled is the part of the chain between the start block and the cursor. */
  ghost predicate InStep(s: System) {
    && Ordered(s.chain.logs, s.chain.height)
    && s.state.cursor.lastBlock.None? == s.start.None?
    && match s.start
       case None => s.handled == []
       case Some(start) =>
         var last := s.state.cursor.lastBlock.value;
         start <= last <= s.chain.height + 1 && s.handled == Between(s.chain.logs, start, last)
  }

  lemma {:induction false} HandledAllMoves(s: State, evs: seq<Log>)
    ensures evs == [] ==> HandledAll(s, evs) == s
    ensures evs != [] ==> HandledAll(s, evs).cursor.lastBlock == Some(evs[|evs| - 1].block + 1)
  {
  }

  /** Handling all logs since a block moves the cursor past the last of them and leaves none behind. */
  lemma SinceMovesCursor(chain: Chain, start: nat, from: nat)
    requires Ordered(chain.logs, chain.height) && start <= from <= chain.height + 1
    ensures var evs := Since(chain, from);
            var next := if evs == [] then from else evs[|evs| - 1].block + 1;
            && from <= next <= chain.height + 1
            && Between(chain.logs, start, from) + evs == Between(chain.logs, start, next)
            && Between(chain.logs, start, next) == Since(chain, start)
  {
    hide Between, Ordered;
    var evs := Since(chain, from);
    var next := if evs == [] then from else evs[|evs| - 1].block + 1;
    BetweenMembers(chain.logs, from, chain.height + 1);
    BetweenSplit(chain.logs, chain.height, start, from, chain.height + 1);
    NothingAfterLast(chain.logs, chain.height, from, chain.height + 1);
    BetweenSplit(chain.logs, chain.height, start, next, chain.height + 1);
  }

  lemma {:induction false} NothingAfterLast(logs: seq<Log>, height: nat, lo: nat, hi: nat)
    requires Ordered(logs, height)
    ensures var evs := Between(logs, lo, hi);
            evs != [] ==> Between(logs, evs[|evs| - 1].block + 1, hi) == []
  {
    if logs != [] {
      var init, last := logs[..|logs| - 1], logs[|logs| - 1];
      NothingAfterLast(init, last.block, lo, hi);
      BetweenAbove(init, last.block, last.block + 1, hi);
      if last.block < lo {
        BetweenAbove(init, last.block, lo, hi);
      }
    }
  }

  lemma PollStaysInStep(c: R.Config, s: System, height: nat, failure: Option<QueryError>)
    requires R.ValidConfig(c) && InStep(s) && height <= s.chain.height
    ensures InStep(Act(c, s, Poll(height, failure)))
    ensures failure.None? ==>
      var s' := Act(c, s, Poll(height, failure));
      s'.handled == Since(s.chain, s'.start.value)
  {
    hide Between, Ordered, HandledAll, Handled, Step, Submitted, ReplacementCheck;
    var from := StartBlock(s.state.cursor, height);
    var start := if s.start.None? then from else s.start.value;
    var started := s.state.(cursor := s.state.cursor.(lastBlock := Some(from)));
    BetweenNone(s.chain.logs, from);
    if failure.None? {
      SinceMovesCursor(s.chain, start, from);
      HandledAllMoves(started, Since(s.chain, from));
    }
  }

  lemma {:induction false} RunStaysInStep(c: R.Config, s: System, actions: seq<Action>)
    requires R.ValidConfig(c) && Initial(s) && AllowedRun(c, s, actions)
    ensures InStep(Run(c, s, actions))
  {
    if actions != [] {
      var before, a := actions[..|actions| - 1], actions[|actions| - 1];
      RunStaysInStep(c, s, before);
      var s1 := Run(c, s, before);
      match a
      case Traffic(_) =>
      case Grow(chain) =>
        if s1.start.Some? {
          GrowthKeeps(s1.chain, chain.logs, s1.start.value, s1.state.cursor.lastBlock.value);
        }
      case Poll(height, failure) =>
        PollStaysInStep(c, s1, height, failure);
    }
  }

  /**
   * Whatever happens between them, and however often queries fail, the polls handle each log from the start block
   * on exactly once and in order; after a successful poll none is left.
   */
  lemma ExactlyOnce(c: R.Config, s: System, actions: seq<Action>, height: nat)
    requires R.ValidConfig(c) && Initial(s)
    requires AllowedRun(c, s, actions) && height <= Run(c, s, actions).chain.height
    ensures var s' := Act(c, Run(c, s, actions), Poll(height, None));
            s'.start.Some? && s'.handled == Since(s'.chain, s'.start.value)
  {
    RunStaysInStep(c, s, actions);
    PollStaysInStep(c, Run(c, s, actions), height, None);
  }

  // ---- What a handled log credits ----

  /** The aggregator announced last in transaction t, where the logs end inside or before t. */
  function AnnouncedIn(logs: seq<Log>, t: Bytes): Option<Bytes> {
    if logs == [] then None
    else
      var last := logs[|logs| - 1];
      if last.txHash != t then None
      else if last.payload.SignatureAggregatorForUserOperations? then Some(last.payload.aggregator)
      else AnnouncedIn(logs[..|logs| - 1], t)
  }

  predicate Resumes(logs: seq<Log>, ev: Log) {
    logs != [] && logs[|logs| - 1].txHash == ev.txHash
  }

  /** The logs of one transaction stand together: each log goes on with the last transaction or begins a new one. */
  predicate Contiguous(logs: seq<Log>) {
    logs == [] ||
    (var init, last := logs[..|logs| - 1], logs[|logs| - 1];
     Contiguous(init) && (Resumes(init, last) || forall ev <- init :: ev.txHash != last.txHash))
  }

  function Counts(data: Option<Bytes>, a: Address): nat {
    if data.Some? && |data.value| >= ADDRESS_LENGTH && data.value[..ADDRESS_LENGTH] == a then 1 else 0
  }

  /** How often one log names an address, as sender, paymaster, aggregator or factory. */
  function Mentions(ev: Log, aggregator: Option<Bytes>, a: Address): nat {
    match ev.payload
    case UserOperationEvent(_, sender, paymaster) =>
      Counts(Some(sender), a) + Counts(Some(paymaster), a) + Counts(aggregator, a)
    case AccountDeployed(factory) => Counts(Some(factory), a)
    case _ => 0
  }

  function Occurrences(logs: seq<Log>, a: Address): nat {
    if logs == [] then 0
    else
      var init, last := logs[..|logs| - 1], logs[|logs| - 1];
      Occurrences(init, a) + Mentions(last, AnnouncedIn(init, last.txHash), a)
  }

  /** The cursor remembers an aggregator exactly as long as the transaction that announced it goes on. */
  ghost predicate Remembers(cursor: Cursor, logs: seq<Log>) {
    && (cursor.aggregatorTx.Some? ==> exists ev <- logs :: ev.txHash == cursor.aggregatorTx.value)
    && (logs != [] ==>
          var t := logs[|logs| - 1].txHash;
          CursorFor(cursor, t).aggregator == AnnouncedIn(logs, t))
  }

  /** The next log of a contiguous sequence continues the last transaction or begins a new one. */
  lemma NextTransaction(cursor: Cursor, logs: seq<Log>, ev: Log)
    requires Contiguous(logs + [ev]) && Remembers(cursor, logs)
    ensures CursorFor(cursor, ev.txHash).aggregator == AnnouncedIn(logs, ev.txHash)
    ensures Remembers(CursorAfter(cursor, ev), logs + [ev])
  {
    var all := logs + [ev];
    assert all[..|all| - 1] == logs && all[|all| - 1] == ev;
    assert ev in all && forall other <- logs :: other in all;
    if !Resumes(logs, ev) {
      assert AnnouncedIn(logs, ev.txHash) == None;
    }
  }

  lemma {:induction false} ContiguousPrefix(logs: seq<Log>, more: seq<Log>)
    requires Contiguous(logs + more)
    ensures Contiguous(logs)
  {
    if more == [] {
      assert logs + more == logs;
    } else {
      assert (logs + more)[..|logs + more| - 1] == logs + more[..|more| - 1];
      ContiguousPrefix(logs, more[..|more| - 1]);
    }
  }

  lemma WorldAfterCredits(w: World, ev: Log, aggregator: Option<Bytes>, a: Address)
    ensures R.Score(WorldAfter(w, ev, aggregator).rep, a).opsIncluded
         == R.Score(w.rep, a).opsIncluded + Mentions(ev, aggregator, a)
  {
  }

  lemma {:induction false} HandledAllCredits(s: State, seen: seq<Log>, evs: seq<Log>, a: Address)
    requires Contiguous(seen + evs) && Remembers(s.cursor, seen)
    ensures Remembers(HandledAll(s, evs).cursor, seen + evs)
    ensures R.Score(HandledAll(s, evs).world.rep, a).opsIncluded + Occurrences(seen, a)
         == R.Score(s.world.rep, a).opsIncluded + Occurrences(seen + evs, a)
    decreases |evs|
  {
    if evs == [] {
      assert seen + evs == seen;
    } else {
      var init, last := evs[..|evs| - 1], evs[|evs| - 1];
      var before := seen + init;
      assert before + [last] == seen + evs;
      ContiguousPrefix(before, [last]);
      HandledAllCredits(s, seen, init, a);
      var s1 := HandledAll(s, init);
      NextTransaction(s1.cursor, before, last);
      WorldAfterCredits(s1.world, last, AnnouncedIn(before, last.txHash), a);
      assert (seen + evs)[..|seen + evs| - 1] == before;
    }
  }

  lemma SeenKeepsIncluded(c: R.Config, rep: R.Entries, aggregator: Option<Address>, op: UserOperation,
                          senderInfo: R.StakeInfo, val: int, a: Address)
    requires R.ValidConfig(c)
    ensures R.Score(SeenUpdate(c, rep, aggregator, op, senderInfo, val), a).opsIncluded == R.Score(rep, a).opsIncluded
  {
    hide R.StakeCheck;
  }

  /** Submissions, removals and sightings leave the included counts alone. */
  lemma TrafficKeepsIncluded(c: R.Config, w: World, e: Event, a: Address)
    requires R.ValidConfig(c) && !e.Included? && !e.Crash? && !e.Cron?
    ensures R.Score(Step(c, w, e).rep, a).opsIncluded == R.Score(w.rep, a).opsIncluded
  {
    hide R.StakeCheck, ReputationCheck, RoleCheck, ReplacementCheck, SeenUpdate, FirstMatchFrom;
    if e.Submit? {
      var op, v := e.op, e.info;
      var found := FirstMatch(w.pool.entries, RefOf(op));
      var agg := AggregatorOf(v);
      if found.Some? {
        var replaced := w.pool.entries[found.value];
        SeenKeepsIncluded(c, w.rep, replaced.aggregator, replaced.op, v.senderInfo, -1, a);
        SeenKeepsIncluded(c, SeenUpdate(c, w.rep, replaced.aggregator, replaced.op, v.senderInfo, -1), agg, op,
                          v.senderInfo, 1, a);
      } else {
        SeenKeepsIncluded(c, w.rep, agg, op, v.senderInfo, 1, a);
      }
    }
  }

  lemma {:induction false} RunCredits(c: R.Config, s: System, actions: seq<Action>, a: Address)
    requires R.ValidConfig(c) && Initial(s) && AllowedRun(c, s, actions)
    requires Contiguous(Run(c, s, actions).handled)
    ensures var s' := Run(c, s, actions);
            && Remembers(s'.state.cursor, s'.handled)
            && R.Score(s'.state.world.rep, a).opsIncluded
               == R.Score(s.state.world.rep, a).opsIncluded + Occurrences(s'.handled, a)
  {
    if actions != [] {
      var before, last := actions[..|actions| - 1], actions[|actions| - 1];
      var s1 := Run(c, s, before);
      match last
      case Traffic(e) =>
        RunCredits(c, s, before, a);
        TrafficKeepsIncluded(c, s1.state.world, e, a);
      case Grow(_) =>
        RunCredits(c, s, before, a);
      case Poll(height, failure) =>
        var from := StartBlock(s1.state.cursor, height);
        var started := s1.state.(cursor := s1.state.cursor.(lastBlock := Some(from)));
        var evs := if failure.None? then Since(s1.chain, from) else [];
        ContiguousPrefix(s1.handled, evs);
        RunCredits(c, s, before, a);
        assert Remembers(started.cursor, s1.handled);
        HandledAllCredits(started, s1.handled, evs, a);
    }
  }

  /** After a successful poll every included count has grown by the address's occurrences since the start. */
  lemma IncludedGainIsOccurrences(c: R.Config, s: System, actions: seq<Action>, height: nat, a: Address)
    requires R.ValidConfig(c) && Initial(s)
    requires AllowedRun(c, s, actions) && height <= Run(c, s, actions).chain.height
    requires Contiguous(Run(c, s, actions).chain.logs)
    ensures var s' := Act(c, Run(c, s, actions), Poll(height, None));
            R.Score(s'.state.world.rep, a).opsIncluded
            == R.Score(s.state.world.rep, a).opsIncluded + Occurrences(Since(s'.chain, s'.start.value), a)
  {
    hide Run, Act, AllowedRun, Between, Contiguous, Occurrences, Ordered, Initial;
    var longer := actions + [Poll(height, None)];
    OneMoreAction(c, s, actions, Poll(height, None));
    PollKeepsChain(c, Run(c, s, actions), height);
    ExactlyOnce(c, s, actions, height);
    RunStaysInStep(c, s, longer);
    var s' := Run(c, s, longer);
    ContiguousSince(s'.chain.logs, s'.chain.height, s'.start.value, s'.chain.height + 1);
    RunCredits(c, s, longer, a);
  }

  lemma OneMoreAction(c: R.Config, s: System, actions: seq<Action>, last: Action)
    requires R.ValidConfig(c)
    ensures Run(c, s, actions + [last]) == Act(c, Run(c, s, actions), last)
    ensures AllowedRun(c, s, actions + [last]) <==> AllowedRun(c, s, actions) && Allowed(Run(c, s, actions), last)
  {
    hide Act, Allowed;
    var longer := actions + [last];
    assert longer[..|longer| - 1] == actions && longer[|longer| - 1] == last;
  }

  lemma PollKeepsChain(c: R.Config, s: System, height: nat)
    requires R.ValidConfig(c)
    ensures Act(c, s, Poll(height, None)).chain == s.chain
  {
  }

  lemma {:induction false} ContiguousSince(logs: seq<Log>, height: nat, lo: nat, hi: nat)
    requires Contiguous(logs) && Ordered(logs, height) && height < hi
    ensures Contiguous(Between(logs, lo, hi))
  {
    if logs != [] {
      var init, last := logs[..|logs| - 1], logs[|logs| - 1];
      ContiguousSince(init, last.block, lo, hi);
      var kept := Between(init, lo, hi);
      BetweenMembers(init, lo, hi);
      if last.block < lo {
        assert Between(logs, lo, hi) == kept;
      } else {
        assert (kept + [last])[..|kept|] == kept && Between(logs, lo, hi) == kept + [last];
        if Resumes(init, last) && kept != [] {
          LastKept(init, last.block, lo, hi);
        }
      }
    }
  }

  lemma LastKept(logs: seq<Log>, height: nat, lo: nat, hi: nat)
    requires Ordered(logs, height) && height < hi && Between(logs, lo, hi) != []
    ensures logs != [] && var evs := Between(logs, lo, hi); evs[|evs| - 1] == logs[|logs| - 1]
  {
    var init, last := logs[..|logs| - 1], logs[|logs| - 1];
    if last.block < lo {
      BetweenAbove(init, last.block, lo, hi);
    }
  }

  // ---- What a handled log removes ----

  function HashCount(entries: seq<MempoolEntry>, h: Hash): nat {
    if entries == [] then 0
    else HashCount(entries[..|entries| - 1], h) + (if entries[|entries| - 1].hash == h then 1 else 0)
  }

  lemma {:induction false} HashCountConcat(s: seq<MempoolEntry>, t: seq<MempoolEntry>, h: Hash)
    ensures HashCount(s + t, h) == HashCount(s, h) + HashCount(t, h)
  {
    if t == [] {
      assert s + t == s;
    } else {
      assert (s + t)[..|s + t| - 1] == s + t[..|t| - 1];
      HashCountConcat(s, t[..|t| - 1], h);
    }
  }

  lemma HashCountInsert(x: seq<MempoolEntry>, e: MempoolEntry, y: seq<MempoolEntry>, h: Hash)
    ensures HashCount(x + ([e] + y), h) == HashCount(x + y, h) + HashCount([e], h)
  {
    HashCountConcat(x, [e] + y, h);
    HashCountConcat([e], y, h);
    HashCountConcat(x, y, h);
  }

  lemma HashCountAround(s: seq<MempoolEntry>, i: nat, e: MempoolEntry, h: Hash)
    requires i < |s|
    ensures HashCount(s, h) == HashCount(RemoveAt(s, i), h) + HashCount([s[i]], h)
    ensures HashCount(s[i := e], h) == HashCount(RemoveAt(s, i), h) + HashCount([e], h)
  {
    hide HashCount;
    HashCountInsert(s[..i], s[i], s[i + 1..], h);
    HashCountInsert(s[..i], e, s[i + 1..], h);
    assert s == s[..i] + ([s[i]] + s[i + 1..]);
    assert s[i := e] == s[..i] + ([e] + s[i + 1..]);
  }

  lemma {:induction false} HashCountPositive(s: seq<MempoolEntry>, h: Hash)
    ensures HashCount(s, h) > 0 <==> exists e <- s :: e.hash == h
  {
    if s != [] {
      var init := s[..|s| - 1];
      HashCountPositive(init, h);
      assert s == init + [s[|s| - 1]];
    }
  }

  lemma RemovedHashCount(pool: Pool, q: OpRef, h: Hash)
    ensures HashCount(Removed(pool, q).entries, h) <= HashCount(pool.entries, h)
    ensures q == ByHash(h) ==> HashCount(Removed(pool, q).entries, h) == Max(0, HashCount(pool.entries, h) - 1)
  {
    var found := FirstMatch(pool.entries, q);
    if found.Some? {
      HashCountAround(pool.entries, found.value, pool.entries[found.value], h);
    } else if q == ByHash(h) {
      HashCountPositive(pool.entries, h);
    }
  }

  lemma {:induction false} BannedScanHashCount(pool: Pool, a: Address, i: nat, h: Hash)
    requires i <= |pool.entries|
    ensures HashCount(BannedScan(pool, a, i).entries, h) <= HashCount(pool.entries, h)
    decreases i
  {
    if i != 0 {
      var next := if Names(pool.entries[i - 1].op, a) then Removed(pool, ByHash(pool.entries[i - 1].hash)) else pool;
      RemovedHashCount(pool, ByHash(pool.entries[i - 1].hash), h);
      BannedScanHashCount(next, a, i - 1, h);
    }
  }

  /** Only submitting h again can raise its count, and by one at most. */
  lemma StepHashCount(c: R.Config, w: World, e: Event, h: Hash)
    requires R.ValidConfig(c)
    ensures HashCount(Step(c, w, e).pool.entries, h)
         <= HashCount(w.pool.entries, h) + (if e.Submit? && e.hash == h then 1 else 0)
  {
    match e
    case Submit(skip, op, hash, info) => SubmittedHashCount(c, w, skip, op, hash, info, h);
    case Remove(q) => RemovedHashCount(w.pool, q, h);
    case RemoveBanned(a) => BannedScanHashCount(w.pool, a, |w.pool.entries|, h);
    case _ =>
  }

  lemma SubmittedHashCount(c: R.Config, w: World, skip: bool, op: UserOperation, hash: Hash, info: ValidationInfo,
                           h: Hash)
    requires R.ValidConfig(c)
    ensures var r := Submitted(c, w, skip, op, hash, info);
            r.Ok? ==> HashCount(r.value.pool.entries, h) <= HashCount(w.pool.entries, h) + (if hash == h then 1 else 0)
  {
    hide ReputationCheck, RoleCheck, ReplacementCheck, SeenUpdate;
    var entry := EntryFor(skip, op, hash, info);
    var found := FirstMatch(w.pool.entries, RefOf(op));
    if found.Some? {
      HashCountAround(w.pool.entries, found.value, entry, h);
    } else {
      HashCountConcat(w.pool.entries, [entry], h);
    }
  }

  predicate Settles(ev: Log, h: Hash) {
    ev.payload.UserOperationEvent? && ev.payload.userOpHash == h
  }

  /** Nobody submits h while it is pending or after its event was handled. */
  ghost predicate SubmittedOnce(c: R.Config, s: System, actions: seq<Action>, h: Hash)
    requires R.ValidConfig(c)
  {
    actions == [] ||
    (var before, a := actions[..|actions| - 1], actions[|actions| - 1];
     var s1 := Run(c, s, before);
     && SubmittedOnce(c, s, before, h)
     && (a.Traffic? && a.event.Submit? && a.event.hash == h ==>
           HashCount(s1.state.world.pool.entries, h) == 0 && forall ev <- s1.handled :: !Settles(ev, h)))
  }

  lemma WorldAfterSettles(w: World, ev: Log, aggregator: Option<Bytes>, h: Hash)
    ensures HashCount(WorldAfter(w, ev, aggregator).pool.entries, h)
         <= if Settles(ev, h) then Max(0, HashCount(w.pool.entries, h) - 1) else HashCount(w.pool.entries, h)
  {
    hide HashCount, Removed;
    if ev.payload.UserOperationEvent? {
      RemovedHashCount(w.pool, ByHash(ev.payload.userOpHash), h);
    }
  }

  lemma {:induction false} HandledAllSettles(s: State, evs: seq<Log>, h: Hash)
    requires HashCount(s.world.pool.entries, h) <= 1
    ensures HashCount(HandledAll(s, evs).world.pool.entries, h) <= HashCount(s.world.pool.entries, h)
    ensures (exists ev <- evs :: Settles(ev, h)) ==> HashCount(HandledAll(s, evs).world.pool.entries, h) == 0
  {
    hide HashCount, WorldAfter, CursorAfter, Settles;
    if evs != [] {
      var init, last := evs[..|evs| - 1], evs[|evs| - 1];
      HandledAllSettles(s, init, h);
      var s1 := HandledAll(s, init);
      WorldAfterSettles(s1.world, last, CursorFor(s1.cursor, last.txHash).aggregator, h);
      assert evs == init + [last];
    }
  }

  /** An operation whose event was handled is not pending, unless somebody submits it again. */
  lemma {:induction false} HandledIsNotPending(c: R.Config, s: System, actions: seq<Action>, h: Hash)
    requires R.ValidConfig(c) && Initial(s) && SubmittedOnce(c, s, actions, h)
    requires HashCount(s.state.world.pool.entries, h) <= 1
    ensures var s' := Run(c, s, actions);
            && HashCount(s'.state.world.pool.entries, h) <= 1
            && ((exists ev <- s'.handled :: Settles(ev, h)) ==> forall e <- s'.state.world.pool.entries :: e.hash != h)
  {
    var s' := Run(c, s, actions);
    if actions != [] {
      var before, last := actions[..|actions| - 1], actions[|actions| - 1];
      var s1 := Run(c, s, before);
      HandledIsNotPending(c, s, before, h);
      HashCountPositive(s1.state.world.pool.entries, h);
      match last
      case Traffic(e) => StepHashCount(c, s1.state.world, e, h);
      case Grow(_) =>
      case Poll(height, failure) =>
        var from := StartBlock(s1.state.cursor, height);
        var started := s1.state.(cursor := s1.state.cursor.(lastBlock := Some(from)));
        HandledAllSettles(started, if failure.None? then Since(s1.chain, from) else [], h);
    }
    HashCountPositive(s'.state.world.pool.entries, h);
  }

  // ---- Where a run starts ----

  /** The height the first poll of the run saw. */
  function FirstHeight(actions: seq<Action>): Option<nat> {
    if actions == [] then None
    else if actions[0].Poll? then Some(actions[0].height)
    else FirstHeight(actions[1..])
  }

  lemma {:induction false} FirstHeightNext(actions: seq<Action>, a: Action)
    ensures FirstHeight(actions + [a])
         == if FirstHeight(actions).Some? then FirstHeight(actions) else if a.Poll? then Some(a.height) else None
    decreases actions
  {
    if actions == [] {
      assert [] + [a] == [a];
    } else {
      assert (actions + [a])[0] == actions[0] && (actions + [a])[1..] == actions[1..] + [a];
      FirstHeightNext(actions[1..], a);
    }
  }

  ghost predicate StartsAt(s: System, first: Option<nat>) {
    match first
    case None => s.start == None && s.state.cursor.lastBlock == None
    case Some(height) =>
      && s.start == Some(if height <= 1001 then 1 else height - 1000)
      && s.state.cursor.lastBlock.Some?
  }

  /** A run starts a thousand blocks behind the height its first poll saw, or at block one. */
  lemma {:induction false} RunStartsBehind(c: R.Config, s: System, actions: seq<Action>)
    requires R.ValidConfig(c) && s.start == None && s.state.cursor.lastBlock == None
    ensures StartsAt(Run(c, s, actions), FirstHeight(actions))
    decreases |actions|
  {
    hide Step, HandledAll;
    if actions != [] {
      var init, a := actions[..|actions| - 1], actions[|actions| - 1];
      assert actions == init + [a];
      RunStartsBehind(c, s, init);
      FirstHeightNext(init, a);
      if a.Poll? && a.failure.None? {
        var before := Run(c, s, init);
        var from := StartBlock(before.state.cursor, a.height);
        HandledAllMoves(before.state.(cursor := before.state.cursor.(lastBlock := Some(from))),
                        Since(before.chain, from));
      }
    }
  }
}
