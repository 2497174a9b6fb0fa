/** How a bundle is packed from the mempool: the meaning of one attempt, with everything the environment answers. */
module Bundling {
  import opened Basics
  import opened UserOperations
  import opened StorageMaps
  import opened Mempool
  import opened WorldEvents
  import R = Reputation

  datatype Config = Config(
    rep: R.Config,
    maxBundleGas: nat,
    conditionalRpc: bool,
    mergeToAccountRootHash: bool,
    signerOf: Authorization -> Address)

  /** The limits of one request; zero means no limit. */
  datatype Limits = Limits(minBaseFee: nat, maxBundleGas: nat, maxBundleSize: nat)

  datatype Reason = AA1 | AA2 | AA3 | OtherReason

  /** How the second validation ends: fine, with a FailedOp revert, or with an error that is no FailedOp. */
  datatype Verdict =
    | Valid(preOpGas: nat, prefund: Option<nat>, storageMap: StorageMap)
    | FailedOp(reason: Reason, accountStaked: bool, factoryStaked: bool)
    | Unparsed(fatal: bool)

  /** What the environment answers, and does to the shared state, while one entry is considered. */
  datatype Await = Await(
    validating: seq<Event>,
    verdict: Verdict,
    settling: seq<Event>,
    balance: nat,
    accountRoot: string)

  /** The local variables of the packing loop; picked holds positions in the sorted snapshot. */
  datatype Packing = Packing(
    picked: seq<nat>,
    auths: seq<Authorization>,
    deposits: map<Address, nat>,
    senders: set<Address>,
    storage: StorageMap,
    totalGas: nat)

  const EMPTY_PACKING := Packing([], [], map[], {}, map[], 0)

  /** One turn of the loop: go on, leave the loop, or throw; in each case with what happened to the shared state. */
  datatype Turn = Next(packing: Packing, events: seq<Event>) | Stop(events: seq<Event>) | Raise(events: seq<Event>)

  datatype Attempt = Built(packing: Packing, events: seq<Event>) | Threw(events: seq<Event>)

  // ---- Blame ----

  function EntityToBlame(op: UserOperation, reason: Reason, accountStaked: bool, factoryStaked: bool): Option<Address> {
    match reason
    case AA3 => if accountStaked then Some(op.sender) else op.paymaster
    case AA2 => if factoryStaked && op.factory.Some? then op.factory else Some(op.sender)
    case AA1 => op.factory
    case OtherReason => None
  }

  /** A failed second validation undoes the sightings of all roles, even when nobody is blamed. */
  function SecondFailureEvents(op: UserOperation, blamed: Option<Address>): seq<Event> {
    [Seen(Some(op.sender), -1), Seen(op.paymaster, -1), Seen(op.factory, -1), Seen(blamed, 1), Remove(RefOf(op))]
  }

  /** A failed handleOps; blaming an entity empties the mempool of it and bans it. */
  function FailedHandleOpsEvents(op: UserOperation, blamed: Option<Address>): seq<Event> {
    (match blamed
     case None => []
     case Some(a) =>
       [Seen(Some(op.sender), -1), Seen(op.paymaster, -1), Seen(op.factory, -1), RemoveBanned(a), Crash(blamed)])
    + [Remove(RefOf(op))]
  }

  // ---- EIP-7702 authorizations ----

  function FindSigner(signerOf: Authorization -> Address, auths: seq<Authorization>, signer: Address): (r: Option<nat>)
    ensures r.Some? ==> r.value < |auths| && signerOf(auths[r.value]) == signer
    ensures r.None? ==> forall t <- auths :: signerOf(t) != signer
  {
    if auths == [] then None
    else if signerOf(auths[0]) == signer then Some(0)
    else
      match FindSigner(signerOf, auths[1..], signer)
      case None => None
      case Some(k) => Some(k + 1)
  }

  /** Adds the tuples of new signers; fails on a known signer that delegates elsewhere, keeping what was added. */
  function MergedAuthorizations(signerOf: Authorization -> Address, more: seq<Authorization>, auths: seq<Authorization>)
      : (bool, seq<Authorization>)
    decreases more
  {
    if more == [] then (true, auths)
    else
      match FindSigner(signerOf, auths, signerOf(more[0]))
      case None => MergedAuthorizations(signerOf, more[1..], auths + [more[0]])
      case Some(k) =>
        if auths[k].delegate != more[0].delegate then (false, auths)
        else MergedAuthorizations(signerOf, more[1..], auths)
  }

  // ---- The loop ----

  predicate Chargeable(pm: Option<Address>) {
    pm.Some? && IsAddress(pm.value) && pm.value != ADDRESS_ZERO
  }

  /** Entry i against the request limits, the reputations and the senders so far, up to the second validation. */
  function Consider(c: Config, q: Limits, known: set<Address>, size: nat, entry: MempoolEntry, i: nat, aw: Await,
                    p: Packing, w: World): Turn
    requires R.ValidConfig(c.rep)
  {
    var op := entry.op;
    var paymasterStatus := R.StatusOf(c.rep, w.rep, op.paymaster);
    var factoryStatus := R.StatusOf(c.rep, w.rep, op.factory);
    if q.maxBundleSize != 0 && size >= q.maxBundleSize then Stop([])
    else if q.minBaseFee != 0 && op.maxFeePerGas < q.minBaseFee then Next(p, [])
    else if paymasterStatus == R.BANNED || factoryStatus == R.BANNED then Next(p, [Remove(RefOf(op))])
    else if paymasterStatus == R.THROTTLED || factoryStatus == R.THROTTLED then Next(p, [])
    else if op.sender in p.senders then Next(p, [])
    else Revalidated(c, q, known, entry, i, aw, p)
  }

  /** What debug entries are packed with instead of a validation result. */
  const EMPTY_RESULT := Valid(0, Some(0), map[])

  function Revalidated(c: Config, q: Limits, known: set<Address>, entry: MempoolEntry, i: nat, aw: Await,
                       p: Packing): Turn {
    var op := entry.op;
    if entry.skipValidation then Pack(c, q, known, op, i, aw, p, EMPTY_RESULT, [])
    else
      match aw.verdict
      case Unparsed(fatal) => if fatal then Raise(aw.validating) else Next(p, aw.validating + [Remove(RefOf(op))])
      case FailedOp(reason, accountStaked, factoryStaked) =>
        Next(p, aw.validating + SecondFailureEvents(op, EntityToBlame(op, reason, accountStaked, factoryStaked)))
      case Valid(_, _, _) => Pack(c, q, known, op, i, aw, p, aw.verdict, aw.validating)
  }

  /** From a passed validation to the bundle: foreign storage, gas, the paymaster's deposit, and authorizations. */
  function Pack(c: Config, q: Limits, known: set<Address>, op: UserOperation, i: nat, aw: Await, p: Packing, v: Verdict,
                events: seq<Event>): Turn
    requires v.Valid?
  {
    var newTotalGas := p.totalGas + v.preOpGas + op.callGasLimit;
    if exists a <- v.storageMap.Keys :: a != op.sender && a in known then Next(p, events)
    else if newTotalGas > c.maxBundleGas then Stop(events)
    else if q.maxBundleGas != 0 && newTotalGas >= q.maxBundleGas then Stop(events)
    else if Chargeable(op.paymaster) then
      var pm := op.paymaster.value;
      var deposit := if pm in p.deposits then p.deposits[pm] else aw.balance;
      if v.prefund.None? then Raise(events + aw.settling)
      else if deposit < v.prefund.value then Next(p.(deposits := p.deposits[pm := deposit]), events + aw.settling)
      else Join(c, op, i, aw, p.(deposits := p.deposits[pm := deposit - v.prefund.value]), v, events)
    else Join(c, op, i, aw, p, v, events)
  }

  /** Storage is merged before an authorization conflict can still drop the operation. */
  function Join(c: Config, op: UserOperation, i: nat, aw: Await, p: Packing, v: Verdict, events: seq<Event>): Turn
    requires v.Valid?
  {
    var storage := if c.mergeToAccountRootHash && c.conditionalRpc && op.factory.None?
                   then p.storage[op.sender := Root(aw.accountRoot)] else p.storage;
    var (ok, auths) := MergedAuthorizations(c.signerOf, op.authorizations, p.auths);
    var p' := p.(storage := Merged(storage, v.storageMap), auths := auths);
    if !ok then Next(p', events + aw.settling)
    else
      Next(p'.(picked := p.picked + [i], senders := p.senders + {op.sender},
               totalGas := p.totalGas + v.preOpGas + op.callGasLimit), events + aw.settling)
  }

  function PackFrom(c: Config, q: Limits, known: set<Address>, entries: seq<MempoolEntry>, env: nat -> Await, i: nat,
                    p: Packing, w: World): Attempt
    requires R.ValidConfig(c.rep) && i <= |entries|
    decreases |entries| - i
  {
    if i == |entries| then Built(p, [])
    else
      match Consider(c, q, known, |entries|, entries[i], i, env(i), p, w)
      case Stop(evs) => Built(p, evs)
      case Raise(evs) => Threw(evs)
      case Next(p', evs) =>
        match PackFrom(c, q, known, entries, env, i + 1, p', Steps(c.rep, w, evs))
        case Built(r, more) => Built(r, evs + more)
        case Threw(more) => Threw(evs + more)
  }

  /** The snapshot is sorted once; everything after works on it, whatever happens to the mempool meanwhile. */
  function Created(c: Config, q: Limits, w: World, env: nat -> Await): Attempt
    requires R.ValidConfig(c.rep)
  {
    PackFrom(c, q, Senders(w.pool.entries), SortByCost(w.pool.entries), env, 0, EMPTY_PACKING, w)
  }

  /** The operations at the picked positions, in order. */
  function OpsAt(entries: seq<MempoolEntry>, picked: seq<nat>): seq<UserOperation> {
    if picked == [] then []
    else
      var k := picked[|picked| - 1];
      OpsAt(entries, picked[..|picked| - 1]) + (if k < |entries| then [entries[k].op] else [])
  }

  lemma OpsAtNone(entries: seq<MempoolEntry>)
    ensures OpsAt(entries, []) == []
  {
  }

  lemma OpsAtNext(entries: seq<MempoolEntry>, picked: seq<nat>, k: nat)
    requires k < |entries|
    ensures OpsAt(entries, picked + [k]) == OpsAt(entries, picked) + [entries[k].op]
  {
    assert (picked + [k])[..|picked|] == picked;
  }

  /** An attempt that was preceded by some events. */
  function Preceded(events: seq<Event>, t: Attempt): Attempt {
    match t
    case Built(p, more) => Built(p, events + more)
    case Threw(more) => Threw(events + more)
  }

  /** One turn of the loop, seen from the start of the attempt. */
  lemma TakeTurn(c: Config, q: Limits, known: set<Address>, entries: seq<MempoolEntry>, env: nat -> Await, i: nat,
                 p: Packing, w0: World, w: World, events: seq<Event>, goal: Attempt) returns (turn: Turn)
    requires R.ValidConfig(c.rep) && i < |entries| && w == Steps(c.rep, w0, events)
    requires goal == Preceded(events, PackFrom(c, q, known, entries, env, i, p, w))
    ensures turn == Consider(c, q, known, |entries|, entries[i], i, env(i), p, w)
    ensures Steps(c.rep, w0, events + turn.events) == Steps(c.rep, w, turn.events)
    ensures match turn
            case Stop(evs) => goal == Built(p, events + evs)
            case Raise(evs) => goal == Threw(events + evs)
            case Next(p', evs) =>
              goal == Preceded(events + evs, PackFrom(c, q, known, entries, env, i + 1, p', Steps(c.rep, w, evs)))
  {
    hide Consider;
    turn := Consider(c, q, known, |entries|, entries[i], i, env(i), p, w);
    StepsConcat(c.rep, w0, events, turn.events);
    if turn.Next? {
      match PackFrom(c, q, known, entries, env, i + 1, turn.packing, Steps(c.rep, w, turn.events))
      case Built(_, more) => assert events + (turn.events + more) == (events + turn.events) + more;
      case Threw(more) => assert events + (turn.events + more) == (events + turn.events) + more;
    }
  }

  lemma LastTurn(c: Config, q: Limits, known: set<Address>, entries: seq<MempoolEntry>, env: nat -> Await,
                 p: Packing, w: World, events: seq<Event>)
    requires R.ValidConfig(c.rep)
    ensures Preceded(events, PackFrom(c, q, known, entries, env, |entries|, p, w)) == Built(p, events)
  {
    assert events + [] == events;
  }

  lemma FirstTurn(c: Config, q: Limits, w: World, env: nat -> Await)
    requires R.ValidConfig(c.rep)
    ensures Created(c, q, w, env)
         == Preceded([], PackFrom(c, q, Senders(w.pool.entries), SortByCost(w.pool.entries), env, 0, EMPTY_PACKING, w))
  {
    var t := Created(c, q, w, env);
    assert [] + t.events == t.events;
  }
}
