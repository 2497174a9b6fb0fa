/** What every bundle satisfies, whatever the environment answers and does meanwhile. */
module BundlingTheorems {
  import opened Basics
  import opened UserOperations
  import opened StorageMaps
  import opened Mempool
  import opened MempoolInvariants
  import opened WorldEvents
  import opened Bundling
  import R = Reputation

  /** What stays fixed during one attempt. */
  datatype Setting = Setting(c: Config, q: Limits, known: set<Address>, entries: seq<MempoolEntry>, env: nat -> Await)

  ghost predicate ValidSetting(s: Setting) {
    R.ValidConfig(s.c.rep)
  }

  function SettingOf(c: Config, q: Limits, w: World, env: nat -> Await): Setting {
    Setting(c, q, Senders(w.pool.entries), SortByCost(w.pool.entries), env)
  }

  /** The verdict an entry is packed with; a debug entry skips validation. */
  function VerdictAt(s: Setting, k: nat): Verdict
    requires k < |s.entries|
  {
    if s.entries[k].skipValidation then EMPTY_RESULT else s.env(k).verdict
  }

  predicate PaysBaseFee(s: Setting, k: nat)
    requires k < |s.entries|
  {
    s.q.minBaseFee != 0 ==> s.q.minBaseFee <= s.entries[k].op.maxFeePerGas
  }

  // ---- Reachable packings ----

  function Available(s: Setting, i: nat, p: Packing, pm: Address): nat {
    if pm in p.deposits then p.deposits[pm] else s.env(i).balance
  }

  function AfterCharge(s: Setting, i: nat, p: Packing, pm: Address, prefund: nat): Packing
    requires prefund <= Available(s, i, p, pm)
  {
    p.(deposits := p.deposits[pm := Available(s, i, p, pm) - prefund])
  }

  /** The bounds an entry has passed once only its authorizations are left to merge. */
  predicate MayJoin(s: Setting, i: nat, p: Packing)
    requires i < |s.entries|
  {
    var op, v := s.entries[i].op, VerdictAt(s, i);
    && v.Valid? && op.sender !in p.senders && PaysBaseFee(s, i)
    && (forall a <- v.storageMap.Keys :: a == op.sender || a !in s.known)
    && p.totalGas + v.preOpGas + op.callGasLimit <= s.c.maxBundleGas
    && (s.q.maxBundleGas != 0 ==> p.totalGas + v.preOpGas + op.callGasLimit < s.q.maxBundleGas)
    && (Chargeable(op.paymaster) ==> v.prefund.Some? && v.prefund.value <= Available(s, i, p, op.paymaster.value))
  }

  function ChargedFor(s: Setting, i: nat, p: Packing): Packing
    requires i < |s.entries| && MayJoin(s, i, p)
  {
    var op := s.entries[i].op;
    if Chargeable(op.paymaster) then AfterCharge(s, i, p, op.paymaster.value, VerdictAt(s, i).prefund.value) else p
  }

  /** An existing account's whole storage stands for its slots where the configuration asks for it. */
  predicate AccountRooted(s: Setting, i: nat)
    requires i < |s.entries|
  {
    s.c.mergeToAccountRootHash && s.c.conditionalRpc && s.entries[i].op.factory.None?
  }

  function Rooted(s: Setting, i: nat, storage: StorageMap): StorageMap
    requires i < |s.entries|
  {
    if AccountRooted(s, i) then storage[s.entries[i].op.sender := Root(s.env(i).accountRoot)] else storage
  }

  /** Joining: the deposit is charged, the authorizations are merged, and unless they conflict the entry is picked. */
  ghost predicate Joined(s: Setting, i: nat, p: Packing, p': Packing)
    requires i < |s.entries| && MayJoin(s, i, p)
  {
    var op, v := s.entries[i].op, VerdictAt(s, i);
    var (ok, auths) := MergedAuthorizations(s.c.signerOf, op.authorizations, p.auths);
    && p'.deposits == ChargedFor(s, i, p).deposits && p'.auths == auths
    && p'.storage == Merged(Rooted(s, i, p.storage), v.storageMap)
    && if ok then
         && p'.picked == p.picked + [i] && p'.senders == p.senders + {op.sender}
         && p'.totalGas == p.totalGas + v.preOpGas + op.callGasLimit
       else
         p'.picked == p.picked && p'.senders == p.senders && p'.totalGas == p.totalGas
  }

  /** The ways one turn can change the packing: not at all, by fetching a balance, or by joining. */
  ghost predicate Moved(s: Setting, i: nat, p: Packing, p': Packing) {
    && i < |s.entries|
    && (|| p' == p
        || (Chargeable(s.entries[i].op.paymaster) && p' == AfterCharge(s, i, p, s.entries[i].op.paymaster.value, 0))
        || (MayJoin(s, i, p) && Joined(s, i, p, p')))
  }

  lemma PackMoves(s: Setting, i: nat, p: Packing, events: seq<Event>)
    requires i < |s.entries| && VerdictAt(s, i).Valid? && s.entries[i].op.sender !in p.senders
    requires PaysBaseFee(s, i)
    ensures var t := Pack(s.c, s.q, s.known, s.entries[i].op, i, s.env(i), p, VerdictAt(s, i), events);
            t.Next? ==> Moved(s, i, p, t.packing)
  {
  }

  lemma ConsiderMoves(s: Setting, i: nat, p: Packing, w: World)
    requires ValidSetting(s) && i < |s.entries|
    ensures var t := Consider(s.c, s.q, s.known, |s.entries|, s.entries[i], i, s.env(i), p, w);
            t.Next? ==> Moved(s, i, p, t.packing)
  {
    var op := s.entries[i].op;
    if VerdictAt(s, i).Valid? && op.sender !in p.senders && PaysBaseFee(s, i) {
      PackMoves(s, i, p, if s.entries[i].skipValidation then [] else s.env(i).validating);
    }
  }

  /** A history of packings that some environment makes the loop go through, one for each turn. */
  ghost predicate Path(s: Setting, path: seq<Packing>) {
    var n := |path|;
    && n != 0
    && if n == 1 then path[0] == EMPTY_PACKING else Path(s, path[..n - 1]) && Moved(s, n - 2, path[n - 2], path[n - 1])
  }

  function Last(path: seq<Packing>): Packing
    requires path != []
  {
    path[|path| - 1]
  }

  /** The packings an attempt really goes through: before turn i, and after each turn from there on. */
  function History(s: Setting, i: nat, p: Packing, w: World): (path: seq<Packing>)
    requires R.ValidConfig(s.c.rep) && i <= |s.entries|
    ensures path != [] && path[0] == p
    decreases |s.entries| - i
  {
    if i == |s.entries| then [p]
    else
      match Consider(s.c, s.q, s.known, |s.entries|, s.entries[i], i, s.env(i), p, w)
      case Next(p', evs) => [p] + History(s, i + 1, p', Steps(s.c.rep, w, evs))
      case _ => [p]
  }

  function CreatedHistory(c: Config, q: Limits, w: World, env: nat -> Await): seq<Packing>
    requires R.ValidConfig(c.rep)
  {
    History(SettingOf(c, q, w, env), 0, EMPTY_PACKING, w)
  }

  lemma PathNext(s: Setting, path: seq<Packing>, p: Packing)
    requires Path(s, path) && Moved(s, |path| - 1, Last(path), p)
    ensures Path(s, path + [p])
  {
    assert (path + [p])[..|path|] == path;
  }

  /** The history so far, continued by the attempt, is a path that ends with the packing the attempt ends with. */
  lemma {:induction false} PackFromPath(s: Setting, path: seq<Packing>, w: World) returns (full: seq<Packing>)
    requires ValidSetting(s) && path != [] && Path(s, path) && |path| <= |s.entries| + 1
    requires PackFrom(s.c, s.q, s.known, s.entries, s.env, |path| - 1, Last(path), w).Built?
    ensures full == path[..|path| - 1] + History(s, |path| - 1, Last(path), w)
    ensures full != [] && Path(s, full)
    ensures Last(full) == PackFrom(s.c, s.q, s.known, s.entries, s.env, |path| - 1, Last(path), w).packing
    decreases |s.entries| + 1 - |path|
  {
    hide Consider, Moved, Path, Steps;
    full := path;
    var i := |path| - 1;
    assert path == path[..i] + [Last(path)];
    if i < |s.entries| {
      ConsiderMoves(s, i, Last(path), w);
      match Consider(s.c, s.q, s.known, |s.entries|, s.entries[i], i, s.env(i), Last(path), w)
      case Next(p', evs) =>
        PathNext(s, path, p');
        full := PackFromPath(s, path + [p'], Steps(s.c.rep, w, evs));
        assert (path + [p'])[..|path|] == path;
      case _ =>
    }
  }

  lemma CreatedPath(c: Config, q: Limits, w: World, env: nat -> Await) returns (path: seq<Packing>)
    requires R.ValidConfig(c.rep) && Created(c, q, w, env).Built?
    ensures path == CreatedHistory(c, q, w, env)
    ensures Path(SettingOf(c, q, w, env), path) && Last(path) == Created(c, q, w, env).packing
  {
    path := PackFromPath(SettingOf(c, q, w, env), [EMPTY_PACKING], w);
  }

  // ---- Picks ----

  /** Positions are picked in order, each with a passed (or skipped) validation, and each sender once. */
  ghost predicate PicksValid(s: Setting, n: nat, p: Packing) {
    && (forall x | 0 <= x < |p.picked| :: p.picked[x] < n && p.picked[x] < |s.entries|)
    && (forall x | 0 <= x < |p.picked| :: VerdictAt(s, p.picked[x]).Valid?)
    && (forall x | 0 <= x < |p.picked| :: PaysBaseFee(s, p.picked[x]))
    && (forall x, y | 0 <= x < y < |p.picked| :: p.picked[x] < p.picked[y])
    && (forall x | 0 <= x < |p.picked| :: s.entries[p.picked[x]].op.sender in p.senders)
    && (forall x, y | 0 <= x < y < |p.picked| :: s.entries[p.picked[x]].op.sender != s.entries[p.picked[y]].op.sender)
  }

  lemma MovedPicks(s: Setting, i: nat, p: Packing, p': Packing)
    requires Moved(s, i, p, p') && PicksValid(s, i, p)
    ensures PicksValid(s, i + 1, p')
  {
  }

  lemma {:induction false} PathPicks(s: Setting, path: seq<Packing>)
    requires Path(s, path)
    ensures PicksValid(s, |path| - 1, Last(path)) && |Last(path).picked| < |path| <= |s.entries| + 1
  {
    if |path| != 1 {
      PathPicks(s, path[..|path| - 1]);
      MovedPicks(s, |path| - 2, path[|path| - 2], path[|path| - 1]);
    }
  }

  /** No picked operation touches the storage of a known sender other than its own. */
  ghost predicate Isolated(s: Setting, p: Packing) {
    forall k | k in p.picked && k < |s.entries| :: IsolatedAt(s, k)
  }

  predicate IsolatedAt(s: Setting, k: nat)
    requires k < |s.entries|
  {
    && VerdictAt(s, k).Valid?
    && forall a <- VerdictAt(s, k).storageMap.Keys :: a == s.entries[k].op.sender || a !in s.known
  }

  lemma MovedIsolated(s: Setting, i: nat, p: Packing, p': Packing)
    requires Moved(s, i, p, p') && Isolated(s, p)
    ensures Isolated(s, p')
  {
    forall k | k in p'.picked && k < |s.entries|
      ensures IsolatedAt(s, k)
    {
      assert k in p.picked || (k == i && MayJoin(s, i, p));
    }
  }

  lemma {:induction false} PathIsolated(s: Setting, path: seq<Packing>)
    requires Path(s, path)
    ensures Isolated(s, Last(path))
  {
    if |path| != 1 {
      PathIsolated(s, path[..|path| - 1]);
      MovedIsolated(s, |path| - 2, path[|path| - 2], path[|path| - 1]);
    }
  }

  // ---- Gas ----

  function GasSum(s: Setting, picked: seq<nat>): nat {
    if picked == [] then 0
    else
      var k := picked[|picked| - 1];
      GasSum(s, picked[..|picked| - 1])
      + (if k < |s.entries| && VerdictAt(s, k).Valid? then
           VerdictAt(s, k).preOpGas + s.entries[k].op.callGasLimit
         else 0)
  }

  ghost predicate GasBounded(s: Setting, p: Packing) {
    && p.totalGas == GasSum(s, p.picked)
    && p.totalGas <= s.c.maxBundleGas
    && (s.q.maxBundleGas != 0 ==> p.totalGas < s.q.maxBundleGas)
  }

  lemma MovedGas(s: Setting, i: nat, p: Packing, p': Packing)
    requires Moved(s, i, p, p') && GasBounded(s, p)
    ensures GasBounded(s, p')
  {
    hide Merged, MergedAuthorizations, Rooted;
    if p'.picked != p.picked {
      assert p'.picked[..|p'.picked| - 1] == p.picked;
    }
  }

  lemma {:induction false} PathGas(s: Setting, path: seq<Packing>)
    requires Path(s, path)
    ensures GasBounded(s, Last(path))
  {
    if |path| != 1 {
      PathGas(s, path[..|path| - 1]);
      MovedGas(s, |path| - 2, path[|path| - 2], path[|path| - 1]);
    }
  }

  // ---- Paymaster deposits ----

  function PrefundSum(s: Setting, picked: seq<nat>, pm: Address): nat {
    if picked == [] then 0
    else
      var k := picked[|picked| - 1];
      PrefundSum(s, picked[..|picked| - 1], pm)
      + (if k < |s.entries| && s.entries[k].op.paymaster == Some(pm) && VerdictAt(s, k).Valid? then
           OrZero(VerdictAt(s, k).prefund) else 0)
  }

  /** The turn that fetched the balance of pm: the first with something left of it. */
  ghost predicate FetchedAt(path: seq<Packing>, pm: Address, j: nat) {
    j + 1 < |path| && pm !in path[j].deposits && pm in path[j + 1].deposits
  }

  /** What is left of the fetched balance, plus the prefunds in the bundle, never exceeds it. */
  ghost predicate DepositCovers(s: Setting, path: seq<Packing>, pm: Address)
    requires path != []
  {
    var p := Last(path);
    if pm in p.deposits then
      exists j: nat :: FetchedAt(path, pm, j) && PrefundSum(s, p.picked, pm) + p.deposits[pm] <= s.env(j).balance
    else PrefundSum(s, p.picked, pm) == 0
  }

  /** A turn either leaves pm alone, or takes from its deposit at least what it adds to the bundle. */
  lemma MovedDeposit(s: Setting, i: nat, p: Packing, p': Packing, pm: Address)
    requires Moved(s, i, p, p') && Chargeable(Some(pm))
    ensures || (&& PrefundSum(s, p'.picked, pm) == PrefundSum(s, p.picked, pm)
                && (pm in p'.deposits <==> pm in p.deposits)
                && (pm in p.deposits ==> p'.deposits[pm] == p.deposits[pm]))
            || (&& pm in p'.deposits
                && PrefundSum(s, p'.picked, pm) + p'.deposits[pm]
                   <= PrefundSum(s, p.picked, pm) + Available(s, i, p, pm))
  {
    if p'.picked != p.picked {
      assert p'.picked[..|p'.picked| - 1] == p.picked;
    }
  }

  lemma MovedCovers(s: Setting, path: seq<Packing>, pm: Address)
    requires 2 <= |path| && DepositCovers(s, path[..|path| - 1], pm) && Chargeable(Some(pm))
    requires Moved(s, |path| - 2, path[|path| - 2], path[|path| - 1])
    ensures DepositCovers(s, path, pm)
  {
    var i, init := |path| - 2, path[..|path| - 1];
    var p := Last(init);
    MovedDeposit(s, i, p, path[i + 1], pm);
    if pm in p.deposits {
      var j: nat :| FetchedAt(init, pm, j) && PrefundSum(s, p.picked, pm) + p.deposits[pm] <= s.env(j).balance;
      assert FetchedAt(path, pm, j);
    } else if pm in path[i + 1].deposits {
      assert FetchedAt(path, pm, i);
    }
  }

  lemma {:induction false} PathCovers(s: Setting, path: seq<Packing>, pm: Address)
    requires Path(s, path) && Chargeable(Some(pm))
    ensures DepositCovers(s, path, pm)
  {
    if |path| != 1 {
      PathCovers(s, path[..|path| - 1], pm);
      MovedCovers(s, path, pm);
    }
  }

  // ---- EIP-7702 authorizations ----

  ghost predicate DistinctSigners(signerOf: Authorization -> Address, auths: seq<Authorization>) {
    forall x, y | 0 <= x < y < |auths| :: signerOf(auths[x]) != signerOf(auths[y])
  }

  predicate Covers(signerOf: Authorization -> Address, auths: seq<Authorization>, t: Authorization) {
    exists u <- auths :: signerOf(u) == signerOf(t) && u.delegate == t.delegate
  }

  lemma CoversMonotone(signerOf: Authorization -> Address, auths: seq<Authorization>, merged: seq<Authorization>,
                       t: Authorization)
    requires auths <= merged && Covers(signerOf, auths, t)
    ensures Covers(signerOf, merged, t)
  {
    var u :| u in auths && signerOf(u) == signerOf(t) && u.delegate == t.delegate;
    assert u in merged;
  }

  lemma {:induction false} MergeKeepsAuths(signerOf: Authorization -> Address, more: seq<Authorization>,
                                           auths: seq<Authorization>)
    requires DistinctSigners(signerOf, auths)
    ensures var (ok, merged) := MergedAuthorizations(signerOf, more, auths);
            && DistinctSigners(signerOf, merged) && auths <= merged
            && (ok ==> forall t <- more :: Covers(signerOf, merged, t))
            && (forall t <- merged :: t in auths || t in more)
            && (!ok && |more| <= 1 ==> merged == auths)
    decreases more
  {
    if more != [] {
      match FindSigner(signerOf, auths, signerOf(more[0]))
      case None =>
        MergeKeepsAuths(signerOf, more[1..], auths + [more[0]]);
        var merged := MergedAuthorizations(signerOf, more[1..], auths + [more[0]]).1;
        assert (auths + [more[0]])[|auths|] == merged[|auths|];
        assert Covers(signerOf, merged, more[0]);
      case Some(k) =>
        if auths[k].delegate == more[0].delegate {
          MergeKeepsAuths(signerOf, more[1..], auths);
          var merged := MergedAuthorizations(signerOf, more[1..], auths).1;
          assert merged[k] == auths[k];
          assert Covers(signerOf, merged, more[0]);
        }
    }
  }

  /** Distinct signers, and every authorization of a picked operation matched by signer and delegate. */
  ghost predicate AuthsConsistent(s: Setting, p: Packing) {
    && DistinctSigners(s.c.signerOf, p.auths)
    && forall k, t | k in p.picked && k < |s.entries| && t in s.entries[k].op.authorizations ::
         Covers(s.c.signerOf, p.auths, t)
  }

  /** The tuple comes from a picked operation. */
  ghost predicate Owned(s: Setting, p: Packing, t: Authorization) {
    exists k <- p.picked :: k < |s.entries| && t in s.entries[k].op.authorizations
  }

  lemma MergeConsistent(s: Setting, i: nat, p: Packing, p': Packing)
    requires i < |s.entries| && AuthsConsistent(s, p)
    requires var (ok, auths) := MergedAuthorizations(s.c.signerOf, s.entries[i].op.authorizations, p.auths);
             p'.auths == auths && p'.picked == if ok then p.picked + [i] else p.picked
    ensures AuthsConsistent(s, p')
    ensures |s.entries[i].op.authorizations| <= 1 && AllOwned(s, p) ==> AllOwned(s, p')
  {
    var more := s.entries[i].op.authorizations;
    MergeKeepsAuths(s.c.signerOf, more, p.auths);
    forall k, t | k in p'.picked && k < |s.entries| && t in s.entries[k].op.authorizations
      ensures Covers(s.c.signerOf, p'.auths, t)
    {
      if k in p.picked {
        CoversMonotone(s.c.signerOf, p.auths, p'.auths, t);
      }
    }
    if |more| <= 1 && AllOwned(s, p) {
      forall t | t in p'.auths
        ensures Owned(s, p', t)
      {
        if t in p.auths {
          var k :| k in p.picked && k < |s.entries| && t in s.entries[k].op.authorizations;
          assert k in p'.picked;
        } else {
          assert i in p'.picked;
        }
      }
    }
  }

  ghost predicate AllOwned(s: Setting, p: Packing) {
    forall t <- p.auths :: Owned(s, p, t)
  }

  lemma MovedAuths(s: Setting, i: nat, p: Packing, p': Packing)
    requires Moved(s, i, p, p') && AuthsConsistent(s, p)
    ensures AuthsConsistent(s, p')
    ensures |s.entries[i].op.authorizations| <= 1 && AllOwned(s, p) ==> AllOwned(s, p')
  {
    if p.picked == p'.picked && p.auths == p'.auths {
      assert forall t :: Owned(s, p, t) ==> Owned(s, p', t);
    } else {
      MergeConsistent(s, i, p, p');
    }
  }

  lemma {:induction false} PathAuths(s: Setting, path: seq<Packing>)
    requires Path(s, path)
    ensures AuthsConsistent(s, Last(path))
    ensures (forall e <- s.entries :: |e.op.authorizations| <= 1) ==> AllOwned(s, Last(path))
  {
    if |path| != 1 {
      PathAuths(s, path[..|path| - 1]);
      MovedAuths(s, |path| - 2, path[|path| - 2], path[|path| - 1]);
      assert s.entries[|path| - 2] in s.entries;
    }
  }

  /**
   * A refused merge stops at a tuple that conflicts with the list and keeps those that came before it; the list
   * changes when one of them had a new signer.
   */
  lemma {:induction false} RefusedMergeKeepsTuples(signerOf: Authorization -> Address, more: seq<Authorization>,
                                                   auths: seq<Authorization>)
    returns (n: nat)
    requires !MergedAuthorizations(signerOf, more, auths).0
    ensures n < |more|
    ensures MergedAuthorizations(signerOf, more[..n], auths) == (true, MergedAuthorizations(signerOf, more, auths).1)
    ensures auths <= MergedAuthorizations(signerOf, more, auths).1
    ensures exists u <- MergedAuthorizations(signerOf, more, auths).1 ::
              signerOf(u) == signerOf(more[n]) && u.delegate != more[n].delegate
    ensures MergedAuthorizations(signerOf, more, auths).1 == auths
       <==> forall t <- more[..n] :: FindSigner(signerOf, auths, signerOf(t)).Some?
    decreases more
  {
    match FindSigner(signerOf, auths, signerOf(more[0]))
    case None =>
      var m := RefusedMergeKeepsTuples(signerOf, more[1..], auths + [more[0]]);
      n := m + 1;
      assert more[..n][1..] == more[1..][..m] && more[..n][0] == more[0];
    case Some(k) =>
      if auths[k].delegate != more[0].delegate {
        n := 0;
        assert auths[k] in auths;
      } else {
        var m := RefusedMergeKeepsTuples(signerOf, more[1..], auths);
        n := m + 1;
        assert more[..n][1..] == more[1..][..m] && more[..n][0] == more[0];
        assert more[..n] == [more[0]] + more[1..][..m];
      }
  }

  // ---- The storage the bundle depends on ----

  predicate EntryCovers(x: StorageEntry, y: StorageEntry) {
    x.Root? || (y.Slots? && y.slots.Keys <= x.slots.Keys)
  }

  /** Every dependency the small map names, the large one names too, slot by slot or by its root. */
  ghost predicate StorageCovers(large: StorageMap, small: StorageMap) {
    forall a <- small.Keys :: a in large && EntryCovers(large[a], small[a])
  }

  lemma JoinedStorage(s: Setting, i: nat, p: Packing, m: StorageMap)
    requires i < |s.entries|
    ensures var storage := Merged(Rooted(s, i, p.storage), m);
            && StorageCovers(storage, m) && StorageCovers(storage, p.storage)
            && (AccountRooted(s, i) ==> s.entries[i].op.sender in storage && storage[s.entries[i].op.sender].Root?)
  {
  }

  ghost predicate StorageServes(s: Setting, p: Packing, k: nat)
    requires k < |s.entries|
  {
    && (VerdictAt(s, k).Valid? ==> StorageCovers(p.storage, VerdictAt(s, k).storageMap))
    && (AccountRooted(s, k) ==> s.entries[k].op.sender in p.storage && p.storage[s.entries[k].op.sender].Root?)
  }

  ghost predicate AllServed(s: Setting, p: Packing) {
    forall k | k in p.picked && k < |s.entries| :: StorageServes(s, p, k)
  }

  lemma MovedStorage(s: Setting, i: nat, p: Packing, p': Packing)
    requires Moved(s, i, p, p') && AllServed(s, p)
    ensures AllServed(s, p')
  {
    if p'.storage != p.storage || p'.picked != p.picked {
      JoinedStorage(s, i, p, VerdictAt(s, i).storageMap);
      forall k | k in p'.picked && k < |s.entries|
        ensures StorageServes(s, p', k)
      {
        if k in p.picked {
          ServesWiden(s, p, p', k);
        }
      }
    } else {
      forall k | k in p'.picked && k < |s.entries|
        ensures StorageServes(s, p', k)
      {
        assert StorageServes(s, p, k);
      }
    }
  }

  lemma ServesWiden(s: Setting, p: Packing, p': Packing, k: nat)
    requires k < |s.entries| && StorageServes(s, p, k) && StorageCovers(p'.storage, p.storage)
    ensures StorageServes(s, p', k)
  {
  }

  lemma {:induction false} PathStorage(s: Setting, path: seq<Packing>)
    requires Path(s, path)
    ensures AllServed(s, Last(path))
  {
    if |path| != 1 {
      PathStorage(s, path[..|path| - 1]);
      MovedStorage(s, |path| - 2, path[|path| - 2], path[|path| - 1]);
    }
  }

  // ---- The theorems about a finished bundle ----

  /**
   * The storage map sent along covers what every bundled operation's validation accessed, and where account roots
   * are asked for it carries one for each bundled sender that exists.
   */
  lemma BundleStorageCovers(c: Config, q: Limits, w: World, env: nat -> Await, k: nat)
    requires R.ValidConfig(c.rep) && Created(c, q, w, env).Built? && k in Created(c, q, w, env).packing.picked
    ensures var s, p := SettingOf(c, q, w, env), Created(c, q, w, env).packing;
            && k < |s.entries| && VerdictAt(s, k).Valid?
            && StorageCovers(p.storage, VerdictAt(s, k).storageMap)
            && (AccountRooted(s, k) ==> s.entries[k].op.sender in p.storage && p.storage[s.entries[k].op.sender].Root?)
  {
    var s, p := SettingOf(c, q, w, env), Created(c, q, w, env).packing;
    var path := CreatedPath(c, q, w, env);
    PathPicks(s, path);
    PathStorage(s, path);
    var x :| 0 <= x < |p.picked| && p.picked[x] == k;
    assert StorageServes(s, p, p.picked[x]);
  }

  /**
   * Each bundled operation passed (or skipped) validation and pays the requested base fee; they keep the ascending
   * order of the snapshot, and no sender occurs twice.
   */
  lemma BundleIsSelection(c: Config, q: Limits, w: World, env: nat -> Await, x: nat)
    requires R.ValidConfig(c.rep) && Created(c, q, w, env).Built?
    requires x < |Created(c, q, w, env).packing.picked|
    ensures var s, p := SettingOf(c, q, w, env), Created(c, q, w, env).packing;
            && p.picked[x] < |s.entries| && s.entries[p.picked[x]] in w.pool.entries
            && VerdictAt(s, p.picked[x]).Valid?
            && (q.minBaseFee != 0 ==> q.minBaseFee <= s.entries[p.picked[x]].op.maxFeePerGas)
            && forall y | x < y < |p.picked| ::
                 && p.picked[x] < p.picked[y] < |s.entries|
                 && s.entries[p.picked[x]].op.sender != s.entries[p.picked[y]].op.sender
                 && Cost(s.entries[p.picked[x]]) <= Cost(s.entries[p.picked[y]])
  {
    var path := CreatedPath(c, q, w, env);
    PathPicks(SettingOf(c, q, w, env), path);
    SortByCostSorts(w.pool.entries, 0);
    SnapshotMembers(w.pool.entries);
  }

  /** The gas of the bundle is at most the configured cap, and strictly below a nonzero requested one. */
  lemma BundleGasBudget(c: Config, q: Limits, w: World, env: nat -> Await)
    requires R.ValidConfig(c.rep) && Created(c, q, w, env).Built?
    ensures var gas := GasSum(SettingOf(c, q, w, env), Created(c, q, w, env).packing.picked);
            gas <= c.maxBundleGas && (q.maxBundleGas != 0 ==> gas < q.maxBundleGas)
  {
    var path := CreatedPath(c, q, w, env);
    PathGas(SettingOf(c, q, w, env), path);
  }

  /**
   * The prefunds a paymaster owes in the bundle sum to at most its balance as fetched at its first use, by the turn
   * of the attempt that fetched it, even when operations were dropped after being charged.
   */
  lemma BundleDepositBudget(c: Config, q: Limits, w: World, env: nat -> Await, pm: Address)
    requires R.ValidConfig(c.rep) && Created(c, q, w, env).Built? && Chargeable(Some(pm))
    ensures var s, p := SettingOf(c, q, w, env), Created(c, q, w, env).packing;
            PrefundSum(s, p.picked, pm) == 0
            || exists j: nat ::
                 FetchedAt(CreatedHistory(c, q, w, env), pm, j) && PrefundSum(s, p.picked, pm) <= s.env(j).balance
  {
    var path := CreatedPath(c, q, w, env);
    PathCovers(SettingOf(c, q, w, env), path, pm);
  }

  /** The balance of a paymaster is fetched by one turn only. */
  lemma {:induction false} FetchedOnce(s: Setting, path: seq<Packing>, pm: Address, j: nat, k: nat)
    requires Path(s, path) && FetchedAt(path, pm, j) && j <= k < |path| - 1
    ensures pm in path[k + 1].deposits && (FetchedAt(path, pm, k) ==> j == k)
  {
    if j < k {
      FetchedOnce(s, path, pm, j, k - 1);
      PathMoves(s, path, k);
    }
  }

  lemma {:induction false} PathMoves(s: Setting, path: seq<Packing>, k: nat)
    requires Path(s, path) && k + 1 < |path|
    ensures Moved(s, k, path[k], path[k + 1])
  {
    if k + 2 < |path| {
      PathMoves(s, path[..|path| - 1], k);
    }
  }

  /** The shared authorization list has one tuple per signer and serves every bundled operation. */
  lemma BundleAuthorizations(c: Config, q: Limits, w: World, env: nat -> Await)
    requires R.ValidConfig(c.rep) && Created(c, q, w, env).Built?
    ensures AuthsConsistent(SettingOf(c, q, w, env), Created(c, q, w, env).packing)
    ensures (forall e <- w.pool.entries :: |e.op.authorizations| <= 1) ==>
              AllOwned(SettingOf(c, q, w, env), Created(c, q, w, env).packing)
  {
    var s := SettingOf(c, q, w, env);
    var path := CreatedPath(c, q, w, env);
    PathAuths(s, path);
    SnapshotMembers(w.pool.entries);
  }

  lemma SnapshotMembers(entries: seq<MempoolEntry>)
    ensures forall e :: e in SortByCost(entries) <==> e in entries
  {
    SortByCostSorts(entries, 0);
    forall e
      ensures e in SortByCost(entries) <==> e in entries
    {
      assert e in multiset(SortByCost(entries)) <==> e in multiset(entries);
    }
  }

  /** No bundled operation's storage map names the sender of another operation in the bundle. */
  lemma BundleIsolation(c: Config, q: Limits, w: World, env: nat -> Await, k: nat, l: nat)
    requires R.ValidConfig(c.rep) && Created(c, q, w, env).Built?
    requires var p := Created(c, q, w, env).packing; k in p.picked && l in p.picked && k != l
    ensures var s := SettingOf(c, q, w, env);
            && k < |s.entries| && l < |s.entries| && VerdictAt(s, k).Valid?
            && s.entries[l].op.sender !in VerdictAt(s, k).storageMap
  {
    var s, p := SettingOf(c, q, w, env), Created(c, q, w, env).packing;
    var path := CreatedPath(c, q, w, env);
    PathPicks(s, path);
    PathIsolated(s, path);
    SnapshotMembers(w.pool.entries);
    assert s.entries[l] in s.entries;
    assert s.entries[l].op.sender in s.known;
    var x :| 0 <= x < |p.picked| && p.picked[x] == k;
    var y :| 0 <= y < |p.picked| && p.picked[y] == l;
    assert s.entries[k].op.sender != s.entries[l].op.sender;
  }

  /** The size limit is compared with the mempool, not with the bundle: a mempool that large yields nothing at all. */
  lemma SizeLimitEmptiesBundle(c: Config, q: Limits, w: World, env: nat -> Await)
    requires R.ValidConfig(c.rep) && q.maxBundleSize != 0
    ensures q.maxBundleSize <= |w.pool.entries| ==> Created(c, q, w, env) == Built(EMPTY_PACKING, [])
    ensures Created(c, q, w, env).Built? ==>
              |Created(c, q, w, env).packing.picked| < q.maxBundleSize
  {
    SortByCostSorts(w.pool.entries, 0);
    assert |SortByCost(w.pool.entries)| == |multiset(SortByCost(w.pool.entries))| == |w.pool.entries|;
    if Created(c, q, w, env).Built? {
      var path := CreatedPath(c, q, w, env);
      PathPicks(SettingOf(c, q, w, env), path);
    }
  }
}
