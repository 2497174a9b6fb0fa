/** What a bundle must contain: nothing is dropped without a reason. */
module BundleCompleteness {
  import opened Basics
  import opened UserOperations
  import opened StorageMaps
  import opened Mempool
  import opened Bundling
  import opened BundlingTheorems
  import R = Reputation

  // ---- A calm attempt ----

  /** Entry k is in good standing, its validation passes, and nothing happens while it is considered. */
  ghost predicate Healthy(s: Setting, w: World, k: nat)
    requires ValidSetting(s) && k < |s.entries|
  {
    var op, v := s.entries[k].op, VerdictAt(s, k);
    && R.StatusOf(s.c.rep, w.rep, op.paymaster) == R.OK && R.StatusOf(s.c.rep, w.rep, op.factory) == R.OK
    && (s.q.minBaseFee != 0 ==> s.q.minBaseFee <= op.maxFeePerGas)
    && v.Valid? && v.prefund.Some? && (forall a <- v.storageMap.Keys :: a == op.sender || a !in s.known)
    && (s.entries[k].skipValidation || s.env(k).validating == []) && s.env(k).settling == []
  }

  function GasUpTo(s: Setting, n: nat): nat
    requires n <= |s.entries|
  {
    if n == 0 then 0
    else
      var v := VerdictAt(s, n - 1);
      GasUpTo(s, n - 1) + s.entries[n - 1].op.callGasLimit + (if v.Valid? then v.preOpGas else 0)
  }

  function PrefundUpTo(s: Setting, n: nat, pm: Address): nat
    requires n <= |s.entries|
  {
    if n == 0 then 0
    else
      var v := VerdictAt(s, n - 1);
      PrefundUpTo(s, n - 1, pm)
      + (if s.entries[n - 1].op.paymaster == Some(pm) && v.Valid? then OrZero(v.prefund) else 0)
  }

  predicate HasTuple(s: Setting, t: Authorization) {
    exists e <- s.entries :: t in e.op.authorizations
  }

  /** No two tuples of the snapshot let one signer delegate to different addresses. */
  ghost predicate TuplesAgree(s: Setting) {
    forall t, u | HasTuple(s, t) && HasTuple(s, u) && s.c.signerOf(t) == s.c.signerOf(u) :: t.delegate == u.delegate
  }

  /** The limits leave room for the whole snapshot, and so do the paymasters' balances. */
  ghost predicate Ample(s: Setting) {
    var n := |s.entries|;
    && (s.q.maxBundleSize != 0 ==> n < s.q.maxBundleSize)
    && GasUpTo(s, n) <= s.c.maxBundleGas && (s.q.maxBundleGas != 0 ==> GasUpTo(s, n) < s.q.maxBundleGas)
    && forall pm, j: nat | j < n :: PrefundUpTo(s, n, pm) <= s.env(j).balance
  }

  ghost predicate Calm(s: Setting, w: World) {
    && ValidSetting(s) && Ample(s) && TuplesAgree(s)
    && forall k: nat | k < |s.entries| :: Healthy(s, w, k)
  }

  /** No entry before position k has the same sender. */
  predicate FirstOfSender(entries: seq<MempoolEntry>, k: nat)
    requires k < |entries|
  {
    entries[k].op.sender !in Senders(entries[..k])
  }

  // ---- The loop on a calm snapshot ----

  lemma {:induction false} SumsGrow(s: Setting, m: nat, n: nat, pm: Address)
    requires m <= n <= |s.entries|
    ensures GasUpTo(s, m) <= GasUpTo(s, n) && PrefundUpTo(s, m, pm) <= PrefundUpTo(s, n, pm)
  {
    if m < n {
      SumsGrow(s, m, n - 1, pm);
    }
  }

  /** Tuples that agree merge, and the list then holds nothing else. */
  lemma {:induction false} AgreeingMerge(s: Setting, more: seq<Authorization>, auths: seq<Authorization>)
    requires TuplesAgree(s) && (forall t <- more :: HasTuple(s, t)) && (forall t <- auths :: HasTuple(s, t))
    ensures var (ok, merged) := MergedAuthorizations(s.c.signerOf, more, auths);
            ok && forall t <- merged :: HasTuple(s, t)
    decreases more
  {
    if more != [] {
      match FindSigner(s.c.signerOf, auths, s.c.signerOf(more[0]))
      case None => AgreeingMerge(s, more[1..], auths + [more[0]]);
      case Some(k) =>
        assert auths[k] in auths && more[0] in more;
        AgreeingMerge(s, more[1..], auths);
    }
  }

  /** Before turn i: the sums so far bound what was used, and exactly the first operation of each sender is picked. */
  ghost predicate Progress(s: Setting, i: nat, p: Packing)
    requires i <= |s.entries|
  {
    && p.totalGas <= GasUpTo(s, i)
    && (forall pm <- p.deposits.Keys :: PrefundUpTo(s, |s.entries|, pm) <= p.deposits[pm] + PrefundUpTo(s, i, pm))
    && (forall t <- p.auths :: HasTuple(s, t))
    && p.senders == Senders(s.entries[..i])
    && (forall k | 0 <= k < |s.entries| :: k in p.picked <==> k < i && FirstOfSender(s.entries, k))
  }

  lemma NextSenders(entries: seq<MempoolEntry>, i: nat)
    requires i < |entries|
    ensures Senders(entries[..i + 1]) == Senders(entries[..i]) + {entries[i].op.sender}
  {
    assert entries[..i + 1] == entries[..i] + [entries[i]];
  }

  /** What a payer has left covers its prefund. */
  lemma DepositSuffices(s: Setting, w: World, i: nat, p: Packing, pm: Address)
    requires Calm(s, w) && i < |s.entries| && Healthy(s, w, i) && Progress(s, i, p)
         && s.entries[i].op.paymaster == Some(pm)
    ensures VerdictAt(s, i).prefund.value <= Available(s, i, p, pm)
    ensures PrefundUpTo(s, |s.entries|, pm)
         <= Available(s, i, p, pm) - VerdictAt(s, i).prefund.value + PrefundUpTo(s, i + 1, pm)
  {
    SumsGrow(s, i + 1, |s.entries|, pm);
    if pm !in p.deposits {
      assert PrefundUpTo(s, |s.entries|, pm) <= s.env(i).balance;
    }
  }

  lemma GasSuffices(s: Setting, w: World, i: nat, p: Packing)
    requires Calm(s, w) && i < |s.entries| && Healthy(s, w, i) && Progress(s, i, p)
    ensures var newTotalGas := p.totalGas + VerdictAt(s, i).preOpGas + s.entries[i].op.callGasLimit;
            && newTotalGas <= GasUpTo(s, i + 1) && newTotalGas <= s.c.maxBundleGas
            && (s.q.maxBundleGas != 0 ==> newTotalGas < s.q.maxBundleGas)
  {
    SumsGrow(s, i + 1, |s.entries|, []);
  }

  lemma CalmMayJoin(s: Setting, w: World, i: nat, p: Packing)
    requires Calm(s, w) && i < |s.entries| && Healthy(s, w, i) && Progress(s, i, p) && FirstOfSender(s.entries, i)
    ensures MayJoin(s, i, p)
  {
    GasSuffices(s, w, i, p);
    var payer := s.entries[i].op.paymaster;
    if Chargeable(payer) {
      DepositSuffices(s, w, i, p, payer.value);
    }
  }

  /** An entry that may join does so unless its authorizations conflict. */
  lemma PackJoins(s: Setting, i: nat, p: Packing)
    requires i < |s.entries| && MayJoin(s, i, p)
         && MergedAuthorizations(s.c.signerOf, s.entries[i].op.authorizations, p.auths).0
    ensures var t := Pack(s.c, s.q, s.known, s.entries[i].op, i, s.env(i), p, VerdictAt(s, i), []);
            && t.Next? && t.events == s.env(i).settling && Joined(s, i, p, t.packing)
            && t.packing.picked == p.picked + [i]
  {
    hide Merged, MergedAuthorizations;
  }

  lemma CalmMerge(s: Setting, w: World, i: nat, p: Packing)
    requires Calm(s, w) && i < |s.entries| && Progress(s, i, p)
    ensures var (ok, merged) := MergedAuthorizations(s.c.signerOf, s.entries[i].op.authorizations, p.auths);
            ok && forall t <- merged :: HasTuple(s, t)
  {
    assert s.entries[i] in s.entries;
    AgreeingMerge(s, s.entries[i].op.authorizations, p.auths);
  }

  lemma CalmTurn(s: Setting, w: World, i: nat, p: Packing)
    requires Calm(s, w) && i < |s.entries| && Progress(s, i, p)
    ensures var t := Consider(s.c, s.q, s.known, |s.entries|, s.entries[i], i, s.env(i), p, w);
            t.Next? && t.events == [] && Progress(s, i + 1, t.packing)
  {
    hide Pack, GasUpTo, PrefundUpTo;
    assert Healthy(s, w, i);
    NextSenders(s.entries, i);
    KeptProgress(s, i, p);
    if FirstOfSender(s.entries, i) {
      CalmMayJoin(s, w, i, p);
      CalmMerge(s, w, i, p);
      PackJoins(s, i, p);
      JoinedProgress(s, w, i, p, Pack(s.c, s.q, s.known, s.entries[i].op, i, s.env(i), p, VerdictAt(s, i), []).packing);
    }
  }

  lemma KeptProgress(s: Setting, i: nat, p: Packing)
    requires i < |s.entries| && Progress(s, i, p)
    ensures !FirstOfSender(s.entries, i) ==> Progress(s, i + 1, p)
  {
    NextSenders(s.entries, i);
    SumsGrow(s, i, i + 1, []);
    forall pm | pm in p.deposits
      ensures PrefundUpTo(s, |s.entries|, pm) <= p.deposits[pm] + PrefundUpTo(s, i + 1, pm)
    {
      SumsGrow(s, i, i + 1, pm);
    }
  }

  lemma JoinedProgress(s: Setting, w: World, i: nat, p: Packing, p': Packing)
    requires Calm(s, w) && i < |s.entries| && Healthy(s, w, i) && Progress(s, i, p) && FirstOfSender(s.entries, i)
    requires MayJoin(s, i, p) && Joined(s, i, p, p') && p'.picked == p.picked + [i]
    ensures Progress(s, i + 1, p')
  {
    CalmMerge(s, w, i, p);
    hide Merged, MergedAuthorizations;
    NextSenders(s.entries, i);
    GasSuffices(s, w, i, p);
    forall pm | pm in p'.deposits
      ensures PrefundUpTo(s, |s.entries|, pm) <= p'.deposits[pm] + PrefundUpTo(s, i + 1, pm)
    {
      SumsGrow(s, i, i + 1, pm);
      if s.entries[i].op.paymaster == Some(pm) {
        DepositSuffices(s, w, i, p, pm);
      }
    }
  }

  lemma {:induction false} CalmPackFrom(s: Setting, w: World, i: nat, p: Packing)
    requires Calm(s, w) && i <= |s.entries| && Progress(s, i, p)
    ensures var t := PackFrom(s.c, s.q, s.known, s.entries, s.env, i, p, w);
            t.Built? && t.events == [] && Progress(s, |s.entries|, t.packing)
    decreases |s.entries| - i
  {
    hide Consider, Progress, Calm;
    if i < |s.entries| {
      assert ValidSetting(s) by { CalmIsValid(s, w); }
      CalmTurn(s, w, i, p);
      CalmPackFrom(s, w, i + 1, Consider(s.c, s.q, s.known, |s.entries|, s.entries[i], i, s.env(i), p, w).packing);
    }
  }

  lemma CalmIsValid(s: Setting, w: World)
    requires Calm(s, w)
    ensures ValidSetting(s)
  {
  }

  /**
   * When every entry is healthy and the limits are ample, the bundle serves every sender of the mempool: an entry is
   * bundled exactly when it is the first of its sender in the order of inclusion, and the mempool is left alone.
   */
  lemma CalmBundleServesEverySender(c: Config, q: Limits, w: World, env: nat -> Await, k: nat)
    requires Calm(SettingOf(c, q, w, env), w) && k < |SortByCost(w.pool.entries)|
    ensures Created(c, q, w, env).Built? && Created(c, q, w, env).events == []
    ensures k in Created(c, q, w, env).packing.picked <==> FirstOfSender(SortByCost(w.pool.entries), k)
  {
    var s := SettingOf(c, q, w, env);
    assert Progress(s, 0, EMPTY_PACKING);
    CalmPackFrom(s, w, 0, EMPTY_PACKING);
  }
}
