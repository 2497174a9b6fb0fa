/** Reputation scores of the entities named by user operations. */
module Reputation {
  import opened Basics

  const BAN_OPS_SEEN_PENALTY: nat := 10000
  const SAME_SENDER_MEMPOOL_COUNT: nat := 4
  const SAME_UNSTAKED_ENTITY_MEMPOOL_COUNT: nat := 10
  const INCLUSION_RATE_FACTOR: nat := 10

  datatype Status = OK | THROTTLED | BANNED

  datatype Title = Account | Paymaster | Aggregator | Deployer

  datatype Params = Params(minInclusionDenominator: nat, throttlingSlack: nat, banSlack: nat)

  const BUNDLER_PARAMS := Params(10, 10, 50)
  const NON_BUNDLER_PARAMS := Params(100, 10, 10)

  datatype Config = Config(
    params: Params,
    whitelist: set<Address>,
    blackList: set<Address>,
    minStake: nat,
    minUnstakeDelay: nat)

  predicate ValidConfig(c: Config) {
    0 < c.params.minInclusionDenominator
  }

  datatype Entry = Entry(opsSeen: nat, opsIncluded: nat)

  type Entries = map<Address, Entry>

  datatype StakeInfo = StakeInfo(addr: Address, stake: nat, unstakeDelaySec: nat)

  datatype ReputationError =
    | IsBanned(title: Title, addr: Address)
    | IsThrottled(title: Title, addr: Address)
    | InsufficientStake(title: Title, addr: Address)
    | InsufficientDelay(title: Title, addr: Address)

  datatype Check = Pass | Fail(error: ReputationError) {
    predicate IsFailure() {
      Fail?
    }

    function PropagateFailure(): Check
      requires Fail?
    {
      this
    }
  }

  // ---- The meaning of each operation, on the score table ----

  function Score(entries: Entries, a: Address): Entry {
    if a in entries then entries[a] else Entry(0, 0)
  }

  function AfterSeen(entries: Entries, a: Option<Address>, val: int): Entries {
    match a
    case None => entries
    case Some(addr) =>
      var e := Score(entries, addr);
      entries[addr := e.(opsSeen := Max(0, e.opsSeen + val))]
  }

  function AfterIncluded(entries: Entries, a: Address): Entries {
    var e := Score(entries, a);
    entries[a := e.(opsIncluded := e.opsIncluded + 1)]
  }

  function AfterCrash(entries: Entries, a: Option<Address>): Entries {
    match a
    case None => entries
    case Some(addr) =>
      entries[addr := Entry(Score(entries, addr).opsSeen + BAN_OPS_SEEN_PENALTY, 0)]
  }

  function Decayed(n: nat): nat {
    n * 23 / 24
  }

  /** The included count decays from the seen count, not from itself. */
  function DecayedEntry(e: Entry): Entry {
    Entry(Decayed(e.opsSeen), Decayed(Decayed(e.opsSeen)))
  }

  function AfterCron(entries: Entries): Entries {
    map a | a in entries && DecayedEntry(entries[a]) != Entry(0, 0) :: DecayedEntry(entries[a])
  }

  function StatusOf(c: Config, entries: Entries, a: Option<Address>): Status
    requires ValidConfig(c)
  {
    match a
    case None => OK
    case Some(addr) =>
      if addr in c.whitelist then OK
      else if addr in c.blackList then BANNED
      else if addr !in entries then OK
      else EntryStatus(c.params, entries[addr])
  }

  function EntryStatus(p: Params, e: Entry): Status
    requires 0 < p.minInclusionDenominator
  {
    var minExpectedIncluded := e.opsSeen / p.minInclusionDenominator;
    if minExpectedIncluded <= e.opsIncluded + p.throttlingSlack then OK
    else if minExpectedIncluded <= e.opsIncluded + p.banSlack then THROTTLED
    else BANNED
  }

  function StakeCheck(c: Config, entries: Entries, title: Title, info: StakeInfo): Check
    requires ValidConfig(c)
  {
    if info.addr in c.whitelist then Pass
    else if StatusOf(c, entries, Some(info.addr)) == BANNED then Fail(IsBanned(title, info.addr))
    else if info.stake < c.minStake then Fail(InsufficientStake(title, info.addr))
    else if info.unstakeDelaySec < c.minUnstakeDelay then Fail(InsufficientDelay(title, info.addr))
    else Pass
  }

  function MaxMempoolOpsUnstaked(entries: Entries, title: Title, a: Address): nat {
    if title == Account then SAME_SENDER_MEMPOOL_COUNT
    else if a !in entries then SAME_UNSTAKED_ENTITY_MEMPOOL_COUNT
    else
      var e := entries[a];
      var rate := if e.opsSeen == 0 then 0 else e.opsIncluded * INCLUSION_RATE_FACTOR / e.opsSeen;
      SAME_UNSTAKED_ENTITY_MEMPOOL_COUNT + rate + Min(e.opsIncluded, 10000)
  }

  // ---- The manager itself ----

  class ReputationManager {
    const config: Config
    var entries: Entries

    constructor (config: Config)
      ensures this.config == config && entries == map[]
    {
      this.config := config;
      entries := map[];
    }

    method GetOrCreate(a: Address) returns (e: Entry)
      modifies this`entries
      ensures e == Score(old(entries), a)
      ensures entries == old(entries)[a := e]
    {
      if a !in entries {
        entries := entries[a := Entry(0, 0)];
      }
      e := entries[a];
    }

    method UpdateSeenStatus(a: Option<Address>, val: int)
      modifies this`entries
      ensures entries == AfterSeen(old(entries), a, val)
    {
      if a.None? {
        return;
      }
      var e := GetOrCreate(a.value);
      entries := entries[a.value := e.(opsSeen := Max(0, e.opsSeen + val))];
    }

    method UpdateIncludedStatus(a: Address)
      modifies this`entries
      ensures entries == AfterIncluded(old(entries), a)
    {
      var e := GetOrCreate(a);
      entries := entries[a := e.(opsIncluded := e.opsIncluded + 1)];
    }

    method CrashedHandleOps(a: Option<Address>)
      modifies this`entries
      ensures entries == AfterCrash(old(entries), a)
    {
      if a.None? {
        return;
      }
      var e := GetOrCreate(a.value);
      e := e.(opsSeen := e.opsSeen + BAN_OPS_SEEN_PENALTY);
      e := e.(opsIncluded := 0);
      entries := entries[a.value := e];
    }

    /** Visits the addresses in whatever order the dictionary yields them. */
    method HourlyCron()
      modifies this`entries
      ensures entries == AfterCron(old(entries))
    {
      var pending := entries.Keys;
      while pending != {}
        invariant pending <= old(entries).Keys
        invariant pending <= entries.Keys <= old(entries).Keys
        invariant forall a <- pending :: entries[a] == old(entries)[a]
        invariant forall a <- old(entries).Keys - pending ::
          var e := DecayedEntry(old(entries)[a]);
          (a in entries <==> e != Entry(0, 0)) && (a in entries ==> entries[a] == e)
        decreases pending
      {
        var a :| a in pending;
        var seen := Decayed(entries[a].opsSeen);
        var e := Entry(seen, Decayed(seen));
        entries := entries[a := e];
        if e.opsIncluded == 0 && e.opsSeen == 0 {
          entries := entries - {a};
        }
        pending := pending - {a};
      }
    }

    function GetStatus(a: Option<Address>): (s: Status)
      requires ValidConfig(config)
      reads this`entries
    {
      StatusOf(config, entries, a)
    }

    function CheckBanned(title: Title, info: StakeInfo): Check
      requires ValidConfig(config)
      reads this`entries
    {
      if GetStatus(Some(info.addr)) == BANNED then Fail(IsBanned(title, info.addr)) else Pass
    }

    function CheckThrottled(title: Title, info: StakeInfo): Check
      requires ValidConfig(config)
      reads this`entries
    {
      if GetStatus(Some(info.addr)) == THROTTLED then Fail(IsThrottled(title, info.addr)) else Pass
    }

    function CheckStake(title: Title, info: StakeInfo): Check
      requires ValidConfig(config)
      reads this`entries
    {
      StakeCheck(config, entries, title, info)
    }
  }

  // ---- Scores over whole runs ----

  /** A change of the score of one address, as other traffic produces it. */
  datatype ScoreEvent = SeenUp(addr: Address) | SeenDown(addr: Address) | IncludedUp(addr: Address)

  function ApplyScoreEvent(entries: Entries, ev: ScoreEvent): Entries {
    match ev
    case SeenUp(a) => AfterSeen(entries, Some(a), 1)
    case SeenDown(a) => AfterSeen(entries, Some(a), -1)
    case IncludedUp(a) => AfterIncluded(entries, a)
  }

  function ApplyScoreEvents(entries: Entries, evs: seq<ScoreEvent>): Entries
    decreases evs
  {
    if evs == [] then entries
    else ApplyScoreEvents(ApplyScoreEvent(entries, evs[0]), evs[1..])
  }

  function Downs(evs: seq<ScoreEvent>, a: Address): nat {
    if evs == [] then 0
    else (if evs[0] == SeenDown(a) then 1 else 0) + Downs(evs[1..], a)
  }

  function Inclusions(evs: seq<ScoreEvent>, a: Address): nat {
    if evs == [] then 0
    else (if evs[0] == IncludedUp(a) then 1 else 0) + Inclusions(evs[1..], a)
  }

  /** Along a run, the seen count loses at most the decrements and the included count gains exactly the inclusions. */
  lemma {:induction false} ScoreBounds(entries: Entries, evs: seq<ScoreEvent>, a: Address)
    ensures Score(ApplyScoreEvents(entries, evs), a).opsSeen >= Score(entries, a).opsSeen - Downs(evs, a)
    ensures Score(ApplyScoreEvents(entries, evs), a).opsIncluded
         == Score(entries, a).opsIncluded + Inclusions(evs, a)
    decreases evs
  {
    if evs != [] {
      ScoreBounds(ApplyScoreEvent(entries, evs[0]), evs[1..], a);
    }
  }

  /**
   * A crashed entity that is not whitelisted stays banned through any interleaving of score changes,
   * as long as decrements and inclusions leave the expected inclusions above the slack.
   */
  lemma CrashedStaysBanned(c: Config, entries: Entries, a: Address, evs: seq<ScoreEvent>)
    requires ValidConfig(c) && a !in c.whitelist
    requires Downs(evs, a) <= BAN_OPS_SEEN_PENALTY
    requires (BAN_OPS_SEEN_PENALTY - Downs(evs, a)) / c.params.minInclusionDenominator
             > Inclusions(evs, a) + Max(c.params.banSlack, c.params.throttlingSlack)
    ensures StatusOf(c, ApplyScoreEvents(AfterCrash(entries, Some(a)), evs), Some(a)) == BANNED
  {
    var crashed := AfterCrash(entries, Some(a));
    var final := ApplyScoreEvents(crashed, evs);
    ScoreBounds(crashed, evs, a);
    DivMonotone(BAN_OPS_SEEN_PENALTY - Downs(evs, a), Score(final, a).opsSeen, c.params.minInclusionDenominator);
  }

  lemma DivMonotone(x: nat, y: nat, d: nat)
    requires x <= y && 0 < d
    ensures x / d <= y / d
  {
    DivBound(x, d, y / d + 1);
  }

  /** Below q whole divisors there are fewer than q of them. */
  lemma DivBound(x: nat, d: nat, q: nat)
    requires 0 < d
    ensures x < d * q <==> x / d < q
  {
    MulMonotone(if x / d < q then x / d + 1 else q, if x / d < q then q else x / d, d);
  }

  /** With the bundler's own parameters the bound is floor((10000 - d) / 10) > i + 50. */
  lemma CrashedStaysBannedUnderBundlerParams(c: Config, entries: Entries, a: Address, evs: seq<ScoreEvent>)
    requires c.params == BUNDLER_PARAMS && a !in c.whitelist
    requires Downs(evs, a) <= 10000 && (10000 - Downs(evs, a)) / 10 > Inclusions(evs, a) + 50
    ensures StatusOf(c, ApplyScoreEvents(AfterCrash(entries, Some(a)), evs), Some(a)) == BANNED
  {
    CrashedStaysBanned(c, entries, a, evs);
  }

  // ---- Decay ----

  function AfterTicks(entries: Entries, n: nat): Entries {
    if n == 0 then entries else AfterCron(AfterTicks(entries, n - 1))
  }

  function Pow(b: nat, n: nat): nat {
    if n == 0 then 1 else b * Pow(b, n - 1)
  }

  lemma {:induction false} DecayBound(entries: Entries, a: Address, n: nat)
    ensures Score(AfterTicks(entries, n), a).opsSeen * Pow(24, n) <= Score(entries, a).opsSeen * Pow(23, n)
  {
    if n != 0 {
      DecayBound(entries, a, n - 1);
      DecayStep(Score(AfterTicks(entries, n), a).opsSeen, Score(AfterTicks(entries, n - 1), a).opsSeen,
                Score(entries, a).opsSeen, Pow(24, n - 1), Pow(23, n - 1));
    }
  }

  lemma DecayStep(s': nat, s: nat, s0: nat, p: nat, q: nat)
    requires s' * 24 <= s * 23 && s * p <= s0 * q
    ensures s' * (24 * p) <= s0 * (23 * q)
  {
    MulMonotone(s' * 24, s * 23, p);
    assert s' * (24 * p) == (s' * 24) * p && (s * 23) * p == 23 * (s * p) && s0 * (23 * q) == 23 * (s0 * q);
  }

  lemma MulMonotone(x: nat, y: nat, k: nat)
    requires x <= y
    ensures x * k <= y * k
  {
  }

  /** Ticks alone delete every entry within as many ticks as it had sightings, and at least one. */
  lemma {:induction false} DecayDeletes(entries: Entries, a: Address, n: nat)
    requires Max(1, Score(entries, a).opsSeen) <= n
    ensures a !in AfterTicks(entries, n)
  {
    DecayByOne(entries, a, n - 1);
  }

  lemma {:induction false} DecayByOne(entries: Entries, a: Address, n: nat)
    ensures a in AfterTicks(entries, n)
         ==> Score(AfterTicks(entries, n), a).opsSeen <= Max(0, Score(entries, a).opsSeen - n)
  {
    if n != 0 {
      DecayByOne(entries, a, n - 1);
    }
  }

  /**
   * Because the included count is recomputed from the seen count, a single tick lifts every ban and every
   * throttling that the black list does not impose.
   */
  lemma CronTickClearsStatus(c: Config, entries: Entries, a: Address)
    requires 2 <= c.params.minInclusionDenominator && a !in c.blackList
    ensures StatusOf(c, AfterCron(entries), Some(a)) == OK
  {
    if a in AfterCron(entries) {
      var seen := Decayed(entries[a].opsSeen);
      HalvingBounds(seen, c.params.minInclusionDenominator);
      assert seen / 2 <= Decayed(seen);
    }
  }

  lemma HalvingBounds(x: nat, d: nat)
    requires 2 <= d
    ensures x / d <= x / 2
  {
    DivBound(x, d, x / 2 + 1);
    MulMonotone(2, d, x / 2 + 1);
  }

  // ---- The boundaries of the standings and of the allowance ----

  /**
   * An address on neither list is banned once its sightings reach the denominator times one more than its inclusions
   * and both slacks allow, throttled while only the throttling slack is used up, and in good standing below that.
   */
  lemma StandingIff(c: Config, entries: Entries, a: Address)
    requires ValidConfig(c)
    ensures var e, d := Score(entries, a), c.params.minInclusionDenominator;
            var throttled := d * (e.opsIncluded + c.params.throttlingSlack + 1);
            var banned := d * (e.opsIncluded + c.params.banSlack + 1);
            var status := StatusOf(c, entries, Some(a));
            && (status == BANNED <==>
                  a !in c.whitelist && (a in c.blackList || (throttled <= e.opsSeen && banned <= e.opsSeen)))
            && (status == THROTTLED <==> a !in c.whitelist + c.blackList && throttled <= e.opsSeen < banned)
            && (status == OK <==> a in c.whitelist || (a !in c.blackList && e.opsSeen < throttled))
  {
    var e, d := Score(entries, a), c.params.minInclusionDenominator;
    DivBound(e.opsSeen, d, e.opsIncluded + c.params.throttlingSlack + 1);
    DivBound(e.opsSeen, d, e.opsIncluded + c.params.banSlack + 1);
    if a !in entries {
      MulMonotone(1, e.opsIncluded + c.params.throttlingSlack + 1, d);
    }
  }

  /**
   * A sender may have four pending operations without a stake; another entity ten, one more for each tenth of its
   * sightings that was included, and one more for each inclusion up to ten thousand.
   */
  lemma AllowanceIs(entries: Entries, title: Title, a: Address) returns (tenths: nat)
    ensures title == Account ==> MaxMempoolOpsUnstaked(entries, title, a) == 4
    ensures title != Account ==>
              var e := Score(entries, a);
              && MaxMempoolOpsUnstaked(entries, title, a)
                 == 10 + tenths + (if e.opsIncluded <= 10000 then e.opsIncluded else 10000)
              && (e.opsSeen == 0 ==> tenths == 0)
              && (e.opsSeen != 0 ==> tenths * e.opsSeen <= 10 * e.opsIncluded < (tenths + 1) * e.opsSeen)
  {
    var e := Score(entries, a);
    tenths := if e.opsSeen == 0 then 0 else e.opsIncluded * INCLUSION_RATE_FACTOR / e.opsSeen;
  }

  /** A tick leaves 23 of 24 sightings, rounded down, and as many inclusions as another tick would leave sightings. */
  lemma TickIs(entries: Entries, a: Address)
    ensures var e, e' := Score(entries, a), Score(AfterCron(entries), a);
            && 24 * e'.opsSeen <= 23 * e.opsSeen < 24 * (e'.opsSeen + 1)
            && 24 * e'.opsIncluded <= 23 * e'.opsSeen < 24 * (e'.opsIncluded + 1)
  {
  }
}
