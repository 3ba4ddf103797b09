/** Where a cap is not what its name says, with the exact conditions under which it is: the per-block
    cap when the assessed blocks do not come in one piece each, and both caps at `u128::MAX`, which a
    saturating total can never exceed. */
module RiskCaps {
  import opened Common
  import opened RiskEngine
  import opened RiskRuns

  datatype Commitment = Commitment(bucket: U64, amount: Amount)

  /** The accepted notional of a run by block bucket. */
  function Committed(policy: RiskPolicy, events: seq<Event>): seq<Commitment> {
    if events == [] then [] else
    var earlier := Committed(policy, events[..|events| - 1]);
    if AcceptsLast(policy, events)
    then var a := events[|events| - 1].assessment; earlier + [Commitment(Bucket(a), a.opportunity.inputAmount)]
    else earlier
  }

  /** Everything committed to a bucket. */
  function BlockTotal(commitments: seq<Commitment>, bucket: U64): nat {
    if commitments == [] then 0 else
    var last := commitments[|commitments| - 1];
    BlockTotal(commitments[..|commitments| - 1], bucket) + (if last.bucket == bucket then last.amount else 0)
  }

  /** What was committed to a bucket since the last commitment to another one. */
  function StreakTotal(commitments: seq<Commitment>, bucket: U64): nat {
    if commitments == [] then 0 else
    var last := commitments[|commitments| - 1];
    if last.bucket == bucket then StreakTotal(commitments[..|commitments| - 1], bucket) + last.amount else 0
  }

  predicate ExactBlockCap(policy: RiskPolicy) {
    policy.maxPerBlockNotionalWei.Some? && policy.maxPerBlockNotionalWei.value < AMOUNT_MAX
  }

  /** Over every run, the engine's block counter is exactly the current streak, and no streak of
      accepted decisions in one bucket exceeds the cap. */
  lemma {:induction false} StreaksCapped(policy: RiskPolicy, events: seq<Event>, bucket: U64)
    requires ExactBlockCap(policy)
    ensures BlockUsed(Run(policy, events), bucket) == StreakTotal(Committed(policy, events), bucket)
    ensures StreakTotal(Committed(policy, events), bucket) <= policy.maxPerBlockNotionalWei.value
  {
    if events != [] {
      var before := events[..|events| - 1];
      StreaksCapped(policy, before, bucket);
      if AcceptsLast(policy, events) {
        StreaksCapped(policy, before, Bucket(events[|events| - 1].assessment));
      }
    }
  }

  // ----- Per-block totals -----

  /** No assessed block is left and then returned to. */
  predicate Contiguous(events: seq<Event>) {
    forall i, j, k :: 0 <= i < j < k < |events| && events[i].Assessed? && events[j].Assessed? && events[k].Assessed?
                      && Bucket(events[i].assessment) == Bucket(events[k].assessment)
                      ==> Bucket(events[j].assessment) == Bucket(events[i].assessment)
  }

  /** When the assessed blocks come in one piece each, the cap bounds the whole block. */
  lemma {:induction false} ContiguousBlocksCapped(policy: RiskPolicy, events: seq<Event>, bucket: U64)
    requires ExactBlockCap(policy) && Contiguous(events)
    ensures BlockTotal(Committed(policy, events), bucket) <= policy.maxPerBlockNotionalWei.value
  {
    if events != [] {
      var before, e := events[..|events| - 1], events[|events| - 1];
      ContiguousBlocksCapped(policy, before, bucket);
      if AcceptsLast(policy, events) && Bucket(e.assessment) == bucket {
        StreaksCapped(policy, events, bucket);
        OnlyOneStreak(policy, before, bucket);
        StreakIsTotal(Committed(policy, before), bucket);
      }
    }
  }

  predicate InBucket(e: Event, bucket: U64) {
    e.Assessed? && Bucket(e.assessment) == bucket
  }

  /** In what was committed, nothing follows `bucket` but `bucket`. */
  predicate Settled(commitments: seq<Commitment>, bucket: U64) {
    forall i, j :: 0 <= i < j < |commitments| && commitments[i].bucket == bucket ==> commitments[j].bucket == bucket
  }

  lemma {:induction false} OnlyOneStreak(policy: RiskPolicy, events: seq<Event>, bucket: U64)
    requires forall i, j :: 0 <= i < j < |events| && InBucket(events[i], bucket) && events[j].Assessed? ==>
               InBucket(events[j], bucket)
    ensures Settled(Committed(policy, events), bucket)
    ensures forall c :: c in Committed(policy, events) ==>
              exists i :: 0 <= i < |events| && InBucket(events[i], c.bucket)
  {
    if events != [] {
      var before, last := events[..|events| - 1], |events| - 1;
      OnlyOneStreak(policy, before, bucket);
      forall c | c in Committed(policy, before)
        ensures exists i :: 0 <= i < |events| && InBucket(events[i], c.bucket)
      {
        var i :| 0 <= i < |before| && InBucket(before[i], c.bucket);
        assert InBucket(events[i], c.bucket);
      }
      if AcceptsLast(policy, events) {
        assert InBucket(events[last], Bucket(events[last].assessment));
        var earlier := Committed(policy, before);
        forall i | 0 <= i < |earlier| && earlier[i].bucket == bucket
          ensures Bucket(events[last].assessment) == bucket
        {
          assert earlier[i] in earlier;
        }
      }
    }
  }

  lemma {:induction false} StreakIsTotal(commitments: seq<Commitment>, bucket: U64)
    requires Settled(commitments, bucket)
    ensures BlockTotal(commitments, bucket) ==
            if commitments != [] && commitments[|commitments| - 1].bucket == bucket
            then StreakTotal(commitments, bucket) else 0
  {
    if commitments != [] {
      StreakIsTotal(commitments[..|commitments| - 1], bucket);
    }
  }

  // ----- Policies and offers with nothing but one cap -----

  function Offers(blocks: seq<U64>, amounts: seq<Amount>): seq<Event>
    requires |blocks| == |amounts|
  {
    seq(|blocks|, i requires 0 <= i < |blocks| => Offer(blocks[i], amounts[i], 0))
  }

  predicate BlocksContiguous(blocks: seq<U64>) {
    forall i, j, k :: 0 <= i < j < k < |blocks| && blocks[i] == blocks[k] ==> blocks[j] == blocks[i]
  }

  predicate BlocksDistinct(blocks: seq<U64>) {
    forall i, k :: 0 <= i < k < |blocks| ==> blocks[i] != blocks[k]
  }

  /** What an engine with only a per-block cap commits to a bucket out of a run of offers. */
  function OfferedTotal(cap: Amount, bucket: U64, blocks: seq<U64>, amounts: seq<Amount>): nat
    requires |amounts| == |blocks|
  {
    BlockTotal(Committed(OpenPolicy(Some(cap), None), Offers(blocks, amounts)), bucket)
  }

  /** An amount for each block, none of them zero: detection reports no loop of amount zero. */
  predicate Offering(blocks: seq<U64>, amounts: seq<Amount>) {
    |amounts| == |blocks| && forall n | 0 <= n < |amounts| :: amounts[n] > 0
  }

  /** Whatever amounts are offered in these blocks, no block's total exceeds the cap. */
  ghost predicate BoundsEveryBlock(cap: Amount, blocks: seq<U64>) {
    forall amounts: seq<Amount>, bucket: U64 | Offering(blocks, amounts) ::
      OfferedTotal(cap, bucket, blocks, amounts) <= cap
  }

  /** With no other gate, the per-block cap bounds every block if and only if it is zero, or below
      `u128::MAX` with no block left and returned to, or `u128::MAX` with no block offered twice. */
  lemma PerBlockCapExactly(cap: Amount, blocks: seq<U64>)
    ensures BoundsEveryBlock(cap, blocks) <==>
            cap == 0 || (if cap < AMOUNT_MAX then BlocksContiguous(blocks) else BlocksDistinct(blocks))
  {
    if cap == 0 {
      ZeroCapBounds(blocks);
    } else if cap < AMOUNT_MAX {
      BelowMaximum(cap, blocks);
    } else if BlocksDistinct(blocks) {
      DistinctBlocksBound(blocks);
    } else {
      var i, k :| 0 <= i < k < |blocks| && blocks[i] == blocks[k];
      SaturationForgets(blocks, i, k);
    }
  }

  lemma BelowMaximum(cap: Amount, blocks: seq<U64>)
    requires 0 < cap < AMOUNT_MAX
    ensures BoundsEveryBlock(cap, blocks) <==> BlocksContiguous(blocks)
  {
    if BlocksContiguous(blocks) {
      forall amounts: seq<Amount>, bucket: U64 | Offering(blocks, amounts)
        ensures OfferedTotal(cap, bucket, blocks, amounts) <= cap
      {
        ContiguousBlocksCapped(OpenPolicy(Some(cap), None), Offers(blocks, amounts), bucket);
      }
    } else {
      var i, j, k :| 0 <= i < j < k < |blocks| && blocks[i] == blocks[k] && blocks[j] != blocks[i];
      var first := FirstOf(blocks, i, 0);
      var last := Return(blocks, first, j, k);
      ReturnExceeds(cap, blocks, first, FirstReturn(blocks, first, first + 1, last));
    }
  }

  /** The first offer in the block of `i`, from `n` on. */
  function FirstOf(blocks: seq<U64>, i: nat, n: nat): (r: nat)
    requires n <= i < |blocks| && blocks[i] !in blocks[..n]
    ensures r <= i && blocks[r] == blocks[i] && blocks[i] !in blocks[..r]
    decreases i - n
  {
    if blocks[n] == blocks[i] then n else
    assert blocks[..n + 1] == blocks[..n] + [blocks[n]];
    FirstOf(blocks, i, n + 1)
  }

  /** Block `i` is offered again at `k`, right after another one. */
  predicate Returns(blocks: seq<U64>, i: nat, k: nat) {
    i < k - 1 && k < |blocks| && blocks[k] == blocks[i] && blocks[k - 1] != blocks[i]
  }

  /** A return to block `i` between a different block at `j` and the same one at `k`. */
  function Return(blocks: seq<U64>, i: nat, j: nat, k: nat): (r: nat)
    requires i < j < k < |blocks| && blocks[k] == blocks[i] && blocks[j] != blocks[i]
    ensures Returns(blocks, i, r)
  {
    if blocks[k - 1] == blocks[i] then Return(blocks, i, j, k - 1) else k
  }

  function FirstReturn(blocks: seq<U64>, i: nat, n: nat, k: nat): (r: nat)
    requires i < n <= k && Returns(blocks, i, k) && forall m | i < m < n :: !Returns(blocks, i, m)
    ensures Returns(blocks, i, r) && forall m | i < m < r :: !Returns(blocks, i, m)
    decreases k - n
  {
    if Returns(blocks, i, n) then n else FirstReturn(blocks, i, n + 1, k)
  }

  // ----- The engine with nothing but a per-block cap -----

  /** The block counter, and what has been committed to one bucket. */
  datatype Meter = Meter(counter: Option<(U64, Amount)>, total: nat)

  function Used(m: Meter, block: U64): Amount {
    if m.counter.Some? && m.counter.value.0 == block then m.counter.value.1 else 0
  }

  function Metered(cap: Amount, bucket: U64, m: Meter, block: U64, amount: Amount): Meter {
    var projected := SaturatingAdd(Used(m, block), amount);
    if projected > cap then m
    else Meter(Some((block, projected)), m.total + if block == bucket then amount else 0)
  }

  function MeterAll(cap: Amount, bucket: U64, blocks: seq<U64>, amounts: seq<Amount>): Meter
    requires |amounts| == |blocks|
  {
    if blocks == [] then Meter(None, 0) else
    var last := |blocks| - 1;
    Metered(cap, bucket, MeterAll(cap, bucket, blocks[..last], amounts[..last]), blocks[last], amounts[last])
  }

  ghost predicate Matches(cap: Amount, bucket: U64, events: seq<Event>, m: Meter) {
    var policy := OpenPolicy(Some(cap), None);
    && !Run(policy, events).operatorKilled && Run(policy, events).blockNotional == m.counter
    && BlockTotal(Committed(policy, events), bucket) == m.total
  }

  /** One offer to the engine: decision and counter are those of the meter. */
  lemma OpenStep(cap: Amount, s: RiskState, block: U64, amount: Amount)
    requires !s.operatorKilled
    ensures
      var policy, a := OpenPolicy(Some(cap), None), Offer(block, amount, 0).assessment;
      var projected := SaturatingAdd(BlockUsed(s, block), amount);
      && (Decide(policy, s, a).accepted <==> projected <= cap)
      && AfterAssess(policy, s, a).blockNotional == (if projected <= cap then Some((block, projected)) else s.blockNotional)
      && !AfterAssess(policy, s, a).operatorKilled
  {}

  lemma MatchStep(cap: Amount, bucket: U64, before: seq<Event>, m: Meter, block: U64, amount: Amount)
    requires Matches(cap, bucket, before, m)
    ensures Matches(cap, bucket, before + [Offer(block, amount, 0)], Metered(cap, bucket, m, block, amount))
  {
    var policy, events := OpenPolicy(Some(cap), None), before + [Offer(block, amount, 0)];
    assert events[..|events| - 1] == before;
    OpenStep(cap, Run(policy, before), block, amount);
  }

  lemma {:induction false} EngineIsMeter(cap: Amount, bucket: U64, blocks: seq<U64>, amounts: seq<Amount>)
    requires |amounts| == |blocks|
    ensures Matches(cap, bucket, Offers(blocks, amounts), MeterAll(cap, bucket, blocks, amounts))
    decreases |blocks|
  {
    if blocks != [] {
      var last := |blocks| - 1;
      EngineIsMeter(cap, bucket, blocks[..last], amounts[..last]);
      MatchStep(cap, bucket, Offers(blocks[..last], amounts[..last]),
                MeterAll(cap, bucket, blocks[..last], amounts[..last]), blocks[last], amounts[last]);
      assert Offers(blocks, amounts) == Offers(blocks[..last], amounts[..last]) + [Offer(blocks[last], amounts[last], 0)];
    }
  }

  lemma TotalIsMeter(cap: Amount, bucket: U64, blocks: seq<U64>, amounts: seq<Amount>)
    requires |amounts| == |blocks|
    ensures OfferedTotal(cap, bucket, blocks, amounts) == MeterAll(cap, bucket, blocks, amounts).total
  {
    EngineIsMeter(cap, bucket, blocks, amounts);
  }

  lemma {:induction false} ZeroCapCommitsNothing(bucket: U64, blocks: seq<U64>, amounts: seq<Amount>)
    requires |amounts| == |blocks|
    ensures MeterAll(0, bucket, blocks, amounts).total == 0
    decreases |blocks|
  {
    if blocks != [] {
      ZeroCapCommitsNothing(bucket, blocks[..|blocks| - 1], amounts[..|blocks| - 1]);
    }
  }

  lemma ZeroCapBounds(blocks: seq<U64>)
    ensures BoundsEveryBlock(0, blocks)
  {
    forall amounts: seq<Amount>, bucket: U64 | Offering(blocks, amounts)
      ensures OfferedTotal(0, bucket, blocks, amounts) <= 0
    {
      TotalIsMeter(0, bucket, blocks, amounts);
      ZeroCapCommitsNothing(bucket, blocks, amounts);
    }
  }

  lemma {:induction false} DistinctTotals(bucket: U64, blocks: seq<U64>, amounts: seq<Amount>)
    requires BlocksDistinct(blocks) && |amounts| == |blocks|
    ensures MeterAll(AMOUNT_MAX, bucket, blocks, amounts).total <= if bucket in blocks then AMOUNT_MAX else 0
    decreases |blocks|
  {
    if blocks != [] {
      var last := |blocks| - 1;
      DistinctTotals(bucket, blocks[..last], amounts[..last]);
      assert blocks == blocks[..last] + [blocks[last]] && blocks[last] !in blocks[..last];
    }
  }

  lemma DistinctBlocksBound(blocks: seq<U64>)
    requires BlocksDistinct(blocks)
    ensures BoundsEveryBlock(AMOUNT_MAX, blocks)
  {
    forall amounts: seq<Amount>, bucket: U64 | Offering(blocks, amounts)
      ensures OfferedTotal(AMOUNT_MAX, bucket, blocks, amounts) <= AMOUNT_MAX
    {
      TotalIsMeter(AMOUNT_MAX, bucket, blocks, amounts);
      DistinctTotals(bucket, blocks, amounts);
    }
  }

  // ----- A second visit -----

  /** The cap at `i` and at `k`, one elsewhere. */
  function TwoVisits(cap: Amount, i: nat, k: nat, n: nat): (amounts: seq<Amount>)
    ensures |amounts| == n && forall m | 0 <= m < n :: amounts[m] == if m == i || m == k then cap else 1
  {
    seq(n, m => if m == i || m == k then cap else 1)
  }

  /** The first `n` offers of two visits to block `i`. */
  function VisitMeter(cap: Amount, blocks: seq<U64>, i: nat, k: nat, n: nat): Meter
    requires i < |blocks| && n <= |blocks|
  {
    MeterAll(cap, blocks[i], blocks[..n], TwoVisits(cap, i, k, n))
  }

  lemma VisitStep(cap: Amount, blocks: seq<U64>, i: nat, k: nat, n: nat)
    requires i < |blocks| && n < |blocks|
    ensures VisitMeter(cap, blocks, i, k, n + 1)
         == Metered(cap, blocks[i], VisitMeter(cap, blocks, i, k, n), blocks[n], if n == i || n == k then cap else 1)
  {
    assert blocks[..n + 1][..n] == blocks[..n];
    assert TwoVisits(cap, i, k, n + 1)[..n] == TwoVisits(cap, i, k, n);
  }

  /** Before its first offer the block has no counter. */
  lemma {:induction false} BeforeVisit(cap: Amount, blocks: seq<U64>, i: nat, k: nat, n: nat)
    requires n <= i < k < |blocks| && blocks[i] !in blocks[..i]
    ensures Used(VisitMeter(cap, blocks, i, k, n), blocks[i]) == 0
  {
    if n > 0 {
      BeforeVisit(cap, blocks, i, k, n - 1);
      VisitStep(cap, blocks, i, k, n - 1);
      assert blocks[n - 1] in blocks[..i];
    }
  }

  /** From its first offer to the first return, the block's counter is full while the visit lasts and
      forgotten afterwards; the visit is committed. */
  lemma {:induction false} DuringVisit(cap: Amount, blocks: seq<U64>, i: nat, k: nat, n: nat)
    requires 0 < cap < AMOUNT_MAX && i < n <= k < |blocks| && blocks[i] !in blocks[..i]
    requires forall m | i < m < k :: !Returns(blocks, i, m)
    ensures
      var m := VisitMeter(cap, blocks, i, k, n);
      && m.total >= cap
      && (Used(m, blocks[i]) == 0 || (m.counter == Some((blocks[i], cap)) && blocks[n - 1] == blocks[i]))
  {
    VisitStep(cap, blocks, i, k, n - 1);
    if n == i + 1 {
      BeforeVisit(cap, blocks, i, k, i);
    } else {
      DuringVisit(cap, blocks, i, k, n - 1);
      assert !Returns(blocks, i, n - 1);
    }
  }

  lemma {:induction false} MeterGrows(cap: Amount, bucket: U64, blocks: seq<U64>, amounts: seq<Amount>, n: nat)
    requires |amounts| == |blocks| && n <= |blocks|
    ensures MeterAll(cap, bucket, blocks[..n], amounts[..n]).total <= MeterAll(cap, bucket, blocks, amounts).total
    decreases |blocks|
  {
    if n == |blocks| {
      assert blocks[..n] == blocks && amounts[..n] == amounts;
    } else {
      var last := |blocks| - 1;
      assert blocks[..last][..n] == blocks[..n] && amounts[..last][..n] == amounts[..n];
      MeterGrows(cap, bucket, blocks[..last], amounts[..last], n);
    }
  }

  /** Offering the cap on the first visit to a block and on the return to it exceeds it: the engine has
      forgotten the first. */
  lemma ReturnExceeds(cap: Amount, blocks: seq<U64>, i: nat, k: nat)
    requires 0 < cap < AMOUNT_MAX && Returns(blocks, i, k) && blocks[i] !in blocks[..i]
    requires forall m | i < m < k :: !Returns(blocks, i, m)
    ensures !BoundsEveryBlock(cap, blocks)
  {
    DuringVisit(cap, blocks, i, k, k);
    VisitStep(cap, blocks, i, k, k);
    VisitsExceed(cap, blocks, i, k);
  }

  /** At the largest cap every offer is accepted. */
  lemma {:induction false} SaturatedVisits(blocks: seq<U64>, i: nat, k: nat, n: nat)
    requires i < k < |blocks| && blocks[i] == blocks[k] && i < n <= |blocks|
    ensures VisitMeter(AMOUNT_MAX, blocks, i, k, n).total >= if k < n then 2 * AMOUNT_MAX else AMOUNT_MAX
  {
    VisitStep(AMOUNT_MAX, blocks, i, k, n - 1);
    if n > i + 1 {
      SaturatedVisits(blocks, i, k, n - 1);
    }
  }

  lemma SaturationForgets(blocks: seq<U64>, i: nat, k: nat)
    requires i < k < |blocks| && blocks[i] == blocks[k]
    ensures !BoundsEveryBlock(AMOUNT_MAX, blocks)
  {
    SaturatedVisits(blocks, i, k, k + 1);
    VisitsExceed(AMOUNT_MAX, blocks, i, k);
  }

  lemma VisitsExceed(cap: Amount, blocks: seq<U64>, i: nat, k: nat)
    requires 0 < cap && i < k < |blocks| && VisitMeter(cap, blocks, i, k, k + 1).total > cap
    ensures !BoundsEveryBlock(cap, blocks)
  {
    var amounts := TwoVisits(cap, i, k, |blocks|);
    assert amounts[..k + 1] == TwoVisits(cap, i, k, k + 1);
    MeterGrows(cap, blocks[i], blocks, amounts, k + 1);
    TotalIsMeter(cap, blocks[i], blocks, amounts);
    assert Offering(blocks, amounts);
  }

  // ----- The daily cap -----

  /** With no other gate, the daily cap bounds every 86400-second window of every run with a forward
      clock if and only if it is below `u128::MAX`. */
  lemma DailyCapExactly(cap: Amount)
    ensures cap < AMOUNT_MAX <==>
            forall events, start: nat | Clocked(events) ::
              DaySum(Accepted(OpenPolicy(None, Some(cap)), events), start) <= cap
  {
    var policy := OpenPolicy(None, Some(cap));
    if cap < AMOUNT_MAX {
      forall events, start: nat | Clocked(events)
        ensures DaySum(Accepted(policy, events), start) <= cap
      {
        RollingCap(policy, events, start);
      }
    } else {
      SaturationExceeds();
      var events := [Offer(1, AMOUNT_MAX, 0), Offer(1, AMOUNT_MAX, 0)];
      assert DaySum(Accepted(policy, events), 0) > cap;
    }
  }

  lemma SaturationExceeds()
    ensures
      var events := [Offer(1, AMOUNT_MAX, 0), Offer(1, AMOUNT_MAX, 0)];
      && Clocked(events)
      && DaySum(Accepted(OpenPolicy(None, Some(AMOUNT_MAX)), events), 0) > AMOUNT_MAX
  {
    var policy, first, second := OpenPolicy(None, Some(AMOUNT_MAX)), Offer(1, AMOUNT_MAX, 0), Offer(1, AMOUNT_MAX, 0);
    var entry := Entry(0, AMOUNT_MAX);
    var events := [first, second];
    assert [first][..0] == [] && events[..1] == [first];
    assert Run(policy, []) == INITIAL;
    assert Accepted(policy, [first]) == [entry];
    assert Accepted(policy, events) == [entry, entry];
    assert [entry] + [entry] == [entry, entry] && [] + [entry] == [entry];
    WindowAppend([], entry, 0, SECONDS_PER_DAY);
    WindowAppend([entry], entry, 0, SECONDS_PER_DAY);
  }
}
