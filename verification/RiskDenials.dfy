/** Denied assessments leave no trace: deleting any of them from a run changes no other decision. */
module RiskDenials {
  import opened Common
  import opened RiskEngine
  import opened RiskRuns

  /** The events of a run that `keep` selects. */
  function Kept(events: seq<Event>, keep: seq<bool>): seq<Event>
    requires |keep| == |events|
  {
    if events == [] then [] else
    var last := |events| - 1;
    Kept(events[..last], keep[..last]) + (if keep[last] then [events[last]] else [])
  }

  /** Only denied assessments are deleted. */
  predicate DropsOnlyDenials(policy: RiskPolicy, events: seq<Event>, keep: seq<bool>) {
    && |keep| == |events|
    && forall i :: 0 <= i < |events| && !keep[i] ==>
         events[i].Assessed? && !Decide(policy, Run(policy, events[..i]), events[i].assessment).accepted
  }

  /** The decision inputs of two states outside the rolling window. */
  predicate SameGates(s: RiskState, t: RiskState) {
    && s.blockNotional == t.blockNotional
    && s.consecutiveReverts == t.consecutiveReverts
    && s.operatorKilled == t.operatorKilled
  }

  /** Every kept decision is the same in the shortened run, although a deleted denial may have
      pruned the window. */
  lemma DenialsAreSilent(policy: RiskPolicy, events: seq<Event>, keep: seq<bool>, i: nat)
    requires Clocked(events) && DropsOnlyDenials(policy, events, keep)
    requires i < |events| && keep[i] && events[i].Assessed?
    ensures Decide(policy, Run(policy, events[..i]), events[i].assessment)
         == Decide(policy, Run(policy, Kept(events[..i], keep[..i])), events[i].assessment)
  {
    var before, short := events[..i], Kept(events[..i], keep[..i]);
    PrefixDrops(policy, events, keep, i);
    SameRun(policy, before, keep[..i]);
    KeptClocked(before, keep[..i], events[i].assessment.now);
    SameDecision(policy, before, short, events[i].assessment);
  }

  lemma PrefixDrops(policy: RiskPolicy, events: seq<Event>, keep: seq<bool>, n: nat)
    requires DropsOnlyDenials(policy, events, keep) && n <= |events|
    ensures DropsOnlyDenials(policy, events[..n], keep[..n])
  {
    forall i | 0 <= i < n && !keep[..n][i]
      ensures events[..n][i].Assessed?
      ensures !Decide(policy, Run(policy, events[..n][..i]), events[..n][i].assessment).accepted
    {
      assert events[..n][..i] == events[..i];
    }
  }

  /** The shortened run also has a forward clock, bounded by whatever bounds the original. */
  lemma {:induction false} KeptClocked(events: seq<Event>, keep: seq<bool>, now: U64)
    requires |keep| == |events| && Clocked(events)
    requires forall i :: 0 <= i < |events| && events[i].Assessed? ==> events[i].assessment.now <= now
    ensures Clocked(Kept(events, keep))
    ensures forall i :: 0 <= i < |Kept(events, keep)| && Kept(events, keep)[i].Assessed? ==>
              Kept(events, keep)[i].assessment.now <= now
  {
    if events != [] {
      var last := |events| - 1;
      KeptClocked(events[..last], keep[..last], now);
      if events[last].Assessed? { KeptClocked(events[..last], keep[..last], events[last].assessment.now); }
    }
  }

  /** Two runs with the same gates and the same accepted entries decide alike. */
  lemma SameDecision(policy: RiskPolicy, events: seq<Event>, short: seq<Event>, a: Assessment)
    requires Clocked(events) && Clocked(short)
    requires forall i :: 0 <= i < |events| && events[i].Assessed? ==> events[i].assessment.now <= a.now
    requires forall i :: 0 <= i < |short| && short[i].Assessed? ==> short[i].assessment.now <= a.now
    requires SameGates(Run(policy, events), Run(policy, short))
    requires Accepted(policy, events) == Accepted(policy, short)
    ensures Decide(policy, Run(policy, events), a) == Decide(policy, Run(policy, short), a)
  {
    if ExactCap(policy) {
      TrailingWindow(policy, events, a.now);
      TrailingWindow(policy, short, a.now);
    }
  }

  lemma TrailingWindow(policy: RiskPolicy, events: seq<Event>, now: U64)
    requires ExactCap(policy) && Clocked(events)
    requires forall i :: 0 <= i < |events| && events[i].Assessed? ==> events[i].assessment.now <= now
    ensures Prune(Run(policy, events), now).dailyTotal == Sum(Recent(Accepted(policy, events), Horizon(now)))
  {
    QueueIsRecentAccepted(policy, events);
    AcceptedSorted(policy, events);
    HorizonReached(policy, events, now);
    PrunedWindow(policy, events, now);
  }

  lemma {:induction false} SameRun(policy: RiskPolicy, events: seq<Event>, keep: seq<bool>)
    requires Clocked(events) && DropsOnlyDenials(policy, events, keep)
    ensures SameGates(Run(policy, events), Run(policy, Kept(events, keep)))
    ensures Accepted(policy, events) == Accepted(policy, Kept(events, keep))
    decreases |events|
  {
    if events != [] {
      var last := |events| - 1;
      var before, short := events[..last], Kept(events[..last], keep[..last]);
      PrefixDrops(policy, events, keep, last);
      SameRun(policy, before, keep[..last]);
      if keep[last] {
        assert Kept(events, keep) == short + [events[last]];
        assert (short + [events[last]])[..|short|] == short;
        if events[last].Assessed? {
          KeptClocked(before, keep[..last], events[last].assessment.now);
          SameDecision(policy, before, short, events[last].assessment);
        }
        SameStep(policy, Run(policy, before), Run(policy, short), events[last]);
      } else {
        assert Kept(events, keep) == short;
        DenialKeepsGates(policy, Run(policy, before), events[last].assessment);
      }
    }
  }

  lemma SameStep(policy: RiskPolicy, s: RiskState, t: RiskState, e: Event)
    requires SameGates(s, t)
    requires e.Assessed? ==> Decide(policy, s, e.assessment) == Decide(policy, t, e.assessment)
    ensures SameGates(Step(policy, s, e), Step(policy, t, e))
  {}

  lemma DenialKeepsGates(policy: RiskPolicy, s: RiskState, a: Assessment)
    requires !Decide(policy, s, a).accepted
    ensures SameGates(AfterAssess(policy, s, a), s)
  {}

  // ----- What a denial does to the counters -----

  lemma {:induction false} PruneNeverGrows(entries: seq<Entry>, total: Amount, horizon: U64)
    ensures |PruneFrom(entries, total, horizon).0| <= |entries|
  {
    if entries != [] && entries[0].time < horizon {
      PruneNeverGrows(entries[1..], SaturatingSub(total, entries[0].amount), horizon);
    }
  }

  /** A denial leaves the state unchanged if and only if it came from a gate before the window, or the
      window has no expired entry at its front to prune. */
  lemma DenialKeepsStateExactly(policy: RiskPolicy, s: RiskState, a: Assessment)
    requires !Decide(policy, s, a).accepted
    ensures AfterAssess(policy, s, a) == s <==>
            || EarlyReject(policy, s, a).Some?
            || s.dailyEntries == []
            || s.dailyEntries[0].time >= Horizon(a.now)
  {
    if s.dailyEntries != [] && s.dailyEntries[0].time < Horizon(a.now) {
      PruneNeverGrows(s.dailyEntries[1..], SaturatingSub(s.dailyTotal, s.dailyEntries[0].amount), Horizon(a.now));
    }
  }

  /** A denial that changes the counters: an oversized offer, a day after a small one was accepted. */
  lemma DenialPrunes()
    ensures
      var policy := OpenPolicy(None, Some(10));
      var s, a := Run(policy, [Offer(1, 5, 0)]), Offer(1, 11, 100_000).assessment;
      && s == RiskState(Some((1, 5)), [Entry(0, 5)], 5, 0, false)
      && !Decide(policy, s, a).accepted
      && AfterAssess(policy, s, a) == s.(dailyEntries := [], dailyTotal := 0)
  {
    assert [Offer(1, 5, 0)][..0] == [];
    assert Run(OpenPolicy(None, Some(10)), []) == INITIAL;
    assert PruneFrom([], 0, Horizon(100_000)) == ([], 0);
    assert [Entry(0, 5)][1..] == [];
  }
}
