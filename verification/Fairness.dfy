/** No profile is starved, over whole runs of the dispatcher machine: whatever
    arrives, commits, comes back or is released in between, a profile that is
    eligible at every pick is claimed within as many claims as there are profiles. */
module Fairness {
  import opened Options
  import opened Queues
  import opened RoundRobin
  import opened BatchQueue

  /** Everybody who has ever sent a request. */
  ghost function Senders(s: State): set<ProfileId> { set r | r in s.arrived :: r.profile }

  ghost predicate Picks(cfg: Config, s: State, e: Event) {
    e.Choose? && s.picking.None? && Next(cfg, s, e).picking.Some?
  }

  /** The profiles a pick may choose from. */
  ghost function EligibleNow(cfg: Config, s: State, e: Event): set<ProfileId>
    requires e.Choose?
  {
    Ready(e.counts, s.activeProfiles, s.lastInfeasible, e.slot, if e.flush then 1 else cfg.batchSize)
  }

  ghost function RoundOf(cfg: Config, s: State, e: Event): seq<Round> {
    if Picks(cfg, s, e)
    then [Round(EligibleNow(cfg, s, e), s.cursor, Next(cfg, s, e).picking.value.entry.profile)]
    else []
  }

  ghost function ClaimOfEvent(s: State, e: Event): seq<ProfileId> {
    if e.Claim? && s.picking.Some? then [s.picking.value.entry.profile] else []
  }

  /** The picks a run makes after its first `from` events. */
  ghost function RoundsSince(cfg: Config, events: seq<Event>, from: nat): seq<Round> {
    if |events| <= from then []
    else
      var front := events[..|events| - 1];
      RoundsSince(cfg, front, from) + RoundOf(cfg, Run(cfg, front), events[|events| - 1])
  }

  /** The profiles it claims after them, in order. */
  ghost function ClaimsSince(cfg: Config, events: seq<Event>, from: nat): seq<ProfileId> {
    if |events| <= from then []
    else
      var front := events[..|events| - 1];
      ClaimsSince(cfg, front, from) + ClaimOfEvent(Run(cfg, front), events[|events| - 1])
  }

  /** The picks so far, matched with the claims so far and with the dispatcher's state. */
  ghost predicate Traced(s: State, rounds: seq<Round>, claims: seq<ProfileId>) {
    && Dispatches(rounds)
    && (forall i :: 0 <= i < |rounds| ==> rounds[i].eligible <= Senders(s))
    && |rounds| == |claims| + (if s.picking.Some? then 1 else 0)
    && (forall i :: 0 <= i < |claims| ==> claims[i] == rounds[i].chosen)
    && (s.picking.None? && rounds != [] ==> s.cursor == Some(rounds[|rounds| - 1].chosen))
    && (s.picking.Some? ==>
          && rounds[|rounds| - 1].cursor == s.cursor
          && rounds[|rounds| - 1].chosen == s.picking.value.entry.profile)
  }

  /** Only profiles that have sent requests can be eligible. */
  lemma EligibleAreSenders(cfg: Config, s: State, e: Event)
    requires Inv(cfg, s) && e.Choose? && TrueCounts(s.pending, e.counts)
    ensures EligibleNow(cfg, s, e) <= Senders(s)
  {
    hide OfProfile;
    forall p | p in EligibleNow(cfg, s, e) ensures p in Senders(s) {
      assert InOrder(s, p);
      assert OfProfile(s.arrived, p) != [];
      OfSender(s.arrived, p);
    }
  }

  lemma {:induction false} OfSender(q: seq<Request>, p: ProfileId)
    requires OfProfile(q, p) != []
    ensures exists r :: r in q && r.profile == p
  {
    var last := q[|q| - 1];
    if last.profile != p {
      OfSender(q[..|q| - 1], p);
    }
  }

  lemma PickTraced(cfg: Config, s: State, e: Event, rounds: seq<Round>, claims: seq<ProfileId>)
    requires Inv(cfg, s) && Picks(cfg, s, e) && Traced(s, rounds, claims)
    ensures Traced(Next(cfg, s, e), rounds + RoundOf(cfg, s, e), claims)
  {
    hide Inv, NextProfileToDispatch, Ready, CyclicNext, TrueCounts;
    EligibleAreSenders(cfg, s, e);
    PickIsNextReady(e.counts, s.cursor, s.activeProfiles, s.lastInfeasible, e.slot, if e.flush then 1 else cfg.batchSize);
  }

  lemma SendersStay(cfg: Config, s: State, e: Event)
    ensures Senders(s) <= Senders(Next(cfg, s, e))
  {
    hide OfProfile, Claimed, Remaining, NextProfileToDispatch, TrueCounts;
    assert s.arrived <= Next(cfg, s, e).arrived;
  }

  /** Nothing but a pick and a claim moves cursor or pick. */
  lemma OthersLeavePick(cfg: Config, s: State, e: Event)
    requires !Picks(cfg, s, e) && !(e.Claim? && s.picking.Some?)
    ensures Next(cfg, s, e).picking == s.picking && Next(cfg, s, e).cursor == s.cursor
  {
    hide OfProfile, Claimed, Remaining, NextProfileToDispatch, TrueCounts;
  }

  lemma StepTraced(cfg: Config, s: State, e: Event, rounds: seq<Round>, claims: seq<ProfileId>)
    requires cfg.batchSize > 0 && Inv(cfg, s) && Traced(s, rounds, claims)
    ensures Traced(Next(cfg, s, e), rounds + RoundOf(cfg, s, e), claims + ClaimOfEvent(s, e))
  {
    hide Inv, Next, CyclicNext, Senders;
    SendersStay(cfg, s, e);
    if Picks(cfg, s, e) {
      PickTraced(cfg, s, e, rounds, claims);
      assert claims + ClaimOfEvent(s, e) == claims;
    } else {
      assert rounds + RoundOf(cfg, s, e) == rounds;
      if e.Claim? && s.picking.Some? {
        CursorFollowsClaims(cfg, s, e);
        ClaimEndsPick(cfg, s);
      } else {
        OthersLeavePick(cfg, s, e);
        assert claims + ClaimOfEvent(s, e) == claims;
      }
    }
  }

  lemma ClaimEndsPick(cfg: Config, s: State)
    ensures Next(cfg, s, Claim).picking.None?
  {
  }

  /** Every run's picks are cyclic dispatches, and its claims are its picks in order. */
  lemma {:induction false} RunsTraced(cfg: Config, events: seq<Event>, from: nat)
    requires cfg.batchSize > 0 && from <= |events| && Run(cfg, events[..from]).picking.None?
    ensures Traced(Run(cfg, events), RoundsSince(cfg, events, from), ClaimsSince(cfg, events, from))
  {
    hide Next, Inv, Traced;
    if |events| == from {
      assert events[..from] == events;
      NothingTraced(Run(cfg, events));
    } else {
      var front := events[..|events| - 1];
      assert front[..from] == events[..from];
      RunsTraced(cfg, front, from);
      RunsConserveRequests(cfg, front);
      StepTraced(cfg, Run(cfg, front), events[|events| - 1], RoundsSince(cfg, front, from), ClaimsSince(cfg, front, from));
    }
  }

  lemma NothingTraced(s: State)
    requires s.picking.None?
    ensures Traced(s, [], [])
  {
  }

  /** From any moment with no pick outstanding: a sender that is eligible at
      every later pick is among the first claims, as many as there are senders. */
  lemma EligibleIsClaimedInTime(cfg: Config, events: seq<Event>, from: nat, p: ProfileId)
    requires cfg.batchSize > 0 && from <= |events| && Run(cfg, events[..from]).picking.None?
    requires forall round :: round in RoundsSince(cfg, events, from) ==> p in round.eligible
    requires var senders := Senders(Run(cfg, events)); p in senders && |ClaimsSince(cfg, events, from)| >= |senders|
    ensures p in ClaimsSince(cfg, events, from)[..|Senders(Run(cfg, events))|]
  {
    hide Next, Dispatches, Senders;
    RunsTraced(cfg, events, from);
    var rounds, claims, senders := RoundsSince(cfg, events, from), ClaimsSince(cfg, events, from), Senders(Run(cfg, events));
    NoStarvation(senders, rounds, p);
    var i :| 0 <= i < |senders| && rounds[i].chosen == p;
    assert claims[..|senders|][i] == p;
  }

  // ── a failed solve is not repeated on the same queue ───────────────────

  /** Profile `p` was last picked for `slot` with `count` requests waiting, and
      what came of it has not been committed: it is being claimed or solved, has
      been put back, or has failed. */
  ghost predicate Remembered(s: State, p: ProfileId, slot: int, count: nat) {
    || (s.picking.Some? && s.picking.value.entry == Entry(p, count) && s.picking.value.slot == slot)
    || (p in s.inFlight && s.inFlight[p].slot == slot && s.inFlight[p].pendingCount == count)
    || (p in s.finished && s.finished[p] == Outcome(false, slot, count))
    || (p !in s.activeProfiles && (s.picking.Some? ==> s.picking.value.entry.profile != p)
        && p in s.lastInfeasible && s.lastInfeasible[p] == (slot, count))
  }

  ghost predicate PicksFor(cfg: Config, s: State, e: Event, p: ProfileId, slot: int, count: nat) {
    Picks(cfg, s, e) && e.slot == slot && Next(cfg, s, e).picking.value.entry == Entry(p, count)
  }

  ghost predicate PicksProfile(cfg: Config, s: State, e: Event, p: ProfileId) {
    Picks(cfg, s, e) && Next(cfg, s, e).picking.value.entry.profile == p
  }

  lemma PickRemembers(cfg: Config, s: State, e: Event, p: ProfileId, slot: int, count: nat)
    requires PicksFor(cfg, s, e, p, slot, count)
    ensures Remembered(Next(cfg, s, e), p, slot, count)
  {
    hide NextProfileToDispatch, TrueCounts;
  }

  lemma ClaimRemembers(cfg: Config, s: State, p: ProfileId, slot: int, count: nat)
    requires cfg.batchSize > 0 && Inv(cfg, s) && Remembered(s, p, slot, count)
    ensures Remembered(Next(cfg, s, Claim), p, slot, count)
  {
    hide ClaimOf, Remaining, InOrder, BatchesHomogeneous;
    if s.picking.Some? {
      ClaimIsFull(cfg, s);
    }
  }

  lemma FinishRemembers(cfg: Config, s: State, e: Event, p: ProfileId, slot: int, count: nat)
    requires Inv(cfg, s) && Remembered(s, p, slot, count) && (e.Commit? || e.PutBack? || e.Release?)
    requires !(e == Commit(p) && p in s.inFlight)
    ensures Remembered(Next(cfg, s, e), p, slot, count)
  {
    hide InOrder, BatchesHomogeneous;
  }

  /** Nothing but a commit of the batch, or another pick of the profile, makes it forget. */
  lemma StepRemembers(cfg: Config, s: State, e: Event, p: ProfileId, slot: int, count: nat)
    requires cfg.batchSize > 0 && Inv(cfg, s) && Remembered(s, p, slot, count)
    requires !PicksProfile(cfg, s, e, p) && !(e == Commit(p) && p in s.inFlight)
    ensures Remembered(Next(cfg, s, e), p, slot, count)
  {
    hide NextProfileToDispatch, TrueCounts, Inv, ClaimOf, Remaining;
    match e
    case Arrive(_) =>
    case Choose(_, _, _) =>
    case Claim => ClaimRemembers(cfg, s, p, slot, count);
    case Commit(_) => FinishRemembers(cfg, s, e, p, slot, count);
    case PutBack(_) => FinishRemembers(cfg, s, e, p, slot, count);
    case Release(_) => FinishRemembers(cfg, s, e, p, slot, count);
  }

  /** The same profile is not picked for the same slot and count again. */
  lemma RememberedIsNotPicked(cfg: Config, s: State, e: Event, p: ProfileId, slot: int, count: nat)
    requires Inv(cfg, s) && Remembered(s, p, slot, count)
    ensures !PicksFor(cfg, s, e, p, slot, count)
  {
    hide NextProfileToDispatch, TrueCounts, InOrder, BatchesHomogeneous, CyclicNext;
    if Picks(cfg, s, e) {
      PickIsNextReady(e.counts, s.cursor, s.activeProfiles, s.lastInfeasible, e.slot, if e.flush then 1 else cfg.batchSize);
      PickIsReady(cfg, s, e);
    }
  }

  lemma PickIsReady(cfg: Config, s: State, e: Event)
    requires Picks(cfg, s, e)
    ensures var entry := Next(cfg, s, e).picking.value.entry;
            && entry.profile !in s.activeProfiles
            && (entry.profile in s.lastInfeasible ==> s.lastInfeasible[entry.profile] != (e.slot, entry.count))
  {
    hide TrueCounts, NextProfileToDispatch;
    NextIsCyclic(e.counts, s.cursor, s.activeProfiles, s.lastInfeasible, e.slot, if e.flush then 1 else cfg.batchSize);
  }

  lemma {:induction false} StillRemembered(cfg: Config, events: seq<Event>, from: nat, p: ProfileId, slot: int, count: nat)
    requires cfg.batchSize > 0 && from <= |events| && Remembered(Run(cfg, events[..from]), p, slot, count)
    requires forall k :: from <= k < |events| ==> !PicksProfile(cfg, Run(cfg, events[..k]), events[k], p)
    requires forall k :: from <= k < |events| ==> !(events[k] == Commit(p) && p in Run(cfg, events[..k]).inFlight)
    ensures Remembered(Run(cfg, events), p, slot, count)
  {
    hide Next, Inv, Remembered, PicksProfile;
    if from == |events| {
      assert events[..from] == events;
    } else {
      var front := events[..|events| - 1];
      assert front[..from] == events[..from];
      assert forall k :: from <= k < |front| ==> front[..k] == events[..k] && front[k] == events[k];
      StillRemembered(cfg, front, from, p, slot, count);
      RunsConserveRequests(cfg, front);
      StepRemembers(cfg, Run(cfg, front), events[|events| - 1], p, slot, count);
    }
  }

  /** In any run: of two successive picks of a profile for the same slot with the
      same number waiting, the first one's batch was committed in between. So a
      batch that could not be placed is not solved again and again on an unchanged
      queue. */
  lemma NoHotRetry(cfg: Config, events: seq<Event>, i: nat, j: nat, p: ProfileId, slot: int, count: nat)
    requires cfg.batchSize > 0 && i < j < |events|
    requires PicksFor(cfg, Run(cfg, events[..i]), events[i], p, slot, count)
    requires PicksFor(cfg, Run(cfg, events[..j]), events[j], p, slot, count)
    requires forall k :: i < k < j ==> !PicksProfile(cfg, Run(cfg, events[..k]), events[k], p)
    ensures exists k :: i < k < j && events[k] == Commit(p) && p in Run(cfg, events[..k]).inFlight
  {
    hide Next, Inv, Remembered, PicksProfile, PicksFor;
    if forall k :: i < k < j ==> !(events[k] == Commit(p) && p in Run(cfg, events[..k]).inFlight) {
      var upto := events[..j];
      assert forall k :: 0 <= k <= j ==> upto[..k] == events[..k];
      assert events[..i + 1][..i] == events[..i];
      PickRemembers(cfg, Run(cfg, events[..i]), events[i], p, slot, count);
      StillRemembered(cfg, upto, i + 1, p, slot, count);
      RunsConserveRequests(cfg, upto);
      RememberedIsNotPicked(cfg, Run(cfg, upto), events[j], p, slot, count);
      assert false;
    }
  }

  /** A batch that was placed leaves its profile free to be picked at once. */
  lemma PlacedIsFree(cfg: Config, s: State, p: ProfileId)
    requires Inv(cfg, s) && p in s.finished && s.finished[p].scheduled
    ensures var t := Next(cfg, s, Release(p)); p !in t.lastInfeasible && p !in t.activeProfiles
  {
    hide InOrder, BatchesHomogeneous, PickStands;
  }
}
