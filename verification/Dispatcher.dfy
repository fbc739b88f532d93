/** The dispatcher as one mutable object beside the shared state: counting,
    picking, claiming and reserving under the scheduler mutex, and the release a
    finished worker performs. Each method is one step, or two, of the machine. */
module Dispatcher {
  import opened Options
  import opened Queues
  import opened RoundRobin
  import opened BatchQueue
  import Shared = SharedState

  // ── counting the queue ─────────────────────────────────────────────────

  predicate Distinct(entries: seq<Entry>) {
    forall i, j :: 0 <= i < j < |entries| ==> entries[i].profile != entries[j].profile
  }

  lemma {:induction false} InsertDistinct(e: Entry, sorted: seq<Entry>)
    requires Distinct(sorted) && forall x :: x in sorted ==> x.profile != e.profile
    ensures Distinct(InsertByProfile(e, sorted))
    ensures forall x :: x in InsertByProfile(e, sorted) <==> x == e || x in sorted
  {
    if sorted != [] && sorted[0].profile < e.profile {
      var rest := sorted[1..];
      assert forall x :: x in rest ==> x in sorted && x.profile != sorted[0].profile;
      InsertDistinct(e, rest);
      assert sorted == [sorted[0]] + rest;
      assert forall x :: x in InsertByProfile(e, rest) ==> x.profile != sorted[0].profile;
    }
  }

  lemma {:induction false} SortDistinct(entries: seq<Entry>)
    requires Distinct(entries)
    ensures Distinct(SortByProfile(entries))
    ensures forall x :: x in SortByProfile(entries) <==> x in entries
  {
    if entries != [] {
      var rest := entries[1..];
      SortDistinct(rest);
      assert forall x :: x in rest ==> x.profile != entries[0].profile;
      InsertDistinct(entries[0], SortByProfile(rest));
      assert entries == [entries[0]] + rest;
    }
  }

  /** The entries of a count, in any order. */
  ghost predicate Lists(entries: seq<Entry>, counts: map<ProfileId, nat>) {
    Distinct(entries) && forall x :: x in entries <==> x.profile in counts && counts[x.profile] == x.count
  }

  /** Collects a count's entries in any order. */
  method Collect(counts: map<ProfileId, nat>) returns (entries: seq<Entry>)
    ensures Lists(entries, counts)
  {
    entries := [];
    var left := counts.Keys;
    while left != {}
      invariant left <= counts.Keys
      invariant Distinct(entries)
      invariant forall x :: x in entries <==> x.profile in counts && x.profile !in left && counts[x.profile] == x.count
      decreases |left|
    {
      var p :| p in left;
      entries := entries + [Entry(p, counts[p])];
      left := left - {p};
    }
  }

  lemma ListedCountsAreTrue(q: seq<Request>, counts: map<ProfileId, nat>, entries: seq<Entry>)
    requires CountsOf(q, counts) && Distinct(entries)
    requires forall x :: x in entries <==> x.profile in counts && counts[x.profile] == x.count
    ensures TrueCounts(q, entries)
  {
    forall p: ProfileId | OfProfile(q, p) != [] ensures exists e :: e in entries && e.profile == p {
      assert p in counts;
      assert Entry(p, counts[p]) in entries;
    }
  }

  /** Pending count of every profile, sorted by profile. */
  method SortedCounts(q: seq<Request>) returns (counts: seq<Entry>)
    ensures TrueCounts(q, counts) && Ascending(counts)
  {
    hide CountsOf, TrueCounts, SortByProfile, Ascending;
    var byProfile := PendingProfileCounts(q);
    var entries := Collect(byProfile);
    SortSorted(entries);
    SortDistinct(entries);
    counts := SortByProfile(entries);
    ListedCountsAreTrue(q, byProfile, counts);
  }

  // ── runs of the machine ────────────────────────────────────────────────

  /** Anybody's step but the dispatch loop's own two. */
  predicate NotDispatch(e: Event) { !e.Choose? && !e.Claim? }

  predicate OthersOnly(events: seq<Event>) { forall i :: 0 <= i < |events| ==> NotDispatch(events[i]) }

  ghost function RunFrom(cfg: Config, s: State, events: seq<Event>): State {
    if events == [] then s else Next(cfg, RunFrom(cfg, s, events[..|events| - 1]), events[|events| - 1])
  }

  /** How many workers a run starts. */
  ghost function Launches(cfg: Config, s: State, events: seq<Event>): nat {
    if events == [] then 0
    else
      Launches(cfg, s, events[..|events| - 1])
      + if RunFrom(cfg, s, events).activeWorkers > RunFrom(cfg, s, events[..|events| - 1]).activeWorkers then 1 else 0
  }

  lemma OneMoreEvent(cfg: Config, s: State, events: seq<Event>, e: Event)
    ensures RunFrom(cfg, s, events + [e]) == Next(cfg, RunFrom(cfg, s, events), e)
    ensures Launches(cfg, s, events + [e])
         == Launches(cfg, s, events)
            + if Next(cfg, RunFrom(cfg, s, events), e).activeWorkers > RunFrom(cfg, s, events).activeWorkers then 1 else 0
  {
    hide Next;
    assert (events + [e])[..|events|] == events;
  }

  /** Choosing reserves nothing yet, and others start no workers. */
  lemma StartsNobody(cfg: Config, s: State, e: Event)
    requires !e.Claim?
    ensures Next(cfg, s, e).activeWorkers <= s.activeWorkers
    ensures NotDispatch(e) ==> Next(cfg, s, e).picking == s.picking
  {
    hide OfProfile, Claimed, Remaining, NextProfileToDispatch, TrueCounts;
  }

  /** One pass of the loop in a run. */
  lemma OnePass(cfg: Config, s: State, events: seq<Event>, choose: Event)
    requires choose.Choose?
    ensures var before := RunFrom(cfg, s, events);
            var after := Next(cfg, Next(cfg, before, choose), Claim);
            && RunFrom(cfg, s, events + [choose] + [Claim]) == after
            && (after.activeWorkers == before.activeWorkers + 1 ==>
                  Launches(cfg, s, events + [choose] + [Claim]) == Launches(cfg, s, events) + 1)
            && (after.activeWorkers <= before.activeWorkers && Next(cfg, before, choose).activeWorkers == before.activeWorkers ==>
                  Launches(cfg, s, events + [choose] + [Claim]) == Launches(cfg, s, events))
  {
    hide Next, Launches, RunFrom;
    OneMoreEvent(cfg, s, events, choose);
    OneMoreEvent(cfg, s, events + [choose], Claim);
    StartsNobody(cfg, RunFrom(cfg, s, events), choose);
  }

  /** A worker was started for idle profile `p`, with its oldest requests, as many
      as it had or as fit a batch; it had enough, and nobody else's requests moved. */
  ghost predicate Launched(cfg: Config, s: State, t: State, p: ProfileId, slot: int, minPending: nat) {
    var mine := OfProfile(s.pending, p);
    var n := if |mine| < cfg.batchSize then |mine| else cfg.batchSize;
    && |mine| >= minPending && p !in s.activeProfiles && t.activeProfiles == s.activeProfiles + {p}
    && t.inFlight == s.inFlight[p := Worker(mine[..n], slot, |mine|)]
    && OfProfile(t.pending, p) == mine[n..]
    && forall q: ProfileId :: q != p ==> OfProfile(t.pending, q) == OfProfile(s.pending, q)
  }

  lemma LaunchIs(cfg: Config, s: State, picked: State, slot: int, flush: bool, counts: seq<Entry>)
    requires Inv(cfg, s) && s.picking.None? && TrueCounts(s.pending, counts) && s.activeWorkers < cfg.maxWorkers
    requires picked == Next(cfg, s, Choose(slot, flush, counts)) && picked.picking.Some?
    requires ClaimOf(cfg, picked, picked.picking.value) != []
    requires |ClaimOf(cfg, picked, picked.picking.value)| >= picked.picking.value.minPending
    ensures Launched(cfg, s, Next(cfg, picked, Claim), picked.picking.value.entry.profile, slot,
                     if flush then 1 else cfg.batchSize)
  {
    hide Inv, OfProfile, NextProfileToDispatch, Claimed, Remaining, Ready, CyclicNext;
    var minPending := if flush then 1 else cfg.batchSize;
    NextIsCyclic(counts, s.cursor, s.activeProfiles, s.lastInfeasible, slot, minPending);
    var pick := picked.picking.value;
    var p, n := pick.entry.profile, Least(pick.entry.count, cfg.batchSize);
    ClaimedIsOldest(s.pending, p, n);
    forall q ensures OfProfile(Remaining(s.pending, p, n), q)
                  == if q == p then OfProfile(s.pending, p)[|Claimed(s.pending, p, n)|..] else OfProfile(s.pending, q)
    {
      RemainingIsRest(s.pending, p, n, q);
    }
  }

  // ── the object ─────────────────────────────────────────────────────────

  class Scheduler {
    const cfg: Config
    const shared: Shared.State
    var activeProfiles: set<ProfileId>
    var activeWorkers: nat
    var lastDispatched: Option<ProfileId>
    var lastInfeasible: map<ProfileId, (int, nat)>
    var inFlight: map<ProfileId, Worker>        // what each worker thread took with it
    var finished: map<ProfileId, Outcome>
    ghost var arrived: seq<Request>
    ghost var committed: seq<Request>

    ghost function View(): State
      reads this, shared
    {
      State(arrived, committed, shared.pending, inFlight, finished, activeProfiles, activeWorkers,
            lastDispatched, lastInfeasible, None)
    }

    constructor (cfg: Config)
      ensures View() == START && this.cfg == cfg && fresh(shared)
    {
      this.cfg := cfg;
      shared := new Shared.State();
      activeProfiles, activeWorkers, lastDispatched, lastInfeasible := {}, 0, None, map[];
      inFlight, finished, arrived, committed := map[], map[], [], [];
    }

    method Arrive(r: Request)
      modifies this, shared
      ensures View() == Next(cfg, old(View()), Event.Arrive(r))
    {
      shared.AddRequest(r);
      arrived := arrived + [r];
    }

    function MinPending(flush: bool): nat { if flush then 1 else cfg.batchSize }

    /** One pass of the dispatch loop: counts, picks, claims and reserves without
        letting go of the scheduler mutex. */
    method DispatchOne(slot: int, flush: bool) returns (dispatched: bool, ghost counts: seq<Entry>)
      requires Inv(cfg, View())
      modifies this, shared
      ensures Inv(cfg, View())
      ensures old(activeWorkers) < cfg.maxWorkers ==> TrueCounts(old(shared.pending), counts)
      ensures View() == Next(cfg, Next(cfg, old(View()), Choose(slot, flush, counts)), Claim)
      ensures dispatched <==> activeWorkers == old(activeWorkers) + 1
      ensures !dispatched ==> activeWorkers == old(activeWorkers)
      ensures dispatched ==> lastDispatched != None
                             && Launched(cfg, old(View()), View(), lastDispatched.value, slot, if flush then 1 else cfg.batchSize)
    {
      hide Inv, TrueCounts, NextProfileToDispatch, Claimed, Remaining, Launched;
      ghost var before := View();
      counts := [];
      if activeWorkers >= cfg.maxWorkers {
        return false, counts;
      }
      var pendingByProfile := SortedCounts(shared.pending);
      counts := pendingByProfile;
      StepKeeps(cfg, before, Choose(slot, flush, counts));
      StepKeeps(cfg, Next(cfg, before, Choose(slot, flush, counts)), Claim);
      var next := NextProfileToDispatch(pendingByProfile, lastDispatched, activeProfiles, lastInfeasible, slot,
                                        MinPending(flush));
      if next.None? {
        return false, counts;
      }
      var p, pendingCount := next.value.profile, next.value.count;
      var claimed := shared.ClaimPendingRequestsForProfile(p, Least(pendingCount, cfg.batchSize));
      if claimed == [] {
        return false, counts;
      }
      if |claimed| < MinPending(flush) {
        shared.RequeuePendingRequestsFront(claimed);
        return false, counts;
      }
      LaunchIs(cfg, before, Next(cfg, before, Choose(slot, flush, counts)), slot, flush, counts);
      lastDispatched := Some(p);
      activeProfiles := activeProfiles + {p};
      activeWorkers := activeWorkers + 1;
      inFlight := inFlight[p := Worker(claimed, slot, pendingCount)];
      dispatched := true;
    }

    /** Any one step of somebody else. */
    method Perform(e: Event)
      requires Inv(cfg, View()) && NotDispatch(e)
      modifies this, shared
      ensures Inv(cfg, View()) && View() == Next(cfg, old(View()), e)
    {
      hide Inv;
      StepKeeps(cfg, View(), e);
      match e {
        case Arrive(r) => Arrive(r);
        case Commit(p) => if p in inFlight { CommitBatch(p); }
        case PutBack(p) => if p in inFlight { PutBatchBack(p); }
        case Release(p) => if p in finished { Release(p); }
      }
    }

    /** Others act, as part of a run from `start`. */
    method Pause(events: seq<Event>, ghost start: State, ghost trace: seq<Event>) returns (ghost longer: seq<Event>)
      requires Inv(cfg, View()) && OthersOnly(events) && View() == RunFrom(cfg, start, trace)
      modifies this, shared
      ensures Inv(cfg, View()) && View() == RunFrom(cfg, start, longer)
      ensures Launches(cfg, start, longer) == Launches(cfg, start, trace)
    {
      hide Inv, Next, RunFrom, Launches;
      longer := trace;
      for i := 0 to |events|
        invariant Inv(cfg, View()) && View() == RunFrom(cfg, start, longer)
        invariant Launches(cfg, start, longer) == Launches(cfg, start, trace)
      {
        OneMoreEvent(cfg, start, longer, events[i]);
        StartsNobody(cfg, View(), events[i]);
        Perform(events[i]);
        longer := longer + [events[i]];
      }
    }

    /** Launches a worker per eligible batch. Before the n-th pass the loop looks at
        the running flag, and after it others act as `meanwhile` says, as long as
        that lasts. However they do, this is a run of the machine; and unless it is
        told to stop, the loop ends only when every worker is busy or no profile is
        eligible: no free worker sits beside work it could take. */
    method DispatchBatchWorkers(slot: int, flush: bool, running: nat -> bool, meanwhile: seq<seq<Event>>)
        returns (dispatched: bool, stopped: bool, ghost counts: seq<Entry>, ghost trace: seq<Event>)
      requires Inv(cfg, View()) && cfg.batchSize > 0
      requires forall n :: 0 <= n < |meanwhile| ==> OthersOnly(meanwhile[n])
      modifies this, shared
      ensures Inv(cfg, View()) && View() == RunFrom(cfg, old(View()), trace)
      ensures dispatched <==> Launches(cfg, old(View()), trace) > 0
      ensures !dispatched ==> View() == old(View())
      ensures stopped ==> exists n :: !running(n)
      ensures stopped || activeWorkers >= cfg.maxWorkers
           || (TrueCounts(shared.pending, counts)
               && Ready(counts, activeProfiles, lastInfeasible, slot, if flush then 1 else cfg.batchSize) == {})
    {
      hide Inv, TrueCounts, Next, Ready, RunFrom, Launches, OthersOnly;
      ghost var start := View();
      dispatched, stopped, counts, trace := false, false, [], [];
      NoEvents(cfg, start);
      InvCaps(cfg, View());
      var n := 0;
      while true
        invariant Inv(cfg, View()) && activeWorkers <= cfg.maxWorkers
        invariant View() == RunFrom(cfg, start, trace)
        invariant dispatched <==> Launches(cfg, start, trace) > 0
        invariant !dispatched ==> View() == start
        decreases if n < |meanwhile| then |meanwhile| - n else 0, cfg.maxWorkers - activeWorkers
      {
        if !running(n) {
          stopped := true;
          return;
        }
        ghost var before := View();
        var more;
        more, counts := DispatchOne(slot, flush);
        OnePass(cfg, start, trace, Choose(slot, flush, counts));
        trace := trace + [Choose(slot, flush, counts)] + [Claim];
        InvCaps(cfg, View());
        if !more {
          PassDispatches(cfg, before, slot, flush, counts);
          ChoosingReservesNothing(cfg, before, Choose(slot, flush, counts));
          return;
        }
        dispatched := true;
        if n < |meanwhile| {
          trace := Pause(meanwhile[n], start, trace);
          InvCaps(cfg, View());
        }
        n := n + 1;
      }
    }

    method CommitBatch(p: ProfileId)
      requires p in inFlight
      modifies this
      ensures View() == Next(cfg, old(View()), Commit(p))
    {
      var w := inFlight[p];
      committed := committed + w.batch;
      inFlight := inFlight - {p};
      finished := finished[p := Outcome(true, w.slot, w.pendingCount)];
    }

    method PutBatchBack(p: ProfileId)
      requires p in inFlight
      modifies this, shared
      ensures View() == Next(cfg, old(View()), PutBack(p))
      ensures shared.pending == old(inFlight)[p].batch + old(shared.pending) && activeProfiles == old(activeProfiles)
    {
      var w := inFlight[p];
      shared.RequeuePendingRequestsFront(w.batch);
      inFlight := inFlight - {p};
      finished := finished[p := Outcome(false, w.slot, w.pendingCount)];
    }

    /** A finished worker gives up its reservation; the counter cannot underflow. */
    method Release(p: ProfileId)
      requires Inv(cfg, View()) && p in finished
      modifies this
      ensures Inv(cfg, View()) && View() == Next(cfg, old(View()), Event.Release(p))
      ensures activeWorkers == old(activeWorkers) - 1 && activeProfiles == old(activeProfiles) - {p}
      ensures var o := old(finished)[p];
              lastInfeasible == if o.scheduled then old(lastInfeasible) - {p}
                                else old(lastInfeasible)[p := (o.slot, o.pendingCount)]
    {
      hide Inv, Next;
      StepKeeps(cfg, View(), Event.Release(p));
      ReleaseIs(cfg, View(), p);
      var o := finished[p];
      activeWorkers := activeWorkers - 1;
      activeProfiles := activeProfiles - {p};
      if o.scheduled {
        lastInfeasible := lastInfeasible - {p};
      } else {
        lastInfeasible := lastInfeasible[p := (o.slot, o.pendingCount)];
      }
      finished := finished - {p};
    }
  }

  lemma ReleaseIs(cfg: Config, s: State, p: ProfileId)
    requires Inv(cfg, s) && p in s.finished
    ensures s.activeWorkers > 0
    ensures var o := s.finished[p];
            Next(cfg, s, Event.Release(p))
            == s.(activeWorkers := s.activeWorkers - 1, activeProfiles := s.activeProfiles - {p},
                  finished := s.finished - {p},
                  lastInfeasible := if o.scheduled then s.lastInfeasible - {p}
                                    else s.lastInfeasible[p := (o.slot, o.pendingCount)])
  {
    hide InOrder, BatchesHomogeneous, PickStands;
    assert p in s.activeProfiles;
    HasMember(s.activeProfiles, p);
  }

  lemma HasMember(s: set<ProfileId>, p: ProfileId)
    requires p in s
    ensures |s| > 0
  {
  }

  lemma NoEvents(cfg: Config, s: State)
    ensures RunFrom(cfg, s, []) == s && Launches(cfg, s, []) == 0
  {
  }

  lemma ChoosingReservesNothing(cfg: Config, s: State, e: Event)
    requires e.Choose?
    ensures Next(cfg, s, e).activeWorkers == s.activeWorkers
  {
    hide NextProfileToDispatch, TrueCounts;
  }

  lemma InvCaps(cfg: Config, s: State)
    requires Inv(cfg, s)
    ensures s.activeWorkers <= cfg.maxWorkers
  {
  }

  /** With a free worker and an eligible profile a pass always dispatches; without, it does nothing. */
  lemma PassDispatches(cfg: Config, s: State, slot: int, flush: bool, counts: seq<Entry>)
    requires Inv(cfg, s) && cfg.batchSize > 0 && s.picking.None?
    requires s.activeWorkers < cfg.maxWorkers ==> TrueCounts(s.pending, counts)
    ensures var minPending := if flush then 1 else cfg.batchSize;
            var t := Next(cfg, Next(cfg, s, Choose(slot, flush, counts)), Claim);
            if s.activeWorkers < cfg.maxWorkers
               && Ready(counts, s.activeProfiles, s.lastInfeasible, slot, minPending) != {}
            then t.activeWorkers == s.activeWorkers + 1
            else t == s
  {
    hide InOrder, BatchesHomogeneous, NextProfileToDispatch, Ready, CyclicNext, TrueCounts, Claimed, Remaining;
    var minPending := if flush then 1 else cfg.batchSize;
    var picked := Next(cfg, s, Choose(slot, flush, counts));
    PickIsNextReady(counts, s.cursor, s.activeProfiles, s.lastInfeasible, slot, minPending);
    StepPick(cfg, s, Choose(slot, flush, counts));
    if picked.picking.Some? {
      ClaimIsFull(cfg, picked);
    }
  }
}
