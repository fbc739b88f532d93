/** The guarded tier policy as one mutable object: the ladder with its lock and
    revision, the cached learners, and the worker that holds the read guard from
    before its first solve until after its commit. */
module TierPolicy {
  import opened Options
  import opened Queues
  import opened LadderGuard

  function RunFrom(s: State, events: seq<Event>): State
    decreases |events|
  {
    if events == [] then s else RunFrom(Next(s, events[0]), events[1..])
  }

  /** Other parties' events: no step of worker `w`. */
  predicate NotOf(e: Event, w: WorkerId) {
    match e
    case Initialize(_) => true
    case Build => true
    case Replace(_) => true
    case Acquire(v, profile) => v != w
    case Solve(v, inPlace) => v != w
    case _ => e.w != w
  }

  predicate AllNotOf(events: seq<Event>, w: WorkerId) { forall i :: 0 <= i < |events| ==> NotOf(events[i], w) }

  /** What one ladder and revision did between two states: everything recorded in
      between solved under that ladder, learned under that revision only, and was
      committed while the ladder it was solved under stood. */
  ghost predicate UnderOneLadder(s: State, t: State) {
    && t.ladder == s.ladder && t.revision == s.revision && t.built == s.built
    && s.solves <= t.solves && s.commits <= t.commits
    && (forall i :: |s.solves| <= i < |t.solves| ==>
          s.ladder == Some(t.solves[i].ladder) && t.solves[i].learnedFrom <= {s.revision})
    && forall i :: |s.commits| <= i < |t.commits| ==>
         s.ladder == Some(t.commits[i].solvedUnder) && s.ladder == Some(t.commits[i].inForce)
  }

  /** Only a replacement moves ladder and revision, once there is a ladder. */
  lemma StepUnderOneLadder(s: State, e: Event)
    requires Inv(s) && s.ladder.Some? && s.built && (e.Replace? ==> s.workers != map[])
    ensures UnderOneLadder(s, Next(s, e))
  {
  }

  lemma UnderOneLadderTransitive(s: State, t: State, u: State)
    requires UnderOneLadder(s, t) && UnderOneLadder(t, u)
    ensures UnderOneLadder(s, u)
  {
  }

  lemma StepUnderGuard(s: State, e: Event, w: WorkerId)
    requires w in s.workers && NotOf(e, w)
    ensures w in Next(s, e).workers && Next(s, e).workers[w] == s.workers[w]
  {
  }

  /** While a worker holds its guard, nothing others do changes the ladder or its
      revision: replacements wait, and set-up finds a ladder installed. Whatever
      is solved and learned meanwhile is so under that ladder and revision. */
  lemma {:induction false} GuardFreezesLadder(s: State, events: seq<Event>, w: WorkerId)
    requires Inv(s) && w in s.workers && AllNotOf(events, w)
    ensures var t := RunFrom(s, events);
            Inv(t) && w in t.workers && t.workers[w] == s.workers[w] && UnderOneLadder(s, t)
    decreases |events|
  {
    hide Next, Inv, UnderOneLadder;
    GuardedIsSetUp(s, w);
    if events == [] {
      NothingUnderOneLadder(s);
    } else {
      var next := Next(s, events[0]);
      StepUnderGuard(s, events[0], w);
      StepUnderOneLadder(s, events[0]);
      StepKeeps(s, events[0]);
      GuardFreezesLadder(next, events[1..], w);
      UnderOneLadderTransitive(s, next, RunFrom(next, events[1..]));
    }
  }

  lemma GuardedIsSetUp(s: State, w: WorkerId)
    requires Inv(s) && w in s.workers
    ensures s.built && s.ladder == Some(s.workers[w].borrowed)
  {
  }

  lemma NothingUnderOneLadder(s: State)
    ensures UnderOneLadder(s, s)
  {
  }

  /** Once a ladder is installed it changes only together with its revision,
      whoever initializes again in between: the discarding of learned costs,
      which watches the revision, misses no change. */
  lemma {:induction false} LadderMovesWithRevision(s: State, events: seq<Event>)
    requires s.ladder.Some?
    ensures var t := RunFrom(s, events);
            && t.ladder.Some? && t.revision >= s.revision
            && (t.revision == s.revision ==> t.ladder == s.ladder)
    decreases |events|
  {
    hide Next;
    if events != [] {
      LadderStep(s, events[0]);
      LadderMovesWithRevision(Next(s, events[0]), events[1..]);
    }
  }

  lemma LadderStep(s: State, e: Event)
    requires s.ladder.Some?
    ensures Next(s, e).ladder.Some?
    ensures (Next(s, e).revision == s.revision && Next(s, e).ladder == s.ladder) || Next(s, e).revision == s.revision + 1
  {
  }

  class Policy {
    var ladder: Option<Ladder>
    var revision: nat
    var built: bool
    var cachedRevision: nat
    var learners: map<ProfileId, set<nat>>
    var workers: map<WorkerId, Worker>
    ghost var ladders: map<nat, Ladder>
    ghost var solves: seq<SolveRecord>
    ghost var commits: seq<CommitRecord>

    ghost function View(): State
      reads this
    {
      State(ladder, revision, built, cachedRevision, learners, workers, ladders, solves, commits)
    }

    constructor ()
      ensures View() == START
    {
      ladder, revision, built, cachedRevision, learners, workers := None, 0, false, 0, map[], map[];
      ladders, solves, commits := map[], [], [];
    }

    /** Installs the configured ladder unless one is installed already. */
    method InitializeCapacityTiers(tiers: Ladder)
      modifies this
      ensures View() == Next(old(View()), Initialize(tiers))
      ensures old(ladder).Some? ==> View() == old(View())
      ensures old(ladder) == None && old(workers) == map[] ==> ladder == Some(tiers) && revision == old(revision)
    {
      if workers == map[] && ladder.None? {
        ladder := Some(tiers);
        ladders := ladders[revision := tiers];
      }
    }

    /** The scheduler's share of its own set-up, after the ladder's. */
    method BuildScheduler()
      requires !built && ladder.Some?
      modifies this`built, this`cachedRevision
      ensures View() == Next(old(View()), Build)
    {
      built := true;
      cachedRevision := revision;
    }

    /** The write lock is granted only when no worker reads. */
    method ReplaceCapacityTiers(tiers: Ladder) returns (granted: bool)
      modifies this
      ensures View() == Next(old(View()), Replace(tiers))
      ensures granted <==> old(workers) == map[]
      ensures granted ==> ladder == Some(tiers) && revision == old(revision) + 1
      ensures !granted ==> ladder == old(ladder) && revision == old(revision)
    {
      if workers != map[] {
        return false;
      }
      ladder := Some(tiers);
      revision := revision + 1;
      ladders := ladders[revision := tiers];
      granted := true;
    }

    method CapacityTiersGuard(w: WorkerId, profile: ProfileId)
      requires built && ladder.Some? && w !in workers
      modifies this`workers
      ensures View() == Next(old(View()), Acquire(w, profile))
      ensures workers == old(workers)[w := Worker(profile, ladder.value, Guarded)]
    {
      workers := workers[w := Worker(profile, ladder.value, Guarded)];
    }

    method CapacityTierRevision(w: WorkerId)
      requires w in workers && workers[w].phase.Guarded?
      modifies this`workers
      ensures View() == Next(old(View()), ReadRevision(w))
      ensures workers == old(workers)[w := old(workers)[w].(phase := Informed(revision))]
    {
      workers := workers[w := workers[w].(phase := Informed(revision))];
    }

    /** Discards every learner of an earlier revision. */
    method SyncLearners(w: WorkerId)
      requires w in workers && workers[w].phase.Informed?
      modifies this`workers, this`learners, this`cachedRevision
      ensures View() == Next(old(View()), Sync(w))
      ensures cachedRevision == old(workers)[w].phase.revision
      ensures learners == if old(cachedRevision) == cachedRevision then old(learners) else map[]
      ensures workers == old(workers)[w := old(workers)[w].(phase := Synced(old(workers)[w].phase.revision))]
    {
      var seen := workers[w].phase.revision;
      if cachedRevision != seen {
        learners := map[];
        cachedRevision := seen;
      }
      workers := workers[w := workers[w].(phase := Synced(seen))];
    }

    /** A solve prices with the borrowed ladder; the serialized learner trains at once. */
    method SolveBatch(w: WorkerId, inPlace: bool)
      requires w in workers && workers[w].phase.Synced?
      modifies this`workers, this`learners, this`solves
      ensures View() == Next(old(View()), Solve(w, inPlace))
      ensures var p := old(workers)[w].profile;
              var known := if p in old(learners) then old(learners)[p] else {};
              && solves == old(solves) + [SolveRecord(old(workers)[w].borrowed, known)]
              && learners == old(learners)[p := if inPlace then known + {old(workers)[w].phase.revision} else known]
      ensures var worker := old(workers)[w];
              workers == old(workers)[w := worker.(phase := Solved(worker.phase.revision, worker.borrowed))]
    {
      var worker := workers[w];
      var seen, p := worker.phase.revision, worker.profile;
      var learned := if p in learners then learners[p] else {};
      solves := solves + [SolveRecord(worker.borrowed, learned)];
      learners := learners[p := if inPlace then learned + {seen} else learned];
      workers := workers[w := worker.(phase := Solved(seen, worker.borrowed))];
    }

    method RollBack(w: WorkerId)
      requires w in workers && workers[w].phase.Solved?
      modifies this`workers
      ensures View() == Next(old(View()), Rollback(w))
      ensures workers == old(workers)[w := old(workers)[w].(phase := Synced(old(workers)[w].phase.revision))]
    {
      workers := workers[w := workers[w].(phase := Synced(workers[w].phase.revision))];
    }

    method CommitBatch(w: WorkerId)
      requires w in workers && workers[w].phase.Solved?
      modifies this`workers, this`commits
      ensures View() == Next(old(View()), Commit(w))
      ensures ladder != None ==> commits == old(commits) + [CommitRecord(old(workers)[w].phase.solvedUnder, ladder.value)]
      ensures workers == old(workers)[w := old(workers)[w].(phase := Settled(old(workers)[w].phase.revision))]
    {
      commits := commits + [CommitRecord(workers[w].phase.solvedUnder, InForce(View()))];
      workers := workers[w := workers[w].(phase := Settled(workers[w].phase.revision))];
    }

    /** Merges the batch's delta, unless the learner is gone. */
    method MergeDelta(w: WorkerId)
      requires w in workers && workers[w].phase.Settled?
      modifies this`learners
      ensures View() == Next(old(View()), Merge(w))
      ensures var p := workers[w].profile;
              learners == if p in old(learners) then old(learners)[p := old(learners)[p] + {workers[w].phase.revision}]
                          else old(learners)
    {
      var p := workers[w].profile;
      if p in learners {
        learners := learners[p := learners[p] + {workers[w].phase.revision}];
      }
    }

    method ReleaseGuard(w: WorkerId)
      modifies this`workers
      ensures View() == Next(old(View()), Release(w))
      ensures workers == old(workers) - {w}
    {
      workers := workers - {w};
    }

    /** Any one event. */
    method Perform(e: Event)
      modifies this
      ensures View() == Next(old(View()), e)
    {
      match e {
        case Initialize(tiers) => InitializeCapacityTiers(tiers);
        case Build => if !built && ladder.Some? { BuildScheduler(); }
        case Acquire(w, profile) => if built && ladder.Some? && w !in workers { CapacityTiersGuard(w, profile); }
        case ReadRevision(w) => if w in workers && workers[w].phase.Guarded? { CapacityTierRevision(w); }
        case Sync(w) => if w in workers && workers[w].phase.Informed? { SyncLearners(w); }
        case Solve(w, inPlace) => if w in workers && workers[w].phase.Synced? { SolveBatch(w, inPlace); }
        case Rollback(w) => if w in workers && workers[w].phase.Solved? { RollBack(w); }
        case Commit(w) => if w in workers && workers[w].phase.Solved? { CommitBatch(w); }
        case Merge(w) => if w in workers && workers[w].phase.Settled? { MergeDelta(w); }
        case Release(w) => ReleaseGuard(w);
        case Replace(tiers) => var granted := ReplaceCapacityTiers(tiers);
      }
    }

    /** Other parties act while worker `w` holds its guard. */
    method Pause(events: seq<Event>, w: WorkerId)
      requires Inv(View()) && w in workers && AllNotOf(events, w)
      modifies this
      ensures Inv(View()) && w in workers && workers[w] == old(workers)[w]
      ensures UnderOneLadder(old(View()), View())
    {
      hide Next, Inv, AllNotOf, UnderOneLadder;
      GuardFreezesLadder(View(), events, w);
      for i := 0 to |events|
        invariant RunFrom(View(), events[i..]) == RunFrom(old(View()), events)
      {
        assert events[i..][0] == events[i] && events[i..][1..] == events[i + 1..];
        Perform(events[i]);
      }
    }

    /** Borrows the ladder and brings the learners up to its revision. */
    method Begin(w: WorkerId, profile: ProfileId, first: seq<Event>, second: seq<Event>)
      requires Inv(View()) && built && w !in workers && AllNotOf(first, w) && AllNotOf(second, w)
      modifies this
      ensures Inv(View()) && Holds(w, old(ladder)) && workers[w].phase.Synced?
      ensures UnderOneLadder(old(View()), View())
    {
      hide Next, Inv, AllNotOf, UnderOneLadder;
      ghost var start := View();
      BuiltHasLadder(start);
      Stepping(start, Acquire(w, profile));
      CapacityTiersGuard(w, profile);
      ghost var guarded := View();
      Pause(first, w);
      Passing(start, guarded, View(), w, ReadRevision(w));
      CapacityTierRevision(w);
      ghost var informed := View();
      Pause(second, w);
      Passing(start, informed, View(), w, Sync(w));
      SyncLearners(w);
    }

    /** Solves, and others act before the outcome is known. */
    method Attempt(w: WorkerId, inPlace: bool, events: seq<Event>)
      requires Inv(View()) && w in workers && workers[w].phase.Synced? && AllNotOf(events, w)
      modifies this
      ensures Inv(View()) && Holds(w, Some(old(workers)[w].borrowed)) && workers[w].phase.Solved?
      ensures workers[w].phase.solvedUnder == old(workers)[w].borrowed
      ensures UnderOneLadder(old(View()), View()) && |solves| > |old(solves)|
    {
      hide Next, Inv, AllNotOf, UnderOneLadder;
      ghost var start := View();
      GuardedIsSetUp(start, w);
      Stepping(start, Solve(w, inPlace));
      SolveAddsRecord(start, w, inPlace);
      SolveBatch(w, inPlace);
      ghost var solved := View();
      Pause(events, w);
      UnderOneLadderTransitive(start, solved, View());
      SolvesGrow(solved, View());
    }

    /** Commits, learns and gives the ladder back. */
    method Conclude(w: WorkerId, inPlace: bool, events: seq<Event>)
      requires Inv(View()) && w in workers && workers[w].phase.Solved? && AllNotOf(events, w)
      modifies this
      ensures Inv(View()) && w !in workers
      ensures UnderOneLadder(old(View()), View()) && |commits| > |old(commits)|
    {
      hide Next, Inv, AllNotOf, UnderOneLadder;
      ghost var start := View();
      GuardedIsSetUp(start, w);
      Stepping(start, Commit(w));
      CommitAddsRecord(start, w);
      CommitBatch(w);
      ghost var settled := View();
      Pause(events, w);
      ghost var after := View();
      UnderOneLadderTransitive(start, settled, after);
      SolvesGrow(settled, after);
      if !inPlace {
        GuardedIsSetUp(after, w);
        Stepping(after, Merge(w));
        MergeDelta(w);
        UnderOneLadderTransitive(start, after, View());
        SolvesGrow(after, View());
      }
      ghost var learned := View();
      GuardedIsSetUp(learned, w);
      Stepping(learned, Release(w));
      ReleaseGuard(w);
      UnderOneLadderTransitive(start, learned, View());
      SolvesGrow(learned, View());
    }

    ghost predicate Holds(w: WorkerId, borrowed: Option<Ladder>)
      reads this
    {
      w in workers && Some(workers[w].borrowed) == borrowed
    }

    /** One worker, from borrowing the ladder to giving it back, with `rollbacks`
        refused commits and anything others do in its pauses. One ladder and one
        revision are in force throughout; every solve from first to last, its own
        and anybody else's, prices with that ladder and has learned under that
        revision only, and every commit is made under it. */
    method BatchWorker(w: WorkerId, profile: ProfileId, inPlace: bool, rollbacks: nat, meanwhile: nat -> seq<Event>)
        returns (solvedUnder: Ladder)
      requires Inv(View()) && built && w !in workers && forall n :: AllNotOf(meanwhile(n), w)
      modifies this
      ensures Inv(View()) && w !in workers
      ensures Some(solvedUnder) == old(ladder) == ladder && revision == old(revision)
      ensures |solves| > |old(solves)| + rollbacks && |commits| > |old(commits)|
      ensures old(solves) <= solves && old(commits) <= commits
      ensures forall i :: |old(solves)| <= i < |solves| ==>
                solves[i].ladder == solvedUnder && solves[i].learnedFrom <= {revision}
      ensures forall i :: |old(commits)| <= i < |commits| ==> commits[i] == CommitRecord(solvedUnder, solvedUnder)
    {
      hide Next, Inv, AllNotOf, UnderOneLadder;
      ghost var start := View();
      BuiltHasLadder(start);
      Begin(w, profile, meanwhile(0), meanwhile(1));
      SolvesGrow(start, View());
      for attempt := 0 to rollbacks
        invariant Inv(View()) && Holds(w, start.ladder) && workers[w].phase.Synced?
        invariant UnderOneLadder(start, View()) && |solves| >= |start.solves| + attempt
      {
        RefusedAttempt(w, inPlace, meanwhile(2 * attempt + 2), meanwhile(2 * attempt + 3), start);
      }
      ghost var synced := View();
      Attempt(w, inPlace, meanwhile(2 * rollbacks + 2));
      ghost var solved := View();
      UnderOneLadderTransitive(start, synced, solved);
      solvedUnder := workers[w].phase.solvedUnder;
      Conclude(w, inPlace, meanwhile(2 * rollbacks + 3));
      UnderOneLadderTransitive(start, solved, View());
      SolvesGrow(start, solved);
      SolvesGrow(solved, View());
      Recorded(start, View());
    }

    /** A solve whose commit is refused. */
    method RefusedAttempt(w: WorkerId, inPlace: bool, first: seq<Event>, second: seq<Event>, ghost start: State)
      requires Inv(View()) && AllNotOf(first, w) && AllNotOf(second, w)
      requires Holds(w, start.ladder) && workers[w].phase.Synced? && UnderOneLadder(start, View())
      modifies this
      ensures Inv(View()) && Holds(w, start.ladder) && workers[w].phase.Synced? && UnderOneLadder(start, View())
      ensures |solves| > |old(solves)|
    {
      hide Next, Inv, AllNotOf, UnderOneLadder;
      ghost var synced := View();
      Attempt(w, inPlace, first);
      Passing(start, synced, View(), w, Rollback(w));
      RollBack(w);
      ghost var refused := View();
      Pause(second, w);
      UnderOneLadderTransitive(start, refused, View());
      SolvesGrow(refused, View());
    }
  }

  // ── the worker's steps, one at a time ──────────────────────────────────

  lemma BuiltHasLadder(s: State)
    requires Inv(s) && s.built
    ensures s.ladder.Some?
  {
  }

  lemma Stepping(s: State, e: Event)
    requires Inv(s) && s.built && s.ladder.Some? && !e.Replace?
    ensures Inv(Next(s, e)) && UnderOneLadder(s, Next(s, e))
  {
    hide Next, Inv, UnderOneLadder;
    StepKeeps(s, e);
    StepUnderOneLadder(s, e);
  }

  /** From `start` by way of `mid` to `s`, and one step further. */
  lemma Passing(start: State, mid: State, s: State, w: WorkerId, e: Event)
    requires UnderOneLadder(start, mid) && UnderOneLadder(mid, s)
    requires Inv(s) && w in s.workers && !e.Replace?
    ensures Inv(Next(s, e)) && UnderOneLadder(start, Next(s, e)) && |mid.solves| <= |s.solves|
  {
    hide Next, Inv, UnderOneLadder;
    GuardedIsSetUp(s, w);
    SolvesGrow(mid, s);
    UnderOneLadderTransitive(start, mid, s);
    Stepping(s, e);
    UnderOneLadderTransitive(start, s, Next(s, e));
  }

  lemma SolvesGrow(s: State, t: State)
    requires UnderOneLadder(s, t)
    ensures |s.solves| <= |t.solves| && |s.commits| <= |t.commits|
    ensures t.ladder == s.ladder && t.revision == s.revision && t.built == s.built
  {
  }

  lemma SolveAddsRecord(s: State, w: WorkerId, inPlace: bool)
    requires w in s.workers && s.workers[w].phase.Synced?
    ensures |Next(s, Solve(w, inPlace)).solves| == |s.solves| + 1
  {
  }

  lemma CommitAddsRecord(s: State, w: WorkerId)
    requires w in s.workers && s.workers[w].phase.Solved?
    ensures |Next(s, Commit(w)).commits| == |s.commits| + 1
  {
  }

  lemma Recorded(s: State, t: State)
    requires UnderOneLadder(s, t) && s.ladder.Some?
    ensures s.solves <= t.solves && s.commits <= t.commits && t.ladder == s.ladder && t.revision == s.revision
    ensures forall i :: |s.solves| <= i < |t.solves| ==>
              t.solves[i].ladder == s.ladder.value && t.solves[i].learnedFrom <= {s.revision}
    ensures forall i :: |s.commits| <= i < |t.commits| ==> t.commits[i] == CommitRecord(s.ladder.value, s.ladder.value)
  {
  }
}
