/** The reader/writer discipline around the tier ladder, and the revision that
    discards online-learned costs when the ladder changes.

    Workers hold the read side from before the solve until after the commit;
    installing and replacing a ladder takes the write side. Service and scheduler
    both install the configured ladder while they are set up; a ladder installed
    by then, or replaced since, stays. */
module LadderGuard {
  import opened Options
  import opened Tiers
  import opened Queues

  type Ladder = seq<CapacityTier>

  type WorkerId = nat

  datatype Phase =
    | Guarded                                        // holds the read guard
    | Informed(revision: nat)                        // has read the revision
    | Synced(revision: nat)                          // has checked the cached learners against it
    | Solved(revision: nat, solvedUnder: Ladder)     // has a proposal
    | Settled(revision: nat)                         // proposal committed, learning still to be merged

  datatype Worker = Worker(profile: ProfileId, borrowed: Ladder, phase: Phase)

  /** A solve: the ladder it priced with and the revisions of all costs it learned from. */
  datatype SolveRecord = SolveRecord(ladder: Ladder, learnedFrom: set<nat>)

  /** A commit: the ladder the batch was solved with and the one in force. */
  datatype CommitRecord = CommitRecord(solvedUnder: Ladder, inForce: Ladder)

  datatype State = State(
    ladder: Option<Ladder>,
    revision: nat,
    built: bool,                          // the scheduler has been set up
    cachedRevision: nat,                  // revision the learners belong to
    learners: map<ProfileId, set<nat>>,   // per profile: revisions under which its costs were learned
    workers: map<WorkerId, Worker>,       // the readers
    ladders: map<nat, Ladder>,            // history: ladder of each revision
    solves: seq<SolveRecord>,
    commits: seq<CommitRecord>)

  datatype Event =
    | Initialize(ladder: Ladder)
    | Build
    | Acquire(w: WorkerId, profile: ProfileId)
    | ReadRevision(w: WorkerId)
    | Sync(w: WorkerId)
    | Solve(w: WorkerId, inPlace: bool)
    | Rollback(w: WorkerId)
    | Commit(w: WorkerId)
    | Merge(w: WorkerId)
    | Release(w: WorkerId)
    | Replace(ladder: Ladder)

  const START := State(None, 0, false, 0, map[], map[], map[], [], [])

  function Learned(s: State, p: ProfileId): set<nat> {
    if p in s.learners then s.learners[p] else {}
  }

  function InForce(s: State): Ladder { if s.ladder.Some? then s.ladder.value else [] }

  function SetPhase(s: State, w: WorkerId, phase: Phase): State
    requires w in s.workers
  {
    s.(workers := s.workers[w := s.workers[w].(phase := phase)])
  }

  /** One step; an event that is not enabled changes nothing. */
  function Next(s: State, e: Event): State {
    match e
    case Initialize(ladder) =>
      if s.workers != map[] || s.ladder.Some? then s
      else s.(ladder := Some(ladder), ladders := s.ladders[s.revision := ladder])
    case Build =>  // after installing the configured ladder, the scheduler notes the revision
      if s.built || s.ladder.None? then s else s.(built := true, cachedRevision := s.revision)
    case Acquire(w, profile) =>
      if !s.built || s.ladder.None? || w in s.workers then s
      else s.(workers := s.workers[w := Worker(profile, s.ladder.value, Guarded)])
    case ReadRevision(w) =>
      if w in s.workers && s.workers[w].phase.Guarded? then SetPhase(s, w, Informed(s.revision)) else s
    case Sync(w) =>
      if w in s.workers && s.workers[w].phase.Informed? then
        var revision := s.workers[w].phase.revision;
        var t := SetPhase(s, w, Synced(revision));
        if s.cachedRevision != revision then t.(learners := map[], cachedRevision := revision) else t
      else s
    case Solve(w, inPlace) =>
      if w in s.workers && s.workers[w].phase.Synced? then
        var worker := s.workers[w];
        var revision, p := worker.phase.revision, worker.profile;
        var learned := Learned(s, p);
        var t := SetPhase(s, w, Solved(revision, worker.borrowed));
        t.(solves := s.solves + [SolveRecord(worker.borrowed, learned)],
           learners := s.learners[p := if inPlace then learned + {revision} else learned])
      else s
    case Rollback(w) =>
      if w in s.workers && s.workers[w].phase.Solved? then SetPhase(s, w, Synced(s.workers[w].phase.revision)) else s
    case Commit(w) =>
      if w in s.workers && s.workers[w].phase.Solved? then
        SetPhase(s, w, Settled(s.workers[w].phase.revision))
        .(commits := s.commits + [CommitRecord(s.workers[w].phase.solvedUnder, InForce(s))])
      else s
    case Merge(w) =>
      if w in s.workers && s.workers[w].phase.Settled? && s.workers[w].profile in s.learners then
        var p := s.workers[w].profile;
        s.(learners := s.learners[p := s.learners[p] + {s.workers[w].phase.revision}])
      else s
    case Release(w) => s.(workers := s.workers - {w})
    case Replace(ladder) =>
      if s.workers != map[] then s  // the write lock waits for every reader
      else s.(ladder := Some(ladder), revision := s.revision + 1, ladders := s.ladders[s.revision + 1 := ladder])
  }

  ghost predicate WorkerOk(s: State, worker: Worker) {
    && s.ladder == Some(worker.borrowed)
    && (!worker.phase.Guarded? ==> worker.phase.revision == s.revision)
    && (worker.phase.Synced? || worker.phase.Solved? || worker.phase.Settled? ==> s.cachedRevision == s.revision)
    && (worker.phase.Solved? ==> worker.phase.solvedUnder == worker.borrowed)
  }

  /** All costs a solve learned from were learned under the very ladder it prices with. */
  ghost predicate SolveOk(s: State, r: SolveRecord) {
    forall revision :: revision in r.learnedFrom ==> revision in s.ladders && s.ladders[revision] == r.ladder
  }

  ghost predicate Inv(s: State) {
    && (s.ladder.Some? ==> s.revision in s.ladders && s.ladders[s.revision] == s.ladder.value)
    && (s.built ==> s.ladder.Some?)
    && (!s.built ==> s.workers == map[] && s.learners == map[])
    && (s.ladder.None? ==> s.revision !in s.ladders)
    && (forall r :: r in s.ladders ==> r <= s.revision)
    && s.cachedRevision <= s.revision
    && (forall p, r :: p in s.learners && r in s.learners[p] ==> r == s.cachedRevision)
    && (forall w :: w in s.workers ==> WorkerOk(s, s.workers[w]))
    && (forall i :: 0 <= i < |s.solves| ==> SolveOk(s, s.solves[i]))
    && forall i :: 0 <= i < |s.commits| ==> s.commits[i].solvedUnder == s.commits[i].inForce
  }

  lemma StepKeeps(s: State, e: Event)
    requires Inv(s)
    ensures Inv(Next(s, e))
  {
  }

  function Run(events: seq<Event>): State {
    if events == [] then START else Next(Run(events[..|events| - 1]), events[|events| - 1])
  }

  lemma {:induction false} RunsInvariant(events: seq<Event>)
    ensures Inv(Run(events))
  {
    if events != [] {
      RunsInvariant(events[..|events| - 1]);
      StepKeeps(Run(events[..|events| - 1]), events[|events| - 1]);
    }
  }

  /** In every interleaving of set-up, workers and replacements: a batch is committed
      under the ladder it was solved with, that ladder still being in force,
      and no solve reads a cost learned under another ladder. */
  lemma OneLadderPerBatch(events: seq<Event>)
    ensures var s := Run(events);
            && (forall i :: 0 <= i < |s.commits| ==> s.commits[i].solvedUnder == s.commits[i].inForce)
            && (forall i, r :: 0 <= i < |s.solves| && r in s.solves[i].learnedFrom ==>
                  r in s.ladders && s.ladders[r] == s.solves[i].ladder)
  {
    RunsInvariant(events);
    var s := Run(events);
    forall i, r | 0 <= i < |s.solves| && r in s.solves[i].learnedFrom
      ensures r in s.ladders && s.ladders[r] == s.solves[i].ladder
    {
      assert SolveOk(s, s.solves[i]);
    }
  }
}
