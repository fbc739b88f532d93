/** The dispatcher and its workers as an interleaved state machine: arrivals,
    profile picks, claims, commits, requeues and releases happen in any order. */
module BatchQueue {
  import opened Options
  import opened Queues
  import opened RoundRobin

  datatype Config = Config(batchSize: nat, maxWorkers: nat)

  /** A claimed batch and what its dispatcher remembered about it. */
  datatype Worker = Worker(batch: seq<Request>, slot: int, pendingCount: nat)

  /** A worker that has committed or put back its batch but still holds its reservation. */
  datatype Outcome = Outcome(scheduled: bool, slot: int, pendingCount: nat)

  /** A dispatcher between counting and claiming, holding the scheduler mutex. */
  datatype Pick = Pick(entry: Entry, slot: int, minPending: nat)

  datatype State = State(
    arrived: seq<Request>,    // history: every accepted request, in arrival order
    committed: seq<Request>,  // history: every committed request, in commit order
    pending: seq<Request>,
    inFlight: map<ProfileId, Worker>,
    finished: map<ProfileId, Outcome>,
    activeProfiles: set<ProfileId>,
    activeWorkers: nat,
    cursor: Option<ProfileId>,
    lastInfeasible: map<ProfileId, (int, nat)>,
    picking: Option<Pick>)

  const START := State([], [], [], map[], map[], {}, 0, None, map[], None)

  datatype Event =
    | Arrive(r: Request)
    | Choose(slot: int, flush: bool, counts: seq<Entry>)
    | Claim
    | Commit(p: ProfileId)
    | PutBack(p: ProfileId)
    | Release(p: ProfileId)

  /** A true count of the queue: each profile once, with all its requests. */
  ghost predicate TrueCounts(q: seq<Request>, counts: seq<Entry>) {
    && (forall i, j :: 0 <= i < j < |counts| ==> counts[i].profile != counts[j].profile)
    && (forall e :: e in counts ==> e.count == |OfProfile(q, e.profile)| > 0)
    && forall p: ProfileId :: OfProfile(q, p) != [] ==> exists e :: e in counts && e.profile == p
  }

  /** The claim the dispatcher makes for its pick. */
  function ClaimOf(cfg: Config, s: State, pick: Pick): seq<Request> {
    Claimed(s.pending, pick.entry.profile, Least(pick.entry.count, cfg.batchSize))
  }

  /** Reserves profile and worker for a claimed batch and moves the cursor. */
  function Launch(s: State, pick: Pick, batch: seq<Request>, rest: seq<Request>): State {
    var p := pick.entry.profile;
    s.(pending := rest,
       inFlight := s.inFlight[p := Worker(batch, pick.slot, pick.entry.count)],
       activeProfiles := s.activeProfiles + {p},
       activeWorkers := s.activeWorkers + 1,
       cursor := Some(p),
       picking := None)
  }

  /** One step; an event that is not enabled changes nothing. */
  ghost function Next(cfg: Config, s: State, e: Event): State {
    match e
    case Arrive(r) => s.(arrived := s.arrived + [r], pending := s.pending + [r])
    case Choose(slot, flush, counts) =>
      var minPending := if flush then 1 else cfg.batchSize;
      if s.picking.Some? || s.activeWorkers >= cfg.maxWorkers || !TrueCounts(s.pending, counts) then s
      else
        var next := NextProfileToDispatch(counts, s.cursor, s.activeProfiles, s.lastInfeasible, slot, minPending);
        if next.None? then s else s.(picking := Some(Pick(next.value, slot, minPending)))
    case Claim =>
      if s.picking.None? then s
      else
        var pick := s.picking.value;
        var p, batch := pick.entry.profile, ClaimOf(cfg, s, pick);
        var rest := Remaining(s.pending, p, Least(pick.entry.count, cfg.batchSize));
        if batch == [] then s.(pending := rest, picking := None)
        else if |batch| < pick.minPending then s.(pending := batch + rest, picking := None)
        else Launch(s, pick, batch, rest)
    case Commit(p) =>
      if p !in s.inFlight then s
      else
        var w := s.inFlight[p];
        s.(committed := s.committed + w.batch, inFlight := s.inFlight - {p},
           finished := s.finished[p := Outcome(true, w.slot, w.pendingCount)])
    case PutBack(p) =>
      if p !in s.inFlight then s
      else
        var w := s.inFlight[p];
        s.(pending := w.batch + s.pending, inFlight := s.inFlight - {p},
           finished := s.finished[p := Outcome(false, w.slot, w.pendingCount)])
    case Release(p) =>
      if p !in s.finished then s
      else
        var o := s.finished[p];
        s.(activeWorkers := if s.activeWorkers > 0 then s.activeWorkers - 1 else 0,
           activeProfiles := s.activeProfiles - {p},
           finished := s.finished - {p},
           lastInfeasible := if o.scheduled then s.lastInfeasible - {p}
                             else s.lastInfeasible[p := (o.slot, o.pendingCount)])
  }

  ghost function InFlightOf(s: State, p: ProfileId): seq<Request> {
    if p in s.inFlight then s.inFlight[p].batch else []
  }

  /** Committed, then in flight, then pending: together the profile's arrivals in order. */
  ghost predicate InOrder(s: State, p: ProfileId) {
    OfProfile(s.committed, p) + InFlightOf(s, p) + OfProfile(s.pending, p) == OfProfile(s.arrived, p)
  }

  /** Reserved profiles are those in flight or finished, each once, each with one worker. */
  ghost predicate Reserved(active: set<ProfileId>, inFlight: set<ProfileId>, finished: set<ProfileId>, workers: nat,
                           cap: nat)
  {
    active == inFlight + finished && inFlight !! finished && workers == |active| <= cap
  }

  ghost predicate WorkersCounted(cfg: Config, s: State) {
    && Reserved(s.activeProfiles, s.inFlight.Keys, s.finished.Keys, s.activeWorkers, cfg.maxWorkers)
    && (s.picking.Some? ==> s.activeWorkers < cfg.maxWorkers)
  }

  ghost predicate BatchOk(cfg: Config, batch: seq<Request>, p: ProfileId) {
    && 0 < |batch| <= cfg.batchSize
    && forall q: ProfileId :: OfProfile(batch, q) == if q == p then batch else []
  }

  ghost predicate BatchesHomogeneous(cfg: Config, s: State) {
    forall p :: p in s.inFlight ==> BatchOk(cfg, s.inFlight[p].batch, p)
  }

  /** A standing pick is of an idle profile that still has the work it was picked for. */
  ghost predicate PickStands(cfg: Config, s: State) {
    s.picking.Some? ==>
      var pick := s.picking.value;
      && pick.entry.profile !in s.activeProfiles
      && pick.minPending <= pick.entry.count <= |OfProfile(s.pending, pick.entry.profile)|
      && pick.entry.count > 0 && (pick.minPending <= 1 || pick.minPending <= cfg.batchSize)
  }

  ghost predicate Inv(cfg: Config, s: State) {
    && (forall p :: InOrder(s, p))
    && WorkersCounted(cfg, s)
    && BatchesHomogeneous(cfg, s)
    && PickStands(cfg, s)
  }

  // ── every step keeps each part ─────────────────────────────────────────

  /** The claim gets what was counted, so the dispatcher's undersized put-back is never taken. */
  lemma ClaimIsFull(cfg: Config, s: State)
    requires PickStands(cfg, s) && s.picking.Some?
    ensures var pick := s.picking.value;
            && |ClaimOf(cfg, s, pick)| == Least(pick.entry.count, cfg.batchSize)
            && (cfg.batchSize > 0 ==> |ClaimOf(cfg, s, pick)| >= pick.minPending && ClaimOf(cfg, s, pick) != [])
  {
    var pick := s.picking.value;
    ClaimedIsOldest(s.pending, pick.entry.profile, Least(pick.entry.count, cfg.batchSize));
  }

  lemma ClaimOrder(cfg: Config, s: State, p: ProfileId)
    requires InOrder(s, p)
    requires s.picking.Some? ==> s.picking.value.entry.profile !in s.inFlight
    ensures InOrder(Next(cfg, s, Claim), p)
  {
    hide OfProfile, Claimed, Remaining;
    if s.picking.Some? {
      var pick := s.picking.value;
      var p0, n := pick.entry.profile, Least(pick.entry.count, cfg.batchSize);
      ClaimedIsOldest(s.pending, p0, n);
      RemainingIsRest(s.pending, p0, n, p);
      ClaimThenRequeue(s.pending, p0, n, p);
      assert Claimed(s.pending, p0, n) == [] ==> [] + Remaining(s.pending, p0, n) == Remaining(s.pending, p0, n);
    }
  }

  lemma FinishOrder(cfg: Config, s: State, p0: ProfileId, p: ProfileId)
    requires InOrder(s, p) && BatchesHomogeneous(cfg, s)
    ensures InOrder(Next(cfg, s, Commit(p0)), p) && InOrder(Next(cfg, s, PutBack(p0)), p)
  {
    hide OfProfile;
    if p0 in s.inFlight {
      var batch := s.inFlight[p0].batch;
      assert BatchOk(cfg, batch, p0);
      OfProfileConcat(s.committed, batch, p);
      OfProfileConcat(batch, s.pending, p);
    }
  }

  lemma StepOrder(cfg: Config, s: State, e: Event, p: ProfileId)
    requires InOrder(s, p) && BatchesHomogeneous(cfg, s)
    requires s.picking.Some? ==> s.picking.value.entry.profile !in s.inFlight
    ensures InOrder(Next(cfg, s, e), p)
  {
    hide OfProfile, Claimed, Remaining, NextProfileToDispatch, TrueCounts, BatchesHomogeneous;
    match e
    case Arrive(r) =>
      OfProfileConcat(s.arrived, [r], p);
      OfProfileConcat(s.pending, [r], p);
    case Choose(_, _, _) =>
    case Claim => ClaimOrder(cfg, s, p);
    case Commit(p0) => FinishOrder(cfg, s, p0, p);
    case PutBack(p0) => FinishOrder(cfg, s, p0, p);
    case Release(_) =>
  }

  lemma Reserve(active: set<ProfileId>, inFlight: set<ProfileId>, finished: set<ProfileId>, workers: nat,
                cap: nat, p: ProfileId)
    requires Reserved(active, inFlight, finished, workers, cap) && p !in active && workers < cap
    ensures Reserved(active + {p}, inFlight + {p}, finished, workers + 1, cap)
  {
  }

  lemma Finish(active: set<ProfileId>, inFlight: set<ProfileId>, finished: set<ProfileId>, workers: nat,
               cap: nat, p: ProfileId)
    requires Reserved(active, inFlight, finished, workers, cap) && p in inFlight
    ensures Reserved(active, inFlight - {p}, finished + {p}, workers, cap)
  {
  }

  lemma Unreserve(active: set<ProfileId>, inFlight: set<ProfileId>, finished: set<ProfileId>, workers: nat,
                  cap: nat, p: ProfileId)
    requires Reserved(active, inFlight, finished, workers, cap) && p in finished
    ensures workers > 0 && Reserved(active - {p}, inFlight, finished - {p}, workers - 1, cap)
  {
    assert p in active;
    assert |active| == |active - {p}| + 1;
  }

  lemma KeysPut<V>(m: map<ProfileId, V>, p: ProfileId, v: V)
    ensures m[p := v].Keys == m.Keys + {p}
  {
  }

  lemma KeysRemove<V>(m: map<ProfileId, V>, p: ProfileId)
    ensures (m - {p}).Keys == m.Keys - {p}
  {
  }

  lemma StepWorkers(cfg: Config, s: State, e: Event)
    requires WorkersCounted(cfg, s)
    requires s.picking.Some? ==> s.picking.value.entry.profile !in s.activeProfiles
    ensures WorkersCounted(cfg, Next(cfg, s, e))
  {
    hide OfProfile, Claimed, Remaining, NextProfileToDispatch, TrueCounts, Reserved;
    match e
    case Arrive(_) =>
    case Choose(_, _, _) =>
    case Claim => StepClaim(cfg, s);
    case Commit(p) => StepFinish(cfg, s, e, p);
    case PutBack(p) => StepFinish(cfg, s, e, p);
    case Release(p) => StepRelease(cfg, s, p);
  }

  lemma StepRelease(cfg: Config, s: State, p: ProfileId)
    requires WorkersCounted(cfg, s)
    ensures WorkersCounted(cfg, Next(cfg, s, Release(p)))
  {
    hide Reserved;
    if p in s.finished {
      Unreserve(s.activeProfiles, s.inFlight.Keys, s.finished.Keys, s.activeWorkers, cfg.maxWorkers, p);
      KeysRemove(s.finished, p);
    }
  }

  lemma LaunchCounted(cfg: Config, s: State, pick: Pick, batch: seq<Request>, rest: seq<Request>)
    requires WorkersCounted(cfg, s) && s.picking.Some? && pick.entry.profile !in s.activeProfiles
    ensures WorkersCounted(cfg, Launch(s, pick, batch, rest))
  {
    hide Reserved;
    var p := pick.entry.profile;
    Reserve(s.activeProfiles, s.inFlight.Keys, s.finished.Keys, s.activeWorkers, cfg.maxWorkers, p);
    KeysPut(s.inFlight, p, Worker(batch, pick.slot, pick.entry.count));
  }

  lemma StepClaim(cfg: Config, s: State)
    requires WorkersCounted(cfg, s)
    requires s.picking.Some? ==> s.picking.value.entry.profile !in s.activeProfiles
    ensures WorkersCounted(cfg, Next(cfg, s, Claim))
  {
    hide ClaimOf, Remaining, Reserved, Launch;
    if s.picking.Some? {
      var pick := s.picking.value;
      var rest := Remaining(s.pending, pick.entry.profile, Least(pick.entry.count, cfg.batchSize));
      LaunchCounted(cfg, s, pick, ClaimOf(cfg, s, pick), rest);
    }
  }

  lemma StepFinish(cfg: Config, s: State, e: Event, p: ProfileId)
    requires WorkersCounted(cfg, s) && (e == Commit(p) || e == PutBack(p))
    ensures WorkersCounted(cfg, Next(cfg, s, e))
  {
    hide OfProfile, Reserved;
    if p in s.inFlight {
      var w := s.inFlight[p];
      KeysRemove(s.inFlight, p);
      KeysPut(s.finished, p, Outcome(e.Commit?, w.slot, w.pendingCount));
      Finish(s.activeProfiles, s.inFlight.Keys, s.finished.Keys, s.activeWorkers, cfg.maxWorkers, p);
    }
  }

  lemma StepBatches(cfg: Config, s: State, e: Event)
    requires BatchesHomogeneous(cfg, s)
    ensures BatchesHomogeneous(cfg, Next(cfg, s, e))
  {
    hide OfProfile, Claimed, Remaining, NextProfileToDispatch, TrueCounts, BatchOk;
    if e.Claim? && s.picking.Some? {
      ClaimedBatchOk(cfg, s.pending, s.picking.value.entry.profile,
                     Least(s.picking.value.entry.count, cfg.batchSize));
    }
  }

  lemma ClaimedBatchOk(cfg: Config, q: seq<Request>, p: ProfileId, n: nat)
    requires n <= cfg.batchSize
    ensures Claimed(q, p, n) != [] ==> BatchOk(cfg, Claimed(q, p, n), p)
  {
    forall r ensures OfProfile(Claimed(q, p, n), r) == if r == p then Claimed(q, p, n) else [] {
      OfProfileOfClaim(q, p, n, r);
    }
  }

  lemma StepPick(cfg: Config, s: State, e: Event)
    requires PickStands(cfg, s) && WorkersCounted(cfg, s)
    ensures PickStands(cfg, Next(cfg, s, e))
  {
    hide OfProfile, Claimed, Remaining, NextProfileToDispatch;
    match e
    case Arrive(r) =>
      if s.picking.Some? {
        OfProfileConcat(s.pending, [r], s.picking.value.entry.profile);
      }
    case Choose(slot, flush, counts) =>
      NextIsCyclic(counts, s.cursor, s.activeProfiles, s.lastInfeasible, slot, if flush then 1 else cfg.batchSize);
    case Claim =>
    case Commit(_) =>
    case PutBack(p0) =>
      if s.picking.Some? && p0 in s.inFlight {
        OfProfileConcat(s.inFlight[p0].batch, s.pending, s.picking.value.entry.profile);
      }
    case Release(_) =>
  }

  lemma StepKeeps(cfg: Config, s: State, e: Event)
    requires Inv(cfg, s)
    ensures Inv(cfg, Next(cfg, s, e))
  {
    hide Next, InOrder, BatchesHomogeneous;
    StepWorkers(cfg, s, e);
    StepBatches(cfg, s, e);
    StepPick(cfg, s, e);
    forall p ensures InOrder(Next(cfg, s, e), p) {
      assert InOrder(s, p);
      StepOrder(cfg, s, e, p);
    }
  }

  ghost function Run(cfg: Config, events: seq<Event>): State {
    if events == [] then START else Next(cfg, Run(cfg, events[..|events| - 1]), events[|events| - 1])
  }

  /** In every run no request is lost, duplicated or reordered within its
      profile, and the workers counted are exactly the reserved profiles,
      never more than the cap. */
  lemma {:induction false} RunsConserveRequests(cfg: Config, events: seq<Event>)
    ensures Inv(cfg, Run(cfg, events))
  {
    if events != [] {
      RunsConserveRequests(cfg, events[..|events| - 1]);
      StepKeeps(cfg, Run(cfg, events[..|events| - 1]), events[|events| - 1]);
    }
  }

  /** The part of that which an observer sees: one profile's history at any moment. */
  lemma NothingLostOrReordered(cfg: Config, events: seq<Event>, p: ProfileId)
    ensures var s := Run(cfg, events);
            && OfProfile(s.committed, p) + InFlightOf(s, p) + OfProfile(s.pending, p) == OfProfile(s.arrived, p)
            && s.activeWorkers == |s.activeProfiles| <= cfg.maxWorkers
            && s.inFlight.Keys <= s.activeProfiles
  {
    RunsConserveRequests(cfg, events);
    assert InOrder(Run(cfg, events), p);
  }

  /** Dispatch is serial in the cursor: a claim moves it to the profile picked
      as its cyclic successor, and nothing else moves it. */
  lemma CursorFollowsClaims(cfg: Config, s: State, e: Event)
    requires Inv(cfg, s) && cfg.batchSize > 0
    ensures Next(cfg, s, e).cursor
         == if e.Claim? && s.picking.Some? then Some(s.picking.value.entry.profile) else s.cursor
  {
    if e.Claim? && s.picking.Some? {
      ClaimIsFull(cfg, s);
    }
  }
}
