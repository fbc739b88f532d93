/** The executor's job queue: first-in-first-out buckets, one per second of
    due time, served by a single worker, with idempotent submission. Instants are
    microseconds. */
module JobQueue {
  import opened Options

  type Id = string

  datatype Dispatch = Dispatch(task: string, flavour: string, input: string, callbackUrl: Option<string>, context: string)

  datatype Job = Job(id: Id, dispatch: Dispatch, executeAt: nat)

  const SECOND := 1_000_000

  /** The due second, as an instant: microseconds are cut off. */
  function Key(job: Job): nat { job.executeAt - job.executeAt % SECOND }

  // ── the flat queue the buckets stand for ───────────────────────────────

  /** Behind everything due in the same second or earlier. */
  function Insert(queue: seq<Job>, job: Job): seq<Job> {
    if queue == [] || Key(job) < Key(queue[0]) then [job] + queue else [queue[0]] + Insert(queue[1..], job)
  }

  predicate Ordered(queue: seq<Job>) {
    forall i, j :: 0 <= i < j < |queue| ==> Key(queue[i]) <= Key(queue[j])
  }

  function Position(queue: seq<Job>, id: Id): nat {
    if queue == [] || queue[0].id == id then 0 else 1 + Position(queue[1..], id)
  }

  function IdCount(jobs: seq<Job>): multiset<Id> {
    if jobs == [] then multiset{} else multiset{jobs[0].id} + IdCount(jobs[1..])
  }

  lemma {:induction false} InsertPast(a: seq<Job>, b: seq<Job>, job: Job)
    requires forall i :: 0 <= i < |a| ==> Key(a[i]) <= Key(job)
    ensures Insert(a + b, job) == a + Insert(b, job)
  {
    if a == [] {
      assert a + b == b;
    } else {
      assert (a + b)[0] == a[0] && (a + b)[1..] == a[1..] + b;
      InsertPast(a[1..], b, job);
    }
  }

  /** Insertion is stable: everything due by the job's second keeps its place
      in front of it, everything due later moves back by one. */
  lemma {:induction false} InsertIsStable(queue: seq<Job>, job: Job, i: nat)
    requires Ordered(queue) && i < |queue|
    ensures |Insert(queue, job)| == |queue| + 1
    ensures if Key(queue[i]) <= Key(job) then Insert(queue, job)[i] == queue[i] else Insert(queue, job)[i + 1] == queue[i]
  {
    if Key(job) >= Key(queue[0]) && i > 0 {
      InsertIsStable(queue[1..], job, i - 1);
    } else if Key(job) >= Key(queue[0]) {
      InsertLength(queue[1..], job);
    }
  }

  lemma {:induction false} InsertLength(queue: seq<Job>, job: Job)
    ensures |Insert(queue, job)| == |queue| + 1
  {
    if queue != [] && Key(job) >= Key(queue[0]) {
      InsertLength(queue[1..], job);
    }
  }

  lemma {:induction false} InsertCounts(queue: seq<Job>, job: Job)
    ensures IdCount(Insert(queue, job)) == IdCount(queue) + multiset{job.id}
  {
    if queue == [] || Key(job) < Key(queue[0]) {
      assert ([job] + queue)[1..] == queue;
    } else {
      InsertCounts(queue[1..], job);
      assert ([queue[0]] + Insert(queue[1..], job))[1..] == Insert(queue[1..], job);
    }
  }

  lemma {:induction false} IdCountConcat(a: seq<Job>, b: seq<Job>)
    ensures IdCount(a + b) == IdCount(a) + IdCount(b)
  {
    if a == [] {
      assert a + b == b;
    } else {
      assert (a + b)[1..] == a[1..] + b;
      IdCountConcat(a[1..], b);
    }
  }

  lemma {:induction false} IdCountAt(jobs: seq<Job>, i: nat)
    requires i < |jobs|
    ensures IdCount(jobs)[jobs[i].id] >= 1
  {
    if i > 0 {
      IdCountAt(jobs[1..], i - 1);
    }
  }

  lemma {:induction false} IdCountTwice(jobs: seq<Job>, i: nat, j: nat)
    requires i < j < |jobs| && jobs[i].id == jobs[j].id
    ensures IdCount(jobs)[jobs[i].id] >= 2
  {
    if i > 0 {
      IdCountTwice(jobs[1..], i - 1, j - 1);
    } else {
      IdCountAt(jobs[1..], j - 1);
    }
  }

  /** The reported position is where the job stands, and that many other jobs
      stand before it; a job no longer queued gets the queue's length. */
  lemma {:induction false} PositionIsPlace(queue: seq<Job>, id: Id)
    ensures var p := Position(queue, id);
            && p <= |queue| && (forall i :: 0 <= i < p ==> queue[i].id != id)
            && (p < |queue| ==> queue[p].id == id)
  {
    if queue != [] && queue[0].id != id {
      PositionIsPlace(queue[1..], id);
    }
  }

  lemma {:induction false} PositionAt(queue: seq<Job>, id: Id, p: nat)
    requires p < |queue| && queue[p].id == id && forall i :: 0 <= i < p ==> queue[i].id != id
    ensures Position(queue, id) == p
  {
    if p > 0 {
      assert queue[0].id != id;
      PositionAt(queue[1..], id, p - 1);
    }
  }

  /** A later submission delays a queued job exactly if it is due in an earlier
      second. */
  lemma PositionAfterInsert(queue: seq<Job>, job: Job, p: nat)
    requires Ordered(queue) && p < |queue| && job.id != queue[p].id
    requires forall i :: 0 <= i < p ==> queue[i].id != queue[p].id
    ensures Position(Insert(queue, job), queue[p].id) == if Key(job) < Key(queue[p]) then p + 1 else p
  {
    var id, inserted := queue[p].id, Insert(queue, job);
    InsertIsStable(queue, job, p);
    var p' := if Key(job) < Key(queue[p]) then p + 1 else p;
    forall i | 0 <= i < p' ensures inserted[i].id != id {
      InsertPlaces(queue, job, i);
    }
    PositionAt(inserted, id, p');
  }

  /** Every entry after an insertion is the new job or an old entry at the same
      place or one further on. */
  lemma {:induction false} InsertPlaces(queue: seq<Job>, job: Job, i: nat)
    requires Ordered(queue) && i <= |queue|
    ensures |Insert(queue, job)| == |queue| + 1
    ensures var e := Insert(queue, job)[i];
            || e == job
            || (i < |queue| && e == queue[i] && Key(queue[i]) <= Key(job))
            || (i > 0 && e == queue[i - 1] && Key(queue[i - 1]) > Key(job))
  {
    InsertLength(queue, job);
    if queue != [] && Key(job) >= Key(queue[0]) && i > 0 {
      InsertPlaces(queue[1..], job, i - 1);
    }
  }

  lemma {:induction false} InsertOrders(queue: seq<Job>, job: Job)
    requires Ordered(queue)
    ensures Ordered(Insert(queue, job))
  {
    var inserted := Insert(queue, job);
    if queue != [] && Key(job) >= Key(queue[0]) {
      InsertOrders(queue[1..], job);
      var rest := Insert(queue[1..], job);
      InsertLength(queue[1..], job);
      forall i | 0 <= i < |rest| ensures Key(queue[0]) <= Key(rest[i]) {
        InsertPlaces(queue[1..], job, i);
      }
      assert inserted == [queue[0]] + rest;
    }
  }

  // ── buckets ────────────────────────────────────────────────────────────

  type Buckets = map<nat, seq<Job>>

  predicate IsLeast(s: set<nat>, m: nat) { m in s && forall x :: x in s ==> m <= x }

  lemma LeastExists(s: set<nat>)
    requires s != {}
    ensures exists m :: IsLeast(s, m)
  {
    var x :| x in s;
    var rest := s - {x};
    assert forall y :: y in s ==> y == x || y in rest;
    if rest == {} {
      assert IsLeast(s, x);
    } else {
      LeastExists(rest);
      var m :| IsLeast(rest, m);
      LeastOfTwo(s, x, m);
    }
  }

  lemma LeastOfTwo(s: set<nat>, x: nat, m: nat)
    requires x in s && IsLeast(s - {x}, m)
    ensures IsLeast(s, if x < m then x else m)
  {
    assert forall y :: y in s ==> y == x || y in s - {x};
  }

  function Least(s: set<nat>): (m: nat)
    requires s != {}
    ensures IsLeast(s, m)
  {
    LeastExists(s);
    var m :| IsLeast(s, m);
    m
  }

  function SortedKeys(s: set<nat>): (keys: seq<nat>)
    ensures forall k :: k in keys <==> k in s
    decreases |s|
  {
    if s == {} then []
    else
      var m := Least(s);
      var rest := SortedKeys(s - {m});
      assert forall k :: k in s <==> k == m || k in s - {m};
      [m] + rest
  }

  function Gather(buckets: Buckets, keys: seq<nat>): seq<Job>
    requires forall k :: k in keys ==> k in buckets
  {
    if keys == [] then [] else buckets[keys[0]] + Gather(buckets, keys[1..])
  }

  /** All queued jobs, bucket by bucket in ascending order of due second. */
  function Flat(buckets: Buckets): seq<Job> { Gather(buckets, SortedKeys(buckets.Keys)) }

  predicate Bucketed(buckets: Buckets) {
    forall k :: k in buckets ==> buckets[k] != [] && forall i :: 0 <= i < |buckets[k]| ==> Key(buckets[k][i]) == k
  }

  lemma {:induction false} GatherAgrees(a: Buckets, b: Buckets, keys: seq<nat>)
    requires forall k :: k in keys ==> k in a && k in b && a[k] == b[k]
    ensures Gather(a, keys) == Gather(b, keys)
  {
    if keys != [] {
      GatherAgrees(a, b, keys[1..]);
    }
  }

  lemma NoKeys(buckets: Buckets)
    ensures buckets.Keys == {} ==> buckets == map[]
  {
  }

  /** The earliest bucket comes first; the others follow as a queue of their own. */
  lemma FlatFirst(buckets: Buckets)
    requires buckets != map[]
    ensures buckets.Keys != {}
    ensures var m := Least(buckets.Keys); Flat(buckets) == buckets[m] + Flat(buckets - {m})
  {
    NoKeys(buckets);
    var m := Least(buckets.Keys);
    assert (buckets - {m}).Keys == buckets.Keys - {m};
    GatherAgrees(buckets, buckets - {m}, SortedKeys(buckets.Keys - {m}));
  }

  lemma LeastIs(s: set<nat>, m: nat)
    requires IsLeast(s, m)
    ensures Least(s) == m
  {
  }

  lemma FlatStartsLater(buckets: Buckets, key: nat)
    requires Bucketed(buckets) && forall k :: k in buckets ==> key < k
    ensures Flat(buckets) == [] || Key(Flat(buckets)[0]) > key
  {
    if buckets != map[] {
      FlatFirst(buckets);
    }
  }

  function Added(buckets: Buckets, job: Job): Buckets {
    buckets[Key(job) := (if Key(job) in buckets then buckets[Key(job)] else []) + [job]]
  }

  lemma AddedBucketed(buckets: Buckets, job: Job)
    requires Bucketed(buckets)
    ensures Bucketed(Added(buckets, job)) && Added(buckets, job) != map[]
  {
    assert Key(job) in Added(buckets, job);
  }

  lemma AddedInFront(buckets: Buckets, job: Job)
    requires Bucketed(buckets) && forall k :: k in buckets ==> Key(job) < k
    ensures Flat(Added(buckets, job)) == Insert(Flat(buckets), job)
  {
    hide Flat, Insert, Least;
    var key, added := Key(job), Added(buckets, job);
    AddedBucketed(buckets, job);
    FlatFirst(added);
    LeastIs(added.Keys, key);
    assert added - {key} == buckets;
    FlatStartsLater(buckets, key);
    InsertFront(Flat(buckets), job);
  }

  lemma AddedToFirst(buckets: Buckets, job: Job)
    requires Bucketed(buckets) && IsLeast(buckets.Keys, Key(job))
    ensures Flat(Added(buckets, job)) == Insert(Flat(buckets), job)
  {
    hide Flat, Insert, Least;
    var key, added := Key(job), Added(buckets, job);
    AddedBucketed(buckets, job);
    FlatFirst(added);
    FlatFirst(buckets);
    LeastIs(buckets.Keys, key);
    LeastIs(added.Keys, key);
    var rest := buckets - {key};
    assert added - {key} == rest;
    InsertPast(buckets[key], Flat(rest), job);
    FlatStartsLater(rest, key);
    InsertFront(Flat(rest), job);
    assert (buckets[key] + [job]) + Flat(rest) == buckets[key] + ([job] + Flat(rest));
  }

  /** Appending to the job's bucket is stable insertion into the flat queue. */
  lemma {:induction false} AddedRefines(buckets: Buckets, job: Job)
    requires Bucketed(buckets)
    ensures Bucketed(Added(buckets, job)) && Flat(Added(buckets, job)) == Insert(Flat(buckets), job)
    decreases |buckets|
  {
    hide Flat, Insert;
    AddedBucketed(buckets, job);
    if forall k :: k in buckets ==> Key(job) < k {
      AddedInFront(buckets, job);
    } else {
      FlatFirst(buckets);
      var m := Least(buckets.Keys);
      if Key(job) == m {
        AddedToFirst(buckets, job);
      } else {
        var added := Added(buckets, job);
        FlatFirst(added);
        LeastIs(added.Keys, m);
        InsertPast(buckets[m], Flat(buckets - {m}), job);
        assert added - {m} == Added(buckets - {m}, job);
        AddedRefines(buckets - {m}, job);
      }
    }
  }

  lemma InsertFront(queue: seq<Job>, job: Job)
    requires queue == [] || Key(queue[0]) > Key(job)
    ensures Insert(queue, job) == [job] + queue
  {
  }

  function Popped(buckets: Buckets): Buckets
    requires buckets.Keys != {}
  {
    var m := Least(buckets.Keys);
    if |buckets[m]| <= 1 then buckets - {m} else buckets[m := buckets[m][1..]]
  }

  /** Taking the head of the earliest bucket takes the head of the flat queue. */
  lemma PoppedRefines(buckets: Buckets)
    requires Bucketed(buckets) && buckets != map[]
    ensures buckets.Keys != {}
    ensures Bucketed(Popped(buckets)) && Flat(buckets) == [buckets[Least(buckets.Keys)][0]] + Flat(Popped(buckets))
  {
    hide Flat;
    FlatFirst(buckets);
    var m, popped := Least(buckets.Keys), Popped(buckets);
    var bucket := buckets[m];
    assert bucket == [bucket[0]] + bucket[1..];
    if |bucket| > 1 {
      LeastIs(popped.Keys, m);
      FlatFirst(popped);
      assert popped - {m} == buckets - {m};
      assert ([bucket[0]] + bucket[1..]) + Flat(buckets - {m}) == [bucket[0]] + (bucket[1..] + Flat(buckets - {m}));
    } else {
      assert bucket[1..] == [];
    }
  }

  /** The queue is always in order of due second. */
  lemma {:induction false} FlatOrdered(buckets: Buckets)
    requires Bucketed(buckets)
    ensures Ordered(Flat(buckets)) && forall i :: 0 <= i < |Flat(buckets)| ==> Key(Flat(buckets)[i]) in buckets
    decreases |buckets|
  {
    hide Flat;
    if buckets == map[] {
      FlatEmpty();
    } else {
      FlatFirst(buckets);
      FlatOrdered(buckets - {Least(buckets.Keys)});
    }
  }

  lemma FlatEmpty()
    ensures Flat(map[]) == []
  {
  }

  // ── when a job becomes due ─────────────────────────────────────────────

  predicate Due(job: Job, now: nat) { Key(job) <= now }

  /** Due is a matter of whole seconds. */
  lemma DueBySecond(job: Job, now: nat)
    ensures Due(job, now) <==> job.executeAt / SECOND <= now / SECOND
  {
    assert Key(job) == job.executeAt / SECOND * SECOND;
  }

  /** A job is never taken a full second early, but exactly the jobs with a
      fraction of a second in their due time can be taken before it. */
  lemma NeverEarlyIff(job: Job)
    ensures forall now: nat :: Due(job, now) ==> job.executeAt < now + SECOND
    ensures (forall now: nat :: Due(job, now) ==> job.executeAt <= now) <==> job.executeAt % SECOND == 0
  {
    if job.executeAt % SECOND != 0 {
      assert Due(job, Key(job)) && Key(job) < job.executeAt;
    }
  }

  // ── the queue object ───────────────────────────────────────────────────

  datatype SubmitResult = Queued(job: Job) | Existing(job: Job) | DuplicateRequestId

  /** A repeated dispatch may leave the due time out. */
  predicate SameDispatch(existing: Job, dispatch: Dispatch, executeAt: Option<nat>) {
    existing.dispatch == dispatch && (executeAt.None? || existing.executeAt == executeAt.value)
  }

  lemma SameMeans(existing: Job, dispatch: Dispatch, executeAt: Option<nat>)
    ensures SameDispatch(existing, dispatch, executeAt)
       <==> && existing.dispatch.task == dispatch.task && existing.dispatch.flavour == dispatch.flavour
            && existing.dispatch.input == dispatch.input && existing.dispatch.callbackUrl == dispatch.callbackUrl
            && existing.dispatch.context == dispatch.context
            && (executeAt == None || executeAt == Some(existing.executeAt))
  {
  }

  predicate Registered(jobs: seq<Job>, jobsById: map<Id, Job>) {
    forall i :: 0 <= i < |jobs| ==> jobs[i].id in jobsById && jobsById[jobs[i].id] == jobs[i]
  }

  class Queue {
    var slots: Buckets
    var jobsById: map<Id, Job>
    ghost var served: seq<Job>

    /** Every id ever accepted is queued or served, and only once. */
    ghost predicate Valid()
      reads this
    {
      && Bucketed(slots)
      && Registered(served + Flat(slots), jobsById)
      && IdCount(served + Flat(slots)) == multiset(jobsById.Keys)
    }

    ghost function AsFlow(): Flow
      reads this
    {
      Flow(Flat(slots), jobsById, served)
    }

    constructor ()
      ensures Valid() && AsFlow() == IDLE && slots == map[] && jobsById == map[] && served == []
    {
      slots, jobsById, served := map[], map[], [];
      FlatEmpty();
    }

    method Submit(now: nat, generated: Id, dispatch: Dispatch, executeAt: Option<nat>, requestId: Option<Id>)
        returns (r: SubmitResult)
      requires Valid()
      modifies this
      ensures Valid() && served == old(served)
      ensures var id := if requestId.Some? && requestId.value != "" then requestId.value else generated;
              var at := if executeAt.Some? then executeAt.value else now;
              if id in old(jobsById) then
                var existing := old(jobsById)[id];
                var same := && existing.dispatch.task == dispatch.task && existing.dispatch.flavour == dispatch.flavour
                            && existing.dispatch.input == dispatch.input
                            && existing.dispatch.callbackUrl == dispatch.callbackUrl
                            && existing.dispatch.context == dispatch.context
                            && (executeAt == None || executeAt == Some(existing.executeAt));
                unchanged(this) && r == if same then Existing(existing) else DuplicateRequestId
              else
                && r == Queued(Job(id, dispatch, at))
                && Flat(slots) == Insert(old(Flat(slots)), r.job)
                && jobsById == old(jobsById)[id := r.job]
    {
      hide Flat, Insert, IdCount, Bucketed, Registered, SameDispatch;
      var id := if requestId.Some? && requestId.value != "" then requestId.value else generated;
      var at := if executeAt.Some? then executeAt.value else now;
      if id in jobsById {
        SameMeans(jobsById[id], dispatch, executeAt);
        return if SameDispatch(jobsById[id], dispatch, executeAt) then Existing(jobsById[id]) else DuplicateRequestId;
      }
      var job := Job(id, dispatch, at);
      AddedRefines(slots, job);
      SubmitKeeps(served, Flat(slots), jobsById, job);
      slots := Added(slots, job);
      jobsById := jobsById[id := job];
      r := Queued(job);
    }

    /** The head of the queue, if its second has come. */
    method PopNextDue(now: nat) returns (r: Option<Job>)
      requires Valid()
      modifies this
      ensures Valid() && jobsById == old(jobsById)
      ensures var queue := old(Flat(slots));
              if queue != [] && queue[0].executeAt / SECOND <= now / SECOND then
                r == Some(queue[0]) && Flat(slots) == queue[1..] && served == old(served) + [queue[0]]
              else r == None && unchanged(this)
    {
      hide Flat, IdCount, Registered;
      if slots == map[] {
        FlatEmpty();
        return None;
      }
      PoppedRefines(slots);
      DueBySecond(Flat(slots)[0], now);
      var earliest := Least(slots.Keys);
      if earliest > now {
        return None;
      }
      var job := slots[earliest][0];
      assert served + ([job] + Flat(Popped(slots))) == (served + [job]) + Flat(Popped(slots));
      slots := Popped(slots);
      served := served + [job];
      r := Some(job);
    }

    /** The queued jobs in the order they would be served. */
    method Waiting() returns (jobs: seq<Job>)
      ensures jobs == Flat(slots)
    {
      jobs := Flat(slots);
    }

    /** How many jobs are served before this one if nothing more arrives. */
    method QueuePosition(job: Job) returns (position: nat)
      ensures position == Position(Flat(slots), job.id)
    {
      position := 0;
      var keys := SortedKeys(slots.Keys);
      var i := 0;
      while i < |keys|
        invariant i <= |keys|
        invariant position + Position(Gather(slots, keys[i..]), job.id) == Position(Flat(slots), job.id)
      {
        var bucket := slots[keys[i]];
        var j := 0;
        assert keys[i..][1..] == keys[i + 1..];
        assert Gather(slots, keys[i..]) == bucket + Gather(slots, keys[i + 1..]);
        assert bucket[0..] == bucket;
        while j < |bucket|
          invariant j <= |bucket|
          invariant position + Position(bucket[j..] + Gather(slots, keys[i + 1..]), job.id) == Position(Flat(slots), job.id)
        {
          assert (bucket[j..] + Gather(slots, keys[i + 1..]))[1..] == bucket[j + 1..] + Gather(slots, keys[i + 1..]);
          if bucket[j].id == job.id {
            return;
          }
          position := position + 1;
          j := j + 1;
        }
        assert bucket[j..] + Gather(slots, keys[i + 1..]) == Gather(slots, keys[i + 1..]);
        i := i + 1;
      }
    }
  }

  lemma SubmitKeeps(served: seq<Job>, queue: seq<Job>, jobsById: map<Id, Job>, job: Job)
    requires job.id !in jobsById
    requires Registered(served + queue, jobsById) && IdCount(served + queue) == multiset(jobsById.Keys)
    ensures Registered(served + Insert(queue, job), jobsById[job.id := job])
    ensures IdCount(served + Insert(queue, job)) == multiset(jobsById[job.id := job].Keys)
  {
    hide IdCount;
    InsertCounts(queue, job);
    IdCountConcat(served, queue);
    IdCountConcat(served, Insert(queue, job));
    assert jobsById[job.id := job].Keys == jobsById.Keys + {job.id};
    OneMoreKey(jobsById.Keys, job.id);
    InsertRegistered(queue, job, jobsById, served);
  }

  lemma OneMoreKey(ids: set<Id>, id: Id)
    requires id !in ids
    ensures multiset(ids + {id}) == multiset(ids) + multiset{id}
  {
  }

  lemma InsertRegistered(queue: seq<Job>, job: Job, jobsById: map<Id, Job>, served: seq<Job>)
    requires job.id !in jobsById && Registered(served + queue, jobsById)
    ensures Registered(served + Insert(queue, job), jobsById[job.id := job])
  {
    var all := served + queue;
    assert forall i :: 0 <= i < |queue| ==> queue[i] == all[|served| + i];
    assert forall i :: 0 <= i < |served| ==> served[i] == all[i];
    InsertRegisters(queue, job, jobsById[job.id := job]);
  }

  lemma {:induction false} InsertRegisters(queue: seq<Job>, job: Job, jobsById: map<Id, Job>)
    requires Registered(queue, jobsById) && Registered([job], jobsById)
    ensures Registered(Insert(queue, job), jobsById)
  {
    assert [job][0] == job;
    if queue != [] && Key(job) >= Key(queue[0]) {
      InsertRegisters(queue[1..], job, jobsById);
    }
  }

  // ── whole runs, on the flat queue ──────────────────────────────────────

  datatype Event =
    | Submission(now: nat, generated: Id, dispatch: Dispatch, executeAt: Option<nat>, requestId: Option<Id>)
    | Worker(now: nat)

  function RequestId(e: Event): Id
    requires e.Submission?
  {
    if e.requestId.Some? && e.requestId.value != "" then e.requestId.value else e.generated
  }

  function JobOf(e: Event): Job
    requires e.Submission?
  {
    Job(RequestId(e), e.dispatch, if e.executeAt.Some? then e.executeAt.value else e.now)
  }

  datatype Flow = Flow(queue: seq<Job>, known: map<Id, Job>, ran: seq<Job>)

  /** One event: a new id is inserted in its place, a known one ignored or refused;
      the worker takes the head if its second has come. */
  function FlowStep(f: Flow, e: Event): Flow {
    if e.Submission? then
      var job := JobOf(e);
      if job.id in f.known then f else f.(queue := Insert(f.queue, job), known := f.known[job.id := job])
    else if f.queue != [] && Due(f.queue[0], e.now) then
      f.(queue := f.queue[1..], ran := f.ran + [f.queue[0]])
    else f
  }

  function FlowAfter(f: Flow, events: seq<Event>): Flow {
    if events == [] then f else FlowStep(FlowAfter(f, events[..|events| - 1]), events[|events| - 1])
  }

  const IDLE := Flow([], map[], [])

  /** In order, each id once, and every queued id known. */
  predicate FlowOk(f: Flow) {
    && Ordered(f.queue)
    && (forall i :: 0 <= i < |f.queue| ==> f.queue[i].id in f.known)
    && forall i, j :: 0 <= i < j < |f.queue| ==> f.queue[i].id != f.queue[j].id
  }

  lemma FlowStepOk(f: Flow, e: Event)
    requires FlowOk(f)
    ensures FlowOk(FlowStep(f, e))
  {
    if e.Submission? && JobOf(e).id !in f.known {
      var job := JobOf(e);
      InsertOrders(f.queue, job);
      InsertLength(f.queue, job);
      forall i | 0 <= i < |f.queue| + 1 ensures Insert(f.queue, job)[i].id in f.known[job.id := job] {
        InsertPlaces(f.queue, job, i);
      }
      InsertKeepsDistinct(f.queue, job);
    }
  }

  lemma {:induction false} InsertKeepsDistinct(queue: seq<Job>, job: Job)
    requires Ordered(queue) && forall i, j :: 0 <= i < j < |queue| ==> queue[i].id != queue[j].id
    requires forall i :: 0 <= i < |queue| ==> queue[i].id != job.id
    ensures forall i, j :: 0 <= i < j < |Insert(queue, job)| ==> Insert(queue, job)[i].id != Insert(queue, job)[j].id
  {
    if queue != [] && Key(job) >= Key(queue[0]) {
      var rest := Insert(queue[1..], job);
      InsertKeepsDistinct(queue[1..], job);
      InsertLength(queue[1..], job);
      forall i | 0 <= i < |rest| ensures rest[i].id != queue[0].id {
        InsertPlaces(queue[1..], job, i);
      }
      assert Insert(queue, job) == [queue[0]] + rest;
    } else {
      assert Insert(queue, job) == [job] + queue;
    }
  }

  lemma {:induction false} FlowKeepsOk(f: Flow, events: seq<Event>)
    requires FlowOk(f)
    ensures FlowOk(FlowAfter(f, events))
  {
    hide FlowOk, FlowStep;
    if events != [] {
      FlowKeepsOk(f, events[..|events| - 1]);
      FlowStepOk(FlowAfter(f, events[..|events| - 1]), events[|events| - 1]);
    }
  }

  /** New jobs due in an earlier second than `job`. */
  function Overtakers(f: Flow, events: seq<Event>, job: Job): nat {
    if events == [] then 0
    else
      var before, e := events[..|events| - 1], events[|events| - 1];
      Overtakers(f, before, job)
      + if e.Submission? && JobOf(e).id !in FlowAfter(f, before).known && Key(JobOf(e)) < Key(job) then 1 else 0
  }

  predicate WaitsAt(f: Flow, job: Job, place: int) { 0 <= place < |f.queue| && f.queue[place] == job }

  /** The `turn`-th job to run, counted from 0, was `job`. */
  predicate RanAs(f: Flow, job: Job, turn: int) { 0 <= turn < |f.ran| && f.ran[turn] == job }

  /** A step moves a waiting job one place up when the head is taken, one back
      when something due earlier comes in, and runs it from the front. */
  lemma StepMoves(f: Flow, e: Event, job: Job, place: int)
    requires FlowOk(f) && WaitsAt(f, job, place)
    ensures var g := FlowStep(f, e);
            var late := if e.Submission? && JobOf(e).id !in f.known && Key(JobOf(e)) < Key(job) then 1 else 0;
            WaitsAt(g, job, place + |f.ran| + late - |g.ran|) || (late == 0 && RanAs(g, job, place + |f.ran|))
  {
    hide Due;
    if e.Submission? && JobOf(e).id !in f.known {
      InsertIsStable(f.queue, JobOf(e), place);
    }
  }

  lemma RanStays(f: Flow, e: Event)
    ensures |f.ran| <= |FlowStep(f, e).ran| && forall i :: 0 <= i < |f.ran| ==> FlowStep(f, e).ran[i] == f.ran[i]
  {
  }

  /** A job's turn: with `p` jobs ahead it waits exactly for those and for every
      later submission due in an earlier second, as long as it is queued; and it
      ran as the one after them, counting up to the moment it was taken. */
  lemma {:induction false} ServedInTurn(f: Flow, events: seq<Event>, job: Job, p: nat)
    requires FlowOk(f) && WaitsAt(f, job, p)
    ensures var g := FlowAfter(f, events);
            || WaitsAt(g, job, p + |f.ran| + Overtakers(f, events, job) - |g.ran|)
            || exists n :: 0 <= n < |events| && RanAs(g, job, p + |f.ran| + Overtakers(f, events[..n], job))
  {
    hide FlowOk, FlowStep;
    if events != [] {
      var before, e := events[..|events| - 1], events[|events| - 1];
      ServedInTurn(f, before, job, p);
      var h := FlowAfter(f, before);
      FlowKeepsOk(f, before);
      RanStays(h, e);
      if WaitsAt(h, job, p + |f.ran| + Overtakers(f, before, job) - |h.ran|) {
        StepMoves(h, e, job, p + |f.ran| + Overtakers(f, before, job) - |h.ran|);
      } else {
        var n :| 0 <= n < |before| && RanAs(h, job, p + |f.ran| + Overtakers(f, before[..n], job));
        assert before[..n] == events[..n];
        assert RanAs(FlowAfter(f, events), job, p + |f.ran| + Overtakers(f, events[..n], job));
      }
    }
  }

  /** So with nothing submitted that is due in an earlier second, a job reported
      at position `p` is the one that runs after exactly `p` others. */
  lemma PositionIsTurn(f: Flow, events: seq<Event>, job: Job, p: nat)
    requires FlowOk(f) && WaitsAt(f, job, p) && Overtakers(f, events, job) == 0
    ensures Position(f.queue, job.id) == p
    ensures var g := FlowAfter(f, events);
            WaitsAt(g, job, p + |f.ran| - |g.ran|) || RanAs(g, job, p + |f.ran|)
  {
    hide FlowStep;
    PositionAt(f.queue, job.id, p);
    ServedInTurn(f, events, job, p);
    forall n | 0 <= n < |events| ensures Overtakers(f, events[..n], job) == 0 {
      OvertakersGrow(f, events, n, job);
    }
  }

  lemma {:induction false} OvertakersGrow(f: Flow, events: seq<Event>, n: nat, job: Job)
    requires n <= |events|
    ensures Overtakers(f, events[..n], job) <= Overtakers(f, events, job)
  {
    hide FlowAfter;
    if n < |events| {
      OvertakersGrow(f, events[..|events| - 1], n, job);
      assert events[..|events| - 1][..n] == events[..n];
    } else {
      assert events[..n] == events;
    }
  }

  // ── whole runs of the queue object ─────────────────────────────────────

  predicate Dispatches(e: Event, job: Job) {
    && e.Submission? && job.id == RequestId(e) && job.dispatch == e.dispatch
    && job.executeAt == if e.executeAt.Some? then e.executeAt.value else e.now
  }

  predicate Dispatched(events: seq<Event>, job: Job) { exists k :: 0 <= k < |events| && Dispatches(events[k], job) }

  predicate Holds(jobs: seq<Job>, id: Id) { exists i :: 0 <= i < |jobs| && jobs[i].id == id }

  ghost predicate FromEvents(events: seq<Event>, jobsById: map<Id, Job>) {
    && (forall k :: 0 <= k < |events| && events[k].Submission? ==> RequestId(events[k]) in jobsById)
    && forall id :: id in jobsById ==> Dispatched(events, jobsById[id])
  }

  lemma DispatchedGrows(events: seq<Event>, e: Event, job: Job)
    ensures Dispatched(events, job) || Dispatches(e, job) ==> Dispatched(events + [e], job)
  {
    hide Dispatches;
    if Dispatched(events, job) {
      var k :| 0 <= k < |events| && Dispatches(events[k], job);
      assert (events + [e])[k] == events[k];
    }
    if Dispatches(e, job) {
      assert (events + [e])[|events|] == e;
    }
  }

  lemma FromOneMore(events: seq<Event>, e: Event, before: map<Id, Job>, after: map<Id, Job>)
    requires FromEvents(events, before)
    requires e.Submission? ==> RequestId(e) in after
    requires forall id :: id in after ==> (id in before && after[id] == before[id]) || Dispatches(e, after[id])
    requires before.Keys <= after.Keys
    ensures FromEvents(events + [e], after)
  {
    hide Dispatched, Dispatches;
    forall id | id in after ensures Dispatched(events + [e], after[id]) {
      DispatchedGrows(events, e, after[id]);
    }
    assert forall k :: 0 <= k < |events| && events[k].Submission? ==> RequestId(events[k]) in before.Keys;
  }

  /** One event; a job that was taken is run by the single worker. */
  method Step(queue: Queue, e: Event) returns (ran: Option<Job>)
    requires queue.Valid()
    modifies queue
    ensures queue.Valid()
    ensures queue.served == old(queue.served) + if ran.Some? then [ran.value] else []
    ensures queue.AsFlow() == FlowStep(old(queue.AsFlow()), e)
    ensures e.Submission? ==> RequestId(e) in queue.jobsById
    ensures old(queue.jobsById).Keys <= queue.jobsById.Keys
    ensures forall id :: id in queue.jobsById ==>
              || (id in old(queue.jobsById) && queue.jobsById[id] == old(queue.jobsById)[id])
              || Dispatches(e, queue.jobsById[id])
  {
    hide Flat, Insert, IdCount, SameDispatch, Bucketed, Registered;
    ran := None;
    match e {
      case Submission(now, generated, dispatch, executeAt, requestId) =>
        var r := queue.Submit(now, generated, dispatch, executeAt, requestId);
      case Worker(now) =>
        ran := queue.PopNextDue(now);
    }
  }

  /** Any interleaving of submissions, retried ones included, with a worker that
      takes due jobs one at a time: the jobs run in the order the flat queue says,
      each request id runs at most once, everything that runs was dispatched under
      its id, and what was accepted but has not run is still queued in order. */
  method Serve(events: seq<Event>) returns (ran: seq<Job>, left: seq<Job>)
    ensures ran == FlowAfter(IDLE, events).ran && left == FlowAfter(IDLE, events).queue
    ensures forall i, j :: 0 <= i < j < |ran + left| ==> (ran + left)[i].id != (ran + left)[j].id
    ensures forall k :: 0 <= k < |events| && events[k].Submission? ==>
              Holds(ran + left, RequestId(events[k]))
    ensures forall i :: 0 <= i < |ran + left| ==> Dispatched(events, (ran + left)[i])
    ensures Ordered(left)
  {
    hide Flat, IdCount, FromEvents, Bucketed, Registered, Ordered, Dispatches, Dispatched, Holds, FlowStep, FlowAfter;
    var queue := new Queue();
    ran := [];
    Nothing(events);
    for n := 0 to |events|
      invariant queue.Valid() && fresh(queue) && ran == queue.served
      invariant FromEvents(events[..n], queue.jobsById)
      invariant queue.AsFlow() == FlowAfter(IDLE, events[..n])
    {
      ghost var before := queue.jobsById;
      var r := Step(queue, events[n]);
      FromOneMore(events[..n], events[n], before, queue.jobsById);
      assert events[..n] + [events[n]] == events[..n + 1];
      FlowOneMore(events, n);
      if r.Some? {
        ran := ran + [r.value];
      }
    }
    assert events[..|events|] == events;
    left := queue.Waiting();
    FlatOrdered(queue.slots);
    AllOnce(events, ran + left, queue.jobsById);
  }

  lemma FlowOneMore(events: seq<Event>, n: nat)
    requires n < |events|
    ensures FlowAfter(IDLE, events[..n + 1]) == FlowStep(FlowAfter(IDLE, events[..n]), events[n])
  {
    assert events[..n + 1][..n] == events[..n];
  }

  lemma Nothing(events: seq<Event>)
    ensures FromEvents(events[..0], map[]) && FlowAfter(IDLE, events[..0]) == IDLE
  {
  }

  lemma AllOnce(events: seq<Event>, all: seq<Job>, jobsById: map<Id, Job>)
    requires IdCount(all) == multiset(jobsById.Keys) && Registered(all, jobsById)
    requires FromEvents(events, jobsById)
    ensures forall i, j :: 0 <= i < j < |all| ==> all[i].id != all[j].id
    ensures forall k :: 0 <= k < |events| && events[k].Submission? ==>
              Holds(all, RequestId(events[k]))
    ensures forall i :: 0 <= i < |all| ==> Dispatched(events, all[i])
  {
    hide IdCount, Dispatches, Dispatched, Holds;
    forall i, j | 0 <= i < j < |all| ensures all[i].id != all[j].id {
      AtMostOnce(all, jobsById.Keys, i, j);
    }
    forall k | 0 <= k < |events| && events[k].Submission?
      ensures Holds(all, RequestId(events[k]))
    {
      assert multiset(jobsById.Keys)[RequestId(events[k])] == 1;
      CountedIsThere(all, RequestId(events[k]));
    }
  }

  lemma AtMostOnce(jobs: seq<Job>, ids: set<Id>, i: nat, j: nat)
    requires IdCount(jobs) == multiset(ids) && i < j < |jobs|
    ensures jobs[i].id != jobs[j].id
  {
    hide IdCount;
    if jobs[i].id == jobs[j].id {
      IdCountTwice(jobs, i, j);
    }
  }

  lemma {:induction false} CountedIsThere(jobs: seq<Job>, id: Id)
    requires IdCount(jobs)[id] > 0
    ensures Holds(jobs, id)
  {
    if jobs[0].id != id {
      CountedIsThere(jobs[1..], id);
      var i :| 0 <= i < |jobs[1..]| && jobs[1..][i].id == id;
      assert jobs[i + 1].id == id;
    }
  }
}
