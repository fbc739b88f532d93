/** The committed-assignment ledger: the assignment map, the running totals kept
    beside it, and the tier check that guards a commit. */
module Ledger {
  import opened Queues

  datatype Assignment = Assignment(requestId: nat, scheduledSlot: nat, error: real, carbonCost: real,
                                   profile: ProfileId)

  datatype Stats = Stats(errorSum: real, count: nat, avg: real)

  datatype Book = Book(
    assignments: map<nat, Assignment>,
    totalScheduled: nat,
    globalErrorSum: real,
    globalCount: nat,
    profileStats: map<ProfileId, Stats>)

  const EMPTY_BOOK := Book(map[], 0, 0.0, 0, map[])

  // ── sums over the assignment map ───────────────────────────────────────

  ghost function ErrorSum(m: map<nat, Assignment>): real {
    if m == map[] then 0.0
    else
      var id :| id in m;
      m[id].error + ErrorSum(m - {id})
  }

  lemma {:induction false} ErrorSumRemove(m: map<nat, Assignment>, id: nat)
    requires id in m
    ensures ErrorSum(m) == m[id].error + ErrorSum(m - {id})
    decreases |m|
  {
    var first :| first in m && ErrorSum(m) == m[first].error + ErrorSum(m - {first});
    if first != id {
      ErrorSumRemove(m - {first}, id);
      ErrorSumRemove(m - {id}, first);
      assert m - {first} - {id} == m - {id} - {first};
    }
  }

  lemma ErrorSumPut(m: map<nat, Assignment>, id: nat, a: Assignment)
    ensures ErrorSum(m[id := a]) == ErrorSum(m) + a.error - if id in m then m[id].error else 0.0
  {
    ErrorSumRemove(m[id := a], id);
    assert m[id := a] - {id} == m - {id};
    if id in m {
      ErrorSumRemove(m, id);
    } else {
      assert m - {id} == m;
    }
  }

  function OfProfileIn(m: map<nat, Assignment>, p: ProfileId): map<nat, Assignment> {
    map id | id in m && m[id].profile == p :: m[id]
  }

  lemma OfProfilePut(m: map<nat, Assignment>, id: nat, a: Assignment, p: ProfileId)
    requires id in m ==> m[id].profile == a.profile
    ensures OfProfileIn(m[id := a], p) == if a.profile == p then OfProfileIn(m, p)[id := a] else OfProfileIn(m, p)
  {
  }

  ghost function CountSum(stats: map<ProfileId, Stats>): nat {
    if stats.Keys == {} then 0
    else
      var p :| p in stats.Keys;
      stats[p].count + CountSum(stats - {p})
  }

  ghost function IdsOf(m: map<nat, Assignment>, profiles: set<ProfileId>): set<nat> {
    set id | id in m && m[id].profile in profiles
  }

  lemma {:induction false} CountSumIsSize(m: map<nat, Assignment>, stats: map<ProfileId, Stats>)
    requires forall p :: p in stats ==> stats[p].count == |OfProfileIn(m, p)|
    ensures CountSum(stats) == |IdsOf(m, stats.Keys)|
    decreases |stats|
  {
    hide IdsOf, OfProfileIn;
    if stats.Keys == {} {
      NoIds(m);
    } else {
      var p :| p in stats.Keys && CountSum(stats) == stats[p].count + CountSum(stats - {p});
      var rest := stats - {p};
      CountSumIsSize(m, rest);
      SplitIds(m, rest.Keys, p);
      assert stats.Keys == rest.Keys + {p};
    }
  }

  lemma NoIds(m: map<nat, Assignment>)
    ensures IdsOf(m, {}) == {}
  {
  }

  lemma SplitIds(m: map<nat, Assignment>, profiles: set<ProfileId>, p: ProfileId)
    requires p !in profiles
    ensures |IdsOf(m, profiles + {p})| == |IdsOf(m, profiles)| + |OfProfileIn(m, p)|
  {
    assert IdsOf(m, profiles + {p}) == IdsOf(m, profiles) + OfProfileIn(m, p).Keys;
    assert IdsOf(m, profiles) !! OfProfileIn(m, p).Keys;
    assert |OfProfileIn(m, p).Keys| == |OfProfileIn(m, p)|;
  }

  // ── recording and correcting ───────────────────────────────────────────

  function Average(errorSum: real, count: nat): real {
    if count > 0 then errorSum / count as real else 0.0
  }

  /** Every committed assignment's profile has a totals entry. */
  ghost predicate ProfilesKnown(b: Book) {
    forall id :: id in b.assignments ==> b.assignments[id].profile in b.profileStats
  }

  /** Commits one assignment. A known id keeps its first profile and leaves the
      totals alone; a new id is counted once globally and once in its profile. */
  function Record(b: Book, a: Assignment): Book
    requires ProfilesKnown(b)
  {
    var replan := a.requestId in b.assignments;
    var profile := if replan then b.assignments[a.requestId].profile else a.profile;
    var before := if profile in b.profileStats then b.profileStats[profile] else Stats(0.0, 0, 0.0);
    var sum := if replan then before.errorSum else before.errorSum + a.error;
    var count := if replan then before.count else before.count + 1;
    Book(
      b.assignments[a.requestId := a.(profile := profile)],
      if replan then b.totalScheduled else b.totalScheduled + 1,
      if replan then b.globalErrorSum else b.globalErrorSum + a.error,
      if replan then b.globalCount else b.globalCount + 1,
      b.profileStats[profile := Stats(sum, count, Average(sum, count))])
  }

  /** Replaces a predicted error by the measured one; unknown ids are ignored. */
  function Correct(b: Book, id: nat, actual: real): Book {
    if id !in b.assignments then b
    else
      var a := b.assignments[id];
      var delta := actual - a.error;
      b.(assignments := b.assignments[id := a.(error := actual)],
         globalErrorSum := b.globalErrorSum + delta,
         profileStats := if a.profile !in b.profileStats then b.profileStats
                         else
                           var s := b.profileStats[a.profile];
                           b.profileStats[a.profile := Stats(s.errorSum + delta, s.count,
                                                             Average(s.errorSum + delta, s.count))])
  }

  // ── what the totals mean ───────────────────────────────────────────────

  /** A re-plan of a committed id: its profile and old minus new error. */
  datatype Replan = Replan(profile: ProfileId, dropped: real)

  ghost function Drift(log: seq<Replan>): real {
    if log == [] then 0.0 else Drift(log[..|log| - 1]) + log[|log| - 1].dropped
  }

  ghost function ProfileDrift(log: seq<Replan>, p: ProfileId): real {
    if log == [] then 0.0
    else
      var r := log[|log| - 1];
      ProfileDrift(log[..|log| - 1], p) + if r.profile == p then r.dropped else 0.0
  }

  ghost function Logged(b: Book, log: seq<Replan>, a: Assignment): seq<Replan> {
    if a.requestId in b.assignments then
      log + [Replan(b.assignments[a.requestId].profile, b.assignments[a.requestId].error - a.error)]
    else log
  }

  /** The totals agree with a recount of the map; the error sums agree up to
      exactly what the re-plans changed without being booked. */
  ghost predicate Balanced(b: Book, log: seq<Replan>) {
    && ProfilesKnown(b)
    && (forall id :: id in b.assignments ==> b.assignments[id].requestId == id)
    && |b.assignments| == b.totalScheduled == b.globalCount
    && b.globalErrorSum == ErrorSum(b.assignments) + Drift(log)
    && (forall p :: p in b.profileStats ==> StatsAgree(b, log, p))
    && forall p :: p !in b.profileStats ==> ProfileDrift(log, p) == 0.0
  }

  ghost predicate StatsAgree(b: Book, log: seq<Replan>, p: ProfileId)
    requires p in b.profileStats
  {
    var s, mine := b.profileStats[p], OfProfileIn(b.assignments, p);
    && s.count == |mine| > 0
    && s.errorSum == ErrorSum(mine) + ProfileDrift(log, p)
    && s.avg == Average(s.errorSum, s.count)
  }

  lemma EmptyBalanced()
    ensures Balanced(EMPTY_BOOK, [])
  {
  }

  lemma DriftSnoc(log: seq<Replan>, r: Replan, p: ProfileId)
    ensures Drift(log + [r]) == Drift(log) + r.dropped
    ensures ProfileDrift(log + [r], p) == ProfileDrift(log, p) + if r.profile == p then r.dropped else 0.0
  {
    assert (log + [r])[..|log|] == log;
  }

  lemma ReplanStatsAgree(b: Book, log: seq<Replan>, a: Assignment, p: ProfileId)
    requires Balanced(b, log) && a.requestId in b.assignments && p in b.profileStats
    ensures p in Record(b, a).profileStats && StatsAgree(Record(b, a), Logged(b, log, a), p)
  {
    hide ErrorSum, OfProfileIn, Average, ProfileDrift, Drift;
    var id := a.requestId;
    var old' := b.assignments[id];
    var a' := Record(b, a).assignments[id];
    assert StatsAgree(b, log, p);
    DriftSnoc(log, Replan(old'.profile, old'.error - a.error), p);
    OfProfilePut(b.assignments, id, a', p);
    ErrorSumPut(OfProfileIn(b.assignments, p), id, a');
    OfProfileMember(b.assignments, p, id);
  }

  lemma FreshStatsAgree(b: Book, log: seq<Replan>, a: Assignment, p: ProfileId)
    requires Balanced(b, log) && a.requestId !in b.assignments && p in Record(b, a).profileStats
    ensures StatsAgree(Record(b, a), log, p)
  {
    hide ErrorSum, OfProfileIn, Average, ProfileDrift, Drift;
    var id := a.requestId;
    OfProfilePut(b.assignments, id, a, p);
    ErrorSumPut(OfProfileIn(b.assignments, p), id, a);
    OfProfileMember(b.assignments, p, id);
    if p in b.profileStats {
      assert StatsAgree(b, log, p);
    } else {
      NoneOfUnknownProfile(b, p);
    }
  }

  lemma OfProfileMember(m: map<nat, Assignment>, p: ProfileId, id: nat)
    ensures id in OfProfileIn(m, p) <==> id in m && m[id].profile == p
    ensures id in OfProfileIn(m, p) ==> OfProfileIn(m, p)[id] == m[id]
  {
  }

  lemma NoneOfUnknownProfile(b: Book, p: ProfileId)
    requires ProfilesKnown(b) && p !in b.profileStats
    ensures OfProfileIn(b.assignments, p) == map[] && ErrorSum(map[]) == 0.0
  {
  }

  /** Committing keeps the books, whether the id is new or re-planned. */
  lemma RecordBalanced(b: Book, log: seq<Replan>, a: Assignment)
    requires Balanced(b, log)
    ensures Balanced(Record(b, a), Logged(b, log, a))
  {
    hide ErrorSum, OfProfileIn, StatsAgree, Average, ProfileDrift, Drift;
    var id, after, log' := a.requestId, Record(b, a), Logged(b, log, a);
    ErrorSumPut(b.assignments, id, after.assignments[id]);
    if id in b.assignments {
      var r := Replan(b.assignments[id].profile, b.assignments[id].error - a.error);
      DriftSnoc(log, r, r.profile);
      forall p ensures ProfileDrift(log', p) == ProfileDrift(log, p) + if r.profile == p then r.dropped else 0.0 {
        DriftSnoc(log, r, p);
      }
      forall p | p in after.profileStats ensures StatsAgree(after, log', p) {
        ReplanStatsAgree(b, log, a, p);
      }
    } else {
      forall p | p in after.profileStats ensures StatsAgree(after, log', p) {
        FreshStatsAgree(b, log, a, p);
      }
    }
  }

  lemma CorrectStatsAgree(b: Book, log: seq<Replan>, id: nat, actual: real, p: ProfileId)
    requires Balanced(b, log) && id in b.assignments && p in b.profileStats
    ensures p in Correct(b, id, actual).profileStats && StatsAgree(Correct(b, id, actual), log, p)
  {
    hide ErrorSum, OfProfileIn, Average;
    var after := Correct(b, id, actual);
    var a' := after.assignments[id];
    assert StatsAgree(b, log, p);
    OfProfilePut(b.assignments, id, a', p);
    ErrorSumPut(OfProfileIn(b.assignments, p), id, a');
    OfProfileMember(b.assignments, p, id);
  }

  /** A measured error replaces the predicted one in the map and in both totals. */
  lemma CorrectBalanced(b: Book, log: seq<Replan>, id: nat, actual: real)
    requires Balanced(b, log)
    ensures Balanced(Correct(b, id, actual), log)
  {
    hide ErrorSum, OfProfileIn, StatsAgree, Average;
    if id in b.assignments {
      var after := Correct(b, id, actual);
      ErrorSumPut(b.assignments, id, after.assignments[id]);
      forall p | p in after.profileStats ensures StatsAgree(after, log, p) {
        CorrectStatsAgree(b, log, id, actual, p);
      }
    }
  }

  /** Four ways of counting agree, in every balanced book. */
  lemma CountsAgree(b: Book, log: seq<Replan>)
    requires Balanced(b, log)
    ensures |b.assignments| == b.totalScheduled == b.globalCount == CountSum(b.profileStats)
  {
    forall p | p in b.profileStats ensures b.profileStats[p].count == |OfProfileIn(b.assignments, p)| {
      assert StatsAgree(b, log, p);
    }
    CountSumIsSize(b.assignments, b.profileStats);
    assert IdsOf(b.assignments, b.profileStats.Keys) == b.assignments.Keys;
  }

  // ── what a commit and a correction change ──────────────────────────────

  /** Of all profiles' totals only those of `p` change, to this sum and count and their quotient. */
  ghost predicate OnlyTotals(before: map<ProfileId, Stats>, after: map<ProfileId, Stats>, p: ProfileId, sum: real, count: nat) {
    && p in after && after[p].errorSum == sum && after[p].count == count > 0 && after[p].avg == sum / count as real
    && (forall q :: q != p ==> (q in after <==> q in before))
    && forall q :: q != p && q in before ==> after[q] == before[q]
  }

  /** Of all rows only that of `id` changes, to `row`. */
  ghost predicate OnlyRow(before: map<nat, Assignment>, after: map<nat, Assignment>, id: nat, row: Assignment) {
    && id in after && after[id] == row
    && (forall other :: other != id ==> (other in after <==> other in before))
    && forall other :: other != id && other in before ==> after[other] == before[other]
  }

  /** A correction writes the measured error into the row and what it differs by
      into both sums; counts, the rest of the row and everything else stay. */
  ghost predicate Corrects(b: Book, after: Book, id: nat, actual: real) {
    if id !in b.assignments then after == b
    else
      var row := b.assignments[id];
      var more := actual - row.error;
      && OnlyRow(b.assignments, after.assignments, id,
                 Assignment(row.requestId, row.scheduledSlot, actual, row.carbonCost, row.profile))
      && after.totalScheduled == b.totalScheduled && after.globalCount == b.globalCount
      && after.globalErrorSum == b.globalErrorSum + more
      && row.profile in b.profileStats
      && OnlyTotals(b.profileStats, after.profileStats, row.profile,
                    b.profileStats[row.profile].errorSum + more, b.profileStats[row.profile].count)
  }

  lemma CorrectCorrects(b: Book, log: seq<Replan>, id: nat, actual: real)
    requires Balanced(b, log)
    ensures Corrects(b, Correct(b, id, actual), id, actual)
  {
    hide ErrorSum, OfProfileIn;
    if id in b.assignments {
      assert StatsAgree(b, log, b.assignments[id].profile);
    }
  }

  /** A commit writes its row. A new id is counted once and its error added, overall
      and in its profile; a known id keeps its first profile and all totals stay. */
  ghost predicate Records(b: Book, after: Book, a: Assignment) {
    if a.requestId in b.assignments then
      var profile := b.assignments[a.requestId].profile;
      && OnlyRow(b.assignments, after.assignments, a.requestId,
                 Assignment(a.requestId, a.scheduledSlot, a.error, a.carbonCost, profile))
      && after.totalScheduled == b.totalScheduled && after.globalCount == b.globalCount
      && after.globalErrorSum == b.globalErrorSum && after.profileStats == b.profileStats
    else
      var sum := if a.profile in b.profileStats then b.profileStats[a.profile].errorSum else 0.0;
      var count := if a.profile in b.profileStats then b.profileStats[a.profile].count else 0;
      && OnlyRow(b.assignments, after.assignments, a.requestId, a)
      && after.totalScheduled == b.totalScheduled + 1 && after.globalCount == b.globalCount + 1
      && after.globalErrorSum == b.globalErrorSum + a.error
      && OnlyTotals(b.profileStats, after.profileStats, a.profile, sum + a.error, count + 1)
  }

  lemma RecordRecords(b: Book, log: seq<Replan>, a: Assignment)
    requires Balanced(b, log)
    ensures Records(b, Record(b, a), a)
  {
    hide ErrorSum, OfProfileIn;
    if a.requestId in b.assignments {
      assert StatsAgree(b, log, b.assignments[a.requestId].profile);
    }
  }

  // ── whole runs ─────────────────────────────────────────────────────────

  datatype Op = Commit(a: Assignment) | Measured(id: nat, actual: real)

  /** Book and re-plan log after a run. */
  ghost function Run(ops: seq<Op>): (r: (Book, seq<Replan>))
    ensures Balanced(r.0, r.1)
  {
    if ops == [] then
      EmptyBalanced();
      (EMPTY_BOOK, [])
    else
      var before := Run(ops[..|ops| - 1]);
      var op := ops[|ops| - 1];
      match op
      case Commit(a) =>
        RecordBalanced(before.0, before.1, a);
        (Record(before.0, a), Logged(before.0, before.1, a))
      case Measured(id, actual) =>
        CorrectBalanced(before.0, before.1, id, actual);
        (Correct(before.0, id, actual), before.1)
  }

  ghost predicate CommittedOnce(ops: seq<Op>) {
    forall i, j :: 0 <= i < j < |ops| && ops[i].Commit? && ops[j].Commit? ==> ops[i].a.requestId != ops[j].a.requestId
  }

  lemma {:induction false} KnownIdsWereCommitted(ops: seq<Op>, id: nat)
    requires id in Run(ops).0.assignments
    ensures exists i :: 0 <= i < |ops| && ops[i].Commit? && ops[i].a.requestId == id
  {
    hide Balanced;
    var front, op := ops[..|ops| - 1], ops[|ops| - 1];
    if op.Commit? && op.a.requestId == id {
      assert ops[|ops| - 1].Commit?;
    } else {
      KnownIdsWereCommitted(front, id);
      var i :| 0 <= i < |front| && front[i].Commit? && front[i].a.requestId == id;
      assert ops[i].Commit?;
    }
  }

  /** With no id committed twice the error sums are exact, measurements included. */
  lemma {:induction false} NoReplanNoDrift(ops: seq<Op>)
    requires CommittedOnce(ops)
    ensures Run(ops).1 == []
    ensures var b := Run(ops).0;
            && b.globalErrorSum == ErrorSum(b.assignments)
            && forall p :: p in b.profileStats ==> b.profileStats[p].errorSum == ErrorSum(OfProfileIn(b.assignments, p))
  {
    NoReplans(ops);
    var b := Run(ops).0;
    forall p | p in b.profileStats ensures b.profileStats[p].errorSum == ErrorSum(OfProfileIn(b.assignments, p)) {
      assert StatsAgree(b, [], p);
    }
  }

  lemma {:induction false} NoReplans(ops: seq<Op>)
    requires CommittedOnce(ops)
    ensures Run(ops).1 == []
  {
    hide Record, Correct, Balanced;
    if ops != [] {
      var front, op := ops[..|ops| - 1], ops[|ops| - 1];
      assert forall i :: 0 <= i < |front| ==> ops[i] == front[i];
      NoReplans(front);
      if op.Commit? && op.a.requestId in Run(front).0.assignments {
        KnownIdsWereCommitted(front, op.a.requestId);
        assert false;
      }
    }
  }

  /** What a run says about one id: its latest commit under its first profile, with
      the error measured since, if any. */
  ghost function LatestRow(ops: seq<Op>, id: nat): (row: seq<Assignment>)
    ensures |row| <= 1
  {
    if ops == [] then []
    else
      var row, op := LatestRow(ops[..|ops| - 1], id), ops[|ops| - 1];
      match op
      case Commit(a) =>
        if a.requestId != id then row
        else [Assignment(id, a.scheduledSlot, a.error, a.carbonCost, if row == [] then a.profile else row[0].profile)]
      case Measured(measured, actual) =>
        if measured != id || row == [] then row
        else [Assignment(row[0].requestId, row[0].scheduledSlot, actual, row[0].carbonCost, row[0].profile)]
  }

  /** The book holds for every id exactly what the run says about it. */
  lemma {:induction false} BookFollowsRun(ops: seq<Op>, id: nat)
    ensures id in Run(ops).0.assignments <==> LatestRow(ops, id) != []
    ensures id in Run(ops).0.assignments ==> LatestRow(ops, id) == [Run(ops).0.assignments[id]]
  {
    hide Record, Correct, Balanced, OnlyTotals;
    if ops != [] {
      var front, op := ops[..|ops| - 1], ops[|ops| - 1];
      BookFollowsRun(front, id);
      match op
      case Commit(a) => RecordRecords(Run(front).0, Run(front).1, a);
      case Measured(measured, actual) => CorrectCorrects(Run(front).0, Run(front).1, measured, actual);
    }
  }

  predicate Concerns(op: Op, id: nat) {
    match op
    case Commit(a) => a.requestId == id
    case Measured(measured, _) => measured == id
  }

  /** A measured error stays until the id is committed or measured again. */
  lemma {:induction false} MeasuredStays(ops: seq<Op>, k: nat, id: nat, actual: real)
    requires k < |ops| && ops[k] == Measured(id, actual) && id in Run(ops[..k]).0.assignments
    requires forall j :: k < j < |ops| ==> !Concerns(ops[j], id)
    ensures id in Run(ops).0.assignments && Run(ops).0.assignments[id].error == actual
  {
    hide Run;
    BookFollowsRun(ops, id);
    BookFollowsRun(ops[..k], id);
    LatestStays(ops, k, id);
    assert ops[..k + 1][..k] == ops[..k];
  }

  lemma {:induction false} LatestStays(ops: seq<Op>, k: nat, id: nat)
    requires k < |ops| && forall j :: k < j < |ops| ==> !Concerns(ops[j], id)
    ensures LatestRow(ops, id) == LatestRow(ops[..k + 1], id)
  {
    if k + 1 < |ops| {
      var front := ops[..|ops| - 1];
      LatestStays(front, k, id);
      assert front[..k + 1] == ops[..k + 1];
      assert !Concerns(ops[|ops| - 1], id);
    } else {
      assert ops[..k + 1] == ops;
    }
  }
}
