/** The pending-request queue shared by all QoS profiles: claims take from one
    profile in order, failed batches go back to the front. */
module Queues {

  /** Profile identities are strings in the engine; only equality and a total
      order on them matter here. */
  type ProfileId = nat

  datatype Request = Request(id: nat, profile: ProfileId, arrivalSlot: int, deadlineSlot: int)

  /** The requests of one profile, in queue order. */
  function OfProfile(q: seq<Request>, p: ProfileId): seq<Request> {
    if q == [] then []
    else
      var last := q[|q| - 1];
      OfProfile(q[..|q| - 1], p) + if last.profile == p then [last] else []
  }

  /** What a claim of at most `n` requests of profile `p` removes. */
  function Claimed(q: seq<Request>, p: ProfileId, n: nat): (claimed: seq<Request>)
    ensures |claimed| <= n
  {
    if q == [] then []
    else
      var last, before := q[|q| - 1], Claimed(q[..|q| - 1], p, n);
      if last.profile == p && |before| < n then before + [last] else before
  }

  /** What the claim leaves. */
  function Remaining(q: seq<Request>, p: ProfileId, n: nat): seq<Request> {
    if q == [] then []
    else
      var last, before := q[|q| - 1], Remaining(q[..|q| - 1], p, n);
      if last.profile == p && |Claimed(q[..|q| - 1], p, n)| < n then before else before + [last]
  }

  function Least(a: nat, b: nat): nat { if a <= b then a else b }

  /** A claim takes exactly the oldest requests of its profile. */
  lemma {:induction false} ClaimedIsOldest(q: seq<Request>, p: ProfileId, n: nat)
    ensures Claimed(q, p, n) == OfProfile(q, p)[..Least(n, |OfProfile(q, p)|)]
  {
    if q != [] {
      ClaimedIsOldest(q[..|q| - 1], p, n);
    }
  }

  /** It leaves the rest of that profile and everything of the others, in order. */
  lemma {:induction false} RemainingIsRest(q: seq<Request>, p: ProfileId, n: nat, r: ProfileId)
    ensures OfProfile(Remaining(q, p, n), r)
         == if r == p then OfProfile(q, p)[Least(n, |OfProfile(q, p)|)..] else OfProfile(q, r)
  {
    if q != [] {
      var front, last := q[..|q| - 1], q[|q| - 1];
      RemainingIsRest(front, p, n, r);
      ClaimedIsOldest(front, p, n);
      var rest := Remaining(front, p, n);
      assert (rest + [last])[..|rest|] == rest;
    }
  }

  lemma {:induction false} OfProfileConcat(a: seq<Request>, b: seq<Request>, p: ProfileId)
    ensures OfProfile(a + b, p) == OfProfile(a, p) + OfProfile(b, p)
  {
    if b == [] {
      assert a + b == a;
    } else {
      assert (a + b)[..|a + b| - 1] == a + b[..|b| - 1];
      OfProfileConcat(a, b[..|b| - 1], p);
    }
  }

  lemma {:induction false} OfProfileOfClaim(q: seq<Request>, p: ProfileId, n: nat, r: ProfileId)
    ensures OfProfile(Claimed(q, p, n), r) == if r == p then Claimed(q, p, n) else []
  {
    if q != [] {
      var before := Claimed(q[..|q| - 1], p, n);
      OfProfileOfClaim(q[..|q| - 1], p, n, r);
      assert (before + [q[|q| - 1]])[..|before|] == before;
    }
  }

  /** Claim and put back: the profile's requests are again as they were. */
  lemma ClaimThenRequeue(q: seq<Request>, p: ProfileId, n: nat, r: ProfileId)
    ensures OfProfile(Claimed(q, p, n) + Remaining(q, p, n), r) == OfProfile(q, r)
  {
    OfProfileConcat(Claimed(q, p, n), Remaining(q, p, n), r);
    OfProfileOfClaim(q, p, n, r);
    RemainingIsRest(q, p, n, r);
    ClaimedIsOldest(q, p, n);
  }

  /** Pending count of every profile that has one. */
  ghost predicate CountsOf(q: seq<Request>, counts: map<ProfileId, nat>) {
    && (forall p :: p in counts ==> counts[p] == |OfProfile(q, p)| > 0)
    && forall p :: p !in counts ==> OfProfile(q, p) == []
  }

  method PendingProfileCounts(q: seq<Request>) returns (counts: map<ProfileId, nat>)
    ensures CountsOf(q, counts)
  {
    counts := map[];
    for i := 0 to |q|
      invariant CountsOf(q[..i], counts)
    {
      assert q[..i + 1][..i] == q[..i];
      var p := q[i].profile;
      counts := counts[p := 1 + if p in counts then counts[p] else 0];
    }
    assert q[..|q|] == q;
  }
}
