/** The ordered, retrying notifications a provider sends its peers.

    The network is an arbitrary stream of answers; every request and its answer
    is kept in a log, so "acknowledged" is a fact about what was received. */
module Notifications {
  import opened Options

  // ── peers ──────────────────────────────────────────────────────────────

  datatype PeerName = CarbonShift | Executor | Client(index: nat) | CloseSlot

  datatype Peer = Peer(name: PeerName, url: string, order: int, producer: bool, confirmsSlot: bool)

  datatype Settings = Settings(carbonshiftUrl: string, executorUrl: string, clientUrls: seq<string>, maxAttempts: int)

  predicate Blank(s: string) { forall i :: 0 <= i < |s| ==> s[i] in " \t\n\r" }

  function ClientPeers(urls: seq<string>, firstOrder: int, index: nat): seq<Peer>
    decreases |urls|
  {
    if urls == [] then []
    else [Peer(Client(index), urls[0], firstOrder + (index - 1) * 10, true, true)]
         + ClientPeers(urls[1..], firstOrder, index + 1)
  }

  function ClockPeers(settings: Settings): seq<Peer> {
    [Peer(CarbonShift, settings.carbonshiftUrl, 10, false, false)]
    + if Blank(settings.executorUrl) then [] else [Peer(Executor, settings.executorUrl, 20, false, false)]
  }

  function PeersFromSettings(settings: Settings): seq<Peer> {
    var peers := ClockPeers(settings);
    peers + ClientPeers(settings.clientUrls, (|peers| + 1) * 10, 1)
  }

  predicate Increasing(peers: seq<Peer>) {
    forall i, j :: 0 <= i < j < |peers| ==> peers[i].order < peers[j].order
  }

  lemma {:induction false} ClientPeersIncrease(urls: seq<string>, firstOrder: int, index: nat)
    ensures var ps := ClientPeers(urls, firstOrder, index);
            && Increasing(ps) && |ps| == |urls|
            && forall i :: 0 <= i < |ps| ==> ps[i].order == firstOrder + (index + i - 1) * 10 && ps[i].producer
    decreases |urls|
  {
    if urls != [] {
      ClientPeersIncrease(urls[1..], firstOrder, index + 1);
      var rest := ClientPeers(urls[1..], firstOrder, index + 1);
      assert forall i :: 0 < i <= |rest| ==> ClientPeers(urls, firstOrder, index)[i] == rest[i - 1];
    }
  }

  /** Whatever is configured, the declared order numbers strictly increase. */
  lemma PeersIncrease(settings: Settings)
    ensures Increasing(PeersFromSettings(settings))
    ensures |PeersFromSettings(settings)| > 0 && PeersFromSettings(settings)[0].name == CarbonShift
  {
    ClientPeersIncrease(settings.clientUrls, (|ClockPeers(settings)| + 1) * 10, 1);
  }

  lemma {:induction false} ClientPeersAre(urls: seq<string>, firstOrder: int, index: nat, i: nat)
    requires i < |urls|
    ensures |ClientPeers(urls, firstOrder, index)| == |urls|
    ensures ClientPeers(urls, firstOrder, index)[i]
         == Peer(Client(index + i), urls[i], firstOrder + (index + i - 1) * 10, true, true)
    decreases |urls|
  {
    ClientPeersIncrease(urls, firstOrder, index);
    if i > 0 {
      ClientPeersAre(urls[1..], firstOrder, index + 1, i - 1);
    }
  }

  /** Who is notified: the scheduler, the executor exactly if its address has a
      non-blank character, and behind them one producer per client address, in
      configured order, each to confirm its slot; and nobody else. */
  lemma PeersAre(settings: Settings)
    ensures var peers := PeersFromSettings(settings);
            var executor := exists j :: 0 <= j < |settings.executorUrl| && settings.executorUrl[j] !in " \t\n\r";
            var first := if executor then 2 else 1;
            && |peers| == first + |settings.clientUrls|
            && peers[0] == Peer(CarbonShift, settings.carbonshiftUrl, 10, false, false)
            && (executor ==> peers[1] == Peer(Executor, settings.executorUrl, 20, false, false))
            && forall i :: 0 <= i < |settings.clientUrls| ==>
                 peers[first + i] == Peer(Client(i + 1), settings.clientUrls[i], (first + 1 + i) * 10, true, true)
  {
    var firstOrder := (|ClockPeers(settings)| + 1) * 10;
    ClientPeersIncrease(settings.clientUrls, firstOrder, 1);
    forall i | 0 <= i < |settings.clientUrls|
      ensures ClientPeers(settings.clientUrls, firstOrder, 1)[i]
           == Peer(Client(i + 1), settings.clientUrls[i], firstOrder + i * 10, true, true)
    {
      ClientPeersAre(settings.clientUrls, firstOrder, 1, i);
    }
  }

  function Insert(peers: seq<Peer>, p: Peer): seq<Peer> {
    if peers == [] || p.order < peers[0].order then [p] + peers else [peers[0]] + Insert(peers[1..], p)
  }

  /** Stable sort by order number. */
  function SortByOrder(peers: seq<Peer>): seq<Peer> {
    if peers == [] then [] else Insert(SortByOrder(peers[..|peers| - 1]), peers[|peers| - 1])
  }

  lemma {:induction false} InsertLast(peers: seq<Peer>, p: Peer)
    requires forall i :: 0 <= i < |peers| ==> peers[i].order < p.order
    ensures Insert(peers, p) == peers + [p]
  {
    if peers != [] {
      InsertLast(peers[1..], p);
      assert peers == [peers[0]] + peers[1..];
    }
  }

  lemma {:induction false} SortedStays(peers: seq<Peer>)
    requires Increasing(peers)
    ensures SortByOrder(peers) == peers
  {
    if peers != [] {
      var front := peers[..|peers| - 1];
      SortedStays(front);
      InsertLast(front, peers[|peers| - 1]);
      assert peers == front + [peers[|peers| - 1]];
    }
  }

  predicate InOrder(peers: seq<Peer>) {
    forall i, j :: 0 <= i < j < |peers| ==> peers[i].order <= peers[j].order
  }

  lemma {:induction false} InsertOrders(peers: seq<Peer>, p: Peer)
    requires InOrder(peers)
    ensures InOrder(Insert(peers, p)) && multiset(Insert(peers, p)) == multiset(peers) + multiset{p}
    ensures |Insert(peers, p)| > 0 && (Insert(peers, p)[0] == p || (peers != [] && Insert(peers, p)[0] == peers[0]))
  {
    if peers == [] || p.order < peers[0].order {
      assert Insert(peers, p) == [p] + peers;
    } else {
      var rest := peers[1..];
      InsertOrders(rest, p);
      assert peers == [peers[0]] + rest;
      assert Insert(peers, p) == [peers[0]] + Insert(rest, p);
    }
  }

  /** Any list of peers is notified in order of its order numbers, each peer as often as listed. */
  lemma {:induction false} SortOrders(peers: seq<Peer>)
    ensures InOrder(SortByOrder(peers)) && multiset(SortByOrder(peers)) == multiset(peers)
  {
    if peers != [] {
      var front := peers[..|peers| - 1];
      SortOrders(front);
      InsertOrders(SortByOrder(front), peers[|peers| - 1]);
      assert peers == front + [peers[|peers| - 1]];
    }
  }

  function WithRole(peers: seq<Peer>, producer: bool): seq<Peer> {
    if peers == [] then []
    else (if peers[0].producer == producer then [peers[0]] else []) + WithRole(peers[1..], producer)
  }

  lemma {:induction false} WithRoleConcat(a: seq<Peer>, b: seq<Peer>, producer: bool)
    ensures WithRole(a + b, producer) == WithRole(a, producer) + WithRole(b, producer)
  {
    if a == [] {
      assert a + b == b;
    } else {
      assert (a + b)[0] == a[0] && (a + b)[1..] == a[1..] + b;
      WithRoleConcat(a[1..], b, producer);
    }
  }

  lemma {:induction false} WithRoleUniform(peers: seq<Peer>, role: bool)
    requires forall i :: 0 <= i < |peers| ==> peers[i].producer == role
    ensures WithRole(peers, role) == peers && WithRole(peers, !role) == []
  {
    if peers != [] {
      WithRoleUniform(peers[1..], role);
      assert peers == [peers[0]] + peers[1..];
    }
  }

  /** Announcing to consumers and then to producers is the declared order. */
  lemma ConsumersThenProducers(settings: Settings)
    ensures var peers := PeersFromSettings(settings);
            WithRole(peers, false) + WithRole(peers, true) == peers
            && Increasing(WithRole(peers, false)) && Increasing(WithRole(peers, true))
  {
    hide ClientPeers, WithRole, Blank;
    var clocks := ClockPeers(settings);
    var clients := ClientPeers(settings.clientUrls, (|clocks| + 1) * 10, 1);
    ClientPeersIncrease(settings.clientUrls, (|clocks| + 1) * 10, 1);
    WithRoleConcat(clocks, clients, false);
    WithRoleConcat(clocks, clients, true);
    WithRoleUniform(clocks, false);
    WithRoleUniform(clients, true);
    assert clocks + [] == clocks && [] + clients == clients;
  }

  // ── deliveries ─────────────────────────────────────────────────────────

  datatype Kind = Announce | Close | Rollover

  /** An answer: none at all, or a status and the slot its body confirms. */
  datatype Response = NoAnswer | Reply(status: int, confirmed: Option<int>)

  datatype Exchange = Exchange(peer: Peer, kind: Kind, slot: int, response: Response)

  datatype Delivery = Delivery(peer: PeerName, ok: bool, attempts: int)

  /** What a caller cannot choose: the network's `n`-th answer for every `n`, and
      the configured number of attempts. */
  datatype Wire = Wire(reply: nat -> Response, maxAttempts: int)

  datatype Trace = Trace(exchanges: seq<Exchange>, deliveries: seq<Delivery>)

  predicate Accepted(e: Exchange) {
    && e.response.Reply? && 200 <= e.response.status < 300
    && (e.peer.confirmsSlot ==> e.response.confirmed == Some(e.slot))
  }

  predicate Refused(e: Exchange) { e.response.Reply? && e.response.status == 409 }

  function Budget(maxAttempts: int): (n: nat)
    ensures n >= 1
  {
    if maxAttempts > 1 then maxAttempts else 1
  }

  /** The exchanges of one delivery with `left` attempts to go, the first being
      the network's `at`-th. */
  function Tries(wire: Wire, at: nat, peer: Peer, kind: Kind, slot: int, left: nat): (es: seq<Exchange>)
    requires left >= 1
    ensures 1 <= |es| <= left
    decreases left
  {
    var e := Exchange(peer, kind, slot, wire.reply(at));
    if Accepted(e) || Refused(e) || left == 1 then [e]
    else [e] + Tries(wire, at + 1, peer, kind, slot, left - 1)
  }

  function DeliveryOf(es: seq<Exchange>, maxAttempts: int): Delivery
    requires |es| > 0
  {
    var last := es[|es| - 1];
    Delivery(last.peer.name, Accepted(last), if Accepted(last) || Refused(last) then |es| else maxAttempts)
  }

  function Send(wire: Wire, at: nat, peer: Peer, kind: Kind, slot: int): (es: seq<Exchange>)
    ensures |es| > 0
  {
    Tries(wire, at, peer, kind, slot, Budget(wire.maxAttempts))
  }

  /** A fan-out: each peer in turn, stopping at the first that fails. */
  function FanOut(wire: Wire, at: nat, peers: seq<Peer>, kind: Kind, slot: int): Trace
    decreases |peers|
  {
    if peers == [] then Trace([], [])
    else
      var es := Send(wire, at, peers[0], kind, slot);
      var d := DeliveryOf(es, wire.maxAttempts);
      if !d.ok then Trace(es, [d])
      else
        var rest := FanOut(wire, at + |es|, peers[1..], kind, slot);
        Trace(es + rest.exchanges, [d] + rest.deliveries)
  }

  predicate AnyFailed(ds: seq<Delivery>) { exists i :: 0 <= i < |ds| && !ds[i].ok }

  predicate Served(es: seq<Exchange>, peer: Peer) { exists i :: 0 <= i < |es| && es[i].peer == peer && Accepted(es[i]) }

  predicate About(es: seq<Exchange>, kind: Kind, slot: int) {
    forall i :: 0 <= i < |es| ==> es[i].kind == kind && es[i].slot == slot
  }

  predicate EndsRejected(es: seq<Exchange>) { |es| > 0 && !Accepted(es[|es| - 1]) }

  lemma {:induction false} TriesFacts(wire: Wire, at: nat, peer: Peer, kind: Kind, slot: int, left: nat)
    requires left >= 1
    ensures var es := Tries(wire, at, peer, kind, slot, left);
            && (forall i :: 0 <= i < |es| ==> es[i] == Exchange(peer, kind, slot, wire.reply(at + i)))
            && (forall i :: 0 <= i < |es| - 1 ==> !Accepted(es[i]) && !Refused(es[i]))
            && (Accepted(es[|es| - 1]) || Refused(es[|es| - 1]) || |es| == left)
    decreases left
  {
    var e := Exchange(peer, kind, slot, wire.reply(at));
    if !Accepted(e) && !Refused(e) && left > 1 {
      TriesFacts(wire, at + 1, peer, kind, slot, left - 1);
      var rest := Tries(wire, at + 1, peer, kind, slot, left - 1);
      assert Tries(wire, at, peer, kind, slot, left) == [e] + rest;
      assert forall i :: 0 < i <= |rest| ==> ([e] + rest)[i] == rest[i - 1];
    }
  }

  /** One delivery: who it was to, and what its success means. */
  lemma SendFacts(wire: Wire, at: nat, peer: Peer, kind: Kind, slot: int)
    ensures var es := Send(wire, at, peer, kind, slot);
            var d := DeliveryOf(es, wire.maxAttempts);
            && d.peer == peer.name && About(es, kind, slot)
            && (forall i :: 0 <= i < |es| ==> es[i].peer == peer)
            && if d.ok then Served(es, peer) else EndsRejected(es)
  {
    hide Tries, Accepted, Refused;
    TriesFacts(wire, at, peer, kind, slot, Budget(wire.maxAttempts));
  }

  /** A fan-out reaches a prefix of the peers; all but the last of it succeed,
      and it is the whole list unless the last one failed. */
  lemma {:induction false} FanOutIsPrefix(wire: Wire, at: nat, peers: seq<Peer>, kind: Kind, slot: int)
    ensures var ds := FanOut(wire, at, peers, kind, slot).deliveries;
            && |ds| <= |peers|
            && (forall i :: 0 <= i < |ds| ==> ds[i].peer == peers[i].name)
            && (forall i :: 0 <= i < |ds| - 1 ==> ds[i].ok)
            && (|ds| < |peers| ==> |ds| > 0 && !ds[|ds| - 1].ok)
    decreases |peers|
  {
    hide Send, DeliveryOf, Served, About, EndsRejected;
    if peers != [] {
      SendFacts(wire, at, peers[0], kind, slot);
      FanOutIsPrefix(wire, at + |Send(wire, at, peers[0], kind, slot)|, peers[1..], kind, slot);
    }
  }

  lemma SequenceFacts(a: seq<Exchange>, b: seq<Exchange>, peer: Peer, kind: Kind, slot: int)
    ensures Served(a, peer) || Served(b, peer) ==> Served(a + b, peer)
    ensures About(a, kind, slot) && About(b, kind, slot) ==> About(a + b, kind, slot)
    ensures EndsRejected(b) ==> EndsRejected(a + b)
  {
    hide Accepted;
    if Served(a, peer) {
      var i :| 0 <= i < |a| && a[i].peer == peer && Accepted(a[i]);
      assert (a + b)[i] == a[i];
    }
    if Served(b, peer) {
      var i :| 0 <= i < |b| && b[i].peer == peer && Accepted(b[i]);
      assert (a + b)[|a| + i] == b[i];
    }
  }

  lemma AnyFailedCons(d: Delivery, ds: seq<Delivery>)
    ensures AnyFailed([d] + ds) <==> !d.ok || AnyFailed(ds)
  {
    if AnyFailed(ds) {
      var i :| 0 <= i < |ds| && !ds[i].ok;
      assert !([d] + ds)[i + 1].ok;
    }
    if !d.ok {
      assert !([d] + ds)[0].ok;
    }
  }

  /** What a fan-out says, and what failure of it means. */
  lemma {:induction false} FanOutOutcome(wire: Wire, at: nat, peers: seq<Peer>, kind: Kind, slot: int)
    ensures var t := FanOut(wire, at, peers, kind, slot);
            && About(t.exchanges, kind, slot)
            && (AnyFailed(t.deliveries) ==> EndsRejected(t.exchanges))
    decreases |peers|
  {
    hide Send, DeliveryOf, Served, About, EndsRejected, AnyFailed;
    if peers == [] {
      NothingSent(kind, slot);
    } else {
      var es := Send(wire, at, peers[0], kind, slot);
      var d := DeliveryOf(es, wire.maxAttempts);
      SendFacts(wire, at, peers[0], kind, slot);
      FanOutOutcome(wire, at + |es|, peers[1..], kind, slot);
      var rest := FanOut(wire, at + |es|, peers[1..], kind, slot);
      SequenceFacts(es, rest.exchanges, peers[0], kind, slot);
      AnyFailedCons(d, rest.deliveries);
    }
  }

  /** Answers that accept at once: one exchange per peer, and nothing fails. */
  lemma {:induction false} FanOutAccepted(wire: Wire, at: nat, peers: seq<Peer>, kind: Kind, slot: int)
    requires forall n :: at <= n < at + |peers| ==> wire.reply(n) == Reply(200, Some(slot))
    ensures var t := FanOut(wire, at, peers, kind, slot); |t.exchanges| == |peers| && !AnyFailed(t.deliveries)
    decreases |peers|
  {
    hide AnyFailed;
    if peers == [] {
      NothingSent(kind, slot);
    } else {
      var e := Exchange(peers[0], kind, slot, wire.reply(at));
      assert Send(wire, at, peers[0], kind, slot) == [e];
      FanOutAccepted(wire, at + 1, peers[1..], kind, slot);
      AnyFailedCons(DeliveryOf([e], wire.maxAttempts), FanOut(wire, at + 1, peers[1..], kind, slot).deliveries);
    }
  }

  predicate OnlyTo(es: seq<Exchange>, peers: seq<Peer>) {
    forall i :: 0 <= i < |es| ==> es[i].peer in peers
  }

  lemma OnlyToBoth(a: seq<Exchange>, b: seq<Exchange>, peers: seq<Peer>)
    requires peers != [] && OnlyTo(a, peers[..1]) && OnlyTo(b, peers[1..])
    ensures OnlyTo(a, peers) && OnlyTo(a + b, peers)
  {
    forall i | 0 <= i < |a| ensures a[i].peer in peers {
      assert a[i].peer in peers[..1];
    }
    forall i | 0 <= i < |b| ensures b[i].peer in peers {
      assert b[i].peer in peers[1..];
    }
  }

  /** A fan-out writes to nobody but its peers. */
  lemma {:induction false} FanOutAddresses(wire: Wire, at: nat, peers: seq<Peer>, kind: Kind, slot: int)
    ensures OnlyTo(FanOut(wire, at, peers, kind, slot).exchanges, peers)
    decreases |peers|
  {
    hide Send, DeliveryOf, Served, About, EndsRejected, OnlyTo;
    if peers == [] {
      NothingTo(peers);
    } else {
      var es := Send(wire, at, peers[0], kind, slot);
      OneOnlyTo(wire, at, peers, kind, slot);
      FanOutAddresses(wire, at + |es|, peers[1..], kind, slot);
      OnlyToBoth(es, FanOut(wire, at + |es|, peers[1..], kind, slot).exchanges, peers);
    }
  }

  lemma NothingTo(peers: seq<Peer>)
    ensures OnlyTo([], peers)
  {
  }

  lemma OneOnlyTo(wire: Wire, at: nat, peers: seq<Peer>, kind: Kind, slot: int)
    requires peers != []
    ensures OnlyTo(Send(wire, at, peers[0], kind, slot), peers[..1])
  {
    hide Send;
    SendFacts(wire, at, peers[0], kind, slot);
  }

  lemma NothingSent(kind: Kind, slot: int)
    ensures About([], kind, slot) && !AnyFailed([])
  {
  }

  /** A fan-out without a failure was acknowledged by every peer. */
  lemma {:induction false} FanOutServes(wire: Wire, at: nat, peers: seq<Peer>, kind: Kind, slot: int, i: nat)
    requires i < |peers| && !AnyFailed(FanOut(wire, at, peers, kind, slot).deliveries)
    ensures Served(FanOut(wire, at, peers, kind, slot).exchanges, peers[i])
    decreases |peers|
  {
    hide Send, DeliveryOf, Served, About, EndsRejected, AnyFailed;
    var es := Send(wire, at, peers[0], kind, slot);
    var d := DeliveryOf(es, wire.maxAttempts);
    SendFacts(wire, at, peers[0], kind, slot);
    var rest := FanOut(wire, at + |es|, peers[1..], kind, slot);
    AnyFailedCons(d, []);
    assert [d] + [] == [d];
    AnyFailedCons(d, rest.deliveries);
    SequenceFacts(es, rest.exchanges, peers[i], kind, slot);
    if i > 0 {
      FanOutServes(wire, at + |es|, peers[1..], kind, slot, i - 1);
    }
  }

  /** No peer hears anything before the peer declared in front of it has
      acknowledged. */
  lemma {:induction false} FanOutInTurn(wire: Wire, at: nat, peers: seq<Peer>, kind: Kind, slot: int, i: nat, j: nat)
    requires Increasing(peers)
    requires 0 < i < |peers| && j < |FanOut(wire, at, peers, kind, slot).exchanges|
    requires FanOut(wire, at, peers, kind, slot).exchanges[j].peer == peers[i]
    ensures Served(FanOut(wire, at, peers, kind, slot).exchanges[..j], peers[i - 1])
    decreases |peers|
  {
    hide Send, DeliveryOf, Served, About, EndsRejected;
    SendFacts(wire, at, peers[0], kind, slot);
    var es := Send(wire, at, peers[0], kind, slot);
    var rest := FanOut(wire, at + |es|, peers[1..], kind, slot);
    var all := FanOut(wire, at, peers, kind, slot).exchanges;
    assert peers[0].order < peers[i].order;
    assert j >= |es|;
    assert all == es + rest.exchanges;
    assert all[..j] == es + rest.exchanges[..j - |es|];
    if i > 1 {
      assert peers[1..][i - 1] == peers[i] && peers[1..][i - 2] == peers[i - 1];
      FanOutInTurn(wire, at + |es|, peers[1..], kind, slot, i - 1, j - |es|);
    }
    SequenceFacts(es, rest.exchanges[..j - |es|], peers[i - 1], kind, slot);
  }

  function Then(t: Trace, u: Trace): Trace {
    if AnyFailed(t.deliveries) then t else Trace(t.exchanges + u.exchanges, t.deliveries + u.deliveries)
  }

  lemma FanOutFirst(wire: Wire, at: nat, p: Peer, rest: seq<Peer>, kind: Kind, slot: int)
    ensures var es := Send(wire, at, p, kind, slot);
            FanOut(wire, at, [p] + rest, kind, slot)
            == Then(Trace(es, [DeliveryOf(es, wire.maxAttempts)]), FanOut(wire, at + |es|, rest, kind, slot))
  {
    hide Send, DeliveryOf, AnyFailed;
    var d := DeliveryOf(Send(wire, at, p, kind, slot), wire.maxAttempts);
    AnyFailedCons(d, []);
    NothingSent(kind, slot);
    assert [d] + [] == [d];
    assert ([p] + rest)[1..] == rest;
  }

  lemma ThenAssociates(d: Delivery, es: seq<Exchange>, t: Trace, u: Trace)
    ensures Then(Trace(es, [d]), Then(t, u)) == Then(Then(Trace(es, [d]), t), u)
  {
    hide AnyFailed;
    AnyFailedCons(d, []);
    NothingSent(Announce, 0);
    assert [d] + [] == [d];
    AnyFailedCons(d, t.deliveries);
    assert es + (t.exchanges + u.exchanges) == (es + t.exchanges) + u.exchanges;
    assert [d] + (t.deliveries + u.deliveries) == ([d] + t.deliveries) + u.deliveries;
  }

  /** Two fan-outs, the second only if the first succeeded, are one. */
  lemma {:induction false} FanOutConcat(wire: Wire, at: nat, a: seq<Peer>, b: seq<Peer>, kind: Kind, slot: int)
    ensures var t := FanOut(wire, at, a, kind, slot);
            FanOut(wire, at, a + b, kind, slot) == Then(t, FanOut(wire, at + |t.exchanges|, b, kind, slot))
    decreases |a|, 1
  {
    hide Send, DeliveryOf;
    if a == [] {
      assert a + b == b;
      var u := FanOut(wire, at, b, kind, slot);
      assert [] + u.exchanges == u.exchanges && [] + u.deliveries == u.deliveries;
    } else {
      FanOutConcatStep(wire, at, a, b, kind, slot);
    }
  }

  lemma {:induction false} FanOutConcatStep(wire: Wire, at: nat, a: seq<Peer>, b: seq<Peer>, kind: Kind, slot: int)
    requires a != []
    ensures var t := FanOut(wire, at, a, kind, slot);
            FanOut(wire, at, a + b, kind, slot) == Then(t, FanOut(wire, at + |t.exchanges|, b, kind, slot))
    decreases |a|, 0
  {
    hide FanOut, Send, DeliveryOf, AnyFailed;
    var es := Send(wire, at, a[0], kind, slot);
    var d := DeliveryOf(es, wire.maxAttempts);
    var rest := FanOut(wire, at + |es|, a[1..], kind, slot);
    assert a == [a[0]] + a[1..] && a + b == [a[0]] + (a[1..] + b);
    FanOutFirst(wire, at, a[0], a[1..], kind, slot);
    FanOutFirst(wire, at, a[0], a[1..] + b, kind, slot);
    FanOutConcat(wire, at + |es|, a[1..], b, kind, slot);
    ThenAssociates(d, es, rest, FanOut(wire, at + |es| + |rest.exchanges|, b, kind, slot));
  }

  // ── the code that sends them ───────────────────────────────────────────

  class Network {
    const reply: nat -> Response
    var log: seq<Exchange>

    constructor (reply: nat -> Response)
      ensures this.reply == reply && log == []
    {
      this.reply, log := reply, [];
    }

    method Post(peer: Peer, kind: Kind, slot: int) returns (e: Exchange)
      modifies this
      ensures e == Exchange(peer, kind, slot, reply(old(|log|))) && log == old(log) + [e]
    {
      e := Exchange(peer, kind, slot, reply(|log|));
      log := log + [e];
    }
  }

  /** The peer said yes: a 2xx answer that, where it has to, confirms the slot. */
  predicate SaysYes(e: Exchange) {
    && e.response.Reply? && e.response.status >= 200 && e.response.status <= 299
    && (e.peer.confirmsSlot ==> e.response.confirmed.Some? && e.response.confirmed.value == e.slot)
  }

  /** The log grew by one to `most` requests to `peer`, answered in turn by the
      network; none was made after a yes or a 409, and short of those all were made. */
  ghost predicate Attempted(reply: nat -> Response, before: seq<Exchange>, after: seq<Exchange>, peer: Peer, kind: Kind,
                            slot: int, most: int)
  {
    && |before| < |after| <= |before| + most && before <= after
    && (forall i :: |before| <= i < |after| ==> after[i] == Exchange(peer, kind, slot, reply(i)))
    && (forall i :: |before| <= i < |after| - 1 ==>
          !SaysYes(after[i]) && !(after[i].response.Reply? && after[i].response.status == 409))
    && (|after| < |before| + most ==>
          SaysYes(after[|after| - 1])
          || (after[|after| - 1].response.Reply? && after[|after| - 1].response.status == 409))
  }

  lemma YesIsAccepted(e: Exchange)
    ensures SaysYes(e) <==> Accepted(e)
    ensures Refused(e) <==> e.response.Reply? && e.response.status == 409
  {
  }

  lemma TriesAttempt(reply: nat -> Response, before: seq<Exchange>, es: seq<Exchange>, peer: Peer, kind: Kind, slot: int,
                     most: nat)
    requires 1 <= |es| <= most
    requires forall i :: 0 <= i < |es| ==> es[i] == Exchange(peer, kind, slot, reply(|before| + i))
    requires forall i :: 0 <= i < |es| - 1 ==> !Accepted(es[i]) && !Refused(es[i])
    requires Accepted(es[|es| - 1]) || Refused(es[|es| - 1]) || |es| == most
    ensures Attempted(reply, before, before + es, peer, kind, slot, most)
  {
    hide Accepted, Refused, SaysYes;
    var after := before + es;
    forall i | |before| <= i < |after|
      ensures after[i] == es[i - |before|] && after[i] == Exchange(peer, kind, slot, reply(i))
    {
    }
    forall i | |before| <= i < |after| - 1
      ensures !SaysYes(after[i]) && !(after[i].response.Reply? && after[i].response.status == 409)
    {
      YesIsAccepted(es[i - |before|]);
    }
    YesIsAccepted(es[|es| - 1]);
  }

  lemma DeliveryFacts(wire: Wire, before: seq<Exchange>, peer: Peer, kind: Kind, slot: int)
    ensures var es := Send(wire, |before|, peer, kind, slot);
            && Attempted(wire.reply, before, before + es, peer, kind, slot, if wire.maxAttempts > 1 then wire.maxAttempts else 1)
            && DeliveryOf(es, wire.maxAttempts).peer == peer.name
            && (DeliveryOf(es, wire.maxAttempts).ok <==> SaysYes((before + es)[|before + es| - 1]))
  {
    hide Accepted, Refused, SaysYes, Attempted, Tries;
    var es := Send(wire, |before|, peer, kind, slot);
    TriesFacts(wire, |before|, peer, kind, slot, Budget(wire.maxAttempts));
    TriesAttempt(wire.reply, before, es, peer, kind, slot, if wire.maxAttempts > 1 then wire.maxAttempts else 1);
    YesIsAccepted(es[|es| - 1]);
  }

  method Deliver(net: Network, peer: Peer, kind: Kind, slot: int, maxAttempts: int) returns (d: Delivery)
    modifies net
    ensures var es := Send(Wire(net.reply, maxAttempts), old(|net.log|), peer, kind, slot);
            net.log == old(net.log) + es && d == DeliveryOf(es, maxAttempts)
    ensures Attempted(net.reply, old(net.log), net.log, peer, kind, slot, if maxAttempts > 1 then maxAttempts else 1)
    ensures d.peer == peer.name && (d.ok <==> SaysYes(net.log[|net.log| - 1]))
  {
    hide Send, DeliveryOf, Attempted, SaysYes;
    DeliveryFacts(Wire(net.reply, maxAttempts), net.log, peer, kind, slot);
    d := Attempts(net, peer, kind, slot, maxAttempts);
  }

  /** The attempt loop. */
  method Attempts(net: Network, peer: Peer, kind: Kind, slot: int, maxAttempts: int) returns (d: Delivery)
    modifies net
    ensures var es := Send(Wire(net.reply, maxAttempts), old(|net.log|), peer, kind, slot);
            net.log == old(net.log) + es && d == DeliveryOf(es, maxAttempts)
  {
    hide Accepted, Refused, Tries, DeliveryOf;
    ghost var wire := Wire(net.reply, maxAttempts);
    ghost var es := Send(wire, |net.log|, peer, kind, slot);
    var attempt := 0;
    while true
      invariant 0 <= attempt < Budget(maxAttempts) && |net.log| == old(|net.log|) + attempt
      invariant old(net.log) + es == net.log + Tries(wire, |net.log|, peer, kind, slot, Budget(maxAttempts) - attempt)
      decreases Budget(maxAttempts) - attempt
    {
      attempt := attempt + 1;
      ghost var before := net.log;
      TriesFirst(wire, |before|, peer, kind, slot, Budget(maxAttempts) - attempt + 1);
      var e := net.Post(peer, kind, slot);
      if Accepted(e) || Refused(e) || attempt == Budget(maxAttempts) {
        assert net.log == old(net.log) + es;
        LastTry(old(net.log), net.log, es, maxAttempts);
        return Delivery(peer.name, Accepted(e), if Accepted(e) || Refused(e) then attempt else maxAttempts);
      }
      ghost var rest := Tries(wire, |net.log|, peer, kind, slot, Budget(maxAttempts) - attempt);
      assert before + ([e] + rest) == net.log + rest;
    }
  }

  lemma TriesFirst(wire: Wire, at: nat, peer: Peer, kind: Kind, slot: int, left: nat)
    requires left >= 1
    ensures var e := Exchange(peer, kind, slot, wire.reply(at));
            Tries(wire, at, peer, kind, slot, left)
            == if Accepted(e) || Refused(e) || left == 1 then [e]
               else [e] + Tries(wire, at + 1, peer, kind, slot, left - 1)
  {
  }

  lemma LastTry(before: seq<Exchange>, after: seq<Exchange>, es: seq<Exchange>, maxAttempts: int)
    requires after == before + es && es != []
    ensures var e := after[|after| - 1];
            DeliveryOf(es, maxAttempts) == Delivery(e.peer.name, Accepted(e),
              if Accepted(e) || Refused(e) then |after| - |before| else maxAttempts)
  {
    assert after[|after| - 1] == es[|es| - 1];
  }

  lemma FanOutUnfold(wire: Wire, at: nat, peers: seq<Peer>, kind: Kind, slot: int)
    ensures peers == [] ==> FanOut(wire, at, peers, kind, slot) == Trace([], [])
    ensures peers != [] ==>
      var es := Send(wire, at, peers[0], kind, slot);
      var d := DeliveryOf(es, wire.maxAttempts);
      var rest := FanOut(wire, at + |es|, peers[1..], kind, slot);
      FanOut(wire, at, peers, kind, slot)
      == if d.ok then Trace(es + rest.exchanges, [d] + rest.deliveries) else Trace(es, [d])
  {
  }

  /** Peers in ascending order, stopping at the first failure. */
  method NotifyPeers(net: Network, peers: seq<Peer>, kind: Kind, slot: int, maxAttempts: int)
      returns (results: seq<Delivery>)
    modifies net
    ensures var t := FanOut(Wire(net.reply, maxAttempts), old(|net.log|), SortByOrder(peers), kind, slot);
            net.log == old(net.log) + t.exchanges && results == t.deliveries
  {
    hide Send, DeliveryOf, SortByOrder, FanOut;
    ghost var wire := Wire(net.reply, maxAttempts);
    var sorted := SortByOrder(peers);
    ghost var t := FanOut(wire, |net.log|, sorted, kind, slot);
    results := [];
    var i := 0;
    while i < |sorted|
      invariant 0 <= i <= |sorted|
      invariant var rest := FanOut(wire, |net.log|, sorted[i..], kind, slot);
                old(net.log) + t.exchanges == net.log + rest.exchanges && t.deliveries == results + rest.deliveries
    {
      ghost var before, sofar := net.log, results;
      FanOutUnfold(wire, |before|, sorted[i..], kind, slot);
      ghost var es := Send(wire, |before|, sorted[i], kind, slot);
      var d := Deliver(net, sorted[i], kind, slot, maxAttempts);
      results := results + [d];
      if !d.ok {
        return;
      }
      assert sorted[i..][1..] == sorted[i + 1..];
      ghost var later := FanOut(wire, |net.log|, sorted[i + 1..], kind, slot);
      assert before + (es + later.exchanges) == (before + es) + later.exchanges;
      assert sofar + ([d] + later.deliveries) == (sofar + [d]) + later.deliveries;
      i := i + 1;
    }
    FanOutUnfold(wire, |net.log|, sorted[i..], kind, slot);
  }
}
