/** The provider service: announce, close the active slot, advance the clock,
    fan the new slot out; and refuse every further advance after a fan-out that
    failed once the clock had moved.

    The carbon source is asked for a reading and a forecast before anything is
    fanned out. Its contract forbids it to raise; what happens if it does is
    part of the model. */
module Provider {
  import opened Options
  import opened SlotGrid
  import opened Notifications

  datatype Request = Request(notify: bool, expectSlot: Option<int>)

  /** Whether the source serves an advance: its announcement and its rollover. */
  datatype Feed = Feed(announces: bool, rolls: bool)

  datatype Outcome =
    | NotManual
    | Desynced(failed: seq<Delivery>)
    | SlotMismatch(expected: int, actual: int)
    | AnnouncementFailed(deliveries: seq<Delivery>)
    | CloseFailed(deliveries: seq<Delivery>)
    | RolloverFailed(deliveries: seq<Delivery>)
    | SourceFailed(slot: int, moved: bool)
    | Advanced(slot: int, deliveries: seq<Delivery>)

  // ── what the log must show ─────────────────────────────────────────────

  /** The scheduler itself answered a close call for `slot` with that slot. */
  predicate ConfirmsClose(e: Exchange, slot: int) {
    && e.kind.Close? && e.slot == slot && e.peer.name.CloseSlot?
    && e.response.Reply? && 200 <= e.response.status < 300 && e.response.confirmed == Some(slot)
  }

  predicate ClosedIn(log: seq<Exchange>, slot: int) {
    exists i :: 0 <= i < |log| && ConfirmsClose(log[i], slot)
  }

  /** Every slot left so far was closed first, save those left without
      notifying anyone. */
  ghost predicate LeftClosed(log: seq<Exchange>, start: int, current: int, silent: set<int>) {
    forall g :: start <= g < current ==> g in silent || ClosedIn(log, g)
  }

  /** No peer was told of a slot before the one in front of it was closed, nor of
      a slot the clock has not reached. */
  ghost predicate ToldAfterClose(log: seq<Exchange>, start: int, current: int, silent: set<int>) {
    forall j :: 0 <= j < |log| ==> ToldInTurn(log, j, start, current, silent)
  }

  ghost predicate ToldInTurn(log: seq<Exchange>, j: nat, start: int, current: int, silent: set<int>)
    requires j < |log|
  {
    && (log[j].kind.Announce? ==> log[j].slot == start)
    && (log[j].kind.Rollover? ==>
          start < log[j].slot <= current && (log[j].slot - 1 in silent || ClosedIn(log[..j], log[j].slot - 1)))
  }

  lemma ClosedGrows(log: seq<Exchange>, more: seq<Exchange>, slot: int)
    requires ClosedIn(log, slot)
    ensures ClosedIn(log + more, slot)
  {
    var i :| 0 <= i < |log| && ConfirmsClose(log[i], slot);
    assert ConfirmsClose((log + more)[i], slot);
  }

  lemma LeftClosedGrows(log: seq<Exchange>, more: seq<Exchange>, start: int, current: int, silent: set<int>)
    requires LeftClosed(log, start, current, silent)
    ensures LeftClosed(log + more, start, current, silent)
  {
    forall g | start <= g < current && g !in silent ensures ClosedIn(log + more, g) {
      ClosedGrows(log, more, g);
    }
  }

  lemma ToldGrows(log: seq<Exchange>, more: seq<Exchange>, start: int, current: int, silent: set<int>, kind: Kind,
                  slot: int)
    requires ToldAfterClose(log, start, current, silent) && About(more, kind, slot)
    requires kind.Announce? ==> slot == start
    requires kind.Rollover? ==> start < slot <= current && (slot - 1 in silent || ClosedIn(log, slot - 1))
    ensures ToldAfterClose(log + more, start, current, silent)
  {
    hide ClosedIn;
    forall j | 0 <= j < |log + more| ensures ToldInTurn(log + more, j, start, current, silent) {
      if j < |log| {
        assert ToldInTurn(log, j, start, current, silent);
        assert (log + more)[..j] == log[..j];
      } else {
        assert (log + more)[..j] == log + more[..j - |log|];
        if kind.Rollover? && slot - 1 !in silent {
          ClosedGrows(log, more[..j - |log|], slot - 1);
        }
      }
    }
  }

  /** A close fan-out that did not fail leaves the confirmation in the log. */
  lemma CloseConfirms(wire: Wire, at: nat, peer: Peer, slot: int)
    requires peer.name.CloseSlot? && peer.confirmsSlot
    requires !AnyFailed(FanOut(wire, at, [peer], Close, slot).deliveries)
    ensures ClosedIn(FanOut(wire, at, [peer], Close, slot).exchanges, slot)
  {
    hide FanOut, AnyFailed;
    FanOutServes(wire, at, [peer], Close, slot, 0);
    FanOutOutcome(wire, at, [peer], Close, slot);
    var es := FanOut(wire, at, [peer], Close, slot).exchanges;
    var i :| 0 <= i < |es| && es[i].peer == peer && Accepted(es[i]);
    assert ConfirmsClose(es[i], slot);
  }

  /** Every peer acknowledged being told of `slot`. */
  ghost predicate Heard(log: seq<Exchange>, peers: seq<Peer>, slot: int) {
    forall n :: 0 <= n < |peers| ==> HeardBy(log, peers[n], slot)
  }

  ghost predicate HeardBy(log: seq<Exchange>, peer: Peer, slot: int) {
    exists i :: 0 <= i < |log| && log[i].kind.Rollover? && log[i].slot == slot && log[i].peer == peer && Accepted(log[i])
  }

  ghost predicate NobodyTold(log: seq<Exchange>, slot: int) {
    forall j :: 0 <= j < |log| && log[j].kind.Rollover? ==> log[j].slot != slot
  }

  /** Only configured peers are written to, and closing goes to the scheduler's address. */
  predicate Addressed(log: seq<Exchange>, peers: seq<Peer>) {
    forall j :: 0 <= j < |log| ==>
      if log[j].kind.Close? then peers != [] && log[j].peer.url == peers[0].url else log[j].peer in peers
  }

  lemma AddressedGrows(log: seq<Exchange>, more: seq<Exchange>, peers: seq<Peer>)
    requires Addressed(log, peers) && Addressed(more, peers)
    ensures Addressed(log + more, peers)
  {
  }

  /** Every slot entered was acknowledged by every peer, save one entered without
      notifying anyone, one the source failed on, and the one that set the latch;
      of a slot the source failed on nobody was told at all. */
  ghost predicate Audience(log: seq<Exchange>, peers: seq<Peer>, start: int, current: int, silent: set<int>,
                           untold: set<int>, latched: bool)
  {
    && (forall g :: start < g <= current ==>
          g - 1 in silent || g in untold || (latched && g == current) || Heard(log, peers, g))
    && (forall j :: 0 <= j < |log| && log[j].kind.Rollover? ==> log[j].slot <= current)
    && (forall g :: g in silent ==> g < current)
    && (forall g :: g in untold ==> g <= current && NobodyTold(log, g))
    && Addressed(log, peers)
  }

  lemma HeardGrows(log: seq<Exchange>, more: seq<Exchange>, peers: seq<Peer>, slot: int)
    requires Heard(log, peers, slot)
    ensures Heard(log + more, peers, slot)
  {
    forall n | 0 <= n < |peers| ensures HeardBy(log + more, peers[n], slot) {
      assert HeardBy(log, peers[n], slot);
      var i :| 0 <= i < |log| && log[i].kind.Rollover? && log[i].slot == slot && log[i].peer == peers[n] && Accepted(log[i]);
      assert (log + more)[i] == log[i];
    }
  }

  /** Announcements and close calls tell nobody of a slot entered. */
  lemma AudienceGrows(log: seq<Exchange>, more: seq<Exchange>, peers: seq<Peer>, start: int, current: int,
                      silent: set<int>, untold: set<int>, latched: bool, kind: Kind, slot: int)
    requires Audience(log, peers, start, current, silent, untold, latched) && About(more, kind, slot)
    requires !kind.Rollover? && Addressed(more, peers)
    ensures Audience(log + more, peers, start, current, silent, untold, latched)
  {
    hide Heard, Accepted, Addressed;
    AddressedGrows(log, more, peers);
    forall g | start < g <= current && Heard(log, peers, g) ensures Heard(log + more, peers, g) {
      HeardGrows(log, more, peers, g);
    }
    assert forall j :: |log| <= j < |log + more| ==> (log + more)[j] == more[j - |log|];
    assert forall j :: 0 <= j < |log| ==> (log + more)[j] == log[j];
  }

  /** The clock enters `slot`: silently, past a failing source, or with a fan-out still to come. */
  lemma AudienceMoves(log: seq<Exchange>, peers: seq<Peer>, start: int, slot: int, silent: set<int>, untold: set<int>,
                      left: set<int>, skipped: set<int>, latched: bool)
    requires Audience(log, peers, start, slot - 1, silent, untold, false)
    requires left <= {slot - 1} && skipped <= {slot} && (slot - 1 in left || slot in skipped || latched || Heard(log, peers, slot))
    ensures Audience(log, peers, start, slot, silent + left, untold + skipped, latched)
  {
    hide Heard;
  }

  lemma FanOutHeard(wire: Wire, log: seq<Exchange>, peers: seq<Peer>, slot: int)
    requires !AnyFailed(FanOut(wire, |log|, peers, Rollover, slot).deliveries)
    ensures Heard(log + FanOut(wire, |log|, peers, Rollover, slot).exchanges, peers, slot)
  {
    hide FanOut, AnyFailed, Accepted;
    var more := FanOut(wire, |log|, peers, Rollover, slot).exchanges;
    FanOutOutcome(wire, |log|, peers, Rollover, slot);
    forall n | 0 <= n < |peers| ensures HeardBy(log + more, peers[n], slot) {
      FanOutServes(wire, |log|, peers, Rollover, slot, n);
      var i :| 0 <= i < |more| && more[i].peer == peers[n] && Accepted(more[i]);
      assert (log + more)[|log| + i] == more[i];
    }
  }

  /** Entering `slot` and the fan-out after it. */
  lemma RollingHeard(wire: Wire, log: seq<Exchange>, peers: seq<Peer>, start: int, slot: int, silent: set<int>,
                     untold: set<int>, notify: bool, fed: bool)
    requires Audience(log, peers, start, slot - 1, silent, untold, false)
    ensures var t := Rolling(wire, |log|, peers, slot, notify, fed);
            Audience(log + t.exchanges, peers, start, slot, silent + (if notify then {} else {slot - 1}),
                     untold + (if fed then {} else {slot}), AnyFailed(t.deliveries))
  {
    hide FanOut, AnyFailed, Audience, Heard, About;
    var t := Rolling(wire, |log|, peers, slot, notify, fed);
    var left, skipped := if notify then {} else {slot - 1}, if fed then {} else {slot};
    NothingSaid(log);
    if notify && fed {
      FanOutOutcome(wire, |log|, peers, Rollover, slot);
      FanOutAddressed(wire, |log|, peers, peers, Rollover, slot);
      Untold(log, peers, start, slot, silent, untold);
      if !AnyFailed(t.deliveries) {
        FanOutHeard(wire, log, peers, slot);
      }
      AudienceEnters(log, t.exchanges, peers, start, slot, silent, untold, AnyFailed(t.deliveries));
      assert silent + {} == silent && untold + {} == untold;
    } else {
      AudienceMoves(log, peers, start, slot, silent, untold, left, skipped, false);
    }
  }

  lemma Untold(log: seq<Exchange>, peers: seq<Peer>, start: int, slot: int, silent: set<int>, untold: set<int>)
    requires Audience(log, peers, start, slot - 1, silent, untold, false)
    ensures slot !in untold
  {
  }

  lemma AudienceEnters(log: seq<Exchange>, more: seq<Exchange>, peers: seq<Peer>, start: int, slot: int,
                       silent: set<int>, untold: set<int>, latched: bool)
    requires Audience(log, peers, start, slot - 1, silent, untold, false) && About(more, Rollover, slot)
    requires (latched || Heard(log + more, peers, slot)) && Addressed(more, peers)
    ensures Audience(log + more, peers, start, slot, silent, untold, latched)
  {
    hide Heard, Accepted, Addressed;
    AddressedGrows(log, more, peers);
    forall g | start < g < slot && Heard(log, peers, g) ensures Heard(log + more, peers, g) {
      HeardGrows(log, more, peers, g);
    }
    forall j | 0 <= j < |log + more| && (log + more)[j].kind.Rollover?
      ensures (log + more)[j].slot <= slot && (log + more)[j].slot !in untold
    {
      if j < |log| {
        assert (log + more)[j] == log[j];
      } else {
        assert (log + more)[j] == more[j - |log|];
      }
    }
  }

  // ── one advance, as exchanged with the network ─────────────────────────

  const SILENCE := Trace([], [])

  function ClosePeer(peers: seq<Peer>): Peer
    requires peers != []
  {
    Peer(CloseSlot, peers[0].url, 10, false, true)
  }

  function Announcement(wire: Wire, at: nat, peers: seq<Peer>, slot: int, notify: bool): Trace {
    if notify then FanOut(wire, at, peers, Announce, slot) else SILENCE
  }

  function Closing(wire: Wire, at: nat, peers: seq<Peer>, slot: int, notify: bool): Trace
    requires peers != []
  {
    if notify then FanOut(wire, at, [ClosePeer(peers)], Close, slot) else SILENCE
  }

  function Rolling(wire: Wire, at: nat, peers: seq<Peer>, slot: int, notify: bool, fed: bool): Trace {
    if notify && fed then FanOut(wire, at, peers, Rollover, slot) else SILENCE
  }

  lemma FanOutAddressed(wire: Wire, at: nat, peers: seq<Peer>, to: seq<Peer>, kind: Kind, slot: int)
    requires if kind.Close? then peers != [] && to == [ClosePeer(peers)] else to == peers
    ensures Addressed(FanOut(wire, at, to, kind, slot).exchanges, peers)
  {
    hide FanOut;
    FanOutOutcome(wire, at, to, kind, slot);
    FanOutAddresses(wire, at, to, kind, slot);
  }

  /** The three conversations an advance out of slot `current` may have. */
  datatype Talk = Talk(announcement: Trace, closing: Trace, rolling: Trace)

  function TalkOf(wire: Wire, at: nat, peers: seq<Peer>, current: int, hello: bool, notify: bool, fed: bool): Talk
    requires peers != []
  {
    var a := Announcement(wire, at, peers, current, hello);
    var c := Closing(wire, at + |a.exchanges|, peers, current, notify);
    Talk(a, c, Rolling(wire, at + |a.exchanges| + |c.exchanges|, peers, current + 1, notify, fed))
  }

  /** What of it takes place: each part only if the one before did not fail. */
  function Spoken(talk: Talk): Trace { Then(Then(talk.announcement, talk.closing), talk.rolling) }

  function Verdict(talk: Talk, current: int, fed: bool): Outcome {
    if AnyFailed(talk.announcement.deliveries) then AnnouncementFailed(talk.announcement.deliveries)
    else if AnyFailed(talk.closing.deliveries) then CloseFailed(talk.closing.deliveries)
    else if !fed then SourceFailed(current + 1, true)
    else
      var all := talk.announcement.deliveries + talk.closing.deliveries + talk.rolling.deliveries;
      if AnyFailed(talk.rolling.deliveries) then RolloverFailed(all) else Advanced(current + 1, all)
  }

  lemma SpokenParts(log: seq<Exchange>, talk: Talk)
    requires !AnyFailed(talk.announcement.deliveries)
    ensures (log + talk.announcement.exchanges) + Then(talk.closing, talk.rolling).exchanges == log + Spoken(talk).exchanges
  {
    hide AnyFailed;
    AnyFailedConcat(talk.announcement.deliveries, talk.closing.deliveries);
  }

  lemma AnyFailedConcat(a: seq<Delivery>, b: seq<Delivery>)
    ensures AnyFailed(a + b) <==> AnyFailed(a) || AnyFailed(b)
  {
    if AnyFailed(a) {
      var i :| 0 <= i < |a| && !a[i].ok;
      assert !(a + b)[i].ok;
    }
    if AnyFailed(b) {
      var i :| 0 <= i < |b| && !b[i].ok;
      assert !(a + b)[|a| + i].ok;
    }
  }

  predicate Moves(r: Outcome) { r.Advanced? || r.RolloverFailed? || (r.SourceFailed? && r.moved) }

  ghost predicate History(log: seq<Exchange>, start: int, current: int, silent: set<int>) {
    LeftClosed(log, start, current, silent) && ToldAfterClose(log, start, current, silent)
  }

  lemma NothingSaid(log: seq<Exchange>)
    ensures !AnyFailed(SILENCE.deliveries) && log + SILENCE.exchanges == log
  {
  }

  lemma QuietParts(wire: Wire, at: nat, peers: seq<Peer>, slot: int)
    requires peers != []
    ensures Announcement(wire, at, peers, slot, false) == SILENCE
    ensures Closing(wire, at, peers, slot, false) == SILENCE
    ensures Rolling(wire, at, peers, slot, false, true) == Rolling(wire, at, peers, slot, false, false) == SILENCE
    ensures Rolling(wire, at, peers, slot, true, false) == SILENCE
  {
  }

  lemma AnnouncementKeeps(wire: Wire, log: seq<Exchange>, peers: seq<Peer>, start: int, slot: int, silent: set<int>,
                          untold: set<int>, notify: bool)
    requires History(log, start, slot, silent) && (notify ==> slot == start)
    requires Audience(log, peers, start, slot, silent, untold, false)
    ensures var more := Announcement(wire, |log|, peers, slot, notify).exchanges;
            History(log + more, start, slot, silent) && Audience(log + more, peers, start, slot, silent, untold, false)
  {
    hide FanOut, LeftClosed, ToldAfterClose, About, Audience;
    NothingSaid(log);
    if notify {
      FanOutOutcome(wire, |log|, peers, Announce, slot);
      var more := FanOut(wire, |log|, peers, Announce, slot).exchanges;
      LeftClosedGrows(log, more, start, slot, silent);
      ToldGrows(log, more, start, slot, silent, Announce, slot);
      FanOutAddressed(wire, |log|, peers, peers, Announce, slot);
      AudienceGrows(log, more, peers, start, slot, silent, untold, false, Announce, slot);
    }
  }

  lemma ClosingKeeps(wire: Wire, log: seq<Exchange>, peers: seq<Peer>, start: int, slot: int, silent: set<int>,
                     untold: set<int>, notify: bool)
    requires peers != [] && History(log, start, slot, silent)
    requires Audience(log, peers, start, slot, silent, untold, false)
    ensures var c := Closing(wire, |log|, peers, slot, notify);
            && History(log + c.exchanges, start, slot, silent)
            && Audience(log + c.exchanges, peers, start, slot, silent, untold, false)
            && (notify && !AnyFailed(c.deliveries) ==> ClosedIn(log + c.exchanges, slot))
  {
    hide FanOut, LeftClosed, ToldAfterClose, About, ClosedIn, AnyFailed, Audience;
    NothingSaid(log);
    if notify {
      var t := FanOut(wire, |log|, [ClosePeer(peers)], Close, slot);
      FanOutOutcome(wire, |log|, [ClosePeer(peers)], Close, slot);
      LeftClosedGrows(log, t.exchanges, start, slot, silent);
      ToldGrows(log, t.exchanges, start, slot, silent, Close, slot);
      FanOutAddressed(wire, |log|, peers, [ClosePeer(peers)], Close, slot);
      AudienceGrows(log, t.exchanges, peers, start, slot, silent, untold, false, Close, slot);
      if !AnyFailed(t.deliveries) {
        CloseConfirms(wire, |log|, ClosePeer(peers), slot);
        ClosedAfter(log, t.exchanges, slot);
      }
    }
  }

  lemma ClosedAfter(log: seq<Exchange>, more: seq<Exchange>, slot: int)
    requires ClosedIn(more, slot)
    ensures ClosedIn(log + more, slot)
  {
    var i :| 0 <= i < |more| && ConfirmsClose(more[i], slot);
    assert ConfirmsClose((log + more)[|log| + i], slot);
  }

  /** The clock may move past a slot that is closed, or that it leaves silently. */
  lemma MoveKeeps(log: seq<Exchange>, start: int, slot: int, silent: set<int>, more: set<int>)
    requires History(log, start, slot, silent) && (slot in more || ClosedIn(log, slot))
    ensures History(log, start, slot + 1, silent + more)
  {
    hide ClosedIn;
    var next, wider := slot + 1, silent + more;
    forall j | 0 <= j < |log| ensures ToldInTurn(log, j, start, next, wider) {
      assert ToldInTurn(log, j, start, slot, silent);
    }
  }

  lemma RollingKeeps(wire: Wire, log: seq<Exchange>, peers: seq<Peer>, start: int, slot: int, silent: set<int>,
                     notify: bool, fed: bool)
    requires start < slot && History(log, start, slot, silent)
    requires notify ==> ClosedIn(log, slot - 1)
    ensures History(log + Rolling(wire, |log|, peers, slot, notify, fed).exchanges, start, slot, silent)
  {
    hide FanOut, LeftClosed, ToldAfterClose, About, ClosedIn;
    NothingSaid(log);
    if notify && fed {
      FanOutOutcome(wire, |log|, peers, Rollover, slot);
      var more := FanOut(wire, |log|, peers, Rollover, slot).exchanges;
      LeftClosedGrows(log, more, start, slot, silent);
      ToldGrows(log, more, start, slot, silent, Rollover, slot);
    }
  }

  class Service {
    const settings: Settings
    const peers: seq<Peer>
    const clock: ProviderClock
    const net: Network
    var desynced: Option<seq<Delivery>>
    ghost const start: int
    ghost var silent: set<int>      // slots left by an advance that notified nobody
    ghost var untold: set<int>      // slots entered by an advance the source failed

    ghost predicate Valid()
      reads this, clock, net
    {
      && peers == PeersFromSettings(settings)
      && clock.OnGrid() && clock.CurrentSlot() == start + clock.localStep
      && (desynced.Some? ==> clock.manual)
      && History(net.log, start, clock.CurrentSlot(), silent)
      && Audience(net.log, peers, start, clock.CurrentSlot(), silent, untold, desynced.Some?)
    }

    function Line(): Wire { Wire(net.reply, settings.maxAttempts) }

    constructor (settings: Settings, manual: bool, slotLength: int, epoch: int, startAt: int, reply: nat -> Response)
      requires slotLength > 0
      ensures Valid() && fresh(clock) && fresh(net)
      ensures this.settings == settings && net.log == [] && net.reply == reply && desynced == None && silent == {} && untold == {}
      ensures clock.manual == manual && start == clock.CurrentSlot() == (startAt - epoch) / slotLength
    {
      this.settings := settings;
      peers := PeersFromSettings(settings);
      var clock := new ProviderClock(manual, slotLength, epoch, startAt);
      this.clock := clock;
      net := new Network(reply);
      desynced := None;
      start := clock.CurrentSlot();
      silent, untold := {}, {};
    }

    /** Consumers first, then producers: together the declared order. */
    method AnnounceSlot(notify: bool, fed: bool) returns (raised: bool, deliveries: seq<Delivery>)
      requires clock.OnGrid() && peers == PeersFromSettings(settings)
      modifies net
      ensures raised == !fed && (raised ==> unchanged(net))
      ensures var t := Announcement(Line(), old(|net.log|), peers, clock.CurrentSlot(), notify);
              fed ==> net.log == old(net.log) + t.exchanges && deliveries == t.deliveries
    {
      hide FanOut, PeersFromSettings, WithRole, SortByOrder, Increasing;
      deliveries := [];
      if !fed {
        return true, [];
      }
      raised := false;
      if notify && peers != [] {
        var consumers, producers := WithRole(peers, false), WithRole(peers, true);
        ConsumersThenProducers(settings);
        SortedStays(consumers);
        SortedStays(producers);
        FanOutConcat(Line(), |net.log|, consumers, producers, Announce, clock.CurrentSlot());
        deliveries := NotifyPeers(net, consumers, Announce, clock.CurrentSlot(), settings.maxAttempts);
        if !AnyFailed(deliveries) {
          var more := NotifyPeers(net, producers, Announce, clock.CurrentSlot(), settings.maxAttempts);
          deliveries := deliveries + more;
        }
      } else if notify {
        FanOutUnfold(Line(), |net.log|, peers, Announce, clock.CurrentSlot());
      }
    }

    method CloseCurrentSlot(notify: bool) returns (deliveries: seq<Delivery>)
      requires clock.OnGrid() && peers != []
      modifies net
      ensures var t := Closing(Line(), old(|net.log|), peers, clock.CurrentSlot(), notify);
              net.log == old(net.log) + t.exchanges && deliveries == t.deliveries
    {
      hide FanOut;
      if !notify {
        return [];
      }
      SortedStays([ClosePeer(peers)]);
      deliveries := NotifyPeers(net, [ClosePeer(peers)], Close, clock.CurrentSlot(), settings.maxAttempts);
    }

    /** The clock moves first; then the source is asked, and everyone is told of
        the slot the clock entered. */
    method RollOver(notify: bool, fed: bool) returns (raised: bool, deliveries: seq<Delivery>)
      requires clock.manual && clock.OnGrid() && peers == PeersFromSettings(settings)
      modifies net, clock
      ensures clock.OnGrid() && clock.CurrentSlot() == old(clock.CurrentSlot()) + 1
      ensures clock.localStep == old(clock.localStep) + 1
      ensures raised == !fed
      ensures var t := Rolling(Line(), old(|net.log|), peers, clock.CurrentSlot(), notify, fed);
              net.log == old(net.log) + t.exchanges && deliveries == t.deliveries
    {
      hide FanOut, PeersFromSettings, SortByOrder, Increasing;
      var tick := clock.Advance();
      deliveries := [];
      if !fed {
        return true, [];
      }
      raised := false;
      if notify && peers != [] {
        PeersIncrease(settings);
        SortedStays(peers);
        deliveries := NotifyPeers(net, peers, Rollover, clock.CurrentSlot(), settings.maxAttempts);
      } else if notify {
        FanOutUnfold(Line(), |net.log|, peers, Rollover, clock.CurrentSlot());
      }
    }

    /** The rest of an advance, once any announcement is through. */
    method CloseAndRoll(notify: bool, announced: seq<Delivery>, fed: bool) returns (r: Outcome)
      requires Valid() && clock.manual && desynced.None? && peers != []
      modifies this, clock, net
      ensures Valid()
      ensures var current := old(clock.CurrentSlot());
              var c := Closing(Line(), old(|net.log|), peers, current, notify);
              var t := Rolling(Line(), old(|net.log|) + |c.exchanges|, peers, current + 1, notify, fed);
              var all := announced + c.deliveries + t.deliveries;
              && r == (if AnyFailed(c.deliveries) then CloseFailed(c.deliveries)
                       else if !fed then SourceFailed(current + 1, true)
                       else if AnyFailed(t.deliveries) then RolloverFailed(all) else Advanced(current + 1, all))
              && net.log == old(net.log) + Then(c, t).exchanges
              && desynced == (if r.RolloverFailed? then Some(r.deliveries) else None)
              && clock.CurrentSlot() == current + (if Moves(r) then 1 else 0)
              && silent == old(silent) + (if Moves(r) && !notify then {current} else {})
              && untold == old(untold) + (if r.SourceFailed? then {current + 1} else {})
    {
      hide FanOut, AnyFailed, PeersFromSettings, History, Announcement, Closing, Rolling, ClosedIn, Audience;
      var current := clock.CurrentSlot();
      QuietParts(Line(), |net.log|, peers, current);
      NothingSaid(net.log);
      ClosingKeeps(Line(), net.log, peers, start, current, silent, untold, notify);
      var closed := CloseCurrentSlot(notify);
      if notify && AnyFailed(closed) {
        return CloseFailed(closed);
      }
      ghost var left := if notify then {} else {current};
      MoveKeeps(net.log, start, current, silent, left);
      RollingHeard(Line(), net.log, peers, start, current + 1, silent, untold, notify, fed);
      silent := silent + left;
      untold := untold + if fed then {} else {current + 1};
      QuietParts(Line(), |net.log|, peers, current + 1);
      RollingKeeps(Line(), net.log, peers, start, current + 1, silent, notify, fed);
      var raised, rolled := RollOver(notify, fed);
      if raised {
        return SourceFailed(clock.CurrentSlot(), true);
      }
      if notify && AnyFailed(rolled) {
        desynced := Some(announced + closed + rolled);
        return RolloverFailed(announced + closed + rolled);
      }
      r := Advanced(clock.CurrentSlot(), announced + closed + rolled);
    }

    /** The clock got to `slot` by an advance that reported success after notifying. */
    ghost predicate Reached(slot: int)
      reads this, clock
    {
      && clock.OnGrid() && start < slot <= clock.CurrentSlot() && slot - 1 !in silent && slot !in untold
      && (desynced.Some? ==> slot < clock.CurrentSlot())
    }

    lemma ReachedIsTold(slot: int)
      requires Valid() && Reached(slot)
      ensures EverybodyTold(net.log, settings, slot)
    {
      hide Heard, History, PeersFromSettings, EverybodyTold;
      AllHeardIsEverybody(net.log, settings, slot);
    }

    lemma UntoldIsUntold(slot: int)
      requires Valid() && slot in untold
      ensures NobodyTold(net.log, slot)
    {
      hide Heard, NobodyTold, History, PeersFromSettings;
    }

    /** With nobody left out, closing and telling took turns. */
    lemma NobodyLeftOut()
      requires Valid() && silent == {}
      ensures forall g :: start <= g < clock.CurrentSlot() ==> ClosedAt(net.log, settings.carbonshiftUrl, g)
      ensures forall j :: 0 <= j < |net.log| && net.log[j].kind.Rollover? ==>
                && start < net.log[j].slot <= clock.CurrentSlot()
                && ClosedAt(net.log[..j], settings.carbonshiftUrl, net.log[j].slot - 1)
    {
      hide ClosedIn, ClosedAt, PeersFromSettings, Addressed, Heard;
      forall g | start <= g < clock.CurrentSlot() ensures ClosedAt(net.log, settings.carbonshiftUrl, g) {
        ClosedAtScheduler(net.log, settings, g);
      }
      forall j | 0 <= j < |net.log| && net.log[j].kind.Rollover?
        ensures start < net.log[j].slot <= clock.CurrentSlot()
        ensures ClosedAt(net.log[..j], settings.carbonshiftUrl, net.log[j].slot - 1)
      {
        assert ToldInTurn(net.log, j, start, clock.CurrentSlot(), {});
        AddressedPrefix(net.log, peers, j);
        ClosedAtScheduler(net.log[..j], settings, net.log[j].slot - 1);
      }
    }

    /** What a request comes to, for a caller who does not follow the exchanges. */
    method Handle(request: Request, feed: Feed) returns (r: Outcome)
      requires Valid()
      modifies this, clock, net
      ensures Valid()
      ensures clock.CurrentSlot() == old(clock.CurrentSlot()) + if Moves(r) then 1 else 0
      ensures request.notify ==> silent == old(silent)
      ensures r.Desynced? <==> old(desynced).Some?
      ensures desynced.Some? <==> old(desynced).Some? || r.RolloverFailed?
      ensures untold == old(untold) + if r.SourceFailed? && r.moved then {r.slot} else {}
      ensures r.Advanced? && request.notify ==> Reached(r.slot)
      ensures forall slot :: old(Reached(slot)) ==> Reached(slot)
    {
      hide TalkOf, Spoken, History, PeersFromSettings, AnyFailed, Heard;
      r := AdvanceSlot(request, feed);
    }

    /** One advance request. Refusals come in this order and touch nothing; past
        them the announcement (in the first slot only), the close call and the
        rollover run in turn, and the clock does not leave the first slot before
        every peer has acknowledged being told of it. */
    method AdvanceSlot(request: Request, feed: Feed) returns (r: Outcome)
      requires Valid()
      modifies this, clock, net
      ensures Valid()
      ensures var current := old(clock.CurrentSlot());
              if !clock.manual then r == NotManual && unchanged(this, clock, net)
              else if old(desynced) != None then r == Desynced(old(desynced).value) && unchanged(this, clock, net)
              else if request.expectSlot != None && request.expectSlot != Some(current) then
                r == SlotMismatch(request.expectSlot.value, current) && unchanged(this, clock, net)
              else if old(clock.localStep) == 0 && !feed.announces then
                r == SourceFailed(current, false) && unchanged(this, clock, net)
              else
                var talk := TalkOf(Line(), old(|net.log|), peers, current,
                                   request.notify && old(clock.localStep) == 0, request.notify, feed.rolls);
                && r == Verdict(talk, current, feed.rolls)
                && net.log == old(net.log) + Spoken(talk).exchanges
                && desynced == (if r.RolloverFailed? then Some(r.deliveries) else None)
                && clock.CurrentSlot() == current + (if Moves(r) then 1 else 0)
                && silent == old(silent) + (if Moves(r) && !request.notify then {current} else {})
                && untold == old(untold) + (if r.SourceFailed? then {current + 1} else {})
      ensures clock.CurrentSlot() != old(clock.CurrentSlot()) && request.notify && old(clock.localStep) == 0 ==>
                Greeted(net.log, peers, old(clock.CurrentSlot()))
      ensures r.AnnouncementFailed? ==> EndsWithout(net.log, Announce, old(clock.CurrentSlot()))
      ensures r.CloseFailed? ==> EndsWithout(net.log, Close, old(clock.CurrentSlot()))
      ensures r.RolloverFailed? ==> EndsWithout(net.log, Rollover, old(clock.CurrentSlot()) + 1)
    {
      hide FanOut, AnyFailed, PeersFromSettings, History, Closing, Rolling, ClosedIn, Audience, Greeted, Then, EndsWithout;
      assert peers != [] by { PeersIncrease(settings); }
      if !clock.manual {
        return NotManual;
      }
      if desynced.Some? {
        return Desynced(desynced.value);
      }
      var current := clock.CurrentSlot();
      if request.expectSlot.Some? && request.expectSlot.value != current {
        return SlotMismatch(request.expectSlot.value, current);
      }
      ghost var log0 := net.log;
      ghost var hello := request.notify && clock.localStep == 0;
      ghost var talk := TalkOf(Line(), |log0|, peers, current, hello, request.notify, feed.rolls);
      VerdictShows(Line(), log0, peers, current, hello, request.notify, feed.rolls);
      r := Proceed(request, feed);
      if Moves(r) && hello {
        AnnouncedFirst(Line(), log0, peers, current, talk);
      }
    }

    method Proceed(request: Request, feed: Feed) returns (r: Outcome)
      requires Valid() && clock.manual && desynced.None? && peers != []
      modifies this, clock, net
      ensures Valid()
      ensures var current := old(clock.CurrentSlot());
              if old(clock.localStep) == 0 && !feed.announces then
                r == SourceFailed(current, false) && unchanged(this, clock, net)
              else
                var talk := TalkOf(Line(), old(|net.log|), peers, current,
                                   request.notify && old(clock.localStep) == 0, request.notify, feed.rolls);
                && r == Verdict(talk, current, feed.rolls)
                && net.log == old(net.log) + Spoken(talk).exchanges
                && desynced == (if r.RolloverFailed? then Some(r.deliveries) else None)
                && clock.CurrentSlot() == current + (if Moves(r) then 1 else 0)
                && silent == old(silent) + (if Moves(r) && !request.notify then {current} else {})
                && untold == old(untold) + (if r.SourceFailed? then {current + 1} else {})
    {
      hide FanOut, AnyFailed, PeersFromSettings, History, Announcement, Closing, Rolling, ClosedIn, Audience;
      var current := clock.CurrentSlot();
      ghost var log0 := net.log;
      ghost var hello := request.notify && clock.localStep == 0;
      ghost var talk := TalkOf(Line(), |log0|, peers, current, hello, request.notify, feed.rolls);
      AnnouncementKeeps(Line(), log0, peers, start, current, silent, untold, hello);
      QuietParts(Line(), |log0|, peers, current);
      NothingSaid(log0);
      var announced: seq<Delivery> := [];
      if clock.localStep == 0 {
        var raised;
        raised, announced := AnnounceSlot(request.notify, feed.announces);
        if raised {
          return SourceFailed(current, false);
        }
      }
      if request.notify && AnyFailed(announced) {
        return AnnouncementFailed(announced);
      }
      r := CloseAndRoll(request.notify, announced, feed.rolls);
      SpokenParts(log0, talk);
    }
  }

  /** Every peer acknowledged the announcement of `slot`. */
  ghost predicate Greeted(log: seq<Exchange>, peers: seq<Peer>, slot: int) {
    forall n :: 0 <= n < |peers| ==> GreetedBy(log, peers[n], slot)
  }

  ghost predicate GreetedBy(log: seq<Exchange>, peer: Peer, slot: int) {
    exists i :: 0 <= i < |log| && log[i].kind.Announce? && log[i].slot == slot && log[i].peer == peer && SaysYes(log[i])
  }

  /** The last message was of this kind, about this slot, and got no yes. */
  ghost predicate EndsWithout(log: seq<Exchange>, kind: Kind, slot: int) {
    |log| > 0 && log[|log| - 1].kind == kind && log[|log| - 1].slot == slot && !SaysYes(log[|log| - 1])
  }

  lemma FailureShows(wire: Wire, at: nat, log: seq<Exchange>, to: seq<Peer>, kind: Kind, slot: int)
    requires AnyFailed(FanOut(wire, at, to, kind, slot).deliveries)
    ensures EndsWithout(log + FanOut(wire, at, to, kind, slot).exchanges, kind, slot)
  {
    hide FanOut, AnyFailed, Accepted, SaysYes;
    FanOutOutcome(wire, at, to, kind, slot);
    var es := FanOut(wire, at, to, kind, slot).exchanges;
    YesIsAccepted(es[|es| - 1]);
    assert (log + es)[|log + es| - 1] == es[|es| - 1];
  }

  /** A failed advance names the part that failed: the log ends in it. */
  lemma VerdictShows(wire: Wire, log: seq<Exchange>, peers: seq<Peer>, current: int, hello: bool, notify: bool, fed: bool)
    requires peers != []
    ensures var talk := TalkOf(wire, |log|, peers, current, hello, notify, fed);
            var r, all := Verdict(talk, current, fed), log + Spoken(talk).exchanges;
            && (r.AnnouncementFailed? ==> EndsWithout(all, Announce, current))
            && (r.CloseFailed? ==> EndsWithout(all, Close, current))
            && (r.RolloverFailed? ==> EndsWithout(all, Rollover, current + 1))
  {
    hide FanOut, AnyFailed, EndsWithout;
    var talk := TalkOf(wire, |log|, peers, current, hello, notify, fed);
    var a, c, t := talk.announcement, talk.closing, talk.rolling;
    NothingSaid(log);
    AnyFailedConcat(a.deliveries, c.deliveries);
    if AnyFailed(a.deliveries) {
      FailureShows(wire, |log|, log, peers, Announce, current);
    } else if AnyFailed(c.deliveries) {
      FailureShows(wire, |log| + |a.exchanges|, log + a.exchanges, [ClosePeer(peers)], Close, current);
      assert log + (a.exchanges + c.exchanges) == (log + a.exchanges) + c.exchanges;
    } else if AnyFailed(t.deliveries) {
      var before := a.exchanges + c.exchanges;
      FailureShows(wire, |log| + |a.exchanges| + |c.exchanges|, log + before, peers, Rollover, current + 1);
      assert log + (before + t.exchanges) == (log + before) + t.exchanges;
    }
  }

  lemma AnnouncedFirst(wire: Wire, log: seq<Exchange>, peers: seq<Peer>, slot: int, talk: Talk)
    requires talk.announcement == FanOut(wire, |log|, peers, Announce, slot) && !AnyFailed(talk.announcement.deliveries)
    ensures Greeted(log + Spoken(talk).exchanges, peers, slot)
  {
    hide FanOut, AnyFailed, Accepted, SaysYes;
    var es := talk.announcement.exchanges;
    AnyFailedConcat(talk.announcement.deliveries, talk.closing.deliveries);
    var all := log + Spoken(talk).exchanges;
    assert es <= Then(talk.announcement, talk.closing).exchanges <= Spoken(talk).exchanges;
    FanOutOutcome(wire, |log|, peers, Announce, slot);
    forall n | 0 <= n < |peers| ensures GreetedBy(all, peers[n], slot) {
      FanOutServes(wire, |log|, peers, Announce, slot, n);
      var i :| 0 <= i < |es| && es[i].peer == peers[n] && Accepted(es[i]);
      YesIsAccepted(es[i]);
      assert all[|log| + i] == es[i];
    }
  }

  function MoveCount(outcomes: seq<Outcome>): nat {
    if outcomes == [] then 0
    else MoveCount(outcomes[..|outcomes| - 1]) + if Moves(outcomes[|outcomes| - 1]) then 1 else 0
  }

  /** A 2xx answer from `url` to being told of `slot`, confirming it if asked to. */
  ghost predicate ToldAt(log: seq<Exchange>, url: string, slot: int, confirmed: bool) {
    exists i :: 0 <= i < |log| && log[i].kind.Rollover? && log[i].slot == slot && log[i].peer.url == url
                && log[i].response.Reply? && log[i].response.status / 100 == 2
                && (confirmed ==> log[i].response.confirmed == Some(slot))
  }

  /** A 2xx answer from `url` to the call to close `slot` that confirms the slot. */
  ghost predicate ClosedAt(log: seq<Exchange>, url: string, slot: int) {
    exists i :: 0 <= i < |log| && log[i].kind.Close? && log[i].slot == slot && log[i].peer.url == url
                && log[i].response.Reply? && log[i].response.status / 100 == 2
                && log[i].response.confirmed == Some(slot)
  }

  /** Scheduler, executor if there is one, and every client were told of the slot and agreed. */
  ghost predicate EverybodyTold(log: seq<Exchange>, settings: Settings, slot: int) {
    && ToldAt(log, settings.carbonshiftUrl, slot, false)
    && ((exists j :: 0 <= j < |settings.executorUrl| && settings.executorUrl[j] !in " \t\n\r") ==>
          ToldAt(log, settings.executorUrl, slot, false))
    && forall i :: 0 <= i < |settings.clientUrls| ==> ToldAt(log, settings.clientUrls[i], slot, true)
  }

  lemma HeardIsTold(log: seq<Exchange>, peers: seq<Peer>, slot: int, n: nat)
    requires Heard(log, peers, slot) && n < |peers|
    ensures ToldAt(log, peers[n].url, slot, peers[n].confirmsSlot)
  {
    assert HeardBy(log, peers[n], slot);
  }

  lemma AllHeardIsEverybody(log: seq<Exchange>, settings: Settings, slot: int)
    requires Heard(log, PeersFromSettings(settings), slot)
    ensures EverybodyTold(log, settings, slot)
  {
    hide PeersFromSettings, Heard, ToldAt;
    PeersAre(settings);
    var peers := PeersFromSettings(settings);
    forall n | 0 <= n < |peers| ensures ToldAt(log, peers[n].url, slot, peers[n].confirmsSlot) {
      HeardIsTold(log, peers, slot, n);
    }
    var first := if exists j :: 0 <= j < |settings.executorUrl| && settings.executorUrl[j] !in " \t\n\r" then 2 else 1;
    forall i | 0 <= i < |settings.clientUrls| ensures ToldAt(log, settings.clientUrls[i], slot, true) {
      assert ToldAt(log, peers[first + i].url, slot, peers[first + i].confirmsSlot);
    }
  }

  lemma ClosedAtScheduler(log: seq<Exchange>, settings: Settings, slot: int)
    requires ClosedIn(log, slot) && Addressed(log, PeersFromSettings(settings))
    ensures ClosedAt(log, settings.carbonshiftUrl, slot)
  {
    hide PeersFromSettings;
    PeersAre(settings);
  }

  lemma AddressedPrefix(log: seq<Exchange>, peers: seq<Peer>, j: nat)
    requires Addressed(log, peers) && j <= |log|
    ensures Addressed(log[..j], peers)
  {
  }

  /** A whole life of the service: any configuration, any network, any sequence
      of advance requests, any failures of the source. The clock has moved once
      per advance that got past the close call. If all of them notify, the
      scheduler has confirmed closing every slot left behind, no peer heard of a
      slot before the scheduler confirmed closing the one in front, and every peer
      has acknowledged every slot advanced to. After a fan-out fails past the move,
      every later request is refused; after the source fails there, nobody is ever
      told of the slot the clock is in, and no later request is refused for it. */
  method Lifetime(settings: Settings, manual: bool, slotLength: int, epoch: int, startAt: int,
                  reply: nat -> Response, requests: seq<Request>, feeds: seq<Feed>)
      returns (log: seq<Exchange>, start: int, finish: int, outcomes: seq<Outcome>)
    requires slotLength > 0 && |feeds| == |requests|
    ensures |outcomes| == |requests| && start == (startAt - epoch) / slotLength
    ensures finish == start + MoveCount(outcomes)
    ensures (forall i :: 0 <= i < |requests| ==> requests[i].notify) ==>
              forall g :: start <= g < finish ==> ClosedAt(log, settings.carbonshiftUrl, g)
    ensures (forall i :: 0 <= i < |requests| ==> requests[i].notify) ==>
              forall j :: 0 <= j < |log| && log[j].kind.Rollover? ==>
                start < log[j].slot <= finish && ClosedAt(log[..j], settings.carbonshiftUrl, log[j].slot - 1)
    ensures forall i :: 0 <= i < |requests| && requests[i].notify && outcomes[i].Advanced? ==>
              EverybodyTold(log, settings, outcomes[i].slot)
    ensures forall i, j :: 0 <= i < j < |outcomes| && outcomes[i].RolloverFailed? ==> outcomes[j].Desynced?
    ensures forall i :: 0 <= i < |outcomes| && outcomes[i].SourceFailed? && outcomes[i].moved ==>
              NobodyTold(log, outcomes[i].slot)
    ensures forall j :: 0 <= j < |outcomes| && outcomes[j].Desynced? ==>
              exists i :: 0 <= i < j && outcomes[i].RolloverFailed?
  {
    hide PeersFromSettings, ClosedAt, EverybodyTold, Moves, NobodyTold, History, Audience, Service.Reached, Addressed;
    var service := new Service(settings, manual, slotLength, epoch, startAt, reply);
    start := service.clock.CurrentSlot();
    outcomes := [];
    ghost var latch := 0;  // the outcome that set the latch
    for i := 0 to |requests|
      invariant service.Valid() && fresh(service) && fresh(service.clock) && fresh(service.net)
      invariant service.start == start && |outcomes| == i
      invariant service.clock.CurrentSlot() == start + MoveCount(outcomes)
      invariant (forall k :: 0 <= k < i ==> requests[k].notify) ==> service.silent == {}
      invariant service.desynced.Some? ==> latch < i && outcomes[latch].RolloverFailed?
      invariant forall k :: 0 <= k < i && outcomes[k].RolloverFailed? ==> service.desynced.Some?
      invariant forall k, j :: 0 <= k < j < i && outcomes[k].RolloverFailed? ==> outcomes[j].Desynced?
      invariant forall j :: 0 <= j < i && outcomes[j].Desynced? ==> service.desynced.Some? && latch < j
      invariant forall k :: 0 <= k < i && requests[k].notify && outcomes[k].Advanced? ==> service.Reached(outcomes[k].slot)
      invariant forall k :: 0 <= k < i && outcomes[k].SourceFailed? && outcomes[k].moved ==> outcomes[k].slot in service.untold
    {
      ghost var before := outcomes;
      var r := service.Handle(requests[i], feeds[i]);
      outcomes := outcomes + [r];
      assert outcomes[..|outcomes| - 1] == before;
      if r.RolloverFailed? {
        latch := i;
      }
    }
    finish := service.clock.CurrentSlot();
    log := service.net.log;
    forall i | 0 <= i < |requests| && requests[i].notify && outcomes[i].Advanced?
      ensures EverybodyTold(log, settings, outcomes[i].slot)
    {
      service.ReachedIsTold(outcomes[i].slot);
    }
    forall i | 0 <= i < |outcomes| && outcomes[i].SourceFailed? && outcomes[i].moved
      ensures NobodyTold(log, outcomes[i].slot)
    {
      service.UntoldIsUntold(outcomes[i].slot);
    }
    if forall k :: 0 <= k < |requests| ==> requests[k].notify {
      service.NobodyLeftOut();
    }
  }

  // ── a slot nobody hears of ─────────────────────────────────────────────

  /** A network whose peers accept everything, each fan-out confirming the slot it is about. */
  function Obliging(peers: nat, start: int): nat -> Response {
    n => Reply(200, Some(if n <= peers then start else if n == peers + 1 then start + 1 else start + 2))
  }

  /** The conversations of two advances over that network. */
  lemma ObligingTalks(peers: seq<Peer>, start: int, maxAttempts: int)
    requires peers != []
    ensures var wire, k := Wire(Obliging(|peers|, start), maxAttempts), |peers|;
            var first, second := TalkOf(wire, 0, peers, start, true, true, false),
                                 TalkOf(wire, k + 1, peers, start + 1, false, true, true);
            && !AnyFailed(first.announcement.deliveries) && !AnyFailed(first.closing.deliveries)
            && |Spoken(first).exchanges| == k + 1
            && !AnyFailed(second.announcement.deliveries) && !AnyFailed(second.closing.deliveries)
            && !AnyFailed(second.rolling.deliveries)
  {
    hide FanOut, AnyFailed;
    var wire, k := Wire(Obliging(|peers|, start), maxAttempts), |peers|;
    NothingSaid([]);
    QuietParts(wire, k + 1, peers, start + 1);
    FanOutAccepted(wire, 0, peers, Announce, start);
    FanOutAccepted(wire, k, [ClosePeer(peers)], Close, start);
    FanOutAccepted(wire, k + 1, [ClosePeer(peers)], Close, start + 1);
    FanOutAccepted(wire, k + 2, peers, Rollover, start + 2);
    QuietParts(wire, 0, peers, start + 1);
    var first := TalkOf(wire, 0, peers, start, true, true, false);
    AnyFailedConcat(first.announcement.deliveries, first.closing.deliveries);
  }

  /** Whatever the configuration: if the source raises once the clock has moved,
      the next advance succeeds all the same, past a slot no peer was ever told of. */
  method SlotNobodyHears(settings: Settings, slotLength: int, epoch: int, startAt: int)
      returns (log: seq<Exchange>, start: int, first: Outcome, second: Outcome)
    requires slotLength > 0
    ensures start == (startAt - epoch) / slotLength
    ensures first == SourceFailed(start + 1, true) && second.Advanced? && second.slot == start + 2
    ensures NobodyTold(log, start + 1) && EverybodyTold(log, settings, start + 2)
  {
    hide PeersFromSettings, NobodyTold, Heard, EverybodyTold, Spoken, AnyFailed, TalkOf;
    PeersIncrease(settings);
    var peers := PeersFromSettings(settings);
    start := (startAt - epoch) / slotLength;
    var service := new Service(settings, true, slotLength, epoch, startAt, Obliging(|peers|, start));
    ObligingTalks(peers, start, settings.maxAttempts);
    first := service.AdvanceSlot(Request(true, None), Feed(true, false));
    second := service.AdvanceSlot(Request(true, None), Feed(true, true));
    service.UntoldIsUntold(start + 1);
    service.ReachedIsTold(start + 2);
    log := service.net.log;
  }
}
