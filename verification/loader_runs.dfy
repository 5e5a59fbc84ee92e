/** Every run of the loader registry, with clock readings in any order. */
module LoaderRuns {
  import opened Options
  import opened LoaderRegistry

  datatype Op =
    | OfferOp(mac: Text, version: nat, id: Text, now: Seconds)
    | PollOp(poll: LoaderRegistry.Poll, now: Seconds)
    | StatusOp(status: LoaderRegistry.Status, now: Seconds)
    | PruneOp(now: Seconds)
    | AnnounceOp(announcement: LoaderRegistry.Announcement, device: DeviceStatus, ip: Text, now: Seconds)
    | TouchOp(announcement: LoaderRegistry.Announcement, ip: Text, now: Seconds)

  function Step(s: Registry, op: Op): Registry {
    match op
    case OfferOp(mac, version, id, now) => Offer(s, mac, version, id, now).0
    case PollOp(poll, now) => AcceptPoll(s, poll, now).0
    case StatusOp(status, now) => AcceptStatus(s, status, now).0
    case PruneOp(now) => Prune(s, now)
    case AnnounceOp(a, d, ip, now) => AcceptAnnouncement(s, a, d, ip, now).0
    case TouchOp(a, ip, now) => Touch(s, a, ip, now)
  }

  function Run(ops: seq<Op>): Registry {
    if ops == [] then Registry(map[], map[]) else Step(Run(ops[..|ops| - 1]), ops[|ops| - 1])
  }

  /** The registration ids that were handed out. */
  function Offered(ops: seq<Op>): set<Text> {
    if ops == [] then {}
    else
      var op := ops[|ops| - 1];
      Offered(ops[..|ops| - 1]) + if op.OfferOp? then {op.id} else {}
  }

  predicate FreshId(op: Op, used: set<Text>) { op.OfferOp? ==> op.id !in used }

  predicate FreshIds(ops: seq<Op>) { forall k :: 0 <= k < |ops| ==> FreshId(ops[k], Offered(ops[..k])) }

  // ---------- Polling only ----------

  predicate PollOnly(op: Op) { op.OfferOp? || op.PollOp? || op.StatusOp? || op.PruneOp? }

  /** A device's current registration is one of its own, not superseded, and as old as the device. */
  predicate CurrentSound(s: Registry, mac: Text)
    requires mac in s.devices
  {
    var d := s.devices[mac];
    && d.current in s.registrations
    && s.registrations[d.current].mac == mac
    && s.registrations[d.current].supersededAt == None
    && s.registrations[d.current].lastSeenAt == Some(d.lastSeenAt)
  }

  /** Whoever polled and was not superseded is the current one. */
  predicate IsCurrent(s: Registry, id: Text)
    requires id in s.registrations
  {
    var r := s.registrations[id];
    r.lastSeenAt.Some? && r.supersededAt == None ==> r.mac in s.devices && s.devices[r.mac].current == id
  }

  predicate Consistent(s: Registry) {
    && (forall mac :: mac in s.devices ==> CurrentSound(s, mac))
    && (forall id :: id in s.registrations ==> IsCurrent(s, id))
  }

  lemma PruneConsistent(s: Registry, now: Seconds)
    requires Consistent(s)
    ensures Consistent(Prune(s, now))
    ensures forall mac :: mac in s.devices && mac in Prune(s, now).devices ==>
              s.devices[mac].current in Prune(s, now).registrations
  {
    hide HasLiveSuperseded;
    var p := Prune(s, now);
    forall mac | mac in p.devices ensures CurrentSound(p, mac) {
      assert CurrentSound(s, mac);
    }
    forall id | id in p.registrations ensures IsCurrent(p, id) {
      assert IsCurrent(s, id);
      if s.registrations[id].lastSeenAt.Some? && s.registrations[id].supersededAt == None {
        assert CurrentSound(s, s.registrations[id].mac);
      }
    }
  }

  lemma ConflictConsistent(s: Registry, mac: Text)
    requires Consistent(s)
    ensures Consistent(InConflict(s, mac))
  {
    var t := InConflict(s, mac);
    assert forall m :: m in t.devices ==> CurrentSound(s, m);
    assert forall id :: id in t.registrations ==> IsCurrent(s, id);
  }

  /** A poll by a registration that is not superseded. */
  lemma PollConsistent(p: Registry, r: LoaderRegistry.Poll, now: Seconds)
    requires Consistent(p) && r.id in p.registrations
    requires p.registrations[r.id].mac == r.mac && p.registrations[r.id].supersededAt == None
    ensures r.mac in p.devices && p.devices[r.mac].current != r.id ==>
              var seen := SeenNow(p, r.id, now); var previous := p.devices[r.mac].current;
              && Consistent(Current(Superseded(seen, previous, now), r, now).0)
              && Consistent(Superseded(seen, r.id, now))
    ensures !(r.mac in p.devices && p.devices[r.mac].current != r.id) ==> Consistent(Current(SeenNow(p, r.id, now), r, now).0)
  {
    hide HasLiveSuperseded;
    assert forall mac :: mac in p.devices ==> CurrentSound(p, mac);
    assert forall id :: id in p.registrations ==> IsCurrent(p, id);
  }

  lemma SupersededSeenConsistent(p: Registry, id: Text, now: Seconds)
    requires Consistent(p) && id in p.registrations && p.registrations[id].supersededAt.Some?
    ensures Consistent(SeenNow(p, id, now))
  {
    assert forall mac :: mac in p.devices ==> CurrentSound(p, mac);
    assert forall k :: k in p.registrations ==> IsCurrent(p, k);
  }

  lemma StatusConsistent(p: Registry, id: Text, mac: Text, now: Seconds)
    requires Consistent(p) && id in p.registrations && mac in p.devices && p.devices[mac].current == id
    ensures Consistent(SeenNow(p, id, now).(devices := p.devices[mac := p.devices[mac].(lastSeenAt := now)]))
  {
    assert forall m :: m in p.devices ==> CurrentSound(p, m);
    assert forall k :: k in p.registrations ==> IsCurrent(p, k);
  }

  lemma OfferConsistent(p: Registry, id: Text, r: Registration)
    requires Consistent(p) && id !in p.registrations && r.lastSeenAt == None
    ensures Consistent(p.(registrations := p.registrations[id := r]))
  {
    assert forall m :: m in p.devices ==> CurrentSound(p, m);
    assert forall k :: k in p.registrations ==> IsCurrent(p, k);
  }

  lemma ConsistentStep(s: Registry, op: Op)
    requires Consistent(s) && PollOnly(op) && (op.OfferOp? ==> op.id !in s.registrations)
    ensures Consistent(Step(s, op))
  {
    hide Consistent, Prune, KnownVersion, Newer, Current, InConflict, SeenNow, Superseded;
    match op
    case OfferOp(mac, version, id, now) =>
      PruneConsistent(s, now);
      PruneForgets(s, now);
      OfferConsistent(Prune(s, now), id, Registration(mac, version, now, None, None));
    case PruneOp(now) =>
      PruneConsistent(s, now);
    case PollOp(r, now) =>
      var p := Prune(s, now);
      PruneConsistent(s, now);
      if r.id in p.registrations && p.registrations[r.id].mac == r.mac {
        if p.registrations[r.id].supersededAt.Some? {
          SupersededSeenConsistent(p, r.id, now);
          ConflictConsistent(SeenNow(p, r.id, now), r.mac);
        } else {
          PollConsistent(p, r, now);
          if r.mac in p.devices && p.devices[r.mac].current != r.id {
            ConflictConsistent(Superseded(SeenNow(p, r.id, now), r.id, now), r.mac);
          }
        }
      }
    case StatusOp(r, now) =>
      var p := Prune(s, now);
      PruneConsistent(s, now);
      if r.id in p.registrations {
        if p.registrations[r.id].supersededAt.Some? {
          SupersededSeenConsistent(p, r.id, now);
          ConflictConsistent(SeenNow(p, r.id, now), r.mac);
        } else if r.mac in p.devices && p.devices[r.mac].current == r.id {
          StatusConsistent(p, r.id, r.mac, now);
        }
      }
  }

  lemma PruneForgets(s: Registry, now: Seconds)
    ensures forall id :: id in Prune(s, now).registrations ==>
              id in s.registrations && Prune(s, now).registrations[id] == s.registrations[id]
    ensures forall mac :: mac in Prune(s, now).devices ==>
              mac in s.devices && Prune(s, now).devices[mac].current == s.devices[mac].current
  {
    hide HasLiveSuperseded;
  }

  lemma {:induction false} KnownWereOffered(ops: seq<Op>, id: Text)
    requires id in Run(ops).registrations
    ensures id in Offered(ops)
  {
    if ops != [] {
      hide Step;
      var front, op := ops[..|ops| - 1], ops[|ops| - 1];
      RegistrationsFrom(Run(front), op, id);
      if id in Run(front).registrations {
        KnownWereOffered(front, id);
      }
    }
  }

  lemma RegistrationsFrom(s: Registry, op: Op, id: Text)
    requires id in Step(s, op).registrations
    ensures id in s.registrations || (op.OfferOp? && op.id == id)
  {
    hide Prune, HasLiveSuperseded, KnownVersion;
    if !op.TouchOp? {
      PruneForgets(s, op.now);
    }
  }

  /** Among a device's registrations that ever polled, exactly its current one is not superseded; and
      pruning never drops that one before the device. */
  lemma {:induction false} CurrentIsUnsuperseded(ops: seq<Op>)
    requires FreshIds(ops) && forall k :: 0 <= k < |ops| ==> PollOnly(ops[k])
    ensures Consistent(Run(ops))
    ensures forall id :: id in Run(ops).registrations && Run(ops).registrations[id].lastSeenAt.Some? ==>
              var r := Run(ops).registrations[id];
              (r.supersededAt == None <==> r.mac in Run(ops).devices && Run(ops).devices[r.mac].current == id)
  {
    if ops == [] {
    } else {
      hide Step, FreshId;
      var front, op := ops[..|ops| - 1], ops[|ops| - 1];
      assert forall k :: 0 <= k < |front| ==> front[..k] == ops[..k] && front[k] == ops[k];
      CurrentIsUnsuperseded(front);
      FreshOffer(front, op);
      ConsistentStep(Run(front), op);
    }
    CurrentMeans(Run(ops));
  }

  lemma CurrentMeans(s: Registry)
    requires Consistent(s)
    ensures forall id :: id in s.registrations && s.registrations[id].lastSeenAt.Some? ==>
              var r := s.registrations[id];
              (r.supersededAt == None <==> r.mac in s.devices && s.devices[r.mac].current == id)
  {
    assert forall id :: id in s.registrations ==> IsCurrent(s, id);
    assert forall mac :: mac in s.devices ==> CurrentSound(s, mac);
  }

  lemma FreshOffer(ops: seq<Op>, op: Op)
    requires FreshId(op, Offered(ops))
    ensures op.OfferOp? ==> op.id !in Run(ops).registrations
  {
    if op.OfferOp? && op.id in Run(ops).registrations {
      KnownWereOffered(ops, op.id);
    }
  }

  /** When the registration that speaks for a device was issued. */
  function CurrentIssue(s: Registry, mac: Text): Seconds
    requires mac in s.devices && s.devices[mac].current in s.registrations
  {
    s.registrations[s.devices[mac].current].issuedAt
  }

  /** While a device's record survives, the issue time of its current registration never goes back. */
  lemma IssueTimesAdvance(ops: seq<Op>, op: Op, mac: Text)
    requires FreshIds(ops + [op]) && forall k :: 0 <= k < |ops + [op]| ==> PollOnly((ops + [op])[k])
    requires mac in Run(ops).devices && mac in Prune(Run(ops), op.now).devices
    ensures var (s, t) := (Run(ops), Run(ops + [op]));
            && mac in t.devices && s.devices[mac].current in s.registrations && t.devices[mac].current in t.registrations
            && CurrentIssue(s, mac) <= CurrentIssue(t, mac)
  {
    hide Step, FreshId, Consistent, Run;
    var all := ops + [op];
    assert forall k :: 0 <= k < |ops| ==> ops[..k] == all[..k] && ops[k] == all[k];
    assert all[..|all| - 1] == ops && all[|ops|] == op && PollOnly(all[|ops|]);
    CurrentIsUnsuperseded(ops);
    CurrentIsUnsuperseded(all);
    assert all[..|ops|] == ops && FreshId(all[|ops|], Offered(all[..|ops|]));
    FreshOffer(ops, op);
    RunSnoc(ops, op);
    IssueStep(Run(ops), op, mac);
  }

  lemma RunSnoc(ops: seq<Op>, op: Op)
    ensures Run(ops + [op]) == Step(Run(ops), op)
  {
    hide Step;
    assert (ops + [op])[..|ops + [op]| - 1] == ops;
  }

  lemma IssueStep(s: Registry, op: Op, mac: Text)
    requires Consistent(s) && PollOnly(op) && mac in s.devices && mac in Prune(s, op.now).devices
    requires Consistent(Step(s, op)) && (op.OfferOp? ==> op.id !in s.registrations)
    ensures mac in Step(s, op).devices && s.devices[mac].current in s.registrations
    ensures Step(s, op).devices[mac].current in Step(s, op).registrations
    ensures CurrentIssue(s, mac) <= CurrentIssue(Step(s, op), mac)
  {
    hide Prune, HasLiveSuperseded, KnownVersion;
    PruneConsistent(s, op.now);
    PruneForgets(s, op.now);
    assert CurrentSound(s, mac) && CurrentSound(Prune(s, op.now), mac);
    assert forall m :: m in Prune(s, op.now).devices ==> CurrentSound(Prune(s, op.now), m);
  }

  // ---------- All runs ----------

  /** A registration that may not speak for a device any more: superseded, or forgotten. */
  predicate Retired(s: Registry, id: Text) {
    && (id in s.registrations ==> s.registrations[id].supersededAt.Some?)
    && (forall mac :: mac in s.devices ==> s.devices[mac].current != id)
  }

  /** Boot epochs are not registration ids. */
  predicate EpochApart(op: Op, ids: set<Text>) { op.AnnounceOp? ==> op.announcement.epoch !in ids }

  lemma RetiredPoll(s: Registry, r: LoaderRegistry.Poll, now: Seconds, id: Text)
    requires Retired(s, id)
    ensures Retired(AcceptPoll(s, r, now).0, id)
  {
    hide Prune, HasLiveSuperseded, KnownVersion;
    PruneForgets(s, now);
  }

  lemma RetiredStep(s: Registry, op: Op, id: Text)
    requires Retired(s, id) && (op.OfferOp? ==> op.id != id) && (op.AnnounceOp? ==> op.announcement.epoch != id)
    ensures Retired(Step(s, op), id)
  {
    hide Prune, HasLiveSuperseded, KnownVersion, DeviceVersion, AcceptPoll;
    if op.PollOp? {
      RetiredPoll(s, op.poll, op.now, id);
    } else if !op.TouchOp? {
      PruneForgets(s, op.now);
    }
  }

  /** Whoever is superseded is not current. */
  predicate NoneCurrentSuperseded(s: Registry) {
    forall mac :: mac in s.devices && s.devices[mac].current in s.registrations ==>
      s.registrations[s.devices[mac].current].supersededAt == None && s.registrations[s.devices[mac].current].mac == mac
  }

  lemma NoneCurrentPrune(s: Registry, now: Seconds)
    requires NoneCurrentSuperseded(s)
    ensures NoneCurrentSuperseded(Prune(s, now))
  {
    hide Prune;
    PruneForgets(s, now);
  }

  lemma NoneCurrentPoll(s: Registry, r: LoaderRegistry.Poll, now: Seconds)
    requires NoneCurrentSuperseded(s)
    ensures NoneCurrentSuperseded(AcceptPoll(s, r, now).0)
  {
    hide Prune, HasLiveSuperseded, KnownVersion;
    NoneCurrentPrune(s, now);
  }

  lemma NoneCurrentStep(s: Registry, op: Op)
    requires NoneCurrentSuperseded(s)
    requires op.OfferOp? ==> op.id !in s.registrations && forall mac :: mac in s.devices ==> s.devices[mac].current != op.id
    requires op.AnnounceOp? ==> op.announcement.epoch !in s.registrations
    ensures NoneCurrentSuperseded(Step(s, op))
  {
    hide Prune, HasLiveSuperseded, KnownVersion, DeviceVersion, AcceptPoll;
    if op.PollOp? {
      NoneCurrentPoll(s, op.poll, op.now);
    } else if !op.TouchOp? {
      PruneForgets(s, op.now);
      NoneCurrentPrune(s, op.now);
    }
  }

  predicate Apart(ops: seq<Op>, ids: set<Text>) { forall k :: 0 <= k < |ops| ==> EpochApart(ops[k], ids) }

  lemma {:induction false} CurrentsKnown(ops: seq<Op>, mac: Text)
    requires mac in Run(ops).devices
    ensures Run(ops).devices[mac].current in Offered(ops)
            || exists k :: 0 <= k < |ops| && ops[k].AnnounceOp? && ops[k].announcement.epoch == Run(ops).devices[mac].current
  {
    if ops != [] {
      hide Step;
      var front, op := ops[..|ops| - 1], ops[|ops| - 1];
      CurrentFrom(Run(front), op, mac);
      var current := Run(ops).devices[mac].current;
      if mac in Run(front).devices && Run(front).devices[mac].current == current {
        CurrentsKnown(front, mac);
        if current !in Offered(front) {
          var k :| 0 <= k < |front| && front[k].AnnounceOp? && front[k].announcement.epoch == current;
          assert ops[k] == front[k];
        }
      } else if op.AnnounceOp? && op.announcement.epoch == current {
        assert ops[|front|] == op;
      } else {
        KnownWereOffered(front, current);
      }
    }
  }

  lemma CurrentFrom(s: Registry, op: Op, mac: Text)
    requires mac in Step(s, op).devices
    ensures var current := Step(s, op).devices[mac].current;
            || (mac in s.devices && s.devices[mac].current == current)
            || (op.AnnounceOp? && op.announcement.epoch == current)
            || current in s.registrations
  {
    hide Prune, HasLiveSuperseded, KnownVersion, DeviceVersion;
    if !op.TouchOp? {
      PruneForgets(s, op.now);
    }
  }

  lemma {:induction false} OfferedGrows(ops: seq<Op>, k: nat)
    requires k <= |ops|
    ensures Offered(ops[..k]) <= Offered(ops)
  {
    if k == |ops| {
      assert ops[..k] == ops;
    } else {
      OfferedGrows(ops[..|ops| - 1], k);
      assert ops[..|ops| - 1][..k] == ops[..k];
    }
  }

  lemma Prefixes(ops: seq<Op>, ids: set<Text>)
    requires ops != [] && FreshIds(ops) && Apart(ops, ids) && Offered(ops) <= ids
    ensures var front := ops[..|ops| - 1];
            FreshIds(front) && Apart(front, ids) && Offered(front) <= ids && ops == front + [ops[|ops| - 1]]
            && FreshId(ops[|ops| - 1], Offered(front)) && EpochApart(ops[|ops| - 1], ids)
  {
    hide FreshId, EpochApart, Offered;
    var front := ops[..|ops| - 1];
    assert forall k :: 0 <= k < |front| ==> front[..k] == ops[..k] && front[k] == ops[k];
    OfferedGrows(ops, |front|);
    assert ops[..|front|] == front && ops[|front|] == ops[|ops| - 1];
  }

  lemma {:induction false} SupersededNotCurrent(ops: seq<Op>, ids: set<Text>)
    requires FreshIds(ops) && Apart(ops, ids) && Offered(ops) <= ids
    ensures NoneCurrentSuperseded(Run(ops))
  {
    if ops != [] {
      hide Step, FreshId, EpochApart, FreshIds, Apart, Offered;
      var front, op := ops[..|ops| - 1], ops[|ops| - 1];
      Prefixes(ops, ids);
      SupersededNotCurrent(front, ids);
      FreshOffer(front, op);
      OfferApart(front, op, ids);
      NoneCurrentStep(Run(front), op);
    }
  }

  lemma OfferApart(ops: seq<Op>, op: Op, ids: set<Text>)
    requires FreshId(op, Offered(ops)) && Apart(ops, ids) && EpochApart(op, ids) && Offered(ops + [op]) <= ids
    ensures op.OfferOp? ==> forall mac :: mac in Run(ops).devices ==> Run(ops).devices[mac].current != op.id
    ensures op.AnnounceOp? ==> op.announcement.epoch !in Run(ops).registrations
  {
    hide Step, Run;
    assert (ops + [op])[..|ops + [op]| - 1] == ops;
    if op.OfferOp? {
      forall mac | mac in Run(ops).devices ensures Run(ops).devices[mac].current != op.id {
        CurrentsKnown(ops, mac);
      }
    }
    if op.AnnounceOp? && op.announcement.epoch in Run(ops).registrations {
      KnownWereOffered(ops, op.announcement.epoch);
    }
  }

  /** Once superseded, a registration never speaks for any device again, however the run continues. */
  lemma {:induction false} SupersededForever(ops: seq<Op>, k: nat, id: Text, ids: set<Text>)
    requires FreshIds(ops) && Offered(ops) <= ids && Apart(ops, ids) && k <= |ops|
    requires id in Run(ops[..k]).registrations && Run(ops[..k]).registrations[id].supersededAt.Some?
    ensures Retired(Run(ops), id)
    decreases |ops|
  {
    hide Step, FreshId, EpochApart, Run, FreshIds, Apart, Offered;
    KnownWereOffered(ops[..k], id);
    OfferedGrows(ops, k);
    if k == |ops| {
      assert ops[..k] == ops;
      SupersededNotCurrent(ops, ids);
    } else {
      var front, op := ops[..|ops| - 1], ops[|ops| - 1];
      Prefixes(ops, ids);
      assert front[..k] == ops[..k];
      SupersededForever(front, k, id, ids);
      OfferedGrows(front, k);
      RunSnoc(front, op);
      NotAgain(op, Offered(front), ids, id);
      RetiredStep(Run(front), op, id);
    }
  }

  lemma NotAgain(op: Op, used: set<Text>, ids: set<Text>, id: Text)
    requires FreshId(op, used) && EpochApart(op, ids) && id in used && id in ids
    ensures (op.OfferOp? ==> op.id != id) && (op.AnnounceOp? ==> op.announcement.epoch != id)
  {}
}
