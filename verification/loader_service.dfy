/** The loader registry as one object: what each request promises, and the object driven through any run. */
module LoaderService {
  import opened Options
  import opened LoaderRegistry
  import opened LoaderRuns
  import opened LoaderAnswers

  predicate Knows(s: Registry, id: Text, mac: Text, version: nat) {
    id in s.registrations && s.registrations[id].mac == mac && s.registrations[id].version == version
  }

  predicate SpeaksFor(s: Registry, id: Text, mac: Text) { mac in s.devices && s.devices[mac].current == id }

  /** A registration that was not superseded, and is not older than the one that speaks for the device. */
  predicate MaySpeak(s: Registry, id: Text, mac: Text) {
    && id in s.registrations && s.registrations[id].supersededAt == None
    && (mac !in s.devices || s.devices[mac].current == id || Newer(s, id, s.devices[mac].current))
  }

  predicate MayReport(s: Registry, r: LoaderRegistry.Status) {
    && Knows(s, r.id, r.mac, r.version) && s.registrations[r.id].supersededAt == None
    && SpeaksFor(s, r.id, r.mac) && s.devices[r.mac].version == r.version && !s.devices[r.mac].conflict
  }

  /** An announcement and the status behind it, of a known version, are about the same boot. */
  predicate Agree(a: LoaderRegistry.Announcement, d: DeviceStatus) {
    5 <= a.version <= 6 && d.version == a.version && a.mac == d.mac && a.epoch == d.epoch && a.arch == d.info.arch
  }

  /** A recent record of the device is from another address, or in conflict already. */
  predicate HeldElsewhere(s: Registry, mac: Text, ip: Text, now: Seconds) {
    && mac in s.devices && (s.devices[mac].ip != ip || s.devices[mac].conflict)
    && now - s.devices[mac].lastSeenAt < 10
  }

  /** Devices other than this one only age, and their current registrations with them. */
  predicate OthersAge(s: Registry, t: Registry, mac: Text, now: Seconds) {
    var p := Prune(s, now);
    && t.devices - {mac} == p.devices - {mac}
    && t.registrations.Keys == p.registrations.Keys
    && forall id :: id in t.registrations && t.registrations[id] != p.registrations[id] ==>
         p.registrations[id].mac == mac || SpeaksFor(p, id, mac)
  }

  /** Known until it expires, unless it is used before. */
  ghost predicate Unused(s: Registry, id: Text, now: Seconds) {
    && id in s.registrations && s.registrations[id].lastSeenAt == None && s.registrations[id].supersededAt == None
    && forall later :: id in Surviving(s.registrations, later) <==> later - now <= 30
  }

  lemma OfferMeans(s: Registry, mac: Text, version: nat, id: Text, now: Seconds)
    ensures var (t, answer) := Offer(s, mac, version, id, now);
            && (answer.Accepted? ==> Unused(t, id, now))
            && (Consistent(s) && id !in s.registrations ==> Consistent(t))
  {
    hide Prune, Consistent, Step;
    if Consistent(s) && id !in s.registrations {
      OfferIsStep(s, mac, version, id, now);
      ConsistentStep(s, OfferOp(mac, version, id, now));
    }
  }

  lemma OfferIsStep(s: Registry, mac: Text, version: nat, id: Text, now: Seconds)
    ensures Step(s, OfferOp(mac, version, id, now)) == Offer(s, mac, version, id, now).0
  {
    hide Offer;
  }

  lemma PollIsStep(s: Registry, r: LoaderRegistry.Poll, now: Seconds)
    ensures Step(s, PollOp(r, now)) == AcceptPoll(s, r, now).0
  {
    hide AcceptPoll;
  }

  lemma StatusIsStep(s: Registry, r: LoaderRegistry.Status, now: Seconds)
    ensures Step(s, StatusOp(r, now)) == AcceptStatus(s, r, now).0
  {
    hide AcceptStatus;
  }

  /** What is left after pruning and never polled is not expired. */
  lemma PruneExpires(s: Registry, id: Text, now: Seconds)
    requires id in Prune(s, now).registrations && Prune(s, now).registrations[id].lastSeenAt == None
    ensures now - Prune(s, now).registrations[id].issuedAt <= 30
  {
    hide HasLiveSuperseded;
  }

  lemma PruneDevices(s: Registry, mac: Text, now: Seconds)
    ensures mac in Prune(s, now).devices ==>
              mac in s.devices && Prune(s, now).devices[mac] == s.devices[mac].(conflict := Prune(s, now).devices[mac].conflict)
    ensures mac in s.devices && mac !in Prune(s, now).devices ==> now - s.devices[mac].lastSeenAt > 24 * 60 * 60
  {
    hide HasLiveSuperseded;
  }

  lemma PollMeans(s: Registry, r: LoaderRegistry.Poll, now: Seconds)
    ensures var (t, answer) := AcceptPoll(s, r, now); var p := Prune(s, now);
            && (answer.Accepted? <==> KnownVersion(r.version) && Knows(p, r.id, r.mac, r.version))
            && (answer.Accepted? ==>
                  && r.id in t.registrations && t.registrations[r.id].lastSeenAt == Some(now)
                  && (SpeaksFor(t, r.id, r.mac) <==> MaySpeak(p, r.id, r.mac) || SpeaksFor(p, r.id, r.mac)))
            && (answer == Accepted(false) <==>
                  answer.Accepted? && MaySpeak(p, r.id, r.mac) && !HasLiveSuperseded(t.registrations, r.mac, now))
            && (answer == Accepted(true) && r.mac in t.devices ==> t.devices[r.mac].conflict)
            && (KnownVersion(r.version) ==> OthersAge(s, t, r.mac, now))
            && (Consistent(s) ==> Consistent(t))
  {
    hide Prune, KnownVersion, HasLiveSuperseded, Consistent, Step;
    if r.id in Prune(s, now).registrations && Prune(s, now).registrations[r.id].lastSeenAt == None {
      PruneExpires(s, r.id, now);
    }
    if Consistent(s) {
      PollIsStep(s, r, now);
      ConsistentStep(s, PollOp(r, now));
    }
  }

  lemma StatusMeans(s: Registry, r: LoaderRegistry.Status, now: Seconds)
    ensures var (t, answer) := AcceptStatus(s, r, now);
            && (answer.Accepted? <==> KnownVersion(r.version) && MayReport(Prune(s, now), r))
            && (answer.Accepted? ==>
                  SpeaksFor(t, r.id, r.mac) && r.id in t.registrations
                  && t.registrations[r.id].lastSeenAt == Some(now) == Some(t.devices[r.mac].lastSeenAt))
            && (answer == Rejected(Replaced) && SpeaksFor(t, r.id, r.mac) ==> t.devices[r.mac].conflict)
            && (KnownVersion(r.version) ==> OthersAge(s, t, r.mac, now))
            && (Consistent(s) ==> Consistent(t))
  {
    hide Prune, KnownVersion, Consistent, Step;
    if Consistent(s) {
      StatusIsStep(s, r, now);
      ConsistentStep(s, StatusOp(r, now));
    }
  }

  class Loaders {
    var registrations: map<Text, Registration>
    var devices: map<Text, Device>

    function View(): Registry
      reads this
    {
      Registry(registrations, devices)
    }

    constructor ()
      ensures View() == Registry(map[], map[])
    {
      registrations, devices := map[], map[];
    }

    method PruneOld(now: Seconds)
      modifies this
      ensures View() == Prune(old(View()), now) && Pruned(old(View()), now, View())
    {
      hide HasLiveSuperseded, Pruned, KeepsRegistration, KeepsDevice, Reconsidered;
      PruneMeans(View(), now);
      registrations := map id | id in registrations && KeepsRegistration(registrations[id], now) :: registrations[id];
      devices := map mac | mac in devices && KeepsDevice(devices[mac], now) :: devices[mac];
      ReconsiderAll(now);
      assert registrations == Surviving(old(registrations), now);
      assert devices == Prune(old(View()), now).devices;
    }

    method ReconsiderAll(now: Seconds)
      modifies this`devices
      ensures devices.Keys == old(devices).Keys
      ensures forall mac :: mac in devices ==> devices[mac] == Reconsidered(old(devices)[mac], mac, registrations, now)
    {
      hide HasLiveSuperseded;
      var todo := devices.Keys;
      while todo != {}
        invariant todo <= devices.Keys == old(devices).Keys
        invariant forall mac :: mac in devices ==>
          devices[mac] == if mac in todo then old(devices)[mac] else Reconsidered(old(devices)[mac], mac, registrations, now)
      {
        var mac :| mac in todo;
        var device := devices[mac];
        var announced := device.conflict && device.current !in registrations && now - device.lastSeenAt < ONLINE_TTL;
        devices := devices[mac := device.(conflict := announced || HasLiveSuperseded(registrations, mac, now))];
        todo := todo - {mac};
      }
    }

    /** A new registration can be used for thirty seconds; no device changes its registration. */
    method OfferRegistration(mac: Text, version: nat, id: Text, now: Seconds) returns (answer: Answer<Text>)
      modifies this
      ensures (View(), answer) == Offer(old(View()), mac, version, id, now)
      ensures answer == if 2 <= version <= 4 then Accepted(id) else Rejected(ProtocolVersion)
      ensures answer.Rejected? ==> View() == old(View())
      ensures answer.Accepted? ==>
                && devices == Prune(old(View()), now).devices
                && registrations == Prune(old(View()), now).registrations[id := Registration(mac, version, now, None, None)]
                && Unused(View(), id, now)
      ensures Consistent(old(View())) && id !in old(registrations) ==> Consistent(View())
    {
      hide Prune, Pruned, Consistent, Unused, KnownVersion;
      ghost var s := View();
      VersionsMean(version);
      OfferMeans(s, mac, version, id, now);
      if !KnownVersion(version) {
        return Rejected(ProtocolVersion);
      }
      PruneOld(now);
      registrations := registrations[id := Registration(mac, version, now, None, None)];
      answer := Accepted(id);
    }

    /** Answered exactly for a registration that is known, and then everything that follows from it is done;
        without a conflict exactly if it now speaks for its device and no registration that was superseded still
        reports. */
    method HandlePoll(r: Poll, now: Seconds) returns (answer: Answer<bool>)
      modifies this
      ensures (View(), answer) == AcceptPoll(old(View()), r, now)
      ensures answer.Accepted? <==>
                2 <= r.version <= 4 && IsFrom(Prune(old(View()), now), r.id, r.mac, r.version)
      ensures answer.Accepted? ==> Polled(Prune(old(View()), now), r, now, View(), answer.value)
      ensures answer.Rejected? ==> View() == if 2 <= r.version <= 4 then Prune(old(View()), now) else old(View())
      ensures forall why :: answer == Rejected(why) <==> PollRejected(Prune(old(View()), now), r, why)
      ensures answer.Accepted? ==> r.id in registrations && registrations[r.id].lastSeenAt == Some(now)
      ensures answer.Accepted? ==>
                var p := Prune(old(View()), now);
                SpeaksFor(View(), r.id, r.mac) <==> MaySpeak(p, r.id, r.mac) || SpeaksFor(p, r.id, r.mac)
      ensures answer == Accepted(false) <==>
                answer.Accepted? && MaySpeak(Prune(old(View()), now), r.id, r.mac)
                && !StillReports(registrations, r.mac, now)
      ensures answer == Accepted(true) && r.mac in devices ==> devices[r.mac].conflict
      ensures KnownVersion(r.version) ==> OthersAge(old(View()), View(), r.mac, now)
      ensures Consistent(old(View())) ==> Consistent(View())
    {
      hide Prune, Pruned, Polled, PollRejected, KnownVersion, HasLiveSuperseded, StillReports, Consistent, OthersAge, Knows, SpeaksFor;
      hide MaySpeak;
      PollMeans(View(), r, now);
      PollExactly(View(), r, now);
      StillReportsMeans(AcceptPoll(View(), r, now).0.registrations, r.mac, now);
      if !KnownVersion(r.version) {
        return Rejected(ProtocolVersion);
      }
      PruneOld(now);
      if r.id !in registrations {
        return Rejected(Unknown);
      }
      var registration := registrations[r.id];
      if registration.mac != r.mac {
        return Rejected(MacMismatch);
      }
      if registration.version != r.version {
        return Rejected(ProtocolVersion);
      }
      if registration.lastSeenAt == None && now - registration.issuedAt > REGISTRATION_TTL {
        return Rejected(Expired);
      }
      var wasSuperseded := registration.supersededAt.Some?;
      registrations := registrations[r.id := registration.(lastSeenAt := Some(now))];
      if wasSuperseded {
        MarkConflict(r.mac);
        return Accepted(true);
      }
      if r.mac in devices && devices[r.mac].current != r.id {
        var previous := devices[r.mac].current;
        if previous in registrations && registration.issuedAt <= registrations[previous].issuedAt {
          registrations := registrations[r.id := registrations[r.id].(supersededAt := Some(now))];
          MarkConflict(r.mac);
          return Accepted(true);
        }
        if previous in registrations {
          registrations := registrations[previous := registrations[previous].(supersededAt := Some(now))];
        }
      }
      var conflict := HasLiveSuperseded(registrations, r.mac, now);
      devices := devices[r.mac := Device(r.version, r.info, r.ip, now, r.id, conflict)];
      answer := Accepted(conflict);
    }

    method MarkConflict(mac: Text)
      modifies this`devices
      ensures View() == InConflict(old(View()), mac)
    {
      if mac in devices {
        devices := devices[mac := devices[mac].(conflict := true)];
      }
    }

    /** Accepted exactly from the registration that speaks for a device without a conflict; then both are
        seen at the same time. */
    method HandleStatus(r: Status, now: Seconds) returns (answer: Answer<()>)
      modifies this
      ensures (View(), answer) == AcceptStatus(old(View()), r, now)
      ensures answer.Accepted? <==> 2 <= r.version <= 4 && Heeded(Prune(old(View()), now), r)
      ensures if 2 <= r.version <= 4 then Reported(Prune(old(View()), now), r, now, View()) else View() == old(View())
      ensures forall why :: answer == Rejected(why) <==> StatusRejected(Prune(old(View()), now), r, why)
      ensures answer.Accepted? ==>
                SpeaksFor(View(), r.id, r.mac) && r.id in registrations
                && registrations[r.id].lastSeenAt == Some(now) == Some(devices[r.mac].lastSeenAt)
      ensures answer == Rejected(Replaced) && r.mac in devices && devices[r.mac].current == r.id ==>
                devices[r.mac].conflict
      ensures KnownVersion(r.version) ==> OthersAge(old(View()), View(), r.mac, now)
      ensures Consistent(old(View())) ==> Consistent(View())
    {
      hide Prune, Pruned, Reported, Heeded, StatusRejected, KnownVersion, Consistent, OthersAge, MayReport, SpeaksFor;
      StatusMeans(View(), r, now);
      StatusExactly(View(), r, now);
      if !KnownVersion(r.version) {
        return Rejected(ProtocolVersion);
      }
      PruneOld(now);
      if r.id !in registrations {
        return Rejected(Unknown);
      }
      var registration := registrations[r.id];
      if registration.mac != r.mac {
        return Rejected(MacMismatch);
      }
      if registration.version != r.version {
        return Rejected(ProtocolVersion);
      }
      if registration.supersededAt.Some? {
        registrations := registrations[r.id := registration.(lastSeenAt := Some(now))];
        MarkConflict(r.mac);
        return Rejected(Replaced);
      }
      if r.mac !in devices {
        return Rejected(Unknown);
      }
      var device := devices[r.mac];
      if device.version != r.version {
        return Rejected(ProtocolVersion);
      }
      if device.conflict {
        return Rejected(Conflict);
      }
      if device.current != r.id {
        return Rejected(Replaced);
      }
      registrations := registrations[r.id := registration.(lastSeenAt := Some(now))];
      devices := devices[r.mac := device.(lastSeenAt := now)];
      answer := Accepted(());
    }

    /** A conflict is answered exactly while a record of the device from elsewhere, or one in conflict, is
        less than ten seconds old; that record stays, and is replaced otherwise. */
    method HandleAnnouncement(a: Announcement, d: DeviceStatus, ip: Text, now: Seconds) returns (answer: Answer<bool>)
      modifies this
      ensures (View(), answer) == AcceptAnnouncement(old(View()), a, d, ip, now)
      ensures answer.Rejected? <==> !Agree(a, d)
      ensures answer.Rejected? ==> answer.error == ProtocolVersion
      ensures answer.Rejected? ==> View() == old(View())
      ensures answer == Accepted(true) <==> Agree(a, d) && HeldElsewhere(Prune(old(View()), now), d.mac, ip, now)
      ensures answer == Accepted(true) ==>
                d.mac in devices && devices[d.mac].conflict && now - devices[d.mac].lastSeenAt < 10
                && d.mac in old(devices) && devices[d.mac].ip == old(devices)[d.mac].ip
                && devices[d.mac].current == old(devices)[d.mac].current
                && devices[d.mac].lastSeenAt == old(devices)[d.mac].lastSeenAt
      ensures answer == Accepted(false) ==>
                d.mac in devices && devices[d.mac] == Device(d.version, d.info, ip, now, d.epoch, false)
      ensures answer.Accepted? ==> registrations == Prune(old(View()), now).registrations
      ensures answer.Accepted? ==> devices - {d.mac} == Prune(old(View()), now).devices - {d.mac}
    {
      hide Prune, Pruned, DeviceVersion;
      VersionsMean(a.version);
      PruneDevices(View(), d.mac, now);
      if !DeviceVersion(a.version) || d.version != a.version || a.mac != d.mac || a.epoch != d.epoch || a.arch != d.info.arch {
        return Rejected(ProtocolVersion);
      }
      PruneOld(now);
      var conflict := d.mac in devices && (devices[d.mac].ip != ip || devices[d.mac].conflict)
                      && now - devices[d.mac].lastSeenAt < ONLINE_TTL;
      if conflict {
        MarkConflict(d.mac);
      } else {
        devices := devices[d.mac := Device(d.version, d.info, ip, now, d.epoch, false)];
      }
      answer := Accepted(conflict);
    }

    /** The announcing boot at its own address keeps its record alive for a day; nobody else does, and
        nothing else changes. */
    method TouchDevice(a: Announcement, ip: Text, now: Seconds)
      modifies this`devices
      ensures View() == Touch(old(View()), a, ip, now)
      ensures a.mac in devices && devices[a.mac].current == a.epoch && devices[a.mac].ip == ip ==>
                forall later :: later - now <= 24 * 60 * 60 ==> a.mac in Prune(View(), later).devices
      ensures devices != old(devices) ==>
                a.mac in old(devices) && devices == old(devices)[a.mac := old(devices)[a.mac].(lastSeenAt := now)]
                && devices[a.mac].current == a.epoch && devices[a.mac].ip == ip
    {
      if a.mac in devices && devices[a.mac].current == a.epoch && devices[a.mac].ip == ip {
        devices := devices[a.mac := devices[a.mac].(lastSeenAt := now)];
      }
    }

    /** One step of a run. */
    method Apply(op: Op)
      modifies this
      ensures View() == Step(old(View()), op)
    {
      hide Prune, AcceptPoll, AcceptStatus, AcceptAnnouncement, Offer, Touch, Consistent, OthersAge, Unused, MayReport;
      match op
      case OfferOp(mac, version, id, now) => var answer := OfferRegistration(mac, version, id, now);
      case PollOp(poll, now) => var answer := HandlePoll(poll, now);
      case StatusOp(status, now) => var answer := HandleStatus(status, now);
      case PruneOp(now) => PruneOld(now);
      case AnnounceOp(a, d, ip, now) => var answer := HandleAnnouncement(a, d, ip, now);
      case TouchOp(a, ip, now) => TouchDevice(a, ip, now);
    }
  }

  /** What every run has reached: with polls only, the current registrations are the unsuperseded ones; with
      announcements, what was superseded at any time before is current nowhere. */
  ghost predicate Reached(s: Registry, ops: seq<Op>) {
    && s == Run(ops)
    && (FreshIds(ops) && (forall k :: 0 <= k < |ops| ==> PollOnly(ops[k])) ==> Consistent(s))
    && (FreshIds(ops) && Apart(ops, Offered(ops)) ==>
          forall k, id :: 0 <= k <= |ops| && SupersededAt(ops, k, id) ==> Retired(s, id))
  }

  predicate SupersededAt(ops: seq<Op>, k: nat, id: Text)
    requires k <= |ops|
  {
    id in Run(ops[..k]).registrations && Run(ops[..k]).registrations[id].supersededAt.Some?
  }

  lemma RunReached(ops: seq<Op>)
    ensures Reached(Run(ops), ops)
  {
    hide Run, FreshIds, PollOnly, Consistent, Retired, Apart, Offered;
    if FreshIds(ops) && (forall k :: 0 <= k < |ops| ==> PollOnly(ops[k])) {
      CurrentIsUnsuperseded(ops);
    }
    if FreshIds(ops) && Apart(ops, Offered(ops)) {
      forall k, id | 0 <= k <= |ops| && SupersededAt(ops, k, id) ensures Retired(Run(ops), id) {
        SupersededForever(ops, k, id, Offered(ops));
      }
    }
  }

  /** A registry that is put through any requests is where their run ends. */
  method Drive(ops: seq<Op>) returns (loaders: Loaders)
    ensures fresh(loaders) && Reached(loaders.View(), ops)
  {
    hide Step, Reached;
    loaders := new Loaders();
    for k := 0 to |ops|
      invariant fresh(loaders) && loaders.View() == Run(ops[..k])
    {
      loaders.Apply(ops[k]);
      assert ops[..k + 1][..k] == ops[..k];
    }
    assert ops[..|ops|] == ops;
    RunReached(ops);
  }
}
