/** What each request does to the loader registry, in terms of the registry and the request alone. */
module LoaderAnswers {
  import opened Options
  import opened LoaderRegistry

  lemma VersionsMean(version: nat)
    ensures KnownVersion(version) <==> 2 <= version <= 4
    ensures DeviceVersion(version) <==> 5 <= version <= 6
  {}

  // ---------- Pruning ----------

  /** A registration of the device goes on reporting after it was superseded: it did so at most ten seconds ago. */
  predicate StillReports(registrations: map<Text, Registration>, mac: Text, now: Seconds) {
    exists id :: id in registrations
                 && var r := registrations[id];
                    r.mac == mac && r.supersededAt.Some? && r.lastSeenAt.Some?
                    && r.lastSeenAt.value > r.supersededAt.value && r.lastSeenAt.value >= now - 10
  }

  lemma StillReportsMeans(registrations: map<Text, Registration>, mac: Text, now: Seconds)
    ensures HasLiveSuperseded(registrations, mac, now) <==> StillReports(registrations, mac, now)
  {
    if HasLiveSuperseded(registrations, mac, now) {
      var id :| id in registrations && LiveSuperseded(registrations[id], mac, now);
      assert registrations[id].mac == mac;
    }
    if StillReports(registrations, mac, now) {
      var id :| id in registrations && registrations[id].mac == mac && registrations[id].supersededAt.Some?
                && registrations[id].lastSeenAt.Some?
                && registrations[id].lastSeenAt.value > registrations[id].supersededAt.value
                && registrations[id].lastSeenAt.value >= now - 10;
      assert LiveSuperseded(registrations[id], mac, now);
    }
  }

  /** Thirty seconds to be used at all, and a day without a word. */
  predicate Lasts(r: Registration, now: Seconds) {
    if r.lastSeenAt.Some? then now <= r.lastSeenAt.value + 24 * 60 * 60 else now <= r.issuedAt + 30
  }

  /** What is not too old stays as it is; but a device is in conflict exactly if a superseded registration of it
      still reports, or if it was in conflict less than ten seconds ago, and not with a registration. */
  predicate Pruned(s: Registry, now: Seconds, p: Registry) {
    && (forall id :: id in p.registrations ==>
          id in s.registrations && Lasts(s.registrations[id], now) && p.registrations[id] == s.registrations[id])
    && (forall id :: id in s.registrations && Lasts(s.registrations[id], now) ==> id in p.registrations)
    && (forall mac :: mac in p.devices ==>
          && mac in s.devices && now <= s.devices[mac].lastSeenAt + 24 * 60 * 60
          && var d := s.devices[mac];
             p.devices[mac] == d.(conflict := StillReports(p.registrations, mac, now)
                                             || (d.conflict && d.current !in p.registrations && now < d.lastSeenAt + 10)))
    && (forall mac :: mac in s.devices && now <= s.devices[mac].lastSeenAt + 24 * 60 * 60 ==> mac in p.devices)
  }

  lemma PruneMeans(s: Registry, now: Seconds)
    ensures Pruned(s, now, Prune(s, now))
  {
    hide HasLiveSuperseded, StillReports;
    var p := Prune(s, now);
    forall mac | mac in p.devices ensures HasLiveSuperseded(p.registrations, mac, now) <==> StillReports(p.registrations, mac, now) {
      StillReportsMeans(p.registrations, mac, now);
    }
  }

  // ---------- Polls ----------

  /** The registration is of this device and version. */
  predicate IsFrom(p: Registry, id: Text, mac: Text, version: nat) {
    id in p.registrations && (p.registrations[id].mac, p.registrations[id].version) == (mac, version)
  }

  /** Another registration that is still known speaks for the device. */
  predicate Rivals(p: Registry, id: Text, mac: Text, other: Text) {
    mac in p.devices && p.devices[mac].current == other != id && other in p.registrations
  }

  /** A poll of a registration that was superseded, or that is not newer than the one that speaks. */
  predicate TooLate(p: Registry, id: Text, mac: Text)
    requires id in p.registrations
  {
    p.registrations[id].supersededAt.Some?
    || (exists other :: other in p.registrations && Rivals(p, id, mac, other)
                        && p.registrations[id].issuedAt <= p.registrations[other].issuedAt)
  }

  /** When a registration is superseded, after a poll that is or is not too late. */
  function SupersededAfter(p: Registry, poll: Poll, now: Seconds, id: Text): Option<Seconds>
    requires id in p.registrations && poll.id in p.registrations
  {
    var before := p.registrations[id].supersededAt;
    if TooLate(p, poll.id, poll.mac) then
      if id == poll.id && before == None then Some(now) else before
    else if Rivals(p, poll.id, poll.mac, id) then Some(now)
    else before
  }

  /** A poll is seen. If it is not too late, its registration speaks for the device from now on and supersedes
      the one that did; otherwise it is superseded itself, and the device is in conflict. */
  predicate Polled(p: Registry, poll: Poll, now: Seconds, t: Registry, conflict: bool)
    requires poll.id in p.registrations
  {
    && t.registrations.Keys == p.registrations.Keys
    && (forall id :: id in p.registrations ==>
          t.registrations[id]
          == p.registrations[id].(lastSeenAt := if id == poll.id then Some(now) else p.registrations[id].lastSeenAt,
                                  supersededAt := SupersededAfter(p, poll, now, id)))
    && if TooLate(p, poll.id, poll.mac) then
         && conflict
         && t.devices == (if poll.mac in p.devices
                          then p.devices[poll.mac := p.devices[poll.mac].(conflict := true)] else p.devices)
       else
         && conflict == StillReports(t.registrations, poll.mac, now)
         && t.devices == p.devices[poll.mac := Device(poll.version, poll.info, poll.ip, now, poll.id, conflict)]
  }

  /** Why a poll is rejected. No poll ever finds its registration expired: pruning makes it unknown first. */
  predicate PollRejected(p: Registry, r: Poll, why: RegistrationError) {
    match why
    case ProtocolVersion =>
      !(2 <= r.version <= 4)
      || (r.id in p.registrations && p.registrations[r.id].mac == r.mac && p.registrations[r.id].version != r.version)
    case Unknown => 2 <= r.version <= 4 && r.id !in p.registrations
    case MacMismatch => 2 <= r.version <= 4 && r.id in p.registrations && p.registrations[r.id].mac != r.mac
    case _ => false
  }

  lemma PollExactly(s: Registry, poll: Poll, now: Seconds)
    ensures var c := AcceptPoll(s, poll, now); var p := Prune(s, now);
            && (c.1.Accepted? <==> 2 <= poll.version <= 4 && IsFrom(p, poll.id, poll.mac, poll.version))
            && (c.1.Accepted? ==> Polled(p, poll, now, c.0, c.1.value))
            && (c.1.Rejected? ==> c.0 == if 2 <= poll.version <= 4 then p else s)
            && (forall why :: c.1 == Rejected(why) <==> PollRejected(p, poll, why))
  {
    hide Prune, HasLiveSuperseded, StillReports, KnownVersion, Polled;
    VersionsMean(poll.version);
    var p := Prune(s, now);
    if poll.id in p.registrations {
      NotExpired(s, now, poll.id);
      PollOfKnown(p, poll, now);
    }
  }

  lemma NotExpired(s: Registry, now: Seconds, id: Text)
    requires id in Prune(s, now).registrations
    ensures Prune(s, now).registrations[id].lastSeenAt == None ==>
              now - Prune(s, now).registrations[id].issuedAt <= REGISTRATION_TTL
  {
    hide HasLiveSuperseded;
  }

  function AfterPoll(p: Registry, r: Poll, now: Seconds): (Registry, Answer<bool>)
    requires r.id in p.registrations
  {
    var seen := SeenNow(p, r.id, now);
    if p.registrations[r.id].supersededAt.Some? then (InConflict(seen, r.mac), Accepted(true))
    else if r.mac in p.devices && p.devices[r.mac].current != r.id then
      if Newer(seen, r.id, p.devices[r.mac].current)
      then Current(Superseded(seen, p.devices[r.mac].current, now), r, now)
      else (InConflict(Superseded(seen, r.id, now), r.mac), Accepted(true))
    else Current(seen, r, now)
  }

  lemma PollOfKnown(p: Registry, poll: Poll, now: Seconds)
    requires poll.id in p.registrations
    ensures Polled(p, poll, now, AfterPoll(p, poll, now).0, AfterPoll(p, poll, now).1.value)
  {
    hide HasLiveSuperseded, StillReports;
    var t := AfterPoll(p, poll, now).0;
    StillReportsMeans(t.registrations, poll.mac, now);
  }

  // ---------- Reports ----------

  /** The registration is not superseded, speaks for the device in its version, and nothing is in conflict. */
  predicate Heeded(p: Registry, r: Status) {
    && IsFrom(p, r.id, r.mac, r.version) && p.registrations[r.id].supersededAt == None
    && r.mac in p.devices && p.devices[r.mac].current == r.id && p.devices[r.mac].version == r.version
    && !p.devices[r.mac].conflict
  }

  /** A heeded report is seen of registration and device; one of a superseded registration is seen as well, and
      puts the device in conflict; any other leaves no trace. */
  predicate Reported(p: Registry, r: Status, now: Seconds, t: Registry) {
    if IsFrom(p, r.id, r.mac, r.version) && (p.registrations[r.id].supersededAt.Some? || Heeded(p, r)) then
      && t.registrations == p.registrations[r.id := p.registrations[r.id].(lastSeenAt := Some(now))]
      && t.devices == (if r.mac !in p.devices then p.devices
                       else if Heeded(p, r) then p.devices[r.mac := p.devices[r.mac].(lastSeenAt := now)]
                       else p.devices[r.mac := p.devices[r.mac].(conflict := true)])
    else t == p
  }

  /** Why a report is not heeded: it is of another version than its registration or its device, its registration is
      not known or not of this device, the device is not known, is in conflict, or is spoken for by another. */
  predicate StatusRejected(p: Registry, r: Status, why: RegistrationError) {
    var known := 2 <= r.version <= 4 && IsFrom(p, r.id, r.mac, r.version);
    var current := known && p.registrations[r.id].supersededAt == None;
    var device := current && r.mac in p.devices;
    match why
    case ProtocolVersion =>
      || !(2 <= r.version <= 4)
      || (r.id in p.registrations && p.registrations[r.id].mac == r.mac && p.registrations[r.id].version != r.version)
      || (device && p.devices[r.mac].version != r.version)
    case Unknown => (2 <= r.version <= 4 && r.id !in p.registrations) || (current && r.mac !in p.devices)
    case MacMismatch => 2 <= r.version <= 4 && r.id in p.registrations && p.registrations[r.id].mac != r.mac
    case Replaced =>
      || (known && p.registrations[r.id].supersededAt.Some?)
      || (device && p.devices[r.mac].version == r.version && !p.devices[r.mac].conflict && p.devices[r.mac].current != r.id)
    case Conflict => device && p.devices[r.mac].version == r.version && p.devices[r.mac].conflict
    case Expired => false
  }

  lemma StatusExactly(s: Registry, r: Status, now: Seconds)
    ensures var c := AcceptStatus(s, r, now); var p := Prune(s, now);
            && (c.1.Accepted? <==> 2 <= r.version <= 4 && Heeded(p, r))
            && (if 2 <= r.version <= 4 then Reported(p, r, now, c.0) else c.0 == s)
            && (forall why :: c.1 == Rejected(why) <==> StatusRejected(p, r, why))
  {
    hide Prune, KnownVersion;
    VersionsMean(r.version);
  }
}
