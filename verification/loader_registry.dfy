/** Loader registrations: which one speaks for a device, and what happens to the ones it replaces. */
module LoaderRegistry {
  import opened Options

  type Text = string
  type Seconds = int

  const REGISTRATION_TTL: Seconds := 30
  const ONLINE_TTL: Seconds := 10
  const RECORD_RETENTION: Seconds := 24 * 3600

  const LEGACY_PROTOCOL_VERSION: nat := 2
  const PREVIOUS_PROTOCOL_VERSION: nat := 3
  const PROTOCOL_VERSION: nat := 4
  const PREVIOUS_DEVICE_PROTOCOL_VERSION: nat := 5
  const DEVICE_PROTOCOL_VERSION: nat := 6

  datatype Registration = Registration(
    mac: Text, version: nat, issuedAt: Seconds, lastSeenAt: Option<Seconds>, supersededAt: Option<Seconds>)

  /** What a device says about itself beside its address. */
  datatype Info = Info(currentMac: Text, arch: Text, loaderVersion: Text, hardware: Text)

  datatype Device = Device(
    version: nat, info: Info, ip: Text, lastSeenAt: Seconds, current: Text, conflict: bool)

  datatype Registry = Registry(registrations: map<Text, Registration>, devices: map<Text, Device>)

  datatype RegistrationError = ProtocolVersion | Unknown | Expired | MacMismatch | Replaced | Conflict
  datatype Answer<T> = Accepted(value: T) | Rejected(error: RegistrationError)

  predicate KnownVersion(version: nat) {
    version == LEGACY_PROTOCOL_VERSION || version == PREVIOUS_PROTOCOL_VERSION || version == PROTOCOL_VERSION
  }

  predicate DeviceVersion(version: nat) {
    version == DEVICE_PROTOCOL_VERSION || version == PREVIOUS_DEVICE_PROTOCOL_VERSION
  }

  // ---------- Pruning ----------

  predicate KeepsRegistration(r: Registration, now: Seconds) {
    match r.lastSeenAt
    case None => now - r.issuedAt <= REGISTRATION_TTL
    case Some(seen) => now - seen <= RECORD_RETENTION
  }

  predicate KeepsDevice(d: Device, now: Seconds) { now - d.lastSeenAt <= RECORD_RETENTION }

  /** A replaced registration that reported again, lately. */
  predicate LiveSuperseded(r: Registration, mac: Text, now: Seconds) {
    r.mac == mac && r.supersededAt.Some? && r.lastSeenAt.Some?
    && r.lastSeenAt.value > r.supersededAt.value && now - r.lastSeenAt.value <= ONLINE_TTL
  }

  predicate HasLiveSuperseded(registrations: map<Text, Registration>, mac: Text, now: Seconds) {
    exists id :: id in registrations && LiveSuperseded(registrations[id], mac, now)
  }

  function Surviving(registrations: map<Text, Registration>, now: Seconds): map<Text, Registration> {
    map id | id in registrations && KeepsRegistration(registrations[id], now) :: registrations[id]
  }

  function Reconsidered(d: Device, mac: Text, registrations: map<Text, Registration>, now: Seconds): Device {
    d.(conflict := (d.conflict && d.current !in registrations && now - d.lastSeenAt < ONLINE_TTL)
                   || HasLiveSuperseded(registrations, mac, now))
  }

  function Prune(s: Registry, now: Seconds): Registry {
    var registrations := Surviving(s.registrations, now);
    Registry(registrations,
             map mac | mac in s.devices && KeepsDevice(s.devices[mac], now) ::
               Reconsidered(s.devices[mac], mac, registrations, now))
  }

  // ---------- Requests ----------

  function Offer(s: Registry, mac: Text, version: nat, id: Text, now: Seconds): (Registry, Answer<Text>) {
    if !KnownVersion(version) then (s, Rejected(ProtocolVersion))
    else
      var p := Prune(s, now);
      (p.(registrations := p.registrations[id := Registration(mac, version, now, None, None)]), Accepted(id))
  }

  datatype Poll = Poll(version: nat, id: Text, mac: Text, info: Info, ip: Text)

  function SeenNow(s: Registry, id: Text, now: Seconds): Registry
    requires id in s.registrations
  {
    s.(registrations := s.registrations[id := s.registrations[id].(lastSeenAt := Some(now))])
  }

  function Superseded(s: Registry, id: Text, now: Seconds): Registry {
    if id in s.registrations
    then s.(registrations := s.registrations[id := s.registrations[id].(supersededAt := Some(now))])
    else s
  }

  function InConflict(s: Registry, mac: Text): Registry {
    if mac in s.devices then s.(devices := s.devices[mac := s.devices[mac].(conflict := true)]) else s
  }

  /** Whether a registration is newer than another one, which may be gone. */
  predicate Newer(s: Registry, id: Text, previous: Text)
    requires id in s.registrations
  {
    previous in s.registrations ==> s.registrations[id].issuedAt > s.registrations[previous].issuedAt
  }

  function Current(s: Registry, r: Poll, now: Seconds): (Registry, Answer<bool>) {
    var conflict := HasLiveSuperseded(s.registrations, r.mac, now);
    (s.(devices := s.devices[r.mac := Device(r.version, r.info, r.ip, now, r.id, conflict)]), Accepted(conflict))
  }

  function AcceptPoll(s: Registry, r: Poll, now: Seconds): (Registry, Answer<bool>) {
    if !KnownVersion(r.version) then (s, Rejected(ProtocolVersion))
    else
      var p := Prune(s, now);
      if r.id !in p.registrations then (p, Rejected(Unknown))
      else
        var registration := p.registrations[r.id];
        if registration.mac != r.mac then (p, Rejected(MacMismatch))
        else if registration.version != r.version then (p, Rejected(ProtocolVersion))
        else if registration.lastSeenAt == None && now - registration.issuedAt > REGISTRATION_TTL then (p, Rejected(Expired))
        else
          var seen := SeenNow(p, r.id, now);
          if registration.supersededAt.Some? then (InConflict(seen, r.mac), Accepted(true))
          else if r.mac in p.devices && p.devices[r.mac].current != r.id then
            if Newer(seen, r.id, p.devices[r.mac].current)
            then Current(Superseded(seen, p.devices[r.mac].current, now), r, now)
            else (InConflict(Superseded(seen, r.id, now), r.mac), Accepted(true))
          else Current(seen, r, now)
  }

  datatype Status = Status(version: nat, id: Text, mac: Text)

  function AcceptStatus(s: Registry, r: Status, now: Seconds): (Registry, Answer<()>) {
    if !KnownVersion(r.version) then (s, Rejected(ProtocolVersion))
    else
      var p := Prune(s, now);
      if r.id !in p.registrations then (p, Rejected(Unknown))
      else
        var registration := p.registrations[r.id];
        if registration.mac != r.mac then (p, Rejected(MacMismatch))
        else if registration.version != r.version then (p, Rejected(ProtocolVersion))
        else if registration.supersededAt.Some? then (InConflict(SeenNow(p, r.id, now), r.mac), Rejected(Replaced))
        else if r.mac !in p.devices then (p, Rejected(Unknown))
        else
          var device := p.devices[r.mac];
          if device.version != r.version then (p, Rejected(ProtocolVersion))
          else if device.conflict then (p, Rejected(Conflict))
          else if device.current != r.id then (p, Rejected(Replaced))
          else
            (SeenNow(p, r.id, now).(devices := p.devices[r.mac := device.(lastSeenAt := now)]), Accepted(()))
  }

  datatype Announcement = Announcement(version: nat, mac: Text, epoch: Text, arch: Text)
  datatype DeviceStatus = DeviceStatus(version: nat, mac: Text, epoch: Text, info: Info)

  function AcceptAnnouncement(s: Registry, a: Announcement, d: DeviceStatus, ip: Text, now: Seconds): (Registry, Answer<bool>) {
    if !DeviceVersion(a.version) || d.version != a.version || a.mac != d.mac || a.epoch != d.epoch || a.arch != d.info.arch
    then (s, Rejected(ProtocolVersion))
    else
      var p := Prune(s, now);
      var conflict := d.mac in p.devices && (p.devices[d.mac].ip != ip || p.devices[d.mac].conflict)
                      && now - p.devices[d.mac].lastSeenAt < ONLINE_TTL;
      if conflict then (InConflict(p, d.mac), Accepted(true))
      else (p.(devices := p.devices[d.mac := Device(d.version, d.info, ip, now, d.epoch, false)]), Accepted(false))
  }

  function Touch(s: Registry, a: Announcement, ip: Text, now: Seconds): Registry {
    if a.mac in s.devices && s.devices[a.mac].current == a.epoch && s.devices[a.mac].ip == ip
    then s.(devices := s.devices[a.mac := s.devices[a.mac].(lastSeenAt := now)])
    else s
  }
}
