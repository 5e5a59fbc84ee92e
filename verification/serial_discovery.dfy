/** The serial discovery actor: one owner of all scans, leases and reservations of serial ports.

    Every input it handles is first written as a function on its state, and then as the class that
    changes that state in place.
  */
module SerialDiscovery {
  import opened Options

  type Text = string
  type ReplyId = nat
  type Millis = int

  const LOCATION_GRACE: Millis := 1000
  const SCAN_WINDOW: Millis := 5000
  const SCAN_TURN: Millis := 2000
  const ENUMERATION_PERIOD: Millis := 250

  datatype PortLocator = PortLocator(name: Text, aliases: seq<Text>, serialNumber: Option<Text>)
  datatype PortSelector = Path(path: Text) | SerialNumber(number: Text)

  datatype BindRequest = BindRequest(
    owner: Text, generation: nat, mac: Text, serialId: Text, parameters: nat, deadline: Millis)
  datatype BindError = Timeout | DiscoveryFailed(faults: map<Text, Text>) | Busy

  /** An open port, with the identities decoded from it so far. */
  datatype Stream = Stream(port: Text, heard: set<Text>)

  datatype Command =
    | Bind(request: BindRequest, reply: ReplyId)
    | Exclude(selectors: seq<PortSelector>, reply: ReplyId)
    | Reserve(port: PortLocator, reply: ReplyId)
    | Release(name: Text, token: nat)
    | Confirm(mac: Text, locator: PortLocator, token: nat)
    | Invalidate(mac: Text)
    | WaitOwner(owner: Text, reply: ReplyId)

  datatype Event =
    | Found(locator: PortLocator, generation: nat, id: Text, stream: Stream)
    | Closed(name: Text, generation: nat)
    | Inventory(found: Option<seq<PortLocator>>)
    | Fault(name: Text, error: Text)

  datatype Pending = Pending(
    request: BindRequest, reply: ReplyId, started: Millis, scanning: bool, scanDeadline: Millis)
  datatype Candidate = Candidate(generation: nat, locator: PortLocator, closing: bool)
  datatype Owner = Owner(token: nat, name: Text, locator: PortLocator)
  datatype Reservation = Reservation(port: PortLocator, reply: ReplyId)
  datatype Waiter = Waiter(owner: Text, reply: ReplyId)

  datatype Actor = Actor(
    pending: seq<Pending>,
    candidates: map<Text, Candidate>,
    leased: map<Text, Owner>,
    locations: map<Text, PortLocator>,
    exclusions: seq<PortSelector>,
    excludedReplies: seq<ReplyId>,
    reservations: seq<Reservation>,
    releaseWaiters: seq<Waiter>,
    failed: set<Text>,
    errors: map<Text, Text>,
    expected: seq<(Text, nat)>,
    sequence: nat,
    ports: seq<PortLocator>,
    enumerating: bool,
    nextEnumeration: Millis,
    links: map<Text, Text>)

  /** What a step sends or starts. A granted lease and a closing task take the stream with them. */
  datatype Effect =
    | LeaseGranted(reply: ReplyId, request: BindRequest, locator: PortLocator, token: nat, stream: Stream)
    | BindRefused(reply: ReplyId, error: BindError)
    | ExcludeAnswered(reply: ReplyId, accepted: bool)
    | ReservationGranted(reply: ReplyId, locator: PortLocator, token: nat)
    | ReservationRefused(reply: ReplyId)
    | OwnerReleased(owner: Text, reply: ReplyId)
    | ScanStarted(locator: PortLocator, generation: nat)
    | CloseStarted(locator: PortLocator, generation: nat, stream: Stream)
    | EnumerationStarted

  /** What a step sees of the outside: the time, the replies nobody waits for any more, and whether
      the command channel still has users. */
  datatype Outside = Outside(now: Millis, gone: set<ReplyId>, alive: bool)

  datatype Change = Change(actor: Actor, effects: seq<Effect>)

  function Same(a: Actor): Change { Change(a, []) }

  function Then(c: Change, d: Change): Change { Change(d.actor, c.effects + d.effects) }

  // ---------- Queries ----------

  /** `links` are the symbolic links of the file system, each with the port it resolves to. */
  predicate Matches(l: PortLocator, s: PortSelector, links: map<Text, Text>) {
    match s
    case SerialNumber(number) => l.serialNumber == Some(number)
    case Path(path) => l.name == path || path in l.aliases || (path in links && links[path] == l.name)
  }

  predicate MatchesAny(l: PortLocator, selectors: seq<PortSelector>, links: map<Text, Text>) {
    exists i :: 0 <= i < |selectors| && Matches(l, selectors[i], links)
  }

  predicate Excluded(a: Actor, l: PortLocator) { MatchesAny(l, a.exclusions, a.links) }

  predicate IsReserved(reservations: seq<Reservation>, name: Text) {
    exists i :: 0 <= i < |reservations| && reservations[i].port.name == name
  }

  predicate Rivals(p: Pending, request: BindRequest) {
    p.request.mac == request.mac || p.request.serialId == request.serialId
  }

  predicate HasRival(pending: seq<Pending>, request: BindRequest) {
    exists i :: 0 <= i < |pending| && Rivals(pending[i], request)
  }

  predicate AnyExcludedCandidate(a: Actor) {
    exists n :: n in a.candidates && Excluded(a, a.candidates[n].locator)
  }

  predicate Busies(a: Actor, owner: Text) {
    || (exists n :: n in a.leased && a.leased[n].name == owner)
    || (exists i :: 0 <= i < |a.pending| && a.pending[i].request.owner == owner)
    || (a.pending == [] && a.candidates != map[])
  }

  function Min(x: int, y: int): int { if x <= y then x else y }
  function Max(x: int, y: int): int { if x <= y then y else x }

  // ---------- Commands ----------

  predicate Superseded(p: Pending, request: BindRequest) {
    p.request.owner == request.owner && p.request.mac == request.mac && p.request.generation < request.generation
  }

  /** The binds a new request leaves standing, in order. */
  function Standing(pending: seq<Pending>, request: BindRequest): seq<Pending> {
    if pending == [] then []
    else
      var (front, p) := (Standing(pending[..|pending| - 1], request), pending[|pending| - 1]);
      if Superseded(p, request) then front else front + [p]
  }

  /** A first bind forgets old faults; new parameters give failed ports another chance. */
  function Admit(a: Actor, request: BindRequest, reply: ReplyId, now: Millis): Actor {
    var known := exists i :: 0 <= i < |a.pending| && a.pending[i].request.parameters == request.parameters;
    var added := Pending(request, reply, now, request.mac !in a.locations, Min(request.deadline, now + SCAN_WINDOW));
    a.(pending := a.pending + [added],
       errors := if a.pending == [] then map[] else a.errors,
       failed := if known then a.failed else {})
  }

  function OnBind(a: Actor, request: BindRequest, reply: ReplyId, o: Outside): Change {
    if reply in o.gone then Same(a)
    else
      var kept := a.(pending := Standing(a.pending, request));
      if HasRival(kept.pending, request)
      then Change(kept, [BindRefused(reply, Busy)])
      else Same(Admit(kept, request, reply, o.now))
  }

  predicate ExcludeConflicts(a: Actor, selectors: seq<PortSelector>) {
    exists i, n :: 0 <= i < |selectors| && n in a.leased
                   && selectors[i] !in a.exclusions && Matches(a.leased[n].locator, selectors[i], a.links)
  }

  function OnExclude(a: Actor, selectors: seq<PortSelector>, reply: ReplyId): Change {
    if ExcludeConflicts(a, selectors)
    then Change(a, [ExcludeAnswered(reply, false)])
    else Same(a.(exclusions := selectors, excludedReplies := a.excludedReplies + [reply]))
  }

  function OnReserve(a: Actor, port: PortLocator, reply: ReplyId): Change {
    if port.name in a.leased || IsReserved(a.reservations, port.name)
    then Change(a, [ReservationRefused(reply)])
    else Same(a.(reservations := a.reservations + [Reservation(port, reply)]))
  }

  function OnCommand(a: Actor, c: Command, o: Outside): Change {
    match c
    case Bind(request, reply) => OnBind(a, request, reply, o)
    case Exclude(selectors, reply) =>
      OnExclude(a, selectors, reply)
    case Reserve(port, reply) =>
      OnReserve(a, port, reply)
    case Release(name, token) =>
      if name in a.leased && a.leased[name].token == token then Same(a.(leased := a.leased - {name})) else Same(a)
    case Confirm(mac, locator, token) =>
      if locator.name in a.leased && a.leased[locator.name].token == token
      then Same(a.(locations := a.locations[mac := locator]))
      else Same(a)
    case Invalidate(mac) => Same(a.(locations := a.locations - {mac}))
    case WaitOwner(owner, reply) => Same(a.(releaseWaiters := a.releaseWaiters + [Waiter(owner, reply)]))
  }

  // ---------- Events ----------

  predicate Wants(p: Pending, id: Text, o: Outside) {
    p.request.serialId == id && p.reply !in o.gone && p.request.deadline > o.now
  }

  /** The first pending bind that wants an identity; the number of binds if none does. */
  function Position(pending: seq<Pending>, id: Text, o: Outside): (k: nat)
    ensures k <= |pending|
    ensures k < |pending| ==> Wants(pending[k], id, o)
    ensures forall i :: 0 <= i < k ==> !Wants(pending[i], id, o)
  {
    if pending == [] then 0
    else
      var k := Position(pending[..|pending| - 1], id, o);
      if k < |pending| - 1 || Wants(pending[k], id, o) then k else k + 1
  }

  function GrantLease(a: Actor, k: nat, l: PortLocator, stream: Stream): Change
    requires k < |a.pending|
  {
    var (p, token) := (a.pending[k], a.sequence + 1);
    Change(a.(pending := a.pending[..k] + a.pending[k + 1..],
              sequence := token,
              leased := a.leased[l.name := Owner(token, p.request.owner, l)]),
           [LeaseGranted(p.reply, p.request, l, token, stream)])
  }

  function CloseStale(a: Actor, l: PortLocator, generation: nat, stream: Stream): Change {
    Change(a.(candidates := a.candidates[l.name := Candidate(generation, l, true)]),
           [CloseStarted(l, generation, stream)])
  }

  predicate Owns(a: Actor, name: Text, generation: nat) {
    name in a.candidates && a.candidates[name].generation == generation
  }

  function OnFound(a: Actor, l: PortLocator, generation: nat, id: Text, stream: Stream, o: Outside): Change {
    var current := Owns(a, l.name, generation) && !a.candidates[l.name].closing;
    var rest := if Owns(a, l.name, generation) then a.(candidates := a.candidates - {l.name}) else a;
    var k := Position(a.pending, id, o);
    if current && k < |a.pending| && o.alive
    then GrantLease(rest, k, l, stream)
    else CloseStale(rest, l, generation, stream)
  }

  function OnEvent(a: Actor, e: Event, o: Outside): Change {
    match e
    case Fault(name, error) => Same(a.(errors := a.errors[name := error]))
    case Inventory(None) => Same(a.(enumerating := false))
    case Inventory(Some(ports)) => Same(a.(enumerating := false, ports := ports))
    case Closed(name, generation) =>
      if name in a.candidates && a.candidates[name].generation == generation then
        Same(a.(candidates := a.candidates - {name},
                failed := if a.candidates[name].closing then a.failed else a.failed + {name}))
      else Same(a)
    case Found(locator, generation, id, stream) => OnFound(a, locator, generation, id, stream, o)
  }

  // ---------- Reconciling ----------

  /** Handles items one by one. */
  function Fold<T>(step: (Actor, T) -> Change, a: Actor, items: seq<T>): Change {
    if items == [] then Same(a)
    else
      var c := Fold(step, a, items[..|items| - 1]);
      Then(c, step(c.actor, items[|items| - 1]))
  }

  function ScanWindow(pending: seq<Pending>): Millis {
    Max(SCAN_WINDOW, SCAN_TURN * |set i | 0 <= i < |pending| :: pending[i].request.parameters|)
  }

  /** A bind that is not scanning gives its remembered port one second; then it scans too. */
  function Deadlines(p: Pending, window: Millis, now: Millis): Pending {
    var late := !p.scanning && now - p.started >= LOCATION_GRACE;
    var q := if late then p.(scanning := true, scanDeadline := Min(p.request.deadline, now + window)) else p;
    if q.scanning
    then q.(scanDeadline := Max(q.scanDeadline, Min(q.started + window, q.request.deadline)))
    else q
  }

  predicate Overdue(p: Pending, now: Millis) {
    p.request.deadline <= now || (p.scanning && p.scanDeadline <= now)
  }

  function ExpireOne(a: Actor, p: Pending, window: Millis, o: Outside): Change {
    if p.reply in o.gone then Same(a)
    else
      var q := Deadlines(p, window, o.now);
      var forgotten := a.locations - {p.request.mac};
      if Overdue(q, o.now) then
        Change(a.(locations := forgotten),
               [BindRefused(p.reply, if a.errors == map[] then Timeout else DiscoveryFailed(a.errors))])
      else
        Same(a.(locations := if q.scanning && !p.scanning then forgotten else a.locations,
                pending := a.pending + [q]))
  }

  function Expirer(window: Millis, o: Outside): (Actor, Pending) -> Change {
    (a, p) => ExpireOne(a, p, window, o)
  }

  function Expire(a: Actor, o: Outside): Change {
    Fold(Expirer(ScanWindow(a.pending), o), a.(pending := []), a.pending)
  }

  function Expectations(pending: seq<Pending>): seq<(Text, nat)> {
    if pending == [] then []
    else
      var p := pending[|pending| - 1];
      Expectations(pending[..|pending| - 1]) + [(p.request.serialId, p.request.parameters)]
  }

  /** What running scans may look for from now on. */
  function Publish(a: Actor): Actor { a.(expected := Expectations(a.pending)) }

  predicate MustClose(a: Actor, c: Candidate) {
    a.pending == [] || Excluded(a, c.locator) || IsReserved(a.reservations, c.locator.name)
  }

  function Stopped(a: Actor, c: Candidate): Candidate {
    if MustClose(a, c) then c.(closing := true) else c
  }

  function CloseCandidates(a: Actor): Actor {
    a.(candidates := map n | n in a.candidates :: Stopped(a, a.candidates[n]))
  }

  function Accepted(replies: seq<ReplyId>): seq<Effect> {
    if replies == [] then []
    else Accepted(replies[..|replies| - 1]) + [ExcludeAnswered(replies[|replies| - 1], true)]
  }

  function AnswerExcludes(a: Actor): Change {
    if AnyExcludedCandidate(a) then Same(a)
    else Change(a.(excludedReplies := []), Accepted(a.excludedReplies))
  }

  function GrantOne(a: Actor, r: Reservation, o: Outside): Change {
    if r.reply in o.gone then Same(a)
    else if r.port.name in a.candidates then Same(a.(reservations := a.reservations + [r]))
    else if !o.alive then Same(a)
    else
      var token := a.sequence + 1;
      Change(a.(sequence := token, leased := a.leased[r.port.name := Owner(token, "manual", r.port)]),
             [ReservationGranted(r.reply, r.port, token)])
  }

  function Granter(o: Outside): (Actor, Reservation) -> Change { (a, r) => GrantOne(a, r, o) }

  function GrantReservations(a: Actor, o: Outside): Change {
    Fold(Granter(o), a.(reservations := []), a.reservations)
  }

  function AnswerOne(a: Actor, w: Waiter, o: Outside): Change {
    if w.reply in o.gone then Same(a)
    else if Busies(a, w.owner) then Same(a.(releaseWaiters := a.releaseWaiters + [w]))
    else Change(a, [OwnerReleased(w.owner, w.reply)])
  }

  function Answerer(o: Outside): (Actor, Waiter) -> Change { (a, w) => AnswerOne(a, w, o) }

  function AnswerWaiters(a: Actor, o: Outside): Change {
    Fold(Answerer(o), a.(releaseWaiters := []), a.releaseWaiters)
  }

  function SerialCount(ports: seq<PortLocator>, number: Option<Text>): nat {
    if ports == [] then 0
    else SerialCount(ports[..|ports| - 1], number) + if ports[|ports| - 1].serialNumber == number then 1 else 0
  }

  /** Whether a remembered location is this port, under another name perhaps. */
  predicate SamePort(remembered: PortLocator, l: PortLocator, serialCount: nat) {
    || remembered.name == l.name
    || (exists i :: 0 <= i < |remembered.aliases| && remembered.aliases[i] in l.aliases)
    || (remembered.serialNumber.Some? && remembered.serialNumber == l.serialNumber && serialCount == 1)
  }

  predicate Cached(a: Actor, l: PortLocator) {
    exists i :: 0 <= i < |a.pending| && a.pending[i].request.mac in a.locations
                && SamePort(a.locations[a.pending[i].request.mac], l, SerialCount(a.ports, l.serialNumber))
  }

  predicate Unavailable(a: Actor, l: PortLocator) {
    || l.name in a.candidates
    || l.name in a.leased
    || l.name in a.failed
    || Excluded(a, l)
    || IsReserved(a.reservations, l.name)
  }

  predicate AnyScanning(a: Actor) { exists i :: 0 <= i < |a.pending| && a.pending[i].scanning }

  function StartOne(a: Actor, l: PortLocator): Change {
    if Unavailable(a, l) || (!AnyScanning(a) && !Cached(a, l)) then Same(a)
    else
      var generation := a.sequence + 1;
      Change(a.(sequence := generation, candidates := a.candidates[l.name := Candidate(generation, l, false)]),
             [ScanStarted(l, generation)])
  }

  function Starter(): (Actor, PortLocator) -> Change { (a, l) => StartOne(a, l) }

  function Enumerate(a: Actor, now: Millis): Change {
    if a.enumerating || now < a.nextEnumeration then Same(a)
    else Change(a.(enumerating := true, nextEnumeration := now + ENUMERATION_PERIOD), [EnumerationStarted])
  }

  function StartScans(a: Actor, now: Millis): Change {
    if a.pending == [] then Same(a)
    else
      var c := Enumerate(a, now);
      Then(c, Fold(Starter(), c.actor, c.actor.ports))
  }

  /** One pass after every input. What is gone can change while the pass runs. */
  function Reconcile(a: Actor, expiring: Outside, granting: Outside, answering: Outside): Change {
    var expired := Expire(a, expiring);
    var closed := Change(CloseCandidates(Publish(expired.actor)), expired.effects);
    var excluded := Then(closed, AnswerExcludes(closed.actor));
    var granted := Then(excluded, GrantReservations(excluded.actor, granting));
    var answered := Then(granted, AnswerWaiters(granted.actor, answering));
    Then(answered, StartScans(answered.actor, expiring.now))
  }

  // ---------- What a command or an event means to its sender ----------

  /** The actor's own books. */
  predicate Books(a: Actor) {
    && a.candidates.Keys !! a.leased.Keys
    && (forall n :: n in a.candidates ==> a.candidates[n].locator.name == n && 0 < a.candidates[n].generation <= a.sequence)
    && (forall n :: n in a.leased ==> a.leased[n].locator.name == n && 0 < a.leased[n].token <= a.sequence)
  }

  predicate DistinctPorts(rs: seq<Reservation>) {
    forall i, j :: 0 <= i < j < |rs| ==> rs[i].port.name != rs[j].port.name
  }

  predicate NoneLeased(a: Actor, rs: seq<Reservation>) {
    forall i :: 0 <= i < |rs| ==> rs[i].port.name !in a.leased
  }

  /** Binds that wait want different devices and different identities. */
  predicate NoRivals(pending: seq<Pending>) {
    forall i, j :: 0 <= i < j < |pending| ==> !Rivals(pending[i], pending[j].request)
  }

  predicate Silent(e: Effect) {
    !e.LeaseGranted? && !e.ReservationGranted? && !e.ScanStarted? && !e.CloseStarted?
  }

  lemma {:induction false} StandingNoRivals(pending: seq<Pending>, request: BindRequest)
    requires NoRivals(pending)
    ensures NoRivals(Standing(pending, request))
    ensures forall x :: x in Standing(pending, request) ==> x in pending
  {
    if pending != [] {
      var front, p := pending[..|pending| - 1], pending[|pending| - 1];
      StandingNoRivals(front, request);
      assert forall x :: x in Standing(front, request) ==> !Rivals(x, p.request);
    }
  }

  lemma AdmittedNoRivals(kept: seq<Pending>, added: Pending)
    requires NoRivals(kept) && !HasRival(kept, added.request)
    ensures NoRivals(kept + [added])
  {
    forall i, j | 0 <= i < j < |kept + [added]| ensures !Rivals((kept + [added])[i], (kept + [added])[j].request) {
      assert (kept + [added])[i] == kept[i];
    }
  }

  lemma DropOneNoRivals(pending: seq<Pending>, k: nat)
    requires NoRivals(pending) && k < |pending|
    ensures NoRivals(pending[..k] + pending[k + 1..])
  {
    var rest := pending[..k] + pending[k + 1..];
    forall i, j | 0 <= i < j < |rest| ensures !Rivals(rest[i], rest[j].request) {
      assert rest[i] == pending[if i < k then i else i + 1];
      assert rest[j] == pending[if j < k then j else j + 1];
    }
  }

  /** Nothing that may not be together is: a port scanned and leased, two rivals, two reservations of a
      port, or a reservation that waits for a leased one. */
  predicate InOrder(a: Actor) {
    Books(a) && NoRivals(a.pending) && DistinctPorts(a.reservations) && NoneLeased(a, a.reservations)
  }

  /** A bind that the new request does not supersede, and that wants the same device or identity. */
  predicate StandsAgainst(pending: seq<Pending>, request: BindRequest) {
    exists i :: 0 <= i < |pending| && !Superseded(pending[i], request) && Rivals(pending[i], request)
  }

  lemma {:induction false} StandingMeans(pending: seq<Pending>, request: BindRequest)
    ensures forall p :: p in Standing(pending, request) <==> p in pending && !Superseded(p, request)
  {
    hide Superseded;
    if pending != [] {
      StandingMeans(pending[..|pending| - 1], request);
      assert pending == pending[..|pending| - 1] + [pending[|pending| - 1]];
    }
  }

  /** A later boot of the same device, asked for by the same owner. */
  lemma SupersededMeans(p: Pending, request: BindRequest)
    ensures Superseded(p, request)
            <==> (p.request.owner, p.request.mac) == (request.owner, request.mac) && request.generation > p.request.generation
  {}

  lemma {:induction false} StandingNone(pending: seq<Pending>, request: BindRequest)
    ensures Standing(pending, request) == [] <==> forall p :: p in pending ==> Superseded(p, request)
  {
    hide Superseded;
    StandingMeans(pending, request);
    if Standing(pending, request) != [] {
      assert Standing(pending, request)[0] in pending;
    }
  }

  /** Whether a bind that the new request leaves standing has the same parameters. */
  predicate ParametersStand(pending: seq<Pending>, request: BindRequest) {
    exists p :: p in pending && !Superseded(p, request) && p.request.parameters == request.parameters
  }

  /** A bind is refused exactly while an unsuperseded rival waits, and then changes nothing but who is
      superseded. Otherwise it waits behind those it leaves standing, and scans if no port is remembered for
      its device; ports that failed get another chance exactly if its parameters are new, and old faults are
      forgotten exactly if it waits alone. */
  lemma BindMeans(a: Actor, request: BindRequest, reply: ReplyId, o: Outside)
    requires reply !in o.gone
    ensures var c := OnBind(a, request, reply, o); var kept := Standing(a.pending, request);
            if StandsAgainst(a.pending, request) then
              c == Change(a.(pending := kept), [BindRefused(reply, Busy)])
            else
              && c.effects == []
              && c.actor.pending == kept + [Pending(request, reply, o.now, request.mac !in a.locations,
                                                    Min(request.deadline, o.now + 5000))]
              && c.actor.failed == (if ParametersStand(a.pending, request) then a.failed else {})
              && c.actor.errors == (if forall p :: p in a.pending ==> Superseded(p, request) then map[] else a.errors)
              && c.actor == a.(pending := c.actor.pending, failed := c.actor.failed, errors := c.actor.errors)
  {
    hide Superseded, HasRival, StandsAgainst, ParametersStand, Min, Standing;
    var kept := Standing(a.pending, request);
    StandingMeans(a.pending, request);
    StandingNone(a.pending, request);
    KnownParameters(a.pending, kept, request);
    RivalStands(a.pending, kept, request);
  }

  lemma BindNoRivals(a: Actor, request: BindRequest, reply: ReplyId, o: Outside)
    requires NoRivals(a.pending)
    ensures NoRivals(OnBind(a, request, reply, o).actor.pending)
  {
    hide Superseded, HasRival, Min, Standing, NoRivals;
    var kept := Standing(a.pending, request);
    StandingNoRivals(a.pending, request);
    if reply !in o.gone && !HasRival(kept, request) {
      var p := OnBind(a, request, reply, o).actor.pending;
      assert p == kept + [p[|kept|]];
      AdmittedNoRivals(kept, p[|kept|]);
    }
  }

  lemma KnownParameters(pending: seq<Pending>, kept: seq<Pending>, request: BindRequest)
    requires forall p :: p in kept <==> p in pending && !Superseded(p, request)
    ensures ParametersStand(pending, request)
            <==> exists i :: 0 <= i < |kept| && kept[i].request.parameters == request.parameters
  {
    hide Superseded;
    if ParametersStand(pending, request) {
      var p :| p in pending && !Superseded(p, request) && p.request.parameters == request.parameters;
      assert p in kept;
    }
    if i :| 0 <= i < |kept| && kept[i].request.parameters == request.parameters {
      assert kept[i] in pending;
    }
  }

  lemma RivalStands(pending: seq<Pending>, kept: seq<Pending>, request: BindRequest)
    requires forall p :: p in kept <==> p in pending && !Superseded(p, request)
    ensures HasRival(kept, request) <==> StandsAgainst(pending, request)
  {
    hide Superseded, Rivals;
    if HasRival(kept, request) {
      var i :| 0 <= i < |kept| && Rivals(kept[i], request);
      assert kept[i] in pending;
    }
    if StandsAgainst(pending, request) {
      var i :| 0 <= i < |pending| && !Superseded(pending[i], request) && Rivals(pending[i], request);
      assert pending[i] in kept;
    }
  }

  /** Whether a reported stream goes to a bind. */
  predicate Leasable(a: Actor, name: Text, generation: nat, id: Text, o: Outside) {
    && Owns(a, name, generation) && !a.candidates[name].closing && o.alive
    && exists i :: 0 <= i < |a.pending| && Wants(a.pending[i], id, o)
  }

  /** This bind waits no more, and its owner has the port, under the newest token. */
  predicate HandedOver(a: Actor, b: Actor, k: nat, l: PortLocator)
    requires k < |a.pending|
  {
    && b == a.(pending := a.pending[..k] + a.pending[k + 1..], sequence := a.sequence + 1,
               candidates := a.candidates - {l.name},
               leased := a.leased[l.name := Owner(b.sequence, a.pending[k].request.owner, l)])
  }

  /** Only the candidate entry of the port changed: it is being closed. */
  predicate KeptClosing(a: Actor, b: Actor, l: PortLocator, generation: nat) {
    b == a.(candidates := a.candidates[l.name := Candidate(generation, l, true)])
  }

  /** The stream goes to the first bind that wants it; or its port stays a candidate that is being closed,
      and nobody is given anything. */
  lemma FoundMeans(a: Actor, l: PortLocator, generation: nat, id: Text, stream: Stream, o: Outside)
    ensures var c := OnFound(a, l, generation, id, stream, o);
            if Leasable(a, l.name, generation, id, o) then
              var k := Position(a.pending, id, o);
              && k < |a.pending| && Wants(a.pending[k], id, o) && (forall i :: 0 <= i < k ==> !Wants(a.pending[i], id, o))
              && HandedOver(a, c.actor, k, l)
              && c.effects == [LeaseGranted(a.pending[k].reply, a.pending[k].request, l, c.actor.sequence, stream)]
            else
              KeptClosing(a, c.actor, l, generation) && c.effects == [CloseStarted(l, generation, stream)]
  {
    hide Wants;
    var rest := if Owns(a, l.name, generation) then a.(candidates := a.candidates - {l.name}) else a;
    assert rest.candidates[l.name := Candidate(generation, l, true)] == a.candidates[l.name := Candidate(generation, l, true)];
  }

  /** Commands give out no port: entries stay, except that a release takes out the one it names with its
      token. */
  lemma CommandMeans(a: Actor, c: Command, o: Outside)
    ensures var b := OnCommand(a, c, o).actor;
            && b.candidates == a.candidates && b.sequence == a.sequence
            && (if c.Release? && c.name in a.leased && a.leased[c.name].token == c.token
                then b.leased == a.leased - {c.name} else b.leased == a.leased)
            && (forall i :: 0 <= i < |OnCommand(a, c, o).effects| ==> Silent(OnCommand(a, c, o).effects[i]))
  {
    hide OnBind, ExcludeConflicts, IsReserved;
    if c.Bind? {
      BindOnly(a, c.request, c.reply, o);
    }
  }

  /** A device is remembered at a port if the holder of the port's lease confirms it by its token, and forgotten
      if it is told to be elsewhere. */
  lemma CommandRemembers(a: Actor, c: Command, o: Outside)
    ensures OnCommand(a, c, o).actor.locations
            == if c.Confirm? && c.locator.name in a.leased && a.leased[c.locator.name].token == c.token
               then a.locations[c.mac := c.locator]
               else if c.Invalidate? then a.locations - {c.mac} else a.locations
  {
    hide OnBind, ExcludeConflicts, IsReserved;
    if c.Bind? {
      BindOnly(a, c.request, c.reply, o);
    }
  }

  /** No command breaks the books. */
  lemma CommandBooks(a: Actor, c: Command, o: Outside)
    requires InOrder(a)
    ensures InOrder(OnCommand(a, c, o).actor)
  {
    hide OnBind, ExcludeConflicts, NoRivals, DistinctPorts;
    match c
    case Bind(request, reply) =>
      BindOnly(a, request, reply, o);
      BindNoRivals(a, request, reply, o);
    case Reserve(port, reply) =>
      ReserveMeans(a, port, reply);
    case _ =>
  }

  lemma ReserveMeans(a: Actor, port: PortLocator, reply: ReplyId)
    ensures var b := OnReserve(a, port, reply).actor;
            && (DistinctPorts(a.reservations) ==> DistinctPorts(b.reservations))
            && (NoneLeased(a, a.reservations) ==> NoneLeased(b, b.reservations))
            && (b == a || IsReserved(b.reservations, port.name))
  {
    var b := OnReserve(a, port, reply).actor;
    if b != a {
      assert b.reservations[|a.reservations|] == Reservation(port, reply);
    }
  }

  lemma BindOnly(a: Actor, request: BindRequest, reply: ReplyId, o: Outside)
    ensures var c := OnBind(a, request, reply, o);
            && c.actor == a.(pending := c.actor.pending, errors := c.actor.errors, failed := c.actor.failed)
            && (reply in o.gone ==> c == Same(a))
            && forall i :: 0 <= i < |c.effects| ==> c.effects[i].BindRefused?
  {
    hide Standing, HasRival, Min;
  }

  /** No leased port comes under an exclusion that did not cover it before. */
  predicate NoNewlyExcluded(a: Actor, b: Actor) {
    forall n :: n in a.leased && Excluded(b, a.leased[n].locator) ==> Excluded(a, a.leased[n].locator)
  }

  lemma ExcludeMeans(a: Actor, selectors: seq<PortSelector>, reply: ReplyId)
    ensures NoNewlyExcluded(a, OnExclude(a, selectors, reply).actor)
  {
    hide Matches;
    var b := OnExclude(a, selectors, reply).actor;
    forall n | n in a.leased && Excluded(b, a.leased[n].locator) ensures Excluded(a, a.leased[n].locator) {
      var i :| 0 <= i < |b.exclusions| && Matches(a.leased[n].locator, b.exclusions[i], b.links);
      if b.exclusions[i] in a.exclusions {
        var j :| 0 <= j < |a.exclusions| && a.exclusions[j] == b.exclusions[i];
        assert Matches(a.leased[n].locator, a.exclusions[j], a.links);
      }
    }
  }

  // ---------- The class ----------

  class Discovery {
    var pending: seq<Pending>
    var candidates: map<Text, Candidate>
    var leased: map<Text, Owner>
    var locations: map<Text, PortLocator>
    var exclusions: seq<PortSelector>
    var excludedReplies: seq<ReplyId>
    var reservations: seq<Reservation>
    var releaseWaiters: seq<Waiter>
    var failed: set<Text>
    var errors: map<Text, Text>
    var expected: seq<(Text, nat)>
    var sequence: nat
    var ports: seq<PortLocator>
    var enumerating: bool
    var nextEnumeration: Millis
    const links: map<Text, Text>
    /** Everything sent and started so far. */
    var sent: seq<Effect>

    function View(): Actor
      reads this
    {
      Actor(pending, candidates, leased, locations, exclusions, excludedReplies, reservations, releaseWaiters,
            failed, errors, expected, sequence, ports, enumerating, nextEnumeration, links)
    }

    /** This state and output continue an earlier one by a change. */
    twostate predicate Made(c: Change)
      reads this
    {
      View() == c.actor && sent == old(sent) + c.effects
    }

    constructor (now: Millis, links: map<Text, Text>)
      ensures View() == Initial(now, links) && sent == []
    {
      pending, candidates, leased, locations := [], map[], map[], map[];
      exclusions, excludedReplies, reservations, releaseWaiters := [], [], [], [];
      failed, errors, expected, sequence := {}, map[], [], 0;
      ports, enumerating, nextEnumeration := [], false, now;
      this.links, sent := links, [];
    }

    /** Refused as busy exactly while an unsuperseded rival waits; otherwise it waits behind exactly those
        it does not supersede, and still no two binds that wait are rivals. Failed ports get another chance
        exactly if nobody it leaves standing has its parameters; faults are forgotten if nobody stands. */
    method HandleBind(request: BindRequest, reply: ReplyId, o: Outside)
      modifies this`pending, this`errors, this`failed, this`sent
      ensures Made(OnBind(old(View()), request, reply, o))
      ensures reply in o.gone ==> View() == old(View()) && sent == old(sent)
      ensures reply !in o.gone && StandsAgainst(old(pending), request) ==>
                && sent == old(sent) + [BindRefused(reply, Busy)] && failed == old(failed) && errors == old(errors)
                && pending == Standing(old(pending), request)
      ensures reply !in o.gone && !StandsAgainst(old(pending), request) ==>
                && sent == old(sent)
                && pending == Standing(old(pending), request)
                              + [Pending(request, reply, o.now, request.mac !in locations,
                                         Min(request.deadline, o.now + 5000))]
                && failed == (if ParametersStand(old(pending), request) then old(failed) else {})
                && errors == (if forall p :: p in old(pending) ==> Superseded(p, request) then map[] else old(errors))
      ensures NoRivals(old(pending)) ==> NoRivals(pending)
    {
      hide HasRival, Standing, Admit, NoRivals, StandsAgainst, Superseded, ParametersStand, Min;
      if reply !in o.gone {
        BindMeans(View(), request, reply, o);
      }
      if NoRivals(pending) {
        BindNoRivals(View(), request, reply, o);
      }
      if reply in o.gone {
        return;
      }
      pending := FindStanding(request);
      if HasRival(pending, request) {
        sent := sent + [BindRefused(reply, Busy)];
        return;
      }
      AdmitBind(request, reply, o.now);
    }

    method AdmitBind(request: BindRequest, reply: ReplyId, now: Millis)
      modifies this`pending, this`errors, this`failed
      ensures View() == Admit(old(View()), request, reply, now)
    {
      hide Min;
      if pending == [] {
        errors := map[];
      }
      if !(exists i :: 0 <= i < |pending| && pending[i].request.parameters == request.parameters) {
        failed := {};
      }
      var scanning := request.mac !in locations;
      pending := pending + [Pending(request, reply, now, scanning, Min(request.deadline, now + SCAN_WINDOW))];
    }

    method FindStanding(request: BindRequest) returns (kept: seq<Pending>)
      ensures kept == Standing(pending, request)
    {
      hide Superseded;
      kept := [];
      for i := 0 to |pending|
        invariant kept == Standing(pending[..i], request)
      {
        assert pending[..i + 1][..i] == pending[..i];
        if !Superseded(pending[i], request) {
          kept := kept + [pending[i]];
        }
      }
      assert pending[..|pending|] == pending;
    }

    /** Refused exactly if a selector that was not in force matches a leased port; so none ever comes under
        a new exclusion. The answer to an accepted request waits for the scans. */
    method HandleExclude(selectors: seq<PortSelector>, reply: ReplyId)
      modifies this`exclusions, this`excludedReplies, this`sent
      ensures Made(OnExclude(old(View()), selectors, reply))
      ensures ExcludeConflicts(old(View()), selectors) ==>
                sent == old(sent) + [ExcludeAnswered(reply, false)] && View() == old(View())
      ensures !ExcludeConflicts(old(View()), selectors) ==>
                sent == old(sent) && exclusions == selectors && reply in excludedReplies
      ensures NoNewlyExcluded(old(View()), View())
    {
      hide ExcludeConflicts, NoNewlyExcluded;
      ExcludeMeans(View(), selectors, reply);
      if ExcludeConflicts(View(), selectors) {
        sent := sent + [ExcludeAnswered(reply, false)];
        return;
      }
      exclusions := selectors;
      excludedReplies := excludedReplies + [reply];
    }

    /** Refused exactly if the port is leased or asked for; so reservations that wait stay for different
        ports, none of them leased. */
    method HandleReserve(port: PortLocator, reply: ReplyId)
      modifies this`reservations, this`sent
      ensures Made(OnReserve(old(View()), port, reply))
      ensures if port.name in leased || IsReserved(old(reservations), port.name)
              then sent == old(sent) + [ReservationRefused(reply)] && reservations == old(reservations)
              else sent == old(sent) && IsReserved(reservations, port.name)
      ensures DistinctPorts(old(reservations)) ==> DistinctPorts(reservations)
      ensures NoneLeased(old(View()), old(reservations)) ==> NoneLeased(View(), reservations)
    {
      hide IsReserved, DistinctPorts, NoneLeased;
      ReserveMeans(View(), port, reply);
      if port.name in leased || IsReserved(reservations, port.name) {
        sent := sent + [ReservationRefused(reply)];
      } else {
        reservations := reservations + [Reservation(port, reply)];
      }
    }

    /** No command gives out a port: candidates and the token counter stay, and of the leased ports only the
        one a release names with its token goes. Only the holder of a port can make it a remembered one. */
    method HandleCommand(c: Command, o: Outside)
      modifies this
      ensures Made(OnCommand(old(View()), c, o))
      ensures candidates == old(candidates) && sequence == old(sequence)
      ensures leased == if c.Release? && c.name in old(leased) && old(leased)[c.name].token == c.token
                        then old(leased) - {c.name} else old(leased)
      ensures locations == if c.Confirm? && c.locator.name in leased && leased[c.locator.name].token == c.token
                           then old(locations)[c.mac := c.locator]
                           else if c.Invalidate? then old(locations) - {c.mac} else old(locations)
      ensures |old(sent)| <= |sent| && forall i :: |old(sent)| <= i < |sent| ==> Silent(sent[i])
      ensures InOrder(old(View())) ==> InOrder(View())
    {
      hide OnBind, OnExclude, OnReserve, InOrder, NoRivals, DistinctPorts, NoneLeased, StandsAgainst, Superseded;
      hide ExcludeConflicts, NoNewlyExcluded, IsReserved, Silent;
      CommandMeans(View(), c, o);
      CommandRemembers(View(), c, o);
      if InOrder(View()) {
        CommandBooks(View(), c, o);
      }
      match c
      case Bind(request, reply) =>
        HandleBind(request, reply, o);
      case Exclude(selectors, reply) =>
        HandleExclude(selectors, reply);
      case Reserve(port, reply) =>
        HandleReserve(port, reply);
      case Release(name, token) =>
        if name in leased && leased[name].token == token {
          leased := leased - {name};
        }
      case Confirm(mac, locator, token) =>
        if locator.name in leased && leased[locator.name].token == token {
          locations := locations[mac := locator];
        }
      case Invalidate(mac) =>
        locations := locations - {mac};
      case WaitOwner(owner, reply) =>
        releaseWaiters := releaseWaiters + [Waiter(owner, reply)];
    }

    method NextToken() returns (token: nat)
      modifies this`sequence
      ensures token == sequence == old(sequence) + 1
    {
      sequence := sequence + 1;
      token := sequence;
    }

    method FindPosition(id: Text, o: Outside) returns (k: nat)
      ensures k == Position(pending, id, o)
    {
      k := 0;
      while k < |pending| && !Wants(pending[k], id, o)
        invariant k <= |pending| && forall i :: 0 <= i < k ==> !Wants(pending[i], id, o)
      {
        k := k + 1;
      }
    }

    method Grant(k: nat, l: PortLocator, stream: Stream)
      requires k < |pending|
      modifies this`pending, this`sequence, this`leased, this`sent
      ensures Made(GrantLease(old(View()), k, l, stream))
    {
      var p := pending[k];
      pending := pending[..k] + pending[k + 1..];
      var token := NextToken();
      leased := leased[l.name := Owner(token, p.request.owner, l)];
      sent := sent + [LeaseGranted(p.reply, p.request, l, token, stream)];
    }

    /** A leasable stream goes to the first bind that wants it, under a new token; any other keeps its port
        until it is closed. No other port is touched. */
    method HandleFound(l: PortLocator, generation: nat, id: Text, stream: Stream, o: Outside)
      modifies this
      ensures Made(OnFound(old(View()), l, generation, id, stream, o))
      ensures Leasable(old(View()), l.name, generation, id, o) ==>
                var k := Position(old(pending), id, o);
                && k < |old(pending)| && HandedOver(old(View()), View(), k, l)
                && sent == old(sent) + [LeaseGranted(old(pending)[k].reply, old(pending)[k].request, l, sequence, stream)]
      ensures !Leasable(old(View()), l.name, generation, id, o) ==>
                KeptClosing(old(View()), View(), l, generation) && sent == old(sent) + [CloseStarted(l, generation, stream)]
    {
      hide Position, GrantLease, CloseStale, Leasable, HandedOver, KeptClosing;
      FoundMeans(View(), l, generation, id, stream, o);
      var current := l.name in candidates && candidates[l.name].generation == generation && !candidates[l.name].closing;
      if l.name in candidates && candidates[l.name].generation == generation {
        candidates := candidates - {l.name};
      }
      var k := FindPosition(id, o);
      if current && k < |pending| && o.alive {
        Grant(k, l, stream);
      } else {
        KeepUntilClosed(l, generation, stream);
      }
    }

    method KeepUntilClosed(l: PortLocator, generation: nat, stream: Stream)
      modifies this`candidates, this`sent
      ensures Made(CloseStale(old(View()), l, generation, stream))
    {
      candidates := candidates[l.name := Candidate(generation, l, true)];
      sent := sent + [CloseStarted(l, generation, stream)];
    }

    method HandleClosed(name: Text, generation: nat)
      modifies this`candidates, this`failed
      ensures if name in old(candidates) && old(candidates)[name].generation == generation
              then && candidates == old(candidates) - {name}
                   && failed == (if old(candidates)[name].closing then old(failed) else old(failed) + {name})
              else candidates == old(candidates) && failed == old(failed)
    {
      if name in candidates && candidates[name].generation == generation {
        var candidate := candidates[name];
        candidates := candidates - {name};
        if !candidate.closing {
          failed := failed + {name};
        }
      }
    }

    /** A closing message removes exactly the candidate with its generation, and remembers a scan that
        ended by itself as failed; a stale one changes nothing. Inventories and faults change no entry. */
    method HandleEvent(e: Event, o: Outside)
      modifies this
      ensures Made(OnEvent(old(View()), e, o))
      ensures e.Fault? ==> View() == old(View()).(errors := old(errors)[e.name := e.error]) && sent == old(sent)
      ensures e.Inventory? ==>
                && View() == old(View()).(enumerating := false, ports := if e.found.Some? then e.found.value else old(ports))
                && sent == old(sent)
      ensures e.Closed? && !Owns(old(View()), e.name, e.generation) ==> View() == old(View()) && sent == old(sent)
      ensures e.Closed? && Owns(old(View()), e.name, e.generation) ==>
                && View() == old(View()).(candidates := old(candidates) - {e.name},
                                          failed := if old(candidates)[e.name].closing then old(failed)
                                                    else old(failed) + {e.name})
                && sent == old(sent)
      ensures e.Found? && !Leasable(old(View()), e.locator.name, e.generation, e.id, o) ==>
                KeptClosing(old(View()), View(), e.locator, e.generation)
    {
      hide OnFound, Leasable, HandedOver, KeptClosing, Position;
      match e
      case Fault(name, error) =>
        errors := errors[name := error];
      case Inventory(found) =>
        enumerating := false;
        if found.Some? {
          ports := found.value;
        }
      case Closed(name, generation) =>
        HandleClosed(name, generation);
      case Found(locator, generation, id, stream) =>
        HandleFound(locator, generation, id, stream, o);
    }

    method ExpireItem(item: Pending, window: Millis, o: Outside)
      modifies this`pending, this`locations, this`sent
      ensures Made(ExpireOne(old(View()), item, window, o))
    {
      hide Min, Max;
      var p := item;
      if p.reply in o.gone {
        return;
      }
      if !p.scanning && o.now - p.started >= LOCATION_GRACE {
        locations := locations - {p.request.mac};
        p := p.(scanning := true, scanDeadline := Min(p.request.deadline, o.now + window));
      }
      if p.scanning {
        p := p.(scanDeadline := Max(p.scanDeadline, Min(p.started + window, p.request.deadline)));
      }
      if p.request.deadline <= o.now || (p.scanning && p.scanDeadline <= o.now) {
        locations := locations - {p.request.mac};
        sent := sent + [BindRefused(p.reply, if errors == map[] then Timeout else DiscoveryFailed(errors))];
      } else {
        pending := pending + [p];
      }
    }

    method ExpireAll(taken: seq<Pending>, window: Millis, o: Outside)
      modifies this`pending, this`locations, this`sent
      ensures Made(Fold(Expirer(window, o), old(View()), taken))
    {
      hide ExpireOne, View;
      for i := 0 to |taken|
        invariant Made(Fold(Expirer(window, o), old(View()), taken[..i]))
      {
        assert taken[..i + 1][..i] == taken[..i];
        ExpireItem(taken[i], window, o);
      }
      assert taken[..|taken|] == taken;
    }

    method ExpirePending(o: Outside)
      modifies this`pending, this`locations, this`sent
      ensures Made(Expire(old(View()), o))
    {
      hide ExpireOne, Expirer, ScanWindow, Fold;
      var taken := pending;
      pending := [];
      ExpireAll(taken, ScanWindow(taken), o);
    }

    method CloseConflicting()
      modifies this`candidates
      ensures View() == CloseCandidates(old(View()))
    {
      hide MustClose;
      ghost var was := View();
      var todo := candidates.Keys;
      while todo != {}
        invariant todo <= candidates.Keys == was.candidates.Keys
        invariant forall n :: n in candidates ==>
          candidates[n] == if n in todo then was.candidates[n] else Stopped(was, was.candidates[n])
      {
        var n :| n in todo;
        todo := todo - {n};
        Unaffected(was, View(), candidates[n]);
        if MustClose(View(), candidates[n]) {
          candidates := candidates[n := candidates[n].(closing := true)];
        }
      }
      assert candidates == CloseCandidates(was).candidates;
    }

    method ReplyExcludes()
      modifies this`excludedReplies, this`sent
      ensures Made(AnswerExcludes(old(View())))
    {
      hide Excluded;
      if AnyExcludedCandidate(View()) {
        return;
      }
      for i := 0 to |excludedReplies|
        invariant excludedReplies == old(excludedReplies)
        invariant sent == old(sent) + Accepted(excludedReplies[..i])
      {
        assert excludedReplies[..i + 1][..i] == excludedReplies[..i];
        sent := sent + [ExcludeAnswered(excludedReplies[i], true)];
      }
      assert excludedReplies[..|excludedReplies|] == excludedReplies;
      excludedReplies := [];
    }

    method GrantReservation(r: Reservation, o: Outside)
      modifies this`reservations, this`leased, this`sequence, this`sent
      ensures Made(GrantOne(old(View()), r, o))
    {
      if r.reply in o.gone {
        return;
      }
      if r.port.name in candidates {
        reservations := reservations + [r];
        return;
      }
      if o.alive {
        var token := NextToken();
        leased := leased[r.port.name := Owner(token, "manual", r.port)];
        sent := sent + [ReservationGranted(r.reply, r.port, token)];
      }
    }

    method GrantAll(taken: seq<Reservation>, o: Outside)
      modifies this`reservations, this`leased, this`sequence, this`sent
      ensures Made(Fold(Granter(o), old(View()), taken))
    {
      hide GrantOne, View;
      for i := 0 to |taken|
        invariant Made(Fold(Granter(o), old(View()), taken[..i]))
      {
        assert taken[..i + 1][..i] == taken[..i];
        GrantReservation(taken[i], o);
      }
      assert taken[..|taken|] == taken;
    }

    method ServeReservations(o: Outside)
      modifies this`reservations, this`leased, this`sequence, this`sent
      ensures Made(GrantReservations(old(View()), o))
    {
      hide GrantOne, Granter, Fold;
      var taken := reservations;
      reservations := [];
      GrantAll(taken, o);
    }

    method AnswerWaiter(w: Waiter, o: Outside)
      modifies this`releaseWaiters, this`sent
      ensures Made(AnswerOne(old(View()), w, o))
    {
      hide Busies;
      if w.reply in o.gone {
        return;
      }
      if Busies(View(), w.owner) {
        releaseWaiters := releaseWaiters + [w];
      } else {
        sent := sent + [OwnerReleased(w.owner, w.reply)];
      }
    }

    method AnswerAll(taken: seq<Waiter>, o: Outside)
      modifies this`releaseWaiters, this`sent
      ensures Made(Fold(Answerer(o), old(View()), taken))
    {
      hide AnswerOne, View;
      for i := 0 to |taken|
        invariant Made(Fold(Answerer(o), old(View()), taken[..i]))
      {
        assert taken[..i + 1][..i] == taken[..i];
        AnswerWaiter(taken[i], o);
      }
      assert taken[..|taken|] == taken;
    }

    method ServeWaiters(o: Outside)
      modifies this`releaseWaiters, this`sent
      ensures Made(AnswerWaiters(old(View()), o))
    {
      hide AnswerOne, Answerer, Fold;
      var taken := releaseWaiters;
      releaseWaiters := [];
      AnswerAll(taken, o);
    }

    method StartScan(l: PortLocator)
      modifies this`candidates, this`sequence, this`sent
      ensures Made(StartOne(old(View()), l))
    {
      hide Unavailable, AnyScanning, Cached;
      if Unavailable(View(), l) || (!AnyScanning(View()) && !Cached(View(), l)) {
        return;
      }
      var generation := NextToken();
      candidates := candidates[l.name := Candidate(generation, l, false)];
      sent := sent + [ScanStarted(l, generation)];
    }

    method StartAll(found: seq<PortLocator>)
      modifies this`candidates, this`sequence, this`sent
      ensures Made(Fold(Starter(), old(View()), found))
    {
      hide StartOne, View;
      for i := 0 to |found|
        invariant Made(Fold(Starter(), old(View()), found[..i]))
      {
        assert found[..i + 1][..i] == found[..i];
        StartScan(found[i]);
      }
      assert found[..|found|] == found;
    }

    method Discover(now: Millis)
      modifies this`enumerating, this`nextEnumeration, this`candidates, this`sequence, this`sent
      ensures Made(StartScans(old(View()), now))
    {
      hide StartOne, Starter, Fold;
      if pending == [] {
        return;
      }
      if !enumerating && now >= nextEnumeration {
        enumerating, nextEnumeration := true, now + ENUMERATION_PERIOD;
        sent := sent + [EnumerationStarted];
      }
      StartAll(ports);
    }

    method PublishExpectations()
      modifies this`expected
      ensures View() == Publish(old(View()))
    {
      var next := [];
      for i := 0 to |pending|
        invariant next == Expectations(pending[..i])
      {
        assert pending[..i + 1][..i] == pending[..i];
        next := next + [(pending[i].request.serialId, pending[i].request.parameters)];
      }
      assert pending[..|pending|] == pending;
      expected := next;
    }

    method ReconcileAll(expiring: Outside, granting: Outside, answering: Outside)
      modifies this
      ensures Made(Reconcile(old(View()), expiring, granting, answering))
    {
      hide View, Expire, Publish, CloseCandidates, AnswerExcludes, GrantReservations, AnswerWaiters, StartScans;
      ExpirePending(expiring);
      PublishExpectations();
      CloseConflicting();
      ReplyExcludes();
      ServeReservations(granting);
      ServeWaiters(answering);
      Discover(expiring.now);
    }
  }

  /** Whether a candidate must close depends on no other candidate. */
  lemma Unaffected(a: Actor, b: Actor, c: Candidate)
    requires b == a.(candidates := b.candidates)
    ensures MustClose(a, c) == MustClose(b, c)
  {}

  function Initial(now: Millis, links: map<Text, Text>): Actor {
    Actor([], map[], map[], map[], [], [], [], [], {}, map[], [], 0, [], false, now, links)
  }
}
