/** What one turn of the discovery actor does, told by its effects: who is answered, which ports are scanned
    and which are not, what is remembered and forgotten, and how long binds wait.
  */
module SerialPasses {
  import opened Options
  import opened SerialDiscovery
  import opened SerialSystem

  // ---------- The conditions, in full ----------

  /** A selector names a port by its serial number, its name, an alias, or a link that leads to it. */
  lemma MatchesMeans(l: PortLocator, links: map<Text, Text>, text: Text)
    ensures Matches(l, Path(text), links)
            <==> text == l.name || text in l.aliases || (text in links && links[text] == l.name)
    ensures Matches(l, SerialNumber(text), links) <==> l.serialNumber.Some? && l.serialNumber.value == text
  {}

  /** Whether one of the exclusions in force names a port. */
  predicate NamedByExclusion(a: Actor, l: PortLocator) {
    exists s :: s in a.exclusions && Matches(l, s, a.links)
  }

  predicate Awaited(a: Actor, name: Text) { exists r :: r in a.reservations && r.port.name == name }

  lemma ExcludedMeans(a: Actor, l: PortLocator)
    ensures Excluded(a, l) <==> NamedByExclusion(a, l)
  {
    hide Matches;
    if s :| s in a.exclusions && Matches(l, s, a.links) {
      var i :| 0 <= i < |a.exclusions| && a.exclusions[i] == s;
      assert Matches(l, a.exclusions[i], a.links);
    }
  }

  lemma ReservedMeans(a: Actor, name: Text)
    ensures IsReserved(a.reservations, name) <==> Awaited(a, name)
  {
    if IsReserved(a.reservations, name) {
      var i :| 0 <= i < |a.reservations| && a.reservations[i].port.name == name;
      assert a.reservations[i] in a.reservations;
    }
  }

  /** Nobody uses the port, nobody awaits it, no exclusion names it, and its last scan did not end by itself. */
  predicate Available(a: Actor, l: PortLocator) {
    && l.name !in a.candidates && l.name !in a.leased && l.name !in a.failed
    && !NamedByExclusion(a, l) && !Awaited(a, l.name)
  }

  /** A waiting bind's device was last confirmed at this port: under the same name, under a common alias, or
      with a serial number that no other known port has. */
  predicate RememberedFor(a: Actor, p: Pending, l: PortLocator) {
    p.request.mac in a.locations
    && var place := a.locations[p.request.mac];
       || place.name == l.name
       || (exists alias :: alias in place.aliases && alias in l.aliases)
       || (place.serialNumber.Some? && place.serialNumber == l.serialNumber
           && forall i, j :: 0 <= i < j < |a.ports| && a.ports[i].serialNumber == l.serialNumber ==>
                a.ports[j].serialNumber != l.serialNumber)
  }

  predicate WantedScan(a: Actor, l: PortLocator) {
    exists p :: p in a.pending && (p.scanning || RememberedFor(a, p, l))
  }

  lemma UnavailableMeans(a: Actor, l: PortLocator)
    ensures Unavailable(a, l) <==> !Available(a, l)
  {
    hide Excluded, NamedByExclusion, IsReserved, Awaited;
    ExcludedMeans(a, l);
    ReservedMeans(a, l.name);
  }

  lemma {:induction false} CountMeans(ports: seq<PortLocator>, number: Option<Text>)
    ensures SerialCount(ports, number) == 0 <==> forall i :: 0 <= i < |ports| ==> ports[i].serialNumber != number
    ensures SerialCount(ports, number) <= 1
            <==> forall i, j :: 0 <= i < j < |ports| && ports[i].serialNumber == number ==> ports[j].serialNumber != number
  {
    if ports != [] {
      CountMeans(ports[..|ports| - 1], number);
    }
  }

  lemma CachedMeans(a: Actor, l: PortLocator)
    requires l in a.ports
    ensures Cached(a, l) <==> exists p :: p in a.pending && RememberedFor(a, p, l)
  {
    CountMeans(a.ports, l.serialNumber);
    var k :| 0 <= k < |a.ports| && a.ports[k] == l;
    forall i | 0 <= i < |a.pending| && a.pending[i].request.mac in a.locations
      ensures SamePort(a.locations[a.pending[i].request.mac], l, SerialCount(a.ports, l.serialNumber))
              <==> RememberedFor(a, a.pending[i], l)
    {
      SamePortMeans(a, a.pending[i], l);
    }
    if p :| p in a.pending && RememberedFor(a, p, l) {
      var i :| 0 <= i < |a.pending| && a.pending[i] == p;
    }
  }

  lemma SamePortMeans(a: Actor, p: Pending, l: PortLocator)
    requires l in a.ports && p.request.mac in a.locations
    ensures SamePort(a.locations[p.request.mac], l, SerialCount(a.ports, l.serialNumber)) <==> RememberedFor(a, p, l)
  {
    hide SerialCount;
    CountMeans(a.ports, l.serialNumber);
    var place := a.locations[p.request.mac];
    var k :| 0 <= k < |a.ports| && a.ports[k] == l;
    if alias :| alias in place.aliases && alias in l.aliases {
      var i :| 0 <= i < |place.aliases| && place.aliases[i] == alias;
    }
  }

  // ---------- Which ports are scanned ----------

  lemma StartOneMeans(a: Actor, l: PortLocator)
    requires l in a.ports
    ensures var c := StartOne(a, l);
            if Available(a, l) && WantedScan(a, l) then
              && c.effects == [ScanStarted(l, a.sequence + 1)]
              && c.actor == a.(sequence := a.sequence + 1,
                               candidates := a.candidates[l.name := Candidate(a.sequence + 1, l, false)])
            else c == Same(a)
  {
    hide Unavailable, Available, Cached, RememberedFor;
    UnavailableMeans(a, l);
    CachedMeans(a, l);
    if AnyScanning(a) {
      var i :| 0 <= i < |a.pending| && a.pending[i].scanning;
      assert a.pending[i] in a.pending;
    }
    if p :| p in a.pending && p.scanning {
      var i :| 0 <= i < |a.pending| && a.pending[i] == p;
    }
  }

  predicate StartedFor(a: Actor, b: Actor, n: Text) {
    n in b.candidates && exists l :: l in a.ports && l.name == n && Available(a, l) && WantedScan(a, l)
                                     && b.candidates[n].locator == l && !b.candidates[n].closing
  }

  /** From one state to a later one of the same pass, candidates are added for ports that are available and
      wanted, and nothing else happens but the numbering. */
  predicate OnlyStarts(a: Actor, b: Actor) {
    && b == a.(candidates := b.candidates, sequence := b.sequence)
    && (forall n :: n in a.candidates ==> n in b.candidates && b.candidates[n] == a.candidates[n])
    && (forall n :: n in b.candidates && n !in a.candidates ==> StartedFor(a, b, n))
  }

  lemma AvailableLess(a: Actor, b: Actor, l: PortLocator)
    requires OnlyStarts(a, b)
    ensures Available(b, l) <==> Available(a, l) && l.name !in b.candidates
    ensures WantedScan(b, l) <==> WantedScan(a, l)
  {
    hide StartedFor, Matches;
    assert forall p :: p in a.pending ==> RememberedFor(a, p, l) == RememberedFor(b, p, l);
  }

  lemma {:induction false} StartAllMeans(a: Actor, items: seq<PortLocator>)
    requires forall i :: 0 <= i < |items| ==> items[i] in a.ports
    ensures var b := Fold(Starter(), a, items).actor;
            && OnlyStarts(a, b)
            && forall i :: 0 <= i < |items| ==> !(Available(b, items[i]) && WantedScan(b, items[i]))
  {
    hide Available, WantedScan, StartOne, StartedFor;
    if items != [] {
      var front, l := items[..|items| - 1], items[|items| - 1];
      StartAllMeans(a, front);
      var u := Fold(Starter(), a, front).actor;
      var b := StartOne(u, l).actor;
      assert Fold(Starter(), a, items).actor == b;
      StartOneMeans(u, l);
      StartMore(a, u, b, l);
      forall i | 0 <= i < |items| ensures !(Available(b, items[i]) && WantedScan(b, items[i])) {
        AvailableLess(a, u, items[i]);
        AvailableLess(a, b, items[i]);
      }
    }
  }

  lemma StartMore(a: Actor, u: Actor, b: Actor, l: PortLocator)
    requires OnlyStarts(a, u) && l in a.ports
    requires if Available(u, l) && WantedScan(u, l)
             then b == u.(sequence := u.sequence + 1, candidates := u.candidates[l.name := Candidate(u.sequence + 1, l, false)])
             else b == u
    ensures OnlyStarts(a, b)
  {
    hide Available, WantedScan;
    AvailableLess(a, u, l);
    if b != u {
      assert l.name !in u.candidates by {
        assert Available(u, l);
        NotScanned(u, l);
      }
      forall n | n in b.candidates && n !in a.candidates ensures StartedFor(a, b, n) {
        if n == l.name {
          assert StartedFor(a, b, l.name) by {
            assert b.candidates[l.name].locator == l;
          }
        } else {
          assert StartedFor(a, u, n);
        }
      }
    }
  }

  lemma NotScanned(a: Actor, l: PortLocator)
    requires Available(a, l)
    ensures l.name !in a.candidates
  {}

  /** The last part of a pass starts scans of exactly the known ports that are available and wanted, one for
      each name. */
  lemma ScansExactly(a: Actor, now: Millis)
    ensures var b := StartScans(a, now).actor;
            && OnlyStarts(a.(enumerating := b.enumerating, nextEnumeration := b.nextEnumeration), b)
            && forall l :: l in a.ports ==> !(Available(b, l) && WantedScan(b, l))
  {
    hide Available, Fold, StartedFor;
    var b := StartScans(a, now).actor;
    if a.pending != [] {
      var e := Enumerate(a, now).actor;
      StartAllMeans(e, e.ports);
      forall l | l in a.ports ensures !(Available(b, l) && WantedScan(b, l)) {
        var i :| 0 <= i < |e.ports| && e.ports[i] == l;
      }
    }
  }

  /** The ports are listed anew while binds wait, at most four times a second, and not while a listing is under
      way. */
  lemma ListingExactly(a: Actor, now: Millis)
    ensures var c := StartScans(a, now);
            && (EnumerationStarted in c.effects <==> a.pending != [] && !a.enumerating && now >= a.nextEnumeration)
            && (if EnumerationStarted in c.effects then c.actor.enumerating && c.actor.nextEnumeration == now + 250
                else c.actor.enumerating == a.enumerating && c.actor.nextEnumeration == a.nextEnumeration)
  {
    hide Fold;
    if a.pending != [] {
      var e := Enumerate(a, now);
      FoldStarts(e.actor, e.actor.ports);
      StartAllGrows(e.actor, e.actor.ports);
      assert forall x :: x in Fold(Starter(), e.actor, e.actor.ports).effects ==> x.ScanStarted?;
    }
  }

  // ---------- Which scans end ----------

  /** A scan is told to stop exactly if nobody waits any more, an exclusion names its port, or a reservation
      awaits it; a stopping scan goes on stopping. */
  lemma ClosingExactly(a: Actor)
    ensures var b := CloseCandidates(a);
            && b == a.(candidates := b.candidates) && b.candidates.Keys == a.candidates.Keys
            && forall n :: n in a.candidates ==>
                 var c := a.candidates[n];
                 b.candidates[n] == c.(closing := c.closing || a.pending == [] || NamedByExclusion(a, c.locator)
                                                  || Awaited(a, c.locator.name))
  {
    hide Excluded, IsReserved, NamedByExclusion, Awaited;
    forall n | n in a.candidates
      ensures MustClose(a, a.candidates[n])
              <==> a.pending == [] || NamedByExclusion(a, a.candidates[n].locator)
                   || Awaited(a, a.candidates[n].locator.name)
    {
      ExcludedMeans(a, a.candidates[n].locator);
      ReservedMeans(a, a.candidates[n].locator.name);
    }
  }

  // ---------- How long binds wait ----------

  /** Two seconds for each set of line parameters that is waited for, and five seconds at least. */
  lemma WindowMeans(pending: seq<Pending>)
    ensures var sets := set p | p in pending :: p.request.parameters;
            ScanWindow(pending) == if 2000 * |sets| > 5000 then 2000 * |sets| else 5000
  {
    var sets := set p | p in pending :: p.request.parameters;
    assert sets == set i | 0 <= i < |pending| :: pending[i].request.parameters by {
      forall p | p in pending ensures p.request.parameters in set i | 0 <= i < |pending| :: pending[i].request.parameters {
        var i :| 0 <= i < |pending| && pending[i] == p;
      }
    }
  }

  /** After a second without its remembered port a bind scans like the others; a scan gets its window from the
      request, or from now if it only starts now, and never loses time that it was given, but none of it goes
      beyond the request's own deadline. */
  lemma DeadlineMeans(p: Pending, window: Millis, now: Millis)
    requires p.scanDeadline <= p.request.deadline
    ensures var (q, late) := (Deadlines(p, window, now), !p.scanning && now >= p.started + 1000);
            && q == p.(scanning := q.scanning, scanDeadline := q.scanDeadline)
            && (q.scanning <==> p.scanning || late)
            && (late ==> q.scanDeadline == Earlier(p.request.deadline, Later(now, p.started) + window))
            && (p.scanning ==> q.scanDeadline == Later(p.scanDeadline, Earlier(p.started + window, p.request.deadline)))
            && (!p.scanning && !late ==> q == p)
  {}

  function Earlier(x: Millis, y: Millis): Millis { if y < x then y else x }

  function Later(x: Millis, y: Millis): Millis { if y > x then y else x }

  /** A bind whose remembered port is given up: its time is up, or it starts to scan. */
  predicate GivesUp(p: Pending, window: Millis, o: Outside) {
    p.reply !in o.gone
    && (Overdue(Deadlines(p, window, o.now), o.now) || (!p.scanning && Deadlines(p, window, o.now).scanning))
  }

  /** The binds that go on waiting, in order. */
  function WaitingOn(items: seq<Pending>, window: Millis, o: Outside): seq<Pending> {
    if items == [] then []
    else
      var (front, p) := (WaitingOn(items[..|items| - 1], window, o), items[|items| - 1]);
      var q := Deadlines(p, window, o.now);
      if p.reply in o.gone || q.request.deadline <= o.now || (q.scanning && q.scanDeadline <= o.now) then front
      else front + [q]
  }

  /** What is known about the faults so far is the reason that a bind is given. */
  predicate GivesReason(e: Effect, errors: map<Text, Text>) {
    e.BindRefused? && (e.error == Timeout <==> errors == map[]) && (e.error.DiscoveryFailed? ==> e.error.faults == errors)
    && e.error != Busy
  }

  predicate ExpiredExactly(a: Actor, items: seq<Pending>, c: Change, window: Millis, o: Outside) {
    && c.actor == a.(pending := WaitingOn(items, window, o), locations := c.actor.locations)
    && (forall k :: 0 <= k < |c.effects| ==> GivesReason(c.effects[k], a.errors))
    && (forall mac :: mac in c.actor.locations ==> mac in a.locations && c.actor.locations[mac] == a.locations[mac])
    && (forall mac :: mac in a.locations ==>
          (mac !in c.actor.locations <==> exists p :: p in items && p.request.mac == mac && GivesUp(p, window, o)))
  }

  /** Expiry keeps the binds in order, tells the others why, and forgets the remembered port of exactly the
      devices whose bind is refused or starts to scan. */
  lemma {:induction false} ExpiryExactly(a: Actor, items: seq<Pending>, window: Millis, o: Outside)
    requires a.pending == []
    ensures ExpiredExactly(a, items, Fold(Expirer(window, o), a, items), window, o)
  {
    hide Deadlines, GivesUp, GivesReason, ExpireOne;
    if items != [] {
      var front, p := items[..|items| - 1], items[|items| - 1];
      ExpiryExactly(a, front, window, o);
      var c := Fold(Expirer(window, o), a, front);
      assert Fold(Expirer(window, o), a, items) == Then(c, ExpireOne(c.actor, p, window, o));
      assert items == front + [p];
      ExpiryMore(a, front, p, c, window, o);
    }
  }

  lemma ExpiryMore(a: Actor, front: seq<Pending>, p: Pending, c: Change, window: Millis, o: Outside)
    requires ExpiredExactly(a, front, c, window, o)
    ensures ExpiredExactly(a, front + [p], Then(c, ExpireOne(c.actor, p, window, o)), window, o)
  {
    hide Deadlines, ExpireOne, WaitingOn, GivesUp, GivesReason;
    var items, d := front + [p], ExpireOne(c.actor, p, window, o);
    OneExpires(c.actor, p, window, o);
    WaitingSnoc(front, p, window, o);
    forall mac | mac in a.locations
      ensures mac !in d.actor.locations <==> exists q :: q in items && q.request.mac == mac && GivesUp(q, window, o)
    {
      assert forall q :: q in items <==> q in front || q == p;
    }
  }

  /** A bind is dropped, refused, or waits on. */
  lemma OneExpires(a: Actor, p: Pending, window: Millis, o: Outside)
    ensures var c := ExpireOne(a, p, window, o);
            && c.actor == a.(pending := a.pending + WaitingOn([p], window, o),
                             locations := if GivesUp(p, window, o) then a.locations - {p.request.mac} else a.locations)
            && (forall k :: 0 <= k < |c.effects| ==> GivesReason(c.effects[k], a.errors))
  {
    hide Deadlines;
    DeadlineRequest(p, window, o.now);
    assert [p][..0] == [];
  }

  lemma WaitingSnoc(front: seq<Pending>, p: Pending, window: Millis, o: Outside)
    ensures WaitingOn(front + [p], window, o) == WaitingOn(front, window, o) + WaitingOn([p], window, o)
  {
    hide Deadlines;
    assert (front + [p])[..|front|] == front && [p][..0] == [];
  }

  lemma DeadlineRequest(p: Pending, window: Millis, now: Millis)
    ensures Deadlines(p, window, now).request == p.request
    ensures p.scanning ==> Deadlines(p, window, now).scanning
  {}

  // ---------- What a pass leaves alone ----------

  /** Of what a bind is refused for, which ports failed, what is known and what is excluded, a pass changes
      nothing. */
  predicate Framed(a: Actor, b: Actor) {
    && b.failed == a.failed && b.errors == a.errors && b.ports == a.ports
    && b.exclusions == a.exclusions && b.links == a.links
  }

  lemma PassFrame(a: Actor, expiring: Outside, granting: Outside, answering: Outside)
    ensures Framed(a, Reconcile(a, expiring, granting, answering).actor)
  {
    hide FirstHalf, GrantReservations, AnswerWaiters, StartScans;
    FirstFrame(a, expiring);
    var first := FirstHalf(a, expiring);
    GrantsLeave(first.actor, granting);
    var granted := GrantReservations(first.actor, granting).actor;
    AnswersLeave(granted, answering);
    HalvesMakeAPass(a, expiring, granting, answering);
    ScansFrame(AnswerWaiters(granted, answering).actor, expiring.now);
  }

  lemma FirstFrame(a: Actor, o: Outside)
    ensures Framed(a, FirstHalf(a, o).actor)
  {
    hide Expire, AnyExcludedCandidate;
    ExpireFrame(a, o);
  }

  lemma ScansFrame(a: Actor, now: Millis)
    ensures Framed(a, StartScans(a, now).actor)
  {
    hide Fold;
    StartAllGrows(Enumerate(a, now).actor, Enumerate(a, now).actor.ports);
  }

  lemma ExpireFrame(a: Actor, o: Outside)
    ensures Expire(a, o).actor == a.(pending := Expire(a, o).actor.pending, locations := Expire(a, o).actor.locations)
  {
    hide ScanWindow, Fold;
    ExpiryOf(a.(pending := []), a.pending, ScanWindow(a.pending), o);
  }

  /** What scans look for is the identity and the parameters of each waiting bind, in order. */
  lemma {:induction false} ExpectationsMean(pending: seq<Pending>)
    ensures |Expectations(pending)| == |pending|
    ensures forall i :: 0 <= i < |pending| ==>
              Expectations(pending)[i] == (pending[i].request.serialId, pending[i].request.parameters)
  {
    if pending != [] {
      ExpectationsMean(pending[..|pending| - 1]);
    }
  }

  /** No port is left out: after every pass of every run, a known port that nobody uses and nobody awaits, and
      that no exclusion names, is only left unscanned if its last scan ended by itself, or if every waiting bind
      still waits for its remembered port, elsewhere. */
  lemma NoPortIsLeftOut(now: Millis, links: map<Text, Text>, turns: seq<Turn>, t: Turn, l: PortLocator)
    requires WakesActor(t.step) && l in Next(Run(now, links, turns), t).actor.ports
    ensures var b := Next(Run(now, links, turns), t).actor; !(Available(b, l) && WantedScan(b, l))
  {
    hide Run, Receive, Available, WantedScan;
    var s := Run(now, links, turns);
    PassLeavesNone(Receive(s, t.step).0.actor, t.expiring, t.granting, t.answering, l);
  }

  lemma PassLeavesNone(a: Actor, expiring: Outside, granting: Outside, answering: Outside, l: PortLocator)
    requires l in Reconcile(a, expiring, granting, answering).actor.ports
    ensures var b := Reconcile(a, expiring, granting, answering).actor; !(Available(b, l) && WantedScan(b, l))
  {
    hide FirstHalf, SecondHalf, StartScans, Available, WantedScan, OnlyStarts;
    HalvesMakeAPass(a, expiring, granting, answering);
    var u := Then(FirstHalf(a, expiring), SecondHalf(FirstHalf(a, expiring).actor, granting, answering)).actor;
    ScansExactly(u, expiring.now);
    ScansFrame(u, expiring.now);
  }

  /** A bind with new parameters gives every port another chance: in the turn that admits it, whatever failed
      before, no known port stays unscanned that nobody uses, awaits or excludes, if a bind scans. */
  lemma NewParametersScanAll(now: Millis, links: map<Text, Text>, turns: seq<Turn>, t: Turn, l: PortLocator)
    requires t.step.Asked? && t.step.command.Bind? && t.step.command.reply !in t.step.o.gone
    requires var (a, request) := (Run(now, links, turns).actor, t.step.command.request);
             !StandsAgainst(a.pending, request)
             && forall p :: p in a.pending && p.request.parameters == request.parameters ==> Superseded(p, request)
    ensures var b := Next(Run(now, links, turns), t).actor;
            l in b.ports && (exists p :: p in b.pending && p.scanning) ==>
              l.name in b.candidates || l.name in b.leased || NamedByExclusion(b, l) || Awaited(b, l.name)
  {
    hide Run, Reconcile, OnBind, StandsAgainst, Superseded;
    var s := Run(now, links, turns);
    var (request, reply) := (t.step.command.request, t.step.command.reply);
    BindMeans(s.actor, request, reply, t.step.o);
    var a := OnBind(s.actor, request, reply, t.step.o).actor;
    assert a.failed == {};
    PassFrame(a, t.expiring, t.granting, t.answering);
    if l in Next(s, t).actor.ports {
      PassLeavesNone(a, t.expiring, t.granting, t.answering, l);
    }
  }

  /** Waiting binds are for different devices and different identities, in every run. */
  lemma WaitingDiffer(now: Millis, links: map<Text, Text>, turns: seq<Turn>, i: nat, j: nat)
    requires i < j < |Run(now, links, turns).actor.pending|
    ensures var pending := Run(now, links, turns).actor.pending;
            pending[i].request.mac != pending[j].request.mac && pending[i].request.serialId != pending[j].request.serialId
  {
    hide Run, WorkersOwn, HoldersOwn, Settled, Books;
    RunKeeps(now, links, turns);
    assert NoRivals(Run(now, links, turns).actor.pending);
  }

  // ---------- Who gets a port ----------

  /** A bind for this identity, waited for and in time. */
  predicate Hopes(p: Pending, id: Text, o: Outside) {
    p.request.serialId == id && p.reply !in o.gone && o.now < p.request.deadline
  }

  /** A scan that is current and not told to stop found an identity, while somebody can still give a port back. */
  predicate CanLease(a: Actor, name: Text, generation: nat, o: Outside) {
    name in a.candidates && a.candidates[name].generation == generation && !a.candidates[name].closing && o.alive
  }

  /** A found port is leased exactly if its scan can still lease it and a bind hopes for the identity: to the first
      such bind, in the name of its owner, under a new token, with the stream. Otherwise the port is closed, and
      stays taken until then. */
  lemma FoundExactly(a: Actor, l: PortLocator, generation: nat, id: Text, stream: Stream, o: Outside)
    ensures var (c, k) := (OnFound(a, l, generation, id, stream, o), Position(a.pending, id, o));
            if CanLease(a, l.name, generation, o) && exists p :: p in a.pending && Hopes(p, id, o) then
              && k < |a.pending| && Hopes(a.pending[k], id, o) && (forall i :: 0 <= i < k ==> !Hopes(a.pending[i], id, o))
              && c.actor == a.(pending := a.pending[..k] + a.pending[k + 1..], sequence := a.sequence + 1,
                               candidates := a.candidates - {l.name},
                               leased := a.leased[l.name := Owner(a.sequence + 1, a.pending[k].request.owner, l)])
              && c.effects == [LeaseGranted(a.pending[k].reply, a.pending[k].request, l, a.sequence + 1, stream)]
            else
              && c.actor == a.(candidates := a.candidates[l.name := Candidate(generation, l, true)])
              && c.effects == [CloseStarted(l, generation, stream)]
  {
    hide OnFound, Position;
    FoundMeans(a, l, generation, id, stream, o);
    assert forall p :: Hopes(p, id, o) == Wants(p, id, o);
    if p :| p in a.pending && Hopes(p, id, o) {
      var i :| 0 <= i < |a.pending| && a.pending[i] == p;
      assert Wants(a.pending[i], id, o);
    }
  }

  // ---------- Where devices are remembered ----------

  /** The holder of the lease of a port, by its token, confirmed in a turn of a run that a device is there. */
  predicate ConfirmedAt(now: Millis, links: map<Text, Text>, turns: seq<Turn>, k: nat, mac: Text, l: PortLocator)
    requires k < |turns|
  {
    && turns[k].step.Asked? && turns[k].step.command.Confirm?
    && turns[k].step.command.mac == mac && turns[k].step.command.locator == l
    && var leased := Run(now, links, turns[..k]).actor.leased;
       l.name in leased && leased[l.name].token == turns[k].step.command.token
  }

  predicate Confirmed(now: Millis, links: map<Text, Text>, turns: seq<Turn>, mac: Text, l: PortLocator) {
    exists k :: 0 <= k < |turns| && ConfirmedAt(now, links, turns, k, mac, l)
  }

  /** What an input newly remembers is what it confirms. */
  predicate Confirms(a: Actor, step: Step, mac: Text, l: PortLocator) {
    && step.Asked? && step.command.Confirm? && step.command.mac == mac && step.command.locator == l
    && l.name in a.leased && a.leased[l.name].token == step.command.token
  }

  lemma InputRemembers(s: System, step: Step)
    ensures var b := Receive(s, step).0.actor;
            forall mac :: mac in b.locations ==>
              (mac in s.actor.locations && s.actor.locations[mac] == b.locations[mac])
              || Confirms(s.actor, step, mac, b.locations[mac])
  {
    hide OnBind, OnExclude, OnReserve, OnFound;
    match step
    case Asked(command, o) =>
      CommandRemembers(s.actor, command, o);
    case Reported(i, o) =>
      if i in s.world.workers && s.world.workers[i].stage.Reporting? {
        var w := s.world.workers[i];
        FoundMeans(s.actor, w.locator, w.generation, w.stage.id, w.stage.stream, o);
      }
    case _ =>
  }

  /** A pass remembers nothing new. */
  lemma PassForgets(a: Actor, expiring: Outside, granting: Outside, answering: Outside)
    ensures var b := Reconcile(a, expiring, granting, answering).actor;
            forall mac :: mac in b.locations ==> mac in a.locations && b.locations[mac] == a.locations[mac]
  {
    hide FirstHalf, GrantReservations, AnswerWaiters, StartScans, WantedScan, Available, StartedFor;
    var first := FirstHalf(a, expiring);
    FirstForgets(a, expiring);
    GrantsLeave(first.actor, granting);
    var granted := GrantReservations(first.actor, granting).actor;
    AnswersLeave(granted, answering);
    HalvesMakeAPass(a, expiring, granting, answering);
    ScansExactly(AnswerWaiters(granted, answering).actor, expiring.now);
  }

  lemma FirstForgets(a: Actor, o: Outside)
    ensures var b := FirstHalf(a, o).actor;
            forall mac :: mac in b.locations ==> mac in a.locations && b.locations[mac] == a.locations[mac]
  {
    hide Fold, AnyExcludedCandidate, ScanWindow, WaitingOn, GivesUp, GivesReason;
    ExpiryExactly(a.(pending := []), a.pending, ScanWindow(a.pending), o);
  }

  /** No place is made up: in every run, wherever a device is remembered, the holder of that port's lease has
      confirmed it to be there. */
  lemma {:induction false} PlacesWereConfirmed(now: Millis, links: map<Text, Text>, turns: seq<Turn>, mac: Text)
    requires mac in Run(now, links, turns).actor.locations
    ensures Confirmed(now, links, turns, mac, Run(now, links, turns).actor.locations[mac])
  {
    hide Receive, Reconcile, Confirms, Move;
    if turns != [] {
      var front, t := turns[..|turns| - 1], turns[|turns| - 1];
      var s, l := Run(now, links, front), Run(now, links, turns).actor.locations[mac];
      TurnRemembers(s, t, mac);
      if mac in s.actor.locations && s.actor.locations[mac] == l {
        PlacesWereConfirmed(now, links, front, mac);
        var k :| 0 <= k < |front| && ConfirmedAt(now, links, front, k, mac, l);
        assert turns[..k] == front[..k];
        assert ConfirmedAt(now, links, turns, k, mac, l);
      } else {
        assert ConfirmedAt(now, links, turns, |front|, mac, l) by { ConfirmsMeans(s.actor, t.step, mac, l); }
      }
    }
  }

  lemma ConfirmsMeans(a: Actor, step: Step, mac: Text, l: PortLocator)
    requires Confirms(a, step, mac, l)
    ensures && step.Asked? && step.command.Confirm? && step.command.mac == mac && step.command.locator == l
            && l.name in a.leased && a.leased[l.name].token == step.command.token
  {}

  lemma TurnRemembers(s: System, t: Turn, mac: Text)
    requires mac in Next(s, t).actor.locations
    ensures var l := Next(s, t).actor.locations[mac];
            (mac in s.actor.locations && s.actor.locations[mac] == l) || Confirms(s.actor, t.step, mac, l)
  {
    hide Receive, Reconcile, Confirms, Move;
    if WakesActor(t.step) {
      InputRemembers(s, t.step);
      var input := Receive(s, t.step).0.actor;
      PassForgets(input, t.expiring, t.granting, t.answering);
      assert mac in input.locations;
    }
  }

  // ---------- Nobody who asks is forgotten ----------

  function Count(cond: bool): nat { if cond then 1 else 0 }

  function WaitingBinds(pending: seq<Pending>, r: ReplyId): nat {
    if pending == [] then 0 else WaitingBinds(pending[..|pending| - 1], r) + Count(pending[|pending| - 1].reply == r)
  }

  function WaitingExcludes(replies: seq<ReplyId>, r: ReplyId): nat {
    if replies == [] then 0 else WaitingExcludes(replies[..|replies| - 1], r) + Count(replies[|replies| - 1] == r)
  }

  function WaitingReservations(rs: seq<Reservation>, r: ReplyId): nat {
    if rs == [] then 0 else WaitingReservations(rs[..|rs| - 1], r) + Count(rs[|rs| - 1].reply == r)
  }

  function WaitingForOwners(ws: seq<Waiter>, r: ReplyId): nat {
    if ws == [] then 0 else WaitingForOwners(ws[..|ws| - 1], r) + Count(ws[|ws| - 1].reply == r)
  }

  /** How often somebody waits for an answer. */
  function Waiting(a: Actor, r: ReplyId): nat {
    WaitingBinds(a.pending, r) + WaitingExcludes(a.excludedReplies, r) + WaitingReservations(a.reservations, r)
    + WaitingForOwners(a.releaseWaiters, r)
  }

  predicate AnswersTo(e: Effect, r: ReplyId) {
    match e
    case LeaseGranted(reply, _, _, _, _) => reply == r
    case BindRefused(reply, _) => reply == r
    case ExcludeAnswered(reply, _) => reply == r
    case ReservationGranted(reply, _, _) => reply == r
    case ReservationRefused(reply) => reply == r
    case OwnerReleased(_, reply) => reply == r
    case _ => false
  }

  /** How often somebody is answered. */
  function Answers(es: seq<Effect>, r: ReplyId): nat {
    if es == [] then 0 else Answers(es[..|es| - 1], r) + Count(AnswersTo(es[|es| - 1], r))
  }

  lemma {:induction false} AnswersAppend(es: seq<Effect>, fs: seq<Effect>, r: ReplyId)
    ensures Answers(es + fs, r) == Answers(es, r) + Answers(fs, r)
  {
    hide AnswersTo;
    if fs == [] {
      assert es + fs == es;
    } else {
      assert (es + fs)[..|es + fs| - 1] == es + fs[..|fs| - 1];
      AnswersAppend(es, fs[..|fs| - 1], r);
    }
  }

  lemma {:induction false} NoAnswers(es: seq<Effect>, r: ReplyId)
    requires forall e :: e in es ==> !AnswersTo(e, r)
    ensures Answers(es, r) == 0
  {
    hide AnswersTo;
    if es != [] {
      NoAnswers(es[..|es| - 1], r);
      assert es[|es| - 1] in es;
    }
  }

  lemma AnswersOne(e: Effect, r: ReplyId)
    ensures Answers([e], r) == Count(AnswersTo(e, r)) && Answers([], r) == 0
  {
    assert [e][..0] == [];
  }

  lemma BindsSnoc(pending: seq<Pending>, p: Pending, r: ReplyId)
    ensures WaitingBinds(pending + [p], r) == WaitingBinds(pending, r) + Count(p.reply == r)
  {
    assert (pending + [p])[..|pending|] == pending;
  }

  lemma ReservationsSnoc(rs: seq<Reservation>, v: Reservation, r: ReplyId)
    ensures WaitingReservations(rs + [v], r) == WaitingReservations(rs, r) + Count(v.reply == r)
  {
    assert (rs + [v])[..|rs|] == rs;
  }

  lemma OwnersSnoc(ws: seq<Waiter>, w: Waiter, r: ReplyId)
    ensures WaitingForOwners(ws + [w], r) == WaitingForOwners(ws, r) + Count(w.reply == r)
  {
    assert (ws + [w])[..|ws|] == ws;
  }

  lemma ExcludesSnoc(replies: seq<ReplyId>, x: ReplyId, r: ReplyId)
    ensures WaitingExcludes(replies + [x], r) == WaitingExcludes(replies, r) + Count(x == r)
  {
    assert (replies + [x])[..|replies|] == replies;
  }

  lemma ExpireOneCounts(a: Actor, p: Pending, window: Millis, o: Outside, r: ReplyId)
    requires r !in o.gone
    ensures var c := ExpireOne(a, p, window, o);
            WaitingBinds(c.actor.pending, r) + Answers(c.effects, r) == WaitingBinds(a.pending, r) + Count(p.reply == r)
  {
    hide Overdue, Deadlines, WaitingBinds, Answers;
    var (q, c) := (Deadlines(p, window, o.now), ExpireOne(a, p, window, o));
    DeadlinesAreFair(p, window, o.now);
    BindsSnoc(a.pending, q, r);
    AnswersOne(if c.effects == [] then EnumerationStarted else c.effects[0], r);
  }

  lemma {:induction false} ExpiryCounts(a: Actor, items: seq<Pending>, window: Millis, o: Outside, r: ReplyId)
    requires a.pending == [] && r !in o.gone
    ensures var c := Fold(Expirer(window, o), a, items);
            WaitingBinds(c.actor.pending, r) + Answers(c.effects, r) == WaitingBinds(items, r)
  {
    hide ExpireOne;
    if items != [] {
      var front, p := items[..|items| - 1], items[|items| - 1];
      ExpiryCounts(a, front, window, o, r);
      var c := Fold(Expirer(window, o), a, front);
      assert Fold(Expirer(window, o), a, items) == Then(c, ExpireOne(c.actor, p, window, o));
      AnswersAppend(c.effects, ExpireOne(c.actor, p, window, o).effects, r);
      ExpireOneCounts(c.actor, p, window, o, r);
    }
  }

  lemma {:induction false} AcceptedCounts(replies: seq<ReplyId>, r: ReplyId)
    ensures Answers(Accepted(replies), r) == WaitingExcludes(replies, r)
  {
    if replies != [] {
      var front, x := replies[..|replies| - 1], replies[|replies| - 1];
      AcceptedCounts(front, r);
      AnswersAppend(Accepted(front), [ExcludeAnswered(x, true)], r);
      AnswersOne(ExcludeAnswered(x, true), r);
    }
  }

  lemma GrantOneCounts(a: Actor, v: Reservation, o: Outside, r: ReplyId)
    requires r !in o.gone && o.alive
    ensures var c := GrantOne(a, v, o);
            WaitingReservations(c.actor.reservations, r) + Answers(c.effects, r)
            == WaitingReservations(a.reservations, r) + Count(v.reply == r)
  {
    hide WaitingReservations, Answers;
    var c := GrantOne(a, v, o);
    ReservationsSnoc(a.reservations, v, r);
    AnswersOne(if c.effects == [] then EnumerationStarted else c.effects[0], r);
  }

  lemma {:induction false} GrantsCount(a: Actor, items: seq<Reservation>, o: Outside, r: ReplyId)
    requires a.reservations == [] && r !in o.gone && o.alive
    ensures var c := Fold(Granter(o), a, items);
            WaitingReservations(c.actor.reservations, r) + Answers(c.effects, r) == WaitingReservations(items, r)
  {
    hide GrantOne;
    if items != [] {
      var front, v := items[..|items| - 1], items[|items| - 1];
      GrantsCount(a, front, o, r);
      var c := Fold(Granter(o), a, front);
      assert Fold(Granter(o), a, items) == Then(c, GrantOne(c.actor, v, o));
      AnswersAppend(c.effects, GrantOne(c.actor, v, o).effects, r);
      GrantOneCounts(c.actor, v, o, r);
    }
  }

  lemma AnswerOneCounts(a: Actor, w: Waiter, o: Outside, r: ReplyId)
    requires r !in o.gone
    ensures var c := AnswerOne(a, w, o);
            WaitingForOwners(c.actor.releaseWaiters, r) + Answers(c.effects, r)
            == WaitingForOwners(a.releaseWaiters, r) + Count(w.reply == r)
  {
    hide WaitingForOwners, Answers, Busies;
    var c := AnswerOne(a, w, o);
    OwnersSnoc(a.releaseWaiters, w, r);
    AnswersOne(if c.effects == [] then EnumerationStarted else c.effects[0], r);
  }

  lemma {:induction false} AnswersCount(a: Actor, items: seq<Waiter>, o: Outside, r: ReplyId)
    requires a.releaseWaiters == [] && r !in o.gone
    ensures var c := Fold(Answerer(o), a, items);
            WaitingForOwners(c.actor.releaseWaiters, r) + Answers(c.effects, r) == WaitingForOwners(items, r)
  {
    hide AnswerOne;
    if items != [] {
      var front, w := items[..|items| - 1], items[|items| - 1];
      AnswersCount(a, front, o, r);
      var c := Fold(Answerer(o), a, front);
      assert Fold(Answerer(o), a, items) == Then(c, AnswerOne(c.actor, w, o));
      AnswersAppend(c.effects, AnswerOne(c.actor, w, o).effects, r);
      AnswerOneCounts(c.actor, w, o, r);
    }
  }

  predicate Stays(r: ReplyId, o: Outside) { r !in o.gone && o.alive }

  /** A pass loses nobody: who waited before it waits after it or was answered in it. */
  lemma PassLosesNobody(a: Actor, expiring: Outside, granting: Outside, answering: Outside, r: ReplyId)
    requires Stays(r, expiring) && Stays(r, granting) && Stays(r, answering)
    ensures var c := Reconcile(a, expiring, granting, answering);
            Waiting(c.actor, r) + Answers(c.effects, r) == Waiting(a, r)
  {
    hide FirstHalf, GrantReservations, AnswerWaiters, StartScans, Answers;
    hide WaitingBinds, WaitingExcludes, WaitingReservations, WaitingForOwners;
    var first := FirstHalf(a, expiring);
    FirstLosesNobody(a, expiring, r);
    var granted := GrantReservations(first.actor, granting);
    GrantsLoseNobody(first.actor, granting, r);
    var answered := AnswerWaiters(granted.actor, answering);
    AnswersLoseNobody(granted.actor, answering, r);
    ScansAskNobody(answered.actor, expiring.now, r);
    HalvesMakeAPass(a, expiring, granting, answering);
    AnswersAppend(granted.effects, answered.effects, r);
    AnswersAppend(first.effects, granted.effects + answered.effects, r);
    AnswersAppend(first.effects + (granted.effects + answered.effects), StartScans(answered.actor, expiring.now).effects, r);
  }

  lemma FirstLosesNobody(a: Actor, o: Outside, r: ReplyId)
    requires Stays(r, o)
    ensures var c := FirstHalf(a, o); Waiting(c.actor, r) + Answers(c.effects, r) == Waiting(a, r)
  {
    hide Fold, Answers, AnyExcludedCandidate, ScanWindow, CloseCandidates;
    hide WaitingBinds, WaitingReservations, WaitingForOwners;
    var expired := Expire(a, o);
    ExpireFrame(a, o);
    ExpiryCounts(a.(pending := []), a.pending, ScanWindow(a.pending), o, r);
    ClosingExactly(Publish(expired.actor));
    AcceptedCounts(a.excludedReplies, r);
    AnswersOne(EnumerationStarted, r);
    AnswersAppend(expired.effects, AnswerExcludes(CloseCandidates(Publish(expired.actor))).effects, r);
  }

  lemma GrantsLoseNobody(a: Actor, o: Outside, r: ReplyId)
    requires Stays(r, o)
    ensures var c := GrantReservations(a, o); Waiting(c.actor, r) + Answers(c.effects, r) == Waiting(a, r)
  {
    hide Fold, Answers, WaitingBinds, WaitingReservations, WaitingForOwners, WaitingExcludes;
    GrantsLeave(a, o);
    GrantsCount(a.(reservations := []), a.reservations, o, r);
  }

  lemma AnswersLoseNobody(a: Actor, o: Outside, r: ReplyId)
    requires Stays(r, o)
    ensures var c := AnswerWaiters(a, o); Waiting(c.actor, r) + Answers(c.effects, r) == Waiting(a, r)
  {
    hide Fold, Answers, WaitingBinds, WaitingReservations, WaitingForOwners, WaitingExcludes, Busies;
    AnswersLeave(a, o);
    AnswersCount(a.(releaseWaiters := []), a.releaseWaiters, o, r);
  }

  lemma ScansAskNobody(a: Actor, now: Millis, r: ReplyId)
    ensures var c := StartScans(a, now); Waiting(c.actor, r) == Waiting(a, r) && Answers(c.effects, r) == 0
  {
    hide Fold, StartScans, Answers, WaitingBinds, WaitingReservations, WaitingForOwners, WaitingExcludes, Truthful;
    hide Available, WantedScan, StartedFor;
    ScansOnly(a, now);
    ScansExactly(a, now);
    NoAnswers(StartScans(a, now).effects, r);
  }

  /** How often an input asks for an answer. */
  function AskedIn(step: Step, r: ReplyId): nat {
    if !step.Asked? then 0
    else
      match step.command
      case Bind(_, reply) => Count(reply == r)
      case Exclude(_, reply) => Count(reply == r)
      case Reserve(_, reply) => Count(reply == r)
      case WaitOwner(_, reply) => Count(reply == r)
      case _ => 0
  }

  /** How many of the binds that wait a request supersedes. */
  function SupersededBinds(pending: seq<Pending>, request: BindRequest, r: ReplyId): nat {
    if pending == [] then 0
    else
      var p := pending[|pending| - 1];
      SupersededBinds(pending[..|pending| - 1], request, r) + Count(p.reply == r && Superseded(p, request))
  }

  function SupersededIn(a: Actor, step: Step, r: ReplyId): nat {
    if step.Asked? && step.command.Bind? && step.command.reply !in step.o.gone
    then SupersededBinds(a.pending, step.command.request, r) else 0
  }

  lemma {:induction false} StandingCounts(pending: seq<Pending>, request: BindRequest, r: ReplyId)
    ensures WaitingBinds(Standing(pending, request), r) + SupersededBinds(pending, request, r) == WaitingBinds(pending, r)
  {
    hide Superseded;
    if pending != [] {
      var front, p := pending[..|pending| - 1], pending[|pending| - 1];
      StandingCounts(front, request, r);
      BindsSnoc(Standing(front, request), p, r);
    }
  }

  lemma BindCounts(a: Actor, request: BindRequest, reply: ReplyId, o: Outside, r: ReplyId)
    requires reply !in o.gone
    ensures var c := OnBind(a, request, reply, o);
            Waiting(c.actor, r) + Answers(c.effects, r) + SupersededBinds(a.pending, request, r)
            == Waiting(a, r) + Count(reply == r)
  {
    hide OnBind, Answers, SupersededBinds, WaitingBinds, WaitingReservations, WaitingForOwners, WaitingExcludes;
    hide StandsAgainst, Standing, ParametersStand, Superseded, Min;
    var (kept, c) := (Standing(a.pending, request), OnBind(a, request, reply, o));
    BindMeans(a, request, reply, o);
    StandingCounts(a.pending, request, r);
    AnswersOne(BindRefused(reply, Busy), r);
    if !StandsAgainst(a.pending, request) {
      BindsSnoc(kept, c.actor.pending[|kept|], r);
    }
  }

  lemma ExcludeCounts(a: Actor, selectors: seq<PortSelector>, reply: ReplyId, r: ReplyId)
    ensures var d := OnExclude(a, selectors, reply);
            Waiting(d.actor, r) + Answers(d.effects, r) == Waiting(a, r) + Count(reply == r)
  {
    hide ExcludeConflicts, Answers, WaitingBinds, WaitingReservations, WaitingForOwners, WaitingExcludes;
    AnswersOne(ExcludeAnswered(reply, false), r);
    ExcludesSnoc(a.excludedReplies, reply, r);
  }

  lemma ReserveCounts(a: Actor, port: PortLocator, reply: ReplyId, r: ReplyId)
    ensures var d := OnReserve(a, port, reply);
            Waiting(d.actor, r) + Answers(d.effects, r) == Waiting(a, r) + Count(reply == r)
  {
    hide IsReserved, Answers, WaitingBinds, WaitingReservations, WaitingForOwners, WaitingExcludes;
    AnswersOne(ReservationRefused(reply), r);
    ReservationsSnoc(a.reservations, Reservation(port, reply), r);
  }

  lemma CommandCounts(a: Actor, c: Command, o: Outside, r: ReplyId)
    requires r !in o.gone
    ensures var d := OnCommand(a, c, o);
            Waiting(d.actor, r) + Answers(d.effects, r) + SupersededIn(a, Asked(c, o), r)
            == Waiting(a, r) + AskedIn(Asked(c, o), r)
  {
    hide OnBind, OnExclude, OnReserve, SupersededBinds, Superseded;
    hide Answers, WaitingBinds, WaitingReservations, WaitingForOwners, WaitingExcludes;
    AnswersOne(EnumerationStarted, r);
    match c
    case Bind(request, reply) =>
      if reply in o.gone {
        BindOnly(a, request, reply, o);
      } else {
        BindCounts(a, request, reply, o, r);
      }
    case Exclude(selectors, reply) => ExcludeCounts(a, selectors, reply, r);
    case Reserve(port, reply) => ReserveCounts(a, port, reply, r);
    case WaitOwner(owner, reply) => OwnersSnoc(a.releaseWaiters, Waiter(owner, reply), r);
    case _ =>
  }

  lemma {:induction false} OneBindLess(pending: seq<Pending>, k: nat, r: ReplyId)
    requires k < |pending|
    ensures WaitingBinds(pending[..k] + pending[k + 1..], r) + Count(pending[k].reply == r) == WaitingBinds(pending, r)
  {
    var front, rest := pending[..|pending| - 1], pending[..k] + pending[k + 1..];
    if k == |pending| - 1 {
      assert rest == front;
    } else {
      OneBindLess(front, k, r);
      assert rest[..|rest| - 1] == front[..k] + front[k + 1..];
    }
  }

  lemma FoundCounts(a: Actor, l: PortLocator, generation: nat, id: Text, stream: Stream, o: Outside, r: ReplyId)
    ensures var d := OnFound(a, l, generation, id, stream, o);
            Waiting(d.actor, r) + Answers(d.effects, r) == Waiting(a, r)
  {
    hide OnFound, Leasable, Wants, Position;
    hide Answers, WaitingBinds, WaitingReservations, WaitingForOwners, WaitingExcludes;
    FoundMeans(a, l, generation, id, stream, o);
    var d := OnFound(a, l, generation, id, stream, o);
    AnswersOne(d.effects[0], r);
    if Leasable(a, l.name, generation, id, o) {
      OneBindLess(a.pending, Position(a.pending, id, o), r);
    }
  }

  lemma EventCounts(a: Actor, e: Event, o: Outside, r: ReplyId)
    ensures var d := OnEvent(a, e, o); Waiting(d.actor, r) + Answers(d.effects, r) == Waiting(a, r)
  {
    hide OnFound, Answers, WaitingBinds, WaitingReservations, WaitingForOwners, WaitingExcludes;
    AnswersOne(EnumerationStarted, r);
    if e.Found? {
      FoundCounts(a, e.locator, e.generation, e.id, e.stream, o, r);
    }
  }

  lemma InputLosesNobody(s: System, step: Step, r: ReplyId)
    requires step.Asked? ==> r !in step.o.gone && FromClients(step.command)
    ensures var c := Receive(s, step).0;
            Waiting(c.actor, r) + Answers(c.effects, r) + SupersededIn(s.actor, step, r)
            == Waiting(s.actor, r) + AskedIn(step, r)
  {
    hide OnCommand, OnEvent, Answers, Waiting, SupersededBinds;
    AnswersOne(EnumerationStarted, r);
    match step
    case Asked(command, o) => CommandCounts(s.actor, command, o, r);
    case Noticed(event, o) => EventCounts(s.actor, event, o, r);
    case Reported(i, o) =>
      if i in s.world.workers && s.world.workers[i].stage.Reporting? {
        var w := s.world.workers[i];
        EventCounts(s.actor, Found(w.locator, w.generation, w.stage.id, w.stage.stream), o, r);
      } else if i in s.world.workers {
        EventCounts(s.actor, Closed(s.world.workers[i].locator.name, s.world.workers[i].generation), o, r);
      }
    case Released(i, o) =>
      if i in s.world.holders {
        ReleaseCounts(s.actor, s.world.holders[i].locator.name, s.world.holders[i].token, o, r);
      }
    case _ =>
  }

  lemma ReleaseCounts(a: Actor, name: Text, token: nat, o: Outside, r: ReplyId)
    ensures var d := OnCommand(a, Release(name, token), o); Waiting(d.actor, r) == Waiting(a, r) && d.effects == []
  {
    hide WaitingBinds, WaitingReservations, WaitingForOwners, WaitingExcludes;
  }

  /** Somebody who does not give up, while the command channel has users, in one turn. */
  predicate StaysFor(r: ReplyId, t: Turn) {
    && Stays(r, t.expiring) && Stays(r, t.granting) && Stays(r, t.answering)
    && (t.step.Asked? ==> r !in t.step.o.gone && FromClients(t.step.command))
  }

  function AskedOver(turns: seq<Turn>, r: ReplyId): nat {
    if turns == [] then 0 else AskedOver(turns[..|turns| - 1], r) + AskedIn(turns[|turns| - 1].step, r)
  }

  function AnsweredOver(now: Millis, links: map<Text, Text>, turns: seq<Turn>, r: ReplyId): nat {
    if turns == [] then 0
    else
      var (front, t) := (turns[..|turns| - 1], turns[|turns| - 1]);
      AnsweredOver(now, links, front, r)
      + if WakesActor(t.step) then Answers(TurnChange(Run(now, links, front), t).effects, r) else 0
  }

  function SupersededOver(now: Millis, links: map<Text, Text>, turns: seq<Turn>, r: ReplyId): nat {
    if turns == [] then 0
    else
      var (front, t) := (turns[..|turns| - 1], turns[|turns| - 1]);
      SupersededOver(now, links, front, r) + SupersededIn(Run(now, links, front).actor, t.step, r)
  }

  /** Nobody is forgotten and nobody is answered twice: over every run, whoever asks and does not give up has
      exactly one answer, or waits, or his bind was superseded by a later boot of the same device. */
  lemma {:induction false} NobodyIsForgotten(now: Millis, links: map<Text, Text>, turns: seq<Turn>, r: ReplyId)
    requires forall t :: t in turns ==> StaysFor(r, t)
    ensures AskedOver(turns, r)
            == Waiting(Run(now, links, turns).actor, r) + AnsweredOver(now, links, turns, r)
               + SupersededOver(now, links, turns, r)
  {
    hide Waiting, Answers, AskedIn, SupersededIn, Receive, Reconcile, StaysFor, WakesActor, Move;
    if turns == [] {
      NobodyAtFirst(now, links, r);
    } else {
      var front, t := turns[..|turns| - 1], turns[|turns| - 1];
      assert t in turns;
      NobodyIsForgotten(now, links, front, r);
      TurnLosesNobody(Run(now, links, front), t, r);
    }
  }

  lemma NobodyAtFirst(now: Millis, links: map<Text, Text>, r: ReplyId)
    ensures Waiting(Initial(now, links), r) == 0
  {}

  /** The same of one turn. */
  lemma TurnLosesNobody(s: System, t: Turn, r: ReplyId)
    requires StaysFor(r, t)
    ensures Waiting(Next(s, t).actor, r)
            + (if WakesActor(t.step) then Answers(TurnChange(s, t).effects, r) else 0) + SupersededIn(s.actor, t.step, r)
            == Waiting(s.actor, r) + AskedIn(t.step, r)
  {
    hide Waiting, Answers, Receive, Reconcile, SupersededBinds, Superseded, Move;
    if WakesActor(t.step) {
      var input := Receive(s, t.step).0;
      InputLosesNobody(s, t.step, r);
      PassLosesNobody(input.actor, t.expiring, t.granting, t.answering, r);
      AnswersAppend(input.effects, Reconcile(input.actor, t.expiring, t.granting, t.answering).effects, r);
    }
  }
}
