/** The discovery actor together with everything it has in flight: scan tasks, closing tasks, their
    messages, leases and reservations. Every interleaving of their steps keeps ports exclusive.
  */
module SerialSystem {
  import opened Options
  import opened SerialDiscovery

  /** A scan task from its start until its last message is handled. */
  datatype Stage =
    | Scanning(io: Option<Stream>)
    | Reporting(id: Text, stream: Stream)
    | Closing(stream: Stream)
    | Ended
  datatype Worker = Worker(locator: PortLocator, generation: nat, stage: Stage)

  /** A granted lease or reservation until its release message is handled. */
  datatype Kind = Lease(request: BindRequest, stream: Stream) | Manual
  datatype Holder = Holder(locator: PortLocator, token: nat, kind: Kind, open: bool)

  datatype World = World(workers: map<nat, Worker>, holders: map<nat, Holder>, next: nat)
  datatype System = System(actor: Actor, world: World)

  function OwnerName(k: Kind): Text {
    match k case Lease(request, _) => request.owner case Manual => "manual"
  }

  // ---------- Who uses a port ----------

  /** A task uses its port from the moment it starts to open it until the stream is closed. */
  predicate WorkerUses(w: Worker, port: Text) {
    w.locator.name == port && !w.stage.Ended?
  }

  predicate HolderUses(h: Holder, port: Text) { h.locator.name == port && h.open }

  datatype User = Task(id: nat) | Guard(id: nat)

  predicate Uses(w: World, u: User, port: Text) {
    match u
    case Task(id) => id in w.workers && WorkerUses(w.workers[id], port)
    case Guard(id) => id in w.holders && HolderUses(w.holders[id], port)
  }

  // ---------- What an effect puts in flight ----------

  function Deliver(w: World, e: Effect): World {
    match e
    case LeaseGranted(_, request, l, token, stream) =>
      w.(holders := w.holders[w.next := Holder(l, token, Lease(request, stream), true)], next := w.next + 1)
    case ReservationGranted(_, l, token) =>
      w.(holders := w.holders[w.next := Holder(l, token, Manual, true)], next := w.next + 1)
    case ScanStarted(l, generation) =>
      w.(workers := w.workers[w.next := Worker(l, generation, Scanning(None))], next := w.next + 1)
    case CloseStarted(l, generation, stream) =>
      w.(workers := w.workers[w.next := Worker(l, generation, Closing(stream))], next := w.next + 1)
    case _ => w
  }

  function DeliverAll(w: World, es: seq<Effect>): World {
    if es == [] then w else Deliver(DeliverAll(w, es[..|es| - 1]), es[|es| - 1])
  }

  function Absorb(w: World, c: Change): System { System(c.actor, DeliverAll(w, c.effects)) }

  lemma {:induction false} DeliverAppend(w: World, es: seq<Effect>, fs: seq<Effect>)
    ensures DeliverAll(w, es + fs) == DeliverAll(DeliverAll(w, es), fs)
  {
    if fs == [] {
      assert es + fs == es;
    } else {
      assert (es + fs)[..|es + fs| - 1] == es + fs[..|fs| - 1];
      DeliverAppend(w, es, fs[..|fs| - 1]);
    }
  }

  lemma DeliverOne(w: World, e: Effect)
    ensures DeliverAll(w, [e]) == Deliver(w, e)
  {
    assert [e][..0] == [];
  }

  lemma AbsorbThen(w: World, c: Change, d: Change)
    ensures Absorb(w, Then(c, d)) == Absorb(Absorb(w, c).world, d)
  {
    DeliverAppend(w, c.effects, d.effects);
  }

  // ---------- The invariant ----------

  predicate Fits(w: Worker, a: Actor) {
    && w.locator.name in a.candidates
    && a.candidates[w.locator.name].generation == w.generation
    && a.candidates[w.locator.name].locator == w.locator
    && match w.stage
       case Scanning(Some(stream)) => stream.port == w.locator.name
       case Reporting(id, stream) => stream.port == w.locator.name && id in stream.heard
       case Closing(stream) => stream.port == w.locator.name && a.candidates[w.locator.name].closing
       case _ => true
  }

  /** Different owners have different ports, and the ports are exactly the names. */
  predicate OneToOne(m: map<nat, Text>, names: set<Text>) {
    && (forall i, j :: i in m && j in m && i != j ==> m[i] != m[j])
    && m.Values == names
  }

  function TaskPorts(ws: map<nat, Worker>): map<nat, Text> { map i | i in ws :: ws[i].locator.name }

  function GuardPorts(hs: map<nat, Holder>): map<nat, Text> { map i | i in hs :: hs[i].locator.name }

  predicate AllFit(w: World, a: Actor) { forall i :: i in w.workers ==> i < w.next && Fits(w.workers[i], a) }

  predicate AllHold(w: World, a: Actor) { forall i :: i in w.holders ==> i < w.next && Holds(w.holders[i], a) }

  /** Every task in flight owns the one candidate entry of its port, and every entry is owned. */
  predicate WorkersOwn(s: System) {
    AllFit(s.world, s.actor) && OneToOne(TaskPorts(s.world.workers), s.actor.candidates.Keys)
  }

  predicate Holds(h: Holder, a: Actor) {
    && h.locator.name in a.leased
    && a.leased[h.locator.name] == Owner(h.token, OwnerName(h.kind), h.locator)
    && (h.kind.Lease? ==>
          && h.kind.stream.port == h.locator.name
          && h.kind.request.serialId in h.kind.stream.heard
          && !Excluded(a, h.locator))
  }

  /** The same for leases and reservations and the leased entries. A discovery lease never sits on an
      excluded port, and its stream announced the identity it was requested for. */
  predicate HoldersOwn(s: System) {
    AllHold(s.world, s.actor) && OneToOne(GuardPorts(s.world.holders), s.actor.leased.Keys)
  }

  /** After a pass, whatever conflicts is closing, and reservations wait only for that. */
  predicate Settled(a: Actor) {
    && (forall n :: n in a.candidates && MustClose(a, a.candidates[n]) ==> a.candidates[n].closing)
    && (forall i :: 0 <= i < |a.reservations| ==> a.reservations[i].port.name in a.candidates)
  }

  predicate Sound(s: System) {
    InOrder(s.actor) && WorkersOwn(s) && HoldersOwn(s)
  }

  predicate Inv(s: System) { Sound(s) && Settled(s.actor) }

  // ---------- Steps ----------

  datatype Step =
    | Asked(command: Command, o: Outside)
    | Noticed(event: Event, o: Outside)
    | Ticked
    | Opened(task: nat)
    | Heard(task: nat, ident: Text)
    | Matched(task: nat, ident: Text)
    | Quit(task: nat)
    | Reported(task: nat, o: Outside)
    | Dropped(holder: nat)
    | Released(holder: nat, o: Outside)

  /** One turn of the actor: its input, then a pass. */
  datatype Turn = Turn(step: Step, expiring: Outside, granting: Outside, answering: Outside)

  /** What clients may ask. Releases come from holders only, and nobody else may send one. */
  predicate FromClients(c: Command) { !c.Release? }

  function WithStage(w: World, i: nat, stage: Stage): World
    requires i in w.workers
  {
    w.(workers := w.workers[i := w.workers[i].(stage := stage)])
  }

  /** Steps of tasks and holders that the actor does not see yet. */
  function Move(w: World, step: Step): World {
    match step
    case Opened(i) =>
      if i in w.workers && w.workers[i].stage == Scanning(None)
      then WithStage(w, i, Scanning(Some(Stream(w.workers[i].locator.name, {}))))
      else w
    case Heard(i, id) =>
      if i in w.workers && w.workers[i].stage.Scanning? && w.workers[i].stage.io.Some?
      then var stream := w.workers[i].stage.io.value;
           WithStage(w, i, Scanning(Some(stream.(heard := stream.heard + {id}))))
      else w
    case Matched(i, id) =>
      if i in w.workers && w.workers[i].stage.Scanning? && w.workers[i].stage.io.Some?
         && id in w.workers[i].stage.io.value.heard
      then WithStage(w, i, Reporting(id, w.workers[i].stage.io.value))
      else w
    case Quit(i) =>
      if i in w.workers && (w.workers[i].stage.Scanning? || w.workers[i].stage.Closing?)
      then WithStage(w, i, Ended)
      else w
    case Dropped(i) =>
      if i in w.holders then w.(holders := w.holders[i := w.holders[i].(open := false)]) else w
    case _ => w
  }

  /** What the actor receives in a step, and what is no longer in flight then. */
  function Receive(s: System, step: Step): (Change, World) {
    match step
    case Asked(command, o) =>
      (if FromClients(command) then OnCommand(s.actor, command, o) else Same(s.actor), s.world)
    case Noticed(event, o) =>
      (if event.Inventory? || event.Fault? then OnEvent(s.actor, event, o) else Same(s.actor), s.world)
    case Reported(i, o) =>
      if i in s.world.workers && s.world.workers[i].stage.Reporting? then
        var w := s.world.workers[i];
        (OnEvent(s.actor, Found(w.locator, w.generation, w.stage.id, w.stage.stream), o),
         s.world.(workers := s.world.workers - {i}))
      else if i in s.world.workers && s.world.workers[i].stage.Ended? then
        var w := s.world.workers[i];
        (OnEvent(s.actor, Closed(w.locator.name, w.generation), o),
         s.world.(workers := s.world.workers - {i}))
      else (Same(s.actor), s.world)
    case Released(i, o) =>
      if i in s.world.holders && !s.world.holders[i].open then
        var h := s.world.holders[i];
        (OnCommand(s.actor, Release(h.locator.name, h.token), o),
         s.world.(holders := s.world.holders - {i}))
      else (Same(s.actor), s.world)
    case _ => (Same(s.actor), s.world)
  }

  predicate WakesActor(step: Step) {
    step.Asked? || step.Noticed? || step.Ticked? || step.Reported? || step.Released?
  }

  /** The change the actor makes in a turn that wakes it. */
  function TurnChange(s: System, t: Turn): Change {
    var input := Receive(s, t.step).0;
    Then(input, Reconcile(input.actor, t.expiring, t.granting, t.answering))
  }

  function Next(s: System, t: Turn): System {
    if WakesActor(t.step)
    then Absorb(Receive(s, t.step).1, TurnChange(s, t))
    else s.(world := Move(s.world, t.step))
  }

  function Start(now: Millis, links: map<Text, Text>): System {
    System(Initial(now, links), World(map[], map[], 0))
  }

  function Run(now: Millis, links: map<Text, Text>, turns: seq<Turn>): System {
    if turns == [] then Start(now, links)
    else Next(Run(now, links, turns[..|turns| - 1]), turns[|turns| - 1])
  }

  // ---------- One owner for every name ----------

  lemma OneToOneAdd(m: map<nat, Text>, names: set<Text>, i: nat, n: Text)
    requires OneToOne(m, names) && i !in m && n !in names
    ensures OneToOne(m[i := n], names + {n})
  {
    var more := m[i := n];
    forall k | k in m ensures m[k] in names && more[k] == m[k] {
      assert m[k] in m.Values;
    }
    forall x | x in names + {n} ensures x in more.Values {
      if x in names {
        var k :| k in m && m[k] == x;
        assert more[k] == x;
      } else {
        assert more[i] == x;
      }
    }
  }

  lemma OneToOneRemove(m: map<nat, Text>, names: set<Text>, i: nat)
    requires OneToOne(m, names) && i in m
    ensures OneToOne(m - {i}, names - {m[i]})
    ensures forall j :: j in m && j != i ==> m[j] != m[i]
  {
    var rest := m - {i};
    forall x | x in names - {m[i]} ensures x in rest.Values {
      var k :| k in m && m[k] == x;
      assert rest[k] == x;
    }
    assert forall k :: k in rest ==> m[k] in m.Values;
  }

  // ---------- Steps of tasks and holders ----------

  lemma WithStageKeeps(s: System, i: nat, stage: Stage)
    requires WorkersOwn(s) && i in s.world.workers
    requires Fits(s.world.workers[i].(stage := stage), s.actor)
    ensures WorkersOwn(s.(world := WithStage(s.world, i, stage)))
  {
    hide Fits, OneToOne;
    assert TaskPorts(WithStage(s.world, i, stage).workers) == TaskPorts(s.world.workers);
  }

  lemma DropKeeps(s: System, i: nat)
    requires HoldersOwn(s) && i in s.world.holders
    ensures HoldersOwn(s.(world := Move(s.world, Dropped(i))))
  {
    hide OneToOne;
    assert GuardPorts(Move(s.world, Dropped(i)).holders) == GuardPorts(s.world.holders);
  }

  lemma MoveKeeps(s: System, step: Step)
    requires Inv(s)
    ensures Inv(s.(world := Move(s.world, step)))
  {
    hide Books, Settled, HoldersOwn, WorkersOwn, NoRivals, DistinctPorts, NoneLeased;
    var w := s.world;
    MoveFits(s, step);
    match step
    case Dropped(i) => if i in w.holders { DropKeeps(s, i); SameWorkers(s, s.(world := Move(w, step))); }
    case Opened(i) => SameHolders(s, s.(world := Move(w, step)));
    case Heard(i, id) => SameHolders(s, s.(world := Move(w, step)));
    case Matched(i, id) => SameHolders(s, s.(world := Move(w, step)));
    case Quit(i) => SameHolders(s, s.(world := Move(w, step)));
    case _ =>
  }

  lemma MoveFits(s: System, step: Step)
    requires WorkersOwn(s)
    ensures WorkersOwn(s.(world := Move(s.world, step)))
  {
    var w := s.world;
    match step
    case Opened(i) =>
      if i in w.workers && w.workers[i].stage == Scanning(None) {
        WithStageKeeps(s, i, Scanning(Some(Stream(w.workers[i].locator.name, {}))));
      }
    case Heard(i, id) =>
      if i in w.workers && w.workers[i].stage.Scanning? && w.workers[i].stage.io.Some? {
        var stream := w.workers[i].stage.io.value;
        WithStageKeeps(s, i, Scanning(Some(stream.(heard := stream.heard + {id}))));
      }
    case Matched(i, id) =>
      if Move(w, step) != w {
        WithStageKeeps(s, i, Reporting(id, w.workers[i].stage.io.value));
      }
    case Quit(i) =>
      if Move(w, step) != w {
        WithStageKeeps(s, i, Ended);
      }
    case _ =>
  }

  lemma SameWorkers(s: System, t: System)
    requires WorkersOwn(s)
    requires t.world.workers == s.world.workers && t.world.next >= s.world.next
    requires t.actor.candidates == s.actor.candidates
    ensures WorkersOwn(t)
  {}

  lemma SameHolders(s: System, t: System)
    requires HoldersOwn(s)
    requires t.world.holders == s.world.holders && t.world.next >= s.world.next
    requires t.actor.leased == s.actor.leased
    requires t.actor.exclusions == s.actor.exclusions && t.actor.links == s.actor.links
    ensures HoldersOwn(t)
  {}

  // ---------- Entries come and go with their owners ----------

  lemma TaskAdded(s: System, t: System, w: Worker, c: Candidate)
    requires WorkersOwn(s) && w.locator.name !in s.actor.candidates
    requires t.actor.candidates == s.actor.candidates[w.locator.name := c]
    requires t.world.workers == s.world.workers[s.world.next := w] && t.world.next == s.world.next + 1
    requires Fits(w, t.actor)
    ensures WorkersOwn(t)
  {
    hide OneToOne;
    var n := w.locator.name;
    assert TaskPorts(t.world.workers) == TaskPorts(s.world.workers)[s.world.next := n];
    assert t.actor.candidates.Keys == s.actor.candidates.Keys + {n};
    OneToOneAdd(TaskPorts(s.world.workers), s.actor.candidates.Keys, s.world.next, n);
  }

  lemma TaskRemoved(s: System, t: System, i: nat)
    requires WorkersOwn(s) && i in s.world.workers
    requires t.actor.candidates == s.actor.candidates - {s.world.workers[i].locator.name}
    requires t.world.workers == s.world.workers - {i} && t.world.next == s.world.next
    ensures WorkersOwn(t)
  {
    hide OneToOne;
    var m: map<nat, Text>, n := TaskPorts(s.world.workers), s.world.workers[i].locator.name;
    var rest: map<nat, Text> := m - {i};
    assert TaskPorts(t.world.workers) == rest;
    assert t.actor.candidates.Keys == s.actor.candidates.Keys - {n};
    OneToOneRemove(m, s.actor.candidates.Keys, i);
    forall j | j in t.world.workers ensures Fits(t.world.workers[j], t.actor) {
      assert Fits(s.world.workers[j], s.actor) && m[j] != m[i];
    }
  }

  lemma GuardAdded(s: System, t: System, h: Holder)
    requires HoldersOwn(s) && h.locator.name !in s.actor.leased
    requires t.actor.leased == s.actor.leased[h.locator.name := Owner(h.token, OwnerName(h.kind), h.locator)]
    requires t.actor.exclusions == s.actor.exclusions && t.actor.links == s.actor.links
    requires t.world.holders == s.world.holders[s.world.next := h] && t.world.next == s.world.next + 1
    requires Holds(h, t.actor)
    ensures HoldersOwn(t)
  {
    hide OneToOne;
    var n := h.locator.name;
    assert GuardPorts(t.world.holders) == GuardPorts(s.world.holders)[s.world.next := n];
    assert t.actor.leased.Keys == s.actor.leased.Keys + {n};
    OneToOneAdd(GuardPorts(s.world.holders), s.actor.leased.Keys, s.world.next, n);
  }

  lemma GuardRemoved(s: System, t: System, i: nat)
    requires HoldersOwn(s) && i in s.world.holders
    requires t.actor.leased == s.actor.leased - {s.world.holders[i].locator.name}
    requires t.actor.exclusions == s.actor.exclusions && t.actor.links == s.actor.links
    requires t.world.holders == s.world.holders - {i} && t.world.next == s.world.next
    ensures HoldersOwn(t)
  {
    hide OneToOne;
    var m: map<nat, Text>, n := GuardPorts(s.world.holders), s.world.holders[i].locator.name;
    var rest: map<nat, Text> := m - {i};
    assert GuardPorts(t.world.holders) == rest;
    assert t.actor.leased.Keys == s.actor.leased.Keys - {n};
    OneToOneRemove(m, s.actor.leased.Keys, i);
    forall j | j in t.world.holders ensures Holds(t.world.holders[j], t.actor) {
      assert Holds(s.world.holders[j], s.actor) && m[j] != m[i];
    }
  }

  // ---------- Commands ----------

  /** Only discovery leases that match a newly added selector stand against an exclusion. */
  lemma ExcludeKeeps(s: System, selectors: seq<PortSelector>)
    requires HoldersOwn(s) && !ExcludeConflicts(s.actor, selectors)
    ensures HoldersOwn(s.(actor := s.actor.(exclusions := selectors)))
  {
    var b := s.actor.(exclusions := selectors);
    assert forall i :: i in s.world.holders ==> Holds(s.world.holders[i], s.actor);
    assert forall i :: i in s.world.holders ==> Holds(s.world.holders[i], b);
  }

  lemma AdmitKeeps(s: System, request: BindRequest, reply: ReplyId, o: Outside)
    requires Sound(s)
    ensures Sound(Absorb(s.world, OnBind(s.actor, request, reply, o)))
  {
    hide Books, WorkersOwn, HoldersOwn, DistinctPorts, NoneLeased, Min, NoRivals, HasRival, Standing;
    StandingNoRivals(s.actor.pending, request);
    var kept, c := Standing(s.actor.pending, request), OnBind(s.actor, request, reply, o);
    if reply !in o.gone && !HasRival(kept, request) {
      var p := Admit(s.actor.(pending := kept), request, reply, o.now).pending;
      AdmittedNoRivals(kept, p[|kept|]);
      assert p == kept + [p[|kept|]];
    }
    QuietKeeps(s, c);
  }

  lemma SameBooks(a: Actor, b: Actor)
    requires a.candidates == b.candidates && a.leased == b.leased && a.sequence <= b.sequence
    ensures Books(a) ==> Books(b)
    ensures NoneLeased(a, a.reservations) ==> NoneLeased(b, a.reservations)
  {}

  lemma {:induction false} Inert(w: World, es: seq<Effect>)
    requires forall i :: 0 <= i < |es| ==> Silent(es[i])
    ensures DeliverAll(w, es) == w
  {
    if es != [] {
      Inert(w, es[..|es| - 1]);
    }
  }

  /** A change that only replies and leaves entries, exclusions and reservations alone. */
  lemma QuietKeeps(s: System, c: Change)
    requires Sound(s) && NoRivals(c.actor.pending)
    requires c.actor.candidates == s.actor.candidates && c.actor.leased == s.actor.leased
    requires c.actor.exclusions == s.actor.exclusions && c.actor.links == s.actor.links
    requires c.actor.sequence == s.actor.sequence
    requires DistinctPorts(c.actor.reservations) && NoneLeased(s.actor, c.actor.reservations)
    requires forall i :: 0 <= i < |c.effects| ==> Silent(c.effects[i])
    ensures Sound(Absorb(s.world, c)) && Absorb(s.world, c).world == s.world
  {
    hide WorkersOwn, HoldersOwn, NoRivals, DistinctPorts, Excluded;
    Inert(s.world, c.effects);
    SameWorkers(s, Absorb(s.world, c));
    SameHolders(s, Absorb(s.world, c));
  }

  lemma CommandKeeps(s: System, c: Command, o: Outside)
    requires Sound(s) && FromClients(c)
    ensures Sound(Absorb(s.world, OnCommand(s.actor, c, o)))
  {
    hide Books, WorkersOwn, HoldersOwn, NoRivals, ExcludeConflicts, Matches, OnBind;
    match c
    case Bind(request, reply) => AdmitKeeps(s, request, reply, o);
    case Exclude(selectors, reply) =>
      var d := OnExclude(s.actor, selectors, reply);
      if !ExcludeConflicts(s.actor, selectors) {
        ExcludeKeeps(s, selectors);
        var t := s.(actor := s.actor.(exclusions := selectors));
        SameWorkers(s, t);
        SameBooks(s.actor, t.actor);
        QuietKeeps(t, d);
      } else {
        QuietKeeps(s, d);
      }
    case _ => QuietKeeps(s, OnCommand(s.actor, c, o));
  }

  /** A release in flight always finds the entry it was granted for, and removes that entry only. */
  lemma ReleaseKeeps(s: System, i: nat, o: Outside)
    requires Inv(s) && i in s.world.holders && !s.world.holders[i].open
    ensures var (c, w) := Receive(s, Released(i, o));
            Sound(Absorb(w, c)) && c.actor == s.actor.(leased := s.actor.leased - {s.world.holders[i].locator.name})
            && s.world.holders[i].locator.name in s.actor.leased
  {
    hide WorkersOwn, NoRivals, OneToOne;
    var (c, w) := Receive(s, Released(i, o));
    var h := s.world.holders[i];
    assert Holds(h, s.actor);
    SameWorkers(s, Absorb(w, c));
    GuardRemoved(s, Absorb(w, c), i);
  }

  // ---------- Events ----------

  /** The state between taking a candidate out and putting its stream somewhere else. */
  function Without(s: System, i: nat): System
    requires i in s.world.workers
  {
    System(s.actor.(candidates := s.actor.candidates - {s.world.workers[i].locator.name}),
           s.world.(workers := s.world.workers - {i}))
  }

  lemma WithoutKeeps(s: System, i: nat)
    requires Sound(s) && i in s.world.workers
    ensures Sound(Without(s, i)) && s.world.workers[i].locator.name !in s.actor.leased
  {
    hide WorkersOwn, HoldersOwn, NoRivals, DistinctPorts, Excluded;
    assert Fits(s.world.workers[i], s.actor) by {
      assert WorkersOwn(s);
      Fitting(s, i);
    }
    TaskRemoved(s, Without(s, i), i);
    SameHolders(s, Without(s, i));
  }

  lemma Fitting(s: System, i: nat)
    requires WorkersOwn(s) && i in s.world.workers
    ensures i < s.world.next && Fits(s.world.workers[i], s.actor)
  {}

  lemma GrantKeeps(s: System, k: nat, l: PortLocator, stream: Stream)
    requires Sound(s) && k < |s.actor.pending|
    requires l.name !in s.actor.candidates && l.name !in s.actor.leased
    requires !Excluded(s.actor, l) && !IsReserved(s.actor.reservations, l.name)
    requires stream.port == l.name && s.actor.pending[k].request.serialId in stream.heard
    ensures Sound(Absorb(s.world, GrantLease(s.actor, k, l, stream)))
  {
    hide WorkersOwn, HoldersOwn, NoRivals, DistinctPorts, Matches;
    var c := GrantLease(s.actor, k, l, stream);
    var p, t := s.actor.pending[k], Absorb(s.world, c);
    DeliverOne(s.world, c.effects[0]);
    DropOneNoRivals(s.actor.pending, k);
    SameWorkers(s, t);
    GuardAdded(s, t, Holder(l, s.actor.sequence + 1, Lease(p.request, stream), true));
  }

  lemma StaleKeeps(s: System, l: PortLocator, generation: nat, stream: Stream)
    requires Sound(s) && l.name !in s.actor.candidates && l.name !in s.actor.leased
    requires 0 < generation <= s.actor.sequence && stream.port == l.name
    ensures Sound(Absorb(s.world, CloseStale(s.actor, l, generation, stream)))
  {
    hide WorkersOwn, HoldersOwn, NoRivals, DistinctPorts, Matches, Excluded;
    var c := CloseStale(s.actor, l, generation, stream);
    var t := Absorb(s.world, c);
    DeliverOne(s.world, c.effects[0]);
    SameHolders(s, t);
    TaskAdded(s, t, Worker(l, generation, Closing(stream)), Candidate(generation, l, true));
  }

  lemma FoundSound(s: System, i: nat, o: Outside)
    requires Inv(s) && i in s.world.workers && s.world.workers[i].stage.Reporting?
    ensures var (c, w) := Receive(s, Reported(i, o)); Sound(Absorb(w, c))
  {
    hide WorkersOwn, HoldersOwn, NoRivals, DistinctPorts, NoneLeased, Matches, Wants, GrantLease, CloseStale;
    var (w, rest) := (s.world.workers[i], Without(s, i));
    var l, stream := w.locator, w.stage.stream;
    Fitting(s, i);
    WithoutKeeps(s, i);
    var k := Position(s.actor.pending, w.stage.id, o);
    if !s.actor.candidates[l.name].closing && k < |s.actor.pending| && o.alive {
      assert !MustClose(s.actor, s.actor.candidates[l.name]);
      assert s.actor.pending[k].request.serialId == w.stage.id by {
        Wanted(s.actor.pending[k], w.stage.id, o);
      }
      GrantKeeps(rest, k, l, stream);
    } else {
      StaleKeeps(rest, l, w.generation, stream);
    }
  }

  /** What became of a found stream: a lease for the bind in line, or a task that closes it. */
  predicate FoundOutcome(a: Actor, found: Worker, o: Outside, b: Actor, w: World, next: nat)
    requires found.stage.Reporting?
  {
    var (l, id, stream) := (found.locator, found.stage.id, found.stage.stream);
    if Leasable(a, l.name, found.generation, id, o) then
      var k := Position(a.pending, id, o);
      && k < |a.pending| && HandedOver(a, b, k, l)
      && next in w.holders && w.holders[next] == Holder(l, b.sequence, Lease(a.pending[k].request, stream), true)
    else
      && KeptClosing(a, b, l, found.generation)
      && next in w.workers && w.workers[next] == Worker(l, found.generation, Closing(stream))
  }

  lemma FoundEnds(s: System, i: nat, o: Outside)
    requires i in s.world.workers && s.world.workers[i].stage.Reporting?
    ensures var (c, w) := Receive(s, Reported(i, o));
            FoundOutcome(s.actor, s.world.workers[i], o, c.actor, Absorb(w, c).world, s.world.next)
  {
    hide Leasable, HandedOver, KeptClosing, Position, OnFound;
    var (c, w) := Receive(s, Reported(i, o));
    var found := s.world.workers[i];
    FoundMeans(s.actor, found.locator, found.generation, found.stage.id, found.stage.stream, o);
    DeliverOne(w, c.effects[0]);
  }

  /** A found stream becomes the one lease of its port if a bind can have it, and is closed by a task that
      keeps the port's candidate entry otherwise. */
  lemma FoundKeeps(s: System, i: nat, o: Outside)
    requires Inv(s) && i in s.world.workers && s.world.workers[i].stage.Reporting?
    ensures var (c, w) := Receive(s, Reported(i, o));
            && Sound(Absorb(w, c))
            && FoundOutcome(s.actor, s.world.workers[i], o, c.actor, Absorb(w, c).world, s.world.next)
  {
    hide Sound, Inv, Receive, FoundOutcome;
    FoundSound(s, i, o);
    FoundEnds(s, i, o);
  }

  lemma Wanted(p: Pending, id: Text, o: Outside)
    requires Wants(p, id, o)
    ensures p.request.serialId == id
  {}

  /** A closing message in flight always finds the entry it was started for, and removes that entry only. */
  lemma ClosedKeeps(s: System, i: nat, o: Outside)
    requires Inv(s) && i in s.world.workers && s.world.workers[i].stage.Ended?
    ensures var (c, w) := Receive(s, Reported(i, o));
            && Sound(Absorb(w, c))
            && s.world.workers[i].locator.name in s.actor.candidates
            && c.actor.candidates == s.actor.candidates - {s.world.workers[i].locator.name}
  {
    hide WorkersOwn, HoldersOwn, NoRivals, DistinctPorts, NoneLeased, Matches;
    var (c, w) := Receive(s, Reported(i, o));
    Fitting(s, i);
    WithoutKeeps(s, i);
    var rest := Without(s, i);
    QuietKeeps(rest, Same(c.actor)) by {
      SameBooks(rest.actor, c.actor);
    }
  }

  lemma ReceiveKeeps(s: System, step: Step)
    requires Inv(s)
    ensures var (c, w) := Receive(s, step); Sound(Absorb(w, c))
  {
    hide Books, WorkersOwn, HoldersOwn, NoRivals, DistinctPorts, NoneLeased, Settled, OnCommand, OnFound;
    match step
    case Asked(command, o) =>
      if FromClients(command) { CommandKeeps(s, command, o); }
    case Noticed(event, o) =>
      if event.Inventory? || event.Fault? { NoticeKeeps(s, event, o); }
    case Reported(i, o) =>
      if i in s.world.workers && s.world.workers[i].stage.Reporting? {
        FoundKeeps(s, i, o);
      } else if i in s.world.workers && s.world.workers[i].stage.Ended? {
        ClosedKeeps(s, i, o);
      }
    case Released(i, o) =>
      if i in s.world.holders && !s.world.holders[i].open { ReleaseKeeps(s, i, o); }
    case _ =>
  }

  lemma NoticeKeeps(s: System, event: Event, o: Outside)
    requires Sound(s) && (event.Inventory? || event.Fault?)
    ensures Sound(Absorb(s.world, OnEvent(s.actor, event, o)))
  {
    hide Books, WorkersOwn, HoldersOwn, NoRivals, DistinctPorts;
    QuietKeeps(s, OnEvent(s.actor, event, o));
  }

  // ---------- The pass ----------

  /** Expiring keeps a part of the binds and drops remembered locations; nothing is put in flight. */
  lemma {:induction false} ExpiryOf(a: Actor, items: seq<Pending>, window: Millis, o: Outside)
    requires a.pending == []
    ensures var c := Fold(Expirer(window, o), a, items);
            && c.actor == a.(pending := c.actor.pending, locations := c.actor.locations)
            && (forall i :: 0 <= i < |c.effects| ==> c.effects[i].BindRefused?)
            && (forall i :: 0 <= i < |c.actor.pending| ==> !Overdue(c.actor.pending[i], o.now))
  {
    hide Deadlines, Overdue;
    if items != [] {
      var front, p := items[..|items| - 1], items[|items| - 1];
      ExpiryOf(a, front, window, o);
      var c := Fold(Expirer(window, o), a, front);
      assert Fold(Expirer(window, o), a, items) == Then(c, ExpireOne(c.actor, p, window, o));
    }
  }

  predicate NoneRivals(pending: seq<Pending>, r: BindRequest) {
    forall i :: 0 <= i < |pending| ==> !Rivals(pending[i], r)
  }

  lemma {:induction false} ExpiryRival(a: Actor, items: seq<Pending>, window: Millis, o: Outside, r: BindRequest)
    requires a.pending == [] && NoneRivals(items, r)
    ensures NoneRivals(Fold(Expirer(window, o), a, items).actor.pending, r)
  {
    if items != [] {
      var front, p := items[..|items| - 1], items[|items| - 1];
      ExpiryRival(a, front, window, o, r);
      ExpiryOf(a, front, window, o);
      var c := Fold(Expirer(window, o), a, front);
      assert Fold(Expirer(window, o), a, items) == Then(c, ExpireOne(c.actor, p, window, o));
      var q := Deadlines(p, window, o.now);
      assert items[|items| - 1] == p && q.request == p.request && !Rivals(q, r);
      var kept := ExpireOne(c.actor, p, window, o).actor.pending;
      assert kept == c.actor.pending || kept == c.actor.pending + [q];
    }
  }

  lemma {:induction false} ExpiryNoRivals(a: Actor, items: seq<Pending>, window: Millis, o: Outside)
    requires a.pending == [] && NoRivals(items)
    ensures NoRivals(Fold(Expirer(window, o), a, items).actor.pending)
  {
    if items != [] {
      var front, p := items[..|items| - 1], items[|items| - 1];
      ExpiryNoRivals(a, front, window, o);
      ExpiryRival(a, front, window, o, p.request);
      var c := Fold(Expirer(window, o), a, front);
      assert Fold(Expirer(window, o), a, items) == Then(c, ExpireOne(c.actor, p, window, o));
      AddNoRival(c.actor.pending, Deadlines(p, window, o.now), p.request);
    }
  }

  lemma AddNoRival(kept: seq<Pending>, q: Pending, r: BindRequest)
    requires NoRivals(kept) && q.request == r && NoneRivals(kept, r)
    ensures NoRivals(kept + [q])
  {}

  lemma ExpireKeeps(s: System, o: Outside)
    requires Sound(s)
    ensures var c := Expire(s.actor, o);
            && Sound(Absorb(s.world, c)) && Absorb(s.world, c).world == s.world
            && c.actor == s.actor.(pending := c.actor.pending, locations := c.actor.locations)
  {
    hide Books, WorkersOwn, HoldersOwn, NoRivals, DistinctPorts, ScanWindow, Fold;
    var a, window := s.actor.(pending := []), ScanWindow(s.actor.pending);
    ExpiryOf(a, s.actor.pending, window, o);
    ExpiryNoRivals(a, s.actor.pending, window, o);
    QuietKeeps(s, Expire(s.actor, o));
  }

  /** What a pass makes sure of before it grants reservations. */
  predicate ConflictsClose(a: Actor) {
    forall n :: n in a.candidates && MustClose(a, a.candidates[n]) ==> a.candidates[n].closing
  }

  lemma CloseKeeps(s: System)
    requires Sound(s)
    ensures Sound(s.(actor := CloseCandidates(Publish(s.actor)))) && ConflictsClose(CloseCandidates(Publish(s.actor)))
  {
    hide HoldersOwn, NoRivals, DistinctPorts, NoneLeased, Excluded, IsReserved, OneToOne;
    var b := CloseCandidates(Publish(s.actor));
    assert b.candidates.Keys == s.actor.candidates.Keys;
    SameHolders(s, s.(actor := b));
    forall i | i in s.world.workers ensures Fits(s.world.workers[i], b) {
      assert Fits(s.world.workers[i], s.actor);
    }
    forall n | n in b.candidates ensures MustClose(b, b.candidates[n]) ==> b.candidates[n].closing {
      assert b.candidates[n] == SerialDiscovery.Stopped(Publish(s.actor), s.actor.candidates[n]);
      SameCondition(Publish(s.actor), b, s.actor.candidates[n], b.candidates[n]);
    }
    assert NoneLeased(b, b.reservations) by { assert NoneLeased(s.actor, s.actor.reservations); SameLeased(s.actor, b); }
  }

  lemma SameLeased(a: Actor, b: Actor)
    requires a.leased == b.leased && a.reservations == b.reservations
    ensures NoneLeased(a, a.reservations) ==> NoneLeased(b, b.reservations)
  {}

  lemma SameCondition(a: Actor, b: Actor, c: Candidate, d: Candidate)
    requires b == a.(candidates := b.candidates) && c.locator == d.locator
    ensures MustClose(a, c) == MustClose(b, d)
  {}

  /** When an exclusion is answered, no candidate matches the exclusions. */
  lemma {:induction false} AcceptedOnly(replies: seq<ReplyId>)
    ensures forall i :: 0 <= i < |Accepted(replies)| ==> Accepted(replies)[i].ExcludeAnswered? && Accepted(replies)[i].accepted
  {
    if replies != [] {
      AcceptedOnly(replies[..|replies| - 1]);
    }
  }

  lemma AnswerExcludesKeeps(s: System)
    requires Sound(s) && ConflictsClose(s.actor)
    ensures var c := AnswerExcludes(s.actor);
            && Sound(Absorb(s.world, c)) && Absorb(s.world, c).world == s.world
            && ConflictsClose(c.actor) && c.actor == s.actor.(excludedReplies := c.actor.excludedReplies)
            && (forall i :: 0 <= i < |c.effects| ==> c.effects[i].ExcludeAnswered?)
            && (c.effects != [] ==> !AnyExcludedCandidate(s.actor))
  {
    hide Books, WorkersOwn, HoldersOwn, NoRivals, DistinctPorts, NoneLeased, AnyExcludedCandidate, ConflictsClose;
    AcceptedOnly(s.actor.excludedReplies);
    var c := AnswerExcludes(s.actor);
    assert NoneLeased(s.actor, c.actor.reservations);
    QuietKeeps(s, c);
    assert ConflictsClose(c.actor) by { SameClosed(s.actor, c.actor); }
  }

  lemma SameClosed(a: Actor, b: Actor)
    requires a.candidates == b.candidates && (a.pending == [] <==> b.pending == [])
    requires a.exclusions == b.exclusions && a.links == b.links && a.reservations == b.reservations
    ensures ConflictsClose(a) ==> ConflictsClose(b)
  {
    assert forall n :: n in a.candidates ==> MustClose(a, a.candidates[n]) == MustClose(b, b.candidates[n]);
  }

  // Granting

  /** Granted or waiting, after the first items were handled. */
  predicate Granting(w: World, a: Actor, c: Change, items: seq<Reservation>, k: nat)
    requires k <= |items|
  {
    && Books(c.actor) && WorkersOwn(Absorb(w, c)) && HoldersOwn(Absorb(w, c))
    && c.actor == a.(reservations := c.actor.reservations, leased := c.actor.leased, sequence := c.actor.sequence)
    && (forall i :: k <= i < |items| ==> items[i].port.name !in c.actor.leased)
    && DistinctPorts(c.actor.reservations) && NoneLeased(c.actor, c.actor.reservations)
    && (forall i :: 0 <= i < |c.actor.reservations| ==>
          c.actor.reservations[i].port.name in a.candidates && c.actor.reservations[i] in items[..k])
    && (forall i :: 0 <= i < |c.effects| ==> c.effects[i].ReservationGranted?)
  }

  lemma ReservationKeeps(s: System, r: Reservation, token: nat)
    requires Books(s.actor) && WorkersOwn(s) && HoldersOwn(s)
    requires r.port.name !in s.actor.candidates && r.port.name !in s.actor.leased && token == s.actor.sequence + 1
    ensures var c := Change(s.actor.(sequence := token,
                              leased := s.actor.leased[r.port.name := Owner(token, "manual", r.port)]),
                            [ReservationGranted(r.reply, r.port, token)]);
            Books(c.actor) && WorkersOwn(Absorb(s.world, c)) && HoldersOwn(Absorb(s.world, c))
  {
    hide WorkersOwn, HoldersOwn, Excluded;
    var c := Change(s.actor.(sequence := token,
                      leased := s.actor.leased[r.port.name := Owner(token, "manual", r.port)]),
                    [ReservationGranted(r.reply, r.port, token)]);
    var t := Absorb(s.world, c);
    DeliverOne(s.world, c.effects[0]);
    SameWorkers(s, t);
    GuardAdded(s, t, Holder(r.port, token, Manual, true));
  }

  lemma {:induction false} GrantingFold(w: World, a: Actor, items: seq<Reservation>, k: nat, o: Outside)
    requires Sound(System(a, w)) && a.reservations == [] && k <= |items|
    requires DistinctPorts(items) && NoneLeased(a, items)
    ensures Granting(w, a, Fold(Granter(o), a, items[..k]), items, k)
  {
    hide Books, WorkersOwn, HoldersOwn;
    if k > 0 {
      assert items[..k][..k - 1] == items[..k - 1];
      GrantingFold(w, a, items, k - 1, o);
      var c, r := Fold(Granter(o), a, items[..k - 1]), items[k - 1];
      var d := GrantOne(c.actor, r, o);
      assert Fold(Granter(o), a, items[..k]) == Then(c, d);
      AbsorbThen(w, c, d);
      GrantingStep(w, a, c, items, k - 1, o);
    }
  }

  lemma GrantingStep(w: World, a: Actor, c: Change, items: seq<Reservation>, k: nat, o: Outside)
    requires k < |items| && Granting(w, a, c, items, k) && DistinctPorts(items)
    requires Books(a)
    ensures Granting(w, a, Then(c, GrantOne(c.actor, items[k], o)), items, k + 1)
  {
    hide WorkersOwn, HoldersOwn;
    var r, s := items[k], Absorb(w, c);
    var d := GrantOne(c.actor, r, o);
    var e := Then(c, d);
    AbsorbThen(w, c, d);
    assert items[..k + 1] == items[..k] + [r];
    if r.reply in o.gone || (r.port.name !in c.actor.candidates && !o.alive) {
      assert e == c;
    } else if r.port.name in c.actor.candidates {
      GrantingWait(w, a, c, items, k);
      assert e == Change(c.actor.(reservations := c.actor.reservations + [r]), c.effects);
    } else {
      ReservationKeeps(s, r, c.actor.sequence + 1);
    }
  }

  lemma GrantingWait(w: World, a: Actor, c: Change, items: seq<Reservation>, k: nat)
    requires k < |items| && Granting(w, a, c, items, k) && DistinctPorts(items)
    requires items[k].port.name in c.actor.candidates
    ensures Granting(w, a, Change(c.actor.(reservations := c.actor.reservations + [items[k]]), c.effects), items, k + 1)
  {
    hide WorkersOwn, HoldersOwn;
    var s, r := Absorb(w, c), items[k];
    var e := Change(c.actor.(reservations := c.actor.reservations + [r]), c.effects);
    SameWorkers(s, Absorb(w, e));
    SameHolders(s, Absorb(w, e));
    assert items[..k + 1] == items[..k] + [r];
    forall i | 0 <= i < |c.actor.reservations| ensures c.actor.reservations[i].port.name != r.port.name {
      var j :| 0 <= j < |items[..k]| && items[..k][j] == c.actor.reservations[i];
    }
  }

  lemma GrantReservationsKeeps(s: System, o: Outside)
    requires Sound(s) && ConflictsClose(s.actor)
    ensures var c := GrantReservations(s.actor, o);
            && Inv(Absorb(s.world, c))
            && c.actor == s.actor.(reservations := c.actor.reservations, leased := c.actor.leased, sequence := c.actor.sequence)
            && (forall i :: 0 <= i < |c.effects| ==> c.effects[i].ReservationGranted?)
  {
    hide Books, WorkersOwn, HoldersOwn, NoRivals, ConflictsClose, Settled, Excluded;
    var items, a := s.actor.reservations, s.actor.(reservations := []);
    SameWorkers(s, System(a, s.world));
    SameHolders(s, System(a, s.world));
    SameBooks(s.actor, a);
    assert DistinctPorts(a.reservations) && NoneLeased(a, a.reservations) && NoneLeased(a, items);
    assert items[..|items|] == items;
    GrantingFold(s.world, a, items, |items|, o);
    WaitingSettled(s.world, s.actor, GrantReservations(s.actor, o));
  }

  /** Reservations that still wait were waiting before, so what is in their way closes already. */
  lemma WaitingSettled(w: World, a: Actor, c: Change)
    requires ConflictsClose(a) && Granting(w, a.(reservations := []), c, a.reservations, |a.reservations|)
    ensures Settled(c.actor)
  {
    hide WorkersOwn, HoldersOwn, Books, Matches;
    assert a.reservations[..|a.reservations|] == a.reservations;
    forall n | n in c.actor.candidates && MustClose(c.actor, c.actor.candidates[n]) ensures c.actor.candidates[n].closing {
      var d := a.candidates[n];
      assert Excluded(c.actor, d.locator) == Excluded(a, d.locator);
      if IsReserved(c.actor.reservations, d.locator.name) {
        var i :| 0 <= i < |c.actor.reservations| && c.actor.reservations[i].port.name == d.locator.name;
        var j :| 0 <= j < |a.reservations| && a.reservations[j] == c.actor.reservations[i];
        assert IsReserved(a.reservations, d.locator.name);
      }
    }
  }

  /** Owners are told only when no lease of theirs is booked, none of their binds waits, and, once no
      bind waits at all, no scan is left. */
  lemma {:induction false} AnswersOf(a: Actor, items: seq<Waiter>, o: Outside)
    ensures var c := Fold(Answerer(o), a, items);
            && c.actor == a.(releaseWaiters := c.actor.releaseWaiters)
            && (forall i :: 0 <= i < |c.effects| ==> c.effects[i].OwnerReleased? && !Busies(a, c.effects[i].owner))
  {
    if items != [] {
      var front, w := items[..|items| - 1], items[|items| - 1];
      AnswersOf(a, front, o);
      var c := Fold(Answerer(o), a, front);
      assert Fold(Answerer(o), a, items) == Then(c, AnswerOne(c.actor, w, o));
      assert Busies(a, w.owner) == Busies(c.actor, w.owner);
    }
  }

  lemma AnswerWaitersKeeps(s: System, o: Outside)
    requires Inv(s)
    ensures var c := AnswerWaiters(s.actor, o);
            && Inv(Absorb(s.world, c)) && Absorb(s.world, c).world == s.world
            && c.actor == s.actor.(releaseWaiters := c.actor.releaseWaiters)
            && (forall i :: 0 <= i < |c.effects| ==> c.effects[i].OwnerReleased? && !Busies(s.actor, c.effects[i].owner))
  {
    hide Books, WorkersOwn, HoldersOwn, NoRivals, DistinctPorts, NoneLeased, Busies, MustClose;
    var c, a := AnswerWaiters(s.actor, o), s.actor.(releaseWaiters := []);
    AnswersOf(a, s.actor.releaseWaiters, o);
    assert forall i :: 0 <= i < |c.effects| ==> !Busies(s.actor, c.effects[i].owner) by {
      SameBusies(s.actor, a);
    }
    assert NoneLeased(s.actor, c.actor.reservations);
    QuietKeeps(s, c);
    SameSettled(s.actor, c.actor);
  }

  lemma SameBusies(a: Actor, b: Actor)
    requires a.leased == b.leased && a.pending == b.pending && a.candidates == b.candidates
    ensures forall owner :: Busies(a, owner) == Busies(b, owner)
  {}

  lemma SameSettled(a: Actor, b: Actor)
    requires a.candidates == b.candidates && (a.pending == [] <==> b.pending == [])
    requires a.exclusions == b.exclusions && a.links == b.links && a.reservations == b.reservations
    ensures Settled(a) ==> Settled(b)
  {
    assert forall n :: n in a.candidates ==> MustClose(a, a.candidates[n]) == MustClose(b, b.candidates[n]);
  }

  // Starting scans

  lemma StartOneKeeps(s: System, l: PortLocator)
    requires Inv(s) && s.actor.pending != []
    ensures var c := StartOne(s.actor, l);
            && Inv(Absorb(s.world, c))
            && Absorb(s.world, c).world.holders == s.world.holders
            && c.actor == s.actor.(candidates := c.actor.candidates, sequence := c.actor.sequence)
            && (forall n :: n in c.actor.candidates && n !in s.actor.candidates ==>
                  !Excluded(s.actor, c.actor.candidates[n].locator))
            && (forall n :: n in s.actor.candidates ==>
                  n in c.actor.candidates && c.actor.candidates[n] == s.actor.candidates[n])
  {
    hide WorkersOwn, HoldersOwn, NoRivals, DistinctPorts, NoneLeased, AnyScanning, Cached, MatchesAny, IsReserved;
    var c := StartOne(s.actor, l);
    var t := Absorb(s.world, c);
    assert NoneLeased(c.actor, c.actor.reservations) by { SameLeased(s.actor, c.actor); }
    if c.effects != [] {
      DeliverOne(s.world, c.effects[0]);
      SameHolders(s, t);
      TaskAdded(s, t, Worker(l, c.actor.sequence, Scanning(None)), Candidate(c.actor.sequence, l, false));
    }
  }

  lemma {:induction false} StartFold(s: System, items: seq<PortLocator>)
    requires Inv(s) && s.actor.pending != []
    ensures var c := Fold(Starter(), s.actor, items);
            && Inv(Absorb(s.world, c))
            && Absorb(s.world, c).world.holders == s.world.holders
            && c.actor == s.actor.(candidates := c.actor.candidates, sequence := c.actor.sequence)
            && (forall n :: n in c.actor.candidates && n !in s.actor.candidates ==>
                  !Excluded(s.actor, c.actor.candidates[n].locator))
            && (forall n :: n in s.actor.candidates ==>
                  n in c.actor.candidates && c.actor.candidates[n] == s.actor.candidates[n])
  {
    hide Inv, StartOne;
    if items != [] {
      var front, l := items[..|items| - 1], items[|items| - 1];
      StartFold(s, front);
      var c := Fold(Starter(), s.actor, front);
      StartOneKeeps(Absorb(s.world, c), l);
      AbsorbThen(s.world, c, StartOne(c.actor, l));
      assert Fold(Starter(), s.actor, items) == Then(c, StartOne(c.actor, l));
    }
  }

  lemma StartScansKeeps(s: System, now: Millis)
    requires Inv(s)
    ensures var c := StartScans(s.actor, now);
            && Inv(Absorb(s.world, c))
            && Absorb(s.world, c).world.holders == s.world.holders
            && c.actor.pending == s.actor.pending && c.actor.exclusions == s.actor.exclusions
            && c.actor.links == s.actor.links && c.actor.leased == s.actor.leased
            && (s.actor.pending == [] ==> c.actor.candidates == s.actor.candidates)
            && (AnyExcludedCandidate(c.actor) ==> AnyExcludedCandidate(s.actor))
  {
    hide Books, WorkersOwn, HoldersOwn, NoRivals, DistinctPorts, NoneLeased, MustClose, Fold, Matches;
    if s.actor.pending != [] {
      var e := Enumerate(s.actor, now);
      assert NoneLeased(s.actor, e.actor.reservations);
      QuietKeeps(s, e);
      SameSettled(s.actor, e.actor);
      var t := Absorb(s.world, e);
      StartFold(t, e.actor.ports);
      AbsorbThen(s.world, e, Fold(Starter(), e.actor, e.actor.ports));
    }
  }

  /** What an answer sent in a turn says about the actor's state at the end of the turn. */
  predicate Truthful(a: Actor, e: Effect) {
    match e
    case OwnerReleased(owner, _) => !Busies(a, owner)
    case ExcludeAnswered(_, accepted) => accepted ==> !AnyExcludedCandidate(a)
    case _ => true
  }

  predicate AllTruthful(a: Actor, es: seq<Effect>) { forall i :: 0 <= i < |es| ==> Truthful(a, es[i]) }

  lemma TruthfulLater(a: Actor, b: Actor, es: seq<Effect>)
    requires AllTruthful(a, es)
    requires a.leased == b.leased && a.pending == b.pending
    requires a.pending == [] ==> a.candidates == b.candidates
    requires AnyExcludedCandidate(b) ==> AnyExcludedCandidate(a)
    ensures AllTruthful(b, es)
  {
    hide Excluded;
    forall i | 0 <= i < |es| ensures Truthful(b, es[i]) {
      assert Truthful(a, es[i]);
    }
  }

  /** Grants of reservations change what is leased; exclusion answers given before do not mind. */
  lemma TruthfulAfterGrants(a: Actor, b: Actor, es: seq<Effect>)
    requires AllTruthful(a, es) && forall i :: 0 <= i < |es| ==> !es[i].OwnerReleased?
    requires a.candidates == b.candidates && a.exclusions == b.exclusions && a.links == b.links
    ensures AllTruthful(b, es)
  {
    hide Busies;
    assert AnyExcludedCandidate(a) == AnyExcludedCandidate(b) by {
      assert forall l :: Excluded(a, l) == Excluded(b, l);
    }
    forall i | 0 <= i < |es| ensures Truthful(b, es[i]) {
      assert Truthful(a, es[i]);
    }
  }

  /** The first half of a pass: expiring, closing, answering exclusions. */
  function FirstHalf(a: Actor, o: Outside): Change {
    var expired := Expire(a, o);
    var closed := Change(CloseCandidates(Publish(expired.actor)), expired.effects);
    Then(closed, AnswerExcludes(closed.actor))
  }

  function SecondHalf(a: Actor, granting: Outside, answering: Outside): Change {
    var granted := GrantReservations(a, granting);
    Then(granted, AnswerWaiters(granted.actor, answering))
  }

  lemma FirstHalfKeeps(s: System, o: Outside)
    requires Sound(s)
    ensures var c := FirstHalf(s.actor, o);
            && Sound(Absorb(s.world, c)) && ConflictsClose(c.actor)
            && AllTruthful(c.actor, c.effects)
            && (forall i :: 0 <= i < |c.effects| ==> c.effects[i].BindRefused? || c.effects[i].ExcludeAnswered?)
  {
    hide Sound, Expire, CloseCandidates, Publish, AnswerExcludes, ConflictsClose, AnyExcludedCandidate;
    var expired := Expire(s.actor, o);
    ExpireKeeps(s, o);
    ExpireRefuses(s.actor, o);
    var t := Absorb(s.world, expired);
    CloseKeeps(t);
    var closed := Change(CloseCandidates(Publish(expired.actor)), expired.effects);
    AnswerExcludesKeeps(t.(actor := closed.actor));
    AbsorbThen(s.world, closed, AnswerExcludes(closed.actor));
    assert AnyExcludedCandidate(closed.actor) == AnyExcludedCandidate(AnswerExcludes(closed.actor).actor) by {
      SameExcluded(closed.actor, AnswerExcludes(closed.actor).actor);
    }
  }

  lemma SameExcluded(a: Actor, b: Actor)
    requires a.candidates == b.candidates && a.exclusions == b.exclusions && a.links == b.links
    ensures AnyExcludedCandidate(a) == AnyExcludedCandidate(b)
  {
    assert forall l :: Excluded(a, l) == Excluded(b, l);
  }

  lemma ExpireRefuses(a: Actor, o: Outside)
    ensures forall i :: 0 <= i < |Expire(a, o).effects| ==> Expire(a, o).effects[i].BindRefused?
    ensures forall i :: 0 <= i < |Expire(a, o).actor.pending| ==> !Overdue(Expire(a, o).actor.pending[i], o.now)
  {
    hide ScanWindow, Overdue;
    ExpiryOf(a.(pending := []), a.pending, ScanWindow(a.pending), o);
  }

  lemma SecondHalfKeeps(s: System, granting: Outside, answering: Outside)
    requires Sound(s) && ConflictsClose(s.actor)
    ensures var c := SecondHalf(s.actor, granting, answering);
            && Inv(Absorb(s.world, c)) && AllTruthful(c.actor, c.effects)
            && (forall i :: 0 <= i < |c.effects| ==> c.effects[i].ReservationGranted? || c.effects[i].OwnerReleased?)
            && c.actor.candidates == s.actor.candidates && c.actor.pending == s.actor.pending
            && c.actor.exclusions == s.actor.exclusions && c.actor.links == s.actor.links
  {
    hide Sound, Inv, GrantReservations, AnswerWaiters, ConflictsClose, Busies, AnyExcludedCandidate;
    GrantReservationsKeeps(s, granting);
    var granted := GrantReservations(s.actor, granting);
    var t := Absorb(s.world, granted);
    AnswerWaitersKeeps(t, answering);
    var answered := AnswerWaiters(granted.actor, answering);
    AbsorbThen(s.world, granted, answered);
    SameBusies(granted.actor, answered.actor);
  }

  lemma ReconcileKeeps(s: System, expiring: Outside, granting: Outside, answering: Outside)
    requires Sound(s)
    ensures var c := Reconcile(s.actor, expiring, granting, answering);
            && Inv(Absorb(s.world, c)) && AllTruthful(c.actor, c.effects)
            && (forall i :: 0 <= i < |c.effects| ==> !c.effects[i].LeaseGranted? && !c.effects[i].CloseStarted?)
  {
    hide Sound, Inv, FirstHalf, SecondHalf, StartScans, ConflictsClose, AllTruthful, AnyExcludedCandidate;
    var first := FirstHalf(s.actor, expiring);
    FirstHalfKeeps(s, expiring);
    var second := SecondHalf(first.actor, granting, answering);
    SecondHalfKeeps(Absorb(s.world, first), granting, answering);
    var both := Then(first, second);
    AbsorbThen(s.world, first, second);
    TruthfulAfterGrants(first.actor, second.actor, first.effects);
    AllTruthfulAppend(second.actor, first.effects, second.effects);
    var scans := StartScans(second.actor, expiring.now);
    StartScansKeeps(Absorb(s.world, both), expiring.now);
    AbsorbThen(s.world, both, scans);
    TruthfulLater(second.actor, scans.actor, both.effects);
    ScansOnly(second.actor, expiring.now);
    AllTruthfulAppend(scans.actor, both.effects, scans.effects);
    HalvesMakeAPass(s.actor, expiring, granting, answering);
  }

  lemma HalvesMakeAPass(a: Actor, expiring: Outside, granting: Outside, answering: Outside)
    ensures var both := Then(FirstHalf(a, expiring), SecondHalf(FirstHalf(a, expiring).actor, granting, answering));
            Reconcile(a, expiring, granting, answering) == Then(both, StartScans(both.actor, expiring.now))
  {
    hide Expire, CloseCandidates, Publish, AnswerExcludes, GrantReservations, AnswerWaiters, StartScans;
    var first := FirstHalf(a, expiring);
    var granted := GrantReservations(first.actor, granting);
    var answered := AnswerWaiters(granted.actor, answering);
    assert (first.effects + granted.effects) + answered.effects == first.effects + (granted.effects + answered.effects);
  }

  lemma AllTruthfulAppend(a: Actor, es: seq<Effect>, fs: seq<Effect>)
    requires AllTruthful(a, es) && AllTruthful(a, fs)
    ensures AllTruthful(a, es + fs)
  {
    hide Truthful;
  }

  lemma {:induction false} FoldStarts(a: Actor, items: seq<PortLocator>)
    ensures forall i :: 0 <= i < |Fold(Starter(), a, items).effects| ==> Fold(Starter(), a, items).effects[i].ScanStarted?
  {
    hide Unavailable, AnyScanning, Cached;
    if items != [] {
      FoldStarts(a, items[..|items| - 1]);
    }
  }

  lemma ScansOnly(a: Actor, now: Millis)
    ensures forall i :: 0 <= i < |StartScans(a, now).effects| ==>
              StartScans(a, now).effects[i].ScanStarted? || StartScans(a, now).effects[i].EnumerationStarted?
    ensures AllTruthful(StartScans(a, now).actor, StartScans(a, now).effects)
  {
    hide Fold, Busies, AnyExcludedCandidate;
    FoldStarts(Enumerate(a, now).actor, Enumerate(a, now).actor.ports);
  }

  // ---------- Whole runs ----------

  lemma NextKeeps(s: System, t: Turn)
    requires Inv(s)
    ensures Inv(Next(s, t))
  {
    hide Inv, Sound, Receive, Move, Reconcile;
    if WakesActor(t.step) {
      var (input, w) := Receive(s, t.step);
      ReceiveKeeps(s, t.step);
      ReconcileKeeps(Absorb(w, input), t.expiring, t.granting, t.answering);
      AbsorbThen(w, input, Reconcile(input.actor, t.expiring, t.granting, t.answering));
    } else {
      MoveKeeps(s, t.step);
    }
  }

  lemma {:induction false} RunKeeps(now: Millis, links: map<Text, Text>, turns: seq<Turn>)
    ensures Inv(Run(now, links, turns))
  {
    if turns == [] {
      assert TaskPorts(map[]) == map[] && GuardPorts(map[]) == map[];
    } else {
      hide Inv, Next;
      RunKeeps(now, links, turns[..|turns| - 1]);
      NextKeeps(Run(now, links, turns[..|turns| - 1]), turns[|turns| - 1]);
    }
  }

  /** In every interleaving a port has at most one user: a task that opens, reads or closes it, a lease,
      or a reservation whose holder opens the port elsewhere. */
  lemma OneUserPerPort(now: Millis, links: map<Text, Text>, turns: seq<Turn>, u: User, v: User, port: Text)
    requires Uses(Run(now, links, turns).world, u, port) && Uses(Run(now, links, turns).world, v, port)
    ensures u == v
  {
    hide Run;
    var s := Run(now, links, turns);
    RunKeeps(now, links, turns);
    match (u, v)
    case (Task(i), Task(j)) => assert TaskPorts(s.world.workers)[i] == TaskPorts(s.world.workers)[j];
    case (Guard(i), Guard(j)) => assert GuardPorts(s.world.holders)[i] == GuardPorts(s.world.holders)[j];
    case (Task(i), Guard(j)) => Apart(s, i, j);
    case (Guard(j), Task(i)) => Apart(s, i, j);
  }

  lemma Apart(s: System, i: nat, j: nat)
    requires Inv(s) && i in s.world.workers && j in s.world.holders
    ensures s.world.workers[i].locator.name != s.world.holders[j].locator.name
  {
    assert Fits(s.world.workers[i], s.actor) && Holds(s.world.holders[j], s.actor);
  }

  /** No message in flight is ever stale, and no entry is kept without somebody who will release it. */
  lemma MessagesFindTheirEntries(now: Millis, links: map<Text, Text>, turns: seq<Turn>)
    ensures var s := Run(now, links, turns);
            && (forall i :: i in s.world.workers ==>
                  Owns(s.actor, s.world.workers[i].locator.name, s.world.workers[i].generation))
            && (forall i :: i in s.world.holders ==>
                  && s.world.holders[i].locator.name in s.actor.leased
                  && s.actor.leased[s.world.holders[i].locator.name].token == s.world.holders[i].token)
            && (forall n :: n in s.actor.candidates ==>
                  exists i :: i in s.world.workers && s.world.workers[i].locator.name == n)
            && (forall n :: n in s.actor.leased ==>
                  exists i :: i in s.world.holders && s.world.holders[i].locator.name == n)
  {
    hide Run, Excluded, NoRivals, Settled;
    var s := Run(now, links, turns);
    RunKeeps(now, links, turns);
    assert forall i :: i in s.world.workers ==> Fits(s.world.workers[i], s.actor);
    assert forall i :: i in s.world.holders ==> Holds(s.world.holders[i], s.actor);
    forall n | n in s.actor.candidates ensures exists i :: i in s.world.workers && s.world.workers[i].locator.name == n {
      var i :| i in TaskPorts(s.world.workers) && TaskPorts(s.world.workers)[i] == n;
    }
    forall n | n in s.actor.leased ensures exists i :: i in s.world.holders && s.world.holders[i].locator.name == n {
      var i :| i in GuardPorts(s.world.holders) && GuardPorts(s.world.holders)[i] == n;
    }
  }

  /** What a client may conclude from an answer. A released owner has no lease, open or closing, and
      no waiting bind; and once no bind waits at all, no task has a port. An accepted exclusion
      means that no scan and no discovery lease is on a matching port. */
  predicate Means(s: System, e: Effect) {
    match e
    case OwnerReleased(owner, _) =>
      && (forall i :: i in s.world.holders ==> OwnerName(s.world.holders[i].kind) != owner)
      && (forall i :: 0 <= i < |s.actor.pending| ==> s.actor.pending[i].request.owner != owner)
      && (s.actor.pending == [] ==> s.world.workers == map[])
    case ExcludeAnswered(_, accepted) =>
      accepted ==>
        && (forall i :: i in s.world.workers ==> !Excluded(s.actor, s.world.workers[i].locator))
        && (forall i :: i in s.world.holders && s.world.holders[i].kind.Lease? ==>
              !Excluded(s.actor, s.world.holders[i].locator))
    case _ => true
  }

  lemma TruthfulMeans(s: System, e: Effect)
    requires Inv(s) && Truthful(s.actor, e)
    ensures Means(s, e)
  {
    hide Matches, NoRivals, Settled, OneToOne;
    assert forall i :: i in s.world.workers ==> Fits(s.world.workers[i], s.actor);
    assert forall i :: i in s.world.holders ==> Holds(s.world.holders[i], s.actor);
    if e.OwnerReleased? && s.actor.pending == [] {
      assert s.actor.candidates == map[];
    }
  }

  lemma InputIsTruthful(s: System, step: Step, a: Actor)
    ensures forall i :: 0 <= i < |Receive(s, step).0.effects| ==> Truthful(a, Receive(s, step).0.effects[i])
  {
    hide Busies, AnyExcludedCandidate, HasRival, Position;
  }

  /** Every answer sent in any turn of any run is true when the turn ends. */
  lemma AnswersAreTrue(now: Millis, links: map<Text, Text>, turns: seq<Turn>, t: Turn, i: nat)
    requires WakesActor(t.step) && i < |TurnChange(Run(now, links, turns), t).effects|
    ensures var s := Run(now, links, turns); Means(Next(s, t), TurnChange(s, t).effects[i])
  {
    hide Run, Inv, Sound, Receive, Means, Truthful, Reconcile;
    var s := Run(now, links, turns);
    RunKeeps(now, links, turns);
    NextKeeps(s, t);
    var (input, w) := Receive(s, t.step);
    ReceiveKeeps(s, t.step);
    ReconcileKeeps(Absorb(w, input), t.expiring, t.granting, t.answering);
    var pass := Reconcile(input.actor, t.expiring, t.granting, t.answering);
    InputIsTruthful(s, t.step, pass.actor);
    var c := TurnChange(s, t);
    assert c.effects[i] == if i < |input.effects| then input.effects[i] else pass.effects[i - |input.effects|];
    TruthfulMeans(Next(s, t), c.effects[i]);
  }

  /** A bind is only given a port that a scan holds, on which its own identity was heard, which is
      neither excluded nor waited for by a reservation, and only before its deadline. */
  lemma LeasesAreDeserved(now: Millis, links: map<Text, Text>, turns: seq<Turn>, t: Turn, i: nat)
    requires WakesActor(t.step) && i < |TurnChange(Run(now, links, turns), t).effects|
    requires TurnChange(Run(now, links, turns), t).effects[i].LeaseGranted?
    ensures var (s, e) := (Run(now, links, turns), TurnChange(Run(now, links, turns), t).effects[i]);
            && e.request.serialId in e.stream.heard && e.stream.port == e.locator.name
            && !Excluded(s.actor, e.locator) && !IsReserved(s.actor.reservations, e.locator.name)
            && t.step.Reported? && e.request.deadline > t.step.o.now
            && (exists k :: 0 <= k < |s.actor.pending| && s.actor.pending[k].reply == e.reply
                            && s.actor.pending[k].request == e.request)
  {
    hide Run, Inv, Sound, Receive, Reconcile, Excluded, IsReserved;
    var s := Run(now, links, turns);
    RunKeeps(now, links, turns);
    var (input, w) := Receive(s, t.step);
    ReceiveKeeps(s, t.step);
    ReconcileKeeps(Absorb(w, input), t.expiring, t.granting, t.answering);
    var c := TurnChange(s, t);
    assert c.effects[i] == input.effects[i];
    GrantIsDeserved(s, t.step, i);
  }

  lemma GrantIsDeserved(s: System, step: Step, i: nat)
    requires Inv(s) && i < |Receive(s, step).0.effects| && Receive(s, step).0.effects[i].LeaseGranted?
    ensures var e := Receive(s, step).0.effects[i];
            && e.request.serialId in e.stream.heard && e.stream.port == e.locator.name
            && !Excluded(s.actor, e.locator) && !IsReserved(s.actor.reservations, e.locator.name)
            && step.Reported? && e.request.deadline > step.o.now
            && (exists k :: 0 <= k < |s.actor.pending| && s.actor.pending[k].reply == e.reply
                            && s.actor.pending[k].request == e.request)
  {
    hide HoldersOwn, NoRivals, DistinctPorts, NoneLeased, Excluded, IsReserved, HasRival, ExcludeConflicts;
    assert step.Reported?;
    var w := s.world.workers[step.task];
    Fitting(s, step.task);
    var k := Position(s.actor.pending, w.stage.id, step.o);
    assert !MustClose(s.actor, s.actor.candidates[w.locator.name]);
    assert Wants(s.actor.pending[k], w.stage.id, step.o);
  }

  // ---------- A pass leaves nothing undone ----------

  /** A bind that scans has its whole window, up to its deadline; one that does not is still within the
      grace for its remembered port. */
  lemma DeadlinesAreFair(p: Pending, window: Millis, now: Millis)
    ensures var q := Deadlines(p, window, now);
            && q.request == p.request && q.reply == p.reply && q.started == p.started
            && (if q.scanning then q.scanDeadline >= Min(q.started + window, q.request.deadline)
                else !p.scanning && now - p.started < 1000)
            && (p.scanDeadline <= p.request.deadline ==> q.scanDeadline <= q.request.deadline)
  {}

  /** Binds leave a pass only when nobody waits for them or their time is up, and the others stay. */
  predicate ExpiredFairly(items: seq<Pending>, c: Change, window: Millis, o: Outside) {
    && (forall i :: 0 <= i < |items| ==>
          var q := Deadlines(items[i], window, o.now);
          items[i].reply in o.gone || Overdue(q, o.now) || q in c.actor.pending)
    && (forall k :: 0 <= k < |c.effects| ==>
          c.effects[k].BindRefused?
          && exists i :: 0 <= i < |items| && items[i].reply == c.effects[k].reply
                         && Overdue(Deadlines(items[i], window, o.now), o.now))
    && (forall i :: 0 <= i < |c.actor.pending| ==> !Overdue(c.actor.pending[i], o.now))
  }

  lemma {:induction false} ExpireFairly(a: Actor, items: seq<Pending>, window: Millis, o: Outside)
    requires a.pending == []
    ensures ExpiredFairly(items, Fold(Expirer(window, o), a, items), window, o)
  {
    hide Deadlines, Overdue;
    if items != [] {
      var front, p := items[..|items| - 1], items[|items| - 1];
      ExpireFairly(a, front, window, o);
      var c := Fold(Expirer(window, o), a, front);
      var d := ExpireOne(c.actor, p, window, o);
      assert Fold(Expirer(window, o), a, items) == Then(c, d);
      ExpireFairlyStep(front, p, c, window, o);
      assert items == front + [p];
    }
  }

  lemma ExpireFairlyStep(front: seq<Pending>, p: Pending, c: Change, window: Millis, o: Outside)
    requires ExpiredFairly(front, c, window, o)
    ensures ExpiredFairly(front + [p], Then(c, ExpireOne(c.actor, p, window, o)), window, o)
  {
    hide Deadlines, Overdue;
    var items, d := front + [p], ExpireOne(c.actor, p, window, o);
    var e, q := Then(c, d), Deadlines(p, window, o.now);
    assert items[|front|] == p;
    forall k | 0 <= k < |e.effects|
      ensures e.effects[k].BindRefused?
              && exists i :: 0 <= i < |items| && items[i].reply == e.effects[k].reply
                             && Overdue(Deadlines(items[i], window, o.now), o.now)
    {
      if k < |c.effects| {
        var i :| 0 <= i < |front| && front[i].reply == c.effects[k].reply
                 && Overdue(Deadlines(front[i], window, o.now), o.now);
        assert items[i] == front[i];
      } else {
        assert Overdue(Deadlines(items[|front|], window, o.now), o.now);
      }
    }
    assert e.actor.pending == c.actor.pending || e.actor.pending == c.actor.pending + [q];
    forall i | 0 <= i < |items|
      ensures var r := Deadlines(items[i], window, o.now);
              items[i].reply in o.gone || Overdue(r, o.now) || r in e.actor.pending
    {
      if i < |front| {
        assert items[i] == front[i];
      }
    }
  }

  /** Every bind that leaves a pass leaves it fairly. */
  lemma RefusalsAreDue(a: Actor, o: Outside)
    ensures ExpiredFairly(a.pending, Expire(a, o), ScanWindow(a.pending), o)
  {
    hide ScanWindow, Deadlines, Overdue;
    ExpireFairly(a.(pending := []), a.pending, ScanWindow(a.pending), o);
  }

  /** Whoever is still waiting for an owner has something to wait for. */
  lemma {:induction false} OnlyBusyWait(a: Actor, items: seq<Waiter>, o: Outside)
    requires a.releaseWaiters == []
    ensures var kept := Fold(Answerer(o), a, items).actor.releaseWaiters;
            forall i :: 0 <= i < |kept| ==> Busies(a, kept[i].owner)
  {
    hide Busies;
    if items != [] {
      var front, w := items[..|items| - 1], items[|items| - 1];
      OnlyBusyWait(a, front, o);
      AnswersOf(a, front, o);
      var c := Fold(Answerer(o), a, front);
      assert Fold(Answerer(o), a, items) == Then(c, AnswerOne(c.actor, w, o));
      SameBusies(a, c.actor);
    }
  }

  predicate Grows(a: Actor, b: Actor) {
    && b == a.(candidates := b.candidates, sequence := b.sequence)
    && forall n :: n in a.candidates ==> n in b.candidates && b.candidates[n] == a.candidates[n]
  }

  lemma StartOneCovers(a: Actor, l: PortLocator)
    requires AnyScanning(a)
    ensures Grows(a, StartOne(a, l).actor) && Unavailable(StartOne(a, l).actor, l)
  {
    hide Matches;
  }

  lemma StillUnavailable(a: Actor, b: Actor, l: PortLocator)
    requires Grows(a, b) && Unavailable(a, l)
    ensures Unavailable(b, l)
  {
    hide Matches;
  }

  lemma {:induction false} StartAllCovers(a: Actor, items: seq<PortLocator>)
    requires AnyScanning(a)
    ensures var b := Fold(Starter(), a, items).actor;
            Grows(a, b) && AnyScanning(b) && forall i :: 0 <= i < |items| ==> Unavailable(b, items[i])
  {
    hide Unavailable, StartOne;
    if items != [] {
      var front, l := items[..|items| - 1], items[|items| - 1];
      StartAllCovers(a, front);
      var c := Fold(Starter(), a, front);
      StartOneCovers(c.actor, l);
      var b := StartOne(c.actor, l).actor;
      assert Fold(Starter(), a, items).actor == b;
      forall i | 0 <= i < |items| ensures Unavailable(b, items[i]) {
        if i < |front| {
          StillUnavailable(c.actor, b, front[i]);
        }
      }
    }
  }

  /** Starting scans is the last part of a pass: what was busy stays busy, what was unanswered stays so,
      and with a scanning bind no free port is left over. */
  lemma ScansCoverPorts(a: Actor, now: Millis)
    ensures var b := StartScans(a, now).actor;
            && (AnyScanning(b) ==> forall i :: 0 <= i < |b.ports| ==> Unavailable(b, b.ports[i]))
            && b.releaseWaiters == a.releaseWaiters && b.excludedReplies == a.excludedReplies
            && (forall owner :: Busies(a, owner) ==> Busies(b, owner))
            && (AnyExcludedCandidate(a) ==> AnyExcludedCandidate(b))
  {
    hide Unavailable, Matches, Busies, AnyExcludedCandidate, AnyScanning, Fold;
    if a.pending != [] {
      var e := Enumerate(a, now);
      var b := StartScans(a, now).actor;
      SameScanning(a, e.actor);
      if AnyScanning(a) {
        StartAllCovers(e.actor, e.actor.ports);
      } else {
        StartAllGrows(e.actor, e.actor.ports);
        SameScanning(a, b);
      }
      GrowsKeeps(a, b);
    } else {
      NoneScanning(a);
    }
  }

  lemma SameScanning(a: Actor, b: Actor)
    requires a.pending == b.pending
    ensures AnyScanning(a) == AnyScanning(b)
  {}

  lemma NoneScanning(a: Actor)
    requires a.pending == []
    ensures !AnyScanning(a)
  {}

  lemma {:induction false} StartAllGrows(a: Actor, items: seq<PortLocator>)
    ensures Grows(a, Fold(Starter(), a, items).actor)
  {
    if items != [] {
      var front, l := items[..|items| - 1], items[|items| - 1];
      StartAllGrows(a, front);
      var c := Fold(Starter(), a, front);
      assert Fold(Starter(), a, items).actor == StartOne(c.actor, l).actor;
    }
  }

  lemma GrowsKeeps(a: Actor, b: Actor)
    requires a.pending != [] && b.pending == a.pending && b.leased == a.leased
    requires b.exclusions == a.exclusions && b.links == a.links
    requires forall n :: n in a.candidates ==> n in b.candidates && b.candidates[n] == a.candidates[n]
    ensures forall owner :: Busies(a, owner) ==> Busies(b, owner)
    ensures AnyExcludedCandidate(a) ==> AnyExcludedCandidate(b)
  {
    hide Matches;
    if AnyExcludedCandidate(a) {
      var n :| n in a.candidates && Excluded(a, a.candidates[n].locator);
      assert Excluded(b, b.candidates[n].locator);
    }
  }

  /** After a pass: nobody who waits for an owner could be answered, no accepted exclusion could be
      answered, and if a bind scans, every known port is being scanned or cannot be. */
  lemma PassIsComplete(a: Actor, expiring: Outside, granting: Outside, answering: Outside)
    ensures var b := Reconcile(a, expiring, granting, answering).actor;
            && (forall i :: 0 <= i < |b.releaseWaiters| ==> Busies(b, b.releaseWaiters[i].owner))
            && (b.excludedReplies != [] ==> AnyExcludedCandidate(b))
            && (AnyScanning(b) ==> forall i :: 0 <= i < |b.ports| ==> Unavailable(b, b.ports[i]))
  {
    hide Busies, Unavailable, AnyExcludedCandidate, AnyScanning, Fold, Expire, Publish, CloseCandidates, StartScans;
    var first := FirstHalf(a, expiring);
    var granted := GrantReservations(first.actor, granting);
    var answered := AnswerWaiters(granted.actor, answering);
    GrantsLeave(first.actor, granting);
    AnswersLeave(granted.actor, answering);
    assert first.actor.excludedReplies != [] ==> AnyExcludedCandidate(first.actor) by {
      var closed := CloseCandidates(Publish(Expire(a, expiring).actor));
      SameExcluded(closed, AnswerExcludes(closed).actor);
    }
    SameExcluded(first.actor, granted.actor);
    SameExcluded(granted.actor, answered.actor);
    HalvesMakeAPass(a, expiring, granting, answering);
    ScansCoverPorts(answered.actor, expiring.now);
  }

  lemma GrantsLeave(a: Actor, o: Outside)
    ensures var b := GrantReservations(a, o).actor;
            b == a.(reservations := b.reservations, leased := b.leased, sequence := b.sequence)
  {
    hide Fold;
    GrantFoldLeaves(a.(reservations := []), a.reservations, o);
  }

  lemma {:induction false} GrantFoldLeaves(a: Actor, items: seq<Reservation>, o: Outside)
    ensures var b := Fold(Granter(o), a, items).actor;
            b == a.(reservations := b.reservations, leased := b.leased, sequence := b.sequence)
  {
    if items != [] {
      var front, r := items[..|items| - 1], items[|items| - 1];
      GrantFoldLeaves(a, front, o);
      var c := Fold(Granter(o), a, front);
      assert Fold(Granter(o), a, items).actor == GrantOne(c.actor, r, o).actor;
    }
  }

  lemma AnswersLeave(a: Actor, o: Outside)
    ensures var b := AnswerWaiters(a, o).actor;
            && b == a.(releaseWaiters := b.releaseWaiters)
            && forall i :: 0 <= i < |b.releaseWaiters| ==> Busies(b, b.releaseWaiters[i].owner)
  {
    hide Fold, Busies;
    var start := a.(releaseWaiters := []);
    AnswersOf(start, a.releaseWaiters, o);
    OnlyBusyWait(start, a.releaseWaiters, o);
    SameBusies(start, AnswerWaiters(a, o).actor);
  }

  // ---------- Waiting is fair in every run ----------

  /** No scan goes on beyond its request's deadline. */
  predicate Bounded(pending: seq<Pending>) {
    forall i :: 0 <= i < |pending| ==> pending[i].scanDeadline <= pending[i].request.deadline
  }

  /** Not overdue; scanning to the end of five seconds at least, or to its deadline; or within the grace for
      its remembered port. */
  predicate WaitsFairly(p: Pending, now: Millis) {
    && p.request.deadline > now
    && (if p.scanning then
          now < p.scanDeadline <= p.request.deadline && p.scanDeadline >= Min(p.started + 5000, p.request.deadline)
        else now - p.started < 1000)
  }

  predicate AllWaitFairly(pending: seq<Pending>, now: Millis) {
    forall i :: 0 <= i < |pending| ==> WaitsFairly(pending[i], now)
  }

  lemma StaysOrWaits(p: Pending, window: Millis, now: Millis)
    requires window >= SCAN_WINDOW && p.scanDeadline <= p.request.deadline
    ensures var q := Deadlines(p, window, now); Overdue(q, now) || WaitsFairly(q, now)
    ensures Overdue(Deadlines(p, window, now), now) ==>
              p.request.deadline <= now || p.started + 5000 <= now
  {
    DeadlinesAreFair(p, window, now);
  }

  lemma {:induction false} ExpiryIsFair(a: Actor, items: seq<Pending>, window: Millis, o: Outside)
    requires a.pending == [] && Bounded(items) && window >= SCAN_WINDOW
    ensures AllWaitFairly(Fold(Expirer(window, o), a, items).actor.pending, o.now)
  {
    hide Deadlines, Overdue, WaitsFairly;
    if items != [] {
      var front, p := items[..|items| - 1], items[|items| - 1];
      ExpiryIsFair(a, front, window, o);
      var c := Fold(Expirer(window, o), a, front);
      assert Fold(Expirer(window, o), a, items) == Then(c, ExpireOne(c.actor, p, window, o));
      assert items[|items| - 1] == p;
      StaysOrWaits(p, window, o.now);
      var kept := ExpireOne(c.actor, p, window, o).actor.pending;
      assert kept == c.actor.pending || kept == c.actor.pending + [Deadlines(p, window, o.now)];
    }
  }

  /** The rest of a pass leaves the binds alone. */
  lemma PassKeepsBinds(a: Actor, expiring: Outside, granting: Outside, answering: Outside)
    ensures Reconcile(a, expiring, granting, answering).actor.pending == Expire(a, expiring).actor.pending
  {
    hide Expire, Fold;
    var first := FirstHalf(a, expiring);
    GrantsLeave(first.actor, granting);
    var granted := GrantReservations(first.actor, granting).actor;
    AnswersLeave(granted, answering);
    var answered := AnswerWaiters(granted, answering).actor;
    HalvesMakeAPass(a, expiring, granting, answering);
    StartAllGrows(Enumerate(answered, expiring.now).actor, Enumerate(answered, expiring.now).actor.ports);
  }

  lemma WindowIsWide(pending: seq<Pending>)
    ensures ScanWindow(pending) >= SCAN_WINDOW
  {}

  lemma {:induction false} StandingBounded(pending: seq<Pending>, request: BindRequest)
    requires Bounded(pending)
    ensures Bounded(Standing(pending, request))
  {
    hide Superseded;
    if pending != [] {
      StandingBounded(pending[..|pending| - 1], request);
    }
  }

  lemma BindBounded(a: Actor, request: BindRequest, reply: ReplyId, o: Outside)
    requires Bounded(a.pending)
    ensures Bounded(OnBind(a, request, reply, o).actor.pending)
  {
    hide Standing, HasRival;
    StandingBounded(a.pending, request);
  }

  lemma FoundBounded(a: Actor, e: Event, o: Outside)
    requires Bounded(a.pending)
    ensures Bounded(OnEvent(a, e, o).actor.pending)
  {
    hide OnFound, HandedOver, Leasable, Position;
    if e.Found? {
      FoundMeans(a, e.locator, e.generation, e.id, e.stream, o);
      if Leasable(a, e.locator.name, e.generation, e.id, o) {
        TakenOut(a, OnFound(a, e.locator, e.generation, e.id, e.stream, o).actor, Position(a.pending, e.id, o), e.locator);
      }
    }
  }

  lemma TakenOut(a: Actor, b: Actor, k: nat, l: PortLocator)
    requires Bounded(a.pending) && k < |a.pending| && HandedOver(a, b, k, l)
    ensures Bounded(b.pending)
  {}

  lemma ReceiveBounded(s: System, step: Step)
    requires Bounded(s.actor.pending)
    ensures Bounded(Receive(s, step).0.actor.pending)
  {
    hide OnBind, OnEvent, ExcludeConflicts, IsReserved, FromClients, Bounded;
    match step
    case Asked(command, o) => if command.Bind? { BindBounded(s.actor, command.request, command.reply, o); }
    case Noticed(event, o) => FoundBounded(s.actor, event, o);
    case Reported(i, o) =>
      if i in s.world.workers {
        var w := s.world.workers[i];
        FoundBounded(s.actor, Closed(w.locator.name, w.generation), o);
        if w.stage.Reporting? {
          FoundBounded(s.actor, Found(w.locator, w.generation, w.stage.id, w.stage.stream), o);
        }
      }
    case _ =>
  }

  lemma {:induction false} ExpiryBounded(a: Actor, items: seq<Pending>, window: Millis, o: Outside)
    requires a.pending == [] && Bounded(items)
    ensures Bounded(Fold(Expirer(window, o), a, items).actor.pending)
  {
    hide Deadlines, Overdue;
    if items != [] {
      var front, p := items[..|items| - 1], items[|items| - 1];
      ExpiryBounded(a, front, window, o);
      var c := Fold(Expirer(window, o), a, front);
      assert Fold(Expirer(window, o), a, items) == Then(c, ExpireOne(c.actor, p, window, o));
      assert items[|items| - 1] == p;
      DeadlinesAreFair(p, window, o.now);
      var kept := ExpireOne(c.actor, p, window, o).actor.pending;
      assert kept == c.actor.pending || kept == c.actor.pending + [Deadlines(p, window, o.now)];
    }
  }

  lemma TurnBounded(s: System, t: Turn)
    requires Bounded(s.actor.pending)
    ensures Bounded(Next(s, t).actor.pending)
  {
    hide Receive, Reconcile, Bounded, Move, ScanWindow, Fold;
    if WakesActor(t.step) {
      ReceiveBounded(s, t.step);
      var a := Receive(s, t.step).0.actor;
      PassKeepsBinds(a, t.expiring, t.granting, t.answering);
      ExpiryBounded(a.(pending := []), a.pending, ScanWindow(a.pending), t.expiring);
    }
  }

  lemma {:induction false} RunBounded(now: Millis, links: map<Text, Text>, turns: seq<Turn>)
    ensures Bounded(Run(now, links, turns).actor.pending)
  {
    hide Next;
    if turns != [] {
      RunBounded(now, links, turns[..|turns| - 1]);
      TurnBounded(Run(now, links, turns[..|turns| - 1]), turns[|turns| - 1]);
    }
  }

  /** A bind is given up for its time only after five seconds, or its own deadline. */
  predicate RefusedInTime(pending: seq<Pending>, reply: ReplyId, now: Millis) {
    exists i :: 0 <= i < |pending| && pending[i].reply == reply
                && (pending[i].request.deadline <= now || pending[i].started + 5000 <= now)
  }

  /** At the end of every turn of every run, whatever the clock shows from turn to turn, each bind waits
      fairly; and every bind that the turn gives up had its time. */
  lemma ScanTimeIsFair(now: Millis, links: map<Text, Text>, turns: seq<Turn>, t: Turn)
    requires WakesActor(t.step)
    ensures var s := Run(now, links, turns); AllWaitFairly(Next(s, t).actor.pending, t.expiring.now)
    ensures var s := Run(now, links, turns); var (input, c) := (Receive(s, t.step).0, TurnChange(s, t));
            forall k :: 0 <= k < |c.effects| && c.effects[k].BindRefused? && c.effects[k].error != Busy ==>
              RefusedInTime(input.actor.pending, c.effects[k].reply, t.expiring.now)
  {
    hide Run, Receive, Reconcile, Bounded, AllWaitFairly, ScanWindow, Fold, RefusedInTime;
    var s := Run(now, links, turns);
    RunBounded(now, links, turns);
    ReceiveBounded(s, t.step);
    var input := Receive(s, t.step).0;
    var a := input.actor;
    WindowIsWide(a.pending);
    PassKeepsBinds(a, t.expiring, t.granting, t.answering);
    ExpiryIsFair(a.(pending := []), a.pending, ScanWindow(a.pending), t.expiring);
    var pass := Reconcile(a, t.expiring, t.granting, t.answering);
    var c := TurnChange(s, t);
    forall k | 0 <= k < |c.effects| && c.effects[k].BindRefused? && c.effects[k].error != Busy
      ensures RefusedInTime(a.pending, c.effects[k].reply, t.expiring.now)
    {
      if k < |input.effects| {
        InputRefusesBusy(s, t.step, k);
      } else {
        assert c.effects[k] == pass.effects[k - |input.effects|];
        PassRefuses(a, t.expiring, t.granting, t.answering, k - |input.effects|);
      }
    }
  }

  /** Commands refuse binds as busy only. */
  lemma InputRefusesBusy(s: System, step: Step, k: nat)
    requires k < |Receive(s, step).0.effects| && Receive(s, step).0.effects[k].BindRefused?
    ensures Receive(s, step).0.effects[k].error == Busy
  {
    hide Standing, HasRival, ExcludeConflicts, IsReserved, Position, Admit;
  }

  lemma PassRefuses(a: Actor, expiring: Outside, granting: Outside, answering: Outside, k: nat)
    requires Bounded(a.pending) && ScanWindow(a.pending) >= SCAN_WINDOW
    requires k < |Reconcile(a, expiring, granting, answering).effects|
    requires Reconcile(a, expiring, granting, answering).effects[k].BindRefused?
    ensures RefusedInTime(a.pending, Reconcile(a, expiring, granting, answering).effects[k].reply, expiring.now)
  {
    hide Expire, ScanWindow, Fold, Deadlines, Overdue;
    var e := Reconcile(a, expiring, granting, answering).effects[k];
    OnlyExpiryRefuses(a, expiring, granting, answering, k);
    RefusalsAreDue(a, expiring);
    var i :| 0 <= i < |a.pending| && a.pending[i].reply == e.reply
             && Overdue(Deadlines(a.pending[i], ScanWindow(a.pending), expiring.now), expiring.now);
    StaysOrWaits(a.pending[i], ScanWindow(a.pending), expiring.now);
  }

  lemma OnlyExpiryRefuses(a: Actor, expiring: Outside, granting: Outside, answering: Outside, k: nat)
    requires k < |Reconcile(a, expiring, granting, answering).effects|
    requires Reconcile(a, expiring, granting, answering).effects[k].BindRefused?
    ensures k < |Expire(a, expiring).effects|
    ensures Reconcile(a, expiring, granting, answering).effects[k] == Expire(a, expiring).effects[k]
  {
    hide Expire, GrantReservations, AnswerWaiters, StartScans, CloseCandidates, Publish, AnyExcludedCandidate;
    var closed := CloseCandidates(Publish(Expire(a, expiring).actor));
    AcceptedOnly(closed.excludedReplies);
    var first := FirstHalf(a, expiring);
    GrantsGrant(first.actor, granting);
    var granted := GrantReservations(first.actor, granting);
    WaitersOnly(granted.actor, answering);
    var answered := AnswerWaiters(granted.actor, answering);
    ScansOnly(answered.actor, expiring.now);
  }

  lemma GrantsGrant(a: Actor, o: Outside)
    ensures forall i :: 0 <= i < |GrantReservations(a, o).effects| ==> GrantReservations(a, o).effects[i].ReservationGranted?
  {
    hide Fold;
    GrantFoldGrants(a.(reservations := []), a.reservations, o);
  }

  lemma {:induction false} GrantFoldGrants(a: Actor, items: seq<Reservation>, o: Outside)
    ensures forall i :: 0 <= i < |Fold(Granter(o), a, items).effects| ==>
              Fold(Granter(o), a, items).effects[i].ReservationGranted?
  {
    if items != [] {
      var front, r := items[..|items| - 1], items[|items| - 1];
      GrantFoldGrants(a, front, o);
      var c := Fold(Granter(o), a, front);
      assert Fold(Granter(o), a, items) == Then(c, GrantOne(c.actor, r, o));
    }
  }

  lemma WaitersOnly(a: Actor, o: Outside)
    ensures forall i :: 0 <= i < |AnswerWaiters(a, o).effects| ==> AnswerWaiters(a, o).effects[i].OwnerReleased?
  {
    hide Fold, Busies;
    AnswersOf(a.(releaseWaiters := []), a.releaseWaiters, o);
  }

  // ---------- The actor object in runs ----------

  /** One turn: the object takes its input and makes its pass; what it sent goes into flight. */
  method TakeTurn(d: Discovery, w: World, t: Turn) returns (v: World)
    modifies d
    ensures System(d.View(), v) == Next(System(old(d.View()), w), t)
  {
    hide OnCommand, OnEvent, Reconcile, DeliverAll, Move, InOrder, Leasable, KeptClosing, Silent;
    if !WakesActor(t.step) {
      return Move(w, t.step);
    }
    ghost var s := System(d.View(), w);
    var sentBefore := |d.sent|;
    var rest := TakeInput(d, w, t.step);
    d.ReconcileAll(t.expiring, t.granting, t.answering);
    ghost var c := TurnChange(s, t);
    assert d.sent[sentBefore..] == c.effects;
    v := DeliverAll(rest, d.sent[sentBefore..]);
  }

  /** The object takes the message of a step; a message in flight is not any more. */
  method TakeInput(d: Discovery, w: World, step: Step) returns (rest: World)
    modifies d
    ensures var (c, left) := Receive(System(old(d.View()), w), step);
            rest == left && d.View() == c.actor && d.sent == old(d.sent) + c.effects
  {
    hide OnCommand, OnEvent, InOrder, Leasable, KeptClosing, Silent;
    rest := w;
    match step
    case Asked(command, o) =>
      if FromClients(command) {
        d.HandleCommand(command, o);
      }
    case Noticed(event, o) =>
      if event.Inventory? || event.Fault? {
        d.HandleEvent(event, o);
      }
    case Reported(i, o) =>
      if i in w.workers && w.workers[i].stage.Reporting? {
        var found := w.workers[i];
        d.HandleEvent(Found(found.locator, found.generation, found.stage.id, found.stage.stream), o);
        rest := w.(workers := w.workers - {i});
      } else if i in w.workers && w.workers[i].stage.Ended? {
        d.HandleEvent(Closed(w.workers[i].locator.name, w.workers[i].generation), o);
        rest := w.(workers := w.workers - {i});
      }
    case Released(i, o) =>
      if i in w.holders && !w.holders[i].open {
        d.HandleCommand(Release(w.holders[i].locator.name, w.holders[i].token), o);
        rest := w.(holders := w.holders - {i});
      }
    case _ =>
  }

  /** An actor that takes any turns, with anything in flight, is where their run ends; and no port has two
      users. */
  method Drive(now: Millis, links: map<Text, Text>, turns: seq<Turn>) returns (d: Discovery, w: World)
    ensures fresh(d) && System(d.View(), w) == Run(now, links, turns) && Inv(System(d.View(), w))
    ensures forall u, v, port :: Uses(w, u, port) && Uses(w, v, port) ==> u == v
  {
    hide Next, Inv, Uses, WakesActor;
    d := new Discovery(now, links);
    w := World(map[], map[], 0);
    for k := 0 to |turns|
      invariant fresh(d) && System(d.View(), w) == Run(now, links, turns[..k])
    {
      w := TakeTurn(d, w, turns[k]);
      assert turns[..k + 1][..k] == turns[..k];
    }
    assert turns[..|turns|] == turns;
    RunKeeps(now, links, turns);
    forall u, v, port | Uses(w, u, port) && Uses(w, v, port) ensures u == v {
      OneUserPerPort(now, links, turns, u, v, port);
    }
  }
}
