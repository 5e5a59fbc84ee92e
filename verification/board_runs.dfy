/** Every run of creating sessions, stopping them and releasing their boards, with all the steps in
    between interleaved.
  */
module BoardRuns {
  import opened Options
  import opened BoardLease

  /** The task of a session: it waits for a stop, and then begins, marks and enqueues the release. */
  datatype Task = Waiting | Begun | Marked | Finished

  /** A session object. `asking` callers have seen it active and not yet raised the stop flag. */
  datatype Session = Session(
    board: Text, lifecycle: Lifecycle, stopRequested: bool, asking: nat, stops: nat, task: Task, connected: bool)

  /** Claimed boards whose sessions are not registered yet are in `creating`; if the creation is cancelled
      then, its session and board are in `lost`. */
  datatype World = World(
    leases: Leases,
    creating: map<Text, Text>,
    lost: map<Text, Text>,
    objects: map<Text, Session>,
    jobs: map<nat, Job>,
    next: nat)

  datatype Step =
    | ClaimStep(board: Text, session: Text)
    | Register(session: Text)
    | CancelCreation(session: Text)
    | Connect(session: Text, connected: bool)
    | Ask(session: Text)
    | RaiseStop(session: Text)
    | BeginRelease(session: Text)
    | MarkReleasing(session: Text)
    | Enqueue(session: Text, accepted: bool)
    | StopTasks(job: nat, result: Option<Text>)
    | PowerOff(job: nat, result: Option<Text>)
    | Settle(job: nat)
    | CleanUp(job: nat, result: Option<Text>)
    | FinishPass(job: nat)
    | NoteError(job: nat)
    | Sync(configured: set<Text>)

  predicate At(w: World, job: nat, stage: Stage) { job in w.jobs && w.jobs[job].stage == stage }

  predicate TaskAt(w: World, session: Text, task: Task) { session in w.objects && w.objects[session].task == task }

  function WithJob(w: World, job: nat, j: Job): World { w.(jobs := w.jobs[job := j]) }

  function WithObject(w: World, session: Text, o: Session): World { w.(objects := w.objects[session := o]) }

  /** The task takes the stop command; only the first one to come finds the session active. */
  function Begin(w: World, session: Text): World
    requires session in w.objects && w.objects[session].stops > 0
  {
    var o := w.objects[session].(stops := w.objects[session].stops - 1);
    WithObject(w, session,
               if o.lifecycle == Active then o.(lifecycle := Ending, task := Begun) else o.(task := Finished))
  }

  /** A stop of tasks is only seen while the session's serial connection is down. */
  function Seen(w: World, j: Job, result: Option<Text>): Option<Text> {
    if j.session in w.objects && w.objects[j.session].connected && result == None
    then Some("timed out waiting for session tasks to stop") else result
  }

  predicate KeepsLeased(l: Leases, configured: set<Text>) {
    forall b :: b in l.runtimes && l.runtimes[b].lease != Idle ==> b in configured
  }

  function Next(w: World, step: Step): World {
    match step
    case ClaimStep(board, session) =>
      if session in w.creating || session in w.objects || session in w.lost then w
      else
        var (l, ok) := Claim(w.leases, board, session);
        if ok then w.(leases := l, creating := w.creating[session := board]) else w
    case Register(session) =>
      if session !in w.creating then w
      else
        w.(creating := w.creating - {session},
           leases := w.leases.(sessions := w.leases.sessions + {session}),
           objects := w.objects[session := Session(w.creating[session], Active, false, 0, 0, Waiting, false)])
    case CancelCreation(session) =>
      if session !in w.creating then w
      else w.(creating := w.creating - {session}, lost := w.lost[session := w.creating[session]])
    case Connect(session, connected) =>
      if session in w.objects then WithObject(w, session, w.objects[session].(connected := connected)) else w
    case Ask(session) =>
      if session in w.objects && w.objects[session].lifecycle == Active
      then WithObject(w, session, w.objects[session].(asking := w.objects[session].asking + 1))
      else w
    case RaiseStop(session) =>
      if session in w.objects && w.objects[session].asking > 0 then
        var o := w.objects[session].(asking := w.objects[session].asking - 1);
        WithObject(w, session, if o.stopRequested then o else o.(stopRequested := true, stops := o.stops + 1))
      else w
    case BeginRelease(session) =>
      if TaskAt(w, session, Waiting) && w.objects[session].stops > 0 then Begin(w, session) else w
    case MarkReleasing(session) =>
      if TaskAt(w, session, Begun) then
        var o := w.objects[session];
        WithObject(w.(leases := Transition(w.leases, o.board, session).0), session, o.(task := Marked))
      else w
    case Enqueue(session, accepted) =>
      if TaskAt(w, session, Marked) then
        var o := w.objects[session];
        var finished := WithObject(w, session, o.(task := Finished));
        if accepted
        then finished.(jobs := w.jobs[w.next := NewJob(session, o.board)], next := w.next + 1)
        else finished
      else w
    case StopTasks(job, result) =>
      if At(w, job, AtTasks) then WithJob(w, job, TryTasks(w.jobs[job], Seen(w, w.jobs[job], result))) else w
    case PowerOff(job, result) =>
      if At(w, job, AtPower) then WithJob(w, job, TryPower(w.jobs[job], result)) else w
    case Settle(job) =>
      if At(w, job, AtSettle) then WithJob(w, job, TrySettle(w.jobs[job])) else w
    case CleanUp(job, result) =>
      if At(w, job, AtCleanup) then WithJob(w, job, TryCleanup(w.jobs[job], result)) else w
    case FinishPass(job) =>
      if At(w, job, AtEnd) then
        var (l, left) := EndPass(w.leases, w.jobs[job]);
        w.(leases := l, jobs := if left.Some? then w.jobs[job := left.value] else w.jobs - {job})
      else w
    case NoteError(job) =>
      if At(w, job, AtError) then
        var (l, j) := RecordError(w.leases, w.jobs[job]);
        w.(leases := l, jobs := w.jobs[job := j])
      else w
    case Sync(configured) =>
      if KeepsLeased(w.leases, configured) then w.(leases := Synced(w.leases, configured)) else w
  }

  function Start(configured: set<Text>): World {
    World(Synced(Leases(map[], {}), configured), map[], map[], map[], map[], 0)
  }

  function RunFrom(w: World, steps: seq<Step>): World {
    if steps == [] then w else Next(RunFrom(w, steps[..|steps| - 1]), steps[|steps| - 1])
  }

  function Run(configured: set<Text>, steps: seq<Step>): World { RunFrom(Start(configured), steps) }

  // ---------- The invariant ----------

  /** A session that has a board: registered, about to be, or lost before it was. */
  predicate Holds(w: World, session: Text, board: Text) {
    || (session in w.creating && w.creating[session] == board)
    || (session in w.lost && w.lost[session] == board)
    || (session in w.leases.sessions && session in w.objects && w.objects[session].board == board)
  }

  ghost predicate BoardsOwned(w: World) {
    && (forall s, b :: Holds(w, s, b) ==> Owned(w.leases, s, b))
    && (forall b :: b in w.leases.runtimes ==>
          if w.leases.runtimes[b].owner.Some?
          then w.leases.runtimes[b].lease != Idle && Holds(w, w.leases.runtimes[b].owner.value, b)
          else w.leases.runtimes[b].lease == Idle)
  }

  predicate SessionsKnown(w: World) {
    && (forall s :: s in w.leases.sessions ==> s in w.objects)
    && (forall s :: s in w.creating ==> s !in w.objects && s !in w.lost)
    && (forall s :: s in w.lost ==> s !in w.objects)
  }

  /** What a session object says about its task and its release. */
  predicate ObjectSound(o: Session, registered: bool) {
    && o.stops <= (if o.stopRequested then 1 else 0)
    && (o.task == Waiting <==> o.lifecycle == Active)
    && (o.task == Waiting && o.stopRequested ==> o.stops == 1)
    && (o.task != Finished ==> registered)
  }

  predicate ObjectsSound(w: World) {
    forall s :: s in w.objects ==> ObjectSound(w.objects[s], s in w.leases.sessions)
  }

  predicate JobSound(w: World, j: Job) {
    && TaskAt(w, j.session, Finished) && j.session in w.leases.sessions && w.objects[j.session].board == j.board
    && (j.settled ==> j.tasksStopped && j.poweredOff)
  }

  predicate JobsSound(w: World) {
    && (forall k :: k in w.jobs ==> k < w.next && JobSound(w, w.jobs[k]))
    && (forall k, l :: k in w.jobs && l in w.jobs && k != l ==> w.jobs[k].session != w.jobs[l].session)
  }

  ghost predicate Inv(w: World) { BoardsOwned(w) && SessionsKnown(w) && ObjectsSound(w) && JobsSound(w) }

  // ---------- Steps ----------

  lemma ClaimKeeps(w: World, board: Text, session: Text)
    requires Inv(w)
    ensures Inv(Next(w, ClaimStep(board, session)))
  {
    var v := Next(w, ClaimStep(board, session));
    if v != w {
      assert forall s, b :: Holds(v, s, b) <==> (Holds(w, s, b) || (s == session && b == board));
    }
  }

  lemma RegisterKeeps(w: World, session: Text)
    requires Inv(w)
    ensures Inv(Next(w, Register(session)))
  {
    var v := Next(w, Register(session));
    if v != w {
      assert forall s, b :: Holds(v, s, b) <==> Holds(w, s, b);
    }
  }

  lemma CancelKeeps(w: World, session: Text)
    requires Inv(w)
    ensures Inv(Next(w, CancelCreation(session)))
  {
    var v := Next(w, CancelCreation(session));
    if v != w {
      assert forall s, b :: Holds(v, s, b) <==> Holds(w, s, b);
    }
  }

  /** A change of a session object that keeps its board. */
  lemma ObjectKeeps(w: World, session: Text, o: Session)
    requires Inv(w) && session in w.objects && o.board == w.objects[session].board
    requires ObjectSound(o, session in w.leases.sessions)
    requires w.objects[session].task == Finished ==> o.task == Finished
    ensures Inv(WithObject(w, session, o))
  {
    var v := WithObject(w, session, o);
    assert forall s, b :: Holds(v, s, b) <==> Holds(w, s, b);
    assert forall k :: k in w.jobs ==> JobSound(w, w.jobs[k]);
  }

  lemma JobKeeps(w: World, job: nat, j: Job)
    requires Inv(w) && job in w.jobs && j.session == w.jobs[job].session && j.board == w.jobs[job].board
    requires j.settled ==> j.tasksStopped && j.poweredOff
    ensures Inv(WithJob(w, job, j))
  {
    hide ObjectSound;
    var v := WithJob(w, job, j);
    assert forall s, b :: Holds(v, s, b) <==> Holds(w, s, b);
  }

  /** A change of one board's state that keeps its owner and keeps it leased. */
  lemma LeaseKeeps(w: World, board: Text, r: Runtime)
    requires Inv(w) && board in w.leases.runtimes && w.leases.runtimes[board].owner.Some?
    requires r.owner == w.leases.runtimes[board].owner && r.lease != Idle
    ensures Inv(w.(leases := w.leases.(runtimes := w.leases.runtimes[board := r])))
  {
    hide ObjectSound;
    var v := w.(leases := w.leases.(runtimes := w.leases.runtimes[board := r]));
    assert forall s, b :: Holds(v, s, b) <==> Holds(w, s, b);
    assert forall k :: k in w.jobs ==> JobSound(v, w.jobs[k]) == JobSound(w, w.jobs[k]);
  }

  lemma SyncKeeps(w: World, configured: set<Text>)
    requires Inv(w)
    ensures Inv(Next(w, Sync(configured)))
  {
    hide ObjectSound, BoardsOwned, KeepsLeased;
    var v := Next(w, Sync(configured));
    SyncBoards(w, configured);
    assert forall k :: k in w.jobs ==> JobSound(v, w.jobs[k]) == JobSound(w, w.jobs[k]);
  }

  lemma SyncBoards(w: World, configured: set<Text>)
    requires BoardsOwned(w)
    ensures BoardsOwned(Next(w, Sync(configured)))
  {
    var v := Next(w, Sync(configured));
    assert forall s, b :: Holds(v, s, b) <==> Holds(w, s, b);
  }

  /** Given the invariant, giving the board back always works. */
  lemma CompleteWorks(w: World, job: nat)
    requires Inv(w) && job in w.jobs
    ensures var j := w.jobs[job]; Complete(w.leases, j.board, j.session).1
  {
    var j := w.jobs[job];
    assert JobSound(w, j);
    assert Holds(w, j.session, j.board);
  }

  lemma FinishKeeps(w: World, job: nat)
    requires Inv(w) && At(w, job, AtEnd) && AllDone(w.jobs[job])
    ensures Inv(Next(w, FinishPass(job)))
  {
    CompleteWorks(w, job);
    FinishBoards(w, job);
    FinishRest(w, job);
  }

  lemma FinishBoards(w: World, job: nat)
    requires Inv(w) && At(w, job, AtEnd) && AllDone(w.jobs[job])
    requires Complete(w.leases, w.jobs[job].board, w.jobs[job].session).1
    ensures BoardsOwned(Next(w, FinishPass(job)))
  {
    hide ObjectsSound, SessionsKnown;
    var j, v := w.jobs[job], Next(w, FinishPass(job));
    assert JobSound(w, j) && Holds(w, j.session, j.board);
    assert forall s, b :: Holds(v, s, b) ==> Holds(w, s, b);
    assert forall s, b :: Holds(w, s, b) && s != j.session ==> Holds(v, s, b);
    assert forall b :: !Holds(v, j.session, b) by {
      assert j.session !in w.creating && j.session !in w.lost by { Registered(w, j.session); }
    }
  }

  lemma Registered(w: World, session: Text)
    requires SessionsKnown(w) && session in w.leases.sessions
    ensures session !in w.creating && session !in w.lost
  {}

  lemma FinishRest(w: World, job: nat)
    requires Inv(w) && At(w, job, AtEnd) && AllDone(w.jobs[job])
    requires Complete(w.leases, w.jobs[job].board, w.jobs[job].session).1
    ensures var v := Next(w, FinishPass(job)); SessionsKnown(v) && ObjectsSound(v) && JobsSound(v)
  {
    hide ObjectSound, BoardsOwned, AllDone, KeepsLeased, Joined, Begin, Seen, Claim, Transition, Synced;
    var j, v := w.jobs[job], Next(w, FinishPass(job));
    assert JobSound(w, j);
    assert forall k :: k in v.jobs ==> JobSound(w, w.jobs[k]) && w.jobs[k].session != j.session;
    forall s | s in v.objects ensures ObjectSound(v.objects[s], s in v.leases.sessions) {
      assert ObjectSound(w.objects[s], s in w.leases.sessions);
      if s == j.session {
        FinishedSound(w.objects[s]);
      }
    }
  }

  lemma FinishedSound(o: Session)
    requires o.task == Finished
    ensures ObjectSound(o, true) ==> ObjectSound(o, false)
  {}

  lemma EnqueueKeeps(w: World, session: Text, accepted: bool)
    requires Inv(w)
    ensures Inv(Next(w, Enqueue(session, accepted)))
  {
    if TaskAt(w, session, Marked) {
      var o := w.objects[session];
      assert ObjectSound(o, session in w.leases.sessions);
      ObjectKeeps(w, session, o.(task := Finished));
      var u, v := WithObject(w, session, o.(task := Finished)), Next(w, Enqueue(session, accepted));
      NoJobYet(w, session);
      assert forall s, b :: Holds(v, s, b) <==> Holds(u, s, b);
      assert forall k :: k in u.jobs ==> JobSound(u, u.jobs[k]);
    }
  }

  lemma NoJobYet(w: World, session: Text)
    requires JobsSound(w) && session in w.objects && w.objects[session].task != Finished
    ensures forall k :: k in w.jobs ==> w.jobs[k].session != session
  {
    assert forall k :: k in w.jobs ==> JobSound(w, w.jobs[k]);
  }

  lemma NextKeeps(w: World, step: Step)
    requires Inv(w)
    ensures Inv(Next(w, step))
  {
    hide Inv, Claim, KeepsLeased;
    match step
    case ClaimStep(board, session) => ClaimKeeps(w, board, session);
    case Register(session) => RegisterKeeps(w, session);
    case CancelCreation(session) => CancelKeeps(w, session);
    case Enqueue(session, accepted) => EnqueueKeeps(w, session, accepted);
    case Sync(configured) => SyncKeeps(w, configured);
    case FinishPass(job) =>
      if At(w, job, AtEnd) {
        if AllDone(w.jobs[job]) {
          FinishKeeps(w, job);
        } else {
          JobFlags(w, job);
          JobKeeps(w, job, w.jobs[job].(stage := AtError));
        }
      }
    case NoteError(job) => NoteErrorKeeps(w, job);
    case MarkReleasing(session) => MarkKeeps(w, session);
    case _ => QuietKeeps(w, step);
  }

  lemma JobFlags(w: World, job: nat)
    requires Inv(w) && job in w.jobs
    ensures var j := w.jobs[job]; j.settled ==> j.tasksStopped && j.poweredOff
  {
    assert JobSound(w, w.jobs[job]);
  }

  lemma NoteErrorKeeps(w: World, job: nat)
    requires Inv(w)
    ensures Inv(Next(w, NoteError(job)))
  {
    hide Inv, Joined;
    if At(w, job, AtError) {
      var j := w.jobs[job];
      JobFlags(w, job);
      var again := j.(stage := AtTasks, errors := []);
      JobKeeps(w, job, again);
      var (l, ok) := MarkError(w.leases, j.board, j.session, Joined(j.errors));
      if ok {
        LeaseKeeps(WithJob(w, job, again), j.board, l.runtimes[j.board]) by { OwnerLeased(w, j.board); }
      }
    }
  }

  lemma OwnerLeased(w: World, board: Text)
    requires Inv(w) && board in w.leases.runtimes
    ensures w.leases.runtimes[board].owner.Some? ==> w.leases.runtimes[board].lease != Idle
  {}

  lemma MarkKeeps(w: World, session: Text)
    requires Inv(w)
    ensures Inv(Next(w, MarkReleasing(session)))
  {
    hide BoardsOwned, SessionsKnown, JobsSound;
    if TaskAt(w, session, Begun) {
      var o := w.objects[session];
      assert ObjectSound(o, session in w.leases.sessions);
      var v := WithObject(w, session, o.(task := Marked));
      ObjectKeeps(w, session, o.(task := Marked));
      var (l, ok) := Transition(w.leases, o.board, session);
      if l != w.leases {
        LeaseKeeps(v, o.board, l.runtimes[o.board]);
      }
    }
  }

  /** Steps that change one session object or one job only. */
  lemma QuietKeeps(w: World, step: Step)
    requires Inv(w)
    requires step.Connect? || step.Ask? || step.RaiseStop? || step.BeginRelease? || step.StopTasks? || step.PowerOff?
             || step.Settle? || step.CleanUp?
    ensures Inv(Next(w, step))
  {
    hide BoardsOwned, SessionsKnown, JobsSound, Seen;
    match step
    case StopTasks(job, result) =>
      if At(w, job, AtTasks) {
        JobFlags(w, job);
        JobKeeps(w, job, TryTasks(w.jobs[job], Seen(w, w.jobs[job], result)));
      }
    case PowerOff(job, result) =>
      if At(w, job, AtPower) {
        JobFlags(w, job);
        JobKeeps(w, job, TryPower(w.jobs[job], result));
      }
    case Settle(job) =>
      if At(w, job, AtSettle) {
        JobFlags(w, job);
        JobKeeps(w, job, TrySettle(w.jobs[job]));
      }
    case CleanUp(job, result) =>
      if At(w, job, AtCleanup) {
        JobFlags(w, job);
        JobKeeps(w, job, TryCleanup(w.jobs[job], result));
      }
    case Connect(session, connected) =>
      if session in w.objects { ObjectKeeps(w, session, w.objects[session].(connected := connected)); }
    case Ask(session) =>
      if Next(w, step) != w { ObjectKeeps(w, session, Next(w, step).objects[session]); }
    case RaiseStop(session) =>
      if Next(w, step) != w { ObjectKeeps(w, session, Next(w, step).objects[session]); }
    case BeginRelease(session) =>
      if Next(w, step) != w { ObjectKeeps(w, session, Next(w, step).objects[session]); }
  }

  lemma {:induction false} RunKeeps(configured: set<Text>, steps: seq<Step>)
    ensures Inv(Run(configured, steps))
  {
    if steps != [] {
      hide Inv, Next;
      RunKeeps(configured, steps[..|steps| - 1]);
      NextKeeps(Run(configured, steps[..|steps| - 1]), steps[|steps| - 1]);
    }
  }

  // ---------- Whole runs ----------

  /** A board is leased exactly when it names a session, that session has exactly this board, and no
      board is shared. */
  lemma LeasesAreExclusive(configured: set<Text>, steps: seq<Step>, board: Text)
    requires board in Run(configured, steps).leases.runtimes
    ensures var w := Run(configured, steps); var r := w.leases.runtimes[board];
            && (r.lease != Idle <==> r.owner.Some?)
            && (forall s :: Holds(w, s, board) <==> r.owner == Some(s))
            && (r.owner.Some? ==> forall b :: Holds(w, r.owner.value, b) ==> b == board)
  {
    hide Run, ObjectsSound, JobsSound;
    RunKeeps(configured, steps);
    var w := Run(configured, steps);
    var r := w.leases.runtimes[board];
    if r.owner.Some? {
      forall b | Holds(w, r.owner.value, b) ensures b == board {
        OneBoard(w, r.owner.value, b, board);
      }
    }
  }

  lemma OneBoard(w: World, session: Text, a: Text, b: Text)
    requires SessionsKnown(w) && Holds(w, session, a) && Holds(w, session, b)
    ensures a == b
  {}

  /** A session never has two release jobs, and its board is its own until the job is done. */
  lemma OneJobPerSession(configured: set<Text>, steps: seq<Step>, k: nat, l: nat)
    requires var w := Run(configured, steps); k in w.jobs && l in w.jobs && w.jobs[k].session == w.jobs[l].session
    ensures var w := Run(configured, steps);
            k == l && Owned(w.leases, w.jobs[k].session, w.jobs[k].board)
  {
    hide Run, ObjectsSound;
    RunKeeps(configured, steps);
    var w := Run(configured, steps);
    assert JobSound(w, w.jobs[k]);
    assert Holds(w, w.jobs[k].session, w.jobs[k].board);
  }

  // ---------- Boards that are never given back ----------

  /** A session that nobody will release: lost before it was registered, or registered with its task
      finished and no release job. */
  predicate Stranded(w: World, session: Text) {
    || session in w.lost
    || (session in w.leases.sessions && TaskAt(w, session, Finished)
        && forall k :: k in w.jobs ==> w.jobs[k].session != session)
  }

  /** In every continuation the board is leased to this session. */
  ghost predicate LeasedForEver(w: World, session: Text, board: Text) {
    forall steps :: Owned(RunFrom(w, steps).leases, session, board)
  }

  lemma StrandedStep(w: World, step: Step, session: Text, board: Text)
    requires Inv(w) && Stranded(w, session) && Holds(w, session, board)
    ensures Stranded(Next(w, step), session) && Holds(Next(w, step), session, board)
  {
    hide Next, BoardsOwned, ObjectsSound;
    if session in w.lost {
      LostStays(w, step, session);
    } else {
      FinishedStays(w, step, session);
      StaysRegistered(w, step, session);
      forall k | k in Next(w, step).jobs ensures Next(w, step).jobs[k].session != session {
        if step.StopTasks? || step.PowerOff? || step.Settle? || step.CleanUp? {
          SameSessions(w, step, k);
        } else {
          OtherJobs(w, step, k);
        }
      }
    }
  }

  lemma LostStays(w: World, step: Step, session: Text)
    requires session in w.lost && SessionsKnown(w)
    ensures session in Next(w, step).lost && Next(w, step).lost[session] == w.lost[session]
  {
    hide Claim, KeepsLeased, Transition, MarkError, Joined, EndPass, Seen;
  }

  lemma StaysRegistered(w: World, step: Step, session: Text)
    requires session in w.leases.sessions && session in w.objects && session !in w.creating
    requires forall k :: k in w.jobs ==> w.jobs[k].session != session
    ensures session in Next(w, step).leases.sessions && session in Next(w, step).objects
    ensures Next(w, step).objects[session].board == w.objects[session].board
  {
    ObjectStays(w, step, session);
    SessionStays(w, step, session);
  }

  lemma ObjectStays(w: World, step: Step, session: Text)
    requires session in w.objects && session !in w.creating
    ensures session in Next(w, step).objects && Next(w, step).objects[session].board == w.objects[session].board
  {
    hide Claim, Transition, EndPass, RecordError, KeepsLeased, Seen, TryTasks, TryPower, TrySettle, TryCleanup, Synced;
  }

  lemma SessionStays(w: World, step: Step, session: Text)
    requires session in w.leases.sessions && forall k :: k in w.jobs ==> w.jobs[k].session != session
    ensures session in Next(w, step).leases.sessions
  {
    hide KeepsLeased, Joined, Seen, AllDone, TryTasks, TryPower, TrySettle, TryCleanup, NewJob;
  }

  lemma SameSessions(w: World, step: Step, k: nat)
    requires step.StopTasks? || step.PowerOff? || step.Settle? || step.CleanUp?
    requires k in Next(w, step).jobs
    ensures k in w.jobs && Next(w, step).jobs[k].session == w.jobs[k].session
  {
    hide Tried, Noted, Seen;
  }

  lemma {:induction false} StrandedRun(w: World, steps: seq<Step>, session: Text, board: Text)
    requires Inv(w) && Stranded(w, session) && Holds(w, session, board)
    ensures Inv(RunFrom(w, steps)) && Stranded(RunFrom(w, steps), session) && Holds(RunFrom(w, steps), session, board)
  {
    hide Inv, Next, Stranded, Holds;
    if steps != [] {
      var front, step := steps[..|steps| - 1], steps[|steps| - 1];
      StrandedRun(w, front, session, board);
      NextKeeps(RunFrom(w, front), step);
      StrandedStep(RunFrom(w, front), step, session, board);
    }
  }

  lemma {:induction false} RunAppend(w: World, a: seq<Step>, b: seq<Step>)
    ensures RunFrom(w, a + b) == RunFrom(RunFrom(w, a), b)
  {
    hide Next;
    if b == [] {
      assert a + b == a;
    } else {
      assert (a + b)[..|a + b| - 1] == a + b[..|b| - 1];
      RunAppend(w, a, b[..|b| - 1]);
    }
  }

  lemma RunCons(w: World, step: Step, steps: seq<Step>)
    ensures RunFrom(w, [step] + steps) == RunFrom(Next(w, step), steps)
  {
    hide Next;
    assert [step][..0] == [] && RunFrom(w, []) == w;
    assert RunFrom(w, [step]) == Next(w, step);
    RunAppend(w, [step], steps);
  }

  /** The rest of a pass in which nothing fails, from wherever the job is. */
  function Driven(j: Job): Job {
    var a := if j.stage == AtTasks then TryTasks(j, None) else j;
    var b := if a.stage == AtPower then TryPower(a, None) else a;
    var c := if b.stage == AtSettle then TrySettle(b) else b;
    if c.stage == AtCleanup then TryCleanup(c, None) else c
  }

  function TryingSteps(k: nat): seq<Step> { [StopTasks(k, None), PowerOff(k, None), Settle(k), CleanUp(k, None)] }

  function EndingSteps(k: nat): seq<Step> { [FinishPass(k), NoteError(k)] }

  predicate Disconnected(w: World, session: Text) { session in w.objects && !w.objects[session].connected }

  lemma RunFour(w: World, a: Step, b: Step, c: Step, d: Step)
    ensures RunFrom(w, [a, b, c, d]) == Next(Next(Next(Next(w, a), b), c), d)
  {
    hide Next;
    assert [a, b, c, d][..3] == [a, b, c] && [a, b, c][..2] == [a, b] && [a, b][..1] == [a] && [a][..0] == [];
    assert RunFrom(w, []) == w;
    assert RunFrom(w, [a]) == Next(RunFrom(w, []), a);
    assert RunFrom(w, [a, b]) == Next(RunFrom(w, [a]), b);
    assert RunFrom(w, [a, b, c]) == Next(RunFrom(w, [a, b]), c);
  }

  lemma TryOne(w: World, k: nat)
    requires k in w.jobs
    ensures Disconnected(w, w.jobs[k].session) ==>
              Next(w, StopTasks(k, None))
              == WithJob(w, k, if w.jobs[k].stage == AtTasks then TryTasks(w.jobs[k], None) else w.jobs[k])
    ensures Next(w, PowerOff(k, None))
            == WithJob(w, k, if w.jobs[k].stage == AtPower then TryPower(w.jobs[k], None) else w.jobs[k])
    ensures Next(w, Settle(k)) == WithJob(w, k, if w.jobs[k].stage == AtSettle then TrySettle(w.jobs[k]) else w.jobs[k])
    ensures Next(w, CleanUp(k, None))
            == WithJob(w, k, if w.jobs[k].stage == AtCleanup then TryCleanup(w.jobs[k], None) else w.jobs[k])
  {
    hide TryTasks, TryPower, TrySettle, TryCleanup;
    assert w.jobs[k := w.jobs[k]] == w.jobs;
  }

  lemma WithJobTwice(w: World, k: nat, a: Job, b: Job)
    ensures WithJob(WithJob(w, k, a), k, b) == WithJob(w, k, b) && WithJob(w, k, a).jobs[k] == a
  {
    assert w.jobs[k := a][k := b] == w.jobs[k := b];
  }

  lemma TryAllSteps(w: World, k: nat)
    requires k in w.jobs && Disconnected(w, w.jobs[k].session)
    ensures RunFrom(w, TryingSteps(k)) == WithJob(w, k, Driven(w.jobs[k]))
  {
    hide Next, WithJob, RunFrom, TryTasks, TryPower, TrySettle, TryCleanup;
    var j := w.jobs[k];
    var a := if j.stage == AtTasks then TryTasks(j, None) else j;
    var b := if a.stage == AtPower then TryPower(a, None) else a;
    var c := if b.stage == AtSettle then TrySettle(b) else b;
    RunFour(w, StopTasks(k, None), PowerOff(k, None), Settle(k), CleanUp(k, None));
    InJobs(w, k, a);
    InJobs(w, k, b);
    InJobs(w, k, c);
    TryOne(w, k);
    TryOne(WithJob(w, k, a), k);
    WithJobTwice(w, k, a, b);
    TryOne(WithJob(w, k, b), k);
    WithJobTwice(w, k, b, c);
    TryOne(WithJob(w, k, c), k);
    WithJobTwice(w, k, c, Driven(j));
  }

  lemma InJobs(w: World, k: nat, j: Job)
    ensures k in WithJob(w, k, j).jobs && WithJob(w, k, j).jobs[k] == j
  {}

  lemma DrivenEnds(j: Job)
    ensures var e := Driven(j);
            && e.session == j.session && e.board == j.board && (e.stage == AtEnd || e.stage == AtError)
            && (j.stage == AtTasks && j.errors == [] && (j.settled ==> j.tasksStopped && j.poweredOff) ==>
                  e.stage == AtEnd && AllDone(e))
            && ((j.settled ==> j.tasksStopped && j.poweredOff) ==> (e.settled ==> e.tasksStopped && e.poweredOff))
  {}

  predicate Free(w: World, board: Text) { board in w.leases.runtimes && w.leases.runtimes[board] == FREE }

  /** The end of a pass frees the board, or has the job start over without an error noted. */
  lemma EndOnce(w: World, k: nat)
    requires Inv(w) && k in w.jobs && (w.jobs[k].stage == AtEnd || w.jobs[k].stage == AtError)
    ensures var (v, j) := (RunFrom(w, EndingSteps(k)), w.jobs[k]);
            && v.objects == w.objects
            && (if j.stage == AtEnd && AllDone(j) then k !in v.jobs && Free(v, j.board)
                else v.jobs == w.jobs[k := j.(stage := AtTasks, errors := [])])
  {
    hide Inv, Joined, AllDone;
    CompleteWorks(w, k);
    var ended := Next(w, FinishPass(k));
    assert EndingSteps(k)[..1] == [FinishPass(k)] && [FinishPass(k)][..0] == [];
    assert RunFrom(w, []) == w;
    assert RunFrom(w, [FinishPass(k)]) == ended;
    assert RunFrom(w, EndingSteps(k)) == Next(ended, NoteError(k));
  }

  lemma PassOnce(w: World, k: nat)
    requires Inv(w) && k in w.jobs && Disconnected(w, w.jobs[k].session)
    ensures var (v, j) := (RunFrom(w, TryingSteps(k) + EndingSteps(k)), w.jobs[k]);
            && Inv(v)
            && (|| (k !in v.jobs && Free(v, j.board))
                || (k in v.jobs && v.jobs[k].session == j.session && v.jobs[k].board == j.board
                    && v.jobs[k].stage == AtTasks && v.jobs[k].errors == [] && Disconnected(v, j.session)))
            && (j.stage == AtTasks && j.errors == [] ==> k !in v.jobs && Free(v, j.board))
  {
    hide Inv, RunFrom, Driven, WithJob, AllDone, Free;
    var j := w.jobs[k];
    TryAllSteps(w, k);
    RunAppend(w, TryingSteps(k), EndingSteps(k));
    DrivenEnds(j);
    JobFlags(w, k);
    JobKeeps(w, k, Driven(j));
    var tried := WithJob(w, k, Driven(j));
    InJobs(w, k, Driven(j));
    EndOnce(tried, k);
    KeepsInv(tried, EndingSteps(k));
    SameObjects(w, k, Driven(j));
  }

  /** The six steps of a pass, when nothing comes between them, do to the boards and the job what one pass of the
      release job does, errors on the board included. */
  lemma StepsMakeAPass(w: World, k: nat, tasks: Option<Text>, power: Option<Text>, cleanup: Option<Text>)
    requires k in w.jobs && w.jobs[k].stage == AtTasks
    ensures var steps := [StopTasks(k, tasks), PowerOff(k, power), Settle(k), CleanUp(k, cleanup)] + EndingSteps(k);
            var (l, left) := Pass(w.leases, w.jobs[k], Seen(w, w.jobs[k], tasks), power, cleanup);
            RunFrom(w, steps)
            == w.(leases := l, jobs := if left.Some? then w.jobs[k := left.value] else w.jobs - {k})
  {
    hide Seen, Tried, Noted, EndPass, RecordError, RunFrom, EndingSteps;
    var seen := Seen(w, w.jobs[k], tasks);
    RunFour(w, StopTasks(k, tasks), PowerOff(k, power), Settle(k), CleanUp(k, cleanup));
    RunAppend(w, [StopTasks(k, tasks), PowerOff(k, power), Settle(k), CleanUp(k, cleanup)], EndingSteps(k));
    FourSteps(w, k, tasks, power, cleanup);
    TwoSteps(WithJob(w, k, TryAll(w.jobs[k], seen, power, cleanup)), k);
    assert w.jobs[k := TryAll(w.jobs[k], seen, power, cleanup)] - {k} == w.jobs - {k};
  }

  lemma FourSteps(w: World, k: nat, tasks: Option<Text>, power: Option<Text>, cleanup: Option<Text>)
    requires k in w.jobs && w.jobs[k].stage == AtTasks
    ensures Next(Next(Next(Next(w, StopTasks(k, tasks)), PowerOff(k, power)), Settle(k)), CleanUp(k, cleanup))
            == WithJob(w, k, TryAll(w.jobs[k], Seen(w, w.jobs[k], tasks), power, cleanup))
  {
    hide Seen, Tried, Noted;
    var a := TryTasks(w.jobs[k], Seen(w, w.jobs[k], tasks));
    var b, c := TryPower(a, power), TrySettle(TryPower(a, power));
    WithJobTwice(w, k, a, b);
    WithJobTwice(w, k, b, c);
    WithJobTwice(w, k, c, TryCleanup(c, cleanup));
    assert Next(w, StopTasks(k, tasks)) == WithJob(w, k, a);
    assert Next(WithJob(w, k, a), PowerOff(k, power)) == WithJob(w, k, b);
    assert Next(WithJob(w, k, b), Settle(k)) == WithJob(w, k, c);
  }

  lemma TwoSteps(w: World, k: nat)
    requires k in w.jobs && w.jobs[k].stage == AtEnd
    ensures var (l, left) := EndPass(w.leases, w.jobs[k]);
            RunFrom(w, EndingSteps(k))
            == match left
               case None => w.(leases := l, jobs := w.jobs - {k})
               case Some(j) => w.(leases := RecordError(l, j).0, jobs := w.jobs[k := RecordError(l, j).1])
  {
    hide RecordError, AllDone;
    var ended := Next(w, FinishPass(k));
    assert EndingSteps(k)[..1] == [FinishPass(k)] && [FinishPass(k)][..0] == [];
    assert RunFrom(w, []) == w;
    assert RunFrom(w, [FinishPass(k)]) == ended;
    assert RunFrom(w, EndingSteps(k)) == Next(ended, NoteError(k));
  }

  lemma SameObjects(w: World, k: nat, j: Job)
    ensures WithJob(w, k, j).objects == w.objects
  {}

  lemma {:induction false} KeepsInv(w: World, steps: seq<Step>)
    requires Inv(w)
    ensures Inv(RunFrom(w, steps))
  {
    hide Inv, Next;
    if steps != [] {
      KeepsInv(w, steps[..|steps| - 1]);
      NextKeeps(RunFrom(w, steps[..|steps| - 1]), steps[|steps| - 1]);
    }
  }

  /** Whatever a job has failed at before, it frees its board if nothing fails any more: at the end of this
      pass, or of the next. */
  lemma JobFrees(w: World, k: nat) returns (steps: seq<Step>)
    requires Inv(w) && k in w.jobs
    ensures Free(RunFrom(w, steps), w.jobs[k].board)
  {
    hide Inv, RunFrom, Free, TryingSteps, EndingSteps;
    var j := w.jobs[k];
    var pass := TryingSteps(k) + EndingSteps(k);
    var v := Next(w, Connect(j.session, false));
    NextKeeps(w, Connect(j.session, false));
    Unplugged(w, k);
    PassOnce(v, k);
    RunCons(w, Connect(j.session, false), pass);
    var u := RunFrom(v, pass);
    if k !in u.jobs {
      steps := [Connect(j.session, false)] + pass;
    } else {
      PassOnce(u, k);
      RunAppend(v, pass, pass);
      RunCons(w, Connect(j.session, false), pass + pass);
      steps := [Connect(j.session, false)] + (pass + pass);
    }
  }

  lemma Unplugged(w: World, k: nat)
    requires Inv(w) && k in w.jobs
    ensures var (v, j) := (Next(w, Connect(w.jobs[k].session, false)), w.jobs[k]);
            k in v.jobs && v.jobs[k] == j && Disconnected(v, j.session)
  {
    assert JobSound(w, w.jobs[k]);
  }

  /** How many steps a session is from having a release job. */
  function Distance(w: World, session: Text): nat {
    if session in w.creating then 6
    else if session !in w.objects then 0
    else
      var o := w.objects[session];
      match o.task
      case Waiting => if o.stops > 0 then 3 else if o.asking > 0 then 4 else 5
      case Begun => 2
      case Marked => 1
      case Finished => 0
  }

  function Closer(w: World, session: Text): Step {
    match Distance(w, session)
    case 6 => Register(session)
    case 5 => Ask(session)
    case 4 => RaiseStop(session)
    case 3 => BeginRelease(session)
    case 2 => MarkReleasing(session)
    case _ => Enqueue(session, true)
  }

  lemma GetsCloser(w: World, session: Text, board: Text)
    requires Inv(w) && Holds(w, session, board) && !Stranded(w, session) && Distance(w, session) > 0
    ensures var v := Next(w, Closer(w, session));
            Holds(v, session, board) && !Stranded(v, session) && Distance(v, session) < Distance(w, session)
  {
    hide BoardsOwned, JobsSound;
    if session in w.creating {
      RegisterCloser(w, session, board);
    } else {
      assert session in w.objects && ObjectSound(w.objects[session], session in w.leases.sessions);
      if w.objects[session].task == Waiting {
        StopCloser(w, session, board);
      } else {
        ReleaseCloser(w, session, board);
      }
    }
  }

  lemma RegisterCloser(w: World, session: Text, board: Text)
    requires SessionsKnown(w) && session in w.creating && w.creating[session] == board
    ensures var v := Next(w, Register(session)); Holds(v, session, board) && !Stranded(v, session) && Distance(v, session) == 5
  {}

  lemma StopCloser(w: World, session: Text, board: Text)
    requires session in w.objects && session in w.leases.sessions && w.objects[session].board == board
    requires session !in w.creating && session !in w.lost
    requires ObjectSound(w.objects[session], true) && w.objects[session].task == Waiting
    ensures var v := Next(w, Closer(w, session));
            Holds(v, session, board) && !Stranded(v, session) && Distance(v, session) < Distance(w, session)
  {}

  lemma ReleaseCloser(w: World, session: Text, board: Text)
    requires session in w.objects && session in w.leases.sessions && w.objects[session].board == board
    requires session !in w.creating && session !in w.lost
    requires w.objects[session].task == Begun || w.objects[session].task == Marked
    ensures var v := Next(w, Closer(w, session));
            Holds(v, session, board) && !Stranded(v, session) && Distance(v, session) < Distance(w, session)
  {
    var v := Next(w, Closer(w, session));
    if w.objects[session].task == Marked {
      assert v.jobs[w.next].session == session;
    }
  }

  /** A session that is not stranded can be released, whatever was tried before. */
  lemma {:induction false} CanBeFreed(w: World, session: Text, board: Text) returns (steps: seq<Step>)
    requires Inv(w) && Holds(w, session, board) && !Stranded(w, session)
    ensures Free(RunFrom(w, steps), board)
    decreases Distance(w, session)
  {
    hide Inv, RunFrom, Free, Closer, Distance, Next, Stranded, Holds;
    if Distance(w, session) > 0 {
      var step := Closer(w, session);
      GetsCloser(w, session, board);
      NextKeeps(w, step);
      var rest := CanBeFreed(Next(w, step), session, board);
      steps := [step] + rest;
      RunCons(w, step, rest);
    } else {
      var k := HasJob(w, session, board);
      steps := JobFrees(w, k);
    }
  }

  lemma HasJob(w: World, session: Text, board: Text) returns (k: nat)
    requires Inv(w) && Holds(w, session, board) && !Stranded(w, session) && Distance(w, session) == 0
    ensures k in w.jobs && w.jobs[k].session == session && w.jobs[k].board == board
  {
    hide BoardsOwned, ObjectsSound;
    k :| k in w.jobs && w.jobs[k].session == session;
    assert JobSound(w, w.jobs[k]);
  }

  /** In every run, a leased board is leased to its session in every continuation if and only if this session
      is stranded; otherwise some continuation frees it. */
  lemma ExactlyStranded(configured: set<Text>, steps: seq<Step>, session: Text, board: Text)
    requires Owned(Run(configured, steps).leases, session, board)
    ensures LeasedForEver(Run(configured, steps), session, board) <==> Stranded(Run(configured, steps), session)
  {
    hide Run, Stranded, Owned, RunFrom;
    var w := Run(configured, steps);
    RunKeeps(configured, steps);
    OwnerHolds(w, session, board);
    if Stranded(w, session) {
      forall more ensures Owned(RunFrom(w, more).leases, session, board) {
        StrandedRun(w, more, session, board);
        HolderOwns(RunFrom(w, more), session, board);
      }
    } else {
      var more := CanBeFreed(w, session, board);
      FreeIsNotOwned(RunFrom(w, more), session, board);
    }
  }

  lemma OwnerHolds(w: World, session: Text, board: Text)
    requires Inv(w) && Owned(w.leases, session, board)
    ensures Holds(w, session, board)
  {}

  lemma HolderOwns(w: World, session: Text, board: Text)
    requires Inv(w) && Holds(w, session, board)
    ensures Owned(w.leases, session, board)
  {}

  lemma FreeIsNotOwned(w: World, session: Text, board: Text)
    requires Free(w, board)
    ensures !Owned(w.leases, session, board)
  {}

  /** Both ways of being stranded happen: the creation is cancelled after the claim, or the release cannot be
      enqueued. */
  lemma LostInARun(board: Text, session: Text) returns (steps: seq<Step>)
    ensures var w := Run({board}, steps); session in w.lost && Owned(w.leases, session, board)
  {
    hide Owned;
    var w, claim := Start({board}), ClaimStep(board, session);
    steps := [claim] + [CancelCreation(session)];
    RunCons(w, claim, [CancelCreation(session)]);
    RunOneStep(Next(w, claim), CancelCreation(session));
    RunKeeps({board}, steps);
    HolderOwns(Run({board}, steps), session, board);
  }

  function Stopping(board: Text, session: Text): seq<Step> {
    [ClaimStep(board, session), Register(session), Ask(session), RaiseStop(session)]
  }

  lemma StoppingHolds(board: Text, session: Text)
    ensures var w := Run({board}, Stopping(board, session));
            && w.objects == map[session := Session(board, Active, true, 0, 1, Waiting, false)]
            && w.jobs == map[] && w.lost == map[] && w.leases.sessions == {session}
  {
    RunFour(Start({board}), ClaimStep(board, session), Register(session), Ask(session), RaiseStop(session));
  }

  lemma RejectedInARun(board: Text, session: Text) returns (steps: seq<Step>)
    ensures var w := Run({board}, steps); session !in w.lost && Stranded(w, session) && Owned(w.leases, session, board)
  {
    hide Owned, RunFrom, Transition, Stopping;
    var w := Run({board}, Stopping(board, session));
    StoppingHolds(board, session);
    var begin, mark, enqueue := BeginRelease(session), MarkReleasing(session), Enqueue(session, false);
    var ended := [begin] + ([mark] + [enqueue]);
    steps := Stopping(board, session) + ended;
    RunAppend(Start({board}), Stopping(board, session), ended);
    RunCons(w, begin, [mark] + [enqueue]);
    var v := Next(w, begin);
    assert v.objects[session].task == Task.Begun && v.jobs == map[] && v.lost == map[] && v.leases == w.leases;
    RunCons(v, mark, [enqueue]);
    var u := Next(v, mark);
    TransitionKeepsSessions(v.leases, board, session);
    assert u.objects[session].task == Marked && u.jobs == map[] && u.lost == map[] && u.leases.sessions == {session};
    RunOneStep(u, enqueue);
    RunKeeps({board}, steps);
    assert Holds(Next(u, enqueue), session, board);
    HolderOwns(Run({board}, steps), session, board);
  }

  lemma TransitionKeepsSessions(l: Leases, board: Text, session: Text)
    ensures Transition(l, board, session).0.sessions == l.sessions
  {}

  lemma RunOneStep(w: World, step: Step)
    ensures RunFrom(w, [step]) == Next(w, step)
  {
    hide Next;
    assert [step][..0] == [] && RunFrom(w, []) == w;
  }

  datatype Milestone = TasksStopped | PoweredOff | Settled | CleanedUp

  /** What a step achieves for a session's release: a step that was still to do and now succeeds. */
  function Achieved(w: World, step: Step, session: Text): seq<Milestone> {
    match step
    case StopTasks(k, result) =>
      if At(w, k, AtTasks) && w.jobs[k].session == session && !w.jobs[k].tasksStopped
         && result == None && session in w.objects && !w.objects[session].connected
      then [TasksStopped] else []
    case PowerOff(k, result) =>
      if At(w, k, AtPower) && w.jobs[k].session == session && !w.jobs[k].poweredOff && result == None
      then [PoweredOff] else []
    case Settle(k) =>
      if At(w, k, AtSettle) && w.jobs[k].session == session && !w.jobs[k].settled
         && w.jobs[k].tasksStopped && w.jobs[k].poweredOff
      then [Settled] else []
    case CleanUp(k, result) =>
      if At(w, k, AtCleanup) && w.jobs[k].session == session && !w.jobs[k].cleaned && result == None
      then [CleanedUp] else []
    case _ => []
  }

  /** Everything achieved for a session's release during a run, in order. */
  function Milestones(configured: set<Text>, steps: seq<Step>, session: Text): seq<Milestone> {
    if steps == [] then []
    else
      var front := steps[..|steps| - 1];
      Milestones(configured, front, session) + Achieved(Run(configured, front), steps[|steps| - 1], session)
  }

  /** The flags of a job are what its session's run has achieved. */
  predicate FlagsAre(j: Job, ms: seq<Milestone>) {
    && (j.tasksStopped <==> TasksStopped in ms)
    && (j.poweredOff <==> PoweredOff in ms)
    && (j.settled <==> Settled in ms)
    && (j.cleaned <==> CleanedUp in ms)
  }

  /** Settling comes after both the tasks and the power. */
  predicate SettledLast(ms: seq<Milestone>) {
    forall k :: 0 <= k < |ms| && ms[k] == Settled ==> TasksStopped in ms[..k] && PoweredOff in ms[..k]
  }

  predicate Recorded(w: World, session: Text, ms: seq<Milestone>) {
    && SettledLast(ms)
    && (forall k :: k in w.jobs && w.jobs[k].session == session ==> FlagsAre(w.jobs[k], ms))
    && (session !in w.objects || w.objects[session].task != Finished ==> ms == [])
  }

  lemma SettledLastAppend(ms: seq<Milestone>, m: Milestone)
    requires SettledLast(ms) && (m == Settled ==> TasksStopped in ms && PoweredOff in ms)
    ensures SettledLast(ms + [m])
  {
    forall k | 0 <= k < |ms + [m]| && (ms + [m])[k] == Settled
      ensures TasksStopped in (ms + [m])[..k] && PoweredOff in (ms + [m])[..k]
    {
      assert (ms + [m])[..k] == ms[..k];
      assert ms[..|ms|] == ms;
    }
  }

  lemma FlagsAppend(j: Job, ms: seq<Milestone>, m: Milestone)
    requires FlagsAre(j, ms)
    ensures m == TasksStopped ==> FlagsAre(j.(tasksStopped := true), ms + [m])
    ensures m == PoweredOff ==> FlagsAre(j.(poweredOff := true), ms + [m])
    ensures m == Settled ==> FlagsAre(j.(settled := true), ms + [m])
    ensures m == CleanedUp ==> FlagsAre(j.(cleaned := true), ms + [m])
  {}

  lemma FlagsAlike(j: Job, k: Job, ms: seq<Milestone>)
    requires FlagsAre(j, ms) && j.tasksStopped == k.tasksStopped && j.poweredOff == k.poweredOff
    requires j.settled == k.settled && j.cleaned == k.cleaned
    ensures FlagsAre(k, ms)
  {}

  /** A step of a job that succeeds, fails or is skipped. */
  lemma JobRecorded(w: World, k: nat, next: Job, session: Text, ms: seq<Milestone>, achieved: seq<Milestone>)
    requires Inv(w) && Recorded(w, session, ms) && k in w.jobs && next.session == w.jobs[k].session
    requires w.jobs[k].session == session ==> SettledLast(ms + achieved) && FlagsAre(next, ms + achieved)
    requires w.jobs[k].session != session ==> achieved == []
    ensures Recorded(WithJob(w, k, next), session, ms + achieved)
  {
    hide BoardsOwned, ObjectsSound, SettledLast, FlagsAre;
    assert JobSound(w, w.jobs[k]);
    assert ms + [] == ms;
  }

  lemma TriedRecorded(w: World, step: Step, k: nat, session: Text, ms: seq<Milestone>)
    requires Inv(w) && Recorded(w, session, ms) && k in w.jobs
    requires (step.StopTasks? || step.PowerOff? || step.Settle? || step.CleanUp?) && step.job == k && Next(w, step) != w
    ensures Recorded(Next(w, step), session, ms + Achieved(w, step, session))
  {
    hide BoardsOwned, ObjectsSound, SettledLast, FlagsAre;
    var j, next, achieved := w.jobs[k], Next(w, step).jobs[k], Achieved(w, step, session);
    assert JobSound(w, j);
    assert Next(w, step) == WithJob(w, k, next);
    if j.session == session {
      if achieved == [] {
        assert ms + [] == ms;
        FlagsAlike(j, next, ms);
      } else {
        FlagsAppend(j, ms, achieved[0]);
        if achieved[0] == Settled {
          FlagsMean(j, ms);
        }
        SettledLastAppend(ms, achieved[0]);
        FlagsAlikeAfter(j, next, ms, achieved[0]);
      }
    }
    JobRecorded(w, k, next, session, ms, achieved);
  }

  lemma FlagsMean(j: Job, ms: seq<Milestone>)
    requires FlagsAre(j, ms)
    ensures j.tasksStopped ==> TasksStopped in ms
    ensures j.poweredOff ==> PoweredOff in ms
    ensures j.settled ==> Settled in ms
    ensures j.cleaned ==> CleanedUp in ms
  {}

  lemma FlagsAlikeAfter(j: Job, k: Job, ms: seq<Milestone>, m: Milestone)
    requires FlagsAre(j, ms)
    requires k.tasksStopped == (j.tasksStopped || m == TasksStopped) && k.poweredOff == (j.poweredOff || m == PoweredOff)
    requires k.settled == (j.settled || m == Settled) && k.cleaned == (j.cleaned || m == CleanedUp)
    ensures FlagsAre(k, ms + [m])
  {}

  predicate SameFlags(j: Job, k: Job) {
    j.session == k.session && j.tasksStopped == k.tasksStopped && j.poweredOff == k.poweredOff
    && j.settled == k.settled && j.cleaned == k.cleaned
  }

  /** Other steps leave the flags of jobs alone, and start jobs only for tasks that were not finished. */
  lemma OtherJobs(w: World, step: Step, k: nat)
    requires !step.StopTasks? && !step.PowerOff? && !step.Settle? && !step.CleanUp?
    requires k in Next(w, step).jobs
    ensures (k in w.jobs && SameFlags(w.jobs[k], Next(w, step).jobs[k]))
            || (step.Enqueue? && TaskAt(w, step.session, Marked)
                && Next(w, step).jobs[k] == NewJob(step.session, w.objects[step.session].board))
  {
    hide Claim, KeepsLeased, Transition, MarkError, Joined, Complete;
  }

  lemma FinishedStays(w: World, step: Step, session: Text)
    requires session in w.objects && w.objects[session].task == Finished && session !in w.creating
    ensures session in Next(w, step).objects && Next(w, step).objects[session].task == Finished
  {
    hide Claim, KeepsLeased, Transition, MarkError, Joined, EndPass, Seen;
  }

  /** Steps that achieve nothing for any session keep the record. */
  lemma OtherRecorded(w: World, step: Step, session: Text, ms: seq<Milestone>)
    requires Inv(w) && Recorded(w, session, ms)
    requires !step.StopTasks? && !step.PowerOff? && !step.Settle? && !step.CleanUp?
    ensures Recorded(Next(w, step), session, ms)
  {
    hide BoardsOwned, SettledLast, Next;
    var v := Next(w, step);
    forall k | k in v.jobs && v.jobs[k].session == session ensures FlagsAre(v.jobs[k], ms) {
      OtherJobs(w, step, k);
      if k in w.jobs && SameFlags(w.jobs[k], v.jobs[k]) {
        FlagsAlike(w.jobs[k], v.jobs[k], ms);
      }
    }
    if session in w.objects && w.objects[session].task == Finished {
      FinishedStays(w, step, session);
    }
  }

  lemma {:induction false} RunRecorded(configured: set<Text>, steps: seq<Step>, session: Text)
    ensures Recorded(Run(configured, steps), session, Milestones(configured, steps, session))
  {
    if steps == [] {
    } else {
      hide Inv, Next, Achieved, Recorded;
      var front, step := steps[..|steps| - 1], steps[|steps| - 1];
      var w, ms := Run(configured, front), Milestones(configured, front, session);
      RunKeeps(configured, front);
      RunRecorded(configured, front, session);
      if step.StopTasks? || step.PowerOff? || step.Settle? || step.CleanUp? {
        if Next(w, step) != w {
          StepOnJob(w, step);
          TriedRecorded(w, step, step.job, session, ms);
        } else {
          NothingAchieved(w, step, session);
          assert ms + [] == ms;
        }
      } else {
        OtherRecorded(w, step, session, ms);
        NothingElse(w, step, session);
        assert ms + [] == ms;
      }
    }
  }

  lemma StepOnJob(w: World, step: Step)
    requires (step.StopTasks? || step.PowerOff? || step.Settle? || step.CleanUp?) && Next(w, step) != w
    ensures step.job in w.jobs
  {}

  lemma NothingAchieved(w: World, step: Step, session: Text)
    requires (step.StopTasks? || step.PowerOff? || step.Settle? || step.CleanUp?) && Next(w, step) == w
    ensures Achieved(w, step, session) == []
  {
    if step.job in w.jobs {
      assert Next(w, step).jobs[step.job] == w.jobs[step.job];
    }
  }

  lemma NothingElse(w: World, step: Step, session: Text)
    requires !step.StopTasks? && !step.PowerOff? && !step.Settle? && !step.CleanUp?
    ensures Achieved(w, step, session) == []
  {}

  /** A leased board only returns to idle when, in the run so far, its session's tasks were seen stopped,
      its power was switched off, it settled after both, and its files were cleaned up, whatever
      failed and was tried again in between. */
  lemma IdleIsEarned(configured: set<Text>, steps: seq<Step>, step: Step, board: Text)
    requires var w := Run(configured, steps); board in w.leases.runtimes && w.leases.runtimes[board].lease != Idle
    requires var v := Next(Run(configured, steps), step); board !in v.leases.runtimes || v.leases.runtimes[board].lease == Idle
    ensures var w := Run(configured, steps);
            && board in Next(w, step).leases.runtimes
            && w.leases.runtimes[board].owner.Some?
            && var ms := Milestones(configured, steps, w.leases.runtimes[board].owner.value);
               && TasksStopped in ms && PoweredOff in ms && Settled in ms && CleanedUp in ms && SettledLast(ms)
  {
    hide Run, Milestones, Inv, SettledLast;
    var w := Run(configured, steps);
    RunKeeps(configured, steps);
    OnlyFinishFrees(w, step, board);
    var session := w.leases.runtimes[board].owner.value;
    RunRecorded(configured, steps, session);
    FlagsMean(w.jobs[step.job], Milestones(configured, steps, session));
  }

  lemma OnlyFinishFrees(w: World, step: Step, board: Text)
    requires board in w.leases.runtimes && w.leases.runtimes[board].lease != Idle
    requires var v := Next(w, step); board !in v.leases.runtimes || v.leases.runtimes[board].lease == Idle
    ensures board in Next(w, step).leases.runtimes
    ensures step.FinishPass? && At(w, step.job, AtEnd) && AllDone(w.jobs[step.job])
    ensures w.leases.runtimes[board].owner == Some(w.jobs[step.job].session)
  {
    hide Joined, Seen;
  }

  // ---------- The state object in runs ----------

  /** The part of a step that a server's state object takes. */
  method ApplyLease(app: AppState, w: World, step: Step)
    requires app.View() == w.leases
    modifies app
    ensures app.View() == Next(w, step).leases
  {
    hide Claim, Transition, Complete, MarkError, Joined, AllDone, Synced, Owned, SameOwners, KeepsLeased;
    match step
    case ClaimStep(board, session) =>
      if session !in w.creating && session !in w.objects && session !in w.lost {
        var claimed := app.ClaimBoard(board, session);
        ClaimFails(w.leases, board, session);
      }
    case Register(session) =>
      if session in w.creating {
        app.RegisterSession(session);
      }
    case MarkReleasing(session) =>
      if TaskAt(w, session, Begun) {
        var ok := app.TransitionToReleasing(w.objects[session].board, session);
      }
    case FinishPass(job) =>
      if At(w, job, AtEnd) && AllDone(w.jobs[job]) {
        var ok := app.CompleteRelease(w.jobs[job].board, w.jobs[job].session);
      }
    case NoteError(job) =>
      if At(w, job, AtError) {
        var ok := app.MarkBoardError(w.jobs[job].board, w.jobs[job].session, Joined(w.jobs[job].errors));
      }
    case Sync(configured) =>
      if KeepsLeased(w.leases, configured) {
        app.SyncRuntimes(configured);
      }
    case _ =>
  }

  lemma ClaimFails(l: Leases, board: Text, session: Text)
    ensures !Claim(l, board, session).1 ==> Claim(l, board, session).0 == l
  {}

  /** Every board is leased exactly to the one session that has it. */
  ghost predicate Exclusive(w: World) {
    forall b :: b in w.leases.runtimes ==>
      && (w.leases.runtimes[b].lease != Idle <==> w.leases.runtimes[b].owner.Some?)
      && (forall s :: Holds(w, s, b) <==> w.leases.runtimes[b].owner == Some(s))
  }

  /** A server that takes any steps, in any order, has at the end the leases of their run. */
  method Drive(configured: set<Text>, steps: seq<Step>) returns (app: AppState, w: World)
    ensures fresh(app) && w == Run(configured, steps) && app.View() == w.leases
    ensures Inv(w) && Exclusive(w)
  {
    hide Next, Inv, Synced, Exclusive;
    app := new AppState(configured);
    w := Start(configured);
    for k := 0 to |steps|
      invariant fresh(app) && w == Run(configured, steps[..k]) && app.View() == w.leases
    {
      ApplyLease(app, w, steps[k]);
      w := Next(w, steps[k]);
      assert steps[..k + 1][..k] == steps[..k];
    }
    assert steps[..|steps|] == steps;
    RunKeeps(configured, steps);
    RunExclusive(configured, steps);
  }

  lemma RunExclusive(configured: set<Text>, steps: seq<Step>)
    ensures Exclusive(Run(configured, steps))
  {
    hide Run, Holds;
    var w := Run(configured, steps);
    forall b | b in w.leases.runtimes
      ensures w.leases.runtimes[b].lease != Idle <==> w.leases.runtimes[b].owner.Some?
      ensures forall s :: Holds(w, s, b) <==> w.leases.runtimes[b].owner == Some(s)
    {
      LeasesAreExclusive(configured, steps, b);
    }
  }
}
