/** Leasing boards to sessions, and the job that releases them. */
module BoardLease {
  import opened Options

  type Text = string

  datatype LeaseState = Idle | Using | Releasing | Error
  datatype Runtime = Runtime(lease: LeaseState, owner: Option<Text>, lastError: Option<Text>)
  type Runtimes = map<Text, Runtime>

  const FREE: Runtime := Runtime(Idle, None, None)

  /** The boards and the sessions that are registered. */
  datatype Leases = Leases(runtimes: Runtimes, sessions: set<Text>)

  function Claim(l: Leases, board: Text, session: Text): (Leases, bool) {
    if board !in l.runtimes || l.runtimes[board].lease != Idle then (l, false)
    else (l.(runtimes := l.runtimes[board := Runtime(Using, Some(session), None)]), true)
  }

  function Transition(l: Leases, board: Text, session: Text): (Leases, bool) {
    if board !in l.runtimes then (l, false)
    else
      var r := l.runtimes[board];
      if r.lease == Releasing && r.owner == Some(session) then (l, true)
      else if r.lease != Using || r.owner != Some(session) then (l, false)
      else (l.(runtimes := l.runtimes[board := r.(lease := Releasing)]), true)
  }

  function Complete(l: Leases, board: Text, session: Text): (Leases, bool) {
    if board !in l.runtimes || l.runtimes[board].owner != Some(session) || session !in l.sessions then (l, false)
    else (Leases(l.runtimes[board := FREE], l.sessions - {session}), true)
  }

  function MarkError(l: Leases, board: Text, session: Text, error: Text): (Leases, bool) {
    if board !in l.runtimes || l.runtimes[board].owner != Some(session) then (l, false)
    else
      (l.(runtimes := l.runtimes[board := l.runtimes[board].(lease := Error, lastError := Some(error))]), true)
  }

  /** Configured boards keep their state, new ones start idle, others are forgotten. */
  function Synced(l: Leases, configured: set<Text>): Leases {
    l.(runtimes := map b | b in configured :: if b in l.runtimes then l.runtimes[b] else FREE)
  }

  predicate Owned(l: Leases, session: Text, board: Text) {
    board in l.runtimes && l.runtimes[board].lease != Idle && l.runtimes[board].owner == Some(session)
  }

  /** Nobody gains or loses a board. */
  ghost predicate SameOwners(l: Leases, m: Leases) { forall s, b :: Owned(l, s, b) <==> Owned(m, s, b) }

  class AppState {
    var runtimes: Runtimes
    var sessions: set<Text>

    function View(): Leases
      reads this
    {
      Leases(runtimes, sessions)
    }

    constructor (configured: set<Text>)
      ensures View() == Synced(Leases(map[], {}), configured)
    {
      runtimes, sessions := map b | b in configured :: FREE, {};
    }

    /** Exactly an idle board is claimed, and then exactly one more board has an owner. */
    method ClaimBoard(board: Text, session: Text) returns (claimed: bool)
      modifies this`runtimes
      ensures (View(), claimed) == Claim(old(View()), board, session)
      ensures claimed <==> board in old(runtimes) && old(runtimes)[board].lease == Idle
      ensures forall s, b :: Owned(View(), s, b) <==>
                Owned(old(View()), s, b) || (claimed && s == session && b == board)
      ensures claimed ==> runtimes == old(runtimes)[board := Runtime(Using, Some(session), None)]
      ensures !claimed ==> View() == old(View())
    {
      if board !in runtimes {
        return false;
      }
      if runtimes[board].lease != Idle {
        return false;
      }
      runtimes := runtimes[board := Runtime(Using, Some(session), None)];
      claimed := true;
    }

    /** Works exactly for the owner of a board without an error; nobody gains or loses a board. */
    method TransitionToReleasing(board: Text, session: Text) returns (ok: bool)
      modifies this`runtimes
      ensures (View(), ok) == Transition(old(View()), board, session)
      ensures ok <==> Owned(old(View()), session, board) && old(runtimes)[board].lease != Error
      ensures ok ==> runtimes == old(runtimes)[board := old(runtimes)[board].(lease := Releasing)]
      ensures !ok ==> View() == old(View())
      ensures SameOwners(old(View()), View())
    {
      if board !in runtimes {
        return false;
      }
      var r := runtimes[board];
      if r.lease == Releasing && r.owner == Some(session) {
        return true;
      }
      if r.lease != Using || r.owner != Some(session) {
        return false;
      }
      runtimes := runtimes[board := r.(lease := Releasing)];
      ok := true;
    }

    /** The board becomes claimable and the session is forgotten together, exactly for the board's own,
        registered session; otherwise neither happens. */
    method CompleteRelease(board: Text, session: Text) returns (ok: bool)
      modifies this
      ensures (View(), ok) == Complete(old(View()), board, session)
      ensures ok <==> board in old(runtimes) && old(runtimes)[board].owner == Some(session) && session in old(sessions)
      ensures ok ==> board in runtimes && runtimes[board] == Runtime(Idle, None, None) && session !in sessions
      ensures ok ==> runtimes - {board} == old(runtimes) - {board} && sessions + {session} == old(sessions)
      ensures ok ==> forall s, b :: Owned(View(), s, b) <==> Owned(old(View()), s, b) && b != board
      ensures !ok ==> View() == old(View())
    {
      if board !in runtimes {
        return false;
      }
      if runtimes[board].owner != Some(session) {
        return false;
      }
      if session !in sessions {
        return false;
      }
      runtimes := runtimes[board := Runtime(Idle, None, None)];
      sessions := sessions - {session};
      ok := true;
    }

    /** Exactly the board's own session marks it; it stays this session's, and nobody can claim it. */
    method MarkBoardError(board: Text, session: Text, error: Text) returns (ok: bool)
      modifies this`runtimes
      ensures (View(), ok) == MarkError(old(View()), board, session, error)
      ensures ok <==> board in old(runtimes) && old(runtimes)[board].owner == Some(session)
      ensures ok ==> runtimes == old(runtimes)[board := Runtime(Error, Some(session), Some(error))]
      ensures ok ==> Owned(View(), session, board)
      ensures ok ==> forall other :: !Claim(View(), board, other).1
      ensures ok && Owned(old(View()), session, board) ==> SameOwners(old(View()), View())
      ensures !ok ==> View() == old(View())
    {
      if board !in runtimes {
        return false;
      }
      var r := runtimes[board];
      if r.owner != Some(session) {
        return false;
      }
      runtimes := runtimes[board := r.(lease := Error, lastError := Some(error))];
      ok := true;
    }

    method RegisterSession(session: Text)
      modifies this`sessions
      ensures View() == old(View()).(sessions := old(sessions) + {session})
    {
      sessions := sessions + {session};
    }

    /** Configured boards keep their state, new ones can be claimed, others are forgotten. */
    method SyncRuntimes(configured: set<Text>)
      modifies this`runtimes
      ensures View() == Synced(old(View()), configured)
      ensures runtimes.Keys == configured
      ensures forall b :: b in configured ==>
                runtimes[b] == if b in old(runtimes) then old(runtimes)[b] else Runtime(Idle, None, None)
    {
      var next: Runtimes := map[];
      var todo := configured;
      while todo != {}
        invariant todo <= configured && next.Keys == configured - todo
        invariant forall b :: b in next ==> next[b] == if b in runtimes then runtimes[b] else FREE
      {
        var b :| b in todo;
        next := next[b := if b in runtimes then runtimes[b] else FREE];
        todo := todo - {b};
      }
      assert next == Synced(View(), configured).runtimes;
      runtimes := next;
    }
  }

  // ---------- A session's lifecycle ----------

  datatype Lifecycle = Active | Ending

  class SessionState {
    var lifecycle: Lifecycle
    var stopRequested: bool

    constructor ()
      ensures lifecycle == Active && !stopRequested
    {
      lifecycle, stopRequested := Active, false;
    }

    /** Compare and exchange: exactly one caller can succeed. */
    method BeginRelease() returns (begun: bool)
      modifies this`lifecycle
      ensures begun == (old(lifecycle) == Active) && lifecycle == Ending
    {
      begun := lifecycle == Active;
      if begun {
        lifecycle := Ending;
      }
    }

    /** Whether the stop command is sent: at most once. */
    method RequestStop() returns (sent: bool)
      modifies this`stopRequested
      ensures sent == (old(lifecycle) == Active && !old(stopRequested))
      ensures stopRequested == (old(stopRequested) || sent)
    {
      if lifecycle == Ending {
        return false;
      }
      sent := !stopRequested;
      stopRequested := true;
    }
  }

  // ---------- The release job ----------

  /** Where a job is in its current pass. */
  datatype Stage = AtTasks | AtPower | AtSettle | AtCleanup | AtEnd | AtError

  datatype Job = Job(
    session: Text,
    board: Text,
    stage: Stage,
    tasksStopped: bool,
    poweredOff: bool,
    settled: bool,
    cleaned: bool,
    errors: seq<Text>)

  function NewJob(session: Text, board: Text): Job { Job(session, board, AtTasks, false, false, false, false, []) }

  /** A step that is still to do succeeds or leaves an error; one that is done is not tried again. */
  function Tried(done: bool, result: Option<Text>): bool { done || result == None }

  function Noted(done: bool, result: Option<Text>, errors: seq<Text>): seq<Text> {
    if !done && result.Some? then errors + [result.value] else errors
  }

  function TryTasks(j: Job, result: Option<Text>): Job {
    j.(stage := AtPower, tasksStopped := Tried(j.tasksStopped, result), errors := Noted(j.tasksStopped, result, j.errors))
  }

  function TryPower(j: Job, result: Option<Text>): Job {
    j.(stage := AtSettle, poweredOff := Tried(j.poweredOff, result), errors := Noted(j.poweredOff, result, j.errors))
  }

  function TrySettle(j: Job): Job {
    j.(stage := AtCleanup, settled := j.settled || (j.tasksStopped && j.poweredOff))
  }

  function TryCleanup(j: Job, result: Option<Text>): Job {
    j.(stage := AtEnd, cleaned := Tried(j.cleaned, result), errors := Noted(j.cleaned, result, j.errors))
  }

  predicate AllDone(j: Job) { j.errors == [] && j.tasksStopped && j.poweredOff && j.settled && j.cleaned }

  /** The end of a pass: the board is given back, or the job goes on to record an error. */
  function EndPass(l: Leases, j: Job): (Leases, Option<Job>) {
    if !AllDone(j) then (l, Some(j.(stage := AtError)))
    else
      var (next, ok) := Complete(l, j.board, j.session);
      (next, if ok then None else Some(j.(stage := AtError, errors := j.errors + ["failed to mark board idle"])))
  }

  function Joined(errors: seq<Text>): Text {
    if errors == [] then "" else if |errors| == 1 then errors[0] else errors[0] + "; " + Joined(errors[1..])
  }

  function RecordError(l: Leases, j: Job): (Leases, Job) {
    (MarkError(l, j.board, j.session, Joined(j.errors)).0, j.(stage := AtTasks, errors := []))
  }

  function TryAll(j: Job, tasks: Option<Text>, power: Option<Text>, cleanup: Option<Text>): Job {
    TryCleanup(TrySettle(TryPower(TryTasks(j, tasks), power)), cleanup)
  }

  /** A whole pass, when nothing comes between its steps. */
  function Pass(l: Leases, j: Job, tasks: Option<Text>, power: Option<Text>, cleanup: Option<Text>): (Leases, Option<Job>) {
    var (next, left) := EndPass(l, TryAll(j, tasks, power, cleanup));
    match left
    case None => (next, None)
    case Some(failed) => var (marked, again) := RecordError(next, failed); (marked, Some(again))
  }

  /** A pass in which nothing that is still to do fails gives the board and the session back. */
  lemma GoodPassFrees(l: Leases, j: Job)
    requires j.errors == [] && (j.settled ==> j.tasksStopped && j.poweredOff)
    requires j.board in l.runtimes && l.runtimes[j.board].owner == Some(j.session) && j.session in l.sessions
    ensures Pass(l, j, None, None, None) == (Leases(l.runtimes[j.board := FREE], l.sessions - {j.session}), None)
  {
    hide Joined;
  }

  /** Each reason after the one before it, set off by a semicolon. */
  function SetOff(reasons: seq<Text>): Text { if reasons == [] then "" else "; " + reasons[0] + SetOff(reasons[1..]) }

  lemma {:induction false} JoinedMeans(errors: seq<Text>)
    requires errors != []
    ensures "; " + Joined(errors) == SetOff(errors)
  {
    if |errors| > 1 {
      JoinedMeans(errors[1..]);
    } else {
      assert errors[1..] == [];
    }
  }

  /** Why a pass failed: of the steps that were still to do, those that did not succeed. */
  function Reasons(j: Job, tasks: Option<Text>, power: Option<Text>, cleanup: Option<Text>): seq<Text> {
    (if !j.tasksStopped && tasks.Some? then [tasks.value] else [])
    + (if !j.poweredOff && power.Some? then [power.value] else [])
    + (if !j.cleaned && cleanup.Some? then [cleanup.value] else [])
  }

  /** A pass in which nothing fails for a board that is not the session's, or a session that is gone, frees
      nothing; if the board is still the session's it says so. */
  lemma FruitlessPass(l: Leases, j: Job)
    requires j.errors == [] && j.stage == AtTasks && (j.settled ==> j.tasksStopped && j.poweredOff)
    requires !(j.board in l.runtimes && l.runtimes[j.board].owner == Some(j.session) && j.session in l.sessions)
    ensures var (m, left) := Pass(l, j, None, None, None);
            && left == Some(j.(tasksStopped := true, poweredOff := true, settled := true, cleaned := true))
            && m == if j.board in l.runtimes && l.runtimes[j.board].owner == Some(j.session)
                    then l.(runtimes := l.runtimes[j.board := Runtime(Error, Some(j.session), Some("failed to mark board idle"))])
                    else l
  {}

  /** A pass in which something fails keeps the board with its session, records why, keeps what was
      achieved, and leaves only the failed steps to be tried again. */
  lemma FailedPassKeeps(l: Leases, j: Job, tasks: Option<Text>, power: Option<Text>, cleanup: Option<Text>)
    requires j.errors == [] && j.stage == AtTasks && (j.settled ==> j.tasksStopped && j.poweredOff)
    requires j.board in l.runtimes && l.runtimes[j.board].owner == Some(j.session)
    requires (!j.tasksStopped && tasks.Some?) || (!j.poweredOff && power.Some?) || (!j.cleaned && cleanup.Some?)
    ensures var (m, left) := Pass(l, j, tasks, power, cleanup);
            && m == l.(runtimes := l.runtimes[j.board := Runtime(Error, Some(j.session), Some(Joined(Reasons(j, tasks, power, cleanup))))])
            && left == Some(j.(tasksStopped := j.tasksStopped || tasks == None,
                               poweredOff := j.poweredOff || power == None,
                               settled := j.settled || ((j.tasksStopped || tasks == None) && (j.poweredOff || power == None)),
                               cleaned := j.cleaned || cleanup == None))
  {
    hide Joined;
    assert TryAll(j, tasks, power, cleanup).errors == Reasons(j, tasks, power, cleanup);
  }

  class ReleaseJob {
    const session: Text
    const board: Text
    var tasksStopped: bool
    var poweredOff: bool
    var settled: bool
    var cleaned: bool

    function View(): Job
      reads this
    {
      Job(session, board, AtTasks, tasksStopped, poweredOff, settled, cleaned, [])
    }

    constructor (session: Text, board: Text)
      ensures View() == NewJob(session, board)
    {
      this.session, this.board := session, board;
      tasksStopped, poweredOff, settled, cleaned := false, false, false, false;
    }

    /** One pass of the retry loop, with the results its steps would have; true when the board is free. */
    method RunPass(app: AppState, tasks: Option<Text>, power: Option<Text>, cleanup: Option<Text>)
        returns (done: bool)
      modifies this, app
      ensures var (l, left) := Pass(old(app.View()), old(View()), tasks, power, cleanup);
              app.View() == l && done == (left == None) && (left.Some? ==> View() == left.value)
    {
      hide Complete, MarkError, Joined, TryAll;
      var errors := TrySteps(tasks, power, cleanup);
      if errors == [] && tasksStopped && poweredOff && settled && cleaned {
        var ok := app.CompleteRelease(board, session);
        if ok {
          return true;
        }
        errors := errors + ["failed to mark board idle"];
      }
      var _ := app.MarkBoardError(board, session, Joined(errors));
      done := false;
    }

    method TrySteps(tasks: Option<Text>, power: Option<Text>, cleanup: Option<Text>) returns (errors: seq<Text>)
      modifies this
      ensures View().(stage := AtEnd, errors := errors) == TryAll(old(View()), tasks, power, cleanup)
    {
      hide Tried, Noted;
      ghost var j := TryPower(TryTasks(View(), tasks), power);
      errors := StopAndPowerOff(tasks, power);
      assert View().(stage := AtSettle, errors := errors) == j;
      if !settled && tasksStopped && poweredOff {
        settled := true;
      }
      assert View().(stage := AtCleanup, errors := errors) == TrySettle(j);
      cleaned, errors := TryStep(cleaned, cleanup, errors);
    }

    method StopAndPowerOff(tasks: Option<Text>, power: Option<Text>) returns (errors: seq<Text>)
      modifies this`tasksStopped, this`poweredOff
      ensures View().(stage := AtSettle, errors := errors) == TryPower(TryTasks(old(View()), tasks), power)
    {
      hide Tried, Noted;
      errors := [];
      tasksStopped, errors := TryStep(tasksStopped, tasks, errors);
      poweredOff, errors := TryStep(poweredOff, power, errors);
    }
  }

  /** One step of a pass, with the result it has if it is tried. */
  method TryStep(done: bool, result: Option<Text>, errors: seq<Text>) returns (nowDone: bool, noted: seq<Text>)
    ensures nowDone == Tried(done, result) && noted == Noted(done, result, errors)
  {
    nowDone, noted := done, errors;
    if !done {
      if result == None {
        nowDone := true;
      } else {
        noted := errors + [result.value];
      }
    }
  }
}
