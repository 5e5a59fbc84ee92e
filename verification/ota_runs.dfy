/** What holds in every run of the assignment store, however its calls and the steps of image
    deletion interleave.
  */
module OtaRuns {
  import opened Options
  import opened OtaStore

  datatype Op =
    | OpQueue(board: Text, mac: Text, digest: Digest, updateId: Text, disk: Disk)
    | OpCancel(board: Text, updateId: Text, disk: Disk)
    | OpDecide(report: OtaStore.Report, now: Seconds, disk: Disk)
    | OpReport(status: LoaderReport, disk: Disk)
    | OpFail(failed: FailureReport, now: Seconds, disk: Disk)
    | OpBeginPut(image: Image)
    | OpPutImage(file: FileResult)
    | OpPutMetadata(file: FileResult)
    | OpBeginDelete(digest: Digest)
    | OpDeleteMetadata(file: FileResult)
    | OpDeleteImage(file: FileResult)
    | OpEndDelete(readable: bool)
    | OpAbandon
    | OpGoOn(work: nat, file: FileResult)

  function Step(s: Store, op: Op): Store {
    match op
    case OpQueue(board, mac, digest, updateId, disk) => Queue(s, board, mac, digest, updateId, disk).0
    case OpCancel(board, updateId, disk) => Cancel(s, board, updateId, disk).0
    case OpDecide(report, now, disk) => Decide(s, report, now, disk).0
    case OpReport(status, disk) => AcceptReport(s, status, disk).0
    case OpFail(failed, now, disk) => RecordFailure(s, failed, now, disk).0
    case OpBeginPut(image) => BeginPut(s, image)
    case OpPutImage(file) => PutImageFile(s, file)
    case OpPutMetadata(file) => PutMetadataFile(s, file)
    case OpBeginDelete(digest) => BeginDelete(s, digest).0
    case OpDeleteMetadata(file) => DeleteMetadataFile(s, file)
    case OpDeleteImage(file) => DeleteImageFile(s, file)
    case OpEndDelete(readable) => EndDelete(s, readable)
    case OpAbandon => Abandon(s)
    case OpGoOn(work, file) => GoOn(s, work, file)
  }

  function RunFrom(s: Store, ops: seq<Op>): Store {
    if ops == [] then s else Step(RunFrom(s, ops[..|ops| - 1]), ops[|ops| - 1])
  }

  function Run(ops: seq<Op>): Store { RunFrom(Initial(), ops) }

  /** The board a call is about. */
  function Board(op: Op): Option<Text> {
    match op
    case OpQueue(board, _, _, _, _) => Some(board)
    case OpCancel(board, _, _) => Some(board)
    case OpDecide(report, _, _) => Some(report.board)
    case OpReport(status, _) => Some(status.board)
    case OpFail(failed, _, _) => Some(failed.board)
    case _ => None
  }

  // ---------- Phases only advance ----------

  function Rank(p: Phase): nat {
    match p
    case Queued => 0
    case Downloading => 1
    case Staged | Confirming => 2
    case _ => 3
  }

  /** The same assignment, further on; a finished one does not change at all. */
  predicate Advances(a: Job, b: Job) {
    && a.boardId == b.boardId && a.mac == b.mac && a.updateId == b.updateId && a.image == b.image
    && Rank(a.phase) <= Rank(b.phase)
    && (a.phase.IsTerminal() ==> a == b)
  }

  predicate Replaces(op: Op, a: Job, b: Job) {
    op.OpQueue? && a.phase.IsTerminal() && b.phase == Queued && b.updateId == op.updateId
  }

  /** What a last outcome leaves of an unfinished job is either the job itself or a finished one. */
  lemma ConcludedEither(job: Job, ota: OtaState)
    requires !job.phase.IsTerminal()
    ensures Concluded(job, ota) == job
            || (Concluded(job, ota).phase.IsTerminal() && Concluded(job, ota) == job.(phase := Concluded(job, ota).phase))
  {}

  lemma DeliverAdvances(job: Job, ota: OtaState, changed: bool, boardIdle: bool, now: Seconds)
    requires !job.phase.IsTerminal()
    ensures Advances(job, Deliver(job, ota, changed, boardIdle, now).0)
    ensures var phase := Deliver(job, ota, changed, boardIdle, now).0.phase;
            phase == job.phase || phase == Downloading || phase == Failed
  {
    hide AlreadyActiveError, NoStateError;
  }

  lemma DecidedAdvances(job: Job, ota: Option<OtaState>, changed: bool, boardIdle: bool, now: Seconds)
    requires !job.phase.IsTerminal()
    ensures Advances(job, DecideJob(job, ota, changed, boardIdle, now).0)
  {
    hide AlreadyActiveError, NoStateError, Concluded, Deliver, RunsTrialOf;
    if ota.Some? {
      var awake := Awaken(job, changed);
      ConcludedEither(awake, ota.value);
      DeliverAdvances(awake, ota.value, changed, boardIdle, now);
    }
  }

  /** Calls about other boards, and file operations, leave a board's job and observation alone. */
  lemma Untouched(s: Store, op: Op, board: Text)
    requires Board(op) != Some(board)
    ensures (board in s.jobs) == (board in Step(s, op).jobs) && SameObservation(s, Step(s, op), board)
    ensures board in s.jobs ==> s.jobs[board] == Step(s, op).jobs[board]
  {
    hide DecideJob, FailedJob, ReportedJob, Follows, SeenState, Changes;
    if Board(op) == None {
      FilesOnly(s, op);
    }
  }

  lemma FilesOnly(s: Store, op: Op)
    requires Board(op) == None
    ensures Step(s, op).jobs == s.jobs && Step(s, op).observations == s.observations
  {
    hide IsReferenced, Queue, Cancel, Decide, AcceptReport, RecordFailure;
    match op
    case OpGoOn(work, file) =>
      hide FileWork;
    case _ =>
  }

  lemma DecideEffect(s: Store, r: OtaStore.Report, now: Seconds, disk: Disk)
    requires r.board in s.jobs
    ensures var t := Decide(s, r, now, disk).0; var job := s.jobs[r.board];
            && r.board in t.jobs
            && (t.jobs[r.board] == job
                || (job.mac == r.mac && !job.phase.IsTerminal()
                    && t.jobs[r.board] == DecideJob(job, r.ota, Changes(s, r), r.boardIdle, now).0))
  {
    hide DecideJob;
  }

  lemma JobAdvances(s: Store, op: Op, board: Text)
    requires board in s.jobs
    ensures board in Step(s, op).jobs
    ensures Advances(s.jobs[board], Step(s, op).jobs[board])
            || (Board(op) == Some(board) && Replaces(op, s.jobs[board], Step(s, op).jobs[board]))
  {
    hide DecideJob, Decide, Changes, SeenState, TrialMatches;
    if Board(op) != Some(board) {
      Untouched(s, op, board);
    } else if op.OpDecide? {
      DecideEffect(s, op.report, op.now, op.disk);
      if !s.jobs[board].phase.IsTerminal() {
        DecidedAdvances(s.jobs[board], op.report.ota, Changes(s, op.report), op.report.boardIdle, op.now);
      }
    }
  }

  /** Update ids that queueing has used. */
  function UsedIds(ops: seq<Op>): set<Text> {
    if ops == [] then {}
    else
      var op := ops[|ops| - 1];
      UsedIds(ops[..|ops| - 1]) + if op.OpQueue? then {op.updateId} else {}
  }

  /** Every queued assignment gets an id of its own. */
  predicate FreshIds(ops: seq<Op>) {
    forall k :: 0 <= k < |ops| && ops[k].OpQueue? ==> ops[k].updateId !in UsedIds(ops[..k])
  }

  lemma {:induction false} IdsAreUsed(ops: seq<Op>, board: Text)
    requires board in Run(ops).jobs
    ensures Run(ops).jobs[board].updateId in UsedIds(ops)
  {
    hide Step;
    if ops != [] {
      var front, op := ops[..|ops| - 1], ops[|ops| - 1];
      if board in Run(front).jobs {
        IdsAreUsed(front, board);
        JobAdvances(Run(front), op, board);
      } else {
        NewJob(Run(front), op, board);
      }
    }
  }

  lemma NewJob(s: Store, op: Op, board: Text)
    requires board !in s.jobs && board in Step(s, op).jobs
    ensures op.OpQueue? && op.board == board
    ensures var job := Step(s, op).jobs[board];
            job.updateId == op.updateId && job.phase == Queued && job.deliveryAttempts == 0
  {
    hide DecideJob, FailedJob, ReportedJob, Follows, SeenState, Changes;
    if Board(op) != Some(board) {
      Untouched(s, op, board);
    }
  }

  lemma {:induction false} IdsGrow(ops: seq<Op>, k: nat)
    requires k <= |ops|
    ensures UsedIds(ops[..k]) <= UsedIds(ops)
  {
    if k < |ops| {
      IdsGrow(ops[..|ops| - 1], k);
      assert ops[..|ops| - 1][..k] == ops[..k];
    } else {
      assert ops[..k] == ops;
    }
  }

  /** Per assignment, the rank of the phase never drops, and a finished assignment stays as it is. */
  lemma {:induction false} AssignmentsAdvance(ops: seq<Op>, k: nat, board: Text)
    requires FreshIds(ops) && k <= |ops| && board in Run(ops[..k]).jobs
    ensures board in Run(ops).jobs
    ensures var (a, b) := (Run(ops[..k]).jobs[board], Run(ops).jobs[board]); a.updateId == b.updateId ==> Advances(a, b)
    decreases |ops|
  {
    hide Step, Advances;
    if k == |ops| {
      assert ops[..k] == ops;
      Reflexive(Run(ops).jobs[board]);
    } else {
      var front, op := ops[..|ops| - 1], ops[|ops| - 1];
      assert front[..k] == ops[..k];
      assert forall j :: 0 <= j < |front| ==> front[..j] == ops[..j];
      AssignmentsAdvance(front, k, board);
      var a, s := Run(ops[..k]).jobs[board], Run(front);
      JobAdvances(s, op, board);
      var b := Run(ops).jobs[board];
      if Replaces(op, s.jobs[board], b) {
        IdsAreUsed(ops[..k], board);
        IdsGrow(front, k);
        assert b.updateId != a.updateId;
      } else {
        Transitive(a, s.jobs[board], b);
      }
    }
  }

  lemma Reflexive(a: Job)
    ensures Advances(a, a)
  {}

  lemma Transitive(a: Job, b: Job, c: Job)
    ensures Advances(b, c) ==> b.updateId == c.updateId
    ensures Advances(a, b) && Advances(b, c) ==> Advances(a, c)
  {}

  /** The image a decide tells the caller to send, if any. */
  predicate Sends(s: Store, op: Op, board: Text, updateId: Text) {
    op.OpDecide? && op.report.board == board
    && var answer := Decide(s, op.report, op.now, op.disk).1;
       answer.Answered? && answer.value.Update? && answer.value.job.updateId == updateId
  }

  lemma SendsOnlyEarly(s: Store, op: Op, board: Text, updateId: Text)
    requires Sends(s, op, board, updateId)
    ensures board in s.jobs && s.jobs[board].updateId == updateId && Rank(s.jobs[board].phase) <= 1
    ensures var (job, r) := (s.jobs[board], op.report);
            && r.ota.Some? && r.ota.value.pendingUpdateId == None
            && !(job.waitingForDeviceChange && !Changes(s, r))
            && !(job.nextDeliveryAt.Some? && op.now < job.nextDeliveryAt.value)
  {
    hide DecideJob, Unfinished, Changes;
    var r := op.report;
    SentWhen(s.jobs[board], r.ota, Changes(s, r), r.boardIdle, op.now);
  }

  /** The outcome that a device last reports finishes this job. */
  predicate Concludes(job: Job, ota: OtaState) {
    ota.lastUpdateId == Some(job.updateId)
    && (ota.lastOutcome == Some(OutcomeRolledBack) || ota.lastOutcome == Some(OutcomeFailed)
        || (ota.lastOutcome == Some(Confirmed) && job.phase == Confirming && ota.activeSha256 == job.image.sha256))
  }

  /** An undelivered job, its board idle, its device free for another image, and nothing to wait for. */
  predicate Deliverable(s: Store, r: OtaStore.Report, now: Seconds) {
    && r.board in s.jobs && r.ota.Some? && r.boardIdle
    && var (job, ota) := (s.jobs[r.board], r.ota.value);
       && job.mac == r.mac && Rank(job.phase) <= 1
       && !Unfinished(ota) && ota.activeSha256 != job.image.sha256 && !Concludes(job, ota)
       && (job.waitingForDeviceChange ==> Changes(s, r))
       && (job.nextDeliveryAt.Some? ==> job.nextDeliveryAt.value <= now)
  }

  /** The device runs the trial of the unfinished job, and the server started that trial. */
  predicate Confirmable(s: Store, r: OtaStore.Report) {
    && r.board in s.jobs
    && var job := s.jobs[r.board];
       && job.mac == r.mac && !job.phase.IsTerminal()
       && TrialMatches(r.ota, job) && !Concludes(job, r.ota.value)
  }

  /** What changes in the store can be written: the report, and the job unless it has this phase already
      and nothing else to settle. */
  predicate Writable(s: Store, r: OtaStore.Report, disk: Disk, phase: Phase) {
    && (Changes(s, r) ==> disk.observations)
    && (disk.jobs || (r.board in s.jobs && s.jobs[r.board] == Settled(s.jobs[r.board].(phase := phase, error := None))))
  }

  /** When exactly a decide hands out the image. */
  lemma SentExactly(s: Store, r: OtaStore.Report, now: Seconds, disk: Disk)
    ensures var (t, answer) := Decide(s, r, now, disk);
            && (answer.Answered? && answer.value.Update? <==> Deliverable(s, r, now) && Writable(s, r, disk, Downloading))
            && (answer.Answered? && answer.value.Update? ==>
                  r.board in t.jobs && t.jobs[r.board] == answer.value.job && t.jobs[r.board].phase == Downloading)
  {
    hide DecideJob, Changes, Unfinished, Concludes, TrialMatches;
    if r.board in s.jobs && !s.jobs[r.board].phase.IsTerminal() {
      DecidedExactly(s.jobs[r.board], r.ota, Changes(s, r), r.boardIdle, now);
    }
  }

  /** When exactly it asks to confirm the trial. */
  lemma ConfirmedExactly(s: Store, r: OtaStore.Report, now: Seconds, disk: Disk)
    ensures var (t, answer) := Decide(s, r, now, disk);
            && (answer.Answered? && answer.value.Confirm? <==> Confirmable(s, r) && Writable(s, r, disk, Confirming))
            && (answer.Answered? && answer.value.Confirm? ==> r.board in t.jobs && t.jobs[r.board].phase == Confirming)
  {
    hide DecideJob, Changes, Unfinished, Concludes, TrialMatches;
    if r.board in s.jobs && !s.jobs[r.board].phase.IsTerminal() {
      DecidedExactly(s.jobs[r.board], r.ota, Changes(s, r), r.boardIdle, now);
    }
  }

  lemma DecidedExactly(job: Job, ota: Option<OtaState>, changed: bool, boardIdle: bool, now: Seconds)
    requires !job.phase.IsTerminal()
    ensures var (next, decision) := DecideJob(job, ota, changed, boardIdle, now);
            && (decision.Update? <==>
                  ota.Some? && boardIdle && Rank(job.phase) <= 1 && !Unfinished(ota.value) && !Concludes(job, ota.value)
                  && ota.value.activeSha256 != job.image.sha256 && (job.waitingForDeviceChange ==> changed)
                  && (job.nextDeliveryAt.Some? ==> job.nextDeliveryAt.value <= now))
            && (decision.Confirm? <==> TrialMatches(ota, job) && !Concludes(job, ota.value))
            && (decision.Update? ==> decision.job == next && next == Settled(job.(phase := Downloading, error := None)))
            && (decision.Confirm? ==> next == Settled(job.(phase := Confirming, error := None)))
  {
    hide AlreadyActiveError, NoStateError, Concluded, RunsTrialOf, Concludes;
    if ota.Some? {
      ConcludesExactly(job, changed, ota.value);
    }
  }

  lemma ConcludesExactly(job: Job, changed: bool, ota: OtaState)
    requires !job.phase.IsTerminal()
    ensures if Concludes(job, ota) then Concluded(Awaken(job, changed), ota).phase.IsTerminal()
            else Concluded(Awaken(job, changed), ota) == Awaken(job, changed)
  {}

  lemma SentWhen(job: Job, ota: Option<OtaState>, changed: bool, boardIdle: bool, now: Seconds)
    requires !job.phase.IsTerminal() && DecideJob(job, ota, changed, boardIdle, now).1.Update?
    ensures DecideJob(job, ota, changed, boardIdle, now).1.job.updateId == job.updateId
    ensures Rank(job.phase) <= 1 && ota.Some? && ota.value.pendingUpdateId == None
    ensures !(job.waitingForDeviceChange && !changed)
    ensures !(job.nextDeliveryAt.Some? && now < job.nextDeliveryAt.value)
  {
    hide AlreadyActiveError, NoStateError, Concluded, RunsTrialOf;
    if ota.Some? {
      ConcludedEither(Awaken(job, changed), ota.value);
    }
  }

  /** Nothing is sent for an assignment once it is staged, whatever happens afterwards. */
  lemma NoUpdateAfterStaging(ops: seq<Op>, k: nat, op: Op, board: Text)
    requires FreshIds(ops) && k <= |ops| && board in Run(ops[..k]).jobs && Rank(Run(ops[..k]).jobs[board].phase) >= 2
    ensures !Sends(Run(ops), op, board, Run(ops[..k]).jobs[board].updateId)
  {
    hide Step, Sends;
    AssignmentsAdvance(ops, k, board);
    if Sends(Run(ops), op, board, Run(ops[..k]).jobs[board].updateId) {
      SendsOnlyEarly(Run(ops), op, board, Run(ops[..k]).jobs[board].updateId);
    }
  }

  // ---------- Success is earned ----------

  /** A decide for this assignment, from its device, that reports a server's trial pending this update
      and running its image. */
  predicate SeesTrial(s: Store, op: Op) {
    && op.OpDecide? && op.report.board in s.jobs
    && op.report.mac == s.jobs[op.report.board].mac
    && TrialMatches(op.report.ota, s.jobs[op.report.board])
  }

  /** The assignments whose trial was seen during a run. */
  function TrialsSeen(ops: seq<Op>): set<(Text, Text, Digest)> {
    if ops == [] then {}
    else
      var (front, op) := (ops[..|ops| - 1], ops[|ops| - 1]);
      TrialsSeen(front)
      + if SeesTrial(Run(front), op)
        then var job := Run(front).jobs[op.report.board]; {(op.report.board, job.updateId, job.image.sha256)}
        else {}
  }

  predicate TrialSeen(ops: seq<Op>, board: Text, job: Job) {
    (board, job.updateId, job.image.sha256) in TrialsSeen(ops)
  }

  function ActiveDigest(op: Op): Option<Digest> {
    match op
    case OpDecide(report, _, _) => (match report.ota case Some(o) => Some(o.activeSha256) case None => None)
    case OpReport(status, _) => status.active
    case _ => None
  }

  lemma DecidedConfirming(job: Job, ota: Option<OtaState>, changed: bool, boardIdle: bool, now: Seconds)
    requires !job.phase.IsTerminal() && job.phase != Confirming
    requires DecideJob(job, ota, changed, boardIdle, now).0.phase == Confirming
    ensures TrialMatches(ota, job)
  {
    hide AlreadyActiveError, NoStateError, Concluded, Deliver;
    if ota.Some? {
      var awake := Awaken(job, changed);
      ConcludedEither(awake, ota.value);
      DeliverAdvances(awake, ota.value, changed, boardIdle, now);
    }
  }

  lemma DecidedSucceeded(job: Job, ota: Option<OtaState>, changed: bool, boardIdle: bool, now: Seconds)
    requires !job.phase.IsTerminal()
    requires DecideJob(job, ota, changed, boardIdle, now).0.phase == Succeeded
    ensures job.phase == Confirming && ota.Some? && ota.value.activeSha256 == job.image.sha256
  {
    hide AlreadyActiveError, NoStateError, Deliver, RunsTrialOf;
    if ota.Some? {
      var awake := Awaken(job, changed);
      ConcludedEither(awake, ota.value);
      DeliverAdvances(awake, ota.value, changed, boardIdle, now);
    }
  }

  lemma ConfirmingSawTrial(s: Store, op: Op, board: Text)
    requires board in s.jobs && board in Step(s, op).jobs
    requires s.jobs[board].phase != Confirming && Step(s, op).jobs[board].phase == Confirming
    ensures SeesTrial(s, op) && op.report.board == board
    ensures Advances(s.jobs[board], Step(s, op).jobs[board])
  {
    hide DecideJob, Decide, Changes, SeenState, TrialMatches;
    JobAdvances(s, op, board);
    if Board(op) != Some(board) {
      Untouched(s, op, board);
    } else if op.OpDecide? {
      DecideEffect(s, op.report, op.now, op.disk);
      DecidedConfirming(s.jobs[board], op.report.ota, Changes(s, op.report), op.report.boardIdle, op.now);
    }
  }

  lemma SuccessFollowsConfirming(s: Store, op: Op, board: Text)
    requires board in s.jobs && board in Step(s, op).jobs
    requires s.jobs[board].phase != Succeeded && Step(s, op).jobs[board].phase == Succeeded
    ensures s.jobs[board].phase == Confirming && Board(op) == Some(board)
    ensures ActiveDigest(op) == Some(s.jobs[board].image.sha256)
    ensures Advances(s.jobs[board], Step(s, op).jobs[board])
  {
    hide DecideJob, Decide, Changes, SeenState, TrialMatches;
    JobAdvances(s, op, board);
    if Board(op) != Some(board) {
      Untouched(s, op, board);
    } else if op.OpDecide? {
      DecideEffect(s, op.report, op.now, op.disk);
      DecidedSucceeded(s.jobs[board], op.report.ota, Changes(s, op.report), op.report.boardIdle, op.now);
    }
  }

  lemma {:induction false} ConfirmedWereSeen(ops: seq<Op>, board: Text)
    requires board in Run(ops).jobs
    requires var phase := Run(ops).jobs[board].phase; phase == Confirming || phase == Succeeded
    ensures TrialSeen(ops, board, Run(ops).jobs[board])
  {
    hide Step, SeesTrial;
    if ops != [] {
      var front, op := ops[..|ops| - 1], ops[|ops| - 1];
      var s := Run(front);
      if board !in s.jobs {
        NewJob(s, op, board);
      } else {
        JobAdvances(s, op, board);
        if s.jobs[board].phase == Confirming || s.jobs[board].phase == Succeeded {
          ConfirmedWereSeen(front, board);
        } else if Run(ops).jobs[board].phase == Confirming {
          ConfirmingSawTrial(s, op, board);
        } else {
          SuccessFollowsConfirming(s, op, board);
        }
      }
    }
  }

  /** An assignment succeeds only if a decide earlier in the run saw its trial from the server, and the
      report that completes it names the assigned image as the active one, whether it came to `decide`
      or to `report`. */
  lemma SuccessIsEarned(ops: seq<Op>, op: Op, board: Text)
    requires board in Step(Run(ops), op).jobs && Step(Run(ops), op).jobs[board].phase == Succeeded
    requires board in Run(ops).jobs ==> Run(ops).jobs[board].phase != Succeeded
    ensures var job := Step(Run(ops), op).jobs[board];
            TrialSeen(ops, board, job) && ActiveDigest(op) == Some(job.image.sha256) && Board(op) == Some(board)
  {
    hide Step;
    if board !in Run(ops).jobs {
      NewJob(Run(ops), op, board);
    } else {
      SuccessFollowsConfirming(Run(ops), op, board);
      ConfirmedWereSeen(ops, board);
    }
  }

  // ---------- Waiting and retrying ----------

  predicate Limited(s: Store) {
    forall b :: b in s.jobs && !s.jobs[b].phase.IsTerminal() ==> s.jobs[b].deliveryAttempts < 3
  }

  lemma AttemptsStep(s: Store, op: Op, board: Text)
    requires Limited(s) && board in Step(s, op).jobs && !Step(s, op).jobs[board].phase.IsTerminal()
    ensures Step(s, op).jobs[board].deliveryAttempts < 3
  {
    hide DecideJob, Decide, Changes, SeenState, TrialMatches;
    if Board(op) != Some(board) {
      Untouched(s, op, board);
    } else if board !in s.jobs {
      NewJob(s, op, board);
    } else if op.OpDecide? {
      JobAdvances(s, op, board);
      DecideEffect(s, op.report, op.now, op.disk);
      SameAttempts(s.jobs[op.report.board], op.report.ota, Changes(s, op.report), op.report.boardIdle, op.now);
    }
  }

  lemma SameAttempts(job: Job, ota: Option<OtaState>, changed: bool, boardIdle: bool, now: Seconds)
    ensures DecideJob(job, ota, changed, boardIdle, now).0.deliveryAttempts == job.deliveryAttempts
  {
    hide AlreadyActiveError, NoStateError, RunsTrialOf;
  }

  /** An unfinished assignment never has three counted failures: the third one ends it. */
  lemma {:induction false} AttemptsAreLimited(ops: seq<Op>)
    ensures Limited(Run(ops))
  {
    hide Step;
    if ops != [] {
      var s, op := Run(ops[..|ops| - 1]), ops[|ops| - 1];
      AttemptsAreLimited(ops[..|ops| - 1]);
      forall b | b in Run(ops).jobs && !Run(ops).jobs[b].phase.IsTerminal()
        ensures Run(ops).jobs[b].deliveryAttempts < 3
      {
        AttemptsStep(s, op, b);
      }
    }
  }

  /** What is left to wait for after a failure of delivery. */
  predicate WaitsForOne(job: Job, failure: DeliveryFailure, now: Seconds) {
    || job.phase.IsTerminal()
    || (job.phase == Downloading
        && if failure.Unavailable? then job.waitingForDeviceChange && job.nextDeliveryAt == None
           else !job.waitingForDeviceChange && job.nextDeliveryAt.Some?
                && job.nextDeliveryAt.value >= now + DELIVERY_RETRY_SECONDS)
  }

  lemma FailureWaits(s: Store, r: FailureReport, now: Seconds, disk: Disk)
    ensures var (t, answer) := RecordFailure(s, r, now, disk);
            answer.Answered? ==>
              r.board in t.jobs && t.jobs[r.board] == answer.value && WaitsForOne(answer.value, r.failure, now)
  {}

  predicate SameObservation(s: Store, t: Store, board: Text) {
    (board in s.observations) == (board in t.observations)
    && (board in s.observations ==> s.observations[board] == t.observations[board])
  }

  /** A call that records a failure of this assignment, or queues another one under its id. */
  predicate Reassigns(op: Op, board: Text, id: Text) {
    || (op.OpFail? && op.failed.board == board && op.failed.updateId == id)
    || (op.OpQueue? && op.board == board && op.updateId == id)
  }

  /** No step of a run sends the image of this assignment. */
  predicate NeverSends(s: Store, ops: seq<Op>, board: Text, id: Text) {
    forall k :: 0 <= k < |ops| ==> !Sends(RunFrom(s, ops[..k]), ops[k], board, id)
  }

  /** This assignment waits for its device to change, is past the delivery, or is not the present one. */
  predicate HeldBack(s: Store, board: Text, id: Text) {
    board in s.jobs
    && var job := s.jobs[board];
       job.updateId == id ==> job.waitingForDeviceChange || Rank(job.phase) >= 2
  }

  /** The report ends the delivery by itself: a last outcome, a trial, the update pending, or the image
      active already. */
  predicate Overtakes(job: Job, ota: OtaState, boardIdle: bool) {
    || Concludes(job, ota)
    || TrialMatches(Some(ota), job)
    || (!ota.trial && ota.pendingUpdateId == Some(job.updateId))
    || (!Unfinished(ota) && boardIdle && ota.activeSha256 == job.image.sha256)
  }

  /** Another report of the device, with an upgrade state, is stored for an undelivered assignment that waits
      for it, and the jobs are written. */
  predicate Releases(s: Store, op: Op, board: Text, id: Text) {
    && op.OpDecide? && op.report.board == board && op.report.ota.Some? && op.disk == WRITABLE
    && board in s.jobs && s.jobs[board].updateId == id && Rank(s.jobs[board].phase) <= 1
    && s.jobs[board].waitingForDeviceChange && s.jobs[board].mac == op.report.mac
    && Changes(s, op.report) && !Overtakes(s.jobs[board], op.report.ota.value, op.report.boardIdle)
  }

  predicate HeldBackThroughout(s: Store, ops: seq<Op>, board: Text, id: Text) {
    forall k :: 0 <= k <= |ops| ==> HeldBack(RunFrom(s, ops[..k]), board, id)
  }

  predicate NeverReleases(s: Store, ops: seq<Op>, board: Text, id: Text) {
    forall k :: 0 <= k < |ops| ==> !Releases(RunFrom(s, ops[..k]), ops[k], board, id)
  }

  lemma DecidedHeldBack(job: Job, ota: Option<OtaState>, boardIdle: bool, now: Seconds)
    requires !job.phase.IsTerminal() && (job.waitingForDeviceChange || Rank(job.phase) >= 2)
    ensures var next := DecideJob(job, ota, false, boardIdle, now).0; next.waitingForDeviceChange || Rank(next.phase) >= 2
  {
    hide AlreadyActiveError, NoStateError, Concluded, RunsTrialOf;
    if ota.Some? {
      ConcludedEither(job, ota.value);
    }
  }

  /** The present assignment after a call is the one before it, or was queued by the call. */
  lemma SameAssignment(s: Store, op: Op, board: Text, id: Text)
    requires board in s.jobs && !Reassigns(op, board, id)
    ensures board in Step(s, op).jobs
    ensures Step(s, op).jobs[board].updateId == id ==> Advances(s.jobs[board], Step(s, op).jobs[board])
  {
    hide Step, Advances;
    JobAdvances(s, op, board);
    if Advances(s.jobs[board], Step(s, op).jobs[board]) {
      Transitive(s.jobs[board], s.jobs[board], Step(s, op).jobs[board]);
    }
  }

  /** Calls other than deciding, recording a failure and queueing only settle a job or give it an error. */
  lemma OtherCalls(s: Store, op: Op, board: Text, id: Text)
    requires board in s.jobs && s.jobs[board].updateId == id && !Reassigns(op, board, id)
    requires op.OpDecide? ==> op.report.board != board
    requires board in Step(s, op).jobs && Step(s, op).jobs[board].updateId == id
    ensures var (a, b) := (s.jobs[board], Step(s, op).jobs[board]);
            Rank(b.phase) >= 2
            || (b.waitingForDeviceChange == a.waitingForDeviceChange && b.nextDeliveryAt == a.nextDeliveryAt)
  {
    hide DecideJob, Decide, Changes, SeenState, TrialMatches;
    if Board(op) != Some(board) {
      Untouched(s, op, board);
    }
  }

  lemma ChangedHeldBack(job: Job, ota: OtaState, boardIdle: bool, now: Seconds)
    requires !job.phase.IsTerminal() && Rank(job.phase) <= 1
    ensures Rank(DecideJob(job, Some(ota), true, boardIdle, now).0.phase) >= 2 <==> Overtakes(job, ota, boardIdle)
    ensures !DecideJob(job, Some(ota), true, boardIdle, now).0.waitingForDeviceChange
  {
    hide AlreadyActiveError, NoStateError, Concluded, RunsTrialOf, Concludes;
    ConcludesExactly(job, true, ota);
  }

  lemma HeldBackDecide(s: Store, r: OtaStore.Report, now: Seconds, disk: Disk, id: Text)
    requires HeldBack(s, r.board, id) && s.jobs[r.board].updateId == id
    ensures HeldBack(Decide(s, r, now, disk).0, r.board, id) <==> !Releases(s, OpDecide(r, now, disk), r.board, id)
  {
    hide DecideJob, Changes, Overtakes;
    DecideEffect(s, r, now, disk);
    var job := s.jobs[r.board];
    if !job.phase.IsTerminal() {
      DecidedAdvances(job, r.ota, Changes(s, r), r.boardIdle, now);
      if r.ota.Some? && Changes(s, r) && Rank(job.phase) <= 1 {
        ChangedHeldBack(job, r.ota.value, r.boardIdle, now);
      } else if r.ota == None {
        WithoutStateForgets(job, Changes(s, r), r.boardIdle, now);
      } else if !Changes(s, r) {
        DecidedHeldBack(job, r.ota, r.boardIdle, now);
      }
    }
  }

  /** One call keeps the assignment waiting exactly if it does not store another report and act on it. */
  lemma HeldBackStep(s: Store, op: Op, board: Text, id: Text)
    requires HeldBack(s, board, id) && !Reassigns(op, board, id)
    ensures HeldBack(Step(s, op), board, id) <==> !Releases(s, op, board, id)
    ensures Sends(s, op, board, id) ==> Releases(s, op, board, id)
  {
    hide DecideJob, SeenState, TrialMatches, Sends, Changes, Decide, Cancel, AcceptReport, RecordFailure, Queue;
    hide Overtakes;
    SameAssignment(s, op, board, id);
    if op.OpDecide? && op.report.board == board && s.jobs[board].updateId == id {
      HeldBackDecide(s, op.report, op.now, op.disk, id);
    } else if s.jobs[board].updateId == id && Step(s, op).jobs[board].updateId == id {
      OtherCalls(s, op, board, id);
    }
    if Sends(s, op, board, id) {
      SentReleases(s, op, board, id);
    }
  }

  lemma SentReleases(s: Store, op: Op, board: Text, id: Text)
    requires HeldBack(s, board, id) && Sends(s, op, board, id)
    ensures Releases(s, op, board, id)
  {
    hide Decide, Changes, Overtakes, Concludes;
    SendsOnlyEarly(s, op, board, id);
    SentExactly(s, op.report, op.now, op.disk);
    DeliverableIsAlone(s, op.report, op.now, op.disk);
  }

  /** What can be delivered is not overtaken; an assignment that waits needs the jobs written. */
  lemma DeliverableIsAlone(s: Store, r: OtaStore.Report, now: Seconds, disk: Disk)
    requires Deliverable(s, r, now) && Writable(s, r, disk, Downloading)
    ensures !Overtakes(s.jobs[r.board], r.ota.value, r.boardIdle) && s.jobs[r.board].mac == r.mac
    ensures s.jobs[r.board].waitingForDeviceChange ==> disk == WRITABLE && Changes(s, r)
  {
    hide Concludes, Changes;
  }

  /** After a device said it is unavailable, its assignment goes on waiting over any calls that neither record
      another failure nor reuse its id, if and only if no other report of the device is stored and acted on;
      and then its image is not sent. */
  lemma {:induction false} UnavailableHolds(s: Store, ops: seq<Op>, board: Text, id: Text)
    requires board in s.jobs && s.jobs[board].updateId == id && s.jobs[board].waitingForDeviceChange
    requires forall op :: op in ops ==> !Reassigns(op, board, id)
    ensures HeldBackThroughout(s, ops, board, id) <==> NeverReleases(s, ops, board, id)
    ensures NeverReleases(s, ops, board, id) ==> NeverSends(s, ops, board, id)
  {
    hide Step, Sends, Reassigns, Releases;
    if ops == [] {
      assert ops[..0] == [];
    } else {
      var front, op := ops[..|ops| - 1], ops[|ops| - 1];
      UnavailableHolds(s, front, board, id);
      assert op in ops;
      assert front[..|front|] == front;
      if HeldBackThroughout(s, front, board, id) {
        HeldBackStep(RunFrom(s, front), op, board, id);
      }
      LastHeldBack(s, ops, board, id);
      LastRelease(s, ops, board, id);
      LastSend(s, ops, board, id);
    }
  }

  // What holds throughout a run holds throughout all but its last step, and at the last.

  lemma Prefixes(ops: seq<Op>)
    requires ops != []
    ensures var front := ops[..|ops| - 1];
            && ops[..|ops|] == ops && ops[..|front|] == front
            && (forall k :: 0 <= k <= |front| ==> front[..k] == ops[..k])
            && (forall k :: 0 <= k < |front| ==> front[k] == ops[k])
  {}

  lemma LastSend(s: Store, ops: seq<Op>, board: Text, id: Text)
    requires ops != []
    ensures NeverSends(s, ops, board, id)
            <==> NeverSends(s, ops[..|ops| - 1], board, id)
                 && !Sends(RunFrom(s, ops[..|ops| - 1]), ops[|ops| - 1], board, id)
  {
    hide RunFrom, Sends;
    Prefixes(ops);
  }

  lemma LastRelease(s: Store, ops: seq<Op>, board: Text, id: Text)
    requires ops != []
    ensures NeverReleases(s, ops, board, id)
            <==> NeverReleases(s, ops[..|ops| - 1], board, id)
                 && !Releases(RunFrom(s, ops[..|ops| - 1]), ops[|ops| - 1], board, id)
  {
    hide RunFrom, Releases;
    Prefixes(ops);
  }

  lemma LastForget(s: Store, ops: seq<Op>, board: Text, id: Text)
    requires ops != []
    ensures NeverForgets(s, ops, board, id)
            <==> NeverForgets(s, ops[..|ops| - 1], board, id)
                 && !Forgets(RunFrom(s, ops[..|ops| - 1]), ops[|ops| - 1], board, id)
  {
    hide RunFrom, Forgets;
    Prefixes(ops);
  }

  lemma LastHeldBack(s: Store, ops: seq<Op>, board: Text, id: Text)
    requires ops != []
    ensures HeldBackThroughout(s, ops, board, id)
            <==> HeldBackThroughout(s, ops[..|ops| - 1], board, id)
                 && HeldBack(RunFrom(s, ops), board, id)
  {
    hide RunFrom, HeldBack;
    Prefixes(ops);
  }

  lemma LastDelayed(s: Store, ops: seq<Op>, board: Text, id: Text, until: Seconds)
    requires ops != []
    ensures DelayedThroughout(s, ops, board, id, until)
            <==> DelayedThroughout(s, ops[..|ops| - 1], board, id, until)
                 && Delayed(RunFrom(s, ops), board, id, until)
  {
    hide RunFrom, Delayed;
    Prefixes(ops);
  }

  // ---------- Changes that are lost ----------

  /** The device only repeats a report, and its assignment is left alone otherwise. */
  predicate Repeats(op: Op, r: OtaStore.Report, id: Text) {
    && !Reassigns(op, r.board, id)
    && (op.OpCancel? ==> op.board != r.board)
    && (op.OpDecide? && op.report.board == r.board ==> op.report.(boardIdle := r.boardIdle) == r)
  }

  /** An unfinished assignment of the reporting device that waits for it to change. */
  predicate AwaitsChange(s: Store, r: OtaStore.Report, id: Text) {
    && r.board in s.jobs && r.ota.Some?
    && var job := s.jobs[r.board];
       job.updateId == id && job.mac == r.mac && !job.phase.IsTerminal() && job.waitingForDeviceChange
  }

  /** One report of a change is still new afterwards, or has ended the waiting, or is lost: stored, and waited
      for all the same. Which of them depends on exactly what can be written. */
  lemma ChangeStep(s: Store, r: OtaStore.Report, now: Seconds, disk: Disk, id: Text)
    requires AwaitsChange(s, r, id) && Changes(s, r)
    ensures var t := Decide(s, r, now, disk).0;
            && r.board in t.jobs
            && (Changes(t, r) <==> !disk.observations)
            && (!t.jobs[r.board].waitingForDeviceChange <==> disk.observations && disk.jobs)
            && (t.jobs[r.board].waitingForDeviceChange && !Changes(t, r) <==> disk.observations && !disk.jobs)
  {
    hide DecideJob;
    ChangeWakes(s.jobs[r.board], r.ota.value, r.boardIdle, now);
  }

  lemma ChangeWakes(job: Job, ota: OtaState, boardIdle: bool, now: Seconds)
    requires !job.phase.IsTerminal()
    ensures !DecideJob(job, Some(ota), true, boardIdle, now).0.waitingForDeviceChange
  {
    hide AlreadyActiveError, RunsTrialOf, Concluded;
    ConcludedEither(Awaken(job, true), ota);
  }

  /** What could be written when a report of this board was first stored. */
  function FirstStored(ops: seq<Op>, board: Text): Option<Disk> {
    if ops == [] then None
    else
      var (first, op) := (FirstStored(ops[..|ops| - 1], board), ops[|ops| - 1]);
      if first == None && op.OpDecide? && op.report.board == board && op.disk.observations then Some(op.disk) else first
  }

  /** The report is new until it is first stored; and while the assignment is undelivered, it waits until
      then, and for ever if the jobs could not be written then. */
  predicate ChangeOutcome(s: Store, r: OtaStore.Report, id: Text, first: Option<Disk>) {
    && r.board in s.jobs
    && (Changes(s, r) <==> first == None)
    && var job := s.jobs[r.board];
       job.updateId == id ==>
         job.mac == r.mac
         && (Rank(job.phase) <= 1 ==> (job.waitingForDeviceChange <==> first == None || !first.value.jobs))
  }

  lemma SameSeen(s: Store, op: Op, r: OtaStore.Report)
    requires !(op.OpDecide? && op.report.board == r.board) && (op.OpCancel? ==> op.board != r.board)
    ensures Changes(Step(s, op), r) == Changes(s, r)
  {
    hide DecideJob, FailedJob, ReportedJob, Follows, SeenState;
    if Board(op) != Some(r.board) {
      Untouched(s, op, r.board);
    }
  }

  lemma NeverWaitsAgain(job: Job, ota: OtaState, boardIdle: bool, now: Seconds)
    requires !job.phase.IsTerminal() && !job.waitingForDeviceChange
    ensures !DecideJob(job, Some(ota), false, boardIdle, now).0.waitingForDeviceChange
  {
    hide AlreadyActiveError, RunsTrialOf, Concluded;
    ConcludedEither(job, ota);
  }

  lemma RepeatedDecide(s: Store, r: OtaStore.Report, now: Seconds, disk: Disk, id: Text, first: Option<Disk>)
    requires ChangeOutcome(s, r, id, first) && r.ota.Some?
    ensures ChangeOutcome(Decide(s, r, now, disk).0, r, id,
                          if first == None && disk.observations then Some(disk) else first)
  {
    hide DecideJob;
    DecideEffect(s, r, now, disk);
    var job := s.jobs[r.board];
    if job.updateId == id && !job.phase.IsTerminal() {
      DecidedAdvances(job, r.ota, Changes(s, r), r.boardIdle, now);
      if Changes(s, r) {
        ChangeWakes(job, r.ota.value, r.boardIdle, now);
      } else if job.waitingForDeviceChange {
        DecidedHeldBack(job, r.ota, r.boardIdle, now);
      } else {
        NeverWaitsAgain(job, r.ota.value, r.boardIdle, now);
      }
    }
    DecideKeepsOthers(s, r, now, disk);
  }

  lemma DecideKeepsOthers(s: Store, r: OtaStore.Report, now: Seconds, disk: Disk)
    requires r.board in s.jobs
    ensures var t := Decide(s, r, now, disk).0;
            r.board in t.jobs && Advances(s.jobs[r.board], t.jobs[r.board])
            && (Changes(t, r) <==> Changes(s, r) && !disk.observations)
  {
    hide DecideJob, Advances;
    DecideEffect(s, r, now, disk);
    Reflexive(s.jobs[r.board]);
    if !s.jobs[r.board].phase.IsTerminal() {
      DecidedAdvances(s.jobs[r.board], r.ota, Changes(s, r), r.boardIdle, now);
    }
  }

  lemma RepeatedStep(s: Store, op: Op, r: OtaStore.Report, id: Text, first: Option<Disk>)
    requires ChangeOutcome(s, r, id, first) && r.ota.Some? && Repeats(op, r, id)
    ensures ChangeOutcome(Step(s, op), r, id,
                          if first == None && op.OpDecide? && op.report.board == r.board && op.disk.observations
                          then Some(op.disk) else first)
  {
    hide DecideJob, SeenState, TrialMatches, Changes, Decide, Cancel, AcceptReport, RecordFailure, Queue;
    if op.OpDecide? && op.report.board == r.board {
      SameReport(s, r, op.report, id, first);
      RepeatedDecide(s, op.report, op.now, op.disk, id, first);
      SameReport(Step(s, op), op.report, r, id, if first == None && op.disk.observations then Some(op.disk) else first);
    } else {
      SameSeen(s, op, r);
      SameAssignment(s, op, r.board, id);
      if s.jobs[r.board].updateId == id && Step(s, op).jobs[r.board].updateId == id {
        OtherCalls(s, op, r.board, id);
      }
    }
  }

  /** Whether the board is idle is no part of what is stored. */
  lemma SameReport(s: Store, r: OtaStore.Report, q: OtaStore.Report, id: Text, first: Option<Disk>)
    requires q.(boardIdle := r.boardIdle) == r
    ensures Changes(s, q) == Changes(s, r)
    ensures ChangeOutcome(s, r, id, first) ==> ChangeOutcome(s, q, id, first)
  {}

  lemma NotSentYet(s: Store, op: Op, r: OtaStore.Report, id: Text, first: Option<Disk>)
    requires ChangeOutcome(s, r, id, first) && Repeats(op, r, id) && (first == None || !first.value.jobs)
    requires first == None ==> !(op.OpDecide? && op.report.board == r.board && op.disk == WRITABLE)
    ensures !Sends(s, op, r.board, id)
  {
    hide DecideJob, Decide, Changes;
    if Sends(s, op, r.board, id) {
      SendsOnlyEarly(s, op, r.board, id);
      SameReport(s, r, op.report, id, first);
      SentExactly(s, op.report, op.now, op.disk);
      DeliverableIsAlone(s, op.report, op.now, op.disk);
    }
  }

  /** Over a device's repetitions of its changed report, the change is never acted on exactly if the jobs
      could not be written when the report was first stored: the assignment then waits on, and its image is
      not sent; and it stops waiting exactly if they could. */
  lemma {:induction false} ChangeIsLost(s: Store, r: OtaStore.Report, ops: seq<Op>, id: Text)
    requires AwaitsChange(s, r, id) && Changes(s, r)
    requires forall op :: op in ops ==> Repeats(op, r, id)
    ensures ChangeOutcome(RunFrom(s, ops), r, id, FirstStored(ops, r.board))
    ensures FirstStored(ops, r.board) == None || !FirstStored(ops, r.board).value.jobs ==> NeverSends(s, ops, r.board, id)
  {
    hide Step, Changes, Repeats, Sends, ChangeOutcome;
    if ops == [] {
      StartsNew(s, r, id);
    } else {
      var front, op := ops[..|ops| - 1], ops[|ops| - 1];
      var u, first := RunFrom(s, front), FirstStored(front, r.board);
      assert op in ops;
      ChangeIsLost(s, r, front, id);
      RepeatedStep(u, op, r, id, first);
      if FirstStored(ops, r.board) == None || !FirstStored(ops, r.board).value.jobs {
        NotSentYet(u, op, r, id, first);
        LastSend(s, ops, r.board, id);
      }
    }
  }

  lemma StartsNew(s: Store, r: OtaStore.Report, id: Text)
    requires AwaitsChange(s, r, id) && Changes(s, r)
    ensures ChangeOutcome(s, r, id, None)
  {}

  /** This assignment is to be sent at a time, is past the delivery, or is not the present one. */
  predicate Delayed(s: Store, board: Text, id: Text, until: Seconds) {
    board in s.jobs
    && var job := s.jobs[board];
       job.updateId == id ==> job.nextDeliveryAt == Some(until) || Rank(job.phase) >= 2
  }

  /** Decides come before a time. */
  predicate Early(op: Op, board: Text, id: Text, until: Seconds) {
    !Reassigns(op, board, id) && (op.OpDecide? && op.report.board == board ==> op.now < until)
  }

  /** The device of an undelivered assignment reports no upgrade state, and that can be written. */
  predicate Forgets(s: Store, op: Op, board: Text, id: Text) {
    && op.OpDecide? && op.report.board == board && op.report.ota == None
    && board in s.jobs && s.jobs[board].updateId == id && Rank(s.jobs[board].phase) <= 1
    && s.jobs[board].mac == op.report.mac
    && (Changes(s, op.report) ==> op.disk.observations) && op.disk.jobs
  }

  predicate DelayedThroughout(s: Store, ops: seq<Op>, board: Text, id: Text, until: Seconds) {
    forall k :: 0 <= k <= |ops| ==> Delayed(RunFrom(s, ops[..k]), board, id, until)
  }

  predicate NeverForgets(s: Store, ops: seq<Op>, board: Text, id: Text) {
    forall k :: 0 <= k < |ops| ==> !Forgets(RunFrom(s, ops[..k]), ops[k], board, id)
  }

  lemma DecidedDelayed(job: Job, ota: OtaState, changed: bool, boardIdle: bool, now: Seconds, until: Seconds)
    requires !job.phase.IsTerminal() && (job.nextDeliveryAt == Some(until) || Rank(job.phase) >= 2) && now < until
    ensures var next := DecideJob(job, Some(ota), changed, boardIdle, now).0;
            next.nextDeliveryAt == Some(until) || Rank(next.phase) >= 2
  {
    hide AlreadyActiveError, NoStateError, Concluded, RunsTrialOf;
    ConcludedEither(Awaken(job, changed), ota);
  }

  lemma EarlyDecide(s: Store, r: OtaStore.Report, now: Seconds, disk: Disk, id: Text, until: Seconds)
    requires Delayed(s, r.board, id, until) && now < until && s.jobs[r.board].updateId == id
    ensures Delayed(Decide(s, r, now, disk).0, r.board, id, until) <==> !Forgets(s, OpDecide(r, now, disk), r.board, id)
  {
    hide DecideJob, Changes;
    DecideEffect(s, r, now, disk);
    var job := s.jobs[r.board];
    if r.ota.Some? && !job.phase.IsTerminal() {
      DecidedDelayed(job, r.ota.value, Changes(s, r), r.boardIdle, now, until);
    } else if r.ota == None {
      WithoutStateForgets(job, Changes(s, r), r.boardIdle, now);
    }
  }

  lemma WithoutStateForgets(job: Job, changed: bool, boardIdle: bool, now: Seconds)
    ensures var next := DecideJob(job, None, changed, boardIdle, now).0;
            next.nextDeliveryAt == None && next.waitingForDeviceChange && next.phase == job.phase
            && next.updateId == job.updateId
  {
    hide NoStateError;
  }

  /** One early call keeps the delay exactly if it is not a writable report without an upgrade state. */
  lemma DelayedStep(s: Store, op: Op, board: Text, id: Text, until: Seconds)
    requires Delayed(s, board, id, until) && Early(op, board, id, until)
    ensures Delayed(Step(s, op), board, id, until) <==> !Forgets(s, op, board, id)
    ensures !Sends(s, op, board, id)
  {
    hide DecideJob, SeenState, TrialMatches, Sends, Changes, Decide, Cancel, AcceptReport, RecordFailure, Queue;
    SameAssignment(s, op, board, id);
    if op.OpDecide? && op.report.board == board && s.jobs[board].updateId == id {
      EarlyDecide(s, op.report, op.now, op.disk, id, until);
    } else if s.jobs[board].updateId == id && Step(s, op).jobs[board].updateId == id {
      OtherCalls(s, op, board, id);
    }
    NotSentEarly(s, op, board, id, until);
  }

  lemma NotSentEarly(s: Store, op: Op, board: Text, id: Text, until: Seconds)
    requires Delayed(s, board, id, until)
    requires op.OpDecide? && op.report.board == board ==> op.now < until
    ensures !Sends(s, op, board, id)
  {
    hide DecideJob, Decide;
    if Sends(s, op, board, id) {
      SendsOnlyEarly(s, op, board, id);
    }
  }

  /** A scheduled delay survives a run of early calls if and only if none of them is a writable report of
      the device without an upgrade state; and while it survives, the image is not sent. */
  lemma {:induction false} DelayHolds(s: Store, ops: seq<Op>, board: Text, id: Text, until: Seconds)
    requires board in s.jobs && s.jobs[board].updateId == id && s.jobs[board].nextDeliveryAt == Some(until)
    requires forall op :: op in ops ==> Early(op, board, id, until)
    ensures DelayedThroughout(s, ops, board, id, until) <==> NeverForgets(s, ops, board, id)
    ensures NeverForgets(s, ops, board, id) ==> NeverSends(s, ops, board, id)
  {
    hide Step, Sends, Early, Forgets;
    if ops == [] {
      assert ops[..0] == [];
    } else {
      var front, op := ops[..|ops| - 1], ops[|ops| - 1];
      DelayHolds(s, front, board, id, until);
      assert op in ops;
      assert front[..|front|] == front;
      if DelayedThroughout(s, front, board, id, until) {
        DelayedStep(RunFrom(s, front), op, board, id, until);
      }
      LastDelayed(s, ops, board, id, until);
      LastForget(s, ops, board, id);
      LastSend(s, ops, board, id);
    }
  }

  /** Once it is forgotten, the image is sent at the device's next ordinary report, at any time. */
  lemma DelayForgotten(s: Store, op: Op, board: Text, id: Text, ota: OtaState, epoch: Text, now: Seconds)
    requires Forgets(s, op, board, id) && Ready(ota, s.jobs[board])
    ensures Sends(Step(s, op), OpDecide(OtaStore.Report(board, s.jobs[board].mac, Some(ota), true, epoch), now, WRITABLE),
                  board, id)
  {
    hide NoStateError, AlreadyActiveError, RunsTrialOf;
    var job := s.jobs[board];
    var t := Step(s, op);
    assert t.jobs[board] == WithoutState(job);
    assert t.observations[board] == Observation(job.mac, None, op.report.epoch);
    assert Changes(t, OtaStore.Report(board, job.mac, Some(ota), true, epoch));
  }

  /** The images of unfinished assignments are where sending and deleting look for them. */
  predicate Deleting(s: Store, digest: Digest) {
    (s.lock.RemovingMetadata? || s.lock.RemovingImage? || s.lock.Removed?) && s.lock.digest == digest
  }

  predicate FilesStored(s: Store) {
    && (forall d :: d in s.catalog ==>
          s.catalog[d].sha256 == d && ((d in s.imageFiles && d in s.metadataFiles) || Deleting(s, d)))
    && (s.lock.WritingMetadata? ==> s.lock.image.sha256 in s.imageFiles)
  }

  predicate Removes(work: CatalogLock) { work.RemovingMetadata? || work.RemovingImage? }

  /** No file is being removed by a call that went away. */
  predicate Intact(s: Store) { FilesStored(s) && forall work :: work in s.abandoned ==> !Removes(work) }

  predicate Safe(s: Store, digest: Digest) { digest in s.catalog && !Deleting(s, digest) }

  predicate Secure(s: Store) {
    Intact(s)
    && forall b :: b in s.jobs && !s.jobs[b].phase.IsTerminal() ==> Safe(s, s.jobs[b].image.sha256)
  }

  /** Whoever goes away now leaves files behind that are still being removed, or a catalog entry whose
      files are gone. */
  predicate Harmful(s: Store) {
    || Removes(s.lock)
    || (s.lock.Removed? && s.lock.digest in s.catalog
        && !(s.lock.digest in s.imageFiles && s.lock.digest in s.metadataFiles))
  }

  predicate Careful(s: Store, op: Op) { op.OpAbandon? ==> !Harmful(s) }

  predicate AllCareful(s: Store, ops: seq<Op>) {
    forall k :: 0 <= k < |ops| ==> Careful(RunFrom(s, ops[..k]), ops[k])
  }

  /** The images of unfinished assignments are where sending looks for them. */
  predicate ImagesStored(s: Store) {
    forall b :: b in s.jobs && !s.jobs[b].phase.IsTerminal() ==>
      var digest := s.jobs[b].image.sha256;
      digest in s.catalog && digest in s.imageFiles && digest in s.metadataFiles
  }

  lemma FilesStep(s: Store, op: Op)
    requires Intact(s) && Careful(s, op)
    ensures Intact(Step(s, op))
  {
    hide Queue, Cancel, Decide, AcceptReport, RecordFailure, IsReferenced, GoOn;
    if Board(op) != None {
      JobsOnly(s, op);
    } else if op.OpGoOn? {
      WorkStep(s, op.work, op.file);
    }
  }

  /** Abandoned work that removes nothing only adds files. */
  lemma WorkStep(s: Store, k: nat, r: FileResult)
    requires Intact(s)
    ensures var t := GoOn(s, k, r);
            && Intact(t)
            && t == s.(imageFiles := t.imageFiles, metadataFiles := t.metadataFiles, abandoned := t.abandoned)
  {
    if k < |s.abandoned| {
      assert !Removes(s.abandoned[k]);
      var work := FileWork(s.(lock := s.abandoned[k]), r).lock;
      assert !Removes(work);
      assert forall w :: w in s.abandoned[k := work] ==> w == work || w in s.abandoned;
    }
  }

  /** Calls about a board leave the files, the catalog and its lock alone. */
  lemma JobsOnly(s: Store, op: Op)
    requires Board(op) != None
    ensures Step(s, op) == s.(jobs := Step(s, op).jobs, observations := Step(s, op).observations)
  {
    hide DecideJob, FailedJob, ReportedJob, Follows, SeenState, Changes, Occupies;
  }

  /** Only queueing makes an image needed, and only deletion, after its check, stops it from being safe. */
  lemma SafeStep(s: Store, op: Op, digest: Digest)
    requires Safe(s, digest) && (op.OpBeginDelete? ==> !(op.digest == digest && !IsReferenced(s, digest)))
    ensures Safe(Step(s, op), digest)
  {
    hide Queue, Cancel, Decide, AcceptReport, RecordFailure, IsReferenced, FileWork;
    if Board(op) != None {
      JobsOnly(s, op);
    }
  }

  lemma NeededStep(s: Store, op: Op, board: Text)
    requires Secure(s) && board in Step(s, op).jobs && !Step(s, op).jobs[board].phase.IsTerminal()
    ensures Safe(Step(s, op), Step(s, op).jobs[board].image.sha256)
  {
    hide Step;
    var digest := Step(s, op).jobs[board].image.sha256;
    if board in s.jobs && !s.jobs[board].phase.IsTerminal() {
      JobAdvances(s, op, board);
      SafeStep(s, op, digest);
    } else {
      QueuedSafe(s, op, board);
    }
  }

  lemma QueuedSafe(s: Store, op: Op, board: Text)
    requires FilesStored(s) && board in Step(s, op).jobs && !Step(s, op).jobs[board].phase.IsTerminal()
    requires board !in s.jobs || s.jobs[board].phase.IsTerminal()
    ensures Safe(Step(s, op), Step(s, op).jobs[board].image.sha256)
  {
    hide DecideJob, Decide, AcceptReport, RecordFailure, Cancel, SeenState, Changes;
    if board !in s.jobs {
      NewJob(s, op, board);
    } else {
      JobAdvances(s, op, board);
    }
  }

  lemma SecureStep(s: Store, op: Op)
    requires Secure(s) && Careful(s, op)
    ensures Secure(Step(s, op))
  {
    hide Step, Careful, Intact, Safe;
    FilesStep(s, op);
    forall b | b in Step(s, op).jobs && !Step(s, op).jobs[b].phase.IsTerminal()
      ensures Safe(Step(s, op), Step(s, op).jobs[b].image.sha256)
    {
      NeededStep(s, op, b);
    }
  }

  lemma {:induction false} SecureRun(s: Store, ops: seq<Op>)
    requires Secure(s) && AllCareful(s, ops)
    ensures Secure(RunFrom(s, ops)) && ImagesStored(RunFrom(s, ops))
  {
    hide Step, Careful;
    if ops != [] {
      var front, op := ops[..|ops| - 1], ops[|ops| - 1];
      assert forall k :: 0 <= k < |front| ==> front[..k] == ops[..k] && front[k] == ops[k];
      assert Careful(RunFrom(s, ops[..|front|]), ops[|front|]);
      SecureRun(s, front);
      SecureStep(RunFrom(s, front), op);
    }
  }

  /** However deletion interleaves with the other calls, an unfinished assignment's image is in the
      catalog and both its files are there, if no call goes away while it is harmful. */
  lemma ImagesStay(ops: seq<Op>)
    requires AllCareful(Initial(), ops)
    ensures ImagesStored(Run(ops))
  {
    hide RunFrom, AllCareful, ImagesStored;
    assert Secure(Initial());
    SecureRun(Initial(), ops);
  }

  /** In every continuation without a further harmful loss of a caller, no image of an unfinished
      assignment is missing. */
  ghost predicate AlwaysStored(s: Store) {
    forall ops :: AllCareful(s, ops) ==> ImagesStored(RunFrom(s, ops))
  }

  /** A caller that goes away endangers the images exactly if it is harmful at that moment. */
  lemma AbandonedRemoval(s: Store)
    requires Secure(s)
    ensures AlwaysStored(Step(s, OpAbandon)) <==> !Harmful(s)
  {
    hide Secure, AllCareful, ImagesStored, Harmful, Step;
    var t := Step(s, OpAbandon);
    if !Harmful(s) {
      SecureStep(s, OpAbandon);
      forall ops | AllCareful(t, ops) ensures ImagesStored(RunFrom(t, ops)) {
        SecureRun(t, ops);
      }
    } else {
      var ops := Endangered(s);
      assert AllCareful(t, ops) && !ImagesStored(RunFrom(t, ops));
    }
  }

  /** A text that is longer than every text of a set. */
  lemma FreshText(used: set<Text>) returns (unused: Text)
    ensures unused !in used
  {
    unused := "";
    var left := used;
    while left != {}
      invariant left <= used
      invariant forall text :: text in used - left ==> |text| < |unused|
      decreases left
    {
      var text :| text in left;
      if |text| >= |unused| {
        unused := text + [' '];
      }
      left := left - {text};
    }
    assert used - left == used;
  }

  function NewImage(digest: Digest): Image { Image(digest, 1, None) }

  function Written(): FileResult { FileResult(true, true) }

  /** The store after an image was uploaded. */
  function Uploaded(s: Store, digest: Digest): Store {
    Step(Step(Step(s, OpBeginPut(NewImage(digest))), OpPutImage(Written())), OpPutMetadata(Written()))
  }

  lemma UploadedHolds(s: Store, digest: Digest)
    requires s.lock == Free
    ensures Uploaded(s, digest)
            == s.(catalog := s.catalog[digest := NewImage(digest)], imageFiles := s.imageFiles + {digest},
                  metadataFiles := s.metadataFiles + {digest})
  {
    hide Step;
    FileSteps(s, NewImage(digest));
    FileSteps(BeginPut(s, NewImage(digest)), NewImage(digest));
    FileSteps(PutImageFile(BeginPut(s, NewImage(digest)), Written()), NewImage(digest));
  }

  lemma FileSteps(s: Store, image: Image)
    ensures Step(s, OpBeginPut(image)) == BeginPut(s, image)
    ensures Step(s, OpPutImage(Written())) == PutImageFile(s, Written())
    ensures Step(s, OpPutMetadata(Written())) == PutMetadataFile(s, Written())
    ensures Step(s, OpAbandon) == Abandon(s)
  {
    hide Queue, Cancel, Decide, AcceptReport, RecordFailure, BeginPut, PutImageFile, PutMetadataFile, Abandon;
  }

  lemma FreshQueue(s: Store, board: Text, digest: Digest)
    requires s.lock == Free && digest in s.catalog && board !in s.jobs && board !in s.observations
    ensures Step(s, OpQueue(board, "", digest, "", WRITABLE))
            == s.(jobs := s.jobs[board := Job(board, "", "", s.catalog[digest], Queued, None, 0, None, false)])
  {
    hide Cancel, Decide, AcceptReport, RecordFailure;
  }

  lemma GoesOn(s: Store, work: nat, digest: Digest)
    requires work < |s.abandoned|
    requires s.abandoned[work] == RemovingImage(digest) || s.abandoned[work] == RemovingMetadata(digest)
    ensures var t := Step(s, OpGoOn(work, Written()));
            t.jobs == s.jobs && !(digest in t.imageFiles && digest in t.metadataFiles)
  {
    hide Queue, Cancel, Decide, AcceptReport, RecordFailure;
  }

  lemma Missing(s: Store, board: Text)
    requires board in s.jobs && !s.jobs[board].phase.IsTerminal()
    requires var digest := s.jobs[board].image.sha256; !(digest in s.imageFiles && digest in s.metadataFiles)
    ensures !ImagesStored(s)
  {}

  /** The same image is uploaded again and assigned to a board that was never seen; then the removal goes
      on. */
  lemma EndangeredLater(s: Store, work: nat, digest: Digest) returns (ops: seq<Op>)
    requires s.lock == Free && work < |s.abandoned|
    requires s.abandoned[work] == RemovingImage(digest) || s.abandoned[work] == RemovingMetadata(digest)
    ensures (forall op :: op in ops ==> !op.OpAbandon?) && !ImagesStored(RunFrom(s, ops))
  {
    hide Step, ImagesStored, Uploaded;
    var board := FreshText(s.jobs.Keys + s.observations.Keys);
    var put, image, metadata := OpBeginPut(NewImage(digest)), OpPutImage(Written()), OpPutMetadata(Written());
    var queue, goOn := OpQueue(board, "", digest, "", WRITABLE), OpGoOn(work, Written());
    ops := [put, image, metadata, queue, goOn];
    RunFiveSteps(s, digest, queue, goOn);
    UploadedHolds(s, digest);
    var uploaded := Uploaded(s, digest);
    FreshQueue(uploaded, board, digest);
    var queued := Step(uploaded, queue);
    GoesOn(queued, work, digest);
    Missing(Step(queued, goOn), board);
  }

  /** If the files are gone already, assigning the image is enough. */
  lemma EndangeredNow(s: Store, digest: Digest) returns (ops: seq<Op>)
    requires s.lock == Free && digest in s.catalog && s.catalog[digest].sha256 == digest
    requires !(digest in s.imageFiles && digest in s.metadataFiles)
    ensures (forall op :: op in ops ==> !op.OpAbandon?) && !ImagesStored(RunFrom(s, ops))
  {
    hide Step, ImagesStored;
    var board := FreshText(s.jobs.Keys + s.observations.Keys);
    var queue := OpQueue(board, "", digest, "", WRITABLE);
    ops := [queue];
    assert ops[..0] == [] && RunFrom(s, []) == s;
    FreshQueue(s, board, digest);
    Missing(Step(s, queue), board);
  }

  lemma Endangered(s: Store) returns (ops: seq<Op>)
    requires Secure(s) && Harmful(s)
    ensures AllCareful(Step(s, OpAbandon), ops) && !ImagesStored(RunFrom(Step(s, OpAbandon), ops))
  {
    hide RunFrom, ImagesStored, Step;
    var t := Abandon(s);
    FileSteps(s, NewImage(""));
    if s.lock.Removed? {
      ops := EndangeredNow(t, s.lock.digest);
    } else {
      assert t.abandoned[|s.abandoned|] == s.lock;
      ops := EndangeredLater(t, |s.abandoned|, s.lock.digest);
    }
  }

  lemma RunFiveSteps(s: Store, digest: Digest, d: Op, e: Op)
    ensures RunFrom(s, [OpBeginPut(NewImage(digest)), OpPutImage(Written()), OpPutMetadata(Written()), d, e])
            == Step(Step(Uploaded(s, digest), d), e)
  {
    hide Step;
    var a, b, c := OpBeginPut(NewImage(digest)), OpPutImage(Written()), OpPutMetadata(Written());
    RunFourSteps(s, a, b, c, d);
    assert [a, b, c, d, e][..4] == [a, b, c, d];
  }

  // ---------- Runs that lose a change, and a delay ----------

  /** An idle device that runs another image. */
  function IdleState(): OtaState { OtaState("", "", None, false, None, None, None) }

  function IdleReport(board: Text, epoch: Text): OtaStore.Report { OtaStore.Report(board, "", Some(IdleState()), true, epoch) }

  /** An image is uploaded and assigned. */
  function QueueingRun(board: Text, digest: Digest): seq<Op> {
    [OpBeginPut(NewImage(digest)), OpPutImage(Written()), OpPutMetadata(Written()), OpQueue(board, "", digest, "", WRITABLE)]
  }

  /** It is handed out to the device, too, and its delivery fails. */
  function FailingRun(board: Text, digest: Digest, epoch: Text, now: Seconds, failure: DeliveryFailure): seq<Op> {
    QueueingRun(board, digest)
    + [OpDecide(IdleReport(board, epoch), now, WRITABLE),
       OpFail(FailureReport(board, "", "", epoch, failure), now, WRITABLE)]
  }

  /** The job when its image has been handed out. */
  function HandedOut(board: Text, digest: Digest): Job {
    Job(board, "", "", NewImage(digest), Downloading, None, 0, None, false)
  }

  lemma QueuedRun(board: Text, digest: Digest)
    ensures var s := Run(QueueingRun(board, digest));
            s.observations == map[]
            && s.jobs == map[board := Job(board, "", "", NewImage(digest), Queued, None, 0, None, false)]
  {
    hide Step, Uploaded;
    RunFourSteps(Initial(), OpBeginPut(NewImage(digest)), OpPutImage(Written()), OpPutMetadata(Written()),
                 OpQueue(board, "", digest, "", WRITABLE));
    UploadedIs(Initial(), digest);
    UploadedHolds(Initial(), digest);
    FreshQueue(Uploaded(Initial(), digest), board, digest);
  }

  lemma UploadedIs(s: Store, digest: Digest)
    ensures Uploaded(s, digest)
            == Step(Step(Step(s, OpBeginPut(NewImage(digest))), OpPutImage(Written())), OpPutMetadata(Written()))
  {
    hide Step;
  }

  lemma FailingRunReaches(board: Text, digest: Digest, epoch: Text, now: Seconds, failure: DeliveryFailure)
    requires digest != ""
    ensures var s := Run(FailingRun(board, digest, epoch, now, failure));
            && board in s.jobs && s.jobs[board] == FailedJob(HandedOut(board, digest), failure, now)
            && board in s.observations && s.observations[board] == Observation("", Some(IdleState()), epoch)
  {
    hide Step, FailedJob, Decide, RecordFailure, RunFrom, QueueingRun;
    var decide := OpDecide(IdleReport(board, epoch), now, WRITABLE);
    var fail := OpFail(FailureReport(board, "", "", epoch, failure), now, WRITABLE);
    TwoMore(Initial(), QueueingRun(board, digest), decide, fail);
    QueuedRun(board, digest);
    var s := Run(QueueingRun(board, digest));
    DecideHandsOut(s, board, digest, epoch, now);
    FailFails(Step(s, decide), board, digest, epoch, now, failure);
  }

  lemma TwoMore(s: Store, ops: seq<Op>, a: Op, b: Op)
    ensures RunFrom(s, ops + [a, b]) == Step(Step(RunFrom(s, ops), a), b)
  {
    hide Step;
    assert (ops + [a, b])[..|ops| + 1] == ops + [a] && (ops + [a])[..|ops|] == ops;
    assert RunFrom(s, ops + [a]) == Step(RunFrom(s, ops), a);
  }

  lemma DecideHandsOut(s: Store, board: Text, digest: Digest, epoch: Text, now: Seconds)
    requires digest != "" && s.observations == map[]
    requires s.jobs == map[board := Job(board, "", "", NewImage(digest), Queued, None, 0, None, false)]
    ensures var t := Step(s, OpDecide(IdleReport(board, epoch), now, WRITABLE));
            && board in t.jobs && t.jobs[board] == HandedOut(board, digest)
            && board in t.observations && t.observations[board] == Observation("", Some(IdleState()), epoch)
  {
    hide DecideJob, Queue, Cancel, AcceptReport, RecordFailure;
    ReadyIsSent(s.jobs[board], IdleState(), true, now);
  }

  lemma FailFails(s: Store, board: Text, digest: Digest, epoch: Text, now: Seconds, failure: DeliveryFailure)
    requires board in s.jobs && s.jobs[board] == HandedOut(board, digest)
    requires board in s.observations && s.observations[board] == Observation("", Some(IdleState()), epoch)
    ensures var t := Step(s, OpFail(FailureReport(board, "", "", epoch, failure), now, WRITABLE));
            && board in t.jobs && t.jobs[board] == FailedJob(HandedOut(board, digest), failure, now)
            && board in t.observations && t.observations[board] == s.observations[board]
  {
    hide FailedJob, Queue, Cancel, AcceptReport, Decide;
  }

  /** A device says that it is unavailable, and boots again; its next report is stored when the jobs cannot be
      written, and lost. */
  lemma ChangeLostInARun(board: Text, digest: Digest, first: Text, second: Text, now: Seconds) returns (ops: seq<Op>)
    requires digest != "" && first != second
    ensures var (s, r) := (Run(ops), IdleReport(board, second));
            && AwaitsChange(s, r, "") && Changes(s, r)
            && var t := Step(s, OpDecide(r, now, Disk(true, false)));
               ChangeOutcome(t, r, "", Some(Disk(true, false))) && board in t.jobs && t.jobs[board].waitingForDeviceChange
  {
    hide Step, Run, FailingRun, Decide, ChangeOutcome;
    ops := FailingRun(board, digest, first, now, Unavailable(""));
    FailingRunReaches(board, digest, first, now, Unavailable(""));
    var s, r, disk := Run(ops), IdleReport(board, second), Disk(true, false);
    StartsNew(s, r, "");
    RepeatedDecide(s, r, now, disk, "", None);
    DecideIsStep(s, r, now, disk);
    ChangeStep(s, r, now, disk, "");
  }

  lemma DecideIsStep(s: Store, r: OtaStore.Report, now: Seconds, disk: Disk)
    ensures Step(s, OpDecide(r, now, disk)) == Decide(s, r, now, disk).0
  {
    hide Decide;
  }

  /** A delivery that met a conflict is to be repeated five seconds later; a report without an upgrade state
      forgets that. */
  lemma DelayLostInARun(board: Text, digest: Digest, epoch: Text, now: Seconds) returns (ops: seq<Op>)
    requires digest != ""
    ensures var s := Run(ops);
            && board in s.jobs && s.jobs[board].nextDeliveryAt == Some(now + DELIVERY_RETRY_SECONDS)
            && Forgets(s, OpDecide(OtaStore.Report(board, "", None, true, epoch), now, WRITABLE), board, "")
  {
    hide Step, Run, FailingRun;
    ops := FailingRun(board, digest, epoch, now, Conflict(""));
    FailingRunReaches(board, digest, epoch, now, Conflict(""));
  }

  // ---------- Deciding twice ----------

  const WRITABLE: Disk := Disk(true, true)

  /** Deciding again, at the same time with the same report, changes nothing and answers the same. */
  predicate Idempotent(s: Store, r: OtaStore.Report, now: Seconds) {
    var (t, first) := Decide(s, r, now, WRITABLE);
    Decide(t, r, now, WRITABLE) == (t, first)
  }

  /** A report that names the assigned update both as the trial it runs and as the one it last finished,
      for an assignment that is not confirming yet. */
  predicate PendingAndFinished(s: Store, r: OtaStore.Report) {
    && r.board in s.jobs && r.ota.Some?
    && var (job, ota) := (s.jobs[r.board], r.ota.value);
       && job.mac == r.mac && !job.phase.IsTerminal() && job.phase != Confirming
       && ota.trial && RunsTrialOf(ota, job.updateId, job.image)
       && FinishedToo(job, ota)
  }

  predicate FinishedToo(job: Job, ota: OtaState) {
    ota.lastUpdateId == Some(job.updateId) && ota.lastOutcome == Some(Confirmed) && ota.activeSha256 == job.image.sha256
  }

  /** A job that a last outcome does not finish is not finished by it after a change of phase either,
      unless that phase is Confirming. */
  lemma ConcludedAgain(job: Job, next: Job, ota: OtaState)
    requires !job.phase.IsTerminal() && Concluded(job, ota) == job
    requires next.updateId == job.updateId && next.image == job.image && !next.phase.IsTerminal()
    requires next.phase == Confirming && job.phase != Confirming ==> !FinishedToo(job, ota)
    ensures Concluded(next, ota) == next
  {}

  lemma DeliverTwice(job: Job, ota: OtaState, changed: bool, boardIdle: bool, now: Seconds)
    requires !job.phase.IsTerminal() && (changed ==> !job.waitingForDeviceChange)
    ensures var (next, decision) := Deliver(job, ota, changed, boardIdle, now);
            if next.phase.IsTerminal() then decision == Idle
            else Deliver(next, ota, false, boardIdle, now) == (next, decision)
  {
    hide AlreadyActiveError, NoStateError;
  }

  lemma DecideJobTwice(job: Job, ota: OtaState, changed: bool, boardIdle: bool, now: Seconds)
    requires !job.phase.IsTerminal()
    requires !(job.phase != Confirming && TrialMatches(Some(ota), job) && FinishedToo(job, ota))
    ensures var (next, decision) := DecideJob(job, Some(ota), changed, boardIdle, now);
            if next.phase.IsTerminal() then decision == WaitIf(Unfinished(ota))
            else DecideJob(next, Some(ota), false, boardIdle, now) == (next, decision)
  {
    hide AlreadyActiveError, NoStateError, Concluded, Deliver, RunsTrialOf, FinishedToo;
    var awake := Awaken(job, changed);
    ConcludedEither(awake, ota);
    var (next, decision) := DecideJob(job, Some(ota), changed, boardIdle, now);
    if Concluded(awake, ota) == awake && !next.phase.IsTerminal() {
      SameFinished(job, awake, ota);
      if !ota.trial && ota.pendingUpdateId == None {
        DeliverAdvances(awake, ota, changed, boardIdle, now);
        DeliverTwice(awake, ota, changed, boardIdle, now);
      }
      ConcludedAgain(awake, next, ota);
    } else if Concluded(awake, ota) == awake {
      DeliverAdvances(awake, ota, changed, boardIdle, now);
      DeliverTwice(awake, ota, changed, boardIdle, now);
    }
  }

  lemma SameFinished(a: Job, b: Job, ota: OtaState)
    requires a.updateId == b.updateId && a.image == b.image
    ensures FinishedToo(a, ota) == FinishedToo(b, ota)
  {}

  /** The exact condition under which deciding is idempotent, for every state, report and time. */
  lemma DecideTwice(s: Store, r: OtaStore.Report, now: Seconds)
    ensures Idempotent(s, r, now) <==> !PendingAndFinished(s, r)
  {
    hide DecideJob, WithState, FinishedToo, RunsTrialOf;
    var (t, first) := Decide(s, r, now, WRITABLE);
    assert !Changes(t, r);
    if r.board in s.jobs && s.jobs[r.board].mac == r.mac && !s.jobs[r.board].phase.IsTerminal() {
      var job := s.jobs[r.board];
      var (next, decision) := DecideJob(job, r.ota, Changes(s, r), r.boardIdle, now);
      assert first == Answered(decision) && t.jobs[r.board] == next;
      DecidedAdvances(job, r.ota, Changes(s, r), r.boardIdle, now);
      if PendingAndFinished(s, r) {
        TrialThenSuccess(job, r.ota.value, Changes(s, r), r.boardIdle, now);
      } else if r.ota.Some? {
        DecideJobTwice(job, r.ota.value, Changes(s, r), r.boardIdle, now);
      } else {
        WithoutStateTwice(job, Changes(s, r), r.boardIdle, now);
      }
    }
  }

  /** A run that reaches such a state: an image is uploaded and assigned, and the first report of the
      device names the assignment both ways. */
  lemma NotIdempotent(board: Text, digest: Digest, epoch: Text, now: Seconds)
      returns (ops: seq<Op>, r: OtaStore.Report)
    ensures PendingAndFinished(Run(ops), r) && !Idempotent(Run(ops), r, now)
  {
    hide Step, Idempotent, RunFrom, QueueingRun;
    ops := QueueingRun(board, digest);
    QueuedRun(board, digest);
    r := OtaStore.Report(board, "", Some(OtaState(digest, digest, Some(""), true, Some(Server), Some(""), Some(Confirmed))),
                         true, epoch);
    DecideTwice(Run(ops), r, now);
  }

  lemma WithoutStateTwice(job: Job, changed: bool, boardIdle: bool, now: Seconds)
    ensures var (next, decision) := DecideJob(job, None, changed, boardIdle, now);
            DecideJob(next, None, false, boardIdle, now) == (next, decision) && next.phase == job.phase
  {
    hide AlreadyActiveError, NoStateError;
  }

  lemma TrialThenSuccess(job: Job, ota: OtaState, changed: bool, boardIdle: bool, now: Seconds)
    requires !job.phase.IsTerminal() && job.phase != Confirming && ota.trial && RunsTrialOf(ota, job.updateId, job.image)
    requires FinishedToo(job, ota)
    ensures var (next, decision) := DecideJob(job, Some(ota), changed, boardIdle, now);
            next.phase == Confirming && decision == Confirm(job.updateId)
            && DecideJob(next, Some(ota), false, boardIdle, now).0.phase == Succeeded
  {
    hide AlreadyActiveError, NoStateError;
  }

  // ---------- The way to success ----------

  /** A device that has room for the image gets it: nothing pending, board idle, another image active. */
  predicate Ready(ota: OtaState, job: Job) {
    !Unfinished(ota) && ota.lastUpdateId != Some(job.updateId) && ota.activeSha256 != job.image.sha256
  }

  lemma ReadyIsSent(job: Job, ota: OtaState, changed: bool, now: Seconds)
    requires job.phase == Queued && job.nextDeliveryAt == None && !job.waitingForDeviceChange && Ready(ota, job)
    ensures var next := Settled(job.(phase := Downloading, error := None));
            DecideJob(job, Some(ota), changed, true, now) == (next, Update(next))
  {
    hide AlreadyActiveError, NoStateError, RunsTrialOf;
  }

  lemma TrialIsConfirmed(job: Job, ota: OtaState, changed: bool, now: Seconds)
    requires job.phase == Downloading && TrialMatches(Some(ota), job) && ota.lastUpdateId != Some(job.updateId)
    ensures DecideJob(job, Some(ota), changed, true, now)
            == (Settled(job.(phase := Confirming, error := None)), Confirm(job.updateId))
  {
    hide RunsTrialOf, Deliver, Concluded, Unfinished, NoStateError;
    assert Concluded(Awaken(job, changed), ota) == Awaken(job, changed) by {
      NotNamed(Awaken(job, changed), ota);
    }
  }

  lemma NotNamed(job: Job, ota: OtaState)
    requires ota.lastUpdateId != Some(job.updateId)
    ensures Concluded(job, ota) == job
  {}

  lemma DoneSucceeds(job: Job, ota: OtaState, changed: bool, now: Seconds)
    requires job.phase == Confirming && ota.lastUpdateId == Some(job.updateId) && ota.lastOutcome == Some(Confirmed)
    requires ota.activeSha256 == job.image.sha256
    ensures DecideJob(job, Some(ota), changed, true, now).0 == Settled(job.(phase := Succeeded))
  {
    hide RunsTrialOf, Deliver, AlreadyActiveError, NoStateError, Unfinished;
    assert Concluded(Awaken(job, changed), ota) == Awaken(job, changed).(phase := Succeeded);
  }

  /** Wherever the image can be queued, an assignment whose device takes the image, boots it as the
      server's trial and then reports it confirmed, succeeds, whenever these reports come. */
  lemma AssignmentCanSucceed(s: Store, board: Text, mac: Text, digest: Digest, id: Text, epochs: (Text, Text, Text),
      ready: OtaState, trial: OtaState, done: OtaState, times: (Seconds, Seconds, Seconds))
    requires Queueable(s, board, mac, digest)
    requires Ready(ready, Job(board, mac, id, s.catalog[digest], Queued, None, 0, None, false))
    requires trial.trial && RunsTrialOf(trial, id, s.catalog[digest]) && trial.lastUpdateId != Some(id)
    requires done.lastUpdateId == Some(id) && done.lastOutcome == Some(Confirmed)
             && done.activeSha256 == s.catalog[digest].sha256
    ensures var queued := OpQueue(board, mac, digest, id, WRITABLE);
            var sent := OpDecide(OtaStore.Report(board, mac, Some(ready), true, epochs.0), times.0, WRITABLE);
            var tried := OpDecide(OtaStore.Report(board, mac, Some(trial), true, epochs.1), times.1, WRITABLE);
            var finished := OpDecide(OtaStore.Report(board, mac, Some(done), true, epochs.2), times.2, WRITABLE);
            && Sends(RunFrom(s, [queued]), sent, board, id)
            && board in RunFrom(s, [queued, sent, tried, finished]).jobs
            && RunFrom(s, [queued, sent, tried, finished]).jobs[board].phase == Succeeded
  {
    hide DecideJob, Decide, RunsTrialOf, Unfinished, Changes, RunFrom, Ready;
    var queued := OpQueue(board, mac, digest, id, WRITABLE);
    var sent := OpDecide(OtaStore.Report(board, mac, Some(ready), true, epochs.0), times.0, WRITABLE);
    var tried := OpDecide(OtaStore.Report(board, mac, Some(trial), true, epochs.1), times.1, WRITABLE);
    var finished := OpDecide(OtaStore.Report(board, mac, Some(done), true, epochs.2), times.2, WRITABLE);
    RunFourSteps(s, queued, sent, tried, finished);
    var s1 := Step(s, queued);
    var job := s1.jobs[board];
    ReadyIsSent(job, ready, Changes(s1, sent.report), times.0);
    var s2 := Step(s1, sent);
    DecidesTo(s1, sent.report, times.0);
    var s3 := Step(s2, tried);
    TrialIsConfirmed(s2.jobs[board], trial, Changes(s2, tried.report), times.1);
    DecidesTo(s2, tried.report, times.1);
    DoneSucceeds(s3.jobs[board], done, Changes(s3, finished.report), times.2);
    DecidesTo(s3, finished.report, times.2);
  }

  /** The store ends up with the job that the decision makes of it. */
  lemma DecidesTo(s: Store, r: OtaStore.Report, now: Seconds)
    requires r.board in s.jobs && s.jobs[r.board].mac == r.mac && !s.jobs[r.board].phase.IsTerminal()
    ensures var (t, answer) := Decide(s, r, now, WRITABLE);
            var (next, decision) := DecideJob(s.jobs[r.board], r.ota, Changes(s, r), r.boardIdle, now);
            r.board in t.jobs && t.jobs[r.board] == next && answer == Answered(decision)
  {
    hide DecideJob;
  }

  lemma RunFourSteps(s: Store, a: Op, b: Op, c: Op, d: Op)
    ensures RunFrom(s, [a]) == Step(s, a)
    ensures RunFrom(s, [a, b, c, d]) == Step(Step(Step(Step(s, a), b), c), d)
  {
    hide Step;
    assert [a][..0] == [];
    assert [a, b][..1] == [a] && [a, b, c][..2] == [a, b] && [a, b, c, d][..3] == [a, b, c];
    assert RunFrom(s, []) == s;
    assert RunFrom(s, [a]) == Step(RunFrom(s, []), a);
    assert RunFrom(s, [a, b]) == Step(RunFrom(s, [a]), b);
    assert RunFrom(s, [a, b, c]) == Step(RunFrom(s, [a, b]), c);
  }
}
