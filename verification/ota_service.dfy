/** The assignment store as one object: what each call promises its caller, and the object driven through
    any run of calls.
  */
module OtaService {
  import opened Options
  import opened OtaStore
  import opened OtaRuns
  import opened OtaAnswers

  /** A call about a board leaves all other boards, the files and the catalog alone. */
  predicate OnlyAbout(s: Store, t: Store, board: Text) {
    && t == s.(jobs := t.jobs, observations := t.observations)
    && t.jobs - {board} == s.jobs - {board}
    && t.observations - {board} == s.observations - {board}
  }

  /** The job of a board is the same assignment, as far or further on. */
  predicate MovesOn(s: Store, t: Store, board: Text) {
    board in s.jobs ==> board in t.jobs && Advances(s.jobs[board], t.jobs[board])
  }

  /** What every call but queueing keeps: the images, the other boards, and what its own has reached. */
  predicate KeepsRest(s: Store, t: Store, board: Text) {
    OnlyAbout(s, t, board) && MovesOn(s, t, board) && (Secure(s) ==> Secure(t))
  }

  lemma OnlyItsBoard(s: Store, op: Op, board: Text)
    requires Board(op) == Some(board)
    ensures OnlyAbout(s, Step(s, op), board)
  {
    hide Step;
    var t := Step(s, op);
    JobsOnly(s, op);
    forall b | b != board
      ensures (b in t.jobs) == (b in s.jobs) && (b in s.jobs ==> t.jobs[b] == s.jobs[b])
      ensures (b in t.observations) == (b in s.observations)
      ensures b in s.observations ==> t.observations[b] == s.observations[b]
    {
      Untouched(s, op, b);
    }
    assert t.jobs - {board} == s.jobs - {board};
    assert t.observations - {board} == s.observations - {board};
  }

  lemma CallKeeps(s: Store, op: Op, board: Text)
    requires Board(op) == Some(board) && !op.OpQueue?
    ensures KeepsRest(s, Step(s, op), board)
  {
    hide Step, Advances, Secure, OnlyAbout;
    OnlyItsBoard(s, op, board);
    if board in s.jobs {
      JobAdvances(s, op, board);
    }
    if Secure(s) {
      SecureStep(s, op);
    }
  }

  lemma QueueIsStep(s: Store, board: Text, mac: Text, digest: Digest, id: Text, disk: Disk)
    ensures Step(s, OpQueue(board, mac, digest, id, disk)) == Queue(s, board, mac, digest, id, disk).0
  {
    hide Queue;
  }

  lemma CancelKeeps(s: Store, board: Text, id: Text, disk: Disk)
    ensures KeepsRest(s, Cancel(s, board, id, disk).0, board)
  {
    hide Cancel, KeepsRest;
    CallKeeps(s, OpCancel(board, id, disk), board);
  }

  lemma DecideKeeps(s: Store, r: OtaStore.Report, now: Seconds, disk: Disk)
    ensures KeepsRest(s, Decide(s, r, now, disk).0, r.board)
  {
    hide Decide, KeepsRest;
    CallKeeps(s, OpDecide(r, now, disk), r.board);
  }

  lemma ReportKeeps(s: Store, r: LoaderReport, disk: Disk)
    ensures KeepsRest(s, AcceptReport(s, r, disk).0, r.board)
  {
    hide AcceptReport, KeepsRest;
    CallKeeps(s, OpReport(r, disk), r.board);
  }

  lemma FailureKeeps(s: Store, r: FailureReport, now: Seconds, disk: Disk)
    ensures KeepsRest(s, RecordFailure(s, r, now, disk).0, r.board)
  {
    hide RecordFailure, KeepsRest;
    CallKeeps(s, OpFail(r, now, disk), r.board);
  }

  /** Queueing keeps the images, and what it promises to send is there. */
  lemma QueueSecures(s: Store, board: Text, mac: Text, digest: Digest, id: Text, disk: Disk)
    requires Secure(s)
    ensures var (t, answer) := Queue(s, board, mac, digest, id, disk);
            Secure(t) && (answer.Answered? ==> digest in t.imageFiles && digest in t.metadataFiles)
  {
    hide Step;
    QueueIsStep(s, board, mac, digest, id, disk);
    SecureStep(s, OpQueue(board, mac, digest, id, disk));
  }

  /** An answered report is of the observed boot and has its phase; success needs the observed trial. */
  lemma ReportMeans(s: Store, r: LoaderReport, disk: Disk)
    ensures var (t, answer) := AcceptReport(s, r, disk);
            answer.Answered? ==>
            && r.board in s.jobs && r.board in t.jobs && r.board in s.observations
            && t.jobs[r.board].updateId == r.updateId && t.jobs[r.board].phase == r.phase
            && s.observations[r.board].epoch == r.epoch && s.observations[r.board].mac == s.jobs[r.board].mac
            && (r.phase == Succeeded && s.jobs[r.board].phase != Succeeded ==>
                  s.jobs[r.board].phase == Confirming && r.active == Some(s.jobs[r.board].image.sha256)
                  && TrialMatches(s.observations[r.board].state, s.jobs[r.board]))
  {
    hide TrialMatches;
  }

  lemma WritingKeeps(s: Store, image: Image, r: FileResult)
    requires Secure(s)
    ensures Secure(BeginPut(s, image)) && Secure(PutImageFile(s, r)) && Secure(PutMetadataFile(s, r))
    ensures s.lock.WritingMetadata? ==> s.lock.image.sha256 in s.imageFiles
  {
    hide Step;
    WritingSteps(s, image, r);
    SecureStep(s, OpBeginPut(image));
    SecureStep(s, OpPutImage(r));
    SecureStep(s, OpPutMetadata(r));
  }

  lemma WritingSteps(s: Store, image: Image, r: FileResult)
    ensures Step(s, OpBeginPut(image)) == BeginPut(s, image)
    ensures Step(s, OpPutImage(r)) == PutImageFile(s, r)
    ensures Step(s, OpPutMetadata(r)) == PutMetadataFile(s, r)
  {
    hide BeginPut, PutImageFile, PutMetadataFile;
    hide Queue, Cancel, Decide, AcceptReport, RecordFailure, BeginDelete, DeleteMetadataFile, DeleteImageFile, EndDelete;
    hide Abandon, GoOn;
  }

  lemma RemovingKeeps(s: Store, digest: Digest, r: FileResult, readable: bool)
    requires Secure(s)
    ensures Secure(BeginDelete(s, digest).0) && Secure(DeleteMetadataFile(s, r)) && Secure(DeleteImageFile(s, r))
    ensures Secure(EndDelete(s, readable))
  {
    hide Step, Secure, BeginDelete, DeleteMetadataFile, DeleteImageFile, EndDelete;
    RemovingSteps(s, digest, r, readable);
    SecureStep(s, OpBeginDelete(digest));
    SecureStep(s, OpDeleteMetadata(r));
    SecureStep(s, OpDeleteImage(r));
    SecureStep(s, OpEndDelete(readable));
  }

  lemma RemovingSteps(s: Store, digest: Digest, r: FileResult, readable: bool)
    ensures Step(s, OpBeginDelete(digest)) == BeginDelete(s, digest).0
    ensures Step(s, OpDeleteMetadata(r)) == DeleteMetadataFile(s, r)
    ensures Step(s, OpDeleteImage(r)) == DeleteImageFile(s, r)
    ensures Step(s, OpEndDelete(readable)) == EndDelete(s, readable)
  {
    hide BeginDelete, DeleteMetadataFile, DeleteImageFile, EndDelete;
    hide Queue, Cancel, Decide, AcceptReport, RecordFailure, BeginPut, PutImageFile, PutMetadataFile, Abandon, GoOn;
  }

  lemma WorkKeeps(s: Store, k: nat, r: FileResult)
    requires Secure(s)
    ensures Secure(GoOn(s, k, r))
  {
    hide Secure, GoOn;
    SecureStep(s, OpGoOn(k, r));
  }

  lemma NothingSentNext(s: Store, board: Text, id: Text)
    requires board in s.jobs && (s.jobs[board].updateId == id ==> s.jobs[board].phase.IsTerminal())
    ensures forall op :: !Sends(s, op, board, id)
  {
    hide Sends;
    forall op ensures !Sends(s, op, board, id) {
      if Sends(s, op, board, id) {
        SendsOnlyEarly(s, op, board, id);
      }
    }
  }

  /** Whether a file step is what comes next for whoever has the catalog, or for abandoned work. */
  predicate InTurn(s: Store, op: Op) {
    match op
    case OpPutImage(_) => s.lock.WritingImage?
    case OpPutMetadata(_) => s.lock.WritingMetadata?
    case OpDeleteMetadata(_) => s.lock.RemovingMetadata?
    case OpDeleteImage(_) => s.lock.RemovingImage?
    case OpEndDelete(_) => s.lock.Removed?
    case OpGoOn(work, _) => work < |s.abandoned|
    case _ => true
  }

  /** File steps out of turn change nothing. */
  lemma OutOfTurn(s: Store, op: Op)
    requires !InTurn(s, op)
    ensures Step(s, op) == s
  {
    hide Queue, Cancel, Decide, AcceptReport, RecordFailure;
  }

  class OtaFiles {
    var catalog: map<Digest, Image>
    var observations: map<Text, Observation>
    var jobs: map<Text, Job>
    var imageFiles: set<Digest>
    var metadataFiles: set<Digest>
    var lock: CatalogLock
    var abandoned: seq<CatalogLock>

    function View(): Store
      reads this
    {
      Store(catalog, observations, jobs, imageFiles, metadataFiles, lock, abandoned)
    }

    constructor ()
      ensures View() == Initial()
    {
      catalog, observations, jobs, imageFiles, metadataFiles := map[], map[], map[], {}, {};
      lock, abandoned := Free, [];
    }

    /** Answered exactly if the image can be queued; then its files are there, and no unfinished job was
        replaced. */
    method QueueJob(board: Text, mac: Text, digest: Digest, updateId: Text, disk: Disk) returns (answer: Answer<Job>)
      modifies this`jobs
      ensures (View(), answer) == Queue(old(View()), board, mac, digest, updateId, disk)
      ensures answer.Answered? <==> CanQueue(old(View()), board, mac, digest) && disk.jobs
      ensures forall why :: answer == Refused(why) <==> QueueRefused(old(View()), board, mac, digest, disk, why)
      ensures answer.Answered? ==>
                && jobs == old(jobs)[board := answer.value]
                && answer.value == Job(board, mac, updateId, catalog[digest], Queued, None, 0, None, false)
      ensures answer.Answered? && board in old(jobs) ==> old(jobs)[board].phase.IsTerminal()
      ensures answer.Refused? ==> View() == old(View())
      ensures Secure(old(View())) ==>
                Secure(View()) && (answer.Answered? ==> digest in imageFiles && digest in metadataFiles)
    {
      hide Secure, CanQueue, QueueRefused;
      ghost var s := View();
      forall why { QueueRefusals(s, board, mac, digest, updateId, disk, why); }
      QueueableMeans(s, board, mac, digest);
      if Secure(s) {
        QueueSecures(s, board, mac, digest, updateId, disk);
      }
      if lock != Free {
        return Refused(Locked);
      }
      if digest !in catalog {
        return Refused(MissingImage);
      }
      var image := catalog[digest];
      if board in jobs && !jobs[board].phase.IsTerminal() {
        return Refused(Occupied);
      }
      if board in observations && observations[board].mac == mac && observations[board].state.Some? {
        var state := observations[board].state.value;
        if state.trial || state.pendingUpdateId.Some? {
          return Refused(UnconfirmedTrial);
        }
        if state.activeSha256 == image.sha256 {
          return Refused(AlreadyActive);
        }
      }
      if !disk.jobs {
        return Refused(Io);
      }
      var job := Job(board, mac, updateId, image, Queued, None, 0, None, false);
      jobs := jobs[board := job];
      answer := Answered(job);
    }

    /** Answered exactly for the present, unfinished assignment; nothing is sent for it any more. */
    method CancelJob(board: Text, updateId: Text, disk: Disk) returns (answer: Answer<Job>)
      modifies this`jobs, this`observations
      ensures (View(), answer) == Cancel(old(View()), board, updateId, disk)
      ensures answer.Answered? <==>
                board in old(jobs) && old(jobs)[board].updateId == updateId && !old(jobs)[board].phase.IsTerminal()
                && disk.observations && disk.jobs
      ensures answer.Answered? ==>
                && jobs == old(jobs)[board := answer.value] && observations == old(observations) - {board}
                && answer.value == old(jobs)[board].(phase := Cancelled, error := None, nextDeliveryAt := None,
                                                     waitingForDeviceChange := false)
      ensures forall why :: answer == Refused(why) <==> CancelRefused(old(View()), board, updateId, disk, why)
      ensures answer.Answered? ==> forall op :: !Sends(View(), op, board, updateId)
      ensures answer.Refused? ==> View() == old(View())
      ensures KeepsRest(old(View()), View(), board)
    {
      hide KeepsRest, Sends, CancelRefused;
      ghost var s := View();
      forall why { CancelRefusals(s, board, updateId, disk, why); }
      CancelKeeps(s, board, updateId, disk);
      if board !in jobs {
        return Refused(NoJob);
      }
      var job := jobs[board];
      if job.updateId != updateId || job.phase.IsTerminal() {
        return Refused(Finished);
      }
      job := job.(phase := Cancelled);
      job := job.(error := None);
      job := job.(nextDeliveryAt := None);
      job := job.(waitingForDeviceChange := false);
      if !disk.observations {
        return Refused(Io);
      }
      if !disk.jobs {
        return Refused(Io);
      }
      observations := observations - {board};
      jobs := jobs[board := job];
      answer := Answered(job);
      NothingSentNext(View(), board, updateId);
    }

    /** The last outcome a device reports ends the job it names, and touches no other. */
    method Conclude(previous: Job, ota: OtaState) returns (job: Job)
      ensures job == Concluded(previous, ota)
      ensures job.phase != previous.phase ==> ota.lastUpdateId == Some(previous.updateId) && job.phase.IsTerminal()
      ensures job == previous.(phase := job.phase)
    {
      job := previous;
      if ota.lastUpdateId == Some(job.updateId) {
        if ota.lastOutcome == Some(Confirmed) {
          if job.phase == Confirming && ota.activeSha256 == job.image.sha256 {
            job := job.(phase := Succeeded);
          }
        } else if ota.lastOutcome == Some(OutcomeRolledBack) {
          job := job.(phase := RolledBack);
        } else if ota.lastOutcome == Some(OutcomeFailed) {
          job := job.(phase := Failed);
        }
      }
    }

    /** The decision for a job that can still change, from a device that reports its state. */
    method DecideWithState(previous: Job, ota: OtaState, changed: bool, boardIdle: bool, now: Seconds)
        returns (job: Job, decision: Decision)
      ensures (job, decision) == DecideJob(previous, Some(ota), changed, boardIdle, now)
    {
      hide Unfinished, Concluded, RunsTrialOf, Deliver;
      job := previous;
      if changed {
        job := job.(waitingForDeviceChange := false);
      }
      job := Conclude(job, ota);
      if job.phase.IsTerminal() {
        job := job.(nextDeliveryAt := None, waitingForDeviceChange := false);
        decision := if Unfinished(ota) then Wait else Idle;
      } else if ota.trial {
        if RunsTrialOf(ota, job.updateId, job.image) {
          job := job.(phase := Confirming, error := None, nextDeliveryAt := None, waitingForDeviceChange := false);
          decision := Confirm(job.updateId);
        } else {
          decision := Wait;
        }
      } else if ota.pendingUpdateId.Some? {
        if ota.pendingUpdateId == Some(job.updateId) {
          job := job.(phase := Staged, error := None, nextDeliveryAt := None, waitingForDeviceChange := false);
        }
        decision := Wait;
      } else {
        job, decision := DeliverNow(job, ota, changed, boardIdle, now);
      }
    }

    method DeliverNow(previous: Job, ota: OtaState, changed: bool, boardIdle: bool, now: Seconds)
        returns (job: Job, decision: Decision)
      ensures (job, decision) == Deliver(previous, ota, changed, boardIdle, now)
    {
      hide AlreadyActiveError;
      job := previous;
      if !boardIdle {
        decision := Idle;
      } else if ota.activeSha256 == job.image.sha256 {
        job := job.(phase := Failed, error := Some(AlreadyActiveError()));
        job := job.(nextDeliveryAt := None, waitingForDeviceChange := false);
        decision := Idle;
      } else if (job.waitingForDeviceChange && !changed)
                || (job.nextDeliveryAt.Some? && now < job.nextDeliveryAt.value) {
        decision := Wait;
      } else if job.phase == Queued || job.phase == Downloading {
        job := job.(phase := Downloading, error := None, nextDeliveryAt := None, waitingForDeviceChange := false);
        decision := Update(job);
      } else {
        decision := Wait;
      }
    }

    method DecideForJob(previous: Job, ota: Option<OtaState>, changed: bool, boardIdle: bool, now: Seconds)
        returns (job: Job, decision: Decision)
      ensures (job, decision) == DecideJob(previous, ota, changed, boardIdle, now)
    {
      hide WithState, NoStateError;
      if ota.Some? {
        job, decision := DecideWithState(previous, ota.value, changed, boardIdle, now);
      } else {
        job, decision := previous, Idle;
        if job.error == None {
          job := job.(error := Some(NoStateError()));
        }
        job := job.(waitingForDeviceChange := true, nextDeliveryAt := None);
      }
    }

    /** Answered exactly if what changes can be written; and then the report is stored, the job is what the report
        makes of it, and the device is told what follows. The image is handed out exactly if it is deliverable,
        and the trial is to be confirmed exactly if it is the assigned one. */
    method DecideNow(r: Report, now: Seconds, disk: Disk) returns (answer: Answer<Decision>)
      modifies this`observations, this`jobs
      ensures (View(), answer) == Decide(old(View()), r, now, disk)
      ensures answer.Answered? <==> CanDecide(old(View()), r, now, disk)
      ensures answer.Answered? ==> DecidedAs(old(View()), r, now, View(), answer.value)
      ensures answer.Refused? ==> jobs == old(jobs)
      ensures answer.Answered? && answer.value.Update? <==>
                Deliverable(old(View()), r, now) && Writable(old(View()), r, disk, Downloading)
      ensures answer.Answered? && answer.value.Confirm? <==>
                Confirmable(old(View()), r) && Writable(old(View()), r, disk, Confirming)
      ensures answer.Answered? && answer.value.Update? ==>
                r.board in jobs && jobs[r.board] == answer.value.job && jobs[r.board].phase == Downloading
      ensures answer.Answered? && answer.value.Confirm? ==> r.board in jobs && jobs[r.board].phase == Confirming
      ensures KeepsRest(old(View()), View(), r.board)
    {
      hide DecideJob, Unfinished, KeepsRest, Deliverable, Confirmable, Writable, DecidedAs, CanDecide;
      ghost var s := View();
      DecideMeans(s, r, now, disk);
      DecideKeeps(s, r, now, disk);
      SentExactly(s, r, now, disk);
      ConfirmedExactly(s, r, now, disk);
      var changed := r.board !in observations || observations[r.board] != Observation(r.mac, r.ota, r.epoch);
      if changed {
        if !disk.observations {
          return Refused(Io);
        }
        observations := observations[r.board := Observation(r.mac, r.ota, r.epoch)];
      }
      var unfinished := r.ota.Some? && Unfinished(r.ota.value);
      if r.board !in jobs {
        return Answered(if unfinished then Wait else Idle);
      }
      var previous := jobs[r.board];
      if previous.mac != r.mac {
        return Answered(Wait);
      }
      if previous.phase.IsTerminal() {
        return Answered(if unfinished then Wait else Idle);
      }
      var job, decision := DecideForJob(previous, r.ota, changed, r.boardIdle, now);
      if job != previous {
        if !disk.jobs {
          return Refused(Io);
        }
        jobs := jobs[r.board := job];
      }
      answer := Answered(decision);
    }

    /** Accepted exactly if it is believable and what it changes can be written; an accepted report is of the
        observed boot and leaves its phase, and success needs the observed trial. */
    method ReportPhase(r: LoaderReport, disk: Disk) returns (answer: Answer<()>)
      modifies this`jobs
      ensures (View(), answer) == AcceptReport(old(View()), r, disk)
      ensures answer.Answered? <==>
                Believable(old(View()), r) && (JobReported(old(jobs)[r.board], r, old(jobs)[r.board]) || disk.jobs)
      ensures forall why :: answer == Refused(why) <==> ReportRefused(old(View()), r, disk, why)
      ensures answer.Answered? ==>
                r.board in jobs && jobs == old(jobs)[r.board := jobs[r.board]]
                && JobReported(old(jobs)[r.board], r, jobs[r.board])
      ensures answer.Answered? ==>
                && r.board in jobs && jobs[r.board].updateId == r.updateId && jobs[r.board].phase == r.phase
                && r.board in observations && observations[r.board].epoch == r.epoch
                && observations[r.board].mac == jobs[r.board].mac
      ensures answer.Answered? && r.phase == Succeeded && old(jobs)[r.board].phase != Succeeded ==>
                old(jobs)[r.board].phase == Confirming && r.active == Some(jobs[r.board].image.sha256)
                && TrialMatches(observations[r.board].state, old(jobs)[r.board])
      ensures answer.Refused? ==> View() == old(View())
      ensures KeepsRest(old(View()), View(), r.board)
    {
      hide Reportable, Follows, TrialMatches, KeepsRest, Believable, JobReported, ReportRefused;
      ghost var s := View();
      forall why { ReportRefusals(s, r, disk, why); }
      ReportExactly(s, r, disk);
      ReportKeeps(s, r, disk);
      ReportMeans(s, r, disk);
      if r.board !in jobs {
        return Refused(NoJob);
      }
      var job := jobs[r.board];
      if job.updateId != r.updateId {
        return Refused(StaleUpdate);
      }
      if r.board !in observations {
        return Refused(NotObserved);
      }
      var seen := observations[r.board];
      if seen.mac != job.mac || seen.epoch != r.epoch || seen.state == None {
        return Refused(StaleEpoch);
      }
      if !Reportable(r.phase) {
        return Refused(InvalidPhase);
      }
      if job.phase.IsTerminal() {
        return if job.phase == r.phase then Answered(()) else Refused(Finished);
      }
      if job.phase == r.phase {
        if job.error != r.error {
          if !disk.jobs {
            return Refused(Io);
          }
          jobs := jobs[r.board := job.(error := r.error)];
        }
        return Answered(());
      }
      if !Follows(job.phase, r.phase) {
        return Refused(InvalidTransition);
      }
      if r.phase == Succeeded {
        if !TrialMatches(seen.state, job) || r.active != Some(job.image.sha256) {
          return Refused(TrialMismatch);
        }
      }
      job := job.(phase := r.phase, error := r.error);
      if r.phase != Downloading {
        job := job.(nextDeliveryAt := None, waitingForDeviceChange := false);
      }
      if !disk.jobs {
        return Refused(Io);
      }
      jobs := jobs[r.board := job];
      answer := Answered(());
    }

    /** Recorded exactly for the present assignment before it is staged. A recorded failure ends it, or leaves it
        downloading with exactly one thing to wait for: a change of the device, or a later time. */
    method RecordDeliveryFailure(r: FailureReport, now: Seconds, disk: Disk) returns (answer: Answer<Job>)
      modifies this`jobs
      ensures (View(), answer) == RecordFailure(old(View()), r, now, disk)
      ensures answer.Answered? <==>
                Recent(old(View()), r) && (!Unended(old(jobs)[r.board].phase)
                                           || (old(jobs)[r.board].phase in {Queued, Downloading} && disk.jobs))
      ensures forall why :: answer == Refused(why) <==> FailureRefused(old(View()), r, disk, why)
      ensures answer.Answered? ==>
                if Unended(old(jobs)[r.board].phase)
                then jobs == old(jobs)[r.board := answer.value]
                     && JobFailing(old(jobs)[r.board], r.failure, now, answer.value)
                else jobs == old(jobs)
      ensures answer.Answered? ==> r.board in jobs && jobs[r.board] == answer.value && WaitsForOne(answer.value, r.failure, now)
      ensures answer.Refused? ==> View() == old(View())
      ensures KeepsRest(old(View()), View(), r.board)
    {
      hide KeepsRest, FailedJob, WaitsForOne, JobFailing, Recent, FailureRefused;
      ghost var s := View();
      forall why { FailureRefusals(s, r, now, disk, why); }
      FailureExactly(s, r, now, disk);
      FailureKeeps(s, r, now, disk);
      FailureWaits(s, r, now, disk);
      if r.board !in observations || observations[r.board].mac != r.mac || observations[r.board].epoch != r.epoch {
        return Refused(StaleEpoch);
      }
      if r.board !in jobs {
        return Refused(NoJob);
      }
      var job := jobs[r.board];
      if job.mac != r.mac || job.updateId != r.updateId {
        return Refused(StaleUpdate);
      }
      if job.phase.IsTerminal() {
        return Answered(job);
      }
      if job.phase != Queued && job.phase != Downloading {
        return Refused(NotAccepting);
      }
      job := Fail(job, r.failure, now);
      if !disk.jobs {
        return Refused(Io);
      }
      jobs := jobs[r.board := job];
      answer := Answered(job);
    }

    method Fail(previous: Job, failure: DeliveryFailure, now: Seconds) returns (job: Job)
      ensures job == FailedJob(previous, failure, now)
    {
      job := previous.(nextDeliveryAt := None, waitingForDeviceChange := false);
      match failure
      case Rejected(reason) =>
        job := job.(phase := Failed, error := Some(reason));
      case Conflict(reason) =>
        job := job.(phase := Downloading, error := Some(reason));
        job := job.(nextDeliveryAt := Some(now + DELIVERY_RETRY_SECONDS));
      case Unavailable(reason) =>
        job := job.(phase := Downloading, error := Some(reason));
        job := job.(waitingForDeviceChange := true);
      case Retryable(reason) =>
        job := job.(deliveryAttempts := if job.deliveryAttempts < 255 then job.deliveryAttempts + 1 else 255);
        job := job.(error := Some(reason));
        if job.deliveryAttempts >= MAX_DELIVERY_ATTEMPTS {
          job := job.(phase := Failed);
        } else {
          job := job.(phase := Downloading);
          job := job.(nextDeliveryAt := Some(now + DELIVERY_RETRY_SECONDS * job.deliveryAttempts));
        }
    }

    method StartPut(image: Image) returns (locked: bool)
      modifies this`lock
      ensures View() == BeginPut(old(View()), image) && locked == (old(lock) == Free)
      ensures Secure(old(View())) ==> Secure(View())
    {
      hide Secure;
      if Secure(View()) {
        WritingKeeps(View(), image, FileResult(false, false));
      }
      locked := lock == Free;
      if locked {
        lock := WritingImage(image);
      }
    }

    method WriteImageFile(r: FileResult)
      requires lock.WritingImage?
      modifies this`imageFiles, this`lock
      ensures View() == PutImageFile(old(View()), r)
      ensures Secure(old(View())) ==> Secure(View())
    {
      hide Secure;
      if Secure(View()) {
        WritingKeeps(View(), lock.image, r);
      }
      if r.done || r.ok {
        imageFiles := imageFiles + {lock.image.sha256};
      }
      lock := if r.ok then WritingMetadata(lock.image) else Free;
    }

    /** The image becomes assignable exactly if the write succeeded, and then both files are there. */
    method WriteMetadataFile(r: FileResult)
      requires lock.WritingMetadata?
      modifies this`metadataFiles, this`catalog, this`lock
      ensures View() == PutMetadataFile(old(View()), r)
      ensures !r.ok ==> catalog == old(catalog)
      ensures Secure(old(View())) ==> Secure(View())
      ensures Secure(old(View())) && r.ok ==>
                var image := old(lock).image;
                image.sha256 in catalog && catalog[image.sha256] == image
                && image.sha256 in imageFiles && image.sha256 in metadataFiles
    {
      hide Secure;
      if Secure(View()) {
        WritingKeeps(View(), lock.image, r);
      }
      var image := lock.image;
      if r.done || r.ok {
        metadataFiles := metadataFiles + {image.sha256};
      }
      if r.ok {
        catalog := catalog[image.sha256 := image];
      }
      lock := Free;
    }

    /** Answered exactly if the catalog is free and no unfinished job needs the image; then no image can be
        queued until the catalog is free again. */
    method StartDelete(digest: Digest) returns (answer: Answer<()>)
      modifies this`lock
      ensures (View(), answer) == BeginDelete(old(View()), digest)
      ensures answer.Answered? <==> old(lock) == Free && !IsReferenced(old(View()), digest)
      ensures answer == Refused(Locked) <==> old(lock) != Free
      ensures answer == Refused(InUse) <==> old(lock) == Free && IsReferenced(old(View()), digest)
      ensures answer.Answered? ==> forall board, mac, d :: !Queueable(View(), board, mac, d)
      ensures answer.Refused? ==> View() == old(View())
      ensures Secure(old(View())) ==> Secure(View())
    {
      hide Secure;
      if Secure(View()) {
        RemovingKeeps(View(), digest, FileResult(false, false), false);
      }
      if lock != Free {
        return Refused(Locked);
      }
      if exists b :: b in jobs && jobs[b].image.sha256 == digest && !jobs[b].phase.IsTerminal() {
        return Refused(InUse);
      }
      lock := RemovingMetadata(digest);
      answer := Answered(());
    }

    method RemoveMetadataFile(r: FileResult)
      requires lock.RemovingMetadata?
      modifies this`metadataFiles, this`lock
      ensures View() == DeleteMetadataFile(old(View()), r)
      ensures Secure(old(View())) ==> Secure(View())
    {
      hide Secure;
      if Secure(View()) {
        RemovingKeeps(View(), lock.digest, r, false);
      }
      var digest := lock.digest;
      if digest !in metadataFiles && digest !in imageFiles {
        lock := Removed(digest);
        return;
      }
      if r.done || r.ok {
        metadataFiles := metadataFiles - {digest};
      }
      lock := if r.ok then RemovingImage(digest) else Removed(digest);
    }

    method RemoveImageFile(r: FileResult)
      requires lock.RemovingImage?
      modifies this`imageFiles, this`lock
      ensures View() == DeleteImageFile(old(View()), r)
      ensures Secure(old(View())) ==> Secure(View())
    {
      hide Secure;
      if Secure(View()) {
        RemovingKeeps(View(), lock.digest, r, false);
      }
      var digest := lock.digest;
      if r.done || r.ok {
        imageFiles := imageFiles - {digest};
      }
      lock := Removed(digest);
    }

    /** Only this image can leave the catalog, and it stays only with both its files. */
    method FinishDelete(readable: bool)
      requires lock.Removed?
      modifies this`catalog, this`lock
      ensures View() == EndDelete(old(View()), readable)
      ensures catalog - {old(lock).digest} == old(catalog) - {old(lock).digest}
      ensures old(lock).digest in catalog ==>
                old(lock).digest in old(catalog) && old(lock).digest in imageFiles && old(lock).digest in metadataFiles
      ensures Secure(old(View())) ==> Secure(View())
    {
      hide Secure;
      if Secure(View()) {
        RemovingKeeps(View(), lock.digest, FileResult(false, false), readable);
      }
      var digest := lock.digest;
      var stillValid := readable && digest in metadataFiles && digest in imageFiles;
      if !stillValid {
        catalog := catalog - {digest};
      }
      lock := Free;
    }

    /** The caller that has the catalog goes away. The images stay secure exactly if it does no harm. */
    method LoseCaller()
      modifies this`lock, this`abandoned
      ensures View() == Abandon(old(View()))
      ensures lock == Free
              && abandoned == old(abandoned) + (if old(lock) == Free || old(lock).Removed? then [] else [old(lock)])
      ensures Secure(old(View())) ==> (Secure(View()) <==> !Harmful(old(View())))
    {
      if lock != Free && !lock.Removed? {
        abandoned := abandoned + [lock];
      }
      lock := Free;
    }

    /** Work without a caller goes on; it cannot reach the catalog. */
    method ContinueWork(k: nat, r: FileResult)
      requires k < |abandoned|
      modifies this`imageFiles, this`metadataFiles, this`abandoned
      ensures View() == GoOn(old(View()), k, r)
      ensures Secure(old(View())) ==> Secure(View())
    {
      hide Secure;
      if Secure(View()) {
        WorkKeeps(View(), k, r);
      }
      var left := FileWork(View().(lock := abandoned[k]), r);
      imageFiles, metadataFiles := left.imageFiles, left.metadataFiles;
      abandoned := abandoned[k := left.lock];
    }

    method ApplyFileStep(op: Op)
      requires Board(op) == None && InTurn(View(), op)
      modifies this
      ensures View() == Step(old(View()), op)
    {
      hide Queue, Cancel, Decide, AcceptReport, RecordFailure, BeginPut, PutImageFile, PutMetadataFile;
      hide BeginDelete, DeleteMetadataFile, DeleteImageFile, EndDelete, Abandon, GoOn, Secure, Queueable, Harmful, IsReferenced;
      match op
      case OpBeginPut(image) => var locked := StartPut(image);
      case OpPutImage(file) => WriteImageFile(file);
      case OpPutMetadata(file) => WriteMetadataFile(file);
      case OpBeginDelete(digest) => var answer := StartDelete(digest);
      case OpDeleteMetadata(file) => RemoveMetadataFile(file);
      case OpDeleteImage(file) => RemoveImageFile(file);
      case OpEndDelete(readable) => FinishDelete(readable);
      case OpAbandon => LoseCaller();
      case OpGoOn(work, file) => ContinueWork(work, file);
    }

    /** One step of a run. */
    method Apply(op: Op)
      modifies this
      ensures View() == Step(old(View()), op)
    {
      hide Queue, Cancel, Decide, AcceptReport, RecordFailure, BeginPut, PutImageFile, PutMetadataFile;
      hide BeginDelete, DeleteMetadataFile, DeleteImageFile, EndDelete, Abandon, GoOn;
      hide Secure, Queueable, KeepsRest, Sends, Deliverable, Confirmable, Writable, WaitsForOne, TrialMatches;
      match op
      case OpQueue(board, mac, digest, updateId, disk) => var answer := QueueJob(board, mac, digest, updateId, disk);
      case OpCancel(board, updateId, disk) => var answer := CancelJob(board, updateId, disk);
      case OpDecide(report, now, disk) => var answer := DecideNow(report, now, disk);
      case OpReport(status, disk) => var answer := ReportPhase(status, disk);
      case OpFail(failed, now, disk) => var answer := RecordDeliveryFailure(failed, now, disk);
      case _ =>
        if InTurn(View(), op) {
          ApplyFileStep(op);
        } else {
          OutOfTurn(View(), op);
        }
    }
  }

  /** What every run of the store has reached. */
  predicate Reached(s: Store, ops: seq<Op>) {
    && s == Run(ops)
    && (AllCareful(Initial(), ops) ==> ImagesStored(s))
    && Limited(s)
    && forall b :: b in s.jobs && (s.jobs[b].phase == Confirming || s.jobs[b].phase == Succeeded) ==>
         TrialSeen(ops, b, s.jobs[b])
  }

  lemma RunReached(ops: seq<Op>)
    ensures Reached(Run(ops), ops)
  {
    hide Run, AllCareful, ImagesStored, Limited, TrialSeen;
    var s := Run(ops);
    if AllCareful(Initial(), ops) {
      ImagesStay(ops);
    }
    AttemptsAreLimited(ops);
    forall b | b in s.jobs && (s.jobs[b].phase == Confirming || s.jobs[b].phase == Succeeded)
      ensures TrialSeen(ops, b, s.jobs[b])
    {
      ConfirmedWereSeen(ops, b);
    }
  }

  /** A store that is put through any calls, in any order, is where the run of these calls ends. */
  method Drive(ops: seq<Op>) returns (files: OtaFiles)
    ensures fresh(files) && Reached(files.View(), ops)
  {
    hide Step, Reached;
    files := new OtaFiles();
    for k := 0 to |ops|
      invariant fresh(files) && files.View() == Run(ops[..k])
    {
      files.Apply(ops[k]);
      assert ops[..k + 1][..k] == ops[..k];
    }
    assert ops[..|ops|] == ops;
    RunReached(ops);
  }
}
