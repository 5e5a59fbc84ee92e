/** What a report of a device does to its assignment, and what the device is told: when exactly a job ends,
    moves on, waits or stays, in terms of the report and the job alone.
  */
module OtaAnswers {
  import opened Options
  import opened OtaStore

  // ---------- What the device says ----------

  /** The device names this update as its last one, with this outcome. */
  predicate Tells(ota: OtaState, updateId: Text, outcome: OtaOutcome) {
    ota.lastUpdateId == Some(updateId) && ota.lastOutcome == Some(outcome)
  }

  /** The update is over: rolled back, failed, or confirmed and the active image after it was seen running. */
  predicate Ends(job: Job, ota: OtaState) {
    || Tells(ota, job.updateId, OutcomeRolledBack)
    || Tells(ota, job.updateId, OutcomeFailed)
    || (job.phase == Confirming && Tells(ota, job.updateId, Confirmed) && ota.activeSha256 == job.image.sha256)
  }

  /** The device runs the assigned image on trial, from the server, for this update. */
  predicate AssignedTrial(job: Job, ota: OtaState) {
    ota.trial && ota.source == Some(Server) && ota.pendingUpdateId == Some(job.updateId)
    && ota.runningSha256 == job.image.sha256
  }

  /** No update is under way on the device, and this one is not over. */
  predicate Quiet(job: Job, ota: OtaState) { !Ends(job, ota) && !ota.trial && ota.pendingUpdateId == None }

  /** The job waits neither for the device to change nor for a later time. */
  predicate Due(job: Job, changed: bool, now: Seconds) {
    (!job.waitingForDeviceChange || changed) && (job.nextDeliveryAt.Some? ==> job.nextDeliveryAt.value <= now)
  }

  /** When a report moves an unfinished job to a phase. */
  predicate MovesTo(job: Job, ota: OtaState, changed: bool, boardIdle: bool, now: Seconds, phase: Phase) {
    match phase
    case RolledBack => Tells(ota, job.updateId, OutcomeRolledBack)
    case Failed =>
      || Tells(ota, job.updateId, OutcomeFailed)
      || (Quiet(job, ota) && boardIdle && ota.activeSha256 == job.image.sha256)
    case Succeeded =>
      job.phase == Confirming && Tells(ota, job.updateId, Confirmed) && ota.activeSha256 == job.image.sha256
    case Confirming => !Ends(job, ota) && AssignedTrial(job, ota)
    case Staged => !Ends(job, ota) && !ota.trial && ota.pendingUpdateId == Some(job.updateId)
    case Downloading =>
      Quiet(job, ota) && boardIdle && ota.activeSha256 != job.image.sha256 && Due(job, changed, now)
      && job.phase in {Queued, Downloading}
    case Queued => false
    case Cancelled => false
  }

  /** A report moves a job to no phase. */
  predicate Stays(job: Job, ota: OtaState, changed: bool, boardIdle: bool, now: Seconds) {
    forall p: Phase :: !MovesTo(job, ota, changed, boardIdle, now, p)
  }

  /** The job after a report with the device's state. It ends or moves on exactly as MovesTo says, and then
      waits for nothing; and an error stands until the job moves on. */
  predicate JobAfter(job: Job, ota: OtaState, changed: bool, boardIdle: bool, now: Seconds, next: Job) {
    var stays := Stays(job, ota, changed, boardIdle, now);
    && (forall p: Phase :: next.phase == p <==>
          MovesTo(job, ota, changed, boardIdle, now, p) || (stays && p == job.phase))
    && next.nextDeliveryAt == (if stays then job.nextDeliveryAt else None)
    && next.waitingForDeviceChange == (stays && job.waitingForDeviceChange && !changed)
    && next.error == (if stays || Ends(job, ota) then job.error
                      else if next.phase == Failed
                      then Some("image already active without this assignment's confirmation")
                      else None)
    && (next.boardId, next.mac, next.updateId, next.image, next.deliveryAttempts)
       == (job.boardId, job.mac, job.updateId, job.image, job.deliveryAttempts)
  }

  /** What the device is told: the image exactly when the job moves to downloading, to confirm exactly when
      its trial is seen, nothing to do exactly when no update is under way that it should wait for. */
  predicate AnswerFor(job: Job, ota: OtaState, changed: bool, boardIdle: bool, now: Seconds, next: Job, d: Decision) {
    && (d.Update? <==> MovesTo(job, ota, changed, boardIdle, now, Downloading))
    && (d.Update? ==> d.job == next)
    && (d.Confirm? <==> MovesTo(job, ota, changed, boardIdle, now, Confirming))
    && (d.Confirm? ==> d.updateId == job.updateId)
    && (d.Idle? <==> !ota.trial && ota.pendingUpdateId == None
                     && (Ends(job, ota) || !boardIdle || ota.activeSha256 == job.image.sha256))
    && (d.Wait? <==>
          || ((ota.trial || ota.pendingUpdateId.Some?) && (Ends(job, ota) || !AssignedTrial(job, ota)))
          || (Quiet(job, ota) && boardIdle && ota.activeSha256 != job.image.sha256
              && !(Due(job, changed, now) && job.phase in {Queued, Downloading})))
  }

  /** A device that does not report its state has nothing to do, and its job waits for it to change. */
  predicate JobWithout(job: Job, next: Job) {
    next == job.(error := if job.error.Some? then job.error
                          else Some("loader did not report OTA state; waiting for OTA availability"),
                 waitingForDeviceChange := true, nextDeliveryAt := None)
  }

  predicate Unended(phase: Phase) { phase in {Queued, Downloading, Staged, Confirming} }

  lemma ReportMovesJob(job: Job, ota: OtaState, changed: bool, boardIdle: bool, now: Seconds)
    requires Unended(job.phase)
    ensures var (next, d) := DecideJob(job, Some(ota), changed, boardIdle, now);
            JobAfter(job, ota, changed, boardIdle, now, next) && AnswerFor(job, ota, changed, boardIdle, now, next, d)
  {
    hide DecideJob, JobAfter, AnswerFor, Ends, AssignedTrial;
    if Ends(job, ota) {
      EndedExactly(job, ota, changed, boardIdle, now);
    } else if ota.trial {
      TrialExactly(job, ota, changed, boardIdle, now);
    } else if ota.pendingUpdateId.Some? {
      PendingExactly(job, ota, changed, boardIdle, now);
    } else {
      QuietExactly(job, ota, changed, boardIdle, now);
    }
  }

  /** A report moves a job to this phase and no other. */
  predicate Only(job: Job, ota: OtaState, changed: bool, boardIdle: bool, now: Seconds, phase: Phase) {
    forall p: Phase :: MovesTo(job, ota, changed, boardIdle, now, p) <==> p == phase
  }

  function EndOf(ota: OtaState): Phase {
    match ota.lastOutcome
    case Some(OutcomeRolledBack) => RolledBack
    case Some(OutcomeFailed) => Failed
    case _ => Succeeded
  }

  lemma EndedMoves(job: Job, ota: OtaState, changed: bool, boardIdle: bool, now: Seconds)
    requires Unended(job.phase) && Ends(job, ota)
    ensures Only(job, ota, changed, boardIdle, now, EndOf(ota))
  {}

  lemma EndedExactly(job: Job, ota: OtaState, changed: bool, boardIdle: bool, now: Seconds)
    requires Unended(job.phase) && Ends(job, ota)
    ensures var (next, d) := DecideJob(job, Some(ota), changed, boardIdle, now);
            JobAfter(job, ota, changed, boardIdle, now, next) && AnswerFor(job, ota, changed, boardIdle, now, next, d)
  {
    hide DecideJob, Ends, Deliver, MovesTo, Due, Awaken, Stays, AlreadyActiveError;
    EndedMoves(job, ota, changed, boardIdle, now);
    assert MovesTo(job, ota, changed, boardIdle, now, EndOf(ota)) && !MovesTo(job, ota, changed, boardIdle, now, Downloading)
           && !MovesTo(job, ota, changed, boardIdle, now, Confirming);
    EndedJob(job, ota, changed, boardIdle, now);
    NotStaying(job, ota, changed, boardIdle, now, EndOf(ota));
  }

  lemma NotStaying(job: Job, ota: OtaState, changed: bool, boardIdle: bool, now: Seconds, p: Phase)
    requires MovesTo(job, ota, changed, boardIdle, now, p)
    ensures !Stays(job, ota, changed, boardIdle, now)
  {}

  lemma EndedJob(job: Job, ota: OtaState, changed: bool, boardIdle: bool, now: Seconds)
    requires Unended(job.phase) && Ends(job, ota)
    ensures DecideJob(job, Some(ota), changed, boardIdle, now)
            == (Settled(job.(phase := EndOf(ota))), if ota.trial || ota.pendingUpdateId.Some? then Wait else Idle)
  {
    hide Deliver;
  }

  lemma Unconcluded(job: Job, ota: OtaState, changed: bool)
    requires Unended(job.phase) && !Ends(job, ota)
    ensures Concluded(Awaken(job, changed), ota) == Awaken(job, changed)
    ensures !job.phase.IsTerminal()
  {}

  lemma TrialJob(job: Job, ota: OtaState, changed: bool, boardIdle: bool, now: Seconds)
    requires Unended(job.phase) && !Ends(job, ota) && ota.trial
    ensures DecideJob(job, Some(ota), changed, boardIdle, now)
            == if AssignedTrial(job, ota)
               then (Settled(job.(phase := Confirming, error := None)), Confirm(job.updateId))
               else (Awaken(job, changed), Wait)
  {
    hide Concluded, Unended, Ends, AlreadyActiveError, Deliver;
    Unconcluded(job, ota, changed);
  }

  lemma TrialExactly(job: Job, ota: OtaState, changed: bool, boardIdle: bool, now: Seconds)
    requires Unended(job.phase) && !Ends(job, ota) && ota.trial
    ensures var (next, d) := DecideJob(job, Some(ota), changed, boardIdle, now);
            JobAfter(job, ota, changed, boardIdle, now, next) && AnswerFor(job, ota, changed, boardIdle, now, next, d)
  {
    hide DecideJob, Unended, Ends, MovesTo, Stays, Due, AlreadyActiveError;
    TrialJob(job, ota, changed, boardIdle, now);
    TrialMoves(job, ota, changed, boardIdle, now);
    assert MovesTo(job, ota, changed, boardIdle, now, Confirming) <==> AssignedTrial(job, ota);
    if AssignedTrial(job, ota) {
      NotStaying(job, ota, changed, boardIdle, now, Confirming);
    }
  }

  lemma TrialMoves(job: Job, ota: OtaState, changed: bool, boardIdle: bool, now: Seconds)
    requires !Ends(job, ota) && ota.trial
    ensures if AssignedTrial(job, ota) then Only(job, ota, changed, boardIdle, now, Confirming)
            else Stays(job, ota, changed, boardIdle, now)
  {}

  lemma PendingJob(job: Job, ota: OtaState, changed: bool, boardIdle: bool, now: Seconds)
    requires Unended(job.phase) && !Ends(job, ota) && !ota.trial && ota.pendingUpdateId.Some?
    ensures DecideJob(job, Some(ota), changed, boardIdle, now)
            == (if ota.pendingUpdateId == Some(job.updateId) then Settled(job.(phase := Staged, error := None))
                else Awaken(job, changed), Wait)
  {
    hide Concluded, Unended, Ends, AlreadyActiveError, Deliver;
    Unconcluded(job, ota, changed);
  }

  lemma PendingExactly(job: Job, ota: OtaState, changed: bool, boardIdle: bool, now: Seconds)
    requires Unended(job.phase) && !Ends(job, ota) && !ota.trial && ota.pendingUpdateId.Some?
    ensures var (next, d) := DecideJob(job, Some(ota), changed, boardIdle, now);
            JobAfter(job, ota, changed, boardIdle, now, next) && AnswerFor(job, ota, changed, boardIdle, now, next, d)
  {
    hide DecideJob, Unended, Ends, MovesTo, Stays, Due, AlreadyActiveError;
    PendingJob(job, ota, changed, boardIdle, now);
    PendingMoves(job, ota, changed, boardIdle, now);
    if ota.pendingUpdateId == Some(job.updateId) {
      assert MovesTo(job, ota, changed, boardIdle, now, Staged);
      NotStaying(job, ota, changed, boardIdle, now, Staged);
    }
    assert !MovesTo(job, ota, changed, boardIdle, now, Confirming) && !MovesTo(job, ota, changed, boardIdle, now, Downloading);
  }

  lemma PendingMoves(job: Job, ota: OtaState, changed: bool, boardIdle: bool, now: Seconds)
    requires !Ends(job, ota) && !ota.trial && ota.pendingUpdateId.Some?
    ensures if ota.pendingUpdateId == Some(job.updateId) then Only(job, ota, changed, boardIdle, now, Staged)
            else Stays(job, ota, changed, boardIdle, now)
  {}

  lemma QuietJob(job: Job, ota: OtaState, changed: bool, boardIdle: bool, now: Seconds)
    requires Unended(job.phase) && Quiet(job, ota)
    ensures DecideJob(job, Some(ota), changed, boardIdle, now)
            == if !boardIdle then (Awaken(job, changed), Idle)
               else if ota.activeSha256 == job.image.sha256 then
                 (Settled(job.(phase := Failed, error := Some(AlreadyActiveError()))), Idle)
               else if Due(job, changed, now) && job.phase in {Queued, Downloading} then
                 var sent := Settled(job.(phase := Downloading, error := None));
                 (sent, Update(sent))
               else (Awaken(job, changed), Wait)
  {
    hide Concluded, Unended, Ends, AlreadyActiveError;
    Unconcluded(job, ota, changed);
  }

  lemma QuietExactly(job: Job, ota: OtaState, changed: bool, boardIdle: bool, now: Seconds)
    requires Unended(job.phase) && Quiet(job, ota)
    ensures var (next, d) := DecideJob(job, Some(ota), changed, boardIdle, now);
            JobAfter(job, ota, changed, boardIdle, now, next) && AnswerFor(job, ota, changed, boardIdle, now, next, d)
  {
    hide DecideJob, Unended, Ends, MovesTo, Stays, Due;
    QuietJob(job, ota, changed, boardIdle, now);
    QuietMoves(job, ota, changed, boardIdle, now);
    if boardIdle && ota.activeSha256 == job.image.sha256 {
      assert MovesTo(job, ota, changed, boardIdle, now, Failed);
      NotStaying(job, ota, changed, boardIdle, now, Failed);
    } else if boardIdle && Due(job, changed, now) && job.phase in {Queued, Downloading} {
      assert MovesTo(job, ota, changed, boardIdle, now, Downloading);
      NotStaying(job, ota, changed, boardIdle, now, Downloading);
    }
    assert !MovesTo(job, ota, changed, boardIdle, now, Confirming);
  }

  lemma QuietMoves(job: Job, ota: OtaState, changed: bool, boardIdle: bool, now: Seconds)
    requires Quiet(job, ota)
    ensures if boardIdle && ota.activeSha256 == job.image.sha256 then Only(job, ota, changed, boardIdle, now, Failed)
            else if boardIdle && Due(job, changed, now) && job.phase in {Queued, Downloading}
            then Only(job, ota, changed, boardIdle, now, Downloading)
            else Stays(job, ota, changed, boardIdle, now)
  {}

  // ---------- Of a whole call ----------

  /** The report comes from the device of an assignment that is under way. */
  predicate Concerns(s: Store, r: Report) {
    r.board in s.jobs && s.jobs[r.board].mac == r.mac && Unended(s.jobs[r.board].phase)
  }

  /** The device was last seen differently, or not at all. */
  predicate IsNews(s: Store, r: Report) {
    !(r.board in s.observations && s.observations[r.board].mac == r.mac && s.observations[r.board].state == r.ota
      && s.observations[r.board].epoch == r.epoch)
  }

  predicate BecomesJob(s: Store, r: Report, now: Seconds, next: Job)
    requires r.board in s.jobs
  {
    match r.ota
    case Some(ota) => JobAfter(s.jobs[r.board], ota, IsNews(s, r), r.boardIdle, now, next)
    case None => JobWithout(s.jobs[r.board], next)
  }

  /** What an answered report did, and the answer. */
  predicate DecidedAs(s: Store, r: Report, now: Seconds, t: Store, d: Decision) {
    && t.observations == s.observations[r.board := Observation(r.mac, r.ota, r.epoch)]
    && if Concerns(s, r) then
         && r.board in t.jobs && t.jobs == s.jobs[r.board := t.jobs[r.board]] && BecomesJob(s, r, now, t.jobs[r.board])
         && match r.ota
            case Some(ota) => AnswerFor(s.jobs[r.board], ota, IsNews(s, r), r.boardIdle, now, t.jobs[r.board], d)
            case None => d == Idle
       else
         && t.jobs == s.jobs
         && d == if (r.board in s.jobs && s.jobs[r.board].mac != r.mac)
                    || (r.ota.Some? && (r.ota.value.trial || r.ota.value.pendingUpdateId.Some?))
                 then Wait else Idle
  }

  predicate CanDecide(s: Store, r: Report, now: Seconds, disk: Disk) {
    && (IsNews(s, r) ==> disk.observations)
    && (Concerns(s, r) && !BecomesJob(s, r, now, s.jobs[r.board]) ==> disk.jobs)
  }

  /** A report is answered exactly if what it changes can be written: the observation if it is news, and the
      job unless it becomes what it is; and then everything that follows from it is done, and otherwise
      nothing of the job. */
  lemma DecideMeans(s: Store, r: Report, now: Seconds, disk: Disk)
    ensures var c := Decide(s, r, now, disk);
            && (c.1.Answered? <==> CanDecide(s, r, now, disk))
            && (c.1.Answered? ==> DecidedAs(s, r, now, c.0, c.1.value))
            && (c.1.Refused? ==> c.0.jobs == s.jobs)
  {
    hide DecideJob, JobAfter, JobWithout, AnswerFor;
    assert IsNews(s, r) == Changes(s, r);
    if Concerns(s, r) {
      var job := s.jobs[r.board];
      var next := DecideJob(job, r.ota, Changes(s, r), r.boardIdle, now).0;
      if r.ota.Some? {
        ReportMovesJob(job, r.ota.value, Changes(s, r), r.boardIdle, now);
        OneJobAfter(job, r.ota.value, Changes(s, r), r.boardIdle, now, next, job);
      } else {
        WithoutExactly(job, Changes(s, r), r.boardIdle, now, next);
      }
    }
  }

  lemma WithoutExactly(job: Job, changed: bool, boardIdle: bool, now: Seconds, next: Job)
    requires next == DecideJob(job, None, changed, boardIdle, now).0
    ensures DecideJob(job, None, changed, boardIdle, now).1 == Idle
    ensures forall x :: JobWithout(job, x) <==> x == next
  {
    hide WithState;
  }

  /** A report determines what becomes of a job. */
  lemma OneJobAfter(job: Job, ota: OtaState, changed: bool, boardIdle: bool, now: Seconds, a: Job, b: Job)
    requires JobAfter(job, ota, changed, boardIdle, now, a)
    ensures JobAfter(job, ota, changed, boardIdle, now, b) <==> a == b
  {
    hide MovesTo, Stays, Ends;
    assert MovesTo(job, ota, changed, boardIdle, now, a.phase) || Stays(job, ota, changed, boardIdle, now);
    if JobAfter(job, ota, changed, boardIdle, now, b) {
      assert MovesTo(job, ota, changed, boardIdle, now, b.phase) || Stays(job, ota, changed, boardIdle, now);
    }
  }

  // ---------- Reports of a loader about its update ----------

  /** How far a loader may say that its update got. */
  predicate Legal(from: Phase, to: Phase) {
    (from, to) in {(Queued, Downloading), (Queued, Failed), (Downloading, Failed), (Downloading, Staged),
                   (Staged, Failed), (Confirming, Failed), (Confirming, Succeeded)}
  }

  /** The loader reports a possible phase of its own update, in the boot in which it was last seen, and a success
      only while its trial is seen and with the digest of the image. */
  predicate Believable(s: Store, r: LoaderReport) {
    && r.board in s.jobs && s.jobs[r.board].updateId == r.updateId
    && r.board in s.observations
    && var (job, seen) := (s.jobs[r.board], s.observations[r.board]);
       && seen.mac == job.mac && seen.epoch == r.epoch && seen.state.Some?
       && r.phase in {Downloading, Staged, Failed, Succeeded}
       && (r.phase == job.phase
           || (Legal(job.phase, r.phase)
               && (r.phase == Succeeded ==> AssignedTrial(job, seen.state.value) && r.active == Some(job.image.sha256))))
  }

  /** A finished job is not changed, another takes the phase and the error; it waits on only while it is still
      downloading. */
  predicate JobReported(job: Job, r: LoaderReport, next: Job) {
    if !Unended(job.phase) then next == job
    else
      && next.phase == r.phase && next.error == r.error
      && (next.boardId, next.mac, next.updateId, next.image, next.deliveryAttempts)
         == (job.boardId, job.mac, job.updateId, job.image, job.deliveryAttempts)
      && (if r.phase == job.phase || r.phase == Downloading
          then (next.nextDeliveryAt, next.waitingForDeviceChange) == (job.nextDeliveryAt, job.waitingForDeviceChange)
          else next.nextDeliveryAt == None && !next.waitingForDeviceChange)
  }

  /** A loader's report is accepted exactly if it is believable and what it changes can be written. */
  lemma ReportExactly(s: Store, r: LoaderReport, disk: Disk)
    ensures var c := AcceptReport(s, r, disk);
            && (c.1.Answered? <==>
                  Believable(s, r) && (JobReported(s.jobs[r.board], r, s.jobs[r.board]) || disk.jobs))
            && (c.1.Answered? ==>
                  && r.board in c.0.jobs && c.0 == s.(jobs := s.jobs[r.board := c.0.jobs[r.board]])
                  && JobReported(s.jobs[r.board], r, c.0.jobs[r.board]))
            && (c.1.Refused? ==> c.0 == s)
  {
    hide TrialMatches, AssignedTrial, Follows, Legal;
    if r.board in s.jobs && r.board in s.observations {
      FollowsLegally(s.jobs[r.board].phase, r.phase);
      SameTrial(s.jobs[r.board], s.observations[r.board].state);
      assert s.jobs[r.board := s.jobs[r.board]] == s.jobs;
    }
  }

  lemma FollowsLegally(from: Phase, to: Phase)
    ensures from != to ==> (Follows(from, to) <==> Legal(from, to))
    ensures !Unended(from) ==> !Legal(from, to)
    ensures Unended(from) <==> !from.IsTerminal()
  {}

  lemma SameTrial(job: Job, ota: Option<OtaState>)
    ensures ota.Some? ==> (TrialMatches(ota, job) <==> AssignedTrial(job, ota.value))
  {}

  // ---------- Failures of delivery ----------

  /** After a failed delivery a job has failed or is downloading: rejected, or after the third failure that may
      be tried again, it has failed; else it is tried again five seconds later, or after another five for each
      counted failure, or when the device has changed. */
  predicate JobFailing(job: Job, failure: DeliveryFailure, now: Seconds, next: Job) {
    var count := if failure.Retryable? then if job.deliveryAttempts >= 255 then 255 else job.deliveryAttempts + 1
                 else job.deliveryAttempts;
    && next.error == Some(failure.reason)
    && (next.phase == Failed <==> failure.Rejected? || (failure.Retryable? && count >= 3))
    && (next.phase != Failed ==> next.phase == Downloading)
    && next.nextDeliveryAt
       == (if failure.Conflict? then Some(now + 5)
           else if failure.Retryable? && count < 3 then Some(now + 5 * count)
           else None)
    && next.waitingForDeviceChange == failure.Unavailable?
    && next.deliveryAttempts == count
    && (next.boardId, next.mac, next.updateId, next.image) == (job.boardId, job.mac, job.updateId, job.image)
  }

  /** The failure is of the delivery to the device as it was last seen. */
  predicate Recent(s: Store, r: FailureReport) {
    && r.board in s.observations && s.observations[r.board].mac == r.mac && s.observations[r.board].epoch == r.epoch
    && r.board in s.jobs && s.jobs[r.board].mac == r.mac && s.jobs[r.board].updateId == r.updateId
  }

  /** A failure is recorded exactly for the present assignment before it is staged, and a finished one is only
      told. */
  lemma FailureExactly(s: Store, r: FailureReport, now: Seconds, disk: Disk)
    ensures var c := RecordFailure(s, r, now, disk);
            && (c.1.Answered? <==>
                  Recent(s, r) && (!Unended(s.jobs[r.board].phase)
                                   || (s.jobs[r.board].phase in {Queued, Downloading} && disk.jobs)))
            && (c.1.Answered? ==>
                  && r.board in c.0.jobs && c.1.value == c.0.jobs[r.board]
                  && if Unended(s.jobs[r.board].phase)
                     then c.0 == s.(jobs := s.jobs[r.board := c.1.value])
                          && JobFailing(s.jobs[r.board], r.failure, now, c.1.value)
                     else c.0 == s)
            && (c.1.Refused? ==> c.0 == s)
  {
    hide FailedJob, JobFailing;
    if r.board in s.jobs {
      FailedExactly(s.jobs[r.board], r.failure, now);
    }
  }

  lemma FailedExactly(job: Job, failure: DeliveryFailure, now: Seconds)
    ensures JobFailing(job, failure, now, FailedJob(job, failure, now))
  {}

  // ---------- Queueing ----------

  /** The image is there and not being changed, the board has no assignment under way, and its device, as far as it
      was seen, has no update under way and runs another image. */
  predicate CanQueue(s: Store, board: Text, mac: Text, digest: Digest) {
    && s.lock == Free && digest in s.catalog
    && (board in s.jobs ==> s.jobs[board].phase in {Succeeded, RolledBack, Failed, Cancelled})
    && (board in s.observations && s.observations[board].mac == mac && s.observations[board].state.Some? ==>
          var ota := s.observations[board].state.value;
          !ota.trial && ota.pendingUpdateId == None && ota.activeSha256 != s.catalog[digest].sha256)
  }

  lemma QueueableMeans(s: Store, board: Text, mac: Text, digest: Digest)
    ensures Queueable(s, board, mac, digest) <==> CanQueue(s, board, mac, digest)
  {}

  // ---------- Image files ----------

  function Upload(s: Store, image: Image, first: FileResult, second: FileResult): Store {
    PutMetadataFile(PutImageFile(BeginPut(s, image), first), second)
  }

  function Deletion(s: Store, digest: Digest, first: FileResult, second: FileResult, readable: bool): Store {
    EndDelete(DeleteImageFile(DeleteMetadataFile(BeginDelete(s, digest).0, first), second), readable)
  }

  predicate TookEffect(r: FileResult) { r.done || r.ok }

  /** An upload writes the image, and if that succeeds what describes it; the catalog has the image exactly if
      both succeed; and the catalog is free again. */
  lemma UploadMeans(s: Store, image: Image, first: FileResult, second: FileResult)
    requires s.lock == Free
    ensures var t := Upload(s, image, first, second);
            && t == s.(imageFiles := t.imageFiles, metadataFiles := t.metadataFiles, catalog := t.catalog)
            && t.imageFiles == s.imageFiles + (if TookEffect(first) then {image.sha256} else {})
            && t.metadataFiles == s.metadataFiles + (if first.ok && TookEffect(second) then {image.sha256} else {})
            && t.catalog == if first.ok && second.ok then s.catalog[image.sha256 := image] else s.catalog
  {}

  /** A deletion removes what describes the image, and if that succeeds the image, unless both are gone; the
      catalog keeps the image exactly if both files are still there and can be read; and the catalog is free
      again. An image that is needed stays as it is. */
  lemma DeletionMeans(s: Store, digest: Digest, first: FileResult, second: FileResult, readable: bool)
    requires s.lock == Free
    ensures var t := Deletion(s, digest, first, second, readable);
            var needed := exists b :: b in s.jobs && s.jobs[b].image.sha256 == digest && Unended(s.jobs[b].phase);
            if needed then t == s
            else
              && t == s.(imageFiles := t.imageFiles, metadataFiles := t.metadataFiles, catalog := t.catalog)
              && (if digest in s.metadataFiles || digest in s.imageFiles
                  then t.metadataFiles == s.metadataFiles - (if TookEffect(first) then {digest} else {})
                       && t.imageFiles == s.imageFiles - (if first.ok && TookEffect(second) then {digest} else {})
                  else t.metadataFiles == s.metadataFiles && t.imageFiles == s.imageFiles)
              && t.catalog == if readable && digest in t.metadataFiles && digest in t.imageFiles then s.catalog
                              else s.catalog - {digest}
  {
    assert IsReferenced(s, digest)
           <==> exists b :: b in s.jobs && s.jobs[b].image.sha256 == digest && Unended(s.jobs[b].phase);
  }

  /** Work that was under way when its caller went away goes on, and the catalog is free. */
  lemma AbandonMeans(s: Store)
    ensures var t := Abandon(s);
            && t == s.(lock := Free, abandoned := t.abandoned)
            && t.abandoned == s.abandoned + (if s.lock == Free || s.lock.Removed? then [] else [s.lock])
  {}

  // ---------- Why calls are refused ----------

  function SeenBy(s: Store, board: Text, mac: Text): Option<OtaState> {
    if board in s.observations && s.observations[board].mac == mac then s.observations[board].state else None
  }

  /** The first of these reasons against queueing that there is. */
  predicate QueueRefused(s: Store, board: Text, mac: Text, digest: Digest, disk: Disk, why: Refusal) {
    var there := s.lock == Free && digest in s.catalog;
    var idle := there && !(board in s.jobs && Unended(s.jobs[board].phase));
    var seen := SeenBy(s, board, mac);
    var busy := seen.Some? && (seen.value.trial || seen.value.pendingUpdateId.Some?);
    match why
    case Locked => s.lock != Free
    case MissingImage => s.lock == Free && digest !in s.catalog
    case Occupied => there && !idle
    case UnconfirmedTrial => idle && busy
    case AlreadyActive => idle && !busy && seen.Some? && seen.value.activeSha256 == s.catalog[digest].sha256
    case Io => CanQueue(s, board, mac, digest) && !disk.jobs
    case _ => false
  }

  lemma QueueRefusals(s: Store, board: Text, mac: Text, digest: Digest, id: Text, disk: Disk, why: Refusal)
    ensures Queue(s, board, mac, digest, id, disk).1 == Refused(why) <==> QueueRefused(s, board, mac, digest, disk, why)
  {
    assert board in s.jobs ==> (s.jobs[board].phase.IsTerminal() <==> !Unended(s.jobs[board].phase));
    QueueableMeans(s, board, mac, digest);
  }

  predicate CancelRefused(s: Store, board: Text, id: Text, disk: Disk, why: Refusal) {
    var present := board in s.jobs && s.jobs[board].updateId == id && Unended(s.jobs[board].phase);
    match why
    case NoJob => board !in s.jobs
    case Finished => board in s.jobs && !present
    case Io => present && !(disk.observations && disk.jobs)
    case _ => false
  }

  lemma CancelRefusals(s: Store, board: Text, id: Text, disk: Disk, why: Refusal)
    ensures Cancel(s, board, id, disk).1 == Refused(why) <==> CancelRefused(s, board, id, disk, why)
  {}

  /** The first of these reasons against a loader's report that there is. */
  predicate ReportRefused(s: Store, r: LoaderReport, disk: Disk, why: Refusal) {
    var present := r.board in s.jobs && s.jobs[r.board].updateId == r.updateId;
    var observed := present && r.board in s.observations;
    var recent := observed && s.observations[r.board].mac == s.jobs[r.board].mac
                  && s.observations[r.board].epoch == r.epoch && s.observations[r.board].state.Some?;
    var possible := recent && r.phase in {Downloading, Staged, Failed, Succeeded};
    var moving := possible && Unended(s.jobs[r.board].phase) && s.jobs[r.board].phase != r.phase;
    match why
    case NoJob => r.board !in s.jobs
    case StaleUpdate => r.board in s.jobs && !present
    case NotObserved => present && !observed
    case StaleEpoch => observed && !recent
    case InvalidPhase => recent && !possible
    case Finished => possible && !Unended(s.jobs[r.board].phase) && s.jobs[r.board].phase != r.phase
    case InvalidTransition => moving && !Legal(s.jobs[r.board].phase, r.phase)
    case TrialMismatch => moving && Legal(s.jobs[r.board].phase, r.phase) && !Believable(s, r)
    case Io => Believable(s, r) && !JobReported(s.jobs[r.board], r, s.jobs[r.board]) && !disk.jobs
    case _ => false
  }

  lemma ReportRefusals(s: Store, r: LoaderReport, disk: Disk, why: Refusal)
    ensures AcceptReport(s, r, disk).1 == Refused(why) <==> ReportRefused(s, r, disk, why)
  {
    hide TrialMatches, AssignedTrial, Follows, Legal;
    if r.board in s.jobs && r.board in s.observations {
      FollowsLegally(s.jobs[r.board].phase, r.phase);
      SameTrial(s.jobs[r.board], s.observations[r.board].state);
    }
  }

  predicate FailureRefused(s: Store, r: FailureReport, disk: Disk, why: Refusal) {
    var recent := r.board in s.observations && s.observations[r.board].mac == r.mac && s.observations[r.board].epoch == r.epoch;
    match why
    case StaleEpoch => !recent
    case NoJob => recent && r.board !in s.jobs
    case StaleUpdate => recent && r.board in s.jobs && !Recent(s, r)
    case NotAccepting => Recent(s, r) && s.jobs[r.board].phase in {Staged, Confirming}
    case Io => Recent(s, r) && s.jobs[r.board].phase in {Queued, Downloading} && !disk.jobs
    case _ => false
  }

  lemma FailureRefusals(s: Store, r: FailureReport, now: Seconds, disk: Disk, why: Refusal)
    ensures RecordFailure(s, r, now, disk).1 == Refused(why) <==> FailureRefused(s, r, disk, why)
  {
    hide FailedJob;
  }
}
