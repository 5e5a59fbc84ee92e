/** Loader upgrade assignments: what the store answers to devices and operators, and the image files
    that assignments rely on. Every locked section is a function on the store's state.
  */
module OtaStore {
  import opened Options

  type Text = string
  type Digest = string
  type Seconds = int

  const MAX_DELIVERY_ATTEMPTS: nat := 3
  const DELIVERY_RETRY_SECONDS: Seconds := 5

  datatype Image = Image(sha256: Digest, size: nat, version: Option<Text>)

  datatype Phase = Queued | Downloading | Staged | Confirming | Succeeded | RolledBack | Failed | Cancelled {
    predicate IsTerminal() { Succeeded? || RolledBack? || Failed? || Cancelled? }
  }

  datatype Job = Job(
    boardId: Text,
    mac: Text,
    updateId: Text,
    image: Image,
    phase: Phase,
    error: Option<Text>,
    deliveryAttempts: nat,
    nextDeliveryAt: Option<Seconds>,
    waitingForDeviceChange: bool)

  datatype OtaSource = Direct | Server
  datatype OtaOutcome = Confirmed | OutcomeRolledBack | OutcomeFailed

  datatype OtaState = OtaState(
    activeSha256: Digest,
    runningSha256: Digest,
    pendingUpdateId: Option<Text>,
    trial: bool,
    source: Option<OtaSource>,
    lastUpdateId: Option<Text>,
    lastOutcome: Option<OtaOutcome>)

  datatype Observation = Observation(mac: Text, state: Option<OtaState>, epoch: Text)

  datatype Decision = Idle | Update(job: Job) | Confirm(updateId: Text) | Wait

  datatype DeliveryFailure =
    | Rejected(reason: Text)
    | Conflict(reason: Text)
    | Unavailable(reason: Text)
    | Retryable(reason: Text)

  /** Who holds the lock of the image catalog, and how far it got with the files. File work whose caller
      went away goes on without the lock; it is kept apart. */
  datatype CatalogLock =
    | Free
    | RemovingMetadata(digest: Digest)
    | RemovingImage(digest: Digest)
    | Removed(digest: Digest)
    | WritingImage(image: Image)
    | WritingMetadata(image: Image)

  datatype Store = Store(
    catalog: map<Digest, Image>,
    observations: map<Text, Observation>,
    jobs: map<Text, Job>,
    imageFiles: set<Digest>,
    metadataFiles: set<Digest>,
    lock: CatalogLock,
    abandoned: seq<CatalogLock>)

  datatype Refusal =
    | Io | Locked | MissingImage | Occupied | UnconfirmedTrial | AlreadyActive | NoJob | Finished | StaleUpdate
    | NotObserved | StaleEpoch | InvalidPhase | InvalidTransition | TrialMismatch | NotAccepting | InUse

  datatype Answer<T> = Answered(value: T) | Refused(reason: Refusal)

  /** Whether the two files of the store can be written at the moment. */
  datatype Disk = Disk(observations: bool, jobs: bool)

  function AlreadyActiveError(): Text { "image already active without this assignment's confirmation" }

  function NoStateError(): Text { "loader did not report OTA state; waiting for OTA availability" }

  // ---------- Queueing ----------

  predicate Occupies(s: Store, board: Text) { board in s.jobs && !s.jobs[board].phase.IsTerminal() }

  function SeenState(s: Store, board: Text, mac: Text): Option<OtaState> {
    if board in s.observations && s.observations[board].mac == mac then s.observations[board].state else None
  }

  /** A device may take an image if, as far as it was seen, it runs no trial and another image. */
  predicate MayTake(s: Store, board: Text, mac: Text, image: Image) {
    var seen := SeenState(s, board, mac);
    seen.Some? ==> !seen.value.trial && seen.value.pendingUpdateId == None && seen.value.activeSha256 != image.sha256
  }

  predicate Queueable(s: Store, board: Text, mac: Text, digest: Digest) {
    s.lock == Free && digest in s.catalog && !Occupies(s, board) && MayTake(s, board, mac, s.catalog[digest])
  }

  function Queue(s: Store, board: Text, mac: Text, digest: Digest, updateId: Text, disk: Disk): (Store, Answer<Job>) {
    if s.lock != Free then (s, Refused(Locked))
    else if digest !in s.catalog then (s, Refused(MissingImage))
    else if Occupies(s, board) then (s, Refused(Occupied))
    else
      var image, seen := s.catalog[digest], SeenState(s, board, mac);
      if seen.Some? && (seen.value.trial || seen.value.pendingUpdateId.Some?) then (s, Refused(UnconfirmedTrial))
      else if seen.Some? && seen.value.activeSha256 == image.sha256 then (s, Refused(AlreadyActive))
      else if !disk.jobs then (s, Refused(Io))
      else
        var job := Job(board, mac, updateId, image, Queued, None, 0, None, false);
        (s.(jobs := s.jobs[board := job]), Answered(job))
  }

  function Cancel(s: Store, board: Text, updateId: Text, disk: Disk): (Store, Answer<Job>) {
    if board !in s.jobs then (s, Refused(NoJob))
    else
      var job := s.jobs[board];
      if job.updateId != updateId || job.phase.IsTerminal() then (s, Refused(Finished))
      else if !disk.observations || !disk.jobs then (s, Refused(Io))
      else
        var cancelled := job.(phase := Cancelled, error := None, nextDeliveryAt := None, waitingForDeviceChange := false);
        (s.(jobs := s.jobs[board := cancelled], observations := s.observations - {board}), Answered(cancelled))
  }

  // ---------- Deciding ----------

  predicate Unfinished(ota: OtaState) { ota.trial || ota.pendingUpdateId.Some? }

  function WaitIf(unfinished: bool): Decision { if unfinished then Wait else Idle }

  /** The job with nothing left to wait for. */
  function Settled(job: Job): Job { job.(nextDeliveryAt := None, waitingForDeviceChange := false) }

  /** What the last finished update says about this job. */
  function Concluded(job: Job, ota: OtaState): Job {
    if ota.lastUpdateId != Some(job.updateId) then job
    else
      match ota.lastOutcome
      case Some(Confirmed) =>
        if job.phase == Confirming && ota.activeSha256 == job.image.sha256 then job.(phase := Succeeded) else job
      case Some(OutcomeRolledBack) => job.(phase := RolledBack)
      case Some(OutcomeFailed) => job.(phase := Failed)
      case None => job
  }

  predicate RunsTrialOf(ota: OtaState, updateId: Text, image: Image) {
    ota.source == Some(Server) && ota.pendingUpdateId == Some(updateId) && ota.runningSha256 == image.sha256
  }

  function Awaken(job: Job, changed: bool): Job {
    if changed then job.(waitingForDeviceChange := false) else job
  }

  /** Delivering, for a device with no trial and nothing pending. */
  function Deliver(job: Job, ota: OtaState, changed: bool, boardIdle: bool, now: Seconds): (Job, Decision) {
    if !boardIdle then (job, Idle)
    else if ota.activeSha256 == job.image.sha256 then
      (Settled(job.(phase := Failed, error := Some(AlreadyActiveError()))), Idle)
    else if (job.waitingForDeviceChange && !changed) || (job.nextDeliveryAt.Some? && now < job.nextDeliveryAt.value) then
      (job, Wait)
    else if job.phase == Queued || job.phase == Downloading then
      var sent := Settled(job.(phase := Downloading, error := None));
      (sent, Update(sent))
    else (job, Wait)
  }

  function WithState(awake: Job, ota: OtaState, changed: bool, boardIdle: bool, now: Seconds): (Job, Decision) {
    var job := Concluded(awake, ota);
    if job.phase.IsTerminal() then (Settled(job), WaitIf(Unfinished(ota)))
    else if ota.trial then
      if RunsTrialOf(ota, job.updateId, job.image)
      then (Settled(job.(phase := Confirming, error := None)), Confirm(job.updateId))
      else (job, Wait)
    else if ota.pendingUpdateId.Some? then
      (if ota.pendingUpdateId == Some(job.updateId) then Settled(job.(phase := Staged, error := None)) else job, Wait)
    else Deliver(job, ota, changed, boardIdle, now)
  }

  function WithoutState(job: Job): Job {
    job.(error := if job.error == None
                  then Some(NoStateError())
                  else job.error,
         waitingForDeviceChange := true,
         nextDeliveryAt := None)
  }

  function DecideJob(job: Job, ota: Option<OtaState>, changed: bool, boardIdle: bool, now: Seconds): (Job, Decision) {
    match ota
    case Some(o) => WithState(Awaken(job, changed), o, changed, boardIdle, now)
    case None => (WithoutState(job), Idle)
  }

  datatype Report = Report(board: Text, mac: Text, ota: Option<OtaState>, boardIdle: bool, epoch: Text)

  predicate Changes(s: Store, r: Report) {
    r.board !in s.observations || s.observations[r.board] != Observation(r.mac, r.ota, r.epoch)
  }

  function Observed(s: Store, r: Report): Store {
    s.(observations := s.observations[r.board := Observation(r.mac, r.ota, r.epoch)])
  }

  function Decide(s: Store, r: Report, now: Seconds, disk: Disk): (Store, Answer<Decision>) {
    if Changes(s, r) && !disk.observations then (s, Refused(Io))
    else
      var seen := if Changes(s, r) then Observed(s, r) else s;
      var unfinished := r.ota.Some? && Unfinished(r.ota.value);
      if r.board !in s.jobs then (seen, Answered(WaitIf(unfinished)))
      else
        var job := s.jobs[r.board];
        if job.mac != r.mac then (seen, Answered(Wait))
        else if job.phase.IsTerminal() then (seen, Answered(WaitIf(unfinished)))
        else
          var (next, decision) := DecideJob(job, r.ota, Changes(s, r), r.boardIdle, now);
          if next == job then (seen, Answered(decision))
          else if !disk.jobs then (seen, Refused(Io))
          else (seen.(jobs := s.jobs[r.board := next]), Answered(decision))
  }

  // ---------- Reporting ----------

  predicate Reportable(p: Phase) { p.Downloading? || p.Staged? || p.Failed? || p.Succeeded? }

  predicate Follows(from: Phase, to: Phase) {
    || ((from.Queued? || from.Downloading?) && (to.Downloading? || to.Failed?))
    || (from.Downloading? && to.Staged?)
    || ((from.Staged? || from.Confirming?) && to.Failed?)
    || (from.Confirming? && to.Succeeded?)
  }

  datatype LoaderReport = LoaderReport(
    board: Text, epoch: Text, updateId: Text, phase: Phase, error: Option<Text>, active: Option<Digest>)

  predicate TrialMatches(ota: Option<OtaState>, job: Job) {
    ota.Some? && ota.value.trial && RunsTrialOf(ota.value, job.updateId, job.image)
  }

  function ReportedJob(job: Job, r: LoaderReport): Job {
    var next := job.(phase := r.phase, error := r.error);
    if r.phase == Downloading then next else Settled(next)
  }

  function AcceptReport(s: Store, r: LoaderReport, disk: Disk): (Store, Answer<()>) {
    if r.board !in s.jobs then (s, Refused(NoJob))
    else
      var job := s.jobs[r.board];
      if job.updateId != r.updateId then (s, Refused(StaleUpdate))
      else if r.board !in s.observations then (s, Refused(NotObserved))
      else
        var seen := s.observations[r.board];
        if seen.mac != job.mac || seen.epoch != r.epoch || seen.state == None then (s, Refused(StaleEpoch))
        else if !Reportable(r.phase) then (s, Refused(InvalidPhase))
        else if job.phase.IsTerminal() then (s, if job.phase == r.phase then Answered(()) else Refused(Finished))
        else if job.phase == r.phase then
          if job.error == r.error then (s, Answered(()))
          else if !disk.jobs then (s, Refused(Io))
          else (s.(jobs := s.jobs[r.board := job.(error := r.error)]), Answered(()))
        else if !Follows(job.phase, r.phase) then (s, Refused(InvalidTransition))
        else if r.phase == Succeeded && !(TrialMatches(seen.state, job) && r.active == Some(job.image.sha256)) then
          (s, Refused(TrialMismatch))
        else if !disk.jobs then (s, Refused(Io))
        else (s.(jobs := s.jobs[r.board := ReportedJob(job, r)]), Answered(()))
  }

  // ---------- Failures of delivery ----------

  datatype FailureReport = FailureReport(board: Text, mac: Text, updateId: Text, epoch: Text, failure: DeliveryFailure)

  /** Attempts are counted in a byte that stops at its maximum. */
  function Counted(attempts: nat): nat { if attempts < 255 then attempts + 1 else 255 }

  function FailedJob(previous: Job, failure: DeliveryFailure, now: Seconds): Job {
    var job := Settled(previous);
    match failure
    case Rejected(reason) => job.(phase := Failed, error := Some(reason))
    case Conflict(reason) =>
      job.(phase := Downloading, error := Some(reason), nextDeliveryAt := Some(now + DELIVERY_RETRY_SECONDS))
    case Unavailable(reason) =>
      job.(phase := Downloading, error := Some(reason), waitingForDeviceChange := true)
    case Retryable(reason) =>
      var attempts := Counted(job.deliveryAttempts);
      var counted := job.(deliveryAttempts := attempts, error := Some(reason));
      if attempts >= MAX_DELIVERY_ATTEMPTS then counted.(phase := Failed)
      else counted.(phase := Downloading, nextDeliveryAt := Some(now + DELIVERY_RETRY_SECONDS * attempts))
  }

  function RecordFailure(s: Store, r: FailureReport, now: Seconds, disk: Disk): (Store, Answer<Job>) {
    if r.board !in s.observations || s.observations[r.board].mac != r.mac || s.observations[r.board].epoch != r.epoch
    then (s, Refused(StaleEpoch))
    else if r.board !in s.jobs then (s, Refused(NoJob))
    else
      var job := s.jobs[r.board];
      if job.mac != r.mac || job.updateId != r.updateId then (s, Refused(StaleUpdate))
      else if job.phase.IsTerminal() then (s, Answered(job))
      else if job.phase != Queued && job.phase != Downloading then (s, Refused(NotAccepting))
      else if !disk.jobs then (s, Refused(Io))
      else
        var failed := FailedJob(job, r.failure, now);
        (s.(jobs := s.jobs[r.board := failed]), Answered(failed))
  }

  // ---------- Image files ----------

  /** `done` says whether a file operation took effect, `ok` whether it reported success; it may take
      effect and still report a failure. */
  datatype FileResult = FileResult(done: bool, ok: bool)

  function BeginPut(s: Store, image: Image): Store {
    if s.lock == Free then s.(lock := WritingImage(image)) else s
  }

  function PutImageFile(s: Store, r: FileResult): Store {
    if !s.lock.WritingImage? then s
    else
      var digest := s.lock.image.sha256;
      s.(imageFiles := if r.done || r.ok then s.imageFiles + {digest} else s.imageFiles,
         lock := if r.ok then WritingMetadata(s.lock.image) else Free)
  }

  function PutMetadataFile(s: Store, r: FileResult): Store {
    if !s.lock.WritingMetadata? then s
    else
      var image := s.lock.image;
      s.(metadataFiles := if r.done || r.ok then s.metadataFiles + {image.sha256} else s.metadataFiles,
         catalog := if r.ok then s.catalog[image.sha256 := image] else s.catalog,
         lock := Free)
  }

  predicate IsReferenced(s: Store, digest: Digest) {
    exists b :: b in s.jobs && s.jobs[b].image.sha256 == digest && !s.jobs[b].phase.IsTerminal()
  }

  /** Deletion checks the jobs once, and then lets other calls use them while it removes files. */
  function BeginDelete(s: Store, digest: Digest): (Store, Answer<()>) {
    if s.lock != Free then (s, Refused(Locked))
    else if IsReferenced(s, digest) then (s, Refused(InUse))
    else (s.(lock := RemovingMetadata(digest)), Answered(()))
  }

  function DeleteMetadataFile(s: Store, r: FileResult): Store {
    if !s.lock.RemovingMetadata? then s
    else if s.lock.digest !in s.metadataFiles && s.lock.digest !in s.imageFiles then s.(lock := Removed(s.lock.digest))
    else
      var digest := s.lock.digest;
      s.(metadataFiles := if r.done || r.ok then s.metadataFiles - {digest} else s.metadataFiles,
         lock := if r.ok then RemovingImage(digest) else Removed(digest))
  }

  function DeleteImageFile(s: Store, r: FileResult): Store {
    if !s.lock.RemovingImage? then s
    else
      var digest := s.lock.digest;
      s.(imageFiles := if r.done || r.ok then s.imageFiles - {digest} else s.imageFiles, lock := Removed(digest))
  }

  /** The catalog keeps the entry only if both files can still be read. */
  function EndDelete(s: Store, readable: bool): Store {
    if !s.lock.Removed? then s
    else
      var digest := s.lock.digest;
      var valid := readable && digest in s.metadataFiles && digest in s.imageFiles;
      s.(catalog := if valid then s.catalog else s.catalog - {digest}, lock := Free)
  }

  /** The caller goes away in the middle of its file work: the lock is free again, the catalog stays as
      it is, and the work goes on by itself. */
  function Abandon(s: Store): Store {
    s.(lock := Free,
       abandoned := if s.lock == Free || s.lock.Removed? then s.abandoned else s.abandoned + [s.lock])
  }

  /** One file operation of whoever has the lock. */
  function FileWork(s: Store, r: FileResult): Store {
    match s.lock
    case WritingImage(_) => PutImageFile(s, r)
    case WritingMetadata(_) => PutMetadataFile(s, r)
    case RemovingMetadata(_) => DeleteMetadataFile(s, r)
    case RemovingImage(_) => DeleteImageFile(s, r)
    case _ => s
  }

  /** One file operation of abandoned work: it has no catalog and no lock to change. */
  function GoOn(s: Store, k: nat, r: FileResult): Store {
    if k >= |s.abandoned| then s
    else
      var t := FileWork(s.(lock := s.abandoned[k]), r);
      s.(imageFiles := t.imageFiles, metadataFiles := t.metadataFiles, abandoned := s.abandoned[k := t.lock])
  }

  function Initial(): Store { Store(map[], map[], map[], {}, {}, Free, []) }
}
