/** One scan's way through the Kiri reconstruction service: a task row driven by HTTP requests and background
    workers. A method call is one step; what the provider, the storage and the control plane answer is its outcome. */
module KiriPipeline {
  import opened Outcomes
  import opened Text
  import GlbStream

  type Bytes = GlbStream.Bytes

  datatype TaskStatus =
    | Queued | Uploading | Processing | ReadyForCrop | CropConfigured | CropBaking | Ready | Failed | Expired

  /** The GLB's path in storage is a function of the scan, so its bytes stand for it: None while the path is unset. Kiri
      delivers one model per serialize id, so fetching it once more brings the same bytes. */
  datatype Task = Task(
    status: TaskStatus,
    serialize: Option<string>,
    providerStatus: Option<string>,
    glb: Option<Bytes>,
    cropBox: Option<string>,
    error: Option<string>)

  datatype ScanStatus = Created | Uploaded | KiriProcessing | KiriReady | ScanCropBaking | CropReady | ScanFailed

  datatype ProjectStatus = Draft | InProcess | ProjectReady | ProjectFailed

  datatype Owner =
    | ControlPlane(projectId: string, userId: string, completionToken: string)
    | Local(projectId: string)
    | NoProject

  datatype Scan = Scan(
    owner: Owner,
    video: Option<string>,
    status: ScanStatus,
    error: Option<string>,
    projectName: string,
    projectStatus: ProjectStatus,
    modelAssetId: Option<string>,
    publishedAt: Option<int>,
    localAssets: nat,
    // every control-plane publish result recorded so far
    results: seq<string>)

  /** The task, its scan, and the background jobs scheduled by requests; `maxOutputMb` is the configured size limit on
      published models. */
  datatype State = State(task: Option<Task>, scan: Scan, starts: nat, bakes: nat, maxOutputMb: int)

  datatype Reply = Fine | NotConfigured | NotUploaded | NotFound | NotReady | NameTooLong

  const MAX_CANONICAL_NAME := 100
  const MAX_ERROR := 2000

  // ----- small pieces

  function OfProject(scan: Scan, status: ProjectStatus): Scan {
    if scan.owner.Local? then scan.(projectStatus := status) else scan
  }

  function Clipped(message: string): string {
    if |message| > MAX_ERROR then message[..MAX_ERROR] else message
  }

  const UNEXPECTED := "Kiri processing encountered an unexpected response."

  /** An exception's text as it is stored; a provider "success" must not read as one. */
  function SafeMessage(message: string): string {
    if Lower(Strip(Clipped(message))) == "success" then UNEXPECTED
    else Clipped(message)
  }

  /** str(exc) or a default */
  function Or(message: string, default: string): string {
    if message == "" then default else message
  }

  const NOT_STARTED := "Kiri processing could not be started."
  const NOT_PUBLISHED := "Kiri publish failed."

  function Fail(s: State, message: string): State
    requires s.task.Some?
  {
    var error := Some(SafeMessage(message));
    s.(task := Some(s.task.value.(status := Failed, error := error)),
       scan := OfProject(s.scan.(status := ScanFailed, error := error), ProjectFailed))
  }

  predicate ReadyForProcessing(scan: Scan) {
    scan.video.Some? || scan.status in {Uploaded, KiriProcessing, KiriReady, ScanCropBaking, CropReady}
  }

  predicate Terminal(status: TaskStatus) { status in {Ready, Failed, Expired} }

  // ----- create_task

  function CreateTask(s: State, tokenConfigured: bool): (State, Reply) {
    if MayRestart(s) then (Restart(s), Fine)
    else if s.task.Some? then (s, Fine)
    else if !tokenConfigured then (s, NotConfigured)
    else if !ReadyForProcessing(s.scan) then (s, NotUploaded)
    else (s.(task := Some(Task(Queued, None, None, None, None, None)), scan := Processed(s.scan)), Fine)
  }

  function Processed(scan: Scan): Scan {
    OfProject(scan.(status := KiriProcessing, error := None), InProcess)
  }

  predicate MayRestart(s: State) {
    s.task.Some? && s.task.value.status in {Failed, Expired} && s.task.value.glb.None?
  }

  function Restart(s: State): State
    requires s.task.Some?
  {
    s.(task := Some(s.task.value.(serialize := None, providerStatus := None, status := Queued, error := None)),
       scan := Processed(s.scan))
  }

  // ----- start_processing

  datatype StartOutcome =
    | DiesUploading                       // killed after the first commit
    | UploadRaises(message: string)       // fetching the video or sending it to the provider
    | DeleteRaises(serialize: string, message: string)
    | DiesUploaded(serialize: string)     // killed after the serialize id was committed
    | Starts(serialize: string)

  predicate MayStart(s: State) {
    s.task.Some? && s.task.value.serialize.None? && !Terminal(s.task.value.status)
  }

  function StartProcessing(s: State, o: StartOutcome): State {
    if !MayStart(s) then s
    else
      var task := s.task.value;
      if s.scan.video.None? then Fail(s, "Scan video is required.")
      else match o
        case DiesUploading => s.(task := Some(task.(status := Uploading)))
        case UploadRaises(message) => Fail(s, Or(message, NOT_STARTED))
        case DeleteRaises(serialize, message) =>
          Fail(s.(task := Some(task.(serialize := Some(serialize)))), Or(message, NOT_STARTED))
        case DiesUploaded(serialize) =>
          s.(task := Some(task.(status := Uploading, serialize := Some(serialize))), scan := s.scan.(video := None))
        case Starts(serialize) =>
          s.(task := Some(task.(
               status := Processing, serialize := Some(serialize), providerStatus := Some("uploading"), error := None)),
             scan := s.scan.(video := None, status := KiriProcessing))
  }

  // ----- refresh

  datatype Download = Downloaded(file: Bytes) | DownloadRaises(message: string)

  const PROVIDER_ACTIVE := {"uploading", "queuing", "queued", "processing"}
  const PROVIDER_DONE := {"successful", "success", "completed"}

  /** The provider's status call raised, or answered; the download happens only after a success. */
  datatype ProviderOutcome = StatusRaises(message: string) | Answers(status: string, download: Download)

  predicate MayPoll(s: State) {
    s.task.Some? && s.task.value.serialize.Some? && s.task.value.status == Processing
  }

  function Refresh(s: State, o: ProviderOutcome): State {
    if MayPoll(s) then Polled(s, o) else s
  }

  /** What a poll writes once the provider has answered and the model, if there is one, is stored. */
  function Polled(s: State, o: ProviderOutcome): State
    requires s.task.Some?
  {
    if o.StatusRaises? then s.(task := Some(s.task.value.(error := Some(Clipped(o.message)))))
    else
      var task := s.task.value.(providerStatus := Some(o.status));
      if o.status in PROVIDER_ACTIVE then s.(task := Some(task.(error := None)))
      else if o.status in PROVIDER_DONE then
        match o.download
        case Downloaded(file) =>
          s.(task := Some(task.(glb := Some(file), status := ReadyForCrop, error := None)),
             scan := s.scan.(status := KiriReady))
        case DownloadRaises(message) => s.(task := Some(task.(error := Some(Clipped(message)))))
      else if o.status == "expired" then
        s.(task := Some(task.(status := Expired, error := Some("Kiri asset expired before it was downloaded."))),
           scan := s.scan.(status := ScanFailed))
      else Fail(s.(task := Some(task)), "Kiri processing failed with status '" + o.status + "'.")
  }

  // ----- set_crop and queue_save

  function SetCrop(s: State, box: string): (State, Reply) {
    if s.task.None? then (s, NotFound)
    else if !MayCrop(s) then (s, NotReady)
    else (Cropped(s, box), Fine)
  }

  predicate MayCrop(s: State) {
    s.task.Some? && s.task.value.status in {ReadyForCrop, CropConfigured}
  }

  function Cropped(s: State, box: string): State
    requires s.task.Some?
  {
    s.(task := Some(s.task.value.(cropBox := Some(box), status := CropConfigured)))
  }

  function QueueSave(s: State, projectName: string): (State, Reply) {
    var name := Strip(projectName);
    if s.task.None? then (s, NotFound)
    else
      var task := s.task.value;
      if task.status == Ready then (s, Fine)
      else if s.scan.owner.ControlPlane? && |name| > MAX_CANONICAL_NAME then (s, NameTooLong)
      else if task.glb.None? then (s, NotReady)
      else if !MaySave(s) then (s, Fine)
      else (Saved(s, name), Fine)
  }

  predicate MaySave(s: State) {
    s.task.Some? && s.task.value.glb.Some? && s.task.value.status in {ReadyForCrop, CropConfigured, Failed}
  }

  function Saved(s: State, name: string): State
    requires s.task.Some?
  {
    var named := if s.scan.owner.NoProject? then s.scan else s.scan.(projectName := name);
    s.(task := Some(s.task.value.(status := CropBaking, error := None)),
       scan := OfProject(named.(status := ScanCropBaking), InProcess))
  }

  // ----- publish_saved_project

  datatype PublishAnswer =
    | PublishRaises(message: string)
    | PublishReturns(projectId: string, assetId: string, status: string)

  datatype PublishOutcome = PublishOutcome(
    stored: bool,               // storage says that it has the GLB
    download: Download,
    storedAfter: bool,          // and says so after a download
    unmeasured: Option<string>, // what measuring the GLB raised
    answer: PublishAnswer,
    now: int,
    dies: bool)                 // killed between recording the model and marking the task ready

  datatype Attempt = Attempted(s: State, recorded: bool) | Raised(s: State, message: string)

  predicate HasGlb(s: State) {
    s.task.Some? && s.task.value.glb.Some?
  }

  /** The source GLB is present, downloaded again where storage does not say that it has it. */
  function EnsureGlb(s: State, o: PublishOutcome): (a: Attempt)
    requires s.task.Some?
    ensures a.Attempted? ==> HasGlb(a.s)
    ensures HasGlb(s) ==> a.s == s
  {
    var task := s.task.value;
    if task.glb.Some? && o.stored then Attempted(s, false)
    else if task.serialize.None? then Raised(s, "Kiri serialize id is missing.")
    else if o.download.DownloadRaises? then Raised(s, o.download.message)
    else
      var s' := if task.glb.Some? then s else s.(task := Some(task.(glb := Some(o.download.file))));
      if o.storedAfter then Attempted(s', false) else Raised(s', "Kiri source GLB is missing.")
  }

  /** What publish_glb asks of the bytes it is given. */
  predicate Publishable(glb: Bytes, maxOutputMb: int) {
    && GlbStream.HEADER_BYTES <= |glb| <= GlbStream.MaxOutput(maxOutputMb)
    && GlbStream.VerifyGlb(glb) == GlbStream.Valid
  }

  /** It is what decides whether a model that the control plane does not have yet can be published at all. */
  lemma PublishableExactlyWhenSomeAnswerSucceeds(glb: Bytes, maxOutputMb: int, project: string)
    ensures Publishable(glb, maxOutputMb) <==>
            exists answers: GlbStream.Answers ::
              && GlbStream.Succeeds(project, |glb|, maxOutputMb, glb, answers)
              && !answers.upload.value.alreadyCompleted
  {
    var upload := GlbStream.Capability(project, "asset", false, Some("url"));
    var answers := GlbStream.Answers(Some(upload), true, true, Some(GlbStream.Confirmation(project, "asset", "ready")));
    hide GlbStream.HeaderDeclares, GlbStream.MaxOutput;
    if Publishable(glb, maxOutputMb) {
      assert GlbStream.StreamVerdict(glb, |glb|) == GlbStream.Valid;
      assert GlbStream.Succeeds(project, |glb|, maxOutputMb, glb, answers) && !answers.upload.value.alreadyCompleted;
    }
  }

  function Refusal(glb: Bytes, maxOutputMb: int, answer: PublishAnswer): string {
    if !(GlbStream.HEADER_BYTES <= |glb| <= GlbStream.MaxOutput(maxOutputMb))
      then "Generated GLB is empty, truncated, or exceeds the publish limit."
    else if answer.PublishRaises? then answer.message
    else "Generated GLB header is invalid."
  }

  /** A GLB that publish_glb does not accept is refused whatever the control plane would answer; the control plane
      reports a model as received only after it was sent one. */
  function PublishControlPlane(s: State, o: PublishOutcome): Attempt
    requires s.scan.owner.ControlPlane? && HasGlb(s)
  {
    var owner, glb := s.scan.owner, s.task.value.glb.value;
    if owner.userId == "" || owner.completionToken == "" then Raised(s, "Canonical scan ownership is incomplete.")
    else if s.scan.modelAssetId.Some? && s.scan.publishedAt.Some? then Attempted(s, false)
    else if glb == [] then Raised(s, "Generated GLB size metadata is missing.")
    else if !Publishable(glb, s.maxOutputMb) then Raised(s, Refusal(glb, s.maxOutputMb, o.answer))
    else match o.answer
      case PublishRaises(message) => Raised(s, message)
      case PublishReturns(projectId, assetId, status) =>
        if projectId != owner.projectId || status !in {"raw", "ready"}
          then Raised(s, "Control-plane publish result is inconsistent.")
        else
          Attempted(s.(scan := s.scan.(
            modelAssetId := Some(assetId), publishedAt := Some(o.now), results := s.scan.results + [assetId])), true)
  }

  function RecordModel(s: State, o: PublishOutcome): Attempt
    requires HasGlb(s)
  {
    match s.scan.owner
    case ControlPlane(_, _, _) => PublishControlPlane(s, o)
    case Local(_) =>
      if s.scan.localAssets > 0 then Attempted(s, false) else Attempted(s.(scan := s.scan.(localAssets := 1)), true)
    case NoProject => Attempted(s, false)
  }

  function MarkReady(s: State): State
    requires s.task.Some?
  {
    s.(task := Some(s.task.value.(status := Ready, error := None)),
       scan := OfProject(s.scan.(status := CropReady, error := None), ProjectReady))
  }

  function PublishSavedProject(s: State, o: PublishOutcome): State {
    if s.task.None? || s.task.value.status == Ready then s
    else match EnsureGlb(s, o)
      case Raised(s', message) => Fail(s', Or(message, NOT_PUBLISHED))
      case Attempted(s', _) =>
        if o.unmeasured.Some? then Fail(s', Or(o.unmeasured.value, NOT_PUBLISHED))
        else match RecordModel(s', o)
        case Raised(s'', message) => Fail(s'', Or(message, NOT_PUBLISHED))
        case Attempted(s'', recorded) =>
          if !o.dies then MarkReady(s'') else if recorded then s'' else s
  }

  // ----- the steps of the running system

  datatype Step =
    | ProcessRequest(tokenConfigured: bool)
    | StartJob(start: StartOutcome)
    | StatusRequest(provider: ProviderOutcome)
    | CropRequest(box: string)
    | SaveRequest(name: string)
    | BakeJob(publish: PublishOutcome)
    | UploadUrlRequest(key: string)
    | UploadedRequest(key: string)
    // a worker process ends and takes its scheduled jobs with it
    | LoseJobs(starts: nat, bakes: nat)

  predicate HasStatus(s: State, status: TaskStatus) {
    s.task.Some? && s.task.value.status == status
  }

  function Less(n: nat, k: nat): nat { if n < k then 0 else n - k }

  function Apply(s: State, step: Step): State {
    match step
    case ProcessRequest(tokenConfigured) =>
      var s' := CreateTask(s, tokenConfigured).0;
      if HasStatus(s', Queued) then s'.(starts := s'.starts + 1) else s'
    case StartJob(o) => if s.starts == 0 then s else StartProcessing(s.(starts := s.starts - 1), o)
    case StatusRequest(o) => Refresh(s, o)
    case CropRequest(box) => SetCrop(s, box).0
    case SaveRequest(name) =>
      var s' := QueueSave(s, name).0;
      if HasStatus(s', CropBaking) then s'.(bakes := s'.bakes + 1) else s'
    case BakeJob(o) => if s.bakes == 0 then s else PublishSavedProject(s.(bakes := s.bakes - 1), o)
    case UploadUrlRequest(key) => s.(scan := s.scan.(video := Some(key)))
    case UploadedRequest(key) =>
      s.(scan := OfProject(s.scan.(video := Some(key), status := Uploaded, error := None), InProcess))
    case LoseJobs(starts, bakes) => s.(starts := Less(s.starts, starts), bakes := Less(s.bakes, bakes))
  }

  function Run(s: State, steps: seq<Step>): State
    decreases |steps|
  {
    if steps == [] then s else Run(Apply(s, steps[0]), steps[1..])
  }

  ghost predicate Initial(s: State) {
    && s.task.None? && s.starts == 0 && s.bakes == 0
    && s.scan.modelAssetId.None? && s.scan.publishedAt.None? && s.scan.localAssets == 0 && s.scan.results == []
  }

  // ----- the invariant

  predicate TaskShape(task: Task) {
    && (task.glb.Some? ==> task.serialize.Some?)
    && match task.status
       case Queued => task.serialize.None? && task.glb.None?
       case Uploading => task.glb.None?
       case Processing => task.serialize.Some? && task.glb.None?
       case Expired => task.glb.None?
       case Failed => true
       case _ => task.glb.Some?
  }

  predicate Published(scan: Scan) {
    match scan.owner
    case ControlPlane(_, _, _) => scan.modelAssetId.Some? && scan.publishedAt.Some?
    case Local(_) => scan.localAssets == 1
    case NoProject => true
  }

  predicate ScanShape(scan: Scan) {
    && scan.localAssets <= 1
    && |scan.results| <= 1
    && (scan.modelAssetId.Some? <==> scan.publishedAt.Some?)
    && (scan.modelAssetId.Some? <==> |scan.results| == 1)
  }

  predicate Inv(s: State) {
    && ScanShape(s.scan)
    && (s.task.None? ==> s.bakes == 0)
    && (s.task.Some? ==>
          && TaskShape(s.task.value)
          && (s.bakes > 0 ==> Bakeable(s))
          && (s.task.value.status == Ready ==> Published(s.scan)))
  }

  /** A bake job is only ever scheduled for a task that has its GLB and is being saved. */
  predicate Bakeable(s: State) {
    s.task.Some? && s.task.value.status in {CropBaking, Ready, Failed} && s.task.value.glb.Some?
  }

  lemma StepKeepsInv(s: State, step: Step)
    requires Inv(s)
    ensures Inv(Apply(s, step))
  {
    hide SafeMessage, PublishSavedProject, StartProcessing, Refresh;
    match step
    case BakeJob(o) => if s.bakes > 0 { PublishKeepsInv(s.(bakes := s.bakes - 1), o); }
    case StartJob(o) => if s.starts > 0 { StartKeepsInv(s.(starts := s.starts - 1), o); }
    case StatusRequest(o) => RefreshKeepsInv(s, o);
    case _ =>
  }

  lemma StartKeepsInv(s: State, o: StartOutcome)
    requires Inv(s)
    ensures Inv(StartProcessing(s, o))
  {
    hide SafeMessage;
  }

  lemma RefreshKeepsInv(s: State, o: ProviderOutcome)
    requires Inv(s)
    ensures Inv(Refresh(s, o))
  {
    hide SafeMessage, Published;
  }

  lemma RequestsKeepInv(s: State, tokenConfigured: bool, box: string, name: string)
    ensures Inv(s) ==> Inv(CreateTask(s, tokenConfigured).0)
    ensures Inv(s) ==> Inv(SetCrop(s, box).0)
    ensures Inv(s) ==> Inv(QueueSave(s, name).0)
  {
    hide Strip;
  }

  /** Stripping a text that ends in a visible character leaves that end. */
  lemma {:induction false} StripKeepsEnd(s: string)
    requires s != [] && !IsSpace(s[|s| - 1])
    ensures Strip(s) != [] && Strip(s)[|Strip(s)| - 1] == s[|s| - 1]
  {
    if IsSpace(s[0]) {
      StripKeepsEnd(s[1..]);
    }
  }

  lemma LowerKeepsDot(s: string)
    requires s != [] && s[|s| - 1] == '.'
    ensures Lower(s) != "success"
  {
    assert Lower(s)[|s| - 1] == '.' && "success"[6] == 's';
  }

  lemma UnexpectedEndsInDot()
    ensures 0 < |UNEXPECTED| <= MAX_ERROR && UNEXPECTED[|UNEXPECTED| - 1] == '.'
  {
  }

  /** A stored error is the message's first 2000 characters, unless those spell the provider's word for success. */
  lemma SafeMessageIs(message: string)
    ensures var start := if |message| > 2000 then message[..2000] else message;
            SafeMessage(message) == if Lower(Strip(start)) == "success"
              then "Kiri processing encountered an unexpected response." else start
  {
    hide Strip, Lower;
  }

  /** A stored error is short, and never reads as the provider's word for success. */
  lemma SafeMessageIsSafe(message: string)
    ensures |SafeMessage(message)| <= 2000 && Lower(Strip(SafeMessage(message))) != "success"
  {
    hide Strip, Lower, UNEXPECTED;
    UnexpectedEndsInDot();
    StripKeepsEnd(UNEXPECTED);
    LowerKeepsDot(Strip(UNEXPECTED));
  }

  lemma FailKeepsInv(s: State, message: string)
    requires Inv(s) && Bakeable(s)
    ensures Inv(Fail(s, message))
  {
    hide SafeMessage;
  }

  lemma GlbKeepsInv(s: State, o: PublishOutcome)
    requires Inv(s) && Bakeable(s)
    ensures Inv(EnsureGlb(s, o).s) && Bakeable(EnsureGlb(s, o).s)
    ensures EnsureGlb(s, o).s.task.value.status == s.task.value.status
  {
  }

  lemma RecordKeepsInv(s: State, o: PublishOutcome)
    requires Inv(s) && Bakeable(s)
    ensures var a := RecordModel(s, o);
            && Inv(a.s) && a.s.task == s.task && a.s.bakes == s.bakes
            && (a.Attempted? ==> Published(a.s.scan))
  {
  }

  lemma PublishKeepsInv(s: State, o: PublishOutcome)
    requires Inv(s) && Bakeable(s)
    ensures Inv(PublishSavedProject(s, o))
  {
    GlbKeepsInv(s, o);
    var glb := EnsureGlb(s, o);
    RecordKeepsInv(glb.s, o);
    var model := RecordModel(glb.s, o);
    hide EnsureGlb, RecordModel, Fail;
    if glb.Raised? {
      FailKeepsInv(glb.s, Or(glb.message, NOT_PUBLISHED));
    } else if o.unmeasured.Some? {
      FailKeepsInv(glb.s, Or(o.unmeasured.value, NOT_PUBLISHED));
    } else if model.Raised? {
      FailKeepsInv(model.s, Or(model.message, NOT_PUBLISHED));
    }
  }

  lemma {:induction false} RunKeepsInv(s: State, steps: seq<Step>)
    requires Inv(s)
    ensures Inv(Run(s, steps))
    decreases |steps|
  {
    if steps != [] {
      StepKeepsInv(s, steps[0]);
      hide Apply, Inv;
      RunKeepsInv(Apply(s, steps[0]), steps[1..]);
    }
  }

  // ----- what holds in every reachable state and over every run

  /** In every reachable state the task's status says which of serialize id and GLB it has. */
  lemma StatusTellsWhatTheTaskHas(s: State, steps: seq<Step>)
    requires Initial(s)
    ensures var now := Run(s, steps);
            now.task.Some? ==>
              var task := now.task.value;
              && (task.status == Queued ==> task.serialize.None? && task.glb.None?)
              && (task.status == Processing ==> task.serialize.Some? && task.glb.None?)
              && (task.status in {ReadyForCrop, CropConfigured, CropBaking, Ready} ==>
                    task.serialize.Some? && task.glb.Some?)
              && (task.status == Expired ==> task.glb.None?)
  {
    RunKeepsInv(s, steps);
  }

  /** A task is never deleted, keeps its GLB once it has one, and stays ready once it is. */
  predicate Follows(before: State, after: State) {
    && before.scan.results <= after.scan.results
    && (before.task.Some? ==>
          && after.task.Some?
          && (before.task.value.glb.Some? ==> after.task.value.glb.Some?)
          && (before.task.value.status == Ready ==> after.task == before.task))
  }

  lemma JobsFollow(s: State, start: StartOutcome, provider: ProviderOutcome)
    requires Inv(s)
    ensures Follows(s, StartProcessing(s, start)) && Follows(s, Refresh(s, provider))
  {
    hide SafeMessage;
  }

  lemma PublishFollows(s: State, o: PublishOutcome)
    requires Inv(s) && Bakeable(s)
    ensures Follows(s, PublishSavedProject(s, o))
  {
    GlbKeepsInv(s, o);
    var glb := EnsureGlb(s, o);
    RecordKeepsInv(glb.s, o);
    hide SafeMessage, Inv;
  }

  lemma StepFollows(s: State, step: Step)
    requires Inv(s)
    ensures Follows(s, Apply(s, step))
  {
    hide SafeMessage, StartProcessing, Refresh, PublishSavedProject;
    match step
    case StartJob(o) => if s.starts > 0 { JobsFollow(s.(starts := s.starts - 1), o, StatusRaises("")); }
    case StatusRequest(o) => JobsFollow(s, DiesUploading, o);
    case BakeJob(o) => if s.bakes > 0 { PublishFollows(s.(bakes := s.bakes - 1), o); }
    case _ =>
  }

  lemma {:induction false} RunFollows(s: State, steps: seq<Step>)
    requires Inv(s)
    ensures Follows(s, Run(s, steps))
    decreases |steps|
  {
    if steps != [] {
      StepFollows(s, steps[0]);
      StepKeepsInv(s, steps[0]);
      hide Apply, Inv;
      RunFollows(Apply(s, steps[0]), steps[1..]);
    }
  }

  /** READY is final, and then the model has been published: at most one control-plane result is recorded over
      the whole life of a scan, whatever fails, is retried or dies in between. */
  lemma ReadyIsFinalAndPublishedOnce(s: State, steps: seq<Step>, more: seq<Step>)
    requires Initial(s)
    ensures var now := Run(s, steps);
            var later := Run(now, more);
            && |later.scan.results| <= 1
            && (HasStatus(now, Ready) ==> later.task == now.task && Published(later.scan))
            && (now.task.Some? && now.task.value.glb.Some? ==> later.task.Some? && later.task.value.glb.Some?)
  {
    RunKeepsInv(s, steps);
    RunKeepsInv(Run(s, steps), more);
    RunFollows(Run(s, steps), more);
  }

  function Progress(status: TaskStatus): nat {
    match status
    case Queued => 5
    case Uploading => 15
    case Processing => 55
    case ReadyForCrop => 75
    case CropConfigured => 80
    case CropBaking => 90
    case Ready => 100
    case Failed => 0
    case Expired => 0
  }

  lemma StepDropsOnlyOnFailure(s: State, step: Step)
    requires Inv(s) && s.task.Some?
    ensures var after := Apply(s, step);
            && after.task.Some?
            && (Progress(after.task.value.status) < Progress(s.task.value.status) ==>
                  after.task.value.status == Failed || after.task.value.status == Expired)
  {
    hide SafeMessage;
  }

  /** Over every run: where the progress has dropped, some step in between made the task fail or expire. */
  lemma {:induction false} ProgressDropsOnlyOnFailure(s: State, steps: seq<Step>)
    requires Inv(s) && s.task.Some?
    requires forall i :: 0 < i <= |steps| ==>
               !HasStatus(Run(s, steps[..i]), Failed) && !HasStatus(Run(s, steps[..i]), Expired)
    ensures Run(s, steps).task.Some?
    ensures Progress(Run(s, steps).task.value.status) >= Progress(s.task.value.status)
    decreases |steps|
  {
    if steps != [] {
      var next := Apply(s, steps[0]);
      StepKeepsInv(s, steps[0]);
      StepDropsOnlyOnFailure(s, steps[0]);
      assert Run(s, steps[..1]) == next by {
        assert steps[..1][1..] == [] && steps[..1][0] == steps[0];
        hide Apply;
      }
      assert !HasStatus(Run(s, steps[..1]), Failed) && !HasStatus(Run(s, steps[..1]), Expired);
      hide Apply, Inv, Progress;
      forall i | 0 < i <= |steps[1..]|
        ensures !HasStatus(Run(next, steps[1..][..i]), Failed) && !HasStatus(Run(next, steps[1..][..i]), Expired)
      {
        assert steps[..i + 1][0] == steps[0] && steps[..i + 1][1..] == steps[1..][..i];
        assert Run(s, steps[..i + 1]) == Run(next, steps[1..][..i]);
      }
      ProgressDropsOnlyOnFailure(next, steps[1..]);
    }
  }

  /** A failed or expired task is restarted by exactly one of the two requests: asking for processing again when
      there is no GLB, saving again when there is one. */
  lemma ExactlyOneRestart(s: State, tokenConfigured: bool, name: string)
    requires Inv(s) && s.task.Some? && s.task.value.status in {Failed, Expired}
    requires s.scan.owner.ControlPlane? ==> |Strip(name)| <= 100
    ensures HasStatus(CreateTask(s, tokenConfigured).0, Queued) <==> s.task.value.glb.None?
    ensures HasStatus(QueueSave(s, name).0, CropBaking) <==> s.task.value.glb.Some?
    ensures s.task.value.glb.Some? ==> CreateTask(s, tokenConfigured).0 == s
    ensures s.task.value.glb.None? ==> QueueSave(s, name) == (s, NotReady)
  {
  }

  // ----- which scans can still finish

  /** Killed while uploading: the task says UPLOADING, and no worker will take it up again. */
  predicate Stuck(s: State) {
    && HasStatus(s, Uploading)
    && (s.task.value.serialize.Some? || s.starts == 0)
  }

  predicate CanPublish(scan: Scan) {
    scan.owner.ControlPlane? ==> scan.owner.userId != "" && scan.owner.completionToken != ""
  }

  predicate HasResult(scan: Scan) {
    scan.modelAssetId.Some? && scan.publishedAt.Some?
  }

  /** The stored GLB is one that publish_glb does not accept, and none was published before. */
  predicate Refused(s: State) {
    s.scan.owner.ControlPlane? && !HasResult(s.scan) && HasGlb(s) && !Publishable(s.task.value.glb.value, s.maxOutputMb)
  }

  predicate MayPublish(s: State) { CanPublish(s.scan) && !Refused(s) }

  ghost predicate CanFinish(s: State) {
    exists steps :: HasStatus(Run(s, steps), Ready)
  }

  lemma StuckStaysStuck(s: State, step: Step)
    requires Inv(s) && Stuck(s)
    ensures Stuck(Apply(s, step))
  {
  }

  lemma {:induction false} StuckForever(s: State, steps: seq<Step>)
    requires Inv(s) && Stuck(s)
    ensures Stuck(Run(s, steps))
    decreases |steps|
  {
    if steps != [] {
      StuckStaysStuck(s, steps[0]);
      StepKeepsInv(s, steps[0]);
      hide Apply, Inv, Stuck;
      StuckForever(Apply(s, steps[0]), steps[1..]);
    }
  }

  lemma UnpublishableFails(s: State, message: string)
    requires s.task.Some?
    ensures (MayPublish(Fail(s, message)) <==> MayPublish(s)) && !HasStatus(Fail(s, message), Ready)
  {
    hide SafeMessage, Publishable;
  }

  lemma UnpublishableBakeFails(s: State, o: PublishOutcome)
    requires !MayPublish(s) && !HasStatus(s, Ready)
    ensures !MayPublish(PublishSavedProject(s, o)) && !HasStatus(PublishSavedProject(s, o), Ready)
  {
    forall s': State, message | s'.task.Some? && !MayPublish(s')
      ensures !MayPublish(Fail(s', message)) && !HasStatus(Fail(s', message), Ready)
    {
      UnpublishableFails(s', message);
    }
    hide Fail, Publishable, Refusal;
  }

  lemma UnpublishableJobsFail(s: State, start: StartOutcome, provider: ProviderOutcome)
    requires Inv(s) && !MayPublish(s) && !HasStatus(s, Ready)
    ensures var after := StartProcessing(s, start); !MayPublish(after) && !HasStatus(after, Ready)
    ensures var after := Refresh(s, provider); !MayPublish(after) && !HasStatus(after, Ready)
  {
    hide SafeMessage, ScanShape, Published, Publishable;
  }

  lemma UnpublishableRequestsStay(s: State, step: Step)
    requires Inv(s) && !MayPublish(s) && !HasStatus(s, Ready)
    requires !step.BakeJob? && !step.StartJob? && !step.StatusRequest?
    ensures !MayPublish(Apply(s, step)) && !HasStatus(Apply(s, step), Ready)
  {
    hide ScanShape, Published, Publishable, Strip, SafeMessage, StartProcessing, Refresh, PublishSavedProject;
  }

  lemma FewerJobs(s: State, starts: nat, bakes: nat)
    requires Inv(s) && starts <= s.starts && bakes <= s.bakes
    ensures var s' := s.(starts := starts, bakes := bakes);
            Inv(s') && (MayPublish(s') <==> MayPublish(s)) && (HasStatus(s', Ready) <==> HasStatus(s, Ready))
  {
    hide ScanShape, Published, TaskShape, Publishable;
  }

  lemma UnpublishableStaysUnready(s: State, step: Step)
    requires Inv(s) && !MayPublish(s) && !HasStatus(s, Ready)
    ensures !MayPublish(Apply(s, step)) && !HasStatus(Apply(s, step), Ready)
  {
    hide Inv, MayPublish, HasStatus, PublishSavedProject, StartProcessing, Refresh, CreateTask, SetCrop, QueueSave;
    if step.BakeJob? && s.bakes > 0 {
      FewerJobs(s, s.starts, s.bakes - 1);
      UnpublishableBakeFails(s.(bakes := s.bakes - 1), step.publish);
    } else if step.StartJob? && s.starts > 0 {
      FewerJobs(s, s.starts - 1, s.bakes);
      UnpublishableJobsFail(s.(starts := s.starts - 1), step.start, StatusRaises(""));
    } else if step.StatusRequest? {
      UnpublishableJobsFail(s, DiesUploading, step.provider);
    } else if !step.BakeJob? && !step.StartJob? {
      UnpublishableRequestsStay(s, step);
      hide Apply;
    }
  }

  lemma {:induction false} UnpublishableForever(s: State, steps: seq<Step>)
    requires Inv(s) && !MayPublish(s) && !HasStatus(s, Ready)
    ensures !HasStatus(Run(s, steps), Ready)
    decreases |steps|
  {
    if steps != [] {
      UnpublishableStaysUnready(s, steps[0]);
      StepKeepsInv(s, steps[0]);
      hide Apply, Inv, MayPublish, HasStatus;
      UnpublishableForever(Apply(s, steps[0]), steps[1..]);
    }
  }

  /** A GLB of nothing but its header. */
  const GOOD_GLB: Bytes := [0x67, 0x6C, 0x54, 0x46, 2, 0, 0, 0, 12, 0, 0, 0]

  lemma GoodGlbIsPublishable(maxOutputMb: int)
    ensures Publishable(GOOD_GLB, maxOutputMb)
  {
    assert |GOOD_GLB| == 12 && GlbStream.U32(GOOD_GLB, 4) == 2 && GlbStream.U32(GOOD_GLB, 8) == 12;
    assert GOOD_GLB[..4] == GlbStream.MAGIC;
    assert GlbStream.MaxOutput(maxOutputMb) >= GlbStream.MEBIBYTE by {
      if maxOutputMb > 1 {
        LimitGrows(maxOutputMb);
      }
    }
  }

  lemma LimitGrows(mb: int)
    requires mb >= 1
    ensures GlbStream.MEBIBYTE * mb >= GlbStream.MEBIBYTE
  {
  }

  function GoodPublish(s: State): PublishOutcome {
    var project := if s.scan.owner.ControlPlane? then s.scan.owner.projectId else "";
    PublishOutcome(true, Downloaded(GOOD_GLB), true, None, PublishReturns(project, "asset", "ready"), 0, false)
  }

  /** The next step of the shortest way to READY when everything asked of others succeeds. */
  function HelpfulStep(s: State): Step {
    match s.task
    case None => if ReadyForProcessing(s.scan) then ProcessRequest(true) else UploadedRequest("scan.mp4")
    case Some(task) =>
      (match task.status
       case Failed | Expired => if task.glb.Some? then SaveRequest("shoe") else ProcessRequest(true)
       case Queued | Uploading =>
         if s.starts == 0 then ProcessRequest(true)
         else if s.scan.video.None? then UploadedRequest("scan.mp4")
         else StartJob(Starts("serialize"))
       case Processing => StatusRequest(Answers("success", Downloaded(GOOD_GLB)))
       case ReadyForCrop | CropConfigured => SaveRequest("shoe")
       case CropBaking | Ready =>
         if s.bakes == 0 then SaveRequest("shoe")
         else BakeJob(GoodPublish(s)))
  }

  /** How many helpful steps at most are left. */
  function Distance(s: State): nat {
    match s.task
    case None => if ReadyForProcessing(s.scan) then 9 else 10
    case Some(task) =>
      (match task.status
       case Failed | Expired => if task.glb.Some? then 3 else 8
       case Queued | Uploading => if s.starts == 0 then 7 else if s.scan.video.None? then 6 else 5
       case Processing => 4
       case ReadyForCrop | CropConfigured => 3
       case CropBaking => if s.bakes == 0 then 2 else 1
       case Ready => 0)
  }

  /** The two steps that end with a long exchange: the poll that finds the model, and the bake that publishes it. */
  lemma GoodPollHelps(s: State)
    requires Inv(s) && MayPublish(s) && HasStatus(s, Processing)
    ensures var after := Refresh(s, Answers("success", Downloaded(GOOD_GLB)));
            HasStatus(after, ReadyForCrop) && MayPublish(after)
  {
    GoodGlbIsPublishable(s.maxOutputMb);
    assert MayPoll(s);
    hide SafeMessage, Publishable, Inv;
    var after := Refresh(s, Answers("success", Downloaded(GOOD_GLB)));
    assert "success" !in PROVIDER_ACTIVE && "success" in PROVIDER_DONE;
    assert HasStatus(after, ReadyForCrop);
    assert after.scan.owner == s.scan.owner && after.maxOutputMb == s.maxOutputMb;
    assert after.task.value.glb.value == GOOD_GLB;
  }

  lemma GoodBakeHelps(s: State)
    requires Inv(s) && MayPublish(s) && Bakeable(s)
    ensures var after := PublishSavedProject(s, GoodPublish(s)); HasStatus(after, Ready) && MayPublish(after)
  {
    assert Publishable(s.task.value.glb.value, s.maxOutputMb) ==> s.task.value.glb.value != [];
    hide SafeMessage, Publishable;
  }

  lemma GoodRequestsHelp(s: State)
    requires Inv(s) && MayPublish(s)
    ensures HasGlb(s) && s.task.value.status in {ReadyForCrop, CropConfigured, CropBaking, Failed} ==>
              HasStatus(QueueSave(s, "shoe").0, CropBaking) && MayPublish(QueueSave(s, "shoe").0)
    ensures s.starts > 0 && s.scan.video.Some? && MayStart(s) ==>
              var after := StartProcessing(s.(starts := s.starts - 1), Starts("serialize"));
              HasStatus(after, Processing) && MayPublish(after)
  {
    assert Strip("shoe") == "shoe";
    hide SafeMessage, Strip, Publishable;
  }

  ghost predicate Helps(s: State, step: Step) {
    !Stuck(Apply(s, step)) && MayPublish(Apply(s, step)) && Distance(Apply(s, step)) < Distance(s)
  }

  lemma SchedulingHelps(s: State)
    requires Inv(s) && !Stuck(s) && MayPublish(s)
    requires HelpfulStep(s).ProcessRequest? || HelpfulStep(s).UploadedRequest?
    ensures Helps(s, HelpfulStep(s))
  {
    hide SafeMessage, PublishSavedProject, Refresh, GoodPublish, QueueSave, StartProcessing, Published, ScanShape,
      SetCrop, Publishable;
  }

  lemma WorkingHelps(s: State)
    requires Inv(s) && !Stuck(s) && MayPublish(s) && !HasStatus(s, Ready)
    requires HelpfulStep(s).StartJob? || HelpfulStep(s).StatusRequest?
    ensures Helps(s, HelpfulStep(s))
  {
    if HasStatus(s, Processing) {
      GoodPollHelps(s);
    }
    GoodRequestsHelp(s);
    hide SafeMessage, PublishSavedProject, Refresh, GoodPublish, QueueSave, StartProcessing, CreateTask, Published,
      ScanShape, SetCrop, Publishable, MayPublish;
  }

  lemma SavingHelps(s: State)
    requires Inv(s) && !Stuck(s) && MayPublish(s) && !HasStatus(s, Ready)
    requires HelpfulStep(s).SaveRequest?
    ensures Helps(s, HelpfulStep(s))
  {
    GoodRequestsHelp(s);
    hide SafeMessage, PublishSavedProject, Refresh, GoodPublish, QueueSave, StartProcessing, CreateTask, Published,
      ScanShape, SetCrop, Publishable;
  }

  lemma BakingHelps(s: State)
    requires Inv(s) && !Stuck(s) && MayPublish(s) && !HasStatus(s, Ready)
    requires HelpfulStep(s).BakeJob?
    ensures Helps(s, HelpfulStep(s))
  {
    var taken := s.(bakes := s.bakes - 1);
    assert GoodPublish(taken) == GoodPublish(s);
    assert HelpfulStep(s) == BakeJob(GoodPublish(s));
    assert MayPublish(taken) && Bakeable(taken) && Inv(taken) by { hide Publishable, ScanShape, Published; }
    GoodBakeHelps(taken);
    assert Apply(s, HelpfulStep(s)) == PublishSavedProject(taken, GoodPublish(taken)) by {
      hide PublishSavedProject, GoodPublish, HelpfulStep;
    }
    hide SafeMessage, PublishSavedProject, GoodPublish, HelpfulStep, Apply, Published, ScanShape, MayPublish;
  }

  lemma HelpfulStepHelps(s: State)
    requires Inv(s) && !Stuck(s) && MayPublish(s) && !HasStatus(s, Ready)
    ensures Helps(s, HelpfulStep(s))
  {
    hide Inv, Stuck, MayPublish, HasStatus, Helps;
    match HelpfulStep(s)
    case ProcessRequest(_) => SchedulingHelps(s);
    case UploadedRequest(_) => SchedulingHelps(s);
    case StartJob(_) => WorkingHelps(s);
    case StatusRequest(_) => WorkingHelps(s);
    case BakeJob(_) => BakingHelps(s);
    case _ => SavingHelps(s);
  }

  lemma {:induction false} HelpfulStepsFinish(s: State)
    requires Inv(s) && !Stuck(s) && MayPublish(s)
    ensures CanFinish(s)
    decreases Distance(s)
  {
    if HasStatus(s, Ready) {
      assert Run(s, []) == s;
    } else {
      var step := HelpfulStep(s);
      HelpfulStepHelps(s);
      StepKeepsInv(s, step);
      hide Apply, Inv, Stuck, MayPublish, HasStatus, Distance, HelpfulStep;
      HelpfulStepsFinish(Apply(s, step));
      var steps :| HasStatus(Run(Apply(s, step), steps), Ready);
      assert ([step] + steps)[1..] == steps;
      assert HasStatus(Run(s, [step] + steps), Ready);
    }
  }

  /** From every reachable state the scan can still become READY, unless a worker died while it was uploading and
      left no scheduled start that can resume it, the session never had a complete owner, or its stored GLB is one that
      publishing refuses: neither request fetches another. */
  lemma CanFinishExactlyWhenNotStuck(s: State)
    requires Inv(s)
    ensures CanFinish(s) <==> HasStatus(s, Ready) || (!Stuck(s) && CanPublish(s.scan) && !Refused(s))
  {
    if HasStatus(s, Ready) {
      assert Run(s, []) == s;
    } else if Stuck(s) {
      forall steps ensures !HasStatus(Run(s, steps), Ready) {
        StuckForever(s, steps);
      }
    } else if !MayPublish(s) {
      forall steps ensures !HasStatus(Run(s, steps), Ready) {
        UnpublishableForever(s, steps);
      }
    } else {
      HelpfulStepsFinish(s);
    }
  }

  /** glTF 1.0: the first four bytes are right, and so is the length. */
  const OLD_GLB: Bytes := [0x67, 0x6C, 0x54, 0x46, 1, 0, 0, 0, 12, 0, 0, 0]

  /** A model that passes the test on its first four bytes when it is stored, and is refused whenever it is published:
      the task is polled, cropped and saved, fails, and can never become READY. */
  lemma OldGlbNeverFinishes(s: State, o: PublishOutcome)
    requires Inv(s) && HasStatus(s, Processing) && s.scan.owner.ControlPlane? && !HasResult(s.scan)
    ensures OLD_GLB[..4] == GlbStream.MAGIC
    ensures var polled := Apply(s, StatusRequest(Answers("success", Downloaded(OLD_GLB))));
            HasStatus(polled, ReadyForCrop) && !Stuck(polled) && !CanFinish(polled)
  {
    assert GlbStream.U32(OLD_GLB, 4) == 1;
    assert !Publishable(OLD_GLB, s.maxOutputMb);
    var step := StatusRequest(Answers("success", Downloaded(OLD_GLB)));
    StepKeepsInv(s, step);
    hide SafeMessage, Publishable, Inv;
    CanFinishExactlyWhenNotStuck(Apply(s, step));
  }

  // ----- the service

  /** One scan's rows as the service's methods update them; an outcome stands for what the outside world answers. */
  class KiriPipelineService {
    var task: Option<Task>
    var scan: Scan
    const starts: nat
    const bakes: nat
    const maxOutputMb: int

    constructor (s: State)
      ensures Now() == s && (Inv(s) ==> Valid())
    {
      task, scan, starts, bakes, maxOutputMb := s.task, s.scan, s.starts, s.bakes, s.maxOutputMb;
    }

    function Now(): State
      reads this
    {
      State(task, scan, starts, bakes, maxOutputMb)
    }

    /** The rows are in a shape that requests and jobs can reach. */
    ghost predicate Valid()
      reads this
    {
      Inv(Now())
    }

    method SetProject(status: ProjectStatus)
      modifies this`scan
      ensures scan == OfProject(old(scan), status)
    {
      if scan.owner.Local? {
        scan := scan.(projectStatus := status);
      }
    }

    method FailTask(message: string)
      requires task.Some?
      modifies this
      ensures Now() == Fail(old(Now()), message)
      ensures task.Some? && task.value.error.Some? && |task.value.error.value| <= 2000
      ensures Lower(Strip(task.value.error.value)) != "success" && scan.error == task.value.error
      ensures |message| <= 2000 && Lower(Strip(message)) != "success" ==> task.value.error == Some(message)
      ensures task == Some(old(task).value.(status := Failed, error := task.value.error))
      ensures scan == old(scan).(
                        status := ScanFailed, error := task.value.error,
                        projectStatus := if scan.owner.Local? then ProjectFailed else old(scan).projectStatus)
    {
      SafeMessageIs(message);
      SafeMessageIsSafe(message);
      hide SafeMessage, Lower, Strip;
      var safeMessage := SafeMessage(message);
      task := Some(task.value.(status := Failed, error := Some(safeMessage)));
      scan := scan.(status := ScanFailed, error := Some(safeMessage));
      SetProject(ProjectFailed);
    }

    method CreateKiriTask(tokenConfigured: bool) returns (reply: Reply)
      modifies this
      ensures (Now(), reply) == CreateTask(old(Now()), tokenConfigured)
      ensures old(Valid()) ==> Valid()
      ensures reply.Fine? <==> task.Some?
      ensures reply.NotConfigured? <==> old(task).None? && !tokenConfigured
      ensures reply.NotUploaded? <==>
                && old(task).None? && tokenConfigured && old(scan).video.None?
                && old(scan).status !in {Uploaded, KiriProcessing, KiriReady, ScanCropBaking, CropReady}
      // a new row, or the old one with everything but the crop forgotten
      ensures var restarted :=
                && old(task).Some? && old(task).value.status in {Failed, Expired}
                && old(task).value.glb.None?;
              var cropBox := if restarted then old(task).value.cropBox else None;
              if restarted || (old(task).None? && reply.Fine?) then
                && task == Some(Task(Queued, None, None, None, cropBox, None))
                && scan == old(scan).(
                             status := KiriProcessing, error := None,
                             projectStatus := if scan.owner.Local? then InProcess else old(scan).projectStatus)
              else Now() == old(Now())
    {
      RequestsKeepInv(Now(), tokenConfigured, "", "");
      hide Inv;
      if task.Some? {
        if task.value.status in {Failed, Expired} && task.value.glb.None? {
          task := Some(task.value.(serialize := None, providerStatus := None, status := Queued, error := None));
          scan := scan.(status := KiriProcessing, error := None);
          SetProject(InProcess);
        }
        return Fine;
      }
      if !tokenConfigured {
        return NotConfigured;
      }
      if !ReadyForProcessing(scan) {
        return NotUploaded;
      }
      task := Some(Task(Queued, None, None, None, None, None));
      scan := scan.(status := KiriProcessing, error := None);
      SetProject(InProcess);
      return Fine;
    }

    method Start(o: StartOutcome)
      modifies this
      ensures Now() == StartProcessing(old(Now()), o)
      ensures old(Valid()) ==> Valid()
      ensures var starts :=
                && old(task).Some? && old(task).value.serialize.None?
                && old(task).value.status !in {Ready, Failed, Expired};
              && (!starts ==> Now() == old(Now()))
              && (starts && old(scan).video.None? ==>
                    && HasStatus(Now(), Failed) && task.value.error == Some("Scan video is required.")
                    && task.value.serialize.None? && scan.video.None?)
              && (starts && old(scan).video.Some? ==> StartEnds(old(task).value, old(scan), o))
    {
      if Inv(Now()) {
        StartKeepsInv(Now(), o);
      }
      hide Inv, SafeMessage;
      if task.None? || task.value.serialize.Some? || Terminal(task.value.status) {
        return;
      }
      if scan.video.None? {
        FailTask("Scan video is required.");
        return;
      }
      task := Some(task.value.(status := Uploading));
      if o.DiesUploading? {
        return;
      }
      if o.UploadRaises? {
        FailTask(Or(o.message, NOT_STARTED));
        return;
      }
      task := Some(task.value.(serialize := Some(o.serialize)));
      if o.DeleteRaises? {
        FailTask(Or(o.message, NOT_STARTED));
        return;
      }
      scan := scan.(video := None);
      if o.DiesUploaded? {
        return;
      }
      task := Some(task.value.(status := Processing, providerStatus := Some("uploading"), error := None));
      scan := scan.(status := KiriProcessing);
    }

    /** How an upload of the scan's video ends. */
    predicate StartEnds(before: Task, was: Scan, o: StartOutcome)
      reads this
    {
      && task.Some?
      && task.value.glb == before.glb && task.value.cropBox == before.cropBox
      && match o
         case DiesUploading => task.value == before.(status := Uploading) && scan == was
         case UploadRaises(_) =>
           && task.value.status == Failed && task.value.serialize.None?
           && scan.status == ScanFailed && scan.video == was.video
         case DeleteRaises(serialize, _) =>
           && task.value.status == Failed && task.value.serialize == Some(serialize)
           && scan.status == ScanFailed && scan.video == was.video
         case DiesUploaded(serialize) =>
           && task.value == before.(status := Uploading, serialize := Some(serialize))
           && scan == was.(video := None)
         case Starts(serialize) =>
           && task.value.status == Processing && task.value.serialize == Some(serialize)
           && task.value.providerStatus == Some("uploading") && task.value.error.None?
           && scan == was.(video := None, status := KiriProcessing)
    }

    method RefreshTask(o: ProviderOutcome)
      modifies this
      ensures Now() == Refresh(old(Now()), o)
      ensures old(Valid()) ==> Valid()
      ensures var polls := old(task).Some? && old(task).value.serialize.Some? && old(task).value.status == Processing;
              && (!polls ==> Now() == old(Now()))
              && (polls ==>
                    && task.Some?
                    && (task.value.status == ReadyForCrop <==>
                          o.Answers? && o.status in {"successful", "success", "completed"} && o.download.Downloaded?)
                    && (task.value.status == ReadyForCrop ==>
                          task.value.glb == Some(o.download.file) && task.value.error.None? && scan.status == KiriReady)
                    && (task.value.status == Expired <==> o.Answers? && o.status == "expired")
                    && (task.value.status == Processing <==>
                          || o.StatusRaises?
                          || o.status in {"uploading", "queuing", "queued", "processing"}
                          || (o.status in {"successful", "success", "completed"} && o.download.DownloadRaises?))
                    && (task.value.status != Processing ==> task.value.status in {ReadyForCrop, Expired, Failed}))
    {
      if Inv(Now()) {
        RefreshKeepsInv(Now(), o);
      }
      hide Inv, SafeMessage;
      if task.None? || task.value.serialize.None? || task.value.status != Processing {
        return;
      }
      if o.StatusRaises? {
        task := Some(task.value.(error := Some(Clipped(o.message))));
        return;
      }
      task := Some(task.value.(providerStatus := Some(o.status)));
      if o.status in PROVIDER_ACTIVE {
        task := Some(task.value.(error := None));
      } else if o.status in PROVIDER_DONE {
        if o.download.DownloadRaises? {
          task := Some(task.value.(error := Some(Clipped(o.download.message))));
          return;
        }
        task := Some(task.value.(glb := Some(o.download.file)));
        task := Some(task.value.(status := ReadyForCrop));
        scan := scan.(status := KiriReady);
        task := Some(task.value.(error := None));
      } else if o.status == "expired" {
        task := Some(task.value.(status := Expired));
        scan := scan.(status := ScanFailed);
        task := Some(task.value.(error := Some("Kiri asset expired before it was downloaded.")));
      } else {
        FailTask("Kiri processing failed with status '" + o.status + "'.");
      }
    }

    method ConfigureCrop(box: string) returns (reply: Reply)
      modifies this
      ensures (Now(), reply) == SetCrop(old(Now()), box)
      ensures old(Valid()) ==> Valid()
      ensures reply.NotFound? <==> old(task).None?
      ensures reply.Fine? <==> old(task).Some? && old(task).value.status in {ReadyForCrop, CropConfigured}
      ensures reply.Fine? ==> task == Some(old(task).value.(cropBox := Some(box), status := CropConfigured))
      ensures scan == old(scan) && (!reply.Fine? ==> task == old(task) && (reply.NotFound? || reply.NotReady?))
    {
      RequestsKeepInv(Now(), true, box, "");
      hide Inv;
      if task.None? {
        return NotFound;
      }
      if task.value.status !in {ReadyForCrop, CropConfigured} {
        return NotReady;
      }
      task := Some(task.value.(cropBox := Some(box), status := CropConfigured));
      return Fine;
    }

    method QueueSaveProject(projectName: string) returns (reply: Reply)
      modifies this
      ensures (Now(), reply) == QueueSave(old(Now()), projectName)
      ensures old(Valid()) ==> Valid()
      ensures reply.NotFound? <==> old(task).None?
      ensures reply.NameTooLong? <==>
                && old(task).Some? && old(task).value.status != Ready
                && scan.owner.ControlPlane? && |Strip(projectName)| > 100
      ensures reply.NotReady? <==>
                && old(task).Some? && old(task).value.status != Ready && old(task).value.glb.None?
                && (scan.owner.ControlPlane? ==> |Strip(projectName)| <= 100)
      ensures if reply.Fine? && old(task).value.status in {ReadyForCrop, CropConfigured, Failed}
                then
                  && task == Some(old(task).value.(status := CropBaking, error := None))
                  && scan == old(scan).(
                               status := ScanCropBaking,
                               projectName := if scan.owner.NoProject? then old(scan).projectName
                                              else Strip(projectName),
                               projectStatus := if scan.owner.Local? then InProcess else old(scan).projectStatus)
                else Now() == old(Now())
    {
      RequestsKeepInv(Now(), true, "", projectName);
      hide Inv, Strip;
      if task.None? {
        return NotFound;
      }
      if task.value.status == Ready {
        return Fine;
      }
      var name := Strip(projectName);
      if scan.owner.ControlPlane? && |name| > MAX_CANONICAL_NAME {
        return NameTooLong;
      }
      if task.value.glb.None? {
        return NotReady;
      }
      if task.value.status !in {ReadyForCrop, CropConfigured, Failed} {
        return Fine;
      }
      task := Some(task.value.(status := CropBaking, error := None));
      scan := scan.(status := ScanCropBaking);
      if !scan.owner.NoProject? {
        scan := scan.(projectName := name);
      }
      SetProject(InProcess);
      return Fine;
    }

    /** The download inside a publish; None means it went well. */
    method EnsureSourceGlb(o: PublishOutcome) returns (raised: Option<string>)
      requires task.Some?
      modifies this
      ensures EnsureGlb(old(Now()), o) == if raised.None? then Attempted(Now(), false) else Raised(Now(), raised.value)
      ensures raised.None? ==> task.Some? && task.value.glb.Some? && (o.stored || o.storedAfter)
    {
      if task.value.glb.Some? && o.stored {
        return None;
      }
      if task.value.serialize.None? {
        return Some("Kiri serialize id is missing.");
      }
      if o.download.DownloadRaises? {
        return Some(o.download.message);
      }
      if task.value.glb.None? {
        task := Some(task.value.(glb := Some(o.download.file)));
      }
      return if o.storedAfter then None else Some("Kiri source GLB is missing.");
    }

    method PublishControlPlaneModel(o: PublishOutcome) returns (raised: Option<string>, recorded: bool)
      requires scan.owner.ControlPlane? && HasGlb(Now())
      modifies this
      ensures PublishControlPlane(old(Now()), o) ==
              if raised.None? then Attempted(Now(), recorded) else Raised(Now(), raised.value)
      ensures raised.None? ==> scan.modelAssetId.Some? && scan.publishedAt.Some?
      ensures recorded <==> scan.results != old(scan).results
      ensures recorded ==> old(scan).modelAssetId.None? || old(scan).publishedAt.None?
    {
      if scan.owner.userId == "" || scan.owner.completionToken == "" {
        return Some("Canonical scan ownership is incomplete."), false;
      }
      if scan.modelAssetId.Some? && scan.publishedAt.Some? {
        return None, false;
      }
      var glb := task.value.glb.value;
      if glb == [] {
        return Some("Generated GLB size metadata is missing."), false;
      }
      if !Publishable(glb, maxOutputMb) {
        return Some(Refusal(glb, maxOutputMb, o.answer)), false;
      }
      if o.answer.PublishRaises? {
        return Some(o.answer.message), false;
      }
      if o.answer.projectId != scan.owner.projectId || o.answer.status !in {"raw", "ready"} {
        return Some("Control-plane publish result is inconsistent."), false;
      }
      scan := scan.(modelAssetId := Some(o.answer.assetId));
      scan := scan.(publishedAt := Some(o.now), results := scan.results + [o.answer.assetId]);
      return None, true;
    }

    method Publish(o: PublishOutcome)
      modifies this
      ensures Now() == PublishSavedProject(old(Now()), o)
      ensures old(Valid() && Bakeable(Now())) ==> Valid()
    {
      if Inv(Now()) && Bakeable(Now()) {
        PublishKeepsInv(Now(), o);
      }
      hide Inv, Bakeable, Fail, EnsureGlb, PublishControlPlane;
      var uncommitted := (task, scan);
      if task.None? || task.value.status == Ready {
        return;
      }
      var raised := EnsureSourceGlb(o);
      if raised.Some? {
        FailTask(Or(raised.value, NOT_PUBLISHED));
        return;
      }
      if o.unmeasured.Some? {
        FailTask(Or(o.unmeasured.value, NOT_PUBLISHED));
        return;
      }
      var recorded := false;
      if scan.owner.ControlPlane? {
        raised, recorded := PublishControlPlaneModel(o);
        if raised.Some? {
          FailTask(Or(raised.value, NOT_PUBLISHED));
          return;
        }
      } else if scan.owner.Local? && scan.localAssets == 0 {
        scan := scan.(localAssets := 1);
        recorded := true;
      }
      if o.dies {
        if !recorded {
          // nothing was committed
          task, scan := uncommitted.0, uncommitted.1;
        }
        return;
      }
      task := Some(task.value.(status := Ready, error := None));
      scan := scan.(status := CropReady, error := None);
      SetProject(ProjectReady);
    }
  }
}
