/** The calls on one scan taken apart where other calls may come in between. Every call looks at the task, and writes
    later without looking again: a slow poll, a save or a publish call then writes over whatever the task has become. */
module KiriOverlap {
  import opened Outcomes
  import opened Text
  import opened KiriPipeline

  /** Where a publish call is: its GLB is still to be ensured, it talks to whoever receives the model, or that is
      recorded and only the task is left to be marked. */
  datatype Phase = Fetching | Publishing | Recorded

  /** Any other call that has looked at the task and has still to write. */
  datatype Call =
    | PollCall
    | RestartCall
    | CropCall(box: string)
    | SaveCall(name: string)
    | StartUploading
    | StartUploaded

  /** The rows, and the calls under way. */
  datatype World = World(s: State, bakes: map<nat, Phase>, calls: map<nat, Call>)

  datatype Move =
    // a call that nothing interrupts
    | Other(step: Step)
    // the parts of a publish call
    | Begins(bake: nat)
    | Fetches(bake: nat, fetched: PublishOutcome)
    | Publishes(bake: nat, published: PublishOutcome)
    | Finishes(bake: nat)
    // the parts of the others
    | Looks(id: nat, call: Call)
    | PollLands(id: nat, provider: ProviderOutcome)
    | RequestLands(id: nat)
    | UploadLands(id: nat, start: StartOutcome)
    | StartLands(id: nat)
    // the worker or the request of a call ends
    | Dies(bake: nat)
    | Drops(id: nat)

  // ----- publish calls

  function Ended(w: World, i: nat, s: State): World {
    w.(s := s, bakes := w.bakes - {i})
  }

  function Fails(w: World, i: nat, s: State, message: string): World
    requires s.task.Some?
  {
    Ended(w, i, Fail(s, Or(message, NOT_PUBLISHED)))
  }

  function MovesOn(w: World, i: nat, s: State, phase: Phase): World {
    w.(s := s, bakes := w.bakes[i := phase])
  }

  /** From the task's GLB to the request that publishes it, if there still is anything to publish. The look for a local
      asset and its insertion are two adjacent statements and one move. */
  function FetchGlb(w: World, i: nat, o: PublishOutcome): World
    requires w.s.task.Some?
  {
    match EnsureGlb(w.s, o)
    case Raised(s, message) => Fails(w, i, s, message)
    case Attempted(s, _) =>
      if o.unmeasured.Some? then Fails(w, i, s, o.unmeasured.value)
      else if !CanPublish(s.scan) then Fails(w, i, s, "Canonical scan ownership is incomplete.")
      else match s.scan.owner
        case ControlPlane(_, _, _) => MovesOn(w, i, s, if HasResult(s.scan) then Recorded else Publishing)
        case Local(_) =>
          MovesOn(w, i, if s.scan.localAssets > 0 then s else s.(scan := s.scan.(localAssets := 1)), Recorded)
        case NoProject => MovesOn(w, i, s, Recorded)
  }

  /** The answer arrives at a call that found nothing recorded when it asked. */
  function Record(w: World, i: nat, o: PublishOutcome): World
    requires w.s.scan.owner.ControlPlane? && HasGlb(w.s)
  {
    match PublishControlPlane(w.s.(scan := w.s.scan.(modelAssetId := None, publishedAt := None)), o)
    case Raised(_, message) => Fails(w, i, w.s, message)
    case Attempted(s, _) => MovesOn(w, i, s, Recorded)
  }

  // ----- the other calls

  /** What a call asks of the task when it looks. */
  predicate Admits(s: State, call: Call) {
    match call
    case PollCall => MayPoll(s)
    case RestartCall => MayRestart(s)
    case CropCall(_) => MayCrop(s)
    case SaveCall(name) => MaySave(s) && (s.scan.owner.ControlPlane? ==> |name| <= MAX_CANONICAL_NAME)
    case StartUploading => s.starts > 0 && MayStart(s) && s.scan.video.Some?
    case StartUploaded => false
  }

  /** A start commits UPLOADING before it uploads; the others have not written anything yet. */
  function Look(w: World, i: nat, call: Call): World
    requires Admits(w.s, call)
  {
    var s := if call.StartUploading?
             then w.s.(task := Some(w.s.task.value.(status := Uploading)), starts := w.s.starts - 1) else w.s;
    w.(s := s, calls := w.calls[i := call])
  }

  function Landed(w: World, i: nat, s: State): World {
    w.(s := s, calls := w.calls - {i})
  }

  /** What restart, crop and save write, and the job that their request then schedules. */
  function RequestWrites(s: State, call: Call): State
    requires s.task.Some?
  {
    match call
    case RestartCall => Restart(s).(starts := s.starts + 1)
    case CropCall(box) => Cropped(s, box)
    case SaveCall(name) => Saved(s, name).(bakes := s.bakes + 1)
    case _ => s
  }

  function UploadWrites(w: World, i: nat, o: StartOutcome): World
    requires w.s.task.Some?
  {
    var task := w.s.task.value;
    match o
    case DiesUploading => Landed(w, i, w.s)
    case UploadRaises(message) => Landed(w, i, Fail(w.s, Or(message, NOT_STARTED)))
    case DeleteRaises(serialize, message) =>
      Landed(w, i, Fail(w.s.(task := Some(task.(serialize := Some(serialize)))), Or(message, NOT_STARTED)))
    case DiesUploaded(serialize) => Landed(w, i, Uploads(w.s, serialize))
    case Starts(serialize) => w.(s := Uploads(w.s, serialize), calls := w.calls[i := StartUploaded])
  }

  function Uploads(s: State, serialize: string): State
    requires s.task.Some?
  {
    s.(task := Some(s.task.value.(serialize := Some(serialize))), scan := s.scan.(video := None))
  }

  function StartWrites(s: State): State
    requires s.task.Some?
  {
    s.(task := Some(s.task.value.(status := Processing, providerStatus := Some("uploading"), error := None)),
       scan := s.scan.(status := KiriProcessing))
  }

  predicate IsRequest(call: Call) {
    call.RestartCall? || call.CropCall? || call.SaveCall?
  }

  function ApplyBake(w: World, move: Move): World {
    match move
    case Begins(i) =>
      if w.s.bakes == 0 || i in w.bakes then w
      else
        var s := w.s.(bakes := w.s.bakes - 1);
        if s.task.None? || HasStatus(s, Ready) then w.(s := s) else MovesOn(w, i, s, Fetching)
    case Fetches(i, o) =>
      if i !in w.bakes || !w.bakes[i].Fetching? || w.s.task.None? then w else FetchGlb(w, i, o)
    case Publishes(i, o) =>
      if i !in w.bakes || !w.bakes[i].Publishing? || !HasGlb(w.s) || !w.s.scan.owner.ControlPlane? then w
      else Record(w, i, o)
    case Finishes(i) =>
      if i !in w.bakes || !w.bakes[i].Recorded? || w.s.task.None? then w else Ended(w, i, MarkReady(w.s))
    case Dies(i) => Ended(w, i, w.s)
    case _ => w
  }

  function ApplyCall(w: World, move: Move): World {
    match move
    case Looks(i, call) => if i in w.calls || !Admits(w.s, call) then w else Look(w, i, call)
    case PollLands(i, o) =>
      if i !in w.calls || !w.calls[i].PollCall? || w.s.task.None? then w else Landed(w, i, Polled(w.s, o))
    case RequestLands(i) =>
      if i !in w.calls || !IsRequest(w.calls[i]) || w.s.task.None? then w
      else Landed(w, i, RequestWrites(w.s, w.calls[i]))
    case UploadLands(i, o) =>
      if i !in w.calls || !w.calls[i].StartUploading? || w.s.task.None? then w else UploadWrites(w, i, o)
    case StartLands(i) =>
      if i !in w.calls || !w.calls[i].StartUploaded? || w.s.task.None? then w else Landed(w, i, StartWrites(w.s))
    case Drops(i) => Landed(w, i, w.s)
    case _ => w
  }

  function Apply(w: World, move: Move): World {
    match move
    case Other(step) => if step.BakeJob? then w else w.(s := KiriPipeline.Apply(w.s, step))
    case Begins(_) | Fetches(_, _) | Publishes(_, _) | Finishes(_) | Dies(_) => ApplyBake(w, move)
    case _ => ApplyCall(w, move)
  }

  function Run(w: World, moves: seq<Move>): World
    decreases |moves|
  {
    if moves == [] then w else Run(Apply(w, moves[0]), moves[1..])
  }

  /** Nothing is under way. */
  function Quiet(s: State): World { World(s, map[], map[]) }

  // ----- when READY is final

  /** No call is under way, except publish calls that have recorded their model. */
  predicate AllDone(w: World) {
    w.calls == map[] && forall i <- w.bakes :: w.bakes[i].Recorded?
  }

  lemma ReadyIgnoresRequests(s: State, step: Step)
    requires HasStatus(s, Ready) && !step.BakeJob?
    ensures KiriPipeline.Apply(s, step).task == s.task
  {
  }

  lemma ReadyAdmitsNothing(s: State, call: Call)
    requires HasStatus(s, Ready)
    ensures !Admits(s, call)
  {
  }

  lemma DoneKeepsReady(w: World, move: Move)
    requires HasStatus(w.s, Ready) && AllDone(w)
    ensures HasStatus(Apply(w, move).s, Ready) && AllDone(Apply(w, move))
  {
    if move.Other? && !move.step.BakeJob? {
      ReadyIgnoresRequests(w.s, move.step);
    }
    if move.Looks? {
      ReadyAdmitsNothing(w.s, move.call);
    }
    hide KiriPipeline.Apply, FetchGlb, Record, Admits, Look, UploadWrites, RequestWrites, Polled;
  }

  lemma {:induction false} ReadyStays(w: World, moves: seq<Move>)
    requires HasStatus(w.s, Ready) && AllDone(w)
    ensures HasStatus(Run(w, moves).s, Ready)
    decreases |moves|
  {
    if moves != [] {
      DoneKeepsReady(w, moves[0]);
      hide Apply, AllDone, HasStatus;
      ReadyStays(Apply(w, moves[0]), moves[1..]);
    }
  }

  // ----- what no call but a publish call changes

  /** Nothing has been published, no task or GLB has gone, and the task has not become READY. */
  predicate PublishesNothing(s: State, s': State) {
    && s'.scan.owner == s.scan.owner && s'.scan.results == s.scan.results && s'.scan.localAssets == s.scan.localAssets
    && s'.scan.modelAssetId == s.scan.modelAssetId && s'.scan.publishedAt == s.scan.publishedAt
    && (s.task.Some? ==> s'.task.Some?) && (HasGlb(s) ==> HasGlb(s'))
    && (HasStatus(s', Ready) ==> HasStatus(s, Ready))
  }

  lemma StepPublishesNothing(s: State, step: Step)
    requires !step.BakeJob?
    ensures PublishesNothing(s, KiriPipeline.Apply(s, step))
  {
    if step.StatusRequest? {
      if MayPoll(s) {
        PollPublishesNothing(s, step.provider);
      }
      hide Polled;
    } else if step.StartJob? {
      StartJobPublishesNothing(s, step.start);
      hide StartProcessing;
    } else {
      RowRequestPublishesNothing(s, step);
      hide KiriPipeline.Apply, PublishesNothing;
    }
  }

  lemma RowRequestPublishesNothing(s: State, step: Step)
    requires !step.BakeJob? && !step.StatusRequest? && !step.StartJob?
    ensures PublishesNothing(s, KiriPipeline.Apply(s, step))
  {
    hide PublishSavedProject, Strip, Refresh, StartProcessing;
  }

  lemma StartJobPublishesNothing(s: State, o: StartOutcome)
    ensures s.starts > 0 ==> PublishesNothing(s, StartProcessing(s.(starts := s.starts - 1), o))
  {
    hide SafeMessage;
  }

  lemma PollPublishesNothing(s: State, o: ProviderOutcome)
    requires s.task.Some?
    ensures PublishesNothing(s, Polled(s, o))
  {
    hide SafeMessage;
  }

  lemma FailPublishesNothing(s: State, message: string)
    requires s.task.Some?
    ensures PublishesNothing(s, Fail(s, message))
  {
    hide SafeMessage;
  }

  lemma RequestPublishesNothing(s: State, call: Call)
    requires s.task.Some?
    ensures PublishesNothing(s, RequestWrites(s, call))
  {
  }

  lemma StartPublishesNothing(w: World, i: nat, o: StartOutcome)
    requires w.s.task.Some?
    ensures PublishesNothing(w.s, UploadWrites(w, i, o).s) && PublishesNothing(w.s, StartWrites(w.s))
    ensures UploadWrites(w, i, o).bakes == w.bakes
  {
    hide SafeMessage;
  }

  /** Whatever is not part of a publish call. */
  lemma MovePublishesNothing(w: World, move: Move)
    requires !move.Begins? && !move.Fetches? && !move.Publishes? && !move.Finishes? && !move.Dies?
    ensures PublishesNothing(w.s, Apply(w, move).s) && Apply(w, move).bakes == w.bakes
  {
    match move
    case Other(step) =>
      if !step.BakeJob? { StepPublishesNothing(w.s, step); }
      hide PublishesNothing, KiriPipeline.Apply;
    case Looks(i, call) => hide MayPoll, MayRestart, MayCrop, MaySave;
    case PollLands(i, o) => if w.s.task.Some? { PollPublishesNothing(w.s, o); } hide Polled;
    case RequestLands(i) =>
      if w.s.task.Some? && i in w.calls { RequestPublishesNothing(w.s, w.calls[i]); }
      hide RequestWrites;
    case UploadLands(i, o) =>
      if w.s.task.Some? { StartPublishesNothing(w, i, o); }
      hide UploadWrites;
    case StartLands(i) =>
      if w.s.task.Some? { StartPublishesNothing(w, i, DiesUploading); }
      hide StartWrites;
    case _ =>
  }

  // ----- exactly when

  /** Only a control-plane model is published by a request, and only one that is there. */
  predicate PublishersHaveGlbs(w: World) {
    forall i <- w.bakes :: w.s.task.Some? && (w.bakes[i].Publishing? ==> w.s.scan.owner.ControlPlane? && HasGlb(w.s))
  }

  /** No task appears with a call under way that has looked at one before. */
  predicate CallsHaveTasks(w: World) {
    w.calls != map[] ==> w.s.task.Some?
  }

  lemma BakeKeepsGlbs(w: World, move: Move)
    requires PublishersHaveGlbs(w) && CallsHaveTasks(w)
    ensures PublishersHaveGlbs(ApplyBake(w, move)) && CallsHaveTasks(ApplyBake(w, move))
  {
    hide SafeMessage, Publishable, Refusal;
  }

  lemma LookFindsTask(s: State, call: Call)
    requires Admits(s, call)
    ensures s.task.Some?
  {
  }

  lemma MoveKeepsGlbs(w: World, move: Move)
    requires PublishersHaveGlbs(w) && CallsHaveTasks(w)
    ensures PublishersHaveGlbs(Apply(w, move)) && CallsHaveTasks(Apply(w, move))
  {
    if move.Begins? || move.Fetches? || move.Publishes? || move.Finishes? || move.Dies? {
      BakeKeepsGlbs(w, move);
      hide ApplyBake;
    } else {
      MovePublishesNothing(w, move);
      if move.Looks? && Admits(w.s, move.call) {
        LookFindsTask(w.s, move.call);
      }
      hide KiriPipeline.Apply, Polled, RequestWrites, StartWrites, Admits, Fail, Uploads, ApplyBake, HasStatus;
    }
  }

  lemma {:induction false} RunKeepsGlbs(w: World, moves: seq<Move>)
    requires PublishersHaveGlbs(w) && CallsHaveTasks(w)
    ensures PublishersHaveGlbs(Run(w, moves)) && CallsHaveTasks(Run(w, moves))
    decreases |moves|
  {
    if moves != [] {
      MoveKeepsGlbs(w, moves[0]);
      hide Apply, PublishersHaveGlbs, CallsHaveTasks;
      RunKeepsGlbs(Apply(w, moves[0]), moves[1..]);
    }
  }

  const GLB_LOST :=
    PublishOutcome(false, DownloadRaises("lost"), false, Some("lost"), PublishRaises("refused"), 0, false)

  /** A publish call that has not recorded its model yet can still fail, whatever status the task has by then. */
  lemma LateBakeFails(w: World, i: nat) returns (move: Move)
    requires i in w.bakes && !w.bakes[i].Recorded? && PublishersHaveGlbs(w)
    ensures HasStatus(Run(w, [move]).s, Failed)
  {
    hide SafeMessage, Refusal;
    move := if w.bakes[i].Fetching? then Fetches(i, GLB_LOST) else Publishes(i, GLB_LOST);
    assert Run(w, [move]) == Apply(w, move);
  }

  /** Any other call under way writes a status that is not READY. */
  lemma LateCallUndoesReady(w: World, i: nat) returns (move: Move)
    requires i in w.calls && CallsHaveTasks(w)
    ensures !HasStatus(Run(w, [move]).s, Ready)
  {
    hide SafeMessage;
    match w.calls[i] {
      case PollCall => move := PollLands(i, Answers("expired", DownloadRaises("")));
      case StartUploading => move := UploadLands(i, UploadRaises(""));
      case StartUploaded => move := StartLands(i);
      case _ => move := RequestLands(i);
    }
    assert Run(w, [move]) == Apply(w, move);
  }

  /** Whatever ran before: READY is final exactly when every publish call under way has recorded its model and no other
      call is under way. A call that still has to look finds READY and leaves it; one that has looked does not look
      again. */
  lemma ReadyIsFinalExactlyWhenAllIsDone(s: State, moves: seq<Move>)
    requires HasStatus(Run(Quiet(s), moves).s, Ready)
    ensures var w := Run(Quiet(s), moves);
            (forall more :: HasStatus(Run(w, more).s, Ready)) <==> AllDone(w)
  {
    RunKeepsGlbs(Quiet(s), moves);
    var w := Run(Quiet(s), moves);
    hide Run, PublishersHaveGlbs, CallsHaveTasks;
    if AllDone(w) {
      forall more ensures HasStatus(Run(w, more).s, Ready) {
        ReadyStays(w, more);
      }
    } else if w.calls != map[] {
      var i :| i in w.calls;
      var move := LateCallUndoesReady(w, i);
      assert !HasStatus(Run(w, [move]).s, Ready);
    } else {
      var i :| i in w.bakes && !w.bakes[i].Recorded?;
      var move := LateBakeFails(w, i);
      assert !HasStatus(Run(w, [move]).s, Ready);
    }
  }

  // ----- publish calls that do not overlap

  predicate AtMostOne(w: World) {
    forall i, j | i in w.bakes && j in w.bakes :: i == j
  }

  /** At no time are two publish calls under way; anything else may be. */
  predicate Serial(w: World, moves: seq<Move>)
    decreases |moves|
  {
    AtMostOne(w) && (moves != [] ==> Serial(Apply(w, moves[0]), moves[1..]))
  }

  predicate PhaseHolds(s: State, phase: Phase) {
    && s.task.Some? && !HasStatus(s, Ready)
    && (phase.Publishing? ==> s.scan.owner.ControlPlane? && HasGlb(s) && s.scan.modelAssetId.None?)
    && (phase.Recorded? ==> Published(s.scan))
  }

  ghost predicate WorldHolds(w: World) {
    && ScanShape(w.s.scan)
    && (HasStatus(w.s, Ready) ==> Published(w.s.scan))
    && AtMostOne(w)
    && forall i <- w.bakes :: PhaseHolds(w.s, w.bakes[i])
  }

  lemma OthersKeepWorld(w: World, w': World)
    requires WorldHolds(w) && PublishesNothing(w.s, w'.s) && w'.bakes == w.bakes
    ensures WorldHolds(w')
  {
  }

  lemma FailedHolds(w: World, i: nat, s: State, message: string)
    requires w.bakes.Keys == {i} && ScanShape(s.scan) && s.task.Some?
    ensures WorldHolds(Fails(w, i, s, message))
  {
    hide SafeMessage;
  }

  lemma MovedOnHolds(w: World, i: nat, s: State, phase: Phase)
    requires w.bakes.Keys == {i} && ScanShape(s.scan) && PhaseHolds(s, phase)
    ensures WorldHolds(MovesOn(w, i, s, phase))
  {
    hide PhaseHolds, ScanShape;
    assert s.task.Some? && !HasStatus(s, Ready) by { PhaseIsNotReady(s, phase); }
  }

  lemma PhaseIsNotReady(s: State, phase: Phase)
    requires PhaseHolds(s, phase)
    ensures s.task.Some? && !HasStatus(s, Ready)
  {
  }

  lemma EnsuredHolds(s: State, o: PublishOutcome)
    requires PhaseHolds(s, Fetching)
    ensures PhaseHolds(EnsureGlb(s, o).s, Fetching) && EnsureGlb(s, o).s.scan == s.scan
  {
  }

  lemma FetchedHolds(w: World, i: nat, s: State, o: PublishOutcome)
    requires w.bakes.Keys == {i} && ScanShape(s.scan) && PhaseHolds(s, Fetching) && HasGlb(s)
    requires w.s.task.Some? && EnsureGlb(w.s, o) == Attempted(s, false)
    ensures WorldHolds(FetchGlb(w, i, o))
  {
    var recorded := s.(scan := s.scan.(localAssets := 1));
    hide EnsureGlb, WorldHolds, Fails;
    if o.unmeasured.Some? {
      FailedHolds(w, i, s, o.unmeasured.value);
    } else if !CanPublish(s.scan) {
      FailedHolds(w, i, s, "Canonical scan ownership is incomplete.");
    } else if s.scan.owner.ControlPlane? {
      MovedOnHolds(w, i, s, if HasResult(s.scan) then Recorded else Publishing);
    } else if s.scan.owner.Local? && s.scan.localAssets == 0 {
      MovedOnHolds(w, i, recorded, Recorded);
    } else {
      MovedOnHolds(w, i, s, Recorded);
    }
  }

  lemma FetchKeeps(w: World, i: nat, o: PublishOutcome)
    requires WorldHolds(w) && i in w.bakes && w.bakes[i].Fetching?
    ensures WorldHolds(FetchGlb(w, i, o))
  {
    assert PhaseHolds(w.s, Fetching) && w.bakes.Keys == {i};
    EnsuredHolds(w.s, o);
    match EnsureGlb(w.s, o)
    case Raised(s, message) =>
      hide EnsureGlb, Fails, WorldHolds;
      FailedHolds(w, i, s, message);
    case Attempted(s, _) =>
      assert EnsureGlb(w.s, o) == Attempted(s, false);
      hide EnsureGlb, Fails, WorldHolds, FetchGlb, ScanShape;
      FetchedHolds(w, i, s, o);
  }

  lemma RecordKeeps(w: World, i: nat, o: PublishOutcome)
    requires WorldHolds(w) && i in w.bakes && w.bakes[i].Publishing?
    ensures w.s.scan.owner.ControlPlane? && HasGlb(w.s) && WorldHolds(Record(w, i, o))
  {
    assert PhaseHolds(w.s, w.bakes[i]) && w.bakes.Keys == {i};
    var s := w.s.(scan := w.s.scan.(modelAssetId := None, publishedAt := None));
    assert s == w.s;
    var a := PublishControlPlane(s, o);
    hide Fails, Publishable, Refusal;
    if a.Raised? {
      FailedHolds(w, i, w.s, a.message);
    }
  }

  lemma OtherBakeMovesKeep(w: World, move: Move)
    requires WorldHolds(w) && AtMostOne(ApplyBake(w, move)) && (move.Begins? || move.Finishes? || move.Dies?)
    ensures WorldHolds(ApplyBake(w, move))
  {
  }

  lemma MoveKeepsWorld(w: World, move: Move)
    requires WorldHolds(w) && AtMostOne(Apply(w, move))
    ensures WorldHolds(Apply(w, move))
  {
    match move
    case Fetches(i, o) =>
      if i in w.bakes && w.bakes[i].Fetching? { FetchKeeps(w, i, o); }
      hide WorldHolds, FetchGlb, ApplyCall;
    case Publishes(i, o) =>
      if i in w.bakes && w.bakes[i].Publishing? { RecordKeeps(w, i, o); }
      hide WorldHolds, Record, ApplyCall;
    case Begins(_) | Finishes(_) | Dies(_) =>
      OtherBakeMovesKeep(w, move);
      hide WorldHolds, ApplyBake, ApplyCall;
    case _ =>
      MovePublishesNothing(w, move);
      hide Apply, WorldHolds, PublishesNothing;
      OthersKeepWorld(w, Apply(w, move));
  }

  lemma {:induction false} SerialRunHolds(w: World, moves: seq<Move>)
    requires WorldHolds(w) && Serial(w, moves)
    ensures WorldHolds(Run(w, moves))
    decreases |moves|
  {
    if moves != [] {
      assert AtMostOne(Apply(w, moves[0])) by { hide Apply; }
      MoveKeepsWorld(w, moves[0]);
      hide Apply, WorldHolds;
      SerialRunHolds(Apply(w, moves[0]), moves[1..]);
    }
  }

  /** As long as no two publish calls overlap, whatever else comes between the parts of any calls: at most one
      control-plane result is recorded, READY means that the model was published, and READY is final exactly when no
      other call is under way. */
  lemma SerialBakesPublishOnce(s: State, moves: seq<Move>)
    requires Initial(s) && Serial(Quiet(s), moves)
    ensures var w := Run(Quiet(s), moves);
            && |w.s.scan.results| <= 1
            && (HasStatus(w.s, Ready) ==>
                  && Published(w.s.scan)
                  && ((forall more :: HasStatus(Run(w, more).s, Ready)) <==> w.calls == map[]))
  {
    SerialRunHolds(Quiet(s), moves);
    var w := Run(Quiet(s), moves);
    if HasStatus(w.s, Ready) {
      assert w.bakes == map[];
      hide Run;
      ReadyIsFinalExactlyWhenAllIsDone(s, moves);
    }
  }

  // ----- an answer that comes too late

  lemma ExpiredMoveStays(w: World, move: Move)
    requires HasStatus(w.s, Expired) && HasGlb(w.s) && w.s.bakes == 0 && w.bakes == map[] && w.calls == map[]
    ensures var w' := Apply(w, move);
            HasStatus(w'.s, Expired) && HasGlb(w'.s) && w'.s.bakes == 0 && w'.bakes == map[] && w'.calls == map[]
  {
    hide SafeMessage, Strip, Polled, FetchGlb, Record, UploadWrites, RequestWrites;
  }

  /** EXPIRED with a GLB, and nothing under way: create_task does not restart it, and save does not bake it. */
  lemma {:induction false} ExpiredWithGlbStays(w: World, moves: seq<Move>)
    requires HasStatus(w.s, Expired) && HasGlb(w.s) && w.s.bakes == 0 && w.bakes == map[] && w.calls == map[]
    ensures HasStatus(Run(w, moves).s, Expired)
    decreases |moves|
  {
    if moves != [] {
      ExpiredMoveStays(w, moves[0]);
      hide Apply;
      ExpiredWithGlbStays(Apply(w, moves[0]), moves[1..]);
    }
  }

  const SCAN := Scan(ControlPlane("project", "user", "token"), None, KiriProcessing, None, "", Draft, None, None, 0, [])

  const POLLED := State(Some(Task(Processing, Some("serialize"), None, None, None, None)), SCAN, 0, 0, 100)

  const SUCCESS := Answers("success", Downloaded(GOOD_GLB))
  const EXPIRY := Answers("expired", DownloadRaises(""))

  const CROPPED_TASK := Task(ReadyForCrop, Some("serialize"), Some("success"), Some(GOOD_GLB), None, None)
  const CROPPED := State(Some(CROPPED_TASK), SCAN.(status := KiriReady), 0, 0, 100)

  lemma {:induction false} Follow(moves: seq<Move>, worlds: seq<World>)
    requires |worlds| == |moves| + 1
    requires forall i :: 0 <= i < |moves| ==> Apply(worlds[i], moves[i]) == worlds[i + 1]
    ensures Run(worlds[0], moves) == worlds[|moves|]
    decreases |moves|
  {
    hide Apply;
    if moves != [] {
      Follow(moves[1..], worlds[1..]);
    }
  }

  lemma PollSucceeds()
    ensures KiriPipeline.Apply(POLLED, StatusRequest(SUCCESS)) == CROPPED
    ensures Polled(POLLED, SUCCESS) == CROPPED
  {
    assert "success" !in PROVIDER_ACTIVE && "success" in PROVIDER_DONE;
  }

  /** Two polls look while Kiri is processing. One stores the model; the other was told that it has expired, and the
      scan is lost for good. */
  lemma LateExpiryStrands(moves: seq<Move>)
    ensures var w := Run(Quiet(POLLED),
                         [Looks(0, PollCall), Looks(1, PollCall), PollLands(0, SUCCESS), PollLands(1, EXPIRY)]);
            HasGlb(w.s) && HasStatus(w.s, Expired) && HasStatus(Run(w, moves).s, Expired)
  {
    PollSucceeds();
    assert "expired" !in PROVIDER_ACTIVE && "expired" !in PROVIDER_DONE;
    var w1 := Quiet(POLLED).(calls := map[0 := PollCall]);
    var w2 := w1.(calls := map[0 := PollCall, 1 := PollCall]);
    var w3 := World(CROPPED, map[], map[1 := PollCall]);
    var w4 := Quiet(Polled(CROPPED, EXPIRY));
    assert Apply(Quiet(POLLED), Looks(0, PollCall)) == w1;
    assert Apply(w1, Looks(1, PollCall)) == w2;
    assert Apply(w2, PollLands(0, SUCCESS)) == w3 by { hide Polled; }
    assert Apply(w3, PollLands(1, EXPIRY)) == w4 by { hide Polled; }
    assert HasGlb(w4.s) && HasStatus(w4.s, Expired) && w4.s.bakes == 0;
    hide Apply, Polled;
    Follow([Looks(0, PollCall), Looks(1, PollCall), PollLands(0, SUCCESS), PollLands(1, EXPIRY)],
           [Quiet(POLLED), w1, w2, w3, w4]);
    ExpiredWithGlbStays(w4, moves);
  }

  // ----- a save and a bake

  const GOOD :=
    PublishOutcome(true, Downloaded(GOOD_GLB), true, None, PublishReturns("project", "asset", "ready"), 0, false)

  const SAVED_SCAN := CROPPED.scan.(projectName := "shoe", status := ScanCropBaking)
  const PUBLISHED_SCAN := SAVED_SCAN.(modelAssetId := Some("asset"), publishedAt := Some(0), results := ["asset"])

  function Saving(phases: map<nat, Phase>, calls: map<nat, Call>, scan: Scan): World {
    World(State(Some(CROPPED_TASK.(status := CropBaking)), scan, 0, 0, 100), phases, calls)
  }

  lemma SaveBegins(calls: map<nat, Call>)
    ensures var w := Apply(World(CROPPED, map[], calls), Other(SaveRequest("shoe")));
            w == Saving(map[], calls, SAVED_SCAN).(s := Saving(map[], calls, SAVED_SCAN).s.(bakes := 1))
            && Apply(w, Begins(0)) == Saving(map[0 := Fetching], calls, SAVED_SCAN)
  {
    assert Strip("shoe") == "shoe";
  }

  lemma FetchesGlb(w: World, i: nat)
    requires w.s == Saving(map[], map[], SAVED_SCAN).s && i in w.bakes && w.bakes[i].Fetching?
    ensures Apply(w, Fetches(i, GOOD)) == MovesOn(w, i, w.s, Publishing)
  {
  }

  lemma RecordsAsset(w: World, i: nat, scan: Scan)
    requires w.s == Saving(map[], map[], scan).s && i in w.bakes && w.bakes[i].Publishing?
    requires scan.owner == SAVED_SCAN.owner
    ensures Apply(w, Publishes(i, GOOD)) ==
            Saving(w.bakes[i := Recorded], w.calls,
                   scan.(modelAssetId := Some("asset"), publishedAt := Some(0), results := scan.results + ["asset"]))
  {
    GoodGlbIsPublishable(100);
    hide Publishable;
  }

  function BakeParts(): seq<Move> { [Fetches(0, GOOD), Publishes(0, GOOD), Finishes(0)] }

  function ReadyWorld(phases: map<nat, Phase>, calls: map<nat, Call>): World {
    Saving(phases, calls, PUBLISHED_SCAN).(s := MarkReady(Saving(phases, calls, PUBLISHED_SCAN).s))
  }

  lemma BakeFinishes(phases: map<nat, Phase>, calls: map<nat, Call>)
    requires 0 in phases && phases[0].Fetching?
    ensures Run(Saving(phases, calls, SAVED_SCAN), BakeParts()) == ReadyWorld(phases - {0}, calls)
  {
    var w0 := Saving(phases, calls, SAVED_SCAN);
    var w1 := MovesOn(w0, 0, w0.s, Publishing);
    var w2 := Saving(phases[0 := Recorded], calls, PUBLISHED_SCAN);
    FetchesGlb(w0, 0);
    RecordsAsset(w1, 0, SAVED_SCAN);
    assert w1.bakes[0 := Recorded] == w2.bakes;
    assert w2.bakes - {0} == phases - {0};
    assert Apply(w2, Finishes(0)) == ReadyWorld(phases - {0}, calls);
    hide Apply, Saving, MovesOn, ReadyWorld;
    Follow(BakeParts(), [w0, w1, w2, ReadyWorld(phases - {0}, calls)]);
  }

  /** A poll looks while Kiri is processing and is slow; another stores the model, it is saved and baked. */
  function PollOvertaken(): seq<Move> {
    [Looks(0, PollCall), Other(StatusRequest(SUCCESS)), Other(SaveRequest("shoe")), Begins(0)]
  }

  lemma OvertakenPollIsLeft()
    ensures Run(Quiet(POLLED), PollOvertaken()) == Saving(map[0 := Fetching], map[0 := PollCall], SAVED_SCAN)
  {
    var calls := map[0 := PollCall];
    var w1 := World(POLLED, map[], calls);
    var w2 := World(CROPPED, map[], calls);
    var w3 := Apply(w2, Other(SaveRequest("shoe")));
    var w4 := Saving(map[0 := Fetching], calls, SAVED_SCAN);
    assert Apply(Quiet(POLLED), Looks(0, PollCall)) == w1;
    PollSucceeds();
    assert Apply(w1, Other(StatusRequest(SUCCESS))) == w2 by { hide KiriPipeline.Apply; }
    SaveBegins(calls);
    hide Apply, Saving;
    Follow(PollOvertaken(), [Quiet(POLLED), w1, w2, w3, w4]);
  }

  lemma LatePollWrites()
    ensures HasStatus(ReadyWorld(map[], map[0 := PollCall]).s, Ready)
    ensures HasStatus(Run(ReadyWorld(map[], map[0 := PollCall]), [PollLands(0, SUCCESS)]).s, ReadyForCrop)
  {
    assert "success" !in PROVIDER_ACTIVE && "success" in PROVIDER_DONE;
    var w := ReadyWorld(map[], map[0 := PollCall]);
    assert Run(w, [PollLands(0, SUCCESS)]) == Apply(w, PollLands(0, SUCCESS));
  }

  /** No two publish calls overlap and none is left: READY, and the slow poll turns it into READY_FOR_CROP. */
  lemma LatePollUndoesReady()
    ensures var ready := Run(Run(Quiet(POLLED), PollOvertaken()), BakeParts());
            && HasStatus(ready.s, Ready) && ready.bakes == map[]
            && HasStatus(Run(ready, [PollLands(0, SUCCESS)]).s, ReadyForCrop)
  {
    OvertakenPollIsLeft();
    BakeFinishes(map[0 := Fetching], map[0 := PollCall]);
    assert map[0 := Fetching] - {0} == map[];
    LatePollWrites();
    hide Run, Apply, PollOvertaken, BakeParts, Saving, HasStatus;
    assert ReadyWorld(map[], map[0 := PollCall]).bakes == map[] by { ReadyHasNoBakes(); }
  }

  lemma ReadyHasNoBakes()
    ensures ReadyWorld(map[], map[0 := PollCall]).bakes == map[]
  {
  }

  // ----- two bakes

  const BOTH_FETCHING := map[0 := Fetching, 1 := Fetching]

  /** Two saves, and both scheduled bakes have begun. */
  function TwoBakes(): seq<Move> {
    [Other(SaveRequest("shoe")), Other(SaveRequest("shoe")), Begins(0), Begins(1)]
  }

  lemma TwoSavesStartTwoBakes()
    ensures Run(Quiet(CROPPED), TwoBakes()) == Saving(BOTH_FETCHING, map[], SAVED_SCAN)
  {
    assert Strip("shoe") == "shoe";
    var w1 := Saving(map[], map[], SAVED_SCAN).(s := Saving(map[], map[], SAVED_SCAN).s.(bakes := 1));
    var w2 := w1.(s := w1.s.(bakes := 2));
    var w3 := w1.(bakes := map[0 := Fetching]);
    var w4 := Saving(BOTH_FETCHING, map[], SAVED_SCAN);
    assert Apply(Quiet(CROPPED), TwoBakes()[0]) == w1;
    assert Apply(w1, TwoBakes()[1]) == w2;
    assert Apply(w2, TwoBakes()[2]) == w3;
    assert Apply(w3, TwoBakes()[3]) == w4;
    Follow(TwoBakes(), [Quiet(CROPPED), w1, w2, w3, w4]);
  }

  lemma SecondBakeFails()
    ensures HasStatus(ReadyWorld(map[1 := Fetching], map[]).s, Ready)
    ensures HasStatus(Run(ReadyWorld(map[1 := Fetching], map[]), [Fetches(1, GLB_LOST)]).s, Failed)
  {
    hide SafeMessage;
    var w := ReadyWorld(map[1 := Fetching], map[]);
    assert Run(w, [Fetches(1, GLB_LOST)]) == Apply(w, Fetches(1, GLB_LOST));
  }

  /** The first bake makes the task READY, the second loses its GLB and turns it into FAILED. */
  lemma SecondBakeUndoesReady()
    ensures var ready := Run(Run(Quiet(CROPPED), TwoBakes()), BakeParts());
            HasStatus(ready.s, Ready) && HasStatus(Run(ready, [Fetches(1, GLB_LOST)]).s, Failed)
  {
    TwoSavesStartTwoBakes();
    BakeFinishes(BOTH_FETCHING, map[]);
    assert BOTH_FETCHING - {0} == map[1 := Fetching];
    SecondBakeFails();
    hide Run, Apply, TwoBakes, BakeParts, Saving, HasStatus, ReadyWorld;
  }

  function BothPublish(): seq<Move> { [Fetches(0, GOOD), Fetches(1, GOOD), Publishes(0, GOOD), Publishes(1, GOOD)] }

  lemma BothRecord()
    ensures Run(Saving(BOTH_FETCHING, map[], SAVED_SCAN), BothPublish()).s.scan.results == ["asset", "asset"]
  {
    var w0 := Saving(BOTH_FETCHING, map[], SAVED_SCAN);
    var w1 := MovesOn(w0, 0, w0.s, Publishing);
    var w2 := MovesOn(w1, 1, w0.s, Publishing);
    var w3 := Saving(w2.bakes[0 := Recorded], map[], PUBLISHED_SCAN);
    var w4 := Saving(w3.bakes[1 := Recorded], map[], PUBLISHED_SCAN.(results := ["asset", "asset"]));
    FetchesGlb(w0, 0);
    FetchesGlb(w1, 1);
    RecordsAsset(w2, 0, SAVED_SCAN);
    RecordsAsset(w3, 1, PUBLISHED_SCAN);
    assert w4.s.scan.results == ["asset", "asset"];
    hide Apply, MovesOn, Saving;
    Follow(BothPublish(), [w0, w1, w2, w3, w4]);
  }

  /** Both bakes find nothing recorded and each records a result. */
  lemma TwoBakesRecordTwice()
    ensures Run(Run(Quiet(CROPPED), TwoBakes()), BothPublish()).s.scan.results == ["asset", "asset"]
  {
    hide *;
    TwoSavesStartTwoBakes();
    BothRecord();
  }

  // ----- calls that nothing interrupts

  /** Taken apart and run without interruption, a poll is the poll of the service. */
  lemma WholePoll(s: State, i: nat, o: ProviderOutcome)
    requires MayPoll(s)
    ensures Apply(Apply(Quiet(s), Looks(i, PollCall)), PollLands(i, o)) ==
            Quiet(KiriPipeline.Apply(s, StatusRequest(o)))
  {
    hide Polled;
    assert Landed(Look(Quiet(s), i, PollCall), i, Polled(s, o)) == Quiet(Polled(s, o));
  }

  function LookAndWrite(s: State, i: nat, call: Call): World {
    Apply(Apply(Quiet(s), Looks(i, call)), RequestLands(i))
  }

  /** So are a restart, a crop and a save. */
  lemma WholeRequests(s: State, i: nat, tokenConfigured: bool, box: string, name: string)
    ensures MayRestart(s) ==>
              LookAndWrite(s, i, RestartCall) == Quiet(KiriPipeline.Apply(s, ProcessRequest(tokenConfigured)))
    ensures MayCrop(s) ==> LookAndWrite(s, i, CropCall(box)) == Quiet(KiriPipeline.Apply(s, CropRequest(box)))
    ensures MaySave(s) && (s.scan.owner.ControlPlane? ==> |Strip(name)| <= 100) ==>
              LookAndWrite(s, i, SaveCall(Strip(name))) == Quiet(KiriPipeline.Apply(s, SaveRequest(name)))
  {
    RequestLandsAtOnce(s, i, RestartCall);
    RequestLandsAtOnce(s, i, CropCall(box));
    RequestLandsAtOnce(s, i, SaveCall(Strip(name)));
    hide Apply, Strip;
  }

  lemma RequestLandsAtOnce(s: State, i: nat, call: Call)
    requires IsRequest(call)
    ensures Admits(s, call) ==> s.task.Some? && LookAndWrite(s, i, call) == Quiet(RequestWrites(s, call))
  {
    if Admits(s, call) {
      hide RequestWrites;
      assert Landed(Look(Quiet(s), i, call), i, RequestWrites(s, call)) == Quiet(RequestWrites(s, call));
    }
  }

  /** And a start, in its three parts. */
  lemma WholeStart(s: State, i: nat, o: StartOutcome)
    requires s.starts > 0 && MayStart(s) && s.scan.video.Some?
    ensures var looked := Apply(Quiet(s), Looks(i, StartUploading));
            Apply(Apply(looked, UploadLands(i, o)), StartLands(i)) == Quiet(KiriPipeline.Apply(s, StartJob(o)))
  {
    hide SafeMessage;
    var looked := Apply(Quiet(s), Looks(i, StartUploading));
    var uploaded := Apply(looked, UploadLands(i, o));
    if o.Starts? {
      assert uploaded.calls[i] == StartUploaded && uploaded.calls - {i} == map[];
    } else {
      assert uploaded.calls == map[];
    }
  }

  function PublishParts(w: World, i: nat, o: PublishOutcome): World {
    Apply(Apply(Apply(w, Fetches(i, o)), Publishes(i, o)), if o.dies then Dies(i) else Finishes(i))
  }

  lemma RecordedParts(s: State, i: nat, o: PublishOutcome)
    requires HasGlb(s) && !HasStatus(s, Ready) && s.scan.owner.ControlPlane? && HasResult(s.scan)
    ensures PublishParts(World(s, map[i := Fetching], map[]), i, o) == Quiet(PublishSavedProject(s, o))
  {
    hide Fail, Publishable, Refusal, EnsureGlb;
    assert map[i := Fetching] - {i} == map[] && map[i := Recorded] - {i} == map[];
  }

  lemma ControlPlaneParts(s: State, i: nat, o: PublishOutcome)
    requires HasGlb(s) && !HasStatus(s, Ready) && s.scan.owner.ControlPlane? && ScanShape(s.scan)
    requires !HasResult(s.scan)
    ensures PublishParts(World(s, map[i := Fetching], map[]), i, o) == Quiet(PublishSavedProject(s, o))
  {
    hide Fail, Publishable, Refusal, EnsureGlb;
    assert map[i := Fetching] - {i} == map[] && map[i := Recorded] - {i} == map[];
    assert map[i := Publishing] - {i} == map[];
    assert s.scan.(modelAssetId := None, publishedAt := None) == s.scan;
  }

  lemma LocalParts(s: State, i: nat, o: PublishOutcome)
    requires HasGlb(s) && !HasStatus(s, Ready) && !s.scan.owner.ControlPlane?
    ensures PublishParts(World(s, map[i := Fetching], map[]), i, o) == Quiet(PublishSavedProject(s, o))
  {
    hide Fail, Publishable, Refusal, EnsureGlb, PublishControlPlane;
    assert map[i := Fetching] - {i} == map[] && map[i := Recorded] - {i} == map[];
  }

  /** A publish call in its four parts leaves what a bake leaves, whatever it meets. */
  lemma WholeBake(s: State, i: nat, o: PublishOutcome)
    requires Inv(s) && Bakeable(s) && s.bakes > 0
    ensures PublishParts(Apply(Quiet(s), Begins(i)), i, o) == Quiet(KiriPipeline.Apply(s, BakeJob(o)))
  {
    var taken := s.(bakes := s.bakes - 1);
    hide Publishable, Fail, Published, FetchGlb, Record;
    assert Quiet(s).bakes[i := Fetching] == map[i := Fetching];
    if !HasStatus(s, Ready) {
      hide PublishSavedProject, PublishParts;
      if s.scan.owner.ControlPlane? && HasResult(s.scan) {
        RecordedParts(taken, i, o);
      } else if s.scan.owner.ControlPlane? {
        ControlPlaneParts(taken, i, o);
      } else {
        LocalParts(taken, i, o);
      }
    }
  }
}
