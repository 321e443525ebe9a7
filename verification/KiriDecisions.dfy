/** What a poll and a bake decide, word by word: the answers that make a scan ready, and those that make it fail. */
module KiriDecisions {
  import opened Outcomes
  import opened Text
  import opened KiriPipeline
  import GlbStream

  predicate Active(word: string) { word in {"uploading", "queuing", "queued", "processing"} }

  predicate Done(word: string) { word in {"successful", "success", "completed"} }

  lemma WordsDiffer(word: string)
    ensures !(Active(word) && Done(word)) && (Active(word) || Done(word) ==> word != "expired")
  {
    assert "uploading"[0] == 'u' && "queuing"[0] == 'q' && "queued"[0] == 'q' && "processing"[0] == 'p';
    assert "successful"[0] == 's' && "success"[0] == 's' && "completed"[0] == 'c' && "expired"[0] == 'e';
  }

  /** The first 2000 characters. */
  function Start(message: string): string {
    if |message| > 2000 then message[..2000] else message
  }

  /** A poll of a task in PROCESSING: a finished model makes it READY_FOR_CROP once its bytes are stored, "expired"
      ends it, a word for work in progress or an exception leaves it, and any other word makes it fail. */
  lemma PollDecides(s: State, o: ProviderOutcome)
    requires HasStatus(s, Processing) && s.task.value.serialize.Some?
    ensures var after := Apply(s, StatusRequest(o));
            && after.task.Some?
            && after == s.(task := after.task, scan := after.scan)
            && var was, task := s.task.value, after.task.value;
            && task.serialize == was.serialize && task.cropBox == was.cropBox
            && task.providerStatus == (if o.StatusRaises? then was.providerStatus else Some(o.status))
            && (task.status == ReadyForCrop <==> o.Answers? && Done(o.status) && o.download.Downloaded?)
            && (task.status == ReadyForCrop ==>
                  && task.glb == Some(o.download.file) && task.error.None?
                  && after.scan == s.scan.(status := KiriReady))
            && (task.status != ReadyForCrop ==> task.glb == was.glb)
            && (task.status == Processing <==>
                  o.StatusRaises? || Active(o.status) || (Done(o.status) && o.download.DownloadRaises?))
            && (task.status == Processing ==> after.scan == s.scan)
            && (o.StatusRaises? ==> task.error == Some(Start(o.message)))
            && (o.Answers? && Active(o.status) ==> task.error.None?)
            && (o.Answers? && Done(o.status) && o.download.DownloadRaises? ==>
                  task.error == Some(Start(o.download.message)))
            && (task.status == Expired <==> o.Answers? && o.status == "expired")
            && (task.status == Expired ==>
                  && task.error == Some("Kiri asset expired before it was downloaded.")
                  && after.scan == s.scan.(status := ScanFailed))
            && (task.status == Failed <==>
                  o.Answers? && !Active(o.status) && !Done(o.status) && o.status != "expired")
            && (task.status == Failed ==>
                  && task.error == Some(Start("Kiri processing failed with status '" + o.status + "'."))
                  && after.scan == s.scan.(
                                     status := ScanFailed, error := task.error,
                                     projectStatus := if s.scan.owner.Local? then ProjectFailed
                                                      else s.scan.projectStatus))
  {
    if o.Answers? {
      WordsDiffer(o.status);
      FailureText(o.status);
    }
    assert MayPoll(s);
    hide SafeMessage, Lower, Strip;
  }

  /** Stripping keeps a first character that is visible. */
  lemma {:induction false} StripKeepsStart(s: string)
    requires s != [] && !IsSpace(s[0])
    ensures Strip(s) != [] && Strip(s)[0] == s[0]
    decreases |s|
  {
    if IsSpace(s[|s| - 1]) {
      StripKeepsStart(s[..|s| - 1]);
    }
  }

  lemma FailureText(word: string)
    ensures var text := "Kiri processing failed with status '" + word + "'."; SafeMessage(text) == Start(text)
  {
    var prefix := "Kiri processing failed with status '";
    var text := prefix + word + "'.";
    assert prefix[0] == 'K' && |prefix| > 0;
    assert Start(text)[0] == 'K';
    hide Strip, Lower;
    StripKeepsStart(Start(text));
    LowerStart(Strip(Start(text)));
    SafeMessageIs(text);
  }

  lemma LowerStart(s: string)
    requires s != [] && s[0] == 'K'
    ensures Lower(s) != "success"
  {
    assert Lower(s)[0] == 'k' && "success"[0] == 's';
  }

  /** Everything that a bake asks of storage, provider and control plane goes well. */
  predicate BakeSucceeds(s: State, o: PublishOutcome)
    requires HasGlb(s)
  {
    && (o.stored || (o.download.Downloaded? && o.storedAfter))
    && o.unmeasured.None?
    && (s.scan.owner.ControlPlane? ==>
          && s.scan.owner.userId != "" && s.scan.owner.completionToken != ""
          && (HasResult(s.scan) || PublishSucceeds(s.scan, s.task.value.glb.value, s.maxOutputMb, o)))
  }

  predicate PublishSucceeds(scan: Scan, glb: Bytes, maxOutputMb: int, o: PublishOutcome)
    requires scan.owner.ControlPlane?
  {
    && 12 <= |glb| <= GlbStream.MaxOutput(maxOutputMb)
    && GlbStream.VerifyGlb(glb) == GlbStream.Valid
    && o.answer.PublishReturns? && o.answer.projectId == scan.owner.projectId
    && (o.answer.status == "raw" || o.answer.status == "ready")
  }

  /** What a finished bake leaves of the scan: the control plane's model, or one row of its own, recorded once. */
  function Recorded(scan: Scan, o: PublishOutcome): Scan
    requires scan.owner.ControlPlane? && !HasResult(scan) ==> o.answer.PublishReturns?
  {
    if scan.owner.ControlPlane? && !HasResult(scan) then
      scan.(modelAssetId := Some(o.answer.assetId), publishedAt := Some(o.now),
            results := scan.results + [o.answer.assetId])
    else if scan.owner.Local? then scan.(localAssets := 1)
    else scan
  }

  lemma GlbStays(s: State, o: PublishOutcome)
    requires Inv(s) && Bakeable(s)
    ensures EnsureGlb(s, o).s == s
    ensures EnsureGlb(s, o).Attempted? <==> o.stored || (o.download.Downloaded? && o.storedAfter)
  {
  }

  lemma RecordIs(s: State, o: PublishOutcome)
    requires Inv(s) && Bakeable(s)
    ensures var a := RecordModel(s, o);
            && (a.Attempted? <==>
                  s.scan.owner.ControlPlane? ==>
                    && s.scan.owner.userId != "" && s.scan.owner.completionToken != ""
                    && (HasResult(s.scan) || PublishSucceeds(s.scan, s.task.value.glb.value, s.maxOutputMb, o)))
            && (a.Attempted? ==> a.s == s.(scan := Recorded(s.scan, o)) && (!a.recorded ==> a.s == s))
            && (a.Raised? ==> a.s == s)
  {
    hide GlbStream.VerifyGlb, GlbStream.MaxOutput, Refusal, Published;
  }

  /** A bake makes the scan READY exactly when all of that goes well and its worker lives; a failure records nothing,
      and a worker that dies in between leaves the model recorded but the task as it was. */
  lemma BakeDecides(s: State, o: PublishOutcome)
    requires Inv(s) && Bakeable(s) && !HasStatus(s, Ready) && s.bakes > 0
    ensures var after := Apply(s, BakeJob(o));
            && after.task.Some? && after.bakes == s.bakes - 1
            && (after.task.value.status == Ready <==> BakeSucceeds(s, o) && !o.dies)
            && (BakeSucceeds(s, o) && !o.dies ==>
                  && after.task == Some(s.task.value.(status := Ready, error := None))
                  && after.scan == Recorded(s.scan, o).(
                                     status := CropReady, error := None,
                                     projectStatus := if s.scan.owner.Local? then ProjectReady
                                                      else s.scan.projectStatus))
            && (BakeSucceeds(s, o) && o.dies ==> after.task == s.task && after.scan == Recorded(s.scan, o))
            && (!BakeSucceeds(s, o) ==>
                  && after.task == Some(s.task.value.(status := Failed, error := after.task.value.error))
                  && after.task.value.error.Some?
                  && after.scan == s.scan.(
                                     status := ScanFailed, error := after.task.value.error,
                                     projectStatus := if s.scan.owner.Local? then ProjectFailed
                                                      else s.scan.projectStatus))
  {
    var taken := s.(bakes := s.bakes - 1);
    hide GlbStream.VerifyGlb, GlbStream.MaxOutput, SafeMessage, Published, ScanShape;
    GlbStays(taken, o);
    RecordIs(taken, o);
    hide EnsureGlb, RecordModel, Inv, PublishSucceeds;
  }

  /** How far each status is shown to be: only READY is complete, and only a failed or expired task is at nothing. */
  lemma ProgressTells(status: TaskStatus)
    ensures Progress(status) == 100 <==> status == Ready
    ensures Progress(status) == 0 <==> status == Failed || status == Expired
    ensures [Progress(Queued), Progress(Uploading), Progress(Processing), Progress(ReadyForCrop),
             Progress(CropConfigured), Progress(CropBaking)] == [5, 15, 55, 75, 80, 90]
  {
  }
}
