/** Choosing the frames of one camera pass: dark, blurry and near-duplicate frames are rejected, the rest kept up
    to a limit; then the quality report over all passes. */
module FrameSelection {
  import opened Outcomes
  import opened FrameHash

  datatype Stats = Stats(brightness: real, sharpness: real, hash: nat)

  datatype Settings = Settings(minBrightness: real, minSharpness: real, duplicateThreshold: int, maxFrames: int)

  /** A pass's frames in order; None is a frame that could not be analysed. */
  type Frames = seq<Option<Stats>>

  datatype Verdict = Invalid | Dark | Blurry | Duplicate | OverLimit | Selected

  const DUPLICATE_WINDOW := 8

  // ----- judging one frame

  /** last_hashes[-8:] */
  function Window(hashes: seq<nat>): seq<nat> {
    if |hashes| <= DUPLICATE_WINDOW then hashes else hashes[|hashes| - DUPLICATE_WINDOW..]
  }

  predicate NearDuplicate(hash: nat, hashes: seq<nat>, threshold: int) {
    exists item <- Window(hashes) :: HammingDistance(hash, item) <= threshold
  }

  function Judge(frame: Option<Stats>, hashes: seq<nat>, cfg: Settings): Verdict {
    if frame.None? then Invalid
    else
      var stats := frame.value;
      if stats.brightness < cfg.minBrightness then Dark
      else if stats.sharpness < cfg.minSharpness then Blurry
      else if NearDuplicate(stats.hash, hashes, cfg.duplicateThreshold) then Duplicate
      else if |hashes| >= cfg.maxFrames then OverLimit
      else Selected
  }

  // ----- the greedy selection, stated without a loop

  ghost predicate Increasing(s: seq<nat>, n: nat) {
    && (forall i, j :: 0 <= i < j < |s| ==> s[i] < s[j])
    && (forall i :: 0 <= i < |s| ==> s[i] < n)
  }

  /** The chosen positions below k. */
  function Before(selected: seq<nat>, k: nat): (r: seq<nat>)
    ensures |r| <= |selected|
  {
    if selected == [] || selected[|selected| - 1] < k then selected
    else Before(selected[..|selected| - 1], k)
  }

  function Hashes(frames: Frames, selected: seq<nat>): (r: seq<nat>)
    ensures |r| == |selected|
  {
    seq(|selected|, i requires 0 <= i < |selected| =>
      if selected[i] < |frames| && frames[selected[i]].Some? then frames[selected[i]].value.hash else 0)
  }

  /** Why frame k is treated as it is, given which frames are chosen. */
  function Reason(frames: Frames, cfg: Settings, selected: seq<nat>, k: nat): Verdict
    requires k < |frames|
  {
    Judge(frames[k], Hashes(frames, Before(selected, k)), cfg)
  }

  /** `selected` lists, in order, exactly the frames that are fine when compared with those chosen before them. */
  ghost predicate Greedy(frames: Frames, cfg: Settings, selected: seq<nat>) {
    && Increasing(selected, |frames|)
    && forall k :: 0 <= k < |frames| ==> (k in selected <==> Reason(frames, cfg, selected, k) == Selected)
  }

  function CountOf(frames: Frames, cfg: Settings, selected: seq<nat>, v: Verdict, n: nat): nat
    requires n <= |frames|
  {
    if n == 0 then 0
    else CountOf(frames, cfg, selected, v, n - 1) + if Reason(frames, cfg, selected, n - 1) == v then 1 else 0
  }

  datatype Rejected = Rejected(invalid: nat, dark: nat, blurry: nat, duplicate: nat, overLimit: nat)

  function RejectedTotal(r: Rejected): nat { r.invalid + r.dark + r.blurry + r.duplicate + r.overLimit }

  /** How many of the first n frames were rejected, by reason. */
  function Counters(frames: Frames, cfg: Settings, selected: seq<nat>, n: nat): Rejected
    requires n <= |frames|
  {
    Rejected(
      CountOf(frames, cfg, selected, Invalid, n),
      CountOf(frames, cfg, selected, Dark, n),
      CountOf(frames, cfg, selected, Blurry, n),
      CountOf(frames, cfg, selected, Duplicate, n),
      CountOf(frames, cfg, selected, OverLimit, n))
  }

  function Bump(r: Rejected, v: Verdict): Rejected {
    match v
    case Invalid => r.(invalid := r.invalid + 1)
    case Dark => r.(dark := r.dark + 1)
    case Blurry => r.(blurry := r.blurry + 1)
    case Duplicate => r.(duplicate := r.duplicate + 1)
    case OverLimit => r.(overLimit := r.overLimit + 1)
    case Selected => r
  }

  lemma CountersStep(frames: Frames, cfg: Settings, selected: seq<nat>, i: nat)
    requires i < |frames|
    ensures Counters(frames, cfg, selected, i + 1) ==
            Bump(Counters(frames, cfg, selected, i), Reason(frames, cfg, selected, i))
  {
    hide Reason;
  }

  datatype Selection = Selection(
    selected: seq<nat>, extracted: nat, rejected: Rejected, averageBrightness: real, averageSharpness: real)

  function Brightnesses(frames: Frames): seq<real> {
    if frames == [] then []
    else
      var last := frames[|frames| - 1];
      Brightnesses(frames[..|frames| - 1]) + if last.Some? then [last.value.brightness] else []
  }

  function Sharpnesses(frames: Frames): seq<real> {
    if frames == [] then []
    else
      var last := frames[|frames| - 1];
      Sharpnesses(frames[..|frames| - 1]) + if last.Some? then [last.value.sharpness] else []
  }

  lemma ListsStep(frames: Frames, i: nat)
    requires i < |frames|
    ensures Brightnesses(frames[..i + 1]) ==
            Brightnesses(frames[..i]) + if frames[i].Some? then [frames[i].value.brightness] else []
    ensures Sharpnesses(frames[..i + 1]) ==
            Sharpnesses(frames[..i]) + if frames[i].Some? then [frames[i].value.sharpness] else []
  {
    assert frames[..i + 1][..i] == frames[..i];
  }

  datatype NoUsableFrames = NoUsableFrames

  // ----- facts about Before

  lemma {:induction false} BeforeIsPrefix(selected: seq<nat>, k: nat, n: nat)
    requires Increasing(selected, n)
    ensures var b := Before(selected, k);
            && b == selected[..|b|]
            && (forall i :: 0 <= i < |b| ==> selected[i] < k)
            && (forall i :: |b| <= i < |selected| ==> selected[i] >= k)
  {
    var last := |selected| - 1;
    if selected == [] {
    } else if selected[last] >= k {
      var rest := selected[..last];
      BeforeIsPrefix(rest, k, n);
      var b := Before(selected, k);
      assert rest[..|b|] == selected[..|b|];
      assert forall i :: 0 <= i < last ==> rest[i] == selected[i];
    } else {
      assert forall i :: 0 <= i < last ==> selected[i] < selected[last];
    }
  }

  lemma BeforeAll(selected: seq<nat>, n: nat)
    requires Increasing(selected, n)
    ensures Before(selected, n) == selected
  {
  }

  lemma {:induction false} BeforeOwn(selected: seq<nat>, j: nat, n: nat)
    requires Increasing(selected, n) && j < |selected|
    ensures Before(selected, selected[j]) == selected[..j]
    decreases |selected|
  {
    var rest, k := selected[..|selected| - 1], selected[j];
    assert Before(selected, k) == Before(rest, k) by {
      assert selected[|selected| - 1] >= k;
    }
    hide Before;
    if j < |rest| {
      BeforeOwn(rest, j, n);
      assert rest[..j] == selected[..j];
    } else {
      BeforeAll(rest, k);
    }
  }

  /** A later choice does not change how earlier frames were judged. */
  lemma BeforeSnoc(selected: seq<nat>, i: nat, k: nat)
    requires Increasing(selected, i) && k <= i
    ensures Before(selected + [i], k) == Before(selected, k)
  {
    assert (selected + [i])[..|selected|] == selected;
  }

  lemma ReasonSnoc(frames: Frames, cfg: Settings, selected: seq<nat>, i: nat, k: nat)
    requires Increasing(selected, i) && k <= i < |frames|
    ensures Reason(frames, cfg, selected + [i], k) == Reason(frames, cfg, selected, k)
  {
    BeforeSnoc(selected, i, k);
  }

  lemma {:induction false} CountSnoc(frames: Frames, cfg: Settings, selected: seq<nat>, v: Verdict, i: nat, n: nat)
    requires Increasing(selected, i) && n <= i < |frames|
    ensures CountOf(frames, cfg, selected + [i], v, n) == CountOf(frames, cfg, selected, v, n)
  {
    hide Reason;
    if n > 0 {
      CountSnoc(frames, cfg, selected, v, i, n - 1);
      ReasonSnoc(frames, cfg, selected, i, n - 1);
    }
  }

  lemma CountersSnoc(frames: Frames, cfg: Settings, selected: seq<nat>, i: nat)
    requires Increasing(selected, i) && i < |frames|
    ensures Counters(frames, cfg, selected + [i], i) == Counters(frames, cfg, selected, i)
  {
    hide CountOf;
    CountSnoc(frames, cfg, selected, Invalid, i, i);
    CountSnoc(frames, cfg, selected, Dark, i, i);
    CountSnoc(frames, cfg, selected, Blurry, i, i);
    CountSnoc(frames, cfg, selected, Duplicate, i, i);
    CountSnoc(frames, cfg, selected, OverLimit, i, i);
  }

  // ----- the loop

  /** The loop has decided the first i frames. */
  ghost predicate Decided(frames: Frames, cfg: Settings, selected: seq<nat>, i: nat)
    requires i <= |frames|
  {
    && Increasing(selected, i)
    && forall k :: 0 <= k < i ==> (k in selected <==> Reason(frames, cfg, selected, k) == Selected)
  }

  lemma DecidedSkip(frames: Frames, cfg: Settings, selected: seq<nat>, i: nat)
    requires i < |frames| && Decided(frames, cfg, selected, i)
    requires Reason(frames, cfg, selected, i) != Selected
    ensures Decided(frames, cfg, selected, i + 1)
    ensures Counters(frames, cfg, selected, i + 1) ==
            Bump(Counters(frames, cfg, selected, i), Reason(frames, cfg, selected, i))
  {
    hide Reason, Judge, HammingDistance, Counters, CountOf, Before;
    CountersStep(frames, cfg, selected, i);
  }

  lemma TakeCounters(frames: Frames, cfg: Settings, selected: seq<nat>, i: nat)
    requires i < |frames| && Increasing(selected, i) && Reason(frames, cfg, selected, i) == Selected
    ensures Counters(frames, cfg, selected + [i], i + 1) == Counters(frames, cfg, selected, i)
  {
    ReasonSnoc(frames, cfg, selected, i, i);
    CountersSnoc(frames, cfg, selected, i);
    CountersStep(frames, cfg, selected + [i], i);
    hide Reason, Counters, Increasing;
  }

  lemma DecidedTake(frames: Frames, cfg: Settings, selected: seq<nat>, i: nat)
    requires i < |frames| && Decided(frames, cfg, selected, i)
    requires Reason(frames, cfg, selected, i) == Selected
    ensures Decided(frames, cfg, selected + [i], i + 1)
  {
    hide Reason, Judge, HammingDistance, Before;
    forall k | 0 <= k <= i
      ensures Reason(frames, cfg, selected + [i], k) == Reason(frames, cfg, selected, k)
    {
      ReasonSnoc(frames, cfg, selected, i, k);
    }
  }

  lemma TakeHashes(frames: Frames, selected: seq<nat>, i: nat)
    requires i < |frames| && frames[i].Some?
    ensures Hashes(frames, selected + [i]) == Hashes(frames, selected) + [frames[i].value.hash]
  {
  }

  lemma NothingDecided(frames: Frames, cfg: Settings)
    ensures Decided(frames, cfg, [], 0) && Counters(frames, cfg, [], 0) == Rejected(0, 0, 0, 0, 0)
    ensures Hashes(frames, []) == [] && Brightnesses(frames[..0]) == [] && Sharpnesses(frames[..0]) == []
  {
  }

  lemma NowJudged(frames: Frames, cfg: Settings, selected: seq<nat>, i: nat)
    requires i < |frames| && Decided(frames, cfg, selected, i)
    ensures Reason(frames, cfg, selected, i) == Judge(frames[i], Hashes(frames, selected), cfg)
    ensures Increasing(selected, i)
  {
    BeforeAll(selected, i);
  }

  lemma AllDecided(frames: Frames, cfg: Settings, selected: seq<nat>)
    requires Decided(frames, cfg, selected, |frames|)
    ensures Greedy(frames, cfg, selected)
  {
  }

  method FilterFrames(frames: Frames, cfg: Settings) returns (r: Result<Selection, NoUsableFrames>)
    ensures r.Ok? ==>
              var s := r.value;
              && s.selected != [] && Greedy(frames, cfg, s.selected)
              && s.extracted == |frames|
              && s.rejected == Counters(frames, cfg, s.selected, |frames|)
              && s.averageBrightness == RealAverage(Brightnesses(frames))
              && s.averageSharpness == RealAverage(Sharpnesses(frames))
    ensures r.Err? ==> Greedy(frames, cfg, [])
  {
    hide Reason, Decided, Greedy, Increasing, Counters, Hashes, HammingDistance, Window, Brightnesses, Sharpnesses;
    NothingDecided(frames, cfg);
    var selected: seq<nat> := [];
    var rejected := Rejected(0, 0, 0, 0, 0);
    var lastHashes: seq<nat> := [];
    var brightnessValues: seq<real> := [];
    var sharpnessValues: seq<real> := [];
    for i := 0 to |frames|
      invariant Decided(frames, cfg, selected, i)
      invariant rejected == Counters(frames, cfg, selected, i)
      invariant lastHashes == Hashes(frames, selected)
      invariant brightnessValues == Brightnesses(frames[..i])
      invariant sharpnessValues == Sharpnesses(frames[..i])
    {
      ListsStep(frames, i);
      NowJudged(frames, cfg, selected, i);
      if frames[i].None? {
        rejected := rejected.(invalid := rejected.invalid + 1);
        DecidedSkip(frames, cfg, selected, i);
        continue;
      }
      var stats := frames[i].value;
      brightnessValues := brightnessValues + [stats.brightness];
      sharpnessValues := sharpnessValues + [stats.sharpness];
      if stats.brightness < cfg.minBrightness {
        rejected := rejected.(dark := rejected.dark + 1);
        DecidedSkip(frames, cfg, selected, i);
        continue;
      }
      if stats.sharpness < cfg.minSharpness {
        rejected := rejected.(blurry := rejected.blurry + 1);
        DecidedSkip(frames, cfg, selected, i);
        continue;
      }
      var near := AnyWithin(stats.hash, Window(lastHashes), cfg.duplicateThreshold);
      if near {
        rejected := rejected.(duplicate := rejected.duplicate + 1);
        DecidedSkip(frames, cfg, selected, i);
        continue;
      }
      if |selected| >= cfg.maxFrames {
        rejected := rejected.(overLimit := rejected.overLimit + 1);
        DecidedSkip(frames, cfg, selected, i);
        continue;
      }
      TakeCounters(frames, cfg, selected, i);
      TakeHashes(frames, selected, i);
      DecidedTake(frames, cfg, selected, i);
      selected := selected + [i];
      lastHashes := lastHashes + [stats.hash];
    }
    assert frames[..|frames|] == frames;
    AllDecided(frames, cfg, selected);
    if selected == [] {
      return Err(NoUsableFrames);
    }
    return Ok(Selection(selected, |frames|, rejected, RealAverage(brightnessValues), RealAverage(sharpnessValues)));
  }

  method AnyWithin(hash: nat, items: seq<nat>, threshold: int) returns (found: bool)
    ensures found <==> exists item <- items :: HammingDistance(hash, item) <= threshold
  {
    for i := 0 to |items|
      invariant forall k :: 0 <= k < i ==> HammingDistance(hash, items[k]) > threshold
    {
      if HammingDistance(hash, items[i]) <= threshold {
        assert items[i] in items;
        return true;
      }
    }
    return false;
  }

  // ----- what a greedy selection is

  lemma {:induction false} SameBefore(frames: Frames, cfg: Settings, a: seq<nat>, b: seq<nat>, k: nat)
    requires Greedy(frames, cfg, a) && Greedy(frames, cfg, b) && k <= |frames|
    ensures Before(a, k) == Before(b, k)
    decreases k
  {
    hide Judge, HammingDistance;
    if k > 0 {
      SameBefore(frames, cfg, a, b, k - 1);
      assert k - 1 in a <==> Reason(frames, cfg, a, k - 1) == Selected;
      assert k - 1 in b <==> Reason(frames, cfg, b, k - 1) == Selected;
      assert Reason(frames, cfg, a, k - 1) == Reason(frames, cfg, b, k - 1);
      BeforeNext(a, k - 1, |frames|);
      BeforeNext(b, k - 1, |frames|);
      hide *;
    } else {
      GreedyIncreases(frames, cfg, a);
      GreedyIncreases(frames, cfg, b);
      hide *;
      BeforeNone(a, |frames|);
      BeforeNone(b, |frames|);
    }
  }

  lemma BeforeNone(selected: seq<nat>, n: nat)
    requires Increasing(selected, n)
    ensures Before(selected, 0) == []
  {
    BeforeIsPrefix(selected, 0, n);
  }

  lemma BeforeNext(selected: seq<nat>, k: nat, n: nat)
    requires Increasing(selected, n)
    ensures Before(selected, k + 1) == Before(selected, k) + if k in selected then [k] else []
  {
    BeforeIsPrefix(selected, k, n);
    BeforeIsPrefix(selected, k + 1, n);
    var b, c := Before(selected, k), Before(selected, k + 1);
    if k in selected {
      var j :| 0 <= j < |selected| && selected[j] == k;
      BeforeOwn(selected, j, n);
      if j + 1 < |selected| {
        assert selected[j + 1] > k;
      }
      assert selected[..j + 1] == selected[..j] + [k];
    } else {
      if |b| < |selected| {
        assert selected[|b|] in selected && selected[|b|] > k;
      }
      if |c| < |selected| {
        assert selected[|c|] >= k + 1;
      }
    }
  }

  /** There is exactly one greedy selection: the loop's result does not depend on how it is computed. */
  lemma GreedyIsUnique(frames: Frames, cfg: Settings, a: seq<nat>, b: seq<nat>)
    requires Greedy(frames, cfg, a) && Greedy(frames, cfg, b)
    ensures a == b
  {
    SameBefore(frames, cfg, a, b, |frames|);
    BeforeAll(a, |frames|);
    BeforeAll(b, |frames|);
  }

  /** Never more than the limit, and any two chosen frames at most eight choices apart differ visibly. */
  lemma SelectedAreFewAndDistinct(frames: Frames, cfg: Settings, selected: seq<nat>, i: nat, j: nat)
    requires Greedy(frames, cfg, selected) && i < j < |selected| && j - i <= 8
    ensures frames[selected[i]].Some? && frames[selected[j]].Some?
    ensures HammingDistance(frames[selected[j]].value.hash, frames[selected[i]].value.hash) > cfg.duplicateThreshold
  {
    assert selected[i] in selected && selected[j] in selected;
    assert Reason(frames, cfg, selected, selected[i]) == Selected == Reason(frames, cfg, selected, selected[j]);
    BeforeOwn(selected, j, |frames|);
    var hashes := Hashes(frames, selected[..j]);
    var window := Window(hashes);
    assert hashes[i] == frames[selected[i]].value.hash;
    assert window[|window| - (j - i)] == hashes[i];
    assert hashes[i] in window;
  }

  // ----- the selection in plain terms

  predicate Usable(frame: Option<Stats>, cfg: Settings) {
    frame.Some? && frame.value.brightness >= cfg.minBrightness && frame.value.sharpness >= cfg.minSharpness
  }

  /** One of the last eight frames chosen before k differs from frame k by no more than the threshold. */
  ghost predicate HasTwin(frames: Frames, cfg: Settings, selected: seq<nat>, k: nat) {
    exists j :: 0 <= j < |selected| && TwinAt(frames, cfg, selected, k, j)
  }

  ghost predicate TwinAt(frames: Frames, cfg: Settings, selected: seq<nat>, k: nat, j: nat)
    requires j < |selected|
  {
    && selected[j] < k < |frames| && (j + 8 >= |selected| || selected[j + 8] >= k)
    && frames[k].Some? && frames[selected[j]].Some?
    && HammingDistance(frames[k].value.hash, frames[selected[j]].value.hash) <= cfg.duplicateThreshold
  }

  /** As many frames as the limit allows were chosen before k. */
  predicate IsFull(cfg: Settings, selected: seq<nat>, k: nat) {
    cfg.maxFrames <= 0 || (cfg.maxFrames <= |selected| && selected[cfg.maxFrames - 1] < k)
  }

  lemma FullIsCount(frames: Frames, cfg: Settings, selected: seq<nat>, k: nat)
    requires Increasing(selected, |frames|)
    ensures IsFull(cfg, selected, k) <==> |Before(selected, k)| >= cfg.maxFrames
  {
    BeforeIsPrefix(selected, k, |frames|);
    hide Before;
  }

  /** The last eight of the choices before k, by position. */
  lemma InWindow(selected: seq<nat>, k: nat, n: nat, j: nat)
    requires Increasing(selected, n) && j < |selected|
    ensures var b := |Before(selected, k)|;
            selected[j] < k && (j + 8 >= |selected| || selected[j + 8] >= k) <==> j < b <= j + 8
  {
    BeforeIsPrefix(selected, k, n);
    hide Before;
  }

  lemma NearIs(hash: nat, hashes: seq<nat>, threshold: int)
    ensures NearDuplicate(hash, hashes, threshold) <==>
            exists j :: 0 <= j < |hashes| <= j + 8 && HammingDistance(hash, hashes[j]) <= threshold
  {
    hide HammingDistance;
    var from := if |hashes| <= 8 then 0 else |hashes| - 8;
    assert Window(hashes) == hashes[from..];
    if NearDuplicate(hash, hashes, threshold) {
      var item :| item in Window(hashes) && HammingDistance(hash, item) <= threshold;
      var w :| 0 <= w < |hashes[from..]| && hashes[from..][w] == item;
      assert hashes[from + w] == item;
    }
    forall j | 0 <= j < |hashes| <= j + 8 ensures hashes[j] in Window(hashes) {
      assert hashes[from..][j - from] == hashes[j];
    }
  }

  lemma HashBefore(frames: Frames, selected: seq<nat>, k: nat, j: nat)
    requires Increasing(selected, |frames|) && j < |Before(selected, k)|
    requires frames[selected[j]].Some?
    ensures Hashes(frames, Before(selected, k))[j] == frames[selected[j]].value.hash
  {
    BeforeIsPrefix(selected, k, |frames|);
  }

  lemma TwinIsNear(frames: Frames, cfg: Settings, selected: seq<nat>, k: nat)
    requires Increasing(selected, |frames|) && k < |frames| && frames[k].Some?
    requires forall j :: 0 <= j < |selected| ==> frames[selected[j]].Some?
    ensures HasTwin(frames, cfg, selected, k) <==>
            NearDuplicate(frames[k].value.hash, Hashes(frames, Before(selected, k)), cfg.duplicateThreshold)
  {
    hide HammingDistance, Before, Hashes, NearDuplicate;
    var hash, hashes := frames[k].value.hash, Hashes(frames, Before(selected, k));
    NearIs(hash, hashes, cfg.duplicateThreshold);
    forall j | 0 <= j < |selected|
      ensures TwinAt(frames, cfg, selected, k, j) <==>
              0 <= j < |hashes| <= j + 8 && HammingDistance(hash, hashes[j]) <= cfg.duplicateThreshold
    {
      InWindow(selected, k, |frames|, j);
      if j < |hashes| {
        HashBefore(frames, selected, k, j);
      }
    }
  }

  lemma GreedyChoosesAnalysed(frames: Frames, cfg: Settings, selected: seq<nat>)
    requires Greedy(frames, cfg, selected)
    ensures forall j :: 0 <= j < |selected| ==> frames[selected[j]].Some?
  {
    forall j | 0 <= j < |selected| ensures frames[selected[j]].Some? {
      assert selected[j] in selected;
      GreedyAt(frames, cfg, selected, selected[j]);
    }
  }

  /** Every frame has exactly the reason that its measures, its likeness to the last eight chosen and the limit give. */
  lemma ReasonIs(frames: Frames, cfg: Settings, selected: seq<nat>, k: nat)
    requires Greedy(frames, cfg, selected) && k < |frames|
    ensures var reason := Reason(frames, cfg, selected, k);
            && (reason == Invalid <==> frames[k].None?)
            && (reason == Dark <==> frames[k].Some? && frames[k].value.brightness < cfg.minBrightness)
            && (reason == Blurry <==>
                  && frames[k].Some? && frames[k].value.brightness >= cfg.minBrightness
                  && frames[k].value.sharpness < cfg.minSharpness)
            && (reason == Duplicate <==> Usable(frames[k], cfg) && HasTwin(frames, cfg, selected, k))
            && (reason == OverLimit <==>
                  Usable(frames[k], cfg) && !HasTwin(frames, cfg, selected, k) && IsFull(cfg, selected, k))
  {
    GreedyIncreases(frames, cfg, selected);
    GreedyChoosesAnalysed(frames, cfg, selected);
    FullIsCount(frames, cfg, selected, k);
    if frames[k].Some? {
      TwinIsNear(frames, cfg, selected, k);
    }
    hide Greedy, HasTwin, NearDuplicate, Before, IsFull;
  }

  /** A frame is chosen exactly when it is analysed, bright and sharp enough, unlike the last eight frames chosen
      before it, and fewer than the limit were chosen before it. */
  lemma SelectedExactlyWhen(frames: Frames, cfg: Settings, selected: seq<nat>, k: nat)
    requires Greedy(frames, cfg, selected) && k < |frames|
    ensures k in selected <==>
            Usable(frames[k], cfg) && !HasTwin(frames, cfg, selected, k) && !IsFull(cfg, selected, k)
  {
    GreedyAt(frames, cfg, selected, k);
    ReasonIs(frames, cfg, selected, k);
    hide Greedy, Judge, HasTwin, IsFull;
  }

  lemma {:induction false} CountIsSet(frames: Frames, cfg: Settings, selected: seq<nat>, v: Verdict, n: nat)
    requires n <= |frames|
    ensures CountOf(frames, cfg, selected, v, n) == |set k: nat | k < n && Reason(frames, cfg, selected, k) == v|
    decreases n
  {
    hide Reason;
    var all := set k: nat | k < n && Reason(frames, cfg, selected, k) == v;
    if n > 0 {
      CountIsSet(frames, cfg, selected, v, n - 1);
      var fewer := set k: nat | k < n - 1 && Reason(frames, cfg, selected, k) == v;
      if Reason(frames, cfg, selected, n - 1) == v {
        assert all == fewer + {n - 1};
      } else {
        assert all == fewer;
      }
    } else {
      assert all == {};
    }
  }

  lemma CountedAs(frames: Frames, cfg: Settings, selected: seq<nat>, v: Verdict, those: set<nat>)
    requires forall k: nat :: k in those <==> k < |frames| && Reason(frames, cfg, selected, k) == v
    ensures CountOf(frames, cfg, selected, v, |frames|) == |those|
  {
    CountIsSet(frames, cfg, selected, v, |frames|);
    hide CountOf, Reason;
    assert those == set k: nat | k < |frames| && Reason(frames, cfg, selected, k) == v;
  }

  /** Every counter counts its own reason. */
  lemma InvalidAre(frames: Frames, cfg: Settings, selected: seq<nat>)
    requires Greedy(frames, cfg, selected)
    ensures Counters(frames, cfg, selected, |frames|).invalid ==
            |set k: nat | k < |frames| && frames[k].None?|
  {
    hide Reason, Greedy, HasTwin, IsFull, Usable, CountOf;
    forall k: nat | k < |frames|
      ensures Reason(frames, cfg, selected, k) == Invalid <==>
              frames[k].None?
    {
      ReasonIs(frames, cfg, selected, k);
    }
    CountedAs(frames, cfg, selected, Invalid,
      set k: nat | k < |frames| && frames[k].None?);
  }

  lemma DarkAre(frames: Frames, cfg: Settings, selected: seq<nat>)
    requires Greedy(frames, cfg, selected)
    ensures Counters(frames, cfg, selected, |frames|).dark ==
            |set k: nat | k < |frames| && frames[k].Some?
              && frames[k].value.brightness < cfg.minBrightness|
  {
    hide Reason, Greedy, HasTwin, IsFull, Usable, CountOf;
    forall k: nat | k < |frames|
      ensures Reason(frames, cfg, selected, k) == Dark <==>
              frames[k].Some? && frames[k].value.brightness < cfg.minBrightness
    {
      ReasonIs(frames, cfg, selected, k);
    }
    CountedAs(frames, cfg, selected, Dark,
      set k: nat | k < |frames| && frames[k].Some?
        && frames[k].value.brightness < cfg.minBrightness);
  }

  lemma BlurryAre(frames: Frames, cfg: Settings, selected: seq<nat>)
    requires Greedy(frames, cfg, selected)
    ensures Counters(frames, cfg, selected, |frames|).blurry ==
            |set k: nat | k < |frames| && frames[k].Some?
              && frames[k].value.brightness >= cfg.minBrightness
              && frames[k].value.sharpness < cfg.minSharpness|
  {
    hide Reason, Greedy, HasTwin, IsFull, Usable, CountOf;
    forall k: nat | k < |frames|
      ensures Reason(frames, cfg, selected, k) == Blurry <==>
                && frames[k].Some? && frames[k].value.brightness >= cfg.minBrightness
                && frames[k].value.sharpness < cfg.minSharpness
    {
      ReasonIs(frames, cfg, selected, k);
    }
    CountedAs(frames, cfg, selected, Blurry,
      set k: nat | k < |frames| && frames[k].Some?
        && frames[k].value.brightness >= cfg.minBrightness
        && frames[k].value.sharpness < cfg.minSharpness);
  }

  lemma DuplicateAre(frames: Frames, cfg: Settings, selected: seq<nat>)
    requires Greedy(frames, cfg, selected)
    ensures Counters(frames, cfg, selected, |frames|).duplicate ==
            |set k: nat | k < |frames| && Usable(frames[k], cfg)
              && HasTwin(frames, cfg, selected, k)|
  {
    hide Reason, Greedy, HasTwin, IsFull, Usable, CountOf;
    forall k: nat | k < |frames|
      ensures Reason(frames, cfg, selected, k) == Duplicate <==>
              Usable(frames[k], cfg) && HasTwin(frames, cfg, selected, k)
    {
      ReasonIs(frames, cfg, selected, k);
    }
    CountedAs(frames, cfg, selected, Duplicate,
      set k: nat | k < |frames| && Usable(frames[k], cfg)
        && HasTwin(frames, cfg, selected, k));
  }

  lemma OverLimitAre(frames: Frames, cfg: Settings, selected: seq<nat>)
    requires Greedy(frames, cfg, selected)
    ensures Counters(frames, cfg, selected, |frames|).overLimit ==
            |set k: nat | k < |frames| && Usable(frames[k], cfg)
              && !HasTwin(frames, cfg, selected, k)
              && IsFull(cfg, selected, k)|
  {
    hide Reason, Greedy, HasTwin, IsFull, Usable, CountOf;
    forall k: nat | k < |frames|
      ensures Reason(frames, cfg, selected, k) == OverLimit <==>
              Usable(frames[k], cfg) && !HasTwin(frames, cfg, selected, k) && IsFull(cfg, selected, k)
    {
      ReasonIs(frames, cfg, selected, k);
    }
    CountedAs(frames, cfg, selected, OverLimit,
      set k: nat | k < |frames| && Usable(frames[k], cfg)
        && !HasTwin(frames, cfg, selected, k)
        && IsFull(cfg, selected, k));
  }

  lemma SelectedWithinLimit(frames: Frames, cfg: Settings, selected: seq<nat>)
    requires Greedy(frames, cfg, selected) && selected != []
    ensures |selected| <= cfg.maxFrames
  {
    var j := |selected| - 1;
    assert selected[j] in selected;
    BeforeOwn(selected, j, |frames|);
  }

  lemma NothingCounted(frames: Frames, cfg: Settings, selected: seq<nat>)
    ensures Counters(frames, cfg, selected, 0) == Rejected(0, 0, 0, 0, 0)
  {
    hide Reason, Judge, HammingDistance;
  }

  lemma BumpAddsOne(r: Rejected, v: Verdict)
    ensures RejectedTotal(Bump(r, v)) == RejectedTotal(r) + if v == Selected then 0 else 1
  {
  }

  lemma GreedyAt(frames: Frames, cfg: Settings, selected: seq<nat>, k: nat)
    requires Greedy(frames, cfg, selected) && k < |frames|
    ensures k in selected <==> Reason(frames, cfg, selected, k) == Selected
    ensures Increasing(selected, |frames|)
  {
  }

  lemma GreedyIncreases(frames: Frames, cfg: Settings, selected: seq<nat>)
    requires Greedy(frames, cfg, selected)
    ensures Increasing(selected, |frames|)
  {
  }

  ghost predicate AddsUp(frames: Frames, cfg: Settings, selected: seq<nat>, n: nat)
    requires n <= |frames|
  {
    RejectedTotal(Counters(frames, cfg, selected, n)) + |Before(selected, n)| == n
  }

  lemma OneMoreFrame(frames: Frames, cfg: Settings, selected: seq<nat>, n: nat)
    requires Greedy(frames, cfg, selected) && n < |frames| && AddsUp(frames, cfg, selected, n)
    ensures AddsUp(frames, cfg, selected, n + 1)
  {
    BeforeNext(selected, n, |frames|);
    CountersStep(frames, cfg, selected, n);
    GreedyAt(frames, cfg, selected, n);
    hide Greedy, Counters, Before, Reason, Bump, RejectedTotal;
    BumpAddsOne(Counters(frames, cfg, selected, n), Reason(frames, cfg, selected, n));
  }

  lemma {:induction false} EveryFrameCounted(frames: Frames, cfg: Settings, selected: seq<nat>, n: nat)
    requires Greedy(frames, cfg, selected) && n <= |frames|
    ensures AddsUp(frames, cfg, selected, n)
    decreases n
  {
    hide Reason, Judge, HammingDistance, Counters, Before, CountOf, Greedy;
    if n == 0 {
      GreedyIncreases(frames, cfg, selected);
      BeforeNone(selected, |frames|);
      NothingCounted(frames, cfg, selected);
    } else {
      EveryFrameCounted(frames, cfg, selected, n - 1);
      OneMoreFrame(frames, cfg, selected, n - 1);
    }
  }

  /** Every extracted frame is chosen or counted under exactly one reason. */
  lemma CountersAddUp(frames: Frames, cfg: Settings, selected: seq<nat>)
    requires Greedy(frames, cfg, selected)
    ensures |selected| + RejectedTotal(Counters(frames, cfg, selected, |frames|)) == |frames|
  {
    EveryFrameCounted(frames, cfg, selected, |frames|);
    BeforeAll(selected, |frames|);
  }

  /** The pass fails for want of frames exactly when the limit admits none or no frame is bright and sharp enough;
      duplicates alone never empty it. */
  lemma NothingSelectedExactlyWhenNothingUsable(frames: Frames, cfg: Settings, selected: seq<nat>)
    requires Greedy(frames, cfg, selected)
    ensures selected == [] <==> cfg.maxFrames <= 0 || forall frame <- frames :: !Usable(frame, cfg)
  {
    if selected == [] && cfg.maxFrames > 0 {
      forall frame <- frames ensures !Usable(frame, cfg) {
        var k :| 0 <= k < |frames| && frames[k] == frame;
        assert Reason(frames, cfg, selected, k) != Selected;
        assert Window(Hashes(frames, Before(selected, k))) == [];
      }
    }
    if selected != [] {
      assert selected[0] in selected;
      assert Reason(frames, cfg, selected, selected[0]) == Selected;
      assert frames[selected[0]] in frames;
    }
  }

  // ----- from pixels to a verdict

  const SIDE := 64

  /** The decoder's output for one frame: None when it failed or timed out. */
  function Analyze(output: Option<Pixels>): Option<Stats> {
    if output.None? || |output.value| != SIDE * SIDE then None
    else
      Some(Stats(Average(output.value), LaplacianScore(output.value, SIDE, SIDE),
        AverageHash(output.value, SIDE, SIDE)))
  }

  method AnalyzeFrame(output: Option<Pixels>) returns (stats: Option<Stats>)
    ensures stats == Analyze(output)
    ensures stats.None? <==> output.None? || |output.value| != 4096
    ensures stats.Some? ==>
              && stats.value.brightness == Average(output.value)
              && stats.value.sharpness == LaplacianScore(output.value, 64, 64)
              && stats.value.hash == AverageHash(output.value, 64, 64)
  {
    if output.None? || |output.value| != SIDE * SIDE {
      return None;
    }
    var pixels := output.value;
    var sharpness := ComputeLaplacianScore(pixels, SIDE, SIDE);
    var hash := ComputeAverageHash(pixels, SIDE, SIDE);
    return Some(Stats(Average(pixels), sharpness, hash));
  }

  /** The same picture under another exposure is never chosen again while the first is in the window. */
  lemma OtherExposureIsRejected(p: Pixels, c: int, hashes: seq<nat>, cfg: Settings)
    requires |p| == SIDE * SIDE && cfg.duplicateThreshold >= 0
    requires AverageHash(p, SIDE, SIDE) in Window(hashes)
    ensures Judge(Analyze(Some(Brightened(p, c))), hashes, cfg) in {Dark, Blurry, Duplicate}
  {
    HashIgnoresBrightness(p, c, SIDE, SIDE);
    var hash := AverageHash(p, SIDE, SIDE);
    HammingIsMetric(hash, hash, hash);
    hide AverageHash, HammingDistance, LaplacianScore, Average, Window;
    assert NearDuplicate(hash, hashes, cfg.duplicateThreshold);
  }

  // ----- the report over all passes

  function SelectedTotal(passes: seq<Selection>): nat {
    if passes == [] then 0 else SelectedTotal(passes[..|passes| - 1]) + |passes[|passes| - 1].selected|
  }

  function ExtractedTotal(passes: seq<Selection>): nat {
    if passes == [] then 0 else ExtractedTotal(passes[..|passes| - 1]) + passes[|passes| - 1].extracted
  }

  function AddRejected(a: Rejected, b: Rejected): Rejected {
    Rejected(
      a.invalid + b.invalid, a.dark + b.dark, a.blurry + b.blurry, a.duplicate + b.duplicate, a.overLimit + b.overLimit)
  }

  function RejectedOver(passes: seq<Selection>): Rejected {
    if passes == [] then Rejected(0, 0, 0, 0, 0)
    else AddRejected(RejectedOver(passes[..|passes| - 1]), passes[|passes| - 1].rejected)
  }

  function Clamp(value: real): real {
    if value < 0.0 then 0.0 else if value > 100.0 then 100.0 else value
  }

  function RawCoverage(selectedTotal: nat, maxFrames: int, passes: nat): real {
    var target := if maxFrames * passes < 1 then 1 else maxFrames * passes;
    selectedTotal as real / target as real * 100.0
  }

  /** The totals and the coverage score of the report. */
  method QualityTotals(passes: seq<Selection>, cfg: Settings)
      returns (selectedTotal: nat, rejected: Rejected, coverage: real)
    ensures selectedTotal == SelectedTotal(passes) && rejected == RejectedOver(passes)
    ensures coverage == Clamp(RawCoverage(selectedTotal, cfg.maxFrames, |passes|))
  {
    rejected := Rejected(0, 0, 0, 0, 0);
    selectedTotal := 0;
    for i := 0 to |passes|
      invariant rejected == RejectedOver(passes[..i]) && selectedTotal == SelectedTotal(passes[..i])
    {
      assert passes[..i + 1][..i] == passes[..i];
      rejected := AddRejected(rejected, passes[i].rejected);
      selectedTotal := selectedTotal + |passes[i].selected|;
    }
    assert passes[..|passes|] == passes;
    coverage := Clamp(RawCoverage(selectedTotal, cfg.maxFrames, |passes|));
  }

  /** The score is the chosen frames' share of the frames asked for, in per cent. */
  lemma CoverageIsShare(selectedTotal: nat, maxFrames: int, passes: nat)
    requires maxFrames * passes >= 1 && selectedTotal <= maxFrames * passes
    ensures Clamp(RawCoverage(selectedTotal, maxFrames, passes)) * (maxFrames * passes) as real ==
            100.0 * selectedTotal as real
  {
    var target := (maxFrames * passes) as real;
    var share := selectedTotal as real / target;
    assert share * target == selectedTotal as real;
    QuotientRange(selectedTotal, maxFrames * passes, 1);
    assert RawCoverage(selectedTotal, maxFrames, passes) == share * 100.0;
    hide RawCoverage;
    assert 0.0 <= share * 100.0 <= 100.0;
  }

  /** Over one more pass every total grows by what that pass adds to it. */
  lemma TotalsAdd(passes: seq<Selection>, pass: Selection)
    ensures SelectedTotal([]) == 0 && RejectedOver([]) == Rejected(0, 0, 0, 0, 0)
    ensures SelectedTotal(passes + [pass]) == SelectedTotal(passes) + |pass.selected|
    ensures var before, after := RejectedOver(passes), RejectedOver(passes + [pass]);
            && after.invalid == before.invalid + pass.rejected.invalid
            && after.dark == before.dark + pass.rejected.dark
            && after.blurry == before.blurry + pass.rejected.blurry
            && after.duplicate == before.duplicate + pass.rejected.duplicate
            && after.overLimit == before.overLimit + pass.rejected.overLimit
  {
    assert (passes + [pass])[..|passes|] == passes;
  }

  /** What FilterFrames returns for some frames. */
  ghost predicate FromFilter(s: Selection, frames: Frames, cfg: Settings) {
    && s.selected != [] && Greedy(frames, cfg, s.selected)
    && s.extracted == |frames|
    && s.rejected == Counters(frames, cfg, s.selected, |frames|)
  }

  /** Over all passes, too, chosen and rejected frames add up to the extracted ones, and no more frames are chosen
      than the limit allows. */
  lemma {:induction false} TotalsAddUp(passes: seq<Selection>, inputs: seq<Frames>, cfg: Settings)
    requires |inputs| == |passes| && forall i :: 0 <= i < |passes| ==> FromFilter(passes[i], inputs[i], cfg)
    ensures SelectedTotal(passes) + RejectedTotal(RejectedOver(passes)) == ExtractedTotal(passes)
    ensures SelectedTotal(passes) <= cfg.maxFrames * |passes|
    decreases |passes|
  {
    hide FromFilter, RejectedTotal, AddRejected;
    if passes == [] {
      NothingRejected();
    } else {
      var n := |passes| - 1;
      PassAddsUp(passes[n], inputs[n], cfg);
      TotalsAddUp(passes[..n], inputs[..n], cfg);
      TotalAddsRejected(RejectedOver(passes[..n]), passes[n].rejected);
      OneMorePass(cfg.maxFrames, n);
    }
  }

  lemma NothingRejected()
    ensures RejectedTotal(Rejected(0, 0, 0, 0, 0)) == 0
  {
  }

  lemma PassAddsUp(pass: Selection, frames: Frames, cfg: Settings)
    requires FromFilter(pass, frames, cfg)
    ensures |pass.selected| + RejectedTotal(pass.rejected) == pass.extracted && |pass.selected| <= cfg.maxFrames
  {
    CountersAddUp(frames, cfg, pass.selected);
    SelectedWithinLimit(frames, cfg, pass.selected);
  }

  lemma TotalAddsRejected(a: Rejected, b: Rejected)
    ensures RejectedTotal(AddRejected(a, b)) == RejectedTotal(a) + RejectedTotal(b)
  {
  }

  lemma OneMorePass(limit: int, n: nat)
    ensures limit * (n + 1) == limit * n + limit
  {
  }

  /** The coverage score is at most 100 before it is clamped. */
  lemma CoverageNeedsNoClamp(passes: seq<Selection>, inputs: seq<Frames>, cfg: Settings)
    requires |inputs| == |passes| && forall i :: 0 <= i < |passes| ==> FromFilter(passes[i], inputs[i], cfg)
    ensures var raw := RawCoverage(SelectedTotal(passes), cfg.maxFrames, |passes|);
            0.0 <= raw <= 100.0 && Clamp(raw) == raw
  {
    TotalsAddUp(passes, inputs, cfg);
    var target := if cfg.maxFrames * |passes| < 1 then 1 else cfg.maxFrames * |passes|;
    QuotientRange(SelectedTotal(passes), target, 1);
  }
}
