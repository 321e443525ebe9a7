/** Progress of an install: the throttle between the byte loops and the shell, and the overall percentage shown. */
module InstallProgress {
  import opened Outcomes

  datatype Stage = Downloading | Verifying | Extracting

  datatype Progress = Progress(stage: Stage, done: nat, total: nat)

  const REPORT_STEPS := 200
  const MIN_REPORT_BYTES := 1024 * 1024
  const DOWNLOAD_SHARE := 80
  const U64_MAX := 0xFFFF_FFFF_FFFF_FFFF

  // ----- the throttle

  function StepOf(total: nat): nat {
    if total / REPORT_STEPS < MIN_REPORT_BYTES then MIN_REPORT_BYTES else total / REPORT_STEPS
  }

  predicate Due(last: Option<nat>, step: nat, done: nat) {
    last.None? || done >= last.value + step
  }

  function Last(counts: seq<nat>): Option<nat> {
    if counts == [] then None else Some(counts[|counts| - 1])
  }

  /** The counts that get through when `dones` are reported one after another. */
  function Reported(step: nat, dones: seq<nat>): seq<nat> {
    if dones == [] then []
    else
      var earlier := Reported(step, dones[..|dones| - 1]);
      var done := dones[|dones| - 1];
      if Due(Last(earlier), step, done) then earlier + [done] else earlier
  }

  function Closed(counts: seq<nat>, done: nat): seq<nat> {
    if Last(counts) == Some(done) then counts else counts + [done]
  }

  function EventsOf(stage: Stage, total: nat, counts: seq<nat>): seq<Progress> {
    seq(|counts|, i requires 0 <= i < |counts| => Progress(stage, counts[i], total))
  }

  /** Emits at most one event per call, into `events`. */
  class Reporter {
    const stage: Stage
    const total: nat
    const step: nat
    var last: Option<nat>
    var events: seq<Progress>
    ghost var reported: seq<nat>

    ghost predicate Valid()
      reads this
    {
      && step == StepOf(total)
      && last == Last(Reported(step, reported))
      && events == EventsOf(stage, total, Reported(step, reported))
    }

    /** The counts reported so far climb from 0. */
    ghost predicate Counting()
      reads this
    {
      Valid() && reported != [] && reported[0] == 0 && Climbs(reported)
    }

    ghost function Count(): nat
      reads this
    {
      if reported == [] then 0 else reported[|reported| - 1]
    }

    constructor (stage: Stage, total: nat)
      ensures Valid() && this.stage == stage && this.total == total && reported == [] && events == []
    {
      this.stage, this.total, this.step := stage, total, StepOf(total);
      last, events, reported := None, [], [];
    }

    method Report(done: nat)
      requires Valid()
      modifies this
      ensures Valid() && reported == old(reported) + [done] && Count() == done
      ensures old(reported) == [] && done == 0 ==> Counting()
      ensures old(Counting() && Count() <= done) ==> Counting()
    {
      assert (reported + [done])[..|reported|] == reported;
      reported := reported + [done];
      if last.None? || done >= last.value + step {
        last := Some(done);
        events := events + [Progress(stage, done, total)];
      }
    }

    method Finish(done: nat)
      requires Valid()
      modifies this
      ensures reported == old(reported)
      ensures events == EventsOf(stage, total, Closed(Reported(step, reported), done))
    {
      if last != Some(done) {
        last := Some(done);
        events := events + [Progress(stage, done, total)];
      }
    }
  }

  // ----- how many events, and how far apart

  ghost predicate Climbs(dones: seq<nat>) {
    forall i, j :: 0 <= i <= j < |dones| ==> dones[i] <= dones[j]
  }

  ghost predicate Spaced(counts: seq<nat>, gap: nat) {
    forall i :: 0 < i < |counts| ==> counts[i] >= counts[i - 1] + gap
  }

  lemma {:induction false} ReportedIsSpaced(step: nat, dones: seq<nat>)
    ensures var r := Reported(step, dones);
            && Spaced(r, step)
            && (dones != [] ==> r != [] && r[0] == dones[0])
            && (forall c <- r :: c in dones)
  {
    if dones != [] {
      ReportedIsSpaced(step, dones[..|dones| - 1]);
      assert dones == dones[..|dones| - 1] + [dones[|dones| - 1]];
    }
  }

  lemma {:induction false} SpacedCountsGrow(counts: seq<nat>, gap: nat, k: nat)
    requires Spaced(counts, gap) && k < |counts|
    ensures counts[k] >= k * gap
  {
    if k > 0 {
      SpacedCountsGrow(counts, gap, k - 1);
      assert k * gap == (k - 1) * gap + gap;
    }
  }

  lemma SpacedCountsClimb(counts: seq<nat>, gap: nat, i: nat, j: nat)
    requires Spaced(counts, gap) && i <= j < |counts|
    ensures counts[i] <= counts[j]
    decreases j - i
  {
    if i < j {
      SpacedCountsClimb(counts, gap, i, j - 1);
    }
  }

  lemma MulGrows(a: nat, b: nat, d: nat)
    requires a <= b
    ensures a * d <= b * d
  {
  }

  lemma StepsFitTotal(total: nat, k: nat)
    requires k * StepOf(total) <= total
    ensures k <= REPORT_STEPS
  {
    if k > REPORT_STEPS {
      MulGrows(REPORT_STEPS + 1, k, StepOf(total));
      assert false;
    }
  }

  /** For byte counts that start at 0 and climb to a final one within the announced total, a stage emits at most
      202 events, from 0 to the final count, and those inside the loop are at least 1 MiB apart. */
  lemma AtMost202Events(total: nat, dones: seq<nat>)
    requires dones != [] && dones[0] == 0 && Climbs(dones) && dones[|dones| - 1] <= total
    ensures var inLoop := Reported(StepOf(total), dones);
            var all := Closed(inLoop, dones[|dones| - 1]);
            && |all| <= 202
            && all[0] == 0 && all[|all| - 1] == dones[|dones| - 1]
            && Spaced(inLoop, 1_048_576)
            && Climbs(all)
  {
    var step := StepOf(total);
    var inLoop := Reported(step, dones);
    ReportedIsSpaced(step, dones);
    var k := |inLoop| - 1;
    SpacedCountsGrow(inLoop, step, k);
    assert inLoop[k] in dones;
    StepsFitTotal(total, k);
    forall i, j | 0 <= i <= j < |inLoop| ensures inLoop[i] <= inLoop[j] {
      SpacedCountsClimb(inLoop, step, i, j);
    }
    assert forall i :: 0 <= i < |inLoop| ==> inLoop[i] in dones;
  }

  /** Nothing else is held back: after every report the last event is for that very count, or less than a two-hundredth
      of the total, or 1 MiB, behind it. */
  lemma {:induction false} NothingElseIsHeldBack(total: nat, dones: seq<nat>)
    requires dones != []
    ensures var now, last := dones[|dones| - 1], Last(Reported(StepOf(total), dones));
            && last.Some?
            && (last.value == now || now < last.value + total / 200 || now < last.value + 1_048_576)
  {
    ReportedIsSpaced(StepOf(total), dones);
  }

  /** Every event names its stage, one of the counts in their order, and the total. */
  lemma EventsNameCounts(stage: Stage, total: nat, counts: seq<nat>, i: nat)
    requires i < |counts|
    ensures |EventsOf(stage, total, counts)| == |counts|
    ensures var e := EventsOf(stage, total, counts)[i]; e.stage == stage && e.done == counts[i] && e.total == total
  {
  }

  /** The events of one stage: its byte counts start at 0 and climb, and the stage was closed or broke off. */
  ghost predicate ThrottledBy(events: seq<Progress>, stage: Stage, total: nat, dones: seq<nat>) {
    && dones != [] && dones[0] == 0 && Climbs(dones)
    && var inLoop := Reported(StepOf(total), dones);
       events == EventsOf(stage, total, inLoop) || events == EventsOf(stage, total, Closed(inLoop, dones[|dones| - 1]))
  }

  ghost predicate Throttled(events: seq<Progress>, stage: Stage) {
    exists total: nat, dones: seq<nat> :: ThrottledBy(events, stage, total, dones)
  }

  // ----- percentages

  /** Progress::percent, in integers that do not overflow. */
  function Percent(p: Progress): nat {
    if p.total == 0 then 0 else Product(p.done, p.total) / p.total
  }

  function Product(done: nat, total: nat): nat {
    (if done < total then done else total) * 100
  }

  /** The 64-bit product overflows for some count exactly when the total exceeds a hundredth of the range. */
  lemma PercentFitsU64(total: nat)
    ensures (forall done: nat :: Product(done, total) <= U64_MAX) <==> total <= U64_MAX / 100
  {
    assert Product(total, total) == total * 100;
  }

  function Overall(p: Progress): nat {
    match p.stage
    case Downloading => Percent(p) * DOWNLOAD_SHARE / 100
    case Verifying => DOWNLOAD_SHARE
    case Extracting => DOWNLOAD_SHARE + Percent(p) * (99 - DOWNLOAD_SHARE) / 100
  }

  lemma ProductGrows(total: nat, a: nat, b: nat)
    requires a <= b
    ensures Product(a, total) <= Product(b, total) <= total * 100
  {
  }

  lemma WholeIsHundred(total: nat)
    requires total > 0
    ensures total * 100 / total == 100
  {
  }

  lemma PercentGrows(total: nat, a: nat, b: nat, stage: Stage)
    requires a <= b
    ensures Percent(Progress(stage, a, total)) <= Percent(Progress(stage, b, total)) <= 100
  {
    if total > 0 {
      ProductGrows(total, a, b);
      WholeIsHundred(total);
      hide Product;
      DivGrows(Product(a, total), Product(b, total), total);
      DivGrows(Product(b, total), total * 100, total);
    }
  }

  lemma DivGrows(x: nat, y: nat, d: nat)
    requires x <= y && d > 0
    ensures x / d <= y / d
  {
    var p, q := x / d, y / d;
    assert x == p * d + x % d && y == q * d + y % d;
    assert (q + 1) * d == q * d + d;
    if p > q {
      MulGrows(q + 1, p, d);
      assert false;
    }
  }

  /** The overall percentage stays in its stage's share of 0..99 and follows the byte count inside a stage. */
  lemma OverallGrows(stage: Stage, total: nat, a: nat, b: nat)
    requires a <= b
    ensures var x, y := Overall(Progress(stage, a, total)), Overall(Progress(stage, b, total));
            && x <= y
            && (stage == Downloading ==> y <= 80)
            && (stage == Extracting ==> 80 <= x && y <= 99)
  {
    PercentGrows(total, a, b, stage);
    DivGrows(Percent(Progress(stage, a, total)) * DOWNLOAD_SHARE, Percent(Progress(stage, b, total)) * DOWNLOAD_SHARE,
      100);
    DivGrows(Percent(Progress(stage, a, total)) * 19, Percent(Progress(stage, b, total)) * 19, 100);
  }

  lemma Floor(x: nat, d: nat)
    requires d > 0
    ensures x / d * d <= x < (x / d + 1) * d
  {
    assert x == x / d * d + x % d;
  }

  /** The percentage of a stage is the share of its total that is done, rounded down; more than all is all. */
  lemma PercentIsShare(p: Progress)
    ensures p.total == 0 ==> Percent(p) == 0
    ensures 0 < p.total <= p.done ==> Percent(p) == 100
    ensures p.done <= p.total && p.total > 0 ==> Percent(p) * p.total <= p.done * 100 < (Percent(p) + 1) * p.total
  {
    if p.total > 0 {
      WholeIsHundred(p.total);
      Floor(Product(p.done, p.total), p.total);
    }
  }

  /** What is shown: the download counts for the first 80 percent, unpacking for the 19 after them. */
  lemma OverallIsShare(p: Progress)
    ensures p.stage == Downloading ==> Overall(p) * 100 <= Percent(p) * 80 < (Overall(p) + 1) * 100
    ensures p.stage == Verifying ==> Overall(p) == 80
    ensures p.stage == Extracting ==> (Overall(p) - 80) * 100 <= Percent(p) * 19 < (Overall(p) - 79) * 100
    ensures p.done == 0 ==> Overall(p) == if p.stage == Downloading then 0 else 80
    ensures 0 < p.total <= p.done ==> Overall(p) == if p.stage == Extracting then 99 else 80
  {
    PercentIsShare(p);
    if p.done == 0 && p.total > 0 {
      assert Product(0, p.total) == 0;
      assert Percent(p) == 0;
    }
    hide Percent;
    Floor(Percent(p) * 80, 100);
    Floor(Percent(p) * 19, 100);
  }

  ghost predicate NeverDrops(events: seq<Progress>) {
    forall i, j :: 0 <= i <= j < |events| ==> Overall(events[i]) <= Overall(events[j])
  }

  /** Events of one stage with climbing counts. */
  ghost predicate StageClimbs(events: seq<Progress>, stage: Stage) {
    && (forall e <- events :: e.stage == stage)
    && (forall i, j :: 0 <= i <= j < |events| ==>
          events[i].total == events[j].total && events[i].done <= events[j].done)
  }

  lemma StageNeverDrops(events: seq<Progress>, stage: Stage)
    requires StageClimbs(events, stage)
    ensures NeverDrops(events)
  {
    forall i, j | 0 <= i <= j < |events| ensures Overall(events[i]) <= Overall(events[j]) {
      assert events[i] in events && events[j] in events;
      OverallGrows(stage, events[i].total, events[i].done, events[j].done);
    }
  }

  lemma OverallInRange(p: Progress)
    ensures Overall(p) <= 99
    ensures p.stage == Downloading ==> Overall(p) <= DOWNLOAD_SHARE
    ensures p.stage == Extracting ==> Overall(p) >= DOWNLOAD_SHARE
  {
    OverallGrows(p.stage, p.total, p.done, p.done);
  }

  lemma CountsClimb(step: nat, dones: seq<nat>)
    requires dones != [] && Climbs(dones)
    ensures Climbs(Reported(step, dones)) && Climbs(Closed(Reported(step, dones), dones[|dones| - 1]))
    ensures Reported(step, dones) != [] && Reported(step, dones)[0] == dones[0]
  {
    var inLoop := Reported(step, dones);
    ReportedIsSpaced(step, dones);
    forall i, j | 0 <= i <= j < |inLoop| ensures inLoop[i] <= inLoop[j] {
      SpacedCountsClimb(inLoop, step, i, j);
    }
    hide Reported, Spaced;
    assert forall i :: 0 <= i < |inLoop| ==> inLoop[i] in dones;
  }

  lemma CountsMakeStage(stage: Stage, total: nat, counts: seq<nat>)
    requires Climbs(counts)
    ensures StageClimbs(EventsOf(stage, total, counts), stage)
  {
  }

  lemma ThrottledClimbs(events: seq<Progress>, stage: Stage)
    requires Throttled(events, stage)
    ensures StageClimbs(events, stage) && events != [] && events[0] == Progress(stage, 0, events[0].total)
  {
    var total: nat, dones: seq<nat> :| ThrottledBy(events, stage, total, dones);
    var inLoop := Reported(StepOf(total), dones);
    CountsClimb(StepOf(total), dones);
    hide Reported, Climbs, StageClimbs;
    CountsMakeStage(stage, total, inLoop);
    CountsMakeStage(stage, total, Closed(inLoop, dones[|dones| - 1]));
  }

  lemma JoinNeverDrops(a: seq<Progress>, b: seq<Progress>, m: nat)
    requires NeverDrops(a) && NeverDrops(b)
    requires (forall e <- a :: Overall(e) <= m) && (forall e <- b :: Overall(e) >= m)
    ensures NeverDrops(a + b)
  {
    hide Overall;
    assert forall i :: 0 <= i < |a| ==> a[i] in a;
    assert forall i :: 0 <= i < |b| ==> b[i] in b;
  }

  predicate StaleCheck(verify: seq<Progress>, download: seq<Progress>) {
    verify != [] && download != []
  }

  /** Over a whole install the percentage never drops, except when an archive found on disk had to be downloaded
      again: then, and only then, it falls back from the verifying stage to the start of the download. */
  lemma InstallNeverDrops(verify: seq<Progress>, download: seq<Progress>, unpack: seq<Progress>)
    requires verify == [] || verify == [Progress(Verifying, 0, 0)]
    requires StageClimbs(download, Downloading) && StageClimbs(unpack, Extracting)
    requires download != [] ==> download[0].done == 0
    ensures NeverDrops(verify + download + unpack) <==> !StaleCheck(verify, download)
  {
    StageNeverDrops(download, Downloading);
    StageNeverDrops(unpack, Extracting);
    forall e <- verify + download ensures Overall(e) <= DOWNLOAD_SHARE {
      OverallInRange(e);
    }
    forall e <- unpack ensures Overall(e) >= DOWNLOAD_SHARE {
      OverallInRange(e);
    }
    if StaleCheck(verify, download) {
      var events := verify + download + unpack;
      assert download[0] in download && download[0].stage == Downloading;
      assert Overall(verify[0]) > Overall(download[0]);
      assert events[0] == verify[0] && events[1] == download[0];
    } else {
      assert verify + download == verify || verify + download == download;
      JoinNeverDrops(verify + download, unpack, DOWNLOAD_SHARE);
    }
  }

  // ----- from the first to the last event the shell sees

  function Overalls(events: seq<Progress>): (r: seq<nat>)
    ensures |r| == |events|
  {
    seq(|events|, i requires 0 <= i < |events| => Overall(events[i]))
  }

  /** Everything the shell shows for one install: 0 when it starts, the installer's events, and 100 or, after a
      failure, 0. */
  function Shown(events: seq<Progress>, installed: bool): seq<nat> {
    [0] + Overalls(events) + [if installed then 100 else 0]
  }

  /** A successful install is shown as climbing from 0 to 100 exactly when its events never drop; a failed one falls
      back to 0 as soon as anything else was shown. */
  lemma ShownClimbs(events: seq<Progress>, installed: bool)
    ensures Climbs(Shown(events, installed)) <==>
            if installed then NeverDrops(events) else forall e <- events :: Overall(e) == 0
    ensures forall p <- Shown(events, installed) :: p <= 100
  {
    var shown, n := Shown(events, installed), |events|;
    forall i | 0 <= i < n ensures shown[i + 1] == Overall(events[i]) <= 99 {
      OverallInRange(events[i]);
    }
    hide Overall;
    assert shown[0] == 0 && shown[n + 1] == if installed then 100 else 0;
    if Climbs(shown) {
      if installed {
        forall i, j | 0 <= i <= j < n ensures Overall(events[i]) <= Overall(events[j]) {
          assert shown[i + 1] <= shown[j + 1];
        }
      } else {
        forall i | 0 <= i < n ensures Overall(events[i]) == 0 {
          assert shown[i + 1] <= shown[n + 1];
        }
      }
    }
    if if installed then NeverDrops(events) else forall e <- events :: Overall(e) == 0 {
      forall i, j | 0 <= i <= j < |shown| ensures shown[i] <= shown[j] {
        if 0 < i && j <= n {
          assert Overall(events[i - 1]) <= Overall(events[j - 1]);
        }
      }
    }
  }

  // ----- one install at a time

  /** The shell's flag and the install threads that have not stored false into it yet. */
  datatype Runner = Runner(running: bool, active: set<nat>)

  datatype RunnerStep = Request(thread: nat) | Done(thread: nat)

  /** A request swaps true into the flag and starts a thread only if it was false. */
  function ApplyRunner(r: Runner, step: RunnerStep): Runner {
    match step
    case Request(t) => if r.running then r else Runner(true, r.active + {t})
    case Done(t) => if t in r.active then Runner(false, r.active - {t}) else r
  }

  function RunRunner(r: Runner, steps: seq<RunnerStep>): Runner {
    if steps == [] then r else ApplyRunner(RunRunner(r, steps[..|steps| - 1]), steps[|steps| - 1])
  }

  /** However requests and finishing threads interleave, no two installs touch the files at the same time. */
  lemma {:induction false} OneInstallAtATime(steps: seq<RunnerStep>)
    ensures var r := RunRunner(Runner(false, {}), steps);
            && (forall a, b | a in r.active && b in r.active :: a == b)
            && (r.running <==> r.active != {})
  {
    if steps != [] {
      OneInstallAtATime(steps[..|steps| - 1]);
      var r := RunRunner(Runner(false, {}), steps[..|steps| - 1]);
      var step := steps[|steps| - 1];
      if step.Done? && step.thread in r.active {
        assert forall a <- r.active :: a == step.thread;
      }
    }
  }
}
