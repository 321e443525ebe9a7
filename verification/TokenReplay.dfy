/** Which runs of the cloud session send KusShoes a refresh token it has already replaced. */
module TokenReplay {
  import opened Outcomes
  import opened CloudSession

  ghost predicate Spent(trace: seq<Event>, t: Token) {
    Rotated(t) in trace
  }

  /** No replaced token is sent to /auth/refresh again. */
  ghost predicate NeverRefreshed(trace: seq<Event>) {
    forall i, j :: 0 <= i < j < |trace| && trace[i].Rotated? ==> trace[j] != Refreshed(trace[i].token)
  }

  /** No replaced token is sent to /auth/logout. */
  ghost predicate NeverLoggedOut(trace: seq<Event>) {
    forall i, j :: 0 <= i < j < |trace| && trace[i].Rotated? ==> trace[j] != LoggedOut(trace[i].token)
  }

  function StoredToken(s: State): Option<Token> {
    if s.store.Some? then Some(s.store.value.token) else None
  }

  predicate Holds(s: State, t: Token) {
    s.refreshToken == Some(t) || StoredToken(s) == Some(t)
  }

  /** The refresh in flight has been answered with a usable successor of `t`, which is still to be read. */
  predicate Awaited(s: State, t: Token) {
    && s.refreshInFlight.Some? && s.refreshInFlight.value in s.runs
    && var run := s.runs[s.refreshInFlight.value];
       run.Reading? && run.token == t && Replaces(run.body)
  }

  /** The segments that let a replaced token stay. */
  ghost predicate Breaks(s: State, step: Step) {
    match step
    // a rotating answer that cannot be used, while its token is still held
    case RefreshAnswered(id, Accepted(body)) =>
      id in s.runs && s.runs[id].Posting? && Rotates(body) && !Replaces(body) && Holds(s, s.runs[id].token)
    // a usable successor whose body is lost on the way
    case RefreshBody(id, delivered) =>
      !delivered && id in s.runs && s.runs[id].Reading? && Replaces(s.runs[id].body) && Holds(s, s.runs[id].token)
    // the app ends before the successor of the saved token was read
    case Restart => s.store.Some? && Awaited(s, s.store.value.token)
    // the second half of a restore, which finds memory empty and what it read replaced
    case CheckSaved(id) =>
      && id in s.restores && s.refreshToken.None? && s.restores[id].Some?
      && Spent(s.trace, s.restores[id].value.token) && !Awaited(s, s.restores[id].value.token)
    case _ => false
  }

  ghost predicate Unbroken(s: State, steps: seq<Step>)
    decreases |steps|
  {
    steps != [] ==> !Breaks(s, steps[0]) && Unbroken(Apply(s, steps[0]), steps[1..])
  }

  /** A sign-out segment that posts the token in memory to /auth/logout. */
  predicate Posts(s: State, step: Step) {
    match step
    case SignOut(id) => id !in s.signOuts && s.signedIn
    case SignOutResumes(id, reply) => id in s.signOuts && s.signOuts[id].Renewing? && reply == Done
    case _ => false
  }

  predicate PostsWhileAwaited(s: State, step: Step) {
    Posts(s, step) && s.refreshToken.Some? && Awaited(s, s.refreshToken.value)
  }

  predicate QuietSignOuts(s: State, steps: seq<Step>)
    decreases |steps|
  {
    steps != [] ==> !PostsWhileAwaited(s, steps[0]) && QuietSignOuts(Apply(s, steps[0]), steps[1..])
  }

  // ----- the invariant

  /** Every token in sight has been issued; a rotation being read is on record, its successor not yet replaced. */
  ghost predicate Known(s: State) {
    && Ordered(s)
    && (forall e <- s.trace :: e.token < s.issued)
    && (s.refreshToken.Some? ==> s.refreshToken.value < s.issued)
    && (s.store.Some? ==> s.store.value.token < s.issued)
    && (forall id <- s.restores :: s.restores[id].Some? ==> s.restores[id].value.token < s.issued)
    && (forall id <- s.runs :: RunKnown(s, s.runs[id]))
  }

  ghost predicate RunKnown(s: State, run: RunPhase) {
    && (run.Posting? ==> run.token < s.issued)
    && (run.Reading? ==>
          && run.token < s.issued && run.successor < s.issued && !Spent(s.trace, run.successor)
          && (Rotates(run.body) ==> Spent(s.trace, run.token)))
  }

  ghost predicate Stale(s: State, held: Option<Token>) {
    held.Some? && Spent(s.trace, held.value) && !Awaited(s, held.value)
  }

  /** Memory or store holds a replaced token, and no successor is on its way. */
  ghost predicate Doomed(s: State) {
    Stale(s, s.refreshToken) || Stale(s, StoredToken(s))
  }

  lemma SpentAppend(trace: seq<Event>, e: Event)
    ensures forall t: Token :: Spent(trace + [e], t) <==> Spent(trace, t) || e == Rotated(t)
  {
  }

  /** What a segment adds to the trace. */
  function Emitted(s: State, step: Step): Option<Event> {
    match step
    case RefreshAnswered(id, Accepted(body)) =>
      if id in s.runs && s.runs[id].Posting? && Rotates(body) then Some(Rotated(s.runs[id].token)) else None
    case _ =>
      if s.refreshToken.None? then None
      else if Posts(s, step) then Some(LoggedOut(s.refreshToken.value))
      else if s.refreshInFlight.None? && Refreshes(s, step) then Some(Refreshed(s.refreshToken.value))
      else None
  }

  predicate Refreshes(s: State, step: Step) {
    match step
    case Refresh => true
    case SignOut(id) => id !in s.signOuts && !s.signedIn
    case SignOutResumes(id, reply) => id in s.signOuts && s.signOuts[id].LoggingOut? && reply == Unauthorized
    case _ => false
  }

  function Grown(s: State, step: Step): seq<Event> {
    if Emitted(s, step).Some? then s.trace + [Emitted(s, step).value] else s.trace
  }

  lemma SignOutTraceGrows(s: State, id: nat, reply: Reply)
    ensures BeginSignOut(s, id).trace == Grown(s, SignOut(id))
    ensures ResumeSignOut(s, id, reply).trace == Grown(s, SignOutResumes(id, reply))
  {
    hide Persist;
  }

  lemma TraceGrows(s: State, step: Step)
    ensures Apply(s, step).trace == Grown(s, step)
  {
    match step
    case SignOut(id) => SignOutTraceGrows(s, id, Done);
    case SignOutResumes(id, reply) => SignOutTraceGrows(s, id, reply);
    case _ => hide BeginSignOut, ResumeSignOut, Rotates, Replaces;
  }

  // ----- one segment

  /** Nothing that matters here has changed except for what is held. */
  lemma HeldChanges(s: State, s': State)
    requires Known(s) && Ordered(s') && s'.trace == s.trace && s'.issued == s.issued
    requires s'.runs == s.runs && s'.refreshInFlight == s.refreshInFlight && s'.restores == s.restores
    requires s'.refreshToken.None? || s'.refreshToken == s.refreshToken || s'.refreshToken == StoredToken(s)
    requires s'.store.None? || s'.store == s.store || StoredToken(s') == s.refreshToken
    ensures Known(s') && (Doomed(s') ==> Doomed(s))
  {
  }

  lemma BeginRefreshKeeps(s: State)
    requires Known(s)
    ensures Known(BeginRefresh(s)) && (Doomed(BeginRefresh(s)) <==> Doomed(s))
  {
    RefreshKeepsSingleFlight(s, 0, NotOk, false);
    if s.refreshInFlight.None? {
      RefreshStarts(s);
    } else {
      hide Known, Doomed;
    }
  }

  lemma RefreshStarts(s: State)
    requires Known(s) && s.refreshInFlight.None? && Ordered(BeginRefresh(s))
    ensures Known(BeginRefresh(s)) && (Doomed(BeginRefresh(s)) <==> Doomed(s))
  {
    assert s.runs.Keys == {};
    if s.refreshToken.Some? {
      SpentAppend(s.trace, Refreshed(s.refreshToken.value));
    }
    hide Replaces, Rotates, Ordered, Spent;
  }

  lemma PostLogoutKeeps(s: State)
    requires Known(s)
    ensures Known(PostLogout(s)) && (Doomed(PostLogout(s)) <==> Doomed(s))
  {
    if s.refreshToken.Some? {
      SpentAppend(s.trace, LoggedOut(s.refreshToken.value));
    }
    hide Replaces, Rotates;
  }

  lemma SignOutsDoNotMatter(s: State, signOuts: map<nat, SignOutPhase>)
    requires Known(s)
    ensures Known(s.(signOuts := signOuts)) && (Doomed(s.(signOuts := signOuts)) <==> Doomed(s))
  {
    hide Replaces, Rotates;
  }

  lemma ForgetKeeps(s: State, id: nat)
    requires Known(s)
    ensures Known(Forget(s, id)) && !Doomed(Forget(s, id))
  {
    hide Replaces, Rotates;
  }

  lemma SignOutKeeps(s: State, id: nat, reply: Reply)
    requires Known(s) && !Doomed(s)
    ensures Known(BeginSignOut(s, id)) && !Doomed(BeginSignOut(s, id))
    ensures Known(ResumeSignOut(s, id, reply)) && !Doomed(ResumeSignOut(s, id, reply))
  {
    BeginRefreshKeeps(s);
    PostLogoutKeeps(s);
    ForgetKeeps(s, id);
    hide BeginRefresh, PostLogout, Forget, Known, Doomed;
    SignOutsDoNotMatter(BeginRefresh(s), s.signOuts[id := Renewing]);
    SignOutsDoNotMatter(PostLogout(s), s.signOuts[id := LoggingOut]);
    SignOutsDoNotMatter(PostLogout(s), s.signOuts[id := LoggingOutAgain]);
  }

  lemma AnswerKeeps(s: State, id: nat, answer: Answer)
    requires Known(s) && !Doomed(s)
    ensures var s' := AnswerRefresh(s, id, answer);
            Known(s') && (Doomed(s') <==> Breaks(s, RefreshAnswered(id, answer)))
  {
    RefreshKeepsSingleFlight(s, id, answer, false);
    if id in s.runs && s.runs[id].Posting? {
      assert s.refreshInFlight == Some(id) && s.runs.Keys == {id};
      SpentAppend(s.trace, Rotated(s.runs[id].token));
      if answer.Accepted? {
        AcceptedKeeps(s, id, answer.body);
      }
    }
    hide Replaces, Rotates;
  }

  lemma AcceptedKeeps(s: State, id: nat, body: Body)
    requires Known(s) && !Doomed(s) && id in s.runs && s.runs[id].Posting?
    requires Ordered(AnswerRefresh(s, id, Accepted(body)))
    ensures var s' := AnswerRefresh(s, id, Accepted(body));
            Known(s') && (Doomed(s') <==> Breaks(s, RefreshAnswered(id, Accepted(body))))
  {
    assert s.refreshInFlight == Some(id) && s.runs.Keys == {id};
    SpentAppend(s.trace, Rotated(s.runs[id].token));
    assert !Spent(s.trace, s.issued);
    assert Replaces(body) ==> Rotates(body);
    hide Replaces, Rotates, Ordered;
  }

  /** The run in flight no longer waits for KusShoes. */
  lemma RunSettles(s: State, s': State)
    requires Known(s) && Ordered(s')
    requires s'.trace == s.trace && s'.issued == s.issued && s'.restores == s.restores
    requires s'.refreshToken == s.refreshToken && s'.store == s.store
    requires forall id <- s'.runs :: s'.runs[id].Storing? || s'.runs[id].Settled?
    ensures Known(s')
    ensures Doomed(s') <==> (exists t: Token :: Spent(s.trace, t) && Holds(s, t))
  {
    hide Replaces, Rotates, Spent, Ordered;
    if Doomed(s') {
      var t := if Stale(s', s'.refreshToken) then s'.refreshToken.value else s'.store.value.token;
      assert Spent(s.trace, t) && Holds(s, t);
    }
  }

  lemma SuccessorTaken(s: State, id: nat)
    requires Known(s) && id in s.runs && s.runs[id].Reading? && Replaces(s.runs[id].body)
    requires Ordered(ReadBody(s, id, true))
    ensures Known(ReadBody(s, id, true)) && !Doomed(ReadBody(s, id, true))
  {
    assert s.runs.Keys == {id};
    hide Rotates, Ordered;
  }

  lemma ReadKeeps(s: State, id: nat, delivered: bool)
    requires Known(s) && !Doomed(s)
    ensures var s' := ReadBody(s, id, delivered);
            Known(s') && (Doomed(s') <==> Breaks(s, RefreshBody(id, delivered)))
  {
    RefreshKeepsSingleFlight(s, id, NotOk, delivered);
    if id in s.runs && s.runs[id].Reading? {
      var run := s.runs[id];
      assert s.refreshInFlight == Some(id) && s.runs.Keys == {id};
      assert Replaces(run.body) ==> Rotates(run.body);
      if delivered && Replaces(run.body) {
        SuccessorTaken(s, id);
      } else {
        RunSettles(s, ReadBody(s, id, delivered));
        HeldAndSpent(s, id);
      }
    }
    hide *;
    hide Known, Doomed, Holds, Spent, Ordered;
  }

  /** While a body is being read, only the token it replaces can be held and spent. */
  lemma HeldAndSpent(s: State, id: nat)
    requires Known(s) && !Doomed(s) && s.refreshInFlight == Some(id) && id in s.runs && s.runs[id].Reading?
    ensures (exists t: Token :: Spent(s.trace, t) && Holds(s, t)) <==>
            Replaces(s.runs[id].body) && Holds(s, s.runs[id].token)
  {
    var run := s.runs[id];
    assert Replaces(run.body) ==> Rotates(run.body);
    assert RunKnown(s, run);
    assert forall t: Token :: Holds(s, t) && Spent(s.trace, t) ==> Awaited(s, t);
    hide Replaces, Rotates, Spent, Holds, Ordered;
  }

  lemma FinishKeeps(s: State, id: nat)
    requires Known(s) && !Doomed(s)
    ensures Known(Finish(s, id)) && !Doomed(Finish(s, id))
  {
    RefreshKeepsSingleFlight(s, id, NotOk, false);
    if id in s.runs && (s.runs[id].Storing? || s.runs[id].Settled?) {
      assert s.runs.Keys == {id};
      RunSettles(s, s);
      RunSettles(s, Finish(s, id));
    }
    hide Known, Doomed, Ordered, Spent, Holds;
  }

  lemma AdoptKeeps(s: State, accessValid: bool, offered: Offered, user: Option<string>)
    requires Known(s) && !Doomed(s)
    ensures Known(Adopt(s, accessValid, offered, user)) && !Doomed(Adopt(s, accessValid, offered, user))
  {
    assert !Spent(s.trace, s.issued);
    hide Replaces, Rotates;
  }

  lemma RestartKeeps(s: State)
    requires Known(s) && !Doomed(s)
    ensures var s' := Apply(s, Restart); Known(s') && (Doomed(s') <==> Breaks(s, Restart))
  {
    assert forall body :: Replaces(body) ==> Rotates(body);
    hide Replaces, Rotates;
  }

  lemma ReadSavedKeeps(s: State, id: nat)
    requires Known(s) && !Doomed(s) && Ordered(Apply(s, ReadSaved(id)))
    ensures Known(Apply(s, ReadSaved(id))) && !Doomed(Apply(s, ReadSaved(id)))
  {
    hide Replaces, Rotates, Ordered, Spent;
  }

  lemma CheckSavedKeeps(s: State, id: nat)
    requires Known(s) && !Doomed(s) && Ordered(Apply(s, CheckSaved(id)))
    ensures var s' := Apply(s, CheckSaved(id)); Known(s') && (Doomed(s') <==> Breaks(s, CheckSaved(id)))
  {
    hide Replaces, Rotates, Ordered, Spent;
  }

  predicate CanBreak(step: Step) {
    step.RefreshAnswered? || step.RefreshBody? || step.CheckSaved? || step.Restart?
  }

  lemma HoldingSegmentKeeps(s: State, step: Step)
    requires Known(s) && !Doomed(s) && (step.RememberUser? || step.LoadSaved? || step.AccessTokenChanges?)
    ensures Known(Apply(s, step)) && !Doomed(Apply(s, step))
  {
    SegmentKeepsSingleFlight(s, step);
    hide Ordered, Known, Doomed;
    HeldChanges(s, Apply(s, step));
  }

  lemma QuietSegmentKeeps(s: State, step: Step)
    requires Known(s) && !Doomed(s) && !CanBreak(step)
    ensures Known(Apply(s, step)) && !Doomed(Apply(s, step))
  {
    SegmentKeepsSingleFlight(s, step);
    hide Ordered, Known, Doomed, BeginRefresh, Finish, Adopt, BeginSignOut, ResumeSignOut, Remember, TakeSaved;
    match step
    case Refresh => BeginRefreshKeeps(s);
    case RefreshContinues(id) => FinishKeeps(s, id);
    case AdoptTokens(accessValid, offered, user) => AdoptKeeps(s, accessValid, offered, user);
    case ReadSaved(id) => ReadSavedKeeps(s, id);
    case SignOut(id) => SignOutKeeps(s, id, Done);
    case SignOutResumes(id, reply) => SignOutKeeps(s, id, reply);
    case _ => HoldingSegmentKeeps(s, step);
  }

  /** While nothing is doomed, a segment leaves a replaced token without a successor exactly when it breaks. */
  lemma SegmentDooms(s: State, step: Step)
    requires Known(s) && !Doomed(s)
    ensures Known(Apply(s, step)) && (Doomed(Apply(s, step)) <==> Breaks(s, step))
  {
    if CanBreak(step) {
      SegmentKeepsSingleFlight(s, step);
      assert Ordered(s);
      hide Ordered, Known, Doomed, Breaks, AnswerRefresh, ReadBody;
      match step
      case RefreshAnswered(id, answer) => AnswerKeeps(s, id, answer);
      case RefreshBody(id, delivered) => ReadKeeps(s, id, delivered);
      case CheckSaved(id) => CheckSavedKeeps(s, id);
      case Restart => RestartKeeps(s);
    } else {
      QuietSegmentKeeps(s, step);
      hide Known, Doomed, Apply;
    }
  }

  // ----- refreshing

  lemma AppendNeverRefreshed(trace: seq<Event>, e: Event)
    ensures NeverRefreshed(trace + [e]) <==> NeverRefreshed(trace) && !(e.Refreshed? && Spent(trace, e.token))
  {
    var longer := trace + [e];
    assert forall i :: 0 <= i < |trace| ==> longer[i] == trace[i];
    if e.Refreshed? && Spent(trace, e.token) {
      var i :| 0 <= i < |trace| && trace[i] == Rotated(e.token);
      assert longer[i].Rotated? && longer[|trace|] == Refreshed(longer[i].token);
    }
  }

  lemma SegmentRefreshesNothingSpent(s: State, step: Step)
    requires Known(s) && !Doomed(s) && NeverRefreshed(s.trace)
    ensures NeverRefreshed(Apply(s, step).trace)
  {
    TraceGrows(s, step);
    if Emitted(s, step).Some? {
      AppendNeverRefreshed(s.trace, Emitted(s, step).value);
    }
    hide Known, Apply, Posts, Refreshes, NeverRefreshed, Spent;
  }

  lemma {:induction false} UnbrokenRunKeeps(s: State, steps: seq<Step>)
    requires Known(s) && !Doomed(s) && NeverRefreshed(s.trace) && Unbroken(s, steps)
    ensures Known(Run(s, steps)) && !Doomed(Run(s, steps)) && NeverRefreshed(Run(s, steps).trace)
    decreases |steps|
  {
    if steps != [] {
      SegmentDooms(s, steps[0]);
      SegmentRefreshesNothingSpent(s, steps[0]);
      hide Apply, Known, Doomed, NeverRefreshed, Breaks;
      UnbrokenRunKeeps(Apply(s, steps[0]), steps[1..]);
    }
  }

  lemma FirstStartIsClean(s: State)
    requires Initial(s)
    ensures Known(s) && !Doomed(s) && NeverRefreshed(s.trace) && NeverLoggedOut(s.trace)
  {
  }

  /** A doomed state replays without any further break: save what is held, restart, restore and refresh. */
  lemma DoomedReplays(s: State) returns (later: seq<Step>)
    requires Doomed(s)
    ensures Unbroken(s, later) && !NeverRefreshed(Run(s, later).trace)
  {
    if Stale(s, s.refreshToken) {
      var other := if s.sessionUserId == Some("a") then "b" else "a";
      var saved := Remember(s, other);
      var rest := StoreReplays(saved);
      later := [RememberUser(other)] + rest;
      assert later[1..] == rest && Apply(s, later[0]) == saved;
      hide Apply;
    } else {
      later := StoreReplays(s);
    }
  }

  lemma StoreReplays(s: State) returns (later: seq<Step>)
    requires Stale(s, StoredToken(s))
    ensures Unbroken(s, later) && !NeverRefreshed(Run(s, later).trace)
  {
    later := [Restart, LoadSaved, Refresh];
    var t := s.store.value.token;
    var s1 := Apply(s, Restart);
    var s2 := Apply(s1, LoadSaved);
    var s3 := Apply(s2, Refresh);
    assert s3.trace == s.trace + [Refreshed(t)];
    AppendNeverRefreshed(s.trace, Refreshed(t));
    ThreeSegments(s, Restart, LoadSaved, Refresh);
  }

  lemma OneSegment(s: State, c: Step)
    ensures Run(s, [c]) == Apply(s, c)
    ensures Unbroken(s, [c]) <==> !Breaks(s, c)
  {
    hide Apply, Breaks;
    var steps := [c];
    var rest := steps[1..];
    assert rest == [];
    assert Unbroken(Apply(s, c), rest);
    assert Run(Apply(s, c), rest) == Apply(s, c);
  }

  lemma ThreeSegments(s: State, a: Step, b: Step, c: Step)
    ensures Run(s, [a, b, c]) == Apply(Apply(Apply(s, a), b), c)
    ensures !Breaks(s, a) && !Breaks(Apply(s, a), b) && !Breaks(Apply(Apply(s, a), b), c) ==> Unbroken(s, [a, b, c])
  {
    hide Apply, Breaks;
    var s1 := Apply(s, a);
    var s2 := Apply(s1, b);
    assert [a, b, c][1..] == [b, c] && [b, c][1..] == [c] && [c][1..] == [];
    OneSegment(s2, c);
    assert Run(s1, [b, c]) == Run(s2, [c]) && (Unbroken(s1, [b, c]) <==> !Breaks(s1, b) && Unbroken(s2, [c]));
    assert Run(s, [a, b, c]) == Run(s1, [b, c]) && (Unbroken(s, [a, b, c]) <==> !Breaks(s, a) && Unbroken(s1, [b, c]));
  }

  /** Over every run without a break no replaced token is sent to /auth/refresh; and the next segment breaks if and
      only if from then on, without any further break, one can be. */
  lemma RefreshReplaysExactlyAfterABreak(s: State, steps: seq<Step>, step: Step)
    requires Initial(s) && Unbroken(s, steps)
    ensures NeverRefreshed(Run(s, steps).trace)
    ensures var after := Apply(Run(s, steps), step);
            Breaks(Run(s, steps), step) <==>
            exists later :: Unbroken(after, later) && !NeverRefreshed(Run(after, later).trace)
  {
    FirstStartIsClean(s);
    UnbrokenRunKeeps(s, steps);
    var now := Run(s, steps);
    SegmentDooms(now, step);
    SegmentRefreshesNothingSpent(now, step);
    var after := Apply(now, step);
    hide Run, Apply, Known, Doomed, NeverRefreshed, Breaks, Unbroken;
    if Doomed(after) {
      var later := DoomedReplays(after);
    } else {
      forall later | Unbroken(after, later) ensures NeverRefreshed(Run(after, later).trace) {
        UnbrokenRunKeeps(after, later);
      }
    }
  }

  // ----- signing out

  lemma AppendNeverLoggedOut(trace: seq<Event>, e: Event)
    ensures NeverLoggedOut(trace + [e]) <==> NeverLoggedOut(trace) && !(e.LoggedOut? && Spent(trace, e.token))
  {
    var longer := trace + [e];
    assert forall i :: 0 <= i < |trace| ==> longer[i] == trace[i];
    if e.LoggedOut? && Spent(trace, e.token) {
      var i :| 0 <= i < |trace| && trace[i] == Rotated(e.token);
      assert longer[i].Rotated? && longer[|trace|] == LoggedOut(longer[i].token);
    }
  }

  lemma AwaitedIsSpent(s: State, t: Token)
    requires Known(s) && Awaited(s, t)
    ensures Spent(s.trace, t)
  {
    assert RunKnown(s, s.runs[s.refreshInFlight.value]);
  }

  lemma SegmentLogsOutSpent(s: State, step: Step)
    requires Known(s) && !Doomed(s)
    ensures NeverLoggedOut(Apply(s, step).trace) <==> NeverLoggedOut(s.trace) && !PostsWhileAwaited(s, step)
  {
    TraceGrows(s, step);
    if Emitted(s, step).Some? {
      AppendNeverLoggedOut(s.trace, Emitted(s, step).value);
    }
    if s.refreshToken.Some? && Awaited(s, s.refreshToken.value) {
      AwaitedIsSpent(s, s.refreshToken.value);
    }
    hide Known, Apply, Refreshes, NeverLoggedOut, Spent, Awaited;
  }

  lemma {:induction false} LogoutReplays(s: State, steps: seq<Step>)
    requires Known(s) && !Doomed(s) && Unbroken(s, steps)
    ensures NeverLoggedOut(Run(s, steps).trace) <==> NeverLoggedOut(s.trace) && QuietSignOuts(s, steps)
    decreases |steps|
  {
    if steps != [] {
      SegmentDooms(s, steps[0]);
      SegmentLogsOutSpent(s, steps[0]);
      hide Apply, Known, Doomed, NeverLoggedOut, Breaks, PostsWhileAwaited;
      LogoutReplays(Apply(s, steps[0]), steps[1..]);
    }
  }

  /** Over every run without a break a replaced token is sent to /auth/logout if and only if some sign-out posts
      while the successor of the token in memory is still being read. */
  lemma LogoutReplaysExactlyWhileReading(s: State, steps: seq<Step>)
    requires Initial(s) && Unbroken(s, steps)
    ensures NeverLoggedOut(Run(s, steps).trace) <==> QuietSignOuts(s, steps)
  {
    FirstStartIsClean(s);
    LogoutReplays(s, steps);
  }

  // ----- one run for every way to break, and one for signing out

  const SAVED_SESSION := State(None, None, None, false, Some(Saved(None, 0)), map[], map[], map[], 0, 1, [])

  const USABLE := Parsed(true, true, WellFormed)
  const BAD_ACCESS := Parsed(true, false, WellFormed)

  /** The saved token has been refreshed, and the answer has come. */
  function AnsweredRun(body: Body): (r: seq<Step>)
    ensures |r| == 3
  {
    [LoadSaved, Refresh, RefreshAnswered(0, Accepted(body))]
  }

  function Answered(body: Body): State {
    SAVED_SESSION.(
      refreshToken := Some(0), refreshInFlight := Some(0), started := 1, issued := 2,
      runs := map[0 := Reading(0, body, 1)], trace := [Refreshed(0), Rotated(0)])
  }

  lemma AnsweredRunIsAnswered(body: Body)
    requires Rotates(body)
    ensures Run(SAVED_SESSION, AnsweredRun(body)) == Answered(body)
  {
    var s1 := SAVED_SESSION.(refreshToken := Some(0));
    var s2 := s1.(refreshInFlight := Some(0), started := 1, runs := map[0 := Posting(0)], trace := [Refreshed(0)]);
    assert Apply(SAVED_SESSION, LoadSaved) == s1;
    assert Apply(s1, Refresh) == s2;
    assert Apply(s2, RefreshAnswered(0, Accepted(body))) == Answered(body);
    FollowRun(AnsweredRun(body), [SAVED_SESSION, s1, s2, Answered(body)]);
  }

  lemma ReplayedTraces(t: Token)
    ensures !NeverRefreshed([Refreshed(t), Rotated(t), Refreshed(t)])
    ensures !NeverLoggedOut([Refreshed(t), Rotated(t), LoggedOut(t)])
  {
    var trace := [Refreshed(t), Rotated(t), Refreshed(t)];
    assert trace[1] == Rotated(t) && trace[2] == Refreshed(t);
    var trace' := [Refreshed(t), Rotated(t), LoggedOut(t)];
    assert trace'[1] == Rotated(t) && trace'[2] == LoggedOut(t);
  }

  /** The app ends while the body with the successor is being read; the next start refreshes the replaced token. */
  lemma RestartReplays()
    ensures !NeverRefreshed(Run(SAVED_SESSION, AnsweredRun(USABLE) + [Restart, LoadSaved, Refresh]).trace)
  {
    AnsweredRunIsAnswered(USABLE);
    RunAppend(SAVED_SESSION, AnsweredRun(USABLE), [Restart, LoadSaved, Refresh]);
    ThreeSegments(Answered(USABLE), Restart, LoadSaved, Refresh);
    ReplayedTraces(0);
    var s1 := Apply(Answered(USABLE), Restart);
    var s2 := Apply(s1, LoadSaved);
    assert s2.refreshToken == Some(0) && s2.refreshInFlight.None? && s2.trace == [Refreshed(0), Rotated(0)];
    assert Apply(s2, Refresh).trace == [Refreshed(0), Rotated(0), Refreshed(0)];
  }

  /** The successor comes with an access token that cannot be stored. */
  lemma UnusableAnswerReplays()
    ensures !NeverRefreshed(
      Run(SAVED_SESSION, AnsweredRun(BAD_ACCESS) + [RefreshBody(0, true), RefreshContinues(0), Refresh]).trace)
  {
    AnsweredRunIsAnswered(BAD_ACCESS);
    UnreadBodyReplays(BAD_ACCESS, true);
  }

  /** The connection breaks while the body is being read. */
  lemma LostBodyReplays()
    ensures !NeverRefreshed(
      Run(SAVED_SESSION, AnsweredRun(USABLE) + [RefreshBody(0, false), RefreshContinues(0), Refresh]).trace)
  {
    AnsweredRunIsAnswered(USABLE);
    UnreadBodyReplays(USABLE, false);
  }

  lemma UnreadBodyReplays(body: Body, delivered: bool)
    requires Run(SAVED_SESSION, AnsweredRun(body)) == Answered(body)
    requires body == (if delivered then BAD_ACCESS else USABLE)
    ensures !NeverRefreshed(
      Run(SAVED_SESSION, AnsweredRun(body) + [RefreshBody(0, delivered), RefreshContinues(0), Refresh]).trace)
  {
    RunAppend(SAVED_SESSION, AnsweredRun(body), [RefreshBody(0, delivered), RefreshContinues(0), Refresh]);
    ThreeSegments(Answered(body), RefreshBody(0, delivered), RefreshContinues(0), Refresh);
    ReplayedTraces(0);
    var s1 := Apply(Answered(body), RefreshBody(0, delivered));
    assert s1 == Answered(body).(runs := map[0 := Settled]);
    var s2 := Apply(s1, RefreshContinues(0));
    assert s2.refreshToken == Some(0) && s2.refreshInFlight.None? && s2.trace == [Refreshed(0), Rotated(0)];
    assert Apply(s2, Refresh).trace == [Refreshed(0), Rotated(0), Refreshed(0)];
  }

  /** A sign-out with a live access token posts the replaced token while its successor is being read. */
  lemma SignOutReplays()
    ensures !NeverLoggedOut(Run(SAVED_SESSION, AnsweredRun(USABLE) + [AccessTokenChanges(true), SignOut(7)]).trace)
  {
    hide *;
    assert Rotates(USABLE) by { RotatingBody(); }
    AnsweredRunIsAnswered(USABLE);
    RunAppend(SAVED_SESSION, AnsweredRun(USABLE), [AccessTokenChanges(true), SignOut(7)]);
    SignOutPosts();
    ReplayedTraces(0);
  }

  lemma RotatingBody()
    ensures Rotates(USABLE)
  {
  }

  lemma SignOutPosts()
    ensures Run(Answered(USABLE), [AccessTokenChanges(true), SignOut(7)]).trace ==
            [Refreshed(0), Rotated(0), LoggedOut(0)]
  {
    var s1 := Answered(USABLE).(signedIn := true);
    var s2 := s1.(trace := [Refreshed(0), Rotated(0), LoggedOut(0)], signOuts := map[7 := LoggingOut]);
    assert Apply(Answered(USABLE), AccessTokenChanges(true)) == s1;
    assert Apply(s1, SignOut(7)) == s2;
    hide *;
    FollowRun([AccessTokenChanges(true), SignOut(7)], [Answered(USABLE), s1, s2]);
  }

  /** Two restores that overlap, a rotation and a sign-out between them: the late one brings the replaced token back. */
  function LateCheckRun(): (r: seq<Step>)
    ensures |r| == 11
  {
    [ReadSaved(0), LoadSaved, Refresh, RefreshAnswered(0, Accepted(USABLE)), RefreshBody(0, true),
     RefreshContinues(0), RefreshContinues(0), SignOut(0), SignOutResumes(0, Done), CheckSaved(0), Refresh]
  }

  const RENEWED := SAVED_SESSION.(
    refreshToken := Some(1), issued := 2, signedIn := true, store := Some(Saved(None, 1)), started := 1,
    restores := map[0 := Some(Saved(None, 0))], trace := [Refreshed(0), Rotated(0)])

  lemma OverlappingRestoreRenews()
    ensures Run(SAVED_SESSION, LateCheckRun()[..7]) == RENEWED
  {
    var s, p := SAVED_SESSION, LateCheckRun()[..7];
    var s1 := s.(restores := map[0 := s.store]);
    var s2 := s1.(refreshToken := Some(0));
    var s3 := s2.(runs := map[0 := Posting(0)], refreshInFlight := Some(0), started := 1, trace := [Refreshed(0)]);
    var s4 := s3.(runs := map[0 := Reading(0, USABLE, 1)], issued := 2, trace := [Refreshed(0), Rotated(0)]);
    var s5 := RENEWED.(runs := map[0 := Storing], refreshInFlight := Some(0));
    var s6 := RENEWED.(runs := map[0 := Settled], refreshInFlight := Some(0));
    assert Apply(s, p[0]) == s1;
    assert Apply(s1, p[1]) == s2;
    assert Apply(s2, p[2]) == s3;
    assert Apply(s3, p[3]) == s4;
    assert Apply(s4, p[4]) == s5;
    assert Apply(s5, p[5]) == s6;
    assert Apply(s6, p[6]) == RENEWED;
    FollowRun(p, [s, s1, s2, s3, s4, s5, s6, RENEWED]);
  }

  lemma LateCheckReplays()
    ensures Run(RENEWED, LateCheckRun()[7..]).trace == [Refreshed(0), Rotated(0), LoggedOut(1), Refreshed(0)]
  {
    var s, p := RENEWED, LateCheckRun()[7..];
    var s1 := s.(trace := [Refreshed(0), Rotated(0), LoggedOut(1)], signOuts := map[0 := LoggingOut]);
    var s2 := s1.(refreshToken := None, signedIn := false, store := None, signOuts := map[]);
    var s3 := s2.(refreshToken := Some(0), restores := map[]);
    var s4 := s3.(runs := map[1 := Posting(0)], refreshInFlight := Some(1), started := 2,
                  trace := [Refreshed(0), Rotated(0), LoggedOut(1), Refreshed(0)]);
    assert Apply(s, p[0]) == s1;
    assert Apply(s1, p[1]) == s2;
    assert Apply(s2, p[2]) == s3;
    assert Apply(s3, p[3]) == s4;
    FollowRun(p, [s, s1, s2, s3, s4]);
  }

  lemma SplitRestoreReplays()
    ensures Initial(SAVED_SESSION) && !NeverRefreshed(Run(SAVED_SESSION, LateCheckRun()).trace)
  {
    assert Initial(SAVED_SESSION);
    OverlappingRestoreRenews();
    LateCheckReplays();
    hide *;
    assert LateCheckRun() == LateCheckRun()[..7] + LateCheckRun()[7..];
    RunAppend(SAVED_SESSION, LateCheckRun()[..7], LateCheckRun()[7..]);
    LateTrace(Run(SAVED_SESSION, LateCheckRun()).trace);
  }

  lemma LateTrace(trace: seq<Event>)
    requires trace == [Refreshed(0), Rotated(0), LoggedOut(1), Refreshed(0)]
    ensures !NeverRefreshed(trace)
  {
    assert trace[1] == Rotated(0) && trace[3] == Refreshed(0);
  }
}
