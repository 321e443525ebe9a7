/** The signed-in cloud session of the desktop app: a rotating, single-use refresh token held in module variables
    and saved in the credential store. An asynchronous call is the sequence of its segments between two awaits;
    any segments of any calls may follow one another. */
module CloudSession {
  import opened Outcomes

  /** Tokens are numbered in the order KusShoes issued them: a new one differs from all before. */
  type Token = nat

  datatype Saved = Saved(user: Option<string>, token: Token)

  /** Where a runRefresh call is suspended. */
  datatype RunPhase =
    | Posting(token: Token) // awaiting the answer to /auth/refresh
    | Reading(token: Token, body: Body, successor: Token) // awaiting the body of a 2xx answer
    | Storing // awaiting the credential store
    | Settled // its finally handler has not run yet

  datatype SignOutPhase = LoggingOut | Renewing | LoggingOutAgain

  datatype Event =
    | Refreshed(token: Token)  // sent to /auth/refresh
    | LoggedOut(token: Token)  // sent to /auth/logout
    | Rotated(token: Token)    // KusShoes answered with a new one in its place

  datatype Offered = Missing | Malformed | WellFormed

  /** What a 2xx answer to /auth/refresh says once parsed: is the access token a string, is it well formed, does a
      new refresh token come with it. */
  datatype Body = Unparsable | Parsed(hasAccess: bool, accessValid: bool, refresh: Offered)

  /** KusShoes has replaced the token it was sent. */
  predicate Rotates(body: Body) {
    body.Parsed? && !body.refresh.Missing?
  }

  /** The app can take the new token over. */
  predicate Replaces(body: Body) {
    body.Parsed? && body.hasAccess && body.accessValid && body.refresh.WellFormed?
  }

  datatype State = State(
    // the module's variables
    refreshToken: Option<Token>,
    sessionUserId: Option<string>,
    refreshInFlight: Option<nat>,
    // the access token, and the credential store after every operation issued so far
    signedIn: bool,
    store: Option<Saved>,
    // suspended calls
    runs: map<nat, RunPhase>,
    signOuts: map<nat, SignOutPhase>,
    restores: map<nat, Option<Saved>>,
    started: nat,
    // KusShoes' side, and what happened
    issued: nat,
    trace: seq<Event>)

  // ----- segments

  function Persist(s: State): State {
    if s.refreshToken.None? then s
    else s.(store := Some(Saved(s.sessionUserId, s.refreshToken.value)))
  }

  /** refreshCloudSession(): joins the refresh in flight or starts one. */
  function BeginRefresh(s: State): State {
    if s.refreshInFlight.Some? then s
    else
      var id := s.started;
      var s' := s.(refreshInFlight := Some(id), started := id + 1);
      match s.refreshToken
      case None => s'.(runs := s.runs[id := Settled])
      case Some(t) => s'.(runs := s.runs[id := Posting(t)], trace := s.trace + [Refreshed(t)])
  }

  datatype Answer = Unreachable | Denied | NotOk | Accepted(body: Body)

  /** KusShoes' answer arrives. A rotation has happened from then on, though its body is still to be read. */
  function AnswerRefresh(s: State, id: nat, answer: Answer): State {
    if id !in s.runs || !s.runs[id].Posting? then s
    else match answer
      case Unreachable | NotOk => s.(runs := s.runs[id := Settled])
      case Denied =>
        s.(refreshToken := None, sessionUserId := None, signedIn := false, store := None, runs := s.runs[id := Storing])
      case Accepted(body) =>
        var t := s.runs[id].token;
        s.(runs := s.runs[id := Reading(t, body, s.issued)],
           issued := s.issued + 1,
           trace := if Rotates(body) then s.trace + [Rotated(t)] else s.trace)
  }

  /** The body has been read, or the connection broke before it was complete. */
  function ReadBody(s: State, id: nat, delivered: bool): State {
    if id !in s.runs || !s.runs[id].Reading? then s
    else
      var body := s.runs[id].body;
      if !delivered || body.Unparsable? || !body.hasAccess || !body.accessValid then s.(runs := s.runs[id := Settled])
      else if !body.refresh.WellFormed? then s.(signedIn := true, runs := s.runs[id := Settled])
      else Persist(s.(signedIn := true, refreshToken := Some(s.runs[id].successor), runs := s.runs[id := Storing]))
  }

  function Finish(s: State, id: nat): State {
    if id !in s.runs then s
    else if s.runs[id].Storing? then s.(runs := s.runs[id := Settled])
    else if s.runs[id].Settled? then s.(runs := s.runs - {id}, refreshInFlight := None)
    else s
  }

  function Adopt(s: State, accessValid: bool, offered: Offered, user: Option<string>): State {
    if !accessValid then s
    else match offered
      case Missing | Malformed => s.(signedIn := true)
      case WellFormed =>
        Persist(s.(
          signedIn := true,
          refreshToken := Some(s.issued),
          issued := s.issued + 1,
          sessionUserId := if user.Some? then user else s.sessionUserId))
  }

  function Remember(s: State, user: string): State {
    if s.refreshToken.None? || s.sessionUserId == Some(user) then s
    else Persist(s.(sessionUserId := Some(user)))
  }

  function TakeSaved(s: State, saved: Option<Saved>): State {
    if s.refreshToken.Some? || saved.None? then s
    else s.(refreshToken := Some(saved.value.token), sessionUserId := saved.value.user)
  }

  function PostLogout(s: State): State {
    if s.refreshToken.None? then s else s.(trace := s.trace + [LoggedOut(s.refreshToken.value)])
  }

  function Forget(s: State, id: nat): State {
    s.(refreshToken := None, sessionUserId := None, signedIn := false, store := None, signOuts := s.signOuts - {id})
  }

  function BeginSignOut(s: State, id: nat): State {
    if id in s.signOuts then s
    else if s.refreshToken.None? then Forget(s, id)
    else if s.signedIn then PostLogout(s).(signOuts := s.signOuts[id := LoggingOut])
    else BeginRefresh(s).(signOuts := s.signOuts[id := Renewing])
  }

  datatype Reply = Threw | Unauthorized | Done

  /** The sign-out resumes with the logout's reply, or with the outcome of the renewal it waited for. */
  function ResumeSignOut(s: State, id: nat, reply: Reply): State {
    if id !in s.signOuts then s
    else match s.signOuts[id]
      case LoggingOut =>
        if reply == Unauthorized then BeginRefresh(s).(signOuts := s.signOuts[id := Renewing]) else Forget(s, id)
      case Renewing =>
        if reply == Done then PostLogout(s).(signOuts := s.signOuts[id := LoggingOutAgain]) else Forget(s, id)
      case LoggingOutAgain => Forget(s, id)
  }

  datatype Step =
    | Refresh
    | RefreshAnswered(id: nat, answer: Answer)
    | RefreshBody(id: nat, delivered: bool)
    | RefreshContinues(id: nat)
    | AdoptTokens(accessValid: bool, offered: Offered, user: Option<string>)
    | RememberUser(userId: string)
    // a restore whose read of the store and check of memory are one step
    | LoadSaved
    // a restore that lets others run between the two
    | ReadSaved(id: nat)
    | CheckSaved(id: nat)
    | SignOut(id: nat)
    | SignOutResumes(id: nat, reply: Reply)
    // another module stores or clears the access token
    | AccessTokenChanges(present: bool)
    // the app is closed, or dies, and starts again: only the store survives
    | Restart

  function Apply(s: State, step: Step): State {
    match step
    case Refresh => BeginRefresh(s)
    case RefreshAnswered(id, answer) => AnswerRefresh(s, id, answer)
    case RefreshBody(id, delivered) => ReadBody(s, id, delivered)
    case RefreshContinues(id) => Finish(s, id)
    case AdoptTokens(accessValid, offered, user) => Adopt(s, accessValid, offered, user)
    case RememberUser(user) => Remember(s, user)
    case LoadSaved => TakeSaved(s, s.store)
    case ReadSaved(id) => if id in s.restores then s else s.(restores := s.restores[id := s.store])
    case CheckSaved(id) => if id !in s.restores then s else TakeSaved(s, s.restores[id]).(restores := s.restores - {id})
    case SignOut(id) => BeginSignOut(s, id)
    case SignOutResumes(id, reply) => ResumeSignOut(s, id, reply)
    case AccessTokenChanges(present) => s.(signedIn := present)
    case Restart =>
      s.(refreshToken := None, sessionUserId := None, refreshInFlight := None, signedIn := false,
         runs := map[], signOuts := map[], restores := map[])
  }

  function Run(s: State, steps: seq<Step>): State
    decreases |steps|
  {
    if steps == [] then s else Run(Apply(s, steps[0]), steps[1..])
  }

  /** A first start: an empty memory, and whatever an earlier version left in the store. */
  ghost predicate Initial(s: State) {
    && s.refreshToken.None? && s.sessionUserId.None? && s.refreshInFlight.None? && !s.signedIn
    && s.runs == map[] && s.signOuts == map[] && s.restores == map[] && s.trace == []
    && (s.store.Some? ==> s.store.value.token < s.issued)
  }

  // ----- single flight, and whose session it is

  ghost predicate SingleFlight(s: State) {
    s.runs.Keys == if s.refreshInFlight.Some? then {s.refreshInFlight.value} else {}
  }

  ghost predicate UserNeedsToken(s: State) {
    s.refreshToken.None? ==> s.sessionUserId.None?
  }

  lemma {:induction false} EveryInterleaving(s: State, steps: seq<Step>)
    requires Ordered(s)
    ensures Ordered(Run(s, steps))
    decreases |steps|
  {
    if steps != [] {
      SegmentKeepsSingleFlight(s, steps[0]);
      hide Apply, Ordered;
      EveryInterleaving(Apply(s, steps[0]), steps[1..]);
    }
  }

  ghost predicate Ordered(s: State) {
    SingleFlight(s) && UserNeedsToken(s)
  }

  lemma RefreshKeepsSingleFlight(s: State, id: nat, answer: Answer, delivered: bool)
    requires Ordered(s)
    ensures Ordered(BeginRefresh(s))
    ensures Ordered(AnswerRefresh(s, id, answer))
    ensures Ordered(ReadBody(s, id, delivered))
    ensures Ordered(Finish(s, id))
  {
    assert id in s.runs ==> s.refreshInFlight == Some(id);
  }

  lemma SignOutPartsKeepSingleFlight(s: State, id: nat)
    requires Ordered(s)
    ensures Ordered(PostLogout(s)) && Ordered(Forget(s, id))
  {
  }

  lemma SingleFlightIgnoresSignOuts(s: State, signOuts: map<nat, SignOutPhase>)
    requires Ordered(s)
    ensures Ordered(s.(signOuts := signOuts))
  {
  }

  lemma SignOutKeepsSingleFlight(s: State, id: nat, reply: Reply)
    requires Ordered(s)
    ensures Ordered(BeginSignOut(s, id)) && Ordered(ResumeSignOut(s, id, reply))
  {
    RefreshKeepsSingleFlight(s, 0, NotOk, false);
    SignOutPartsKeepSingleFlight(s, id);
    hide BeginRefresh, PostLogout, Forget, Ordered;
    SingleFlightIgnoresSignOuts(BeginRefresh(s), s.signOuts[id := Renewing]);
    SingleFlightIgnoresSignOuts(PostLogout(s), s.signOuts[id := LoggingOut]);
    SingleFlightIgnoresSignOuts(PostLogout(s), s.signOuts[id := LoggingOutAgain]);
  }

  lemma SegmentKeepsSingleFlight(s: State, step: Step)
    requires Ordered(s)
    ensures Ordered(Apply(s, step))
  {
    hide BeginRefresh, AnswerRefresh, ReadBody, Finish, BeginSignOut, ResumeSignOut;
    match step
    case Refresh => RefreshKeepsSingleFlight(s, 0, NotOk, false);
    case RefreshAnswered(id, answer) => RefreshKeepsSingleFlight(s, id, answer, false);
    case RefreshBody(id, delivered) => RefreshKeepsSingleFlight(s, id, NotOk, delivered);
    case RefreshContinues(id) => RefreshKeepsSingleFlight(s, id, NotOk, false);
    case SignOut(id) => SignOutKeepsSingleFlight(s, id, Done);
    case SignOutResumes(id, reply) => SignOutKeepsSingleFlight(s, id, reply);
    case _ =>
  }

  /** In every interleaving at most one /auth/refresh is unanswered, it is the one refreshInFlight stands for,
      and without a refresh token there is no user. */
  lemma AtMostOneRefreshOutstanding(s: State, steps: seq<Step>, i: nat, j: nat)
    requires Initial(s)
    ensures var now := Run(s, steps);
            && (i in now.runs && j in now.runs ==> i == j && now.refreshInFlight == Some(i))
            && (now.refreshToken.None? ==> now.sessionUserId.None?)
  {
    EveryInterleaving(s, steps);
  }

  // ----- what deletes a session

  /** The saved session is deleted only by a definitive rejection or a sign-out. */
  lemma OnlyRejectionOrSignOutDeletes(s: State, step: Step)
    requires Ordered(s)
    ensures s.store.Some? && Apply(s, step).store.None? ==> Deletes(step)
    ensures s.refreshToken.Some? && Apply(s, step).refreshToken.None? ==>
              || Apply(s, step).store.None?
              || step.Restart?
  {
    hide Rotates, Ordered;
  }

  predicate Deletes(step: Step) {
    (step.RefreshAnswered? && step.answer == Denied) || step.SignOut? || step.SignOutResumes?
  }

  /** A saved session survives every run without a rejection or a sign-out: errors, lost connections, restarts and
      sign-ins never delete it. */
  lemma {:induction false} SavedSessionSurvives(s: State, steps: seq<Step>)
    requires Ordered(s) && s.store.Some? && forall step <- steps :: !Deletes(step)
    ensures Run(s, steps).store.Some?
    decreases |steps|
  {
    if steps != [] {
      assert !Deletes(steps[0]);
      OnlyRejectionOrSignOutDeletes(s, steps[0]);
      SegmentKeepsSingleFlight(s, steps[0]);
      hide Apply, Ordered, Deletes;
      SavedSessionSurvives(Apply(s, steps[0]), steps[1..]);
    }
  }

  // ----- whose session it is

  /** The store holds what memory holds; before memory has anything, every restore has read what the store holds. */
  ghost predicate Mirrored(s: State) {
    && (s.refreshToken.Some? && s.store.Some? ==> s.store == Some(Saved(s.sessionUserId, s.refreshToken.value)))
    && (s.refreshToken.None? && s.store.Some? ==> forall id <- s.restores :: s.restores[id] == s.store)
  }

  lemma AnswerKeepsMirrored(s: State, id: nat, answer: Answer)
    requires Mirrored(s)
    ensures Mirrored(AnswerRefresh(s, id, answer))
  {
    hide Rotates;
  }

  lemma ReadKeepsMirrored(s: State, id: nat, delivered: bool)
    requires Mirrored(s)
    ensures Mirrored(ReadBody(s, id, delivered))
  {
  }

  lemma RefreshKeepsMirrored(s: State, id: nat)
    requires Mirrored(s)
    ensures Mirrored(BeginRefresh(s))
    ensures Mirrored(Finish(s, id))
  {
  }

  lemma SignOutKeepsMirrored(s: State, id: nat, reply: Reply)
    requires Mirrored(s)
    ensures Mirrored(BeginSignOut(s, id)) && Mirrored(ResumeSignOut(s, id, reply))
  {
    RefreshKeepsMirrored(s, 0);
    assert Mirrored(PostLogout(s)) && Mirrored(Forget(s, id));
    hide BeginRefresh, PostLogout, Forget;
  }

  lemma SegmentKeepsMirrored(s: State, step: Step)
    requires Mirrored(s)
    ensures Mirrored(Apply(s, step))
  {
    hide BeginRefresh, AnswerRefresh, ReadBody, Finish, BeginSignOut, ResumeSignOut;
    match step
    case Refresh => RefreshKeepsMirrored(s, 0);
    case RefreshAnswered(id, answer) => AnswerKeepsMirrored(s, id, answer);
    case RefreshBody(id, delivered) => ReadKeepsMirrored(s, id, delivered);
    case RefreshContinues(id) => RefreshKeepsMirrored(s, id);
    case SignOut(id) => SignOutKeepsMirrored(s, id, Done);
    case SignOutResumes(id, reply) => SignOutKeepsMirrored(s, id, reply);
    case _ =>
  }

  lemma {:induction false} RunKeepsMirrored(s: State, steps: seq<Step>)
    requires Mirrored(s)
    ensures Mirrored(Run(s, steps))
    decreases |steps|
  {
    if steps != [] {
      SegmentKeepsMirrored(s, steps[0]);
      hide Apply, Mirrored;
      RunKeepsMirrored(Apply(s, steps[0]), steps[1..]);
    }
  }

  /** In every interleaving the saved session, where there is one, is the one in memory: same token, same user. */
  lemma StoreMirrorsMemory(s: State, steps: seq<Step>)
    requires Initial(s)
    ensures var now := Run(s, steps);
            now.refreshToken.Some? && now.store.Some? ==>
              now.store == Some(Saved(now.sessionUserId, now.refreshToken.value))
  {
    RunKeepsMirrored(s, steps);
  }

  /** The user a segment says the session belongs to. */
  function Names(step: Step): Option<string> {
    match step
    case AdoptTokens(true, WellFormed, user) => user
    case RememberUser(user) => Some(user)
    case _ => None
  }

  function LastNamed(steps: seq<Step>, user: Option<string>): Option<string> {
    if steps == [] then user
    else LastNamed(steps[1..], if Names(steps[0]).Some? then Names(steps[0]) else user)
  }

  predicate Ends(step: Step) { Deletes(step) || step.Restart? }

  /** Neither deletes the session nor changes whose it is. */
  predicate SameUser(s: State, s': State) {
    s'.refreshToken.Some? && s'.sessionUserId == s.sessionUserId && (s.store.Some? ==> s'.store.Some?)
  }

  lemma RefreshKeepsUser(s: State, id: nat, answer: Answer, delivered: bool)
    requires s.refreshToken.Some?
    ensures SameUser(s, BeginRefresh(s)) && SameUser(s, Finish(s, id)) && SameUser(s, ReadBody(s, id, delivered))
    ensures answer != Denied ==> SameUser(s, AnswerRefresh(s, id, answer))
  {
    hide Rotates;
  }

  lemma SegmentNames(s: State, step: Step)
    requires s.refreshToken.Some? && !Ends(step)
    ensures var after := Apply(s, step);
            && after.refreshToken.Some?
            && after.sessionUserId == (if Names(step).Some? then Names(step) else s.sessionUserId)
            && (s.store.Some? || (step.AdoptTokens? && Names(step).Some?) ==> after.store.Some?)
  {
    hide BeginRefresh, AnswerRefresh, ReadBody, Finish;
    match step
    case Refresh => RefreshKeepsUser(s, 0, NotOk, false);
    case RefreshAnswered(id, answer) => RefreshKeepsUser(s, id, answer, false);
    case RefreshBody(id, delivered) => RefreshKeepsUser(s, id, NotOk, delivered);
    case RefreshContinues(id) => RefreshKeepsUser(s, id, NotOk, false);
    case _ =>
  }

  /** From a sign-in or a restore on, up to the next sign-out, rejection or restart: the session belongs to the user
      named last, by a sign-in or a remember, in memory and in the store, whatever refreshes and restores come
      between. */
  lemma {:induction false} SessionBelongsToLastNamed(s: State, steps: seq<Step>)
    requires Mirrored(s) && s.refreshToken.Some? && forall step <- steps :: !Ends(step)
    ensures var now := Run(s, steps);
            && now.refreshToken.Some?
            && now.sessionUserId == LastNamed(steps, s.sessionUserId)
            && (s.store.Some? ==>
                  now.store == Some(Saved(LastNamed(steps, s.sessionUserId), now.refreshToken.value)))
    decreases |steps|
  {
    if steps != [] {
      assert !Ends(steps[0]);
      SegmentNames(s, steps[0]);
      SegmentKeepsMirrored(s, steps[0]);
      hide Apply, Mirrored, Ends, Names;
      SessionBelongsToLastNamed(Apply(s, steps[0]), steps[1..]);
    }
  }

  /** A session begins with the sign-in's user, with the saved one, or, where a refresh outlives a sign-out, with
      none. */
  lemma SessionBegins(s: State, step: Step)
    requires Ordered(s) && Mirrored(s) && s.refreshToken.None? && Apply(s, step).refreshToken.Some?
    ensures var now := Apply(s, step);
            match step
            case AdoptTokens(accessValid, offered, user) =>
              && accessValid && offered.WellFormed?
              && now.sessionUserId == user && now.store == Some(Saved(user, now.refreshToken.value))
            case LoadSaved => now.store.Some? && now.sessionUserId == s.store.value.user && now.store == s.store
            case CheckSaved(id) =>
              && id in s.restores && s.restores[id].Some? && now.sessionUserId == s.restores[id].value.user
              && now.store == s.store && (s.store.Some? ==> now.sessionUserId == s.store.value.user)
            case RefreshBody(_, _) =>
              now.sessionUserId.None? && now.store == Some(Saved(None, now.refreshToken.value))
            case _ => false
  {
    hide BeginRefresh, AnswerRefresh, ReadBody, Finish, PostLogout;
    NoSessionYet(s);
    if step.RefreshBody? {
      ReadBegins(s, step.id, step.delivered);
    }
  }

  lemma NoSessionYet(s: State)
    requires s.refreshToken.None?
    ensures BeginRefresh(s).refreshToken.None?
    ensures PostLogout(s).refreshToken.None?
    ensures forall id, answer :: AnswerRefresh(s, id, answer).refreshToken.None?
    ensures forall id :: Finish(s, id).refreshToken.None?
  {
    hide Rotates;
  }

  lemma ReadBegins(s: State, id: nat, delivered: bool)
    requires Ordered(s) && s.refreshToken.None?
    ensures var now := ReadBody(s, id, delivered);
            now.refreshToken.Some? ==>
              now.sessionUserId.None? && now.store == Some(Saved(None, now.refreshToken.value))
  {
  }

  // ----- runs

  lemma {:induction false} RunAppend(s: State, a: seq<Step>, b: seq<Step>)
    ensures Run(s, a + b) == Run(Run(s, a), b)
    decreases |a|
  {
    hide Apply;
    if a == [] {
      assert a + b == b;
    } else {
      assert (a + b)[0] == a[0] && (a + b)[1..] == a[1..] + b;
      RunAppend(Apply(s, a[0]), a[1..], b);
    }
  }

  lemma {:induction false} FollowRun(steps: seq<Step>, states: seq<State>)
    requires |states| == |steps| + 1
    requires forall i :: 0 <= i < |steps| ==> Apply(states[i], steps[i]) == states[i + 1]
    ensures Run(states[0], steps) == states[|steps|]
    decreases |steps|
  {
    hide Apply;
    if steps != [] {
      FollowRun(steps[1..], states[1..]);
    }
  }

  // ----- the module

  /** The module's three variables, updated segment by segment; `rest` is everything they do not hold. */
  class CloudSessionModule {
    var refreshToken: Option<Token>
    var sessionUserId: Option<string>
    var refreshInFlight: Option<nat>
    var rest: State

    constructor (start: State)
      requires Ordered(start)
      ensures Now() == start && Valid()
    {
      refreshToken, sessionUserId, refreshInFlight := start.refreshToken, start.sessionUserId, start.refreshInFlight;
      rest := start;
    }

    function Now(): State
      reads this
    {
      rest.(refreshToken := refreshToken, sessionUserId := sessionUserId, refreshInFlight := refreshInFlight)
    }

    /** One refresh at a time, and no user without a token. */
    ghost predicate Valid()
      reads this
    {
      Ordered(Now())
    }

    method SavePersisted()
      modifies this`rest
      ensures Now() == Persist(old(Now()))
      ensures refreshToken.Some? ==> rest.store == Some(Saved(sessionUserId, refreshToken.value))
    {
      if refreshToken.Some? {
        rest := rest.(store := Some(Saved(sessionUserId, refreshToken.value)));
      }
    }

    /** However often it is called, at most one request is sent until that one has been answered. */
    method RefreshCloudSession()
      requires Valid()
      modifies this
      ensures Valid() && Now() == BeginRefresh(old(Now())) && refreshInFlight.Some?
      ensures Now() == BeginRefresh(Now())
      ensures old(refreshInFlight).Some? ==> Now() == old(Now())
      ensures old(refreshInFlight).None? ==>
                && rest.trace == old(rest).trace + (if refreshToken.Some? then [Refreshed(refreshToken.value)] else [])
                && refreshInFlight.value in rest.runs
                && rest.runs[refreshInFlight.value] ==
                   (if refreshToken.Some? then Posting(refreshToken.value) else Settled)
      ensures refreshToken == old(refreshToken) && sessionUserId == old(sessionUserId) && rest.store == old(rest).store
    {
      RefreshKeepsSingleFlight(Now(), 0, NotOk, false);
      hide Ordered;
      if refreshInFlight.None? {
        var id := rest.started;
        refreshInFlight := Some(id);
        rest := rest.(started := id + 1);
        match refreshToken {
          case None => rest := rest.(runs := rest.runs[id := Settled]);
          case Some(token) =>
            rest := rest.(runs := rest.runs[id := Posting(token)], trace := rest.trace + [Refreshed(token)]);
        }
      }
    }

    /** The continuation of runRefresh after the answer to /auth/refresh. Only a rejection forgets the session. */
    method RefreshReceives(id: nat, answer: Answer)
      requires Valid() && id in rest.runs && rest.runs[id].Posting?
      modifies this
      ensures Valid() && Now() == AnswerRefresh(old(Now()), id, answer)
      ensures answer != Denied ==>
                && refreshToken == old(refreshToken) && sessionUserId == old(sessionUserId)
                && rest.store == old(rest).store && rest.signedIn == old(rest).signedIn
      ensures answer == Denied ==>
                refreshToken.None? && sessionUserId.None? && rest.store.None? && !rest.signedIn
      ensures id in rest.runs
              && match answer
                 case Unreachable => rest.runs[id] == Settled && rest.trace == old(rest).trace
                 case NotOk => rest.runs[id] == Settled && rest.trace == old(rest).trace
                 case Denied => rest.runs[id] == Storing && rest.trace == old(rest).trace
                 case Accepted(body) =>
                   var token := old(rest.runs[id]).token;
                   && rest.runs[id] == Reading(token, body, old(rest).issued)
                   && rest.issued == old(rest).issued + 1
                   && rest.trace == old(rest).trace +
                      (if body.Parsed? && !body.refresh.Missing? then [Rotated(token)] else [])
    {
      RefreshKeepsSingleFlight(Now(), id, answer, false);
      hide Ordered;
      match answer {
        case Unreachable => rest := rest.(runs := rest.runs[id := Settled]);
        case NotOk => rest := rest.(runs := rest.runs[id := Settled]);
        case Denied =>
          refreshToken := None;
          sessionUserId := None;
          rest := rest.(signedIn := false, store := None, runs := rest.runs[id := Storing]);
        case Accepted(body) =>
          var token := rest.runs[id].token;
          rest := rest.(runs := rest.runs[id := Reading(token, body, rest.issued)], issued := rest.issued + 1);
          if Rotates(body) {
            rest := rest.(trace := rest.trace + [Rotated(token)]);
          }
      }
    }

    /** The continuation of runRefresh after the body was read, or broke off. A new token is in memory and in the
        store before any other segment runs; otherwise both keep what they had. */
    method RefreshReads(id: nat, delivered: bool)
      requires Valid() && id in rest.runs && rest.runs[id].Reading?
      modifies this
      ensures Valid() && Now() == ReadBody(old(Now()), id, delivered)
      ensures var run := old(rest.runs[id]);
              if delivered && Replaces(run.body)
              then refreshToken == Some(run.successor) && rest.store == Some(Saved(sessionUserId, run.successor))
              else refreshToken == old(refreshToken) && rest.store == old(rest).store
      ensures sessionUserId == old(sessionUserId)
      ensures var body := old(rest.runs[id]).body;
              rest.signedIn <==>
                old(rest).signedIn || (delivered && body.Parsed? && body.hasAccess && body.accessValid)
    {
      RefreshKeepsSingleFlight(Now(), id, NotOk, delivered);
      hide Ordered;
      var body := rest.runs[id].body;
      if !delivered || body.Unparsable? || !body.hasAccess || !body.accessValid {
        // storeAccessToken throws on an ill-formed access token
        rest := rest.(runs := rest.runs[id := Settled]);
        return;
      }
      rest := rest.(signedIn := true);
      if body.refresh != WellFormed {
        rest := rest.(runs := rest.runs[id := Settled]);
        return;
      }
      refreshToken := Some(rest.runs[id].successor);
      rest := rest.(runs := rest.runs[id := Storing]);
      SavePersisted();
    }

    /** A sign-in with a refresh token is saved at once, also while a refresh is in flight. */
    method AdoptCloudSession(accessValid: bool, offered: Offered, user: Option<string>)
      requires Valid()
      modifies this
      ensures Valid() && Now() == Adopt(old(Now()), accessValid, offered, user)
      ensures accessValid && offered.WellFormed? ==>
                && refreshToken == Some(old(rest).issued)
                && sessionUserId == (if user.Some? then user else old(sessionUserId))
                && rest.store == Some(Saved(if user.Some? then user else old(sessionUserId), old(rest).issued))
      ensures !(accessValid && offered.WellFormed?) ==>
                && refreshToken == old(refreshToken) && sessionUserId == old(sessionUserId)
                && rest.store == old(rest).store
      ensures rest.signedIn <==> accessValid || old(rest).signedIn
    {
      if !accessValid {
        return;
      }
      rest := rest.(signedIn := true);
      if offered == WellFormed {
        refreshToken := Some(rest.issued);
        rest := rest.(issued := rest.issued + 1);
        if user.Some? {
          sessionUserId := user;
        }
        SavePersisted();
      }
    }

    /** A second call with the same user changes nothing. */
    method RememberCloudSessionUser(user: string)
      requires Valid()
      modifies this
      ensures Valid() && Now() == Remember(old(Now()), user) == Remember(Now(), user)
      ensures refreshToken == old(refreshToken)
      ensures sessionUserId == if refreshToken.Some? then Some(user) else old(sessionUserId)
      ensures rest.store == if refreshToken.Some? && old(sessionUserId) != Some(user)
                then Some(Saved(Some(user), refreshToken.value)) else old(rest).store
    {
      if refreshToken.None? || sessionUserId == Some(user) {
        return;
      }
      sessionUserId := Some(user);
      SavePersisted();
    }

    /** The part of loadSavedCloudSession after the store was read: what is in memory wins. */
    method LoadSavedCloudSession(saved: Option<Saved>)
      requires Valid()
      modifies this
      ensures Valid() && Now() == TakeSaved(old(Now()), saved)
      ensures old(refreshToken).Some? ==> Now() == old(Now())
      ensures refreshToken.Some? <==> old(refreshToken).Some? || saved.Some?
      ensures old(refreshToken).None? && saved.Some? ==>
                refreshToken == Some(saved.value.token) && sessionUserId == saved.value.user
      ensures rest == old(rest)
    {
      if refreshToken.None? && saved.Some? {
        refreshToken := Some(saved.value.token);
        sessionUserId := saved.value.user;
      }
    }

    /** signOutCloudSession up to its first await. */
    method SignOutCloudSession(id: nat)
      requires Valid() && id !in rest.signOuts
      modifies this
      ensures Valid() && Now() == BeginSignOut(old(Now()), id)
      ensures old(refreshToken).None? ==>
                refreshToken.None? && sessionUserId.None? && rest.store.None? && !rest.signedIn
      ensures old(refreshToken).Some? ==>
                && refreshToken == old(refreshToken) && sessionUserId == old(sessionUserId)
                && rest.store == old(rest).store && id in rest.signOuts
                && rest.signOuts[id] == (if rest.signedIn then LoggingOut else Renewing)
                && (rest.signedIn ==> rest.trace == old(rest).trace + [LoggedOut(refreshToken.value)])
                && (!rest.signedIn ==> refreshInFlight.Some?)
    {
      SignOutKeepsSingleFlight(Now(), id, Done);
      var signOuts := rest.signOuts;
      if refreshToken.Some? {
        if rest.signedIn {
          rest := rest.(trace := rest.trace + [LoggedOut(refreshToken.value)], signOuts := signOuts[id := LoggingOut]);
        } else {
          RefreshCloudSession();
          rest := rest.(signOuts := signOuts[id := Renewing]);
        }
        return;
      }
      ForgetLocally(id);
    }

    /** The rest of signOutCloudSession, one segment at a time; when the call is over nothing is left. */
    method SignOutContinues(id: nat, reply: Reply)
      requires Valid() && id in rest.signOuts
      modifies this
      ensures Valid() && Now() == ResumeSignOut(old(Now()), id, reply)
      ensures id !in rest.signOuts ==>
                refreshToken.None? && sessionUserId.None? && rest.store.None? && !rest.signedIn
      ensures id in rest.signOuts <==>
                || (old(rest.signOuts[id]) == LoggingOut && reply == Unauthorized)
                || (old(rest.signOuts[id]) == Renewing && reply == Done)
      ensures id in rest.signOuts ==>
                && refreshToken == old(refreshToken) && sessionUserId == old(sessionUserId)
                && rest.store == old(rest).store && rest.signedIn == old(rest).signedIn
                && rest.signOuts[id] == (if reply == Done then LoggingOutAgain else Renewing)
      ensures id in rest.signOuts && reply == Done && refreshToken.Some? ==>
                rest.trace == old(rest).trace + [LoggedOut(refreshToken.value)]
    {
      SignOutKeepsSingleFlight(Now(), id, reply);
      var phase := rest.signOuts[id];
      if phase == LoggingOut && reply == Unauthorized {
        RefreshCloudSession();
        rest := rest.(signOuts := rest.signOuts[id := Renewing]);
      } else if phase == Renewing && reply == Done {
        if refreshToken.Some? {
          rest := rest.(trace := rest.trace + [LoggedOut(refreshToken.value)]);
        }
        rest := rest.(signOuts := rest.signOuts[id := LoggingOutAgain]);
      } else {
        ForgetLocally(id);
      }
    }

    method ForgetLocally(id: nat)
      requires Valid()
      modifies this
      ensures Valid() && Now() == Forget(old(Now()), id)
      ensures refreshToken.None? && sessionUserId.None? && rest.store.None? && !rest.signedIn && id !in rest.signOuts
    {
      refreshToken := None;
      sessionUserId := None;
      rest := rest.(signedIn := false, store := None, signOuts := rest.signOuts - {id});
    }
  }
}
