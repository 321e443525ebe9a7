/** Creating the one scan session of a control-plane project: select, insert, and on a uniqueness violation
    select again, by any number of callers at once. Sessions are never deleted. */
module ScanSessions {
  import opened Outcomes
  import opened Text

  datatype Principal = Principal(user: string, project: string, token: string, name: string, url: string)

  datatype Row = Row(id: string, user: string, project: string, token: string, name: string, url: string)

  /** The committed sessions by control-plane project: the unique constraint on that column. */
  type Table = map<string, Row>

  // ----- identifiers

  predicate IsLowerHex(c: char) { '0' <= c <= '9' || 'a' <= c <= 'f' }

  predicate IsDashAt(i: nat) { i == 8 || i == 13 || i == 18 || i == 23 }

  /** The text form str(UUID(..)) that the scan token decoder passes on: 32 lower-case hex digits in five groups. */
  predicate Canonical(project: string) {
    && |project| == 36
    && forall i :: 0 <= i < 36 ==> if IsDashAt(i) then project[i] == '-' else IsLowerHex(project[i])
  }

  function Undashed(project: string): string
    requires Canonical(project)
  {
    project[..8] + project[9..13] + project[14..18] + project[19..23] + project[24..]
  }

  /** `hex` reads a UUID in any of its spellings as lower-case digits; on the canonical one it drops the dashes. */
  ghost predicate ReadsUuids(hex: string -> string) {
    forall p: string :: Canonical(p) ==> hex(p) == Undashed(p)
  }

  lemma CanonicalParts(p: string)
    requires Canonical(p)
    ensures p == p[..8] + ['-'] + p[9..13] + ['-'] + p[14..18] + ['-'] + p[19..23] + ['-'] + p[24..]
  {
    assert IsDashAt(8) && IsDashAt(13) && IsDashAt(18) && IsDashAt(23);
  }

  lemma CanonicalIdsDiffer(a: string, b: string)
    requires Canonical(a) && Canonical(b) && Undashed(a) == Undashed(b)
    ensures a == b
  {
    CanonicalParts(a);
    CanonicalParts(b);
    hide Canonical;
    var u, v := Undashed(a), Undashed(b);
    assert a[..8] == u[..8] && a[9..13] == u[8..12] && a[14..18] == u[12..16];
    assert a[19..23] == u[16..20] && a[24..] == u[20..];
    assert b[..8] == v[..8] && b[9..13] == v[8..12] && b[14..18] == v[12..16];
    assert b[19..23] == v[16..20] && b[24..] == v[20..];
  }

  function WithoutDashes(s: string): string {
    if s == [] then [] else (if s[0] == '-' then [] else [s[0]]) + WithoutDashes(s[1..])
  }

  /** uuid.UUID(text).hex, for text that is a UUID with or without dashes, in either case. */
  function UuidHex(text: string): string {
    Lower(WithoutDashes(text))
  }

  lemma {:induction false} DigitsStay(s: string)
    requires forall i :: 0 <= i < |s| ==> IsLowerHex(s[i])
    ensures WithoutDashes(s) == s && Lower(s) == s
  {
    if s != [] {
      DigitsStay(s[1..]);
    }
  }

  lemma {:induction false} DropDash(a: string, b: string)
    requires forall i :: 0 <= i < |a| ==> IsLowerHex(a[i])
    ensures WithoutDashes(a + ['-'] + b) == a + WithoutDashes(b)
  {
    if a == [] {
      assert (a + ['-'] + b)[1..] == b;
    } else {
      assert (a + ['-'] + b)[1..] == a[1..] + ['-'] + b;
      DropDash(a[1..], b);
    }
  }

  /** Python's reading of UUIDs is one that drops the dashes of the canonical spelling. */
  lemma UuidHexReadsUuids()
    ensures ReadsUuids(UuidHex)
  {
    forall p: string | Canonical(p) ensures UuidHex(p) == Undashed(p) {
      UuidHexOf(p);
    }
  }

  /** One group of digits and the dash after it. */
  lemma DropGroup(p: string, from: nat, to: nat)
    requires from <= to < |p| && p[to] == '-'
    requires forall i :: from <= i < to ==> IsLowerHex(p[i])
    ensures WithoutDashes(p[from..]) == p[from..to] + WithoutDashes(p[to + 1..])
  {
    hide WithoutDashes, IsLowerHex;
    assert p[from..] == p[from..to] + ['-'] + p[to + 1..];
    DropDash(p[from..to], p[to + 1..]);
  }

  lemma UuidHexOf(p: string)
    requires Canonical(p)
    ensures UuidHex(p) == Undashed(p)
  {
    assert IsDashAt(8) && IsDashAt(13) && IsDashAt(18) && IsDashAt(23);
    assert forall i :: 0 <= i < 36 && !IsDashAt(i) ==> IsLowerHex(p[i]);
    DigitsStay(p[24..]);
    DigitsStay(Undashed(p));
    hide WithoutDashes, Lower, IsLowerHex, Canonical;
    DropGroup(p, 19, 23);
    DropGroup(p, 14, 18);
    DropGroup(p, 9, 13);
    DropGroup(p, 0, 8);
    assert p[0..] == p;
    Regroup(p[..8], p[9..13], p[14..18], p[19..23], p[24..]);
  }

  lemma Regroup(a: string, b: string, c: string, d: string, e: string)
    ensures a + (b + (c + (d + e))) == a + b + c + d + e
  {
    assert c + (d + e) == c + d + e;
  }

  function SessionId(hex: string -> string, project: string): string {
    "scan_cp_" + hex(project)
  }

  function NewRow(hex: string -> string, p: Principal): Row {
    Row(SessionId(hex, p.project), p.user, p.project, p.token, p.name, p.url)
  }

  // ----- one caller

  predicate Matches(row: Row, p: Principal) {
    row.user == p.user && row.token != "" && row.token == p.token
  }

  datatype Phase =
    | Selecting
    | Inserting
    | Reselecting
    | Returned(row: Row)
    | Conflicted
    | Reraised

  predicate Finished(phase: Phase) { phase.Returned? || phase.Conflicted? || phase.Reraised? }

  function RequireMatching(row: Row, p: Principal): Phase {
    if Matches(row, p) then Returned(row) else Conflicted
  }

  predicate Violates(table: Table, row: Row) {
    row.project in table || exists p <- table :: table[p].id == row.id
  }

  datatype Caller = Caller(principal: Principal, phase: Phase)

  datatype World = World(table: Table, callers: map<nat, Caller>)

  /** The next statement of one caller against the table. */
  function NextPhase(hex: string -> string, table: Table, c: Caller): (Table, Phase) {
    var p := c.principal;
    match c.phase
    case Selecting =>
      (table, if p.project in table then RequireMatching(table[p.project], p) else Inserting)
    case Inserting =>
      var row := NewRow(hex, p);
      if Violates(table, row) then (table, Reselecting)
      else (table[p.project := row], Returned(row))
    case Reselecting =>
      (table, if p.project in table then RequireMatching(table[p.project], p) else Reraised)
    case _ => (table, c.phase)
  }

  datatype Step =
    | Advance(caller: nat)
    | Arrive(caller: nat, principal: Principal)
    // another request renames the session or gives it a new design address
    | Edit(project: string, name: string, url: string)

  function Apply(hex: string -> string, w: World, step: Step): World {
    match step
    case Advance(i) =>
      if i !in w.callers then w
      else
        var (table, phase) := NextPhase(hex, w.table, w.callers[i]);
        World(table, w.callers[i := w.callers[i].(phase := phase)])
    case Arrive(i, p) =>
      if i in w.callers then w else w.(callers := w.callers[i := Caller(p, Selecting)])
    case Edit(project, name, url) =>
      if project !in w.table then w
      else w.(table := w.table[project := w.table[project].(name := name, url := url)])
  }

  function Run(hex: string -> string, w: World, steps: seq<Step>): World
    decreases |steps|
  {
    if steps == [] then w else Run(hex, Apply(hex, w, steps[0]), steps[1..])
  }

  // ----- the invariant

  predicate SameSession(a: Row, b: Row) {
    a.id == b.id && a.user == b.user && a.project == b.project && a.token == b.token
  }

  ghost predicate CallerHolds(hex: string -> string, table: Table, c: Caller) {
    var p := c.principal;
    match c.phase
    case Returned(row) =>
      && row.user == p.user && row.token == p.token && row.project == p.project
      && p.project in table && SameSession(table[p.project], row)
    case Conflicted => p.project in table && !Matches(table[p.project], p)
    case Reselecting =>
      p.project in table || exists other <- table :: other != p.project && hex(other) == hex(p.project)
    case _ => true
  }

  ghost predicate Inv(hex: string -> string, w: World) {
    && (forall p <- w.table :: w.table[p].project == p && w.table[p].id == SessionId(hex, p))
    && (forall i <- w.callers :: CallerHolds(hex, w.table, w.callers[i]))
  }

  /** No table row disappears or changes owner. */
  ghost predicate Keeps(before: Table, after: Table) {
    forall p <- before :: p in after && SameSession(after[p], before[p])
  }

  lemma CallerOutlivesChanges(hex: string -> string, before: Table, after: Table, c: Caller)
    requires CallerHolds(hex, before, c) && Keeps(before, after)
    ensures CallerHolds(hex, after, c)
  {
    if c.phase.Reselecting? && c.principal.project !in before {
      var other :| other in before && other != c.principal.project && hex(other) == hex(c.principal.project);
      assert other in after;
    }
  }

  lemma TableKeeps(hex: string -> string, w: World, step: Step)
    requires Inv(hex, w)
    ensures var after := Apply(hex, w, step).table;
            && Keeps(w.table, after)
            && forall p <- after :: after[p].project == p && after[p].id == SessionId(hex, p)
  {
  }

  lemma StepKeepsInv(hex: string -> string, w: World, step: Step)
    requires Inv(hex, w)
    ensures Inv(hex, Apply(hex, w, step)) && Keeps(w.table, Apply(hex, w, step).table)
  {
    var w' := Apply(hex, w, step);
    TableKeeps(hex, w, step);
    forall i <- w'.callers ensures CallerHolds(hex, w'.table, w'.callers[i]) {
      if i in w.callers {
        if step == Advance(i) {
          AdvancedCallerHolds(hex, w, i);
        } else {
          hide Keeps, CallerHolds;
          assert w'.callers[i] == w.callers[i];
          CallerOutlivesChanges(hex, w.table, w'.table, w.callers[i]);
        }
      }
    }
  }

  lemma AdvancedCallerHolds(hex: string -> string, w: World, i: nat)
    requires Inv(hex, w) && i in w.callers
    ensures var w' := Apply(hex, w, Advance(i)); CallerHolds(hex, w'.table, w'.callers[i])
  {
    var c := w.callers[i];
    var row := NewRow(hex, c.principal);
    if c.phase.Inserting? && Violates(w.table, row) && c.principal.project !in w.table {
      var other :| other in w.table && w.table[other].id == row.id;
      assert SessionId(hex, other)[8..] == hex(other) && row.id[8..] == hex(c.principal.project);
    }
  }

  lemma {:induction false} RunKeepsInv(hex: string -> string, w: World, steps: seq<Step>)
    requires Inv(hex, w)
    ensures Inv(hex, Run(hex, w, steps)) && Keeps(w.table, Run(hex, w, steps).table)
    decreases |steps|
  {
    if steps != [] {
      StepKeepsInv(hex, w, steps[0]);
      RunKeepsInv(hex, Apply(hex, w, steps[0]), steps[1..]);
    }
  }

  const EMPTY := World(map[], map[])

  /** In every interleaving of any callers, starting from no sessions: a project's row carries that project's id,
      a returned row is the project's only row with the caller's user and token, and a caller that got the
      conflict faces a row of another user or token. */
  lemma CreationIsIdempotent(hex: string -> string, steps: seq<Step>, i: nat)
    requires i in Run(hex, EMPTY, steps).callers
    ensures var w := Run(hex, EMPTY, steps);
            var p := w.callers[i].principal;
            && (w.callers[i].phase.Returned? ==>
                  && p.project in w.table
                  && SameSession(w.table[p.project], w.callers[i].phase.row)
                  && w.callers[i].phase.row.id == SessionId(hex, p.project)
                  && w.callers[i].phase.row.user == p.user && w.callers[i].phase.row.token == p.token)
            && (w.callers[i].phase.Conflicted? ==> p.project in w.table && !Matches(w.table[p.project], p))
  {
    RunKeepsInv(hex, EMPTY, steps);
  }

  /** Two callers that both succeed for one project hold the same session, and they are the same principal. */
  lemma OneSessionPerProject(hex: string -> string, steps: seq<Step>, i: nat, j: nat)
    requires var w := Run(hex, EMPTY, steps);
             && i in w.callers && j in w.callers
             && w.callers[i].phase.Returned? && w.callers[j].phase.Returned?
             && w.callers[i].principal.project == w.callers[j].principal.project
    ensures var w := Run(hex, EMPTY, steps);
            && SameSession(w.callers[i].phase.row, w.callers[j].phase.row)
            && w.callers[i].principal.user == w.callers[j].principal.user
            && w.callers[i].principal.token == w.callers[j].principal.token
  {
    CreationIsIdempotent(hex, steps, i);
    CreationIsIdempotent(hex, steps, j);
  }

  // ----- what a created row carries

  /** The session that a caller asks for. */
  predicate Carries(row: Row, hex: string -> string, p: Principal) {
    && row.id == "scan_cp_" + hex(p.project)
    && row.user == p.user && row.project == p.project && row.token == p.token
    && row.name == p.name && row.url == p.url
  }

  /** An insert adds the caller's own session and returns it, unless its project or its id is taken. */
  lemma InsertWrites(hex: string -> string, w: World, i: nat)
    requires i in w.callers && w.callers[i].phase.Inserting?
    ensures var p := w.callers[i].principal;
            var after := Apply(hex, w, Advance(i));
            && i in after.callers
            && if Taken(w.table, hex, p.project) then
                 after.table == w.table && after.callers[i].phase == Reselecting
               else
                 && after.callers[i].phase.Returned?
                 && Carries(after.callers[i].phase.row, hex, p)
                 && after.table == w.table[p.project := after.callers[i].phase.row]
  {
  }

  predicate Taken(table: Table, hex: string -> string, project: string) {
    project in table || exists q <- table :: table[q].id == "scan_cp_" + hex(project)
  }

  lemma NewRowCarries(hex: string -> string, table: Table, p: Principal)
    ensures Carries(NewRow(hex, p), hex, p)
    ensures Violates(table, NewRow(hex, p)) <==> Taken(table, hex, p.project)
  {
  }

  ghost predicate FromCallers(hex: string -> string, w: World) {
    forall q <- w.table :: exists i <- w.callers :: Carries(w.table[q], hex, w.callers[i].principal)
  }

  lemma StepKeepsFromCallers(hex: string -> string, w: World, step: Step)
    requires FromCallers(hex, w) && !step.Edit?
    ensures FromCallers(hex, Apply(hex, w, step))
  {
    var after := Apply(hex, w, step);
    forall q <- after.table
      ensures exists i <- after.callers :: Carries(after.table[q], hex, after.callers[i].principal)
    {
      if q in w.table && after.table[q] == w.table[q] {
        var i :| i in w.callers && Carries(w.table[q], hex, w.callers[i].principal);
        assert i in after.callers && after.callers[i].principal == w.callers[i].principal;
      } else {
        assert step.Advance? && Carries(after.table[q], hex, after.callers[step.caller].principal);
      }
    }
  }

  /** As long as nobody edits, every session is the one some caller asked for, name and address included. */
  lemma {:induction false} UneditedRowsAreWhatCallersAskedFor(hex: string -> string, w: World, steps: seq<Step>)
    requires FromCallers(hex, w) && forall s <- steps :: !s.Edit?
    ensures FromCallers(hex, Run(hex, w, steps))
    decreases |steps|
  {
    if steps != [] {
      StepKeepsFromCallers(hex, w, steps[0]);
      hide Apply, FromCallers;
      UneditedRowsAreWhatCallersAskedFor(hex, Apply(hex, w, steps[0]), steps[1..]);
    }
  }

  // ----- the bare re-raise

  ghost predicate AllCanonical(w: World) {
    && (forall p <- w.table :: Canonical(p))
    && (forall i <- w.callers :: Canonical(w.callers[i].principal.project) && !w.callers[i].phase.Reraised?)
  }

  ghost predicate CanonicalStep(step: Step) {
    step.Arrive? ==> Canonical(step.principal.project)
  }

  lemma CanonicalStepIsSafe(hex: string -> string, w: World, step: Step)
    requires ReadsUuids(hex) && Inv(hex, w) && AllCanonical(w) && CanonicalStep(step)
    ensures AllCanonical(Apply(hex, w, step))
  {
    if step.Advance? && step.caller in w.callers {
      var c := w.callers[step.caller];
      assert CallerHolds(hex, w.table, c);
      if c.phase.Reselecting? && c.principal.project !in w.table {
        var other :| other in w.table && other != c.principal.project && hex(other) == hex(c.principal.project);
        hide Apply;
        CanonicalIdsDiffer(other, c.principal.project);
      }
    }
  }

  /** When every project id comes from the scan token decoder the re-raise is never reached. */
  lemma {:induction false} ReraiseIsUnreachable(hex: string -> string, w: World, steps: seq<Step>)
    requires ReadsUuids(hex) && Inv(hex, w) && AllCanonical(w)
    requires forall s <- steps :: CanonicalStep(s)
    ensures AllCanonical(Run(hex, w, steps))
    decreases |steps|
  {
    hide ReadsUuids, Inv, AllCanonical, Apply;
    if steps != [] {
      StepKeepsInv(hex, w, steps[0]);
      CanonicalStepIsSafe(hex, w, steps[0]);
      ReraiseIsUnreachable(hex, Apply(hex, w, steps[0]), steps[1..]);
    }
  }

  /** The same with Python's own reading of UUIDs, from no sessions on. */
  lemma NobodyReraises(steps: seq<Step>, i: nat)
    requires forall s <- steps :: CanonicalStep(s)
    requires i in Run(UuidHex, EMPTY, steps).callers
    ensures !Run(UuidHex, EMPTY, steps).callers[i].phase.Reraised?
  {
    UuidHexReadsUuids();
    assert Inv(UuidHex, EMPTY) && AllCanonical(EMPTY);
    ReraiseIsUnreachable(UuidHex, EMPTY, steps);
  }

  /** Without that decoding it is reached exactly by a second spelling of a project that already has a session:
      a caller running alone re-raises if and only if its own spelling has no row and another spelling has. */
  lemma ReraiseNeedsASecondSpelling(hex: string -> string, w: World, i: nat)
    requires Inv(hex, w) && i in w.callers && w.callers[i].phase.Selecting?
    ensures var p := w.callers[i].principal.project;
            var w' := Run(hex, w, [Advance(i), Advance(i), Advance(i)]);
            i in w'.callers &&
            (w'.callers[i].phase.Reraised? <==> p !in w.table && exists other <- w.table :: hex(other) == hex(p))
  {
    ThreeSteps(hex, w, Advance(i));
    var p := w.callers[i].principal.project;
    var row := NewRow(hex, w.callers[i].principal);
    assert row.id[8..] == hex(p);
    assert forall q <- w.table :: w.table[q].id[8..] == hex(q);
    assert forall q <- w.table :: hex(q) == hex(p) <==> w.table[q].id == row.id;
  }

  lemma ThreeSteps(hex: string -> string, w: World, s: Step)
    ensures Run(hex, w, [s, s, s]) == Apply(hex, Apply(hex, Apply(hex, w, s), s), s)
  {
    hide Apply;
    assert [s, s, s][1..] == [s, s] && [s, s][1..] == [s] && [s][1..] == [];
    assert Run(hex, Apply(hex, Apply(hex, w, s), s), [s]) == Apply(hex, Apply(hex, Apply(hex, w, s), s), s);
  }

  // ----- later access

  /** The lookup every later request makes with the same principal. */
  function GetForActor(table: Table, id: string, actor: Principal): Option<Row> {
    if actor.project in table && table[actor.project].id == id && Matches(table[actor.project], actor)
    then Some(table[actor.project])
    else None
  }

  /** A caller's session stays reachable through its id for as long as the system runs, whatever others do,
      exactly when its completion token is not empty. */
  lemma CreatedSessionStaysReachable(hex: string -> string, w: World, i: nat, later: seq<Step>)
    requires Inv(hex, w) && i in w.callers && w.callers[i].phase.Returned?
    ensures var found := GetForActor(Run(hex, w, later).table, w.callers[i].phase.row.id, w.callers[i].principal);
            && (found.Some? <==> w.callers[i].principal.token != "")
            && (found.Some? ==> SameSession(found.value, w.callers[i].phase.row))
  {
    RunKeepsInv(hex, w, later);
    assert CallerHolds(hex, w.table, w.callers[i]);
  }

  ghost predicate IdsDiffer(table: Table) {
    forall p <- table, q <- table :: table[p].id == table[q].id ==> p == q
  }

  lemma StepKeepsIdsDiffer(hex: string -> string, w: World, step: Step)
    requires IdsDiffer(w.table)
    ensures IdsDiffer(Apply(hex, w, step).table)
  {
  }

  lemma {:induction false} RunKeepsIdsDiffer(hex: string -> string, w: World, steps: seq<Step>)
    requires IdsDiffer(w.table)
    ensures IdsDiffer(Run(hex, w, steps).table)
    decreases |steps|
  {
    if steps != [] {
      StepKeepsIdsDiffer(hex, w, steps[0]);
      hide Apply, IdsDiffer;
      RunKeepsIdsDiffer(hex, Apply(hex, w, steps[0]), steps[1..]);
    }
  }

  /** In every interleaving a created session opens to exactly the requests that carry its caller's user, project and
      completion token. */
  lemma SessionOpensOnlyToItsCaller(hex: string -> string, steps: seq<Step>, i: nat, actor: Principal)
    requires i in Run(hex, EMPTY, steps).callers && Run(hex, EMPTY, steps).callers[i].phase.Returned?
    ensures var w := Run(hex, EMPTY, steps);
            var p := w.callers[i].principal;
            GetForActor(w.table, w.callers[i].phase.row.id, actor).Some? <==>
              actor.user == p.user && actor.project == p.project && actor.token == p.token && p.token != ""
  {
    RunKeepsIdsDiffer(hex, EMPTY, steps);
    CreationIsIdempotent(hex, steps, i);
  }

  // ----- the service

  class ScanSessionService {
    var world: World
    const hex: string -> string

    constructor (hex: string -> string, world: World)
      ensures this.world == world && this.hex == hex
    {
      this.world, this.hex := world, hex;
    }

    /** One creation call. `afterSelect` and `afterInsert` are what everybody else does between its statements. */
    method CreateControlPlane(i: nat, principal: Principal, afterSelect: seq<Step>, afterInsert: seq<Step>)
      returns (phase: Phase)
      requires Inv(hex, world) && i !in world.callers
      requires forall s <- afterSelect + afterInsert :: !s.Edit? ==> s.caller != i
      modifies this
      ensures Inv(hex, world) && Keeps(old(world).table, world.table)
      ensures i in world.callers && world.callers[i] == Caller(principal, phase) && Finished(phase)
      ensures world == Run(hex, old(world), [Arrive(i, principal), Advance(i)])
           || world == Run(hex, old(world), [Arrive(i, principal), Advance(i)] + afterSelect + [Advance(i)])
           || world == Run(hex, old(world), [Arrive(i, principal), Advance(i)] + afterSelect + [Advance(i)]
             + afterInsert + [Advance(i)])
      // a session that is there already is returned to its own user and token, and a conflict for any other
      ensures principal.project in old(world).table ==>
                var row := old(world).table[principal.project];
                phase == if row.user == principal.user && row.token == principal.token && row.token != ""
                  then Returned(row) else Conflicted
      // nobody in between, and neither project nor id taken: the caller's own session is added
      ensures afterSelect == [] && !Taken(old(world).table, hex, principal.project) ==>
                && phase.Returned? && Carries(phase.row, hex, principal)
                && world.table == old(world).table[principal.project := phase.row]
      ensures phase.Returned? ==>
                phase.row.user == principal.user && phase.row.project == principal.project
                && phase.row.token == principal.token
      ensures phase.Conflicted? ==>
                && principal.project in world.table
                && var row := world.table[principal.project];
                   row.user != principal.user || row.token != principal.token || row.token == ""
    {
      ghost var start := world;
      ghost var path := [Arrive(i, principal), Advance(i)];
      phase := ArriveAndSelect(i, principal);
      if phase != Inserting {
        return;
      }

      hide Inv, Keeps, Apply, Violates, NewRow, Carries, Taken;
      Interfere(i, afterSelect, start, path);
      path := path + afterSelect;
      RunAppend(hex, start, path, [Advance(i)]);
      RunKeepsInv(hex, start, path + [Advance(i)]);
      path := path + [Advance(i)];
      phase := Insert(i, principal);
      if phase != Reselecting {
        return;
      }

      Interfere(i, afterInsert, start, path);
      path := path + afterInsert;
      RunAppend(hex, start, path, [Advance(i)]);
      RunKeepsInv(hex, start, path + [Advance(i)]);
      ReselectStep(hex, world, i);
      phase := if principal.project in world.table then RequireMatching(world.table[principal.project], principal)
        else Reraised;
      world := world.(callers := world.callers[i := Caller(principal, phase)]);
    }

    /** The first statement: a session that is there already is returned or refused. */
    method ArriveAndSelect(i: nat, principal: Principal) returns (phase: Phase)
      requires Inv(hex, world) && i !in world.callers
      modifies this
      ensures Inv(hex, world) && Keeps(old(world).table, world.table)
      ensures i in world.callers && world.callers[i] == Caller(principal, phase)
      ensures world == Run(hex, old(world), [Arrive(i, principal), Advance(i)]) && world.table == old(world).table
      ensures phase == if principal.project in old(world).table
                       then RequireMatching(old(world).table[principal.project], principal) else Inserting
    {
      RunKeepsInv(hex, world, [Arrive(i, principal), Advance(i)]);
      SelectSteps(hex, world, i, principal);
      hide Inv, Keeps, Apply, Run;
      if principal.project in world.table {
        phase := RequireMatching(world.table[principal.project], principal);
      } else {
        phase := Inserting;
      }
      world := world.(callers := world.callers[i := Caller(principal, phase)]);
    }

    /** The second one: the caller's session is added, or its project or id is taken. */
    method Insert(i: nat, principal: Principal) returns (phase: Phase)
      requires i in world.callers && world.callers[i] == Caller(principal, Inserting)
      modifies this
      ensures world == Run(hex, old(world), [Advance(i)])
      ensures i in world.callers && world.callers[i] == Caller(principal, phase)
      ensures phase == Reselecting || phase.Returned?
      ensures phase == Reselecting <==> Taken(old(world).table, hex, principal.project)
      ensures phase == Reselecting ==> world.table == old(world).table
      ensures phase.Returned? ==>
                Carries(phase.row, hex, principal) && world.table == old(world).table[principal.project := phase.row]
    {
      var row := NewRow(hex, principal);
      NewRowCarries(hex, world.table, principal);
      InsertSteps(hex, world, i);
      hide Run, Apply, Violates, NewRow, Carries, Taken;
      if Violates(world.table, row) {
        // IntegrityError: roll back and look again
        world := world.(callers := world.callers[i := Caller(principal, Reselecting)]);
        return Reselecting;
      }
      world := World(world.table[principal.project := row], world.callers[i := Caller(principal, Returned(row))]);
      return Returned(row);
    }

    /** Everybody else's statements, in the order the database happened to run them. */
    method Interfere(i: nat, steps: seq<Step>, ghost start: World, ghost path: seq<Step>)
      requires i in world.callers && world == Run(hex, start, path)
      requires forall s <- steps :: !s.Edit? ==> s.caller != i
      modifies this
      ensures world == Run(hex, start, path + steps)
      ensures steps == [] ==> world == old(world)
      ensures i in world.callers && world.callers[i] == old(world).callers[i]
    {
      assert path + steps[..0] == path;
      for k := 0 to |steps|
        invariant world == Run(hex, start, path + steps[..k])
        invariant steps == [] ==> world == old(world)
        invariant i in world.callers && world.callers[i] == old(world).callers[i]
      {
        assert path + steps[..k + 1] == path + steps[..k] + [steps[k]];
        RunAppend(hex, start, path + steps[..k], [steps[k]]);
        assert steps[k] in steps;
        OneStep(hex, world, steps[k]);
        world := Apply(hex, world, steps[k]);
      }
      assert steps[..|steps|] == steps;
    }
  }

  lemma OneStep(hex: string -> string, w: World, s: Step)
    ensures Run(hex, w, [s]) == Apply(hex, w, s)
  {
    assert [s][1..] == [];
  }

  lemma {:induction false} RunAppend(hex: string -> string, w: World, a: seq<Step>, b: seq<Step>)
    ensures Run(hex, w, a + b) == Run(hex, Run(hex, w, a), b)
    decreases |a|
  {
    hide Apply;
    if a == [] {
      assert a + b == b;
    } else {
      assert (a + b)[0] == a[0] && (a + b)[1..] == a[1..] + b;
      RunAppend(hex, Apply(hex, w, a[0]), a[1..], b);
    }
  }

  lemma SelectSteps(hex: string -> string, w: World, i: nat, p: Principal)
    requires i !in w.callers
    ensures var phase := if p.project in w.table then RequireMatching(w.table[p.project], p) else Inserting;
            Run(hex, w, [Arrive(i, p), Advance(i)]) == w.(callers := w.callers[i := Caller(p, phase)])
  {
    var arrived := Apply(hex, w, Arrive(i, p));
    assert [Arrive(i, p), Advance(i)][1..] == [Advance(i)];
    OneStep(hex, arrived, Advance(i));
  }

  lemma InsertSteps(hex: string -> string, w: World, i: nat)
    requires i in w.callers && w.callers[i].phase.Inserting?
    ensures var p := w.callers[i].principal;
            var row := NewRow(hex, p);
            Run(hex, w, [Advance(i)]) ==
            if Violates(w.table, row) then w.(callers := w.callers[i := Caller(p, Reselecting)])
            else World(w.table[p.project := row], w.callers[i := Caller(p, Returned(row))])
  {
    OneStep(hex, w, Advance(i));
  }

  lemma ReselectStep(hex: string -> string, w: World, i: nat)
    requires i in w.callers && w.callers[i].phase.Reselecting?
    ensures var p := w.callers[i].principal;
            var phase := if p.project in w.table then RequireMatching(w.table[p.project], p) else Reraised;
            Run(hex, w, [Advance(i)]) == w.(callers := w.callers[i := Caller(p, phase)])
  {
    OneStep(hex, w, Advance(i));
  }
}
