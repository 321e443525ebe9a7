/** The in-process sliding-window limiter on grant exchanges, and the limiter it stands for: one that
    remembers every accepted call forever. Times are reals; a call is atomic. */
module RateLimiter {

  const LIMIT := 10
  const WINDOW := 60.0
  const EVICTION_THRESHOLD := 100

  type Table = map<string, seq<real>>
  datatype Call = Call(client: string, time: real)

  // ----- one call

  /** [t for t in times if t > cutoff] */
  function Newer(times: seq<real>, cutoff: real): (r: seq<real>)
    ensures forall t <- r :: t in times && t > cutoff
    ensures |r| <= |times|
  {
    if times == [] then []
    else (if times[0] > cutoff then [times[0]] else []) + Newer(times[1..], cutoff)
  }

  function Lookup(table: Table, client: string): seq<real> {
    if client in table then table[client] else []
  }

  predicate Stale(times: seq<real>, cutoff: real) {
    times == [] || times[|times| - 1] <= cutoff
  }

  function StaleKeys(table: Table, cutoff: real): set<string> {
    set k | k in table && Stale(table[k], cutoff)
  }

  /** The table before a call is looked up: without its stale keys when it has grown too large. */
  function Kept(table: Table, cutoff: real): Table {
    if |table| > EVICTION_THRESHOLD then table - StaleKeys(table, cutoff) else table
  }

  datatype Outcome = Outcome(table: Table, allowed: bool)

  function Enforce(table: Table, call: Call): Outcome {
    var cutoff := call.time - WINDOW;
    var kept := Kept(table, cutoff);
    var recent := Newer(Lookup(kept, call.client), cutoff);
    if |recent| >= LIMIT then Outcome(kept[call.client := recent], false)
    else Outcome(kept[call.client := recent + [call.time]], true)
  }

  /** The module-level table and the function that updates it in place. */
  class ExchangeRateHistory {
    var table: Table

    constructor ()
      ensures table == map[]
    {
      table := map[];
    }

    method EnforceExchangeRateLimit(clientIp: string, now: real) returns (allowed: bool)
      modifies this
      ensures Outcome(table, allowed) == Enforce(old(table), Call(clientIp, now))
    {
      hide Newer, StaleKeys;
      var cutoff := now - WINDOW;
      if |table| > EVICTION_THRESHOLD {
        Evict(cutoff);
      }
      var history := Newer(Lookup(table, clientIp), cutoff);
      if |history| >= LIMIT {
        table := table[clientIp := history];
        return false;
      }
      history := history + [now];
      table := table[clientIp := history];
      return true;
    }

    method Evict(cutoff: real)
      modifies this
      ensures table == old(table) - StaleKeys(old(table), cutoff)
    {
      var stale := StaleKeys(table, cutoff);
      hide StaleKeys;
      ghost var before := table;
      while stale != {}
        invariant stale <= StaleKeys(before, cutoff)
        invariant table == before - (StaleKeys(before, cutoff) - stale)
      {
        var k :| k in stale;
        table := table - {k};
        stale := stale - {k};
      }
    }
  }

  // ----- the limiter that forgets nothing

  /** How many calls of `client` in `log` lie in the half-open window (low, high]. */
  function CountIn(log: seq<Call>, client: string, low: real, high: real): nat {
    if log == [] then 0
    else
      var last := log[|log| - 1];
      CountIn(log[..|log| - 1], client, low, high) +
      if last.client == client && low < last.time <= high then 1 else 0
  }

  predicate Admits(log: seq<Call>, call: Call) {
    CountIn(log, call.client, call.time - WINDOW, call.time) < LIMIT
  }

  // ----- runs

  ghost predicate Nondecreasing(calls: seq<Call>) {
    forall i, j :: 0 <= i <= j < |calls| ==> calls[i].time <= calls[j].time
  }

  function TableAfter(calls: seq<Call>): Table {
    if calls == [] then map[]
    else Enforce(TableAfter(calls[..|calls| - 1]), calls[|calls| - 1]).table
  }

  /** The calls the table lets pass, in order. */
  function Passed(calls: seq<Call>): seq<Call> {
    if calls == [] then []
    else
      var before, last := calls[..|calls| - 1], calls[|calls| - 1];
      if Enforce(TableAfter(before), last).allowed then Passed(before) + [last] else Passed(before)
  }

  /** The calls the forgetless limiter accepts, in order. */
  function AcceptedLog(calls: seq<Call>): seq<Call> {
    if calls == [] then []
    else
      var log := AcceptedLog(calls[..|calls| - 1]);
      if Admits(log, calls[|calls| - 1]) then log + [calls[|calls| - 1]] else log
  }

  function Times(log: seq<Call>, client: string): seq<real> {
    if log == [] then []
    else
      Times(log[..|log| - 1], client) +
      if log[|log| - 1].client == client then [log[|log| - 1].time] else []
  }

  // ----- filtering

  ghost predicate Sorted(times: seq<real>) {
    forall i, j :: 0 <= i <= j < |times| ==> times[i] <= times[j]
  }

  lemma {:induction false} NewerAppend(a: seq<real>, b: seq<real>, cutoff: real)
    ensures Newer(a + b, cutoff) == Newer(a, cutoff) + Newer(b, cutoff)
  {
    if a == [] {
      assert a + b == b;
    } else {
      assert (a + b)[1..] == a[1..] + b;
      NewerAppend(a[1..], b, cutoff);
    }
  }

  lemma {:induction false} NewerTwice(times: seq<real>, early: real, late: real)
    requires early <= late
    ensures Newer(Newer(times, early), late) == Newer(times, late)
  {
    if times != [] {
      NewerTwice(times[1..], early, late);
      var head := if times[0] > early then [times[0]] else [];
      NewerAppend(head, Newer(times[1..], early), late);
    }
  }

  lemma {:induction false} NewerKeepsSorted(times: seq<real>, cutoff: real)
    requires Sorted(times)
    ensures Sorted(Newer(times, cutoff))
  {
    if times != [] {
      NewerKeepsSorted(times[1..], cutoff);
      var rest := Newer(times[1..], cutoff);
      assert Newer(times, cutoff) == rest || Newer(times, cutoff) == [times[0]] + rest;
      hide Newer;
      forall i | 0 <= i < |rest| ensures times[0] <= rest[i] {
        assert rest[i] in rest;
      }
    }
  }

  /** Sortedness is what makes it sound to judge a history by its last entry. */
  lemma {:induction false} StaleMeansNothingNewer(times: seq<real>, cutoff: real)
    requires Sorted(times) && Stale(times, cutoff)
    ensures Newer(times, cutoff) == []
  {
    if times != [] {
      StaleMeansNothingNewer(times[1..], cutoff);
      assert times[0] <= times[|times| - 1];
    }
  }

  lemma {:induction false} CountIsNewer(log: seq<Call>, client: string, low: real, high: real)
    requires forall c <- log :: c.time <= high
    ensures CountIn(log, client, low, high) == |Newer(Times(log, client), low)|
  {
    if log != [] {
      var before, last := log[..|log| - 1], log[|log| - 1];
      CountIsNewer(before, client, low, high);
      NewerAppend(Times(before, client), if last.client == client then [last.time] else [], low);
    }
  }

  // ----- refinement

  /** The table agrees with the log on everything newer than `cutoff`, and its histories are sorted up to `now`. */
  ghost predicate Refines(table: Table, log: seq<Call>, cutoff: real, now: real) {
    && (forall c <- log :: c.time <= now)
    && (forall k <- table :: Sorted(table[k]) && forall t <- table[k] :: t <= now)
    && (forall k: string :: Newer(Lookup(table, k), cutoff) == Newer(Times(log, k), cutoff))
  }

  lemma RefinesLater(table: Table, log: seq<Call>, cutoff: real, now: real, cutoff': real, now': real)
    requires Refines(table, log, cutoff, now) && cutoff <= cutoff' && now <= now'
    ensures Refines(table, log, cutoff', now')
  {
    forall k: string ensures Newer(Lookup(table, k), cutoff') == Newer(Times(log, k), cutoff') {
      NewerTwice(Lookup(table, k), cutoff, cutoff');
      NewerTwice(Times(log, k), cutoff, cutoff');
    }
  }

  lemma EvictionRefines(table: Table, log: seq<Call>, cutoff: real, now: real)
    requires Refines(table, log, cutoff, now)
    ensures Refines(Kept(table, cutoff), log, cutoff, now)
  {
    hide Newer, Times, Sorted;
    var kept := Kept(table, cutoff);
    forall k: string ensures Newer(Lookup(kept, k), cutoff) == Newer(Times(log, k), cutoff) {
      if k in table && k !in kept {
        StaleMeansNothingNewer(table[k], cutoff);
      }
    }
  }

  lemma TimesAppend(log: seq<Call>, call: Call, client: string)
    ensures Times(log + [call], client) == Times(log, client) + if call.client == client then [call.time] else []
  {
    assert (log + [call])[..|log|] == log;
  }

  lemma RecentIsSorted(times: seq<real>, cutoff: real, added: seq<real>, now: real)
    requires Sorted(times) && forall t <- times :: t <= now
    requires added == [] || added == [now]
    ensures Sorted(Newer(times, cutoff) + added)
    ensures forall t <- Newer(times, cutoff) + added :: t <= now
  {
    NewerKeepsSorted(times, cutoff);
    hide Newer, Sorted;
    SortedAppend(Newer(times, cutoff), added, now);
  }

  lemma SortedAppend(times: seq<real>, added: seq<real>, now: real)
    requires Sorted(times) && forall t <- times :: t <= now
    requires added == [] || added == [now]
    ensures Sorted(times + added)
  {
    assert forall i :: 0 <= i < |times| ==> times[i] in times;
  }

  /** Storing a client's recent history, with or without the new call, keeps the table and the log in step. */
  lemma RecordRefines(kept: Table, log: seq<Call>, call: Call, accepted: bool)
    requires Refines(kept, log, call.time - WINDOW, call.time)
    ensures var recent := Newer(Lookup(kept, call.client), call.time - WINDOW);
            var table' := kept[call.client := recent + if accepted then [call.time] else []];
            Refines(table', if accepted then log + [call] else log, call.time - WINDOW, call.time)
  {
    hide Newer, Times;
    var cutoff := call.time - WINDOW;
    var recent := Newer(Lookup(kept, call.client), cutoff);
    var added := if accepted then [call.time] else [];
    var table' := kept[call.client := recent + added];
    var log' := if accepted then log + [call] else log;
    RecentIsSorted(Lookup(kept, call.client), cutoff, added, call.time);
    hide Sorted;
    forall k: string ensures Newer(Lookup(table', k), cutoff) == Newer(Times(log', k), cutoff) {
      assert Newer(Lookup(kept, k), cutoff) == Newer(Times(log, k), cutoff);
      TimesAppend(log, call, k);
      if k == call.client {
        RecordedAgrees(Lookup(kept, k), Times(log, k), added, cutoff);
        assert Times(log', k) == Times(log, k) + added;
      } else {
        assert Times(log', k) == Times(log, k);
      }
    }
  }

  lemma RecordedAgrees(history: seq<real>, times: seq<real>, added: seq<real>, cutoff: real)
    requires Newer(history, cutoff) == Newer(times, cutoff)
    ensures Newer(Newer(history, cutoff) + added, cutoff) == Newer(times + added, cutoff)
  {
    hide Newer;
    NewerAppend(Newer(history, cutoff), added, cutoff);
    NewerAppend(times, added, cutoff);
    NewerTwice(history, cutoff, cutoff);
  }

  lemma StepRefines(table: Table, log: seq<Call>, call: Call)
    requires Refines(table, log, call.time - WINDOW, call.time)
    ensures Enforce(table, call).allowed == Admits(log, call)
    ensures Refines(Enforce(table, call).table, if Admits(log, call) then log + [call] else log,
                    call.time - WINDOW, call.time)
  {
    hide *;
    var cutoff := call.time - WINDOW;
    var kept := Kept(table, cutoff);
    EvictionRefines(table, log, cutoff, call.time);
    RecentAreCounted(kept, log, call);
    EnforceRecords(table, call);
    AdmitsCounts(log, call);
    RecordRefines(kept, log, call, Enforce(table, call).allowed);
  }

  lemma AdmitsCounts(log: seq<Call>, call: Call)
    ensures Admits(log, call) <==> CountIn(log, call.client, call.time - WINDOW, call.time) < LIMIT
  {
  }

  lemma EnforceRecords(table: Table, call: Call)
    ensures var kept, o := Kept(table, call.time - WINDOW), Enforce(table, call);
            var recent := Newer(Lookup(kept, call.client), call.time - WINDOW);
            && (o.allowed <==> |recent| < LIMIT)
            && o.table == kept[call.client := recent + if o.allowed then [call.time] else []]
  {
    hide Kept, Newer, Lookup;
    var recent := Newer(Lookup(Kept(table, call.time - WINDOW), call.client), call.time - WINDOW);
    assert recent + [] == recent;
  }

  lemma RecentAreCounted(kept: Table, log: seq<Call>, call: Call)
    requires Refines(kept, log, call.time - WINDOW, call.time)
    ensures |Newer(Lookup(kept, call.client), call.time - WINDOW)| ==
            CountIn(log, call.client, call.time - WINDOW, call.time)
  {
    hide CountIn, Newer, Times, Sorted;
    CountIsNewer(log, call.client, call.time - WINDOW, call.time);
  }

  lemma EmptyRefines(cutoff: real, now: real)
    ensures Refines(map[], [], cutoff, now)
  {
  }

  lemma {:induction false} RunRefines(calls: seq<Call>, now: real)
    requires Nondecreasing(calls)
    requires forall c <- calls :: c.time <= now
    ensures Refines(TableAfter(calls), AcceptedLog(calls), now - WINDOW, now)
    decreases |calls|
  {
    hide Refines, Enforce, Admits;
    if calls == [] {
      EmptyRefines(now - WINDOW, now);
    } else {
      var before, last := calls[..|calls| - 1], calls[|calls| - 1];
      RunRefines(before, last.time);
      StepRefines(TableAfter(before), AcceptedLog(before), last);
      RefinesLater(TableAfter(calls), AcceptedLog(calls), last.time - WINDOW, last.time, now - WINDOW, now);
    }
  }

  /** Over every run with a nondecreasing clock the evicting limiter answers each call as the one that
      forgets nothing would. */
  lemma SameDecisions(calls: seq<Call>, i: nat)
    requires Nondecreasing(calls) && i < |calls|
    ensures Enforce(TableAfter(calls[..i]), calls[i]).allowed == Admits(AcceptedLog(calls[..i]), calls[i])
  {
    hide Refines, Enforce, Admits, TableAfter, AcceptedLog;
    RunRefines(calls[..i], calls[i].time);
    StepRefines(TableAfter(calls[..i]), AcceptedLog(calls[..i]), calls[i]);
  }

  lemma {:induction false} PassedIsAccepted(calls: seq<Call>)
    requires Nondecreasing(calls)
    ensures Passed(calls) == AcceptedLog(calls)
    decreases |calls|
  {
    hide Enforce, Admits, TableAfter;
    if calls != [] {
      var n := |calls| - 1;
      var before := calls[..n];
      assert Nondecreasing(before);
      SameDecisions(calls, n);
      hide Nondecreasing;
      PassedIsAccepted(before);
    }
  }

  // ----- the two promises

  lemma {:induction false} CountShrinks(log: seq<Call>, client: string, low: real, high: real, low': real, high': real)
    requires low <= low' && forall c <- log :: c.time <= high
    ensures CountIn(log, client, low', high') <= CountIn(log, client, low, high)
  {
    if log != [] {
      CountShrinks(log[..|log| - 1], client, low, high, low', high');
    }
  }

  lemma CountAppend(log: seq<Call>, call: Call, client: string, low: real, high: real)
    ensures CountIn(log + [call], client, low, high) ==
            CountIn(log, client, low, high) + if call.client == client && low < call.time <= high then 1 else 0
  {
    assert (log + [call])[..|log|] == log;
  }

  lemma {:induction false} LogIsBounded(calls: seq<Call>, now: real)
    requires forall c <- calls :: c.time <= now
    ensures forall c <- AcceptedLog(calls) :: c.time <= now
  {
    if calls != [] {
      LogIsBounded(calls[..|calls| - 1], now);
    }
  }

  lemma AcceptedCallFitsItsWindow(log: seq<Call>, call: Call, client: string, t: real)
    requires forall c <- log :: c.time <= call.time
    requires CountIn(log, client, t - WINDOW, t) <= LIMIT && Admits(log, call)
    ensures CountIn(log + [call], client, t - WINDOW, t) <= LIMIT
  {
    CountAppend(log, call, client, t - WINDOW, t);
    if call.client == client && t - WINDOW < call.time <= t {
      CountShrinks(log, client, call.time - WINDOW, call.time, t - WINDOW, t);
    }
  }

  lemma {:induction false} AcceptedFitWindows(calls: seq<Call>, client: string, t: real)
    requires Nondecreasing(calls)
    ensures CountIn(AcceptedLog(calls), client, t - WINDOW, t) <= LIMIT
  {
    if calls != [] {
      var before, last := calls[..|calls| - 1], calls[|calls| - 1];
      AcceptedFitWindows(before, client, t);
      LogIsBounded(before, last.time);
      hide Nondecreasing, CountIn, Admits;
      if Admits(AcceptedLog(before), last) {
        AcceptedCallFitsItsWindow(AcceptedLog(before), last, client, t);
      }
    }
  }

  /** The table never lets more than ten calls of one client pass inside any sixty-second window, wherever it starts. */
  lemma AtMostTenPerWindow(calls: seq<Call>, client: string, t: real)
    requires Nondecreasing(calls)
    ensures CountIn(Passed(calls), client, t - WINDOW, t) <= LIMIT
  {
    PassedIsAccepted(calls);
    AcceptedFitWindows(calls, client, t);
  }

  lemma FreshEntry(table: Table, call: Call, k: string) returns (t: real)
    requires |table| > EVICTION_THRESHOLD && k in Enforce(table, call).table
    ensures t in Enforce(table, call).table[k] && t > call.time - WINDOW
  {
    var cutoff := call.time - WINDOW;
    EnforceRecords(table, call);
    var h := Enforce(table, call).table[k];
    var recent := Newer(Lookup(Kept(table, cutoff), call.client), cutoff);
    hide Newer, Enforce;
    if k == call.client {
      if Enforce(table, call).allowed {
        t := h[|h| - 1];
        assert t == call.time;
      } else {
        assert h == recent;
        t := recent[0];
      }
    } else {
      assert !Stale(table[k], cutoff);
      t := h[|h| - 1];
    }
  }

  /** After any call on any table: at most 101 keys, or every key still has a timestamp inside the window. */
  lemma TableStaysBounded(table: Table, call: Call)
    ensures var after := Enforce(table, call).table;
            || |after| <= 101
            || forall k <- after :: exists t :: t in after[k] && t > call.time - 60.0
  {
    var after := Enforce(table, call).table;
    if |table| > EVICTION_THRESHOLD {
      hide Enforce;
      forall k <- after ensures exists t :: t in after[k] && t > call.time - WINDOW {
        var t := FreshEntry(table, call, k);
        assert t in after[k];
      }
    } else {
      hide Newer, Lookup;
      assert after.Keys == table.Keys + {call.client};
      assert |after.Keys| <= |table.Keys| + 1;
    }
  }

  // ----- the same, counting calls

  /** The limiter lets call i pass. */
  predicate PassedAt(calls: seq<Call>, i: nat)
    requires i < |calls|
  {
    Enforce(TableAfter(calls[..i]), calls[i]).allowed
  }

  /** The passed calls of a client among the first n whose times lie in (low, high]. */
  ghost function PassedIn(calls: seq<Call>, n: nat, client: string, low: real, high: real): set<nat>
    requires n <= |calls|
  {
    set i: nat | i < n && PassedAt(calls, i) && calls[i].client == client && low < calls[i].time <= high
  }

  lemma PassedNext(calls: seq<Call>, n: nat)
    requires n < |calls|
    ensures Passed(calls[..n + 1]) == Passed(calls[..n]) + if PassedAt(calls, n) then [calls[n]] else []
  {
    assert calls[..n + 1][..n] == calls[..n];
    hide Enforce, TableAfter;
  }

  lemma PassedInNext(calls: seq<Call>, n: nat, client: string, low: real, high: real)
    requires n < |calls|
    ensures |PassedIn(calls, n + 1, client, low, high)| == |PassedIn(calls, n, client, low, high)| +
            if PassedAt(calls, n) && calls[n].client == client && low < calls[n].time <= high then 1 else 0
  {
    hide PassedAt;
    var before := PassedIn(calls, n, client, low, high);
    if PassedAt(calls, n) && calls[n].client == client && low < calls[n].time <= high {
      assert PassedIn(calls, n + 1, client, low, high) == before + {n};
    } else {
      assert PassedIn(calls, n + 1, client, low, high) == before;
    }
  }

  lemma {:induction false} CountIsSet(calls: seq<Call>, n: nat, client: string, low: real, high: real)
    requires n <= |calls|
    ensures CountIn(Passed(calls[..n]), client, low, high) == |PassedIn(calls, n, client, low, high)|
    decreases n
  {
    hide PassedIn, PassedAt, Passed, CountIn;
    if n == 0 {
      NothingPassed(calls, client, low, high);
    } else {
      CountIsSet(calls, n - 1, client, low, high);
      PassedNext(calls, n - 1);
      PassedInNext(calls, n - 1, client, low, high);
      var before := Passed(calls[..n - 1]);
      CountAppend(before, calls[n - 1], client, low, high);
      assert before + [] == before;
    }
  }

  lemma NothingPassed(calls: seq<Call>, client: string, low: real, high: real)
    ensures CountIn(Passed(calls[..0]), client, low, high) == 0 == |PassedIn(calls, 0, client, low, high)|
  {
    hide PassedAt;
    assert PassedIn(calls, 0, client, low, high) == {};
  }

  lemma CountDecides(calls: seq<Call>, i: nat)
    requires Nondecreasing(calls) && i < |calls|
    ensures PassedAt(calls, i) <==>
            CountIn(Passed(calls[..i]), calls[i].client, calls[i].time - 60.0, calls[i].time) < 10
  {
    SameDecisions(calls, i);
    PassedIsAccepted(calls[..i]);
    hide Enforce, TableAfter, Passed, AcceptedLog, CountIn;
  }

  /** The calls of the same client that passed in the sixty seconds before call i. */
  ghost function PassedBefore(calls: seq<Call>, i: nat): set<nat>
    requires i < |calls|
  {
    set j: nat | j < i && PassedAt(calls, j) && calls[j].client == calls[i].client
      && calls[j].time > calls[i].time - 60.0
  }

  lemma BeforeIsPassedIn(calls: seq<Call>, i: nat)
    requires Nondecreasing(calls) && i < |calls|
    ensures PassedBefore(calls, i) == PassedIn(calls, i, calls[i].client, calls[i].time - 60.0, calls[i].time)
  {
    hide PassedAt;
  }

  /** Over every run with a nondecreasing clock: a call passes exactly when fewer than ten calls of its client passed in
      the sixty seconds before it. */
  lemma PassesExactlyWhen(calls: seq<Call>, i: nat)
    requires Nondecreasing(calls) && i < |calls|
    ensures PassedAt(calls, i) <==> |PassedBefore(calls, i)| < 10
  {
    hide *;
    CountDecides(calls, i);
    CountIsSet(calls, i, calls[i].client, calls[i].time - 60.0, calls[i].time);
    BeforeIsPassedIn(calls, i);
  }

  /** And so at most ten calls of a client pass in any window of sixty seconds, wherever it starts. */
  lemma AtMostTenInSixtySeconds(calls: seq<Call>, client: string, t: real)
    requires Nondecreasing(calls)
    ensures |set i: nat | i < |calls| && PassedAt(calls, i) && calls[i].client == client
               && t - 60.0 < calls[i].time <= t| <= 10
  {
    AtMostTenPerWindow(calls, client, t);
    assert calls[..|calls|] == calls;
    CountIsSet(calls, |calls|, client, t - 60.0, t);
    hide PassedAt, CountIn;
    assert PassedIn(calls, |calls|, client, t - 60.0, t) ==
      set i: nat | i < |calls| && PassedAt(calls, i) && calls[i].client == client && t - 60.0 < calls[i].time <= t;
  }

  /** Of the other clients, a table of more than 100 keys loses exactly those without a time in the last sixty seconds;
      a smaller one loses nothing. */
  lemma OtherClientsStay(table: Table, call: Call, k: string)
    requires k != call.client
    ensures var after := Enforce(table, call).table;
            && (k in after <==>
                  && k in table
                  && (|table| <= 100
                      || (table[k] != [] && table[k][|table[k]| - 1] > call.time - 60.0)))
            && (k in after ==> after[k] == table[k])
  {
    EnforceRecords(table, call);
    hide Enforce, Newer, Lookup;
  }

  /** Of its own client only the times of the last sixty seconds are kept, and its own if it passes. */
  lemma OwnTimesAreRecent(table: Table, call: Call, t: real)
    requires Sorted(Lookup(table, call.client))
    ensures var after := Enforce(table, call);
            && call.client in after.table
            && (t in after.table[call.client] <==>
                  (t in Lookup(table, call.client) && t > call.time - 60.0) || (after.allowed && t == call.time))
  {
    EnforceRecords(table, call);
    NewerHolds(Lookup(table, call.client), call.time - 60.0, t);
    if call.client in table && Stale(table[call.client], call.time - 60.0) {
      StaleMeansNothingNewer(table[call.client], call.time - 60.0);
    }
    hide Enforce, Newer, Sorted;
  }

  lemma {:induction false} NewerHolds(times: seq<real>, cutoff: real, t: real)
    ensures t in Newer(times, cutoff) <==> t in times && t > cutoff
  {
    if times != [] {
      assert times == [times[0]] + times[1..];
      NewerHolds(times[1..], cutoff, t);
    }
  }
}
