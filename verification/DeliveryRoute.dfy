/** Proactive deliveries: the outcome of a batch, the route-health streak and the remap of dead routes. */
module DeliveryRoute {
  import opened Common
  import opened ContextId

  const THRESHOLD: nat := 3
  const U32: nat := 0x1_0000_0000

  // -------------------------------------------------------------------------
  // Sending one batch
  // -------------------------------------------------------------------------

  // What the Telegram API answers; for the first chunk also what the retries to the main chat answer.
  datatype Answer = Accepted | ThreadNotFound(htmlRetry: bool, plainRetry: bool) | OtherError

  datatype BatchOutcome = PrimarySuccess | FallbackSuccess | FallbackFailed

  // The batch moves to the main chat exactly when its first chunk meets a missing thread.
  predicate Switches(thread: Option<i32>, answers: seq<Answer>) {
    thread.Some? && answers != [] && answers[0].ThreadNotFound?
  }

  method SendTextBatch(thread: Option<i32>, answers: seq<Answer>)
    returns (outcome: BatchOutcome, targets: seq<Option<i32>>)
    ensures outcome.PrimarySuccess? <==> !Switches(thread, answers)
    ensures outcome.FallbackSuccess? <==> Switches(thread, answers) && (answers[0].htmlRetry || answers[0].plainRetry)
    // The thread each chunk finally goes to: one target for the whole batch.
    ensures targets == seq(|answers|, i => if Switches(thread, answers) then None else thread)
  {
    var effective := thread;
    var switched := false;
    var failed := false;
    targets := [];
    for i := 0 to |answers|
      invariant effective == if i > 0 && Switches(thread, answers) then None else thread
      invariant switched <==> i > 0 && Switches(thread, answers)
      invariant failed <==> i > 0 && Switches(thread, answers) && !answers[0].htmlRetry && !answers[0].plainRetry
      invariant targets == seq(i, j => if Switches(thread, answers) then None else thread)
    {
      match answers[i] {
        case Accepted =>
        case ThreadNotFound(html, plain) =>
          if i == 0 && thread.Some? {
            effective := None;
            switched := true;
            if !html && !plain {
              failed := true;
            }
          }
        case OtherError =>
      }
      targets := targets + [effective];
    }
    if switched {
      outcome := if failed then FallbackFailed else FallbackSuccess;
    } else {
      outcome := PrimarySuccess;
    }
  }

  // -------------------------------------------------------------------------
  // Reporting: three guarded statements on one row
  // -------------------------------------------------------------------------

  datatype Row = Row(route: string, streak: nat)

  datatype Report = Succeeded | NotFoundFallbackSucceeded(fallback: string) | NotFoundFallbackFailed

  // What a sender reports for a route, if the route parses; the fallback is the chat without a thread.
  function ReportOf(attempted: string, outcome: BatchOutcome): Option<Report> {
    match Parse(attempted)
    case None => None
    case Some(target) =>
      match outcome
      case PrimarySuccess => Some(Succeeded)
      case FallbackSuccess => Some(NotFoundFallbackSucceeded(Show(target.chat)))
      case FallbackFailed => Some(NotFoundFallbackFailed)
  }

  // A batch to a route without a thread always counts as a primary success.
  predicate Possible(attempted: string, outcome: BatchOutcome) {
    Parse(attempted).Some? && Parse(attempted).value.thread.None? ==> outcome.PrimarySuccess?
  }

  function Reset(row: Row, attempted: string): Row {
    if row.route == attempted then row.(streak := 0) else row
  }

  function Increment(row: Row, attempted: string): Row {
    if row.route == attempted then row.(streak := row.streak + 1) else row
  }

  function Remap(row: Row, attempted: string, fallback: string): Row {
    if row.route == attempted then Row(fallback, 0) else row
  }

  // The value that the increment returned, as the 32-bit number it is compared as.
  predicate AtThreshold(streak: nat) {
    streak % U32 >= THRESHOLD
  }

  class SchedulerStore {
    var schedules: map<string, Row>

    constructor ()
      ensures schedules == map[]
    {
      schedules := map[];
    }

    method ResetStreak(id: string, attempted: string)
      modifies this
      ensures schedules == if id in old(schedules) then old(schedules)[id := Reset(old(schedules)[id], attempted)]
                           else old(schedules)
    {
      if id in schedules {
        var row := schedules[id];
        if row.route == attempted {
          row := row.(streak := 0);
        }
        schedules := schedules[id := row];
      }
    }

    method IncrementStreak(id: string, attempted: string) returns (returned: Option<nat>)
      modifies this
      ensures schedules == if id in old(schedules) then old(schedules)[id := Increment(old(schedules)[id], attempted)]
                           else old(schedules)
      ensures returned.Some? <==> id in old(schedules) && old(schedules)[id].route == attempted
      ensures returned.Some? ==> returned.value == schedules[id].streak
    {
      returned := None;
      if id in schedules {
        var row := schedules[id];
        if row.route == attempted {
          row := row.(streak := row.streak + 1);
          returned := Some(row.streak);
        }
        schedules := schedules[id := row];
      }
    }

    method RemapRoute(id: string, attempted: string, fallback: string) returns (affected: nat)
      modifies this
      ensures schedules == if id in old(schedules)
                           then old(schedules)[id := Remap(old(schedules)[id], attempted, fallback)]
                           else old(schedules)
      ensures affected == if id in old(schedules) && old(schedules)[id].route == attempted then 1 else 0
    {
      affected := 0;
      if id in schedules {
        var row := schedules[id];
        if row.route == attempted {
          row := Row(fallback, 0);
          affected := 1;
        }
        schedules := schedules[id := row];
      }
    }

    // One report with nothing in between.
    method ReportOutcome(id: string, attempted: string, report: Report)
      modifies this
      ensures schedules.Keys == old(schedules).Keys
      ensures forall k :: k in schedules && k != id ==> schedules[k] == old(schedules)[k]
      ensures id in schedules ==>
                var row := old(schedules)[id];
                schedules[id] ==
                  match report
                  case Succeeded => Reset(row, attempted)
                  case NotFoundFallbackFailed => Increment(row, attempted)
                  case NotFoundFallbackSucceeded(fallback) =>
                    if row.route == attempted && AtThreshold(row.streak + 1) then Row(fallback, 0)
                    else Increment(row, attempted)
    {
      match report {
        case Succeeded => ResetStreak(id, attempted);
        case NotFoundFallbackSucceeded(fallback) =>
          var returned := IncrementStreak(id, attempted);
          if returned.Some? && returned.value % U32 >= THRESHOLD {
            var affected := RemapRoute(id, attempted, fallback);
          }
        case NotFoundFallbackFailed =>
          var returned := IncrementStreak(id, attempted);
      }
    }
  }

  // -------------------------------------------------------------------------
  // Concurrent reports on one schedule
  // -------------------------------------------------------------------------

  // What the statements did to the row, in order.
  datatype Effect = DidReset | DidIncrement | DidRemap

  // A report between its increment and its remap.
  datatype Pending = Pending(attempted: string, fallback: string, at: nat)

  datatype State = State(row: Row, pending: map<nat, Pending>, log: seq<Effect>)

  datatype Action =
    | Deliver(r: nat, attempted: string, outcome: BatchOutcome)   // a report's first statement
    | Finish(r: nat)                                              // its remap statement

  function Logged(s: State, row: Row, attempted: string, e: Effect): State {
    s.(row := row, log := if s.row.route == attempted then s.log + [e] else s.log)
  }

  function FirstStatement(s: State, r: nat, attempted: string, report: Report): State {
    match report
    case Succeeded => Logged(s, Reset(s.row, attempted), attempted, DidReset)
    case NotFoundFallbackFailed => Logged(s, Increment(s.row, attempted), attempted, DidIncrement)
    case NotFoundFallbackSucceeded(fallback) =>
      var s1 := Logged(s, Increment(s.row, attempted), attempted, DidIncrement);
      if s.row.route == attempted && AtThreshold(s1.row.streak)
      then s1.(pending := s.pending[r := Pending(attempted, fallback, |s1.log|)])
      else s1
  }

  function Next(s: State, a: Action): Option<State> {
    match a
    case Deliver(r, attempted, outcome) =>
      if r in s.pending || !Possible(attempted, outcome) then None
      else
        (match ReportOf(attempted, outcome)
         case None => Some(s)
         case Some(report) => Some(FirstStatement(s, r, attempted, report)))
    case Finish(r) =>
      if r !in s.pending then None
      else
        var p := s.pending[r];
        var s1 := Logged(s, Remap(s.row, p.attempted, p.fallback), p.attempted, DidRemap);
        Some(s1.(pending := s.pending - {r}))
  }

  function Exec(s: State, acts: seq<Action>): Option<State>
    decreases |acts|
  {
    if acts == [] then Some(s)
    else
      match Next(s, acts[0])
      case None => None
      case Some(s1) => Exec(s1, acts[1..])
  }

  function Init(route: string): State {
    State(Row(route, 0), map[], [])
  }

  function Remaps(log: seq<Effect>): nat {
    if log == [] then 0 else Remaps(log[..|log| - 1]) + (if log[|log| - 1].DidRemap? then 1 else 0)
  }

  // Increments since the last reset or remap.
  function Trailing(log: seq<Effect>): nat {
    if log == [] || !log[|log| - 1].DidIncrement? then 0 else Trailing(log[..|log| - 1]) + 1
  }

  // The route that a dead thread's route turns into.
  function Fallback(route: string): Option<string> {
    match Parse(route)
    case None => None
    case Some(t) => if t.thread.Some? then Some(Show(t.chat)) else None
  }

  ghost predicate Inv(first: string, s: State) {
    && s.row.streak == Trailing(s.log)
    && (Remaps(s.log) == 0 ==> s.row.route == first)
    && (Remaps(s.log) > 0 ==> Fallback(first) == Some(s.row.route) && Remaps(s.log) == 1)
    && (forall r :: r in s.pending ==> PendingOk(s, s.pending[r]))
    && (DidRemap in s.log ==> SawThreshold(s.log))
  }

  // The report's increment left the streak at the threshold, and its route names a thread.
  ghost predicate PendingOk(s: State, p: Pending) {
    && Fallback(p.attempted) == Some(p.fallback)
    && p.at <= |s.log| && AtThreshold(Trailing(s.log[..p.at]))
  }

  // Before the remap some increment brought the streak to the threshold.
  ghost predicate SawThreshold(log: seq<Effect>) {
    exists i, j :: 0 <= i <= j < |log| && log[j].DidRemap? && AtThreshold(Trailing(log[..i]))
  }

  lemma Snoc(log: seq<Effect>, e: Effect)
    ensures Remaps(log + [e]) == Remaps(log) + (if e.DidRemap? then 1 else 0)
    ensures Trailing(log + [e]) == if e.DidIncrement? then Trailing(log) + 1 else 0
  {
    assert (log + [e])[..|log|] == log;
  }

  lemma FallbackHasNoThread(route: string)
    requires Fallback(route).Some?
    ensures Fallback(Fallback(route).value).None? && Fallback(route).value != route
  {
    var chat := Parse(route).value.chat;
    ParseDerive(chat, None);
  }

  lemma PendingStays(s: State, s': State, p: Pending)
    requires PendingOk(s, p) && s.log <= s'.log
    ensures PendingOk(s', p)
  {
    assert s'.log[..p.at] == s.log[..p.at];
  }

  lemma SawStays(log: seq<Effect>, e: Effect)
    requires SawThreshold(log)
    ensures SawThreshold(log + [e])
  {
    var i, j :| 0 <= i <= j < |log| && log[j].DidRemap? && AtThreshold(Trailing(log[..i]));
    assert (log + [e])[..i] == log[..i] && (log + [e])[j] == log[j];
  }

  // A first statement keeps the route and logs at most one reset or increment.
  predicate Shape(s: State, s': State, added: Option<Effect>) {
    && s'.row.route == s.row.route
    && (match added
        case None => s'.log == s.log && s'.row == s.row
        case Some(e) =>
          && s'.log == s.log + [e] && !e.DidRemap?
          && s'.row.streak == if e.DidIncrement? then s.row.streak + 1 else 0)
    && (forall r :: r in s'.pending && r !in s.pending ==>
          && s'.pending[r].at == |s'.log| && AtThreshold(s'.row.streak)
          && Fallback(s'.pending[r].attempted) == Some(s'.pending[r].fallback))
    && forall r :: r in s.pending ==> r in s'.pending && s'.pending[r] == s.pending[r]
  }

  lemma StatementShape(s: State, r: nat, attempted: string, report: Report) returns (added: Option<Effect>)
    requires r !in s.pending
    requires report.NotFoundFallbackSucceeded? ==> Fallback(attempted) == Some(report.fallback)
    ensures Shape(s, FirstStatement(s, r, attempted, report), added)
  {
    added := if s.row.route != attempted then None else Some(if report.Succeeded? then DidReset else DidIncrement);
  }

  // A report of a dead thread comes from a route with a thread.
  lemma ReportNamesFallback(attempted: string, outcome: BatchOutcome)
    requires Possible(attempted, outcome) && ReportOf(attempted, outcome).Some?
    ensures
      var report := ReportOf(attempted, outcome).value;
      report.NotFoundFallbackSucceeded? ==> Fallback(attempted) == Some(report.fallback)
  {
  }

  lemma DeliverShape(s: State, a: Action, s': State) returns (added: Option<Effect>)
    requires a.Deliver? && Next(s, a) == Some(s')
    ensures Shape(s, s', added)
  {
    var report := ReportOf(a.attempted, a.outcome);
    if report.Some? {
      ReportNamesFallback(a.attempted, a.outcome);
      added := StatementShape(s, a.r, a.attempted, report.value);
    } else {
      added := None;
    }
  }

  lemma OneMoreEffect(log: seq<Effect>, e: Effect)
    requires !e.DidRemap?
    ensures Trailing(log + [e]) == (if e.DidIncrement? then Trailing(log) + 1 else 0)
    ensures Remaps(log + [e]) == Remaps(log)
    ensures DidRemap in log + [e] ==> DidRemap in log
    ensures SawThreshold(log) ==> SawThreshold(log + [e])
  {
    Snoc(log, e);
    if SawThreshold(log) {
      SawStays(log, e);
    }
  }

  lemma ShapeKeepsCounts(s: State, s': State, added: Option<Effect>)
    requires Shape(s, s', added) && s.row.streak == Trailing(s.log)
    ensures s'.row.streak == Trailing(s'.log) && Remaps(s'.log) == Remaps(s.log)
    ensures DidRemap in s'.log ==> DidRemap in s.log
    ensures SawThreshold(s.log) ==> SawThreshold(s'.log)
  {
    if added.Some? {
      OneMoreEffect(s.log, added.value);
    }
  }

  lemma ShapeKeepsPending(s: State, s': State, added: Option<Effect>, r: nat)
    requires Shape(s, s', added) && s'.row.streak == Trailing(s'.log)
    requires r in s'.pending && (r in s.pending ==> PendingOk(s, s.pending[r]))
    ensures PendingOk(s', s'.pending[r])
  {
    if r in s.pending {
      PendingStays(s, s', s.pending[r]);
    } else {
      assert s'.log[..|s'.log|] == s'.log;
    }
  }

  lemma DeliverKeepsInv(first: string, s: State, a: Action, s': State)
    requires Inv(first, s) && a.Deliver? && Next(s, a) == Some(s')
    ensures Inv(first, s')
  {
    var added := DeliverShape(s, a, s');
    ShapeKeepsCounts(s, s', added);
    forall r | r in s'.pending ensures PendingOk(s', s'.pending[r]) {
      ShapeKeepsPending(s, s', added, r);
    }
  }

  lemma FinishKeepsInv(first: string, s: State, r: nat, s': State)
    requires Inv(first, s) && Next(s, Finish(r)) == Some(s')
    ensures Inv(first, s')
  {
    var p := s.pending[r];
    assert PendingOk(s, p);
    forall k | k in s'.pending ensures PendingOk(s', s'.pending[k]) {
      PendingStays(s, s', s.pending[k]);
    }
    if s.row.route == p.attempted {
      Snoc(s.log, DidRemap);
      if Remaps(s.log) > 0 {
        FallbackHasNoThread(first);
        assert false;
      }
      assert s'.log[..p.at] == s.log[..p.at];
      assert s'.log[|s.log|] == DidRemap;
    }
  }

  lemma {:induction false} RunKeepsInv(first: string, s: State, acts: seq<Action>, s': State)
    requires Inv(first, s) && Exec(s, acts) == Some(s')
    ensures Inv(first, s')
    decreases |acts|
  {
    if acts != [] {
      var s1 := Next(s, acts[0]).value;
      if acts[0].Deliver? {
        DeliverKeepsInv(first, s, acts[0], s1);
      } else {
        FinishKeepsInv(first, s, acts[0].r, s1);
      }
      RunKeepsInv(first, s1, acts[1..], s');
    }
  }

  // In every interleaving: at most one remap, only from a route with a thread, only to the same chat without
  // a thread, only after an increment that saw the threshold; and the streak counts the increments since the
  // last reset.
  lemma RemapsAtMostOnce(first: string, acts: seq<Action>, s: State)
    requires Exec(Init(first), acts) == Some(s)
    ensures Remaps(s.log) <= 1
    ensures Remaps(s.log) == 0 ==> s.row.route == first
    ensures Remaps(s.log) == 1 ==>
              && SawThreshold(s.log) && Parse(first).Some? && Parse(first).value.thread.Some?
              && Parse(s.row.route) == Some(Target(Parse(first).value.chat, None))
    ensures s.row.streak == Trailing(s.log)
  {
    RunKeepsInv(first, Init(first), acts, s);
    if Remaps(s.log) == 1 {
      RemapIsLogged(s.log);
      ParseDerive(Parse(first).value.chat, None);
    }
  }

  lemma {:induction false} RemapIsLogged(log: seq<Effect>)
    requires Remaps(log) > 0
    ensures DidRemap in log
  {
    if !log[|log| - 1].DidRemap? {
      RemapIsLogged(log[..|log| - 1]);
    }
  }

  // -------------------------------------------------------------------------
  // The gap between increment and remap
  // -------------------------------------------------------------------------

  predicate OnlyIncrements(log: seq<Effect>) {
    forall i :: 0 <= i < |log| ==> log[i].DidIncrement?
  }

  lemma {:induction false} TrailingOfConcat(a: seq<Effect>, b: seq<Effect>)
    ensures Trailing(a + b) == if OnlyIncrements(b) then Trailing(a) + |b| else Trailing(b)
    decreases |b|
  {
    if b == [] {
      assert a + b == a;
    } else {
      var n := |b| - 1;
      assert (a + b)[..|a + b| - 1] == a + b[..n] && (a + b)[|a + b| - 1] == b[n];
      TrailingOfConcat(a, b[..n]);
      assert OnlyIncrements(b) <==> OnlyIncrements(b[..n]) && b[n].DidIncrement?;
    }
  }

  lemma {:induction false} LoggedRemap(log: seq<Effect>)
    requires DidRemap in log
    ensures Remaps(log) > 0
  {
    var n := |log| - 1;
    if !log[n].DidRemap? {
      assert log == log[..n] + [log[n]];
      LoggedRemap(log[..n]);
    }
  }

  // Once the route has been remapped, no pending remap finds it any more.
  lemma NoRemapSince(first: string, s: State, p: Pending)
    requires Inv(first, s) && PendingOk(s, p) && s.row.route == p.attempted
    ensures DidRemap !in s.log
  {
    if DidRemap in s.log {
      LoggedRemap(s.log);
      FallbackHasNoThread(first);
      assert false;
    }
  }

  lemma StreakSince(log: seq<Effect>, at: nat)
    requires at <= |log| && AtThreshold(Trailing(log[..at]))
    ensures
      var since := log[at..];
      && Trailing(log) == (if OnlyIncrements(since) then Trailing(log[..at]) + |since| else Trailing(since))
      && (Trailing(log) >= THRESHOLD <==> OnlyIncrements(since) || Trailing(since) >= THRESHOLD)
      && (DidRemap !in log ==> (OnlyIncrements(since) <==> DidReset !in since))
  {
    assert log == log[..at] + log[at..];
    TrailingOfConcat(log[..at], log[at..]);
    if DidRemap !in log {
      forall i | 0 <= i < |log[at..]| ensures log[at..][i] != DidRemap {
        assert log[at + i] in log;
      }
    }
  }

  // When a remap comes, the row's streak is what its own increment saw, which was the threshold, plus later
  // increments, unless a success was reported in between; then it counts from that success.  So the remap
  // finds its route failing exactly when no success came between, or the threshold was met again since.
  lemma StreakAtRemap(first: string, acts: seq<Action>, s: State, r: nat)
    requires Exec(Init(first), acts) == Some(s) && r in s.pending
    ensures s.pending[r].at <= |s.log| && AtThreshold(Trailing(s.log[..s.pending[r].at]))
    ensures
      var since := s.log[s.pending[r].at..];
      && s.row.streak == (if OnlyIncrements(since)
                          then Trailing(s.log[..s.pending[r].at]) + |since|
                          else Trailing(since))
      && (s.row.streak >= THRESHOLD <==> OnlyIncrements(since) || Trailing(since) >= THRESHOLD)
      && (s.row.route == s.pending[r].attempted ==> (OnlyIncrements(since) <==> DidReset !in since))
  {
    RunKeepsInv(first, Init(first), acts, s);
    var p := s.pending[r];
    assert PendingOk(s, p);
    StreakSince(s.log, p.at);
    if s.row.route == p.attempted {
      NoRemapSince(first, s, p);
    }
  }

  lemma LostStep(s: State, r: nat)
    requires Fallback(s.row.route).Some? && r !in s.pending
    ensures
      var row := s.row.(streak := s.row.streak + 1);
      var p := Pending(row.route, Fallback(row.route).value, |s.log| + 1);
      Next(s, Deliver(r, s.row.route, FallbackSuccess)) ==
        Some(State(row, if AtThreshold(row.streak) then s.pending[r := p] else s.pending, s.log + [DidIncrement]))
  {
  }

  lemma FoundStep(s: State, r: nat)
    requires Parse(s.row.route).Some? && r !in s.pending
    ensures Next(s, Deliver(r, s.row.route, PrimarySuccess)) ==
            Some(State(s.row.(streak := 0), s.pending, s.log + [DidReset]))
  {
  }

  // So every route with a thread can be remapped although a delivery to it has just succeeded.
  lemma RemapAfterRecovery(route: string) returns (acts: seq<Action>, s: State)
    requires Fallback(route).Some?
    ensures Exec(Init(route), acts) == Some(s)
    ensures |s.log| >= 2 && s.log[|s.log| - 2] == DidReset && s.log[|s.log| - 1] == DidRemap
  {
    var s0, lost := Init(route), Deliver(0, route, FallbackSuccess);
    var s1, s2, s3 := ThreeLost(route);
    FoundStep(s3, 1);
    var s4 := Next(s3, Deliver(1, route, PrimarySuccess)).value;
    s := Next(s4, Finish(0)).value;
    acts := [lost, lost, lost, Deliver(1, route, PrimarySuccess), Finish(0)];
    ExecFive(s0, acts, s1, s2, s3, s4, s);
  }

  // Three dead-thread deliveries with working fallbacks on a fresh row leave a remap pending.
  lemma ThreeLost(route: string) returns (s1: State, s2: State, s3: State)
    requires Fallback(route).Some?
    ensures
      var lost := Deliver(0, route, FallbackSuccess);
      Next(Init(route), lost) == Some(s1) && Next(s1, lost) == Some(s2) && Next(s2, lost) == Some(s3)
    ensures s3 == State(Row(route, 3), map[0 := Pending(route, Fallback(route).value, 3)],
                        [DidIncrement, DidIncrement, DidIncrement])
  {
    LostStep(Init(route), 0);
    var d := DidIncrement;
    assert [] + [d] == [d] && [d] + [d] == [d, d] && [d, d] + [d] == [d, d, d];
    s1 := State(Row(route, 1), map[], [DidIncrement]);
    LostStep(s1, 0);
    s2 := State(Row(route, 2), map[], [DidIncrement, DidIncrement]);
    LostStep(s2, 0);
    s3 := State(Row(route, 3), map[0 := Pending(route, Fallback(route).value, 3)],
                [DidIncrement, DidIncrement, DidIncrement]);
    assert map[][0 := Pending(route, Fallback(route).value, 3)] == s3.pending;
  }

  lemma ExecFive(s0: State, acts: seq<Action>, s1: State, s2: State, s3: State, s4: State, s5: State)
    requires |acts| == 5
    requires Next(s0, acts[0]) == Some(s1) && Next(s1, acts[1]) == Some(s2) && Next(s2, acts[2]) == Some(s3)
    requires Next(s3, acts[3]) == Some(s4) && Next(s4, acts[4]) == Some(s5)
    ensures Exec(s0, acts) == Some(s5)
  {
    assert Exec(s5, acts[1..][1..][1..][1..][1..]) == Some(s5);
    assert Exec(s4, acts[1..][1..][1..][1..]) == Some(s5);
    assert Exec(s3, acts[1..][1..][1..]) == Some(s5);
    assert Exec(s2, acts[1..][1..]) == Some(s5);
    assert Exec(s1, acts[1..]) == Some(s5);
  }

  // -------------------------------------------------------------------------
  // What each report does
  // -------------------------------------------------------------------------

  // Success resets the streak, a dead thread adds to it whether or not the fallback went through, and only
  // one that did, at a streak of at least three, leaves a remap pending, to the same chat without a thread.
  lemma DeliveryEffects(s: State, r: nat, outcome: BatchOutcome, s': State, target: Target)
    requires Parse(s.row.route) == Some(target) && Next(s, Deliver(r, s.row.route, outcome)) == Some(s')
    ensures s'.row.route == s.row.route && r !in s.pending
    ensures s'.row.streak == if outcome == PrimarySuccess then 0 else s.row.streak + 1
    ensures s'.log == s.log + [if outcome == PrimarySuccess then DidReset else DidIncrement]
    ensures r in s'.pending <==> outcome == FallbackSuccess && (s.row.streak + 1) % 0x1_0000_0000 >= 3
    ensures r in s'.pending ==> s'.pending[r] == Pending(s.row.route, Show(target.chat), |s'.log|)
    ensures forall k :: k != r ==> (k in s'.pending <==> k in s.pending)
    ensures forall k :: k in s.pending ==> s'.pending[k] == s.pending[k]
  {
  }

  // A report for a route that the row no longer has changes nothing.
  lemma LateReportIsIgnored(s: State, r: nat, attempted: string, outcome: BatchOutcome, s': State)
    requires attempted != s.row.route && Next(s, Deliver(r, attempted, outcome)) == Some(s')
    ensures s' == s
  {
  }

  // The remap itself: the row moves to the chat without a thread, with a new streak, if it is still there.
  lemma FinishEffects(s: State, r: nat, s': State)
    requires Next(s, Finish(r)) == Some(s')
    ensures r in s.pending && s'.pending == s.pending - {r}
    ensures s'.row == if s.row.route == s.pending[r].attempted then Row(s.pending[r].fallback, 0) else s.row
    ensures s'.log == if s.row.route == s.pending[r].attempted then s.log + [DidRemap] else s.log
  {
  }

  /** Three dead-thread deliveries in a row with working fallbacks remap a threaded route, from a fresh row. */
  lemma ThreeFailuresRemap(chat: i64, thread: i32) returns (acts: seq<Action>, s: State)
    ensures Exec(Init(Derive(chat, Some(thread))), acts) == Some(s) && |acts| == 4
    ensures s.row == Row(Derive(chat, None), 0)
  {
    var route := Derive(chat, Some(thread));
    ParseDerive(chat, Some(thread));
    var lost := Deliver(0, route, FallbackSuccess);
    var s1, s2, s3 := ThreeLost(route);
    s := Next(s3, Finish(0)).value;
    FinishEffects(s3, 0, s);
    acts := [lost, lost, lost, Finish(0)];
    ExecFour(Init(route), acts, s1, s2, s3, s);
  }

  lemma ExecFour(s0: State, acts: seq<Action>, s1: State, s2: State, s3: State, s4: State)
    requires |acts| == 4
    requires Next(s0, acts[0]) == Some(s1) && Next(s1, acts[1]) == Some(s2) && Next(s2, acts[2]) == Some(s3)
    requires Next(s3, acts[3]) == Some(s4)
    ensures Exec(s0, acts) == Some(s4)
  {
    assert Exec(s4, acts[1..][1..][1..][1..]) == Some(s4);
    assert Exec(s3, acts[1..][1..][1..]) == Some(s4);
    assert Exec(s2, acts[1..][1..]) == Some(s4);
    assert Exec(s1, acts[1..]) == Some(s4);
  }
}
