/** When the stored terminal frame is the newest turn's, and when it is not. */
module TurnLatest {
  import opened Common
  import opened TurnProtocol
  import opened TurnInvariants
  import opened TurnTheorems
  import opened TurnRuns

  // -------------------------------------------------------------------------
  // Older frames
  // -------------------------------------------------------------------------

  // The turn has been admitted and has reset the stored frame.
  predicate PastReset(p: Phase) {
    Admittance(p) && !p.Admitted?
  }

  // Although turn `k` has reset it, the stored frame is that of a turn admitted before `k`.
  predicate Stale(s: State, k: TaskId) {
    && k in s.tasks && s.tasks[k].session in s.sessions && PastReset(s.tasks[k].phase)
    && var latest := s.sessions[s.tasks[k].session].latest;
    && latest.Some? && latest.value.0 in s.tasks
    && s.tasks[latest.value.0].admittedAt < s.tasks[k].admittedAt
  }

  predicate IsStoring(s: State, x: SessionRef, t: TaskId) {
    t in s.tasks && s.tasks[t].session == x && s.tasks[t].phase.Storing?
  }

  ghost predicate InGap(s: State, x: SessionRef) {
    exists t :: IsStoring(s, x, t)
  }

  // -------------------------------------------------------------------------
  // A turn that nobody older can overtake
  // -------------------------------------------------------------------------

  // The turn will not store a frame any more.
  predicate Spent(p: Phase) {
    Admittance(p) && !Owns(p) && !p.Storing?
  }

  predicate NotBefore(s: State, t: TaskId, k: TaskId)
    requires k in s.tasks
  {
    t in s.tasks && Admittance(s.tasks[t].phase) && s.tasks[k].admittedAt <= s.tasks[t].admittedAt
  }

  // Every admitted turn of the object is spent or was not admitted before `k`.
  ghost predicate OlderSpent(s: State, k: TaskId)
    requires k in s.tasks
  {
    forall t :: t in s.tasks && s.tasks[t].session == s.tasks[k].session && Admittance(s.tasks[t].phase) ==>
      Spent(s.tasks[t].phase) || NotBefore(s, t, k)
  }

  ghost predicate Ahead(s: State, k: TaskId) {
    && k in s.tasks && s.tasks[k].session in s.sessions && Admittance(s.tasks[k].phase)
    && OlderSpent(s, k)
    && var latest := s.sessions[s.tasks[k].session].latest;
    PastReset(s.tasks[k].phase) && latest.Some? ==> NotBefore(s, latest.value.0, k)
  }

  lemma StepStaysSpent(config: Config, now: nat, me: TaskId, l: Local, c: Choice, l': Local)
    requires TaskStep(config, now, me, l, c) == Some(l')
    ensures Spent(l.task.phase) ==> Spent(l'.task.phase)
    ensures l.task.phase.Admitted? ==> l'.session.latest == None
    ensures PastReset(l'.task.phase) ==> PastReset(l.task.phase) || l.task.phase.Admitted?
  {
  }

  lemma StepKeepsOlder(s: State, t: TaskId, c: Choice, l: Local, l': Local, s': State, k: TaskId)
    requires Moved(s, t, l, l', s') && TaskStep(s.config, s.clock, t, l, c) == Some(l')
    requires k in s.tasks && Admittance(s.tasks[k].phase) && s.tasks[k].admittedAt < s.clock && OlderSpent(s, k)
    ensures k in s'.tasks && s'.tasks[k].admittedAt == s.tasks[k].admittedAt && Admittance(s'.tasks[k].phase)
    ensures OlderSpent(s', k)
    ensures forall r :: NotBefore(s, r, k) ==> NotBefore(s', r, k)
  {
    StepStaysSpent(s.config, s.clock, t, l, c, l');
    StepAdmitsOnce(s.config, s.clock, t, l, c, l');
  }

  lemma StepKeepsAhead(s: State, t: TaskId, c: Choice, s': State, k: TaskId)
    requires Inv(s) && Ahead(s, k) && Next(s, Step(t, c)) == Some(s')
    ensures Ahead(s', k)
  {
    var l := LocalOf(s, t);
    var l' := TaskStep(s.config, s.clock, t, l, c).value;
    assert TaskOk(s, k);
    StepMoves(s, t, c, l, l', s');
    StepKeepsOlder(s, t, c, l, l', s', k);
    StepAndLatest(s.config, s.clock, t, l, c, l');
    StepStaysSpent(s.config, s.clock, t, l, c, l');
  }

  lemma QuietKeepsAhead(s: State, s': State, k: TaskId)
    requires Ahead(s, k) && Quiet(s, s')
    ensures Ahead(s', k)
  {
  }

  lemma NextKeepsAhead(s: State, a: Action, s': State, k: TaskId)
    requires Inv(s) && Ahead(s, k) && Next(s, a) == Some(s')
    ensures Ahead(s', k)
  {
    if a.Step? {
      StepKeepsAhead(s, a.t, a.choice, s', k);
    } else {
      ActionIsQuiet(s, a, s');
      QuietKeepsAhead(s, s', k);
    }
  }

  lemma {:induction false} ExecKeepsAhead(s: State, acts: seq<Action>, s': State, k: TaskId)
    requires Inv(s) && Ahead(s, k) && Exec(s, acts) == Some(s')
    ensures Ahead(s', k)
    decreases |acts|
  {
    if acts != [] {
      var s1 := Next(s, acts[0]).value;
      NextKeepsInv(s, acts[0], s1);
      NextKeepsAhead(s, acts[0], s1, k);
      ExecKeepsAhead(s1, acts[1..], s', k);
    }
  }

  // -------------------------------------------------------------------------
  // One admission
  // -------------------------------------------------------------------------

  predicate Admits(s: State, k: TaskId) {
    && k in s.tasks && s.tasks[k].session in s.sessions && s.tasks[k].phase.Submitted?
    && s.sessions[s.tasks[k].session].slot == None
  }

  // The state after the admission of `k`.
  function AfterAdmission(s: State, k: TaskId): State
    requires Admits(s, k)
  {
    var task := s.tasks[k];
    Write(s, k, LocalOf(s, k).(task := task.(phase := Admitted, admittedAt := s.clock),
                               session := s.sessions[task.session].(slot := Some(ActiveTurn(task.turnId, k)))))
  }

  lemma AdmissionStep(s: State, k: TaskId)
    requires Admits(s, k)
    ensures Next(s, Step(k, Go)) == Some(AfterAdmission(s, k))
  {
  }

  lemma AdmittedAhead(s: State, k: TaskId)
    requires Inv(s) && Admits(s, k) && !InGap(s, s.tasks[k].session)
    ensures Ahead(AfterAdmission(s, k), k)
  {
    var x := s.tasks[k].session;
    assert SlotOk(s, x);
    forall t | t in s.tasks && s.tasks[t].session == x && Admittance(s.tasks[t].phase) ensures Spent(s.tasks[t].phase) {
      assert !IsStoring(s, x, t);
    }
  }

  predicate GoesStale(s: State, acts: seq<Action>, k: TaskId) {
    Exec(s, acts).Some? && Stale(Exec(s, acts).value, k)
  }

  ghost predicate MayGoStale(s: State, k: TaskId) {
    exists acts :: GoesStale(s, acts, k)
  }

  lemma ResetStep(config: Config, now: nat, me: TaskId, l: Local)
    requires l.task.phase.Admitted?
    ensures TaskStep(config, now, me, l, Go) ==
            Some(l.(task := l.task.(phase := Resolving), session := l.session.(latest := None)))
  {
  }

  lemma StoreStep(config: Config, now: nat, me: TaskId, l: Local)
    requires l.task.phase.Storing?
    ensures TaskStep(config, now, me, l, Go) ==
            Some(l.(task := l.task.(phase := Publishing(l.task.phase.frame)),
                    session := l.session.(latest := Some((me, l.task.phase.frame)))))
  {
  }

  lemma Reset(s: State, k: TaskId) returns (s': State)
    requires Inv(s) && k in s.tasks && s.tasks[k].session in s.sessions && s.tasks[k].phase.Admitted?
    ensures Next(s, Step(k, Go)) == Some(s') && Inv(s') && OnlyTask(s, k, s')
    ensures s'.tasks[k] == s.tasks[k].(phase := Resolving)
  {
    ResetStep(s.config, s.clock, k, LocalOf(s, k));
    s' := TakeStep(s, k, Go, TaskStep(s.config, s.clock, k, LocalOf(s, k), Go).value);
  }

  lemma StoreFrame(s: State, t: TaskId) returns (s': State)
    requires Inv(s) && t in s.tasks && s.tasks[t].session in s.sessions && s.tasks[t].phase.Storing?
    ensures Next(s, Step(t, Go)) == Some(s') && OnlyTask(s, t, s')
    ensures s'.tasks[t].admittedAt == s.tasks[t].admittedAt
    ensures s'.sessions[s.tasks[t].session].latest == Some((t, s.tasks[t].phase.frame))
  {
    StoreStep(s.config, s.clock, t, LocalOf(s, t));
    s' := TakeStep(s, t, Go, TaskStep(s.config, s.clock, t, LocalOf(s, t), Go).value);
  }

  // Once `k` is admitted while `t` has its frame still to store: `k` resets, then `t` stores.
  lemma StoreAfterReset(s: State, k: TaskId, t: TaskId) returns (acts: seq<Action>)
    requires Inv(s) && k in s.tasks && s.tasks[k].session in s.sessions && s.tasks[k].phase.Admitted?
    requires IsStoring(s, s.tasks[k].session, t) && s.tasks[t].admittedAt < s.tasks[k].admittedAt
    ensures GoesStale(s, acts, k)
  {
    var s1 := Reset(s, k);
    var s2 := StoreFrame(s1, t);
    ExecOne(s1, Step(t, Go), s2, [], s2);
    ExecOne(s, Step(k, Go), s1, [Step(t, Go)] + [], s2);
    acts := [Step(k, Go)] + ([Step(t, Go)] + []);
  }

  /**
   One admission, exactly: some continuation stores an older turn's frame after `k` has reset it if
   and only if, at the moment `k` is admitted, some turn has emptied the slot and not yet stored its
   frame.
   */
  lemma GoesStaleExactlyInGap(s: State, k: TaskId)
    requires Reachable(s) && Admits(s, k)
    ensures Next(s, Step(k, Go)) == Some(AfterAdmission(s, k))
    ensures MayGoStale(AfterAdmission(s, k), k) <==> InGap(s, s.tasks[k].session)
  {
    ReachableInv(s);
    AdmissionStep(s, k);
    var s1 := AfterAdmission(s, k);
    StepKeepsInv(s, k, Go, s1);
    if InGap(s, s.tasks[k].session) {
      var t :| IsStoring(s, s.tasks[k].session, t);
      assert TaskOk(s, t);
      var acts := StoreAfterReset(s1, k, t);
    } else {
      AdmittedAhead(s, k);
      forall acts ensures !GoesStale(s1, acts, k) {
        if Exec(s1, acts).Some? {
          ExecKeepsAhead(s1, acts, Exec(s1, acts).value, k);
        }
      }
    }
  }

  // -------------------------------------------------------------------------
  // Whole runs
  // -------------------------------------------------------------------------

  ghost predicate AdmitsInGap(s: State, a: Action, x: SessionRef) {
    a.Step? && a.choice.Go? && Admits(s, a.t) && s.tasks[a.t].session == x && InGap(s, x)
  }

  // No turn of the object is admitted in the gap.
  ghost predicate GapFree(s: State, acts: seq<Action>, x: SessionRef)
    decreases |acts|
  {
    acts != [] ==>
      && !AdmitsInGap(s, acts[0], x)
      && (Next(s, acts[0]).Some? ==> GapFree(Next(s, acts[0]).value, acts[1..], x))
  }

  // No admitted turn of the object can be overtaken.
  ghost predicate AllAhead(s: State, x: SessionRef) {
    forall k :: k in s.tasks && s.tasks[k].session == x && Admittance(s.tasks[k].phase) ==> Ahead(s, k)
  }

  lemma FreshlyAdmitted(config: Config, now: nat, me: TaskId, l: Local, c: Choice, l': Local)
    requires TaskStep(config, now, me, l, c) == Some(l')
    requires !Admittance(l.task.phase) && Admittance(l'.task.phase)
    ensures c == Go && l.task.phase.Submitted? && l.session.slot == None
  {
  }

  lemma AdmissionIsKnown(s: State, a: Action, s': State, k: TaskId)
    requires Next(s, a) == Some(s') && k in s'.tasks && Admittance(s'.tasks[k].phase)
    requires k in s.tasks ==> !Admittance(s.tasks[k].phase)
    ensures a == Step(k, Go) && Admits(s, k) && s' == AfterAdmission(s, k)
  {
    if a.Step? {
      var l := LocalOf(s, a.t);
      FreshlyAdmitted(s.config, s.clock, a.t, l, a.choice, TaskStep(s.config, s.clock, a.t, l, a.choice).value);
      AdmissionStep(s, k);
    } else {
      ActionIsQuiet(s, a, s');
    }
  }

  lemma NextKeepsAllAhead(s: State, a: Action, s': State, x: SessionRef)
    requires Inv(s) && AllAhead(s, x) && Next(s, a) == Some(s') && !AdmitsInGap(s, a, x)
    ensures AllAhead(s', x)
  {
    forall k | k in s'.tasks && s'.tasks[k].session == x && Admittance(s'.tasks[k].phase) ensures Ahead(s', k) {
      if k in s.tasks && Admittance(s.tasks[k].phase) {
        KeepsSession(s, a, s', k);
        NextKeepsAhead(s, a, s', k);
      } else {
        AdmissionIsKnown(s, a, s', k);
        AdmittedAhead(s, k);
      }
    }
  }

  lemma KeepsSession(s: State, a: Action, s': State, k: TaskId)
    requires Next(s, a) == Some(s') && k in s.tasks
    ensures k in s'.tasks && s'.tasks[k].session == s.tasks[k].session
  {
    if a.Step? {
      StepIsOnlyTask(s, a.t, a.choice, s');
    } else {
      ActionIsQuiet(s, a, s');
    }
  }

  lemma {:induction false} ExecKeepsAllAhead(s: State, acts: seq<Action>, s': State, x: SessionRef)
    requires Inv(s) && AllAhead(s, x) && Exec(s, acts) == Some(s') && GapFree(s, acts, x)
    ensures AllAhead(s', x)
    decreases |acts|
  {
    if acts != [] {
      var s1 := Next(s, acts[0]).value;
      NextKeepsInv(s, acts[0], s1);
      NextKeepsAllAhead(s, acts[0], s1, x);
      ExecKeepsAllAhead(s1, acts[1..], s', x);
    }
  }

  // In a run without such admissions the stored frame is never an older turn's.
  lemma GapFreeRunsAreCurrent(config: Config, acts: seq<Action>, s: State, k: TaskId)
    requires Exec(Init(config), acts) == Some(s) && k in s.tasks && GapFree(Init(config), acts, s.tasks[k].session)
    ensures !Stale(s, k)
  {
    InitInv(config);
    ExecKeepsAllAhead(Init(config), acts, s, s.tasks[k].session);
  }

  // -------------------------------------------------------------------------
  // A client that waits
  // -------------------------------------------------------------------------

  // The submit call was refused, or the turn's terminal frame is out.
  predicate Answered(p: Phase) {
    p.Rejected? || p.RolledBack? || p.Releasing? || p.Finished?
  }

  predicate AllAnswered(s: State, x: SessionRef) {
    forall t :: t in s.tasks && s.tasks[t].session == x ==> Answered(s.tasks[t].phase)
  }

  // Nobody submits a turn to the object before all earlier ones are answered.
  predicate Waits(s: State, acts: seq<Action>, x: SessionRef)
    decreases |acts|
  {
    acts != [] ==>
      && (acts[0].Submit? && acts[0].x == x ==> AllAnswered(s, x))
      && (Next(s, acts[0]).Some? ==> Waits(Next(s, acts[0]).value, acts[1..], x))
  }

  predicate Unanswered(s: State, x: SessionRef, t: TaskId) {
    t in s.tasks && s.tasks[t].session == x && !Answered(s.tasks[t].phase)
  }

  ghost predicate OneUnanswered(s: State, x: SessionRef) {
    forall t, t' :: Unanswered(s, x, t) && Unanswered(s, x, t') ==> t == t'
  }

  lemma StepStaysAnswered(config: Config, now: nat, me: TaskId, l: Local, c: Choice, l': Local)
    requires TaskStep(config, now, me, l, c) == Some(l')
    ensures Answered(l.task.phase) ==> Answered(l'.task.phase)
  {
  }

  lemma NextKeepsOneUnanswered(s: State, a: Action, s': State, x: SessionRef)
    requires OneUnanswered(s, x) && Next(s, a) == Some(s')
    requires a.Submit? && a.x == x ==> AllAnswered(s, x)
    ensures OneUnanswered(s', x)
  {
    if a.Step? {
      var l := LocalOf(s, a.t);
      var l' := TaskStep(s.config, s.clock, a.t, l, a.choice).value;
      StepStaysAnswered(s.config, s.clock, a.t, l, a.choice, l');
      StepIsOnlyTask(s, a.t, a.choice, s');
      assert forall t :: Unanswered(s', x, t) ==> Unanswered(s, x, t);
    } else if a.Submit? {
      assert forall t :: Unanswered(s', x, t) ==> Unanswered(s, x, t) || (t == a.t && a.x == x);
    } else {
      ActionIsQuiet(s, a, s');
      assert forall t :: Unanswered(s', x, t) ==> Unanswered(s, x, t);
    }
  }

  lemma {:induction false} WaitingIsGapFree(s: State, acts: seq<Action>, x: SessionRef)
    requires OneUnanswered(s, x) && Waits(s, acts, x)
    ensures GapFree(s, acts, x)
    decreases |acts|
  {
    if acts != [] {
      if AdmitsInGap(s, acts[0], x) {
        var t :| IsStoring(s, x, t);
        assert Unanswered(s, x, t) && Unanswered(s, x, acts[0].t);
        assert false;
      }
      if Next(s, acts[0]).Some? {
        var s1 := Next(s, acts[0]).value;
        NextKeepsOneUnanswered(s, acts[0], s1, x);
        WaitingIsGapFree(s1, acts[1..], x);
      }
    }
  }

  /** A client that waits for the terminal frame before it submits again never finds an older frame stored. */
  lemma WaitingClientIsSafe(config: Config, acts: seq<Action>, s: State, k: TaskId)
    requires Exec(Init(config), acts) == Some(s) && k in s.tasks && Waits(Init(config), acts, s.tasks[k].session)
    ensures !Stale(s, k)
  {
    WaitingIsGapFree(Init(config), acts, s.tasks[k].session);
    GapFreeRunsAreCurrent(config, acts, s, k);
  }

  // -------------------------------------------------------------------------
  // A client that does not
  // -------------------------------------------------------------------------

  predicate Emptying(p: Phase) {
    p.Running? || p.Stopping? || p.Clearing?
  }

  lemma EmptyingStep(config: Config, now: nat, me: TaskId, l: Local)
    requires Emptying(l.task.phase)
    ensures TaskStep(config, now, me, l, Pick(l.task)).Some?
    ensures
      var l' := TaskStep(config, now, me, l, Pick(l.task)).value;
      Rank(l') < Rank(l) && (Emptying(l'.task.phase) || l'.task.phase.Storing?)
  {
  }

  // A running turn ends and empties the slot while nobody else moves.
  lemma EmptySlot(s: State, t: TaskId) returns (acts: seq<Action>, s': State)
    requires Inv(s) && t in s.tasks && s.tasks[t].session in s.sessions
    requires Emptying(s.tasks[t].phase) || s.tasks[t].phase.Storing?
    ensures Exec(s, acts) == Some(s') && Inv(s') && OnlyTask(s, t, s') && s'.tasks[t].phase.Storing?
    decreases Rank(LocalOf(s, t))
  {
    var l := LocalOf(s, t);
    if l.task.phase.Storing? {
      return [], s;
    }
    EmptyingStep(s.config, s.clock, t, l);
    var c := Pick(l.task);
    var s1 := TakeStep(s, t, c, TaskStep(s.config, s.clock, t, l, c).value);
    var rest;
    rest, s' := EmptySlot(s1, t);
    OnlyTaskChain(s, t, s1, s');
    ExecOne(s, Step(t, c), s1, rest, s');
    acts := [Step(t, c)] + rest;
  }

  lemma SlotIsEmpty(s: State, t: TaskId, s': State)
    requires OnlyTask(s, t, s') && s.tasks[t].session in s.sessions
    requires SlotOk(s, s.tasks[t].session) && SlotOk(s', s.tasks[t].session)
    requires s.tasks[t].phase.Running? && s'.tasks[t].phase.Storing?
    ensures s'.sessions[s.tasks[t].session].slot == None
  {
  }

  // The next turn comes while the frame of `t` is still to be stored.
  lemma SubmitInGap(s: State, x: SessionRef, t: TaskId) returns (acts: seq<Action>, k: TaskId)
    requires Reachable(s) && x in s.sessions && IsStoring(s, x, t) && s.sessions[x].slot == None
    ensures GoesStale(s, acts, k)
  {
    ReachableInv(s);
    var a, s1;
    a, s1, k := SubmitTurn(s, x);
    ExecOne(s, a, s1, [], s1);
    ReachFurther(s, [a] + [], s1);
    assert IsStoring(s1, x, t) && Admits(s1, k);
    GoesStaleExactlyInGap(s1, k);
    var rest :| GoesStale(AfterAdmission(s1, k), rest, k);
    var s' := Exec(AfterAdmission(s1, k), rest).value;
    ExecOne(s1, Step(k, Go), AfterAdmission(s1, k), rest, s');
    ExecOne(s, a, s1, [Step(k, Go)] + rest, s');
    acts := [a] + ([Step(k, Go)] + rest);
  }

  // From every reachable state, on every object, a client that does not wait can get there.
  lemma StaleTerminalFrame(s: State, x: SessionRef) returns (acts: seq<Action>, k: TaskId)
    requires Reachable(s) && x in s.sessions && s.config.maxConcurrent > 0 && s.config.maxQueued > 0
    ensures GoesStale(s, acts, k)
  {
    ReachableInv(s);
    var a1, s1 := DrainAll(s);
    ReachFurther(s, a1, s1);
    QuiescentSlot(s1, x);
    QuiescentUser(s1, s1.sessions[x].userId);
    var a2, s2, t := RunTurn(s1, x);
    ReachFurther(s1, a2, s2);
    var a3, s3 := EmptySlot(s2, t);
    ReachFurther(s2, a3, s3);
    SlotIsEmpty(s2, t, s3);
    var a4;
    a4, k := SubmitInGap(s3, x, t);
    ExecAppend(s2, a3, a4);
    ExecAppend(s1, a2, a3 + a4);
    ExecAppend(s, a1, a2 + (a3 + a4));
    acts := a1 + (a2 + (a3 + a4));
  }
}
