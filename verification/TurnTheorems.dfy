/** What holds in every interleaving of submits, cancels and turn tasks. */
module TurnTheorems {
  import opened Common
  import opened TurnProtocol
  import opened TurnInvariants

  // -------------------------------------------------------------------------
  // One owner per session object
  // -------------------------------------------------------------------------

  predicate OwnerOf(s: State, x: SessionRef, t: TaskId) {
    t in s.tasks && s.tasks[t].session == x && Owns(s.tasks[t].phase)
  }

  // `active_turn` is set exactly while one task owns it, and it names that task.
  lemma ActiveTurnHasOneOwner(s: State, x: SessionRef)
    requires Reachable(s) && x in s.sessions
    ensures s.sessions[x].slot == None <==> forall t :: !OwnerOf(s, x, t)
    ensures forall t :: OwnerOf(s, x, t) ==> s.sessions[x].slot == Some(ActiveTurn(s.tasks[t].turnId, t))
    ensures forall t, t' :: OwnerOf(s, x, t) && OwnerOf(s, x, t') ==> t == t'
  {
    ReachableInv(s);
    assert SlotOk(s, x);
    if s.sessions[x].slot.Some? {
      assert OwnerOf(s, x, s.sessions[x].slot.value.token);
    }
  }

  // Two calls of `run_turn` on the same session object never overlap, whatever the turn ids are.
  lemma RunTurnIsExclusive(s: State, t: TaskId, t': TaskId)
    requires Reachable(s) && t in s.tasks && t' in s.tasks
    requires s.tasks[t].phase.Running? && s.tasks[t'].phase.Running?
    ensures t != t' ==> s.tasks[t].session != s.tasks[t'].session
  {
    ReachableInv(s);
    assert TaskOk(s, t) && TaskOk(s, t');
    assert SlotOk(s, s.tasks[t].session);
  }

  // A slot changes while set only when its own task clears it or rolls it back.
  lemma OnlyTheOwnerClears(s: State, a: Action, s': State, x: SessionRef)
    requires Reachable(s) && Next(s, a) == Some(s')
    requires x in s.sessions && s.sessions[x].slot.Some?
    requires x in s'.sessions ==> s'.sessions[x].slot != s.sessions[x].slot
    ensures a.Step? && a.t == s.sessions[x].slot.value.token
    ensures s.tasks[a.t].phase.RollingBack? || s.tasks[a.t].phase.Clearing?
    ensures x in s'.sessions && s'.sessions[x].slot == None
  {
    ReachableInv(s);
    assert SlotOk(s, x);
    if a.Step? {
      var l := LocalOf(s, a.t);
      var l' := TaskStep(s.config, s.clock, a.t, l, a.choice).value;
      StepMoves(s, a.t, a.choice, l, l', s');
      if l.task.session == x {
        StepMovesSlot(s.config, s.clock, a.t, l, a.choice, l');
        LosingOwnership(s.config, s.clock, a.t, l, a.choice, l');
      }
    }
  }

  lemma LosingOwnership(config: Config, now: nat, me: TaskId, l: Local, c: Choice, l': Local)
    requires TaskStep(config, now, me, l, c) == Some(l')
    requires Owns(l.task.phase) && !Owns(l'.task.phase)
    ensures l.task.phase.RollingBack? || l.task.phase.Clearing?
  {
  }

  // The comparison of turn ids in the clearing section always succeeds, and the section empties the slot.
  lemma ClearingFindsItsOwnTurn(s: State, t: TaskId, s': State)
    requires Reachable(s) && Next(s, Step(t, Go)) == Some(s')
    requires s.tasks[t].phase.Clearing? || s.tasks[t].phase.RollingBack?
    ensures s.tasks[t].session in s.sessions
    ensures s.sessions[s.tasks[t].session].slot == Some(ActiveTurn(s.tasks[t].turnId, t))
    ensures s'.sessions[s.tasks[t].session].slot == None
  {
    ReachableInv(s);
    assert TaskOk(s, t);
    assert SlotOk(s, s.tasks[t].session);
  }

  // -------------------------------------------------------------------------
  // Queue and permits
  // -------------------------------------------------------------------------

  function RunningTasks(s: State, userId: string): set<TaskId> {
    set t | t in s.tasks && OfUser(s, t, userId) && s.tasks[t].phase.Running?
  }

  lemma QueueAndPermitsAreAccounted(s: State, userId: string)
    requires Reachable(s)
    ensures UserOf(s, userId).queued == |QueuedTasks(s, userId)| <= s.config.maxQueued
    ensures UserOf(s, userId).free + |Holders(s, userId)| == s.config.maxConcurrent
    ensures RunningTasks(s, userId) <= Holders(s, userId)
    ensures |RunningTasks(s, userId)| <= s.config.maxConcurrent
  {
    ReachableInv(s);
    assert UserOk(s, userId);
    forall t | t in RunningTasks(s, userId) ensures t in Holders(s, userId) {
      assert TaskOk(s, t);
    }
    SubsetSize(RunningTasks(s, userId), Holders(s, userId));
  }

  lemma SubsetSize(a: set<TaskId>, b: set<TaskId>)
    requires a <= b
    ensures |a| <= |b|
  {
    assert b == a + (b - a);
  }

  // `fetch_sub` never meets a zero counter.
  lemma FetchSubNeverUnderflows(s: State, t: TaskId)
    requires Reachable(s) && t in s.tasks && (s.tasks[t].phase.TookPermit? || s.tasks[t].phase.GaveUp?)
    ensures s.tasks[t].session in s.sessions
    ensures UserOf(s, s.sessions[s.tasks[t].session].userId).queued > 0
  {
    ReachableInv(s);
    assert TaskOk(s, t);
    var u := s.sessions[s.tasks[t].session].userId;
    assert UserOk(s, u);
    assert t in QueuedTasks(s, u);
  }

  // -------------------------------------------------------------------------
  // Published frames
  // -------------------------------------------------------------------------

  // A turn's frames are always the beginning of one complete trace, and the whole of one when it finished.
  lemma FramesFollowTheProtocol(s: State, t: TaskId)
    requires Reachable(s) && t in s.tasks
    ensures s.tasks[t].session in s.sessions
    ensures exists rest :: ClosedTrace(FramesOf(s, t) + rest)
    ensures s.tasks[t].phase.Finished? ==> ClosedTrace(FramesOf(s, t))
    ensures s.tasks[t].phase.Rejected? || s.tasks[t].phase.RolledBack? ==> FramesOf(s, t) == []
    ensures s.tasks[t].phase.Running? ==> OpenTrace(FramesOf(s, t))
    ensures s.tasks[t].phase.NoPermit? ==> s.tasks[t].cancelled
  {
    ReachableInv(s);
    assert TaskOk(s, t);
    Completable(s.tasks[t].phase, FramesOf(s, t));
  }

  lemma Completable(p: Phase, fs: seq<Frame>)
    requires TraceOk(p, fs)
    ensures exists rest :: ClosedTrace(fs + rest)
  {
    if ClosedTrace(fs) {
      assert fs + [] == fs;
      assert ClosedTrace(fs + []);
    } else if fs == [] {
      assert ClosedTrace(fs + [TurnCancelled]);
    } else {
      assert (fs + [TurnError])[..|fs|] == fs;
      assert ClosedTrace(fs + [TurnError]);
    }
  }

  // A complete trace has its terminal frame at the end and nowhere else.
  lemma TerminalFrameIsLast(fs: seq<Frame>, i: nat)
    requires ClosedTrace(fs) && i < |fs|
    ensures Terminal(fs[i]) <==> i == |fs| - 1
    ensures fs[i] == TurnStarted ==> i == 0
  {
    if i < |fs| - 1 {
      assert fs[..|fs| - 1][i] == fs[i];
    }
  }

  // -------------------------------------------------------------------------
  // Cancellation
  // -------------------------------------------------------------------------

  // Not yet past the test of the token that follows the permit.
  predicate BeforeCheck(p: Phase) {
    || p.Admitted? || p.Resolving? || p.Enqueueing? || p.Comparing? || p.RollingBack?
    || p.Waiting? || p.TookPermit? || p.GaveUp? || p.DroppingAcquire? || p.NoPermit? || p.CheckingCancel?
  }

  // The futures of a turn whose token was cancelled in time.
  predicate Doomed(task: Task, fs: seq<Frame>) {
    && task.cancelled
    && match task.phase
       case Clearing(f) => f == TurnCancelled && fs == []
       case Storing(f) => f == TurnCancelled && fs == []
       case Publishing(f) => f == TurnCancelled && fs == []
       case Releasing => fs == [TurnCancelled]
       case Finished => fs == [TurnCancelled]
       case RolledBack => fs == []
       case _ => BeforeCheck(task.phase) && fs == []
  }

  lemma DoomedStep(config: Config, now: nat, me: TaskId, l: Local, c: Choice, l': Local)
    requires TaskStep(config, now, me, l, c) == Some(l')
    requires Doomed(l.task, Own(l.session.log, me))
    ensures Doomed(l'.task, Own(l'.session.log, me))
  {
    if l.task.phase.Publishing? {
      OwnOfSnoc(l.session.log, me, TurnCancelled, me);
    }
  }

  lemma DoomedNext(s: State, a: Action, s': State, t: TaskId)
    requires Next(s, a) == Some(s') && t in s.tasks && s.tasks[t].session in s.sessions
    requires Doomed(s.tasks[t], FramesOf(s, t))
    ensures t in s'.tasks && s'.tasks[t].session in s'.sessions
    ensures Doomed(s'.tasks[t], FramesOf(s', t))
  {
    if a.Step? {
      var l := LocalOf(s, a.t);
      var l' := TaskStep(s.config, s.clock, a.t, l, a.choice).value;
      StepMoves(s, a.t, a.choice, l, l', s');
      if a.t == t {
        DoomedStep(s.config, s.clock, t, l, a.choice, l');
      } else {
        BystanderKeeps(s, a.t, l, l', s', t);
      }
    } else if a.OpenSession? || a.Submit? {
      OpeningIsQuiet(s, a, s');
    } else {
      CancellingIsQuiet(s, a, s');
    }
  }

  lemma BystanderKeeps(s: State, t: TaskId, l: Local, l': Local, s': State, k: TaskId)
    requires Moved(s, t, l, l', s') && k in s.tasks && k != t && s.tasks[k].session in s.sessions
    ensures k in s'.tasks && s'.tasks[k] == s.tasks[k] && s'.tasks[k].session in s'.sessions
    ensures FramesOf(s', k) == FramesOf(s, k)
  {
    OthersTraceUnchanged(l, l', t, k);
  }

  lemma {:induction false} DoomedRun(s: State, acts: seq<Action>, s': State, t: TaskId)
    requires Exec(s, acts) == Some(s') && t in s.tasks && s.tasks[t].session in s.sessions
    requires Doomed(s.tasks[t], FramesOf(s, t))
    ensures t in s'.tasks && s'.tasks[t].session in s'.sessions
    ensures Doomed(s'.tasks[t], FramesOf(s', t))
    decreases |acts|
  {
    if acts != [] {
      var s1 := Next(s, acts[0]).value;
      DoomedNext(s, acts[0], s1, t);
      DoomedRun(s1, acts[1..], s', t);
    }
  }

  // A token cancelled before the check after the permit: no TurnStarted, no `run_turn`, in any continuation.
  lemma CancelledInTimeNeverStarts(s: State, acts: seq<Action>, s': State, t: TaskId)
    requires Reachable(s) && Exec(s, acts) == Some(s')
    requires t in s.tasks && s.tasks[t].cancelled && BeforeCheck(s.tasks[t].phase)
    ensures t in s'.tasks && s'.tasks[t].session in s'.sessions
    ensures !s'.tasks[t].phase.Running? && !s'.tasks[t].phase.Starting?
    ensures FramesOf(s', t) == [] || FramesOf(s', t) == [TurnCancelled]
    ensures s'.tasks[t].phase.Finished? ==> FramesOf(s', t) == [TurnCancelled]
  {
    ReachableInv(s);
    assert TaskOk(s, t);
    DoomedRun(s, acts, s', t);
  }

  // Firing a cancel call changes no turn admitted at or after the moment it read the slot.
  lemma CancelSparesLaterTurns(s: State, c: CancelId, s': State, t: TaskId)
    requires Reachable(s) && Next(s, CancelFire(c)) == Some(s')
    requires t in s.tasks && (s.tasks[t].admittedAt >= s.cancels[c].readAt || !Admittance(s.tasks[t].phase))
    ensures s'.tasks[t] == s.tasks[t]
  {
    assert c in s.cancels;
    ReachableCancelOk(s, c);
    FiringSparesLater(s, c, s', t);
  }

  lemma ReachableCancelOk(s: State, c: CancelId)
    requires Reachable(s) && c in s.cancels
    ensures CancelOk(s, c)
  {
    ReachableInv(s);
  }

  lemma FiringSparesLater(s: State, c: CancelId, s': State, t: TaskId)
    requires c in s.cancels && CancelOk(s, c) && Next(s, CancelFire(c)) == Some(s')
    requires t in s.tasks && (s.tasks[t].admittedAt >= s.cancels[c].readAt || !Admittance(s.tasks[t].phase))
    ensures s'.tasks[t] == s.tasks[t]
  {
  }

  // Every cancelled token was named by a call that read the slot after the turn was admitted.
  lemma CancelledByAnEarlierRead(s: State, t: TaskId)
    requires Reachable(s) && t in s.tasks && s.tasks[t].cancelled
    ensures exists c ::
        c in s.cancels && s.cancels[c].fired && s.cancels[c].target == Some(t)
        && s.cancels[c].session == s.tasks[t].session
        && s.tasks[t].admittedAt < s.cancels[c].readAt
  {
    ReachableInv(s);
    assert TokenOk(s, t);
    var c :| c in s.cancels && s.cancels[c].fired && s.cancels[c].target == Some(t);
    assert CancelOk(s, c);
  }

  // -------------------------------------------------------------------------
  // Draining: no interleaving leads into a deadlock or leaks a slot, a queue place or a permit
  // -------------------------------------------------------------------------

  // The task has its permit still to get.
  predicate Early(p: Phase) {
    p.Submitted? || p.Admitted? || p.Resolving? || p.Enqueueing? || p.Comparing? || p.Waiting?
  }

  predicate CanProceed(l: Local) {
    Early(l.task.phase) && !l.task.holds ==> l.user.free > 0
  }

  function Pick(task: Task): Choice {
    match task.phase
    case Waiting => if task.holds then TakePermit else Acquire
    case Running => Finish(Success)
    case _ => Go
  }

  function Rank(l: Local): nat {
    match l.task.phase
    case Submitted => 40
    case Admitted => 39
    case Resolving => 38
    case Comparing(seen) => if seen == l.user.queued then 35 else 37
    case Enqueueing => 36
    case Waiting => if l.task.holds then 30 else 31
    case TookPermit => 29
    case GaveUp => 29
    case DroppingAcquire => 28
    case NoPermit => 27
    case CheckingCancel => 27
    case Starting => 26
    case Running => 25
    case Stopping(_) => 24
    case Clearing(_) => 23
    case Storing(_) => 22
    case Publishing(_) => 21
    case Releasing => 20
    case RollingBack => 1
    case Rejected => 0
    case RolledBack => 0
    case Finished => 0
  }

  lemma LocalProgress(config: Config, now: nat, me: TaskId, l: Local)
    requires !Ended(l.task.phase) && CanProceed(l)
    ensures TaskStep(config, now, me, l, Pick(l.task)).Some?
    ensures
      var l' := TaskStep(config, now, me, l, Pick(l.task)).value;
      Rank(l') < Rank(l) && CanProceed(l')
  {
  }

  // A task that is not starved of permits can be run to its end while all others stand still.
  lemma Drive(s: State, t: TaskId) returns (acts: seq<Action>, s': State)
    requires Inv(s) && t in s.tasks && s.tasks[t].session in s.sessions && CanProceed(LocalOf(s, t))
    ensures Exec(s, acts) == Some(s') && Inv(s')
    ensures s'.config == s.config && s'.tasks.Keys == s.tasks.Keys && Ended(s'.tasks[t].phase)
    ensures forall k :: k in s.tasks && k != t ==> s'.tasks[k] == s.tasks[k]
    decreases Rank(LocalOf(s, t))
  {
    var l := LocalOf(s, t);
    if Ended(l.task.phase) {
      return [], s;
    }
    var c := Pick(l.task);
    LocalProgress(s.config, s.clock, t, l);
    var l' := TaskStep(s.config, s.clock, t, l, c).value;
    var s1 := Write(s, t, l');
    StepMoves(s, t, c, l, l', s1);
    StepKeepsInv(s, t, c, s1);
    assert LocalOf(s1, t) == l';
    var rest;
    rest, s' := Drive(s1, t);
    acts := [Step(t, c)] + rest;
    assert acts[1..] == rest;
  }

  function Unfinished(s: State): set<TaskId> {
    set t | t in s.tasks && !Ended(s.tasks[t].phase)
  }

  lemma HoldersAreUnfinished(s: State, t: TaskId)
    requires Inv(s) && t in s.tasks
    ensures s.tasks[t].session in s.sessions
    ensures s.tasks[t].holds ==> !Ended(s.tasks[t].phase)
  {
    assert TaskOk(s, t);
  }

  lemma SomeoneHolds(s: State, u: string) returns (k: TaskId)
    requires UserOk(s, u) && s.config.maxConcurrent > 0 && UserOf(s, u).free == 0
    ensures k in s.tasks && s.tasks[k].holds
  {
    assert Holders(s, u) != {};
    k :| k in Holders(s, u);
  }

  // Somebody who can be driven to the end: the task itself, or a holder of the permit it waits for.
  lemma SomeoneCanProceed(s: State, t: TaskId) returns (k: TaskId)
    requires Inv(s) && s.config.maxConcurrent > 0 && t in Unfinished(s)
    ensures k in Unfinished(s) && s.tasks[k].session in s.sessions && CanProceed(LocalOf(s, k))
  {
    HoldersAreUnfinished(s, t);
    k := t;
    if !CanProceed(LocalOf(s, t)) {
      k := SomeoneHolds(s, LocalOf(s, t).session.userId);
      HoldersAreUnfinished(s, k);
    }
  }

  lemma {:induction false} ExecAppend(s: State, a: seq<Action>, b: seq<Action>)
    requires Exec(s, a).Some?
    ensures Exec(s, a + b) == Exec(Exec(s, a).value, b)
    decreases |a|
  {
    if a == [] {
      assert a + b == b;
    } else {
      assert (a + b)[0] == a[0] && (a + b)[1..] == a[1..] + b;
      ExecAppend(Next(s, a[0]).value, a[1..], b);
    }
  }

  lemma DrivenIsRemoved(s: State, s': State, k: TaskId)
    requires s'.tasks.Keys == s.tasks.Keys && k in Unfinished(s) && Ended(s'.tasks[k].phase)
    requires forall t :: t in s.tasks && t != k ==> s'.tasks[t] == s.tasks[t]
    ensures |Unfinished(s')| < |Unfinished(s)|
  {
    assert forall t :: t in s'.tasks <==> t in s.tasks.Keys;
    assert Unfinished(s') == Unfinished(s) - {k};
  }

  lemma DrainAll(s: State) returns (acts: seq<Action>, s': State)
    requires Inv(s) && s.config.maxConcurrent > 0
    ensures Exec(s, acts) == Some(s') && Inv(s') && s'.config == s.config && s'.tasks.Keys == s.tasks.Keys
    ensures Unfinished(s') == {}
    decreases |Unfinished(s)|
  {
    if Unfinished(s) == {} {
      return [], s;
    }
    var t :| t in Unfinished(s);
    var k := SomeoneCanProceed(s, t);
    var first, s1 := Drive(s, k);
    DrivenIsRemoved(s, s1, k);
    var rest;
    rest, s' := DrainAll(s1);
    ExecAppend(s, first, rest);
    acts := first + rest;
  }

  lemma NothingUnfinished(s: State, t: TaskId)
    requires Unfinished(s) == {} && t in s.tasks
    ensures Ended(s.tasks[t].phase)
  {
    assert t !in Unfinished(s);
  }

  // With every task at its end, a slot is free ...
  lemma QuiescentSlot(s: State, x: SessionRef)
    requires x in s.sessions && SlotOk(s, x) && Unfinished(s) == {}
    ensures s.sessions[x].slot == None
  {
    if s.sessions[x].slot.Some? {
      NothingUnfinished(s, s.sessions[x].slot.value.token);
    }
  }

  // ... the queue is empty and all permits are back.
  lemma QuiescentUser(s: State, u: string)
    requires Inv(s) && Unfinished(s) == {}
    ensures UserOf(s, u) == User(0, s.config.maxConcurrent)
  {
    assert UserOk(s, u);
    forall t | t in s.tasks ensures t !in QueuedTasks(s, u) && t !in Holders(s, u) {
      NothingUnfinished(s, t);
      HoldersAreUnfinished(s, t);
    }
    assert QueuedTasks(s, u) == {} && Holders(s, u) == {};
  }

  ghost predicate Clean(s: State) {
    && (forall t :: t in s.tasks ==> Ended(s.tasks[t].phase))
    && (forall x :: x in s.sessions ==> s.sessions[x].slot == None)
    && (forall u :: UserOf(s, u) == User(0, s.config.maxConcurrent))
  }

  lemma QuiescentIsClean(s: State)
    requires Inv(s) && Unfinished(s) == {}
    ensures Clean(s)
  {
    forall t | t in s.tasks ensures Ended(s.tasks[t].phase) {
      NothingUnfinished(s, t);
    }
    forall x | x in s.sessions ensures s.sessions[x].slot == None {
      QuiescentSlot(s, x);
    }
    forall u ensures UserOf(s, u) == User(0, s.config.maxConcurrent) {
      QuiescentUser(s, u);
    }
  }

  // From every reachable state all turns can still end, leaving nothing behind.
  lemma EveryRunCanDrain(s: State)
    requires Reachable(s) && s.config.maxConcurrent > 0
    ensures exists acts ::
              Exec(s, acts).Some? && Exec(s, acts).value.tasks.Keys == s.tasks.Keys && Clean(Exec(s, acts).value)
  {
    ReachableInv(s);
    var acts, s' := DrainAll(s);
    QuiescentIsClean(s');
    assert Exec(s, acts).value == s';
  }
}
