/** What a cancel call does, and what the end of `run_turn` makes of a turn. */
module TurnOutcomes {
  import opened Common
  import opened TurnProtocol
  import opened TurnInvariants
  import opened TurnTheorems
  import opened TurnRuns

  // -------------------------------------------------------------------------
  // A cancel call reaches the turn whose slot it read
  // -------------------------------------------------------------------------

  // The call's target is fixed when it reads the slot; a turn once submitted never goes away.
  lemma NextKeepsTarget(s: State, a: Action, s': State, c: CancelId, t: TaskId)
    requires Next(s, a) == Some(s') && c in s.cancels && t in s.tasks
    ensures c in s'.cancels && s'.cancels[c].target == s.cancels[c].target && t in s'.tasks
    ensures s.tasks[t].cancelled ==> s'.tasks[t].cancelled
  {
    if a.Step? {
      var l := LocalOf(s, a.t);
      StepKeepsIdentity(s.config, s.clock, a.t, l, a.choice, TaskStep(s.config, s.clock, a.t, l, a.choice).value);
    } else {
      ActionIsQuiet(s, a, s');
    }
  }

  lemma {:induction false} ExecKeepsTarget(s: State, acts: seq<Action>, s': State, c: CancelId, t: TaskId)
    requires Exec(s, acts) == Some(s') && c in s.cancels && t in s.tasks
    ensures c in s'.cancels && s'.cancels[c].target == s.cancels[c].target && t in s'.tasks
    ensures s.tasks[t].cancelled ==> s'.tasks[t].cancelled
    decreases |acts|
  {
    if acts != [] {
      var s1 := Next(s, acts[0]).value;
      NextKeepsTarget(s, acts[0], s1, c, t);
      ExecKeepsTarget(s1, acts[1..], s', c, t);
    }
  }

  // Firing the call cancels its target's token, whatever that turn is doing.
  lemma FiringCancels(s: State, c: CancelId, s': State, t: TaskId)
    requires Next(s, CancelFire(c)) == Some(s') && s.cancels[c].target == Some(t) && t in s.tasks
    ensures t in s'.tasks && s'.tasks[t].cancelled
  {
  }

  /**
   A cancel call that reads the slot while a turn owns it cancels that turn, whatever happens before it
   fires, and the turn stays cancelled in every continuation.
   */
  lemma CancelReachesTheOwner(s: State, x: SessionRef, t: TaskId, c: CancelId, s1: State, acts: seq<Action>,
                              s2: State, s3: State, more: seq<Action>, s4: State)
    requires Reachable(s) && OwnerOf(s, x, t)
    requires Next(s, CancelRead(c, x)) == Some(s1) && Exec(s1, acts) == Some(s2)
    requires Next(s2, CancelFire(c)) == Some(s3) && Exec(s3, more) == Some(s4)
    ensures t in s3.tasks && s3.tasks[t].cancelled
    ensures t in s4.tasks && s4.tasks[t].cancelled
  {
    ActiveTurnHasOneOwner(s, x);
    ExecKeepsTarget(s1, acts, s2, c, t);
    FiringCancels(s2, c, s3, t);
    assert c in s3.cancels;
    ExecKeepsTarget(s3, more, s4, c, t);
  }

  // A call can always fire once after it has read; nothing the turns do prevents it.
  lemma CancelCanFire(s: State, c: CancelId)
    ensures Next(s, CancelFire(c)).Some? <==> c in s.cancels && !s.cancels[c].fired
  {
  }

  // -------------------------------------------------------------------------
  // A cancelled turn needs no permit to end
  // -------------------------------------------------------------------------

  // The way out of a cancelled turn that has no permit.
  predicate Leaving(l: Local) {
    && l.task.cancelled && !l.task.holds
    && match l.task.phase
       case Waiting => true
       case GaveUp => true
       case DroppingAcquire => true
       case NoPermit => true
       case Clearing(f) => f == TurnCancelled
       case Storing(f) => f == TurnCancelled
       case Publishing(f) => f == TurnCancelled
       case Releasing => true
       case _ => false
  }

  function Leave(task: Task): Choice {
    if task.phase.Waiting? then ObserveCancel else Go
  }

  function LeaveRank(p: Phase): nat {
    match p
    case Waiting => 8
    case GaveUp => 7
    case DroppingAcquire => 6
    case NoPermit => 5
    case Clearing(_) => 4
    case Storing(_) => 3
    case Publishing(_) => 2
    case Releasing => 1
    case _ => 0
  }

  lemma LeaveStep(config: Config, now: nat, me: TaskId, l: Local)
    requires Leaving(l)
    ensures TaskStep(config, now, me, l, Leave(l.task)).Some?
    ensures
      var l' := TaskStep(config, now, me, l, Leave(l.task)).value;
      && LeaveRank(l'.task.phase) < LeaveRank(l.task.phase)
      && (Leaving(l') || l'.task.phase.Finished?) && l'.user.free == l.user.free
  {
  }

  // A cancelled turn that waits for a permit can end at once, although none may be free.
  lemma CancelledWaiterCanLeave(s: State, t: TaskId) returns (acts: seq<Action>, s': State)
    requires Inv(s) && t in s.tasks && s.tasks[t].session in s.sessions && Leaving(LocalOf(s, t))
    ensures Exec(s, acts) == Some(s') && OnlyTask(s, t, s') && s'.tasks[t].phase.Finished?
    ensures LocalOf(s', t).user.free == LocalOf(s, t).user.free
    decreases LeaveRank(s.tasks[t].phase)
  {
    var l := LocalOf(s, t);
    LeaveStep(s.config, s.clock, t, l);
    var c := Leave(l.task);
    var s1 := TakeStep(s, t, c, TaskStep(s.config, s.clock, t, l, c).value);
    var rest: seq<Action>;
    if s1.tasks[t].phase.Finished? {
      rest, s' := [], s1;
    } else {
      rest, s' := CancelledWaiterCanLeave(s1, t);
      OnlyTaskChain(s, t, s1, s');
    }
    ExecOne(s, Step(t, c), s1, rest, s');
    acts := [Step(t, c)] + rest;
  }

  // -------------------------------------------------------------------------
  // What `run_turn` emits
  // -------------------------------------------------------------------------

  // The turn's own frames grow by the frame of the item, if it has one.
  lemma StreamPublishes(s: State, t: TaskId, item: StreamItem, s': State)
    requires Reachable(s) && Next(s, Step(t, Stream(item))) == Some(s')
    ensures s.tasks[t].phase.Running? && s'.tasks[t].phase.Running?
    ensures s.tasks[t].session in s.sessions && s'.tasks[t].session in s'.sessions
    ensures item.Text? ==> FramesOf(s', t) == FramesOf(s, t) + [AssistantDelta]
    ensures item.Progress? ==> FramesOf(s', t) == FramesOf(s, t) + [TurnProgress]
    ensures item.Media? ==> FramesOf(s', t) == FramesOf(s, t) + [MediaAttachment]
    ensures item.BudgetUpdate? || item.PolicyStopItem? || item.Ignored? ==> FramesOf(s', t) == FramesOf(s, t)
    ensures
      var before, after := s.sessions[s.tasks[t].session], s'.sessions[s.tasks[t].session];
      after.stopReason == if item.PolicyStopItem? then Some(PolicyStop) else before.stopReason
  {
    var log := s.sessions[s.tasks[t].session].log;
    OwnOfSnoc(log, t, AssistantDelta, t);
    OwnOfSnoc(log, t, TurnProgress, t);
    OwnOfSnoc(log, t, MediaAttachment, t);
  }

  // -------------------------------------------------------------------------
  // What the end of `run_turn` becomes
  // -------------------------------------------------------------------------

  // The frame tells how the turn ended.
  predicate Tells(o: Outcome, f: Frame) {
    && (f == TurnCompleted <==> o == Success)
    && (f == TurnCancelled <==> o == Cancelled)
    && (f == TurnError <==> o != Success && o != Cancelled)
  }

  predicate EndsAs(o: Outcome, task: Task, fs: seq<Frame>) {
    match task.phase
    case Stopping(e) => e == o
    case Clearing(f) => Tells(o, f)
    case Storing(f) => Tells(o, f)
    case Publishing(f) => Tells(o, f)
    case Releasing => fs != [] && Tells(o, fs[|fs| - 1])
    case Finished => fs != [] && Tells(o, fs[|fs| - 1])
    case _ => false
  }

  lemma EndsAsStep(config: Config, now: nat, me: TaskId, l: Local, c: Choice, l': Local, o: Outcome)
    requires TaskStep(config, now, me, l, c) == Some(l') && EndsAs(o, l.task, Own(l.session.log, me))
    ensures EndsAs(o, l'.task, Own(l'.session.log, me))
  {
    if l.task.phase.Publishing? {
      PublishingStep(config, now, me, l, c, l');
      OwnOfSnoc(l.session.log, me, l.task.phase.frame, me);
    } else {
      EndingIsQuiet(config, now, me, l, c, l', o);
    }
  }

  lemma EndingIsQuiet(config: Config, now: nat, me: TaskId, l: Local, c: Choice, l': Local, o: Outcome)
    requires TaskStep(config, now, me, l, c) == Some(l') && !l.task.phase.Publishing?
    requires EndsAs(o, l.task, Own(l.session.log, me))
    ensures l'.session.log == l.session.log && EndsAs(o, l'.task, Own(l.session.log, me))
  {
  }

  ghost predicate Ending(s: State, t: TaskId, o: Outcome) {
    t in s.tasks && s.tasks[t].session in s.sessions && EndsAs(o, s.tasks[t], FramesOf(s, t))
  }

  lemma NextKeepsEnding(s: State, a: Action, s': State, t: TaskId, o: Outcome)
    requires Ending(s, t, o) && Next(s, a) == Some(s')
    ensures Ending(s', t, o)
  {
    if a.Step? {
      var l := LocalOf(s, a.t);
      var l' := TaskStep(s.config, s.clock, a.t, l, a.choice).value;
      StepMoves(s, a.t, a.choice, l, l', s');
      if a.t == t {
        EndsAsStep(s.config, s.clock, t, l, a.choice, l', o);
      } else {
        BystanderKeeps(s, a.t, l, l', s', t);
      }
    } else {
      ActionIsQuiet(s, a, s');
    }
  }

  lemma {:induction false} ExecKeepsEnding(s: State, acts: seq<Action>, s': State, t: TaskId, o: Outcome)
    requires Ending(s, t, o) && Exec(s, acts) == Some(s')
    ensures Ending(s', t, o)
    decreases |acts|
  {
    if acts != [] {
      NextKeepsEnding(s, acts[0], Next(s, acts[0]).value, t, o);
      ExecKeepsEnding(Next(s, acts[0]).value, acts[1..], s', t, o);
    }
  }

  lemma FinishStep(config: Config, now: nat, me: TaskId, l: Local, o: Outcome, l': Local)
    requires TaskStep(config, now, me, l, Finish(o)) == Some(l')
    ensures l.task.phase.Running? && l'.task.phase == Stopping(o) && l'.task.session == l.task.session
  {
  }

  lemma FinishBeginsEnding(s: State, t: TaskId, o: Outcome, s1: State)
    requires Next(s, Step(t, Finish(o))) == Some(s1)
    ensures Ending(s1, t, o) && s1.tasks[t].phase == Stopping(o)
  {
    var l := LocalOf(s, t);
    FinishStep(s.config, s.clock, t, l, o, TaskStep(s.config, s.clock, t, l, Finish(o)).value);
  }

  /**
   When `run_turn` has ended with `o`, then in every continuation the turn's last frame, once it is out,
   tells `o`, and so does the stored terminal frame if it is this turn's.
   */
  lemma OutcomeIsTold(s: State, t: TaskId, o: Outcome, s1: State, acts: seq<Action>, s2: State)
    requires Reachable(s) && Next(s, Step(t, Finish(o))) == Some(s1) && Exec(s1, acts) == Some(s2)
    ensures t in s2.tasks && s2.tasks[t].session in s2.sessions
    ensures
      var fs := FramesOf(s2, t);
      s2.tasks[t].phase.Finished? ==> fs != [] && Tells(o, fs[|fs| - 1])
    ensures
      var latest := s2.sessions[s2.tasks[t].session].latest;
      latest.Some? && latest.value.0 == t ==> Tells(o, latest.value.1)
  {
    FinishBeginsEnding(s, t, o, s1);
    ExecKeepsEnding(s1, acts, s2, t, o);
    ExecOne(s, Step(t, Finish(o)), s1, acts, s2);
    ReachFurther(s, [Step(t, Finish(o))] + acts, s2);
    LatestFrameIsGenuine(s2, s2.tasks[t].session);
  }

  // The stop reason of an outcome.
  predicate Explains(o: Outcome, r: StopReason) {
    && (r == StopCompleted <==> o == Success)
    && (r == StopCancelled <==> o == Cancelled)
    && (r == MaxBudget <==> o == BudgetExceeded)
    && (r == MaxTurns <==> o == TurnLimitExceeded)
    && (r == MaxRuntime <==> o == DeadlineExceeded)
    && (r == StopError <==> o == OtherError || o == Panicked)
  }

  // Only the turn in `run_turn` or just behind it writes the stop reason.
  lemma StepAndReason(config: Config, now: nat, me: TaskId, l: Local, c: Choice, l': Local)
    requires TaskStep(config, now, me, l, c) == Some(l')
    ensures l'.session.stopReason != l.session.stopReason ==> l.task.phase.Running? || l.task.phase.Stopping?
    ensures l.task.phase.Stopping? ==>
              && l'.task.phase.Clearing? && l'.session.stopReason.Some?
              && Explains(l.task.phase.outcome, l'.session.stopReason.value)
    ensures l'.task.phase.Clearing? ==> l.task.phase.Stopping? || l.task.phase.NoPermit? || l.task.phase.CheckingCancel?
  {
  }

  ghost predicate ReasonStands(s: State, t: TaskId, o: Outcome) {
    && Ending(s, t, o)
    && var reason := s.sessions[s.tasks[t].session].stopReason;
    s.tasks[t].phase.Clearing? ==> reason.Some? && Explains(o, reason.value)
  }

  lemma OwnStepKeepsReason(s: State, t: TaskId, c: Choice, s': State, o: Outcome)
    requires ReasonStands(s, t, o) && Next(s, Step(t, c)) == Some(s') && Ending(s', t, o)
    ensures ReasonStands(s', t, o)
  {
    var l := LocalOf(s, t);
    StepAndReason(s.config, s.clock, t, l, c, TaskStep(s.config, s.clock, t, l, c).value);
  }

  // While `t` is to empty the slot, no other turn of its session writes the reason.
  lemma OthersLeaveReason(s: State, k: TaskId, c: Choice, s': State, t: TaskId)
    requires k != t && t in s.tasks && s.tasks[t].session in s.sessions && s.tasks[t].phase.Clearing?
    requires SlotOk(s, s.tasks[t].session) && Next(s, Step(k, c)) == Some(s')
    ensures s.tasks[t].session in s'.sessions
    ensures s'.sessions[s.tasks[t].session].stopReason == s.sessions[s.tasks[t].session].stopReason
  {
    var l := LocalOf(s, k);
    StepAndReason(s.config, s.clock, k, l, c, TaskStep(s.config, s.clock, k, l, c).value);
  }

  lemma OtherStepKeepsReason(s: State, k: TaskId, c: Choice, s': State, t: TaskId, o: Outcome)
    requires k != t && ReasonStands(s, t, o) && SlotOk(s, s.tasks[t].session)
    requires Next(s, Step(k, c)) == Some(s') && Ending(s', t, o)
    ensures ReasonStands(s', t, o)
  {
    StepIsOnlyTask(s, k, c, s');
    if s.tasks[t].phase.Clearing? {
      OthersLeaveReason(s, k, c, s', t);
    }
  }

  lemma StepKeepsReason(s: State, k: TaskId, c: Choice, s': State, t: TaskId, o: Outcome)
    requires Inv(s) && ReasonStands(s, t, o) && Next(s, Step(k, c)) == Some(s') && Ending(s', t, o)
    ensures ReasonStands(s', t, o)
  {
    if k == t {
      OwnStepKeepsReason(s, t, c, s', o);
    } else {
      assert SlotOk(s, s.tasks[t].session);
      OtherStepKeepsReason(s, k, c, s', t, o);
    }
  }

  lemma {:induction false} ExecKeepsReason(s: State, acts: seq<Action>, s': State, t: TaskId, o: Outcome)
    requires Inv(s) && ReasonStands(s, t, o) && Exec(s, acts) == Some(s')
    ensures ReasonStands(s', t, o)
    decreases |acts|
  {
    if acts != [] {
      var a, s1 := acts[0], Next(s, acts[0]).value;
      NextKeepsInv(s, a, s1);
      NextKeepsEnding(s, a, s1, t, o);
      if a.Step? {
        StepKeepsReason(s, a.t, a.choice, s1, t, o);
      } else {
        ActionIsQuiet(s, a, s1);
      }
      ExecKeepsReason(s1, acts[1..], s', t, o);
    }
  }

  /** When the turn goes on to empty its slot, the session's stop reason is that of its outcome. */
  lemma StopReasonIsTheOutcomes(s: State, t: TaskId, o: Outcome, s1: State, acts: seq<Action>, s2: State)
    requires Reachable(s) && Next(s, Step(t, Finish(o))) == Some(s1) && Exec(s1, acts) == Some(s2)
    ensures t in s2.tasks && s2.tasks[t].session in s2.sessions
    ensures
      var reason := s2.sessions[s2.tasks[t].session].stopReason;
      s2.tasks[t].phase.Clearing? ==> reason.Some? && Explains(o, reason.value)
  {
    ReachableInv(s);
    StepKeepsInv(s, t, Finish(o), s1);
    FinishBeginsEnding(s, t, o, s1);
    ExecKeepsReason(s1, acts, s2, t, o);
  }
}
