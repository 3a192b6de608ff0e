/** What every atomic step of the turn protocol keeps. */
module TurnInvariants {
  import opened Common
  import opened TurnProtocol

  // -------------------------------------------------------------------------
  // Roles of the phases
  // -------------------------------------------------------------------------

  // From admission until the task's own clearing or roll-back of the slot.
  predicate Owns(p: Phase) {
    match p
    case Submitted => false
    case Rejected => false
    case RolledBack => false
    case Storing(_) => false
    case Publishing(_) => false
    case Releasing => false
    case Finished => false
    case _ => true
  }

  // From the successful compare_exchange until fetch_sub.
  predicate Queued(p: Phase) {
    p.Waiting? || p.TookPermit? || p.GaveUp?
  }

  // Phases in which the task certainly has its permit, certainly has none, or may have one.
  predicate MustHold(p: Phase) {
    p.TookPermit? || p.CheckingCancel? || p.Starting? || p.Running? || p.Stopping?
  }

  predicate MayHold(p: Phase) {
    MustHold(p) || p.Waiting? || p.GaveUp? || p.DroppingAcquire?
    || p.Clearing? || p.Storing? || p.Publishing? || p.Releasing?
  }

  // The turn went without permit, which happens only after its token was cancelled.
  predicate Gone(p: Phase) {
    p.GaveUp? || p.DroppingAcquire? || p.NoPermit?
  }

  predicate Ended(p: Phase) {
    p.Rejected? || p.RolledBack? || p.Finished?
  }

  // -------------------------------------------------------------------------
  // Invariants
  // -------------------------------------------------------------------------

  ghost predicate SlotOk(s: State, x: SessionRef)
    requires x in s.sessions
  {
    match s.sessions[x].slot
    case None => forall t :: t in s.tasks && s.tasks[t].session == x ==> !Owns(s.tasks[t].phase)
    case Some(a) =>
      && a.token in s.tasks
      && s.tasks[a.token].session == x
      && s.tasks[a.token].turnId == a.turnId
      && Owns(s.tasks[a.token].phase)
      && forall t :: t in s.tasks && s.tasks[t].session == x && Owns(s.tasks[t].phase) ==> t == a.token
  }

  predicate OfUser(s: State, t: TaskId, userId: string) {
    t in s.tasks && s.tasks[t].session in s.sessions && s.sessions[s.tasks[t].session].userId == userId
  }

  function QueuedTasks(s: State, userId: string): set<TaskId> {
    set t | t in s.tasks && OfUser(s, t, userId) && Queued(s.tasks[t].phase)
  }

  function Holders(s: State, userId: string): set<TaskId> {
    set t | t in s.tasks && OfUser(s, t, userId) && s.tasks[t].holds
  }

  ghost predicate UserOk(s: State, userId: string) {
    && UserOf(s, userId).queued == |QueuedTasks(s, userId)|
    && UserOf(s, userId).queued <= s.config.maxQueued
    && UserOf(s, userId).free + |Holders(s, userId)| == s.config.maxConcurrent
  }

  // Frames of a turn that is under way.
  predicate OpenTrace(fs: seq<Frame>) {
    |fs| > 0 && fs[0] == TurnStarted && forall i :: 1 <= i < |fs| ==> Streamed(fs[i])
  }

  // Frames of a turn that is over: a lone cancellation, or a start, a stream and one terminal frame.
  predicate ClosedTrace(fs: seq<Frame>) {
    fs == [TurnCancelled] || (|fs| > 1 && OpenTrace(fs[..|fs| - 1]) && Terminal(fs[|fs| - 1]))
  }

  predicate TraceOk(p: Phase, fs: seq<Frame>) {
    match p
    case Running => OpenTrace(fs)
    case Stopping(_) => OpenTrace(fs)
    case Clearing(f) => Terminal(f) && ((fs == [] && f == TurnCancelled) || OpenTrace(fs))
    case Storing(f) => Terminal(f) && ((fs == [] && f == TurnCancelled) || OpenTrace(fs))
    case Publishing(f) => Terminal(f) && ((fs == [] && f == TurnCancelled) || OpenTrace(fs))
    case Releasing => ClosedTrace(fs)
    case Finished => ClosedTrace(fs)
    case _ => fs == []
  }

  predicate TaskFacts(t: Task) {
    && (MustHold(t.phase) ==> t.holds)
    && (t.holds ==> MayHold(t.phase))
    && (Gone(t.phase) ==> t.cancelled)
  }

  predicate SeenOk(config: Config, p: Phase) {
    p.Comparing? ==> p.seen < config.maxQueued
  }

  ghost predicate TaskOk(s: State, t: TaskId)
    requires t in s.tasks
  {
    && s.tasks[t].session in s.sessions
    && TaskFacts(s.tasks[t])
    && SeenOk(s.config, s.tasks[t].phase)
    && TraceOk(s.tasks[t].phase, FramesOf(s, t))
    && (Admittance(s.tasks[t].phase) ==> s.tasks[t].admittedAt < s.clock)
  }

  // The task has been admitted at some time.
  predicate Admittance(p: Phase) {
    !p.Submitted? && !p.Rejected?
  }

  // A published frame comes from a task of that session.
  ghost predicate LogOk(s: State, x: SessionRef)
    requires x in s.sessions
  {
    forall i :: 0 <= i < |s.sessions[x].log| ==>
      s.sessions[x].log[i].0 in s.tasks && s.tasks[s.sessions[x].log[i].0].session == x
  }

  // A cancel call names a turn admitted before the call read the slot.
  ghost predicate CancelOk(s: State, c: CancelId)
    requires c in s.cancels
  {
    var k := s.cancels[c];
    && k.readAt < s.clock
    && (k.target.Some? ==>
          && k.target.value in s.tasks
          && s.tasks[k.target.value].session == k.session
          && Admittance(s.tasks[k.target.value].phase)
          && s.tasks[k.target.value].admittedAt < k.readAt)
  }

  // A token is cancelled only by a call that fired at it.
  ghost predicate TokenOk(s: State, t: TaskId)
    requires t in s.tasks
  {
    s.tasks[t].cancelled ==>
      exists c :: c in s.cancels && s.cancels[c].fired && s.cancels[c].target == Some(t)
  }

  ghost predicate Inv(s: State) {
    && (forall x :: x in s.sessions ==> SlotOk(s, x) && LogOk(s, x))
    && (forall t :: t in s.tasks ==> TaskOk(s, t) && TokenOk(s, t))
    && (forall c :: c in s.cancels ==> CancelOk(s, c))
    && (forall u :: UserOk(s, u))
  }

  // -------------------------------------------------------------------------
  // One step of one task, seen locally
  // -------------------------------------------------------------------------

  predicate LogGrows(l: Local, l': Local, me: TaskId) {
    l'.session.log == l.session.log ||
    (|l'.session.log| == |l.session.log| + 1 && l'.session.log[..|l.session.log|] == l.session.log &&
     l'.session.log[|l.session.log|].0 == me)
  }

  // The step keeps the task's identity and its session's identity.
  lemma StepKeepsIdentity(config: Config, now: nat, me: TaskId, l: Local, c: Choice, l': Local)
    requires TaskStep(config, now, me, l, c) == Some(l')
    ensures l'.task.session == l.task.session && l'.task.turnId == l.task.turnId
    ensures l'.task.cancelled == l.task.cancelled
    ensures l'.session.userId == l.session.userId && l'.session.sessionId == l.session.sessionId
  {
  }

  lemma StepGrowsLog(config: Config, now: nat, me: TaskId, l: Local, c: Choice, l': Local)
    requires TaskStep(config, now, me, l, c) == Some(l')
    ensures LogGrows(l, l', me)
  {
  }

  lemma StepAdmitsOnce(config: Config, now: nat, me: TaskId, l: Local, c: Choice, l': Local)
    requires TaskStep(config, now, me, l, c) == Some(l')
    ensures Admittance(l.task.phase) ==> Admittance(l'.task.phase) && l'.task.admittedAt == l.task.admittedAt
    ensures Admittance(l'.task.phase) && !Admittance(l.task.phase) ==> l'.task.admittedAt == now
  {
  }

  // The step moves ownership and the slot together.
  lemma StepMovesSlot(config: Config, now: nat, me: TaskId, l: Local, c: Choice, l': Local)
    requires TaskStep(config, now, me, l, c) == Some(l')
    requires Owns(l.task.phase) ==> l.session.slot == Some(ActiveTurn(l.task.turnId, me))
    ensures Owns(l'.task.phase) ==> l'.session.slot == Some(ActiveTurn(l.task.turnId, me))
    ensures Owns(l'.task.phase) && !Owns(l.task.phase) ==> l.session.slot == None
    ensures !Owns(l'.task.phase) && Owns(l.task.phase) ==> l'.session.slot == None
    ensures Owns(l'.task.phase) == Owns(l.task.phase) ==> l'.session.slot == l.session.slot
  {
  }

  function Count(b: bool): nat {
    if b then 1 else 0
  }

  // The step moves the queue counter together with the task's place in the queue ...
  lemma StepMovesQueue(config: Config, now: nat, me: TaskId, l: Local, c: Choice, l': Local)
    requires TaskStep(config, now, me, l, c) == Some(l')
    requires SeenOk(config, l.task.phase) && (Queued(l.task.phase) ==> l.user.queued > 0)
    ensures SeenOk(config, l'.task.phase)
    ensures l'.user.queued + Count(Queued(l.task.phase)) == l.user.queued + Count(Queued(l'.task.phase))
    ensures l.user.queued <= config.maxQueued ==> l'.user.queued <= config.maxQueued
  {
    match l.task.phase
    case Enqueueing =>
    case Comparing(seen) =>
    case Waiting =>
    case TookPermit =>
    case GaveUp =>
    case _ =>
  }

  // ... and the free permits together with its permit.
  lemma StepMovesPermits(config: Config, now: nat, me: TaskId, l: Local, c: Choice, l': Local)
    requires TaskStep(config, now, me, l, c) == Some(l') && TaskFacts(l.task)
    ensures TaskFacts(l'.task)
    ensures l'.user.free + Count(l'.task.holds) == l.user.free + Count(l.task.holds)
  {
  }

  lemma OwnOfSnoc(log: seq<(TaskId, Frame)>, me: TaskId, f: Frame, t: TaskId)
    ensures Own(log + [(me, f)], t) == Own(log, t) + (if me == t then [f] else [])
  {
    assert (log + [(me, f)])[..|log|] == log;
  }

  // A step that publishes nothing moves only between phases that allow the same trace.
  lemma QuietStepKeepsTrace(config: Config, now: nat, me: TaskId, l: Local, c: Choice, l': Local, fs: seq<Frame>)
    requires TaskStep(config, now, me, l, c) == Some(l')
    requires TaskFacts(l.task) && TraceOk(l.task.phase, fs)
    requires l'.session.log == l.session.log
    ensures TraceOk(l'.task.phase, fs)
  {
  }

  // A step that publishes says which frame and from which phase.
  lemma LoudStepIsKnown(config: Config, now: nat, me: TaskId, l: Local, c: Choice, l': Local) returns (f: Frame)
    requires TaskStep(config, now, me, l, c) == Some(l')
    requires l'.session.log != l.session.log
    ensures l'.session.log == l.session.log + [(me, f)]
    ensures || (l.task.phase == Starting && f == TurnStarted && l'.task.phase == Running)
            || (l.task.phase == Running && Streamed(f) && l'.task.phase == Running)
            || (l.task.phase == Publishing(f) && l'.task.phase == Releasing)
  {
    f := l'.session.log[|l.session.log|].1;
  }

  lemma PublishKeepsTrace(p: Phase, f: Frame, p': Phase, fs: seq<Frame>)
    requires TraceOk(p, fs)
    requires || (p == Starting && f == TurnStarted && p' == Running)
             || (p == Running && Streamed(f) && p' == Running)
             || (p == Publishing(f) && p' == Releasing)
    ensures TraceOk(p', fs + [f])
  {
    assert (fs + [f])[..|fs|] == fs;
  }

  // The step extends the task's own trace as its phase allows.
  lemma StepExtendsTrace(config: Config, now: nat, me: TaskId, l: Local, c: Choice, l': Local)
    requires TaskStep(config, now, me, l, c) == Some(l')
    requires TaskFacts(l.task)
    requires TraceOk(l.task.phase, Own(l.session.log, me))
    ensures TraceOk(l'.task.phase, Own(l'.session.log, me))
  {
    var fs := Own(l.session.log, me);
    if l'.session.log == l.session.log {
      QuietStepKeepsTrace(config, now, me, l, c, l', fs);
    } else {
      var f := LoudStepIsKnown(config, now, me, l, c, l');
      OwnOfSnoc(l.session.log, me, f, me);
      PublishKeepsTrace(l.task.phase, f, l'.task.phase, fs);
    }
  }

  lemma OthersTraceUnchanged(l: Local, l': Local, me: TaskId, t: TaskId)
    requires LogGrows(l, l', me) && t != me
    ensures Own(l'.session.log, t) == Own(l.session.log, t)
  {
    if l'.session.log != l.session.log {
      var n := |l.session.log|;
      assert l'.session.log == l.session.log + [(me, l'.session.log[n].1)];
      OwnOfSnoc(l.session.log, me, l'.session.log[n].1, t);
    }
  }

  // -------------------------------------------------------------------------
  // One step of one task, seen globally
  // -------------------------------------------------------------------------

  // `s'` is `s` after task `t` replaced its local state `l` by `l'`, keeping identities.
  ghost predicate Moved(s: State, t: TaskId, l: Local, l': Local, s': State) {
    && t in s.tasks && s.tasks[t].session in s.sessions
    && l == LocalOf(s, t)
    && l'.task.session == l.task.session && l'.task.turnId == l.task.turnId
    && l'.task.cancelled == l.task.cancelled
    && l'.session.userId == l.session.userId
    && LogGrows(l, l', t)
    && s' == Write(s, t, l')
  }

  lemma MoveKeepsSlots(s: State, t: TaskId, l: Local, l': Local, s': State)
    requires Moved(s, t, l, l', s')
    requires forall x :: x in s.sessions ==> SlotOk(s, x)
    requires Owns(l'.task.phase) ==> l'.session.slot == Some(ActiveTurn(l.task.turnId, t))
    requires Owns(l'.task.phase) && !Owns(l.task.phase) ==> l.session.slot == None
    requires !Owns(l'.task.phase) && Owns(l.task.phase) ==> l'.session.slot == None
    requires Owns(l'.task.phase) == Owns(l.task.phase) ==> l'.session.slot == l.session.slot
    ensures forall x :: x in s'.sessions ==> SlotOk(s', x)
  {
    forall x | x in s'.sessions ensures SlotOk(s', x) {
      assert SlotOk(s, x);
    }
  }

  lemma MoveKeepsLogs(s: State, t: TaskId, l: Local, l': Local, s': State)
    requires Moved(s, t, l, l', s')
    requires forall x :: x in s.sessions ==> LogOk(s, x)
    ensures forall x :: x in s'.sessions ==> LogOk(s', x)
  {
    forall x | x in s'.sessions ensures LogOk(s', x) {
      assert LogOk(s, x);
      if x == l.task.session && l'.session.log != l.session.log {
        assert l'.session.log == l.session.log + [l'.session.log[|l.session.log|]];
      }
    }
  }

  // Sets that differ at most in one element.
  lemma Recount(a: set<TaskId>, b: set<TaskId>, t: TaskId)
    requires a - {t} == b - {t}
    ensures |b| + Count(t in a) == |a| + Count(t in b)
  {
    assert a == (a - {t}) + (if t in a then {t} else {});
    assert b == (b - {t}) + (if t in b then {t} else {});
  }

  lemma MoveChangesOneMember(s: State, t: TaskId, l: Local, l': Local, s': State, u: string)
    requires Moved(s, t, l, l', s')
    ensures QueuedTasks(s, u) - {t} == QueuedTasks(s', u) - {t}
    ensures Holders(s, u) - {t} == Holders(s', u) - {t}
    ensures t in QueuedTasks(s, u) <==> u == l.session.userId && Queued(l.task.phase)
    ensures t in QueuedTasks(s', u) <==> u == l.session.userId && Queued(l'.task.phase)
    ensures t in Holders(s, u) <==> u == l.session.userId && l.task.holds
    ensures t in Holders(s', u) <==> u == l.session.userId && l'.task.holds
  {
    forall k | k in s.tasks && k != t ensures OfUser(s', k, u) == OfUser(s, k, u) {
    }
  }

  lemma MoveKeepsUser(s: State, t: TaskId, l: Local, l': Local, s': State, u: string)
    requires Moved(s, t, l, l', s') && UserOk(s, u)
    requires l'.user.queued + Count(Queued(l.task.phase)) == l.user.queued + Count(Queued(l'.task.phase))
    requires l.user.queued <= s.config.maxQueued ==> l'.user.queued <= s.config.maxQueued
    requires l'.user.free + Count(l'.task.holds) == l.user.free + Count(l.task.holds)
    ensures UserOk(s', u)
  {
    MoveChangesOneMember(s, t, l, l', s', u);
    Recount(QueuedTasks(s, u), QueuedTasks(s', u), t);
    Recount(Holders(s, u), Holders(s', u), t);
  }

  lemma MoveKeepsTask(s: State, t: TaskId, l: Local, l': Local, s': State, k: TaskId)
    requires Moved(s, t, l, l', s')
    requires k in s.tasks && k != t && TaskOk(s, k) && TokenOk(s, k)
    ensures TaskOk(s', k) && TokenOk(s', k)
  {
    OthersTraceUnchanged(l, l', t, k);
    if s.tasks[k].session == l.task.session {
      assert FramesOf(s', k) == Own(l'.session.log, k);
    }
  }

  lemma StepMoves(s: State, t: TaskId, c: Choice, l: Local, l': Local, s': State)
    requires t in s.tasks && s.tasks[t].session in s.sessions && l == LocalOf(s, t)
    requires TaskStep(s.config, s.clock, t, l, c) == Some(l') && s' == Write(s, t, l')
    ensures Moved(s, t, l, l', s')
    ensures Admittance(l.task.phase) ==> Admittance(l'.task.phase) && l'.task.admittedAt == l.task.admittedAt
    ensures Admittance(l'.task.phase) && !Admittance(l.task.phase) ==> l'.task.admittedAt == s.clock
  {
    StepKeepsIdentity(s.config, s.clock, t, l, c, l');
    StepGrowsLog(s.config, s.clock, t, l, c, l');
    StepAdmitsOnce(s.config, s.clock, t, l, c, l');
  }

  lemma StepKeepsSlots(s: State, t: TaskId, c: Choice, l: Local, l': Local, s': State)
    requires Inv(s) && Moved(s, t, l, l', s') && TaskStep(s.config, s.clock, t, l, c) == Some(l')
    ensures forall x :: x in s'.sessions ==> SlotOk(s', x)
  {
    assert SlotOk(s, l.task.session);
    StepMovesSlot(s.config, s.clock, t, l, c, l');
    MoveKeepsSlots(s, t, l, l', s');
  }

  lemma StepKeepsUsers(s: State, t: TaskId, c: Choice, l: Local, l': Local, s': State)
    requires Inv(s) && Moved(s, t, l, l', s') && TaskStep(s.config, s.clock, t, l, c) == Some(l')
    ensures TaskFacts(l'.task) && SeenOk(s.config, l'.task.phase)
    ensures forall u :: UserOk(s', u)
  {
    assert TaskOk(s, t);
    assert UserOk(s, l.session.userId);
    MoveChangesOneMember(s, t, l, l', s', l.session.userId);
    StepMovesQueue(s.config, s.clock, t, l, c, l');
    StepMovesPermits(s.config, s.clock, t, l, c, l');
    forall u ensures UserOk(s', u) {
      assert UserOk(s, u);
      MoveKeepsUser(s, t, l, l', s', u);
    }
  }

  lemma StepKeepsTasks(s: State, t: TaskId, c: Choice, l: Local, l': Local, s': State)
    requires Inv(s) && Moved(s, t, l, l', s') && TaskStep(s.config, s.clock, t, l, c) == Some(l')
    requires TaskFacts(l'.task) && SeenOk(s.config, l'.task.phase)
    requires Admittance(l'.task.phase) ==> l'.task.admittedAt <= s.clock
    ensures forall k :: k in s'.tasks ==> TaskOk(s', k) && TokenOk(s', k)
  {
    assert TaskOk(s, t) && TokenOk(s, t);
    StepExtendsTrace(s.config, s.clock, t, l, c, l');
    forall k | k in s'.tasks ensures TaskOk(s', k) && TokenOk(s', k) {
      if k != t {
        assert TaskOk(s, k) && TokenOk(s, k);
        MoveKeepsTask(s, t, l, l', s', k);
      }
    }
  }

  lemma StepKeepsInv(s: State, t: TaskId, c: Choice, s': State)
    requires Inv(s) && Next(s, Step(t, c)) == Some(s')
    ensures Inv(s')
  {
    var l := LocalOf(s, t);
    var l' := TaskStep(s.config, s.clock, t, l, c).value;
    StepMoves(s, t, c, l, l', s');
    assert TaskOk(s, t);
    StepKeepsSlots(s, t, c, l, l', s');
    MoveKeepsLogs(s, t, l, l', s');
    StepKeepsUsers(s, t, c, l, l', s');
    StepKeepsTasks(s, t, c, l, l', s');
    forall k | k in s'.cancels ensures CancelOk(s', k) {
      assert CancelOk(s, k);
    }
  }

  // -------------------------------------------------------------------------
  // The other actions
  // -------------------------------------------------------------------------

  // Nothing but the clock, fresh sessions, fresh submissions, cancel calls and tokens change.
  ghost predicate Quiet(s: State, s': State) {
    && s'.config == s.config && s'.users == s.users && s'.clock == s.clock + 1
    && (forall x :: x in s.sessions ==> x in s'.sessions && s'.sessions[x] == s.sessions[x])
    && (forall t :: t in s.tasks ==>
          && t in s'.tasks
          && s'.tasks[t] == s.tasks[t].(cancelled := s'.tasks[t].cancelled)
          && (s.tasks[t].cancelled ==> s'.tasks[t].cancelled))
    && (forall t :: t in s'.tasks && t !in s.tasks ==>
          && s'.tasks[t].session in s.sessions
          && s'.tasks[t] == Task(s'.tasks[t].session, s'.tasks[t].turnId, Submitted, false, false, 0))
    && (forall x :: x in s'.sessions && x !in s.sessions ==>
          s'.sessions[x].slot == None && s'.sessions[x].latest == None && s'.sessions[x].log == [])
    && (forall c :: c in s.cancels ==>
          && c in s'.cancels
          && s'.cancels[c] == s.cancels[c].(fired := s'.cancels[c].fired)
          && (s.cancels[c].fired ==> s'.cancels[c].fired))
  }

  lemma QuietKeepsSessions(s: State, s': State, x: SessionRef)
    requires Inv(s) && Quiet(s, s') && x in s'.sessions
    ensures SlotOk(s', x) && LogOk(s', x)
  {
    if x in s.sessions {
      assert SlotOk(s, x) && LogOk(s, x);
    } else {
      forall t | t in s'.tasks && t in s.tasks ensures s'.tasks[t].session != x {
        assert TaskOk(s, t);
      }
    }
  }

  lemma QuietKeepsUsers(s: State, s': State, u: string)
    requires Inv(s) && Quiet(s, s')
    ensures UserOk(s', u)
  {
    assert UserOk(s, u);
    forall t | t in s.tasks ensures OfUser(s', t, u) == OfUser(s, t, u) {
      assert TaskOk(s, t);
    }
    assert QueuedTasks(s', u) == QueuedTasks(s, u);
    assert Holders(s', u) == Holders(s, u);
  }

  lemma {:induction false} NoOwnFrames(log: seq<(TaskId, Frame)>, t: TaskId)
    requires forall i :: 0 <= i < |log| ==> log[i].0 != t
    ensures Own(log, t) == []
  {
    if log != [] {
      NoOwnFrames(log[..|log| - 1], t);
    }
  }

  lemma QuietKeepsTask(s: State, s': State, t: TaskId)
    requires Inv(s) && Quiet(s, s') && t in s'.tasks
    ensures TaskOk(s', t)
  {
    if t in s.tasks {
      assert TaskOk(s, t);
    } else {
      assert LogOk(s, s'.tasks[t].session);
      NoOwnFrames(s.sessions[s'.tasks[t].session].log, t);
    }
  }

  lemma QuietKeepsOldCancel(s: State, s': State, c: CancelId)
    requires Inv(s) && Quiet(s, s') && c in s.cancels
    ensures CancelOk(s', c)
  {
    assert CancelOk(s, c);
  }

  lemma QuietKeepsOldToken(s: State, s': State, t: TaskId)
    requires Inv(s) && Quiet(s, s') && t in s.tasks && s.tasks[t].cancelled
    ensures TokenOk(s', t)
  {
    assert TokenOk(s, t);
    var c :| c in s.cancels && s.cancels[c].fired && s.cancels[c].target == Some(t);
    assert c in s'.cancels && s'.cancels[c].fired && s'.cancels[c].target == Some(t);
  }

  lemma QuietKeepsInv(s: State, s': State)
    requires Inv(s) && Quiet(s, s')
    requires forall c :: c in s'.cancels && c !in s.cancels ==> CancelOk(s', c)
    requires forall t :: t in s.tasks && !s.tasks[t].cancelled && s'.tasks[t].cancelled ==> TokenOk(s', t)
    ensures Inv(s')
  {
    forall x | x in s'.sessions ensures SlotOk(s', x) && LogOk(s', x) {
      QuietKeepsSessions(s, s', x);
    }
    forall t | t in s'.tasks ensures TaskOk(s', t) && TokenOk(s', t) {
      QuietKeepsTask(s, s', t);
      if t in s.tasks && s.tasks[t].cancelled {
        QuietKeepsOldToken(s, s', t);
      }
    }
    forall c | c in s'.cancels ensures CancelOk(s', c) {
      if c in s.cancels {
        QuietKeepsOldCancel(s, s', c);
      }
    }
    forall u ensures UserOk(s', u) {
      QuietKeepsUsers(s, s', u);
    }
  }

  lemma OpeningIsQuiet(s: State, a: Action, s': State)
    requires (a.OpenSession? || a.Submit?) && Next(s, a) == Some(s')
    ensures Quiet(s, s')
  {
  }

  lemma ReadingIsQuiet(s: State, a: Action, s': State)
    requires a.CancelRead? && Next(s, a) == Some(s')
    ensures Quiet(s, s')
  {
  }

  lemma FiringIsQuiet(s: State, a: Action, s': State)
    requires a.CancelFire? && Next(s, a) == Some(s')
    ensures Quiet(s, s')
  {
    assert s'.sessions == s.sessions && s'.users == s.users && s'.config == s.config;
    assert s'.cancels == s.cancels[a.c := s.cancels[a.c].(fired := true)];
    assert s'.tasks.Keys == s.tasks.Keys;
  }

  lemma CancellingIsQuiet(s: State, a: Action, s': State)
    requires (a.CancelRead? || a.CancelFire?) && Next(s, a) == Some(s')
    ensures Quiet(s, s')
  {
    if a.CancelRead? {
      ReadingIsQuiet(s, a, s');
    } else {
      FiringIsQuiet(s, a, s');
    }
  }

  lemma FreshCancelIsOk(s: State, a: Action, s': State, c: CancelId)
    requires Inv(s) && !a.Step? && Next(s, a) == Some(s')
    requires c in s'.cancels && c !in s.cancels
    ensures CancelOk(s', c)
  {
    assert SlotOk(s, a.x);
    if s.sessions[a.x].slot.Some? {
      assert TaskOk(s, s.sessions[a.x].slot.value.token);
    }
  }

  lemma FreshTokenIsOk(s: State, a: Action, s': State, t: TaskId)
    requires !a.Step? && Next(s, a) == Some(s')
    requires t in s.tasks && t in s'.tasks && !s.tasks[t].cancelled && s'.tasks[t].cancelled
    ensures TokenOk(s', t)
  {
    assert a.CancelFire? && s'.cancels[a.c].fired && s'.cancels[a.c].target == Some(t);
  }

  lemma OtherActionKeepsInv(s: State, a: Action, s': State)
    requires Inv(s) && !a.Step? && Next(s, a) == Some(s')
    ensures Inv(s')
  {
    if a.OpenSession? || a.Submit? {
      OpeningIsQuiet(s, a, s');
    } else {
      CancellingIsQuiet(s, a, s');
    }
    forall c | c in s'.cancels && c !in s.cancels ensures CancelOk(s', c) {
      FreshCancelIsOk(s, a, s', c);
    }
    forall t | t in s.tasks && !s.tasks[t].cancelled && s'.tasks[t].cancelled ensures TokenOk(s', t) {
      FreshTokenIsOk(s, a, s', t);
    }
    QuietKeepsInv(s, s');
  }

  // -------------------------------------------------------------------------
  // Every action, every run
  // -------------------------------------------------------------------------

  lemma NextKeepsInv(s: State, a: Action, s': State)
    requires Inv(s) && Next(s, a) == Some(s')
    ensures Inv(s')
  {
    if a.Step? {
      StepKeepsInv(s, a.t, a.choice, s');
    } else {
      OtherActionKeepsInv(s, a, s');
    }
  }

  lemma {:induction false} ExecKeepsInv(s: State, acts: seq<Action>, s': State)
    requires Inv(s) && Exec(s, acts) == Some(s')
    ensures Inv(s')
    decreases |acts|
  {
    if acts != [] {
      var s1 := Next(s, acts[0]).value;
      NextKeepsInv(s, acts[0], s1);
      ExecKeepsInv(s1, acts[1..], s');
    }
  }

  lemma InitInv(config: Config)
    ensures Inv(Init(config))
  {
    var s := Init(config);
    forall u ensures UserOk(s, u) {
      assert QueuedTasks(s, u) == {} && Holders(s, u) == {};
    }
  }

  // A state that some run from an empty gateway reaches.
  ghost predicate Reachable(s: State) {
    exists acts :: Exec(Init(s.config), acts) == Some(s)
  }

  lemma ReachableInv(s: State)
    requires Reachable(s)
    ensures Inv(s)
  {
    var acts :| Exec(Init(s.config), acts) == Some(s);
    InitInv(s.config);
    ExecKeepsInv(Init(s.config), acts, s);
  }
}
