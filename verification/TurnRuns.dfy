/** What the stored terminal frame means, and how turns of one session id come to overlap. */
module TurnRuns {
  import opened Common
  import opened TurnProtocol
  import opened TurnInvariants
  import opened TurnTheorems

  // -------------------------------------------------------------------------
  // The stored terminal frame
  // -------------------------------------------------------------------------

  // The frame is the one the task is about to publish or has published last.
  predicate IsTerminalOf(task: Task, fs: seq<Frame>, f: Frame) {
    task.phase == Publishing(f)
    || ((task.phase.Releasing? || task.phase.Finished?) && |fs| > 0 && fs[|fs| - 1] == f)
  }

  ghost predicate LatestOk(s: State, x: SessionRef)
    requires x in s.sessions
  {
    match s.sessions[x].latest
    case None => true
    case Some(e) =>
      && e.0 in s.tasks && s.tasks[e.0].session == x
      && Terminal(e.1) && IsTerminalOf(s.tasks[e.0], FramesOf(s, e.0), e.1)
  }

  ghost predicate LatestInv(s: State) {
    forall x :: x in s.sessions ==> LatestOk(s, x)
  }

  // A step keeps, resets or replaces the stored frame.
  lemma StepAndLatest(config: Config, now: nat, me: TaskId, l: Local, c: Choice, l': Local)
    requires TaskStep(config, now, me, l, c) == Some(l')
    ensures || l'.session.latest == l.session.latest
            || l'.session.latest == None
            || (l.task.phase.Storing? && l'.session.latest == Some((me, l.task.phase.frame))
                && l'.task.phase == Publishing(l.task.phase.frame))
  {
  }

  lemma PublishingStep(config: Config, now: nat, me: TaskId, l: Local, c: Choice, l': Local)
    requires TaskStep(config, now, me, l, c) == Some(l') && l.task.phase.Publishing?
    ensures l'.task.phase == Releasing && l'.session.log == l.session.log + [(me, l.task.phase.frame)]
  {
  }

  lemma ReleasingStep(config: Config, now: nat, me: TaskId, l: Local, c: Choice, l': Local)
    requires TaskStep(config, now, me, l, c) == Some(l') && (l.task.phase.Releasing? || l.task.phase.Finished?)
    ensures l'.task.phase == Finished && l'.session.log == l.session.log
  {
  }

  lemma StepKeepsTerminal(config: Config, now: nat, me: TaskId, l: Local, c: Choice, l': Local, f: Frame)
    requires TaskStep(config, now, me, l, c) == Some(l')
    requires IsTerminalOf(l.task, Own(l.session.log, me), f)
    ensures IsTerminalOf(l'.task, Own(l'.session.log, me), f)
  {
    if l.task.phase.Publishing? {
      PublishingStep(config, now, me, l, c, l');
      OwnOfSnoc(l.session.log, me, f, me);
    } else {
      ReleasingStep(config, now, me, l, c, l');
    }
  }

  lemma StepKeepsLatest(s: State, t: TaskId, c: Choice, s': State, x: SessionRef)
    requires Inv(s) && LatestInv(s) && Next(s, Step(t, c)) == Some(s') && x in s'.sessions
    ensures LatestOk(s', x)
  {
    var l := LocalOf(s, t);
    var l' := TaskStep(s.config, s.clock, t, l, c).value;
    StepMoves(s, t, c, l, l', s');
    StepAndLatest(s.config, s.clock, t, l, c, l');
    assert LatestOk(s, x);
    assert TaskOk(s, t);
    if s.sessions[x].latest.Some? {
      var e := s.sessions[x].latest.value;
      if e.0 == t {
        StepKeepsTerminal(s.config, s.clock, t, l, c, l', e.1);
      } else {
        BystanderKeeps(s, t, l, l', s', e.0);
      }
    }
  }

  lemma OtherKeepsLatest(s: State, s': State, x: SessionRef)
    requires LatestInv(s) && Quiet(s, s') && x in s'.sessions
    ensures LatestOk(s', x)
  {
    if x in s.sessions {
      assert LatestOk(s, x);
    }
  }

  lemma ActionIsQuiet(s: State, a: Action, s': State)
    requires !a.Step? && Next(s, a) == Some(s')
    ensures Quiet(s, s')
  {
    if a.OpenSession? || a.Submit? {
      OpeningIsQuiet(s, a, s');
    } else {
      CancellingIsQuiet(s, a, s');
    }
  }

  lemma {:induction false} ExecKeepsLatest(s: State, acts: seq<Action>, s': State)
    requires Inv(s) && LatestInv(s) && Exec(s, acts) == Some(s')
    ensures LatestInv(s')
    decreases |acts|
  {
    if acts != [] {
      var s1 := Next(s, acts[0]).value;
      NextKeepsInv(s, acts[0], s1);
      forall x | x in s1.sessions ensures LatestOk(s1, x) {
        if acts[0].Step? {
          StepKeepsLatest(s, acts[0].t, acts[0].choice, s1, x);
        } else {
          ActionIsQuiet(s, acts[0], s1);
          OtherKeepsLatest(s, s1, x);
        }
      }
      ExecKeepsLatest(s1, acts[1..], s');
    }
  }

  // `latest_terminal_frame` is always the terminal frame of some turn of that session object.
  lemma LatestFrameIsGenuine(s: State, x: SessionRef)
    requires Reachable(s) && x in s.sessions
    ensures LatestOk(s, x)
  {
    var acts :| Exec(Init(s.config), acts) == Some(s);
    InitInv(s.config);
    ExecKeepsLatest(Init(s.config), acts, s);
  }

  // -------------------------------------------------------------------------
  // Runs
  // -------------------------------------------------------------------------

  // Nothing stands between this task and `run_turn`.
  predicate ClearWay(config: Config, l: Local) {
    && !l.task.cancelled
    && match l.task.phase
       case Submitted => l.session.slot == None && l.user.queued < config.maxQueued && l.user.free > 0 && !l.task.holds
       case Admitted => l.user.queued < config.maxQueued && l.user.free > 0 && !l.task.holds
       case Resolving => l.user.queued < config.maxQueued && l.user.free > 0 && !l.task.holds
       case Enqueueing => l.user.queued < config.maxQueued && l.user.free > 0 && !l.task.holds
       case Comparing(seen) => seen == l.user.queued && l.user.free > 0 && !l.task.holds
       case Waiting => l.task.holds || l.user.free > 0
       case TookPermit => true
       case CheckingCancel => true
       case Starting => true
       case Running => true
       case _ => false
  }

  lemma ClearWayStep(config: Config, now: nat, me: TaskId, l: Local)
    requires ClearWay(config, l) && !l.task.phase.Running?
    ensures TaskStep(config, now, me, l, Pick(l.task)).Some?
    ensures
      var l' := TaskStep(config, now, me, l, Pick(l.task)).value;
      Rank(l') < Rank(l) && ClearWay(config, l')
  {
  }

  // Everything that `Drive` and `StartTurn` leave alone.
  ghost predicate OnlyTask(s: State, t: TaskId, s': State) {
    && s'.config == s.config && s'.tasks.Keys == s.tasks.Keys && s'.sessions.Keys == s.sessions.Keys
    && t in s.tasks
    && s'.tasks[t].session == s.tasks[t].session && s'.tasks[t].cancelled == s.tasks[t].cancelled
    && (forall k :: k in s.tasks && k != t ==> s'.tasks[k] == s.tasks[k])
    && (forall x :: x in s.sessions && x != s.tasks[t].session ==> s'.sessions[x] == s.sessions[x])
    && (forall x :: x in s.sessions ==>
          s'.sessions[x].sessionId == s.sessions[x].sessionId && s'.sessions[x].userId == s.sessions[x].userId)
  }

  lemma StepIsOnlyTask(s: State, t: TaskId, c: Choice, s': State)
    requires Next(s, Step(t, c)) == Some(s')
    ensures OnlyTask(s, t, s')
  {
    var l := LocalOf(s, t);
    var l' := TaskStep(s.config, s.clock, t, l, c).value;
    StepKeepsIdentity(s.config, s.clock, t, l, c, l');
  }

  lemma OnlyTaskChain(s: State, t: TaskId, s1: State, s2: State)
    requires OnlyTask(s, t, s1) && OnlyTask(s1, t, s2)
    ensures OnlyTask(s, t, s2)
  {
    assert forall k :: k in s.tasks <==> k in s1.tasks.Keys;
    assert forall x :: x in s.sessions <==> x in s1.sessions.Keys;
  }

  // Run a task with a clear way into `run_turn` while nobody else moves.
  lemma StartTurn(s: State, t: TaskId) returns (acts: seq<Action>, s': State)
    requires t in s.tasks && s.tasks[t].session in s.sessions && ClearWay(s.config, LocalOf(s, t))
    ensures Exec(s, acts) == Some(s') && OnlyTask(s, t, s') && s'.tasks[t].phase.Running?
    decreases Rank(LocalOf(s, t))
  {
    var l := LocalOf(s, t);
    if l.task.phase.Running? {
      return [], s;
    }
    var c := Pick(l.task);
    ClearWayStep(s.config, s.clock, t, l);
    var l' := TaskStep(s.config, s.clock, t, l, c).value;
    var s1 := Write(s, t, l');
    StepIsOnlyTask(s, t, c, s1);
    StepMoves(s, t, c, l, l', s1);
    assert LocalOf(s1, t) == l';
    var rest;
    rest, s' := StartTurn(s1, t);
    OnlyTaskChain(s, t, s1, s');
    acts := [Step(t, c)] + rest;
    assert acts[1..] == rest;
  }

  // One step of one task.
  lemma TakeStep(s: State, t: TaskId, c: Choice, l': Local) returns (s': State)
    requires Inv(s) && t in s.tasks && s.tasks[t].session in s.sessions
    requires TaskStep(s.config, s.clock, t, LocalOf(s, t), c) == Some(l')
    ensures Next(s, Step(t, c)) == Some(s') && Inv(s') && OnlyTask(s, t, s') && LocalOf(s', t) == l'
  {
    s' := Write(s, t, l');
    StepMoves(s, t, c, LocalOf(s, t), l', s');
    StepKeepsInv(s, t, c, s');
    StepIsOnlyTask(s, t, c, s');
  }

  lemma ExecOne(s: State, a: Action, s1: State, acts: seq<Action>, s': State)
    requires Next(s, a) == Some(s1) && Exec(s1, acts) == Some(s')
    ensures Exec(s, [a] + acts) == Some(s')
  {
    assert ([a] + acts)[1..] == acts;
  }

  // Session objects come and never go, and keep their ids.
  ghost predicate SessionsStay(s: State, s': State) {
    && s'.config == s.config
    && forall x :: x in s.sessions ==>
         && x in s'.sessions
         && s'.sessions[x].sessionId == s.sessions[x].sessionId && s'.sessions[x].userId == s.sessions[x].userId
  }

  lemma NextKeepsSessions(s: State, a: Action, s': State)
    requires Next(s, a) == Some(s')
    ensures SessionsStay(s, s')
  {
    if a.Step? {
      StepIsOnlyTask(s, a.t, a.choice, s');
    } else {
      ActionIsQuiet(s, a, s');
    }
  }

  lemma {:induction false} ExecKeepsSessions(s: State, acts: seq<Action>, s': State)
    requires Exec(s, acts) == Some(s')
    ensures SessionsStay(s, s')
    decreases |acts|
  {
    if acts != [] {
      var s1 := Next(s, acts[0]).value;
      NextKeepsSessions(s, acts[0], s1);
      ExecKeepsSessions(s1, acts[1..], s');
    }
  }

  lemma ReachFurther(s: State, acts: seq<Action>, s': State)
    requires Reachable(s) && Exec(s, acts) == Some(s')
    ensures Reachable(s') && SessionsStay(s, s')
  {
    ExecKeepsSessions(s, acts, s');
    var pre :| Exec(Init(s.config), pre) == Some(s);
    ExecAppend(Init(s.config), pre, acts);
    assert Exec(Init(s'.config), pre + acts) == Some(s');
  }

  // -------------------------------------------------------------------------
  // A fresh turn
  // -------------------------------------------------------------------------

  // The user has a queue place and a permit to spare.
  predicate HasRoom(s: State, u: string) {
    UserOf(s, u).queued < s.config.maxQueued && UserOf(s, u).free > 0
  }

  // `s'` is `s` with one more turn, `t` on `x`; other turns and session objects are as they were.
  ghost predicate Joined(s: State, x: SessionRef, t: TaskId, s': State) {
    && SessionsStay(s, s') && s'.sessions.Keys == s.sessions.Keys
    && t !in s.tasks && s'.tasks.Keys == s.tasks.Keys + {t} && s'.tasks[t].session == x
    && (forall k :: k in s.tasks ==> s'.tasks[k] == s.tasks[k])
    && forall y :: y in s.sessions && y != x ==> s'.sessions[y] == s.sessions[y]
  }

  lemma SubmitTurn(s: State, x: SessionRef) returns (a: Action, s': State, t: TaskId)
    requires Inv(s) && x in s.sessions
    ensures Next(s, a) == Some(s') && Inv(s') && Joined(s, x, t, s')
    ensures LocalOf(s', t)
            == Local(Task(x, "", Submitted, false, false, 0), s.sessions[x], UserOf(s, s.sessions[x].userId))
  {
    t := FreshNumber(s.tasks.Keys);
    a := Submit(t, x, "");
    s' := Next(s, a).value;
    NextKeepsInv(s, a, s');
  }

  lemma JoinedFurther(s: State, x: SessionRef, t: TaskId, s1: State, s2: State)
    requires Joined(s, x, t, s1) && OnlyTask(s1, t, s2)
    ensures Joined(s, x, t, s2)
  {
    assert forall k :: k in s2.tasks <==> k in s1.tasks.Keys;
    assert forall y :: y in s2.sessions <==> y in s1.sessions.Keys;
  }

  // On an object with a free slot, for a user with room, a fresh turn can start while nobody else moves.
  lemma RunTurn(s: State, x: SessionRef) returns (acts: seq<Action>, s': State, t: TaskId)
    requires Inv(s) && x in s.sessions && s.sessions[x].slot == None && HasRoom(s, s.sessions[x].userId)
    ensures Exec(s, acts) == Some(s') && Inv(s') && Joined(s, x, t, s') && s'.tasks[t].phase.Running?
  {
    var a, s1;
    a, s1, t := SubmitTurn(s, x);
    var rest;
    rest, s' := StartTurn(s1, t);
    ExecKeepsInv(s1, rest, s');
    JoinedFurther(s, x, t, s1, s');
    ExecOne(s, a, s1, rest, s');
    acts := [a] + rest;
  }

  // With nobody queued, the permits outside `hs` are free.
  lemma RoomBeside(s: State, u: string, hs: set<TaskId>)
    requires Inv(s) && QueuedTasks(s, u) == {} && Holders(s, u) <= hs
    ensures UserOf(s, u).queued == 0 && UserOf(s, u).free + |hs| >= s.config.maxConcurrent
  {
    assert UserOk(s, u);
    SubsetSize(Holders(s, u), hs);
  }

  // -------------------------------------------------------------------------
  // Turns of one session id
  // -------------------------------------------------------------------------

  predicate RunsOn(s: State, x: SessionRef, t: TaskId) {
    t in s.tasks && s.tasks[t].session == x && s.tasks[t].phase.Running?
  }

  // After the run, different turns run on the two objects.
  predicate Overlap(s: State, acts: seq<Action>, x: SessionRef, y: SessionRef, t: TaskId, t': TaskId) {
    && Exec(s, acts).Some? && t != t'
    && RunsOn(Exec(s, acts).value, x, t) && RunsOn(Exec(s, acts).value, y, t')
  }

  ghost predicate MayOverlap(s: State, x: SessionRef, y: SessionRef) {
    exists acts, t, t' :: Overlap(s, acts, x, y, t, t')
  }

  // Beside one fresh turn, with everything else at its end, nobody waits and nobody else holds a permit.
  lemma IdleBeside(s: State, x: SessionRef, t: TaskId, s': State, k: TaskId)
    requires Inv(s) && Unfinished(s) == {} && Joined(s, x, t, s') && k in s'.tasks && k != t
    ensures !Queued(s'.tasks[k].phase) && !s'.tasks[k].holds
  {
    assert k in s.tasks;
    NothingUnfinished(s, k);
    HoldersAreUnfinished(s, k);
  }

  lemma MembersBeside(s: State, x: SessionRef, t: TaskId, s': State, u: string)
    requires Inv(s) && Unfinished(s) == {} && Joined(s, x, t, s') && x in s.sessions && s'.tasks[t].phase.Running?
    ensures QueuedTasks(s', u) == {} && Holders(s', u) <= {t}
    ensures s.sessions[x].userId != u ==> Holders(s', u) == {}
  {
    forall k | k in s'.tasks && k != t ensures !Queued(s'.tasks[k].phase) && !s'.tasks[k].holds {
      IdleBeside(s, x, t, s', k);
    }
  }

  // Permits for a turn of each object at the same time.
  predicate PermitsForBoth(s: State, x: SessionRef, y: SessionRef)
    requires x in s.sessions && y in s.sessions
  {
    s.config.maxConcurrent > if s.sessions[x].userId == s.sessions[y].userId then 1 else 0
  }

  lemma RoomBesideOne(s: State, x: SessionRef, t: TaskId, s': State, y: SessionRef)
    requires Inv(s) && Unfinished(s) == {} && x in s.sessions && y in s.sessions && Inv(s') && Joined(s, x, t, s')
    requires s'.tasks[t].phase.Running? && s.config.maxQueued > 0 && PermitsForBoth(s, x, y)
    ensures HasRoom(s', s'.sessions[y].userId)
  {
    var u := s.sessions[y].userId;
    MembersBeside(s, x, t, s', u);
    RoomBeside(s', u, if s.sessions[x].userId == u then {t} else {});
  }

  lemma OverlapFromIdle(s: State, x: SessionRef, y: SessionRef) returns (acts: seq<Action>, t: TaskId, t': TaskId)
    requires Inv(s) && Unfinished(s) == {} && x in s.sessions && y in s.sessions && x != y
    requires s.config.maxQueued > 0 && PermitsForBoth(s, x, y)
    ensures Overlap(s, acts, x, y, t, t')
  {
    QuiescentSlot(s, x);
    QuiescentSlot(s, y);
    QuiescentUser(s, s.sessions[x].userId);
    var a1, s1, a2, s2;
    a1, s1, t := RunTurn(s, x);
    RoomBesideOne(s, x, t, s1, y);
    a2, s2, t' := RunTurn(s1, y);
    ExecAppend(s, a1, a2);
    acts := a1 + a2;
  }

  lemma OverlapFrom(s: State, x: SessionRef, y: SessionRef)
    requires Inv(s) && x in s.sessions && y in s.sessions && x != y
    requires s.config.maxQueued > 0 && PermitsForBoth(s, x, y)
    ensures MayOverlap(s, x, y)
  {
    var a1, s1 := DrainAll(s);
    ExecKeepsSessions(s, a1, s1);
    var a2, t, t' := OverlapFromIdle(s1, x, y);
    ExecAppend(s, a1, a2);
    assert Overlap(s, a1 + a2, x, y, t, t');
  }

  // The turn has had a place in the queue.
  predicate PastQueue(p: Phase) {
    && Admittance(p)
    && !p.Admitted? && !p.Resolving? && !p.Enqueueing? && !p.Comparing? && !p.RollingBack? && !p.RolledBack?
  }

  lemma StepPastQueue(config: Config, now: nat, me: TaskId, l: Local, c: Choice, l': Local)
    requires TaskStep(config, now, me, l, c) == Some(l') && SeenOk(config, l.task.phase)
    ensures PastQueue(l'.task.phase) ==> PastQueue(l.task.phase) || config.maxQueued > 0
  {
  }

  ghost predicate QueueUsed(s: State) {
    forall t :: t in s.tasks && PastQueue(s.tasks[t].phase) ==> s.config.maxQueued > 0
  }

  lemma {:induction false} ExecKeepsQueueUsed(s: State, acts: seq<Action>, s': State)
    requires Inv(s) && QueueUsed(s) && Exec(s, acts) == Some(s')
    ensures QueueUsed(s')
    decreases |acts|
  {
    if acts != [] {
      var s1 := Next(s, acts[0]).value;
      NextKeepsInv(s, acts[0], s1);
      if acts[0].Step? {
        var t := acts[0].t;
        assert TaskOk(s, t);
        var l' := TaskStep(s.config, s.clock, t, LocalOf(s, t), acts[0].choice).value;
        StepPastQueue(s.config, s.clock, t, LocalOf(s, t), acts[0].choice, l');
      } else {
        ActionIsQuiet(s, acts[0], s1);
      }
      ExecKeepsQueueUsed(s1, acts[1..], s');
    }
  }

  lemma RunningUsesQueue(s: State, t: TaskId)
    requires Reachable(s) && t in s.tasks && s.tasks[t].phase.Running?
    ensures s.config.maxQueued > 0
  {
    var acts :| Exec(Init(s.config), acts) == Some(s);
    InitInv(s.config);
    ExecKeepsQueueUsed(Init(s.config), acts, s);
  }

  lemma OverlapUsesPermits(s: State, x: SessionRef, y: SessionRef, t: TaskId, t': TaskId)
    requires Reachable(s) && t != t' && RunsOn(s, x, t) && RunsOn(s, y, t') && x in s.sessions && y in s.sessions
    ensures x != y && s.config.maxQueued > 0 && PermitsForBoth(s, x, y)
  {
    RunTurnIsExclusive(s, t, t');
    RunningUsesQueue(s, t);
    var u := s.sessions[x].userId;
    QueueAndPermitsAreAccounted(s, u);
    var both := if s.sessions[y].userId == u then {t, t'} else {t};
    SubsetSize(both, RunningTasks(s, u));
  }

  /**
   Exclusion is per object, not per session id: from a reachable state, turns of one id come to run
   side by side exactly when two objects carry the id, the queue has a place, and there are permits
   for both (two if they are one user's).
   */
  lemma SameIdOverlapsExactly(s: State, x: SessionRef, y: SessionRef)
    requires Reachable(s) && x in s.sessions && y in s.sessions
    requires s.sessions[x].sessionId == s.sessions[y].sessionId
    ensures MayOverlap(s, x, y) <==> x != y && s.config.maxQueued > 0 && PermitsForBoth(s, x, y)
  {
    ReachableInv(s);
    if MayOverlap(s, x, y) {
      var acts, t, t' :| Overlap(s, acts, x, y, t, t');
      var s' := Exec(s, acts).value;
      ReachFurther(s, acts, s');
      OverlapUsesPermits(s', x, y, t, t');
    } else if x != y && s.config.maxQueued > 0 && PermitsForBoth(s, x, y) {
      OverlapFrom(s, x, y);
    }
  }

  // Such objects do arise: resuming a session id makes another one, for every configuration.
  lemma SameSessionIdMayOverlap(config: Config, id: string, user: string) returns (s: State)
    requires config.maxConcurrent > 1 && config.maxQueued > 0
    ensures Reachable(s) && s.config == config && s.sessions.Keys == {0, 1}
    ensures forall x :: x in s.sessions ==> s.sessions[x].sessionId == id && s.sessions[x].userId == user
    ensures MayOverlap(s, 0, 1)
  {
    var s0 := Init(config);
    var s1 := Next(s0, OpenSession(0, id, user)).value;
    s := Next(s1, OpenSession(1, id, user)).value;
    ExecOne(s1, OpenSession(1, id, user), s, [], s);
    ExecOne(s0, OpenSession(0, id, user), s1, [OpenSession(1, id, user)] + [], s);
    SameIdOverlapsExactly(s, 0, 1);
  }
}
