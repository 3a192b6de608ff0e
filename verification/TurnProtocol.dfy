/**
 The gateway's turn protocol as a transition system.

 One action is one atomic section of the gateway: a critical section of a session's
 `active_turn` or `latest_terminal_frame` mutex, one atomic operation on `queued_turns`,
 one semaphore operation, one publish, or one cancellation of a token.  Everything that the
 scheduler, the client or the agent runtime decides is a parameter of the action.
 */
module TurnProtocol {
  import opened Common

  // A submit call and the task it spawns share one identity: one call to `start_turn_with_origin`
  // owns one fresh cancellation token, so the token is named by the task as well.
  type TaskId = nat
  // A `SessionState` object.  Several objects may carry the same session id.
  type SessionRef = nat
  // One call to `cancel_session_active_turn`.
  type CancelId = nat

  datatype Frame =
    | TurnStarted
    | AssistantDelta
    | TurnProgress
    | MediaAttachment
    | TurnCompleted
    | TurnCancelled
    | TurnError

  predicate Terminal(f: Frame) {
    f.TurnCompleted? || f.TurnCancelled? || f.TurnError?
  }

  predicate Streamed(f: Frame) {
    f.AssistantDelta? || f.TurnProgress? || f.MediaAttachment?
  }

  // What `run_turn` hands back, or that it panicked.
  datatype Outcome =
    | Success
    | Cancelled
    | BudgetExceeded
    | TurnLimitExceeded
    | DeadlineExceeded
    | OtherError
    | Panicked

  datatype StopReason = StopCompleted | StopCancelled | MaxBudget | MaxTurns | MaxRuntime | StopError | PolicyStop

  datatype StreamItem = Text | Progress | BudgetUpdate | PolicyStopItem | Media | Ignored

  // Where a submit call or its spawned task stands; the name says what happens next.
  datatype Phase =
    | Submitted                 // lock `active_turn` and test it
    | Rejected                  // returned "an active turn is already running"
    | Admitted                  // reset `latest_terminal_frame`
    | Resolving                 // get_or_create_user
    | Enqueueing                // load `queued_turns`
    | Comparing(seen: nat)      // compare_exchange(seen, seen + 1)
    | RollingBack               // queue full: lock `active_turn` and empty it
    | RolledBack                // returned "too many queued turns"
    | Waiting                   // spawned; select between cancellation and the semaphore
    | TookPermit                // select chose the permit; fetch_sub
    | GaveUp                    // select chose cancellation; fetch_sub
    | DroppingAcquire           // drop the acquire future, returning a permit already granted to it
    | NoPermit                  // build the terminal frame of a turn without permit
    | CheckingCancel            // test the token with the permit held
    | Starting                  // publish TurnStarted
    | Running                   // inside `run_turn`
    | Stopping(outcome: Outcome)// store the stop reason
    | Clearing(frame: Frame)    // lock `active_turn` and empty it if the turn id matches
    | Storing(frame: Frame)     // store `latest_terminal_frame`
    | Publishing(frame: Frame)  // publish the terminal frame
    | Releasing                 // drop the permit
    | Finished

  datatype Task = Task(
    session: SessionRef,
    turnId: string,
    phase: Phase,
    holds: bool,        // a semaphore permit is granted to this task
    cancelled: bool,    // state of this task's token
    admittedAt: nat)    // clock value of the admission, meaningful once admitted

  datatype ActiveTurn = ActiveTurn(turnId: string, token: TaskId)

  datatype Session = Session(
    sessionId: string,
    userId: string,
    slot: Option<ActiveTurn>,
    latest: Option<(TaskId, Frame)>,
    stopReason: Option<StopReason>,
    log: seq<(TaskId, Frame)>)   // everything published, tagged with the publishing task

  datatype User = User(queued: nat, free: nat)

  datatype Cancel = Cancel(session: SessionRef, target: Option<TaskId>, readAt: nat, fired: bool)

  datatype Config = Config(maxConcurrent: nat, maxQueued: nat)

  datatype State = State(
    config: Config,
    clock: nat,
    tasks: map<TaskId, Task>,
    sessions: map<SessionRef, Session>,
    users: map<string, User>,
    cancels: map<CancelId, Cancel>)

  datatype Choice =
    | Go
    | Acquire                       // the semaphore grants a permit to the waiting future
    | TakePermit                    // select resolves with the permit
    | ObserveCancel                 // select resolves with the cancellation
    | Stream(item: StreamItem)      // `run_turn` emits an item
    | Finish(outcome: Outcome)      // `run_turn` ends

  datatype Action =
    | OpenSession(x: SessionRef, sessionId: string, userId: string)
    | Submit(t: TaskId, x: SessionRef, turnId: string)
    | Step(t: TaskId, choice: Choice)
    | CancelRead(c: CancelId, x: SessionRef)
    | CancelFire(c: CancelId)

  // -------------------------------------------------------------------------
  // Transitions
  // -------------------------------------------------------------------------

  function Init(config: Config): State {
    State(config, 0, map[], map[], map[], map[])
  }

  // A user's state, or the one `get_or_create_user` would create.
  function UserOf(s: State, userId: string): User {
    if userId in s.users then s.users[userId] else User(0, s.config.maxConcurrent)
  }

  // The part of the state that one step of a task reads and writes.
  datatype Local = Local(task: Task, session: Session, user: User)

  function FetchSub(n: nat): nat {
    if n == 0 then U64_MAX else n - 1
  }

  function TerminalOf(o: Outcome): Frame {
    match o
    case Success => TurnCompleted
    case Cancelled => TurnCancelled
    case _ => TurnError
  }

  function ReasonOf(o: Outcome): StopReason {
    match o
    case Success => StopCompleted
    case Cancelled => StopCancelled
    case BudgetExceeded => MaxBudget
    case TurnLimitExceeded => MaxTurns
    case DeadlineExceeded => MaxRuntime
    case OtherError => StopError
    case Panicked => StopError
  }

  function Publish(x: Session, me: TaskId, f: Frame): Session {
    x.(log := x.log + [(me, f)])
  }

  function Enter(l: Local, phase: Phase): Local {
    l.(task := l.task.(phase := phase))
  }

  // The stream items that become frames.
  function FrameOf(item: StreamItem): Option<Frame> {
    match item
    case Text => Some(AssistantDelta)
    case Progress => Some(TurnProgress)
    case Media => Some(MediaAttachment)
    case _ => None
  }

  function EmitItem(l: Local, me: TaskId, item: StreamItem): Local {
    match FrameOf(item)
    case Some(f) => l.(session := Publish(l.session, me, f))
    case None => if item.PolicyStopItem? then l.(session := l.session.(stopReason := Some(PolicyStop))) else l
  }

  // One atomic step of task `me`, or None when the task cannot take this step now.
  function TaskStep(config: Config, now: nat, me: TaskId, l: Local, c: Choice): Option<Local> {
    var t, x, u := l.task, l.session, l.user;
    match (t.phase, c)
    case (Submitted, Go) =>
      if x.slot.Some? then Some(Enter(l, Rejected))
      else Some(Local(t.(phase := Admitted, admittedAt := now),
                      x.(slot := Some(ActiveTurn(t.turnId, me))), u))
    case (Admitted, Go) => Some(Enter(l.(session := x.(latest := None)), Resolving))
    case (Resolving, Go) => Some(Enter(l, Enqueueing))
    case (Enqueueing, Go) =>
      Some(Enter(l, if u.queued >= config.maxQueued then RollingBack else Comparing(u.queued)))
    case (Comparing(seen), Go) =>
      if u.queued == seen then Some(Enter(l.(user := u.(queued := seen + 1)), Waiting))
      else Some(Enter(l, Enqueueing))
    case (RollingBack, Go) => Some(Enter(l.(session := x.(slot := None)), RolledBack))
    case (Waiting, Acquire) =>
      if !t.holds && u.free > 0 then Some(l.(task := t.(holds := true), user := u.(free := u.free - 1))) else None
    case (Waiting, TakePermit) => if t.holds then Some(Enter(l, TookPermit)) else None
    case (Waiting, ObserveCancel) => if t.cancelled then Some(Enter(l, GaveUp)) else None
    case (TookPermit, Go) => Some(Enter(l.(user := u.(queued := FetchSub(u.queued))), CheckingCancel))
    case (GaveUp, Go) => Some(Enter(l.(user := u.(queued := FetchSub(u.queued))), DroppingAcquire))
    case (DroppingAcquire, Go) => Some(Enter(Release(l), NoPermit))
    case (NoPermit, Go) => Some(Enter(l, Clearing(if t.cancelled then TurnCancelled else TurnError)))
    case (CheckingCancel, Go) => Some(Enter(l, if t.cancelled then Clearing(TurnCancelled) else Starting))
    case (Starting, Go) => Some(Enter(l.(session := Publish(x, me, TurnStarted)), Running))
    case (Running, Stream(item)) => Some(EmitItem(l, me, item))
    case (Running, Finish(o)) => Some(Enter(l, Stopping(o)))
    case (Stopping(o), Go) =>
      Some(Enter(l.(session := x.(stopReason := Some(ReasonOf(o)))), Clearing(TerminalOf(o))))
    case (Clearing(f), Go) =>
      var slot := if x.slot.Some? && x.slot.value.turnId == t.turnId then None else x.slot;
      Some(Enter(l.(session := x.(slot := slot)), Storing(f)))
    case (Storing(f), Go) => Some(Enter(l.(session := x.(latest := Some((me, f)))), Publishing(f)))
    case (Publishing(f), Go) => Some(Enter(l.(session := Publish(x, me, f)), Releasing))
    case (Releasing, Go) => Some(Enter(Release(l), Finished))
    case _ => None
  }

  // Dropping a permit or an acquire future: a granted permit goes back to the semaphore.
  function Release(l: Local): Local {
    if l.task.holds then l.(task := l.task.(holds := false), user := l.user.(free := l.user.free + 1)) else l
  }

  function LocalOf(s: State, t: TaskId): Local
    requires t in s.tasks && s.tasks[t].session in s.sessions
  {
    var x := s.sessions[s.tasks[t].session];
    Local(s.tasks[t], x, UserOf(s, x.userId))
  }

  // The local state written back into the whole.
  function Write(s: State, t: TaskId, l: Local): State {
    s.(clock := s.clock + 1,
       tasks := s.tasks[t := l.task],
       sessions := s.sessions[l.task.session := l.session],
       users := s.users[l.session.userId := l.user])
  }

  function Next(s: State, a: Action): Option<State> {
    match a
    case OpenSession(x, sessionId, userId) =>
      if x in s.sessions then None
      else Some(s.(clock := s.clock + 1,
                   sessions := s.sessions[x := Session(sessionId, userId, None, None, None, [])]))
    case Submit(t, x, turnId) =>
      if t in s.tasks || x !in s.sessions then None
      else Some(s.(clock := s.clock + 1,
                   tasks := s.tasks[t := Task(x, turnId, Submitted, false, false, 0)]))
    case Step(t, c) =>
      if t !in s.tasks || s.tasks[t].session !in s.sessions then None
      else
        (match TaskStep(s.config, s.clock, t, LocalOf(s, t), c)
         case None => None
         case Some(l) => Some(Write(s, t, l)))
    case CancelRead(c, x) =>
      if c in s.cancels || x !in s.sessions then None
      else
        var slot := s.sessions[x].slot;
        var target := if slot.Some? then Some(slot.value.token) else None;
        Some(s.(clock := s.clock + 1, cancels := s.cancels[c := Cancel(x, target, s.clock, false)]))
    case CancelFire(c) =>
      if c !in s.cancels || s.cancels[c].fired then None
      else
        var k := s.cancels[c];
        var s' := s.(clock := s.clock + 1, cancels := s.cancels[c := k.(fired := true)]);
        if k.target.Some? && k.target.value in s.tasks
        then Some(s'.(tasks := s.tasks[k.target.value := s.tasks[k.target.value].(cancelled := true)]))
        else Some(s')
  }

  // A whole run: every action is enabled where it happens.
  function Exec(s: State, acts: seq<Action>): Option<State>
    decreases |acts|
  {
    if acts == [] then Some(s)
    else
      match Next(s, acts[0])
      case None => None
      case Some(s1) => Exec(s1, acts[1..])
  }

  // The frames of one turn, in the order in which they were published.
  function Own(log: seq<(TaskId, Frame)>, t: TaskId): seq<Frame> {
    if log == [] then []
    else Own(log[..|log| - 1], t) + (if log[|log| - 1].0 == t then [log[|log| - 1].1] else [])
  }

  function FramesOf(s: State, t: TaskId): seq<Frame>
    requires t in s.tasks && s.tasks[t].session in s.sessions
  {
    Own(s.sessions[s.tasks[t].session].log, t)
  }
}
