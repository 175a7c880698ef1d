/** The IMAP IDLE connections of the mail app: one client per user, reconnects with growing
    delays, a grace period after the last browser connection goes, and a periodic restart.
    The state changes one stretch between awaits at a time. */
module MailIdle {
  import opened Types

  const RECONNECT_DELAY_MS: nat := 5000
  const MAX_RECONNECT_ATTEMPTS: nat := 3

  /** Every connection has a client of its own, so one number names both. */
  datatype Connection = Connection(user: string, isErrorHandled: bool, idleRestartTimer: Option<nat>)

  datatype Timer =
    | ReconnectTimer(user: string, attempt: nat)
    | DisconnectTimer(user: string)
    | RestartTimer(user: string)

  /** Who called `createIdleConnection`. */
  datatype Origin = FromStart | FromRestart | FromRetry(attempt: nat)

  /** An awaited call that has not answered yet: `Stopping` is the logout in `stopIdle` before
      a reconnect or a restart (before anything else its answer changes nothing), `Replacing`
      the logout of a replaced client, `Connecting` the connect and the opening of the inbox,
      `CleaningUp` the logout after a failed connect. */
  datatype Task =
    | Stopping(user: string, restart: bool)
    | Replacing(user: string, origin: Origin)
    | Connecting(user: string, conn: nat, origin: Origin)
    | CleaningUp(user: string, origin: Origin)

  datatype Service = Service(
    idleConnections: map<string, nat>,
    pendingReconnects: map<string, nat>,
    pendingDisconnects: map<string, nat>,
    connections: map<nat, Connection>,
    timers: map<nat, Timer>,
    tasks: map<nat, Task>,
    nextId: nat)

  const EMPTY := Service(map[], map[], map[], map[], map[], map[], 0)

  /** ---- the stretches ---- */

  function CancelReconnect(s: Service, user: string): Service {
    if user in s.pendingReconnects
    then s.(timers := s.timers - {s.pendingReconnects[user]}, pendingReconnects := s.pendingReconnects - {user})
    else s
  }

  function Scheduled(s: Service, user: string, attempt: nat): Service {
    if attempt > MAX_RECONNECT_ATTEMPTS then s
    else
      var c := CancelReconnect(s, user);
      c.(timers := c.timers[c.nextId := ReconnectTimer(user, attempt)],
         pendingReconnects := c.pendingReconnects[user := c.nextId], nextId := c.nextId + 1)
  }

  function Await(s: Service, task: Task): Service {
    s.(tasks := s.tasks[s.nextId := task], nextId := s.nextId + 1)
  }

  function MarkHandled(s: Service, c: nat): Service {
    if c in s.connections then s.(connections := s.connections[c := s.connections[c].(isErrorHandled := true)]) else s
  }

  function WithClient(s: Service, user: string): Service {
    s.(connections := s.connections[s.nextId := Connection(user, false, None)], nextId := s.nextId + 1)
  }

  function OpenClient(s: Service, user: string, origin: Origin): Service {
    Await(WithClient(s, user), Connecting(user, s.nextId, origin))
  }

  /** The beginning of `createIdleConnection`.  A replaced connection keeps its restart timer. */
  function Create(s: Service, user: string, origin: Origin): Service {
    var c := CancelReconnect(s, user);
    if user in c.idleConnections
    then Await(MarkHandled(c, c.idleConnections[user]).(idleConnections := c.idleConnections - {user}), Replacing(user, origin))
    else OpenClient(c, user, origin)
  }

  function RestartTimerOf(s: Service, c: nat): set<nat> {
    if c in s.connections && s.connections[c].idleRestartTimer.Some? then {s.connections[c].idleRestartTimer.value} else {}
  }

  /** `stopIdle` up to its await. */
  function Stopped(s: Service, user: string): Service {
    if user !in s.idleConnections then s
    else
      var c := s.idleConnections[user];
      MarkHandled(s, c).(idleConnections := s.idleConnections - {user}, timers := s.timers - RestartTimerOf(s, c))
  }

  function StopThen(s: Service, user: string, restart: bool): Service {
    if user in s.idleConnections then Await(Stopped(s, user), Stopping(user, restart)) else s
  }

  /** The client has connected and the inbox is open. */
  function Connected(s: Service, user: string, c: nat): Service
    requires c in s.connections
  {
    s.(idleConnections := s.idleConnections[user := c],
       connections := s.connections[c := s.connections[c].(idleRestartTimer := Some(s.nextId))],
       timers := (s.timers - RestartTimerOf(s, c))[s.nextId := RestartTimer(user)], nextId := s.nextId + 1)
  }

  function Answered(s: Service, task: Task, ok: bool): Service
    requires task.Connecting? ==> task.conn in s.connections
  {
    match task
    case Stopping(user, restart) => if restart then Create(s, user, FromRestart) else Scheduled(s, user, 1)
    case Replacing(user, origin) => OpenClient(s, user, origin)
    case Connecting(user, c, origin) =>
      if ok then Connected(s, user, c) else Await(MarkHandled(s, c), CleaningUp(user, origin))
    case CleaningUp(user, origin) => if origin.FromRetry? then Scheduled(s, user, origin.attempt + 1) else s
  }

  function Fired(s: Service, timer: Timer): Service {
    match timer
    case ReconnectTimer(user, attempt) =>
      Create(s.(pendingReconnects := s.pendingReconnects - {user}), user, FromRetry(attempt))
    case DisconnectTimer(user) =>
      Stopped(CancelReconnect(s.(pendingDisconnects := s.pendingDisconnects - {user}), user), user)
    case RestartTimer(user) => StopThen(s, user, true)
  }

  function UserDisconnected(s: Service, user: string): Service {
    if user !in s.idleConnections || user in s.pendingDisconnects then s
    else s.(timers := s.timers[s.nextId := DisconnectTimer(user)],
            pendingDisconnects := s.pendingDisconnects[user := s.nextId], nextId := s.nextId + 1)
  }

  function UserConnected(s: Service, user: string): Service {
    if user in s.pendingDisconnects
    then s.(timers := s.timers - {s.pendingDisconnects[user]}, pendingDisconnects := s.pendingDisconnects - {user})
    else s
  }

  function ClearPending(s: Service): Service {
    s.(timers := s.timers - s.pendingDisconnects.Values - s.pendingReconnects.Values,
       pendingDisconnects := map[], pendingReconnects := map[])
  }

  function StopEach(s: Service, users: seq<string>): Service
    decreases |users|
  {
    if users == [] then s else StopEach(Stopped(s, users[0]), users[1..])
  }

  /** `ready` in `Start`: below the connection cap, with IMAP configured and credentials given.
      `ClientEvent` is an error or a close of a client, whatever became of its connection. */
  datatype Event =
    | Start(user: string, ready: bool)
    | ClientEvent(conn: nat)
    | Fire(timer: nat)
    | Answer(task: nat, ok: bool)
    | Disconnected(user: string)
    | Reconnected(user: string)
    | StopAll(users: seq<string>)

  predicate Enabled(s: Service, e: Event) {
    match e
    case ClientEvent(c) => c in s.connections
    case Fire(t) => t in s.timers
    case Answer(k, _) => k in s.tasks && (s.tasks[k].Connecting? ==> s.tasks[k].conn in s.connections)
    case StopAll(users) => (set u | u in users) == s.idleConnections.Keys
    case _ => true
  }

  function Apply(s: Service, e: Event): Service
    requires Enabled(s, e)
  {
    match e
    case Start(user, ready) => if user in s.idleConnections || !ready then s else Create(s, user, FromStart)
    case ClientEvent(c) =>
      if s.connections[c].isErrorHandled then s else StopThen(MarkHandled(s, c), s.connections[c].user, false)
    case Fire(t) => Fired(s.(timers := s.timers - {t}), s.timers[t])
    case Answer(k, ok) => Answered(s.(tasks := s.tasks - {k}), s.tasks[k], ok)
    case Disconnected(user) => UserDisconnected(s, user)
    case Reconnected(user) => UserConnected(s, user)
    case StopAll(users) => StopEach(ClearPending(s), users)
  }

  /** Shutting down is possible at any moment: the keys of the map come in some order. */
  lemma {:induction false} StopAllIsPossible(s: Service, left: set<string>) returns (users: seq<string>)
    requires left <= s.idleConnections.Keys
    ensures (set u | u in users) == left
    ensures left == s.idleConnections.Keys ==> Enabled(s, StopAll(users))
    decreases |left|
  {
    users := [];
    if left != {} {
      var u :| u in left;
      var rest := StopAllIsPossible(s, left - {u});
      users := [u] + rest;
      assert (set x | x in users) == {u} + (set x | x in rest);
    }
  }

  ghost predicate CanRun(s: Service, events: seq<Event>)
    decreases |events|
  {
    events != [] ==> Enabled(s, events[0]) && CanRun(Apply(s, events[0]), events[1..])
  }

  ghost function Run(s: Service, events: seq<Event>): Service
    requires CanRun(s, events)
    decreases |events|
  {
    if events == [] then s else Run(Apply(s, events[0]), events[1..])
  }

  /** ---- timers and maps ---- */

  /** The armed reconnect timers are exactly the pending reconnects: at most one a user. */
  ghost predicate ReconnectsExact(s: Service) {
    && (forall u :: u in s.pendingReconnects ==>
         s.pendingReconnects[u] in s.timers && s.timers[s.pendingReconnects[u]].ReconnectTimer? && s.timers[s.pendingReconnects[u]].user == u)
    && (forall t :: t in s.timers && s.timers[t].ReconnectTimer? ==>
         s.timers[t].user in s.pendingReconnects && s.pendingReconnects[s.timers[t].user] == t)
  }

  ghost predicate DisconnectsExact(s: Service) {
    && (forall u :: u in s.pendingDisconnects ==>
         s.pendingDisconnects[u] in s.timers && s.timers[s.pendingDisconnects[u]] == DisconnectTimer(u))
    && (forall t :: t in s.timers && s.timers[t].DisconnectTimer? ==>
         s.timers[t].user in s.pendingDisconnects && s.pendingDisconnects[s.timers[t].user] == t)
  }

  ghost predicate FreshIds(s: Service) {
    && (forall t :: t in s.timers ==> t < s.nextId)
    && (forall c :: c in s.connections ==> c < s.nextId)
    && (forall k :: k in s.tasks ==> k < s.nextId)
  }

  /** A restart timer that a connection remembers is, while armed, a restart timer of its user. */
  ghost predicate RestartsOwned(s: Service) {
    forall c :: c in s.connections && s.connections[c].idleRestartTimer.Some? ==> RestartOwned(s, c)
  }

  ghost predicate RestartOwned(s: Service, c: nat)
    requires c in s.connections && s.connections[c].idleRestartTimer.Some?
  {
    var t := s.connections[c].idleRestartTimer.value;
    t < s.nextId && (t in s.timers ==> s.timers[t] == RestartTimer(s.connections[c].user))
  }

  ghost predicate Watched(s: Service, user: string)
    requires user in s.idleConnections
  {
    var c := s.idleConnections[user];
    && c in s.connections && s.connections[c].user == user
    && s.connections[c].idleRestartTimer.Some? && s.connections[c].idleRestartTimer.value in s.timers
  }

  /** Every connection in the map is its user's own, and its restart is armed. */
  ghost predicate AllWatched(s: Service) {
    forall u :: u in s.idleConnections ==> Watched(s, u)
  }

  ghost predicate TasksOk(s: Service) {
    forall k :: k in s.tasks && s.tasks[k].Connecting? ==> TaskOk(s, k, s.tasks[k])
  }

  /** A client that is connecting was made just before its task and has no restart timer. */
  ghost predicate TaskOk(s: Service, k: nat, task: Task)
    requires task.Connecting?
  {
    k == task.conn + 1 && task.conn in s.connections && s.connections[task.conn] in
      {Connection(task.user, false, None), Connection(task.user, true, None)}
  }

  ghost predicate Inv(s: Service) {
    ReconnectsExact(s) && DisconnectsExact(s) && FreshIds(s) && RestartsOwned(s) && AllWatched(s) && TasksOk(s)
  }

  lemma CancelKeeps(s: Service, user: string)
    requires Inv(s)
    ensures Inv(CancelReconnect(s, user))
  {
  }

  lemma ScheduleKeeps(s: Service, user: string, attempt: nat)
    requires Inv(s)
    ensures Inv(Scheduled(s, user, attempt))
  {
    CancelKeeps(s, user);
    var c := CancelReconnect(s, user);
    if attempt <= MAX_RECONNECT_ATTEMPTS {
      ArmKeeps(c, user, attempt);
    }
  }

  lemma ArmKeeps(c: Service, user: string, attempt: nat)
    requires Inv(c) && user !in c.pendingReconnects
    ensures Inv(c.(timers := c.timers[c.nextId := ReconnectTimer(user, attempt)],
                   pendingReconnects := c.pendingReconnects[user := c.nextId], nextId := c.nextId + 1))
  {
  }

  lemma AwaitKeeps(s: Service, task: Task)
    requires Inv(s) && (task.Connecting? ==> TaskOk(s, s.nextId, task))
    ensures Inv(Await(s, task))
  {
  }

  lemma NewClientKeeps(s: Service, user: string)
    requires Inv(s)
    ensures Inv(WithClient(s, user))
  {
    var t := WithClient(s, user);
    forall u | u in t.idleConnections
      ensures Watched(t, u)
    {
      assert Watched(s, u);
    }
    forall c | c in t.connections && t.connections[c].idleRestartTimer.Some?
      ensures RestartOwned(t, c)
    {
      assert RestartOwned(s, c);
    }
  }

  lemma OpenKeeps(s: Service, user: string, origin: Origin)
    requires Inv(s)
    ensures Inv(OpenClient(s, user, origin))
  {
    NewClientKeeps(s, user);
    AwaitKeeps(WithClient(s, user), Connecting(user, s.nextId, origin));
  }

  lemma HandledKeeps(s: Service, c: nat)
    requires Inv(s)
    ensures Inv(MarkHandled(s, c))
  {
  }

  lemma CreateKeeps(s: Service, user: string, origin: Origin)
    requires Inv(s)
    ensures Inv(Create(s, user, origin))
  {
    CancelKeeps(s, user);
    var c := CancelReconnect(s, user);
    if user in c.idleConnections {
      var marked := MarkHandled(c, c.idleConnections[user]);
      HandledKeeps(c, c.idleConnections[user]);
      assert Inv(marked.(idleConnections := c.idleConnections - {user}));
      AwaitKeeps(marked.(idleConnections := c.idleConnections - {user}), Replacing(user, origin));
    } else {
      OpenKeeps(c, user, origin);
    }
  }

  lemma StopIdleKeeps(s: Service, user: string)
    requires Inv(s)
    ensures Inv(Stopped(s, user))
  {
  }

  lemma StopThenKeeps(s: Service, user: string, restart: bool)
    requires Inv(s)
    ensures Inv(StopThen(s, user, restart))
  {
    StopIdleKeeps(s, user);
    AwaitKeeps(Stopped(s, user), Stopping(user, restart));
  }

  lemma ConnectedKeeps(s: Service, user: string, c: nat)
    requires Inv(s) && c in s.connections && s.connections[c].user == user
    requires c + 1 !in s.tasks
    ensures Inv(Connected(s, user, c))
  {
  }

  lemma ReconnectFires(s: Service, t: nat, user: string, attempt: nat)
    requires Inv(s) && t in s.timers && s.timers[t] == ReconnectTimer(user, attempt)
    ensures Inv(s.(timers := s.timers - {t}, pendingReconnects := s.pendingReconnects - {user}))
  {
  }

  lemma DisconnectFires(s: Service, t: nat, user: string)
    requires Inv(s) && t in s.timers && s.timers[t] == DisconnectTimer(user)
    ensures Inv(s.(timers := s.timers - {t}, pendingDisconnects := s.pendingDisconnects - {user}))
  {
  }

  /** A fired restart timer leaves its connection unwatched until the same stretch stops it. */
  lemma RestartFires(s: Service, t: nat, user: string)
    requires Inv(s) && t in s.timers && s.timers[t] == RestartTimer(user)
    ensures Inv(Stopped(s.(timers := s.timers - {t}), user))
  {
    StopIdleKeeps(s, user);
    var stopped := Stopped(s, user);
    forall u | u in stopped.idleConnections
      ensures RestartTimerOf(stopped, stopped.idleConnections[u]) !! {t}
    {
      assert Watched(stopped, u) && RestartOwned(stopped, stopped.idleConnections[u]);
    }
    StoppedWithout(s, t, user);
    hide Inv, Stopped;
    RestartTimerGone(stopped, t);
  }

  lemma StoppedWithout(s: Service, t: nat, user: string)
    ensures Stopped(s.(timers := s.timers - {t}), user) == Stopped(s, user).(timers := Stopped(s, user).timers - {t})
  {
    if user in s.idleConnections {
      var gone := RestartTimerOf(s, s.idleConnections[user]);
      assert s.timers - {t} - gone == s.timers - gone - {t};
    }
  }

  lemma RestartTimerGone(s: Service, t: nat)
    requires Inv(s) && (t in s.timers ==> s.timers[t].RestartTimer?)
    requires forall u :: u in s.idleConnections ==> RestartTimerOf(s, s.idleConnections[u]) !! {t}
    ensures Inv(s.(timers := s.timers - {t}))
  {
    forall u | u in s.idleConnections
      ensures Watched(s.(timers := s.timers - {t}), u)
    {
      assert Watched(s, u);
    }
  }

  lemma FiredKeeps(s: Service, t: nat)
    requires Inv(s) && t in s.timers
    ensures Inv(Apply(s, Fire(t)))
  {
    var without := s.(timers := s.timers - {t});
    match s.timers[t]
    case ReconnectTimer(user, attempt) =>
      ReconnectFires(s, t, user, attempt);
      CreateKeeps(without.(pendingReconnects := s.pendingReconnects - {user}), user, FromRetry(attempt));
    case DisconnectTimer(user) =>
      var next := without.(pendingDisconnects := s.pendingDisconnects - {user});
      DisconnectFires(s, t, user);
      CancelKeeps(next, user);
      StopIdleKeeps(CancelReconnect(next, user), user);
    case RestartTimer(user) =>
      RestartFires(s, t, user);
      if user in s.idleConnections {
        AwaitKeeps(Stopped(without, user), Stopping(user, true));
      }
  }

  lemma FailedKeeps(s: Service, user: string, c: nat, origin: Origin)
    requires Inv(s)
    ensures Inv(Await(MarkHandled(s, c), CleaningUp(user, origin)))
  {
    HandledKeeps(s, c);
    AwaitKeeps(MarkHandled(s, c), CleaningUp(user, origin));
  }

  lemma AnswerTaken(s: Service, k: nat)
    requires Inv(s)
    ensures Inv(s.(tasks := s.tasks - {k}))
  {
  }

  lemma AnsweredKeeps(s: Service, k: nat, ok: bool)
    requires Inv(s) && k in s.tasks
    ensures Inv(Apply(s, Answer(k, ok)))
  {
    var next := s.(tasks := s.tasks - {k});
    AnswerTaken(s, k);
    match s.tasks[k]
    case Stopping(user, restart) =>
      if restart {
        CreateKeeps(next, user, FromRestart);
      } else {
        ScheduleKeeps(next, user, 1);
      }
    case Replacing(user, origin) => OpenKeeps(next, user, origin);
    case Connecting(user, c, origin) =>
      if ok {
        ConnectedKeeps(next, user, c);
      } else {
        FailedKeeps(next, user, c, origin);
      }
    case CleaningUp(user, origin) =>
      if origin.FromRetry? {
        ScheduleKeeps(next, user, origin.attempt + 1);
      }
  }

  lemma DisconnectedKeeps(s: Service, user: string)
    requires Inv(s)
    ensures Inv(UserDisconnected(s, user))
  {
  }

  lemma ReconnectedKeeps(s: Service, user: string)
    requires Inv(s)
    ensures Inv(UserConnected(s, user))
  {
  }

  lemma {:induction false} StopEachKeeps(s: Service, users: seq<string>)
    requires Inv(s)
    ensures Inv(StopEach(s, users))
    decreases |users|
  {
    if users != [] {
      StopIdleKeeps(s, users[0]);
      StopEachKeeps(Stopped(s, users[0]), users[1..]);
    }
  }

  lemma ClearKeeps(s: Service)
    requires Inv(s)
    ensures Inv(ClearPending(s))
  {
    forall u | u in s.idleConnections
      ensures Watched(ClearPending(s), u)
    {
      var t := s.connections[s.idleConnections[u]].idleRestartTimer.value;
      assert RestartOwned(s, s.idleConnections[u]);
      assert t !in s.pendingReconnects.Values && t !in s.pendingDisconnects.Values;
    }
  }

  lemma StepInv(s: Service, e: Event)
    requires Inv(s) && Enabled(s, e)
    ensures Inv(Apply(s, e))
  {
    match e
    case Start(user, ready) => CreateKeeps(s, user, FromStart);
    case ClientEvent(c) =>
      HandledKeeps(s, c);
      StopThenKeeps(MarkHandled(s, c), s.connections[c].user, false);
    case Fire(t) => FiredKeeps(s, t);
    case Answer(k, ok) => AnsweredKeeps(s, k, ok);
    case StopAll(users) =>
      ClearKeeps(s);
      StopEachKeeps(ClearPending(s), users);
    case Disconnected(user) => DisconnectedKeeps(s, user);
    case Reconnected(user) => ReconnectedKeeps(s, user);
  }

  lemma {:induction false} RunInv(s: Service, events: seq<Event>)
    requires Inv(s) && CanRun(s, events)
    ensures Inv(Run(s, events))
    decreases |events|
  {
    if events != [] {
      StepInv(s, events[0]);
      RunInv(Apply(s, events[0]), events[1..]);
    }
  }

  /** In every interleaving the armed reconnect and disconnect timers are exactly the entries
      of their maps, and every connection in the map has its restart armed. */
  lemma TimersAreTheMapEntries(events: seq<Event>)
    requires CanRun(EMPTY, events)
    ensures var s := Run(EMPTY, events); ReconnectsExact(s) && DisconnectsExact(s) && AllWatched(s)
  {
    RunInv(EMPTY, events);
  }

  /** ---- one error, one reconnect ---- */

  predicate Handled(s: Service, c: nat) {
    c in s.connections && s.connections[c].isErrorHandled
  }

  /** The event comes from the client of `c`, and changes anything. */
  predicate Triggers(s: Service, e: Event, c: nat)
    requires Enabled(s, e)
  {
    e == ClientEvent(c) && Apply(s, e) != s
  }

  /** The client calls `handleConnectionError` then. */
  lemma TriggersUnlessHandled(s: Service, e: Event, c: nat)
    requires Enabled(s, e)
    ensures Triggers(s, e, c) <==> e == ClientEvent(c) && !Handled(s, c)
  {
    if e == ClientEvent(c) && !Handled(s, c) {
      assert Handled(Apply(s, e), c);
    }
  }

  ghost function TriggerCount(s: Service, events: seq<Event>, c: nat): nat
    requires CanRun(s, events)
    decreases |events|
  {
    if events == [] then 0
    else (if Triggers(s, events[0], c) then 1 else 0) + TriggerCount(Apply(s, events[0]), events[1..], c)
  }

  lemma {:induction false} StopEachKeepsHandled(s: Service, users: seq<string>, c: nat)
    requires Handled(s, c)
    ensures Handled(StopEach(s, users), c)
    decreases |users|
  {
    if users != [] {
      StopEachKeepsHandled(Stopped(s, users[0]), users[1..], c);
    }
  }

  /** Connections stay known, and a set error flag stays set. */
  ghost predicate Grows(s: Service, t: Service) {
    forall c :: c in s.connections ==> c in t.connections && (Handled(s, c) ==> Handled(t, c))
  }

  lemma CreateGrows(s: Service, user: string, origin: Origin)
    requires FreshIds(s)
    ensures Grows(s, Create(s, user, origin))
  {
  }

  lemma AnsweredGrows(s: Service, task: Task, ok: bool)
    requires FreshIds(s) && (task.Connecting? ==> task.conn in s.connections)
    ensures Grows(s, Answered(s, task, ok))
  {
    CreateGrows(s, task.user, FromRestart);
  }

  lemma StopThenGrows(s: Service, user: string)
    ensures Grows(s, Stopped(s, user)) && Grows(s, StopThen(s, user, true))
  {
  }

  lemma FiredGrows(s: Service, timer: Timer)
    requires FreshIds(s)
    ensures Grows(s, Fired(s, timer))
  {
    match timer
    case ReconnectTimer(user, attempt) =>
      CreateGrows(s.(pendingReconnects := s.pendingReconnects - {user}), user, FromRetry(attempt));
    case DisconnectTimer(user) =>
      StopThenGrows(CancelReconnect(s.(pendingDisconnects := s.pendingDisconnects - {user}), user), user);
    case RestartTimer(user) => StopThenGrows(s, user);
  }

  lemma StepKeepsHandled(s: Service, e: Event, c: nat)
    requires FreshIds(s) && Enabled(s, e) && Handled(s, c)
    ensures Handled(Apply(s, e), c)
  {
    match e
    case Start(user, ready) => CreateGrows(s, user, FromStart);
    case Fire(t) => FiredGrows(s.(timers := s.timers - {t}), s.timers[t]);
    case Answer(k, ok) => AnsweredGrows(s.(tasks := s.tasks - {k}), s.tasks[k], ok);
    case StopAll(users) => StopEachKeepsHandled(ClearPending(s), users, c);
    case _ =>
  }

  /** A client whose error flag is set never calls `handleConnectionError` again. */
  lemma {:induction false} HandledStaysQuiet(s: Service, events: seq<Event>, c: nat)
    requires Inv(s) && CanRun(s, events) && Handled(s, c)
    ensures TriggerCount(s, events, c) == 0
    decreases |events|
  {
    if events != [] {
      TriggersUnlessHandled(s, events[0], c);
      StepKeepsHandled(s, events[0], c);
      StepInv(s, events[0]);
      HandledStaysQuiet(Apply(s, events[0]), events[1..], c);
    }
  }

  /** In every interleaving one client calls `handleConnectionError` at most once. */
  lemma {:induction false} TriggersAtMostOnce(s: Service, events: seq<Event>, c: nat)
    requires Inv(s) && CanRun(s, events)
    ensures TriggerCount(s, events, c) <= 1
    decreases |events|
  {
    if events != [] {
      TriggersUnlessHandled(s, events[0], c);
      StepInv(s, events[0]);
      if Triggers(s, events[0], c) {
        HandledStaysQuiet(Apply(s, events[0]), events[1..], c);
      } else {
        TriggersAtMostOnce(Apply(s, events[0]), events[1..], c);
      }
    }
  }

  /** A second connection of a user comes up while the first is still in the map. */
  predicate Overwrites(s: Service, e: Event)
    requires Enabled(s, e)
  {
    e.Answer? && e.ok && s.tasks[e.task].Connecting? && s.tasks[e.task].user in s.idleConnections
  }

  lemma {:induction false} StopEachHandles(s: Service, users: seq<string>, user: string)
    requires Inv(s) && user in s.idleConnections
    ensures var t := StopEach(s, users);
      if user in users then user !in t.idleConnections && Handled(t, s.idleConnections[user])
      else user in t.idleConnections && t.idleConnections[user] == s.idleConnections[user]
    decreases |users|
  {
    if users != [] {
      var next := Stopped(s, users[0]);
      StopIdleKeeps(s, users[0]);
      assert Watched(s, user);
      if users[0] == user {
        StopEachKeepsHandled(next, users[1..], s.idleConnections[user]);
        StopEachAbsent(next, users[1..], user);
      } else {
        StopEachHandles(next, users[1..], user);
      }
    }
  }

  lemma {:induction false} StopEachAbsent(s: Service, users: seq<string>, user: string)
    requires user !in s.idleConnections
    ensures user !in StopEach(s, users).idleConnections
    decreases |users|
  {
    if users != [] {
      StopEachAbsent(Stopped(s, users[0]), users[1..], user);
    }
  }

  /** `user`'s connection is still in the map, or its error flag is set. */
  ghost predicate LeftHandled(s: Service, t: Service, user: string)
    requires user in s.idleConnections
  {
    (user in t.idleConnections && t.idleConnections[user] == s.idleConnections[user]) || Handled(t, s.idleConnections[user])
  }

  lemma CreateLeaves(s: Service, owner: string, origin: Origin, user: string)
    requires Inv(s) && user in s.idleConnections
    ensures LeftHandled(s, Create(s, owner, origin), user)
  {
    assert Watched(s, user);
  }

  lemma FireLeaves(s: Service, t: nat, user: string)
    requires Inv(s) && t in s.timers && user in s.idleConnections
    ensures LeftHandled(s, Apply(s, Fire(t)), user)
  {
    var without := s.(timers := s.timers - {t});
    assert Watched(s, user);
    match s.timers[t]
    case ReconnectTimer(owner, attempt) =>
      ReconnectFires(s, t, owner, attempt);
      CreateLeaves(without.(pendingReconnects := s.pendingReconnects - {owner}), owner, FromRetry(attempt), user);
    case _ =>
  }

  lemma AnswerLeaves(s: Service, k: nat, ok: bool, user: string)
    requires Inv(s) && Enabled(s, Answer(k, ok)) && !Overwrites(s, Answer(k, ok)) && user in s.idleConnections
    ensures LeftHandled(s, Apply(s, Answer(k, ok)), user)
  {
    var next := s.(tasks := s.tasks - {k});
    assert Watched(s, user);
    match s.tasks[k]
    case Stopping(owner, _) =>
      AnswerTaken(s, k);
      CreateLeaves(next, owner, FromRestart, user);
    case _ =>
  }

  /** `user`'s connection in the map leaves it. */
  predicate Leaves(s: Service, e: Event, user: string)
    requires Enabled(s, e) && user in s.idleConnections
  {
    var t := Apply(s, e);
    user !in t.idleConnections || t.idleConnections[user] != s.idleConnections[user]
  }

  /** A connection that leaves the map, by `stopIdle`, by being replaced or at shutdown, never
      calls `handleConnectionError` afterwards, whatever its client still reports. */
  lemma SilentAfterStop(s: Service, e: Event, rest: seq<Event>, user: string)
    requires Inv(s) && Enabled(s, e) && !Overwrites(s, e) && user in s.idleConnections && Leaves(s, e, user)
    requires CanRun(Apply(s, e), rest)
    ensures TriggerCount(Apply(s, e), rest, s.idleConnections[user]) == 0
  {
    hide Inv, Apply, Enabled, CanRun, TriggerCount, Overwrites;
    LeavesHandled(s, e, user);
    StepInv(s, e);
    HandledStaysQuiet(Apply(s, e), rest, s.idleConnections[user]);
  }

  lemma LeavesHandled(s: Service, e: Event, user: string)
    requires Inv(s) && Enabled(s, e) && !Overwrites(s, e) && user in s.idleConnections && Leaves(s, e, user)
    ensures LeftHandled(s, Apply(s, e), user)
  {
    match e {
      case Start(owner, _) => CreateLeaves(s, owner, FromStart, user);
      case Fire(t) => FireLeaves(s, t, user);
      case Answer(k, ok) => AnswerLeaves(s, k, ok, user);
      case StopAll(users) =>
        ClearKeeps(s);
        StopEachHandles(ClearPending(s), users, user);
      case ClientEvent(_) => assert Watched(s, user);
      case _ =>
    }
  }

  ghost predicate AlwaysSilent(s: Service, c: nat) {
    forall rest :: CanRun(s, rest) ==> TriggerCount(s, rest, c) == 0
  }

  /** The one way out of the map that does not silence a connection is another one overwriting
      it: the next error or close of its client then ends the new connection. */
  lemma OverwrittenEndsTheNew(s: Service, e: Event, user: string)
    requires Inv(s) && Enabled(s, e) && Overwrites(s, e) && user in s.idleConnections && Leaves(s, e, user)
    requires !Handled(s, s.idleConnections[user])
    ensures var (c, t) := (s.idleConnections[user], Apply(s, e));
      && user in t.idleConnections && Enabled(t, ClientEvent(c)) && TriggerCount(t, [ClientEvent(c)], c) == 1
      && user !in Apply(t, ClientEvent(c)).idleConnections && Handled(Apply(t, ClientEvent(c)), t.idleConnections[user])
  {
    var c, t := s.idleConnections[user], Apply(s, e);
    assert Watched(s, user) && TaskOk(s, e.task, s.tasks[e.task]);
    assert s.tasks[e.task].user == user;
    assert [ClientEvent(c)][1..] == [];
    TriggersUnlessHandled(t, ClientEvent(c), c);
    assert TriggerCount(Apply(t, ClientEvent(c)), [], c) == 0;
  }

  /** A connection that leaves the map is silent in every continuation if and only if it is not
      overwritten, or its error was handled before. */
  lemma SilentIffNotOverwritten(s: Service, e: Event, user: string)
    requires Inv(s) && Enabled(s, e) && user in s.idleConnections && Leaves(s, e, user)
    ensures AlwaysSilent(Apply(s, e), s.idleConnections[user]) <==> !Overwrites(s, e) || Handled(s, s.idleConnections[user])
  {
    hide Inv, Apply, Enabled, TriggerCount, Overwrites, Leaves;
    var c, t := s.idleConnections[user], Apply(s, e);
    if !Overwrites(s, e) {
      forall rest | CanRun(t, rest) ensures TriggerCount(t, rest, c) == 0 {
        SilentAfterStop(s, e, rest, user);
      }
    } else if Handled(s, c) {
      forall rest | CanRun(t, rest) ensures TriggerCount(t, rest, c) == 0 {
        HandledStaysHandled(s, e, rest, c);
      }
    } else {
      OverwrittenEndsTheNew(s, e, user);
      OneEventRuns(t, ClientEvent(c));
    }
  }

  lemma HandledStaysHandled(s: Service, e: Event, rest: seq<Event>, c: nat)
    requires Inv(s) && Enabled(s, e) && Handled(s, c) && CanRun(Apply(s, e), rest)
    ensures TriggerCount(Apply(s, e), rest, c) == 0
  {
    StepKeepsHandled(s, e, c);
    StepInv(s, e);
    HandledStaysQuiet(Apply(s, e), rest, c);
  }

  lemma OneEventRuns(s: Service, e: Event)
    requires Enabled(s, e)
    ensures CanRun(s, [e])
  {
    assert [e][1..] == [];
  }

  /** ---- the grace period ---- */

  /** A timer of the user's grace period fires. */
  predicate EndsGrace(s: Service, e: Event, user: string)
    requires Enabled(s, e)
  {
    e.Fire? && s.timers[e.timer] == DisconnectTimer(user)
  }

  ghost predicate GraceNeverEnds(s: Service, events: seq<Event>, user: string)
    requires CanRun(s, events)
    decreases |events|
  {
    events != [] ==> !EndsGrace(s, events[0], user) && GraceNeverEnds(Apply(s, events[0]), events[1..], user)
  }

  lemma StepKeepsNoGrace(s: Service, e: Event, user: string)
    requires Inv(s) && Enabled(s, e) && user !in s.pendingDisconnects && e != Disconnected(user)
    ensures user !in Apply(s, e).pendingDisconnects && !EndsGrace(s, e, user)
  {
    OnlyLeavingArmsGrace();
    hide Create, Scheduled, Stopped, StopThen, CancelReconnect, Connected, OpenClient;
    match e
    case StopAll(users) => StopEachKeepsPending(ClearPending(s), users);
    case _ =>
  }

  /** No other function arms a grace period. */
  lemma OnlyLeavingArmsGrace()
    ensures forall s, user, origin :: Create(s, user, origin).pendingDisconnects == s.pendingDisconnects
    ensures forall s, user, origin :: OpenClient(s, user, origin).pendingDisconnects == s.pendingDisconnects
    ensures forall s, user, attempt :: Scheduled(s, user, attempt).pendingDisconnects == s.pendingDisconnects
    ensures forall s, user, restart :: StopThen(s, user, restart).pendingDisconnects == s.pendingDisconnects
    ensures forall s, user :: Stopped(s, user).pendingDisconnects == s.pendingDisconnects
    ensures forall s, user :: CancelReconnect(s, user).pendingDisconnects == s.pendingDisconnects
    ensures forall s: Service, user, c :: c in s.connections ==> Connected(s, user, c).pendingDisconnects == s.pendingDisconnects
  {
  }

  lemma {:induction false} StopEachKeepsPending(s: Service, users: seq<string>)
    ensures StopEach(s, users).pendingDisconnects == s.pendingDisconnects
    decreases |users|
  {
    if users != [] {
      StopEachKeepsPending(Stopped(s, users[0]), users[1..]);
    }
  }

  lemma {:induction false} NoGraceWithoutDisconnect(s: Service, events: seq<Event>, user: string)
    requires Inv(s) && CanRun(s, events) && user !in s.pendingDisconnects && Disconnected(user) !in events
    ensures GraceNeverEnds(s, events, user) && user !in Run(s, events).pendingDisconnects
    decreases |events|
  {
    if events != [] {
      assert events[0] in events && Disconnected(user) !in events[1..];
      StepKeepsNoGrace(s, events[0], user);
      StepInv(s, events[0]);
      NoGraceWithoutDisconnect(Apply(s, events[0]), events[1..], user);
    }
  }

  /** A user who is back is safe: the timer of the grace period is gone, and in every continuation
      in which the user does not leave again none is armed and none fires. */
  lemma ComingBackEndsTheGracePeriod(s: Service, events: seq<Event>, user: string)
    requires Inv(s) && CanRun(Apply(s, Reconnected(user)), events) && Disconnected(user) !in events
    ensures var t := Apply(s, Reconnected(user));
      && (forall k :: k in t.timers ==> t.timers[k] != DisconnectTimer(user))
      && t.idleConnections == s.idleConnections && t.connections == s.connections && t.pendingReconnects == s.pendingReconnects
      && GraceNeverEnds(t, events, user) && user !in Run(t, events).pendingDisconnects
  {
    StepInv(s, Reconnected(user));
    NoGraceWithoutDisconnect(Apply(s, Reconnected(user)), events, user);
  }

  /** When the grace period ends, the user has no connection and no pending reconnect; the
      connection there was is silenced, and its restart timer is gone. */
  lemma GracePeriodEnds(s: Service, t: nat, user: string)
    requires Inv(s) && t in s.timers && s.timers[t] == DisconnectTimer(user)
    ensures var after := Apply(s, Fire(t));
      && user !in after.idleConnections && user !in after.pendingReconnects && user !in after.pendingDisconnects
      && (user in s.idleConnections ==>
           && Handled(after, s.idleConnections[user])
           && s.connections[s.idleConnections[user]].idleRestartTimer.Some?
           && s.connections[s.idleConnections[user]].idleRestartTimer.value !in after.timers)
      && (forall u :: u in s.idleConnections && u != user ==> u in after.idleConnections && after.idleConnections[u] == s.idleConnections[u])
  {
    if user in s.idleConnections {
      assert Watched(s, user);
    }
  }

  /** A user who leaves gets a grace period exactly if there is a connection and none runs. */
  lemma LeavingArmsOneGracePeriod(s: Service, user: string)
    requires Inv(s)
    ensures var t := Apply(s, Disconnected(user));
      && (user in t.pendingDisconnects <==> user in s.pendingDisconnects || user in s.idleConnections)
      && ((exists k :: k in t.timers && k !in s.timers) <==> user in s.idleConnections && user !in s.pendingDisconnects)
      && (forall k :: k in s.timers ==> k in t.timers && t.timers[k] == s.timers[k])
      && (forall k :: k in t.timers && k !in s.timers ==> t.timers[k] == DisconnectTimer(user) && t.pendingDisconnects[user] == k)
      && t.idleConnections == s.idleConnections && t.connections == s.connections
  {
    if user in s.idleConnections && user !in s.pendingDisconnects {
      assert s.nextId !in s.timers && s.nextId in Apply(s, Disconnected(user)).timers;
    }
  }

  /** ---- opening ---- */

  /** A client is being connected for the user, or the one it replaces is logged out first. */
  ghost predicate IsOpening(s: Service, user: string, k: nat) {
    k in s.tasks && s.tasks[k].user == user && (s.tasks[k].Connecting? || s.tasks[k].Replacing?)
  }

  /** A start that can go ahead begins a client and cancels a pending reconnect. */
  lemma StartOpens(s: Service, user: string)
    requires Inv(s) && user !in s.idleConnections
    ensures var t := Apply(s, Start(user, true));
      user !in t.pendingReconnects && exists k :: k !in s.tasks && k in t.tasks && t.tasks[k].Connecting? && t.tasks[k].user == user
    ensures Apply(s, Start(user, false)) == s
  {
    var t := Apply(s, Start(user, true));
    assert t.nextId - 1 in t.tasks && t.nextId - 1 !in s.tasks;
  }

  /** A reconnect that fires, and the answer to the logout of a restart, begin a client too. */
  lemma ReconnectAndRestartOpen(s: Service, user: string, t: nat, attempt: nat, k: nat, ok: bool)
    requires Inv(s)
    ensures t in s.timers && s.timers[t] == ReconnectTimer(user, attempt) ==>
      var after := Apply(s, Fire(t)); user !in after.pendingReconnects && exists j :: j !in s.tasks && IsOpening(after, user, j)
    ensures k in s.tasks && s.tasks[k] == Stopping(user, true) ==>
      exists j :: j !in s.tasks && IsOpening(Apply(s, Answer(k, ok)), user, j)
  {
    hide Create;
    if t in s.timers && s.timers[t] == ReconnectTimer(user, attempt) {
      CreateOpens(s.(timers := s.timers - {t}, pendingReconnects := s.pendingReconnects - {user}), user, FromRetry(attempt));
    }
    if k in s.tasks && s.tasks[k] == Stopping(user, true) {
      var without := s.(tasks := s.tasks - {k});
      CreateOpens(without, user, FromRestart);
      assert Create(without, user, FromRestart).nextId - 1 !in s.tasks;
    }
  }

  lemma CreateOpens(s: Service, user: string, origin: Origin)
    ensures var t := Create(s, user, origin);
      user !in t.pendingReconnects && t.nextId > s.nextId && IsOpening(t, user, t.nextId - 1)
  {
    var c := CancelReconnect(s, user);
    assert user !in c.pendingReconnects && c.nextId == s.nextId;
    hide CancelReconnect, Await, OpenClient;
    if user in c.idleConnections {
      AwaitOpens(MarkHandled(c, c.idleConnections[user]).(idleConnections := c.idleConnections - {user}), Replacing(user, origin));
    } else {
      OpenClientAwaits(c, user, origin);
      AwaitOpens(WithClient(c, user), Connecting(user, c.nextId, origin));
    }
  }

  lemma OpenClientAwaits(s: Service, user: string, origin: Origin)
    ensures OpenClient(s, user, origin) == Await(WithClient(s, user), Connecting(user, s.nextId, origin))
  {
  }

  lemma AwaitOpens(s: Service, task: Task)
    requires task.Connecting? || task.Replacing?
    ensures var t := Await(s, task);
      t.pendingReconnects == s.pendingReconnects && t.nextId == s.nextId + 1 && IsOpening(t, task.user, s.nextId)
  {
  }

  /** The restart timer of a connection stops it for a new one. */
  lemma RestartStopsForANewOne(s: Service, t: nat, user: string)
    requires Inv(s) && t in s.timers && s.timers[t] == RestartTimer(user) && user in s.idleConnections
    ensures var after := Apply(s, Fire(t));
      && user !in after.idleConnections && Handled(after, s.idleConnections[user])
      && exists k :: k in after.tasks && k !in s.tasks && after.tasks[k] == Stopping(user, true)
  {
    assert Watched(s, user);
    assert s.nextId !in s.tasks && s.nextId in Apply(s, Fire(t)).tasks;
  }

  /** A client that fails to connect is silenced before its logout is waited for, in every
      continuation, and the map of connections stays as it is. */
  lemma FailedConnectIsSilenced(s: Service, k: nat, rest: seq<Event>)
    requires Inv(s) && k in s.tasks && s.tasks[k].Connecting? && s.tasks[k].conn in s.connections
    requires CanRun(Apply(s, Answer(k, false)), rest)
    ensures var (task, t) := (s.tasks[k], Apply(s, Answer(k, false)));
      && TriggerCount(t, rest, task.conn) == 0 && t.idleConnections == s.idleConnections
      && k !in t.tasks && exists j :: j in t.tasks && j !in s.tasks && t.tasks[j] == CleaningUp(task.user, task.origin)
  {
    var t := Apply(s, Answer(k, false));
    StepInv(s, Answer(k, false));
    HandledStaysQuiet(t, rest, s.tasks[k].conn);
    assert s.nextId !in s.tasks && s.nextId in t.tasks;
  }

  /** After that logout a new attempt is armed exactly if the connect was itself a reconnect, and
      not the third. */
  lemma OnlyReconnectsAreRetried(s: Service, k: nat, ok: bool)
    requires Inv(s) && k in s.tasks && s.tasks[k].CleaningUp?
    ensures var (origin, t) := (s.tasks[k].origin, Apply(s, Answer(k, ok)));
      && ((exists j :: j in t.timers && j !in s.timers) <==> origin.FromRetry? && origin.attempt < 3)
      && (forall j :: j in t.timers && j !in s.timers ==> t.timers[j] == ReconnectTimer(s.tasks[k].user, origin.attempt + 1))
      && t.idleConnections == s.idleConnections && t.connections == s.connections
  {
    if s.tasks[k].origin.FromRetry? && s.tasks[k].origin.attempt < 3 {
      assert s.nextId in Apply(s, Answer(k, ok)).timers && s.nextId !in s.timers;
    }
  }

  /** ---- restart timers ---- */

  /** Every armed restart timer is the one of its user's connection in the map. */
  ghost predicate RestartsExact(s: Service) {
    forall t :: t in s.timers && s.timers[t].RestartTimer? ==> RestartExact(s, s.timers[t].user, t)
  }

  ghost predicate RestartExact(s: Service, user: string, t: nat) {
    user in s.idleConnections && RestartTimerOf(s, s.idleConnections[user]) == {t}
  }

  /** `createIdleConnection` finds a connection of the same user, at its beginning or when the
      new client is up. */
  predicate Displaces(s: Service, e: Event)
    requires Enabled(s, e)
  {
    match e
    case Fire(t) => s.timers[t].ReconnectTimer? && s.timers[t].user in s.idleConnections
    case Answer(k, ok) =>
      s.tasks[k].user in s.idleConnections && ((s.tasks[k].Stopping? && s.tasks[k].restart) || (s.tasks[k].Connecting? && ok))
    case _ => false
  }

  lemma {:induction false} StopEachRestarts(s: Service, users: seq<string>)
    requires RestartsExact(s)
    ensures RestartsExact(StopEach(s, users))
    decreases |users|
  {
    if users != [] {
      StopKeepsRestarts(s, users[0]);
      StopEachRestarts(Stopped(s, users[0]), users[1..]);
    }
  }

  /** Displacing a connection leaves its restart timer armed with nobody to clear it. */
  lemma DisplacedLeavesItsTimer(s: Service, e: Event)
    requires Inv(s) && Enabled(s, e) && Displaces(s, e)
    ensures !RestartsExact(Apply(s, e))
  {
    var user := if e.Fire? then s.timers[e.timer].user else s.tasks[e.task].user;
    assert Watched(s, user);
    var t := s.connections[s.idleConnections[user]].idleRestartTimer.value;
    assert RestartOwned(s, s.idleConnections[user]);
    if e.Fire? {
      assert t in Apply(s, e).timers && user !in Apply(s, e).idleConnections;
    } else if s.tasks[e.task].Stopping? {
      assert t in Apply(s, e).timers && user !in Apply(s, e).idleConnections;
    } else {
      assert TaskOk(s, e.task, s.tasks[e.task]);
      assert t in Apply(s, e).timers && RestartTimerOf(Apply(s, e), Apply(s, e).idleConnections[user]) == {s.nextId};
    }
    assert !RestartExact(Apply(s, e), user, t);
  }

  lemma PendingsKeepRestarts(s: Service, t: Service)
    requires RestartsExact(s) && t.idleConnections == s.idleConnections && t.connections == s.connections
    requires forall r :: r in t.timers && t.timers[r].RestartTimer? ==> r in s.timers && s.timers[r] == t.timers[r]
    ensures RestartsExact(t)
  {
    forall r | r in t.timers && t.timers[r].RestartTimer?
      ensures RestartExact(t, t.timers[r].user, r)
    {
      assert RestartExact(s, s.timers[r].user, r);
    }
  }

  lemma CancelKeepsRestarts(s: Service, user: string)
    requires Inv(s) && RestartsExact(s)
    ensures RestartsExact(CancelReconnect(s, user))
  {
    PendingsKeepRestarts(s, CancelReconnect(s, user));
  }

  lemma CreateKeepsRestarts(s: Service, user: string, origin: Origin)
    requires Inv(s) && RestartsExact(s) && user !in s.idleConnections
    ensures RestartsExact(Create(s, user, origin))
  {
    CancelKeepsRestarts(s, user);
    var c, t := CancelReconnect(s, user), Create(s, user, origin);
    forall r | r in t.timers && t.timers[r].RestartTimer?
      ensures RestartExact(t, t.timers[r].user, r)
    {
      assert RestartExact(c, c.timers[r].user, r);
      assert Watched(s, c.timers[r].user);
    }
  }

  lemma StopKeepsRestarts(s: Service, user: string)
    requires RestartsExact(s)
    ensures RestartsExact(Stopped(s, user))
  {
    var t := Stopped(s, user);
    forall r | r in t.timers && t.timers[r].RestartTimer?
      ensures RestartExact(t, t.timers[r].user, r)
    {
      assert RestartExact(s, s.timers[r].user, r);
    }
  }

  lemma ConnectedKeepsRestarts(s: Service, user: string, c: nat)
    requires Inv(s) && RestartsExact(s) && user !in s.idleConnections
    requires c in s.connections && s.connections[c] in {Connection(user, false, None), Connection(user, true, None)}
    ensures RestartsExact(Connected(s, user, c))
  {
    var t := Connected(s, user, c);
    forall r | r in t.timers && t.timers[r].RestartTimer?
      ensures RestartExact(t, t.timers[r].user, r)
    {
      if r != s.nextId {
        assert RestartExact(s, s.timers[r].user, r);
        assert Watched(s, s.timers[r].user);
      }
    }
  }

  lemma AnswerKeepsRestarts(s: Service, k: nat, ok: bool)
    requires Inv(s) && RestartsExact(s) && Enabled(s, Answer(k, ok)) && !Displaces(s, Answer(k, ok))
    ensures RestartsExact(Apply(s, Answer(k, ok)))
  {
    var next := s.(tasks := s.tasks - {k});
    AnswerTaken(s, k);
    PendingsKeepRestarts(s, next);
    match s.tasks[k]
    case Stopping(user, restart) =>
      if restart {
        CreateKeepsRestarts(next, user, FromRestart);
      } else {
        ScheduleKeepsRestarts(next, user, 1);
      }
    case Replacing(user, origin) => OpenKeepsRestarts(next, user, origin);
    case Connecting(user, c, origin) =>
      assert TaskOk(s, k, s.tasks[k]);
      if ok {
        ConnectedKeepsRestarts(next, user, c);
      } else {
        HandledKeepsRestarts(next, c, CleaningUp(user, origin));
      }
    case CleaningUp(user, origin) =>
      if origin.FromRetry? {
        ScheduleKeepsRestarts(next, user, origin.attempt + 1);
      }
  }

  lemma ScheduleKeepsRestarts(s: Service, user: string, attempt: nat)
    requires Inv(s) && RestartsExact(s)
    ensures RestartsExact(Scheduled(s, user, attempt))
  {
    hide Inv, RestartsExact;
    CancelKeepsRestarts(s, user);
    OneMoreTimer(CancelReconnect(s, user).timers, CancelReconnect(s, user).nextId, ReconnectTimer(user, attempt));
    if attempt <= MAX_RECONNECT_ATTEMPTS {
      PendingsKeepRestarts(CancelReconnect(s, user), Scheduled(s, user, attempt));
    }
  }

  lemma OneMoreTimer(timers: map<nat, Timer>, n: nat, timer: Timer)
    requires !timer.RestartTimer?
    ensures var more := timers[n := timer];
      forall r :: r in more && more[r].RestartTimer? ==> r in timers && timers[r] == more[r]
  {
  }

  lemma OpenKeepsRestarts(s: Service, user: string, origin: Origin)
    requires Inv(s) && RestartsExact(s)
    ensures RestartsExact(OpenClient(s, user, origin))
  {
    var t := OpenClient(s, user, origin);
    forall r | r in t.timers && t.timers[r].RestartTimer?
      ensures RestartExact(t, t.timers[r].user, r)
    {
      assert RestartExact(s, s.timers[r].user, r);
      assert Watched(s, s.timers[r].user);
    }
  }

  lemma HandledKeepsRestarts(s: Service, c: nat, task: Task)
    requires RestartsExact(s)
    ensures RestartsExact(Await(MarkHandled(s, c), task))
  {
    var t := Await(MarkHandled(s, c), task);
    forall r | r in t.timers && t.timers[r].RestartTimer?
      ensures RestartExact(t, t.timers[r].user, r)
    {
      assert RestartExact(s, s.timers[r].user, r);
    }
  }

  lemma FireKeepsRestarts(s: Service, t: nat)
    requires Inv(s) && RestartsExact(s) && t in s.timers && !Displaces(s, Fire(t))
    ensures RestartsExact(Apply(s, Fire(t)))
  {
    var without := s.(timers := s.timers - {t});
    match s.timers[t]
    case ReconnectTimer(user, attempt) =>
      var next := without.(pendingReconnects := s.pendingReconnects - {user});
      ReconnectFires(s, t, user, attempt);
      PendingsKeepRestarts(s, next);
      CreateKeepsRestarts(next, user, FromRetry(attempt));
    case DisconnectTimer(user) =>
      var next := without.(pendingDisconnects := s.pendingDisconnects - {user});
      DisconnectFires(s, t, user);
      PendingsKeepRestarts(s, next);
      CancelKeepsRestarts(next, user);
      StopKeepsRestarts(CancelReconnect(next, user), user);
    case RestartTimer(user) =>
      PendingsKeepRestarts(s, without);
      StopThenKeepsRestarts(without, user, true);
  }

  lemma StopThenKeepsRestarts(s: Service, user: string, restart: bool)
    requires RestartsExact(s)
    ensures RestartsExact(StopThen(s, user, restart))
  {
    StopKeepsRestarts(s, user);
    PendingsKeepRestarts(Stopped(s, user), Await(Stopped(s, user), Stopping(user, restart)));
  }

  lemma ClientEventKeepsRestarts(s: Service, c: nat)
    requires Inv(s) && RestartsExact(s) && c in s.connections
    ensures RestartsExact(Apply(s, ClientEvent(c)))
  {
    var marked, user := MarkHandled(s, c), s.connections[c].user;
    forall r | r in marked.timers && marked.timers[r].RestartTimer?
      ensures RestartExact(marked, marked.timers[r].user, r)
    {
      assert RestartExact(s, s.timers[r].user, r);
    }
    StopThenKeepsRestarts(marked, user, false);
  }

  /** From a state in which every restart timer belongs to a connection in the map, a step
      keeps it so exactly when it displaces no connection. */
  lemma RestartsExactIff(s: Service, e: Event)
    requires Inv(s) && RestartsExact(s) && Enabled(s, e)
    ensures RestartsExact(Apply(s, e)) <==> !Displaces(s, e)
  {
    if Displaces(s, e) {
      DisplacedLeavesItsTimer(s, e);
    } else {
      match e
      case Fire(t) => FireKeepsRestarts(s, t);
      case Answer(k, ok) => AnswerKeepsRestarts(s, k, ok);
      case Start(user, ready) =>
        if user !in s.idleConnections {
          CreateKeepsRestarts(s, user, FromStart);
        }
      case ClientEvent(c) => ClientEventKeepsRestarts(s, c);
      case StopAll(users) =>
        PendingsKeepRestarts(s, ClearPending(s));
        StopEachRestarts(ClearPending(s), users);
      case Disconnected(user) => PendingsKeepRestarts(s, UserDisconnected(s, user));
      case Reconnected(user) => PendingsKeepRestarts(s, UserConnected(s, user));
    }
  }

  /** And it does happen: when a user comes back while the logout of a failed connection is
      pending, the reconnect scheduled afterwards tears the new, working connection down. */
  lemma LateReconnectReplacesAWorkingConnection(s: Service, user: string, k: nat, ok: bool)
    requires Inv(s) && user in s.idleConnections && k in s.tasks && s.tasks[k] == Stopping(user, false)
    ensures var t := Apply(s, Answer(k, ok));
      && t.idleConnections == s.idleConnections && user in t.pendingReconnects
      && Displaces(t, Fire(t.pendingReconnects[user]))
      && Handled(Apply(t, Fire(t.pendingReconnects[user])), s.idleConnections[user])
      && user !in Apply(t, Fire(t.pendingReconnects[user])).idleConnections
  {
    assert Watched(s, user);
    AnsweredKeeps(s, k, ok);
  }

  ghost predicate RunsTo(s: Service, events: seq<Event>, f: Service) {
    CanRun(s, events) && Run(s, events) == f
  }

  ghost predicate OneStep(s: Service, e: Event, t: Service) {
    Enabled(s, e) && Apply(s, e) == t
  }

  lemma {:induction false} Chain(states: seq<Service>, events: seq<Event>)
    requires |states| == |events| + 1 && forall i :: 0 <= i < |events| ==> OneStep(states[i], events[i], states[i + 1])
    ensures RunsTo(states[0], events, states[|events|])
    decreases |events|
  {
    if events != [] {
      assert OneStep(states[0], events[0], states[1]);
      forall i | 0 <= i < |events[1..]| ensures OneStep(states[1..][i], events[1..][i], states[1..][i + 1]) {
        assert OneStep(states[i + 1], events[i + 1], states[i + 2]);
      }
      Chain(states[1..], events[1..]);
    }
  }

  /** The states of a run from the empty service: the first connection comes up and fails, the
      user starts a second one, it comes up, and then the logout of the first ends. */
  function LateStates(user: string): seq<Service> {
    var old0, second, stopping := Connection(user, true, Some(2)), Connection(user, false, Some(6)), Stopping(user, false);
    [ EMPTY,
      Service(map[], map[], map[], map[0 := Connection(user, false, None)], map[], map[1 := Connecting(user, 0, FromStart)], 2),
      Service(map[user := 0], map[], map[], map[0 := Connection(user, false, Some(2))], map[2 := RestartTimer(user)], map[], 3),
      Service(map[], map[], map[], map[0 := old0], map[], map[3 := stopping], 4),
      Service(map[], map[], map[], map[0 := old0, 4 := Connection(user, false, None)], map[],
              map[3 := stopping, 5 := Connecting(user, 4, FromStart)], 6),
      Service(map[user := 4], map[], map[], map[0 := old0, 4 := second], map[6 := RestartTimer(user)], map[3 := stopping], 7),
      Service(map[user := 4], map[user := 7], map[], map[0 := old0, 4 := second],
              map[6 := RestartTimer(user), 7 := ReconnectTimer(user, 1)], map[], 8) ]
  }

  function LateEvents(user: string): seq<Event> {
    [Start(user, true), Answer(1, true), ClientEvent(0), Start(user, true), Answer(5, true), Answer(3, true)]
  }

  lemma FirstConnectionComesUp(user: string, i: nat)
    requires 0 <= i < 2
    ensures OneStep(LateStates(user)[i], LateEvents(user)[i], LateStates(user)[i + 1])
  {
    var s, e, t := LateStates(user)[i], LateEvents(user)[i], LateStates(user)[i + 1];
    assert Apply(s, e).connections == t.connections && Apply(s, e).timers == t.timers && Apply(s, e).tasks == t.tasks;
  }

  lemma ItFailsAndTheUserIsBack(user: string, i: nat)
    requires 2 <= i < 4
    ensures OneStep(LateStates(user)[i], LateEvents(user)[i], LateStates(user)[i + 1])
  {
    var s, e, t := LateStates(user)[i], LateEvents(user)[i], LateStates(user)[i + 1];
    assert Apply(s, e).connections == t.connections && Apply(s, e).timers == t.timers && Apply(s, e).tasks == t.tasks;
  }

  lemma SecondComesUpAndLogoutEnds(user: string, i: nat)
    requires 4 <= i < 6
    ensures OneStep(LateStates(user)[i], LateEvents(user)[i], LateStates(user)[i + 1])
  {
    var s, e, t := LateStates(user)[i], LateEvents(user)[i], LateStates(user)[i + 1];
    assert Apply(s, e).connections == t.connections && Apply(s, e).timers == t.timers && Apply(s, e).tasks == t.tasks;
  }

  lemma LateStep(user: string, i: nat)
    requires i < 6
    ensures OneStep(LateStates(user)[i], LateEvents(user)[i], LateStates(user)[i + 1])
  {
    if i < 2 {
      FirstConnectionComesUp(user, i);
    } else if i < 4 {
      ItFailsAndTheUserIsBack(user, i);
    } else {
      SecondComesUpAndLogoutEnds(user, i);
    }
  }

  /** So it does happen: the run ends with the second connection working, and when the
      reconnect that it has armed fires, that connection is torn down and leaves its restart
      timer behind. */
  lemma LateReconnectHappens(user: string) returns (before: Service, after: Service)
    ensures RunsTo(EMPTY, LateEvents(user), before) && OneStep(before, Fire(7), after)
    ensures user in before.idleConnections && !Handled(before, before.idleConnections[user]) && RestartsExact(before)
    ensures user !in after.idleConnections && Handled(after, before.idleConnections[user]) && !RestartsExact(after)
  {
    hide Apply, Enabled;
    before := LateStates(user)[6];
    forall i | 0 <= i < 6 ensures OneStep(LateStates(user)[i], LateEvents(user)[i], LateStates(user)[i + 1]) {
      LateStep(user, i);
    }
    Chain(LateStates(user), LateEvents(user));
    after := ReconnectTearsDown(user);
    assert RestartExact(before, user, 6);
  }

  lemma ReconnectTearsDown(user: string) returns (after: Service)
    ensures OneStep(LateStates(user)[6], Fire(7), after)
    ensures user !in after.idleConnections && Handled(after, 4) && !RestartsExact(after)
  {
    var s := LateStates(user)[6];
    after := Apply(s, Fire(7));
    assert 6 in after.timers && !RestartExact(after, user, 6);
  }

  /** A run from the empty service: two starts of one user overlap, both clients connect, and
      then the first one closes. */
  function OverwriteStates(user: string): seq<Service> {
    var c0, c2 := Connection(user, false, None), Connection(user, false, None);
    [ EMPTY,
      Service(map[], map[], map[], map[0 := c0], map[], map[1 := Connecting(user, 0, FromStart)], 2),
      Service(map[], map[], map[], map[0 := c0, 2 := c2], map[],
              map[1 := Connecting(user, 0, FromStart), 3 := Connecting(user, 2, FromStart)], 4),
      Service(map[user := 0], map[], map[], map[0 := Connection(user, false, Some(4)), 2 := c2], map[4 := RestartTimer(user)],
              map[3 := Connecting(user, 2, FromStart)], 5),
      Service(map[user := 2], map[], map[], map[0 := Connection(user, false, Some(4)), 2 := Connection(user, false, Some(5))],
              map[4 := RestartTimer(user), 5 := RestartTimer(user)], map[], 6),
      Service(map[], map[], map[], map[0 := Connection(user, true, Some(4)), 2 := Connection(user, true, Some(5))],
              map[4 := RestartTimer(user)], map[6 := Stopping(user, false)], 7) ]
  }

  function OverwriteEvents(user: string): seq<Event> {
    [Start(user, true), Start(user, true), Answer(1, true), Answer(3, true), ClientEvent(0)]
  }

  lemma TwoStartsOverlap(user: string, i: nat)
    requires i < 3
    ensures OneStep(OverwriteStates(user)[i], OverwriteEvents(user)[i], OverwriteStates(user)[i + 1])
  {
    var s, e, t := OverwriteStates(user)[i], OverwriteEvents(user)[i], OverwriteStates(user)[i + 1];
    assert Apply(s, e).connections == t.connections && Apply(s, e).timers == t.timers && Apply(s, e).tasks == t.tasks;
  }

  lemma TheSecondOverwritesTheFirst(user: string, i: nat)
    requires 3 <= i < 5
    ensures OneStep(OverwriteStates(user)[i], OverwriteEvents(user)[i], OverwriteStates(user)[i + 1])
  {
    var s, e, t := OverwriteStates(user)[i], OverwriteEvents(user)[i], OverwriteStates(user)[i + 1];
    assert Apply(s, e).connections == t.connections && Apply(s, e).timers == t.timers && Apply(s, e).tasks == t.tasks;
  }

  /** It ends with the working second connection gone, silenced by the first one. */
  lemma OverwriteHappens(user: string) returns (before: Service, after: Service)
    ensures RunsTo(EMPTY, OverwriteEvents(user)[..4], before) && OneStep(before, ClientEvent(0), after)
    ensures RunsTo(EMPTY, OverwriteEvents(user), after)
    ensures user in before.idleConnections && before.idleConnections[user] != 0 && !Handled(before, before.idleConnections[user])
    ensures user !in after.idleConnections && Handled(after, before.idleConnections[user])
  {
    hide Apply, Enabled;
    var states, events := OverwriteStates(user), OverwriteEvents(user);
    before, after := states[4], states[5];
    forall i | 0 <= i < 5 ensures OneStep(states[i], events[i], states[i + 1]) {
      if i < 3 {
        TwoStartsOverlap(user, i);
      } else {
        TheSecondOverwritesTheFirst(user, i);
      }
    }
    Chain(states, events);
    Chain(states[..5], events[..4]);
  }

  /** ---- a run of failing reconnects ---- */

  /** Where a user's chain of reconnects stands; `task` is its pending call. */
  datatype Phase = Armed(attempt: nat) | Opening(attempt: nat, task: nat) | Failing(attempt: nat, task: nat) | GaveUp

  ghost predicate NoTask(s: Service, user: string) {
    forall k :: k in s.tasks ==> s.tasks[k].user != user
  }

  ghost predicate OnlyTask(s: Service, user: string, k: nat) {
    k in s.tasks && s.tasks[k].user == user && forall j :: j in s.tasks && j != k ==> s.tasks[j].user != user
  }

  ghost predicate InPhase(s: Service, user: string, p: Phase) {
    && user !in s.idleConnections
    && (p.Armed? <==> user in s.pendingReconnects)
    && (!p.GaveUp? ==> 1 <= p.attempt <= MAX_RECONNECT_ATTEMPTS)
    && match p
       case Armed(a) => s.pendingReconnects[user] in s.timers && s.timers[s.pendingReconnects[user]] == ReconnectTimer(user, a) && NoTask(s, user)
       case Opening(a, k) => OnlyTask(s, user, k) && s.tasks[k].Connecting? && s.tasks[k].origin == FromRetry(a)
       case Failing(a, k) => OnlyTask(s, user, k) && s.tasks[k] == CleaningUp(user, FromRetry(a))
       case GaveUp => NoTask(s, user)
  }

  /** The event is the chain's next step: its timer fires or its pending call answers. */
  predicate Own(s: Service, e: Event, user: string)
    requires Enabled(s, e)
  {
    match e
    case Fire(t) => s.timers[t].ReconnectTimer? && s.timers[t].user == user
    case Answer(k, _) => s.tasks[k].user == user
    case _ => false
  }

  /** The event cancels the chain or ends it with a connection. */
  predicate Ends(s: Service, e: Event, user: string)
    requires Enabled(s, e)
  {
    match e
    case Start(u, ready) => u == user && ready
    case Fire(t) => s.timers[t] == DisconnectTimer(user)
    case Answer(k, ok) => s.tasks[k].user == user && s.tasks[k].Connecting? && ok
    case StopAll(_) => true
    case _ => false
  }

  ghost predicate KeepsFailing(s: Service, events: seq<Event>, user: string)
    requires CanRun(s, events)
    decreases |events|
  {
    events != [] ==> !Ends(s, events[0], user) && KeepsFailing(Apply(s, events[0]), events[1..], user)
  }

  /** The delay after which the event comes, when it is the user's reconnect timer. */
  function DelayOf(s: Service, e: Event, user: string): nat
    requires Enabled(s, e)
  {
    if e.Fire? && Own(s, e, user) then RECONNECT_DELAY_MS * s.timers[e.timer].attempt else 0
  }

  datatype Totals = Totals(steps: nat, attempts: nat, waited: nat)

  ghost function TotalsOf(s: Service, events: seq<Event>, user: string): Totals
    requires CanRun(s, events)
    decreases |events|
  {
    if events == [] then Totals(0, 0, 0)
    else
      var e, rest := events[0], TotalsOf(Apply(s, events[0]), events[1..], user);
      Totals((if Own(s, e, user) then 1 else 0) + rest.steps,
             (if Own(s, e, user) && e.Fire? then 1 else 0) + rest.attempts,
             DelayOf(s, e, user) + rest.waited)
  }

  /** What lies behind a chain in phase `p`. */
  function Behind(p: Phase): Totals {
    match p
    case Armed(a) => if a == 0 then Totals(0, 0, 0) else Totals(3 * (a - 1), a - 1, RECONNECT_DELAY_MS * (a * (a - 1) / 2))
    case Opening(a, _) => Totals(if a == 0 then 0 else 3 * a - 2, a, RECONNECT_DELAY_MS * (a * (a + 1) / 2))
    case Failing(a, _) => Totals(if a == 0 then 0 else 3 * a - 1, a, RECONNECT_DELAY_MS * (a * (a + 1) / 2))
    case GaveUp =>
      Totals(3 * MAX_RECONNECT_ATTEMPTS, MAX_RECONNECT_ATTEMPTS,
             RECONNECT_DELAY_MS * (MAX_RECONNECT_ATTEMPTS * (MAX_RECONNECT_ATTEMPTS + 1) / 2))
  }

  lemma Triangle(a: nat)
    ensures a * (a + 1) / 2 == (if a == 0 then 0 else a * (a - 1) / 2 + a)
  {
    if a > 0 {
      assert a * (a + 1) == a * (a - 1) + 2 * a;
    }
  }

  /** Nothing that concerns the chain of `user` has changed. */
  ghost predicate SameChain(s: Service, t: Service, user: string) {
    && (user in s.idleConnections <==> user in t.idleConnections)
    && (user in s.pendingReconnects <==> user in t.pendingReconnects)
    && (user in s.pendingReconnects && s.pendingReconnects[user] in s.timers ==>
         && t.pendingReconnects[user] == s.pendingReconnects[user]
         && t.pendingReconnects[user] in t.timers && t.timers[t.pendingReconnects[user]] == s.timers[s.pendingReconnects[user]])
    && (forall k :: k in s.tasks && s.tasks[k].user == user ==> k in t.tasks && t.tasks[k] == s.tasks[k])
    && (forall k :: k in t.tasks && t.tasks[k].user == user ==> k in s.tasks && s.tasks[k].user == user)
  }

  lemma CreateElsewhere(s: Service, other: string, origin: Origin, user: string)
    requires Inv(s) && other != user
    ensures SameChain(s, Create(s, other, origin), user)
  {
    CancelElsewhere(s, other, user);
    CancelKeeps(s, other);
    OpenedElsewhere(CancelReconnect(s, other), other, origin, user);
  }

  lemma CancelElsewhere(s: Service, other: string, user: string)
    requires Inv(s) && other != user
    ensures SameChain(s, CancelReconnect(s, other), user)
  {
  }

  lemma OpenedElsewhere(c: Service, other: string, origin: Origin, user: string)
    requires Inv(c) && other != user && other !in c.pendingReconnects
    ensures SameChain(c, Create(c, other, origin), user)
  {
    hide Inv, Await;
    NewIds(c);
    var d := if other in c.idleConnections
      then MarkHandled(c, c.idleConnections[other]).(idleConnections := c.idleConnections - {other})
      else WithClient(c, other);
    AwaitElsewhere(c, d, if other in c.idleConnections then Replacing(other, origin) else Connecting(other, c.nextId, origin), user);
  }

  lemma NewIds(s: Service)
    requires Inv(s)
    ensures FreshIds(s)
  {
  }

  lemma AwaitElsewhere(c: Service, d: Service, task: Task, user: string)
    requires FreshIds(c) && d.nextId >= c.nextId && task.user != user
    requires d.tasks == c.tasks && d.timers == c.timers && d.pendingReconnects == c.pendingReconnects
    requires user in d.idleConnections <==> user in c.idleConnections
    ensures SameChain(c, Await(d, task), user)
  {
  }

  lemma ScheduleElsewhere(s: Service, other: string, attempt: nat, user: string)
    requires Inv(s) && other != user
    ensures SameChain(s, Scheduled(s, other, attempt), user)
  {
  }

  lemma StopElsewhere(s: Service, other: string, user: string)
    requires Inv(s) && (other != user || user !in s.idleConnections)
    ensures SameChain(s, Stopped(s, other), user)
  {
    if other in s.idleConnections {
      assert Watched(s, other) && RestartOwned(s, s.idleConnections[other]);
    }
  }

  lemma StopThenElsewhere(s: Service, other: string, restart: bool, user: string)
    requires Inv(s) && (other != user || user !in s.idleConnections)
    ensures SameChain(s, StopThen(s, other, restart), user)
  {
    StopElsewhere(s, other, user);
  }

  lemma StoppedElsewhere(s: Service, other: string, restart: bool, user: string)
    requires Inv(s) && other != user
    ensures SameChain(s, Answered(s, Stopping(other, restart), true), user)
  {
    if restart {
      CreateElsewhere(s, other, FromRestart, user);
    } else {
      ScheduleElsewhere(s, other, 1, user);
    }
  }

  lemma OpenElsewhere(s: Service, other: string, origin: Origin, user: string)
    requires FreshIds(s) && other != user
    ensures SameChain(s, OpenClient(s, other, origin), user)
  {
  }

  lemma ConnectingElsewhere(s: Service, k: nat, ok: bool, user: string)
    requires Inv(s) && k in s.tasks && s.tasks[k].Connecting? && s.tasks[k].user != user
    ensures SameChain(s, Apply(s, Answer(k, ok)), user)
  {
    assert TaskOk(s, k, s.tasks[k]);
  }

  lemma AnsweredElsewhere(s: Service, k: nat, ok: bool, user: string)
    requires Inv(s) && Enabled(s, Answer(k, ok)) && s.tasks[k].user != user
    ensures SameChain(s, Apply(s, Answer(k, ok)), user)
  {
    hide Create, Scheduled, OpenClient, ReconnectsExact, DisconnectsExact, RestartsOwned, AllWatched;
    var next := s.(tasks := s.tasks - {k});
    AnswerTaken(s, k);
    match s.tasks[k]
    case Stopping(other, restart) => StoppedElsewhere(next, other, restart, user);
    case Replacing(other, origin) => OpenElsewhere(next, other, origin, user);
    case Connecting(other, c, origin) => ConnectingElsewhere(s, k, ok, user);
    case CleaningUp(other, origin) =>
      if origin.FromRetry? {
        ScheduleElsewhere(next, other, origin.attempt + 1, user);
      }
  }

  lemma FiredElsewhere(s: Service, t: nat, user: string)
    requires Inv(s) && t in s.timers && (s.timers[t].user != user || s.timers[t].RestartTimer?) && user !in s.idleConnections
    ensures SameChain(s, Apply(s, Fire(t)), user)
  {
    var without := s.(timers := s.timers - {t});
    match s.timers[t]
    case ReconnectTimer(other, attempt) =>
      ReconnectFires(s, t, other, attempt);
      CreateElsewhere(without.(pendingReconnects := s.pendingReconnects - {other}), other, FromRetry(attempt), user);
    case DisconnectTimer(other) =>
      var next := without.(pendingDisconnects := s.pendingDisconnects - {other});
      DisconnectFires(s, t, other);
      CancelKeeps(next, other);
      StopElsewhere(CancelReconnect(next, other), other, user);
    case RestartTimer(other) => RestartElsewhere(s, t, other, user);
  }

  lemma RestartElsewhere(s: Service, t: nat, other: string, user: string)
    requires Inv(s) && t in s.timers && s.timers[t] == RestartTimer(other) && user !in s.idleConnections
    ensures SameChain(s, StopThen(s.(timers := s.timers - {t}), other, true), user)
  {
    if other in s.idleConnections {
      assert Watched(s, other) && RestartOwned(s, s.idleConnections[other]);
    }
  }

  lemma StepElsewhere(s: Service, e: Event, user: string)
    requires Inv(s) && user !in s.idleConnections && Enabled(s, e) && !Ends(s, e, user) && !Own(s, e, user)
    ensures SameChain(s, Apply(s, e), user)
  {
    match e
    case Start(other, ready) =>
      if ready {
        CreateElsewhere(s, other, FromStart, user);
      }
    case ClientEvent(c) =>
      HandledKeeps(s, c);
      StopThenElsewhere(MarkHandled(s, c), s.connections[c].user, false, user);
    case Fire(t) => FiredElsewhere(s, t, user);
    case Answer(k, ok) => AnsweredElsewhere(s, k, ok, user);
    case Disconnected(_) =>
    case Reconnected(_) =>
    case StopAll(_) =>
  }

  /** Events that are not the chain's own leave it where it is. */
  lemma OthersKeepThePhase(s: Service, e: Event, user: string, p: Phase)
    requires Inv(s) && InPhase(s, user, p) && Enabled(s, e) && !Ends(s, e, user) && !Own(s, e, user)
    ensures InPhase(Apply(s, e), user, p)
  {
    StepElsewhere(s, e, user);
    SameChainSamePhase(s, Apply(s, e), user, p);
  }

  lemma SameChainSamePhase(s: Service, t: Service, user: string, p: Phase)
    requires InPhase(s, user, p) && SameChain(s, t, user)
    ensures InPhase(t, user, p)
  {
  }

  lemma ArmedFires(s: Service, t: nat, user: string, a: nat)
    requires Inv(s) && InPhase(s, user, Armed(a)) && t in s.timers && s.timers[t].ReconnectTimer? && s.timers[t].user == user
    ensures s.timers[t].attempt == a && InPhase(Apply(s, Fire(t)), user, Opening(a, s.nextId + 1))
  {
    var next := s.(timers := s.timers - {t}, pendingReconnects := s.pendingReconnects - {user});
    assert Apply(s, Fire(t)) == OpenClient(next, user, FromRetry(a));
  }

  lemma OpeningFails(s: Service, k: nat, user: string, a: nat)
    requires Inv(s) && InPhase(s, user, Opening(a, k))
    ensures InPhase(Apply(s, Answer(k, false)), user, Failing(a, s.nextId))
  {
  }

  lemma FailingEnds(s: Service, k: nat, ok: bool, user: string, a: nat)
    requires Inv(s) && InPhase(s, user, Failing(a, k))
    ensures InPhase(Apply(s, Answer(k, ok)), user, if a < MAX_RECONNECT_ATTEMPTS then Armed(a + 1) else GaveUp)
  {
  }

  /** The chain's own step takes it to its next phase. */
  lemma OwnStepAdvances(s: Service, e: Event, user: string, p: Phase) returns (q: Phase)
    requires Inv(s) && InPhase(s, user, p) && Enabled(s, e) && !Ends(s, e, user) && Own(s, e, user)
    ensures !p.GaveUp? && InPhase(Apply(s, e), user, q)
    ensures Behind(q).steps == Behind(p).steps + 1
    ensures Behind(q).attempts == Behind(p).attempts + (if e.Fire? then 1 else 0)
    ensures Behind(q).waited == Behind(p).waited + DelayOf(s, e, user)
  {
    assert !p.GaveUp?;
    var a := p.attempt;
    Triangle(a);
    if e.Fire? {
      ArmedFires(s, e.timer, user, a);
      q := Opening(a, s.nextId + 1);
    } else if p.Opening? {
      OpeningFails(s, p.task, user, a);
      q := Failing(a, s.nextId);
    } else {
      FailingEnds(s, p.task, e.ok, user, a);
      q := if a < MAX_RECONNECT_ATTEMPTS then Armed(a + 1) else GaveUp;
    }
  }

  lemma {:induction false} ChainRun(s: Service, events: seq<Event>, user: string, p: Phase) returns (q: Phase)
    requires Inv(s) && CanRun(s, events) && InPhase(s, user, p) && KeepsFailing(s, events, user)
    ensures InPhase(Run(s, events), user, q)
    ensures var total := TotalsOf(s, events, user);
      Behind(q) == Totals(Behind(p).steps + total.steps, Behind(p).attempts + total.attempts, Behind(p).waited + total.waited)
    decreases |events|
  {
    hide Inv, InPhase, Behind, Apply, Ends;
    q := p;
    if events != [] {
      StepInv(s, events[0]);
      var mid := p;
      if Own(s, events[0], user) {
        mid := OwnStepAdvances(s, events[0], user, p);
      } else {
        OthersKeepThePhase(s, events[0], user, p);
      }
      q := ChainRun(Apply(s, events[0]), events[1..], user, mid);
    }
  }

  /** What starts a chain: the connection in the map reported an error, its logout has ended. */
  lemma ErrorArmsTheFirstReconnect(s: Service, user: string, k: nat, ok: bool)
    requires user !in s.idleConnections && OnlyTask(s, user, k) && s.tasks[k] == Stopping(user, false)
    ensures InPhase(Apply(s, Answer(k, ok)), user, Armed(1))
  {
  }

  lemma ChainStopsAtTheMaximum(s: Service, events: seq<Event>, user: string)
    requires Inv(s) && InPhase(s, user, Armed(1)) && CanRun(s, events) && KeepsFailing(s, events, user)
    ensures var (t, total) := (Run(s, events), TotalsOf(s, events, user));
      && total.attempts <= MAX_RECONNECT_ATTEMPTS && total.steps <= 3 * MAX_RECONNECT_ATTEMPTS
      && (InPhase(t, user, GaveUp) <==> total.steps == 3 * MAX_RECONNECT_ATTEMPTS)
      && (InPhase(t, user, GaveUp) ==>
           && total.attempts == MAX_RECONNECT_ATTEMPTS
           && total.waited == RECONNECT_DELAY_MS * (MAX_RECONNECT_ATTEMPTS * (MAX_RECONNECT_ATTEMPTS + 1) / 2))
      && (InPhase(t, user, GaveUp) || exists e :: Enabled(t, e) && Own(t, e, user))
  {
    var q := ChainRun(s, events, user, Armed(1));
    var t := Run(s, events);
    if q.Armed? {
      assert Enabled(t, Fire(t.pendingReconnects[user])) && Own(t, Fire(t.pendingReconnects[user]), user);
    } else if !q.GaveUp? {
      RunInv(s, events);
      assert q.Opening? ==> TaskOk(t, q.task, t.tasks[q.task]);
      assert Enabled(t, Answer(q.task, false)) && Own(t, Answer(q.task, false), user);
    }
  }

  /** With every connect failing and nothing cancelling it, and whatever happens to all other
      users meanwhile, a user's reconnects never get stuck, are never more than three, and end
      after exactly that many, with delays of 5, 10 and 15 seconds. */
  lemma FailingReconnectsStopAtTheMaximum(s: Service, events: seq<Event>, user: string)
    requires Inv(s) && InPhase(s, user, Armed(1)) && CanRun(s, events) && KeepsFailing(s, events, user)
    ensures var (t, total) := (Run(s, events), TotalsOf(s, events, user));
      && total.attempts <= 3 && total.steps <= 9
      && (InPhase(t, user, GaveUp) <==> total.steps == 9)
      && (InPhase(t, user, GaveUp) ==> total.attempts == 3 && total.waited == 30000)
      && (InPhase(t, user, GaveUp) || exists e :: Enabled(t, e) && Own(t, e, user))
  {
    hide InPhase, Run, TotalsOf, Own, Enabled, Inv, CanRun, KeepsFailing;
    ChainStopsAtTheMaximum(s, events, user);
  }

  /** ---- the service ---- */

  class MailIdleService {
    var idleConnections: map<string, nat>
    var pendingReconnects: map<string, nat>
    var pendingDisconnects: map<string, nat>
    var connections: map<nat, Connection>
    var timers: map<nat, Timer>
    var tasks: map<nat, Task>
    var nextId: nat

    function Value(): Service
      reads this
    {
      Service(idleConnections, pendingReconnects, pendingDisconnects, connections, timers, tasks, nextId)
    }

    constructor ()
      ensures Value() == EMPTY && Inv(Value())
    {
      idleConnections, pendingReconnects, pendingDisconnects := map[], map[], map[];
      connections, timers, tasks, nextId := map[], map[], map[], 0;
    }

    method SetTimeout(timer: Timer) returns (t: nat)
      modifies `timers, `nextId
      ensures t == old(nextId) && nextId == t + 1 && timers == old(timers)[t := timer]
    {
      t := nextId;
      timers, nextId := timers[t := timer], t + 1;
    }

    method Suspend(task: Task)
      modifies `tasks, `nextId
      ensures Value() == Await(old(Value()), task)
    {
      tasks, nextId := tasks[nextId := task], nextId + 1;
    }

    method CancelPendingReconnect(user: string)
      modifies `timers, `pendingReconnects
      ensures Value() == CancelReconnect(old(Value()), user)
    {
      if user in pendingReconnects {
        timers := timers - {pendingReconnects[user]};
        pendingReconnects := pendingReconnects - {user};
      }
    }

    method ScheduleReconnect(user: string, attempt: nat)
      requires Inv(Value())
      modifies `timers, `pendingReconnects, `nextId
      ensures Value() == Scheduled(old(Value()), user, attempt) && Inv(Value())
    {
      ScheduleKeeps(Value(), user, attempt);
      if attempt > MAX_RECONNECT_ATTEMPTS {
        return;
      }
      CancelPendingReconnect(user);
      var t := SetTimeout(ReconnectTimer(user, attempt));
      pendingReconnects := pendingReconnects[user := t];
    }

    method OpenNewClient(user: string, origin: Origin)
      requires Inv(Value())
      modifies `connections, `tasks, `nextId
      ensures Value() == OpenClient(old(Value()), user, origin) && Inv(Value())
    {
      OpenKeeps(Value(), user, origin);
      var c := nextId;
      connections, nextId := connections[c := Connection(user, false, None)], c + 1;
      Suspend(Connecting(user, c, origin));
    }

    method CreateIdleConnection(user: string, origin: Origin)
      requires Inv(Value())
      modifies this
      ensures Value() == Create(old(Value()), user, origin) && Inv(Value())
    {
      CreateKeeps(Value(), user, origin);
      CancelKeeps(Value(), user);
      CancelPendingReconnect(user);
      if user in idleConnections {
        var existing := idleConnections[user];
        if existing in connections {
          connections := connections[existing := connections[existing].(isErrorHandled := true)];
        }
        idleConnections := idleConnections - {user};
        Suspend(Replacing(user, origin));
      } else {
        OpenNewClient(user, origin);
      }
    }

    method StartIdle(user: string, ready: bool)
      requires Inv(Value())
      modifies this
      ensures Value() == Apply(old(Value()), Start(user, ready)) && Inv(Value())
    {
      if user in idleConnections || !ready {
        return;
      }
      CreateIdleConnection(user, FromStart);
    }

    /** `scheduleIdleRestart`, for a connection just put into the map. */
    method ClientConnected(user: string, c: nat)
      requires c in connections
      modifies this
      ensures Value() == Connected(old(Value()), user, c)
    {
      idleConnections := idleConnections[user := c];
      if connections[c].idleRestartTimer.Some? {
        timers := timers - {connections[c].idleRestartTimer.value};
      }
      var t := SetTimeout(RestartTimer(user));
      connections := connections[c := connections[c].(idleRestartTimer := Some(t))];
    }

    method ConnectFailed(user: string, c: nat, origin: Origin)
      requires c in connections
      modifies this
      ensures Value() == Await(MarkHandled(old(Value()), c), CleaningUp(user, origin))
    {
      connections := connections[c := connections[c].(isErrorHandled := true)];
      Suspend(CleaningUp(user, origin));
    }

    /** `stopIdle` up to its await. */
    method StopIdle(user: string)
      modifies this
      ensures Value() == Stopped(old(Value()), user)
    {
      if user !in idleConnections {
        return;
      }
      var c := idleConnections[user];
      idleConnections := idleConnections - {user};
      if c in connections {
        if connections[c].idleRestartTimer.Some? {
          timers := timers - {connections[c].idleRestartTimer.value};
        }
        connections := connections[c := connections[c].(isErrorHandled := true)];
      }
    }

    /** The listeners for `error` and `close` of one client. */
    method ClientFailed(c: nat)
      requires Inv(Value()) && c in connections
      modifies this
      ensures Value() == Apply(old(Value()), ClientEvent(c)) && Inv(Value())
    {
      StepInv(Value(), ClientEvent(c));
      if connections[c].isErrorHandled {
        return;
      }
      connections := connections[c := connections[c].(isErrorHandled := true)];
      HandleConnectionError(connections[c].user);
    }

    /** `handleConnectionError` up to its await. */
    method HandleConnectionError(user: string)
      modifies this
      ensures Value() == StopThen(old(Value()), user, false)
    {
      if user !in idleConnections {
        return;
      }
      StopIdle(user);
      Suspend(Stopping(user, false));
    }

    /** `restartIdle` up to its await. */
    method RestartIdle(user: string)
      modifies this
      ensures Value() == StopThen(old(Value()), user, true)
    {
      if user !in idleConnections {
        return;
      }
      StopIdle(user);
      Suspend(Stopping(user, true));
    }

    /** An awaited call answers; the function that waited goes on. */
    method Resume(k: nat, ok: bool)
      requires Inv(Value()) && k in tasks
      modifies this
      ensures Value() == Apply(old(Value()), Answer(k, ok)) && Inv(Value())
    {
      AnsweredKeeps(Value(), k, ok);
      AnswerTaken(Value(), k);
      var task := tasks[k];
      tasks := tasks - {k};
      GoOn(task, ok);
    }

    method GoOn(task: Task, ok: bool)
      requires Inv(Value()) && (task.Connecting? ==> task.conn in connections)
      modifies this
      ensures Value() == Answered(old(Value()), task, ok)
    {
      match task {
        case Stopping(user, restart) =>
          if restart {
            CreateIdleConnection(user, FromRestart);
          } else {
            ScheduleReconnect(user, 1);
          }
        case Replacing(user, origin) => OpenNewClient(user, origin);
        case Connecting(user, c, origin) =>
          if ok {
            ClientConnected(user, c);
          } else {
            ConnectFailed(user, c, origin);
          }
        case CleaningUp(user, origin) =>
          if origin.FromRetry? {
            ScheduleReconnect(user, origin.attempt + 1);
          }
      }
    }

    /** The callback of a timer. */
    method OnTimeout(t: nat)
      requires Inv(Value()) && t in timers
      modifies this
      ensures Value() == Apply(old(Value()), Fire(t)) && Inv(Value())
    {
      ghost var was := Value();
      FiredKeeps(was, t);
      var timer := timers[t];
      timers := timers - {t};
      match timer {
        case ReconnectTimer(user, attempt) =>
          pendingReconnects := pendingReconnects - {user};
          ReconnectFires(was, t, user, attempt);
          CreateIdleConnection(user, FromRetry(attempt));
        case DisconnectTimer(user) =>
          pendingDisconnects := pendingDisconnects - {user};
          CancelPendingReconnect(user);
          if user in idleConnections {
            StopIdle(user);
          }
        case RestartTimer(user) => RestartIdle(user);
      }
    }

    method HandleUserDisconnected(user: string)
      requires Inv(Value())
      modifies this
      ensures Value() == UserDisconnected(old(Value()), user) && Inv(Value())
    {
      DisconnectedKeeps(Value(), user);
      if user !in idleConnections || user in pendingDisconnects {
        return;
      }
      var t := SetTimeout(DisconnectTimer(user));
      pendingDisconnects := pendingDisconnects[user := t];
    }

    method HandleUserConnected(user: string)
      requires Inv(Value())
      modifies this
      ensures Value() == UserConnected(old(Value()), user) && Inv(Value())
    {
      ReconnectedKeeps(Value(), user);
      if user in pendingDisconnects {
        timers := timers - {pendingDisconnects[user]};
        pendingDisconnects := pendingDisconnects - {user};
      }
    }

    /** `users` are the keys of the map of connections, in its order. */
    method StopAllConnections(users: seq<string>)
      requires Inv(Value()) && Enabled(Value(), StopAll(users))
      modifies this
      ensures Value() == Apply(old(Value()), StopAll(users)) && Inv(Value())
      ensures pendingReconnects == map[] && pendingDisconnects == map[] && idleConnections == map[]
    {
      StepInv(Value(), StopAll(users));
      ghost var cleared := ClearPending(Value());
      timers := timers - pendingDisconnects.Values;
      pendingDisconnects := map[];
      timers := timers - pendingReconnects.Values;
      pendingReconnects := map[];
      var i := 0;
      while i < |users|
        invariant i <= |users|
        invariant StopEach(cleared, users) == StopEach(Value(), users[i..])
        invariant pendingReconnects == map[] && pendingDisconnects == map[]
        invariant idleConnections.Keys <= set u | u in users[i..]
      {
        assert users[i..][1..] == users[i + 1..];
        StopIdle(users[i]);
        i := i + 1;
      }
      assert idleConnections.Keys == {};
    }
  }
}
