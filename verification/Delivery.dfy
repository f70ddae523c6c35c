/**
 * Delivery of published messages across workers: local delivery first, then one message on the Redis
 * bus, which every subscribed worker forwards to its own connections unless it published it itself.
 */
module Delivery {
  import opened Tables
  import opened Connections

  // ------------------------------------------------------------------
  // Channel names
  // ------------------------------------------------------------------

  const PREFIX := "notifications:"
  const BROADCAST := "notifications:broadcast"
  const USER := "notifications:user:"
  const ROLE := "notifications:role:"

  function Channel(t: Target): string {
    match t
    case ToUser(id) => USER + id
    case ToRole(id) => ROLE + id
    case ToAll => BROADCAST
  }

  /** The routing branches of the subscriber loop, in their order. */
  function Decode(channel: string): Option<Target> {
    if channel == BROADCAST then Some(ToAll)
    else if USER <= channel then Some(ToUser(channel[|USER|..]))
    else if ROLE <= channel then Some(ToRole(channel[|ROLE|..]))
    else None
  }

  /** Decoding a channel name recovers its target for every id, and every channel matches the subscription. */
  lemma DecodeRecoversTarget(t: Target)
    ensures Decode(Channel(t)) == Some(t)
    ensures PREFIX <= Channel(t)
  {
    var name := Channel(t);
    assert BROADCAST[14] == 'b' && USER[14] == 'u' && ROLE[14] == 'r';
    match t
    case ToUser(id) =>
      assert name[14] == USER[14] && name[|USER|..] == id;
    case ToRole(id) =>
      assert name[14] == ROLE[14] && name[|ROLE|..] == id;
      assert !(USER <= name);
    case ToAll =>
  }

  // ------------------------------------------------------------------
  // The protocol
  // ------------------------------------------------------------------

  /** A connection belongs to one worker for its whole life; an empty user or role means none. */
  datatype Client = Client(worker: nat, user: string, role: string, born: nat)

  datatype Message = Message(origin: nat, target: Target, at: nat)

  datatype Task = Task(message: nat, worker: nat)
  datatype Attempt = Attempt(conn: nat, message: nat)

  datatype Sys = Sys(
    live: map<nat, Client>,              // the registries of all workers
    ever: map<nat, Client>,              // every connection ever made
    messages: seq<Message>,
    started: map<Task, set<nat>>,        // the target list a worker copied when it took up a message
    pending: map<Task, set<nat>>,        // the part of it not yet sent to
    bus: set<nat>,                       // messages published to Redis
    handed: set<Task>,                   // messages Redis handed to a subscriber
    delivered: multiset<Attempt>,
    failed: set<Attempt>,                // sends to a connection that was gone, closed or raised
    clock: nat)

  const START := Sys(map[], map[], [], map[], map[], {}, {}, multiset{}, {}, 0)

  predicate Matches(c: Client, t: Target) {
    match t
    case ToUser(id) => id != "" && c.user == id
    case ToRole(id) => id != "" && c.role == id
    case ToAll => true
  }

  function TargetsOn(live: map<nat, Client>, worker: nat, t: Target): set<nat> {
    set c | c in live && live[c].worker == worker && Matches(live[c], t)
  }

  datatype Event =
    | Connect(conn: nat, worker: nat, user: string, role: string)
    | Disconnect(conn: nat)
    | Publish(origin: nat, target: Target)
    | Send(task: Task, conn: nat, accepts: bool, raises: bool)
    | PutOnBus(message: nat)
    | Hand(task: Task)

  function StartTask(y: Sys, k: Task, t: Target): Sys {
    var targets := TargetsOn(y.live, k.worker, t);
    y.(started := y.started[k := targets], pending := y.pending[k := targets])
  }

  /** The publisher copies its local targets at once. */
  function DoPublish(y: Sys, origin: nat, t: Target): Sys {
    var m := |y.messages|;
    StartTask(y.(messages := y.messages + [Message(origin, t, y.clock)]), Task(m, origin), t)
  }

  /** One await of a send loop; the registry may have changed since the targets were copied. */
  function DoSend(y: Sys, k: Task, c: nat, accepts: bool, raises: bool): Sys
    requires k in y.pending
  {
    var z := y.(pending := y.pending[k := y.pending[k] - {c}]);
    if c in y.live && accepts then z.(delivered := y.delivered + multiset{Attempt(c, k.message)})
    else if c in y.live && raises then
      z.(failed := y.failed + {Attempt(c, k.message)}, live := map d | d in y.live && d != c :: y.live[d])
    else z.(failed := y.failed + {Attempt(c, k.message)})
  }

  /** The subscriber loop: skip the worker's own messages, route the others by their channel name. */
  function DoHand(y: Sys, k: Task): Sys
    requires k.message < |y.messages|
  {
    var z := y.(handed := y.handed + {k});
    var m := y.messages[k.message];
    if m.origin == k.worker then z
    else match Decode(Channel(m.target))
      case Some(t) => StartTask(z, k, t)
      case None => z
  }

  function DoConnect(y: Sys, c: nat, worker: nat, user: string, role: string): Sys {
    var client := Client(worker, user, role, y.clock);
    y.(live := y.live[c := client], ever := y.ever[c := client])
  }

  function DoDisconnect(y: Sys, c: nat): Sys {
    y.(live := map d | d in y.live && d != c :: y.live[d])
  }

  /** What each event needs: a fresh id, a target still pending, a finished local loop, one hand-over per worker. */
  predicate Enabled(y: Sys, e: Event) {
    match e
    case Connect(c, _, _, _) => c !in y.ever
    case Disconnect(_) => true
    case Publish(_, _) => true
    case Send(k, c, _, _) => k in y.pending && c in y.pending[k]
    case PutOnBus(m) =>
      m < |y.messages| && Task(m, y.messages[m].origin) in y.pending
      && y.pending[Task(m, y.messages[m].origin)] == {}
    case Hand(k) => k.message in y.bus && k.message < |y.messages| && k !in y.handed
  }

  function Act(y: Sys, e: Event): Sys
    requires Enabled(y, e)
  {
    match e
    case Connect(c, worker, user, role) => DoConnect(y, c, worker, user, role)
    case Disconnect(c) => DoDisconnect(y, c)
    case Publish(origin, t) => DoPublish(y, origin, t)
    case Send(k, c, accepts, raises) => DoSend(y, k, c, accepts, raises)
    case PutOnBus(m) => y.(bus := y.bus + {m})
    case Hand(k) => DoHand(y, k)
  }

  /** Events that are not possible change nothing. */
  function Step(y: Sys, e: Event): Sys {
    if Enabled(y, e) then Act(y, e).(clock := y.clock + 1) else y
  }

  function After(y: Sys, events: seq<Event>): Sys
    decreases |events|
  {
    if events == [] then y else After(Step(y, events[0]), events[1..])
  }

  // ------------------------------------------------------------------
  // Invariants
  // ------------------------------------------------------------------

  /** Connections and messages are dated before the clock; the live ones are among all. */
  ghost predicate ClientsOk(y: Sys) {
    && (forall c | c in y.live :: c in y.ever && y.live[c] == y.ever[c])
    && (forall c | c in y.ever :: y.ever[c].born < y.clock)
    && (forall m | 0 <= m < |y.messages| :: y.messages[m].at < y.clock)
  }

  /** A worker has taken up a message exactly when it published it or the bus handed it over. */
  predicate TakenUp(y: Sys, k: Task) {
    k.message < |y.messages| && (y.messages[k.message].origin == k.worker || k in y.handed)
  }

  ghost predicate TaskOk(y: Sys, k: Task)
    requires k in y.started && k in y.pending && k.message < |y.messages|
  {
    && y.pending[k] <= y.started[k]
    && (forall c | c in y.started[k] ::
          c in y.ever && y.ever[c].worker == k.worker && Matches(y.ever[c], y.messages[k.message].target))
    && (forall c | c in y.live && y.live[c].worker == k.worker && Matches(y.live[c], y.messages[k.message].target)
                   && y.live[c].born < y.messages[k.message].at :: c in y.started[k])
  }

  ghost predicate TasksOk(y: Sys) {
    && y.pending.Keys == y.started.Keys
    && (forall k | k in y.handed :: k.message < |y.messages|)
    && (forall k: Task :: k in y.started <==> TakenUp(y, k))
    && (forall k | k in y.started :: TaskOk(y, k))
  }

  predicate Done(y: Sys, c: nat, m: nat)
    requires y.pending.Keys == y.started.Keys
  {
    && c in y.ever
    && Task(m, y.ever[c].worker) in y.started
    && c in y.started[Task(m, y.ever[c].worker)]
    && c !in y.pending[Task(m, y.ever[c].worker)]
  }

  /** Each attempted send is either one delivery or a failure, and nothing else is either. */
  ghost predicate Accounted(y: Sys, c: nat, m: nat)
    requires y.pending.Keys == y.started.Keys
  {
    var a := Attempt(c, m);
    && y.delivered[a] == (if Done(y, c, m) && a !in y.failed then 1 else 0)
    && (a in y.failed ==> Done(y, c, m))
  }

  ghost predicate Inv(y: Sys) {
    ClientsOk(y) && TasksOk(y) && AllAccounted(y)
  }

  lemma StartKeepsAccounts(y: Sys, k: Task, t: Target, c: nat, m: nat)
    requires y.pending.Keys == y.started.Keys && k !in y.started
    requires Accounted(y, c, m)
    ensures Accounted(StartTask(y, k, t), c, m)
  {
  }

  ghost predicate AllAccounted(y: Sys)
    requires y.pending.Keys == y.started.Keys
  {
    forall c: nat, m: nat :: Accounted(y, c, m)
  }

  /** Changes that leave messages and tasks alone, and let no connection in that predates a message. */
  lemma TasksFrame(y: Sys, z: Sys)
    requires TasksOk(y)
    requires z.messages == y.messages && z.started == y.started && z.pending == y.pending && z.handed == y.handed
    requires forall c | c in y.ever :: c in z.ever && z.ever[c] == y.ever[c]
    requires forall c | c in z.live ::
               (c in y.live && z.live[c] == y.live[c]) ||
               forall m | 0 <= m < |y.messages| :: z.live[c].born >= y.messages[m].at
    ensures TasksOk(z)
  {
  }

  lemma AccountsFrame(y: Sys, z: Sys)
    requires TasksOk(y) && AllAccounted(y)
    requires z.started == y.started && z.pending == y.pending
    requires z.delivered == y.delivered && z.failed == y.failed
    requires forall c | c in y.ever :: c in z.ever && z.ever[c] == y.ever[c]
    ensures AllAccounted(z)
  {
    forall c: nat, m: nat ensures Accounted(z, c, m) {
      assert Accounted(y, c, m);
      if c in z.ever && c !in y.ever {
        NewcomerHasNoTask(y, c, z.ever[c].worker, m);
      }
    }
  }

  /** A connection that did not exist is in no copied target list. */
  lemma NewcomerHasNoTask(y: Sys, c: nat, w: nat, m: nat)
    requires TasksOk(y) && c !in y.ever
    ensures Task(m, w) in y.started ==> c !in y.started[Task(m, w)]
  {
  }

  lemma StartKeepsAllAccounts(y: Sys, k: Task, t: Target)
    requires y.pending.Keys == y.started.Keys && k !in y.started && AllAccounted(y)
    ensures AllAccounted(StartTask(y, k, t))
  {
    forall c: nat, m: nat ensures Accounted(StartTask(y, k, t), c, m) {
      assert Accounted(y, c, m);
      StartKeepsAccounts(y, k, t, c, m);
    }
  }

  lemma PublishKeeps(y: Sys, origin: nat, t: Target)
    requires Inv(y)
    ensures TasksOk(DoPublish(y, origin, t)) && AllAccounted(DoPublish(y, origin, t))
  {
    var k := Task(|y.messages|, origin);
    var z := y.(messages := y.messages + [Message(origin, t, y.clock)]);
    assert k in y.started <==> TakenUp(y, k);
    forall j: Task ensures j in z.started <==> TakenUp(z, j) && j != k {
      assert j in y.started <==> TakenUp(y, j);
    }
    forall j | j in z.started ensures j.message < |z.messages| && TaskOk(z, j) {
      assert TakenUp(y, j) && TaskOk(y, j);
    }
    NewTaskKeeps(z, k, t);
    forall c: nat, m: nat ensures Accounted(z, c, m) {
      assert Accounted(y, c, m);
    }
    StartKeepsAllAccounts(z, k, t);
  }

  /** Taking up a message copies exactly the live targets, so the task starts out consistent. */
  lemma NewTaskKeeps(y: Sys, k: Task, t: Target)
    requires forall c | c in y.live :: c in y.ever && y.live[c] == y.ever[c]
    requires y.pending.Keys == y.started.Keys
    requires forall j | j in y.handed :: j.message < |y.messages|
    requires forall j: Task :: j in y.started <==> TakenUp(y, j) && j != k
    requires forall j | j in y.started :: j.message < |y.messages| && TaskOk(y, j)
    requires TakenUp(y, k) && y.messages[k.message].target == t
    ensures TasksOk(StartTask(y, k, t))
  {
    var z := StartTask(y, k, t);
    forall j: Task ensures j in z.started <==> TakenUp(z, j) {
      assert TakenUp(z, j) <==> TakenUp(y, j);
    }
    forall j | j in z.started ensures TaskOk(z, j) {
      if j != k {
        assert TaskOk(y, j);
      }
    }
  }

  lemma HandKeeps(y: Sys, k: Task)
    requires Inv(y) && k.message < |y.messages| && k !in y.handed
    ensures TasksOk(DoHand(y, k)) && AllAccounted(DoHand(y, k))
  {
    var m := y.messages[k.message];
    var z := y.(handed := y.handed + {k});
    DecodeRecoversTarget(m.target);
    assert k in y.started <==> TakenUp(y, k);
    forall j: Task ensures j in z.started <==> TakenUp(z, j) && (j != k || m.origin == k.worker) {
      assert j in y.started <==> TakenUp(y, j);
    }
    forall j | j in z.started ensures j.message < |z.messages| && TaskOk(z, j) {
      assert TakenUp(y, j) && TaskOk(y, j);
    }
    AccountsFrame(y, z);
    if m.origin != k.worker {
      NewTaskKeeps(z, k, m.target);
      StartKeepsAllAccounts(z, k, m.target);
    }
  }

  lemma ShrinkingKeepsTasks(y: Sys, k: Task, c: nat)
    requires TasksOk(y) && k in y.pending
    ensures TasksOk(y.(pending := y.pending[k := y.pending[k] - {c}]))
  {
  }

  lemma SendKeepsTasks(y: Sys, k: Task, c: nat, accepts: bool, raises: bool)
    requires Inv(y) && k in y.pending && c in y.pending[k]
    ensures TasksOk(DoSend(y, k, c, accepts, raises))
  {
    ShrinkingKeepsTasks(y, k, c);
    TasksFrame(y.(pending := y.pending[k := y.pending[k] - {c}]), DoSend(y, k, c, accepts, raises));
  }

  lemma SendKeepsAccounts(y: Sys, k: Task, c: nat, accepts: bool, raises: bool, d: nat, m: nat)
    requires Inv(y) && k in y.pending && c in y.pending[k]
    ensures Accounted(DoSend(y, k, c, accepts, raises), d, m)
  {
    assert TakenUp(y, k) && TaskOk(y, k);
    assert Accounted(y, d, m);
  }

  lemma ActKeepsTasks(y: Sys, e: Event)
    requires Inv(y) && Enabled(y, e)
    ensures TasksOk(Act(y, e)) && AllAccounted(Act(y, e))
  {
    match e
    case Publish(origin, t) =>
      PublishKeeps(y, origin, t);
    case Hand(k) =>
      HandKeeps(y, k);
    case Send(k, c, accepts, raises) =>
      SendKeepsTasks(y, k, c, accepts, raises);
      forall d: nat, m: nat ensures Accounted(Act(y, e), d, m) {
        SendKeepsAccounts(y, k, c, accepts, raises, d, m);
      }
    case Connect(c, worker, user, role) =>
      TasksFrame(y, DoConnect(y, c, worker, user, role));
      AccountsFrame(y, DoConnect(y, c, worker, user, role));
    case Disconnect(c) =>
      TasksFrame(y, DoDisconnect(y, c));
      AccountsFrame(y, DoDisconnect(y, c));
    case PutOnBus(m) =>
      TasksFrame(y, y.(bus := y.bus + {m}));
      AccountsFrame(y, y.(bus := y.bus + {m}));
  }

  /** Changes that connect nobody and publish nothing. */
  lemma ClientsFrame(y: Sys, z: Sys)
    requires ClientsOk(y)
    requires z.ever == y.ever && z.messages == y.messages && z.clock >= y.clock
    requires forall c | c in z.live :: c in y.live && z.live[c] == y.live[c]
    ensures ClientsOk(z)
  {
  }

  lemma SendTouchesNoClient(y: Sys, k: Task, c: nat, accepts: bool, raises: bool)
    requires k in y.pending
    ensures
      var z := DoSend(y, k, c, accepts, raises);
      && z.ever == y.ever && z.messages == y.messages
      && forall d | d in z.live :: d in y.live && z.live[d] == y.live[d]
  {
  }

  lemma ConnectKeepsClients(y: Sys, c: nat, worker: nat, user: string, role: string)
    requires ClientsOk(y)
    requires c !in y.ever
    ensures ClientsOk(DoConnect(y, c, worker, user, role).(clock := y.clock + 1))
  {
  }

  lemma PublishKeepsClients(y: Sys, origin: nat, t: Target)
    requires ClientsOk(y)
    ensures ClientsOk(DoPublish(y, origin, t).(clock := y.clock + 1))
  {
    assert DoPublish(y, origin, t).live == y.live && DoPublish(y, origin, t).ever == y.ever;
  }

  lemma ActKeepsClients(y: Sys, e: Event)
    requires ClientsOk(y) && Enabled(y, e)
    ensures ClientsOk(Act(y, e).(clock := y.clock + 1))
  {
    match e
    case Publish(origin, t) =>
      PublishKeepsClients(y, origin, t);
    case Connect(c, worker, user, role) =>
      ConnectKeepsClients(y, c, worker, user, role);
    case Send(k, c, accepts, raises) =>
      SendTouchesNoClient(y, k, c, accepts, raises);
      ClientsFrame(y, Act(y, e).(clock := y.clock + 1));
    case Hand(_) | Disconnect(_) | PutOnBus(_) =>
      ClientsFrame(y, Act(y, e).(clock := y.clock + 1));
  }

  lemma StepKeepsInv(y: Sys, e: Event)
    requires Inv(y)
    ensures Inv(Step(y, e))
  {
    if Enabled(y, e) {
      ActKeepsTasks(y, e);
      ActKeepsClients(y, e);
      TasksFrame(Act(y, e), Step(y, e));
      AccountsFrame(Act(y, e), Step(y, e));
    }
  }

  lemma {:induction false} InvAfter(y: Sys, events: seq<Event>)
    requires Inv(y)
    ensures Inv(After(y, events))
    decreases |events|
  {
    if events != [] {
      StepKeepsInv(y, events[0]);
      InvAfter(Step(y, events[0]), events[1..]);
    }
  }

  lemma StartHolds()
    ensures Inv(START)
  {
  }

  // ------------------------------------------------------------------
  // What every interleaving guarantees
  // ------------------------------------------------------------------

  /** No connection gets a message twice, and only connections the message is for get it. */
  lemma AtMostOnce(events: seq<Event>, c: nat, m: nat)
    ensures
      var y := After(START, events);
      && y.delivered[Attempt(c, m)] <= 1
      && (y.delivered[Attempt(c, m)] == 1 ==>
            c in y.ever && m < |y.messages| && Matches(y.ever[c], y.messages[m].target))
  {
    StartHolds();
    InvAfter(START, events);
    var y := After(START, events);
    assert Accounted(y, c, m);
    if Done(y, c, m) {
      var k := Task(m, y.ever[c].worker);
      assert k in y.started <==> TakenUp(y, k);
      assert TaskOk(y, k);
    }
  }

  // ------------------------------------------------------------------
  // Deliveries are the accepted sends
  // ------------------------------------------------------------------

  predicate SendsTo(e: Event, c: nat, m: nat) {
    e.Send? && e.conn == c && e.task.message == m
  }

  /** A send whose connection is there and whose socket takes the message. */
  predicate Takes(y: Sys, e: Event, c: nat, m: nat) {
    Enabled(y, e) && SendsTo(e, c, m) && e.accepts && c in y.live
  }

  predicate Refuses(y: Sys, e: Event, c: nat, m: nat) {
    Enabled(y, e) && SendsTo(e, c, m) && !(e.accepts && c in y.live)
  }

  function TakenIn(y: Sys, events: seq<Event>, c: nat, m: nat): nat
    decreases |events|
  {
    if events == [] then 0
    else (if Takes(y, events[0], c, m) then 1 else 0) + TakenIn(Step(y, events[0]), events[1..], c, m)
  }

  predicate RefusedIn(y: Sys, events: seq<Event>, c: nat, m: nat)
    decreases |events|
  {
    events != [] && (Refuses(y, events[0], c, m) || RefusedIn(Step(y, events[0]), events[1..], c, m))
  }

  lemma OthersBookNothing(y: Sys, e: Event)
    requires Enabled(y, e) && !e.Send?
    ensures Act(y, e).delivered == y.delivered && Act(y, e).failed == y.failed
  {
  }

  lemma SendBooks(y: Sys, k: Task, d: nat, accepts: bool, raises: bool, c: nat, m: nat)
    requires k in y.pending
    ensures
      var z, mine := DoSend(y, k, d, accepts, raises), d == c && k.message == m;
      && z.delivered[Attempt(c, m)] ==
         y.delivered[Attempt(c, m)] + (if mine && accepts && d in y.live then 1 else 0)
      && (Attempt(c, m) in z.failed <==> Attempt(c, m) in y.failed || (mine && !(accepts && d in y.live)))
  {
  }

  lemma StepBooks(y: Sys, e: Event, c: nat, m: nat)
    ensures Step(y, e).delivered[Attempt(c, m)] ==
            y.delivered[Attempt(c, m)] + if Takes(y, e, c, m) then 1 else 0
    ensures Attempt(c, m) in Step(y, e).failed <==> Attempt(c, m) in y.failed || Refuses(y, e, c, m)
  {
    if Enabled(y, e) {
      if e.Send? {
        SendBooks(y, e.task, e.conn, e.accepts, e.raises, c, m);
      } else {
        OthersBookNothing(y, e);
      }
    }
  }

  lemma {:induction false} RunBooks(y: Sys, events: seq<Event>, c: nat, m: nat)
    ensures After(y, events).delivered[Attempt(c, m)] ==
            y.delivered[Attempt(c, m)] + TakenIn(y, events, c, m)
    ensures Attempt(c, m) in After(y, events).failed <==>
            Attempt(c, m) in y.failed || RefusedIn(y, events, c, m)
    decreases |events|
  {
    if events != [] {
      StepBooks(y, events[0], c, m);
      RunBooks(Step(y, events[0]), events[1..], c, m);
    }
  }

  /** In every run the deliveries are the accepted sends, and the failures the refused ones. */
  lemma DeliveriesAreAcceptedSends(events: seq<Event>, c: nat, m: nat)
    ensures After(START, events).delivered[Attempt(c, m)] == TakenIn(START, events, c, m)
    ensures Attempt(c, m) in After(START, events).failed <==> RefusedIn(START, events, c, m)
  {
    RunBooks(START, events, c, m);
  }

  /** A connection that is gone does not come back under its id. */
  lemma GoneStaysGone(y: Sys, e: Event, c: nat)
    requires c in y.ever && c in Step(y, e).live
    ensures c in y.live && c in Step(y, e).ever && y.live[c] == Step(y, e).live[c]
  {
  }

  /** The connection's socket takes what it is sent of the message. */
  predicate Accepting(y: Sys, events: seq<Event>, c: nat, m: nat)
    decreases |events|
  {
    events != [] ==>
      && (Enabled(y, events[0]) && SendsTo(events[0], c, m) ==> events[0].accepts)
      && Accepting(Step(y, events[0]), events[1..], c, m)
  }

  lemma {:induction false} StillThere(y: Sys, events: seq<Event>, c: nat)
    requires c in y.ever && c in After(y, events).live
    ensures c in y.live
    decreases |events|
  {
    if events != [] {
      assert c in Step(y, events[0]).ever;
      StillThere(Step(y, events[0]), events[1..], c);
      GoneStaysGone(y, events[0], c);
    }
  }

  /** No send to a connection that is there in the end fails, unless its socket refuses. */
  lemma {:induction false} NoRefusal(y: Sys, events: seq<Event>, c: nat, m: nat)
    requires Inv(y) && c in After(y, events).live && Accepting(y, events, c, m)
    ensures !RefusedIn(y, events, c, m)
    decreases |events|
  {
    if events != [] {
      var e, rest := events[0], events[1..];
      if Enabled(y, e) && SendsTo(e, c, m) {
        assert TaskOk(y, e.task);
        StillThere(y, events, c);
      }
      StepKeepsInv(y, e);
      NoRefusal(Step(y, e), rest, c, m);
    }
  }

  /**
   * A connection that was there before the message was published, is the right kind and is still
   * there gets it exactly once, if its worker published it or the bus handed it to its worker, the
   * worker's send loop is past it, and its socket took what it was sent of the message.
   */
  lemma ExactlyOnce(events: seq<Event>, c: nat, m: nat)
    requires
      var y := After(START, events);
      && m < |y.messages| && c in y.live && y.live[c].born < y.messages[m].at
      && Matches(y.live[c], y.messages[m].target)
      && (y.live[c].worker == y.messages[m].origin || Task(m, y.live[c].worker) in y.handed)
      && (Task(m, y.live[c].worker) in y.pending ==> c !in y.pending[Task(m, y.live[c].worker)])
      && Accepting(START, events, c, m)
    ensures After(START, events).delivered[Attempt(c, m)] == 1
    ensures TakenIn(START, events, c, m) == 1
  {
    StartHolds();
    InvAfter(START, events);
    var y := After(START, events);
    var k := Task(m, y.live[c].worker);
    assert k in y.started <==> TakenUp(y, k);
    assert TaskOk(y, k);
    NoRefusal(START, events, c, m);
    DeliveriesAreAcceptedSends(events, c, m);
    assert Accounted(y, c, m);
  }

  // ------------------------------------------------------------------
  // Local delivery comes first
  // ------------------------------------------------------------------

  /** What is on the bus has been sent to all targets of its own worker. */
  ghost predicate LocalFirst(y: Sys) {
    forall m | m in y.bus ::
      && m < |y.messages| && Task(m, y.messages[m].origin) in y.pending
      && y.pending[Task(m, y.messages[m].origin)] == {}
  }

  /** A message on the bus is taken up again by other workers only, and its sends are over. */
  lemma ActKeepsMessage(y: Sys, e: Event, m: nat)
    requires Inv(y) && Enabled(y, e) && m < |y.messages|
    requires Task(m, y.messages[m].origin) in y.pending && y.pending[Task(m, y.messages[m].origin)] == {}
    ensures
      var z := Act(y, e);
      && m < |z.messages| && z.messages[m] == y.messages[m]
      && Task(m, z.messages[m].origin) in z.pending && z.pending[Task(m, z.messages[m].origin)] == {}
  {
  }

  lemma StepKeepsLocalFirst(y: Sys, e: Event)
    requires Inv(y) && LocalFirst(y)
    ensures LocalFirst(Step(y, e))
  {
    if Enabled(y, e) {
      forall m | m in Act(y, e).bus
        ensures
          var z := Act(y, e);
          && m < |z.messages| && Task(m, z.messages[m].origin) in z.pending
          && z.pending[Task(m, z.messages[m].origin)] == {}
      {
        assert m in y.bus || e == PutOnBus(m);
        ActKeepsMessage(y, e, m);
      }
    }
  }

  lemma {:induction false} LocalFirstAfter(y: Sys, events: seq<Event>)
    requires Inv(y) && LocalFirst(y)
    ensures LocalFirst(After(y, events))
    decreases |events|
  {
    if events != [] {
      StepKeepsInv(y, events[0]);
      StepKeepsLocalFirst(y, events[0]);
      LocalFirstAfter(Step(y, events[0]), events[1..]);
    }
  }

  /** In every run a message on the bus has been tried on every local target of its publisher. */
  lemma BusComesAfterLocal(events: seq<Event>, m: nat)
    requires m in After(START, events).bus
    ensures
      var y := After(START, events);
      && m < |y.messages| && Task(m, y.messages[m].origin) in y.pending
      && y.pending[Task(m, y.messages[m].origin)] == {}
  {
    StartHolds();
    LocalFirstAfter(START, events);
  }

  // ------------------------------------------------------------------
  // Every message can get through
  // ------------------------------------------------------------------

  /** A publishing worker can send to each of its matching connections at once. */
  lemma CanBeSentLocally(y: Sys, c: nat, target: Target)
    requires Inv(y) && c in y.live && Matches(y.live[c], target)
    ensures
      var w, m := y.live[c].worker, |y.messages|;
      Takes(Step(y, Publish(w, target)), Send(Task(m, w), c, true, false), c, m)
  {
  }

  /**
   * Once the publisher's own loop is through, the message can be put on the bus, handed to any other
   * worker that has not seen it, and sent to each of that worker's matching connections.
   */
  lemma CanBeForwarded(y: Sys, c: nat, m: nat)
    requires Inv(y) && c in y.live && m < |y.messages| && Matches(y.live[c], y.messages[m].target)
    requires y.live[c].worker != y.messages[m].origin && Task(m, y.live[c].worker) !in y.handed
    requires y.pending.Keys == y.started.Keys && Task(m, y.messages[m].origin) in y.pending
    requires y.pending[Task(m, y.messages[m].origin)] == {}
    ensures
      var k := Task(m, y.live[c].worker);
      var z := Step(Step(y, PutOnBus(m)), Hand(k));
      Takes(z, Send(k, c, true, false), c, m)
  {
    var k := Task(m, y.live[c].worker);
    DecodeRecoversTarget(y.messages[m].target);
    var bus := Step(y, PutOnBus(m));
    assert Enabled(y, PutOnBus(m)) && Enabled(bus, Hand(k));
    assert c in TargetsOn(bus.live, k.worker, y.messages[m].target);
  }

  // ------------------------------------------------------------------
  // The manager's indices are these targets
  // ------------------------------------------------------------------

  function NameOf(key: Option<string>): string {
    if Given(key) then key.value else ""
  }

  /** The connections are exactly the live ones of the worker, under their names. */
  ghost predicate Holds(connections: set<nat>, ever: map<nat, Identity>, live: map<nat, Client>, worker: nat) {
    && (forall c | c in connections :: c in ever && c in live)
    && (forall c | c in live :: live[c].worker == worker <==> c in connections)
    && (forall c | c in connections ::
          live[c].user == NameOf(ever[c].user) && live[c].role == NameOf(ever[c].role))
  }

  /** One worker's registry: exact indices over exactly the live connections of that worker. */
  ghost predicate RegistryOf(h: Hub, live: map<nat, Client>, worker: nat) {
    WellIndexed(h) && Holds(h.reg.connections, h.ever, live, worker)
  }

  /** Hence the sets send_to_user, send_to_role and broadcast_to_all copy are the targets of the protocol. */
  lemma TargetsAreIndexSets(h: Hub, live: map<nat, Client>, worker: nat, target: Target)
    requires RegistryOf(h, live, worker)
    ensures TargetsOn(live, worker, target) == TargetsOf(h.reg, target)
  {
  }

  // ------------------------------------------------------------------
  // Every worker's manager, in every run
  // ------------------------------------------------------------------

  /** What the socket of one send does, seen from the manager. */
  function SocketOf(accepts: bool, raises: bool): Socket {
    if accepts then Accepts else if raises then Raises else Closed
  }

  /** The calls an event makes on the manager of one worker. */
  function Local(y: Sys, e: Event, worker: nat): seq<Connections.Event> {
    if !Enabled(y, e) then []
    else match e
      case Connect(c, w, user, role) =>
        if w == worker then [Connects(c, Identity(None, Some(user), Some(role)))] else []
      case Disconnect(c) =>
        if c in y.live && y.live[c].worker == worker then [Leaves(c)] else []
      case Send(_, c, accepts, raises) =>
        if c in y.live && y.live[c].worker == worker then [Sends(c, SocketOf(accepts, raises))] else []
      case _ => []
  }

  function LocalRun(y: Sys, events: seq<Event>, worker: nat): seq<Connections.Event>
    decreases |events|
  {
    if events == [] then [] else Local(y, events[0], worker) + LocalRun(Step(y, events[0]), events[1..], worker)
  }

  /** The registry is the worker's, and it has never seen an id that is still to come. */
  ghost predicate InStep(h: Hub, y: Sys, worker: nat) {
    RegistryOf(h, y.live, worker) && forall c | c in h.ever :: c in y.ever
  }

  lemma OneCall(h: Hub, e: Connections.Event)
    ensures Connections.After(h, []) == h
    ensures Connections.After(h, [e]) == Connections.Step(h, e)
  {
    assert [e][1..] == [];
    assert Connections.After(h, [e]) == Connections.After(Connections.Step(h, e), [e][1..]);
  }

  lemma ConnectHolds(connections: set<nat>, ever: map<nat, Identity>, y: Sys, worker: nat, c: nat, who: Client)
    requires Holds(connections, ever, y.live, worker) && c !in y.live && c !in ever
    ensures
      var live := y.live[c := who];
      if who.worker == worker then
        Holds(connections + {c}, ever[c := Identity(None, Some(who.user), Some(who.role))], live, worker)
      else Holds(connections, ever, live, worker)
  {
  }

  lemma RemovalHolds(connections: set<nat>, ever: map<nat, Identity>, live: map<nat, Client>, worker: nat, c: nat)
    requires Holds(connections, ever, live, worker)
    ensures Holds(connections - {c}, ever, map d | d in live && d != c :: live[d], worker)
  {
  }

  lemma ConnectInStep(h: Hub, y: Sys, worker: nat, c: nat, w: nat, user: string, role: string)
    requires InStep(h, y, worker) && ClientsOk(y) && c !in y.ever
    ensures
      var who := Identity(None, Some(user), Some(role));
      InStep(if w == worker then Connections.Step(h, Connects(c, who)) else h, DoConnect(y, c, w, user, role), worker)
  {
    var who := Identity(None, Some(user), Some(role));
    ConnectHolds(h.reg.connections, h.ever, y, worker, c, Client(w, user, role, y.clock));
    if w == worker {
      StepKeepsIndexed(h, Connects(c, who));
    }
  }

  /** A connection of the worker leaves its registry. */
  lemma RemovalInStep(h: Hub, y: Sys, worker: nat, c: nat, e: Connections.Event)
    requires InStep(h, y, worker) && c in y.live && y.live[c].worker == worker
    requires e == Leaves(c) || e == Sends(c, Raises)
    ensures InStep(Connections.Step(h, e), DoDisconnect(y, c), worker)
  {
    assert c in h.reg.connections;
    RemovalHolds(h.reg.connections, h.ever, y.live, worker, c);
    StepKeepsIndexed(h, e);
    assert Connections.Step(h, e).reg.connections == h.reg.connections - {c};
  }

  lemma StaysInStep(h: Hub, y: Sys, z: Sys, worker: nat)
    requires InStep(h, y, worker) && z.live == y.live && z.ever == y.ever
    ensures InStep(h, z, worker)
  {
  }

  /** Another worker's connection goes away: this registry did not hold it. */
  lemma OthersRemovalInStep(h: Hub, y: Sys, worker: nat, c: nat)
    requires InStep(h, y, worker) && (c in y.live ==> y.live[c].worker != worker)
    ensures InStep(h, DoDisconnect(y, c), worker)
  {
    assert c !in h.reg.connections;
    RemovalHolds(h.reg.connections, h.ever, y.live, worker, c);
    assert h.reg.connections - {c} == h.reg.connections;
  }

  lemma SendInStep(h: Hub, y: Sys, worker: nat, k: Task, c: nat, accepts: bool, raises: bool)
    requires InStep(h, y, worker) && Enabled(y, Send(k, c, accepts, raises))
    ensures InStep(Connections.After(h, Local(y, Send(k, c, accepts, raises), worker)),
                   DoSend(y, k, c, accepts, raises), worker)
  {
    var z, e := DoSend(y, k, c, accepts, raises), Sends(c, SocketOf(accepts, raises));
    OneCall(h, e);
    if c in y.live && !accepts && raises {
      assert z.live == DoDisconnect(y, c).live && z.ever == y.ever;
      if y.live[c].worker == worker {
        RemovalInStep(h, y, worker, c, e);
        StaysInStep(Connections.Step(h, e), DoDisconnect(y, c), z, worker);
      } else {
        OthersRemovalInStep(h, y, worker, c);
        StaysInStep(h, DoDisconnect(y, c), z, worker);
      }
    } else {
      StaysInStep(h, y, z, worker);
    }
  }

  lemma ActInStep(h: Hub, y: Sys, worker: nat, e: Event)
    requires InStep(h, y, worker) && ClientsOk(y) && Enabled(y, e)
    ensures InStep(Connections.After(h, Local(y, e, worker)), Act(y, e), worker)
  {
    match e
    case Connect(c, w, user, role) =>
      OneCall(h, Connects(c, Identity(None, Some(user), Some(role))));
      ConnectInStep(h, y, worker, c, w, user, role);
    case Disconnect(c) =>
      OneCall(h, Leaves(c));
      if c in y.live && y.live[c].worker == worker {
        RemovalInStep(h, y, worker, c, Leaves(c));
      } else {
        OthersRemovalInStep(h, y, worker, c);
      }
    case Send(k, c, accepts, raises) =>
      SendInStep(h, y, worker, k, c, accepts, raises);
    case Publish(_, _) | PutOnBus(_) | Hand(_) =>
      StaysInStep(h, y, Act(y, e), worker);
  }

  lemma {:induction false} RunInStep(h: Hub, y: Sys, events: seq<Event>, worker: nat)
    requires InStep(h, y, worker) && Inv(y)
    ensures InStep(Connections.After(h, LocalRun(y, events, worker)), After(y, events), worker)
    decreases |events|
  {
    if events != [] {
      var e, z := events[0], Step(y, events[0]);
      var now := Connections.After(h, Local(y, e, worker));
      if Enabled(y, e) {
        ActInStep(h, y, worker, e);
        StaysInStep(now, Act(y, e), z, worker);
      }
      StepKeepsInv(y, e);
      RunInStep(now, z, events[1..], worker);
      AfterConcat(h, Local(y, e, worker), LocalRun(z, events[1..], worker));
    }
  }

  /** The hub of one worker's manager after its calls in a run. */
  function ManagerOf(events: seq<Event>, worker: nat): Hub {
    HubAfter(LocalRun(START, events, worker))
  }

  /**
   * In every run, under every interleaving, the calls a worker's manager received leave it with exact
   * indices that hold exactly the worker's live connections; so the set it copies for a message is the
   * target set of the protocol.
   */
  lemma ManagersServeTheProtocol(events: seq<Event>, worker: nat, target: Target)
    ensures RegistryOf(ManagerOf(events, worker), After(START, events).live, worker)
    ensures TargetsOn(After(START, events).live, worker, target) == TargetsOf(ManagerOf(events, worker).reg, target)
  {
    StartHolds();
    var empty := Hub(EMPTY_REGISTRY, map[]);
    RunInStep(empty, START, events, worker);
    TargetsAreIndexSets(ManagerOf(events, worker), After(START, events).live, worker, target);
  }

  /** A send is a delivery exactly when the manager's send_json of the sending worker says so. */
  lemma DeliveryIsVerdict(events: seq<Event>, e: Event)
    requires e.Send? && Enabled(After(START, events), e)
    ensures
      var y := After(START, events);
      Takes(y, e, e.conn, e.task.message) <==>
      Verdict(ManagerOf(events, e.task.worker).reg, e.conn, SocketOf(e.accepts, e.raises))
  {
    StartHolds();
    InvAfter(START, events);
    ManagersServeTheProtocol(events, e.task.worker, ToAll);
    assert TaskOk(After(START, events), e.task);
  }
}
