/** The WebSocket connection manager: four indices over one connection table. */
module Connections {
  import opened Sums
  import opened Tables

  type Index = map<string, set<nat>>

  datatype Registry = Registry(connections: set<nat>, rooms: Index, users: Index, roles: Index)

  /** Who a connection said it was when it connected. */
  datatype Identity = Identity(room: Option<string>, user: Option<string>, role: Option<string>)

  const EMPTY_REGISTRY := Registry({}, map[], map[], map[])

  /** Python truth of an optional string: None and the empty string are false. */
  predicate Given(key: Option<string>) {
    key.Some? && key.value != ""
  }

  /** dict.get(key, set()). */
  function Members(m: Index, key: string): set<nat> {
    if key in m then m[key] else {}
  }

  function Join(m: Index, key: Option<string>, cid: nat): Index {
    if Given(key) then m[key.value := Members(m, key.value) + {cid}] else m
  }

  function DiscardAll(m: Index, gone: set<nat>): Index {
    map key | key in m :: m[key] - gone
  }

  /** With a hint only the hinted set is touched (the defaultdict creates it); without, every set is. */
  function Leave(m: Index, hint: Option<string>, cid: nat): Index {
    if Given(hint) then m[hint.value := Members(m, hint.value) - {cid}] else DiscardAll(m, {cid})
  }

  function Connected(g: Registry, cid: nat, who: Identity): Registry {
    Registry(g.connections + {cid},
             Join(g.rooms, who.room, cid), Join(g.users, who.user, cid), Join(g.roles, who.role, cid))
  }

  function Disconnected(g: Registry, cid: nat, user: Option<string>, role: Option<string>): Registry {
    Registry(g.connections - {cid}, DiscardAll(g.rooms, {cid}), Leave(g.users, user, cid), Leave(g.roles, role, cid))
  }

  /** The full-scan disconnect of several connections at once. */
  function DropAll(g: Registry, gone: set<nat>): Registry {
    Registry(g.connections - gone, DiscardAll(g.rooms, gone), DiscardAll(g.users, gone), DiscardAll(g.roles, gone))
  }

  // ------------------------------------------------------------------
  // Sends
  // ------------------------------------------------------------------

  datatype Target = ToUser(id: string) | ToRole(id: string) | ToAll

  function TargetsOf(g: Registry, target: Target): set<nat> {
    match target
    case ToUser(id) => Members(g.users, id)
    case ToRole(id) => Members(g.roles, id)
    case ToAll => g.connections
  }

  /** What a socket does with one send: it is no longer open, it takes the message, or it raises. */
  datatype Socket = Closed | Accepts | Raises

  function Answering(targets: set<nat>, sockets: nat -> Socket, answer: Socket): set<nat> {
    set c | c in targets && sockets(c) == answer
  }

  /** What send_json returns. */
  predicate Verdict(g: Registry, cid: nat, socket: Socket) {
    cid in g.connections && socket.Accepts?
  }

  /** send_json: a socket that raises is disconnected by a full scan. */
  function AfterSend(g: Registry, cid: nat, socket: Socket): Registry {
    if cid in g.connections && socket.Raises? then DropAll(g, {cid}) else g
  }

  // ------------------------------------------------------------------
  // Runs
  // ------------------------------------------------------------------

  /** The registry together with the identity of every connection ever made. */
  datatype Hub = Hub(reg: Registry, ever: map<nat, Identity>)

  /** Leaves is the endpoint's disconnect with the connect-time user and role; Drops has no hints. */
  datatype Event =
    | Connects(cid: nat, who: Identity)
    | Leaves(cid: nat)
    | Drops(cid: nat)
    | Sends(cid: nat, socket: Socket)

  function Step(h: Hub, e: Event): Hub {
    match e
    case Connects(cid, who) =>
      if cid in h.ever then h else Hub(Connected(h.reg, cid, who), h.ever[cid := who])
    case Leaves(cid) =>
      if cid !in h.ever then h
      else Hub(Disconnected(h.reg, cid, h.ever[cid].user, h.ever[cid].role), h.ever)
    case Drops(cid) =>
      Hub(Disconnected(h.reg, cid, None, None), h.ever)
    case Sends(cid, socket) =>
      Hub(AfterSend(h.reg, cid, socket), h.ever)
  }

  function After(h: Hub, events: seq<Event>): Hub
    decreases |events|
  {
    if events == [] then h else After(Step(h, events[0]), events[1..])
  }

  lemma {:induction false} AfterConcat(h: Hub, events: seq<Event>, more: seq<Event>)
    ensures After(h, events + more) == After(After(h, events), more)
    decreases |events|
  {
    if events == [] {
      assert events + more == more;
    } else {
      assert (events + more)[1..] == events[1..] + more;
      AfterConcat(Step(h, events[0]), events[1..], more);
    }
  }

  function HubAfter(events: seq<Event>): Hub {
    After(Hub(EMPTY_REGISTRY, map[]), events)
  }

  /** An index is exact: a set holds the live connections that named its key, and keys are kept. */
  ghost predicate Exact(m: Index, live: set<nat>, key: map<nat, Option<string>>) {
    && live <= key.Keys
    && (forall k: string, c: nat :: c in Members(m, k) <==> c in live && Given(key[c]) && key[c].value == k)
    && (forall c: nat | c in key && Given(key[c]) :: key[c].value in m)
  }

  function RoomKeys(ever: map<nat, Identity>): map<nat, Option<string>> {
    map c | c in ever :: ever[c].room
  }

  function UserKeys(ever: map<nat, Identity>): map<nat, Option<string>> {
    map c | c in ever :: ever[c].user
  }

  function RoleKeys(ever: map<nat, Identity>): map<nat, Option<string>> {
    map c | c in ever :: ever[c].role
  }

  ghost predicate WellIndexed(h: Hub) {
    && Exact(h.reg.rooms, h.reg.connections, RoomKeys(h.ever))
    && Exact(h.reg.users, h.reg.connections, UserKeys(h.ever))
    && Exact(h.reg.roles, h.reg.connections, RoleKeys(h.ever))
  }

  lemma JoinKeepsExact(m: Index, live: set<nat>, key: map<nat, Option<string>>, cid: nat, mine: Option<string>)
    requires Exact(m, live, key) && cid !in key
    ensures Exact(Join(m, mine, cid), live + {cid}, key[cid := mine])
  {
    var next := Join(m, mine, cid);
    forall k: string, c: nat
      ensures c in Members(next, k) <==>
              c in live + {cid} && Given(key[cid := mine][c]) && key[cid := mine][c].value == k
    {
      assert c in Members(m, k) <==> c in live && Given(key[c]) && key[c].value == k;
    }
  }

  lemma DiscardKeepsExact(m: Index, live: set<nat>, key: map<nat, Option<string>>, gone: set<nat>)
    requires Exact(m, live, key)
    ensures Exact(DiscardAll(m, gone), live - gone, key)
  {
    forall k: string, c: nat
      ensures c in Members(DiscardAll(m, gone), k) <==> c in live - gone && Given(key[c]) && key[c].value == k
    {
      assert c in Members(m, k) <==> c in live && Given(key[c]) && key[c].value == k;
    }
  }

  /** Leaving by the connect-time key is leaving everywhere. */
  lemma LeaveIsDiscard(m: Index, live: set<nat>, key: map<nat, Option<string>>, cid: nat)
    requires Exact(m, live, key) && cid in key
    ensures Leave(m, key[cid], cid) == DiscardAll(m, {cid})
  {
    if Given(key[cid]) {
      var mine := key[cid].value;
      forall k | k in m && k != mine ensures m[k] - {cid} == m[k] {
        assert cid !in Members(m, k);
      }
    }
  }

  /** In a well-indexed hub the hinted disconnect is the full-scan one, field by field. */
  lemma HintedIsFullScan(h: Hub, cid: nat)
    requires WellIndexed(h) && cid in h.ever
    ensures Disconnected(h.reg, cid, h.ever[cid].user, h.ever[cid].role) == Disconnected(h.reg, cid, None, None)
  {
    LeaveIsDiscard(h.reg.users, h.reg.connections, UserKeys(h.ever), cid);
    LeaveIsDiscard(h.reg.roles, h.reg.connections, RoleKeys(h.ever), cid);
  }

  lemma ConnectKeepsIndexed(h: Hub, cid: nat, who: Identity)
    requires WellIndexed(h) && cid !in h.ever
    ensures WellIndexed(Hub(Connected(h.reg, cid, who), h.ever[cid := who]))
  {
    JoinKeepsExact(h.reg.rooms, h.reg.connections, RoomKeys(h.ever), cid, who.room);
    JoinKeepsExact(h.reg.users, h.reg.connections, UserKeys(h.ever), cid, who.user);
    JoinKeepsExact(h.reg.roles, h.reg.connections, RoleKeys(h.ever), cid, who.role);
    KeysMore(h.ever, cid, who);
  }

  lemma KeysMore(ever: map<nat, Identity>, cid: nat, who: Identity)
    ensures RoomKeys(ever[cid := who]) == RoomKeys(ever)[cid := who.room]
    ensures UserKeys(ever[cid := who]) == UserKeys(ever)[cid := who.user]
    ensures RoleKeys(ever[cid := who]) == RoleKeys(ever)[cid := who.role]
  {
  }

  lemma DropKeepsIndexed(h: Hub, gone: set<nat>)
    requires WellIndexed(h)
    ensures WellIndexed(Hub(DropAll(h.reg, gone), h.ever))
  {
    DiscardKeepsExact(h.reg.rooms, h.reg.connections, RoomKeys(h.ever), gone);
    DiscardKeepsExact(h.reg.users, h.reg.connections, UserKeys(h.ever), gone);
    DiscardKeepsExact(h.reg.roles, h.reg.connections, RoleKeys(h.ever), gone);
  }

  lemma StepKeepsIndexed(h: Hub, e: Event)
    requires WellIndexed(h)
    ensures WellIndexed(Step(h, e))
  {
    match e
    case Connects(cid, who) =>
      if cid !in h.ever {
        ConnectKeepsIndexed(h, cid, who);
      }
    case Leaves(cid) =>
      if cid in h.ever {
        HintedIsFullScan(h, cid);
        DropKeepsIndexed(h, {cid});
      }
    case Drops(cid) =>
      DropKeepsIndexed(h, {cid});
    case Sends(cid, _) =>
      DropKeepsIndexed(h, {cid});
  }

  lemma {:induction false} IndexedAfter(h: Hub, events: seq<Event>)
    requires WellIndexed(h)
    ensures WellIndexed(After(h, events))
    decreases |events|
  {
    if events != [] {
      StepKeepsIndexed(h, events[0]);
      IndexedAfter(Step(h, events[0]), events[1..]);
    }
  }

  lemma HubIsWellIndexed(events: seq<Event>)
    ensures WellIndexed(HubAfter(events))
  {
    IndexedAfter(Hub(EMPTY_REGISTRY, map[]), events);
  }

  // ------------------------------------------------------------------
  // What every run guarantees
  // ------------------------------------------------------------------

  /** Every id in a room, user or role set is a registered connection. */
  lemma IndicesHoldLiveConnections(events: seq<Event>, key: string, c: nat)
    ensures
      var g := HubAfter(events).reg;
      c in Members(g.rooms, key) || c in Members(g.users, key) || c in Members(g.roles, key) ==> c in g.connections
  {
    HubIsWellIndexed(events);
    var h := HubAfter(events);
    assert c in Members(h.reg.rooms, key) ==> c in h.reg.connections;
    assert c in Members(h.reg.users, key) ==> c in h.reg.connections;
    assert c in Members(h.reg.roles, key) ==> c in h.reg.connections;
  }

  /**
   * The endpoint's disconnect removes its own id everywhere and touches no other id, and doing it
   * again, or after a failed send already dropped the connection, changes nothing.
   */
  lemma DisconnectIsExactAndIdempotent(events: seq<Event>, cid: nat, key: string, c: nat)
    requires cid in HubAfter(events).ever
    ensures
      var h := HubAfter(events);
      var t := Step(h, Leaves(cid));
      && t == Step(h, Drops(cid))
      && Step(t, Leaves(cid)) == t
      && (c in t.reg.connections <==> c in h.reg.connections && c != cid)
      && (c in Members(t.reg.rooms, key) <==> c in Members(h.reg.rooms, key) && c != cid)
      && (c in Members(t.reg.users, key) <==> c in Members(h.reg.users, key) && c != cid)
      && (c in Members(t.reg.roles, key) <==> c in Members(h.reg.roles, key) && c != cid)
  {
    var h := HubAfter(events);
    HubIsWellIndexed(events);
    HintedIsFullScan(h, cid);
    var t := Step(h, Drops(cid));
    DropKeepsIndexed(h, {cid});
    HintedIsFullScan(t, cid);
    DiscardTwice(h.reg.rooms, cid);
    DiscardTwice(h.reg.users, cid);
    DiscardTwice(h.reg.roles, cid);
  }

  lemma DiscardTwice(m: Index, cid: nat)
    ensures DiscardAll(DiscardAll(m, {cid}), {cid}) == DiscardAll(m, {cid})
  {
    forall k | k in m ensures m[k] - {cid} - {cid} == m[k] - {cid} {
    }
  }

  /** A hint the caller can check: no key given, or the key the connection itself named, if any. */
  predicate HintFits(hint: Option<string>, mine: Option<string>) {
    !Given(hint) || !Given(mine) || hint == mine
  }

  ghost predicate Nowhere(m: Index, cid: nat) {
    forall key: string :: cid !in Members(m, key)
  }

  /** A hinted disconnect of a live connection leaves no dangling id exactly when both hints fit. */
  lemma HintsMustFit(h: Hub, cid: nat, user: Option<string>, role: Option<string>)
    requires WellIndexed(h) && cid in h.reg.connections
    ensures
      var g := Disconnected(h.reg, cid, user, role);
      Nowhere(g.users, cid) && Nowhere(g.roles, cid) <==>
      HintFits(user, h.ever[cid].user) && HintFits(role, h.ever[cid].role)
  {
    LeaveClearsIff(h.reg.users, h.reg.connections, UserKeys(h.ever), cid, user);
    LeaveClearsIff(h.reg.roles, h.reg.connections, RoleKeys(h.ever), cid, role);
  }

  /** Hints of another user leave an id behind that is registered no more. No caller passes such hints. */
  lemma WrongHintLeavesDanglingId()
    ensures
      var h := HubAfter([Connects(0, Identity(None, Some("a"), None))]);
      var g := Disconnected(h.reg, 0, Some("b"), None);
      0 in h.reg.connections && 0 !in g.connections && 0 in Members(g.users, "a")
  {
    var e := Connects(0, Identity(None, Some("a"), None));
    var empty := Hub(EMPTY_REGISTRY, map[]);
    assert [e][1..] == [];
    assert After(empty, [e]) == After(Step(empty, e), [e][1..]);
  }

  lemma LeaveClearsIff(m: Index, live: set<nat>, key: map<nat, Option<string>>, cid: nat, hint: Option<string>)
    requires Exact(m, live, key) && cid in live
    ensures Nowhere(Leave(m, hint, cid), cid) <==> HintFits(hint, key[cid])
  {
    if HintFits(hint, key[cid]) {
      forall k: string ensures cid !in Members(Leave(m, hint, cid), k) {
        assert cid in Members(m, k) <==> Given(key[cid]) && key[cid].value == k;
      }
    } else {
      assert cid in Members(m, key[cid].value);
      assert cid in Members(Leave(m, hint, cid), key[cid].value);
    }
  }

  // ------------------------------------------------------------------
  // The manager
  // ------------------------------------------------------------------

  // ------------------------------------------------------------------
  // Send loops, with what other tasks do at each await
  // ------------------------------------------------------------------

  /** One round: the send, and then the calls of other tasks that come in before the next one. */
  function Turn(h: Hub, cid: nat, sockets: nat -> Socket, meanwhile: nat -> seq<Event>): Hub {
    After(Step(h, Sends(cid, sockets(cid))), meanwhile(cid))
  }

  function Loop(h: Hub, targets: seq<nat>, sockets: nat -> Socket, meanwhile: nat -> seq<Event>): Hub
    decreases |targets|
  {
    if targets == [] then h
    else Loop(Turn(h, targets[0], sockets, meanwhile), targets[1..], sockets, meanwhile)
  }

  /** How many sends worked: those whose target was registered when its turn came and accepted. */
  function Sent(h: Hub, targets: seq<nat>, sockets: nat -> Socket, meanwhile: nat -> seq<Event>): nat
    decreases |targets|
  {
    if targets == [] then 0
    else
      (if Verdict(h.reg, targets[0], sockets(targets[0])) then 1 else 0)
      + Sent(Turn(h, targets[0], sockets, meanwhile), targets[1..], sockets, meanwhile)
  }

  /** The loop as a run: its own sends with the other tasks' calls in between. */
  function Trace(targets: seq<nat>, sockets: nat -> Socket, meanwhile: nat -> seq<Event>): seq<Event>
    decreases |targets|
  {
    if targets == [] then []
    else
      [Sends(targets[0], sockets(targets[0]))] + meanwhile(targets[0]) + Trace(targets[1..], sockets, meanwhile)
  }

  lemma {:induction false} LoopIsRun(
    h: Hub, targets: seq<nat>, sockets: nat -> Socket, meanwhile: nat -> seq<Event>)
    ensures Loop(h, targets, sockets, meanwhile) == After(h, Trace(targets, sockets, meanwhile))
    decreases |targets|
  {
    if targets != [] {
      var e, others := Sends(targets[0], sockets(targets[0])), meanwhile(targets[0]);
      var rest := Trace(targets[1..], sockets, meanwhile);
      AfterConcat(h, [e] + others, rest);
      assert ([e] + others)[0] == e && ([e] + others)[1..] == others;
      LoopIsRun(Turn(h, targets[0], sockets, meanwhile), targets[1..], sockets, meanwhile);
    }
  }

  ghost predicate Distinct(targets: seq<nat>) {
    forall i, j | 0 <= i < j < |targets| :: targets[i] != targets[j]
  }

  predicate Removes(e: Event, cid: nat) {
    !e.Connects? && e.cid == cid && (e.Sends? ==> e.socket.Raises?)
  }

  /** Other tasks connect whom they like and remove anybody but the targets. */
  ghost predicate Undisturbed(targets: seq<nat>, meanwhile: nat -> seq<Event>) {
    forall c: nat, e, t | e in meanwhile(c) && t in targets :: !Removes(e, t)
  }

  lemma StepKeepsMembership(h: Hub, e: Event, cid: nat)
    requires WellIndexed(h) && cid in h.ever && !Removes(e, cid)
    ensures cid in Step(h, e).ever
    ensures cid in Step(h, e).reg.connections <==> cid in h.reg.connections
  {
  }

  lemma {:induction false} AfterKeepsMembership(h: Hub, events: seq<Event>, cid: nat)
    requires WellIndexed(h) && cid in h.ever && forall e | e in events :: !Removes(e, cid)
    ensures WellIndexed(After(h, events)) && cid in After(h, events).ever
    ensures cid in After(h, events).reg.connections <==> cid in h.reg.connections
    decreases |events|
  {
    if events != [] {
      StepKeepsIndexed(h, events[0]);
      StepKeepsMembership(h, events[0], cid);
      AfterKeepsMembership(Step(h, events[0]), events[1..], cid);
    }
  }

  /** One turn settles its own target and leaves the membership of the other targets alone. */
  lemma TurnSettles(h: Hub, cid: nat, t: nat, sockets: nat -> Socket, meanwhile: nat -> seq<Event>)
    requires WellIndexed(h) && t in h.ever && forall e | e in meanwhile(cid) :: !Removes(e, t)
    ensures WellIndexed(Turn(h, cid, sockets, meanwhile)) && t in Turn(h, cid, sockets, meanwhile).ever
    ensures t in Turn(h, cid, sockets, meanwhile).reg.connections <==>
            t in h.reg.connections && (t == cid ==> !sockets(cid).Raises?)
  {
    var sent := Step(h, Sends(cid, sockets(cid)));
    StepKeepsIndexed(h, Sends(cid, sockets(cid)));
    AfterKeepsMembership(sent, meanwhile(cid), t);
  }

  lemma {:induction false} LoopKeepsMembership(
    h: Hub, targets: seq<nat>, sockets: nat -> Socket, meanwhile: nat -> seq<Event>, t: nat)
    requires WellIndexed(h) && t in h.ever
    requires forall c: nat, e | e in meanwhile(c) :: !Removes(e, t)
    ensures WellIndexed(Loop(h, targets, sockets, meanwhile))
    ensures t in Loop(h, targets, sockets, meanwhile).reg.connections <==>
            t in h.reg.connections && !(t in targets && sockets(t).Raises?)
    decreases |targets|
  {
    if targets != [] {
      TurnSettles(h, targets[0], t, sockets, meanwhile);
      LoopKeepsMembership(Turn(h, targets[0], sockets, meanwhile), targets[1..], sockets, meanwhile, t);
    }
  }

  lemma {:induction false} SentCounts(
    h: Hub, targets: seq<nat>, sockets: nat -> Socket, meanwhile: nat -> seq<Event>)
    requires WellIndexed(h) && Distinct(targets) && Undisturbed(targets, meanwhile)
    requires forall t | t in targets :: t in h.reg.connections
    ensures Sent(h, targets, sockets, meanwhile) == |Answering(Elements(targets), sockets, Accepts)|
    decreases |targets|
  {
    if targets != [] {
      var rest, next := targets[1..], Turn(h, targets[0], sockets, meanwhile);
      assert forall i, j | 0 <= i < j < |rest| :: rest[i] == targets[i + 1] && rest[j] == targets[j + 1];
      forall t | t in rest ensures t in next.reg.connections {
        assert t in targets && t != targets[0];
        TurnSettles(h, targets[0], t, sockets, meanwhile);
      }
      TurnSettles(h, targets[0], targets[0], sockets, meanwhile);
      SentCounts(next, rest, sockets, meanwhile);
      ElementsFirst(targets, sockets);
    }
  }

  lemma ElementsFirst(targets: seq<nat>, sockets: nat -> Socket)
    requires targets != [] && Distinct(targets)
    ensures |Answering(Elements(targets), sockets, Accepts)| ==
            |Answering(Elements(targets[1..]), sockets, Accepts)| + if sockets(targets[0]).Accepts? then 1 else 0
  {
    var c, rest := targets[0], Answering(Elements(targets[1..]), sockets, Accepts);
    assert Elements(targets) == {c} + Elements(targets[1..]);
    assert c !in rest;
    assert Answering(Elements(targets), sockets, Accepts) == if sockets(c).Accepts? then rest + {c} else rest;
  }

  /** xs lists the set, in some order: what list() of a set is. */
  ghost predicate Lists(xs: seq<nat>, all: set<nat>) {
    Distinct(xs) && Elements(xs) == all
  }

  /**
   * A loop over the copied targets of a user, a role or everyone: whatever other tasks do between the
   * sends, short of removing a target, the accepting targets are counted, exactly the targets whose
   * sockets raise are gone afterwards, and the indices are exact.
   */
  lemma LoopReaches(
    h: Hub, target: Target, targets: seq<nat>, sockets: nat -> Socket, meanwhile: nat -> seq<Event>)
    requires WellIndexed(h) && Lists(targets, TargetsOf(h.reg, target)) && Undisturbed(targets, meanwhile)
    ensures
      var all, t := TargetsOf(h.reg, target), Loop(h, targets, sockets, meanwhile);
      && WellIndexed(t)
      && Sent(h, targets, sockets, meanwhile) == |Answering(all, sockets, Accepts)|
      && forall c | c in all :: c in t.reg.connections <==> !sockets(c).Raises?
  {
    var all := TargetsOf(h.reg, target);
    forall t | t in targets ensures t in h.reg.connections {
      assert t in Elements(targets);
      assert !target.ToAll? ==> t in Members(h.reg.users, target.id) || t in Members(h.reg.roles, target.id);
    }
    SentCounts(h, targets, sockets, meanwhile);
    LoopIsRun(h, targets, sockets, meanwhile);
    IndexedAfter(h, Trace(targets, sockets, meanwhile));
    forall c | c in all ensures c in Loop(h, targets, sockets, meanwhile).reg.connections <==> !sockets(c).Raises? {
      assert c in targets;
      LoopKeepsMembership(h, targets, sockets, meanwhile, c);
    }
  }

  /** Without other tasks the loop drops the raising targets everywhere and does nothing else. */
  lemma {:induction false} LoopAlone(
    h: Hub, targets: seq<nat>, sockets: nat -> Socket, meanwhile: nat -> seq<Event>)
    requires forall c: nat :: meanwhile(c) == []
    ensures Loop(h, targets, sockets, meanwhile) ==
            Hub(DropAll(h.reg, Answering(Elements(targets) * h.reg.connections, sockets, Raises)), h.ever)
    decreases |targets|
  {
    if targets == [] {
      assert Answering(Elements(targets) * h.reg.connections, sockets, Raises) == {};
      DropNone(h.reg);
    } else {
      var next := Turn(h, targets[0], sockets, meanwhile);
      LoopAlone(next, targets[1..], sockets, meanwhile);
      var first := if targets[0] in h.reg.connections && sockets(targets[0]).Raises? then {targets[0]} else {};
      var later := Answering(Elements(targets[1..]) * next.reg.connections, sockets, Raises);
      assert Elements(targets) == {targets[0]} + Elements(targets[1..]);
      assert Answering(Elements(targets) * h.reg.connections, sockets, Raises) == first + later;
      if first == {} {
        DropNone(h.reg);
        assert first + later == later;
      } else {
        DropMore(h.reg, first, later);
      }
    }
  }

  class ConnectionManager {
    var connections: set<nat>
    var rooms: Index
    var users: Index
    var roles: Index

    function Contents(): Registry
      reads this
    {
      Registry(connections, rooms, users, roles)
    }

    constructor ()
      ensures Contents() == EMPTY_REGISTRY
    {
      connections, rooms, users, roles := {}, map[], map[], map[];
    }

    /** The new id is a fresh uuid. */
    method Connect(cid: nat, room: Option<string>, user: Option<string>, role: Option<string>)
      modifies this
      ensures Contents() == Connected(old(Contents()), cid, Identity(room, user, role))
    {
      connections := connections + {cid};
      if Given(room) {
        rooms := rooms[room.value := Members(rooms, room.value) + {cid}];
      }
      if Given(user) {
        users := users[user.value := Members(users, user.value) + {cid}];
      }
      if Given(role) {
        roles := roles[role.value := Members(roles, role.value) + {cid}];
      }
    }

    /** The loop over the sets of one index. */
    static method DiscardFrom(m: Index, cid: nat) returns (next: Index)
      ensures next == DiscardAll(m, {cid})
    {
      next := m;
      var todo := m.Keys;
      while todo != {}
        invariant todo <= m.Keys == next.Keys
        invariant forall k | k in m :: next[k] == if k in todo then m[k] else m[k] - {cid}
        decreases |todo|
      {
        var k :| k in todo;
        next := next[k := next[k] - {cid}];
        todo := todo - {k};
      }
    }

    method Disconnect(cid: nat, user: Option<string>, role: Option<string>)
      modifies this
      ensures Contents() == Disconnected(old(Contents()), cid, user, role)
    {
      connections := connections - {cid};
      rooms := DiscardFrom(rooms, cid);
      if Given(user) {
        users := users[user.value := Members(users, user.value) - {cid}];
      } else {
        users := DiscardFrom(users, cid);
      }
      if Given(role) {
        roles := roles[role.value := Members(roles, role.value) - {cid}];
      } else {
        roles := DiscardFrom(roles, cid);
      }
    }

    /** send_json: a socket that raises is disconnected by a full scan. */
    method SendJson(cid: nat, socket: Socket) returns (sent: bool)
      modifies this
      ensures sent <==> Verdict(old(Contents()), cid, socket)
      ensures sent <==> cid in old(connections) && socket.Accepts?
      ensures Contents() ==
              if cid in old(connections) && socket.Raises? then DropAll(old(Contents()), {cid}) else old(Contents())
    {
      if cid !in connections || socket.Closed? {
        return false;
      }
      if socket.Accepts? {
        return true;
      }
      Disconnect(cid, None, None);
      return false;
    }

    /** One call on the manager; the endpoints remember who connected, in ever. */
    method Handle(e: Event, ever: map<nat, Identity>) returns (now: map<nat, Identity>)
      modifies this
      ensures Hub(Contents(), now) == Step(Hub(old(Contents()), ever), e)
    {
      now := ever;
      match e {
        case Connects(cid, who) =>
          if cid !in ever {
            Connect(cid, who.room, who.user, who.role);
            now := ever[cid := who];
          }
        case Leaves(cid) =>
          if cid in ever {
            Disconnect(cid, ever[cid].user, ever[cid].role);
          }
        case Drops(cid) =>
          Disconnect(cid, None, None);
        case Sends(cid, socket) =>
          var sent := SendJson(cid, socket);
      }
    }

    /** Any sequence of calls ends in the hub of the same events, and keeps the indices exact. */
    method HandleAll(events: seq<Event>, ever: map<nat, Identity>) returns (now: map<nat, Identity>)
      modifies this
      ensures Hub(Contents(), now) == After(Hub(old(Contents()), ever), events)
      ensures WellIndexed(Hub(old(Contents()), ever)) ==> WellIndexed(Hub(Contents(), now))
    {
      now := ever;
      for i := 0 to |events|
        invariant After(Hub(old(Contents()), ever), events) == After(Hub(Contents(), now), events[i..])
        invariant WellIndexed(Hub(old(Contents()), ever)) ==> WellIndexed(Hub(Contents(), now))
      {
        assert events[i..][0] == events[i] && events[i..][1..] == events[i + 1..];
        if WellIndexed(Hub(old(Contents()), ever)) {
          StepKeepsIndexed(Hub(Contents(), now), events[i]);
        }
        now := Handle(events[i], now);
      }
      assert events[|events|..] == [];
    }

    /** The send loop over a copied list of targets; other tasks call the manager at each await. */
    method SendTo(
      targets: seq<nat>, sockets: nat -> Socket, meanwhile: nat -> seq<Event>, ever: map<nat, Identity>)
      returns (sent: nat, now: map<nat, Identity>)
      modifies this
      ensures sent == Sent(Hub(old(Contents()), ever), targets, sockets, meanwhile)
      ensures Hub(Contents(), now) == Loop(Hub(old(Contents()), ever), targets, sockets, meanwhile)
    {
      sent, now := 0, ever;
      ghost var start := Hub(Contents(), ever);
      for i := 0 to |targets|
        invariant Sent(start, targets, sockets, meanwhile) ==
                  sent + Sent(Hub(Contents(), now), targets[i..], sockets, meanwhile)
        invariant Loop(start, targets, sockets, meanwhile) ==
                  Loop(Hub(Contents(), now), targets[i..], sockets, meanwhile)
      {
        var cid := targets[i];
        assert targets[i..][0] == cid && targets[i..][1..] == targets[i + 1..];
        var ok := SendJson(cid, sockets(cid));
        if ok {
          sent := sent + 1;
        }
        now := HandleAll(meanwhile(cid), now);
      }
      assert targets[|targets|..] == [];
    }

    /** list() of a set, in whatever order it comes. */
    static method ListOf(all: set<nat>) returns (xs: seq<nat>)
      ensures Lists(xs, all)
    {
      xs := [];
      var todo := all;
      while todo != {}
        invariant Distinct(xs) && Elements(xs) + todo == all && Elements(xs) !! todo
        decreases |todo|
      {
        var c :| c in todo;
        assert c !in xs;
        xs := xs + [c];
        todo := todo - {c};
      }
    }

    /** The result of a loop over a set, in some order of its members. */
    ghost predicate SentOver(
      h: Hub, all: set<nat>, sockets: nat -> Socket, meanwhile: nat -> seq<Event>, sent: nat, ever: map<nat, Identity>)
      reads this
    {
      exists targets ::
        && Lists(targets, all)
        && sent == Sent(h, targets, sockets, meanwhile)
        && Hub(Contents(), ever) == Loop(h, targets, sockets, meanwhile)
    }

    method SendToUser(
      user: string, sockets: nat -> Socket, meanwhile: nat -> seq<Event>, ever: map<nat, Identity>)
      returns (sent: nat, now: map<nat, Identity>)
      modifies this
      ensures SentOver(
                Hub(old(Contents()), ever), TargetsOf(old(Contents()), ToUser(user)), sockets, meanwhile, sent, now)
    {
      var targets := ListOf(Members(users, user));
      sent, now := SendTo(targets, sockets, meanwhile, ever);
    }

    method SendToRole(
      role: string, sockets: nat -> Socket, meanwhile: nat -> seq<Event>, ever: map<nat, Identity>)
      returns (sent: nat, now: map<nat, Identity>)
      modifies this
      ensures SentOver(
                Hub(old(Contents()), ever), TargetsOf(old(Contents()), ToRole(role)), sockets, meanwhile, sent, now)
    {
      var targets := ListOf(Members(roles, role));
      sent, now := SendTo(targets, sockets, meanwhile, ever);
    }

    method BroadcastToAll(sockets: nat -> Socket, meanwhile: nat -> seq<Event>, ever: map<nat, Identity>)
      returns (sent: nat, now: map<nat, Identity>)
      modifies this
      ensures SentOver(
                Hub(old(Contents()), ever), TargetsOf(old(Contents()), ToAll), sockets, meanwhile, sent, now)
    {
      var targets := ListOf(connections);
      sent, now := SendTo(targets, sockets, meanwhile, ever);
    }
  }

  lemma DropNone(g: Registry)
    ensures DropAll(g, {}) == g
  {
    DiscardNone(g.rooms);
    DiscardNone(g.users);
    DiscardNone(g.roles);
  }

  lemma DiscardNone(m: Index)
    ensures DiscardAll(m, {}) == m
  {
    forall k | k in m ensures m[k] - {} == m[k] {
    }
  }

  lemma DropMore(g: Registry, gone: set<nat>, more: set<nat>)
    ensures DropAll(DropAll(g, gone), more) == DropAll(g, gone + more)
  {
    DiscardMore(g.rooms, gone, more);
    DiscardMore(g.users, gone, more);
    DiscardMore(g.roles, gone, more);
  }

  lemma DiscardMore(m: Index, gone: set<nat>, more: set<nat>)
    ensures DiscardAll(DiscardAll(m, gone), more) == DiscardAll(m, gone + more)
  {
    forall k | k in m ensures m[k] - gone - more == m[k] - (gone + more) {
    }
  }
}
