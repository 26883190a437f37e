/**
 * The socket event handlers of `backend/server.js`: `join`, `sendMessage`,
 * `requestUpdate` and `disconnect`, each run to completion by Node's event
 * loop. A handler is a transition of the presence registry plus at most one
 * outbound event; `io.to(sid).emit(name, payload)` is modelled as appending
 * `(sid, event)` to an outbox, and `new Date()` as a clock reading carried
 * by the inbound event.
 */
module Relay {
  import opened Wrappers
  import opened Presence
  import opened Assoc

  /** A reading of the server clock. */
  type Timestamp = int

  /** Payload of an inbound `sendMessage`: every field is supplied by the client. */
  datatype MessagePayload = MessagePayload(receiverId: UserId, message: string, senderId: UserId, chatId: string)

  /** Payload of an inbound `requestUpdate`. */
  datatype UpdatePayload = UpdatePayload(receiverId: UserId, status: string, requestId: string)

  /** The events a socket can deliver to the server; `now` is what `new Date()` reads. */
  datatype Event =
    | Join(userId: UserId)
    | SendMessage(data: MessagePayload, now: Timestamp)
    | RequestUpdate(update: UpdatePayload)
    | Disconnect

  /** The events the server emits. */
  datatype Outbound =
    | ReceiveMessage(senderId: UserId, message: string, chatId: string, timestamp: Timestamp)
    | RequestStatusChanged(requestId: string, status: string)

  /** `io.to(socketId).emit(...)`. */
  type Emission = (SocketId, Outbound)

  /** One event arriving on the socket `conn`. */
  datatype Delivery = Delivery(conn: SocketId, event: Event)

  /** The registry entries and everything emitted so far. */
  datatype RelayState = RelayState(entries: seq<Entry>, outbox: seq<Emission>)

  /**
   * `const receiverSocketId = getSocketId(receiverId); if (receiverSocketId)`:
   * the target socket, present only when the lookup gives a truthy
   * (non-empty) socket id; then it is the socket registered for the receiver.
   */
  function ReceiverSocket(es: seq<Entry>, receiverId: UserId): (r: Option<SocketId>)
    ensures r.None? <==> Lookup(es, receiverId).None? || Lookup(es, receiverId) == Some("")
    ensures r.Some? ==> r == Lookup(es, receiverId) && r.value != ""
    ensures r.Some? ==> (receiverId, r.value) in es
  {
    match Lookup(es, receiverId)
    case Some(sid) => if sid != "" then Some(sid) else None
    case None => None
  }

  /**
   * One handler run: the new registry entries and the zero or one event it
   * emits. `join` and `disconnect` emit nothing, `join` registers the
   * connection for the given id, the two forwarders leave the registry
   * alone, and whatever is emitted goes to a truthy socket id of the
   * registry.
   */
  function Handle(es: seq<Entry>, conn: SocketId, ev: Event): (r: (seq<Entry>, Option<Emission>))
    ensures ev.Join? || ev.Disconnect? ==> r.1.None?
    ensures ev.Join? ==> Lookup(r.0, ev.userId) == Some(conn)
    ensures ev.SendMessage? || ev.RequestUpdate? ==> r.0 == es
    ensures r.1.Some? ==> r.1.value.0 != "" && exists i :: 0 <= i < |es| && es[i].1 == r.1.value.0
  {
    match ev
    case Join(userId) =>
      PutLookup(es, userId, conn, userId);
      (Put(es, userId, conn), None)
    case SendMessage(d, now) =>
      (es, match ReceiverSocket(es, d.receiverId)
           case Some(sid) => Some((sid, ReceiveMessage(d.senderId, d.message, d.chatId, now)))
           case None => None)
    case RequestUpdate(d) =>
      (es, match ReceiverSocket(es, d.receiverId)
           case Some(sid) => Some((sid, RequestStatusChanged(d.requestId, d.status)))
           case None => None)
    case Disconnect => (RemoveBySocket(es, conn).0, None)
  }

  function Emitted(e: Option<Emission>): seq<Emission>
  {
    match e
    case Some(x) => [x]
    case None => []
  }

  /**
   * The relay state after handling one delivery: the outbox only grows, by
   * at most one event, and never for `join` or `disconnect`.
   */
  function Apply(st: RelayState, d: Delivery): (r: RelayState)
    ensures st.outbox <= r.outbox && |r.outbox| <= |st.outbox| + 1
    ensures d.event.Join? || d.event.Disconnect? ==> r.outbox == st.outbox
    ensures |r.outbox| > |st.outbox| ==> r.outbox[|st.outbox|].0 != ""
  {
    var (es, out) := Handle(st.entries, d.conn, d.event);
    RelayState(es, st.outbox + Emitted(out))
  }

  /**
   * The relay state after handling a sequence of deliveries in order: what
   * was emitted stays emitted, each delivery adds at most one event, and
   * every added event targets a truthy socket id.
   */
  function Run(st: RelayState, trace: seq<Delivery>): (r: RelayState)
    ensures st.outbox <= r.outbox && |r.outbox| <= |st.outbox| + |trace|
    ensures forall i :: |st.outbox| <= i < |r.outbox| ==> r.outbox[i].0 != ""
    decreases |trace|
  {
    if trace == [] then st else Run(Apply(st, trace[0]), trace[1..])
  }

  /** `join` registers the joining socket for the given id, whatever that id is, and emits nothing. */
  lemma JoinRegisters(es: seq<Entry>, conn: SocketId, userId: UserId, v: UserId)
    ensures Handle(es, conn, Join(userId)).1 == None
    ensures Lookup(Handle(es, conn, Join(userId)).0, userId) == Some(conn)
    ensures v != userId ==> Lookup(Handle(es, conn, Join(userId)).0, v) == Lookup(es, v)
  {
    PutLookup(es, userId, conn, userId);
    PutLookup(es, userId, conn, v);
  }

  /**
   * `sendMessage` to a registered receiver emits exactly one `receiveMessage`
   * to the receiver's socket, carrying the payload's sender, text and chat id
   * unchanged and the server's clock reading.
   */
  lemma SendMessageForwards(es: seq<Entry>, conn: SocketId, d: MessagePayload, now: Timestamp, sid: SocketId)
    requires Lookup(es, d.receiverId) == Some(sid) && sid != ""
    ensures Handle(es, conn, SendMessage(d, now))
         == (es, Some((sid, ReceiveMessage(d.senderId, d.message, d.chatId, now))))
  {
  }

  /** `requestUpdate` to a registered receiver emits exactly one `requestStatusChanged` to its socket. */
  lemma RequestUpdateForwards(es: seq<Entry>, conn: SocketId, d: UpdatePayload, sid: SocketId)
    requires Lookup(es, d.receiverId) == Some(sid) && sid != ""
    ensures Handle(es, conn, RequestUpdate(d)) == (es, Some((sid, RequestStatusChanged(d.requestId, d.status))))
  {
  }

  /** A receiver with no entry gets nothing: the event is dropped without an error. */
  lemma DropIfAbsent(es: seq<Entry>, conn: SocketId, ev: Event)
    requires ev.SendMessage? || ev.RequestUpdate?
    requires Lookup(es, if ev.SendMessage? then ev.data.receiverId else ev.update.receiverId).None?
    ensures Handle(es, conn, ev) == (es, None)
  {
  }

  /**
   * `sendMessage` and `requestUpdate` never change the registry, and what
   * they emit does not depend on the socket the event came in on: the
   * forwarded `senderId` is the client's claim, not the identity that socket
   * joined with, and the target is chosen by `receiverId` alone.
   */
  lemma ForwardingIgnoresSender(es: seq<Entry>, c1: SocketId, c2: SocketId, d: MessagePayload, d': MessagePayload, now: Timestamp)
    requires d'.receiverId == d.receiverId
    ensures Handle(es, c1, SendMessage(d, now)).0 == es
    ensures Handle(es, c1, SendMessage(d, now)) == Handle(es, c2, SendMessage(d, now))
    ensures Handle(es, c1, SendMessage(d, now)).1.Some?
            ==> Handle(es, c1, SendMessage(d, now)).1.value.1.senderId == d.senderId
    ensures Handle(es, c1, SendMessage(d', now)).1.Some? <==> Handle(es, c1, SendMessage(d, now)).1.Some?
    ensures Handle(es, c1, SendMessage(d', now)).1.Some?
            ==> Handle(es, c1, SendMessage(d', now)).1.value.0 == Handle(es, c1, SendMessage(d, now)).1.value.0
  {
  }

  /** Every handler keeps one entry per user. */
  lemma HandleKeepsDistinct(es: seq<Entry>, conn: SocketId, ev: Event)
    requires DistinctUsers(es)
    ensures DistinctUsers(Handle(es, conn, ev).0)
  {
    match ev
    case Join(u) => PutDistinct(es, u, conn);
    case Disconnect => RemoveDistinct(es, conn);
    case _ =>
  }

  /**
   * Stale-disconnect non-interference: the late `disconnect` of an old
   * socket never evicts the socket a user is currently registered on.
   */
  lemma StaleDisconnectKeepsCurrent(es: seq<Entry>, old_conn: SocketId, u: UserId, current: SocketId)
    requires DistinctUsers(es)
    requires Lookup(es, u) == Some(current) && old_conn != current
    ensures Lookup(Handle(es, old_conn, Disconnect).0, u) == Some(current)
  {
    RemoveLookup(es, old_conn, u);
    var k := IndexOfSocket(es, old_conn);
    if k < |es| && es[k].0 == u {
      IndexOfKeyIs(es, u, k);
    }
  }

  /** A `disconnect` on `conn` takes a user offline only if `conn` is that user's current socket. */
  lemma OfflineOnlyIfCurrent(es: seq<Entry>, conn: SocketId, u: UserId)
    requires DistinctUsers(es)
    requires Lookup(es, u).Some? && Lookup(Handle(es, conn, Disconnect).0, u).None?
    ensures Lookup(es, u) == Some(conn)
  {
    var current := Lookup(es, u).value;
    if current != conn {
      StaleDisconnectKeepsCurrent(es, conn, u, current);
    }
  }

  /** Once `conn` is a user's current socket and no earlier entry holds it, its `disconnect` takes the user offline. */
  lemma DisconnectOfCurrentGoesOffline(es: seq<Entry>, conn: SocketId, u: UserId)
    requires DistinctUsers(es)
    requires Lookup(es, u) == Some(conn)
    requires forall i :: 0 <= i < IndexOfKey(es, u) ==> es[i].1 != conn
    ensures Lookup(Handle(es, conn, Disconnect).0, u).None?
    ensures RemoveBySocket(es, conn).1 == Some(u)
  {
    var k := IndexOfKey(es, u);
    RemoveFirstMatch(es, conn, k);
    RemoveLookup(es, conn, u);
  }

  /** For any sequence of `join`s by one user, lookup gives the socket of the last one. */
  lemma {:induction false} RepeatedJoinLastWins(st: RelayState, u: UserId, trace: seq<Delivery>)
    requires trace != []
    requires forall i :: 0 <= i < |trace| ==> trace[i].event == Join(u)
    ensures Lookup(Run(st, trace).entries, u) == Some(trace[|trace| - 1].conn)
    ensures Run(st, trace).outbox == st.outbox
    decreases |trace|
  {
    var next := Apply(st, trace[0]);
    if |trace| == 1 {
      JoinRegisters(st.entries, trace[0].conn, u, u);
      assert Run(next, trace[1..]) == next;
    } else {
      RepeatedJoinLastWins(next, u, trace[1..]);
    }
  }

  /** Running a non-empty trace applies its first delivery, then runs the rest. */
  lemma RunFirst(st: RelayState, trace: seq<Delivery>)
    requires trace != []
    ensures Run(st, trace) == Run(Apply(st, trace[0]), trace[1..])
    ensures trace[1..] == [] ==> Run(st, trace) == Apply(st, trace[0])
  {
  }

  /** The first two deliveries of `RelayScenario`: both users join. */
  lemma {:induction false} ScenarioJoins(a: UserId, b: UserId, ha: SocketId, hb: SocketId)
    requires a != b
    ensures Apply(Apply(RelayState([], []), Delivery(ha, Join(a))), Delivery(hb, Join(b)))
         == RelayState([(a, ha), (b, hb)], [])
  {
    var s1 := Apply(RelayState([], []), Delivery(ha, Join(a)));
    assert s1.entries == [(a, ha)];
    assert IndexOfKey(s1.entries, b) == 1;
  }

  /** The third delivery of `RelayScenario`: `a`'s message is forwarded to `hb`. */
  lemma {:induction false} ScenarioSend(a: UserId, b: UserId, ha: SocketId, hb: SocketId, chat: string, t1: Timestamp)
    requires a != b && hb != ""
    ensures Apply(RelayState([(a, ha), (b, hb)], []), Delivery(ha, SendMessage(MessagePayload(b, "hi", a, chat), t1)))
         == RelayState([(a, ha), (b, hb)], [(hb, ReceiveMessage(a, "hi", chat, t1))])
  {
    assert IndexOfKey([(a, ha), (b, hb)], b) == 1;
  }

  /** The last two deliveries of `RelayScenario`: `b` leaves, and the second message is dropped. */
  lemma {:induction false} ScenarioLeave(a: UserId, b: UserId, ha: SocketId, hb: SocketId, chat: string, t2: Timestamp, out: seq<Emission>)
    requires a != b && ha != hb
    ensures var s4 := Apply(RelayState([(a, ha), (b, hb)], out), Delivery(hb, Disconnect));
            Apply(s4, Delivery(ha, SendMessage(MessagePayload(b, "again", a, chat), t2)))
            == RelayState([(a, ha)], out)
  {
    assert IndexOfSocket([(a, ha), (b, hb)], hb) == 1;
    assert IndexOfKey([(a, ha)], b) == 1;
  }

  /**
   * End to end: users `a` and `b` join on sockets `ha` and `hb`; `a` sends
   * "hi" to `b`, which `hb` receives exactly once; `b` disconnects; a second
   * message to `b` goes nowhere, and `b` is no longer registered.
   */
  lemma RelayScenario(a: UserId, b: UserId, ha: SocketId, hb: SocketId, chat: string, t1: Timestamp, t2: Timestamp)
    requires a != b && ha != hb && ha != "" && hb != ""
    ensures var trace := [
              Delivery(ha, Join(a)),
              Delivery(hb, Join(b)),
              Delivery(ha, SendMessage(MessagePayload(b, "hi", a, chat), t1)),
              Delivery(hb, Disconnect),
              Delivery(ha, SendMessage(MessagePayload(b, "again", a, chat), t2))];
            var final := Run(RelayState([], []), trace);
            && final.outbox == [(hb, ReceiveMessage(a, "hi", chat, t1))]
            && Lookup(final.entries, b).None?
            && Lookup(final.entries, a) == Some(ha)
  {
    var d1, d2 := Delivery(ha, Join(a)), Delivery(hb, Join(b));
    var d3 := Delivery(ha, SendMessage(MessagePayload(b, "hi", a, chat), t1));
    var d4 := Delivery(hb, Disconnect);
    var d5 := Delivery(ha, SendMessage(MessagePayload(b, "again", a, chat), t2));
    var s0 := RelayState([], []);
    var s1 := Apply(s0, d1);
    var s2 := Apply(s1, d2);
    var s3 := Apply(s2, d3);
    var s4 := Apply(s3, d4);
    var s5 := Apply(s4, d5);
    ScenarioJoins(a, b, ha, hb);
    ScenarioSend(a, b, ha, hb, chat, t1);
    ScenarioLeave(a, b, ha, hb, chat, t2, s3.outbox);
    assert IndexOfKey(s5.entries, a) == 0;
    assert IndexOfKey(s5.entries, b) == 1;
    RunFirst(s0, [d1, d2, d3, d4, d5]);
    RunFirst(s1, [d2, d3, d4, d5]);
    RunFirst(s2, [d3, d4, d5]);
    RunFirst(s3, [d4, d5]);
    RunFirst(s4, [d5]);
  }

  /** The dispatcher: the `io.on('connection', ...)` handlers over the shared registry. */
  class Dispatcher {
    const registry: ActiveUsers
    var outbox: seq<Emission>

    ghost predicate Valid()
      reads this, registry
    {
      registry.Valid()
    }

    ghost function State(): RelayState
      reads this, registry
    {
      RelayState(registry.entries, outbox)
    }

    constructor (registry: ActiveUsers)
      requires registry.Valid()
      ensures Valid() && this.registry == registry && outbox == []
    {
      this.registry := registry;
      outbox := [];
    }

    /** `socket.on('join', userId => addActiveUser(userId, socket.id))`. */
    method OnJoin(conn: SocketId, userId: UserId)
      requires Valid()
      modifies registry
      ensures Valid()
      ensures State() == Apply(old(State()), Delivery(conn, Join(userId)))
      ensures registry.entries == Put(old(registry.entries), userId, conn)
      ensures outbox == old(outbox)
    {
      registry.AddActiveUser(userId, conn);
    }

    /** `socket.on('sendMessage', ...)`: look the receiver up and forward the message, or drop it. */
    method OnSendMessage(conn: SocketId, data: MessagePayload, now: Timestamp)
      requires Valid()
      modifies this
      ensures Valid()
      ensures State() == Apply(old(State()), Delivery(conn, SendMessage(data, now)))
      ensures registry.entries == old(registry.entries)
      ensures outbox == old(outbox) + match ReceiverSocket(registry.entries, data.receiverId)
                                      case Some(sid) => [(sid, ReceiveMessage(data.senderId, data.message, data.chatId, now))]
                                      case None => []
    {
      var receiverSocketId := registry.GetSocketId(data.receiverId);
      if receiverSocketId.Some? && receiverSocketId.value != "" {
        outbox := outbox + [(receiverSocketId.value, ReceiveMessage(data.senderId, data.message, data.chatId, now))];
      }
    }

    /** `socket.on('requestUpdate', ...)`: forward the status change to an online receiver, or drop it. */
    method OnRequestUpdate(conn: SocketId, data: UpdatePayload)
      requires Valid()
      modifies this
      ensures Valid()
      ensures State() == Apply(old(State()), Delivery(conn, RequestUpdate(data)))
      ensures registry.entries == old(registry.entries)
      ensures outbox == old(outbox) + match ReceiverSocket(registry.entries, data.receiverId)
                                      case Some(sid) => [(sid, RequestStatusChanged(data.requestId, data.status))]
                                      case None => []
    {
      var receiverSocketId := registry.GetSocketId(data.receiverId);
      if receiverSocketId.Some? && receiverSocketId.value != "" {
        outbox := outbox + [(receiverSocketId.value, RequestStatusChanged(data.requestId, data.status))];
      }
    }

    /** `socket.on('disconnect', ...)`: remove the entry of this socket, returning its user if there was one. */
    method OnDisconnect(conn: SocketId) returns (userId: Option<UserId>)
      requires Valid()
      modifies registry
      ensures Valid()
      ensures State() == Apply(old(State()), Delivery(conn, Disconnect))
      ensures (registry.entries, userId) == RemoveBySocket(old(registry.entries), conn)
      ensures outbox == old(outbox)
    {
      userId := registry.RemoveActiveUserBySocketId(conn);
    }
  }
}
