/**
 The real-time collaboration engine: the WebSocket handshake and the five event
 handlers (join, send-update, cursor-update, leave, disconnect) over the process-wide
 `documents` and `documentRooms` maps. Each handler runs to completion before the
 next starts, so each is a pure transition from a server state to the next state and
 the list of messages it emits.

 Socket.IO's own rooms are kept apart from `documentRooms`: a session's `rooms` is
 `socket.rooms`, which `socket.join`/`socket.leave` change and `socket.to(room)`
 broadcasts to. Every handler changes them before it emits, so the recipients of a
 broadcast are read from the state after the handler.
 */
module SocketHandler {
  import opened Wrappers
  import opened Ordered
  import opened Crdt
  import opened Identity
  import opened Documents

  type SocketId = string

  /** A connected socket: the claims fixed at the handshake and the rooms it has joined. */
  datatype Session = Session(data: Claims, rooms: set<DocId>)

  datatype Server = Server(
    sessions: map<SocketId, Session>,
    documents: map<DocId, YDoc>,
    documentRooms: OrderedMap<DocId, seq<SocketId>>,
    store: Store)

  /** A field of a client's cursor payload. */
  datatype Value = Str(s: string) | Num(n: int) | Bool(b: bool) | Null

  /** A client's cursor payload, as a plain object. */
  type Cursor = map<string, Value>

  /** The messages the server sends. */
  datatype Msg =
    | ConnectError(message: string)
    | Error(message: string)
    | SyncUpdate(state: Update)
    // A user's `{ id, email }` is the session's claims, `id` being the `userId` claim.
    | UsersUpdate(users: seq<Claims>)
    | UserJoined(user: Claims)
    | ReceiveUpdate(update: Update)
    | CursorUpdate(cursor: Cursor)
    | UserLeft(id: UserId)

  /** `socket.emit` reaches the socket itself; `socket.to(room).emit` the room but the sender. */
  datatype Target = ToSocket(socket: SocketId) | ToRoom(room: DocId, except: SocketId)

  datatype Emission = Emission(target: Target, msg: Msg)

  datatype Outcome = Outcome(server: Server, out: seq<Emission>)

  /** The events the server reacts to, each naming the socket it comes from. */
  datatype Event =
    | Connect(socket: SocketId, token: Option<string>)
    | Join(socket: SocketId, doc: DocId)
    | Update(socket: SocketId, doc: DocId, update: Update, now: int)
    | Cursor(socket: SocketId, doc: DocId, cursor: Cursor)
    | Leave(socket: SocketId, doc: DocId)
    | Disconnect(socket: SocketId)

  const AuthenticationError := "Authentication error"
  const AccessDenied := "Access denied"
  const UserIdField := "userId"

  /** A freshly started process: nobody connected, both maps empty. */
  function Init(store: Store): Server {
    Server(map[], map[], EmptyMap(), store)
  }

  /** The sockets a room table records for a document. */
  function RoomMembers(rooms: OrderedMap<DocId, seq<SocketId>>, d: DocId): set<SocketId> {
    if d in rooms.entries then Elems(rooms.entries[d]) else {}
  }

  /** The sockets `documentRooms` records for a document. */
  function Members(st: Server, d: DocId): set<SocketId> {
    RoomMembers(st.documentRooms, d)
  }

  /** The sockets a message sent to `t` reaches. */
  function Recipients(st: Server, t: Target): (r: set<SocketId>)
    ensures t.ToSocket? ==> r == {t.socket}
    ensures t.ToRoom? ==> t.except !in r && r <= st.sessions.Keys
    ensures t.ToRoom? ==> forall s :: s in r ==> t.room in st.sessions[s].rooms
    ensures t.ToRoom? ==> forall s :: s in st.sessions && s != t.except && t.room in st.sessions[s].rooms ==> s in r
  {
    match t
    case ToSocket(s) => {s}
    case ToRoom(d, ex) => set s | s in st.sessions && d in st.sessions[s].rooms && s != ex
  }

  /** The WebSocket handshake: the claims of a present, verifiable token. */
  function Handshake(token: Option<string>, verify: Verifier): (r: Result<Claims, string>)
    ensures r.Ok? <==> Truthy(token) && verify(token.value).Some?
    ensures r.Ok? ==> r.value == verify(token.value).value
    ensures r.Err? ==> r.error == AuthenticationError
  {
    if !Truthy(token) then Err(AuthenticationError)
    else match verify(token.value)
      case None => Err(AuthenticationError)
      case Some(c) => Ok(c)
  }

  /**
   A new connection. A refused one gets a connection error and never becomes a session;
   an accepted one becomes a session in no room whose identity is the token's claims.
   */
  function OnConnect(st: Server, sid: SocketId, token: Option<string>, verify: Verifier)
    : (o: Outcome)
    requires sid !in st.sessions
    ensures o.server.documents == st.documents && o.server.documentRooms == st.documentRooms
    ensures o.server.store == st.store
    ensures Handshake(token, verify).Err? ==>
              o.server == st && o.out == [Emission(ToSocket(sid), ConnectError(AuthenticationError))]
    ensures Handshake(token, verify).Ok? ==>
              && o.out == []
              && o.server.sessions.Keys == st.sessions.Keys + {sid}
              && o.server.sessions[sid].data == Handshake(token, verify).value
              && o.server.sessions[sid].rooms == {}
              && forall s :: s in st.sessions ==> o.server.sessions[s] == st.sessions[s]
  {
    match Handshake(token, verify)
    case Err(m) => Outcome(st, [Emission(ToSocket(sid), ConnectError(m))])
    case Ok(c) => Outcome(st.(sessions := st.sessions[sid := Session(c, {})]), [])
  }

  /** `checkDocumentAccess`: the document exists and the user may read it. */
  function CheckDocumentAccess(store: Store, d: DocId, u: UserId): (granted: bool)
    ensures granted ==> d in store
    ensures granted <==> d in store && (IsOwner(store[d], u) || IsCollaborator(store[d], u)
                                        || store[d].isPublic)
  {
    d in store && Readable(store[d], u)
  }

  /**
   A fresh `Y.Doc` hydrated from the stored checkpoint, applied only when there is one.
   */
  function Hydrate(store: Store, d: DocId): (doc: YDoc)
    ensures d in store && store[d].yjsState.Some? ==>
              EncodeStateAsUpdate(doc) == store[d].yjsState.value
    ensures !(d in store && store[d].yjsState.Some?) ==> doc == NewDoc()
  {
    if d in store && store[d].yjsState.Some? then ApplyUpdate(NewDoc(), store[d].yjsState.value)
    else NewDoc()
  }

  /**
   The presence list: one entry per recorded socket that is still connected, in the
   set's order.
   */
  function Presence(sessions: map<SocketId, Session>, members: seq<SocketId>)
    : (users: seq<Claims>)
    ensures |users| <= |members|
    ensures (forall s :: s in members ==> s in sessions) ==>
              |users| == |members|
              && forall i :: 0 <= i < |users| ==> users[i] == sessions[members[i]].data
    ensures forall u :: u in users ==>
              exists s :: s in members && s in sessions && u == sessions[s].data
  {
    if |members| == 0 then []
    else
      var rest := Presence(sessions, members[1..]);
      assert forall s :: s in members[1..] ==> s in members;
      if members[0] in sessions then [sessions[members[0]].data] + rest else rest
  }

  /** `documentRooms.get(d).add(sid)`, creating the set first when there is none. */
  function AddMember(rooms: OrderedMap<DocId, seq<SocketId>>, d: DocId, sid: SocketId)
    : (r: OrderedMap<DocId, seq<SocketId>>)
    ensures r.entries.Keys == rooms.entries.Keys + {d}
    ensures r.entries[d] == Add(if d in rooms.entries then rooms.entries[d] else [], sid)
    ensures RoomMembers(r, d) == RoomMembers(rooms, d) + {sid}
    ensures forall k :: k != d ==> RoomMembers(r, k) == RoomMembers(rooms, k)
    ensures forall k :: k in rooms.entries && k != d ==> r.entries[k] == rooms.entries[k]
    ensures Valid(rooms) ==> Valid(r)
    ensures Valid(rooms) && d in rooms.entries && sid in rooms.entries[d] ==> r == rooms
  {
    var room := if d in rooms.entries then rooms.entries[d] else [];
    assert d in rooms.entries ==> rooms.entries[d := room] == rooms.entries;
    Put(rooms, d, Add(room, sid))
  }

  /**
   `documents.get(d)`, or a new document hydrated from the table and stored under `d`
   when there is none: an existing document is never replaced.
   */
  function EnsureDocument(documents: map<DocId, YDoc>, store: Store, d: DocId)
    : (r: map<DocId, YDoc>)
    ensures r.Keys == documents.Keys + {d}
    ensures forall k :: k in documents ==> r[k] == documents[k]
    ensures d !in documents ==> r[d] == Hydrate(store, d)
  {
    if d in documents then documents else documents[d := Hydrate(store, d)]
  }

  /** `socket.join(d)`: the socket enters the Socket.IO room; no other session changes. */
  function JoinSocketRoom(sessions: map<SocketId, Session>, sid: SocketId, d: DocId)
    : (r: map<SocketId, Session>)
    requires sid in sessions
    ensures r.Keys == sessions.Keys
    ensures r[sid].data == sessions[sid].data && r[sid].rooms == sessions[sid].rooms + {d}
    ensures forall s :: s in sessions && s != sid ==> r[s] == sessions[s]
  {
    sessions[sid := sessions[sid].(rooms := sessions[sid].rooms + {d})]
  }

  /**
   The state after an admitted join: the socket is in the Socket.IO room and in the
   room's set, and the room's document exists. An existing document is kept as it is;
   a missing one is created and hydrated from the stored checkpoint.
   */
  function Admit(st: Server, sid: SocketId, d: DocId): (next: Server)
    requires sid in st.sessions
    ensures next.store == st.store
    ensures next.sessions.Keys == st.sessions.Keys
    ensures next.sessions[sid].data == st.sessions[sid].data
    ensures next.sessions[sid].rooms == st.sessions[sid].rooms + {d}
    ensures forall s :: s in st.sessions && s != sid ==> next.sessions[s] == st.sessions[s]
    ensures next.documents.Keys == st.documents.Keys + {d}
    ensures forall k :: k in st.documents ==> next.documents[k] == st.documents[k]
    ensures d !in st.documents ==> next.documents[d] == Hydrate(st.store, d)
    ensures Members(next, d) == Members(st, d) + {sid}
    ensures forall k :: k != d ==> Members(next, k) == Members(st, k)
    ensures next.documentRooms.entries.Keys == st.documentRooms.entries.Keys + {d}
    ensures forall k :: k in st.documentRooms.entries && k != d ==>
              next.documentRooms.entries[k] == st.documentRooms.entries[k]
    ensures Valid(st.documentRooms) ==> Valid(next.documentRooms)
    ensures Valid(st.documentRooms) && sid in Members(st, d) ==>
              next.documentRooms == st.documentRooms
  {
    Server(JoinSocketRoom(st.sessions, sid, d),
           EnsureDocument(st.documents, st.store, d),
           AddMember(st.documentRooms, d, sid),
           st.store)
  }

  /**
   `join-document`. A refused socket gets one error and nothing changes; an admitted
   one gets the document's state and the presence list, and the others in the room
   learn that it joined.
   */
  function OnJoin(st: Server, sid: SocketId, d: DocId): (o: Outcome)
    requires sid in st.sessions
    ensures !CheckDocumentAccess(st.store, d, st.sessions[sid].data.userId) ==>
              o.server == st && o.out == [Emission(ToSocket(sid), Error(AccessDenied))]
    ensures CheckDocumentAccess(st.store, d, st.sessions[sid].data.userId) ==>
              && o.server == Admit(st, sid, d)
              && |o.out| == 3
              && o.out[0] == Emission(ToSocket(sid),
                                      SyncUpdate(EncodeStateAsUpdate(o.server.documents[d])))
              && o.out[1].target == ToSocket(sid) && o.out[1].msg.UsersUpdate?
              && |o.out[1].msg.users| <= |o.server.documentRooms.entries[d]|
              && o.out[2] == Emission(ToRoom(d, sid), UserJoined(st.sessions[sid].data))
  {
    var session := st.sessions[sid];
    if !CheckDocumentAccess(st.store, d, session.data.userId) then
      Outcome(st, [Emission(ToSocket(sid), Error(AccessDenied))])
    else
      var next := Admit(st, sid, d);
      Outcome(next, [
        Emission(ToSocket(sid), SyncUpdate(EncodeStateAsUpdate(next.documents[d]))),
        Emission(ToSocket(sid), UsersUpdate(Presence(next.sessions, next.documentRooms.entries[d]))),
        Emission(ToRoom(d, sid), UserJoined(session.data))
      ])
  }

  /**
   `saveDocument`: writes the encoded state and the time as the document's checkpoint.
   A document no longer in the table makes the write fail, which is logged and ignored.
   */
  function SaveDocument(store: Store, d: DocId, ydoc: YDoc, now: int): (r: Store)
    ensures r.Keys == store.Keys
    ensures forall k :: k in store && k != d ==> r[k] == store[k]
    ensures d in store ==>
              && r[d].yjsState == Some(EncodeStateAsUpdate(ydoc)) && r[d].updatedAt == now
              && r[d].(yjsState := store[d].yjsState, updatedAt := store[d].updatedAt) == store[d]
  {
    if d in store then store[d := store[d].(yjsState := Some(EncodeStateAsUpdate(ydoc)),
                                            updatedAt := now)]
    else store
  }

  /**
   `send-update`. Only the presence of the in-memory document is checked, not the
   sender's membership of the room.
   */
  function OnSendUpdate(st: Server, sid: SocketId, d: DocId, u: Update, now: int): (o: Outcome)
    ensures d !in st.documents ==> o.server == st && o.out == []
    ensures d in st.documents ==>
              && o.server.sessions == st.sessions
              && o.server.documentRooms == st.documentRooms
              && o.server.documents.Keys == st.documents.Keys
              && (forall k :: k in st.documents && k != d ==> o.server.documents[k] == st.documents[k])
              && EncodeStateAsUpdate(o.server.documents[d]) == EncodeStateAsUpdate(st.documents[d]) + u
              && o.out == [Emission(ToRoom(d, sid), ReceiveUpdate(u))]
    ensures d in st.documents ==>
              && o.server.store.Keys == st.store.Keys
              && (forall k :: k in st.store && k != d ==> o.server.store[k] == st.store[k])
              && (d in st.store ==>
                    && o.server.store[d].yjsState == Some(EncodeStateAsUpdate(o.server.documents[d]))
                    && o.server.store[d].updatedAt == now
                    && CheckpointOnly(st.store[d], o.server.store[d]))
  {
    if d !in st.documents then Outcome(st, [])
    else
      var ydoc := ApplyUpdate(st.documents[d], u);
      Outcome(st.(documents := st.documents[d := ydoc],
                  store := SaveDocument(st.store, d, ydoc, now)),
              [Emission(ToRoom(d, sid), ReceiveUpdate(u))])
  }

  /**
   `cursor-update`: relays the payload with `userId` set to the sender's, and changes
   nothing.
   */
  function OnCursorUpdate(st: Server, sid: SocketId, d: DocId, cursor: Cursor): (o: Outcome)
    requires sid in st.sessions
    ensures o.server == st
    ensures |o.out| == 1 && o.out[0].target == ToRoom(d, sid) && o.out[0].msg.CursorUpdate?
    ensures var c := o.out[0].msg.cursor;
            && c.Keys == cursor.Keys + {UserIdField}
            && c[UserIdField] == Str(st.sessions[sid].data.userId)
            && forall k :: k in cursor && k != UserIdField ==> c[k] == cursor[k]
  {
    Outcome(st, [Emission(ToRoom(d, sid),
                          CursorUpdate(cursor[UserIdField := Str(st.sessions[sid].data.userId)]))])
  }

  /**
   `leave-document`: drops the socket from the room and the room's entry once it is
   empty. The departure is announced whether or not the socket was a member.
   */
  function OnLeave(st: Server, sid: SocketId, d: DocId): (o: Outcome)
    requires sid in st.sessions
    ensures o.server.documents == st.documents && o.server.store == st.store
    ensures o.server.sessions.Keys == st.sessions.Keys
    ensures o.server.sessions[sid] == st.sessions[sid].(rooms := st.sessions[sid].rooms - {d})
    ensures forall s :: s in st.sessions && s != sid ==> o.server.sessions[s] == st.sessions[s]
    ensures Members(o.server, d) == Members(st, d) - {sid}
    ensures d in st.documentRooms.entries && d in o.server.documentRooms.entries ==>
              o.server.documentRooms.entries[d] == Remove(st.documentRooms.entries[d], sid)
    ensures d in o.server.documentRooms.entries <==>
              d in st.documentRooms.entries && Members(st, d) - {sid} != {}
    ensures forall k :: k != d ==>
              (k in o.server.documentRooms.entries <==> k in st.documentRooms.entries)
              && (k in st.documentRooms.entries ==>
                    o.server.documentRooms.entries[k] == st.documentRooms.entries[k])
    ensures Valid(st.documentRooms) ==> Valid(o.server.documentRooms)
    ensures o.out == [Emission(ToRoom(d, sid), UserLeft(st.sessions[sid].data.userId))]
  {
    var session := st.sessions[sid];
    var sessions := st.sessions[sid := session.(rooms := session.rooms - {d})];
    var rooms :=
      if d in st.documentRooms.entries then
        var remaining := Remove(st.documentRooms.entries[d], sid);
        EmptyElems(remaining);
        if |remaining| == 0 then Delete(st.documentRooms, d) else Put(st.documentRooms, d, remaining)
      else st.documentRooms;
    Outcome(st.(sessions := sessions, documentRooms := rooms),
            [Emission(ToRoom(d, sid), UserLeft(session.data.userId))])
  }

  /** The rooms a list of emissions is broadcast to, in order. */
  function NoticedRooms(out: seq<Emission>): (rooms: seq<DocId>)
    ensures |rooms| <= |out|
  {
    if |out| == 0 then []
    else (if out[0].target.ToRoom? then [out[0].target.room] else []) + NoticedRooms(out[1..])
  }

  /**
   The `documentRooms.forEach` of `disconnect`, over the keys in `keys`: each set that
   holds the socket loses it and stays in the map, even when emptied, and a
   `user-left` notice goes to each room whose set held it.
   */
  function Sweep(keys: seq<DocId>, entries: map<DocId, seq<SocketId>>, sid: SocketId, uid: UserId)
    : (r: (map<DocId, seq<SocketId>>, seq<Emission>))
    ensures r.0.Keys == entries.Keys
    ensures forall k :: k in entries && k !in keys ==> r.0[k] == entries[k]
    ensures forall k :: k in entries && k in keys ==> Elems(r.0[k]) == Elems(entries[k]) - {sid}
    ensures forall k :: k in entries && NoDup(entries[k]) ==> NoDup(r.0[k])
    ensures forall i :: 0 <= i < |r.1| ==>
              r.1[i].target.ToRoom? && r.1[i].target.except == sid && r.1[i].msg == UserLeft(uid)
    decreases |keys|
  {
    if |keys| == 0 then (entries, [])
    else
      var d := keys[0];
      assert forall k :: k in keys <==> k == d || k in keys[1..];
      if d in entries && sid in entries[d] then
        var rest := Sweep(keys[1..], entries[d := Remove(entries[d], sid)], sid, uid);
        (rest.0, [Emission(ToRoom(d, sid), UserLeft(uid))] + rest.1)
      else
        Sweep(keys[1..], entries, sid, uid)
  }

  /**
   Each visited set loses the socket and nothing else: the remaining sockets keep their
   insertion order, so later presence lists list them as before.
   */
  lemma {:induction false} SweepKeepsOrder(keys: seq<DocId>, entries: map<DocId, seq<SocketId>>,
                                           sid: SocketId, uid: UserId)
    ensures var swept := Sweep(keys, entries, sid, uid).0;
            forall k :: k in entries && k in keys ==> swept[k] == Remove(entries[k], sid)
    decreases |keys|
  {
    if |keys| > 0 {
      var d := keys[0];
      assert forall k :: k in keys <==> k == d || k in keys[1..];
      if d in entries && sid in entries[d] {
        var swept := entries[d := Remove(entries[d], sid)];
        SweepKeepsOrder(keys[1..], swept, sid, uid);
        assert sid !in Remove(entries[d], sid);
      } else {
        SweepKeepsOrder(keys[1..], entries, sid, uid);
      }
    }
  }

  /** The rooms to notice, split into the first key and the rest after its removal. */
  lemma SweepHeadNoticed(keys: seq<DocId>, entries: map<DocId, seq<SocketId>>, sid: SocketId)
    requires |keys| > 0 && keys[0] in entries && sid in entries[keys[0]]
    ensures var swept := entries[keys[0] := Remove(entries[keys[0]], sid)];
            (set k | k in keys && k in entries && sid in entries[k])
            == {keys[0]} + (set k | k in keys[1..] && k in swept && sid in swept[k])
  {
    assert forall k :: k in keys <==> k == keys[0] || k in keys[1..];
  }

  /**
   The sweep notifies exactly the rooms whose set held the socket, each once, even
   when a key were visited twice.
   */
  lemma {:induction false} SweepNoticesEachRoomOnce(keys: seq<DocId>, entries: map<DocId, seq<SocketId>>,
                                                   sid: SocketId, uid: UserId)
    ensures var out := Sweep(keys, entries, sid, uid).1;
            && NoDup(NoticedRooms(out))
            && Elems(NoticedRooms(out)) == set k | k in keys && k in entries && sid in entries[k]
    decreases |keys|
  {
    if |keys| > 0 {
      var d := keys[0];
      if d in entries && sid in entries[d] {
        var swept := entries[d := Remove(entries[d], sid)];
        SweepNoticesEachRoomOnce(keys[1..], swept, sid, uid);
        var rest := Sweep(keys[1..], swept, sid, uid);
        var e := Emission(ToRoom(d, sid), UserLeft(uid));
        assert Sweep(keys, entries, sid, uid).1 == [e] + rest.1;
        assert ([e] + rest.1)[1..] == rest.1;
        assert d !in Elems(NoticedRooms(rest.1));
        assert Elems(NoticedRooms([e] + rest.1)) == {d} + Elems(NoticedRooms(rest.1));
        SweepHeadNoticed(keys, entries, sid);
      } else {
        SweepNoticesEachRoomOnce(keys[1..], entries, sid, uid);
        assert forall k :: k in keys <==> k == d || k in keys[1..];
      }
    }
  }

  /**
   `disconnect`. Socket.IO has already removed the socket from its rooms and from the
   connected sockets; the handler then removes it from every set in `documentRooms`.
   */
  function OnDisconnect(st: Server, sid: SocketId): (o: Outcome)
    requires sid in st.sessions
    ensures o.server.sessions == st.sessions - {sid}
    ensures o.server.documents == st.documents && o.server.store == st.store
    ensures o.server.documentRooms.keys == st.documentRooms.keys
    ensures o.server.documentRooms.entries.Keys == st.documentRooms.entries.Keys
    ensures Valid(st.documentRooms) ==>
              Valid(o.server.documentRooms)
              && forall k :: Members(o.server, k) == Members(st, k) - {sid}
    ensures forall i :: 0 <= i < |o.out| ==>
              o.out[i].target.ToRoom? && o.out[i].target.except == sid
              && o.out[i].msg == UserLeft(st.sessions[sid].data.userId)
    ensures NoDup(NoticedRooms(o.out))
    ensures Valid(st.documentRooms) ==>
              Elems(NoticedRooms(o.out)) == set k | k in st.documentRooms.entries && sid in Members(st, k)
  {
    var uid := st.sessions[sid].data.userId;
    var swept := Sweep(st.documentRooms.keys, st.documentRooms.entries, sid, uid);
    SweepNoticesEachRoomOnce(st.documentRooms.keys, st.documentRooms.entries, sid, uid);
    var next := st.(sessions := st.sessions - {sid},
                    documentRooms := OrderedMap(st.documentRooms.keys, swept.0));
    Outcome(next, swept.1)
  }

  /** After a disconnect every room's set lists its remaining sockets in their old order. */
  lemma DisconnectKeepsOrder(st: Server, sid: SocketId)
    requires Valid(st.documentRooms) && sid in st.sessions
    ensures forall k :: k in st.documentRooms.entries ==>
              OnDisconnect(st, sid).server.documentRooms.entries[k]
                == Remove(st.documentRooms.entries[k], sid)
  {
    SweepKeepsOrder(st.documentRooms.keys, st.documentRooms.entries, sid,
                    st.sessions[sid].data.userId);
  }

  /**
   One event. Events from sockets that are not connected have no handler to run, and a
   socket connects once. Only a connection adds a session, no event changes which
   records the table holds or any field of them beyond the checkpoint, so no event
   changes who may read a document, and no event drops a live document.
   */
  function Step(st: Server, ev: Event, verify: Verifier): (o: Outcome)
    ensures !ev.Connect? && ev.socket !in st.sessions ==> o == Outcome(st, [])
    ensures ev.Connect? && ev.socket in st.sessions ==> o == Outcome(st, [])
    ensures o.server.sessions.Keys <= st.sessions.Keys + (if ev.Connect? then {ev.socket} else {})
    ensures o.server.store.Keys == st.store.Keys
    ensures forall k :: k in st.store ==> CheckpointOnly(st.store[k], o.server.store[k])
    ensures st.documents.Keys <= o.server.documents.Keys
  {
    match ev
    case Connect(s, token) =>
      if s in st.sessions then Outcome(st, []) else OnConnect(st, s, token, verify)
    case Join(s, d) =>
      if s in st.sessions then OnJoin(st, s, d) else Outcome(st, [])
    case Update(s, d, u, now) =>
      if s in st.sessions then OnSendUpdate(st, s, d, u, now) else Outcome(st, [])
    case Cursor(s, d, c) =>
      if s in st.sessions then OnCursorUpdate(st, s, d, c) else Outcome(st, [])
    case Leave(s, d) =>
      if s in st.sessions then OnLeave(st, s, d) else Outcome(st, [])
    case Disconnect(s) =>
      if s in st.sessions then OnDisconnect(st, s) else Outcome(st, [])
  }

  /**
   A sequence of events, one after another; the emissions are concatenated. Every
   session at the end was connected at the start or by one of the events, and the
   records differ from the start at most in their checkpoints.
   */
  function Run(st: Server, evs: seq<Event>, verify: Verifier): (o: Outcome)
    ensures o.server.store.Keys == st.store.Keys
    ensures forall k :: k in st.store ==> CheckpointOnly(st.store[k], o.server.store[k])
    ensures st.documents.Keys <= o.server.documents.Keys
    ensures forall s :: s in o.server.sessions ==>
              s in st.sessions || exists i :: 0 <= i < |evs| && evs[i].Connect? && evs[i].socket == s
    decreases |evs|
  {
    if |evs| == 0 then Outcome(st, [])
    else
      var first := Step(st, evs[0], verify);
      var rest := Run(first.server, evs[1..], verify);
      assert forall i :: 0 <= i < |evs[1..]| ==> evs[1..][i] == evs[i + 1];
      Outcome(rest.server, first.out + rest.out)
  }
}
