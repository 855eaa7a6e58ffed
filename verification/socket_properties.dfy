/**
 What the engine guarantees to the clients, stated over the invariant: what a joiner
 receives, who receives each broadcast, where the code departs from the expected
 behaviour, and what survives any sequence of events.
 */
module SocketProperties {
  import opened Wrappers
  import opened Ordered
  import opened Crdt
  import opened Identity
  import opened Documents
  import DocumentRoutes
  import opened SocketHandler
  import opened SocketInvariants

  /**
   The WebSocket join admits exactly the users the read route would serve. Both gates
   are the `Readable` filter by construction; the lemma records that the two entry
   points share it.
   */
  lemma JoinAccessMatchesRead(store: Store, d: DocId, u: UserId)
    ensures CheckDocumentAccess(store, d, u) <==> DocumentRoutes.GetDocument(store, d, u).Ok?
  {
  }

  /** A missing token and a token that fails verification are refused alike. */
  lemma HandshakeRefusalsAgree(verify: Verifier, t: string)
    requires verify(t).None?
    ensures Handshake(None, verify) == Handshake(Some(""), verify) == Handshake(Some(t), verify)
  {
  }

  /**
   An admitted joiner is sent the state the table's checkpoint hydrates to, whether the
   room's document already existed or was created by this join.
   */
  lemma JoinSyncIsCheckpoint(st: Server, sid: SocketId, d: DocId)
    requires Inv(st) && sid in st.sessions
    requires CheckDocumentAccess(st.store, d, st.sessions[sid].data.userId)
    ensures OnJoin(st, sid, d).out[0].msg == SyncUpdate(EncodeStateAsUpdate(Hydrate(st.store, d)))
  {
  }

  /**
   An admitted joiner's presence list holds one entry per member recorded for the room,
   the joiner included, in the set's order.
   */
  lemma JoinPresenceComplete(st: Server, sid: SocketId, d: DocId)
    requires Inv(st) && sid in st.sessions
    requires CheckDocumentAccess(st.store, d, st.sessions[sid].data.userId)
    ensures var o := OnJoin(st, sid, d);
            && |o.out[1].msg.users| == |Members(o.server, d)|
            && forall i :: 0 <= i < |o.out[1].msg.users| ==>
                 o.out[1].msg.users[i]
                   == o.server.sessions[o.server.documentRooms.entries[d][i]].data
  {
    var o := OnJoin(st, sid, d);
    JoinPreservesInv(st, sid, d);
    var room := o.server.documentRooms.entries[d];
    NoDupSize(room);
    assert forall s :: s in room ==> s in o.server.sessions;
  }

  /** The join notice reaches every other member of the room and never the joiner. */
  lemma JoinNoticeToOthers(st: Server, sid: SocketId, d: DocId)
    requires Inv(st) && sid in st.sessions
    requires CheckDocumentAccess(st.store, d, st.sessions[sid].data.userId)
    ensures var o := OnJoin(st, sid, d);
            Recipients(o.server, o.out[2].target) == Members(st, d) - {sid}
  {
    var o := OnJoin(st, sid, d);
    JoinPreservesInv(st, sid, d);
    RecipientsAreOtherMembers(o.server, d, sid);
  }

  /**
   An accepted update is merged and relayed verbatim to every other member of the room,
   and afterwards the stored checkpoint hydrates to the in-memory document.
   */
  lemma UpdateDelivers(st: Server, sid: SocketId, d: DocId, u: Update, now: int)
    requires Inv(st) && d in st.documents
    ensures var o := OnSendUpdate(st, sid, d, u, now);
            && Recipients(o.server, o.out[0].target) == Members(st, d) - {sid}
            && sid !in Recipients(o.server, o.out[0].target)
            && (d in st.store ==> Hydrate(o.server.store, d) == o.server.documents[d])
  {
    var o := OnSendUpdate(st, sid, d, u, now);
    RecipientsAreOtherMembers(o.server, d, sid);
  }

  /**
   A cursor is relayed to every other member of the room and never back to its sender,
   carrying the sender's `userId`.
   */
  lemma CursorRelayedToOthers(st: Server, sid: SocketId, d: DocId, c: Cursor)
    requires Inv(st) && sid in st.sessions
    ensures var o := OnCursorUpdate(st, sid, d, c);
            && Recipients(o.server, o.out[0].target) == Members(st, d) - {sid}
            && o.out[0].msg.cursor[UserIdField] == Str(st.sessions[sid].data.userId)
  {
    RecipientsAreOtherMembers(st, d, sid);
  }

  /** An update from a member of the room is never dropped. */
  lemma MemberUpdateAccepted(st: Server, sid: SocketId, d: DocId, u: Update, now: int)
    requires Inv(st) && sid in st.sessions && d in st.sessions[sid].rooms
    ensures OnSendUpdate(st, sid, d, u, now).out == [Emission(ToRoom(d, sid), ReceiveUpdate(u))]
  {
  }

  /**
   As written, the update handler does not check membership: a connected socket outside
   the room still has its update merged, saved and relayed to the whole room.
   */
  lemma NonMemberUpdateAccepted(st: Server, sid: SocketId, d: DocId, u: Update, now: int)
    requires Inv(st) && sid in st.sessions && d !in st.sessions[sid].rooms && d in st.documents
    ensures var o := OnSendUpdate(st, sid, d, u, now);
            && u <= EncodeStateAsUpdate(o.server.documents[d])
            && (d in st.store ==>
                  o.server.store[d].yjsState == Some(EncodeStateAsUpdate(o.server.documents[d])))
            && Recipients(o.server, o.out[0].target) == Members(st, d)
  {
    UpdateDelivers(st, sid, d, u, now);
    assert sid !in Members(st, d);
  }

  /**
   A leave is announced to every remaining member of the room; as written, it is
   announced even when the socket was not a member.
   */
  lemma LeaveAnnounced(st: Server, sid: SocketId, d: DocId)
    requires Inv(st) && sid in st.sessions
    ensures var o := OnLeave(st, sid, d);
            && o.out[0].msg == UserLeft(st.sessions[sid].data.userId)
            && Recipients(o.server, o.out[0].target) == Members(st, d) - {sid}
  {
    var o := OnLeave(st, sid, d);
    LeavePreservesInv(st, sid, d);
    RecipientsAreOtherMembers(o.server, d, sid);
  }

  /**
   The last member's leave deletes the room's entry, but the last member's disconnect
   leaves the emptied entry in place. Neither removes the in-memory document.
   */
  lemma EmptiedRoomsDiffer(st: Server, sid: SocketId, d: DocId)
    requires Inv(st) && sid in st.sessions && Members(st, d) == {sid}
    ensures d !in OnLeave(st, sid, d).server.documentRooms.entries
    ensures d in OnDisconnect(st, sid).server.documentRooms.entries
    ensures Members(OnDisconnect(st, sid).server, d) == {}
    ensures d in OnLeave(st, sid, d).server.documents && d in OnDisconnect(st, sid).server.documents
  {
    assert d in st.documentRooms.entries;
  }

  /**
   A disconnect tells each room the socket was recorded in, once, that the user left;
   each notice reaches exactly the members that remain.
   */
  lemma DisconnectNotifies(st: Server, sid: SocketId)
    requires Inv(st) && sid in st.sessions
    ensures var o := OnDisconnect(st, sid);
            && NoDup(NoticedRooms(o.out))
            && Elems(NoticedRooms(o.out)) == set d | d in st.sessions[sid].rooms
            && forall i :: 0 <= i < |o.out| ==>
                 Recipients(o.server, o.out[i].target) == Members(o.server, o.out[i].target.room)
  {
    var o := OnDisconnect(st, sid);
    DisconnectPreservesInv(st, sid);
    forall i | 0 <= i < |o.out|
      ensures Recipients(o.server, o.out[i].target) == Members(o.server, o.out[i].target.room)
    {
      RecipientsAreOtherMembers(o.server, o.out[i].target.room, sid);
    }
    forall k
      ensures (k in st.documentRooms.entries && sid in Members(st, k)) <==> k in st.sessions[sid].rooms
    {
      if k in st.sessions[sid].rooms {
        assert sid in st.documentRooms.entries[k];
      }
    }
  }

  /**
   Two updates to the same document reach the same merged document and the same
   checkpoint in either order: relay order between senders does not matter.
   */
  lemma ConcurrentUpdatesCommute(st: Server, s1: SocketId, u1: Update, t1: int,
                                 s2: SocketId, u2: Update, t2: int, d: DocId)
    ensures var a := OnSendUpdate(OnSendUpdate(st, s1, d, u1, t1).server, s2, d, u2, t2).server;
            var b := OnSendUpdate(OnSendUpdate(st, s2, d, u2, t2).server, s1, d, u1, t1).server;
            && a.documents == b.documents
            && a.store.Keys == b.store.Keys
            && forall k :: k in a.store ==> a.store[k].yjsState == b.store[k].yjsState
  {
    if d in st.documents {
      ApplyCommutes(st.documents[d], u1, u2);
    }
  }

  /** The updates a sequence of `send-update` events carries, in order. */
  function UpdatesOf(evs: seq<Event>): (us: seq<Update>)
    requires forall i :: 0 <= i < |evs| ==> evs[i].Update?
    ensures |us| == |evs| && forall i :: 0 <= i < |evs| ==> us[i] == evs[i].update
  {
    if |evs| == 0 then [] else [evs[0].update] + UpdatesOf(evs[1..])
  }

  /** Every event is an update to `d` from a connected socket. */
  ghost predicate UpdatesTo(st: Server, evs: seq<Event>, d: DocId) {
    forall i :: 0 <= i < |evs| ==> evs[i].Update? && evs[i].doc == d && evs[i].socket in st.sessions
  }

  /**
   A run of updates to a live document leaves it equal to the document with every
   update merged in delivery order; the connected sockets do not change.
   */
  lemma {:induction false} RunOfUpdatesMerges(st: Server, evs: seq<Event>, d: DocId, verify: Verifier)
    requires d in st.documents && UpdatesTo(st, evs, d)
    ensures var fin := Run(st, evs, verify).server;
            && fin.sessions == st.sessions
            && d in fin.documents
            && fin.documents[d] == ApplyAll(st.documents[d], UpdatesOf(evs))
    decreases |evs|
  {
    if |evs| > 0 {
      var e := evs[0];
      var mid := Step(st, e, verify).server;
      assert mid == OnSendUpdate(st, e.socket, d, e.update, e.now).server;
      assert mid.documents[d] == ApplyUpdate(st.documents[d], e.update);
      assert forall i :: 0 <= i < |evs[1..]| ==> evs[1..][i] == evs[i + 1];
      assert UpdatesTo(mid, evs[1..], d);
      RunOfUpdatesMerges(mid, evs[1..], d, verify);
      assert UpdatesOf(evs)[1..] == UpdatesOf(evs[1..]);
    }
  }

  /**
   Convergence at the server: the same update events, delivered in any order, leave
   the live document in the same state.
   */
  lemma RunOfUpdatesConverges(st: Server, evs: seq<Event>, fs: seq<Event>, d: DocId,
                              verify: Verifier)
    requires d in st.documents && UpdatesTo(st, evs, d) && multiset(evs) == multiset(fs)
    ensures Run(st, evs, verify).server.documents[d] == Run(st, fs, verify).server.documents[d]
  {
    forall i | 0 <= i < |fs|
      ensures fs[i].Update? && fs[i].doc == d && fs[i].socket in st.sessions
    {
      assert fs[i] in multiset(evs);
    }
    RunOfUpdatesMerges(st, evs, d, verify);
    RunOfUpdatesMerges(st, fs, d, verify);
    var us, vs := UpdatesOf(evs), UpdatesOf(fs);
    forall u ensures u in us <==> u in vs {
      if u in us {
        var i :| 0 <= i < |us| && us[i] == u;
        assert evs[i] in multiset(fs);
        var j :| 0 <= j < |fs| && fs[j] == evs[i];
        assert vs[j] == u;
      }
      if u in vs {
        var j :| 0 <= j < |vs| && vs[j] == u;
        assert fs[j] in multiset(evs);
        var i :| 0 <= i < |evs| && evs[i] == fs[j];
        assert us[i] == u;
      }
    }
    ApplyAllOrderInsensitive(st.documents[d], us, vs);
  }

  /**
   Over any sequence of events no document is ever removed from `documents` or replaced:
   each keeps every operation it held.
   */
  lemma {:induction false} RunKeepsDocuments(st: Server, evs: seq<Event>, verify: Verifier)
    ensures var fin := Run(st, evs, verify).server;
            forall d :: d in st.documents ==>
              d in fin.documents && st.documents[d].items <= fin.documents[d].items
    decreases |evs|
  {
    if |evs| > 0 {
      var mid := Step(st, evs[0], verify).server;
      RunKeepsDocuments(mid, evs[1..], verify);
      forall d | d in st.documents
        ensures d in mid.documents && st.documents[d].items <= mid.documents[d].items
      {
      }
    }
  }

  /** No sequence of socket events changes who may list, read, rename or delete a document. */
  lemma RunKeepsAccess(st: Server, evs: seq<Event>, verify: Verifier, k: DocId, u: UserId)
    requires k in st.store
    ensures var fin := Run(st, evs, verify).server;
            && k in fin.store
            && Listable(fin.store[k], u) == Listable(st.store[k], u)
            && Readable(fin.store[k], u) == Readable(st.store[k], u)
            && Renamable(fin.store[k], u) == Renamable(st.store[k], u)
            && IsOwner(fin.store[k], u) == IsOwner(st.store[k], u)
  {
  }

  /**
   Over any sequence of events from a fresh start, a socket is recorded in a room only
   while it is connected and in that Socket.IO room, and every room has its document.
   */
  lemma RunFromInit(store: Store, evs: seq<Event>, verify: Verifier)
    ensures var fin := Run(Init(store), evs, verify).server;
            && (forall d, s :: d in fin.documentRooms.entries && s in fin.documentRooms.entries[d]
                  ==> s in fin.sessions && d in fin.sessions[s].rooms)
            && fin.documentRooms.entries.Keys <= fin.documents.Keys
            && forall d :: d in fin.documents && d in fin.store ==>
                 Hydrate(fin.store, d) == fin.documents[d]
  {
    InitInv(store);
    RunPreservesInv(Init(store), evs, verify);
  }
}
