/**
 The invariant the engine keeps over every event, and what it buys: broadcasts reach
 exactly the other recorded members of a room, presence lists are complete, and the
 stored checkpoint always reproduces the in-memory document.
 */
module SocketInvariants {
  import opened Wrappers
  import opened Ordered
  import opened Crdt
  import opened Identity
  import opened Documents
  import opened SocketHandler

  /** `documentRooms` is a well-formed map of sets. */
  ghost predicate RoomsWellFormed(st: Server) {
    Valid(st.documentRooms)
    && forall d :: d in st.documentRooms.entries ==> NoDup(st.documentRooms.entries[d])
  }

  /** Every socket recorded for a room is connected and in the Socket.IO room of that name. */
  ghost predicate MembersConnected(st: Server) {
    forall d, s :: d in st.documentRooms.entries && s in st.documentRooms.entries[d] ==>
      s in st.sessions && d in st.sessions[s].rooms
  }

  /** Every Socket.IO room a connected socket is in is recorded in `documentRooms`. */
  ghost predicate RoomsRecorded(st: Server) {
    forall s, d :: s in st.sessions && d in st.sessions[s].rooms ==>
      d in st.documentRooms.entries && s in st.documentRooms.entries[d]
  }

  /** Every recorded room has its in-memory document. */
  ghost predicate RoomsHaveDocuments(st: Server) {
    st.documentRooms.entries.Keys <= st.documents.Keys
  }

  /** Hydrating a fresh document from the table would reproduce the in-memory one. */
  ghost predicate CheckpointsCurrent(st: Server) {
    forall d :: d in st.documents && d in st.store ==> Hydrate(st.store, d) == st.documents[d]
  }

  ghost predicate Inv(st: Server) {
    && RoomsWellFormed(st)
    && MembersConnected(st)
    && RoomsRecorded(st)
    && RoomsHaveDocuments(st)
    && CheckpointsCurrent(st)
  }

  /** A freshly started process satisfies the invariant, whatever the table holds. */
  lemma InitInv(store: Store)
    ensures Inv(Init(store))
  {
  }

  /**
   A broadcast from `ex` to room `d` reaches exactly the sockets recorded for `d`,
   less `ex`: the Socket.IO room and `documentRooms` agree.
   */
  lemma RecipientsAreOtherMembers(st: Server, d: DocId, ex: SocketId)
    requires MembersConnected(st) && RoomsRecorded(st)
    ensures Recipients(st, ToRoom(d, ex)) == Members(st, d) - {ex}
  {
    forall s | s in Members(st, d) - {ex}
      ensures s in Recipients(st, ToRoom(d, ex))
    {
      assert s in st.documentRooms.entries[d];
    }
  }

  lemma ConnectPreservesInv(st: Server, sid: SocketId, token: Option<string>, verify: Verifier)
    requires Inv(st) && sid !in st.sessions
    ensures Inv(OnConnect(st, sid, token, verify).server)
  {
  }

  lemma AdmitKeepsRoomsWellFormed(st: Server, sid: SocketId, d: DocId)
    requires RoomsWellFormed(st) && sid in st.sessions
    ensures RoomsWellFormed(Admit(st, sid, d))
  {
    var next := Admit(st, sid, d);
    forall k | k in next.documentRooms.entries
      ensures NoDup(next.documentRooms.entries[k])
    {
      if k == d {
        var room := if d in st.documentRooms.entries then st.documentRooms.entries[d] else [];
        assert next.documentRooms.entries[d] == Add(room, sid);
      }
    }
  }

  lemma AdmitKeepsMembership(st: Server, sid: SocketId, d: DocId)
    requires MembersConnected(st) && RoomsRecorded(st) && sid in st.sessions
    ensures MembersConnected(Admit(st, sid, d)) && RoomsRecorded(Admit(st, sid, d))
  {
    var next := Admit(st, sid, d);
    forall k, s | k in next.documentRooms.entries && s in next.documentRooms.entries[k]
      ensures s in next.sessions && k in next.sessions[s].rooms
    {
      assert s in Members(next, k);
      if k != d {
        assert s in Members(st, k);
      }
    }
    forall s, k | s in next.sessions && k in next.sessions[s].rooms
      ensures k in next.documentRooms.entries && s in next.documentRooms.entries[k]
    {
      if k != d || s != sid {
        assert s in Members(st, k);
      }
      assert s in Members(next, k);
    }
  }

  lemma JoinPreservesInv(st: Server, sid: SocketId, d: DocId)
    requires Inv(st) && sid in st.sessions
    ensures Inv(OnJoin(st, sid, d).server)
  {
    if CheckDocumentAccess(st.store, d, st.sessions[sid].data.userId) {
      AdmitKeepsRoomsWellFormed(st, sid, d);
      AdmitKeepsMembership(st, sid, d);
    }
  }

  lemma SendUpdatePreservesInv(st: Server, sid: SocketId, d: DocId, u: Update, now: int)
    requires Inv(st)
    ensures Inv(OnSendUpdate(st, sid, d, u, now).server)
  {
  }

  lemma CursorPreservesInv(st: Server, sid: SocketId, d: DocId, c: Cursor)
    requires Inv(st) && sid in st.sessions
    ensures Inv(OnCursorUpdate(st, sid, d, c).server)
  {
  }

  lemma LeavePreservesInv(st: Server, sid: SocketId, d: DocId)
    requires Inv(st) && sid in st.sessions
    ensures Inv(OnLeave(st, sid, d).server)
  {
    var next := OnLeave(st, sid, d).server;
    forall k | k in next.documentRooms.entries
      ensures NoDup(next.documentRooms.entries[k])
    {
      if k == d {
        assert next.documentRooms.entries[d] == Remove(st.documentRooms.entries[d], sid);
      }
    }
    forall k, s | k in next.documentRooms.entries && s in next.documentRooms.entries[k]
      ensures s in next.sessions && k in next.sessions[s].rooms
    {
      assert s in Members(next, k);
      assert s in Members(st, k);
    }
    forall s, k | s in next.sessions && k in next.sessions[s].rooms
      ensures k in next.documentRooms.entries && s in next.documentRooms.entries[k]
    {
      assert s in Members(st, k);
      assert s in Members(next, k);
    }
  }

  /** After a disconnect, every socket still recorded for a room is connected and in it. */
  lemma DisconnectKeepsMembersConnected(st: Server, sid: SocketId)
    requires Inv(st) && sid in st.sessions
    ensures MembersConnected(OnDisconnect(st, sid).server)
  {
    var next := OnDisconnect(st, sid).server;
    assert next.sessions == st.sessions - {sid};
    assert forall k :: Members(next, k) == Members(st, k) - {sid};
    forall k, s | k in next.documentRooms.entries && s in next.documentRooms.entries[k]
      ensures s in next.sessions && k in next.sessions[s].rooms
    {
      assert s in Members(next, k);
      assert s != sid && s in st.documentRooms.entries[k];
    }
  }

  /** After a disconnect, every room a connected socket is in still records it. */
  lemma DisconnectKeepsRoomsRecorded(st: Server, sid: SocketId)
    requires Inv(st) && sid in st.sessions
    ensures RoomsRecorded(OnDisconnect(st, sid).server)
  {
    var next := OnDisconnect(st, sid).server;
    forall s, k | s in next.sessions && k in next.sessions[s].rooms
      ensures k in next.documentRooms.entries && s in next.documentRooms.entries[k]
    {
      assert s in Members(st, k);
      assert s in Members(next, k);
    }
  }

  lemma DisconnectPreservesInv(st: Server, sid: SocketId)
    requires Inv(st) && sid in st.sessions
    ensures Inv(OnDisconnect(st, sid).server)
  {
    DisconnectKeepsMembersConnected(st, sid);
    DisconnectKeepsRoomsRecorded(st, sid);
  }

  /** Every event keeps the invariant. */
  lemma StepPreservesInv(st: Server, ev: Event, verify: Verifier)
    requires Inv(st)
    ensures Inv(Step(st, ev, verify).server)
  {
    match ev
    case Connect(s, token) =>
      if s !in st.sessions { ConnectPreservesInv(st, s, token, verify); }
    case Join(s, d) =>
      if s in st.sessions { JoinPreservesInv(st, s, d); }
    case Update(s, d, u, now) =>
      if s in st.sessions { SendUpdatePreservesInv(st, s, d, u, now); }
    case Cursor(s, d, c) =>
      if s in st.sessions { CursorPreservesInv(st, s, d, c); }
    case Leave(s, d) =>
      if s in st.sessions { LeavePreservesInv(st, s, d); }
    case Disconnect(s) =>
      if s in st.sessions { DisconnectPreservesInv(st, s); }
  }

  /** Every sequence of events keeps the invariant. */
  lemma {:induction false} RunPreservesInv(st: Server, evs: seq<Event>, verify: Verifier)
    requires Inv(st)
    ensures Inv(Run(st, evs, verify).server)
    decreases |evs|
  {
    if |evs| > 0 {
      StepPreservesInv(st, evs[0], verify);
      RunPreservesInv(Step(st, evs[0], verify).server, evs[1..], verify);
    }
  }
}
